/**
 The relational state behind the local index (migrations/0001, 0002) and the
 transactions of storage.rs that change it.  Every function below is one SQL
 transaction: it yields the whole next state, or `None` when a constraint makes
 SQLite roll the transaction back.
 */
module Catalog {
  import opened Prelude

  type Bytes = seq<bv8>
  type Path = string
  type RootId = nat
  type SourceId = nat
  type RevisionId = nat
  type SegmentId = nat
  type RowId = nat

  /** BLAKE3 taken as collision free: a digest is identified with what it digests. */
  datatype ContentHash = Blake3(bytes: Bytes)

  datatype ParserKey = ParserKey(id: string, version: string)
  datatype ParsedSegment = ParsedSegment(anchor: string, ordinal: nat, text: string)

  /** What every parser, under every version it ever had, makes of some bytes. */
  type Parsing = (ParserKey, Bytes) -> Option<seq<ParsedSegment>>

  datatype SourceState = Active | Deleted | Excluded | Unsupported | Error
  datatype RevisionStatus = Prepared | Indexed | Failed

  datatype SourceRow = SourceRow(root: RootId, path: Path, current: Option<RevisionId>, state: SourceState)
  datatype RevisionRow = RevisionRow(source: SourceId, hash: ContentHash, parser: ParserKey, status: RevisionStatus)
  datatype SegmentRow = SegmentRow(revision: RevisionId, parsed: ParsedSegment)
  datatype FtsRow = FtsRow(segment: SegmentId, revision: RevisionId, source: SourceId, root: RootId,
                           path: Path, anchor: string, text: string)

  /** All index tables.  Every identifier ever handed out is below `next`. */
  datatype Db = Db(roots: set<RootId>,
                   sources: map<SourceId, SourceRow>,
                   revisions: map<RevisionId, RevisionRow>,
                   segments: map<SegmentId, SegmentRow>,
                   fts: map<RowId, FtsRow>,
                   next: nat)

  const EMPTY := Db({}, map[], map[], map[], map[], 0)

  // ---------------------------------------------------------------- invariant

  /** Primary keys are fresh, foreign keys resolve. */
  ghost predicate KeysResolve(db: Db) {
    && (forall s :: s in db.sources ==> s < db.next && db.sources[s].root in db.roots)
    && (forall r :: r in db.revisions ==> r < db.next && db.revisions[r].source in db.sources)
    && (forall g :: g in db.segments ==> g < db.next && db.segments[g].revision in db.revisions)
    && (forall k :: k in db.fts ==> k < db.next)
  }

  predicate SamePlace(a: SourceRow, b: SourceRow) {
    a.root == b.root && a.path == b.path
  }

  predicate SameKey(a: RevisionRow, b: RevisionRow) {
    a.source == b.source && a.hash == b.hash && a.parser == b.parser
  }

  predicate Clash(a: SegmentRow, b: SegmentRow) {
    a.revision == b.revision && (a.parsed.ordinal == b.parsed.ordinal || a.parsed.anchor == b.parsed.anchor)
  }

  /** The UNIQUE clauses of the schema. */
  ghost predicate UniqueSources(db: Db) {
    forall s, t {:trigger SamePlace(db.sources[s], db.sources[t])} ::
      s in db.sources && t in db.sources && SamePlace(db.sources[s], db.sources[t]) ==> s == t
  }

  ghost predicate UniqueRevisions(db: Db) {
    forall r, q {:trigger SameKey(db.revisions[r], db.revisions[q])} ::
      r in db.revisions && q in db.revisions && SameKey(db.revisions[r], db.revisions[q]) ==> r == q
  }

  ghost predicate UniqueSegments(db: Db) {
    forall g, h {:trigger Clash(db.segments[g], db.segments[h])} ::
      g in db.segments && h in db.segments && Clash(db.segments[g], db.segments[h]) ==> g == h
  }

  /** A current pointer belongs to an active source and names an indexed revision of that very source. */
  ghost predicate PointersSound(db: Db) {
    forall s :: s in db.sources && db.sources[s].current.Some? ==>
      && db.sources[s].state == Active
      && db.sources[s].current.value in db.revisions
      && db.revisions[db.sources[s].current.value].source == s
      && db.revisions[db.sources[s].current.value].status == Indexed
  }

  /** Revision `r` is what some active source currently points at. */
  ghost predicate Live(db: Db, r: RevisionId) {
    && r in db.revisions
    && db.revisions[r].source in db.sources
    && db.sources[db.revisions[r].source].state == Active
    && db.sources[db.revisions[r].source].current == Some(r)
  }

  ghost predicate IsFtsRowOf(db: Db, row: FtsRow, g: SegmentId) {
    && g in db.segments
    && row.segment == g
    && row.revision == db.segments[g].revision
    && row.anchor == db.segments[g].parsed.anchor
    && row.text == db.segments[g].parsed.text
    && row.revision in db.revisions
    && row.source == db.revisions[row.revision].source
    && row.source in db.sources
    && row.root == db.sources[row.source].root
    && row.path == db.sources[row.source].path
  }

  /** Some row of the full-text table holds segment `g`. */
  ghost predicate Searchable(db: Db, g: SegmentId) {
    exists k :: k in db.fts && db.fts[k].segment == g
  }

  /** Each full-text row is the row of a segment of a live revision. */
  ghost predicate FtsSound(db: Db) {
    forall k :: k in db.fts ==> IsFtsRowOf(db, db.fts[k], db.fts[k].segment) && Live(db, db.fts[k].revision)
  }

  /** Each segment of a live revision has a full-text row. */
  ghost predicate FtsComplete(db: Db) {
    forall g :: g in db.segments && Live(db, db.segments[g].revision) ==> Searchable(db, g)
  }

  /** No segment has two full-text rows. */
  ghost predicate FtsOnce(db: Db) {
    forall k, l {:trigger db.fts[k].segment, db.fts[l].segment} ::
      k in db.fts && l in db.fts && db.fts[k].segment == db.fts[l].segment ==> k == l
  }

  ghost predicate Inv(db: Db) {
    && KeysResolve(db)
    && UniqueSources(db) && UniqueRevisions(db) && UniqueSegments(db)
    && PointersSound(db)
    && FtsSound(db) && FtsComplete(db) && FtsOnce(db)
  }

  // ------------------------------------------------------------- transactions

  ghost predicate HasSource(db: Db, root: RootId, path: Path) {
    exists s :: s in db.sources && db.sources[s].root == root && db.sources[s].path == path
  }

  /** `find_source_file`: the row with this root and relative path, in whatever state. */
  ghost function FindSource(db: Db, root: RootId, path: Path): Option<SourceId> {
    if HasSource(db, root, path) then
      var s :| s in db.sources && db.sources[s].root == root && db.sources[s].path == path;
      Some(s)
    else None
  }

  /** `upsert_root`. */
  function UpsertRoot(db: Db, root: RootId): Db {
    db.(roots := db.roots + {root})
  }

  /** `upsert_source_file`: ON CONFLICT(root_id, relative_path) the stored identity wins. */
  ghost function UpsertSource(db: Db, id: SourceId, row: SourceRow): Option<Db> {
    if row.root !in db.roots then None
    else
      var found := FindSource(db, row.root, row.path);
      var target := if found.Some? then found.value else id;
      Some(db.(sources := db.sources[target := row], next := if id < db.next then db.next else id + 1))
  }

  predicate RevisionKeyTaken(db: Db, row: RevisionRow) {
    exists r :: r in db.revisions && SameKey(db.revisions[r], row)
  }

  predicate Apart(a: ParsedSegment, b: ParsedSegment) {
    a.ordinal != b.ordinal && a.anchor != b.anchor
  }

  /** Parser output that both UNIQUE clauses of `segments` accept. */
  ghost predicate StorableSegments(parsed: seq<ParsedSegment>) {
    forall i, j {:trigger Apart(parsed[i], parsed[j])} :: 0 <= i < j < |parsed| ==> Apart(parsed[i], parsed[j])
  }

  function WithoutRevision(fts: map<RowId, FtsRow>, r: Option<RevisionId>): map<RowId, FtsRow> {
    map k | k in fts && Some(fts[k].revision) != r :: fts[k]
  }

  /** The rows stored for the first `n` parsed segments, under consecutive identifiers from `first`. */
  function SegmentRows(parsed: seq<ParsedSegment>, n: nat, rev: RevisionId, first: nat): map<SegmentId, SegmentRow>
    requires n <= |parsed|
  {
    if n == 0 then map[]
    else SegmentRows(parsed, n - 1, rev, first)[first + (n - 1) := SegmentRow(rev, parsed[n - 1])]
  }

  function FtsRowFor(p: ParsedSegment, segment: SegmentId, rev: RevisionId, source: SourceId, at: SourceRow): FtsRow {
    FtsRow(segment, rev, source, at.root, at.path, p.anchor, p.text)
  }

  function FtsRows(parsed: seq<ParsedSegment>, n: nat, rev: RevisionId, source: SourceId, at: SourceRow,
                   firstSegment: nat, firstRow: nat): map<RowId, FtsRow>
    requires n <= |parsed|
  {
    if n == 0 then map[]
    else
      FtsRows(parsed, n - 1, rev, source, at, firstSegment, firstRow)
        [firstRow + (n - 1) := FtsRowFor(parsed[n - 1], firstSegment + (n - 1), rev, source, at)]
  }

  lemma {:induction false} SegmentRowsAre(parsed: seq<ParsedSegment>, n: nat, rev: RevisionId, first: nat)
    requires n <= |parsed|
    ensures forall g: nat :: g in SegmentRows(parsed, n, rev, first) <==> first <= g < first + n
    ensures forall g: nat :: first <= g < first + n ==>
              SegmentRows(parsed, n, rev, first)[g] == SegmentRow(rev, parsed[g - first])
  {
    if n > 0 {
      SegmentRowsAre(parsed, n - 1, rev, first);
    }
  }

  lemma {:induction false} FtsRowsAre(parsed: seq<ParsedSegment>, n: nat, rev: RevisionId, source: SourceId,
                                      at: SourceRow, firstSegment: nat, firstRow: nat)
    requires n <= |parsed|
    ensures forall k: nat :: k in FtsRows(parsed, n, rev, source, at, firstSegment, firstRow) <==>
            firstRow <= k < firstRow + n
    ensures forall k: nat :: firstRow <= k < firstRow + n ==>
              FtsRows(parsed, n, rev, source, at, firstSegment, firstRow)[k]
              == FtsRowFor(parsed[k - firstRow], firstSegment + (k - firstRow), rev, source, at)
  {
    if n > 0 {
      FtsRowsAre(parsed, n - 1, rev, source, at, firstSegment, firstRow);
    }
  }

  /**
   `promote_revision`: drop the previous revision's full-text rows, store the
   revision, its segments and their full-text rows, move the pointer.  `at` is
   the caller's copy of the source row.
   */
  ghost function Promote(db: Db, at: SourceRow, rev: RevisionRow, parsed: seq<ParsedSegment>): Option<Db> {
    if rev.source !in db.sources || RevisionKeyTaken(db, rev) || !StorableSegments(parsed) then None
    else Some(Promoted(db, at, rev, parsed))
  }

  function Promoted(db: Db, at: SourceRow, rev: RevisionRow, parsed: seq<ParsedSegment>): Db
    requires rev.source in db.sources
  {
    var id := db.next;
    var first := id + 1;
    db.(revisions := db.revisions[id := rev],
        segments := db.segments + SegmentRows(parsed, |parsed|, id, first),
        fts := WithoutRevision(db.fts, at.current)
               + FtsRows(parsed, |parsed|, id, rev.source, at, first, first + |parsed|),
        sources := db.sources[rev.source := db.sources[rev.source].(current := Some(id), state := Active)],
        next := first + 2 * |parsed|)
  }

  /** The insert inside `record_parse_failure`. */
  ghost function InsertFailedRevision(db: Db, rev: RevisionRow): Option<Db> {
    if rev.source !in db.sources || RevisionKeyTaken(db, rev) then None
    else Some(db.(revisions := db.revisions[db.next := rev], next := db.next + 1))
  }

  /** `mark_source_deleted`, given the caller's copy of the row. */
  function MarkDeleted(db: Db, source: SourceId, at: SourceRow): Db {
    db.(fts := if at.current.Some? then WithoutRevision(db.fts, at.current) else db.fts,
        sources := if source in db.sources
                   then db.sources[source := db.sources[source].(current := None, state := Deleted)]
                   else db.sources)
  }

  /** `delete_root_derived`. */
  function DeleteRoot(db: Db, root: RootId): Db {
    var gone := set s | s in db.sources && db.sources[s].root == root;
    var goneRevisions := set r | r in db.revisions && db.revisions[r].source in gone;
    db.(fts := map k | k in db.fts && db.fts[k].root != root :: db.fts[k],
        segments := map g | g in db.segments && db.segments[g].revision !in goneRevisions :: db.segments[g],
        revisions := db.revisions - goneRevisions,
        sources := db.sources - gone,
        roots := db.roots - {root})
  }

}
