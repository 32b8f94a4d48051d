/**
 Document processing, full scans and incremental runs of index.rs, as functions
 on the catalog, together with what the index shows for a root afterwards.
 */
module Indexing {
  import opened Prelude
  import opened Catalog

  datatype FileType = Markdown | PlainText

  /** The parser each supported file type selects.  Versions change between builds. */
  type Registry = FileType -> ParserKey

  /** Where, if anywhere, reading or one of the two commits of `process_document` fails or the run stops. */
  datatype Fault = NoFault | ReadFails | FirstCommitFails | SecondCommitFails

  datatype Document = Document(path: Path, fileType: FileType, bytes: Bytes, fault: Fault)

  datatype Outcome = Addition(segments: nat) | Modification(segments: nat) | Unchanged | Failure

  /** The stored row a document refers to, or the fresh identity it gets. */
  ghost function IdFor(db: Db, root: RootId, path: Path): SourceId {
    var found := FindSource(db, root, path);
    if found.Some? then found.value else db.next
  }

  ghost function CurrentOf(db: Db, root: RootId, path: Path): Option<RevisionId> {
    var found := FindSource(db, root, path);
    if found.Some? && found.value in db.sources then db.sources[found.value].current else None
  }

  /** The current revision already came from these bytes and this parser. */
  predicate UpToDate(db: Db, current: Option<RevisionId>, hash: ContentHash, key: ParserKey) {
    && current.Some? && current.value in db.revisions
    && db.revisions[current.value].hash == hash
    && db.revisions[current.value].parser == key
    && db.revisions[current.value].status == Indexed
  }

  /** The first commit: the identity row, with the stored pointer. */
  function IdentityRow(root: RootId, path: Path, current: Option<RevisionId>, parses: bool): SourceRow {
    SourceRow(root, path, current, if parses || current.Some? then Active else Error)
  }

  /** The second commit, after the identity row is stored. */
  ghost function SecondCommit(mid: Db, id: SourceId, row: SourceRow, hash: ContentHash, key: ParserKey,
                              parsed: Option<seq<ParsedSegment>>): Option<Db> {
    if parsed.None? then InsertFailedRevision(mid, RevisionRow(id, hash, key, Failed))
    else Promote(mid, row, RevisionRow(id, hash, key, Indexed), parsed.value)
  }

  /** `process_document`: an error leaves whatever had been committed by then. */
  ghost function Process(db: Db, root: RootId, doc: Document, registry: Registry, parse: Parsing): (Db, Outcome) {
    var id := IdFor(db, root, doc.path);
    var current := CurrentOf(db, root, doc.path);
    var key, hash := registry(doc.fileType), Blake3(doc.bytes);
    if doc.fault == ReadFails then (db, Failure)
    else if UpToDate(db, current, hash, key) then
      var stored := UpsertSource(db, id, SourceRow(root, doc.path, current, Active));
      if doc.fault == FirstCommitFails || stored.None? then (db, Failure) else (stored.value, Unchanged)
    else
      var parsed := parse(key, doc.bytes);
      var row := IdentityRow(root, doc.path, current, parsed.Some?);
      var stored := UpsertSource(db, id, row);
      if doc.fault == FirstCommitFails || stored.None? then (db, Failure)
      else
        var done := SecondCommit(stored.value, id, row, hash, key, parsed);
        if doc.fault == SecondCommitFails || done.None? then (stored.value, Failure)
        else if parsed.None? then (done.value, Failure)
        else if current.Some? && current.value in db.revisions then (done.value, Modification(|parsed.value|))
        else (done.value, Addition(|parsed.value|))
  }

  datatype Tally = Tally(additions: nat, modifications: nat, same: nat, failures: nat, segments: nat)

  const NO_TALLY := Tally(0, 0, 0, 0, 0)

  function Count(t: Tally, outcome: Outcome): Tally {
    match outcome
    case Addition(n) => t.(additions := t.additions + 1, segments := t.segments + n)
    case Modification(n) => t.(modifications := t.modifications + 1, segments := t.segments + n)
    case Unchanged => t.(same := t.same + 1)
    case Failure => t.(failures := t.failures + 1)
  }

  /** The document loop of a full scan. */
  ghost function ProcessAll(db: Db, root: RootId, docs: seq<Document>, registry: Registry, parse: Parsing): (Db,
                            Tally) {
    if docs == [] then (db, NO_TALLY)
    else
      var (before, tally) := ProcessAll(db, root, docs[..|docs| - 1], registry, parse);
      var (after, outcome) := Process(before, root, docs[|docs| - 1], registry, parse);
      (after, Count(tally, outcome))
  }

  function Paths(docs: seq<Document>): set<Path> {
    set i | 0 <= i < |docs| :: docs[i].path
  }

  /** `list_active_source_files`, keeping the rows a scan did not see. */
  function Unseen(db: Db, root: RootId, seen: set<Path>): set<SourceId> {
    set s | s in db.sources && db.sources[s].root == root && db.sources[s].state == Active
        && db.sources[s].path !in seen
  }

  /** `mark_source_deleted` on every source in `gone`. */
  function DeleteSources(db: Db, gone: set<SourceId>): Db {
    var pointers := set s | s in gone && s in db.sources && db.sources[s].current.Some? :: db.sources[s].current.value;
    db.(fts := map k | k in db.fts && db.fts[k].revision !in pointers :: db.fts[k],
        sources := map s | s in db.sources ::
                     if s in gone then db.sources[s].(current := None, state := SourceState.Deleted) else db.sources[s])
  }

  datatype ScanReport = DiscoveryFailed | Completed(discovered: nat, tally: Tally, deletions: nat)

  /** `index_one_root_full` as far as the tables go. */
  ghost function FullScan(db: Db, root: RootId, discovery: Option<seq<Document>>, registry: Registry, parse: Parsing)
    : (Db, ScanReport)
  {
    var rooted := UpsertRoot(db, root);
    if discovery.None? then (rooted, DiscoveryFailed)
    else
      var docs := discovery.value;
      var (processed, tally) := ProcessAll(rooted, root, docs, registry, parse);
      var gone := Unseen(processed, root, Paths(docs));
      (DeleteSources(processed, gone), Completed(|docs|, tally, |gone|))
  }

  datatype ChangeKind = Added | Modified | Deleted

  /** A changed path, whether it is a safe relative path, and what `validate_relative_path` makes of it. */
  datatype Change = Change(path: Path, kind: ChangeKind, safe: bool, document: Option<Document>)

  datatype IncrementalReport = IncrementalReport(discovered: nat, tally: Tally, deletions: nat)

  /** One step of the change loop in `index_one_root_maybe_incremental`. */
  ghost function ApplyChange(db: Db, report: IncrementalReport, root: RootId, change: Change, registry: Registry,
                             parse: Parsing): (Db, IncrementalReport)
  {
    if !change.safe then (db, report)
    else if change.kind == ChangeKind.Deleted then
      var found := FindSource(db, root, change.path);
      if found.None? || found.value !in db.sources then (db, report)
      else (MarkDeleted(db, found.value, db.sources[found.value]), report.(deletions := report.deletions + 1))
    else if change.document.None? then (db, report)
    else
      var (after, outcome) := Process(db, root, change.document.value, registry, parse);
      (after, report.(discovered := report.discovered + 1, tally := Count(report.tally, outcome)))
  }

  ghost function ApplyChanges(db: Db, root: RootId, changes: seq<Change>, registry: Registry, parse: Parsing)
    : (Db, IncrementalReport)
  {
    if changes == [] then (db, IncrementalReport(0, NO_TALLY, 0))
    else
      var (before, report) := ApplyChanges(db, root, changes[..|changes| - 1], registry, parse);
      ApplyChange(before, report, root, changes[|changes| - 1], registry, parse)
  }

  /** The Git path of `index_one_root_maybe_incremental`, once a base and a change list are known. */
  ghost function Incremental(db: Db, root: RootId, changes: seq<Change>, registry: Registry, parse: Parsing)
    : (Db, IncrementalReport)
  {
    ApplyChanges(UpsertRoot(db, root), root, changes, registry, parse)
  }

  // ------------------------------------------------------- what a root shows

  /** The segments stored for a revision; ordinals are unique, so nothing is lost. */
  ghost function Content(db: Db, r: RevisionId): set<ParsedSegment> {
    set g | g in db.segments && db.segments[g].revision == r :: db.segments[g].parsed
  }

  datatype Listing = Absent | Pending | Listed(hash: ContentHash, parser: ParserKey, segments: set<ParsedSegment>)

  ghost function ListingOf(db: Db, s: SourceId): Listing {
    if s !in db.sources || db.sources[s].state != Active then Absent
    else if db.sources[s].current.None? || db.sources[s].current.value !in db.revisions then Pending
    else
      var r := db.sources[s].current.value;
      Listed(db.revisions[r].hash, db.revisions[r].parser, Content(db, r))
  }

  /** What the index holds for a path of a root: nothing active, an active file without a revision, or a file. */
  ghost function ListingAt(db: Db, root: RootId, path: Path): Listing {
    var found := FindSource(db, root, path);
    if found.None? then Absent else ListingOf(db, found.value)
  }

  /** Every indexed revision holds exactly what its parser makes of its bytes. */
  ghost predicate Faithful(db: Db, parse: Parsing) {
    forall r :: r in db.revisions && db.revisions[r].status == Indexed ==> RevisionFaithful(db, r, parse)
  }

  ghost predicate RevisionFaithful(db: Db, r: RevisionId, parse: Parsing)
    requires r in db.revisions
  {
    var parsed := parse(db.revisions[r].parser, db.revisions[r].hash.bytes);
    && parsed.Some? && StorableSegments(parsed.value)
    && Content(db, r) == AsSet(parsed.value)
  }

  ghost function AsSet(parsed: seq<ParsedSegment>): set<ParsedSegment> {
    set p | p in parsed
  }

  /** What a file with this type and these bytes should show. */
  ghost function ListingFor(fileType: FileType, bytes: Bytes, registry: Registry, parse: Parsing): Listing {
    var parsed := parse(registry(fileType), bytes);
    if parsed.None? then Pending else Listed(Blake3(bytes), registry(fileType), AsSet(parsed.value))
  }
}
