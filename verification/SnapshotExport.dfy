/** `build_payload` and the manifest of an export: what leaves the index is what import accepts. */
module SnapshotExport {
  import opened Prelude
  import opened Catalog
  import opened SnapshotFormat

  /** Columns the index tables of `Catalog` leave out, and the printed form of a root id. */
  datatype Columns = Columns(names: map<RootId, string>, shown: RootId -> RootName, kinds: SourceId -> FileKind)

  /** Two roots print alike only if they are one. */
  ghost predicate PrintsApart(x: Columns, a: RootId, b: RootId) {
    x.shown(a) == x.shown(b) ==> a == b
  }

  /** `names` lists the enabled roots; ids print distinctly and never empty; stored kinds are the supported ones. */
  ghost predicate ColumnsOk(db: Db, x: Columns) {
    && x.names.Keys <= db.roots
    && (forall r :: x.shown(r) != "")
    && (forall a, b {:trigger PrintsApart(x, a, b)} :: PrintsApart(x, a, b))
    && (forall s :: SupportedKind(x.kinds(s)))
  }

  /** The enabled roots an export was asked for. */
  function SelectedRoots(x: Columns, only: Option<RootId>): set<RootId> {
    if only.None? then x.names.Keys else if only.value in x.names then {only.value} else {}
  }

  function ActiveIn(db: Db, roots: set<RootId>): set<SourceId> {
    set s | s in db.sources && db.sources[s].state == Active && db.sources[s].root in roots
  }

  function SourceOf(db: Db, x: Columns, s: SourceId): PayloadSource
    requires s in db.sources
  {
    var row := db.sources[s];
    PayloadSource(x.shown(row.root), row.path, x.kinds(s), row.current, row.state)
  }

  /** Current revisions of these sources. */
  ghost predicate CurrentOf(db: Db, sources: set<SourceId>, r: RevisionId) {
    Live(db, r) && db.revisions[r].source in sources
  }

  function SegmentsOf(db: Db, sources: set<SourceId>): set<SegmentId> {
    set g, s | g in db.segments && s in sources && s in db.sources
        && db.sources[s].current == Some(db.segments[g].revision) :: g
  }

  ghost predicate Joined(db: Db, g: SegmentId) {
    g in db.segments && db.segments[g].revision in db.revisions
        && db.revisions[db.segments[g].revision].source in db.sources
  }

  /** A segment with the source the join finds for it. */
  ghost function RowOf(db: Db, x: Columns, g: SegmentId): (row: PayloadFts)
    requires Joined(db, g)
    ensures row.segment == g
  {
    var segment := db.segments[g];
    var source := db.revisions[segment.revision].source;
    var row := db.sources[source];
    PayloadFts(segment.parsed.text, g, segment.revision, source, x.shown(row.root), row.path, segment.parsed.anchor)
  }

  ghost function RowsOf(db: Db, x: Columns, segments: set<SegmentId>): set<PayloadFts>
    requires KeysResolve(db) && segments <= db.segments.Keys
  {
    set g | g in segments :: RowOf(db, x, g)
  }

  // ----------------------------------------------------------------- content

  ghost predicate RootsCopied(x: Columns, roots: set<RootId>, copied: map<RootName, string>) {
    && (forall r :: r in roots ==> r in x.names && x.shown(r) in copied && copied[x.shown(r)] == x.names[r])
    && (forall n :: n in copied ==> exists r :: r in roots && x.shown(r) == n)
  }

  ghost predicate SourcesCopied(db: Db, x: Columns, sources: set<SourceId>, copied: map<SourceId, PayloadSource>) {
    copied.Keys == sources && forall s :: s in sources ==> s in db.sources && copied[s] == SourceOf(db, x, s)
  }

  ghost predicate RevisionsCopied(db: Db, sources: set<SourceId>, copied: map<RevisionId, RevisionRow>) {
    forall r :: (r in copied <==> CurrentOf(db, sources, r)) && (r in copied ==> copied[r] == db.revisions[r])
  }

  ghost predicate SegmentsCopied(db: Db, segments: set<SegmentId>, copied: map<SegmentId, SegmentRow>) {
    copied.Keys == segments && forall g :: g in segments ==> g in db.segments && copied[g] == db.segments[g]
  }

  /** The payload holds exactly the selected part of the index. */
  ghost predicate IsExport(db: Db, x: Columns, roots: set<RootId>, sources: set<SourceId>, p: Payload)
    requires KeysResolve(db)
  {
    && RootsCopied(x, roots, p.roots)
    && SourcesCopied(db, x, sources, p.sources)
    && RevisionsCopied(db, sources, p.revisions)
    && SegmentsCopied(db, SegmentsOf(db, sources), p.segments)
    && multiset(p.fts) == multiset(RowsOf(db, x, SegmentsOf(db, sources)))
  }

  // ------------------------------------------------------------- the queries

  method CopyRoots(x: Columns, roots: set<RootId>) returns (copied: map<RootName, string>)
    requires roots <= x.names.Keys && forall a, b {:trigger PrintsApart(x, a, b)} :: PrintsApart(x, a, b)
    ensures RootsCopied(x, roots, copied)
  {
    copied := map[];
    var todo := roots;
    while todo != {}
      invariant todo <= roots && RootsCopied(x, roots - todo, copied)
    {
      var r :| r in todo;
      ghost var before := copied;
      assert forall q :: q in roots - todo ==> PrintsApart(x, q, r);
      assert x.shown(r) !in copied;  // the INSERT meets no primary key
      copied := copied[x.shown(r) := x.names[r]];
      todo := todo - {r};
      assert forall n :: n in copied ==> n == x.shown(r) || n in before;
    }
    assert roots - todo == roots;
  }

  method CopySources(db: Db, x: Columns, sources: set<SourceId>, more: set<SourceId>,
                     before: map<SourceId, PayloadSource>)
    returns (copied: map<SourceId, PayloadSource>)
    requires more <= db.sources.Keys && sources !! more && SourcesCopied(db, x, sources, before)
    ensures SourcesCopied(db, x, sources + more, copied)
  {
    copied := before;
    var todo := more;
    while todo != {}
      invariant todo <= more && SourcesCopied(db, x, sources + (more - todo), copied)
    {
      var s :| s in todo;
      assert s !in copied;  // the INSERT meets no primary key
      copied := copied[s := SourceOf(db, x, s)];
      todo := todo - {s};
    }
    assert more - todo == more;
  }

  /** The source joined on `current_revision_id` is the revision's own, and the only one. */
  lemma PointerIsLive(db: Db, s: SourceId)
    requires Inv(db) && s in db.sources && db.sources[s].current.Some?
    ensures var r := db.sources[s].current.value; Live(db, r) && db.revisions[r].source == s
  {
  }

  method CopyRevisions(db: Db, sources: set<SourceId>, more: set<SourceId>, before: map<RevisionId, RevisionRow>)
    returns (copied: map<RevisionId, RevisionRow>)
    requires Inv(db) && more <= db.sources.Keys && sources !! more && RevisionsCopied(db, sources, before)
    ensures RevisionsCopied(db, sources + more, copied)
  {
    copied := before;
    var todo := more;
    while todo != {}
      invariant todo <= more && RevisionsCopied(db, sources + (more - todo), copied)
    {
      var s :| s in todo;
      var current := db.sources[s].current;
      if current.Some? {
        PointerIsLive(db, s);
        assert current.value !in copied;  // the INSERT meets no primary key
        copied := copied[current.value := db.revisions[current.value]];
      }
      todo := todo - {s};
    }
    assert more - todo == more;
  }

  lemma SegmentsApart(db: Db, sources: set<SourceId>, more: set<SourceId>)
    requires Inv(db) && sources !! more
    ensures SegmentsOf(db, sources) !! SegmentsOf(db, more)
    ensures SegmentsOf(db, sources + more) == SegmentsOf(db, sources) + SegmentsOf(db, more)
  {
  }

  lemma RowsGrow(db: Db, x: Columns, segments: set<SegmentId>, g: SegmentId)
    requires KeysResolve(db) && segments <= db.segments.Keys && g in db.segments && g !in segments
    ensures RowOf(db, x, g) !in RowsOf(db, x, segments)
    ensures RowsOf(db, x, segments + {g}) == RowsOf(db, x, segments) + {RowOf(db, x, g)}
  {
  }

  lemma MultisetPlusOne<T>(rows: seq<T>, all: set<T>, row: T)
    requires multiset(rows) == multiset(all) && row !in all
    ensures multiset(rows + [row]) == multiset(all + {row})
  {
  }

  lemma RowInserted(db: Db, x: Columns, done: set<SegmentId>, g: SegmentId, rows: seq<PayloadFts>)
    requires KeysResolve(db) && done <= db.segments.Keys && g in db.segments && g !in done
    requires RowsInserted(db, x, done, rows)
    ensures RowsInserted(db, x, done + {g}, rows + [RowOf(db, x, g)])
  {
    RowsGrow(db, x, done, g);
    MultisetPlusOne(rows, RowsOf(db, x, done), RowOf(db, x, g));
  }

  /** A segment and its full-text row are inserted side by side. */
  method InsertSegment(db: Db, x: Columns, g: SegmentId, before: map<SegmentId, SegmentRow>, rows: seq<PayloadFts>)
    returns (copied: map<SegmentId, SegmentRow>, fts: seq<PayloadFts>)
    requires Joined(db, g) && g !in before  // the INSERT meets no primary key
    ensures copied == before[g := db.segments[g]] && fts == rows + [RowOf(db, x, g)]
  {
    var segment := db.segments[g];
    var source := db.revisions[segment.revision].source;
    var row := db.sources[source];
    copied := before[g := segment];
    var copy := PayloadFts(segment.parsed.text, g, segment.revision, source, x.shown(row.root), row.path,
                           segment.parsed.anchor);
    fts := rows + [copy];
  }

  /** The rows of a query, in whatever order they come. */
  method QueryRows(rows: set<SegmentId>) returns (ids: seq<SegmentId>)
    ensures Distinct(ids) && Elements(ids, |ids|) == rows
  {
    ids := [];
    var todo := rows;
    while todo != {}
      invariant todo <= rows && Distinct(ids) && Elements(ids, |ids|) == rows - todo
    {
      var g :| g in todo;
      ElementsAppend(ids, g);
      ids := ids + [g];
      todo := todo - {g};
    }
  }

  lemma ElementsAppend(ids: seq<SegmentId>, g: SegmentId)
    requires g !in Elements(ids, |ids|) && Distinct(ids)
    ensures Elements(ids + [g], |ids| + 1) == Elements(ids, |ids|) + {g} && Distinct(ids + [g])
  {
    var more := ids + [g];
    forall h | h in Elements(ids, |ids|) + {g} ensures h in Elements(more, |more|) {
      if h == g {
        assert more[|ids|] == h;
      } else {
        var i :| 0 <= i < |ids| && ids[i] == h;
        assert more[i] == h;
      }
    }
  }

  /** The rows of the first `n` segments, in order. */
  ghost function RowSeq(db: Db, x: Columns, ids: seq<SegmentId>, n: nat): seq<PayloadFts>
    requires n <= |ids| && forall i :: 0 <= i < n ==> Joined(db, ids[i])
  {
    if n == 0 then [] else RowSeq(db, x, ids, n - 1) + [RowOf(db, x, ids[n - 1])]
  }

  ghost function SegmentMap(db: Db, before: map<SegmentId, SegmentRow>, ids: seq<SegmentId>, n: nat)
    : map<SegmentId, SegmentRow>
    requires n <= |ids| && forall i :: 0 <= i < n ==> Joined(db, ids[i])
  {
    if n == 0 then before
    else
      assert Joined(db, ids[n - 1]);
      SegmentMap(db, before, ids, n - 1)[ids[n - 1] := db.segments[ids[n - 1]]]
  }

  lemma ElementsStep(db: Db, done: set<SegmentId>, ids: seq<SegmentId>, n: nat)
    requires 0 < n <= |ids| && Distinct(ids) && done !! Elements(ids, |ids|)
    requires done <= db.segments.Keys && Elements(ids, |ids|) <= db.segments.Keys
    ensures var reached, g := done + Elements(ids, n - 1), ids[n - 1];
            && reached <= db.segments.Keys && g in db.segments && g !in reached
            && done + Elements(ids, n) == reached + {g}
  {
    assert ids[n - 1] in Elements(ids, |ids|);
    forall g | g in Elements(ids, n - 1) ensures g in Elements(ids, |ids|) && g != ids[n - 1] {
      var i :| 0 <= i < n - 1 && ids[i] == g;
    }
  }

  /** What the whole table holds once the first `n` rows are in. */
  ghost predicate RowsInserted(db: Db, x: Columns, reached: set<SegmentId>, fts: seq<PayloadFts>)
    requires KeysResolve(db)
  {
    reached <= db.segments.Keys && multiset(fts) == multiset(RowsOf(db, x, reached))
  }

  lemma {:induction false} RowSeqInserted(db: Db, x: Columns, done: set<SegmentId>, ids: seq<SegmentId>, n: nat,
                                          rows: seq<PayloadFts>)
    requires KeysResolve(db) && n <= |ids| && Distinct(ids) && done !! Elements(ids, |ids|)
    requires done <= db.segments.Keys && Elements(ids, |ids|) <= db.segments.Keys
    requires forall i :: 0 <= i < n ==> Joined(db, ids[i])
    requires RowsInserted(db, x, done, rows)
    ensures RowsInserted(db, x, done + Elements(ids, n), rows + RowSeq(db, x, ids, n))
  {
    if n == 0 {
      assert done + Elements(ids, 0) == done;
      assert rows + [] == rows;
    } else {
      RowSeqInserted(db, x, done, ids, n - 1, rows);
      ElementsStep(db, done, ids, n);
      OneRowInserted(db, x, done + Elements(ids, n - 1), ids[n - 1], rows, RowSeq(db, x, ids, n - 1));
    }
  }

  lemma OneRowInserted(db: Db, x: Columns, reached: set<SegmentId>, g: SegmentId, rows: seq<PayloadFts>,
                       before: seq<PayloadFts>)
    requires KeysResolve(db) && reached <= db.segments.Keys && g in db.segments && g !in reached
    requires RowsInserted(db, x, reached, rows + before)
    ensures RowsInserted(db, x, reached + {g}, rows + (before + [RowOf(db, x, g)]))
  {
    RowInserted(db, x, reached, g, rows + before);
    AppendAssociates(rows, before, [RowOf(db, x, g)]);
  }

  lemma {:induction false} SegmentMapCopies(db: Db, done: set<SegmentId>, before: map<SegmentId, SegmentRow>,
                                            ids: seq<SegmentId>, n: nat)
    requires n <= |ids| && SegmentsCopied(db, done, before) && forall i :: 0 <= i < n ==> Joined(db, ids[i])
    ensures SegmentsCopied(db, done + Elements(ids, n), SegmentMap(db, before, ids, n))
  {
    if n == 0 {
      assert done + Elements(ids, 0) == done;
    } else {
      SegmentMapCopies(db, done, before, ids, n - 1);
      assert done + Elements(ids, n) == done + Elements(ids, n - 1) + {ids[n - 1]};
    }
  }

  lemma NotYetInserted(db: Db, done: set<SegmentId>, before: map<SegmentId, SegmentRow>, ids: seq<SegmentId>, n: nat)
    requires n < |ids| && Distinct(ids) && SegmentsCopied(db, done, before) && done !! Elements(ids, |ids|)
    requires forall i :: 0 <= i < n ==> Joined(db, ids[i])
    ensures ids[n] !in SegmentMap(db, before, ids, n)
  {
    SegmentMapCopies(db, done, before, ids, n);
    assert ids[n] in Elements(ids, |ids|);
  }

  method CopySegments(db: Db, x: Columns, ghost done: set<SegmentId>, more: set<SegmentId>,
                      before: map<SegmentId, SegmentRow>, rows: seq<PayloadFts>)
    returns (copied: map<SegmentId, SegmentRow>, fts: seq<PayloadFts>)
    requires KeysResolve(db) && done <= db.segments.Keys && more <= db.segments.Keys && done !! more
    requires SegmentsCopied(db, done, before) && RowsInserted(db, x, done, rows)
    ensures SegmentsCopied(db, done + more, copied) && RowsInserted(db, x, done + more, fts)
  {
    var ids := QueryRows(more);
    forall i | 0 <= i < |ids| ensures Joined(db, ids[i]) {
      assert ids[i] in Elements(ids, |ids|);
    }
    copied, fts := CopyInOrder(db, x, done, ids, before, rows);
    SegmentMapCopies(db, done, before, ids, |ids|);
    RowSeqInserted(db, x, done, ids, |ids|, rows);
  }

  method CopyInOrder(db: Db, x: Columns, ghost done: set<SegmentId>, ids: seq<SegmentId>,
                     before: map<SegmentId, SegmentRow>, rows: seq<PayloadFts>)
    returns (copied: map<SegmentId, SegmentRow>, fts: seq<PayloadFts>)
    requires Distinct(ids) && SegmentsCopied(db, done, before) && done !! Elements(ids, |ids|)
    requires forall i :: 0 <= i < |ids| ==> Joined(db, ids[i])
    ensures copied == SegmentMap(db, before, ids, |ids|) && fts == rows + RowSeq(db, x, ids, |ids|)
  {
    copied, fts := before, rows;
    for i := 0 to |ids|
      invariant copied == SegmentMap(db, before, ids, i) && fts == rows + RowSeq(db, x, ids, i)
    {
      NotYetInserted(db, done, before, ids, i);
      copied, fts := InsertSegment(db, x, ids[i], copied, fts);
    }
  }

  /** The three queries for one root. */
  method CopyRoot(db: Db, x: Columns, sources: set<SourceId>, more: set<SourceId>, p: Payload, ghost roots: set<RootId>)
    returns (q: Payload)
    requires Inv(db) && more <= db.sources.Keys && sources !! more && IsExport(db, x, roots, sources, p)
    ensures IsExport(db, x, roots, sources + more, q)
  {
    SegmentsApart(db, sources, more);
    var copied := CopySources(db, x, sources, more, p.sources);
    var revisions := CopyRevisions(db, sources, more, p.revisions);
    var segments, fts := CopySegments(db, x, SegmentsOf(db, sources), SegmentsOf(db, more), p.segments, p.fts);
    q := Payload(p.roots, copied, revisions, segments, fts);
  }

  lemma NothingCopied(db: Db, x: Columns, roots: set<RootId>, named: map<RootName, string>)
    requires KeysResolve(db) && RootsCopied(x, roots, named)
    ensures IsExport(db, x, roots, {}, Payload(named, map[], map[], map[], []))
  {
    assert SegmentsOf(db, {}) == {};
    assert RowsOf(db, x, {}) == {};
  }

  /** `build_payload`: root by root. */
  method BuildPayload(db: Db, x: Columns, only: Option<RootId>) returns (p: Payload)
    requires Inv(db) && ColumnsOk(db, x)
    ensures IsExport(db, x, SelectedRoots(x, only), ActiveIn(db, SelectedRoots(x, only)), p)
  {
    var roots := SelectedRoots(x, only);
    var named := CopyRoots(x, roots);
    p := Payload(named, map[], map[], map[], []);
    NothingCopied(db, x, roots, named);
    assert ActiveIn(db, {}) == {};
    var todo := roots;
    ghost var done := {};
    while todo != {}
      invariant todo <= roots && done == ActiveIn(db, roots - todo)
      invariant IsExport(db, x, roots, done, p)
    {
      var root :| root in todo;
      ActiveGrows(db, roots, todo, root);
      p := CopyRoot(db, x, ActiveIn(db, roots - todo), ActiveIn(db, {root}), p, roots);
      done := done + ActiveIn(db, {root});
      todo := todo - {root};
    }
    assert roots - todo == roots;
  }

  lemma ActiveGrows(db: Db, roots: set<RootId>, todo: set<RootId>, root: RootId)
    requires root in todo && todo <= roots
    ensures ActiveIn(db, roots - todo) !! ActiveIn(db, {root}) && ActiveIn(db, {root}) <= db.sources.Keys
    ensures ActiveIn(db, roots - (todo - {root})) == ActiveIn(db, roots - todo) + ActiveIn(db, {root})
  {
  }

  // ------------------------------------------------------------ the manifest

  ghost predicate RootsListed(roots: seq<Descriptor>, p: Payload) {
    && RootsDistinct(roots)
    && RootNames(roots, |roots|) == p.roots.Keys
    && forall i :: 0 <= i < |roots| ==> roots[i].sourceCount >= 0 && roots[i].segmentCount >= 0
  }

  /** The manifest an export writes beside its payload. */
  ghost predicate IsManifestOf(m: Manifest, p: Payload) {
    && m.version == FORMAT_VERSION && m.schemaMin == 2 && m.schemaMax == 4
    && m.checksum == Database(p)
    && RootsListed(m.roots, p)
    && m.counts == Counts(|p.sources|, |p.revisions|, |p.segments|, |p.fts|)
    && m.embeddingSpaces == [] && m.capabilities == ["lexical_fts5", "read_only_retrieval"]
  }

  function CountRows(fts: seq<PayloadFts>, n: nat, root: RootName): nat
    requires n <= |fts|
  {
    if n == 0 then 0 else CountRows(fts, n - 1, root) + if fts[n - 1].root == root then 1 else 0
  }

  /** `list_payload_roots`. */
  method ListPayloadRoots(p: Payload) returns (roots: seq<Descriptor>)
    ensures RootsListed(roots, p)
    ensures forall i :: 0 <= i < |roots| ==>
              && roots[i].id in p.roots && roots[i].name == p.roots[roots[i].id]
              && roots[i].sourceCount == |set s | s in p.sources && p.sources[s].root == roots[i].id|
              && roots[i].segmentCount == CountRows(p.fts, |p.fts|, roots[i].id)
  {
    roots := [];
    var todo := p.roots.Keys;
    while todo != {}
      invariant todo <= p.roots.Keys && RootNames(roots, |roots|) == p.roots.Keys - todo
      invariant RootsDistinct(roots)
      invariant forall i :: 0 <= i < |roots| ==>
                  && roots[i].id in p.roots && roots[i].name == p.roots[roots[i].id]
                  && roots[i].sourceCount == |set s | s in p.sources && p.sources[s].root == roots[i].id|
                  && roots[i].segmentCount == CountRows(p.fts, |p.fts|, roots[i].id)
    {
      var n :| n in todo;
      var d := Descriptor(n, p.roots[n], |set s | s in p.sources
          && p.sources[s].root == n|, CountRows(p.fts, |p.fts|, n));
      ListGrows(roots, d);
      roots := roots + [d];
      todo := todo - {n};
    }
  }

  lemma ListGrows(roots: seq<Descriptor>, d: Descriptor)
    requires RootsDistinct(roots) && d.id !in RootNames(roots, |roots|)
    ensures RootsDistinct(roots + [d])
    ensures RootNames(roots + [d], |roots| + 1) == RootNames(roots, |roots|) + {d.id}
  {
    var more := roots + [d];
    assert forall i :: 0 <= i < |roots| ==> more[i] == roots[i];
    forall i, j {:trigger SameRoot(more[i], more[j])} | 0 <= i < j < |more| ensures !SameRoot(more[i], more[j]) {
      if j < |roots| {
        assert !SameRoot(roots[i], roots[j]);
      } else {
        assert roots[i].id in RootNames(roots, |roots|);
      }
    }
    forall n | n in RootNames(more, |more|) ensures n in RootNames(roots, |roots|) + {d.id} {
      var i :| 0 <= i < |more| && more[i].id == n;
      assert i < |roots| ==> roots[i].id == n;
    }
    forall n | n in RootNames(roots, |roots|) + {d.id} ensures n in RootNames(more, |more|) {
      if n == d.id {
        assert more[|roots|].id == n;
      } else {
        var i :| 0 <= i < |roots| && roots[i].id == n;
        assert more[i].id == n;
      }
    }
  }

  /** `export_snapshot` below the file system. */
  method ExportSnapshot(db: Db, x: Columns, only: Option<RootId>) returns (p: Payload, m: Manifest)
    requires Inv(db) && ColumnsOk(db, x)
    ensures IsExport(db, x, SelectedRoots(x, only), ActiveIn(db, SelectedRoots(x, only)), p)
    ensures IsManifestOf(m, p)
  {
    p := BuildPayload(db, x, only);
    var roots := ListPayloadRoots(p);
    m := Manifest(FORMAT_VERSION, 2, 4, Database(p), roots, Counts(|p.sources|, |p.revisions|, |p.segments|, |p.fts|),
                  [], ["lexical_fts5", "read_only_retrieval"]);
  }
}
