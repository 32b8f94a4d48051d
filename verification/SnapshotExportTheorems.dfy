/** Export against import: when an exported snapshot passes the validators, and what it makes searchable. */
module SnapshotExportTheorems {
  import opened Prelude
  import opened Catalog
  import opened SnapshotFormat
  import opened SnapshotExport

  lemma {:induction false} RowsSize(db: Db, x: Columns, segments: set<SegmentId>)
    requires KeysResolve(db) && segments <= db.segments.Keys
    ensures |RowsOf(db, x, segments)| == |segments|
    decreases |segments|
  {
    if segments != {} {
      var g :| g in segments;
      RowsSize(db, x, segments - {g});
      RowsGrow(db, x, segments - {g}, g);
      assert segments - {g} + {g} == segments;
    } else {
      assert RowsOf(db, x, segments) == {};
    }
  }

  /** One full-text row per segment. */
  lemma AsManyRowsAsSegments(db: Db, x: Columns, roots: set<RootId>, sources: set<SourceId>, p: Payload)
    requires KeysResolve(db) && IsExport(db, x, roots, sources, p)
    ensures |p.fts| == |p.segments|
  {
    RowsSize(db, x, SegmentsOf(db, sources));
    assert |multiset(p.fts)| == |p.fts|;
    assert |p.segments.Keys| == |p.segments|;
  }

  lemma RootNamesOk(db: Db, x: Columns, roots: set<RootId>, p: Payload, m: Manifest)
    requires ColumnsOk(db, x) && RootsCopied(x, roots, p.roots) && RootsListed(m.roots, p)
    ensures forall i :: 0 <= i < |m.roots| ==> DescriptorOk(m.roots[i])
  {
    forall i | 0 <= i < |m.roots| ensures m.roots[i].id != "" {
      assert m.roots[i].id in RootNames(m.roots, |m.roots|);
      assert m.roots[i].id in p.roots;
    }
  }

  /** An exported manifest is compatible if and only if the export holds at most a million segments. */
  lemma ExportedManifestAccepted(db: Db, x: Columns, only: Option<RootId>, p: Payload, m: Manifest)
    requires Inv(db) && ColumnsOk(db, x)
    requires IsExport(db, x, SelectedRoots(x, only), ActiveIn(db, SelectedRoots(x, only)), p) && IsManifestOf(m, p)
    ensures ManifestOk(m) <==> |p.segments| <= MAX_ROWS
  {
    AsManyRowsAsSegments(db, x, SelectedRoots(x, only), ActiveIn(db, SelectedRoots(x, only)), p);
    RootNamesOk(db, x, SelectedRoots(x, only), p, m);
  }

  /** What export needs of the index beyond its invariant. */
  ghost predicate Exportable(db: Db, roots: set<RootId>) {
    forall s :: s in ActiveIn(db, roots) ==> db.sources[s].current.Some? && SafePath(db.sources[s].path)
  }

  lemma RowSegmentsKnown(db: Db, x: Columns, segments: set<SegmentId>, fts: seq<PayloadFts>, i: nat)
    requires KeysResolve(db) && segments <= db.segments.Keys && multiset(fts) == multiset(RowsOf(db, x, segments))
    requires i < |fts|
    ensures fts[i].segment in segments
  {
    assert fts[i] in multiset(fts);
    assert fts[i] in RowsOf(db, x, segments);
  }

  lemma SegmentHome(db: Db, sources: set<SourceId>, g: SegmentId)
    requires Inv(db) && g in SegmentsOf(db, sources)
    ensures CurrentOf(db, sources, db.segments[g].revision)
  {
    var s :| s in sources && s in db.sources && db.sources[s].current == Some(db.segments[g].revision);
    PointerIsLive(db, s);
  }

  lemma SourceHome(db: Db, x: Columns, roots: set<RootId>, p: Payload, s: SourceId)
    requires Inv(db) && IsExport(db, x, roots, ActiveIn(db, roots), p) && s in ActiveIn(db, roots)
    ensures SourcePointsHome(p, p.sources[s]) <==> db.sources[s].current.Some?
  {
    assert p.sources[s] == SourceOf(db, x, s);
    if db.sources[s].current.Some? {
      PointerIsLive(db, s);
      assert CurrentOf(db, ActiveIn(db, roots), db.sources[s].current.value);
    }
  }

  lemma SourceRow(db: Db, x: Columns, only: Option<RootId>, p: Payload, m: Manifest, s: SourceId)
    requires ColumnsOk(db, x) && KeysResolve(db) && RootsListed(m.roots, p) && s in ActiveIn(db, SelectedRoots(x, only))
    requires IsExport(db, x, SelectedRoots(x, only), ActiveIn(db, SelectedRoots(x, only)), p)
    ensures SourceRowOk(m, p.sources[s]) <==> SafePath(db.sources[s].path)
  {
    assert p.sources[s] == SourceOf(db, x, s);
    assert x.shown(db.sources[s].root) in p.roots;
  }

  /** The relations inside an exported payload hold whatever the paths and pointers are. */
  lemma ExportedRowsResolve(db: Db, x: Columns, roots: set<RootId>, p: Payload)
    requires Inv(db) && IsExport(db, x, roots, ActiveIn(db, roots), p)
    ensures forall g :: g in p.segments ==> p.segments[g].revision in p.revisions
    ensures forall i :: 0 <= i < |p.fts| ==> p.fts[i].segment in p.segments
  {
    var sources := ActiveIn(db, roots);
    forall g | g in p.segments ensures p.segments[g].revision in p.revisions {
      SegmentHome(db, sources, g);
    }
    forall i | 0 <= i < |p.fts| ensures p.fts[i].segment in p.segments {
      RowSegmentsKnown(db, x, SegmentsOf(db, sources), p.fts, i);
    }
  }

  /**
   From an index that satisfies its invariant, the exported payload passes
   `validate_payload_database` if and only if every exported source has a current
   revision and a safe path.  The first can fail: see
   `IndexingProgress.ReappearingFileIsRefused`.
   */
  lemma ExportedPayloadAccepted(db: Db, x: Columns, only: Option<RootId>, p: Payload, m: Manifest)
    requires Inv(db) && ColumnsOk(db, x)
    requires IsExport(db, x, SelectedRoots(x, only), ActiveIn(db, SelectedRoots(x, only)), p) && IsManifestOf(m, p)
    ensures PayloadOk(Database(p), m) <==> Exportable(db, SelectedRoots(x, only))
  {
    var roots := SelectedRoots(x, only);
    ExportedRowsResolve(db, x, roots, p);
    forall s | s in ActiveIn(db, roots)
      ensures (SourcePointsHome(p, p.sources[s]) && SourceRowOk(m, p.sources[s]))
              <==> (db.sources[s].current.Some? && SafePath(db.sources[s].path))
    {
      SourceHome(db, x, roots, p, s);
      SourceRow(db, x, only, p, m, s);
    }
    SourceClauses(db, roots, p, m);
  }

  /** The two clauses about source rows, source by source. */
  lemma SourceClauses(db: Db, roots: set<RootId>, p: Payload, m: Manifest)
    requires p.sources.Keys == ActiveIn(db, roots) && CountsMatch(p, m.counts)
    requires forall g :: g in p.segments ==> p.segments[g].revision in p.revisions
    requires forall i :: 0 <= i < |p.fts| ==> p.fts[i].segment in p.segments
    requires forall s :: s in ActiveIn(db, roots) ==>
               ((SourcePointsHome(p, p.sources[s]) && SourceRowOk(m, p.sources[s]))
                <==> (db.sources[s].current.Some? && SafePath(db.sources[s].path)))
    ensures PayloadOk(Database(p), m) <==> Exportable(db, roots)
  {
  }

  // ------------------------------------------------------------------ search

  /** A full-text row with its root in printed form. */
  function Portable(x: Columns, row: FtsRow): PayloadFts {
    PayloadFts(row.text, row.segment, row.revision, row.source, x.shown(row.root), row.path, row.anchor)
  }

  /** The local full-text rows of these roots. */
  function LocalRows(db: Db, x: Columns, roots: set<RootId>): set<PayloadFts> {
    set k | k in db.fts && db.fts[k].root in roots :: Portable(x, db.fts[k])
  }

  lemma LocalRowExported(db: Db, x: Columns, roots: set<RootId>, k: RowId)
    requires Inv(db) && k in db.fts && db.fts[k].root in roots
    ensures var g := db.fts[k].segment;
            g in SegmentsOf(db, ActiveIn(db, roots)) && Portable(x, db.fts[k]) == RowOf(db, x, g)
  {
    assert Live(db, db.fts[k].revision) && IsFtsRowOf(db, db.fts[k], db.fts[k].segment);
    assert db.fts[k].source in ActiveIn(db, roots);
  }

  lemma ExportedRowIsLocal(db: Db, x: Columns, roots: set<RootId>, g: SegmentId) returns (k: RowId)
    requires Inv(db) && g in SegmentsOf(db, ActiveIn(db, roots))
    ensures k in db.fts && db.fts[k].root in roots && Portable(x, db.fts[k]) == RowOf(db, x, g)
  {
    SegmentHome(db, ActiveIn(db, roots), g);
    assert Searchable(db, g);
    k :| k in db.fts && db.fts[k].segment == g;
    assert IsFtsRowOf(db, db.fts[k], g);
  }

  lemma LocalWithinExported(db: Db, x: Columns, roots: set<RootId>)
    requires Inv(db)
    ensures LocalRows(db, x, roots) <= RowsOf(db, x, SegmentsOf(db, ActiveIn(db, roots)))
  {
    forall row | row in LocalRows(db, x, roots) ensures row in RowsOf(db, x, SegmentsOf(db, ActiveIn(db, roots))) {
      var k :| k in db.fts && db.fts[k].root in roots && Portable(x, db.fts[k]) == row;
      LocalRowExported(db, x, roots, k);
    }
  }

  lemma ExportedWithinLocal(db: Db, x: Columns, roots: set<RootId>)
    requires Inv(db)
    ensures RowsOf(db, x, SegmentsOf(db, ActiveIn(db, roots))) <= LocalRows(db, x, roots)
  {
    forall row | row in RowsOf(db, x, SegmentsOf(db, ActiveIn(db, roots))) ensures row in LocalRows(db, x, roots) {
      var k := ExportedRowIsLocal(db, x, roots, row.segment);
    }
  }

  /** What an importer can search is what is searchable here in the selected roots, row for row. */
  lemma ExportedSearchIsLocalSearch(db: Db, x: Columns, only: Option<RootId>, p: Payload)
    requires Inv(db) && IsExport(db, x, SelectedRoots(x, only), ActiveIn(db, SelectedRoots(x, only)), p)
    ensures multiset(p.fts) == multiset(LocalRows(db, x, SelectedRoots(x, only)))
  {
    LocalWithinExported(db, x, SelectedRoots(x, only));
    ExportedWithinLocal(db, x, SelectedRoots(x, only));
  }
}
