/** Which outcome each document has, what a scan counts and shows, failures included, all from what was shown before. */
module IndexingOutcomes {
  import opened Prelude
  import opened Catalog
  import opened CatalogInvariant
  import opened Indexing
  import opened IndexingSteps
  import opened IndexingSurface
  import opened IndexingTheorems
  import opened IndexingProgress

  /** How many segments the document's bytes parse to. */
  function SegmentCount(doc: Document, registry: Registry, parse: Parsing): nat {
    var parsed := parse(registry(doc.fileType), doc.bytes);
    if parsed.None? then 0 else |parsed.value|
  }

  /** A file shown with the same bytes and parser is unchanged, with others modified; one not shown is added. */
  ghost function Predicted(db: Db, root: RootId, doc: Document, registry: Registry, parse: Parsing): Outcome {
    if !Indexable(db, root, doc, registry, parse) then Failure
    else
      match ListingAt(db, root, doc.path)
      case Listed(hash, parser, _) =>
        if hash == Blake3(doc.bytes) && parser == registry(doc.fileType) then Unchanged
        else Modification(SegmentCount(doc, registry, parse))
      case _ => Addition(SegmentCount(doc, registry, parse))
  }

  lemma ListingTells(db: Db, root: RootId, path: Path)
    requires Inv(db)
    ensures var shown, current := ListingAt(db, root, path), CurrentOf(db, root, path);
            && (shown.Listed? <==> current.Some?)
            && (shown.Listed? ==>
                  && current.value in db.revisions && db.revisions[current.value].status == Indexed
                  && shown.hash == db.revisions[current.value].hash
                  && shown.parser == db.revisions[current.value].parser)
  {
    FindGives(db, root, path);
  }

  /** Each document has the predicted outcome. */
  lemma OutcomeExactly(db: Db, root: RootId, doc: Document, registry: Registry, parse: Parsing)
    requires Inv(db)
    ensures Process(db, root, doc, registry, parse).1 == Predicted(db, root, doc, registry, parse)
  {
    ProcessSucceedsExactly(db, root, doc, registry, parse);
    ListingTells(db, root, doc.path);
  }

  // -------------------------------------------------------- a scan's counters

  /** The documents counted by their predicted outcomes. */
  ghost function PredictedTally(db: Db, root: RootId, docs: seq<Document>, registry: Registry, parse: Parsing): Tally {
    if docs == [] then NO_TALLY
    else
      Count(PredictedTally(db, root, docs[..|docs| - 1], registry, parse),
            Predicted(db, root, docs[|docs| - 1], registry, parse))
  }

  lemma {:induction false} LoopTally(db: Db, root: RootId, docs: seq<Document>, registry: Registry, parse: Parsing)
    requires Inv(db) && Faithful(db, parse) && DistinctPaths(docs)
    ensures ProcessAll(db, root, docs, registry, parse).1 == PredictedTally(db, root, docs, registry, parse)
  {
    if docs != [] {
      var init, last := docs[..|docs| - 1], docs[|docs| - 1];
      DistinctInit(docs);
      PathsOfInit(docs);
      LoopTally(db, root, init, registry, parse);
      ProcessAllKeeps(db, root, init, registry, parse);
      OutcomeExactly(ProcessAll(db, root, init, registry, parse).0, root, last, registry, parse);
      IndexableKept(db, root, init, registry, parse, last);
      ProcessAllKeepsOthers(db, root, init, registry, parse, root, last.path);
    }
  }

  /** The paths of a root that show something. */
  function ActivePaths(db: Db, root: RootId): set<Path> {
    set s | s in db.sources && db.sources[s].root == root && db.sources[s].state == Active :: db.sources[s].path
  }

  lemma ActiveIsShown(db: Db, root: RootId, p: Path)
    requires Inv(db)
    ensures p in ActivePaths(db, root) <==> ListingAt(db, root, p) != Absent
  {
    FindGives(db, root, p);
    if p in ActivePaths(db, root) {
      var s :| s in db.sources && db.sources[s].root == root && db.sources[s].state == Active
          && db.sources[s].path == p;
      FindSourceUnique(db, s);
    }
  }

  function PathsAt(db: Db, ids: set<SourceId>): set<Path>
    requires ids <= db.sources.Keys
  {
    set s | s in ids :: db.sources[s].path
  }

  lemma {:induction false} OnePathEach(db: Db, root: RootId, ids: set<SourceId>)
    requires UniqueSources(db) && ids <= db.sources.Keys && forall s :: s in ids ==> db.sources[s].root == root
    ensures |PathsAt(db, ids)| == |ids|
    decreases ids
  {
    if ids == {} {
      assert PathsAt(db, ids) == {};
    } else {
      var s :| s in ids;
      var rest := ids - {s};
      OnePathEach(db, root, rest);
      forall t | t in rest ensures db.sources[t].path != db.sources[s].path {
        assert !SamePlace(db.sources[s], db.sources[t]);
      }
      assert PathsAt(db, ids) == PathsAt(db, rest) + {db.sources[s].path};
    }
  }

  /** A completed scan counts its documents by their outcomes, and as deletions the shown paths it did not find. */
  lemma ScanCountsExactly(db: Db, root: RootId, docs: seq<Document>, registry: Registry, parse: Parsing)
    requires Inv(db) && Faithful(db, parse) && DistinctPaths(docs)
    ensures var report := FullScan(db, root, Some(docs), registry, parse).1;
            && report.Completed? && report.discovered == |docs|
            && report.tally == PredictedTally(UpsertRoot(db, root), root, docs, registry, parse)
            && report.deletions == |ActivePaths(db, root) - Paths(docs)|
  {
    var rooted := UpsertRoot(db, root);
    UpsertRootKeepsInv(db, root);
    KeepsFaithful(db, rooted, parse);
    LoopTally(rooted, root, docs, registry, parse);
    ProcessAllKeeps(rooted, root, docs, registry, parse);
    var processed := ProcessAll(rooted, root, docs, registry, parse).0;
    var gone := Unseen(processed, root, Paths(docs));
    OnePathEach(processed, root, gone);
    forall p ensures p in PathsAt(processed, gone) <==> p in ActivePaths(db, root) - Paths(docs) {
      ActiveIsShown(processed, root, p);
      ActiveIsShown(db, root, p);
      if p !in Paths(docs) {
        ProcessAllKeepsOthers(rooted, root, docs, registry, parse, root, p);
        RootedShowsSame(db, root, root, p);
      }
    }
    assert PathsAt(processed, gone) == ActivePaths(db, root) - Paths(docs);
  }

  // ------------------------------------------------------- what a scan leaves

  /** What a document's path shows once it is processed, from what the index shows before. */
  ghost function Left(db: Db, root: RootId, doc: Document, registry: Registry, parse: Parsing): Listing {
    var shown := ListingAt(db, root, doc.path);
    if Indexable(db, root, doc, registry, parse) then ListingFor(doc.fileType, doc.bytes, registry, parse)
    else if root !in db.roots || doc.fault == ReadFails || doc.fault == FirstCommitFails || shown.Listed? then shown
    else if parse(registry(doc.fileType), doc.bytes).Some? then Pending else Absent
  }

  lemma ProcessLeaves(db: Db, root: RootId, doc: Document, registry: Registry, parse: Parsing)
    requires Inv(db) && Faithful(db, parse)
    ensures ListingAt(Process(db, root, doc, registry, parse).0, root, doc.path)
            == Left(db, root, doc, registry, parse)
  {
    ProcessShows(db, root, doc, registry, parse);
    ProcessSucceedsExactly(db, root, doc, registry, parse);
    ListingTells(db, root, doc.path);
  }

  lemma {:induction false} LoopLeaves(db: Db, root: RootId, docs: seq<Document>, registry: Registry, parse: Parsing,
                                      i: nat)
    requires Inv(db) && Faithful(db, parse) && DistinctPaths(docs) && i < |docs|
    ensures ListingAt(ProcessAll(db, root, docs, registry, parse).0, root, docs[i].path)
            == Left(db, root, docs[i], registry, parse)
  {
    var init, last := docs[..|docs| - 1], docs[|docs| - 1];
    DistinctInit(docs);
    PathsOfInit(docs);
    if i == |docs| - 1 {
      LastLeaves(db, root, init, last, registry, parse);
    } else {
      assert init[i] == docs[i] && OtherPath(docs[i], last);
      LoopLeaves(db, root, init, registry, parse, i);
      ProcessAllKeeps(db, root, init, registry, parse);
      ProcessKeepsOthers(ProcessAll(db, root, init, registry, parse).0, root, last, registry, parse);
    }
  }

  lemma LastLeaves(db: Db, root: RootId, init: seq<Document>, last: Document, registry: Registry, parse: Parsing)
    requires Inv(db) && Faithful(db, parse) && last.path !in Paths(init)
    ensures var before := ProcessAll(db, root, init, registry, parse).0;
            ListingAt(Process(before, root, last, registry, parse).0, root, last.path)
            == Left(db, root, last, registry, parse)
  {
    ProcessAllKeeps(db, root, init, registry, parse);
    ProcessLeaves(ProcessAll(db, root, init, registry, parse).0, root, last, registry, parse);
    IndexableKept(db, root, init, registry, parse, last);
    ProcessAllKeepsOthers(db, root, init, registry, parse, root, last.path);
    LoopKeepsRoots(db, root, init, registry, parse);
  }

  lemma {:induction false} LoopKeepsRoots(db: Db, root: RootId, docs: seq<Document>, registry: Registry,
                                          parse: Parsing)
    requires Inv(db) && Faithful(db, parse)
    ensures ProcessAll(db, root, docs, registry, parse).0.roots == db.roots
  {
    if docs != [] {
      var init := docs[..|docs| - 1];
      LoopKeepsRoots(db, root, init, registry, parse);
      ProcessAllKeeps(db, root, init, registry, parse);
      ProcessKeepsRootsAndPaths(ProcessAll(db, root, init, registry, parse).0, root, docs[|docs| - 1], registry, parse);
    }
  }

  /** A completed scan, whatever failed in it, leaves nothing at the paths it did not find and decides the others. */
  lemma ScanLeaves(db: Db, root: RootId, docs: seq<Document>, registry: Registry, parse: Parsing, p: Path)
    requires Inv(db) && Faithful(db, parse) && DistinctPaths(docs)
    ensures var shown := ListingAt(FullScan(db, root, Some(docs), registry, parse).0, root, p);
            && (p !in Paths(docs) ==> shown == Absent)
            && forall i :: 0 <= i < |docs| && docs[i].path == p ==>
                 shown == Left(UpsertRoot(db, root), root, docs[i], registry, parse)
  {
    var rooted := UpsertRoot(db, root);
    UpsertRootKeepsInv(db, root);
    KeepsFaithful(db, rooted, parse);
    ProcessAllKeeps(rooted, root, docs, registry, parse);
    var processed := ProcessAll(rooted, root, docs, registry, parse).0;
    DeleteSourcesShows(processed, Unseen(processed, root, Paths(docs)), root, p);
    FindGives(processed, root, p);
    forall i | 0 <= i < |docs| && docs[i].path == p
      ensures ListingAt(FullScan(db, root, Some(docs), registry, parse).0, root, p)
              == Left(rooted, root, docs[i], registry, parse)
    {
      assert p in Paths(docs);
      LoopLeaves(rooted, root, docs, registry, parse, i);
    }
  }
}
