/** Removing a root: everything of it goes, nothing else does, and it can be indexed again as if for the first time. */
module IndexingRemoval {
  import opened Prelude
  import opened Catalog
  import opened CatalogInvariant
  import opened Indexing
  import opened IndexingSteps
  import opened IndexingSurface
  import opened IndexingTheorems
  import opened IndexingProgress
  import opened IndexingOutcomes

  /** The row, revision or segment belongs to a source of this root. */
  predicate SourceUnder(db: Db, s: SourceId, root: RootId) {
    s in db.sources && db.sources[s].root == root
  }

  predicate RevisionUnder(db: Db, r: RevisionId, root: RootId) {
    r in db.revisions && SourceUnder(db, db.revisions[r].source, root)
  }

  predicate SegmentUnder(db: Db, g: SegmentId, root: RootId) {
    g in db.segments && RevisionUnder(db, db.segments[g].revision, root)
  }

  function SourcesUnder(db: Db, root: RootId): set<SourceId> {
    set s | s in db.sources && SourceUnder(db, s, root)
  }

  function RevisionsUnder(db: Db, root: RootId): set<RevisionId> {
    set r | r in db.revisions && RevisionUnder(db, r, root)
  }

  function SegmentsUnder(db: Db, root: RootId): set<SegmentId> {
    set g | g in db.segments && SegmentUnder(db, g, root)
  }

  /** `RootRemovalCounts`. */
  datatype RemovalCounts = RemovalCounts(sourceFiles: nat, revisions: nat, segments: nat)

  function RowsUnder(db: Db, root: RootId): RemovalCounts {
    RemovalCounts(|SourcesUnder(db, root)|, |RevisionsUnder(db, root)|, |SegmentsUnder(db, root)|)
  }

  /** The reported counts are of the rows that go. */
  lemma RemovalCountsExactly(db: Db, root: RootId)
    requires Inv(db)
    ensures var post, counts := DeleteRoot(db, root), RowsUnder(db, root);
            && |post.sources.Keys| + counts.sourceFiles == |db.sources.Keys|
            && |post.revisions.Keys| + counts.revisions == |db.revisions.Keys|
            && |post.segments.Keys| + counts.segments == |db.segments.Keys|
  {
    RemovalTakesTheRoot(db, root);
    var post := DeleteRoot(db, root);
    PartSize(db.sources.Keys, SourcesUnder(db, root), post.sources.Keys);
    PartSize(db.revisions.Keys, RevisionsUnder(db, root), post.revisions.Keys);
    PartSize(db.segments.Keys, SegmentsUnder(db, root), post.segments.Keys);
  }

  lemma PartSize<T>(all: set<T>, gone: set<T>, left: set<T>)
    requires forall x :: x in all <==> x in gone || x in left
    requires gone !! left
    ensures |left| + |gone| == |all|
  {
    assert all == left + gone;
  }

  /** No row of any table is the root's or hangs from one that is. */
  ghost predicate NothingUnder(db: Db, root: RootId) {
    && root !in db.roots
    && (forall s :: s in db.sources ==> db.sources[s].root != root)
    && (forall r :: r in db.revisions ==> !RevisionUnder(db, r, root))
    && (forall g :: g in db.segments ==> !SegmentUnder(db, g, root))
    && (forall k :: k in db.fts ==> db.fts[k].root != root)
  }

  /** Exactly the root's rows are missing, and every other row is as it was. */
  ghost predicate OnlyWithout(db: Db, post: Db, root: RootId) {
    && post.roots == db.roots - {root}
    && (forall s :: s in post.sources <==> s in db.sources && !SourceUnder(db, s, root))
    && (forall s :: s in post.sources ==> post.sources[s] == db.sources[s])
    && (forall r :: r in post.revisions <==> r in db.revisions && !RevisionUnder(db, r, root))
    && (forall r :: r in post.revisions ==> post.revisions[r] == db.revisions[r])
    && (forall g :: g in post.segments <==> g in db.segments && !SegmentUnder(db, g, root))
    && (forall g :: g in post.segments ==> post.segments[g] == db.segments[g])
    && (forall k :: k in post.fts <==> k in db.fts && db.fts[k].root != root)
    && (forall k :: k in post.fts ==> post.fts[k] == db.fts[k])
  }

  lemma RemovalTakesTheRoot(db: Db, root: RootId)
    requires Inv(db)
    ensures NothingUnder(DeleteRoot(db, root), root) && OnlyWithout(db, DeleteRoot(db, root), root)
  {
  }

  /** The root shows nothing any more, and every other root what it showed. */
  lemma RemovalShows(db: Db, root: RootId, r: RootId, p: Path)
    requires Inv(db)
    ensures ListingAt(DeleteRoot(db, root), r, p) == if r == root then Absent else ListingAt(db, r, p)
  {
    var post := DeleteRoot(db, root);
    FindGives(post, r, p);
    if r != root {
      FindSame(db, post, r, p);
      FindGives(db, r, p);
      if FindSource(db, r, p).Some? {
        var s := FindSource(db, r, p).value;
        if db.sources[s].current.Some? {
          ContentSame(db, post, db.sources[s].current.value);
        }
        SameListing(db, post, s);
      }
    }
  }

  // ------------------------------------------------------------- afterwards

  lemma StepStaysEmpty(db: Db, op: Op, parse: Parsing, root: RootId)
    requires Inv(db) && NothingUnder(db, root) && op != AddRoot(root)
    ensures NothingUnder(Apply(db, op, parse), root)
  {
    match op
    case AddRoot(other) =>
    case IndexDocument(other, doc, registry) => ProcessStaysEmpty(db, other, doc, registry, parse, root);
    case DeleteSource(s) =>
    case RemoveRoot(other) =>
  }

  lemma ProcessStaysEmpty(db: Db, other: RootId, doc: Document, registry: Registry, parse: Parsing, root: RootId)
    requires Inv(db) && NothingUnder(db, root)
    ensures NothingUnder(Process(db, other, doc, registry, parse).0, root)
  {
    var post := Process(db, other, doc, registry, parse).0;
    ProcessKeepsInv(db, other, doc, registry, parse);
    ProcessKeepsRootsAndPaths(db, other, doc, registry, parse);
    EmptyRootIsClean(post, root);
  }

  /** A root that is not stored has no rows. */
  lemma EmptyRootIsClean(db: Db, root: RootId)
    requires Inv(db) && root !in db.roots
    ensures NothingUnder(db, root)
  {
  }

  /** Nothing of a removed root comes back in any run that does not add it again. */
  lemma {:induction false} RemovedStaysRemoved(db: Db, ops: seq<Op>, parse: Parsing, root: RootId)
    requires Inv(db) && Faithful(db, parse) && AddRoot(root) !in ops
    ensures NothingUnder(RunFrom(DeleteRoot(db, root), ops, parse), root)
  {
    DeleteRootKeepsInv(db, root);
    if ops == [] {
      RemovalTakesTheRoot(db, root);
    } else {
      var init := ops[..|ops| - 1];
      RemovedStaysRemoved(db, init, parse, root);
      KeepsFaithful(db, DeleteRoot(db, root), parse);
      RunFromKeeps(DeleteRoot(db, root), init, parse);
      StepStaysEmpty(RunFrom(DeleteRoot(db, root), init, parse), ops[|ops| - 1], parse, root);
    }
  }

  // ---------------------------------------------------------- indexing again

  ghost predicate Unused(db: Db, root: RootId) {
    forall s :: s in db.sources ==> db.sources[s].root != root
  }

  /** Two indexes without a file of the root, before a document. */
  lemma UnusedAgree(a: Db, b: Db, root: RootId, doc: Document, registry: Registry, parse: Parsing)
    requires Inv(a) && Inv(b) && (root in a.roots <==> root in b.roots)
    requires !HasSource(a, root, doc.path) && !HasSource(b, root, doc.path)
    ensures Predicted(a, root, doc, registry, parse) == Predicted(b, root, doc, registry, parse)
    ensures Left(a, root, doc, registry, parse) == Left(b, root, doc, registry, parse)
  {
    NoRevisionYet(a, root, doc, registry);
    NoRevisionYet(b, root, doc, registry);
  }

  lemma NoRevisionYet(db: Db, root: RootId, doc: Document, registry: Registry)
    requires Inv(db) && !HasSource(db, root, doc.path)
    ensures !RevisionKeyTaken(db, RevisionRow(IdFor(db, root, doc.path), Blake3(doc.bytes), registry(doc.fileType),
                                              Indexed))
    ensures CurrentOf(db, root, doc.path).None? && ListingAt(db, root, doc.path) == Absent
  {
  }

  lemma {:induction false} UnusedTallies(a: Db, b: Db, root: RootId, docs: seq<Document>, registry: Registry,
                                         parse: Parsing)
    requires Inv(a) && Inv(b) && (root in a.roots <==> root in b.roots) && Unused(a, root) && Unused(b, root)
    ensures PredictedTally(a, root, docs, registry, parse) == PredictedTally(b, root, docs, registry, parse)
  {
    if docs != [] {
      UnusedTallies(a, b, root, docs[..|docs| - 1], registry, parse);
      UnusedAgree(a, b, root, docs[|docs| - 1], registry, parse);
    }
  }

  /** Scans of a root by two indexes that hold nothing of it report and show the same, failures and all. */
  lemma UnusedScansAgree(a: Db, b: Db, root: RootId, docs: seq<Document>, registry: Registry, parse: Parsing)
    requires Inv(a) && Faithful(a, parse) && Inv(b) && Faithful(b, parse) && Unused(a, root) && Unused(b, root)
    requires DistinctPaths(docs)
    ensures FullScan(a, root, Some(docs), registry, parse).1 == FullScan(b, root, Some(docs), registry, parse).1
    ensures forall p :: ListingAt(FullScan(a, root, Some(docs), registry, parse).0, root, p)
                        == ListingAt(FullScan(b, root, Some(docs), registry, parse).0, root, p)
  {
    var x, y := UpsertRoot(a, root), UpsertRoot(b, root);
    UpsertRootKeepsInv(a, root);
    UpsertRootKeepsInv(b, root);
    ScanCountsExactly(a, root, docs, registry, parse);
    ScanCountsExactly(b, root, docs, registry, parse);
    UnusedTallies(x, y, root, docs, registry, parse);
    assert ActivePaths(a, root) == {} == ActivePaths(b, root);
    forall p
      ensures ListingAt(FullScan(a, root, Some(docs), registry, parse).0, root, p)
              == ListingAt(FullScan(b, root, Some(docs), registry, parse).0, root, p)
    {
      ScanLeaves(a, root, docs, registry, parse, p);
      ScanLeaves(b, root, docs, registry, parse, p);
      if p in Paths(docs) {
        var i :| 0 <= i < |docs| && docs[i].path == p;
        UnusedAgree(x, y, root, docs[i], registry, parse);
      }
    }
  }

  /**
   A root that is removed and scanned again is scanned as by an empty index: the
   same report, the same paths, whatever had been stored or refused before.
   */
  lemma RemovedScansAsNew(db: Db, root: RootId, docs: seq<Document>, registry: Registry, parse: Parsing)
    requires Inv(db) && Faithful(db, parse) && DistinctPaths(docs)
    ensures var clean := DeleteRoot(db, root);
            && FullScan(clean, root, Some(docs), registry, parse).1
               == FullScan(EMPTY, root, Some(docs), registry, parse).1
            && forall p :: ListingAt(FullScan(clean, root, Some(docs), registry, parse).0, root, p)
                           == ListingAt(FullScan(EMPTY, root, Some(docs), registry, parse).0, root, p)
  {
    var clean := DeleteRoot(db, root);
    DeleteRootKeepsInv(db, root);
    KeepsFaithful(db, clean, parse);
    RemovalTakesTheRoot(db, root);
    EmptyInv();
    UnusedScansAgree(clean, EMPTY, root, docs, registry, parse);
  }
}
