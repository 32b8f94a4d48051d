/**
 When processing succeeds.  The schema allows one revision per source, bytes and
 parser, so a file that returns to bytes it once had is refused: the exact
 condition is proved here, with the run that gets stuck.
 */
module IndexingProgress {
  import opened Prelude
  import opened Catalog
  import opened CatalogInvariant
  import opened Indexing
  import opened IndexingSteps
  import opened IndexingSurface
  import opened IndexingTheorems

  /** A caller can check this before the document is processed. */
  ghost predicate Indexable(db: Db, root: RootId, doc: Document, registry: Registry, parse: Parsing) {
    var key, hash := registry(doc.fileType), Blake3(doc.bytes);
    && root in db.roots
    && doc.fault != ReadFails && doc.fault != FirstCommitFails
    && (UpToDate(db, CurrentOf(db, root, doc.path), hash, key)
        || (&& doc.fault != SecondCommitFails
            && parse(key, doc.bytes).Some? && StorableSegments(parse(key, doc.bytes).value)
            && !RevisionKeyTaken(db, RevisionRow(IdFor(db, root, doc.path), hash, key, Indexed))))
  }

  /** `process_document` succeeds exactly on indexable documents. */
  lemma ProcessSucceedsExactly(db: Db, root: RootId, doc: Document, registry: Registry, parse: Parsing)
    requires Inv(db)
    ensures Process(db, root, doc, registry, parse).1 != Failure <==> Indexable(db, root, doc, registry, parse)
  {
    var id, current := IdFor(db, root, doc.path), CurrentOf(db, root, doc.path);
    var key, hash := registry(doc.fileType), Blake3(doc.bytes);
    var parsed := parse(key, doc.bytes);
    if !UpToDate(db, current, hash, key) && root in db.roots {
      var row := IdentityRow(root, doc.path, current, parsed.Some?);
      FindFits(db, root, doc.path, row.state);
      UpsertTarget(db, id, row);
      var mid := UpsertSource(db, id, row).value;
      var rev := RevisionRow(id, hash, key, Indexed);
      assert RevisionKeyTaken(mid, rev) <==> RevisionKeyTaken(db, rev);
    }
  }

  /** The stored source once held these bytes under this parser, but does not hold them now. */
  ghost predicate Refused(db: Db, root: RootId, doc: Document, registry: Registry) {
    var key, hash := registry(doc.fileType), Blake3(doc.bytes);
    && root in db.roots
    && HasSource(db, root, doc.path)
    && !UpToDate(db, CurrentOf(db, root, doc.path), hash, key)
    && RevisionKeyTaken(db, RevisionRow(IdFor(db, root, doc.path), hash, key, Indexed))
  }

  /** The same of a source by its identity. */
  ghost predicate Stuck(db: Db, s: SourceId, root: RootId, path: Path, hash: ContentHash, key: ParserKey) {
    && root in db.roots && At(db, s, root, path)
    && !UpToDate(db, db.sources[s].current, hash, key)
    && RevisionKeyTaken(db, RevisionRow(s, hash, key, Indexed))
  }

  lemma RefusedIsStuck(db: Db, root: RootId, doc: Document, registry: Registry, s: SourceId)
    requires UniqueSources(db) && At(db, s, root, doc.path)
    ensures Refused(db, root, doc, registry) <==>
            Stuck(db, s, root, doc.path, Blake3(doc.bytes), registry(doc.fileType))
  {
    FindSourceUnique(db, s);
  }

  lemma StuckThroughUpsert(db: Db, id: SourceId, row: SourceRow, mid: Db, s: SourceId, root: RootId, path: Path,
                           hash: ContentHash, key: ParserKey)
    requires UniqueSources(db) && UpsertFits(db, id, row) && UpsertSource(db, id, row) == Some(mid)
    requires Stuck(db, s, root, path, hash, key)
    ensures Stuck(mid, s, root, path, hash, key)
  {
    UpsertTarget(db, id, row);
    MidKeepsKeyTaken(db, id, row, mid, RevisionRow(s, hash, key, Indexed));
  }

  lemma TakenStays(db: Db, post: Db, rev: RevisionRow)
    requires RevisionKeyTaken(db, rev)
    requires forall r :: r in db.revisions && db.revisions[r].source == rev.source ==>
             r in post.revisions && post.revisions[r] == db.revisions[r]
    ensures RevisionKeyTaken(post, rev)
  {
    var r :| r in db.revisions && SameKey(db.revisions[r], rev);
    assert SameKey(post.revisions[r], rev);
  }

  /**
   The only way out is barred: a promotion of the same bytes meets the UNIQUE key,
   any other makes other bytes current.
   */
  lemma StuckThroughSecond(mid: Db, id: SourceId, row: SourceRow, newHash: ContentHash, newKey: ParserKey,
                           parsed: Option<seq<ParsedSegment>>, post: Db, s: SourceId, root: RootId, path: Path,
                           hash: ContentHash, key: ParserKey)
    requires KeysResolve(mid) && PointersSound(mid) && Stuck(mid, s, root, path, hash, key)
    requires SecondCommit(mid, id, row, newHash, newKey, parsed) == Some(post)
    ensures Stuck(post, s, root, path, hash, key)
  {
    TakenStays(mid, post, RevisionRow(s, hash, key, Indexed));
    if parsed.Some? && id == s {
      assert post.sources[s].current == Some(mid.next)
             && post.revisions[mid.next] == RevisionRow(s, newHash, newKey, Indexed);
      assert !SameKey(RevisionRow(s, newHash, newKey, Indexed), RevisionRow(s, hash, key, Indexed)) by {
        var r :| r in mid.revisions && SameKey(mid.revisions[r], RevisionRow(s, hash, key, Indexed));
        assert !SameKey(mid.revisions[r], RevisionRow(id, newHash, newKey, Indexed));
      }
    }
  }

  lemma StuckThroughProcess(db: Db, at: RootId, doc: Document, registry: Registry, parse: Parsing, s: SourceId,
                            root: RootId, path: Path, hash: ContentHash, key: ParserKey)
    requires Inv(db) && Stuck(db, s, root, path, hash, key)
    ensures Stuck(Process(db, at, doc, registry, parse).0, s, root, path, hash, key)
  {
    var id, current := IdFor(db, at, doc.path), CurrentOf(db, at, doc.path);
    var newKey, newHash := registry(doc.fileType), Blake3(doc.bytes);
    if FirstCommitted(db, at, doc) {
      var parsed := parse(newKey, doc.bytes);
      var same := UpToDate(db, current, newHash, newKey);
      var row := if same then SourceRow(at, doc.path, current, Active)
          else IdentityRow(at, doc.path, current, parsed.Some?);
      FindFits(db, at, doc.path, row.state);
      var mid := UpsertSource(db, id, row).value;
      StuckThroughUpsert(db, id, row, mid, s, root, path, hash, key);
      var done := SecondCommit(mid, id, row, newHash, newKey, parsed);
      if !same && done.Some? {
        UpsertKeepsInv(db, id, row, mid);
        StuckThroughSecond(mid, id, row, newHash, newKey, parsed, done.value, s, root, path, hash, key);
      }
    }
  }

  lemma StuckThroughDeletion(db: Db, gone: SourceId, s: SourceId, root: RootId, path: Path, hash: ContentHash,
                             key: ParserKey)
    requires gone in db.sources && Stuck(db, s, root, path, hash, key)
    ensures Stuck(MarkDeleted(db, gone, db.sources[gone]), s, root, path, hash, key)
  {
    TakenStays(db, MarkDeleted(db, gone, db.sources[gone]), RevisionRow(s, hash, key, Indexed));
  }

  lemma StuckThroughOtherRoot(db: Db, gone: RootId, s: SourceId, root: RootId, path: Path, hash: ContentHash,
                              key: ParserKey)
    requires gone != root && Stuck(db, s, root, path, hash, key)
    ensures Stuck(DeleteRoot(db, gone), s, root, path, hash, key)
  {
    TakenStays(db, DeleteRoot(db, gone), RevisionRow(s, hash, key, Indexed));
  }

  lemma StuckThroughStep(db: Db, op: Op, parse: Parsing, s: SourceId, root: RootId, path: Path, hash: ContentHash,
                         key: ParserKey)
    requires Inv(db) && Stuck(db, s, root, path, hash, key) && op != RemoveRoot(root)
    ensures Stuck(Apply(db, op, parse), s, root, path, hash, key)
  {
    match op
    case AddRoot(r) => TakenStays(db, UpsertRoot(db, r), RevisionRow(s, hash, key, Indexed));
    case IndexDocument(r, doc, registry) => StuckThroughProcess(db, r, doc, registry, parse, s, root, path, hash, key);
    case DeleteSource(gone) =>
      if gone in db.sources {
        StuckThroughDeletion(db, gone, s, root, path, hash, key);
      }
    case RemoveRoot(gone) => StuckThroughOtherRoot(db, gone, s, root, path, hash, key);
  }

  lemma {:induction false} StuckThroughRun(db: Db, ops: seq<Op>, parse: Parsing, s: SourceId, root: RootId, path: Path,
                                           hash: ContentHash, key: ParserKey)
    requires Inv(db) && Faithful(db, parse) && Stuck(db, s, root, path, hash, key)
    requires RemoveRoot(root) !in ops
    ensures Stuck(RunFrom(db, ops, parse), s, root, path, hash, key)
  {
    if ops != [] {
      var init := ops[..|ops| - 1];
      StuckThroughRun(db, init, parse, s, root, path, hash, key);
      RunFromKeeps(db, init, parse);
      StuckThroughStep(RunFrom(db, init, parse), ops[|ops| - 1], parse, s, root, path, hash, key);
    }
  }

  /**
   A refused document stays refused whatever the program does next, short of
   removing its root: documents processed, sources deleted, other bytes indexed at
   the very path, under any parsers.  Each later attempt fails, with or without a
   fault, and one without a fault leaves the path showing what it showed if that
   was a file, or active with nothing to search.
   */
  lemma RefusedForEver(db: Db, root: RootId, doc: Document, registry: Registry, parse: Parsing, ops: seq<Op>,
                       again: Document)
    requires Inv(db) && Faithful(db, parse) && Refused(db, root, doc, registry) && RemoveRoot(root) !in ops
    requires again == doc.(fault := again.fault)
    ensures var later := RunFrom(db, ops, parse);
            var (post, outcome) := Process(later, root, again, registry, parse);
            && Refused(later, root, doc, registry) && outcome == Failure
            && (again.fault == NoFault && parse(registry(doc.fileType), doc.bytes).Some? ==>
                  ListingAt(post, root, doc.path)
                  == if CurrentOf(later, root, doc.path).None? then Pending else ListingAt(later, root, doc.path))
  {
    var later := RunFrom(db, ops, parse);
    FindGives(db, root, doc.path);
    var s := IdFor(db, root, doc.path);
    RefusedIsStuck(db, root, doc, registry, s);
    StuckThroughRun(db, ops, parse, s, root, doc.path, Blake3(doc.bytes), registry(doc.fileType));
    RunFromKeeps(db, ops, parse);
    RefusedIsStuck(later, root, doc, registry, s);
    ProcessSucceedsExactly(later, root, again, registry, parse);
    FailureShows(later, root, again, registry, parse);
  }

  /**
   When processing leaves a path active with nothing to search: it was so and
   nothing was committed, or the document parses, the path has no current revision,
   and after the first commit the second is stopped or breaks a UNIQUE key.
   */
  lemma PendingExactly(db: Db, root: RootId, doc: Document, registry: Registry, parse: Parsing)
    requires Inv(db) && Faithful(db, parse)
    ensures var key, hash := registry(doc.fileType), Blake3(doc.bytes);
            ListingAt(Process(db, root, doc, registry, parse).0, root, doc.path) == Pending
            <==> if !FirstCommitted(db, root, doc) then ListingAt(db, root, doc.path) == Pending
                 else
                   && parse(key, doc.bytes).Some? && CurrentOf(db, root, doc.path).None?
                   && (doc.fault == SecondCommitFails || !StorableSegments(parse(key, doc.bytes).value)
                       || RevisionKeyTaken(db, RevisionRow(IdFor(db, root, doc.path), hash, key, Indexed)))
  {
    ProcessShows(db, root, doc, registry, parse);
    ProcessSucceedsExactly(db, root, doc, registry, parse);
    FindGives(db, root, doc.path);
  }

  lemma MidKeepsKeyTaken(db: Db, id: SourceId, row: SourceRow, mid: Db, rev: RevisionRow)
    requires UpsertSource(db, id, row) == Some(mid)
    ensures RevisionKeyTaken(mid, rev) <==> RevisionKeyTaken(db, rev)
  {
  }

  /** The run that gets there: any file that was indexed, lost and found again with the same bytes. */
  lemma ReappearingFileIsRefused(db: Db, root: RootId, doc: Document, registry: Registry, parse: Parsing)
    requires Inv(db) && Faithful(db, parse) && root in db.roots
    requires Process(db, root, doc, registry, parse).1 != Failure
    ensures var post := Process(db, root, doc, registry, parse).0;
            var s := IdFor(post, root, doc.path);
            s in post.sources && Refused(MarkDeleted(post, s, post.sources[s]), root, doc, registry)
  {
    var post := Process(db, root, doc, registry, parse).0;
    ProcessKeepsInv(db, root, doc, registry, parse);
    ProcessShows(db, root, doc, registry, parse);
    ProcessSucceedsExactly(db, root, doc, registry, parse);
    FindGives(post, root, doc.path);
    var s := IdFor(post, root, doc.path);
    var r := post.sources[s].current.value;
    var gone := MarkDeleted(post, s, post.sources[s]);
    MarkDeletedKeepsInv(post, s);
    FindSourceUnique(gone, s);
    assert r in gone.revisions
           && SameKey(gone.revisions[r], RevisionRow(s, Blake3(doc.bytes), registry(doc.fileType), Indexed));
    assert gone.roots == post.roots;
    ProcessKeepsRootsAndPaths(db, root, doc, registry, parse);
  }

  // -------------------------------------------------- history independence

  /** The same documents, met by no fault. */
  function Faultless(docs: seq<Document>): (out: seq<Document>)
    ensures |out| == |docs|
    ensures forall i :: 0 <= i < |docs| ==> out[i] == docs[i].(fault := NoFault)
  {
    if docs == [] then [] else Faultless(docs[..|docs| - 1]) + [docs[|docs| - 1].(fault := NoFault)]
  }

  lemma FreshDocumentSucceeds(db: Db, root: RootId, doc: Document, registry: Registry, parse: Parsing)
    requires Inv(db) && root in db.roots && doc.fault == NoFault && !HasSource(db, root, doc.path)
    requires parse(registry(doc.fileType), doc.bytes).Some?
    requires StorableSegments(parse(registry(doc.fileType), doc.bytes).value)
    ensures Process(db, root, doc, registry, parse).1 != Failure
  {
    ProcessSucceedsExactly(db, root, doc, registry, parse);
  }

  lemma ProcessKeepsRootsAndPaths(db: Db, root: RootId, doc: Document, registry: Registry, parse: Parsing)
    requires Inv(db)
    ensures var post := Process(db, root, doc, registry, parse).0;
            && post.roots == db.roots
            && (forall s :: s in post.sources ==> HasSource(db, post.sources[s].root, post.sources[s].path)
                                                  || (post.sources[s].root == root && post.sources[s].path == doc.path))
  {
    var id, current := IdFor(db, root, doc.path), CurrentOf(db, root, doc.path);
    FindGives(db, root, doc.path);
    var post := Process(db, root, doc, registry, parse).0;
    ProcessKeepsInv(db, root, doc, registry, parse);
    forall s | s in post.sources
      ensures HasSource(db, post.sources[s].root, post.sources[s].path)
              || (post.sources[s].root == root && post.sources[s].path == doc.path)
    {
      if s in db.sources && s != id {
        assert post.sources[s] == db.sources[s];
      }
    }
  }

  lemma {:induction false} FreshRootSucceeds(db: Db, root: RootId, docs: seq<Document>, registry: Registry,
                                             parse: Parsing)
    requires Inv(db) && Faithful(db, parse) && root in db.roots && DistinctPaths(docs)
    requires forall s :: s in db.sources ==> db.sources[s].root != root
    requires forall i :: 0 <= i < |docs| ==> Parsable(docs[i], registry, parse) && docs[i].fault == NoFault
    ensures ProcessAll(db, root, docs, registry, parse).1.failures == 0
    ensures var post := ProcessAll(db, root, docs, registry, parse).0;
            && post.roots == db.roots
            && forall s :: s in post.sources && post.sources[s].root == root ==> post.sources[s].path in Paths(docs)
  {
    if docs != [] {
      var init, last := docs[..|docs| - 1], docs[|docs| - 1];
      DistinctInit(docs);
      FreshRootSucceeds(db, root, init, registry, parse);
      ProcessAllKeeps(db, root, init, registry, parse);
      var before := ProcessAll(db, root, init, registry, parse).0;
      PathsOfInit(docs);
      assert !HasSource(before, root, last.path);
      FreshDocumentSucceeds(before, root, last, registry, parse);
      ProcessKeepsRootsAndPaths(before, root, last, registry, parse);
    }
  }

  lemma PathsOfInit(docs: seq<Document>)
    requires DistinctPaths(docs) && docs != []
    ensures Paths(docs) == Paths(docs[..|docs| - 1]) + {docs[|docs| - 1].path}
    ensures docs[|docs| - 1].path !in Paths(docs[..|docs| - 1])
  {
    var init, last := docs[..|docs| - 1], docs[|docs| - 1];
    forall i | 0 <= i < |init| ensures init[i].path != last.path && init[i].path in Paths(docs) {
      assert init[i] == docs[i] && OtherPath(docs[i], last);
    }
    assert last.path in Paths(docs);
    forall p | p in Paths(docs) ensures p in Paths(init) + {last.path} {
      var i :| 0 <= i < |docs| && docs[i].path == p;
      assert i < |init| ==> init[i].path == p;
    }
  }

  ghost predicate Parsable(doc: Document, registry: Registry, parse: Parsing) {
    && parse(registry(doc.fileType), doc.bytes).Some?
    && StorableSegments(parse(registry(doc.fileType), doc.bytes).value)
  }

  /** A document shown without failure is one an empty index would take. */
  lemma {:induction false} ShownIsParsable(db: Db, root: RootId, docs: seq<Document>, registry: Registry,
                                           parse: Parsing, i: nat)
    requires Inv(db) && Faithful(db, parse) && i < |docs|
    requires ProcessAll(db, root, docs, registry, parse).1.failures == 0
    ensures Parsable(docs[i], registry, parse)
  {
    var init, last := docs[..|docs| - 1], docs[|docs| - 1];
    ProcessAllKeeps(db, root, init, registry, parse);
    var before := ProcessAll(db, root, init, registry, parse).0;
    if i == |docs| - 1 {
      ProcessSucceedsExactly(before, root, last, registry, parse);
      var current := CurrentOf(before, root, last.path);
      if UpToDate(before, current, Blake3(last.bytes), registry(last.fileType)) {
        assert RevisionFaithful(before, current.value, parse);
      }
    } else {
      assert init[i] == docs[i];
      ShownIsParsable(db, root, init, registry, parse, i);
    }
  }

  lemma FaultlessPaths(docs: seq<Document>)
    requires DistinctPaths(docs)
    ensures DistinctPaths(Faultless(docs))
  {
    var out := Faultless(docs);
    forall i, j | 0 <= i < j < |out| ensures OtherPath(out[i], out[j]) {
      assert OtherPath(docs[i], docs[j]);
    }
  }

  lemma FaultlessWanted(docs: seq<Document>, registry: Registry, parse: Parsing, p: Path)
    requires DistinctPaths(docs)
    ensures Wanted(Faultless(docs), registry, parse, p) == Wanted(docs, registry, parse, p)
  {
    var out := Faultless(docs);
    FaultlessPaths(docs);
    if p in Paths(docs) {
      var i :| 0 <= i < |docs| && docs[i].path == p;
      WantedAt(docs, registry, parse, i);
      WantedAt(out, registry, parse, i);
      assert out[i].path == p;
    } else {
      forall i | 0 <= i < |out| ensures out[i].path != p {
        assert docs[i].path in Paths(docs);
      }
    }
  }

  /**
   A scan that reports no failure leaves the root as a scan of an empty database
   would: that scan succeeds as well, and every path shows the same.
   */
  lemma FullScanForgetsHistory(db: Db, root: RootId, docs: seq<Document>, registry: Registry, parse: Parsing)
    requires Inv(db) && Faithful(db, parse) && DistinctPaths(docs)
    requires FullScan(db, root, Some(docs), registry, parse).1.tally.failures == 0
    ensures FullScan(EMPTY, root, Some(Faultless(docs)), registry, parse).1.tally.failures == 0
    ensures forall p :: ListingAt(FullScan(db, root, Some(docs), registry, parse).0, root, p)
                        == ListingAt(FullScan(EMPTY, root, Some(Faultless(docs)), registry, parse).0, root, p)
  {
    var rooted := UpsertRoot(db, root);
    UpsertRootKeepsInv(db, root);
    KeepsFaithful(db, rooted, parse);
    forall i | 0 <= i < |docs| ensures Parsable(Faultless(docs)[i], registry, parse) {
      ShownIsParsable(rooted, root, docs, registry, parse, i);
    }
    EmptyInv();
    UpsertRootKeepsInv(EMPTY, root);
    FaultlessPaths(docs);
    FreshRootSucceeds(UpsertRoot(EMPTY, root), root, Faultless(docs), registry, parse);
    forall p
      ensures ListingAt(FullScan(db, root, Some(docs), registry, parse).0, root, p)
              == ListingAt(FullScan(EMPTY, root, Some(Faultless(docs)), registry, parse).0, root, p)
    {
      FullScanConverges(db, root, docs, registry, parse, p);
      FullScanConverges(EMPTY, root, Faultless(docs), registry, parse, p);
      FaultlessWanted(docs, registry, parse, p);
    }
  }

  ghost predicate AllIndexable(db: Db, root: RootId, docs: seq<Document>, registry: Registry, parse: Parsing) {
    forall i :: 0 <= i < |docs| ==> Indexable(db, root, docs[i], registry, parse)
  }

  lemma AllIndexableSplit(db: Db, root: RootId, docs: seq<Document>, registry: Registry, parse: Parsing)
    requires docs != []
    ensures AllIndexable(db, root, docs, registry, parse)
            <==> AllIndexable(db, root, docs[..|docs| - 1], registry, parse)
                 && Indexable(db, root, docs[|docs| - 1], registry, parse)
  {
    var init, last := docs[..|docs| - 1], docs[|docs| - 1];
    if AllIndexable(db, root, init, registry, parse) && Indexable(db, root, last, registry, parse) {
      forall i | 0 <= i < |docs| ensures Indexable(db, root, docs[i], registry, parse) {
        assert i < |init| ==> init[i] == docs[i];
      }
    }
  }

  lemma {:induction false} LoopSucceedsExactly(db: Db, root: RootId, docs: seq<Document>, registry: Registry,
                                               parse: Parsing)
    requires Inv(db) && Faithful(db, parse) && DistinctPaths(docs)
    ensures ProcessAll(db, root, docs, registry, parse).1.failures == 0 <==>
            AllIndexable(db, root, docs, registry, parse)
  {
    if docs != [] {
      var init, last := docs[..|docs| - 1], docs[|docs| - 1];
      DistinctInit(docs);
      LoopSucceedsExactly(db, root, init, registry, parse);
      ProcessAllKeeps(db, root, init, registry, parse);
      PathsOfInit(docs);
      ProcessSucceedsExactly(ProcessAll(db, root, init, registry, parse).0, root, last, registry, parse);
      IndexableKept(db, root, init, registry, parse, last);
      AllIndexableSplit(db, root, docs, registry, parse);
    }
  }

  /** A full scan reports no failure exactly when every document was indexable before it began. */
  lemma ScanSucceedsExactly(db: Db, root: RootId, docs: seq<Document>, registry: Registry, parse: Parsing)
    requires Inv(db) && Faithful(db, parse) && DistinctPaths(docs)
    ensures FullScan(db, root, Some(docs), registry, parse).1.tally.failures == 0
            <==> AllIndexable(UpsertRoot(db, root), root, docs, registry, parse)
  {
    UpsertRootKeepsInv(db, root);
    KeepsFaithful(db, UpsertRoot(db, root), parse);
    LoopSucceedsExactly(UpsertRoot(db, root), root, docs, registry, parse);
  }

  /** Processing other paths does not change whether a document is indexable. */
  lemma {:induction false} IndexableKept(db: Db, root: RootId, docs: seq<Document>, registry: Registry, parse: Parsing,
                                         doc: Document)
    requires Inv(db) && Faithful(db, parse) && doc.path !in Paths(docs)
    ensures Indexable(ProcessAll(db, root, docs, registry, parse).0, root, doc, registry, parse)
            <==> Indexable(db, root, doc, registry, parse)
  {
    if docs != [] {
      var init, last := docs[..|docs| - 1], docs[|docs| - 1];
      assert last.path in Paths(docs);
      assert forall i :: 0 <= i < |init| ==> init[i].path == docs[i].path && docs[i].path in Paths(docs);
      IndexableKept(db, root, init, registry, parse, doc);
      ProcessAllKeeps(db, root, init, registry, parse);
      IndexableKeptByOne(ProcessAll(db, root, init, registry, parse).0, root, last, registry, parse, doc);
    }
  }

  /** The identity row at a place, and the revisions filed under it, are untouched. */
  ghost predicate PlaceKept(db: Db, post: Db, root: RootId, path: Path) {
    var found := FindSource(db, root, path);
    && FindSource(post, root, path) == found
    && (found.Some? ==>
          && found.value in db.sources && found.value in post.sources
          && post.sources[found.value] == db.sources[found.value]
          && (forall r :: r in db.revisions && db.revisions[r].source == found.value ==>
                r in post.revisions && post.revisions[r] == db.revisions[r])
          && (forall r :: r in post.revisions && post.revisions[r].source == found.value ==>
                r in db.revisions && post.revisions[r] == db.revisions[r]))
  }

  lemma PlaceKeptMeans(db: Db, post: Db, root: RootId, doc: Document, registry: Registry, parse: Parsing)
    requires Inv(db) && Inv(post) && PlaceKept(db, post, root, doc.path) && post.roots == db.roots
    ensures Indexable(post, root, doc, registry, parse) <==> Indexable(db, root, doc, registry, parse)
  {
    FindGives(db, root, doc.path);
  }

  lemma UpsertKeepsPlace(db: Db, id: SourceId, row: SourceRow, mid: Db, path: Path)
    requires Inv(db) && UpsertFits(db, id, row) && UpsertSource(db, id, row) == Some(mid) && path != row.path
    ensures PlaceKept(db, mid, row.root, path)
  {
    UpsertTarget(db, id, row);
    FindSame(db, mid, row.root, path);
    FindGives(db, row.root, path);
  }

  lemma SecondCommitKeepsPlace(mid: Db, id: SourceId, row: SourceRow, hash: ContentHash, key: ParserKey,
                               parsed: Option<seq<ParsedSegment>>, post: Db, path: Path)
    requires Inv(mid) && CopyFits(mid, id, row) && path != row.path
    requires SecondCommit(mid, id, row, hash, key, parsed) == Some(post)
    ensures PlaceKept(mid, post, row.root, path)
  {
    FindSame(mid, post, row.root, path);
    FindGives(mid, row.root, path);
  }

  lemma IndexableKeptByUpsert(db: Db, id: SourceId, row: SourceRow, mid: Db, doc: Document, registry: Registry,
                              parse: Parsing)
    requires Inv(db) && UpsertFits(db, id, row) && UpsertSource(db, id, row) == Some(mid) && doc.path != row.path
    ensures Indexable(mid, row.root, doc, registry, parse) <==> Indexable(db, row.root, doc, registry, parse)
  {
    UpsertKeepsInv(db, id, row, mid);
    UpsertKeepsPlace(db, id, row, mid, doc.path);
    UpsertTarget(db, id, row);
    PlaceKeptMeans(db, mid, row.root, doc, registry, parse);
  }

  lemma IndexableKeptBySecond(mid: Db, id: SourceId, row: SourceRow, hash: ContentHash, key: ParserKey,
                              parsed: Option<seq<ParsedSegment>>, post: Db, doc: Document, registry: Registry,
                              parse: Parsing)
    requires Inv(mid) && CopyFits(mid, id, row) && doc.path != row.path
    requires SecondCommit(mid, id, row, hash, key, parsed) == Some(post)
    ensures Indexable(post, row.root, doc, registry, parse) <==> Indexable(mid, row.root, doc, registry, parse)
  {
    SecondCommitKeepsInv(mid, id, row, hash, key, parsed, post);
    SecondCommitKeepsPlace(mid, id, row, hash, key, parsed, post, doc.path);
    PlaceKeptMeans(mid, post, row.root, doc, registry, parse);
  }

  lemma IndexableKeptByOne(db: Db, root: RootId, other: Document, registry: Registry, parse: Parsing, doc: Document)
    requires Inv(db) && doc.path != other.path
    ensures Indexable(Process(db, root, other, registry, parse).0, root, doc, registry, parse)
            <==> Indexable(db, root, doc, registry, parse)
  {
    var id, current := IdFor(db, root, other.path), CurrentOf(db, root, other.path);
    var key, hash := registry(other.fileType), Blake3(other.bytes);
    if other.fault != ReadFails && other.fault != FirstCommitFails && root in db.roots {
      var parsed := parse(key, other.bytes);
      var row := if UpToDate(db, current, hash, key) then SourceRow(root, other.path, current, Active)
                 else IdentityRow(root, other.path, current, parsed.Some?);
      FindFits(db, root, other.path, row.state);
      var mid := UpsertSource(db, id, row).value;
      IndexableKeptByUpsert(db, id, row, mid, doc, registry, parse);
      if !UpToDate(db, current, hash, key) {
        IndexableKeptByCommits(db, id, row, mid, hash, key, parsed, doc, registry, parse);
      }
    }
  }

  lemma IndexableKeptByCommits(db: Db, id: SourceId, row: SourceRow, mid: Db, hash: ContentHash, key: ParserKey,
                               parsed: Option<seq<ParsedSegment>>, doc: Document, registry: Registry, parse: Parsing)
    requires Inv(db) && UpsertFits(db, id, row) && UpsertSource(db, id, row) == Some(mid) && doc.path != row.path
    ensures var done := SecondCommit(mid, id, row, hash, key, parsed);
            done.Some? ==>
                (Indexable(done.value, row.root, doc, registry, parse) <==>
                    Indexable(mid, row.root, doc, registry, parse))
  {
    var done := SecondCommit(mid, id, row, hash, key, parsed);
    if done.Some? {
      UpsertKeepsInv(db, id, row, mid);
      StoredCopyFits(db, id, row, mid);
      IndexableKeptBySecond(mid, id, row, hash, key, parsed, done.value, doc, registry, parse);
    }
  }
}
