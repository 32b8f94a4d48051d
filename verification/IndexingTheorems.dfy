/** The promises of the index: over every run, over every completed scan, over every exact change list. */
module IndexingTheorems {
  import opened Prelude
  import opened Catalog
  import opened CatalogInvariant
  import opened Indexing
  import opened IndexingSteps
  import opened IndexingSurface

  // ---------------------------------------------------------------- every run

  /** What the program can do to the tables, in any order; faults inside a document are part of the document. */
  datatype Op =
    | AddRoot(root: RootId)
    | IndexDocument(root: RootId, document: Document, registry: Registry)
    | DeleteSource(source: SourceId)
    | RemoveRoot(root: RootId)

  ghost function Apply(db: Db, op: Op, parse: Parsing): Db {
    match op
    case AddRoot(root) => UpsertRoot(db, root)
    case IndexDocument(root, document, registry) => Process(db, root, document, registry, parse).0
    case DeleteSource(s) => if s in db.sources then MarkDeleted(db, s, db.sources[s]) else db
    case RemoveRoot(root) => DeleteRoot(db, root)
  }

  ghost function RunFrom(db: Db, ops: seq<Op>, parse: Parsing): Db {
    if ops == [] then db else Apply(RunFrom(db, ops[..|ops| - 1], parse), ops[|ops| - 1], parse)
  }

  ghost function Run(ops: seq<Op>, parse: Parsing): Db {
    RunFrom(EMPTY, ops, parse)
  }

  lemma StepKeepsBoth(db: Db, op: Op, parse: Parsing)
    requires Inv(db) && Faithful(db, parse)
    ensures Inv(Apply(db, op, parse)) && Faithful(Apply(db, op, parse), parse)
  {
    match op
    case AddRoot(root) =>
      UpsertRootKeepsInv(db, root);
      KeepsFaithful(db, UpsertRoot(db, root), parse);
    case IndexDocument(root, document, registry) =>
      ProcessKeepsInv(db, root, document, registry, parse);
      ProcessKeepsFaithful(db, root, document, registry, parse);
    case DeleteSource(s) =>
      if s in db.sources {
        MarkDeletedKeepsInv(db, s);
        KeepsFaithful(db, MarkDeleted(db, s, db.sources[s]), parse);
      }
    case RemoveRoot(root) =>
      DeleteRootKeepsInv(db, root);
      KeepsFaithful(db, DeleteRoot(db, root), parse);
  }

  /** Dropping whole revisions, or none, with all their segments keeps the others faithful. */
  lemma KeepsFaithful(db: Db, post: Db, parse: Parsing)
    requires Faithful(db, parse)
    requires forall r :: r in post.revisions ==> r in db.revisions && post.revisions[r] == db.revisions[r]
    requires forall g :: g in post.segments ==> g in db.segments && post.segments[g] == db.segments[g]
    requires forall g :: g in db.segments && db.segments[g].revision in post.revisions ==> g in post.segments
    ensures Faithful(post, parse)
  {
    forall r | r in post.revisions && post.revisions[r].status == Indexed ensures RevisionFaithful(post, r, parse) {
      ContentSame(db, post, r);
    }
  }

  lemma {:induction false} RunFromKeeps(db: Db, ops: seq<Op>, parse: Parsing)
    requires Inv(db) && Faithful(db, parse)
    ensures Inv(RunFrom(db, ops, parse)) && Faithful(RunFrom(db, ops, parse), parse)
  {
    if ops != [] {
      RunFromKeeps(db, ops[..|ops| - 1], parse);
      StepKeepsBoth(RunFrom(db, ops[..|ops| - 1], parse), ops[|ops| - 1], parse);
    }
  }

  /** Every reachable catalog satisfies the invariant. */
  lemma RunKeepsInv(ops: seq<Op>, parse: Parsing)
    ensures Inv(Run(ops, parse)) && Faithful(Run(ops, parse), parse)
  {
    EmptyInv();
    RunFromKeeps(EMPTY, ops, parse);
  }

  /**
   After any run, full-text rows and segments of current revisions of active
   sources correspond one to one, and pointers are sound.
   */
  lemma SearchSurfaceIsExact(ops: seq<Op>, parse: Parsing)
    ensures var db := Run(ops, parse);
            && (forall k :: k in db.fts ==>
                  var row := db.fts[k];
                  && row.source in db.sources && db.sources[row.source].state == Active
                  && db.sources[row.source].current == Some(row.revision)
                  && db.sources[row.source].root == row.root && db.sources[row.source].path == row.path
                  && row.segment in db.segments
                  && db.segments[row.segment].revision == row.revision
                  && db.segments[row.segment].parsed.anchor == row.anchor
                  && db.segments[row.segment].parsed.text == row.text)
            && (forall s, g :: (s in db.sources && g in db.segments && db.sources[s].state == Active
                                && db.sources[s].current == Some(db.segments[g].revision)) ==> Searchable(db, g))
            && (forall k, l :: k in db.fts && l in db.fts && db.fts[k].segment == db.fts[l].segment ==> k == l)
            && (forall s :: s in db.sources && db.sources[s].current.Some? ==>
                  var r := db.sources[s].current.value;
                  && db.sources[s].state == Active && r in db.revisions
                  && db.revisions[r].status == Indexed && db.revisions[r].source == s)
  {
    RunKeepsInv(ops, parse);
  }

  // ----------------------------------------------------------- a scan's loop

  lemma {:induction false} ProcessAllKeeps(db: Db, root: RootId, docs: seq<Document>, registry: Registry,
                                           parse: Parsing)
    requires Inv(db) && Faithful(db, parse)
    ensures var post := ProcessAll(db, root, docs, registry, parse).0; Inv(post) && Faithful(post, parse)
  {
    if docs != [] {
      ProcessAllKeeps(db, root, docs[..|docs| - 1], registry, parse);
      var before := ProcessAll(db, root, docs[..|docs| - 1], registry, parse).0;
      ProcessKeepsInv(before, root, docs[|docs| - 1], registry, parse);
      ProcessKeepsFaithful(before, root, docs[|docs| - 1], registry, parse);
    }
  }

  function Total(t: Tally): nat {
    t.additions + t.modifications + t.same + t.failures
  }

  /** Every discovered document is counted exactly once. */
  lemma {:induction false} ProcessAllCounts(db: Db, root: RootId, docs: seq<Document>, registry: Registry,
                                            parse: Parsing)
    ensures Total(ProcessAll(db, root, docs, registry, parse).1) == |docs|
  {
    if docs != [] {
      ProcessAllCounts(db, root, docs[..|docs| - 1], registry, parse);
    }
  }

  ghost predicate OtherPath(a: Document, b: Document) {
    a.path != b.path
  }

  ghost predicate DistinctPaths(docs: seq<Document>) {
    forall i, j {:trigger OtherPath(docs[i], docs[j])} :: 0 <= i < j < |docs| ==> OtherPath(docs[i], docs[j])
  }

  lemma DistinctInit(docs: seq<Document>)
    requires DistinctPaths(docs) && docs != []
    ensures DistinctPaths(docs[..|docs| - 1])
  {
    var init := docs[..|docs| - 1];
    forall i, j | 0 <= i < j < |init| ensures OtherPath(init[i], init[j]) {
      assert OtherPath(docs[i], docs[j]);
    }
  }

  lemma {:induction false} ProcessAllKeepsOthers(db: Db, root: RootId, docs: seq<Document>, registry: Registry,
                                                 parse: Parsing, r: RootId, p: Path)
    requires Inv(db) && Faithful(db, parse)
    requires r != root || p !in Paths(docs)
    ensures ListingAt(ProcessAll(db, root, docs, registry, parse).0, r, p) == ListingAt(db, r, p)
  {
    if docs != [] {
      var init, last := docs[..|docs| - 1], docs[|docs| - 1];
      assert last.path in Paths(docs);
      assert forall i :: 0 <= i < |init| ==> init[i].path == docs[i].path && docs[i].path in Paths(docs);
      ProcessAllKeepsOthers(db, root, init, registry, parse, r, p);
      ProcessAllKeeps(db, root, init, registry, parse);
      ProcessKeepsOthers(ProcessAll(db, root, init, registry, parse).0, root, last, registry, parse);
    }
  }

  /** After a loop without failures every document shows its present content. */
  lemma {:induction false} ProcessAllShows(db: Db, root: RootId, docs: seq<Document>, registry: Registry,
                                           parse: Parsing, i: nat)
    requires Inv(db) && Faithful(db, parse) && DistinctPaths(docs) && i < |docs|
    requires ProcessAll(db, root, docs, registry, parse).1.failures == 0
    ensures parse(registry(docs[i].fileType), docs[i].bytes).Some?
    ensures ListingAt(ProcessAll(db, root, docs, registry, parse).0, root, docs[i].path)
            == ListingFor(docs[i].fileType, docs[i].bytes, registry, parse)
  {
    var init, last := docs[..|docs| - 1], docs[|docs| - 1];
    var (before, tally) := ProcessAll(db, root, init, registry, parse);
    ProcessAllKeeps(db, root, init, registry, parse);
    if i == |docs| - 1 {
      ProcessShows(before, root, last, registry, parse);
    } else {
      assert init[i] == docs[i] && OtherPath(docs[i], last);
      DistinctInit(docs);
      ProcessAllShows(db, root, init, registry, parse, i);
      ProcessKeepsOthers(before, root, last, registry, parse);
    }
  }

  // -------------------------------------------------------------- a full scan

  /** What a root should show for `path`, given the documents found under it. */
  ghost function Wanted(docs: seq<Document>, registry: Registry, parse: Parsing, path: Path): Listing {
    if path in Paths(docs) then
      var i :| 0 <= i < |docs| && docs[i].path == path;
      ListingFor(docs[i].fileType, docs[i].bytes, registry, parse)
    else Absent
  }

  lemma WantedAt(docs: seq<Document>, registry: Registry, parse: Parsing, i: nat)
    requires DistinctPaths(docs) && i < |docs|
    ensures Wanted(docs, registry, parse, docs[i].path) == ListingFor(docs[i].fileType, docs[i].bytes, registry, parse)
  {
    assert docs[i].path in Paths(docs);
    var j :| 0 <= j < |docs| && docs[j].path == docs[i].path
             && Wanted(docs, registry, parse, docs[i].path)
                == ListingFor(docs[j].fileType, docs[j].bytes, registry, parse);
    assert i == j || OtherPath(docs[i], docs[j]) || OtherPath(docs[j], docs[i]);
  }

  lemma FullScanKeeps(db: Db, root: RootId, discovery: Option<seq<Document>>, registry: Registry, parse: Parsing)
    requires Inv(db) && Faithful(db, parse)
    ensures var post := FullScan(db, root, discovery, registry, parse).0; Inv(post) && Faithful(post, parse)
  {
    var rooted := UpsertRoot(db, root);
    UpsertRootKeepsInv(db, root);
    KeepsFaithful(db, rooted, parse);
    if discovery.Some? {
      ProcessAllKeeps(rooted, root, discovery.value, registry, parse);
      var processed := ProcessAll(rooted, root, discovery.value, registry, parse).0;
      DeleteSourcesKeepsInv(processed, Unseen(processed, root, Paths(discovery.value)));
      DeleteSourcesKeepsFaithful(processed, Unseen(processed, root, Paths(discovery.value)), parse);
    }
  }

  /** additions + modifications + unchanged + failures is the number of documents, on every completed scan. */
  lemma FullScanCounts(db: Db, root: RootId, docs: seq<Document>, registry: Registry, parse: Parsing)
    ensures var report := FullScan(db, root, Some(docs), registry, parse).1;
            report.Completed? && report.discovered == |docs| && Total(report.tally) == |docs|
  {
    ProcessAllCounts(UpsertRoot(db, root), root, docs, registry, parse);
  }

  lemma RootedShowsSame(db: Db, root: RootId, r: RootId, p: Path)
    requires Inv(db)
    ensures ListingAt(UpsertRoot(db, root), r, p) == ListingAt(db, r, p)
  {
    var post := UpsertRoot(db, root);
    FindSame(db, post, r, p);
    FindGives(db, r, p);
    if FindSource(db, r, p).Some? {
      var s := FindSource(db, r, p).value;
      if db.sources[s].current.Some? {
        ContentSame(db, post, db.sources[s].current.value);
      }
      SameListing(db, post, s);
    }
  }

  /**
   From any state, a full scan without failures makes the root show exactly the
   discovered documents, whatever was there before.
   */
  lemma FullScanConverges(db: Db, root: RootId, docs: seq<Document>, registry: Registry, parse: Parsing, p: Path)
    requires Inv(db) && Faithful(db, parse) && DistinctPaths(docs)
    requires FullScan(db, root, Some(docs), registry, parse).1.tally.failures == 0
    ensures ListingAt(FullScan(db, root, Some(docs), registry, parse).0, root, p) == Wanted(docs, registry, parse, p)
  {
    var rooted := UpsertRoot(db, root);
    UpsertRootKeepsInv(db, root);
    KeepsFaithful(db, rooted, parse);
    ProcessAllKeeps(rooted, root, docs, registry, parse);
    var processed := ProcessAll(rooted, root, docs, registry, parse).0;
    var gone := Unseen(processed, root, Paths(docs));
    DeleteSourcesShows(processed, gone, root, p);
    FindGives(processed, root, p);
    if p in Paths(docs) {
      var i :| 0 <= i < |docs| && docs[i].path == p;
      ProcessAllShows(rooted, root, docs, registry, parse, i);
      WantedAt(docs, registry, parse, i);
    }
  }

  /** A scan of one root leaves what every other root shows alone. */
  lemma FullScanKeepsOtherRoots(db: Db, root: RootId, discovery: Option<seq<Document>>, registry: Registry,
                                parse: Parsing, r: RootId, p: Path)
    requires Inv(db) && Faithful(db, parse) && r != root
    ensures ListingAt(FullScan(db, root, discovery, registry, parse).0, r, p) == ListingAt(db, r, p)
  {
    var rooted := UpsertRoot(db, root);
    UpsertRootKeepsInv(db, root);
    KeepsFaithful(db, rooted, parse);
    RootedShowsSame(db, root, r, p);
    if discovery.Some? {
      var docs := discovery.value;
      ProcessAllKeeps(rooted, root, docs, registry, parse);
      ProcessAllKeepsOthers(rooted, root, docs, registry, parse, r, p);
      var processed := ProcessAll(rooted, root, docs, registry, parse).0;
      DeleteSourcesShows(processed, Unseen(processed, root, Paths(docs)), r, p);
      FindGives(processed, r, p);
    }
  }
}
