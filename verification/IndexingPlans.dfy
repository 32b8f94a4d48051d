/** Scans of all the roots of an index, one after the other, and the fingerprint they end in. */
module IndexingPlans {
  import opened Prelude
  import opened Catalog
  import opened CatalogInvariant
  import opened Indexing
  import opened IndexingSteps
  import opened IndexingTheorems
  import opened IndexingProgress
  import opened IndexingFingerprint

  /** The documents discovered under one root. */
  datatype Scan = Scan(root: RootId, docs: seq<Document>)

  /** Full scans in order; the number counts their failures. */
  ghost function ScanAll(db: Db, plan: seq<Scan>, registry: Registry, parse: Parsing): (Db, nat) {
    if plan == [] then (db, 0)
    else
      var (before, failures) := ScanAll(db, plan[..|plan| - 1], registry, parse);
      var last := plan[|plan| - 1];
      var (after, report) := FullScan(before, last.root, Some(last.docs), registry, parse);
      (after, failures + report.tally.failures)
  }

  ghost predicate OtherRoot(a: Scan, b: Scan) {
    a.root != b.root
  }

  /** Each root once, each of its paths once. */
  ghost predicate PlanOk(plan: seq<Scan>) {
    && (forall i, j {:trigger OtherRoot(plan[i], plan[j])} :: 0 <= i < j < |plan| ==> OtherRoot(plan[i], plan[j]))
    && (forall i :: 0 <= i < |plan| ==> DistinctPaths(plan[i].docs))
  }

  ghost predicate Plans(plan: seq<Scan>, root: RootId) {
    exists i :: 0 <= i < |plan| && plan[i].root == root
  }

  /** Every root with an active file is scanned. */
  ghost predicate Covers(plan: seq<Scan>, db: Db) {
    forall s :: s in db.sources && db.sources[s].state == Active ==> Plans(plan, db.sources[s].root)
  }

  function FaultlessPlan(plan: seq<Scan>): (out: seq<Scan>)
    ensures |out| == |plan|
    ensures forall i :: 0 <= i < |plan| ==> out[i] == Scan(plan[i].root, Faultless(plan[i].docs))
  {
    if plan == [] then []
    else FaultlessPlan(plan[..|plan| - 1]) + [Scan(plan[|plan| - 1].root, Faultless(plan[|plan| - 1].docs))]
  }

  lemma PlanInit(plan: seq<Scan>)
    requires PlanOk(plan) && plan != []
    ensures PlanOk(plan[..|plan| - 1]) && !Plans(plan[..|plan| - 1], plan[|plan| - 1].root)
  {
    var init, last := plan[..|plan| - 1], plan[|plan| - 1];
    forall i, j | 0 <= i < j < |init| ensures OtherRoot(init[i], init[j]) {
      assert OtherRoot(plan[i], plan[j]);
    }
    forall i | 0 <= i < |init| ensures init[i].root != last.root {
      assert OtherRoot(plan[i], last);
    }
  }

  lemma PlansInit(plan: seq<Scan>, root: RootId)
    requires plan != []
    ensures Plans(plan, root) <==> Plans(plan[..|plan| - 1], root) || plan[|plan| - 1].root == root
  {
    var init := plan[..|plan| - 1];
    if Plans(init, root) {
      var i :| 0 <= i < |init| && init[i].root == root;
      assert plan[i].root == root;
    }
    if Plans(plan, root) {
      var i :| 0 <= i < |plan| && plan[i].root == root;
      assert i < |init| ==> init[i].root == root;
    }
  }

  lemma {:induction false} ScanAllKeeps(db: Db, plan: seq<Scan>, registry: Registry, parse: Parsing)
    requires Inv(db) && Faithful(db, parse)
    ensures var post := ScanAll(db, plan, registry, parse).0; Inv(post) && Faithful(post, parse)
  {
    if plan != [] {
      var init, last := plan[..|plan| - 1], plan[|plan| - 1];
      ScanAllKeeps(db, init, registry, parse);
      FullScanKeeps(ScanAll(db, init, registry, parse).0, last.root, Some(last.docs), registry, parse);
    }
  }

  /** What a path shows after the scans: the documents of its root, or what it showed. */
  ghost function Planned(db: Db, plan: seq<Scan>, registry: Registry, parse: Parsing, root: RootId,
                         path: Path): Listing {
    if plan == [] then ListingAt(db, root, path)
    else if plan[|plan| - 1].root == root then Wanted(plan[|plan| - 1].docs, registry, parse, path)
    else Planned(db, plan[..|plan| - 1], registry, parse, root, path)
  }

  lemma {:induction false} ScanAllShows(db: Db, plan: seq<Scan>, registry: Registry, parse: Parsing, root: RootId,
                                        path: Path)
    requires Inv(db) && Faithful(db, parse) && PlanOk(plan) && ScanAll(db, plan, registry, parse).1 == 0
    ensures ListingAt(ScanAll(db, plan, registry, parse).0, root, path)
            == Planned(db, plan, registry, parse, root, path)
  {
    if plan != [] {
      var init, last := plan[..|plan| - 1], plan[|plan| - 1];
      PlanInit(plan);
      ScanAllShows(db, init, registry, parse, root, path);
      ScanAllKeeps(db, init, registry, parse);
      var before := ScanAll(db, init, registry, parse).0;
      if last.root == root {
        FullScanConverges(before, root, last.docs, registry, parse, path);
      } else {
        FullScanKeepsOtherRoots(before, last.root, Some(last.docs), registry, parse, root, path);
      }
    }
  }

  // ------------------------------------------------- scanning an empty index

  ghost predicate SomewhereBefore(db: Db, root: RootId) {
    exists s :: s in db.sources && db.sources[s].root == root
  }

  lemma {:induction false} LoopStaysInRoot(db: Db, root: RootId, docs: seq<Document>, registry: Registry,
                                           parse: Parsing, r: RootId)
    requires Inv(db) && Faithful(db, parse) && r != root
    ensures SomewhereBefore(ProcessAll(db, root, docs, registry, parse).0, r) ==> SomewhereBefore(db, r)
  {
    if docs != [] {
      var init := docs[..|docs| - 1];
      LoopStaysInRoot(db, root, init, registry, parse, r);
      ProcessAllKeeps(db, root, init, registry, parse);
      var before := ProcessAll(db, root, init, registry, parse).0;
      ProcessKeepsRootsAndPaths(before, root, docs[|docs| - 1], registry, parse);
      var post := ProcessAll(db, root, docs, registry, parse).0;
      if s :| s in post.sources && post.sources[s].root == r {
        var t :| t in before.sources && before.sources[t].root == r && before.sources[t].path == post.sources[s].path;
        assert SomewhereBefore(before, r);
      }
    }
  }

  lemma ScanStaysInRoot(db: Db, root: RootId, docs: seq<Document>, registry: Registry, parse: Parsing, r: RootId)
    requires Inv(db) && Faithful(db, parse) && r != root
    ensures SomewhereBefore(FullScan(db, root, Some(docs), registry, parse).0, r) ==> SomewhereBefore(db, r)
  {
    var rooted := UpsertRoot(db, root);
    UpsertRootKeepsInv(db, root);
    KeepsFaithful(db, rooted, parse);
    LoopStaysInRoot(rooted, root, docs, registry, parse, r);
    var processed := ProcessAll(rooted, root, docs, registry, parse).0;
    var post := FullScan(db, root, Some(docs), registry, parse).0;
    if s :| s in post.sources && post.sources[s].root == r {
      assert s in processed.sources && processed.sources[s].root == r;
      assert SomewhereBefore(rooted, r);
      var t :| t in rooted.sources && rooted.sources[t].root == r;
      assert t in db.sources;
    }
  }

  ghost predicate AllParsable(docs: seq<Document>, registry: Registry, parse: Parsing) {
    forall i :: 0 <= i < |docs| ==> Parsable(docs[i], registry, parse)
  }

  lemma SucceededIsParsable(db: Db, root: RootId, docs: seq<Document>, registry: Registry, parse: Parsing)
    requires Inv(db) && Faithful(db, parse)
    requires FullScan(db, root, Some(docs), registry, parse).1.tally.failures == 0
    ensures AllParsable(docs, registry, parse)
  {
    var rooted := UpsertRoot(db, root);
    UpsertRootKeepsInv(db, root);
    KeepsFaithful(db, rooted, parse);
    forall i | 0 <= i < |docs| ensures Parsable(docs[i], registry, parse) {
      ShownIsParsable(rooted, root, docs, registry, parse, i);
    }
  }

  lemma FreshScanSucceeds(db: Db, root: RootId, docs: seq<Document>, registry: Registry, parse: Parsing)
    requires Inv(db) && Faithful(db, parse) && DistinctPaths(docs) && AllParsable(docs, registry, parse)
    requires !SomewhereBefore(db, root)
    ensures FullScan(db, root, Some(Faultless(docs)), registry, parse).1.tally.failures == 0
  {
    var rooted, out := UpsertRoot(db, root), Faultless(docs);
    UpsertRootKeepsInv(db, root);
    KeepsFaithful(db, rooted, parse);
    FaultlessPaths(docs);
    forall i | 0 <= i < |out| ensures Parsable(out[i], registry, parse) && out[i].fault == NoFault {
      assert Parsable(docs[i], registry, parse);
    }
    FreshRootSucceeds(rooted, root, out, registry, parse);
  }

  ghost predicate PlanParsable(plan: seq<Scan>, registry: Registry, parse: Parsing) {
    forall i :: 0 <= i < |plan| ==> AllParsable(plan[i].docs, registry, parse)
  }

  lemma LastIsParsable(db: Db, plan: seq<Scan>, registry: Registry, parse: Parsing)
    requires Inv(db) && Faithful(db, parse) && plan != [] && ScanAll(db, plan, registry, parse).1 == 0
    ensures AllParsable(plan[|plan| - 1].docs, registry, parse)
  {
    var init, last := plan[..|plan| - 1], plan[|plan| - 1];
    ScanAllKeeps(db, init, registry, parse);
    SucceededIsParsable(ScanAll(db, init, registry, parse).0, last.root, last.docs, registry, parse);
  }

  lemma ParsableGrows(plan: seq<Scan>, registry: Registry, parse: Parsing)
    requires plan != [] && PlanParsable(plan[..|plan| - 1], registry, parse)
    requires AllParsable(plan[|plan| - 1].docs, registry, parse)
    ensures PlanParsable(plan, registry, parse)
  {
    var init := plan[..|plan| - 1];
    forall i | 0 <= i < |plan| ensures AllParsable(plan[i].docs, registry, parse) {
      assert i < |init| ==> init[i] == plan[i];
    }
  }

  /** What some index took without a failure an empty index takes as well. */
  lemma {:induction false} PlanIsParsable(db: Db, plan: seq<Scan>, registry: Registry, parse: Parsing)
    requires Inv(db) && Faithful(db, parse) && ScanAll(db, plan, registry, parse).1 == 0
    ensures PlanParsable(plan, registry, parse)
  {
    if plan != [] {
      PlanIsParsable(db, plan[..|plan| - 1], registry, parse);
      LastIsParsable(db, plan, registry, parse);
      ParsableGrows(plan, registry, parse);
    }
  }

  lemma {:induction false} FreshPlanSucceeds(plan: seq<Scan>, registry: Registry, parse: Parsing)
    requires PlanOk(plan) && PlanParsable(plan, registry, parse)
    ensures ScanAll(EMPTY, FaultlessPlan(plan), registry, parse).1 == 0
    ensures forall r :: SomewhereBefore(ScanAll(EMPTY, FaultlessPlan(plan), registry, parse).0, r) ==> Plans(plan, r)
  {
    if plan != [] {
      var init, last := plan[..|plan| - 1], plan[|plan| - 1];
      var out := FaultlessPlan(plan);
      assert out[..|out| - 1] == FaultlessPlan(init);
      PlanInit(plan);
      assert PlanParsable(init, registry, parse);
      FreshPlanSucceeds(init, registry, parse);
      EmptyInv();
      ScanAllKeeps(EMPTY, FaultlessPlan(init), registry, parse);
      var before := ScanAll(EMPTY, FaultlessPlan(init), registry, parse).0;
      FreshScanSucceeds(before, last.root, last.docs, registry, parse);
      forall r | SomewhereBefore(ScanAll(EMPTY, out, registry, parse).0, r) ensures Plans(plan, r) {
        PlansInit(plan, r);
        if r != last.root {
          ScanStaysInRoot(before, last.root, Faultless(last.docs), registry, parse, r);
        }
      }
    }
  }

  lemma FaultlessPlanOk(plan: seq<Scan>)
    requires PlanOk(plan)
    ensures PlanOk(FaultlessPlan(plan))
  {
    var out := FaultlessPlan(plan);
    forall i, j | 0 <= i < j < |out| ensures OtherRoot(out[i], out[j]) {
      assert OtherRoot(plan[i], plan[j]);
    }
    forall i | 0 <= i < |out| ensures DistinctPaths(out[i].docs) {
      FaultlessPaths(plan[i].docs);
    }
  }

  lemma {:induction false} PlannedForgets(db: Db, plan: seq<Scan>, registry: Registry, parse: Parsing, root: RootId,
                                          path: Path)
    requires PlanOk(plan)
    ensures Planned(EMPTY, FaultlessPlan(plan), registry, parse, root, path)
            == if Plans(plan, root) then Planned(db, plan, registry, parse, root, path) else Absent
  {
    var out := FaultlessPlan(plan);
    if plan == [] {
      FindGives(EMPTY, root, path);
    } else {
      var init, last := plan[..|plan| - 1], plan[|plan| - 1];
      PlanInit(plan);
      PlansInit(plan, root);
      assert out[..|out| - 1] == FaultlessPlan(init);
      FaultlessWanted(last.docs, registry, parse, path);
      PlannedForgets(db, init, registry, parse, root, path);
    }
  }

  lemma {:induction false} UnplannedIsKept(db: Db, plan: seq<Scan>, registry: Registry, parse: Parsing, root: RootId,
                                           path: Path)
    requires !Plans(plan, root)
    ensures Planned(db, plan, registry, parse, root, path) == ListingAt(db, root, path)
  {
    if plan != [] {
      PlansInit(plan, root);
      UnplannedIsKept(db, plan[..|plan| - 1], registry, parse, root, path);
    }
  }

  lemma UncoveredIsAbsent(db: Db, plan: seq<Scan>, root: RootId, path: Path)
    requires Covers(plan, db) && !Plans(plan, root)
    ensures ListingAt(db, root, path) == Absent
  {
    FindGives(db, root, path);
  }

  lemma {:induction false} PlannedIsWanted(db: Db, plan: seq<Scan>, registry: Registry, parse: Parsing, i: nat,
                                           path: Path)
    requires PlanOk(plan) && i < |plan|
    ensures Planned(db, plan, registry, parse, plan[i].root, path) == Wanted(plan[i].docs, registry, parse, path)
  {
    if i < |plan| - 1 {
      PlanInit(plan);
      assert OtherRoot(plan[i], plan[|plan| - 1]);
      PlannedIsWanted(db, plan[..|plan| - 1], registry, parse, i, path);
    }
  }

  /** Each scanned document is what its path shows. */
  lemma PlannedDocument(db: Db, plan: seq<Scan>, registry: Registry, parse: Parsing, i: nat, j: nat)
    requires Inv(db) && Faithful(db, parse) && PlanOk(plan) && ScanAll(db, plan, registry, parse).1 == 0
    requires i < |plan| && j < |plan[i].docs|
    ensures var doc := plan[i].docs[j];
            ListingAt(ScanAll(db, plan, registry, parse).0, plan[i].root, doc.path)
            == ListingFor(doc.fileType, doc.bytes, registry, parse)
  {
    var doc := plan[i].docs[j];
    ScanAllShows(db, plan, registry, parse, plan[i].root, doc.path);
    PlannedIsWanted(db, plan, registry, parse, i, doc.path);
    WantedAt(plan[i].docs, registry, parse, j);
  }

  // ---------------------------------------------------------------- theorems

  /**
   Failure-free scans of every root end in the surface an empty index would be
   scanned into, which takes the same scans.
   */
  lemma ScansForgetHistory(db: Db, plan: seq<Scan>, registry: Registry, parse: Parsing)
    requires Inv(db) && Faithful(db, parse) && PlanOk(plan) && Covers(plan, db)
    requires ScanAll(db, plan, registry, parse).1 == 0
    ensures ScanAll(EMPTY, FaultlessPlan(plan), registry, parse).1 == 0
    ensures SameSurface(ScanAll(db, plan, registry, parse).0, ScanAll(EMPTY, FaultlessPlan(plan), registry, parse).0)
  {
    var post, clean := ScanAll(db, plan, registry, parse).0, ScanAll(EMPTY, FaultlessPlan(plan), registry, parse).0;
    PlanIsParsable(db, plan, registry, parse);
    FreshPlanSucceeds(plan, registry, parse);
    FaultlessPlanOk(plan);
    EmptyInv();
    forall r, p ensures ListingAt(post, r, p) == ListingAt(clean, r, p) {
      ScanAllShows(db, plan, registry, parse, r, p);
      ScanAllShows(EMPTY, FaultlessPlan(plan), registry, parse, r, p);
      PlannedForgets(db, plan, registry, parse, r, p);
      if !Plans(plan, r) {
        UnplannedIsKept(db, plan, registry, parse, r, p);
        UncoveredIsAbsent(db, plan, r, p);
      }
    }
  }

  /**
   What is hashed does not depend on history: after failure-free scans of all
   roots an index hashes the lines an empty index scanned the same way hashes, as
   many times each, and, unless two roots are tied, in the same order.
   */
  lemma FingerprintForgetsHistory(db: Db, plan: seq<Scan>, registry: Registry, parse: Parsing, c: Collation,
                                  rows: seq<RowId>, clean: seq<RowId>)
    requires Inv(db) && Faithful(db, parse) && PlanOk(plan) && Covers(plan, db)
    requires ScanAll(db, plan, registry, parse).1 == 0
    requires Lawful(c) && Delivered(ScanAll(db, plan, registry, parse).0, c, rows)
    requires Delivered(ScanAll(EMPTY, FaultlessPlan(plan), registry, parse).0, c, clean)
    ensures var a, b := ScanAll(db, plan, registry, parse).0, ScanAll(EMPTY, FaultlessPlan(plan), registry, parse).0;
            && multiset(Hashed(a, rows)) == multiset(Hashed(b, clean)) && |rows| == |clean|
            && (!Tied(a) ==> Hashed(a, rows) == Hashed(b, clean))
  {
    var a, b := ScanAll(db, plan, registry, parse).0, ScanAll(EMPTY, FaultlessPlan(plan), registry, parse).0;
    ScansForgetHistory(db, plan, registry, parse);
    ScanAllKeeps(db, plan, registry, parse);
    EmptyInv();
    ScanAllKeeps(EMPTY, FaultlessPlan(plan), registry, parse);
    SameSurfaceSameHash(a, b, c, rows, clean);
  }

  /** With one root scanned there are no ties, and the fingerprint is a function of the documents. */
  lemma OneRootIsUntied(db: Db, root: RootId)
    requires Inv(db) && forall s :: s in db.sources && db.sources[s].state == Active ==> db.sources[s].root == root
    ensures !Tied(db)
  {
    if k, l :| TiedRows(db, k, l) {
      TieNeedsTwoRoots(db, k, l);
    }
  }

  // ------------------------------------------------------------- a tied index

  /** Documents at one relative path of two roots that share a segment, but not bytes and parser, tie the index. */
  lemma SamePathTies(db: Db, plan: seq<Scan>, registry: Registry, parse: Parsing, i: nat, j: nat, m: nat, n: nat,
                     shared: ParsedSegment)
    requires Inv(db) && Faithful(db, parse) && PlanOk(plan) && ScanAll(db, plan, registry, parse).1 == 0
    requires i < |plan| && j < |plan[i].docs| && m < |plan| && n < |plan[m].docs|
    requires var a, b := plan[i].docs[j], plan[m].docs[n];
             && a.path == b.path && (a.bytes != b.bytes || registry(a.fileType) != registry(b.fileType))
             && Parsed(a, registry, parse, shared) && Parsed(b, registry, parse, shared)
    ensures Tied(ScanAll(db, plan, registry, parse).0)
  {
    var a, b, post := plan[i].docs[j], plan[m].docs[n], ScanAll(db, plan, registry, parse).0;
    PlannedDocument(db, plan, registry, parse, i, j);
    PlannedDocument(db, plan, registry, parse, m, n);
    ScanAllKeeps(db, plan, registry, parse);
    var k := ShownLineIsJoined(post, plan[i].root, Line(a.path, shared, Blake3(a.bytes), registry(a.fileType)));
    var l := ShownLineIsJoined(post, plan[m].root, Line(b.path, shared, Blake3(b.bytes), registry(b.fileType)));
    assert TiedRows(post, k, l);
  }

  ghost predicate InPlan(plan: seq<Scan>, doc: Document) {
    exists i :: 0 <= i < |plan| && doc in plan[i].docs
  }

  /** One path and a common segment, but other bytes or another parser. */
  ghost predicate Clashing(a: Document, b: Document, registry: Registry, parse: Parsing) {
    && a.path == b.path && (a.bytes != b.bytes || registry(a.fileType) != registry(b.fileType))
    && exists shared :: Parsed(a, registry, parse, shared) && Parsed(b, registry, parse, shared)
  }

  ghost predicate PlanClashes(plan: seq<Scan>, registry: Registry, parse: Parsing) {
    exists a, b :: InPlan(plan, a) && InPlan(plan, b) && Clashing(a, b, registry, parse)
  }

  /** Every line that a root shows after the scans comes from a planned document. */
  lemma ShownIsPlanned(db: Db, plan: seq<Scan>, registry: Registry, parse: Parsing, root: RootId, line: Line)
    returns (doc: Document)
    requires Inv(db) && Faithful(db, parse) && PlanOk(plan) && Covers(plan, db)
    requires ScanAll(db, plan, registry, parse).1 == 0
    requires ShowsLine(ListingAt(ScanAll(db, plan, registry, parse).0, root, line.path), line)
    ensures InPlan(plan, doc) && doc.path == line.path && Parsed(doc, registry, parse, line.segment)
    ensures line.hash == Blake3(doc.bytes) && line.parser == registry(doc.fileType)
  {
    ScanAllShows(db, plan, registry, parse, root, line.path);
    if !Plans(plan, root) {
      UnplannedIsKept(db, plan, registry, parse, root, line.path);
      UncoveredIsAbsent(db, plan, root, line.path);
    }
    var i :| 0 <= i < |plan| && plan[i].root == root;
    PlannedIsWanted(db, plan, registry, parse, i, line.path);
    var docs := plan[i].docs;
    var j :| 0 <= j < |docs| && docs[j].path == line.path;
    WantedAt(docs, registry, parse, j);
    doc := docs[j];
  }

  lemma TiedRowsClash(db: Db, plan: seq<Scan>, registry: Registry, parse: Parsing, k: RowId, l: RowId)
    requires Inv(db) && Faithful(db, parse) && PlanOk(plan) && Covers(plan, db)
    requires ScanAll(db, plan, registry, parse).1 == 0
    requires TiedRows(ScanAll(db, plan, registry, parse).0, k, l)
    ensures PlanClashes(plan, registry, parse)
  {
    var post := ScanAll(db, plan, registry, parse).0;
    ScanAllKeeps(db, plan, registry, parse);
    JoinedRowShows(post, k);
    JoinedRowShows(post, l);
    var a := ShownIsPlanned(db, plan, registry, parse, RootAt(post, k), LineAt(post, k));
    var b := ShownIsPlanned(db, plan, registry, parse, RootAt(post, l), LineAt(post, l));
    assert Clashing(a, b, registry, parse);
  }

  /** Failure-free scans of all roots leave a tie if and only if two of their documents clash. */
  lemma PlanTiesExactly(db: Db, plan: seq<Scan>, registry: Registry, parse: Parsing)
    requires Inv(db) && Faithful(db, parse) && PlanOk(plan) && Covers(plan, db)
    requires ScanAll(db, plan, registry, parse).1 == 0
    ensures Tied(ScanAll(db, plan, registry, parse).0) <==> PlanClashes(plan, registry, parse)
  {
    var post := ScanAll(db, plan, registry, parse).0;
    if k, l :| TiedRows(post, k, l) {
      TiedRowsClash(db, plan, registry, parse, k, l);
    }
    if PlanClashes(plan, registry, parse) {
      var a, b :| InPlan(plan, a) && InPlan(plan, b) && Clashing(a, b, registry, parse);
      var i :| 0 <= i < |plan| && a in plan[i].docs;
      var j :| 0 <= j < |plan[i].docs| && plan[i].docs[j] == a;
      var m :| 0 <= m < |plan| && b in plan[m].docs;
      var n :| 0 <= n < |plan[m].docs| && plan[m].docs[n] == b;
      var shared :| Parsed(a, registry, parse, shared) && Parsed(b, registry, parse, shared);
      SamePathTies(db, plan, registry, parse, i, j, m, n, shared);
    }
  }

  /** So the fingerprint of such an index is determined if and only if no two planned documents clash. */
  lemma PlanDeterminedExactly(db: Db, plan: seq<Scan>, registry: Registry, parse: Parsing, c: Collation)
    requires Inv(db) && Faithful(db, parse) && PlanOk(plan) && Covers(plan, db)
    requires ScanAll(db, plan, registry, parse).1 == 0
    requires Lawful(c)
    ensures Determined(ScanAll(db, plan, registry, parse).0, c) <==> !PlanClashes(plan, registry, parse)
  {
    ScanAllKeeps(db, plan, registry, parse);
    FingerprintDeterminedExactly(ScanAll(db, plan, registry, parse).0, c);
    PlanTiesExactly(db, plan, registry, parse);
  }

  ghost predicate Parsed(doc: Document, registry: Registry, parse: Parsing, segment: ParsedSegment) {
    parse(registry(doc.fileType), doc.bytes).Some? && segment in parse(registry(doc.fileType), doc.bytes).value
  }

  const PLAIN_PARSER := ParserKey("plain", "1")
  const SAME_SEGMENT := ParsedSegment("a", 0, "t")
  const ONE_NOTE := Document("n", PlainText, [0], NoFault)
  const OTHER_NOTE := Document("n", PlainText, [1], NoFault)

  /** Two roots, one relative path, one text; the bytes differ. */
  const TIED_PLAN: seq<Scan> := [Scan(0, [ONE_NOTE]), Scan(1, [OTHER_NOTE])]

  function OneParser(): Registry {
    _ => PLAIN_PARSER
  }

  function OneSegment(): Parsing {
    (_, _) => Some([SAME_SEGMENT])
  }

  lemma TiedPlanOk()
    ensures PlanOk(TIED_PLAN) && PlanParsable(TIED_PLAN, OneParser(), OneSegment())
  {
  }

  lemma TiedPlanIsFaultless()
    ensures FaultlessPlan(TIED_PLAN) == TIED_PLAN
  {
    var out := FaultlessPlan(TIED_PLAN);
    forall i | 0 <= i < 2 ensures out[i] == TIED_PLAN[i] {
      assert Faultless(TIED_PLAN[i].docs) == TIED_PLAN[i].docs;
    }
  }

  lemma TiedPlanSucceeds()
    ensures PlanOk(TIED_PLAN) && ScanAll(EMPTY, TIED_PLAN, OneParser(), OneSegment()).1 == 0
  {
    var plan := TIED_PLAN;
    TiedPlanOk();
    TiedPlanIsFaultless();
    FreshPlanSucceeds(plan, OneParser(), OneSegment());
  }

  /** The index of those two roots hashes its lines in either order: its fingerprint is not determined. */
  lemma TiedPlanIsUndetermined(c: Collation)
    requires Lawful(c)
    ensures var (db, failures) := ScanAll(EMPTY, TIED_PLAN, OneParser(), OneSegment());
            failures == 0 && Tied(db) && !Determined(db, c)
  {
    var plan, registry, parse := TIED_PLAN, OneParser(), OneSegment();
    TiedPlanSucceeds();
    EmptyInv();
    assert [SAME_SEGMENT][0] == SAME_SEGMENT;
    SamePathTies(EMPTY, plan, registry, parse, 0, 0, 1, 0, SAME_SEGMENT);
    ScanAllKeeps(EMPTY, plan, registry, parse);
    FingerprintDeterminedExactly(ScanAll(EMPTY, plan, registry, parse).0, c);
  }
}
