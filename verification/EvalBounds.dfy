/** Exactly when the metrics of an evaluation run stay within 1: a test on the corpus and the indexed paths. */
module EvalBounds {
  import opened Prelude
  import opened Metrics
  import opened MetricsTheorems
  import opened EvalReferences
  import C = Catalog
  import F = IndexingFingerprint

  /** nDCG is at most 1 for every grading, and no set of required labels is found more often than it has members. */
  ghost predicate ScoresBounded(s: Scale, refs: seq<Ref>, k: nat) {
    && (forall grades :: BoundedFor(Discounted(s), refs, k, grades))
    && (forall required :: Found(refs, required, Cut(k, |refs|)) <= |required|)
  }

  lemma DistinctIsBounded(s: Scale, refs: seq<Ref>, k: nat)
    requires Proper(s)
    ensures ScoresBounded(s, refs, k) <==> Distinct(refs[..Cut(k, |refs|)])
  {
    NdcgBoundIsDistinctness(s, refs, k);
    RecallBoundIsDistinctness(refs, k);
  }

  /** Every list of distinct hits that a query may return scores within the bounds. */
  ghost predicate RunsBounded(s: Scale, docs: map<string, string>, allowed: iset<Hit>, k: nat) {
    forall hits :: From(hits, allowed) && Distinct(hits) ==> ScoresBounded(s, RefsOf(docs, hits), k)
  }

  lemma BoundedIsKept(s: Scale, docs: map<string, string>, allowed: iset<Hit>, k: nat)
    requires Proper(s) && k >= 2
    ensures RunsBounded(s, docs, allowed, k) <==> KeepsDistinct(docs, allowed)
  {
    if KeepsDistinct(docs, allowed) {
      forall hits | From(hits, allowed) && Distinct(hits) ensures ScoresBounded(s, RefsOf(docs, hits), k) {
        DistinctIsBounded(s, RefsOf(docs, hits), k);
      }
    }
    if RunsBounded(s, docs, allowed, k) {
      forall a, b {:trigger SameRef(docs, a, b)} | a in allowed && b in allowed && a != b
        ensures !SameRef(docs, a, b)
      {
        PairBounded(s, docs, allowed, k, a, b);
      }
      PairsDecide(docs, allowed);
    }
  }

  lemma PairBounded(s: Scale, docs: map<string, string>, allowed: iset<Hit>, k: nat, a: Hit, b: Hit)
    requires Proper(s) && k >= 2 && RunsBounded(s, docs, allowed, k) && a in allowed && b in allowed && a != b
    ensures !SameRef(docs, a, b)
  {
    var refs := RefsOf(docs, [a, b]);
    assert From([a, b], allowed) && Distinct([a, b]);
    DistinctIsBounded(s, refs, k);
    assert refs[..Cut(k, 2)] == refs;
    assert refs[0] != refs[1];
  }

  /**
   Recall and nDCG at two or more stay within 1, for all answers over these
   files and all labels, if and only if different files have different names;
   were any anchor possible, if and only if no name clashes with another.
   */
  lemma RunsBoundedExactly(s: Scale, docs: map<string, string>, paths: set<string>, k: nat)
    requires Proper(s) && k >= 2
    ensures RunsBounded(s, docs, ParsedAt(paths), k) <==> NamesDiffer(docs, paths)
    ensures RunsBounded(s, docs, At(paths), k) <==> NamedApart(docs, paths)
  {
    BoundedIsKept(s, docs, ParsedAt(paths), k);
    ParsedHitsDistinctRefs(docs, paths);
    BoundedIsKept(s, docs, At(paths), k);
    DistinctHitsDistinctRefs(docs, paths);
  }

  // ------------------------------------------------------- a test on the bundle

  predicate OtherFile(a: CorpusRecord, b: CorpusRecord) {
    a.path != b.path
  }

  predicate OtherId(a: CorpusRecord, b: CorpusRecord) {
    a.documentId != b.documentId
  }

  /** One record for each file, its path written with slashes. */
  ghost predicate OneRecordEach(corpus: seq<CorpusRecord>) {
    && (forall i, j {:trigger OtherFile(corpus[i], corpus[j])} :: 0 <= i < j < |corpus| ==>
          OtherFile(corpus[i], corpus[j]))
    && (forall i :: 0 <= i < |corpus| ==> '\\' !in corpus[i].path)
  }

  ghost predicate UniqueIds(corpus: seq<CorpusRecord>) {
    forall i, j {:trigger OtherId(corpus[i], corpus[j])} :: 0 <= i < j < |corpus| ==> OtherId(corpus[i], corpus[j])
  }

  function PathsOf(corpus: seq<CorpusRecord>): set<string> {
    set i | 0 <= i < |corpus| :: corpus[i].path
  }

  lemma {:induction false} RecordNames(corpus: seq<CorpusRecord>, i: nat)
    requires OneRecordEach(corpus) && i < |corpus|
    ensures Name(PathToDoc(corpus), corpus[i].path) == corpus[i].documentId
  {
    var init, last := corpus[..|corpus| - 1], corpus[|corpus| - 1];
    SlashesOnly(corpus[i].path);
    if i < |init| {
      assert OtherFile(corpus[i], last);
      forall j, k | 0 <= j < k < |init| ensures OtherFile(init[j], init[k]) {
        assert OtherFile(corpus[j], corpus[k]);
      }
      RecordNames(init, i);
      NameIsFound(init, i);
    }
  }

  lemma {:induction false} NameIsFound(corpus: seq<CorpusRecord>, i: nat)
    requires i < |corpus|
    ensures corpus[i].path in PathToDoc(corpus)
  {
    if i < |corpus| - 1 {
      NameIsFound(corpus[..|corpus| - 1], i);
    }
  }

  /** Of a corpus with one record for each file: its files have different names if and only if ids are not repeated. */
  lemma UniqueIdsDecide(corpus: seq<CorpusRecord>)
    requires OneRecordEach(corpus)
    ensures NamesDiffer(PathToDoc(corpus), PathsOf(corpus)) <==> UniqueIds(corpus)
  {
    var docs, paths := PathToDoc(corpus), PathsOf(corpus);
    forall i | 0 <= i < |corpus| ensures Name(docs, corpus[i].path) == corpus[i].documentId && corpus[i].path in paths {
      RecordNames(corpus, i);
    }
    if UniqueIds(corpus) {
      forall p, q {:trigger SameName(docs, p, q)} | p in paths && q in paths && p != q ensures !SameName(docs, p, q) {
        var i :| 0 <= i < |corpus| && corpus[i].path == p;
        var j :| 0 <= j < |corpus| && corpus[j].path == q;
        assert i < j ==> OtherId(corpus[i], corpus[j]);
        assert j < i ==> OtherId(corpus[j], corpus[i]);
      }
    }
    if NamesDiffer(docs, paths) {
      forall i, j | 0 <= i < j < |corpus| ensures OtherId(corpus[i], corpus[j]) {
        assert OtherFile(corpus[i], corpus[j]);
        assert !SameName(docs, corpus[i].path, corpus[j].path);
      }
    }
  }

  /** A bundle with one record for each file keeps all scores within the bounds if and only if ids are not repeated. */
  lemma RunsBoundedByUniqueIds(s: Scale, corpus: seq<CorpusRecord>, k: nat)
    requires Proper(s) && k >= 2 && OneRecordEach(corpus)
    ensures RunsBounded(s, PathToDoc(corpus), ParsedAt(PathsOf(corpus)), k) <==> UniqueIds(corpus)
  {
    RunsBoundedExactly(s, PathToDoc(corpus), PathsOf(corpus), k);
    UniqueIdsDecide(corpus);
  }

  // ---------------------------------------------------------- the run's index

  function HitOf(db: C.Db, k: C.RowId): Hit {
    Hit(F.LineAt(db, k).path, F.LineAt(db, k).segment.anchor)
  }

  function HitsOf(db: C.Db, rows: seq<C.RowId>): (hits: seq<Hit>)
    ensures |hits| == |rows| && forall i :: 0 <= i < |rows| ==> hits[i] == HitOf(db, rows[i])
  {
    if rows == [] then [] else HitsOf(db, rows[..|rows| - 1]) + [HitOf(db, rows[|rows| - 1])]
  }

  /** Rows of one root, found in an index whose anchors came from the parsers. */
  ghost predicate Answer(db: C.Db, root: C.RootId, rows: seq<C.RowId>) {
    && Distinct(rows)
    && forall i :: 0 <= i < |rows| ==>
         && rows[i] in F.Joined(db) && F.RootAt(db, rows[i]) == root
         && ParserAnchor(F.LineAt(db, rows[i]).segment.anchor)
  }

  /** Different rows of one root are different hits. */
  lemma AnswersAreDistinct(db: C.Db, root: C.RootId, rows: seq<C.RowId>)
    requires C.Inv(db) && Answer(db, root, rows)
    ensures Distinct(HitsOf(db, rows))
  {
    var hits := HitsOf(db, rows);
    forall i, j | 0 <= i < j < |hits| ensures hits[i] != hits[j] {
      if hits[i] == hits[j] {
        F.RowsOfRootAreNamed(db, rows[i], rows[j]);
      }
    }
  }

  lemma AnswersAreParsed(db: C.Db, root: C.RootId, rows: seq<C.RowId>, paths: set<string>)
    requires Answer(db, root, rows) && forall i :: 0 <= i < |rows| ==> F.LineAt(db, rows[i]).path in paths
    ensures From(HitsOf(db, rows), ParsedAt(paths))
  {
  }

  /**
   An evaluation indexes its corpus under one root: whatever different segments
   its index returns for a query, the scores stay within the bounds when ids are
   not repeated.
   */
  lemma UniqueIdsBoundTheScores(db: C.Db, root: C.RootId, rows: seq<C.RowId>, corpus: seq<CorpusRecord>, s: Scale,
                                k: nat)
    requires C.Inv(db) && Answer(db, root, rows) && Proper(s)
    requires OneRecordEach(corpus) && UniqueIds(corpus)
    requires forall i :: 0 <= i < |rows| ==> F.LineAt(db, rows[i]).path in PathsOf(corpus)
    ensures ScoresBounded(s, RefsOf(PathToDoc(corpus), HitsOf(db, rows)), k)
  {
    var docs, paths, hits := PathToDoc(corpus), PathsOf(corpus), HitsOf(db, rows);
    UniqueIdsDecide(corpus);
    ParsedHitsDistinctRefs(docs, paths);
    AnswersAreDistinct(db, root, rows);
    AnswersAreParsed(db, root, rows, paths);
    DistinctIsBounded(s, RefsOf(docs, hits), k);
  }
}
