/** How eval.rs names the hits it scores, and exactly when different hits get different names. */
module EvalReferences {
  import opened Prelude
  import opened TextTools
  import opened Metrics
  import opened MetricsTheorems
  import opened Markdown
  import opened MarkdownTheorems

  datatype CorpusRecord = CorpusRecord(documentId: string, path: string)
  datatype JudgmentRecord = JudgmentRecord(queryId: string, labels: Judgment)

  predicate SameQuery(a: string, b: string) {
    a == b
  }

  ghost predicate DistinctIds(queries: seq<string>, n: nat)
    requires n <= |queries|
  {
    forall i, j {:trigger SameQuery(queries[i], queries[j])} :: 0 <= i < j < n ==> !SameQuery(queries[i], queries[j])
  }

  predicate JudgmentOk(queries: seq<string>, j: JudgmentRecord) {
    j.queryId in queries && (j.labels.required != [] || j.labels.acceptable != [])
  }

  /** What a bundle must satisfy.  The documents' ids and paths are not looked at. */
  ghost predicate BundleOk(corpus: seq<CorpusRecord>, queries: seq<string>, judgments: seq<JudgmentRecord>) {
    && corpus != [] && queries != [] && judgments != []
    && DistinctIds(queries, |queries|)
    && forall i :: 0 <= i < |judgments| ==> JudgmentOk(queries, judgments[i])
  }

  /** `validate_bundle`. */
  method ValidateBundle(corpus: seq<CorpusRecord>, queries: seq<string>, judgments: seq<JudgmentRecord>)
    returns (ok: bool)
    ensures ok <==> BundleOk(corpus, queries, judgments)
  {
    if corpus == [] || queries == [] || judgments == [] {
      return false;
    }
    var ids: set<string> := {};
    for i := 0 to |queries|
      invariant ids == (set j | 0 <= j < i :: queries[j]) && DistinctIds(queries, i)
    {
      if queries[i] in ids {
        assert exists j :: 0 <= j < i && SameQuery(queries[j], queries[i]);
        return false;
      }
      ids := ids + {queries[i]};
    }
    for i := 0 to |judgments|
      invariant forall j :: 0 <= j < i ==> JudgmentOk(queries, judgments[j])
    {
      var labels := judgments[i].labels;
      if judgments[i].queryId !in ids || (labels.required == [] && labels.acceptable == []) {
        assert !JudgmentOk(queries, judgments[i]);
        return false;
      }
    }
    ok := true;
  }

  // -------------------------------------------------------------- references

  datatype Hit = Hit(path: string, anchor: string)

  /** `path_to_doc`: a later record of a path wins. */
  function PathToDoc(corpus: seq<CorpusRecord>): map<string, string> {
    if corpus == [] then map[]
    else PathToDoc(corpus[..|corpus| - 1])[corpus[|corpus| - 1].path := corpus[|corpus| - 1].documentId]
  }

  /** Backslashes of a path become slashes before it is looked up. */
  function Slashes(path: string): (out: string)
    ensures |out| == |path| && forall i :: 0 <= i < |path| ==> out[i] == if path[i] == '\\' then '/' else path[i]
  {
    if path == "" then ""
    else
      var c := path[|path| - 1];
      Slashes(path[..|path| - 1]) + [if c == '\\' then '/' else c]
  }

  lemma SlashesOnly(path: string)
    requires '\\' !in path
    ensures Slashes(path) == path
  {
  }

  function Name(docs: map<string, string>, path: string): string {
    if Slashes(path) in docs then docs[Slashes(path)] else Slashes(path)
  }

  function RefOf(docs: map<string, string>, hit: Hit): Ref {
    Name(docs, hit.path) + "#" + hit.anchor
  }

  function RefsOf(docs: map<string, string>, hits: seq<Hit>): (refs: seq<Ref>)
    ensures |refs| == |hits| && forall i :: 0 <= i < |hits| ==> refs[i] == RefOf(docs, hits[i])
  {
    if hits == [] then [] else RefsOf(docs, hits[..|hits| - 1]) + [RefOf(docs, hits[|hits| - 1])]
  }

  // -------------------------------------------------------------- which hits

  /** The hits that indexed files of these paths can give. */
  ghost function At(paths: set<string>): iset<Hit> {
    iset hit: Hit | hit.path in paths
  }

  /** Those of them whose anchor a parser gives. */
  ghost function ParsedAt(paths: set<string>): iset<Hit> {
    iset hit: Hit | hit.path in paths && ParserAnchor(hit.anchor)
  }

  /** The n-th piece of a plain text, or a segment of some Markdown document. */
  ghost predicate ParserAnchor(anchor: string) {
    (exists n: nat :: anchor == PlainTextAnchor(n)) || (exists o :: MarkdownOutput(o) && HasAnchor(o, anchor))
  }

  function PlainTextAnchor(n: nat): string {
    "text:" + Decimal(n)
  }

  ghost predicate MarkdownOutput(o: Output) {
    exists front, frontTitle, body, events :: o == ParseEvents(front, frontTitle, body, events)
  }

  ghost predicate HasAnchor(o: Output, anchor: string) {
    exists i :: 0 <= i < |o.segments| && o.segments[i].anchor == anchor
  }

  lemma ParserAnchorUnhashed(anchor: string)
    requires ParserAnchor(anchor)
    ensures '#' !in anchor
  {
    if n: nat :| anchor == PlainTextAnchor(n) {
      DecimalPlain(n);
    } else {
      var o :| MarkdownOutput(o) && HasAnchor(o, anchor);
      var front, frontTitle, body, events :| o == ParseEvents(front, frontTitle, body, events);
      ParsedSegmentsAreSound(front, frontTitle, body, events);
    }
  }

  // ---------------------------------------------------------- the conditions

  /** Some anchors give files of these two paths one reference. */
  predicate Clashing(docs: map<string, string>, p: string, q: string) {
    Name(docs, p) + "#" <= Name(docs, q) + "#"
  }

  /** No two of the paths clash, whatever the anchors. */
  predicate NamedApart(docs: map<string, string>, paths: set<string>) {
    forall p, q {:trigger Clashing(docs, p, q)} :: p in paths && q in paths && p != q ==> !Clashing(docs, p, q)
  }

  predicate SameName(docs: map<string, string>, p: string, q: string) {
    Name(docs, p) == Name(docs, q)
  }

  /** Different paths have different names. */
  predicate NamesDiffer(docs: map<string, string>, paths: set<string>) {
    forall p, q {:trigger SameName(docs, p, q)} :: p in paths && q in paths && p != q ==> !SameName(docs, p, q)
  }

  lemma SameReference(docs: map<string, string>, a: Hit, b: Hit)
    requires RefOf(docs, a) == RefOf(docs, b) && a != b
    ensures a.path != b.path && (Clashing(docs, a.path, b.path) || Clashing(docs, b.path, a.path))
    ensures '#' !in a.anchor && '#' !in b.anchor ==> SameName(docs, a.path, b.path)
  {
    var x, y, ref := Name(docs, a.path), Name(docs, b.path), RefOf(docs, a);
    assert ref[..|x| + 1] == x + "#" && ref[|x| + 1..] == a.anchor;
    assert ref[..|y| + 1] == y + "#" && ref[|y| + 1..] == b.anchor;
    if |x| < |y| {
      assert ref[..|y| + 1][..|x| + 1] == ref[..|x| + 1];
      assert a.anchor[|y| - |x| - 1] == '#';
    } else if |y| < |x| {
      assert ref[..|x| + 1][..|y| + 1] == ref[..|y| + 1];
      assert b.anchor[|x| - |y| - 1] == '#';
    } else {
      assert x == (x + "#")[..|x|] && y == (y + "#")[..|y|];
    }
  }

  lemma ClashGivesOneReference(docs: map<string, string>, p: string, q: string) returns (a: Hit, b: Hit)
    requires Clashing(docs, p, q)
    ensures a.path == p && b.path == q && RefOf(docs, a) == RefOf(docs, b)
  {
    var x, y := Name(docs, p) + "#", Name(docs, q) + "#";
    a, b := Hit(p, y[|x|..]), Hit(q, "");
    assert y == x + y[|x|..] == y + "";
  }

  // ------------------------------------------------------ lists of distinct hits

  ghost predicate From(hits: seq<Hit>, allowed: iset<Hit>) {
    forall i :: 0 <= i < |hits| ==> hits[i] in allowed
  }

  predicate SameRef(docs: map<string, string>, a: Hit, b: Hit) {
    RefOf(docs, a) == RefOf(docs, b)
  }

  ghost predicate PairsDiffer(docs: map<string, string>, allowed: iset<Hit>) {
    forall a, b {:trigger SameRef(docs, a, b)} :: a in allowed && b in allowed && a != b ==> !SameRef(docs, a, b)
  }

  /** Distinct hits among those allowed always get distinct references. */
  ghost predicate KeepsDistinct(docs: map<string, string>, allowed: iset<Hit>) {
    forall hits :: From(hits, allowed) && Distinct(hits) ==> Distinct(RefsOf(docs, hits))
  }

  lemma PairsDecide(docs: map<string, string>, allowed: iset<Hit>)
    ensures KeepsDistinct(docs, allowed) <==> PairsDiffer(docs, allowed)
  {
    if KeepsDistinct(docs, allowed) {
      forall a, b {:trigger SameRef(docs, a, b)} | a in allowed && b in allowed && a != b
        ensures !SameRef(docs, a, b)
      {
        var refs := RefsOf(docs, [a, b]);
        assert From([a, b], allowed) && Distinct([a, b]);
        assert refs[0] != refs[1];
      }
    }
    if PairsDiffer(docs, allowed) {
      forall hits | From(hits, allowed) && Distinct(hits) ensures Distinct(RefsOf(docs, hits)) {
        DifferingPairs(docs, allowed, hits);
      }
    }
  }

  lemma DifferingPairs(docs: map<string, string>, allowed: iset<Hit>, hits: seq<Hit>)
    requires PairsDiffer(docs, allowed) && From(hits, allowed) && Distinct(hits)
    ensures Distinct(RefsOf(docs, hits))
  {
    var refs := RefsOf(docs, hits);
    forall i, j | 0 <= i < j < |refs| ensures refs[i] != refs[j] {
      assert !SameRef(docs, hits[i], hits[j]);
    }
  }

  /** With any anchors: distinct references for all distinct hits if and only if no two paths clash. */
  lemma DistinctHitsDistinctRefs(docs: map<string, string>, paths: set<string>)
    ensures KeepsDistinct(docs, At(paths)) <==> NamedApart(docs, paths)
  {
    PairsDecide(docs, At(paths));
    if NamedApart(docs, paths) {
      forall a, b {:trigger SameRef(docs, a, b)} | a in At(paths) && b in At(paths) && a != b
        ensures !SameRef(docs, a, b)
      {
        if SameRef(docs, a, b) {
          SameReference(docs, a, b);
        }
      }
    }
    if PairsDiffer(docs, At(paths)) {
      forall p, q {:trigger Clashing(docs, p, q)} | p in paths && q in paths && p != q ensures !Clashing(docs, p, q) {
        if Clashing(docs, p, q) {
          var a, b := ClashGivesOneReference(docs, p, q);
          assert SameRef(docs, a, b);
        }
      }
    }
  }

  /** With the anchors the parsers give: if and only if different paths have different names. */
  lemma ParsedHitsDistinctRefs(docs: map<string, string>, paths: set<string>)
    ensures KeepsDistinct(docs, ParsedAt(paths)) <==> NamesDiffer(docs, paths)
  {
    PairsDecide(docs, ParsedAt(paths));
    if NamesDiffer(docs, paths) {
      forall a, b {:trigger SameRef(docs, a, b)} | a in ParsedAt(paths) && b in ParsedAt(paths) && a != b
        ensures !SameRef(docs, a, b)
      {
        if SameRef(docs, a, b) {
          ParserAnchorUnhashed(a.anchor);
          ParserAnchorUnhashed(b.anchor);
          SameReference(docs, a, b);
        }
      }
    }
    if PairsDiffer(docs, ParsedAt(paths)) {
      forall p, q {:trigger SameName(docs, p, q)} | p in paths && q in paths && p != q ensures !SameName(docs, p, q) {
        var anchor := PlainTextAnchor(1);
        assert ParserAnchor(anchor);
        assert !SameRef(docs, Hit(p, anchor), Hit(q, anchor));
      }
    }
  }

  // ------------------------------------------------------ a repeated reference

  const TWO_FILES := [CorpusRecord("doc", "a.txt"), CorpusRecord("doc", "b.txt")]
  const ONE_QUERY := ["q"]
  const ONE_JUDGMENT := [JudgmentRecord("q", Judgment(["doc#text:1"], [], []))]
  const BOTH_HITS := [Hit("a.txt", "text:1"), Hit("b.txt", "text:1")]

  /** A bundle that passes, two different hits, one reference, and twice the recall there is. */
  lemma AcceptedBundleRepeats()
    ensures BundleOk(TWO_FILES, ONE_QUERY, ONE_JUDGMENT)
    ensures Distinct(BOTH_HITS) && From(BOTH_HITS, ParsedAt({"a.txt", "b.txt"}))
    ensures var refs := RefsOf(PathToDoc(TWO_FILES), BOTH_HITS);
            refs == ["doc#text:1", "doc#text:1"] && Found(refs, {"doc#text:1"}, 2) == 2
  {
    TwoFilesPass();
    TwoFilesOneName();
    assert "doc" + "#" + "text:1" == "doc#text:1";
    FoundAll(RefsOf(PathToDoc(TWO_FILES), BOTH_HITS), {"doc#text:1"}, 2);
    assert "text:" + Decimal(1) == "text:1" == PlainTextAnchor(1);
  }

  lemma TwoFilesPass()
    ensures BundleOk(TWO_FILES, ONE_QUERY, ONE_JUDGMENT)
  {
    assert ONE_QUERY[0] == "q";
    assert JudgmentOk(ONE_QUERY, ONE_JUDGMENT[0]);
  }

  lemma TwoFilesOneName()
    ensures var docs := PathToDoc(TWO_FILES); Name(docs, "a.txt") == "doc" && Name(docs, "b.txt") == "doc"
  {
    assert TWO_FILES[..1] == [TWO_FILES[0]];
    assert PathToDoc([TWO_FILES[0]]) == map["a.txt" := "doc"];
    assert PathToDoc(TWO_FILES) == map["a.txt" := "doc", "b.txt" := "doc"];
    SlashesOnly("a.txt");
    SlashesOnly("b.txt");
  }
}
