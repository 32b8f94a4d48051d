/** What fusion promises over whole inputs: order independence, respect for rankings, determinism. */
module FusionTheorems {
  import opened Prelude
  import opened Fusion
  import Sorting

  // ------------------------------------------------------- sums over lists

  /** What the first `n` hits of one list add to a hash. */
  function Part(list: seq<Hit>, n: nat, h: TextHash, localOnly: bool): (sum: real)
    requires n <= |list|
    ensures sum >= 0.0
  {
    if n == 0 then 0.0
    else Part(list, n - 1, h, localOnly) + if Counts(list[n - 1], h, localOnly) then Contribution(n - 1) else 0.0
  }

  /** The sum list by list, each list cut where the cap cuts it. */
  function CappedTotal(lists: seq<seq<Hit>>, cap: nat, h: TextHash, localOnly: bool): (sum: real)
    ensures sum >= 0.0
  {
    if lists == [] then 0.0
    else
      var n := Min(|lists[0]|, cap);
      Part(lists[0], n, h, localOnly) + CappedTotal(lists[1..], cap - n, h, localOnly)
  }

  lemma {:induction false} TotalOfRanks(list: seq<Hit>, n: nat, h: TextHash, localOnly: bool)
    requires n <= |list|
    ensures Total(Ranks(list, n), n, h, localOnly) == Part(list, n, h, localOnly)
  {
    if n > 0 {
      TotalOfRanks(list, n - 1, h, localOnly);
      TotalPrefix(Ranks(list, n - 1), Ranks(list, n), n - 1, h, localOnly);
    }
  }

  lemma {:induction false} TotalPrefix(a: seq<Ranked>, b: seq<Ranked>, n: nat, h: TextHash, localOnly: bool)
    requires n <= |a| && n <= |b| && forall i :: 0 <= i < n ==> a[i] == b[i]
    ensures Total(a, n, h, localOnly) == Total(b, n, h, localOnly)
  {
    if n > 0 {
      TotalPrefix(a, b, n - 1, h, localOnly);
    }
  }

  lemma {:induction false} TotalAppend(a: seq<Ranked>, b: seq<Ranked>, n: nat, h: TextHash, localOnly: bool)
    requires n <= |b|
    ensures Total(a + b, |a| + n, h, localOnly) == Total(a, |a|, h, localOnly) + Total(b, n, h, localOnly)
  {
    if n == 0 {
      TotalPrefix(a + b, a, |a|, h, localOnly);
    } else {
      TotalAppend(a, b, n - 1, h, localOnly);
      assert (a + b)[|a| + n - 1] == b[n - 1];
    }
  }

  /** A score is a sum over lists. */
  lemma {:induction false} ScoreOverLists(lists: seq<seq<Hit>>, cap: nat, h: TextHash, localOnly: bool)
    ensures var hits := Admit(lists, cap);
            Total(hits, |hits|, h, localOnly) == CappedTotal(lists, cap, h, localOnly)
  {
    if lists != [] {
      var n := Min(|lists[0]|, cap);
      ScoreOverLists(lists[1..], cap - n, h, localOnly);
      var rest := Admit(lists[1..], cap - n);
      TotalOfRanks(lists[0], n, h, localOnly);
      TotalAppend(Ranks(lists[0], n), rest, |rest|, h, localOnly);
    }
  }

  // ---------------------------------------------------------- permutations

  function SumOver(lists: seq<seq<Hit>>, h: TextHash, localOnly: bool): real {
    if lists == [] then 0.0 else Part(lists[0], |lists[0]|, h, localOnly) + SumOver(lists[1..], h, localOnly)
  }

  lemma {:induction false} Uncapped(lists: seq<seq<Hit>>, cap: nat, h: TextHash, localOnly: bool)
    requires TotalLength(lists) <= cap
    ensures CappedTotal(lists, cap, h, localOnly) == SumOver(lists, h, localOnly)
  {
    if lists != [] {
      Uncapped(lists[1..], cap - |lists[0]|, h, localOnly);
    }
  }

  lemma {:induction false} SumWithout(lists: seq<seq<Hit>>, i: nat, h: TextHash, localOnly: bool)
    requires i < |lists|
    ensures SumOver(lists, h, localOnly) == Part(lists[i], |lists[i]|, h, localOnly)
            + SumOver(Without(lists, i), h, localOnly)
    ensures TotalLength(lists) == |lists[i]| + TotalLength(Without(lists, i))
  {
    if i > 0 {
      SumWithout(lists[1..], i - 1, h, localOnly);
      assert Without(lists, i)[0] == lists[0];
      assert Without(lists, i)[1..] == Without(lists[1..], i - 1);
    } else {
      assert Without(lists, 0) == lists[1..];
    }
  }

  lemma MultisetWithout<T>(s: seq<T>, i: nat)
    requires i < |s|
    ensures multiset(Without(s, i)) == multiset(s) - multiset{s[i]}
  {
    assert s == s[..i] + [s[i]] + s[i + 1..];
  }

  lemma {:induction false} PermutedSums(a: seq<seq<Hit>>, b: seq<seq<Hit>>, h: TextHash, localOnly: bool)
    requires multiset(a) == multiset(b)
    ensures SumOver(a, h, localOnly) == SumOver(b, h, localOnly) && TotalLength(a) == TotalLength(b)
  {
    if a == [] {
      assert |multiset(b)| == 0;
    } else {
      assert a[0] in multiset(b);
      var i :| 0 <= i < |b| && b[i] == a[0];
      SumWithout(b, i, h, localOnly);
      MultisetWithout(a, 0);
      MultisetWithout(b, i);
      assert Without(a, 0) == a[1..];
      PermutedSums(a[1..], Without(b, i), h, localOnly);
    }
  }

  ghost predicate LocalIn(list: seq<Hit>, h: TextHash) {
    exists i :: 0 <= i < |list| && list[i].hash == h && list[i].local
  }

  ghost predicate AppearsIn(list: seq<Hit>, h: TextHash) {
    exists i :: 0 <= i < |list| && list[i].hash == h
  }

  lemma {:induction false} AnyLocalHere(hits: seq<Ranked>, n: nat, h: TextHash)
    requires n <= |hits|
    ensures AnyLocal(hits, n, h) <==> exists i :: 0 <= i < n && hits[i].hit.hash == h && hits[i].hit.local
  {
    if n > 0 {
      AnyLocalHere(hits, n - 1, h);
    }
  }

  /** Every admitted hit is in some list, and below the cap every hit of every list is admitted. */
  lemma {:induction false} AdmittedFrom(lists: seq<seq<Hit>>, cap: nat, i: nat) returns (k: nat)
    requires i < |Admit(lists, cap)|
    ensures var x := Admit(lists, cap)[i];
            k < |lists| && x.rank < |lists[k]| && lists[k][x.rank] == x.hit
  {
    var n := Min(|lists[0]|, cap);
    if i < n {
      k := 0;
    } else {
      var rest := AdmittedFrom(lists[1..], cap - n, i - n);
      k := rest + 1;
    }
  }

  lemma {:induction false} AdmittedAt(lists: seq<seq<Hit>>, cap: nat, k: nat, r: nat) returns (i: nat)
    requires TotalLength(lists) <= cap && k < |lists| && r < |lists[k]|
    ensures i < |Admit(lists, cap)| && Admit(lists, cap)[i] == Ranked(lists[k][r], r)
  {
    var n := |lists[0]|;
    if k == 0 {
      i := r;
    } else {
      var rest := AdmittedAt(lists[1..], cap - n, k - 1, r);
      i := n + rest;
    }
  }

  lemma LocalOverLists(lists: seq<seq<Hit>>, cap: nat, h: TextHash)
    requires TotalLength(lists) <= cap
    ensures var hits := Admit(lists, cap);
            AnyLocal(hits, |hits|, h) <==> exists list :: list in lists && LocalIn(list, h)
  {
    var hits := Admit(lists, cap);
    AnyLocalHere(hits, |hits|, h);
    if AnyLocal(hits, |hits|, h) {
      var i :| 0 <= i < |hits| && hits[i].hit.hash == h && hits[i].hit.local;
      var k := AdmittedFrom(lists, cap, i);
      assert LocalIn(lists[k], h);
    }
    if list: seq<Hit> :| list in lists && LocalIn(list, h) {
      var k :| 0 <= k < |lists| && lists[k] == list;
      var r :| 0 <= r < |list| && list[r].hash == h && list[r].local;
      var i := AdmittedAt(lists, cap, k, r);
      assert hits[i].hit.local;
    }
  }

  lemma HashesOverLists(lists: seq<seq<Hit>>, cap: nat, h: TextHash)
    requires TotalLength(lists) <= cap
    ensures h in Hashes(Admit(lists, cap)) <==> exists list :: list in lists && AppearsIn(list, h)
  {
    var hits := Admit(lists, cap);
    if h in Hashes(hits) {
      var i :| 0 <= i < |hits| && hits[i].hit.hash == h;
      var k := AdmittedFrom(lists, cap, i);
      assert AppearsIn(lists[k], h);
    }
    if list: seq<Hit> :| list in lists && AppearsIn(list, h) {
      var k :| 0 <= k < |lists| && lists[k] == list;
      var r :| 0 <= r < |list| && list[r].hash == h;
      var i := AdmittedAt(lists, cap, k, r);
      assert hits[i].hit.hash == h;
    }
  }

  /** Hash, locality and score of every output hit. */
  ghost function Verdicts(out: seq<Hit>): set<(TextHash, bool, real)> {
    set i | 0 <= i < |out| :: (out[i].hash, out[i].local, out[i].score)
  }

  ghost function Verdict(hits: seq<Ranked>, h: TextHash): (TextHash, bool, real) {
    var localOnly := AnyLocal(hits, |hits|, h);
    (h, localOnly, Total(hits, |hits|, h, localOnly))
  }

  lemma {:induction false} NoLocalChosen(hits: seq<Ranked>, n: nat, h: TextHash)
    requires n <= |hits| && !AnyLocal(hits, n, h) && Chosen(hits, n, h, false).Some?
    ensures !Chosen(hits, n, h, false).value.local
  {
    if n > 0 && Chosen(hits, n - 1, h, false).Some? {
      NoLocalChosen(hits, n - 1, h);
    }
  }

  lemma FinalVerdict(hits: seq<Ranked>, h: TextHash)
    requires h in Hashes(hits)
    ensures var f := Final(hits, h); (f.hash, f.local, f.score) == Verdict(hits, h)
  {
    AppearsHasEntry(hits, |hits|, h);
    if !AnyLocal(hits, |hits|, h) {
      NoLocalChosen(hits, |hits|, h);
    }
  }

  lemma MembersOf(hits: seq<Ranked>, out: seq<Hit>, x: Hit)
    requires multiset(out) == multiset(Finals(hits, Hashes(hits)))
    ensures x in out <==> x in Finals(hits, Hashes(hits))
  {
    assert x in out <==> x in multiset(out);
  }

  lemma VerdictsOf(hits: seq<Ranked>, out: seq<Hit>)
    requires Fused(hits, out)
    ensures Verdicts(out) == set h | h in Hashes(hits) :: Verdict(hits, h)
  {
    forall i | 0 <= i < |out|
      ensures exists h :: h in Hashes(hits) && (out[i].hash, out[i].local, out[i].score) == Verdict(hits, h) {
      MembersOf(hits, out, out[i]);
      FinalVerdict(hits, out[i].hash);
    }
    forall h | h in Hashes(hits) ensures Verdict(hits, h) in Verdicts(out) {
      FinalVerdict(hits, h);
      MembersOf(hits, out, Final(hits, h));
    }
  }

  lemma SameVerdict(a: seq<seq<Hit>>, b: seq<seq<Hit>>, cap: nat, h: TextHash)
    requires multiset(a) == multiset(b) && TotalLength(a) <= cap
    ensures Verdict(Admit(a, cap), h) == Verdict(Admit(b, cap), h)
    ensures h in Hashes(Admit(a, cap)) <==> h in Hashes(Admit(b, cap))
  {
    forall list: seq<Hit> {:trigger list in a} {:trigger list in b} ensures list in a <==> list in b {
      assert list in a <==> list in multiset(a);
      assert list in b <==> list in multiset(b);
    }
    PermutedSums(a, b, h, true);
    LocalOverLists(a, cap, h);
    LocalOverLists(b, cap, h);
    HashesOverLists(a, cap, h);
    HashesOverLists(b, cap, h);
    var localOnly := AnyLocal(Admit(a, cap), |Admit(a, cap)|, h);
    PermutedSums(a, b, h, localOnly);
    ScoreOverLists(a, cap, h, localOnly);
    ScoreOverLists(b, cap, h, localOnly);
    Uncapped(a, cap, h, localOnly);
    Uncapped(b, cap, h, localOnly);
  }

  /** Below the cap the order of the lists changes no hash, locality or score. */
  lemma PermutationKeepsVerdicts(a: seq<seq<Hit>>, b: seq<seq<Hit>>, outA: seq<Hit>, outB: seq<Hit>)
    requires multiset(a) == multiset(b) && TotalLength(a) <= MAX_FUSION_CANDIDATES
    requires Fused(Admit(a, MAX_FUSION_CANDIDATES), outA) && Fused(Admit(b, MAX_FUSION_CANDIDATES), outB)
    ensures Verdicts(outA) == Verdicts(outB)
  {
    var x, y := Admit(a, MAX_FUSION_CANDIDATES), Admit(b, MAX_FUSION_CANDIDATES);
    VerdictsOf(x, outA);
    VerdictsOf(y, outB);
    forall h {:trigger Verdict(x, h)} {:trigger Verdict(y, h)}
      ensures Verdict(x, h) == Verdict(y, h) && (h in Hashes(x) <==> h in Hashes(y)) {
      SameVerdict(a, b, MAX_FUSION_CANDIDATES, h);
    }
  }

  // ------------------------------------------------- respect for rankings

  ghost predicate SameOrigin(list: seq<Hit>) {
    forall i :: 0 <= i < |list| ==> list[i].local == list[0].local
  }

  /** In this list `b` occurs at most once, and only with `a` above it. */
  ghost predicate Leads(list: seq<Hit>, a: TextHash, b: TextHash) {
    forall j :: 0 <= j < |list| && list[j].hash == b ==> Above(list, a, j) && OnlyAt(list, b, j)
  }

  ghost predicate Above(list: seq<Hit>, a: TextHash, j: nat) {
    exists i :: 0 <= i < j && i < |list| && list[i].hash == a
  }

  ghost predicate OnlyAt(list: seq<Hit>, b: TextHash, j: nat) {
    forall i :: 0 <= i < |list| && list[i].hash == b ==> i == j
  }

  lemma {:induction false} PartNone(list: seq<Hit>, n: nat, h: TextHash, localOnly: bool)
    requires n <= |list| && forall i :: 0 <= i < n ==> !Counts(list[i], h, localOnly)
    ensures Part(list, n, h, localOnly) == 0.0
  {
    if n > 0 {
      PartNone(list, n - 1, h, localOnly);
    }
  }

  lemma {:induction false} PartOnly(list: seq<Hit>, n: nat, h: TextHash, localOnly: bool, j: nat)
    requires j < n <= |list| && OnlyAt(list, h, j) && Counts(list[j], h, localOnly)
    ensures Part(list, n, h, localOnly) == Contribution(j)
  {
    if n == j + 1 {
      PartNone(list, j, h, localOnly);
    } else {
      PartOnly(list, n - 1, h, localOnly, j);
    }
  }

  lemma {:induction false} PartAtLeast(list: seq<Hit>, n: nat, h: TextHash, localOnly: bool, i: nat)
    requires i < n <= |list| && Counts(list[i], h, localOnly)
    ensures Part(list, n, h, localOnly) >= Contribution(i)
  {
    if i < n - 1 {
      PartAtLeast(list, n - 1, h, localOnly, i);
    }
  }

  lemma HigherIsMore(i: nat, j: nat)
    requires i < j
    ensures Contribution(i) > Contribution(j)
  {
    Inverse((61 + i) as real, (61 + j) as real);
  }

  lemma Inverse(x: real, y: real)
    requires 0.0 < x < y
    ensures 1.0 / x > 1.0 / y
  {
    assert 1.0 / x - 1.0 / y == (y - x) / (x * y);
  }

  lemma LeadsInList(list: seq<Hit>, n: nat, a: TextHash, b: TextHash, localOnly: bool)
    requires n <= |list| && SameOrigin(list) && Leads(list, a, b)
    ensures Part(list, n, b, localOnly) == 0.0 || Part(list, n, a, localOnly) > Part(list, n, b, localOnly)
  {
    if j :| 0 <= j < n && Counts(list[j], b, localOnly) {
      assert Above(list, a, j) && OnlyAt(list, b, j);
      var i :| 0 <= i < j && list[i].hash == a;
      assert list[i].local == list[0].local == list[j].local;
      PartOnly(list, n, b, localOnly, j);
      PartAtLeast(list, n, a, localOnly, i);
      HigherIsMore(i, j);
    } else {
      PartNone(list, n, b, localOnly);
    }
  }

  lemma {:induction false} LeadsInTotal(lists: seq<seq<Hit>>, cap: nat, a: TextHash, b: TextHash, localOnly: bool)
    requires forall k :: 0 <= k < |lists| ==> SameOrigin(lists[k]) && Leads(lists[k], a, b)
    ensures var ta, tb := CappedTotal(lists, cap, a, localOnly), CappedTotal(lists, cap, b, localOnly);
            tb == 0.0 || ta > tb
  {
    if lists != [] {
      var n := Min(|lists[0]|, cap);
      LeadsInList(lists[0], n, a, b, localOnly);
      LeadsInTotal(lists[1..], cap - n, a, b, localOnly);
    }
  }

  lemma {:induction false} ChosenScores(hits: seq<Ranked>, n: nat, h: TextHash, localOnly: bool)
    requires n <= |hits| && Chosen(hits, n, h, localOnly).Some?
    ensures Total(hits, n, h, localOnly) > 0.0
  {
    if !Counts(hits[n - 1].hit, h, localOnly) {
      ChosenScores(hits, n - 1, h, localOnly);
    }
  }

  /** Under the cap's prefix `a` is admitted whenever `b` is, and scores more. */
  lemma LeaderScoresMore(lists: seq<seq<Hit>>, cap: nat, a: TextHash, b: TextHash)
    requires forall k :: 0 <= k < |lists| ==> SameOrigin(lists[k]) && Leads(lists[k], a, b)
    requires var hits := Admit(lists, cap); b in Hashes(hits) && AnyLocal(hits, |hits|, a) == AnyLocal(hits, |hits|, b)
    ensures var hits := Admit(lists, cap);
            a in Hashes(hits) && Final(hits, a).score > Final(hits, b).score
  {
    var hits := Admit(lists, cap);
    var localOnly := AnyLocal(hits, |hits|, b);
    AppearsHasEntry(hits, |hits|, b);
    ChosenScores(hits, |hits|, b, localOnly);
    ScoreOverLists(lists, cap, a, localOnly);
    ScoreOverLists(lists, cap, b, localOnly);
    LeadsInTotal(lists, cap, a, b, localOnly);
    if Chosen(hits, |hits|, a, localOnly).None? {
      NothingScores(hits, |hits|, a, localOnly);
      assert false;
    }
    AppearsHasEntry(hits, |hits|, a);
  }

  lemma {:induction false} NothingScores(hits: seq<Ranked>, n: nat, h: TextHash, localOnly: bool)
    requires n <= |hits| && Chosen(hits, n, h, localOnly).None?
    ensures Total(hits, n, h, localOnly) == 0.0
  {
    if n > 0 {
      NothingScores(hits, n - 1, h, localOnly);
    }
  }

  /**
   Order is respected, cap or no cap: over lists of one origin each, if `a`
   stands above `b` wherever `b` occurs and both are local or both are not,
   then `a` is output before `b`.
   */
  lemma FusionRespectsOrder(lists: seq<seq<Hit>>, out: seq<Hit>, a: TextHash, b: TextHash, j: nat) returns (i: nat)
    requires Fused(Admit(lists, MAX_FUSION_CANDIDATES), out)
    requires forall k :: 0 <= k < |lists| ==> SameOrigin(lists[k]) && Leads(lists[k], a, b)
    requires var hits := Admit(lists, MAX_FUSION_CANDIDATES); AnyLocal(hits, |hits|, a) == AnyLocal(hits, |hits|, b)
    requires j < |out| && out[j].hash == b
    ensures i < j && out[i].hash == a
  {
    var hits := Admit(lists, MAX_FUSION_CANDIDATES);
    MembersOf(hits, out, out[j]);
    LeaderScoresMore(lists, MAX_FUSION_CANDIDATES, a, b);
    MembersOf(hits, out, Final(hits, a));
    i :| 0 <= i < |out| && out[i] == Final(hits, a);
    var below := Before;
    assert below(out[i], out[j]);
  }

  // --------------------------------------------------------- determinism

  /** A segment id belongs to one text. */
  ghost predicate SegmentsIdentify(hits: seq<Ranked>) {
    forall i, j {:trigger SameText(hits[i], hits[j])} :: 0 <= i < |hits| && 0 <= j < |hits| ==>
        SameText(hits[i], hits[j])
  }

  ghost predicate SameText(x: Ranked, y: Ranked) {
    x.hit.segment == y.hit.segment ==> x.hit.hash == y.hit.hash
  }

  lemma {:induction false} ChosenComesFrom(hits: seq<Ranked>, n: nat, h: TextHash, localOnly: bool) returns (i: nat)
    requires n <= |hits| && Chosen(hits, n, h, localOnly).Some?
    ensures i < n && hits[i].hit.hash == h && hits[i].hit.segment == Chosen(hits, n, h, localOnly).value.segment
  {
    if Chosen(hits, n - 1, h, localOnly).Some? {
      i := ChosenComesFrom(hits, n - 1, h, localOnly);
    } else {
      i := n - 1;
    }
  }

  lemma FinalsApart(hits: seq<Ranked>, g: TextHash, h: TextHash)
    requires SegmentsIdentify(hits) && g in Hashes(hits) && h in Hashes(hits) && g != h
    ensures Final(hits, g).segment != Final(hits, h).segment
  {
    AppearsHasEntry(hits, |hits|, g);
    AppearsHasEntry(hits, |hits|, h);
    var i := ChosenComesFrom(hits, |hits|, g, AnyLocal(hits, |hits|, g));
    var j := ChosenComesFrom(hits, |hits|, h, AnyLocal(hits, |hits|, h));
    assert SameText(hits[i], hits[j]);
  }

  /**
   With ids that belong to one text each, the output is a function of the lists,
   whatever order the hash map yields.
   */
  lemma FusionIsDeterministic(hits: seq<Ranked>, a: seq<Hit>, b: seq<Hit>)
    requires Fused(hits, a) && Fused(hits, b) && SegmentsIdentify(hits)
    ensures a == b
  {
    var below := Before;
    forall x, y {:trigger below(x, y)} | x in a && y in a && !below(x, y) && !below(y, x) ensures x == y {
      MembersOf(hits, a, x);
      MembersOf(hits, a, y);
      if x.hash != y.hash {
        FinalsApart(hits, x.hash, y.hash);
      }
    }
    BeforeIsOrder();
    Sorting.SortedIsUnique(below, a, b);
  }

  // ------------------------------------------------------ the surviving hit

  ghost predicate FirstCounting(hits: seq<Ranked>, n: nat, h: TextHash, localOnly: bool, f: nat)
    requires n <= |hits|
  {
    f < n && Counts(hits[f].hit, h, localOnly) && forall i :: 0 <= i < f ==> !Counts(hits[i].hit, h, localOnly)
  }

  /** The place shown for a hash is the first local hit's, or the first hit's when none is local. */
  lemma {:induction false} ChosenIsFirst(hits: seq<Ranked>, n: nat, h: TextHash, localOnly: bool) returns (f: nat)
    requires n <= |hits| && Chosen(hits, n, h, localOnly).Some?
    ensures FirstCounting(hits, n, h, localOnly, f)
    ensures var c := Chosen(hits, n, h, localOnly).value;
            c.path == hits[f].hit.path && c.anchor == hits[f].hit.anchor && c.segment == hits[f].hit.segment
                && c.local == hits[f].hit.local
  {
    if Chosen(hits, n - 1, h, localOnly).Some? {
      f := ChosenIsFirst(hits, n - 1, h, localOnly);
    } else {
      f := n - 1;
      NothingCounts(hits, n - 1, h, localOnly);
    }
  }

  lemma {:induction false} NothingCounts(hits: seq<Ranked>, n: nat, h: TextHash, localOnly: bool)
    requires n <= |hits| && Chosen(hits, n, h, localOnly).None?
    ensures forall i :: 0 <= i < n ==> !Counts(hits[i].hit, h, localOnly)
  {
    if n > 0 {
      NothingCounts(hits, n - 1, h, localOnly);
    }
  }

  /** A lexical and a semantic local hit of one text end up in one hit with both signals. */
  lemma {:induction false} LocalSignalsUnite(hits: seq<Ranked>, n: nat, h: TextHash)
    requires n <= |hits| && Chosen(hits, n, h, true).Some?
    ensures var s := Chosen(hits, n, h, true).value.signals;
            && (s.bm25.Some? <==>
               exists i :: 0 <= i < n && Counts(hits[i].hit, h, true) && hits[i].hit.signals.bm25.Some?)
            && (s.cosine.Some? <==>
               exists i :: 0 <= i < n && Counts(hits[i].hit, h, true) && hits[i].hit.signals.cosine.Some?)
  {
    if Chosen(hits, n - 1, h, true).Some? {
      LocalSignalsUnite(hits, n - 1, h);
    } else {
      NothingCounts(hits, n - 1, h, true);
    }
  }

  /** `value` is what the first local hit of the text has, among those that have any. */
  ghost predicate OfTheFirst<T(!new)>(hits: seq<Ranked>, n: nat, h: TextHash, get: Signals -> Option<T>,
                                      value: Option<T>)
    requires n <= |hits|
  {
    if value.None? then forall i :: 0 <= i < n && Counts(hits[i].hit, h, true) ==> get(hits[i].hit.signals).None?
    else
      exists i :: && 0 <= i < n && Counts(hits[i].hit, h, true) && get(hits[i].hit.signals) == value
                  && forall j :: 0 <= j < i && Counts(hits[j].hit, h, true) ==> get(hits[j].hit.signals).None?
  }

  lemma FirstSoFar<T(!new)>(hits: seq<Ranked>, n: nat, h: TextHash, get: Signals -> Option<T>, before: Option<T>)
    requires 0 < n <= |hits| && OfTheFirst(hits, n - 1, h, get, before)
    ensures !Counts(hits[n - 1].hit, h, true) ==> OfTheFirst(hits, n, h, get, before)
    ensures Counts(hits[n - 1].hit, h, true) ==>
              OfTheFirst(hits, n, h, get, if before.Some? then before else get(hits[n - 1].hit.signals))
  {
  }

  lemma NoneSoFar<T(!new)>(hits: seq<Ranked>, n: nat, h: TextHash, get: Signals -> Option<T>)
    requires n <= |hits| && Chosen(hits, n, h, true).None?
    ensures OfTheFirst(hits, n, h, get, None)
  {
    NothingCounts(hits, n, h, true);
  }

  lemma {:induction false} SignalIsTheFirst<T(!new)>(hits: seq<Ranked>, n: nat, h: TextHash,
                                                     get: Signals -> Option<T>)
    requires n <= |hits| && Chosen(hits, n, h, true).Some?
    requires forall a: Hit, b: Hit :: get(MergeSignals(a, b).signals)
                                      == if get(a.signals).Some? then get(a.signals) else get(b.signals)
    ensures OfTheFirst(hits, n, h, get, get(Chosen(hits, n, h, true).value.signals))
  {
    if Chosen(hits, n - 1, h, true).Some? {
      SignalIsTheFirst(hits, n - 1, h, get);
      FirstSoFar(hits, n, h, get, get(Chosen(hits, n - 1, h, true).value.signals));
    } else {
      NoneSoFar(hits, n - 1, h, get);
      FirstSoFar(hits, n, h, get, None);
    }
  }

  /** Each signal of a fused local hit is that of the first admitted local hit of its text that has it. */
  lemma FusedSignals(hits: seq<Ranked>, h: TextHash)
    requires h in Hashes(hits) && AnyLocal(hits, |hits|, h)
    ensures var s := Final(hits, h).signals;
            && OfTheFirst(hits, |hits|, h, (x: Signals) => x.bm25, s.bm25)
            && OfTheFirst(hits, |hits|, h, (x: Signals) => x.cosine, s.cosine)
            && OfTheFirst(hits, |hits|, h, (x: Signals) => x.semanticRank, s.semanticRank)
            && OfTheFirst(hits, |hits|, h, (x: Signals) => x.lexicalRank, s.lexicalRank)
            && OfTheFirst(hits, |hits|, h, (x: Signals) => x.space, s.space)
  {
    LocalSomething(hits, |hits|, h);
    SignalIsTheFirst(hits, |hits|, h, (x: Signals) => x.bm25);
    SignalIsTheFirst(hits, |hits|, h, (x: Signals) => x.cosine);
    SignalIsTheFirst(hits, |hits|, h, (x: Signals) => x.semanticRank);
    SignalIsTheFirst(hits, |hits|, h, (x: Signals) => x.lexicalRank);
    SignalIsTheFirst(hits, |hits|, h, (x: Signals) => x.space);
  }

  /** The first local hit of the text, or a later one that came as a neighbor. */
  ghost predicate Offers(hits: seq<Ranked>, h: TextHash, i: nat)
    requires i < |hits|
  {
    && Counts(hits[i].hit, h, true)
    && (hits[i].hit.explanation.neighbor || forall j :: 0 <= j < i ==> !Counts(hits[j].hit, h, true))
  }

  /** Of the explanations on offer: the first with matched terms, or the last when none has any. */
  ghost predicate Explained(hits: seq<Ranked>, n: nat, h: TextHash, e: Explanation, i: nat)
    requires n <= |hits|
  {
    && i < n && Offers(hits, h, i) && hits[i].hit.explanation == e
    && (forall j :: 0 <= j < i && Offers(hits, h, j) ==> hits[j].hit.explanation.matchedTerms == [])
    && (e.matchedTerms == [] ==> forall j :: i < j < n ==> !Offers(hits, h, j))
  }

  /** Which explanation a fused local hit shows. */
  lemma {:induction false} FusedExplanation(hits: seq<Ranked>, n: nat, h: TextHash) returns (i: nat)
    requires n <= |hits| && Chosen(hits, n, h, true).Some?
    ensures Explained(hits, n, h, Chosen(hits, n, h, true).value.explanation, i)
  {
    if Chosen(hits, n - 1, h, true).None? {
      NothingCounts(hits, n - 1, h, true);
      i := n - 1;
    } else {
      i := FusedExplanation(hits, n - 1, h);
      var f := ChosenIsFirst(hits, n - 1, h, true);
      if Offers(hits, h, n - 1) && hits[i].hit.explanation.matchedTerms == [] {
        i := n - 1;
      }
    }
  }

  /** Scores fall; among equal scores paths ascend, then anchors, then segments. */
  lemma OutputAscends(hits: seq<Ranked>, out: seq<Hit>, i: nat, j: nat)
    requires Fused(hits, out) && i < j < |out|
    ensures var (a, b) := (out[i], out[j]);
            && a.score >= b.score
            && (a.score == b.score ==> a.path <= b.path)
            && (a.score == b.score && a.path == b.path ==> a.anchor <= b.anchor)
            && (a.score == b.score && a.path == b.path && a.anchor == b.anchor ==> a.segment <= b.segment)
  {
    assert !Before(out[j], out[i]);
  }

  // ---------------------------------------------------------- a single list

  ghost predicate DifferentTexts(list: seq<Hit>) {
    forall i, j :: 0 <= i < j < |list| ==> list[i].hash != list[j].hash
  }

  /** The first `n` hits with the scores of their ranks: 1/61, 1/62 and so on. */
  function Scored(list: seq<Hit>, n: nat): (out: seq<Hit>)
    requires n <= |list|
    ensures |out| == n
    ensures forall i :: 0 <= i < n ==> out[i] == list[i].(score := 1.0 / (61 + i) as real)
  {
    if n == 0 then [] else Scored(list, n - 1) + [list[n - 1].(score := 1.0 / (60 + n) as real)]
  }

  lemma {:induction false} EntryOfOnly(list: seq<Hit>, i: nat, n: nat)
    requires i < n <= |list| && DifferentTexts(list)
    ensures Entry(Ranks(list, |list|), n, list[i].hash)
            == Some(Acc(list[i], 1.0 / (61 + i) as real, list[i].local))
  {
    var hits := Ranks(list, |list|);
    if n > i + 1 {
      EntryOfOnly(list, i, n - 1);
      OtherHashKept(hits, n - 1, list[i].hash);
    } else {
      AppearsHasEntry(hits, i, list[i].hash);
      EntryStep(hits, i, list[i].hash);
    }
  }

  lemma FinalOfOnly(list: seq<Hit>, i: nat)
    requires i < |list| && DifferentTexts(list)
    ensures var hits := Ranks(list, |list|);
            list[i].hash in Hashes(hits) && Final(hits, list[i].hash) == list[i].(score := 1.0 / (61 + i) as real)
  {
    assert Ranks(list, |list|)[i].hit.hash == list[i].hash;
    EntryOfOnly(list, i, |list|);
  }

  function FirstHashes(list: seq<Hit>, n: nat): set<TextHash>
    requires n <= |list|
  {
    set i | 0 <= i < n :: list[i].hash
  }

  lemma {:induction false} FinalsOfOnly(list: seq<Hit>, n: nat)
    requires n <= |list| && DifferentTexts(list)
    ensures FirstHashes(list, n) <= Hashes(Ranks(list, |list|))
    ensures multiset(Scored(list, n)) == multiset(Finals(Ranks(list, |list|), FirstHashes(list, n)))
  {
    if n > 0 {
      FinalsOfOnly(list, n - 1);
      FinalOfOnly(list, n - 1);
      HashesGrow(list, n);
      FinalsListed(Ranks(list, |list|), FirstHashes(list, n - 1), list[n - 1].hash, Scored(list, n - 1));
    }
  }

  lemma HashesGrow(list: seq<Hit>, n: nat)
    requires 0 < n <= |list| && DifferentTexts(list)
    ensures FirstHashes(list, n) == FirstHashes(list, n - 1) + {list[n - 1].hash}
    ensures list[n - 1].hash !in FirstHashes(list, n - 1)
  {
  }

  lemma AllHashes(list: seq<Hit>)
    ensures FirstHashes(list, |list|) == Hashes(Ranks(list, |list|))
  {
  }

  lemma ScoresFall(i: nat, j: nat)
    requires i < j
    ensures 1.0 / (61 + i) as real > 1.0 / (61 + j) as real
  {
    Inverse((61 + i) as real, (61 + j) as real);
  }

  ghost predicate Falling(hits: seq<Hit>) {
    forall i, j :: 0 <= i < j < |hits| ==> hits[i].score > hits[j].score
  }

  lemma FallingIsSorted(hits: seq<Hit>)
    requires Falling(hits)
    ensures Sorting.Sorted(Before, hits) && Sorting.NoTies(Before, hits)
  {
    var below := Before;
    forall x, y {:trigger below(x, y)} | x in hits && y in hits && !below(x, y) && !below(y, x) ensures x == y {
      var i :| 0 <= i < |hits| && hits[i] == x;
      var j :| 0 <= j < |hits| && hits[j] == y;
      assert i < j || i == j || j < i;
    }
  }

  lemma ScoredFalls(list: seq<Hit>)
    ensures Falling(Scored(list, |list|))
  {
    var scored := Scored(list, |list|);
    forall i, j | 0 <= i < j < |scored| ensures scored[i].score > scored[j].score {
      ScoresFall(i, j);
    }
  }

  lemma OneListAdmitted(list: seq<Hit>)
    requires |list| <= MAX_FUSION_CANDIDATES
    ensures Admit([list], MAX_FUSION_CANDIDATES) == Ranks(list, |list|)
  {
    assert [list][1..] == [] && Ranks(list, |list|) + [] == Ranks(list, |list|);
  }

  /** Fusing one list of different texts keeps it as it is, with scores 1/61, 1/62 and so on. */
  lemma OneListIsKept(list: seq<Hit>, out: seq<Hit>)
    requires |list| <= MAX_FUSION_CANDIDATES && DifferentTexts(list)
    requires Fused(Admit([list], MAX_FUSION_CANDIDATES), out)
    ensures out == Scored(list, |list|)
  {
    OneListAdmitted(list);
    FinalsOfOnly(list, |list|);
    AllHashes(list);
    ScoredFalls(list);
    FallingIsSorted(Scored(list, |list|));
    BeforeIsOrder();
    Sorting.SortedIsUnique(Before, Scored(list, |list|), out);
  }
}
