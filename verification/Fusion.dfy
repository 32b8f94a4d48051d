/** Reciprocal rank fusion: `rrf_merge` and `merge_signals` of retrieval.rs, over exact reals. */
module Fusion {
  import opened Prelude
  import Sorting

  type TextHash = string

  const MAX_FUSION_CANDIDATES: nat := 768

  datatype Signals = Signals(bm25: Option<real>, cosine: Option<real>, semanticRank: Option<nat>,
                             lexicalRank: Option<nat>, space: Option<string>)

  datatype Explanation = Explanation(matchedTerms: seq<string>, neighbor: bool)

  /**
   A retrieval hit.  Path, anchor and printed segment id are only ever compared,
   so each stands for its position in its order.  `score` is also what the
   source stores as federation and fusion score.
   */
  datatype Hit = Hit(hash: TextHash, local: bool, path: nat, anchor: nat, segment: nat,
                     signals: Signals, explanation: Explanation, score: real)

  /** A hit and its rank in its list, from zero. */
  datatype Ranked = Ranked(hit: Hit, rank: nat)

  datatype Acc = Acc(hit: Hit, score: real, local: bool)

  function Contribution(rank: nat): (c: real)
    ensures c > 0.0
  {
    1.0 / (61 + rank) as real
  }

  function Min(a: nat, b: nat): nat {
    if a <= b then a else b
  }

  function Or<T>(first: Option<T>, second: Option<T>): Option<T> {
    if first.Some? then first else second
  }

  /** `merge_signals`. */
  function MergeSignals(target: Hit, incoming: Hit): Hit {
    var s, t := target.signals, incoming.signals;
    target.(signals := Signals(Or(s.bm25, t.bm25), Or(s.cosine, t.cosine), Or(s.semanticRank, t.semanticRank),
                               Or(s.lexicalRank, t.lexicalRank), Or(s.space, t.space)),
            explanation := if incoming.explanation.neighbor && target.explanation.matchedTerms == []
                           then incoming.explanation else target.explanation)
  }

  // ----------------------------------------------------------- closed form

  /** The first `n` hits of a list with their ranks. */
  function Ranks(list: seq<Hit>, n: nat): (out: seq<Ranked>)
    requires n <= |list|
    ensures |out| == n
    ensures forall i :: 0 <= i < n ==> out[i] == Ranked(list[i], i)
  {
    if n == 0 then [] else Ranks(list, n - 1) + [Ranked(list[n - 1], n - 1)]
  }

  /** The hits the cap lets in, in the order they are seen. */
  function Admit(lists: seq<seq<Hit>>, cap: nat): (out: seq<Ranked>)
    ensures |out| <= cap
  {
    if lists == [] then []
    else
      var n := Min(|lists[0]|, cap);
      Ranks(lists[0], n) + Admit(lists[1..], cap - n)
  }

  function TotalLength(lists: seq<seq<Hit>>): nat {
    if lists == [] then 0 else |lists[0]| + TotalLength(lists[1..])
  }

  /** What the cap lets in is a prefix of all hits. */
  predicate AdmitsPrefix(lists: seq<seq<Hit>>, cap: nat) {
    var all := Admit(lists, TotalLength(lists));
    |all| == TotalLength(lists) && Admit(lists, cap) == all[..Min(|all|, cap)]
  }

  /** The cap keeps a prefix of the concatenated lists. */
  lemma {:induction false} AdmitIsPrefix(lists: seq<seq<Hit>>, cap: nat)
    ensures AdmitsPrefix(lists, cap)
  {
    if lists != [] {
      AdmitIsPrefix(lists[1..], cap - Min(|lists[0]|, cap));
      PrefixStep(lists, cap);
    }
  }

  lemma PrefixStep(lists: seq<seq<Hit>>, cap: nat)
    requires lists != [] && AdmitsPrefix(lists[1..], cap - Min(|lists[0]|, cap))
    ensures AdmitsPrefix(lists, cap)
  {
    var n, first, others := Min(|lists[0]|, cap), Ranks(lists[0], |lists[0]|), lists[1..];
    var rest := Admit(others, TotalLength(others));
    RanksPrefix(lists[0], n);
    PrefixSplit(first, Ranks(lists[0], n), rest, Admit(others, cap - n), cap);
    PrefixReached(lists, cap, first + rest);
  }

  lemma PrefixReached(lists: seq<seq<Hit>>, cap: nat, all: seq<Ranked>)
    requires |all| == TotalLength(lists) && Admit(lists, |all|) == all && Admit(lists, cap) == all[..Min(|all|, cap)]
    ensures AdmitsPrefix(lists, cap)
  {
  }

  lemma RanksPrefix(list: seq<Hit>, n: nat)
    requires n <= |list|
    ensures Ranks(list, n) == Ranks(list, |list|)[..n]
  {
  }

  lemma PrefixSplit<T>(a: seq<T>, head: seq<T>, b: seq<T>, tail: seq<T>, cap: nat)
    requires head == a[..Min(|a|, cap)] && tail == b[..Min(|b|, cap - |head|)]
    ensures (a + b)[..Min(|a + b|, cap)] == head + tail
  {
  }

  /** Some of the first `n` hits has this hash and is local. */
  predicate AnyLocal(hits: seq<Ranked>, n: nat, h: TextHash)
    requires n <= |hits|
  {
    n > 0 && (AnyLocal(hits, n - 1, h) || (hits[n - 1].hit.hash == h && hits[n - 1].hit.local))
  }

  predicate Counts(hit: Hit, h: TextHash, localOnly: bool) {
    hit.hash == h && (hit.local || !localOnly)
  }

  function Total(hits: seq<Ranked>, n: nat, h: TextHash, localOnly: bool): (sum: real)
    requires n <= |hits|
    ensures sum >= 0.0
  {
    if n == 0 then 0.0
    else
      var last := if Counts(hits[n - 1].hit, h, localOnly) then Contribution(hits[n - 1].rank) else 0.0;
      Total(hits, n - 1, h, localOnly) + last
  }

  /** The first hit that counts; the local ones after it fill in the signals it lacks. */
  function Chosen(hits: seq<Ranked>, n: nat, h: TextHash, localOnly: bool): (chosen: Option<Hit>)
    requires n <= |hits|
    ensures chosen.Some? ==> chosen.value.hash == h && (localOnly ==> chosen.value.local)
  {
    if n == 0 then None
    else
      var before, hit := Chosen(hits, n - 1, h, localOnly), hits[n - 1].hit;
      if !Counts(hit, h, localOnly) then before
      else if before.None? then Some(hit)
      else if localOnly then Some(MergeSignals(before.value, hit))
      else before
  }

  /** What fusion knows of a hash: local as soon as any hit is, and then on the local hits alone. */
  function Entry(hits: seq<Ranked>, n: nat, h: TextHash): (acc: Option<Acc>)
    requires n <= |hits|
  {
    var localOnly := AnyLocal(hits, n, h);
    var chosen := Chosen(hits, n, h, localOnly);
    if chosen.None? then None else Some(Acc(chosen.value, Total(hits, n, h, localOnly), localOnly))
  }

  /** `x` is what the accumulator holds for `h`; its hit carries the running score only at the end. */
  ghost predicate Holds(x: Acc, acc: Option<Acc>) {
    acc.Some? && x.score == acc.value.score && x.local == acc.value.local
        && x.hit.(score := 0.0) == acc.value.hit.(score := 0.0)
  }

  ghost predicate EntryHeld(best: map<TextHash, Acc>, hits: seq<Ranked>, n: nat, h: TextHash)
    requires n <= |hits|
  {
    if h in best then Holds(best[h], Entry(hits, n, h)) else Entry(hits, n, h).None?
  }

  ghost predicate Represents(best: map<TextHash, Acc>, hits: seq<Ranked>, n: nat)
    requires n <= |hits|
  {
    forall h :: EntryHeld(best, hits, n, h)
  }

  // --------------------------------------------------------------- the loop

  /** Without local hits the local view is empty. */
  lemma {:induction false} NoLocalNothing(hits: seq<Ranked>, n: nat, h: TextHash)
    requires n <= |hits| && !AnyLocal(hits, n, h)
    ensures Total(hits, n, h, true) == 0.0 && Chosen(hits, n, h, true).None?
  {
    if n > 0 {
      NoLocalNothing(hits, n - 1, h);
    }
  }

  lemma {:induction false} LocalSomething(hits: seq<Ranked>, n: nat, h: TextHash)
    requires n <= |hits| && AnyLocal(hits, n, h)
    ensures Chosen(hits, n, h, true).Some?
  {
    if !(hits[n - 1].hit.hash == h && hits[n - 1].hit.local) {
      LocalSomething(hits, n - 1, h);
    }
  }

  lemma OtherHashKept(hits: seq<Ranked>, n: nat, h: TextHash)
    requires n < |hits| && hits[n].hit.hash != h
    ensures Entry(hits, n + 1, h) == Entry(hits, n, h)
  {
  }

  /** The body of the inner loop. */
  method AdmitOne(best: map<TextHash, Acc>, ghost hits: seq<Ranked>, ghost n: nat, hit: Hit, rank: nat)
    returns (next: map<TextHash, Acc>)
    requires n < |hits| && hits[n] == Ranked(hit, rank) && Represents(best, hits, n)
    ensures Represents(next, hits, n + 1)
  {
    var key := hit.hash;
    var contribution := Contribution(rank);
    next := best;
    assert EntryHeld(best, hits, n, key);
    if key in best {
      var existing := best[key];
      if existing.local {
        if hit.local {
          next := best[key := Acc(MergeSignals(existing.hit, hit), existing.score + contribution, true)];
        }
      } else if hit.local {
        next := best[key := Acc(hit.(score := contribution), contribution, true)];
      } else {
        next := best[key := existing.(score := existing.score + contribution)];
      }
    } else {
      next := best[key := Acc(hit.(score := contribution), contribution, hit.local)];
    }
    EntryStep(hits, n, key);
    NextHeld(best, next, hits, n, n + 1, key);
  }

  lemma NextHeld(best: map<TextHash, Acc>, next: map<TextHash, Acc>, hits: seq<Ranked>, n: nat, m: nat, key: TextHash)
    requires n < |hits| && m == n + 1 && hits[n].hit.hash == key && Represents(best, hits, n)
    requires next == best || (key in next && next == best[key := next[key]])
    requires EntryHeld(next, hits, m, key)
    ensures Represents(next, hits, m)
  {
    forall h {:trigger EntryHeld(next, hits, m, h)} ensures EntryHeld(next, hits, m, h) {
      if h != key {
        assert EntryHeld(best, hits, n, h);
        OtherHashKept(hits, n, h);
      }
    }
  }

  /** How one more hit with the hash changes the closed form: the branches of the loop body. */
  lemma EntryStep(hits: seq<Ranked>, n: nat, key: TextHash)
    requires n < |hits| && hits[n].hit.hash == key
    ensures var (hit, c) := (hits[n].hit, Contribution(hits[n].rank));
            Entry(hits, n + 1, key)
            == match Entry(hits, n, key)
               case None => Some(Acc(hit, c, hit.local))
               case Some(acc) =>
                 if acc.local then
                   if hit.local then Some(Acc(MergeSignals(acc.hit, hit), acc.score + c, true)) else Some(acc)
                 else if hit.local then Some(Acc(hit, c, true))
                 else Some(Acc(acc.hit, acc.score + c, false))
  {
    if AnyLocal(hits, n, key) {
      LocalSomething(hits, n, key);
    } else {
      NoLocalNothing(hits, n, key);
      if Chosen(hits, n, key, false).None? {
        NothingChosen(hits, n, key);
      }
    }
  }

  lemma {:induction false} NothingChosen(hits: seq<Ranked>, n: nat, h: TextHash)
    requires n <= |hits| && Chosen(hits, n, h, false).None?
    ensures !AnyLocal(hits, n, h) && Total(hits, n, h, false) == 0.0
  {
    if n > 0 {
      NothingChosen(hits, n - 1, h);
    }
  }

  // ----------------------------------------------------------------- output

  /** The comparator of `sort_by`: score downwards, then path, anchor and segment id. */
  predicate Before(a: Hit, b: Hit) {
    a.score > b.score || (a.score == b.score &&
      (a.path < b.path || (a.path == b.path &&
        (a.anchor < b.anchor || (a.anchor == b.anchor && a.segment < b.segment)))))
  }

  lemma BeforeIsOrder()
    ensures Sorting.StrictWeak(Before)
  {
  }

  function Hashes(hits: seq<Ranked>): set<TextHash> {
    set i | 0 <= i < |hits| :: hits[i].hit.hash
  }

  lemma {:induction false} AppearsHasEntry(hits: seq<Ranked>, n: nat, h: TextHash)
    requires n <= |hits|
    ensures Entry(hits, n, h).Some? <==> exists i :: 0 <= i < n && hits[i].hit.hash == h
  {
    if n > 0 {
      AppearsHasEntry(hits, n - 1, h);
      if hits[n - 1].hit.hash == h {
        EntryStep(hits, n - 1, h);
      } else {
        OtherHashKept(hits, n - 1, h);
      }
    }
  }

  /** The hit that stands for a hash in the output. */
  ghost function Final(hits: seq<Ranked>, h: TextHash): (hit: Hit)
    requires h in Hashes(hits)
    ensures hit.hash == h
  {
    AppearsHasEntry(hits, |hits|, h);
    var acc := Entry(hits, |hits|, h).value;
    acc.hit.(score := acc.score)
  }

  ghost function Finals(hits: seq<Ranked>, keys: set<TextHash>): set<Hit>
    requires keys <= Hashes(hits)
  {
    set h | h in keys :: Final(hits, h)
  }

  /** `out` lists each admitted hash once, best first. */
  ghost predicate Fused(hits: seq<Ranked>, out: seq<Hit>) {
    Sorting.Sorted(Before, out) && multiset(out) == multiset(Finals(hits, Hashes(hits)))
  }

  datatype FusionReport = FusionReport(hits: seq<Hit>, admitted: nat, unique: nat, duplicates: nat)

  /** The map's values, in whatever order the map yields them. */
  method IntoValues(best: map<TextHash, Acc>, ghost hits: seq<Ranked>) returns (out: seq<Hit>)
    requires Represents(best, hits, |hits|)
    ensures multiset(out) == multiset(Finals(hits, Hashes(hits)))
  {
    KeysAreHashes(best, hits);
    var todo := best.Keys;
    out := [];
    while todo != {}
      invariant todo <= best.Keys == Hashes(hits)
      invariant multiset(out) == multiset(Finals(hits, best.Keys - todo))
    {
      var h :| h in todo;
      HeldIsFinal(best, hits, h);
      FinalsListed(hits, best.Keys - todo, h, out);
      out := out + [best[h].hit.(score := best[h].score)];
      assert best.Keys - (todo - {h}) == (best.Keys - todo) + {h};
      todo := todo - {h};
    }
    assert best.Keys - todo == best.Keys;
  }

  lemma HeldIsFinal(best: map<TextHash, Acc>, hits: seq<Ranked>, h: TextHash)
    requires Represents(best, hits, |hits|) && h in best && h in Hashes(hits)
    ensures best[h].hit.(score := best[h].score) == Final(hits, h)
  {
    assert EntryHeld(best, hits, |hits|, h);
  }

  lemma FinalsListed(hits: seq<Ranked>, keys: set<TextHash>, h: TextHash, out: seq<Hit>)
    requires keys + {h} <= Hashes(hits) && h !in keys && multiset(out) == multiset(Finals(hits, keys))
    ensures multiset(out + [Final(hits, h)]) == multiset(Finals(hits, keys + {h}))
  {
    FinalsGrow(hits, keys, h);
  }

  lemma KeysAreHashes(best: map<TextHash, Acc>, hits: seq<Ranked>)
    requires Represents(best, hits, |hits|)
    ensures best.Keys == Hashes(hits)
  {
    forall h | h in best.Keys ensures h in Hashes(hits) {
      assert EntryHeld(best, hits, |hits|, h);
      AppearsHasEntry(hits, |hits|, h);
    }
    forall h | h in Hashes(hits) ensures h in best.Keys {
      assert EntryHeld(best, hits, |hits|, h);
      AppearsHasEntry(hits, |hits|, h);
    }
  }

  lemma FinalsGrow(hits: seq<Ranked>, keys: set<TextHash>, h: TextHash)
    requires keys + {h} <= Hashes(hits) && h !in keys
    ensures Final(hits, h) !in Finals(hits, keys)
    ensures Finals(hits, keys + {h}) == Finals(hits, keys) + {Final(hits, h)}
  {
  }

  /** The inner loop: one list, until it ends or the cap is reached. */
  method AdmitList(best: map<TextHash, Acc>, ghost all: seq<Ranked>, admitted: nat, list: seq<Hit>)
    returns (next: map<TextHash, Acc>, total: nat)
    requires admitted <= MAX_FUSION_CANDIDATES && admitted + Min(|list|, MAX_FUSION_CANDIDATES - admitted) <= |all|
    requires var n := Min(|list|, MAX_FUSION_CANDIDATES - admitted); all[admitted..admitted + n] == Ranks(list, n)
    requires Represents(best, all, admitted)
    ensures total == admitted + Min(|list|, MAX_FUSION_CANDIDATES - admitted)
    ensures Represents(next, all, total)
  {
    ghost var n := Min(|list|, MAX_FUSION_CANDIDATES - admitted);
    next, total := best, admitted;
    var rank := 0;
    while rank < |list| && total < MAX_FUSION_CANDIDATES
      invariant 0 <= rank <= n && total == admitted + rank
      invariant Represents(next, all, total)
    {
      assert all[total] == all[admitted..admitted + n][rank];
      next := AdmitOne(next, all, total, list[rank], rank);
      total := total + 1;
      rank := rank + 1;
    }
  }

  lemma AdmitNext(all: seq<Ranked>, k: nat, lists: seq<seq<Hit>>, i: nat, cap: nat)
    requires k <= |all| && i < |lists| && all[k..] == Admit(lists[i..], cap)
    ensures var n := Min(|lists[i]|, cap);
            && k + n <= |all| && all[k..k + n] == Ranks(lists[i], n)
            && all[k + n..] == Admit(lists[i + 1..], cap - n)
  {
    var n := Min(|lists[i]|, cap);
    assert lists[i..][1..] == lists[i + 1..];
    assert all[k..k + n] == all[k..][..n];
    assert all[k + n..] == all[k..][n..];
  }

  /** How many hits are admitted from the first `i` lists. */
  ghost function Offset(lists: seq<seq<Hit>>, i: nat): (n: nat)
    requires i <= |lists|
    ensures n <= MAX_FUSION_CANDIDATES
  {
    if i == 0 then 0 else Offset(lists, i - 1) + Min(|lists[i - 1]|, MAX_FUSION_CANDIDATES - Offset(lists, i - 1))
  }

  /** What is still to be admitted when list `i` is reached. */
  ghost predicate Left(all: seq<Ranked>, lists: seq<seq<Hit>>, i: nat, done: nat)
    requires i <= |lists| && done <= MAX_FUSION_CANDIDATES
  {
    done <= |all| && all[done..] == Admit(lists[i..], MAX_FUSION_CANDIDATES - done)
  }

  lemma LeftAtFirst(lists: seq<seq<Hit>>)
    ensures Left(Admit(lists, MAX_FUSION_CANDIDATES), lists, 0, 0)
  {
    var all := Admit(lists, MAX_FUSION_CANDIDATES);
    assert lists[0..] == lists && all[0..] == all;
  }

  lemma LeftNext(all: seq<Ranked>, lists: seq<seq<Hit>>, i: nat, done: nat)
    requires i < |lists| && done <= MAX_FUSION_CANDIDATES && Left(all, lists, i, done)
    ensures Left(all, lists, i + 1, done + Min(|lists[i]|, MAX_FUSION_CANDIDATES - done))
  {
    AdmitNext(all, done, lists, i, MAX_FUSION_CANDIDATES - done);
  }

  lemma LeftHere(all: seq<Ranked>, lists: seq<seq<Hit>>, i: nat, done: nat)
    requires i < |lists| && done <= MAX_FUSION_CANDIDATES && Left(all, lists, i, done)
    ensures var n := Min(|lists[i]|, MAX_FUSION_CANDIDATES - done);
            done + n <= |all| && all[done..done + n] == Ranks(lists[i], n)
  {
    AdmitNext(all, done, lists, i, MAX_FUSION_CANDIDATES - done);
  }

  lemma {:induction false} AdmitFrom(lists: seq<seq<Hit>>, i: nat)
    requires i <= |lists|
    ensures Left(Admit(lists, MAX_FUSION_CANDIDATES), lists, i, Offset(lists, i))
  {
    if i == 0 {
      LeftAtFirst(lists);
    } else {
      AdmitFrom(lists, i - 1);
      LeftNext(Admit(lists, MAX_FUSION_CANDIDATES), lists, i - 1, Offset(lists, i - 1));
    }
  }

  lemma {:induction false} ListAdmitted(lists: seq<seq<Hit>>, i: nat)
    requires i < |lists|
    ensures var all, k := Admit(lists, MAX_FUSION_CANDIDATES), Offset(lists, i);
            var n := Min(|lists[i]|, MAX_FUSION_CANDIDATES - k);
            k + n <= |all| && all[k..k + n] == Ranks(lists[i], n)
  {
    AdmitFrom(lists, i);
    LeftHere(Admit(lists, MAX_FUSION_CANDIDATES), lists, i, Offset(lists, i));
  }

  lemma OffsetEnd(lists: seq<seq<Hit>>)
    ensures Offset(lists, |lists|) == |Admit(lists, MAX_FUSION_CANDIDATES)|
  {
    AdmitFrom(lists, |lists|);
    assert lists[|lists|..] == [];
  }

  /** The outer loop. */
  method Accumulate(lists: seq<seq<Hit>>) returns (best: map<TextHash, Acc>, admitted: nat)
    ensures var all := Admit(lists, MAX_FUSION_CANDIDATES);
            admitted == |all| && Represents(best, all, admitted)
  {
    ghost var all := Admit(lists, MAX_FUSION_CANDIDATES);
    best, admitted := map[], 0;
    NothingYet(all);
    var i := 0;
    while i < |lists|
      invariant 0 <= i <= |lists| && admitted == Offset(lists, i) <= |all|
      invariant Represents(best, all, admitted)
    {
      ListAdmitted(lists, i);
      best, admitted := AdmitList(best, all, admitted, lists[i]);
      i := i + 1;
    }
    OffsetEnd(lists);
  }

  /** `rrf_merge`. */
  method RrfMerge(lists: seq<seq<Hit>>) returns (report: FusionReport)
    ensures var hits := Admit(lists, MAX_FUSION_CANDIDATES);
            && Fused(hits, report.hits)
            && report.admitted == |hits| == Min(TotalLength(lists), MAX_FUSION_CANDIDATES)
            && report.unique == |report.hits| == |Hashes(hits)|
            && report.duplicates == report.admitted - report.unique
  {
    var best, admitted := Accumulate(lists);
    ghost var all := Admit(lists, MAX_FUSION_CANDIDATES);
    var values := IntoValues(best, all);
    BeforeIsOrder();
    var sorted := Sorting.Sort(Before, values);
    AdmitIsPrefix(lists, MAX_FUSION_CANDIDATES);
    UniqueCount(all, Hashes(all), sorted);
    report := FusionReport(sorted, admitted, |sorted|, admitted - |sorted|);
  }

  lemma NothingYet(hits: seq<Ranked>)
    ensures Represents(map[], hits, 0)
  {
    var none: map<TextHash, Acc> := map[];
    forall h {:trigger EntryHeld(none, hits, 0, h)} ensures EntryHeld(none, hits, 0, h) {
    }
  }

  lemma {:induction false} FinalsSize(hits: seq<Ranked>, keys: set<TextHash>)
    requires keys <= Hashes(hits)
    ensures |Finals(hits, keys)| == |keys|
    decreases |keys|
  {
    if keys != {} {
      var h :| h in keys;
      FinalsSize(hits, keys - {h});
      FinalsGrow(hits, keys - {h}, h);
      assert keys - {h} + {h} == keys;
    }
  }

  lemma {:induction false} HashesSize(hits: seq<Ranked>)
    ensures |Hashes(hits)| <= |hits|
  {
    if hits != [] {
      var init := hits[..|hits| - 1];
      HashesSize(init);
      assert Hashes(hits) == Hashes(init) + {hits[|hits| - 1].hit.hash};
    }
  }

  lemma UniqueCount(hits: seq<Ranked>, keys: set<TextHash>, out: seq<Hit>)
    requires keys == Hashes(hits) && multiset(out) == multiset(Finals(hits, keys))
    ensures |out| == |keys| <= |hits|
  {
    FinalsSize(hits, keys);
    HashesSize(hits);
    assert |multiset(out)| == |out|;
  }
}
