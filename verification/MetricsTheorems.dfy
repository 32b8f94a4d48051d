/** nDCG and recall stay in [0, 1] exactly when the results compared are pairwise distinct. */
module MetricsTheorems {
  import opened Prelude
  import opened RealArithmetic
  import opened Metrics

  // -------------------------------------------------- laws of a proper scale

  ghost predicate GainGrows(s: Scale, x: real, y: real) {
    x <= y ==> s.gain(x) <= s.gain(y)
  }

  ghost predicate DiscountFalls(s: Scale, i: nat, j: nat) {
    i <= j ==> 0.0 < s.discount(j) <= s.discount(i)
  }

  ghost predicate Proper(s: Scale) {
    && s.gain(0.0) == 0.0 && s.gain(1.0) > 0.0
    && (forall x, y {:trigger GainGrows(s, x, y)} :: GainGrows(s, x, y))
    && (forall i, j {:trigger DiscountFalls(s, i, j)} :: DiscountFalls(s, i, j))
  }

  ghost predicate Grows(worth: Worth, x: real, y: real, i: nat) {
    x <= y ==> worth(x, i) <= worth(y, i)
  }

  /** Putting the better grade first is worth no less. */
  ghost predicate Swaps(worth: Worth, x: real, y: real, i: nat, j: nat) {
    x <= y && i <= j ==> worth(x, i) + worth(y, j) <= worth(y, i) + worth(x, j)
  }

  ghost predicate Anchored(worth: Worth, i: nat) {
    worth(0.0, i) == 0.0 && worth(1.0, i) > 0.0
  }

  ghost predicate Lawful(worth: Worth) {
    && (forall i {:trigger Anchored(worth, i)} :: Anchored(worth, i))
    && (forall x, y, i {:trigger Grows(worth, x, y, i)} :: Grows(worth, x, y, i))
    && (forall x, y, i, j {:trigger Swaps(worth, x, y, i, j)} :: Swaps(worth, x, y, i, j))
  }

  /** A growing gain under a positive falling discount is lawful. */
  lemma DiscountedIsLawful(s: Scale)
    requires Proper(s)
    ensures Lawful(Discounted(s))
  {
    var worth := Discounted(s);
    forall i {:trigger Anchored(worth, i)} ensures Anchored(worth, i) {
      assert DiscountFalls(s, i, i);
      ProductsGrow(s.gain(0.0), s.gain(1.0), s.discount(i));
    }
    forall x, y, i {:trigger Grows(worth, x, y, i)} ensures Grows(worth, x, y, i) {
      if x <= y {
        assert DiscountFalls(s, i, i) && GainGrows(s, x, y);
        ProductsGrow(s.gain(x), s.gain(y), s.discount(i));
      }
    }
    forall x, y, i, j {:trigger Swaps(worth, x, y, i, j)} ensures Swaps(worth, x, y, i, j) {
      if x <= y && i <= j {
        assert DiscountFalls(s, i, j) && GainGrows(s, x, y);
        ProductsSwap(s.gain(x), s.gain(y), s.discount(i), s.discount(j));
      }
    }
  }

  // ------------------------------------------------------------ rearrangement

  lemma {:induction false} DcgOfPrefix(worth: Worth, grades: map<Ref, real>, a: seq<Ref>, b: seq<Ref>, n: nat)
    requires n <= |a| && n <= |b| && forall i :: 0 <= i < n ==> a[i] == b[i]
    ensures Dcg(worth, grades, a, n) == Dcg(worth, grades, b, n)
  {
    if n > 0 {
      DcgOfPrefix(worth, grades, a, b, n - 1);
    }
  }

  /** Moving the smallest grade to the end does not lower the sum. */
  lemma {:induction false} MinimumLast(worth: Worth, grades: map<Ref, real>, refs: seq<Ref>, p: nat, n: nat)
    requires Lawful(worth) && p < n <= |refs|
    requires forall i :: 0 <= i < n ==> GradeAtLeast(grades, refs[i], refs[p])
    ensures Dcg(worth, grades, refs, n) <= Dcg(worth, grades, Without(refs, p), n - 1)
            + worth(Grade(grades, refs[p]), n - 1)
  {
    if n == p + 1 {
      DcgOfPrefix(worth, grades, refs, Without(refs, p), p);
    } else {
      MinimumLast(worth, grades, refs, p, n - 1);
      assert Without(refs, p)[n - 2] == refs[n - 1];
      assert GradeAtLeast(grades, refs[n - 1], refs[p]);
      assert Swaps(worth, Grade(grades, refs[p]), Grade(grades, refs[n - 1]), n - 2, n - 1);
    }
  }

  /** Some reference among the first `n` has the smallest grade. */
  lemma {:induction false} SmallestGrade(grades: map<Ref, real>, refs: seq<Ref>, n: nat) returns (p: nat)
    requires 0 < n <= |refs|
    ensures p < n && forall i :: 0 <= i < n ==> GradeAtLeast(grades, refs[i], refs[p])
  {
    if n == 1 {
      p := 0;
    } else {
      p := SmallestGrade(grades, refs, n - 1);
      if Grade(grades, refs[n - 1]) < Grade(grades, refs[p]) {
        p := n - 1;
      }
    }
  }

  lemma {:induction false} ElementsBounded(refs: seq<Ref>, n: nat)
    requires n <= |refs|
    ensures |Elements(refs, n)| <= n
  {
    if n > 0 {
      ElementsBounded(refs, n - 1);
      ElementsGrow(refs, n);
    }
  }

  lemma {:induction false} ElementsDistinct(refs: seq<Ref>, n: nat)
    requires n <= |refs| && Distinct(refs)
    ensures |Elements(refs, n)| == n
  {
    if n > 0 {
      ElementsDistinct(refs, n - 1);
      ElementsGrow(refs, n);
      NextIsNew(refs, n);
    }
  }

  /** Pigeonhole: `n` distinct references cannot all be better than the `n`-th best. */
  lemma SmallestIsBelow(grades: map<Ref, real>, refs: seq<Ref>, p: nat, keys: seq<Ref>)
    requires Distinct(refs) && IsIdeal(grades, keys) && p < |refs| <= |keys|
    requires forall i :: 0 <= i < |refs| ==> GradeAtLeast(grades, refs[i], refs[p])
    ensures Grade(grades, refs[p]) <= Grade(grades, keys[|refs| - 1])
  {
    var n := |refs|;
    if Grade(grades, refs[p]) > Grade(grades, keys[n - 1]) {
      forall i | 0 <= i < n ensures refs[i] in Elements(keys, n - 1) {
        assert GradeAtLeast(grades, refs[i], refs[p]);
        BetterIsEarlier(grades, refs[i], keys, n - 1);
      }
      SubsetNoLarger(Elements(refs, n), Elements(keys, n - 1));
      ElementsDistinct(refs, n);
      ElementsBounded(keys, n - 1);
    }
  }

  lemma BetterIsEarlier(grades: map<Ref, real>, r: Ref, keys: seq<Ref>, q: nat)
    requires IsIdeal(grades, keys) && q < |keys| && Grade(grades, r) > Grade(grades, keys[q])
    ensures r in Elements(keys, q)
  {
    assert keys[q] in keys && r in keys;
    var i :| 0 <= i < |keys| && keys[i] == r;
    assert q <= i ==> GradeAtLeast(grades, keys[q], keys[i]);
  }

  /** Past the positive grades nothing is left to gain. */
  lemma SmallestIsNothing(grades: map<Ref, real>, refs: seq<Ref>, p: nat, keys: seq<Ref>)
    requires Distinct(refs) && IsIdeal(grades, keys) && p < |refs| && |keys| < |refs|
    requires forall i :: 0 <= i < |refs| ==> GradeAtLeast(grades, refs[i], refs[p])
    ensures Grade(grades, refs[p]) <= 0.0
  {
    if Grade(grades, refs[p]) > 0.0 {
      forall i | 0 <= i < |refs| ensures refs[i] in Elements(keys, |keys|) {
        assert GradeAtLeast(grades, refs[i], refs[p]);
        assert refs[i] in keys;
      }
      SubsetNoLarger(Elements(refs, |refs|), Elements(keys, |keys|));
      ElementsDistinct(refs, |refs|);
      ElementsBounded(keys, |keys|);
    }
  }

  /** The smallest of `n` distinct references is worth no more at the end than the ideal order's entry there. */
  lemma SmallestAdds(worth: Worth, grades: map<Ref, real>, refs: seq<Ref>, p: nat, keys: seq<Ref>)
    requires Lawful(worth) && Distinct(refs) && IsIdeal(grades, keys) && p < |refs|
    requires forall i :: 0 <= i < |refs| ==> GradeAtLeast(grades, refs[i], refs[p])
    ensures Dcg(worth, grades, keys, Cut(|refs| - 1, |keys|)) + worth(Grade(grades, refs[p]), |refs| - 1)
            <= Dcg(worth, grades, keys, Cut(|refs|, |keys|))
  {
    var n := |refs|;
    if n <= |keys| {
      SmallestIsBelow(grades, refs, p, keys);
      assert Grows(worth, Grade(grades, refs[p]), Grade(grades, keys[n - 1]), n - 1);
    } else {
      SmallestIsNothing(grades, refs, p, keys);
      assert Anchored(worth, n - 1) && Grows(worth, Grade(grades, refs[p]), 0.0, n - 1);
    }
  }

  lemma WithoutStaysDistinct(refs: seq<Ref>, p: nat)
    requires p < |refs| && Distinct(refs)
    ensures Distinct(Without(refs, p))
  {
  }

  /** Rearrangement: no order of distinct references gains more than the ideal one. */
  lemma {:induction false} DistinctBelowIdeal(worth: Worth, grades: map<Ref, real>, refs: seq<Ref>, keys: seq<Ref>)
    requires Lawful(worth) && Distinct(refs) && IsIdeal(grades, keys)
    ensures Dcg(worth, grades, refs, |refs|) <= Dcg(worth, grades, keys, Cut(|refs|, |keys|))
    decreases |refs|
  {
    if |refs| > 0 {
      var p := SmallestGrade(grades, refs, |refs|);
      MinimumLast(worth, grades, refs, p, |refs|);
      WithoutStaysDistinct(refs, p);
      DistinctBelowIdeal(worth, grades, Without(refs, p), keys);
      SmallestAdds(worth, grades, refs, p, keys);
    }
  }

  lemma {:induction false} IdealGrows(worth: Worth, grades: map<Ref, real>, keys: seq<Ref>, m: nat, n: nat)
    requires Lawful(worth) && IsIdeal(grades, keys) && m <= n <= |keys|
    ensures Dcg(worth, grades, keys, m) <= Dcg(worth, grades, keys, n)
  {
    if m < n {
      IdealGrows(worth, grades, keys, m, n - 1);
      assert keys[n - 1] in keys;
      assert Anchored(worth, n - 1) && Grows(worth, 0.0, Grade(grades, keys[n - 1]), n - 1);
    }
  }

  lemma RatioAtMostOne(x: real, y: real)
    requires 0.0 <= y && x <= y
    ensures Ratio(x, y) <= 1.0
  {
    if y != 0.0 {
      QuotientAgainstOne(x, y);
    }
  }

  lemma RatioAboveOne(x: real, y: real)
    requires 0.0 < y < x
    ensures Ratio(x, y) > 1.0
  {
    QuotientAgainstOne(x, y);
  }

  lemma RatioNonNegative(x: real, y: real)
    requires 0.0 <= y && 0.0 <= x
    ensures Ratio(x, y) >= 0.0
  {
    if y != 0.0 {
      QuotientAgainstOne(x, y);
    }
  }

  /** At most 1 for every grade map, cut-off and list whose first `k` references are distinct. */
  lemma NdcgAtMostOne(worth: Worth, grades: map<Ref, real>, refs: seq<Ref>, k: nat, score: real)
    requires Lawful(worth) && IsNdcg(worth, grades, refs, k, score) && Distinct(refs[..Cut(k, |refs|)])
    ensures score <= 1.0
  {
    var keys :| IsIdeal(grades, keys)
        && score == Ratio(Dcg(worth, grades, refs, Cut(k, |refs|)), Dcg(worth, grades, keys, Cut(k, |keys|)));
    CutBelowIdeal(worth, grades, refs, k, keys);
    RatioAtMostOne(Dcg(worth, grades, refs, Cut(k, |refs|)), Dcg(worth, grades, keys, Cut(k, |keys|)));
  }

  lemma CutBelowIdeal(worth: Worth, grades: map<Ref, real>, refs: seq<Ref>, k: nat, keys: seq<Ref>)
    requires Lawful(worth) && IsIdeal(grades, keys) && Distinct(refs[..Cut(k, |refs|)])
    ensures Dcg(worth, grades, refs, Cut(k, |refs|)) <= Dcg(worth, grades, keys, Cut(k, |keys|))
    ensures 0.0 <= Dcg(worth, grades, keys, Cut(k, |keys|))
  {
    var n := Cut(k, |refs|);
    DcgOfPrefix(worth, grades, refs, refs[..n], n);
    DistinctBelowIdeal(worth, grades, refs[..n], keys);
    IdealGrows(worth, grades, keys, Cut(n, |keys|), Cut(k, |keys|));
    IdealGrows(worth, grades, keys, 0, Cut(k, |keys|));
  }

  /** At least 0 when no grade is negative; repetitions do not matter here. */
  lemma NdcgAtLeastZero(worth: Worth, grades: map<Ref, real>, refs: seq<Ref>, k: nat, score: real)
    requires Lawful(worth) && IsNdcg(worth, grades, refs, k, score) && forall r :: r in grades ==> grades[r] >= 0.0
    ensures score >= 0.0
  {
    var keys :| IsIdeal(grades, keys)
        && score == Ratio(Dcg(worth, grades, refs, Cut(k, |refs|)), Dcg(worth, grades, keys, Cut(k, |keys|)));
    IdealGrows(worth, grades, keys, 0, Cut(k, |keys|));
    DcgNonNegative(worth, grades, refs, Cut(k, |refs|));
    RatioNonNegative(Dcg(worth, grades, refs, Cut(k, |refs|)), Dcg(worth, grades, keys, Cut(k, |keys|)));
  }

  lemma {:induction false} DcgNonNegative(worth: Worth, grades: map<Ref, real>, refs: seq<Ref>, n: nat)
    requires Lawful(worth) && n <= |refs| && forall r :: r in grades ==> grades[r] >= 0.0
    ensures Dcg(worth, grades, refs, n) >= 0.0
  {
    if n > 0 {
      DcgNonNegative(worth, grades, refs, n - 1);
      assert Anchored(worth, n - 1) && Grows(worth, 0.0, Grade(grades, refs[n - 1]), n - 1);
    }
  }

  // --------------------------------------------- repetitions break the bound

  /** Grade 1 for each of these references. */
  function Uniform(refs: set<Ref>): map<Ref, real> {
    map r | r in refs :: 1.0
  }

  /** With grade 1 everywhere the sums differ by their lengths only. */
  lemma {:induction false} UniformDcg(worth: Worth, all: set<Ref>, a: seq<Ref>, b: seq<Ref>, m: nat, n: nat)
    requires Lawful(worth) && m <= n <= |a| && m <= |b|
    requires forall i :: 0 <= i < n ==> a[i] in all
    requires forall i :: 0 <= i < m ==> b[i] in all
    ensures Dcg(worth, Uniform(all), b, m) <= Dcg(worth, Uniform(all), a, n)
    ensures m < n ==> Dcg(worth, Uniform(all), b, m) < Dcg(worth, Uniform(all), a, n)
  {
    if n > 0 {
      assert Anchored(worth, n - 1);
      assert Grade(Uniform(all), a[n - 1]) == 1.0;
      if m < n {
        UniformDcg(worth, all, a, b, m, n - 1);
      } else {
        UniformDcg(worth, all, a, b, m - 1, n - 1);
      }
    }
  }

  lemma {:induction false} RepetitionShrinks(refs: seq<Ref>)
    requires !Distinct(refs)
    ensures |Elements(refs, |refs|)| < |refs|
  {
    var init := refs[..|refs| - 1];
    var last := refs[|refs| - 1];
    assert Elements(refs, |refs|) == Elements(init, |init|) + {last};
    if Distinct(init) {
      ElementsBounded(init, |init|);
      assert last in Elements(init, |init|);
    } else {
      RepetitionShrinks(init);
    }
  }

  /** With a repetition the ideal order of the uniform grading is shorter than the list. */
  lemma UniformIdealIsShorter(first: seq<Ref>, keys: seq<Ref>)
    requires !Distinct(first) && IsIdeal(Uniform(Elements(first, |first|)), keys)
    ensures 0 < |keys| < |first|
    ensures forall i :: 0 <= i < |keys| ==> keys[i] in Elements(first, |first|)
  {
    RepetitionShrinks(first);
    ElementsDistinct(keys, |keys|);
    assert first[0] in Elements(first, |first|);
    assert first[0] in keys;
    assert forall i :: 0 <= i < |keys| ==> keys[i] in keys;
    assert forall r :: r in Elements(first, |first|) ==> r in keys;
    SubsetNoLarger(Elements(keys, |keys|), Elements(first, |first|));
  }

  /** A repeated reference makes some grading score above 1. */
  lemma RepetitionScoresAboveOne(worth: Worth, refs: seq<Ref>, k: nat, keys: seq<Ref>)
    requires Lawful(worth) && !Distinct(refs[..Cut(k, |refs|)])
    requires var first := refs[..Cut(k, |refs|)]; IsIdeal(Uniform(Elements(first, |first|)), keys)
    ensures var first := refs[..Cut(k, |refs|)];
            var grades := Uniform(Elements(first, |first|));
            Ratio(Dcg(worth, grades, refs, Cut(k, |refs|)), Dcg(worth, grades, keys, Cut(k, |keys|))) > 1.0
  {
    var n := Cut(k, |refs|);
    var first := refs[..n];
    var all := Elements(first, n);
    UniformIdealIsShorter(first, keys);
    forall i | 0 <= i < n ensures refs[i] in all {
      assert first[i] in all;
    }
    UniformDcg(worth, all, refs, keys, |keys|, n);
    UniformDcg(worth, all, keys, keys, 0, |keys|);
    RatioAboveOne(Dcg(worth, Uniform(all), refs, n), Dcg(worth, Uniform(all), keys, |keys|));
  }

  lemma {:induction false} Listed(all: set<Ref>) returns (keys: seq<Ref>)
    ensures Distinct(keys) && forall r :: r in keys <==> r in all
    decreases |all|
  {
    if all == {} {
      keys := [];
    } else {
      var r :| r in all;
      var rest := Listed(all - {r});
      keys := rest + [r];
    }
  }

  lemma UniformIdeal(all: set<Ref>) returns (keys: seq<Ref>)
    ensures IsIdeal(Uniform(all), keys)
  {
    keys := Listed(all);
    assert forall i :: 0 <= i < |keys| ==> keys[i] in keys;
  }

  ghost predicate BoundedFor(worth: Worth, refs: seq<Ref>, k: nat, grades: map<Ref, real>) {
    forall score {:trigger IsNdcg(worth, grades, refs, k, score)} :: IsNdcg(worth, grades, refs, k, score) ==>
        score <= 1.0
  }

  lemma RepetitionIsUnbounded(worth: Worth, refs: seq<Ref>, k: nat)
    requires Lawful(worth) && !Distinct(refs[..Cut(k, |refs|)])
    ensures var first := refs[..Cut(k, |refs|)]; !BoundedFor(worth, refs, k, Uniform(Elements(first, |first|)))
  {
    var first := refs[..Cut(k, |refs|)];
    var grades := Uniform(Elements(first, |first|));
    var keys := UniformIdeal(Elements(first, |first|));
    RepetitionScoresAboveOne(worth, refs, k, keys);
    var score := Ratio(Dcg(worth, grades, refs, Cut(k, |refs|)), Dcg(worth, grades, keys, Cut(k, |keys|)));
    assert IsNdcg(worth, grades, refs, k, score);
  }

  /** nDCG is at most 1 for all grade maps if and only if the first `k` references are pairwise distinct. */
  lemma NdcgBoundIsDistinctness(s: Scale, refs: seq<Ref>, k: nat)
    requires Proper(s)
    ensures (forall grades :: BoundedFor(Discounted(s), refs, k, grades)) <==> Distinct(refs[..Cut(k, |refs|)])
  {
    DiscountedIsLawful(s);
    var worth := Discounted(s);
    if Distinct(refs[..Cut(k, |refs|)]) {
      forall grades ensures BoundedFor(worth, refs, k, grades) {
        forall score {:trigger IsNdcg(worth, grades, refs, k, score)} | IsNdcg(worth, grades, refs, k, score)
          ensures score <= 1.0 {
          NdcgAtMostOne(worth, grades, refs, k, score);
        }
      }
    } else {
      RepetitionIsUnbounded(worth, refs, k);
    }
  }

  /** An ideal order scores 1 unless there is nothing to gain. */
  lemma IdealScoresOne(worth: Worth, grades: map<Ref, real>, keys: seq<Ref>, k: nat, score: real)
    requires Lawful(worth) && IsIdeal(grades, keys) && IsNdcg(worth, grades, keys, k, score)
    requires Dcg(worth, grades, keys, Cut(k, |keys|)) > 0.0
    ensures score == 1.0
  {
    var other :| IsIdeal(grades, other)
        && score == Ratio(Dcg(worth, grades, keys, Cut(k, |keys|)), Dcg(worth, grades, other, Cut(k, |other|)));
    SameLength(grades, keys, other);
    IdealIsBest(worth, grades, keys, other, Cut(k, |keys|));
    IdealIsBest(worth, grades, other, keys, Cut(k, |keys|));
    RatioOne(Dcg(worth, grades, keys, Cut(k, |keys|)), Dcg(worth, grades, other, Cut(k, |other|)));
  }

  lemma RatioOne(x: real, y: real)
    requires x == y > 0.0
    ensures Ratio(x, y) == 1.0
  {
    QuotientAgainstOne(x, y);
  }

  lemma SameLength(grades: map<Ref, real>, a: seq<Ref>, b: seq<Ref>)
    requires IsIdeal(grades, a) && IsIdeal(grades, b)
    ensures |a| == |b|
  {
    ElementsDistinct(a, |a|);
    ElementsDistinct(b, |b|);
    assert Elements(a, |a|) == set r | r in a;
    assert Elements(b, |b|) == set r | r in b;
    assert (set r | r in a) == (set r | r in b);
  }

  lemma IdealIsBest(worth: Worth, grades: map<Ref, real>, a: seq<Ref>, b: seq<Ref>, n: nat)
    requires Lawful(worth) && IsIdeal(grades, a) && IsIdeal(grades, b) && n <= |a| && n <= |b|
    ensures Dcg(worth, grades, a, n) <= Dcg(worth, grades, b, n)
  {
    DcgOfPrefix(worth, grades, a, a[..n], n);
    DistinctBelowIdeal(worth, grades, a[..n], b);
  }

  // --------------------------------------------------- one relevant reference

  /** Only at `p` among the first `n`. */
  ghost predicate OnlyAt(refs: seq<Ref>, r: Ref, p: nat, n: nat)
    requires n <= |refs|
  {
    p < n && refs[p] == r && forall i :: 0 <= i < n && i != p ==> refs[i] != r
  }

  lemma {:induction false} GainOfOne(worth: Worth, grades: map<Ref, real>, refs: seq<Ref>, r: Ref, p: nat, m: nat,
                                     n: nat)
    requires Lawful(worth) && m <= n <= |refs| && OnlyAt(refs, r, p, n) && grades.Keys == {r}
    ensures Dcg(worth, grades, refs, m) == if p < m then worth(grades[r], p) else 0.0
  {
    if m > 0 {
      GainOfOne(worth, grades, refs, r, p, m - 1, n);
      assert refs[m - 1] in grades.Keys <==> m - 1 == p;
      assert Anchored(worth, m - 1);
    }
  }

  lemma CommonFactor(g: real, x: real, y: real)
    requires g > 0.0 && y > 0.0
    ensures g * y > 0.0 && Ratio(g * x, g * y) == x / y
  {
    var q := x / y;
    QuotientTimes(x, y);
    ProductPositive(g, y);
    assert g * x == q * (g * y);
  }

  lemma WorthRatio(s: Scale, grade: real, p: nat)
    requires Proper(s) && grade >= 1.0
    ensures s.discount(0) > 0.0
    ensures Ratio(Discounted(s)(grade, p), Discounted(s)(grade, 0)) == s.discount(p) / s.discount(0)
  {
    assert GainGrows(s, 1.0, grade) && DiscountFalls(s, 0, 0);
    CommonFactor(s.gain(grade), s.discount(p), s.discount(0));
  }

  lemma IdealOfOne(grades: map<Ref, real>, r: Ref, keys: seq<Ref>)
    requires grades.Keys == {r} && grades[r] > 0.0 && IsIdeal(grades, keys)
    ensures keys == [r]
  {
    assert IsIdeal(grades, [r]);
    SameLength(grades, [r], keys);
    assert keys[0] in keys;
  }

  lemma OneRelevantRatio(worth: Worth, grades: map<Ref, real>, refs: seq<Ref>, r: Ref, p: nat, k: nat, keys: seq<Ref>)
    requires Lawful(worth) && grades.Keys == {r} && grades[r] > 0.0
    requires OnlyAt(refs, r, p, Cut(k, |refs|)) && IsIdeal(grades, keys)
    ensures Ratio(Dcg(worth, grades, refs, Cut(k, |refs|)), Dcg(worth, grades, keys, Cut(k, |keys|)))
            == Ratio(worth(grades[r], p), worth(grades[r], 0))
  {
    IdealOfOne(grades, r, keys);
    GainOfOne(worth, grades, refs, r, p, Cut(k, |refs|), Cut(k, |refs|));
    GainOfOne(worth, grades, keys, r, 0, 1, 1);
  }

  /** One relevant reference found at position `p` scores the discount there, relative to the first place's. */
  lemma OneRelevantScores(s: Scale, grades: map<Ref, real>, refs: seq<Ref>, r: Ref, p: nat, k: nat, score: real)
    requires Proper(s) && grades.Keys == {r} && grades[r] >= 1.0
    requires OnlyAt(refs, r, p, Cut(k, |refs|)) && IsNdcg(Discounted(s), grades, refs, k, score)
    ensures s.discount(0) > 0.0 && score == s.discount(p) / s.discount(0)
  {
    DiscountedIsLawful(s);
    var worth := Discounted(s);
    var keys :| IsIdeal(grades, keys)
        && score == Ratio(Dcg(worth, grades, refs, Cut(k, |refs|)), Dcg(worth, grades, keys, Cut(k, |keys|)));
    OneRelevantRatio(worth, grades, refs, r, p, k, keys);
    WorthRatio(s, grades[r], p);
  }

  // ----------------------------------------------------------------- recall

  /** Distinct references find each required label once. */
  lemma {:induction false} FoundAtMost(refs: seq<Ref>, required: set<Ref>, n: nat)
    requires n <= |refs| && Distinct(refs)
    ensures Found(refs, required, n) <= |required|
  {
    if n > 0 {
      var r := refs[n - 1];
      if r in required {
        FoundWithout(refs, required, r, n - 1);
        FoundAtMost(refs, required - {r}, n - 1);
      } else {
        FoundAtMost(refs, required, n - 1);
      }
    }
  }

  lemma {:induction false} FoundWithout(refs: seq<Ref>, required: set<Ref>, r: Ref, n: nat)
    requires n <= |refs| && forall i :: 0 <= i < n ==> refs[i] != r
    ensures Found(refs, required - {r}, n) == Found(refs, required, n)
  {
    if n > 0 {
      FoundWithout(refs, required, r, n - 1);
    }
  }

  lemma {:induction false} FoundOfPrefix(a: seq<Ref>, b: seq<Ref>, required: set<Ref>, n: nat)
    requires n <= |a| && n <= |b| && forall i :: 0 <= i < n ==> a[i] == b[i]
    ensures Found(a, required, n) == Found(b, required, n)
  {
    if n > 0 {
      FoundOfPrefix(a, b, required, n - 1);
    }
  }

  lemma {:induction false} FoundAll(refs: seq<Ref>, required: set<Ref>, n: nat)
    requires n <= |refs| && forall i :: 0 <= i < n ==> refs[i] in required
    ensures Found(refs, required, n) == n
  {
    if n > 0 {
      FoundAll(refs, required, n - 1);
    }
  }

  /** `recall_at` is at most 1 for every set of required labels if and only if the first `k` references are distinct. */
  lemma RecallBoundIsDistinctness(refs: seq<Ref>, k: nat)
    ensures (forall required :: Found(refs, required, Cut(k, |refs|)) <= |required|) <==>
            Distinct(refs[..Cut(k, |refs|)])
  {
    var n := Cut(k, |refs|);
    var first := refs[..n];
    if Distinct(first) {
      forall required ensures Found(refs, required, n) <= |required| {
        FoundOfPrefix(refs, first, required, n);
        FoundAtMost(first, required, n);
      }
    } else {
      var all := Elements(first, n);
      forall i | 0 <= i < n ensures refs[i] in all {
        assert first[i] in all;
      }
      FoundAll(refs, all, n);
      RepetitionShrinks(first);
    }
  }
}
