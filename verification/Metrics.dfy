/** Ranking metrics of eval.rs: `ndcg_at`, `relevance_grades` and `recall_at`, over exact reals. */
module Metrics {
  import opened Prelude
  import Sorting

  /** What a label names. */
  type Ref = string

  /** `2^x - 1` and `1 / log2(i + 2)` enter only through the facts in `Proper`. */
  datatype Scale = Scale(gain: real -> real, discount: nat -> real)

  /** What a grade is worth at a position. */
  type Worth = (real, nat) -> real

  /** `gain / log2(index + 2)`. */
  function Discounted(s: Scale): Worth {
    (grade: real, index: nat) => s.gain(grade) * s.discount(index)
  }

  function Grade(grades: map<Ref, real>, r: Ref): real {
    if r in grades then grades[r] else 0.0
  }

  /** Discounted gain of the first `n` references. */
  function Dcg(worth: Worth, grades: map<Ref, real>, refs: seq<Ref>, n: nat): real
    requires n <= |refs|
  {
    if n == 0 then 0.0 else Dcg(worth, grades, refs, n - 1) + worth(Grade(grades, refs[n - 1]), n - 1)
  }

  /** `take(k)` of `n`. */
  function Cut(k: nat, n: nat): (m: nat)
    ensures m <= k && m <= n && (m == k || m == n)
  {
    if k <= n then k else n
  }

  predicate GradeAtLeast(grades: map<Ref, real>, a: Ref, b: Ref) {
    Grade(grades, a) >= Grade(grades, b)
  }

  ghost predicate Descending(grades: map<Ref, real>, keys: seq<Ref>) {
    forall i, j {:trigger GradeAtLeast(grades, keys[i], keys[j])} :: 0 <= i <= j < |keys| ==>
        GradeAtLeast(grades, keys[i], keys[j])
  }

  /** The graded references with a positive grade, best first. */
  ghost predicate IsIdeal(grades: map<Ref, real>, keys: seq<Ref>) {
    && Distinct(keys)
    && (forall r :: r in keys <==> r in grades && grades[r] > 0.0)
    && Descending(grades, keys)
  }

  function Ratio(dcg: real, idcg: real): real {
    if idcg == 0.0 then 0.0 else dcg / idcg
  }

  /** `score` is what `ndcg_at` returns: the ratio to the gain of an ideal order. */
  ghost predicate IsNdcg(worth: Worth, grades: map<Ref, real>, refs: seq<Ref>, k: nat, score: real) {
    exists keys :: IsIdeal(grades, keys) &&
      score == Ratio(Dcg(worth, grades, refs, Cut(k, |refs|)), Dcg(worth, grades, keys, Cut(k, |keys|)))
  }

  // ------------------------------------------------------------- the loops

  /** The positive grades' references in some order. */
  method Positives(grades: map<Ref, real>) returns (keys: seq<Ref>)
    ensures Distinct(keys) && forall r :: r in keys <==> r in grades && grades[r] > 0.0
  {
    keys := [];
    var todo := grades.Keys;
    while todo != {}
      invariant todo <= grades.Keys && Distinct(keys)
      invariant forall r :: r in keys <==> r in grades && r !in todo && grades[r] > 0.0
    {
      var r :| r in todo;
      if grades[r] > 0.0 {
        keys := keys + [r];
      }
      todo := todo - {r};
    }
  }

  /** The comparator of `sort_by`: downwards. */
  function Better(grades: map<Ref, real>): (Ref, Ref) -> bool {
    (a: Ref, b: Ref) => Grade(grades, a) > Grade(grades, b)
  }

  lemma SortedIsIdeal(grades: map<Ref, real>, keys: seq<Ref>, sorted: seq<Ref>)
    requires Distinct(keys) && forall r :: r in keys <==> r in grades && grades[r] > 0.0
    requires Sorting.Sorted(Better(grades), sorted) && multiset(sorted) == multiset(keys)
    ensures IsIdeal(grades, sorted)
  {
    Sorting.StaysDistinct(keys, sorted);
    Sorting.SameElements(keys, sorted);
    forall i, j {:trigger GradeAtLeast(grades, sorted[i], sorted[j])} | 0 <= i <= j < |sorted|
      ensures GradeAtLeast(grades, sorted[i], sorted[j])
    {
      assert i < j ==> !Better(grades)(sorted[j], sorted[i]);
    }
  }

  /** The positive grades, sorted. */
  method IdealOrder(grades: map<Ref, real>) returns (ideal: seq<Ref>)
    ensures IsIdeal(grades, ideal)
  {
    var positives := Positives(grades);
    BetterIsOrder(grades);
    ideal := Sorting.Sort(Better(grades), positives);
    SortedIsIdeal(grades, positives, ideal);
  }

  lemma BetterIsOrder(grades: map<Ref, real>)
    ensures Sorting.StrictWeak(Better(grades))
  {
  }

  /** `ndcg_at`. */
  method NdcgAt(s: Scale, refs: seq<Ref>, grades: map<Ref, real>, k: nat) returns (score: real)
    ensures IsNdcg(Discounted(s), grades, refs, k, score)
  {
    ghost var worth := Discounted(s);
    var dcg := 0.0;
    for index := 0 to Cut(k, |refs|)
      invariant dcg == Dcg(worth, grades, refs, index)
    {
      dcg := dcg + s.gain(Grade(grades, refs[index])) * s.discount(index);
    }
    var ideal := IdealOrder(grades);
    var idcg := 0.0;
    for index := 0 to Cut(k, |ideal|)
      invariant idcg == Dcg(worth, grades, ideal, index)
    {
      assert ideal[index] in ideal;
      idcg := idcg + s.gain(grades[ideal[index]]) * s.discount(index);
    }
    score := if idcg == 0.0 then 0.0 else dcg / idcg;
  }

  datatype Judgment = Judgment(required: seq<Ref>, acceptable: seq<Ref>, misleading: seq<Ref>)

  /** `relevance_grades`: the first list that names a label decides its grade. */
  method RelevanceGrades(j: Judgment) returns (grades: map<Ref, real>)
    ensures grades.Keys == (set r | r in j.required) + (set r | r in j.acceptable) + (set r | r in j.misleading)
    ensures forall r :: r in grades ==>
              grades[r] == if r in j.required then 2.0 else if r in j.acceptable then 1.0 else 0.0
  {
    grades := map[];
    for i := 0 to |j.required|
      invariant grades.Keys == set r | r in j.required[..i]
      invariant forall r :: r in grades ==> grades[r] == 2.0
    {
      grades := grades[j.required[i] := 2.0];
      assert j.required[..i + 1] == j.required[..i] + [j.required[i]];
    }
    assert j.required[..|j.required|] == j.required;
    ghost var required := grades;
    for i := 0 to |j.acceptable|
      invariant grades.Keys == required.Keys + set r | r in j.acceptable[..i]
      invariant forall r :: r in grades ==> grades[r] == if r in j.required then 2.0 else 1.0
    {
      if j.acceptable[i] !in grades {
        grades := grades[j.acceptable[i] := 1.0];
      }
      assert j.acceptable[..i + 1] == j.acceptable[..i] + [j.acceptable[i]];
    }
    assert j.acceptable[..|j.acceptable|] == j.acceptable;
    ghost var positive := grades;
    for i := 0 to |j.misleading|
      invariant grades.Keys == positive.Keys + set r | r in j.misleading[..i]
      invariant forall r :: r in grades ==>
                  grades[r] == if r in j.required then 2.0 else if r in j.acceptable then 1.0 else 0.0
    {
      if j.misleading[i] !in grades {
        grades := grades[j.misleading[i] := 0.0];
      }
      assert j.misleading[..i + 1] == j.misleading[..i] + [j.misleading[i]];
    }
    assert j.misleading[..|j.misleading|] == j.misleading;
  }

  /** Required references among the first `n`, repetitions counted each time. */
  function Found(refs: seq<Ref>, required: set<Ref>, n: nat): nat
    requires n <= |refs|
  {
    if n == 0 then 0 else Found(refs, required, n - 1) + if refs[n - 1] in required then 1 else 0
  }

  /** `recall_at`. */
  method RecallAt(refs: seq<Ref>, required: set<Ref>, k: nat) returns (recall: real)
    ensures recall == if required == {} then 1.0 else Found(refs, required, Cut(k, |refs|)) as real / |required| as real
  {
    if required == {} {
      return 1.0;
    }
    var found := 0;
    for index := 0 to Cut(k, |refs|)
      invariant found == Found(refs, required, index)
    {
      if refs[index] in required {
        found := found + 1;
      }
    }
    recall := found as real / |required| as real;
  }
}
