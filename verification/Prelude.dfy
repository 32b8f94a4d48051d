/** Vocabulary shared by the model's modules. */
module Prelude {
  datatype Option<+T> = None | Some(value: T)

  /** No element occurs twice. */
  ghost predicate Distinct<T>(s: seq<T>) {
    forall i, j :: 0 <= i < j < |s| ==> s[i] != s[j]
  }

  /** What occurs among the first `n`. */
  function Elements<T>(s: seq<T>, n: nat): set<T>
    requires n <= |s|
  {
    set i | 0 <= i < n :: s[i]
  }

  lemma ElementsGrow<T>(s: seq<T>, n: nat)
    requires 0 < n <= |s|
    ensures Elements(s, n) == Elements(s, n - 1) + {s[n - 1]}
  {
  }

  lemma NextIsNew<T>(s: seq<T>, n: nat)
    requires 0 < n <= |s| && Distinct(s)
    ensures s[n - 1] !in Elements(s, n - 1)
  {
  }

  function Without<T>(s: seq<T>, p: nat): seq<T>
    requires p < |s|
  {
    s[..p] + s[p + 1..]
  }

  lemma AppendAssociates<T>(a: seq<T>, b: seq<T>, c: seq<T>)
    ensures a + b + c == a + (b + c)
  {
  }

  lemma {:induction false} SubsetNoLarger<T>(a: set<T>, b: set<T>)
    requires a <= b
    ensures |a| <= |b|
  {
    if a != {} {
      var x :| x in a;
      SubsetNoLarger(a - {x}, b - {x});
    }
  }
}
