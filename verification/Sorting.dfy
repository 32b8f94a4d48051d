/** `sort_by` of Rust's library: a stable arrangement of the same elements by a comparator. */
module Sorting {
  import opened Prelude

  /** What `sort_by` asks of its comparator: `below` is a strict order whose ties are an equivalence. */
  ghost predicate StrictWeak<T(!new)>(below: (T, T) -> bool) {
    && (forall a :: !below(a, a))
    && (forall a, b, c {:trigger below(a, b), below(a, c)} {:trigger below(a, b), below(c, b)} ::
          below(a, b) ==> below(a, c) || below(c, b))
    && (forall a, b, c {:trigger below(a, b), below(b, c)} :: below(a, b) && below(b, c) ==> below(a, c))
  }

  ghost predicate Sorted<T>(below: (T, T) -> bool, s: seq<T>) {
    forall i, j {:trigger below(s[j], s[i])} :: 0 <= i < j < |s| ==> !below(s[j], s[i])
  }

  /** Elements that the comparator does not tell apart are equal. */
  ghost predicate NoTies<T>(below: (T, T) -> bool, s: seq<T>) {
    forall a, b {:trigger below(a, b)} :: a in s && b in s && !below(a, b) && !below(b, a) ==> a == b
  }

  /** Where an element goes: behind everything it is not below. */
  function Place<T>(below: (T, T) -> bool, s: seq<T>, x: T): (k: nat)
    ensures k <= |s|
    ensures forall i :: k <= i < |s| ==> below(x, s[i])
    ensures k > 0 ==> !below(x, s[k - 1])
  {
    if s == [] || !below(x, s[|s| - 1]) then |s| else Place(below, s[..|s| - 1], x)
  }

  function Insert<T>(below: (T, T) -> bool, s: seq<T>, x: T): seq<T> {
    s[..Place(below, s, x)] + [x] + s[Place(below, s, x)..]
  }

  function Arranged<T>(below: (T, T) -> bool, s: seq<T>): seq<T> {
    if s == [] then [] else Insert(below, Arranged(below, s[..|s| - 1]), s[|s| - 1])
  }

  lemma InsertSorts<T(!new)>(below: (T, T) -> bool, s: seq<T>, x: T)
    requires StrictWeak(below) && Sorted(below, s)
    ensures Sorted(below, Insert(below, s, x))
  {
    var k, out := Place(below, s, x), Insert(below, s, x);
    forall i, j {:trigger below(out[j], out[i])} | 0 <= i < j < |out| ensures !below(out[j], out[i]) {
      if j == k {
        assert i < k - 1 ==> !below(s[k - 1], s[i]);
      } else if i == k {
        assert below(x, s[j - 1]);
        assert below(s[j - 1], x) ==> below(x, x);
      } else {
        assert !below(s[if j < k then j else j - 1], s[if i < k then i else i - 1]);
      }
    }
  }

  lemma InsertKeeps<T>(below: (T, T) -> bool, s: seq<T>, x: T)
    ensures multiset(Insert(below, s, x)) == multiset(s) + multiset{x}
  {
    var k := Place(below, s, x);
    assert s == s[..k] + s[k..];
  }

  lemma {:induction false} ArrangedIsSorted<T(!new)>(below: (T, T) -> bool, s: seq<T>)
    requires StrictWeak(below)
    ensures Sorted(below, Arranged(below, s)) && multiset(Arranged(below, s)) == multiset(s)
  {
    if s != [] {
      var init, last := s[..|s| - 1], s[|s| - 1];
      ArrangedIsSorted(below, init);
      InsertSorts(below, Arranged(below, init), last);
      InsertKeeps(below, Arranged(below, init), last);
      assert s == init + [last];
    }
  }

  /** The sort itself, a library call. */
  method Sort<T(!new)>(below: (T, T) -> bool, s: seq<T>) returns (out: seq<T>)
    requires StrictWeak(below)
    ensures Sorted(below, out) && multiset(out) == multiset(s)
  {
    ArrangedIsSorted(below, s);
    out := [];
    for i := 0 to |s|
      invariant out == Arranged(below, s[..i])
    {
      assert s[..i + 1][..i] == s[..i];
      out := Insert(below, out, s[i]);
    }
    assert s[..|s|] == s;
  }

  lemma SameElements<T>(a: seq<T>, b: seq<T>)
    requires multiset(a) == multiset(b)
    ensures |a| == |b| && forall x :: x in a <==> x in b
  {
    assert |multiset(a)| == |a| && |multiset(b)| == |b|;
    forall x ensures x in a <==> x in b {
      assert x in a <==> x in multiset(a);
      assert x in b <==> x in multiset(b);
    }
  }

  lemma {:induction false} DistinctCounts<T>(s: seq<T>, x: T)
    requires Distinct(s)
    ensures multiset(s)[x] <= 1
  {
    if s != [] {
      var init := s[..|s| - 1];
      DistinctCounts(init, x);
      assert s == init + [s[|s| - 1]];
      assert x in multiset(init) ==> x in init;
    }
  }

  lemma StaysDistinct<T>(a: seq<T>, b: seq<T>)
    requires Distinct(a) && multiset(a) == multiset(b)
    ensures Distinct(b)
  {
    forall i, j | 0 <= i < j < |b| ensures b[i] != b[j] {
      DistinctCounts(a, b[j]);
      assert b == b[..j] + [b[j]] + b[j + 1..];
      assert b[..j][i] in multiset(b[..j]);
    }
  }

  lemma SameFirst<T(!new)>(below: (T, T) -> bool, a: seq<T>, b: seq<T>)
    requires StrictWeak(below) && Sorted(below, a) && Sorted(below, b) && NoTies(below, a)
    requires multiset(a) == multiset(b) && a != [] && b != []
    ensures a[0] == b[0]
  {
    SameElements(a, b);
    assert a[0] in b && b[0] in a;
    var i :| 0 <= i < |b| && b[i] == a[0];
    var j :| 0 <= j < |a| && a[j] == b[0];
    assert i > 0 ==> !below(b[i], b[0]);
    assert j > 0 ==> !below(a[j], a[0]);
  }

  lemma TailSorted<T>(below: (T, T) -> bool, s: seq<T>)
    requires Sorted(below, s) && s != []
    ensures Sorted(below, s[1..])
  {
    forall i, j {:trigger below(s[1..][j], s[1..][i])} | 0 <= i < j < |s[1..]| ensures !below(s[1..][j], s[1..][i]) {
      assert !below(s[j + 1], s[i + 1]);
    }
  }

  /** Elements without ties have one sorted arrangement. */
  lemma {:induction false} SortedIsUnique<T(!new)>(below: (T, T) -> bool, a: seq<T>, b: seq<T>)
    requires StrictWeak(below) && Sorted(below, a) && Sorted(below, b) && NoTies(below, a) && multiset(a) == multiset(b)
    ensures a == b
    decreases |a|
  {
    SameElements(a, b);
    if a != [] {
      SameFirst(below, a, b);
      TailSorted(below, a);
      TailSorted(below, b);
      assert a == [a[0]] + a[1..] && b == [b[0]] + b[1..];
      assert multiset(a[1..]) == multiset(a) - multiset{a[0]} && multiset(b[1..]) == multiset(b) - multiset{b[0]};
      SortedIsUnique(below, a[1..], b[1..]);
    }
  }
}
