/**
 embedding.rs: normalization in floating point, the tolerance of the validator,
 and the byte layout of a stored vector.
 */
module VectorCodec {
  import opened Prelude
  import opened EmbeddingTables

  newtype word = w: int | 0 <= w < 0x1_0000_0000

  const MAX_LENGTH: nat := 65536

  /** `f64::EPSILON`. */
  const EPSILON: real := 1.0 / 4503599627370496.0
  /** The validator's tolerance on the squared norm. */
  const TOLERANCE: real := 0.0001
  /** Relative error of a normalized component: rounding to f32, and the double-precision steps before it. */
  const ROUNDING: real := 1.0 / 8388608.0
  /** Absolute error where f32 is subnormal. */
  const TINY: real := 1.0 / 1000000000000000000000000000000.0
  /** Relative error of a double-precision sum of at most 65,536 squares. */
  const SUMMING: real := 1.0 / 1073741824.0

  /** Floating point as the code uses it. */
  datatype Machine = Machine(
    sumSquares: seq<real> -> real,         // the f64 sum of the squares
    root: real -> real,                    // the exact square root, for stating errors
    scale: (real, real) -> Component,      // `(value / norm_sq.sqrt()) as f32`
    toBits: Component -> word,
    fromBits: word -> Component)

  function Abs(x: real): real {
    if x < 0.0 then -x else x
  }

  function Square(x: real): (y: real)
    ensures y >= 0.0
  {
    x * x
  }

  function SumSquares(values: seq<real>, n: nat): (sum: real)
    requires n <= |values|
    ensures sum >= 0.0
  {
    if n == 0 then 0.0 else SumSquares(values, n - 1) + Square(values[n - 1])
  }

  ghost predicate SumsWell(m: Machine, values: seq<real>) {
    var exact := SumSquares(values, |values|);
    |values| <= MAX_LENGTH ==> Abs(m.sumSquares(values) - exact) <= SUMMING * exact
  }

  /** `root` is a square root, and a quotient of moderate size comes out finite and nearly exact. */
  ghost predicate ScalesWell(m: Machine, value: real, s: real) {
    s > EPSILON ==>
      && m.root(s) > 0.0 && Square(m.root(s)) == s
      && (Abs(value) <= 2.0 * m.root(s) ==>
            && m.scale(value, s).Finite?
            && Abs(m.scale(value, s).value - value / m.root(s)) <= ROUNDING * Abs(value / m.root(s)) + TINY
            && m.fromBits(m.toBits(m.scale(value, s))) == m.scale(value, s))
  }

  /** Round-to-nearest arithmetic (section 4.3.1 of IEEE 754-2019) satisfies this. */
  ghost predicate Faithful(m: Machine) {
    && (forall values :: SumsWell(m, values))
    && (forall value, s :: ScalesWell(m, value, s))
  }

  // --------------------------------------------------------------- functions

  predicate AllFinite(values: seq<Component>) {
    forall i :: 0 <= i < |values| ==> values[i].Finite?
  }

  function Reals(values: seq<Component>): (out: seq<real>)
    requires AllFinite(values)
    ensures |out| == |values| && forall i :: 0 <= i < |values| ==> out[i] == values[i].value
  {
    if values == [] then [] else Reals(values[..|values| - 1]) + [values[|values| - 1].value]
  }

  function ScaleAll(m: Machine, values: seq<real>, s: real, n: nat): (out: seq<Component>)
    requires n <= |values|
    ensures |out| == n && forall i :: 0 <= i < n ==> out[i] == m.scale(values[i], s)
  {
    if n == 0 then [] else ScaleAll(m, values, s, n - 1) + [m.scale(values[n - 1], s)]
  }

  /** `normalize_vector`. */
  function Normalize(m: Machine, values: seq<Component>): (out: Option<seq<Component>>)
    ensures out.Some? ==> |out.value| == |values|
  {
    if values == [] || !AllFinite(values) then None
    else
      var s := m.sumSquares(Reals(values));
      if s <= EPSILON then None
      else
        var out := ScaleAll(m, Reals(values), s, |values|);
        if AllFinite(out) then Some(out) else None
  }

  /** `validate_normalized_vector`. */
  predicate Valid(m: Machine, values: seq<Component>) {
    && values != [] && AllFinite(values)
    && var s := m.sumSquares(Reals(values)); s > EPSILON && Abs(s - 1.0) <= TOLERANCE
  }

  // ------------------------------------------------------------------- bytes

  /** `to_le_bytes`. */
  function ToLe(w: word): (out: seq<byte>)
    ensures |out| == 4
  {
    var n := w as int;
    [(n % 256) as byte, (n / 256 % 256) as byte, (n / 65536 % 256) as byte, (n / 16777216) as byte]
  }

  /** `from_le_bytes`. */
  function FromLe(chunk: seq<byte>): word
    requires |chunk| == 4
  {
    (chunk[0] as int + 256 * chunk[1] as int + 65536 * chunk[2] as int + 16777216 * chunk[3] as int) as word
  }

  lemma LittleEndianReadsBack(w: word)
    ensures FromLe(ToLe(w)) == w
  {
    var n := w as int;
    assert n == n % 256 + 256 * (n / 256);
    assert n / 256 == n / 256 % 256 + 256 * (n / 65536);
    assert n / 65536 == n / 65536 % 256 + 256 * (n / 16777216);
  }

  lemma Digit(low: int, high: int)
    requires 0 <= low < 256 && high >= 0
    ensures (low + 256 * high) % 256 == low && (low + 256 * high) / 256 == high
  {
  }

  lemma LittleEndianWritesBack(chunk: seq<byte>)
    requires |chunk| == 4
    ensures ToLe(FromLe(chunk)) == chunk
  {
    var a, b, c, d := chunk[0] as int, chunk[1] as int, chunk[2] as int, chunk[3] as int;
    Digit(a, b + 256 * (c + 256 * d));
    Digit(b, c + 256 * d);
    Digit(c, d);
    var n := FromLe(chunk) as int;
    assert n / 256 / 256 == n / 65536 && n / 65536 / 256 == n / 16777216;
  }

  function LayOut(m: Machine, values: seq<Component>, n: nat): (out: seq<byte>)
    requires n <= |values|
    ensures |out| == 4 * n
  {
    if n == 0 then [] else LayOut(m, values, n - 1) + ToLe(m.toBits(values[n - 1]))
  }

  /** `chunks_exact(4)` mapped through `from_le_bytes`. */
  function ReadOff(m: Machine, bytes: seq<byte>, n: nat): (out: seq<Component>)
    requires 4 * n <= |bytes|
    ensures |out| == n && forall i :: 0 <= i < n ==> out[i] == m.fromBits(FromLe(bytes[4 * i..4 * i + 4]))
  {
    if n == 0 then [] else ReadOff(m, bytes, n - 1) + [m.fromBits(FromLe(bytes[4 * n - 4..4 * n]))]
  }

  /** `encode_vector`: the length is checked, then the vector is normalized once more. */
  function Encode(m: Machine, values: seq<Component>, dimensions: nat): Option<seq<byte>> {
    if |values| != dimensions then None
    else
      var normalized := Normalize(m, values);
      if normalized.None? then None else Some(LayOut(m, normalized.value, |normalized.value|))
  }

  /** `decode_vector`. */
  function Decode(m: Machine, bytes: seq<byte>, dimensions: nat): Option<seq<Component>> {
    if |bytes| != 4 * dimensions then None
    else
      var values := ReadOff(m, bytes, dimensions);
      if Valid(m, values) then Some(values) else None
  }

  /** `encode_vector`, filling its buffer. */
  method EncodeVector(m: Machine, values: seq<Component>, dimensions: nat) returns (encoded: Option<seq<byte>>)
    ensures encoded == Encode(m, values, dimensions)
  {
    if |values| != dimensions {
      return None;
    }
    var normalized := Normalize(m, values);
    if normalized.None? {
      return None;
    }
    var bytes: seq<byte> := [];
    for i := 0 to |normalized.value|
      invariant bytes == LayOut(m, normalized.value, i)
    {
      bytes := bytes + ToLe(m.toBits(normalized.value[i]));
    }
    encoded := Some(bytes);
  }

  // ------------------------------------------------------- one component

  ghost predicate Near(q: real, u: real) {
    Abs(q - u) <= ROUNDING * Abs(u) + TINY && Abs(u) <= 2.0
  }

  lemma AbsProduct(x: real, y: real)
    ensures Abs(x * y) == Abs(x) * Abs(y)
  {
  }

  /** The allowance on a square, given the square of the exact value. */
  function Allowance(square: real): real {
    3.0 * ROUNDING * square + 7.0 * TINY
  }

  function Times(x: real, y: real): real {
    x * y
  }

  lemma DifferenceOfSquares(q: real, u: real)
    ensures Abs(Square(q) - Square(u)) == Times(Abs(q - u), Abs(q + u))
  {
    assert Square(q) - Square(u) == (q - u) * (q + u);
    AbsProduct(q - u, q + u);
  }

  lemma SquareOfAbs(u: real)
    ensures Square(Abs(u)) == Square(u)
  {
  }

  lemma ProductAllowance(e: real, sum: real, a: real)
    requires 0.0 <= e <= ROUNDING * a + TINY && 0.0 <= sum <= e + 2.0 * a && 0.0 <= a <= 2.0
    ensures Times(e, sum) <= Allowance(Square(a))
  {
    var bound := ROUNDING * a + TINY;
    ProductBound(e, sum, bound, bound + 2.0 * a);
    Expanded(a);
    AtMost(Times(e, sum), Times(bound, bound + 2.0 * a), Allowance(Square(a)));
  }

  lemma AtMost(x: real, y: real, z: real)
    requires x <= y && y <= z
    ensures x <= z
  {
  }

  /** How far the square of a rounded value is from the square of the value. */
  lemma SquareMoves(q: real, u: real)
    requires Near(q, u)
    ensures Abs(Square(q) - Square(u)) <= Allowance(Square(u))
  {
    DifferenceOfSquares(q, u);
    SquareOfAbs(u);
    ProductAllowance(Abs(q - u), Abs(q + u), Abs(u));
  }

  lemma ProductBound(x: real, y: real, a: real, b: real)
    requires 0.0 <= x <= a && 0.0 <= y <= b
    ensures Times(x, y) <= Times(a, b)
  {
    assert x * y <= a * y;
    assert a * y <= a * b;
  }

  lemma Expanded(a: real)
    requires 0.0 <= a <= 2.0
    ensures var bound := ROUNDING * a + TINY;
            Times(bound, bound + 2.0 * a) <= Allowance(Square(a))
  {
    var bound := ROUNDING * a + TINY;
    var aa := a * a;
    assert bound * (bound + 2.0 * a)
        == ROUNDING * (ROUNDING + 2.0) * aa + (2.0 * ROUNDING + 2.0) * TINY * a + TINY * TINY;
    assert ROUNDING * (ROUNDING + 2.0) * aa <= 3.0 * ROUNDING * aa;
    assert (2.0 * ROUNDING + 2.0) * TINY * a <= 6.0 * TINY;
  }

  // ------------------------------------------------------------ whole vectors

  function Quotients(values: seq<real>, r: real): (out: seq<real>)
    requires r > 0.0
    ensures |out| == |values| && forall i :: 0 <= i < |values| ==> out[i] == values[i] / r
  {
    if values == [] then [] else Quotients(values[..|values| - 1], r) + [values[|values| - 1] / r]
  }

  lemma QuotientSquare(v: real, r: real)
    requires r > 0.0
    ensures Square(v / r) * Square(r) == Square(v)
  {
    var u := v / r;
    assert u * r == v;
    assert (u * u) * (r * r) == (u * r) * (u * r);
  }

  /** Dividing by `r` divides the sum of squares by its square. */
  lemma {:induction false} QuotientSum(values: seq<real>, out: seq<real>, r: real, n: nat)
    requires r > 0.0 && n <= |values| == |out| && forall i :: 0 <= i < |values| ==> out[i] == values[i] / r
    ensures SumSquares(out, n) * Square(r) == SumSquares(values, n)
  {
    if n > 0 {
      QuotientSum(values, out, r, n - 1);
      QuotientSquare(values[n - 1], r);
      Distribute(SumSquares(out, n - 1), Square(out[n - 1]), Square(r));
    }
  }

  lemma Distribute(x: real, y: real, z: real)
    ensures (x + y) * z == x * z + y * z
  {
  }

  lemma {:induction false} MemberSquare(values: seq<real>, i: nat, n: nat)
    requires i < n <= |values|
    ensures Square(values[i]) <= SumSquares(values, n)
  {
    if i < n - 1 {
      MemberSquare(values, i, n - 1);
    }
  }

  /** The error of the sum is at most the sum of the errors. */
  lemma {:induction false} SumMoves(q: seq<real>, u: seq<real>, n: nat)
    requires n <= |q| == |u| && forall i :: 0 <= i < n ==> Near(q[i], u[i])
    ensures Abs(SumSquares(q, n) - SumSquares(u, n)) <= 3.0 * ROUNDING * SumSquares(u, n) + 7.0 * TINY * n as real
  {
    if n > 0 {
      SumMoves(q, u, n - 1);
      SquareMoves(q[n - 1], u[n - 1]);
      Distribute(SumSquares(u, n - 1), Square(u[n - 1]), 3.0 * ROUNDING);
      assert 7.0 * TINY * n as real == 7.0 * TINY * (n - 1) as real + 7.0 * TINY;
    }
  }

  lemma Scaled(x: real, y: real, z: real)
    requires x < y && z > 0.0
    ensures x * z < y * z
  {
    assert (y - x) * z > 0.0;
    assert (y - x) * z == y * z - x * z;
  }

  lemma SquaresCompare(x: real, y: real)
    requires 0.0 <= y < x
    ensures y * y < x * x
  {
    Scaled(y, x, x + y);
    assert x * (x + y) - y * (x + y) == x * x - y * y;
  }

  lemma RootsCompare(x: real, y: real)
    requires Square(x) <= 4.0 * Square(y) && y > 0.0
    ensures Abs(x) <= 2.0 * y
  {
    SquareOfAbs(x);
    assert Square(Abs(x)) == Abs(x) * Abs(x);
    assert (2.0 * y) * (2.0 * y) == 4.0 * Square(y);
    if Abs(x) > 2.0 * y {
      SquaresCompare(Abs(x), 2.0 * y);
    }
  }

  lemma QuotientSmall(v: real, r: real)
    requires r > 0.0 && Abs(v) <= 2.0 * r
    ensures Abs(v / r) <= 2.0
  {
  }

  /** The exact sum is within a factor of two of the computed one. */
  lemma SumWithin(exact: real, computed: real)
    requires exact >= 0.0 && Abs(computed - exact) <= SUMMING * exact
    ensures exact <= 2.0 * computed && computed <= 2.0 * exact
    ensures exact - computed <= 2.0 * SUMMING * computed && computed - exact <= 2.0 * SUMMING * computed
  {
  }

  /** What one component becomes. */
  lemma ComponentNear(m: Machine, values: seq<real>, s: real, i: nat)
    requires Faithful(m) && i < |values| && s > EPSILON && SumSquares(values, |values|) <= 2.0 * s
    ensures m.scale(values[i], s).Finite? && m.root(s) > 0.0
    ensures Near(m.scale(values[i], s).value, values[i] / m.root(s))
    ensures m.fromBits(m.toBits(m.scale(values[i], s))) == m.scale(values[i], s)
  {
    assert ScalesWell(m, values[i], s);
    MemberSquare(values, i, |values|);
    RootsCompare(values[i], m.root(s));
    QuotientSmall(values[i], m.root(s));
  }

  lemma UnitSum(sum: real, s: real, exact: real)
    requires s > 0.0 && sum * s == exact && sum >= 0.0
    requires exact - s <= 2.0 * SUMMING * s && s - exact <= 2.0 * SUMMING * s
    ensures Abs(sum - 1.0) <= 2.0 * SUMMING
  {
    assert (sum - 1.0) * s == exact - s;
    if sum - 1.0 > 2.0 * SUMMING {
      Scaled(2.0 * SUMMING, sum - 1.0, s);
    }
    if sum - 1.0 < -2.0 * SUMMING {
      Scaled(sum - 1.0, -2.0 * SUMMING, s);
    }
  }

  /** After one normalization the exact sum of squares is within a millionth of 1. */
  lemma {:induction false} NormalizedSum(m: Machine, values: seq<real>, q: seq<real>)
    requires Faithful(m) && |values| == |q| <= MAX_LENGTH
    requires var s := m.sumSquares(values);
             s > EPSILON && forall i :: 0 <= i < |q| ==> m.scale(values[i], s) == Finite(q[i])
    ensures Abs(SumSquares(q, |q|) - 1.0) <= 0.000001
  {
    var s := m.sumSquares(values);
    assert SumsWell(m, values);
    SumWithin(SumSquares(values, |values|), s);
    assert ScalesWell(m, 0.0, s);
    var r := m.root(s);
    var u := Quotients(values, r);
    QuotientSum(values, u, r, |values|);
    UnitSum(SumSquares(u, |u|), s, SumSquares(values, |values|));
    forall i | 0 <= i < |q| ensures Near(q[i], u[i]) {
      ComponentNear(m, values, s, i);
    }
    SumMoves(q, u, |q|);
    assert 7.0 * TINY * |q| as real <= 7.0 * TINY * 65536.0;
  }

  /** A finite vector whose computed norm is not negligible normalizes, and every component has a bit pattern. */
  lemma Normalizes(m: Machine, values: seq<Component>)
    requires Faithful(m) && values != [] && AllFinite(values) && |values| <= MAX_LENGTH
    requires m.sumSquares(Reals(values)) > EPSILON
    ensures var out := Normalize(m, values);
            && out.Some? && AllFinite(out.value)
            && forall i :: 0 <= i < |out.value| ==> m.fromBits(m.toBits(out.value[i])) == out.value[i]
  {
    var reals := Reals(values);
    var s := m.sumSquares(reals);
    assert SumsWell(m, reals);
    SumWithin(SumSquares(reals, |reals|), s);
    forall i | 0 <= i < |reals|
      ensures m.scale(reals[i], s).Finite? && m.fromBits(m.toBits(m.scale(reals[i], s))) == m.scale(reals[i], s)
    {
      ComponentNear(m, reals, s, i);
    }
  }

  /** What normalization returns passes the validator. */
  lemma NormalizedIsValid(m: Machine, values: seq<Component>)
    requires Faithful(m) && Normalize(m, values).Some? && |values| <= MAX_LENGTH
    ensures Valid(m, Normalize(m, values).value)
  {
    var out := Normalize(m, values).value;
    var q := Reals(out);
    NormalizedSum(m, Reals(values), q);
    assert SumsWell(m, q);
  }

  /** Normalization accepts exactly the nonempty finite vectors whose computed squared norm exceeds the epsilon. */
  lemma NormalizesExactly(m: Machine, values: seq<Component>)
    requires Faithful(m) && |values| <= MAX_LENGTH
    ensures Normalize(m, values).Some? <==> values != [] && AllFinite(values) && m.sumSquares(Reals(values)) > EPSILON
  {
    if values != [] && AllFinite(values) && m.sumSquares(Reals(values)) > EPSILON {
      Normalizes(m, values);
    }
  }

  lemma {:induction false} LayoutAt(m: Machine, values: seq<Component>, n: nat, i: nat)
    requires i < n <= |values|
    ensures LayOut(m, values, n)[4 * i..4 * i + 4] == ToLe(m.toBits(values[i]))
  {
    if i < n - 1 {
      LayoutAt(m, values, n - 1, i);
    }
  }

  /** The byte layout round-trips. */
  lemma LayoutReadsBack(m: Machine, values: seq<Component>)
    requires forall i :: 0 <= i < |values| ==> m.fromBits(m.toBits(values[i])) == values[i]
    ensures ReadOff(m, LayOut(m, values, |values|), |values|) == values
  {
    var bytes := LayOut(m, values, |values|);
    forall i | 0 <= i < |values| ensures ReadOff(m, bytes, |values|)[i] == values[i] {
      LayoutAt(m, values, |values|, i);
      LittleEndianReadsBack(m.toBits(values[i]));
    }
  }

  /** Every vector that encodes decodes, to its normalized form. */
  lemma EncodedDecodes(m: Machine, values: seq<Component>, dimensions: nat)
    requires Faithful(m) && dimensions <= MAX_LENGTH && Encode(m, values, dimensions).Some?
    ensures Decode(m, Encode(m, values, dimensions).value, dimensions) == Normalize(m, values)
  {
    NormalizesExactly(m, values);
    Normalizes(m, values);
    NormalizedIsValid(m, values);
    LayoutReadsBack(m, Normalize(m, values).value);
  }

  /** Normalizing a normalized vector works again: the cache normalizes on receipt and once more on encoding. */
  lemma NormalizesTwice(m: Machine, values: seq<Component>)
    requires Faithful(m) && Normalize(m, values).Some? && |values| <= MAX_LENGTH
    ensures var once := Normalize(m, values).value;
            Normalize(m, once).Some? && Valid(m, Normalize(m, once).value)
  {
    var once := Normalize(m, values).value;
    NormalizedIsValid(m, values);
    NormalizesExactly(m, once);
    NormalizedIsValid(m, once);
  }
}
