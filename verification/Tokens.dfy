/** tokens.rs: text as Unicode scalar values, byte lengths by section 3 of RFC 3629, truncation and estimates. */
module Tokens {

  /** A scalar value. */
  type Scalar = c: nat | c < 0xD800 || 0xE000 <= c < 0x11_0000

  type Text = seq<Scalar>

  const RESPONSE_OVERHEAD_TOKENS: nat := 16
  const RESULT_OVERHEAD_TOKENS: nat := 8
  const HARD_BYTE_CAP: nat := 48_000
  const MAX_HIT_TEXT_BYTES: nat := 4_000
  const ELLIPSIS: Scalar := 0x2026

  /** Bytes of one character. */
  function Width(c: Scalar): (w: nat)
    ensures 1 <= w <= 4
  {
    if c < 0x80 then 1 else if c < 0x800 then 2 else if c < 0x1_0000 then 3 else 4
  }

  /** Bytes of the first `n` characters: the offset of a character boundary. */
  function Offset(text: Text, n: nat): (bytes: nat)
    requires n <= |text|
    ensures n <= bytes <= 4 * n
  {
    if n == 0 then 0 else Offset(text, n - 1) + Width(text[n - 1])
  }

  function Bytes(text: Text): nat {
    Offset(text, |text|)
  }

  lemma {:induction false} OffsetGrows(text: Text, m: nat, n: nat)
    requires m <= n <= |text|
    ensures Offset(text, m) + (n - m) <= Offset(text, n)
  {
    if m < n {
      OffsetGrows(text, m, n - 1);
    }
  }

  lemma {:induction false} OffsetOfPrefix(text: Text, more: Text, n: nat)
    requires n <= |text| && n <= |more| && text[..n] == more[..n]
    ensures Offset(text, n) == Offset(more, n)
  {
    if n > 0 {
      assert text[..n][n - 1] == more[..n][n - 1];
      assert text[..n - 1] == text[..n][..n - 1] == more[..n - 1];
      OffsetOfPrefix(text, more, n - 1);
    }
  }

  /** How many characters fit in `max` bytes. */
  ghost predicate IsLongestFit(text: Text, max: nat, k: nat) {
    k <= |text| && Offset(text, k) <= max && (k < |text| ==> Offset(text, k + 1) > max)
  }

  lemma LongestFitIsUnique(text: Text, max: nat, k: nat, m: nat)
    requires IsLongestFit(text, max, k) && IsLongestFit(text, max, m)
    ensures k == m
  {
    if k < m {
      OffsetGrows(text, k + 1, m);
    } else if m < k {
      OffsetGrows(text, m + 1, k);
    }
  }

  /** `is_char_boundary`, and which one it is. */
  method BoundaryAt(text: Text, end: nat) returns (found: bool, k: nat)
    ensures found ==> k <= |text| && Offset(text, k) == end
    ensures !found ==> forall i {:trigger Offset(text, i)} :: 0 <= i <= |text| ==> Offset(text, i) != end
  {
    k := 0;
    var offset := 0;
    while k < |text| && offset < end
      invariant 0 <= k <= |text| && offset == Offset(text, k)
      invariant forall i {:trigger Offset(text, i)} :: 0 <= i < k ==> Offset(text, i) < end
    {
      offset := offset + Width(text[k]);
      k := k + 1;
    }
    found := offset == end;
    if !found {
      forall i {:trigger Offset(text, i)} | 0 <= i <= |text| ensures Offset(text, i) != end {
        if i >= k {
          OffsetGrows(text, k, i);
        }
      }
    }
  }

  /** `out` is what truncating `text` to `max` bytes gives. */
  ghost predicate IsTruncation(text: Text, max: nat, out: Text, truncated: bool) {
    if Bytes(text) <= max then out == text && !truncated
    else
      && truncated
      && exists k :: IsLongestFit(text, max, k) && out == WithEllipsis(text, k)
  }

  function WithEllipsis(text: Text, k: nat): Text
    requires k <= |text|
  {
    if k > 0 && text[k - 1] == ELLIPSIS then text[..k] else text[..k] + [ELLIPSIS]
  }

  /** `truncate_utf8`: `end` walks back from the byte limit to a character boundary. */
  method TruncateUtf8(text: Text, max: nat) returns (out: Text, truncated: bool)
    ensures IsTruncation(text, max, out, truncated)
  {
    var length := ByteLength(text);
    if length <= max {
      return text, false;
    }
    var end: nat := max;
    var found, k := BoundaryAt(text, end);
    while end > 0 && !found
      invariant end <= max
      invariant found ==> 0 <= k <= |text| && Offset(text, k) == end
      invariant forall i {:trigger Offset(text, i)} :: 0 <= i <= |text| ==>
                Offset(text, i) <= end || Offset(text, i) > max
      invariant !found ==> forall i {:trigger Offset(text, i)} :: 0 <= i <= |text| ==> Offset(text, i) != end
    {
      end := end - 1;
      found, k := BoundaryAt(text, end);
    }
    assert Offset(text, 0) == 0 && found;
    if k < |text| {
      OffsetGrows(text, k, k + 1);
    }
    assert IsLongestFit(text, max, k);
    out, truncated := WithEllipsis(text, k), true;
  }

  method ByteLength(text: Text) returns (bytes: nat)
    ensures bytes == Bytes(text)
  {
    bytes := 0;
    for i := 0 to |text|
      invariant bytes == Offset(text, i)
    {
      bytes := bytes + Width(text[i]);
    }
  }

  /**
   A truncated text has no more characters, and at most an ellipsis more than `max`
   bytes; it has lost at least one character.
   */
  lemma TruncationBounds(text: Text, max: nat, out: Text, truncated: bool)
    requires IsTruncation(text, max, out, truncated)
    ensures |out| <= |text| && Bytes(out) <= max + 3
    ensures !truncated ==> out == text
  {
    if truncated {
      var k: nat :| IsLongestFit(text, max, k) && out == WithEllipsis(text, k);
      assert out[..k] == text[..k];
      OffsetOfPrefix(text, out, k);
    }
  }

  lemma TruncationIsUnique(text: Text, max: nat, a: Text, ta: bool, b: Text, tb: bool)
    requires IsTruncation(text, max, a, ta) && IsTruncation(text, max, b, tb)
    ensures a == b && ta == tb
  {
    if Bytes(text) > max {
      var k: nat :| IsLongestFit(text, max, k) && a == WithEllipsis(text, k);
      var m: nat :| IsLongestFit(text, max, m) && b == WithEllipsis(text, m);
      LongestFitIsUnique(text, max, k, m);
    }
  }

  /** `HeuristicTokenEstimator::estimate`: a third of the characters, rounded up. */
  function Estimate(text: Text): (tokens: nat)
    ensures 3 * tokens >= |text| > 3 * tokens - 3
  {
    (|text| + 2) / 3
  }

  /** `estimate_response_tokens` over the first `n` texts. */
  function ResponseTokens(query: Text, texts: seq<Text>, n: nat): nat
    requires n <= |texts|
  {
    if n == 0 then RESPONSE_OVERHEAD_TOKENS + Estimate(query)
    else ResponseTokens(query, texts, n - 1) + RESULT_OVERHEAD_TOKENS + Estimate(texts[n - 1])
  }

  method EstimateResponseTokens(query: Text, texts: seq<Text>) returns (total: nat)
    ensures total == ResponseTokens(query, texts, |texts|)
  {
    total := RESPONSE_OVERHEAD_TOKENS + Estimate(query);
    for i := 0 to |texts|
      invariant total == ResponseTokens(query, texts, i)
    {
      total := total + (RESULT_OVERHEAD_TOKENS + Estimate(texts[i]));
    }
  }
}
