/** The encoding of section 3 of RFC 3629, and that the byte lengths of `Tokens` are its lengths. */
module Utf8 {
  import opened Prelude
  import opened Tokens

  type Octet = b: nat | b < 256

  /** The octets of one character. */
  function Octets(c: Scalar): (out: seq<Octet>)
    ensures |out| == Width(c)
  {
    if c < 0x80 then [c]
    else if c < 0x800 then [0xC0 + c / 64, 0x80 + c % 64]
    else if c < 0x1_0000 then [0xE0 + c / 4096, 0x80 + c / 64 % 64, 0x80 + c % 64]
    else [0xF0 + c / 262144, 0x80 + c / 4096 % 64, 0x80 + c / 64 % 64, 0x80 + c % 64]
  }

  function Encoded(text: Text): seq<Octet> {
    if text == [] then [] else Octets(text[0]) + Encoded(text[1..])
  }

  // --------------------------------------------------------------- decoding

  predicate Continues(b: Octet) {
    0x80 <= b < 0xC0
  }

  /** How many octets a sequence with this first octet has; none if no sequence starts so. */
  function Lead(b: Octet): (n: nat)
    ensures n <= 4
  {
    if b < 0x80 then 1
    else if 0xC2 <= b < 0xE0 then 2
    else if 0xE0 <= b < 0xF0 then 3
    else if 0xF0 <= b < 0xF5 then 4 else 0
  }

  predicate WellFormed(s: seq<Octet>) {
    s != [] && Lead(s[0]) == |s| && forall i :: 1 <= i < |s| ==> Continues(s[i])
  }

  function Joined(high: int, low: Octet): int {
    high * 64 + (low as int - 0x80)
  }

  /** The number that the octets of one sequence spell. */
  function Spelled(s: seq<Octet>): int
    requires WellFormed(s)
  {
    var first := s[0] as int;
    if |s| == 1 then first
    else if |s| == 2 then Joined(first - 0xC0, s[1])
    else if |s| == 3 then Joined(Joined(first - 0xE0, s[1]), s[2])
    else Joined(Joined(Joined(first - 0xF0, s[1]), s[2]), s[3])
  }

  /** The smallest number that needs `n` octets: anything below is overlong. */
  function Smallest(n: nat): nat {
    if n <= 1 then 0 else if n == 2 then 0x80 else if n == 3 then 0x800 else 0x1_0000
  }

  predicate IsScalar(n: int) {
    0 <= n < 0xD800 || 0xE000 <= n < 0x11_0000
  }

  /** A strict decoder: no overlong sequence, no surrogate, nothing beyond 10FFFF. */
  function Decoded(bytes: seq<Octet>): Option<Text> {
    if bytes == [] then Some([])
    else
      var n := Lead(bytes[0]);
      if n == 0 || n > |bytes| || !WellFormed(bytes[..n]) then None
      else
        var c := Spelled(bytes[..n]);
        if c < Smallest(n) || !IsScalar(c) then None
        else
          var rest := Decoded(bytes[n..]);
          if rest.None? then None else Some([c] + rest.value)
  }

  lemma OctetsSpell(c: Scalar)
    ensures var s := Octets(c); WellFormed(s) && Spelled(s) == c && Smallest(|s|) <= c
  {
    SixBits(c);
    SixBits(c / 64);
    SixBits(c / 4096);
    assert c / 64 / 64 == c / 4096 && c / 4096 / 64 == c / 262144;
  }

  lemma SixBits(n: nat)
    ensures n == n / 64 * 64 + n % 64
  {
  }

  /** Every text is read back from its encoding. */
  lemma {:induction false} EncodedDecodes(text: Text)
    ensures Decoded(Encoded(text)) == Some(text)
  {
    if text != [] {
      var s, rest := Octets(text[0]), Encoded(text[1..]);
      OctetsSpell(text[0]);
      EncodedDecodes(text[1..]);
      var bytes := s + rest;
      assert bytes[..|s|] == s && bytes[|s|..] == rest;
      assert [text[0]] + text[1..] == text;
    }
  }

  lemma Parted(high: nat, low: Octet)
    requires Continues(low)
    ensures Joined(high, low) / 64 == high && 0x80 + Joined(high, low) % 64 == low
  {
  }

  lemma SpelledOctets(s: seq<Octet>)
    requires WellFormed(s) && Smallest(|s|) <= Spelled(s) && IsScalar(Spelled(s))
    ensures Octets(Spelled(s)) == s
  {
    var c: nat := Spelled(s);
    assert c / 64 / 64 == c / 4096 && c / 4096 / 64 == c / 262144;
    if |s| == 2 {
      Parted(s[0] - 0xC0, s[1]);
      assert c < 0x800;
    } else if |s| == 3 {
      Parted(s[0] - 0xE0, s[1]);
      Parted(Joined(s[0] - 0xE0, s[1]), s[2]);
      assert c < 0x1_0000;
    } else if |s| == 4 {
      Parted(s[0] - 0xF0, s[1]);
      Parted(Joined(s[0] - 0xF0, s[1]), s[2]);
      Parted(Joined(Joined(s[0] - 0xF0, s[1]), s[2]), s[3]);
    }
  }

  /** And whatever decodes is the encoding of what it decodes to. */
  lemma {:induction false} DecodedEncodes(bytes: seq<Octet>)
    requires Decoded(bytes).Some?
    ensures Encoded(Decoded(bytes).value) == bytes
  {
    if bytes != [] {
      var n := Lead(bytes[0]);
      SpelledOctets(bytes[..n]);
      DecodedEncodes(bytes[n..]);
      var text := Decoded(bytes).value;
      assert text[1..] == Decoded(bytes[n..]).value;
      assert bytes[..n] + bytes[n..] == bytes;
    }
  }

  // ----------------------------------------------------------------- lengths

  lemma {:induction false} EncodedAppend(a: Text, b: Text)
    ensures Encoded(a + b) == Encoded(a) + Encoded(b)
  {
    if a == [] {
      assert a + b == b;
    } else {
      EncodedAppend(a[1..], b);
      assert (a + b)[1..] == a[1..] + b;
    }
  }

  /** The offset of a character boundary is the length of the encoding up to it. */
  lemma {:induction false} OffsetIsLength(text: Text, n: nat)
    requires n <= |text|
    ensures Offset(text, n) == |Encoded(text[..n])|
  {
    if n > 0 {
      OffsetIsLength(text, n - 1);
      EncodedAppend(text[..n - 1], [text[n - 1]]);
      assert text[..n] == text[..n - 1] + [text[n - 1]];
      assert [text[n - 1]][1..] == [];
    }
  }

  /** Byte lengths count the octets of the encoding, and cutting at a boundary cuts the encoding there. */
  lemma BytesAreOctets(text: Text, n: nat)
    requires n <= |text|
    ensures Bytes(text) == |Encoded(text)|
    ensures Offset(text, n) <= |Encoded(text)| && Encoded(text)[..Offset(text, n)] == Encoded(text[..n])
  {
    OffsetIsLength(text, |text|);
    assert text[..|text|] == text;
    OffsetIsLength(text, n);
    EncodedAppend(text[..n], text[n..]);
    assert text[..n] + text[n..] == text;
  }
}
