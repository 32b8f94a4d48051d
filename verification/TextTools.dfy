/** The string operations of Rust's library that the parsers use. */
module TextTools {

  /** `char::is_whitespace`: the Unicode White_Space property. */
  predicate IsWhitespace(c: char) {
    var n := c as int;
    9 <= n <= 13 || n == 0x20 || n == 0x85 || n == 0xA0 || n == 0x1680 || 0x2000 <= n <= 0x200A
    || n == 0x2028 || n == 0x2029 || n == 0x202F || n == 0x205F || n == 0x3000
  }

  /** `trim_matches`, from the left and from the right. */
  function TrimLeft(s: string, drop: char -> bool): (t: string)
    ensures |t| <= |s|
  {
    if s != "" && drop(s[0]) then TrimLeft(s[1..], drop) else s
  }

  function TrimRight(s: string, drop: char -> bool): (t: string)
    ensures |t| <= |s|
  {
    if s != "" && drop(s[|s| - 1]) then TrimRight(s[..|s| - 1], drop) else s
  }

  function TrimMatches(s: string, drop: char -> bool): string {
    TrimRight(TrimLeft(s, drop), drop)
  }

  function Trim(s: string): string {
    TrimMatches(s, IsWhitespace)
  }

  /** The first index of a character from `from` on, or the length. */
  function IndexOf(s: string, c: char, from: nat): (i: nat)
    requires from <= |s|
    ensures from <= i <= |s| && (i < |s| ==> s[i] == c) && forall j :: from <= j < i ==> s[j] != c
    decreases |s| - from
  {
    if from == |s| || s[from] == c then from else IndexOf(s, c, from + 1)
  }

  lemma {:induction false} IndexFound(s: string, c: char, from: nat, end: nat)
    requires from <= end <= |s| && (end < |s| ==> s[end] == c) && forall j :: from <= j < end ==> s[j] != c
    ensures IndexOf(s, c, from) == end
    decreases end - from
  {
    if from < end {
      IndexFound(s, c, from + 1, end);
    }
  }

  /** `join`. */
  function Join(words: seq<string>, between: string): string {
    if words == [] then ""
    else if |words| == 1 then words[0]
    else words[0] + between + Join(words[1..], between)
  }

  lemma {:induction false} JoinSnoc(words: seq<string>, last: string, between: string)
    requires words != []
    ensures Join(words + [last], between) == Join(words, between) + between + last
  {
    assert (words + [last])[1..] == words[1..] + [last];
    if |words| > 1 {
      JoinSnoc(words[1..], last, between);
    } else {
      assert Join([last], between) == last;
    }
  }

  lemma {:induction false} LeftEdge(s: string, drop: char -> bool)
    ensures var t := TrimLeft(s, drop); (t != "" ==> !drop(t[0])) && forall c :: c in t ==> c in s
  {
    if s != "" && drop(s[0]) {
      LeftEdge(s[1..], drop);
    }
  }

  lemma {:induction false} RightEdge(s: string, drop: char -> bool)
    ensures var t := TrimRight(s, drop);
            t <= s && (t != "" ==> !drop(t[|t| - 1])) && forall c :: c in t ==> c in s
  {
    if s != "" && drop(s[|s| - 1]) {
      RightEdge(s[..|s| - 1], drop);
    }
  }

  lemma Trimmed(s: string, drop: char -> bool)
    ensures var t := TrimMatches(s, drop);
            (t != "" ==> !drop(t[0]) && !drop(t[|t| - 1])) && forall c :: c in t ==> c in s
  {
    LeftEdge(s, drop);
    RightEdge(TrimLeft(s, drop), drop);
  }

  // ---------------------------------------------------------------- numbers

  const DIGITS := "0123456789"

  /** `to_string` of a number. */
  function Decimal(n: nat): (s: string)
    ensures s != "" && forall i :: 0 <= i < |s| ==> s[i] in DIGITS
  {
    if n < 10 then [DIGITS[n]] else Decimal(n / 10) + [DIGITS[n % 10]]
  }

  function DigitValue(c: char): nat {
    if '0' <= c <= '9' then c as int - '0' as int else 0
  }

  function Value(s: string): nat {
    if s == "" then 0 else 10 * Value(s[..|s| - 1]) + DigitValue(s[|s| - 1])
  }

  lemma {:induction false} DecimalReadsBack(n: nat)
    ensures Value(Decimal(n)) == n
  {
    if n < 10 {
      assert Value("") == 0;
      assert [DIGITS[n]][..0] == "";
    } else {
      DecimalReadsBack(n / 10);
      assert Decimal(n)[..|Decimal(n)| - 1] == Decimal(n / 10);
    }
  }
}
