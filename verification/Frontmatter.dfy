/** `split_frontmatter` of parsing/markdown.rs. */
module Frontmatter {
  import opened Prelude

  const FENCE := "---"
  const CLOSING := "\n---"

  /** What may follow a closing fence. */
  predicate LineEnds(after: string) {
    "\n" <= after || "\r\n" <= after || after == "" || after == "\r"
  }

  predicate ClosesAt(rest: string, i: nat) {
    i + |CLOSING| <= |rest| && rest[i..i + |CLOSING|] == CLOSING && LineEnds(rest[i + |CLOSING|..])
  }

  /** The line break after the opening fence, when there is one. */
  function OpeningBreak(input: string): Option<string> {
    if !(FENCE <= input) then None
    else if FENCE + "\n" <= input then Some("\n")
    else if FENCE + "\r\n" <= input then Some("\r\n")
    else None
  }

  /** The line break dropped after the closing fence. */
  function ClosingBreak(after: string): (b: string)
    ensures b <= after
  {
    if "\r\n" <= after then "\r\n" else if "\n" <= after then "\n" else ""
  }

  /** The first closing fence cuts the input; without one it is all body. */
  ghost predicate IsSplit(input: string, front: Option<string>, body: string) {
    var opening := OpeningBreak(input);
    if opening.None? then front == None && body == input
    else
      var rest := input[|FENCE| + |opening.value|..];
      if front.None? then body == input && forall i :: 0 <= i < |rest| ==> !ClosesAt(rest, i)
      else FrontEndsAt(rest, |front.value|, front.value, body)
  }

  ghost predicate FrontEndsAt(rest: string, index: nat, front: string, body: string) {
    && ClosesAt(rest, index) && (forall i :: 0 <= i < index ==> !ClosesAt(rest, i))
    && front == rest[..index]
    && var after := rest[index + |CLOSING|..]; body == after[|ClosingBreak(after)|..]
  }

  method SplitFrontmatter(input: string) returns (front: Option<string>, body: string)
    ensures IsSplit(input, front, body)
  {
    var opening := OpeningBreak(input);
    if opening.None? {
      return None, input;
    }
    var rest := input[|FENCE| + |opening.value|..];
    var index := 0;
    while index < |rest|
      invariant 0 <= index <= |rest| && forall i :: 0 <= i < index ==> !ClosesAt(rest, i)
    {
      if ClosesAt(rest, index) {
        var after := rest[index + |CLOSING|..];
        return Some(rest[..index]), after[|ClosingBreak(after)|..];
      }
      index := index + 1;
    }
    front, body := None, input;
  }

  lemma OpeningCut(input: string)
    requires OpeningBreak(input).Some?
    ensures var opening := OpeningBreak(input).value;
            |FENCE| + |opening| <= |input| && input == FENCE + opening + input[|FENCE| + |opening|..]
  {
  }

  lemma FrontCut(rest: string, front: string, body: string)
    requires FrontEndsAt(rest, |front|, front, body)
    ensures var closing := ClosingBreak(rest[|front| + |CLOSING|..]); rest == front + CLOSING + closing + body
  {
    var after := rest[|front| + |CLOSING|..];
    assert after == ClosingBreak(after) + body;
    assert rest == front + CLOSING + after;
    assert front + CLOSING + (ClosingBreak(after) + body) == front + CLOSING + ClosingBreak(after) + body;
  }

  lemma Reassembled(a: string, b: string, c: string, d: string, e: string)
    ensures a + (b + c + d + e) == a + b + c + d + e
  {
  }

  /** Nothing of the input is lost: the two fences and their line breaks put it together again. */
  lemma SplitIsLossless(input: string, front: string, body: string) returns (opening: string, closing: string)
    requires IsSplit(input, Some(front), body)
    ensures opening == "\n" || opening == "\r\n"
    ensures closing == "" || closing == "\n" || closing == "\r\n"
    ensures input == FENCE + opening + front + CLOSING + closing + body
  {
    opening := OpeningBreak(input).value;
    OpeningCut(input);
    var rest := input[|FENCE| + |opening|..];
    FrontCut(rest, front, body);
    closing := ClosingBreak(rest[|front| + |CLOSING|..]);
    Reassembled(FENCE + opening, front, CLOSING, closing, body);
  }
}
