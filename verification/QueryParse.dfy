/** query_parse.rs: user text to an FTS5 expression made only of quoted literals. */
module QueryParse {
  import opened Prelude
  import opened TextTools

  const MAX_QUERY_CHARS: nat := 512

  predicate IsSeparator(c: char) {
    c in "(){}[]:;,!?*^~|&+=<>/\\@#$%`"
  }

  predicate Splits(c: char) {
    IsWhitespace(c) || IsSeparator(c)
  }

  // --------------------------------------------------------- pure helpers

  /** `split_whitespace`, with the field being read. */
  function Fields(s: string, current: string): seq<string> {
    if s == "" then (if current == "" then [] else [current])
    else if IsWhitespace(s[0]) then (if current == "" then [] else [current]) + Fields(s[1..], "")
    else Fields(s[1..], current + [s[0]])
  }

  /** `normalize_spaces`. */
  function NormalizeSpaces(s: string): string {
    Join(Fields(s, ""), " ")
  }

  /** `replace('"', "\"\"")`. */
  function Escape(term: string): string {
    if term == "" then "" else (if term[0] == '"' then "\"\"" else [term[0]]) + Escape(term[1..])
  }

  /** `quote_fts_literal`. */
  function Quote(term: string): string {
    "\"" + Escape(term) + "\""
  }

  function QuoteAll(terms: seq<string>): seq<string> {
    if terms == [] then [] else [Quote(terms[0])] + QuoteAll(terms[1..])
  }

  function FtsMatch(terms: seq<string>): string {
    Join(QuoteAll(terms), " OR ")
  }

  // ------------------------------------------------------- the grammar read

  /** `push_term`, and nothing when there is nothing to push. */
  function Word(raw: string): seq<string> {
    var cleaned := TrimMatches(raw, Splits);
    if cleaned == "" then [] else [cleaned]
  }

  function Phrase(raw: string): seq<string> {
    var trimmed := Trim(raw);
    if trimmed == "" then [] else [NormalizeSpaces(trimmed)]
  }

  function Before(head: seq<string>, tail: Option<seq<string>>): Option<seq<string>> {
    if tail.None? then None else Some(head + tail.value)
  }

  /** Terms of the rest of a query, `current` being the word under construction; `None` when a quote stays open. */
  function Terms(s: string, current: string): Option<seq<string>>
    decreases |s|
  {
    if s == "" then Some(Word(current))
    else if s[0] == '"' then
      var end := IndexOf(s, '"', 1);
      if end == |s| then None else Before(Word(current) + Phrase(s[1..end]), Terms(s[end + 1..], ""))
    else if Splits(s[0]) then Before(Word(current), Terms(s[1..], ""))
    else Terms(s[1..], current + [s[0]])
  }

  datatype Outcome =
    | Parsed(original: string, terms: seq<string>, ftsMatch: string)
    | QueryEmpty
    | QueryInvalid

  function Parse(input: string): Outcome {
    var original := Trim(input);
    if original == "" then QueryEmpty
    else if |original| > MAX_QUERY_CHARS then QueryInvalid
    else
      var terms := Terms(original, "");
      if terms.None? then QueryInvalid
      else if terms.value == [] then QueryEmpty
      else Parsed(original, terms.value, FtsMatch(terms.value))
  }

  // ----------------------------------------------------------------- the loop

  lemma BeforeBefore(a: seq<string>, b: seq<string>, t: Option<seq<string>>)
    ensures Before(a, Before(b, t)) == Before(a + b, t)
  {
    if t.Some? {
      assert a + (b + t.value) == a + b + t.value;
    }
  }

  /** The loop over a quoted phrase; `next` is past its closing quote. */
  method ReadPhrase(s: string, start: nat) returns (phrase: string, closed: bool, next: nat)
    requires start <= |s|
    ensures var end := IndexOf(s, '"', start);
            && phrase == s[start..end] && (closed <==> end < |s|) && next == if closed then end + 1 else |s|
  {
    phrase, closed, next := "", false, start;
    while next < |s|
      invariant start <= next <= |s| && phrase == s[start..next]
      invariant IndexOf(s, '"', start) == IndexOf(s, '"', next)
    {
      if s[next] == '"' {
        return phrase, true, next + 1;
      }
      phrase := phrase + [s[next]];
      next := next + 1;
    }
  }

  /** Where the loop stands: `rest` is still to be read, `terms` are pushed, `current` is open. */
  ghost predicate At(rest: string, terms: seq<string>, current: string, goal: Option<seq<string>>) {
    Before(terms, Terms(rest, current)) == goal
  }

  lemma PhrasePushed(terms: seq<string>, word: seq<string>, phrase: seq<string>, rest: Option<seq<string>>)
    ensures Before(terms, Before(word + phrase, rest)) == Before(terms + word + phrase, rest)
  {
    BeforeBefore(terms, word + phrase, rest);
    assert terms + (word + phrase) == terms + word + phrase;
  }

  lemma AtOpenQuote(rest: string, terms: seq<string>, current: string, goal: Option<seq<string>>)
    requires rest != "" && rest[0] == '"' && At(rest, terms, current, goal) && IndexOf(rest, '"', 1) == |rest|
    ensures goal == None
  {
  }

  lemma AtClosedQuote(rest: string, end: nat, terms: seq<string>, current: string, goal: Option<seq<string>>)
    requires rest != "" && rest[0] == '"' && At(rest, terms, current, goal) && IndexOf(rest, '"', 1) == end < |rest|
    ensures At(rest[end + 1..], terms + Word(current) + Phrase(rest[1..end]), "", goal)
  {
    PhrasePushed(terms, Word(current), Phrase(rest[1..end]), Terms(rest[end + 1..], ""));
  }

  lemma {:induction false} SuffixQuote(s: string, i: nat, from: nat)
    requires i <= from <= |s|
    ensures IndexOf(s[i..], '"', from - i) == IndexOf(s, '"', from) - i
    decreases |s| - from
  {
    if from < |s| && s[from] != '"' {
      SuffixQuote(s, i, from + 1);
    }
  }

  lemma AtOther(rest: string, terms: seq<string>, current: string, goal: Option<seq<string>>)
    requires rest != "" && rest[0] != '"' && At(rest, terms, current, goal)
    ensures if Splits(rest[0]) then At(rest[1..], terms + Word(current), "", goal)
            else At(rest[1..], terms, current + [rest[0]], goal)
  {
    BeforeBefore(terms, Word(current), Terms(rest[1..], ""));
  }

  lemma AtStart(s: string)
    ensures At(s, [], "", Terms(s, ""))
  {
    if Terms(s, "").Some? {
      assert [] + Terms(s, "").value == Terms(s, "").value;
    }
  }

  lemma AtEnd(terms: seq<string>, current: string, goal: Option<seq<string>>)
    requires At("", terms, current, goal)
    ensures goal == Some(terms + Word(current))
  {
  }

  /** `push_term`, when there is a word to push. */
  method PushTerm(terms: seq<string>, current: string) returns (pushed: seq<string>)
    ensures pushed == terms + Word(current)
  {
    pushed := terms;
    if current != "" {
      var cleaned := TrimMatches(current, Splits);
      if cleaned != "" {
        pushed := pushed + [cleaned];
      }
    }
  }

  method PushPhrase(terms: seq<string>, phrase: string) returns (pushed: seq<string>)
    ensures pushed == terms + Phrase(phrase)
  {
    pushed := terms;
    var trimmed := Trim(phrase);
    if trimmed != "" {
      pushed := pushed + [NormalizeSpaces(trimmed)];
    }
  }

  /** A quote at `i` closes the open word and starts a phrase. */
  method ReadQuoted(s: string, i: nat, terms: seq<string>, current: string, ghost goal: Option<seq<string>>)
    returns (pushed: seq<string>, closed: bool, next: nat)
    requires i < |s| && s[i] == '"' && At(s[i..], terms, current, goal)
    ensures i < next <= |s| && if closed then At(s[next..], pushed, "", goal) else goal == None
  {
    pushed := PushTerm(terms, current);
    var phrase;
    phrase, closed, next := ReadPhrase(s, i + 1);
    SuffixQuote(s, i, i + 1);
    if closed {
      AtClosedQuote(s[i..], next - 1 - i, terms, current, goal);
      assert s[i..][1..next - 1 - i] == phrase && s[i..][next - i..] == s[next..];
      pushed := PushPhrase(pushed, phrase);
    } else {
      AtOpenQuote(s[i..], terms, current, goal);
    }
  }

  /** The character loop; `None` is an unclosed phrase. */
  method ReadTerms(original: string) returns (result: Option<seq<string>>)
    ensures result == Terms(original, "")
  {
    ghost var goal := Terms(original, "");
    AtStart(original);
    var terms: seq<string>, current, i := [], "", 0;
    assert original[0..] == original;
    while i < |original|
      invariant 0 <= i <= |original| && At(original[i..], terms, current, goal)
    {
      var ch := original[i];
      if ch == '"' {
        var closed;
        terms, closed, i := ReadQuoted(original, i, terms, current, goal);
        if !closed {
          return None;
        }
        current := "";
      } else {
        AtOther(original[i..], terms, current, goal);
        if Splits(ch) {
          terms := PushTerm(terms, current);
          current := "";
        } else {
          current := current + [ch];
        }
        i := i + 1;
      }
    }
    AtEnd(terms, current, goal);
    terms := PushTerm(terms, current);
    result := Some(terms);
  }

  /** `parse_lexical_query`. */
  method ParseLexicalQuery(input: string) returns (outcome: Outcome)
    ensures outcome == Parse(input)
  {
    var original := Trim(input);
    if original == "" {
      return QueryEmpty;
    }
    if |original| > MAX_QUERY_CHARS {
      return QueryInvalid;
    }
    var terms := ReadTerms(original);
    if terms.None? {
      return QueryInvalid;
    }
    outcome := if terms.value == [] then QueryEmpty else Parsed(original, terms.value, FtsMatch(terms.value));
  }
}
