/** Query building and FTS5 string lexing undo each other. */
module QueryParseTheorems {
  import opened Prelude
  import opened TextTools
  import opened QueryParse

  // ---------------------------------------------------------- FTS5 lexing

  /** What FTS5 reads after an opening quote: the string up to a lone quote, doubled quotes undone, and the rest. */
  function LexString(s: string): Option<(string, string)> {
    if s == "" then None
    else if s[0] == '"' then
      if |s| > 1 && s[1] == '"' then Prefixed('"', LexString(s[2..])) else Some(("", s[1..]))
    else Prefixed(s[0], LexString(s[1..]))
  }

  function Prefixed(c: char, rest: Option<(string, string)>): Option<(string, string)> {
    if rest.None? then None else Some(([c] + rest.value.0, rest.value.1))
  }

  lemma {:induction false} LexStringShrinks(s: string)
    ensures LexString(s).Some? ==> |LexString(s).value.1| < |s|
  {
    if s != "" {
      if s[0] != '"' {
        LexStringShrinks(s[1..]);
      } else if |s| > 1 && s[1] == '"' {
        LexStringShrinks(s[2..]);
      }
    }
  }

  const OR := " OR "

  /** An expression of string literals combined with OR, and nothing else. */
  function LexMatch(s: string): Option<seq<string>>
    decreases |s|
  {
    if s == "" || s[0] != '"' then None
    else
      LexStringShrinks(s[1..]);
      var first := LexString(s[1..]);
      if first.None? then None
      else
        var (term, rest) := first.value;
        if rest == "" then Some([term])
        else if OR <= rest then Before([term], LexMatch(rest[|OR|..]))
        else None
  }

  lemma {:induction false} LexEscaped(term: string, rest: string)
    requires rest == "" || rest[0] != '"'
    ensures LexString(Escape(term) + "\"" + rest) == Some((term, rest))
  {
    var s := Escape(term) + "\"" + rest;
    if term == "" {
      assert s == "\"" + rest;
      assert s[1..] == rest;
    } else {
      LexEscaped(term[1..], rest);
      var tail := Escape(term[1..]) + "\"" + rest;
      if term[0] == '"' {
        assert s == "\"\"" + tail;
        assert s[2..] == tail;
      } else {
        assert s == [term[0]] + tail;
        assert s[1..] == tail;
      }
      assert [term[0]] + term[1..] == term;
    }
  }

  lemma LexQuoted(term: string, rest: string)
    requires rest == "" || rest[0] != '"'
    ensures var s := Quote(term) + rest;
            s != "" && s[0] == '"' && LexString(s[1..]) == Some((term, rest))
  {
    var s := Quote(term) + rest;
    LexEscaped(term, rest);
    assert s[1..] == Escape(term) + "\"" + rest;
  }

  lemma {:induction false} QuoteAllLength(terms: seq<string>)
    ensures |QuoteAll(terms)| == |terms|
  {
    if terms != [] {
      QuoteAllLength(terms[1..]);
    }
  }

  /** A joined list of literals is the first literal, then the rest. */
  lemma JoinedLiterals(terms: seq<string>, between: string)
    requires terms != []
    ensures Join(QuoteAll(terms), between)
            == Quote(terms[0]) + if |terms| == 1 then "" else between + Join(QuoteAll(terms[1..]), between)
  {
    QuoteAllLength(terms);
    assert QuoteAll(terms)[1..] == QuoteAll(terms[1..]);
    if |terms| == 1 {
      assert Quote(terms[0]) + "" == Quote(terms[0]);
    } else {
      var rest := Join(QuoteAll(terms[1..]), between);
      assert Quote(terms[0]) + between + rest == Quote(terms[0]) + (between + rest);
    }
  }

  lemma LexLast(term: string)
    ensures LexMatch(Quote(term) + "") == Some([term])
  {
    LexQuoted(term, "");
  }

  lemma LexMore(term: string, more: string)
    ensures LexMatch(Quote(term) + (OR + more)) == Before([term], LexMatch(more))
  {
    LexQuoted(term, OR + more);
    assert (OR + more)[|OR|..] == more;
  }

  /** Whatever the terms are, the expression lexes to exactly them: no term can become syntax. */
  lemma {:induction false} MatchLexesToTerms(terms: seq<string>)
    requires terms != []
    ensures LexMatch(FtsMatch(terms)) == Some(terms)
    decreases |terms|
  {
    JoinedLiterals(terms, OR);
    if |terms| == 1 {
      LexLast(terms[0]);
      assert [terms[0]] == terms;
    } else {
      MatchLexesToTerms(terms[1..]);
      LexMore(terms[0], FtsMatch(terms[1..]));
      assert [terms[0]] + terms[1..] == terms;
    }
  }

  // ------------------------------------------------------------ clean terms

  /** No whitespace at the edges; inside, single spaces only. */
  ghost predicate Tidy(t: string) {
    && (t != "" ==> !IsWhitespace(t[0]) && !IsWhitespace(t[|t| - 1]))
    && (forall i :: 0 <= i < |t| - 1 && IsWhitespace(t[i]) ==> t[i] == ' ' && !IsWhitespace(t[i + 1]))
  }

  ghost predicate Clean(t: string) {
    t != "" && '"' !in t && Tidy(t)
  }

  ghost predicate AllClean(terms: seq<string>) {
    forall i :: 0 <= i < |terms| ==> Clean(terms[i])
  }

  /** A word without whitespace or quotes. */
  ghost predicate Solid(word: string) {
    word != "" && forall i :: 0 <= i < |word| ==> !IsWhitespace(word[i]) && word[i] != '"'
  }

  lemma {:induction false} FieldsSolid(s: string, current: string)
    requires '"' !in s && (current == "" || Solid(current))
    ensures forall i :: 0 <= i < |Fields(s, current)| ==> Solid(Fields(s, current)[i])
    ensures current != "" || (s != "" && !IsWhitespace(s[0])) ==> Fields(s, current) != []
    decreases |s|
  {
    if s != "" {
      if IsWhitespace(s[0]) {
        FieldsSolid(s[1..], "");
      } else {
        FieldsSolid(s[1..], current + [s[0]]);
      }
    }
  }

  lemma CleanAppend(a: string, b: string)
    requires Solid(a) && Clean(b)
    ensures Clean(a + " " + b)
  {
    var t := a + " " + b;
    assert t[|a|] == ' ';
    assert forall i :: |a| < i < |t| ==> t[i] == b[i - |a| - 1];
  }

  lemma {:induction false} JoinClean(words: seq<string>)
    requires words != [] && forall i :: 0 <= i < |words| ==> Solid(words[i])
    ensures Clean(Join(words, " "))
    decreases |words|
  {
    if |words| > 1 {
      JoinClean(words[1..]);
      CleanAppend(words[0], Join(words[1..], " "));
    }
  }

  lemma PhraseClean(raw: string)
    requires '"' !in raw
    ensures AllClean(Phrase(raw))
  {
    var t := Trim(raw);
    Trimmed(raw, IsWhitespace);
    if t != "" {
      FieldsSolid(t, "");
      JoinClean(Fields(t, ""));
    }
  }

  /** What the loop gathers outside quotes. */
  ghost predicate WordSoFar(current: string) {
    forall i :: 0 <= i < |current| ==> !Splits(current[i]) && current[i] != '"'
  }

  lemma WordClean(current: string)
    requires WordSoFar(current)
    ensures AllClean(Word(current)) && Word(current) == if current == "" then [] else [current]
  {
  }

  lemma {:induction false} TermsClean(s: string, current: string)
    requires WordSoFar(current)
    ensures Terms(s, current).Some? ==> AllClean(Terms(s, current).value)
    decreases |s|
  {
    WordClean(current);
    if s != "" {
      if s[0] == '"' {
        var end := IndexOf(s, '"', 1);
        if end < |s| {
          PhraseClean(s[1..end]);
          TermsClean(s[end + 1..], "");
        }
      } else if Splits(s[0]) {
        TermsClean(s[1..], "");
      } else {
        TermsClean(s[1..], current + [s[0]]);
      }
    }
  }

  /** Every accepted query has terms; each is nonempty, free of quotes, trimmed and singly spaced. */
  lemma AcceptedTermsAreClean(input: string)
    requires Parse(input).Parsed?
    ensures Parse(input).terms != [] && AllClean(Parse(input).terms)
  {
    TermsClean(Trim(input), "");
  }

  // -------------------------------------------------------------- round trip

  /** A tidy text is its own normal form. */
  lemma {:induction false} TidyIsNormal(s: string, current: string)
    requires current == "" || Solid(current)
    requires current == "" ==> s == "" || !IsWhitespace(s[0])
    requires s != "" ==> !IsWhitespace(s[|s| - 1])
    requires forall i :: 0 <= i < |s| - 1 && IsWhitespace(s[i]) ==> s[i] == ' ' && !IsWhitespace(s[i + 1])
    requires '"' !in s
    ensures Join(Fields(s, current), " ") == current + s
    decreases |s|
  {
    if s == "" {
    } else if IsWhitespace(s[0]) {
      assert |s| > 1;
      var rest := s[1..];
      assert rest[0] == s[1];
      TidyIsNormal(rest, "");
      FieldsSolid(rest, "");
      var fields := [current] + Fields(rest, "");
      assert fields[1..] == Fields(rest, "");
      assert Join(fields, " ") == current + " " + rest;
      assert current + s == current + " " + rest;
    } else {
      TidyIsNormal(s[1..], current + [s[0]]);
      assert current + [s[0]] + s[1..] == current + s;
    }
  }

  lemma TrimKeeps(s: string)
    requires s != "" && !IsWhitespace(s[0]) && !IsWhitespace(s[|s| - 1])
    ensures Trim(s) == s
  {
  }

  lemma CleanPhrase(t: string)
    requires Clean(t)
    ensures Phrase(t) == [t]
  {
    TrimKeeps(t);
    TidyIsNormal(t, "");
    assert "" + t == t;
  }

  lemma {:induction false} EscapeNothing(t: string)
    requires '"' !in t
    ensures Escape(t) == t
  {
    if t != "" {
      EscapeNothing(t[1..]);
    }
  }

  lemma QuotedSplits(t: string, rest: string)
    requires Clean(t)
    ensures var s := Quote(t) + rest;
            |t| + 2 <= |s| && s[0] == '"' && IndexOf(s, '"', 1) == |t| + 1 && s[1..|t| + 1] == t && s[|t| + 2..] == rest
  {
    EscapeNothing(t);
    var s := Quote(t) + rest;
    assert s == "\"" + t + "\"" + rest;
    assert forall j :: 1 <= j < |t| + 1 ==> s[j] == t[j - 1];
    IndexFound(s, '"', 1, |t| + 1);
  }

  lemma QuotedFirst(t: string, rest: string)
    requires Clean(t)
    ensures Terms(Quote(t) + rest, "") == Before([t], Terms(rest, ""))
  {
    var s := Quote(t) + rest;
    QuotedSplits(t, rest);
    assert IndexOf(s, '"', 1) == |t| + 1;
    CleanPhrase(t);
    WordClean("");
    assert [] + [t] == [t];
  }

  lemma AfterSpace(s: string)
    ensures Terms(" " + s, "") == Terms(s, "")
  {
    WordClean("");
    assert (" " + s)[1..] == s;
    if Terms(s, "").Some? {
      assert [] + Terms(s, "").value == Terms(s, "").value;
    }
  }

  /** Reading clean terms back from their quoted form. */
  lemma {:induction false} QuotedTermsReadBack(terms: seq<string>)
    requires AllClean(terms)
    ensures Terms(Join(QuoteAll(terms), " "), "") == Some(terms)
    decreases |terms|
  {
    WordClean("");
    if terms != [] {
      JoinedLiterals(terms, " ");
      QuotedTermsReadBack(terms[1..]);
      var tail := Join(QuoteAll(terms[1..]), " ");
      if |terms| == 1 {
        QuotedFirst(terms[0], "");
      } else {
        AfterSpace(tail);
        QuotedFirst(terms[0], " " + tail);
      }
      assert [terms[0]] + terms[1..] == terms;
    }
  }

  lemma {:induction false} QuotedEdges(terms: seq<string>)
    requires terms != []
    ensures var s := Join(QuoteAll(terms), " "); s != "" && s[0] == '"' && s[|s| - 1] == '"'
    decreases |terms|
  {
    QuoteAllLength(terms);
    if |terms| > 1 {
      QuotedEdges(terms[1..]);
      assert QuoteAll(terms)[1..] == QuoteAll(terms[1..]);
    }
  }

  /**
   The quoted terms of an accepted query, joined by spaces, are accepted again
   with the same terms and the same expression, if and only if they fit the
   length limit.
   */
  lemma QuotedQueryReparses(input: string)
    requires Parse(input).Parsed?
    ensures var p := Parse(input);
            var again := Join(QuoteAll(p.terms), " ");
            Parse(again) == if |again| <= MAX_QUERY_CHARS then Parsed(again, p.terms, p.ftsMatch) else QueryInvalid
  {
    AcceptedTermsAreClean(input);
    var terms := Parse(input).terms;
    QuotedTermsReadBack(terms);
    QuotedEdges(terms);
    TrimKeeps(Join(QuoteAll(terms), " "));
  }

  /** The expression built for an accepted query lexes to the query's terms. */
  lemma AcceptedMatchLexes(input: string)
    requires Parse(input).Parsed?
    ensures LexMatch(Parse(input).ftsMatch) == Some(Parse(input).terms)
  {
    MatchLexesToTerms(Parse(input).terms);
  }

  // ----------------------------------------------------------- unquoted words

  /** The characters that end a word; hyphens, dots, underscores and apostrophes are not among them. */
  const MARKS := "(){}[]:;,!?*^~|&+=<>/\\@#$%`"

  ghost predicate PlainWord(word: string) {
    word != "" && forall i :: 0 <= i < |word| ==> !IsWhitespace(word[i]) && word[i] != '"' && word[i] !in MARKS
  }

  ghost predicate Gap(gap: string) {
    gap != "" && forall i :: 0 <= i < |gap| ==> IsWhitespace(gap[i]) || gap[i] in MARKS
  }

  /** The words with gaps between them. */
  function Woven(words: seq<string>, gaps: seq<string>): string
    requires words != [] && |gaps| == |words| - 1
  {
    if |words| == 1 then words[0] else words[0] + gaps[0] + Woven(words[1..], gaps[1..])
  }

  lemma {:induction false} WordRead(word: string, rest: string, current: string)
    requires WordSoFar(word)
    ensures Terms(word + rest, current) == Terms(rest, current + word)
    decreases |word|
  {
    if word == "" {
      assert word + rest == rest && current + word == current;
    } else {
      assert (word + rest)[1..] == word[1..] + rest;
      WordRead(word[1..], rest, current + [word[0]]);
      assert current + [word[0]] + word[1..] == current + word;
    }
  }

  lemma {:induction false} GapRead(gap: string, rest: string)
    requires AllSplit(gap)
    ensures Terms(gap + rest, "") == Terms(rest, "")
    decreases |gap|
  {
    if gap == "" {
      assert gap + rest == rest;
    } else {
      assert (gap + rest)[1..] == gap[1..] + rest;
      GapRead(gap[1..], rest);
      NothingBefore(Terms(rest, ""));
    }
  }

  lemma NothingBefore(terms: Option<seq<string>>)
    ensures Before(Word(""), terms) == terms
  {
    WordClean("");
    if terms.Some? {
      assert [] + terms.value == terms.value;
    }
  }

  lemma MarksSplit(c: char)
    requires c != '"'
    ensures Splits(c) <==> IsWhitespace(c) || c in MARKS
  {
  }

  ghost predicate AllSplit(gap: string) {
    forall i :: 0 <= i < |gap| ==> Splits(gap[i]) && gap[i] != '"'
  }

  lemma PlainIsWord(word: string)
    requires PlainWord(word)
    ensures WordSoFar(word)
  {
    forall i | 0 <= i < |word| ensures !Splits(word[i]) && word[i] != '"' {
      MarksSplit(word[i]);
    }
  }

  lemma GapSplits(gap: string)
    requires Gap(gap)
    ensures AllSplit(gap)
  {
    forall i | 0 <= i < |gap| ensures Splits(gap[i]) && gap[i] != '"' {
      MarksSplit(gap[i]);
    }
  }

  lemma WordThenGap(word: string, gap: string, rest: string)
    requires word != "" && WordSoFar(word) && gap != "" && AllSplit(gap)
    ensures Terms(word + gap + rest, "") == Before([word], Terms(rest, ""))
  {
    assert word + gap + rest == word + (gap + rest) && "" + word == word;
    WordRead(word, gap + rest, "");
    assert (gap + rest)[0] == gap[0] && (gap + rest)[1..] == gap[1..] + rest;
    GapRead(gap[1..], rest);
    WordClean(word);
  }

  lemma LastWord(word: string)
    requires word != "" && WordSoFar(word)
    ensures Terms(word, "") == Some([word])
  {
    assert word + "" == word && "" + word == word;
    WordRead(word, "", "");
    WordClean(word);
  }

  ghost predicate Weavable(words: seq<string>, gaps: seq<string>) {
    && words != [] && |gaps| == |words| - 1
    && (forall i :: 0 <= i < |words| ==> PlainWord(words[i]))
    && (forall i :: 0 <= i < |gaps| ==> Gap(gaps[i]))
  }

  lemma {:induction false} WovenReadBack(words: seq<string>, gaps: seq<string>)
    requires Weavable(words, gaps)
    ensures Terms(Woven(words, gaps), "") == Some(words)
    decreases |words|
  {
    PlainIsWord(words[0]);
    if |words| == 1 {
      LastWord(words[0]);
      assert [words[0]] == words;
    } else {
      WovenReadBack(words[1..], gaps[1..]);
      GapSplits(gaps[0]);
      WordThenGap(words[0], gaps[0], Woven(words[1..], gaps[1..]));
      assert [words[0]] + words[1..] == words;
    }
  }

  lemma {:induction false} WovenEdges(words: seq<string>, gaps: seq<string>)
    requires Weavable(words, gaps)
    ensures var text := Woven(words, gaps);
            text != "" && !IsWhitespace(text[0]) && !IsWhitespace(text[|text| - 1])
    decreases |words|
  {
    assert PlainWord(words[0]);
    if |words| > 1 {
      WovenEdges(words[1..], gaps[1..]);
    }
  }

  /** Unquoted words come back as they are, whatever runs of blanks and marks stand between them. */
  lemma PlainWordsReadBack(words: seq<string>, gaps: seq<string>)
    requires Weavable(words, gaps)
    ensures var text := Woven(words, gaps);
            Parse(text) == if |text| <= MAX_QUERY_CHARS then Parsed(text, words, FtsMatch(words)) else QueryInvalid
  {
    WovenReadBack(words, gaps);
    WovenEdges(words, gaps);
    TrimKeeps(Woven(words, gaps));
  }
}
