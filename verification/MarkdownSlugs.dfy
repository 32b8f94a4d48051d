/** What a slug is: the words of a text in lower case with dashes between them. */
module MarkdownSlugs {
  import opened TextTools
  import opened Markdown

  predicate EndsInWord(s: string) {
    s != "" && IsAlphanumeric(s[|s| - 1])
  }

  /** The longest runs of letters and digits, in order. */
  function WordsIn(s: string): (words: seq<string>)
    ensures EndsInWord(s) ==> words != []
  {
    if s == "" then []
    else
      var init, c := s[..|s| - 1], s[|s| - 1];
      var before := WordsIn(init);
      if !IsAlphanumeric(c) then before
      else if EndsInWord(init) then before[..|before| - 1] + [before[|before| - 1] + [c]]
      else before + [[c]]
  }

  function LowerWord(word: string): (lower: string)
    ensures |lower| == |word| && forall i :: 0 <= i < |word| ==> lower[i] == Lower(word[i])
  {
    if word == "" then "" else LowerWord(word[..|word| - 1]) + [Lower(word[|word| - 1])]
  }

  function LowerWords(words: seq<string>): (lower: seq<string>)
    ensures |lower| == |words| && forall i :: 0 <= i < |words| ==> lower[i] == LowerWord(words[i])
  {
    if words == [] then [] else LowerWords(words[..|words| - 1]) + [LowerWord(words[|words| - 1])]
  }

  /** The slug of a text with words. */
  function Dashed(words: seq<string>): string {
    Join(LowerWords(words), "-")
  }

  ghost predicate WordLike(word: string) {
    word != "" && forall i :: 0 <= i < |word| ==> IsAlphanumeric(word[i])
  }

  lemma {:induction false} WordsAreWords(s: string)
    ensures forall i :: 0 <= i < |WordsIn(s)| ==> WordLike(WordsIn(s)[i])
  {
    if s != "" {
      WordsAreWords(s[..|s| - 1]);
    }
  }

  lemma DashedMore(words: seq<string>, word: string)
    requires words != []
    ensures Dashed(words + [word]) == Dashed(words) + "-" + LowerWord(word)
  {
    assert LowerWords(words + [word]) == LowerWords(words) + [LowerWord(word)];
    JoinSnoc(LowerWords(words), LowerWord(word), "-");
  }

  lemma DashedOne(word: string)
    ensures Dashed([word]) == LowerWord(word)
  {
    assert LowerWords([word]) == [LowerWord(word)];
  }

  lemma LowerMore(word: string, c: char)
    ensures LowerWord(word + [c]) == LowerWord(word) + [Lower(c)]
  {
  }

  lemma LastLonger(words: seq<string>, c: char)
    requires words != []
    ensures Dashed(words[..|words| - 1] + [words[|words| - 1] + [c]]) == Dashed(words) + [Lower(c)]
  {
    var init, last := words[..|words| - 1], words[|words| - 1];
    LowerMore(last, c);
    assert init + [last] == words;
    if init == [] {
      DashedOne(last);
      DashedOne(last + [c]);
    } else {
      DashedMore(init, last);
      DashedMore(init, last + [c]);
    }
  }

  /** The slug of words does not end in a dash. */
  lemma DashedEnd(words: seq<string>)
    requires words != [] && forall i :: 0 <= i < |words| ==> WordLike(words[i])
    ensures var slug := Dashed(words); slug != "" && slug[|slug| - 1] != '-'
  {
    var init, last := words[..|words| - 1], words[|words| - 1];
    assert init + [last] == words;
    assert WordLike(last);
    if init == [] {
      DashedOne(last);
    } else {
      DashedMore(init, last);
    }
  }

  function SoFar(s: string): string {
    var words := WordsIn(s);
    if words == [] then "" else Dashed(words) + if EndsInWord(s) then "" else "-"
  }

  lemma WordsNext(init: string, c: char)
    ensures var before := WordsIn(init);
            WordsIn(init + [c])
            == if !IsAlphanumeric(c) then before
               else if EndsInWord(init) then before[..|before| - 1] + [before[|before| - 1] + [c]]
               else before + [[c]]
    ensures EndsInWord(init + [c]) <==> IsAlphanumeric(c)
  {
    assert (init + [c])[..|init|] == init;
  }

  lemma SoFarOther(init: string, c: char)
    requires !IsAlphanumeric(c)
    ensures var before := SoFar(init);
            SoFar(init + [c]) == if before != "" && before[|before| - 1] != '-' then before + "-" else before
  {
    var words := WordsIn(init);
    WordsNext(init, c);
    if words != [] {
      WordsAreWords(init);
      DashedEnd(words);
      assert Dashed(words) + "" == Dashed(words);
    }
  }

  lemma SoFarLonger(init: string, c: char)
    requires IsAlphanumeric(c) && EndsInWord(init)
    ensures SoFar(init + [c]) == SoFar(init) + [Lower(c)]
  {
    var words := WordsIn(init);
    WordsNext(init, c);
    LastLonger(words, c);
    assert Dashed(words) + "" == Dashed(words);
    assert Dashed(words) + [Lower(c)] + "" == Dashed(words) + [Lower(c)];
  }

  lemma SoFarNew(init: string, c: char)
    requires IsAlphanumeric(c) && !EndsInWord(init)
    ensures SoFar(init + [c]) == SoFar(init) + [Lower(c)]
  {
    var words := WordsIn(init);
    WordsNext(init, c);
    LowerMore("", c);
    assert "" + [c] == [c] && LowerWord("") == "" && "" + [Lower(c)] == [Lower(c)];
    if words == [] {
      DashedOne([c]);
      assert [] + [[c]] == [[c]];
      assert [Lower(c)] + "" == [Lower(c)];
    } else {
      DashedMore(words, [c]);
      assert Dashed(words) + "-" + [Lower(c)] + "" == Dashed(words) + "-" + [Lower(c)];
    }
  }

  lemma SoFarNext(init: string, c: char)
    ensures var before := SoFar(init);
            SoFar(init + [c])
            == if IsAlphanumeric(c) then before + [Lower(c)]
               else if before != "" && before[|before| - 1] != '-' then before + "-"
               else before
  {
    if !IsAlphanumeric(c) {
      SoFarOther(init, c);
    } else if EndsInWord(init) {
      SoFarLonger(init, c);
    } else {
      SoFarNew(init, c);
    }
  }

  lemma PrefixNext(s: string, n: nat)
    requires 0 < n <= |s|
    ensures SoFar(s[..n - 1] + [s[n - 1]]) == SoFar(s[..n])
  {
    assert s[..n - 1] + [s[n - 1]] == s[..n];
  }

  lemma {:induction false} SlugSoFarIsWords(s: string, n: nat)
    requires n <= |s|
    ensures SlugSoFar(s, n) == SoFar(s[..n])
  {
    if n > 0 {
      SlugSoFarIsWords(s, n - 1);
      SoFarNext(s[..n - 1], s[n - 1]);
      PrefixNext(s, n);
    }
  }

  lemma TrimsDash(slug: string)
    requires slug != "" && slug[|slug| - 1] != '-'
    ensures TrimRight(slug, c => c == '-') == slug && TrimRight(slug + "-", c => c == '-') == slug
  {
    assert (slug + "-")[..|slug|] == slug;
  }

  /** A text's slug is its words in lower case, dashes between them; without a word it is "section". */
  lemma SlugIsItsWords(s: string)
    ensures Slug(s) == if WordsIn(s) == [] then "section" else Dashed(WordsIn(s))
  {
    SlugSoFarIsWords(s, |s|);
    assert s[..|s|] == s;
    if WordsIn(s) != [] {
      WordsAreWords(s);
      DashedEnd(WordsIn(s));
      TrimsDash(Dashed(WordsIn(s)));
      assert Dashed(WordsIn(s)) + "" == Dashed(WordsIn(s));
    }
  }
}
