/** `pack_results` of retrieval.rs: greedy packing under a token and a byte budget. */
module Packing {
  import opened Tokens

  const U32_MAX: nat := 0xFFFF_FFFF

  /** A ranked hit, as far as packing looks at it. */
  datatype Hit = Hit(segment: nat, text: Text, truncated: bool, tokenEstimate: nat)

  function Cost(text: Text): nat {
    RESULT_OVERHEAD_TOKENS + Estimate(text)
  }

  function AsU32(n: nat): nat {
    if n <= U32_MAX then n else U32_MAX
  }

  /** A hit packed whole. */
  function Whole(hit: Hit): Hit {
    hit.(tokenEstimate := AsU32(Cost(hit.text)))
  }

  function TextOf(hits: seq<Hit>, n: nat): (texts: seq<Text>)
    requires n <= |hits|
    ensures |texts| == n && forall i :: 0 <= i < n ==> texts[i] == hits[i].text
  {
    if n == 0 then [] else TextOf(hits, n - 1) + [hits[n - 1].text]
  }

  /** `used_tokens` once the first `n` hits are in: what the response will be estimated at. */
  function UsedTokens(query: Text, out: seq<Hit>, n: nat): nat
    requires n <= |out|
  {
    if n == 0 then RESPONSE_OVERHEAD_TOKENS + Estimate(query) else UsedTokens(query, out, n - 1) + Cost(out[n - 1].text)
  }

  function UsedBytes(out: seq<Hit>, n: nat): nat
    requires n <= |out|
  {
    if n == 0 then 0 else UsedBytes(out, n - 1) + Bytes(out[n - 1].text)
  }

  predicate Fits(query: Text, out: seq<Hit>, n: nat, text: Text, budget: nat)
    requires n <= |out|
  {
    UsedTokens(query, out, n) + Cost(text) <= budget && UsedBytes(out, n) + Bytes(text) <= HARD_BYTE_CAP
  }

  /** How many characters of an oversized top result the budget leaves. */
  function CharBound(query: Text, budget: nat): (chars: nat)
    ensures chars > 0
  {
    var used := RESPONSE_OVERHEAD_TOKENS + Estimate(query) + RESULT_OVERHEAD_TOKENS;
    var allowed := if budget >= used then budget - used else 0;
    if allowed == 0 then 1 else allowed * 3
  }

  function Take(text: Text, chars: nat): Text {
    if chars <= |text| then text[..chars] else text
  }

  /**
   What an oversized top result keeps: with room for a token of text every prefix
   that fits the budget and the byte limit, and otherwise its first character.
   Behind what is kept there can be an ellipsis.
   */
  ghost predicate KeepsWhatFits(query: Text, text: Text, budget: nat, out: Text) {
    && (exists k :: 0 <= k <= |text| && (out == text[..k] || out == text[..k] + [ELLIPSIS]))
    && if budget < 25 + Estimate(query) then out == if text == [] then [] else [text[0]]
       else forall k :: 0 <= k <= |text| && PrefixFits(query, text, k, budget) ==> text[..k] <= out
  }

  predicate PrefixFits(query: Text, text: Text, k: nat, budget: nat)
    requires k <= |text|
  {
    16 + Estimate(query) + 8 + Estimate(text[..k]) <= budget && Bytes(text[..k]) <= 4_000
  }

  lemma LongerPrefix(text: Text, k: nat, m: nat)
    requires k <= m <= |text|
    ensures text[..k] <= WithEllipsis(text, m)
  {
    assert text[..m][..k] == text[..k];
  }

  lemma TruncationKeeps(text: Text, max: nat, out: Text, truncated: bool, k: nat)
    requires IsTruncation(text, max, out, truncated) && k <= |text| && Offset(text, k) <= max
    ensures text[..k] <= out
  {
    if truncated {
      var m: nat :| IsLongestFit(text, max, m) && out == WithEllipsis(text, m);
      if m < k {
        OffsetGrows(text, m + 1, k);
      }
      LongerPrefix(text, k, m);
    }
  }

  lemma TruncationShape(text: Text, chars: nat, max: nat, out: Text, truncated: bool)
    requires IsTruncation(Take(text, chars), max, out, truncated)
    ensures exists k :: 0 <= k <= |text| && (out == text[..k] || out == text[..k] + [ELLIPSIS])
  {
    var short := Take(text, chars);
    assert short == text[..|short|];
    if truncated {
      var m: nat :| IsLongestFit(short, max, m) && out == WithEllipsis(short, m);
      assert short[..m] == text[..m];
      assert out == text[..m] || out == text[..m] + [ELLIPSIS];
    }
  }

  lemma TopKeepsWhatFits(query: Text, text: Text, budget: nat, out: Text, truncated: bool)
    requires IsTruncation(Take(text, CharBound(query, budget)), MAX_HIT_TEXT_BYTES, out, truncated)
    ensures KeepsWhatFits(query, text, budget, out)
  {
    var chars := CharBound(query, budget);
    var short := Take(text, chars);
    TruncationShape(text, chars, MAX_HIT_TEXT_BYTES, out, truncated);
    if budget >= 25 + Estimate(query) {
      forall k | 0 <= k <= |text| && PrefixFits(query, text, k, budget) ensures text[..k] <= out {
        assert k <= chars;
        assert short[..k] == text[..k];
        OffsetOfPrefix(short, text[..k], k);
        TruncationKeeps(short, MAX_HIT_TEXT_BYTES, out, truncated, k);
      }
    } else if text != [] {
      assert short == [text[0]];
      assert Offset(short, 1) == Offset(short, 0) + Width(short[0]);
    }
  }

  /** The first result: whole when it fits, otherwise cut to characters, then to bytes, and marked. */
  ghost predicate IsHead(query: Text, hit: Hit, budget: nat, head: Hit) {
    if Fits(query, [], 0, hit.text, budget) then head == Whole(hit)
    else
      && head == hit.(text := head.text, truncated := true, tokenEstimate := AsU32(Cost(head.text)))
      && exists cut :: IsTruncation(Take(hit.text, CharBound(query, budget)), MAX_HIT_TEXT_BYTES, head.text, cut)
  }

  ghost predicate PackedAt(query: Text, hits: seq<Hit>, budget: nat, out: seq<Hit>, i: nat)
    requires i < |out| && i < |hits|
  {
    if i == 0 then IsHead(query, hits[0], budget, out[0])
    else out[i] == Whole(hits[i]) && Fits(query, out, i, hits[i].text, budget)
  }

  /** A prefix of the ranking, every hit of which fits. */
  ghost predicate PackedPrefix(query: Text, hits: seq<Hit>, limit: nat, budget: nat, out: seq<Hit>) {
    && |out| <= |hits| && |out| <= limit
    && (forall i :: 0 <= i < |out| ==> PackedAt(query, hits, budget, out, i))
  }

  /** The longest such prefix, and the flag. */
  ghost predicate Packed(query: Text, hits: seq<Hit>, limit: nat, budget: nat, out: seq<Hit>, truncated: bool) {
    && PackedPrefix(query, hits, limit, budget, out)
    && (|out| < |hits| ==> |out| >= limit || (|out| > 0 && !Fits(query, out, |out|, hits[|out|].text, budget)))
    && (truncated <==> |out| < |hits| || |out| >= limit)
  }

  // ------------------------------------------------------------- the loop

  lemma {:induction false} UsedOfPrefix(query: Text, out: seq<Hit>, more: seq<Hit>, n: nat)
    requires n <= |out| && n <= |more| && forall i :: 0 <= i < n ==> out[i] == more[i]
    ensures UsedTokens(query, out, n) == UsedTokens(query, more, n) && UsedBytes(out, n) == UsedBytes(more, n)
  {
    if n > 0 {
      UsedOfPrefix(query, out, more, n - 1);
    }
  }

  lemma PackedGrows(query: Text, hits: seq<Hit>, limit: nat, budget: nat, out: seq<Hit>, hit: Hit)
    requires PackedPrefix(query, hits, limit, budget, out) && |out| < |hits| && |out| < limit
    requires if out == [] then IsHead(query, hits[0], budget, hit)
             else hit == Whole(hits[|out|]) && Fits(query, out, |out|, hits[|out|].text, budget)
    ensures PackedPrefix(query, hits, limit, budget, out + [hit])
    ensures UsedTokens(query, out + [hit], |out| + 1) == UsedTokens(query, out, |out|) + Cost(hit.text)
    ensures UsedBytes(out + [hit], |out| + 1) == UsedBytes(out, |out|) + Bytes(hit.text)
  {
    var more := out + [hit];
    UsedOfPrefix(query, out, more, |out|);
    forall i | 0 <= i < |more| ensures PackedAt(query, hits, budget, more, i) {
      if i < |out| {
        assert PackedAt(query, hits, budget, out, i);
        UsedOfPrefix(query, out, more, i);
      }
    }
  }

  /** The top result, shortened as far as the budget asks. */
  method ShortenTop(query: Text, hit: Hit, budget: nat) returns (text: Text)
    ensures exists cut :: IsTruncation(Take(hit.text, CharBound(query, budget)), MAX_HIT_TEXT_BYTES, text, cut)
    ensures KeepsWhatFits(query, hit.text, budget, text)
  {
    var maxChars := CharBound(query, budget);
    var charBound := Take(hit.text, maxChars);
    var byteBound := if HARD_BYTE_CAP < MAX_HIT_TEXT_BYTES then HARD_BYTE_CAP else MAX_HIT_TEXT_BYTES;
    var cut;
    text, cut := TruncateUtf8(charBound, byteBound);
    TopKeepsWhatFits(query, hit.text, budget, text, cut);
  }

  method Shortened(query: Text, hit: Hit, budget: nat) returns (head: Hit)
    requires !Fits(query, [], 0, hit.text, budget)
    ensures IsHead(query, hit, budget, head)
  {
    var text := ShortenTop(query, hit, budget);
    head := hit.(text := text, truncated := true, tokenEstimate := AsU32(Cost(text)));
  }

  /** `pack_results`; `warned` is the warning that even the shortened top result is over budget. */
  method PackResults(query: Text, hits: seq<Hit>, limit: nat, budget: nat)
    returns (selected: seq<Hit>, truncated: bool, warned: bool)
    ensures Packed(query, hits, limit, budget, selected, truncated)
    ensures warned <==>
            selected != [] && !Fits(query, [], 0, hits[0].text, budget) && UsedTokens(query, selected, 1) > budget
  {
    selected, truncated, warned := [], false, false;
    var usedTokens, usedBytes := RESPONSE_OVERHEAD_TOKENS + Estimate(query), 0;
    var index := 0;
    while index < |hits|
      invariant 0 <= index == |selected| <= |hits|
      invariant PackedPrefix(query, hits, limit, budget, selected)
      invariant usedTokens == UsedTokens(query, selected, |selected|) && usedBytes == UsedBytes(selected, |selected|)
      invariant warned <==>
                selected != [] && !Fits(query, [], 0, hits[0].text, budget) && UsedTokens(query, selected, 1) > budget
    {
      if |selected| >= limit {
        return selected, true, warned;
      }
      var hit := hits[index];
      var textBytes := ByteLength(hit.text);
      if usedTokens + Cost(hit.text) > budget || usedBytes + textBytes > HARD_BYTE_CAP {
        if selected != [] {
          return selected, true, warned;
        }
        hit := Shortened(query, hit, budget);
        warned := usedTokens + Cost(hit.text) > budget;
        textBytes := ByteLength(hit.text);
      } else {
        hit := Whole(hit);
      }
      PackedGrows(query, hits, limit, budget, selected, hit);
      UsedOfPrefix(query, selected, selected + [hit], if selected == [] then 0 else 1);
      usedTokens, usedBytes := usedTokens + Cost(hit.text), usedBytes + textBytes;
      selected := selected + [hit];
      index := index + 1;
    }
    truncated := |selected| >= limit;
  }
}
