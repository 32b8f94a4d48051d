/** What packing promises about every response. */
module PackingTheorems {
  import opened Tokens
  import opened Packing

  /** The running total is the estimate of the response the caller gets. */
  lemma {:induction false} UsedIsResponse(query: Text, out: seq<Hit>, n: nat)
    requires n <= |out|
    ensures UsedTokens(query, out, n) == ResponseTokens(query, TextOf(out, n), n)
  {
    if n > 0 {
      UsedIsResponse(query, out, n - 1);
      ResponseOfPrefix(query, TextOf(out, n - 1), TextOf(out, n), n - 1);
    }
  }

  lemma {:induction false} ResponseOfPrefix(query: Text, a: seq<Text>, b: seq<Text>, n: nat)
    requires n <= |a| && n <= |b| && forall i :: 0 <= i < n ==> a[i] == b[i]
    ensures ResponseTokens(query, a, n) == ResponseTokens(query, b, n)
  {
    if n > 0 {
      ResponseOfPrefix(query, a, b, n - 1);
    }
  }

  lemma HeadBounds(query: Text, hit: Hit, budget: nat, head: Hit)
    requires IsHead(query, hit, budget, head)
    ensures Bytes(head.text) <= HARD_BYTE_CAP
    ensures Fits(query, [], 0, hit.text, budget) || |head.text| <= CharBound(query, budget)
  {
    if !Fits(query, [], 0, hit.text, budget) {
      var cutText := Take(hit.text, CharBound(query, budget));
      var cut :| IsTruncation(cutText, MAX_HIT_TEXT_BYTES, head.text, cut);
      TruncationBounds(cutText, MAX_HIT_TEXT_BYTES, head.text, cut);
    }
  }

  /** The same without a formula for the cut: whole if it fits, and otherwise keeping what fits, marked. */
  ghost predicate TopIsRight(query: Text, hit: Hit, budget: nat, top: Hit) {
    && top.segment == hit.segment && top.tokenEstimate == AsU32(8 + Estimate(top.text))
    && if 24 + Estimate(query) + Estimate(hit.text) <= budget && Bytes(hit.text) <= 48_000
       then top.text == hit.text && top.truncated == hit.truncated
       else top.truncated && KeepsWhatFits(query, hit.text, budget, top.text)
  }

  lemma HeadIsRight(query: Text, hit: Hit, budget: nat, head: Hit)
    requires IsHead(query, hit, budget, head)
    ensures TopIsRight(query, hit, budget, head)
  {
    if !Fits(query, [], 0, hit.text, budget) {
      var cut :| IsTruncation(Take(hit.text, CharBound(query, budget)), MAX_HIT_TEXT_BYTES, head.text, cut);
      TopKeepsWhatFits(query, hit.text, budget, head.text, cut);
    }
  }

  /** The top result comes back whole if it fits, and otherwise with all of it that fits. */
  lemma PackedTopIsRight(query: Text, hits: seq<Hit>, limit: nat, budget: nat, out: seq<Hit>, truncated: bool)
    requires Packed(query, hits, limit, budget, out, truncated) && out != []
    ensures TopIsRight(query, hits[0], budget, out[0])
  {
    assert PackedAt(query, hits, budget, out, 0);
    HeadIsRight(query, hits[0], budget, out[0]);
  }

  /** A budget with room for one token of text is enough for the top result. */
  lemma HeadWithinBudget(query: Text, hit: Hit, budget: nat, head: Hit)
    requires IsHead(query, hit, budget, head) && budget >= 25 + Estimate(query)
    ensures RESPONSE_OVERHEAD_TOKENS + Estimate(query) + Cost(head.text) <= budget
  {
    HeadBounds(query, hit, budget, head);
  }

  lemma LaterWithinBudget(query: Text, hits: seq<Hit>, limit: nat, budget: nat, out: seq<Hit>, n: nat)
    requires PackedPrefix(query, hits, limit, budget, out) && 0 < n <= |out|
    requires n == 1 ==> UsedTokens(query, out, 1) <= budget
    ensures UsedTokens(query, out, n) <= budget
  {
    assert PackedAt(query, hits, budget, out, n - 1);
  }

  /** With budget for one token of text, the response's own estimate is within the budget. */
  lemma ResponseWithinBudget(query: Text, hits: seq<Hit>, limit: nat, budget: nat, out: seq<Hit>, truncated: bool)
    requires Packed(query, hits, limit, budget, out, truncated) && budget >= 25 + Estimate(query)
    ensures ResponseTokens(query, TextOf(out, |out|), |out|) <= budget
  {
    UsedIsResponse(query, out, |out|);
    if out != [] {
      assert PackedAt(query, hits, budget, out, 0);
      HeadWithinBudget(query, hits[0], budget, out[0]);
      assert UsedTokens(query, out, 1) == UsedTokens(query, out, 0) + Cost(out[0].text);
      LaterWithinBudget(query, hits, limit, budget, out, |out|);
    }
  }

  /** With less, at most the top result comes back. */
  lemma SmallBudgetAtMostOne(query: Text, hits: seq<Hit>, limit: nat, budget: nat, out: seq<Hit>, truncated: bool)
    requires Packed(query, hits, limit, budget, out, truncated) && budget < 25 + Estimate(query)
    ensures |out| <= 1
  {
    assert |out| > 0 ==> UsedTokens(query, out, 1) == UsedTokens(query, out, 0) + Cost(out[0].text);
    assert |out| > 1 ==> PackedAt(query, hits, budget, out, 1);
  }

  /** The warning says exactly that a nonempty response is over budget. */
  lemma WarningIsExact(query: Text, hits: seq<Hit>, limit: nat, budget: nat, out: seq<Hit>, truncated: bool,
                       warned: bool)
    requires Packed(query, hits, limit, budget, out, truncated) && out != []
    requires warned <==> !Fits(query, [], 0, hits[0].text, budget) && UsedTokens(query, out, 1) > budget
    ensures warned <==> ResponseTokens(query, TextOf(out, |out|), |out|) > budget
  {
    UsedIsResponse(query, out, |out|);
    assert PackedAt(query, hits, budget, out, 0);
    assert UsedTokens(query, out, 1) == UsedTokens(query, out, 0) + Cost(out[0].text);
    if UsedTokens(query, out, 1) <= budget {
      LaterWithinBudget(query, hits, limit, budget, out, |out|);
    } else {
      UsedGrows(query, out, 1, |out|);
    }
  }

  lemma {:induction false} UsedGrows(query: Text, out: seq<Hit>, m: nat, n: nat)
    requires m <= n <= |out|
    ensures UsedTokens(query, out, m) <= UsedTokens(query, out, n)
  {
    if m < n {
      UsedGrows(query, out, m, n - 1);
    }
  }

  /** At most `limit` hits, a prefix of the ranking, at most 48,000 bytes of text. */
  lemma {:induction false} PackedWithinLimits(query: Text, hits: seq<Hit>, limit: nat, budget: nat, out: seq<Hit>,
                                              truncated: bool)
    requires Packed(query, hits, limit, budget, out, truncated)
    ensures |out| <= limit && UsedBytes(out, |out|) <= 48_000
    ensures forall i :: 0 <= i < |out| ==> out[i].segment == hits[i].segment && (i > 0 ==> out[i].text == hits[i].text)
  {
    forall i | 0 <= i < |out| ensures out[i].segment == hits[i].segment && (i > 0 ==> out[i].text == hits[i].text) {
      assert PackedAt(query, hits, budget, out, i);
    }
    if out != [] {
      assert PackedAt(query, hits, budget, out, |out| - 1) && PackedAt(query, hits, budget, out, 0);
      HeadBounds(query, hits[0], budget, out[0]);
      assert UsedBytes(out, 1) == UsedBytes(out, 0) + Bytes(out[0].text);
    }
  }

  /** All hits would come back whole: their texts fit both budgets. */
  predicate AllFit(query: Text, hits: seq<Hit>, budget: nat) {
    UsedTokens(query, hits, |hits|) <= budget && UsedBytes(hits, |hits|) <= HARD_BYTE_CAP
  }

  /** The response holds every hit's text in full and is within its budget. */
  ghost predicate NothingLost(query: Text, hits: seq<Hit>, budget: nat, out: seq<Hit>) {
    && |out| == |hits| && (forall i :: 0 <= i < |out| ==> out[i].text == hits[i].text)
    && ResponseTokens(query, TextOf(out, |out|), |out|) <= budget
  }

  lemma {:induction false} UsedOfTexts(query: Text, a: seq<Hit>, b: seq<Hit>, n: nat)
    requires n <= |a| && n <= |b| && forall i :: 0 <= i < n ==> a[i].text == b[i].text
    ensures UsedTokens(query, a, n) == UsedTokens(query, b, n) && UsedBytes(a, n) == UsedBytes(b, n)
  {
    if n > 0 {
      UsedOfTexts(query, a, b, n - 1);
    }
  }

  lemma {:induction false} BytesGrow(out: seq<Hit>, m: nat, n: nat)
    requires m <= n <= |out|
    ensures UsedBytes(out, m) <= UsedBytes(out, n)
  {
    if m < n {
      BytesGrow(out, m, n - 1);
    }
  }

  /** When everything fits, each hit of the response is its hit whole. */
  lemma FittingStaysWhole(query: Text, hits: seq<Hit>, limit: nat, budget: nat, out: seq<Hit>)
    requires PackedPrefix(query, hits, limit, budget, out) && AllFit(query, hits, budget)
    ensures forall i :: 0 <= i < |out| ==> out[i].text == hits[i].text
  {
    forall i | 0 <= i < |out| ensures out[i].text == hits[i].text {
      assert PackedAt(query, hits, budget, out, i);
      if i == 0 {
        FirstOfAllFits(query, hits, budget);
      }
    }
  }

  lemma FirstOfAllFits(query: Text, hits: seq<Hit>, budget: nat)
    requires AllFit(query, hits, budget) && hits != []
    ensures Fits(query, [], 0, hits[0].text, budget)
  {
    UsedGrows(query, hits, 1, |hits|);
    BytesGrow(hits, 1, |hits|);
    assert UsedTokens(query, hits, 1) == UsedTokens(query, hits, 0) + Cost(hits[0].text);
    assert UsedBytes(hits, 1) == UsedBytes(hits, 0) + Bytes(hits[0].text);
  }

  lemma FittingIsReturned(query: Text, hits: seq<Hit>, limit: nat, budget: nat, out: seq<Hit>, truncated: bool)
    requires Packed(query, hits, limit, budget, out, truncated) && AllFit(query, hits, budget) && |hits| <= limit
    ensures |out| == |hits|
  {
    FittingStaysWhole(query, hits, limit, budget, out);
    UsedOfTexts(query, out, hits, |out|);
    if |out| < |hits| {
      UsedGrows(query, hits, |out| + 1, |hits|);
      BytesGrow(hits, |out| + 1, |hits|);
    }
  }

  /**
   A response loses nothing if and only if the hits are within the limit and fit the
   budgets, which can be told beforehand.  `truncated == false` means that every hit
   came back; the flag is also set on a complete response that just reaches the limit.
   */
  lemma NothingLostExactly(query: Text, hits: seq<Hit>, limit: nat, budget: nat, out: seq<Hit>, truncated: bool)
    requires Packed(query, hits, limit, budget, out, truncated)
    ensures NothingLost(query, hits, budget, out) <==> |hits| <= limit && AllFit(query, hits, budget)
    ensures !truncated ==> |out| == |hits|
    ensures NothingLost(query, hits, budget, out) ==> (truncated <==> |hits| == limit)
  {
    UsedIsResponse(query, out, |out|);
    if |hits| <= limit && AllFit(query, hits, budget) {
      FittingStaysWhole(query, hits, limit, budget, out);
      FittingIsReturned(query, hits, limit, budget, out, truncated);
      UsedOfTexts(query, out, hits, |out|);
    }
    if NothingLost(query, hits, budget, out) {
      UsedOfTexts(query, out, hits, |out|);
      PackedWithinLimits(query, hits, limit, budget, out, truncated);
    }
  }

  /** The specification leaves no freedom: one response per query, ranking, limit and budget. */
  lemma PackingIsUnique(query: Text, hits: seq<Hit>, limit: nat, budget: nat, a: seq<Hit>, ta: bool, b: seq<Hit>,
                        tb: bool)
    requires Packed(query, hits, limit, budget, a, ta) && Packed(query, hits, limit, budget, b, tb)
    ensures a == b && ta == tb
  {
    var n := if |a| <= |b| then |a| else |b|;
    SamePrefix(query, hits, limit, budget, a, b, n);
    if |a| < |b| {
      NoLonger(query, hits, limit, budget, a, b);
    } else if |b| < |a| {
      NoLonger(query, hits, limit, budget, b, a);
    }
  }

  lemma HeadIsUnique(query: Text, hit: Hit, budget: nat, a: Hit, b: Hit)
    requires IsHead(query, hit, budget, a) && IsHead(query, hit, budget, b)
    ensures a == b
  {
    if !Fits(query, [], 0, hit.text, budget) {
      var text := Take(hit.text, CharBound(query, budget));
      var ca :| IsTruncation(text, MAX_HIT_TEXT_BYTES, a.text, ca);
      var cb :| IsTruncation(text, MAX_HIT_TEXT_BYTES, b.text, cb);
      TruncationIsUnique(text, MAX_HIT_TEXT_BYTES, a.text, ca, b.text, cb);
    }
  }

  lemma SamePrefix(query: Text, hits: seq<Hit>, limit: nat, budget: nat, a: seq<Hit>, b: seq<Hit>, n: nat)
    requires PackedPrefix(query, hits, limit, budget, a) && PackedPrefix(query, hits, limit, budget, b) && n <= |a|
    requires n <= |b|
    ensures forall i :: 0 <= i < n ==> a[i] == b[i]
  {
    forall i | 0 <= i < n ensures a[i] == b[i] {
      assert PackedAt(query, hits, budget, a, i) && PackedAt(query, hits, budget, b, i);
      if i == 0 {
        HeadIsUnique(query, hits[0], budget, a[0], b[0]);
      }
    }
  }

  lemma NoLonger(query: Text, hits: seq<Hit>, limit: nat, budget: nat, a: seq<Hit>, b: seq<Hit>)
    requires Packed(query, hits, limit, budget, a, true) && PackedPrefix(query, hits, limit, budget, b)
    requires forall i :: 0 <= i < |a| && i < |b| ==> a[i] == b[i]
    ensures |b| <= |a|
  {
    if |b| >= |a| {
      UsedOfPrefix(query, a, b, |a|);
    }
    assert |b| > |a| ==> PackedAt(query, hits, budget, b, |a|);
  }
}
