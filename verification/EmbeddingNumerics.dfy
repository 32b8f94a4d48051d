/** The cache's healing theorem applies to the real codec: which provider vectors survive both normalizations. */
module EmbeddingNumerics {
  import opened Prelude
  import opened EmbeddingTables
  import opened EmbeddingSync
  import opened EmbeddingHealing
  import opened EmbeddingContents
  import opened VectorCodec

  /** The codec as the sync uses it. */
  function ArithmeticOf(m: Machine): Arithmetic {
    Arithmetic(v => Normalize(m, v), v => LayOut(m, v, |v|), (stored: seq<byte>, d: nat) => Decode(m, stored, d))
  }

  lemma CodecKeepsLength(m: Machine)
    ensures KeepsLength(ArithmeticOf(m))
  {
  }

  /**
   What the cache stores of an answer are the codec's bytes, and what it reads
   from them is the answer normalized, once on receipt and once on encoding.
   */
  lemma StoredBytesDecode(m: Machine, v: seq<Component>, d: nat, model: Model)
    requires Faithful(m) && ValidDimensions(d) && |v| == d && Normalize(m, v).Some?
    ensures var once := Normalize(m, v).value;
            var stored := EmbeddingSync.Encode(once, d, model, ArithmeticOf(m));
            && stored.Some? && VectorCodec.Encode(m, once, d) == Some(stored.value.vectorBytes)
            && Decode(m, stored.value.vectorBytes, d) == Normalize(m, once) && Normalize(m, once).Some?
  {
    NormalizesTwice(m, v);
    EncodedDecodes(m, Normalize(m, v).value, d);
  }

  /** A vector of the right length is good if and only if its components are finite and its norm is not negligible. */
  lemma GoodVectorsAreFinite(m: Machine, v: seq<Component>, d: nat)
    requires Faithful(m) && ValidDimensions(d) && |v| == d
    ensures GoodVector(v, d, ArithmeticOf(m)) <==> AllFinite(v) && m.sumSquares(Reals(v)) > EPSILON
  {
    NormalizesExactly(m, v);
    if Normalize(m, v).Some? {
      StoredBytesDecode(m, v, d, Model("", ""));
    }
  }

  /** A provider that answers every text with a finite vector of one length and nonnegligible norm. */
  ghost predicate AnswersFinite(r: Response, count: nat, d: nat, m: Machine) {
    r.Vectors? && |r.batch| == count && forall i :: 0 <= i < count ==>
      |r.batch[i]| == d && AllFinite(r.batch[i]) && m.sumSquares(Reals(r.batch[i])) > EPSILON
  }

  /** Such a provider is all the repair of the cache asks for. */
  lemma FiniteProviderIsWellBehaved(provider: Provider, model: Model, d: nat, m: Machine)
    requires Faithful(m) && ValidDimensions(d)
    requires forall call: nat, texts: seq<TextHash> :: AnswersFinite(provider(model, call, texts), |texts|, d, m)
    ensures WellBehaved(provider, model, d, ArithmeticOf(m))
  {
    forall call: nat, texts: seq<TextHash>
      ensures WellAnswered(provider(model, call, texts), |texts|, d, ArithmeticOf(m)) {
      var r := provider(model, call, texts);
      assert AnswersFinite(r, |texts|, d, m);
      forall i | 0 <= i < |texts| ensures GoodVector(r.batch[i], d, ArithmeticOf(m)) {
        GoodVectorsAreFinite(m, r.batch[i], d);
      }
    }
  }
}
