/**
 * de.glmtk.querying.estimator.fast.FastGeneralizedLanguageModelAbsEstimator:
 * the generalized language model with absolute discounting. A history is
 * interpolated with the average of the estimates for its differentiated
 * histories.
 */
module FastGlm {
  import opened Wrappers
  import opened Patterns
  import opened NGrams
  import AbstractEstimator

  /** Every differentiated history of h is shorter by the measure, and there is one at least. */
  ghost predicate Shrinks(ops: NGramOps, mode: BackoffMode, h: NGram) {
    |ops.differentiated(h, mode)| > 0 &&
    forall i :: 0 <= i < |ops.differentiated(h, mode)| ==>
      ops.size(ops.differentiated(h, mode)[i]) < ops.size(h)
  }

  /** What the estimator needs of its collaborators for every division to be
      by a non-zero number and for the recursion to end. */
  ghost predicate Wf(ops: NGramOps, cache: Cache, mode: BackoffMode) {
    cache.numWords > 0 &&
    (forall h :: !ops.isEmptyOrOnlySkips(h) ==> Shrinks(ops, mode, h)) &&
    (forall h :: !ops.isEmptyOrOnlySkips(h) ==> ValidTimes(cache.ngramTimes(ops.pattern(h))))
  }

  /** The probability calcProbability computes. */
  ghost function GlmProbability(ops: NGramOps, cache: Cache, mode: BackoffMode,
                                sequence: NGram, history: NGram): real
    requires Wf(ops, cache, mode)
    decreases ops.size(history), 1
  {
    var denominator := cache.absolute(AbstractEstimator.FullHistory(sequence, history, ops.skpWord)) as real;
    if denominator == 0.0 then
      cache.absolute(sequence) as real / cache.numWords as real
    else
      var numerator := cache.absolute(AbstractEstimator.FullSequence(sequence, history)) as real;
      if ops.isEmptyOrOnlySkips(history) then
        numerator / denominator
      else
        var d := DiscountOf(cache.ngramTimes(ops.pattern(history)));
        var k := |ops.differentiated(history, mode)|;
        Interpolate(numerator, denominator, ops.forCount(d, cache.absolute(history)),
                    Weight(d, cache.continuation(history + ops.wskpNGram)),
                    BetaSum(ops, cache, mode, sequence, history, k), k)
  }

  /** The sum of the estimates for the first k differentiated histories. */
  ghost function BetaSum(ops: NGramOps, cache: Cache, mode: BackoffMode,
                         sequence: NGram, history: NGram, k: nat): real
    requires Wf(ops, cache, mode) && !ops.isEmptyOrOnlySkips(history)
    requires k <= |ops.differentiated(history, mode)|
    decreases ops.size(history), 0, k
  {
    if k == 0 then 0.0
    else
      assert Shrinks(ops, mode, history);
      BetaSum(ops, cache, mode, sequence, history, k - 1) +
      GlmProbability(ops, cache, mode, sequence, ops.differentiated(history, mode)[k - 1])
  }

  /** alpha + gamma * beta: the discounted fraction plus the weighted average
      of the lower-order estimates. */
  function Interpolate(numerator: real, denominator: real, discount: real, weight: real,
                       betaSum: real, k: nat): real
    requires denominator != 0.0 && k > 0
  {
    Max(numerator - discount, 0.0) / denominator + weight / denominator * (betaSum / k as real)
  }

  /** The interpolated case of GlmProbability, term by term. */
  lemma GlmInterpolated(ops: NGramOps, cache: Cache, mode: BackoffMode, sequence: NGram, history: NGram)
    requires Wf(ops, cache, mode) && !ops.isEmptyOrOnlySkips(history)
    requires cache.absolute(AbstractEstimator.FullHistory(sequence, history, ops.skpWord)) != 0
    ensures Shrinks(ops, mode, history)
    ensures var d := DiscountOf(cache.ngramTimes(ops.pattern(history)));
      GlmProbability(ops, cache, mode, sequence, history) ==
      Interpolate(cache.absolute(AbstractEstimator.FullSequence(sequence, history)) as real,
                  cache.absolute(AbstractEstimator.FullHistory(sequence, history, ops.skpWord)) as real,
                  ops.forCount(d, cache.absolute(history)),
                  Weight(d, cache.continuation(history + ops.wskpNGram)),
                  BetaSum(ops, cache, mode, sequence, history, |ops.differentiated(history, mode)|),
                  |ops.differentiated(history, mode)|)
  {
  }

  /** With non-negative discounts every estimate is non-negative: the discounted
      count is clipped at zero and the interpolation weight is a sum of
      non-negative products. */
  lemma {:induction false} GlmNonNegative(ops: NGramOps, cache: Cache, mode: BackoffMode,
                                          sequence: NGram, history: NGram)
    requires Wf(ops, cache, mode) && NonNegativeDiscounts(ops, cache.ngramTimes)
    ensures GlmProbability(ops, cache, mode, sequence, history) >= 0.0
    decreases ops.size(history), 1
  {
    var denominator := cache.absolute(AbstractEstimator.FullHistory(sequence, history, ops.skpWord));
    if denominator != 0 && !ops.isEmptyOrOnlySkips(history) {
      GlmInterpolated(ops, cache, mode, sequence, history);
      var d := DiscountOf(cache.ngramTimes(ops.pattern(history)));
      var k := |ops.differentiated(history, mode)|;
      BetaSumNonNegative(ops, cache, mode, sequence, history, k);
      InterpolateNonNegative(cache.absolute(AbstractEstimator.FullSequence(sequence, history)) as real,
                             denominator as real, ops.forCount(d, cache.absolute(history)),
                             Weight(d, cache.continuation(history + ops.wskpNGram)),
                             BetaSum(ops, cache, mode, sequence, history, k), k);
    }
  }

  lemma InterpolateNonNegative(numerator: real, denominator: real, discount: real, weight: real,
                               betaSum: real, k: nat)
    requires denominator > 0.0 && k > 0 && weight >= 0.0 && betaSum >= 0.0
    ensures Interpolate(numerator, denominator, discount, weight, betaSum, k) >= 0.0
  {
    var alpha, gamma, beta := Max(numerator - discount, 0.0) / denominator, weight / denominator, betaSum / k as real;
    assert alpha >= 0.0 && gamma >= 0.0 && beta >= 0.0;
    assert gamma * beta >= 0.0;
  }

  lemma {:induction false} BetaSumNonNegative(ops: NGramOps, cache: Cache, mode: BackoffMode,
                                              sequence: NGram, history: NGram, k: nat)
    requires Wf(ops, cache, mode) && NonNegativeDiscounts(ops, cache.ngramTimes)
    requires !ops.isEmptyOrOnlySkips(history) && k <= |ops.differentiated(history, mode)|
    ensures BetaSum(ops, cache, mode, sequence, history, k) >= 0.0
    decreases ops.size(history), 0, k
  {
    if k > 0 {
      assert Shrinks(ops, mode, history);
      BetaSumNonNegative(ops, cache, mode, sequence, history, k - 1);
      GlmNonNegative(ops, cache, mode, sequence, ops.differentiated(history, mode)[k - 1]);
    }
  }

  /** An unseen history falls back to the unigram frequency of the sequence,
      whatever the history, and a history of skips alone gives the plain
      maximum-likelihood fraction. */
  lemma GlmBaseCases(ops: NGramOps, cache: Cache, mode: BackoffMode,
                     sequence: NGram, history: NGram, other: NGram)
    requires Wf(ops, cache, mode)
    ensures var fullHistory := history + Repeat(ops.skpWord, |sequence|);
      (cache.absolute(fullHistory) == 0 ==>
        GlmProbability(ops, cache, mode, sequence, history) ==
        cache.absolute(sequence) as real / cache.numWords as real) &&
      (cache.absolute(fullHistory) == 0 && cache.absolute(other + Repeat(ops.skpWord, |sequence|)) == 0 ==>
        GlmProbability(ops, cache, mode, sequence, history) ==
        GlmProbability(ops, cache, mode, sequence, other)) &&
      (cache.absolute(fullHistory) != 0 && ops.isEmptyOrOnlySkips(history) ==>
        GlmProbability(ops, cache, mode, sequence, history) ==
        cache.absolute(history + sequence) as real / cache.absolute(fullHistory) as real)
  {
  }

  class FastGeneralizedLanguageModelAbsEstimator {
    const base: AbstractEstimator.AbstractEstimator
    var backoffMode: BackoffMode
    var discounts: map<Pattern, Discount>
    /** The patterns whose counts getDiscounts has read, in order. */
    ghost var computed: seq<Pattern>

    ghost predicate Valid()
      reads this, base, base.substitute
    {
      base.Valid() && !base.isSubstitute &&
      (base.cache.Some? ==> MemoSound(discounts, base.cache.value.ngramTimes))
    }

    constructor()
      ensures Valid() && fresh(base) && fresh(base.substitute)
      ensures backoffMode == SKP && discounts == map[] && computed == []
      ensures base.name == "Unnamed" && base.cache == None && base.probMode == MARG
    {
      base := new AbstractEstimator.AbstractEstimator(false);
      backoffMode := SKP;
      discounts := map[];
      computed := [];
    }

    /** setBackoffMode accepts every mode. */
    method SetBackoffMode(mode: BackoffMode)
      modifies this
      ensures backoffMode == mode
      ensures discounts == old(discounts) && computed == old(computed)
    {
      backoffMode := mode;
    }

    /** setCache: the cache is forwarded as AbstractEstimator does and the memo starts afresh. */
    method SetCache(c: Option<Cache>)
      requires Valid()
      modifies this, base, base.substitute
      ensures Valid() && base.cache == c && base.substitute.cache == c
      ensures base.name == old(base.name) && base.probMode == old(base.probMode)
      ensures backoffMode == old(backoffMode) && discounts == map[] && computed == old(computed)
    {
      base.SetCache(c);
      discounts := map[];
    }

    /** getDiscounts: the discount estimate of the pattern; the cache's count
        record is read only the first time a pattern is asked for. */
    method GetDiscounts(pattern: Pattern) returns (d: Discount)
      requires Valid() && base.cache.Some? && ValidTimes(base.cache.value.ngramTimes(pattern))
      modifies this
      ensures Valid() && backoffMode == old(backoffMode)
      ensures d == DiscountOf(base.cache.value.ngramTimes(pattern))
      ensures discounts == old(discounts)[pattern := d]
      ensures pattern in old(discounts) ==> computed == old(computed)
      ensures pattern !in old(discounts) ==> computed == old(computed) + [pattern]
    {
      if pattern in discounts {
        return discounts[pattern];
      }
      var n := base.cache.value.ngramTimes(pattern);
      var y := n.one as real / (n.one + n.two) as real;
      d := Discount(1.0 - Correction(2.0, y, n.two as real, n.one as real),
                    2.0 - Correction(3.0, y, n.three as real, n.two as real),
                    3.0 - Correction(4.0, y, n.four as real, n.three as real));
      discounts := discounts[pattern := d];
      computed := computed + [pattern];
    }

    /** calcProbability: the estimate does not depend on what the memo holds. */
    method CalcProbability(ops: NGramOps, sequence: NGram, history: NGram, recDepth: int) returns (r: real)
      requires Valid() && base.cache.Some? && Wf(ops, base.cache.value, backoffMode)
      modifies this
      decreases ops.size(history), 1
      ensures Valid() && backoffMode == old(backoffMode) && old(discounts).Keys <= discounts.Keys
      ensures r == GlmProbability(ops, base.cache.value, backoffMode, sequence, history)
      ensures var seen := base.cache.value.absolute(AbstractEstimator.FullHistory(sequence, history, ops.skpWord)) != 0;
        if seen && !ops.isEmptyOrOnlySkips(history) then ops.pattern(history) in discounts
        else discounts == old(discounts)
    {
      ghost var cache := base.cache.value;
      var fullHistory := AbstractEstimator.GetFullHistory(sequence, history, ops.skpWord);
      var denominator := base.cache.value.absolute(fullHistory) as real;
      if denominator == 0.0 {
        return base.cache.value.absolute(sequence) as real / base.cache.value.numWords as real;
      }
      var numerator := base.cache.value.absolute(AbstractEstimator.FullSequence(sequence, history)) as real;
      if ops.isEmptyOrOnlySkips(history) {
        return numerator / denominator;
      }
      var d := GetDiscounts(ops.pattern(history));
      var discount := ops.forCount(d, base.cache.value.absolute(history));
      var weight := Weight(d, base.cache.value.continuation(history + ops.wskpNGram));
      GlmInterpolated(ops, cache, backoffMode, sequence, history);
      var beta := SumDifferentiated(ops, sequence, history, recDepth);
      r := Interpolate(numerator, denominator, discount, weight, beta, |ops.differentiated(history, backoffMode)|);
    }

    /** The loop of calcProbability over the differentiated histories: the sum of their estimates. */
    method SumDifferentiated(ops: NGramOps, sequence: NGram, history: NGram, recDepth: int) returns (beta: real)
      requires Valid() && base.cache.Some? && Wf(ops, base.cache.value, backoffMode)
      requires !ops.isEmptyOrOnlySkips(history)
      modifies this
      decreases ops.size(history), 0
      ensures Valid() && backoffMode == old(backoffMode) && old(discounts).Keys <= discounts.Keys
      ensures beta == BetaSum(ops, base.cache.value, backoffMode, sequence, history, |ops.differentiated(history, backoffMode)|)
    {
      ghost var cache := base.cache.value;
      var differentiatedHistories := ops.differentiated(history, backoffMode);
      assert Shrinks(ops, backoffMode, history);
      beta := 0.0;
      var i := 0;
      while i < |differentiatedHistories|
        invariant 0 <= i <= |differentiatedHistories|
        invariant Valid() && backoffMode == old(backoffMode) && old(discounts).Keys <= discounts.Keys
        invariant base.cache == Some(cache)
        invariant beta == BetaSum(ops, cache, backoffMode, sequence, history, i)
      {
        var p := Probability3(ops, sequence, differentiatedHistories[i], recDepth);
        beta := beta + p;
        i := i + 1;
      }
    }

    /** AbstractEstimator.probability(sequence, history): fails when no cache is set. */
    method Probability(ops: NGramOps, sequence: NGram, history: NGram) returns (r: Option<real>)
      requires Valid() && (base.cache.Some? ==> Wf(ops, base.cache.value, backoffMode))
      modifies this
      ensures Valid() && backoffMode == old(backoffMode)
      ensures base.cache.None? ==> r.None? && discounts == old(discounts)
      ensures base.cache.Some? ==> r == Some(GlmProbability(ops, base.cache.value, backoffMode, sequence, history))
    {
      if base.cache.None? {
        return None;
      }
      var p := Probability3(ops, sequence, history, 1);
      return Some(p);
    }

    /** AbstractEstimator.probability(sequence, history, recDepth): one level deeper. */
    method Probability3(ops: NGramOps, sequence: NGram, history: NGram, recDepth: int) returns (r: real)
      requires Valid() && base.cache.Some? && Wf(ops, base.cache.value, backoffMode)
      modifies this
      decreases ops.size(history), 2
      ensures Valid() && backoffMode == old(backoffMode) && old(discounts).Keys <= discounts.Keys
      ensures r == GlmProbability(ops, base.cache.value, backoffMode, sequence, history)
    {
      r := CalcProbability(ops, sequence, history, recDepth + 1);
    }
  }
}
