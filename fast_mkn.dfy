/**
 * de.glmtk.querying.estimator.fast.FastModifiedKneserNeyAbsEstimator:
 * interpolated modified Kneser-Ney smoothing. A history is interpolated with
 * the estimate for the history backed off until it has been seen.
 */
module FastMkn {
  import opened Wrappers
  import opened Patterns
  import opened NGrams

  /** What the estimator needs of its collaborators for every division to be
      by a non-zero number and for the recursion to end. */
  ghost predicate Wf(ops: NGramOps, cache: CountCache, mode: BackoffMode) {
    cache.numWords > 0 &&
    (forall h :: !ops.isEmptyOrOnlySkips(h) ==> ops.size(ops.backoffUntilSeen(h, mode, cache)) < ops.size(h)) &&
    (forall h :: !ops.isEmptyOrOnlySkips(h) ==> ValidTimes(cache.ngramTimes(ops.pattern(h))))
  }

  /** The unigram frequency of the first word, or None where sequence.get(0) throws. */
  function FirstWordFrequency(cache: CountCache, sequence: NGram): Option<real>
    requires cache.numWords > 0
  {
    if |sequence| == 0 then None
    else Some(cache.absoluteWord(sequence[0]) as real / cache.numWords as real)
  }

  /** The lower-order weight over the denominator, and zero for an unseen history. */
  function Gamma(d: Discount, c: Counts, denominator: real): real
  {
    if denominator != 0.0 then Weight(d, c) / denominator else 0.0
  }

  /** The discounted fraction, or the unigram frequency for an unseen history. */
  function Alpha(cache: CountCache, sequence: NGram, history: NGram, denominator: real, discount: real): Option<real>
    requires cache.numWords > 0
  {
    if denominator == 0.0 then FirstWordFrequency(cache, sequence)
    else Some(Max(cache.absolute(history + sequence) as real - discount, 0.0) / denominator)
  }

  /** alpha + gamma * beta, failing when either part failed. */
  function Combine(alpha: Option<real>, gamma: real, beta: Option<real>): Option<real>
  {
    if alpha.None? || beta.None? then None else Some(alpha.value + gamma * beta.value)
  }

  /** The probability calcProbability computes; None where it throws. */
  ghost function MknProbability(ops: NGramOps, cache: CountCache, mode: BackoffMode,
                                sequence: NGram, history: NGram): Option<real>
    requires Wf(ops, cache, mode)
    decreases ops.size(history)
  {
    var denominator := cache.absolute(history + ops.skpNGram) as real;
    if ops.isEmptyOrOnlySkips(history) then
      if denominator == 0.0 then FirstWordFrequency(cache, sequence)
      else Some(cache.absolute(history + sequence) as real / denominator)
    else
      var d := DiscountOf(cache.ngramTimes(ops.pattern(history)));
      Combine(Alpha(cache, sequence, history, denominator, ops.forCount(d, cache.absolute(history))),
              Gamma(d, cache.continuation(history + ops.wskpNGram), denominator),
              MknProbability(ops, cache, mode, sequence, ops.backoffUntilSeen(history, mode, cache)))
  }

  /** The interpolated case of MknProbability, term by term. */
  lemma MknInterpolated(ops: NGramOps, cache: CountCache, mode: BackoffMode, sequence: NGram, history: NGram)
    requires Wf(ops, cache, mode) && !ops.isEmptyOrOnlySkips(history)
    ensures ops.size(ops.backoffUntilSeen(history, mode, cache)) < ops.size(history)
    ensures var denominator := cache.absolute(history + ops.skpNGram) as real;
      var d := DiscountOf(cache.ngramTimes(ops.pattern(history)));
      MknProbability(ops, cache, mode, sequence, history) ==
      Combine(Alpha(cache, sequence, history, denominator, ops.forCount(d, cache.absolute(history))),
              Gamma(d, cache.continuation(history + ops.wskpNGram), denominator),
              MknProbability(ops, cache, mode, sequence, ops.backoffUntilSeen(history, mode, cache)))
  {
  }

  /** Only an empty sequence makes the estimate throw; every other one has a value. */
  lemma {:induction false} MknDefined(ops: NGramOps, cache: CountCache, mode: BackoffMode,
                                      sequence: NGram, history: NGram)
    requires Wf(ops, cache, mode) && |sequence| > 0
    ensures MknProbability(ops, cache, mode, sequence, history).Some?
    decreases ops.size(history)
  {
    if !ops.isEmptyOrOnlySkips(history) {
      MknDefined(ops, cache, mode, sequence, ops.backoffUntilSeen(history, mode, cache));
    }
  }

  /** An unseen history gets no lower-order weight: the estimate is the unigram
      frequency of the first word, whatever the history backs off to. */
  lemma MknUnseenHistory(ops: NGramOps, cache: CountCache, mode: BackoffMode,
                         sequence: NGram, history: NGram)
    requires Wf(ops, cache, mode) && |sequence| > 0
    requires cache.absolute(history + ops.skpNGram) == 0
    ensures MknProbability(ops, cache, mode, sequence, history) ==
      Some(cache.absoluteWord(sequence[0]) as real / cache.numWords as real)
  {
    if !ops.isEmptyOrOnlySkips(history) {
      MknDefined(ops, cache, mode, sequence, ops.backoffUntilSeen(history, mode, cache));
    }
  }

  /** With non-negative discounts every estimate is non-negative. */
  lemma {:induction false} MknNonNegative(ops: NGramOps, cache: CountCache, mode: BackoffMode,
                                          sequence: NGram, history: NGram)
    requires Wf(ops, cache, mode) && NonNegativeDiscounts(ops, cache.ngramTimes)
    requires MknProbability(ops, cache, mode, sequence, history).Some?
    ensures MknProbability(ops, cache, mode, sequence, history).value >= 0.0
    decreases ops.size(history)
  {
    if !ops.isEmptyOrOnlySkips(history) {
      var backoff := ops.backoffUntilSeen(history, mode, cache);
      MknInterpolated(ops, cache, mode, sequence, history);
      MknNonNegative(ops, cache, mode, sequence, backoff);
      var denominator := cache.absolute(history + ops.skpNGram) as real;
      var d := DiscountOf(cache.ngramTimes(ops.pattern(history)));
      var c := cache.continuation(history + ops.wskpNGram);
      var alpha := Alpha(cache, sequence, history, denominator, ops.forCount(d, cache.absolute(history)));
      assert alpha.value >= 0.0;
      assert Weight(d, c) >= 0.0;
      CombineNonNegative(alpha, Gamma(d, c, denominator), MknProbability(ops, cache, mode, sequence, backoff));
    }
  }

  lemma CombineNonNegative(alpha: Option<real>, gamma: real, beta: Option<real>)
    requires alpha.Some? && beta.Some? && alpha.value >= 0.0 && gamma >= 0.0 && beta.value >= 0.0
    ensures Combine(alpha, gamma, beta).value >= 0.0
  {
    assert gamma * beta.value >= 0.0;
  }

  /** The collaborators of MknNegativeWithFewerOnceThanTwice: every history
      backs off to the empty one, and DEL is the mode. */
  function OnceBelowTwiceOps(): NGramOps {
    NGramOps("S", ["S"], ["W"], (h: NGram) => |h| == 0, (h: NGram) => Pattern("1"),
             (h: NGram, m: BackoffMode) => [],
             (h: NGram, m: BackoffMode, c: CountCache) => [],
             (d: Discount, n: nat) => if n == 1 then d.one else if n == 2 then d.two else d.three,
             (h: NGram) => |h|)
  }

  /** count(a SKP) = count(a) = 3, count(a z) = 0, the continuations of a are
      three words seen once, count(SKP) = 4, count(z) = 1, four words in all,
      and every pattern has n1 = 1, n2 = 2, n3 = 1, n4 = 0. */
  function OnceBelowTwiceCache(): CountCache {
    CountCache((h: NGram) => if h == ["a", "S"] || h == ["a"] then 3 else if h == ["S"] then 4
                             else if h == ["z"] then 1 else 0,
               (w: string) => if w == "z" then 1 else 0,
               (h: NGram) => if h == ["a", "W"] then Counts(3, 0, 0) else Counts(0, 0, 0),
               (p: Pattern) => NGramTimes(1, 2, 1, 0),
               4)
  }

  /** Without non-negative discounts the estimate can be negative: a pattern
      with fewer n-grams seen once than twice (n1 = 1, n2 = 2) has d1 = -1/3,
      and a history whose continuations are all seen once then gets a negative
      lower-order weight. Here P(z | a) = 0 + (-1/3) * 1/4. */
  lemma MknNegativeWithFewerOnceThanTwice()
    ensures Wf(OnceBelowTwiceOps(), OnceBelowTwiceCache(), DEL)
    ensures !NonNegativeDiscounts(OnceBelowTwiceOps(), OnceBelowTwiceCache().ngramTimes)
    ensures MknProbability(OnceBelowTwiceOps(), OnceBelowTwiceCache(), DEL, ["z"], ["a"]) == Some(-1.0 / 12.0)
  {
    var ops, cache := OnceBelowTwiceOps(), OnceBelowTwiceCache();
    var d := OnceBelowTwiceDiscount();
    assert !NonNegativeDiscounts(ops, cache.ngramTimes) by {
      assert !ops.isEmptyOrOnlySkips(["a"]) && cache.ngramTimes(ops.pattern(["a"])) == NGramTimes(1, 2, 1, 0);
    }
    assert ["a"] + ops.skpNGram == ["a", "S"] && ["a"] + ops.wskpNGram == ["a", "W"];
    assert ops.backoffUntilSeen(["a"], DEL, cache) == [];
    MknInterpolated(ops, cache, DEL, ["z"], ["a"]);
    var beta := MknProbability(ops, cache, DEL, ["z"], []);
    assert beta == Some(1.0 / 4.0) by {
      assert [] + ops.skpNGram == ["S"] && [] + ["z"] == ["z"];
    }
    var alpha := Alpha(cache, ["z"], ["a"], 3.0, ops.forCount(d, cache.absolute(["a"])));
    assert alpha == Some(0.0) by {
      assert ["a"] + ["z"] == ["a", "z"] && cache.absolute(["a", "z"]) == 0;
      assert ops.forCount(d, 3) == 3.0;
    }
    var gamma := Gamma(d, cache.continuation(["a", "W"]), 3.0);
    assert gamma == -1.0 / 3.0 by {
      assert Weight(d, Counts(3, 0, 0)) == -1.0;
    }
    assert Combine(alpha, gamma, beta) == Some(-1.0 / 12.0);
  }

  /** The discounts of n1 = 1, n2 = 2, n3 = 1, n4 = 0. */
  lemma OnceBelowTwiceDiscount() returns (d: Discount)
    ensures d == DiscountOf(NGramTimes(1, 2, 1, 0)) == Discount(-1.0 / 3.0, 1.5, 3.0)
  {
    DiscountClosedForm(NGramTimes(1, 2, 1, 0));
    d := DiscountOf(NGramTimes(1, 2, 1, 0));
  }

  /** The count cache is the field the estimator's base class holds; it is set by setCountCache. */
  class FastModifiedKneserNeyAbsEstimator {
    var countCache: Option<CountCache>
    var backoffMode: BackoffMode
    var discounts: map<Pattern, Discount>
    /** The patterns whose counts getDiscounts has read, in order. */
    ghost var computed: seq<Pattern>

    ghost predicate Valid()
      reads this
    {
      (backoffMode == DEL || backoffMode == SKP) &&
      (countCache.Some? ==> MemoSound(discounts, countCache.value.ngramTimes))
    }

    constructor()
      ensures Valid() && backoffMode == DEL && countCache == None && discounts == map[] && computed == []
    {
      countCache := None;
      backoffMode := DEL;
      discounts := map[];
      computed := [];
    }

    /** setBackoffMode: only DEL and SKP are accepted; any other mode is
        refused (the IllegalArgumentException) and leaves the estimator as it was. */
    method SetBackoffMode(mode: BackoffMode) returns (accepted: bool)
      requires Valid()
      modifies this
      ensures Valid() && (accepted <==> mode == DEL || mode == SKP)
      ensures backoffMode == if accepted then mode else old(backoffMode)
      ensures countCache == old(countCache) && discounts == old(discounts) && computed == old(computed)
    {
      if mode != DEL && mode != SKP {
        return false;
      }
      backoffMode := mode;
      return true;
    }

    /** setCountCache: the cache is stored and the memo starts afresh. */
    method SetCountCache(c: Option<CountCache>)
      requires Valid()
      modifies this
      ensures Valid() && countCache == c && discounts == map[]
      ensures backoffMode == old(backoffMode) && computed == old(computed)
    {
      countCache := c;
      discounts := map[];
    }

    /** getDiscounts: the discount estimate of the pattern; the cache's count
        record is read only the first time a pattern is asked for. */
    method GetDiscounts(pattern: Pattern) returns (d: Discount)
      requires Valid() && countCache.Some? && ValidTimes(countCache.value.ngramTimes(pattern))
      modifies this
      ensures Valid() && backoffMode == old(backoffMode) && countCache == old(countCache)
      ensures d == DiscountOf(countCache.value.ngramTimes(pattern))
      ensures discounts == old(discounts)[pattern := d]
      ensures pattern in old(discounts) ==> computed == old(computed)
      ensures pattern !in old(discounts) ==> computed == old(computed) + [pattern]
    {
      if pattern in discounts {
        return discounts[pattern];
      }
      var n := countCache.value.ngramTimes(pattern);
      var y := n.one as real / (n.one + n.two) as real;
      d := Discount(1.0 - Correction(2.0, y, n.two as real, n.one as real),
                    2.0 - Correction(3.0, y, n.three as real, n.two as real),
                    3.0 - Correction(4.0, y, n.four as real, n.three as real));
      discounts := discounts[pattern := d];
      computed := computed + [pattern];
    }

    /** calcProbability: None where sequence.get(0) throws; the estimate does
        not depend on what the memo holds. */
    method CalcProbability(ops: NGramOps, sequence: NGram, history: NGram, recDepth: int) returns (r: Option<real>)
      requires Valid() && countCache.Some? && Wf(ops, countCache.value, backoffMode)
      modifies this
      decreases ops.size(history)
      ensures Valid() && backoffMode == old(backoffMode) && countCache == old(countCache)
      ensures old(discounts).Keys <= discounts.Keys
      ensures r == MknProbability(ops, countCache.value, backoffMode, sequence, history)
      ensures if ops.isEmptyOrOnlySkips(history) then discounts == old(discounts)
              else ops.pattern(history) in discounts
    {
      var cache := countCache.value;
      var denominator := cache.absolute(history + ops.skpNGram) as real;
      if ops.isEmptyOrOnlySkips(history) {
        if denominator == 0.0 {
          if |sequence| == 0 {
            return None;
          }
          return Some(cache.absoluteWord(sequence[0]) as real / cache.numWords as real);
        }
        var numerator := cache.absolute(history + sequence) as real;
        return Some(numerator / denominator);
      }
      var d := GetDiscounts(ops.pattern(history));
      var discount := ops.forCount(d, cache.absolute(history));
      var gamma := 0.0;
      if denominator != 0.0 {
        var c := cache.continuation(history + ops.wskpNGram);
        gamma := Weight(d, c) / denominator;
      }
      var alpha: real;
      if denominator == 0.0 {
        if |sequence| == 0 {
          MknInterpolated(ops, cache, backoffMode, sequence, history);
          return None;
        }
        alpha := cache.absoluteWord(sequence[0]) as real / cache.numWords as real;
      } else {
        var numerator := cache.absolute(history + sequence) as real;
        numerator := Max(numerator - discount, 0.0);
        alpha := numerator / denominator;
      }
      assert Some(alpha) == Alpha(cache, sequence, history, denominator, discount);
      assert gamma == Gamma(d, cache.continuation(history + ops.wskpNGram), denominator);
      MknInterpolated(ops, cache, backoffMode, sequence, history);
      var backoffHistory := ops.backoffUntilSeen(history, backoffMode, cache);
      var beta := CalcProbability(ops, sequence, backoffHistory, recDepth + 1);
      assert beta == MknProbability(ops, cache, backoffMode, sequence, backoffHistory);
      r := Combine(Some(alpha), gamma, beta);
    }
  }
}
