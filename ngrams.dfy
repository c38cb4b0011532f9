/**
 * The collaborators the estimators use: n-grams, the count caches, count
 * records and the modified-Kneser-Ney discount estimate. The n-gram
 * operations whose code is not part of this model are function-valued fields.
 */
module NGrams {
  import opened Patterns

  /** An n-gram is its list of words; concat is sequence concatenation. */
  type NGram = seq<string>

  datatype BackoffMode = DEL | SKP | OtherMode(name: string)

  datatype ProbMode = COND | MARG

  /** Continuation counts: how many words follow with count one, two, three or more. */
  datatype Counts = Counts(one: nat, two: nat, threePlus: nat)

  /** How many n-grams of a pattern occur once, twice, three and four times. */
  datatype NGramTimes = NGramTimes(one: nat, two: nat, three: nat, four: nat)

  datatype Discount = Discount(one: real, two: real, three: real)

  /** de.glmtk.cache.Cache as the GLM estimator uses it. */
  datatype Cache = Cache(
    absolute: NGram -> nat,
    continuation: NGram -> Counts,
    ngramTimes: Pattern -> NGramTimes,
    numWords: nat)

  /** de.glmtk.common.CountCache as the MKN estimator uses it; absoluteWord is
      getAbsolute applied to a single word. */
  datatype CountCache = CountCache(
    absolute: NGram -> nat,
    absoluteWord: string -> nat,
    continuation: NGram -> Counts,
    ngramTimes: Pattern -> NGramTimes,
    numWords: nat)

  /** The NGram and Discount methods the estimators call. `size` is a measure
      that the differentiated and backed-off histories of a history that is
      not empty-or-only-skips decrease (the estimators' recursion relies on it). */
  datatype NGramOps = NGramOps(
    skpWord: string,                                        // PatternElem.SKP_WORD
    skpNGram: NGram,                                        // NGram.SKP_NGRAM
    wskpNGram: NGram,                                       // NGram.WSKP_NGRAM
    isEmptyOrOnlySkips: NGram -> bool,
    pattern: NGram -> Pattern,                              // getPattern()
    differentiated: (NGram, BackoffMode) -> seq<NGram>,     // getDifferentiatedNGrams, in iteration order
    backoffUntilSeen: (NGram, BackoffMode, CountCache) -> NGram,
    forCount: (Discount, nat) -> real,                      // Discount.getForCount
    size: NGram -> nat)

  /** n copies of w. */
  function Repeat(w: string, n: nat): (r: seq<string>)
    ensures |r| == n && forall i :: 0 <= i < n ==> r[i] == w
  {
    if n == 0 then [] else Repeat(w, n - 1) + [w]
  }

  function Max(a: real, b: real): (m: real)
    ensures m >= a && m >= b && (m == a || m == b)
  {
    if a >= b then a else b
  }

  /** The counts the discount estimate divides by are positive. */
  predicate ValidTimes(n: NGramTimes) {
    n.one > 0 && n.two > 0 && n.three > 0
  }

  /** The modified-Kneser-Ney discounts of getDiscounts: with
      y = n1 / (n1 + n2), d_k = k - (k + 1) * y * n_{k+1} / n_k. */
  function DiscountOf(n: NGramTimes): Discount
    requires ValidTimes(n)
  {
    DiscountFrom(n.one as real, n.two as real, n.three as real, n.four as real)
  }

  function DiscountFrom(n1: real, n2: real, n3: real, n4: real): Discount
    requires n1 > 0.0 && n2 > 0.0 && n3 > 0.0
  {
    var y := n1 / (n1 + n2);
    Discount(1.0 - Correction(2.0, y, n2, n1),
             2.0 - Correction(3.0, y, n3, n2),
             3.0 - Correction(4.0, y, n4, n3))
  }

  /** k * y * m / d, the amount getDiscounts subtracts from each count. */
  function Correction(k: real, y: real, m: real, d: real): real
    requires d != 0.0
  {
    k * y * m / d
  }

  /** The closed forms: d1 = (n1 - n2) / (n1 + n2), d2 = 2 - 3 n1 n3 / ((n1 + n2) n2),
      d3 = 3 - 4 n1 n4 / ((n1 + n2) n3). */
  lemma DiscountClosedForm(n: NGramTimes)
    requires ValidTimes(n)
    ensures var n1, n2, n3, n4 := n.one as real, n.two as real, n.three as real, n.four as real;
      DiscountOf(n) == Discount((n1 - n2) / (n1 + n2),
                                2.0 - 3.0 * n1 * n3 / ((n1 + n2) * n2),
                                3.0 - 4.0 * n1 * n4 / ((n1 + n2) * n3))
  {
    ClosedForm(n.one as real, n.two as real, n.three as real, n.four as real);
  }

  lemma ClosedForm(n1: real, n2: real, n3: real, n4: real)
    requires n1 > 0.0 && n2 > 0.0 && n3 > 0.0
    ensures DiscountFrom(n1, n2, n3, n4) == Discount((n1 - n2) / (n1 + n2),
                                                     2.0 - 3.0 * n1 * n3 / ((n1 + n2) * n2),
                                                     3.0 - 4.0 * n1 * n4 / ((n1 + n2) * n3))
  {
    ScaledRatio(2.0, n1, n2, n2, n1);
    QuotientOf(n1 - n2, n1 + n2, 1.0 - 2.0 * n2 / (n1 + n2));
    ScaledRatio(3.0, n1, n2, n3, n2);
    ScaledRatio(4.0, n1, n2, n4, n3);
  }

  /** With y = n1 / (n1 + n2): k * y * m / d == k * n1 * m / ((n1 + n2) * d). */
  lemma ScaledRatio(k: real, n1: real, n2: real, m: real, d: real)
    requires n1 > 0.0 && n2 > 0.0 && d > 0.0
    ensures Correction(k, n1 / (n1 + n2), m, d) == k * n1 * m / ((n1 + n2) * d)
  {
    var y := n1 / (n1 + n2);
    assert y * (n1 + n2) == n1;
    var q := k * y * m / d;
    assert q * d == k * y * m;
    assert q * ((n1 + n2) * d) == k * n1 * m by {
      calc {
        q * ((n1 + n2) * d);
        (q * d) * (n1 + n2);
        (k * m) * (y * (n1 + n2));
      }
    }
    QuotientOf(k * n1 * m, (n1 + n2) * d, q);
  }

  /** The quotient a / b is the x with x * b == a. */
  lemma QuotientOf(a: real, b: real, x: real)
    requires b != 0.0 && x * b == a
    ensures a / b == x
  {
  }

  /** Each discount stays below its count: -1 < d1 < 1, d2 < 2, d3 <= 3. */
  lemma DiscountBounds(n: NGramTimes)
    requires ValidTimes(n)
    ensures -1.0 < DiscountOf(n).one < 1.0
    ensures DiscountOf(n).two < 2.0
    ensures DiscountOf(n).three <= 3.0
  {
    DiscountClosedForm(n);
    var n1, n2, n3, n4 := n.one as real, n.two as real, n.three as real, n.four as real;
    assert (n1 - n2) / (n1 + n2) < 1.0 by {
      assert n1 - n2 < n1 + n2;
    }
    assert (n1 - n2) / (n1 + n2) > -1.0 by {
      assert n1 - n2 > -(n1 + n2);
    }
    assert 3.0 * n1 * n3 / ((n1 + n2) * n2) > 0.0 by {
      assert 3.0 * n1 * n3 > 0.0 && (n1 + n2) * n2 > 0.0;
    }
    assert 4.0 * n1 * n4 / ((n1 + n2) * n3) >= 0.0 by {
      assert 4.0 * n1 * n4 >= 0.0 && (n1 + n2) * n3 > 0.0;
    }
  }

  /** The weight of the lower order: d1 c1 + d2 c2 + d3 c3+. */
  function Weight(d: Discount, c: Counts): real {
    d.one * c.one as real + d.two * c.two as real + d.three * c.threePlus as real
  }

  /** Each memo entry is the discount estimate of its pattern's count record. */
  ghost predicate MemoSound(discounts: map<Pattern, Discount>, ngramTimes: Pattern -> NGramTimes) {
    forall p :: p in discounts ==> ValidTimes(ngramTimes(p)) && discounts[p] == DiscountOf(ngramTimes(p))
  }

  /** Every pattern a history can have gets non-negative discounts. */
  ghost predicate NonNegativeDiscounts(ops: NGramOps, ngramTimes: Pattern -> NGramTimes) {
    forall h :: !ops.isEmptyOrOnlySkips(h) && ValidTimes(ngramTimes(ops.pattern(h))) ==>
      var d := DiscountOf(ngramTimes(ops.pattern(h)));
      d.one >= 0.0 && d.two >= 0.0 && d.three >= 0.0
  }
}
