/**
 * de.typology.smoothing.MaximumLikelihoodEstimator: the estimate
 * P(req | cond) = c(cond req) / c(cond skp..skp), where the history puts one
 * skipped word in place of every word of the requested sequence.
 */
module MaximumLikelihoodEstimator {
  import opened Wrappers
  import opened NGrams
  import opened AbstractEstimator

  /** The corpus counts the estimator reads. */
  datatype Corpus = Corpus(absolute: seq<string> -> nat, numWords: nat)

  // getSequence and getHistory build the same lists as AbstractEstimator's
  // getFullSequence and getFullHistory, with the condition as the history and
  // the requested words as the sequence.

  /** The loop of getHistory. */
  method GetHistory(req: seq<string>, cond: seq<string>, skipped: string) returns (history: seq<string>)
    ensures history == FullHistory(req, cond, skipped)
  {
    history := cond;
    var i := 0;
    while i != |req|
      invariant 0 <= i <= |req|
      invariant history == cond + Repeat(skipped, i)
    {
      history := history + [skipped];
      i := i + 1;
    }
  }

  /** getNumerator: the count of the condition followed by the requested words. */
  function Numerator(corpus: Corpus, req: seq<string>, cond: seq<string>): nat {
    corpus.absolute(FullSequence(req, cond))
  }

  /** getDenominator, with the empty history counted as the number of words. */
  function Denominator(corpus: Corpus, req: seq<string>, cond: seq<string>, skipped: string): nat {
    var history := FullHistory(req, cond, skipped);
    if history == [] then corpus.numWords else corpus.absolute(history)
  }

  /** The fraction's two counts: the numerator counts cond followed by req,
      and the denominator is the word count exactly when there is neither a
      condition nor a requested word. */
  lemma FractionCounts(corpus: Corpus, req: seq<string>, cond: seq<string>, skipped: string)
    ensures Numerator(corpus, req, cond) == corpus.absolute(cond + req)
    ensures req == [] && cond == [] ==> Denominator(corpus, req, cond, skipped) == corpus.numWords
    ensures req != [] || cond != [] ==>
      Denominator(corpus, req, cond, skipped) == corpus.absolute(cond + Repeat(skipped, |req|))
  {
    if req != [] || cond != [] {
      assert |FullHistory(req, cond, skipped)| > 0;
    }
  }

  // As written, getSequence and getHistory allocate their result list with
  // capacity |req| + |cond| - 1, and a negative capacity throws; None stands for that.

  function SequenceAsWritten(req: seq<string>, cond: seq<string>): Option<seq<string>> {
    if |req| + |cond| - 1 < 0 then None else Some(FullSequence(req, cond))
  }

  function HistoryAsWritten(req: seq<string>, cond: seq<string>, skipped: string): Option<seq<string>> {
    if |req| + |cond| - 1 < 0 then None else Some(FullHistory(req, cond, skipped))
  }

  function DenominatorAsWritten(corpus: Corpus, req: seq<string>, cond: seq<string>, skipped: string): Option<nat> {
    match HistoryAsWritten(req, cond, skipped)
    case None => None
    case Some(history) => Some(if history == [] then corpus.numWords else corpus.absolute(history))
  }

  /** As written, the empty-history branch of getDenominator is dead: the only
      inputs with an empty history make getHistory throw, and every
      denominator it does return is the count of a non-empty history. */
  lemma EmptyHistoryBranchIsDead(corpus: Corpus, req: seq<string>, cond: seq<string>, skipped: string)
    ensures req == [] && cond == [] ==>
      DenominatorAsWritten(corpus, req, cond, skipped) == None &&
      SequenceAsWritten(req, cond) == None
    ensures DenominatorAsWritten(corpus, req, cond, skipped).Some? ==>
      FullHistory(req, cond, skipped) != [] &&
      DenominatorAsWritten(corpus, req, cond, skipped) == Some(corpus.absolute(FullHistory(req, cond, skipped)))
    ensures req != [] || cond != [] ==>
      DenominatorAsWritten(corpus, req, cond, skipped) == Some(Denominator(corpus, req, cond, skipped)) &&
      SequenceAsWritten(req, cond) == Some(FullSequence(req, cond))
  {
    if req != [] || cond != [] {
      assert |FullHistory(req, cond, skipped)| > 0;
    }
  }
}
