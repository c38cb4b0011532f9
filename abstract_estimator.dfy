/**
 * de.glmtk.querying.estimator.AbstractEstimator: how an estimator builds the
 * full sequence and the full history of a query, and the configuration it
 * shares with its substitute estimator.
 */
module AbstractEstimator {
  import opened Wrappers
  import opened NGrams

  /** getFullSequence: the history followed by the sequence. */
  function FullSequence(sequence: NGram, history: NGram): (r: NGram)
    ensures |r| == |history| + |sequence|
    ensures r[..|history|] == history && r[|history|..] == sequence
  {
    history + sequence
  }

  /** getFullHistory: the history followed by one skip word per word of the sequence. */
  function FullHistory(sequence: NGram, history: NGram, skp: string): (r: NGram)
    ensures |r| == |history| + |sequence|
    ensures r[..|history|] == history
    ensures forall i :: |history| <= i < |r| ==> r[i] == skp
  {
    history + Repeat(skp, |sequence|)
  }

  /** The loop of getFullHistory. */
  method GetFullHistory(sequence: NGram, history: NGram, skp: string) returns (r: NGram)
    ensures r == FullHistory(sequence, history, skp)
  {
    var skippedSequence: seq<string> := [];
    var i := 0;
    while i != |sequence|
      invariant 0 <= i <= |sequence|
      invariant skippedSequence == Repeat(skp, i)
    {
      skippedSequence := skippedSequence + [skp];
      i := i + 1;
    }
    r := history + skippedSequence;
  }

  /** The full history is the full sequence with the sequence's words skipped:
      same length, same history part, and the skip word exactly where the
      sequence was. */
  lemma FullHistoryMasksFullSequence(sequence: NGram, history: NGram, skp: string)
    ensures |FullHistory(sequence, history, skp)| == |FullSequence(sequence, history)|
    ensures forall i :: 0 <= i < |history| ==>
      FullHistory(sequence, history, skp)[i] == FullSequence(sequence, history)[i]
    ensures forall i :: |history| <= i < |history| + |sequence| ==>
      FullHistory(sequence, history, skp)[i] == skp &&
      FullSequence(sequence, history)[i] == sequence[i - |history|]
    ensures FullHistory(sequence, history, skp) == FullSequence(Repeat(skp, |sequence|), history)
  {
    var h, s := FullHistory(sequence, history, skp), FullSequence(sequence, history);
    forall i | 0 <= i < |history|
      ensures h[i] == s[i]
    {
      assert h[i] == h[..|history|][i] && s[i] == s[..|history|][i];
    }
    forall i | |history| <= i < |history| + |sequence|
      ensures s[i] == sequence[i - |history|]
    {
      assert s[i] == s[|history|..][i - |history|];
    }
  }

  /**
   * The configuration every estimator holds. `isSubstitute` stands for the
   * estimator's run-time class being a SubstituteEstimator: such an estimator
   * has no substitute, every other one gets a fresh AbsoluteUnigramEstimator.
   */
  class AbstractEstimator {
    const substitute: AbstractEstimator?
    ghost const isSubstitute: bool
    var name: string
    var cache: Option<Cache>
    var probMode: ProbMode

    /** A substitute is a different estimator that has no substitute itself. */
    ghost predicate Valid()
      reads this, substitute
    {
      (substitute == null <==> isSubstitute) &&
      (substitute != null ==> substitute != this && substitute.substitute == null && substitute.isSubstitute)
    }

    constructor(isSubstitute: bool)
      ensures Valid() && this.isSubstitute == isSubstitute
      ensures name == "Unnamed" && cache == None && probMode == MARG
      ensures substitute != null ==> fresh(substitute) && substitute.name == "Unnamed" &&
                                     substitute.cache == None && substitute.probMode == MARG
    {
      if isSubstitute {
        substitute := null;
      } else {
        substitute := new AbstractEstimator.Unigram();
      }
      this.isSubstitute := isSubstitute;
      name := "Unnamed";
      cache := None;
      probMode := MARG;
    }

    /** The constructor as an AbsoluteUnigramEstimator, a SubstituteEstimator, runs it. */
    constructor Unigram()
      ensures Valid() && isSubstitute && substitute == null
      ensures name == "Unnamed" && cache == None && probMode == MARG
    {
      substitute := null;
      isSubstitute := true;
      name := "Unnamed";
      cache := None;
      probMode := MARG;
    }

    /** setCache: the cache goes to this estimator and to its substitute. */
    method SetCache(c: Option<Cache>)
      requires Valid()
      modifies this, substitute
      decreases if substitute == null then 0 else 1
      ensures Valid() && cache == c && name == old(name) && probMode == old(probMode)
      ensures substitute != null ==>
        substitute.cache == c && substitute.name == old(substitute.name) &&
        substitute.probMode == old(substitute.probMode)
    {
      cache := c;
      if substitute != null && substitute != this {
        substitute.SetCache(c);
      }
    }

    /** setProbMode: the mode goes to this estimator and to its substitute. */
    method SetProbMode(m: ProbMode)
      requires Valid()
      modifies this, substitute
      decreases if substitute == null then 0 else 1
      ensures Valid() && probMode == m && name == old(name) && cache == old(cache)
      ensures substitute != null ==>
        substitute.probMode == m && substitute.name == old(substitute.name) &&
        substitute.cache == old(substitute.cache)
    {
      probMode := m;
      if substitute != null && substitute != this {
        substitute.SetProbMode(m);
      }
    }
  }
}
