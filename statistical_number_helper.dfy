/**
 * de.glmtk.utils.StatisticalNumberHelper: named counters and named running
 * min/max/sum/count records. The Java class keeps them in static maps; here
 * they are the fields of one object.
 */
module Statistics {

  const LONG_MIN: int := -0x8000_0000_0000_0000
  const LONG_MAX: int := 0x7fff_ffff_ffff_ffff

  /** The values of a Java long. */
  type Long = x: int | LONG_MIN <= x <= LONG_MAX

  /** Sum of the samples. */
  function SumOf(xs: seq<int>): int {
    if |xs| == 0 then 0 else SumOf(xs[..|xs| - 1]) + xs[|xs| - 1]
  }

  /** The smallest sample. */
  function MinOf(xs: seq<int>): (m: int)
    requires |xs| > 0
    ensures m in xs && forall i :: 0 <= i < |xs| ==> m <= xs[i]
  {
    if |xs| == 1 then xs[0]
    else
      var m := MinOf(xs[..|xs| - 1]);
      assert forall i :: 0 <= i < |xs| - 1 ==> xs[..|xs| - 1][i] == xs[i];
      if xs[|xs| - 1] < m then xs[|xs| - 1] else m
  }

  /** The largest sample. */
  function MaxOf(xs: seq<int>): (m: int)
    requires |xs| > 0
    ensures m in xs && forall i :: 0 <= i < |xs| ==> xs[i] <= m
  {
    if |xs| == 1 then xs[0]
    else
      var m := MaxOf(xs[..|xs| - 1]);
      assert forall i :: 0 <= i < |xs| - 1 ==> xs[..|xs| - 1][i] == xs[i];
      if xs[|xs| - 1] > m then xs[|xs| - 1] else m
  }

  /** A record that has seen at least one sample reports min <= max. */
  lemma MinAtMostMax(xs: seq<int>)
    requires |xs| > 0
    ensures MinOf(xs) <= MaxOf(xs)
  {
    assert MinOf(xs) <= xs[0] <= MaxOf(xs);
  }

  /** AverageItem: the running record of one name. Java keeps it as a private
      mutable object that never leaves the map, so a record value that Average
      replaces behaves the same. */
  datatype AverageItem = AverageItem(max: int, min: int, number: int, count: int) {
    /** The record summarises exactly the samples xs. */
    ghost predicate Summarizes(xs: seq<int>) {
      |xs| > 0 && count == |xs| && number == SumOf(xs) && min == MinOf(xs) && max == MaxOf(xs)
    }
  }

  /** new AverageItem(): the sentinels before any sample. */
  const FreshItem := AverageItem(LONG_MIN, LONG_MAX, 0, 0)

  /** The body of average(name, number) once the record is found or created:
      keep the larger maximum and the smaller minimum, add the sample to the sum
      and count it. */
  function Add(item: AverageItem, x: Long): AverageItem {
    var item := if x > item.max then item.(max := x) else item;
    var item := if x < item.min then item.(min := x) else item;
    item.(number := item.number + x, count := item.count + 1)
  }

  /** Folding a sample into the fresh record, or into one that summarises xs,
      gives a record that summarises xs + [x]. */
  lemma {:induction false} AddSummarizes(item: AverageItem, xs: seq<int>, x: Long)
    requires xs == [] ==> item == FreshItem
    requires xs != [] ==> item.Summarizes(xs)
    ensures Add(item, x).Summarizes(xs + [x])
  {
    assert (xs + [x])[..|xs|] == xs;
  }

  function Get(m: map<string, int>, name: string): int {
    if name in m then m[name] else 0
  }

  class StatisticalNumberHelper {
    var counters: map<string, int>
    var averages: map<string, AverageItem>
    /** The samples passed to Average for every name since the last Reset. */
    ghost var samples: map<string, seq<int>>

    ghost predicate Valid()
      reads this
    {
      && samples.Keys == averages.Keys
      && (forall n :: n in averages ==> averages[n].Summarizes(samples[n]))
    }

    constructor ()
      ensures Valid() && counters == map[] && averages == map[] && samples == map[]
    {
      counters := map[];
      averages := map[];
      samples := map[];
    }

    /** count(name): the same as count(name, 1). */
    method Count(name: string)
      modifies this
      ensures counters == old(counters)[name := Get(old(counters), name) + 1]
      ensures averages == old(averages) && samples == old(samples)
    {
      CountBy(name, 1);
    }

    /** count(name, number): a missing counter starts at 0. */
    method CountBy(name: string, number: Long)
      modifies this
      ensures counters == old(counters)[name := Get(old(counters), name) + number]
      ensures averages == old(averages) && samples == old(samples)
    {
      var counter := if name in counters then counters[name] else 0;
      counter := counter + number;
      counters := counters[name := counter];
    }

    /** average(name, number): the first call for a name creates a record
        (max = Long.MIN_VALUE, min = Long.MAX_VALUE, number = count = 0) and
        every call folds the sample into it; other names keep their records. */
    method Average(name: string, number: Long)
      requires Valid()
      modifies this
      ensures Valid()
      ensures counters == old(counters)
      ensures samples == old(samples)[name := (if name in old(samples) then old(samples)[name] else []) + [number]]
      ensures averages == old(averages)[name := Add(if name in old(averages) then old(averages)[name] else FreshItem, number)]
    {
      var average := if name in averages then averages[name] else FreshItem;
      ghost var xs := if name in samples then samples[name] else [];
      AddSummarizes(average, xs, number);
      average := Add(average, number);
      averages := averages[name := average];
      samples := samples[name := xs + [number]];
    }

    /** reset(): forgets every average record, keeps the counters. */
    method Reset()
      modifies this
      ensures Valid()
      ensures averages == map[] && samples == map[]
      ensures counters == old(counters)
    {
      averages := map[];
      samples := map[];
    }

    /** Every stored record has seen at least one sample, so the division
        number / count that print() logs is defined, and min <= max. */
    lemma StoredRecordsAreCounted(name: string)
      requires Valid() && name in averages
      ensures averages[name].count >= 1
      ensures averages[name].min <= averages[name].max
    {
      MinAtMostMax(samples[name]);
    }
  }
}
