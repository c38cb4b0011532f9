/**
 * The few pieces of java.lang.String and of Java integer arithmetic that the
 * core relies on: compareTo (the order of TreeSet and of the count files),
 * indexOf, split("\t")[0] and the truncating '/'.
 */
module Text {
  import opened Wrappers

  /** Java's String.compareTo: the difference of the first differing characters,
      or the difference of the lengths when one string is a prefix of the other. */
  function CompareTo(a: string, b: string): int
    decreases |a|
  {
    if |a| == 0 || |b| == 0 then |a| - |b|
    else if a[0] != b[0] then a[0] as int - b[0] as int
    else CompareTo(a[1..], b[1..])
  }

  /** a.compareTo(b) < 0 */
  predicate Less(a: string, b: string) {
    CompareTo(a, b) < 0
  }

  lemma {:induction false} CompareToZero(a: string, b: string)
    ensures CompareTo(a, b) == 0 <==> a == b
    decreases |a|
  {
    if |a| == 0 || |b| == 0 {
    } else if a[0] != b[0] {
    } else {
      CompareToZero(a[1..], b[1..]);
      assert a == [a[0]] + a[1..] && b == [b[0]] + b[1..];
    }
  }

  lemma {:induction false} CompareToFlip(a: string, b: string)
    ensures CompareTo(a, b) < 0 <==> CompareTo(b, a) > 0
    decreases |a|
  {
    if |a| == 0 || |b| == 0 {
    } else if a[0] != b[0] {
    } else {
      CompareToFlip(a[1..], b[1..]);
    }
  }

  lemma {:induction false} LessTransitive(a: string, b: string, c: string)
    requires Less(a, b) && Less(b, c)
    ensures Less(a, c)
    decreases |a|
  {
    if |a| == 0 {
      assert |b| > 0;
    } else {
      assert |b| > 0 && |c| > 0;
      if a[0] == b[0] && b[0] == c[0] {
        LessTransitive(a[1..], b[1..], c[1..]);
      }
    }
  }

  /** compareTo is a total order: exactly one of a < b, a == b, b < a. */
  lemma LessTrichotomy(a: string, b: string)
    ensures Less(a, b) || a == b || Less(b, a)
    ensures !(Less(a, b) && Less(b, a)) && !Less(a, a)
  {
    CompareToZero(a, b);
    CompareToFlip(a, b);
    CompareToFlip(b, a);
    CompareToZero(a, a);
  }

  /** Strictly ascending under compareTo, hence free of duplicates. */
  ghost predicate StrictlySorted(s: seq<string>) {
    forall i, j :: 0 <= i < j < |s| ==> Less(s[i], s[j])
  }

  /** Ascending under compareTo, duplicates allowed. */
  ghost predicate Sorted(s: seq<string>) {
    forall i, j :: 0 <= i < j < |s| ==> !Less(s[j], s[i])
  }

  /** s.indexOf(c): the first position holding c, or -1. */
  function IndexOf(s: string, c: char): (r: int)
    ensures r == -1 <==> c !in s
    ensures r != -1 ==> 0 <= r < |s| && s[r] == c && c !in s[..r]
  {
    if |s| == 0 then -1
    else if s[0] == c then 0
    else
      var k := IndexOf(s[1..], c);
      assert s[1..][..if k < 0 then 0 else k] == s[1..if k < 0 then 1 else k + 1];
      if k == -1 then -1 else k + 1
  }

  /** The key of a count-file record: the text before the first tab, or the
      whole line when it holds no tab. */
  function Key(line: string): (k: string)
    ensures '\t' !in k
    ensures k == line || (|k| < |line| && line[|k|] == '\t')
    ensures k == line[..|k|]
  {
    var p := IndexOf(line, '\t');
    if p == -1 then line else line[..p]
  }

  /** Every character of s is a tab. */
  predicate OnlyTabs(s: string) {
    forall i :: 0 <= i < |s| ==> s[i] == '\t'
  }

  /** The pieces of a line between its tabs, empty pieces included. */
  function Fields(line: string): (fs: seq<string>)
    ensures |fs| >= 1
    decreases |line|
  {
    var p := IndexOf(line, '\t');
    if p == -1 then [line] else [line[..p]] + Fields(line[p + 1..])
  }

  /** A list with its trailing empty strings removed, as split does with a limit of 0. */
  function DropTrailingEmpty(fs: seq<string>): seq<string>
    decreases |fs|
  {
    if |fs| == 0 then []
    else if fs[|fs| - 1] == "" then DropTrailingEmpty(fs[..|fs| - 1])
    else fs
  }

  /** line.split("\t"): the line itself when it has no tab (even an empty
      line); otherwise its fields without the trailing empty ones. */
  function Split(line: string): seq<string> {
    if '\t' !in line then [line] else DropTrailingEmpty(Fields(line))
  }

  /** Every string of the list is empty. */
  predicate AllEmpty(fs: seq<string>) {
    forall i :: 0 <= i < |fs| ==> fs[i] == ""
  }

  lemma AllEmptyCons(x: string, fs: seq<string>)
    ensures AllEmpty([x] + fs) <==> x == "" && AllEmpty(fs)
  {
    var xs := [x] + fs;
    assert forall i :: 0 <= i < |fs| ==> xs[i + 1] == fs[i];
    assert xs[0] == x;
  }

  lemma OnlyTabsCons(line: string)
    requires |line| > 0
    ensures OnlyTabs(line) <==> line[0] == '\t' && OnlyTabs(line[1..])
  {
    assert forall i :: 0 < i < |line| ==> line[i] == line[1..][i - 1];
  }

  /** Dropping trailing empty strings leaves nothing exactly when every string
      is empty, and keeps the first string otherwise. */
  lemma {:induction false} DropTrailingEmptyFacts(fs: seq<string>)
    ensures DropTrailingEmpty(fs) == [] <==> AllEmpty(fs)
    ensures DropTrailingEmpty(fs) != [] ==> |fs| > 0 && DropTrailingEmpty(fs)[0] == fs[0]
    decreases |fs|
  {
    if |fs| > 0 && fs[|fs| - 1] == "" {
      var init := fs[..|fs| - 1];
      DropTrailingEmptyFacts(init);
      assert forall i :: 0 <= i < |init| ==> init[i] == fs[i];
    }
  }

  /** The fields of a line are all empty exactly when the line is only tabs,
      and the first field is the text before the first tab. */
  lemma {:induction false} FieldsFacts(line: string)
    ensures AllEmpty(Fields(line)) <==> OnlyTabs(line)
    ensures Fields(line)[0] == Key(line)
    decreases |line|
  {
    var p := IndexOf(line, '\t');
    if p != -1 {
      var rest := line[p + 1..];
      FieldsFacts(rest);
      AllEmptyCons(line[..p], Fields(rest));
      OnlyTabsCons(line);
      if p != 0 {
        assert |line[..p]| > 0 && line[0] == line[..p][0];
      }
    } else if |line| > 0 {
      assert Fields(line) == [line] && line[0] in line && !OnlyTabs(line);
      assert Fields(line)[0] != "";
    }
  }

  /** line.split("\t")[0]. Java drops trailing empty strings from the result of
      split, so a non-empty line made only of tabs yields an empty array and
      indexing it throws: None stands for that exception. */
  function FirstField(line: string): (r: Option<string>)
    ensures r.None? <==> Split(line) == []
    ensures r.Some? ==> r.value == Split(line)[0]
  {
    FieldsFacts(line);
    DropTrailingEmptyFacts(Fields(line));
    if |line| > 0 && OnlyTabs(line) then None else Some(Key(line))
  }

  /** Java's int division, which truncates toward zero: the remainder
      a - q * b is smaller than b in magnitude and is zero or has a's sign. */
  function JavaDiv(a: int, b: int): (q: int)
    requires b != 0
    ensures var rem := a - q * b;
      (if rem < 0 then -rem else rem) < (if b < 0 then -b else b)
    ensures var rem := a - q * b;
      rem == 0 || (rem > 0 <==> a > 0)
  {
    var x, y := if a < 0 then -a else a, if b < 0 then -b else b;
    var q0 := x / y;
    var q := if (a < 0) == (b < 0) then q0 else -q0;
    DivisionRemainder(x, y);
    SignedProduct(q0, y, a < 0, b < 0);
    q
  }

  /** Euclidean division on naturals leaves a remainder below the divisor. */
  lemma DivisionRemainder(x: int, y: int)
    requires x >= 0 && y > 0
    ensures 0 <= x - (x / y) * y < y
  {
  }

  /** The product of the truncated quotient and the divisor, by the signs of
      the dividend and the divisor. */
  lemma SignedProduct(q0: int, y: int, aNeg: bool, bNeg: bool)
    ensures (if aNeg == bNeg then q0 else -q0) * (if bNeg then -y else y) ==
            (if aNeg then -(q0 * y) else q0 * y)
  {
  }

  /** The end of WordIndex.rank relies on this difference: Java gives 0 for
      (0 + -1) / 2 where Euclidean division gives -1. */
  lemma TruncatingDivisionOfMinusOne()
    ensures JavaDiv(0 + -1, 2) == 0 && (0 + -1) / 2 == -1
  {
  }
}
