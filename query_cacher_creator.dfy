/**
 * de.glmtk.counting.QueryCacherCreator: builds the query cache, for every
 * pattern the file of the master count store restricted to the sequences that
 * occur in the query file.
 */
module QueryCacherCreator {
  import opened Wrappers
  import opened Text
  import opened Patterns

  /** A path is its list of components; resolve appends one. */
  type Path = seq<string>

  function Resolve(dir: Path, name: string): Path {
    dir + [name]
  }

  /** The collaborators that turn a query line into window sequences and
      classify patterns; their code is not part of this model. */
  datatype Projection = Projection(
    splitAtSpace: string -> seq<string>,                                  // StringUtils.splitAtChar(line, ' ')
    extractWordsAndPoses: (seq<string>, bool) -> (seq<string>, seq<string>), // words and poses of the split line
    apply: (Pattern, seq<string>, seq<string>, int) -> string,           // pattern.apply(words, poses, p)
    isAbsolute: Pattern -> bool)                                         // pattern.isAbsolute()

  /** The sequences of every window of the pattern's length over one query
      line: one per offset p with 0 <= p <= split.length - patternSize. */
  function LineWindows(proj: Projection, pattern: Pattern, tagged: bool, line: string): set<string> {
    var split := proj.splitAtSpace(line);
    var wp := proj.extractWordsAndPoses(split, tagged);
    set p | 0 <= p <= |split| - pattern.Size() :: proj.apply(pattern, wp.0, wp.1, p)
  }

  /** The distinct window sequences of all query lines. */
  function Windows(proj: Projection, pattern: Pattern, tagged: bool, lines: seq<string>): set<string> {
    if lines == [] then {}
    else Windows(proj, pattern, tagged, lines[..|lines| - 1]) + LineWindows(proj, pattern, tagged, lines[|lines| - 1])
  }

  /** A line with fewer tokens than the pattern has positions contributes no window. */
  lemma ShortLineHasNoWindows(proj: Projection, pattern: Pattern, tagged: bool, line: string)
    requires |proj.splitAtSpace(line)| < pattern.Size()
    ensures LineWindows(proj, pattern, tagged, line) == {}
  {
  }

  /** s is collected exactly when some line has a window at an offset in
      0 .. |split| - size whose projection is s. */
  lemma {:induction false} WindowsMembers(proj: Projection, pattern: Pattern, tagged: bool, lines: seq<string>, s: string)
    ensures s in Windows(proj, pattern, tagged, lines) <==>
      exists i, p :: 0 <= i < |lines| && 0 <= p <= |proj.splitAtSpace(lines[i])| - pattern.Size() &&
        s == proj.apply(pattern, proj.extractWordsAndPoses(proj.splitAtSpace(lines[i]), tagged).0,
                        proj.extractWordsAndPoses(proj.splitAtSpace(lines[i]), tagged).1, p)
  {
    if lines != [] {
      var init := lines[..|lines| - 1];
      WindowsMembers(proj, pattern, tagged, init, s);
      assert forall i :: 0 <= i < |init| ==> init[i] == lines[i];
    }
  }

  /** The first half of extractSequences: a HashSet filled by two nested loops
      over the query lines and the window offsets. */
  method CollectSequences(proj: Projection, pattern: Pattern, tagged: bool, queryLines: seq<string>)
    returns (sequences: set<string>)
    ensures sequences == Windows(proj, pattern, tagged, queryLines)
  {
    sequences := {};
    var patternSize := pattern.Size();
    var i := 0;
    while i < |queryLines|
      invariant 0 <= i <= |queryLines|
      invariant sequences == Windows(proj, pattern, tagged, queryLines[..i])
    {
      var line := queryLines[i];
      var split := proj.splitAtSpace(line);
      var wp := proj.extractWordsAndPoses(split, tagged);
      var words, poses := wp.0, wp.1;
      ghost var before := sequences;
      var p := 0;
      while p <= |split| - patternSize
        invariant 0 <= p
        invariant p <= |split| - patternSize + 1 || p == 0
        invariant sequences == before + set p' | 0 <= p' < p :: proj.apply(pattern, words, poses, p')
      {
        var sequence := proj.apply(pattern, words, poses, p);
        sequences := sequences + {sequence};
        p := p + 1;
      }
      assert (set p' | 0 <= p' < p :: proj.apply(pattern, words, poses, p')) == LineWindows(proj, pattern, tagged, line);
      assert queryLines[..i + 1][..i] == queryLines[..i];
      i := i + 1;
    }
    assert queryLines[..i] == queryLines;
  }

  /** Inserts x into a strictly ascending sequence that does not hold it. */
  function Insert(q: seq<string>, x: string): (r: seq<string>)
    requires StrictlySorted(q) && x !in q
    ensures StrictlySorted(r)
    ensures forall y :: y in r <==> y in q || y == x
    ensures |r| == |q| + 1
  {
    if q == [] then [x]
    else if Less(x, q[0]) then
      assert forall j :: 0 < j < |q| ==> Less(x, q[j]) by {
        forall j | 0 < j < |q| ensures Less(x, q[j]) { LessTransitive(x, q[0], q[j]); }
      }
      [x] + q
    else
      LessTrichotomy(x, q[0]);
      assert forall j :: 0 <= j < |q| - 1 ==> q[1..][j] == q[j + 1];
      var rest := Insert(q[1..], x);
      assert forall y :: y in rest ==> Less(q[0], y);
      [q[0]] + rest
  }

  /** new LinkedList(new TreeSet(sequences)): the set in ascending compareTo order. */
  method SortedQueue(sequences: set<string>) returns (queue: seq<string>)
    ensures StrictlySorted(queue)
    ensures forall s :: s in queue <==> s in sequences
    ensures |queue| == |sequences|
  {
    queue := [];
    var rest := sequences;
    while rest != {}
      invariant rest <= sequences
      invariant StrictlySorted(queue)
      invariant forall s :: s in queue <==> s in sequences && s !in rest
      invariant |queue| + |rest| == |sequences|
      decreases rest
    {
      var x :| x in rest;
      queue := Insert(queue, x);
      rest := rest - {x};
    }
  }

  /** The queue extractSequences leaves in neededSequences: the distinct window
      sequences, strictly ascending. */
  method NeededSequences(proj: Projection, pattern: Pattern, tagged: bool, queryLines: seq<string>)
    returns (needed: seq<string>)
    ensures StrictlySorted(needed)
    ensures forall s :: s in needed <==> s in Windows(proj, pattern, tagged, queryLines)
    ensures needed == SortedOf(Windows(proj, pattern, tagged, queryLines))
  {
    var sequences := CollectSequences(proj, pattern, tagged, queryLines);
    needed := SortedQueue(sequences);
    SortedUnique(needed, SortedOf(sequences));
  }

  /** The strictly ascending listing of a set of strings: the one order a
      TreeSet iterates in. */
  ghost function SortedOf(s: set<string>): (r: seq<string>)
    ensures StrictlySorted(r)
    ensures forall y :: y in r <==> y in s
    decreases s
  {
    if s == {} then []
    else
      var x :| x in s;
      Insert(SortedOf(s - {x}), x)
  }

  /** Two strictly ascending sequences with the same elements are equal. */
  lemma {:induction false} SortedUnique(a: seq<string>, b: seq<string>)
    requires StrictlySorted(a) && StrictlySorted(b)
    requires forall y :: y in a <==> y in b
    ensures a == b
    decreases |a|
  {
    assert |b| > 0 ==> b[0] in b;
    if a != [] {
      assert a[0] in b;
      assert b != [];
      assert b[0] in a;
      var i :| 0 <= i < |a| && a[i] == b[0];
      var j :| 0 <= j < |b| && b[j] == a[0];
      if i > 0 && j > 0 {
        LessTrichotomy(a[0], b[0]);
      }
      if i > 0 && j == 0 {
        LessTrichotomy(a[0], a[i]);
      }
      if i == 0 && j > 0 {
        LessTrichotomy(b[0], b[j]);
      }
      assert a[0] == b[0];
      forall y ensures y in a[1..] <==> y in b[1..] {
        if y in a[1..] {
          var k :| 1 <= k < |a| && a[k] == y;
          LessTrichotomy(a[0], a[k]);
          assert y in b;
        }
        if y in b[1..] {
          var k :| 1 <= k < |b| && b[k] == y;
          LessTrichotomy(b[0], b[k]);
          assert y in a;
        }
      }
      SortedUnique(a[1..], b[1..]);
      assert a == [a[0]] + a[1..] && b == [b[0]] + b[1..];
    }
  }

  /** The keys of count-file lines. */
  function KeysOf(lines: seq<string>): seq<string> {
    seq(|lines|, i requires 0 <= i < |lines| => Key(lines[i]))
  }

  /** The master lines whose key is needed, in master order: what the filter
      should write. */
  function Matching(master: seq<string>, needed: seq<string>): seq<string> {
    if master == [] then []
    else Matching(master[..|master| - 1], needed) +
         (if Key(master[|master| - 1]) in needed then [master[|master| - 1]] else [])
  }

  /** The content the writer produces for these lines: each line followed by '\n'. */
  function Render(lines: seq<string>): string {
    if lines == [] then [] else Render(lines[..|lines| - 1]) + lines[|lines| - 1] + "\n"
  }

  ghost predicate IsSubseq(a: seq<string>, b: seq<string>)
    decreases |b|
  {
    if a == [] then true
    else if b == [] then false
    else (a[|a| - 1] == b[|b| - 1] && IsSubseq(a[..|a| - 1], b[..|b| - 1])) || IsSubseq(a, b[..|b| - 1])
  }

  ghost predicate Distinct(s: seq<string>) {
    forall i, j :: 0 <= i < j < |s| ==> s[i] != s[j]
  }

  lemma SortedIsDistinct(s: seq<string>)
    requires StrictlySorted(s)
    ensures Distinct(s)
  {
    forall i, j | 0 <= i < j < |s| ensures s[i] != s[j] {
      LessTrichotomy(s[i], s[j]);
    }
  }

  lemma MatchingStep(master: seq<string>, i: nat, needed: seq<string>)
    requires i < |master|
    ensures Matching(master[..i + 1], needed) ==
      Matching(master[..i], needed) + (if Key(master[i]) in needed then [master[i]] else [])
  {
    assert master[..i + 1][..i] == master[..i];
  }

  lemma RenderStep(lines: seq<string>, line: string)
    ensures Render(lines + [line]) == Render(lines) + line + "\n"
  {
    assert (lines + [line])[..|lines|] == lines;
  }

  /** One more copy of `line` written after `emit`. */
  lemma EmitStep(emit: seq<string>, line: string, written0: string, written: string)
    requires written == written0 + Render(emit)
    ensures written + line + "\n" == written0 + Render(emit + [line])
  {
    RenderStep(emit, line);
  }

  lemma SubseqExtend(a: seq<string>, b: seq<string>, x: string)
    requires IsSubseq(a, b)
    ensures IsSubseq(a, b + [x]) && IsSubseq(a + [x], b + [x])
  {
    assert (b + [x])[..|b|] == b;
    assert (a + [x])[..|a|] == a;
  }

  /** The filter's progress through its queue: the index of the queue head in
      the needed sequence (|needed| once poll returned null) and the lines
      written so far. */
  datatype JoinState = JoinState(head: nat, emitted: seq<string>)

  /** The inner while loop for one master line, as a function: from head h,
      every entry not above the line's key is polled, and an entry equal to the
      key writes the line once. */
  function Poll(line: string, needed: seq<string>, h: nat): (r: JoinState)
    requires h <= |needed|
    ensures h <= r.head <= |needed|
    decreases |needed| - h
  {
    if h < |needed| && CompareTo(Key(line), needed[h]) >= 0 then
      var rest := Poll(line, needed, h + 1);
      if CompareTo(Key(line), needed[h]) == 0 then JoinState(rest.head, [line] + rest.emitted) else rest
    else JoinState(h, [])
  }

  /** The outer loop over the master lines, as a function of the lines read. */
  function Join(master: seq<string>, needed: seq<string>): (r: JoinState)
    ensures r.head <= |needed|
  {
    if master == [] then JoinState(0, [])
    else
      var prev := Join(master[..|master| - 1], needed);
      var step := Poll(master[|master| - 1], needed, prev.head);
      JoinState(step.head, prev.emitted + step.emitted)
  }

  /** The inner loop of filterAndWriteSequenceCounts for one master line:
      while the queue head is not above the line's key, write the line on an
      exact match and poll the next head. */
  method PollUpTo(line: string, sequence: string, needed: seq<string>, h0: nat, written0: string)
    returns (h: nat, emit: seq<string>, written: string)
    requires sequence == Key(line) && h0 <= |needed|
    ensures JoinState(h, emit) == Poll(line, needed, h0)
    ensures written == written0 + Render(emit)
  {
    h, emit, written := h0, [], written0;
    while h < |needed| && CompareTo(sequence, needed[h]) >= 0
      invariant h0 <= h <= |needed|
      invariant Poll(line, needed, h0) ==
        JoinState(Poll(line, needed, h).head, emit + Poll(line, needed, h).emitted)
      invariant written == written0 + Render(emit)
      decreases |needed| - h
    {
      if CompareTo(sequence, needed[h]) == 0 {
        ghost var rest := Poll(line, needed, h + 1).emitted;
        assert emit + ([line] + rest) == emit + [line] + rest;
        EmitStep(emit, line, written0, written);
        emit := emit + [line];
        written := written + line + "\n";
      }
      h := h + 1;
    }
    assert emit + [] == emit;
  }

  /** The master-file read loop of filterAndWriteSequenceCounts, started with
      the queue head at needed[0]. */
  method MergeLines(master: seq<string>, needed: seq<string>)
    returns (h: nat, emitted: seq<string>, written: string)
    ensures JoinState(h, emitted) == Join(master, needed)
    ensures written == Render(emitted)
  {
    h, emitted, written := 0, [], [];  // the queue head is needed[h]; h == |needed| once poll returned null
    var i := 0;
    while i < |master|
      invariant 0 <= i <= |master|
      invariant Join(master[..i], needed) == JoinState(h, emitted)
      invariant written == Render(emitted)
    {
      var line := master[i];
      var p := IndexOf(line, '\t');
      var sequence := if p == -1 then line else line[..p];
      assert sequence == Key(line);
      var emit;
      h, emit, written := PollUpTo(line, sequence, needed, h, written);
      assert master[..i + 1][..i] == master[..i];
      RenderConcat(emitted, emit);
      emitted := emitted + emit;
      i := i + 1;
    }
    assert master[..i] == master;
  }

  /** filterAndWriteSequenceCounts for one pattern: a merge-join of the master
      count lines with the needed-sequence queue. The first poll returning null
      ends it before any line is read (the target stays empty); otherwise every
      master line is read and, while the queue head is not above the line's key,
      the line is written on an exact match and the head polled. What the
      written lines are is stated about Join by JoinProperties. */
  method FilterSequenceCounts(master: seq<string>, needed: seq<string>)
    returns (emitted: seq<string>, written: string, remaining: seq<string>)
    ensures emitted == Join(master, needed).emitted
    ensures written == Render(emitted)
    ensures needed == [] ==> emitted == []
    ensures |remaining| <= |needed| && remaining == needed[|needed| - |remaining|..]
  {
    if |needed| == 0 {
      JoinNothing(master, needed);
      emitted, written, remaining := [], [], [];
    } else {
      var h;
      h, emitted, written := MergeLines(master, needed);
      remaining := if h < |needed| then needed[h + 1..] else [];
    }
  }

  /** What the merge-join writes, for any master file and queue. */
  lemma JoinProperties(master: seq<string>, needed: seq<string>)
    ensures needed == [] ==> Join(master, needed).emitted == []
    ensures forall x :: x in Join(master, needed).emitted ==> x in master && Key(x) in needed
    ensures multiset(KeysOf(Join(master, needed).emitted)) <= multiset(needed)
    ensures Distinct(needed) ==> IsSubseq(Join(master, needed).emitted, Matching(master, needed))
    ensures StrictlySorted(KeysOf(master)) && StrictlySorted(needed) ==>
      Join(master, needed).emitted == Matching(master, needed)
  {
    if needed == [] {
      JoinNothing(master, needed);
    }
    JoinSound(master, needed);
    JoinKeys(master, needed);
    var head := Join(master, needed).head;
    assert needed == needed[..head] + needed[head..];
    assert multiset(needed) == multiset(needed[..head]) + multiset(needed[head..]);
    if Distinct(needed) {
      JoinSubseq(master, needed);
    }
    if StrictlySorted(KeysOf(master)) && StrictlySorted(needed) {
      JoinSorted(master, needed);
    }
  }

  lemma {:induction false} RenderConcat(a: seq<string>, b: seq<string>)
    ensures Render(a + b) == Render(a) + Render(b)
    decreases |b|
  {
    if b == [] {
      assert a + b == a;
    } else {
      var b', last := b[..|b| - 1], b[|b| - 1];
      RenderConcat(a, b');
      assert (a + b)[..|a + b| - 1] == a + b' && (a + b)[|a + b| - 1] == last;
      assert Render(a) + Render(b') + last + "\n" == Render(a) + (Render(b') + last + "\n");
    }
  }


  /** An empty queue polls nothing and writes nothing. */
  lemma {:induction false} JoinNothing(master: seq<string>, needed: seq<string>)
    requires needed == []
    ensures Join(master, needed) == JoinState(0, [])
    decreases |master|
  {
    if master != [] {
      JoinNothing(master[..|master| - 1], needed);
    }
  }

  /** Poll writes only the given line, passes only entries not above its key
      and stops at an entry above it. */
  lemma {:induction false} PollShape(line: string, needed: seq<string>, h0: nat)
    requires h0 <= |needed|
    ensures var r := Poll(line, needed, h0);
      (forall k :: 0 <= k < |r.emitted| ==> r.emitted[k] == line) &&
      (forall k :: h0 <= k < r.head ==> !Less(Key(line), needed[k])) &&
      (r.head < |needed| ==> Less(Key(line), needed[r.head]))
    decreases |needed| - h0
  {
    if h0 < |needed| && CompareTo(Key(line), needed[h0]) >= 0 {
      PollShape(line, needed, h0 + 1);
    }
  }

  /** Poll writes the line exactly when its key is among the entries passed. */
  lemma {:induction false} PollFound(line: string, needed: seq<string>, h0: nat)
    requires h0 <= |needed|
    ensures var r := Poll(line, needed, h0);
      |r.emitted| > 0 <==> Key(line) in needed[h0..r.head]
    decreases |needed| - h0
  {
    if h0 < |needed| && CompareTo(Key(line), needed[h0]) >= 0 {
      PollFound(line, needed, h0 + 1);
      var rest := Poll(line, needed, h0 + 1);
      assert needed[h0..rest.head] == [needed[h0]] + needed[h0 + 1..rest.head];
      CompareToZero(Key(line), needed[h0]);
    }
  }

  lemma SliceFirst(s: seq<string>, a: nat, b: nat)
    requires a < b <= |s|
    ensures multiset(s[a..b]) == multiset{s[a]} + multiset(s[a + 1..b])
  {
    assert s[a..b] == [s[a]] + s[a + 1..b];
  }

  /** Poll writes each key at most as often as it occurs among the entries passed. */
  lemma {:induction false} PollKeys(line: string, needed: seq<string>, h0: nat)
    requires h0 <= |needed|
    ensures multiset(KeysOf(Poll(line, needed, h0).emitted)) <= multiset(needed[h0..Poll(line, needed, h0).head])
    decreases |needed| - h0
  {
    if h0 < |needed| && CompareTo(Key(line), needed[h0]) >= 0 {
      PollKeys(line, needed, h0 + 1);
      var rest := Poll(line, needed, h0 + 1);
      SliceFirst(needed, h0, rest.head);
      CompareToZero(Key(line), needed[h0]);
      if Key(line) == needed[h0] {
        assert Poll(line, needed, h0) == JoinState(rest.head, [line] + rest.emitted);
        KeysCons(line, rest.emitted);
      } else {
        assert Poll(line, needed, h0) == rest;
      }
    }
  }

  lemma KeysCons(line: string, lines: seq<string>)
    ensures multiset(KeysOf([line] + lines)) == multiset{Key(line)} + multiset(KeysOf(lines))
  {
    assert KeysOf([line] + lines) == [Key(line)] + KeysOf(lines);
  }


  /** With distinct entries Poll writes the line at most once. */
  lemma {:induction false} PollOnce(line: string, needed: seq<string>, h0: nat)
    requires h0 <= |needed| && Distinct(needed)
    ensures |Poll(line, needed, h0).emitted| <= 1
    decreases |needed| - h0
  {
    if h0 < |needed| && CompareTo(Key(line), needed[h0]) >= 0 {
      PollOnce(line, needed, h0 + 1);
      CompareToZero(Key(line), needed[h0]);
      if Key(line) == needed[h0] {
        PollFound(line, needed, h0 + 1);
        var rest := Poll(line, needed, h0 + 1);
        assert Key(line) !in needed[h0 + 1..rest.head];
      }
    }
  }

  /** Every written line is a master line whose key is needed. */
  lemma {:induction false} JoinSound(master: seq<string>, needed: seq<string>)
    ensures forall x :: x in Join(master, needed).emitted ==> x in master && Key(x) in needed
    decreases |master|
  {
    if master != [] {
      var init, line := master[..|master| - 1], master[|master| - 1];
      JoinSound(init, needed);
      var prev := Join(init, needed);
      PollShape(line, needed, prev.head);
      PollFound(line, needed, prev.head);
      var step := Poll(line, needed, prev.head);
      forall x | x in prev.emitted + step.emitted ensures x in master && Key(x) in needed {
        if x in prev.emitted {
          assert x in init;
          assert forall j :: 0 <= j < |init| ==> init[j] == master[j];
        } else {
          assert x == line;
          assert Key(line) in needed[prev.head..step.head];
        }
      }
    }
  }

  /** The written keys are, as a multiset, among the entries polled so far. */
  lemma {:induction false} JoinKeys(master: seq<string>, needed: seq<string>)
    ensures var r := Join(master, needed);
      multiset(KeysOf(r.emitted)) <= multiset(needed[..r.head])
    decreases |master|
  {
    if master != [] {
      var init, line := master[..|master| - 1], master[|master| - 1];
      JoinKeys(init, needed);
      var prev := Join(init, needed);
      PollKeys(line, needed, prev.head);
      var step := Poll(line, needed, prev.head);
      ConcatStep(prev.emitted, step.emitted, needed, prev.head, step.head);
    }
  }

  /** With distinct needed keys the written lines are a subsequence of the
      matching master lines. */
  lemma {:induction false} JoinSubseq(master: seq<string>, needed: seq<string>)
    requires Distinct(needed)
    ensures IsSubseq(Join(master, needed).emitted, Matching(master, needed))
    decreases |master|
  {
    if master != [] {
      var n := |master| - 1;
      var init, line := master[..n], master[n];
      JoinSubseq(init, needed);
      var prev := Join(init, needed);
      PollShape(line, needed, prev.head);
      PollFound(line, needed, prev.head);
      PollOnce(line, needed, prev.head);
      var step := Poll(line, needed, prev.head);
      DistinctStep(prev.emitted, step.emitted, master, n, needed);
      assert master[..n + 1] == master;
    }
  }

  /** With strictly ascending master keys and queue, exactly the matching
      master lines are written, and every polled entry is not above the last
      key read. */
  lemma {:induction false} JoinSorted(master: seq<string>, needed: seq<string>)
    requires StrictlySorted(KeysOf(master)) && StrictlySorted(needed)
    ensures Join(master, needed).emitted == Matching(master, needed)
    ensures master == [] ==> Join(master, needed).head == 0
    ensures master != [] ==> forall r :: 0 <= r < Join(master, needed).head ==>
      !Less(Key(master[|master| - 1]), needed[r])
    decreases |master|
  {
    if master != [] {
      var n := |master| - 1;
      var init, line := master[..n], master[n];
      assert KeysOf(init) == KeysOf(master)[..n];
      JoinSorted(init, needed);
      var prev := Join(init, needed);
      var prevKey := if n > 0 then Key(master[n - 1]) else [];
      if n > 0 {
        assert KeysOf(master)[n - 1] == prevKey && KeysOf(master)[n] == Key(line);
      }
      PollShape(line, needed, prev.head);
      PollFound(line, needed, prev.head);
      SortedIsDistinct(needed);
      PollOnce(line, needed, prev.head);
      var step := Poll(line, needed, prev.head);
      ExactlyOnMatch(prevKey, needed, prev.head, step.head, Key(line));
      SortedStep(prev.emitted, step.emitted, master, n, needed);
      assert master[..n + 1] == master;
    }
  }

  lemma ConcatStep(emitted: seq<string>, emit: seq<string>, needed: seq<string>, h0: nat, h: nat)
    requires h0 <= h <= |needed|
    requires multiset(KeysOf(emitted)) <= multiset(needed[..h0])
    requires multiset(KeysOf(emit)) <= multiset(needed[h0..h])
    ensures multiset(KeysOf(emitted + emit)) <= multiset(needed[..h])
  {
    assert KeysOf(emitted + emit) == KeysOf(emitted) + KeysOf(emit);
    assert multiset(KeysOf(emitted + emit)) == multiset(KeysOf(emitted)) + multiset(KeysOf(emit));
    assert needed[..h] == needed[..h0] + needed[h0..h];
    assert multiset(needed[..h]) == multiset(needed[..h0]) + multiset(needed[h0..h]);
  }

  /** With distinct needed keys a step emits at most the current line, keeping
      the emitted lines a subsequence of the matching ones. */
  lemma DistinctStep(emitted: seq<string>, emit: seq<string>, master: seq<string>, i: nat, needed: seq<string>)
    requires i < |master|
    requires IsSubseq(emitted, Matching(master[..i], needed))
    requires |emit| <= 1 && forall k :: 0 <= k < |emit| ==> emit[k] == master[i]
    requires |emit| > 0 ==> Key(master[i]) in needed
    ensures IsSubseq(emitted + emit, Matching(master[..i + 1], needed))
  {
    MatchingStep(master, i, needed);
    SubseqExtend(emitted, Matching(master[..i], needed), master[i]);
    if |emit| == 1 {
      assert emit == [master[i]];
    } else {
      assert emitted + emit == emitted;
      if Key(master[i]) !in needed {
        assert Matching(master[..i], needed) + [] == Matching(master[..i], needed);
      }
    }
  }

  /** With sorted keys a step emits the current line exactly when it matches. */
  lemma SortedStep(emitted: seq<string>, emit: seq<string>, master: seq<string>, i: nat, needed: seq<string>)
    requires i < |master|
    requires emitted == Matching(master[..i], needed)
    requires |emit| <= 1 && forall k :: 0 <= k < |emit| ==> emit[k] == master[i]
    requires |emit| > 0 <==> Key(master[i]) in needed
    ensures emitted + emit == Matching(master[..i + 1], needed)
  {
    MatchingStep(master, i, needed);
    if |emit| == 1 {
      assert emit == [master[i]];
    } else {
      assert emitted + emit == emitted;
    }
  }

  /** For a sorted queue, a line whose key is above the previous line's key
      (which was above every polled entry) is written exactly when its key is
      needed, and the queue head ends above the key. */
  lemma ExactlyOnMatch(prevKey: string, needed: seq<string>, h0: nat, h: nat, sequence: string)
    requires h0 <= h <= |needed| && StrictlySorted(needed)
    requires h0 > 0 ==> Less(prevKey, sequence)
    requires forall r :: 0 <= r < h0 ==> !Less(prevKey, needed[r])
    requires forall r :: h0 <= r < h ==> !Less(sequence, needed[r])
    requires h < |needed| ==> Less(sequence, needed[h])
    ensures sequence in needed <==> sequence in needed[h0..h]
    ensures forall r :: 0 <= r < h ==> !Less(sequence, needed[r])
  {
    forall r | 0 <= r < h0 ensures Less(needed[r], sequence) {
      if needed[r] != prevKey {
        LessTrichotomy(needed[r], prevKey);
        LessTransitive(needed[r], prevKey, sequence);
      }
    }
    forall r | 0 <= r < h0 ensures needed[r] != sequence && !Less(sequence, needed[r]) {
      LessTrichotomy(needed[r], sequence);
    }
    forall r | h <= r < |needed| ensures needed[r] != sequence {
      if r > h {
        LessTransitive(sequence, needed[h], needed[r]);
      }
      LessTrichotomy(sequence, needed[r]);
    }
    assert needed == needed[..h0] + needed[h0..h] + needed[h..];
  }

  /** The four directories of createQueryCache: where the master counts are
      read and where the cache is written, for absolute and continuation
      patterns. */
  datatype Dirs = Dirs(absolute: Path, continuation: Path, targetAbsolute: Path, targetContinuation: Path)

  /** The file system as the worker sees it: the lines readLine returns for
      each existing file, and the existing directories. */
  datatype Disk = Disk(files: map<Path, seq<string>>, dirs: set<Path>)

  function Parent(path: Path): Path {
    if path == [] then [] else path[..|path| - 1]
  }

  /** getPatternFiles: the master file read and the cache file written for a pattern. */
  function PatternFiles(proj: Projection, dirs: Dirs, pattern: Pattern): (Path, Path) {
    if proj.isAbsolute(pattern) then
      (Resolve(dirs.absolute, pattern.Name()), Resolve(dirs.targetAbsolute, pattern.Name()))
    else
      (Resolve(dirs.continuation, pattern.Name()), Resolve(dirs.targetContinuation, pattern.Name()))
  }

  function SourceFile(proj: Projection, dirs: Dirs, pattern: Pattern): Path {
    PatternFiles(proj, dirs, pattern).0
  }

  function TargetFile(proj: Projection, dirs: Dirs, pattern: Pattern): Path {
    PatternFiles(proj, dirs, pattern).1
  }

  /** Neither target directory is a master directory. */
  predicate SeparateDirs(dirs: Dirs) {
    {dirs.targetAbsolute, dirs.targetContinuation} !! {dirs.absolute, dirs.continuation}
  }

  /** Both files carry the pattern's name in a directory of the pattern's kind,
      distinct patterns get distinct cache files, and with separate
      directories no cache file is a master file. */
  lemma PatternFilesFacts(proj: Projection, dirs: Dirs, p: Pattern, q: Pattern)
    ensures var src, dst := SourceFile(proj, dirs, p), TargetFile(proj, dirs, p);
      |src| > 0 && |dst| > 0 && src[|src| - 1] == p.Name() && dst[|dst| - 1] == p.Name() &&
      (proj.isAbsolute(p) ==> Parent(src) == dirs.absolute && Parent(dst) == dirs.targetAbsolute) &&
      (!proj.isAbsolute(p) ==> Parent(src) == dirs.continuation && Parent(dst) == dirs.targetContinuation)
    ensures p != q ==> TargetFile(proj, dirs, p) != TargetFile(proj, dirs, q)
    ensures SeparateDirs(dirs) ==> SourceFile(proj, dirs, p) != TargetFile(proj, dirs, q)
  {
    var dp, dq := TargetFile(proj, dirs, p), TargetFile(proj, dirs, q);
    if p != q {
      assert p.Name() != q.Name();
      assert dp[|dp| - 1] == p.Name() && dq[|dq| - 1] == q.Name();
    }
    var sp := SourceFile(proj, dirs, p);
    assert Parent(sp) == sp[..|sp| - 1] && Parent(dq) == dq[..|dq| - 1];
  }

  /** What the cache file of a pattern holds: the merge-join of its master
      file with the sorted window sequences of the query lines. */
  ghost function Cached(proj: Projection, dirs: Dirs, tagged: bool, queryLines: seq<string>,
                        files: map<Path, seq<string>>, p: Pattern): seq<string>
    requires SourceFile(proj, dirs, p) in files
  {
    Join(files[SourceFile(proj, dirs, p)], SortedOf(Windows(proj, p, tagged, queryLines))).emitted
  }

  /** For a master file whose keys ascend strictly, the cache file holds
      exactly its lines whose key is a window sequence of some query line. */
  lemma CachedIsMatching(proj: Projection, dirs: Dirs, tagged: bool, queryLines: seq<string>,
                         files: map<Path, seq<string>>, p: Pattern)
    requires SourceFile(proj, dirs, p) in files
    requires StrictlySorted(KeysOf(files[SourceFile(proj, dirs, p)]))
    ensures Cached(proj, dirs, tagged, queryLines, files, p) ==
      Matching(files[SourceFile(proj, dirs, p)], SortedOf(Windows(proj, p, tagged, queryLines)))
    ensures forall x :: x in Cached(proj, dirs, tagged, queryLines, files, p) ==>
      x in files[SourceFile(proj, dirs, p)] && Key(x) in Windows(proj, p, tagged, queryLines)
  {
    JoinProperties(files[SourceFile(proj, dirs, p)], SortedOf(Windows(proj, p, tagged, queryLines)));
  }

  /** The enum singleton's state set by createQueryCache. */
  class Creator {
    var queryLines: seq<string>   // the lines of the query file
    var queryFileTagged: bool
    var dirs: Dirs
    var patternQueue: seq<Pattern>

    constructor()
      ensures patternQueue == []
    {
      queryLines, queryFileTagged := [], false;
      dirs := Dirs([], [], [], []);
      patternQueue := [];
    }

    /** createQueryCache run by one worker: an empty pattern set returns before
        any directory is created; otherwise both target directories are
        created, every pattern is queued and the worker drains the queue. With
        separate directories it fails exactly when some master file is
        missing, and otherwise every pattern's cache file holds its
        merge-join. `order` is the order the set hands out its patterns; a
        failure leaves the cache files of the patterns before the first one
        whose master file is missing. */
    method CreateQueryCache(proj: Projection, patterns: set<Pattern>, queryLines: seq<string>,
                            queryFileTagged: bool, dirs: Dirs, disk: Disk)
      returns (ok: bool, after: Disk, ghost order: seq<Pattern>)
      modifies this
      ensures forall p :: p in order <==> p in patterns
      ensures patterns == {} ==> ok && after == disk && unchanged(this)
      ensures patterns != {} ==>
        after.dirs == disk.dirs + {dirs.targetAbsolute, dirs.targetContinuation}
      ensures patterns != {} ==>
        CachedAll(proj, dirs, queryFileTagged, queryLines,
                  Disk(disk.files, disk.dirs + {dirs.targetAbsolute, dirs.targetContinuation}), order, ok, after)
      ensures patterns != {} && SeparateDirs(dirs) ==>
        (!ok <==> exists p :: p in patterns && SourceFile(proj, dirs, p) !in disk.files)
      ensures patterns != {} && SeparateDirs(dirs) && ok ==>
        forall p :: p in patterns ==>
          SourceFile(proj, dirs, p) in disk.files &&
          TargetFile(proj, dirs, p) in after.files &&
          after.files[TargetFile(proj, dirs, p)] == Cached(proj, dirs, queryFileTagged, queryLines, disk.files, p)
    {
      if patterns == {} {
        return true, disk, [];
      }
      var created := Disk(disk.files, disk.dirs + {dirs.targetAbsolute, dirs.targetContinuation});
      this.queryLines, this.queryFileTagged, this.dirs := queryLines, queryFileTagged, dirs;
      patternQueue := Enumerate(patterns);
      var worker := new Worker(this);
      order := patternQueue;
      ok, after := worker.Call(proj, created);
      CreatedOutcome(proj, dirs, queryFileTagged, queryLines, disk, patterns, order, ok, after);
    }
  }

  /** Once both target directories exist, a run fails exactly when a master
      file is missing. */
  lemma CreatedOutcome(proj: Projection, dirs: Dirs, tagged: bool, queryLines: seq<string>,
                       disk: Disk, patterns: set<Pattern>, queue: seq<Pattern>, ok: bool, after: Disk)
    requires forall p :: p in queue <==> p in patterns
    requires CachedAll(proj, dirs, tagged, queryLines,
      Disk(disk.files, disk.dirs + {dirs.targetAbsolute, dirs.targetContinuation}), queue, ok, after)
    ensures SeparateDirs(dirs) ==>
      (!ok <==> exists p :: p in patterns && SourceFile(proj, dirs, p) !in disk.files)
    ensures SeparateDirs(dirs) && ok ==>
      forall p :: p in patterns ==>
        SourceFile(proj, dirs, p) in disk.files &&
        TargetFile(proj, dirs, p) in after.files &&
        after.files[TargetFile(proj, dirs, p)] == Cached(proj, dirs, tagged, queryLines, disk.files, p)
  {
    var created := Disk(disk.files, disk.dirs + {dirs.targetAbsolute, dirs.targetContinuation});
    forall p | p in patterns
      ensures Ready(proj, dirs, created, p) <==> SourceFile(proj, dirs, p) in disk.files
    {
      PatternFilesFacts(proj, dirs, p, p);
    }
  }

  /** The patterns of a set in some order, each once (the set's iteration order). */
  method Enumerate(patterns: set<Pattern>) returns (queue: seq<Pattern>)
    ensures forall p :: p in queue <==> p in patterns
    ensures |queue| == |patterns|
  {
    queue := [];
    var rest := patterns;
    while rest != {}
      invariant rest <= patterns
      invariant forall p :: p in queue <==> p in patterns && p !in rest
      invariant |queue| + |rest| == |patterns|
      decreases rest
    {
      var p :| p in rest;
      queue := queue + [p];
      rest := rest - {p};
    }
  }

  /** The per-thread state of the query cache builder; fields are reassigned
      for each pattern taken from the owner's queue. */
  class Worker {
    const owner: Creator
    var pattern: Pattern
    var patternFile: Path
    var targetPatternFile: Path
    var neededSequences: seq<string>

    constructor(owner: Creator)
      ensures this.owner == owner && neededSequences == []
    {
      this.owner := owner;
      pattern := Pattern([]);
      patternFile, targetPatternFile := [], [];
      neededSequences := [];
    }

    /** extractSequences: the queue becomes the ascending distinct window
        sequences of the query lines for the current pattern. */
    method ExtractSequences(proj: Projection)
      modifies this
      ensures neededSequences == SortedOf(Windows(proj, pattern, owner.queryFileTagged, owner.queryLines))
      ensures pattern == old(pattern) && patternFile == old(patternFile) && targetPatternFile == old(targetPatternFile)
    {
      neededSequences := NeededSequences(proj, pattern, owner.queryFileTagged, owner.queryLines);
    }

    /** getPatternFiles: absolute patterns use the absolute directory pair,
        all others the continuation pair, with the pattern's name as file name. */
    method GetPatternFiles(proj: Projection)
      modifies this
      ensures (patternFile, targetPatternFile) == PatternFiles(proj, owner.dirs, pattern)
      ensures pattern == old(pattern) && neededSequences == old(neededSequences)
    {
      if proj.isAbsolute(pattern) {
        patternFile := Resolve(owner.dirs.absolute, pattern.Name());
        targetPatternFile := Resolve(owner.dirs.targetAbsolute, pattern.Name());
      } else {
        patternFile := Resolve(owner.dirs.continuation, pattern.Name());
        targetPatternFile := Resolve(owner.dirs.targetContinuation, pattern.Name());
      }
    }

    /** filterAndWriteSequenceCounts: opening the master file fails when it
        does not exist, opening the writer when its directory does not, and
        either failure leaves the disk as it was; otherwise only the cache file
        changes, it receives the merge-join of a master file other than
        itself, and the queue is left with the entries not polled. */
    method FilterAndWriteSequenceCounts(disk: Disk) returns (ok: bool, after: Disk)
      modifies this
      ensures pattern == old(pattern) && patternFile == old(patternFile) && targetPatternFile == old(targetPatternFile)
      ensures ok <==> patternFile in disk.files && Parent(targetPatternFile) in disk.dirs
      ensures !ok ==> after == disk
      ensures ok ==> (after.dirs == disk.dirs && targetPatternFile in after.files &&
                      after.files == disk.files[targetPatternFile := after.files[targetPatternFile]])
      ensures ok && patternFile != targetPatternFile ==>
        after.files[targetPatternFile] == Join(disk.files[patternFile], old(neededSequences)).emitted
      ensures |neededSequences| <= |old(neededSequences)| &&
        neededSequences == old(neededSequences)[|old(neededSequences)| - |neededSequences|..]
    {
      if patternFile !in disk.files || Parent(targetPatternFile) !in disk.dirs {
        return false, disk;
      }
      var emitted, written, remaining := FilterSequenceCounts(disk.files[patternFile], neededSequences);
      neededSequences := remaining;
      ok, after := true, Disk(disk.files[targetPatternFile := emitted], disk.dirs);
    }

    /** The three steps call() runs for the pattern just polled: a failure
        leaves the disk as it was, and otherwise only the pattern's cache
        file changes, receiving the merge-join when it is not the master file. */
    method CachePattern(proj: Projection, disk: Disk) returns (ok: bool, after: Disk)
      modifies this
      ensures pattern == old(pattern)
      ensures ok <==> Ready(proj, owner.dirs, disk, pattern)
      ensures !ok ==> after == disk
      ensures ok ==> (after.dirs == disk.dirs && TargetFile(proj, owner.dirs, pattern) in after.files &&
                      after.files == disk.files[TargetFile(proj, owner.dirs, pattern) :=
                                                after.files[TargetFile(proj, owner.dirs, pattern)]])
      ensures ok && SourceFile(proj, owner.dirs, pattern) != TargetFile(proj, owner.dirs, pattern) ==>
        after.files[TargetFile(proj, owner.dirs, pattern)] ==
        Join(disk.files[SourceFile(proj, owner.dirs, pattern)],
             SortedOf(Windows(proj, pattern, owner.queryFileTagged, owner.queryLines))).emitted
    {
      ExtractSequences(proj);
      GetPatternFiles(proj);
      ok, after := FilterAndWriteSequenceCounts(disk);
    }

    /** call(): takes patterns from the owner's queue until it is empty and
        caches each; an exception for one pattern ends the run, leaving the
        cache files of the patterns before it written. */
    method Call(proj: Projection, disk: Disk) returns (ok: bool, after: Disk)
      modifies this, owner
      ensures owner.dirs == old(owner.dirs) && owner.queryLines == old(owner.queryLines)
      ensures owner.queryFileTagged == old(owner.queryFileTagged)
      ensures after.dirs == disk.dirs
      ensures ok ==> owner.patternQueue == []
      ensures CachedAll(proj, owner.dirs, owner.queryFileTagged, owner.queryLines, disk, old(owner.patternQueue), ok, after)
    {
      ghost var queue := owner.patternQueue;
      ghost var dirs, tagged, lines := owner.dirs, owner.queryFileTagged, owner.queryLines;
      var current := disk;
      var k := 0;
      while owner.patternQueue != []
        invariant 0 <= k <= |queue| && owner.patternQueue == queue[k..]
        invariant owner.dirs == dirs && owner.queryLines == lines && owner.queryFileTagged == tagged
        invariant current.dirs == disk.dirs
        invariant CachedPrefix(proj, dirs, tagged, lines, disk, queue[..k], current)
        decreases |owner.patternQueue|
      {
        pattern := owner.patternQueue[0];
        owner.patternQueue := owner.patternQueue[1..];
        var next: Disk;
        ok, next := CachePattern(proj, current);
        if !ok {
          CachedAllOnFailure(proj, dirs, tagged, lines, disk, queue, k, current);
          return false, current;
        }
        CachedPrefixStep(proj, dirs, tagged, lines, disk, queue, k, current, next);
        current := next;
        k := k + 1;
      }
      assert queue[..k] == queue;
      CachedAllOnSuccess(proj, dirs, tagged, lines, disk, queue, current);
      ok, after := true, current;
    }
  }

  lemma SnocSlice<T>(q: seq<T>, k: nat)
    requires k < |q|
    ensures q[..k + 1] == q[..k] + [q[k]]
  {
  }

  /** The master file of the pattern exists and so does its cache directory. */
  predicate Ready(proj: Projection, dirs: Dirs, disk: Disk, p: Pattern) {
    SourceFile(proj, dirs, p) in disk.files && Parent(TargetFile(proj, dirs, p)) in disk.dirs
  }

  /** Position k holds the first queued pattern that is not ready. */
  predicate FirstUnready(proj: Projection, dirs: Dirs, disk: Disk, queue: seq<Pattern>, k: int) {
    0 <= k < |queue| && !Ready(proj, dirs, disk, queue[k]) &&
    forall j :: 0 <= j < k ==> Ready(proj, dirs, disk, queue[j])
  }

  /** What running the queue from `disk` yields, with separate directories:
      failure exactly when some queued pattern's master file or cache
      directory is missing, in which case the files are those left by the
      patterns before the first such one; and otherwise each cache file
      holding its merge-join. */
  ghost predicate CachedAll(proj: Projection, dirs: Dirs, tagged: bool, queryLines: seq<string>,
                            disk: Disk, queue: seq<Pattern>, ok: bool, after: Disk)
  {
    SeparateDirs(dirs) ==>
      (!ok <==> exists p :: p in queue && !Ready(proj, dirs, disk, p)) &&
      (!ok ==> exists k :: (FirstUnready(proj, dirs, disk, queue, k) &&
                             (forall p :: p in queue[..k] ==> SourceFile(proj, dirs, p) in disk.files) &&
                             after.files == Overlay(proj, dirs, tagged, queryLines, disk.files, queue[..k]))) &&
      (ok ==> forall p :: p in queue ==>
        Ready(proj, dirs, disk, p) &&
        TargetFile(proj, dirs, p) in after.files &&
        after.files[TargetFile(proj, dirs, p)] == Cached(proj, dirs, tagged, queryLines, disk.files, p))
  }

  /** The state after the patterns `done` were cached without failure. */
  ghost predicate CachedPrefix(proj: Projection, dirs: Dirs, tagged: bool, queryLines: seq<string>,
                               disk: Disk, done: seq<Pattern>, current: Disk)
  {
    SeparateDirs(dirs) ==>
      (forall p :: p in done ==> Ready(proj, dirs, disk, p)) &&
      current.files == Overlay(proj, dirs, tagged, queryLines, disk.files, done)
  }

  lemma CachedPrefixStep(proj: Projection, dirs: Dirs, tagged: bool, queryLines: seq<string>,
                         disk: Disk, queue: seq<Pattern>, k: nat, current: Disk, next: Disk)
    requires k < |queue| && current.dirs == disk.dirs
    requires CachedPrefix(proj, dirs, tagged, queryLines, disk, queue[..k], current)
    requires Ready(proj, dirs, current, queue[k])
    requires next.dirs == current.dirs && TargetFile(proj, dirs, queue[k]) in next.files
    requires next.files == current.files[TargetFile(proj, dirs, queue[k]) := next.files[TargetFile(proj, dirs, queue[k])]]
    requires SourceFile(proj, dirs, queue[k]) != TargetFile(proj, dirs, queue[k]) ==>
      next.files[TargetFile(proj, dirs, queue[k])] ==
      Join(current.files[SourceFile(proj, dirs, queue[k])],
           SortedOf(Windows(proj, queue[k], tagged, queryLines))).emitted
    ensures next.dirs == disk.dirs
    ensures CachedPrefix(proj, dirs, tagged, queryLines, disk, queue[..k + 1], next)
  {
    if SeparateDirs(dirs) {
      OverlaySource(proj, dirs, tagged, queryLines, disk.files, queue[..k], queue[k]);
      PatternFilesFacts(proj, dirs, queue[k], queue[k]);
      SnocSlice(queue, k);
      assert queue[..k + 1][..k] == queue[..k];
    }
  }

  lemma CachedAllOnFailure(proj: Projection, dirs: Dirs, tagged: bool, queryLines: seq<string>,
                           disk: Disk, queue: seq<Pattern>, k: nat, current: Disk)
    requires k < |queue| && current.dirs == disk.dirs
    requires CachedPrefix(proj, dirs, tagged, queryLines, disk, queue[..k], current)
    requires !Ready(proj, dirs, current, queue[k])
    ensures CachedAll(proj, dirs, tagged, queryLines, disk, queue, false, current)
  {
    if SeparateDirs(dirs) {
      OverlaySource(proj, dirs, tagged, queryLines, disk.files, queue[..k], queue[k]);
      assert queue[k] in queue && !Ready(proj, dirs, disk, queue[k]);
      forall j | 0 <= j < k
        ensures Ready(proj, dirs, disk, queue[j])
      {
        assert queue[j] in queue[..k];
      }
      assert FirstUnready(proj, dirs, disk, queue, k);
    }
  }

  lemma CachedAllOnSuccess(proj: Projection, dirs: Dirs, tagged: bool, queryLines: seq<string>,
                           disk: Disk, queue: seq<Pattern>, current: Disk)
    requires current.dirs == disk.dirs
    requires CachedPrefix(proj, dirs, tagged, queryLines, disk, queue, current)
    ensures CachedAll(proj, dirs, tagged, queryLines, disk, queue, true, current)
  {
    if SeparateDirs(dirs) {
      OverlayTargets(proj, dirs, tagged, queryLines, disk.files, queue);
    }
  }

  /** The files after caching the patterns `done` from `files` in order: each
      cache file overwritten with its merge-join. */
  ghost function Overlay(proj: Projection, dirs: Dirs, tagged: bool, queryLines: seq<string>,
                         files: map<Path, seq<string>>, done: seq<Pattern>): map<Path, seq<string>>
    requires forall p :: p in done ==> SourceFile(proj, dirs, p) in files
    decreases |done|
  {
    if done == [] then files
    else
      var last := done[|done| - 1];
      Overlay(proj, dirs, tagged, queryLines, files, done[..|done| - 1])
        [TargetFile(proj, dirs, last) := Cached(proj, dirs, tagged, queryLines, files, last)]
  }

  /** With separate directories caching never touches a master file. */
  lemma {:induction false} OverlaySource(proj: Projection, dirs: Dirs, tagged: bool, queryLines: seq<string>,
                                         files: map<Path, seq<string>>, done: seq<Pattern>, q: Pattern)
    requires SeparateDirs(dirs)
    requires forall p :: p in done ==> SourceFile(proj, dirs, p) in files
    ensures var src := SourceFile(proj, dirs, q);
      var after := Overlay(proj, dirs, tagged, queryLines, files, done);
      (src in after <==> src in files) && (src in files ==> after[src] == files[src])
    decreases |done|
  {
    if done != [] {
      var init := done[..|done| - 1];
      assert forall p :: p in init ==> p in done;
      OverlaySource(proj, dirs, tagged, queryLines, files, init, q);
      PatternFilesFacts(proj, dirs, q, done[|done| - 1]);
    }
  }

  /** Every cached pattern's cache file holds its merge-join: distinct
      patterns write distinct cache files. */
  lemma {:induction false} OverlayTargets(proj: Projection, dirs: Dirs, tagged: bool, queryLines: seq<string>,
                                          files: map<Path, seq<string>>, done: seq<Pattern>)
    requires forall p :: p in done ==> SourceFile(proj, dirs, p) in files
    ensures forall p :: p in done ==>
      TargetFile(proj, dirs, p) in Overlay(proj, dirs, tagged, queryLines, files, done) &&
      Overlay(proj, dirs, tagged, queryLines, files, done)[TargetFile(proj, dirs, p)] ==
        Cached(proj, dirs, tagged, queryLines, files, p)
    decreases |done|
  {
    if done != [] {
      var init, last := done[..|done| - 1], done[|done| - 1];
      assert done == init + [last];
      OverlayTargets(proj, dirs, tagged, queryLines, files, init);
      forall p | p in init && p != last {
        PatternFilesFacts(proj, dirs, p, last);
      }
    }
  }
}
