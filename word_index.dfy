/**
 * de.typology.indexing.WordIndex: the list of bucket boundary words read from
 * the output of the word indexer, and the binary search that sends a word to
 * its bucket.
 */
module WordIndex {
  import opened Wrappers
  import opened Text

  class WordIndex {
    /** The first tab-separated field of every line of the index file, in file order. */
    var index: seq<string>

    constructor Empty()
      ensures index == []
    {
      index := [];
    }

    /** new WordIndex(input): reads the index line by line. A line that is
        non-empty and made only of tabs makes split("\t")[0] throw, and then
        no WordIndex is constructed (null). */
    static method Read(lines: seq<string>) returns (w: WordIndex?)
      ensures w == null <==> exists i :: 0 <= i < |lines| && FirstField(lines[i]).None?
      ensures w != null ==> fresh(w) && |w.index| == |lines|
      ensures w != null ==> forall i :: 0 <= i < |lines| ==> w.index[i] == Key(lines[i])
    {
      var result := new WordIndex.Empty();
      var i := 0;
      while i < |lines|
        invariant 0 <= i <= |lines|
        invariant |result.index| == i
        invariant forall j :: 0 <= j < i ==> FirstField(lines[j]).Some? && result.index[j] == Key(lines[j])
      {
        var field := FirstField(lines[i]);
        if field.None? {
          return null;
        }
        result.index := result.index + [field.value];
        i := i + 1;
      }
      w := result;
    }

    /** rank(word): binary search for word; when it is absent the result is the
        bucket just below it, (lo + hi) / 2 with Java's truncating division. */
    method Rank(word: string) returns (r: int)
      ensures |index| == 0 ==> r == 0
      ensures |index| > 0 ==> 0 <= r < |index|
      ensures Sorted(index) && word in index ==> index[r] == word
      ensures Sorted(index) && word !in index && (exists j :: 0 <= j < |index| && Less(index[j], word)) ==>
                Less(index[r], word) && forall j :: r < j < |index| ==> Less(word, index[j])
      ensures Sorted(index) && word !in index && (forall j :: 0 <= j < |index| ==> !Less(index[j], word)) ==>
                r == 0
    {
      var lo := 0;
      var hi := |index| - 1;
      while lo <= hi
        invariant 0 <= lo <= hi + 1 <= |index|
        invariant Sorted(index) ==> forall j :: 0 <= j < lo ==> Less(index[j], word)
        invariant Sorted(index) ==> forall j :: hi < j < |index| ==> Less(word, index[j])
        decreases hi - lo
      {
        var mid := lo + JavaDiv(hi - lo, 2);
        assert lo <= mid <= hi;
        if CompareTo(word, index[mid]) < 0 {
          if Sorted(index) {
            forall j | mid <= j < |index| ensures Less(word, index[j]) {
              if j > mid && index[mid] != index[j] {
                LessTrichotomy(index[mid], index[j]);
                LessTransitive(word, index[mid], index[j]);
              }
            }
          }
          hi := mid - 1;
        } else if CompareTo(word, index[mid]) > 0 {
          CompareToFlip(index[mid], word);
          if Sorted(index) {
            forall j | 0 <= j <= mid ensures Less(index[j], word) {
              if j < mid && index[j] != index[mid] {
                LessTrichotomy(index[j], index[mid]);
                LessTransitive(index[j], index[mid], word);
              }
            }
          }
          lo := mid + 1;
        } else {
          CompareToZero(word, index[mid]);
          return mid;
        }
      }
      if Sorted(index) {
        forall j | 0 <= j < |index| ensures index[j] != word && !(Less(index[j], word) && Less(word, index[j])) {
          LessTrichotomy(index[j], word);
        }
      }
      r := JavaDiv(lo + hi, 2);
      assert lo == 0 ==> r == 0;
      assert lo > 0 ==> r == lo - 1;
    }
  }
}
