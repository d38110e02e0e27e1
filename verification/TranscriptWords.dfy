/** Words with time offsets: repairing reversed offsets, ordering, and grouping into segments. */
module TranscriptWords {
  import opened Wrappers

  datatype Word = Word(text: string, start: int, end: int)

  // ---- repairing reversed offsets ----

  predicate Reversed(w: Word) { w.end < w.start }

  function CorrectedBounds(w: Word, previousEnd: int, nextStart: int): (int, int) {
    var startIsUsable := previousEnd <= w.start <= nextStart;
    var endIsUsable := previousEnd <= w.end <= nextStart;
    if startIsUsable && !endIsUsable then (w.start, nextStart)
    else if endIsUsable && !startIsUsable then (previousEnd, w.end)
    else (previousEnd, nextStart)
  }

  datatype Reason = MissingNeighbor | AdjacentReversal | OverlappingNeighbors
  datatype Unrepairable = Unrepairable(index: nat, reason: Reason)

  /** Why the word cannot be repaired, if it cannot. */
  function Problem(words: seq<Word>, i: nat): Option<Reason>
    requires i < |words|
  {
    if !Reversed(words[i]) then None
    else if i == 0 || i == |words| - 1 then Some(MissingNeighbor)
    else if Reversed(words[i - 1]) || Reversed(words[i + 1]) then Some(AdjacentReversal)
    else if words[i - 1].end > words[i + 1].start then Some(OverlappingNeighbors)
    else None
  }

  function RepairedWord(words: seq<Word>, i: nat): Word
    requires i < |words| && Problem(words, i).None?
  {
    if !Reversed(words[i]) then words[i]
    else
      var (start, end) := CorrectedBounds(words[i], words[i - 1].end, words[i + 1].start);
      Word(words[i].text, start, end)
  }

  /** Repairs every reversed word between its neighbours, or reports the first word that cannot be. */
  method RepairReversedWordOffsets(words: seq<Word>) returns (r: Result<seq<Word>, Unrepairable>)
    ensures r.Success? <==> forall i :: 0 <= i < |words| ==> Problem(words, i).None?
    ensures r.Success? ==> |r.value| == |words| && forall i :: 0 <= i < |words| ==> r.value[i] == RepairedWord(words, i)
    ensures r.Failure? ==>
      && r.error.index < |words| && Problem(words, r.error.index) == Some(r.error.reason)
      && forall i :: 0 <= i < r.error.index ==> Problem(words, i).None?
  {
    var repaired: seq<Word> := [];
    for i := 0 to |words|
      invariant |repaired| == i
      invariant forall j :: 0 <= j < i ==> Problem(words, j).None? && repaired[j] == RepairedWord(words, j)
    {
      var word := words[i];
      if Reversed(word) {
        ghost var problem := Problem(words, i);
        if i == 0 || i == |words| - 1 { return Failure(Unrepairable(i, MissingNeighbor)); }
        var previous, next := words[i - 1], words[i + 1];
        if Reversed(previous) || Reversed(next) { return Failure(Unrepairable(i, AdjacentReversal)); }
        if previous.end > next.start { return Failure(Unrepairable(i, OverlappingNeighbors)); }
        var bounds := CorrectedBounds(word, previous.end, next.start);
        word := Word(word.text, bounds.0, bounds.1);
      }
      repaired := repaired + [word];
    }
    return Success(repaired);
  }

  ghost predicate InOrder(words: seq<Word>) {
    && (forall i :: 0 <= i < |words| ==> !Reversed(words[i]))
    && (forall i, j :: 0 <= i < j < |words| ==> words[i].end <= words[j].start)
  }

  ghost predicate UnreversedInOrder(words: seq<Word>) {
    forall i, j :: 0 <= i < j < |words| && !Reversed(words[i]) && !Reversed(words[j]) ==> words[i].end <= words[j].start
  }

  /** A repaired word keeps its text and lies between its neighbours. It keeps its start if that alone lies between
      them, and its end if that alone does; else it takes up the whole gap. */
  lemma RepairedBetween(words: seq<Word>, i: nat)
    requires i < |words| && Reversed(words[i]) && Problem(words, i).None?
    ensures var (w, was, left, right) := (RepairedWord(words, i), words[i], words[i - 1].end, words[i + 1].start);
      var startFits, endFits := left <= was.start <= right, left <= was.end <= right;
      && w.text == was.text && left <= w.start <= w.end <= right
      && w.start == (if startFits && !endFits then was.start else left)
      && w.end == (if endFits && !startFits then was.end else right)
  {
  }

  /** A word cannot be repaired exactly when it is reversed and has only one neighbour, or a reversed one, or two that
      leave it no room; the reason is the first of these that holds. */
  lemma UnrepairableIff(words: seq<Word>, i: nat)
    requires i < |words|
    ensures var reversed, inside := words[i].end < words[i].start, 0 < i < |words| - 1;
      var calm := inside && words[i - 1].start <= words[i - 1].end && words[i + 1].start <= words[i + 1].end;
      Problem(words, i) ==
        if !reversed || (calm && words[i - 1].end <= words[i + 1].start) then None
        else Some(if !inside then MissingNeighbor else if !calm then AdjacentReversal else OverlappingNeighbors)
  {
  }

  /** Unreversed words stay as they are, reversed ones are straightened, and words that were in order
      where they were not reversed are in order throughout. */
  lemma RepairOrders(words: seq<Word>, repaired: seq<Word>)
    requires forall i :: 0 <= i < |words| ==> Problem(words, i).None?
    requires |repaired| == |words| && forall i :: 0 <= i < |words| ==> repaired[i] == RepairedWord(words, i)
    ensures forall i :: 0 <= i < |words| ==> !Reversed(repaired[i]) && repaired[i].text == words[i].text
    ensures forall i :: 0 <= i < |words| && !Reversed(words[i]) ==> repaired[i] == words[i]
    ensures InOrder(repaired) <==> UnreversedInOrder(words)
  {
    forall i | 0 <= i < |words| ensures !Reversed(repaired[i]) && repaired[i].text == words[i].text {
      if Reversed(words[i]) { RepairedBetween(words, i); }
    }
    if UnreversedInOrder(words) {
      forall i, j | 0 <= i < j < |words| ensures repaired[i].end <= repaired[j].start {
        if Reversed(words[i]) { RepairedBetween(words, i); }
        if Reversed(words[j]) { RepairedBetween(words, j); }
      }
    }
  }

  // ---- the order of words ----

  /** Texts compare character by character. */
  predicate TextLe(a: string, b: string) {
    if a == [] then true
    else if b == [] then false
    else a[0] < b[0] || (a[0] == b[0] && TextLe(a[1..], b[1..]))
  }

  predicate WordLe(a: Word, b: Word) {
    || a.start < b.start
    || (a.start == b.start && a.end < b.end)
    || (a.start == b.start && a.end == b.end && TextLe(a.text, b.text))
  }

  lemma TextTotal(a: string, b: string)
    ensures TextLe(a, b) || TextLe(b, a)
  {
  }

  lemma TextAntisymmetric(a: string, b: string)
    requires TextLe(a, b) && TextLe(b, a)
    ensures a == b
  {
    if a != [] {
      TextAntisymmetric(a[1..], b[1..]);
      assert a == [a[0]] + a[1..] && b == [b[0]] + b[1..];
    }
  }

  lemma TextTransitive(a: string, b: string, c: string)
    requires TextLe(a, b) && TextLe(b, c)
    ensures TextLe(a, c)
  {
  }

  ghost predicate Sorted(words: seq<Word>) {
    forall i, j :: 0 <= i < j < |words| ==> WordLe(words[i], words[j])
  }

  /** Sorted words are in the order of their starts, then of their ends, then of their texts. */
  lemma SortedMeans(words: seq<Word>, i: nat, j: nat)
    requires Sorted(words) && i < j < |words|
    ensures words[i].start <= words[j].start
    ensures words[i].start == words[j].start ==> words[i].end <= words[j].end
    ensures words[i].start == words[j].start && words[i].end == words[j].end ==> TextLe(words[i].text, words[j].text)
  {
  }

  /** A text comes before another if it is a beginning of it, or has the smaller character where they first differ. */
  lemma {:induction false} TextLeIff(a: string, b: string)
    ensures TextLe(a, b) <==>
      a <= b || exists k :: 0 <= k < |a| && k < |b| && a[..k] == b[..k] && a[k] < b[k]
  {
    if a != [] && b != [] {
      TextLeIff(a[1..], b[1..]);
      if a[0] == b[0] {
        assert a <= b <==> a[1..] <= b[1..];
        if k :| 0 <= k < |a| && k < |b| && a[..k] == b[..k] && a[k] < b[k] {
          assert a[1..][..k - 1] == a[..k][1..] && b[1..][..k - 1] == b[..k][1..];
          assert a[1..][k - 1] < b[1..][k - 1];
        }
        if k :| 0 <= k < |a[1..]| && k < |b[1..]| && a[1..][..k] == b[1..][..k] && a[1..][k] < b[1..][k] {
          assert a[..k + 1] == [a[0]] + a[1..][..k] && b[..k + 1] == [b[0]] + b[1..][..k];
          assert a[k + 1] < b[k + 1];
        }
      } else {
        assert a[..0] == b[..0];
      }
    }
  }

  function Insert(w: Word, words: seq<Word>): (r: seq<Word>)
    ensures multiset(r) == multiset(words) + multiset{w}
  {
    if words == [] then [w]
    else if WordLe(w, words[0]) then [w] + words
    else
      assert words == [words[0]] + words[1..];
      [words[0]] + Insert(w, words[1..])
  }

  function SortWords(words: seq<Word>): (r: seq<Word>)
    ensures multiset(r) == multiset(words)
  {
    if words == [] then []
    else
      assert words == [words[0]] + words[1..];
      Insert(words[0], SortWords(words[1..]))
  }

  lemma InsertSorts(w: Word, words: seq<Word>)
    requires Sorted(words)
    ensures Sorted(Insert(w, words))
  {
    if words != [] && !WordLe(w, words[0]) {
      TextTotal(w.text, words[0].text);
      var rest := Insert(w, words[1..]);
      InsertSorts(w, words[1..]);
      forall x | x in rest ensures WordLe(words[0], x) {
        assert x in multiset(rest);
        assert x == w || x in words[1..];
      }
    } else if words != [] {
      forall i | 0 <= i < |words| ensures WordLe(w, words[i]) {
        if i > 0 { TextTransitive3(w, words[0], words[i]); }
      }
    }
  }

  lemma TextTransitive3(a: Word, b: Word, c: Word)
    requires WordLe(a, b) && WordLe(b, c)
    ensures WordLe(a, c)
  {
    if a.start == b.start == c.start && a.end == b.end == c.end { TextTransitive(a.text, b.text, c.text); }
  }

  lemma {:induction false} SortSorts(words: seq<Word>)
    ensures Sorted(SortWords(words))
  {
    if words != [] {
      SortSorts(words[1..]);
      InsertSorts(words[0], SortWords(words[1..]));
    }
  }

  /** Two sorted lists of the same words are the same list: the sort key is the whole word. */
  lemma {:induction false} SortedIsUnique(a: seq<Word>, b: seq<Word>)
    requires Sorted(a) && Sorted(b) && multiset(a) == multiset(b)
    ensures a == b
  {
    assert |multiset(a)| == |multiset(b)|;
    if a != [] {
      assert a[0] in multiset(a);
      assert b[0] in multiset(a);
      assert WordLe(a[0], b[0]) && WordLe(b[0], a[0]) by { FirstIsLeast(a, b[0]); FirstIsLeast(b, a[0]); }
      TextAntisymmetric(a[0].text, b[0].text);
      assert a == [a[0]] + a[1..] && b == [b[0]] + b[1..];
      assert multiset(a[1..]) == multiset(a) - multiset{a[0]};
      assert multiset(b[1..]) == multiset(b) - multiset{b[0]};
      SortedIsUnique(a[1..], b[1..]);
    }
  }

  lemma FirstIsLeast(words: seq<Word>, w: Word)
    requires Sorted(words) && w in words
    ensures words != [] && WordLe(words[0], w)
  {
    var i :| 0 <= i < |words| && words[i] == w;
    TextTotal(w.text, w.text);
  }
}
