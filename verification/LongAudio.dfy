/** Long audio is transcribed in overlapping parts, and the words are merged by which part owns them. */
module LongAudio {
  import opened Wrappers
  import opened TranscriptWords
  import opened Segments

  datatype AudioPart = AudioPart(index: nat, start: int, end: int)

  // ---- planning the parts ----

  /** Parts run from 0 to the duration in steps of `length`, and each but the first starts `overlap`
      before the part before it ends. */
  ghost predicate IsPlan(parts: seq<AudioPart>, duration: int, length: int, overlap: int) {
    && (parts == [] <==> duration <= 0)
    && (parts != [] ==> parts[0].start == 0 && parts[0].end == Min(length, duration))
    && (parts != [] ==> parts[|parts| - 1].end == duration)
    && forall i, j :: 0 <= i < j < |parts| && j == i + 1 ==> Adjacent(parts[i], parts[j], duration, length, overlap)
  }

  function Min(a: int, b: int): int { if a <= b then a else b }
  function Max(a: int, b: int): int { if a >= b then a else b }

  /** The start of part `i` without overlap. */
  function Nominal(i: int, length: int): int { i * length }

  lemma NominalStep(i: int, length: int)
    ensures Nominal(0, length) == 0 && Nominal(i + 1, length) == Nominal(i, length) + length
  {
  }

  ghost predicate Adjacent(a: AudioPart, b: AudioPart, duration: int, length: int, overlap: int) {
    a.end < duration && b.start == a.end - overlap && b.end == Min(a.end + length, duration)
  }

  method PlanParts(duration: int, length: int, overlap: int) returns (parts: seq<AudioPart>)
    requires 0 <= overlap < length
    ensures IsPlan(parts, duration, length, overlap)
    ensures forall i :: 0 <= i < |parts| ==> parts[i].index == i
  {
    hide Nominal;
    parts := [];
    var boundary, index := length, 0;
    NominalStep(0, length);
    while boundary - length < duration
      invariant |parts| == index && boundary == Nominal(index + 1, length)
        && boundary - length == Nominal(index, length)
      invariant if index == 0 then boundary == length else boundary >= 2 * length
      invariant forall i :: 0 <= i < index ==> parts[i].index == i
      invariant index > 0 ==> duration > 0 && parts[0].start == 0 && parts[0].end == Min(length, duration)
      invariant index > 0 ==> parts[index - 1].end == Min(boundary - length, duration)
      invariant forall i, j ::
        0 <= i < j < index && j == i + 1 ==> Adjacent(parts[i], parts[j], duration, length, overlap)
      decreases duration - boundary + length
    {
      var nominalStart := Nominal(index, length);
      var start := Max(0, nominalStart - (if index != 0 then overlap else 0));
      var end := Min(Nominal(index + 1, length), duration);
      assert index > 0 ==> Adjacent(parts[index - 1], AudioPart(index, start, end), duration, length, overlap);
      parts := parts + [AudioPart(index, start, end)];
      NominalStep(index + 1, length);
      index := index + 1;
      boundary := boundary + length;
    }
  }

  // ---- who owns which instant ----

  /** Twice the instant from which the part owns words. */
  function LowerBound2(parts: seq<AudioPart>, i: nat): int
    requires i < |parts|
  {
    if i == 0 then 0 else parts[i].start + parts[i - 1].end
  }

  function UpperBound2(parts: seq<AudioPart>, i: nat): int
    requires i < |parts|
  {
    if i == |parts| - 1 then 2 * parts[i].end else parts[i + 1].start + parts[i].end
  }

  predicate Owns(parts: seq<AudioPart>, i: nat, middle2: int)
    requires i < |parts|
  {
    LowerBound2(parts, i) <= middle2 < UpperBound2(parts, i)
  }

  lemma PartsGrow(parts: seq<AudioPart>, duration: int, length: int, overlap: int, i: nat, j: nat)
    requires 0 <= overlap < length && IsPlan(parts, duration, length, overlap) && i < j < |parts|
    ensures parts[i].end < parts[j].end && UpperBound2(parts, i) <= LowerBound2(parts, j)
  {
    if i + 1 < j { PartsGrow(parts, duration, length, overlap, i, j - 1); }
  }

  lemma SomeoneOwns(parts: seq<AudioPart>, middle2: int, n: nat) returns (i: nat)
    requires n < |parts| && 0 <= middle2 < UpperBound2(parts, n)
    ensures i <= n && Owns(parts, i, middle2)
  {
    if n == 0 || LowerBound2(parts, n) <= middle2 { i := n; } else { i := SomeoneOwns(parts, middle2, n - 1); }
  }

  /** Every instant before the end has exactly one owner, and no other instant has one. */
  lemma OwnershipPartitions(parts: seq<AudioPart>, duration: int, length: int, overlap: int, middle2: int)
    requires 0 <= overlap < length && IsPlan(parts, duration, length, overlap)
    ensures (exists i: nat :: i < |parts| && Owns(parts, i, middle2)) <==> 0 <= middle2 < 2 * duration
    ensures forall i: nat, j: nat :: i < j < |parts| ==> !(Owns(parts, i, middle2) && Owns(parts, j, middle2))
  {
    forall i: nat, j: nat | i < j < |parts| ensures UpperBound2(parts, i) <= LowerBound2(parts, j) {
      PartsGrow(parts, duration, length, overlap, i, j);
    }
    if 0 <= middle2 < 2 * duration { var i := SomeoneOwns(parts, middle2, |parts| - 1); }
    if i: nat :| i < |parts| && Owns(parts, i, middle2) { OwnedIsInside(parts, duration, length, overlap, i); }
  }

  lemma OwnedIsInside(parts: seq<AudioPart>, duration: int, length: int, overlap: int, i: nat)
    requires 0 <= overlap < length && IsPlan(parts, duration, length, overlap) && i < |parts|
    ensures 0 <= LowerBound2(parts, i) && UpperBound2(parts, i) <= 2 * duration
    ensures 0 <= parts[i].start <= parts[i].end <= duration && parts[i].end - parts[i].start <= length + overlap
  {
    if i > 0 {
      OwnedIsInside(parts, duration, length, overlap, i - 1);
      PartsGrow(parts, duration, length, overlap, i - 1, i);
      FirstEnd(parts, duration, length, overlap, i - 1);
    }
  }

  /** Only the last part ends before its full length. */
  lemma FirstEnd(parts: seq<AudioPart>, duration: int, length: int, overlap: int, i: nat)
    requires 0 <= overlap < length && IsPlan(parts, duration, length, overlap) && i + 1 < |parts|
    ensures parts[i].end >= length
  {
    var next := parts[i + 1];
    if i > 0 { FirstEnd(parts, duration, length, overlap, i - 1); }
  }

  // ---- merging ----

  datatype SttResult = SttResult(words: Option<seq<Word>>, model: string)
  datatype Transcript = Transcript(segments: seq<Segment>, model: string, words: seq<Word>)
  datatype MergeError = CountsDiffer | WordsMissing

  /** The word on the clock of the whole audio. */
  function ToGlobal(w: Word, offset: int, duration: int): Word {
    var start := Min(Max(w.start + offset, 0), duration);
    Word(w.text, start, Min(Max(w.end + offset, start), duration))
  }

  /** It keeps its text, and each of its times is the nearest one inside the audio, the end not before the start. */
  lemma GlobalIs(w: Word, offset: int, duration: int)
    requires 0 <= duration
    ensures var (g, start, end) := (ToGlobal(w, offset, duration), w.start + offset, w.end + offset);
      && g.text == w.text && 0 <= g.start <= g.end <= duration
      && (g.start == start || (g.start == 0 > start) || (g.start == duration < start))
      && (g.end == end || (g.end == g.start > end) || (g.end == duration < end))
  {
  }

  function Globals(words: seq<Word>, offset: int, duration: int): seq<Word> {
    if words == [] then [] else [ToGlobal(words[0], offset, duration)] + Globals(words[1..], offset, duration)
  }

  function Filter(words: seq<Word>, keep: Word -> bool): seq<Word> {
    if words == [] then [] else (if keep(words[0]) then [words[0]] else []) + Filter(words[1..], keep)
  }

  function OwnedBy(parts: seq<AudioPart>, i: nat): Word -> bool
    requires i < |parts|
  {
    (w: Word) => Owns(parts, i, w.start + w.end)
  }

  /** The words of one part's result that the part owns. */
  function Owned(parts: seq<AudioPart>, i: nat, words: seq<Word>, duration: int): seq<Word>
    requires i < |parts|
  {
    Filter(Globals(words, parts[i].start, duration), OwnedBy(parts, i))
  }

  predicate HaveWords(results: seq<SttResult>) {
    forall i :: 0 <= i < |results| ==> results[i].words.Some?
  }

  function OwnedUpTo(parts: seq<AudioPart>, results: seq<SttResult>, n: nat, duration: int): seq<Word>
    requires n <= |parts| == |results| && HaveWords(results)
  {
    if n == 0 then []
    else OwnedUpTo(parts, results, n - 1, duration) + Owned(parts, n - 1, results[n - 1].words.value, duration)
  }

  function MergedWords(parts: seq<AudioPart>, results: seq<SttResult>, duration: int): seq<Word>
    requires |parts| == |results| && HaveWords(results)
  {
    SortWords(OwnedUpTo(parts, results, |parts|, duration))
  }

  method OwnedWords(parts: seq<AudioPart>, i: nat, relativeWords: seq<Word>, duration: int) returns (owned: seq<Word>)
    requires i < |parts|
    ensures owned == Owned(parts, i, relativeWords, duration)
  {
    var lower, upper := LowerBound2(parts, i), UpperBound2(parts, i);
    owned := [];
    for k := 0 to |relativeWords|
      invariant owned + Owned(parts, i, relativeWords[k..], duration) == Owned(parts, i, relativeWords, duration)
    {
      var global := ToGlobal(relativeWords[k], parts[i].start, duration);
      var middle := global.start + global.end;
      assert relativeWords[k..][1..] == relativeWords[k + 1..];
      if middle < lower || middle >= upper {
        continue;
      }
      owned := owned + [global];
    }
  }

  method Merge(
    parts: seq<AudioPart>, results: seq<SttResult>, duration: int) returns (r: Result<Transcript, MergeError>)
    ensures r == if |parts| != |results| then Failure(CountsDiffer)
      else if !HaveWords(results) then Failure(WordsMissing)
      else
        var words := MergedWords(parts, results, duration);
        Success(Transcript(SegmentsOf(words), if results == [] then "" else results[0].model, words))
  {
    if |parts| != |results| { return Failure(CountsDiffer); }
    var words := [];
    for i := 0 to |parts|
      invariant forall k :: 0 <= k < i ==> results[k].words.Some?
      invariant HaveWords(results) ==> words == OwnedUpTo(parts, results, i, duration)
    {
      if results[i].words.None? { return Failure(WordsMissing); }
      var owned := OwnedWords(parts, i, results[i].words.value, duration);
      words := words + owned;
    }
    words := SortWords(words);
    var segments := SegmentsFromWords(words);
    r := Success(Transcript(segments, if results == [] then "" else results[0].model, words));
  }

  // ---- splitting and merging loses nothing and doubles nothing ----

  predicate Lies(w: Word, part: AudioPart) {
    part.start <= w.start && w.end <= part.end
  }

  function Relative(w: Word, offset: int): Word { Word(w.text, w.start - offset, w.end - offset) }

  /** What a recogniser that hears all and only the words inside a part answers for it. */
  function Heard(words: seq<Word>, part: AudioPart): seq<Word> {
    if words == [] then []
    else (if Lies(words[0], part) then [Relative(words[0], part.start)] else []) + Heard(words[1..], part)
  }

  /** Every part's result has the words inside the part, in any order. */
  ghost predicate HeardExactly(words: seq<Word>, parts: seq<AudioPart>, results: seq<SttResult>) {
    && |results| == |parts| && HaveWords(results)
    && forall i :: 0 <= i < |parts| ==> multiset(results[i].words.value) == multiset(Heard(words, parts[i]))
  }

  predicate WellTimed(words: seq<Word>, duration: int) {
    forall w <- words :: 0 <= w.start <= w.end <= duration
  }

  predicate OwnedAndHeard(parts: seq<AudioPart>, i: nat, w: Word)
    requires i < |parts|
  {
    Owns(parts, i, w.start + w.end) && Lies(w, parts[i])
  }

  /** The word lies inside the part that owns it. */
  predicate InOwnPart(parts: seq<AudioPart>, w: Word) {
    exists i: nat :: i < |parts| && OwnedAndHeard(parts, i, w)
  }

  function LyingIn(part: AudioPart): Word -> bool { (w: Word) => Lies(w, part) }
  function KeptIn(parts: seq<AudioPart>): Word -> bool { (w: Word) => InOwnPart(parts, w) }
  function StartingBefore(t: int): Word -> bool { (w: Word) => w.start < t }

  lemma {:induction false} FilterCount(words: seq<Word>, keep: Word -> bool, w: Word)
    ensures multiset(Filter(words, keep))[w] == if keep(w) then multiset(words)[w] else 0
  {
    if words != [] {
      FilterCount(words[1..], keep, w);
      assert words == [words[0]] + words[1..];
    }
  }

  lemma MoveToFront(words: seq<Word>, k: nat, offset: int, duration: int)
    requires k < |words|
    ensures multiset(words) == multiset{words[k]} + multiset(words[..k] + words[k + 1..])
    ensures multiset(Globals(words, offset, duration))
         == multiset{ToGlobal(words[k], offset, duration)}
           + multiset(Globals(words[..k] + words[k + 1..], offset, duration))
  {
    var a, b := words[..k], words[k + 1..];
    assert words == a + ([words[k]] + b);
    GlobalsConcat(a, [words[k]] + b, offset, duration);
    assert ([words[k]] + b)[1..] == b;
    GlobalsConcat(a, b, offset, duration);
  }

  lemma SameRest(a: seq<Word>, b: seq<Word>, i: nat, k: nat)
    requires i < |a| && k < |b| && a[i] == b[k] && multiset(a) == multiset(b)
    ensures multiset(a[..i] + a[i + 1..]) == multiset(b[..k] + b[k + 1..])
  {
    MoveToFront(a, i, 0, 0);
    MoveToFront(b, k, 0, 0);
    assert multiset(a[..i] + a[i + 1..]) == multiset(a) - multiset{a[i]};
  }

  /** Moving words to the global clock does not depend on their order. */
  lemma {:induction false} GlobalsOfPermutation(a: seq<Word>, b: seq<Word>, offset: int, duration: int)
    requires multiset(a) == multiset(b)
    ensures multiset(Globals(a, offset, duration)) == multiset(Globals(b, offset, duration))
  {
    hide Globals, ToGlobal;
    assert |multiset(a)| == |multiset(b)|;
    if a != [] {
      assert a[0] in multiset(a);
      var k :| 0 <= k < |b| && b[k] == a[0];
      MoveToFront(a, 0, offset, duration);
      MoveToFront(b, k, offset, duration);
      SameRest(a, b, 0, k);
      GlobalsOfPermutation(a[..0] + a[1..], b[..k] + b[k + 1..], offset, duration);
    } else {
      assert a == b;
    }
  }

  lemma GlobalsConcat(a: seq<Word>, b: seq<Word>, offset: int, duration: int)
    ensures Globals(a + b, offset, duration) == Globals(a, offset, duration) + Globals(b, offset, duration)
  {
    if a == [] { assert a + b == b; } else { assert (a + b)[1..] == a[1..] + b; }
  }

  /** On the global clock the words heard in a part are the words that lie in it. */
  lemma {:induction false} GlobalsOfHeard(words: seq<Word>, part: AudioPart, duration: int)
    requires WellTimed(words, duration)
    ensures Globals(Heard(words, part), part.start, duration) == Filter(words, LyingIn(part))
  {
    if words != [] {
      GlobalsOfHeard(words[1..], part, duration);
      var w := words[0];
      assert ToGlobal(Relative(w, part.start), part.start, duration) == w;
      var head := if Lies(w, part) then [Relative(w, part.start)] else [];
      GlobalsConcat(head, Heard(words[1..], part), part.start, duration);
      assert Globals(head, part.start, duration) == if Lies(w, part) then [w] else [];
    }
  }

  lemma OwnedCount(words: seq<Word>, parts: seq<AudioPart>, i: nat, result: seq<Word>, duration: int, w: Word)
    requires i < |parts| && WellTimed(words, duration) && multiset(result) == multiset(Heard(words, parts[i]))
    ensures multiset(Owned(parts, i, result, duration))[w]
      == if OwnedAndHeard(parts, i, w) then multiset(words)[w] else 0
  {
    hide Filter, Globals, Heard, Lies, WellTimed;
    GlobalsOfPermutation(result, Heard(words, parts[i]), parts[i].start, duration);
    GlobalsOfHeard(words, parts[i], duration);
    FilterCount(words, LyingIn(parts[i]), w);
    FilterCount(Globals(result, parts[i].start, duration), OwnedBy(parts, i), w);
  }

  lemma {:induction false} MergedCount(
    words: seq<Word>, parts: seq<AudioPart>, results: seq<SttResult>, duration: int, length: int, overlap: int,
    n: nat, w: Word)
    requires 0 <= overlap < length && IsPlan(parts, duration, length, overlap) && n <= |parts|
    requires WellTimed(words, duration) && HeardExactly(words, parts, results)
    ensures multiset(OwnedUpTo(parts, results, n, duration))[w]
         == if exists i: nat :: i < n && OwnedAndHeard(parts, i, w) then multiset(words)[w] else 0
  {
    hide OwnedAndHeard, Owned, Heard, WellTimed, IsPlan;
    if n > 0 {
      MergedCount(words, parts, results, duration, length, overlap, n - 1, w);
      OwnedCount(words, parts, n - 1, results[n - 1].words.value, duration, w);
      OneOwner(parts, duration, length, overlap, w);
    }
  }

  lemma OneOwner(parts: seq<AudioPart>, duration: int, length: int, overlap: int, w: Word)
    requires 0 <= overlap < length && IsPlan(parts, duration, length, overlap)
    ensures forall i: nat, j: nat :: i < j < |parts| ==> !(OwnedAndHeard(parts, i, w) && OwnedAndHeard(parts, j, w))
    ensures InOwnPart(parts, w) ==> w.start + w.end < 2 * duration
  {
    OwnershipPartitions(parts, duration, length, overlap, w.start + w.end);
  }

  /** The merged words are exactly the words that lie inside the part that owns them, each as often as
      it was spoken, in order. */
  lemma MergeKeepsOwned(
    words: seq<Word>, parts: seq<AudioPart>, results: seq<SttResult>, duration: int, length: int, overlap: int)
    requires 0 <= overlap < length && IsPlan(parts, duration, length, overlap)
    requires WellTimed(words, duration) && HeardExactly(words, parts, results)
    ensures MergedWords(parts, results, duration) == SortWords(Filter(words, KeptIn(parts)))
  {
    var all, kept := OwnedUpTo(parts, results, |parts|, duration), Filter(words, KeptIn(parts));
    forall w: Word ensures multiset(all)[w] == multiset(kept)[w] {
      MergedCount(words, parts, results, duration, length, overlap, |parts|, w);
      FilterCount(words, KeptIn(parts), w);
    }
    SortDependsOnWords(all, kept);
  }

  lemma SortDependsOnWords(a: seq<Word>, b: seq<Word>)
    requires multiset(a) == multiset(b)
    ensures SortWords(a) == SortWords(b)
  {
    SortSorts(a);
    SortSorts(b);
    SortedIsUnique(SortWords(a), SortWords(b));
  }

  /** Splitting and merging gives back the words that start before the end exactly when each of these
      lies inside the part that owns it. */
  lemma SplitThenMergeIff(
    words: seq<Word>, parts: seq<AudioPart>, results: seq<SttResult>, duration: int, length: int, overlap: int)
    requires 0 <= overlap < length && IsPlan(parts, duration, length, overlap)
    requires WellTimed(words, duration) && HeardExactly(words, parts, results)
    ensures MergedWords(parts, results, duration) == SortWords(Filter(words, StartingBefore(duration)))
      <==> forall w <- words :: w.start < duration ==> InOwnPart(parts, w)
  {
    hide IsPlan, HeardExactly, MergedWords, Filter, InOwnPart, SortWords;
    MergeKeepsOwned(words, parts, results, duration, length, overlap);
    var kept, started := Filter(words, KeptIn(parts)), Filter(words, StartingBefore(duration));
    forall w: Word ensures multiset(kept)[w] == if InOwnPart(parts, w) then multiset(words)[w] else 0 {
      FilterCount(words, KeptIn(parts), w);
    }
    forall w: Word ensures multiset(started)[w] == if w.start < duration then multiset(words)[w] else 0 {
      FilterCount(words, StartingBefore(duration), w);
    }
    forall w | w in words && InOwnPart(parts, w) ensures w.start < duration {
      OneOwner(parts, duration, length, overlap, w);
    }
    if forall w <- words :: w.start < duration ==> InOwnPart(parts, w) {
      forall w: Word ensures multiset(kept)[w] == multiset(started)[w] {
        if multiset(words)[w] > 0 { assert w in words; }
      }
      SortDependsOnWords(kept, started);
    }
    if SortWords(kept) == SortWords(started) {
      assert multiset(kept) == multiset(started);
      forall w <- words | w.start < duration ensures InOwnPart(parts, w) {
        assert multiset(words)[w] > 0;
        assert multiset(kept)[w] == multiset(started)[w];
      }
    }
  }

  /** A word no longer than the overlap lies inside the part that owns it. */
  lemma ShortWordsAreInOwnPart(parts: seq<AudioPart>, duration: int, length: int, overlap: int, w: Word)
    requires 0 <= overlap < length && IsPlan(parts, duration, length, overlap)
    requires 0 <= w.start <= w.end <= duration && w.start < duration && w.end - w.start <= overlap
    ensures InOwnPart(parts, w)
  {
    var i := SomeoneOwns(parts, w.start + w.end, |parts| - 1);
    assert OwnedAndHeard(parts, i, w);
  }

  /** A word of seven units in audio of twenty, cut into parts of ten with an overlap of two: the first part owns
      it and hears only its beginning, the second does not hear its beginning, and the merge drops it. */
  lemma LongWordIsDropped() returns (parts: seq<AudioPart>, results: seq<SttResult>)
    ensures IsPlan(parts, 20, 10, 2) && WellTimed([Word("long", 5, 12)], 20)
    ensures HeardExactly([Word("long", 5, 12)], parts, results)
    ensures MergedWords(parts, results, 20) == []
  {
    var w := Word("long", 5, 12);
    parts := [AudioPart(0, 0, 10), AudioPart(1, 8, 20)];
    results := [SttResult(Some([]), "m"), SttResult(Some([]), "m")];
    assert !InOwnPart(parts, w);
    MergeKeepsOwned([w], parts, results, 20, 10, 2);
    assert Filter([w], KeptIn(parts)) == [];
  }

  /** When no word lasts longer than the overlap, transcribing in parts gives the transcript of the whole:
      the same words, and so the same segments. */
  lemma SplitThenMergeIsIdentity(
    words: seq<Word>, parts: seq<AudioPart>, results: seq<SttResult>, duration: int, length: int, overlap: int)
    requires 0 <= overlap < length && IsPlan(parts, duration, length, overlap)
    requires WellTimed(words, duration) && HeardExactly(words, parts, results)
    requires Sorted(words) && forall w <- words :: w.start < duration && w.end - w.start <= overlap
    ensures MergedWords(parts, results, duration) == words
  {
    forall w | w in words ensures InOwnPart(parts, w) {
      ShortWordsAreInOwnPart(parts, duration, length, overlap, w);
    }
    SplitThenMergeIff(words, parts, results, duration, length, overlap);
    KeepAll(words, StartingBefore(duration));
    SortSorts(words);
    SortedIsUnique(SortWords(words), words);
  }

  lemma KeepAll(words: seq<Word>, keep: Word -> bool)
    requires forall w <- words :: keep(w)
    ensures Filter(words, keep) == words
  {
  }
}
