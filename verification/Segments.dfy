/** Grouping a transcript's words into segments: at sentence ends, and at a maximal number of words. */
module Segments {
  import opened Wrappers
  import opened TranscriptWords

  const MaxWords: nat := 100

  datatype Segment = Segment(text: string, start: int, end: int)

  predicate EndsSentence(text: string) {
    text != "" && text[|text| - 1] in ".!?"
  }

  /** The buffered words make a complete segment. */
  predicate Closes(buffer: seq<Word>) {
    buffer != [] && (EndsSentence(buffer[|buffer| - 1].text) || |buffer| >= MaxWords)
  }

  function Spoken(words: seq<Word>): seq<Word> {
    if words == [] then [] else (if words[0].text == "" then [] else [words[0]]) + Spoken(words[1..])
  }

  /** What becomes of the remaining words after some were buffered. */
  function Groups(words: seq<Word>, buffer: seq<Word>): seq<seq<Word>>
    decreases |words|
  {
    if words == [] then (if buffer == [] then [] else [buffer])
    else if words[0].text == "" then Groups(words[1..], buffer)
    else
      var b := buffer + [words[0]];
      if Closes(b) then [b] + Groups(words[1..], []) else Groups(words[1..], b)
  }

  function Join(texts: seq<string>): string {
    if texts == [] then "" else if |texts| == 1 then texts[0] else texts[0] + " " + Join(texts[1..])
  }

  function Texts(words: seq<Word>): seq<string> {
    seq(|words|, i requires 0 <= i < |words| => words[i].text)
  }

  function SegmentFromWords(words: seq<Word>): Segment
    requires words != []
  {
    Segment(Join(Texts(words)), words[0].start, words[|words| - 1].end)
  }

  predicate NoneEmpty(groups: seq<seq<Word>>) {
    forall i :: 0 <= i < |groups| ==> groups[i] != []
  }

  function ToSegments(groups: seq<seq<Word>>): (r: seq<Segment>)
    requires NoneEmpty(groups)
    ensures |r| == |groups| && forall i :: 0 <= i < |r| ==> r[i] == SegmentFromWords(groups[i])
  {
    seq(|groups|, i requires 0 <= i < |groups| => SegmentFromWords(groups[i]))
  }

  // ---- what the groups are ----

  predicate StaysOpen(buffer: seq<Word>) {
    forall k :: 1 <= k <= |buffer| ==> !Closes(buffer[..k])
  }

  /** Each group goes on as long as it may: no shorter start of it is complete, and all but the last
      are complete. */
  predicate IsGrouping(groups: seq<seq<Word>>) {
    && (forall i :: 0 <= i < |groups| ==> groups[i] != [] && StaysOpen(groups[i][..|groups[i]| - 1]))
    && (forall i :: 0 <= i < |groups| - 1 ==> Closes(groups[i]))
  }

  function Flatten(groups: seq<seq<Word>>): seq<Word> {
    if groups == [] then [] else groups[0] + Flatten(groups[1..])
  }

  lemma PrependGroup(b: seq<Word>, groups: seq<seq<Word>>)
    requires b != [] && StaysOpen(b[..|b| - 1]) && (groups != [] ==> Closes(b)) && IsGrouping(groups)
    ensures IsGrouping([b] + groups) && Flatten([b] + groups) == b + Flatten(groups)
  {
    var r := [b] + groups;
    assert r[1..] == groups;
    assert forall i :: 1 <= i < |r| ==> r[i] == groups[i - 1];
  }

  lemma StillOpen(buffer: seq<Word>, b: seq<Word>)
    requires StaysOpen(buffer) && b != [] && b[..|b| - 1] == buffer
    ensures !Closes(b) ==> StaysOpen(b)
  {
    assert forall k :: 1 <= k <= |buffer| ==> b[..k] == buffer[..k];
    assert b[..|b|] == b;
  }

  lemma SpokenStep(words: seq<Word>, buffer: seq<Word>)
    ensures words == [] ==> buffer + Spoken(words) == buffer
    ensures words != [] ==>
      buffer + Spoken(words) == (if words[0].text == "" then buffer else buffer + [words[0]]) + Spoken(words[1..])
  {
  }

  lemma {:induction false} GroupsAreGrouping(words: seq<Word>, buffer: seq<Word>)
    requires StaysOpen(buffer)
    ensures IsGrouping(Groups(words, buffer))
    ensures Flatten(Groups(words, buffer)) == buffer + Spoken(words)
    decreases |words|
  {
    hide IsGrouping, StaysOpen, Closes, Spoken, Flatten;
    NoGroups();
    SpokenStep(words, buffer);
    if words == [] {
      if buffer != [] {
        OpenInit(buffer);
        PrependGroup(buffer, []);
        assert [buffer] + [] == [buffer];
      }
    } else if words[0].text == "" {
      GroupsAreGrouping(words[1..], buffer);
    } else {
      var b, rest := buffer + [words[0]], words[1..];
      assert b[..|b| - 1] == buffer;
      StillOpen(buffer, b);
      if Closes(b) {
        NoBuffer();
        GroupsAreGrouping(rest, []);
        assert [] + Spoken(rest) == Spoken(rest);
        PrependGroup(b, Groups(rest, []));
      } else {
        GroupsAreGrouping(rest, b);
      }
    }
  }

  lemma NoGroups()
    ensures IsGrouping([]) && Flatten([]) == []
  {
  }

  lemma NoBuffer()
    ensures StaysOpen([])
  {
  }

  lemma OpenInit(buffer: seq<Word>)
    requires buffer != [] && StaysOpen(buffer)
    ensures StaysOpen(buffer[..|buffer| - 1])
  {
    var init := buffer[..|buffer| - 1];
    assert forall k :: 1 <= k <= |init| ==> init[..k] == buffer[..k];
  }

  lemma OpenUpTo(h: seq<Word>, k: nat)
    requires 1 <= k < |h| && StaysOpen(h[..|h| - 1])
    ensures !Closes(h[..k])
  {
    assert h[..|h| - 1][..k] == h[..k];
  }

  /** A group that closes is not a proper start of another group. */
  lemma NotShorter(g: seq<Word>, h: seq<Word>)
    requires Closes(g) && h != [] && StaysOpen(h[..|h| - 1]) && g <= h
    ensures g == h
  {
    if |g| < |h| { OpenUpTo(h, |g|); }
  }

  lemma FlattenEmpty(groups: seq<seq<Word>>)
    requires IsGrouping(groups) && Flatten(groups) == []
    ensures groups == []
  {
  }

  /** The segmentation of a list of words is the only one of its kind. */
  lemma {:induction false} GroupingIsUnique(g: seq<seq<Word>>, h: seq<seq<Word>>)
    requires IsGrouping(g) && IsGrouping(h) && Flatten(g) == Flatten(h)
    ensures g == h
    decreases |g| + |h|
  {
    if g == [] {
      FlattenEmpty(h);
    } else if h == [] {
      FlattenEmpty(g);
    } else {
      if |g[0]| <= |h[0]| { FirstAgrees(g, h); } else { FirstAgrees(h, g); }
      GroupingIsUnique(g[1..], h[1..]);
    }
  }

  lemma FirstAgrees(g: seq<seq<Word>>, h: seq<seq<Word>>)
    requires IsGrouping(g) && IsGrouping(h) && Flatten(g) == Flatten(h) && g != [] && h != [] && |g[0]| <= |h[0]|
    ensures g[0] == h[0] && Flatten(g[1..]) == Flatten(h[1..]) && IsGrouping(g[1..]) && IsGrouping(h[1..])
  {
    var flat := Flatten(g);
    assert g[0] == flat[..|g[0]|] && h[0] == flat[..|h[0]|];
    if |g| > 1 {
      NotShorter(g[0], h[0]);
    } else {
      assert flat == g[0];
    }
    assert flat[|g[0]|..] == Flatten(g[1..]) && flat[|h[0]|..] == Flatten(h[1..]);
  }

  /** No group has more than a hundred words. */
  lemma GroupSize(groups: seq<seq<Word>>, i: nat)
    requires IsGrouping(groups) && i < |groups|
    ensures 1 <= |groups[i]| <= MaxWords
  {
    var init := groups[i][..|groups[i]| - 1];
    assert init[..|init|] == init;
  }

  // ---- the segments ----

  lemma {:induction false} GroupInFlat(groups: seq<seq<Word>>, i: nat) returns (at: nat)
    requires i < |groups|
    ensures at + |groups[i]| <= |Flatten(groups)| && Flatten(groups)[at..at + |groups[i]|] == groups[i]
    decreases i
  {
    if i == 0 {
      at := 0;
    } else {
      var k := GroupInFlat(groups[1..], i - 1);
      at := |groups[0]| + k;
    }
  }

  lemma JoinConcat(a: seq<string>, b: seq<string>)
    requires a != [] && b != []
    ensures Join(a + b) == Join(a) + " " + Join(b)
  {
    if |a| == 1 {
      assert (a + b)[1..] == b;
    } else {
      JoinConcat(a[1..], b);
      assert (a + b)[1..] == a[1..] + b;
    }
  }

  function SegmentTexts(segments: seq<Segment>): seq<string> {
    seq(|segments|, i requires 0 <= i < |segments| => segments[i].text)
  }

  /** Joined with spaces, the segments say what the words say. */
  lemma {:induction false} SegmentsKeepText(groups: seq<seq<Word>>)
    requires NoneEmpty(groups)
    ensures Join(SegmentTexts(ToSegments(groups))) == Join(Texts(Flatten(groups)))
  {
    if |groups| == 1 {
      assert Flatten(groups) == groups[0];
      assert SegmentTexts(ToSegments(groups)) == [Join(Texts(groups[0]))];
    } else if |groups| > 1 {
      SegmentsKeepText(groups[1..]);
      var texts, rest := SegmentTexts(ToSegments(groups)), SegmentTexts(ToSegments(groups[1..]));
      assert texts == [Join(Texts(groups[0]))] + rest;
      assert Texts(Flatten(groups)) == Texts(groups[0]) + Texts(Flatten(groups[1..]));
      assert Flatten(groups[1..]) != [] by { assert groups[1..][0] != []; }
      JoinConcat(Texts(groups[0]), Texts(Flatten(groups[1..])));
    }
  }

  /** Segments of words in order are in order, and do not overlap. */
  lemma {:induction false} SegmentsInOrder(groups: seq<seq<Word>>)
    requires NoneEmpty(groups) && InOrder(Flatten(groups))
    ensures forall i :: 0 <= i < |groups| ==> ToSegments(groups)[i].start <= ToSegments(groups)[i].end
    ensures forall i, j :: 0 <= i < j < |groups| ==> ToSegments(groups)[i].end <= ToSegments(groups)[j].start
  {
    if groups != [] {
      var flat, rest := Flatten(groups), Flatten(groups[1..]);
      assert forall k :: 0 <= k < |rest| ==> rest[k] == flat[|groups[0]| + k];
      assert forall k :: 0 <= k < |groups[0]| ==> groups[0][k] == flat[k];
      SegmentsInOrder(groups[1..]);
      forall j | 0 < j < |groups| ensures ToSegments(groups)[0].end <= ToSegments(groups)[j].start {
        var at := GroupInFlat(groups[1..], j - 1);
        assert groups[j][0] == rest[at..at + |groups[j]|][0] == rest[at];
      }
      assert forall i :: 0 < i < |groups| ==> ToSegments(groups)[i] == ToSegments(groups[1..])[i - 1];
    }
  }

  lemma SpokenInOrder(words: seq<Word>)
    requires InOrder(words)
    ensures InOrder(Spoken(words))
  {
    if words != [] {
      SpokenInOrder(words[1..]);
      forall w | w in Spoken(words[1..]) ensures words[0].end <= w.start { SpokenFrom(words[1..], w); }
    }
  }

  lemma SpokenFrom(words: seq<Word>, w: Word)
    requires w in Spoken(words)
    ensures w in words
  {
  }

  /** The spoken words are those with text, in their order. */
  lemma {:induction false} SpokenAre(words: seq<Word>) returns (at: seq<nat>)
    ensures Picks(words, at, Spoken(words))
    ensures forall i :: 0 <= i < |words| ==> (i in at <==> words[i].text != "")
  {
    at := [];
    if words != [] {
      var rest := SpokenAre(words[1..]);
      at := PicksPrepend(words[0], words[1..], rest, Spoken(words[1..]), words[0].text != "");
      assert [words[0]] + words[1..] == words;
    }
  }

  predicate IsEnd(text: string) {
    |text| > 0 && (text[|text| - 1] == '.' || text[|text| - 1] == '!' || text[|text| - 1] == '?')
  }

  /** A group ends with its first word that ends a sentence, or with its hundredth; only the last may end before. */
  lemma GroupEnds(groups: seq<seq<Word>>, i: nat)
    requires IsGrouping(groups) && i < |groups|
    ensures 1 <= |groups[i]| <= 100
    ensures forall k :: 0 <= k < |groups[i]| - 1 ==> !IsEnd(groups[i][k].text)
    ensures i < |groups| - 1 ==> |groups[i]| == 100 || IsEnd(groups[i][|groups[i]| - 1].text)
  {
    GroupSize(groups, i);
    var init := groups[i][..|groups[i]| - 1];
    forall k | 0 <= k < |init| ensures !IsEnd(groups[i][k].text) {
      assert !Closes(init[..k + 1]) && init[..k + 1][k] == groups[i][k];
    }
  }

  /** A segment begins and ends with its first and last word, and its text is theirs, separated by spaces. */
  lemma SegmentIs(words: seq<Word>)
    requires words != []
    ensures var s := SegmentFromWords(words);
      && s.start == words[0].start && s.end == words[|words| - 1].end
      && s.text == if |words| == 1 then words[0].text else words[0].text + " " + SegmentFromWords(words[1..]).text
  {
    assert Texts(words)[1..] == Texts(words[1..]);
  }

  /** Segments hold the non-empty words in order, from the first to the last word of each group, say together what the
      words say, and span times in order when the words are in order. */
  lemma SegmentsAreFaithful(words: seq<Word>)
    ensures var groups := Groups(words, []);
      && NoneEmpty(groups) && SegmentsOf(words) == ToSegments(groups) && Flatten(groups) == Spoken(words)
      && (forall i :: 0 <= i < |groups| ==> 1 <= |groups[i]| <= 100)
      && (forall i :: 0 <= i < |groups| ==>
           && SegmentsOf(words)[i].start == groups[i][0].start
           && SegmentsOf(words)[i].end == groups[i][|groups[i]| - 1].end)
      && Join(SegmentTexts(SegmentsOf(words))) == Join(Texts(Spoken(words)))
      && (InOrder(words) ==>
           forall i, j :: 0 <= i < j < |groups| ==> SegmentsOf(words)[i].end <= SegmentsOf(words)[j].start)
  {
    var groups := Groups(words, []);
    GroupsAreGrouping(words, []);
    forall i | 0 <= i < |groups| ensures 1 <= |groups[i]| <= MaxWords { GroupSize(groups, i); }
    assert [] + Spoken(words) == Spoken(words);
    SegmentsKeepText(groups);
    if InOrder(words) {
      SpokenInOrder(words);
      SegmentsInOrder(groups);
    }
  }

  function SegmentsOf(words: seq<Word>): seq<Segment> {
    GroupsAreGrouping(words, []);
    ToSegments(Groups(words, []))
  }

  method SegmentsFromWords(words: seq<Word>) returns (segments: seq<Segment>)
    ensures segments == SegmentsOf(words)
  {
    hide Flatten, Spoken, Join, SegmentFromWords, StaysOpen;
    NoBuffer();
    GroupsAreGrouping(words, []);
    segments := [];
    var buffered: seq<Word> := [];
    ghost var done: seq<seq<Word>> := [];
    for i := 0 to |words|
      invariant NoneEmpty(done) && segments == ToSegments(done)
      invariant done + Groups(words[i..], buffered) == Groups(words, [])
    {
      var word := words[i];
      assert words[i..][0] == word && words[i..][1..] == words[i + 1..];
      if word.text != "" {
        buffered := buffered + [word];
        if EndsSentence(word.text) || |buffered| >= MaxWords {
          segments := segments + [SegmentFromWords(buffered)];
          done := done + [buffered];
          buffered := [];
        }
      }
    }
    if buffered != [] { segments := segments + [SegmentFromWords(buffered)]; }
  }
}
