/** Cutting a transcript into chunks of bounded size that overlap by a few sentences. */
module Chunking {
  import opened Segments

  datatype Fragment = Fragment(text: string, start: int, end: int)

  datatype Draft = Draft(index: nat, text: string, start: int, end: int)

  // ---- the pieces ----

  function TrimLeft(s: string): string {
    if s != "" && s[0] == ' ' then TrimLeft(s[1..]) else s
  }

  function TrimRight(s: string): string {
    if s != "" && s[|s| - 1] == ' ' then TrimRight(s[..|s| - 1]) else s
  }

  /** How segments fall into sentences and how many tokens a text has is left to the two functions. */
  datatype Rules = Rules(maxTokens: int, overlap: nat, sentences: string -> seq<string>, tokens: string -> nat)

  function Map(texts: seq<string>, start: int, end: int): (r: seq<Fragment>)
    ensures |r| == |texts| && forall i :: 0 <= i < |r| ==> r[i] == Fragment(texts[i], start, end)
  {
    seq(|texts|, i requires 0 <= i < |texts| => Fragment(texts[i], start, end))
  }

  function SplitSegment(segment: Segment, rules: Rules): (r: seq<Fragment>)
    ensures r != []
  {
    var parts := rules.sentences(segment.text);
    Map(if parts == [] then [TrimLeft(TrimRight(segment.text))] else parts, segment.start, segment.end)
  }

  function SplitSegments(segments: seq<Segment>, rules: Rules): seq<Fragment> {
    if segments == [] then [] else SplitSegment(segments[0], rules) + SplitSegments(segments[1..], rules)
  }

  function Tokens(fragments: seq<Fragment>, rules: Rules): nat {
    if fragments == [] then 0
    else Tokens(fragments[..|fragments| - 1], rules) + rules.tokens(fragments[|fragments| - 1].text)
  }

  /** The fragments a chunk passes on to the next one. */
  function Overlap(chunk: seq<Fragment>, k: nat): (r: seq<Fragment>)
    ensures |r| == if |chunk| < k then |chunk| else k
  {
    if |chunk| < k then chunk else chunk[|chunk| - k..]
  }

  function TextsOf(fragments: seq<Fragment>): seq<string> {
    seq(|fragments|, i requires 0 <= i < |fragments| => fragments[i].text)
  }

  function BuildChunk(index: nat, fragments: seq<Fragment>): Draft
    requires fragments != []
  {
    Draft(index, TrimLeft(TrimRight(Join(TextsOf(fragments)))), fragments[0].start, fragments[|fragments| - 1].end)
  }

  // ---- what a chunking is ----

  /** The fragments of chunk `i` that are not in the chunk before it. */
  function NewPart(chunks: seq<seq<Fragment>>, i: nat, k: nat): seq<Fragment>
    requires i < |chunks|
  {
    if i == 0 then chunks[0]
    else
      var shared := |Overlap(chunks[i - 1], k)|;
      if shared <= |chunks[i]| then chunks[i][shared..] else []
  }

  /** The chunks without what they repeat. */
  function WithoutOverlap(chunks: seq<seq<Fragment>>, k: nat): seq<Fragment> {
    if chunks == [] then [] else WithoutOverlap(chunks[..|chunks| - 1], k) + NewPart(chunks, |chunks| - 1, k)
  }

  /** A chunk grows past its first new fragment only within the limit. */
  ghost predicate Grown(chunk: seq<Fragment>, shared: nat, rules: Rules) {
    shared < |chunk| && (|chunk| > shared + 1 ==> Tokens(chunk, rules) <= rules.maxTokens)
  }

  ghost predicate Follows(a: seq<Fragment>, b: seq<Fragment>, rules: Rules) {
    var shared := Overlap(a, rules.overlap);
    && shared <= b && Grown(b, |shared|, rules)
    && Tokens(a + [b[|shared|]], rules) > rules.maxTokens
  }

  /** Each chunk begins with the end of the chunk before it, adds at least one fragment, and goes on
      until the next fragment would take it over the limit. */
  ghost predicate IsChunking(chunks: seq<seq<Fragment>>, rules: Rules) {
    && (chunks != [] ==> Grown(chunks[0], 0, rules))
    && forall i, j :: 0 <= i < j < |chunks| && j == i + 1 ==> Follows(chunks[i], chunks[j], rules)
  }

  /** Only a chunk that could not be smaller is over the limit: what it shares, and one fragment. */
  lemma OverLimitIsMinimal(chunks: seq<seq<Fragment>>, rules: Rules, i: nat)
    requires IsChunking(chunks, rules) && i < |chunks| && Tokens(chunks[i], rules) > rules.maxTokens
    ensures |NewPart(chunks, i, rules.overlap)| == 1
  {
    if i > 0 { assert Follows(chunks[i - 1], chunks[i], rules); }
  }

  lemma EveryChunkAdds(chunks: seq<seq<Fragment>>, rules: Rules, i: nat)
    requires IsChunking(chunks, rules) && i < |chunks|
    ensures NewPart(chunks, i, rules.overlap) != []
    ensures i > 0 ==> chunks[i] == Overlap(chunks[i - 1], rules.overlap) + NewPart(chunks, i, rules.overlap)
  {
    if i > 0 { assert Follows(chunks[i - 1], chunks[i], rules); }
  }

  /** Every chunk but the first begins with the last fragments of the chunk before it, as many as the overlap asks for
      and there are, and has something new after them. */
  lemma BeginsWithEnd(chunks: seq<seq<Fragment>>, rules: Rules, i: nat)
    requires IsChunking(chunks, rules) && 0 < i < |chunks|
    ensures var (a, b) := (chunks[i - 1], chunks[i]);
      var shared := if rules.overlap < |a| then rules.overlap else |a|;
      shared < |b| && b[..shared] == a[|a| - shared..]
  {
    assert Follows(chunks[i - 1], chunks[i], rules);
  }

  lemma {:induction false} TokensAdd(a: seq<Fragment>, b: seq<Fragment>, rules: Rules)
    ensures Tokens(a + b, rules) == Tokens(a, rules) + Tokens(b, rules)
    ensures |b| == 1 ==> Tokens(b, rules) == rules.tokens(b[0].text)
  {
    if b == [] {
      assert a + b == a;
    } else {
      var n := |b| - 1;
      TokensAdd(a, b[..n], rules);
      assert (a + b)[..|a| + n] == a + b[..n];
      if n == 0 { assert b[..n] == []; }
    }
  }

  function Blanks(n: nat): string { seq(n, _ => ' ') }

  lemma {:induction false} TrimLeftIs(s: string) returns (n: nat)
    ensures s == Blanks(n) + TrimLeft(s) && (TrimLeft(s) != "" ==> TrimLeft(s)[0] != ' ')
  {
    n := 0;
    if s != "" && s[0] == ' ' {
      var k := TrimLeftIs(s[1..]);
      n := k + 1;
      assert s == [' '] + s[1..] && Blanks(n) == [' '] + Blanks(k);
    }
  }

  lemma {:induction false} TrimRightIs(s: string) returns (n: nat)
    ensures s == TrimRight(s) + Blanks(n) && (TrimRight(s) != "" ==> TrimRight(s)[|TrimRight(s)| - 1] != ' ')
  {
    n := 0;
    if s != "" && s[|s| - 1] == ' ' {
      var k := TrimRightIs(s[..|s| - 1]);
      n := k + 1;
      assert s == s[..|s| - 1] + [' '] && Blanks(n) == Blanks(k) + [' '];
    }
  }

  /** Trimming takes just the blanks at both ends. */
  lemma Trimmed(s: string) returns (left: nat, right: nat)
    ensures var t := TrimLeft(TrimRight(s));
      s == Blanks(left) + t + Blanks(right) && (t != "" ==> t[0] != ' ' && t[|t| - 1] != ' ')
  {
    right := TrimRightIs(s);
    left := TrimLeftIs(TrimRight(s));
    var t := TrimLeft(TrimRight(s));
    if t != "" { assert TrimRight(s)[|TrimRight(s)| - 1] == t[|t| - 1]; }
  }

  /** A chunk spans from the start of its first fragment to the end of its last one, and says what they say. */
  lemma ChunkIs(index: nat, fragments: seq<Fragment>)
    requires fragments != []
    ensures var d := BuildChunk(index, fragments);
      && d.index == index && d.start == fragments[0].start && d.end == fragments[|fragments| - 1].end
      && exists left, right :: Join(TextsOf(fragments)) == Blanks(left) + d.text + Blanks(right)
  {
    var left, right := Trimmed(Join(TextsOf(fragments)));
  }

  /** The fragments are the sentences of the segments in order, each with the times of its segment; a segment without
      sentences is one fragment. */
  lemma FragmentsAre(segments: seq<Segment>, rules: Rules)
    ensures var r := SplitSegments(segments, rules);
      if segments == [] then r == []
      else
        var (first, sentences) := (segments[0], rules.sentences(segments[0].text));
        var n := if sentences == [] then 1 else |sentences|;
        && n <= |r| && r[n..] == SplitSegments(segments[1..], rules)
        && forall i :: 0 <= i < n ==> r[i] == Fragment(
             if sentences == [] then TrimLeft(TrimRight(first.text)) else sentences[i], first.start, first.end)
  {
  }

  // ---- chunking ----

  lemma Append(chunks: seq<seq<Fragment>>, chunk: seq<Fragment>, rules: Rules)
    requires IsChunking(chunks, rules)
    requires if chunks == [] then Grown(chunk, 0, rules) else Follows(chunks[|chunks| - 1], chunk, rules)
    ensures IsChunking(chunks + [chunk], rules)
    ensures WithoutOverlap(chunks + [chunk], rules.overlap)
         == WithoutOverlap(chunks, rules.overlap)
           + (if chunks == [] then chunk else chunk[|Overlap(chunks[|chunks| - 1], rules.overlap)|..])
  {
    assert (chunks + [chunk])[..|chunks|] == chunks;
  }

  /** Within the limit, the last chunk may take one more fragment. */
  lemma Extend(chunks: seq<seq<Fragment>>, chunk: seq<Fragment>, f: Fragment, rules: Rules)
    requires IsChunking(chunks + [chunk], rules) && Tokens(chunk + [f], rules) <= rules.maxTokens
    ensures IsChunking(chunks + [chunk + [f]], rules)
    ensures WithoutOverlap(chunks + [chunk + [f]], rules.overlap)
      == WithoutOverlap(chunks + [chunk], rules.overlap) + [f]
  {
    var n, before, after := |chunks|, chunks + [chunk], chunks + [chunk + [f]];
    assert before[..n] == chunks && after[..n] == chunks;
    if n > 0 {
      assert Follows(before[n - 1], before[n], rules);
      assert Follows(chunks[n - 1], chunk + [f], rules);
      assert NewPart(after, n, rules.overlap) == NewPart(before, n, rules.overlap) + [f];
    }
    forall i, j | 0 <= i < j < |after| && j == i + 1 ensures Follows(after[i], after[j], rules) {
      if j < n { assert Follows(before[i], before[j], rules); }
    }
  }

  lemma Start(chunks: seq<seq<Fragment>>, chunk: seq<Fragment>, f: Fragment, rules: Rules)
    requires chunks == [] && chunk == []
    ensures IsChunking(chunks + [chunk + [f]], rules) && WithoutOverlap(chunks + [chunk + [f]], rules.overlap) == [f]
  {
    assert chunk + [f] == [f];
    assert chunks + [chunk + [f]] == [[f]];
    assert WithoutOverlap([[f]], rules.overlap) == WithoutOverlap([[f]][..0], rules.overlap) + [f];
  }

  /** A full chunk is followed by one that begins with its end and the next fragment. */
  lemma Next(chunks: seq<seq<Fragment>>, chunk: seq<Fragment>, f: Fragment, rules: Rules)
    requires IsChunking(chunks + [chunk], rules) && Tokens(chunk + [f], rules) > rules.maxTokens
    ensures var all := chunks + [chunk] + [Overlap(chunk, rules.overlap) + [f]];
      IsChunking(all, rules)
        && WithoutOverlap(all, rules.overlap) == WithoutOverlap(chunks + [chunk], rules.overlap) + [f]
  {
    Append(chunks + [chunk], Overlap(chunk, rules.overlap) + [f], rules);
  }

  // ---- there is only one chunking ----

  /** The chunking after one more fragment. */
  function Grow(chunks: seq<seq<Fragment>>, f: Fragment, rules: Rules): seq<seq<Fragment>> {
    if chunks == [] then [[f]]
    else
      var (init, last) := (chunks[..|chunks| - 1], chunks[|chunks| - 1]);
      if Tokens(last + [f], rules) > rules.maxTokens then chunks + [Overlap(last, rules.overlap) + [f]]
      else init + [last + [f]]
  }

  lemma Prefix(chunks: seq<seq<Fragment>>, rules: Rules)
    requires chunks != [] && IsChunking(chunks, rules)
    ensures IsChunking(chunks[..|chunks| - 1], rules)
  {
    var init := chunks[..|chunks| - 1];
    forall i, j | 0 <= i < j < |init| && j == i + 1 ensures Follows(init[i], init[j], rules) {
      assert Follows(chunks[i], chunks[j], rules);
    }
  }

  lemma ShrinkByChunk(chunks: seq<seq<Fragment>>, rules: Rules)
    requires chunks != [] && IsChunking(chunks, rules)
    requires |NewPart(chunks, |chunks| - 1, rules.overlap)| == 1
    ensures var (before, flat) := (chunks[..|chunks| - 1], WithoutOverlap(chunks, rules.overlap));
      && flat != [] && IsChunking(before, rules) && WithoutOverlap(before, rules.overlap) == flat[..|flat| - 1]
      && chunks == Grow(before, flat[|flat| - 1], rules)
  {
    hide Tokens;
    var n := |chunks| - 1;
    EveryChunkAdds(chunks, rules, n);
    Prefix(chunks, rules);
    if n > 0 { assert Follows(chunks[n - 1], chunks[n], rules); }
    var added := NewPart(chunks, n, rules.overlap);
    assert added == [added[0]]
      && WithoutOverlap(chunks, rules.overlap) == WithoutOverlap(chunks[..n], rules.overlap) + [added[0]];
    assert chunks == chunks[..n] + [chunks[n]];
    if n == 0 { assert chunks == [[added[0]]]; }
  }

  lemma ShrinkLast(init: seq<seq<Fragment>>, last: seq<Fragment>, rules: Rules)
    requires IsChunking(init + [last], rules)
    requires |NewPart(init + [last], |init|, rules.overlap)| > 1
    ensures var (before, flat) := (init + [last[..|last| - 1]], WithoutOverlap(init + [last], rules.overlap));
      && flat != [] && IsChunking(before, rules) && WithoutOverlap(before, rules.overlap) == flat[..|flat| - 1]
      && init + [last] == Grow(before, flat[|flat| - 1], rules)
  {
    hide Tokens, Follows, Grown;
    var n, k := |init|, |last| - 1;
    var chunks, before := init + [last], init + [last[..k]];
    EveryChunkAdds(chunks, rules, n);
    assert chunks[..n] == init && before[..n] == init && last[..k] + [last[k]] == last;
    if n > 0 {
      assert Follows(chunks[n - 1], chunks[n], rules);
      FollowsShrinks(init[n - 1], last, rules);
    } else {
      GrownShrinks(last, 0, rules);
    }
    forall i, j | 0 <= i < j < |before| && j == i + 1 ensures Follows(before[i], before[j], rules) {
      if j < n { assert Follows(chunks[i], chunks[j], rules); }
    }
    var added := NewPart(chunks, n, rules.overlap);
    assert NewPart(before, n, rules.overlap) == added[..|added| - 1];
    assert added[|added| - 1] == last[k];
    GrownTokens(chunks, n, rules);
  }

  lemma GrownTokens(chunks: seq<seq<Fragment>>, i: nat, rules: Rules)
    requires IsChunking(chunks, rules) && i < |chunks| && |NewPart(chunks, i, rules.overlap)| > 1
    ensures Tokens(chunks[i], rules) <= rules.maxTokens
  {
    if i > 0 { assert Follows(chunks[i - 1], chunks[i], rules); }
  }

  lemma GrownShrinks(chunk: seq<Fragment>, shared: nat, rules: Rules)
    requires Grown(chunk, shared, rules) && |chunk| > shared + 1
    ensures Grown(chunk[..|chunk| - 1], shared, rules)
  {
    var k := |chunk| - 1;
    assert chunk[..k] + [chunk[k]] == chunk;
    TokensGrow(chunk[..k], chunk[k], rules);
  }

  lemma FollowsShrinks(a: seq<Fragment>, b: seq<Fragment>, rules: Rules)
    requires Follows(a, b, rules) && |b| > |Overlap(a, rules.overlap)| + 1
    ensures Follows(a, b[..|b| - 1], rules)
  {
    GrownShrinks(b, |Overlap(a, rules.overlap)|, rules);
  }

  /** Every chunking is one fragment's growth of a chunking. */
  lemma Shrink(chunks: seq<seq<Fragment>>, rules: Rules) returns (before: seq<seq<Fragment>>)
    requires chunks != [] && IsChunking(chunks, rules)
    ensures var flat := WithoutOverlap(chunks, rules.overlap);
      && flat != [] && IsChunking(before, rules) && WithoutOverlap(before, rules.overlap) == flat[..|flat| - 1]
      && chunks == Grow(before, flat[|flat| - 1], rules)
  {
    hide IsChunking, WithoutOverlap, Grow;
    var n := |chunks| - 1;
    EveryChunkAdds(chunks, rules, n);
    if |NewPart(chunks, n, rules.overlap)| == 1 {
      ShrinkByChunk(chunks, rules);
      before := chunks[..n];
    } else {
      assert chunks == chunks[..n] + [chunks[n]];
      ShrinkLast(chunks[..n], chunks[n], rules);
      before := chunks[..n] + [chunks[n][..|chunks[n]| - 1]];
    }
  }

  lemma TokensGrow(fragments: seq<Fragment>, f: Fragment, rules: Rules)
    ensures Tokens(fragments, rules) <= Tokens(fragments + [f], rules)
  {
    assert (fragments + [f])[..|fragments|] == fragments;
  }

  /** Two chunkings of the same fragments are the same. */
  lemma {:induction false} ChunkingIsUnique(a: seq<seq<Fragment>>, b: seq<seq<Fragment>>, rules: Rules)
    requires IsChunking(a, rules) && IsChunking(b, rules)
    requires WithoutOverlap(a, rules.overlap) == WithoutOverlap(b, rules.overlap)
    ensures a == b
    decreases |WithoutOverlap(a, rules.overlap)|
  {
    hide IsChunking, Grow;
    if a == [] || b == [] {
      if a != [] { var before := Shrink(a, rules); }
      if b != [] { var before := Shrink(b, rules); }
    } else {
      var beforeA := Shrink(a, rules);
      var beforeB := Shrink(b, rules);
      ChunkingIsUnique(beforeA, beforeB, rules);
    }
  }

  predicate BuiltFrom(chunks: seq<Draft>, groups: seq<seq<Fragment>>) {
    |chunks| == |groups| && forall i :: 0 <= i < |chunks| ==> groups[i] != [] && chunks[i] == BuildChunk(i, groups[i])
  }

  /** The chunks are built from a chunking of the fragments. */
  ghost predicate AreChunksOf(chunks: seq<Draft>, fragments: seq<Fragment>, rules: Rules) {
    exists groups ::
      IsChunking(groups, rules) && WithoutOverlap(groups, rules.overlap) == fragments && BuiltFrom(chunks, groups)
  }

  /** The fragments determine the chunks. */
  lemma ChunksAreDetermined(a: seq<Draft>, b: seq<Draft>, fragments: seq<Fragment>, rules: Rules)
    requires AreChunksOf(a, fragments, rules) && AreChunksOf(b, fragments, rules)
    ensures a == b
  {
    hide IsChunking, WithoutOverlap;
    var g :| IsChunking(g, rules) && WithoutOverlap(g, rules.overlap) == fragments && BuiltFrom(a, g);
    var h :| IsChunking(h, rules) && WithoutOverlap(h, rules.overlap) == fragments && BuiltFrom(b, h);
    ChunkingIsUnique(g, h, rules);
  }

  method ChunkSegments(segments: seq<Segment>, rules: Rules) returns (chunks: seq<Draft>)
    ensures AreChunksOf(chunks, SplitSegments(segments, rules), rules)
  {
    hide IsChunking, WithoutOverlap, Tokens, Overlap, BuildChunk;
    var fragments := SplitAll(segments, rules);
    chunks := [];
    ghost var groups: seq<seq<Fragment>> := [];
    var buffer: seq<Fragment> := [];
    Nothing(rules);
    for i := 0 to |fragments|
      invariant BuiltFrom(chunks, groups)
      invariant if i == 0 then buffer == [] && groups == [] else buffer != [] && IsChunking(groups + [buffer], rules)
      invariant i > 0 ==> WithoutOverlap(groups + [buffer], rules.overlap) == fragments[..i]
    {
      var fragment := fragments[i];
      var candidate := buffer + [fragment];
      assert fragments[..i + 1] == fragments[..i] + [fragment];
      if buffer != [] && Tokens(candidate, rules) > rules.maxTokens {
        Next(groups, buffer, fragment, rules);
        chunks := chunks + [BuildChunk(|chunks|, buffer)];
        groups := groups + [buffer];
        var overlap := if rules.overlap != 0 then Overlap(buffer, rules.overlap) else [];
        NoOverlap(buffer, rules.overlap);
        buffer := overlap + [fragment];
      } else {
        if buffer == [] { Start(groups, buffer, fragment, rules); } else { Extend(groups, buffer, fragment, rules); }
        buffer := candidate;
      }
    }
    assert fragments[..|fragments|] == fragments;
    if buffer != [] {
      chunks := chunks + [BuildChunk(|chunks|, buffer)];
      groups := groups + [buffer];
    }
  }

  lemma Nothing(rules: Rules)
    ensures IsChunking([], rules) && WithoutOverlap([], rules.overlap) == []
  {
  }

  lemma NoOverlap(buffer: seq<Fragment>, k: nat)
    ensures k == 0 ==> Overlap(buffer, k) == []
  {
  }

  lemma SplitFrom(segments: seq<Segment>, i: nat, rules: Rules)
    requires i < |segments|
    ensures SplitSegments(segments[i..], rules)
      == SplitSegment(segments[i], rules) + SplitSegments(segments[i + 1..], rules)
  {
    assert segments[i..][1..] == segments[i + 1..];
  }

  method SplitAll(segments: seq<Segment>, rules: Rules) returns (fragments: seq<Fragment>)
    ensures fragments == SplitSegments(segments, rules)
  {
    hide SplitSegment;
    fragments := [];
    for i := 0 to |segments|
      invariant fragments + SplitSegments(segments[i..], rules) == SplitSegments(segments, rules)
    {
      SplitFrom(segments, i, rules);
      fragments := fragments + SplitSegment(segments[i], rules);
    }
  }
}
