/** Training groups from feedback events. Event, chunk and project ids are numbered in their order. */
module Materializer {
  import opened Wrappers

  datatype Event = Event(
    id: nat, createdAt: int, liked: bool, project: nat, query: string, topkIds: seq<nat>, usedIds: seq<nat>,
    context: string)

  datatype Source = UsedChunk | ExposedUnused | RandomSameProject

  datatype Candidate = Candidate(chunk: nat, text: string, source: Source)

  /** The other fields of a training group repeat those of its event. */
  datatype Group = Group(event: Event, positives: seq<Candidate>, negatives: seq<Candidate>)

  datatype Manifest = Manifest(
    inputEvents: nat, dedupedEvents: nat, trainableEvents: nat, groups: nat, positives: nat, negatives: nat,
    negativeSources: map<Source, nat>, missingTextDrops: nat)

  datatype Dataset = Dataset(manifest: Manifest, rows: seq<Group>)

  /** Known chunk texts, the chunks of each project with their texts, and the key (event, chunk) that
      random negatives are ordered by. */
  datatype Inputs = Inputs(texts: map<nat, string>, pools: map<nat, seq<(nat, string)>>, key: (nat, nat) -> nat)

  // ---- one event per id ----

  function Dedupe(events: seq<Event>): map<nat, Event> {
    if events == [] then map[]
    else
      var n := |events| - 1;
      var (m, e) := (Dedupe(events[..n]), events[n]);
      if e.id !in m || e.createdAt >= m[e.id].createdAt then m[e.id := e] else m
  }

  method DedupeLatestByEventId(events: seq<Event>) returns (deduped: map<nat, Event>)
    ensures deduped == Dedupe(events)
  {
    deduped := map[];
    for i := 0 to |events|
      invariant deduped == Dedupe(events[..i])
    {
      assert events[..i + 1][..i] == events[..i];
      var event := events[i];
      if event.id !in deduped || event.createdAt >= deduped[event.id].createdAt {
        deduped := deduped[event.id := event];
      }
    }
    assert events[..|events|] == events;
  }

  predicate IsLatest(events: seq<Event>, e: Event) {
    e in events && forall o <- events :: o.id == e.id ==> o.createdAt <= e.createdAt
  }

  lemma {:induction false} DedupeKeepsLatest(events: seq<Event>)
    ensures forall id :: id in Dedupe(events) <==> exists e <- events :: e.id == id
    ensures forall id <- Dedupe(events).Keys :: Dedupe(events)[id].id == id && IsLatest(events, Dedupe(events)[id])
  {
    if events != [] {
      var n := |events| - 1;
      var m, e, r := Dedupe(events[..n]), events[n], Dedupe(events);
      DedupeKeepsLatest(events[..n]);
      assert events == events[..n] + [e];
      forall id ensures id in r <==> exists e <- events :: e.id == id {
        if id in r && id != e.id {
          var o :| o in events[..n] && o.id == id;
          assert o in events;
        }
        if o :| o in events && o.id == id { assert o in events[..n] || o == e; }
      }
      forall id <- r.Keys ensures r[id].id == id && IsLatest(events, r[id]) {
        forall o <- events | o.id == id ensures o.createdAt <= r[id].createdAt {
          assert o in events[..n] || o == e;
          assert o in events[..n] ==> id in m;
        }
      }
    }
  }

  /** Which event is kept does not hang on the order of the input. */
  ghost predicate NoLatestTies(events: seq<Event>) {
    forall e <- events, f <- events :: e.id == f.id && IsLatest(events, e) && IsLatest(events, f) ==> e == f
  }

  lemma SameEvents(a: seq<Event>, b: seq<Event>)
    requires multiset(a) == multiset(b)
    ensures |a| == |b| && forall e :: e in a <==> e in b
  {
    assert |multiset(a)| == |multiset(b)|;
    forall e ensures e in a <==> e in b {
      assert e in a <==> e in multiset(a);
      assert e in b <==> e in multiset(b);
    }
  }

  lemma DedupeOfPermutation(a: seq<Event>, b: seq<Event>)
    requires multiset(a) == multiset(b) && NoLatestTies(a)
    ensures Dedupe(a) == Dedupe(b)
  {
    SameEvents(a, b);
    DedupeKeepsLatest(a);
    DedupeKeepsLatest(b);
    var m, n := Dedupe(a), Dedupe(b);
    assert m.Keys == n.Keys;
    forall id <- m.Keys ensures m[id] == n[id] {
      assert IsLatest(a, m[id]) && IsLatest(b, n[id]) && IsLatest(a, n[id]);
    }
  }

  lemma LastLatestIsKept(events: seq<Event>, e: Event)
    requires IsLatest(events + [e], e)
    ensures e.id in Dedupe(events + [e]) && Dedupe(events + [e])[e.id] == e
  {
    assert (events + [e])[..|events|] == events;
    DedupeKeepsLatest(events);
    if e.id in Dedupe(events) { assert Dedupe(events)[e.id] in events + [e]; }
  }

  lemma MoveToEnd(events: seq<Event>, e: Event) returns (rest: seq<Event>)
    requires e in events
    ensures multiset(rest + [e]) == multiset(events)
  {
    var i :| 0 <= i < |events| && events[i] == e;
    rest := events[..i] + events[i + 1..];
    assert events == events[..i] + [e] + events[i + 1..];
  }

  ghost predicate OrderFree(events: seq<Event>) {
    forall other :: multiset(other) == multiset(events) ==> Dedupe(other) == Dedupe(events)
  }

  lemma TiesNeedOrder(events: seq<Event>, e: Event, f: Event)
    requires OrderFree(events) && e.id == f.id && IsLatest(events, e) && IsLatest(events, f)
    ensures e == f
  {
    var r := MoveToEnd(events, e);
    var s := MoveToEnd(events, f);
    SameEvents(events, r + [e]);
    SameEvents(events, s + [f]);
    LastLatestIsKept(r, e);
    LastLatestIsKept(s, f);
    assert Dedupe(r + [e]) == Dedupe(events) == Dedupe(s + [f]);
  }

  /** Deduplication gives the same for every order of the input exactly when no id has two different
      latest events. */
  lemma DedupeIsCanonicalIff(events: seq<Event>)
    ensures OrderFree(events) <==> NoLatestTies(events)
  {
    hide IsLatest, Dedupe;
    if NoLatestTies(events) {
      forall other | multiset(other) == multiset(events) ensures Dedupe(other) == Dedupe(events) {
        DedupeOfPermutation(events, other);
      }
    }
    if OrderFree(events) {
      forall e <- events, f <- events | e.id == f.id && IsLatest(events, e) && IsLatest(events, f) ensures e == f {
        TiesNeedOrder(events, e, f);
      }
    }
  }

  // ---- in order of time ----

  predicate Before(a: Event, b: Event) {
    a.createdAt < b.createdAt || (a.createdAt == b.createdAt && a.id < b.id)
  }

  /** The events are filed under their ids. */
  predicate Filed(m: map<nat, Event>) {
    forall id <- m.Keys :: m[id].id == id
  }

  lemma SomeFirst(m: map<nat, Event>, ids: set<nat>) returns (id: nat)
    requires Filed(m) && ids <= m.Keys && ids != {}
    ensures id in ids && forall o <- ids :: o == id || Before(m[id], m[o])
  {
    var x :| x in ids;
    if ids == {x} {
      id := x;
    } else {
      var y := SomeFirst(m, ids - {x});
      assert forall o <- ids :: o == x || o in ids - {x};
      id := if Before(m[x], m[y]) then x else y;
    }
  }

  function First(m: map<nat, Event>): (id: nat)
    requires Filed(m) && m.Keys != {}
    ensures id in m && forall o <- m.Keys :: o == id || Before(m[id], m[o])
  {
    assert exists id :: id in m && forall o <- m.Keys :: o == id || Before(m[id], m[o]) by {
      var id := SomeFirst(m, m.Keys);
    }
    var id :| id in m && forall o <- m.Keys :: o == id || Before(m[id], m[o]);
    id
  }

  /** The events by creation time, then id. */
  function InOrder(m: map<nat, Event>): (r: seq<Event>)
    requires Filed(m)
    ensures |r| == |m| && forall e :: e in r <==> e.id in m && m[e.id] == e
    decreases |m|
  {
    if m.Keys == {} then []
    else
      var id := First(m);
      var rest := m - {id};
      assert m.Keys == rest.Keys + {id};
      [m[id]] + InOrder(rest)
  }

  ghost predicate Sorted(events: seq<Event>) {
    forall i, j :: 0 <= i < j < |events| ==> Before(events[i], events[j])
  }

  lemma PrependSorted(e: Event, events: seq<Event>)
    requires Sorted(events) && forall x <- events :: Before(e, x)
    ensures Sorted([e] + events)
  {
  }

  lemma {:induction false} InOrderIsSorted(m: map<nat, Event>)
    requires Filed(m)
    ensures Sorted(InOrder(m))
    decreases |m|
  {
    hide Sorted, Before;
    if m.Keys == {} {
      EmptySorted();
    } else {
      var id := First(m);
      var rest := m - {id};
      assert m.Keys == rest.Keys + {id};
      InOrderIsSorted(rest);
      forall e <- InOrder(rest) ensures Before(m[id], e) { assert e.id in rest; }
      PrependSorted(m[id], InOrder(rest));
    }
  }

  lemma EmptySorted()
    ensures Sorted([])
  {
  }

  // ---- one training group ----

  function Known(ids: seq<nat>, texts: map<nat, string>, source: Source): seq<Candidate> {
    if ids == [] then []
    else
      var n := |ids| - 1;
      Known(ids[..n], texts, source) + (if ids[n] in texts then [Candidate(ids[n], texts[ids[n]], source)] else [])
  }

  function Missing(ids: seq<nat>, texts: map<nat, string>): nat {
    if ids == [] then 0 else Missing(ids[..|ids| - 1], texts) + (if ids[|ids| - 1] in texts then 0 else 1)
  }

  function Unused(topkIds: seq<nat>, used: seq<nat>): seq<nat> {
    if topkIds == [] then []
    else
      var n := |topkIds| - 1;
      Unused(topkIds[..n], used) + (if topkIds[n] in used then [] else [topkIds[n]])
  }

  type Pool = seq<(nat, string)>

  function Allowed(pool: Pool, excluded: set<nat>): Pool {
    if pool == [] then [] else (if pool[0].0 in excluded then [] else [pool[0]]) + Allowed(pool[1..], excluded)
  }

  /** Puts a chunk before the first chunk whose key is not smaller. */
  function Insert(c: (nat, string), pool: Pool, key: nat -> nat): (r: Pool)
    ensures multiset(r) == multiset(pool) + multiset{c}
  {
    if pool == [] || key(c.0) <= key(pool[0].0) then [c] + pool
    else
      assert pool == [pool[0]] + pool[1..];
      [pool[0]] + Insert(c, pool[1..], key)
  }

  /** Sorts by key; chunks with equal keys keep their order. */
  function SortByKey(pool: Pool, key: nat -> nat): (r: Pool)
    ensures multiset(r) == multiset(pool)
  {
    if pool == [] then []
    else
      assert pool == [pool[0]] + pool[1..];
      Insert(pool[0], SortByKey(pool[1..], key), key)
  }

  ghost predicate SortedByKey(pool: Pool, key: nat -> nat) {
    forall i, j :: 0 <= i < j < |pool| ==> key(pool[i].0) <= key(pool[j].0)
  }

  lemma InsertSorts(c: (nat, string), pool: Pool, key: nat -> nat)
    requires SortedByKey(pool, key)
    ensures SortedByKey(Insert(c, pool, key), key)
  {
    if pool != [] && key(c.0) > key(pool[0].0) {
      InsertSorts(c, pool[1..], key);
      forall x | x in Insert(c, pool[1..], key) ensures key(pool[0].0) <= key(x.0) {
        InsertMembers(c, pool[1..], key, x);
      }
    }
  }

  lemma InsertMembers(c: (nat, string), pool: Pool, key: nat -> nat, x: (nat, string))
    requires x in Insert(c, pool, key)
    ensures x == c || x in pool
  {
    assert x in multiset(Insert(c, pool, key));
  }

  lemma {:induction false} SortSorts(pool: Pool, key: nat -> nat)
    ensures SortedByKey(SortByKey(pool, key), key)
  {
    if pool != [] {
      SortSorts(pool[1..], key);
      InsertSorts(pool[0], SortByKey(pool[1..], key), key);
    }
  }

  /** Half of the exposed negatives, rounded up, but one at least and three at most. */
  function TargetCount(exposed: nat): nat {
    var half := (exposed + 1) / 2;
    if half > 3 then 3 else if half < 1 then 1 else half
  }

  function Take(pool: Pool, n: nat): Pool { if |pool| < n then pool else pool[..n] }

  function ToNegatives(pool: Pool): (r: seq<Candidate>)
    ensures |r| == |pool|
    ensures forall i :: 0 <= i < |r| ==> r[i] == Candidate(pool[i].0, pool[i].1, RandomSameProject)
  {
    seq(|pool|, i requires 0 <= i < |pool| => Candidate(pool[i].0, pool[i].1, RandomSameProject))
  }

  function RandomNegatives(
    e: Event, pool: Pool, excluded: set<nat>, exposed: nat, key: (nat, nat) -> nat): seq<Candidate> {
    ToNegatives(Take(SortByKey(Allowed(pool, excluded), c => key(e.id, c)), TargetCount(exposed)))
  }

  function ToSet(ids: seq<nat>): set<nat> { set id: nat | id in ids }

  function PoolOf(e: Event, inputs: Inputs): Pool {
    if e.project in inputs.pools then inputs.pools[e.project] else []
  }

  function Negatives(e: Event, inputs: Inputs): seq<Candidate> {
    var unused := Unused(e.topkIds, e.usedIds);
    var exposed := Known(unused, inputs.texts, ExposedUnused);
    exposed + RandomNegatives(e, PoolOf(e, inputs), ToSet(e.usedIds) + ToSet(unused), |exposed|, inputs.key)
  }

  function Drops(e: Event, inputs: Inputs): nat {
    if e.liked then Missing(e.usedIds, inputs.texts) + Missing(Unused(e.topkIds, e.usedIds), inputs.texts) else 0
  }

  function GroupOf(e: Event, inputs: Inputs): Option<Group> {
    var positives, negatives := Known(e.usedIds, inputs.texts, UsedChunk), Negatives(e, inputs);
    if !e.liked || positives == [] || negatives == [] then None else Some(Group(e, positives, negatives))
  }

  method LookUp(ids: seq<nat>, texts: map<nat, string>, source: Source) returns (known: seq<Candidate>, missing: nat)
    ensures known == Known(ids, texts, source) && missing == Missing(ids, texts)
  {
    known, missing := [], 0;
    for i := 0 to |ids|
      invariant known == Known(ids[..i], texts, source) && missing == Missing(ids[..i], texts)
    {
      assert ids[..i + 1][..i] == ids[..i];
      if ids[i] !in texts {
        missing := missing + 1;
        continue;
      }
      known := known + [Candidate(ids[i], texts[ids[i]], source)];
    }
    assert ids[..|ids|] == ids;
  }

  method GroupForEvent(e: Event, inputs: Inputs) returns (group: Option<Group>, drops: nat)
    ensures group == GroupOf(e, inputs) && drops == Drops(e, inputs)
  {
    if !e.liked { return None, 0; }
    var positives, missingUsed := LookUp(e.usedIds, inputs.texts, UsedChunk);
    var unused := Unused(e.topkIds, e.usedIds);
    var negatives, missingUnused := LookUp(unused, inputs.texts, ExposedUnused);
    negatives := negatives
      + RandomNegatives(e, PoolOf(e, inputs), ToSet(e.usedIds) + ToSet(unused), |negatives|, inputs.key);
    group := if positives == [] || negatives == [] then None else Some(Group(e, positives, negatives));
    drops := missingUsed + missingUnused;
  }

  // ---- what a group holds ----

  lemma KnownOrMissing(ids: seq<nat>, texts: map<nat, string>, source: Source)
    ensures |Known(ids, texts, source)| + Missing(ids, texts) == |ids|
    ensures forall c <- Known(ids, texts, source) ::
      (c.chunk in ids && c.source == source && c.chunk in texts && c.text == texts[c.chunk])
  {
  }

  lemma UnusedAreTopk(topkIds: seq<nat>, used: seq<nat>)
    ensures forall id :: id in Unused(topkIds, used) <==> id in topkIds && id !in used
  {
  }

  lemma AllowedAre(pool: Pool, excluded: set<nat>)
    ensures forall c :: c in Allowed(pool, excluded) <==> c in pool && c.0 !in excluded
    ensures forall c :: multiset(Allowed(pool, excluded))[c] == if c.0 in excluded then 0 else multiset(pool)[c]
  {
    if pool != [] {
      AllowedAre(pool[1..], excluded);
      assert pool == [pool[0]] + pool[1..];
    }
  }

  /** Random negatives are chunks of the project that were neither used nor shown: one beside up to two exposed
      negatives, two beside up to four, else three, as far as there are so many; and no chunk left out comes before one
      that was taken. */
  lemma RandomNegativesAre(e: Event, pool: Pool, excluded: set<nat>, exposed: nat, key: (nat, nat) -> nat)
    ensures var (r, allowed) := (RandomNegatives(e, pool, excluded, exposed, key), Allowed(pool, excluded));
      && (var target := if exposed <= 2 then 1 else if exposed <= 4 then 2 else 3;
          |r| == if |allowed| < target then |allowed| else target)
      && (forall c <- r :: c.source == RandomSameProject && c.chunk !in excluded && (c.chunk, c.text) in pool)
      && (forall c <- r, o <- allowed ::
        key(e.id, c.chunk) <= key(e.id, o.0) || Candidate(o.0, o.1, RandomSameProject) in r)
  {
    hide Allowed, SortByKey;
    var allowed, order := Allowed(pool, excluded), (c: nat) => key(e.id, c);
    var sorted, r := SortByKey(allowed, order), RandomNegatives(e, pool, excluded, exposed, key);
    AllowedAre(pool, excluded);
    SortSorts(allowed, order);
    assert |multiset(sorted)| == |multiset(allowed)|;
    forall c <- r ensures c.source == RandomSameProject && c.chunk !in excluded && (c.chunk, c.text) in pool {
      var i :| 0 <= i < |r| && r[i] == c;
      SortedIsAllowed(sorted, allowed, i);
    }
    forall c <- r, o <- allowed
      ensures key(e.id, c.chunk) <= key(e.id, o.0) || Candidate(o.0, o.1, RandomSameProject) in r
    {
      var i :| 0 <= i < |r| && r[i] == c;
      var j := AllowedIsSorted(sorted, allowed, o);
      if j < |r| { assert r[j] == Candidate(o.0, o.1, RandomSameProject); }
    }
  }

  lemma SortedIsAllowed(sorted: Pool, allowed: Pool, i: nat)
    requires multiset(sorted) == multiset(allowed) && i < |sorted|
    ensures sorted[i] in allowed
  {
    assert sorted[i] in multiset(sorted);
  }

  lemma AllowedIsSorted(sorted: Pool, allowed: Pool, o: (nat, string)) returns (j: nat)
    requires multiset(sorted) == multiset(allowed) && o in allowed
    ensures j < |sorted| && sorted[j] == o
  {
    assert o in multiset(sorted);
    j :| 0 <= j < |sorted| && sorted[j] == o;
  }

  function ChunksOf(candidates: seq<Candidate>): seq<nat> {
    seq(|candidates|, i requires 0 <= i < |candidates| => candidates[i].chunk)
  }

  /** The known ids are those with a text, in their order, with that text. */
  lemma {:induction false} KnownAre(ids: seq<nat>, texts: map<nat, string>, source: Source) returns (at: seq<nat>)
    ensures Picks(ids, at, ChunksOf(Known(ids, texts, source)))
    ensures forall i :: 0 <= i < |ids| ==> (i in at <==> ids[i] in texts)
    ensures forall c <- Known(ids, texts, source) :: c.chunk in texts && c == Candidate(c.chunk, texts[c.chunk], source)
  {
    at := [];
    if ids != [] {
      var n := |ids| - 1;
      var init := KnownAre(ids[..n], texts, source);
      var known := Known(ids[..n], texts, source);
      at := PicksAppend(ids[..n], ids[n], init, ChunksOf(known), ids[n] in texts);
      assert ids[..n] + [ids[n]] == ids;
      assert ChunksOf(Known(ids, texts, source)) == ChunksOf(known) + if ids[n] in texts then [ids[n]] else [];
    }
  }

  /** The unused ids are those that were shown and not used, in their order. */
  lemma {:induction false} UnusedAre(topkIds: seq<nat>, used: seq<nat>) returns (at: seq<nat>)
    ensures Picks(topkIds, at, Unused(topkIds, used))
    ensures forall i :: 0 <= i < |topkIds| ==> (i in at <==> topkIds[i] !in used)
  {
    at := [];
    if topkIds != [] {
      var n := |topkIds| - 1;
      var init := UnusedAre(topkIds[..n], used);
      at := PicksAppend(topkIds[..n], topkIds[n], init, Unused(topkIds[..n], used), topkIds[n] !in used);
      assert topkIds[..n] + [topkIds[n]] == topkIds;
    }
  }

  lemma KnownHas(ids: seq<nat>, texts: map<nat, string>, source: Source, c: Candidate)
    ensures c in Known(ids, texts, source)
      <==> c.source == source && c.chunk in ids && c.chunk in texts && c.text == texts[c.chunk]
  {
  }

  /** The chunk belongs to the event's project and was neither used nor shown. */
  ghost predicate Untouched(e: Event, inputs: Inputs, c: (nat, string)) {
    e.project in inputs.pools && c in inputs.pools[e.project] && c.0 !in e.usedIds && c.0 !in e.topkIds
  }

  lemma AllowedIsUntouched(e: Event, inputs: Inputs, c: (nat, string))
    ensures c in Allowed(PoolOf(e, inputs), ToSet(e.usedIds) + ToSet(Unused(e.topkIds, e.usedIds)))
      <==> Untouched(e, inputs, c)
  {
    AllowedAre(PoolOf(e, inputs), ToSet(e.usedIds) + ToSet(Unused(e.topkIds, e.usedIds)));
    UnusedAreTopk(e.topkIds, e.usedIds);
  }

  /** An event makes a group exactly when the answer was liked, some used chunk has a text, and so has some chunk that
      was shown and not used, or the project has a chunk that was neither. */
  lemma GroupIff(e: Event, inputs: Inputs)
    ensures GroupOf(e, inputs).Some? <==>
      && e.liked && (exists id :: id in e.usedIds && id in inputs.texts)
      && (|| (exists id :: id in e.topkIds && id !in e.usedIds && id in inputs.texts)
          || (exists c :: Untouched(e, inputs, c)))
  {
    hide Known, Unused, Allowed, RandomNegatives;
    var unused := Unused(e.topkIds, e.usedIds);
    var excluded := ToSet(e.usedIds) + ToSet(unused);
    var positives, exposed := Known(e.usedIds, inputs.texts, UsedChunk), Known(unused, inputs.texts, ExposedUnused);
    var allowed := Allowed(PoolOf(e, inputs), excluded);
    UnusedAreTopk(e.topkIds, e.usedIds);
    SomeKnown(e.usedIds, inputs.texts, UsedChunk);
    SomeKnown(unused, inputs.texts, ExposedUnused);
    RandomNegativesAre(e, PoolOf(e, inputs), excluded, |exposed|, inputs.key);
    forall c ensures c in allowed <==> Untouched(e, inputs, c) { AllowedIsUntouched(e, inputs, c); }
    if allowed != [] { assert allowed[0] in allowed; }
  }

  lemma SomeKnown(ids: seq<nat>, texts: map<nat, string>, source: Source)
    ensures Known(ids, texts, source) != [] <==> exists id :: id in ids && id in texts
  {
    hide Known;
    var known := Known(ids, texts, source);
    if known != [] {
      KnownHas(ids, texts, source, known[0]);
      assert known[0] in known;
    }
    if id :| id in ids && id in texts { KnownHas(ids, texts, source, Candidate(id, texts[id], source)); }
  }

  /** A group's positives are exactly the used chunks with a text, and its exposed negatives exactly the shown and
      unused ones; its other negatives are chunks of the project that were neither. */
  lemma GroupHolds(e: Event, inputs: Inputs, c: Candidate)
    requires GroupOf(e, inputs).Some?
    ensures var g := GroupOf(e, inputs).value;
      var hasText := c.chunk in inputs.texts && c.text == inputs.texts[c.chunk];
      && g.event == e
      && (c in g.positives <==> c.source == UsedChunk && c.chunk in e.usedIds && hasText)
      && (c in g.negatives ==> c.source != UsedChunk)
      && (c.source == ExposedUnused ==>
           (c in g.negatives <==> c.chunk in e.topkIds && c.chunk !in e.usedIds && hasText))
      && (c.source == RandomSameProject && c in g.negatives ==> Untouched(e, inputs, (c.chunk, c.text)))
  {
    hide Known, Unused, Allowed;
    var unused := Unused(e.topkIds, e.usedIds);
    var exposed := Known(unused, inputs.texts, ExposedUnused);
    UnusedAreTopk(e.topkIds, e.usedIds);
    KnownHas(e.usedIds, inputs.texts, UsedChunk, c);
    KnownHas(unused, inputs.texts, ExposedUnused, c);
    RandomNegativesAre(e, PoolOf(e, inputs), ToSet(e.usedIds) + ToSet(unused), |exposed|, inputs.key);
  }

  /** No chunk is a positive and a negative of one group, every text is the text of its chunk, and every
      used or shown chunk of a liked answer is in the group or counted as dropped. */
  lemma GroupIsConsistent(e: Event, inputs: Inputs)
    requires GroupOf(e, inputs).Some?
    ensures var g, unused := GroupOf(e, inputs).value, Unused(e.topkIds, e.usedIds);
      && (forall p <- g.positives, n <- g.negatives :: p.chunk != n.chunk)
      && (forall p <- g.positives :: p.chunk in e.usedIds && p.source == UsedChunk)
      && (forall n <- g.negatives :: n.chunk !in e.usedIds && (n.source == ExposedUnused <==> n.chunk in e.topkIds))
      && |e.usedIds| + |unused| == |g.positives| + |Known(unused, inputs.texts, ExposedUnused)| + Drops(e, inputs)
  {
    var unused := Unused(e.topkIds, e.usedIds);
    var exposed := Known(unused, inputs.texts, ExposedUnused);
    KnownOrMissing(e.usedIds, inputs.texts, UsedChunk);
    KnownOrMissing(unused, inputs.texts, ExposedUnused);
    UnusedAreTopk(e.topkIds, e.usedIds);
    RandomNegativesAre(e, PoolOf(e, inputs), ToSet(e.usedIds) + ToSet(unused), |exposed|, inputs.key);
  }

  // ---- the dataset ----

  function Groups(events: seq<Event>, inputs: Inputs): seq<Group> {
    if events == [] then []
    else
      var n := |events| - 1;
      Groups(events[..n], inputs) + (match GroupOf(events[n], inputs) case None => [] case Some(g) => [g])
  }

  function AllDrops(events: seq<Event>, inputs: Inputs): nat {
    if events == [] then 0 else AllDrops(events[..|events| - 1], inputs) + Drops(events[|events| - 1], inputs)
  }

  function AllPositives(rows: seq<Group>): seq<Candidate> {
    if rows == [] then [] else AllPositives(rows[..|rows| - 1]) + rows[|rows| - 1].positives
  }

  function AllNegatives(rows: seq<Group>): seq<Candidate> {
    if rows == [] then [] else AllNegatives(rows[..|rows| - 1]) + rows[|rows| - 1].negatives
  }

  function CountSources(candidates: seq<Candidate>): map<Source, nat> {
    if candidates == [] then map[]
    else
      var (m, s) := (CountSources(candidates[..|candidates| - 1]), candidates[|candidates| - 1].source);
      m[s := Get(m, s) + 1]
  }

  function Get(counts: map<Source, nat>, s: Source): nat { if s in counts then counts[s] else 0 }

  lemma DedupeIsFiled(events: seq<Event>)
    ensures Filed(Dedupe(events))
  {
    DedupeKeepsLatest(events);
  }

  function Materialized(events: seq<Event>, inputs: Inputs): Dataset {
    DedupeIsFiled(events);
    var deduped := Dedupe(events);
    var rows := Groups(InOrder(deduped), inputs);
    Dataset(Manifest(|events|, |deduped|, |rows|, |rows|, |AllPositives(rows)|, |AllNegatives(rows)|,
      CountSources(AllNegatives(rows)), AllDrops(InOrder(deduped), inputs)), rows)
  }

  lemma OneMore(events: seq<Event>, i: nat, inputs: Inputs)
    requires i < |events|
    ensures Groups(events[..i + 1], inputs)
         == Groups(events[..i], inputs) + (match GroupOf(events[i], inputs) case None => [] case Some(g) => [g])
    ensures AllDrops(events[..i + 1], inputs) == AllDrops(events[..i], inputs) + Drops(events[i], inputs)
  {
    assert events[..i + 1][..i] == events[..i];
  }

  lemma OneMoreRow(rows: seq<Group>, g: Group)
    ensures AllPositives(rows + [g]) == AllPositives(rows) + g.positives
    ensures AllNegatives(rows + [g]) == AllNegatives(rows) + g.negatives
  {
    assert (rows + [g])[..|rows|] == rows;
  }

  method Materialize(events: seq<Event>, inputs: Inputs) returns (dataset: Dataset)
    ensures dataset == Materialized(events, inputs)
  {
    hide GroupOf, Drops, Groups, AllDrops, AllPositives, AllNegatives, CountSources, Dedupe, Filed, InOrder;
    var deduped := DedupeLatestByEventId(events);
    DedupeIsFiled(events);
    var ordered := InOrder(deduped);
    Nothing(inputs);
    var rows: seq<Group> := [];
    var trainable, positives, negatives, drops := 0, 0, 0, 0;
    var sources: map<Source, nat> := map[];
    for i := 0 to |ordered|
      invariant rows == Groups(ordered[..i], inputs) && trainable == |rows|
      invariant positives == |AllPositives(rows)| && negatives == |AllNegatives(rows)|
      invariant sources == CountSources(AllNegatives(rows)) && drops == AllDrops(ordered[..i], inputs)
    {
      OneMore(ordered, i, inputs);
      var group, missing := GroupForEvent(ordered[i], inputs);
      drops := drops + missing;
      if group.Some? {
        var g := group.value;
        trainable := trainable + 1;
        positives := positives + |g.positives|;
        negatives := negatives + |g.negatives|;
        sources := AddSources(sources, AllNegatives(rows), g.negatives);
        OneMoreRow(rows, g);
        rows := rows + [g];
      }
    }
    assert ordered[..|ordered|] == ordered;
    dataset := Dataset(Manifest(|events|, |deduped|, trainable, |rows|, positives, negatives, sources, drops), rows);
  }

  lemma Nothing(inputs: Inputs)
    ensures Groups([], inputs) == [] && AllDrops([], inputs) == 0
    ensures AllPositives([]) == [] && AllNegatives([]) == [] && CountSources([]) == map[]
  {
  }

  lemma OneMoreSource(before: seq<Candidate>, negatives: seq<Candidate>, i: nat)
    requires i < |negatives|
    ensures var (m, s) := (CountSources(before + negatives[..i]), negatives[i].source);
      CountSources(before + negatives[..i + 1]) == m[s := Get(m, s) + 1]
  {
    assert (before + negatives[..i + 1])[..|before| + i] == before + negatives[..i];
  }

  method AddSources(counts: map<Source, nat>, ghost before: seq<Candidate>, negatives: seq<Candidate>)
    returns (r: map<Source, nat>)
    requires counts == CountSources(before)
    ensures r == CountSources(before + negatives)
  {
    hide CountSources;
    r := counts;
    assert before + negatives[..0] == before;
    for i := 0 to |negatives|
      invariant r == CountSources(before + negatives[..i])
    {
      var s := negatives[i].source;
      OneMoreSource(before, negatives, i);
      r := r[s := Get(r, s) + 1];
    }
    assert negatives[..|negatives|] == negatives;
  }

  /** Each source's count is the number of its negatives, and the counts add up to all negatives. */
  lemma SourcesAddUp(candidates: seq<Candidate>)
    ensures var m := CountSources(candidates);
      Get(m, UsedChunk) + Get(m, ExposedUnused) + Get(m, RandomSameProject) == |candidates|
  {
    if candidates != [] {
      SourcesAddUp(candidates[..|candidates| - 1]);
      match candidates[|candidates| - 1].source
      case UsedChunk =>
      case ExposedUnused =>
      case RandomSameProject =>
    }
  }

  lemma NegativesCountAddsUp(events: seq<Event>, inputs: Inputs)
    ensures var m := Materialized(events, inputs).manifest;
      && Get(m.negativeSources, ExposedUnused) + Get(m.negativeSources, RandomSameProject) == m.negatives
      && UsedChunk !in m.negativeSources
  {
    hide GroupOf, Drops, Groups, AllDrops, AllPositives, AllNegatives, CountSources, Dedupe, InOrder, Filed;
    DedupeIsFiled(events);
    var rows := Groups(InOrder(Dedupe(events)), inputs);
    SourcesAddUp(AllNegatives(rows));
    forall c <- AllNegatives(rows) ensures c.source != UsedChunk {
      NegativesAreUnused(InOrder(Dedupe(events)), inputs, c);
    }
    CountedSources(AllNegatives(rows));
  }

  lemma NegativesAreUnused(events: seq<Event>, inputs: Inputs, c: Candidate)
    requires c in AllNegatives(Groups(events, inputs))
    ensures c.source != UsedChunk
  {
    var g := GroupWith(Groups(events, inputs), c);
    RowsAreGroups(events, inputs);
    NegativeSources(g.event, inputs);
  }

  lemma NegativeSources(e: Event, inputs: Inputs)
    ensures forall n <- Negatives(e, inputs) :: n.source != UsedChunk
  {
    KnownOrMissing(Unused(e.topkIds, e.usedIds), inputs.texts, ExposedUnused);
  }

  lemma CountedSources(candidates: seq<Candidate>)
    ensures forall s <- CountSources(candidates).Keys :: exists c <- candidates :: c.source == s
  {
    if candidates != [] {
      CountedSources(candidates[..|candidates| - 1]);
      assert candidates[|candidates| - 1] in candidates;
      assert forall c <- candidates[..|candidates| - 1] :: c in candidates;
    }
  }

  lemma GroupWith(rows: seq<Group>, c: Candidate) returns (g: Group)
    requires c in AllNegatives(rows)
    ensures g in rows && c in g.negatives
  {
    var n := |rows| - 1;
    if c in rows[n].negatives { g := rows[n]; } else { g := GroupWith(rows[..n], c); }
  }

  lemma RowsAreGroups(events: seq<Event>, inputs: Inputs)
    ensures forall g <- Groups(events, inputs) :: g.event in events && GroupOf(g.event, inputs) == Some(g)
  {
    if events != [] {
      RowsAreGroups(events[..|events| - 1], inputs);
      assert events[|events| - 1] in events && forall e <- events[..|events| - 1] :: e in events;
    }
  }

  /** The rows are the groups of the kept events, one each, by creation time and then id. */
  lemma RowsAre(events: seq<Event>, inputs: Inputs)
    ensures var (rows, kept) := (Materialized(events, inputs).rows, Dedupe(events));
      && (forall g :: g in rows <==> exists id :: id in kept && GroupOf(kept[id], inputs) == Some(g))
      && RowsInOrder(rows)
  {
    hide GroupOf, Drops, Groups, AllDrops, AllPositives, AllNegatives, CountSources, Dedupe, Before, InOrder;
    DedupeIsFiled(events);
    var kept := Dedupe(events);
    InOrderIsSorted(kept);
    GroupsAre(InOrder(kept), inputs);
    GroupsInOrder(InOrder(kept), inputs);
    forall g
      ensures g in Groups(InOrder(kept), inputs) <==> exists id :: id in kept && GroupOf(kept[id], inputs) == Some(g)
    {
      if id :| id in kept && GroupOf(kept[id], inputs) == Some(g) { assert kept[id] in InOrder(kept); }
    }
  }

  lemma {:induction false} GroupsAre(events: seq<Event>, inputs: Inputs)
    ensures forall g :: g in Groups(events, inputs) <==> exists e <- events :: GroupOf(e, inputs) == Some(g)
  {
    hide GroupOf;
    if events != [] {
      GroupsAre(events[..|events| - 1], inputs);
      assert events == events[..|events| - 1] + [events[|events| - 1]];
    }
  }

  ghost predicate RowsInOrder(rows: seq<Group>) {
    forall i, j :: 0 <= i < j < |rows| ==>
      var (a, b) := (rows[i].event, rows[j].event);
      a.createdAt < b.createdAt || (a.createdAt == b.createdAt && a.id < b.id)
  }

  lemma {:induction false} GroupsInOrder(events: seq<Event>, inputs: Inputs)
    requires Sorted(events)
    ensures RowsInOrder(Groups(events, inputs))
  {
    hide GroupOf, RowsInOrder, Before;
    NoRows();
    if events != [] {
      var n := |events| - 1;
      var rows := Groups(events[..n], inputs);
      GroupsInOrder(events[..n], inputs);
      RowsAreGroups(events[..n], inputs);
      if GroupOf(events[n], inputs).Some? { GroupEvent(events[n], inputs); }
      forall i | 0 <= i < |rows| ensures Before(rows[i].event, events[n]) {
        assert rows[i] in rows;
        var k :| 0 <= k < n && events[k] == rows[i].event;
      }
      OneMoreInOrder(rows, events[n], GroupOf(events[n], inputs));
    }
  }

  lemma NoRows()
    ensures RowsInOrder([])
  {
  }

  lemma OneMoreInOrder(rows: seq<Group>, e: Event, g: Option<Group>)
    requires RowsInOrder(rows) && forall i :: 0 <= i < |rows| ==> Before(rows[i].event, e)
    requires g.Some? ==> g.value.event == e
    ensures RowsInOrder(rows + match g { case None => [] case Some(x) => [x] })
  {
  }

  lemma GroupEvent(e: Event, inputs: Inputs)
    requires GroupOf(e, inputs).Some?
    ensures GroupOf(e, inputs).value.event == e
  {
  }

  // ---- when the dataset does not hang on the order of the input ----

  /** Either event makes the same rows and counts: they are the same, or neither makes a group and both drop as
      many chunks. */
  predicate Alike(e: Event, f: Event, inputs: Inputs) {
    e == f || (GroupOf(e, inputs).None? && GroupOf(f, inputs).None? && Drops(e, inputs) == Drops(f, inputs))
  }

  ghost predicate TiesAreAlike(events: seq<Event>, inputs: Inputs) {
    forall e <- events, f <- events ::
      e.id == f.id && IsLatest(events, e) && IsLatest(events, f) ==> Alike(e, f, inputs)
  }

  /** The same ids, with the same times. */
  predicate SameTimes(m: map<nat, Event>, n: map<nat, Event>) {
    Filed(m) && Filed(n) && m.Keys == n.Keys && forall id <- m.Keys :: m[id].createdAt == n[id].createdAt
  }

  lemma SameFirst(m: map<nat, Event>, n: map<nat, Event>)
    requires SameTimes(m, n) && m.Keys != {}
    ensures First(m) == First(n)
  {
    var i, j := First(m), First(n);
    assert i in n && j in m;
  }

  ghost predicate Aligned(a: seq<Event>, b: seq<Event>, m: map<nat, Event>, n: map<nat, Event>) {
    && |a| == |b|
    && forall i :: 0 <= i < |a| ==> a[i].id in m && a[i].id in n && a[i] == m[a[i].id] && b[i] == n[a[i].id]
  }

  lemma Peel(m: map<nat, Event>)
    requires Filed(m) && m.Keys != {}
    ensures var rest := m - {First(m)};
      Filed(rest) && m.Keys == rest.Keys + {First(m)} && |rest| < |m| && InOrder(m) == [m[First(m)]] + InOrder(rest)
  {
    hide First;
    assert m.Keys == (m - {First(m)}).Keys + {First(m)};
    assert |m| == |m.Keys| && |m - {First(m)}| == |(m - {First(m)}).Keys|;
  }

  lemma AlignMore(a: seq<Event>, b: seq<Event>, m: map<nat, Event>, n: map<nat, Event>, id: nat)
    requires id in m && id in n && m[id].id == id && Aligned(a, b, m - {id}, n - {id})
    ensures Aligned([m[id]] + a, [n[id]] + b, m, n)
  {
  }

  lemma FiledAt(m: map<nat, Event>, id: nat)
    requires Filed(m) && id in m
    ensures m[id].id == id
  {
  }

  lemma AlignNone(m: map<nat, Event>, n: map<nat, Event>)
    requires m.Keys == {} == n.Keys
    ensures Filed(m) && Filed(n) && Aligned(InOrder(m), InOrder(n), m, n)
  {
  }

  lemma PeelTimes(m: map<nat, Event>, n: map<nat, Event>, id: nat)
    requires SameTimes(m, n)
    ensures SameTimes(m - {id}, n - {id})
  {
  }

  /** Ids and times alone decide the order. */
  lemma {:induction false} SameOrder(m: map<nat, Event>, n: map<nat, Event>)
    requires SameTimes(m, n)
    ensures Aligned(InOrder(m), InOrder(n), m, n)
    decreases |m|
  {
    hide InOrder, First, Before, Aligned, Filed;
    if m.Keys == {} {
      AlignNone(m, n);
    } else {
      SameFirst(m, n);
      Peel(m);
      Peel(n);
      var id := First(m);
      PeelTimes(m, n, id);
      FiledAt(m, id);
      SameOrder(m - {id}, n - {id});
      AlignMore(InOrder(m - {id}), InOrder(n - {id}), m, n, id);
    }
  }

  lemma {:induction false} AlikeGroups(a: seq<Event>, b: seq<Event>, inputs: Inputs)
    requires |a| == |b| && forall i :: 0 <= i < |a| ==> Alike(a[i], b[i], inputs)
    ensures Groups(a, inputs) == Groups(b, inputs) && AllDrops(a, inputs) == AllDrops(b, inputs)
  {
    hide GroupOf, Drops;
    if a != [] { AlikeGroups(a[..|a| - 1], b[..|b| - 1], inputs); }
  }

  lemma AlikeMaterialize(a: seq<Event>, b: seq<Event>, inputs: Inputs)
    requires |a| == |b| && SameTimes(Dedupe(a), Dedupe(b))
    requires forall id <- Dedupe(a).Keys :: Alike(Dedupe(a)[id], Dedupe(b)[id], inputs)
    ensures Materialized(a, inputs) == Materialized(b, inputs)
  {
    hide Dedupe, Alike, InOrder, Groups, AllDrops;
    var m, n := Dedupe(a), Dedupe(b);
    SameOrder(m, n);
    AlikeGroups(InOrder(m), InOrder(n), inputs);
    assert |m| == |m.Keys| && |n| == |n.Keys|;
  }

  lemma PermutedTimes(a: seq<Event>, b: seq<Event>, inputs: Inputs)
    requires multiset(a) == multiset(b) && TiesAreAlike(a, inputs)
    ensures SameTimes(Dedupe(a), Dedupe(b))
    ensures forall id <- Dedupe(a).Keys :: Alike(Dedupe(a)[id], Dedupe(b)[id], inputs)
  {
    hide Alike;
    SameEvents(a, b);
    DedupeKeepsLatest(a);
    DedupeKeepsLatest(b);
    var m, n := Dedupe(a), Dedupe(b);
    assert m.Keys == n.Keys;
    forall id <- m.Keys ensures m[id].createdAt == n[id].createdAt && Alike(m[id], n[id], inputs) {
      assert IsLatest(a, m[id]) && IsLatest(b, n[id]) && IsLatest(a, n[id]);
    }
  }

  lemma DedupeAppend(events: seq<Event>, e: Event)
    ensures var m := Dedupe(events);
      Dedupe(events + [e]) == if e.id !in m || e.createdAt >= m[e.id].createdAt then m[e.id := e] else m
  {
    assert (events + [e])[..|events|] == events;
  }

  /** Two orders of the input that differ in which of two events comes last. */
  lemma LastTwo(rest: seq<Event>, e: Event, f: Event)
    requires e.id == f.id && IsLatest(rest + [e, f], e) && IsLatest(rest + [e, f], f)
    ensures Dedupe(rest + [e, f]) == Dedupe(rest)[e.id := f]
    ensures Dedupe(rest + [f, e]) == Dedupe(rest)[e.id := e]
    ensures e.createdAt == f.createdAt
  {
    hide Dedupe;
    assert rest + [e, f] == rest + [e] + [f] && rest + [f, e] == rest + [f] + [e];
    assert e in rest + [e, f] && f in rest + [e, f];
    DedupeAppend(rest, e);
    DedupeAppend(rest, f);
    DedupeAppend(rest + [e], f);
    DedupeAppend(rest + [f], e);
    DedupeKeepsLatest(rest);
    if e.id in Dedupe(rest) { assert Dedupe(rest)[e.id] in rest + [e, f]; }
  }

  lemma EveryGroupIsThere(events: seq<Event>, inputs: Inputs, e: Event)
    requires e in events && GroupOf(e, inputs).Some?
    ensures GroupOf(e, inputs).value in Groups(events, inputs)
  {
    hide GroupOf;
    var n := |events| - 1;
    if e != events[n] {
      assert e in events[..n] by { assert events == events[..n] + [events[n]]; }
      EveryGroupIsThere(events[..n], inputs, e);
    }
  }

  lemma {:induction false} DropsDiffer(a: seq<Event>, b: seq<Event>, k: nat, inputs: Inputs)
    requires |a| == |b| && k < |a| && forall i :: 0 <= i < |a| && i != k ==> a[i] == b[i]
    ensures AllDrops(a, inputs) - Drops(a[k], inputs) == AllDrops(b, inputs) - Drops(b[k], inputs)
  {
    hide Drops;
    var n := |a| - 1;
    if k < n { DropsDiffer(a[..n], b[..n], k, inputs); } else { assert a[..n] == b[..n]; }
  }

  /** If it makes no difference which of two events is kept, they are alike. */
  lemma KeptTellsApart(m: map<nat, Event>, e: Event, f: Event, inputs: Inputs)
    requires Filed(m) && e.id == f.id && e.createdAt == f.createdAt
    requires Filed(m[e.id := e]) && Filed(m[e.id := f])
    requires Groups(InOrder(m[e.id := e]), inputs) == Groups(InOrder(m[e.id := f]), inputs)
    requires AllDrops(InOrder(m[e.id := e]), inputs) == AllDrops(InOrder(m[e.id := f]), inputs)
    ensures Alike(e, f, inputs)
  {
    hide GroupOf, Drops, Groups, AllDrops, InOrder;
    var x, y := m[e.id := e], m[e.id := f];
    var a, b := InOrder(x), InOrder(y);
    SameOrder(x, y);
    RowsAreGroups(a, inputs);
    RowsAreGroups(b, inputs);
    if GroupOf(e, inputs).Some? {
      EveryGroupIsThere(a, inputs, e);
      GroupsHoldTheirEvent(e, inputs);
    } else if GroupOf(f, inputs).Some? {
      EveryGroupIsThere(b, inputs, f);
      GroupsHoldTheirEvent(f, inputs);
    } else {
      assert e in a;
      var k :| 0 <= k < |a| && a[k] == e;
      forall i | 0 <= i < |a| && i != k ensures a[i] == b[i] {
        if a[i].id == e.id { InOrderIsSorted(x); SameIdOnce(a, i, k); }
      }
      DropsDiffer(a, b, k, inputs);
    }
  }

  lemma GroupsHoldTheirEvent(e: Event, inputs: Inputs)
    ensures GroupOf(e, inputs).Some? ==> GroupOf(e, inputs).value.event == e
  {
  }

  lemma SameIdOnce(a: seq<Event>, i: nat, k: nat)
    requires Sorted(a) && i < |a| && k < |a| && i != k
    ensures a[i] != a[k]
  {
  }

  ghost predicate SameDataset(events: seq<Event>, inputs: Inputs) {
    forall other :: multiset(other) == multiset(events) ==> Materialized(other, inputs) == Materialized(events, inputs)
  }

  lemma SameDatasetMeansAlike(events: seq<Event>, e: Event, f: Event, inputs: Inputs)
    requires SameDataset(events, inputs) && e.id == f.id && IsLatest(events, e) && IsLatest(events, f)
    ensures Alike(e, f, inputs)
  {
    hide Dedupe, Materialized, IsLatest, Alike, Filed;
    LatestIsThere(events, e);
    LatestIsThere(events, f);
    if e != f {
      var one := MoveToEnd(events, e);
      var rest := BeforeBoth(events, one, e, f);
      var a, b := rest + [e, f], rest + [f, e];
      LatestOfPermutation(events, a, e);
      LatestOfPermutation(events, a, f);
      LastTwo(rest, e, f);
      DedupeIsFiled(rest);
      DedupeIsFiled(a);
      DedupeIsFiled(b);
      assert Materialized(a, inputs) == Materialized(events, inputs) == Materialized(b, inputs);
      SameParts(a, b, inputs);
      KeptTellsApart(Dedupe(rest), e, f, inputs);
    } else {
      SameIsAlike(e, inputs);
    }
  }

  lemma SameIsAlike(e: Event, inputs: Inputs)
    ensures Alike(e, e, inputs)
  {
  }

  lemma LatestIsThere(events: seq<Event>, e: Event)
    requires IsLatest(events, e)
    ensures e in events
  {
  }

  lemma LatestOfPermutation(a: seq<Event>, b: seq<Event>, e: Event)
    requires multiset(a) == multiset(b) && IsLatest(a, e)
    ensures IsLatest(b, e)
  {
    SameEvents(a, b);
  }

  lemma SameParts(a: seq<Event>, b: seq<Event>, inputs: Inputs)
    requires Filed(Dedupe(a)) && Filed(Dedupe(b)) && Materialized(a, inputs) == Materialized(b, inputs)
    ensures Groups(InOrder(Dedupe(a)), inputs) == Groups(InOrder(Dedupe(b)), inputs)
    ensures AllDrops(InOrder(Dedupe(a)), inputs) == AllDrops(InOrder(Dedupe(b)), inputs)
  {
    hide Dedupe, InOrder, Groups, AllDrops;
  }

  lemma BeforeBoth(events: seq<Event>, one: seq<Event>, e: Event, f: Event) returns (rest: seq<Event>)
    requires multiset(one + [e]) == multiset(events) && f in events && e != f
    ensures multiset(rest + [e, f]) == multiset(events) && multiset(rest + [f, e]) == multiset(events)
  {
    assert f in multiset(one + [e]);
    assert f in one by { assert f in one + [e]; }
    rest := MoveToEnd(one, f);
    assert rest + [e, f] == rest + [e] + [f] && rest + [f, e] == rest + [f] + [e];
  }

  /** The dataset is the same, in every row and count, for every order of the input exactly when any two latest
      events of one id are the same, or make no group and drop as many chunks. */
  lemma MaterializeIsCanonicalIff(events: seq<Event>, inputs: Inputs)
    ensures SameDataset(events, inputs) <==> TiesAreAlike(events, inputs)
  {
    hide Materialized, Alike, IsLatest, Dedupe;
    if TiesAreAlike(events, inputs) {
      forall other | multiset(other) == multiset(events)
        ensures Materialized(other, inputs) == Materialized(events, inputs)
      {
        SameEvents(events, other);
        PermutedTimes(events, other, inputs);
        AlikeMaterialize(events, other, inputs);
      }
    }
    if SameDataset(events, inputs) {
      forall e <- events, f <- events | e.id == f.id && IsLatest(events, e) && IsLatest(events, f)
        ensures Alike(e, f, inputs)
      {
        SameDatasetMeansAlike(events, e, f, inputs);
      }
    }
  }

  /** So permuting the input changes nothing when no id has two different latest events. */
  lemma MaterializeIsCanonical(events: seq<Event>, other: seq<Event>, inputs: Inputs)
    requires multiset(other) == multiset(events) && NoLatestTies(events)
    ensures Materialized(other, inputs) == Materialized(events, inputs)
  {
    hide Materialized, IsLatest, GroupOf, Drops;
    assert TiesAreAlike(events, inputs);
    MaterializeIsCanonicalIff(events, inputs);
  }

  /** Two events with one id and one time, of which only the first was liked: whichever comes last decides
      whether there is a training group. */
  lemma OrderCanMatter()
    ensures var inputs := Inputs(map[1 := "used", 2 := "shown"], map[], (e, c) => c);
      var e, f := Event(1, 5, true, 0, "q", [1, 2], [1], ""), Event(1, 5, false, 0, "q", [1, 2], [1], "");
      |Materialized([f, e], inputs).rows| == 1 && Materialized([e, f], inputs).rows == []
  {
    var inputs := Inputs(map[1 := "used", 2 := "shown"], map[], (e, c) => c);
    var e, f := Event(1, 5, true, 0, "q", [1, 2], [1], ""), Event(1, 5, false, 0, "q", [1, 2], [1], "");
    TwoOfOneId(f, e, inputs);
    TwoOfOneId(e, f, inputs);
    ExampleGroup(inputs, e);
    hide GroupOf;
    OneGroup(e, inputs);
    OneGroup(f, inputs);
  }

  lemma ExampleGroup(inputs: Inputs, e: Event)
    requires inputs.texts == map[1 := "used", 2 := "shown"] && e.liked && e.topkIds == [1, 2] && e.usedIds == [1]
    ensures GroupOf(e, inputs).Some?
  {
    hide Known, Unused, RandomNegatives;
    OneKnown(1, inputs.texts, UsedChunk);
    OneKnown(2, inputs.texts, ExposedUnused);
    SecondIsUnused();
  }

  lemma OneKnown(id: nat, texts: map<nat, string>, source: Source)
    requires id in texts
    ensures Known([id], texts, source) == [Candidate(id, texts[id], source)]
  {
    assert [id][..0] == [];
  }

  lemma SecondIsUnused()
    ensures Unused([1, 2], [1]) == [2]
  {
    assert [1, 2][..1] == [1] && [1][..0] == [];
  }

  lemma OneGroup(e: Event, inputs: Inputs)
    ensures Groups([e], inputs) == match GroupOf(e, inputs) { case None => [] case Some(g) => [g] }
    ensures !e.liked ==> GroupOf(e, inputs).None?
  {
    assert [e][..0] == [];
  }

  /** Of two events with one id and one time the second is kept. */
  lemma TwoOfOneId(e: Event, f: Event, inputs: Inputs)
    requires e.id == f.id && e.createdAt == f.createdAt
    ensures Dedupe([e, f]) == map[f.id := f] && Materialized([e, f], inputs).rows == Groups([f], inputs)
  {
    DedupeAppend([], e);
    DedupeAppend([e], f);
    assert [] + [e] == [e] && [e] + [f] == [e, f] && Dedupe([]) == map[];
    var m := map[f.id := f];
    assert First(m) == f.id && InOrder(m - {f.id}) == [];
    assert InOrder(m) == [f];
  }

  /** Two events that were both not liked make no difference, though only one of them is kept. */
  lemma TiesNeedNotMatter(inputs: Inputs)
    ensures var e, f := Event(1, 5, false, 0, "a", [], [], ""), Event(1, 5, false, 0, "b", [], [], "");
      Dedupe([e, f]) != Dedupe([f, e]) && Materialized([e, f], inputs) == Materialized([f, e], inputs)
  {
    hide Materialized, Groups, InOrder, Dedupe;
    var e, f := Event(1, 5, false, 0, "a", [], [], ""), Event(1, 5, false, 0, "b", [], [], "");
    TwoOfOneId(e, f, inputs);
    TwoOfOneId(f, e, inputs);
    assert map[1 := e][1] != map[1 := f][1];
    AlikeMaterialize([e, f], [f, e], inputs);
  }
}
