/**
 Order and waiting time in the admission controller: who is granted next, and after how
 many slot releases a waiter has certainly left its queue.
 */
module AdmissionFairness {
  import opened Admission

  ghost function Queue(s: State, w: Workload): seq<nat> {
    if w == Search then s.search else s.video
  }

  ghost function Position(q: seq<nat>, x: nat): (p: nat)
    requires x in q
    ensures p < |q| && q[p] == x
  {
    if q[0] == x then 0 else 1 + Position(q[1..], x)
  }

  lemma PositionUnique(q: seq<nat>, i: nat)
    requires Distinct(q) && i < |q|
    ensures Position(q, q[i]) == i
  {
    var p := Position(q, q[i]);
    if p < i || i < p { assert false; }
  }

  function Releases(steps: seq<Step>): nat {
    if steps == [] then 0 else (if steps[0].FinishRelease? then 1 else 0) + Releases(steps[1..])
  }

  function SearchArrivals(steps: seq<Step>): nat {
    if steps == [] then 0 else (if steps[0] == Acquire(Search) then 1 else 0) + SearchArrivals(steps[1..])
  }

  // ---- what one step does to the queues ----

  /** With waiters present all slots are taken, so a release frees exactly one slot and grants it
      to the oldest search waiter, or to the oldest video waiter when no search waits. */
  lemma ReleaseGrantsHead(s: State)
    requires Inv(s) && s.owed > 0 && HasWaiters(s)
    ensures var u := s.(running := s.running - 1, owed := s.owed - 1);
      ReleaseSection(s) == GrantHead(u)
  {
    var u := s.(running := s.running - 1, owed := s.owed - 1);
    assert GrantWaiters(u) == GrantWaiters(GrantHead(u));
  }

  lemma AcquireOnlyQueues(s: State, w: Workload)
    requires Inv(s) && HasWaiters(s) && w != Legacy
    ensures AcquireSection(s, w) == Enqueue(s, w)
  {
  }

  lemma RemoveCloses(q: seq<nat>, t: nat, x: nat)
    requires Distinct(q) && x in q && x != t
    ensures x in Remove(q, t) && Position(Remove(q, t), x) <= Position(q, x)
  {
    RemoveMembers(q, t);
    if q[0] != t && q[0] != x { RemoveCloses(q[1..], t, x); }
  }

  lemma AppendKeepsPosition(q: seq<nat>, x: nat, n: nat)
    requires x in q
    ensures Position(q + [n], x) == Position(q, x)
  {
    if q[0] != x { assert (q + [n])[1..] == q[1..] + [n]; AppendKeepsPosition(q[1..], x, n); }
  }

  lemma RemoveShrinks(q: seq<nat>, t: nat)
    ensures |Remove(q, t)| <= |q|
  {
  }

  /** A waiter never moves back in its queue, and a release of a slot moves every search waiter up. */
  lemma SearchMovesUp(s: State, step: Step, x: nat)
    requires Inv(s) && Enabled(s, step) && x in s.search && x in Apply(s, step).search
    ensures Position(Apply(s, step).search, x) + (if step.FinishRelease? then 1 else 0) <= Position(s.search, x)
  {
    match step
    case Acquire(w) =>
      if w != Legacy { AcquireOnlyQueues(s, w); AppendKeepsPosition(s.search, x, s.next); }
    case Withdraw(t) => if t != x { RemoveCloses(s.search, t, x); } else { RemoveMembers(s.search, t); }
    case FinishRelease => ReleaseGrantsHead(s);
    case TryLegacy =>
    case GiveUp(_) =>
    case Wake(_) =>
    case BeginRelease(_) =>
  }

  lemma VideoMovesUp(s: State, step: Step, x: nat)
    requires Inv(s) && Enabled(s, step) && x in s.video && x in Apply(s, step).video
    ensures var r := Apply(s, step);
      Position(r.video, x) + |r.search| + (if step.FinishRelease? then 1 else 0)
      <= Position(s.video, x) + |s.search| + (if step == Acquire(Search) then 1 else 0)
  {
    match step
    case Acquire(w) =>
      if w != Legacy { AcquireOnlyQueues(s, w); AppendKeepsPosition(s.video, x, s.next); }
    case Withdraw(t) =>
      RemoveShrinks(s.search, t);
      if t != x { RemoveCloses(s.video, t, x); } else { RemoveMembers(s.video, t); }
    case FinishRelease => ReleaseGrantsHead(s);
    case TryLegacy =>
    case GiveUp(_) =>
    case Wake(_) =>
    case BeginRelease(_) =>
  }

  /** Nothing re-enters a queue: tickets are never forgotten, keep their workload, and once an
      entry stopped waiting it never waits again. */
  lemma TicketsSettle(s: State, step: Step, x: nat)
    requires Inv(s) && Enabled(s, step) && x in s.tickets
    ensures var r := Apply(s, step);
      && x in r.tickets && r.tickets[x].workload == s.tickets[x].workload
      && (s.tickets[x].entry != Waiting ==> r.tickets[x].entry == s.tickets[x].entry)
  {
    match step
    case Acquire(w) =>
      if w != Legacy && !CanGrantImmediately(s) { assert AcquireSection(s, w) == Enqueue(s, w); }
    case FinishRelease => if HasWaiters(s) { ReleaseGrantsHead(s); }
    case Withdraw(_) =>
    case TryLegacy =>
    case GiveUp(_) =>
    case Wake(_) =>
    case BeginRelease(_) =>
  }

  /** Only a slot release grants a waiting entry, and then it is the head of the search queue, or
      the head of the video queue while no search waits. */
  lemma GrantsInOrder(s: State, step: Step, x: nat)
    requires Inv(s) && Enabled(s, step) && x in s.tickets && x in Apply(s, step).tickets
    requires s.tickets[x].entry == Waiting && Apply(s, step).tickets[x].entry == Granted
    ensures step.FinishRelease?
    ensures if s.search != [] then x == s.search[0] else s.video != [] && x == s.video[0]
  {
    TicketsSettle(s, step, x);
    match step
    case Acquire(w) => if w != Legacy { AcquireOnlyQueues(s, w); }
    case FinishRelease => ReleaseGrantsHead(s);
    case Withdraw(_) =>
    case TryLegacy =>
    case GiveUp(_) =>
    case Wake(_) =>
    case BeginRelease(_) =>
  }

  // ---- waiting over whole runs ----

  lemma SearchProgress(s: State, steps: seq<Step>, x: nat)
    requires Inv(s) && Feasible(s, steps) && x in s.tickets && s.tickets[x].workload == Search
    requires x in Run(s, steps).search
    ensures x in s.search && Position(Run(s, steps).search, x) + Releases(steps) <= Position(s.search, x)
    decreases |steps|
  {
    if steps != [] {
      StepKeepsInv(s, steps[0]);
      TicketsSettle(s, steps[0], x);
      SearchProgress(Apply(s, steps[0]), steps[1..], x);
      SearchMovesUp(s, steps[0], x);
    }
  }

  lemma VideoProgress(s: State, steps: seq<Step>, x: nat)
    requires Inv(s) && Feasible(s, steps) && x in s.tickets && s.tickets[x].workload == VideoPreprocess
    requires x in Run(s, steps).video
    ensures x in s.video
    ensures var r := Run(s, steps);
      Position(r.video, x) + |r.search| + Releases(steps)
      <= Position(s.video, x) + |s.search| + SearchArrivals(steps)
    decreases |steps|
  {
    if steps != [] {
      StepKeepsInv(s, steps[0]);
      TicketsSettle(s, steps[0], x);
      VideoProgress(Apply(s, steps[0]), steps[1..], x);
      VideoMovesUp(s, steps[0], x);
    }
  }

  lemma TicketsSettleOverRuns(s: State, steps: seq<Step>, x: nat)
    requires Inv(s) && Feasible(s, steps) && x in s.tickets
    ensures x in Run(s, steps).tickets && Run(s, steps).tickets[x].workload == s.tickets[x].workload
    ensures s.tickets[x].entry != Waiting ==> Run(s, steps).tickets[x].entry == s.tickets[x].entry
    decreases |steps|
  {
    if steps != [] {
      StepKeepsInv(s, steps[0]);
      TicketsSettle(s, steps[0], x);
      TicketsSettleOverRuns(Apply(s, steps[0]), steps[1..], x);
    }
  }

  /** A search waiter with `p` ahead of it is granted or withdrawn within `p + 1` slot releases,
      whatever else happens meanwhile. */
  lemma SearchWaitIsBounded(s: State, steps: seq<Step>, p: nat)
    requires Inv(s) && Feasible(s, steps) && p < |s.search|
    requires Releases(steps) >= p + 1
    ensures var x := s.search[p]; var r := Run(s, steps);
      x in r.tickets && r.tickets[x].entry in {Granted, Cancelled}
  {
    var x := s.search[p];
    PositionUnique(s.search, p);
    TicketsSettleOverRuns(s, steps, x);
    if Run(s, steps).tickets[x].entry == Waiting { SearchProgress(s, steps, x); }
  }

  /** A video waiter leaves its queue within one release for each waiter ahead of it, each search
      waiter present, each search arriving meanwhile, and one more. */
  lemma VideoWaitIsBounded(s: State, steps: seq<Step>, p: nat)
    requires Inv(s) && Feasible(s, steps) && p < |s.video|
    requires Releases(steps) >= p + |s.search| + SearchArrivals(steps) + 1
    ensures var x := s.video[p]; var r := Run(s, steps);
      x in r.tickets && r.tickets[x].entry in {Granted, Cancelled}
  {
    var x := s.video[p];
    PositionUnique(s.video, p);
    TicketsSettleOverRuns(s, steps, x);
    if Run(s, steps).tickets[x].entry == Waiting { VideoProgress(s, steps, x); }
  }

  /** First in, first out within a workload: while the earlier of two waiters still waits, the
      later one is not granted. */
  lemma GrantsAreFifo(s: State, steps: seq<Step>, w: Workload, x: nat, y: nat)
    requires Inv(s) && Feasible(s, steps) && w != Legacy
    requires x in Queue(s, w) && y in Queue(s, w) && Position(Queue(s, w), x) < Position(Queue(s, w), y)
    requires x in Queue(Run(s, steps), w)
    ensures y in Run(s, steps).tickets && Run(s, steps).tickets[y].entry != Granted
    decreases |steps|
  {
    if steps != [] {
      var step, r := steps[0], Apply(s, steps[0]);
      StepKeepsInv(s, step);
      TicketsSettle(s, step, x);
      TicketsSettle(s, step, y);
      TicketsSettleOverRuns(r, steps[1..], x);
      assert x in Queue(r, w);
      if r.tickets[y].entry == Waiting {
        OrderKept(s, step, w, x, y);
        GrantsAreFifo(r, steps[1..], w, x, y);
      } else {
        if r.tickets[y].entry == Granted { GrantsInOrder(s, step, y); }
        TicketsSettleOverRuns(r, steps[1..], y);
      }
    }
  }

  lemma OrderKept(s: State, step: Step, w: Workload, x: nat, y: nat)
    requires Inv(s) && Enabled(s, step) && w != Legacy
    requires x in Queue(s, w) && y in Queue(s, w) && Position(Queue(s, w), x) < Position(Queue(s, w), y)
    requires x in Queue(Apply(s, step), w) && y in Queue(Apply(s, step), w)
    ensures Position(Queue(Apply(s, step), w), x) < Position(Queue(Apply(s, step), w), y)
  {
    var q, r := Queue(s, w), Queue(Apply(s, step), w);
    QueueChange(s, step, w);
    if r == q + [s.next] {
      AppendKeepsPosition(q, x, s.next);
      AppendKeepsPosition(q, y, s.next);
    } else if step.Withdraw? && r == Remove(q, step.ticket) {
      RemoveMembers(q, step.ticket);
      RemoveKeepsOrder(q, step.ticket, x, y);
    }
  }

  /** What any step can do to a queue whose workload has waiters. */
  lemma QueueChange(s: State, step: Step, w: Workload)
    requires Inv(s) && Enabled(s, step) && w != Legacy && Queue(s, w) != []
    ensures var q, r := Queue(s, w), Queue(Apply(s, step), w);
      r == q || r == q + [s.next] || (step.Withdraw? && r == Remove(q, step.ticket)) || r == q[1..]
  {
    match step
    case Acquire(v) => if v != Legacy { AcquireOnlyQueues(s, v); }
    case FinishRelease => ReleaseGrantsHead(s);
    case Withdraw(_) =>
    case TryLegacy =>
    case GiveUp(_) =>
    case Wake(_) =>
    case BeginRelease(_) =>
  }

  lemma RemoveKeepsOrder(q: seq<nat>, t: nat, x: nat, y: nat)
    requires Distinct(q) && x in q && y in q && x != t && y != t && Position(q, x) < Position(q, y)
    ensures x in Remove(q, t) && y in Remove(q, t) && Position(Remove(q, t), x) < Position(Remove(q, t), y)
  {
    RemoveMembers(q, t);
    if q[0] != t && q[0] != x { RemoveKeepsOrder(q[1..], t, x, y); }
  }

  /** The arrivals in the video bound are needed: with one slot and one video waiter there is, for
      every `n`, a run with `n` releases after which the video waiter still waits. */
  lemma VideoCanStarve(s: State, l: nat, x: nat, n: nat) returns (steps: seq<Step>)
    requires Inv(s) && s.max == 1 && s.held == {l} && s.owed == 0 && s.search == [] && s.video == [x]
    ensures Feasible(s, steps) && Releases(steps) == n && Run(s, steps).video == [x]
    decreases n
  {
    hide QueuesWait, TicketsConsistent, SlotsConserved, WorkConserved, GrantWaiters;
    if n == 0 { return []; }
    var t := s.next;
    StepKeepsInv(s, Acquire(Search));
    AcquireOnlyQueues(s, Search);
    var s1 := Apply(s, Acquire(Search));
    var s2, s3, s4 := StarveRound(s1, l, x, t);
    var rest := VideoCanStarve(s4, s1.next, x, n - 1);
    steps := [Wake(t)] + rest;
    Prepend(s3, Wake(t), rest);
    Prepend(s2, FinishRelease, steps);
    steps := [FinishRelease] + steps;
    Prepend(s1, BeginRelease(l), steps);
    steps := [BeginRelease(l)] + steps;
    Prepend(s, Acquire(Search), steps);
    steps := [Acquire(Search)] + steps;
  }

  /** The slot passes from its holder to the search waiter, past the waiting video. */
  lemma StarveRound(s: State, l: nat, x: nat, t: nat) returns (s2: State, s3: State, s4: State)
    requires Inv(s) && s.max == 1 && s.held == {l} && s.owed == 0 && s.search == [t] && s.video == [x]
    requires s.tickets[t].waiter == Blocked
    ensures s2 == Apply(s, BeginRelease(l)) && Inv(s2)
    ensures Enabled(s2, FinishRelease) && s3 == Apply(s2, FinishRelease) && Inv(s3)
    ensures Enabled(s3, Wake(t)) && s4 == Apply(s3, Wake(t)) && Inv(s4)
    ensures s4.max == 1 && s4.held == {s.next} && s4.owed == 0 && s4.search == [] && s4.video == [x]
  {
    StepKeepsInv(s, BeginRelease(l));
    s2 := Apply(s, BeginRelease(l));
    StepKeepsInv(s2, FinishRelease);
    ReleaseGrantsHead(s2);
    s3 := Apply(s2, FinishRelease);
    StepKeepsInv(s3, Wake(t));
    s4 := Apply(s3, Wake(t));
  }

  lemma Prepend(s: State, step: Step, rest: seq<Step>)
    requires Inv(s) && Enabled(s, step) && Inv(Apply(s, step)) && Feasible(Apply(s, step), rest)
    ensures Feasible(s, [step] + rest) && Run(s, [step] + rest) == Run(Apply(s, step), rest)
    ensures Releases([step] + rest) == (if step.FinishRelease? then 1 else 0) + Releases(rest)
  {
    assert ([step] + rest)[1..] == rest;
  }
}
