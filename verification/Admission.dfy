/**
 The admission controller of the embedding endpoint as a state machine.

 Every section that runs under the controller's lock is one atomic step, and so is
 every wake-up, timeout, cancellation and lease release of a coroutine outside the lock.
 A run is any sequence of such steps.
 */
module Admission {

  datatype Workload = Search | VideoPreprocess | Legacy

  datatype EntryState = Waiting | Granted | Cancelled

  /** Where the coroutine that queued an entry stands: suspended on the entry's future,
      interrupted and about to withdraw, or past both. */
  datatype Waiter = Blocked | GivingUp | Gone

  datatype Ticket = Ticket(workload: Workload, entry: EntryState, waiter: Waiter)

  /** `search` and `video` are the two queues, oldest first. `held` are the slot leases
      that are not released, and `owed` counts the callers that are on their way into
      the locked section that gives a slot back. */
  datatype State = State(
    max: int, running: int,
    search: seq<nat>, video: seq<nat>,
    tickets: map<nat, Ticket>,
    held: set<nat>, owed: nat, next: nat)

  datatype Step =
    | Acquire(workload: Workload)
    | TryLegacy
    | GiveUp(ticket: nat)
    | Withdraw(ticket: nat)
    | Wake(ticket: nat)
    | BeginRelease(lease: nat)
    | FinishRelease

  function Initial(max: int): State {
    State(max, 0, [], [], map[], {}, 0, 0)
  }

  // ---- the locked sections ----

  predicate HasWaiters(s: State) {
    s.search != [] || s.video != []
  }

  predicate CanGrantImmediately(s: State) {
    s.running < s.max && !HasWaiters(s)
  }

  ghost predicate Distinct(q: seq<nat>) {
    forall i, j :: 0 <= i < j < |q| ==> q[i] != q[j]
  }

  lemma DistinctConcat(q: seq<nat>, r: seq<nat>)
    requires Distinct(q) && Distinct(r) && forall x <- q :: x !in r
    ensures Distinct(q + r)
  {
    forall i, j | 0 <= i < j < |q + r| ensures (q + r)[i] != (q + r)[j] {
      if i < |q| <= j { assert q[i] in q && r[j - |q|] in r; }
    }
  }

  /** `q` lists distinct tickets of workload `w`, and all of them still wait. */
  ghost predicate QueueWaits(q: seq<nat>, w: Workload, tickets: map<nat, Ticket>) {
    && Distinct(q)
    && forall t <- q :: t in tickets && tickets[t].entry == Waiting && tickets[t].workload == w
  }

  ghost predicate QueuesWait(s: State) {
    QueueWaits(s.search, Search, s.tickets) && QueueWaits(s.video, VideoPreprocess, s.tickets)
  }

  function IssueLease(s: State): State {
    s.(running := s.running + 1, held := s.held + {s.next}, next := s.next + 1)
  }

  ghost function Enqueue(s: State, w: Workload): (r: State)
    requires Inv(s) && w != Legacy
    ensures QueuesWait(r)
  {
    DistinctConcat(s.search, [s.next]);
    DistinctConcat(s.video, [s.next]);
    var s1 := s.(tickets := s.tickets[s.next := Ticket(w, Waiting, Blocked)], next := s.next + 1);
    if w == Search then s1.(search := s.search + [s.next]) else s1.(video := s.video + [s.next])
  }

  /** Hands the slot count one more entry: the head of the search queue, or of the video
      queue when no search waits. */
  ghost function GrantHead(s: State): (r: State)
    requires QueuesWait(s) && HasWaiters(s)
    ensures QueuesWait(r)
  {
    var t := if s.search != [] then s.search[0] else s.video[0];
    var s1 := if s.search != [] then s.(search := s.search[1..]) else s.(video := s.video[1..]);
    s1.(running := s.running + 1, tickets := s.tickets[t := s.tickets[t].(entry := Granted)])
  }

  ghost function GrantWaiters(s: State): (r: State)
    requires QueuesWait(s)
    ensures r.max == s.max
    decreases |s.search| + |s.video|
  {
    if s.running < s.max && HasWaiters(s) then GrantWaiters(GrantHead(s)) else s
  }

  ghost function Remove(q: seq<nat>, x: nat): seq<nat> {
    if q == [] then [] else if q[0] == x then q[1..] else [q[0]] + Remove(q[1..], x)
  }

  ghost function AcquireSection(s: State, w: Workload): State
    requires Inv(s)
  {
    if CanGrantImmediately(s) then IssueLease(s)
    else if w == Legacy then s // no queue is registered for this workload: the lookup raises
    else GrantWaiters(Enqueue(s, w))
  }

  ghost function TryLegacySection(s: State): State {
    if CanGrantImmediately(s) then IssueLease(s) else s
  }

  ghost function WithdrawSection(s: State, t: nat): State
    requires t in s.tickets
  {
    var k := s.tickets[t];
    if k.entry == Waiting then
      s.(tickets := s.tickets[t := k.(entry := Cancelled, waiter := Gone)],
         search := if k.workload == Search then Remove(s.search, t) else s.search,
         video := if k.workload == Search then s.video else Remove(s.video, t))
    else if k.entry == Granted then
      s.(tickets := s.tickets[t := k.(waiter := Gone)], owed := s.owed + 1)
    else
      s.(tickets := s.tickets[t := k.(waiter := Gone)])
  }

  ghost function ReleaseSection(s: State): State
    requires Inv(s) && s.owed > 0
  {
    GrantWaiters(s.(running := s.running - 1, owed := s.owed - 1))
  }

  /** An acquire and a try issue a lease exactly when a slot is free and nobody waits. Otherwise an acquire queues a
      waiting entry last for its workload, and then grants as long as it can; there is no queue for legacy calls. */
  lemma AcquireOutcomes(s: State, w: Workload)
    requires Inv(s)
    ensures var leased :=
        State(s.max, s.running + 1, s.search, s.video, s.tickets, s.held + {s.next}, s.owed, s.next + 1);
      var (search, video) := (if w == Search then s.search + [s.next] else s.search,
                              if w == VideoPreprocess then s.video + [s.next] else s.video);
      var queued := State(s.max, s.running, search, video, s.tickets[s.next := Ticket(w, Waiting, Blocked)], s.held,
        s.owed, s.next + 1);
      if s.running < s.max && s.search == [] && s.video == [] then
        AcquireSection(s, w) == leased && TryLegacySection(s) == leased
      else
        && TryLegacySection(s) == s
        && if w == Legacy then AcquireSection(s, w) == s
           else QueuesWait(queued) && AcquireSection(s, w) == GrantWaiters(queued)
  {
    hide GrantWaiters;
    if w != Legacy { assert QueuesWait(Enqueue(s, w)); }
  }

  // ---- all steps ----

  ghost predicate Enabled(s: State, step: Step) {
    match step
    case Acquire(_) => true
    case TryLegacy => true
    case GiveUp(t) => t in s.tickets && s.tickets[t].waiter == Blocked
    case Withdraw(t) => t in s.tickets && s.tickets[t].waiter == GivingUp
    case Wake(t) => t in s.tickets && s.tickets[t].waiter == Blocked && s.tickets[t].entry == Granted
    case BeginRelease(_) => true
    case FinishRelease => s.owed > 0
  }

  ghost function Apply(s: State, step: Step): State
    requires Inv(s) && Enabled(s, step)
  {
    match step
    case Acquire(w) => AcquireSection(s, w)
    case TryLegacy => TryLegacySection(s)
    case GiveUp(t) => s.(tickets := s.tickets[t := s.tickets[t].(waiter := GivingUp)])
    case Withdraw(t) => WithdrawSection(s, t)
    case Wake(t) => s.(tickets := s.tickets[t := s.tickets[t].(waiter := Gone)],
                       held := s.held + {s.next}, next := s.next + 1)
    case BeginRelease(l) => if l in s.held then s.(held := s.held - {l}, owed := s.owed + 1) else s
    case FinishRelease => ReleaseSection(s)
  }

  // ---- the invariant ----

  /** Entries that were given a slot and whose coroutine has not moved on yet. */
  ghost function Owing(s: State): set<nat> {
    set t | t in s.tickets && s.tickets[t].entry == Granted && s.tickets[t].waiter != Gone
  }

  ghost predicate SlotsConserved(s: State) {
    && s.running == |s.held| + s.owed + |Owing(s)|
    && (s.running <= s.max || s.running == 0)
  }

  ghost predicate WorkConserved(s: State) {
    s.running < s.max ==> !HasWaiters(s)
  }

  ghost predicate TicketsConsistent(s: State) {
    && (forall t <- s.tickets :: t < s.next && s.tickets[t].workload != Legacy)
    && (forall l <- s.held :: l < s.next)
    && (forall t <- s.tickets :: s.tickets[t].entry == Waiting ==>
          && s.tickets[t].waiter != Gone
          && (if s.tickets[t].workload == Search then t in s.search else t in s.video))
    && (forall t <- s.tickets :: s.tickets[t].entry == Cancelled ==> s.tickets[t].waiter == Gone)
  }

  ghost predicate Inv(s: State) {
    QueuesWait(s) && TicketsConsistent(s) && SlotsConserved(s) && WorkConserved(s)
  }


  // ---- every step keeps the invariant ----

  lemma InitialInv(max: int)
    ensures Inv(Initial(max))
  {
    assert Owing(Initial(max)) == {};
  }

  lemma RemoveMembers(q: seq<nat>, x: nat)
    requires Distinct(q)
    ensures forall y :: y in Remove(q, x) <==> y in q && y != x
  {
    if q != [] {
      assert q == [q[0]] + q[1..];
      RemoveMembers(q[1..], x);
    }
  }

  lemma RemoveProperties(q: seq<nat>, x: nat)
    requires Distinct(q)
    ensures Distinct(Remove(q, x))
    ensures forall y :: y in Remove(q, x) <==> y in q && y != x
  {
    RemoveMembers(q, x);
    if q != [] && q[0] != x {
      RemoveProperties(q[1..], x);
      var r := Remove(q[1..], x);
      assert q[0] !in q[1..];
      DistinctConcat([q[0]], r);
    }
  }

  lemma OwingGrant(s: State)
    requires QueuesWait(s) && TicketsConsistent(s) && HasWaiters(s)
    ensures |Owing(GrantHead(s))| == |Owing(s)| + 1
  {
    var t := if s.search != [] then s.search[0] else s.video[0];
    assert t !in Owing(s);
    assert Owing(GrantHead(s)) == Owing(s) + {t};
  }

  lemma GrantHeadConsistent(s: State)
    requires QueuesWait(s) && TicketsConsistent(s) && HasWaiters(s)
    ensures TicketsConsistent(GrantHead(s))
  {
    var r := GrantHead(s);
    forall t <- r.tickets | r.tickets[t].entry == Waiting
      ensures if r.tickets[t].workload == Search then t in r.search else t in r.video
    {
      if s.search != [] { assert s.search == [s.search[0]] + s.search[1..]; }
      if s.video != [] { assert s.video == [s.video[0]] + s.video[1..]; }
    }
  }

  /** The grant loop takes a state that may have free slots beside waiters to one that has not. */
  lemma GrantWaitersKeeps(s: State)
    requires QueuesWait(s) && TicketsConsistent(s) && SlotsConserved(s)
    ensures Inv(GrantWaiters(s))
    decreases |s.search| + |s.video|
  {
    if s.running < s.max && HasWaiters(s) {
      OwingGrant(s);
      GrantHeadConsistent(s);
      GrantWaitersKeeps(GrantHead(s));
    }
  }

  lemma AcquireKeeps(s: State, w: Workload)
    requires Inv(s)
    ensures Inv(AcquireSection(s, w))
  {
    if CanGrantImmediately(s) {
      IssueLeaseKeeps(s);
    } else if w != Legacy {
      var e := Enqueue(s, w);
      assert Owing(e) == Owing(s);
      GrantWaitersKeeps(e);
    }
  }

  lemma IssueLeaseKeeps(s: State)
    requires Inv(s) && CanGrantImmediately(s)
    ensures Inv(IssueLease(s))
  {
    assert s.next !in s.held;
    assert Owing(IssueLease(s)) == Owing(s);
  }

  lemma WithdrawKeeps(s: State, t: nat)
    requires Inv(s) && t in s.tickets && s.tickets[t].waiter == GivingUp
    ensures Inv(WithdrawSection(s, t))
  {
    var r := WithdrawSection(s, t);
    if s.tickets[t].entry == Waiting {
      if s.tickets[t].workload == Search { RemoveProperties(s.search, t); } else { RemoveProperties(s.video, t); }
      assert Owing(r) == Owing(s);
    } else if s.tickets[t].entry == Granted {
      assert t in Owing(s);
      assert Owing(r) == Owing(s) - {t};
    }
  }

  lemma WakeKeeps(s: State, t: nat)
    requires Inv(s) && Enabled(s, Wake(t))
    ensures Inv(Apply(s, Wake(t)))
  {
    assert t in Owing(s) && Owing(Apply(s, Wake(t))) == Owing(s) - {t};
    assert s.next !in s.held;
  }

  lemma ReleaseKeeps(s: State)
    requires Inv(s) && s.owed > 0
    ensures Inv(ReleaseSection(s))
  {
    var u := s.(running := s.running - 1, owed := s.owed - 1);
    assert Owing(u) == Owing(s);
    GrantWaitersKeeps(u);
  }

  lemma LocalStepKeeps(s: State, step: Step)
    requires Inv(s) && Enabled(s, step) && (step.GiveUp? || step.BeginRelease?)
    ensures Inv(Apply(s, step))
  {
    assert Owing(Apply(s, step)) == Owing(s);
  }

  /** One step of any coroutine keeps slots conserved, tickets consistent, and no slot idle beside a waiter. */
  lemma StepKeepsInv(s: State, step: Step)
    requires Inv(s) && Enabled(s, step)
    ensures Inv(Apply(s, step)) && Apply(s, step).max == s.max
  {
    match step
    case Acquire(w) => AcquireKeeps(s, w);
    case TryLegacy => if CanGrantImmediately(s) { IssueLeaseKeeps(s); }
    case GiveUp(_) => LocalStepKeeps(s, step);
    case Withdraw(t) => WithdrawKeeps(s, t);
    case Wake(t) => WakeKeeps(s, t);
    case BeginRelease(_) => LocalStepKeeps(s, step);
    case FinishRelease => ReleaseKeeps(s);
  }

  // ---- runs ----

  ghost predicate Feasible(s: State, steps: seq<Step>)
    requires Inv(s)
    decreases |steps|
  {
    steps == [] || (Enabled(s, steps[0]) && (StepKeepsInv(s, steps[0]); Feasible(Apply(s, steps[0]), steps[1..])))
  }

  ghost function Run(s: State, steps: seq<Step>): (r: State)
    requires Inv(s) && Feasible(s, steps)
    ensures Inv(r) && r.max == s.max
    decreases |steps|
  {
    if steps == [] then s else StepKeepsInv(s, steps[0]); Run(Apply(s, steps[0]), steps[1..])
  }

  /** Over every interleaving from the start, the running count is the unreleased leases plus the
      releases under way plus the grants not yet picked up, it never exceeds the limit, and a slot
      is idle only when nobody waits. */
  lemma SlotsConservedOverRuns(max: int, steps: seq<Step>)
    requires Inv(Initial(max)) && Feasible(Initial(max), steps)
    ensures var r := Run(Initial(max), steps);
      && r.running == |r.held| + r.owed + |Owing(r)|
      && (0 <= r.running <= max || r.running == 0)
      && (r.running < max ==> r.search == [] && r.video == [])
      && (forall t <- r.search + r.video :: t in r.tickets && r.tickets[t].entry == Waiting)
      && (r.owed > 0 ==> r.running > 0)
  {
    var r := Run(Initial(max), steps);
    forall t <- r.search + r.video ensures t in r.tickets && r.tickets[t].entry == Waiting {
      assert t in r.search || t in r.video;
    }
  }

  /** Once every lease is released and every coroutine is past its wait, no slot is taken. */
  lemma NothingLeaks(max: int, steps: seq<Step>)
    requires Inv(Initial(max)) && Feasible(Initial(max), steps)
    ensures var r := Run(Initial(max), steps);
      r.held == {} && r.owed == 0 && (forall t <- r.tickets :: r.tickets[t].waiter == Gone) ==> r.running == 0
  {
    var r := Run(Initial(max), steps);
    if r.held == {} && forall t <- r.tickets :: r.tickets[t].waiter == Gone {
      assert Owing(r) == {};
    }
  }
}
