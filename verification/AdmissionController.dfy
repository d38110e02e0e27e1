/**
 The controller object itself: queue entries and leases are objects whose state changes in
 place, and each method below is one section under the controller's lock (or the part of a
 coroutine between two such sections). Each method is tied to a step of the state machine
 in module `Admission`, for which the properties over whole runs are proved.
 */
module AdmissionController {
  import opened Admission

  lemma OwedMeansRunning(s: State)
    requires Inv(s) && s.owed > 0
    ensures s.running > 0
  {
  }

  lemma TicketsAreOld(s: State)
    requires Inv(s)
    ensures s.next !in s.tickets
  {
  }

  lemma WaitingIsQueued(s: State, t: nat)
    requires Inv(s) && t in s.tickets
    ensures Distinct(s.search) && Distinct(s.video)
    ensures s.tickets[t].entry == Waiting ==> t in (if s.tickets[t].workload == Search then s.search else s.video)
    ensures s.tickets[t].entry != Waiting ==> s.tickets[t].waiter == Gone || s.tickets[t].entry == Granted
  {
  }

  class QueueEntry {
    ghost const id: nat
    const workload: Workload
    var state: EntryState

    constructor (ghost id: nat, workload: Workload)
      ensures this.id == id && this.workload == workload && state == Waiting
    {
      this.id := id;
      this.workload := workload;
      state := Waiting;
    }
  }

  /** Owns one inference slot until it is released. */
  class SlotLease {
    ghost const id: nat
    const controller: Controller
    var released: bool

    constructor (ghost id: nat, controller: Controller)
      ensures this.id == id && this.controller == controller && !released
    {
      this.id := id;
      this.controller := controller;
      released := false;
    }

    /** The first release gives the slot back; every further one changes nothing. */
    method Release()
      requires controller.Valid() && id in controller.leases && controller.leases[id] == this
      modifies this`released, controller, controller.entries.Values
      ensures controller.Valid() && released
      ensures !old(released) ==>
        var begun := Apply(old(controller.spec), BeginRelease(id));
        Inv(begun) && begun.owed > 0 && controller.spec == Apply(begun, FinishRelease)
      ensures old(released) ==> controller.spec == old(controller.spec)
      ensures controller.leases == old(controller.leases)
    {
      hide TicketsConsistent, SlotsConserved, WorkConserved, QueueWaits, GrantWaiters, AcquireSection, WithdrawSection;
      if released { return; }
      StepKeepsInv(controller.spec, BeginRelease(id));
      released := true;
      controller.spec := Apply(controller.spec, BeginRelease(id));
      controller.ReleaseSlot();
    }
  }

  /** What `acquire_slot` has after its first locked section. */
  datatype Acquired = Immediate(lease: SlotLease) | Queued(entry: QueueEntry) | UnknownWorkload

  ghost predicate TicketsTied(entries: map<nat, QueueEntry>, tickets: map<nat, Ticket>)
    reads entries.Values
  {
    && entries.Keys == tickets.Keys
    && (forall t <- entries :: entries[t].id == t && entries[t].state == tickets[t].entry
          && entries[t].workload == tickets[t].workload)
  }

  ghost predicate QueueTied(q: seq<QueueEntry>, ids: seq<nat>, entries: map<nat, QueueEntry>) {
    |q| == |ids| && forall i :: 0 <= i < |q| ==> ids[i] in entries && q[i] == entries[ids[i]]
  }

  ghost predicate LeasesTied(leases: map<nat, SlotLease>, controller: Controller, held: set<nat>, next: nat)
    reads leases.Values
  {
    && held <= leases.Keys
    && (forall l <- leases :: l < next && leases[l].id == l && leases[l].controller == controller
          && leases[l].released == (l !in held))
  }

  /** A queue stays tied when an entry is registered, and when that entry is appended to it. */
  lemma QueueGrows(q: seq<QueueEntry>, ids: seq<nat>, entries: map<nat, QueueEntry>, n: nat, entry: QueueEntry)
    requires QueueTied(q, ids, entries) && n !in entries
    ensures QueueTied(q, ids, entries[n := entry]) && QueueTied(q + [entry], ids + [n], entries[n := entry])
  {
  }

  lemma TicketOf(entries: map<nat, QueueEntry>, tickets: map<nat, Ticket>, entry: QueueEntry)
    requires TicketsTied(entries, tickets)
    ensures entries.Keys == tickets.Keys
    ensures entry.id in entries && entries[entry.id] == entry ==>
      entry.state == tickets[entry.id].entry && entry.workload == tickets[entry.id].workload
    ensures forall t <- entries :: entries[t].id == t
  {
  }

  /** Where the coroutine stands is not recorded in the entry. */
  lemma SameTickets(entries: map<nat, QueueEntry>, tickets: map<nat, Ticket>, t: nat, waiter: Waiter)
    requires TicketsTied(entries, tickets) && t in tickets
    ensures TicketsTied(entries, tickets[t := tickets[t].(waiter := waiter)])
  {
  }

  lemma RemoveAt(ids: seq<nat>, i: nat, x: nat)
    requires i < |ids| && ids[i] == x && forall j :: 0 <= j < i ==> ids[j] != x
    ensures Remove(ids, x) == ids[..i] + ids[i + 1..]
  {
    if i > 0 {
      RemoveAt(ids[1..], i - 1, x);
      assert ids[1..][..i - 1] == ids[1..i] && ids[1..][i..] == ids[i + 1..];
    }
  }

  lemma QueueTail(q: seq<QueueEntry>, ids: seq<nat>, entries: map<nat, QueueEntry>)
    requires QueueTied(q, ids, entries) && q != []
    ensures |q| == |ids| && ids[0] in entries && q[0] == entries[ids[0]] && QueueTied(q[1..], ids[1..], entries)
  {
  }

  lemma QueueIsEmpty(q: seq<QueueEntry>, ids: seq<nat>, entries: map<nat, QueueEntry>)
    requires QueueTied(q, ids, entries)
    ensures q == [] <==> ids == []
  {
  }

  class Controller {
    const maxConcurrency: int
    var search: seq<QueueEntry>
    var video: seq<QueueEntry>
    var runningCount: int
    ghost var spec: State
    ghost var entries: map<nat, QueueEntry>
    ghost var leases: map<nat, SlotLease>

    /** The objects in the queues and the registered entries and leases are what `spec` says. */
    ghost predicate Tied()
      reads this, entries.Values, leases.Values
    {
      && spec.max == maxConcurrency && spec.running == runningCount
      && TicketsTied(entries, spec.tickets)
      && QueueTied(search, spec.search, entries) && QueueTied(video, spec.video, entries)
      && LeasesTied(leases, this, spec.held, spec.next)
    }

    ghost predicate Valid()
      reads this, entries.Values, leases.Values
    {
      Tied() && Inv(spec)
    }

    constructor (maxConcurrency: int)
      ensures Valid() && spec == Initial(maxConcurrency)
    {
      this.maxConcurrency := maxConcurrency;
      search, video, runningCount := [], [], 0;
      spec, entries, leases := Initial(maxConcurrency), map[], map[];
      new;
      InitialInv(maxConcurrency);
    }

    predicate CanGrantNow()
      reads this
    {
      runningCount < maxConcurrency && search == [] && video == []
    }

    method AcquireSlot(workload: Workload) returns (r: Acquired)
      requires Valid()
      modifies this, entries.Values
      ensures Valid() && spec == Apply(old(spec), Acquire(workload))
      ensures r.Immediate? <==> old(runningCount) < maxConcurrency && old(search) == [] && old(video) == []
      ensures r.Immediate? ==> fresh(r.lease) && r.lease.id in spec.held && leases[r.lease.id] == r.lease
      ensures r.Queued? ==> fresh(r.entry) && r.entry.id in entries && entries[r.entry.id] == r.entry
      ensures r.UnknownWorkload? ==> workload == Legacy && spec == old(spec)
    {
      hide TicketsConsistent, SlotsConserved, WorkConserved, QueueWaits, GrantWaiters, WithdrawSection, ReleaseSection;
      StepKeepsInv(spec, Acquire(workload));
      if CanGrantNow() {
        var lease := IssueSlotLease();
        return Immediate(lease);
      }
      if workload == Legacy { return UnknownWorkload; }
      var entry := EnqueueLocked(workload);
      GrantWaitersLocked();
      return Queued(entry);
    }

    method EnqueueLocked(workload: Workload) returns (entry: QueueEntry)
      requires Valid() && workload != Legacy
      modifies this`search, this`video, this`spec, this`entries
      ensures Tied() && spec == Enqueue(old(spec), workload)
      ensures fresh(entry) && entry.id in entries && entries[entry.id] == entry
      ensures entries == old(entries)[entry.id := entry]
    {
      hide TicketsConsistent, SlotsConserved, WorkConserved, QueueWaits, QueueTied;
      TicketsAreOld(spec);
      entry := new QueueEntry(spec.next, workload);
      QueueGrows(search, spec.search, entries, spec.next, entry);
      QueueGrows(video, spec.video, entries, spec.next, entry);
      entries := entries[spec.next := entry];
      if workload == Search { search := search + [entry]; } else { video := video + [entry]; }
      spec := Enqueue(spec, workload);
    }

    method TryAcquireLegacy() returns (lease: SlotLease?)
      requires Valid()
      modifies this
      ensures Valid() && spec == Apply(old(spec), TryLegacy)
      ensures lease != null <==> old(runningCount) < maxConcurrency && old(search) == [] && old(video) == []
      ensures lease != null ==> fresh(lease) && lease.id in spec.held && leases[lease.id] == lease
    {
      hide TicketsConsistent, SlotsConserved, WorkConserved, QueueWaits, GrantWaiters, AcquireSection;
      hide WithdrawSection, ReleaseSection;
      StepKeepsInv(spec, TryLegacy);
      if !CanGrantNow() { return null; }
      lease := IssueSlotLease();
    }

    method IssueSlotLease() returns (lease: SlotLease)
      requires Valid() && CanGrantNow()
      modifies this
      ensures Valid() && spec == IssueLease(old(spec))
      ensures fresh(lease) && lease.id in spec.held && lease.id in leases && leases[lease.id] == lease
      ensures entries == old(entries)
    {
      hide TicketsConsistent, SlotsConserved, WorkConserved, QueueWaits, GrantWaiters;
      IssueLeaseKeeps(spec);
      lease := new SlotLease(spec.next, this);
      runningCount := runningCount + 1;
      leases := leases[spec.next := lease];
      spec := IssueLease(spec);
    }

    /** The future completed: the coroutine moves on and owns the slot its entry was granted. */
    method Resume(entry: QueueEntry) returns (lease: SlotLease)
      requires Valid() && entry.id in entries && entries[entry.id] == entry && Enabled(spec, Wake(entry.id))
      modifies this
      ensures Valid() && spec == Apply(old(spec), Wake(entry.id))
      ensures fresh(lease) && lease.id in spec.held && leases[lease.id] == lease
    {
      hide TicketsConsistent, SlotsConserved, WorkConserved, QueueWaits, GrantWaiters, AcquireSection;
      hide WithdrawSection, ReleaseSection;
      hide QueueTied, TicketsTied;
      SameTickets(entries, spec.tickets, entry.id, Gone);
      StepKeepsInv(spec, Wake(entry.id));
      lease := new SlotLease(spec.next, this);
      leases := leases[spec.next := lease];
      spec := Apply(spec, Wake(entry.id));
    }

    /** A timeout or a cancellation reaches the waiting coroutine. */
    ghost method Interrupt(entry: QueueEntry)
      requires Valid() && entry.id in entries && entries[entry.id] == entry && Enabled(spec, GiveUp(entry.id))
      modifies this`spec
      ensures Valid() && spec == Apply(old(spec), GiveUp(entry.id))
    {
      hide TicketsConsistent, SlotsConserved, WorkConserved, QueueWaits, GrantWaiters, AcquireSection;
      hide WithdrawSection, ReleaseSection;
      hide QueueTied, LeasesTied, TicketsTied;
      SameTickets(entries, spec.tickets, entry.id, GivingUp);
      StepKeepsInv(spec, GiveUp(entry.id));
      spec := Apply(spec, GiveUp(entry.id));
    }

    /** The interrupted coroutine withdraws; `true` tells it that it was granted a slot
        meanwhile and has to give it back. */
    method WithdrawEntry(entry: QueueEntry) returns (granted: bool)
      requires Valid() && entry.id in entries && entries[entry.id] == entry && Enabled(spec, Withdraw(entry.id))
      modifies this, entry`state
      ensures Valid() && spec == Apply(old(spec), Withdraw(entry.id))
      ensures granted <==> old(entry.state) == Granted
      ensures granted ==> spec.owed == old(spec.owed) + 1
      ensures !granted ==> entry.state == Cancelled
    {
      hide TicketsConsistent, SlotsConserved, WorkConserved, QueueWaits, GrantWaiters, AcquireSection, ReleaseSection;
      hide QueueTied, LeasesTied, TicketsTied, Remove, Distinct;
      WaitingIsQueued(spec, entry.id);
      TicketOf(entries, spec.tickets, entry);
      StepKeepsInv(spec, Withdraw(entry.id));
      if entry.state == Waiting {
        CancelLocked(entry);
        return false;
      }
      granted := entry.state == Granted;
      SameTickets(entries, spec.tickets, entry.id, Gone);
      spec := Apply(spec, Withdraw(entry.id));
    }

    method CancelLocked(entry: QueueEntry)
      requires Tied() && entry.id in entries && entries[entry.id] == entry && entry.state == Waiting
      requires var ids := if entry.workload == Search then spec.search else spec.video;
        Distinct(ids) && entry.id in ids
      modifies this`search, this`video, this`spec, entry`state
      ensures Tied() && spec == WithdrawSection(old(spec), entry.id) && entry.state == Cancelled
    {
      hide LeasesTied, Distinct, QueueTied, TicketsTied, Remove;
      TicketOf(entries, spec.tickets, entry);
      ghost var after := WithdrawSection(spec, entry.id);
      if entry.workload == Search {
        search := RemoveEntry(search, spec.search, entry);
      } else {
        video := RemoveEntry(video, spec.video, entry);
      }
      CancelState(entry, spec.tickets);
      spec := after;
    }

    method CancelState(entry: QueueEntry, ghost tickets: map<nat, Ticket>)
      requires TicketsTied(entries, tickets) && entry.id in entries && entries[entry.id] == entry
      modifies entry`state
      ensures entry.state == Cancelled
      ensures TicketsTied(entries, tickets[entry.id := Ticket(tickets[entry.id].workload, Cancelled, Gone)])
    {
      entry.state := Cancelled;
    }

    /** Removes the entry from a queue, as `deque.remove` does. */
    method RemoveEntry(q: seq<QueueEntry>, ghost ids: seq<nat>, entry: QueueEntry) returns (r: seq<QueueEntry>)
      requires Distinct(ids) && QueueTied(q, ids, entries) && entry.id in ids
      requires entry.id in entries && entries[entry.id] == entry
      requires forall t <- entries :: entries[t].id == t
      ensures QueueTied(r, Remove(ids, entry.id), entries)
    {
      var i := 0;
      ghost var at :| 0 <= at < |ids| && ids[at] == entry.id;
      while q[i] != entry
        invariant 0 <= i <= at && forall j :: 0 <= j < i ==> ids[j] != entry.id
        decreases at - i
      {
        i := i + 1;
      }
      RemoveAt(ids, i, entry.id);
      r := q[..i] + q[i + 1..];
    }

    /** Gives one slot back and hands it on; the counter is never driven below zero. */
    method ReleaseSlot()
      requires Valid() && spec.owed > 0
      modifies this, entries.Values
      ensures Valid() && spec == Apply(old(spec), FinishRelease)
      ensures entries == old(entries) && leases == old(leases)
    {
      hide TicketsConsistent, SlotsConserved, WorkConserved, QueueWaits, GrantWaiters, AcquireSection, WithdrawSection;
      OwedMeansRunning(spec);
      StepKeepsInv(spec, FinishRelease);
      if runningCount <= 0 { assert false; }
      runningCount := runningCount - 1;
      spec := spec.(running := spec.running - 1, owed := spec.owed - 1);
      GrantWaitersLocked();
    }

    method GrantWaitersLocked()
      requires Tied() && QueuesWait(spec)
      modifies this`search, this`video, this`runningCount, this`spec, entries.Values
      ensures Tied() && spec == GrantWaiters(old(spec))
    {
      while runningCount < maxConcurrency
        invariant Tied() && QueuesWait(spec) && GrantWaiters(spec) == GrantWaiters(old(spec))
        decreases |search| + |video|
      {
        ghost var before := spec;
        var entry := NextWaiterLocked();
        if entry == null { return; }
        GrantLocked(entry);
        assert spec == GrantHead(before);
      }
    }

    method GrantLocked(entry: QueueEntry)
      requires Tied() && entry.id in entries && entries[entry.id] == entry
      modifies this`runningCount, this`spec, entry`state
      ensures Tied()
      ensures spec == old(spec).(running := old(spec).running + 1,
        tickets := old(spec).tickets[entry.id := old(spec).tickets[entry.id].(entry := Granted)])
    {
      entry.state := Granted;
      runningCount := runningCount + 1;
      spec := spec.(running := spec.running + 1,
        tickets := spec.tickets[entry.id := spec.tickets[entry.id].(entry := Granted)]);
    }

    /** Drops entries that no longer wait, then takes the oldest waiting search entry out of its
        queue, or else the oldest waiting video entry. */
    method NextWaiterLocked() returns (entry: QueueEntry?)
      requires Tied()
      modifies this`search, this`video, this`spec
      ensures Tied()
      ensures entry != null ==> entry.id in entries && entries[entry.id] == entry && entry.state == Waiting
      ensures QueuesWait(old(spec)) && !HasWaiters(old(spec)) ==> entry == null && spec == old(spec)
      ensures QueuesWait(old(spec)) && old(spec).search != [] ==>
        (entry != null && entry.id == old(spec).search[0] && spec == old(spec).(search := old(spec).search[1..]))
      ensures QueuesWait(old(spec)) && old(spec).search == [] && old(spec).video != [] ==>
        (entry != null && entry.id == old(spec).video[0] && spec == old(spec).(video := old(spec).video[1..]))
    {
      hide QueueTied, LeasesTied;
      QueueIsEmpty(search, spec.search, entries);
      QueueIsEmpty(video, spec.video, entries);
      while search != []
        invariant Tied() && video == old(video) && spec.video == old(spec).video
        invariant spec == old(spec).(search := spec.search)
        invariant QueuesWait(old(spec)) ==> spec == old(spec)
        decreases |search|
      {
        QueueTail(search, spec.search, entries);
        entry := search[0];
        search := search[1..];
        spec := spec.(search := spec.search[1..]);
        if entry.state == Waiting { return; }
      }
      QueueIsEmpty(search, spec.search, entries);
      while video != []
        invariant Tied() && search == [] && spec == old(spec).(search := [], video := spec.video)
        invariant QueuesWait(old(spec)) ==> spec == old(spec)
        decreases |video|
      {
        QueueTail(video, spec.video, entries);
        entry := video[0];
        video := video[1..];
        spec := spec.(video := spec.video[1..]);
        if entry.state == Waiting { return; }
      }
      QueueIsEmpty(video, spec.video, entries);
      entry := null;
    }
  }
}
