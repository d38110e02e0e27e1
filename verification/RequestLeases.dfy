/** Admission of whole requests: a lease for each, as many as the workload's limit at a time. */
module RequestLeases {
  import opened Admission

  class RequestLease {
    const workload: Workload
    const controller: RequestController
    var released: bool

    constructor (workload: Workload, controller: RequestController)
      ensures this.workload == workload && this.controller == controller && !released
    {
      this.workload, this.controller, released := workload, controller, false;
    }

    /** The first release gives the place back; every further one changes nothing. */
    method Release()
      requires controller.Valid() && this in controller.issued
      modifies this`released, controller`admitted, controller`unreleased
      ensures controller.Valid() && released
      ensures controller.unreleased == old(controller.unreleased) - {this}
      ensures old(released) ==> controller.admitted == old(controller.admitted)
      ensures !old(released) ==>
        controller.admitted == old(controller.admitted)[workload := old(controller.admitted)[workload] - 1]
    {
      if released { return; }
      released := true;
      controller.ReleaseRequest(this);
    }
  }

  datatype Admitted = Lease(lease: RequestLease) | Full | UnknownWorkload

  function OfWorkload(leases: set<RequestLease>, w: Workload): set<RequestLease> {
    set l | l in leases && l.workload == w
  }

  class RequestController {
    const limits: map<Workload, int>
    var admitted: map<Workload, int>
    ghost var issued: set<RequestLease>
    ghost var unreleased: set<RequestLease>

    /** The counts are the unreleased leases, and within the limits. */
    ghost predicate Counted()
      reads this
    {
      && limits.Keys == admitted.Keys == {Search, VideoPreprocess}
      && unreleased <= issued
      && forall w <- admitted.Keys ::
           admitted[w] == |OfWorkload(unreleased, w)| && (admitted[w] <= limits[w] || admitted[w] == 0)
    }

    ghost predicate Valid()
      reads this, issued
    {
      && Counted()
      && forall l <- issued :: l.controller == this && l.workload in admitted && (l.released <==> l !in unreleased)
    }

    constructor (searchLimit: int, videoLimit: int)
      ensures Valid() && issued == {} && limits == map[Search := searchLimit, VideoPreprocess := videoLimit]
    {
      limits := map[Search := searchLimit, VideoPreprocess := videoLimit];
      admitted := map[Search := 0, VideoPreprocess := 0];
      issued, unreleased := {}, {};
      new;
      assert OfWorkload(unreleased, Search) == {} == OfWorkload(unreleased, VideoPreprocess);
    }

    /** Admits the request exactly when fewer than the limit are admitted. */
    method TryAcquireRequest(workload: Workload) returns (r: Admitted)
      requires Valid()
      modifies this
      ensures Valid()
      ensures r.UnknownWorkload? <==> workload !in limits
      ensures r.Lease? <==> workload in limits && old(admitted)[workload] < limits[workload]
      ensures r.Lease? ==> (fresh(r.lease) && r.lease.workload == workload && unreleased == old(unreleased) + {r.lease})
      ensures !r.Lease? ==> admitted == old(admitted) && unreleased == old(unreleased)
    {
      if workload !in admitted { return UnknownWorkload; }
      if admitted[workload] >= limits[workload] { return Full; }
      admitted := admitted[workload := admitted[workload] + 1];
      var lease := new RequestLease(workload, this);
      OneMore(unreleased, lease);
      issued, unreleased := issued + {lease}, unreleased + {lease};
      r := Lease(lease);
    }

    method ReleaseRequest(lease: RequestLease)
      requires Counted() && lease in unreleased && lease.workload in admitted
      modifies this`admitted, this`unreleased
      ensures Counted() && unreleased == old(unreleased) - {lease}
      ensures admitted == old(admitted)[lease.workload := old(admitted)[lease.workload] - 1]
    {
      assert unreleased == unreleased - {lease} + {lease};
      OneMore(unreleased - {lease}, lease);
      admitted := admitted[lease.workload := admitted[lease.workload] - 1];
      unreleased := unreleased - {lease};
    }
  }

  lemma OneMore(leases: set<RequestLease>, lease: RequestLease)
    requires lease !in leases
    ensures forall w ::
      |OfWorkload(leases + {lease}, w)| == |OfWorkload(leases, w)| + (if w == lease.workload then 1 else 0)
  {
    forall w
      ensures |OfWorkload(leases + {lease}, w)| == |OfWorkload(leases, w)| + (if w == lease.workload then 1 else 0)
    {
      if w == lease.workload {
        assert OfWorkload(leases + {lease}, w) == OfWorkload(leases, w) + {lease};
      } else {
        assert OfWorkload(leases + {lease}, w) == OfWorkload(leases, w);
      }
    }
  }

  /** When every waiter holds a request lease of its own, the queues are no longer than the limits. */
  lemma QueuesAreBounded(s: State, w: Workload, holds: map<nat, RequestLease>, unreleased: set<RequestLease>)
    requires Inv(s) && w != Legacy
    requires var q := if w == Search then s.search else s.video;
      forall t <- q :: t in holds && holds[t] in unreleased && holds[t].workload == w
    requires forall t <- holds.Keys, u <- holds.Keys :: t != u ==> holds[t] != holds[u]
    ensures |if w == Search then s.search else s.video| <= |OfWorkload(unreleased, w)|
  {
    OneEach(if w == Search then s.search else s.video, holds, OfWorkload(unreleased, w));
  }

  lemma OneEach(q: seq<nat>, holds: map<nat, RequestLease>, leases: set<RequestLease>)
    requires Distinct(q) && forall t <- q :: t in holds && holds[t] in leases
    requires forall t <- holds.Keys, u <- holds.Keys :: t != u ==> holds[t] != holds[u]
    ensures |q| <= |leases|
  {
    if q != [] {
      var t, rest := q[0], q[1..];
      forall u | u in rest ensures u in holds && holds[u] in leases - {holds[t]} {
        var i :| 0 <= i < |rest| && rest[i] == u;
        assert q[i + 1] == u && q[i + 1] in q && q[0] != q[i + 1];
      }
      OneEach(rest, holds, leases - {holds[t]});
    }
  }
}
