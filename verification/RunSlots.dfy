/** Training run slots: one run executes, one waits, and a newer request takes the waiting place. */
module RunSlots {
  import opened Wrappers

  datatype SlotStatus = Running | Pending | Superseded | Finished

  datatype Row = Row(id: nat, status: SlotStatus, dataset: string, supersededBy: Option<nat>)

  predicate IsActive(row: Row) { row.status in {Running, Pending} }

  // ---- one request on the table ----

  function FindActive(rows: seq<Row>, dataset: string): (i: Option<nat>)
    ensures i.Some? ==> i.value < |rows| && rows[i.value].dataset == dataset && IsActive(rows[i.value])
    ensures i.Some? ==> forall j :: 0 <= j < i.value ==> !(rows[j].dataset == dataset && IsActive(rows[j]))
    ensures i.None? ==> forall j :: 0 <= j < |rows| ==> !(rows[j].dataset == dataset && IsActive(rows[j]))
  {
    if rows == [] then None
    else
      var n := |rows| - 1;
      match FindActive(rows[..n], dataset)
      case Some(i) => Some(i)
      case None => if rows[n].dataset == dataset && IsActive(rows[n]) then Some(n) else None
  }

  function FindStatus(rows: seq<Row>, status: SlotStatus): (i: Option<nat>)
    ensures i.Some? ==> i.value < |rows| && rows[i.value].status == status
    ensures i.Some? ==> forall j :: 0 <= j < i.value ==> rows[j].status != status
    ensures i.None? ==> forall j :: 0 <= j < |rows| ==> rows[j].status != status
  {
    if rows == [] then None
    else
      var n := |rows| - 1;
      match FindStatus(rows[..n], status)
      case Some(i) => Some(i)
      case None => if rows[n].status == status then Some(n) else None
  }

  /** The table after a request, and the position of the record that answers it. */
  function Request(rows: seq<Row>, id: nat, dataset: string): (r: (seq<Row>, nat))
    ensures r.1 < |r.0| && r.0[r.1].dataset == dataset && IsActive(r.0[r.1])
  {
    var active := FindActive(rows, dataset);
    if active.Some? then (rows, active.value)
    else if FindStatus(rows, Running).None? then (rows + [Row(id, Running, dataset, None)], |rows|)
    else (TakeWaitingPlace(rows, FindStatus(rows, Pending), id, dataset), |rows|)
  }

  function TakeWaitingPlace(rows: seq<Row>, pending: Option<nat>, id: nat, dataset: string): (r: seq<Row>)
    requires pending.Some? ==> pending.value < |rows|
    ensures |r| == |rows| + 1 && r[|rows|] == Row(id, Pending, dataset, None)
  {
    var rest := if pending.None? then rows
      else rows[pending.value := rows[pending.value].(status := Superseded, supersededBy := Some(id))];
    rest + [Row(id, Pending, dataset, None)]
  }

  /** The running record ends, however it ends. */
  function Complete(rows: seq<Row>): seq<Row> {
    match FindStatus(rows, Running)
    case None => rows
    case Some(i) => rows[i := rows[i].(status := Finished)]
  }

  /** What a request does, row by row. A dataset with an active record gets the first of these. Otherwise a new record
      answers: it runs exactly when none does, else it waits, in the place of the first record that waits, if any. */
  lemma RequestRows(rows: seq<Row>, id: nat, dataset: string)
    ensures var (r, k) := Request(rows, id, dataset);
      if exists i :: 0 <= i < |rows| && rows[i].dataset == dataset && rows[i].status in {Running, Pending} then
        && r == rows && rows[k].dataset == dataset && rows[k].status in {Running, Pending}
        && forall j :: 0 <= j < k ==> !(rows[j].dataset == dataset && rows[j].status in {Running, Pending})
      else
        var runs := exists i :: 0 <= i < |rows| && rows[i].status == Running;
        && |r| == |rows| + 1 && k == |rows| && r[k] == Row(id, if runs then Pending else Running, dataset, None)
        && forall i :: 0 <= i < |rows| ==>
             r[i] == if runs && rows[i].status == Pending && forall j :: 0 <= j < i ==> rows[j].status != Pending
                     then Row(rows[i].id, Superseded, rows[i].dataset, Some(id)) else rows[i]
  {
    hide FindActive, FindStatus;
    var active := FindActive(rows, dataset);
    if active.Some? { assert rows[active.value].status in {Running, Pending}; }
  }

  // ---- what holds of the table ----

  ghost predicate AtMostOne(rows: seq<Row>, status: SlotStatus) {
    forall i, j :: 0 <= i < j < |rows| ==> !(rows[i].status == status && rows[j].status == status)
  }

  ghost predicate OneActivePerDataset(rows: seq<Row>) {
    forall i, j :: 0 <= i < j < |rows| && IsActive(rows[i]) && IsActive(rows[j]) ==> rows[i].dataset != rows[j].dataset
  }

  ghost predicate UniqueIds(rows: seq<Row>) {
    forall i, j :: 0 <= i < j < |rows| ==> rows[i].id != rows[j].id
  }

  /** Row `j` is the one that took the place of row `i`. */
  ghost predicate Supersedes(rows: seq<Row>, i: int, j: int) {
    0 <= i < j < |rows| && rows[i].supersededBy == Some(rows[j].id)
  }

  ghost predicate LinkedForward(rows: seq<Row>) {
    forall i :: 0 <= i < |rows| ==>
      if rows[i].status == Superseded then exists j :: Supersedes(rows, i, j) else rows[i].supersededBy.None?
  }

  ghost predicate Inv(rows: seq<Row>) {
    && AtMostOne(rows, Running) && AtMostOne(rows, Pending)
    && OneActivePerDataset(rows) && UniqueIds(rows) && LinkedForward(rows)
  }

  predicate NewId(rows: seq<Row>, id: nat) {
    forall i :: 0 <= i < |rows| ==> rows[i].id != id
  }

  /** Superseding the pending row by a row appended at the end keeps all links forward. */
  lemma LinksStay(rows: seq<Row>, rows': seq<Row>, row: Row)
    requires LinkedForward(rows) && |rows'| == |rows| && row.supersededBy.None? && row.status != Superseded
    requires forall i :: 0 <= i < |rows| ==>
      (rows'[i] == rows[i]
      || (rows[i].status != Superseded && rows'[i] == rows[i].(status := Superseded, supersededBy := Some(row.id))))
    ensures LinkedForward(rows' + [row])
  {
    var r := rows' + [row];
    forall i | 0 <= i < |r| && r[i].status == Superseded ensures exists j :: Supersedes(r, i, j) {
      if rows'[i] == rows[i] {
        var j :| Supersedes(rows, i, j);
        assert Supersedes(r, i, j);
      } else {
        assert Supersedes(r, i, |rows|);
      }
    }
  }

  lemma RequestKeeps(rows: seq<Row>, id: nat, dataset: string)
    requires Inv(rows) && NewId(rows, id)
    ensures Inv(Request(rows, id, dataset).0)
  {
    hide FindActive, FindStatus, LinkedForward, AtMostOne, OneActivePerDataset, UniqueIds, TakeWaitingPlace;
    if FindActive(rows, dataset).None? {
      if FindStatus(rows, Running).None? {
        RunningKeeps(rows, id, dataset);
      } else {
        WaitingKeeps(rows, FindStatus(rows, Pending), id, dataset);
      }
    }
  }

  lemma RunningKeeps(rows: seq<Row>, id: nat, dataset: string)
    requires Inv(rows) && NewId(rows, id)
    requires forall i ::
      0 <= i < |rows| ==> !(rows[i].dataset == dataset && IsActive(rows[i])) && rows[i].status != Running
    ensures Inv(rows + [Row(id, Running, dataset, None)])
  {
    hide LinkedForward;
    LinksStay(rows, rows, Row(id, Running, dataset, None));
  }

  lemma WaitingKeeps(rows: seq<Row>, pending: Option<nat>, id: nat, dataset: string)
    requires Inv(rows) && NewId(rows, id)
    requires forall i :: 0 <= i < |rows| ==> !(rows[i].dataset == dataset && IsActive(rows[i]))
    requires if pending.Some? then pending.value < |rows| && rows[pending.value].status == Pending
      else forall i :: 0 <= i < |rows| ==> rows[i].status != Pending
    ensures Inv(TakeWaitingPlace(rows, pending, id, dataset))
  {
    hide LinkedForward;
    var r := TakeWaitingPlace(rows, pending, id, dataset);
    LinksStay(rows, r[..|rows|], r[|rows|]);
    assert r == r[..|rows|] + [r[|rows|]];
  }

  lemma CompleteKeeps(rows: seq<Row>)
    requires Inv(rows)
    ensures Inv(Complete(rows))
  {
    var r := Complete(rows);
    forall i | 0 <= i < |r| && r[i].status == Superseded ensures exists j :: Supersedes(r, i, j) {
      var j :| Supersedes(rows, i, j);
      assert Supersedes(r, i, j);
    }
  }

  // ---- runs ----

  datatype Event = Asked(id: nat, dataset: string) | Ended

  function Apply(rows: seq<Row>, e: Event): seq<Row> {
    match e
    case Asked(id, dataset) => Request(rows, id, dataset).0
    case Ended => Complete(rows)
  }

  function Run(rows: seq<Row>, events: seq<Event>): seq<Row>
    decreases |events|
  {
    if events == [] then rows else Run(Apply(rows, events[0]), events[1..])
  }

  ghost predicate NewIds(rows: seq<Row>, events: seq<Event>)
    decreases |events|
  {
    events == [] || (
      && (events[0].Asked? ==> NewId(rows, events[0].id))
      && NewIds(Apply(rows, events[0]), events[1..]))
  }

  /** In every run at most one record executes, at most one waits, no dataset has two active records,
      and superseded records link to later ones. */
  lemma {:induction false} RunKeeps(rows: seq<Row>, events: seq<Event>)
    requires Inv(rows) && NewIds(rows, events)
    ensures Inv(Run(rows, events))
    decreases |events|
  {
    if events != [] {
      match events[0]
      case Asked(id, dataset) =>
        RequestKeeps(rows, id, dataset);
        RunKeeps(Apply(rows, events[0]), events[1..]);
      case Ended =>
        CompleteKeeps(rows);
        RunKeeps(Apply(rows, events[0]), events[1..]);
    }
  }

  /** Positions of a chain of records, each superseded by the next. */
  ghost predicate IsChain(rows: seq<Row>, chain: seq<int>) {
    forall k, l :: 0 <= k < l < |chain| && l == k + 1 ==> Supersedes(rows, chain[k], chain[l])
  }

  /** From every record the links lead forward, in finitely many steps, to one that is not superseded. */
  lemma {:induction false} ChainEnds(rows: seq<Row>, i: nat) returns (chain: seq<int>)
    requires LinkedForward(rows) && i < |rows|
    ensures 1 <= |chain| <= |rows| - i && chain[0] == i && IsChain(rows, chain)
    ensures i <= chain[|chain| - 1] < |rows| && rows[chain[|chain| - 1]].status != Superseded
    decreases |rows| - i
  {
    if rows[i].status != Superseded {
      chain := [i];
    } else {
      var j :| Supersedes(rows, i, j);
      var rest := ChainEnds(rows, j);
      chain := [i] + rest;
    }
  }

  /** No other chain starts there: ids are unique, so the next record is too. */
  lemma NextIsUnique(rows: seq<Row>, i: int, j: int, k: int)
    requires UniqueIds(rows) && Supersedes(rows, i, j) && Supersedes(rows, i, k)
    ensures j == k
  {
  }

  /** A request never changes or repeats the record of a dataset that still has an active one, and a
      record stops being active only when it ends or a later request takes its place. */
  lemma ActiveUntilReplaced(rows: seq<Row>, e: Event, i: nat)
    requires Inv(rows) && i < |rows| && IsActive(rows[i])
    requires e.Asked? ==> NewId(rows, e.id)
    ensures var r := Apply(rows, e);
      && |r| >= |rows| && r[i].dataset == rows[i].dataset && r[i].id == rows[i].id
      && (e.Asked? && e.dataset == rows[i].dataset ==> r == rows && Request(rows, e.id, e.dataset).1 == i)
      && (!IsActive(r[i]) ==>
           if e.Ended? then rows[i].status == Running && r[i].status == Finished
           else rows[i].status == Pending && Supersedes(r, i, |rows|) && r[|rows|].status == Pending)
  {
    hide FindActive, FindStatus, LinkedForward;
  }

  // ---- the controller ----

  class RunSlotRecord {
    const id: nat
    const dataset: string
    const baseline: string
    const candidate: string
    var status: SlotStatus
    var supersededBy: Option<nat>

    constructor (id: nat, status: SlotStatus, dataset: string, baseline: string, candidate: string)
      ensures Value() == Row(id, status, dataset, None) && this.id == id
      ensures this.baseline == baseline && this.candidate == candidate
    {
      this.id, this.status, this.dataset, this.baseline, this.candidate := id, status, dataset, baseline, candidate;
      this.supersededBy := None;
    }

    function Value(): Row
      reads this
    {
      Row(id, status, dataset, supersededBy)
    }
  }

  class RunSlotController {
    var records: seq<RunSlotRecord>

    ghost predicate Valid()
      reads this
    {
      forall i, j :: 0 <= i < j < |records| ==> records[i] != records[j]
    }

    function Rows(): (r: seq<Row>)
      reads this, records
      ensures |r| == |records| && forall i :: 0 <= i < |r| ==> r[i] == records[i].Value()
    {
      var rs := records;
      seq(|rs|, i requires 0 <= i < |rs| reads rs => rs[i].Value())
    }

    constructor ()
      ensures Valid() && records == []
    {
      records := [];
    }

    method FindActiveForDataset(dataset: string) returns (i: Option<nat>)
      ensures i == FindActive(Rows(), dataset)
    {
      for k := 0 to |records|
        invariant forall j :: 0 <= j < k ==> !(Rows()[j].dataset == dataset && IsActive(Rows()[j]))
      {
        if records[k].dataset == dataset && records[k].status in {Running, Pending} { return Some(k); }
      }
      return None;
    }

    method FindByStatus(status: SlotStatus) returns (i: Option<nat>)
      ensures i == FindStatus(Rows(), status)
    {
      for k := 0 to |records|
        invariant forall j :: 0 <= j < k ==> Rows()[j].status != status
      {
        if records[k].status == status { return Some(k); }
      }
      return None;
    }

    method AppendRecord(id: nat, status: SlotStatus, dataset: string, baseline: string, candidate: string)
      returns (record: RunSlotRecord)
      requires Valid()
      modifies this
      ensures Valid() && fresh(record) && record.id == id && records == old(records) + [record]
      ensures record.baseline == baseline && record.candidate == candidate
      ensures Rows() == old(Rows()) + [Row(id, status, dataset, None)]
    {
      record := new RunSlotRecord(id, status, dataset, baseline, candidate);
      records := records + [record];
    }

    method RequestRun(id: nat, dataset: string, baseline: string, candidate: string) returns (record: RunSlotRecord)
      requires Valid()
      modifies this, records
      ensures Valid() && old(records) <= records
      ensures Rows() == Request(old(Rows()), id, dataset).0
      ensures record == records[Request(old(Rows()), id, dataset).1]
      ensures record in old(records) || (fresh(record) && record.baseline == baseline && record.candidate == candidate)
    {
      hide FindActive, FindStatus, TakeWaitingPlace;
      var existing := FindActiveForDataset(dataset);
      if existing.Some? { return records[existing.value]; }
      var running := FindByStatus(Running);
      if running.None? {
        record := AppendRecord(id, Running, dataset, baseline, candidate);
        return;
      }
      var pending := FindByStatus(Pending);
      record := AppendPending(pending, id, dataset, baseline, candidate);
    }

    method AppendPending(pending: Option<nat>, id: nat, dataset: string, baseline: string, candidate: string)
      returns (record: RunSlotRecord)
      requires Valid() && (pending.Some? ==> pending.value < |records|)
      modifies this, if pending.Some? then {records[pending.value]} else {}
      ensures Valid() && fresh(record) && records == old(records) + [record]
      ensures record.baseline == baseline && record.candidate == candidate
      ensures Rows() == TakeWaitingPlace(old(Rows()), pending, id, dataset)
    {
      if pending.Some? { SetStatus(pending.value, Superseded); }
      record := AppendRecord(id, Pending, dataset, baseline, candidate);
      if pending.Some? { SetSupersededBy(pending.value, record.id); }
    }

    method SetStatus(i: nat, status: SlotStatus)
      requires Valid() && i < |records|
      modifies records[i]
      ensures Rows() == old(Rows())[i := old(Rows())[i].(status := status)]
    {
      records[i].status := status;
    }

    method SetSupersededBy(i: nat, id: nat)
      requires Valid() && i < |records|
      modifies records[i]
      ensures Rows() == old(Rows())[i := old(Rows())[i].(supersededBy := Some(id))]
    {
      records[i].supersededBy := Some(id);
    }
  }
}
