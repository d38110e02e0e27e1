/**
 The table of release snapshots. Cutover and rollback only move statuses and append rows;
 this module proves that the table nevertheless behaves as a stack of releases.
 */
module SnapshotRegistry {
  import opened Wrappers

  datatype Status = Active | PreviousStable | Superseded | RolledBack

  datatype Snapshot = Snapshot(
    id: nat, model: string, index: string, status: Status, previous: Option<nat>, capturedAt: int)

  // ---- the queries ----

  /** The first row with a status; a unique index allows one row at most for the two statuses asked for. */
  function Find(rows: seq<Snapshot>, status: Status): (r: Option<nat>)
    ensures r.Some? ==> r.value < |rows| && rows[r.value].status == status
    ensures r.None? ==> forall i :: 0 <= i < |rows| ==> rows[i].status != status
  {
    if rows == [] then None
    else
      var n := |rows| - 1;
      match Find(rows[..n], status)
      case Some(i) => Some(i)
      case None => if rows[n].status == status then Some(n) else None
  }

  /** Some superseded row that no superseded row was captured after. Among rows captured at the
      same time the query does not say which one it returns. */
  ghost predicate IsLatestSuperseded(rows: seq<Snapshot>, pick: Option<nat>) {
    match pick
    case None => forall i :: 0 <= i < |rows| ==> rows[i].status != Superseded
    case Some(p) =>
      && p < |rows| && rows[p].status == Superseded
      && forall i :: 0 <= i < |rows| && rows[i].status == Superseded ==> rows[i].capturedAt <= rows[p].capturedAt
  }

  function LatestSuperseded(rows: seq<Snapshot>): (pick: Option<nat>)
    ensures IsLatestSuperseded(rows, pick)
  {
    if rows == [] then None
    else
      var n := |rows| - 1;
      match LatestSuperseded(rows[..n])
      case None => if rows[n].status == Superseded then Some(n) else None
      case Some(i) =>
        if rows[n].status == Superseded && rows[n].capturedAt > rows[i].capturedAt then Some(n) else Some(i)
  }

  function SetStatus(rows: seq<Snapshot>, i: Option<nat>, status: Status): (r: seq<Snapshot>)
    requires i.Some? ==> i.value < |rows|
    ensures |r| == |rows|
  {
    if i.Some? then rows[i.value := rows[i.value].(status := status)] else rows
  }

  // ---- the two updates ----

  function RecordCutover(rows: seq<Snapshot>, id: nat, model: string, index: string, capturedAt: int): seq<Snapshot> {
    var demoted := SetStatus(rows, Find(rows, PreviousStable), Superseded);
    var current := Find(demoted, Active);
    var stepped := SetStatus(demoted, current, PreviousStable);
    var previous := if current.Some? then Some(stepped[current.value].id) else None;
    stepped + [Snapshot(id, model, index, Active, previous, capturedAt)]
  }

  /** The rows when the next prior release is looked up. */
  function BeforeNextPrior(rows: seq<Snapshot>): seq<Snapshot> {
    var target := Find(rows, PreviousStable);
    var rolled := SetStatus(rows, Find(rows, Active), RolledBack);
    SetStatus(rolled, target, Active)
  }

  function RollbackWith(rows: seq<Snapshot>, pick: Option<nat>): seq<Snapshot>
    requires pick.Some? ==> pick.value < |rows|
  {
    SetStatus(BeforeNextPrior(rows), pick, PreviousStable)
  }

  /** Fails without a rollback target, and then changes nothing. */
  function RecordRollback(rows: seq<Snapshot>): Option<seq<Snapshot>> {
    if Find(rows, PreviousStable).None? then None
    else Some(RollbackWith(rows, LatestSuperseded(BeforeNextPrior(rows))))
  }

  // ---- the stack behind the table ----

  /** The positions of the rows that are not rolled back, oldest first. */
  function Live(rows: seq<Snapshot>): (r: seq<nat>)
    ensures forall k :: 0 <= k < |r| ==> r[k] < |rows| && rows[r[k]].status != RolledBack
    ensures forall j, k :: 0 <= j < k < |r| ==> r[j] < r[k]
  {
    if rows == [] then []
    else
      var n := |rows| - 1;
      var r := Live(rows[..n]);
      if rows[n].status != RolledBack then r + [n] else r
  }

  function StatusAt(k: int, n: int): Status {
    if k == n - 1 then Active else if k == n - 2 then PreviousStable else Superseded
  }

  /** Top to bottom the rows at positions `l` are active, previous stable, and superseded, and each
      links to the one below. */
  ghost predicate ShapedAlong(rows: seq<Snapshot>, l: seq<nat>) {
    && (forall k :: 0 <= k < |l| ==> l[k] < |rows|)
    && (forall k :: 0 <= k < |l| ==> rows[l[k]].status == StatusAt(k, |l|))
    && (l != [] ==> rows[l[0]].previous == None)
    && (forall j, k :: 0 <= j < k < |l| && k == j + 1 ==> rows[l[k]].previous == Some(rows[l[j]].id))
  }

  ghost predicate Shaped(rows: seq<Snapshot>) {
    ShapedAlong(rows, Live(rows))
  }

  /** The stack: the live rows, oldest first. Their statuses are left out: positions determine them. */
  function Stack(rows: seq<Snapshot>): seq<Snapshot> {
    var l := Live(rows);
    seq(|l|, k requires 0 <= k < |l| => rows[l[k]].(status := Superseded))
  }

  ghost predicate CapturedInOrder(rows: seq<Snapshot>) {
    var s := Stack(rows);
    forall j, k :: 0 <= j < k < |s| ==> s[j].capturedAt < s[k].capturedAt
  }

  ghost predicate IsStack(rows: seq<Snapshot>) {
    Shaped(rows) && CapturedInOrder(rows)
  }

  // ---- what the queries find in a stack ----

  lemma FindUnique(rows: seq<Snapshot>, status: Status, i: nat)
    requires i < |rows| && rows[i].status == status
    requires forall j :: 0 <= j < |rows| && j != i ==> rows[j].status != status
    ensures Find(rows, status) == Some(i)
  {
  }

  lemma FindAppend(rows: seq<Snapshot>, row: Snapshot, status: Status)
    ensures Find(rows + [row], status)
         == if Find(rows, status).Some? then Find(rows, status) else if row.status == status then Some(|rows|) else None
  {
    assert (rows + [row])[..|rows|] == rows;
  }

  lemma FindAfterUpdate(rows: seq<Snapshot>, i: nat, moved: Status, status: Status)
    requires i < |rows| && rows[i].status != status && moved != status
    ensures Find(SetStatus(rows, Some(i), moved), status) == Find(rows, status)
  {
    hide Find;
    var n := |rows| - 1;
    var init, last := rows[..n], rows[n];
    assert rows == init + [last];
    FindAppend(init, last, status);
    if i < n {
      assert SetStatus(rows, Some(i), moved) == SetStatus(init, Some(i), moved) + [last];
      FindAppend(SetStatus(init, Some(i), moved), last, status);
      FindAfterUpdate(init, i, moved, status);
    } else {
      assert SetStatus(rows, Some(i), moved) == init + [last.(status := moved)];
      FindAppend(init, last.(status := moved), status);
    }
  }

  /** Every row that is not rolled back has a position in the stack. */
  lemma PositionOf(rows: seq<Snapshot>, i: nat) returns (k: nat)
    requires i < |rows| && rows[i].status != RolledBack
    ensures k < |Live(rows)| && Live(rows)[k] == i
  {
    var n := |rows| - 1;
    if i == n { k := |Live(rows)| - 1; } else { k := PositionOf(rows[..n], i); }
  }

  lemma FoundInStack(rows: seq<Snapshot>)
    requires Shaped(rows)
    ensures var l := Live(rows);
      && Find(rows, Active) == (if |l| >= 1 then Some(l[|l| - 1]) else None)
      && Find(rows, PreviousStable) == (if |l| >= 2 then Some(l[|l| - 2]) else None)
  {
    var l := Live(rows);
    if Find(rows, Active).Some? { var k := PositionOf(rows, Find(rows, Active).value); }
    if Find(rows, PreviousStable).Some? { var k := PositionOf(rows, Find(rows, PreviousStable).value); }
    assert |l| >= 1 ==> rows[l[|l| - 1]].status == Active;
    assert |l| >= 2 ==> rows[l[|l| - 2]].status == PreviousStable;
  }

  lemma LiveAppend(rows: seq<Snapshot>, row: Snapshot)
    ensures Live(rows + [row]) == Live(rows) + (if row.status != RolledBack then [|rows|] else [])
  {
    assert (rows + [row])[..|rows|] == rows;
  }

  /** As long as nothing was rolled back, every row is live. */
  lemma {:induction false} LiveAll(rows: seq<Snapshot>)
    requires forall row <- rows :: row.status != RolledBack
    ensures |Live(rows)| == |rows| && forall k :: 0 <= k < |rows| ==> Live(rows)[k] == k
  {
    if rows != [] { LiveAll(rows[..|rows| - 1]); }
  }

  /** Moving a live row between live statuses keeps the live positions. */
  lemma LiveAfterUpdate(rows: seq<Snapshot>, i: nat, status: Status)
    requires i < |rows| && status != RolledBack && rows[i].status != RolledBack
    ensures Live(SetStatus(rows, Some(i), status)) == Live(rows)
  {
    hide Live;
    var n := |rows| - 1;
    var init, last := rows[..n], rows[n];
    assert rows == init + [last];
    LiveAppend(init, last);
    if i < n {
      assert SetStatus(rows, Some(i), status) == SetStatus(init, Some(i), status) + [last];
      LiveAppend(SetStatus(init, Some(i), status), last);
      LiveAfterUpdate(init, i, status);
    } else {
      assert SetStatus(rows, Some(i), status) == init + [last.(status := status)];
      LiveAppend(init, last.(status := status));
    }
  }

  lemma LiveAfterRollingBackTop(rows: seq<Snapshot>, i: nat)
    requires i < |rows| && Live(rows) != [] && i == Live(rows)[|Live(rows)| - 1]
    ensures Live(SetStatus(rows, Some(i), RolledBack)) == Live(rows)[..|Live(rows)| - 1]
  {
    hide Live;
    var n := |rows| - 1;
    var init, last := rows[..n], rows[n];
    assert rows == init + [last];
    LiveAppend(init, last);
    if last.status != RolledBack {
      assert SetStatus(rows, Some(i), RolledBack) == init + [last.(status := RolledBack)];
      LiveAppend(init, last.(status := RolledBack));
    } else {
      assert Live(rows) == Live(init) + [];
      assert i < n && SetStatus(rows, Some(i), RolledBack) == SetStatus(init, Some(i), RolledBack) + [last];
      LiveAppend(SetStatus(init, Some(i), RolledBack), last);
      LiveAfterRollingBackTop(init, i);
    }
  }

  // ---- cutover pushes, rollback pops ----

  function Top(rows: seq<Snapshot>): Option<nat> {
    var l := Live(rows);
    if l == [] then None else Some(rows[l[|l| - 1]].id)
  }

  /** A cutover pushes the new release and links it to the one that was active. */
  lemma CutoverPushes(rows: seq<Snapshot>, id: nat, model: string, index: string, capturedAt: int)
    requires Shaped(rows)
    ensures var r := RecordCutover(rows, id, model, index, capturedAt);
      && Shaped(r)
      && Live(r) == Live(rows) + [|rows|]
      && Stack(r) == Stack(rows) + [Snapshot(id, model, index, Superseded, Top(rows), capturedAt)]
  {
    hide Find, Live, Stack, ShapedAlong, RecordCutover, SetStatus;
    var demoted := SetStatus(rows, Find(rows, PreviousStable), Superseded);
    var stepped := SetStatus(demoted, Find(demoted, Active), PreviousStable);
    var row := Snapshot(id, model, index, Active, Top(rows), capturedAt);
    CutoverStatuses(rows);
    CutoverRow(rows, id, model, index, capturedAt);
    LiveAppend(stepped, row);
    PushedShape(rows, stepped, Live(rows), row);
    PushedStack(rows, stepped, row);
  }

  /** The new row links to the release that was active. */
  lemma CutoverRow(rows: seq<Snapshot>, id: nat, model: string, index: string, capturedAt: int)
    requires Shaped(rows)
    ensures var demoted := SetStatus(rows, Find(rows, PreviousStable), Superseded);
      var stepped := SetStatus(demoted, Find(demoted, Active), PreviousStable);
      RecordCutover(rows, id, model, index, capturedAt)
      == stepped + [Snapshot(id, model, index, Active, Top(rows), capturedAt)]
  {
    hide Find, Live, Stack;
    CutoverStatuses(rows);
    FoundInStack(rows);
  }

  lemma PushedShape(rows: seq<Snapshot>, stepped: seq<Snapshot>, l: seq<nat>, row: Snapshot)
    requires ShapedAlong(rows, l) && |stepped| == |rows| && row.status == Active
    requires forall k :: 0 <= k < |l| ==> stepped[l[k]] == rows[l[k]].(status := StatusAt(k, |l| + 1))
    requires row.previous == if l == [] then None else Some(rows[l[|l| - 1]].id)
    ensures ShapedAlong(stepped + [row], l + [|rows|])
  {
  }

  lemma PushedStack(rows: seq<Snapshot>, stepped: seq<Snapshot>, row: Snapshot)
    requires |stepped| == |rows| && Live(stepped) == Live(rows) && row.status != RolledBack
    requires var l := Live(rows);
      forall k :: 0 <= k < |l| ==> stepped[l[k]] == rows[l[k]].(status := stepped[l[k]].status)
    ensures Stack(stepped + [row]) == Stack(rows) + [row.(status := Superseded)]
  {
    LiveAppend(stepped, row);
  }

  /** Before the new row is added, the live rows are demoted by one place each. */
  lemma CutoverStatuses(rows: seq<Snapshot>)
    requires Shaped(rows)
    ensures var demoted := SetStatus(rows, Find(rows, PreviousStable), Superseded);
      var stepped := SetStatus(demoted, Find(demoted, Active), PreviousStable);
      var l := Live(rows);
      && Find(demoted, Active) == Find(rows, Active) && Live(stepped) == l
      && (forall k :: 0 <= k < |l| ==> stepped[l[k]] == rows[l[k]].(status := StatusAt(k, |l| + 1)))
      && (forall i :: 0 <= i < |rows| ==> stepped[i] == rows[i].(status := stepped[i].status))
  {
    hide Live, Find;
    var l, n := Live(rows), |Live(rows)|;
    FoundInStack(rows);
    DemotedStatuses(rows);
    var demoted := SetStatus(rows, Find(rows, PreviousStable), Superseded);
    if n >= 1 { LiveAfterUpdate(demoted, l[n - 1], PreviousStable); }
  }

  lemma DemotedStatuses(rows: seq<Snapshot>)
    requires Shaped(rows)
    ensures var demoted := SetStatus(rows, Find(rows, PreviousStable), Superseded);
      Live(demoted) == Live(rows) && Find(demoted, Active) == Find(rows, Active)
  {
    hide Live, Find, ShapedAlong;
    FoundInStack(rows);
    var l, n := Live(rows), |Live(rows)|;
    if n >= 2 {
      LiveAfterUpdate(rows, l[n - 2], Superseded);
      FindAfterUpdate(rows, l[n - 2], Superseded, Active);
    }
  }

  /** When the next prior release is looked up, the top is rolled back and the row below is active. */
  lemma RollbackStatuses(rows: seq<Snapshot>)
    requires Shaped(rows) && |Live(rows)| >= 2
    ensures var before, l, n := BeforeNextPrior(rows), Live(rows), |Live(rows)|;
      && |before| == |rows| && Live(before) == l[..n - 1]
      && before[l[n - 1]].status == RolledBack && before[l[n - 2]].status == Active
      && (forall k :: 0 <= k < n - 2 ==> before[l[k]].status == Superseded)
      && (forall i :: 0 <= i < |rows| ==> before[i] == rows[i].(status := before[i].status))
  {
    hide Live, Find;
    var l, n := Live(rows), |Live(rows)|;
    FoundInStack(rows);
    LiveAfterRollingBackTop(rows, l[n - 1]);
    var rolled := SetStatus(rows, Some(l[n - 1]), RolledBack);
    LiveAfterUpdate(rolled, l[n - 2], Active);
  }

  /** Row `k` of a stack lies below the two topmost, and none of those was captured after it. */
  ghost predicate LatestBelow(s: seq<Snapshot>, k: int) {
    0 <= k < |s| - 2 && forall j :: 0 <= j < |s| - 2 ==> s[j].capturedAt <= s[k].capturedAt
  }

  lemma SupersededBefore(rows: seq<Snapshot>, i: nat) returns (k: nat)
    requires Shaped(rows) && |Live(rows)| >= 2 && i < |rows|
    requires |BeforeNextPrior(rows)| == |rows| && BeforeNextPrior(rows)[i].status == Superseded
    ensures k < |Live(rows)| - 2 && Live(rows)[k] == i
  {
    hide Live, Find;
    RollbackStatuses(rows);
    k := PositionOf(BeforeNextPrior(rows), i);
  }

  /** What the lookup may return. */
  lemma PickInStack(rows: seq<Snapshot>, pick: Option<nat>)
    requires Shaped(rows) && |Live(rows)| >= 2
    ensures IsLatestSuperseded(BeforeNextPrior(rows), pick) <==>
      if |Live(rows)| == 2 then pick == None
      else exists k :: LatestBelow(Stack(rows), k) && pick == Some(Live(rows)[k])
  {
    hide Live, Find, BeforeNextPrior, Shaped;
    RollbackStatuses(rows);
    var before, l, s, n := BeforeNextPrior(rows), Live(rows), Stack(rows), |Live(rows)|;
    assert forall k :: 0 <= k < n - 2 ==> before[l[k]].capturedAt == s[k].capturedAt;
    if n > 2 { assert before[l[0]].status == Superseded; }
    if IsLatestSuperseded(before, pick) && pick.Some? {
      var k := SupersededBefore(rows, pick.value);
      assert LatestBelow(s, k);
    }
    if k :| LatestBelow(s, k) && pick == Some(l[k]) {
      forall i | 0 <= i < |before| && before[i].status == Superseded
        ensures before[i].capturedAt <= before[l[k]].capturedAt
      {
        var j := SupersededBefore(rows, i);
      }
    }
    if n == 2 && pick == None {
      forall i | 0 <= i < |before| ensures before[i].status != Superseded {
        if before[i].status == Superseded { var j := SupersededBefore(rows, i); }
      }
    }
  }

  /** A rollback pops: the restored release is the one the popped release was captured over, and
      the next prior release is the one the restored release links to. */
  lemma RollbackPops(rows: seq<Snapshot>, pick: Option<nat>)
    requires Shaped(rows) && |Live(rows)| >= 2
    requires pick == if |Live(rows)| == 2 then None else Some(Live(rows)[|Live(rows)| - 3])
    ensures var r, n := RollbackWith(rows, pick), |Live(rows)|;
      Shaped(r) && Live(r) == Live(rows)[..n - 1] && Stack(r) == Stack(rows)[..n - 1]
  {
    hide Live, Find, RollbackWith, Stack, ShapedAlong;
    PoppedRows(rows, pick);
    PoppedShape(rows, RollbackWith(rows, pick), Live(rows));
    PoppedStack(rows, RollbackWith(rows, pick));
  }

  lemma PoppedRows(rows: seq<Snapshot>, pick: Option<nat>)
    requires Shaped(rows) && |Live(rows)| >= 2
    requires pick == if |Live(rows)| == 2 then None else Some(Live(rows)[|Live(rows)| - 3])
    ensures var r, l, n := RollbackWith(rows, pick), Live(rows), |Live(rows)|;
      && |r| == |rows| && Live(r) == l[..n - 1]
      && (forall k :: 0 <= k < n - 1 ==> r[l[k]] == rows[l[k]].(status := StatusAt(k, n - 1)))
      && (forall i :: 0 <= i < |rows| ==> r[i] == rows[i].(status := r[i].status))
  {
    hide Live, Find, BeforeNextPrior, Stack, ShapedAlong;
    RollbackStatuses(rows);
    var before, l, n := BeforeNextPrior(rows), Live(rows), |Live(rows)|;
    if n > 2 { LiveAfterUpdate(before, l[n - 3], PreviousStable); }
  }

  lemma PoppedStack(rows: seq<Snapshot>, r: seq<Snapshot>)
    requires |Live(rows)| >= 1 && |r| == |rows| && Live(r) == Live(rows)[..|Live(rows)| - 1]
    requires forall i :: 0 <= i < |rows| ==> r[i] == rows[i].(status := r[i].status)
    ensures Stack(r) == Stack(rows)[..|Live(rows)| - 1]
  {
    hide Live;
  }

  lemma PoppedShape(rows: seq<Snapshot>, r: seq<Snapshot>, l: seq<nat>)
    requires ShapedAlong(rows, l) && |l| >= 2 && |r| == |rows|
    requires forall k :: 0 <= k < |l| - 1 ==> r[l[k]] == rows[l[k]].(status := StatusAt(k, |l| - 1))
    ensures ShapedAlong(r, l[..|l| - 1])
  {
  }

  lemma PickAt(rows: seq<Snapshot>, k: int)
    requires Shaped(rows) && |Live(rows)| >= 3 && |Stack(rows)| == |Live(rows)| && LatestBelow(Stack(rows), k)
    ensures 0 <= k < |Live(rows)| - 2 && IsLatestSuperseded(BeforeNextPrior(rows), Some(Live(rows)[k]))
  {
    hide Live, Find, BeforeNextPrior, Stack, Shaped, IsLatestSuperseded;
    PickInStack(rows, Some(Live(rows)[k]));
  }

  lemma PickedAt(rows: seq<Snapshot>, pick: Option<nat>) returns (k: int)
    requires Shaped(rows) && |Live(rows)| >= 3 && IsLatestSuperseded(BeforeNextPrior(rows), pick)
    ensures |Stack(rows)| == |Live(rows)| && LatestBelow(Stack(rows), k) && pick == Some(Live(rows)[k])
  {
    hide Live, Find, BeforeNextPrior, Shaped, IsLatestSuperseded;
    PickInStack(rows, pick);
    k :| LatestBelow(Stack(rows), k) && pick == Some(Live(rows)[k]);
  }

  lemma OnlyLatest(s: seq<Snapshot>, top: int)
    requires |s| >= 3 && LatestBelow(s, top)
    ensures (forall k :: LatestBelow(s, k) ==> k == |s| - 3)
      <==> (forall k :: 0 <= k < |s| - 3 ==> s[k].capturedAt < s[|s| - 3].capturedAt)
  {
    var n := |s|;
    if forall k :: LatestBelow(s, k) ==> k == n - 3 {
      forall k | 0 <= k < n - 3 ensures s[k].capturedAt < s[n - 3].capturedAt {
        assert s[k].capturedAt == s[top].capturedAt ==> LatestBelow(s, k);
      }
    }
    if forall k :: 0 <= k < n - 3 ==> s[k].capturedAt < s[n - 3].capturedAt {
      forall k | LatestBelow(s, k) ensures k == n - 3 {
        assert s[n - 3].capturedAt <= s[k].capturedAt;
      }
    }
  }

  /** The query by capture time finds the release that the chain of links names, whatever it does
      about ties, exactly when that release was captured after every older live one. */
  lemma NextPriorFollowsChainIff(rows: seq<Snapshot>)
    requires Shaped(rows) && |Live(rows)| >= 3
    ensures var l, s, n := Live(rows), Stack(rows), |Live(rows)|;
      (forall pick :: IsLatestSuperseded(BeforeNextPrior(rows), pick) ==> pick == Some(l[n - 3]))
      <==> (forall k :: 0 <= k < n - 3 ==> s[k].capturedAt < s[n - 3].capturedAt)
  {
    hide Live, Find, BeforeNextPrior, Stack, Shaped, IsLatestSuperseded, LatestBelow;
    var before, l, s, n := BeforeNextPrior(rows), Live(rows), Stack(rows), |Live(rows)|;
    var top := PickedAt(rows, LatestSuperseded(before));
    OnlyLatest(s, top);
    if forall pick :: IsLatestSuperseded(before, pick) ==> pick == Some(l[n - 3]) {
      forall k | LatestBelow(s, k) ensures k == n - 3 {
        PickAt(rows, k);
      }
    }
    if forall k :: LatestBelow(s, k) ==> k == n - 3 {
      forall pick | IsLatestSuperseded(before, pick) ensures pick == Some(l[n - 3]) {
        var k := PickedAt(rows, pick);
      }
    }
  }

  /** On a table in capture order, cutover pushes. */
  lemma CutoverOnStack(rows: seq<Snapshot>, id: nat, model: string, index: string, capturedAt: int)
    requires IsStack(rows)
    requires forall k :: 0 <= k < |Stack(rows)| ==> Stack(rows)[k].capturedAt < capturedAt
    ensures var r := RecordCutover(rows, id, model, index, capturedAt);
      IsStack(r) && Stack(r) == Stack(rows) + [Snapshot(id, model, index, Superseded, Top(rows), capturedAt)]
  {
    hide Live, Find, Shaped, RecordCutover, Top;
    CutoverPushes(rows, id, model, index, capturedAt);
  }

  /** On a table in capture order, rollback pops, and it fails exactly when nothing lies below the top. */
  lemma RollbackOnStack(rows: seq<Snapshot>)
    requires IsStack(rows)
    ensures match RecordRollback(rows)
      case None => |Stack(rows)| < 2
      case Some(r) => |Stack(rows)| >= 2 && IsStack(r) && Stack(r) == Stack(rows)[..|Stack(rows)| - 1]
  {
    hide Live, Find, Shaped, RollbackWith, BeforeNextPrior;
    FoundInStack(rows);
    var l, s, n := Live(rows), Stack(rows), |Live(rows)|;
    if n >= 2 {
      var pick := LatestSuperseded(BeforeNextPrior(rows));
      PickInStack(rows, pick);
      if n > 2 {
        var k :| LatestBelow(s, k) && pick == Some(l[k]);
        assert s[n - 3].capturedAt <= s[k].capturedAt;
      }
      RollbackPops(rows, pick);
    }
  }

  lemma TopOfStack(rows: seq<Snapshot>)
    ensures Top(rows) == if Stack(rows) == [] then None else Some(Stack(rows)[|Stack(rows)| - 1].id)
  {
  }
}
