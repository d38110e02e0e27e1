/** Whole runs of cutovers and rollbacks over the snapshot table refine runs over a stack. */
module SnapshotRuns {
  import opened Wrappers
  import opened SnapshotRegistry

  datatype Op = Cutover(id: nat, model: string, index: string, capturedAt: int) | Rollback

  /** One operation on the table. A rollback without a target fails and changes nothing. */
  function Apply(rows: seq<Snapshot>, op: Op): seq<Snapshot> {
    match op
    case Cutover(id, model, index, t) => RecordCutover(rows, id, model, index, t)
    case Rollback => match RecordRollback(rows) case Some(r) => r case None => rows
  }

  function Run(rows: seq<Snapshot>, ops: seq<Op>): seq<Snapshot>
    decreases |ops|
  {
    if ops == [] then rows else Run(Apply(rows, ops[0]), ops[1..])
  }

  // ---- the abstract stack of releases ----

  function TopId(stack: seq<Snapshot>): Option<nat> {
    if stack == [] then None else Some(stack[|stack| - 1].id)
  }

  function StackApply(stack: seq<Snapshot>, op: Op): seq<Snapshot> {
    match op
    case Cutover(id, model, index, t) => stack + [Snapshot(id, model, index, Superseded, TopId(stack), t)]
    case Rollback => if |stack| >= 2 then stack[..|stack| - 1] else stack
  }

  function StackRun(stack: seq<Snapshot>, ops: seq<Op>): seq<Snapshot>
    decreases |ops|
  {
    if ops == [] then stack else StackRun(StackApply(stack, ops[0]), ops[1..])
  }

  /** Each cutover is captured later than every release on the stack at that point. */
  ghost predicate InTime(stack: seq<Snapshot>, ops: seq<Op>)
    decreases |ops|
  {
    ops == [] || (
      && (ops[0].Cutover? ==> forall k :: 0 <= k < |stack| ==> stack[k].capturedAt < ops[0].capturedAt)
      && InTime(StackApply(stack, ops[0]), ops[1..]))
  }

  lemma StepRefines(rows: seq<Snapshot>, op: Op)
    requires IsStack(rows)
    requires op.Cutover? ==> forall k :: 0 <= k < |Stack(rows)| ==> Stack(rows)[k].capturedAt < op.capturedAt
    ensures IsStack(Apply(rows, op)) && Stack(Apply(rows, op)) == StackApply(Stack(rows), op)
  {
    hide Live, Stack, IsStack, RecordCutover, RecordRollback, Top;
    match op
    case Cutover(id, model, index, t) =>
      CutoverOnStack(rows, id, model, index, t);
      TopOfStack(rows);
    case Rollback => RollbackOnStack(rows);
  }

  /** Over every run whose captures come in order, the table is the stack. */
  lemma TableRefinesStack(rows: seq<Snapshot>, ops: seq<Op>)
    requires IsStack(rows) && InTime(Stack(rows), ops)
    ensures IsStack(Run(rows, ops)) && Stack(Run(rows, ops)) == StackRun(Stack(rows), ops)
    decreases |ops|
  {
    if ops != [] {
      StepRefines(rows, ops[0]);
      TableRefinesStack(Apply(rows, ops[0]), ops[1..]);
    }
  }

  /** What serving reads off the table: the active release's model and index. */
  function ActivePair(rows: seq<Snapshot>): Option<(string, string)> {
    match Find(rows, Active) case None => None case Some(i) => Some((rows[i].model, rows[i].index))
  }

  lemma ActivePairIsTop(rows: seq<Snapshot>)
    requires Shaped(rows)
    ensures var s := Stack(rows);
      ActivePair(rows) == if s == [] then None else Some((s[|s| - 1].model, s[|s| - 1].index))
  {
    FoundInStack(rows);
  }

  function Rollbacks(n: nat): seq<Op> {
    seq(n, _ => Rollback)
  }

  lemma StackRunConcat(stack: seq<Snapshot>, a: seq<Op>, b: seq<Op>)
    ensures StackRun(stack, a + b) == StackRun(StackRun(stack, a), b)
    decreases |a|
  {
    if a == [] { assert a + b == b; } else {
      assert (a + b)[1..] == a[1..] + b;
      StackRunConcat(StackApply(stack, a[0]), a[1..], b);
    }
  }

  lemma InTimeConcat(stack: seq<Snapshot>, a: seq<Op>, b: seq<Op>)
    requires InTime(stack, a) && InTime(StackRun(stack, a), b)
    ensures InTime(stack, a + b)
    decreases |a|
  {
    if a == [] { assert a + b == b; } else {
      assert (a + b)[1..] == a[1..] + b;
      InTimeConcat(StackApply(stack, a[0]), a[1..], b);
    }
  }

  lemma RollbacksAreInTime(stack: seq<Snapshot>, n: nat)
    ensures InTime(stack, Rollbacks(n))
    decreases n
  {
    if n > 0 {
      assert Rollbacks(n)[1..] == Rollbacks(n - 1);
      RollbacksAreInTime(StackApply(stack, Rollback), n - 1);
    }
  }

  lemma PushesThenPops(stack: seq<Snapshot>, cutovers: seq<Op>)
    requires stack != [] && forall i :: 0 <= i < |cutovers| ==> cutovers[i].Cutover?
    ensures StackRun(stack, cutovers + Rollbacks(|cutovers|)) == stack
    decreases |cutovers|
  {
    var n := |cutovers|;
    if n > 0 {
      var pushed := StackApply(stack, cutovers[0]);
      var inner := cutovers[1..] + Rollbacks(n - 1);
      PushesThenPops(pushed, cutovers[1..]);
      assert cutovers + Rollbacks(n) == [cutovers[0]] + (inner + [Rollback]);
      assert ([cutovers[0]] + (inner + [Rollback]))[1..] == inner + [Rollback];
      StackRunConcat(pushed, inner, [Rollback]);
      assert StackRun(pushed, [Rollback]) == StackRun(StackApply(pushed, Rollback), [Rollback][1..]);
    }
  }

  /** Any cutovers followed by as many rollbacks restore the stack and the active pair. */
  lemma RollbacksUndoCutovers(rows: seq<Snapshot>, cutovers: seq<Op>)
    requires IsStack(rows) && Stack(rows) != [] && InTime(Stack(rows), cutovers)
    requires forall i :: 0 <= i < |cutovers| ==> cutovers[i].Cutover?
    ensures var r := Run(rows, cutovers + Rollbacks(|cutovers|));
      IsStack(r) && Stack(r) == Stack(rows) && ActivePair(r) == ActivePair(rows)
  {
    hide Stack, Shaped, Run, StackRun, InTime, ActivePair, CapturedInOrder;
    var ops := cutovers + Rollbacks(|cutovers|);
    RollbacksAreInTime(StackRun(Stack(rows), cutovers), |cutovers|);
    InTimeConcat(Stack(rows), cutovers, Rollbacks(|cutovers|));
    TableRefinesStack(rows, ops);
    PushesThenPops(Stack(rows), cutovers);
    ActivePairIsTop(rows);
    ActivePairIsTop(Run(rows, ops));
  }

  /** The rollback target is always the release the active one links to. */
  lemma TargetIsLinked(rows: seq<Snapshot>)
    requires Shaped(rows) && Find(rows, Active).Some?
    ensures rows[Find(rows, Active).value].previous
         == match Find(rows, PreviousStable) case None => None case Some(i) => Some(rows[i].id)
  {
    FoundInStack(rows);
    var l := Live(rows);
    if |l| >= 2 { assert rows[l[|l| - 1]].previous == Some(rows[l[|l| - 2]].id); }
  }

  /** A cutover that reuses an old capture time breaks this. After cutovers captured at 10, 5, 20 and 30 a
      rollback restores release 2, which was captured over release 1, but makes release 0 the next target. */
  lemma ReusedCaptureTimeSkipsARelease()
    ensures var rows := Run([],
        [Cutover(0, "m0", "i0", 10), Cutover(1, "m1", "i1", 5), Cutover(2, "m2", "i2", 20),
          Cutover(3, "m3", "i3", 30)]);
      var after := [
        Snapshot(0, "m0", "i0", PreviousStable, None, 10), Snapshot(1, "m1", "i1", Superseded, Some(0), 5),
        Snapshot(2, "m2", "i2", Active, Some(1), 20), Snapshot(3, "m3", "i3", RolledBack, Some(2), 30)];
      RecordRollback(rows) == Some(after)
  {
    FourCutovers();
    var rows := FourReleases();
    FindUnique(rows, PreviousStable, 2);
    FindUnique(rows, Active, 3);
    var before := [rows[0], rows[1], rows[2].(status := Active), rows[3].(status := RolledBack)];
    assert BeforeNextPrior(rows) == before;
    assert before[0].status == Superseded;
    assert LatestSuperseded(before) == Some(0);
    assert RollbackWith(rows, Some(0)) == [before[0].(status := PreviousStable), before[1], before[2], before[3]];
  }

  function FourReleases(): seq<Snapshot> {
    [Snapshot(0, "m0", "i0", Superseded, None, 10), Snapshot(1, "m1", "i1", Superseded, Some(0), 5),
     Snapshot(2, "m2", "i2", PreviousStable, Some(1), 20), Snapshot(3, "m3", "i3", Active, Some(2), 30)]
  }

  lemma FourCutovers()
    ensures Run([],
        [Cutover(0, "m0", "i0", 10), Cutover(1, "m1", "i1", 5), Cutover(2, "m2", "i2", 20), Cutover(3, "m3", "i3", 30)])
      == FourReleases()
  {
    var ops :=
      [Cutover(0, "m0", "i0", 10), Cutover(1, "m1", "i1", 5), Cutover(2, "m2", "i2", 20), Cutover(3, "m3", "i3", 30)];
    var one := [Snapshot(0, "m0", "i0", Active, None, 10)];
    var two := [Snapshot(0, "m0", "i0", PreviousStable, None, 10), Snapshot(1, "m1", "i1", Active, Some(0), 5)];
    var three := [Snapshot(0, "m0", "i0", Superseded, None, 10), Snapshot(1, "m1", "i1", PreviousStable, Some(0), 5),
                  Snapshot(2, "m2", "i2", Active, Some(1), 20)];
    FirstTwo(one, two);
    LaterCutover(two, 0, 1, 2, "m2", "i2", 20, three);
    LaterCutover(three, 1, 2, 3, "m3", "i3", 30, FourReleases());
    hide RecordCutover;
    assert Run([], ops) == Run(one, ops[1..]) == Run(two, ops[1..][1..]) == Run(three, ops[1..][1..][1..]);
    assert ops[1..][1..][1..] == [ops[3]] && [ops[3]][1..] == [];
    assert Run(three, [ops[3]]) == Run(FourReleases(), []);
  }

  lemma FirstTwo(one: seq<Snapshot>, two: seq<Snapshot>)
    requires one == [Snapshot(0, "m0", "i0", Active, None, 10)]
    requires two == [Snapshot(0, "m0", "i0", PreviousStable, None, 10), Snapshot(1, "m1", "i1", Active, Some(0), 5)]
    ensures RecordCutover([], 0, "m0", "i0", 10) == one && RecordCutover(one, 1, "m1", "i1", 5) == two
  {
    assert Find(one, PreviousStable).None?;
    FindUnique(one, Active, 0);
  }

  lemma LaterCutover(
    rows: seq<Snapshot>, p: nat, a: nat, id: nat, model: string, index: string, t: int, after: seq<Snapshot>)
    requires p < |rows| && a < |rows| && p != a && rows[p].status == PreviousStable && rows[a].status == Active
    requires forall i :: 0 <= i < |rows| && i != p && i != a ==> rows[i].status == Superseded
    requires after == rows[p := rows[p].(status := Superseded)][a := rows[a].(status := PreviousStable)]
      + [Snapshot(id, model, index, Active, Some(rows[a].id), t)]
    ensures RecordCutover(rows, id, model, index, t) == after
  {
    FindUnique(rows, PreviousStable, p);
    FindUnique(rows[p := rows[p].(status := Superseded)], Active, a);
  }
}
