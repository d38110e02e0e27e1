/** Rollback requests arrive at least once; each names the switch it wants undone. */
module Redelivery {
  import opened Wrappers
  import opened SnapshotRegistry
  import opened Serving
  import opened ServingInvariant

  /** The instants a request's expected switch time is taken to mean. */
  function NamedBy(q: RollbackRequest): set<int> {
    {q.expectedSwitchedAt.wall}
    + match q.expectedSwitchedAt.offset { case Some(x) => {q.expectedSwitchedAt.wall - x} case None => {} }
  }

  /** A switch at the time passes for the one the request names. */
  predicate Matches(t: int, q: RollbackRequest) {
    SameDatetime(Some(Utc(t)), q.expectedSwitchedAt)
  }

  /** Ignoring the offset after comparing instants makes a request name a single switch exactly when
      its time is in UTC or carries no offset. */
  lemma NamesOneSwitchIff(q: RollbackRequest)
    ensures (forall t, u :: Matches(t, q) && Matches(u, q) ==> t == u)
      <==> q.expectedSwitchedAt.offset in {None, Some(0)}
  {
    var e := q.expectedSwitchedAt;
    if e.offset.Some? && e.offset.value != 0 {
      assert Matches(e.wall, q) && Matches(e.wall - e.offset.value, q);
    }
  }

  function Named(steps: seq<Step>): set<int> {
    if steps == [] then {}
    else (if steps[0].RollbackStep? then NamedBy(steps[0].request) else {}) + Named(steps[1..])
  }

  /** The number of rollbacks that complete in a run. */
  ghost function Completed(w: World, steps: seq<Step>): nat
    decreases |steps|
  {
    if steps == [] then 0
    else
      (if steps[0].RollbackStep? && HandleRollback(w, steps[0].request, steps[0].modelReady, steps[0].now).1 == Restored
       then 1 else 0)
      + Completed(Apply(w, steps[0]), steps[1..])
  }

  /** What matters of the release row here: when serving switched last, and whether a rollback is under way. */
  datatype Switch = Switch(at: Option<int>, preparing: bool)

  function SwitchOf(w: World): Switch {
    if w.release.None? then Switch(None, false)
    else Switch(w.release.value.switchedAt, w.release.value.status == RollbackPreparing)
  }

  function One(b: bool): nat { if b then 1 else 0 }

  /** The time at which a step switches serving, if it does. */
  ghost function SwitchTime(w: World, step: Step): Option<int> {
    if CutsOver(w, step) then Some(CutoverTime(w, step.runId, step.now))
    else if step.RollbackStep? && HandleRollback(w, step.request, step.modelReady, step.now).1 == Restored
    then Some(step.now)
    else None
  }

  /** The number of switches that set a time which is in `seen` or which an earlier switch of the run set. */
  ghost function RepeatsSince(w: World, steps: seq<Step>, seen: set<int>): nat
    decreases |steps|
  {
    if steps == [] then 0
    else
      match SwitchTime(w, steps[0])
      case None => RepeatsSince(Apply(w, steps[0]), steps[1..], seen)
      case Some(t) => One(t in seen) + RepeatsSince(Apply(w, steps[0]), steps[1..], seen + {t})
  }

  function LastSwitch(w: World): set<int> {
    if SwitchOf(w).at.Some? then {SwitchOf(w).at.value} else {}
  }

  /** The number of switches that set a time serving had already been switched at. */
  ghost function Repeats(w: World, steps: seq<Step>): nat {
    RepeatsSince(w, steps, LastSwitch(w))
  }

  /** A rollback is under way, or some request can start one now. */
  predicate Startable(s: Switch, named: set<int>) {
    s.preparing || (s.at.Some? && s.at.value in named)
  }

  /** A request that starts a rollback names the last switch; a completed one switches at the time it completes. */
  lemma RollbackSwitches(w: World, q: RollbackRequest, modelReady: bool, now: int)
    ensures var (r, outcome) := HandleRollback(w, q, modelReady, now);
      var starts := AdmissionOf(w, q) == Start;
      var s, s' := SwitchOf(w), SwitchOf(r);
      && (starts ==> !s.preparing && s.at.Some? && s.at.value in NamedBy(q))
      && (outcome == Restored ==> s' == Switch(Some(now), false) && (starts || s.preparing))
      && (outcome != Restored ==> s' == s.(preparing := s.preparing || starts))
  {
    hide RollbackTarget, IndexRestorable, AffectedProjects;
  }

  lemma CutoverSwitch(w: World, runId: nat, modelReady: bool, id: nat, now: int)
    ensures var s, s' := SwitchOf(w), SwitchOf(Cutover(w, runId, modelReady, id, now));
      if CutoverOutcomeOf(w, runId, modelReady) == CutOver
      then !s.preparing && s' == Switch(Some(CutoverTime(w, runId, now)), false)
      else s' == s
  {
    hide OldOnlyLeft, RecordCutover;
  }

  lemma OtherSwitches(w: World, step: Step)
    requires !step.RollbackStep? && !step.CutoverStep?
    ensures SwitchOf(Apply(w, step)) == SwitchOf(w)
  {
    hide CandidateIndexFor, RecordCandidateIndex, OpenOutcomeOf, SwitchOf, Open;
    hide Persist, LoadTarget, EnqueueItem, ReindexItem, CatalogRelease, Reembed, ScanAndRecover, SetVideoStatus;
    hide PurgeVideo;
    if step.OpenStep? { OpenSwitches(w, step.runId, step.now); } else { SameSwitch(w, Apply(w, step)); }
  }

  lemma SameSwitch(w: World, r: World)
    requires r.release == w.release
    ensures SwitchOf(r) == SwitchOf(w)
  {
  }

  lemma OpenSwitches(w: World, runId: nat, now: int)
    ensures SwitchOf(Open(w, runId, now)) == SwitchOf(w)
  {
    hide CandidateIndexFor, RecordCandidateIndex;
  }

  /** A step that does not switch keeps the time of the last switch; only a request that names that time starts a
      rollback. */
  lemma StepSwitches(w: World, step: Step)
    ensures var s, s', t := SwitchOf(w), SwitchOf(Apply(w, step)), SwitchTime(w, step);
      var named := if step.RollbackStep? then NamedBy(step.request) else {};
      && (if t.Some? then s' == Switch(t, false) else s'.at == s.at && (s'.preparing ==> Startable(s, named)))
      && (t.Some? && step.RollbackStep? ==> Startable(s, named))
  {
    hide Apply, Cutover, HandleRollback, AdmissionOf, CutoverOutcomeOf, NamedBy, CutoverTime, SwitchOf;
    if step.RollbackStep? {
      RollbackSwitches(w, step.request, step.modelReady, step.now);
      assert Apply(w, step) == HandleRollback(w, step.request, step.modelReady, step.now).0 by { Applies(w, step); }
    } else if step.CutoverStep? {
      CutoverSwitch(w, step.runId, step.modelReady, step.snapshotId, step.now);
      Applies(w, step);
    } else {
      OtherSwitches(w, step);
    }
  }

  lemma Applies(w: World, step: Step)
    ensures step.RollbackStep? ==>
      Apply(w, step) == HandleRollback(w, step.request, step.modelReady, step.now).0
    ensures step.CutoverStep? ==>
      Apply(w, step) == Cutover(w, step.runId, step.modelReady, step.snapshotId, step.now)
  {
    hide Cutover, HandleRollback;
  }

  /** What one step does to the bound below, for the requests named later on. */
  lemma StepUsesUpAnInstant(w: World, step: Step, later: set<int>, seen: set<int>)
    requires LastSwitch(w) <= seen
    ensures var r, t := Apply(w, step), SwitchTime(w, step);
      var named := (if step.RollbackStep? then NamedBy(step.request) else {}) + later;
      var seen' := if t.Some? then seen + {t.value} else seen;
      && LastSwitch(r) <= seen'
      && One(step.RollbackStep? && t.Some?) + |later - seen'| + One(Startable(SwitchOf(r), later))
         <= |named - seen| + One(t.Some? && t.value in seen) + One(Startable(SwitchOf(w), named))
  {
    hide Apply, SwitchTime, NamedBy, SwitchOf;
    var t := SwitchTime(w, step);
    var named := (if step.RollbackStep? then NamedBy(step.request) else {}) + later;
    SubsetSize(later - seen, named - seen);
    StepSwitches(w, step);
    if t.Some? { assert later - (seen + {t.value}) == (later - seen) - {t.value}; }
  }

  /** Each completed rollback uses up an instant that a request names, or a switch time used again. */
  lemma {:induction false} CompletionsAreBounded(w: World, steps: seq<Step>, seen: set<int>)
    requires LastSwitch(w) <= seen
    ensures Completed(w, steps) + One(SwitchOf(Run(w, steps)).preparing)
      <= |Named(steps) - seen| + RepeatsSince(w, steps, seen) + One(Startable(SwitchOf(w), Named(steps)))
    decreases |steps|
  {
    hide Apply, NamedBy, SwitchOf, CutsOver, CutoverTime;
    if steps != [] {
      var t := SwitchTime(w, steps[0]);
      StepUsesUpAnInstant(w, steps[0], Named(steps[1..]), seen);
      CompletionsAreBounded(Apply(w, steps[0]), steps[1..], if t.Some? then seen + {t.value} else seen);
    }
  }

  /** While the clock moves on between switches, no switch time is used again. */
  lemma {:induction false} NoRepeats(w: World, steps: seq<Step>, seen: set<int>)
    requires AllowedRun(w, steps)
    requires forall t <- seen :: SwitchOf(w).at.Some? && t <= SwitchOf(w).at.value
    ensures RepeatsSince(w, steps, seen) == 0
    decreases |steps|
  {
    hide Apply, Allowed, SwitchTime, NamedBy, SwitchOf;
    if steps != [] {
      var t := SwitchTime(w, steps[0]);
      StepSwitches(w, steps[0]);
      SwitchesLater(w, steps[0]);
      NoRepeats(Apply(w, steps[0]), steps[1..], if t.Some? then seen + {t.value} else seen);
    }
  }

  lemma SwitchesLater(w: World, step: Step)
    requires Allowed(w, step)
    ensures SwitchTime(w, step).Some? && SwitchOf(w).at.Some? ==> SwitchOf(w).at.value < SwitchTime(w, step).value
  {
    hide CapturedBefore, HandleRollback, CutoverOutcomeOf, CutoverTime;
  }

  /** The (model, switch time) pairs that the delivered requests carry. */
  function Pairs(steps: seq<Step>): set<(string, Datetime)> {
    if steps == [] then {}
    else
      (if steps[0].RollbackStep? then {(steps[0].request.expectedModel, steps[0].request.expectedSwitchedAt)} else {})
      + Pairs(steps[1..])
  }

  function Walls(pairs: set<(string, Datetime)>): set<int> {
    set p | p in pairs :: p.1.wall
  }

  lemma WallsSize(pairs: set<(string, Datetime)>)
    ensures |Walls(pairs)| <= |pairs|
  {
    if pairs != {} {
      var p :| p in pairs;
      WallsSize(pairs - {p});
      assert Walls(pairs) == Walls(pairs - {p}) + {p.1.wall};
    }
  }

  lemma NamedAreWalls(steps: seq<Step>)
    requires forall s <- steps :: s.RollbackStep? ==> s.request.expectedSwitchedAt.offset in {None, Some(0)}
    ensures Named(steps) <= Walls(Pairs(steps))
  {
    if steps != [] {
      NamedAreWalls(steps[1..]);
      assert steps[0] in steps;
      if steps[0].RollbackStep? {
        var pair := (steps[0].request.expectedModel, steps[0].request.expectedSwitchedAt);
        assert pair in Pairs(steps) && NamedBy(steps[0].request) == {pair.1.wall};
      }
      assert forall p <- Pairs(steps[1..]) :: p in Pairs(steps);
    }
  }

  /** However requests, cutovers, blocked restores and all other steps interleave, when the requests' times are in
      UTC or carry no offset: no more rollbacks complete than distinct (model, switch time) pairs were delivered,
      one more for each switch that set a time used before, and one for a rollback already under way. */
  lemma RedeliveryPopsAtMostOnce(w: World, steps: seq<Step>)
    requires forall s <- steps :: s.RollbackStep? ==> s.request.expectedSwitchedAt.offset in {None, Some(0)}
    ensures Completed(w, steps) <= |Pairs(steps)| + Repeats(w, steps) + One(SwitchOf(w).preparing)
    ensures AllowedRun(w, steps) ==> Repeats(w, steps) == 0
  {
    hide AllowedRun, Completed, SwitchOf;
    NamedAreWalls(steps);
    SubsetSize(Named(steps), Walls(Pairs(steps)));
    WallsSize(Pairs(steps));
    NamedAreBounded(w, steps);
  }

  lemma NamedAreBounded(w: World, steps: seq<Step>)
    ensures Completed(w, steps) <= |Named(steps)| + Repeats(w, steps) + One(SwitchOf(w).preparing)
    ensures AllowedRun(w, steps) ==> Repeats(w, steps) == 0
  {
    hide AllowedRun, Completed, RepeatsSince, SwitchOf;
    var seen := LastSwitch(w);
    CompletionsAreBounded(w, steps, seen);
    if !SwitchOf(w).preparing && Startable(SwitchOf(w), Named(steps)) {
      assert Named(steps) - seen == Named(steps) - {SwitchOf(w).at.value};
    }
    SubsetSize(Named(steps) - seen, Named(steps));
    if AllowedRun(w, steps) { NoRepeats(w, steps, seen); }
  }

  /** The instants the times carrying an offset stand for. */
  function Instants(pairs: set<(string, Datetime)>): set<int> {
    set p | p in pairs && p.1.offset.Some? :: p.1.wall - p.1.offset.value
  }

  lemma InstantsSize(pairs: set<(string, Datetime)>)
    ensures |Instants(pairs)| <= |pairs|
  {
    if pairs != {} {
      var p :| p in pairs;
      InstantsSize(pairs - {p});
      assert Instants(pairs)
        == Instants(pairs - {p}) + (if p.1.offset.Some? then {p.1.wall - p.1.offset.value} else {});
    }
  }

  lemma NamedAreWallsOrInstants(steps: seq<Step>)
    ensures Named(steps) <= Walls(Pairs(steps)) + Instants(Pairs(steps))
  {
    if steps != [] {
      NamedAreWallsOrInstants(steps[1..]);
      if steps[0].RollbackStep? {
        var pair := (steps[0].request.expectedModel, steps[0].request.expectedSwitchedAt);
        assert pair in Pairs(steps);
      }
      assert forall p <- Pairs(steps[1..]) :: p in Pairs(steps);
    }
  }

  /** Whatever offsets the times carry, a pair completes two rollbacks at most, with the same additions. */
  lemma RedeliveryPopsAtMostTwice(w: World, steps: seq<Step>)
    ensures Completed(w, steps) <= 2 * |Pairs(steps)| + Repeats(w, steps) + One(SwitchOf(w).preparing)
  {
    hide Completed, SwitchOf;
    var pairs := Pairs(steps);
    NamedAreWallsOrInstants(steps);
    SubsetSize(Named(steps), Walls(pairs) + Instants(pairs));
    WallsSize(pairs);
    InstantsSize(pairs);
    assert |Walls(pairs) + Instants(pairs)| == |Walls(pairs)| + |Instants(pairs)| - |Walls(pairs) * Instants(pairs)|;
    NamedAreBounded(w, steps);
  }
}
