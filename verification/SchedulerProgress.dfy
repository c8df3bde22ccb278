/** How owed fires come to their end: what brings them closer, what can set them back,
    and what a reschedule in the middle of a fire does. */
module SchedulerProgress {
  import opened Common
  import opened Recurrence
  import opened Scheduler
  import Runs

  // ---------------------------------------------------------------------------
  // Main results: progress
  // ---------------------------------------------------------------------------

  /** Owed, and reachable by the loop without waiting for the clock or a restart. */
  ghost predicate Ready(s: State, id: nat) {
    && id < |s.rows| && s.rows[id].cancelledAt == None
    && (s.rows[id].firesAt <= s.clock || id in s.inFlight || (!s.up && s.rows[id].lastStartedAt.Some?))
  }

  function Load(f: Fire): nat { if f.pc.Spawned? then 2 else 1 }

  /** Steps the coroutines of the current tick still have to take. */
  function Work(fires: seq<Fire>): nat {
    if fires == [] then 0 else Load(fires[0]) + Work(fires[1..])
  }

  ghost predicate IsRunning(s: State, id: nat) {
    exists f :: f in s.fires && f.id == id && f.pc.Running?
  }

  /** How far the schedule is from its next finalisation. */
  ghost function Distance(s: State, id: nat): nat {
    if !s.up then 4
    else if id in s.inFlight then (if IsRunning(s, id) then 1 else 2)
    else 3 + Work(s.fires)
  }

  lemma {:induction false} WorkOfUpdate(fires: seq<Fire>, i: nat, f: Fire)
    requires i < |fires|
    ensures Work(fires[i := f]) == Work(fires) - Load(fires[i]) + Load(f)
  {
    if i > 0 {
      assert fires[i := f][1..] == fires[1..][i - 1 := f];
      WorkOfUpdate(fires[1..], i - 1, f);
    }
  }

  lemma {:induction false} WorkOfRemoval(fires: seq<Fire>, i: nat)
    requires i < |fires|
    ensures Work(fires[..i] + fires[i + 1..]) == Work(fires) - Load(fires[i])
  {
    var rest := fires[..i] + fires[i + 1..];
    if i == 0 {
      assert rest == fires[1..];
    } else {
      assert rest[1..] == fires[1..][..i - 1] + fires[1..][i..];
      WorkOfRemoval(fires[1..], i - 1);
    }
  }

  lemma TickBringsCloser(s: State, id: nat)
    requires Inv(s) && Ready(s, id) && Enabled(s, Tick)
    ensures Ready(Ticked(s), id) && Distance(Ticked(s), id) <= Distance(s, id)
    ensures id !in s.inFlight ==> Distance(Ticked(s), id) < Distance(s, id)
  {
    var spawned, t := SpawnDue(s.rows, |s.rows|, s.inFlight, s.clock), Ticked(s);
    if id in s.inFlight {
      if IsRunning(s, id) {
        var f :| f in s.fires && f.id == id && f.pc.Running?;
        assert f in t.fires;
      }
    } else {
      assert Fire(id, s.rows[id], Spawned) in spawned;
    }
  }

  lemma ReserveBringsCloser(s: State, i: nat, id: nat)
    requires Inv(s) && Ready(s, id) && Enabled(s, Reserve(i))
    ensures Ready(Reserved(s, i), id) && Distance(Reserved(s, i), id) <= Distance(s, id)
    ensures (id in s.inFlight && s.fires[i].id != id) || Distance(Reserved(s, i), id) < Distance(s, id)
  {
    var t := Reserved(s, i);
    ReserveKeepsInv(s, i);
    assert FireInv(s, s.fires[i]) && s.fires[i].id in s.inFlight;
    WorkOfUpdate(s.fires, i, t.fires[i]);
    if IsRunning(s, id) {
      var f :| f in s.fires && f.id == id && f.pc.Running?;
      var k :| 0 <= k < |s.fires| && s.fires[k] == f;
      assert t.fires[k] == f;
      assert t.fires[k] in t.fires;
    }
    if s.fires[i].id == id {
      assert t.fires[i] in t.fires && t.fires[i].pc.Running?;
      assert forall k :: 0 <= k < |s.fires| && s.fires[k].id == id ==> k == i;
      assert forall f <- s.fires :: f.id == id ==> f == s.fires[i];
    }
  }

  /** The end of another schedule's coroutine. */
  lemma ReleaseBringsCloser(s: State, t: State, i: nat, id: nat)
    requires Inv(s) && Ready(s, id) && s.up && i < |s.fires| && s.fires[i].id != id
    requires id < |t.rows| && t.rows[id] == s.rows[id] && t.up && t.clock == s.clock
    requires t.fires == s.fires[..i] + s.fires[i + 1..] && t.inFlight == s.inFlight - {s.fires[i].id}
    ensures Ready(t, id) && Distance(t, id) <= Distance(s, id)
    ensures id in s.inFlight || Distance(t, id) < Distance(s, id)
  {
    WorkOfRemoval(s.fires, i);
    if IsRunning(s, id) {
      var f :| f in s.fires && f.id == id && f.pc.Running?;
      var k :| 0 <= k < |s.fires| && s.fires[k] == f;
      assert f == t.fires[if k < i then k else k - 1];
      assert f in t.fires;
    }
  }

  lemma FinaliseBringsCloser(s: State, i: nat, noOp: bool, id: nat)
    requires Inv(s) && Ready(s, id) && Enabled(s, Finalise(i, noOp))
    ensures var t := Finalised(s, i, noOp);
      && |t.finalised| == |t.rows| && id < |t.rows|
      && if s.fires[i].id == id then t.finalised[id] == s.finalised[id] + 1
         else && Ready(t, id) && Distance(t, id) <= Distance(s, id)
              && (id in s.inFlight || Distance(t, id) < Distance(s, id))
  {
    assert s.fires[i] in s.fires && FireInv(s, s.fires[i]);
    if s.fires[i].id != id {
      ReleaseBringsCloser(s, Finalised(s, i, noOp), i, id);
    }
  }

  lemma OthersLeaveReady(s: State, a: Action, id: nat)
    requires Inv(s) && Ready(s, id) && Enabled(s, a) && !Withdraws(a, id)
    requires a.Advance? || a.Create? || a.CancelSchedule? || a.Reschedule? || a.Boot?
    ensures Ready(Step(s, a), id) && Distance(Step(s, a), id) <= Distance(s, id)
    ensures a.Boot? ==> Distance(Step(s, a), id) < Distance(s, id)
  {
  }

  /** The coroutine of this very schedule raises. */
  predicate OwnFailure(s: State, a: Action, id: nat) {
    (a.Abort? || a.FinaliseError?) && a.i < |s.fires| && s.fires[a.i].id == id
  }

  lemma NothingSetsReadyBack(s: State, a: Action, id: nat)
    requires Inv(s) && Ready(s, id) && !Withdraws(a, id) && !a.Crash? && !OwnFailure(s, a, id)
    ensures var t := Step(s, a);
      && |t.finalised| == |t.rows| && id < |t.rows|
      && (t.finalised[id] == s.finalised[id] + 1 || (Ready(t, id) && Distance(t, id) <= Distance(s, id)))
  {
    StepKeepsInv(s, a);
    if Enabled(s, a) {
      match a
      case Tick => TickBringsCloser(s, id);
      case Reserve(i) => ReserveBringsCloser(s, i, id);
      case Finalise(i, noOp) => FinaliseBringsCloser(s, i, noOp, id);
      case Abort(i) => ReleaseBringsCloser(s, Released(s, i), i, id);
      case FinaliseError(i) => ReleaseBringsCloser(s, Released(s, i), i, id);
      case _ => OthersLeaveReady(s, a, id);
    }
  }

  /** How long an owed schedule still has to wait for the clock: no time at all,
      unless a finalising UPDATE raised and left it reserved. */
  ghost function Wait(s: State, id: nat): nat
    requires Owed(s, id)
  {
    if Ready(s, id) then 0 else s.rows[id].firesAt - s.clock
  }

  lemma NothingSetsWaitingBack(s: State, a: Action, id: nat)
    requires Inv(s) && Owed(s, id) && !Ready(s, id) && !Withdraws(a, id) && !a.Crash?
    ensures var t := Step(s, a);
      |t.finalised| == |t.rows| && Owed(t, id) && Wait(t, id) <= Wait(s, id)
  {
    StepKeepsInv(s, a);
    if Enabled(s, a) && (a.Reserve? || a.Finalise?) {
      assert s.fires[a.i] in s.fires && s.fires[a.i].id in s.inFlight;
    }
  }

  /** The other coroutines, the clock and the users never set an owed fire back, be
      it ready or waiting for the clock: only a crash, a failure of its own coroutine,
      its cancellation or a new time for it can. */
  lemma NothingSetsItBack(s: State, a: Action, id: nat)
    requires Inv(s) && Owed(s, id) && !Withdraws(a, id) && !a.Crash? && !OwnFailure(s, a, id)
    ensures var t := Step(s, a);
      && |t.finalised| == |t.rows| && id < |t.rows|
      && (t.finalised[id] == s.finalised[id] + 1
          || (&& Owed(t, id) && Wait(t, id) <= Wait(s, id)
              && (Ready(s, id) ==> Ready(t, id) && Distance(t, id) <= Distance(s, id))))
  {
    if Ready(s, id) {
      NothingSetsReadyBack(s, a, id);
    } else {
      NothingSetsWaitingBack(s, a, id);
    }
  }

  /** The step that comes next for this schedule: wait until it is due, start, run
      the coroutines of the current tick to their end, tick, reserve, finalise. */
  ghost function Helpful(s: State, id: nat): Action
    requires Inv(s) && Owed(s, id)
  {
    if !Ready(s, id) then Advance(Wait(s, id))
    else if !s.up then Boot
    else if id in s.inFlight then
      var i: nat :| i < |s.fires| && s.fires[i].id == id;
      if s.fires[i].pc.Spawned? then Reserve(i) else Finalise(i, false)
    else if s.fires == [] then Tick
    else if s.fires[0].pc.Spawned? then Reserve(0)
    else Finalise(0, false)
  }

  /** Less to wait, or nothing to wait and fewer steps to go. */
  ghost predicate Closer(t: State, s: State, id: nat)
    requires Owed(s, id)
  {
    Owed(t, id) && (Wait(t, id) < Wait(s, id) || (Wait(t, id) == Wait(s, id) && Distance(t, id) < Distance(s, id)))
  }

  lemma ReadyHelp(s: State, id: nat)
    requires Inv(s) && Ready(s, id)
    ensures Enabled(s, Helpful(s, id))
    ensures var t := Step(s, Helpful(s, id));
      && |t.finalised| == |t.rows| && id < |t.rows|
      && (t.finalised[id] == s.finalised[id] + 1 || (Ready(t, id) && Distance(t, id) < Distance(s, id)))
  {
    var a := Helpful(s, id);
    forall i: nat | i < |s.fires| ensures FireInv(s, s.fires[i]) {
      assert s.fires[i] in s.fires;
    }
    StepKeepsInv(s, a);
    match a
    case Tick => TickBringsCloser(s, id);
    case Reserve(i) => ReserveBringsCloser(s, i, id);
    case Finalise(i, noOp) => FinaliseBringsCloser(s, i, noOp, id);
    case _ =>
  }

  lemma HelpfulIsEnabledAndCloser(s: State, id: nat)
    requires Inv(s) && Owed(s, id)
    ensures Enabled(s, Helpful(s, id)) && !Helpful(s, id).Crash?
    ensures s.up ==> !Helpful(s, id).Boot? && Step(s, Helpful(s, id)).up
    ensures var t := Step(s, Helpful(s, id));
      && |t.finalised| == |t.rows| && id < |t.rows|
      && (t.finalised[id] == s.finalised[id] + 1 || Closer(t, s, id))
  {
    if Ready(s, id) {
      ReadyHelp(s, id);
    }
  }

  /** Every owed fire is finalised after finitely many helpful steps: one to let the
      time pass if it has to wait, and at most `Distance` more. */
  lemma {:induction false} OwedFireIsFinalised(s: State, id: nat) returns (actions: seq<Action>)
    requires Inv(s) && Owed(s, id)
    ensures |actions| <= Distance(s, id) + (if Ready(s, id) then 0 else 1)
    ensures forall a <- actions :: !a.Crash? && (s.up ==> !a.Boot?)
    ensures id < |Run(s, actions).finalised| && Run(s, actions).finalised[id] == s.finalised[id] + 1
    decreases Wait(s, id), Distance(s, id)
  {
    var a := Helpful(s, id);
    HelpfulIsEnabledAndCloser(s, id);
    StepKeepsInv(s, a);
    var t := Step(s, a);
    assert Run(s, [a][..0]) == s;
    if t.finalised[id] == s.finalised[id] + 1 {
      actions := [a];
    } else {
      CountsByOne(s, a, id);
      var rest := OwedFireIsFinalised(t, id);
      actions := [a] + rest;
      Runs.RunConcat(Step, s, [a], rest);
    }
  }

  lemma CountsByOne(s: State, a: Action, id: nat)
    requires Inv(s) && id < |s.rows|
    ensures id < |Step(s, a).finalised| && Step(s, a).finalised[id] in {s.finalised[id], s.finalised[id] + 1}
  {
  }

  /** All along the run there is no crash, no failure of the schedule's own coroutine,
      and no withdrawal by the user. */
  predicate Undisturbed(s: State, actions: seq<Action>, id: nat) {
    actions == [] ||
      var before, last := actions[..|actions| - 1], actions[|actions| - 1];
      Undisturbed(s, before, id) && !Withdraws(last, id) && !last.Crash? && !OwnFailure(Run(s, before), last, id)
  }

  /** How often the run takes the step that helps the schedule at that moment. */
  ghost function Helps(s: State, actions: seq<Action>, id: nat): nat {
    if actions == [] then 0
    else
      var before, last := actions[..|actions| - 1], actions[|actions| - 1];
      var t := Run(s, before);
      Helps(s, before, id) + (if Inv(t) && Owed(t, id) && last == Helpful(t, id) then 1 else 0)
  }

  ghost predicate FinalisedSince(t: State, s: State, id: nat)
    requires id < |s.finalised|
  {
    id < |t.rows| && id < |t.finalised| && t.finalised[id] > s.finalised[id]
  }

  lemma FinalisedStays(s: State, t: State, a: Action, id: nat)
    requires Inv(t) && id < |s.finalised| && FinalisedSince(t, s, id)
    ensures FinalisedSince(Step(t, a), s, id)
  {
    CountsByOne(t, a, id);
    StepKeepsInv(t, a);
  }

  /** While a fire waits for the clock, its due time does not move. */
  lemma DueTimeStands(s: State, a: Action, id: nat)
    requires Inv(s) && Owed(s, id) && !Ready(s, id) && !Withdraws(a, id) && !a.Crash?
    ensures id < |Step(s, a).rows| && Step(s, a).rows[id].firesAt == s.rows[id].firesAt
  {
    StepKeepsInv(s, a);
    if Enabled(s, a) && (a.Reserve? || a.Finalise?) {
      assert s.fires[a.i] in s.fires && s.fires[a.i].id in s.inFlight;
    }
  }

  lemma {:induction false} WaitingRun(s: State, actions: seq<Action>, id: nat)
    requires Inv(s) && Owed(s, id) && Undisturbed(s, actions, id)
    ensures var t := Run(s, actions);
      Inv(t) && id < |s.finalised|
      && (FinalisedSince(t, s, id)
          || (Owed(t, id) && t.finalised[id] == s.finalised[id]
              && (Ready(t, id) || (!Ready(s, id) && t.rows[id].firesAt == s.rows[id].firesAt))))
  {
    if actions != [] {
      var before, last := actions[..|actions| - 1], actions[|actions| - 1];
      WaitingRun(s, before, id);
      var t := Run(s, before);
      StepKeepsInv(t, last);
      if FinalisedSince(t, s, id) {
        FinalisedStays(s, t, last, id);
      } else {
        CountsByOne(t, last, id);
        NothingSetsItBack(t, last, id);
        if !Ready(t, id) {
          DueTimeStands(t, last, id);
        }
      }
    }
  }

  lemma {:induction false} ServingRun(s: State, actions: seq<Action>, id: nat)
    requires Inv(s) && Ready(s, id) && Undisturbed(s, actions, id)
    ensures var t := Run(s, actions);
      Inv(t) && id < |s.finalised|
      && (FinalisedSince(t, s, id)
          || (Ready(t, id) && t.finalised[id] == s.finalised[id] && Distance(t, id) + Helps(s, actions, id) <= Distance(s, id)))
  {
    if actions != [] {
      var before, last := actions[..|actions| - 1], actions[|actions| - 1];
      ServingRun(s, before, id);
      var t := Run(s, before);
      StepKeepsInv(t, last);
      if FinalisedSince(t, s, id) {
        FinalisedStays(s, t, last, id);
      } else {
        CountsByOne(t, last, id);
        NothingSetsReadyBack(t, last, id);
        if last == Helpful(t, id) {
          ReadyHelp(t, id);
        }
      }
    }
  }

  lemma {:induction false} FinalisedForGood(s: State, t: State, actions: seq<Action>, id: nat)
    requires Inv(t) && id < |s.finalised| && FinalisedSince(t, s, id)
    ensures FinalisedSince(Run(t, actions), s, id)
  {
    if actions != [] {
      var before := actions[..|actions| - 1];
      FinalisedForGood(s, t, before, id);
      RunKeepsInv(t, before);
      FinalisedStays(s, Run(t, before), actions[|actions| - 1], id);
    }
  }

  /** Progress under every schedule that serves the fire: whatever the others do, once
      the clock has gone past its wait and the helpful step has then been taken as
      often as the fire is distant, it has been finalised. */
  lemma ServedFireIsFinalised(s: State, waiting: seq<Action>, serving: seq<Action>, id: nat)
    requires Inv(s) && Owed(s, id)
    requires Undisturbed(s, waiting, id) && Undisturbed(Run(s, waiting), serving, id)
    requires Run(s, waiting).clock >= s.clock + Wait(s, id)
    requires Helps(Run(s, waiting), serving, id) >= Distance(Run(s, waiting), id)
    ensures id < |s.finalised| && FinalisedSince(Run(Run(s, waiting), serving), s, id)
  {
    var t := Run(s, waiting);
    WaitingRun(s, waiting, id);
    if FinalisedSince(t, s, id) {
      FinalisedForGood(s, t, serving, id);
    } else {
      ServingRun(t, serving, id);
    }
  }

  /** The comment in `_fire` fears that a row whose finalising UPDATE raised stays
      reserved until the process restarts. It does not: it is owed, and the loop
      fires it again once the reserved time has come. */
  lemma FailedFinaliseRefires(s: State, i: nat) returns (actions: seq<Action>)
    requires Inv(s) && Enabled(s, FinaliseError(i))
    requires s.fires[i].id < |s.rows| && s.rows[s.fires[i].id].cancelledAt == None
    ensures var t, id := Step(s, FinaliseError(i)), s.fires[i].id;
      && id < |t.finalised| && id < |Run(t, actions).finalised|
      && Run(t, actions).finalised[id] == t.finalised[id] + 1
      && forall a <- actions :: !a.Boot? && !a.Crash?
  {
    assert s.fires[i] in s.fires && FireInv(s, s.fires[i]);
    StepKeepsInv(s, FinaliseError(i));
    actions := OwedFireIsFinalised(Step(s, FinaliseError(i)), s.fires[i].id);
  }

  // ---------------------------------------------------------------------------
  // A limit of the protocol
  // ---------------------------------------------------------------------------

  /** The schedule is live and next due at `firesAt`. */
  predicate DueNextAt(s: State, id: nat, firesAt: int) {
    id < |s.rows| && s.rows[id].cancelledAt == None && s.rows[id].firesAt == firesAt
  }

  /** The same fire of the schedule stays in flight all along the run. */
  ghost predicate StaysInFlight(s: State, actions: seq<Action>, id: nat) {
    forall n :: 0 <= n <= |actions| ==> id in Run(s, actions[..n]).inFlight
  }

  ghost predicate Firing(s: State, id: nat, snapshot: Row) {
    exists f :: f in s.fires && f.id == id && f.row == snapshot
  }

  lemma StepKeepsSnapshot(s: State, a: Action, id: nat, snapshot: Row)
    requires Inv(s) && Firing(s, id, snapshot) && id in Step(s, a).inFlight
    ensures Firing(Step(s, a), id, snapshot)
  {
    var t := Step(s, a);
    var f :| f in s.fires && f.id == id && f.row == snapshot;
    var k :| 0 <= k < |s.fires| && s.fires[k] == f;
    StepKeepsInv(s, a);
    if Enabled(s, a) {
      match a
      case Reserve(i) => assert t.fires[k] in t.fires && t.fires[k].id == id && t.fires[k].row == snapshot;
      case Abort(i) => StaysAmong(s.fires, i, k);
      case Finalise(i, _) => StaysAmong(s.fires, i, k);
      case FinaliseError(i) => StaysAmong(s.fires, i, k);
      case Boot =>
      case Crash =>
      case _ => assert f in t.fires;
    }
  }

  lemma StaysAmong(fires: seq<Fire>, i: nat, k: nat)
    requires i < |fires| && k < |fires|
    ensures i != k ==> fires[k] in fires[..i] + fires[i + 1..]
  {
    if i != k {
      assert (fires[..i] + fires[i + 1..])[if k < i then k else k - 1] == fires[k];
    }
  }

  lemma {:induction false} RunKeepsSnapshot(s: State, actions: seq<Action>, id: nat, snapshot: Row)
    requires Inv(s) && Firing(s, id, snapshot) && StaysInFlight(s, actions, id)
    ensures Firing(Run(s, actions), id, snapshot)
  {
    if actions != [] {
      var n := |actions| - 1;
      forall k | 0 <= k <= n ensures id in Run(s, actions[..n][..k]).inFlight {
        assert actions[..n][..k] == actions[..k];
      }
      RunKeepsSnapshot(s, actions[..n], id, snapshot);
      RunKeepsInv(s, actions[..n]);
      assert actions[..n + 1] == actions;
      StepKeepsSnapshot(Run(s, actions[..n]), actions[n], id, snapshot);
    }
  }

  /** "A reschedule takes effect" is false while a fire of the schedule is in flight,
      be it before or after its reservation and whatever runs in between. Finalising
      writes the time that the spec selected by the tick gives for the moment of the
      reservation, or retires the row if that spec does not recur. The new time
      survives exactly when it is that very time. */
  lemma RescheduleMidFireIsOverwritten(s: State, f: Fire, spec: WhenSpec, firesAt: int, more: seq<Action>, j: nat, noOp: bool)
    requires Inv(s) && f in s.fires && f.id < |s.rows|
    requires StaysInFlight(Step(s, Reschedule(f.id, spec, firesAt)), more, f.id)
    requires var t := Run(Step(s, Reschedule(f.id, spec, firesAt)), more);
      Enabled(t, Finalise(j, noOp)) && t.fires[j].id == f.id
    ensures var t := Run(Step(s, Reschedule(f.id, spec, firesAt)), more);
      var reservedAt := t.rows[f.id].lastStartedAt;
      && reservedAt.Some?
      && (DueNextAt(Step(t, Finalise(j, noOp)), f.id, firesAt)
          <==> t.rows[f.id].cancelledAt == None && NextFire(f.row.spec, reservedAt.value) == Some(firesAt))
  {
    var s0 := Step(s, Reschedule(f.id, spec, firesAt));
    var t := Run(s0, more);
    StepKeepsInv(s, Reschedule(f.id, spec, firesAt));
    assert Firing(s0, f.id, f.row) by { assert f in s0.fires; }
    RunKeepsInv(s0, more);
    RunKeepsSnapshot(s0, more, f.id, f.row);
    var g :| g in t.fires && g.id == f.id && g.row == f.row;
    assert t.fires[j] in t.fires && FireInv(t, t.fires[j]);
    SameIdSameFire(t, g, t.fires[j]);
  }

  /** A run in which that happens: a one-shot is rescheduled after the tick has
      selected it; it fires once and is retired, and the new time never comes. */
  lemma RescheduleIsLost(later: WhenSpec, firesAt: int)
    ensures var s := Run(Start(false, 0), [Create(OneShot, 0), Boot, Tick, Reschedule(0, later, firesAt)]);
      var t := Step(Step(s, Reserve(0)), Finalise(0, false));
      && s.fires == [Fire(0, SelectedRow, Spawned)]
      && Enabled(s, Reserve(0)) && Enabled(Step(s, Reserve(0)), Finalise(0, false))
      && |t.rows| == 1 && t.rows[0].spec == later && t.rows[0].cancelledAt.Some?
  {
    Runs.RunFour(Step, Start(false, 0), Create(OneShot, 0), Boot, Tick, Reschedule(0, later, firesAt));
    ToTheTick();
    RescheduleSelected(later, firesAt);
  }

  /** The row of that run, and the state after its tick. */
  const SelectedRow: Row := Row(OneShot, 0, None, None, 0, 0, None)

  const AfterTick: State := State(false, 0, true, [SelectedRow], [0], {0}, [Fire(0, SelectedRow, Spawned)])

  lemma ToTheTick()
    ensures Step(Step(Step(Start(false, 0), Create(OneShot, 0)), Boot), Tick) == AfterTick
  {
    CreateAndBoot(Start(false, 0), SelectedRow);
    TickSelectsTheOne(Step(Step(Start(false, 0), Create(OneShot, 0)), Boot), SelectedRow);
  }

  lemma RescheduleSelected(later: WhenSpec, firesAt: int)
    ensures var s := Step(AfterTick, Reschedule(0, later, firesAt));
      var t := Step(Step(s, Reserve(0)), Finalise(0, false));
      && s.fires == [Fire(0, SelectedRow, Spawned)]
      && Enabled(s, Reserve(0)) && Enabled(Step(s, Reserve(0)), Finalise(0, false))
      && |t.rows| == 1 && t.rows[0].spec == later && t.rows[0].cancelledAt.Some?
  {
    OneShotFires(Step(AfterTick, Reschedule(0, later, firesAt)), SelectedRow);
  }

  lemma OneShotFires(s: State, row: Row)
    requires |s.rows| == |s.finalised| == 1 && s.fires == [Fire(0, row, Spawned)] && !Repeats(row.spec)
    ensures Enabled(s, Reserve(0)) && Enabled(Step(s, Reserve(0)), Finalise(0, false))
    ensures var t := Step(Step(s, Reserve(0)), Finalise(0, false));
      |t.rows| == 1 && t.rows[0].spec == s.rows[0].spec && t.rows[0].cancelledAt.Some?
  {
    assert Step(s, Reserve(0)).fires == [Fire(0, row, Running(None))];
  }

  lemma CreateAndBoot(s: State, row: Row)
    requires s == Start(false, 0) && row == Row(OneShot, 0, None, None, 0, 0, None)
    ensures Step(Step(s, Create(OneShot, 0)), Boot) == s.(rows := [row], finalised := [0], up := true)
  {
    assert Step(s, Create(OneShot, 0)) == s.(rows := [row], finalised := [0]);
    assert Reconciled([row], 0) == [row];
  }

  lemma TickSelectsTheOne(s: State, row: Row)
    requires s.up && s.rows == [row] && s.inFlight == {} && s.fires == [] && Due(row, s.clock)
    ensures Step(s, Tick) == s.(inFlight := {0}, fires := [Fire(0, row, Spawned)])
  {
    SpawnOfOne(row, s.clock);
    assert Ids([Fire(0, row, Spawned)]) == {0} by { assert Fire(0, row, Spawned) in [Fire(0, row, Spawned)]; }
  }

  lemma SpawnOfOne(row: Row, clock: int)
    requires Due(row, clock)
    ensures SpawnDue([row], 1, {}, clock) == [Fire(0, row, Spawned)]
  {
    assert SpawnDue([row], 0, {}, clock) == [];
  }
}