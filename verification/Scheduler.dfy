/** The crash-recovery protocol of scheduler.py: select, reserve, run, finalise,
    and the claw-back of interrupted fires at start-up.

    The `schedules` table survives a crash; the set `_in_flight` and the running
    coroutines do not. Each action is what one coroutine does between two awaits
    that touch shared state; an action that is not enabled does nothing. */
module Scheduler {
  import opened Common
  import opened Recurrence
  import Runs

  /** A row of `schedules`; a schedule's id is its index in the table. */
  datatype Row = Row(spec: WhenSpec, firesAt: int, lastStartedAt: Option<int>, lastFired: Option<int>,
                     totalFires: nat, noOps: nat, cancelledAt: Option<int>)

  datatype FirePc = Spawned | Running(next: Option<int>)

  /** A `_fire` coroutine; `row` is the snapshot its tick selected. */
  datatype Fire = Fire(id: nat, row: Row, pc: FirePc)

  /** `finalised` counts, per schedule, the committed finalising UPDATEs.
      `overlapping` says whether a tick may start while fires of an earlier one
      run; the loop awaits each tick, so in the source it is false. Safety is proved
      for both values. */
  datatype State = State(overlapping: bool, clock: int, up: bool, rows: seq<Row>, finalised: seq<nat>,
                         inFlight: set<nat>, fires: seq<Fire>)

  datatype Action =
    | Advance(micros: nat)                 // time passes
    | Create(spec: WhenSpec, firesAt: int) // POST /api/schedules
    | CancelSchedule(id: nat)              // DELETE /api/schedules/{id}
    | Reschedule(id: nat, spec: WhenSpec, firesAt: int) // PUT /api/schedules/{id}/reschedule
    | Boot                                 // start(): reconcile, then loop
    | Tick
    | Reserve(i: nat)                      // coroutine i: compute, UPDATE, commit
    | Abort(i: nat)                        // coroutine i raised before reserving
    | Finalise(i: nat, noOp: bool)         // coroutine i: the tool ended, UPDATE, commit
    | FinaliseError(i: nat)                // coroutine i: that UPDATE raised
    | Crash

  function Start(overlapping: bool, clock: int): State {
    State(overlapping, clock, false, [], [], {}, [])
  }

  predicate Due(row: Row, clock: int) {
    row.firesAt <= clock && row.cancelledAt == None
  }

  predicate Enabled(s: State, a: Action) {
    match a
    case Advance(_) => true
    case Create(_, _) => true
    case CancelSchedule(id) => id < |s.rows|
    case Reschedule(id, _, _) => id < |s.rows|
    case Boot => !s.up
    case Tick => s.up && (s.overlapping || s.fires == [])
    case Reserve(i) => i < |s.fires| && s.fires[i].pc.Spawned? && s.fires[i].id < |s.rows|
    case Abort(i) => i < |s.fires| && s.fires[i].pc.Spawned?
    case Finalise(i, _) => i < |s.fires| && s.fires[i].pc.Running? && s.fires[i].id < |s.rows| == |s.finalised|
    case FinaliseError(i) => i < |s.fires| && s.fires[i].pc.Running?
    case Crash => s.up
  }

  /** The UPDATE of `reschedule`. */
  function RescheduleRow(row: Row, spec: WhenSpec, firesAt: int): Row {
    row.(spec := spec, firesAt := firesAt)
  }

  /** One row under the UPDATE of `_reconcile_crashed_fires`. */
  function ReconcileRow(row: Row, clock: int): Row {
    if row.lastStartedAt.Some? && row.cancelledAt == None then row.(firesAt := clock, lastStartedAt := None) else row
  }

  function Reconciled(rows: seq<Row>, clock: int): (out: seq<Row>)
    ensures |out| == |rows| && forall i :: 0 <= i < |rows| ==> out[i] == ReconcileRow(rows[i], clock)
  {
    seq(|rows|, i requires 0 <= i < |rows| => ReconcileRow(rows[i], clock))
  }

  /** The coroutines a tick creates for the due rows among the first `n`. */
  function SpawnDue(rows: seq<Row>, n: nat, inFlight: set<nat>, clock: int): (spawned: seq<Fire>)
    requires n <= |rows|
    ensures forall f <- spawned :: f.id < n && f.id !in inFlight && f == Fire(f.id, rows[f.id], Spawned) && Due(f.row, clock)
    ensures forall i, j :: 0 <= i < j < |spawned| ==> spawned[i].id < spawned[j].id
    ensures forall id: nat :: id < n && Due(rows[id], clock) && id !in inFlight ==> Fire(id, rows[id], Spawned) in spawned
  {
    if n == 0 then []
    else
      var before := SpawnDue(rows, n - 1, inFlight, clock);
      if Due(rows[n - 1], clock) && n - 1 !in inFlight then before + [Fire(n - 1, rows[n - 1], Spawned)] else before
  }

  function Ids(fires: seq<Fire>): set<nat> {
    set f <- fires :: f.id
  }

  function Ticked(s: State): State {
    var spawned := SpawnDue(s.rows, |s.rows|, s.inFlight, s.clock);
    s.(inFlight := s.inFlight + Ids(spawned), fires := s.fires + spawned)
  }

  /** The row while its fire runs: one hour ahead when it does not recur. */
  function ReserveRow(row: Row, next: Option<int>, clock: int): Row {
    row.(firesAt := if next.Some? then next.value else clock + HOUR, lastStartedAt := Some(clock))
  }

  function Reserved(s: State, i: nat): State
    requires Enabled(s, Reserve(i))
  {
    var f := s.fires[i];
    var next := NextFire(f.row.spec, s.clock);
    s.(rows := s.rows[f.id := ReserveRow(s.rows[f.id], next, s.clock)], fires := s.fires[i := f.(pc := Running(next))])
  }

  /** The finalising UPDATE of one row, with the counters of the tick's snapshot. */
  function FinaliseRow(row: Row, snapshot: Row, next: Option<int>, noOp: bool, clock: int): Row {
    var total := snapshot.totalFires + 1;
    if next.Some? then
      row.(lastFired := Some(clock), firesAt := next.value, totalFires := total,
           noOps := if noOp then snapshot.noOps + 1 else 0, lastStartedAt := None)
    else
      row.(lastFired := Some(clock), totalFires := total, cancelledAt := Some(clock), lastStartedAt := None)
  }

  /** The coroutine ends and `_fire_and_release` discards its id. */
  function Released(s: State, i: nat): State
    requires i < |s.fires|
  {
    s.(inFlight := s.inFlight - {s.fires[i].id}, fires := s.fires[..i] + s.fires[i + 1..])
  }

  function Finalised(s: State, i: nat, noOp: bool): State
    requires Enabled(s, Finalise(i, noOp))
  {
    var f := s.fires[i];
    Released(s.(rows := s.rows[f.id := FinaliseRow(s.rows[f.id], f.row, f.pc.next, noOp, s.clock)],
                finalised := s.finalised[f.id := s.finalised[f.id] + 1]), i)
  }

  function Step(s: State, a: Action): State {
    if !Enabled(s, a) then s
    else
      match a
      case Advance(micros) => s.(clock := s.clock + micros)
      case Create(spec, firesAt) =>
        s.(rows := s.rows + [Row(spec, firesAt, None, None, 0, 0, None)], finalised := s.finalised + [0])
      case CancelSchedule(id) => s.(rows := s.rows[id := s.rows[id].(cancelledAt := Some(s.clock))])
      case Reschedule(id, spec, firesAt) => s.(rows := s.rows[id := RescheduleRow(s.rows[id], spec, firesAt)])
      case Boot => s.(up := true, rows := Reconciled(s.rows, s.clock))
      case Tick => Ticked(s)
      case Reserve(i) => Reserved(s, i)
      case Abort(i) => Released(s, i)
      case Finalise(i, noOp) => Finalised(s, i, noOp)
      case FinaliseError(i) => Released(s, i)
      case Crash => s.(up := false, inFlight := {}, fires := [])
  }

  function Run(s: State, actions: seq<Action>): State {
    Runs.Run(Step, s, actions)
  }

  // ---------------------------------------------------------------------------
  // The invariant
  // ---------------------------------------------------------------------------

  /** What a coroutine knows about its row. */
  ghost predicate FireInv(s: State, f: Fire) {
    && f.id < |s.rows|
    && var row := s.rows[f.id];
    && row.totalFires == f.row.totalFires && row.noOps == f.row.noOps
    && (f.pc.Running? ==>
          row.lastStartedAt.Some? && f.pc.next == NextFire(f.row.spec, row.lastStartedAt.value))
  }

  ghost predicate Inv(s: State) {
    && |s.rows| == |s.finalised|
    && (!s.up ==> s.fires == [])
    && s.inFlight == Ids(s.fires)
    && (forall i, j :: 0 <= i < j < |s.fires| ==> s.fires[i].id != s.fires[j].id)
    && (forall f <- s.fires :: FireInv(s, f))
    && (forall id: nat :: id < |s.rows| ==> s.rows[id].totalFires == s.finalised[id])
  }

  lemma ReleaseIds(fires: seq<Fire>, i: nat)
    requires i < |fires| && forall a, b :: 0 <= a < b < |fires| ==> fires[a].id != fires[b].id
    ensures Ids(fires[..i] + fires[i + 1..]) == Ids(fires) - {fires[i].id}
  {
    var rest := fires[..i] + fires[i + 1..];
    forall id | id in Ids(fires) && id != fires[i].id ensures id in Ids(rest) {
      var f :| f in fires && f.id == id;
      assert f in rest;
    }
    forall f <- rest ensures f in fires && f.id != fires[i].id {
      var k :| 0 <= k < |rest| && rest[k] == f;
      assert fires[if k < i then k else k + 1] == f;
    }
  }

  lemma TickKeepsInv(s: State)
    requires Inv(s) && Enabled(s, Tick)
    ensures Inv(Ticked(s))
  {
    var spawned, t := SpawnDue(s.rows, |s.rows|, s.inFlight, s.clock), Ticked(s);
    assert Ids(t.fires) == Ids(s.fires) + Ids(spawned);
    forall i, j | 0 <= i < j < |t.fires| ensures t.fires[i].id != t.fires[j].id {
      assert i < |s.fires| ==> t.fires[i].id in s.inFlight;
      assert j >= |s.fires| ==> t.fires[j] in spawned;
    }
    forall f <- t.fires ensures FireInv(t, f) {
      if f in s.fires { assert FireInv(s, f); } else { assert f in spawned; }
    }
  }

  lemma ReserveKeepsInv(s: State, i: nat)
    requires Inv(s) && Enabled(s, Reserve(i))
    ensures Inv(Reserved(s, i))
  {
    var t := Reserved(s, i);
    assert FireInv(s, s.fires[i]);
    assert s.fires[i].id in Ids(s.fires);
    assert forall k :: 0 <= k < |t.fires| ==> t.fires[k].id == s.fires[k].id;
    assert Ids(t.fires) == Ids(s.fires) by {
      forall id | id in Ids(s.fires) ensures id in Ids(t.fires) {
        var k :| 0 <= k < |s.fires| && s.fires[k].id == id;
        assert t.fires[k] in t.fires;
      }
      forall id | id in Ids(t.fires) ensures id in Ids(s.fires) {
        var k :| 0 <= k < |t.fires| && t.fires[k].id == id;
        assert s.fires[k] in s.fires;
      }
    }
    forall f <- t.fires ensures FireInv(t, f) {
      var k :| 0 <= k < |t.fires| && t.fires[k] == f;
      assert FireInv(s, s.fires[k]);
    }
  }

  /** A released coroutine leaves the others as they were. */
  lemma ReleaseKeepsInv(s: State, i: nat)
    requires Inv(s) && i < |s.fires|
    ensures Inv(Released(s, i))
  {
    var t := Released(s, i);
    ReleaseIds(s.fires, i);
    forall f <- t.fires ensures FireInv(t, f) {
      assert f in s.fires && FireInv(s, f);
    }
  }

  lemma FinaliseKeepsInv(s: State, i: nat, noOp: bool)
    requires Inv(s) && Enabled(s, Finalise(i, noOp))
    ensures Inv(Finalised(s, i, noOp))
  {
    var t, own := Finalised(s, i, noOp), s.fires[i];
    ReleaseIds(s.fires, i);
    assert FireInv(s, own) && own.id in s.inFlight;
    forall f <- t.fires ensures FireInv(t, f) {
      assert f in s.fires && FireInv(s, f) && f.id != own.id by {
        assert f.id in Ids(t.fires);
      }
    }
  }

  lemma OtherStepsKeepInv(s: State, a: Action)
    requires Inv(s) && Enabled(s, a)
    requires a.Advance? || a.Create? || a.CancelSchedule? || a.Reschedule? || a.Boot? || a.Crash?
    ensures Inv(Step(s, a))
  {
    var t := Step(s, a);
    forall f <- t.fires ensures FireInv(t, f) {
      assert FireInv(s, f);
    }
    if a.Create? {
      forall id: nat | id < |t.rows| ensures t.rows[id].totalFires == t.finalised[id] {
      }
    }
  }

  lemma StepKeepsInv(s: State, a: Action)
    requires Inv(s)
    ensures Inv(Step(s, a))
  {
    if Enabled(s, a) {
      match a
      case Tick => TickKeepsInv(s);
      case Reserve(i) => ReserveKeepsInv(s, i);
      case Abort(i) => ReleaseKeepsInv(s, i);
      case Finalise(i, noOp) => FinaliseKeepsInv(s, i, noOp);
      case FinaliseError(i) => ReleaseKeepsInv(s, i);
      case _ => OtherStepsKeepInv(s, a);
    }
  }

  lemma {:induction false} RunKeepsInv(s: State, actions: seq<Action>)
    requires Inv(s)
    ensures Inv(Run(s, actions))
  {
    if actions != [] {
      var before := actions[..|actions| - 1];
      RunKeepsInv(s, before);
      StepKeepsInv(Run(s, before), actions[|actions| - 1]);
    }
  }

  // ---------------------------------------------------------------------------
  // Main results: safety
  // ---------------------------------------------------------------------------

  /** In every run, with crashes and reschedules at any point: `total_fires` is the
      number of finalised fires, and a schedule has at most one fire in flight. */
  lemma EveryRunIsConsistent(overlapping: bool, clock: int, actions: seq<Action>)
    ensures var s := Run(Start(overlapping, clock), actions);
      && |s.rows| == |s.finalised|
      && (forall id: nat :: id < |s.rows| ==> s.rows[id].totalFires == s.finalised[id])
      && (forall i, j :: 0 <= i < j < |s.fires| ==> s.fires[i].id != s.fires[j].id)
  {
    RunKeepsInv(Start(overlapping, clock), actions);
  }

  /** Cancelled, whether by the user or by the fire that retired it, and not firing. */
  predicate Retired(s: State, id: nat) {
    id < |s.rows| && s.rows[id].cancelledAt.Some? && id !in s.inFlight
  }

  lemma StepKeepsRetired(s: State, a: Action, id: nat)
    requires Inv(s) && Retired(s, id)
    ensures Retired(Step(s, a), id) && id < |Step(s, a).finalised| && Step(s, a).finalised[id] == s.finalised[id]
  {
    StepKeepsInv(s, a);
    if Enabled(s, a) && a.Tick? {
      var spawned := SpawnDue(s.rows, |s.rows|, s.inFlight, s.clock);
      assert forall f <- spawned :: s.rows[f.id].cancelledAt == None;
    } else if Enabled(s, a) && (a.Reserve? || a.Finalise?) {
      assert s.fires[a.i] in s.fires && s.fires[a.i].id in s.inFlight;
    }
  }

  lemma {:induction false} RetiredForEver(s: State, actions: seq<Action>, id: nat)
    requires Inv(s) && Retired(s, id)
    ensures var t := Run(s, actions); Retired(t, id) && id < |t.finalised| && t.finalised[id] == s.finalised[id]
  {
    if actions != [] {
      var before, last := actions[..|actions| - 1], actions[|actions| - 1];
      RetiredForEver(s, before, id);
      RunKeepsInv(s, before);
      StepKeepsRetired(Run(s, before), last, id);
    }
  }

  /** A one-shot is finalised at most once: when a fire whose schedule did not recur
      is finalised, the schedule is retired, and nothing that follows, not even a
      reschedule or a crash, ever finalises it again. */
  lemma OneShotIsFinalisedOnce(s: State, i: nat, noOp: bool, more: seq<Action>)
    requires Inv(s) && Enabled(s, Finalise(i, noOp)) && !Repeats(s.fires[i].row.spec)
    ensures var id, t := s.fires[i].id, Run(Step(s, Finalise(i, noOp)), more);
      Retired(t, id) && id < |t.finalised| && t.finalised[id] == s.finalised[id] + 1
  {
    var f := s.fires[i];
    assert f in s.fires && FireInv(s, f);
    StepKeepsInv(s, Finalise(i, noOp));
    RetiredForEver(Step(s, Finalise(i, noOp)), more, f.id);
  }

  /** A fire is owed: the schedule is live and is due, or reserved, or being fired. */
  ghost predicate Owed(s: State, id: nat) {
    && id < |s.rows| && s.rows[id].cancelledAt == None
    && (s.rows[id].firesAt <= s.clock || s.rows[id].lastStartedAt.Some? || id in s.inFlight)
  }

  /** The user cancels the schedule or gives it another time. */
  predicate Withdraws(a: Action, id: nat) {
    (a.CancelSchedule? || a.Reschedule?) && a.id == id
  }

  /** No reschedule has come between the tick that selected the schedule and its
      reservation: as long as it has not been reserved, it is still due. */
  ghost predicate Calm(s: State, id: nat) {
    forall f <- s.fires :: f.id == id && f.pc.Spawned? ==> id < |s.rows| && s.rows[id].firesAt <= s.clock
  }

  lemma StepKeepsCalm(s: State, a: Action, id: nat)
    requires Inv(s) && Calm(s, id) && id < |s.rows| && !Withdraws(a, id)
    ensures Calm(Step(s, a), id)
  {
    var t := Step(s, a);
    forall f <- t.fires | f.id == id && f.pc.Spawned? ensures t.rows[id].firesAt <= t.clock {
      if f in s.fires {
        if Enabled(s, a) && (a.Reserve? || a.Finalise?) && s.fires[a.i].id == id {
          SameIdSameFire(s, f, s.fires[a.i]);
        }
      } else {
        assert a.Tick?;
      }
    }
  }

  lemma SameIdSameFire(s: State, f: Fire, g: Fire)
    requires Inv(s) && f in s.fires && g in s.fires && f.id == g.id
    ensures f == g
  {
    var i :| 0 <= i < |s.fires| && s.fires[i] == f;
    var j :| 0 <= j < |s.fires| && s.fires[j] == g;
    assert i == j;
  }

  lemma OwedStep(s: State, a: Action, id: nat)
    requires Inv(s) && Calm(s, id) && Owed(s, id) && !Withdraws(a, id)
    ensures var t := Step(s, a);
      |t.finalised| == |t.rows| && id < |t.rows| && (Owed(t, id) || t.finalised[id] == s.finalised[id] + 1)
    ensures id < |Step(s, a).finalised| && Step(s, a).finalised[id] >= s.finalised[id]
  {
    StepKeepsInv(s, a);
    if Enabled(s, a) && (a.Abort? || a.FinaliseError?) {
      assert s.fires[a.i] in s.fires && FireInv(s, s.fires[a.i]);
      ReleaseIds(s.fires, a.i);
    } else if Enabled(s, a) && a.Finalise? {
      assert FireInv(s, s.fires[a.i]);
    } else if Enabled(s, a) && a.Crash? && id in s.inFlight {
      var f :| f in s.fires && f.id == id;
      assert FireInv(s, f);
    } else if Enabled(s, a) && a.Reserve? {
      assert FireInv(s, s.fires[a.i]);
    }
  }

  /** No owed fire is lost. Over any run, through any number of ticks, failures,
      crashes and restarts, and whatever happens to other schedules, a fire that is
      owed stays owed until it is finalised (or the user cancels or reschedules it). */
  lemma {:induction false} OwedUntilFinalised(s: State, actions: seq<Action>, id: nat)
    requires Inv(s) && Calm(s, id) && Owed(s, id) && forall a <- actions :: !Withdraws(a, id)
    ensures Calm(Run(s, actions), id)
    ensures var t := Run(s, actions);
      && id < |t.rows| == |t.finalised| && t.finalised[id] >= s.finalised[id]
      && (t.finalised[id] == s.finalised[id] ==> Owed(t, id))
  {
    if actions != [] {
      var before, last := actions[..|actions| - 1], actions[|actions| - 1];
      assert last in actions && forall a <- before :: a in actions;
      OwedUntilFinalised(s, before, id);
      var m := Run(s, before);
      RunKeepsInv(s, before);
      StepKeepsInv(m, last);
      StepKeepsCalm(m, last, id);
      CountsGrow(m, last, id);
      if m.finalised[id] == s.finalised[id] {
        OwedStep(m, last, id);
      }
    }
  }

  lemma CountsGrow(s: State, a: Action, id: nat)
    requires Inv(s) && id < |s.rows|
    ensures id < |Step(s, a).finalised| && Step(s, a).finalised[id] >= s.finalised[id]
  {
  }

  /** Whatever a crash interrupted is due again once the next start has reconciled. */
  lemma RestartMakesOwedFiresDue(s: State, id: nat)
    requires Inv(s) && !s.up && Owed(s, id)
    ensures var t := Step(s, Boot); Due(t.rows[id], t.clock) && t.rows[id].lastStartedAt == None
  {
  }
}
