/** What the scheduler writes into its rows, and when a schedule keeps quiet: from its
    reservation, or from a reschedule, until the time that was written. Times are given
    in microseconds throughout, not through the functions that compute them. */
module SchedulerTimes {
  import opened Common
  import opened Recurrence
  import opened Scheduler
  import Runs

  // ---------------------------------------------------------------------------
  // The time a reservation writes
  // ---------------------------------------------------------------------------

  /** `hh:mm` exists; an hourly recurrence reads the minute only. */
  predicate ClockTime(spec: WhenSpec)
    requires spec.Recurring?
  {
    0 <= spec.minute <= 59 && (spec.recur == "hourly" || 0 <= spec.hour <= 23)
  }

  /** The time of day, or of the hour, that the spec names. */
  function Wanted(spec: WhenSpec): int
    requires spec.Recurring?
  {
    spec.minute * 60_000_000 + (if spec.recur == "hourly" then 0 else spec.hour * 3_600_000_000)
  }

  /** Where a fire at `now` moves a schedule: to the first full minute of the hour or
      time of day after now; weekly, to that time today if it is ahead and in seven days
      otherwise; without a recurrence, an hour ahead. */
  ghost predicate MovesTo(spec: WhenSpec, now: int, t: int) {
    if spec.OneShot? || !ClockTime(spec) then t == now + 3_600_000_000
    else if spec.recur == "hourly" then IsNextOnGrid(now, 3_600_000_000, Wanted(spec), t)
    else if spec.recur == "weekly" then
      var today := now - now % 86_400_000_000 + Wanted(spec);
      t == if now < today then today else today + 604_800_000_000
    else IsNextOnGrid(now, 86_400_000_000, Wanted(spec), t)
  }

  /** The reservation moves the row ahead, before the tool runs, and notes the start;
      nothing else changes, in this row or in another. */
  lemma ReservationMovesAhead(s: State, i: nat)
    requires Enabled(s, Reserve(i))
    ensures var id, t := s.fires[i].id, Step(s, Reserve(i));
      && |t.rows| == |s.rows| && t.clock == s.clock
      && t.rows[id].firesAt > s.clock && MovesTo(s.fires[i].row.spec, s.clock, t.rows[id].firesAt)
      && t.rows[id].lastStartedAt == Some(s.clock)
      && t.rows[id].(firesAt := 0, lastStartedAt := None) == s.rows[id].(firesAt := 0, lastStartedAt := None)
      && forall other :: 0 <= other < |s.rows| && other != id ==> t.rows[other] == s.rows[other]
  {
    var spec := s.fires[i].row.spec;
    if Repeats(spec) && spec.recur != "weekly" {
      NextFireIsFirstOnGrid(spec, s.clock);
    }
  }

  // ---------------------------------------------------------------------------
  // Quiet until then
  // ---------------------------------------------------------------------------

  /** The schedule is withdrawn or next due at `firesAt`, and no fire of it is under way
      but `own`, which has reserved its row and will write the same time again. */
  ghost predicate QuietUntil(s: State, id: nat, firesAt: int, own: Option<Fire>) {
    && id < |s.rows| && (s.rows[id].cancelledAt.Some? || s.rows[id].firesAt == firesAt)
    && forall f <- s.fires :: f.id == id ==>
         Some(f) == own && f.pc.Running? && (f.pc.next.Some? ==> f.pc.next.value == firesAt)
  }

  /** Neither the process nor the user interferes. */
  predicate Undisturbed(actions: seq<Action>, id: nat) {
    forall a <- actions :: !a.Crash? && !a.Boot? && !Withdraws(a, id)
  }

  lemma QuietStep(s: State, a: Action, id: nat, firesAt: int, own: Option<Fire>)
    requires Inv(s) && QuietUntil(s, id, firesAt, own) && s.clock < firesAt && Undisturbed([a], id)
    ensures QuietUntil(Step(s, a), id, firesAt, own)
    ensures id < |Step(s, a).finalised| == |Step(s, a).rows| && Step(s, a).clock >= s.clock
  {
    assert a in [a];
    StepKeepsInv(s, a);
    if Enabled(s, a) && (a.Reserve? || a.Finalise?) {
      assert s.fires[a.i] in s.fires;
    }
  }

  lemma {:induction false} QuietRun(s: State, actions: seq<Action>, id: nat, firesAt: int, own: Option<Fire>)
    requires Inv(s) && QuietUntil(s, id, firesAt, own) && Undisturbed(actions, id)
    requires Run(s, actions).clock < firesAt
    ensures QuietUntil(Run(s, actions), id, firesAt, own) && Inv(Run(s, actions)) && s.clock <= Run(s, actions).clock
  {
    if actions != [] {
      var before, last := actions[..|actions| - 1], actions[|actions| - 1];
      assert last in actions && forall a <- before :: a in actions;
      assert Run(s, before).clock <= Run(s, actions).clock;
      QuietRun(s, before, id, firesAt, own);
      assert Undisturbed([last], id);
      QuietStep(Run(s, before), last, id, firesAt, own);
      StepKeepsInv(Run(s, before), last);
    }
  }

  /** Nothing fires twice. From its reservation on, and whether its fire is finalised,
      or its finalising UPDATE raises, or it still runs, the schedule is not due before
      the time it was moved to, and no fire of it is under way but that one. */
  lemma ReservedIsQuiet(s: State, i: nat, more: seq<Action>)
    requires Inv(s) && Enabled(s, Reserve(i)) && Undisturbed(more, s.fires[i].id)
    requires Run(Step(s, Reserve(i)), more).clock < Step(s, Reserve(i)).rows[s.fires[i].id].firesAt
    ensures var id, t0 := s.fires[i].id, Step(s, Reserve(i));
      var t := Run(t0, more);
      && id < |t.rows| && (t.rows[id].cancelledAt.Some? || t.rows[id].firesAt == t0.rows[id].firesAt)
      && !Due(t.rows[id], t.clock)
      && forall f <- t.fires :: f.id == id ==> f == t0.fires[i]
  {
    var id, t0 := s.fires[i].id, Step(s, Reserve(i));
    StepKeepsInv(s, Reserve(i));
    forall f <- t0.fires | f.id == id
      ensures f == t0.fires[i]
    {
      assert t0.fires[i] in t0.fires;
      SameIdSameFire(t0, f, t0.fires[i]);
    }
    QuietRun(t0, more, id, t0.rows[id].firesAt, Some(t0.fires[i]));
  }

  /** A reschedule of a schedule that is not firing takes effect: it carries the new spec
      and is not due before the new time. */
  lemma RescheduleTakesEffect(s: State, id: nat, spec: WhenSpec, firesAt: int, more: seq<Action>)
    requires Inv(s) && id < |s.rows| && id !in s.inFlight && s.rows[id].cancelledAt == None && Undisturbed(more, id)
    requires Run(Step(s, Reschedule(id, spec, firesAt)), more).clock < firesAt
    ensures var t := Run(Step(s, Reschedule(id, spec, firesAt)), more);
      && id < |t.rows| && t.rows[id].spec == spec && t.rows[id].firesAt == firesAt && t.rows[id].cancelledAt == None
      && !Due(t.rows[id], t.clock) && id !in t.inFlight
  {
    var t0 := Step(s, Reschedule(id, spec, firesAt));
    StepKeepsInv(s, Reschedule(id, spec, firesAt));
    forall f <- t0.fires ensures f.id != id { assert f.id in s.inFlight; }
    QuietRun(t0, more, id, firesAt, None);
    IdleRowStands(t0, more, id, firesAt);
  }

  lemma IdleStep(s: State, a: Action, id: nat, firesAt: int)
    requires Inv(s) && QuietUntil(s, id, firesAt, None) && Undisturbed([a], id)
    ensures id < |Step(s, a).rows| && Step(s, a).rows[id] == s.rows[id]
  {
    assert a in [a];
    if Enabled(s, a) && (a.Reserve? || a.Finalise?) {
      assert s.fires[a.i] in s.fires;
    }
  }

  lemma {:induction false} IdleRowStands(s: State, actions: seq<Action>, id: nat, firesAt: int)
    requires Inv(s) && QuietUntil(s, id, firesAt, None) && Undisturbed(actions, id)
    requires Run(s, actions).clock < firesAt
    ensures id < |Run(s, actions).rows| && Run(s, actions).rows[id] == s.rows[id]
  {
    if actions != [] {
      var before, last := actions[..|actions| - 1], actions[|actions| - 1];
      assert last in actions && forall a <- before :: a in actions;
      assert Run(s, before).clock <= Run(s, actions).clock;
      IdleRowStands(s, before, id, firesAt);
      QuietRun(s, before, id, firesAt, None);
      assert Undisturbed([last], id);
      IdleStep(Run(s, before), last, id, firesAt);
    }
  }

  // ---------------------------------------------------------------------------
  // Cancelled, and crashed
  // ---------------------------------------------------------------------------

  /** The schedule is cancelled and has been finalised at most `bound` times; one more
      while a fire of it is under way. */
  ghost predicate CancelledWithin(s: State, id: nat, bound: nat) {
    && id < |s.rows| && s.rows[id].cancelledAt.Some? && id < |s.finalised|
    && s.finalised[id] + (if id in s.inFlight then 1 else 0) <= bound
  }

  lemma CancelledStep(s: State, a: Action, id: nat, bound: nat)
    requires Inv(s) && CancelledWithin(s, id, bound)
    ensures CancelledWithin(Step(s, a), id, bound)
  {
    StepKeepsInv(s, a);
    if Enabled(s, a) && a.Tick? {
      var spawned := SpawnDue(s.rows, |s.rows|, s.inFlight, s.clock);
      assert forall f <- spawned :: f.id != id;
    } else if Enabled(s, a) && (a.Reserve? || a.Finalise?) {
      assert s.fires[a.i] in s.fires && s.fires[a.i].id in s.inFlight;
    }
  }

  lemma {:induction false} CancelledRun(s: State, actions: seq<Action>, id: nat, bound: nat)
    requires Inv(s) && CancelledWithin(s, id, bound)
    ensures CancelledWithin(Run(s, actions), id, bound)
  {
    if actions != [] {
      var before := actions[..|actions| - 1];
      CancelledRun(s, before, id, bound);
      RunKeepsInv(s, before);
      CancelledStep(Run(s, before), actions[|actions| - 1], id, bound);
    }
  }

  /** A cancel is for good: in every continuation, through reschedules, crashes and
      restarts, the schedule is never due again, and no fire of it is finalised but the
      one that was under way. */
  lemma CancelIsForGood(s: State, id: nat, more: seq<Action>)
    requires Inv(s) && id < |s.rows|
    ensures var t := Run(Step(s, CancelSchedule(id)), more);
      && id < |t.rows| == |t.finalised| && t.rows[id].cancelledAt.Some? && !Due(t.rows[id], t.clock)
      && t.finalised[id] <= s.finalised[id] + (if id in s.inFlight then 1 else 0)
  {
    var bound := s.finalised[id] + (if id in s.inFlight then 1 else 0);
    StepKeepsInv(s, CancelSchedule(id));
    RunKeepsInv(Step(s, CancelSchedule(id)), more);
    CancelledRun(Step(s, CancelSchedule(id)), more, id, bound);
  }

  lemma {:induction false} NothingRunsWhileDown(s: State, more: seq<Action>)
    requires !s.up && s.fires == [] && s.inFlight == {} && forall a <- more :: !a.Boot?
    ensures var t := Run(s, more); !t.up && t.fires == [] && t.inFlight == {} && s.finalised <= t.finalised
  {
    if more != [] {
      var before, last := more[..|more| - 1], more[|more| - 1];
      assert last in more && forall a <- before :: a in more;
      NothingRunsWhileDown(s, before);
    }
  }

  /** After a crash nothing fires and nothing is finalised until the next start. */
  lemma CrashStopsEverything(s: State, more: seq<Action>)
    requires s.up && forall a <- more :: !a.Boot?
    ensures var t := Run(Step(s, Crash), more);
      && t.fires == [] && t.inFlight == {} && |s.finalised| <= |t.finalised|
      && (forall a :: Enabled(t, a) ==> !a.Tick? && !a.Reserve? && !a.Finalise?)
      && forall id :: 0 <= id < |s.finalised| ==> t.finalised[id] == s.finalised[id]
  {
    NothingRunsWhileDown(Step(s, Crash), more);
  }

  // ---------------------------------------------------------------------------
  // The other columns
  // ---------------------------------------------------------------------------

  /** A finalisation of this schedule. */
  predicate Finalises(s: State, a: Action, id: nat) {
    a.Finalise? && Enabled(s, a) && s.fires[a.i].id == id
  }

  /** When the schedule was last finalised in the run. */
  function LastFinalised(overlapping: bool, clock: int, actions: seq<Action>, id: nat): Option<int> {
    if actions == [] then None
    else
      var before, last := actions[..|actions| - 1], actions[|actions| - 1];
      var s := Run(Start(overlapping, clock), before);
      if Finalises(s, last, id) then Some(s.clock) else LastFinalised(overlapping, clock, before, id)
  }

  /** How many fires in a row, up to now, said that there was nothing to do. The fire
      that retires a schedule does not count. */
  function Idling(overlapping: bool, clock: int, actions: seq<Action>, id: nat): nat {
    if actions == [] then 0
    else
      var before, last := actions[..|actions| - 1], actions[|actions| - 1];
      var s := Run(Start(overlapping, clock), before);
      var idle := Idling(overlapping, clock, before, id);
      if !Finalises(s, last, id) || s.fires[last.i].row.spec.OneShot? || !ClockTime(s.fires[last.i].row.spec) then idle
      else if last.noOp then idle + 1
      else 0
  }

  ghost predicate ColumnsFit(s: State, id: nat, last: Option<int>, idle: nat) {
    if id < |s.rows| then s.rows[id].lastFired == last && s.rows[id].noOps == idle else last == None && idle == 0
  }

  lemma ColumnsStep(s: State, a: Action, id: nat, last: Option<int>, idle: nat)
    requires Inv(s) && ColumnsFit(s, id, last, idle)
    ensures ColumnsFit(Step(s, a), id,
      if Finalises(s, a, id) then Some(s.clock) else last,
      if !Finalises(s, a, id) || s.fires[a.i].row.spec.OneShot? || !ClockTime(s.fires[a.i].row.spec) then idle
      else if a.noOp then idle + 1 else 0)
  {
    if Enabled(s, a) && (a.Reserve? || a.Finalise?) {
      assert s.fires[a.i] in s.fires && FireInv(s, s.fires[a.i]);
    }
  }

  /** The finalising UPDATE counts from the row its tick selected, not from the row it
      writes. The columns are right all the same, in every run: `last_fired` is the
      moment of the last finalisation, and `consecutive_no_ops` the number of fires in a
      row that said so. */
  lemma {:induction false} ColumnsAreRight(overlapping: bool, clock: int, actions: seq<Action>, id: nat)
    ensures var s := Run(Start(overlapping, clock), actions);
      id < |s.rows| ==>
        && s.rows[id].lastFired == LastFinalised(overlapping, clock, actions, id)
        && s.rows[id].noOps == Idling(overlapping, clock, actions, id)
    ensures ColumnsFit(Run(Start(overlapping, clock), actions), id,
      LastFinalised(overlapping, clock, actions, id), Idling(overlapping, clock, actions, id))
  {
    if actions != [] {
      var before, last := actions[..|actions| - 1], actions[|actions| - 1];
      ColumnsAreRight(overlapping, clock, before, id);
      RunKeepsInv(Start(overlapping, clock), before);
      ColumnsStep(Run(Start(overlapping, clock), before), last, id,
        LastFinalised(overlapping, clock, before, id), Idling(overlapping, clock, before, id));
    }
  }

  /** A fire that was finalised is not clawed back: a crash right after it and the next
      start leave its row as it was, and every row that no fire has started. */
  lemma FinalisedIsNotClawedBack(s: State, i: nat, noOp: bool, id: nat)
    requires Inv(s) && s.up && Enabled(s, Finalise(i, noOp)) && id < |s.rows|
    requires s.fires[i].id == id || s.rows[id].lastStartedAt == None || s.rows[id].cancelledAt.Some?
    ensures var done := Step(s, Finalise(i, noOp));
      var t := Step(Step(done, Crash), Boot);
      && id < |t.rows| == |done.rows| && t.rows[id] == done.rows[id]
      && (s.fires[i].id == id ==> t.rows[id].lastStartedAt == None)
  {
  }
}
