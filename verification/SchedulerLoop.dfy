/** The process of scheduler.py: its table, its `_in_flight` set and its
    coroutines, with each method written as the source writes it. */
module SchedulerLoop {
  import opened Common
  import opened Recurrence
  import opened Scheduler

  /** SELECT * FROM schedules WHERE fires_at <= ? AND cancelled_at IS NULL. */
  function DueIds(rows: seq<Row>, n: nat, clock: int): (ids: seq<nat>)
    requires n <= |rows|
    ensures forall i :: 0 <= i < |ids| ==> ids[i] < n
    ensures forall i, j :: 0 <= i < j < |ids| ==> ids[i] < ids[j]
  {
    if n == 0 then []
    else
      var before := DueIds(rows, n - 1, clock);
      if Due(rows[n - 1], clock) then before + [n - 1] else before
  }

  /** The coroutines for the selected rows that are not in flight yet. */
  function Spawn(rows: seq<Row>, ids: seq<nat>, inFlight: set<nat>): seq<Fire>
    requires forall i :: 0 <= i < |ids| ==> ids[i] < |rows|
  {
    if ids == [] then []
    else
      var last := ids[|ids| - 1];
      Spawn(rows, ids[..|ids| - 1], inFlight) + (if last in inFlight then [] else [Fire(last, rows[last], Spawned)])
  }

  lemma SpawnOneMore(rows: seq<Row>, ids: seq<nat>, id: nat, inFlight: set<nat>)
    requires id < |rows| && forall i :: 0 <= i < |ids| ==> ids[i] < |rows|
    ensures Spawn(rows, ids + [id], inFlight)
         == Spawn(rows, ids, inFlight) + (if id in inFlight then [] else [Fire(id, rows[id], Spawned)])
  {
    assert (ids + [id])[..|ids|] == ids;
  }

  lemma {:induction false} SpawnOfDueIds(rows: seq<Row>, n: nat, inFlight: set<nat>, clock: int)
    requires n <= |rows|
    ensures Spawn(rows, DueIds(rows, n, clock), inFlight) == SpawnDue(rows, n, inFlight, clock)
  {
    if n > 0 {
      SpawnOfDueIds(rows, n - 1, inFlight, clock);
      if Due(rows[n - 1], clock) {
        SpawnOneMore(rows, DueIds(rows, n - 1, clock), n - 1, inFlight);
      }
    }
  }

  function Members(ids: seq<nat>): set<nat> {
    set id <- ids
  }

  lemma OneMoreId(fires: seq<Fire>, f: Fire)
    ensures Ids(fires + [f]) == Ids(fires) + {f.id}
  {
    assert forall g <- fires + [f] :: g in fires || g == f;
    assert forall g <- fires :: g in fires + [f];
    assert f in fires + [f];
  }

  lemma OneMoreMember(ids: seq<nat>, id: nat)
    ensures Members(ids + [id]) == Members(ids) + {id}
  {
  }

  /** Either way a selected id ends up in flight. */
  lemma {:induction false} IdsOfSpawn(rows: seq<Row>, ids: seq<nat>, inFlight: set<nat>)
    requires forall i :: 0 <= i < |ids| ==> ids[i] < |rows|
    ensures inFlight + Ids(Spawn(rows, ids, inFlight)) == inFlight + Members(ids)
  {
    if ids != [] {
      var before, last := ids[..|ids| - 1], ids[|ids| - 1];
      IdsOfSpawn(rows, before, inFlight);
      OneMoreMember(before, last);
      var spawned := Spawn(rows, before, inFlight);
      OneMoreId(spawned, Fire(last, rows[last], Spawned));
      assert ids == before + [last] && spawned + [] == spawned;
    }
  }

  /** The rows the claw-back applies to. */
  function Interrupted(rows: seq<Row>): set<nat> {
    set id: nat | id < |rows| && rows[id].lastStartedAt.Some? && rows[id].cancelledAt == None
  }

  class Process {
    const overlapping: bool
    var clock: int
    var up: bool
    var rows: seq<Row>
    ghost var finalised: seq<nat>
    var inFlight: set<nat>
    var fires: seq<Fire>

    ghost function View(): State
      reads this
    {
      State(overlapping, clock, up, rows, finalised, inFlight, fires)
    }

    constructor (overlapping: bool, clock: int)
      ensures View() == Start(overlapping, clock)
    {
      this.overlapping, this.clock, up := overlapping, clock, false;
      rows, finalised, inFlight, fires := [], [], {}, [];
    }

    /** `cancel_schedule`; false stands for 404. */
    method CancelSchedule(id: nat) returns (ok: bool)
      modifies this`rows
      ensures View() == Step(old(View()), Action.CancelSchedule(id)) && ok == (id < |rows|)
    {
      ok := id < |rows|;
      if ok {
        rows := rows[id := rows[id].(cancelledAt := Some(clock))];
      }
    }

    /** `reschedule`; false stands for 404. */
    method Reschedule(id: nat, spec: WhenSpec, firesAt: int) returns (ok: bool)
      modifies this`rows
      ensures View() == Step(old(View()), Action.Reschedule(id, spec, firesAt)) && ok == (id < |rows|)
    {
      ok := id < |rows|;
      if ok {
        rows := rows[id := rows[id].(spec := spec, firesAt := firesAt)];
      }
    }

    /** `start` with `_reconcile_crashed_fires`; tells how many rows were clawed back. */
    method Boot() returns (rowcount: nat)
      requires !up
      modifies this
      ensures View() == Step(old(View()), Action.Boot)
      ensures rowcount == |set id: nat | id < |old(rows)| && old(rows)[id].lastStartedAt.Some? && old(rows)[id].cancelledAt == None|
    {
      rowcount := |Interrupted(rows)|;
      rows := Reconciled(rows, clock);
      up := true;
    }

    /** The loop of `_tick` over the selected rows. */
    method Collect(selected: seq<nat>) returns (coros: seq<Fire>)
      requires forall i :: 0 <= i < |selected| ==> selected[i] < |rows|
      requires forall i, j :: 0 <= i < j < |selected| ==> selected[i] < selected[j]
      modifies this`inFlight
      ensures coros == Spawn(rows, selected, old(inFlight))
      ensures inFlight == old(inFlight) + Members(selected)
    {
      coros := [];
      for n := 0 to |selected|
        invariant coros == Spawn(rows, selected[..n], old(inFlight))
        invariant inFlight == old(inFlight) + Members(selected[..n])
      {
        var sid := selected[n];
        assert selected[..n + 1] == selected[..n] + [sid];
        assert Members(selected[..n + 1]) == Members(selected[..n]) + {sid};
        if sid in inFlight {
          continue;
        }
        inFlight := inFlight + {sid};
        coros := coros + [Fire(sid, rows[sid], Spawned)];
      }
      assert selected[..|selected|] == selected;
    }

    /** `_tick`, up to the point where it gathers the coroutines. */
    method Tick()
      requires Enabled(View(), Action.Tick)
      modifies this
      ensures View() == Step(old(View()), Action.Tick)
    {
      var selected := DueIds(rows, |rows|, clock);
      SpawnOfDueIds(rows, |rows|, inFlight, clock);
      IdsOfSpawn(rows, selected, inFlight);
      var coros := Collect(selected);
      fires := fires + coros;
    }

    /** `_fire` up to the commit of its reservation. */
    method Reserve(i: nat)
      requires Enabled(View(), Action.Reserve(i))
      modifies this
      ensures View() == Step(old(View()), Action.Reserve(i))
    {
      var schedule := fires[i];
      var next := NextFire(schedule.row.spec, clock);
      var reservedUntil := if next.Some? then next.value else clock + HOUR;
      rows := rows[schedule.id := rows[schedule.id].(firesAt := reservedUntil, lastStartedAt := Some(clock))];
      fires := fires[i := schedule.(pc := Running(next))];
    }

    /** The `finally` block of `_fire` and the release of the id. */
    method Finalise(i: nat, noOp: bool)
      requires Enabled(View(), Action.Finalise(i, noOp)) && Inv(View())
      modifies this
      ensures View() == Step(old(View()), Action.Finalise(i, noOp))
      ensures rows[old(fires)[i].id].totalFires == old(rows)[old(fires)[i].id].totalFires + 1
    {
      assert fires[i] in fires && FireInv(View(), fires[i]);
      var schedule := fires[i];
      var id := schedule.id;
      var total := schedule.row.totalFires + 1;
      var noOps := if noOp then schedule.row.noOps + 1 else 0;
      if schedule.pc.next.Some? {
        rows := rows[id := rows[id].(lastFired := Some(clock), firesAt := schedule.pc.next.value, totalFires := total,
                                     noOps := noOps, lastStartedAt := None)];
      } else {
        rows := rows[id := rows[id].(lastFired := Some(clock), totalFires := total, cancelledAt := Some(clock),
                                     lastStartedAt := None)];
      }
      finalised := finalised[id := finalised[id] + 1];
      inFlight := inFlight - {id};
      fires := fires[..i] + fires[i + 1..];
    }
  }
}
