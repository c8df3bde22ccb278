/** `emit_output` and `cancel_output` of outputs/api.py as coroutines.

    Each method of `OutputStore` is the code between two awaits, written as the
    source writes it; at an await the other coroutines take any steps of the
    protocol in `Delivery`. Both entry points are proved to stay inside that
    protocol, so its theorems hold of every state they produce. */
module DeliveryCoroutines {
  import opened Common
  import opened Delivery
  import Runs

  predicate OfCancels(actions: seq<Action>) {
    forall a <- actions ::
      !a.EmitResolve? && !a.EmitDeliver? && !a.EmitSettle? && !a.EmitRecall? && !a.EmitMark? && !a.EmitReturn?
  }

  /** Actions of anyone but cancel number `k`. */
  predicate NotOf(actions: seq<Action>, k: nat) {
    forall a <- actions ::
      match a
      case CancelClaim(j) => j != k
      case CancelSelect(j) => j != k
      case CancelFlip(j) => j != k
      case CancelRecall(j, _, _) => j != k
      case CancelFinish(j) => j != k
      case _ => true
  }

  lemma {:induction false} CancelsLeaveEmitter(s: State, actions: seq<Action>)
    requires OfCancels(actions)
    ensures Run(s, actions).emitter == s.emitter
  {
    if actions != [] {
      var n := |actions| - 1;
      assert OfCancels(actions[..n]);
      CancelsLeaveEmitter(s, actions[..n]);
      assert actions[n] in actions;
    }
  }

  lemma OtherLeavesCancel(s: State, a: Action, k: nat)
    requires NotOf([a], k) && k < |s.cancels|
    ensures k < |Step(s, a).cancels| && Step(s, a).cancels[k] == s.cancels[k]
  {
    assert a in [a];
  }

  lemma {:induction false} OthersLeaveCancel(s: State, actions: seq<Action>, k: nat)
    requires NotOf(actions, k) && k < |s.cancels|
    ensures k < |Run(s, actions).cancels| && Run(s, actions).cancels[k] == s.cancels[k]
  {
    if actions != [] {
      var before, last := actions[..|actions| - 1], actions[|actions| - 1];
      assert last in actions && forall a <- before :: a in actions;
      assert NotOf(before, k) && NotOf([last], k);
      OthersLeaveCancel(s, before, k);
      OtherLeavesCancel(Run(s, before), last, k);
    }
  }

  lemma {:induction false} CancelsOnlyGrow(s: State, actions: seq<Action>)
    ensures |s.cancels| <= |Run(s, actions).cancels|
  {
    if actions != [] {
      CancelsOnlyGrow(s, actions[..|actions| - 1]);
    }
  }

  /** A state of some run: what both coroutines find whenever they are resumed. */
  ghost predicate Live(s: State) {
    Runs.Reaches(Step, Start(s.emitter.channels), s)
  }

  lemma LiveOn(s: State, t: State)
    requires Live(s) && Runs.Reaches(Step, s, t)
    ensures Live(t) && t.emitter.channels == s.emitter.channels && |s.cancels| <= |t.cancels|
  {
    var more: seq<Action> :| t == Runs.Run(Step, s, more);
    ChannelsStay(s, more);
    CancelsOnlyGrow(s, more);
    Runs.ReachesTrans(Step, Start(s.emitter.channels), s, t);
  }

  lemma LiveInv(s: State)
    requires Live(s)
    ensures Inv(s)
  {
    var actions: seq<Action> :| s == Runs.Run(Step, Start(s.emitter.channels), actions);
    RunKeepsInv(Start(s.emitter.channels), actions);
  }

  /** The emitter's next action is never blocked. */
  lemma EmitterReady(s: State)
    requires Live(s)
    ensures s.emitter.pc.Next? ==> Enabled(s, EmitResolve(true)) || Enabled(s, EmitReturn)
    ensures s.emitter.pc.Delivering? ==> forall result :: Enabled(s, EmitDeliver(result))
    ensures s.emitter.pc.Settling? ==> Enabled(s, EmitSettle)
    ensures s.emitter.pc.Recalling? ==> Enabled(s, EmitRecall)
    ensures s.emitter.pc.Marking? ==> Enabled(s, EmitMark)
    ensures s.emitter.pc.Settling? || s.emitter.pc.Recalling? || s.emitter.pc.Marking? ==>
      s.emitter.pc.row < |s.past| && s.past[s.emitter.pc.row].reported == Some(s.emitter.pc.result)
  {
    LiveInv(s);
    if Holding(s.emitter).Some? {
      assert RowInv(s, s.emitter.pc.row);
    }
  }

  /** None of the first `n` rows is in flight or shown as delivered. */
  ghost predicate Silenced(s: State, n: nat) {
    n <= |s.rows| && forall r: nat :: r < n ==> s.rows[r].status !in {InFlight, Delivered}
  }

  /** Neither is the next action of a cancel. */
  lemma CancelReady(s: State, k: nat)
    requires Live(s) && k < |s.cancels|
    ensures s.cancels[k].pc.Flipping? ==> Enabled(s, CancelFlip(k)) || Enabled(s, CancelFinish(k))
    ensures s.cancels[k].pc.Calling? ==> forall found, ok :: Enabled(s, CancelRecall(k, found, ok))
    ensures s.cancels[k].pc.Finished? ==>
      Silenced(s, s.cancels[k].seen)
  {
    LiveInv(s);
    var c := s.cancels[k];
    assert CancelInv(s, k);
    if c.pc.Flipping? && c.pc.todo != [] {
      assert c.pc.todo[0] in Todo(c);
    }
  }

  /** Every row that cancel `k` flipped, other than `but`, has been recalled with the id
      its channel reported. */
  ghost predicate AllRecalled(s: State, k: nat, but: Option<nat>) {
    forall r: nat :: r < |s.past| && s.past[r].flippedBy == Some(k) && Some(r) != but ==>
      r < |s.rows| && s.past[r].recalls == [s.rows[r].deliveryId]
  }

  lemma OtherLeavesFlipped(s: State, a: Action, k: nat, r: nat)
    requires Inv(s) && NotOf([a], k) && r < |Step(s, a).past| && Step(s, a).past[r].flippedBy == Some(k)
    ensures var t := Step(s, a);
      && r < |s.past| && s.past[r].flippedBy == Some(k)
      && r < |t.rows| && t.past[r].recalls == s.past[r].recalls && t.rows[r].deliveryId == s.rows[r].deliveryId
  {
    assert a in [a];
    if Enabled(s, a) {
      if a.CancelRecall? {
        assert CancelInv(s, a.k);
      } else if r < |s.rows| {
        assert RowInv(s, r);
      }
    }
  }

  lemma OtherKeepsRecalls(s: State, a: Action, k: nat, but: Option<nat>)
    requires Inv(s) && NotOf([a], k) && AllRecalled(s, k, but)
    ensures AllRecalled(Step(s, a), k, but)
  {
    var t := Step(s, a);
    forall r: nat | r < |t.past| && t.past[r].flippedBy == Some(k) && Some(r) != but
      ensures r < |t.rows| && t.past[r].recalls == [t.rows[r].deliveryId]
    {
      OtherLeavesFlipped(s, a, k, r);
    }
  }

  lemma {:induction false} OthersKeepRecalls(s: State, actions: seq<Action>, k: nat, but: Option<nat>)
    requires Inv(s) && NotOf(actions, k) && AllRecalled(s, k, but)
    ensures AllRecalled(Run(s, actions), k, but)
  {
    if actions != [] {
      var before, last := actions[..|actions| - 1], actions[|actions| - 1];
      assert last in actions && forall a <- before :: a in actions;
      assert NotOf(before, k) && NotOf([last], k);
      OthersKeepRecalls(s, before, k, but);
      RunKeepsInv(s, before);
      OtherKeepsRecalls(Run(s, before), last, k, but);
    }
  }

  /** A flip leaves one row to recall, the one it hit. */
  lemma FlipOpensOne(s: State, k: nat)
    requires Enabled(s, CancelFlip(k)) && AllRecalled(s, k, None)
    ensures var pick := s.cancels[k].pc.todo[0];
      AllRecalled(Step(s, CancelFlip(k)), k, if s.rows[pick.row].status == Delivered then Some(pick.row) else None)
  {
  }

  /** The call to its channel closes it. */
  lemma RecallCloses(s: State, k: nat, t: State)
    requires Inv(s) && k < |s.cancels| && s.cancels[k].pc.Calling? && AllRecalled(s, k, Some(s.cancels[k].pc.now.row))
    requires var now := s.cancels[k].pc.now;
      && now.row < |s.past| && t.rows == s.rows
      && t.past == s.past[now.row := s.past[now.row].(recalls := s.past[now.row].recalls + [now.deliveryId])]
    ensures AllRecalled(t, k, None)
  {
    assert CancelInv(s, k) && PickInv(s, s.cancels[k].pc.now);
  }

  /** A cancel that has only just begun has flipped nothing. */
  lemma NothingFlippedYet(s: State, k: nat)
    requires Inv(s) && k < |s.cancels| && s.cancels[k].pc.Claimed?
    ensures AllRecalled(s, k, None)
  {
    assert CancelInv(s, k);
  }

  /** The channel at position `i` was tried and answered `result`. */
  ghost predicate Reports(s: State, i: nat, result: Result) {
    && i < |s.emitter.fates| && s.emitter.fates[i].Sent? && s.emitter.fates[i].row < |s.past|
    && s.past[s.emitter.fates[i].row].reported == Some(result)
  }

  lemma StepKeepsReport(s: State, a: Action, i: nat, result: Result)
    requires Inv(s) && Reports(s, i, result)
    ensures Reports(Step(s, a), i, result)
  {
    assert FateInv(s, i) && RowInv(s, s.emitter.fates[i].row);
  }

  lemma {:induction false} RunKeepsReport(s: State, actions: seq<Action>, i: nat, result: Result)
    requires Inv(s) && Reports(s, i, result)
    ensures Reports(Run(s, actions), i, result)
  {
    if actions != [] {
      var before := actions[..|actions| - 1];
      RunKeepsInv(s, before);
      RunKeepsReport(s, before, i, result);
      StepKeepsReport(Run(s, before), actions[|actions| - 1], i, result);
    }
  }

  /** What the world does while one channel is handled: the answers the emitter
      gets, and what other coroutines do at each of its awaits. */
  datatype Turn = Turn(found: bool, result: Result, atResolve: seq<Action>, atDeliver: seq<Action>,
                       atUpdate: seq<Action>, atRecall: seq<Action>, atMark: seq<Action>)

  predicate FairTurn(t: Turn) {
    OfCancels(t.atResolve) && OfCancels(t.atDeliver) && OfCancels(t.atUpdate) && OfCancels(t.atRecall) && OfCancels(t.atMark)
  }

  /** Position by position, the emitter did what the world allowed. */
  ghost predicate Follows(s: State, turns: seq<Turn>) {
    && |turns| <= |s.emitter.fates|
    && (forall j: nat :: j < |turns| ==> (s.emitter.fates[j].Sent? <==> turns[j].found))
    && (forall j: nat :: j < |turns| && turns[j].found ==> Reports(s, j, turns[j].result))
  }

  lemma FollowsOne(s: State, t: State, turns: seq<Turn>, i: nat)
    requires Live(s) && Runs.Reaches(Step, s, t) && i < |turns| && |s.emitter.fates| == i && Follows(s, turns[..i])
    requires |t.emitter.fates| == i + 1 && t.emitter.fates[..i] == s.emitter.fates
    requires t.emitter.fates[i].Sent? <==> turns[i].found
    requires turns[i].found ==> Reports(t, i, turns[i].result)
    ensures Follows(t, turns[..i + 1])
  {
    LiveInv(s);
    var onward: seq<Action> :| t == Runs.Run(Step, s, onward);
    forall j: nat | j < i + 1 && turns[j].found ensures Reports(t, j, turns[j].result) {
      if j < i {
        assert turns[..i][j] == turns[j];
        RunKeepsReport(s, onward, j, turns[j].result);
      }
    }
    forall j: nat | j < i + 1 ensures t.emitter.fates[j].Sent? <==> turns[j].found {
      if j < i {
        assert turns[..i][j] == turns[j] && t.emitter.fates[..i][j] == s.emitter.fates[j];
      }
    }
  }

  /** What the world does while one cancel handles one selected row. */
  datatype Chance = Chance(found: bool, ok: bool, atFlip: seq<Action>, atRecall: seq<Action>)

  /** The rows of one output together with the local state of the coroutines that
      work on them. `past` records history: only the interference at an await reads
      it, no statement of the code does. */
  class OutputStore {
    var rows: seq<Row>
    var past: seq<Past>
    var emitter: Emitter
    var cancels: seq<Canceller>

    function View(): State
      reads this
    {
      State(rows, past, emitter, cancels)
    }

    constructor (channels: seq<string>)
      ensures View() == Start(channels) && Live(View())
    {
      rows, past, emitter, cancels := [], [], Emitter(channels, Next, [], [], []), [];
      Runs.ReachesSelf(Step, Start(channels));
    }

    /** An await: other coroutines take the given steps. */
    method Await(actions: seq<Action>)
      modifies this
      ensures View() == Run(old(View()), actions)
    {
      var after := Run(View(), actions);
      rows, past, emitter, cancels := after.rows, after.past, after.emitter, after.cancels;
    }

    // ----- emit_output -----

    /** Await inside `emit_output`: its own local state is unchanged. */
    method AwaitCancels(actions: seq<Action>, ghost origin: State)
      requires OfCancels(actions) && Runs.Reaches(Step, origin, View())
      modifies this
      ensures emitter == old(emitter) && Runs.Reaches(Step, origin, View())
    {
      CancelsLeaveEmitter(View(), actions);
      Runs.ReachesRun(Step, origin, View(), actions);
      Await(actions);
    }

    /** INSERT INTO output_deliveries ... 'in_flight'; the cursor's row id. */
    method InsertRow(channel: string) returns (rowId: nat)
      requires Enabled(View(), EmitResolve(true)) && channel == emitter.channels[|emitter.fates|]
      modifies this
      ensures View() == Step(old(View()), EmitResolve(true)) && emitter.pc == Delivering(rowId)
    {
      rowId := |rows|;
      rows := rows + [Row(channel, InFlight, false, None)];
      past := past + [Past(|emitter.fates|, None, Unsettled, false, None, [])];
      emitter := emitter.(pc := Delivering(rowId));
    }

    /** The channel's answer comes back. */
    method NoteAnswer(rowId: nat, result: Result)
      requires Enabled(View(), EmitDeliver(result)) && emitter.pc == Delivering(rowId)
      modifies this
      ensures View() == Step(old(View()), EmitDeliver(result))
    {
      past := past[rowId := past[rowId].(reported := Some(result))];
      emitter := emitter.(pc := Settling(rowId, result));
    }

    /** The emitter's conditional UPDATE; the cursor's row count. */
    method SettleRow(rowId: nat, result: Result) returns (rowcount: nat)
      requires Enabled(View(), EmitSettle) && emitter.pc == Settling(rowId, result)
      modifies this
      ensures View() == Step(old(View()), EmitSettle)
      ensures rowcount == if old(rows)[rowId].status == InFlight then 1 else 0
    {
      var target := if result.delivered then Delivered else Failed;
      rowcount := if rows[rowId].status == InFlight then 1 else 0;
      if rowcount == 1 {
        rows := rows[rowId := rows[rowId].(status := target, delivered := result.delivered, deliveryId := result.deliveryId)];
      }
      past := past[rowId := past[rowId].(settlement := if rowcount == 1 then Wrote(target) else Missed)];
      emitter := if rowcount == 0 && result.delivered then emitter.(pc := Recalling(rowId, result))
                 else Dispose(emitter, Sent(rowId, rowcount == 1 && result.delivered));
    }

    /** `ch.cancel(output_id, result.delivery_id)`. */
    method CallCancel(rowId: nat, result: Result)
      requires Enabled(View(), EmitRecall) && emitter.pc == Recalling(rowId, result)
      modifies this
      ensures View() == Step(old(View()), EmitRecall)
    {
      past := past[rowId := past[rowId].(recalls := past[rowId].recalls + [result.deliveryId])];
      emitter := emitter.(pc := Marking(rowId, result));
    }

    /** The unconditional UPDATE after a post-deliver recall. */
    method MarkRow(rowId: nat, result: Result)
      requires Enabled(View(), EmitMark) && emitter.pc == Marking(rowId, result)
      modifies this
      ensures View() == Step(old(View()), EmitMark)
    {
      rows := rows[rowId := rows[rowId].(status := Cancelled, delivered := true, deliveryId := result.deliveryId)];
      emitter := Dispose(emitter, Sent(rowId, false));
    }

    /** cancel_output won the race: recall what was just delivered. */
    method RecallDelivered(turn: Turn, rowId: nat, ghost origin: State)
      requires Live(origin) && Runs.Reaches(Step, origin, View())
      requires FairTurn(turn) && emitter.pc == Recalling(rowId, turn.result) && |emitter.fates| < |emitter.channels|
      modifies this
      ensures Runs.Reaches(Step, origin, View())
      ensures emitter == Dispose(old(emitter), Sent(rowId, false))
      ensures rowId < |past| && past[rowId].reported == Some(turn.result)
    {
      AwaitCancels(turn.atRecall, origin);
      LiveOn(origin, View());
      EmitterReady(View());
      Runs.ReachesNext(Step, origin, View(), EmitRecall);
      CallCancel(rowId, turn.result);
      AwaitCancels(turn.atMark, origin);
      LiveOn(origin, View());
      EmitterReady(View());
      Runs.ReachesNext(Step, origin, View(), EmitMark);
      MarkRow(rowId, turn.result);
    }

    /** What follows an insert, up to the end of the turn. Tells whether the channel
        goes to `dispatched`. */
    method Deliver(turn: Turn, rowId: nat, ghost origin: State) returns (won: bool)
      requires Live(origin) && Runs.Reaches(Step, origin, View())
      requires FairTurn(turn) && emitter.pc == Delivering(rowId) && |emitter.fates| < |emitter.channels|
      modifies this
      ensures Runs.Reaches(Step, origin, View())
      ensures emitter == Dispose(old(emitter), Sent(rowId, won))
      ensures rowId < |past| && past[rowId].reported == Some(turn.result)
    {
      AwaitCancels(turn.atDeliver, origin);
      LiveOn(origin, View());
      EmitterReady(View());
      Runs.ReachesNext(Step, origin, View(), EmitDeliver(turn.result));
      NoteAnswer(rowId, turn.result);
      AwaitCancels(turn.atUpdate, origin);
      LiveOn(origin, View());
      EmitterReady(View());
      Runs.ReachesNext(Step, origin, View(), EmitSettle);
      var rowcount := SettleRow(rowId, turn.result);
      won := rowcount != 0 && turn.result.delivered;
      if rowcount == 0 && turn.result.delivered {
        RecallDelivered(turn, rowId, origin);
      }
    }

    /** One iteration of the dispatch loop; `won` tells which reply list grows. */
    method HandleChannel(turn: Turn, ghost origin: State) returns (won: bool)
      requires Live(origin) && origin == View() && Enabled(View(), EmitResolve(true)) && FairTurn(turn)
      modifies this
      ensures Runs.Reaches(Step, origin, View())
      ensures |emitter.fates| == |old(emitter.fates)| + 1
      ensures emitter == Dispose(old(emitter), emitter.fates[|old(emitter.fates)|])
      ensures var fate := emitter.fates[|old(emitter.fates)|];
        && (fate.Sent? <==> turn.found) && won == (fate.Sent? && fate.won)
        && (turn.found ==> Reports(View(), |old(emitter.fates)|, turn.result))
    {
      Runs.ReachesSelf(Step, origin);
      AwaitCancels(turn.atResolve, origin);
      Runs.ReachesNext(Step, origin, View(), EmitResolve(turn.found));
      if turn.found {
        var rowId := InsertRow(emitter.channels[|emitter.fates|]);
        won := Deliver(turn, rowId, origin);
      } else {
        emitter := Dispose(emitter, NoChannel);
        won := false;
      }
    }

    /** The dispatch loop of `emit_output`. */
    method EmitOutput(turns: seq<Turn>) returns (dispatched: seq<string>, dropped: seq<string>)
      requires Live(View()) && emitter.pc.Next? && emitter.fates == []
      requires |turns| == |emitter.channels| && forall t <- turns :: FairTurn(t)
      modifies this
      ensures Live(View()) && Runs.Reaches(Step, old(View()), View())
      ensures emitter.pc.Returned? && emitter.channels == old(emitter.channels)
      ensures dispatched == emitter.dispatched && dropped == emitter.dropped
      ensures |emitter.fates| == |turns| && Follows(View(), turns)
    {
      dispatched, dropped := [], [];
      var channels := emitter.channels;
      ghost var start := View();
      NothingSaidYet(start);
      Runs.ReachesSelf(Step, start);
      for i := 0 to |channels|
        invariant emitter.channels == channels && emitter.pc.Next? && |emitter.fates| == i
        invariant Live(View()) && Runs.Reaches(Step, start, View())
        invariant dispatched == emitter.dispatched && dropped == emitter.dropped
        invariant Follows(View(), turns[..i])
      {
        assert turns[i] in turns;
        ghost var head := View();
        var won := HandleChannel(turns[i], head);
        LiveOn(head, View());
        Runs.ReachesTrans(Step, start, head, View());
        FollowsOne(head, View(), turns, i);
        if won {
          dispatched := dispatched + [channels[i]];
        } else {
          dropped := dropped + [channels[i]];
        }
      }
      assert turns[..|channels|] == turns;
      Runs.ReachesNext(Step, start, View(), EmitReturn);
      emitter := emitter.(pc := Returned);
      LiveOn(start, View());
    }

    // ----- cancel_output -----

    /** Await inside cancel `k`: its own local state is unchanged. */
    method AwaitOthers(actions: seq<Action>, k: nat, ghost but: Option<nat>, ghost origin: State)
      requires NotOf(actions, k) && k < |cancels| && Live(origin) && Runs.Reaches(Step, origin, View())
      modifies this
      ensures Runs.Reaches(Step, origin, View()) && |cancels| >= |old(cancels)| && cancels[k] == old(cancels)[k]
      ensures old(AllRecalled(View(), k, but)) ==> AllRecalled(View(), k, but)
    {
      LiveOn(origin, View());
      LiveInv(View());
      if AllRecalled(View(), k, but) {
        OthersKeepRecalls(View(), actions, k, but);
      }
      OthersLeaveCancel(View(), actions, k);
      CancelsOnlyGrow(View(), actions);
      Runs.ReachesRun(Step, origin, View(), actions);
      Await(actions);
    }

    /** A new call, up to and including its claiming UPDATE. */
    method Claim(ghost origin: State) returns (k: nat)
      requires Live(origin) && origin == View()
      modifies this
      ensures Runs.Reaches(Step, origin, View())
      ensures k == |old(cancels)| && cancels == old(cancels) + [Canceller(Claimed, |old(rows)|, {}, [])]
      ensures rows == ClaimRows(old(rows)) && emitter == old(emitter)
    {
      LiveInv(origin);
      Runs.ReachesSelf(Step, origin);
      k := |cancels|;
      Runs.ReachesNext(Step, origin, View(), CancelCall);
      cancels := cancels + [Canceller(Starting, 0, {}, [])];
      Runs.ReachesNext(Step, origin, View(), CancelClaim(k));
      past := ClaimPast(rows, past);
      rows := ClaimRows(rows);
      cancels := cancels[k := cancels[k].(pc := Claimed, seen := |rows|)];
    }

    /** SELECT ... WHERE status = 'delivered'. */
    method SelectDelivered(k: nat) returns (picks: seq<Pick>)
      requires Enabled(View(), CancelSelect(k))
      modifies this
      ensures View() == Step(old(View()), CancelSelect(k)) && picks == DeliveredRows(rows)
    {
      picks := DeliveredRows(rows);
      cancels := cancels[k := cancels[k].(pc := Flipping(picks), picks := PickRows(picks))];
    }

    /** The cancel's conditional UPDATE; the cursor's row count. */
    method FlipRow(k: nat, pick: Pick) returns (rowcount: nat)
      requires Enabled(View(), CancelFlip(k)) && pick == cancels[k].pc.todo[0]
      modifies this
      ensures View() == Step(old(View()), CancelFlip(k))
      ensures rowcount == if old(rows)[pick.row].status == Delivered then 1 else 0
      ensures var c := old(cancels)[k];
        cancels == old(cancels)[k := c.(pc := if rowcount == 0 then Flipping(c.pc.todo[1..]) else Calling(pick, c.pc.todo[1..]))]
    {
      var rest := cancels[k].pc.todo[1..];
      rowcount := if rows[pick.row].status == Delivered then 1 else 0;
      if rowcount == 1 {
        rows := rows[pick.row := rows[pick.row].(status := Cancelled)];
        past := past[pick.row := past[pick.row].(flippedBy := Some(k))];
        cancels := cancels[k := cancels[k].(pc := Calling(pick, rest))];
      } else {
        cancels := cancels[k := cancels[k].(pc := Flipping(rest))];
      }
    }

    /** resolve_channel, then `ch.cancel` if there still is a channel. */
    method TellChannel(k: nat, found: bool, ok: bool)
      requires Enabled(View(), CancelRecall(k, found, ok))
      modifies this
      ensures View() == Step(old(View()), CancelRecall(k, found, ok))
      ensures var pick := old(cancels)[k].pc.now;
        found ==> rows == old(rows) && past == old(past)[pick.row := old(past)[pick.row].(recalls := old(past)[pick.row].recalls + [pick.deliveryId])]
    {
      var pick, rest := cancels[k].pc.now, cancels[k].pc.todo;
      if found {
        past := past[pick.row := past[pick.row].(recalls := past[pick.row].recalls + [pick.deliveryId])];
        cancels := cancels[k := cancels[k].(pc := Flipping(rest),
                                            cancelled := cancels[k].cancelled + (if ok then [pick.channel] else []))];
      } else {
        cancels := cancels[k := cancels[k].(pc := Flipping(rest))];
      }
    }

    /** What follows a flip that hit its row. */
    method RecallFlipped(k: nat, chance: Chance, ghost origin: State)
      requires Live(origin) && Runs.Reaches(Step, origin, View())
      requires k < |cancels| && cancels[k].pc.Calling? && NotOf(chance.atRecall, k)
      modifies this
      ensures Runs.Reaches(Step, origin, View()) && |old(cancels)| <= |cancels|
      ensures var c, told := old(cancels)[k], chance.found && chance.ok;
        cancels[k] == c.(pc := Flipping(c.pc.todo), cancelled := c.cancelled + (if told then [c.pc.now.channel] else []))
      ensures chance.found && old(AllRecalled(View(), k, Some(cancels[k].pc.now.row))) ==> AllRecalled(View(), k, None)
    {
      ghost var all := AllRecalled(View(), k, Some(cancels[k].pc.now.row));
      AwaitOthers(chance.atRecall, k, Some(cancels[k].pc.now.row), origin);
      LiveOn(origin, View());
      LiveInv(View());
      CancelReady(View(), k);
      ghost var before := View();
      Runs.ReachesNext(Step, origin, View(), CancelRecall(k, chance.found, chance.ok));
      TellChannel(k, chance.found, chance.ok);
      if chance.found && all {
        RecallCloses(before, k, View());
      }
    }

    method AwaitFlip(k: nat, atFlip: seq<Action>, ghost origin: State)
      requires Live(origin) && Runs.Reaches(Step, origin, View())
      requires k < |cancels| && cancels[k].pc.Flipping? && cancels[k].pc.todo != [] && NotOf(atFlip, k)
      modifies this
      ensures Runs.Reaches(Step, origin, View()) && |old(cancels)| <= |cancels|
      ensures cancels[k] == old(cancels)[k] && Enabled(View(), CancelFlip(k))
      ensures old(AllRecalled(View(), k, None)) ==> AllRecalled(View(), k, None)
    {
      AwaitOthers(atFlip, k, None, origin);
      LiveOn(origin, View());
      CancelReady(View(), k);
    }

    /** The UPDATE for the next selected row; the cursor's row count. */
    method FlipNext(k: nat, atFlip: seq<Action>, ghost origin: State) returns (rowcount: nat)
      requires Live(origin) && Runs.Reaches(Step, origin, View())
      requires k < |cancels| && cancels[k].pc.Flipping? && cancels[k].pc.todo != [] && NotOf(atFlip, k)
      modifies this
      ensures Runs.Reaches(Step, origin, View()) && |old(cancels)| <= |cancels|
      ensures var c := old(cancels)[k];
        cancels[k] == c.(pc := if rowcount == 0 then Flipping(c.pc.todo[1..]) else Calling(c.pc.todo[0], c.pc.todo[1..]))
      ensures old(AllRecalled(View(), k, None)) ==>
        AllRecalled(View(), k, if rowcount == 0 then None else Some(old(cancels)[k].pc.todo[0].row))
    {
      ghost var all := AllRecalled(View(), k, None);
      AwaitFlip(k, atFlip, origin);
      Runs.ReachesNext(Step, origin, View(), CancelFlip(k));
      ghost var before := View();
      rowcount := FlipRow(k, cancels[k].pc.todo[0]);
      if all {
        FlipOpensOne(before, k);
      }
    }

    /** One iteration over the selected rows; tells whether the channel's name goes
        into the reply. */
    method HandlePick(k: nat, chance: Chance, ghost origin: State) returns (told: bool)
      requires Live(origin) && Runs.Reaches(Step, origin, View())
      requires k < |cancels| && cancels[k].pc.Flipping? && cancels[k].pc.todo != []
      requires NotOf(chance.atFlip, k) && NotOf(chance.atRecall, k)
      modifies this
      ensures Runs.Reaches(Step, origin, View()) && |old(cancels)| <= |cancels|
      ensures var c, pick := old(cancels)[k], old(cancels)[k].pc.todo[0];
        cancels[k] == c.(pc := Flipping(c.pc.todo[1..]), cancelled := c.cancelled + (if told then [pick.channel] else []))
      ensures told ==> chance.found && chance.ok
      ensures chance.found && old(AllRecalled(View(), k, None)) ==> AllRecalled(View(), k, None)
    {
      var rowcount := FlipNext(k, chance.atFlip, origin);
      told := rowcount != 0 && chance.found && chance.ok;
      if rowcount != 0 {
        RecallFlipped(k, chance, origin);
      }
    }

    /** The loop over the selected rows. */
    method HandlePicks(k: nat, picks: seq<Pick>, chance: nat -> Chance, ghost origin: State) returns (told: seq<string>)
      requires Live(origin) && Runs.Reaches(Step, origin, View())
      requires k < |cancels| && cancels[k].pc == Flipping(picks) && cancels[k].cancelled == []
      requires forall n :: NotOf(chance(n).atFlip, k) && NotOf(chance(n).atRecall, k)
      modifies this
      ensures Runs.Reaches(Step, origin, View()) && k < |cancels|
      ensures cancels[k] == old(cancels)[k].(pc := Flipping([]), cancelled := told)
      ensures (forall n :: chance(n).found) && old(AllRecalled(View(), k, None)) ==> AllRecalled(View(), k, None)
    {
      ghost var all := (forall n :: chance(n).found) && AllRecalled(View(), k, None);
      told := [];
      for i := 0 to |picks|
        invariant k < |cancels| && Runs.Reaches(Step, origin, View())
        invariant cancels[k] == old(cancels)[k].(pc := Flipping(picks[i..]), cancelled := told)
        invariant all ==> AllRecalled(View(), k, None)
      {
        assert picks[i..][0] == picks[i] && picks[i..][1..] == picks[i + 1..];
        var ok := HandlePick(k, chance(i), origin);
        if ok {
          told := told + [picks[i].channel];
        }
      }
    }

    /** Claim, then select what is shown by then. */
    method BeginCancel(atClaim: seq<Action>, ghost origin: State) returns (k: nat, picks: seq<Pick>)
      requires Live(origin) && origin == View() && NotOf(atClaim, |cancels|)
      modifies this
      ensures Runs.Reaches(Step, origin, View())
      ensures k == |old(cancels)| < |cancels|
      ensures cancels[k] == Canceller(Flipping(picks), |old(rows)|, PickRows(picks), [])
      ensures AllRecalled(View(), k, None)
    {
      k := Claim(origin);
      AwaitOthers(atClaim, k, None, origin);
      LiveOn(origin, View());
      LiveInv(View());
      NothingFlippedYet(View(), k);
      Runs.ReachesNext(Step, origin, View(), CancelSelect(k));
      picks := SelectDelivered(k);
    }

    /** The cancel has gone through its list. */
    method FinishCancel(k: nat, ghost origin: State)
      requires Live(origin) && Runs.Reaches(Step, origin, View()) && Enabled(View(), CancelFinish(k))
      modifies this
      ensures Live(View()) && Runs.Reaches(Step, origin, View()) && |cancels| == |old(cancels)|
      ensures cancels[k] == old(cancels)[k].(pc := Finished)
      ensures Silenced(View(), cancels[k].seen)
      ensures past == old(past) && rows == old(rows)
    {
      Runs.ReachesNext(Step, origin, View(), CancelFinish(k));
      cancels := cancels[k := cancels[k].(pc := Finished)];
      LiveOn(origin, View());
      CancelReady(View(), k);
    }

    /** `cancel_output`. On return no row that existed when it was called is in
        flight or shown as delivered, and if every channel is still there, each row
        that this call took back has been recalled. */
    method CancelOutput(atClaim: seq<Action>, chance: nat -> Chance) returns (cancelledChannels: seq<string>)
      requires Live(View()) && NotOf(atClaim, |cancels|)
      requires forall n :: NotOf(chance(n).atFlip, |cancels|) && NotOf(chance(n).atRecall, |cancels|)
      modifies this
      ensures Live(View()) && Runs.Reaches(Step, old(View()), View())
      ensures |old(cancels)| < |cancels|
      ensures cancels[|old(cancels)|].pc.Finished? && cancels[|old(cancels)|].cancelled == cancelledChannels
      ensures Silenced(View(), |old(rows)|)
      ensures (forall n :: chance(n).found) ==>
        forall r: nat :: r < |past| && past[r].flippedBy == Some(|old(cancels)|) ==>
          r < |rows| && past[r].recalls == [rows[r].deliveryId]
    {
      ghost var origin := View();
      var k, picks := BeginCancel(atClaim, origin);
      cancelledChannels := HandlePicks(k, picks, chance, origin);
      FinishCancel(k, origin);
    }
  }

  lemma NothingSaidYet(s: State)
    requires Live(s) && s.emitter.fates == []
    ensures s.emitter.dispatched == s.emitter.dropped == []
  {
    LiveInv(s);
  }
}
