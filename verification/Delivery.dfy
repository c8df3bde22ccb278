/** The per-channel delivery state machine of outputs/api.py.

    One output is emitted by one `emit_output` coroutine while any number of
    `cancel_output` coroutines run against it. Every `await` is a place where the
    others may run, so the protocol is a step system: an action is what one
    coroutine does between two awaits, and an action that is not enabled does
    nothing. Theorems speak about `Run(Start(channels), actions)` for every
    sequence of actions, that is, for every interleaving. */
module Delivery {
  import opened Common
  import Runs

  datatype Status = InFlight | Delivered | Failed | CancelPending | Cancelled

  /** A row of `output_deliveries` that belongs to the output. */
  datatype Row = Row(channel: string, status: Status, delivered: bool, deliveryId: Option<string>)

  /** What `channel.deliver` returned; an exception counts as not delivered. */
  datatype Result = Result(delivered: bool, deliveryId: Option<string>)

  /** Effect of the emitter's conditional UPDATE on its own row. */
  datatype Settlement = Unsettled | Missed | Wrote(status: Status)

  /** What happened to a row, beyond the values its columns hold now. */
  datatype Past = Past(
    position: nat,                 // index of its channel in the routing decision
    reported: Option<Result>,      // the channel's answer
    settlement: Settlement,
    claimed: bool,                 // a claiming UPDATE found the row in flight
    flippedBy: Option<nat>,        // the cancel whose UPDATE moved it delivered -> cancelled
    recalls: seq<Option<string>>)  // the delivery ids `channel.cancel` was called with

  datatype EmitPc =
    | Next                                   // at the head of the loop
    | Delivering(row: nat)                   // row inserted, `deliver` running
    | Settling(row: nat, result: Result)     // `deliver` returned
    | Recalling(row: nat, result: Result)    // the UPDATE missed a delivered row
    | Marking(row: nat, result: Result)      // `channel.cancel` was called
    | Returned

  /** How the emitter disposed of one channel of the decision. */
  datatype Fate = NoChannel | Sent(row: nat, won: bool)

  datatype Emitter = Emitter(channels: seq<string>, pc: EmitPc, fates: seq<Fate>,
                             dispatched: seq<string>, dropped: seq<string>)

  /** A row a cancel selected as delivered and has yet to handle. */
  datatype Pick = Pick(row: nat, channel: string, deliveryId: Option<string>)

  datatype CancelPc = Starting | Claimed | Flipping(todo: seq<Pick>) | Calling(now: Pick, todo: seq<Pick>) | Finished

  /** A `cancel_output` call; `seen` is the number of rows its claiming UPDATE
      ran over and `picks` are the rows its SELECT returned. */
  datatype Canceller = Canceller(pc: CancelPc, seen: nat, picks: set<nat>, cancelled: seq<string>)

  datatype State = State(rows: seq<Row>, past: seq<Past>, emitter: Emitter, cancels: seq<Canceller>)

  datatype Action =
    | EmitResolve(found: bool)
    | EmitDeliver(result: Result)
    | EmitSettle
    | EmitRecall
    | EmitMark
    | EmitReturn
    | CancelCall
    | CancelClaim(k: nat)
    | CancelSelect(k: nat)
    | CancelFlip(k: nat)
    | CancelRecall(k: nat, found: bool, ok: bool)
    | CancelFinish(k: nat)

  function Start(channels: seq<string>): State {
    State([], [], Emitter(channels, Next, [], [], []), [])
  }

  predicate Enabled(s: State, a: Action) {
    match a
    case EmitResolve(_) => s.emitter.pc.Next? && |s.emitter.fates| < |s.emitter.channels|
    case EmitDeliver(_) => s.emitter.pc.Delivering? && s.emitter.pc.row < |s.past|
    case EmitSettle => s.emitter.pc.Settling? && s.emitter.pc.row < |s.rows| == |s.past|
                       && |s.emitter.fates| < |s.emitter.channels|
    case EmitRecall => s.emitter.pc.Recalling? && s.emitter.pc.row < |s.past|
    case EmitMark => s.emitter.pc.Marking? && s.emitter.pc.row < |s.rows|
                     && |s.emitter.fates| < |s.emitter.channels|
    case EmitReturn => s.emitter.pc.Next? && |s.emitter.fates| == |s.emitter.channels|
    case CancelCall => true
    case CancelClaim(k) => k < |s.cancels| && s.cancels[k].pc.Starting? && |s.rows| == |s.past|
    case CancelSelect(k) => k < |s.cancels| && s.cancels[k].pc.Claimed?
    case CancelFlip(k) => k < |s.cancels| && s.cancels[k].pc.Flipping? && s.cancels[k].pc.todo != []
                          && s.cancels[k].pc.todo[0].row < |s.rows| == |s.past|
    case CancelRecall(k, _, _) => k < |s.cancels| && s.cancels[k].pc.Calling? && s.cancels[k].pc.now.row < |s.past|
    case CancelFinish(k) => k < |s.cancels| && s.cancels[k].pc.Flipping? && s.cancels[k].pc.todo == []
  }

  /** The loop moves on to the next channel. */
  function Dispose(e: Emitter, fate: Fate): Emitter
    requires |e.fates| < |e.channels|
  {
    var name := e.channels[|e.fates|];
    if fate.Sent? && fate.won then
      e.(pc := Next, fates := e.fates + [fate], dispatched := e.dispatched + [name])
    else
      e.(pc := Next, fates := e.fates + [fate], dropped := e.dropped + [name])
  }

  function Resolved(s: State, found: bool): State
    requires Enabled(s, EmitResolve(found))
  {
    if !found then s.(emitter := Dispose(s.emitter, NoChannel))
    else
      s.(rows := s.rows + [Row(s.emitter.channels[|s.emitter.fates|], InFlight, false, None)],
         past := s.past + [Past(|s.emitter.fates|, None, Unsettled, false, None, [])],
         emitter := s.emitter.(pc := Delivering(|s.rows|)))
  }

  function Answered(s: State, result: Result): State
    requires Enabled(s, EmitDeliver(result))
  {
    var r := s.emitter.pc.row;
    s.(past := s.past[r := s.past[r].(reported := Some(result))],
       emitter := s.emitter.(pc := Settling(r, result)))
  }

  /** UPDATE ... WHERE id = ? AND status = 'in_flight', and the branch on its row count. */
  function Settled(s: State): State
    requires Enabled(s, EmitSettle)
  {
    var r, result := s.emitter.pc.row, s.emitter.pc.result;
    if s.rows[r].status == InFlight then
      var target := if result.delivered then Delivered else Failed;
      s.(rows := s.rows[r := s.rows[r].(status := target, delivered := result.delivered, deliveryId := result.deliveryId)],
         past := s.past[r := s.past[r].(settlement := Wrote(target))],
         emitter := Dispose(s.emitter, Sent(r, result.delivered)))
    else
      s.(past := s.past[r := s.past[r].(settlement := Missed)],
         emitter := if result.delivered then s.emitter.(pc := Recalling(r, result))
                    else Dispose(s.emitter, Sent(r, false)))
  }

  function Recalled(s: State): State
    requires Enabled(s, EmitRecall)
  {
    var r, result := s.emitter.pc.row, s.emitter.pc.result;
    s.(past := s.past[r := s.past[r].(recalls := s.past[r].recalls + [result.deliveryId])],
       emitter := s.emitter.(pc := Marking(r, result)))
  }

  function Marked(s: State): State
    requires Enabled(s, EmitMark)
  {
    var r, result := s.emitter.pc.row, s.emitter.pc.result;
    s.(rows := s.rows[r := s.rows[r].(status := Cancelled, delivered := true, deliveryId := result.deliveryId)],
       emitter := Dispose(s.emitter, Sent(r, false)))
  }

  /** UPDATE ... SET status = 'cancel_pending' WHERE status = 'in_flight'. */
  function ClaimRows(rows: seq<Row>): (out: seq<Row>)
    ensures |out| == |rows|
    ensures forall i :: 0 <= i < |rows| ==>
      out[i] == if rows[i].status == InFlight then rows[i].(status := CancelPending) else rows[i]
  {
    seq(|rows|, i requires 0 <= i < |rows| =>
      if rows[i].status == InFlight then rows[i].(status := CancelPending) else rows[i])
  }

  /** What the claiming UPDATE means: afterwards no row is in flight; exactly the rows
      that were have changed, and only in their status; and claiming again changes
      nothing. */
  lemma ClaimIsExact(rows: seq<Row>)
    ensures var out := ClaimRows(rows);
      && (forall r <- out :: r.status != InFlight)
      && (forall i :: 0 <= i < |rows| ==> (out[i] != rows[i] <==> rows[i].status == InFlight))
      && (forall i :: 0 <= i < |rows| ==>
            out[i].channel == rows[i].channel && out[i].delivered == rows[i].delivered && out[i].deliveryId == rows[i].deliveryId)
      && ClaimRows(out) == out
  {
    var out := ClaimRows(rows);
    forall i | 0 <= i < |rows| ensures out[i] != rows[i] <==> rows[i].status == InFlight {
      assert out[i] != rows[i] ==> rows[i].status == InFlight;
      assert rows[i].status == InFlight ==> out[i].status == CancelPending;
    }
    assert forall i :: 0 <= i < |out| ==> out[i].status != InFlight;
  }

  function ClaimPast(rows: seq<Row>, past: seq<Past>): (out: seq<Past>)
    requires |rows| == |past|
    ensures |out| == |past|
    ensures forall i :: 0 <= i < |past| ==>
      out[i] == if rows[i].status == InFlight then past[i].(claimed := true) else past[i]
  {
    seq(|past|, i requires 0 <= i < |past| =>
      if rows[i].status == InFlight then past[i].(claimed := true) else past[i])
  }

  function ClaimedBy(s: State, k: nat): State
    requires Enabled(s, CancelClaim(k))
  {
    s.(rows := ClaimRows(s.rows), past := ClaimPast(s.rows, s.past),
       cancels := s.cancels[k := s.cancels[k].(pc := Claimed, seen := |s.rows|)])
  }

  /** SELECT id, channel, delivery_id ... WHERE status = 'delivered'. */
  function DeliveredRows(rows: seq<Row>): (picks: seq<Pick>)
    ensures forall p <- picks ::
      p.row < |rows| && rows[p.row].status == Delivered
      && p.channel == rows[p.row].channel && p.deliveryId == rows[p.row].deliveryId
    ensures forall r :: 0 <= r < |rows| && rows[r].status == Delivered ==> r in PickRows(picks)
  {
    if rows == [] then []
    else
      var n := |rows| - 1;
      var before := DeliveredRows(rows[..n]);
      if rows[n].status == Delivered then
        var last := Pick(n, rows[n].channel, rows[n].deliveryId);
        assert forall r :: r in PickRows(before) ==> r in PickRows(before + [last]);
        assert last in before + [last];
        before + [last]
      else before
  }

  function PickRows(picks: seq<Pick>): set<nat> {
    set p <- picks :: p.row
  }

  function Selected(s: State, k: nat): State
    requires Enabled(s, CancelSelect(k))
  {
    var todo := DeliveredRows(s.rows);
    s.(cancels := s.cancels[k := s.cancels[k].(pc := Flipping(todo), picks := PickRows(todo))])
  }

  /** UPDATE ... SET status = 'cancelled' WHERE id = ? AND status = 'delivered'. */
  function Flipped(s: State, k: nat): State
    requires Enabled(s, CancelFlip(k))
  {
    var c := s.cancels[k];
    var now, rest := c.pc.todo[0], c.pc.todo[1..];
    if s.rows[now.row].status == Delivered then
      s.(rows := s.rows[now.row := s.rows[now.row].(status := Cancelled)],
         past := s.past[now.row := s.past[now.row].(flippedBy := Some(k))],
         cancels := s.cancels[k := c.(pc := Calling(now, rest))])
    else
      s.(cancels := s.cancels[k := c.(pc := Flipping(rest))])
  }

  /** The channel is looked up and, if it still exists, told to recall the event. */
  function RecalledBy(s: State, k: nat, found: bool, ok: bool): State
    requires Enabled(s, CancelRecall(k, found, ok))
  {
    var c := s.cancels[k];
    var now, rest := c.pc.now, c.pc.todo;
    if !found then s.(cancels := s.cancels[k := c.(pc := Flipping(rest))])
    else
      s.(past := s.past[now.row := s.past[now.row].(recalls := s.past[now.row].recalls + [now.deliveryId])],
         cancels := s.cancels[k := c.(pc := Flipping(rest),
                                      cancelled := c.cancelled + (if ok then [now.channel] else []))])
  }

  function Step(s: State, a: Action): State {
    if !Enabled(s, a) then s
    else
      match a
      case EmitResolve(found) => Resolved(s, found)
      case EmitDeliver(result) => Answered(s, result)
      case EmitSettle => Settled(s)
      case EmitRecall => Recalled(s)
      case EmitMark => Marked(s)
      case EmitReturn => s.(emitter := s.emitter.(pc := Returned))
      case CancelCall => s.(cancels := s.cancels + [Canceller(Starting, 0, {}, [])])
      case CancelClaim(k) => ClaimedBy(s, k)
      case CancelSelect(k) => Selected(s, k)
      case CancelFlip(k) => Flipped(s, k)
      case CancelRecall(k, found, ok) => RecalledBy(s, k, found, ok)
      case CancelFinish(k) => s.(cancels := s.cancels[k := s.cancels[k].(pc := Finished)])
  }

  function Run(s: State, actions: seq<Action>): State {
    Runs.Run(Step, s, actions)
  }

  // ---------------------------------------------------------------------------
  // The invariant
  // ---------------------------------------------------------------------------

  function Holding(e: Emitter): Option<nat> {
    if e.pc.Next? || e.pc.Returned? then None else Some(e.pc.row)
  }

  function Todo(c: Canceller): seq<Pick> {
    if c.pc.Flipping? || c.pc.Calling? then c.pc.todo else []
  }

  /** A row the emitter is still working on. */
  ghost predicate HeldRow(e: Emitter, row: Row, p: Past)
    requires Holding(e).Some?
  {
    && p.position == |e.fates|
    && !row.delivered && row.deliveryId == None && p.flippedBy == None
    && row.status == (if p.claimed then CancelPending else InFlight)
    && p.recalls == (if e.pc.Marking? then [e.pc.result.deliveryId] else [])
    && p.reported == (if e.pc.Delivering? then None else Some(e.pc.result))
    && p.settlement == (if e.pc.Delivering? || e.pc.Settling? then Unsettled else Missed)
    && (e.pc.Recalling? || e.pc.Marking? ==> p.claimed && e.pc.result.delivered)
  }

  /** A row the emitter has finished with. */
  ghost predicate LeftRow(s: State, row: Row, p: Past) {
    && p.position < |s.emitter.fates|
    && p.reported.Some?
    && var id := p.reported.value.deliveryId;
    if !p.reported.value.delivered then
      && p.flippedBy == None && p.recalls == [] && !row.delivered
      && row.status == (if p.claimed then CancelPending else Failed)
      && p.settlement == (if p.claimed then Missed else Wrote(Failed))
    else
      && row.delivered && row.deliveryId == id
      && (p.recalls == [] || p.recalls == [id])
      && if p.claimed then
           && row.status == Cancelled && p.settlement == Missed && p.recalls == [id] && p.flippedBy == None
         else
           && p.settlement == Wrote(Delivered)
           && row.status == (if p.flippedBy.Some? then Cancelled else Delivered)
           && (p.flippedBy == None ==> p.recalls == [])
           && (p.flippedBy.Some? ==> p.flippedBy.value < |s.cancels|)
  }

  ghost predicate RowInv(s: State, r: nat)
    requires r < |s.rows| == |s.past|
  {
    && s.past[r].position < |s.emitter.channels|
    && s.rows[r].channel == s.emitter.channels[s.past[r].position]
    && if Holding(s.emitter) == Some(r) then HeldRow(s.emitter, s.rows[r], s.past[r])
       else LeftRow(s, s.rows[r], s.past[r])
  }

  /** What a fate records about the row it names. */
  ghost predicate FateInv(s: State, i: nat)
    requires i < |s.emitter.fates|
  {
    var fate := s.emitter.fates[i];
    fate.Sent? ==>
      && fate.row < |s.past|
      && s.past[fate.row].position == i
      && Holding(s.emitter) != Some(fate.row)
      && (fate.won <==> s.past[fate.row].settlement == Wrote(Delivered))
  }

  /** Every finished row is named by the fate of its position. */
  ghost predicate NamedInv(s: State, r: nat)
    requires r < |s.past|
  {
    var i := s.past[r].position;
    Holding(s.emitter) != Some(r) ==>
      i < |s.emitter.fates| && s.emitter.fates[i].Sent? && s.emitter.fates[i].row == r
  }

  function Won(fates: seq<Fate>): (mask: seq<bool>)
    ensures |mask| == |fates|
    ensures forall i :: 0 <= i < |fates| ==> mask[i] == (fates[i].Sent? && fates[i].won)
  {
    seq(|fates|, i requires 0 <= i < |fates| => fates[i].Sent? && fates[i].won)
  }

  function Lost(fates: seq<Fate>): (mask: seq<bool>)
    ensures |mask| == |fates|
    ensures forall i :: 0 <= i < |fates| ==> mask[i] == !(fates[i].Sent? && fates[i].won)
  {
    seq(|fates|, i requires 0 <= i < |fates| => !(fates[i].Sent? && fates[i].won))
  }

  ghost predicate EmitterInv(s: State) {
    var e := s.emitter;
    && |e.fates| <= |e.channels|
    && (Holding(e).Some? ==> |e.fates| < |e.channels| && Holding(e).value == |s.rows| - 1)
    && (e.pc.Returned? ==> |e.fates| == |e.channels|)
    && e.dispatched == Select(e.channels[..|e.fates|], Won(e.fates))
    && e.dropped == Select(e.channels[..|e.fates|], Lost(e.fates))
  }

  ghost predicate PickInv(s: State, p: Pick) {
    && p.row < |s.rows| == |s.past|
    && s.past[p.row].settlement == Wrote(Delivered)
    && p.channel == s.rows[p.row].channel
    && p.deliveryId == s.rows[p.row].deliveryId
  }

  /** What the claiming UPDATE of a cancel has achieved. */
  ghost predicate SeenInv(s: State, c: Canceller) {
    && c.seen <= |s.rows|
    && (c.pc.Starting? ==> c.seen == 0)
    && (forall r: nat :: r < c.seen ==> s.rows[r].status != InFlight)
    && (forall r: nat :: r < c.seen && s.rows[r].status == Delivered ==> c.pc.Claimed? || r in PickRows(Todo(c)))
  }

  /** What its SELECT returned and what is left of that. */
  ghost predicate PicksInv(s: State, c: Canceller)
    requires |s.rows| == |s.past|
  {
    && (c.pc.Starting? || c.pc.Claimed? ==> c.picks == {})
    && (forall r <- c.picks :: r < |s.rows| && s.past[r].settlement == Wrote(Delivered))
    && (forall r <- c.picks :: s.rows[r].status == Delivered ==> r in PickRows(Todo(c)))
    && (forall r <- PickRows(Todo(c)) :: r in c.picks)
  }

  /** The rows cancel `k` flipped, and the one it is about to recall. */
  ghost predicate FlipsInv(s: State, k: nat)
    requires k < |s.cancels|
  {
    var c := s.cancels[k];
    && (c.pc.Calling? ==>
          && PickInv(s, c.pc.now)
          && s.past[c.pc.now.row].flippedBy == Some(k)
          && s.past[c.pc.now.row].recalls == [])
    && (forall r: nat :: r < |s.past| && s.past[r].flippedBy == Some(k) ==> r in c.picks)
  }

  ghost predicate CancelInv(s: State, k: nat)
    requires k < |s.cancels| && |s.rows| == |s.past|
  {
    && SeenInv(s, s.cancels[k])
    && (forall p <- Todo(s.cancels[k]) :: PickInv(s, p))
    && PicksInv(s, s.cancels[k])
    && FlipsInv(s, k)
  }

  ghost predicate RowsInv(s: State)
    requires |s.rows| == |s.past|
  {
    forall r: nat :: r < |s.rows| ==> RowInv(s, r) && NamedInv(s, r)
  }

  ghost predicate Inv(s: State) {
    && |s.rows| == |s.past|
    && EmitterInv(s)
    && RowsInv(s)
    && (forall i: nat :: i < |s.emitter.fates| ==> FateInv(s, i))
    && (forall k: nat :: k < |s.cancels| ==> CancelInv(s, k))
  }

  lemma StartInv(channels: seq<string>)
    ensures Inv(Start(channels))
  {
  }

  lemma ResolveKeepsRows(s: State, found: bool, r: nat)
    requires Inv(s) && Enabled(s, EmitResolve(found)) && r < |Resolved(s, found).rows|
    ensures RowInv(Resolved(s, found), r) && NamedInv(Resolved(s, found), r)
  {
    if r < |s.rows| { assert RowInv(s, r) && NamedInv(s, r); }
  }

  lemma ResolveKeepsCancels(s: State, found: bool, k: nat)
    requires Inv(s) && Enabled(s, EmitResolve(found)) && k < |s.cancels|
    ensures CancelInv(Resolved(s, found), k)
  {
    assert CancelInv(s, k);
  }

  lemma ResolveKeepsInv(s: State, found: bool)
    requires Inv(s) && Enabled(s, EmitResolve(found))
    ensures Inv(Resolved(s, found))
  {
    var t := Resolved(s, found);
    if !found {
      DisposeKeepsLists(s.emitter, NoChannel);
    }
    forall r: nat | r < |t.rows| ensures RowInv(t, r) && NamedInv(t, r) {
      ResolveKeepsRows(s, found, r);
    }
    forall i: nat | i < |t.emitter.fates| ensures FateInv(t, i) {
      if i < |s.emitter.fates| { assert FateInv(s, i); }
    }
    forall k: nat | k < |t.cancels| ensures CancelInv(t, k) {
      ResolveKeepsCancels(s, found, k);
    }
  }

  /** The reply lists stay the split of the disposed channels. */
  lemma DisposeKeepsLists(e: Emitter, fate: Fate)
    requires |e.fates| < |e.channels|
    requires e.dispatched == Select(e.channels[..|e.fates|], Won(e.fates))
    requires e.dropped == Select(e.channels[..|e.fates|], Lost(e.fates))
    ensures var d := Dispose(e, fate);
      && d.dispatched == Select(d.channels[..|d.fates|], Won(d.fates))
      && d.dropped == Select(d.channels[..|d.fates|], Lost(d.fates))
  {
    var d, n := Dispose(e, fate), |e.fates|;
    assert d.channels[..n + 1][..n] == e.channels[..n];
    assert Won(d.fates)[..n] == Won(e.fates);
    assert Lost(d.fates)[..n] == Lost(e.fates);
  }

  lemma AnswerKeepsInv(s: State, result: Result)
    requires Inv(s) && Enabled(s, EmitDeliver(result))
    ensures Inv(Answered(s, result))
  {
    var t := Answered(s, result);
    forall r: nat | r < |t.rows| ensures RowInv(t, r) && NamedInv(t, r) {
      assert RowInv(s, r) && NamedInv(s, r);
    }
    forall i: nat | i < |t.emitter.fates| ensures FateInv(t, i) {
      assert FateInv(s, i);
    }
    forall k: nat | k < |t.cancels| ensures CancelInv(t, k) {
      assert CancelInv(s, k);
    }
  }

  /** The settling UPDATE touches no row a cancel still has to flip or recall. */
  lemma SettleKeepsCancels(s: State, k: nat)
    requires Inv(s) && Enabled(s, EmitSettle) && k < |s.cancels|
    ensures CancelInv(Settled(s), k)
  {
    assert RowInv(s, s.emitter.pc.row) && CancelInv(s, k);
  }

  lemma SettleKeepsRows(s: State, r: nat)
    requires Inv(s) && Enabled(s, EmitSettle) && r < |s.rows|
    ensures RowInv(Settled(s), r) && NamedInv(Settled(s), r)
  {
    assert RowInv(s, r) && NamedInv(s, r) && RowInv(s, s.emitter.pc.row);
  }

  lemma SettleKeepsFates(s: State, i: nat)
    requires Inv(s) && Enabled(s, EmitSettle) && i < |Settled(s).emitter.fates|
    ensures FateInv(Settled(s), i)
  {
    assert RowInv(s, s.emitter.pc.row);
    if i < |s.emitter.fates| { assert FateInv(s, i); }
  }

  lemma SettleKeepsEmitter(s: State)
    requires EmitterInv(s) && Enabled(s, EmitSettle)
    ensures EmitterInv(Settled(s))
  {
    DisposeKeepsLists(s.emitter, Sent(s.emitter.pc.row, false));
    DisposeKeepsLists(s.emitter, Sent(s.emitter.pc.row, true));
  }

  lemma SettleKeepsInv(s: State)
    requires Inv(s) && Enabled(s, EmitSettle)
    ensures Inv(Settled(s))
  {
    var t := Settled(s);
    SettleKeepsEmitter(s);
    assert RowsInv(t) by {
      forall r: nat | r < |t.rows| ensures RowInv(t, r) && NamedInv(t, r) {
        SettleKeepsRows(s, r);
      }
    }
    forall i: nat | i < |t.emitter.fates| ensures FateInv(t, i) {
      SettleKeepsFates(s, i);
    }
    forall k: nat | k < |t.cancels| ensures CancelInv(t, k) {
      SettleKeepsCancels(s, k);
    }
  }

  lemma RecallKeepsInv(s: State)
    requires Inv(s) && Enabled(s, EmitRecall)
    ensures Inv(Recalled(s))
  {
    var t := Recalled(s);
    assert RowInv(s, s.emitter.pc.row);
    forall r: nat | r < |t.rows| ensures RowInv(t, r) && NamedInv(t, r) {
      assert RowInv(s, r) && NamedInv(s, r);
    }
    forall i: nat | i < |t.emitter.fates| ensures FateInv(t, i) {
      assert FateInv(s, i);
    }
    forall k: nat | k < |t.cancels| ensures CancelInv(t, k) {
      assert CancelInv(s, k);
    }
  }

  lemma MarkKeepsCancels(s: State, k: nat)
    requires Inv(s) && Enabled(s, EmitMark) && k < |s.cancels|
    ensures CancelInv(Marked(s), k)
  {
    assert RowInv(s, s.emitter.pc.row) && CancelInv(s, k);
  }

  lemma MarkKeepsInv(s: State)
    requires Inv(s) && Enabled(s, EmitMark)
    ensures Inv(Marked(s))
  {
    var t, held := Marked(s), s.emitter.pc.row;
    assert RowInv(s, held);
    DisposeKeepsLists(s.emitter, Sent(held, false));
    forall r: nat | r < |t.rows| ensures RowInv(t, r) && NamedInv(t, r) {
      assert RowInv(s, r) && NamedInv(s, r);
    }
    forall i: nat | i < |t.emitter.fates| ensures FateInv(t, i) {
      if i < |s.emitter.fates| { assert FateInv(s, i); }
    }
    forall k: nat | k < |t.cancels| ensures CancelInv(t, k) {
      MarkKeepsCancels(s, k);
    }
  }

  lemma ClaimKeepsCancels(s: State, k: nat, j: nat)
    requires Inv(s) && Enabled(s, CancelClaim(k)) && j < |s.cancels|
    ensures CancelInv(ClaimedBy(s, k), j)
  {
    assert CancelInv(s, j);
  }

  lemma ClaimKeepsInv(s: State, k: nat)
    requires Inv(s) && Enabled(s, CancelClaim(k))
    ensures Inv(ClaimedBy(s, k))
  {
    var t := ClaimedBy(s, k);
    forall r: nat | r < |t.rows| ensures RowInv(t, r) && NamedInv(t, r) {
      assert RowInv(s, r) && NamedInv(s, r);
    }
    forall i: nat | i < |t.emitter.fates| ensures FateInv(t, i) {
      assert FateInv(s, i);
    }
    forall j: nat | j < |t.cancels| ensures CancelInv(t, j) {
      ClaimKeepsCancels(s, k, j);
    }
  }

  lemma SelectKeepsInv(s: State, k: nat)
    requires Inv(s) && Enabled(s, CancelSelect(k))
    ensures Inv(Selected(s, k))
  {
    var t := Selected(s, k);
    forall r: nat | r < |t.rows| ensures RowInv(t, r) && NamedInv(t, r) {
      assert RowInv(s, r) && NamedInv(s, r);
    }
    forall i: nat | i < |t.emitter.fates| ensures FateInv(t, i) {
      assert FateInv(s, i);
    }
    forall j: nat | j < |t.cancels| ensures CancelInv(t, j) {
      assert CancelInv(s, j);
      if j == k {
        forall p <- DeliveredRows(s.rows) ensures PickInv(t, p) {
          assert RowInv(s, p.row);
        }
        assert Todo(t.cancels[k]) == DeliveredRows(s.rows);
        forall r <- PickRows(DeliveredRows(s.rows)) ensures r < |s.rows| && s.past[r].settlement == Wrote(Delivered) {
          var p :| p in DeliveredRows(s.rows) && p.row == r;
          assert PickInv(t, p);
        }
      }
    }
  }

  lemma HeadAndRest(picks: seq<Pick>)
    requires picks != []
    ensures PickRows(picks) == {picks[0].row} + PickRows(picks[1..])
  {
    assert picks == [picks[0]] + picks[1..];
  }

  /** After the flip its row is not delivered, whoever flipped it. */
  lemma FlippedRow(s: State, k: nat)
    requires Inv(s) && Enabled(s, CancelFlip(k))
    ensures var t, c := Flipped(s, k), s.cancels[k];
      && t.rows[c.pc.todo[0].row].status !in {InFlight, Delivered}
      && Todo(t.cancels[k]) == c.pc.todo[1..]
      && PickRows(c.pc.todo) == {c.pc.todo[0].row} + PickRows(c.pc.todo[1..])
  {
    var c := s.cancels[k];
    HeadAndRest(c.pc.todo);
    assert CancelInv(s, k) && c.pc.todo[0] in Todo(c) && PickInv(s, c.pc.todo[0]) && RowInv(s, c.pc.todo[0].row);
  }

  lemma FlipKeepsOwnSeen(s: State, k: nat)
    requires Inv(s) && Enabled(s, CancelFlip(k))
    ensures SeenInv(Flipped(s, k), Flipped(s, k).cancels[k])
  {
    FlippedRow(s, k);
    assert CancelInv(s, k);
  }

  lemma FlipKeepsOwnTodo(s: State, k: nat)
    requires Inv(s) && Enabled(s, CancelFlip(k))
    ensures forall p <- Todo(Flipped(s, k).cancels[k]) :: PickInv(Flipped(s, k), p)
  {
    FlippedRow(s, k);
    assert CancelInv(s, k);
    forall p <- Todo(Flipped(s, k).cancels[k]) ensures PickInv(Flipped(s, k), p) {
      assert p in Todo(s.cancels[k]) && PickInv(s, p);
    }
  }

  lemma FlipKeepsOwnPicks(s: State, k: nat)
    requires Inv(s) && Enabled(s, CancelFlip(k))
    ensures PicksInv(Flipped(s, k), Flipped(s, k).cancels[k])
  {
    FlippedRow(s, k);
    assert CancelInv(s, k);
  }

  lemma FlipKeepsOwnFlips(s: State, k: nat)
    requires Inv(s) && Enabled(s, CancelFlip(k))
    ensures FlipsInv(Flipped(s, k), k)
  {
    FlippedRow(s, k);
    var now := s.cancels[k].pc.todo[0];
    assert CancelInv(s, k) && now in Todo(s.cancels[k]) && PickInv(s, now) && RowInv(s, now.row);
  }

  lemma FlipKeepsOwn(s: State, k: nat)
    requires Inv(s) && Enabled(s, CancelFlip(k))
    ensures CancelInv(Flipped(s, k), k)
  {
    FlipKeepsOwnSeen(s, k);
    FlipKeepsOwnTodo(s, k);
    FlipKeepsOwnPicks(s, k);
    FlipKeepsOwnFlips(s, k);
  }

  lemma FlipKeepsOther(s: State, k: nat, j: nat)
    requires Inv(s) && Enabled(s, CancelFlip(k)) && j < |s.cancels| && j != k
    ensures CancelInv(Flipped(s, k), j)
  {
    var t, now := Flipped(s, k), s.cancels[k].pc.todo[0];
    assert CancelInv(s, j) && CancelInv(s, k);
    assert now in Todo(s.cancels[k]) && PickInv(s, now) && RowInv(s, now.row);
    forall p <- Todo(s.cancels[j]) ensures PickInv(t, p) {
      assert PickInv(s, p);
    }
  }

  lemma FlipKeepsInv(s: State, k: nat)
    requires Inv(s) && Enabled(s, CancelFlip(k))
    ensures Inv(Flipped(s, k))
  {
    var t, now := Flipped(s, k), s.cancels[k].pc.todo[0];
    assert CancelInv(s, k) && now in Todo(s.cancels[k]) && PickInv(s, now);
    assert RowInv(s, now.row);
    forall r: nat | r < |t.rows| ensures RowInv(t, r) && NamedInv(t, r) {
      assert RowInv(s, r) && NamedInv(s, r);
    }
    forall i: nat | i < |t.emitter.fates| ensures FateInv(t, i) {
      assert FateInv(s, i);
    }
    forall j: nat | j < |t.cancels| ensures CancelInv(t, j) {
      if j == k { FlipKeepsOwn(s, k); } else { FlipKeepsOther(s, k, j); }
    }
  }

  lemma RecallByKeepsCancels(s: State, k: nat, found: bool, ok: bool, j: nat)
    requires Inv(s) && Enabled(s, CancelRecall(k, found, ok)) && j < |s.cancels|
    ensures CancelInv(RecalledBy(s, k, found, ok), j)
  {
    var t, c := RecalledBy(s, k, found, ok), s.cancels[j];
    assert CancelInv(s, k) && RowInv(s, s.cancels[k].pc.now.row) && CancelInv(s, j);
    assert Todo(t.cancels[j]) == Todo(c);
    forall p <- Todo(c) ensures PickInv(t, p) {
      assert PickInv(s, p);
    }
  }

  lemma RecallByKeepsInv(s: State, k: nat, found: bool, ok: bool)
    requires Inv(s) && Enabled(s, CancelRecall(k, found, ok))
    ensures Inv(RecalledBy(s, k, found, ok))
  {
    var t, now := RecalledBy(s, k, found, ok), s.cancels[k].pc.now;
    assert CancelInv(s, k) && RowInv(s, now.row);
    forall r: nat | r < |t.rows| ensures RowInv(t, r) && NamedInv(t, r) {
      assert RowInv(s, r) && NamedInv(s, r);
    }
    forall i: nat | i < |t.emitter.fates| ensures FateInv(t, i) {
      assert FateInv(s, i);
    }
    forall j: nat | j < |t.cancels| ensures CancelInv(t, j) {
      RecallByKeepsCancels(s, k, found, ok, j);
    }
  }

  lemma OtherStepsKeepInv(s: State, a: Action)
    requires Inv(s) && Enabled(s, a)
    requires a.EmitReturn? || a.CancelCall? || a.CancelFinish?
    ensures Inv(Step(s, a))
  {
    var t := Step(s, a);
    forall r: nat | r < |t.rows| ensures RowInv(t, r) && NamedInv(t, r) {
      assert RowInv(s, r) && NamedInv(s, r);
    }
    forall i: nat | i < |t.emitter.fates| ensures FateInv(t, i) {
      assert FateInv(s, i);
    }
    forall j: nat | j < |t.cancels| ensures CancelInv(t, j) {
      if j < |s.cancels| {
        assert CancelInv(s, j);
      } else {
        forall r: nat | r < |s.rows| ensures s.past[r].flippedBy != Some(j) {
          assert RowInv(s, r);
        }
      }
    }
  }

  lemma StepKeepsInv(s: State, a: Action)
    requires Inv(s)
    ensures Inv(Step(s, a))
  {
    if Enabled(s, a) {
      match a
      case EmitResolve(found) => ResolveKeepsInv(s, found);
      case EmitDeliver(result) => AnswerKeepsInv(s, result);
      case EmitSettle => SettleKeepsInv(s);
      case EmitRecall => RecallKeepsInv(s);
      case EmitMark => MarkKeepsInv(s);
      case CancelClaim(k) => ClaimKeepsInv(s, k);
      case CancelSelect(k) => SelectKeepsInv(s, k);
      case CancelFlip(k) => FlipKeepsInv(s, k);
      case CancelRecall(k, found, ok) => RecallByKeepsInv(s, k, found, ok);
      case _ => OtherStepsKeepInv(s, a);
    }
  }

  lemma {:induction false} RunKeepsInv(s: State, actions: seq<Action>)
    requires Inv(s)
    ensures Inv(Run(s, actions))
  {
    if actions != [] {
      var before := actions[..|actions| - 1];
      RunKeepsInv(s, before);
      StepKeepsInv(Run(s, before), actions[|actions| - 1]);
    }
  }

  lemma {:induction false} ChannelsStay(s: State, actions: seq<Action>)
    ensures Run(s, actions).emitter.channels == s.emitter.channels
  {
    if actions != [] {
      ChannelsStay(s, actions[..|actions| - 1]);
    }
  }
}
