/** What the delivery state machine guarantees, over every run of one emitter with any
    number of cancels, and what it does not. */
module DeliveryResults {
  import opened Common
  import opened Delivery
  import Runs

  /** Whatever the interleaving, a channel is told to recall a row at most once,
      only after its `deliver` reported success, and with the id it reported. */
  lemma RecalledAtMostOnce(channels: seq<string>, actions: seq<Action>, r: nat)
    requires r < |Run(Start(channels), actions).past|
    ensures var p := Run(Start(channels), actions).past[r];
      p.recalls == [] || (p.reported.Some? && p.reported.value.delivered && p.recalls == [p.reported.value.deliveryId])
  {
    var s := Run(Start(channels), actions);
    RunKeepsInv(Start(channels), actions);
    assert RowInv(s, r);
  }

  /** Some cancel has told the channel of row `r` to recall the event: it came to the
      row, found its channel, and called it. */
  predicate CancelCalled(channels: seq<string>, actions: seq<Action>, r: nat) {
    actions != [] &&
      var before, last := actions[..|actions| - 1], actions[|actions| - 1];
      var s := Run(Start(channels), before);
      || CancelCalled(channels, before, r)
      || (last.CancelRecall? && last.found && Enabled(s, last) && s.cancels[last.k].pc.now.row == r)
  }

  /** What `called` says of row `r` fits its recalls. */
  ghost predicate CallsFit(s: State, r: nat, called: bool) {
    if r < |s.rows| == |s.past| && s.past[r].flippedBy.Some? then
      s.past[r].recalls == if called then [s.rows[r].deliveryId] else []
    else !called
  }

  lemma CallsFitRecall(s: State, k: nat, found: bool, ok: bool, r: nat, called: bool)
    requires Inv(s) && CallsFit(s, r, called) && Enabled(s, CancelRecall(k, found, ok))
    ensures CallsFit(RecalledBy(s, k, found, ok), r, called || (found && s.cancels[k].pc.now.row == r))
  {
    assert CancelInv(s, k) && RowInv(s, s.cancels[k].pc.now.row);
  }

  lemma CallsFitFlip(s: State, k: nat, r: nat, called: bool)
    requires Inv(s) && CallsFit(s, r, called) && Enabled(s, CancelFlip(k))
    ensures CallsFit(Flipped(s, k), r, called)
  {
    assert CancelInv(s, k) && s.cancels[k].pc.todo[0] in Todo(s.cancels[k]) && RowInv(s, s.cancels[k].pc.todo[0].row);
  }

  lemma CallsFitOther(s: State, a: Action, r: nat, called: bool)
    requires Inv(s) && CallsFit(s, r, called) && Enabled(s, a) && !a.CancelRecall? && !a.CancelFlip?
    ensures CallsFit(Step(s, a), r, called)
  {
    if r < |s.rows| {
      assert RowInv(s, r);
    }
  }

  lemma CallsFitStep(s: State, a: Action, r: nat, called: bool)
    requires Inv(s) && CallsFit(s, r, called)
    ensures CallsFit(Step(s, a), r,
      called || (a.CancelRecall? && a.found && Enabled(s, a) && s.cancels[a.k].pc.now.row == r))
  {
    if Enabled(s, a) {
      if a.CancelRecall? {
        CallsFitRecall(s, a.k, a.found, a.ok, r, called);
      } else if a.CancelFlip? {
        CallsFitFlip(s, a.k, r, called);
      } else {
        CallsFitOther(s, a, r, called);
      }
    }
  }

  lemma {:induction false} CallsFitRun(channels: seq<string>, actions: seq<Action>, r: nat)
    ensures CallsFit(Run(Start(channels), actions), r, CancelCalled(channels, actions, r))
  {
    if actions != [] {
      var before, last := actions[..|actions| - 1], actions[|actions| - 1];
      CallsFitRun(channels, before, r);
      RunKeepsInv(Start(channels), before);
      CallsFitStep(Run(Start(channels), before), last, r, CancelCalled(channels, before, r));
    }
  }

  /** A row that a cancel moved from delivered to cancelled has been recalled, with the
      id its channel reported, exactly if that cancel has called the channel. */
  lemma {:induction false} FlippedIsRecalledIff(channels: seq<string>, actions: seq<Action>, r: nat)
    requires r < |Run(Start(channels), actions).past| && Run(Start(channels), actions).past[r].flippedBy.Some?
    ensures var s := Run(Start(channels), actions);
      && r < |s.rows| && s.past[r].reported.Some?
      && s.rows[r].deliveryId == s.past[r].reported.value.deliveryId
      && s.past[r].recalls == if CancelCalled(channels, actions, r) then [s.rows[r].deliveryId] else []
  {
    RunKeepsInv(Start(channels), actions);
    assert RowInv(Run(Start(channels), actions), r);
    CallsFitRun(channels, actions, r);
  }

  /** The channel that confirms a recall to cancel `k` in this step, if any. */
  function ConfirmedIn(s: State, a: Action, k: nat): seq<string> {
    if a == CancelRecall(k, true, true) && Enabled(s, a) && s.cancels[k].pc.now.row < |s.rows|
    then [s.rows[s.cancels[k].pc.now.row].channel] else []
  }

  /** The channels that confirmed one, in order. */
  function Confirmed(channels: seq<string>, actions: seq<Action>, k: nat): seq<string> {
    if actions == [] then []
    else
      var before, last := actions[..|actions| - 1], actions[|actions| - 1];
      Confirmed(channels, before, k) + ConfirmedIn(Run(Start(channels), before), last, k)
  }

  ghost predicate ReplyFits(s: State, k: nat, said: seq<string>) {
    if k < |s.cancels| then s.cancels[k].cancelled == said else said == []
  }

  lemma ReplyStep(s: State, a: Action, k: nat, said: seq<string>)
    requires Inv(s) && ReplyFits(s, k, said)
    ensures ReplyFits(Step(s, a), k, said + ConfirmedIn(s, a, k))
  {
    assert said + [] == said;
    if k < |s.cancels| {
      assert CancelInv(s, k);
    }
  }

  /** The reply of a cancel names the channels that were found and confirmed the recall,
      in the order of the calls, and no others. */
  lemma {:induction false} CancelReplyIsExact(channels: seq<string>, actions: seq<Action>, k: nat)
    ensures ReplyFits(Run(Start(channels), actions), k, Confirmed(channels, actions, k))
  {
    if actions != [] {
      var before, last := actions[..|actions| - 1], actions[|actions| - 1];
      CancelReplyIsExact(channels, before, k);
      RunKeepsInv(Start(channels), before);
      ReplyStep(Run(Start(channels), before), last, k, Confirmed(channels, before, k));
    }
  }

  /** The edges of the delivery state machine. */
  predicate Edge(a: Status, b: Status) {
    || a == b
    || (a == InFlight && b in {Delivered, Failed, CancelPending})
    || (b == Cancelled && a in {Delivered, CancelPending})
  }

  /** No step moves a row along anything but an edge, and no row disappears. */
  lemma StatusFollowsEdges(s: State, a: Action, r: nat)
    requires Inv(s) && r < |s.rows|
    ensures r < |Step(s, a).rows| && Edge(s.rows[r].status, Step(s, a).rows[r].status)
    ensures Step(s, a).rows[r].channel == s.rows[r].channel
  {
    assert RowInv(s, r);
  }

  lemma CancelMemory(s: State, a: Action, k: nat)
    requires k < |s.cancels| && !s.cancels[k].pc.Starting?
    ensures var t := Step(s, a);
      && k < |t.cancels| && !t.cancels[k].pc.Starting? && t.cancels[k].seen == s.cancels[k].seen
      && (s.cancels[k].pc.Finished? ==> t.cancels[k] == s.cancels[k])
  {
  }

  lemma {:induction false} CancelMemoryOverRun(s: State, actions: seq<Action>, k: nat)
    requires k < |s.cancels| && !s.cancels[k].pc.Starting?
    ensures var t := Run(s, actions);
      && k < |t.cancels| && !t.cancels[k].pc.Starting? && t.cancels[k].seen == s.cancels[k].seen
      && (s.cancels[k].pc.Finished? ==> t.cancels[k] == s.cancels[k])
  {
    if actions != [] {
      var before := actions[..|actions| - 1];
      CancelMemoryOverRun(s, before, k);
      CancelMemory(Run(s, before), actions[|actions| - 1], k);
    }
  }

  /** Cancel is final. Take any run up to the claiming UPDATE of a cancel, any run
      on to the point where that `cancel_output` has returned, and any run after
      that: no row that existed at the claim is in flight or delivered, and once
      its emitter has left it, it is cancelled, or failed, or was claimed while
      its channel then reported that nothing was delivered. */
  lemma CancelIsFinal(channels: seq<string>, before: seq<Action>, k: nat, during: seq<Action>, after: seq<Action>, r: nat)
    requires Enabled(Run(Start(channels), before), CancelClaim(k))
    requires r < |Run(Start(channels), before).rows|
    requires var claimed := Step(Run(Start(channels), before), CancelClaim(k));
      k < |Run(claimed, during).cancels| && Run(claimed, during).cancels[k].pc.Finished?
    ensures var claimed := Step(Run(Start(channels), before), CancelClaim(k));
      var s := Run(Run(claimed, during), after);
      && r < |s.rows| == |s.past|
      && s.rows[r].status !in {InFlight, Delivered}
      && (Holding(s.emitter) != Some(r) ==>
            || s.rows[r].status in {Cancelled, Failed}
            || (s.rows[r].status == CancelPending && s.past[r].reported.Some? && !s.past[r].reported.value.delivered))
  {
    var s0 := Run(Start(channels), before);
    var s1 := Step(s0, CancelClaim(k));
    var s2 := Run(s1, during);
    var s3 := Run(s2, after);
    RunKeepsInv(Start(channels), before);
    StepKeepsInv(s0, CancelClaim(k));
    RunKeepsInv(s1, during);
    RunKeepsInv(s2, after);
    CancelMemoryOverRun(s1, during, k);
    CancelMemoryOverRun(s2, after, k);
    assert CancelInv(s3, k) && s3.cancels[k].seen == |s0.rows|;
    assert RowInv(s3, r);
  }

  ghost predicate Quiescent(s: State) {
    s.emitter.pc.Returned? && forall c <- s.cancels :: c.pc.Finished?
  }

  ghost predicate Picked(s: State, r: nat) {
    exists c :: c in s.cancels && r in c.picks
  }

  /** Once every coroutine has returned, the status of a row is decided by three
      facts: what the channel reported, whether a claim found the row in flight,
      and whether a cancel selected it as delivered. A recalled event was recalled
      by the emitter exactly when the row had been claimed. */
  lemma FinalStatus(channels: seq<string>, actions: seq<Action>, r: nat)
    requires Quiescent(Run(Start(channels), actions))
    requires r < |Run(Start(channels), actions).rows|
    ensures var s := Run(Start(channels), actions);
      && |s.past| == |s.rows| && s.past[r].reported.Some?
      && var ok, claimed, status := s.past[r].reported.value.delivered, s.past[r].claimed, s.rows[r].status;
      && (status == Delivered <==> ok && !claimed && !Picked(s, r))
      && (status == Cancelled <==> ok && (claimed || Picked(s, r)))
      && (status == Failed <==> !ok && !claimed)
      && (status == CancelPending <==> !ok && claimed)
      && !(claimed && Picked(s, r))
      && (ok && claimed ==> |s.past[r].recalls| == 1)
  {
    var s := Run(Start(channels), actions);
    RunKeepsInv(Start(channels), actions);
    assert RowInv(s, r);
    if Picked(s, r) {
      var c :| c in s.cancels && r in c.picks;
      var k :| 0 <= k < |s.cancels| && s.cancels[k] == c;
      assert CancelInv(s, k);
    }
    if s.past[r].flippedBy.Some? {
      var k := s.past[r].flippedBy.value;
      assert CancelInv(s, k) && s.cancels[k] in s.cancels;
    }
  }

  predicate AllReturned(s: State) {
    forall k :: 0 <= k < |s.cancels| ==> s.cancels[k].pc.Finished?
  }

  lemma NoCancelNoChange(s: State, a: Action, r: nat)
    requires Inv(s) && AllReturned(s) && !a.CancelCall?
    requires r < |s.rows| && Holding(s.emitter) != Some(r)
    ensures var t := Step(s, a);
      r < |t.rows| && t.rows[r] == s.rows[r] && Holding(t.emitter) != Some(r) && t.cancels == s.cancels
  {
  }

  /** With no cancel under way or to come, a row the emitter has left stays as it is. */
  lemma {:induction false} NoCancelNoChangeOverRun(s: State, more: seq<Action>, r: nat)
    requires Inv(s) && AllReturned(s) && forall a <- more :: !a.CancelCall?
    requires r < |s.rows| && Holding(s.emitter) != Some(r)
    ensures var t := Run(s, more);
      r < |t.rows| && t.rows[r] == s.rows[r] && Holding(t.emitter) != Some(r) && t.cancels == s.cancels
  {
    if more != [] {
      var before, last := more[..|more| - 1], more[|more| - 1];
      assert last in more && forall a <- before :: a in more;
      NoCancelNoChangeOverRun(s, before, r);
      RunKeepsInv(s, before);
      NoCancelNoChange(Run(s, before), last, r);
    }
  }

  /** "After `cancel_output` returns, no channel shows the output" is false: from any
      state in which every cancel has returned and the emitter still has a channel to
      do, that channel is delivered, and it stays delivered in every continuation in
      which nobody cancels the output again. `FinalStatus` says exactly which rows
      escape. */
  lemma LaterChannelEscapesCancel(s: State, shown: Result, more: seq<Action>)
    requires Inv(s) && AllReturned(s) && Enabled(s, EmitResolve(true)) && shown.delivered
    requires forall a <- more :: !a.CancelCall?
    ensures var t := Run(Step(Step(Step(s, EmitResolve(true)), EmitDeliver(shown)), EmitSettle), more);
      && t.cancels == s.cancels && |s.rows| < |t.rows|
      && t.rows[|s.rows|] == Row(s.emitter.channels[|s.emitter.fates|], Delivered, true, shown.deliveryId)
  {
    var resolved := Step(s, EmitResolve(true));
    var answered := Step(resolved, EmitDeliver(shown));
    StepKeepsInv(s, EmitResolve(true));
    StepKeepsInv(resolved, EmitDeliver(shown));
    StepKeepsInv(answered, EmitSettle);
    NoCancelNoChangeOverRun(Step(answered, EmitSettle), more, |s.rows|);
  }

  /** Such a state: one cancel has come and gone before the only row is inserted. */
  lemma CancelBeforeFirstRow(phone: string)
    ensures var s := Run(Start([phone]), [CancelCall, CancelClaim(0), CancelSelect(0), CancelFinish(0)]);
      && Inv(s) && AllReturned(s) && |s.cancels| == 1 && Enabled(s, EmitResolve(true))
  {
    CancelOfNothing(phone);
    StartInv([phone]);
    RunKeepsInv(Start([phone]), [CancelCall, CancelClaim(0), CancelSelect(0), CancelFinish(0)]);
  }

  lemma CancelOfNothing(phone: string)
    ensures Run(Start([phone]), [CancelCall, CancelClaim(0), CancelSelect(0), CancelFinish(0)])
         == Start([phone]).(cancels := [Canceller(Finished, 0, {}, [])])
  {
    var start := Start([phone]);
    Runs.RunFour(Step, start, CancelCall, CancelClaim(0), CancelSelect(0), CancelFinish(0));
    assert Step(start, CancelCall) == start.(cancels := [Canceller(Starting, 0, {}, [])]);
    ClaimOfNothing(start.(cancels := [Canceller(Starting, 0, {}, [])]));
  }

  lemma ClaimOfNothing(s: State)
    requires s.rows == [] && s.past == [] && s.cancels == [Canceller(Starting, 0, {}, [])]
    ensures Step(Step(Step(s, CancelClaim(0)), CancelSelect(0)), CancelFinish(0))
         == s.(cancels := [Canceller(Finished, 0, {}, [])])
  {
    assert ClaimRows([]) == [] && ClaimPast([], []) == [];
    assert DeliveredRows([]) == [] && PickRows([]) == {};
    var claimed := Step(s, CancelClaim(0));
    assert claimed == s.(cancels := [Canceller(Claimed, 0, {}, [])]);
    assert Step(claimed, CancelSelect(0)) == s.(cancels := [Canceller(Flipping([]), 0, {}, [])]);
  }

  /** Conservation of the reply. When `emit_output` returns, every position of the
      decision is answered exactly once, in order, by `dispatched` or by `dropped`;
      each resolved channel has exactly one row; and the positions in `dispatched`
      are exactly those whose row its UPDATE moved from in flight to delivered. */
  lemma {:induction false} ReplyIsConserved(channels: seq<string>, actions: seq<Action>)
    requires Run(Start(channels), actions).emitter.pc.Returned?
    ensures var s := Run(Start(channels), actions);
      var fates := s.emitter.fates;
      && |fates| == |channels| && |s.rows| == |s.past|
      && s.emitter.dispatched == Select(channels, Won(fates))
      && s.emitter.dropped == Select(channels, Lost(fates))
      && |s.emitter.dispatched| + |s.emitter.dropped| == |channels|
      && (forall i: nat :: i < |fates| && fates[i].Sent? ==>
            && fates[i].row < |s.rows|
            && s.past[fates[i].row].position == i
            && s.rows[fates[i].row].channel == channels[i]
            && (fates[i].won <==> s.past[fates[i].row].settlement == Wrote(Delivered)))
      && (forall r: nat :: r < |s.rows| ==>
            s.past[r].position < |fates| && fates[s.past[r].position].Sent? && fates[s.past[r].position].row == r)
  {
    var s := Run(Start(channels), actions);
    RunKeepsInv(Start(channels), actions);
    ChannelsStay(Start(channels), actions);
    var fates := s.emitter.fates;
    assert channels[..|fates|] == channels;
    SplitSize(channels, Won(fates), Lost(fates));
    forall i: nat | i < |fates| && fates[i].Sent?
      ensures && fates[i].row < |s.rows|
              && s.past[fates[i].row].position == i
              && s.rows[fates[i].row].channel == channels[i]
              && (fates[i].won <==> s.past[fates[i].row].settlement == Wrote(Delivered))
    {
      assert FateInv(s, i) && RowInv(s, fates[i].row);
    }
    forall r: nat | r < |s.rows|
      ensures s.past[r].position < |fates| && fates[s.past[r].position].Sent? && fates[s.past[r].position].row == r
    {
      assert NamedInv(s, r);
    }
  }

  lemma {:induction false} SplitSize<T>(xs: seq<T>, yes: seq<bool>, no: seq<bool>)
    requires |xs| == |yes| == |no|
    requires forall i :: 0 <= i < |yes| ==> no[i] == !yes[i]
    ensures |Select(xs, yes)| + |Select(xs, no)| == |xs|
  {
    if xs != [] {
      var n := |xs| - 1;
      SplitSize(xs[..n], yes[..n], no[..n]);
    }
  }
}
