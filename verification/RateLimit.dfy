/** The sliding-window rate limit of one channel (`_rate_limited` in
    outputs/router.py) over the deliveries that outputs/api.py records.

    Routing asks whether the channel is limited; the delivery is recorded later, at
    the time its row is settled. In between, other emits may ask as well. */
module RateLimit {
  import opened Common
  import Runs

  const SECOND: int := 1_000_000
  const MINUTE_WINDOW: int := 60 * SECOND
  const HOUR_WINDOW: int := 3600 * SECOND

  /** A manifest's limits; zero stands for no limit. */
  datatype Limits = Limits(perMinute: int, perHour: int)

  /** A settled delivery row. */
  datatype Row = Row(at: int, delivered: bool, cancelled: bool)

  /** One dispatch to the channel, from the moment routing let it through.
      `checked` is false when the empty-list fallback chose the channel, which asks
      nobody. */
  datatype Dispatch = Dispatch(since: int, checked: bool, row: Option<Row>)

  datatype Action =
    | Check(now: int)
    | Bypass(now: int)
    | Settle(k: nat, at: int, delivered: bool, cancelled: bool)
    | Cancel(k: nat)

  predicate Counts(d: Dispatch, cutoff: int) {
    d.row.Some? && d.row.value.delivered && !d.row.value.cancelled && d.row.value.at > cutoff
  }

  /** SELECT COUNT(*) ... delivered = 1 AND status != 'cancelled' AND delivered_at > ?. */
  function Recent(ds: seq<Dispatch>, cutoff: int): nat {
    if ds == [] then 0
    else Recent(ds[..|ds| - 1], cutoff) + (if Counts(ds[|ds| - 1], cutoff) then 1 else 0)
  }

  /** `_rate_limited`. */
  predicate Limited(limits: Limits, ds: seq<Dispatch>, now: int) {
    || (limits.perMinute != 0 && Recent(ds, now - MINUTE_WINDOW) >= limits.perMinute)
    || (limits.perHour != 0 && Recent(ds, now - HOUR_WINDOW) >= limits.perHour)
  }

  /** The deliveries that the user has seen since `from` and that nobody has taken back. */
  function Shown(ds: seq<Dispatch>, from: int): set<nat> {
    set i: nat | i < |ds| && ds[i].row.Some? && ds[i].row.value.delivered && !ds[i].row.value.cancelled && ds[i].row.value.at > from
  }

  lemma {:induction false} RecentIsShown(ds: seq<Dispatch>, from: int)
    ensures Recent(ds, from) == |Shown(ds, from)|
  {
    if ds != [] {
      var n := |ds| - 1;
      RecentIsShown(ds[..n], from);
      assert Shown(ds, from) == Shown(ds[..n], from) + (if n in Shown(ds, from) then {n} else {});
    }
  }

  /** A channel is limited exactly when a limit it has is used up by deliveries of the
      last minute or hour that reached the user and were not cancelled. */
  lemma LimitedExactly(limits: Limits, ds: seq<Dispatch>, now: int)
    ensures Limited(limits, ds, now)
      <==> || (limits.perMinute != 0 && |Shown(ds, now - 60_000_000)| >= limits.perMinute)
           || (limits.perHour != 0 && |Shown(ds, now - 3_600_000_000)| >= limits.perHour)
  {
    RecentIsShown(ds, now - 60_000_000);
    RecentIsShown(ds, now - 3_600_000_000);
  }

  /** "A cancel-then-retry pattern should not permanently consume rate-limit slots":
      cancelling a delivery that counts frees exactly its slot, in every window. */
  lemma CancelFreesItsSlot(limits: Limits, ds: seq<Dispatch>, k: nat, from: int)
    requires Enabled(limits, ds, Cancel(k))
    ensures Shown(Step(limits, ds, Cancel(k)), from) == Shown(ds, from) - {k}
    ensures Recent(Step(limits, ds, Cancel(k)), from) == Recent(ds, from) - (if k in Shown(ds, from) then 1 else 0)
  {
    RecentIsShown(ds, from);
    RecentIsShown(Step(limits, ds, Cancel(k)), from);
    assert Shown(Step(limits, ds, Cancel(k)), from) == Shown(ds, from) - {k};
  }

  /** A settled row is stamped no earlier than the routing that led to it. */
  predicate Enabled(limits: Limits, ds: seq<Dispatch>, a: Action) {
    match a
    case Check(now) => !Limited(limits, ds, now)
    case Bypass(_) => true
    case Settle(k, at, _, _) => k < |ds| && ds[k].row.None? && ds[k].since <= at
    case Cancel(k) => k < |ds| && ds[k].row.Some?
  }

  function Step(limits: Limits, ds: seq<Dispatch>, a: Action): seq<Dispatch> {
    if !Enabled(limits, ds, a) then ds
    else
      match a
      case Check(now) => ds + [Dispatch(now, true, None)]
      case Bypass(now) => ds + [Dispatch(now, false, None)]
      case Settle(k, at, delivered, cancelled) => ds[k := ds[k].(row := Some(Row(at, delivered, cancelled)))]
      case Cancel(k) => ds[k := ds[k].(row := Some(ds[k].row.value.(cancelled := true)))]
  }

  function Run(limits: Limits, actions: seq<Action>): seq<Dispatch> {
    Runs.Run((ds: seq<Dispatch>, a: Action) => Step(limits, ds, a), [], actions)
  }

  /** Dispatches that passed the check and are not settled yet. */
  function Open(ds: seq<Dispatch>): nat {
    if ds == [] then 0
    else Open(ds[..|ds| - 1]) + (if ds[|ds| - 1].checked && ds[|ds| - 1].row.None? then 1 else 0)
  }

  /** Whenever routing asks, at most `m` earlier dispatches are still unsettled;
      `OneAtATimeHasNoOverlap` says when `m` can be 0. */
  predicate Overlap(limits: Limits, actions: seq<Action>, m: nat) {
    actions == [] ||
      var before, last := actions[..|actions| - 1], actions[|actions| - 1];
      Overlap(limits, before, m) && (last.Check? ==> Open(Run(limits, before)) <= m)
  }

  /** The empty-list fallback asks nobody: however used up the limits are, its delivery
      goes out, and then takes a slot from those that do ask. */
  lemma FallbackTakesASlot(limits: Limits, ds: seq<Dispatch>, now: int, at: int, from: int)
    requires now <= at && from < at
    ensures var t := Step(limits, Step(limits, ds, Bypass(now)), Settle(|ds|, at, true, false));
      Shown(t, from) == Shown(ds, from) + {|ds|} && Recent(t, from) == Recent(ds, from) + 1
  {
    var t := Step(limits, Step(limits, ds, Bypass(now)), Settle(|ds|, at, true, false));
    RecentIsShown(ds, from);
    RecentIsShown(t, from);
    assert Shown(t, from) == Shown(ds, from) + {|ds|};
  }

  // ---------------------------------------------------------------------------
  // The invariant
  // ---------------------------------------------------------------------------

  /** A checked dispatch that counts after `cutoff`, or may still come to. */
  predicate MayCount(d: Dispatch, cutoff: int) {
    d.checked && (d.row.None? || Counts(d, cutoff))
  }

  function Held(ds: seq<Dispatch>, cutoff: int): nat {
    if ds == [] then 0
    else Held(ds[..|ds| - 1], cutoff) + (if MayCount(ds[|ds| - 1], cutoff) then 1 else 0)
  }

  lemma {:induction false} HeldIsRecentOrOpen(ds: seq<Dispatch>, cutoff: int)
    ensures Held(ds, cutoff) <= Recent(ds, cutoff) + Open(ds)
  {
    if ds != [] {
      HeldIsRecentOrOpen(ds[..|ds| - 1], cutoff);
    }
  }

  /** What was counted or still unsettled when dispatch `j` passed its check. */
  ghost predicate Admitted(ds: seq<Dispatch>, window: int, bound: int, j: nat)
    requires j < |ds|
  {
    && (ds[j].row.Some? ==> ds[j].since <= ds[j].row.value.at)
    && (ds[j].checked ==> Held(ds[..j], ds[j].since - window) < bound)
  }

  ghost predicate AllAdmitted(ds: seq<Dispatch>, window: int, bound: int) {
    forall j: nat :: j < |ds| ==> Admitted(ds, window, bound, j)
  }

  /** Settling or cancelling a dispatch never raises what a later one saw. */
  lemma {:induction false} ChangeLowersHeld(ds: seq<Dispatch>, k: nat, d: Dispatch, cutoff: int)
    requires k < |ds| && (MayCount(d, cutoff) ==> MayCount(ds[k], cutoff))
    ensures Held(ds[k := d], cutoff) <= Held(ds, cutoff)
  {
    var n := |ds| - 1;
    if k < n {
      ChangeLowersHeld(ds[..n], k, d, cutoff);
      assert ds[k := d][..n] == ds[..n][k := d];
    } else {
      assert ds[k := d][..n] == ds[..n];
    }
  }

  lemma ChangeKeepsAdmitted(ds: seq<Dispatch>, k: nat, d: Dispatch, window: int, bound: int)
    requires AllAdmitted(ds, window, bound) && k < |ds|
    requires d.since == ds[k].since && d.checked == ds[k].checked && d.row.Some? && d.since <= d.row.value.at
    requires forall cutoff :: MayCount(d, cutoff) ==> MayCount(ds[k], cutoff)
    ensures AllAdmitted(ds[k := d], window, bound)
  {
    var changed := ds[k := d];
    forall j: nat | j < |changed| ensures Admitted(changed, window, bound, j) {
      assert Admitted(ds, window, bound, j);
      if k < j {
        assert changed[..j] == ds[..j][k := d];
        ChangeLowersHeld(ds[..j], k, d, ds[j].since - window);
      } else {
        assert changed[..j] == ds[..j];
      }
    }
  }

  lemma OneMoreKeepsAdmitted(ds: seq<Dispatch>, d: Dispatch, window: int, bound: int)
    requires AllAdmitted(ds, window, bound)
    requires d.row.None? && (d.checked ==> Held(ds, d.since - window) < bound)
    ensures AllAdmitted(ds + [d], window, bound)
  {
    var more := ds + [d];
    forall j: nat | j < |more| ensures Admitted(more, window, bound, j) {
      assert more[..j] == ds[..j];
      if j < |ds| {
        assert Admitted(ds, window, bound, j);
      } else {
        assert ds[..j] == ds;
      }
    }
  }

  /** `limit` is the one that `limits` sets for `window`. */
  predicate LimitOf(limits: Limits, window: int, limit: int) {
    limit != 0 && ((window == MINUTE_WINDOW && limit == limits.perMinute) || (window == HOUR_WINDOW && limit == limits.perHour))
  }

  lemma StepKeepsAdmitted(limits: Limits, ds: seq<Dispatch>, a: Action, window: int, limit: int, m: nat)
    requires LimitOf(limits, window, limit) && AllAdmitted(ds, window, limit + m)
    requires a.Check? ==> Open(ds) <= m
    ensures AllAdmitted(Step(limits, ds, a), window, limit + m)
  {
    if Enabled(limits, ds, a) {
      match a
      case Check(now) =>
        HeldIsRecentOrOpen(ds, now - window);
        OneMoreKeepsAdmitted(ds, Dispatch(now, true, None), window, limit + m);
      case Bypass(now) =>
        OneMoreKeepsAdmitted(ds, Dispatch(now, false, None), window, limit + m);
      case Settle(k, at, delivered, cancelled) =>
        ChangeKeepsAdmitted(ds, k, ds[k].(row := Some(Row(at, delivered, cancelled))), window, limit + m);
      case Cancel(k) =>
        assert Admitted(ds, window, limit + m, k);
        ChangeKeepsAdmitted(ds, k, ds[k].(row := Some(ds[k].row.value.(cancelled := true))), window, limit + m);
    }
  }

  lemma {:induction false} RunKeepsAdmitted(limits: Limits, actions: seq<Action>, window: int, limit: int, m: nat)
    requires LimitOf(limits, window, limit) && Overlap(limits, actions, m)
    ensures AllAdmitted(Run(limits, actions), window, limit + m)
  {
    if actions != [] {
      var n := |actions| - 1;
      RunKeepsAdmitted(limits, actions[..n], window, limit, m);
      StepKeepsAdmitted(limits, Run(limits, actions[..n]), actions[n], window, limit, m);
    }
  }

  // ---------------------------------------------------------------------------
  // The bound
  // ---------------------------------------------------------------------------

  /** The user saw it in the half-open window (from, from + window]. Time is whole
      microseconds, so these are also the windows [from + 1, from + 1 + window). */
  predicate SeenIn(d: Dispatch, from: int, window: int) {
    d.checked && Counts(d, from) && d.row.value.at <= from + window
  }

  function SeenInWindow(ds: seq<Dispatch>, from: int, window: int): nat {
    if ds == [] then 0
    else SeenInWindow(ds[..|ds| - 1], from, window) + (if SeenIn(ds[|ds| - 1], from, window) then 1 else 0)
  }

  lemma {:induction false} SeenIsHeld(ds: seq<Dispatch>, from: int, window: int, cutoff: int)
    requires cutoff <= from
    ensures SeenInWindow(ds, from, window) <= Held(ds, cutoff)
  {
    if ds != [] {
      SeenIsHeld(ds[..|ds| - 1], from, window, cutoff);
    }
  }

  lemma {:induction false} AdmittedFewInWindow(ds: seq<Dispatch>, from: int, window: int, bound: int)
    requires AllAdmitted(ds, window, bound)
    ensures SeenInWindow(ds, from, window) <= Max(bound, 0)
  {
    if ds != [] {
      var n := |ds| - 1;
      assert Admitted(ds, window, bound, n);
      if SeenIn(ds[n], from, window) {
        SeenIsHeld(ds[..n], from, window, ds[n].since - window);
      } else {
        assert AllAdmitted(ds[..n], window, bound) by {
          forall j: nat | j < n ensures Admitted(ds[..n], window, bound, j) {
            assert Admitted(ds, window, bound, j) && ds[..n][..j] == ds[..j];
          }
        }
        AdmittedFewInWindow(ds[..n], from, window, bound);
      }
    }
  }

  /** The sliding-window bound. In every run in which at most `m` checked dispatches
      are unsettled whenever routing asks, every window holds at most the limit plus
      `m` deliveries that the user saw and that nobody cancelled since. */
  lemma EveryWindowIsWithinTheLimit(limits: Limits, actions: seq<Action>, m: nat, window: int, limit: int, from: int)
    requires LimitOf(limits, window, limit) && Overlap(limits, actions, m)
    ensures SeenInWindow(Run(limits, actions), from, window) <= Max(limit + m, 0)
  {
    RunKeepsAdmitted(limits, actions, window, limit, m);
    AdmittedFewInWindow(Run(limits, actions), from, window, limit + m);
  }

  // ---------------------------------------------------------------------------
  // One emit at a time
  // ---------------------------------------------------------------------------

  /** Action `i` is a check that lets a dispatch through. */
  predicate Admits(limits: Limits, actions: seq<Action>, i: nat) {
    i < |actions| && actions[i].Check? && Enabled(limits, Run(limits, actions[..i]), actions[i])
  }

  /** The dispatch that action `i` let through has been settled since. */
  predicate SettledSince(limits: Limits, actions: seq<Action>, i: nat) {
    i + 1 < |actions| &&
      var before, last := actions[..|actions| - 1], actions[|actions| - 1];
      || (last.Settle? && last.k == |Run(limits, actions[..i])| && Enabled(limits, Run(limits, before), last))
      || SettledSince(limits, before, i)
  }

  /** Whenever routing asks, everything it let through before has been settled. */
  ghost predicate OneAtATime(limits: Limits, actions: seq<Action>) {
    actions == [] ||
      var before, last := actions[..|actions| - 1], actions[|actions| - 1];
      && OneAtATime(limits, before)
      && (last.Check? ==> forall i: nat :: Admits(limits, before, i) ==> SettledSince(limits, before, i))
  }

  lemma {:induction false} OpenOne(ds: seq<Dispatch>) returns (k: nat)
    requires Open(ds) > 0
    ensures k < |ds| && ds[k].checked && ds[k].row.None?
  {
    var n := |ds| - 1;
    if ds[n].checked && ds[n].row.None? {
      k := n;
    } else {
      k := OpenOne(ds[..n]);
    }
  }

  /** A dispatch that is still unsettled stems from a check that let it through. */
  lemma {:induction false} UnsettledOrigin(limits: Limits, actions: seq<Action>, k: nat) returns (i: nat)
    requires k < |Run(limits, actions)| && Run(limits, actions)[k].checked && Run(limits, actions)[k].row.None?
    ensures Admits(limits, actions, i) && |Run(limits, actions[..i])| == k && !SettledSince(limits, actions, i)
  {
    var n := |actions| - 1;
    var before, last := actions[..n], actions[n];
    if k < |Run(limits, before)| {
      i := UnsettledOrigin(limits, before, k);
      assert before[..i] == actions[..i];
    } else {
      i := n;
    }
  }

  lemma AllSettledLeavesNoneOpen(limits: Limits, actions: seq<Action>)
    requires forall i: nat :: Admits(limits, actions, i) ==> SettledSince(limits, actions, i)
    ensures Open(Run(limits, actions)) == 0
  {
    if Open(Run(limits, actions)) > 0 {
      var k := OpenOne(Run(limits, actions));
      var i := UnsettledOrigin(limits, actions, k);
      assert false;
    }
  }

  lemma {:induction false} OneAtATimeHasNoOverlap(limits: Limits, actions: seq<Action>)
    requires OneAtATime(limits, actions)
    ensures Overlap(limits, actions, 0)
  {
    if actions != [] {
      var before, last := actions[..|actions| - 1], actions[|actions| - 1];
      OneAtATimeHasNoOverlap(limits, before);
      if last.Check? {
        AllSettledLeavesNoneOpen(limits, before);
      }
    }
  }

  /** Emits that run one at a time, with distinct channel names, keep the limit in
      every window. */
  lemma OneAtATimeKeepsTheLimit(limits: Limits, actions: seq<Action>, window: int, limit: int, from: int)
    requires LimitOf(limits, window, limit) && OneAtATime(limits, actions)
    ensures SeenInWindow(Run(limits, actions), from, window) <= Max(limit, 0)
  {
    OneAtATimeHasNoOverlap(limits, actions);
    EveryWindowIsWithinTheLimit(limits, actions, 0, window, limit, from);
  }

  // ---------------------------------------------------------------------------
  // The bound is tight
  // ---------------------------------------------------------------------------

  /** A channel with this one limit. */
  function Only(window: int, limit: int): Limits {
    if window == MINUTE_WINDOW then Limits(limit, 0) else Limits(0, limit)
  }

  /** `settled` deliveries and `waiting` dispatches, all of the same instant. */
  function Batch(settled: nat, waiting: nat, now: int): (ds: seq<Dispatch>)
    ensures |ds| == settled + waiting
    ensures forall i :: 0 <= i < |ds| ==>
      ds[i] == Dispatch(now, true, if i < settled then Some(Row(now, true, false)) else None)
  {
    seq(settled + waiting, i requires 0 <= i < settled + waiting =>
      Dispatch(now, true, if i < settled then Some(Row(now, true, false)) else None))
  }

  lemma {:induction false} BatchCounts(settled: nat, waiting: nat, now: int, cutoff: int)
    requires cutoff < now
    ensures Recent(Batch(settled, waiting, now), cutoff) == settled && Open(Batch(settled, waiting, now)) == waiting
    decreases settled + waiting
  {
    if waiting > 0 {
      assert Batch(settled, waiting, now)[..settled + waiting - 1] == Batch(settled, waiting - 1, now);
      BatchCounts(settled, waiting - 1, now, cutoff);
    } else if settled > 0 {
      assert Batch(settled, 0, now)[..settled - 1] == Batch(settled - 1, 0, now);
      BatchCounts(settled - 1, 0, now, cutoff);
    }
  }

  lemma {:induction false} BatchIsSeen(settled: nat, now: int, from: int, window: int)
    requires from < now <= from + window
    ensures SeenInWindow(Batch(settled, 0, now), from, window) == settled
  {
    if settled > 0 {
      assert Batch(settled, 0, now)[..settled - 1] == Batch(settled - 1, 0, now);
      BatchIsSeen(settled - 1, now, from, window);
    }
  }

  lemma CheckOfBatch(window: int, limit: int, settled: nat, waiting: nat, now: int)
    requires window in {MINUTE_WINDOW, HOUR_WINDOW} && settled < limit
    ensures Step(Only(window, limit), Batch(settled, waiting, now), Check(now)) == Batch(settled, waiting + 1, now)
  {
    BatchCounts(settled, waiting, now, now - MINUTE_WINDOW);
    BatchCounts(settled, waiting, now, now - HOUR_WINDOW);
    assert Batch(settled, waiting + 1, now) == Batch(settled, waiting, now) + [Dispatch(now, true, None)];
  }

  lemma SettleOfBatch(limits: Limits, settled: nat, waiting: nat, now: int)
    requires waiting > 0
    ensures Step(limits, Batch(settled, waiting, now), Settle(settled, now, true, false)) == Batch(settled + 1, waiting - 1, now)
  {
    var ds := Batch(settled, waiting, now);
    assert ds[settled := ds[settled].(row := Some(Row(now, true, false)))] == Batch(settled + 1, waiting - 1, now);
  }

  /** The run ends in `ds` and never had more than `m` dispatches open at a check. */
  ghost predicate EndsIn(limits: Limits, actions: seq<Action>, m: nat, ds: seq<Dispatch>) {
    Run(limits, actions) == ds && Overlap(limits, actions, m)
  }

  lemma OneMoreAction(limits: Limits, actions: seq<Action>, a: Action, m: nat, ds: seq<Dispatch>)
    requires EndsIn(limits, actions, m, ds) && (a.Check? ==> Open(ds) <= m)
    ensures EndsIn(limits, actions + [a], m, Step(limits, ds, a))
  {
    assert (actions + [a])[..|actions|] == actions;
  }

  lemma OneMoreCheck(window: int, limit: int, actions: seq<Action>, m: nat, settled: nat, waiting: nat, now: int)
    requires window in {MINUTE_WINDOW, HOUR_WINDOW} && settled < limit && waiting <= m
    requires EndsIn(Only(window, limit), actions, m, Batch(settled, waiting, now))
    ensures EndsIn(Only(window, limit), actions + [Check(now)], m, Batch(settled, waiting + 1, now))
  {
    BatchCounts(settled, waiting, now, now - 1);
    OneMoreAction(Only(window, limit), actions, Check(now), m, Batch(settled, waiting, now));
    CheckOfBatch(window, limit, settled, waiting, now);
  }

  lemma OneMoreSettle(limits: Limits, actions: seq<Action>, m: nat, settled: nat, waiting: nat, now: int)
    requires waiting > 0 && EndsIn(limits, actions, m, Batch(settled, waiting, now))
    ensures EndsIn(limits, actions + [Settle(settled, now, true, false)], m, Batch(settled + 1, waiting - 1, now))
  {
    OneMoreAction(limits, actions, Settle(settled, now, true, false), m, Batch(settled, waiting, now));
    SettleOfBatch(limits, settled, waiting, now);
  }

  /** `n` emits, each settled before the next one routes. */
  function InTurn(n: nat, now: int): seq<Action> {
    if n == 0 then [] else InTurn(n - 1, now) + [Check(now)] + [Settle(n - 1, now, true, false)]
  }

  /** `n` emits that route before any of them settles. */
  function Flood(actions: seq<Action>, n: nat, now: int): seq<Action> {
    if n == 0 then actions else Flood(actions, n - 1, now) + [Check(now)]
  }

  function SettleAll(actions: seq<Action>, first: nat, n: nat, now: int): seq<Action> {
    if n == 0 then actions else SettleAll(actions, first, n - 1, now) + [Settle(first + n - 1, now, true, false)]
  }

  lemma {:induction false} RunInTurn(window: int, limit: int, n: nat, m: nat, now: int)
    requires window in {MINUTE_WINDOW, HOUR_WINDOW} && n <= limit
    ensures EndsIn(Only(window, limit), InTurn(n, now), m, Batch(n, 0, now))
  {
    if n == 0 {
      assert Batch(0, 0, now) == [];
    } else {
      RunInTurn(window, limit, n - 1, m, now);
      OneMoreCheck(window, limit, InTurn(n - 1, now), m, n - 1, 0, now);
      OneMoreSettle(Only(window, limit), InTurn(n - 1, now) + [Check(now)], m, n - 1, 1, now);
    }
  }

  lemma {:induction false} RunFlood(window: int, limit: int, actions: seq<Action>, settled: nat, n: nat, m: nat, now: int)
    requires window in {MINUTE_WINDOW, HOUR_WINDOW} && settled < limit && n <= m + 1
    requires EndsIn(Only(window, limit), actions, m, Batch(settled, 0, now))
    ensures EndsIn(Only(window, limit), Flood(actions, n, now), m, Batch(settled, n, now))
  {
    if n > 0 {
      RunFlood(window, limit, actions, settled, n - 1, m, now);
      OneMoreCheck(window, limit, Flood(actions, n - 1, now), m, settled, n - 1, now);
    }
  }

  lemma {:induction false} RunSettleAll(limits: Limits, actions: seq<Action>, settled: nat, waiting: nat, n: nat, m: nat, now: int)
    requires n <= waiting && EndsIn(limits, actions, m, Batch(settled, waiting, now))
    ensures EndsIn(limits, SettleAll(actions, settled, n, now), m, Batch(settled + n, waiting - n, now))
  {
    if n > 0 {
      RunSettleAll(limits, actions, settled, waiting, n - 1, m, now);
      OneMoreSettle(limits, SettleAll(actions, settled, n - 1, now), m, settled + n - 1, waiting - n + 1, now);
    }
  }

  /** `n` emits in turn, then m + 1 at once. */
  function Burst(n: nat, m: nat, now: int): seq<Action> {
    SettleAll(Flood(InTurn(n, now), m + 1, now), n, m + 1, now)
  }

  lemma RunBurst(window: int, limit: int, n: nat, m: nat, now: int)
    requires window in {MINUTE_WINDOW, HOUR_WINDOW} && n < limit
    ensures EndsIn(Only(window, limit), Burst(n, m, now), m, Batch(n + (m + 1), 0, now))
  {
    RunInTurn(window, limit, n, m, now);
    RunFlood(window, limit, InTurn(n, now), n, m + 1, m, now);
    RunSettleAll(Only(window, limit), Flood(InTurn(n, now), m + 1, now), n, m + 1, m + 1, m, now);
  }

  /** The bound is tight: for every limit and every overlap there is a run whose
      window holds exactly the limit plus the overlap. One less than the limit emit
      in turn, the others at once; the check reads settled rows only and lets all of
      them through. */
  lemma BurstIsNotLimited(window: int, limit: int, m: nat, now: int)
    requires window in {MINUTE_WINDOW, HOUR_WINDOW} && limit >= 1
    ensures Overlap(Only(window, limit), Burst(limit - 1, m, now), m)
    ensures SeenInWindow(Run(Only(window, limit), Burst(limit - 1, m, now)), now - 1, window) == limit + m
  {
    RunBurst(window, limit, limit - 1, m, now);
    BatchIsSeen(limit + m, now, now - 1, window);
  }

  /** Every run with that overlap keeps the limit in every window. */
  ghost predicate KeepsTheLimit(limits: Limits, window: int, limit: int, m: nat) {
    forall actions, from :: Overlap(limits, actions, m) ==> SeenInWindow(Run(limits, actions), from, window) <= limit
  }

  /** The documented limit holds exactly without overlap. */
  lemma LimitHoldsIffNoOverlap(window: int, limit: int, m: nat)
    requires window in {MINUTE_WINDOW, HOUR_WINDOW} && limit >= 1
    ensures KeepsTheLimit(Only(window, limit), window, limit, m) <==> m == 0
  {
    var limits := Only(window, limit);
    if m == 0 {
      forall actions, from | Overlap(limits, actions, m)
        ensures SeenInWindow(Run(limits, actions), from, window) <= limit
      {
        EveryWindowIsWithinTheLimit(limits, actions, 0, window, limit, from);
      }
    } else {
      BurstIsNotLimited(window, limit, m, 0);
      assert SeenInWindow(Run(limits, Burst(limit - 1, m, 0)), -1, window) > limit;
    }
  }
}
