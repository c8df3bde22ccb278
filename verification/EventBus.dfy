/** The event bus of sse.py: a bounded replay ring, bounded per-subscriber queues,
    audience filtering, and the hand-over from replayed to live events.

    `publish` has no await after it holds the lock, so it is one step; a subscriber
    is a generator that runs from one `yield` to the next when it is pulled. */
module EventBus {
  import opened Common
  import Runs

  const REPLAY_CAPACITY: nat := 256
  const QUEUE_DEPTH: nat := 256

  datatype Msg = Msg(event: string, data: string, target: Option<string>)
  datatype Item = Item(seqno: nat, msg: Msg)

  /** `_matches`. */
  predicate Matches(audience: Option<string>, target: Option<string>) {
    target == None || (audience.Some? && (audience.value == "master" || audience == target))
  }

  datatype Pc =
    | Replaying(rest: seq<Item>)
    | Live
    | Noticed(held: Item, shown: nat)  // suspended at the `sse.dropped` yield

  /** What one pull yields. */
  datatype Out = Data(item: Item) | Sync(seqno: nat) | Notice(count: nat)

  /** A subscriber and its generator. From `replayed` on the fields are history:
      the events yielded so far, the sequence numbers dropped, the drop counts shown
      to the client, and the drops that were reset without being shown. */
  datatype Sub = Sub(audience: Option<string>, since: Option<int>, queue: seq<Item>, dropped: nat, pc: Pc, syncSeq: nat,
                     replayed: seq<Item>, yielded: seq<Item>, lost: set<nat>, told: nat, erased: nat)

  /** `history` is every event ever published; event number n is `history[n - 1]`. */
  datatype State = State(seqno: nat, history: seq<Msg>, replay: seq<Item>, subs: seq<Sub>)

  datatype Action = Publish(msg: Msg) | Subscribe(since: Option<int>, audience: Option<string>) | Pull(i: nat) | Close(i: nat)

  const Start := State(0, [], [], [])

  /** A deque with `maxlen`. */
  function PushBounded(ring: seq<Item>, item: Item): seq<Item> {
    var longer := ring + [item];
    if |longer| > REPLAY_CAPACITY then longer[|longer| - REPLAY_CAPACITY..] else longer
  }

  /** The body of the publishing loop for one subscriber. */
  function Offer(sub: Sub, item: Item): Sub {
    if !Matches(sub.audience, item.msg.target) then sub
    else if |sub.queue| < QUEUE_DEPTH then sub.(queue := sub.queue + [item])
    else sub.(dropped := sub.dropped + 1, lost := sub.lost + {item.seqno})
  }

  function OfferAll(subs: seq<Sub>, item: Item): (out: seq<Sub>)
    ensures |out| == |subs| && forall i :: 0 <= i < |subs| ==> out[i] == Offer(subs[i], item)
  {
    seq(|subs|, i requires 0 <= i < |subs| => Offer(subs[i], item))
  }

  function Published(s: State, msg: Msg): State {
    var item := Item(s.seqno + 1, msg);
    State(s.seqno + 1, s.history + [msg], PushBounded(s.replay, item),
          OfferAll(s.subs, item))
  }

  predicate After(since: Option<int>, n: nat) {
    since == None || n > since.value
  }

  /** The items of the ring that a new subscriber replays. */
  function Replayable(ring: seq<Item>, since: Option<int>, audience: Option<string>): seq<Item> {
    if ring == [] then []
    else
      var last := ring[|ring| - 1];
      Replayable(ring[..|ring| - 1], since, audience)
      + (if After(since, last.seqno) && Matches(audience, last.msg.target) then [last] else [])
  }

  function Subscribed(s: State, since: Option<int>, audience: Option<string>): State {
    s.(subs := s.subs + [Sub(audience, since, [], 0, Replaying(Replayable(s.replay, since, audience)), s.seqno,
                             [], [], {}, 0, 0)])
  }

  predicate CanPull(sub: Sub) {
    sub.pc.Live? ==> sub.queue != []
  }

  /** The generator from one yield to the next. */
  function Pulled(sub: Sub): Sub
    requires CanPull(sub)
  {
    match sub.pc
    case Replaying(rest) =>
      if rest != [] then sub.(pc := Replaying(rest[1..]), replayed := sub.replayed + [rest[0]])
      else sub.(pc := Live)
    case Live =>
      if sub.dropped > 0 then
        sub.(queue := sub.queue[1..], pc := Noticed(sub.queue[0], sub.dropped), told := sub.told + sub.dropped)
      else sub.(queue := sub.queue[1..], yielded := sub.yielded + [sub.queue[0]])
    case Noticed(held, shown) =>
      sub.(dropped := 0, pc := Live, yielded := sub.yielded + [held],
           erased := sub.erased + (if sub.dropped >= shown then sub.dropped - shown else 0))
  }

  /** What that pull handed to the client. */
  function Output(sub: Sub): Out
    requires CanPull(sub)
  {
    match sub.pc
    case Replaying(rest) => if rest != [] then Data(rest[0]) else Sync(sub.syncSeq)
    case Live => if sub.dropped > 0 then Notice(sub.dropped) else Data(sub.queue[0])
    case Noticed(held, _) => Data(held)
  }

  predicate Enabled(s: State, a: Action) {
    match a
    case Publish(_) => true
    case Subscribe(_, _) => true
    case Pull(i) => i < |s.subs| && CanPull(s.subs[i])
    case Close(i) => i < |s.subs|
  }

  function Step(s: State, a: Action): State {
    if !Enabled(s, a) then s
    else
      match a
      case Publish(msg) => Published(s, msg)
      case Subscribe(since, audience) => Subscribed(s, since, audience)
      case Pull(i) => s.(subs := s.subs[i := Pulled(s.subs[i])])
      case Close(i) => s.(subs := s.subs[..i] + s.subs[i + 1..])
  }

  function Run(s: State, actions: seq<Action>): State {
    Runs.Run(Step, s, actions)
  }

  // ---------------------------------------------------------------------------
  // What a subscriber should see, read off the whole history
  // ---------------------------------------------------------------------------

  /** The events numbered above `lo` and up to `hi` that the audience may see. */
  function Wanted(history: seq<Msg>, audience: Option<string>, lo: int, hi: nat): seq<Item>
    requires hi <= |history|
  {
    if hi == 0 then []
    else
      var before := Wanted(history, audience, lo, hi - 1);
      if hi > lo && Matches(audience, history[hi - 1].target) then before + [Item(hi, history[hi - 1])] else before
  }

  /** `item` is an event of the history, numbered in (lo, hi], for this audience. */
  predicate Shows(history: seq<Msg>, audience: Option<string>, lo: int, hi: nat, item: Item) {
    && lo < item.seqno <= hi <= |history| && 0 < item.seqno
    && item.msg == history[item.seqno - 1] && Matches(audience, item.msg.target)
  }

  predicate Increasing(items: seq<Item>) {
    forall i, j :: 0 <= i < j < |items| ==> items[i].seqno < items[j].seqno
  }

  /** In order, for this audience only, and nothing left out. */
  lemma {:induction false} WantedFacts(history: seq<Msg>, audience: Option<string>, lo: int, hi: nat)
    requires hi <= |history|
    ensures var items := Wanted(history, audience, lo, hi);
      && Increasing(items)
      && (forall i :: 0 <= i < |items| ==> Shows(history, audience, lo, hi, items[i]))
      && (forall k :: 0 <= k < hi && lo <= k && Matches(audience, history[k].target) ==> Item(k + 1, history[k]) in items)
  {
    if hi > 0 {
      WantedFacts(history, audience, lo, hi - 1);
      var before, items := Wanted(history, audience, lo, hi - 1), Wanted(history, audience, lo, hi);
      forall i | 0 <= i < |items| ensures Shows(history, audience, lo, hi, items[i]) {
        if i < |before| { assert Shows(history, audience, lo, hi - 1, before[i]); }
      }
      assert items == before || items == before + [Item(hi, history[hi - 1])];
    }
  }

  lemma {:induction false} WantedIsStable(history: seq<Msg>, msg: Msg, audience: Option<string>, lo: int, hi: nat)
    requires hi <= |history|
    ensures Wanted(history + [msg], audience, lo, hi) == Wanted(history, audience, lo, hi)
  {
    if hi > 0 {
      WantedIsStable(history, msg, audience, lo, hi - 1);
    }
  }

  lemma {:induction false} WantedSplits(history: seq<Msg>, audience: Option<string>, lo: int, mid: nat, hi: nat)
    requires lo <= mid <= hi <= |history|
    ensures Wanted(history, audience, lo, hi) == Wanted(history, audience, lo, mid) + Wanted(history, audience, mid, hi)
  {
    if hi > mid {
      WantedSplits(history, audience, lo, mid, hi - 1);
    } else {
      WantedAboveIsEmpty(history, audience, mid, hi);
    }
  }

  lemma {:induction false} WantedAboveIsEmpty(history: seq<Msg>, audience: Option<string>, lo: int, hi: nat)
    requires hi <= |history| && hi <= lo
    ensures Wanted(history, audience, lo, hi) == []
  {
    if hi > 0 {
      WantedAboveIsEmpty(history, audience, lo, hi - 1);
    }
  }

  /** `items` without the ones whose number is in `lost`. */
  function Surviving(items: seq<Item>, lost: set<nat>): seq<Item> {
    if items == [] then []
    else
      var last := items[|items| - 1];
      Surviving(items[..|items| - 1], lost) + (if last.seqno in lost then [] else [last])
  }

  lemma {:induction false} SurvivingIgnores(items: seq<Item>, lost: set<nat>, n: nat)
    requires forall i :: 0 <= i < |items| ==> items[i].seqno != n
    ensures Surviving(items, lost + {n}) == Surviving(items, lost)
  {
    if items != [] {
      SurvivingIgnores(items[..|items| - 1], lost, n);
    }
  }

  lemma {:induction false} SurvivingNone(items: seq<Item>)
    ensures Surviving(items, {}) == items
  {
    if items != [] {
      SurvivingNone(items[..|items| - 1]);
    }
  }

  // ---------------------------------------------------------------------------
  // The invariant
  // ---------------------------------------------------------------------------

  function Rest(sub: Sub): seq<Item> {
    if sub.pc.Replaying? then sub.pc.rest else []
  }

  function Held(sub: Sub): seq<Item> {
    if sub.pc.Noticed? then [sub.pc.held] else []
  }

  /** Drops counted but not shown yet. */
  function Unshown(sub: Sub): nat {
    if sub.pc.Noticed? then (if sub.dropped >= sub.pc.shown then sub.dropped - sub.pc.shown else 0) else sub.dropped
  }

  /** The oldest number the ring may have held when the subscriber joined. */
  function Floor(syncSeq: nat, since: Option<int>): int {
    RingFloor(if syncSeq > REPLAY_CAPACITY then syncSeq - REPLAY_CAPACITY else 0, since)
  }

  function RingFloor(evicted: nat, since: Option<int>): int {
    if since.Some? && since.value > evicted then since.value else evicted
  }

  ghost predicate ReplayInv(history: seq<Msg>, sub: Sub)
    requires sub.syncSeq <= |history|
  {
    && sub.replayed + Rest(sub) == Wanted(history, sub.audience, Floor(sub.syncSeq, sub.since), sub.syncSeq)
    && (sub.pc.Replaying? ==> sub.yielded == [])
  }

  /** What a subscriber has been given or still has queued since it joined. */
  function Taken(sub: Sub): seq<Item> {
    sub.yielded + Held(sub) + sub.queue
  }

  ghost predicate LiveInv(history: seq<Msg>, sub: Sub)
    requires sub.syncSeq <= |history|
  {
    Taken(sub) == Surviving(Wanted(history, sub.audience, sub.syncSeq, |history|), sub.lost)
  }

  ghost predicate CountInv(events: nat, sub: Sub) {
    && |sub.queue| <= QUEUE_DEPTH
    && (forall n <- sub.lost :: n <= events)
    && (sub.pc.Noticed? ==> sub.dropped >= sub.pc.shown)
    && |sub.lost| == sub.told + Unshown(sub) + sub.erased
  }

  ghost predicate SubInv(history: seq<Msg>, sub: Sub) {
    && sub.syncSeq <= |history|
    && ReplayInv(history, sub)
    && LiveInv(history, sub)
    && CountInv(|history|, sub)
  }

  /** The ring is the tail of the history. */
  ghost predicate RingInv(s: State) {
    && s.seqno == |s.history|
    && |s.replay| == Min(REPLAY_CAPACITY, s.seqno)
    && forall i :: 0 <= i < |s.replay| ==>
         var n := s.seqno - |s.replay| + i; s.replay[i] == Item(n + 1, s.history[n])
  }

  ghost predicate Inv(s: State) {
    && RingInv(s)
    && (forall sub <- s.subs :: SubInv(s.history, sub))
  }

  predicate NumberedUpTo(items: seq<Item>, hi: nat) {
    forall i :: 0 <= i < |items| ==> items[i].seqno <= hi
  }

  lemma {:induction false} WantedNumbers(history: seq<Msg>, audience: Option<string>, lo: int, hi: nat)
    requires hi <= |history|
    ensures NumberedUpTo(Wanted(history, audience, lo, hi), hi)
  {
    if hi > 0 {
      WantedNumbers(history, audience, lo, hi - 1);
    }
  }

  /** A new event joins what the subscriber should see, at the end. */
  lemma PublishExtendsWanted(history: seq<Msg>, audience: Option<string>, lo: nat, msg: Msg)
    requires lo <= |history|
    ensures Wanted(history + [msg], audience, lo, |history| + 1)
         == Wanted(history, audience, lo, |history|) + (if Matches(audience, msg.target) then [Item(|history| + 1, msg)] else [])
  {
    WantedIsStable(history, msg, audience, lo, |history|);
  }

  lemma NewItemSurvives(items: seq<Item>, last: Item, lost: set<nat>)
    requires last.seqno !in lost
    ensures Surviving(items + [last], lost) == Surviving(items, lost) + [last]
  {
    assert (items + [last])[..|items|] == items;
  }

  lemma {:induction false} LostItemVanishes(items: seq<Item>, last: Item, lost: set<nat>)
    requires forall i :: 0 <= i < |items| ==> items[i].seqno < last.seqno
    ensures Surviving(items + [last], lost + {last.seqno}) == Surviving(items, lost)
  {
    assert (items + [last])[..|items|] == items;
    SurvivingIgnores(items, lost, last.seqno);
  }

  lemma QueuedItemIsTaken(sub: Sub, item: Item)
    ensures Taken(sub.(queue := sub.queue + [item])) == Taken(sub) + [item]
  {
  }

  /** `live` is what the subscriber should have seen so far, `item` is new. */
  lemma {:induction false} OfferKeepsSplit(sub: Sub, live: seq<Item>, item: Item)
    requires Taken(sub) == Surviving(live, sub.lost) && Matches(sub.audience, item.msg.target)
    requires item.seqno > 0 && NumberedUpTo(live, item.seqno - 1) && item.seqno !in sub.lost
    ensures Taken(Offer(sub, item)) == Surviving(live + [item], Offer(sub, item).lost)
  {
    if |sub.queue| < QUEUE_DEPTH {
      NewItemSurvives(live, item, sub.lost);
      QueuedItemIsTaken(sub, item);
    } else {
      LostItemVanishes(live, item, sub.lost);
    }
  }

  lemma OfferKeepsCounts(events: nat, sub: Sub, msg: Msg)
    requires CountInv(events, sub)
    ensures CountInv(events + 1, Offer(sub, Item(events + 1, msg)))
  {
    assert events + 1 !in sub.lost;
    assert |sub.lost + {events + 1}| == |sub.lost| + 1;
  }

  lemma PublishToAudience(history: seq<Msg>, sub: Sub, msg: Msg)
    requires sub.syncSeq <= |history| && LiveInv(history, sub) && CountInv(|history|, sub) && Matches(sub.audience, msg.target)
    ensures LiveInv(history + [msg], Offer(sub, Item(|history| + 1, msg)))
  {
    PublishExtendsWanted(history, sub.audience, sub.syncSeq, msg);
    WantedNumbers(history, sub.audience, sub.syncSeq, |history|);
    OfferKeepsSplit(sub, Wanted(history, sub.audience, sub.syncSeq, |history|), Item(|history| + 1, msg));
  }

  lemma PublishToOthers(history: seq<Msg>, sub: Sub, msg: Msg)
    requires sub.syncSeq <= |history| && LiveInv(history, sub) && !Matches(sub.audience, msg.target)
    ensures LiveInv(history + [msg], Offer(sub, Item(|history| + 1, msg)))
  {
    var live := Wanted(history, sub.audience, sub.syncSeq, |history|);
    PublishExtendsWanted(history, sub.audience, sub.syncSeq, msg);
    assert live + [] == live;
  }

  lemma PublishKeepsReplay(history: seq<Msg>, sub: Sub, msg: Msg)
    requires sub.syncSeq <= |history| && ReplayInv(history, sub)
    ensures ReplayInv(history + [msg], Offer(sub, Item(|history| + 1, msg)))
  {
    WantedIsStable(history, msg, sub.audience, Floor(sub.syncSeq, sub.since), sub.syncSeq);
  }

  lemma PublishKeepsSub(history: seq<Msg>, sub: Sub, msg: Msg)
    requires SubInv(history, sub)
    ensures SubInv(history + [msg], Offer(sub, Item(|history| + 1, msg)))
  {
    PublishKeepsReplay(history, sub, msg);
    if Matches(sub.audience, msg.target) {
      PublishToAudience(history, sub, msg);
    } else {
      PublishToOthers(history, sub, msg);
    }
    OfferKeepsCounts(|history|, sub, msg);
  }

  lemma {:induction false} ReplayableIsWanted(history: seq<Msg>, ring: seq<Item>, since: Option<int>,
                                              audience: Option<string>, hi: nat)
    requires |ring| <= hi <= |history|
    requires forall i :: 0 <= i < |ring| ==> ring[i] == Item(hi - |ring| + i + 1, history[hi - |ring| + i])
    ensures Replayable(ring, since, audience) == Wanted(history, audience, RingFloor(hi - |ring|, since), hi)
  {
    if ring == [] {
      WantedAboveIsEmpty(history, audience, RingFloor(hi, since), hi);
    } else {
      var n := |ring| - 1;
      ReplayableIsWanted(history, ring[..n], since, audience, hi - 1);
      assert ring[n] == Item(hi, history[hi - 1]);
    }
  }

  lemma SubscribeKeepsInv(s: State, since: Option<int>, audience: Option<string>)
    requires Inv(s)
    ensures Inv(Subscribed(s, since, audience))
  {
    var t := Subscribed(s, since, audience);
    ReplayableIsWanted(s.history, s.replay, since, audience, s.seqno);
    WantedAboveIsEmpty(s.history, audience, s.seqno, s.seqno);
    forall sub <- t.subs ensures SubInv(t.history, sub) {
      if sub !in s.subs { assert sub == t.subs[|s.subs|]; }
    }
  }

  /** A pull moves events along and drops none. */
  lemma PullMovesEvents(sub: Sub)
    requires CanPull(sub)
    ensures Pulled(sub).replayed + Rest(Pulled(sub)) == sub.replayed + Rest(sub)
    ensures Taken(Pulled(sub)) == Taken(sub)
  {
    if sub.pc.Replaying? && sub.pc.rest != [] {
      assert sub.pc.rest == [sub.pc.rest[0]] + sub.pc.rest[1..];
    }
    if sub.pc.Live? {
      assert sub.queue == [sub.queue[0]] + sub.queue[1..];
    }
  }

  lemma PullKeepsSub(history: seq<Msg>, sub: Sub)
    requires SubInv(history, sub) && CanPull(sub)
    ensures SubInv(history, Pulled(sub))
  {
    PullMovesEvents(sub);
  }

  lemma PublishKeepsRing(s: State, msg: Msg)
    requires RingInv(s)
    ensures RingInv(Published(s, msg))
  {
    var t := Published(s, msg);
    forall i | 0 <= i < |t.replay| ensures t.replay[i] == Item(t.seqno - |t.replay| + i + 1, t.history[t.seqno - |t.replay| + i]) {
      var longer := s.replay + [Item(s.seqno + 1, msg)];
      assert t.replay[i] == longer[|longer| - |t.replay| + i];
    }
  }

  lemma PublishKeepsInv(s: State, msg: Msg)
    requires Inv(s)
    ensures Inv(Published(s, msg))
  {
    var t := Published(s, msg);
    PublishKeepsRing(s, msg);
    forall sub <- t.subs ensures SubInv(t.history, sub) {
      var i :| 0 <= i < |t.subs| && t.subs[i] == sub;
      assert s.subs[i] in s.subs;
      PublishKeepsSub(s.history, s.subs[i], msg);
    }
  }

  lemma StepKeepsInv(s: State, a: Action)
    requires Inv(s)
    ensures Inv(Step(s, a))
  {
    if Enabled(s, a) {
      match a
      case Publish(msg) => PublishKeepsInv(s, msg);
      case Subscribe(since, audience) => SubscribeKeepsInv(s, since, audience);
      case Pull(i) =>
        var t := Step(s, a);
        assert s.subs[i] in s.subs;
        PullKeepsSub(s.history, s.subs[i]);
        forall sub <- t.subs ensures SubInv(t.history, sub) {
          if sub !in s.subs { assert sub == t.subs[i]; }
        }
      case Close(i) =>
        var t := Step(s, a);
        forall sub <- t.subs ensures SubInv(t.history, sub) {
          assert sub in s.subs;
        }
    }
  }

  lemma {:induction false} RunKeepsInv(s: State, actions: seq<Action>)
    requires Inv(s)
    ensures Inv(Run(s, actions))
  {
    if actions != [] {
      var before := actions[..|actions| - 1];
      RunKeepsInv(s, before);
      StepKeepsInv(Run(s, before), actions[|actions| - 1]);
    }
  }

  // ---------------------------------------------------------------------------
  // Main results
  // ---------------------------------------------------------------------------

  lemma {:induction false} SurvivingFacts(items: seq<Item>, lost: set<nat>)
    requires Increasing(items)
    ensures Increasing(Surviving(items, lost))
    ensures forall item :: item in Surviving(items, lost) <==> item in items && item.seqno !in lost
  {
    if items != [] {
      var before, last := items[..|items| - 1], items[|items| - 1];
      SurvivingFacts(before, lost);
      assert items == before + [last];
      forall item <- Surviving(before, lost) ensures item.seqno < last.seqno {
        assert item in before;
      }
    }
  }

  /** The ring holds exactly the last min(256, seq) events, numbered consecutively. */
  lemma RingIsTailOfHistory(actions: seq<Action>)
    ensures var s := Run(Start, actions);
      && s.seqno == |s.history| && |s.replay| == (if s.seqno < 256 then s.seqno else 256)
      && forall i :: 0 <= i < |s.replay| ==>
           s.replay[i] == Item(s.seqno - |s.replay| + i + 1, s.history[s.seqno - |s.replay| + i])
  {
    RunKeepsInv(Start, actions);
  }

  lemma EvictionShows(history: seq<Msg>, audience: Option<string>, lo: int, evicted: nat, hi: nat)
    requires lo <= evicted <= hi <= |history|
    ensures Wanted(history, audience, evicted, hi) == Wanted(history, audience, lo, hi)
      <==> forall k :: 0 <= k < evicted && lo <= k ==> !Matches(audience, history[k].target)
  {
    WantedSplits(history, audience, lo, evicted, hi);
    var gone, kept := Wanted(history, audience, lo, evicted), Wanted(history, audience, evicted, hi);
    WantedFacts(history, audience, lo, evicted);
    if gone == [] {
      assert gone + kept == kept;
    } else {
      assert |gone + kept| != |kept|;
      assert Shows(history, audience, lo, evicted, gone[0]);
      assert Matches(audience, history[gone[0].seqno - 1].target);
    }
  }

  /** A replay equals the one from the unbounded history exactly when no event the
      subscriber asked for and may see has been evicted from the ring. In
      particular it does for every `since` within the last 256 events. */
  lemma ReplayIsComplete(actions: seq<Action>, since: Option<int>, audience: Option<string>)
    ensures var s := Run(Start, actions);
      var lo := if since.Some? then since.value else 0;
      var evicted := s.seqno - |s.replay|;
      && s.seqno == |s.history| && evicted >= 0
      && (Replayable(s.replay, since, audience) == Wanted(s.history, audience, lo, s.seqno)
          <==> forall k :: 0 <= k < evicted && lo <= k ==> !Matches(audience, s.history[k].target))
      && (since.Some? && since.value >= s.seqno - REPLAY_CAPACITY ==>
            Replayable(s.replay, since, audience) == Wanted(s.history, audience, since.value, s.seqno))
  {
    var s := Run(Start, actions);
    RunKeepsInv(Start, actions);
    var lo := if since.Some? then since.value else 0;
    var evicted: nat := s.seqno - |s.replay|;
    ReplayableIsWanted(s.history, s.replay, since, audience, s.seqno);
    if lo <= evicted {
      EvictionShows(s.history, audience, lo, evicted, s.seqno);
    } else {
      assert RingFloor(evicted, since) == lo;
    }
  }

  lemma ReplayedFacts(history: seq<Msg>, sub: Sub)
    requires SubInv(history, sub)
    ensures Increasing(sub.replayed + Rest(sub))
    ensures forall item <- sub.replayed :: Shows(history, sub.audience, 0, sub.syncSeq, item) && After(sub.since, item.seqno)
  {
    var floor := Floor(sub.syncSeq, sub.since);
    WantedFacts(history, sub.audience, floor, sub.syncSeq);
    var all := sub.replayed + Rest(sub);
    forall item <- sub.replayed ensures Shows(history, sub.audience, 0, sub.syncSeq, item) && After(sub.since, item.seqno) {
      var k :| 0 <= k < |sub.replayed| && sub.replayed[k] == item;
      assert Shows(history, sub.audience, floor, sub.syncSeq, all[k]);
    }
  }

  lemma TakenFacts(history: seq<Msg>, sub: Sub)
    requires SubInv(history, sub)
    ensures Increasing(Taken(sub))
    ensures forall item <- Taken(sub) :: Shows(history, sub.audience, sub.syncSeq, |history|, item)
    ensures forall k :: sub.syncSeq <= k < |history| && Matches(sub.audience, history[k].target) ==>
      (Item(k + 1, history[k]) in Taken(sub) <==> k + 1 !in sub.lost)
  {
    WantedFacts(history, sub.audience, sub.syncSeq, |history|);
    var wanted := Wanted(history, sub.audience, sub.syncSeq, |history|);
    SurvivingFacts(wanted, sub.lost);
    forall item <- Taken(sub) ensures Shows(history, sub.audience, sub.syncSeq, |history|, item) {
      assert item in wanted;
      var k :| 0 <= k < |wanted| && wanted[k] == item;
      assert Shows(history, sub.audience, sub.syncSeq, |history|, wanted[k]);
    }
  }

  /** The hand-over from replay to live events. For every subscriber in every run:
      the events it was given have strictly increasing numbers, replayed ones up to
      `syncSeq` and live ones above it; each is an event of the history that its
      audience may see; and each such event published after it joined is, exactly
      once, yielded or held at a yield or queued, unless it was dropped. */
  lemma HandOverIsGapless(actions: seq<Action>, i: nat)
    requires i < |Run(Start, actions).subs|
    ensures var s := Run(Start, actions);
      var sub := s.subs[i];
      && s.seqno == |s.history| && sub.syncSeq <= s.seqno
      && Increasing(sub.replayed + sub.yielded) && Increasing(Taken(sub))
      && (sub.pc.Replaying? ==> sub.yielded == [])
      && (forall item <- sub.replayed :: Shows(s.history, sub.audience, 0, sub.syncSeq, item) && After(sub.since, item.seqno))
      && (forall item <- Taken(sub) :: Shows(s.history, sub.audience, sub.syncSeq, s.seqno, item))
      && (forall k :: sub.syncSeq <= k < s.seqno && Matches(sub.audience, s.history[k].target) ==>
            (Item(k + 1, s.history[k]) in Taken(sub) <==> k + 1 !in sub.lost))
  {
    var s := Run(Start, actions);
    RunKeepsInv(Start, actions);
    var sub := s.subs[i];
    assert sub in s.subs && SubInv(s.history, sub);
    ReplayedFacts(s.history, sub);
    TakenFacts(s.history, sub);
    assert forall item <- sub.replayed :: Shows(s.history, sub.audience, 0, sub.syncSeq, item);
    assert forall item <- Taken(sub) :: Shows(s.history, sub.audience, sub.syncSeq, s.seqno, item);
    YieldsIncrease(sub, sub.replayed + Rest(sub), Taken(sub));
  }

  lemma YieldsIncrease(sub: Sub, replayable: seq<Item>, live: seq<Item>)
    requires sub.replayed + Rest(sub) == replayable && sub.yielded + Held(sub) + sub.queue == live
    requires Increasing(replayable) && Increasing(live)
    requires forall item <- sub.replayed :: item.seqno <= sub.syncSeq
    requires forall item <- live :: item.seqno > sub.syncSeq
    ensures Increasing(sub.replayed + sub.yielded)
  {
    var all := sub.replayed + sub.yielded;
    forall i, j | 0 <= i < j < |all| ensures all[i].seqno < all[j].seqno {
      if j < |sub.replayed| {
        assert all[i] == replayable[i] && all[j] == replayable[j];
      } else {
        assert all[j] == live[j - |sub.replayed|];
        if i < |sub.replayed| {
          assert all[i] in sub.replayed;
        } else {
          assert all[i] == live[i - |sub.replayed|];
        }
      }
    }
  }

  /** An event targeted at one device reaches that device and the master, and nobody else;
      a broadcast reaches everybody. For every subscriber in every run: whatever it was
      given, or will be given from the ring or its queue, is for everybody, or for it, or
      it is a master; and every such event published after it joined is, exactly once,
      yielded or held at a yield or queued, unless it was dropped. */
  lemma EventsReachTheirAudience(actions: seq<Action>, i: nat)
    requires i < |Run(Start, actions).subs|
    ensures var sub := Run(Start, actions).subs[i];
      forall item <- sub.replayed + Rest(sub) + Taken(sub) :: item.msg.target.Some? ==>
        sub.audience == Some("master") || sub.audience == Some(item.msg.target.value)
    ensures var s := Run(Start, actions);
      var sub := s.subs[i];
      forall k :: && sub.syncSeq <= k < |s.history|
                  && (|| s.history[k].target == None || sub.audience == Some("master")
                      || (s.history[k].target.Some? && sub.audience == Some(s.history[k].target.value)))
                  ==> (Item(k + 1, s.history[k]) in Taken(sub) <==> k + 1 !in sub.lost)
  {
    var s := Run(Start, actions);
    RunKeepsInv(Start, actions);
    var sub := s.subs[i];
    assert sub in s.subs && SubInv(s.history, sub);
    TakenFacts(s.history, sub);
    var floor := Floor(sub.syncSeq, sub.since);
    WantedFacts(s.history, sub.audience, floor, sub.syncSeq);
    var ring := sub.replayed + Rest(sub);
    forall item <- ring + Taken(sub) ensures Matches(sub.audience, item.msg.target) {
      if item in ring {
        var k :| 0 <= k < |ring| && ring[k] == item;
        assert Shows(s.history, sub.audience, floor, sub.syncSeq, ring[k]);
      }
    }
  }

  /** What one pull hands out is what the histories record: data events go to
      `replayed` before the sync marker and to `yielded` after it. */
  lemma OutputIsRecorded(sub: Sub)
    requires CanPull(sub)
    ensures match Output(sub)
      case Data(item) =>
        if sub.pc.Replaying? then Pulled(sub).replayed == sub.replayed + [item] && Pulled(sub).yielded == sub.yielded
        else Pulled(sub).yielded == sub.yielded + [item] && Pulled(sub).replayed == sub.replayed
      case Sync(n) => n == sub.syncSeq && sub.pc == Replaying([]) && Pulled(sub).pc.Live?
      case Notice(count) => count > 0 && Pulled(sub).told == sub.told + count
  {
  }

  /** Drops split into those told, those still to be told and those erased. */
  lemma DropsAreAccountedFor(actions: seq<Action>, i: nat)
    requires i < |Run(Start, actions).subs|
    ensures var sub := Run(Start, actions).subs[i]; |sub.lost| == sub.told + Unshown(sub) + sub.erased
  {
    RunKeepsInv(Start, actions);
    assert Run(Start, actions).subs[i] in Run(Start, actions).subs;
  }

  /** A pull resets unseen drops exactly when it resumes from a notice after the
      queue overflowed during it. */
  lemma DropsAreErasedAtNotices(history: seq<Msg>, sub: Sub)
    requires SubInv(history, sub) && CanPull(sub)
    ensures Pulled(sub).erased > sub.erased <==> sub.pc.Noticed? && sub.dropped > sub.pc.shown
  {
  }

  /** The client resumes from a drop notice, and the queue overflowed meanwhile. */
  predicate Erases(s: State, a: Action, i: nat) {
    a == Pull(i) && i < |s.subs| && s.subs[i].pc.Noticed? && s.subs[i].dropped > s.subs[i].pc.shown
  }

  /** Where the subscriber that is at `i` after the step was before it: those behind
      one that leaves move up. */
  function PlaceBefore(s: State, a: Action, i: nat): nat {
    if a.Close? && Enabled(s, a) && i >= a.i then i + 1 else i
  }

  /** Some step of the run does that to the subscriber that ends up at `i`. */
  predicate EverErases(actions: seq<Action>, i: nat) {
    actions != [] &&
      var before, last := actions[..|actions| - 1], actions[|actions| - 1];
      var j := PlaceBefore(Run(Start, before), last, i);
      Erases(Run(Start, before), last, j) || EverErases(before, j)
  }

  lemma {:induction false} NobodyThereYet(actions: seq<Action>, i: nat)
    requires i >= |Run(Start, actions).subs|
    ensures !EverErases(actions, i)
  {
    if actions != [] {
      var before, last := actions[..|actions| - 1], actions[|actions| - 1];
      assert Run(Start, actions) == Step(Run(Start, before), last);
      NobodyThereYet(before, PlaceBefore(Run(Start, before), last, i));
    }
  }

  lemma ErasedStep(s: State, a: Action, i: nat)
    requires Inv(s) && i < |Step(s, a).subs|
    ensures var j := PlaceBefore(s, a, i);
      Step(s, a).subs[i].erased > 0 <==> j < |s.subs| && (s.subs[j].erased > 0 || Erases(s, a, j))
  {
    var j := PlaceBefore(s, a, i);
    if Enabled(s, a) && a.Pull? && a.i == i {
      assert s.subs[i] in s.subs && SubInv(s.history, s.subs[i]);
      DropsAreErasedAtNotices(s.history, s.subs[i]);
    } else if Enabled(s, a) && a.Close? {
      assert Step(s, a).subs[i] == s.subs[j];
    }
  }

  lemma {:induction false} ErasedIff(actions: seq<Action>, i: nat)
    requires i < |Run(Start, actions).subs|
    ensures Run(Start, actions).subs[i].erased > 0 <==> EverErases(actions, i)
  {
    if actions != [] {
      var before, last := actions[..|actions| - 1], actions[|actions| - 1];
      var j := PlaceBefore(Run(Start, before), last, i);
      RunKeepsInv(Start, before);
      ErasedStep(Run(Start, before), last, i);
      if j < |Run(Start, before).subs| {
        ErasedIff(before, j);
      } else {
        NobodyThereYet(before, j);
      }
    }
  }

  /** "The drop notices tell a client how many events it missed" holds of a run
      exactly when the client never resumed from a notice during which its queue
      had overflowed again. Others may come and go meanwhile. */
  lemma {:induction false} NoticesCountDrops(actions: seq<Action>, i: nat)
    requires i < |Run(Start, actions).subs|
    ensures var sub := Run(Start, actions).subs[i];
      |sub.lost| == sub.told + Unshown(sub) <==> !EverErases(actions, i)
  {
    DropsAreAccountedFor(actions, i);
    ErasedIff(actions, i);
  }

  function Copies(msg: Msg, n: nat): seq<Action> {
    if n == 0 then [] else Copies(msg, n - 1) + [Publish(msg)]
  }

  /** A master subscriber that is not pulled queues 256 events and drops the rest. */
  lemma {:induction false} FloodFillsQueue(s: State, msg: Msg, n: nat)
    requires |s.subs| == 1 && s.subs[0].audience == Some("master") && |s.subs[0].queue| <= QUEUE_DEPTH
    ensures var t := Run(s, Copies(msg, n));
      && |t.subs| == 1 && t.subs[0].audience == s.subs[0].audience && t.subs[0].pc == s.subs[0].pc
      && t.subs[0].erased == s.subs[0].erased
      && |t.subs[0].queue| == Min(256, |s.subs[0].queue| + n)
      && t.subs[0].dropped + |t.subs[0].queue| == s.subs[0].dropped + |s.subs[0].queue| + n
  {
    if n > 0 {
      FloodFillsQueue(s, msg, n - 1);
      var all, before := Copies(msg, n), Run(s, Copies(msg, n - 1));
      assert all[..|all| - 1] == Copies(msg, n - 1);
      assert Run(s, all) == Published(before, msg);
      assert Published(before, msg).subs == [Offer(before.subs[0], Item(before.seqno + 1, msg))];
    }
  }

  /** A run in which a drop is never reported: overflow, notice, overflow, resume. */
  lemma SomeDropIsNeverReported(msg: Msg)
    ensures var joined := Step(Step(Start, Subscribe(None, Some("master"))), Pull(0));
      var noticed := Step(Run(joined, Copies(msg, QUEUE_DEPTH + 1)), Pull(0));
      var resumed := Step(Run(noticed, Copies(msg, 2)), Pull(0));
      |resumed.subs| == 1 && resumed.subs[0].erased == 1
  {
    var joined := Step(Step(Start, Subscribe(None, Some("master"))), Pull(0));
    assert joined.subs[0].pc.Live?;
    FloodFillsQueue(joined, msg, QUEUE_DEPTH + 1);
    var noticed := Step(Run(joined, Copies(msg, QUEUE_DEPTH + 1)), Pull(0));
    assert noticed.subs[0].pc.Noticed? && |noticed.subs[0].queue| == QUEUE_DEPTH - 1;
    FloodFillsQueue(noticed, msg, 2);
  }
}
