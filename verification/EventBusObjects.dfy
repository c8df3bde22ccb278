/** The two classes of sse.py, `_Subscriber` (with its generator) and `EventBus`.
    Their methods are proved to take exactly the steps of module `EventBus`. */
module EventBusObjects {
  import opened Common
  import opened EventBus

  class Subscriber {
    const audience: Option<string>
    const since: Option<int>
    const syncSeq: nat
    var queue: seq<Item>
    var dropped: nat
    var pc: Pc
    ghost var replayed: seq<Item>
    ghost var yielded: seq<Item>
    ghost var lost: set<nat>
    ghost var told: nat
    ghost var erased: nat

    ghost function View(): Sub
      reads this
    {
      Sub(audience, since, queue, dropped, pc, syncSeq, replayed, yielded, lost, told, erased)
    }

    constructor (audience: Option<string>, since: Option<int>, replay: seq<Item>, syncSeq: nat)
      ensures View() == Sub(audience, since, [], 0, Replaying(replay), syncSeq, [], [], {}, 0, 0)
    {
      this.audience, this.since, this.syncSeq := audience, since, syncSeq;
      queue, dropped, pc := [], 0, Replaying(replay);
      replayed, yielded, lost, told, erased := [], [], {}, 0, 0;
    }

    /** `queue.put_nowait`, or the count of a drop on QueueFull. */
    method Put(item: Item)
      requires Matches(audience, item.msg.target)
      modifies this
      ensures View() == Offer(old(View()), item)
    {
      if |queue| < QUEUE_DEPTH {
        queue := queue + [item];
      } else {
        dropped := dropped + 1;
        lost := lost + {item.seqno};
      }
    }

    /** The generator from one yield to the next. */
    method Next() returns (out: Out)
      requires CanPull(View())
      modifies this
      ensures View() == Pulled(old(View())) && out == Output(old(View()))
    {
      match pc
      case Replaying(rest) =>
        if rest != [] {
          out := Data(rest[0]);
          pc := Replaying(rest[1..]);
          replayed := replayed + [rest[0]];
        } else {
          out := Sync(syncSeq);
          pc := Live;
        }
      case Live =>
        var msg := queue[0];
        queue := queue[1..];
        if dropped > 0 {
          out := Notice(dropped);
          pc := Noticed(msg, dropped);
          told := told + dropped;
        } else {
          out := Data(msg);
          yielded := yielded + [msg];
        }
      case Noticed(msg, shown) =>
        erased := erased + if dropped >= shown then dropped - shown else 0;
        dropped := 0;
        out := Data(msg);
        pc := Live;
        yielded := yielded + [msg];
    }
  }

  class Bus {
    var seqno: nat
    var replay: seq<Item>
    var subscribers: seq<Subscriber>
    ghost var history: seq<Msg>

    /** No subscriber is registered twice. */
    ghost predicate Valid()
      reads this
    {
      forall i, j :: 0 <= i < j < |subscribers| ==> subscribers[i] != subscribers[j]
    }

    ghost function View(): State
      reads this, subscribers
    {
      State(seqno, history, replay, Views(subscribers))
    }

    constructor ()
      ensures Valid() && View() == Start && subscribers == []
    {
      seqno, replay, subscribers, history := 0, [], [], [];
    }

    /** The loop of `publish` over the registered subscribers. */
    method Broadcast(item: Item, ghost before: seq<Sub>)
      requires Valid() && Views(subscribers) == before
      modifies subscribers
      ensures Views(subscribers) == OfferAll(before, item)
      ensures unchanged(this)
    {
      assert forall i :: 0 <= i < |subscribers| ==> subscribers[i] as object != this;
      ViewsOneByOne(subscribers);
      for i := 0 to |subscribers|
        invariant unchanged(this)
        invariant forall j :: 0 <= j < i ==> subscribers[j].View() == Offer(before[j], item)
        invariant forall j :: i <= j < |subscribers| ==> subscribers[j].View() == before[j]
      {
        if !Matches(subscribers[i].audience, item.msg.target) {
          continue;
        }
        subscribers[i].Put(item);
      }
      ViewsOneByOne(subscribers);
      assert Views(subscribers) == OfferAll(before, item);
    }

    /** The locked block of `publish`. */
    method Record(msg: Msg) returns (item: Item)
      requires Valid()
      modifies this`seqno, this`replay, this`history
      ensures Valid()
      ensures item == Item(old(seqno) + 1, msg)
      ensures seqno == old(seqno) + 1 && replay == PushBounded(old(replay), item) && history == old(history) + [msg]
      ensures Views(subscribers) == old(Views(subscribers))
    {
      seqno := seqno + 1;
      item := Item(seqno, msg);
      replay := PushBounded(replay, item);
      history := history + [msg];
      assert forall i :: 0 <= i < |subscribers| ==> subscribers[i] as object != this;
    }

    /** `publish`, field by field. */
    method RecordAndBroadcast(msg: Msg, ghost before: State)
      requires Valid() && before == View()
      modifies this`seqno, this`replay, this`history, subscribers
      ensures Valid()
      ensures seqno == before.seqno + 1 && history == before.history + [msg]
      ensures replay == PushBounded(before.replay, Item(before.seqno + 1, msg))
      ensures Views(subscribers) == OfferAll(before.subs, Item(before.seqno + 1, msg))
    {
      var item := Record(msg);
      Broadcast(item, before.subs);
    }

    /** `publish`. */
    method Publish(event: string, data: string, target: Option<string>)
      requires Valid()
      modifies this, subscribers
      ensures Valid() && subscribers == old(subscribers)
      ensures View() == Published(old(View()), Msg(event, data, target))
    {
      RecordAndBroadcast(Msg(event, data, target), View());
    }

    /** The comprehension over the ring. */
    method CollectReplay(since: Option<int>, audience: Option<string>) returns (items: seq<Item>)
      ensures items == Replayable(replay, since, audience)
    {
      items := [];
      for i := 0 to |replay|
        invariant items == Replayable(replay[..i], since, audience)
      {
        assert replay[..i + 1][..i] == replay[..i];
        var item := replay[i];
        if After(since, item.seqno) && Matches(audience, item.msg.target) {
          items := items + [item];
        }
      }
      assert replay[..|replay|] == replay;
    }

    /** `subscribe` up to its first yield. */
    method Subscribe(since: Option<int>, audience: Option<string>) returns (sub: Subscriber)
      requires Valid()
      modifies this
      ensures Valid() && fresh(sub) && subscribers == old(subscribers) + [sub]
      ensures View() == Subscribed(old(View()), since, audience)
    {
      var items := CollectReplay(since, audience);
      sub := new Subscriber(audience, since, items, seqno);
      subscribers := subscribers + [sub];
    }

    /** The `finally` block of the generator. */
    method Unsubscribe(i: nat)
      requires Valid() && i < |subscribers|
      modifies this
      ensures Valid() && View() == Step(old(View()), Action.Close(i))
    {
      ViewsWithout(subscribers, i);
      subscribers := subscribers[..i] + subscribers[i + 1..];
    }
  }

  ghost function Views(subscribers: seq<Subscriber>): seq<Sub>
    reads subscribers
  {
    if subscribers == [] then [] else Views(subscribers[..|subscribers| - 1]) + [subscribers[|subscribers| - 1].View()]
  }

  lemma {:induction false} ViewsOneByOne(subscribers: seq<Subscriber>)
    ensures |Views(subscribers)| == |subscribers|
    ensures forall i :: 0 <= i < |subscribers| ==> Views(subscribers)[i] == subscribers[i].View()
  {
    if subscribers != [] {
      ViewsOneByOne(subscribers[..|subscribers| - 1]);
    }
  }

  lemma {:induction false} ViewsOfConcat(xs: seq<Subscriber>, ys: seq<Subscriber>)
    ensures Views(xs + ys) == Views(xs) + Views(ys)
  {
    if ys == [] {
      assert xs + ys == xs;
    } else {
      var n := |ys| - 1;
      assert (xs + ys)[..|xs| + n] == xs + ys[..n];
      ViewsOfConcat(xs, ys[..n]);
    }
  }

  lemma {:induction false} ViewsWithout(subscribers: seq<Subscriber>, i: nat)
    requires i < |subscribers|
    ensures |Views(subscribers)| == |subscribers|
    ensures Views(subscribers[..i] + subscribers[i + 1..]) == Views(subscribers)[..i] + Views(subscribers)[i + 1..]
  {
    var before, after := subscribers[..i], subscribers[i + 1..];
    assert subscribers == (before + [subscribers[i]]) + after;
    ViewsOfConcat(before + [subscribers[i]], after);
    ViewsOfConcat(before, [subscribers[i]]);
    ViewsOfConcat(before, after);
    ViewsOneByOne([subscribers[i]]);
    ViewsOneByOne(before);
    ViewsOneByOne(subscribers);
    DropMiddle(Views(before), Views([subscribers[i]]), Views(after));
  }

  lemma DropMiddle(xs: seq<Sub>, x: seq<Sub>, ys: seq<Sub>)
    requires |x| == 1
    ensures (xs + x + ys)[..|xs|] + (xs + x + ys)[|xs| + 1..] == xs + ys
  {
  }
}
