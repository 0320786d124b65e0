/** Events between users, queues and pools: am_event_async_post and
    am_event_async_publish on the queues of the handlers and one allocator,
    proved to be the steps of EventSpec. */
module EventBus {
  import opened EventAlloc
  import opened EventAsync
  import EventQueue
  import opened EventSpec
  import opened Options
  import opened PoolSpec
  import opened SList

  /** The assertions of one push. */
  predicate CanPushTo(s: State, e: Event, q: nat, margin: nat) {
    && q < |s.queues| && s.Usable(e) && Accepts(s.queues[q], margin)
    && (Fits(s.queues[q], margin) ==> s.Refs(e) < REF_COUNTER_MAX)
  }

  /** No assertion fails while an event is pushed to these queues in turn, and it is
      still there afterwards. */
  predicate CanPush(s: State, e: Event, qs: seq<nat>, lifo: bool, margin: nat)
    decreases |qs|
  {
    && s.Usable(e)
    && (qs != [] ==>
          && CanPushTo(s, e, qs[0], margin)
          && CanPush(PostEvent(s, e, qs[0], lifo, margin), e, qs[1..], lifo, margin))
  }

  predicate CanPublish(s: State, e: Event, qs: seq<nat>, lifo: bool, margin: nat) {
    && (forall k :: 0 <= k < |qs| ==> qs[k] < |s.queues|)
    && s.Usable(e) && s.Refs(e) < REF_COUNTER_MAX && CanPush(Hold(IncRef(s, e), e), e, qs, lifo, margin)
  }

  lemma KeepQueues(s: State, e: Event)
    ensures Hold(IncRef(s, e), e).queues == s.queues
  {
  }

  lemma PostPlace(s: State, e: Event, q: nat, lifo: bool, margin: nat)
    requires q < |s.queues| && s.Usable(e)
    ensures var s' := PostEvent(s, e, q, lifo, margin);
      && s'.holds == s.holds && |s'.queues| == |s.queues|
      && forall k :: 0 <= k < |s.queues| && k != q ==> s'.queues[k] == s.queues[k]
  {
  }

  lemma PostFits(s: State, e: Event, q: nat, lifo: bool, margin: nat)
    requires q < |s.queues| && s.Usable(e) && Fits(s.queues[q], margin)
    ensures var s' := PostEvent(s, e, q, lifo, margin);
      s'.Usable(e) && s'.Refs(e) <= s.Refs(e) + 1
  {
  }

  /** A push to one queue says nothing about the room in others. */
  lemma AllFitAfter(s: State, e: Event, qs: seq<nat>, lifo: bool, margin: nat)
    requires forall k :: 0 <= k < |qs| ==> qs[k] < |s.queues|
    requires qs != [] && NoDup(qs) && s.Usable(e)
    ensures |PostEvent(s, e, qs[0], lifo, margin).queues| == |s.queues|
    ensures AllFit(s, qs, margin) <==>
      Fits(s.queues[qs[0]], margin) && AllFit(PostEvent(s, e, qs[0], lifo, margin), qs[1..], margin)
  {
    hide PostEvent, Fits;
    PostPlace(s, e, qs[0], lifo, margin);
    var s' := PostEvent(s, e, qs[0], lifo, margin);
    assert forall k :: 0 <= k < |qs[1..]| ==> qs[1..][k] == qs[k + 1] && s'.queues[qs[k + 1]] == s.queues[qs[k + 1]];
    if Fits(s.queues[qs[0]], margin) && AllFit(s', qs[1..], margin) {
      forall k | 0 <= k < |qs|
        ensures Fits(s.queues[qs[k]], margin)
      {
        if k > 0 {
          assert qs[1..][k - 1] == qs[k];
        }
      }
    }
  }

  /** A publish for which there is room everywhere is always possible. */
  lemma {:induction false} RoomIsEnough(s: State, e: Event, qs: seq<nat>, lifo: bool, margin: nat)
    requires forall k :: 0 <= k < |qs| ==> qs[k] < |s.queues|
    requires s.Usable(e) && NoDup(qs) && AllFit(s, qs, margin) && s.Refs(e) + |qs| <= REF_COUNTER_MAX
    ensures CanPush(s, e, qs, lifo, margin)
    decreases |qs|
  {
    if qs != [] {
      AllFitAfter(s, e, qs, lifo, margin);
      PostFits(s, e, qs[0], lifo, margin);
      RoomIsEnough(PostEvent(s, e, qs[0], lifo, margin), e, qs[1..], lifo, margin);
    }
  }

  /** The queue with the event behind all others, or before them. */
  function With(q: EventSpec.Queue, e: Event, lifo: bool): EventSpec.Queue {
    EventSpec.Queue(if lifo then [e] + q.items else q.items + [e], q.capacity)
  }

  /** From s to s', a queue got the event if it was to and had more than `margin` free
      slots, and nothing else happened to it. */
  predicate Received(s: State, s': State, e: Event, qs: seq<nat>, lifo: bool, margin: nat, q: nat) {
    && |s'.queues| == |s.queues|
    && (q < |s.queues| ==>
          s'.queues[q] ==
            if q in qs && s.queues[q].capacity - |s.queues[q].items| > margin then With(s.queues[q], e, lifo)
            else s.queues[q])
  }

  /** What pushing leaves in a queue. */
  lemma {:induction false} PushedAt(s: State, e: Event, qs: seq<nat>, lifo: bool, margin: nat, q: nat)
    requires forall k :: 0 <= k < |qs| ==> qs[k] < |s.queues|
    requires CanPush(s, e, qs, lifo, margin) && NoDup(qs)
    ensures Received(s, PushAll(s, e, qs, lifo, margin), e, qs, lifo, margin, q)
    decreases |qs|
  {
    if qs != [] {
      HeadTail(qs);
      PostPlace(s, e, qs[0], lifo, margin);
      PushedAt(PostEvent(s, e, qs[0], lifo, margin), e, qs[1..], lifo, margin, q);
    }
  }

  /** A publish gives the event once to each target queue that has room for it and
      changes no other. */
  lemma PublishedAt(s: State, e: Event, qs: seq<nat>, lifo: bool, margin: nat, q: nat)
    requires CanPublish(s, e, qs, lifo, margin) && NoDup(qs)
    ensures Received(s, EventSpec.Publish(s, e, qs, lifo, margin), e, qs, lifo, margin, q)
  {
    KeepQueues(s, e);
    PushedAt(Hold(IncRef(s, e), e), e, qs, lifo, margin, q);
  }

  predicate GotIt(s: State, s': State, e: Event, qs: seq<nat>, lifo: bool) {
    forall k :: 0 <= k < |qs| ==>
      qs[k] < |s.queues| && qs[k] < |s'.queues| && s'.queues[qs[k]] == With(s.queues[qs[k]], e, lifo)
  }

  /** So the answer true is right exactly when every target has room. */
  lemma DeliveredToAll(s: State, e: Event, qs: seq<nat>, lifo: bool, margin: nat)
    requires CanPublish(s, e, qs, lifo, margin) && NoDup(qs)
    ensures GotIt(s, EventSpec.Publish(s, e, qs, lifo, margin), e, qs, lifo) <==> AllFit(s, qs, margin)
  {
    hide EventSpec.Publish, CanPush, NoDup;
    var s' := EventSpec.Publish(s, e, qs, lifo, margin);
    forall k | 0 <= k < |qs|
      ensures |s'.queues| == |s.queues|
      ensures s'.queues[qs[k]] == With(s.queues[qs[k]], e, lifo) <==> Fits(s.queues[qs[k]], margin)
    {
      PublishedAt(s, e, qs, lifo, margin, qs[k]);
      assert |With(s.queues[qs[k]], e, lifo).items| == |s.queues[qs[k]].items| + 1;
    }
  }

  /** An event in static memory, published with margin 1 to the half full queue: the
      publish is possible, answers true and delivers nothing. */
  lemma LostUnnoticed()
    ensures CanPublish(HalfFull(), Static(0), [0], false, 1)
    ensures EventSpec.Publish(HalfFull(), Static(0), [0], false, 1) == HalfFull()
  {
    HalfFullIs();
    var s := HalfFull();
    assert [0][1..] == [];
    assert PostEvent(s, Static(0), 0, false, 1) == s;
  }

  /** After k of the pushes from s0: the rest of them can be done, and leads where all
      of them lead. */
  ghost predicate Going(s0: State, s: State, e: Event, qs: seq<nat>, k: nat, lifo: bool, margin: nat) {
    && k <= |qs| && NoDup(qs) && |s.queues| == |s0.queues|
    && (forall i :: 0 <= i < |qs| ==> qs[i] < |s0.queues|) && s0.Usable(e)
    && CanPush(s, e, qs[k..], lifo, margin)
    && PushAll(s, e, qs[k..], lifo, margin) == PushAll(s0, e, qs, lifo, margin)
  }

  lemma {:induction false} CanPushPlaces(s: State, e: Event, qs: seq<nat>, lifo: bool, margin: nat)
    requires CanPush(s, e, qs, lifo, margin)
    ensures forall i :: 0 <= i < |qs| ==> qs[i] < |s.queues|
    decreases |qs|
  {
    if qs != [] {
      CanPushPlaces(PostEvent(s, e, qs[0], lifo, margin), e, qs[1..], lifo, margin);
      forall i | 0 <= i < |qs|
        ensures qs[i] < |s.queues|
      {
        if i > 0 {
          assert qs[i] == qs[1..][i - 1];
        }
      }
    }
  }

  lemma GoFirst(s: State, e: Event, qs: seq<nat>, lifo: bool, margin: nat)
    requires NoDup(qs) && CanPush(s, e, qs, lifo, margin)
    ensures Going(s, s, e, qs, 0, lifo, margin)
  {
    CanPushPlaces(s, e, qs, lifo, margin);
    assert qs[0..] == qs;
  }

  lemma GoOn(s0: State, s: State, e: Event, qs: seq<nat>, k: nat, lifo: bool, margin: nat)
    requires Going(s0, s, e, qs, k, lifo, margin) && k < |qs|
    ensures CanPushTo(s, e, qs[k], margin)
    ensures qs[k] < |s.queues| && s.Usable(e)
    ensures var s' := PostEvent(s, e, qs[k], lifo, margin);
      Going(s0, s', e, qs, k + 1, lifo, margin)
  {
    hide PostEvent, Fits;
    PostPlace(s, e, qs[k], lifo, margin);
    assert qs[k..][1..] == qs[k + 1..];
  }

  lemma GoLast(s0: State, s: State, e: Event, qs: seq<nat>, lifo: bool, margin: nat)
    requires Going(s0, s, e, qs, |qs|, lifo, margin)
    ensures s.Usable(e) && s0.Usable(e) && forall i :: 0 <= i < |qs| ==> qs[i] < |s0.queues|
    ensures s == PushAll(s0, e, qs, lifo, margin)
  {
  }

  /** The queues of these handlers. */
  function Targets(handlers: map<nat, nat>, order: seq<nat>): (qs: seq<nat>)
    requires forall k :: 0 <= k < |order| ==> order[k] in handlers
    ensures |qs| == |order| && forall k :: 0 <= k < |order| ==> qs[k] == handlers[order[k]]
  {
    seq(|order|, k requires 0 <= k < |order| => handlers[order[k]])
  }

  lemma {:induction false} DescendingMembers(s: set<nat>, n: nat)
    ensures forall h: nat :: h in Descending(s, n) <==> h in s && h < n
    ensures forall k :: 0 <= k < |Descending(s, n)| ==> Descending(s, n)[k] in s && Descending(s, n)[k] < n
    ensures NoDup(Descending(s, n))
  {
    if n > 0 {
      DescendingMembers(s, n - 1);
    }
  }

  class Bus {
    const alloc: Alloc
    /** handlers[h] is the place in `queues` of the queue of handler h */
    const async: Async<nat>
    const queues: seq<EventQueue.Queue>
    /** references in users' hands */
    ghost var holds: multiset<Event>

    ghost function Arrays(): set<object>
    {
      set q | q in queues :: q.events
    }

    /** Every handler pushes to a queue of its own. */
    ghost predicate Valid()
      reads this, alloc, alloc.pools, async, queues
    {
      && alloc.Valid() && async.Valid()
      && (forall i :: 0 <= i < |queues| ==> queues[i].Valid() && queues[i].alloc == alloc)
      && (forall i, j :: 0 <= i < j < |queues| ==> queues[i] != queues[j] && queues[i].events != queues[j].events)
      && (forall h :: h in async.handlers ==> async.handlers[h] < |queues|)
      && forall g, h :: g in async.handlers && h in async.handlers && g != h ==> async.handlers[g] != async.handlers[h]
    }

    ghost function Abs(): (s: State)
      reads this, alloc, alloc.pools, async, queues, Arrays()
      requires Valid()
      ensures |s.queues| == |queues| && s.holds == holds
      ensures forall i :: 0 <= i < |queues| ==> s.queues[i] == queues[i].Abs()
      ensures s == alloc.Abs().(queues := s.queues, holds := holds)
    {
      alloc.Abs().(queues := Contents(), holds := holds)
    }

    ghost function Contents(): seq<EventSpec.Queue>
      reads this, alloc, alloc.pools, async, queues, Arrays()
      requires Valid()
    {
      seq(|queues|, i requires 0 <= i < |queues| reads this, alloc, alloc.pools, async, queues, Arrays()
                      requires Valid() => queues[i].Abs())
    }

    constructor (alloc: Alloc, async: Async<nat>, queues: seq<EventQueue.Queue>)
      requires alloc.Valid() && async.Valid() && async.handlers == map[]
      requires forall i :: 0 <= i < |queues| ==> queues[i].Valid() && queues[i].alloc == alloc
      requires forall i, j :: 0 <= i < j < |queues| ==> queues[i] != queues[j] && queues[i].events != queues[j].events
      ensures Valid() && this.alloc == alloc && this.async == async && this.queues == queues && holds == multiset{}
    {
      this.alloc, this.async, this.queues, holds := alloc, async, queues, multiset{};
    }

    /** am_ao_event_handler_unsafe, the handler of every active object: a push to its
        queue. It answers true even if there is no room. */
    method Push(event: Event, q: nat, lifo: bool, margin: nat) returns (ok: bool)
      requires Valid() && CanPushTo(Abs(), event, q, margin)
      modifies queues[q], queues[q].events, alloc, alloc.pools
      ensures Valid() && alloc.pools == old(alloc.pools)
      ensures Abs() == PostEvent(old(Abs()), event, q, lifo, margin)
      ensures ok
    {
      hide FreeRef, IncRef, Alloc.Valid, Alloc.Abs, Async.Valid, EventQueue.Queue.Valid, EventQueue.Queue.Items;
      ghost var s := Abs();
      CountersFrame(s, alloc.Abs(), event);
      CountersFrame(alloc.Abs(), s, event);
      var rc := queues[q].PushUnsafe(event, lifo, margin);
      ok := true;
      forall j | 0 <= j < |queues|
        ensures queues[j].Valid() && (j != q ==> queues[j].Abs() == s.queues[j])
      {
      }
    }

    /** am_event_async_post */
    method Post(handler: nat, event: Event, lifo: bool, margin: nat) returns (ok: bool)
      requires Valid() && handler in async.handlers && CanPushTo(Abs(), event, async.handlers[handler], margin)
      modifies queues, Arrays(), alloc, alloc.pools
      ensures Valid() && alloc.pools == old(alloc.pools)
      ensures Abs() == PostEvent(old(Abs()), event, async.handlers[handler], lifo, margin)
      ensures ok
    {
      ok := Push(event, async.handlers[handler], lifo, margin);
    }

    /** am_event_inc_ref_cnt: the caller holds the event then. */
    method Keep(event: Event)
      requires Valid() && Allowed(Abs(), Inc(event))
      modifies alloc`refs, `holds
      ensures Valid() && Abs() == Hold(IncRef(old(Abs()), event), event)
    {
      hide IncRef, Alloc.Valid, Alloc.Abs, Async.Valid, EventQueue.Queue.Valid, EventQueue.Queue.Items;
      CountersFrame(Abs(), alloc.Abs(), event);
      CountersFrame(alloc.Abs(), Abs(), event);
      alloc.IncRefCnt(event);
      if event.Block? {
        holds := holds + multiset{event};
      }
    }

    /** am_event_free of an event in the caller's hands */
    method Release(event: Event)
      requires Valid() && Abs().Usable(event)
      modifies alloc, alloc.pools, `holds
      ensures Valid() && alloc.pools == old(alloc.pools)
      ensures Abs() == Unhold(FreeRef(old(Abs()), event), event)
    {
      hide FreeRef;
      GiveUp(event);
      if event.Block? {
        holds := holds - multiset{event};
      }
    }

    method GiveUp(event: Event)
      requires Valid() && Abs().Usable(event)
      modifies alloc, alloc.pools
      ensures Valid() && alloc.pools == old(alloc.pools)
      ensures Abs() == FreeRef(old(Abs()), event)
    {
      hide FreeRef, Alloc.Valid, Alloc.Abs, Async.Valid, EventQueue.Queue.Valid, EventQueue.Queue.Items;
      CountersFrame(alloc.Abs(), Abs(), event);
      alloc.FreeUnsafe(event);
    }

    /** The pop of am_event_queue_pop_front_with_cb; the free at its end, after the
        handler, is a Release. */
    method Take(q: nat) returns (event: Option<Event>)
      requires Valid() && q < |queues|
      modifies queues[q], `holds
      ensures Valid()
      ensures var items := old(Abs()).queues[q].items;
        if items == [] then event == None && Abs() == old(Abs())
        else event == Some(items[0]) && Abs() == EventSpec.Step(old(Abs()), Pop(q))
    {
      hide Alloc.Valid, Alloc.Abs, Async.Valid, EventQueue.Queue.Valid, EventQueue.Queue.Items, EventSpec.Step;
      ghost var s := Abs();
      PopStep(s, q);
      event := queues[q].PopFrontUnsafe();
      if event.Some? && event.value.Block? {
        holds := holds + multiset{event.value};
      }
      forall j | 0 <= j < |queues|
        ensures queues[j].Valid() && (j != q ==> queues[j].Abs() == s.queues[j])
      {
      }
    }

    /** The queues a publish of this event goes to, in order. */
    ghost function Order(si: nat, exclude: int): (qs: seq<nat>)
      reads this, alloc, alloc.pools, async, queues
      requires Valid() && si < |async.sub|
      ensures NoDup(qs) && forall k :: 0 <= k < |qs| ==> qs[k] < |queues|
    {
      DescendingMembers(Others(async.Subscribers(si), exclude), HANDLERS_NUM_MAX);
      Targets(async.handlers, Descending(Others(async.Subscribers(si), exclude), HANDLERS_NUM_MAX))
    }

    lemma OrderIs(si: nat, exclude: int)
      requires Valid() && si < |async.sub|
      ensures var order := Descending(Others(async.Subscribers(si), exclude), HANDLERS_NUM_MAX);
        && (forall k :: 0 <= k < |order| ==> order[k] in async.handlers)
        && Order(si, exclude) == Targets(async.handlers, order)
    {
      DescendingMembers(Others(async.Subscribers(si), exclude), HANDLERS_NUM_MAX);
    }

    /** am_event_async_publish: the event is pushed to the queue of each subscriber
        but the excluded one. The answer is true, whatever the queues did. */
    method Publish(event: Event, si: nat, exclude: int, lifo: bool, margin: nat) returns (ok: bool)
      requires Valid() && si < |async.sub| && CanPublish(Abs(), event, Order(si, exclude), lifo, margin)
      modifies queues, Arrays(), alloc, alloc.pools, `holds
      ensures Valid() && alloc.pools == old(alloc.pools)
      ensures Abs() == EventSpec.Publish(old(Abs()), event, old(Order(si, exclude)), lifo, margin)
      ensures forall q: nat :: Received(old(Abs()), Abs(), event, old(Order(si, exclude)), lifo, margin, q)
      ensures ok
    {
      hide CanPush, PushAll, FreeRef, IncRef, Hold, Unhold, Order, Targets, NoDup, Others, Descending, Fits, Received;
      forall q: nat {
        PublishedAt(Abs(), event, Order(si, exclude), lifo, margin, q);
      }
      OrderIs(si, exclude);
      Keep(event);
      var order := async.CallOrder(si, exclude);
      ok := PushEach(event, order, lifo, margin);
      Release(event);
    }

    method PushEach(event: Event, order: seq<nat>, lifo: bool, margin: nat) returns (ok: bool)
      requires Valid() && forall k :: 0 <= k < |order| ==> order[k] in async.handlers
      requires NoDup(Targets(async.handlers, order))
      requires CanPush(Abs(), event, Targets(async.handlers, order), lifo, margin)
      modifies queues, Arrays(), alloc, alloc.pools
      ensures Valid() && alloc.pools == old(alloc.pools) && Abs().Usable(event)
      ensures forall k :: 0 <= k < |order| ==> Targets(async.handlers, order)[k] < |old(Abs()).queues|
      ensures Abs() == PushAll(old(Abs()), event, Targets(async.handlers, order), lifo, margin)
      ensures ok
    {
      hide CanPush, PushAll, PostEvent, CanPushTo, Going, Fits, NoDup, Targets;
      hide Valid, Abs;
      ghost var qs := Targets(async.handlers, order);
      ghost var s := Abs();
      GoFirst(s, event, qs, lifo, margin);
      ok := true;
      var k := 0;
      while k < |order|
        invariant 0 <= k <= |order| && Valid() && alloc.pools == old(alloc.pools)
        invariant Going(s, Abs(), event, qs, k, lifo, margin) && ok
      {
        GoOn(s, Abs(), event, qs, k, lifo, margin);
        var pushed := Post(order[k], event, lifo, margin);
        if !pushed {
          ok := false;
        }
        k := k + 1;
      }
      GoLast(s, Abs(), event, qs, lifo, margin);
    }
  }
}
