/** The circular event queue of libs/event, proved to be a bounded double-ended
    queue whose pushes and pops move references. */
module EventQueue {
  import opened Arithmetic
  import opened EventAlloc
  import opened EventSpec
  import opened Options
  import opened PoolSpec
  import opened SList

  datatype Rc = RcOk | RcErr | RcQueueWasEmpty

  /** (i + 1) % n */
  function Next(i: nat, n: nat): (r: nat)
    requires i < n
    ensures r == if i + 1 == n then 0 else i + 1
  {
    DivUnique(i + 1, n, if i + 1 == n then 1 else 0, if i + 1 == n then 0 else i + 1);
    (i + 1) % n
  }

  /** The slot i places after rd in a ring of n. */
  function Slot(rd: nat, i: nat, n: nat): (r: nat)
    requires rd < n && i <= n
    ensures r < n
  {
    if rd + i < n then rd + i else rd + i - n
  }

  /** The `busy` elements of a ring that start at rd. */
  function Ring<T>(a: seq<T>, rd: nat, busy: nat): (s: seq<T>)
    requires rd < |a| && busy <= |a|
    ensures |s| == busy && forall i :: 0 <= i < busy ==> s[i] == a[Slot(rd, i, |a|)]
  {
    if busy == 0 then [] else Ring(a, rd, busy - 1) + [a[Slot(rd, busy - 1, |a|)]]
  }

  lemma RingPushBack<T>(a: seq<T>, rd: nat, busy: nat, x: T)
    requires rd < |a| && busy < |a|
    ensures Ring(a[Slot(rd, busy, |a|) := x], rd, busy + 1) == Ring(a, rd, busy) + [x]
  {
    var a' := a[Slot(rd, busy, |a|) := x];
    forall i | 0 <= i < busy
      ensures Ring(a', rd, busy + 1)[i] == Ring(a, rd, busy)[i]
    {
      assert Slot(rd, i, |a|) != Slot(rd, busy, |a|);
    }
  }

  lemma RingPushFront<T>(a: seq<T>, rd: nat, busy: nat, x: T)
    requires rd < |a| && busy < |a|
    ensures var rd' := if rd > 0 then rd - 1 else |a| - 1;
      Ring(a[rd' := x], rd', busy + 1) == [x] + Ring(a, rd, busy)
  {
    var rd' := if rd > 0 then rd - 1 else |a| - 1;
    forall i | 0 <= i < busy
      ensures Ring(a[rd' := x], rd', busy + 1)[i + 1] == Ring(a, rd, busy)[i]
    {
      assert Slot(rd', i + 1, |a|) == Slot(rd, i, |a|) != rd';
    }
  }

  lemma RingPop<T>(a: seq<T>, rd: nat, busy: nat)
    requires rd < |a| && 0 < busy <= |a|
    ensures Ring(a, rd, busy)[0] == a[rd]
    ensures Ring(a, Next(rd, |a|), busy - 1) == Ring(a, rd, busy)[1..]
  {
    var rest := Ring(a, Next(rd, |a|), busy - 1);
    forall i | 1 <= i < busy
      ensures Ring(a, rd, busy)[i] == rest[i - 1]
    {
      assert Slot(Next(rd, |a|), i - 1, |a|) == Slot(rd, i, |a|);
    }
  }

  class Queue {
    const alloc: Alloc
    const events: array<Event>
    var rd: nat
    var wr: nat
    var nFree: int
    var nFreeMin: int
    var full: bool

    ghost predicate Valid()
      reads this
    {
      var n := events.Length;
      && rd < n && wr < n && 0 <= nFreeMin <= nFree <= n
      && wr == Slot(rd, n - nFree, n)
      && (full <==> nFree == 0)
    }

    ghost function Items(): (s: seq<Event>)
      reads this, events
      requires Valid()
      ensures |s| == events.Length - nFree
    {
      Ring(events[..], rd, events.Length - nFree)
    }

    ghost function Abs(): EventSpec.Queue
      reads this, events
      requires Valid()
    {
      EventSpec.Queue(Items(), events.Length)
    }

    constructor (events: array<Event>, alloc: Alloc)
      requires events.Length > 0
      ensures Valid() && Items() == [] && this.events == events && this.alloc == alloc && nFreeMin == events.Length
    {
      this.events, this.alloc := events, alloc;
      rd, wr, full := 0, 0, false;
      nFree, nFreeMin := events.Length, events.Length;
    }

    /** am_event_queue_is_empty_unsafe */
    predicate IsEmpty()
      reads this, events
      requires Valid()
      ensures IsEmpty() <==> Items() == []
    {
      rd == wr && !full
    }

    method StoreFront(event: Event)
      requires Valid() && nFree > 0
      modifies `rd, events
      ensures rd == if old(rd) > 0 then old(rd) - 1 else events.Length - 1
      ensures Ring(events[..], rd, events.Length - nFree + 1) == [event] + old(Items())
    {
      hide Ring, Slot;
      RingPushFront(events[..], rd, events.Length - nFree, event);
      ghost var a := events[..];
      rd := if rd > 0 then rd - 1 else events.Length - 1;
      events[rd] := event;
      assert events[..] == a[rd := event];
    }

    method StoreBack(event: Event)
      requires Valid() && nFree > 0
      modifies `wr, events
      ensures wr == Next(old(wr), events.Length)
      ensures Ring(events[..], rd, events.Length - nFree + 1) == old(Items()) + [event]
    {
      hide Ring, Slot;
      RingPushBack(events[..], rd, events.Length - nFree, event);
      ghost var a := events[..];
      events[wr] := event;
      assert events[..] == a[wr := event];
      wr := Next(wr, events.Length);
    }

    /** The ring of am_event_queue_push_unsafe. */
    method Put(event: Event, lifo: bool)
      requires Valid() && nFree > 0
      modifies `rd, `wr, `nFree, `nFreeMin, `full, events
      ensures Valid() && Items() == if lifo then [event] + old(Items()) else old(Items()) + [event]
      ensures nFreeMin == Min(old(nFreeMin), nFree)
    {
      hide Ring, Next;
      if lifo {
        StoreFront(event);
      } else {
        StoreBack(event);
      }
      if wr == rd {
        full := true;
      }
      nFree := nFree - 1;
      nFreeMin := Min(nFree, nFreeMin);
    }

    /** am_event_queue_push_unsafe: QueueWasEmpty exactly when there was nothing in
        the queue, Err exactly when no more than `margin` slots were free, and
        then the event loses a reference. */
    method PushUnsafe(event: Event, lifo: bool, margin: nat) returns (rc: Rc)
      requires Valid() && alloc.Valid() && margin < events.Length && alloc.Abs().Usable(event)
      requires if Fits(Abs(), margin) then alloc.Abs().Refs(event) < REF_COUNTER_MAX else margin > 0
      modifies `rd, `wr, `nFree, `nFreeMin, `full, events, alloc, alloc.pools
      ensures Valid() && alloc.Valid() && alloc.pools == old(alloc.pools)
      ensures rc == if !Fits(old(Abs()), margin) then RcErr else if old(Items()) == [] then RcQueueWasEmpty else RcOk
      ensures rc == RcErr <==> |old(Items())| + margin >= events.Length
      ensures rc == RcErr ==> Items() == old(Items())
      ensures rc != RcErr ==> Items() == if lifo then [event] + old(Items()) else old(Items()) + [event]
      ensures Abs() == if Fits(old(Abs()), margin) then Enqueue(old(Abs()), event, lifo) else old(Abs())
      ensures alloc.Abs() ==
        if Fits(old(Abs()), margin) then IncRef(old(alloc.Abs()), event) else FreeRef(old(alloc.Abs()), event)
      ensures nFreeMin == Min(old(nFreeMin), nFree)
    {
      hide Ring, FreeRef, IncRef, Alloc.Valid, Alloc.Abs;
      if nFree <= margin {
        alloc.FreeUnsafe(event);
        assert margin > 0;
        return RcErr;
      }
      assert nFree > 0 && !full;
      alloc.IncRefCnt(event);
      var wasEmpty := events.Length == nFree;
      Put(event, lifo);
      return if wasEmpty then RcQueueWasEmpty else RcOk;
    }

    /** am_event_queue_pop_front_unsafe */
    method PopFrontUnsafe() returns (event: Option<Event>)
      requires Valid()
      modifies `rd, `nFree, `full
      ensures Valid()
      ensures if old(Items()) == [] then event == None && Items() == []
              else event == Some(old(Items())[0]) && Items() == old(Items())[1..]
    {
      if IsEmpty() {
        return None;
      }
      RingPop(events[..], rd, events.Length - nFree);
      event := Some(events[rd]);
      rd := Next(rd, events.Length);
      full := false;
      nFree := nFree + 1;
    }

    /** am_event_queue_flush_unsafe: everything is popped and loses a reference. */
    method FlushUnsafe() returns (cnt: nat)
      requires Valid() && alloc.Valid() && CanFree(alloc.Abs(), Items())
      modifies `rd, `nFree, `full, alloc, alloc.pools
      ensures Valid() && alloc.Valid() && alloc.pools == old(alloc.pools)
      ensures Items() == [] && cnt == |old(Items())|
      ensures alloc.Abs() == FreeRefs(old(alloc.Abs()), old(Items()))
    {
      hide Ring, FreeRef, Slot, Alloc.Valid, Alloc.Abs;
      cnt := 0;
      var e := PopFrontUnsafe();
      while e.Some?
        invariant Valid() && alloc.Valid() && alloc.pools == old(alloc.pools)
        invariant e.None? ==> Items() == [] && cnt == |old(Items())|
        invariant e.None? ==> alloc.Abs() == FreeRefs(old(alloc.Abs()), old(Items()))
        invariant e.Some? ==> cnt + 1 + |Items()| == |old(Items())| && CanFree(alloc.Abs(), [e.value] + Items())
        invariant e.Some? ==> FreeRefs(alloc.Abs(), [e.value] + Items()) == FreeRefs(old(alloc.Abs()), old(Items()))
        decreases e.Some?, |Items()|
      {
        cnt := cnt + 1;
        assert cnt <= events.Length;
        assert ([e.value] + Items())[1..] == Items();
        alloc.FreeUnsafe(e.value);
        ghost var items := Items();
        e := PopFrontUnsafe();
        assert e.Some? ==> items == [e.value] + Items();
      }
    }
  }
}
