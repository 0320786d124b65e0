/** The timer of libs/timer on its two linked lists. Every method is proved to do
    to the lists and events what TimerSpec says. */
module TimerEngine {
  import opened SList
  import opened TimerSpec

  class Timer {
    const events: List<Ev>
    const eventsPend: List<Ev>
    const it: Cursor<Ev>
    var nPend: int
    var nRunning: int

    /** the events the timer has seen */
    ghost var known: set<Item<Ev>>
    ghost var walking: bool
    ghost var tick: nat
    ghost var fired: seq<(nat, Item<Ev>)>

    ghost function Values(): map<Item<Ev>, Ev>
      reads `known, known`value
    {
      map x | x in known :: x.value
    }

    ghost function Abs(): State<Item<Ev>>
      reads this, events, eventsPend, it, known
    {
      State(eventsPend.Items(), events.Items(), if walking then it.pos else |events.Items()|, walking,
            Values(), tick, fired)
    }

    /** The counters are the lengths of the two disjoint lists, and an event in
        neither has no next item. */
    ghost predicate Shape()
      reads this, events, eventsPend, it, known, events.ring, eventsPend.ring
    {
      && events.Valid() && eventsPend.Valid() && events != eventsPend
      && it.list == events && it.Valid() && (!walking ==> it.pos == 0)
      && (forall x :: x in events.ring ==> x !in eventsPend.ring)
      && events.sentinel !in known && eventsPend.sentinel !in known
      && nPend == |eventsPend.Items()| && nRunning == |events.Items()|
      && forall x :: x in known && x !in events.ring && x !in eventsPend.ring ==> x.next == null
    }

    ghost predicate Valid()
      reads this, events, eventsPend, it, known, events.ring, eventsPend.ring
    {
      Shape() && Inv(Abs())
    }

    /** An event the timer has handled, or one just created. */
    ghost predicate Usable(e: Item<Ev>)
      reads this, e
    {
      && e != events.sentinel && e != eventsPend.sentinel
      && (e in known || (e.value == Idle && e.next == null))
    }

    constructor ()
      ensures Valid() && Abs() == Start<Item<Ev>>()
    {
      var running := new List<Ev>();
      var pend := new List<Ev>();
      var cursor := new Cursor<Ev>(running);
      events, eventsPend, it := running, pend, cursor;
      nPend, nRunning := 0, 0;
      known, walking, tick, fired := {}, false, 0, [];
    }

    /** An event has a next item exactly when it is in a list. */
    lemma LinkedIsListed(e: Item<Ev>)
      requires Shape() && Usable(e)
      ensures e.next != null <==> Abs().Linked(e)
      ensures e in events.ring <==> e in events.Items()
      ensures e in eventsPend.ring <==> e in eventsPend.Items()
    {
      assert events.ring == [events.sentinel] + events.Items();
      assert eventsPend.ring == [eventsPend.sentinel] + eventsPend.Items();
      if e in events.ring {
        events.InRing(e);
      }
      if e in eventsPend.ring {
        eventsPend.InRing(e);
      }
    }

    /** ... and exactly when it is owned. */
    lemma LinkedIsOwned(e: Item<Ev>)
      requires Valid() && Usable(e)
      ensures e.next != null <==> e.value.owned
      ensures Abs().Get(e) == e.value
    {
      LinkedIsListed(e);
      BookOf(Abs(), e);
    }

    /** Writes an event's fields. */
    method Write(e: Item<Ev>, ev: Ev)
      requires Shape() && Usable(e)
      modifies `known, e`value
      ensures Shape() && known == old(known) + {e} && Values() == old(Values())[e := ev] && e.value == ev
    {
      hide NoDup;
      LinkedIsListed(e);
      e.value := ev;
      known := known + {e};
    }

    method PushPend(e: Item<Ev>)
      requires Shape() && e in known && e.next == null
      modifies `nPend, eventsPend`back, eventsPend`ring, eventsPend.back`next, e`next
      ensures Shape() && eventsPend.Items() == old(eventsPend.Items()) + [e]
    {
      LinkedIsListed(e);
      assert eventsPend.back in eventsPend.ring;
      eventsPend.PushBack(e);
      nPend := nPend + 1;
    }

    /** am_slist_iterator_pop and the counter, for the event just answered. */
    method PopCurrent(e: Item<Ev>)
      requires Shape() && it.pos > 0 && it.prev != null && it.cur == e && walking
      modifies `nRunning, it`cur, it`prev, it`pos, events`back, events`ring, it.prev`next, it.cur`next
      ensures Shape() && it.pos == old(it.pos) - 1
      ensures 0 <= old(it.pos) - 1 < |old(events.Items())|
      ensures events.Items() == Remove(old(events.Items()), old(it.pos) - 1)
      ensures eventsPend.Items() == old(eventsPend.Items())
    {
      hide NoDup, Chained, Remove;
      ghost var ring, at := events.ring, it.pos;
      assert it.cur in ring && it.prev in ring && |events.Items()| > 0;
      RemoveTail(ring, at);
      var pop := it.Pop();
      assert eventsPend.Valid();
      nRunning := nRunning - 1;
      forall x | x in known && x !in events.ring && x !in eventsPend.ring
        ensures x.next == null
      {
        if x != pop {
          assert x !in ring;
        }
      }
    }

    method Arm(e: Item<Ev>, ticks: nat, interval: nat)
      requires Valid() && Usable(e) && interval < 0x7FFF_FFFF
      modifies `nPend, `known, e, eventsPend`back, eventsPend`ring, eventsPend.back`next
      ensures Valid() && Abs() == DoArm(old(Abs()), e, ticks, interval)
      ensures e.value == Ev(true, if ticks == 0 then 1 else ticks, interval, false)
      ensures events.Items() == old(events.Items())
      ensures eventsPend.Items() == old(eventsPend.Items()) + if old(e.next) == null then [e] else []
    {
      hide Inv, NoDup, Chained;
      ghost var s := Abs();
      LinkedIsListed(e);
      StepInv(s, TimerSpec.Arm(e, ticks, interval));
      Write(e, Ev(true, AtLeastOne(ticks), interval, false));
      if e.next == null {
        PushPend(e);
        assert Abs() == DoArm(s, e, ticks, interval);
      } else {
        assert Abs() == DoArm(s, e, ticks, interval);
      }
    }

    method Disarm(e: Item<Ev>) returns (wasArmed: bool)
      requires Valid() && Usable(e)
      modifies `known, e`value
      ensures Valid() && Abs() == DoDisarm(old(Abs()), e)
      ensures wasArmed <==> old(e.value.owned) && !old(e.value.disarm)
      ensures e.value == if old(e.value.owned) then Ev(true, 0, 0, true) else old(e.value)
    {
      hide Inv;
      ghost var s := Abs();
      LinkedIsOwned(e);
      StepInv(s, TimerSpec.Disarm(e));
      wasArmed := e.value.owned && !e.value.disarm;
      if e.value.owned {
        Write(e, Ev(true, 0, 0, true));
      }
    }

    predicate IsArmed(e: Item<Ev>)
      reads this, events, eventsPend, it, known, events.ring, eventsPend.ring, e
      requires Valid() && Usable(e)
      ensures IsArmed(e) <==> Abs().Linked(e) && !Abs().Get(e).disarm
    {
      LinkedIsOwned(e);
      LinkedIsListed(e);
      e.next != null && e.value.owned && !e.value.disarm
    }

    method MovePending()
      requires Shape()
      requires it.pos == 0 && it.prev == null
      modifies `nPend, `nRunning, events`back, events`ring, eventsPend`back, eventsPend`ring
      modifies events.back`next, eventsPend.back`next, eventsPend.sentinel`next
      ensures Shape()
      ensures events.Items() == old(events.Items()) + old(eventsPend.Items()) && eventsPend.Items() == []
    {
      assert events.back in events.ring && eventsPend.back in eventsPend.ring && eventsPend.sentinel in eventsPend.ring;
      if !eventsPend.IsEmpty() {
        events.Append(eventsPend);
        nRunning := nRunning + nPend;
        nPend := 0;
      }
    }

    method Rewind()
      requires Shape() && !walking
      modifies `walking, `tick, it
      ensures Shape() && Abs() == old(Abs()).(cur := 0, walking := true, tick := old(tick) + 1)
      ensures it.pos == 0 && it.prev == null && it.list == events
    {
      hide NoDup, Chained;
      ghost var s := Abs();
      it.Init(events);
      walking, tick := true, tick + 1;
      assert Abs().cur == 0 && Abs().evs == s.evs;
    }

    method TickIteratorInit()
      requires Valid() && !walking
      modifies this, it, events, eventsPend, events.back`next, eventsPend.back`next, eventsPend.sentinel`next
      ensures Valid() && Abs() == DoTick(old(Abs()))
      ensures events.Items() == old(events.Items()) + old(eventsPend.Items()) && eventsPend.Items() == []
    {
      hide Inv, Shape;
      ghost var s := Abs();
      StepInv(s, Tick);
      Rewind();
      MovePending();
      assert Abs() == DoTick(s);
    }

    /** The state with the iterator still before the event it has moved on to. */
    ghost function Behind(): (s: State<Item<Ev>>)
      reads this, events, eventsPend, it, known
      requires it.pos > 0
    {
      Abs().(cur := it.pos - 1)
    }

    lemma AtCurrent()
      requires Shape() && it.pos > 0
      ensures Behind().cur < |Behind().running| && Behind().running[Behind().cur] == it.cur
      ensures it.cur in known ==> Usable(it.cur) && Behind().Get(it.cur) == it.cur.value
    {
    }

    /** Removes the event the iterator has moved on to. */
    method Drop(p: Item<Ev>, ev: Ev)
      requires Shape() && walking && it.pos > 0 && it.prev != null && it.cur == p && p in known && Usable(p)
      modifies `nRunning, `known, it`cur, it`prev, it`pos, events`back, events`ring, it.prev`next, p
      ensures Shape() && old(Behind()).cur < |old(Behind()).running| && Abs() == Unlink(old(Behind())).Put(p, ev)
      ensures known == old(known)
    {
      hide Shape;
      ghost var s := Behind();
      PopCurrent(p);
      assert Values() == s.evs;
      assert events.Items() == Unlink(s).running;
      Write(p, ev);
      assert Values() == s.evs[p := ev] && events.Items() == Unlink(s).running && eventsPend.Items() == s.pend;
    }

    method Keep(p: Item<Ev>, ev: Ev)
      requires Shape() && walking && it.pos > 0 && it.cur == p && p in known && Usable(p)
      modifies `known, p`value
      ensures Shape() && Abs() == old(Behind()).(cur := it.pos).Put(p, ev)
      ensures known == old(known)
    {
      hide Shape;
      Write(p, ev);
    }

    /** The countdown and removal of the event the iterator has moved on to. */
    method Handle(p: Item<Ev>) returns (fires: bool)
      requires Shape() && walking && it.pos > 0 && it.prev != null && it.cur == p && p in known
      requires p.value.disarm || p.value.oneshot > 0
      requires Behind().cur < |Behind().running| && Behind().running[Behind().cur] == p
      modifies `nRunning, `known, `fired, it`cur, it`prev, it`pos, events`back, events`ring, it.prev`next, p
      ensures Shape() && var (s, f) := Visit(old(Behind())); Abs() == s && fires == f
      ensures known == old(known) && fired == old(fired) + if fires then [(tick, p)] else []
    {
      hide Shape, Unlink;
      AtCurrent();
      var ev := p.value;
      if ev.disarm {
        Drop(p, ev.(owned := false, disarm := false));
        return false;
      }
      ev := ev.(oneshot := ev.oneshot - 1);
      if ev.oneshot > 0 {
        Keep(p, ev);
        return false;
      }
      if ev.interval > 0 {
        Keep(p, ev.(oneshot := ev.interval));
      } else {
        Drop(p, ev.(owned := false));
      }
      Fire(p);
      return true;
    }

    method Fire(p: Item<Ev>)
      requires Shape()
      modifies `fired
      ensures Shape() && Abs() == old(Abs()).(fired := old(fired) + [(tick, p)])
    {
      fired := fired + [(tick, p)];
    }

    /** Walks on to the next event, if there is one. */
    method Advance() returns (p: Item?<Ev>)
      requires Shape() && walking
      modifies `walking, it`cur, it`prev, it`pos
      ensures Shape()
      ensures p == null <==> old(Abs()).cur == |old(Abs()).running|
      ensures p == null ==> !walking && Abs() == old(Abs()).(walking := false)
      ensures p != null ==> walking && it.pos > 0 && it.prev != null && it.cur == p && Behind() == old(Abs())
      ensures p != null ==> it.prev == events.sentinel || it.prev in events.Items()
      ensures p != null ==> old(Abs()).cur < |old(Abs()).running| && p == old(Abs()).running[old(Abs()).cur]
    {
      hide NoDup, Chained;
      ghost var items := events.Items();
      p := it.Next();
      assert eventsPend.Valid() && events.Items() == items && Values() == old(Values());
      if p == null {
        walking := false;
      } else {
        assert p == items[it.pos - 1];
      }
    }

    ghost function Left(): int
      reads this, events, eventsPend, it, known
    {
      |Abs().running| - Abs().cur
    }

    /** One turn of the loop in am_timer_tick_iterator_next. */
    method Turn() returns (p: Item?<Ev>, fires: bool)
      requires Valid() && walking
      modifies this, it, events, events.sentinel, known
      ensures Valid() && known == old(known)
      ensures DoNext(old(Abs())) == if p == null || fires then Abs() else DoNext(Abs())
      ensures p == null ==> !walking && !fires && fired == old(fired)
      ensures p != null ==> walking && old(Left()) > 0 && Left() == old(Left()) - 1
      ensures p != null ==> fired == old(fired) + if fires then [(tick, p)] else []
    {
      hide Shape, Inv, Visit, DoNext;
      ListedIsKnown();
      ghost var s := Abs();
      DoNextUnfold(s);
      NextInv(s);
      p := Advance();
      if p == null {
        return p, false;
      }
      VisitInv(s);
      CurrentIsKnown(s);
      assert Behind() == s;
      fires := Handle(p);
    }

    lemma DoNextUnfold(s: State<Item<Ev>>)
      ensures s.cur >= |s.running| ==> DoNext(s) == s.(walking := false)
      ensures s.cur < |s.running| ==> DoNext(s) == if Visit(s).1 then Visit(s).0 else DoNext(Visit(s).0)
    {
    }

    lemma ListedIsKnown()
      requires Valid()
      ensures forall x :: x in events.Items() ==> x in known
    {
    }

    lemma CurrentIsKnown(s: State<Item<Ev>>)
      requires Inv(s) && s.cur < |s.running|
      ensures var e := s.running[s.cur]; e in s.evs && (s.Get(e).disarm || s.Get(e).oneshot > 0)
    {
      BookOf(s, s.running[s.cur]);
    }

    lemma CountIsLength()
      requires Valid()
      ensures nRunning >= Left()
    {
    }

    /** Walks on to the next event that fires. */
    method TickIteratorNext() returns (event: Item?<Ev>)
      requires Valid() && walking
      modifies this, it, events, events.sentinel, known
      ensures Valid() && Abs() == DoNext(old(Abs()))
      ensures event == null <==> !walking
      ensures event == null ==> fired == old(fired)
      ensures event != null ==> fired == old(fired) + [(tick, event)]
    {
      hide *;
      CountIsLength();
      var nEvents := nRunning;
      ghost var all := known;
      while true
        invariant Valid() && walking && known == all && fired == old(fired)
        invariant nEvents >= Left()
        invariant DoNext(Abs()) == DoNext(old(Abs()))
        decreases Left()
      {
        var p, fires := Turn();
        if p == null {
          return null;
        }
        assert nEvents > 0;
        nEvents := nEvents - 1;
        if fires {
          return p;
        }
      }
    }
  }
}
