/** The order in which events leave a queue, over any run. */
module EventOrder {
  import opened EventSpec
  import opened EventBus
  import opened SList

  /** What an action posts to queue q, if there is room, and what it pops from it. */
  function PostedBy(s: State, a: Action, q: nat): seq<Event> {
    if Allowed(s, a) && a.Post? && a.queue == q && |s.queues[q].items| + a.margin < s.queues[q].capacity
    then [a.event] else []
  }

  function PoppedBy(s: State, a: Action, q: nat): seq<Event> {
    if Allowed(s, a) && a == Pop(q) then [s.queues[q].items[0]] else []
  }

  /** The same over a run, in the order of the posts and of the pops. */
  function Posted(s: State, acts: seq<Action>, q: nat): seq<Event> {
    if acts == [] then []
    else Posted(s, acts[..|acts| - 1], q) + PostedBy(Run(s, acts[..|acts| - 1]), acts[|acts| - 1], q)
  }

  function Popped(s: State, acts: seq<Action>, q: nat): seq<Event> {
    if acts == [] then []
    else Popped(s, acts[..|acts| - 1], q) + PoppedBy(Run(s, acts[..|acts| - 1]), acts[|acts| - 1], q)
  }

  predicate Fifo(acts: seq<Action>, q: nat) {
    forall a :: a in acts && a.Post? && a.queue == q ==> !a.lifo
  }

  /** One step moves the events of a queue between these three and loses none. */
  lemma StepOrder(s: State, a: Action, q: nat)
    requires q < |s.queues| && (a.Post? && a.queue == q ==> !a.lifo)
    ensures |Step(s, a).queues| == |s.queues|
    ensures PoppedBy(s, a, q) + Step(s, a).queues[q].items == s.queues[q].items + PostedBy(s, a, q)
  {
    hide FreeRef, AllocateEvent;
    if Allowed(s, a) {
      match a
      case Allocate(pool, margin) => AllocateQueues(s, pool, margin);
      case Drop(e) => FreeQueues(s, e);
      case Post(e, _, _, _) => FreeQueues(s, e);
      case Inc(_) =>
      case Pop(_) =>
    }
  }

  lemma FreeQueues(s: State, e: Event)
    requires s.Usable(e)
    ensures FreeRef(s, e).queues == s.queues
  {
  }

  lemma AllocateQueues(s: State, pool: nat, margin: nat)
    requires pool < |s.pools|
    ensures AllocateEvent(s, pool, margin).0.queues == s.queues
  {
  }

  /** With posts to the back only, what was in the queue and what was posted comes out
      in that order, and the rest is in the queue. */
  lemma {:induction false} FirstInFirstOut(s: State, acts: seq<Action>, q: nat)
    requires q < |s.queues| && Fifo(acts, q)
    ensures |Run(s, acts).queues| == |s.queues|
    ensures Popped(s, acts, q) + Run(s, acts).queues[q].items == s.queues[q].items + Posted(s, acts, q)
    decreases |acts|
  {
    hide Step, PostedBy, PoppedBy;
    if acts != [] {
      var n := |acts| - 1;
      var t, a := Run(s, acts[..n]), acts[n];
      FirstInFirstOut(s, acts[..n], q);
      StepOrder(t, a, q);
      calc {
        Popped(s, acts, q) + Run(s, acts).queues[q].items;
        Popped(s, acts[..n], q) + (PoppedBy(t, a, q) + Step(t, a).queues[q].items);
        Popped(s, acts[..n], q) + t.queues[q].items + PostedBy(t, a, q);
        s.queues[q].items + Posted(s, acts[..n], q) + PostedBy(t, a, q);
        s.queues[q].items + Posted(s, acts, q);
      }
    }
  }

  /** A new queue with posts to the back only: the events popped are the first of those
      posted, in the order of the posts. */
  lemma PoppedInOrder(totals: seq<nat>, capacities: seq<nat>, acts: seq<Action>, q: nat)
    requires q < |capacities| && Fifo(acts, q)
    ensures var s := Init(totals, capacities); Popped(s, acts, q) <= Posted(s, acts, q)
  {
    var s := Init(totals, capacities);
    FirstInFirstOut(s, acts, q);
    assert [] + Posted(s, acts, q) == Posted(s, acts, q);
  }

  /** An event posted to the front is the next one popped, and leaves the queue as it was. */
  lemma FrontFirst(s: State, e: Event, q: nat, margin: nat)
    requires Allowed(s, Post(e, q, true, margin)) && |s.queues[q].items| + margin < s.queues[q].capacity
    ensures var s1 := Step(s, Post(e, q, true, margin)); var acts := [Post(e, q, true, margin), Pop(q)];
      Allowed(s1, Pop(q)) && Popped(s, acts, q) == [e] && Run(s, acts).queues == s.queues
  {
    var a := Post(e, q, true, margin);
    var acts := [a, Pop(q)];
    assert acts[..1] == [a] && [a][..0] == [];
    assert Run(s, [a]) == Step(s, a) && Popped(s, [a], q) == [];
    assert Run(s, acts) == Step(Step(s, a), Pop(q));
    assert Run(s, acts).queues[q].items == s.queues[q].items;
  }

  // ---------------------------------------------------------------------- publishing

  /** The steps of a publish: hold the event, post it to each queue, drop it. */
  function Posts(e: Event, qs: seq<nat>, lifo: bool, margin: nat): (acts: seq<Action>)
    ensures |acts| == |qs| && forall k :: 0 <= k < |qs| ==> acts[k] == Post(e, qs[k], lifo, margin)
  {
    seq(|qs|, k requires 0 <= k < |qs| => Post(e, qs[k], lifo, margin))
  }

  lemma {:induction false} RunOn(s: State, a: seq<Action>, b: seq<Action>)
    ensures Run(s, a + b) == Run(Run(s, a), b)
    decreases |b|
  {
    hide Step;
    if b == [] {
      assert a + b == a;
    } else {
      var n := |b| - 1;
      RunOn(s, a, b[..n]);
      assert (a + b)[..|a| + n] == a + b[..n];
    }
  }

  lemma RunFirst(s: State, a: Action, b: seq<Action>)
    ensures Run(s, [a] + b) == Run(Step(s, a), b)
  {
    hide Step;
    RunOn(s, [a], b);
    assert [a][..0] == [];
    assert Run(s, [a]) == Step(s, a);
  }

  lemma PostIsStep(s: State, e: Event, q: nat, lifo: bool, margin: nat)
    requires CanPushTo(s, e, q, margin) && (e.Static? || Fits(s.queues[q], margin))
    ensures Step(s, Post(e, q, lifo, margin)) == PostEvent(s, e, q, lifo, margin)
  {
  }

  lemma {:induction false} PushAllIsRun(s: State, e: Event, qs: seq<nat>, lifo: bool, margin: nat)
    requires forall k :: 0 <= k < |qs| ==> qs[k] < |s.queues|
    requires CanPush(s, e, qs, lifo, margin) && NoDup(qs) && (e.Static? || AllFit(s, qs, margin))
    ensures PushAll(s, e, qs, lifo, margin) == Run(s, Posts(e, qs, lifo, margin))
    decreases |qs|
  {
    hide PostEvent, Fits;
    if qs != [] {
      var s' := PostEvent(s, e, qs[0], lifo, margin);
      AllFitAfter(s, e, qs, lifo, margin);
      PostIsStep(s, e, qs[0], lifo, margin);
      PushAllIsRun(s', e, qs[1..], lifo, margin);
      assert Posts(e, qs, lifo, margin) == [Post(e, qs[0], lifo, margin)] + Posts(e, qs[1..], lifo, margin);
      RunFirst(s, Post(e, qs[0], lifo, margin), Posts(e, qs[1..], lifo, margin));
    }
  }

  /** A publish that can be done, of an event in static memory or with room everywhere,
      is a run of allowed steps: what holds over runs holds over publishing, the
      order of the queues and the books included. */
  lemma PublishIsRun(s: State, e: Event, qs: seq<nat>, lifo: bool, margin: nat)
    requires CanPublish(s, e, qs, lifo, margin) && NoDup(qs) && (e.Static? || AllFit(s, qs, margin))
    ensures EventSpec.Publish(s, e, qs, lifo, margin) == Run(s, [Inc(e)] + Posts(e, qs, lifo, margin) + [Drop(e)])
  {
    var s1, posts := Hold(IncRef(s, e), e), Posts(e, qs, lifo, margin);
    KeepQueues(s, e);
    assert Allowed(s, Inc(e)) && Step(s, Inc(e)) == s1;
    PushAllIsRun(s1, e, qs, lifo, margin);
    PushAllHolds(s1, e, qs, lifo, margin);
    var s2 := PushAll(s1, e, qs, lifo, margin);
    CanPushEnds(s1, e, qs, lifo, margin);
    RunOn(s, [Inc(e)] + posts, [Drop(e)]);
    RunFirst(s, Inc(e), posts);
    RunFirst(s2, Drop(e), []);
    assert [Drop(e)] + [] == [Drop(e)];
    assert Allowed(s2, Drop(e));
  }

  lemma {:induction false} CanPushEnds(s: State, e: Event, qs: seq<nat>, lifo: bool, margin: nat)
    requires forall k :: 0 <= k < |qs| ==> qs[k] < |s.queues|
    requires CanPush(s, e, qs, lifo, margin)
    ensures PushAll(s, e, qs, lifo, margin).Usable(e)
    decreases |qs|
  {
    if qs != [] {
      CanPushEnds(PostEvent(s, e, qs[0], lifo, margin), e, qs[1..], lifo, margin);
    }
  }
}
