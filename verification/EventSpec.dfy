/** Reference counted events in pools, queues and users' hands (libs/event).
    The counters, the queue slots and the holds are kept as three separate
    things; that they agree is proved, not built in. */
module EventSpec {
  import opened Options
  import opened PoolSpec
  import opened SList

  /** An event: one in static memory, or a block of a pool. */
  datatype Event = Static(id: nat) | Block(pool: nat, index: nat)

  datatype Queue = Queue(items: seq<Event>, capacity: nat)

  /** `refs` is ref_counter of each pool event. `holds` counts the references
      that are not in a queue: those of am_event_inc_ref_cnt, of a publisher while
      it publishes, and of a handler while it runs. */
  datatype State = State(pools: seq<Pool>, refs: map<Event, nat>, queues: seq<Queue>, holds: multiset<Event>)
  {
    predicate Live(e: Event) { e.Block? && e.pool < |pools| && pools[e.pool].Live(e.index) }
    predicate Usable(e: Event) { e.Static? || Live(e) }
    function Refs(e: Event): nat { if e in refs then refs[e] else 0 }
  }

  const REF_COUNTER_MAX: nat := 127

  datatype Action =
    | Allocate(pool: nat, margin: nat)
    | Inc(event: Event)
    | Drop(event: Event)
    | Post(event: Event, queue: nat, lifo: bool, margin: nat)
    | Pop(queue: nat)

  function Init(totals: seq<nat>, capacities: seq<nat>): State {
    State(seq(|totals|, i requires 0 <= i < |totals| => PoolSpec.Init(totals[i])), map[],
          seq(|capacities|, i requires 0 <= i < |capacities| => Queue([], capacities[i])), multiset{})
  }

  // -------------------------------------------------- pool events and their counters

  /** am_event_free_unsafe: the last reference returns the block to its pool. */
  function FreeRef(s: State, e: Event): State
    requires s.Usable(e)
  {
    if e.Static? then s
    else if s.Refs(e) > 1 then s.(refs := s.refs[e := s.Refs(e) - 1])
    else s.(pools := s.pools[e.pool := Free(s.pools[e.pool], e.index)])
  }

  /** ++ref_counter of a pool event */
  function IncRef(s: State, e: Event): State {
    if e.Static? then s else s.(refs := s.refs[e := s.Refs(e) + 1])
  }

  function AllocateEvent(s: State, pool: nat, margin: nat): (State, Option<Event>)
    requires pool < |s.pools|
  {
    var (p, r) := PoolSpec.Allocate(s.pools[pool], margin);
    if r.None? then (s, None)
    else
      var e := Block(pool, r.value);
      (s.(pools := s.pools[pool := p], refs := s.refs[e := 0]), Some(e))
  }

  // ------------------------------------------------------------------------- queues

  predicate Fits(q: Queue, margin: nat) { |q.items| + margin < q.capacity }

  function Enqueue(q: Queue, e: Event, lifo: bool): Queue {
    q.(items := if lifo then [e] + q.items else q.items + [e])
  }

  /** am_event_queue_push_unsafe; an event that does not fit loses a reference. */
  function PostEvent(s: State, e: Event, q: nat, lifo: bool, margin: nat): State
    requires q < |s.queues| && s.Usable(e)
  {
    if !Fits(s.queues[q], margin) then FreeRef(s, e)
    else
      var s' := IncRef(s, e);
      s'.(queues := s.queues[q := Enqueue(s.queues[q], e, lifo)])
  }

  function Hold(s: State, e: Event): State { if e.Static? then s else s.(holds := s.holds + multiset{e}) }
  function Unhold(s: State, e: Event): State { if e.Static? then s else s.(holds := s.holds - multiset{e}) }

  /** What users owe: events they use are static or live, counters stay within 127,
      who drops a reference holds one (or the event has none yet), and a post
      that fails has a margin and an event with no references. */
  predicate Allowed(s: State, a: Action) {
    match a
    case Allocate(pool, margin) => pool < |s.pools|
    case Inc(e) => s.Usable(e) && s.Refs(e) < REF_COUNTER_MAX
    case Drop(e) => e.Static? || (s.Live(e) && (e in s.holds || s.Refs(e) == 0))
    case Post(e, q, lifo, margin) =>
      && q < |s.queues| && margin < s.queues[q].capacity && s.Usable(e)
      && if Fits(s.queues[q], margin) then s.Refs(e) < REF_COUNTER_MAX
         else margin > 0 && (e.Static? || s.Refs(e) == 0)
    case Pop(q) => q < |s.queues| && s.queues[q].items != []
  }

  /** A popped event's queue slot becomes a hold of the handler, which Drop ends. */
  function Step(s: State, a: Action): State {
    if !Allowed(s, a) then s else
    match a
    case Allocate(pool, margin) => AllocateEvent(s, pool, margin).0
    case Inc(e) => Hold(IncRef(s, e), e)
    case Drop(e) => Unhold(FreeRef(s, e), e)
    case Post(e, q, lifo, margin) => PostEvent(s, e, q, lifo, margin)
    case Pop(q) =>
      Hold(s.(queues := s.queues[q := s.queues[q].(items := s.queues[q].items[1..])]), s.queues[q].items[0])
  }

  function Run(s: State, acts: seq<Action>): State {
    if acts == [] then s else Step(Run(s, acts[..|acts| - 1]), acts[|acts| - 1])
  }

  // -------------------------------------------------------------------- conservation

  function Slots(queues: seq<Queue>, e: Event): nat {
    if queues == [] then 0 else Slots(queues[..|queues| - 1], e) + multiset(queues[|queues| - 1].items)[e]
  }

  function References(s: State, e: Event): nat { Slots(s.queues, e) + s.holds[e] }

  /** The counter of a live event is the number of its references, and what is
      not live has none. */
  ghost predicate Balanced(s: State, e: Event) {
    e.Block? ==> if s.Live(e) then s.Refs(e) == References(s, e) else References(s, e) == 0
  }

  ghost predicate Inv(s: State) {
    && (forall p :: 0 <= p < |s.pools| ==> Ok(s.pools[p]))
    && (forall e: Event {:trigger Balanced(s, e)} :: Balanced(s, e))
  }

  lemma {:induction false} SlotsUpdate(queues: seq<Queue>, q: nat, to: Queue, e: Event)
    requires q < |queues|
    ensures Slots(queues[q := to], e) == Slots(queues, e) - multiset(queues[q].items)[e] + multiset(to.items)[e]
  {
    var n := |queues| - 1;
    if q < n {
      SlotsUpdate(queues[..n], q, to, e);
      assert queues[q := to][..n] == queues[..n][q := to];
    } else {
      assert queues[q := to][..n] == queues[..n];
    }
  }

  lemma EnqueueCount(q: Queue, x: Event, lifo: bool, e: Event)
    ensures multiset(Enqueue(q, x, lifo).items)[e] == multiset(q.items)[e] + if x == e then 1 else 0
  {
  }

  lemma PopCount(items: seq<Event>, e: Event)
    requires items != []
    ensures multiset(items)[e] == multiset(items[1..])[e] + if items[0] == e then 1 else 0
  {
    assert items == [items[0]] + items[1..];
  }

  /** Only the event itself goes, and only with its last reference. */
  lemma FreeRefLive(s: State, e: Event, x: Event)
    requires s.Usable(e) && forall p :: 0 <= p < |s.pools| ==> Ok(s.pools[p])
    ensures var s' := FreeRef(s, e);
      && (forall p :: 0 <= p < |s'.pools| ==> Ok(s'.pools[p]))
      && (s'.Live(x) <==> s.Live(x) && !(x == e && s.Refs(e) <= 1))
      && s'.Refs(x) == s.Refs(x) - (if x == e && e.Block? && s.Refs(e) > 1 then 1 else 0)
  {
    if e.Block? && s.Refs(e) <= 1 {
      FreeOk(s.pools[e.pool], e.index);
    }
  }

  /** A new block was not live and only it becomes live. */
  lemma AllocateLive(s: State, pool: nat, margin: nat, x: Event)
    requires pool < |s.pools| && forall p :: 0 <= p < |s.pools| ==> Ok(s.pools[p])
    ensures var (s', r) := AllocateEvent(s, pool, margin);
      && (forall p :: 0 <= p < |s'.pools| ==> Ok(s'.pools[p]))
      && (r.Some? <==> s.pools[pool].nfree > margin)
      && (r.Some? ==> !s.Live(r.value) && r.value.Block? && r.value.pool == pool && s'.Refs(r.value) == 0)
      && (s'.Live(x) <==> s.Live(x) || r == Some(x))
      && (r != Some(x) ==> s'.Refs(x) == s.Refs(x))
  {
    AllocateOk(s.pools[pool], margin);
    var (p, r) := PoolSpec.Allocate(s.pools[pool], margin);
    if r.Some? && x.Block? && x.pool == pool {
      assert x.index in p.LiveSet() <==> p.Live(x.index);
      assert x.index in s.pools[pool].LiveSet() <==> s.pools[pool].Live(x.index);
    }
  }

  lemma PostBalanced(s: State, e: Event, q: nat, lifo: bool, margin: nat, x: Event)
    requires Inv(s) && Allowed(s, Post(e, q, lifo, margin)) && x.Block?
    ensures Balanced(PostEvent(s, e, q, lifo, margin), x)
  {
    assert Balanced(s, x);
    if Fits(s.queues[q], margin) {
      EnqueueCount(s.queues[q], e, lifo, x);
      SlotsUpdate(s.queues, q, Enqueue(s.queues[q], e, lifo), x);
    } else {
      FreeRefLive(s, e, x);
    }
  }

  lemma PopBalanced(s: State, q: nat, x: Event)
    requires Inv(s) && Allowed(s, Pop(q)) && x.Block?
    ensures Balanced(Step(s, Pop(q)), x)
  {
    assert Balanced(s, x);
    PopCount(s.queues[q].items, x);
    SlotsUpdate(s.queues, q, s.queues[q].(items := s.queues[q].items[1..]), x);
  }

  lemma StepBalanced(s: State, a: Action, x: Event)
    requires Inv(s) && Allowed(s, a) && x.Block?
    ensures Balanced(Step(s, a), x)
  {
    assert Balanced(s, x);
    match a
    case Allocate(pool, margin) =>
      AllocateLive(s, pool, margin, x);
    case Inc(e) =>
    case Drop(e) =>
      if e.Block? {
        FreeRefLive(s, e, x);
      }
    case Post(e, q, lifo, margin) =>
      PostBalanced(s, e, q, lifo, margin, x);
    case Pop(q) =>
      PopBalanced(s, q, x);
  }

  lemma StepPools(s: State, a: Action)
    requires Inv(s) && Allowed(s, a)
    ensures var s' := Step(s, a); forall p :: 0 <= p < |s'.pools| ==> Ok(s'.pools[p])
  {
    match a
    case Allocate(pool, margin) => AllocateLive(s, pool, margin, Static(0));
    case Drop(e) => FreeRefLive(s, e, e);
    case Post(e, q, lifo, margin) => FreeRefLive(s, e, e);
    case Inc(_) =>
    case Pop(_) =>
  }

  lemma StepInv(s: State, a: Action)
    requires Inv(s)
    ensures Inv(Step(s, a))
  {
    var s' := Step(s, a);
    if Allowed(s, a) {
      StepPools(s, a);
      forall e: Event {:trigger Balanced(s', e)}
        ensures Balanced(s', e)
      {
        if e.Block? {
          StepBalanced(s, a, e);
        }
      }
    }
  }

  lemma FreeRefTotals(s: State, e: Event)
    requires s.Usable(e)
    ensures Totals(FreeRef(s, e)) == Totals(s)
  {
  }

  lemma AllocateTotals(s: State, pool: nat, margin: nat)
    requires pool < |s.pools|
    ensures Totals(AllocateEvent(s, pool, margin).0) == Totals(s)
  {
  }

  function Totals(s: State): seq<nat> {
    seq(|s.pools|, i requires 0 <= i < |s.pools| => s.pools[i].total)
  }

  lemma StepTotals(s: State, a: Action)
    ensures Totals(Step(s, a)) == Totals(s)
  {
    hide FreeRef, AllocateEvent;
    if Allowed(s, a) {
      match a {
        case Allocate(pool, margin) => AllocateTotals(s, pool, margin);
        case Drop(e) => FreeRefTotals(s, e);
        case Post(e, q, lifo, margin) => FreeRefTotals(s, e);
        case Inc(_) =>
        case Pop(_) =>
      }
    }
  }

  lemma {:induction false} RunInv(s: State, acts: seq<Action>)
    requires Inv(s)
    ensures Inv(Run(s, acts)) && Totals(Run(s, acts)) == Totals(s)
  {
    hide Inv, Step;
    if acts != [] {
      var before := Run(s, acts[..|acts| - 1]);
      RunInv(s, acts[..|acts| - 1]);
      StepInv(before, acts[|acts| - 1]);
      StepTotals(before, acts[|acts| - 1]);
    }
  }

  lemma {:induction false} NoSlots(queues: seq<Queue>, e: Event)
    requires forall q :: 0 <= q < |queues| ==> queues[q].items == []
    ensures Slots(queues, e) == 0
  {
    if queues != [] {
      NoSlots(queues[..|queues| - 1], e);
    }
  }

  lemma InitInv(totals: seq<nat>, capacities: seq<nat>)
    ensures Inv(Init(totals, capacities))
  {
    var s := Init(totals, capacities);
    forall e: Event {:trigger Balanced(s, e)}
      ensures Balanced(s, e)
    {
      NoSlots(s.queues, e);
    }
  }

  /** In every run, a live event's counter is the number of its queue slots and
      holds, what is not live has neither, and in every pool the free and the
      live blocks add up to the pool. */
  lemma Conservation(totals: seq<nat>, capacities: seq<nat>, acts: seq<Action>, e: Event, p: nat)
    requires e.Block?
    ensures var s := Run(Init(totals, capacities), acts);
      && (s.Live(e) ==> s.Refs(e) == References(s, e))
      && (!s.Live(e) ==> References(s, e) == 0)
      && |s.pools| == |totals|
      && (p < |totals| ==> s.pools[p].nfree + |s.pools[p].LiveSet()| == totals[p])
  {
    hide Step;
    var s := Run(Init(totals, capacities), acts);
    InitInv(totals, capacities);
    RunInv(Init(totals, capacities), acts);
    assert Totals(Init(totals, capacities)) == totals;
    assert |Totals(s)| == |s.pools|;
    assert Balanced(s, e);
    if p < |totals| {
      assert Totals(s)[p] == s.pools[p].total;
      FreePlusLive(s.pools[p]);
    }
  }

  predicate Drops(s: State, a: Action, e: Event)
    requires Allowed(s, a)
  {
    a == Drop(e) || (a.Post? && a.event == e && !Fits(s.queues[a.queue], a.margin))
  }

  /** A live event's block goes back to its own pool exactly when a reference is
      dropped (or a post fails) and no reference is left; no other pool changes. */
  lemma FreedWithLastReference(s: State, a: Action, e: Event)
    requires Inv(s) && Allowed(s, a) && e.Block? && s.Live(e)
    ensures var s' := Step(s, a);
      && (!s'.Live(e) <==> Drops(s, a, e) && References(s', e) == 0)
      && (!s'.Live(e) ==> s'.pools == s.pools[e.pool := Free(s.pools[e.pool], e.index)])
  {
    hide Ok, Slots;
    StepInv(s, a);
    var s' := Step(s, a);
    assert Balanced(s, e) && Balanced(s', e);
    match a {
      case Allocate(pool, margin) => AllocateLive(s, pool, margin, e);
      case Drop(x) => FreeRefLive(s, x, e);
      case Post(x, q, lifo, margin) =>
        if Fits(s.queues[q], margin) {
          assert s'.Live(e);
        } else {
          FreeRefLive(s, x, e);
        }
      case Inc(_) =>
      case Pop(_) =>
    }
  }

  lemma {:induction false} InQueue(queues: seq<Queue>, q: nat, e: Event)
    requires q < |queues| && e in queues[q].items
    ensures Slots(queues, e) > 0
  {
    if q < |queues| - 1 {
      InQueue(queues[..|queues| - 1], q, e);
    }
  }

  /** No use after free: what is in a queue or held is live, and its block is not
      what an allocation hands out. */
  lemma ReferencedIsSafe(s: State, e: Event, pool: nat, margin: nat)
    requires Inv(s) && e.Block? && pool < |s.pools|
    requires e in s.holds || exists q :: 0 <= q < |s.queues| && e in s.queues[q].items
    ensures s.Live(e) && s.Refs(e) > 0
    ensures AllocateEvent(s, pool, margin).1 != Some(e)
  {
    assert Balanced(s, e);
    if q :| 0 <= q < |s.queues| && e in s.queues[q].items {
      InQueue(s.queues, q, e);
    }
    AllocateLive(s, pool, margin, e);
  }

  // ------------------------------------------------------------------ failing posts

  /** The assertions am_event_queue_push_unsafe makes on the margin. */
  predicate Accepts(q: Queue, margin: nat) { margin < q.capacity && (Fits(q, margin) || margin > 0) }

  /** A post the source accepts keeps the books exactly when it succeeds or its
      event has no reference yet: a push that fails drops a reference its caller
      still holds. */
  lemma PostKeepsBooks(s: State, e: Event, q: nat, lifo: bool, margin: nat)
    requires Inv(s) && q < |s.queues| && s.Usable(e) && Accepts(s.queues[q], margin)
    ensures Inv(PostEvent(s, e, q, lifo, margin)) <==> Fits(s.queues[q], margin) || e.Static? || s.Refs(e) == 0
  {
    PostBooks(s, e, q, lifo, margin);
  }

  /** For any margin, as PushAll needs it. */
  lemma PostBooks(s: State, e: Event, q: nat, lifo: bool, margin: nat)
    requires Inv(s) && q < |s.queues| && s.Usable(e)
    ensures Inv(PostEvent(s, e, q, lifo, margin)) <==> Fits(s.queues[q], margin) || e.Static? || s.Refs(e) == 0
  {
    var s' := PostEvent(s, e, q, lifo, margin);
    assert Balanced(s, e);
    if Fits(s.queues[q], margin) || e.Static? || s.Refs(e) == 0 {
      FreeRefLive(s, e, e);
      forall x: Event {:trigger Balanced(s', x)}
        ensures Balanced(s', x)
      {
        if x.Block? {
          assert Balanced(s, x);
          FreeRefLive(s, e, x);
          EnqueueCount(s.queues[q], e, lifo, x);
          SlotsUpdate(s.queues, q, Enqueue(s.queues[q], e, lifo), x);
        }
      }
    } else {
      FreeRefLive(s, e, e);
      assert !Balanced(s', e);
    }
  }

  /** am_event_async_publish: hold the event, push it to each queue in turn, drop it. */
  function PushAll(s: State, e: Event, qs: seq<nat>, lifo: bool, margin: nat): State
    requires forall k :: 0 <= k < |qs| ==> qs[k] < |s.queues|
    requires s.Usable(e)
    decreases |qs|
  {
    if qs == [] then s
    else
      var s' := PostEvent(s, e, qs[0], lifo, margin);
      if s'.Usable(e) then PushAll(s', e, qs[1..], lifo, margin) else s'
  }

  function Publish(s: State, e: Event, qs: seq<nat>, lifo: bool, margin: nat): State
    requires forall k :: 0 <= k < |qs| ==> qs[k] < |s.queues|
    requires s.Usable(e)
  {
    var s' := PushAll(Hold(IncRef(s, e), e), e, qs, lifo, margin);
    if s'.Usable(e) then Unhold(FreeRef(s', e), e) else s'
  }

  predicate AllFit(s: State, qs: seq<nat>, margin: nat)
    requires forall k :: 0 <= k < |qs| ==> qs[k] < |s.queues|
  {
    forall k :: 0 <= k < |qs| ==> Fits(s.queues[qs[k]], margin)
  }

  /** What a publish without a failing push leaves in the queues. */
  function Delivered(queues: seq<Queue>, e: Event, qs: seq<nat>, lifo: bool): (r: seq<Queue>)
    requires forall k :: 0 <= k < |qs| ==> qs[k] < |queues|
    ensures |r| == |queues|
    decreases |qs|
  {
    if qs == [] then queues else Delivered(queues[qs[0] := Enqueue(queues[qs[0]], e, lifo)], e, qs[1..], lifo)
  }

  /** A live event with fewer counted than real references, or a dead one with some. */
  ghost predicate Broken(s: State, e: Event) {
    && e.Block? && (forall p :: 0 <= p < |s.pools| ==> Ok(s.pools[p]))
    && (s.Live(e) ==> 1 <= s.Refs(e) < References(s, e))
    && (!s.Live(e) ==> References(s, e) > 0)
  }

  /** Posting a referenced event that is in step keeps it so, or breaks it; posting a
      broken one leaves it broken. */
  lemma PostBroken(s: State, e: Event, q: nat, lifo: bool, margin: nat)
    requires q < |s.queues| && s.Live(e) && 1 <= s.Refs(e) <= References(s, e)
    requires forall p :: 0 <= p < |s.pools| ==> Ok(s.pools[p])
    requires Fits(s.queues[q], margin) ==> s.Refs(e) < References(s, e)
    ensures Broken(PostEvent(s, e, q, lifo, margin), e)
  {
    FreeRefLive(s, e, e);
    EnqueueCount(s.queues[q], e, lifo, e);
    SlotsUpdate(s.queues, q, Enqueue(s.queues[q], e, lifo), e);
  }

  lemma {:induction false} PushAllBroken(s: State, e: Event, qs: seq<nat>, lifo: bool, margin: nat)
    requires forall k :: 0 <= k < |qs| ==> qs[k] < |s.queues|
    requires Broken(s, e) && s.Live(e)
    ensures Broken(PushAll(s, e, qs, lifo, margin), e)
    decreases |qs|
  {
    if qs != [] {
      PostBroken(s, e, qs[0], lifo, margin);
      var s' := PostEvent(s, e, qs[0], lifo, margin);
      if s'.Usable(e) {
        PushAllBroken(s', e, qs[1..], lifo, margin);
      }
    }
  }

  lemma {:induction false} PushAllOutcome(s: State, e: Event, qs: seq<nat>, lifo: bool, margin: nat)
    requires forall k :: 0 <= k < |qs| ==> qs[k] < |s.queues|
    requires Inv(s) && s.Live(e) && s.Refs(e) >= 1 && NoDup(qs)
    ensures var s' := PushAll(s, e, qs, lifo, margin);
      if AllFit(s, qs, margin)
      then
        && Inv(s') && s'.Live(e) && s'.Refs(e) == s.Refs(e) + |qs| && s'.holds == s.holds
        && s'.queues == Delivered(s.queues, e, qs, lifo)
      else Broken(s', e)
    decreases |qs|
  {
    assert Balanced(s, e);
    if qs != [] {
      var s' := PostEvent(s, e, qs[0], lifo, margin);
      PostBooks(s, e, qs[0], lifo, margin);
      if Fits(s.queues[qs[0]], margin) {
        assert s'.Live(e);
        PushAllOutcome(s', e, qs[1..], lifo, margin);
        assert AllFit(s, qs, margin) <==> AllFit(s', qs[1..], margin);
      } else {
        PostBroken(s, e, qs[0], lifo, margin);
        if s'.Usable(e) {
          PushAllBroken(s', e, qs[1..], lifo, margin);
        }
      }
    }
  }

  lemma HoldInv(s: State, e: Event)
    requires Inv(s) && s.Live(e)
    ensures var s' := Hold(IncRef(s, e), e); Inv(s') && s'.Live(e) && s'.Refs(e) == s.Refs(e) + 1 && e in s'.holds
  {
    var s' := Hold(IncRef(s, e), e);
    forall x: Event {:trigger Balanced(s', x)}
      ensures Balanced(s', x)
    {
      assert Balanced(s, x);
    }
  }

  /** A queue has one more slot if it was a target; the others are as before. */
  lemma {:induction false} DeliveredAt(queues: seq<Queue>, e: Event, qs: seq<nat>, lifo: bool, q: nat)
    requires forall k :: 0 <= k < |qs| ==> qs[k] < |queues|
    requires NoDup(qs) && q < |queues|
    ensures Delivered(queues, e, qs, lifo)[q] ==
      if q !in qs then queues[q]
      else Queue(if lifo then [e] + queues[q].items else queues[q].items + [e], queues[q].capacity)
    decreases |qs|
  {
    if qs != [] {
      HeadTail(qs);
      DeliveredAt(queues[qs[0] := Enqueue(queues[qs[0]], e, lifo)], e, qs[1..], lifo, q);
    }
  }

  lemma PublishAllFit(s: State, e: Event, qs: seq<nat>, lifo: bool, margin: nat)
    requires forall k :: 0 <= k < |qs| ==> qs[k] < |s.queues|
    requires Inv(s) && s.Live(e) && NoDup(qs) && AllFit(s, qs, margin)
    ensures
      var s' := Publish(s, e, qs, lifo, margin);
      && Inv(s') && s'.queues == Delivered(s.queues, e, qs, lifo) && s'.holds == s.holds
      && (if s.Refs(e) + |qs| > 0 then s'.Live(e) && s'.Refs(e) == s.Refs(e) + |qs| else !s'.Live(e))
  {
    HoldInv(s, e);
    var s1 := Hold(IncRef(s, e), e);
    assert AllFit(s1, qs, margin);
    PushAllOutcome(s1, e, qs, lifo, margin);
    var s2 := PushAll(s1, e, qs, lifo, margin);
    StepInv(s2, Drop(e));
    PoolsOk(s2);
    FreeRefLive(s2, e, e);
    assert s2.holds - multiset{e} == s.holds;
  }

  lemma PoolsOk(s: State)
    requires Inv(s)
    ensures forall p :: 0 <= p < |s.pools| ==> Ok(s.pools[p])
  {
  }

  lemma PublishSomeFail(s: State, e: Event, qs: seq<nat>, lifo: bool, margin: nat)
    requires forall k :: 0 <= k < |qs| ==> qs[k] < |s.queues|
    requires Inv(s) && s.Live(e) && NoDup(qs) && !AllFit(s, qs, margin)
    ensures !Inv(Publish(s, e, qs, lifo, margin))
  {
    HoldInv(s, e);
    var s1 := Hold(IncRef(s, e), e);
    assert !AllFit(s1, qs, margin);
    PushAllOutcome(s1, e, qs, lifo, margin);
    var s2 := PushAll(s1, e, qs, lifo, margin);
    PushAllHolds(s1, e, qs, lifo, margin);
    if s2.Usable(e) {
      FreeRefLive(s2, e, e);
    }
    assert !Balanced(Publish(s, e, qs, lifo, margin), e);
  }

  lemma {:induction false} PushAllHolds(s: State, e: Event, qs: seq<nat>, lifo: bool, margin: nat)
    requires forall k :: 0 <= k < |qs| ==> qs[k] < |s.queues|
    requires s.Usable(e)
    ensures PushAll(s, e, qs, lifo, margin).holds == s.holds
    decreases |qs|
  {
    if qs != [] {
      var s' := PostEvent(s, e, qs[0], lifo, margin);
      if s'.Usable(e) {
        PushAllHolds(s', e, qs[1..], lifo, margin);
      }
    }
  }

  /** Publishing a pool event with a margin the source accepts keeps the books
      exactly when no push fails. Then every target queue has one more slot for
      it, the counter went up by their number, and an event nobody took is freed. */
  lemma PublishKeepsBooks(s: State, e: Event, qs: seq<nat>, lifo: bool, margin: nat)
    requires forall k :: 0 <= k < |qs| ==> qs[k] < |s.queues| && Accepts(s.queues[qs[k]], margin)
    requires Inv(s) && s.Live(e) && NoDup(qs)
    ensures Inv(Publish(s, e, qs, lifo, margin)) <==> AllFit(s, qs, margin)
    ensures AllFit(s, qs, margin) ==>
      var s' := Publish(s, e, qs, lifo, margin);
      && s'.queues == Delivered(s.queues, e, qs, lifo) && s'.holds == s.holds
      && (if s.Refs(e) + |qs| > 0 then s'.Live(e) && s'.Refs(e) == s.Refs(e) + |qs| else !s'.Live(e))
  {
    if AllFit(s, qs, margin) {
      PublishAllFit(s, e, qs, lifo, margin);
    } else {
      PublishSomeFail(s, e, qs, lifo, margin);
    }
  }

  const FirstEvent := Block(0, 0)
  const SecondEvent := Block(0, 1)

  /** A pool of two events and a queue of two slots, one of them taken by the first
      event; the second is allocated and nobody refers to it yet. */
  const HALF_FULL := [Allocate(0, 0), Post(FirstEvent, 0, false, 0), Allocate(0, 0)]

  function HalfFull(): (s: State)
    ensures |s.queues| == 1 && s.Live(SecondEvent)
  {
    HalfFullIs();
    Run(Init([2], [2]), HALF_FULL)
  }

  lemma HalfFullIs()
    ensures Run(Init([2], [2]), HALF_FULL) ==
      State([Pool(2, 2, 0, 0, [])], map[FirstEvent := 1, SecondEvent := 0], [Queue([FirstEvent], 2)], multiset{})
  {
    var s0 := Init([2], [2]);
    assert s0 == State([Pool(2, 0, 2, 2, [])], map[], [Queue([], 2)], multiset{});
    var s1 := Step(s0, HALF_FULL[0]);
    assert s1 == State([Pool(2, 1, 1, 1, [])], map[FirstEvent := 0], [Queue([], 2)], multiset{});
    var s2 := Step(s1, HALF_FULL[1]);
    assert Allowed(s1, HALF_FULL[1]);
    assert [] + [FirstEvent] == [FirstEvent];
    assert map[FirstEvent := 0][FirstEvent := 1] == map[FirstEvent := 1];
    assert s2 == State([Pool(2, 1, 1, 1, [])], map[FirstEvent := 1], [Queue([FirstEvent], 2)], multiset{});
    RunNext(s0, HALF_FULL, 0);
    RunNext(s0, HALF_FULL, 1);
    RunNext(s0, HALF_FULL, 2);
    assert HALF_FULL[..3] == HALF_FULL;
  }

  lemma RunNext(s: State, acts: seq<Action>, k: nat)
    requires k < |acts|
    ensures Run(s, acts[..k + 1]) == Step(Run(s, acts[..k]), acts[k])
    ensures k == 0 ==> Run(s, acts[..k]) == s
  {
    assert acts[..k + 1][..k] == acts[..k];
  }

  /** Publishing the second event there with margin 1 returns its block to the pool
      while the publisher still holds it; the am_event_free that ends the publish
      then finds it at the head of the free list. */
  lemma PublishBreaksBooks()
    ensures var s, s' := HalfFull(), Publish(HalfFull(), SecondEvent, [0], false, 1);
      && Inv(s) && s.Live(SecondEvent) && Accepts(s.queues[0], 1)
      && !s'.Live(SecondEvent) && SecondEvent in s'.holds && s'.pools[0].fl == [1]
  {
    InitInv([2], [2]);
    RunInv(Init([2], [2]), HALF_FULL);
    HalfFullIs();
    var s := HalfFull();
    var s1 := Hold(IncRef(s, SecondEvent), SecondEvent);
    assert s1.refs == map[FirstEvent := 1, SecondEvent := 1];
    assert PostEvent(s1, SecondEvent, 0, false, 1) == FreeRef(s1, SecondEvent);
  }

  // -------------------------------------------------------------------------- flush

  /** Each of these events can lose a reference, one after the other. */
  predicate CanFree(s: State, es: seq<Event>)
    decreases |es|
  {
    es == [] || (s.Usable(es[0]) && CanFree(FreeRef(s, es[0]), es[1..]))
  }

  function FreeRefs(s: State, es: seq<Event>): State
    requires CanFree(s, es)
    decreases |es|
  {
    if es == [] then s else FreeRefs(FreeRef(s, es[0]), es[1..])
  }

  /** Only pools and counters matter for that. */
  lemma {:induction false} FreeRefsFrame(s: State, t: State, es: seq<Event>)
    requires CanFree(s, es) && t.pools == s.pools && t.refs == s.refs
    ensures CanFree(t, es)
    ensures FreeRefs(t, es) == t.(pools := FreeRefs(s, es).pools, refs := FreeRefs(s, es).refs)
    decreases |es|
  {
    if es != [] {
      FreeRefsFrame(FreeRef(s, es[0]), FreeRef(t, es[0]), es[1..]);
    }
  }

  function Emptied(s: State, q: nat): State
    requires q < |s.queues|
  {
    s.(queues := s.queues[q := s.queues[q].(items := [])])
  }

  /** Flushing a queue can free every event in it, and keeps the books. */
  lemma {:induction false} FlushOk(s: State, q: nat)
    requires Inv(s) && q < |s.queues|
    ensures CanFree(s, s.queues[q].items)
    ensures CanFree(Emptied(s, q), s.queues[q].items) && Inv(FreeRefs(Emptied(s, q), s.queues[q].items))
    decreases |s.queues[q].items|
  {
    var items := s.queues[q].items;
    if items == [] {
      assert Emptied(s, q) == s;
    } else {
      var t := PopDrop(s, q);
      FlushOk(t, q);
      assert Emptied(t, q).queues == Emptied(s, q).queues;
      assert FreeRef(Emptied(s, q), items[0]) == Emptied(t, q);
      FreeRefsFrame(Emptied(s, q), s, items);
    }
  }

  /** Only pools and counters matter for a reference. */
  lemma CountersFrame(s: State, t: State, e: Event)
    requires s.Usable(e) && t.pools == s.pools && t.refs == s.refs
    ensures t.Usable(e) && FreeRef(t, e) == t.(pools := FreeRef(s, e).pools, refs := FreeRef(s, e).refs)
    ensures IncRef(t, e) == t.(pools := IncRef(s, e).pools, refs := IncRef(s, e).refs) && t.Refs(e) == s.Refs(e)
  {
  }

  lemma PopStep(s: State, q: nat)
    requires q < |s.queues|
    ensures s.queues[q].items != [] ==>
      var rest := s.queues[q].(items := s.queues[q].items[1..]);
      Step(s, Pop(q)) == Hold(s.(queues := s.queues[q := rest]), s.queues[q].items[0])
  {
  }

  lemma DropStep(s: State, e: Event)
    requires e.Static? || (s.Live(e) && e in s.holds)
    ensures Step(s, Drop(e)) == Unhold(FreeRef(s, e), e)
  {
  }

  /** Popping an event and dropping its reference. */
  lemma PopDrop(s: State, q: nat) returns (t: State)
    requires Inv(s) && q < |s.queues| && s.queues[q].items != []
    ensures s.Usable(s.queues[q].items[0]) && Inv(t)
    ensures var rest := s.queues[q].(items := s.queues[q].items[1..]);
      t == FreeRef(s, s.queues[q].items[0]).(queues := s.queues[q := rest])
  {
    hide Inv, Step, FreeRef;
    var e := s.queues[q].items[0];
    ReferencedUsable(s, q, e);
    StepInv(s, Pop(q));
    PopStep(s, q);
    var s1 := Step(s, Pop(q));
    StepInv(s1, Drop(e));
    DropStep(s1, e);
    CountersFrame(s, s1, e);
    CountersFrame(s, s, e);
    t := Step(s1, Drop(e));
    assert s.holds + multiset{e} - multiset{e} == s.holds;
  }

  lemma ReferencedUsable(s: State, q: nat, e: Event)
    requires Inv(s) && q < |s.queues| && e in s.queues[q].items
    ensures s.Usable(e)
  {
    if e.Block? {
      InQueue(s.queues, q, e);
      assert Balanced(s, e);
    }
  }
}
