/** The cooperative scheduler of libs/ao/cooperative as a state machine whose
    steps are its critical sections. Posts from interrupts and other tasks may
    come between any two of them. */
module CoopSpec {

  /** A running active object: its event queue and the queue's capacity. */
  datatype Ao<E> = Ao(queue: seq<E>, capacity: nat)

  /** Where am_ao_run_all is: outside or in its loop, committed to an active
      object, or running that object's handler. */
  datatype Phase = Polling | Picked(prio: nat) | Handling(prio: nat)

  /** `aos` maps the priorities of the running active objects; `ready` is the set
      of ready bits. */
  datatype State<E> = State(aos: map<nat, Ao<E>>, ready: set<nat>, phase: Phase)
  {
    predicate Waiting(i: nat) { i in aos && aos[i].queue != [] }
  }

  datatype Post<E> = Post(prio: nat, event: E, lifo: bool, margin: nat)

  datatype Action<E> = DoPost(post: Post<E>) | Poll | Pop | Done | Start(prio: nat, capacity: nat) | Stop(prio: nat)

  const AO_NUM_MAX: nat := 64

  function Init<E>(): State<E> { State(map[], {}, Polling) }

  /** am_event_queue_push_unsafe refuses an event with no more than `margin` free slots. */
  predicate Fits<E>(ao: Ao<E>, margin: nat) { |ao.queue| + margin < ao.capacity }

  /** am_ao_event_handler_unsafe: push, and notify if the queue was empty. */
  function PostStep<E>(s: State<E>, p: Post<E>): State<E>
    requires p.prio in s.aos
  {
    var ao := s.aos[p.prio];
    if !Fits(ao, p.margin) then s else
      var queue := if p.lifo then [p.event] + ao.queue else ao.queue + [p.event];
      s.(aos := s.aos[p.prio := ao.(queue := queue)],
         ready := if ao.queue == [] then s.ready + {p.prio} else s.ready)
  }

  /** The largest member; 0 of the empty set. */
  ghost function Highest(r: set<nat>): (m: nat)
    ensures r != {} ==> m in r
    ensures forall i :: i in r ==> i <= m
    decreases |r|
  {
    if r == {} then 0
    else
      var x :| x in r;
      var rest := r - {x};
      var m := Highest(rest);
      assert r == rest + {x};
      if rest == {} || x > m then x else m
  }

  /** The critical section in the loop of am_ao_run_all: idle, clear a stale ready
      bit, or commit to the highest ready active object. */
  ghost function PollStep<E>(s: State<E>): State<E>
    requires s.ready != {} ==> Highest(s.ready) in s.aos
  {
    if s.ready == {} then s
    else
      var m := Highest(s.ready);
      if s.aos[m].queue == [] then s.(ready := s.ready - {m})
      else s.(phase := Picked(m))
  }

  function PopStep<E>(s: State<E>): State<E>
    requires s.phase.Picked? && s.Waiting(s.phase.prio)
  {
    var ao := s.aos[s.phase.prio];
    s.(aos := s.aos[s.phase.prio := ao.(queue := ao.queue[1..])], phase := Handling(s.phase.prio))
  }

  /** am_ao_stop: flush the queue, clear the ready bit, leave the table. */
  function StopStep<E>(s: State<E>, prio: nat): State<E> {
    s.(aos := s.aos - {prio}, ready := s.ready - {prio})
  }

  /** What callers owe: posts go to running active objects, only posts happen
      between picking an active object and popping its event, and a failing post
      has a margin. */
  predicate Allowed<E>(s: State<E>, a: Action<E>) {
    match a
    case DoPost(p) =>
      && p.prio in s.aos && p.margin < s.aos[p.prio].capacity
      && (Fits(s.aos[p.prio], p.margin) || p.margin > 0)
    case Poll => s.phase.Polling?
    case Pop => s.phase.Picked?
    case Done => s.phase.Handling?
    case Start(prio, capacity) => !s.phase.Picked? && prio < AO_NUM_MAX && prio !in s.aos && capacity > 0
    case Stop(prio) => !s.phase.Picked? && prio in s.aos
  }

  ghost function Step<E>(s: State<E>, a: Action<E>): State<E>
    requires Inv(s)
  {
    if !Allowed(s, a) then s else
    match a
    case DoPost(p) => PostStep(s, p)
    case Poll => PollStep(s)
    case Pop => PopStep(s)
    case Done => s.(phase := Polling)
    case Start(prio, capacity) => s.(aos := s.aos[prio := Ao([], capacity)])
    case Stop(prio) => StopStep(s, prio)
  }

  /** A waiting active object has its ready bit, a ready bit belongs to a running
      active object, and the one picked has an event. */
  ghost predicate Inv<E>(s: State<E>) {
    && (forall i :: s.Waiting(i) ==> i in s.ready)
    && (forall i :: i in s.ready ==> i in s.aos)
    && (forall i :: i in s.aos ==> i < AO_NUM_MAX && |s.aos[i].queue| <= s.aos[i].capacity)
    && (s.phase.Picked? ==> s.Waiting(s.phase.prio))
  }

  lemma StepInv<E>(s: State<E>, a: Action<E>)
    requires Inv(s)
    ensures Inv(Step(s, a))
  {
  }

  ghost function Run<E>(acts: seq<Action<E>>): (s: State<E>)
    ensures Inv(s)
  {
    if acts == [] then Init()
    else
      var s := Run(acts[..|acts| - 1]);
      StepInv(s, acts[|acts| - 1]);
      Step(s, acts[|acts| - 1])
  }

  /** No lost wake-up, in every run: the poll after it commits to the highest
      active object with an event, unless it clears a stale bit, which leaves
      fewer; it goes idle exactly when no bit is left, and then no one waits. */
  lemma PollChooses<E>(acts: seq<Action<E>>)
    requires Run(acts).phase.Polling?
    ensures var s, s' := Run(acts), Step(Run(acts), Poll);
      && (s.ready == {} ==> forall i :: !s.Waiting(i))
      && (s'.phase.Picked? ==> s'.Waiting(s'.phase.prio) && forall i: nat :: s.Waiting(i) ==> i <= s'.phase.prio)
      && (s.ready != {} && !s'.phase.Picked? ==> s'.ready < s.ready && s'.aos == s.aos)
  {
    var s, s' := Run(acts), Step(Run(acts), Poll);
    if s.ready != {} && !s'.phase.Picked? {
      assert Highest(s.ready) in s.ready;
    }
  }

  // ------------------------------------------------------------------- the loop

  ghost function Posts<E>(s: State<E>, posts: seq<Post<E>>): State<E>
    requires Inv(s)
    ensures Inv(Posts(s, posts))
  {
    if posts == [] then s
    else
      var s' := Posts(s, posts[..|posts| - 1]);
      StepInv(s', DoPost(posts[|posts| - 1]));
      Step(s', DoPost(posts[|posts| - 1]))
  }

  /** am_ao_run_all up to its choice; isr[i] is posted before its i-th critical section. */
  ghost function Select<E>(s: State<E>, isr: seq<seq<Post<E>>>): (s': State<E>)
    requires Inv(s) && s.phase.Polling?
    ensures Inv(s')
    decreases |isr|, |s.ready|
  {
    var s0 := if isr == [] then s else Posts(s, isr[0]);
    StepInv(s0, Poll);
    PhaseKept(s, if isr == [] then [] else isr[0]);
    var s1 := Step(s0, Poll);
    if s0.ready == {} || s1.phase.Picked? then s1
    else Select(s1, if isr == [] then [] else isr[1..])
  }

  lemma {:induction false} PhaseKept<E>(s: State<E>, posts: seq<Post<E>>)
    requires Inv(s)
    ensures Posts(s, posts).phase == s.phase
  {
    if posts != [] {
      PhaseKept(s, posts[..|posts| - 1]);
    }
  }

  /** The loop ends, whatever finitely many interrupts post meanwhile. It picks
      the highest active object that waits when it leaves the loop; it picks none
      exactly when none waits. */
  lemma {:induction false} SelectHighest<E>(s: State<E>, isr: seq<seq<Post<E>>>)
    requires Inv(s) && s.phase.Polling?
    ensures var s' := Select(s, isr);
      && (s'.phase.Picked? <==> exists i :: s'.Waiting(i))
      && (s'.phase.Picked? ==> s'.Waiting(s'.phase.prio) && forall i: nat :: s'.Waiting(i) ==> i <= s'.phase.prio)
    decreases |isr|, |s.ready|
  {
    var s0 := if isr == [] then s else Posts(s, isr[0]);
    PhaseKept(s, if isr == [] then [] else isr[0]);
    StepInv(s0, Poll);
    var s1 := Step(s0, Poll);
    if s0.ready != {} && !s1.phase.Picked? {
      SelectHighest(s1, if isr == [] then [] else isr[1..]);
    }
  }

  lemma SelectUnfold<E>(s: State<E>, isr: seq<seq<Post<E>>>)
    requires Inv(s) && s.phase.Polling?
    ensures
      var s0 := if isr == [] then s else Posts(s, isr[0]);
      var s1 := Step(s0, Poll);
      && s0.phase.Polling? && Inv(s1)
      && (s1.phase.Polling? || s1.phase.Picked?)
      && Select(s, isr) == if s0.ready == {} || s1.phase.Picked? then s1
                           else Select(s1, if isr == [] then [] else isr[1..])
  {
    var s0 := if isr == [] then s else Posts(s, isr[0]);
    PhaseKept(s, if isr == [] then [] else isr[0]);
    assert isr == [] ==> Posts(s, []) == s;
    StepInv(s0, Poll);
  }
}
