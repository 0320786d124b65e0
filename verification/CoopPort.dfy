/** The port of libs/ao/cooperative on its ready bit array, proved to do what
    CoopSpec says. */
module CoopPort {
  import opened Bit
  import opened CoopSpec

  class Scheduler<E> {
    const ready: Bits64
    var aos: map<nat, Ao<E>>
    ghost var phase: Phase

    ghost function Abs(): State<E>
      reads this, ready, ready.bits
      requires ready.Valid()
    {
      State(aos, ready.Members(), phase)
    }

    ghost predicate Valid()
      reads this, ready, ready.bits
    {
      ready.Valid() && Inv(Abs())
    }

    constructor ()
      ensures Valid() && Abs() == Init<E>() && fresh(ready) && fresh(ready.bits)
    {
      ready := new Bits64();
      aos := map[];
      phase := Polling;
    }

    /** am_ao_event_handler_unsafe with am_ao_notify_unsafe */
    method HandleEvent(p: Post<E>)
      requires Valid() && Allowed(Abs(), DoPost(p))
      modifies `aos, ready, ready.bits
      ensures Valid() && Abs() == Step(old(Abs()), DoPost(p))
      ensures var q, capacity := old(aos)[p.prio].queue, old(aos)[p.prio].capacity;
        if |q| + p.margin >= capacity then Abs() == old(Abs())
        else
          && aos == old(aos)[p.prio := Ao(if p.lifo then [p.event] + q else q + [p.event], capacity)]
          && ready.Members() == old(ready.Members()) + if q == [] then {p.prio} else {}
    {
      StepInv(Abs(), DoPost(p));
      var ao := aos[p.prio];
      if Fits(ao, p.margin) {
        aos := aos[p.prio := ao.(queue := if p.lifo then [p.event] + ao.queue else ao.queue + [p.event])];
        if ao.queue == [] {
          ready.Set(p.prio);
        }
      }
    }

    method Start(prio: nat, capacity: nat)
      requires Valid() && Allowed(Abs(), CoopSpec.Start(prio, capacity))
      modifies `aos
      ensures Valid() && Abs() == Step(old(Abs()), CoopSpec.Start(prio, capacity))
      ensures aos == old(aos)[prio := Ao([], capacity)]
    {
      StepInv(Abs(), CoopSpec.Start(prio, capacity));
      aos := aos[prio := Ao([], capacity)];
    }

    method Stop(prio: nat)
      requires Valid() && Allowed(Abs(), CoopSpec.Stop(prio))
      modifies `aos, ready, ready.bits
      ensures Valid() && Abs() == Step(old(Abs()), CoopSpec.Stop(prio))
      ensures aos == old(aos) - {prio} && ready.Members() == old(ready.Members()) - {prio}
    {
      StepInv(Abs(), CoopSpec.Stop(prio));
      ready.Clear(prio);
      aos := aos - {prio};
    }

    /** Interrupts post between two critical sections; a post that is not allowed
        does not happen. */
    method Interrupt(posts: seq<Post<E>>)
      requires Valid()
      modifies `aos, ready, ready.bits
      ensures Valid() && Abs() == Posts(old(Abs()), posts)
    {
      assert posts[..|posts|] == posts;
      for k := 0 to |posts|
        invariant Valid() && Abs() == Posts(old(Abs()), posts[..k])
      {
        assert posts[..k + 1][..k] == posts[..k];
        if MayPost(posts[k]) {
          HandleEvent(posts[k]);
        }
      }
    }

    predicate MayPost(p: Post<E>)
      reads this, ready, ready.bits
      requires Valid()
      ensures MayPost(p) <==> Allowed(Abs(), DoPost(p))
    {
      p.prio in aos && p.margin < aos[p.prio].capacity && (Fits(aos[p.prio], p.margin) || p.margin > 0)
    }

    /** One critical section of the loop in am_ao_run_all. */
    method PollOnce() returns (idle: bool, picked: bool, msb: nat)
      requires Valid() && phase.Polling?
      modifies `phase, ready, ready.bits
      ensures Valid() && Abs() == Step(old(Abs()), Poll)
      ensures idle <==> old(Abs()).ready == {}
      ensures idle ==> Abs() == old(Abs()) && !picked
      ensures if picked then phase == Picked(msb) else phase.Polling?
      ensures !idle && !picked ==> |Abs().ready| < |old(Abs()).ready|
    {
      StepInv(Abs(), Poll);
      idle, picked, msb := true, false, 0;
      if !ready.IsEmpty() {
        idle := false;
        msb := ready.Msb();
        assert msb == Highest(Abs().ready);
        if aos[msb].queue == [] {
          ready.Clear(msb);
        } else {
          picked, phase := true, Picked(msb);
        }
      }
    }

    /** The loop of am_ao_run_all, with isr[i] posted before its i-th critical
        section. It commits to the highest active object that waits, and gives up
        exactly when none does. */
    method Choose(isr: seq<seq<Post<E>>>) returns (chosen: bool, msb: nat)
      requires Valid() && phase.Polling?
      modifies this, ready, ready.bits
      ensures Valid() && Abs() == Select(old(Abs()), isr)
      ensures if chosen then phase == Picked(msb) else phase.Polling?
      ensures chosen <==> exists i :: Abs().Waiting(i)
      ensures chosen ==> Abs().Waiting(msb) && forall i: nat :: Abs().Waiting(i) ==> i <= msb
    {
      hide Inv, Select, Posts, Step, Numbers, Highest;
      SelectHighest(Abs(), isr);
      ghost var goal := Select(Abs(), isr);
      var k, idle := 0, false;
      chosen, msb := false, 0;
      assert isr[0..] == isr;
      while !idle && !chosen
        invariant 0 <= k <= |isr| && Valid()
        invariant if chosen then phase == Picked(msb) else phase.Polling?
        invariant if idle || chosen then Abs() == goal else Select(Abs(), isr[k..]) == goal
        decreases !idle && !chosen, |isr| - k, |Abs().ready|
      {
        ghost var s, rest := Abs(), isr[k..];
        SelectUnfold(s, rest);
        if k < |isr| {
          Interrupt(isr[k]);
          k := k + 1;
        }
        idle, chosen, msb := PollOnce();
      }
    }

    /** am_event_queue_pop_front for the active object picked. */
    method Pop(prio: nat) returns (event: E)
      requires Valid() && phase == Picked(prio)
      modifies `phase, `aos
      ensures Valid() && old(Abs()).Waiting(prio) && Abs() == PopStep(old(Abs()))
      ensures prio in old(aos) && prio in aos && old(aos)[prio].queue == [event] + aos[prio].queue
      ensures aos == old(aos)[prio := Ao(aos[prio].queue, old(aos)[prio].capacity)]
    {
      StepInv(Abs(), CoopSpec.Pop);
      var ao := aos[prio];
      event := ao.queue[0];
      aos := aos[prio := ao.(queue := ao.queue[1..])];
      phase := Handling(prio);
    }
  }
}
