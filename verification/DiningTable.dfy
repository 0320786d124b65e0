/** The handlers of table.c and philo.c on their mutable state. Each method runs
    one handler to completion; the asserts are the source's AM_ASSERTs. */
module DiningTable {
  import opened DiningSpec
  import opened DiningSafety

  class Dpp {
    const n: nat
    // struct table
    const philo: array<Mark>
    var nsessions: nat
    var nstops: nat
    var table: Table
    var tq: seq<Mail>
    // struct philo, one entry each
    var ps: seq<Philo>
    var pq: seq<seq<Note>>
    var armed: seq<bool>

    ghost function Now(): World
      reads this, philo
    {
      World(n, philo[..], nsessions, nstops, table, tq, ps, pq, armed, false)
    }

    constructor (n: nat, sessions: nat)
      requires n >= 2
      ensures fresh(philo) && Now() == Init(n, sessions) && Inv(Now())
    {
      this.n := n;
      philo := new Mark[n](_ => MDone);
      nsessions, nstops, table, tq := sessions, 0, Serving, [];
      ps, pq, armed := seq(n, _ => Thinking), seq(n, _ => []), seq(n, _ => true);
      new;
      assert philo[..] == seq(n, _ => MDone);
      RunInv(n, sessions, []);
    }

    /** am_ao_publish to the philosophers, in descending priority. */
    method Publish(note: Note)
      requires |pq| == n
      modifies this`pq
      ensures pq == Broadcast(old(pq), note)
    {
      var j := n;
      while j > 0
        invariant 0 <= j <= n && |pq| == n
        invariant forall k :: 0 <= k < n ==> pq[k] == if k < j then old(pq)[k] else old(pq)[k] + [note]
      {
        j := j - 1;
        pq := pq[j := pq[j] + [note]];
      }
    }

    method TableServe(i: nat)
      requires Now().Sized() && i < n
      modifies this`pq, this`nsessions, philo
      ensures Now() == Serve(old(Now()), i)
      ensures |pq| == n && forall j :: 0 <= j < n ==> pq[j] == old(pq)[j] + [EatMsg(i)]
      ensures philo[..] == old(philo[..])[i := MEating]
      ensures nsessions == if old(nsessions) > 0 then old(nsessions) - 1 else 0
    {
      Publish(EatMsg(i));
      philo[i] := MEating;
      if nsessions > 0 {
        nsessions := nsessions - 1;
      }
    }

    method TableCanServe(i: nat) returns (can: bool)
      requires Now().Sized() && i < n
      ensures can == CanServe(Now(), i)
    {
      if philo[Left(n, i)] == MEating {
        return false;
      }
      if philo[Right(n, i)] == MEating {
        return false;
      }
      return true;
    }

    /** The lines that table_serving has once for each neighbour. */
    method ServeNeighbour(i: nat)
      requires Now().Sized() && i < n
      modifies this`pq, this`nsessions, philo
      ensures Now() == ServeIfWaiting(old(Now()), i)
    {
      if philo[i] == MHungry {
        var can := TableCanServe(i);
        if can {
          TableServe(i);
        }
      }
    }

    method TableServingHandler(m: Mail)
      requires Now().Sized()
      requires !TableServing(Now(), m).fault
      modifies this`pq, this`nsessions, this`table, philo
      ensures Now() == TableServing(old(Now()), m)
    {
      match m {
        case HungryMsg(i) =>
          assert i < n && philo[i] != MHungry;
          var can := TableCanServe(i);
          if can {
            TableServe(i);
            if nsessions == 0 {
              Publish(StopMsg);
              table := Stopping;
            }
            return;
          }
          philo[i] := MHungry;
        case DoneMsg(i) =>
          assert i < n && philo[i] == MEating;
          philo[i] := MDone;
          ServeNeighbour(Left(n, i));
          ServeNeighbour(Right(n, i));
          if nsessions == 0 {
            Publish(StopMsg);
            table := Stopping;
          }
        case StoppedMsg =>
      }
    }

    /** The scheduler runs the table on the head of its queue. */
    method RunTable()
      requires Inv(Now())
      modifies this, philo
      ensures Now() == TableStep(old(Now())) && Inv(Now())
    {
      StepInv(Now(), TableRuns);
      if tq == [] || table == Closed {
        return;
      }
      var m := tq[0];
      tq := tq[1..];
      if table == Serving {
        TableServingHandler(m);
      } else if m == StoppedMsg {
        nstops := nstops + 1;
        if nstops == n {
          table, tq := Closed, [];
        }
      }
    }

    /** am_ao_post_fifo to the table */
    method PostToTable(m: Mail)
      requires table != Closed
      modifies this`tq
      ensures tq == old(tq) + [m]
    {
      tq := tq + [m];
    }

    /** philo_top */
    method PhiloTop(i: nat, m: Note)
      requires Now().Sized() && i < n && table != Closed
      modifies this`armed, this`tq, this`ps, this`pq
      ensures Now() == if m == StopMsg then StopPhilo(old(Now()), i) else old(Now())
    {
      if m == StopMsg {
        armed := armed[i := false];
        PostToTable(StoppedMsg);
        ps, pq := ps[i := Stopped], pq[i := []];
      }
    }

    /** philo_thinking, with the transition to philo_hungry */
    method PhiloThinking(i: nat, m: Note)
      requires Now().Sized() && i < n && table != Closed && ps[i] == Thinking
      modifies this`armed, this`tq, this`ps, this`pq
      ensures Now() == PhiloHandle(old(Now()), i, m)
    {
      if m == TimeoutMsg {
        PostToTable(HungryMsg(i));
        ps := ps[i := Hungry];
        return;
      }
      PhiloTop(i, m);
    }

    /** philo_hungry, with the transition to philo_eating */
    method PhiloHungry(i: nat, m: Note)
      requires Now().Sized() && i < n && table != Closed && ps[i] == Hungry
      modifies this`armed, this`tq, this`ps, this`pq
      ensures Now() == PhiloHandle(old(Now()), i, m)
    {
      if m.EatMsg? {
        if m.philo == i {
          ps, armed := ps[i := Eating], armed[i := true];
        }
        return;
      }
      PhiloTop(i, m);
    }

    /** philo_eating, with the transition to philo_thinking */
    method PhiloEating(i: nat, m: Note)
      requires Now().Sized() && i < n && table != Closed && ps[i] == Eating
      modifies this`armed, this`tq, this`ps, this`pq
      ensures Now() == PhiloHandle(old(Now()), i, m)
    {
      if m == TimeoutMsg {
        PostToTable(DoneMsg(i));
        ps, armed := ps[i := Thinking], armed[i := true];
        return;
      }
      PhiloTop(i, m);
    }

    /** am_hsm_dispatch to the handler of the active state */
    method Handle(i: nat, m: Note)
      requires Now().Sized() && i < n && table != Closed && ps[i] != Stopped
      modifies this`armed, this`tq, this`ps, this`pq
      ensures Now() == PhiloHandle(old(Now()), i, m)
    {
      match ps[i] {
        case Thinking => PhiloThinking(i, m);
        case Hungry => PhiloHungry(i, m);
        case Eating => PhiloEating(i, m);
      }
    }

    /** The scheduler runs philosopher `i` on the head of its queue. */
    method RunPhilo(i: nat)
      requires Inv(Now()) && i < n
      modifies this
      ensures Now() == PhiloStep(old(Now()), i) && Inv(Now())
    {
      StepInv(Now(), PhiloRuns(i));
      if pq[i] == [] || ps[i] == Stopped {
        return;
      }
      RunningIsServed(Now(), i);
      var m := pq[i][0];
      pq := pq[i := pq[i][1..]];
      Handle(i, m);
    }

    /** The ticker posts philosopher `i`'s expired timer. */
    method Fire(i: nat)
      requires Inv(Now()) && i < n && armed[i]
      modifies this
      ensures Now() == FireStep(old(Now()), i) && Inv(Now())
    {
      StepInv(Now(), TimerFires(i));
      armed := armed[i := false];
      pq := pq[i := pq[i] + [TimeoutMsg]];
    }
  }

  /** While a philosopher runs, so does the table. */
  lemma RunningIsServed(w: World, i: nat)
    requires Inv(w) && i < w.n && !w.ps[i].Stopped?
    ensures !w.table.Closed?
  {
    CountStoppedAll(w.ps);
  }
}
