/** How many meals the dining philosophers' table serves, in every run. */
module DiningSessions {
  import opened DiningSpec
  import opened DiningSafety

  /** The EAT notes in a philosopher's queue. */
  function Eats(q: seq<Note>): nat {
    if q == [] then 0 else Eats(q[..|q| - 1]) + if q[|q| - 1].EatMsg? then 1 else 0
  }

  /** The EAT notes the table has ever put in the queue of philosopher j. */
  function Served(n: nat, sessions: nat, acts: seq<Action>, j: nat): int
    requires j < n
  {
    if acts == [] then 0
    else
      var before, after := Run(n, sessions, acts[..|acts| - 1]), Run(n, sessions, acts);
      Served(n, sessions, acts[..|acts| - 1], j) +
      if acts[|acts| - 1].TableRuns? then Eats(after.pq[j]) - Eats(before.pq[j]) else 0
  }

  /** The sessions asked for, or the one meal with which a dinner of none ends. */
  function Meals(sessions: nat): nat { if sessions == 0 then 1 else sessions }

  /** After `served` meals. */
  ghost predicate Tally(w: World, sessions: nat, served: int) {
    && served >= 0
    && w.nsessions == (if served < sessions then sessions - served else 0)
    && (w.table.Serving? <==> served < Meals(sessions)) && served <= sessions + 1
    && (served == 0 ==> forall i :: 0 <= i < |w.marks| ==> w.marks[i] != MEating)
  }

  lemma OneMore(q: seq<Note>, m: Note)
    ensures Eats(q + [m]) == Eats(q) + if m.EatMsg? then 1 else 0
  {
    assert (q + [m])[..|q|] == q;
  }

  /** Serving a philosopher that waits is one meal for everybody's queue. */
  lemma WaitingMeal(w: World, i: nat, j: nat)
    requires w.Sized() && i < w.n && j < w.n
    ensures var w', k := ServeIfWaiting(w, i), if w.marks[i] == MHungry && CanServe(w, i) then 1 else 0;
      && Eats(w'.pq[j]) == Eats(w.pq[j]) + k
      && w'.nsessions == (if k <= w.nsessions then w.nsessions - k else 0)
      && w'.table == w.table
  {
    OneMore(w.pq[j], EatMsg(i));
  }

  lemma EndTells(w: World, j: nat)
    requires w.Sized() && j < w.n
    ensures var w' := EndIfOver(w);
      && Eats(w'.pq[j]) == Eats(w.pq[j]) && w'.nsessions == w.nsessions && w'.marks == w.marks
      && w'.table == if w.nsessions == 0 then Stopping else w.table
  {
    OneMore(w.pq[j], StopMsg);
  }

  lemma HungryTally(w: World, i: nat, j: nat, sessions: nat, served: int)
    requires Inv(w) && w.table.Serving? && w.tq != [] && w.tq[0] == HungryMsg(i) && j < w.n
    requires Tally(w, sessions, served)
    ensures var w' := TableStep(w); Tally(w', sessions, served + Eats(w'.pq[j]) - Eats(w.pq[j]))
  {
    HeadHungry(w, i);
    var w1 := w.(tq := w.tq[1..]);
    if CanServe(w1, i) {
      OneMore(w.pq[j], EatMsg(i));
      EndTells(Serve(w1, i), j);
    }
  }

  lemma DoneTally(w: World, i: nat, j: nat, sessions: nat, served: int)
    requires Inv(w) && w.table.Serving? && w.tq != [] && w.tq[0] == DoneMsg(i) && j < w.n
    requires Tally(w, sessions, served)
    ensures var w' := TableStep(w); Tally(w', sessions, served + Eats(w'.pq[j]) - Eats(w.pq[j]))
  {
    HeadDone(w, i);
    assert served > 0;
    var w1 := w.(tq := w.tq[1..], marks := w.marks[i := MDone]);
    var w2 := ServeIfWaiting(w1, Left(w.n, i));
    WaitingMeal(w1, Left(w.n, i), j);
    WaitingMeal(w2, Right(w.n, i), j);
    EndTells(ServeIfWaiting(w2, Right(w.n, i)), j);
  }

  lemma StepTally(w: World, a: Action, j: nat, sessions: nat, served: int)
    requires Inv(w) && Tally(w, sessions, served) && j < w.n
    ensures var w' := Step(w, a);
      Tally(w', sessions, served + if a.TableRuns? then Eats(w'.pq[j]) - Eats(w.pq[j]) else 0)
  {
    match a
    case TableRuns =>
      if w.table.Serving? && w.tq != [] {
        PopMail(w);
        if w.tq[0].HungryMsg? {
          HungryTally(w, w.tq[0].philo, j, sessions, served);
        } else {
          DoneTally(w, w.tq[0].philo, j, sessions, served);
        }
      }
    case PhiloRuns(i) =>
    case TimerFires(i) =>
  }

  /** In every run every philosopher's queue has been told of the same number of meals.
      They count nsessions down to zero, the table serves exactly until the sessions
      are over, and at most one meal more is served, when one DONE serves both
      neighbours. A dinner of no sessions ends with its first meal. */
  lemma {:induction false} MealsServed(n: nat, sessions: nat, acts: seq<Action>, j: nat)
    requires n >= 2 && j < n
    ensures var w, served := Run(n, sessions, acts), Served(n, sessions, acts, j);
      && served >= 0
      && w.nsessions == (if served < sessions then sessions - served else 0)
      && (w.table.Serving? <==> served < if sessions == 0 then 1 else sessions)
      && served <= sessions + 1
      && Tally(w, sessions, served)
  {
    if acts != [] {
      MealsServed(n, sessions, acts[..|acts| - 1], j);
      RunInv(n, sessions, acts[..|acts| - 1]);
      StepTally(Run(n, sessions, acts[..|acts| - 1]), acts[|acts| - 1], j, sessions,
                Served(n, sessions, acts[..|acts| - 1], j));
    }
  }

  // ------------------------------------------------------------- one meal too many

  const LastOrders: seq<Action> := [
    TimerFires(0), PhiloRuns(0), TimerFires(1), PhiloRuns(1), TimerFires(3), PhiloRuns(3),
    TableRuns, TableRuns, TableRuns, PhiloRuns(0), TimerFires(0), PhiloRuns(0), TableRuns]

  const E0 := [EatMsg(0)]
  const W0 := World(4, [MDone, MDone, MDone, MDone], 2, 0, Serving, [],
                    [Thinking, Thinking, Thinking, Thinking], [[], [], [], []],
                    [true, true, true, true], false)
  const W1 := W0.(pq := [[TimeoutMsg], [], [], []], armed := [false, true, true, true])
  const W2 := W1.(tq := [HungryMsg(0)], ps := [Hungry, Thinking, Thinking, Thinking], pq := [[], [], [], []])
  const W3 := W2.(pq := [[], [TimeoutMsg], [], []], armed := [false, false, true, true])
  const W4 := W3.(tq := [HungryMsg(0), HungryMsg(1)], ps := [Hungry, Hungry, Thinking, Thinking],
                     pq := [[], [], [], []])
  const W5 := W4.(pq := [[], [], [], [TimeoutMsg]], armed := [false, false, true, false])
  const W6 := W5.(tq := [HungryMsg(0), HungryMsg(1), HungryMsg(3)], ps := [Hungry, Hungry, Thinking, Hungry],
                     pq := [[], [], [], []])
  const W7 := W6.(marks := [MEating, MDone, MDone, MDone], nsessions := 1,
                     tq := [HungryMsg(1), HungryMsg(3)], pq := [E0, E0, E0, E0])
  const W8 := W7.(marks := [MEating, MHungry, MDone, MDone], tq := [HungryMsg(3)])
  const W9 := W8.(marks := [MEating, MHungry, MDone, MHungry], tq := [])
  const W10 := W9.(ps := [Eating, Hungry, Thinking, Hungry], pq := [[], E0, E0, E0],
                     armed := [true, false, true, false])
  const W11 := W10.(pq := [[TimeoutMsg], E0, E0, E0], armed := [false, false, true, false])
  const W12 := W11.(tq := [DoneMsg(0)], ps := [Thinking, Hungry, Thinking, Hungry],
                     pq := [[], E0, E0, E0], armed := [true, false, true, false])

  lemma RunNext(n: nat, sessions: nat, acts: seq<Action>, k: nat)
    requires k < |acts|
    ensures Run(n, sessions, acts[..k + 1]) == Step(Run(n, sessions, acts[..k]), acts[k])
    ensures k == 0 ==> Run(n, sessions, acts[..k]) == Init(n, sessions)
  {
    assert acts[..k + 1][..k] == acts[..k];
  }

  lemma ThreeOrder()
    ensures Init(4, 2) == W0
    ensures Step(W0, TimerFires(0)) == W1 && Step(W1, PhiloRuns(0)) == W2
    ensures Step(W2, TimerFires(1)) == W3 && Step(W3, PhiloRuns(1)) == W4
    ensures Step(W4, TimerFires(3)) == W5 && Step(W5, PhiloRuns(3)) == W6
  {
    assert [] + [TimeoutMsg] == [TimeoutMsg] && [TimeoutMsg][1..] == [];
    assert [] + [HungryMsg(0)] == [HungryMsg(0)];
    assert [HungryMsg(0)] + [HungryMsg(1)] == [HungryMsg(0), HungryMsg(1)];
    assert [HungryMsg(0), HungryMsg(1)] + [HungryMsg(3)] == [HungryMsg(0), HungryMsg(1), HungryMsg(3)];
    assert Init(4, 2) == W0;
    assert W0.pq[0 := [TimeoutMsg]] == W1.pq && W0.armed[0 := false] == W1.armed;
    assert W1.pq[0 := []] == W2.pq && W1.ps[0 := Hungry] == W2.ps;
  }

  lemma OneServed()
    ensures Step(W6, TableRuns) == W7 && Step(W7, TableRuns) == W8 && Step(W8, TableRuns) == W9
  {
    assert [] + [EatMsg(0)] == E0;
    assert Broadcast(W6.pq, EatMsg(0)) == W7.pq && W6.marks[0 := MEating] == W7.marks;
    assert W6.tq[1..] == W7.tq && W7.tq[1..] == W8.tq && W8.tq[1..] == W9.tq;
    assert W7.marks[1 := MHungry] == W8.marks && W8.marks[3 := MHungry] == W9.marks;
  }

  lemma OneEats()
    ensures Step(W9, PhiloRuns(0)) == W10
    ensures Step(W10, TimerFires(0)) == W11 && Step(W11, PhiloRuns(0)) == W12
  {
    assert E0[1..] == [] && [] + [TimeoutMsg] == [TimeoutMsg] && [TimeoutMsg][1..] == [];
    assert [] + [DoneMsg(0)] == [DoneMsg(0)];
    assert W9.pq[0 := []] == W10.pq && W9.ps[0 := Eating] == W10.ps && W9.armed[0 := true] == W10.armed;
    assert W10.pq[0 := [TimeoutMsg]] == W11.pq && W10.armed[0 := false] == W11.armed;
    assert W11.pq[0 := []] == W12.pq && W11.ps[0 := Thinking] == W12.ps && W11.armed[0 := true] == W12.armed;
  }

  lemma TwoWait()
    ensures Run(4, 2, LastOrders[..12]) == W12
  {
    hide Step;
    ThreeOrder();
    OneServed();
    OneEats();
    RunNext(4, 2, LastOrders, 0);
    RunNext(4, 2, LastOrders, 1);
    RunNext(4, 2, LastOrders, 2);
    RunNext(4, 2, LastOrders, 3);
    RunNext(4, 2, LastOrders, 4);
    RunNext(4, 2, LastOrders, 5);
    RunNext(4, 2, LastOrders, 6);
    RunNext(4, 2, LastOrders, 7);
    RunNext(4, 2, LastOrders, 8);
    RunNext(4, 2, LastOrders, 9);
    RunNext(4, 2, LastOrders, 10);
    RunNext(4, 2, LastOrders, 11);
  }

  /** The bound is reached: of four philosophers with two sessions, one eats, and when it
      is done both neighbours are served, the third meal after the last session. */
  lemma OneMealMore(j: nat)
    requires j < 4
    ensures Served(4, 2, LastOrders, j) == 3 && Run(4, 2, LastOrders).table == Stopping
  {
    TwoWait();
    var w := W12;
    MealsServed(4, 2, LastOrders[..12], j);
    RunNext(4, 2, LastOrders, 12);
    assert LastOrders[..13] == LastOrders;
    var w1 := w.(tq := [], marks := w.marks[0 := MDone]);
    assert w.tq[1..] == [];
    var w2 := ServeIfWaiting(w1, 3);
    WaitingMeal(w1, 3, j);
    WaitingMeal(w2, 1, j);
    EndTells(ServeIfWaiting(w2, 1), j);
  }
}
