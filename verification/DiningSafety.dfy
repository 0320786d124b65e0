/** Safety and progress of the dining philosophers protocol in every run. */
module DiningSafety {
  import opened DiningSpec

  /** The messages about philosopher `i`, in queue order. */
  function About(tq: seq<Mail>, i: nat): seq<Mail> {
    if tq == [] then [] else
    (if tq[0] == HungryMsg(i) || tq[0] == DoneMsg(i) then [tq[0]] else []) + About(tq[1..], i)
  }

  function Ones(b: bool): nat { if b then 1 else 0 }

  /** Everything in the world that concerns one philosopher. `timeouts` counts the
      armed timer and the timeouts waiting in the queue. */
  datatype View = View(mark: Mark, ps: Philo, mail: seq<Mail>, eats: nat, timeouts: nat, stops: nat)

  function ViewOf(w: World, i: nat): View
    requires w.Sized() && i < w.n
  {
    var q := multiset(w.pq[i]);
    View(w.marks[i], w.ps[i], About(w.tq, i), q[EatMsg(i)], q[TimeoutMsg] + Ones(w.armed[i]), q[StopMsg])
  }

  /** The seven phases of a philosopher's cycle while the table serves. */
  predicate Cycle(v: View, i: nat) {
    v.stops == 0 &&
    match v.ps
    case Thinking =>
      v.eats == 0 && v.timeouts == 1 &&
      ((v.mark == MDone && v.mail == []) || (v.mark == MEating && v.mail == [DoneMsg(i)]))
    case Hungry =>
      v.timeouts == 0 &&
      ((v.eats == 0 && v.mark == MDone && v.mail == [HungryMsg(i)])
       || (v.eats == 0 && v.mark == MEating && v.mail == [DoneMsg(i), HungryMsg(i)])
       || (v.eats == 0 && v.mark == MHungry && v.mail == [])
       || (v.eats == 1 && v.mark == MEating && v.mail == []))
    case Eating => v.eats == 0 && v.timeouts == 1 && v.mark == MEating && v.mail == []
    case Stopped => false
  }

  /** Once the table no longer serves. */
  predicate Leaving(v: View, i: nat) {
    if v.ps.Stopped? then v.eats == v.timeouts == v.stops == 0
    else v.stops == 1 && (v.ps.Eating? || v.eats > 0 ==> v.mark == MEating)
  }

  /** No two neighbours are marked eating. */
  ghost predicate Apart(w: World)
    requires w.Sized()
  {
    forall i {:trigger w.marks[i]} :: 0 <= i < w.n && w.marks[i] == MEating ==> w.marks[Right(w.n, i)] != MEating
  }

  /** Whoever is marked hungry has a neighbour marked eating. */
  ghost predicate Waiting(w: World)
    requires w.Sized()
  {
    forall i {:trigger w.marks[i]} :: 0 <= i < w.n && w.marks[i] == MHungry ==> !CanServe(w, i)
  }

  function CountStopped(ps: seq<Philo>): nat {
    if ps == [] then 0 else CountStopped(ps[..|ps| - 1]) + Ones(ps[|ps| - 1].Stopped?)
  }

  ghost predicate AllCycle(w: World)
    requires w.Sized()
  {
    forall i {:trigger ViewOf(w, i)} :: 0 <= i < w.n ==> Cycle(ViewOf(w, i), i)
  }

  ghost predicate AllLeaving(w: World)
    requires w.Sized()
  {
    forall i {:trigger ViewOf(w, i)} :: 0 <= i < w.n ==> Leaving(ViewOf(w, i), i)
  }

  /** The STOPPED reports sent are those received or under way. */
  predicate Counted(w: World) {
    w.nstops + multiset(w.tq)[StoppedMsg] == CountStopped(w.ps)
  }

  /** Messages to the table are about its philosophers. */
  predicate Known(w: World) {
    forall k :: 0 <= k < |w.tq| ==> w.tq[k].StoppedMsg? || w.tq[k].philo < w.n
  }

  ghost predicate Inv(w: World) {
    && !w.fault && w.n >= 2 && w.Sized() && Apart(w) && Counted(w) && Known(w)
    && match w.table
       case Serving => w.nstops == 0 && AllCycle(w) && Waiting(w)
       case Stopping => w.nstops < w.n && AllLeaving(w)
       case Closed => w.nstops == w.n && w.tq == [] && AllLeaving(w)
  }

  // -------------------------------------------------------- queues and neighbours

  lemma {:induction false} AboutAppend(tq: seq<Mail>, m: Mail, i: nat)
    ensures About(tq + [m], i) == About(tq, i) + (if m == HungryMsg(i) || m == DoneMsg(i) then [m] else [])
  {
    if tq != [] {
      assert (tq + [m])[1..] == tq[1..] + [m];
      AboutAppend(tq[1..], m, i);
    }
  }

  lemma TailCount<T>(q: seq<T>)
    requires q != []
    ensures multiset(q) == multiset{q[0]} + multiset(q[1..])
  {
    assert q == [q[0]] + q[1..];
  }

  lemma {:induction false} CountStoppedUpdate(ps: seq<Philo>, i: nat, s: Philo)
    requires i < |ps|
    ensures CountStopped(ps[i := s]) == CountStopped(ps) - Ones(ps[i].Stopped?) + Ones(s.Stopped?)
    decreases |ps|
  {
    var k := |ps| - 1;
    if i < k {
      assert ps[i := s][..k] == ps[..k][i := s];
      CountStoppedUpdate(ps[..k], i, s);
    } else {
      assert ps[i := s][..k] == ps[..k];
    }
  }

  lemma {:induction false} CountStoppedAll(ps: seq<Philo>)
    ensures CountStopped(ps) <= |ps|
    ensures CountStopped(ps) == |ps| <==> forall i :: 0 <= i < |ps| ==> ps[i].Stopped?
    ensures CountStopped(ps) == 0 <==> forall i :: 0 <= i < |ps| ==> !ps[i].Stopped?
  {
    if ps != [] {
      CountStoppedAll(ps[..|ps| - 1]);
    }
  }

  // --------------------------------------------------------- the table's handlers

  /** Serving with every waiting philosopher accounted for, but perhaps those in
      `open`, whose neighbour just finished. */
  ghost predicate ServingBut(w: World, open: set<nat>) {
    && !w.fault && w.n >= 2 && w.Sized() && w.table.Serving? && w.nstops == 0
    && Apart(w) && Counted(w) && Known(w) && AllCycle(w)
    && forall i {:trigger w.marks[i]} :: 0 <= i < w.n && i !in open && w.marks[i] == MHungry ==> !CanServe(w, i)
  }

  lemma ServeView(w: World, i: nat, j: nat)
    requires w.Sized() && i < w.n && j < w.n
    ensures ViewOf(Serve(w, j), i) ==
      if i == j then ViewOf(w, i).(mark := MEating, eats := ViewOf(w, i).eats + 1) else ViewOf(w, i)
  {
  }

  lemma ServeApart(w: World, j: nat)
    requires w.Sized() && w.n >= 2 && j < w.n && Apart(w) && CanServe(w, j)
    ensures Apart(Serve(w, j))
  {
    var w' := Serve(w, j);
    forall i {:trigger w'.marks[i]} | 0 <= i < w.n && w'.marks[i] == MEating
      ensures w'.marks[Right(w.n, i)] != MEating
    {
      if i != j {
        assert w.marks[i] == MEating;
        assert Left(w.n, Right(w.n, i)) == i;
      }
    }
  }

  lemma ServeIfWaitingOk(w: World, j: nat, open: set<nat>)
    requires ServingBut(w, open) && j < w.n
    ensures ServingBut(ServeIfWaiting(w, j), open - {j})
  {
    if w.marks[j] == MHungry && CanServe(w, j) {
      ServeApart(w, j);
      assert Cycle(ViewOf(w, j), j);
      forall i | 0 <= i < w.n
        ensures Cycle(ViewOf(Serve(w, j), i), i)
      {
        assert Cycle(ViewOf(w, i), i);
        ServeView(w, i, j);
      }
    }
  }

  lemma EndIfOverOk(w: World)
    requires ServingBut(w, {})
    ensures Inv(EndIfOver(w))
  {
    if w.nsessions == 0 {
      var w' := EndIfOver(w);
      forall i | 0 <= i < w.n
        ensures Leaving(ViewOf(w', i), i)
      {
        assert Cycle(ViewOf(w, i), i);
      }
    }
  }

  lemma PopMail(w: World)
    requires Inv(w) && w.table.Serving? && w.tq != []
    ensures var w1 := w.(tq := w.tq[1..]);
      && w.tq[0] != StoppedMsg && Counted(w1)
      && forall i {:trigger ViewOf(w1, i)} :: 0 <= i < w.n && w.tq[0] != HungryMsg(i) && w.tq[0] != DoneMsg(i) ==>
           ViewOf(w1, i) == ViewOf(w, i)
  {
    TailCount(w.tq);
    CountStoppedAll(w.ps);
    forall i | 0 <= i < w.n
      ensures !w.ps[i].Stopped?
    {
      assert Cycle(ViewOf(w, i), i);
    }
    assert w.tq[0] in multiset(w.tq);
  }

  lemma HeadHungry(w: World, i: nat)
    requires Inv(w) && w.table.Serving? && w.tq != [] && w.tq[0] == HungryMsg(i)
    ensures i < w.n && w.marks[i] == MDone
    ensures ViewOf(w, i) == View(MDone, Hungry, [HungryMsg(i)], 0, 0, 0) && About(w.tq[1..], i) == []
  {
    assert Cycle(ViewOf(w, i), i);
    assert About(w.tq, i)[0] == HungryMsg(i);
  }

  lemma HeadDone(w: World, i: nat)
    requires Inv(w) && w.table.Serving? && w.tq != [] && w.tq[0] == DoneMsg(i)
    ensures i < w.n && w.marks[i] == MEating
    ensures var v := ViewOf(w, i);
      && v.mark == MEating
      && Cycle(v.(mark := MDone, mail := About(w.tq[1..], i)), i)
  {
    assert Cycle(ViewOf(w, i), i);
    assert About(w.tq, i)[0] == DoneMsg(i);
    assert About(w.tq[1..], i) == About(w.tq, i)[1..];
  }

  /** HUNGRY from a philosopher whose neighbours do not eat: served at once. */
  lemma HungryServed(w: World, i: nat)
    requires Inv(w) && w.table.Serving? && w.tq != [] && w.tq[0] == HungryMsg(i)
    requires i < w.n && CanServe(w, i)
    ensures w.marks[i] == MDone && ServingBut(Serve(w.(tq := w.tq[1..]), i), {})
  {
    hide ViewOf, About, Counted, Known;
    PopMail(w);
    PopKnown(w);
    var w1 := w.(tq := w.tq[1..]);
    var w2 := Serve(w1, i);
    HeadHungry(w, i);
    ServeApart(w1, i);
    PopView(w, i);
    forall j | 0 <= j < w.n
      ensures Cycle(ViewOf(w2, j), j)
    {
      assert Cycle(ViewOf(w, j), j);
      ServeView(w1, j, i);
    }
    ServeCounted(w1, i);
  }

  lemma ServeCounted(w: World, i: nat)
    requires w.Sized() && i < w.n && Counted(w) && Known(w)
    ensures Counted(Serve(w, i)) && Known(Serve(w, i))
  {
  }

  /** HUNGRY from a philosopher with an eating neighbour: marked hungry. */
  lemma HungryWaits(w: World, i: nat)
    requires Inv(w) && w.table.Serving? && w.tq != [] && w.tq[0] == HungryMsg(i)
    requires i < w.n && !CanServe(w, i)
    ensures w.marks[i] == MDone && Inv(w.(tq := w.tq[1..], marks := w.marks[i := MHungry]))
  {
    hide ViewOf, About, Counted, Known;
    PopMail(w);
    PopKnown(w);
    var w1 := w.(tq := w.tq[1..]);
    var w2 := w1.(marks := w.marks[i := MHungry]);
    HeadHungry(w, i);
    forall j | 0 <= j < w.n
      ensures Cycle(ViewOf(w2, j), j)
    {
      assert Cycle(ViewOf(w, j), j);
      MarkView(w1, i, MHungry, j);
      PopView(w, i);
    }
    MarkCounted(w1, w2);
    MarkApart(w1, i, MHungry);
    forall j {:trigger w2.marks[j]} | 0 <= j < w.n && w2.marks[j] == MHungry
      ensures !CanServe(w2, j)
    {
      assert j != i ==> w.marks[j] == MHungry;
    }
  }

  /** Marking a philosopher as not eating keeps eaters apart. */
  lemma MarkApart(w: World, i: nat, mark: Mark)
    requires w.Sized() && w.n >= 2 && i < w.n && Apart(w) && mark != MEating
    ensures Apart(w.(marks := w.marks[i := mark]))
  {
    var w' := w.(marks := w.marks[i := mark]);
    forall j {:trigger w'.marks[j]} | 0 <= j < w.n && w'.marks[j] == MEating
      ensures w'.marks[Right(w.n, j)] != MEating
    {
      assert w.marks[j] == MEating;
    }
  }

  /** DONE: the philosopher leaves, its neighbours may be waiting for that. */
  lemma DoneReceived(w: World, i: nat)
    requires Inv(w) && w.table.Serving? && w.tq != [] && w.tq[0] == DoneMsg(i)
    ensures i < w.n && w.marks[i] == MEating
    ensures ServingBut(w.(tq := w.tq[1..], marks := w.marks[i := MDone]), {Left(w.n, i), Right(w.n, i)})
  {
    hide ViewOf, About, Cycle, Counted, Known, Waiting;
    PopMail(w);
    HeadDone(w, i);
    PopKnown(w);
    var w1 := w.(tq := w.tq[1..]);
    var w2 := w1.(marks := w.marks[i := MDone]);
    forall j | 0 <= j < w.n
      ensures Cycle(ViewOf(w2, j), j)
    {
      assert Cycle(ViewOf(w, j), j);
      MarkView(w1, i, MDone, j);
      PopView(w, i);
    }
    MarkApart(w1, i, MDone);
    DoneWaiting(w, w2, i);
    MarkCounted(w1, w2);
  }

  lemma MarkView(w: World, i: nat, mark: Mark, j: nat)
    requires w.Sized() && i < w.n && j < w.n
    ensures ViewOf(w.(marks := w.marks[i := mark]), j) == if j == i then ViewOf(w, i).(mark := mark) else ViewOf(w, j)
  {
  }

  lemma PopView(w: World, i: nat)
    requires w.Sized() && i < w.n && w.tq != []
    ensures ViewOf(w.(tq := w.tq[1..]), i) == ViewOf(w, i).(mail := About(w.tq[1..], i))
  {
  }

  lemma PopKnown(w: World)
    requires Known(w) && w.tq != []
    ensures Known(w.(tq := w.tq[1..]))
  {
  }

  /** Neither predicate looks at the marks. */
  lemma MarkCounted(w: World, w': World)
    requires w' == w.(marks := w'.marks) && Counted(w) && Known(w)
    ensures Counted(w') && Known(w')
  {
  }

  /** Only the neighbours of who is done may now be served. */
  lemma DoneWaiting(w: World, w2: World, i: nat)
    requires w.Sized() && w.n >= 2 && i < w.n && Waiting(w)
    requires w2 == w.(tq := w2.tq, marks := w.marks[i := MDone])
    ensures forall j {:trigger w2.marks[j]} ::
      0 <= j < w2.n && j !in {Left(w.n, i), Right(w.n, i)} && w2.marks[j] == MHungry ==>
      !CanServe(w2, j)
  {
    forall j {:trigger w2.marks[j]} | 0 <= j < w.n && j !in {Left(w.n, i), Right(w.n, i)} && w2.marks[j] == MHungry
      ensures !CanServe(w2, j)
    {
      assert w.marks[j] == MHungry;
      assert Right(w.n, Left(w.n, j)) == j && Left(w.n, Right(w.n, j)) == j;
    }
  }

  lemma TableServingOk(w: World)
    requires Inv(w) && w.table.Serving?
    ensures Inv(TableStep(w))
  {
    if w.tq != [] {
      PopMail(w);
      var m, w1 := w.tq[0], w.(tq := w.tq[1..]);
      match m
      case HungryMsg(i) =>
        HeadHungry(w, i);
        assert CanServe(w1, i) == CanServe(w, i);
        if CanServe(w, i) {
          HungryServed(w, i);
          EndIfOverOk(Serve(w1, i));
        } else {
          HungryWaits(w, i);
        }
      case DoneMsg(i) =>
        DoneReceived(w, i);
        var l, r, w2 := Left(w.n, i), Right(w.n, i), w1.(marks := w.marks[i := MDone]);
        ServeIfWaitingOk(w2, l, {l, r});
        var w3 := ServeIfWaiting(w2, l);
        ServeIfWaitingOk(w3, r, {l, r} - {l});
        assert {l, r} - {l} - {r} == {};
        EndIfOverOk(ServeIfWaiting(w3, r));
      case StoppedMsg =>
    }
  }

  lemma TableStoppingOk(w: World)
    requires Inv(w) && w.table.Stopping?
    ensures Inv(TableStep(w))
  {
    if w.tq != [] {
      TailCount(w.tq);
      CountStoppedAll(w.ps);
      var w' := TableStep(w);
      forall j | 0 <= j < w.n
        ensures Leaving(ViewOf(w', j), j)
      {
        assert Leaving(ViewOf(w, j), j);
      }
      if w'.table.Closed? {
        assert multiset(w.tq)[StoppedMsg] == 1;
      }
    }
  }

  // -------------------------------------------------- philosophers and timers

  lemma FireOk(w: World, i: nat)
    requires Inv(w) && i < w.n
    ensures Inv(FireStep(w, i))
  {
    hide FireStep, ViewOf, Cycle, Leaving;
    FireFrame(w, i);
    forall j | 0 <= j < w.n
      ensures ViewOf(FireStep(w, i), j) == ViewOf(w, j)
    {
      FireView(w, i, j);
    }
  }

  lemma FireFrame(w: World, i: nat)
    requires w.Sized() && i < w.n
    ensures FireStep(w, i) == w.(pq := FireStep(w, i).pq, armed := FireStep(w, i).armed)
  {
  }

  lemma FireView(w: World, i: nat, j: nat)
    requires w.Sized() && i < w.n && j < w.n
    ensures ViewOf(FireStep(w, i), j) == ViewOf(w, j)
  {
  }

  /** Taking a note out of a philosopher's queue. */
  function Taken(w: World, i: nat): World
    requires w.Sized() && i < w.n && w.pq[i] != []
  {
    w.(pq := w.pq[i := w.pq[i][1..]])
  }

  /** The view of a philosopher once its queue's head note is taken out. */
  function TakeView(v: View, m: Note, i: nat): View {
    if m == EatMsg(i) && v.eats > 0 then v.(eats := v.eats - 1)
    else if m.TimeoutMsg? && v.timeouts > 0 then v.(timeouts := v.timeouts - 1)
    else if m.StopMsg? && v.stops > 0 then v.(stops := v.stops - 1)
    else v
  }

  lemma TakenView(w: World, i: nat, j: nat)
    requires w.Sized() && i < w.n && j < w.n && w.pq[i] != []
    ensures ViewOf(Taken(w, i), j) ==
      if j != i then ViewOf(w, j) else TakeView(ViewOf(w, i), w.pq[i][0], i)
  {
    TailCount(w.pq[i]);
  }

  // The view of `i` after each of its handlers' reactions; other views stay.

  lemma StopView(w: World, i: nat, j: nat)
    requires w.Sized() && !w.table.Closed? && i < w.n && j < w.n
    ensures ViewOf(StopPhilo(w, i), j) ==
      if j == i then View(w.marks[i], Stopped, About(w.tq, i), 0, 0, 0) else ViewOf(w, j)
  {
    AboutAppend(w.tq, StoppedMsg, j);
  }

  lemma EnterView(w: World, i: nat, j: nat, s: Philo)
    requires w.Sized() && i < w.n && j < w.n
    ensures ViewOf(Enter(w, i, s), j) ==
      if j != i then ViewOf(w, j)
      else
        var v := ViewOf(w, i);
        v.(ps := s, timeouts := v.timeouts + Ones(!w.armed[i] && !s.Hungry?))
  {
  }

  lemma PostView(w: World, i: nat, j: nat, m: Mail)
    requires w.Sized() && !w.table.Closed? && i < w.n && j < w.n && (m == HungryMsg(i) || m == DoneMsg(i))
    ensures ViewOf(Post(w, m), j) ==
      if j != i then ViewOf(w, j) else ViewOf(w, i).(mail := ViewOf(w, i).mail + [m])
  {
    AboutAppend(w.tq, m, j);
  }

  predicate Good(w: World, i: nat)
    requires w.Sized() && i < w.n
  {
    if w.table.Serving? then Cycle(ViewOf(w, i), i) else Leaving(ViewOf(w, i), i)
  }

  /** A philosopher's handler does not touch the others' views. */
  lemma OthersKeep(w: World, i: nat, j: nat)
    requires w.Sized() && !w.table.Closed? && i < w.n && j < w.n && j != i
    requires w.pq[i] != [] && !w.ps[i].Stopped?
    ensures ViewOf(PhiloStep(w, i), j) == ViewOf(w, j)
  {
    hide ViewOf, About, StopPhilo, Enter;
    var m, w1 := w.pq[i][0], Taken(w, i);
    TakenView(w, i, j);
    if m.StopMsg? {
      StopView(w1, i, j);
    } else if w.ps[i].Thinking? && m.TimeoutMsg? {
      PostView(w1, i, j, HungryMsg(i));
      EnterView(Post(w1, HungryMsg(i)), i, j, Hungry);
    } else if w.ps[i].Eating? && m.TimeoutMsg? {
      PostView(w1, i, j, DoneMsg(i));
      EnterView(Post(w1, DoneMsg(i)), i, j, Thinking);
    } else if w.ps[i].Hungry? && m == EatMsg(i) {
      EnterView(w1, i, j, Eating);
    }
  }

  /** Its view once it has handled the note; `armed` is its timer. */
  function NextView(v: View, m: Note, i: nat, armed: bool): View {
    if m.StopMsg? then View(v.mark, Stopped, v.mail, 0, 0, 0)
    else if m.TimeoutMsg? && v.ps.Thinking? then v.(ps := Hungry, mail := v.mail + [HungryMsg(i)])
    else if m.TimeoutMsg? && v.ps.Eating? then
      v.(ps := Thinking, mail := v.mail + [DoneMsg(i)], timeouts := v.timeouts + Ones(!armed))
    else if m == EatMsg(i) && v.ps.Hungry? then v.(ps := Eating, timeouts := v.timeouts + Ones(!armed))
    else v
  }

  lemma OwnView(w: World, i: nat)
    requires w.Sized() && !w.table.Closed? && i < w.n && w.pq[i] != [] && !w.ps[i].Stopped?
    ensures ViewOf(PhiloStep(w, i), i) == NextView(ViewOf(Taken(w, i), i), w.pq[i][0], i, w.armed[i])
  {
    hide About;
    var m, w1 := w.pq[i][0], Taken(w, i);
    if m.StopMsg? {
      StopView(w1, i, i);
    } else if w.ps[i].Thinking? && m.TimeoutMsg? {
      PostView(w1, i, i, HungryMsg(i));
      EnterView(Post(w1, HungryMsg(i)), i, i, Hungry);
    } else if w.ps[i].Eating? && m.TimeoutMsg? {
      PostView(w1, i, i, DoneMsg(i));
      EnterView(Post(w1, DoneMsg(i)), i, i, Thinking);
    } else if w.ps[i].Hungry? && m == EatMsg(i) {
      EnterView(w1, i, i, Eating);
    }
  }

  lemma NextCycle(v: View, m: Note, i: nat, armed: bool)
    requires Cycle(v, i) && (armed && m.TimeoutMsg? ==> v.timeouts > 1) && (armed ==> v.timeouts > 0)
    requires (m == EatMsg(i) ==> v.eats > 0) && (m.TimeoutMsg? ==> v.timeouts > 0) && (m.StopMsg? ==> v.stops > 0)
    ensures Cycle(NextView(TakeView(v, m, i), m, i, armed), i)
  {
  }

  /** A running philosopher's handler keeps its own view good. */
  lemma OwnGood(w: World, i: nat)
    requires w.Sized() && !w.table.Closed? && i < w.n && w.pq[i] != [] && !w.ps[i].Stopped?
    requires Good(w, i)
    ensures Good(PhiloStep(w, i), i)
  {
    TakenView(w, i, i);
    OwnView(w, i);
    HeadCounts(w, i);
    if w.table.Serving? {
      NextCycle(ViewOf(w, i), w.pq[i][0], i, w.armed[i]);
    }
  }

  lemma HeadCounts(w: World, i: nat)
    requires w.Sized() && i < w.n && w.pq[i] != []
    ensures var v, m := ViewOf(w, i), w.pq[i][0];
      && (m == EatMsg(i) ==> v.eats > 0) && (m.StopMsg? ==> v.stops > 0)
      && (m.TimeoutMsg? ==> v.timeouts > Ones(w.armed[i])) && v.timeouts >= Ones(w.armed[i])
  {
    TailCount(w.pq[i]);
  }

  lemma StopsCounted(w: World, i: nat)
    requires w.Sized() && !w.table.Closed? && i < w.n && w.pq[i] != [] && !w.ps[i].Stopped? && Counted(w)
    ensures Counted(PhiloStep(w, i))
  {
    CountStoppedUpdate(w.ps, i, PhiloStep(w, i).ps[i]);
  }

  lemma PhiloOk(w: World, i: nat)
    requires Inv(w) && !w.table.Closed? && i < w.n && w.pq[i] != [] && !w.ps[i].Stopped?
    ensures Inv(PhiloStep(w, i))
  {
    hide PhiloStep, ViewOf, Cycle, Leaving, Counted, Known;
    StopsCounted(w, i);
    PhiloFrame(w, i);
    var w' := PhiloStep(w, i);
    assert Good(w, i);
    OwnGood(w, i);
    forall j {:trigger ViewOf(w', j)} | 0 <= j < w.n
      ensures Good(w', j)
    {
      if j != i {
        OthersKeep(w, i, j);
        assert Good(w, j);
      }
    }
  }

  /** What a philosopher's handler does not touch. */
  lemma PhiloFrame(w: World, i: nat)
    requires w.Sized() && !w.table.Closed? && i < w.n && w.pq[i] != [] && !w.ps[i].Stopped? && Known(w)
    ensures var w' := PhiloStep(w, i);
      w' == w.(tq := w'.tq, ps := w'.ps, pq := w'.pq, armed := w'.armed) && Known(w')
  {
  }

  lemma StepInv(w: World, a: Action)
    requires Inv(w)
    ensures Inv(Step(w, a))
  {
    match a
    case TableRuns =>
      if w.table.Serving? { TableServingOk(w); } else if w.table.Stopping? { TableStoppingOk(w); }
    case PhiloRuns(i) =>
      if i < w.n && w.pq[i] != [] && !w.ps[i].Stopped? {
        if !w.table.Closed? { PhiloOk(w, i); } else { CountStoppedAll(w.ps); }
      }
    case TimerFires(i) =>
      if i < w.n { FireOk(w, i); }
  }

  lemma {:induction false} NoneStopped(n: nat)
    ensures CountStopped(seq(n, _ => Thinking)) == 0
  {
    CountStoppedAll(seq(n, _ => Thinking));
  }

  lemma {:induction false} RunInv(n: nat, sessions: nat, acts: seq<Action>)
    requires n >= 2
    ensures Inv(Run(n, sessions, acts))
  {
    if acts == [] {
      NoneStopped(n);
    } else {
      RunInv(n, sessions, acts[..|acts| - 1]);
      StepInv(Run(n, sessions, acts[..|acts| - 1]), acts[|acts| - 1]);
    }
  }

  /** After DONE the left neighbour is looked at first: it is served if it waits and its
      other neighbour does not eat; the right one then on the same terms. */
  lemma DoneServes(w: World, i: nat)
    requires w.Sized() && w.n >= 2 && i < w.n && w.marks[i] == MEating
    ensures var w', l, r := TableServing(w, DoneMsg(i)), Left(w.n, i), Right(w.n, i);
      var l', r' := Left(w.n, l), Right(w.n, r);
      && w'.marks[i] == MDone
      && w'.marks[l] == (if w.marks[l] == MHungry && (l' == i || w.marks[l'] != MEating) then MEating else w.marks[l])
      && (r != l ==>
            w'.marks[r] == if w.marks[r] == MHungry && w'.marks[r'] != MEating then MEating else w.marks[r])
      && forall j :: 0 <= j < w.n && j !in {i, l, r} ==> w'.marks[j] == w.marks[j]
  {
  }

  // ----------------------------------------------------------------- the theorems

  /** In every run no two neighbours eat, nobody the serving table marks hungry is
      without an eating neighbour, and no AM_ASSERT fails: not those on the
      philosophers' marks, nor the one that the table still runs when a
      philosopher posts to it. */
  lemma Safety(n: nat, sessions: nat, acts: seq<Action>, i: nat)
    requires n >= 2 && i < n
    ensures var w := Run(n, sessions, acts);
      && !w.fault
      && !(w.ps[i].Eating? && w.ps[Right(n, i)].Eating?)
      && (w.table.Serving? && w.marks[i] == MHungry ==>
            w.marks[Left(n, i)] == MEating || w.marks[Right(n, i)] == MEating)
  {
    RunInv(n, sessions, acts);
    var w, r := Run(n, sessions, acts), Right(n, i);
    assert w.table.Serving? ==> Cycle(ViewOf(w, i), i) && Cycle(ViewOf(w, r), r);
    assert !w.table.Serving? ==> Leaving(ViewOf(w, i), i) && Leaving(ViewOf(w, r), r);
    assert w.marks[i] == MEating ==> w.marks[r] != MEating;
  }

  /** Nothing is left to happen. */
  predicate Quiet(w: World)
    requires w.Sized()
  {
    w.tq == [] && forall i :: 0 <= i < w.n ==> w.pq[i] == [] && !w.armed[i]
  }

  /** The protocol never gets stuck: when no message and no timer is left, the
      table has closed and everybody has stopped. */
  lemma NoDeadlock(n: nat, sessions: nat, acts: seq<Action>)
    requires n >= 2
    ensures var w := Run(n, sessions, acts);
      Quiet(w) ==> w.table.Closed? && forall i :: 0 <= i < n ==> w.ps[i].Stopped?
  {
    RunInv(n, sessions, acts);
    var w := Run(n, sessions, acts);
    if Quiet(w) {
      CountStoppedAll(w.ps);
      if w.table.Serving? {
        QuietEater(w, 0);
        QuietEater(w, Left(n, 0));
        QuietEater(w, Right(n, 0));
      } else {
        forall i | 0 <= i < n
          ensures w.ps[i].Stopped?
        {
          assert Leaving(ViewOf(w, i), i);
        }
      }
    }
  }

  /** While the table serves, a philosopher with no message and no timer is
      marked hungry. */
  lemma QuietEater(w: World, i: nat)
    requires Inv(w) && w.table.Serving? && Quiet(w) && i < w.n
    ensures w.marks[i] == MHungry
  {
    assert Cycle(ViewOf(w, i), i);
  }
}
