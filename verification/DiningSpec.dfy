/** The dining philosophers example of apps/examples/dpp as a message protocol.

    One table and n philosophers exchange messages over FIFO queues. A step runs
    one handler to completion, or lets one armed timer fire. Everything else, in
    particular the order in which queues are served, is open. */
module DiningSpec {

  datatype Mark = MDone | MHungry | MEating
  datatype Philo = Thinking | Hungry | Eating | Stopped
  datatype Table = Serving | Stopping | Closed

  /** Messages to the table. */
  datatype Mail = HungryMsg(philo: nat) | DoneMsg(philo: nat) | StoppedMsg

  /** Messages to a philosopher. */
  datatype Note = EatMsg(philo: nat) | TimeoutMsg | StopMsg

  /** `marks`, `nsessions`, `nstops` and `table` belong to the table, whose queue
      is `tq`; `ps`, `pq` and `armed` hold each philosopher's state, queue and
      timer. `fault` records a failed AM_ASSERT. */
  datatype World = World(
    n: nat, marks: seq<Mark>, nsessions: nat, nstops: nat, table: Table, tq: seq<Mail>,
    ps: seq<Philo>, pq: seq<seq<Note>>, armed: seq<bool>, fault: bool)
  {
    predicate Sized() { |marks| == |ps| == |pq| == |armed| == n }
  }

  /** LEFT(n) and RIGHT(n) */
  function Left(n: nat, i: nat): nat
    requires i < n
    ensures Left(n, i) < n
  {
    if i != 0 then i - 1 else n - 1
  }

  function Right(n: nat, i: nat): nat
    requires i < n
    ensures Right(n, i) < n
  {
    if n - 1 == i then 0 else i + 1
  }

  function Init(n: nat, sessions: nat): World {
    World(n, seq(n, _ => MDone), sessions, 0, Serving, [],
          seq(n, _ => Thinking), seq(n, _ => []), seq(n, _ => true), false)
  }

  function Broadcast(pq: seq<seq<Note>>, note: Note): (r: seq<seq<Note>>)
    ensures |r| == |pq|
  {
    seq(|pq|, j requires 0 <= j < |pq| => pq[j] + [note])
  }

  // ------------------------------------------------------------------- the table

  predicate CanServe(w: World, i: nat)
    requires w.Sized() && i < w.n
  {
    w.marks[Left(w.n, i)] != MEating && w.marks[Right(w.n, i)] != MEating
  }

  /** table_serve */
  function Serve(w: World, i: nat): (r: World)
    requires w.Sized() && i < w.n
    ensures r.Sized() && r.n == w.n
  {
    w.(pq := Broadcast(w.pq, EatMsg(i)), marks := w.marks[i := MEating],
       nsessions := if w.nsessions > 0 then w.nsessions - 1 else 0)
  }

  function ServeIfWaiting(w: World, i: nat): (r: World)
    requires w.Sized() && i < w.n
    ensures r.Sized() && r.n == w.n
  {
    if w.marks[i] == MHungry && CanServe(w, i) then Serve(w, i) else w
  }

  function EndIfOver(w: World): (r: World)
    requires w.Sized()
    ensures r.Sized() && r.n == w.n
  {
    if w.nsessions == 0 then w.(pq := Broadcast(w.pq, StopMsg), table := Stopping) else w
  }

  /** table_serving */
  function TableServing(w: World, m: Mail): (r: World)
    requires w.Sized()
    ensures r.Sized() && r.n == w.n
  {
    match m
    case HungryMsg(i) =>
      if i >= w.n || w.marks[i] == MHungry then w.(fault := true)
      else if CanServe(w, i) then EndIfOver(Serve(w, i))
      else w.(marks := w.marks[i := MHungry])
    case DoneMsg(i) =>
      if i >= w.n || w.marks[i] != MEating then w.(fault := true)
      else
        var w1 := w.(marks := w.marks[i := MDone]);
        EndIfOver(ServeIfWaiting(ServeIfWaiting(w1, Left(w.n, i)), Right(w.n, i)))
    case StoppedMsg => w
  }

  /** table_stopping: am_ao_stop flushes the queue. */
  function TableStopping(w: World, m: Mail): World {
    if m.StoppedMsg? then
      var w1 := w.(nstops := w.nstops + 1);
      if w1.nstops == w.n then w1.(table := Closed, tq := []) else w1
    else w
  }

  function TableStep(w: World): (r: World)
    requires w.Sized()
    ensures r.Sized() && r.n == w.n
  {
    if w.tq == [] then w else
    var m, w1 := w.tq[0], w.(tq := w.tq[1..]);
    match w.table
    case Serving => TableServing(w1, m)
    case Stopping => TableStopping(w1, m)
    case Closed => w
  }

  // ------------------------------------------------------------- the philosophers

  /** am_ao_post_fifo to the table, which must be running. */
  function Post(w: World, m: Mail): (r: World)
    requires w.Sized()
    ensures r.Sized() && r.n == w.n
  {
    if w.table.Closed? then w.(fault := true) else w.(tq := w.tq + [m])
  }

  /** am_ao_publish of DONE: the table is the only subscriber. */
  function PublishDone(w: World, i: nat): (r: World)
    requires w.Sized()
    ensures r.Sized() && r.n == w.n
  {
    if w.table.Closed? then w else w.(tq := w.tq + [DoneMsg(i)])
  }

  function Enter(w: World, i: nat, s: Philo): (r: World)
    requires w.Sized() && i < w.n
    ensures r.Sized() && r.n == w.n
  {
    w.(ps := w.ps[i := s], armed := if s.Hungry? then w.armed else w.armed[i := true])
  }

  /** philo_top on STOP: disarm, report, stop; am_ao_stop flushes the queue. */
  function StopPhilo(w: World, i: nat): (r: World)
    requires w.Sized() && i < w.n
    ensures r.Sized() && r.n == w.n
  {
    Post(w, StoppedMsg).(armed := w.armed[i := false], ps := w.ps[i := Stopped], pq := w.pq[i := []])
  }

  function PhiloHandle(w: World, i: nat, m: Note): (r: World)
    requires w.Sized() && i < w.n
    ensures r.Sized() && r.n == w.n
  {
    if m.StopMsg? then StopPhilo(w, i) else
    match w.ps[i]
    case Thinking => if m.TimeoutMsg? then Enter(Post(w, HungryMsg(i)), i, Hungry) else w
    case Hungry => if m == EatMsg(i) then Enter(w, i, Eating) else w
    case Eating => if m.TimeoutMsg? then Enter(PublishDone(w, i), i, Thinking) else w
    case Stopped => w
  }

  function PhiloStep(w: World, i: nat): (r: World)
    requires w.Sized() && i < w.n
    ensures r.Sized() && r.n == w.n
  {
    if w.pq[i] == [] || w.ps[i].Stopped? then w
    else PhiloHandle(w.(pq := w.pq[i := w.pq[i][1..]]), i, w.pq[i][0])
  }

  /** The ticker finds the philosopher's one-shot timer expired and posts it. */
  function FireStep(w: World, i: nat): (r: World)
    requires w.Sized() && i < w.n
    ensures r.Sized() && r.n == w.n
  {
    if !w.armed[i] then w
    else w.(armed := w.armed[i := false], pq := w.pq[i := w.pq[i] + [TimeoutMsg]])
  }

  datatype Action = TableRuns | PhiloRuns(i: nat) | TimerFires(i: nat)

  function Step(w: World, a: Action): (r: World)
    requires w.Sized()
    ensures r.Sized() && r.n == w.n
  {
    if w.fault then w else
    match a
    case TableRuns => TableStep(w)
    case PhiloRuns(i) => if i < w.n then PhiloStep(w, i) else w
    case TimerFires(i) => if i < w.n then FireStep(w, i) else w
  }

  function Run(n: nat, sessions: nat, acts: seq<Action>): (r: World)
    ensures r.Sized() && r.n == n
  {
    if acts == [] then Init(n, sessions)
    else Step(Run(n, sessions, acts[..|acts| - 1]), acts[|acts| - 1])
  }
}
