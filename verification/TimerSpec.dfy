/** What the timer of libs/timer does, on sequences instead of linked lists, and
    when an armed event fires. */
module TimerSpec {
  import opened Arithmetic
  import opened SList

  /** The timer's part of struct am_timer_event; `owned` is owner != NULL. */
  datatype Ev = Ev(owned: bool, oneshot: nat, interval: nat, disarm: bool)

  const Idle := Ev(false, 0, 0, false)

  function Lookup<E(==)>(evs: map<E, Ev>, e: E): Ev { if e in evs then evs[e] else Idle }

  /** `pend` and `running` are the two event lists. `cur` counts the running
      events the iterator has passed; `walking` holds from the tick until the
      iterator has answered NULL. `tick` counts ticks and `fired` logs every
      answer with its tick. */
  datatype State<!E(==)> = State(
    pend: seq<E>, running: seq<E>, cur: nat, walking: bool, evs: map<E, Ev>,
    tick: nat, fired: seq<(nat, E)>)
  {
    function Get(e: E): Ev { Lookup(evs, e) }
    function Put(e: E, ev: Ev): State<E> { this.(evs := evs[e := ev]) }
    function Linked(e: E): bool { e in pend || e in running }
  }

  datatype Action<E> = Arm(e: E, ticks: nat, interval: nat) | Disarm(e: E) | Tick | Next

  function AtLeastOne(n: nat): nat { if n > 1 then n else 1 }

  function Start<E(==)>(): State<E> { State([], [], 0, false, map[], 0, []) }

  /** am_timer_arm */
  function DoArm<E(==)>(s: State<E>, e: E, ticks: nat, interval: nat): State<E> {
    var s' := s.Put(e, Ev(true, AtLeastOne(ticks), interval, false));
    if s.Linked(e) then s' else s'.(pend := s.pend + [e])
  }

  /** am_timer_disarm only marks the event. */
  function DoDisarm<E(==)>(s: State<E>, e: E): State<E> {
    if s.Get(e).owned then s.Put(e, Ev(true, 0, 0, true)) else s
  }

  /** am_timer_tick_iterator_init */
  function DoTick<E(==)>(s: State<E>): State<E> {
    s.(running := s.running + s.pend, pend := [], cur := 0, walking := true, tick := s.tick + 1)
  }

  function Unlink<E(==)>(s: State<E>): State<E>
    requires s.cur < |s.running|
  {
    s.(running := s.running[..s.cur] + s.running[s.cur + 1..])
  }

  /** One turn of the loop in am_timer_tick_iterator_next, and whether it fires. */
  function Visit<E(==)>(s: State<E>): (r: (State<E>, bool))
    requires s.cur < |s.running|
    ensures |r.0.running| - r.0.cur == |s.running| - s.cur - 1 && r.0.cur <= |r.0.running|
  {
    var e := s.running[s.cur];
    var ev := s.Get(e);
    if ev.disarm then (Unlink(s).Put(e, ev.(owned := false, disarm := false)), false)
    else if ev.oneshot > 1 then (s.Put(e, ev.(oneshot := ev.oneshot - 1)).(cur := s.cur + 1), false)
    else
      var s' := if ev.interval > 0 then s.Put(e, ev.(oneshot := ev.interval)).(cur := s.cur + 1)
                else Unlink(s).Put(e, ev.(oneshot := 0, owned := false));
      (s'.(fired := s.fired + [(s.tick, e)]), true)
  }

  /** am_timer_tick_iterator_next; the answer is the log's last entry, or NULL
      when `walking` ends. */
  function DoNext<E(==)>(s: State<E>): State<E>
    decreases |s.running| - s.cur
  {
    if s.cur >= |s.running| then s.(walking := false)
    else
      var (s', fires) := Visit(s);
      if fires then s' else DoNext(s')
  }

  /** The callers' promise: every tick is iterated to NULL before the next. */
  predicate Allowed<E(==)>(s: State<E>, a: Action<E>) {
    match a
    case Tick => !s.walking
    case Next => s.walking
    case _ => true
  }

  function Step<E(==)>(s: State<E>, a: Action<E>): State<E> {
    if !Allowed(s, a) then s else
    match a
    case Arm(e, ticks, interval) => DoArm(s, e, ticks, interval)
    case Disarm(e) => DoDisarm(s, e)
    case Tick => DoTick(s)
    case Next => DoNext(s)
  }

  function Run<E(==)>(s: State<E>, acts: seq<Action<E>>): State<E> {
    if acts == [] then s else Step(Run(s, acts[..|acts| - 1]), acts[|acts| - 1])
  }

  // ------------------------------------------------------------------- invariant

  predicate Apart<E(==)>(a: seq<E>, b: seq<E>) {
    forall i, j :: 0 <= i < |a| && 0 <= j < |b| ==> a[i] != b[j]
  }

  /** An event is in one of the two lists, once, exactly when it is owned; an
      owned event not marked for removal has ticks left; only an owned event is
      marked. */
  predicate Book<E(==)>(pend: seq<E>, running: seq<E>, evs: map<E, Ev>, e: E) {
    var ev := Lookup(evs, e);
    && (ev.owned <==> e in pend || e in running)
    && (ev.owned && !ev.disarm ==> ev.oneshot > 0)
    && (ev.disarm ==> ev.owned)
  }

  ghost predicate Inv<E>(s: State<E>) {
    && s.cur <= |s.running| && (!s.walking ==> s.cur == |s.running|)
    && NoDup(s.running) && NoDup(s.pend) && Apart(s.running, s.pend)
    && (forall e :: e in s.pend ==> e in s.evs) && (forall e :: e in s.running ==> e in s.evs)
    && forall e {:trigger Book(s.pend, s.running, s.evs, e)} :: e in s.evs ==> Book(s.pend, s.running, s.evs, e)
  }

  lemma BookOf<E>(s: State<E>, e: E)
    requires Inv(s)
    ensures Book(s.pend, s.running, s.evs, e)
  {
    var ev := Lookup(s.evs, e);
  }

  /** Unlinking takes out the event at the iterator and no other. */
  lemma UnlinkIn<E>(s: State<E>, e: E)
    requires Inv(s) && s.cur < |s.running|
    ensures e in Unlink(s).running <==> e in s.running && e != s.running[s.cur]
    ensures e in Unlink(s).running[s.cur..] <==> e in s.running[s.cur..] && e != s.running[s.cur]
    ensures e in Unlink(s).running[..s.cur] <==> e in s.running[..s.cur]
  {
    var r, r' := s.running, Unlink(s).running;
    assert r == r[..s.cur] + [r[s.cur]] + r[s.cur + 1..];
    assert r'[s.cur..] == r[s.cur + 1..] && r[s.cur..] == [r[s.cur]] + r[s.cur + 1..];
    assert r'[..s.cur] == r[..s.cur];
    assert r' == r'[..s.cur] + r'[s.cur..];
  }

  lemma VisitInv<E>(s: State<E>)
    requires Inv(s) && s.walking && s.cur < |s.running|
    ensures Inv(Visit(s).0)
  {
    var e, s' := s.running[s.cur], Visit(s).0;
    BookOf(s, e);
    assert s'.evs.Keys == s.evs.Keys;
    forall x {:trigger Book(s'.pend, s'.running, s'.evs, x)} | x in s.evs
      ensures Book(s'.pend, s'.running, s'.evs, x)
    {
      UnlinkIn(s, x);
      BookOf(s, x);
    }
  }

  lemma {:induction false} NextInv<E>(s: State<E>)
    requires Inv(s) && s.walking
    ensures Inv(DoNext(s))
    decreases |s.running| - s.cur
  {
    if s.cur < |s.running| {
      VisitInv(s);
      var (s', fires) := Visit(s);
      if !fires {
        NextInv(s');
      }
    }
  }

  lemma StepInv<E>(s: State<E>, a: Action<E>)
    requires Inv(s)
    ensures Inv(Step(s, a))
  {
    var s' := Step(s, a);
    if Allowed(s, a) {
      if a.Next? {
        NextInv(s);
      } else {
        if a.Arm? || a.Disarm? {
          BookOf(s, a.e);
        }
        forall x {:trigger Book(s'.pend, s'.running, s'.evs, x)} | x in s.evs
          ensures Book(s'.pend, s'.running, s'.evs, x)
        {
          BookOf(s, x);
        }
      }
    }
  }

  lemma {:induction false} RunInv<E>(s: State<E>, acts: seq<Action<E>>)
    requires Inv(s)
    ensures Inv(Run(s, acts))
  {
    if acts != [] {
      RunInv(s, acts[..|acts| - 1]);
      StepInv(Run(s, acts[..|acts| - 1]), acts[|acts| - 1]);
    }
  }

  // ------------------------------------------------------------- when events fire

  /** Armed with (n, k), an event fires on the d-th tick from then. */
  predicate FiresAt(n: nat, k: nat, d: nat) {
    var first := if n == 0 then 1 else n;
    d == first || (k > 0 && d > first && (d - first) % k == 0)
  }

  /** Ticks to go after `p` ticks have been accounted to the event. */
  function TicksLeft(n: nat, k: nat, p: nat): nat
    requires p < AtLeastOne(n) || k > 0
  {
    var first := AtLeastOne(n);
    if p < first then first - p else k - (p - first) % k
  }

  lemma TicksLeftStep(n: nat, k: nat, p: nat)
    requires p < AtLeastOne(n) || k > 0
    ensures TicksLeft(n, k, p) > 0
    ensures TicksLeft(n, k, p) == 1 <==> FiresAt(n, k, p + 1)
    ensures TicksLeft(n, k, p) > 1 ==> TicksLeft(n, k, p + 1) == TicksLeft(n, k, p) - 1
    ensures TicksLeft(n, k, p) == 1 && k > 0 ==> TicksLeft(n, k, p + 1) == k
  {
    var first := AtLeastOne(n);
    if p >= first {
      ModNext(p - first, k);
    }
  }

  /** e waits for its visit in the tick going on. */
  predicate Ahead<E(==)>(s: State<E>, e: E)
    requires s.cur <= |s.running|
  {
    e in s.running[s.cur..]
  }

  /** The tick the countdown of an event armed in s starts from: the current one,
      or the one before when the event still waits for its visit in this tick,
      which then counts at once. */
  function StartTick<E(==)>(s: State<E>, e: E): int
    requires s.cur <= |s.running|
  {
    s.tick - if Ahead(s, e) then 1 else 0
  }

  function Answers<E(==)>(log: seq<(nat, E)>, t: nat, e: E): nat { multiset(log)[(t, e)] }

  predicate Alive(n: nat, k: nat, p: nat) { p < AtLeastOne(n) || k > 0 }

  /** Among the first p ticks of an event armed with (n, k), the d-th fires. */
  predicate Due(n: nat, k: nat, p: int, d: int) { 0 < d <= p && FiresAt(n, k, d) }

  ghost predicate Logged<E>(log: seq<(nat, E)>, log0: seq<(nat, E)>, e: E, n: nat, k: nat, t0: int, p: int) {
    forall t: nat :: Answers(log, t, e) == Answers(log0, t, e) + if Due(n, k, p, t - t0) then 1 else 0
  }

  /** e was armed with (n, k) when its countdown started at tick t0 and the log
      was log0: it has since fired on exactly the ticks due, its countdown is
      right, and it left the lists if it has no more to fire. */
  ghost predicate Track<E>(s: State<E>, e: E, n: nat, k: nat, t0: int, log0: seq<(nat, E)>)
    requires s.cur <= |s.running|
  {
    var p := StartTick(s, e) - t0;
    && p >= 0
    && (if Alive(n, k, p) then s.Linked(e) && s.Get(e) == Ev(true, TicksLeft(n, k, p), k, false) else !s.Linked(e))
    && Logged(s.fired, log0, e, n, k, t0, p)
  }

  /** The action neither arms nor disarms e. */
  predicate Spares<E(==)>(a: Action<E>, e: E) { (a.Arm? || a.Disarm?) ==> a.e != e }

  lemma LinkedAhead<E>(s: State<E>, e: E)
    requires Inv(s)
    ensures Ahead(s, e) ==> s.Linked(e)
    ensures s.cur < |s.running| ==> (Ahead(s, e) <==> e == s.running[s.cur] || e in s.running[s.cur + 1..])
    ensures s.cur < |s.running| ==> s.running[s.cur] !in s.running[s.cur + 1..]
  {
    if s.cur < |s.running| {
      assert s.running[s.cur..] == [s.running[s.cur]] + s.running[s.cur + 1..];
    }
  }

  lemma AnswersOf<E>(log: seq<(nat, E)>, at: nat, x: E, t: nat, e: E)
    ensures Answers(log + [(at, x)], t, e) == Answers(log, t, e) + if at == t && x == e then 1 else 0
  {
  }

  /** Visiting another event leaves e alone. */
  lemma VisitOther<E>(s: State<E>, e: E, n: nat, k: nat, t0: int, log0: seq<(nat, E)>)
    requires Inv(s) && s.walking && s.cur < |s.running| && s.running[s.cur] != e
    requires Track(s, e, n, k, t0, log0)
    ensures Track(Visit(s).0, e, n, k, t0, log0)
  {
    var x, s' := s.running[s.cur], Visit(s).0;
    UnlinkIn(s, e);
    LinkedAhead(s, e);
    assert Ahead(s', e) <==> Ahead(s, e);
    assert s'.Linked(e) <==> s.Linked(e);
    forall t: nat
      ensures Answers(s'.fired, t, e) == Answers(s.fired, t, e)
    {
      AnswersOf(s.fired, s.tick, x, t, e);
    }
  }

  /** Its own visit counts one tick and fires e when that tick is due. */
  lemma VisitSelf<E>(s: State<E>, e: E, n: nat, k: nat, t0: int, log0: seq<(nat, E)>)
    requires Inv(s) && s.walking && s.cur < |s.running| && s.running[s.cur] == e
    requires Track(s, e, n, k, t0, log0)
    ensures Track(Visit(s).0, e, n, k, t0, log0)
  {
    var s' := Visit(s).0;
    var p := StartTick(s, e) - t0;
    UnlinkIn(s, e);
    LinkedAhead(s, e);
    assert Alive(n, k, p);
    TicksLeftStep(n, k, p);
    assert !Ahead(s', e);
    assert StartTick(s', e) - t0 == p + 1;
    var fires := FiresAt(n, k, p + 1);
    forall t: nat
      ensures Answers(s'.fired, t, e) == Answers(s.fired, t, e) + if fires && t == s.tick then 1 else 0
      ensures Due(n, k, p + 1, t - t0) <==> Due(n, k, p, t - t0) || (fires && t == s.tick)
    {
      AnswersOf(s.fired, s.tick, e, t, e);
    }
    assert Logged(s'.fired, log0, e, n, k, t0, p + 1);
  }

  lemma {:induction false} NextTrack<E>(s: State<E>, e: E, n: nat, k: nat, t0: int, log0: seq<(nat, E)>)
    requires Inv(s) && s.walking && Track(s, e, n, k, t0, log0)
    ensures Inv(DoNext(s)) && Track(DoNext(s), e, n, k, t0, log0)
    decreases |s.running| - s.cur
  {
    NextInv(s);
    if s.cur < |s.running| {
      VisitInv(s);
      var (s', fires) := Visit(s);
      if s.running[s.cur] == e {
        VisitSelf(s, e, n, k, t0, log0);
      } else {
        VisitOther(s, e, n, k, t0, log0);
      }
      if !fires {
        NextTrack(s', e, n, k, t0, log0);
      }
    }
  }

  lemma StepTrack<E>(s: State<E>, a: Action<E>, e: E, n: nat, k: nat, t0: int, log0: seq<(nat, E)>)
    requires Inv(s) && Track(s, e, n, k, t0, log0) && Spares(a, e)
    ensures Inv(Step(s, a)) && Track(Step(s, a), e, n, k, t0, log0)
  {
    StepInv(s, a);
    if a.Next? && Allowed(s, a) {
      NextTrack(s, e, n, k, t0, log0);
    } else if a.Tick? && Allowed(s, a) {
      assert s.running[s.cur..] == [];
      assert DoTick(s).running[0..] == s.running + s.pend;
    }
  }

  lemma {:induction false} RunTrack<E>(s: State<E>, acts: seq<Action<E>>, e: E, n: nat, k: nat,
                                       t0: int, log0: seq<(nat, E)>)
    requires Inv(s) && Track(s, e, n, k, t0, log0)
    requires forall a :: a in acts ==> Spares(a, e)
    ensures Inv(Run(s, acts)) && Track(Run(s, acts), e, n, k, t0, log0)
  {
    if acts != [] {
      var last := |acts| - 1;
      RunTrack(s, acts[..last], e, n, k, t0, log0);
      assert acts[last] in acts;
      StepTrack(Run(s, acts[..last]), acts[last], e, n, k, t0, log0);
    }
  }

  /** Once e is armed with (n, k), and whatever else is armed, disarmed, ticked
      or iterated, e fires exactly once on each tick FiresAt names and on no
      other. Every tick up to the current one is settled, except that e may
      still wait for its visit in the current one. */
  lemma Firing<E>(s: State<E>, e: E, n: nat, k: nat, acts: seq<Action<E>>)
    requires Inv(s)
    requires forall a :: a in acts ==> Spares(a, e)
    ensures
      var s' := Run(Step(s, Arm(e, n, k)), acts);
      var t0 := StartTick(s, e);
      && Inv(s')
      && forall t: nat :: t <= s'.tick && !(t == s'.tick && Ahead(s', e)) ==>
        Answers(s'.fired, t, e) == Answers(s.fired, t, e) + if t > t0 && FiresAt(n, k, t - t0) then 1 else 0
  {
    var s1 := Step(s, Arm(e, n, k));
    StepInv(s, Arm(e, n, k));
    LinkedAhead(s, e);
    RunTrack(s1, acts, e, n, k, StartTick(s, e), s.fired);
  }

  /** Between ticks the countdown starts at the current tick and every tick is settled. */
  lemma FiringBetweenTicks<E>(s: State<E>, e: E, n: nat, k: nat, acts: seq<Action<E>>, t: nat)
    requires Inv(s) && !s.walking
    requires forall a :: a in acts ==> Spares(a, e)
    requires var s' := Run(Step(s, Arm(e, n, k)), acts); !s'.walking && s.tick < t <= s'.tick
    ensures Answers(Run(Step(s, Arm(e, n, k)), acts).fired, t, e) ==
            Answers(s.fired, t, e) + if FiresAt(n, k, t - s.tick) then 1 else 0
  {
    Firing(s, e, n, k, acts);
    var s' := Run(Step(s, Arm(e, n, k)), acts);
    assert s.running[s.cur..] == [];
    assert s'.running[s'.cur..] == [];
  }

  /** Armed for one tick while it waits for its visit, an event fires in the tick
      going on and not in the next. */
  const REARMED: seq<Action<nat>> := [Arm(1, 3, 0), Tick, Arm(1, 1, 0), Next]

  lemma RearmedFiresAtOnce()
    ensures Run(Start<nat>(), REARMED[..3]) == State([], [1], 0, true, map[1 := Ev(true, 1, 0, false)], 1, [])
    ensures Run(Start<nat>(), REARMED).fired == [(1, 1)]
  {
    var s0 := Start<nat>();
    var s1 := Step(s0, REARMED[0]);
    assert s1 == State([1], [], 0, false, map[1 := Ev(true, 3, 0, false)], 0, []);
    var s2 := Step(s1, REARMED[1]);
    assert s2 == State([], [1], 0, true, map[1 := Ev(true, 3, 0, false)], 1, []);
    var s3 := Step(s2, REARMED[2]);
    assert s3 == State([], [1], 0, true, map[1 := Ev(true, 1, 0, false)], 1, []);
    RunNext(s0, REARMED, 0);
    RunNext(s0, REARMED, 1);
    RunNext(s0, REARMED, 2);
    RunNext(s0, REARMED, 3);
    assert REARMED[..4] == REARMED;
  }

  lemma RunNext<E>(s: State<E>, acts: seq<Action<E>>, k: nat)
    requires k < |acts|
    ensures Run(s, acts[..k + 1]) == Step(Run(s, acts[..k]), acts[k])
    ensures k == 0 ==> Run(s, acts[..k]) == s
  {
    assert acts[..k + 1][..k] == acts[..k];
  }

  // ------------------------------------------------------------ disarmed is quiet

  /** Not owned, or marked for removal. */
  predicate Off<E(==)>(s: State<E>, e: E) { s.Get(e).owned ==> s.Get(e).disarm }

  lemma {:induction false} NextOff<E>(s: State<E>, e: E, t: nat)
    requires Inv(s) && s.walking && Off(s, e)
    ensures Off(DoNext(s), e) && Answers(DoNext(s).fired, t, e) == Answers(s.fired, t, e)
    decreases |s.running| - s.cur
  {
    if s.cur < |s.running| {
      VisitInv(s);
      BookOf(s, s.running[s.cur]);
      var (s', fires) := Visit(s);
      AnswersOf(s.fired, s.tick, s.running[s.cur], t, e);
      if !fires {
        NextOff(s', e, t);
      }
    }
  }

  /** After am_timer_disarm an event never fires until it is armed again. */
  lemma {:induction false} Quiet<E>(s: State<E>, e: E, acts: seq<Action<E>>, t: nat)
    requires Inv(s)
    requires forall a :: a in acts ==> !(a.Arm? && a.e == e)
    ensures
      var s' := Run(Step(s, Disarm(e)), acts);
      Inv(s') && Off(s', e) && Answers(s'.fired, t, e) == Answers(s.fired, t, e)
  {
    hide Inv, DoNext;
    StepInv(s, Disarm(e));
    if acts != [] {
      var last := |acts| - 1;
      var s1 := Run(Step(s, Disarm(e)), acts[..last]);
      Quiet(s, e, acts[..last], t);
      assert acts[last] in acts;
      StepInv(s1, acts[last]);
      if acts[last].Next? && s1.walking {
        NextOff(s1, e, t);
      }
    }
  }

  // -------------------------------------------------------------- events that leave

  /** The timer has let go of the event: its memory may be used again. */
  predicate Gone<E(==)>(s: State<E>, e: E) { !s.Linked(e) && !s.Get(e).owned && !s.Get(e).disarm }

  /** e was disarmed in s0 and not armed since: once a tick has come, or if it waited
      for its visit, it is linked only as long as it waits for its visit; else it
      is linked if it was. */
  ghost predicate Leaves<E>(s0: State<E>, s: State<E>, e: E)
    requires s0.cur <= |s0.running| && s.cur <= |s.running|
  {
    && Off(s, e) && s.tick >= s0.tick
    && if s.tick > s0.tick || Ahead(s0, e) then s.Linked(e) ==> Ahead(s, e)
       else !Ahead(s, e) && (s.Linked(e) <==> s0.Linked(e))
  }

  /** A visit takes a disarmed event out if it is its own, and else leaves it where it is. */
  lemma VisitLeaves<E>(s0: State<E>, s: State<E>, e: E)
    requires Inv(s0) && Inv(s) && s.walking && s.cur < |s.running| && Leaves(s0, s, e)
    ensures Inv(Visit(s).0) && Leaves(s0, Visit(s).0, e)
  {
    VisitInv(s);
    var s' := Visit(s).0;
    BookOf(s, s.running[s.cur]);
    BookOf(s, e);
    UnlinkIn(s, e);
    LinkedAhead(s, e);
    if s.running[s.cur] == e {
      assert !Ahead(s', e);
    } else {
      assert Ahead(s', e) <==> Ahead(s, e);
    }
  }

  lemma {:induction false} NextLeaves<E>(s0: State<E>, s: State<E>, e: E)
    requires Inv(s0) && Inv(s) && s.walking && Leaves(s0, s, e)
    ensures Inv(DoNext(s)) && Leaves(s0, DoNext(s), e)
    decreases |s.running| - s.cur
  {
    hide Inv;
    NextInv(s);
    if s.cur < |s.running| {
      VisitLeaves(s0, s, e);
      if !Visit(s).1 {
        NextLeaves(s0, Visit(s).0, e);
      }
    }
  }

  lemma StepLeaves<E>(s0: State<E>, s: State<E>, a: Action<E>, e: E)
    requires Inv(s0) && Inv(s) && Leaves(s0, s, e) && !(a.Arm? && a.e == e)
    ensures Inv(Step(s, a)) && Leaves(s0, Step(s, a), e)
  {
    StepInv(s, a);
    if a.Next? && Allowed(s, a) {
      NextLeaves(s0, s, e);
    } else if a.Tick? && Allowed(s, a) {
      assert DoTick(s).running[0..] == s.running + s.pend;
    }
  }

  lemma {:induction false} RunLeaves<E>(s: State<E>, e: E, acts: seq<Action<E>>)
    requires Inv(s) && forall a :: a in acts ==> !(a.Arm? && a.e == e)
    ensures var s' := Run(Step(s, Disarm(e)), acts); Inv(s') && Leaves(s, s', e)
  {
    hide Inv, Leaves;
    if acts == [] {
      DisarmLeaves(s, e);
    } else {
      var last := |acts| - 1;
      RunLeaves(s, e, acts[..last]);
      assert acts[last] in acts;
      StepLeaves(s, Run(Step(s, Disarm(e)), acts[..last]), acts[last], e);
    }
  }

  lemma DisarmLeaves<E>(s: State<E>, e: E)
    requires Inv(s)
    ensures Inv(Step(s, Disarm(e))) && Leaves(s, Step(s, Disarm(e)), e)
  {
    StepInv(s, Disarm(e));
    LinkedAhead(s, e);
  }

  /** Disarmed and not armed again, an event is let go of, whatever is done with others:
      when the iterator has answered NULL it is gone exactly if a tick has come
      since, or it waited for its visit when it was disarmed, or was not armed. */
  lemma DisarmedLeaves<E>(s: State<E>, e: E, acts: seq<Action<E>>)
    requires Inv(s) && forall a :: a in acts ==> !(a.Arm? && a.e == e)
    ensures var s' := Run(Step(s, Disarm(e)), acts);
      !s'.walking ==> (Gone(s', e) <==> s'.tick > s.tick || Ahead(s, e) || !s.Linked(e))
  {
    RunLeaves(s, e, acts);
    var s' := Run(Step(s, Disarm(e)), acts);
    BookOf(s', e);
    if !s'.walking {
      assert s'.running[s'.cur..] == [];
    }
  }

  /** An event armed once for n ticks is let go of with its last firing and not before,
      and a periodic one never, whatever is done with others. */
  lemma FiredOutLeaves<E>(s: State<E>, e: E, n: nat, k: nat, acts: seq<Action<E>>)
    requires Inv(s) && forall a :: a in acts ==> Spares(a, e)
    ensures var s' := Run(Step(s, Arm(e, n, k)), acts);
      && Inv(s')
      && (Gone(s', e) <==> k == 0 && StartTick(s', e) - StartTick(s, e) >= if n == 0 then 1 else n)
      && (!Gone(s', e) ==> s'.Linked(e) && s'.Get(e).owned && !s'.Get(e).disarm)
  {
    StepInv(s, Arm(e, n, k));
    LinkedAhead(s, e);
    RunTrack(Step(s, Arm(e, n, k)), acts, e, n, k, StartTick(s, e), s.fired);
    BookOf(Run(Step(s, Arm(e, n, k)), acts), e);
  }
}
