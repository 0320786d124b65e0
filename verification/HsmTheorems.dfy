/** What holds over every run of the state machine engine. */
module HsmTheorems {
  import opened HsmSpec
  import opened Options

  /** Read a history as brackets: the states entered and not yet exited,
      innermost first. It has no value when a state is entered that is not a
      direct substate of the innermost open one, when another than the innermost
      is exited or initialised, or when an event goes to a state not open. Nor
      has it when a handler finds another active state than the innermost open
      one, or, on entry, than the one it enters. */
  function Open(m: Machine, h: History): Option<seq<State>> {
    if h == [] then Some([]) else
    var before := Open(m, h[..|h| - 1]);
    if before.None? then None else
    var stack := before.value;
    var s, active := h[|h| - 1].state, h[|h| - 1].active;
    match h[|h| - 1].event
    case Entry =>
      if active == s && IsState(m, s) && m.parent[s] == (if stack == [] then TOP else stack[0])
      then Some([s] + stack)
      else None
    case Exit => if stack != [] && stack[0] == s == active then Some(stack[1..]) else None
    case Init => if stack != [] && stack[0] == s == active then Some(stack) else None
    case User(_) =>
      if stack == [] then (if s == m.initial == active then Some([]) else None)
      else if s in stack && active == stack[0] then Some(stack) else None
    case Empty => None
  }

  lemma OpenOne(m: Machine, h: History, c: Call)
    ensures (h + [c])[..|h|] == h && (h + [c])[|h|] == c
  {
  }

  /** Exiting the innermost open states closes exactly these. */
  lemma {:induction false} OpenExits(m: Machine, h: History, a: seq<State>, b: seq<State>)
    requires Open(m, h) == Some(a + b)
    ensures Open(m, h + Calls(Exit, a)) == Some(b)
    decreases |a|
  {
    if a == [] {
      assert a + b == b && h + Calls(Exit, a) == h;
    } else {
      var h' := h + [Own(Exit, a[0])];
      OpenOne(m, h, Own(Exit, a[0]));
      assert (a + b)[1..] == a[1..] + b;
      OpenExits(m, h', a[1..], b);
      assert h + Calls(Exit, a) == h' + Calls(Exit, a[1..]);
    }
  }

  lemma {:induction false} ChainLinks(m: Machine, s: State, k: nat)
    requires Tree(m) && IsState(m, s) && k < |Chain(m, s)|
    ensures IsState(m, Chain(m, s)[k])
    ensures m.parent[Chain(m, s)[k]] == if k + 1 < |Chain(m, s)| then Chain(m, s)[k + 1] else TOP
    ensures Chain(m, s)[k..] == Chain(m, Chain(m, s)[k])
    decreases Level(m, s)
  {
    assert NodeOk(m, s);
    if k > 0 {
      ChainLinks(m, m.parent[s], k - 1);
      assert Chain(m, s)[k..] == Chain(m, m.parent[s])[k - 1..];
    } else if m.parent[s] != TOP {
      assert NodeOk(m, m.parent[s]);
    }
  }

  lemma EnterFirst(h: History, c: seq<State>, k: nat)
    requires 0 < k <= |c|
    ensures h + Calls(Entry, Reverse(c[..k])) == (h + [Own(Entry, c[k - 1])]) + Calls(Entry, Reverse(c[..k - 1]))
  {
  }

  /** Entering the first `k` states of a chain from the outside in, above the
      rest of the chain, opens the chain. */
  lemma {:induction false} OpenEnters(m: Machine, h: History, s: State, k: nat)
    requires Tree(m) && IsState(m, s) && k <= |Chain(m, s)|
    requires Open(m, h) == Some(Chain(m, s)[k..])
    ensures Open(m, h + Calls(Entry, Reverse(Chain(m, s)[..k]))) == Some(Chain(m, s))
    decreases k
  {
    var c := Chain(m, s);
    if k == 0 {
      assert c[0..] == c && h + Calls(Entry, Reverse(c[..0])) == h;
    } else {
      var call := Own(Entry, c[k - 1]);
      ChainLinks(m, s, k - 1);
      OpenOne(m, h, call);
      assert [c[k - 1]] + c[k..] == c[k - 1..];
      OpenEnters(m, h + [call], s, k - 1);
      EnterFirst(h, c, k);
    }
  }

  // ----------------------------------------------------- least common ancestors

  function FromEnd(a: seq<State>, i: nat): State
    requires i < |a|
  {
    a[|a| - 1 - i]
  }

  /** The last `k` elements agree. */
  predicate SameEnd(a: seq<State>, b: seq<State>, k: nat)
    requires k <= |a| && k <= |b|
  {
    forall i :: 0 <= i < k ==> FromEnd(a, i) == FromEnd(b, i)
  }

  lemma {:induction false} CommonFromSame(a: seq<State>, b: seq<State>, k: nat)
    requires k <= |a| && k <= |b| && SameEnd(a, b, k)
    ensures SameEnd(a, b, CommonFrom(a, b, k))
    decreases |a| - k
  {
    if k < |a| && k < |b| && a[|a| - 1 - k] == b[|b| - 1 - k] {
      CommonFromSame(a, b, k + 1);
    }
  }

  lemma SameSuffix(a: seq<State>, b: seq<State>, k: nat)
    requires k <= |a| && k <= |b| && SameEnd(a, b, k)
    ensures a[|a| - k..] == b[|b| - k..]
  {
    var x, y := a[|a| - k..], b[|b| - k..];
    forall i | 0 <= i < |x|
      ensures x[i] == y[i]
    {
      assert FromEnd(a, k - 1 - i) == FromEnd(b, k - 1 - i);
    }
  }

  lemma CommonSuffix(a: seq<State>, b: seq<State>)
    ensures a[|a| - CommonLen(a, b)..] == b[|b| - CommonLen(a, b)..]
  {
    CommonFromSame(a, b, 0);
    SameSuffix(a, b, CommonLen(a, b));
  }

  /** No longer suffix is common. */
  lemma {:induction false} CommonFromMaximal(a: seq<State>, b: seq<State>, k: nat, n: nat)
    requires k <= n <= |a| && n <= |b| && a[|a| - n..] == b[|b| - n..]
    ensures n <= CommonFrom(a, b, k)
    decreases n - k
  {
    if k < n {
      assert a[|a| - 1 - k] == a[|a| - n..][n - 1 - k];
      assert b[|b| - 1 - k] == b[|b| - n..][n - 1 - k];
      CommonFromMaximal(a, b, k + 1, n);
    }
  }

  lemma InSuffix(c: seq<State>, k: nat, n: nat)
    requires 0 < n <= k <= |c|
    ensures c[|c| - n] in c[|c| - k..]
  {
    assert c[|c| - k..][k - n] == c[|c| - n];
  }

  /** The states kept active by a transition to another state are exactly the
      superstates that source and target share, a state counting as its own. */
  lemma KeptIsShared(m: Machine, src: State, dst: State, x: State)
    requires Tree(m) && IsState(m, src) && IsState(m, dst) && src != dst
    ensures var c := Chain(m, src); x in c[|c| - Kept(m, src, dst)..] <==> x in c && x in Chain(m, dst)
  {
    var c, d := Chain(m, src), Chain(m, dst);
    CommonSuffix(c, d);
    if x in c && x in d {
      SharedIsKept(m, src, dst, x);
    }
  }

  lemma SharedIsKept(m: Machine, src: State, dst: State, x: State)
    requires Tree(m) && IsState(m, src) && IsState(m, dst)
    requires x in Chain(m, src) && x in Chain(m, dst)
    ensures var c := Chain(m, src); x in c[|c| - CommonLen(c, Chain(m, dst))..]
  {
    hide Chain;
    var c, d, n := Chain(m, src), Chain(m, dst), Level(m, x);
    ChainIndex(m, src, x);
    ChainIndex(m, dst, x);
    CommonFromMaximal(c, d, 0, n);
    InSuffix(c, CommonLen(c, d), n);
  }

  /** A state stands in a chain at its own level, with its own chain behind it. */
  lemma ChainIndex(m: Machine, s: State, x: State)
    requires Tree(m) && IsState(m, s) && x in Chain(m, s)
    ensures var c, n := Chain(m, s), Level(m, x);
      0 < n <= |c| && c[|c| - n..] == Chain(m, x) && c[|c| - n] == x
  {
    ChainSuffix(m, s, x);
    assert NodeOk(m, x);
    var c, n := Chain(m, s), Level(m, x);
    assert |Below(m, s, x)| == |c| - n;
    assert Chain(m, x)[0] == x;
  }

  /** The states a transition keeps end the chain of the active state too. */
  lemma KeptSame(m: Machine, active: State, src: State, dst: State)
    requires Tree(m) && IsState(m, active) && IsState(m, dst) && src in Chain(m, active)
    ensures IsState(m, src) && |Chain(m, src)| <= |Chain(m, active)|
    ensures SameEnd(Chain(m, active), Chain(m, dst), Kept(m, src, dst))
  {
    ChainIndex(m, active, src);
    var a, c, d, k := Chain(m, active), Chain(m, src), Chain(m, dst), Kept(m, src, dst);
    if src != dst {
      CommonFromSame(c, d, 0);
    }
    assert SameEnd(c, d, k);
    SuffixSame(a, c);
  }

  lemma SuffixSame(a: seq<State>, c: seq<State>)
    requires |c| <= |a| && a[|a| - |c|..] == c
    ensures SameEnd(a, c, |c|)
  {
    forall i | 0 <= i < |c|
      ensures FromEnd(a, i) == FromEnd(c, i)
    {
      assert a[|a| - |c|..][|c| - 1 - i] == a[|a| - 1 - i];
    }
  }

  /** The `k`-th superstate of `s`, counting `s` as its own 0-th. */
  ghost function Up(m: Machine, s: State, k: nat): State
    requires Tree(m) && IsState(m, s)
  {
    if k < |Chain(m, s)| then Chain(m, s)[k] else TOP
  }

  ghost predicate Standing(m: Machine, s: State, k: nat)
    requires Tree(m) && IsState(m, s)
  {
    if k < Level(m, s) then IsState(m, Up(m, s, k)) && Level(m, Up(m, s, k)) == Level(m, s) - k
    else Up(m, s, k) == TOP
  }

  lemma UpStands(m: Machine, s: State, k: nat)
    requires Tree(m) && IsState(m, s)
    ensures Standing(m, s, k)
  {
    if k < Level(m, s) {
      ChainLinks(m, s, k);
    }
  }

  lemma UpNone(m: Machine, s: State)
    requires Tree(m) && IsState(m, s)
    ensures Up(m, s, 0) == s && Standing(m, s, 0)
  {
    assert NodeOk(m, s);
  }

  lemma UpStep(m: Machine, s: State, k: nat)
    requires Tree(m) && IsState(m, s) && k < Level(m, s)
    ensures IsState(m, Up(m, s, k)) && m.parent[Up(m, s, k)] == Up(m, s, k + 1)
    ensures Standing(m, s, k + 1)
  {
    ChainLinks(m, s, k);
    UpStands(m, s, k + 1);
  }

  /** A superstate stands where its level puts it. */
  lemma UpAbove(m: Machine, s: State, a: State)
    requires Tree(m) && IsState(m, s) && Above(m, a, s)
    ensures Level(m, a) <= Level(m, s) && Up(m, s, Level(m, s) - Level(m, a)) == a
  {
    if a != TOP {
      ChainIndex(m, s, a);
    }
  }

  /** Both chains stand on the same state at level `n`. */
  ghost predicate Meet(m: Machine, src: State, dst: State, n: nat)
    requires Tree(m) && IsState(m, src) && IsState(m, dst) && n <= Level(m, src) && n <= Level(m, dst)
  {
    Up(m, src, Level(m, src) - n) == Up(m, dst, Level(m, dst) - n)
  }

  lemma EndsAgree(a: seq<State>, b: seq<State>, n: nat)
    requires 0 < n <= CommonLen(a, b)
    ensures a[|a| - n] == b[|b| - n]
  {
    CommonFromSame(a, b, 0);
    assert FromEnd(a, n - 1) == FromEnd(b, n - 1);
  }

  lemma MeetIsCommon(m: Machine, src: State, dst: State, n: nat)
    requires Tree(m) && IsState(m, src) && IsState(m, dst)
    requires 0 < n <= Level(m, src) && n <= Level(m, dst) && Meet(m, src, dst, n)
    ensures n <= CommonLen(Chain(m, src), Chain(m, dst))
  {
    var c, d := Chain(m, src), Chain(m, dst);
    ChainLinks(m, src, |c| - n);
    ChainLinks(m, dst, |d| - n);
    CommonFromMaximal(c, d, 0, n);
  }

  ghost predicate PartsAt(m: Machine, src: State, dst: State, k: nat)
    requires Tree(m) && IsState(m, src) && IsState(m, dst)
  {
    && k <= Level(m, src) && k <= Level(m, dst)
    && forall n {:trigger Meet(m, src, dst, n)} ::
         0 < n <= Level(m, src) && n <= Level(m, dst) ==> (Meet(m, src, dst, n) <==> n <= k)
  }

  /** How the engine finds where two chains part: they stand on the same state at
      the levels up to the length of their common end, and at no other. */
  lemma CommonParts(m: Machine, src: State, dst: State)
    requires Tree(m) && IsState(m, src) && IsState(m, dst)
    ensures PartsAt(m, src, dst, CommonLen(Chain(m, src), Chain(m, dst)))
  {
    var k := CommonLen(Chain(m, src), Chain(m, dst));
    forall n {:trigger Meet(m, src, dst, n)} | 0 < n <= Level(m, src) && n <= Level(m, dst)
      ensures Meet(m, src, dst, n) <==> n <= k
    {
      if n <= k {
        EndsAgree(Chain(m, src), Chain(m, dst), n);
      } else if Meet(m, src, dst, n) {
        MeetIsCommon(m, src, dst, n);
      }
    }
  }

  // ------------------------------------------------------------------- bracketing

  lemma OpenInit(m: Machine, h: History, s: State)
    requires Tree(m) && IsState(m, s) && Open(m, h) == Some(Chain(m, s))
    ensures Open(m, h + [Own(Init, s)]) == Some(Chain(m, s)) && s in Chain(m, s)
  {
    OpenOne(m, h, Own(Init, s));
    assert NodeOk(m, s);
    assert Chain(m, s)[0] == s;
  }

  lemma {:induction false} SettleBrackets(m: Machine, h: History, s: State)
    requires WellFormed(m) && IsState(m, s) && Open(m, h) == Some(Chain(m, s))
    ensures var (s', h') := Settle(m, h, s); Open(m, h') == Some(Chain(m, s')) && s in Chain(m, s')
    decreases m.depth - Level(m, s)
  {
    hide Open, Chain;
    assert NodeOk(m, s) && Polite(m, h, s);
    var h1 := h + [Own(Init, s)];
    OpenInit(m, h, s);
    var r := m.react(h, Own(Init, s));
    if r.Tran? {
      LevelBelow(m, r.to, s);
      ChainSuffix(m, r.to, s);
      var c := Chain(m, r.to);
      var k := |c| - |Chain(m, s)|;
      assert c[k..] == Chain(m, s);
      OpenEnters(m, h1, r.to, k);
      var h2 := h1 + Calls(Entry, Reverse(Below(m, r.to, s)));
      SettleBrackets(m, h2, r.to);
      var s' := Settle(m, h2, r.to).0;
      ChainSuffix(m, s', r.to);
    }
  }

  /** Leaving all but the last `k` states of one chain and entering all but the
      same last `k` states of another. */
  lemma CrossBrackets(m: Machine, h: History, active: State, dst: State, k: nat)
    requires WellFormed(m) && IsState(m, active) && IsState(m, dst)
    requires Open(m, h) == Some(Chain(m, active))
    requires k <= |Chain(m, active)| && k <= |Chain(m, dst)|
    requires SameEnd(Chain(m, active), Chain(m, dst), k)
    ensures Open(m, Crossing(m, h, active, dst, k)) == Some(Chain(m, dst))
  {
    hide Open, Chain, SameEnd, Handlers;
    var a, d := Chain(m, active), Chain(m, dst);
    SameSuffix(a, d, k);
    assert a == a[..|a| - k] + a[|a| - k..];
    OpenExits(m, h, a[..|a| - k], a[|a| - k..]);
    OpenEnters(m, h + Calls(Exit, a[..|a| - k]), dst, |d| - k);
  }

  lemma TransitBrackets(m: Machine, h: History, active: State, src: State, dst: State)
    requires WellFormed(m) && IsState(m, active) && IsState(m, dst) && src in Chain(m, active)
    requires Open(m, h) == Some(Chain(m, active))
    ensures var (s, h') := Transit(m, h, active, src, dst);
      Open(m, h') == Some(Chain(m, s)) && dst in Chain(m, s)
  {
    ChainIndex(m, active, src);
    var k := Kept(m, src, dst);
    KeptSame(m, active, src, dst);
    CrossBrackets(m, h, active, dst, k);
    SettleBrackets(m, Crossing(m, h, active, dst, k), dst);
  }

  lemma {:induction false} OfferBrackets(m: Machine, h: History, active: State, s: State, id: nat, stack: seq<State>)
    requires Tree(m) && (s == TOP || IsState(m, s)) && Open(m, h) == Some(stack)
    requires stack != [] && stack[0] == active && forall x :: x in Chain(m, s) ==> x in stack
    ensures Open(m, Offer(m, h, active, s, id).2) == Some(stack)
    decreases Level(m, s)
  {
    if s != TOP {
      assert NodeOk(m, s);
      var call := Call(User(id), s, active);
      OpenOne(m, h, call);
      if m.react(h, call).Super? {
        OfferBrackets(m, h + [call], active, m.parent[s], id, stack);
      }
    }
  }

  lemma PassBrackets(m: Machine, h: History, active: State, id: nat)
    requires WellFormed(m) && IsState(m, active) && Open(m, h) == Some(Chain(m, active))
    ensures var (s, h', _) := Pass(m, h, active, id); Open(m, h') == Some(Chain(m, s))
  {
    assert NodeOk(m, active) && Chain(m, active)[0] == active;
    OfferBrackets(m, h, active, active, id, Chain(m, active));
    OfferTarget(m, h, active, active, id);
    var (src, r, h') := Offer(m, h, active, active, id);
    if r.Tran? || r.Redispatch? {
      TransitBrackets(m, h', active, src, r.to);
    }
  }

  lemma DispatchBrackets(m: Machine, h: History, active: State, id: nat)
    requires WellFormed(m) && IsState(m, active) && Open(m, h) == Some(Chain(m, active))
    ensures var (s, h') := Dispatch(m, h, active, id); Open(m, h') == Some(Chain(m, s))
  {
    PassBrackets(m, h, active, id);
    var (s, h', r) := Pass(m, h, active, id);
    if r.Redispatch? {
      PassBrackets(m, h', s, id);
    }
  }

  /** A machine started after history `h0` with start event `id`, after any
      sequence of events. */
  ghost function Run(m: Machine, h0: History, id: nat, events: seq<nat>): (r: (State, History))
    requires WellFormed(m)
    ensures IsState(m, r.0)
  {
    if events == [] then Start(m, h0, id) else
    var (s, h) := Run(m, h0, id, events[..|events| - 1]);
    Dispatch(m, h, s, events[|events| - 1])
  }

  lemma StartBrackets(m: Machine, h0: History, id: nat)
    requires WellFormed(m) && Open(m, h0) == Some([])
    ensures var (s, h) := Start(m, h0, id); Open(m, h) == Some(Chain(m, s))
  {
    var first, h1 := First(m, h0, id), h0 + [StartCall(m, id)];
    var c := Chain(m, first);
    OpenOne(m, h0, StartCall(m, id));
    assert c[|c|..] == [] && c[..|c|] == c;
    OpenEnters(m, h1, first, |c|);
    SettleBrackets(m, h1 + Calls(Entry, Reverse(c)), first);
  }

  /** After start and any events, the entered and not yet exited states are
      exactly the active state and its superstates, in order, and every handler
      found the active state it should; deinit closes all, and the machine may
      start again. */
  lemma {:induction false} RunBrackets(m: Machine, h0: History, id: nat, events: seq<nat>)
    requires WellFormed(m) && Open(m, h0) == Some([])
    ensures var (s, h) := Run(m, h0, id, events);
      && Open(m, h) == Some(Chain(m, s))
      && Open(m, Deinit(m, h, s)) == Some([])
    decreases |events|
  {
    if events == [] {
      StartBrackets(m, h0, id);
    } else {
      RunBrackets(m, h0, id, events[..|events| - 1]);
      var (s, h) := Run(m, h0, id, events[..|events| - 1]);
      DispatchBrackets(m, h, s, events[|events| - 1]);
    }
    var (s, h) := Run(m, h0, id, events);
    assert Chain(m, s) == Chain(m, s) + [];
    OpenExits(m, h, Chain(m, s), []);
  }

  // ------------------------------------------------------- who is offered an event

  /** The number of handlers an event is offered to, am_hsm_top included. */
  ghost function Asked(m: Machine, h: History, active: State, s: State, id: nat): (n: nat)
    requires Tree(m) && (s == TOP || IsState(m, s))
    ensures 0 < n <= Level(m, s) + 1
    decreases Level(m, s)
  {
    if s == TOP then 1 else
    assert NodeOk(m, s);
    var call := Call(User(id), s, active);
    if m.react(h, call).Super? then 1 + Asked(m, h + [call], active, m.parent[s], id) else 1
  }

  /** No handler on the way up takes the event. */
  ghost predicate Ignored(m: Machine, h: History, active: State, s: State, id: nat)
    requires Tree(m) && (s == TOP || IsState(m, s))
  {
    Offer(m, h, active, s, id).0 == TOP
  }

  lemma {:induction false} AskedCount(m: Machine, h: History, active: State, s: State, id: nat)
    requires Tree(m) && (s == TOP || IsState(m, s))
    ensures Ignored(m, h, active, s, id) ==> Asked(m, h, active, s, id) == Level(m, s) + 1
    ensures !Ignored(m, h, active, s, id) ==>
      && Asked(m, h, active, s, id) <= Level(m, s)
      && Offer(m, h, active, s, id).0 == Chain(m, s)[Asked(m, h, active, s, id) - 1]
    decreases Level(m, s)
  {
    if s != TOP {
      assert NodeOk(m, s);
      var call := Call(User(id), s, active);
      if m.react(h, call).Super? {
        AskedCount(m, h + [call], active, m.parent[s], id);
      }
    }
  }

  /** The calls that offer an event to states while `active` is the active state. */
  function Offers(id: nat, active: State, states: seq<State>): (h: History)
    ensures |h| == |states|
  {
    seq(|states|, i requires 0 <= i < |states| => Call(User(id), states[i], active))
  }

  lemma OffersNone(h: History, id: nat, active: State)
    ensures h + Offers(id, active, []) == h
  {
  }

  lemma OffersCons(h: History, id: nat, active: State, s: State, c: seq<State>)
    ensures h + Offers(id, active, [s] + c) == h + [Call(User(id), s, active)] + Offers(id, active, c)
  {
    assert Offers(id, active, [s] + c) == [Call(User(id), s, active)] + Offers(id, active, c);
  }

  /** Handlers before the last one asked answered Super, and were asked in the
      order of the chain, each exactly once, for their own state and instance,
      while the active state stayed what it was. */
  lemma {:induction false} OfferOrder(m: Machine, h: History, active: State, s: State, id: nat, k: nat)
    requires Tree(m) && IsState(m, s) && k < Asked(m, h, active, s, id) && k < Level(m, s)
    ensures var asked := Offers(id, active, Chain(m, s)[..k]);
      && var call := Call(User(id), Chain(m, s)[k], active);
      && h + asked + [call] <= Offer(m, h, active, s, id).2
      && (m.react(h + asked, call).Super? <==> k + 1 < Asked(m, h, active, s, id))
    decreases Level(m, s)
  {
    assert NodeOk(m, s);
    var p, call := m.parent[s], Call(User(id), s, active);
    var h1 := h + [call];
    if k == 0 {
      assert h + Offers(id, active, Chain(m, s)[..0]) == h;
      if m.react(h, call).Super? {
        OfferGrows(m, h1, active, p, id);
      }
    } else {
      OfferOrder(m, h1, active, p, id, k - 1);
      assert Chain(m, s)[..k] == [s] + Chain(m, p)[..k - 1];
      OffersCons(h, id, active, s, Chain(m, p)[..k - 1]);
    }
  }

  /** A pass that ends without a transition made exactly these calls. */
  lemma {:induction false} OfferedAll(m: Machine, h: History, active: State, s: State, id: nat)
    requires Tree(m) && (s == TOP || IsState(m, s))
    ensures var n := Asked(m, h, active, s, id);
      Offer(m, h, active, s, id).2 ==
        h + Offers(id, active, Chain(m, s)[..if n <= Level(m, s) then n else Level(m, s)])
    decreases Level(m, s)
  {
    hide Offers;
    if s == TOP {
      OffersNone(h, id, active);
    } else {
      assert NodeOk(m, s);
      OffersNone(h + [Call(User(id), s, active)], id, active);
      var p, call := m.parent[s], Call(User(id), s, active);
      if m.react(h, call).Super? {
        OfferedAll(m, h + [call], active, p, id);
        var n := Asked(m, h + [call], active, p, id);
        var k := if n <= Level(m, p) then n else Level(m, p);
        assert Chain(m, s)[..k + 1] == [s] + Chain(m, p)[..k];
        OffersCons(h, id, active, s, Chain(m, p)[..k]);
      } else {
        assert Chain(m, s)[..1] == [s] + [];
        OffersCons(h, id, active, s, []);
      }
    }
  }

  lemma {:induction false} OfferGrows(m: Machine, h: History, active: State, s: State, id: nat)
    requires Tree(m) && (s == TOP || IsState(m, s))
    ensures h <= Offer(m, h, active, s, id).2
    decreases Level(m, s)
  {
    if s != TOP {
      assert NodeOk(m, s);
      var call := Call(User(id), s, active);
      if m.react(h, call).Super? {
        OfferGrows(m, h + [call], active, m.parent[s], id);
      }
    }
  }

  /** The depth counter of hsm_dispatch starts at the maximum depth and must not
      reach zero: an event nobody takes is safe exactly from an active state at
      level 14 or less, so state machines one level deeper are not. */
  lemma DepthBoundTight(m: Machine, h: History, s: State, id: nat)
    requires Tree(m) && IsState(m, s) && Ignored(m, h, s, s, id)
    ensures Asked(m, h, s, s, id) < HIERARCHY_DEPTH_MAX <==> Level(m, s) <= HIERARCHY_DEPTH_MAX - 2
  {
    AskedCount(m, h, s, s, id);
  }
}
