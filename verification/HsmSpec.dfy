/** What the hierarchical state machine engine of libs/hsm is to do, as functions
    on the active state and the history of handler calls.

    A state is a handler function together with a submachine instance. The
    answers of user handlers are arbitrary: they may depend on every call made
    so far, which is all a handler with variables of its own could depend on. */
module HsmSpec {

  const HIERARCHY_DEPTH_MAX := 16

  type Instance = i: int | 0 <= i < 256

  datatype Fn = TopFn | UserFn(id: nat)
  datatype State = State(fn: Fn, instance: Instance)

  /** am_hsm_top, the superstate of everything. */
  const TOP := State(TopFn, 0)

  /** The reserved events and the user events. */
  datatype Event = Empty | Init | Entry | Exit | User(id: nat)

  /** A handler's answer, with the state it left in hsm for Tran and Redispatch. */
  datatype Reaction =
    | Handled
    | CoroBusy
    | CoroDone
    | Super
    | Tran(to: State)
    | Redispatch(to: State)

  /** One call of a handler with an event other than Empty: the event, the state
      the handler acts for, and the active state it finds in the machine. */
  datatype Call = Call(event: Event, state: State, active: State)

  type History = seq<Call>

  /** User code: the superstate of every state, a level for every state that
      grows by one from superstate to substate, a bound on the levels, the
      initial pseudo-state, and the handlers' answers. */
  datatype Machine = Machine(
    parent: map<State, State>,
    level: map<State, nat>,
    depth: nat,
    initial: State,
    react: (History, Call) -> Reaction)

  /** The call of a handler for the active state itself. */
  function Own(e: Event, s: State): Call { Call(e, s, s) }

  function Level(m: Machine, s: State): nat { if s in m.level then m.level[s] else 0 }

  predicate IsState(m: Machine, s: State) { s in m.parent }

  /** `s` has a superstate, one level up, and is within the depth. */
  predicate NodeOk(m: Machine, s: State)
    requires IsState(m, s)
  {
    && s.fn != TopFn
    && (m.parent[s] == TOP || IsState(m, m.parent[s]))
    && Level(m, s) == Level(m, m.parent[s]) + 1
    && Level(m, s) <= m.depth
  }

  /** The superstate relation is a tree rooted at am_hsm_top. */
  ghost predicate Tree(m: Machine) {
    && TOP !in m.level
    && !IsState(m, m.initial) && m.initial.fn != TopFn
    && forall s {:trigger NodeOk(m, s)} :: IsState(m, s) ==> NodeOk(m, s)
  }

  /** `s` and its superstates, innermost first, without am_hsm_top. */
  ghost function Chain(m: Machine, s: State): (c: seq<State>)
    requires Tree(m) && (s == TOP || IsState(m, s))
    ensures |c| == Level(m, s)
    ensures forall i :: 0 <= i < |c| ==> IsState(m, c[i])
    decreases Level(m, s)
  {
    if s == TOP then [] else
    assert NodeOk(m, s);
    [s] + Chain(m, m.parent[s])
  }

  /** `a` is `s`, one of its superstates, or am_hsm_top. */
  ghost predicate Above(m: Machine, a: State, s: State)
    requires Tree(m) && IsState(m, s)
  {
    a == TOP || a in Chain(m, s)
  }

  /** The states from `s` up to but not including `a`, innermost first. */
  ghost function Below(m: Machine, s: State, a: State): (c: seq<State>)
    requires Tree(m) && (s == TOP || IsState(m, s)) && (a == TOP || IsState(m, a))
  {
    var n := |Chain(m, s)| - |Chain(m, a)|;
    if n <= 0 then [] else Chain(m, s)[..n]
  }

  /** The handler of `s` keeps the rules of the event kinds after history `h`: no
      transition on entry and exit, an initial transition only to a proper
      substate, other transitions to a state of the machine. */
  ghost predicate Polite(m: Machine, h: History, s: State)
    requires Tree(m)
  {
    && (m.react(h, Own(Entry, s)).Handled? || m.react(h, Own(Entry, s)).Super?)
    && (m.react(h, Own(Exit, s)).Handled? || m.react(h, Own(Exit, s)).Super?)
    && (var r := m.react(h, Own(Init, s));
        r.Handled? || r.Super? || (r.Tran? && IsState(m, r.to) && r.to != s && s in Chain(m, r.to)))
    && forall id, active :: PoliteTarget(m, m.react(h, Call(User(id), s, active)))
  }

  predicate PoliteTarget(m: Machine, r: Reaction) {
    r.Tran? || r.Redispatch? ==> IsState(m, r.to)
  }

  ghost predicate Handlers(m: Machine)
    requires Tree(m)
  {
    forall h: History, s {:trigger Polite(m, h, s)} :: IsState(m, s) ==> Polite(m, h, s)
  }

  /** The initial pseudo-state answers the start event with a transition. */
  ghost predicate Starts(m: Machine) {
    forall h: History, id: nat :: StartsAt(m, m.react(h, Own(User(id), m.initial)))
  }

  predicate StartsAt(m: Machine, r: Reaction) { r.Tran? && IsState(m, r.to) }

  ghost predicate WellFormed(m: Machine) { Tree(m) && Handlers(m) && Starts(m) }

  // ------------------------------------------------------------ what is to happen

  function Calls(e: Event, states: seq<State>): (h: History)
    ensures |h| == |states|
  {
    seq(|states|, i requires 0 <= i < |states| => Own(e, states[i]))
  }

  function Reverse(s: seq<State>): (r: seq<State>)
    ensures |r| == |s|
    ensures forall i :: 0 <= i < |s| ==> r[i] == s[|s| - 1 - i]
  {
    if s == [] then [] else Reverse(s[1..]) + [s[0]]
  }

  /** Follow initial transitions from `s`, which has just been entered. */
  ghost function Settle(m: Machine, h: History, s: State): (r: (State, History))
    requires WellFormed(m) && IsState(m, s)
    ensures IsState(m, r.0)
    decreases m.depth - Level(m, s)
  {
    var h' := h + [Own(Init, s)];
    assert Polite(m, h, s);
    match m.react(h, Own(Init, s))
    case Tran(to) =>
      LevelBelow(m, to, s);
      Settle(m, h' + Calls(Entry, Reverse(Below(m, to, s))), to)
    case _ => (s, h')
  }

  /** How many innermost-common superstates of `src` and `dst` stay active: all
      they share, except that a state is left and entered again when it is its
      own target. */
  ghost function Kept(m: Machine, src: State, dst: State): (k: nat)
    requires Tree(m) && IsState(m, src) && IsState(m, dst)
    ensures k <= |Chain(m, src)| && k <= |Chain(m, dst)|
  {
    if src == dst then
      assert NodeOk(m, src);
      |Chain(m, src)| - 1
    else CommonLen(Chain(m, src), Chain(m, dst))
  }

  /** Length of the longest common suffix. */
  function CommonLen(a: seq<State>, b: seq<State>): (k: nat)
    ensures k <= |a| && k <= |b|
  {
    CommonFrom(a, b, 0)
  }

  function CommonFrom(a: seq<State>, b: seq<State>, k: nat): (n: nat)
    requires k <= |a| && k <= |b|
    ensures k <= n <= |a| && n <= |b|
    decreases |a| - k
  {
    if k < |a| && k < |b| && a[|a| - 1 - k] == b[|b| - 1 - k] then CommonFrom(a, b, k + 1) else k
  }

  /** The calls that leave all of `active` but its outermost `kept` states,
      innermost first, and enter the rest of `dst`, outermost first. */
  ghost function Crossing(m: Machine, h: History, active: State, dst: State, kept: nat): History
    requires Tree(m) && IsState(m, active) && IsState(m, dst)
    requires kept <= |Chain(m, active)| && kept <= |Chain(m, dst)|
  {
    var a, d := Chain(m, active), Chain(m, dst);
    h + Calls(Exit, a[..|a| - kept]) + Calls(Entry, Reverse(d[..|d| - kept]))
  }

  /** A transition to `dst` requested by the handler of `src` while `active`,
      which is `src` or a substate of it, is the active state. */
  ghost function Transit(m: Machine, h: History, active: State, src: State, dst: State): (r: (State, History))
    requires WellFormed(m) && IsState(m, active) && IsState(m, dst) && src in Chain(m, active)
    ensures IsState(m, r.0)
  {
    ChainSuffix(m, active, src);
    Settle(m, Crossing(m, h, active, dst, Kept(m, src, dst)), dst)
  }

  /** Offer an event to `s`, then to its superstates, until one does not answer
      Super; am_hsm_top answers Handled. All of them find the same active state. */
  ghost function Offer(m: Machine, h: History, active: State, s: State, id: nat): (r: (State, Reaction, History))
    requires Tree(m) && (s == TOP || IsState(m, s))
    ensures !r.1.Super?
    ensures r.0 == TOP ==> r.1 == Handled
    ensures r.0 != TOP ==> r.0 in Chain(m, s)
    decreases Level(m, s)
  {
    if s == TOP then (TOP, Handled, h)
    else
      assert NodeOk(m, s);
      var call := Call(User(id), s, active);
      var r := m.react(h, call);
      if r.Super? then Offer(m, h + [call], active, m.parent[s], id) else (s, r, h + [call])
  }

  /** One pass of an event through the machine, and the answer that ended it. */
  ghost function Pass(m: Machine, h: History, active: State, id: nat): (r: (State, History, Reaction))
    requires WellFormed(m) && IsState(m, active)
    ensures IsState(m, r.0)
  {
    var (src, answer, h') := Offer(m, h, active, active, id);
    if answer.Tran? || answer.Redispatch? then
      OfferTarget(m, h, active, active, id);
      var (s, h'') := Transit(m, h', active, src, answer.to);
      (s, h'', answer)
    else
      (active, h', answer)
  }

  /** am_hsm_dispatch: a second pass when the first one asks for it. */
  ghost function Dispatch(m: Machine, h: History, active: State, id: nat): (r: (State, History))
    requires WellFormed(m) && IsState(m, active)
    ensures IsState(m, r.0)
  {
    var (s, h', answer) := Pass(m, h, active, id);
    if answer.Redispatch? then
      var (s', h'', _) := Pass(m, h', s, id);
      (s', h'')
    else
      (s, h')
  }

  /** The event is not redispatched a second time. */
  ghost predicate RedispatchOnce(m: Machine, h: History, active: State, id: nat)
    requires WellFormed(m) && IsState(m, active)
  {
    var (s, h', answer) := Pass(m, h, active, id);
    answer.Redispatch? ==> !Pass(m, h', s, id).2.Redispatch?
  }

  /** The call of the initial pseudo-state with the start event. */
  function StartCall(m: Machine, id: nat): Call { Own(User(id), m.initial) }

  /** Where the initial pseudo-state's transition leads. */
  ghost function First(m: Machine, h: History, id: nat): (s: State)
    requires WellFormed(m)
    ensures IsState(m, s)
  {
    assert StartsAt(m, m.react(h, Own(User(id), m.initial)));
    m.react(h, StartCall(m, id)).to
  }

  /** am_hsm_start of a machine no state of which is active, after history `h`. */
  ghost function Start(m: Machine, h: History, id: nat): (r: (State, History))
    requires WellFormed(m)
    ensures IsState(m, r.0)
  {
    var first := First(m, h, id);
    Settle(m, h + [StartCall(m, id)] + Calls(Entry, Reverse(Chain(m, first))), first)
  }

  ghost function Deinit(m: Machine, h: History, active: State): History
    requires WellFormed(m) && IsState(m, active)
  {
    h + Calls(Exit, Chain(m, active))
  }

  // ---------------------------------------------------------------------- chains

  /** The chain of a superstate is a suffix of the chain. */
  lemma {:induction false} ChainSuffix(m: Machine, s: State, a: State)
    requires Tree(m) && IsState(m, s) && a in Chain(m, s)
    ensures IsState(m, a)
    ensures Chain(m, s) == Below(m, s, a) + Chain(m, a)
    ensures Level(m, a) <= Level(m, s)
    ensures a != s ==> Level(m, a) < Level(m, s)
    decreases Level(m, s)
  {
    hide Tree, Chain, NodeOk, Level;
    ChainStep(m, s);
    var p := m.parent[s];
    if a == s {
      assert Below(m, s, a) == [];
    } else {
      ChainSuffix(m, p, a);
      assert Below(m, s, a) == [s] + Below(m, p, a);
    }
  }

  lemma ChainStep(m: Machine, s: State)
    requires Tree(m) && IsState(m, s)
    ensures var p := m.parent[s];
      && (p == TOP || IsState(m, p)) && Level(m, s) == Level(m, p) + 1
      && Chain(m, s) == [s] + Chain(m, p)
      && (p == TOP ==> Chain(m, p) == [])
  {
    assert NodeOk(m, s);
  }

  lemma LevelBelow(m: Machine, s: State, a: State)
    requires Tree(m) && IsState(m, s) && a in Chain(m, s) && a != s
    ensures Level(m, a) < Level(m, s) <= m.depth
  {
    assert NodeOk(m, s);
    ChainSuffix(m, s, a);
  }

  lemma {:induction false} OfferTarget(m: Machine, h: History, active: State, s: State, id: nat)
    requires WellFormed(m) && (s == TOP || IsState(m, s))
    ensures var r := Offer(m, h, active, s, id).1; r.Tran? || r.Redispatch? ==> IsState(m, r.to)
    decreases Level(m, s)
  {
    if s != TOP {
      var call := Call(User(id), s, active);
      assert NodeOk(m, s) && Polite(m, h, s) && PoliteTarget(m, m.react(h, call));
      if m.react(h, call).Super? {
        OfferTarget(m, h + [call], active, m.parent[s], id);
      }
    }
  }
}
