/** The state machine engine of libs/hsm/hsm.c on its mutable descriptor. Every
    AM_ASSERT of the source is an assert here, and every method is proved to
    make exactly the handler calls HsmSpec asks for. */
module HsmEngine {
  import opened HsmSpec
  import opened HsmTheorems
  import opened Options

  /** enum am_rc, as far as handlers use it. */
  datatype Rc = RC_HANDLED | RC_CORO_BUSY | RC_CORO_DONE | RC_SUPER | RC_TRAN | RC_TRAN_REDISPATCH

  function RcOf(r: Reaction): Rc {
    match r
    case Handled => RC_HANDLED
    case CoroBusy => RC_CORO_BUSY
    case CoroDone => RC_CORO_DONE
    case Super => RC_SUPER
    case Tran(_) => RC_TRAN
    case Redispatch(_) => RC_TRAN_REDISPATCH
  }

  lemma PathIsChain(m: Machine, path: seq<State>, s: State, len: nat)
    requires Tree(m) && IsState(m, s) && len <= |path| && len <= Level(m, s)
    requires forall i :: 0 <= i < len ==> path[i] == Up(m, s, i)
    ensures path[..len] == Chain(m, s)[..len]
    ensures forall i :: 0 <= i < len ==> IsState(m, path[i])
  {
  }

  class Hsm {
    const m: Machine
    /** state_fn and state_instance */
    var state: State
    var instance: Instance
    var level: nat
    var initCalled: bool
    var startCalled: bool
    var dispatchInProgress: bool
    /** Stands for whatever the user handlers remember. */
    var h: History

    /** The descriptor between am_hsm_init and am_hsm_start. */
    ghost predicate Ready()
      reads this
    {
      && WellFormed(m) && m.depth <= HIERARCHY_DEPTH_MAX - 2
      && state == m.initial && instance == state.instance && level == 0
      && initCalled && !startCalled && !dispatchInProgress
      && Open(m, h) == Some([])
    }

    /** The descriptor after am_hsm_deinit. */
    ghost predicate Stopped()
      reads this
    {
      && WellFormed(m) && m.depth <= HIERARCHY_DEPTH_MAX - 2
      && level == 0 && !initCalled && !startCalled && !dispatchInProgress
      && Open(m, h) == Some([])
    }

    /** The descriptor between two API calls on a started machine. */
    ghost predicate AtRest()
      reads this
    {
      && WellFormed(m) && m.depth <= HIERARCHY_DEPTH_MAX - 2
      && IsState(m, state) && instance == state.instance
      && level == |Chain(m, state)|
      && initCalled && startCalled && !dispatchInProgress
      && Open(m, h) == Some(Chain(m, state))
    }

    /** hsm_set_state; am_hsm_super_i, am_hsm_tran_i and am_hsm_tran_redispatch_i
        make the same assignments. */
    method SetState(s: State)
      modifies this`state, this`instance
      ensures state == s && instance == s.instance
    {
      state := s;
      instance := s.instance;
    }

    /** Call the handler function `fn` with `event`. The handler sees the
        submachine instance in `instance`; which state it acts for is therefore
        (fn, instance). The active state it finds is the one in `state`. */
    method Invoke(fn: Fn, event: Event) returns (rc: Rc)
      requires Tree(m)
      requires fn != TopFn ==> IsState(m, State(fn, instance)) || (State(fn, instance) == m.initial && event.User?)
      modifies this`state, this`instance, this`h
      ensures fn == TopFn ==> rc == RC_HANDLED && unchanged(this)
      ensures fn != TopFn ==>
        var who := State(fn, old(instance));
        var call := Call(event, who, old(state));
        var r := if event == Empty then Super else m.react(old(h), call);
        && rc == RcOf(r)
        && h == (if event == Empty then old(h) else old(h) + [call])
        && (match r
            case Super => who in m.parent ==> state == m.parent[who] && instance == state.instance
            case Tran(to) => state == to && instance == to.instance
            case Redispatch(to) => state == to && instance == to.instance
            case _ => state == old(state) && instance == old(instance))
    {
      if fn == TopFn {
        return RC_HANDLED;
      }
      var who := State(fn, instance);
      var call := Call(event, who, state);
      var r := if event == Empty then Super else m.react(h, call);
      if event != Empty {
        h := h + [call];
      }
      match r {
        case Super => if who in m.parent { SetState(m.parent[who]); }
        case Tran(to) => SetState(to);
        case Redispatch(to) => SetState(to);
        case _ =>
      }
      rc := RcOf(r);
    }

    /** Ask the state handler for its superstate with an Empty event, and check the
        answer. The source writes these two lines out at each use. */
    method ToSuper()
      requires Tree(m) && IsState(m, state) && instance == state.instance
      modifies this`state, this`instance, this`h
      ensures state == m.parent[old(state)] && instance == state.instance && h == old(h)
    {
      assert NodeOk(m, state);
      var rc := Invoke(state.fn, Empty);
      assert rc == RC_SUPER;
    }

    /** hsm_build: the superstates of `from`, innermost first, stopping before
        `until`, or after `till` if it comes first. The descriptor is restored. */
    method Build(path: array<State>, from: State, until: State, till: Option<State>) returns (len: nat)
      requires Tree(m) && m.depth <= HIERARCHY_DEPTH_MAX && path.Length == HIERARCHY_DEPTH_MAX
      requires IsState(m, from) && until != from && Above(m, until, from)
      requires till.Some? ==> until == TOP && IsState(m, till.value)
      modifies path, this`state, this`instance, this`h
      ensures unchanged(this)
      ensures 0 < len <= Level(m, from) && len <= path.Length
      ensures forall i :: 0 <= i < len ==> path[i] == Up(m, from, i)
      ensures len == Level(m, from) -
        if till.Some? && till.value in Chain(m, from) then Level(m, till.value) - 1 else Level(m, until)
    {
      hide Chain, Up;
      ghost var n := Level(m, from);
      assert NodeOk(m, from);
      UpAbove(m, from, until);
      UpZero(m, from, h);
      UpIn(m, from, 0);
      path[0] := from;
      len := 1;
      if till.Some? && till.value == from {
        return;
      }
      if till.Some? {
        assert NodeOk(m, till.value);
        if till.value in Chain(m, from) {
          UpAbove(m, from, till.value);
        }
      }
      var state0, instance0 := state, instance;
      SetState(from);
      ToSuper();
      UpStep(m, from, 0);
      while state != until
        invariant 0 < len <= n - Level(m, until)
        invariant state == Up(m, from, len) && instance == state.instance && h == old(h)
        invariant forall i :: 0 <= i < len ==> path[i] == Up(m, from, i)
        invariant till.Some? && till.value in Chain(m, from) ==> len <= n - Level(m, till.value)
        invariant Standing(m, from, len)
        decreases n - len
      {
        assert len < path.Length;
        path[len] := state;
        len := len + 1;
        if till.Some? && state == till.value {
          UpIn(m, from, len - 1);
          break;
        }
        ToSuper();
        UpStep(m, from, len - 1);
      }
      state, instance := state0, instance0;
    }

    /** hsm_enter: enter the states of the path from last to first. */
    method Enter(path: array<State>, len: nat)
      requires WellFormed(m) && len <= path.Length && level + len <= HIERARCHY_DEPTH_MAX
      requires forall i :: 0 <= i < len ==> IsState(m, path[i])
      modifies this`state, this`instance, this`level, this`h
      ensures h == old(h) + Calls(Entry, Reverse(path[..len]))
      ensures level == old(level) + len
      ensures len > 0 ==> state == path[0] && instance == state.instance
    {
      hide Chain, Reverse, Calls, Handlers, Polite, NodeOk, Starts;
      ghost var entered: seq<State> := [];
      CallsNone(h, Entry);
      var i := len;
      while i > 0
        invariant 0 <= i <= len
        invariant h == old(h) + Calls(Entry, entered)
        invariant |entered| == len - i && level == old(level)
        invariant forall k :: 0 <= k < len - i ==> entered[k] == path[len - 1 - k]
        invariant i < len ==> state == path[i] && instance == state.instance
      {
        SetState(path[i - 1]);
        EntryAnswer(m, h, state);
        var rc := Invoke(state.fn, Entry);
        assert rc == RC_SUPER || rc == RC_HANDLED;
        SetState(path[i - 1]);
        CallsSnoc(old(h), Entry, entered, path[i - 1]);
        entered := entered + [path[i - 1]];
        i := i - 1;
      }
      assert entered == Reverse(path[..len]);
      assert level + len <= HIERARCHY_DEPTH_MAX;
      level := level + len;
    }

    /** hsm_exit_state */
    method ExitState()
      requires WellFormed(m) && IsState(m, state) && instance == state.instance && level > 0
      modifies this`state, this`instance, this`level, this`h
      ensures state == m.parent[old(state)] && instance == state.instance
      ensures h == old(h) + [Own(Exit, old(state))] && level == old(level) - 1
    {
      assert NodeOk(m, state) && Polite(m, h, state);
      var rc := Invoke(state.fn, Exit);
      if rc == RC_HANDLED {
        ToSuper();
        rc := RC_SUPER;
      }
      assert rc == RC_SUPER;
      assert level > 0;
      level := level - 1;
    }

    /** hsm_exit: exit the active state and its superstates below `until`. */
    method ExitUpTo(until: State)
      requires WellFormed(m) && IsState(m, state) && instance == state.instance
      requires Above(m, until, state) && level == Level(m, state)
      requires level - Level(m, until) < HIERARCHY_DEPTH_MAX
      modifies this`state, this`instance, this`level, this`h
      ensures state == until && instance == state.instance && level == Level(m, until) <= old(level)
      ensures h == old(h) + Calls(Exit, Below(m, old(state), until))
    {
      hide Calls, Chain, Handlers, Starts, NodeOk;
      ghost var s, left := state, Chain(m, state)[..0];
      UpAbove(m, s, until);
      UpNone(m, s);
      CallsNone(h, Exit);
      var cnt := HIERARCHY_DEPTH_MAX;
      while state != until
        invariant Level(m, until) <= level <= Level(m, s)
        invariant state == Up(m, s, Level(m, s) - level) && Standing(m, s, Level(m, s) - level)
        invariant instance == state.instance
        invariant left == Chain(m, s)[..Level(m, s) - level] && h == old(h) + Calls(Exit, left)
        invariant cnt == HIERARCHY_DEPTH_MAX - (Level(m, s) - level)
        decreases level
      {
        ghost var k := Level(m, s) - level;
        UpStep(m, s, k);
        CallsSnoc(old(h), Exit, left, state);
        left := left + [state];
        ExitState();
        cnt := cnt - 1;
        assert cnt != 0;
      }
    }

    /** The body of the loop in hsm_enter_and_init: enter the states from below
        `until` down to the target of its initial transition. */
    method EnterTarget(path: array<State>, until: State)
      requires WellFormed(m) && m.depth <= HIERARCHY_DEPTH_MAX && path.Length == HIERARCHY_DEPTH_MAX
      requires IsState(m, state) && instance == state.instance
      requires until != state && until in Chain(m, state) && level == Level(m, until)
      modifies path, this`state, this`instance, this`level, this`h
      ensures state == old(state) == path[0] && instance == state.instance && level == Level(m, state)
      ensures h == old(h) + Calls(Entry, Reverse(Below(m, state, until)))
    {
      hide Reverse, Calls, Handlers;
      var from := state;
      assert NodeOk(m, from);
      ChainSuffix(m, from, until);
      var len := Build(path, from, until, None);
      PathIsChain(m, path[..], from, len);
      assert Below(m, from, until) == path[..len];
      Enter(path, len);
      SetState(path[0]);
    }

    /** hsm_enter_and_init: enter the first `len` states of the path to `dst`, then
        follow initial transitions. */
    method EnterAndInit(path: array<State>, len: nat, ghost dst: State)
      requires WellFormed(m) && m.depth <= HIERARCHY_DEPTH_MAX && path.Length == HIERARCHY_DEPTH_MAX
      requires IsState(m, dst) && level + len == Level(m, dst) && len <= path.Length && path[0] == dst
      requires forall i :: 0 <= i < len ==> path[i] == Up(m, dst, i)
      modifies path, this`state, this`instance, this`level, this`h
      ensures (state, h) == Settle(m, old(h) + Calls(Entry, Reverse(Chain(m, dst)[..len])), dst)
      ensures instance == state.instance && level == Level(m, state)
    {
      hide Reverse, Calls, Chain, Settle, Below;
      assert NodeOk(m, dst);
      PathIsChain(m, path[..], dst, len);
      Enter(path, len);
      SetState(path[0]);
      ghost var goal := Settle(m, h, dst);
      ghost var h0 := h;
      SettleUnfold(m, h, dst);
      var rc := Invoke(state.fn, Init);
      while rc == RC_TRAN
        invariant IsState(m, path[0]) && level == Level(m, path[0])
        invariant goal == Settle(m, h0, path[0]) && h == h0 + [Own(Init, path[0])]
        invariant var r := m.react(h0, Own(Init, path[0]));
          rc == RcOf(r) && (r.Tran? ==> state == r.to && instance == state.instance)
        decreases m.depth - level
      {
        var until := path[0];
        SettleUnfold(m, h0, until);
        LevelBelow(m, state, until);
        EnterTarget(path, until);
        h0 := h;
        assert NodeOk(m, path[0]);
        SettleUnfold(m, h, path[0]);
        rc := Invoke(state.fn, Init);
      }
      SettleUnfold(m, h0, path[0]);
      assert rc == RC_HANDLED || rc == RC_SUPER;
      SetState(path[0]);
    }

    /** The loop at the end of hsm_transition: exit states from `src` up until one
        lies on the path from `dst`, and return its place on the path. */
    method ExitToCommon(path: array<State>, len: nat, ghost src: State, ghost dst: State, ghost k: nat)
      returns (i: nat)
      requires WellFormed(m) && m.depth <= HIERARCHY_DEPTH_MAX - 2 && path.Length == HIERARCHY_DEPTH_MAX
      requires IsState(m, src) && IsState(m, dst) && state == src && instance == state.instance
      requires level == Level(m, src) && len == Level(m, dst) <= path.Length
      requires forall i :: 0 <= i < len ==> path[i] == Up(m, dst, i)
      requires PartsAt(m, src, dst, k)
      modifies this`state, this`instance, this`level, this`h
      ensures level == k && i == len - k
      ensures h == old(h) + Calls(Exit, Chain(m, src)[..Level(m, src) - k])
    {
      hide Chain, Handlers, Up, Calls;
      ghost var n := Level(m, src);
      UpStands(m, src, 0);
      UpZero(m, src, old(h));
      assert NodeOk(m, src);
      var cnt := HIERARCHY_DEPTH_MAX;
      while state.fn != TopFn
        invariant k <= level <= n && state == Up(m, src, n - level) && Standing(m, src, n - level)
        invariant level > 0 ==> NodeOk(m, state)
        invariant instance == state.instance
        invariant h == old(h) + Calls(Exit, Chain(m, src)[..n - level])
        invariant cnt == HIERARCHY_DEPTH_MAX - (n - level)
        decreases level
      {
        cnt := cnt - 1;
        assert cnt != 0;
        if level <= len {
          i := len - level;
          assert Meet(m, src, dst, level) <==> state == path[i];
          if state == path[i] {
            return;
          }
        }
        UpStep(m, src, n - level);
        ChainTake(m, src, n - level);
        CallsSnoc(old(h), Exit, Chain(m, src)[..n - level], Up(m, src, n - level));
        ExitState();
        assert level > 0 ==> NodeOk(m, state);
      }
      i := len;
    }

    /** hsm_transition of a state to itself */
    method TransitionToSelf(path: array<State>, dst: State)
      requires WellFormed(m) && m.depth <= HIERARCHY_DEPTH_MAX - 2 && path.Length == HIERARCHY_DEPTH_MAX
      requires IsState(m, dst) && state == dst && instance == state.instance && level == Level(m, dst)
      modifies path, this`state, this`instance, this`level, this`h
      ensures (state, h) == Settle(m, Crossing(m, old(h), dst, dst, Kept(m, dst, dst)), dst)
      ensures instance == state.instance && level == Level(m, state)
    {
      hide Settle, Crossing, Handlers, Polite, CommonFrom;
      assert NodeOk(m, dst);
      path[0] := dst;
      ExitState();
      SelfCrossing(m, old(h), dst);
      EnterAndInit(path, 1, dst);
    }

    /** hsm_transition once `src` is the active state. */
    method TransitionFrom(src: State, dst: State)
      requires WellFormed(m) && m.depth <= HIERARCHY_DEPTH_MAX - 2
      requires IsState(m, src) && state == src && instance == state.instance && level == Level(m, src)
      requires IsState(m, dst)
      modifies this`state, this`instance, this`level, this`h
      ensures (state, h) == Settle(m, Crossing(m, old(h), src, dst, Kept(m, src, dst)), dst)
      ensures instance == state.instance && level == Level(m, state)
    {
      hide Settle, Crossing, Handlers, Polite, CommonFrom, CommonLen, Reverse, Calls, Chain, Starts;
      assert NodeOk(m, src) && NodeOk(m, dst);
      var path := new State[HIERARCHY_DEPTH_MAX];
      if src == dst {
        TransitionToSelf(path, dst);
        return;
      }
      CommonParts(m, src, dst);
      UpNone(m, dst);
      var len := Build(path, dst, TOP, Some(src));
      if src in Chain(m, dst) {
        UpAbove(m, dst, src);
      }
      var last := path[len - 1];
      if last == src {
        // src is the least common ancestor
        SourceAbove(m, h, src, dst);
        EnterAndInit(path, len - 1, dst);
        return;
      }
      CrossingParts(m, h, src, dst, Kept(m, src, dst));
      len := ExitToCommon(path, len, src, dst, Kept(m, src, dst));
      EnterAndInit(path, len, dst);
    }

    /** hsm_transition */
    method Transition(src: State, dst: State)
      requires WellFormed(m) && m.depth <= HIERARCHY_DEPTH_MAX - 2
      requires IsState(m, state) && instance == state.instance && level == Level(m, state)
      requires src in Chain(m, state) && IsState(m, dst)
      modifies this`state, this`instance, this`level, this`h
      ensures (state, h) == Transit(m, old(h), old(state), src, dst)
      ensures instance == state.instance && level == Level(m, state)
    {
      ghost var active, h0 := state, h;
      ChainSuffix(m, active, src);
      assert NodeOk(m, active);
      if state != src {
        ExitUpTo(src);
        SetState(src);
      }
      assert h == h0 + Calls(Exit, Below(m, active, src));
      CrossingFrom(m, h0, active, src, dst, Kept(m, src, dst));
      TransitionFrom(src, dst);
    }

    /** The loop of hsm_dispatch, for machines of any depth. `ok` is false when the
        depth counter's AM_ASSERT fails. */
    method Propagate(id: nat) returns (ok: bool, rc: Rc, src: State)
      requires Tree(m) && IsState(m, state) && instance == state.instance
      modifies this`state, this`instance, this`h
      ensures ok <==> Asked(m, old(h), old(state), old(state), id) < HIERARCHY_DEPTH_MAX
      ensures ok ==>
        var (s, r, h') := Offer(m, old(h), old(state), old(state), id);
        && src == s && rc == RcOf(r) && h == h'
        && (r.Tran? || r.Redispatch? ==> state == r.to)
    {
      ghost var h0 := h;
      var active := state;
      var cnt := HIERARCHY_DEPTH_MAX;
      rc, src := RC_SUPER, state;
      while rc == RC_SUPER
        invariant 0 < cnt <= HIERARCHY_DEPTH_MAX
        invariant rc == RC_SUPER ==>
          && (state == TOP || IsState(m, state)) && instance == state.instance
          && Offer(m, h0, active, active, id) == Offer(m, h, active, state, id)
          && Asked(m, h0, active, active, id) == Asked(m, h, active, state, id) + HIERARCHY_DEPTH_MAX - cnt
        invariant rc != RC_SUPER ==>
          && Asked(m, h0, active, active, id) == HIERARCHY_DEPTH_MAX - cnt
          && var (s, r, h') := Offer(m, h0, active, active, id);
             src == s && rc == RcOf(r) && h == h' && (r.Tran? || r.Redispatch? ==> state == r.to)
        decreases cnt
      {
        src := state;
        if src != TOP {
          assert NodeOk(m, src);
        }
        // restore the active state; the handler still sees its own instance
        state := active;
        rc := Invoke(src.fn, User(id));
        cnt := cnt - 1;
        if cnt == 0 {
          return false, rc, src;
        }
      }
      ok := true;
    }

    /** hsm_dispatch: one pass of an event. The redispatch answer is returned. */
    method PassEvent(id: nat) returns (rc: Rc)
      requires WellFormed(m) && m.depth <= HIERARCHY_DEPTH_MAX - 2
      requires IsState(m, state) && instance == state.instance && level == Level(m, state)
      modifies this`state, this`instance, this`level, this`h
      ensures var (s, h', r) := Pass(m, old(h), old(state), id); state == s && h == h' && rc == RcOf(r)
      ensures instance == state.instance && level == Level(m, state)
    {
      var active := state;
      assert NodeOk(m, active);
      OfferTarget(m, h, active, active, id);
      var ok, src;
      ok, rc, src := Propagate(id);
      assert ok;
      if rc != RC_TRAN && rc != RC_TRAN_REDISPATCH {
        assert rc == RC_HANDLED || rc == RC_CORO_BUSY || rc == RC_CORO_DONE;
        SetState(active);
        return;
      }
      var dst := state;
      assert NodeOk(m, dst);
      assert dst.fn != TopFn;
      SetState(active);
      Transition(src, dst);
    }

    /** am_hsm_dispatch */
    method DispatchEvent(id: nat)
      requires AtRest() && RedispatchOnce(m, h, state, id)
      modifies this
      ensures AtRest() && (state, h) == Dispatch(m, old(h), old(state), id)
    {
      hide Pass, Open, Handlers, Polite, Chain;
      dispatchInProgress := true;
      var rc := PassEvent(id);
      if rc == RC_TRAN_REDISPATCH {
        rc := PassEvent(id);
        assert rc != RC_TRAN_REDISPATCH;
      }
      dispatchInProgress := false;
      DispatchBrackets(m, old(h), old(state), id);
    }

    /** am_hsm_init of a new machine with the initial pseudo-state. */
    constructor (m: Machine)
      requires WellFormed(m) && m.depth <= HIERARCHY_DEPTH_MAX - 2
      ensures this.m == m && h == [] && Ready()
    {
      this.m := m;
      state, instance, level := m.initial, m.initial.instance, 0;
      initCalled, startCalled, dispatchInProgress := true, false, false;
      h := [];
    }

    /** am_hsm_init of a machine that was stopped. */
    method InitAgain()
      requires Stopped()
      modifies this
      ensures h == old(h) && Ready()
    {
      SetState(m.initial);
      level := 0;
      initCalled, startCalled, dispatchInProgress := true, false, false;
    }

    /** am_hsm_start: the initial pseudo-state's handler is called once, with the
        start event, and its transition is taken. */
    method StartWith(id: nat)
      requires Ready()
      modifies this
      ensures AtRest() && (state, h) == Start(m, old(h), id)
    {
      hide Open, Settle, Reverse, Calls, Handlers;
      StartBrackets(m, h, id);
      ghost var first := First(m, h, id);
      var initial := state;
      assert StartsAt(m, m.react(h, Own(User(id), m.initial)));
      var rc := Invoke(state.fn, User(id));
      assert rc == RC_TRAN;
      var dst := state;
      assert dst == first && NodeOk(m, dst);
      SetState(initial);
      var path := new State[HIERARCHY_DEPTH_MAX];
      var len := Build(path, dst, TOP, None);
      assert Chain(m, dst)[..len] == Chain(m, dst);
      EnterAndInit(path, len, dst);
      startCalled := true;
    }

    /** am_hsm_deinit of a started machine. */
    method DeinitAll()
      requires AtRest()
      modifies this
      ensures h == Deinit(m, old(h), old(state)) && Stopped()
      ensures state == TOP && instance == 0
    {
      ghost var c := Chain(m, state);
      assert NodeOk(m, state) && c == c + [];
      OpenExits(m, h, c, []);
      ExitUpTo(TOP);
      SetState(TOP);
      initCalled, startCalled := false, false;
    }
  }

  lemma ChainTake(m: Machine, s: State, k: nat)
    requires Tree(m) && IsState(m, s) && k < Level(m, s)
    ensures Chain(m, s)[..k + 1] == Chain(m, s)[..k] + [Up(m, s, k)]
  {
  }

  /** One initial transition. */
  lemma SettleUnfold(m: Machine, h: History, s: State)
    requires WellFormed(m) && IsState(m, s)
    ensures var r, h1 := m.react(h, Own(Init, s)), h + [Own(Init, s)];
      && (r.Handled? || r.Super? || r.Tran?)
      && (r.Tran? ==> IsState(m, r.to) && r.to != s && s in Chain(m, r.to) &&
                      Settle(m, h, s) == Settle(m, h1 + Calls(Entry, Reverse(Below(m, r.to, s))), r.to))
      && (!r.Tran? ==> Settle(m, h, s) == (s, h1))
  {
    assert Polite(m, h, s);
    if m.react(h, Own(Init, s)).Tran? {
      LevelBelow(m, m.react(h, Own(Init, s)).to, s);
    }
  }

  lemma UpIn(m: Machine, s: State, k: nat)
    requires Tree(m) && IsState(m, s) && k < Level(m, s)
    ensures Up(m, s, k) in Chain(m, s)
  {
  }

  lemma EntryAnswer(m: Machine, h: History, s: State)
    requires WellFormed(m) && IsState(m, s)
    ensures s.fn != TopFn
    ensures var r := m.react(h, Own(Entry, s)); r.Handled? || r.Super?
  {
    assert NodeOk(m, s) && Polite(m, h, s);
  }

  lemma UpZero(m: Machine, s: State, h: History)
    requires Tree(m) && IsState(m, s)
    ensures Up(m, s, 0) == s && h + Calls(Exit, Chain(m, s)[..0]) == h
  {
    assert NodeOk(m, s);
    assert Chain(m, s)[0] == s;
  }

  lemma CallsNone(h: History, e: Event)
    ensures h + Calls(e, []) == h
  {
  }

  lemma CallsSnoc(h: History, e: Event, a: seq<State>, s: State)
    ensures h + Calls(e, a + [s]) == h + Calls(e, a) + [Own(e, s)]
  {
    assert Calls(e, a + [s]) == Calls(e, a) + [Own(e, s)];
  }

  lemma CrossingParts(m: Machine, h: History, src: State, dst: State, k: nat)
    requires Tree(m) && IsState(m, src) && IsState(m, dst) && k <= Level(m, src) && k <= Level(m, dst)
    ensures Crossing(m, h, src, dst, k) ==
      h + Calls(Exit, Chain(m, src)[..Level(m, src) - k]) + Calls(Entry, Reverse(Chain(m, dst)[..Level(m, dst) - k]))
  {
  }

  lemma SelfCrossing(m: Machine, h: History, s: State)
    requires Tree(m) && IsState(m, s)
    ensures Kept(m, s, s) + 1 == Level(m, s)
    ensures Crossing(m, h, s, s, Kept(m, s, s)) ==
      h + [Own(Exit, s)] + Calls(Entry, Reverse(Chain(m, s)[..1]))
  {
    assert NodeOk(m, s);
    assert Chain(m, s)[..1] == [s] && Calls(Exit, [s]) == [Own(Exit, s)];
  }

  lemma SourceAbove(m: Machine, h: History, src: State, dst: State)
    requires Tree(m) && IsState(m, src) && IsState(m, dst) && src != dst && src in Chain(m, dst)
    ensures Level(m, src) <= Level(m, dst)
    ensures Crossing(m, h, src, dst, Kept(m, src, dst)) ==
      h + Calls(Entry, Reverse(Chain(m, dst)[..Level(m, dst) - Level(m, src)]))
  {
    hide Calls, Reverse, Chain, Tree;
    ChainIndex(m, dst, src);
    CommonFromMaximal(Chain(m, src), Chain(m, dst), 0, Level(m, src));
    assert Kept(m, src, dst) == Level(m, src);
    CallsNone(h, Exit);
  }

  /** Leaving the active state for a target is leaving it for `src` first. */
  lemma CrossingFrom(m: Machine, h: History, active: State, src: State, dst: State, k: nat)
    requires Tree(m) && IsState(m, active) && IsState(m, dst) && src in Chain(m, active)
    requires IsState(m, src) && k <= Level(m, src) <= Level(m, active) && k <= Level(m, dst)
    ensures Crossing(m, h + Calls(Exit, Below(m, active, src)), src, dst, k) == Crossing(m, h, active, dst, k)
  {
    hide Calls, Reverse, Chain, Tree, Level;
    ChainIndex(m, active, src);
    CallsJoin(h, Exit, Chain(m, active), Chain(m, src), Level(m, src) - k);
  }

  lemma CallsJoin(h: History, e: Event, a: seq<State>, c: seq<State>, n: nat)
    requires n <= |c| <= |a| && a[|a| - |c|..] == c
    ensures h + Calls(e, a[..|a| - |c|]) + Calls(e, c[..n]) == h + Calls(e, a[..|a| - |c| + n])
  {
    var x := |a| - |c|;
    forall i | 0 <= i < n
      ensures a[x + i] == c[i]
    {
      assert a[x..][i] == a[x + i];
    }
    assert Calls(e, a[..x]) + Calls(e, c[..n]) == Calls(e, a[..x + n]);
  }
}
