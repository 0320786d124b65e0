/** What a dispatch does, told by the handlers' answers alone. */
module HsmDispatch {
  import opened HsmSpec
  import opened HsmTheorems

  // ------------------------------------------------------------------- who answers

  /** The history when the k-th state of the active chain is about to be asked. */
  ghost function Before(m: Machine, h: History, active: State, id: nat, k: nat): History
    requires Tree(m) && IsState(m, active) && k <= Level(m, active)
  {
    h + Offers(id, active, Chain(m, active)[..k])
  }

  /** What that state's handler answers then. */
  ghost function Answer(m: Machine, h: History, active: State, id: nat, k: nat): Reaction
    requires Tree(m) && IsState(m, active) && k < Level(m, active)
  {
    m.react(Before(m, h, active, id, k), Call(User(id), Chain(m, active)[k], active))
  }

  /** The first k states of the active chain answer Super, one after the other. */
  ghost predicate Climbs(m: Machine, h: History, active: State, id: nat, k: nat)
    requires Tree(m) && IsState(m, active)
  {
    k <= Level(m, active) && forall i :: 0 <= i < k ==> Answer(m, h, active, id, i).Super?
  }

  /** The k-th state is the first that does not, or all do and k is past the last. */
  ghost predicate Ends(m: Machine, h: History, active: State, id: nat, k: nat)
    requires Tree(m) && IsState(m, active)
  {
    Climbs(m, h, active, id, k) && (k < Level(m, active) ==> !Answer(m, h, active, id, k).Super?)
  }

  // ------------------------------------------------------------- where a change leads

  /** The states that stay active when `src` asks for a change to `to`: the outermost
      `kept` of both chains, which are what the chains share, except that a state
      that is its own target is left. */
  ghost predicate Stays(m: Machine, src: State, to: State, kept: nat)
    requires Tree(m) && IsState(m, src) && IsState(m, to)
  {
    var c, d := Chain(m, src), Chain(m, to);
    && kept <= |c| && kept <= |d| && c[|c| - kept..] == d[|d| - kept..]
    && if src == to then kept == |c| - 1 else forall x :: x in c[|c| - kept..] <==> x in c && x in d
  }

  /** Initial transitions lead along a path from its first state, which has just been
      entered: each state answers its init call with a transition to the next, a
      substate of it whose chain is then entered, and the last one with none. */
  ghost predicate Descends(m: Machine, h: History, path: seq<State>, h': History)
    requires Tree(m)
    decreases |path|
  {
    && path != [] && IsState(m, path[0])
    && var r, h1 := m.react(h, Own(Init, path[0])), h + [Own(Init, path[0])];
       if |path| == 1 then !r.Tran? && h' == h1
       else
         && r == Tran(path[1]) && IsState(m, path[1]) && path[0] in Chain(m, path[1])
         && var d, n := Chain(m, path[1]), Level(m, path[1]) - Level(m, path[0]);
            0 < n <= |d| && Descends(m, h1 + Calls(Entry, Reverse(d[..n])), path[1..], h')
  }

  /** The calls of a change from `active` to `to` that leaves the outermost `kept`
      states alone: exits innermost first, entries outermost first. */
  ghost function Crossed(m: Machine, h: History, active: State, to: State, kept: nat): History
    requires Tree(m) && IsState(m, active) && IsState(m, to)
    requires kept <= Level(m, active) && kept <= Level(m, to)
  {
    var a, d := Chain(m, active), Chain(m, to);
    h + Calls(Exit, a[..|a| - kept]) + Calls(Entry, Reverse(d[..|d| - kept]))
  }

  /** A change to `to` that the handler of `src` asks for while `active` is active ends
      in s' with history h'. */
  ghost predicate Goes(m: Machine, h: History, active: State, src: State, to: State, s': State, h': History)
    requires Tree(m) && IsState(m, active) && IsState(m, src) && IsState(m, to)
  {
    exists kept: nat, path: seq<State> ::
      && Stays(m, src, to, kept) && kept <= Level(m, active)
      && path != [] && path[0] == to && path[|path| - 1] == s'
      && Descends(m, Crossed(m, h, active, to, kept), path, h')
  }

  lemma DescendsOn(m: Machine, h: History, s: State, rest: seq<State>, h': History)
    requires Tree(m) && IsState(m, s) && rest != [] && IsState(m, rest[0])
    requires m.react(h, Own(Init, s)) == Tran(rest[0]) && s != rest[0] && s in Chain(m, rest[0])
    requires Descends(m, h + [Own(Init, s)] + Calls(Entry, Reverse(Below(m, rest[0], s))), rest, h')
    ensures Descends(m, h, [s] + rest, h')
  {
    LevelBelow(m, rest[0], s);
    assert ([s] + rest)[1..] == rest;
  }

  lemma {:induction false} SettleDescends(m: Machine, h: History, s: State) returns (path: seq<State>)
    requires WellFormed(m) && IsState(m, s)
    ensures path != [] && path[0] == s && path[|path| - 1] == Settle(m, h, s).0
    ensures Descends(m, h, path, Settle(m, h, s).1)
    decreases m.depth - Level(m, s)
  {
    hide Reverse, Calls, Below, Starts;
    assert Polite(m, h, s);
    var r, h1 := m.react(h, Own(Init, s)), h + [Own(Init, s)];
    if r.Tran? {
      LevelBelow(m, r.to, s);
      var rest := SettleDescends(m, h1 + Calls(Entry, Reverse(Below(m, r.to, s))), r.to);
      path := [s] + rest;
      DescendsOn(m, h, s, rest, Settle(m, h, s).1);
    } else {
      path := [s];
    }
  }

  /** The path's last state is below its first, or the same. */
  lemma {:induction false} DescendsBelow(m: Machine, h: History, path: seq<State>, h': History)
    requires Tree(m) && Descends(m, h, path, h')
    ensures var s' := path[|path| - 1]; IsState(m, s') && path[0] in Chain(m, s')
    decreases |path|
  {
    assert NodeOk(m, path[0]);
    if |path| > 1 {
      var n := Level(m, path[1]) - Level(m, path[0]);
      var h1 := h + [Own(Init, path[0])] + Calls(Entry, Reverse(Chain(m, path[1])[..n]));
      DescendsBelow(m, h1, path[1..], h');
      var s' := path[|path| - 1];
      ChainSuffix(m, s', path[1]);
    }
  }

  lemma KeptStays(m: Machine, active: State, src: State, to: State)
    requires Tree(m) && IsState(m, active) && IsState(m, to) && src in Chain(m, active)
    ensures IsState(m, src) && Stays(m, src, to, Kept(m, src, to)) && Kept(m, src, to) <= Level(m, active)
  {
    KeptSame(m, active, src, to);
    var c, d, kept := Chain(m, src), Chain(m, to), Kept(m, src, to);
    if src != to {
      CommonSuffix(c, d);
      forall x
        ensures x in c[|c| - kept..] <==> x in c && x in d
      {
        KeptIsShared(m, src, to, x);
      }
    }
  }

  lemma TransitGoes(m: Machine, h: History, active: State, src: State, to: State)
    requires WellFormed(m) && IsState(m, active) && IsState(m, to) && src in Chain(m, active)
    ensures IsState(m, src) && var (s', h') := Transit(m, h, active, src, to); Goes(m, h, active, src, to, s', h')
  {
    KeptStays(m, active, src, to);
    var kept := Kept(m, src, to);
    var path := SettleDescends(m, Crossing(m, h, active, to, kept), to);
    assert Crossing(m, h, active, to, kept) == Crossed(m, h, active, to, kept);
  }

  // -------------------------------------------------------------------- a dispatch

  /** Some state is the first not to answer Super, or none is. */
  lemma SomeoneEnds(m: Machine, h: History, active: State, id: nat) returns (k: nat)
    requires Tree(m) && IsState(m, active)
    ensures Ends(m, h, active, id, k) && k <= Level(m, active)
  {
    k := 0;
    while k < Level(m, active) && Answer(m, h, active, id, k).Super?
      invariant Climbs(m, h, active, id, k)
    {
      k := k + 1;
    }
  }

  /** What the pass up the chain comes to. */
  lemma {:induction false} OfferEnds(m: Machine, h: History, active: State, id: nat, k: nat, j: nat)
    requires Tree(m) && IsState(m, active) && Ends(m, h, active, id, k) && j <= k
    ensures var s := if j < Level(m, active) then Chain(m, active)[j] else TOP;
      && (s == TOP || IsState(m, s))
      && Offer(m, Before(m, h, active, id, j), active, s, id) ==
           if k < Level(m, active)
           then (Chain(m, active)[k], Answer(m, h, active, id, k), Before(m, h, active, id, k + 1))
           else (TOP, Handled, Before(m, h, active, id, k))
    decreases k - j
  {
    var c := Chain(m, active);
    if j < |c| {
      ChainLinks(m, active, j);
      assert c[j] != TOP by { assert NodeOk(m, c[j]); }
      assert c[..j + 1] == c[..j] + [c[j]];
      assert Before(m, h, active, id, j + 1) == Before(m, h, active, id, j) + [Call(User(id), c[j], active)];
      if j < k {
        assert Answer(m, h, active, id, j).Super?;
        OfferEnds(m, h, active, id, k, j + 1);
      }
    }
  }

  /** What one pass of an event comes to when the k-th state ends it. */
  lemma PassEnds(m: Machine, h: History, active: State, id: nat, k: nat)
    requires WellFormed(m) && IsState(m, active) && Ends(m, h, active, id, k)
    ensures var (s', h', r) := Pass(m, h, active, id);
      if k == Level(m, active) then s' == active && h' == Before(m, h, active, id, k) && r == Handled
      else
        && r == Answer(m, h, active, id, k)
        && if r.Tran? || r.Redispatch?
           then IsState(m, r.to) && Goes(m, Before(m, h, active, id, k + 1), active, Chain(m, active)[k], r.to, s', h')
           else s' == active && h' == Before(m, h, active, id, k + 1)
  {
    hide Goes, Handlers, Starts;
    assert NodeOk(m, active) && Before(m, h, active, id, 0) == h;
    OfferEnds(m, h, active, id, k, 0);
    OfferTarget(m, h, active, active, id);
    if k < Level(m, active) {
      var r := Answer(m, h, active, id, k);
      if r.Tran? || r.Redispatch? {
        TransitGoes(m, Before(m, h, active, id, k + 1), active, Chain(m, active)[k], r.to);
      }
    }
  }

  /** An event that is ignored, or ends with an answer that asks for no change, leaves
      the active state alone and calls no other handler. */
  lemma DispatchStays(m: Machine, h: History, active: State, id: nat, k: nat)
    requires WellFormed(m) && IsState(m, active) && Ends(m, h, active, id, k)
    requires k < Level(m, active) ==> !Answer(m, h, active, id, k).Tran? && !Answer(m, h, active, id, k).Redispatch?
    ensures Dispatch(m, h, active, id) ==
      (active, Before(m, h, active, id, if k < Level(m, active) then k + 1 else k))
  {
    hide Goes;
    PassEnds(m, h, active, id, k);
  }

  /** An event whose last answer is a transition: after the offers, the states that do
      not stay are exited and those above the target entered, and initial
      transitions lead on to a state in or below the target. */
  lemma DispatchTran(m: Machine, h: History, active: State, id: nat, k: nat, to: State)
    requires WellFormed(m) && IsState(m, active) && Ends(m, h, active, id, k)
    requires k < Level(m, active) && Answer(m, h, active, id, k) == Tran(to)
    ensures IsState(m, to)
    ensures var (s', h') := Dispatch(m, h, active, id);
      && Goes(m, Before(m, h, active, id, k + 1), active, Chain(m, active)[k], to, s', h')
      && to in Chain(m, s')
  {
    hide Goes;
    PassEnds(m, h, active, id, k);
    var (s', h') := Dispatch(m, h, active, id);
    GoesBelow(m, Before(m, h, active, id, k + 1), active, Chain(m, active)[k], to, s', h');
  }

  lemma GoesBelow(m: Machine, h: History, active: State, src: State, to: State, s': State, h': History)
    requires Tree(m) && IsState(m, active) && IsState(m, src) && IsState(m, to)
    requires Goes(m, h, active, src, to, s', h')
    ensures IsState(m, s') && to in Chain(m, s')
  {
    var kept: nat, path: seq<State> :|
      && Stays(m, src, to, kept) && kept <= Level(m, active)
      && path != [] && path[0] == to && path[|path| - 1] == s'
      && Descends(m, Crossed(m, h, active, to, kept), path, h');
    DescendsBelow(m, Crossed(m, h, active, to, kept), path, h');
  }

  /** An event whose last answer is a redispatch: the same change, and then the event
      is dispatched again where it led. There the j-th state ends it, and the
      source's assertion is that it does not ask once more. */
  lemma DispatchAgain(m: Machine, h: History, active: State, id: nat, k: nat, to: State)
    returns (s1: State, h1: History, j: nat)
    requires WellFormed(m) && IsState(m, active) && Ends(m, h, active, id, k)
    requires k < Level(m, active) && Answer(m, h, active, id, k) == Redispatch(to)
    ensures IsState(m, to) && IsState(m, s1) && to in Chain(m, s1)
    ensures Goes(m, Before(m, h, active, id, k + 1), active, Chain(m, active)[k], to, s1, h1)
    ensures Ends(m, h1, s1, id, j)
    ensures RedispatchOnce(m, h, active, id) <==> (j < Level(m, s1) ==> !Answer(m, h1, s1, id, j).Redispatch?)
    ensures RedispatchOnce(m, h, active, id) ==> Dispatch(m, h, active, id) == Dispatch(m, h1, s1, id)
  {
    hide Goes, Ends, Pass, Handlers, Starts, Chain, Before, Answer;
    PassEnds(m, h, active, id, k);
    var p := Pass(m, h, active, id);
    s1, h1 := p.0, p.1;
    GoesBelow(m, Before(m, h, active, id, k + 1), active, Chain(m, active)[k], to, s1, h1);
    j := SomeoneEnds(m, h1, s1, id);
    PassEnds(m, h1, s1, id, j);
  }

  /** Initial transitions lead from s, just entered, to s' with history h'. */
  ghost predicate Lands(m: Machine, h: History, s: State, s': State, h': History)
    requires Tree(m)
  {
    exists path :: path != [] && path[0] == s && path[|path| - 1] == s' && Descends(m, h, path, h')
  }

  /** A start calls the initial pseudo-state once, enters the target of its transition
      from the outermost state in, and follows initial transitions. */
  lemma StartGoes(m: Machine, h: History, id: nat, to: State)
    requires WellFormed(m) && m.react(h, Own(User(id), m.initial)) == Tran(to)
    ensures IsState(m, to)
    ensures var (s', h') := Start(m, h, id);
      && Lands(m, h + [Own(User(id), m.initial)] + Calls(Entry, Reverse(Chain(m, to))), to, s', h')
      && to in Chain(m, s')
  {
    assert StartsAt(m, m.react(h, Own(User(id), m.initial)));
    var h1 := h + [Own(User(id), m.initial)] + Calls(Entry, Reverse(Chain(m, to)));
    var path := SettleDescends(m, h1, to);
    DescendsBelow(m, h1, path, Start(m, h, id).1);
  }
}
