/** What the one-size allocator of libs/onesize does, on block numbers. */
module PoolSpec {
  import opened Options
  import opened SList

  /** `bump` blocks have ever been handed out; `fl` lists the freed ones among them. */
  datatype Pool = Pool(total: nat, bump: nat, nfree: int, nfreeMin: int, fl: seq<nat>)
  {
    predicate Live(b: nat) { b < bump && b !in fl }
    ghost function LiveSet(): set<nat> { set b: nat | b < bump && Live(b) }
  }

  function Min(a: int, b: int): int { if a < b then a else b }

  function Init(total: nat): Pool { Pool(total, 0, total, total, []) }

  /** am_onesize_allocate_x: the head of the free list, else the next fresh block. */
  function Allocate(p: Pool, margin: nat): (Pool, Option<nat>) {
    if p.nfree <= margin then (p, None)
    else
      var p' := p.(nfree := p.nfree - 1, nfreeMin := Min(p.nfreeMin, p.nfree - 1));
      if p.fl != [] then (p'.(fl := p.fl[1..]), Some(p.fl[0]))
      else (p'.(bump := p.bump + 1), Some(p.bump))
  }

  function Free(p: Pool, b: nat): Pool { p.(nfree := p.nfree + 1, fl := [b] + p.fl) }

  function FreeAll(p: Pool): Pool { p.(fl := [], bump := 0, nfree := p.total) }

  /** The free list and the live blocks split the blocks handed out, and nfree
      counts the free list and the blocks never handed out. */
  ghost predicate Ok(p: Pool) {
    && NoDup(p.fl) && (forall b :: b in p.fl ==> b < p.bump)
    && p.bump <= p.total
    && p.nfree == |p.fl| + p.total - p.bump
    && p.nfreeMin <= p.nfree
  }

  ghost function Elements(s: seq<nat>): set<nat> { set x | x in s }

  lemma {:induction false} ElementsCount(s: seq<nat>)
    requires NoDup(s)
    ensures |Elements(s)| == |s|
  {
    if s == [] {
      assert Elements(s) == {};
    } else {
      ElementsCount(s[1..]);
      HeadTail(s);
      assert Elements(s) == Elements(s[1..]) + {s[0]};
    }
  }

  lemma HeadTail<T>(s: seq<T>)
    requires s != []
    ensures forall x :: x in s <==> x == s[0] || x in s[1..]
    ensures NoDup(s) ==> NoDup(s[1..]) && s[0] !in s[1..]
  {
    assert s == [s[0]] + s[1..];
  }

  ghost function UpTo(n: nat): (r: set<nat>)
    ensures forall b: nat :: b in r <==> b < n
    ensures |r| == n
  {
    if n == 0 then {} else UpTo(n - 1) + {n - 1}
  }

  lemma DisjointCount<T>(a: set<T>, b: set<T>)
    requires a !! b
    ensures |a + b| == |a| + |b|
  {
  }

  /** Free and live blocks always add up to the pool. */
  lemma FreePlusLive(p: Pool)
    requires Ok(p)
    ensures p.nfree + |p.LiveSet()| == p.total
  {
    ElementsCount(p.fl);
    DisjointCount(Elements(p.fl), p.LiveSet());
    assert UpTo(p.bump) == Elements(p.fl) + p.LiveSet();
  }

  /** An allocation succeeds exactly when more than `margin` blocks are free, and
      then hands out a block of the pool that was not live and nothing else
      changes; the bump index never runs out. */
  lemma AllocateOk(p: Pool, margin: nat)
    requires Ok(p)
    ensures var (p', r) := Allocate(p, margin);
      && Ok(p') && p'.total == p.total
      && (r.Some? <==> p.nfree > margin)
      && (r.None? ==> p' == p)
      && (r.Some? ==> r.value < p.total && !p.Live(r.value) && p'.LiveSet() == p.LiveSet() + {r.value})
      && (r.Some? ==> p'.nfree == p.nfree - 1)
      && (r.Some? && p.fl == [] ==> p.bump < p.total)
  {
    if p.nfree > margin {
      var (p', r) := Allocate(p, margin);
      if p.fl != [] {
        HeadTail(p.fl);
      }
      assert p'.LiveSet() == p.LiveSet() + {r.value};
    }
  }

  /** Freeing a live block makes it free and nothing else; neither assertion of
      am_onesize_free can fail. */
  lemma FreeOk(p: Pool, b: nat)
    requires Ok(p) && p.Live(b)
    ensures Ok(Free(p, b)) && Free(p, b).LiveSet() == p.LiveSet() - {b}
    ensures p.nfree < p.total && (p.fl != [] ==> p.fl[0] != b)
  {
    FreePlusLive(p);
    assert b in p.LiveSet();
    assert forall x :: x in Free(p, b).fl <==> x == b || x in p.fl;
  }

  lemma FreeAllOk(p: Pool)
    requires Ok(p)
    ensures Ok(FreeAll(p)) && FreeAll(p).LiveSet() == {}
  {
    FreePlusLive(p);
  }

  /** A block just freed is the next one handed out. */
  lemma FreeThenAllocate(p: Pool, b: nat, margin: nat)
    requires Ok(p) && p.Live(b) && p.nfree >= margin
    ensures Allocate(Free(p, b), margin) == (p, Some(b))
  {
    assert Free(p, b).fl[1..] == p.fl;
  }

  // ------------------------------------------------------------------------ runs

  datatype Action = Take(margin: nat) | Give(block: nat) | GiveAll

  function Step(p: Pool, a: Action): Pool {
    match a
    case Take(margin) => Allocate(p, margin).0
    case Give(b) => if p.Live(b) then Free(p, b) else p
    case GiveAll => FreeAll(p)
  }

  function Run(total: nat, acts: seq<Action>): Pool {
    if acts == [] then Init(total) else Step(Run(total, acts[..|acts| - 1]), acts[|acts| - 1])
  }

  lemma StepOk(p: Pool, a: Action)
    requires Ok(p)
    ensures var p' := Step(p, a); Ok(p') && p'.total == p.total && p'.nfreeMin == Min(p.nfreeMin, p'.nfree)
  {
    match a {
      case Take(margin) => AllocateOk(p, margin);
      case Give(b) => if p.Live(b) { FreeOk(p, b); }
      case GiveAll => FreeAllOk(p);
    }
  }

  lemma InitOk(total: nat)
    ensures Ok(Init(total))
  {
  }

  /** In every run in which only live blocks are freed, free and live blocks add
      up, and nfree_min is a number of free blocks that was reached and never
      undercut. */
  lemma {:induction false} RunOk(total: nat, acts: seq<Action>)
    ensures var p := Run(total, acts);
      && Ok(p) && p.total == total && p.nfree + |p.LiveSet()| == total
      && (forall k :: 0 <= k <= |acts| ==> p.nfreeMin <= Run(total, acts[..k]).nfree)
      && (exists k :: 0 <= k <= |acts| && p.nfreeMin == Run(total, acts[..k]).nfree)
  {
    hide Ok, Step;
    var p := Run(total, acts);
    if acts == [] {
      assert acts[..0] == acts;
      InitOk(total);
    } else {
      var n := |acts| - 1;
      var q := Run(total, acts[..n]);
      RunOk(total, acts[..n]);
      StepOk(q, acts[n]);
      assert acts[..n + 1] == acts;
      forall k | 0 <= k <= |acts|
        ensures p.nfreeMin <= Run(total, acts[..k]).nfree
      {
        if k <= n {
          assert acts[..n][..k] == acts[..k];
        }
      }
      var k :| 0 <= k <= n && q.nfreeMin == Run(total, acts[..n][..k]).nfree;
      assert acts[..n][..k] == acts[..k];
      assert p.nfreeMin == Run(total, acts[..k]).nfree || p.nfreeMin == Run(total, acts[..n + 1]).nfree;
    }
    FreePlusLive(p);
  }

  // ------------------------------------------------------------------- iteration

  /** The live blocks below n in address order. */
  function LiveBelow(p: Pool, n: nat): (s: seq<nat>)
    ensures forall b: nat :: b in s <==> b < n && p.Live(b)
    ensures forall i, j :: 0 <= i < j < |s| ==> s[i] < s[j]
  {
    if n == 0 then []
    else
      var rest := LiveBelow(p, n - 1);
      assert forall i :: 0 <= i < |rest| ==> rest[i] in rest;
      if p.Live(n - 1) then rest + [n - 1] else rest
  }

  /** The blocks am_onesize_iterate_over_allocated_unsafe visits for `num`. */
  function Visited(p: Pool, num: int): seq<nat>
    requires num != 0
  {
    var live := LiveBelow(p, p.bump);
    if num < 0 || num > |live| then live else live[..num]
  }

  lemma LiveBelowCount(p: Pool)
    requires Ok(p)
    ensures |LiveBelow(p, p.bump)| == p.total - p.nfree
  {
    var s := LiveBelow(p, p.bump);
    ElementsCount(s);
    assert Elements(s) == p.LiveSet();
    FreePlusLive(p);
  }

  lemma {:induction false} LiveBelowPrefix(p: Pool, i: nat, n: nat)
    requires i <= n
    ensures LiveBelow(p, i) <= LiveBelow(p, n)
  {
    if i < n {
      LiveBelowPrefix(p, i, n - 1);
    }
  }

  lemma {:induction false} LiveBelowLength(p: Pool, n: nat)
    ensures |LiveBelow(p, n)| <= n
  {
    if n > 0 {
      LiveBelowLength(p, n - 1);
    }
  }

  /** Where the loop may stop: enough visited, or no block left. */
  lemma VisitedWhen(p: Pool, i: nat, num: int)
    requires num != 0 && i <= p.bump
    requires var n := Min(if num < 0 then p.bump else num, p.bump);
      |LiveBelow(p, i)| <= n && (i == p.bump || |LiveBelow(p, i)| == n)
    ensures Visited(p, num) == LiveBelow(p, i)
  {
    LiveBelowPrefix(p, i, p.bump);
    LiveBelowLength(p, i);
  }
}
