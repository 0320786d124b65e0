/** The event allocator of libs/event: pools in order of block size, and the
    reference counters of the events in them. */
module EventAlloc {
  import opened EventSpec
  import opened Onesize
  import opened Options
  import opened PoolSpec
  import opened SList

  /** The smallest of increasing sizes that is big enough. */
  predicate BestFit(sizes: seq<nat>, size: nat, i: nat) {
    i < |sizes| && size <= sizes[i] && forall j :: 0 <= j < i ==> sizes[j] < size
  }

  class Alloc {
    /** AM_EVENT_POOLS_NUM_MAX */
    const poolsNumMax: nat
    var pools: seq<Allocator>
    /** ref_counter of every event handed out */
    var refs: map<Event, nat>

    ghost predicate Valid()
      reads this, pools
    {
      && NoDup(pools) && |pools| <= poolsNumMax && (forall i :: 0 <= i < |pools| ==> pools[i].Valid())
      && forall i, j :: 0 <= i < j < |pools| ==> pools[i].blockSize < pools[j].blockSize
    }

    /** The allocator's part of the state. */
    ghost function Abs(): State
      reads this, pools
    {
      State(seq(|pools|, i requires 0 <= i < |pools| reads this, pools => pools[i].Abs()), refs, [], multiset{})
    }

    ghost function Sizes(): seq<nat>
      reads this, pools
    {
      seq(|pools|, i requires 0 <= i < |pools| reads this, pools => pools[i].blockSize)
    }

    constructor (poolsNumMax: nat)
      ensures Valid() && pools == [] && refs == map[] && this.poolsNumMax == poolsNumMax
    {
      this.poolsNumMax, pools, refs := poolsNumMax, [], map[];
    }

    /** am_event_alloc_add_pool */
    method AddPool(ptr: nat, size: nat, blockSize: nat, alignment: nat, word: nat)
      requires Valid() && |pools| < poolsNumMax && size > 0 && blockSize > 0 && word > 0
      requires ptr % Max(alignment, word) == 0
      requires size >= AlignSize(Max(blockSize, word), Max(alignment, word))
      requires |pools| > 0 ==> blockSize > pools[|pools| - 1].blockSize
      modifies this
      ensures Valid() && |pools| == |old(pools)| + 1 && pools[..|pools| - 1] == old(pools)
      ensures refs == old(refs)
      ensures var pool := pools[|pools| - 1];
        && pool.poolBeg == ptr && pool.blockSize == AlignSize(Max(blockSize, word), Max(alignment, word))
        && pool.Abs() == PoolSpec.Init(pool.nTotal)
    {
      hide AlignSize;
      var pool := new Allocator(ptr, size, blockSize, alignment, word);
      pools := pools + [pool];
    }

    /** The binary search of am_event_allocate_x: the smallest pool whose blocks are
        big enough. */
    method FindPool(size: nat) returns (left: nat)
      requires Valid() && pools != [] && 0 < size <= pools[|pools| - 1].blockSize
      ensures BestFit(Sizes(), size, left)
    {
      left := 0;
      var right := |pools| - 1;
      while left < right
        invariant 0 <= left <= right < |pools| && size <= pools[right].blockSize
        invariant forall j :: 0 <= j < left ==> pools[j].blockSize < size
        decreases right - left
      {
        var mid := (left + right) / 2;
        var onesize := pools[mid].blockSize;
        if size > onesize {
          left := mid + 1;
        } else if size < onesize {
          right := mid;
        } else {
          left := mid;
          break;
        }
      }
    }

    method TakeFrom(pool: nat, margin: nat) returns (block: Option<nat>)
      requires Valid() && pool < |pools|
      modifies pools[pool]
      ensures Valid()
      ensures (Abs().pools[pool], block) == PoolSpec.Allocate(old(Abs()).pools[pool], margin)
      ensures pool < |old(Abs()).pools| && Abs() == old(Abs()).(pools := old(Abs()).pools[pool := Abs().pools[pool]])
      ensures Sizes() == old(Sizes())
    {
      var ptr := pools[pool].AllocateX(margin);
      if ptr.None? {
        return None;
      }
      ghost var b := PoolSpec.Allocate(old(pools[pool].Abs()), margin).1.value;
      pools[pool].BlockAtAddr(b);
      block := Some(pools[pool].BlockAt(ptr.value));
    }

    method GiveBack(pool: nat, block: nat)
      requires Valid() && pool < |pools| && Abs().pools[pool].Live(block)
      modifies pools[pool]
      ensures Valid() && Abs() == old(Abs()).(pools := old(Abs()).pools[pool := Free(old(Abs()).pools[pool], block)])
    {
      pools[pool].Free(pools[pool].Addr(block), block);
    }

    /** am_event_allocate_x */
    method AllocateX(size: nat, margin: nat) returns (event: Option<Event>, ghost pool: nat)
      requires Valid() && pools != [] && 0 < size <= pools[|pools| - 1].blockSize
      modifies this, pools
      ensures Valid() && pools == old(pools)
      ensures BestFit(Sizes(), size, pool)
      ensures (Abs(), event) == AllocateEvent(old(Abs()), pool, margin)
    {
      var left := FindPool(size);
      pool := left;
      var block := TakeFrom(left, margin);
      assert block.None? ==> Abs().pools[pool] == old(Abs()).pools[pool];
      hide Valid, Abs, Sizes, BestFit;
      if block.None? {
        assert Abs() == old(Abs());
        return None, pool;
      }
      SetRef(Block(left, block.value), 0);
      event := Some(Block(left, block.value));
    }

    method SetRef(e: Event, n: nat)
      requires Valid()
      modifies `refs
      ensures Valid() && Abs() == old(Abs()).(refs := old(Abs()).refs[e := n]) && Sizes() == old(Sizes())
    {
      refs := refs[e := n];
    }

    /** am_event_free_unsafe */
    method FreeUnsafe(e: Event)
      requires Valid() && Abs().Usable(e)
      modifies this, pools
      ensures Valid() && pools == old(pools) && Abs() == FreeRef(old(Abs()), e)
    {
      if e.Static? {
        return;
      }
      if e in refs && refs[e] > 1 {
        SetRef(e, refs[e] - 1);
        return;
      }
      GiveBack(e.pool, e.index);
    }

    /** am_event_inc_ref_cnt, without the hold its caller then has */
    method IncRefCnt(e: Event)
      requires Valid() && Abs().Usable(e) && Abs().Refs(e) < REF_COUNTER_MAX
      modifies `refs
      ensures Valid() && Abs() == IncRef(old(Abs()), e)
    {
      if e.Static? {
        return;
      }
      SetRef(e, (if e in refs then refs[e] else 0) + 1);
    }
  }
}
