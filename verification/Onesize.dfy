/** The one-size allocator of libs/onesize on addresses. */
module Onesize {
  import opened Arithmetic
  import opened Options
  import opened PoolSpec
  import opened SList

  function Max(a: nat, b: nat): nat { if a < b then b else a }

  /** AM_ALIGN_SIZE: size rounded up to a multiple of align. */
  function AlignSize(size: nat, align: nat): (r: nat)
    requires align > 0
    ensures size <= r < size + align && r % align == 0
  {
    var q := (size + align - 1) / align;
    MultipleOf(q, align);
    q * align
  }

  class Allocator {
    const poolBeg: nat
    const poolEnd: nat
    const blockSize: nat
    const nTotal: nat
    var nFree: int
    var nFreeMin: int
    var nBump: nat
    /** the addresses on the free list, and the block numbers they stand for */
    var fl: seq<nat>
    ghost var freed: seq<nat>
    /** what every block is aligned to */
    ghost const alignment: nat

    /** The address of a block. */
    function Addr(b: nat): nat { poolBeg + b * blockSize }

    ghost function Abs(): Pool
      reads this
    {
      Pool(nTotal, nBump, nFree, nFreeMin, freed)
    }

    ghost predicate Valid()
      reads this
    {
      && Ok(Abs()) && blockSize > 0 && poolEnd == Addr(nTotal)
      && alignment > 0 && poolBeg % alignment == 0 && blockSize % alignment == 0
      && |fl| == |freed| && forall i :: 0 <= i < |fl| ==> fl[i] == Addr(freed[i])
    }

    /** am_assert_memptr_validity */
    predicate MemPtrOk(ptr: nat)
      requires blockSize > 0
    {
      poolBeg <= ptr < poolEnd && (ptr - poolBeg) % blockSize == 0
    }

    /** The number of the block at an address. */
    function BlockAt(ptr: nat): nat
      requires blockSize > 0 && poolBeg <= ptr
    {
      (ptr - poolBeg) / blockSize
    }

    lemma BlockAtAddr(b: nat)
      requires blockSize > 0
      ensures BlockAt(Addr(b)) == b
    {
      DivUnique(b * blockSize, blockSize, b, 0);
    }

    /** A block lies inside the pool, aligned, and blocks do not overlap. */
    lemma Blocks(b: nat, c: nat)
      requires Valid() && b < nTotal && c < nTotal
      ensures MemPtrOk(Addr(b)) && Addr(b) + blockSize <= poolEnd && Addr(b) % alignment == 0
      ensures b < c ==> Addr(b) + blockSize <= Addr(c)
      ensures Addr(b) == Addr(c) <==> b == c
    {
      MultipleOf(b, blockSize);
      MultipleTimes(b, blockSize, alignment);
      MultiplesAdd(poolBeg, b * blockSize, alignment);
      TimesLess(b, nTotal, blockSize);
      if b < c {
        TimesLess(b, c, blockSize);
      } else if c < b {
        TimesLess(c, b, blockSize);
      }
    }

    /** am_onesize_init for a pool of `size` bytes at `ptr`; `word` is the size and
        alignment of a list item. */
    constructor (ptr: nat, size: nat, wanted: nat, alignment: nat, word: nat)
      requires size > 0 && wanted > 0 && word > 0
      requires ptr % Max(alignment, word) == 0
      requires size >= AlignSize(Max(wanted, word), Max(alignment, word))
      ensures Valid() && Abs() == PoolSpec.Init(nTotal)
      ensures wanted <= blockSize && word <= blockSize && poolBeg == ptr && poolEnd <= ptr + size
      ensures blockSize == AlignSize(Max(wanted, word), Max(alignment, word))
      ensures this.alignment == Max(alignment, word)
      ensures nTotal > 0 && poolEnd + blockSize > ptr + size
    {
      hide AlignSize;
      var align := Max(alignment, word);
      var block := AlignSize(Max(wanted, word), align);
      DivFits(size, block);
      poolBeg, blockSize := ptr, block;
      nTotal := size / block;
      nFree, nFreeMin, nBump := size / block, size / block, 0;
      poolEnd := ptr + size / block * block;
      fl, freed := [], [];
      this.alignment := align;
    }

    method AllocateX(margin: nat) returns (ptr: Option<nat>)
      requires Valid()
      modifies this
      ensures Valid()
      ensures var (p, r) := Allocate(old(Abs()), margin);
        && Abs() == p
        && (ptr.Some? <==> r.Some?)
        && (ptr.Some? ==> ptr.value == Addr(r.value) && MemPtrOk(ptr.value))
    {
      hide Addr, MemPtrOk;
      AllocateOk(Abs(), margin);
      if nFree <= margin {
        return None;
      }
      if fl != [] {
        assert freed[0] in freed;
        Blocks(freed[0], freed[0]);
        if |fl| > 1 {
          assert freed[1] in freed;
          Blocks(freed[1], freed[1]);
        }
      } else {
        Blocks(nBump, nBump);
      }
      nFree := nFree - 1;
      nFreeMin := Min(nFreeMin, nFree);
      if fl != [] {
        ptr := Some(fl[0]);
        assert |fl| > 1 ==> MemPtrOk(fl[1]);
        fl, freed := fl[1..], freed[1..];
      } else {
        assert nBump < nTotal;
        ptr := Some(Addr(nBump));
        nBump := nBump + 1;
      }
    }

    method Free(ptr: nat, ghost b: nat)
      requires Valid() && Abs().Live(b) && ptr == Addr(b)
      modifies this
      ensures Valid() && Abs() == PoolSpec.Free(old(Abs()), b)
    {
      hide Addr, MemPtrOk;
      FreeOk(Abs(), b);
      Blocks(b, b);
      assert MemPtrOk(ptr);
      if fl != [] {
        assert freed[0] in freed;
        Blocks(freed[0], b);
        assert fl[0] != ptr && MemPtrOk(fl[0]);
      }
      assert nFree < nTotal;
      nFree := nFree + 1;
      fl, freed := [ptr] + fl, [b] + freed;
    }

    method FreeAll()
      requires Valid()
      modifies this
      ensures Valid() && Abs() == PoolSpec.FreeAll(old(Abs()))
    {
      FreeAllOk(Abs());
      fl, freed := [], [];
      nBump := 0;
      nFree := nTotal;
    }

    ghost function Addresses(blocks: seq<nat>): seq<nat> {
      seq(|blocks|, i requires 0 <= i < |blocks| => Addr(blocks[i]))
    }

    /** am_onesize_iterate_over_allocated_unsafe: the blocks given to the callback. */
    method Iterate(num: int) returns (visited: seq<nat>)
      requires Valid() && num != 0
      ensures visited == Addresses(Visited(Abs(), num))
    {
      hide Addr;
      assert nBump <= nTotal;
      var n := if num < 0 then nBump else num;
      n := Min(n, nBump);
      visited := [];
      var iterated, i := 0, 0;
      while i < nBump && iterated < n
        invariant 0 <= i <= nBump && iterated == |visited| <= n <= nBump
        invariant visited == Addresses(LiveBelow(Abs(), i))
      {
        var ptr := Addr(i);
        OnFreeList(i);
        if ptr !in fl {
          visited := visited + [ptr];
          iterated := iterated + 1;
        }
        i := i + 1;
      }
      VisitedWhen(Abs(), i, num);
    }

    /** am_slist_owns of the free list tells the free blocks from the live ones. */
    lemma OnFreeList(b: nat)
      requires Valid() && b < nTotal
      ensures Addr(b) in fl <==> b in freed
    {
      hide Addr;
      if Addr(b) in fl {
        var i :| 0 <= i < |fl| && fl[i] == Addr(b);
        assert freed[i] in freed;
        Blocks(b, freed[i]);
      }
      if b in freed {
        var i :| 0 <= i < |freed| && freed[i] == b;
        assert fl[i] == Addr(b);
      }
    }
  }
}
