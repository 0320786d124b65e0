/** The ring buffer functions as they run when the other process stands still:
    each method below is one C function on the mutable descriptor. It is proved
    to do what the protocol's steps of that function do one after the other, and
    so to act on the unread bytes as a bounded queue of bytes would. */
module RingBuffer {
  import opened RingProtocol
  import opened RingSafety

  // --------------------------------------------------- whole calls, step by step

  function GetWriteRank(g: GetWritePc): nat {
    match g
    case GwLoadRead(_) => 3
    case GwLoadWrite(_, _) => 2
    case GwStoreSkip(_, _, _) => 1
    case GwStoreWrite(_, _) => 0
  }

  /** All remaining steps of a get_write_ptr call. */
  function GetWriteCall(c: Cells, g: GetWritePc): Outcome<GetWritePc>
    decreases GetWriteRank(g)
  {
    match GetWriteStep(c, g)
    case At(c', g') => if GetWriteRank(g') < GetWriteRank(g) then GetWriteCall(c', g') else Fault
    case o => o
  }

  function FlushRank(f: FlushPc): nat {
    match f case FlLoadRead(_) => 3 case FlLoadWrite(_, _) => 2 case FlStoreSkip(_, _) => 1 case FlStoreWrite(_, _) => 0
  }

  function FlushCall(c: Cells, f: FlushPc): Outcome<FlushPc>
    decreases FlushRank(f)
  {
    match FlushStep(c, f)
    case At(c', f') => if FlushRank(f') < FlushRank(f) then FlushCall(c', f') else Fault
    case o => o
  }

  function GetReadRank(g: GetReadPc): nat {
    match g case GrLoadRead => 3 case GrLoadWrite(_) => 2 case GrLoadSkip(_, _) => 1 case GrStoreRead(_) => 0
  }

  function GetReadCall(c: Cells, g: GetReadPc): Outcome<GetReadPc>
    decreases GetReadRank(g)
  {
    match GetReadStep(c, g)
    case At(c', g') => if GetReadRank(g') < GetReadRank(g) then GetReadCall(c', g') else Fault
    case o => o
  }

  function SeekRank(k: SeekPc): nat {
    match k
    case SkLoadRead(_) => 3
    case SkLoadWrite(_, _) => 2
    case SkLoadSkip(_, _, _) => 1
    case SkStoreRead(_, _) => 0
  }

  function SeekCall(c: Cells, k: SeekPc): Outcome<SeekPc>
    decreases SeekRank(k)
  {
    match SeekStep(c, k)
    case At(c', k') => if SeekRank(k') < SeekRank(k) then SeekCall(c', k') else Fault
    case o => o
  }

  lemma {:induction false} GetWriteCallOk(c: Cells, g: GetWritePc, buf: seq<Byte>)
    requires CellsOk(c) && |buf| == c.n && GetWriteInv(c, g)
    ensures var o := GetWriteCall(c, g);
      && o.Granted? && o.c.n == c.n && CellsOk(o.c) && FreeFrom(o.c, o.region, o.c.rdOff)
      && Data(o.c, buf) == Data(c, buf)
    decreases GetWriteRank(g)
  {
    GetWriteStepOk(c, g);
    GetWriteData(c, g, buf);
    var o := GetWriteStep(c, g);
    if o.At? {
      GetWriteCallOk(o.c, o.pc, buf);
    }
  }

  lemma {:induction false} FlushCallOk(c: Cells, g: Region, f: FlushPc, buf: seq<Byte>)
    requires CellsOk(c) && |buf| == c.n && FreeFrom(c, g, c.rdOff) && FlushInv(c, g, f)
    ensures var o := FlushCall(c, f);
      && o.Moved? && o.off == f.off && o.c.n == c.n && CellsOk(o.c)
      && FreeFrom(o.c, g.Drop(f.off), o.c.rdOff)
      && Data(o.c, buf) == Data(c, buf) + Bytes(buf, g.start, f.off)
    decreases FlushRank(f)
  {
    FlushStepOk(c, g, f);
    FlushData(c, g, f, buf);
    var o := FlushStep(c, f);
    if o.At? {
      FlushCallOk(o.c, g, o.pc, buf);
    }
  }

  lemma {:induction false} GetReadCallOk(c: Cells, g: GetReadPc, buf: seq<Byte>)
    requires CellsOk(c) && |buf| == c.n && GetReadInv(c, g)
    ensures var o := GetReadCall(c, g);
      && o.Granted? && o.c.n == c.n && CellsOk(o.c) && UnreadFrom(o.c, o.region)
      && Data(o.c, buf) == Data(c, buf)
    decreases GetReadRank(g)
  {
    GetReadStepOk(c, g);
    GetReadData(c, g, buf);
    var o := GetReadStep(c, g);
    if o.At? {
      GetReadCallOk(o.c, o.pc, buf);
    }
  }

  lemma {:induction false} SeekCallOk(c: Cells, g: Region, k: SeekPc, buf: seq<Byte>)
    requires CellsOk(c) && |buf| == c.n && UnreadFrom(c, g) && SeekInv(c, g, k)
    ensures var o := SeekCall(c, k);
      && o.Moved? && o.off == k.off && o.c.n == c.n && CellsOk(o.c)
      && UnreadFrom(o.c, g.Drop(k.off))
      && Data(c, buf) == Bytes(buf, g.start, k.off) + Data(o.c, buf)
    decreases SeekRank(k)
  {
    SeekStepOk(c, g, k);
    SeekData(c, g, k, buf);
    var o := SeekStep(c, k);
    if o.At? {
      SeekCallOk(o.c, g, o.pc, buf);
    }
  }

  lemma GrantLength(c: Cells, g: Region, off: nat, buf: seq<Byte>)
    requires CellsOk(c) && |buf| == c.n && UnreadFrom(c, g) && off <= g.len
    ensures |Bytes(buf, g.start, off)| == off
  {
  }

  // The calls written out, one line a step.

  lemma GetWriteUnfold(c: Cells, size: nat)
    ensures var o := GetWriteStep(c, GwLoadWrite(size, c.rdOff));
      GetWriteCall(c, GwLoadRead(size)) ==
        if o.At? && o.pc.GwStoreSkip? && o.pc.wr <= c.n
        then GetWriteStep(c.(skip := c.n - o.pc.wr), GwStoreWrite(size, c.rdOff)) else
        if o.At? then Fault else o
  {
    var o := GetWriteStep(c, GwLoadWrite(size, c.rdOff));
    assert GetWriteCall(c, GwLoadRead(size)) == GetWriteCall(c, GwLoadWrite(size, c.rdOff));
    if o.At? {
      assert GetWriteCall(c, GwLoadWrite(size, c.rdOff)) == GetWriteCall(c, o.pc);
    }
    if o.At? && o.pc.wr <= c.n {
      var c' := c.(skip := c.n - o.pc.wr);
      assert GetWriteCall(c, o.pc) == GetWriteCall(c', GwStoreWrite(size, c.rdOff));
    }
  }

  lemma FlushUnfold(c: Cells, off: nat)
    requires c.n > 0
    ensures FlushCall(c, FlLoadRead(off)) ==
      if c.wrOff < c.rdOff then
        if off < c.rdOff - c.wrOff then Moved(c.(wrOff := c.wrOff + off), off) else Fault
      else if off > (if c.rdOff == 0 then c.n - c.wrOff - 1 else c.n - c.wrOff) then Fault
      else
        var wr := Rem(c.wrOff + off, c.n);
        Moved(if wr == 0 then c.(skip := 0, wrOff := 0) else c.(wrOff := wr), off)
  {
    var o := FlushStep(c, FlLoadWrite(off, c.rdOff));
    assert FlushCall(c, FlLoadRead(off)) == FlushCall(c, FlLoadWrite(off, c.rdOff));
    if o.At? {
      assert FlushCall(c, FlLoadWrite(off, c.rdOff)) == FlushCall(c, o.pc);
      if o.pc.FlStoreSkip? {
        assert FlushCall(c, o.pc) == FlushCall(c.(skip := 0), FlStoreWrite(off, o.pc.wr));
      }
    }
  }

  lemma GetReadUnfold(c: Cells)
    ensures var o := GetReadStep(c, GrLoadWrite(c.rdOff));
      GetReadCall(c, GrLoadRead) ==
        if !o.At? then o
        else if c.n - c.rdOff - c.skip < 0 then Fault
        else if c.n - c.rdOff - c.skip > 0 then Granted(c, Region(c.rdOff, c.n - c.rdOff - c.skip))
        else Granted(c.(rdOff := 0), Region(0, c.wrOff))
  {
    var o := GetReadStep(c, GrLoadWrite(c.rdOff));
    assert GetReadCall(c, GrLoadRead) == GetReadCall(c, GrLoadWrite(c.rdOff));
    if o.At? {
      assert GetReadCall(c, GrLoadWrite(c.rdOff)) == GetReadCall(c, GrLoadSkip(c.rdOff, c.wrOff));
      var o' := GetReadStep(c, o.pc);
      if o'.At? {
        assert GetReadCall(c, o.pc) == GetReadCall(c, GrStoreRead(c.wrOff));
      }
    }
  }

  lemma SeekUnfold(c: Cells, off: nat)
    ensures var o := SeekStep(c, SkLoadWrite(off, c.rdOff));
      var o' := if o.At? && o.pc.SkLoadSkip? then SeekStep(c, o.pc) else o;
      SeekCall(c, SkLoadRead(off)) == if o'.At? then Moved(c.(rdOff := o'.pc.rd), off) else Fault
  {
    var o := SeekStep(c, SkLoadWrite(off, c.rdOff));
    assert SeekCall(c, SkLoadRead(off)) == SeekCall(c, SkLoadWrite(off, c.rdOff));
    if o.At? {
      assert SeekCall(c, SkLoadWrite(off, c.rdOff)) == SeekCall(c, o.pc);
      var o' := SeekStep(c, o.pc);
      if o.pc.SkLoadSkip? && o'.At? {
        assert SeekCall(c, o.pc) == SeekCall(c, o'.pc);
      }
    }
  }

  // ------------------------------------------------------------ the empty buffer

  /** On an empty buffer of n bytes, wherever its offsets stand, a request for at
      most n - 1 bytes succeeds at once, or it fails once, after which one
      get_read_ptr makes the next attempt succeed. Nothing becomes readable
      meanwhile. */
  lemma EmptyBufferGrants(c: Cells, size: nat)
    requires CellsOk(c) && Unread(c) == 0 && size < c.n
    ensures var first := GetWriteCall(c, GwLoadRead(size));
      && first.Granted? && Unread(first.c) == 0
      && (first.region.len >= size ||
          (&& first.region == NoRegion
           && var look := GetReadCall(first.c, GrLoadRead);
              && look.Granted? && look.region.len == 0 && Unread(look.c) == 0
              && var again := GetWriteCall(look.c, GwLoadRead(size));
                 again.Granted? && Unread(again.c) == 0 && again.region.len >= size))
  {
    hide GetWriteCall, GetReadCall, Data;
    var memory := seq(c.n, i => 0);
    GetWriteCallOk(c, GwLoadRead(size), memory);
    GetWriteUnfold(c, size);
    var first := GetWriteCall(c, GwLoadRead(size));
    DataSize(c, memory);
    DataSize(first.c, memory);
    if first.region.len < size {
      GetReadCallOk(first.c, GrLoadRead, memory);
      GetReadUnfold(first.c);
      var look := GetReadCall(first.c, GrLoadRead);
      DataSize(look.c, memory);
      assert look.c.rdOff == look.c.wrOff == 0;
      GetWriteCallOk(look.c, GwLoadRead(size), memory);
      GetWriteUnfold(look.c, size);
      DataSize(GetWriteCall(look.c, GwLoadRead(size)).c, memory);
    }
  }

  // -------------------------------------------------------------- the descriptor

  class Ring {
    var buf: array<Byte>
    var readOffset: nat
    var writeOffset: nat
    var readSkip: nat
    ghost var wGrant: Region
    ghost var rGrant: Region

    ghost function Shared(): Cells
      reads this
    {
      Cells(buf.Length, readOffset, writeOffset, readSkip)
    }

    ghost predicate Valid()
      reads this
    {
      CellsOk(Shared()) && FreeFrom(Shared(), wGrant, readOffset) && UnreadFrom(Shared(), rGrant)
    }

    /** The unread bytes, oldest first. */
    ghost function Contents(): seq<Byte>
      reads this, buf
    {
      Data(Shared(), buf[..])
    }

    constructor (memory: array<Byte>)
      requires memory.Length > 0
      ensures Valid() && buf == memory && Contents() == []
    {
      buf := memory;
      readOffset, writeOffset, readSkip := 0, 0, 0;
      wGrant, rGrant := NoRegion, NoRegion;
    }

    /** am_ringbuf_get_write_ptr. A NULL pointer is -1. Behind the reader the whole gap
        but one byte is granted, if it is enough; else the tail, if that is enough;
        else the writer wraps, unless the reader is at the start, and all before
        the reader but one byte is granted, if that is enough. */
    method GetWritePtr(request: nat) returns (ptr: int, size: nat, updated: bool)
      requires Valid() && request < buf.Length
      modifies this
      ensures Valid() && buf == old(buf) && Contents() == old(Contents()) && rGrant == old(rGrant)
      ensures GetWriteCall(old(Shared()), GwLoadRead(request)) == Granted(Shared(), wGrant)
      ensures if ptr < 0 then wGrant == NoRegion && size == 0 else wGrant == Region(ptr, size) && size >= request
      ensures updated <==> Shared() != old(Shared())
      ensures readOffset == old(readOffset)
      ensures var n, rd, wr := buf.Length, old(readOffset), old(writeOffset);
        var tail := if rd == 0 then n - wr - 1 else n - wr;
        if wr < rd then
          && !updated && (ptr >= 0 <==> request <= rd - wr - 1)
          && (ptr >= 0 ==> ptr == wr && size == rd - wr - 1)
        else if request <= tail then !updated && ptr == wr && size == tail
        else if rd == 0 then !updated && ptr < 0
        else
          && updated && writeOffset == 0 && readSkip == n - wr && (ptr >= 0 <==> request < rd)
          && (ptr >= 0 ==> ptr == 0 && size == rd - 1)
    {
      hide GetWriteCall, Data;
      GetWriteCallOk(Shared(), GwLoadRead(request), buf[..]);
      GetWriteUnfold(Shared(), request);
      updated := false;
      var rd, wr := readOffset, writeOffset;
      if wr >= rd {
        var tillEnd := buf.Length - wr;
        var avail := if rd == 0 then tillEnd - 1 else tillEnd;
        if avail >= request {
          wGrant := Region(wr, avail);
          return wr, avail, updated;
        }
        if rd > 0 {
          readSkip := tillEnd;
          writeOffset := 0;
          wr := 0;
          updated := true;
        }
        if rd <= request {
          wGrant := NoRegion;
          return -1, 0, updated;
        }
      }
      assert wr < rd;
      var avail := rd - wr - 1;
      if avail >= request {
        wGrant := Region(wr, avail);
        return wr, avail, updated;
      }
      wGrant := NoRegion;
      return -1, 0, updated;
    }

    /** am_ringbuf_flush. */
    method Flush(offset: nat)
      requires Valid() && offset <= wGrant.len
      modifies this
      ensures Valid() && buf == old(buf) && rGrant == old(rGrant)
      ensures wGrant == old(wGrant).Drop(offset)
      ensures Contents() == old(Contents() + Bytes(buf[..], wGrant.start, offset))
      ensures FlushCall(old(Shared()), FlLoadRead(offset)) == Moved(Shared(), offset)
      ensures readOffset == old(readOffset)
      ensures writeOffset == if old(writeOffset) + offset == buf.Length then 0 else old(writeOffset) + offset
      ensures readSkip == if writeOffset == 0 && old(writeOffset) >= readOffset then 0 else old(readSkip)
    {
      hide FlushCall, Data, Bytes;
      ghost var o := FlushCall(Shared(), FlLoadRead(offset));
      FlushCallOk(Shared(), wGrant, FlLoadRead(offset), buf[..]);
      FlushUnfold(Shared(), offset);
      var rd, wr := readOffset, writeOffset;
      if wr >= rd {
        var tillEnd := buf.Length - wr;
        var avail := if rd == 0 then tillEnd - 1 else tillEnd;
        assert offset <= avail;
        wr := Rem(wr + offset, buf.Length);
        if wr == 0 {
          readSkip := 0;
        }
      } else {
        var avail := rd - wr;
        assert offset < avail;
        wr := wr + offset;
      }
      writeOffset := wr;
      assert Shared() == o.c;
      wGrant := wGrant.Drop(offset);
    }

    /** am_ringbuf_get_read_ptr. Before the writer all up to it is granted, else all up to
        the skipped bytes at the end; with nothing there the reader wraps and all
        before the writer is granted. */
    method GetReadPtr() returns (ptr: int, size: nat, updated: bool)
      requires Valid()
      modifies this
      ensures Valid() && buf == old(buf) && Contents() == old(Contents()) && wGrant == old(wGrant)
      ensures GetReadCall(old(Shared()), GrLoadRead) == Granted(Shared(), rGrant)
      ensures ptr < 0 <==> Contents() == []
      ensures ptr < 0 ==> size == 0
      ensures ptr >= 0 ==> size > 0 && rGrant == Region(ptr, size) && Bytes(buf[..], ptr, size) <= Contents()
      ensures updated <==> Shared() != old(Shared())
      ensures writeOffset == old(writeOffset) && readSkip == old(readSkip)
      ensures var n, rd, wr, skip := buf.Length, old(readOffset), writeOffset, readSkip;
        if rd == wr then !updated && ptr < 0
        else if rd < wr then !updated && ptr == rd && size == wr - rd
        else if rd + skip < n then !updated && ptr == rd && size == n - rd - skip
        else updated && readOffset == 0 && size == wr && ptr == if wr == 0 then -1 else 0
    {
      hide GetReadCall;
      GetReadCallOk(Shared(), GrLoadRead, buf[..]);
      GetReadUnfold(Shared());
      DataSize(Shared(), buf[..]);
      var rd, wr := readOffset, writeOffset;
      if rd == wr {
        rGrant := NoRegion;
        return -1, 0, false;
      }
      if rd < wr {
        rGrant := Region(rd, wr - rd);
        return rd, wr - rd, false;
      }
      var avail := buf.Length - rd - readSkip;
      assert avail >= 0;
      if avail > 0 {
        rGrant := Region(rd, avail);
        return rd, avail, false;
      }
      readOffset := 0;
      rGrant := Region(0, wr);
      if wr == 0 {
        return -1, 0, true;
      }
      return 0, wr, true;
    }

    /** am_ringbuf_seek. */
    method Seek(offset: nat)
      requires Valid() && offset <= rGrant.len
      modifies this
      ensures Valid() && buf == old(buf) && wGrant == old(wGrant)
      ensures rGrant == old(rGrant).Drop(offset)
      ensures offset <= |old(Contents())| && Contents() == old(Contents())[offset..]
      ensures offset > 0 ==> SeekCall(old(Shared()), SkLoadRead(offset)) == Moved(Shared(), offset)
      ensures writeOffset == old(writeOffset) && readSkip == old(readSkip)
      ensures var end := if writeOffset < old(readOffset) then buf.Length - readSkip else buf.Length;
        offset > 0 ==> readOffset == if old(readOffset) + offset == end then 0 else old(readOffset) + offset
    {
      hide SeekCall, Data, Bytes;
      if offset == 0 {
        return;
      }
      ghost var c := Shared();
      SeekCallOk(c, rGrant, SkLoadRead(offset), buf[..]);
      GrantLength(c, rGrant, offset, buf[..]);
      var rd, wr := readOffset, writeOffset;
      assert rd != wr;
      if rd > wr {
        var rds := readSkip;
        assert rd + rds <= buf.Length;
        var avail := buf.Length - rd - rds;
        assert offset <= avail;
        rd := rd + if offset < avail then offset else avail;
        rd := Rem(rd, buf.Length - rds);
      } else {
        var avail := wr - rd;
        assert offset <= avail;
        rd := rd + if offset < avail then offset else avail;
      }
      readOffset := rd;
      assert SeekCall(c, SkLoadRead(offset)) == Moved(Shared(), offset) by { SeekUnfold(c, offset); }
      rGrant := rGrant.Drop(offset);
    }

    /** am_ringbuf_get_data_size. */
    method GetDataSize() returns (size: int)
      requires Valid()
      ensures size == |Contents()|
    {
      DataSize(Shared(), buf[..]);
      var rd, wr := readOffset, writeOffset;
      if rd <= wr {
        return wr - rd;
      }
      var rds := readSkip;
      assert rd + rds <= buf.Length;
      return buf.Length - rd - rds + wr;
    }

    /** am_ringbuf_get_free_size, while the reader is at rest: what is not unread, but
        one byte, and not what is skipped at the end, which is free only once the
        reader gets there. */
    method GetFreeSize() returns (size: int)
      requires Valid()
      ensures var skipped := writeOffset < readOffset && readOffset + readSkip < buf.Length;
        size == buf.Length - 1 - |Contents()| - if skipped then readSkip else 0
    {
      DataSize(Shared(), buf[..]);
      var rds := readSkip;
      var rd, wr := readOffset, writeOffset;
      if wr >= rd {
        return buf.Length - 1 - wr + rd;
      }
      if rd == buf.Length - rds {
        return buf.Length - wr - 1;
      }
      assert rd < buf.Length - rds;
      return rd - wr - 1;
    }
  }
}
