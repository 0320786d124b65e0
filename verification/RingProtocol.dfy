/** The lock-free ring buffer of libs/ringbuf as a two-process protocol.

    One writer and one reader share three integer cells and a byte array. Every
    atomic load and store of libs/ringbuf/ringbuf.c is one step; the local code
    that follows it up to the next atomic access belongs to the same step. The
    two processes interleave arbitrarily. Two streams, the bytes committed by
    flush and the bytes consumed by seek, say what the buffer is for. */
module RingProtocol {

  type Byte = b: int | 0 <= b < 256

  /** The shared cells: read_offset, write_offset, read_skip of a buffer of n bytes. */
  datatype Cells = Cells(n: nat, rdOff: nat, wrOff: nat, skip: nat)

  /** The memory [start, start + len) a process was granted and has not used up. */
  datatype Region = Region(start: nat, len: nat)
  {
    function Drop(off: nat): Region { Region(start + off, if off <= len then len - off else 0) }
  }

  const NoRegion := Region(0, 0)

  /** Program points of am_ringbuf_get_write_ptr, flush, get_read_ptr, seek and
      get_data_size: the atomic access about to happen, with the C locals. */
  datatype GetWritePc =
    | GwLoadRead(size: nat)
    | GwLoadWrite(size: nat, rd: nat)
    | GwStoreSkip(size: nat, rd: nat, wr: nat)
    | GwStoreWrite(size: nat, rd: nat)

  datatype FlushPc =
    | FlLoadRead(off: nat)
    | FlLoadWrite(off: nat, rd: nat)
    | FlStoreSkip(off: nat, wr: nat)
    | FlStoreWrite(off: nat, wr: nat)

  datatype GetReadPc =
    | GrLoadRead
    | GrLoadWrite(rd: nat)
    | GrLoadSkip(rd: nat, wr: nat)
    | GrStoreRead(wr: nat)

  datatype SeekPc =
    | SkLoadRead(off: nat)
    | SkLoadWrite(off: nat, rd: nat)
    | SkLoadSkip(off: nat, rd: nat, wr: nat)
    | SkStoreRead(off: nat, rd: nat)

  /** `atRead` and `atWrite` are the numbers of unread bytes at the moments
      read_offset and write_offset were loaded. */
  datatype SizePc =
    | SzLoadRead
    | SzLoadWrite(rd: nat, atRead: int)
    | SzLoadSkip(rd: nat, wr: nat, atRead: int, atWrite: int)

  /** What one step of a call leads to: a failed AM_ASSERT, the next program
      point, a granted region, an offset moved past `off` bytes, or an answer. */
  datatype Outcome<Pc> =
    | Fault
    | At(c: Cells, pc: Pc)
    | Granted(c: Cells, region: Region)
    | Moved(c: Cells, off: nat)
    | Answered(value: int, atRead: int, atWrite: int)

  /** The C remainder of nonnegative operands. */
  function Rem(x: nat, m: nat): (r: nat)
    requires m > 0
    ensures r < m
    ensures x <= m ==> r == if x == m then 0 else x
  {
    if x < m then x else Rem(x - m, m)
  }

  /** The number of unread bytes. */
  function Unread(c: Cells): int {
    if c.rdOff <= c.wrOff then c.wrOff - c.rdOff else c.n - c.rdOff - c.skip + c.wrOff
  }

  // ------------------------------------------------------------- the five calls

  /** am_ringbuf_get_write_ptr from its last comparison on. */
  function GetBelowRead(c: Cells, size: nat, rd: nat, wr: nat): Outcome<GetWritePc> {
    if wr >= rd then Fault
    else if rd - wr - 1 >= size then Granted(c, Region(wr, rd - wr - 1))
    else Granted(c, NoRegion)
  }

  function GetWriteStep(c: Cells, g: GetWritePc): Outcome<GetWritePc> {
    match g
    case GwLoadRead(size) => At(c, GwLoadWrite(size, c.rdOff))
    case GwLoadWrite(size, rd) =>
      var wr := c.wrOff;
      if wr < rd then GetBelowRead(c, size, rd, wr)
      else
        var tillEnd := c.n - wr;
        var avail := if rd == 0 then tillEnd - 1 else tillEnd;
        if avail >= size then Granted(c, Region(wr, avail))
        else if rd > 0 then At(c, GwStoreSkip(size, rd, wr))
        else if rd <= size then Granted(c, NoRegion)
        else GetBelowRead(c, size, rd, wr)
    case GwStoreSkip(size, rd, wr) =>
      if wr > c.n then Fault else At(c.(skip := c.n - wr), GwStoreWrite(size, rd))
    case GwStoreWrite(size, rd) =>
      var c' := c.(wrOff := 0);
      if rd <= size then Granted(c', NoRegion) else GetBelowRead(c', size, rd, 0)
  }

  function FlushStep(c: Cells, f: FlushPc): Outcome<FlushPc> {
    match f
    case FlLoadRead(off) => At(c, FlLoadWrite(off, c.rdOff))
    case FlLoadWrite(off, rd) =>
      var wr := c.wrOff;
      if wr >= rd then
        var tillEnd := c.n - wr;
        var avail := if rd == 0 then tillEnd - 1 else tillEnd;
        if off > avail || c.n == 0 then Fault
        else
          var wr' := Rem(wr + off, c.n);
          At(c, if wr' == 0 then FlStoreSkip(off, wr') else FlStoreWrite(off, wr'))
      else if off >= rd - wr then Fault
      else At(c, FlStoreWrite(off, wr + off))
    case FlStoreSkip(off, wr) => At(c.(skip := 0), FlStoreWrite(off, wr))
    case FlStoreWrite(off, wr) => Moved(c.(wrOff := wr), off)
  }

  function GetReadStep(c: Cells, g: GetReadPc): Outcome<GetReadPc> {
    match g
    case GrLoadRead => At(c, GrLoadWrite(c.rdOff))
    case GrLoadWrite(rd) =>
      if rd == c.wrOff then Granted(c, NoRegion)
      else if rd < c.wrOff then Granted(c, Region(rd, c.wrOff - rd))
      else At(c, GrLoadSkip(rd, c.wrOff))
    case GrLoadSkip(rd, wr) =>
      var avail := c.n - rd - c.skip;
      if avail < 0 then Fault
      else if avail > 0 then Granted(c, Region(rd, avail))
      else At(c, GrStoreRead(wr))
    case GrStoreRead(wr) => Granted(c.(rdOff := 0), Region(0, wr))
  }

  function SeekStep(c: Cells, k: SeekPc): Outcome<SeekPc> {
    match k
    case SkLoadRead(off) => At(c, SkLoadWrite(off, c.rdOff))
    case SkLoadWrite(off, rd) =>
      if rd == c.wrOff then Fault
      else if rd > c.wrOff then At(c, SkLoadSkip(off, rd, c.wrOff))
      else if off > c.wrOff - rd then Fault
      else At(c, SkStoreRead(off, rd + off))
    case SkLoadSkip(off, rd, wr) =>
      var avail := c.n - rd - c.skip;
      if avail < 0 || c.n <= c.skip || off > avail then Fault
      else At(c, SkStoreRead(off, Rem(rd + off, c.n - c.skip)))
    case SkStoreRead(off, rd) => Moved(c.(rdOff := rd), off)
  }

  /** am_ringbuf_get_data_size, called by either process. */
  function SizeStep(c: Cells, z: SizePc): Outcome<SizePc> {
    match z
    case SzLoadRead => At(c, SzLoadWrite(c.rdOff, Unread(c)))
    case SzLoadWrite(rd, atRead) =>
      if rd <= c.wrOff then Answered(c.wrOff - rd, atRead, Unread(c))
      else At(c, SzLoadSkip(rd, c.wrOff, atRead, Unread(c)))
    case SzLoadSkip(rd, wr, atRead, atWrite) =>
      if rd + c.skip > c.n then Fault
      else Answered(c.n - rd - c.skip + wr, atRead, atWrite)
  }

  // ----------------------------------------------------------------- the system

  datatype WriterPc = WIdle | WGet(g: GetWritePc) | WFlush(f: FlushPc) | WSize(z: SizePc)
  datatype ReaderPc = RIdle | RGet(g: GetReadPc) | RSeek(k: SeekPc) | RSize(z: SizePc)

  datatype Writer = Writer(pc: WriterPc, grant: Region)
  datatype Reader = Reader(pc: ReaderPc, grant: Region)

  /** `wSizes` and `rSizes` pair each data_size answer given to the writer and to
      the reader with the true count when the other side's offset was loaded. */
  datatype State = State(
    c: Cells, buf: seq<Byte>, w: Writer, r: Reader,
    committed: seq<Byte>, consumed: seq<Byte>,
    wSizes: seq<(int, int)>, rSizes: seq<(int, int)>, fault: bool)

  datatype Action =
    | WCallGet(size: nat)
    | WPut(at: nat, value: Byte)
    | WCallFlush(off: nat)
    | WCallSize
    | WStep
    | RCallGet
    | RCallSeek(off: nat)
    | RCallSize
    | RStep
  {
    predicate ByWriter() { WCallGet? || WPut? || WCallFlush? || WCallSize? || WStep? }
  }

  function Bytes(buf: seq<Byte>, start: nat, len: nat): seq<Byte> {
    if start + len <= |buf| then buf[start..start + len] else []
  }

  /** The unread bytes, oldest first. */
  function Data(c: Cells, buf: seq<Byte>): seq<Byte> {
    if c.rdOff <= c.wrOff then
      Bytes(buf, c.rdOff, c.wrOff - c.rdOff)
    else if c.rdOff + c.skip <= c.n then
      Bytes(buf, c.rdOff, c.n - c.rdOff - c.skip) + Bytes(buf, 0, c.wrOff)
    else
      []
  }

  function Init(memory: seq<Byte>): State {
    State(Cells(|memory|, 0, 0, 0), memory, Writer(WIdle, NoRegion), Reader(RIdle, NoRegion),
          [], [], [], [], false)
  }

  function AfterGetWrite(s: State, o: Outcome<GetWritePc>): State {
    match o
    case At(c, g) => s.(c := c, w := s.w.(pc := WGet(g)))
    case Granted(c, region) => s.(c := c, w := Writer(WIdle, region))
    case _ => s.(fault := true)
  }

  /** The flushed bytes join the committed stream when write_offset is stored. */
  function AfterFlush(s: State, o: Outcome<FlushPc>): State {
    match o
    case At(c, f) => s.(c := c, w := s.w.(pc := WFlush(f)))
    case Moved(c, off) =>
      s.(c := c, w := Writer(WIdle, s.w.grant.Drop(off)),
         committed := s.committed + Bytes(s.buf, s.w.grant.start, off))
    case _ => s.(fault := true)
  }

  function AfterWriterSize(s: State, o: Outcome<SizePc>): State {
    match o
    case At(c, z) => s.(w := s.w.(pc := WSize(z)))
    case Answered(v, atRead, _) => s.(w := s.w.(pc := WIdle), wSizes := s.wSizes + [(v, atRead)])
    case _ => s.(fault := true)
  }

  function WriterStep(s: State): State {
    match s.w.pc
    case WIdle => s
    case WGet(g) => AfterGetWrite(s, GetWriteStep(s.c, g))
    case WFlush(f) => AfterFlush(s, FlushStep(s.c, f))
    case WSize(z) => AfterWriterSize(s, SizeStep(s.c, z))
  }

  function AfterGetRead(s: State, o: Outcome<GetReadPc>): State {
    match o
    case At(c, g) => s.(c := c, r := s.r.(pc := RGet(g)))
    case Granted(c, region) => s.(c := c, r := Reader(RIdle, region))
    case _ => s.(fault := true)
  }

  /** The bytes behind the read pointer are consumed when read_offset is stored. */
  function AfterSeek(s: State, o: Outcome<SeekPc>): State {
    match o
    case At(c, k) => s.(c := c, r := s.r.(pc := RSeek(k)))
    case Moved(c, off) =>
      s.(c := c, r := Reader(RIdle, s.r.grant.Drop(off)),
         consumed := s.consumed + Bytes(s.buf, s.r.grant.start, off))
    case _ => s.(fault := true)
  }

  function AfterReaderSize(s: State, o: Outcome<SizePc>): State {
    match o
    case At(c, z) => s.(r := s.r.(pc := RSize(z)))
    case Answered(v, _, atWrite) => s.(r := s.r.(pc := RIdle), rSizes := s.rSizes + [(v, atWrite)])
    case _ => s.(fault := true)
  }

  function ReaderStep(s: State): State {
    match s.r.pc
    case RIdle => s
    case RGet(g) => AfterGetRead(s, GetReadStep(s.c, g))
    case RSeek(k) => AfterSeek(s, SeekStep(s.c, k))
    case RSize(z) => AfterReaderSize(s, SizeStep(s.c, z))
  }

  /** What the callers promise: one call at a time per process, requests below
      the buffer size, writes inside the write grant, flush and seek within
      what is left of the last grant. */
  predicate Allowed(s: State, a: Action) {
    !s.fault &&
    match a
    case WCallGet(size) => s.w.pc.WIdle? && size < s.c.n
    case WPut(at, _) =>
      s.w.pc.WIdle? && s.w.grant.start <= at < s.w.grant.start + s.w.grant.len && at < |s.buf|
    case WCallFlush(off) => s.w.pc.WIdle? && off <= s.w.grant.len
    case WCallSize => s.w.pc.WIdle?
    case WStep => true
    case RCallGet => s.r.pc.RIdle?
    case RCallSeek(off) => s.r.pc.RIdle? && off <= s.r.grant.len
    case RCallSize => s.r.pc.RIdle?
    case RStep => true
  }

  /** One action. Actions that break the callers' promise are refused. */
  function Step(s: State, a: Action): State {
    if !Allowed(s, a) then s else
    match a
    case WCallGet(size) => s.(w := Writer(WGet(GwLoadRead(size)), NoRegion))
    case WPut(at, value) => s.(buf := s.buf[at := value])
    case WCallFlush(off) => s.(w := s.w.(pc := WFlush(FlLoadRead(off))))
    case WCallSize => s.(w := s.w.(pc := WSize(SzLoadRead)))
    case WStep => WriterStep(s)
    case RCallGet => s.(r := Reader(RGet(GrLoadRead), NoRegion))
    case RCallSeek(off) => if off == 0 then s else s.(r := s.r.(pc := RSeek(SkLoadRead(off))))
    case RCallSize => s.(r := s.r.(pc := RSize(SzLoadRead)))
    case RStep => ReaderStep(s)
  }

  function Run(s: State, acts: seq<Action>): State {
    if acts == [] then s else Step(Run(s, acts[..|acts| - 1]), acts[|acts| - 1])
  }
}
