/** Safety of the ring buffer protocol in every interleaving, by rely and
    guarantee: each process keeps its own invariant and moves the cells only in
    ways that keep the other's. */
module RingSafety {
  import opened RingProtocol

  predicate CellsOk(c: Cells) {
    && c.rdOff < c.n && c.wrOff < c.n
    && (c.wrOff < c.rdOff ==> c.rdOff + c.skip <= c.n)
  }

  /** `rd` is a value read_offset had since the writer's call began: the reader
      has only moved on from there, and may have wrapped. */
  predicate ReadSnapshot(c: Cells, rd: nat) {
    rd < c.n &&
    if rd <= c.wrOff then rd <= c.rdOff <= c.wrOff
    else rd <= c.rdOff || c.rdOff <= c.wrOff
  }

  /** Memory starting at write_offset that a reader seen at `rd` leaves free. */
  predicate FreeFrom(c: Cells, g: Region, rd: nat) {
    g.len > 0 ==>
      && g.start == c.wrOff
      && (if rd > c.wrOff then g.start + g.len < rd
          else if rd == 0 then g.start + g.len < c.n
          else g.start + g.len <= c.n)
  }

  /** Memory starting at read_offset that holds unread bytes only. */
  predicate UnreadFrom(c: Cells, g: Region) {
    g.len > 0 ==>
      && g.start == c.rdOff
      && (if c.rdOff <= c.wrOff then g.start + g.len <= c.wrOff
          else g.start + g.len + c.skip <= c.n)
  }

  predicate GetWriteInv(c: Cells, g: GetWritePc) {
    g.size < c.n &&
    match g
    case GwLoadRead(_) => true
    case GwLoadWrite(_, rd) => ReadSnapshot(c, rd)
    case GwStoreSkip(_, rd, wr) => wr == c.wrOff && 0 < rd <= c.rdOff <= wr
    case GwStoreWrite(_, rd) => 0 < rd <= c.rdOff <= c.wrOff && c.skip == c.n - c.wrOff
  }

  predicate FlushInv(c: Cells, g: Region, f: FlushPc) {
    f.off <= g.len &&
    match f
    case FlLoadRead(_) => true
    case FlLoadWrite(_, rd) => ReadSnapshot(c, rd) && FreeFrom(c, g, rd)
    case FlStoreSkip(off, wr) =>
      && wr == 0 && c.rdOff <= c.wrOff
      && ((c.wrOff + off == c.n && c.rdOff > 0) || c.wrOff == off == 0)
    case FlStoreWrite(off, wr) =>
      if wr == c.wrOff + off then wr < c.n
      else wr == 0 && c.wrOff + off == c.n && 0 < c.rdOff <= c.wrOff && c.skip == 0
  }

  predicate WriterSizeInv(c: Cells, z: SizePc) {
    match z
    case SzLoadRead => true
    case SzLoadWrite(rd, atRead) =>
      && ReadSnapshot(c, rd)
      && (if rd <= c.wrOff then atRead == c.wrOff - rd
          else rd + c.skip <= c.n && atRead == c.n - rd - c.skip + c.wrOff)
    case SzLoadSkip(rd, wr, atRead, _) =>
      wr == c.wrOff && rd + c.skip <= c.n && atRead == c.n - rd - c.skip + wr
  }

  predicate WriterInv(c: Cells, w: Writer) {
    FreeFrom(c, w.grant, c.rdOff) &&
    match w.pc
    case WIdle => true
    case WGet(g) => w.grant.len == 0 && GetWriteInv(c, g)
    case WFlush(f) => FlushInv(c, w.grant, f)
    case WSize(z) => WriterSizeInv(c, z)
  }

  predicate GetReadInv(c: Cells, g: GetReadPc) {
    match g
    case GrLoadRead => true
    case GrLoadWrite(rd) => rd == c.rdOff
    case GrLoadSkip(rd, wr) => rd == c.rdOff && wr <= c.wrOff < rd
    case GrStoreRead(wr) => c.rdOff + c.skip == c.n && wr <= c.wrOff < c.rdOff
  }

  predicate SeekInv(c: Cells, g: Region, k: SeekPc) {
    0 < k.off <= g.len &&
    match k
    case SkLoadRead(_) => true
    case SkLoadWrite(_, rd) => rd == c.rdOff
    case SkLoadSkip(_, rd, wr) => rd == c.rdOff && wr <= c.wrOff < rd
    case SkStoreRead(off, rd) =>
      && rd < c.n
      && (rd == c.rdOff + off || (rd == 0 && c.wrOff < c.rdOff && c.rdOff + off + c.skip == c.n))
  }

  predicate ReaderSizeInv(c: Cells, z: SizePc) {
    match z
    case SzLoadRead => true
    case SzLoadWrite(rd, _) => rd == c.rdOff
    case SzLoadSkip(rd, wr, _, atWrite) =>
      rd == c.rdOff && wr <= c.wrOff < rd && atWrite == c.n - rd - c.skip + wr
  }

  predicate ReaderInv(c: Cells, r: Reader) {
    UnreadFrom(c, r.grant) &&
    match r.pc
    case RIdle => true
    case RGet(g) => r.grant.len == 0 && GetReadInv(c, g)
    case RSeek(k) => SeekInv(c, r.grant, k)
    case RSize(z) => ReaderSizeInv(c, z)
  }

  predicate Exact(answers: seq<(int, int)>) {
    forall k :: 0 <= k < |answers| ==> answers[k].0 == answers[k].1
  }

  predicate Inv(s: State) {
    && !s.fault && |s.buf| == s.c.n
    && CellsOk(s.c) && WriterInv(s.c, s.w) && ReaderInv(s.c, s.r)
    && s.committed == s.consumed + Data(s.c, s.buf)
    && Exact(s.wSizes) && Exact(s.rSizes)
  }

  // ------------------------------------------------------- rely and guarantee

  /** How one reader step may change the cells: advance, or wrap to 0. */
  predicate ReaderMove(c: Cells, c': Cells) {
    && c' == c.(rdOff := c'.rdOff)
    && (if c.rdOff <= c.wrOff then c.rdOff <= c'.rdOff <= c.wrOff
        else (c.rdOff <= c'.rdOff && c'.rdOff + c.skip <= c.n) || c'.rdOff == 0)
  }

  /** How one writer step may change the cells: advance, prepare read_skip while
      the reader cannot look at it, or wrap to 0 behind the reader. */
  predicate WriterMove(c: Cells, c': Cells) {
    && c' == c.(wrOff := c'.wrOff, skip := c'.skip)
    && (if c.wrOff < c.rdOff then c'.skip == c.skip && c.wrOff <= c'.wrOff < c.rdOff
        else c.wrOff <= c'.wrOff || (c'.wrOff == 0 < c.rdOff && c.wrOff + c'.skip <= c.n))
  }

  lemma WriterStable(c: Cells, c': Cells, w: Writer)
    requires CellsOk(c) && CellsOk(c') && WriterInv(c, w) && ReaderMove(c, c')
    ensures WriterInv(c', w)
  {
  }

  lemma ReaderStable(c: Cells, c': Cells, r: Reader)
    requires CellsOk(c) && CellsOk(c') && ReaderInv(c, r) && WriterMove(c, c')
    ensures ReaderInv(c', r)
  {
  }

  lemma GetWriteStepOk(c: Cells, g: GetWritePc)
    requires CellsOk(c) && GetWriteInv(c, g)
    ensures var o := GetWriteStep(c, g);
      && (o.At? || o.Granted?) && CellsOk(o.c) && WriterMove(c, o.c)
      && (o.At? ==> GetWriteInv(o.c, o.pc))
      && (o.Granted? ==> FreeFrom(o.c, o.region, o.c.rdOff))
  {
  }

  lemma FlushLoadsOk(c: Cells, g: Region, off: nat, rd: nat)
    requires CellsOk(c) && FreeFrom(c, g, c.rdOff) && FlushInv(c, g, FlLoadWrite(off, rd))
    ensures var o := FlushStep(c, FlLoadWrite(off, rd)); o.At? && o.c == c && FlushInv(c, g, o.pc)
  {
  }

  lemma FlushStepOk(c: Cells, g: Region, f: FlushPc)
    requires CellsOk(c) && FreeFrom(c, g, c.rdOff) && FlushInv(c, g, f)
    ensures var o := FlushStep(c, f);
      && (o.At? || o.Moved?) && CellsOk(o.c) && WriterMove(c, o.c)
      && (o.At? ==> FlushInv(o.c, g, o.pc) && FreeFrom(o.c, g, o.c.rdOff))
      && (o.Moved? ==> o.off <= g.len && FreeFrom(o.c, g.Drop(o.off), o.c.rdOff))
  {
    if f.FlLoadWrite? {
      FlushLoadsOk(c, g, f.off, f.rd);
    }
  }

  lemma WriterSizeStepOk(c: Cells, z: SizePc)
    requires CellsOk(c) && WriterSizeInv(c, z)
    ensures var o := SizeStep(c, z);
      && (o.At? || o.Answered?)
      && (o.At? ==> o.c == c && WriterSizeInv(o.c, o.pc))
      && (o.Answered? ==> o.value == o.atRead)
  {
  }

  lemma GetReadStepOk(c: Cells, g: GetReadPc)
    requires CellsOk(c) && GetReadInv(c, g)
    ensures var o := GetReadStep(c, g);
      && (o.At? || o.Granted?) && CellsOk(o.c) && ReaderMove(c, o.c)
      && (o.At? ==> GetReadInv(o.c, o.pc))
      && (o.Granted? ==> UnreadFrom(o.c, o.region))
  {
  }

  lemma SeekStepOk(c: Cells, g: Region, k: SeekPc)
    requires CellsOk(c) && UnreadFrom(c, g) && SeekInv(c, g, k)
    ensures var o := SeekStep(c, k);
      && (o.At? || o.Moved?) && CellsOk(o.c) && ReaderMove(c, o.c)
      && (o.At? ==> o.c == c && SeekInv(o.c, g, o.pc))
      && (o.Moved? ==> o.off <= g.len && UnreadFrom(o.c, g.Drop(o.off)))
  {
  }

  lemma ReaderSizeStepOk(c: Cells, z: SizePc)
    requires CellsOk(c) && ReaderSizeInv(c, z)
    ensures var o := SizeStep(c, z);
      && (o.At? || o.Answered?)
      && (o.At? ==> o.c == c && ReaderSizeInv(o.c, o.pc))
      && (o.Answered? ==> o.value == o.atWrite)
  {
  }

  // ------------------------------------------------------------- the byte stream

  lemma DataSize(c: Cells, buf: seq<Byte>)
    requires CellsOk(c) && |buf| == c.n
    ensures |Data(c, buf)| == Unread(c)
  {
  }

  /** A writer move that is not a flush leaves the unread bytes alone. */
  lemma GetWriteData(c: Cells, g: GetWritePc, buf: seq<Byte>)
    requires CellsOk(c) && |buf| == c.n && GetWriteInv(c, g)
    ensures var o := GetWriteStep(c, g); (o.At? || o.Granted?) && Data(o.c, buf) == Data(c, buf)
  {
    GetWriteStepOk(c, g);
    assert Bytes(buf, 0, 0) == [];
  }

  lemma FlushData(c: Cells, g: Region, f: FlushPc, buf: seq<Byte>)
    requires CellsOk(c) && |buf| == c.n && FreeFrom(c, g, c.rdOff) && FlushInv(c, g, f)
    ensures var o := FlushStep(c, f);
      && (o.At? ==> Data(o.c, buf) == Data(c, buf))
      && (o.Moved? ==> Data(o.c, buf) == Data(c, buf) + Bytes(buf, g.start, o.off))
  {
    FlushStepOk(c, g, f);
  }

  lemma GetReadData(c: Cells, g: GetReadPc, buf: seq<Byte>)
    requires CellsOk(c) && |buf| == c.n && GetReadInv(c, g)
    ensures var o := GetReadStep(c, g); (o.At? || o.Granted?) && Data(o.c, buf) == Data(c, buf)
  {
    GetReadStepOk(c, g);
  }

  lemma SeekData(c: Cells, g: Region, k: SeekPc, buf: seq<Byte>)
    requires CellsOk(c) && |buf| == c.n && UnreadFrom(c, g) && SeekInv(c, g, k)
    ensures var o := SeekStep(c, k);
      && (o.At? ==> Data(o.c, buf) == Data(c, buf))
      && (o.Moved? ==> Data(c, buf) == Bytes(buf, g.start, o.off) + Data(o.c, buf))
  {
    SeekStepOk(c, g, k);
  }

  /** Writing inside the write grant touches no unread byte. */
  lemma PutData(c: Cells, g: Region, buf: seq<Byte>, at: nat, value: Byte)
    requires CellsOk(c) && |buf| == c.n && FreeFrom(c, g, c.rdOff)
    requires g.start <= at < g.start + g.len && at < |buf|
    ensures Data(c, buf[at := value]) == Data(c, buf)
  {
  }

  // The next lemmas take the outcome as a parameter: what matters is the
  // guarantee the step gave, not how it was computed.

  lemma AfterGetWriteInv(s: State, o: Outcome<GetWritePc>)
    requires Inv(s) && s.w.grant.len == 0
    requires (o.At? || o.Granted?) && CellsOk(o.c) && WriterMove(s.c, o.c)
    requires o.At? ==> GetWriteInv(o.c, o.pc)
    requires o.Granted? ==> FreeFrom(o.c, o.region, o.c.rdOff)
    requires Data(o.c, s.buf) == Data(s.c, s.buf)
    ensures Inv(AfterGetWrite(s, o))
  {
    ReaderStable(s.c, o.c, s.r);
  }

  lemma AfterFlushInv(s: State, o: Outcome<FlushPc>)
    requires Inv(s)
    requires (o.At? || o.Moved?) && CellsOk(o.c) && WriterMove(s.c, o.c)
    requires o.At? ==> FlushInv(o.c, s.w.grant, o.pc) && FreeFrom(o.c, s.w.grant, o.c.rdOff)
    requires o.At? ==> Data(o.c, s.buf) == Data(s.c, s.buf)
    requires o.Moved? ==> FreeFrom(o.c, s.w.grant.Drop(o.off), o.c.rdOff)
    requires o.Moved? ==> Data(o.c, s.buf) == Data(s.c, s.buf) + Bytes(s.buf, s.w.grant.start, o.off)
    ensures Inv(AfterFlush(s, o))
  {
    hide Data, Bytes, ReaderInv, FlushInv, FreeFrom, CellsOk, Exact;
    ReaderStable(s.c, o.c, s.r);
    if o.Moved? {
      var bytes := Bytes(s.buf, s.w.grant.start, o.off);
      assert s.consumed + (Data(s.c, s.buf) + bytes) == (s.consumed + Data(s.c, s.buf)) + bytes;
    }
  }

  lemma AfterGetReadInv(s: State, o: Outcome<GetReadPc>)
    requires Inv(s) && s.r.grant.len == 0
    requires (o.At? || o.Granted?) && CellsOk(o.c) && ReaderMove(s.c, o.c)
    requires o.At? ==> GetReadInv(o.c, o.pc)
    requires o.Granted? ==> UnreadFrom(o.c, o.region)
    requires Data(o.c, s.buf) == Data(s.c, s.buf)
    ensures Inv(AfterGetRead(s, o))
  {
    WriterStable(s.c, o.c, s.w);
  }

  lemma AfterSeekInv(s: State, o: Outcome<SeekPc>)
    requires Inv(s)
    requires (o.At? || o.Moved?) && CellsOk(o.c) && ReaderMove(s.c, o.c)
    requires o.At? ==> o.c == s.c && SeekInv(o.c, s.r.grant, o.pc)
    requires o.Moved? ==> UnreadFrom(o.c, s.r.grant.Drop(o.off))
    requires o.Moved? ==> Data(s.c, s.buf) == Bytes(s.buf, s.r.grant.start, o.off) + Data(o.c, s.buf)
    ensures Inv(AfterSeek(s, o))
  {
    hide Data, Bytes, WriterInv, SeekInv, UnreadFrom, CellsOk, Exact;
    WriterStable(s.c, o.c, s.w);
    if o.Moved? {
      var bytes := Bytes(s.buf, s.r.grant.start, o.off);
      assert s.consumed + (bytes + Data(o.c, s.buf)) == (s.consumed + bytes) + Data(o.c, s.buf);
    }
  }

  lemma AfterWriterSizeInv(s: State, o: Outcome<SizePc>)
    requires Inv(s)
    requires o.At? || (o.Answered? && o.value == o.atRead)
    requires o.At? ==> o.c == s.c && WriterSizeInv(o.c, o.pc)
    ensures Inv(AfterWriterSize(s, o))
  {
  }

  lemma AfterReaderSizeInv(s: State, o: Outcome<SizePc>)
    requires Inv(s)
    requires o.At? || (o.Answered? && o.value == o.atWrite)
    requires o.At? ==> o.c == s.c && ReaderSizeInv(o.c, o.pc)
    ensures Inv(AfterReaderSize(s, o))
  {
  }

  lemma WriterStepInv(s: State)
    requires Inv(s)
    ensures Inv(WriterStep(s))
  {
    hide GetWriteStep, FlushStep, SizeStep, AfterGetWrite, AfterFlush, AfterWriterSize,
      Data, GetWriteInv, FlushInv, ReaderInv;
    match s.w.pc
    case WIdle =>
    case WGet(g) =>
      GetWriteStepOk(s.c, g);
      GetWriteData(s.c, g, s.buf);
      AfterGetWriteInv(s, GetWriteStep(s.c, g));
    case WFlush(f) =>
      FlushStepOk(s.c, s.w.grant, f);
      FlushData(s.c, s.w.grant, f, s.buf);
      AfterFlushInv(s, FlushStep(s.c, f));
    case WSize(z) =>
      WriterSizeStepOk(s.c, z);
      AfterWriterSizeInv(s, SizeStep(s.c, z));
  }

  lemma ReaderStepInv(s: State)
    requires Inv(s)
    ensures Inv(ReaderStep(s))
  {
    hide GetReadStep, SeekStep, SizeStep, AfterGetRead, AfterSeek, AfterReaderSize,
      Data, GetReadInv, SeekInv, WriterInv;
    match s.r.pc
    case RIdle =>
    case RGet(g) =>
      GetReadStepOk(s.c, g);
      GetReadData(s.c, g, s.buf);
      AfterGetReadInv(s, GetReadStep(s.c, g));
    case RSeek(k) =>
      SeekStepOk(s.c, s.r.grant, k);
      SeekData(s.c, s.r.grant, k, s.buf);
      AfterSeekInv(s, SeekStep(s.c, k));
    case RSize(z) =>
      ReaderSizeStepOk(s.c, z);
      AfterReaderSizeInv(s, SizeStep(s.c, z));
  }

  lemma StepInv(s: State, a: Action)
    requires Inv(s)
    ensures Inv(Step(s, a))
  {
    if Allowed(s, a) {
      match a
      case WStep => WriterStepInv(s);
      case RStep => ReaderStepInv(s);
      case WPut(at, value) => PutData(s.c, s.w.grant, s.buf, at, value);
      case _ =>
    }
  }

  // ----------------------------------------------------------------- the theorems

  lemma {:induction false} RunInv(memory: seq<Byte>, acts: seq<Action>)
    requires |memory| > 0
    ensures Inv(Run(Init(memory), acts))
    decreases |acts|
  {
    if acts != [] {
      RunInv(memory, acts[..|acts| - 1]);
      StepInv(Run(Init(memory), acts[..|acts| - 1]), acts[|acts| - 1]);
    }
  }

  /** No loss, no duplication, no reordering: in every interleaving the consumed
      bytes are a prefix of the committed ones, and what lies between is exactly
      the unread data. No AM_ASSERT fails and every data_size answer is exact. */
  lemma StreamSafety(memory: seq<Byte>, acts: seq<Action>)
    requires |memory| > 0
    ensures var s := Run(Init(memory), acts);
      && !s.fault
      && s.consumed <= s.committed
      && s.committed[|s.consumed|..] == Data(s.c, s.buf)
      && Exact(s.wSizes) && Exact(s.rSizes)
  {
    RunInv(memory, acts);
  }

  predicate Inside(g: Region, n: nat) { g.len == 0 || g.start + g.len <= n }

  predicate Disjoint(g: Region, h: Region) {
    g.len == 0 || h.len == 0 || g.start + g.len <= h.start || h.start + h.len <= g.start
  }

  /** At every moment both grants lie inside the buffer and do not overlap, and
      the read grant holds the next bytes of the committed stream. */
  lemma GrantSafety(memory: seq<Byte>, acts: seq<Action>)
    requires |memory| > 0
    ensures var s := Run(Init(memory), acts);
      && Inside(s.w.grant, |s.buf|) && Inside(s.r.grant, |s.buf|)
      && Disjoint(s.w.grant, s.r.grant)
      && s.consumed + Bytes(s.buf, s.r.grant.start, s.r.grant.len) <= s.committed
      && (s.r.grant.len > 0 ==> |Bytes(s.buf, s.r.grant.start, s.r.grant.len)| == s.r.grant.len)
  {
    RunInv(memory, acts);
  }

  /** No writer action changes a byte behind the reader's pointer, and no reader
      action takes memory away from the writer. */
  lemma GrantsAreStable(s: State, a: Action)
    requires Inv(s)
    ensures a.ByWriter() ==>
      && Step(s, a).r == s.r
      && Bytes(Step(s, a).buf, s.r.grant.start, s.r.grant.len) == Bytes(s.buf, s.r.grant.start, s.r.grant.len)
    ensures !a.ByWriter() ==> Step(s, a).w == s.w && Step(s, a).buf == s.buf
  {
  }
}
