/** am_ringbuf_get_free_size loads read_skip before the offsets. That is harmless
    in the writer's context and not in the reader's. */
module RingFreeSize {
  import opened RingProtocol
  import opened RingSafety
  import opened RingBuffer

  datatype Free = Fails | Size(value: int)

  /** The answer, or the failed AM_ASSERT, for the values its three loads saw. */
  function FreeSize(n: nat, skip: nat, rd: nat, wr: nat): Free {
    if wr >= rd then Size(n - 1 - wr + rd)
    else if rd == n - skip then Size(n - wr - 1)
    else if rd < n - skip then Size(rd - wr - 1)
    else Fails
  }

  /** The cells at successive moments while only the writer, or only the reader, runs. */
  predicate WriterRun(cells: seq<Cells>) {
    && cells != [] && (forall i :: 0 <= i < |cells| ==> CellsOk(cells[i]))
    && forall i :: 0 <= i < |cells| - 1 ==> WriterMove(cells[i], cells[i + 1])
  }

  predicate ReaderRun(cells: seq<Cells>) {
    && cells != [] && (forall i :: 0 <= i < |cells| ==> CellsOk(cells[i]))
    && forall i :: 0 <= i < |cells| - 1 ==> ReaderMove(cells[i], cells[i + 1])
  }

  lemma {:induction false} WriterRunKeeps(cells: seq<Cells>, k: nat)
    requires WriterRun(cells) && k < |cells|
    ensures cells[k].n == cells[0].n && cells[k].rdOff == cells[0].rdOff
    ensures cells[0].wrOff < cells[0].rdOff ==> cells[k].wrOff < cells[0].rdOff && cells[k].skip == cells[0].skip
  {
    if k > 0 {
      WriterRunKeeps(cells, k - 1);
      assert WriterMove(cells[k - 1], cells[k - 1 + 1]);
    }
  }

  lemma {:induction false} ReaderRunKeeps(cells: seq<Cells>, k: nat)
    requires ReaderRun(cells) && k < |cells|
    ensures cells[k] == cells[0].(rdOff := cells[k].rdOff)
  {
    if k > 0 {
      ReaderRunKeeps(cells, k - 1);
      assert ReaderMove(cells[k - 1], cells[k - 1 + 1]);
    }
  }

  /** The reader only makes room. */
  lemma {:induction false} ReaderRunFrees(cells: seq<Cells>, b: nat, c: nat)
    requires ReaderRun(cells) && b <= c < |cells|
    ensures 0 <= Unread(cells[c]) <= Unread(cells[b])
  {
    if b < c {
      ReaderRunFrees(cells, b, c - 1);
      assert ReaderMove(cells[c - 1], cells[c - 1 + 1]);
    }
  }

  /** In the writer's context the assertion holds whatever the reader does between
      the loads, and no more is answered than what is free at the end of the call,
      one byte always being kept. The answer is what was free when read_offset was
      loaded, less the bytes skipped at the end while the reader is before them. */
  lemma WriterMayAsk(cells: seq<Cells>, b: nat, c: nat)
    requires ReaderRun(cells) && b <= c < |cells|
    ensures var r := FreeSize(cells[0].n, cells[0].skip, cells[b].rdOff, cells[c].wrOff);
      var at := cells[b];
      && r.Size? && 0 <= r.value <= cells[c].n - 1 - Unread(cells[c])
      && r.value == at.n - 1 - Unread(at) - if at.wrOff < at.rdOff && at.rdOff + at.skip < at.n then at.skip else 0
  {
    ReaderRunFrees(cells, b, c);
    ReaderRunKeeps(cells, b);
    ReaderRunKeeps(cells, c);
  }

  /** In the reader's context it fails exactly when read_skip was loaded before the
      writer wrapped, a stale one too large for where the reader stands. */
  lemma ReaderMayNot(cells: seq<Cells>, b: nat, c: nat)
    requires WriterRun(cells) && b <= c < |cells|
    ensures
      var at, rd := cells[0], cells[0].rdOff;
      FreeSize(at.n, at.skip, cells[b].rdOff, cells[c].wrOff).Fails? <==>
      rd <= at.wrOff && rd + at.skip > at.n && cells[c].wrOff < rd
  {
    WriterRunKeeps(cells, b);
    WriterRunKeeps(cells, c);
  }

  const C0 := Cells(10, 0, 0, 0)
  const C1 := Cells(10, 0, 5, 0)
  const C2 := Cells(10, 5, 5, 0)
  const C3 := Cells(10, 5, 0, 5)
  const C4 := Cells(10, 0, 0, 5)
  const C5 := Cells(10, 0, 8, 5)
  const C6 := Cells(10, 7, 8, 5)
  const C7 := Cells(10, 7, 0, 2)

  lemma FirstLap()
    ensures GetWriteCall(C0, GwLoadRead(5)) == Granted(C0, Region(0, 9))
    ensures FlushCall(C0, FlLoadRead(5)) == Moved(C1, 5)
    ensures GetReadCall(C1, GrLoadRead) == Granted(C1, Region(0, 5))
    ensures SeekCall(C1, SkLoadRead(5)) == Moved(C2, 5)
  {
    hide GetWriteCall, FlushCall, GetReadCall, SeekCall;
    GetWriteUnfold(C0, 5);
    FlushUnfold(C0, 5);
    GetReadUnfold(C1);
    SeekUnfold(C1, 5);
  }

  lemma EarlyWrap()
    ensures GetWriteCall(C2, GwLoadRead(6)) == Granted(C3, NoRegion)
    ensures GetReadCall(C3, GrLoadRead) == Granted(C4, Region(0, 0))
  {
    GetWriteUnfold(C2, 6);
    GetReadUnfold(C3);
  }

  lemma SecondLap()
    ensures GetWriteCall(C4, GwLoadRead(8)) == Granted(C4, Region(0, 9))
    ensures FlushCall(C4, FlLoadRead(8)) == Moved(C5, 8)
    ensures GetReadCall(C5, GrLoadRead) == Granted(C5, Region(0, 8))
    ensures SeekCall(C5, SkLoadRead(7)) == Moved(C6, 7)
  {
    hide GetWriteCall, FlushCall, GetReadCall, SeekCall;
    GetWriteUnfold(C4, 8);
    FlushUnfold(C4, 8);
    GetReadUnfold(C5);
    SeekUnfold(C5, 7);
  }

  lemma SecondWrap()
    ensures GetWriteCall(C6, GwLoadRead(5)) == Granted(C7, Region(0, 6))
  {
    GetWriteUnfold(C6, 5);
  }

  /** Calls on a new buffer of 10 bytes after which the reader's question fails if
      the writer's last request comes between its loads. */
  lemma FreeSizeFails()
    ensures GetWriteCall(C0, GwLoadRead(5)).Granted? && FlushCall(C0, FlLoadRead(5)) == Moved(C1, 5)
    ensures SeekCall(C1, SkLoadRead(5)) == Moved(C2, 5)
    ensures GetWriteCall(C2, GwLoadRead(6)) == Granted(C3, NoRegion)
    ensures GetReadCall(C3, GrLoadRead) == Granted(C4, Region(0, 0))
    ensures FlushCall(C4, FlLoadRead(8)) == Moved(C5, 8) && SeekCall(C5, SkLoadRead(7)) == Moved(C6, 7)
    ensures GetWriteCall(C6, GwLoadRead(5)) == Granted(C7, Region(0, 6))
    ensures FreeSize(10, C6.skip, C6.rdOff, C7.wrOff) == Fails
  {
    hide GetWriteCall, FlushCall, GetReadCall, SeekCall;
    FirstLap();
    EarlyWrap();
    SecondLap();
    SecondWrap();
  }
}
