/** COBS with zero pair elimination: what a sequence of code blocks stands for, and
    what the encoder of libs/cobszpe makes of a source. */
module CobsSpec {

  type Byte = x: int | 0 <= x < 256

  const ZEROLESS_MAX: nat := 223

  // ------------------------------------------------------------------- the format

  /** The data bytes that follow a code. */
  function DataLength(code: Byte): nat
    requires code > 0
  {
    if code <= ZEROLESS_MAX then code - 1
    else if code == ZEROLESS_MAX + 1 then ZEROLESS_MAX
    else code - (ZEROLESS_MAX + 2)
  }

  /** The zeros a code stands for: one, none after a full block, or a pair. */
  function Zeros(code: Byte): seq<Byte>
    requires code > 0
  {
    if code <= ZEROLESS_MAX then [0] else if code == ZEROLESS_MAX + 1 then [] else [0, 0]
  }

  /** What an encoded message stands for: its blocks up to the first zero code. */
  function Expand(s: seq<Byte>): seq<Byte> {
    if s == [] || s[0] == 0 || |s| < 1 + DataLength(s[0]) then []
    else
      var n := DataLength(s[0]);
      s[1..1 + n] + Zeros(s[0]) + Expand(s[1 + n..])
  }

  // ------------------------------------------------------------------ the encoder

  datatype Block = Block(code: Byte, data: seq<Byte>)

  /** `data` is the block being filled, so the encoder's `code` is |data| + 1;
      `pending` is zero_cnt == 1 and `finished` is block_finished. */
  datatype Encoder = Encoder(blocks: seq<Block>, data: seq<Byte>, pending: bool, finished: bool)

  const Fresh := Encoder([], [], false, false)

  /** AM_FINISH_BLOCK */
  function Close(e: Encoder, code: Byte): Encoder {
    Encoder(e.blocks + [Block(code, e.data)], [], false, true)
  }

  /** One turn of the loop for the next source byte. */
  function Feed(e: Encoder, b: Byte): Encoder
    requires |e.data| < ZEROLESS_MAX && (e.pending ==> |e.data| < 31)
  {
    if b != 0 then
      var e1 := if e.pending then Close(e, |e.data| + 1) else e.(finished := false);
      var e2 := e1.(data := e1.data + [b]);
      if |e2.data| == ZEROLESS_MAX then Close(e2, ZEROLESS_MAX + 1) else e2
    else if |e.data| + 1 >= 255 - ZEROLESS_MAX then Close(e, |e.data| + 1)
    else if !e.pending then e.(pending := true, finished := false)
    else Close(e, |e.data| + 1 + ZEROLESS_MAX + 1)
  }

  ghost predicate Ok(e: Encoder) {
    && |e.data| < ZEROLESS_MAX && (e.pending ==> |e.data| < 31)
    && 0 !in e.data
    && forall k :: 0 <= k < |e.blocks| ==> BlockOk(e.blocks[k])
  }

  predicate BlockOk(b: Block) { b.code > 0 && |b.data| == DataLength(b.code) && 0 !in b.data }

  function FeedAll(src: seq<Byte>): (e: Encoder)
    ensures Ok(e)
  {
    if src == [] then Fresh else Feed(FeedAll(src[..|src| - 1]), src[|src| - 1])
  }

  function Flat(blocks: seq<Block>): seq<Byte> {
    if blocks == [] then []
    else Flat(blocks[..|blocks| - 1]) + [blocks[|blocks| - 1].code] + blocks[|blocks| - 1].data
  }

  /** The tail of am_cobszpe_encode. */
  function Finish(e: Encoder): seq<Byte>
    requires |e.data| < ZEROLESS_MAX
  {
    if e.finished then Flat(e.blocks) + [0] + e.data
    else Flat(e.blocks) + [|e.data| + 1] + e.data + [0]
  }

  function Encode(src: seq<Byte>): seq<Byte> { Finish(FeedAll(src)) }

  // --------------------------------------------------------------------- round trip

  function Plain(blocks: seq<Block>): seq<Byte>
    requires forall k :: 0 <= k < |blocks| ==> BlockOk(blocks[k])
  {
    if blocks == [] then []
    else
      assert BlockOk(blocks[|blocks| - 1]);
      Plain(blocks[..|blocks| - 1]) + blocks[|blocks| - 1].data + Zeros(blocks[|blocks| - 1].code)
  }

  lemma ExpandBlock(b: Block, rest: seq<Byte>)
    requires BlockOk(b)
    ensures Expand([b.code] + b.data + rest) == b.data + Zeros(b.code) + Expand(rest)
  {
    var s := [b.code] + b.data + rest;
    assert s[1..1 + |b.data|] == b.data && s[1 + |b.data|..] == rest;
  }

  lemma FlatSnoc(blocks: seq<Block>, b: Block)
    ensures Flat(blocks + [b]) == Flat(blocks) + ([b.code] + b.data)
  {
    assert (blocks + [b])[..|blocks|] == blocks;
    assert Flat(blocks) + [b.code] + b.data == Flat(blocks) + ([b.code] + b.data);
  }

  lemma PlainSnoc(blocks: seq<Block>, b: Block)
    requires BlockOk(b) && forall k :: 0 <= k < |blocks| ==> BlockOk(blocks[k])
    ensures Plain(blocks + [b]) == Plain(blocks) + (b.data + Zeros(b.code))
  {
    assert (blocks + [b])[..|blocks|] == blocks;
    assert Plain(blocks) + b.data + Zeros(b.code) == Plain(blocks) + (b.data + Zeros(b.code));
  }

  lemma Assoc(a: seq<Byte>, b: seq<Byte>, c: seq<Byte>)
    ensures (a + b) + c == a + (b + c)
  {
  }

  lemma {:induction false} ExpandFlat(blocks: seq<Block>, rest: seq<Byte>)
    requires forall k :: 0 <= k < |blocks| ==> BlockOk(blocks[k])
    ensures Expand(Flat(blocks) + rest) == Plain(blocks) + Expand(rest)
    decreases |blocks|
  {
    hide Expand, Zeros, DataLength;
    if blocks == [] {
      assert Flat(blocks) + rest == rest && Plain(blocks) + Expand(rest) == Expand(rest);
    } else {
      var n := |blocks| - 1;
      ExpandSnoc(blocks[..n], blocks[n], rest);
      ExpandFlat(blocks[..n], [blocks[n].code] + blocks[n].data + rest);
      assert blocks == blocks[..n] + [blocks[n]];
    }
  }

  /** One more block, given that the theorem holds of the blocks before it. */
  lemma ExpandSnoc(blocks: seq<Block>, b: Block, rest: seq<Byte>)
    requires BlockOk(b) && forall k :: 0 <= k < |blocks| ==> BlockOk(blocks[k])
    ensures var tail := [b.code] + b.data + rest;
      Expand(Flat(blocks) + tail) == Plain(blocks) + Expand(tail) ==>
      Expand(Flat(blocks + [b]) + rest) == Plain(blocks + [b]) + Expand(rest)
  {
    hide Expand, Flat, Plain, Zeros, DataLength;
    FlatSnoc(blocks, b);
    PlainSnoc(blocks, b);
    ExpandBlock(b, rest);
    Assoc(Flat(blocks), [b.code] + b.data, rest);
    Assoc(Plain(blocks), b.data + Zeros(b.code), Expand(rest));
  }

  /** The source read so far. */
  ghost function Taken(e: Encoder): seq<Byte>
    requires Ok(e)
  {
    Plain(e.blocks) + e.data + if e.pending then [0] else []
  }

  lemma CloseTaken(e: Encoder, code: Byte)
    requires Ok(e) && BlockOk(Block(code, e.data))
    ensures Ok(Close(e, code)) && Taken(Close(e, code)) == Plain(e.blocks) + e.data + Zeros(code)
  {
    PlainSnoc(e.blocks, Block(code, e.data));
    Assoc(Plain(e.blocks), e.data, Zeros(code));
    assert Plain(Close(e, code).blocks) + [] + [] == Plain(Close(e, code).blocks);
  }

  lemma StoreTaken(e: Encoder, b: Byte)
    requires Ok(e) && !e.pending && b != 0
    ensures Ok(Feed(e, b)) && Taken(Feed(e, b)) == Taken(e) + [b]
  {
    var data := e.data + [b];
    if |data| == ZEROLESS_MAX {
      PlainSnoc(e.blocks, Block(ZEROLESS_MAX + 1, data));
      assert data + [] == data;
    }
    assert Plain(e.blocks) + data == Plain(e.blocks) + e.data + [b];
  }

  lemma FeedTaken(e: Encoder, b: Byte)
    requires Ok(e)
    ensures Ok(Feed(e, b)) && Taken(Feed(e, b)) == Taken(e) + [b]
  {
    hide Plain;
    var d := |e.data|;
    if b != 0 {
      if e.pending {
        CloseTaken(e, d + 1);
        StoreTaken(Close(e, d + 1), b);
        assert Feed(e, b) == Feed(Close(e, d + 1), b).(finished := Feed(e, b).finished);
      } else {
        StoreTaken(e, b);
      }
    } else if d + 1 >= 255 - ZEROLESS_MAX {
      CloseTaken(e, d + 1);
    } else if e.pending {
      CloseTaken(e, d + 1 + ZEROLESS_MAX + 1);
      assert Plain(e.blocks) + e.data + [0, 0] == Plain(e.blocks) + e.data + [0] + [0];
    }
  }

  lemma {:induction false} FeedAllTaken(src: seq<Byte>)
    ensures Taken(FeedAll(src)) == src
  {
    if src != [] {
      FeedAllTaken(src[..|src| - 1]);
      FeedTaken(FeedAll(src[..|src| - 1]), src[|src| - 1]);
    }
  }

  /** The source ends in a nonzero byte that comes right after a zero the encoder
      still holds back. */
  predicate Swallowed(src: seq<Byte>)
    requires src != []
  {
    src[|src| - 1] != 0 && FeedAll(src[..|src| - 1]).pending
  }

  lemma EndState(src: seq<Byte>)
    requires src != []
    ensures var e := FeedAll(src);
      && (Swallowed(src) ==> e.finished && e.data == [src[|src| - 1]] && !e.pending)
      && (!Swallowed(src) && e.finished ==> e.data == [] && !e.pending)
      && (e.pending ==> src[|src| - 1] == 0)
      && (!e.finished ==> e.pending || src[|src| - 1] != 0)
  {
  }

  /** The encoder loses nothing unless the source ends so: then what it wrote
      stands for the source without its last byte. Otherwise it stands for the
      source, or for the source and one more zero when the last block was left
      open by a nonzero byte. */
  lemma RoundTrip(src: seq<Byte>)
    requires src != []
    ensures Swallowed(src) ==> Expand(Encode(src)) == src[..|src| - 1]
    ensures !Swallowed(src) ==>
      Expand(Encode(src)) == if src[|src| - 1] == 0 || FeedAll(src).finished then src else src + [0]
  {
    hide FeedAll, Plain, Flat, Expand, Taken, Finish, Swallowed;
    var e := FeedAll(src);
    FeedAllTaken(src);
    EndState(src);
    TakenCases(e);
    if e.finished {
      FinishClosed(e);
      if Swallowed(src) {
        assert Plain(e.blocks) == (Plain(e.blocks) + e.data)[..|src| - 1];
      } else {
        assert Plain(e.blocks) + e.data == Plain(e.blocks);
      }
    } else {
      FinishOpen(e);
    }
  }

  lemma TakenCases(e: Encoder)
    requires Ok(e)
    ensures Taken(e) == if e.pending then Plain(e.blocks) + e.data + [0] else Plain(e.blocks) + e.data
  {
  }

  lemma FinishClosed(e: Encoder)
    requires Ok(e) && e.finished
    ensures Expand(Finish(e)) == Plain(e.blocks)
  {
    hide Flat, Plain, Expand;
    ExpandFlat(e.blocks, [0] + e.data);
    ExpandEnd(e.data);
    Assoc(Flat(e.blocks), [0], e.data);
  }

  lemma FinishOpen(e: Encoder)
    requires Ok(e) && !e.finished
    ensures Expand(Finish(e)) == Plain(e.blocks) + e.data + [0]
  {
    hide Flat, Plain, Expand;
    var b := Block(|e.data| + 1, e.data);
    ExpandFlat(e.blocks, [b.code] + b.data + [0]);
    ExpandBlock(b, [0]);
    ExpandEnd([]);
    assert Finish(e) == Flat(e.blocks) + ([b.code] + b.data + [0]);
    assert Plain(e.blocks) + (b.data + [0] + []) == Plain(e.blocks) + e.data + [0];
  }

  lemma ExpandEnd(rest: seq<Byte>)
    ensures Expand([0] + rest) == []
    ensures Expand([0]) == []
  {
  }

  lemma RoundTripIff(src: seq<Byte>)
    requires src != []
    ensures Expand(Encode(src)) == src || Expand(Encode(src)) == src + [0] <==> !Swallowed(src)
  {
    RoundTrip(src);
  }

  lemma {:induction false} FlatNoZero(blocks: seq<Block>)
    requires forall k :: 0 <= k < |blocks| ==> BlockOk(blocks[k])
    ensures 0 !in Flat(blocks)
  {
    if blocks != [] {
      FlatNoZero(blocks[..|blocks| - 1]);
      assert BlockOk(blocks[|blocks| - 1]);
    }
  }

  /** The output ends in its only zero byte exactly when nothing is swallowed. */
  lemma OnlyZeroLast(src: seq<Byte>)
    requires src != []
    ensures var s := Encode(src);
      s != [] && ((0 !in s[..|s| - 1] && s[|s| - 1] == 0) <==> !Swallowed(src))
  {
    var e, s := FeedAll(src), Encode(src);
    EndState(src);
    FlatNoZero(e.blocks);
    if Swallowed(src) {
      assert s[|s| - 1] == src[|src| - 1];
    } else if e.finished {
      assert s[..|s| - 1] == Flat(e.blocks);
    } else {
      assert s[..|s| - 1] == Flat(e.blocks) + [|e.data| + 1] + e.data;
    }
  }

  // --------------------------------------------------- which sources lose a byte

  predicate AllNonzero(s: seq<Byte>) { 0 !in s }

  function ZerosRun(n: nat): seq<Byte> { seq(n, _ => 0) }

  lemma {:induction false} DataAfterRun(pre: seq<Byte>, run: seq<Byte>)
    requires pre == [] || pre[|pre| - 1] == 0
    requires AllNonzero(run) && (run == [] ==> pre == [])
    ensures var e := FeedAll(pre + run); !e.pending && |e.data| == |run| % ZEROLESS_MAX
  {
    hide Feed, FeedAll;
    if run == [] {
      assert pre + run == [];
      FeedNone();
    } else {
      var n := |run| - 1;
      assert pre + run == (pre + run[..n]) + [run[n]];
      FeedAllSnoc(pre + run[..n], run[n]);
      StoreCount(FeedAll(pre + run[..n]), run[n]);
      if n > 0 {
        DataAfterRun(pre, run[..n]);
      } else {
        assert pre + run[..n] == pre;
        if pre != [] {
          EmptyOrPending(pre);
        } else {
          FeedNone();
        }
      }
    }
  }

  lemma FeedNone()
    ensures FeedAll([]) == Fresh
  {
  }

  lemma FeedAllSnoc(src: seq<Byte>, b: Byte)
    ensures FeedAll(src + [b]) == Feed(FeedAll(src), b)
  {
    assert (src + [b])[..|src|] == src;
  }

  lemma StoreCount(e: Encoder, b: Byte)
    requires Ok(e) && b != 0
    ensures var e' := Feed(e, b);
      !e'.pending && |e'.data| == if e.pending then 1 else if |e.data| + 1 == ZEROLESS_MAX then 0 else |e.data| + 1
  {
  }

  /** After a zero the block is empty, or the zero is held back. */
  lemma EmptyOrPending(src: seq<Byte>)
    requires src != [] && src[|src| - 1] == 0
    ensures FeedAll(src).pending || FeedAll(src).data == []
  {
  }

  lemma {:induction false} PendingAfterZeros(pre: seq<Byte>, z: nat)
    requires !FeedAll(pre).pending && z > 0
    ensures var e := FeedAll(pre + ZerosRun(z));
      (e.pending <==> ((z % 2 == 1) == (|FeedAll(pre).data| < 31)))
      && (!e.pending ==> e.data == [])
  {
    hide FeedAll;
    assert pre + ZerosRun(z) == (pre + ZerosRun(z - 1)) + [0];
    FeedAllSnoc(pre + ZerosRun(z - 1), 0);
    if z > 1 {
      PendingAfterZeros(pre, z - 1);
    } else {
      assert pre + ZerosRun(0) == pre;
    }
  }

  /** A source ending in r nonzero bytes, z zeros and one nonzero byte is swallowed
      exactly when z is odd and r, not counting full blocks, is below 31, or
      neither. */
  lemma SwallowedWhen(pre: seq<Byte>, run: seq<Byte>, z: nat, last: Byte)
    requires pre == [] || pre[|pre| - 1] == 0
    requires AllNonzero(run) && (run == [] ==> pre == []) && last != 0 && z > 0
    ensures Swallowed(pre + run + ZerosRun(z) + [last]) <==> ((z % 2 == 1) == (|run| % ZEROLESS_MAX < 31))
  {
    DataAfterRun(pre, run);
    PendingAfterZeros(pre + run, z);
    var src := pre + run + ZerosRun(z) + [last];
    assert src[..|src| - 1] == pre + run + ZerosRun(z);
  }

  /** A source of one byte, or that ends in a zero or in two nonzero bytes, is not swallowed. */
  lemma NotSwallowed(src: seq<Byte>)
    requires src != []
    requires |src| == 1 || src[|src| - 1] == 0 || src[|src| - 2] != 0
    ensures !Swallowed(src)
  {
    if |src| > 1 && src[|src| - 1] != 0 {
      EndState(src[..|src| - 1]);
    }
  }

  /** {0, 5} is encoded as if it were {0}. */
  lemma ZeroFive()
    ensures Encode([0, 5]) == [1, 0, 5] && Expand(Encode([0, 5])) == [0]
  {
    hide FeedAll, Feed, Flat, Plain, Expand;
    assert [] + [0] == [0] && [0] + [5] == [0, 5];
    FeedNone();
    FeedAllSnoc([], 0);
    FeedAllSnoc([0], 5);
    ZeroFiveFed();
    FlatSnoc([], Block(1, []));
    RoundTrip([0, 5]);
    assert [0, 5][..1] == [0];
  }

  lemma ZeroFiveFed()
    ensures Feed(Fresh, 0) == Encoder([], [], true, false)
    ensures Feed(Encoder([], [], true, false), 5) == Encoder([] + [Block(1, [])], [5], false, true)
    ensures Flat([]) == []
  {
  }

  // ------------------------------------------------------------------------- size

  function Full(blocks: seq<Block>): nat {
    if blocks == [] then 0
    else Full(blocks[..|blocks| - 1]) + if blocks[|blocks| - 1].code == ZEROLESS_MAX + 1 then 1 else 0
  }

  /** n bytes and a code for every 223 of them, or part of it, and the final zero. */
  function MaxSize(n: nat): nat { n + (n + ZEROLESS_MAX - 1) / ZEROLESS_MAX + 1 }

  /** AM_COBSZPE_ENCODED_SIZE_FOR */
  function MacroSize(n: nat): nat { n + (n + ZEROLESS_MAX) / (ZEROLESS_MAX + 1) + 1 }

  /** Only full blocks make the output longer than what they stand for. */
  lemma {:induction false} FlatSize(blocks: seq<Block>)
    requires forall k :: 0 <= k < |blocks| ==> BlockOk(blocks[k])
    ensures |Flat(blocks)| <= |Plain(blocks)| + Full(blocks)
    ensures ZEROLESS_MAX * Full(blocks) <= |Plain(blocks)|
  {
    if blocks != [] {
      FlatSize(blocks[..|blocks| - 1]);
      assert BlockOk(blocks[|blocks| - 1]);
    }
  }

  lemma SizeBound(src: seq<Byte>)
    requires src != []
    ensures 0 < |Encode(src)| <= MaxSize(|src|)
  {
    var e := FeedAll(src);
    FeedAllTaken(src);
    EndState(src);
    FlatSize(e.blocks);
    TakenCases(e);
  }

  /** Nonzero bytes only need the most room. */
  lemma {:induction false} NonzeroBlocks(src: seq<Byte>)
    requires AllNonzero(src)
    ensures var e := FeedAll(src);
      && !e.pending && |Flat(e.blocks)| + |e.data| == |src| + |src| / ZEROLESS_MAX
      && |e.data| == |src| % ZEROLESS_MAX
      && (src != [] ==> (e.finished <==> e.data == []))
  {
    if src != [] {
      var n := |src| - 1;
      NonzeroBlocks(src[..n]);
      var d, e := FeedAll(src[..n]), FeedAll(src);
      assert e == Feed(d, src[n]);
      if e.blocks != d.blocks {
        assert e.blocks[..|e.blocks| - 1] == d.blocks;
      }
    }
  }

  lemma NonzeroSize(src: seq<Byte>)
    requires src != [] && AllNonzero(src)
    ensures |Encode(src)| == MaxSize(|src|)
  {
    NonzeroBlocks(src);
  }

  /** The size the header computes is enough for every source of n bytes exactly
      when rounding up by 224 instead of 223 makes no difference. */
  lemma MacroEnough(n: nat)
    requires n > 0
    ensures (forall src: seq<Byte> :: |src| == n ==> |Encode(src)| <= MacroSize(n))
       <==> (n + ZEROLESS_MAX - 1) / ZEROLESS_MAX == (n + ZEROLESS_MAX) / (ZEROLESS_MAX + 1)
  {
    var ones: seq<Byte> := seq(n, _ => 1);
    NonzeroSize(ones);
    forall src: seq<Byte> | |src| == n
      ensures |Encode(src)| <= MaxSize(n)
    {
      SizeBound(src);
    }
    assert |Encode(ones)| == MaxSize(n);
  }

  /** One byte too few for 224 nonzero bytes. */
  lemma MacroTooSmall(src: seq<Byte>)
    requires |src| == 224 && AllNonzero(src)
    ensures |Encode(src)| == MacroSize(224) + 1
  {
    NonzeroSize(src);
  }

  // ---------------------------------------------------------------- the blocks chosen

  /** At the beginning of a block. */
  predicate AtStart(e: Encoder) { e.data == [] && !e.pending }

  /** One block more, and at the beginning of the next. */
  function Next(e: Encoder, b: Block): Encoder { Encoder(e.blocks + [b], [], false, true) }

  lemma StoreOne(e: Encoder, b: Byte)
    requires b != 0 && !e.pending && |e.data| + 1 < ZEROLESS_MAX
    ensures Feed(e, b) == Encoder(e.blocks, e.data + [b], false, false)
  {
  }

  /** A block's worth of nonzero bytes is being filled. */
  lemma {:induction false} Filling(src: seq<Byte>, run: seq<Byte>)
    requires AtStart(FeedAll(src)) && AllNonzero(run) && |run| < ZEROLESS_MAX
    ensures var e := FeedAll(src + run);
      e.blocks == FeedAll(src).blocks && e.data == run && !e.pending && (run != [] ==> !e.finished)
    decreases |run|
  {
    hide Feed, FeedAll;
    if run == [] {
      assert src + run == src;
    } else {
      var n := |run| - 1;
      Filling(src, run[..n]);
      assert src + run == src + run[..n] + [run[n]] && run[..n] + [run[n]] == run;
      FeedAllSnoc(src + run[..n], run[n]);
      StoreOne(FeedAll(src + run[..n]), run[n]);
    }
  }

  /** From the beginning of a block, up to 30 nonzero bytes and a pair of zeros become one
      block with the pair in its code. */
  lemma PairBlock(src: seq<Byte>, run: seq<Byte>)
    requires AtStart(FeedAll(src)) && AllNonzero(run) && |run| <= 30
    ensures FeedAll(src + run + [0, 0]) == Next(FeedAll(src), Block(|run| + 225, run))
  {
    hide FeedAll;
    Filling(src, run);
    FeedAllSnoc(src + run, 0);
    FeedAllSnoc(src + run + [0], 0);
    assert src + run + [0] + [0] == src + run + [0, 0];
  }

  /** More, up to 222, and one zero become a block with that zero. */
  lemma ZeroBlock(src: seq<Byte>, run: seq<Byte>)
    requires AtStart(FeedAll(src)) && AllNonzero(run) && 30 < |run| <= 222
    ensures FeedAll(src + run + [0]) == Next(FeedAll(src), Block(|run| + 1, run))
  {
    hide FeedAll;
    Filling(src, run);
    FeedAllSnoc(src + run, 0);
  }

  /** 223 nonzero bytes become a block with none. */
  lemma FullBlock(src: seq<Byte>, run: seq<Byte>)
    requires AtStart(FeedAll(src)) && AllNonzero(run) && |run| == 223
    ensures FeedAll(src + run) == Next(FeedAll(src), Block(224, run))
  {
    hide FeedAll;
    Filling(src, run[..222]);
    FeedAllSnoc(src + run[..222], run[222]);
    assert src + run == src + run[..222] + [run[222]] && run[..222] + [run[222]] == run;
  }

  /** Zeros in pairs are halved, which is what the pair codes are for. */
  lemma {:induction false} ZerosHalve(k: nat)
    requires k > 0
    ensures |Encode(ZerosRun(2 * k))| == k + 1
  {
    HalvedBlocks(k);
  }

  lemma {:induction false} HalvedBlocks(k: nat)
    ensures var e := FeedAll(ZerosRun(2 * k)); AtStart(e) && |Flat(e.blocks)| == k && (k > 0 ==> e.finished)
  {
    if k == 0 {
      FeedNone();
      assert ZerosRun(0) == [];
    } else {
      HalvedBlocks(k - 1);
      var src := ZerosRun(2 * (k - 1));
      PairBlock(src, []);
      assert src + [] + [0, 0] == ZerosRun(2 * k);
      FlatSnoc(FeedAll(src).blocks, Block(225, []));
    }
  }
}
