/** am_cobszpe_encode on its two buffers, proved to write what CobsSpec says. */
module Cobs {
  import opened CobsSpec

  /** The destination holds the finished blocks, room for a code at codePtr, and
      the data of the block being filled. */
  ghost predicate Holds(to: seq<Byte>, codePtr: nat, dst: nat, blocks: seq<Block>, data: seq<Byte>) {
    && codePtr < dst <= |to|
    && to[..codePtr] == Flat(blocks) && to[codePtr + 1..dst] == data
  }

  /** Nothing is written from `at` on. */
  ghost predicate Kept(now: seq<Byte>, was: seq<Byte>, at: nat) {
    |now| == |was| && forall i :: at <= i < |now| ==> now[i] == was[i]
  }

  /** The writes of AM_FINISH_BLOCK. */
  method FinishBlock(to: array<Byte>, codePtr: nat, dst: nat, code: Byte,
                     ghost blocks: seq<Block>, ghost data: seq<Byte>)
    returns (nextPtr: nat, nextDst: nat)
    requires Holds(to[..], codePtr, dst, blocks, data) && dst < to.Length
    modifies to
    ensures nextPtr == dst && nextDst == dst + 1
    ensures Holds(to[..], nextPtr, nextDst, blocks + [Block(code, data)], [])
    ensures Kept(to[..], old(to[..]), dst)
  {
    ghost var was := to[..];
    to[codePtr] := code;
    assert to[..] == was[codePtr := code];
    assert to[..dst] == was[..codePtr] + [code] + was[codePtr + 1..dst];
    assert (blocks + [Block(code, data)])[..|blocks|] == blocks;
    nextPtr := dst;
    nextDst := dst + 1;
  }

  method Store(to: array<Byte>, codePtr: nat, dst: nat, b: Byte, ghost blocks: seq<Block>, ghost data: seq<Byte>)
    requires Holds(to[..], codePtr, dst, blocks, data) && dst < to.Length
    modifies to
    ensures Holds(to[..], codePtr, dst + 1, blocks, data + [b])
    ensures Kept(to[..], old(to[..]), dst + 1)
  {
    ghost var was := to[..];
    to[dst] := b;
    assert to[..] == was[dst := b];
    assert to[..][codePtr + 1..dst + 1] == was[codePtr + 1..dst] + [b];
    assert to[..][..codePtr] == was[..codePtr];
  }

  /** Where the encoder writes next. */
  ghost function Position(e: Encoder): nat { |Flat(e.blocks)| + 1 + |e.data| }

  /** How far one source byte moves the encoder. */
  lemma Advance(e: Encoder, b: Byte)
    requires Ok(e)
    ensures Position(Feed(e, b)) == Position(e) +
      if b != 0 then 1 + (if e.pending then 1 else 0) + (if Feed(e, b).data == [] then 1 else 0)
      else if Feed(e, b).pending then 0 else 1
  {
    if b != 0 {
      var e1 := if e.pending then Close(e, |e.data| + 1) else e;
      FlatSnoc(e.blocks, Block(|e.data| + 1, e.data));
      FlatSnoc(e1.blocks, Block(ZEROLESS_MAX + 1, e1.data + [b]));
    } else {
      FlatSnoc(e.blocks, Block(|e.data| + 1, e.data));
      if e.pending {
        FlatSnoc(e.blocks, Block(|e.data| + 1 + ZEROLESS_MAX + 1, e.data));
      }
    }
  }

  /** The local variables of am_cobszpe_encode. */
  datatype Locals = Locals(dst: nat, codePtr: nat, code: Byte, zeroCnt: nat, blockFinished: bool)

  /** They and the destination describe the encoder's state. */
  ghost predicate At(to: seq<Byte>, l: Locals, e: Encoder) {
    && Holds(to, l.codePtr, l.dst, e.blocks, e.data) && l.dst == Position(e)
    && l.code == |e.data| + 1 && l.blockFinished == e.finished
    && l.zeroCnt == if e.pending then 1 else 0
  }

  /** AM_FINISH_BLOCK */
  method Finished(to: array<Byte>, l: Locals, code: Byte, ghost e: Encoder) returns (next: Locals)
    requires Holds(to[..], l.codePtr, l.dst, e.blocks, e.data) && l.dst == Position(e) < to.Length
    modifies to
    ensures At(to[..], next, Close(e, code)) && next.dst == l.dst + 1 && Kept(to[..], old(to[..]), l.dst)
  {
    var codePtr, dst := FinishBlock(to, l.codePtr, l.dst, code, e.blocks, e.data);
    FlatSnoc(e.blocks, Block(code, e.data));
    next := Locals(dst, codePtr, 1, 0, true);
  }

  /** The turn of the loop for a nonzero byte. */
  method Nonzero(to: array<Byte>, l: Locals, b: Byte, ghost e: Encoder) returns (next: Locals)
    requires Ok(e) && At(to[..], l, e) && b != 0 && Position(Feed(e, b)) <= to.Length
    modifies to
    ensures At(to[..], next, Feed(e, b)) && next.dst >= l.dst && Kept(to[..], old(to[..]), next.dst)
  {
    hide Flat, Holds;
    Advance(e, b);
    ghost var e1 := if e.pending then Close(e, |e.data| + 1) else e.(finished := false);
    next := l.(blockFinished := false);
    if next.zeroCnt > 0 {
      next := Finished(to, next, next.code, e);
    }
    assert At(to[..], next, e1);
    Store(to, next.codePtr, next.dst, b, e1.blocks, e1.data);
    next := next.(dst := next.dst + 1, code := next.code + 1);
    if ZEROLESS_MAX + 1 == next.code {
      next := Finished(to, next, next.code, e1.(data := e1.data + [b]));
    }
  }

  /** The turn of the loop for a zero. */
  method Zero(to: array<Byte>, l: Locals, ghost e: Encoder) returns (next: Locals)
    requires Ok(e) && At(to[..], l, e) && Position(Feed(e, 0)) <= to.Length
    modifies to
    ensures At(to[..], next, Feed(e, 0)) && next.dst >= l.dst && Kept(to[..], old(to[..]), next.dst)
  {
    hide Flat, Holds;
    Advance(e, 0);
    next := l.(blockFinished := false, zeroCnt := l.zeroCnt + 1);
    if next.code >= 255 - ZEROLESS_MAX {
      next := Finished(to, next, next.code, e);
    } else if next.zeroCnt >= 2 {
      next := Finished(to, next, next.code + ZEROLESS_MAX + 1, e);
    }
  }

  /** What follows the loop. */
  method Tail(to: array<Byte>, l: Locals, ghost e: Encoder) returns (size: nat)
    requires Ok(e) && At(to[..], l, e) && |Finish(e)| <= to.Length
    modifies to
    ensures size <= to.Length && to[..size] == Finish(e) && size >= l.dst && Kept(to[..], old(to[..]), size)
  {
    hide Flat;
    ghost var was := to[..];
    Parts(was, l.codePtr, l.dst);
    if l.blockFinished {
      to[l.codePtr] := 0;
      size := l.dst;
      Parts(to[..], l.codePtr, l.dst);
      assert to[..l.codePtr] == was[..l.codePtr] && to[l.codePtr + 1..l.dst] == was[l.codePtr + 1..l.dst];
    } else {
      to[l.codePtr] := l.code;
      to[l.dst] := 0;
      size := l.dst + 1;
      Parts(to[..], l.codePtr, l.dst);
      assert to[..l.codePtr] == was[..l.codePtr] && to[l.codePtr + 1..l.dst] == was[l.codePtr + 1..l.dst];
      assert to[..size] == to[..l.dst] + [0];
    }
  }

  lemma Parts(s: seq<Byte>, at: nat, end: nat)
    requires at < end <= |s|
    ensures s[..end] == s[..at] + [s[at]] + s[at + 1..end]
  {
  }

  lemma FeedNext(src: seq<Byte>, i: nat)
    requires i < |src|
    ensures FeedAll(src[..i + 1]) == Feed(FeedAll(src[..i]), src[i])
  {
    assert src[..i + 1][..i] == src[..i];
  }

  /** The encoder never stands beyond what it will have written in the end. */
  lemma {:induction false} Room(src: seq<Byte>, i: nat)
    requires i <= |src|
    ensures Position(FeedAll(src[..i])) <= |CobsSpec.Encode(src)|
    decreases |src| - i
  {
    if i == |src| {
      assert src[..i] == src;
    } else {
      FeedNext(src, i);
      Advance(FeedAll(src[..i]), src[i]);
      Room(src, i + 1);
    }
  }

  /** am_cobszpe_encode, given the room it needs and no more. */
  method Encode(to: array<Byte>, from: array<Byte>) returns (size: nat)
    requires to != from && from.Length > 0 && to.Length >= |CobsSpec.Encode(from[..])|
    modifies to
    ensures size == |CobsSpec.Encode(from[..])| && to[..size] == CobsSpec.Encode(from[..])
    ensures Kept(to[..], old(to[..]), size)
  {
    ghost var e, was := Fresh, to[..];
    var l := Locals(1, 0, 1, 0, false);
    assert from[..0] == [];
    Room(from[..], 0);
    for src := 0 to from.Length
      invariant e == FeedAll(from[..src]) && At(to[..], l, e)
      invariant Kept(to[..], was, l.dst)
    {
      hide FeedAll, Holds, Position, Finish;
      FeedNext(from[..], src);
      Room(from[..], src + 1);
      var b := from[src];
      ghost var next := Feed(e, b);
      if b != 0 {
        l := Nonzero(to, l, b, e);
      } else {
        l := Zero(to, l, e);
      }
      e := next;
    }
    assert from[..from.Length] == from[..];
    size := Tail(to, l, e);
  }
}
