/** The loops of libs/crc. Each computes the remainder CrcSpec defines, whatever
    its seed has above the width of the check. unsigned int has 32 bits and
    unsigned long 64. */
module Crc {
  import opened CrcSpec
  import opened CrcTables

  /** "123456789" */
  const DIGITS: seq<bv8> := [0x31, 0x32, 0x33, 0x34, 0x35, 0x36, 0x37, 0x38, 0x39]

  lemma Next(p: bv32, r: bv32, data: seq<bv8>, n: nat)
    requires n < |data|
    ensures CrcSpec.Crc(p, r, data[..n + 1]) == ByteStep(p, CrcSpec.Crc(p, r, data[..n]), data[n])
  {
    hide ByteStep;
    assert data[..n + 1][..n] == data[..n];
  }

  lemma Empty(p: bv32, r: bv32, data: seq<bv8>)
    ensures CrcSpec.Crc(p, r, data[..0]) == r
  {
  }

  function Low8(x: bv32): bv32 { x & 0xFF }

  function Byte(x: bv32): bv8 { (x & 0xFF) as bv8 }

  /** The low half of an unsigned long, and an unsigned int as one. */
  function Low(x: bv64): bv32 { (x & 0xFFFF_FFFF) as bv32 }

  function Wide(x: bv32): bv64 { x as bv64 }

  lemma LowWide(x: bv32)
    ensures Low(Wide(x)) == x
  {
  }

  lemma ByteLow(x: bv32)
    ensures Widen(Byte(x)) == Low8(x)
  {
  }

  // ------------------------------------------------------------------------ crc16

  function Index16(c: bv32): bv32 { c >> 8 }

  /** What is left of the register under its top byte. */
  function Rest16(c: bv32): bv32 { (c & 0xFF) << 16 }

  /** The register after one turn of the loop in crc16. */
  function Next16(c: bv32, b: bv8): bv32 {
    Xor(Shift8(c), Crc16Lookup(Byte(Xor(Index16(c), Widen(b)))))
  }

  lemma RawSplit16(c: bv32, w: bv32)
    requires w < 0x100
    ensures (c << 16) ^ (w << 24) == ((((c >> 8) ^ w) & 0xFF) << 24) ^ ((c & 0xFF) << 16)
  {
  }

  lemma Split16(c: bv32, w: bv32)
    requires w < 0x100
    ensures Xor(Align16(c), Up(w)) == Xor(Up(Low8(Xor(Index16(c), w))), Rest16(c))
  {
    RawSplit16(c, w);
    calc {
      Xor(Align16(c), Up(w));
      Xor(c << 16, w << 24);
      (c << 16) ^ (w << 24);
      ((((c >> 8) ^ w) & 0xFF) << 24) ^ ((c & 0xFF) << 16);
      Xor((((c >> 8) ^ w) & 0xFF) << 24, (c & 0xFF) << 16);
      Xor(Up(Low8(Xor(Index16(c), w))), Rest16(c));
    }
  }

  lemma Low16(c: bv32)
    ensures Rest16(c) < 0x100_0000
  {
  }

  function Joined16(c: bv32, t: bv32): bv32 { (t << 16) ^ (((c & 0xFF) << 16) << 8) }

  lemma JoinLeft16(c: bv32, t: bv32)
    ensures Xor(Align16(t), Shift8(Rest16(c))) == Joined16(c, t)
  {
    calc {
      Xor(Align16(t), Shift8(Rest16(c)));
      Xor(t << 16, ((c & 0xFF) << 16) << 8);
      (t << 16) ^ (((c & 0xFF) << 16) << 8);
    }
  }

  lemma RawJoin16(c: bv32, t: bv32)
    ensures (t << 16) ^ (((c & 0xFF) << 16) << 8) == ((c << 8) ^ t) << 16
  {
  }

  lemma JoinRight16(c: bv32, t: bv32)
    ensures Align16(Xor(Shift8(c), t)) == Joined16(c, t)
  {
    calc {
      Align16(Xor(Shift8(c), t));
      Align16((c << 8) ^ t);
      ((c << 8) ^ t) << 16;
      { RawJoin16(c, t); }
      (t << 16) ^ (((c & 0xFF) << 16) << 8);
    }
  }

  lemma Leave16(c: bv32, t: bv32)
    ensures Xor(Align16(t), Shift8(Rest16(c))) == Align16(Xor(Shift8(c), t))
  {
    hide *;
    JoinLeft16(c, t);
    JoinRight16(c, t);
  }

  /** The table looks up what eight steps of the division do. */
  lemma Turn16(c: bv32, b: bv8)
    ensures Align16(Next16(c, b)) == ByteStep(POLY16, Align16(c), b)
  {
    hide Xor, Up, Step8, Byte, Low8, Widen, Index16, Rest16, Align16, Shift8, Crc16Lookup;
    var x := Xor(Index16(c), Widen(b));
    var i := Byte(x);
    WidenByte(b);
    ByteLow(x);
    Split16(c, Widen(b));
    Step8Linear(POLY16, Top(i), Rest16(c));
    Low16(c);
    LowStep8(POLY16, Rest16(c));
    Table16(i);
    Leave16(c, Crc16Lookup(i));
  }

  lemma LoopIndex16(c: bv32, w: bv32)
    ensures (c >> 8) ^ w == Xor(Index16(c), w)
  {
  }

  lemma LoopNext16(c: bv32, t: bv32)
    ensures (c << 8) ^ t == Xor(Shift8(c), t)
  {
  }

  method Update16(c: bv32, b: bv8) returns (next: bv32)
    ensures Align16(next) == ByteStep(POLY16, Align16(c), b)
  {
    hide Xor, Shift8, Index16, Byte, Widen, Align16, ByteStep, Crc16Lookup;
    Turn16(c, b);
    LoopIndex16(c, Widen(b));
    var idx := Byte((c >> 8) ^ Widen(b));
    LoopNext16(c, Crc16Lookup(idx));
    next := (c << 8) ^ Crc16Lookup(idx);
  }

  /** What crc16 answers. */
  function Crc16Of(data: seq<bv8>, seed: bv32): bv32 {
    Back16(Crc(POLY16, Align16(seed), data))
  }

  function Back16(r: bv32): bv32 { r >> 16 }

  lemma BackAlign16(r: bv32)
    ensures Back16(Align16(r)) == r & 0xFFFF
    ensures Fits(POLY16, Align16(r))
    ensures Fits(POLY16, r) ==> Align16(Back16(r)) == r
  {
  }

  method Crc16(data: seq<bv8>, crc: bv32) returns (r: bv32)
    requires data != []
    ensures r == Crc16Of(data, crc) && r == r & 0xFFFF
  {
    hide ByteStep, CrcSpec.Crc, Align16;
    var c := crc;
    Empty(POLY16, Align16(crc), data);
    for i := 0 to |data|
      invariant Align16(c) == CrcSpec.Crc(POLY16, Align16(crc), data[..i])
    {
      Next(POLY16, Align16(crc), data, i);
      c := Update16(c, data[i]);
    }
    Masked16(c);
    assert data[..|data|] == data;
    r := c & 0xFFFF;
  }

  lemma Masked16(c: bv32)
    ensures c & 0xFFFF == Back16(Align16(c))
  {
  }

  /** A message checked in chunks, each seeded with the check so far, has the
      check of the whole. */
  lemma Chunked16(a: seq<bv8>, b: seq<bv8>, seed: bv32)
    ensures Crc16Of(b, Crc16Of(a, seed)) == Crc16Of(a + b, seed)
  {
    hide Crc, Align16, Back16, Fits;
    var s := Align16(seed);
    Chunks(POLY16, s, a, b);
    BackAlign16(seed);
    CrcFits(POLY16, s, a);
    BackAlign16(Crc(POLY16, s, a));
  }

  /** Two messages of one length that differ only inside a window of 2 bytes have
      different checks. */
  lemma Detects16(seed: bv32, before: seq<bv8>, a: seq<bv8>, b: seq<bv8>, rest: seq<bv8>)
    requires |a| == |b| <= 2 && a != b
    ensures Crc16Of(before + a + rest, seed) != Crc16Of(before + b + rest, seed)
  {
    hide Crc, Align16, Back16, Fits;
    var s := Align16(seed);
    WindowDetected(POLY16, s, before, a, b, rest);
    BackAlign16(seed);
    CrcFits(POLY16, s, before + a + rest);
    CrcFits(POLY16, s, before + b + rest);
    BackAlign16(Crc(POLY16, s, before + a + rest));
    BackAlign16(Crc(POLY16, s, before + b + rest));
  }

  // ------------------------------------------------------------------------ crc24

  function Index24(c: bv32): bv32 { c >> 16 }

  /** What is left of the register under its top byte. */
  function Rest24(c: bv32): bv32 { (c & 0xFFFF) << 8 }

  /** The register after one turn of the loop in crc24. */
  function Next24(c: bv32, b: bv8): bv32 {
    Xor(Shift8(c), Crc24Lookup(Byte(Xor(Index24(c), Widen(b)))))
  }

  lemma RawSplit24(c: bv32, w: bv32)
    requires w < 0x100
    ensures (c << 8) ^ (w << 24) == ((((c >> 16) ^ w) & 0xFF) << 24) ^ ((c & 0xFFFF) << 8)
  {
  }

  lemma Split24(c: bv32, w: bv32)
    requires w < 0x100
    ensures Xor(Align24(c), Up(w)) == Xor(Up(Low8(Xor(Index24(c), w))), Rest24(c))
  {
    RawSplit24(c, w);
    calc {
      Xor(Align24(c), Up(w));
      Xor(c << 8, w << 24);
      (c << 8) ^ (w << 24);
      ((((c >> 16) ^ w) & 0xFF) << 24) ^ ((c & 0xFFFF) << 8);
      Xor((((c >> 16) ^ w) & 0xFF) << 24, (c & 0xFFFF) << 8);
      Xor(Up(Low8(Xor(Index24(c), w))), Rest24(c));
    }
  }

  lemma Low24(c: bv32)
    ensures Rest24(c) < 0x100_0000
  {
  }

  function Joined24(c: bv32, t: bv32): bv32 { (t << 8) ^ (((c & 0xFFFF) << 8) << 8) }

  lemma JoinLeft24(c: bv32, t: bv32)
    ensures Xor(Align24(t), Shift8(Rest24(c))) == Joined24(c, t)
  {
    calc {
      Xor(Align24(t), Shift8(Rest24(c)));
      Xor(t << 8, ((c & 0xFFFF) << 8) << 8);
      (t << 8) ^ (((c & 0xFFFF) << 8) << 8);
    }
  }

  lemma RawJoin24(c: bv32, t: bv32)
    ensures (t << 8) ^ (((c & 0xFFFF) << 8) << 8) == ((c << 8) ^ t) << 8
  {
  }

  lemma JoinRight24(c: bv32, t: bv32)
    ensures Align24(Xor(Shift8(c), t)) == Joined24(c, t)
  {
    calc {
      Align24(Xor(Shift8(c), t));
      Align24((c << 8) ^ t);
      ((c << 8) ^ t) << 8;
      { RawJoin24(c, t); }
      (t << 8) ^ (((c & 0xFFFF) << 8) << 8);
    }
  }

  lemma Leave24(c: bv32, t: bv32)
    ensures Xor(Align24(t), Shift8(Rest24(c))) == Align24(Xor(Shift8(c), t))
  {
    hide *;
    JoinLeft24(c, t);
    JoinRight24(c, t);
  }

  /** The table looks up what eight steps of the division do. */
  lemma Turn24(c: bv32, b: bv8)
    ensures Align24(Next24(c, b)) == ByteStep(POLY24, Align24(c), b)
  {
    hide Xor, Up, Step8, Byte, Low8, Widen, Index24, Rest24, Align24, Shift8, Crc24Lookup;
    var x := Xor(Index24(c), Widen(b));
    var i := Byte(x);
    WidenByte(b);
    ByteLow(x);
    Split24(c, Widen(b));
    Step8Linear(POLY24, Top(i), Rest24(c));
    Low24(c);
    LowStep8(POLY24, Rest24(c));
    Table24(i);
    Leave24(c, Crc24Lookup(i));
  }

  /** The bits of the unsigned long above the low half do not matter. */
  lemma LoopIndex24(c: bv64, b: bv8)
    ensures Byte(Low((c >> 16) ^ Wide(Widen(b)))) == Byte(Xor(Index24(Low(c)), Widen(b)))
  {
  }

  lemma LoopNext24(c: bv64, t: bv32)
    ensures Low((c << 8) ^ Wide(t)) == Xor(Shift8(Low(c)), t)
  {
  }

  method Update24(c: bv64, b: bv8) returns (next: bv64)
    ensures Align24(Low(next)) == ByteStep(POLY24, Align24(Low(c)), b)
  {
    hide Xor, Shift8, Index24, Byte, Widen, Low, Wide, Align24, ByteStep, Crc24Lookup;
    Turn24(Low(c), b);
    LoopIndex24(c, b);
    var idx := Byte(Low((c >> 16) ^ Wide(Widen(b))));
    LoopNext24(c, Crc24Lookup(idx));
    next := (c << 8) ^ Wide(Crc24Lookup(idx));
  }

  /** What crc24 answers. */
  function Crc24Of(data: seq<bv8>, seed: bv64): bv64 {
    Wide(Back24(Crc(POLY24, Align24(Low(seed)), data)))
  }

  function Back24(r: bv32): bv32 { r >> 8 }

  lemma BackAlign24(r: bv32)
    ensures Back24(Align24(r)) == r & 0xFF_FFFF
    ensures Fits(POLY24, Align24(r))
    ensures Fits(POLY24, r) ==> Align24(Back24(r)) == r
  {
  }

  method Crc24(data: seq<bv8>, crc: bv64) returns (r: bv64)
    requires data != []
    ensures r == Crc24Of(data, crc) && r == r & 0xFF_FFFF
  {
    hide ByteStep, CrcSpec.Crc, Align24, Low;
    var c := crc;
    Empty(POLY24, Align24(Low(crc)), data);
    for i := 0 to |data|
      invariant Align24(Low(c)) == CrcSpec.Crc(POLY24, Align24(Low(crc)), data[..i])
    {
      Next(POLY24, Align24(Low(crc)), data, i);
      c := Update24(c, data[i]);
    }
    Masked24(c);
    assert data[..|data|] == data;
    r := c & 0xFF_FFFF;
  }

  lemma Masked24(c: bv64)
    ensures c & 0xFF_FFFF == Wide(Back24(Align24(Low(c))))
  {
  }

  /** A message checked in chunks, each seeded with the check so far, has the
      check of the whole. */
  lemma Chunked24(a: seq<bv8>, b: seq<bv8>, seed: bv64)
    ensures Crc24Of(b, Crc24Of(a, seed)) == Crc24Of(a + b, seed)
  {
    hide Crc, Align24, Back24, Fits, Low, Wide;
    LowWide(Back24(Crc(POLY24, Align24(Low(seed)), a)));
    var s := Align24(Low(seed));
    Chunks(POLY24, s, a, b);
    BackAlign24(Low(seed));
    CrcFits(POLY24, s, a);
    BackAlign24(Crc(POLY24, s, a));
  }

  /** Two messages of one length that differ only inside a window of 3 bytes have
      different checks. */
  lemma Detects24(seed: bv64, before: seq<bv8>, a: seq<bv8>, b: seq<bv8>, rest: seq<bv8>)
    requires |a| == |b| <= 3 && a != b
    ensures Crc24Of(before + a + rest, seed) != Crc24Of(before + b + rest, seed)
  {
    hide Crc, Align24, Back24, Fits, Low, Wide;
    LowWide(Back24(Crc(POLY24, Align24(Low(seed)), before + a + rest)));
    LowWide(Back24(Crc(POLY24, Align24(Low(seed)), before + b + rest)));
    var s := Align24(Low(seed));
    WindowDetected(POLY24, s, before, a, b, rest);
    BackAlign24(Low(seed));
    CrcFits(POLY24, s, before + a + rest);
    CrcFits(POLY24, s, before + b + rest);
    BackAlign24(Crc(POLY24, s, before + a + rest));
    BackAlign24(Crc(POLY24, s, before + b + rest));
  }

  lemma CheckSteps24()
    ensures ByteStep(POLY24, 0x00000000, 0x31) == 0x4FD39B00
    ensures ByteStep(POLY24, 0x4FD39B00, 0x32) == 0xB78C9100
    ensures ByteStep(POLY24, 0xB78C9100, 0x33) == 0x2C304500
    ensures ByteStep(POLY24, 0x2C304500, 0x34) == 0x548AB000
    ensures ByteStep(POLY24, 0x548AB000, 0x35) == 0x198EC000
    ensures ByteStep(POLY24, 0x198EC000, 0x36) == 0xBCEFC700
    ensures ByteStep(POLY24, 0xBCEFC700, 0x37) == 0x71986B00
    ensures ByteStep(POLY24, 0x71986B00, 0x38) == 0xA6051000
    ensures ByteStep(POLY24, 0xA6051000, 0x39) == 0xCDE70300
  {
  }

  /** The check value crc.h gives for the digits 1 to 9. */
  lemma CheckValue24()
    ensures Crc24Of(DIGITS, 0x0) == 0xCDE703
  {
    hide ByteStep, CrcSpec.Crc, Low, Wide, Align24, Back24;
    CheckSteps24();
    CheckSeed24();
    Empty(POLY24, 0x00000000, DIGITS);
    Next(POLY24, 0x00000000, DIGITS, 0);
    Next(POLY24, 0x00000000, DIGITS, 1);
    Next(POLY24, 0x00000000, DIGITS, 2);
    Next(POLY24, 0x00000000, DIGITS, 3);
    Next(POLY24, 0x00000000, DIGITS, 4);
    Next(POLY24, 0x00000000, DIGITS, 5);
    Next(POLY24, 0x00000000, DIGITS, 6);
    Next(POLY24, 0x00000000, DIGITS, 7);
    Next(POLY24, 0x00000000, DIGITS, 8);
    assert DIGITS[..9] == DIGITS;
  }

  lemma CheckSeed24()
    ensures Align24(Low(0x0)) == 0x00000000 && Wide(Back24(0xCDE70300)) == 0xCDE703
  {
  }

  // ------------------------------------------------------------------------ crc32

  function Index32(c: bv32): bv32 { c >> 24 }

  /** What is left of the register under its top byte. */
  function Rest32(c: bv32): bv32 { c & 0xFF_FFFF }

  /** The register after one turn of the loop in crc32. */
  function Next32(c: bv32, b: bv8): bv32 {
    Xor(Shift8(c), Crc32Lookup(Byte(Xor(Index32(c), Widen(b)))))
  }

  lemma RawSplit32(c: bv32, w: bv32)
    requires w < 0x100
    ensures c ^ (w << 24) == ((((c >> 24) ^ w) & 0xFF) << 24) ^ (c & 0xFF_FFFF)
  {
  }

  lemma Split32(c: bv32, w: bv32)
    requires w < 0x100
    ensures Xor(Align32(c), Up(w)) == Xor(Up(Low8(Xor(Index32(c), w))), Rest32(c))
  {
    RawSplit32(c, w);
    calc {
      Xor(Align32(c), Up(w));
      Xor(c, w << 24);
      c ^ (w << 24);
      ((((c >> 24) ^ w) & 0xFF) << 24) ^ (c & 0xFF_FFFF);
      Xor((((c >> 24) ^ w) & 0xFF) << 24, c & 0xFF_FFFF);
      Xor(Up(Low8(Xor(Index32(c), w))), Rest32(c));
    }
  }

  lemma Low32(c: bv32)
    ensures Rest32(c) < 0x100_0000
  {
  }

  function Joined32(c: bv32, t: bv32): bv32 { t ^ ((c & 0xFF_FFFF) << 8) }

  lemma JoinLeft32(c: bv32, t: bv32)
    ensures Xor(Align32(t), Shift8(Rest32(c))) == Joined32(c, t)
  {
    calc {
      Xor(Align32(t), Shift8(Rest32(c)));
      Xor(t, (c & 0xFF_FFFF) << 8);
      t ^ ((c & 0xFF_FFFF) << 8);
    }
  }

  lemma RawJoin32(c: bv32, t: bv32)
    ensures t ^ ((c & 0xFF_FFFF) << 8) == (c << 8) ^ t
  {
  }

  lemma JoinRight32(c: bv32, t: bv32)
    ensures Align32(Xor(Shift8(c), t)) == Joined32(c, t)
  {
    calc {
      Align32(Xor(Shift8(c), t));
      Align32((c << 8) ^ t);
      (c << 8) ^ t;
      { RawJoin32(c, t); }
      t ^ ((c & 0xFF_FFFF) << 8);
    }
  }

  lemma Leave32(c: bv32, t: bv32)
    ensures Xor(Align32(t), Shift8(Rest32(c))) == Align32(Xor(Shift8(c), t))
  {
    hide *;
    JoinLeft32(c, t);
    JoinRight32(c, t);
  }

  /** The table looks up what eight steps of the division do. */
  lemma Turn32(c: bv32, b: bv8)
    ensures Align32(Next32(c, b)) == ByteStep(POLY32, Align32(c), b)
  {
    hide Xor, Up, Step8, Byte, Low8, Widen, Index32, Rest32, Align32, Shift8, Crc32Lookup;
    var x := Xor(Index32(c), Widen(b));
    var i := Byte(x);
    WidenByte(b);
    ByteLow(x);
    Split32(c, Widen(b));
    Step8Linear(POLY32, Top(i), Rest32(c));
    Low32(c);
    LowStep8(POLY32, Rest32(c));
    Table32(i);
    Leave32(c, Crc32Lookup(i));
  }

  /** The bits of the unsigned long above the low half do not matter. */
  lemma LoopIndex32(c: bv64, b: bv8)
    ensures Byte(Low((c >> 24) ^ Wide(Widen(b)))) == Byte(Xor(Index32(Low(c)), Widen(b)))
  {
  }

  lemma LoopNext32(c: bv64, t: bv32)
    ensures Low((c << 8) ^ Wide(t)) == Xor(Shift8(Low(c)), t)
  {
  }

  method Update32(c: bv64, b: bv8) returns (next: bv64)
    ensures Align32(Low(next)) == ByteStep(POLY32, Align32(Low(c)), b)
  {
    hide Xor, Shift8, Index32, Byte, Widen, Low, Wide, Align32, ByteStep, Crc32Lookup;
    Turn32(Low(c), b);
    LoopIndex32(c, b);
    var idx := Byte(Low((c >> 24) ^ Wide(Widen(b))));
    LoopNext32(c, Crc32Lookup(idx));
    next := (c << 8) ^ Wide(Crc32Lookup(idx));
  }

  /** What crc32 answers. */
  function Crc32Of(data: seq<bv8>, seed: bv64): bv64 {
    Wide(Back32(Crc(POLY32, Align32(Low(seed)), data)))
  }

  function Back32(r: bv32): bv32 { r }

  lemma BackAlign32(r: bv32)
    ensures Back32(Align32(r)) == r & 0xFFFF_FFFF
    ensures Fits(POLY32, Align32(r))
    ensures Fits(POLY32, r) ==> Align32(Back32(r)) == r
  {
  }

  method Crc32(data: seq<bv8>, crc: bv64) returns (r: bv64)
    requires data != []
    ensures r == Crc32Of(data, crc) && r == r & 0xFFFF_FFFF
  {
    hide ByteStep, CrcSpec.Crc, Align32, Low;
    var c := crc;
    Empty(POLY32, Align32(Low(crc)), data);
    for i := 0 to |data|
      invariant Align32(Low(c)) == CrcSpec.Crc(POLY32, Align32(Low(crc)), data[..i])
    {
      Next(POLY32, Align32(Low(crc)), data, i);
      c := Update32(c, data[i]);
    }
    Masked32(c);
    assert data[..|data|] == data;
    r := c & 0xFFFF_FFFF;
  }

  lemma Masked32(c: bv64)
    ensures c & 0xFFFF_FFFF == Wide(Back32(Align32(Low(c))))
  {
  }

  /** A message checked in chunks, each seeded with the check so far, has the
      check of the whole. */
  lemma Chunked32(a: seq<bv8>, b: seq<bv8>, seed: bv64)
    ensures Crc32Of(b, Crc32Of(a, seed)) == Crc32Of(a + b, seed)
  {
    hide Crc, Align32, Back32, Fits, Low, Wide;
    LowWide(Back32(Crc(POLY32, Align32(Low(seed)), a)));
    var s := Align32(Low(seed));
    Chunks(POLY32, s, a, b);
    BackAlign32(Low(seed));
    CrcFits(POLY32, s, a);
    BackAlign32(Crc(POLY32, s, a));
  }

  /** Two messages of one length that differ only inside a window of 4 bytes have
      different checks. */
  lemma Detects32(seed: bv64, before: seq<bv8>, a: seq<bv8>, b: seq<bv8>, rest: seq<bv8>)
    requires |a| == |b| <= 4 && a != b
    ensures Crc32Of(before + a + rest, seed) != Crc32Of(before + b + rest, seed)
  {
    hide Crc, Align32, Back32, Fits, Low, Wide;
    LowWide(Back32(Crc(POLY32, Align32(Low(seed)), before + a + rest)));
    LowWide(Back32(Crc(POLY32, Align32(Low(seed)), before + b + rest)));
    var s := Align32(Low(seed));
    WindowDetected(POLY32, s, before, a, b, rest);
    BackAlign32(Low(seed));
    CrcFits(POLY32, s, before + a + rest);
    CrcFits(POLY32, s, before + b + rest);
    BackAlign32(Crc(POLY32, s, before + a + rest));
    BackAlign32(Crc(POLY32, s, before + b + rest));
  }

  lemma CheckSteps32()
    ensures ByteStep(POLY32, 0xFFFFFFFF, 0x31) == 0x9EFBCF93
    ensures ByteStep(POLY32, 0x9EFBCF93, 0x32) == 0x3FEC5E6A
    ensures ByteStep(POLY32, 0x3FEC5E6A, 0x33) == 0xD952F164
    ensures ByteStep(POLY32, 0xD952F164, 0x34) == 0xA695C4AA
    ensures ByteStep(POLY32, 0xA695C4AA, 0x35) == 0xBD9AB747
    ensures ByteStep(POLY32, 0xBD9AB747, 0x36) == 0xD8F06C8F
    ensures ByteStep(POLY32, 0xD8F06C8F, 0x37) == 0x0D8A14C4
    ensures ByteStep(POLY32, 0x0D8A14C4, 0x38) == 0x49E3C2FB
    ensures ByteStep(POLY32, 0x49E3C2FB, 0x39) == 0x0376E6E7
  {
  }

  /** The check value crc.h gives for the digits 1 to 9. */
  lemma CheckValue32()
    ensures Crc32Of(DIGITS, 0xFFFFFFFF) == 0x376E6E7
  {
    hide ByteStep, CrcSpec.Crc, Low, Wide, Align32, Back32;
    CheckSteps32();
    CheckSeed32();
    Empty(POLY32, 0xFFFFFFFF, DIGITS);
    Next(POLY32, 0xFFFFFFFF, DIGITS, 0);
    Next(POLY32, 0xFFFFFFFF, DIGITS, 1);
    Next(POLY32, 0xFFFFFFFF, DIGITS, 2);
    Next(POLY32, 0xFFFFFFFF, DIGITS, 3);
    Next(POLY32, 0xFFFFFFFF, DIGITS, 4);
    Next(POLY32, 0xFFFFFFFF, DIGITS, 5);
    Next(POLY32, 0xFFFFFFFF, DIGITS, 6);
    Next(POLY32, 0xFFFFFFFF, DIGITS, 7);
    Next(POLY32, 0xFFFFFFFF, DIGITS, 8);
    assert DIGITS[..9] == DIGITS;
  }

  lemma CheckSeed32()
    ensures Align32(Low(0xFFFFFFFF)) == 0xFFFFFFFF && Wide(Back32(0x0376E6E7)) == 0x376E6E7
  {
  }
}
