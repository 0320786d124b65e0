/** Cyclic redundancy checks as division by a polynomial, one bit at a time. All
    three checks share one 32 bit register that holds the remainder in its top
    bits, so their polynomials are shifted up to the top as well. */
module CrcSpec {

  const POLY16: bv32 := 0x1021_0000
  const POLY24: bv32 := 0x864C_FB00
  const POLY32: bv32 := 0x04C1_1DB7

  predicate IsPoly(p: bv32) { p == POLY16 || p == POLY24 || p == POLY32 }

  /** The bits of the register below the remainder are zero. */
  predicate Fits(p: bv32, r: bv32) {
    r & (if p == POLY16 then 0xFFFF else if p == POLY24 then 0xFF else 0) == 0
  }

  /** The number of bytes in the register. */
  function Width(p: bv32): nat { if p == POLY16 then 2 else if p == POLY24 then 3 else 4 }

  function Xor(x: bv32, y: bv32): bv32 { x ^ y }

  function Shift(r: bv32): bv32 { r << 1 }

  function Shift8(r: bv32): bv32 { r << 8 }

  predicate TopBit(r: bv32) { r & 0x8000_0000 != 0 }

  /** One bit of the division. */
  function Step(p: bv32, r: bv32): bv32 {
    if TopBit(r) then Xor(Shift(r), p) else Shift(r)
  }

  function Step4(p: bv32, r: bv32): bv32 { Step(p, Step(p, Step(p, Step(p, r)))) }

  function Step8(p: bv32, r: bv32): bv32 { Step4(p, Step4(p, r)) }

  function Widen(b: bv8): bv32 { b as bv32 }

  function Up(c: bv32): bv32 { c << 24 }

  function Top(b: bv8): bv32 { Up(Widen(b)) }

  /** The next byte of the message enters at the top. */
  function ByteStep(p: bv32, r: bv32, b: bv8): bv32 { Step8(p, Xor(r, Top(b))) }

  function Crc(p: bv32, r: bv32, data: seq<bv8>): bv32 {
    if data == [] then r else ByteStep(p, Crc(p, r, data[..|data| - 1]), data[|data| - 1])
  }

  /** The place in the register of a check kept in the low bits of a word. */
  function Align16(c: bv32): bv32 { c << 16 }

  function Align24(c: bv32): bv32 { c << 8 }

  function Align32(c: bv32): bv32 { c }

  // -------------------------------------------------------------- the step is linear

  lemma ShiftXor(x: bv32, y: bv32)
    ensures Shift(Xor(x, y)) == Xor(Shift(x), Shift(y))
  {
    calc {
      Shift(Xor(x, y));
      (x ^ y) << 1;
      (x << 1) ^ (y << 1);
      Xor(Shift(x), Shift(y));
    }
  }

  lemma TopBitXor(x: bv32, y: bv32)
    ensures TopBit(Xor(x, y)) <==> TopBit(x) != TopBit(y)
  {
  }

  lemma XorTwice(x: bv32, y: bv32, p: bv32)
    ensures Xor(Xor(x, p), Xor(y, p)) == Xor(x, y)
  {
    calc {
      Xor(Xor(x, p), Xor(y, p));
      Xor(x ^ p, y ^ p);
      (x ^ p) ^ (y ^ p);
      x ^ y;
      Xor(x, y);
    }
  }

  lemma XorSwap(x: bv32, y: bv32, p: bv32)
    ensures Xor(Xor(x, p), y) == Xor(Xor(x, y), p)
  {
    calc {
      Xor(Xor(x, p), y);
      Xor(x ^ p, y);
      (x ^ p) ^ y;
      (x ^ y) ^ p;
      Xor(x ^ y, p);
      Xor(Xor(x, y), p);
    }
  }

  lemma XorAssoc(x: bv32, y: bv32, p: bv32)
    ensures Xor(x, Xor(y, p)) == Xor(Xor(x, y), p)
  {
    calc {
      Xor(x, Xor(y, p));
      Xor(x, y ^ p);
      x ^ (y ^ p);
      (x ^ y) ^ p;
      Xor(x ^ y, p);
      Xor(Xor(x, y), p);
    }
  }

  lemma StepLinear(p: bv32, x: bv32, y: bv32)
    ensures Step(p, Xor(x, y)) == Xor(Step(p, x), Step(p, y))
  {
    hide Xor, Shift, TopBit;
    ShiftXor(x, y);
    TopBitXor(x, y);
    XorTwice(Shift(x), Shift(y), p);
    XorSwap(Shift(x), Shift(y), p);
    XorAssoc(Shift(x), Shift(y), p);
  }

  lemma Step8Linear(p: bv32, x: bv32, y: bv32)
    ensures Step8(p, Xor(x, y)) == Xor(Step8(p, x), Step8(p, y))
  {
    hide Step4;
    Step4Linear(p, x, y);
    Step4Linear(p, Step4(p, x), Step4(p, y));
  }

  lemma Step4Linear(p: bv32, x: bv32, y: bv32)
    ensures Step4(p, Xor(x, y)) == Xor(Step4(p, x), Step4(p, y))
  {
    hide Xor, Step;
    StepLinear(p, x, y);
    StepLinear(p, Step(p, x), Step(p, y));
    StepLinear(p, Step(p, Step(p, x)), Step(p, Step(p, y)));
    StepLinear(p, Step(p, Step(p, Step(p, x))), Step(p, Step(p, Step(p, y))));
  }

  lemma StepKernel(p: bv32, r: bv32)
    requires IsPoly(p) && Fits(p, r)
    ensures Fits(p, Step(p, r)) && (Step(p, r) == 0 <==> r == 0)
  {
  }

  /** Dividing loses nothing: only a zero remainder becomes zero. */
  lemma Step8Kernel(p: bv32, r: bv32)
    requires IsPoly(p) && Fits(p, r)
    ensures Fits(p, Step8(p, r)) && (Step8(p, r) == 0 <==> r == 0)
  {
    hide Step, Fits;
    var r1 := Step(p, r);
    var r2 := Step(p, r1);
    var r3 := Step(p, r2);
    var r4 := Step(p, r3);
    var r5 := Step(p, r4);
    var r6 := Step(p, r5);
    var r7 := Step(p, r6);
    StepKernel(p, r);
    StepKernel(p, r1);
    StepKernel(p, r2);
    StepKernel(p, r3);
    StepKernel(p, r4);
    StepKernel(p, r5);
    StepKernel(p, r6);
    StepKernel(p, r7);
  }

  // ------------------------------------------------------------------ messages

  lemma {:induction false} Chunks(p: bv32, r: bv32, a: seq<bv8>, b: seq<bv8>)
    ensures Crc(p, r, a + b) == Crc(p, Crc(p, r, a), b)
  {
    hide ByteStep;
    if b == [] {
      assert a + b == a;
    } else {
      assert (a + b)[..|a + b| - 1] == a + b[..|b| - 1];
      Chunks(p, r, a, b[..|b| - 1]);
    }
  }

  function Difference(a: seq<bv8>, b: seq<bv8>): (d: seq<bv8>)
    requires |a| == |b|
    ensures |d| == |a| && forall i :: 0 <= i < |a| ==> d[i] == a[i] ^ b[i]
  {
    seq(|a|, i requires 0 <= i < |a| => a[i] ^ b[i])
  }

  lemma TopXor(b: bv8, c: bv8)
    ensures Top(b ^ c) == Xor(Top(b), Top(c))
  {
  }

  lemma ByteStepLinear(p: bv32, x: bv32, y: bv32, b: bv8, c: bv8)
    ensures Xor(ByteStep(p, x, b), ByteStep(p, y, c)) == ByteStep(p, Xor(x, y), b ^ c)
  {
    hide Step8, Xor, Top;
    TopXor(b, c);
    Step8Linear(p, Xor(x, Top(b)), Xor(y, Top(c)));
    XorAssoc(Xor(x, Top(b)), y, Top(c));
    XorSwap(x, y, Top(b));
    XorAssoc(Xor(x, y), Top(b), Top(c));
  }

  /** The difference of two remainders is the remainder of the difference. */
  lemma {:induction false} CrcLinear(p: bv32, x: bv32, y: bv32, a: seq<bv8>, b: seq<bv8>)
    requires |a| == |b|
    ensures Xor(Crc(p, x, a), Crc(p, y, b)) == Crc(p, Xor(x, y), Difference(a, b))
  {
    hide Xor, ByteStep;
    if a != [] {
      var n := |a| - 1;
      CrcLinear(p, x, y, a[..n], b[..n]);
      ByteStepLinear(p, Crc(p, x, a[..n]), Crc(p, y, b[..n]), a[n], b[n]);
      assert Difference(a, b)[..n] == Difference(a[..n], b[..n]);
    }
  }

  // ---------------------------------------------------------------- short windows

  /** A byte as the k-th from the top of the register. */
  function Put(c: bv32, k: nat): bv32
    requires k < 4
  {
    if k == 0 then c << 24 else if k == 1 then c << 16 else if k == 2 then c << 8 else c
  }

  function Place(b: bv8, k: nat): bv32
    requires k < 4
  {
    Put(Widen(b), k)
  }

  function Word(d: seq<bv8>): bv32
    requires |d| <= 4
  {
    if d == [] then 0 else Xor(Word(d[..|d| - 1]), Place(d[|d| - 1], |d| - 1))
  }

  function Steps(p: bv32, n: nat, r: bv32): bv32 {
    if n == 0 then r else Step8(p, Steps(p, n - 1, r))
  }

  lemma LowStep(p: bv32, r: bv32)
    requires r < 0x8000_0000
    ensures Step(p, r) == r << 1
  {
  }

  lemma LowShifts(r: bv32)
    requires r < 0x1000_0000
    ensures r << 1 < 0x8000_0000 && r << 2 < 0x8000_0000 && r << 3 < 0x8000_0000
    ensures (r << 1) << 1 == r << 2 && (r << 2) << 1 == r << 3 && (r << 3) << 1 == r << 4
  {
  }

  lemma LowStep4(p: bv32, r: bv32)
    requires r < 0x1000_0000
    ensures Step4(p, r) == r << 4
  {
    LowShifts(r);
    calc {
      Step4(p, r);
      { LowStep(p, r); }
      Step(p, Step(p, Step(p, r << 1)));
      { LowStep(p, r << 1); }
      Step(p, Step(p, r << 2));
      { LowStep(p, r << 2); }
      Step(p, r << 3);
      { LowStep(p, r << 3); }
      r << 4;
    }
  }

  /** What lies below the top byte moves up without meeting the polynomial. */
  lemma LowStep8(p: bv32, r: bv32)
    requires r < 0x100_0000
    ensures Step8(p, r) == Shift8(r)
  {
    hide Step4;
    LowStep4(p, r);
    LowStep4(p, r << 4);
  }

  lemma PlaceUp(p: bv32, b: bv8, k: nat)
    requires 1 <= k < 4
    ensures Step8(p, Place(b, k)) == Place(b, k - 1)
  {
    hide Step8;
    LowStep8(p, Place(b, k));
  }

  lemma {:induction false} StepsLinear(p: bv32, n: nat, x: bv32, y: bv32)
    ensures Steps(p, n, Xor(x, y)) == Xor(Steps(p, n, x), Steps(p, n, y))
  {
    hide Step8, Xor;
    if n > 0 {
      StepsLinear(p, n - 1, x, y);
      Step8Linear(p, Steps(p, n - 1, x), Steps(p, n - 1, y));
    }
  }

  lemma {:induction false} StepsPlace(p: bv32, b: bv8, k: nat)
    requires k < 4
    ensures Steps(p, k, Place(b, k)) == Top(b)
  {
    hide Step8, Widen;
    if k > 0 {
      PlaceUp(p, b, k);
      StepsInner(p, k - 1, Place(b, k));
      StepsPlace(p, b, k - 1);
    }
  }

  lemma {:induction false} StepsInner(p: bv32, n: nat, r: bv32)
    ensures Steps(p, n + 1, r) == Steps(p, n, Step8(p, r))
  {
    hide Step8;
    if n > 0 {
      StepsInner(p, n - 1, r);
    }
  }

  /** Up to four bytes taken one by one are taken as one word. */
  lemma {:induction false} CrcOfWord(p: bv32, d: seq<bv8>)
    requires |d| <= 4
    ensures Crc(p, 0, d) == Steps(p, |d|, Word(d))
  {
    hide Step8, Xor, Top, Place;
    if d != [] {
      var n := |d| - 1;
      CrcOfWord(p, d[..n]);
      StepsPlace(p, d[n], n);
      StepsLinear(p, n, Word(d[..n]), Place(d[n], n));
    }
  }

  lemma {:induction false} StepsKernel(p: bv32, n: nat, r: bv32)
    requires IsPoly(p) && Fits(p, r)
    ensures Fits(p, Steps(p, n, r)) && (Steps(p, n, r) == 0 <==> r == 0)
  {
    hide Step8, Fits, IsPoly;
    if n > 0 {
      StepsKernel(p, n - 1, r);
      Step8Kernel(p, Steps(p, n - 1, r));
    }
  }

  function Below(k: nat): bv32 {
    if k == 0 then 0xFFFF_FFFF else if k == 1 then 0xFF_FFFF else if k == 2 then 0xFFFF else if k == 3 then 0xFF else 0
  }

  lemma WidenByte(b: bv8)
    ensures Widen(b) < 0x100 && (Widen(b) == 0 <==> b == 0)
  {
  }

  lemma Apart0(w: bv32, c: bv32)
    requires w & 0xFFFF_FFFF == 0 && c < 0x100
    ensures (w ^ (c << 24)) & 0xFF_FFFF == 0 && (w ^ (c << 24) == 0 <==> w == 0 && c == 0)
  {
  }

  lemma PutApart0(w: bv32, c: bv32)
    requires w & 0xFFFF_FFFF == 0 && c < 0x100
    ensures Xor(w, Put(c, 0)) & 0xFF_FFFF == 0
    ensures Xor(w, Put(c, 0)) == 0 <==> w == 0 && c == 0
  {
    Apart0(w, c);
  }

  lemma Apart1(w: bv32, c: bv32)
    requires w & 0xFF_FFFF == 0 && c < 0x100
    ensures (w ^ (c << 16)) & 0xFFFF == 0 && (w ^ (c << 16) == 0 <==> w == 0 && c == 0)
  {
  }

  lemma PutApart1(w: bv32, c: bv32)
    requires w & 0xFF_FFFF == 0 && c < 0x100
    ensures Xor(w, Put(c, 1)) & 0xFFFF == 0
    ensures Xor(w, Put(c, 1)) == 0 <==> w == 0 && c == 0
  {
    Apart1(w, c);
  }

  lemma Apart2(w: bv32, c: bv32)
    requires w & 0xFFFF == 0 && c < 0x100
    ensures (w ^ (c << 8)) & 0xFF == 0 && (w ^ (c << 8) == 0 <==> w == 0 && c == 0)
  {
  }

  lemma PutApart2(w: bv32, c: bv32)
    requires w & 0xFFFF == 0 && c < 0x100
    ensures Xor(w, Put(c, 2)) & 0xFF == 0
    ensures Xor(w, Put(c, 2)) == 0 <==> w == 0 && c == 0
  {
    Apart2(w, c);
  }

  lemma Apart3(w: bv32, c: bv32)
    requires w & 0xFF == 0 && c < 0x100
    ensures (w ^ c == 0 <==> w == 0 && c == 0)
  {
  }

  lemma PutApart3(w: bv32, c: bv32)
    requires w & 0xFF == 0 && c < 0x100
    ensures Xor(w, Put(c, 3)) == 0 <==> w == 0 && c == 0
  {
    Apart3(w, c);
  }

  /** The bytes of a word do not overlap. */
  lemma PlacesApart(w: bv32, b: bv8, k: nat)
    requires k < 4 && w & Below(k) == 0
    ensures Xor(w, Place(b, k)) & Below(k + 1) == 0
    ensures Xor(w, Place(b, k)) == 0 <==> w == 0 && b == 0
  {
    hide Xor, Put, Widen;
    var c := Widen(b);
    WidenByte(b);
    if k == 0 {
      PutApart0(w, c);
    } else if k == 1 {
      PutApart1(w, c);
    } else if k == 2 {
      PutApart2(w, c);
    } else {
      PutApart3(w, c);
    }
  }

  /** A word leaves the bits below its bytes zero, and is zero only if its bytes are. */
  lemma {:induction false} WordZero(d: seq<bv8>)
    requires |d| <= 4
    ensures Word(d) & Below(|d|) == 0
    ensures Word(d) == 0 <==> forall i :: 0 <= i < |d| ==> d[i] == 0
  {
    hide Xor, Place;
    if d != [] {
      var n := |d| - 1;
      WordZero(d[..n]);
      PlacesApart(Word(d[..n]), d[n], n);
      assert d == d[..n] + [d[n]];
    }
  }

  /** Detection. Two messages that differ only inside a window no longer than the
      check itself have different checks, whatever comes before and after. */
  lemma WindowDetected(p: bv32, seed: bv32, before: seq<bv8>, a: seq<bv8>, b: seq<bv8>, rest: seq<bv8>)
    requires IsPoly(p) && |a| == |b| <= Width(p) && a != b
    ensures Crc(p, seed, before + a + rest) != Crc(p, seed, before + b + rest)
  {
    var r := Crc(p, seed, before);
    var d := Difference(a, b);
    var x, y := Crc(p, r, a), Crc(p, r, b);
    Chunks(p, seed, before + a, rest);
    Chunks(p, seed, before, a);
    Chunks(p, seed, before + b, rest);
    Chunks(p, seed, before, b);
    CrcLinear(p, r, r, a, b);
    XorSelf(r, r);
    CrcOfWord(p, d);
    WordFits(p, d);
    StepsKernel(p, |d|, Word(d));
    Differ(a, b);
    TailKeeps(p, x, y, rest);
  }

  lemma XorSelf(x: bv32, y: bv32)
    ensures Xor(x, y) == 0 <==> x == y
  {
  }

  lemma Differ(a: seq<bv8>, b: seq<bv8>)
    requires |a| == |b| <= 4 && a != b
    ensures Word(Difference(a, b)) != 0
  {
    WordZero(Difference(a, b));
    var i :| 0 <= i < |a| && a[i] != b[i];
    XorSelf8(a[i], b[i]);
  }

  lemma XorSelf8(x: bv8, y: bv8)
    ensures x ^ y == 0 <==> x == y
  {
  }

  lemma WordFits(p: bv32, d: seq<bv8>)
    requires IsPoly(p) && |d| <= Width(p)
    ensures Fits(p, Word(d))
  {
    WordZero(d);
  }

  /** Equal bytes keep different remainders different. */
  lemma {:induction false} TailKeeps(p: bv32, x: bv32, y: bv32, rest: seq<bv8>)
    requires IsPoly(p) && Fits(p, Xor(x, y)) && x != y
    ensures Crc(p, x, rest) != Crc(p, y, rest) && Fits(p, Xor(Crc(p, x, rest), Crc(p, y, rest)))
  {
    hide IsPoly, Fits, Xor, ByteStep;
    if rest != [] {
      var n := |rest| - 1;
      TailKeeps(p, x, y, rest[..n]);
      SameByte(p, Crc(p, x, rest[..n]), Crc(p, y, rest[..n]), rest[n]);
    }
  }

  lemma SameByte(p: bv32, x: bv32, y: bv32, b: bv8)
    requires IsPoly(p) && Fits(p, Xor(x, y)) && x != y
    ensures ByteStep(p, x, b) != ByteStep(p, y, b) && Fits(p, Xor(ByteStep(p, x, b), ByteStep(p, y, b)))
  {
    hide IsPoly, Fits, Step8, Xor, Top;
    Step8Linear(p, Xor(x, Top(b)), Xor(y, Top(b)));
    XorTwice(x, y, Top(b));
    XorSelf(x, y);
    Step8Kernel(p, Xor(x, y));
    XorSelf(ByteStep(p, x, b), ByteStep(p, y, b));
  }

  lemma FitsXor(p: bv32, x: bv32, y: bv32)
    requires IsPoly(p) && Fits(p, x) && Fits(p, y)
    ensures Fits(p, Xor(x, y))
  {
  }

  lemma FitsTop(p: bv32, b: bv8)
    requires IsPoly(p)
    ensures Fits(p, Top(b))
  {
  }

  lemma {:induction false} CrcFits(p: bv32, r: bv32, data: seq<bv8>)
    requires IsPoly(p) && Fits(p, r)
    ensures Fits(p, Crc(p, r, data))
  {
    hide IsPoly, Fits, Xor, Step8, Top;
    if data != [] {
      var n := |data| - 1;
      CrcFits(p, r, data[..n]);
      FitsTop(p, data[n]);
      FitsXor(p, Crc(p, r, data[..n]), Top(data[n]));
      Step8Kernel(p, Xor(Crc(p, r, data[..n]), Top(data[n])));
    }
  }
}
