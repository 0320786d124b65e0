/** The bit utilities of libs/bit: the most significant bit of a byte by table,
    and a 64 bit array with a redundant mask of its non-zero bytes. */
module Bit {

  /** 1U << k for a byte */
  function Mask(k: nat): bv8
    requires k < 8
  {
    if k == 0 then 0x01 else if k == 1 then 0x02 else if k == 2 then 0x04 else if k == 3 then 0x08
    else if k == 4 then 0x10 else if k == 5 then 0x20 else if k == 6 then 0x40 else 0x80
  }

  /** b |= 1U << k */
  function With(b: bv8, k: nat): bv8
    requires k < 8
  {
    b | Mask(k)
  }

  /** b &= ~(1U << k) */
  function Without(b: bv8, k: nat): bv8
    requires k < 8
  {
    b & !Mask(k)
  }

  predicate Has(b: bv8, k: nat)
    requires k < 8
  {
    b & Mask(k) != 0
  }

  /** am_bit_msb_from_u4 */
  function MsbFromU4(u4: bv8): nat
    requires u4 < 16
  {
    if u4 < 2 then 0 else if u4 < 4 then 1 else if u4 < 8 then 2 else 3
  }

  /** am_bit_u8_msb */
  function U8Msb(u8: bv8): (m: nat)
    ensures m < 8
    ensures u8 != 0 ==> Has(u8, m) && forall k: nat :: m < k < 8 ==> !Has(u8, k)
  {
    var u4 := u8 >> 4;
    if u4 != 0 then 4 + MsbFromU4(u4) else MsbFromU4(u8 & 0xF)
  }

  /** The places of the bits set in a byte. */
  ghost function BitsOf(b: bv8): set<nat> {
    set k: nat | k < 8 && Has(b, k)
  }

  lemma SetBit(b: bv8, k: nat)
    requires k < 8
    ensures BitsOf(With(b, k)) == BitsOf(b) + {k}
  {
    forall j: nat | j < 8
      ensures Has(With(b, k), j) <==> j == k || Has(b, j)
    {
    }
  }

  lemma ClearBit(b: bv8, k: nat)
    requires k < 8
    ensures BitsOf(Without(b, k)) == BitsOf(b) - {k}
  {
    forall j: nat | j < 8
      ensures Has(Without(b, k), j) <==> j != k && Has(b, j)
    {
    }
  }

  lemma NoBits(b: bv8)
    ensures b == 0 <==> BitsOf(b) == {}
  {
    if b != 0 {
      assert U8Msb(b) in BitsOf(b);
    }
  }

  /** The numbers whose bits are set. */
  ghost function Numbers(s: seq<bv8>): set<nat>
    requires |s| == 8
  {
    set n: nat | n < 64 && n % 8 in BitsOf(s[n / 8])
  }

  /** The byte mask names the non-zero bytes. */
  ghost predicate Summary(bytes: bv8, s: seq<bv8>)
    requires |s| == 8
  {
    forall i: nat {:trigger s[i]} :: i < 8 ==> (i in BitsOf(bytes) <==> s[i] != 0)
  }

  lemma SameNumber(n: nat, m: nat)
    requires n / 8 == m / 8 && n % 8 == m % 8
    ensures n == m
  {
  }

  /** Changing one bit of one byte changes one number. */
  lemma OneByte(s: seq<bv8>, n: nat, b: bv8, on: bool)
    requires |s| == 8 && n < 64
    requires BitsOf(b) == if on then BitsOf(s[n / 8]) + {n % 8} else BitsOf(s[n / 8]) - {n % 8}
    ensures Numbers(s[n / 8 := b]) == if on then Numbers(s) + {n} else Numbers(s) - {n}
  {
    hide BitsOf;
    forall x: nat | x < 64
      ensures x % 8 in BitsOf(s[n / 8 := b][x / 8]) <==> if x == n then on else x % 8 in BitsOf(s[x / 8])
    {
      if x / 8 == n / 8 && x % 8 == n % 8 {
        SameNumber(x, n);
      }
    }
  }

  lemma SetNumber(bytes: bv8, s: seq<bv8>, n: nat)
    requires |s| == 8 && n < 64 && Summary(bytes, s)
    ensures var s' := s[n / 8 := With(s[n / 8], n % 8)];
      Numbers(s') == Numbers(s) + {n} && Summary(With(bytes, n / 8), s')
  {
    hide With, Without, Has, BitsOf, Numbers;
    SetBit(s[n / 8], n % 8);
    SetBit(bytes, n / 8);
    NoBits(With(s[n / 8], n % 8));
    OneByte(s, n, With(s[n / 8], n % 8), true);
  }

  lemma ClearNumber(bytes: bv8, s: seq<bv8>, n: nat)
    requires |s| == 8 && n < 64 && Summary(bytes, s)
    ensures var b := Without(s[n / 8], n % 8);
      var s' := s[n / 8 := b];
      Numbers(s') == Numbers(s) - {n} && Summary(if b != 0 then bytes else Without(bytes, n / 8), s')
  {
    hide With, Without, Has, BitsOf, Numbers;
    var b := Without(s[n / 8], n % 8);
    ClearBit(s[n / 8], n % 8);
    ClearBit(bytes, n / 8);
    NoBits(s[n / 8]);
    NoBits(b);
    OneByte(s, n, b, false);
  }

  /** A member makes its byte and the mask non-zero. */
  lemma InByte(bytes: bv8, s: seq<bv8>, n: nat)
    requires |s| == 8 && n < 64 && Summary(bytes, s) && n in Numbers(s)
    ensures s[n / 8] != 0 && n / 8 in BitsOf(bytes) && bytes != 0
  {
    NoBits(s[n / 8]);
    NoBits(bytes);
  }

  /** struct am_bit_u64 */
  class Bits64 {
    var bytes: bv8
    const bits: array<bv8>

    ghost predicate Valid()
      reads this, bits
    {
      bits.Length == 8 && Summary(bytes, bits[..])
    }

    ghost function Members(): set<nat>
      reads this, bits
      requires Valid()
    {
      Numbers(bits[..])
    }

    constructor ()
      ensures Valid() && Members() == {} && fresh(bits)
    {
      bytes := 0;
      bits := new bv8[8](_ => 0);
      new;
      forall n: nat | n < 64
        ensures n !in Numbers(bits[..])
      {
        NoBits(bits[n / 8]);
      }
    }

    predicate IsEmpty()
      reads this, bits
      requires Valid()
      ensures IsEmpty() <==> Members() == {}
    {
      assert Members() != {} ==> bytes != 0 by {
        if n :| n in Members() {
          InByte(bytes, bits[..], n);
        }
      }
      assert bytes != 0 ==> Members() != {} by {
        if bytes != 0 {
          var i := U8Msb(bytes);
          var k := U8Msb(bits[..][i]);
          assert i in BitsOf(bytes) && k in BitsOf(bits[..][i]);
          assert (8 * i + k) / 8 == i && (8 * i + k) % 8 == k;
          assert 8 * i + k in Members();
        }
      }
      0 == bytes
    }

    /** am_bit_u64_msb: the largest member. */
    method Msb() returns (m: nat)
      requires Valid() && Members() != {}
      ensures m in Members() && forall n :: n in Members() ==> n <= m
    {
      assert !IsEmpty();
      var i := U8Msb(bytes);
      assert bits[..][i] != 0;
      m := U8Msb(bits[i]) + i * 8;
      assert m / 8 == i && m % 8 == U8Msb(bits[i]);
      forall n | n in Members()
        ensures n <= m
      {
        InByte(bytes, bits[..], n);
      }
    }

    method Set(n: nat)
      requires Valid() && n < 64
      modifies `bytes, bits
      ensures Valid() && Members() == old(Members()) + {n}
    {
      hide With, Without, Summary, Numbers;
      SetNumber(bytes, bits[..], n);
      var i := n / 8;
      bytes := With(bytes, i);
      bits[i] := With(bits[i], n % 8);
      assert bits[..] == old(bits[..])[i := bits[i]];
    }

    method Clear(n: nat)
      requires Valid() && n < 64
      modifies `bytes, bits
      ensures Valid() && Members() == old(Members()) - {n}
    {
      hide *;
      Meaning();
      ghost var s := bits[..];
      ClearNumber(bytes, s, n);
      var i := n / 8;
      var mask := Without(bits[i], n % 8);
      bits[i] := mask;
      assert bits[..] == s[i := mask];
      if mask == 0 {
        bytes := Without(bytes, i);
      }
      Meaning();
    }

    lemma Meaning()
      ensures Valid() <==> bits.Length == 8 && Summary(bytes, bits[..])
      ensures Valid() ==> Members() == Numbers(bits[..])
    {
    }
  }
}
