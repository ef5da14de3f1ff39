/**
 Conversion between binary32 and bfloat16 bit patterns (src/fp_utils/bfloat16.cpp). Patterns are
 naturals below 2^32 and 2^16.
 */
module Bfloat16 {

  /** bfloat16_to_float */
  function Widen(v: nat): nat {
    v * 0x1_0000
  }

  /** float_to_bfloat16, whose addition wraps at 2^32. */
  function Narrow(bits: nat): nat {
    var lsb := bits / 0x1_0000 % 2;
    var biased := (bits + 0x7FFF + lsb) % 0x1_0000_0000;
    biased / 0x1_0000 % 0x1_0000
  }

  function Distance(a: int, b: int): nat {
    if a < b then b - a else a - b
  }

  /** The widened r is a nearest multiple of 2^16, and the even one of two. */
  ghost predicate RoundsTo(bits: nat, r: nat) {
    forall q: nat :: q != r ==>
      || Distance(Widen(r), bits) < Distance(Widen(q), bits)
      || (Distance(Widen(r), bits) == Distance(Widen(q), bits) && r % 2 == 0)
  }

  /** The rounding in terms of the upper and lower halves of the pattern. */
  function Rounded(h: nat, l: nat): nat {
    if l > 0x8000 || (l == 0x8000 && h % 2 == 1) then h + 1 else h
  }

  lemma {:induction false} NarrowHalves(bits: nat, h: nat, l: nat)
    requires bits == 0x1_0000 * h + l && l < 0x1_0000 && h < 0x1_0000
    ensures Narrow(bits) == Rounded(h, l) % 0x1_0000
  {
    assert bits / 0x1_0000 == h;
    var sum := bits + 0x7FFF + h % 2;
    assert sum / 0x1_0000 == Rounded(h, l);
  }

  lemma {:induction false} RoundedIsNearest(h: nat, l: nat, bits: nat, q: nat)
    requires bits == 0x1_0000 * h + l && l < 0x1_0000 && q != Rounded(h, l)
    ensures var r := Rounded(h, l);
      || Distance(Widen(r), bits) < Distance(Widen(q), bits)
      || (Distance(Widen(r), bits) == Distance(Widen(q), bits) && r % 2 == 0)
  {
  }

  /**
   Rounding to nearest, ties to even, holds exactly below 0xFFFF8000; the patterns from there on
   wrap around to zero.
   */
  lemma {:induction false} NarrowRoundsExactly(bits: nat)
    requires bits < 0x1_0000_0000
    ensures RoundsTo(bits, Narrow(bits)) <==> bits < 0xFFFF_8000
    ensures bits < 0xFFFF_8000 ==> Distance(Widen(Narrow(bits)), bits) <= 0x8000
    ensures bits >= 0xFFFF_8000 ==> Narrow(bits) == 0
  {
    var h, l := bits / 0x1_0000, bits % 0x1_0000;
    NarrowHalves(bits, h, l);
    if bits < 0xFFFF_8000 {
      assert Narrow(bits) == Rounded(h, l);
      forall q: nat | q != Rounded(h, l)
        ensures Distance(Widen(Rounded(h, l)), bits) < Distance(Widen(q), bits)
             || (Distance(Widen(Rounded(h, l)), bits) == Distance(Widen(q), bits) && Rounded(h, l) % 2 == 0)
      {
        RoundedIsNearest(h, l, bits, q);
      }
    } else {
      assert Distance(Widen(0), bits) > Distance(Widen(1), bits);
    }
  }

  lemma {:induction false} NarrowMonotone(a: nat, b: nat)
    requires a <= b < 0xFFFF_8000
    ensures Narrow(a) <= Narrow(b)
  {
    NarrowWithinRange(a, a / 0x1_0000, a % 0x1_0000);
    NarrowWithinRange(b, b / 0x1_0000, b % 0x1_0000);
  }

  lemma {:induction false} NarrowWithinRange(bits: nat, h: nat, l: nat)
    requires bits == 0x1_0000 * h + l && l < 0x1_0000 && bits < 0xFFFF_8000
    ensures Narrow(bits) == Rounded(h, l)
  {
    NarrowHalves(bits, h, l);
  }

  /** Every bfloat16 pattern survives the way through binary32. */
  lemma {:induction false} NarrowInvertsWiden(v: nat)
    requires v < 0x1_0000
    ensures Narrow(Widen(v)) == v
  {
    NarrowHalves(Widen(v), v, 0);
  }

  predicate IsNaN32(bits: nat) {
    bits % 0x8000_0000 > 0x7F80_0000
  }

  predicate IsNaN16(v: nat) {
    v % 0x8000 > 0x7F80
  }

  /** Rounding treats a NaN like a number: it stays one exactly when its payload neither rounds away nor overflows. */
  lemma {:induction false} NaNSurvivesExactly(bits: nat)
    requires bits < 0x1_0000_0000 && IsNaN32(bits)
    ensures IsNaN16(Narrow(bits)) <==> 0x7F80_8000 < bits % 0x8000_0000 < 0x7FFF_8000
  {
    var h, l := bits / 0x1_0000, bits % 0x1_0000;
    NarrowHalves(bits, h, l);
    assert bits % 0x8000_0000 == h % 0x8000 * 0x1_0000 + l;
    RoundedNaN(h, l);
  }

  /** For instance the first NaN becomes infinity, the last positive one minus zero and the last one zero. */
  lemma {:induction false} LostNaNs()
    ensures IsNaN32(0x7F80_0001) && Narrow(0x7F80_0001) == 0x7F80
    ensures IsNaN32(0x7FFF_FFFF) && Narrow(0x7FFF_FFFF) == 0x8000
    ensures IsNaN32(0xFFFF_FFFF) && Narrow(0xFFFF_FFFF) == 0
  {
  }

  lemma {:induction false} RoundedNaN(h: nat, l: nat)
    requires h < 0x1_0000 && l < 0x1_0000 && h % 0x8000 * 0x1_0000 + l > 0x7F80_0000
    ensures IsNaN16(Rounded(h, l) % 0x1_0000) <==> 0x7F80_8000 < h % 0x8000 * 0x1_0000 + l < 0x7FFF_8000
  {
  }
}
