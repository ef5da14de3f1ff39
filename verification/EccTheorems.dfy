/**
 What the code of ecc_utils.cpp can and cannot repair: linearity and distance of the code,
 the exact set of error patterns that checkError undoes, and its fixed points.
 */
module EccTheorems {
  import opened Bits
  import opened Metadata
  import opened Ecc

  // Linearity

  lemma {:induction false} HammingXor(a: Bits, b: Bits)
    requires |a| == |b|
    ensures Hamming(Xor(a, b)) == Xor(Hamming(a), Hamming(b))
  {
    if a != [] {
      var n := |a| - 1;
      assert Xor(a, b)[..n] == Xor(a[..n], b[..n]);
      HammingXor(a[..n], b[..n]);
    }
  }

  lemma {:induction false} HammingZeros(n: nat)
    ensures Hamming(Zeros(n)) == Zeros(6)
  {
    if n != 0 {
      assert Zeros(n)[..n - 1] == Zeros(n - 1);
      HammingZeros(n - 1);
    }
  }

  /** A single set bit contributes its one-based position. */
  lemma {:induction false} HammingOneHot(i: nat, n: nat)
    requires i < n
    ensures Hamming(OneHot(i, n)) == FromInt(i + 1, 6)
  {
    if i == n - 1 {
      assert OneHot(i, n)[..n - 1] == Zeros(n - 1);
      HammingZeros(n - 1);
    } else {
      assert OneHot(i, n)[..n - 1] == OneHot(i, n - 1);
      HammingOneHot(i, n - 1);
    }
  }

  lemma {:induction false} CodeLinear(a: Data, b: Data)
    ensures Code(Xor(a, b)) == Xor(Code(a), Code(b))
  {
    HammingXor(a, b);
    ParityXor(a, b);
    ParityXor(Hamming(a), Hamming(b));
  }

  lemma {:induction false} CodeEven(d: Data)
    ensures !Parity(Code(d))
  {
    ParityConcat(d, Hamming(d));
    ParityConcat(d + Hamming(d), [Parity(d) != Parity(Hamming(d))]);
  }

  /** Only data positions below 63 are used, so six bits tell positions apart. */
  lemma {:induction false} PositionInjective(m: nat, n: nat)
    requires m < 64 && n < 64 && FromInt(m, 6) == FromInt(n, 6)
    ensures m == n
  {
    Pow2Fields();
    ToNatFromNat(m, 6);
    ToNatFromNat(n, 6);
  }

  // Distance

  ghost predicate IsPowerOfTwo(n: nat) {
    exists k: nat :: n == Pow2(k)
  }

  lemma {:induction false} PowerOfTwoBelow64(n: nat)
    requires n < 64
    ensures IsPowerOfTwo(n) <==> Weight(FromInt(n, 6)) == 1
  {
    var b := FromInt(n, 6);
    Pow2Fields();
    ToNatFromNat(n, 6);
    if IsPowerOfTwo(n) {
      var k: nat :| n == Pow2(k);
      if k >= 6 {
        Pow2Monotone(6, k);
      }
      ToNatOneHot(k, 6);
      ToNatInjective(b, OneHot(k, 6));
      WeightOneHot(k, 6);
    }
    if Weight(b) == 1 {
      var k := WeightOne(b);
      ToNatOneHot(k, 6);
    }
  }

  lemma {:induction false} CodeWeight(e: Data)
    ensures Weight(Code(e)) % 2 == 0
    ensures Weight(e) + Weight(Hamming(e)) <= Weight(Code(e)) <= Weight(e) + Weight(Hamming(e)) + 1
  {
    CodeEven(e);
    ParityIsWeight(Code(e));
    var p := [Parity(e) != Parity(Hamming(e))];
    WeightConcat(e, Hamming(e));
    WeightConcat(e + Hamming(e), p);
    assert p[..0] == [];
  }

  /** The only codewords closer than four are those whose data differ in one power-of-two position. */
  lemma {:induction false} NonzeroCodeWeight(e: Data)
    requires e != Zeros(32)
    ensures var w := Weight(Code(e));
      if exists i :: 0 <= i < 32 && IsPowerOfTwo(i + 1) && e == OneHot(i, 32) then w == 2 else w >= 4
  {
    CodeWeight(e);
    WeightZero(e);
    if Weight(e) == 1 {
      var i := WeightOne(e);
      HammingOneHot(i, 32);
      PowerOfTwoBelow64(i + 1);
      OneHotNonzero(i + 1);
      forall j | 0 <= j < 32 && e == OneHot(j, 32)
        ensures j == i
      {
        assert e[j] && e[i];
      }
    } else {
      forall i: nat | i < 32
        ensures e != OneHot(i, 32)
      {
        WeightOneHot(i, 32);
      }
      if Weight(e) == 2 {
        var i, j := WeightTwo(e);
        HammingXor(OneHot(i, 32), OneHot(j, 32));
        HammingOneHot(i, 32);
        HammingOneHot(j, 32);
        XorSelf(FromInt(i + 1, 6), FromInt(j + 1, 6));
        if Hamming(e) == Zeros(6) {
          PositionInjective(i + 1, j + 1);
        }
        WeightZero(Hamming(e));
      }
    }
  }

  lemma {:induction false} OneHotNonzero(n: nat)
    requires 0 < n < 64
    ensures Weight(FromInt(n, 6)) >= 1
  {
    WeightZero(FromInt(n, 6));
    ToNatZeros(6);
    Pow2Fields();
    ToNatFromNat(n, 6);
  }

  /** Distances between distinct codewords are even, 2 exactly for one power-of-two position, otherwise at least 4. */
  lemma {:induction false} CodeDistance(a: Data, b: Data)
    requires a != b
    ensures var distance := Weight(Xor(Code(a), Code(b)));
      && distance % 2 == 0
      && (distance == 2 <==> exists i :: 0 <= i < 32 && IsPowerOfTwo(i + 1) && b == Flip(a, i))
      && (distance != 2 ==> distance >= 4)
  {
    var e := Xor(a, b);
    CodeLinear(a, b);
    XorSelf(a, b);
    NonzeroCodeWeight(e);
    CodeWeight(e);
    forall i | 0 <= i < 32
      ensures e == OneHot(i, 32) <==> b == Flip(a, i)
    {
      XorMovesAcross(a, b, OneHot(i, 32));
      XorOneHot(a, i);
    }
  }

  lemma {:induction false} XorMovesAcross(a: Bits, b: Bits, c: Bits)
    requires |a| == |b| == |c|
    ensures Xor(a, b) == c <==> b == Xor(a, c)
  {
  }

  // Decoding

  ghost predicate IsDataFlip(e: Bits)
    requires |e| == 39
  {
    exists i :: 0 <= i < 32 && e == OneHot(i, 39)
  }

  /** The error patterns on the 39 code bits after which checkError restores the codeword. */
  ghost predicate Correctable(e: Bits)
    requires |e| == 39
  {
    || e == Zeros(39)
    || IsDataFlip(e)
    || (Parity(e) && e[..32] == Zeros(32) && (ToNat(e[32..38]) == 0 || ToNat(e[32..38]) > 32))
  }

  lemma {:induction false} RegisterParts(code: Bits, upper: Bits)
    requires |code| == 39 && |upper| == 25
    ensures var r := code + upper;
      r[..39] == code && r[..32] == code[..32] && r[32..38] == code[32..38]
  {
  }

  lemma {:induction false} XorSlice(a: Bits, b: Bits, i: nat, j: nat)
    requires |a| == |b| && i <= j <= |a|
    ensures Xor(a, b)[i..j] == Xor(a[i..j], b[i..j])
  {
  }

  lemma {:induction false} CorruptedParts(d: Data, e: Bits, upper: Bits)
    requires |e| == 39 && |upper| == 25
    ensures var r := Xor(Code(d), e) + upper;
      && r[..39] == Xor(Code(d), e)
      && r[..32] == Xor(d, e[..32])
      && Parity(r[..39]) == Parity(e)
      && Syndrome(r) == Xor(Hamming(e[..32]), e[32..38])
  {
    RegisterParts(Xor(Code(d), e), upper);
    ProtectParts(d);
    XorSlice(Code(d), e, 0, 32);
    XorSlice(Code(d), e, 32, 38);
    CodeEven(d);
    ParityXor(Code(d), e);
    HammingXor(d, e[..32]);
    XorShared(Hamming(d), Hamming(e[..32]), e[32..38]);
  }

  lemma {:induction false} XorShared(a: Bits, b: Bits, c: Bits)
    requires |a| == |b| == |c|
    ensures Xor(Xor(a, b), Xor(a, c)) == Xor(b, c)
  {
  }

  /** The parts of a lone data flip. */
  lemma {:induction false} DataFlipParts(e: Bits, i: nat)
    requires |e| == 39 && i < 32 && e == OneHot(i, 39)
    ensures Parity(e) && e[..32] == OneHot(i, 32) && e[32..38] == Zeros(6)
    ensures ToNat(Xor(Hamming(e[..32]), e[32..38])) == i + 1
  {
    WeightOneHot(i, 39);
    ParityIsWeight(e);
    HammingOneHot(i, 32);
    assert e[..32] == OneHot(i, 32);
    assert Xor(FromInt(i + 1, 6), Zeros(6)) == FromInt(i + 1, 6);
    Pow2Fields();
    ToNatFromNat(i + 1, 6);
  }

  /** A pattern whose data part and syndrome name the same position is that lone data flip. */
  lemma {:induction false} NamedFlip(e: Bits, i: nat)
    requires |e| == 39 && i < 32 && Parity(e) && e[..32] == OneHot(i, 32)
    requires ToNat(Xor(Hamming(e[..32]), e[32..38])) == i + 1
    ensures e == OneHot(i, 39)
  {
    var h := Hamming(e[..32]);
    HammingOneHot(i, 32);
    Pow2Fields();
    ToNatFromNat(i + 1, 6);
    ToNatInjective(Xor(h, e[32..38]), h);
    XorMovesAcross(h, h, e[32..38]);
    XorSelf(h, h);
    assert e[32..38] == Zeros(6);
    WeightOneHot(i, 32);
    ParityIsWeight(e[..32]);
    WeightZero(e[32..38]);
    ParityIsWeight(e[32..38]);
    var r := e + Zeros(25);
    assert r[..39] == e && r[..32] == e[..32] && r[32..38] == e[32..38];
    ParityOfCode(r);
    assert e == e[..32] + e[32..38] + [e[38]];
  }

  /**
   checkError restores the codeword of d after error e exactly when e is correctable, whatever
   the bits above the code hold. A lone flip of a check bit is not: its syndrome names a data bit.
   */
  lemma {:induction false} DecodingExact(d: Data, e: Bits, upper: Bits)
    requires |e| == 39 && |upper| == 25
    ensures Checked(Xor(Code(d), e) + upper)[..39] == Code(d) <==> Correctable(e)
  {
    CorruptedParts(d, e, upper);
    if Parity(e) {
      DecodingOdd(d, e, upper);
    } else {
      XorMovesAcross(Code(d), Code(d), e);
      XorSelf(Code(d), Code(d));
      if IsDataFlip(e) {
        var i :| 0 <= i < 32 && e == OneHot(i, 39);
        DataFlipParts(e, i);
      }
    }
  }

  lemma {:induction false} DecodingOdd(d: Data, e: Bits, upper: Bits)
    requires |e| == 39 && |upper| == 25 && Parity(e)
    ensures Checked(Xor(Code(d), e) + upper)[..39] == Code(d) <==> Correctable(e)
  {
    DecodedData(d, e, upper);
    OddCorrectable(e);
  }

  /** The position, counted from 1, that the syndrome of an error pattern names. */
  function Named(e: Bits): nat
    requires |e| == 39
  {
    ToNat(Xor(Hamming(e[..32]), e[32..38]))
  }

  /** The data part of the pattern is what decoding undoes. */
  predicate Undone(e: Bits)
    requires |e| == 39
  {
    e[..32] == if 1 <= Named(e) <= 32 then OneHot(Named(e) - 1, 32) else Zeros(32)
  }

  lemma {:induction false} DecodedData(d: Data, e: Bits, upper: Bits)
    requires |e| == 39 && |upper| == 25 && Parity(e)
    ensures Checked(Xor(Code(d), e) + upper)[..39] == Code(d) <==> Undone(e)
  {
    var r, ed, s := Xor(Code(d), e) + upper, e[..32], Named(e);
    CorruptedParts(d, e, upper);
    if 1 <= s <= 32 {
      CodeInjective(Flip(r[..32], s - 1), d);
      XorOneHot(r[..32], s - 1);
      FlipCancels(d, ed, OneHot(s - 1, 32));
    } else {
      CodeInjective(r[..32], d);
      XorMovesAcross(d, ed, d);
      XorSelf(d, d);
    }
  }

  lemma {:induction false} OddCorrectable(e: Bits)
    requires |e| == 39 && Parity(e)
    ensures Undone(e) <==> Correctable(e)
  {
    if Undone(e) {
      UndoneIsCorrectable(e);
    }
    if Correctable(e) {
      CorrectableIsUndone(e);
    }
  }

  /** Without data bits the check bits alone are named. */
  lemma {:induction false} NamedByCheckBits(e: Bits)
    requires |e| == 39 && e[..32] == Zeros(32)
    ensures Named(e) == ToNat(e[32..38])
  {
    HammingZeros(32);
    assert Xor(Zeros(6), e[32..38]) == e[32..38];
  }

  lemma {:induction false} UndoneIsCorrectable(e: Bits)
    requires |e| == 39 && Parity(e) && Undone(e)
    ensures Correctable(e)
  {
    if 1 <= Named(e) <= 32 {
      NamedFlip(e, Named(e) - 1);
    } else {
      NamedByCheckBits(e);
    }
  }

  lemma {:induction false} CorrectableIsUndone(e: Bits)
    requires |e| == 39 && Parity(e) && Correctable(e)
    ensures Undone(e)
  {
    if IsDataFlip(e) {
      var i :| 0 <= i < 32 && e == OneHot(i, 39);
      DataFlipParts(e, i);
    } else {
      OddIsNonzero(e);
      NamedByCheckBits(e);
    }
  }

  lemma {:induction false} OddIsNonzero(e: Bits)
    requires Parity(e)
    ensures e != Zeros(|e|)
  {
    WeightZero(e);
    ParityIsWeight(e);
  }

  lemma {:induction false} FlipCancels(a: Bits, b: Bits, c: Bits)
    requires |a| == |b| == |c|
    ensures Xor(Xor(a, b), c) == a <==> b == c
  {
    assert Xor(Xor(a, b), c) == Xor(a, Xor(b, c));
    XorMovesAcross(a, a, Xor(b, c));
    XorSelf(a, a);
    XorSelf(b, c);
  }

  lemma {:induction false} CodeInjective(a: Data, b: Data)
    ensures Protect(a)[..39] == Code(a)
    ensures Code(a) == Code(b) <==> a == b
  {
    ProtectParts(a);
    ProtectParts(b);
  }

  /** checkError leaves a word alone exactly when the parity of its 39 code bits is even. */
  lemma {:induction false} CheckedFixedPoints(r: Register)
    ensures Checked(r) == r <==> !Parity(r[..39])
    ensures Parity(r[..39]) ==> IsCodeword(Checked(r)) && Checked(r)[39..] == Zeros(25)
    ensures Checked(Checked(r)) == Checked(r)
  {
    if Parity(r[..39]) {
      var s := ToNat(Syndrome(r));
      var d := if 1 <= s <= 32 then Flip(r[..32], s - 1) else r[..32];
      ProtectParts(d);
      CodeEven(d);
    }
  }

  /** Every corruption of even weight goes unnoticed. */
  lemma {:induction false} EvenErrorsPass(d: Data, e: Bits, upper: Bits)
    requires |e| == 39 && |upper| == 25 && Weight(e) % 2 == 0
    ensures Checked(Xor(Code(d), e) + upper) == Xor(Code(d), e) + upper
  {
    ParityIsWeight(e);
    CorruptedParts(d, e, upper);
  }

  /** The documented promise of single error correction fails: flipping check bit j corrupts data bit 2^j - 1. */
  lemma {:induction false} CheckBitFlipMiscorrects(d: Data, j: nat)
    requires j < 6
    ensures !Correctable(OneHot(32 + j, 39)) && Pow2(j) <= 32
    ensures Checked(Xor(Code(d), OneHot(32 + j, 39)) + Zeros(25)) == Protect(Flip(d, Pow2(j) - 1))
  {
    var e := OneHot(32 + j, 39);
    CorruptedParts(d, e, Zeros(25));
    WeightOneHot(32 + j, 39);
    ParityIsWeight(e);
    CheckBitParts(j);
    OddCorrectable(e);
    assert Xor(d, Zeros(32)) == d;
    assert OneHot(Pow2(j) - 1, 32)[Pow2(j) - 1];
  }

  /**
   Of the 39 single flips, those of the data bits and of the overall parity bit are repaired, those of
   the six check bits are not.
   */
  lemma {:induction false} SingleFlipCorrectable(i: nat)
    requires i < 39
    ensures Correctable(OneHot(i, 39)) <==> i < 32 || i == 38
  {
    var e := OneHot(i, 39);
    WeightOneHot(i, 39);
    ParityIsWeight(e);
    if 32 <= i < 38 {
      CheckBitFlipMiscorrects(Zeros(32), i - 32);
    } else if i == 38 {
      assert e[..32] == Zeros(32) && e[32..38] == Zeros(6);
      ToNatZeros(6);
    }
  }

  lemma {:induction false} CheckBitParts(j: nat)
    requires j < 6
    ensures var e := OneHot(32 + j, 39);
      e[..32] == Zeros(32) && Named(e) == Pow2(j) && 1 <= Pow2(j) <= 32
  {
    var e := OneHot(32 + j, 39);
    HammingZeros(32);
    assert e[..32] == Zeros(32);
    assert Xor(Zeros(6), e[32..38]) == OneHot(j, 6);
    ToNatOneHot(j, 6);
    Pow2Add(j, 5 - j);
    Pow2Fields();
    assert Pow2(6) == 2 * Pow2(5);
    AtLeastFactor(Pow2(j), Pow2(5 - j));
  }

  lemma {:induction false} AtLeastFactor(a: nat, b: nat)
    requires b > 0
    ensures a <= a * b
  {
  }
}
