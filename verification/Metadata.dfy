/**
 The protection metadata carried in bits 40..59 of a register (include/ecc/ecc_metadata.h).
 */
module Metadata {
  import opened Bits

  type Register = b: Bits | |b| == 64 witness Zeros(64)

  const MODE_SHIFT: nat := 40
  const MODE_MASK: nat := 0x3
  const HIST_SHIFT: nat := 42
  const HIST_MASK: nat := 0x3
  const FREQ_SHIFT: nat := 44
  const FREQ_MASK: nat := 0x3FF
  const SIG_SHIFT: nat := 54
  const SIG_MASK: nat := 0x3F

  const MODE_NONE: nat := 0
  const MODE_SEC: nat := 1
  const MODE_SECDED: nat := 2

  const SIG_CRITICAL: nat := 63

  /** Bits 0..34: the literal 0x7FFFFFFFF has 35 ones, although its comment promises 0..38. */
  const DATA_ECC_WIDTH: nat := 35

  function GetField(reg: Register, shift: nat, mask: nat): nat
    requires shift <= 64
  {
    ToNat(And(Shr(reg, shift), FromInt(mask, 64)))
  }

  function GetMode(reg: Register): (v: nat)
    ensures v == ToNat(reg[40..42]) && v < 4
  {
    Pow2Fields();
    GetFieldIsSlice(reg, MODE_SHIFT, MODE_MASK, 2);
    GetField(reg, MODE_SHIFT, MODE_MASK)
  }

  function GetHist(reg: Register): (v: nat)
    ensures v == ToNat(reg[42..44]) && v < 4
  {
    Pow2Fields();
    GetFieldIsSlice(reg, HIST_SHIFT, HIST_MASK, 2);
    GetField(reg, HIST_SHIFT, HIST_MASK)
  }

  function GetFreq(reg: Register): (v: nat)
    ensures v == ToNat(reg[44..54]) && v < 1024
  {
    Pow2Fields();
    GetFieldIsSlice(reg, FREQ_SHIFT, FREQ_MASK, 10);
    GetField(reg, FREQ_SHIFT, FREQ_MASK)
  }

  function GetSignificance(reg: Register): (v: nat)
    ensures v == ToNat(reg[54..60]) && v < 64
  {
    Pow2Fields();
    GetFieldIsSlice(reg, SIG_SHIFT, SIG_MASK, 6);
    GetField(reg, SIG_SHIFT, SIG_MASK)
  }

  function FieldMask(mask: nat, shift: nat): (m: Bits)
    requires shift <= 64
    ensures |m| == 64
  {
    Shl(FromInt(mask, 64), shift)
  }

  function PutField(v: nat, mask: nat, shift: nat): (m: Bits)
    requires shift <= 64
    ensures |m| == 64
  {
    Shl(And(FromInt(v, 64), FromInt(mask, 64)), shift)
  }

  /** Clears the four fields and ors the masked new values in; every other bit is kept. */
  function UpdateMetadata(reg: Register, mode: nat, hist: nat, freq: nat, sig: nat): (r: Register)
  {
    var fields := Or(Or(FieldMask(MODE_MASK, MODE_SHIFT), FieldMask(HIST_MASK, HIST_SHIFT)),
                     Or(FieldMask(FREQ_MASK, FREQ_SHIFT), FieldMask(SIG_MASK, SIG_SHIFT)));
    Or(Or(Or(And(reg, Not(fields)), PutField(mode, MODE_MASK, MODE_SHIFT)), PutField(hist, HIST_MASK, HIST_SHIFT)),
       Or(PutField(freq, FREQ_MASK, FREQ_SHIFT), PutField(sig, SIG_MASK, SIG_SHIFT)))
  }

  lemma {:induction false} Pow2Fields()
    ensures Pow2(2) == 4 && Pow2(6) == 64 && Pow2(10) == 1024
  {
  }

  lemma {:induction false} GetFieldIsSlice(reg: Register, shift: nat, mask: nat, w: nat)
    requires shift + w <= 64 && mask == Pow2(w) - 1
    ensures GetField(reg, shift, mask) == ToNat(reg[shift..shift + w])
  {
    AndLowMask(Shr(reg, shift), mask, w);
    assert Shr(reg, shift)[..w] == reg[shift..shift + w];
    ToNatZeroExtend(reg[shift..shift + w], 64 - w);
  }

  lemma {:induction false} PutFieldBits(v: nat, mask: nat, w: nat, shift: nat)
    requires shift + w <= 64 && mask == Pow2(w) - 1
    ensures PutField(v, mask, shift) == Zeros(shift) + FromInt(v, w) + Zeros(64 - w - shift)
    ensures FieldMask(mask, shift) == Zeros(shift) + Ones(w) + Zeros(64 - w - shift)
  {
    AndLowMask(FromInt(v, 64), mask, w);
    AndLowMask(Ones(64), mask, w);
    assert FromInt(mask, 64) == And(Ones(64), FromInt(mask, 64)) == Ones(w) + Zeros(64 - w);
    FromIntPrefix(v, 64, w);
  }

  lemma {:induction false} UpdateMetadataBit(reg: Register, mode: nat, hist: nat, freq: nat, sig: nat, i: nat)
    requires i < 64
    ensures UpdateMetadata(reg, mode, hist, freq, sig)[i] ==
      if i < 40 || 60 <= i then reg[i]
      else if i < 42 then FromInt(mode, 2)[i - 40]
      else if i < 44 then FromInt(hist, 2)[i - 42]
      else if i < 54 then FromInt(freq, 10)[i - 44]
      else FromInt(sig, 6)[i - 54]
  {
    Pow2Fields();
    PutFieldBits(mode, MODE_MASK, 2, MODE_SHIFT);
    PutFieldBits(hist, HIST_MASK, 2, HIST_SHIFT);
    PutFieldBits(freq, FREQ_MASK, 10, FREQ_SHIFT);
    PutFieldBits(sig, SIG_MASK, 6, SIG_SHIFT);
  }

  lemma {:induction false} UpdateMetadataSlices(reg: Register, mode: nat, hist: nat, freq: nat, sig: nat)
    ensures var r := UpdateMetadata(reg, mode, hist, freq, sig);
      && r[..40] == reg[..40] && r[40..42] == FromInt(mode, 2) && r[42..44] == FromInt(hist, 2)
      && r[44..54] == FromInt(freq, 10) && r[54..60] == FromInt(sig, 6) && r[60..] == reg[60..]
  {
    forall i: nat | i < 64 {
      UpdateMetadataBit(reg, mode, hist, freq, sig, i);
    }
  }

  /** What the accessors read after an update, and the bits an update leaves alone. */
  lemma {:induction false} GetAfterUpdate(reg: Register, mode: nat, hist: nat, freq: nat, sig: nat)
    ensures var r := UpdateMetadata(reg, mode, hist, freq, sig);
      && GetMode(r) == mode % 4 && GetHist(r) == hist % 4
      && GetFreq(r) == freq % 1024 && GetSignificance(r) == sig % 64
      && r[..40] == reg[..40] && r[60..] == reg[60..]
  {
    UpdateMetadataSlices(reg, mode, hist, freq, sig);
    ToNatFromInt(mode, 2);
    ToNatFromInt(hist, 2);
    ToNatFromInt(freq, 10);
    ToNatFromInt(sig, 6);
    Pow2Fields();
  }

  /** Values that fit their fields are read back as they were written. */
  lemma {:induction false} GetAfterUpdateInRange(reg: Register, mode: nat, hist: nat, freq: nat, sig: nat)
    requires mode < 4 && hist < 4 && freq < 1024 && sig < 64
    ensures var r := UpdateMetadata(reg, mode, hist, freq, sig);
      && GetMode(r) == mode && GetHist(r) == hist && GetFreq(r) == freq && GetSignificance(r) == sig
      && r[..40] == reg[..40]
  {
    GetAfterUpdate(reg, mode, hist, freq, sig);
    SmallMod(mode, 4);
    SmallMod(hist, 4);
    SmallMod(freq, 1024);
    SmallMod(sig, 64);
  }

  lemma {:induction false} SmallMod(n: nat, d: nat)
    requires n < d
    ensures n % d == n
  {
  }
}
