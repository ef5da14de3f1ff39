/**
 The error-correcting register format (src/ecc/ecc_utils.cpp): a 39-bit word of 32 data bits,
 6 Hamming check bits and an overall parity bit, with metadata above it.
 */
module Ecc {
  import opened Bits
  import opened Metadata

  type Data = b: Bits | |b| == 32 witness Zeros(32)

  /** The xor of the one-based positions of the set bits. */
  function Hamming(d: Bits): (h: Bits)
    ensures |h| == 6
  {
    if d == [] then Zeros(6)
    else
      var n := |d| - 1;
      if d[n] then Xor(Hamming(d[..n]), FromInt(n + 1, 6)) else Hamming(d[..n])
  }

  /** The codeword of d: data, check bits, and the parity that makes its weight even. */
  function Code(d: Data): (c: Bits)
    ensures |c| == 39
  {
    d + Hamming(d) + [Parity(d) != Parity(Hamming(d))]
  }

  /** A freshly encoded register: bits 39..63 are zero. */
  function Protect(d: Data): (r: Register) {
    Code(d) + Zeros(25)
  }

  predicate IsCodeword(r: Register) {
    r[..39] == Code(r[..32])
  }

  function Syndrome(r: Register): (s: Bits)
    ensures |s| == 6
  {
    Xor(Hamming(r[..32]), r[32..38])
  }

  /** What checkError returns. */
  function Checked(r: Register): Register {
    var s := ToNat(Syndrome(r));
    if !Parity(r[..39]) then r
    else if 1 <= s <= 32 then Protect(Flip(r[..32], s - 1))
    else Protect(r[..32])
  }

  function ModeFor(sig: nat): nat {
    if sig >= SIG_CRITICAL then MODE_SECDED else MODE_SEC
  }

  function NextHist(hist: nat, repaired: bool): nat {
    if repaired && hist < 3 then hist + 1 else hist
  }

  function NextFreq(freq: nat): nat {
    if freq < 1023 then freq + 1 else freq
  }

  /** The word that adaptive_check_error puts the new metadata on. */
  function Processed(r: Register): Register {
    if GetMode(r) != MODE_NONE then Checked(r) else r
  }

  predicate Repaired(r: Register) {
    Processed(r)[..DATA_ECC_WIDTH] != r[..DATA_ECC_WIDTH]
  }

  /** What adaptive_check_error returns. */
  function AdaptiveChecked(r: Register): Register {
    UpdateMetadata(Processed(r), ModeFor(GetSignificance(r)), NextHist(GetHist(r), Repaired(r)),
                   NextFreq(GetFreq(r)), GetSignificance(r))
  }

  /** Folds data bit i into the six parity bits: p[j] ^= bit for each mask 1 << j that hits its position. */
  method FoldBit(p: array<bool>, data: Data, i: nat)
    requires p.Length == 6 && i < 32
    requires p[..] == Hamming(data[..i])
    modifies p
    ensures p[..] == Hamming(data[..i + 1])
  {
    ghost var before := p[..];
    ghost var position := FromInt(i + 1, 6);
    var bit := data[i];
    var pos := i + 1;
    for j := 0 to 6
      invariant forall k :: 0 <= k < j ==> p[k] == (before[k] != (position[k] && bit))
      invariant forall k :: j <= k < 6 ==> p[k] == before[k]
    {
      if pos / Pow2(j) % 2 != 0 {
        p[j] := p[j] != bit;
      }
    }
    assert data[..i + 1][..i] == data[..i];
    assert p[..] == if bit then Xor(before, position) else before;
  }

  /** The loop over the data bits that compute_ecc and checkError share. */
  method ParityBits(data: Data) returns (p: array<bool>)
    ensures fresh(p) && p.Length == 6 && p[..] == Hamming(data)
  {
    p := new bool[6](_ => false);
    for i := 0 to 32
      invariant p[..] == Hamming(data[..i])
    {
      FoldBit(p, data, i);
    }
    assert data[..32] == data;
  }

  method ComputeEcc(data: Data) returns (result: Register)
    ensures result == Protect(data)
  {
    var p := ParityBits(data);
    var hammingCode := p[..];
    var dataParity := Parity(data);
    var hammingParity := Parity(hammingCode);
    var pAll := dataParity != hammingParity;
    result := data + hammingCode + [pAll] + Zeros(25);
  }

  /** Sets the syndrome bits in which computed and received check bits differ. */
  method CompareBits(pComputed: array<bool>, pReceived: Bits) returns (syndrome: Bits)
    requires pComputed.Length == |pReceived| == 6
    ensures syndrome == Xor(pComputed[..], pReceived)
  {
    syndrome := Zeros(6);
    for i := 0 to 6
      invariant syndrome == Xor(pComputed[..], pReceived)[..i] + Zeros(6 - i)
    {
      if pComputed[i] != pReceived[i] {
        syndrome := syndrome[i := true];
      }
    }
  }

  method CheckError(encoded: Register) returns (result: Register)
    ensures result == Checked(encoded)
  {
    var data := encoded[..32];
    var eccReceived := encoded[32..39];
    var pAllReceived := eccReceived[6];
    var pReceived := eccReceived[..6];
    var pComputed := ParityBits(data);
    var differing := CompareBits(pComputed, pReceived);
    var syndrome := ToNat(differing);
    var pAllComputed := Parity(data) != Parity(eccReceived[..6]);
    var parityMismatch := pAllComputed != pAllReceived;
    assert eccReceived[..6] == encoded[32..38];
    ParityOfCode(encoded);
    if syndrome == 0 && !parityMismatch {
      return encoded;
    }
    if syndrome == 0 && parityMismatch {
      result := ComputeEcc(data);
      return;
    }
    if syndrome != 0 && parityMismatch {
      var errorPos := syndrome;
      if 1 <= errorPos <= 32 {
        data := Flip(data, errorPos - 1);
      }
      result := ComputeEcc(data);
      return;
    }
    result := encoded;
  }

  method AdaptiveCheckError(reg: Register) returns (result: Register)
    ensures result == AdaptiveChecked(reg)
  {
    var mode := GetMode(reg);
    var hist := GetHist(reg);
    var freq := GetFreq(reg);
    var sig := GetSignificance(reg);
    if freq < 1023 {
      freq := freq + 1;
    }
    var processed := reg;
    if mode != MODE_NONE {
      processed := CheckError(reg);
      if processed[..DATA_ECC_WIDTH] != reg[..DATA_ECC_WIDTH] {
        if hist < 3 {
          hist := hist + 1;
        }
      }
    }
    var highUsage := freq > 700;
    var recentErrors := hist >= 1;
    if highUsage || recentErrors {
      mode := MODE_SECDED;
    } else if freq > 300 {
      mode := MODE_SEC;
    } else {
      mode := MODE_SEC;
    }
    if sig >= SIG_CRITICAL {
      mode := MODE_SECDED;
    } else {
      mode := MODE_SEC;
    }
    assert processed == Processed(reg) && hist == NextHist(GetHist(reg), Repaired(reg));
    result := UpdateMetadata(processed, mode, hist, freq, sig);
  }

  /** The overall parity of the 39 code bits, as checkError computes it from its three parts. */
  lemma {:induction false} ParityOfCode(r: Register)
    ensures Parity(r[..39]) == ((Parity(r[..32]) != Parity(r[32..38])) != r[38])
  {
    assert r[..39] == r[..32] + r[32..38] + [r[38]];
    ParityConcat(r[..32], r[32..38]);
    ParityConcat(r[..32] + r[32..38], [r[38]]);
  }

  lemma {:induction false} ProtectParts(d: Data)
    ensures Code(d)[..32] == d && Code(d)[32..38] == Hamming(d)
    ensures Protect(d)[..39] == Code(d) && Protect(d)[..32] == d && Protect(d)[39..] == Zeros(25)
    ensures IsCodeword(Protect(d))
  {
  }
}
