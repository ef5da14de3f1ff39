/**
 Protected words over whole computations: unbounded runs of flips and checks, and expression
 trees whose intermediate results are flipped and scrubbed on any edge.
 */
module Scrubbing {
  import opened Bits
  import opened Metadata
  import opened Ecc
  import opened Wrappers
  import opened EccTheorems
  import opened Alu
  import opened AluTheorems

  function Disturb(r: Register, flip: Draw): Register {
    if flip.Some? then Flip(r, flip.value) else r
  }

  /** A codeword that checks are enabled for. */
  predicate Sound(r: Register) {
    IsCodeword(r) && GetMode(r) != MODE_NONE
  }

  function Min(x: nat, y: nat): nat {
    if x < y then x else y
  }

  lemma {:induction false} DisturbedParts(r: Register, flip: Draw)
    ensures var c := Disturb(r, flip);
      && c[39..] == r[39..] && GetMode(c) == GetMode(r) && GetHist(c) == GetHist(r)
      && GetFreq(c) == GetFreq(r) && GetSignificance(c) == GetSignificance(r)
      && (flip.Some? <==> c[..35] != r[..35])
  {
    var c := Disturb(r, flip);
    assert c[40..42] == r[40..42] && c[42..44] == r[42..44] && c[44..54] == r[44..54] && c[54..60] == r[54..60];
    if flip.Some? {
      assert c[..35][flip.value] != r[..35][flip.value];
    }
  }

  /** At most one data flip: checkError gives the codeword back. */
  lemma {:induction false} CheckedRestores(r: Register, flip: Draw)
    requires IsCodeword(r)
    ensures Checked(Disturb(r, flip))[..39] == r[..39]
  {
    var d := r[..32];
    var c := Disturb(r, flip);
    CodeEven(d);
    if flip.Some? {
      var e := OneHot(flip.value, 39);
      XorOneHot(Code(d), flip.value);
      assert c == Xor(Code(d), e) + r[39..];
      DecodingExact(d, e, r[39..]);
    }
  }

  lemma {:induction false} PrefixAgrees(a: Bits, b: Bits, n: nat, m: nat)
    requires m <= n <= |a| && n <= |b| && a[..n] == b[..n]
    ensures a[..m] == b[..m]
  {
  }

  /** adaptive_check_error keeps what checkError returns below bit 39 and rewrites the metadata. */
  lemma {:induction false} AdaptiveParts(c: Register)
    requires GetMode(c) != MODE_NONE
    ensures AdaptiveChecked(c)[..39] == Checked(c)[..39]
    ensures GetHist(AdaptiveChecked(c)) == Min(3, GetHist(c) + if Checked(c)[..35] != c[..35] then 1 else 0)
    ensures GetFreq(AdaptiveChecked(c)) == Min(1023, GetFreq(c) + 1)
    ensures GetSignificance(AdaptiveChecked(c)) == GetSignificance(c)
    ensures GetMode(AdaptiveChecked(c)) == ModeFor(GetSignificance(c))
  {
    GetAfterUpdateInRange(Processed(c), ModeFor(GetSignificance(c)), NextHist(GetHist(c), Repaired(c)),
                          NextFreq(GetFreq(c)), GetSignificance(c));
    PrefixAgrees(AdaptiveChecked(c), Checked(c), 40, 39);
  }

  /** With protection off a check keeps the word and its history, and reports nothing. */
  lemma {:induction false} UncheckedKept(c: Register)
    requires GetMode(c) == MODE_NONE
    ensures var (q, corrected) := Execute(CheckError, c, Zeros(64), None);
      && q[..40] == c[..40] && q[60..] == c[60..] && !corrected
      && GetHist(q) == GetHist(c) && GetSignificance(q) == GetSignificance(c)
      && GetFreq(q) == Min(1023, GetFreq(c) + 1)
  {
    GetAfterUpdateInRange(c, ModeFor(GetSignificance(c)), NextHist(GetHist(c), false), NextFreq(GetFreq(c)),
                          GetSignificance(c));
    assert AdaptiveChecked(c)
        == UpdateMetadata(c, ModeFor(GetSignificance(c)), GetHist(c), NextFreq(GetFreq(c)), GetSignificance(c));
    UpdateMetadataSlices(c, ModeFor(GetSignificance(c)), GetHist(c), NextFreq(GetFreq(c)), GetSignificance(c));
    PrefixAgrees(AdaptiveChecked(c), c, 40, 35);
  }

  /** One round: the code is restored, the metadata counts the round and the repair, and the flag reports it. */
  lemma {:induction false} CheckRound(r: Register, flip: Draw)
    requires Sound(r)
    ensures var (q, corrected) := Execute(CheckError, Disturb(r, flip), Zeros(64), None);
      && Sound(q) && q[..39] == r[..39]
      && GetHist(q) == Min(3, GetHist(r) + if flip.Some? then 1 else 0)
      && GetFreq(q) == Min(1023, GetFreq(r) + 1)
      && GetSignificance(q) == GetSignificance(r)
      && GetMode(q) == ModeFor(GetSignificance(r))
      && (corrected <==> flip.Some?)
  {
    var c := Disturb(r, flip);
    DisturbedParts(r, flip);
    CheckedRestores(r, flip);
    AdaptiveParts(c);
    PrefixAgrees(Checked(c), r, 39, 35);
    PrefixAgrees(AdaptiveChecked(c), r, 39, 35);
    PrefixAgrees(AdaptiveChecked(c), r, 39, 32);
  }

  // Which repairs are recorded

  /** The syndromes whose repair touches bits 35 to 38 only. */
  predicate Unseen(syndrome: nat) {
    syndrome in {0, 40, 48, 56}
  }

  /** checkError changes the masked bits 0 to 34 of an odd word except for these syndromes. */
  lemma {:induction false} RepairSeenExactly(c: Register)
    requires Parity(c[..39])
    ensures Checked(c)[..39] != c[..39]
    ensures Checked(c)[..35] != c[..35] <==> !Unseen(ToNat(Syndrome(c)))
  {
    var d, s := c[..32], ToNat(Syndrome(c));
    CheckedFixedPoints(c);
    if 1 <= s <= 32 {
      ProtectParts(Flip(d, s - 1));
      CodeEven(Flip(d, s - 1));
      assert Checked(c)[..35][s - 1] != c[..35][s - 1];
    } else {
      ProtectParts(d);
      CodeEven(d);
      ProtectedPrefix(d, c);
      UnseenSyndrome(Hamming(d), c[32..38]);
    }
  }

  /** Beyond 32, the unseen syndromes are those with their low three bits clear. */
  lemma {:induction false} UnseenSyndrome(h: Bits, received: Bits)
    requires |h| == 6 && |received| == 6 && !(1 <= ToNat(Xor(h, received)) <= 32)
    ensures Unseen(ToNat(Xor(h, received))) <==> h[..3] == received[..3]
  {
    var s := Xor(h, received);
    LowSyndrome(s);
    XorSlice(h, received, 0, 3);
    XorMovesAcross(h[..3], received[..3], Zeros(3));
    assert Xor(h[..3], Zeros(3)) == h[..3];
    MultipleOfEight(ToNat(s));
  }

  lemma {:induction false} MultipleOfEight(s: nat)
    requires s < 64 && !(1 <= s <= 32)
    ensures Unseen(s) <==> s % 8 == 0
  {
  }

  lemma {:induction false} ProtectedPrefix(d: Data, c: Register)
    requires d == c[..32]
    ensures Protect(d)[..35] == c[..35] <==> Hamming(d)[..3] == c[32..38][..3]
  {
    ProtectParts(d);
    assert Protect(d)[..35] == d + Hamming(d)[..3];
    assert c[..35] == c[..32] + c[32..38][..3];
    if Protect(d)[..35] == c[..35] {
      assert Hamming(d)[..3] == Protect(d)[..35][32..];
      assert c[32..38][..3] == c[..35][32..];
    }
  }

  /** The low three bits of a syndrome are clear exactly in the multiples of eight. */
  lemma {:induction false} LowSyndrome(s: Bits)
    requires |s| == 6
    ensures ToNat(s) < 64
    ensures s[..3] == Zeros(3) <==> ToNat(s) % 8 == 0
  {
    Pow2Fields();
    ToNatSplit(s, 3);
    ToNatZeros(3);
    if ToNat(s) % 8 == 0 {
      ToNatInjective(s[..3], Zeros(3));
    }
  }

  /**
   DATA_ECC_MASK stops at bit 34, not 38: of all words that kCheckError repairs, exactly those whose
   syndrome is 0, 40, 48 or 56 go unrecorded, in the flag and in the history alike.
   */
  lemma {:induction false} RepairRecordedExactly(c: Register)
    requires GetMode(c) != MODE_NONE
    ensures var (q, corrected) := Execute(CheckError, c, Zeros(64), None);
      && (q[..39] != c[..39] <==> Parity(c[..39]))
      && (corrected <==> Parity(c[..39]) && !Unseen(ToNat(Syndrome(c))))
      && GetHist(q) == Min(3, GetHist(c) + if corrected then 1 else 0)
  {
    AdaptiveParts(c);
    PrefixAgrees(AdaptiveChecked(c), Checked(c), 39, 35);
    if Parity(c[..39]) {
      RepairSeenExactly(c);
    } else {
      CheckedFixedPoints(c);
    }
  }

  /** A correctable odd error with such a syndrome is repaired without a trace. */
  lemma {:induction false} UnseenError(r: Register, e: Bits)
    requires Sound(r) && |e| == 39 && Parity(e) && Correctable(e) && Unseen(Named(e))
    ensures var (q, corrected) := Execute(CheckError, Xor(r[..39], e) + r[39..], Zeros(64), None);
      q[..39] == r[..39] && GetHist(q) == GetHist(r) && !corrected
  {
    var c := Xor(r[..39], e) + r[39..];
    CorruptedParts(r[..32], e, r[39..]);
    DecodingExact(r[..32], e, r[39..]);
    SameMetadata(c, r);
    RepairRecordedExactly(c);
    AdaptiveParts(c);
  }

  lemma {:induction false} SameMetadata(c: Register, r: Register)
    requires c[39..] == r[39..]
    ensures GetMode(c) == GetMode(r) && GetHist(c) == GetHist(r)
  {
    assert c[40..42] == c[39..][1..3] && r[40..42] == r[39..][1..3];
    assert c[42..44] == c[39..][3..5] && r[42..44] == r[39..][3..5];
  }

  /** The flipped overall parity bit is one such error. */
  lemma {:induction false} ParityRepairUnrecorded(r: Register)
    requires Sound(r)
    ensures var (q, corrected) := Execute(CheckError, Flip(r, 38), Zeros(64), None);
      q[..39] == r[..39] && Flip(r, 38)[38] != r[38] && GetHist(q) == GetHist(r) && !corrected
  {
    ParityFlipUnseen();
    UnseenError(r, OneHot(38, 39));
    FlipIsXor(r, 38);
  }

  lemma {:induction false} FlipIsXor(r: Register, i: nat)
    requires i < 39
    ensures Flip(r, i) == Xor(r[..39], OneHot(i, 39)) + r[39..] && Flip(r, i)[i] != r[i]
  {
    XorOneHot(r[..39], i);
  }

  lemma {:induction false} ParityFlipUnseen()
    ensures var e := OneHot(38, 39); Parity(e) && Correctable(e) && Unseen(Named(e))
  {
    var e := OneHot(38, 39);
    SingleFlipCorrectable(38);
    WeightOneHot(38, 39);
    ParityIsWeight(e);
    assert e[..32] == Zeros(32) && e[32..38] == Zeros(6);
    NamedByCheckBits(e);
    ToNatZeros(6);
  }

  /** So are the three flips of bits 35, 37 and 38, with syndrome 40. */
  lemma {:induction false} TripleRepairUnrecorded(r: Register)
    requires Sound(r)
    ensures var e := TripleFlip();
      var (q, corrected) := Execute(CheckError, Xor(r[..39], e) + r[39..], Zeros(64), None);
      Named(e) == 40 && q[..39] == r[..39] && GetHist(q) == GetHist(r) && !corrected
  {
    TripleFlipParts();
    UnseenError(r, TripleFlip());
  }

  function TripleFlip(): (e: Bits)
    ensures |e| == 39
  {
    Zeros(35) + [true, false, true, true]
  }

  lemma {:induction false} TripleFlipParts()
    ensures Named(TripleFlip()) == 40 && Parity(TripleFlip()) && Correctable(TripleFlip())
  {
    TripleNamed();
    TripleParity();
    OddCorrectable(TripleFlip());
  }

  lemma {:induction false} TripleNamed()
    ensures TripleFlip()[..32] == Zeros(32) && Named(TripleFlip()) == 40
  {
    var e, h := TripleFlip(), [false, false, false, true, false, true];
    HammingZeros(32);
    assert e[..32] == Zeros(32) && e[32..38] == h && Xor(Zeros(6), h) == h;
    TripleValue();
  }

  lemma {:induction false} TripleParity()
    ensures Parity(TripleFlip())
  {
    ParityConcat(Zeros(35), [true, false, true, true]);
    WeightZero(Zeros(35));
    ParityIsWeight(Zeros(35));
    OddTail();
  }

  lemma {:induction false} TripleValue()
    ensures ToNat([false, false, false, true, false, true]) == 40
  {
    assert ToNat([true]) == 1;
    assert [false, true][1..] == [true] && [true, false, true][1..] == [false, true];
    assert ToNat([true, false, true]) == 5;
    ToNatAppend(Zeros(3), [true, false, true]);
    ToNatZeros(3);
    assert Zeros(3) + [true, false, true] == [false, false, false, true, false, true];
    assert Pow2(3) == 8;
  }

  lemma {:induction false} OddTail()
    ensures Parity([true, false, true, true])
  {
    assert [true, false, true, true][..3] == [true, false, true];
    assert [true, false, true][..2] == [true, false];
    assert [true, false][..1] == [true];
    assert [true][..0] == [];
  }

  // Runs of flips, checks and significance changes

  datatype Event = Inject(flip: Draw) | Check | Set(b: Register)

  function StepEvent(r: Register, ev: Event): Register {
    match ev
    case Inject(flip) => Execute(InjectFlip, r, Zeros(64), flip).0
    case Check => Execute(CheckError, r, Zeros(64), None).0
    case Set(b) => Execute(SetSig, r, b, None).0
  }

  function Run(r: Register, evs: seq<Event>): Register
    decreases |evs|
  {
    if evs == [] then r else Run(StepEvent(r, evs[0]), evs[1..])
  }

  /** What an observer of the events alone expects to find in the register. */
  datatype Tally = Tally(checks: nat, repairs: nat, sig: nat, mode: nat, pending: Draw)

  function Tick(t: Tally, ev: Event): Tally {
    match ev
    case Inject(flip) => if flip.Some? then t.(pending := flip) else t
    case Check =>
      t.(checks := t.checks + 1, repairs := t.repairs + (if t.pending.Some? then 1 else 0),
         mode := ModeFor(t.sig), pending := None)
    case Set(b) => t.(sig := ToNat(b[..8]) % 64)
  }

  function Observe(t: Tally, evs: seq<Event>): Tally
    decreases |evs|
  {
    if evs == [] then t else Observe(Tick(t, evs[0]), evs[1..])
  }

  /** No second flip before the first one has been checked. */
  predicate Disciplined(pending: Draw, evs: seq<Event>)
    decreases |evs|
  {
    evs == [] ||
    match evs[0]
    case Inject(flip) =>
      if flip.Some? then pending.None? && Disciplined(flip, evs[1..]) else Disciplined(pending, evs[1..])
    case Check => Disciplined(None, evs[1..])
    case Set(_) => Disciplined(pending, evs[1..])
  }

  /** r carries what t predicts, starting from history h, frequency f and the 39 code bits. */
  predicate Tracks(r: Register, t: Tally, h: nat, f: nat, code: Bits) {
    && Sound(r)
    && r[..39] == code
    && GetHist(r) == Min(3, h + t.repairs)
    && GetFreq(r) == Min(1023, f + t.checks)
    && GetSignificance(r) == t.sig
    && GetMode(r) == t.mode
  }

  /** On any register kSetSig replaces the significance only, whether or not a flip is pending. */
  lemma {:induction false} SetSigRound(r: Register, flip: Draw, b: Register) returns (q: Register)
    ensures Execute(SetSig, Disturb(r, flip), b, None).0 == Disturb(q, flip)
    ensures q[..39] == r[..39] && (Sound(r) ==> Sound(q)) && GetMode(q) == GetMode(r) && GetHist(q) == GetHist(r)
    ensures GetFreq(q) == GetFreq(r) && GetSignificance(q) == ToNat(b[..8]) % 64
  {
    var sig := ToNat(b[..8]);
    SetSigDisturbed(r, flip, b, sig);
    SetSigFields(r, sig);
    q := UpdateMetadata(r, GetMode(r), GetHist(r), GetFreq(r), sig);
  }

  lemma {:induction false} SetSigDisturbed(r: Register, flip: Draw, b: Register, sig: nat)
    requires sig == ToNat(b[..8])
    ensures Execute(SetSig, Disturb(r, flip), b, None).0
         == Disturb(UpdateMetadata(r, GetMode(r), GetHist(r), GetFreq(r), sig), flip)
  {
    DisturbedParts(r, flip);
    UpdateDisturbed(r, flip, GetMode(r), GetHist(r), GetFreq(r), sig);
  }

  /** A metadata update commutes with a data flip. */
  lemma {:induction false} UpdateDisturbed(r: Register, flip: Draw, mode: nat, hist: nat, freq: nat, sig: nat)
    ensures UpdateMetadata(Disturb(r, flip), mode, hist, freq, sig)
         == Disturb(UpdateMetadata(r, mode, hist, freq, sig), flip)
  {
  }

  lemma {:induction false} SetSigFields(r: Register, sig: nat)
    ensures var q := UpdateMetadata(r, GetMode(r), GetHist(r), GetFreq(r), sig);
      && (Sound(r) ==> Sound(q)) && q[..39] == r[..39] && GetMode(q) == GetMode(r) && GetHist(q) == GetHist(r)
      && GetFreq(q) == GetFreq(r) && GetSignificance(q) == sig % 64
  {
    var q := UpdateMetadata(r, GetMode(r), GetHist(r), GetFreq(r), sig);
    GetAfterUpdate(r, GetMode(r), GetHist(r), GetFreq(r), sig);
    SmallMod(GetMode(r), 4);
    SmallMod(GetHist(r), 4);
    SmallMod(GetFreq(r), 1024);
    PrefixAgrees(q, r, 40, 39);
    PrefixAgrees(q, r, 40, 32);
  }

  /** One event keeps the register on the observer's prediction, up to the pending flip. */
  lemma {:induction false} StepTracks(r: Register, t: Tally, ev: Event, h: nat, f: nat, code: Bits)
    returns (q: Register)
    requires Tracks(r, t, h, f, code) && Disciplined(t.pending, [ev])
    ensures Tracks(q, Tick(t, ev), h, f, code)
    ensures StepEvent(Disturb(r, t.pending), ev) == Disturb(q, Tick(t, ev).pending)
  {
    match ev
    case Inject(_) =>
      q := r;
    case Check =>
      q := StepEvent(Disturb(r, t.pending), ev);
      CheckTracks(r, t, h, f, code);
    case Set(b) =>
      q := SetSigRound(r, t.pending, b);
  }

  lemma {:induction false} CheckTracks(r: Register, t: Tally, h: nat, f: nat, code: Bits)
    requires Tracks(r, t, h, f, code)
    ensures Tracks(StepEvent(Disturb(r, t.pending), Check), Tick(t, Check), h, f, code)
  {
    CheckRound(r, t.pending);
  }

  lemma {:induction false} RunTracks(r: Register, t: Tally, evs: seq<Event>, h: nat, f: nat, code: Bits)
    returns (q: Register)
    requires Tracks(r, t, h, f, code) && Disciplined(t.pending, evs)
    ensures Tracks(q, Observe(t, evs), h, f, code)
    ensures Run(Disturb(r, t.pending), evs) == Disturb(q, Observe(t, evs).pending)
    decreases |evs|
  {
    if evs == [] {
      q := r;
    } else {
      assert [evs[0]][1..] == [];
      var s := StepTracks(r, t, evs[0], h, f, code);
      q := RunTracks(s, Tick(t, evs[0]), evs[1..], h, f, code);
    }
  }

  lemma {:induction false} LastCheck(t: Tally, evs: seq<Event>)
    requires evs != [] && evs[|evs| - 1] == Check
    ensures Observe(t, evs).pending == None && Observe(t, evs).mode == ModeFor(Observe(t, evs).sig)
    decreases |evs|
  {
    if |evs| > 1 {
      LastCheck(Tick(t, evs[0]), evs[1..]);
    } else {
      assert evs[1..] == [];
    }
  }

  /**
   However long the run, after each check the code bits are the original ones, the history has
   counted the flips found, the frequency the checks, both saturating, the significance is the
   last one set, and the mode follows the significance.
   */
  lemma {:induction false} RunRestores(r: Register, evs: seq<Event>)
    requires Sound(r) && Disciplined(None, evs)
    requires evs != [] && evs[|evs| - 1] == Check
    ensures var t, q := Observe(Tally(0, 0, GetSignificance(r), GetMode(r), None), evs), Run(r, evs);
      && IsCodeword(q) && q[..39] == r[..39]
      && GetHist(q) == Min(3, GetHist(r) + t.repairs)
      && GetFreq(q) == Min(1023, GetFreq(r) + t.checks)
      && GetSignificance(q) == t.sig
      && GetMode(q) == (if t.sig == 63 then 2 else 1)
  {
    var t := Tally(0, 0, GetSignificance(r), GetMode(r), None);
    var q := RunTracks(r, t, evs, GetHist(r), GetFreq(r), r[..39]);
    LastCheck(t, evs);
  }

  // Expression trees

  datatype Expr =
    | Leaf(word: Register)
    | Node(op: Arith, left: Expr, right: Expr)
    | Scrub(flip: Draw, inner: Expr)

  /** Evaluation on protected registers; a Scrub edge may flip one bit and then checks. */
  function Eval(e: Expr): Register {
    match e
    case Leaf(word) => word
    case Node(op, left, right) => Execute(Protected(op), Eval(left), Eval(right), None).0
    case Scrub(flip, inner) =>
      Execute(CheckError, Execute(InjectFlip, Eval(inner), Zeros(64), flip).0, Zeros(64), None).0
  }

  /** Evaluation on plain 32-bit integers, without codes or scrubbing. */
  function Plain(e: Expr): int {
    match e
    case Leaf(word) => Value(word)
    case Node(op, left, right) => Compute(op, Plain(left), Plain(right)).0
    case Scrub(_, inner) => Plain(inner)
  }

  predicate LeavesSound(e: Expr) {
    match e
    case Leaf(word) => Sound(word)
    case Node(_, left, right) => LeavesSound(left) && LeavesSound(right)
    case Scrub(_, inner) => LeavesSound(inner)
  }

  function Leaves(e: Expr): set<Register> {
    match e
    case Leaf(word) => {word}
    case Node(_, left, right) => Leaves(left) + Leaves(right)
    case Scrub(_, inner) => Leaves(inner)
  }

  /** sig is the greatest significance among the words. */
  ghost predicate Greatest(sig: nat, words: set<Register>) {
    && (forall w :: w in words ==> GetSignificance(w) <= sig)
    && exists w :: w in words && GetSignificance(w) == sig
  }

  /**
   A protected operation delivers a sound word holding the 32-bit result, in mode SEC with no history
   and one use, under the greater significance of its operands; its flag reports an overflow.
   */
  lemma {:induction false} ProtectedResult(op: Arith, a: Register, b: Register)
    ensures var (q, overflow) := Execute(Protected(op), a, b, None);
      && Sound(q)
      && Value(q) == Compute(op, Value(a), Value(b)).0
      && Delivers(op, Value(a), Value(b), Value(q), overflow)
      && GetMode(q) == 1 && GetHist(q) == 0 && GetFreq(q) == 1
      && GetSignificance(q) >= GetSignificance(a) && GetSignificance(q) >= GetSignificance(b)
      && (GetSignificance(q) == GetSignificance(a) || GetSignificance(q) == GetSignificance(b))
  {
    ValueRange(a);
    ValueRange(b);
    ProtectedArithmetic(op, Value(a), Value(b));
    var result, sig := Compute(op, Value(a), Value(b)).0, Max(GetSignificance(a), GetSignificance(b));
    FreshWord(result, sig);
  }

  lemma {:induction false} ValueRange(r: Register)
    ensures InInt32(Value(r))
  {
    Pow2Words();
    ToIntRange(r[..32]);
  }

  lemma {:induction false} FreshWord(result: int, sig: nat)
    requires InInt32(result) && sig < 64
    ensures var q := UpdateMetadata(Protect(FromInt(result, 32)), MODE_SEC, 0, 1, sig);
      && Sound(q) && Value(q) == result && GetSignificance(q) == sig
      && GetMode(q) == 1 && GetHist(q) == 0 && GetFreq(q) == 1
  {
    var p := Protect(FromInt(result, 32));
    Pow2Words();
    ToIntFromInt(result, 32);
    ProtectParts(FromInt(result, 32));
    GetAfterUpdateInRange(p, MODE_SEC, 0, 1, sig);
    var q := UpdateMetadata(p, MODE_SEC, 0, 1, sig);
    PrefixAgrees(q, p, 40, 39);
    PrefixAgrees(q, p, 40, 32);
  }

  /**
   Flipping at most one data bit and checking, on any edges of the tree, does not change what it
   computes; every node is a codeword and the root carries the greatest significance of the leaves.
   */
  lemma {:induction false} TreeEvaluates(e: Expr)
    requires LeavesSound(e)
    ensures Sound(Eval(e)) && Value(Eval(e)) == Plain(e)
    ensures Greatest(GetSignificance(Eval(e)), Leaves(e))
  {
    TreeYields(e, Eval(e));
  }

  /** The tree evaluates to r, which is what it should be. */
  lemma {:induction false} TreeYields(e: Expr, r: Register)
    requires LeavesSound(e) && r == Eval(e)
    ensures Yields(r, Plain(e), Leaves(e))
  {
    match e
    case Leaf(word) =>
      assert word in Leaves(e);
    case Node(op, left, right) =>
      var a, b := Eval(left), Eval(right);
      TreeYields(left, a);
      TreeYields(right, b);
      NodeEvaluates(op, a, b, Leaves(left), Leaves(right));
    case Scrub(flip, inner) =>
      TreeYields(inner, Eval(inner));
      ScrubbedResult(Eval(inner), flip);
  }

  ghost predicate Yields(r: Register, value: int, leaves: set<Register>) {
    Sound(r) && Value(r) == value && Greatest(GetSignificance(r), leaves)
  }

  lemma {:induction false} NodeEvaluates(op: Arith, a: Register, b: Register, left: set<Register>, right: set<Register>)
    requires Greatest(GetSignificance(a), left) && Greatest(GetSignificance(b), right)
    ensures var q := Execute(Protected(op), a, b, None).0;
      && Sound(q) && Value(q) == Compute(op, Value(a), Value(b)).0
      && Greatest(GetSignificance(q), left + right)
  {
    ProtectedResult(op, a, b);
    GreatestOfBoth(left, right, GetSignificance(a), GetSignificance(b),
                   GetSignificance(Execute(Protected(op), a, b, None).0));
  }

  lemma {:induction false} GreatestOfBoth(a: set<Register>, b: set<Register>, i: nat, j: nat, sig: nat)
    requires Greatest(i, a) && Greatest(j, b) && sig >= i && sig >= j && (sig == i || sig == j)
    ensures Greatest(sig, a + b)
  {
    var v :| v in a && GetSignificance(v) == i;
    var w :| w in b && GetSignificance(w) == j;
    assert v in a + b && w in a + b;
  }

  lemma {:induction false} ScrubbedResult(r: Register, flip: Draw)
    requires Sound(r)
    ensures var q := Execute(CheckError, Execute(InjectFlip, r, Zeros(64), flip).0, Zeros(64), None).0;
      Sound(q) && Value(q) == Value(r) && GetSignificance(q) == GetSignificance(r)
  {
    CheckRound(r, flip);
    PrefixAgrees(Execute(CheckError, Disturb(r, flip), Zeros(64), None).0, r, 39, 32);
  }
}
