/**
 The back-patch loop at the end of Parser::parse, and the statement it exists for: a patched branch
 or jump, once encoded and read back by the virtual machine, reaches its label.
 */
module BackPatching {
  import opened Bits
  import opened Wrappers
  import opened Instructions
  import opened CodeGenerator
  import opened Immediates
  import opened DataSection

  type Code = seq<(ICUnit, bool)>

  /** The 64-bit difference read as a signed number; index * 4 is a 32-bit product. */
  function Offset(address: nat, index: nat): int {
    var difference := (address - index * 4 % 0x1_0000_0000) % 0x1_0000_0000_0000_0000;
    if difference < 0x8000_0000_0000_0000 then difference else difference - 0x1_0000_0000_0000_0000
  }

  predicate IsB(u: ICUnit) {
    u.opcode.Some? && EncodingOf(u.opcode.value).B?
  }

  predicate IsJ(u: ICUnit) {
    u.opcode.Some? && EncodingOf(u.opcode.value).J?
  }

  /** What happens to one unit: a new content if any, and whether an error is recorded. */
  datatype Outcome = Outcome(block: Option<ICUnit>, failed: bool)

  function Patch(symbols: map<string, SymbolData>, block: ICUnit, index: nat): Outcome {
    if block.target !in symbols then Outcome(None, true)
    else
      var symbol := symbols[block.target];
      var offset := Offset(symbol.address, index);
      if IsB(block) then
        if symbol.isData then Outcome(Some(block), true)
        else if -4096 <= offset <= 4095 then Outcome(Some(block.(imm := offset)), false)
        else Outcome(None, true)
      else if IsJ(block) then
        if -0x10_0000 <= offset <= 0xF_FFFF then Outcome(Some(block.(imm := offset)), false)
        else Outcome(None, true)
      else Outcome(None, true)
  }

  function PatchAt(code: Code, symbols: map<string, SymbolData>, index: nat): (r: Code)
    requires index < |code|
    ensures |r| == |code|
  {
    var o := Patch(symbols, code[index].0, index);
    if o.block.Some? then code[index := (o.block.value, true)] else code
  }

  predicate InBounds(code: Code, patches: seq<nat>) {
    forall i :: 0 <= i < |patches| ==> patches[i] < |code|
  }

  /** The intermediate code after the loop over the back-patch list. */
  function PatchedCode(code: Code, symbols: map<string, SymbolData>, patches: seq<nat>): (r: Code)
    requires InBounds(code, patches)
    ensures |r| == |code|
  {
    if patches == [] then code
    else
      var n := |patches| - 1;
      assert patches[n] < |code|;
      PatchAt(PatchedCode(code, symbols, patches[..n]), symbols, patches[n])
  }

  /** The number of entries of the list that record an error. */
  function Failures(code: Code, symbols: map<string, SymbolData>, patches: seq<nat>): nat
    requires InBounds(code, patches)
  {
    if patches == [] then 0
    else
      var n := |patches| - 1;
      assert patches[n] < |code|;
      var block := PatchedCode(code, symbols, patches[..n])[patches[n]].0;
      Failures(code, symbols, patches[..n]) + if Patch(symbols, block, patches[n]).failed then 1 else 0
  }

  /** Patching touches nothing but immediates and flags, and only at listed indices. */
  lemma {:induction false} PatchingFrame(code: Code, symbols: map<string, SymbolData>, patches: seq<nat>, i: nat)
    requires InBounds(code, patches) && i < |code|
    ensures var r := PatchedCode(code, symbols, patches);
      && r[i].0 == code[i].0.(imm := r[i].0.imm)
      && (i !in patches ==> r[i] == code[i])
    decreases |patches|
  {
    if patches != [] {
      var n := |patches| - 1;
      PatchingFrame(code, symbols, patches[..n], i);
      assert patches == patches[..n] + [patches[n]];
    }
  }

  /** A branch or jump whose immediate passed the range test. */
  predicate Reachable(u: ICUnit) {
    (IsB(u) && -4096 <= u.imm <= 4095) || (IsJ(u) && -0x10_0000 <= u.imm < 0x10_0000)
  }

  /** Without a recorded error, every listed unit is a B or J unit with the offset to its label, in range. */
  lemma {:induction false} PatchedImmediate(code: Code, symbols: map<string, SymbolData>, patches: seq<nat>, i: nat)
    requires InBounds(code, patches) && i in patches && Failures(code, symbols, patches) == 0
    ensures i < |code|
    ensures var u := PatchedCode(code, symbols, patches)[i].0;
      && u.target in symbols
      && u.imm == Offset(symbols[u.target].address, i)
      && Reachable(u)
      && (IsB(u) ==> !symbols[u.target].isData)
      && PatchedCode(code, symbols, patches)[i].1
    decreases |patches|
  {
    var n := |patches| - 1;
    var prev := PatchedCode(code, symbols, patches[..n]);
    assert patches[n] < |code|;
    if patches[n] != i {
      assert patches == patches[..n] + [patches[n]];
      PatchedImmediate(code, symbols, patches[..n], i);
    }
  }

  /** What back-patching accepts: a known label, of the text section for a branch, within reach. */
  predicate Patchable(symbols: map<string, SymbolData>, u: ICUnit, index: nat) {
    && u.target in symbols
    && (IsB(u) ==> !symbols[u.target].isData)
    && Reachable(u.(imm := Offset(symbols[u.target].address, index)))
  }

  predicate AllPatchable(code: Code, symbols: map<string, SymbolData>, patches: seq<nat>)
    requires InBounds(code, patches)
  {
    forall k :: 0 <= k < |patches| ==> Patchable(symbols, code[patches[k]].0, patches[k])
  }

  /** No error is recorded exactly when every listed unit can be patched as it was parsed. */
  lemma {:induction false} NoFailuresExactly(code: Code, symbols: map<string, SymbolData>, patches: seq<nat>)
    requires InBounds(code, patches)
    ensures Failures(code, symbols, patches) == 0 <==> AllPatchable(code, symbols, patches)
    decreases |patches|
  {
    if patches != [] {
      var n := |patches| - 1;
      var f, i := patches[..n], patches[n];
      NoFailuresExactly(code, symbols, f);
      AllButLast(code, symbols, patches);
      PatchingFrame(code, symbols, f, i);
      PatchFails(symbols, code[i].0, PatchedCode(code, symbols, f)[i].0, i);
    }
  }

  lemma {:induction false} AllButLast(code: Code, symbols: map<string, SymbolData>, patches: seq<nat>)
    requires InBounds(code, patches) && patches != []
    ensures var n := |patches| - 1;
      AllPatchable(code, symbols, patches) <==>
        AllPatchable(code, symbols, patches[..n]) && Patchable(symbols, code[patches[n]].0, patches[n])
  {
    var n := |patches| - 1;
    if AllPatchable(code, symbols, patches) {
      assert forall k :: 0 <= k < n ==> patches[..n][k] == patches[k];
    }
    if AllPatchable(code, symbols, patches[..n]) {
      assert forall k :: 0 <= k < n ==> patches[k] == patches[..n][k];
    }
  }

  /** How many listed units cannot be patched, as they were parsed. */
  function Misses(code: Code, symbols: map<string, SymbolData>, patches: seq<nat>): nat
    requires InBounds(code, patches)
  {
    if patches == [] then 0
    else
      var n := |patches| - 1;
      assert patches[n] < |code|;
      Misses(code, symbols, patches[..n]) + if Patchable(symbols, code[patches[n]].0, patches[n]) then 0 else 1
  }

  /** Each of them is one failure. */
  lemma {:induction false} FailuresCounted(code: Code, symbols: map<string, SymbolData>, patches: seq<nat>)
    requires InBounds(code, patches)
    ensures Failures(code, symbols, patches) == Misses(code, symbols, patches)
    decreases |patches|
  {
    if patches != [] {
      var n := |patches| - 1;
      var f, i := patches[..n], patches[n];
      FailuresCounted(code, symbols, f);
      PatchingFrame(code, symbols, f, i);
      PatchFails(symbols, code[i].0, PatchedCode(code, symbols, f)[i].0, i);
    }
  }

  /** Whether patching fails does not depend on the immediate it replaces. */
  lemma {:induction false} PatchFails(symbols: map<string, SymbolData>, u: ICUnit, v: ICUnit, index: nat)
    requires v == u.(imm := v.imm)
    ensures Patch(symbols, v, index).failed <==> !Patchable(symbols, u, index)
  {
  }

  lemma {:induction false} OffsetIsDifference(address: nat, index: nat)
    requires address < 0x1_0000_0000 && index * 4 < 0x1_0000_0000 && address % 4 == 0
    ensures Offset(address, index) == address - index * 4 && Offset(address, index) % 2 == 0
  {
    SmallProduct(index * 4);
    SignedDifference(address - index * 4);
    EvenDifference(address, index);
  }

  lemma {:induction false} SmallProduct(p: nat)
    requires p < 0x1_0000_0000
    ensures p % 0x1_0000_0000 == p
  {
  }

  lemma {:induction false} EvenDifference(address: nat, index: nat)
    requires address % 4 == 0
    ensures (address - index * 4) % 2 == 0
  {
    DivModUnique(address - index * 4, 2, 2 * (address / 4) - 2 * index, 0);
  }

  lemma {:induction false} SignedDifference(d: int)
    requires -0x1_0000_0000 < d < 0x1_0000_0000
    ensures var w := d % 0x1_0000_0000_0000_0000;
      d == if w < 0x8000_0000_0000_0000 then w else w - 0x1_0000_0000_0000_0000
  {
  }

  /** The registers of a branch or jump are in range. */
  predicate RegistersInRange(u: ICUnit) {
    IsRegister(u.rd) && IsRegister(u.rs1) && IsRegister(u.rs2)
  }

  /** A branch or jump with an even, in-range immediate is read back with that immediate. */
  lemma {:induction false} EmittedImmediate(u: ICUnit, w: Word)
    requires RegistersInRange(u) && u.imm % 2 == 0 && Emits(u, w)
    requires Reachable(u)
    ensures ImmGenerator(w) == u.imm
  {
    TablesListed(u.opcode.value);
    EncodedImmediate(u, EncodingOf(u.opcode.value));
  }

  lemma {:induction false} EncodedImmediate(u: ICUnit, e: Encoding)
    requires Listed(e) && InRange(u, e) && (e.B? || e.J?)
    ensures ImmGenerator(Layout(u, e)) == u.imm
  {
    if e.B? {
      ImmediateOfB(u, e);
    } else {
      ImmediateOfJ(u, e);
    }
  }

  /**
   If back-patching records no error, a listed instruction with a text label reaches it: its own
   address plus the immediate that the virtual machine reads off its word is the label's address.
   */
  lemma {:induction false} PatchedInstructionReachesLabel(
    code: Code, symbols: map<string, SymbolData>, patches: seq<nat>, i: nat, w: Word
  )
    requires InBounds(code, patches) && i in patches && Failures(code, symbols, patches) == 0
    requires i * 4 < 0x1_0000_0000 && i < |code| && RegistersInRange(code[i].0)
    requires code[i].0.target in symbols ==> TextLabel(symbols[code[i].0.target])
    requires Emits(PatchedCode(code, symbols, patches)[i].0, w)
    ensures code[i].0.target in symbols && 4 * i + ImmGenerator(w) == symbols[code[i].0.target].address
  {
    PatchedUnit(code, symbols, patches, i);
    EmittedImmediate(PatchedCode(code, symbols, patches)[i].0, w);
  }

  lemma {:induction false} PatchedUnit(code: Code, symbols: map<string, SymbolData>, patches: seq<nat>, i: nat)
    requires InBounds(code, patches) && i in patches && Failures(code, symbols, patches) == 0
    requires i * 4 < 0x1_0000_0000 && i < |code| && RegistersInRange(code[i].0)
    requires code[i].0.target in symbols ==> TextLabel(symbols[code[i].0.target])
    ensures var u := PatchedCode(code, symbols, patches)[i].0;
      && u.target == code[i].0.target && u.target in symbols
      && RegistersInRange(u) && Reachable(u)
      && u.imm == symbols[u.target].address - 4 * i && u.imm % 2 == 0
  {
    var u := PatchedCode(code, symbols, patches)[i].0;
    PatchingFrame(code, symbols, patches, i);
    assert u == code[i].0.(imm := u.imm);
    PatchedImmediate(code, symbols, patches, i);
    OffsetIsDifference(symbols[u.target].address, i);
  }

  /** A label of the text section: its address is four times an instruction index. */
  predicate TextLabel(s: SymbolData) {
    !s.isData && s.address % 4 == 0 && s.address < 0x1_0000_0000
  }
}
