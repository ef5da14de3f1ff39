/**
 From intermediate code to fetched instructions: what the virtual machine reads back after the program
 is loaded decodes to what was assembled, and its branches and jumps reach their labels.
 */
module LoadedCode {
  import opened Bits
  import opened Wrappers
  import opened DataSection
  import opened Instructions
  import opened CodeGenerator
  import opened Immediates
  import opened Decoder
  import opened BackPatching
  import opened LoadedProgram
  import Loader
  import MainMemory

  /** The words that generateMachineCode emits for the code. */
  ghost predicate Assembled(code: Code, words: seq<Word>) {
    |words| == |code| && forall k :: 0 <= k < |code| ==> Emits(code[k].0, words[k])
  }

  /** The text buffer. */
  function TextOf(words: seq<Word>): (text: seq<nat>)
    ensures |text| == |words|
  {
    seq(|words|, k requires 0 <= k < |words| => ToNat(words[k]))
  }

  /** v is what ReadWord returns at instruction i once text and data are loaded. */
  ghost predicate Fetched(
    m: MainMemory.FlatMemory, size: nat, words: seq<Word>, data: seq<Datum>, base: nat, i: nat, v: nat
  ) {
    var loaded := Loader.AfterLoading(m, size, TextOf(words), data, base).memory;
    MainMemory.FlatPerform(loaded, size, MainMemory.Load(4 * i, 4)).1 == MainMemory.Response.Loaded(v)
  }

  lemma {:induction false} FetchedWord(
    m: MainMemory.FlatMemory, size: nat, words: seq<Word>, data: seq<Datum>, base: nat, i: nat, v: nat
  )
    requires Fits(size, TextOf(words), data, base) && i < |words| && Fetched(m, size, words, data, base, i, v)
    ensures FromInt(v, 32) == words[i]
  {
    WordBound(words[i]);
    InstructionFetched(m, size, TextOf(words), data, base, i);
    FromIntToNat(words[i]);
  }

  lemma {:induction false} WordBound(w: Word)
    ensures ToNat(w) < Loader.UINT32
  {
    Pow2Words();
  }

  /** A fetched instruction decodes to the mnemonic and the operands it was assembled from. */
  lemma {:induction false} FetchedInstructionDecodes(
    m: MainMemory.FlatMemory, size: nat, code: Code, words: seq<Word>, data: seq<Datum>, base: nat, i: nat, v: nat,
    op: Opcode
  )
    requires Fits(size, TextOf(words), data, base) && Fetched(m, size, words, data, base, i, v)
    requires Assembled(code, words) && i < |code|
    requires code[i].0.opcode == Some(op) && InRange(code[i].0, EncodingOf(op))
    ensures Decode(FromInt(v, 32)) == Some(Canonical(code[i].0, op, EncodingOf(op)))
  {
    FetchedWord(m, size, words, data, base, i, v);
    DecodeInverts(code[i].0, op, words[i]);
  }

  /**
   If back-patching records no error, the immediate read off a fetched branch or jump, added to the
   instruction's address, is the address of its label.
   */
  lemma {:induction false} FetchedInstructionReachesLabel(
    m: MainMemory.FlatMemory, size: nat, code: Code, symbols: map<string, SymbolData>, patches: seq<nat>,
    words: seq<Word>, data: seq<Datum>, base: nat, i: nat, v: nat
  )
    requires InBounds(code, patches) && i in patches && Failures(code, symbols, patches) == 0
    requires Assembled(PatchedCode(code, symbols, patches), words)
    requires Fits(size, TextOf(words), data, base) && i < |code| && Fetched(m, size, words, data, base, i, v)
    requires RegistersInRange(code[i].0)
    requires code[i].0.target in symbols ==> TextLabel(symbols[code[i].0.target])
    ensures code[i].0.target in symbols
    ensures 4 * i + ImmGenerator(FromInt(v, 32)) == symbols[code[i].0.target].address
  {
    FetchedWord(m, size, words, data, base, i, v);
    PatchedInstructionReachesLabel(code, symbols, patches, i, words[i]);
  }
}
