/**
 LoadProgram of src/vm/vm_base.cpp: the text words from address 0, the data elements from the data
 section start at the offsets of a 32-bit counter.
 */
module Loader {
  import opened Bits
  import opened DataSection
  import opened DataLayout
  import opened MainMemory

  const UINT32: nat := 0x1_0000_0000

  /** One write of the loader: its width, which is also its alignment, and the value. */
  datatype Piece = Piece(width: nat, value: nat)

  predicate IsPiece(p: Piece) {
    IsWidth(p.width)
  }

  /** The writes for one data element; a string is written byte by byte. */
  function Pieces(d: Datum): seq<Piece> {
    match d
    case U8(v) => [Piece(1, v)]
    case U16(v) => [Piece(2, v)]
    case U32(v) => [Piece(4, v)]
    case U64(v) => [Piece(8, v)]
    case F32(v) => [Piece(4, v)]
    case F64(v) => [Piece(8, v)]
    case Text(s) => BytePieces(CharBytes(s))
  }

  /** static_cast<uint8_t>(c) */
  function CharByte(c: char): Byte {
    (c as nat % 256) as Byte
  }

  function CharBytes(s: string): (bytes: seq<Byte>)
    ensures |bytes| == |s|
  {
    seq(|s|, i requires 0 <= i < |s| => CharByte(s[i]))
  }

  function BytePieces(bytes: seq<Byte>): (ps: seq<Piece>)
    ensures |ps| == |bytes|
  {
    seq(|bytes|, i requires 0 <= i < |bytes| => Piece(1, bytes[i] as nat))
  }

  /** The 32-bit data counter, aligned for a piece. */
  function PieceOffset(counter: nat, p: Piece): nat
    requires p.width > 0
  {
    AlignUp(counter, p.width) % UINT32
  }

  /** Memory and counter while the pieces are written, and whether no access was rejected so far. */
  datatype Progress = Progress(memory: FlatMemory, counter: nat, ok: bool)

  /** One write at an offset from base into a memory of the given size. */
  ghost function WriteAt(m: FlatMemory, size: nat, base: nat, p: Piece, at: nat): Progress {
    var address := (base + at) % ADDRESSES;
    var stored := Stored(size, address, p.width);
    Progress(FlatWrite(m, address, BytesOf(p.value, p.width)[..stored]), (at + p.width) % UINT32, stored == p.width)
  }

  /** The write at the aligned counter; a rejected one ends the loading. */
  ghost function WritePiece(s: Progress, size: nat, base: nat, p: Piece): Progress
    requires p.width > 0
  {
    if s.ok then WriteAt(s.memory, size, base, p, PieceOffset(s.counter, p)) else s
  }

  predicate HaveWidths(ps: seq<Piece>) {
    forall i :: 0 <= i < |ps| ==> ps[i].width > 0
  }

  ghost function WritePieces(s: Progress, size: nat, base: nat, ps: seq<Piece>): Progress
    requires HaveWidths(ps)
  {
    if ps == [] then s else WritePiece(WritePieces(s, size, base, Front(ps)), size, base, Last(ps))
  }

  lemma {:induction false} PiecesHaveWidth(d: Datum)
    ensures HaveWidths(Pieces(d)) && forall i :: 0 <= i < |Pieces(d)| ==> IsPiece(Pieces(d)[i])
  {
  }

  ghost function WriteDatum(s: Progress, size: nat, base: nat, d: Datum): Progress {
    PiecesHaveWidth(d);
    WritePieces(s, size, base, Pieces(d))
  }

  ghost function WriteData(s: Progress, size: nat, base: nat, data: seq<Datum>): Progress {
    if data == [] then s else WriteDatum(WriteData(s, size, base, Front(data)), size, base, Last(data))
  }

  /** The text section: word k at 4k, counted in 32 bits. */
  ghost function WriteText(m: FlatMemory, size: nat, text: seq<nat>): Progress {
    if text == [] then Progress(m, 0, true)
    else
      var s := WriteText(m, size, Front(text));
      if s.ok then WriteWord(s, size, Last(text)) else s
  }

  ghost function WriteWord(s: Progress, size: nat, word: nat): Progress {
    var stored := Stored(size, s.counter, 4);
    Progress(FlatWrite(s.memory, s.counter, BytesOf(word, 4)[..stored]), (s.counter + 4) % UINT32, stored == 4)
  }

  /** The whole of LoadProgram: the data section is only begun when the text went through. */
  ghost function AfterLoading(m: FlatMemory, size: nat, text: seq<nat>, data: seq<Datum>, base: nat): Progress {
    var s := WriteText(m, size, text);
    WriteData(s.(counter := 0), size, base, data)
  }

  // Once an access is rejected nothing more is written

  lemma {:induction false} PiecesStop(s: Progress, size: nat, base: nat, ps: seq<Piece>, n: nat)
    requires HaveWidths(ps) && n <= |ps| && !WritePieces(s, size, base, ps[..n]).ok
    ensures WritePieces(s, size, base, ps) == WritePieces(s, size, base, ps[..n])
    decreases |ps|
  {
    if n == |ps| {
      assert ps[..n] == ps;
    } else {
      assert Front(ps)[..n] == ps[..n];
      PiecesStop(s, size, base, Front(ps), n);
    }
  }

  lemma {:induction false} DataStop(s: Progress, size: nat, base: nat, data: seq<Datum>, n: nat)
    requires n <= |data| && !WriteData(s, size, base, data[..n]).ok
    ensures WriteData(s, size, base, data) == WriteData(s, size, base, data[..n])
    decreases |data|
  {
    if n == |data| {
      assert data[..n] == data;
    } else {
      assert Front(data)[..n] == data[..n];
      DataStop(s, size, base, Front(data), n);
      DatumStops(WriteData(s, size, base, Front(data)), size, base, Last(data));
    }
  }

  lemma {:induction false} DatumStops(s: Progress, size: nat, base: nat, d: Datum)
    requires !s.ok
    ensures WriteDatum(s, size, base, d) == s
  {
    PiecesHaveWidth(d);
    assert Pieces(d)[..0] == [];
    PiecesStop(s, size, base, Pieces(d), 0);
  }

  lemma {:induction false} TextStop(m: FlatMemory, size: nat, text: seq<nat>, n: nat)
    requires n <= |text| && !WriteText(m, size, text[..n]).ok
    ensures WriteText(m, size, text) == WriteText(m, size, text[..n])
    decreases |text|
  {
    if n == |text| {
      assert text[..n] == text;
    } else {
      assert Front(text)[..n] == text[..n];
      TextStop(m, size, Front(text), n);
    }
  }

  // The methods

  ghost function Contents(memory: Memory): FlatMemory
    requires memory.Valid()
    reads memory
  {
    Flat(memory.blocks, memory.blockSize)
  }

  /** One write through the memory controller; false is an exception, which ends the loading. */
  method StoreValue(memory: Memory, address: nat, width: nat, value: nat) returns (ok: bool)
    requires memory.Valid() && address < ADDRESSES && IsWidth(width)
    modifies memory
    ensures memory.Valid()
    ensures var stored := Stored(memory.memorySize, address, width);
      && (ok <==> stored == width)
      && Contents(memory) == FlatWrite(old(Contents(memory)), address, BytesOf(value, width)[..stored])
  {
    PerformRefines(memory.blocks, memory.blockSize, memory.memorySize, MainMemory.Store(address, width, value));
    var r := memory.WriteSized(address, width, value);
    ok := r == Done;
  }

  /** The align lambda on the 32-bit data counter. */
  method AlignCounter(counter: nat, alignment: nat) returns (at: nat)
    requires counter < UINT32 && alignment > 0
    ensures at == AlignUp(counter, alignment) % UINT32
  {
    at := counter;
    if at % alignment != 0 {
      at := (at + (alignment - at % alignment)) % UINT32;
    }
  }

  method LoadPiece(memory: Memory, base: nat, counter: nat, p: Piece) returns (ok: bool, next: nat)
    requires memory.Valid() && base < ADDRESSES && counter < UINT32 && IsPiece(p)
    modifies memory
    ensures memory.Valid() && next < UINT32
    ensures Progress(Contents(memory), next, ok)
         == WritePiece(Progress(old(Contents(memory)), counter, true), memory.memorySize, base, p)
  {
    var at := AlignCounter(counter, p.width);
    ok, next := LoadPieceAt(memory, base, at, p);
  }

  method LoadPieceAt(memory: Memory, base: nat, at: nat, p: Piece) returns (ok: bool, next: nat)
    requires memory.Valid() && base < ADDRESSES && IsPiece(p)
    modifies memory
    ensures memory.Valid() && next < UINT32
    ensures Progress(Contents(memory), next, ok)
         == WriteAt(old(Contents(memory)), memory.memorySize, base, p, at)
  {
    ok := StoreValue(memory, (base + at) % ADDRESSES, p.width, p.value);
    next := (at + p.width) % UINT32;
  }

  method LoadDatum(memory: Memory, base: nat, counter: nat, d: Datum) returns (ok: bool, next: nat)
    requires memory.Valid() && base < ADDRESSES && counter < UINT32
    modifies memory
    ensures memory.Valid() && next < UINT32
    ensures Progress(Contents(memory), next, ok)
         == WriteDatum(Progress(old(Contents(memory)), counter, true), memory.memorySize, base, d)
  {
    PiecesHaveWidth(d);
    ok, next := LoadPieces(memory, base, counter, Pieces(d));
  }

  /** The writes of one data element, up to the first rejected one. */
  method LoadPieces(memory: Memory, base: nat, counter: nat, pieces: seq<Piece>) returns (ok: bool, next: nat)
    requires memory.Valid() && base < ADDRESSES && counter < UINT32
    requires HaveWidths(pieces) && forall i :: 0 <= i < |pieces| ==> IsPiece(pieces[i])
    modifies memory
    ensures memory.Valid() && next < UINT32
    ensures Progress(Contents(memory), next, ok)
         == WritePieces(Progress(old(Contents(memory)), counter, true), memory.memorySize, base, pieces)
  {
    ghost var start := Progress(Contents(memory), counter, true);
    ok, next := true, counter;
    for i := 0 to |pieces|
      invariant memory.Valid() && next < UINT32 && ok
      invariant Progress(Contents(memory), next, ok) == WritePieces(start, memory.memorySize, base, pieces[..i])
    {
      assert Front(pieces[..i + 1]) == pieces[..i] && Last(pieces[..i + 1]) == pieces[i];
      ok, next := LoadPiece(memory, base, next, pieces[i]);
      if !ok {
        PiecesStop(start, memory.memorySize, base, pieces, i + 1);
        return;
      }
    }
    assert pieces[..|pieces|] == pieces;
  }

  method LoadText(memory: Memory, text: seq<nat>) returns (ok: bool, counter: nat)
    requires memory.Valid()
    modifies memory
    ensures memory.Valid()
    ensures Progress(Contents(memory), counter, ok) == WriteText(old(Contents(memory)), memory.memorySize, text)
  {
    ghost var before := Contents(memory);
    ok, counter := true, 0;
    for k := 0 to |text|
      invariant memory.Valid() && ok && counter < UINT32
      invariant Progress(Contents(memory), counter, ok) == WriteText(before, memory.memorySize, text[..k])
    {
      assert Front(text[..k + 1]) == text[..k] && Last(text[..k + 1]) == text[k];
      ok := StoreValue(memory, counter, 4, text[k]);
      counter := (counter + 4) % UINT32;
      if !ok {
        TextStop(before, memory.memorySize, text, k + 1);
        return;
      }
    }
    assert text[..|text|] == text;
  }

  method LoadData(memory: Memory, data: seq<Datum>, base: nat) returns (ok: bool)
    requires memory.Valid() && base < ADDRESSES
    modifies memory
    ensures memory.Valid()
    ensures var s := WriteData(Progress(old(Contents(memory)), 0, true), memory.memorySize, base, data);
      Contents(memory) == s.memory && ok == s.ok
  {
    ghost var start := Progress(Contents(memory), 0, true);
    var counter: nat := 0;
    ok := true;
    for k := 0 to |data|
      invariant memory.Valid() && ok && counter < UINT32
      invariant Progress(Contents(memory), counter, ok) == WriteData(start, memory.memorySize, base, data[..k])
    {
      assert Front(data[..k + 1]) == data[..k] && Last(data[..k + 1]) == data[k];
      ok, counter := LoadDatum(memory, base, counter, data[k]);
      if !ok {
        DataStop(start, memory.memorySize, base, data, k + 1);
        return;
      }
    }
    assert data[..|data|] == data;
  }

  /** Text, then data; program_size_ becomes the end of the text once that is written, and keeps its value otherwise. */
  method LoadProgram(memory: Memory, text: seq<nat>, data: seq<Datum>, base: nat, oldSize: nat)
    returns (ok: bool, programSize: nat)
    requires memory.Valid() && base < ADDRESSES
    modifies memory
    ensures memory.Valid()
    ensures var s := AfterLoading(old(Contents(memory)), memory.memorySize, text, data, base);
      Contents(memory) == s.memory && ok == s.ok
    ensures var t := WriteText(old(Contents(memory)), memory.memorySize, text);
      programSize == if t.ok then t.counter else oldSize
  {
    ghost var before := Contents(memory);
    var counter;
    programSize := oldSize;
    ok, counter := LoadText(memory, text);
    if ok {
      programSize := counter;
      ok := LoadData(memory, data, base);
    } else {
      ghost var s := WriteText(before, memory.memorySize, text).(counter := 0);
      assert data[..0] == [];
      DataStop(s, memory.memorySize, base, data, 0);
    }
  }
}
