/**
 What reads back after LoadProgram of src/vm/vm_base.cpp: no later write overlaps an earlier one, and
 data is found where the parser's symbol table says.
 */
module LoadedProgram {
  import opened Bits
  import opened DataSection
  import opened FirstPass
  import opened DataLayout
  import opened ServedLabels
  import TokenLayout
  import opened MainMemory
  import opened Loader

  /** The bytes of a data element in memory. */
  function DatumBytes(d: Datum): (bytes: seq<Byte>)
    ensures |bytes| == SizeOf(d)
  {
    match d
    case U8(v) => BytesOf(v, 1)
    case U16(v) => BytesOf(v, 2)
    case U32(v) => BytesOf(v, 4)
    case U64(v) => BytesOf(v, 8)
    case F32(v) => BytesOf(v, 4)
    case F64(v) => BytesOf(v, 8)
    case Text(s) => CharBytes(s)
  }

  /** The text ends at or before the data start and the data section within the memory and the 32-bit counter. */
  predicate Fits(size: nat, text: seq<nat>, data: seq<Datum>, base: nat) {
    7 <= size < ADDRESSES && TextFits(size, text) && 4 * |text| <= base && DataFits(size, data, base)
  }

  predicate TextFits(size: nat, text: seq<nat>) {
    4 * |text| <= size && 4 * |text| < UINT32
  }

  predicate DataFits(size: nat, data: seq<Datum>, base: nat) {
    LoadCursor(data) < UINT32 && base + LoadCursor(data) <= size
  }

  lemma {:induction false} FlatWriteExtend(m: FlatMemory, address: nat, bytes: seq<Byte>, b: Byte)
    ensures FlatWrite(m, address, bytes + [b]) == FlatWrite(m, address, bytes)[address + |bytes| := b]
  {
  }

  lemma {:induction false} OneByte(b: Byte)
    ensures BytesOf(b as nat, 1) == [b]
  {
  }

  /** Within bounds neither counter nor address wraps, and the write goes through. */
  lemma {:induction false} NoWrap(size: nat, at: nat, width: nat, base: nat)
    requires IsWidth(width) && at + width < UINT32 && base + at + width <= size && 7 <= size < ADDRESSES
    ensures at % UINT32 == at && (at + width) % UINT32 == at + width && (base + at) % ADDRESSES == base + at
    ensures Stored(size, base + at, width) == width
  {
  }

  /** One more piece, within bounds, is one more write at its aligned offset. */
  lemma {:induction false} PieceAppended(
    s: Progress, size: nat, base: nat, ps: seq<Piece>, before: Progress, p: Piece, at: nat, bytes: seq<Byte>
  )
    requires HaveWidths(ps) && WritePieces(s, size, base, ps) == before && before.ok
    requires IsPiece(p) && at == AlignUp(before.counter, p.width) && bytes == BytesOf(p.value, p.width)
    requires at + p.width < UINT32 && base + at + p.width <= size && 7 <= size < ADDRESSES
    ensures WritePieces(s, size, base, ps + [p])
         == Progress(FlatWrite(before.memory, base + at, bytes), at + p.width, true)
  {
    assert Front(ps + [p]) == ps;
    PieceWithin(before, size, base, p, at, bytes);
  }

  lemma {:induction false} PieceWithin(s: Progress, size: nat, base: nat, p: Piece, at: nat, bytes: seq<Byte>)
    requires s.ok && IsPiece(p) && at == AlignUp(s.counter, p.width) && bytes == BytesOf(p.value, p.width)
    requires at + p.width < UINT32 && base + at + p.width <= size && 7 <= size < ADDRESSES
    ensures WritePiece(s, size, base, p) == Progress(FlatWrite(s.memory, base + at, bytes), at + p.width, true)
  {
    NoWrap(size, at, p.width, base);
    assert bytes[..p.width] == bytes;
  }

  /** Bytes written one by one make one contiguous write. */
  lemma {:induction false} BytesLoaded(s: Progress, size: nat, base: nat, bytes: seq<Byte>)
    requires s.ok && 7 <= size < ADDRESSES
    requires s.counter + |bytes| < UINT32 && base + s.counter + |bytes| <= size
    ensures WritePieces(s, size, base, BytePieces(bytes))
         == Progress(FlatWrite(s.memory, base + s.counter, bytes), s.counter + |bytes|, true)
    decreases |bytes|
  {
    if bytes != [] {
      BytesLoaded(s, size, base, Front(bytes));
      LastByteLoaded(s, size, base, bytes, s.memory, base + s.counter, s.counter + |bytes| - 1);
    }
  }

  lemma {:induction false} LastByteLoaded(
    s: Progress, size: nat, base: nat, bytes: seq<Byte>, m: FlatMemory, start: nat, at: nat
  )
    requires bytes != [] && 7 <= size < ADDRESSES
    requires WritePieces(s, size, base, BytePieces(Front(bytes)))
          == Progress(FlatWrite(m, start, Front(bytes)), at, true)
    requires at + 1 < UINT32 && start + |bytes| == base + at + 1 <= size
    ensures WritePieces(s, size, base, BytePieces(bytes)) == Progress(FlatWrite(m, start, bytes), at + 1, true)
  {
    var f, b := Front(bytes), Last(bytes);
    RangeExtended(s, size, base, BytePieces(f), m, start, at, f, b);
    PiecesExtend(f, b);
    assert bytes == f + [b];
  }

  lemma {:induction false} RangeExtended(
    s: Progress, size: nat, base: nat, ps: seq<Piece>, m: FlatMemory, start: nat, at: nat, bytes: seq<Byte>, b: Byte
  )
    requires HaveWidths(ps) && 7 <= size < ADDRESSES
    requires WritePieces(s, size, base, ps) == Progress(FlatWrite(m, start, bytes), at, true)
    requires at + 1 < UINT32 && start + |bytes| == base + at && base + at + 1 <= size
    ensures WritePieces(s, size, base, ps + [Piece(1, b as nat)])
         == Progress(FlatWrite(m, start, bytes + [b]), at + 1, true)
  {
    FlatWriteExtend(m, start, bytes, b);
    ByteAppended(s, size, base, ps, FlatWrite(m, start, bytes), at, b, start + |bytes|);
  }

  lemma {:induction false} PiecesExtend(bytes: seq<Byte>, b: Byte)
    ensures BytePieces(bytes + [b]) == BytePieces(bytes) + [Piece(1, b as nat)]
  {
  }

  lemma {:induction false} ByteAppended(
    s: Progress, size: nat, base: nat, ps: seq<Piece>, m: FlatMemory, at: nat, b: Byte, address: nat
  )
    requires HaveWidths(ps) && 7 <= size < ADDRESSES
    requires WritePieces(s, size, base, ps) == Progress(m, at, true)
    requires at + 1 < UINT32 && address == base + at && address + 1 <= size
    ensures WritePieces(s, size, base, ps + [Piece(1, b as nat)]) == Progress(m[address := b], at + 1, true)
  {
    OneByte(b);
    FlatWriteExtend(m, address, [], b);
    PieceAppended(s, size, base, ps, Progress(m, at, true), Piece(1, b as nat), at, [b]);
  }

  lemma {:induction false} SinglePiece(d: Datum)
    requires !d.Text?
    ensures |Pieces(d)| == 1
    ensures var p := Pieces(d)[0];
      IsPiece(p) && p.width == AlignOf(d) == SizeOf(d) && BytesOf(p.value, p.width) == DatumBytes(d)
  {
  }

  /** One data element within bounds is one write of its bytes at its aligned offset. */
  lemma {:induction false} DatumLoaded(s: Progress, size: nat, base: nat, d: Datum, at: nat)
    requires s.ok && 7 <= size < ADDRESSES && at == AlignUp(s.counter, AlignOf(d))
    requires at + SizeOf(d) < UINT32 && base + at + SizeOf(d) <= size
    ensures WriteDatum(s, size, base, d)
         == Progress(FlatWrite(s.memory, base + at, DatumBytes(d)), at + SizeOf(d), true)
  {
    PiecesHaveWidth(d);
    if d.Text? {
      TextLoadedAt(s, size, base, d.chars);
    } else {
      SinglePiece(d);
      var p := Pieces(d)[0];
      assert Pieces(d) == [] + [p];
      PieceAppended(s, size, base, [], s, p, at, DatumBytes(d));
    }
  }

  lemma {:induction false} TextLoadedAt(s: Progress, size: nat, base: nat, chars: string)
    requires s.ok && 7 <= size < ADDRESSES
    requires s.counter + |chars| < UINT32 && base + s.counter + |chars| <= size
    ensures AlignUp(s.counter, 1) == s.counter
    ensures WriteDatum(s, size, base, Text(chars))
         == Progress(FlatWrite(s.memory, base + s.counter, CharBytes(chars)), s.counter + |chars|, true)
  {
    BytesLoaded(s, size, base, CharBytes(chars));
  }

  // Ascending writes

  /** A contiguous write. */
  datatype Chunk = Chunk(at: nat, bytes: seq<Byte>) {
    function End(): nat {
      at + |bytes|
    }
  }

  ghost function WriteChunks(m: FlatMemory, cs: seq<Chunk>): FlatMemory {
    if cs == [] then m else FlatWrite(WriteChunks(m, Front(cs)), Last(cs).at, Last(cs).bytes)
  }

  predicate Ascending(cs: seq<Chunk>) {
    forall i, j :: 0 <= i < j < |cs| ==> cs[i].End() <= cs[j].at
  }

  /** No later write overlaps an earlier one. */
  lemma {:induction false} ChunkHeld(m: FlatMemory, cs: seq<Chunk>, k: nat, c: Chunk)
    requires Ascending(cs) && k < |cs| && c == cs[k]
    ensures Holds(WriteChunks(m, cs), c.at, c.bytes)
  {
    var f, last := Front(cs), Last(cs);
    if k == |cs| - 1 {
      HoldsWritten(WriteChunks(m, f), last.at, last.bytes);
    } else {
      ChunkHeld(m, f, k, c);
      HoldsElsewhere(WriteChunks(m, f), last.at, last.bytes, c.at, c.bytes);
    }
  }

  /** Writes above a range leave it alone. */
  lemma {:induction false} HeldBelow(m: FlatMemory, cs: seq<Chunk>, address: nat, bytes: seq<Byte>)
    requires Holds(m, address, bytes)
    requires forall i :: 0 <= i < |cs| ==> address + |bytes| <= cs[i].at
    ensures Holds(WriteChunks(m, cs), address, bytes)
  {
    if cs != [] {
      HeldBelow(m, Front(cs), address, bytes);
      HoldsElsewhere(WriteChunks(m, Front(cs)), Last(cs).at, Last(cs).bytes, address, bytes);
    }
  }

  // The program as ascending writes

  function TextChunks(text: seq<nat>): seq<Chunk> {
    seq(|text|, k requires 0 <= k < |text| => Chunk(4 * k, BytesOf(text[k], 4)))
  }

  /** Each datum at the data start plus its loader offset. */
  function DataChunks(data: seq<Datum>, base: nat): seq<Chunk> {
    if data == [] then []
    else DataChunks(Front(data), base) + [Chunk(base + NextOffset(Front(data), Last(data)), DatumBytes(Last(data)))]
  }

  lemma {:induction false} TextLoaded(m: FlatMemory, size: nat, text: seq<nat>)
    requires 7 <= size < ADDRESSES && TextFits(size, text)
    ensures WriteText(m, size, text) == Progress(WriteChunks(m, TextChunks(text)), 4 * |text|, true)
  {
    if text != [] {
      var f := Front(text);
      TextLoaded(m, size, f);
      WordLoaded(Progress(WriteChunks(m, TextChunks(f)), 4 * |f|, true), size, Last(text));
      assert Front(TextChunks(text)) == TextChunks(f);
    }
  }

  lemma {:induction false} WordLoaded(s: Progress, size: nat, word: nat)
    requires 7 <= size < ADDRESSES && s.counter + 4 <= size && s.counter + 4 < UINT32
    ensures WriteWord(s, size, word) == Progress(FlatWrite(s.memory, s.counter, BytesOf(word, 4)), s.counter + 4, true)
  {
    NoWrap(size, s.counter, 4, 0);
    assert BytesOf(word, 4)[..4] == BytesOf(word, 4);
  }

  lemma {:induction false} DataLoaded(m: FlatMemory, size: nat, data: seq<Datum>, base: nat)
    requires 7 <= size < ADDRESSES && DataFits(size, data, base)
    ensures WriteData(Progress(m, 0, true), size, base, data)
         == Progress(WriteChunks(m, DataChunks(data, base)), LoadCursor(data), true)
  {
    if data != [] {
      var f, d := Front(data), Last(data);
      var at, cs := NextOffset(f, d), DataChunks(f, base);
      DataLoaded(m, size, f, base);
      WriteDataStep(Progress(m, 0, true), size, base, data, Progress(WriteChunks(m, cs), LoadCursor(f), true));
      ChunkLoaded(m, cs, size, LoadCursor(f), base, d, at);
      DataChunksStep(data, base, Chunk(base + at, DatumBytes(d)));
    }
  }

  lemma {:induction false} ChunkLoaded(
    m: FlatMemory, cs: seq<Chunk>, size: nat, counter: nat, base: nat, d: Datum, at: nat
  )
    requires 7 <= size < ADDRESSES && at == AlignUp(counter, AlignOf(d))
    requires at + SizeOf(d) < UINT32 && base + at + SizeOf(d) <= size
    ensures WriteDatum(Progress(WriteChunks(m, cs), counter, true), size, base, d)
         == Progress(WriteChunks(m, cs + [Chunk(base + at, DatumBytes(d))]), at + SizeOf(d), true)
  {
    var before := Progress(WriteChunks(m, cs), counter, true);
    DatumLoaded(before, size, base, d, at);
    ChunkWritten(WriteDatum(before, size, base, d), m, cs, Chunk(base + at, DatumBytes(d)), at + SizeOf(d));
  }

  lemma {:induction false} WriteDataStep(s: Progress, size: nat, base: nat, data: seq<Datum>, before: Progress)
    requires data != [] && WriteData(s, size, base, Front(data)) == before
    ensures WriteData(s, size, base, data) == WriteDatum(before, size, base, Last(data))
  {
  }

  lemma {:induction false} DataChunksStep(data: seq<Datum>, base: nat, c: Chunk)
    requires data != [] && c == Chunk(base + NextOffset(Front(data), Last(data)), DatumBytes(Last(data)))
    ensures DataChunks(data, base) == DataChunks(Front(data), base) + [c]
  {
  }

  lemma {:induction false} ChunkWritten(after: Progress, m: FlatMemory, cs: seq<Chunk>, c: Chunk, next: nat)
    requires after == Progress(FlatWrite(WriteChunks(m, cs), c.at, c.bytes), next, true)
    ensures after == Progress(WriteChunks(m, cs + [c]), next, true)
  {
  }

  /** The data chunks ascend and stay within the data section. */
  lemma {:induction false} DataAscends(data: seq<Datum>, base: nat)
    ensures var cs := DataChunks(data, base);
      && |cs| == |data| && Ascending(cs)
      && forall k :: 0 <= k < |cs| ==> base <= cs[k].at && cs[k].End() <= base + LoadCursor(data)
  {
    if data != [] {
      DataAscends(Front(data), base);
    }
  }

  lemma {:induction false} DataChunkAt(data: seq<Datum>, base: nat, k: nat)
    requires k < |data|
    ensures |DataChunks(data, base)| == |data|
    ensures DataChunks(data, base)[k] == Chunk(base + LoaderOffsets(data)[k], DatumBytes(data[k]))
  {
    DataAscends(Front(data), base);
    if k < |data| - 1 {
      DataChunkAt(Front(data), base, k);
    }
  }

  /** A program that fits is loaded, as one ascending sequence of writes per section. */
  lemma {:induction false} LoadedInChunks(m: FlatMemory, size: nat, text: seq<nat>, data: seq<Datum>, base: nat)
    requires Fits(size, text, data, base)
    ensures AfterLoading(m, size, text, data, base).ok
    ensures AfterLoading(m, size, text, data, base).memory
         == WriteChunks(WriteChunks(m, TextChunks(text)), DataChunks(data, base))
  {
    TextLoaded(m, size, text);
    DataLoaded(WriteChunks(m, TextChunks(text)), size, data, base);
  }

  /** When the text ends at or before the data start, instruction word k is at address 4k. */
  lemma {:induction false} InstructionReadsBack(
    m: FlatMemory, size: nat, text: seq<nat>, data: seq<Datum>, base: nat, k: nat
  )
    requires Fits(size, text, data, base) && k < |text|
    ensures AfterLoading(m, size, text, data, base).ok
    ensures Holds(AfterLoading(m, size, text, data, base).memory, 4 * k, BytesOf(text[k], 4))
  {
    var ts, cs := TextChunks(text), DataChunks(data, base);
    var c := ts[k];
    ChunkHeld(m, ts, k, c);
    DataAscends(data, base);
    HeldBelow(WriteChunks(m, ts), cs, c.at, c.bytes);
    LoadedInChunks(m, size, text, data, base);
  }

  /** Fetching instruction k gives its word. */
  lemma {:induction false} InstructionFetched(
    m: FlatMemory, size: nat, text: seq<nat>, data: seq<Datum>, base: nat, k: nat
  )
    requires Fits(size, text, data, base) && k < |text| && text[k] < UINT32
    ensures FlatPerform(AfterLoading(m, size, text, data, base).memory, size, Load(4 * k, 4)).1
         == Response.Loaded(text[k])
  {
    var loaded := AfterLoading(m, size, text, data, base).memory;
    InstructionReadsBack(m, size, text, data, base, k);
    HeldWord(loaded, 4 * k, text[k]);
    WordWithin(loaded, size, 4 * k);
  }

  lemma {:induction false} HeldWord(m: FlatMemory, address: nat, word: nat)
    requires word < UINT32 && Holds(m, address, BytesOf(word, 4))
    ensures ValueOf(FlatRead(m, address, 4)) == word
  {
    HeldReads(m, address, word, 4);
    WordModulus(word);
  }

  lemma {:induction false} WordModulus(word: nat)
    requires word < UINT32
    ensures word % Pow2(8 * 4) == word
  {
    Pow2Words();
  }

  lemma {:induction false} WordWithin(m: FlatMemory, size: nat, address: nat)
    requires 3 <= size < ADDRESSES && address + 4 <= size
    ensures FlatPerform(m, size, Load(address, 4)).1 == Response.Loaded(ValueOf(FlatRead(m, address, 4)))
  {
  }

  lemma {:induction false} DatumHeld(m: FlatMemory, data: seq<Datum>, base: nat, k: nat)
    requires k < |data|
    ensures Holds(WriteChunks(m, DataChunks(data, base)), base + LoaderOffsets(data)[k], DatumBytes(data[k]))
  {
    DataAscends(data, base);
    DataChunkAt(data, base, k);
    ChunkHeld(m, DataChunks(data, base), k, Chunk(base + LoaderOffsets(data)[k], DatumBytes(data[k])));
  }

  /** Every data element is at its loader offset after base. */
  ghost predicate HoldsData(m: FlatMemory, data: seq<Datum>, base: nat) {
    forall k :: 0 <= k < |data| ==> Holds(m, base + LoaderOffsets(data)[k], DatumBytes(data[k]))
  }

  /** Loading puts every data element at its aligned offset after the data start. */
  lemma {:induction false} DataReadsBack(m: FlatMemory, size: nat, text: seq<nat>, data: seq<Datum>, base: nat)
    requires Fits(size, text, data, base)
    ensures HoldsData(AfterLoading(m, size, text, data, base).memory, data, base)
  {
    DataHeld(WriteChunks(m, TextChunks(text)), data, base);
    LoadedInChunks(m, size, text, data, base);
  }

  lemma {:induction false} DataHeld(m: FlatMemory, data: seq<Datum>, base: nat)
    ensures HoldsData(WriteChunks(m, DataChunks(data, base)), data, base)
  {
    forall k: nat | k < |data|
      ensures Holds(WriteChunks(m, DataChunks(data, base)), base + LoaderOffsets(data)[k], DatumBytes(data[k]))
    {
      DatumHeld(m, data, base, k);
    }
  }

  /** Bytes that are held are read as the value they came from, truncated to their number. */
  lemma {:induction false} HeldReads(m: FlatMemory, address: nat, value: nat, n: nat)
    requires Holds(m, address, BytesOf(value, n))
    ensures ValueOf(FlatRead(m, address, n)) == value % Pow2(8 * n)
  {
    HoldsReads(m, address, BytesOf(value, n));
    ValueOfBytes(value, n);
  }

  // From the source file to memory

  /**
   Loaded data stands at the data start plus the offsets the parser gave it, for every consistent
   record of placements whose labels fit.
   */
  lemma {:induction false} LoaderHonoursParser(
    loaded: FlatMemory, tr: seq<Placement>, data: seq<Datum>, base: nat, i: nat, d: Datum, offset: nat
  )
    requires HoldsData(loaded, data, base) && data == Data(tr)
    requires Consistent(tr) && LabelsFit(tr) && i < |tr| && tr[i] == DatumAt(d, offset)
    ensures Holds(loaded, base + offset, DatumBytes(d))
  {
    var k := PlacedOffset(tr, i, d, offset);
    HeldDatum(loaded, data, base, k, offset, d);
  }

  lemma {:induction false} PlacedOffset(tr: seq<Placement>, i: nat, d: Datum, offset: nat) returns (k: nat)
    requires Consistent(tr) && LabelsFit(tr) && i < |tr| && tr[i] == DatumAt(d, offset)
    ensures k < |Data(tr)| && Data(tr)[k] == d && LoaderOffsets(Data(tr))[k] == offset
  {
    LayoutsAgreeExactly(tr);
    k := PlacedDatum(tr, i);
  }

  lemma {:induction false} HeldDatum(m: FlatMemory, data: seq<Datum>, base: nat, k: nat, offset: nat, d: Datum)
    requires HoldsData(m, data, base) && k < |data| && offset == LoaderOffsets(data)[k] && d == data[k]
    ensures Holds(m, base + offset, DatumBytes(d))
  {
  }

  /**
   For every file whose labelled directives emit values: once the program is loaded, the bytes of
   the first value after a label are found at the data start plus the label's symbol address.
   */
  lemma {:induction false} LabelledValueLoaded(
    m: FlatMemory, size: nat, text: seq<nat>, toks: seq<Token>, n: nat, st: State, base: nat, i: nat, name: string
  )
    requires st == Iterate(toks, Start(), n) && FileServed(toks, Start(), n)
    requires Fits(size, text, st.buffer, base)
    requires i < |st.trace| && LastOfItsName(st.trace, i) && name == st.trace[i].name
    ensures i + 1 < |st.trace| && st.trace[i + 1].DatumAt? && name in st.symbols
    ensures Holds(AfterLoading(m, size, text, st.buffer, base).memory, base + st.symbols[name].address,
                  DatumBytes(st.trace[i + 1].datum))
  {
    DataReadsBack(m, size, text, st.buffer, base);
    LabelledValueHeld(AfterLoading(m, size, text, st.buffer, base).memory, toks, n, st, base, i, name);
  }

  lemma {:induction false} LabelledValueHeld(
    loaded: FlatMemory, toks: seq<Token>, n: nat, st: State, base: nat, i: nat, name: string
  )
    requires st == Iterate(toks, Start(), n) && FileServed(toks, Start(), n) && HoldsData(loaded, st.buffer, base)
    requires i < |st.trace| && LastOfItsName(st.trace, i) && name == st.trace[i].name
    ensures i + 1 < |st.trace| && st.trace[i + 1].DatumAt? && name in st.symbols
    ensures Holds(loaded, base + st.symbols[name].address, DatumBytes(st.trace[i + 1].datum))
  {
    var k := LabelledOffset(toks, n, st, i, name);
    HeldDatum(loaded, st.buffer, base, k, st.symbols[name].address, st.trace[i + 1].datum);
  }

  /** So every name in the symbol table has its label and, at its address, the value that follows the label. */
  lemma {:induction false} SymbolLoaded(
    m: FlatMemory, size: nat, text: seq<nat>, toks: seq<Token>, n: nat, st: State, base: nat, name: string
  ) returns (i: nat)
    requires st == Iterate(toks, Start(), n) && FileServed(toks, Start(), n)
    requires Fits(size, text, st.buffer, base) && name in st.symbols
    ensures i + 1 < |st.trace| && st.trace[i].LabelAt? && st.trace[i].name == name && st.trace[i + 1].DatumAt?
    ensures Holds(AfterLoading(m, size, text, st.buffer, base).memory, base + st.symbols[name].address,
                  DatumBytes(st.trace[i + 1].datum))
  {
    i := SymbolLabel(toks, n, st, name);
    LabelledValueLoaded(m, size, text, toks, n, st, base, i, name);
  }

  lemma {:induction false} SymbolLabel(toks: seq<Token>, n: nat, st: State, name: string) returns (i: nat)
    requires st == Iterate(toks, Start(), n) && name in st.symbols
    ensures i < |st.trace| && LastOfItsName(st.trace, i) && st.trace[i].name == name
  {
    IterateRecorded(toks, Start(), n);
    i := NameHasLabel(st.trace, name);
  }

  /** For every file whose tokens are well labelled, each datum is held at the data start plus the parser's offset. */
  lemma {:induction false} WellLabelledLoaded(
    m: FlatMemory, size: nat, text: seq<nat>, toks: seq<Token>, n: nat, st: State, base: nat, i: nat, d: Datum,
    offset: nat
  )
    requires st == Iterate(toks, Start(), n) && TokenLayout.WellLabelled(TokenLayout.ScanFile(toks, 0, n).items)
    requires Fits(size, text, st.buffer, base)
    requires i < |st.trace| && st.trace[i] == DatumAt(d, offset)
    ensures Holds(AfterLoading(m, size, text, st.buffer, base).memory, base + offset, DatumBytes(d))
  {
    var k := WellLabelledOffset(toks, n, st, i, d, offset);
    DataReadsBack(m, size, text, st.buffer, base);
    HeldDatum(AfterLoading(m, size, text, st.buffer, base).memory, st.buffer, base, k, offset, d);
  }

  lemma {:induction false} WellLabelledOffset(toks: seq<Token>, n: nat, st: State, i: nat, d: Datum, offset: nat)
    returns (k: nat)
    requires st == Iterate(toks, Start(), n) && TokenLayout.WellLabelled(TokenLayout.ScanFile(toks, 0, n).items)
    requires i < |st.trace| && st.trace[i] == DatumAt(d, offset)
    ensures k < |st.buffer| && st.buffer[k] == d && LoaderOffsets(st.buffer)[k] == offset
  {
    IterateRecorded(toks, Start(), n);
    TokenLayout.FileAgreesExactly(toks, n);
    k := PlacedDatum(st.trace, i);
  }
}
