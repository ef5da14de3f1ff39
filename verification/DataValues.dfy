/**
 The values that data directives put into memory, from the spelling of the directive and the token to
 what the virtual machine reads back.
 */
module DataValues {
  import opened Bits
  import opened DataSection
  import opened FirstPass
  import opened DataLayout
  import opened ServedLabels
  import opened SectionBounds
  import opened MainMemory
  import opened Loader
  import opened LoadedProgram

  /** A token stands for the number v in n bytes after a directive of this spelling. */
  predicate Scalar(value: string, t: Token, n: nat, v: nat) {
    || (value == "byte" && t.kind == NUM && n == 1 && v == t.num)
    || (value == "halfword" && t.kind == NUM && n == 2 && v == t.num)
    || (value == "word" && t.kind == NUM && n == 4 && v == t.num)
    || (value == "dword" && t.kind == NUM && n == 8 && v == t.num)
    || (value == "float" && t.kind == FLOAT && n == 4 && v == t.single)
    || (value == "double" && t.kind == FLOAT && n == 8 && v == t.double)
  }

  /** The datum is n bytes of value v, truncated. */
  predicate IsScalar(d: Datum, n: nat, v: nat) {
    AlignOf(d) == n && |DatumBytes(d)| == n && ValueOf(DatumBytes(d)) == v % Pow2(8 * n)
  }

  lemma {:induction false} ScalarBytes(d: Datum, n: nat, v: nat)
    requires n > 0 && !d.Text? && AlignOf(d) == n
    requires DatumBytes(d) == BytesOf(v, n) || DatumBytes(d) == BytesOf(v % Pow2(8 * n), n)
    ensures IsScalar(d, n, v)
  {
    ValueOfBytes(v, n);
    ValueOfBytes(v % Pow2(8 * n), n);
    TwiceTruncated(v, Pow2(8 * n));
  }

  lemma {:induction false} TwiceTruncated(v: nat, m: nat)
    requires m > 0
    ensures v % m % m == v % m
  {
    SmallModulo(v % m, m);
  }

  lemma {:induction false} SmallModulo(r: nat, m: nat)
    requires r < m
    ensures r % m == r
  {
    DivModUnique(r, m, 0, r);
  }

  /** The same for a directive already recognised. */
  predicate DirectiveScalar(dir: Directive, t: Token, n: nat, v: nat) {
    match dir
    case Byte => t.kind == NUM && n == 1 && v == t.num
    case Halfword => t.kind == NUM && n == 2 && v == t.num
    case Word => t.kind == NUM && n == 4 && v == t.num
    case Dword => t.kind == NUM && n == 8 && v == t.num
    case Single => t.kind == FLOAT && n == 4 && v == t.single
    case Double => t.kind == FLOAT && n == 8 && v == t.double
    case _ => false
  }

  lemma {:induction false} ScalarSpelled(value: string, t: Token, n: nat, v: nat)
    requires Scalar(value, t, n, v)
    ensures DirectiveScalar(DirectiveOf(value), t, n, v)
  {
  }

  lemma {:induction false} ScalarElement(dir: Directive, t: Token, n: nat, v: nat) returns (d: Datum)
    requires DirectiveScalar(dir, t, n, v)
    ensures Elements(dir, t) == [d] && IsScalar(d, n, v)
    ensures t.kind == ValueKind(dir) && dir !in {NotDirective, Zero}
  {
    d := Elements(dir, t)[0];
    ScalarModulus(n);
    ScalarBytes(d, n, v);
  }

  lemma {:induction false} ScalarModulus(n: nat)
    ensures n == 1 ==> Pow2(8 * n) == 0x100
    ensures n == 2 ==> Pow2(8 * n) == 0x1_0000
    ensures n == 4 ==> Pow2(8 * n) == 0x1_0000_0000
    ensures n == 8 ==> Pow2(8 * n) == 0x1_0000_0000_0000_0000
  {
    Pow2Words();
  }

  /** A value token of byte to double adds one datum of that many bytes, aligned, with the value it stands for. */
  lemma {:induction false} ScalarAppended(toks: seq<Token>, st: State, value: string, n: nat, v: nat)
    returns (d: Datum, at: nat)
    requires Scalar(value, Current(toks, st.pos), n, v)
    ensures IsScalar(d, n, v) && at % n == 0 && st.index <= at < st.index + n
    ensures var next := ValuesNext(toks, st, DirectiveOf(value));
      && next.buffer == st.buffer + [d] && next.trace == st.trace + [DatumAt(d, at)]
      && next.index == at + n && next.errors == st.errors
  {
    ScalarSpelled(value, Current(toks, st.pos), n, v);
    d := ScalarElement(DirectiveOf(value), Current(toks, st.pos), n, v);
    at := AlignUp(st.index, n);
    AlignUpFacts(st.index, n);
    AppendOne(st, d);
  }

  lemma {:induction false} AppendOne(st: State, d: Datum)
    ensures var at := AlignUp(st.index, AlignOf(d));
      Append(st, [d]) == st.(index := at + SizeOf(d), buffer := st.buffer + [d], trace := st.trace + [DatumAt(d, at)])
  {
    assert [d][1..] == [];
  }

  lemma {:induction false} AppendBuffer(st: State, data: seq<Datum>)
    ensures Append(st, data).buffer == st.buffer + data
    decreases |data|
  {
    if data != [] {
      var at := AlignUp(st.index, AlignOf(data[0]));
      var next := st.(index := at + SizeOf(data[0]), buffer := st.buffer + [data[0]],
                      trace := st.trace + [DatumAt(data[0], at)]);
      AppendBuffer(next, data[1..]);
      assert st.buffer + [data[0]] + data[1..] == st.buffer + data;
    }
  }

  /** A positive count of zero adds that many zero bytes. */
  lemma {:induction false} ZerosAppended(toks: seq<Token>, st: State) returns (zeros: seq<Datum>)
    requires Current(toks, st.pos).kind == NUM && Current(toks, st.pos).num > 0
    ensures ValuesNext(toks, st, DirectiveOf("zero")).buffer == st.buffer + zeros
    ensures |zeros| == Current(toks, st.pos).num && forall i :: 0 <= i < |zeros| ==> DatumBytes(zeros[i]) == [0]
  {
    assert DirectiveOf("zero") == Zero;
    zeros := Elements(Zero, Current(toks, st.pos));
    AppendBuffer(st, zeros);
    OneByte(0);
  }

  /** A string token adds one datum: the codes of its unescaped characters modulo 256, and a zero byte. */
  lemma {:induction false} StringAppended(toks: seq<Token>, st: State) returns (d: Datum)
    requires Current(toks, st.pos).kind == STRING
    ensures ValuesNext(toks, st, DirectiveOf("string")).buffer == st.buffer + [d]
    ensures var chars, bytes := Unescape(Current(toks, st.pos).value), DatumBytes(d);
      && |bytes| == |chars| + 1 && bytes[|chars|] == 0
      && forall i :: 0 <= i < |chars| ==> bytes[i] as nat == chars[i] as nat % 256
  {
    assert DirectiveOf("string") == Str;
    d := Text(Unescape(Current(toks, st.pos).value) + ['\0']);
    AppendBuffer(st, [d]);
  }

  // Escapes

  /** A backslash before n, t, backslash or a double quote stands for one character. */
  lemma {:induction false} EscapesRead(rest: string)
    ensures Unescape("\\n" + rest) == "\n" + Unescape(rest)
    ensures Unescape("\\t" + rest) == "\t" + Unescape(rest)
    ensures Unescape("\\\\" + rest) == "\\" + Unescape(rest)
    ensures Unescape("\\\"" + rest) == "\"" + Unescape(rest)
  {
    assert ("\\n" + rest)[2..] == rest;
    assert ("\\t" + rest)[2..] == rest;
    assert ("\\\\" + rest)[2..] == rest;
    assert ("\\\"" + rest)[2..] == rest;
  }

  /** Before any other character, or at the end, it is kept; and so is text without backslashes. */
  lemma {:induction false} OthersKept(c: char, rest: string)
    ensures c !in {'n', 't', '\\', '"'} ==> Unescape(['\\', c] + rest) == ['\\', c] + Unescape(rest)
    ensures Unescape("\\") == "\\"
    ensures c != '\\' ==> Unescape([c] + rest) == [c] + Unescape(rest)
  {
    assert (['\\', c] + rest)[2..] == rest;
    assert ([c] + rest)[1..] == rest;
    assert "\\"[1..] == [];
  }

  /** How a string is written so that it is read as s. */
  function Escaped(s: string): string {
    if s == [] then []
    else
      (if s[0] == '\n' then "\\n" else if s[0] == '\t' then "\\t" else if s[0] == '\\' then "\\\\"
       else if s[0] == '"' then "\\\"" else [s[0]])
      + Escaped(s[1..])
  }

  lemma {:induction false} UnescapeInverts(s: string)
    ensures Unescape(Escaped(s)) == s
    decreases |s|
  {
    if s != [] {
      UnescapeInverts(s[1..]);
      EscapesRead(Escaped(s[1..]));
      OthersKept(s[0], Escaped(s[1..]));
    }
  }

  // From a labelled directive to memory

  /** The first pass stands at s in a data section at some time within n iterations. */
  ghost predicate FileVisits(toks: seq<Token>, st: State, n: nat, s: State)
    decreases n
  {
    n > 0 && !AtEnd(toks, st) &&
    ((PartOf(Current(toks, st.pos)) == DataPart && SectionVisits(toks, st.(pos := st.pos + 1), s)) ||
     FileVisits(toks, Iteration(toks, st), n - 1, s))
  }

  predicate Extends(longer: seq<Placement>, shorter: seq<Placement>) {
    |shorter| <= |longer| && longer[..|shorter|] == shorter
  }

  lemma {:induction false} ExtendsOn(a: seq<Placement>, b: seq<Placement>, c: seq<Placement>)
    requires Extends(b, a) && Extends(c, b)
    ensures Extends(c, a)
  {
    assert c[..|a|] == c[..|b|][..|a|];
  }

  lemma {:induction false} ExtendsAt(longer: seq<Placement>, shorter: seq<Placement>, i: nat)
    requires Extends(longer, shorter) && i < |shorter|
    ensures longer[i] == shorter[i]
  {
    assert longer[..|shorter|][i] == longer[i];
  }

  lemma {:induction false} AppendExtends(st: State, data: seq<Datum>)
    ensures Extends(Append(st, data).trace, st.trace)
    decreases |data|
  {
    if data != [] {
      var at := AlignUp(st.index, AlignOf(data[0]));
      var next := st.(index := at + SizeOf(data[0]), buffer := st.buffer + [data[0]],
                      trace := st.trace + [DatumAt(data[0], at)]);
      AppendExtends(next, data[1..]);
      ExtendsOn(st.trace, next.trace, Append(next, data[1..]).trace);
    }
  }

  lemma {:induction false} ValuesExtends(toks: seq<Token>, st: State, d: Directive)
    ensures Extends(Values(toks, st, d).trace, st.trace)
    decreases |toks| - st.pos
  {
    if TakesValue(d, Current(toks, st.pos)) {
      var next := ValuesNext(toks, st, d);
      AppendExtends(st, Elements(d, Current(toks, st.pos)));
      ValuesExtends(toks, next, d);
      ExtendsOn(st.trace, next.trace, Values(toks, next, d).trace);
    }
  }

  lemma {:induction false} EntryExtends(toks: seq<Token>, st: State, d: Directive)
    ensures Extends(Dispatch(toks, st, d).trace, st.trace)
  {
    ValuesExtends(toks, st.(pos := st.pos + 1), d);
  }

  lemma {:induction false} SectionExtends(toks: seq<Token>, st: State)
    ensures Extends(Section(toks, st).trace, st.trace)
    decreases |toks| - st.pos
  {
    if !EndsSection(Current(toks, st.pos)) {
      var next := SectionNext(toks, st);
      EntryExtends(toks, st, DirectiveOf(Current(toks, st.pos).value));
      SectionExtends(toks, next);
      ExtendsOn(st.trace, next.trace, Section(toks, next).trace);
    }
  }

  lemma {:induction false} PartExtends(toks: seq<Token>, st: State, part: Part)
    ensures Extends(ReadPart(toks, st, part).trace, st.trace)
  {
    var next := st.(pos := st.pos + 1);
    match part
    case DataPart => SectionExtends(toks, next);
    case BssPart => BssTrace(toks, next);
    case TextPart => SkipTextTrace(toks, st);
    case _ =>
  }

  lemma {:induction false} IterateExtends(toks: seq<Token>, st: State, n: nat)
    ensures Extends(Iterate(toks, st, n).trace, st.trace)
    decreases n
  {
    if n != 0 && !AtEnd(toks, st) {
      var next := Iteration(toks, st);
      PartExtends(toks, st, PartOf(Current(toks, st.pos)));
      IterateExtends(toks, next, n - 1);
      ExtendsOn(st.trace, next.trace, Iterate(toks, next, n - 1).trace);
    }
  }

  lemma {:induction false} SectionVisitKept(toks: seq<Token>, st: State, s: State)
    requires SectionVisits(toks, st, s)
    ensures Extends(Section(toks, st).trace, s.trace)
    ensures !EndsSection(Current(toks, s.pos)) ==> SectionVisits(toks, st, SectionNext(toks, s))
    decreases |toks| - st.pos
  {
    if s == st {
      SectionExtends(toks, st);
      if !EndsSection(Current(toks, st.pos)) {
        assert SectionVisits(toks, SectionNext(toks, st), SectionNext(toks, st));
      }
    } else {
      SectionVisitKept(toks, SectionNext(toks, st), s);
    }
  }

  /** What has been placed when the section loop stands at s is still there in the end. */
  lemma {:induction false} VisitKept(toks: seq<Token>, st: State, n: nat, s: State)
    requires FileVisits(toks, st, n, s)
    ensures Extends(Iterate(toks, st, n).trace, s.trace)
    ensures !EndsSection(Current(toks, s.pos)) ==> FileVisits(toks, st, n, SectionNext(toks, s))
    decreases n
  {
    var now := st.(pos := st.pos + 1);
    if PartOf(Current(toks, st.pos)) == DataPart && SectionVisits(toks, now, s) {
      SectionVisitKept(toks, now, s);
      IterateExtends(toks, Iteration(toks, st), n - 1);
      ExtendsOn(s.trace, Section(toks, now).trace, Iterate(toks, st, n).trace);
    } else {
      VisitKept(toks, Iteration(toks, st), n - 1, s);
    }
  }

  /** At p stands a label, then a directive, then a value token for v in n bytes. */
  predicate LabelledScalar(toks: seq<Token>, p: nat, n: nat, v: nat) {
    && Current(toks, p).kind == LABEL && !NamesPart(Current(toks, p))
    && Current(toks, p + 1).kind == DIRECTIVE
    && Scalar(Current(toks, p + 1).value, Current(toks, p + 2), n, v)
  }

  lemma {:induction false} ScalarEntry(toks: seq<Token>, s: State, n: nat, v: nat) returns (d: Datum)
    requires Current(toks, s.pos).kind == DIRECTIVE
    requires Scalar(Current(toks, s.pos).value, Current(toks, s.pos + 1), n, v)
    ensures !EndsSection(Current(toks, s.pos)) && IsScalar(d, n, v)
    ensures exists at :: Extends(SectionNext(toks, s).trace, s.trace + [DatumAt(d, at)])
  {
    var value, next := Current(toks, s.pos).value, s.(pos := s.pos + 1);
    var at;
    d, at := ScalarAppended(toks, next, value, n, v);
    ScalarSpelled(value, Current(toks, s.pos + 1), n, v);
    DirectiveInSection(Current(toks, s.pos));
    ValuesExtends(toks, ValuesNext(toks, next, DirectiveOf(value)), DirectiveOf(value));
    assert Extends(SectionNext(toks, s).trace, s.trace + [DatumAt(d, at)]);
  }

  /** Such a label is placed, and the datum of the value token right after it. */
  lemma {:induction false} ScalarPlaced(toks: seq<Token>, k: nat, st: State, s: State, n: nat, v: nat)
    returns (d: Datum)
    requires st == Iterate(toks, Start(), k) && FileVisits(toks, Start(), k, s) && LabelledScalar(toks, s.pos, n, v)
    ensures var i := |s.trace|;
      && i + 1 < |st.trace| && st.trace[i].LabelAt? && st.trace[i].name == Current(toks, s.pos).value
      && st.trace[i + 1].DatumAt? && st.trace[i + 1].datum == d && IsScalar(d, n, v)
  {
    var i, s1 := |s.trace|, SectionNext(toks, s);
    VisitKept(toks, Start(), k, s);
    VisitKept(toks, Start(), k, s1);
    d := ScalarEntry(toks, s1, n, v);
    VisitKept(toks, Start(), k, SectionNext(toks, s1));
    var at :| Extends(SectionNext(toks, s1).trace, s1.trace + [DatumAt(d, at)]);
    ExtendsOn(s1.trace + [DatumAt(d, at)], SectionNext(toks, s1).trace, st.trace);
    ExtendsAt(st.trace, s1.trace + [DatumAt(d, at)], i);
    ExtendsAt(st.trace, s1.trace + [DatumAt(d, at)], i + 1);
  }

  lemma {:induction false} OffsetWithin(data: seq<Datum>, k: nat)
    requires k < |data|
    ensures LoaderOffsets(data)[k] + SizeOf(data[k]) <= LoadCursor(data)
  {
    DataAscends(data, 0);
    DataChunkAt(data, 0, k);
  }

  /** The label at position i of the placements is the last of its name, and a scalar follows it. */
  predicate ScalarAfter(tr: seq<Placement>, i: nat, n: nat, v: nat) {
    && i + 1 < |tr| && tr[i].LabelAt? && LastOfItsName(tr, i)
    && tr[i + 1].DatumAt? && IsScalar(tr[i + 1].datum, n, v)
  }

  /** The datum placed after a label is held at the label's address, within the data section. */
  lemma {:induction false} PlacedHeld(
    loaded: FlatMemory, toks: seq<Token>, k: nat, st: State, base: nat, i: nat, name: string, d: Datum
  )
    requires st == Iterate(toks, Start(), k) && FileServed(toks, Start(), k) && HoldsData(loaded, st.buffer, base)
    requires i + 1 < |st.trace| && LastOfItsName(st.trace, i) && st.trace[i].name == name
    requires st.trace[i + 1].DatumAt? && st.trace[i + 1].datum == d
    ensures name in st.symbols && st.symbols[name].address + SizeOf(d) <= LoadCursor(st.buffer)
    ensures Holds(loaded, base + st.symbols[name].address, DatumBytes(d))
  {
    var j := LabelledOffset(toks, k, st, i, name);
    OffsetWithin(st.buffer, j);
    HeldDatum(loaded, st.buffer, base, j, st.symbols[name].address, d);
  }

  /** A scalar placed after a label is read back from the address of the label. */
  lemma {:induction false} PlacedScalarRead(
    loaded: FlatMemory, size: nat, toks: seq<Token>, k: nat, st: State, base: nat, i: nat, n: nat, v: nat, name: string
  )
    requires st == Iterate(toks, Start(), k) && FileServed(toks, Start(), k) && HoldsData(loaded, st.buffer, base)
    requires base + LoadCursor(st.buffer) <= size < ADDRESSES
    requires ScalarAfter(st.trace, i, n, v) && st.trace[i].name == name
    ensures name in st.symbols
    ensures FlatPerform(loaded, size, Load(base + st.symbols[name].address, n)).1 == Response.Loaded(v % Pow2(8 * n))
  {
    var d := st.trace[i + 1].datum;
    PlacedHeld(loaded, toks, k, st, base, i, name, d);
    ScalarRead(loaded, size, base + st.symbols[name].address, d, n, v);
  }

  /** In a data section, with i placements made so far, a label of this name stands before a scalar. */
  ghost predicate NamesScalar(toks: seq<Token>, k: nat, i: nat, name: string, n: nat, v: nat) {
    exists s :: FileVisits(toks, Start(), k, s) && |s.trace| == i
      && LabelledScalar(toks, s.pos, n, v) && name == Current(toks, s.pos).value
  }

  /**
   From the source file to the processor: a label, a directive byte to double and a value token, anywhere
   in the data sections of a file whose labelled directives emit values. Once its data is loaded, a read of
   that width at the label's address answers the value, truncated to the width.
   */
  lemma {:induction false} LabelledScalarRead(
    loaded: FlatMemory, size: nat, toks: seq<Token>, k: nat, st: State, base: nat, i: nat, name: string, n: nat, v: nat
  )
    requires st == Iterate(toks, Start(), k) && FileServed(toks, Start(), k)
    requires HoldsData(loaded, st.buffer, base) && base + LoadCursor(st.buffer) <= size < ADDRESSES
    requires NamesScalar(toks, k, i, name, n, v) && i < |st.trace| && LastOfItsName(st.trace, i)
    ensures name in st.symbols
    ensures FlatPerform(loaded, size, Load(base + st.symbols[name].address, n)).1 == Response.Loaded(v % Pow2(8 * n))
  {
    ScalarFollows(toks, k, st, i, name, n, v);
    PlacedScalarRead(loaded, size, toks, k, st, base, i, n, v, name);
  }

  /** In particular after the whole program has been loaded. */
  lemma {:induction false} LoadedScalarRead(
    m: FlatMemory, size: nat, text: seq<nat>, toks: seq<Token>, k: nat, st: State, base: nat, i: nat, name: string,
    n: nat, v: nat
  )
    requires st == Iterate(toks, Start(), k) && FileServed(toks, Start(), k) && Fits(size, text, st.buffer, base)
    requires NamesScalar(toks, k, i, name, n, v) && i < |st.trace| && LastOfItsName(st.trace, i)
    ensures name in st.symbols
    ensures FlatPerform(AfterLoading(m, size, text, st.buffer, base).memory, size,
                        Load(base + st.symbols[name].address, n)).1
         == Response.Loaded(v % Pow2(8 * n))
  {
    DataReadsBack(m, size, text, st.buffer, base);
    LabelledScalarRead(AfterLoading(m, size, text, st.buffer, base).memory, size, toks, k, st, base, i, name, n, v);
  }

  lemma {:induction false} ScalarFollows(toks: seq<Token>, k: nat, st: State, i: nat, name: string, n: nat, v: nat)
    requires st == Iterate(toks, Start(), k) && NamesScalar(toks, k, i, name, n, v)
    requires i < |st.trace| && LastOfItsName(st.trace, i)
    ensures ScalarAfter(st.trace, i, n, v) && st.trace[i].name == name
  {
    var s :| FileVisits(toks, Start(), k, s) && |s.trace| == i
      && LabelledScalar(toks, s.pos, n, v) && name == Current(toks, s.pos).value;
    var d := ScalarPlaced(toks, k, st, s, n, v);
  }

  lemma {:induction false} ScalarRead(m: FlatMemory, size: nat, address: nat, d: Datum, n: nat, v: nat)
    requires size < ADDRESSES && address + SizeOf(d) <= size && IsScalar(d, n, v) && Holds(m, address, DatumBytes(d))
    ensures FlatPerform(m, size, Load(address, n)).1 == Response.Loaded(v % Pow2(8 * n))
  {
    ScalarWidth(d, n, v);
    HeldScalar(m, size, address, DatumBytes(d), n);
  }

  lemma {:induction false} ScalarWidth(d: Datum, n: nat, v: nat)
    requires IsScalar(d, n, v)
    ensures IsWidth(n) && SizeOf(d) == n
  {
  }

  lemma {:induction false} HeldScalar(m: FlatMemory, size: nat, address: nat, bytes: seq<MainMemory.Byte>, n: nat)
    requires IsWidth(n) && size < ADDRESSES && address + n <= size && |bytes| == n && Holds(m, address, bytes)
    ensures FlatPerform(m, size, Load(address, n)).1 == Response.Loaded(ValueOf(bytes))
  {
    HoldsReads(m, address, bytes);
    LoadAnswers(m, size, address, n);
  }
}
