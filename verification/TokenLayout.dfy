/**
 When the parser's and the loader's layouts agree, read off the tokens of a file: a scan that needs
 neither parser nor loader collects what is labelled and what is emitted, and checks alignments.
 */
module TokenLayout {
  import opened DataSection
  import opened FirstPass
  import opened DataLayout

  /** What a data section asks for: a label with the alignment of its directive, or a datum. */
  datatype Item = Mark(align: nat) | Emit(datum: Datum)

  /** The items found from a position on, and where the search ended. */
  datatype Scan = Scan(items: seq<Item>, end: nat) {
    function After(items: seq<Item>): Scan {
      Scan(items + this.items, end)
    }
  }

  function Emitted(data: seq<Datum>): seq<Item> {
    seq(|data|, i requires 0 <= i < |data| => Emit(data[i]))
  }

  /** What one token adds in the value loop of d. */
  function TokenItems(t: Token, d: Directive): seq<Item> {
    if t.kind == ValueKind(d) then Emitted(Elements(d, t)) else []
  }

  function ScanValues(toks: seq<Token>, p: nat, d: Directive): (s: Scan)
    ensures s.end >= p
    decreases |toks| - p
  {
    var t := Current(toks, p);
    if !TakesValue(d, t) then Scan([], p)
    else ScanValues(toks, p + 1, d).After(TokenItems(t, d))
  }

  function ScanSection(toks: seq<Token>, p: nat): (s: Scan)
    ensures s.end >= p
    decreases |toks| - p
  {
    var t := Current(toks, p);
    var d := DirectiveOf(t.value);
    if EndsSection(t) then Scan([], p)
    else if t.kind == LABEL then
      ScanSection(toks, p + 1).After([Mark(AlignOfDirective(DirectiveOf(Current(toks, p + 1).value)))])
    else if d == NotDirective then ScanSection(toks, p + 1)
    else
      var values := ScanValues(toks, p + 1, d);
      ScanSection(toks, values.end).After(values.items)
  }

  function BssEnd(toks: seq<Token>, p: nat): (q: nat)
    ensures q >= p
    decreases |toks| - p
  {
    if EndsSection(Current(toks, p)) then p else BssEnd(toks, p + 1)
  }

  function TextEnd(toks: seq<Token>, p: nat): (q: nat)
    ensures q >= p
    decreases |toks| - p
  {
    var t := Current(toks, p);
    if t.kind == EOF || t.value in {"data", "section", "bss"} then p else TextEnd(toks, p + 1)
  }

  /** One step through the sections of a file. */
  function ScanPart(toks: seq<Token>, p: nat, part: Part): (s: Scan)
    ensures s.end >= p
  {
    match part
    case Separator => Scan([], p + 1)
    case DataPart => ScanSection(toks, p + 1)
    case BssPart => Scan([], BssEnd(toks, p + 1))
    case TextPart => Scan([], TextEnd(toks, p))
    case Stray => Scan([], p + 1)
  }

  /** The items of the first n sections or stray tokens. */
  function ScanFile(toks: seq<Token>, p: nat, n: nat): Scan
    decreases n
  {
    if n == 0 || Current(toks, p).kind == EOF then Scan([], p)
    else
      var first := ScanPart(toks, p, PartOf(Current(toks, p)));
      ScanFile(toks, first.end, n - 1).After(first.items)
  }

  // The condition on items

  /** The data counter after the items, labels ignored. */
  function Counter(items: seq<Item>): nat {
    if items == [] then 0
    else match Last(items)
      case Mark(_) => Counter(Front(items))
      case Emit(d) => AlignUp(Counter(Front(items)), AlignOf(d)) + SizeOf(d)
  }

  /** The greatest alignment among the labels since the last datum. */
  function Waiting(items: seq<Item>): (a: nat)
    ensures a > 0
  {
    if items == [] || Last(items).Emit? then 1
    else
      var before := Waiting(Front(items));
      if before < Last(items).align then Last(items).align else before
  }

  /** Every datum, aligned by itself alone, also meets the greatest alignment of the labels before it. */
  predicate WellLabelled(items: seq<Item>) {
    items == [] ||
    (WellLabelled(Front(items)) &&
     (Last(items).Emit? ==>
        AlignUp(Counter(Front(items)), AlignOf(Last(items).datum)) % Waiting(Front(items)) == 0))
  }

  // The placements of the parser are these items

  function ItemOf(p: Placement): Item {
    match p
    case LabelAt(_, a, _) => Mark(a)
    case DatumAt(d, _) => Emit(d)
  }

  function Items(tr: seq<Placement>): (items: seq<Item>)
    ensures |items| == |tr|
  {
    seq(|tr|, i requires 0 <= i < |tr| => ItemOf(tr[i]))
  }

  /** st has grown to next by what was scanned. */
  predicate Follows(next: State, st: State, s: Scan) {
    next.pos == s.end && Items(next.trace) == Items(st.trace) + s.items
  }

  lemma {:induction false} FollowsOn(a: State, b: State, c: State, s: Scan, t: Scan)
    requires Follows(b, a, s) && Follows(c, b, t)
    ensures Follows(c, a, t.After(s.items))
  {
    assert Items(a.trace) + s.items + t.items == Items(a.trace) + (s.items + t.items);
  }

  lemma {:induction false} AppendScanned(st: State, data: seq<Datum>)
    ensures Items(Append(st, data).trace) == Items(st.trace) + Emitted(data)
    ensures Append(st, data).pos == st.pos
    decreases |data|
  {
    if data == [] {
      assert Items(st.trace) + Emitted(data) == Items(st.trace);
    } else {
      var at := AlignUp(st.index, AlignOf(data[0]));
      var next := st.(index := at + SizeOf(data[0]), buffer := st.buffer + [data[0]],
                      trace := st.trace + [DatumAt(data[0], at)]);
      AppendScanned(next, data[1..]);
      EmittedFirst(st.trace, data, at);
    }
  }

  lemma {:induction false} EmittedFirst(tr: seq<Placement>, data: seq<Datum>, at: nat)
    requires data != []
    ensures Items(tr + [DatumAt(data[0], at)]) + Emitted(data[1..]) == Items(tr) + Emitted(data)
  {
  }

  lemma {:induction false} ValueScanned(toks: seq<Token>, st: State, d: Directive)
    ensures Follows(ValuesNext(toks, st, d), st, Scan(TokenItems(Current(toks, st.pos), d), st.pos + 1))
  {
    var t := Current(toks, st.pos);
    AppendScanned(st, Elements(d, t));
    NothingScanned(st);
    assert d == Zero && t.num == 0 ==> Emitted(Elements(d, t)) == [];
  }

  lemma {:induction false} ValuesScanned(toks: seq<Token>, st: State, d: Directive)
    ensures Follows(Values(toks, st, d), st, ScanValues(toks, st.pos, d))
    decreases |toks| - st.pos
  {
    var t := Current(toks, st.pos);
    if TakesValue(d, t) {
      var next := ValuesNext(toks, st, d);
      ValueScanned(toks, st, d);
      ValuesScanned(toks, next, d);
      FollowsOn(st, next, Values(toks, next, d),
                Scan(TokenItems(t, d), st.pos + 1), ScanValues(toks, st.pos + 1, d));
    } else {
      NothingScanned(st);
    }
  }

  /** What one step of the data section loop adds. */
  function ScanEntry(toks: seq<Token>, p: nat, d: Directive): (s: Scan)
    ensures s.end > p
  {
    if Current(toks, p).kind == LABEL then
      Scan([Mark(AlignOfDirective(DirectiveOf(Current(toks, p + 1).value)))], p + 1)
    else if d == NotDirective then Scan([], p + 1)
    else ScanValues(toks, p + 1, d)
  }

  lemma {:induction false} NothingScanned(st: State)
    ensures Items(st.trace) + [] == Items(st.trace)
  {
  }

  lemma {:induction false} LabelScanned(st: State, t: Token, d: Directive)
    ensures Follows(PlaceLabel(st, t, d), st, Scan([Mark(AlignOfDirective(d))], st.pos + 1))
  {
    var at := AlignUp(st.index, AlignOfDirective(d));
    ItemsExtend(st.trace, LabelAt(t.value, AlignOfDirective(d), at));
  }

  lemma {:induction false} ItemsExtend(tr: seq<Placement>, p: Placement)
    ensures Items(tr + [p]) == Items(tr) + [ItemOf(p)]
  {
  }

  lemma {:induction false} EntryScanned(toks: seq<Token>, st: State, d: Directive)
    ensures Follows(Dispatch(toks, st, d), st, ScanEntry(toks, st.pos, d))
  {
    if Current(toks, st.pos).kind == LABEL {
      LabelScanned(st, Current(toks, st.pos), DirectiveOf(Current(toks, st.pos + 1).value));
    } else if d == NotDirective {
      NothingScanned(st);
    } else {
      ValuesScanned(toks, st.(pos := st.pos + 1), d);
    }
  }

  lemma {:induction false} SectionScanned(toks: seq<Token>, st: State)
    ensures Follows(Section(toks, st), st, ScanSection(toks, st.pos))
    decreases |toks| - st.pos
  {
    var t := Current(toks, st.pos);
    if EndsSection(t) {
      NothingScanned(st);
    } else {
      var d, next := DirectiveOf(t.value), SectionNext(toks, st);
      var entry := ScanEntry(toks, st.pos, d);
      EntryScanned(toks, st, d);
      SectionScanned(toks, next);
      FollowsOn(st, next, Section(toks, next), entry, ScanSection(toks, entry.end));
      EntryFirst(toks, st.pos, d);
    }
  }

  lemma {:induction false} EntryFirst(toks: seq<Token>, p: nat, d: Directive)
    requires !EndsSection(Current(toks, p)) && d == DirectiveOf(Current(toks, p).value)
    ensures var entry := ScanEntry(toks, p, d);
      ScanSection(toks, p) == ScanSection(toks, entry.end).After(entry.items)
  {
    var rest := ScanSection(toks, p + 1);
    assert [] + rest.items == rest.items;
  }

  lemma {:induction false} BssScanned(toks: seq<Token>, st: State)
    ensures Bss(toks, st) == st.(pos := BssEnd(toks, st.pos))
    decreases |toks| - st.pos
  {
    if !EndsSection(Current(toks, st.pos)) {
      BssScanned(toks, st.(pos := st.pos + 1));
    }
  }

  lemma {:induction false} TextScanned(toks: seq<Token>, st: State)
    ensures SkipText(toks, st) == st.(pos := TextEnd(toks, st.pos))
    decreases |toks| - st.pos
  {
    var t := Current(toks, st.pos);
    if !(t.kind == EOF || t.value in {"data", "section", "bss"}) {
      TextScanned(toks, st.(pos := st.pos + 1));
    }
  }

  lemma {:induction false} PartScanned(toks: seq<Token>, st: State, part: Part)
    ensures Follows(ReadPart(toks, st, part), st, ScanPart(toks, st.pos, part))
  {
    var next := st.(pos := st.pos + 1);
    match part
    case DataPart => SectionScanned(toks, next);
    case BssPart =>
      BssScanned(toks, next);
      NothingScanned(st);
    case TextPart =>
      TextScanned(toks, st);
      NothingScanned(st);
    case _ => NothingScanned(st);
  }

  lemma {:induction false} FileScanned(toks: seq<Token>, st: State, n: nat)
    ensures Follows(Iterate(toks, st, n), st, ScanFile(toks, st.pos, n))
    decreases n
  {
    if n == 0 || AtEnd(toks, st) {
      NothingScanned(st);
    } else {
      var part := PartOf(Current(toks, st.pos));
      var next, first := ReadPart(toks, st, part), ScanPart(toks, st.pos, part);
      PartScanned(toks, st, part);
      FileScanned(toks, next, n - 1);
      FollowsOn(st, next, Iterate(toks, next, n - 1), first, ScanFile(toks, first.end, n - 1));
    }
  }

  // The two conditions coincide

  lemma {:induction false} ItemsSplit(tr: seq<Placement>)
    requires tr != []
    ensures Front(Items(tr)) == Items(Front(tr)) && Last(Items(tr)) == ItemOf(Last(tr))
  {
  }

  lemma {:induction false} SameCounter(tr: seq<Placement>)
    ensures Counter(Items(tr)) == LoadCursor(Data(tr))
  {
    if tr != [] {
      ItemsSplit(tr);
      SameCounter(Front(tr));
      if Last(tr).DatumAt? {
        assert Front(Data(tr)) == Data(Front(tr)) && Last(Data(tr)) == Last(tr).datum;
      }
    }
  }

  /** A multiple of the greatest waiting alignment is a multiple of them all, and conversely. */
  lemma {:induction false} GreatestDecides(tr: seq<Placement>, l: nat)
    requires Consistent(tr)
    ensures Waiting(Items(tr)) in {1, 2, 4, 8}
    ensures MultipleOfAll(l, Pending(tr)) <==> l % Waiting(Items(tr)) == 0
  {
    if tr != [] {
      ItemsSplit(tr);
      if Last(tr).LabelAt? {
        var p, w, a := Pending(Front(tr)), Waiting(Items(Front(tr))), Last(tr).align;
        GreatestDecides(Front(tr), l);
        MultipleSnoc(l, p, a);
        GreaterOfTwo(l, w, a);
      }
    }
  }

  lemma {:induction false} MultipleSnoc(l: nat, p: seq<nat>, a: nat)
    requires a > 0
    ensures MultipleOfAll(l, p + [a]) <==> MultipleOfAll(l, p) && l % a == 0
  {
    assert (p + [a])[|p|] == a;
    assert forall i :: 0 <= i < |p| ==> (p + [a])[i] == p[i];
  }

  lemma {:induction false} GreaterOfTwo(l: nat, w: nat, a: nat)
    requires w in {1, 2, 4, 8} && a in {1, 2, 4, 8}
    ensures l % w == 0 && l % a == 0 <==> l % (if w < a then a else w) == 0
  {
    if l % a == 0 && w <= a {
      MultipleNested(l, a, w);
    }
    if l % w == 0 && a <= w {
      MultipleNested(l, w, a);
    }
  }

  lemma {:induction false} SameCondition(tr: seq<Placement>)
    requires Consistent(tr)
    ensures LabelsFit(tr) <==> WellLabelled(Items(tr))
  {
    if tr != [] {
      var f := Front(tr);
      ItemsSplit(tr);
      SameCondition(f);
      SameCounter(f);
      if Last(tr).DatumAt? {
        GreatestDecides(f, NextOffset(Data(f), Last(tr).datum));
      }
    }
  }

  /** For every file, parser and loader lay the data out alike exactly when its items are well labelled. */
  lemma {:induction false} FileAgreesExactly(toks: seq<Token>, n: nat)
    ensures var st := Iterate(toks, Start(), n);
      ParserOffsets(st.trace) == LoaderOffsets(st.buffer) <==> WellLabelled(ScanFile(toks, 0, n).items)
  {
    var st := Iterate(toks, Start(), n);
    IterateRecorded(toks, Start(), n);
    LayoutsAgreeExactly(st.trace);
    SameCondition(st.trace);
    FileScanned(toks, Start(), n);
    assert [] + ScanFile(toks, 0, n).items == ScanFile(toks, 0, n).items;
  }

  // A file on which they disagree

  function Tok(kind: TokenType, value: string, num: nat): Token {
    Token(kind, value, 1, num, 0, 0)
  }

  /** The tokens of a data section: byte 1, an empty dword labelled x, byte 2. */
  predicate EmptyDirectiveFile(toks: seq<Token>) {
    && |toks| == 8
    && toks[0] == Tok(DIRECTIVE, "data", 0)
    && toks[1] == Tok(DIRECTIVE, "byte", 0) && toks[2] == Tok(NUM, "1", 1)
    && toks[3] == Tok(LABEL, "x", 0) && toks[4] == Tok(DIRECTIVE, "dword", 0)
    && toks[5] == Tok(DIRECTIVE, "byte", 0) && toks[6] == Tok(NUM, "2", 2)
    && toks[7] == Tok(EOF, "", 0)
  }

  /** A labelled directive without values breaks the agreement, in a file that is read to its end without an error. */
  lemma {:induction false} EmptyDirectiveDisagrees(toks: seq<Token>)
    requires EmptyDirectiveFile(toks)
    ensures var st := Iterate(toks, Start(), 1);
      && AtEnd(toks, st) && st.errors == 0
      && st.trace == [DatumAt(U8(1), 0), LabelAt("x", 8, 8), DatumAt(U8(2), 8)] && st.buffer == [U8(1), U8(2)]
      && ParserOffsets(st.trace) != LoaderOffsets(st.buffer)
  {
    ReadEmptyDirectiveFile(toks);
    OffsetsDiffer();
  }

  lemma {:induction false} ReadEmptyDirectiveFile(toks: seq<Token>)
    requires EmptyDirectiveFile(toks)
    ensures Iterate(toks, Start(), 1)
         == State(7, 0, 9, [U8(1), U8(2)], map["x" := SymbolData(8, 1, true)],
                  [DatumAt(U8(1), 0), LabelAt("x", 8, 8), DatumAt(U8(2), 8)])
  {
    ReadItsSection(toks);
    DataIteration(toks, Section(toks, Start().(pos := 1)));
  }

  lemma {:induction false} ReadItsSection(toks: seq<Token>)
    requires EmptyDirectiveFile(toks)
    ensures Section(toks, Start().(pos := 1))
         == State(7, 0, 9, [U8(1), U8(2)], map["x" := SymbolData(8, 1, true)],
                  [DatumAt(U8(1), 0), LabelAt("x", 8, 8), DatumAt(U8(2), 8)])
  {
    var s2 := State(3, 0, 1, [U8(1)], map[], [DatumAt(U8(1), 0)]);
    var s3 := State(4, 0, 8, [U8(1)], map["x" := SymbolData(8, 1, true)], [DatumAt(U8(1), 0), LabelAt("x", 8, 8)]);
    FirstByte(toks, Start().(pos := 1), s2);
    TheLabel(toks, s2, s3);
    AfterLabel(toks, s3, State(7, 0, 9, [U8(1), U8(2)], s3.symbols, s3.trace + [DatumAt(U8(2), 8)]));
  }

  lemma {:induction false} FirstByte(toks: seq<Token>, s1: State, s2: State)
    requires EmptyDirectiveFile(toks) && s1.pos == 1
    requires s2 == State(3, s1.errors, s1.index + 1, s1.buffer + [U8(1)], s1.symbols,
                         s1.trace + [DatumAt(U8(1), s1.index)])
    ensures Section(toks, s1) == Section(toks, s2)
  {
    ByteRead(toks, s1, 1, s2);
  }

  lemma {:induction false} TheLabel(toks: seq<Token>, s2: State, s3: State)
    requires EmptyDirectiveFile(toks) && s2.pos == 3 && s2.index == 1
    requires s3 == State(4, s2.errors, 8, s2.buffer, s2.symbols["x" := SymbolData(8, 1, true)],
                         s2.trace + [LabelAt("x", 8, 8)])
    ensures Section(toks, s2) == Section(toks, s3)
  {
    LabelRead(toks, s2, s3);
  }

  lemma {:induction false} AfterLabel(toks: seq<Token>, s3: State, s5: State)
    requires EmptyDirectiveFile(toks) && s3.pos == 4
    requires s5 == State(7, s3.errors, s3.index + 1, s3.buffer + [U8(2)], s3.symbols,
                         s3.trace + [DatumAt(U8(2), s3.index)])
    ensures Section(toks, s3) == s5
  {
    NothingRead(toks, s3);
    ByteRead(toks, s3.(pos := 5), 2, s5);
    SectionOver(toks, s5);
  }

  lemma {:induction false} SectionOver(toks: seq<Token>, st: State)
    requires Current(toks, st.pos).kind == EOF
    ensures Section(toks, st) == st
  {
  }

  lemma {:induction false} DataIteration(toks: seq<Token>, st: State)
    requires Current(toks, 0) == Tok(DIRECTIVE, "data", 0) && st == Section(toks, Start().(pos := 1))
    ensures Iterate(toks, Start(), 1) == st
  {
    assert Iterate(toks, Iteration(toks, Start()), 0) == Iteration(toks, Start());
  }

  /** A byte directive with one value. */
  lemma {:induction false} ByteRead(toks: seq<Token>, st: State, v: nat, next: State)
    requires v < 256 && Current(toks, st.pos) == Tok(DIRECTIVE, "byte", 0)
    requires Current(toks, st.pos + 1).kind == NUM && Current(toks, st.pos + 1).num == v
    requires Current(toks, st.pos + 2).kind !in {NUM, COMMA}
    requires next == State(st.pos + 2, st.errors, st.index + 1, st.buffer + [U8(v)], st.symbols,
                           st.trace + [DatumAt(U8(v), st.index)])
    ensures Section(toks, st) == Section(toks, next)
  {
    ByteValues(toks, st.(pos := st.pos + 1), v);
    var d := ByteDirective(Current(toks, st.pos));
    SectionDirective(toks, st, d);
  }

  lemma {:induction false} ByteDirective(t: Token) returns (d: Directive)
    requires t == Tok(DIRECTIVE, "byte", 0)
    ensures d == DirectiveOf(t.value) == Byte && !EndsSection(t)
  {
    d := Byte;
    DirectiveInSection(t);
  }

  lemma {:induction false} ByteValues(toks: seq<Token>, st: State, v: nat)
    requires v < 256 && Current(toks, st.pos).kind == NUM && Current(toks, st.pos).num == v
    requires Current(toks, st.pos + 1).kind !in {NUM, COMMA}
    ensures Values(toks, st, Byte)
         == State(st.pos + 1, st.errors, st.index + 1, st.buffer + [U8(v)], st.symbols,
                  st.trace + [DatumAt(U8(v), st.index)])
  {
    var next := ValuesNext(toks, st, Byte);
    AppendByte(st, v);
    assert Values(toks, next, Byte) == next;
  }

  lemma {:induction false} AppendByte(st: State, v: nat)
    ensures Append(st, [U8(v)])
         == State(st.pos, st.errors, st.index + 1, st.buffer + [U8(v)], st.symbols,
                  st.trace + [DatumAt(U8(v), st.index)])
  {
    assert [U8(v)][1..] == [];
  }

  /** A directive in the section loop. */
  lemma {:induction false} SectionDirective(toks: seq<Token>, st: State, d: Directive)
    requires Current(toks, st.pos).kind == DIRECTIVE && !EndsSection(Current(toks, st.pos))
    requires d == DirectiveOf(Current(toks, st.pos).value) != NotDirective
    ensures Section(toks, st) == Section(toks, Values(toks, st.(pos := st.pos + 1), d))
  {
  }

  lemma {:induction false} LabelRead(toks: seq<Token>, st: State, next: State)
    requires Current(toks, st.pos) == Tok(LABEL, "x", 0) && Current(toks, st.pos + 1).value == "dword" && st.index == 1
    requires next == State(st.pos + 1, st.errors, 8, st.buffer, st.symbols["x" := SymbolData(8, 1, true)],
                           st.trace + [LabelAt("x", 8, 8)])
    ensures Section(toks, st) == Section(toks, next)
  {
    assert DirectiveOf("dword") == Dword;
    assert Label(toks, st) == next;
  }

  /** A dword directive without values. */
  lemma {:induction false} NothingRead(toks: seq<Token>, st: State)
    requires Current(toks, st.pos) == Tok(DIRECTIVE, "dword", 0) && Current(toks, st.pos + 1).kind !in {NUM, COMMA}
    ensures Section(toks, st) == Section(toks, st.(pos := st.pos + 1))
  {
    var d := DwordDirective(Current(toks, st.pos));
    NoValues(toks, st.(pos := st.pos + 1), d);
    SectionDirective(toks, st, d);
  }

  lemma {:induction false} DwordDirective(t: Token) returns (d: Directive)
    requires t == Tok(DIRECTIVE, "dword", 0)
    ensures d == DirectiveOf(t.value) == Dword && !EndsSection(t)
  {
    d := Dword;
    DirectiveInSection(t);
  }

  lemma {:induction false} NoValues(toks: seq<Token>, st: State, d: Directive)
    requires d == Dword && Current(toks, st.pos).kind !in {NUM, COMMA}
    ensures Values(toks, st, d) == st
  {
  }

  lemma {:induction false} OffsetsDiffer()
    ensures var tr := [DatumAt(U8(1), 0), LabelAt("x", 8, 8), DatumAt(U8(2), 8)];
      ParserOffsets(tr) != LoaderOffsets([U8(1), U8(2)])
  {
    var t1 := [DatumAt(U8(1), 0)];
    var t2 := [DatumAt(U8(1), 0), LabelAt("x", 8, 8)];
    var t3 := [DatumAt(U8(1), 0), LabelAt("x", 8, 8), DatumAt(U8(2), 8)];
    assert Front(t1) == [] && Front(t2) == t1 && Front(t3) == t2;
    assert Front([U8(1)]) == [] && LoadCursor([U8(1)]) == 1;
    assert Front([U8(1), U8(2)]) == [U8(1)] && Last([U8(1), U8(2)]) == U8(2);
    assert Last(ParserOffsets(t3)) == 8 && Last(LoaderOffsets([U8(1), U8(2)])) == 1;
  }
}
