/**
 Where the sections of a file begin and end and when one is accepted, in terms of the spelling and
 kind of its tokens.
 */
module SectionBounds {
  import opened DataSection
  import opened FirstPass
  import DataLayout

  predicate NamesPart(t: Token) {
    t.value == "text" || t.value == "data" || t.value == "bss" || t.value == "section"
  }

  /** The data section loop, started in st, stands at s at some time. */
  ghost predicate SectionVisits(toks: seq<Token>, st: State, s: State)
    decreases |toks| - st.pos
  {
    s == st || (!EndsSection(Current(toks, st.pos)) && SectionVisits(toks, SectionNext(toks, st), s))
  }

  /** The value loop takes tokens of one kind and commas, up to the first other one. */
  lemma {:induction false} ValueRun(toks: seq<Token>, st: State, d: Directive, q: nat)
    requires st.pos <= q < Values(toks, st, d).pos
    ensures q < |toks| && (toks[q].kind == COMMA || toks[q].kind == ValueKind(d))
    decreases |toks| - st.pos
  {
    if q > st.pos {
      ValueRun(toks, ValuesNext(toks, st, d), d, q);
    }
  }

  lemma {:induction false} ValueRunEnds(toks: seq<Token>, st: State, d: Directive)
    ensures var t := Current(toks, Values(toks, st, d).pos);
      t.kind != COMMA && t.kind != ValueKind(d)
    decreases |toks| - st.pos
  {
    if TakesValue(d, Current(toks, st.pos)) {
      ValueRunEnds(toks, ValuesNext(toks, st, d), d);
    }
  }

  /** Integers and zero counts are numbers, floats and doubles floats, strings strings. */
  lemma {:induction false} KindSpelled(value: string)
    ensures value == "byte" || value == "halfword" || value == "word" || value == "dword" || value == "zero"
      ==> ValueKind(DirectiveOf(value)) == NUM
    ensures value == "float" || value == "double" ==> ValueKind(DirectiveOf(value)) == FLOAT
    ensures value == "string" ==> ValueKind(DirectiveOf(value)) == STRING
  {
  }

  /** A data section does not run past a directive that names a part of the file. */
  lemma {:induction false} SectionEndsBefore(toks: seq<Token>, st: State, p: nat)
    requires st.pos <= p < |toks| && toks[p].kind == DIRECTIVE && NamesPart(toks[p])
    ensures Section(toks, st).pos <= p
    decreases |toks| - st.pos
  {
    if !EndsSection(Current(toks, st.pos)) {
      EntryEndsBefore(toks, st, p, DirectiveOf(Current(toks, st.pos).value));
      SectionEndsBefore(toks, SectionNext(toks, st), p);
    }
  }

  lemma {:induction false} EntryEndsBefore(toks: seq<Token>, st: State, p: nat, d: Directive)
    requires st.pos < p < |toks| && toks[p].kind == DIRECTIVE
    ensures Dispatch(toks, st, d).pos <= p
  {
    if Current(toks, st.pos).kind != LABEL && d != NotDirective {
      ValuesEndBefore(toks, st.(pos := st.pos + 1), p, d);
    }
  }

  lemma {:induction false} ValuesEndBefore(toks: seq<Token>, st: State, p: nat, d: Directive)
    requires st.pos <= p < |toks| && toks[p].kind == DIRECTIVE
    ensures Values(toks, st, d).pos <= p
  {
    if Values(toks, st, d).pos > p {
      ValueRun(toks, st, d, p);
    }
  }

  /** It ends at the end of the file or at a token so spelled. */
  lemma {:induction false} SectionStopsOn(toks: seq<Token>, st: State)
    ensures var t := Current(toks, Section(toks, st).pos); t.kind == EOF || NamesPart(t)
    decreases |toks| - st.pos
  {
    if !EndsSection(Current(toks, st.pos)) {
      SectionStopsOn(toks, SectionNext(toks, st));
    }
  }

  /** No entry of it starts with such a token. */
  lemma {:induction false} SectionEntry(toks: seq<Token>, st: State, s: State)
    requires SectionVisits(toks, st, s) && s.pos < Section(toks, st).pos
    ensures Current(toks, s.pos).kind != EOF && !NamesPart(Current(toks, s.pos))
    decreases |toks| - st.pos
  {
    if s != st {
      SectionEntry(toks, SectionNext(toks, st), s);
    }
  }

  /** A bss section is skipped to the next token so spelled, or the end of the file, and no further. */
  lemma {:induction false} BssBounds(toks: seq<Token>, st: State, q: nat)
    ensures var e := Bss(toks, st);
      && e == st.(pos := e.pos)
      && (Current(toks, e.pos).kind == EOF || NamesPart(Current(toks, e.pos)))
      && (st.pos <= q < e.pos ==> Current(toks, q).kind != EOF && !NamesPart(Current(toks, q)))
    decreases |toks| - st.pos
  {
    if !EndsSection(Current(toks, st.pos)) {
      BssBounds(toks, st.(pos := st.pos + 1), q);
    }
  }

  /** Text is skipped to the next token spelled data, bss or section, or the end of the file, and no further. */
  lemma {:induction false} TextBounds(toks: seq<Token>, st: State, q: nat)
    ensures var e := SkipText(toks, st);
      && e == st.(pos := e.pos)
      && (Current(toks, e.pos).kind == EOF || LeavesText(Current(toks, e.pos)))
      && (st.pos <= q < e.pos ==> Current(toks, q).kind != EOF && !LeavesText(Current(toks, q)))
    decreases |toks| - st.pos
  {
    var t := Current(toks, st.pos);
    if !(t.kind == EOF || t.value in {"data", "section", "bss"}) {
      TextBounds(toks, st.(pos := st.pos + 1), q);
    }
  }

  predicate LeavesText(t: Token) {
    t.value == "data" || t.value == "bss" || t.value == "section"
  }

  /** Only a data directive makes the first pass place anything; only a stray token is an error outside sections. */
  lemma {:induction false} OutsideData(toks: seq<Token>, st: State)
    ensures var t, next := Current(toks, st.pos), Iteration(toks, st);
      if t.kind == DIRECTIVE && t.value == "data" then next == Section(toks, st.(pos := st.pos + 1))
      else
        && next == st.(pos := next.pos, errors := next.errors)
        && next.errors == st.errors
             + (if t.kind == LABEL || t.kind == OPCODE || (t.kind == DIRECTIVE && NamesPart(t)) then 0 else 2)
  {
    var part := PartOf(Current(toks, st.pos));
    PartSpelled(Current(toks, st.pos));
    if part != DataPart {
      OtherPart(toks, st, part);
    }
  }

  lemma {:induction false} PartSpelled(t: Token)
    ensures PartOf(t) == DataPart <==> t.kind == DIRECTIVE && t.value == "data"
    ensures PartOf(t) != Stray <==> t.kind == LABEL || t.kind == OPCODE || (t.kind == DIRECTIVE && NamesPart(t))
  {
  }

  lemma {:induction false} OtherPart(toks: seq<Token>, st: State, part: Part)
    requires part != DataPart
    ensures var next := ReadPart(toks, st, part);
      next == st.(pos := next.pos, errors := st.errors + if part == Stray then 2 else 0)
  {
    match part
    case BssPart => BssBounds(toks, st.(pos := st.pos + 1), 0);
    case TextPart => TextBounds(toks, st, 0);
    case _ =>
  }

  /** w is the alignment that this spelling asks of a label before it; what is no directive asks none. */
  predicate AsksAlignment(value: string, w: nat) {
    if value == "dword" || value == "double" then w == 8
    else if value == "word" || value == "float" then w == 4
    else if value == "halfword" then w == 2
    else w == 1
  }

  /** A label is entered with its line at the next index so aligned, and nothing else is placed. */
  lemma {:induction false} LabelEntered(toks: seq<Token>, st: State, w: nat)
    requires AsksAlignment(Current(toks, st.pos + 1).value, w)
    ensures var t, next := Current(toks, st.pos), Label(toks, st);
      && next.index % w == 0 && st.index <= next.index < st.index + w
      && next.symbols == st.symbols[t.value := SymbolData(next.index, t.line, true)]
      && next.pos == st.pos + 1 && next.buffer == st.buffer
  {
    AlignmentSpelled(Current(toks, st.pos + 1).value, w);
    DataLayout.AlignUpFacts(st.index, w);
  }

  lemma {:induction false} AlignmentSpelled(value: string, w: nat)
    requires AsksAlignment(value, w)
    ensures AlignOfDirective(DirectiveOf(value)) == w
  {
  }

  // The mistakes in a section

  predicate NamesDirective(t: Token) {
    || t.value == "byte" || t.value == "halfword" || t.value == "word" || t.value == "dword"
    || t.value == "float" || t.value == "double" || t.value == "zero" || t.value == "string"
  }

  /** How many counts of a zero directive are zero. */
  function ZeroCounts(toks: seq<Token>, p: nat): nat
    decreases |toks| - p
  {
    var t := Current(toks, p);
    if t.kind !in {NUM, COMMA} then 0
    else (if t.kind == NUM && t.num == 0 then 1 else 0) + ZeroCounts(toks, p + 1)
  }

  /** A label before no directive, an entry that is neither label nor directive, and every count of zero that is 0. */
  function EntryMistakes(toks: seq<Token>, p: nat): nat {
    var t := Current(toks, p);
    if t.kind == LABEL then if NamesDirective(Current(toks, p + 1)) then 0 else 1
    else if !NamesDirective(t) then 1
    else if t.value == "zero" then ZeroCounts(toks, p + 1)
    else 0
  }

  function SectionMistakes(toks: seq<Token>, st: State): nat
    decreases |toks| - st.pos
  {
    if EndsSection(Current(toks, st.pos)) then 0
    else EntryMistakes(toks, st.pos) + SectionMistakes(toks, SectionNext(toks, st))
  }

  lemma {:induction false} AppendErrors(st: State, data: seq<Datum>)
    ensures Append(st, data).errors == st.errors
    decreases |data|
  {
    if data != [] {
      var at := AlignUp(st.index, AlignOf(data[0]));
      AppendErrors(st.(index := at + SizeOf(data[0]), buffer := st.buffer + [data[0]],
                       trace := st.trace + [DatumAt(data[0], at)]),
                   data[1..]);
    }
  }

  lemma {:induction false} ValueErrors(toks: seq<Token>, st: State, d: Directive)
    ensures var t := Current(toks, st.pos);
      ValuesNext(toks, st, d).errors == st.errors + if d == Zero && t.kind == NUM && t.num == 0 then 2 else 0
  {
    AppendErrors(st, Elements(d, Current(toks, st.pos)));
  }

  lemma {:induction false} ValuesErrors(toks: seq<Token>, st: State, d: Directive)
    ensures Values(toks, st, d).errors == st.errors + if d == Zero then 2 * ZeroCounts(toks, st.pos) else 0
    decreases |toks| - st.pos
  {
    if TakesValue(d, Current(toks, st.pos)) {
      ValueErrors(toks, st, d);
      ValuesErrors(toks, ValuesNext(toks, st, d), d);
    }
  }

  lemma {:induction false} DirectiveSpelled(t: Token)
    ensures DirectiveOf(t.value) != NotDirective <==> NamesDirective(t)
    ensures DirectiveOf(t.value) == Zero <==> t.value == "zero"
  {
  }

  lemma {:induction false} EntryErrors(toks: seq<Token>, st: State)
    ensures SectionNext(toks, st).errors == st.errors + 2 * EntryMistakes(toks, st.pos)
  {
    var t := Current(toks, st.pos);
    DirectiveSpelled(t);
    DirectiveSpelled(Current(toks, st.pos + 1));
    ValuesErrors(toks, st.(pos := st.pos + 1), DirectiveOf(t.value));
  }

  /** Every mistake in a data section is counted twice, and nothing else is. */
  lemma {:induction false} SectionErrors(toks: seq<Token>, st: State)
    ensures Section(toks, st).errors == st.errors + 2 * SectionMistakes(toks, st)
    decreases |toks| - st.pos
  {
    if !EndsSection(Current(toks, st.pos)) {
      EntryErrors(toks, st);
      SectionErrors(toks, SectionNext(toks, st));
    }
  }
}
