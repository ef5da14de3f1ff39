/**
 Data sections in which every label is followed by a directive that emits at least one value, read
 off the tokens, and why the parser's and the loader's layouts agree on them.
 */
module ServedLabels {
  import opened DataSection
  import opened FirstPass
  import opened DataLayout

  predicate TokenEmits(t: Token, d: Directive) {
    t.kind == ValueKind(d) && Elements(d, t) != []
  }

  /** The value loop of d, entered at p, appends something. */
  predicate EmitsValue(toks: seq<Token>, p: nat, d: Directive)
    decreases |toks| - p
  {
    var t := Current(toks, p);
    TakesValue(d, t) && (TokenEmits(t, d) || EmitsValue(toks, p + 1, d))
  }

  /** A directive stands at p and emits a value. */
  predicate EmittingDirective(toks: seq<Token>, p: nat) {
    var t := Current(toks, p);
    var d := DirectiveOf(t.value);
    t.kind != LABEL && t.kind != EOF && d != NotDirective && EmitsValue(toks, p + 1, d)
  }

  /** Every label that the data section loop meets is followed by an emitting directive. */
  predicate SectionServed(toks: seq<Token>, st: State)
    decreases |toks| - st.pos
  {
    EndsSection(Current(toks, st.pos)) ||
    ((Current(toks, st.pos).kind == LABEL ==> EmittingDirective(toks, st.pos + 1)) &&
     SectionServed(toks, SectionNext(toks, st)))
  }

  /** The same for every data section that the first n iterations of the first pass meet. */
  predicate FileServed(toks: seq<Token>, st: State, n: nat)
    decreases n
  {
    n == 0 || AtEnd(toks, st) ||
    ((PartOf(Current(toks, st.pos)) == DataPart ==> SectionServed(toks, st.(pos := st.pos + 1))) &&
     FileServed(toks, Iteration(toks, st), n - 1))
  }

  /** No label waits for its datum. */
  predicate Settled(tr: seq<Placement>) {
    tr == [] || Last(tr).DatumAt?
  }

  /** A label waits, if at all, for a datum of alignment a. */
  predicate Awaits(tr: seq<Placement>, a: nat) {
    Settled(tr) || Last(tr).align == a
  }

  /** A label waits for the directive at the current token, which emits. */
  predicate Due(toks: seq<Token>, st: State) {
    && !Settled(st.trace)
    && EmittingDirective(toks, st.pos)
    && Last(st.trace).align == AlignOfDirective(DirectiveOf(Current(toks, st.pos).value))
  }

  lemma {:induction false} ServedExtend(tr: seq<Placement>, p: Placement)
    requires Served(tr) && if p.DatumAt? then Awaits(tr, AlignOf(p.datum)) else Settled(tr)
    ensures Served(tr + [p])
  {
  }

  lemma {:induction false} AppendServed(st: State, data: seq<Datum>, a: nat)
    requires Served(st.trace) && Awaits(st.trace, a)
    requires forall i :: 0 <= i < |data| ==> AlignOf(data[i]) == a
    ensures var tr := Append(st, data).trace;
      Served(tr) && Awaits(tr, a) && (Settled(st.trace) || data != [] ==> Settled(tr))
    decreases |data|
  {
    if data != [] {
      var at := AlignUp(st.index, AlignOf(data[0]));
      ServedExtend(st.trace, DatumAt(data[0], at));
      AppendServed(st.(index := at + SizeOf(data[0]), buffer := st.buffer + [data[0]],
                       trace := st.trace + [DatumAt(data[0], at)]),
                   data[1..], a);
    }
  }

  lemma {:induction false} ElementsAligned(d: Directive, t: Token)
    ensures forall i :: 0 <= i < |Elements(d, t)| ==> AlignOf(Elements(d, t)[i]) == AlignOfDirective(d)
  {
  }

  lemma {:induction false} ValuesServed(toks: seq<Token>, st: State, d: Directive)
    requires Served(st.trace) && Awaits(st.trace, AlignOfDirective(d))
    ensures Served(Values(toks, st, d).trace)
    ensures Settled(st.trace) || EmitsValue(toks, st.pos, d) ==> Settled(Values(toks, st, d).trace)
    decreases |toks| - st.pos
  {
    var t := Current(toks, st.pos);
    if TakesValue(d, t) {
      ValueServed(toks, st, d, AlignOfDirective(d));
      ValuesServed(toks, ValuesNext(toks, st, d), d);
    }
  }

  lemma {:induction false} ValueServed(toks: seq<Token>, st: State, d: Directive, a: nat)
    requires a == AlignOfDirective(d) && Served(st.trace) && Awaits(st.trace, a)
    ensures var tr := ValuesNext(toks, st, d).trace;
      && Served(tr) && Awaits(tr, a)
      && (Settled(st.trace) || TokenEmits(Current(toks, st.pos), d) ==> Settled(tr))
  {
    var t := Current(toks, st.pos);
    ElementsAligned(d, t);
    AppendServed(st, Elements(d, t), a);
  }

  lemma {:induction false} SectionKeepsServed(toks: seq<Token>, st: State)
    requires SectionServed(toks, st) && Served(st.trace) && (Settled(st.trace) || Due(toks, st))
    ensures Served(Section(toks, st).trace) && Settled(Section(toks, st).trace)
    decreases |toks| - st.pos
  {
    var t := Current(toks, st.pos);
    if EndsSection(t) {
      if Due(toks, st) {
        DirectiveInSection(t);
      }
    } else {
      DispatchServed(toks, st, DirectiveOf(t.value));
      SectionKeepsServed(toks, SectionNext(toks, st));
    }
  }

  lemma {:induction false} DispatchServed(toks: seq<Token>, st: State, d: Directive)
    requires Served(st.trace) && (Settled(st.trace) || Due(toks, st))
    requires d == DirectiveOf(Current(toks, st.pos).value)
    requires Current(toks, st.pos).kind == LABEL ==> EmittingDirective(toks, st.pos + 1)
    ensures var next := Dispatch(toks, st, d);
      Served(next.trace) && (Settled(next.trace) || Due(toks, next))
  {
    if Current(toks, st.pos).kind == LABEL {
      LabelServed(toks, st, Current(toks, st.pos), DirectiveOf(Current(toks, st.pos + 1).value));
    } else if d != NotDirective {
      ValuesServed(toks, st.(pos := st.pos + 1), d);
    }
  }

  lemma {:induction false} LabelServed(toks: seq<Token>, st: State, t: Token, d: Directive)
    requires Served(st.trace) && Settled(st.trace)
    requires EmittingDirective(toks, st.pos + 1) && d == DirectiveOf(Current(toks, st.pos + 1).value)
    ensures var next := PlaceLabel(st, t, d);
      Served(next.trace) && Due(toks, next)
  {
    ServedExtend(st.trace, Last(PlaceLabel(st, t, d).trace));
  }

  lemma {:induction false} BssTrace(toks: seq<Token>, st: State)
    ensures Bss(toks, st).trace == st.trace
    decreases |toks| - st.pos
  {
    if !EndsSection(Current(toks, st.pos)) {
      BssTrace(toks, st.(pos := st.pos + 1));
    }
  }

  lemma {:induction false} SkipTextTrace(toks: seq<Token>, st: State)
    ensures SkipText(toks, st).trace == st.trace
    decreases |toks| - st.pos
  {
    var t := Current(toks, st.pos);
    if !(t.kind == EOF || t.value in {"data", "section", "bss"}) {
      SkipTextTrace(toks, st.(pos := st.pos + 1));
    }
  }

  lemma {:induction false} PartServed(toks: seq<Token>, st: State, part: Part)
    requires Served(st.trace) && Settled(st.trace)
    requires part == DataPart ==> SectionServed(toks, st.(pos := st.pos + 1))
    ensures Served(ReadPart(toks, st, part).trace) && Settled(ReadPart(toks, st, part).trace)
  {
    var next := st.(pos := st.pos + 1);
    match part
    case DataPart => SectionKeepsServed(toks, next);
    case BssPart => BssTrace(toks, next);
    case TextPart => SkipTextTrace(toks, st);
    case _ =>
  }

  /** Tokens that serve every label lead to placements that serve every label. */
  lemma {:induction false} FileServedPlacements(toks: seq<Token>, st: State, n: nat)
    requires FileServed(toks, st, n) && Served(st.trace) && Settled(st.trace)
    ensures Served(Iterate(toks, st, n).trace) && Settled(Iterate(toks, st, n).trace)
    decreases n
  {
    if n != 0 && !AtEnd(toks, st) {
      PartServed(toks, st, PartOf(Current(toks, st.pos)));
      FileServedPlacements(toks, Iteration(toks, st), n - 1);
    }
  }

  /**
   For every file whose labelled directives emit values, the loader recomputes from the data buffer
   the offsets the parser gave, and each label has the offset of the first value of its directive.
   */
  lemma {:induction false} ServedFileAgrees(toks: seq<Token>, n: nat)
    requires FileServed(toks, Start(), n)
    ensures var st := Iterate(toks, Start(), n);
      && ParserOffsets(st.trace) == LoaderOffsets(st.buffer)
      && forall i :: 0 <= i < |st.trace| && st.trace[i].LabelAt? ==>
           i + 1 < |st.trace| && st.trace[i + 1].DatumAt? && st.trace[i].offset == st.trace[i + 1].offset
  {
    var st := Iterate(toks, Start(), n);
    FileServedPlacements(toks, Start(), n);
    IterateRecorded(toks, Start(), n);
    ServedLabelsAgree(st.trace);
    forall i | 0 <= i < |st.trace| && st.trace[i].LabelAt?
      ensures i + 1 < |st.trace| && st.trace[i + 1].DatumAt? && st.trace[i].offset == st.trace[i + 1].offset
    {
      LabelOfFirstValue(st.trace, i);
    }
  }

  /** The datum placed at position i is among the data, with its offset. */
  lemma {:induction false} PlacedDatum(tr: seq<Placement>, i: nat) returns (k: nat)
    requires i < |tr| && tr[i].DatumAt?
    ensures k < |Data(tr)| == |ParserOffsets(tr)|
    ensures Data(tr)[k] == tr[i].datum && ParserOffsets(tr)[k] == tr[i].offset
  {
    OffsetsPerDatum(Front(tr));
    if i == |tr| - 1 {
      k := |Data(Front(tr))|;
    } else {
      k := PlacedDatum(Front(tr), i);
    }
  }

  lemma {:induction false} OffsetsPerDatum(tr: seq<Placement>)
    ensures |Data(tr)| == |ParserOffsets(tr)|
  {
    if tr != [] {
      OffsetsPerDatum(Front(tr));
    }
  }

  /** The last label of a name determines its recorded offset. */
  lemma {:induction false} LastLabelOffset(tr: seq<Placement>, i: nat)
    requires i < |tr| && LastOfItsName(tr, i)
    ensures tr[i].name in LabelOffsets(tr) && LabelOffsets(tr)[tr[i].name] == tr[i].offset
  {
    if i < |tr| - 1 {
      LastLabelOffset(Front(tr), i);
    }
  }

  predicate LastOfItsName(tr: seq<Placement>, i: nat)
    requires i < |tr|
  {
    tr[i].LabelAt? && forall j :: i < j < |tr| && tr[j].LabelAt? ==> tr[j].name != tr[i].name
  }

  /** Every recorded name has a last label. */
  lemma {:induction false} NameHasLabel(tr: seq<Placement>, name: string) returns (i: nat)
    requires name in LabelOffsets(tr)
    ensures i < |tr| && LastOfItsName(tr, i) && tr[i].name == name
  {
    if Last(tr).LabelAt? && Last(tr).name == name {
      i := |tr| - 1;
    } else {
      i := NameHasLabel(Front(tr), name);
    }
  }

  /** The symbol address of a label is the loader's offset of the first value after it. */
  lemma {:induction false} LabelledOffset(toks: seq<Token>, n: nat, st: State, i: nat, name: string) returns (k: nat)
    requires st == Iterate(toks, Start(), n) && FileServed(toks, Start(), n)
    requires i < |st.trace| && LastOfItsName(st.trace, i) && name == st.trace[i].name
    ensures i + 1 < |st.trace| && st.trace[i + 1].DatumAt? && name in st.symbols
    ensures k < |st.buffer| && st.buffer[k] == st.trace[i + 1].datum
    ensures st.symbols[name].address == LoaderOffsets(st.buffer)[k]
  {
    IterateRecorded(toks, Start(), n);
    ServedFileAgrees(toks, n);
    k := PlacedDatum(st.trace, i + 1);
    LastLabelOffset(st.trace, i);
  }
}
