/**
 The data section is laid out twice: the parser gives every label and datum an offset, and the
 loader recomputes the offsets from the data buffer alone. This module says when the two agree.
 */
module DataLayout {
  import Bits
  import opened DataSection
  import opened FirstPass

  function Last<T>(s: seq<T>): T
    requires s != []
  {
    s[|s| - 1]
  }

  function Front<T>(s: seq<T>): seq<T>
    requires s != []
  {
    s[..|s| - 1]
  }

  // The parser's layout

  /** The data index after the placements. */
  function Cursor(tr: seq<Placement>): nat {
    if tr == [] then 0
    else match Last(tr)
      case LabelAt(_, _, offset) => offset
      case DatumAt(d, offset) => offset + SizeOf(d)
  }

  function Data(tr: seq<Placement>): seq<Datum> {
    if tr == [] then []
    else match Last(tr)
      case LabelAt(_, _, _) => Data(Front(tr))
      case DatumAt(d, _) => Data(Front(tr)) + [d]
  }

  function ParserOffsets(tr: seq<Placement>): seq<nat> {
    if tr == [] then []
    else match Last(tr)
      case LabelAt(_, _, _) => ParserOffsets(Front(tr))
      case DatumAt(_, offset) => ParserOffsets(Front(tr)) + [offset]
  }

  function LabelOffsets(tr: seq<Placement>): map<string, nat> {
    if tr == [] then map[]
    else match Last(tr)
      case LabelAt(name, _, offset) => LabelOffsets(Front(tr))[name := offset]
      case DatumAt(_, _) => LabelOffsets(Front(tr))
  }

  /** Every placement is the previous data index rounded up to its alignment. */
  predicate Consistent(tr: seq<Placement>) {
    tr == [] ||
    (Consistent(Front(tr)) &&
     match Last(tr)
     case LabelAt(_, a, offset) => a in {1, 2, 4, 8} && offset == AlignUp(Cursor(Front(tr)), a)
     case DatumAt(d, offset) => offset == AlignUp(Cursor(Front(tr)), AlignOf(d)))
  }

  predicate SymbolsMatch(st: State) {
    && st.symbols.Keys == LabelOffsets(st.trace).Keys
    && forall name :: name in st.symbols ==>
         st.symbols[name].isData && st.symbols[name].address == LabelOffsets(st.trace)[name]
  }

  /** The parser state tells the same story as its record of placements. */
  predicate Recorded(st: State) {
    && Consistent(st.trace)
    && st.index == Cursor(st.trace)
    && st.buffer == Data(st.trace)
    && SymbolsMatch(st)
  }

  lemma {:induction false} AppendRecorded(st: State, data: seq<Datum>)
    requires Recorded(st)
    ensures Recorded(Append(st, data))
    decreases |data|
  {
    if data != [] {
      var at := AlignUp(st.index, AlignOf(data[0]));
      var next := st.(index := at + SizeOf(data[0]), buffer := st.buffer + [data[0]],
                      trace := st.trace + [DatumAt(data[0], at)]);
      assert Front(next.trace) == st.trace;
      AppendRecorded(next, data[1..]);
    }
  }

  lemma {:induction false} LabelRecorded(st: State, t: Token, d: Directive)
    requires Recorded(st)
    ensures Recorded(PlaceLabel(st, t, d))
  {
    assert Front(PlaceLabel(st, t, d).trace) == st.trace;
  }

  lemma {:induction false} ValuesRecorded(toks: seq<Token>, st: State, d: Directive)
    requires Recorded(st)
    ensures Recorded(Values(toks, st, d))
    decreases |toks| - st.pos
  {
    var t := Current(toks, st.pos);
    if TakesValue(d, t) {
      AppendRecorded(st, Elements(d, t));
      ValuesRecorded(toks, ValuesNext(toks, st, d), d);
    }
  }

  lemma {:induction false} DispatchRecorded(toks: seq<Token>, st: State, d: Directive)
    requires Recorded(st)
    ensures Recorded(Dispatch(toks, st, d))
  {
    if Current(toks, st.pos).kind == LABEL {
      LabelRecorded(st, Current(toks, st.pos), DirectiveOf(Current(toks, st.pos + 1).value));
    } else if d != NotDirective {
      ValuesRecorded(toks, st.(pos := st.pos + 1), d);
    }
  }

  lemma {:induction false} SectionRecorded(toks: seq<Token>, st: State)
    requires Recorded(st)
    ensures Recorded(Section(toks, st))
    decreases |toks| - st.pos
  {
    if !EndsSection(Current(toks, st.pos)) {
      DispatchRecorded(toks, st, DirectiveOf(Current(toks, st.pos).value));
      SectionRecorded(toks, SectionNext(toks, st));
    }
  }

  lemma {:induction false} BssRecorded(toks: seq<Token>, st: State)
    requires Recorded(st)
    ensures Recorded(Bss(toks, st))
    decreases |toks| - st.pos
  {
    if !EndsSection(Current(toks, st.pos)) {
      BssRecorded(toks, st.(pos := st.pos + 1));
    }
  }

  lemma {:induction false} SkipTextRecorded(toks: seq<Token>, st: State)
    requires Recorded(st)
    ensures Recorded(SkipText(toks, st))
    decreases |toks| - st.pos
  {
    var t := Current(toks, st.pos);
    if !(t.kind == EOF || t.value in {"data", "section", "bss"}) {
      SkipTextRecorded(toks, st.(pos := st.pos + 1));
    }
  }

  lemma {:induction false} PartRecorded(toks: seq<Token>, st: State, part: Part)
    requires Recorded(st)
    ensures Recorded(ReadPart(toks, st, part))
  {
    var next := st.(pos := st.pos + 1);
    match part
    case DataPart => SectionRecorded(toks, next);
    case BssPart => BssRecorded(toks, next);
    case TextPart => SkipTextRecorded(toks, st);
    case _ =>
  }

  lemma {:induction false} IterationRecorded(toks: seq<Token>, st: State)
    requires Recorded(st)
    ensures Recorded(Iteration(toks, st))
  {
    PartRecorded(toks, st, PartOf(Current(toks, st.pos)));
  }

  /** Whatever the first pass reads, its state stays consistent with the placements it made. */
  lemma {:induction false} IterateRecorded(toks: seq<Token>, st: State, n: nat)
    requires Recorded(st)
    ensures Recorded(Iterate(toks, st, n))
    decreases n
  {
    if n != 0 && !AtEnd(toks, st) {
      IterationRecorded(toks, st);
      IterateRecorded(toks, Iteration(toks, st), n - 1);
    }
  }

  // The loader's layout

  /** The data counter after loading the elements. */
  function LoadCursor(data: seq<Datum>): nat {
    if data == [] then 0 else AlignUp(LoadCursor(Front(data)), AlignOf(Last(data))) + SizeOf(Last(data))
  }

  /** Where the loader puts d after the elements before it. */
  function NextOffset(before: seq<Datum>, d: Datum): nat {
    AlignUp(LoadCursor(before), AlignOf(d))
  }

  function LoaderOffsets(data: seq<Datum>): (offsets: seq<nat>)
    ensures |offsets| == |data|
  {
    if data == [] then [] else LoaderOffsets(Front(data)) + [NextOffset(Front(data), Last(data))]
  }

  // When the two layouts agree

  /** The alignments of the labels since the last datum. */
  function Pending(tr: seq<Placement>): seq<nat> {
    if tr == [] || Last(tr).DatumAt? then [] else Pending(Front(tr)) + [Last(tr).align]
  }

  predicate MultipleOfAll(n: nat, aligns: seq<nat>) {
    forall i :: 0 <= i < |aligns| ==> aligns[i] > 0 && n % aligns[i] == 0
  }

  /** Every datum's loader offset is a multiple of the alignments of the labels that precede it. */
  predicate LabelsFit(tr: seq<Placement>) {
    tr == [] ||
    (LabelsFit(Front(tr)) &&
     (Last(tr).DatumAt? ==> MultipleOfAll(NextOffset(Data(Front(tr)), Last(tr).datum), Pending(Front(tr)))))
  }

  lemma {:induction false} AlignUpFacts(n: nat, a: nat)
    requires a in {1, 2, 4, 8}
    ensures AlignUp(n, a) % a == 0 && n <= AlignUp(n, a) < n + a
  {
    var q := if n % a == 0 then n / a else n / a + 1;
    Bits.DivModUnique(AlignUp(n, a), a, q, 0);
  }

  lemma {:induction false} AlignUpLeast(n: nat, a: nat, l: nat)
    requires a in {1, 2, 4, 8} && l % a == 0 && n <= l
    ensures AlignUp(n, a) <= l
  {
    if n % a != 0 {
      QuotientBelow(n, a, l);
      Bits.MulMonotone(a, n / a + 1, l / a);
    }
  }

  lemma {:induction false} QuotientBelow(n: nat, a: nat, l: nat)
    requires a > 0 && l % a == 0 && n <= l && n % a != 0
    ensures n / a < l / a
  {
    if l / a <= n / a {
      Bits.MulMonotone(a, l / a, n / a);
    }
  }

  lemma {:induction false} MultipleNested(l: nat, a: nat, m: nat)
    requires a in {1, 2, 4, 8} && m in {1, 2, 4, 8} && m <= a && l % a == 0
    ensures l % m == 0
  {
    if a == 8 {
      EightIsFour(l);
    }
    if a >= 4 {
      FourIsTwo(l);
    }
  }

  lemma {:induction false} EightIsFour(l: nat)
    ensures l % 8 == 0 ==> l % 4 == 0
  {
    if l % 8 == 0 {
      Bits.DivModUnique(l, 4, 2 * (l / 8), 0);
    }
  }

  lemma {:induction false} FourIsTwo(l: nat)
    ensures l % 4 == 0 ==> l % 2 == 0
  {
    if l % 4 == 0 {
      Bits.DivModUnique(l, 2, 2 * (l / 4), 0);
    }
  }

  /** The parser's cursor stays a multiple of the pending label alignments. */
  lemma {:induction false} CursorAligned(tr: seq<Placement>, i: nat)
    requires Consistent(tr) && i < |Pending(tr)|
    ensures Pending(tr)[i] in {1, 2, 4, 8} && Cursor(tr) % Pending(tr)[i] == 0
  {
    var c, a := Cursor(Front(tr)), Last(tr).align;
    AlignUpFacts(c, a);
    if i < |Pending(tr)| - 1 {
      CursorAligned(Front(tr), i);
      var m := Pending(tr)[i];
      if m <= a {
        MultipleNested(Cursor(tr), a, m);
      } else {
        MultipleNested(c, m, a);
      }
    }
  }

  /** Pending labels push the cursor no further than the next common multiple. */
  lemma {:induction false} CursorBounded(tr: seq<Placement>, start: nat, l: nat)
    requires Consistent(tr) && MultipleOfAll(l, Pending(tr)) && start <= l
    requires DatumCursor(tr) == start
    ensures start <= Cursor(tr) <= l
  {
    if tr != [] && Last(tr).LabelAt? {
      var p := Pending(Front(tr));
      assert forall i :: 0 <= i < |p| ==> Pending(tr)[i] == p[i];
      assert Pending(tr)[|p|] == Last(tr).align;
      CursorBounded(Front(tr), start, l);
      AlignUpLeast(Cursor(Front(tr)), Last(tr).align, l);
    }
  }

  /** The cursor as the last datum left it. */
  function DatumCursor(tr: seq<Placement>): nat {
    if tr == [] || Last(tr).DatumAt? then Cursor(tr) else DatumCursor(Front(tr))
  }

  lemma {:induction false} CursorGrows(tr: seq<Placement>)
    requires Consistent(tr)
    ensures DatumCursor(tr) <= Cursor(tr)
  {
    if tr != [] && Last(tr).LabelAt? {
      CursorGrows(Front(tr));
    }
  }

  /** The next datum lands where the loader puts it exactly when the pending labels fit there. */
  lemma {:induction false} NextDatumAgrees(tr: seq<Placement>, a: nat)
    requires Consistent(tr) && a in {1, 2, 4, 8}
    ensures var l := AlignUp(DatumCursor(tr), a);
      AlignUp(Cursor(tr), a) == l <==> MultipleOfAll(l, Pending(tr))
  {
    var q, c, p := DatumCursor(tr), Cursor(tr), Pending(tr);
    var l := AlignUp(q, a);
    AlignUpFacts(q, a);
    AlignUpFacts(c, a);
    CursorGrows(tr);
    if MultipleOfAll(l, p) {
      CursorBounded(tr, q, l);
      AlignUpLeast(c, a, l);
      AlignUpLeast(q, a, AlignUp(c, a));
    }
    if AlignUp(c, a) == l {
      forall i | 0 <= i < |p|
        ensures p[i] > 0 && l % p[i] == 0
      {
        CursorAligned(tr, i);
        if p[i] <= a {
          MultipleNested(l, a, p[i]);
        } else {
          MultipleNested(c, p[i], a);
        }
      }
    }
  }

  lemma {:induction false} AgreeingCursor(tr: seq<Placement>)
    requires ParserOffsets(tr) == LoaderOffsets(Data(tr))
    ensures DatumCursor(tr) == LoadCursor(Data(tr))
  {
    if tr != [] {
      var d := Data(tr);
      if Last(tr).LabelAt? {
        AgreeingCursor(Front(tr));
      } else {
        assert Front(d) == Data(Front(tr));
        assert Last(ParserOffsets(tr)) == Last(LoaderOffsets(d));
      }
    }
  }

  /** Parser and loader give every datum the same offset exactly when the labels fit. */
  lemma {:induction false} LayoutsAgreeExactly(tr: seq<Placement>)
    requires Consistent(tr)
    ensures ParserOffsets(tr) == LoaderOffsets(Data(tr)) <==> LabelsFit(tr)
  {
    if tr != [] {
      var f := Front(tr);
      LayoutsAgreeExactly(f);
      if Last(tr).DatumAt? {
        var d := Last(tr).datum;
        assert Front(Data(tr)) == Data(f) && Last(Data(tr)) == d;
        SameAppend(ParserOffsets(f), LoaderOffsets(Data(f)), Last(tr).offset, NextOffset(Data(f), d));
        if ParserOffsets(f) == LoaderOffsets(Data(f)) {
          AgreeingCursor(f);
          NextDatumAgrees(f, AlignOf(d));
        }
      }
    }
  }

  lemma {:induction false} SameAppend<T>(a: seq<T>, b: seq<T>, x: T, y: T)
    ensures a + [x] == b + [y] <==> a == b && x == y
  {
    if a + [x] == b + [y] {
      assert a == (a + [x])[..|a|] && b == (b + [y])[..|b|];
      assert x == (a + [x])[|a|] && y == (b + [y])[|b|];
    }
  }

  // Labelled directives with values

  /** Every label, except possibly one at the very end, is followed at once by a datum of its alignment. */
  predicate Served(tr: seq<Placement>) {
    forall i :: 0 <= i < |tr| - 1 && tr[i].LabelAt? ==> tr[i + 1].DatumAt? && AlignOf(tr[i + 1].datum) == tr[i].align
  }

  lemma {:induction false} ServedLabelsFit(tr: seq<Placement>)
    requires Consistent(tr) && Served(tr)
    ensures LabelsFit(tr)
  {
    if tr != [] {
      var f := Front(tr);
      ServedLabelsFit(f);
      if Last(tr).DatumAt? && f != [] && Last(f).LabelAt? {
        assert tr[|f| - 1] == Last(f) && tr[|f|] == Last(tr);
        ServedAlone(f);
        AlignUpFacts(LoadCursor(Data(f)), Last(f).align);
      }
    }
  }

  lemma {:induction false} ServedAlone(tr: seq<Placement>)
    requires Served(tr) && tr != [] && Last(tr).LabelAt?
    ensures Pending(tr) == [Last(tr).align]
  {
  }

  /** If every labelled directive emits a value, the two layouts agree. */
  lemma {:induction false} ServedLabelsAgree(tr: seq<Placement>)
    requires Consistent(tr) && Served(tr)
    ensures ParserOffsets(tr) == LoaderOffsets(Data(tr))
  {
    ServedLabelsFit(tr);
    LayoutsAgreeExactly(tr);
  }

  /** A label followed by a datum of its alignment has the offset of that datum. */
  lemma {:induction false} LabelOfFirstValue(tr: seq<Placement>, i: nat)
    requires Consistent(tr) && i < |tr| - 1 && tr[i].LabelAt?
    requires tr[i + 1].DatumAt? && AlignOf(tr[i + 1].datum) == tr[i].align
    ensures tr[i].offset == tr[i + 1].offset
  {
    var f := Front(tr);
    if i == |tr| - 2 {
      assert Last(f) == tr[i] && Last(tr) == tr[i + 1];
      AlignUpFacts(Cursor(Front(f)), tr[i].align);
    } else {
      LabelOfFirstValue(f, i);
    }
  }

  lemma {:induction false} DirectiveInSection(t: Token)
    requires DirectiveOf(t.value) != NotDirective && t.kind != EOF
    ensures !EndsSection(t)
  {
  }
}
