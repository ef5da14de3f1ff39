/**
 The first pass of Parser::parse over the sections of a file, and exactly when it comes to an end.
 */
module FirstPass {
  import opened DataSection

  /** parseBSSDirective: skips to the next section directive. */
  function Bss(toks: seq<Token>, st: State): (r: State)
    ensures r.pos >= st.pos
    decreases |toks| - st.pos
  {
    if EndsSection(Current(toks, st.pos)) then st else Bss(toks, st.(pos := st.pos + 1))
  }

  /** The loop that skips a text section. */
  function SkipText(toks: seq<Token>, st: State): (r: State)
    ensures r.pos >= st.pos
    decreases |toks| - st.pos
  {
    var t := Current(toks, st.pos);
    if t.kind == EOF || t.value in {"data", "section", "bss"} then st else SkipText(toks, st.(pos := st.pos + 1))
  }

  /** What the outer loop of the first pass takes a token for. */
  datatype Part = Separator | DataPart | BssPart | TextPart | Stray

  function PartOf(t: Token): Part {
    if t.value == "section" && t.kind == DIRECTIVE then Separator
    else if t.value == "data" && t.kind == DIRECTIVE then DataPart
    else if t.value == "bss" && t.kind == DIRECTIVE then BssPart
    else if (t.value == "text" && t.kind == DIRECTIVE) || t.kind == LABEL || t.kind == OPCODE then TextPart
    else Stray
  }

  /** One iteration of the outer loop of the first pass. */
  function Iteration(toks: seq<Token>, st: State): (r: State)
    ensures r.pos >= st.pos
  {
    ReadPart(toks, st, PartOf(Current(toks, st.pos)))
  }

  function ReadPart(toks: seq<Token>, st: State, part: Part): (r: State)
    ensures r.pos >= st.pos
  {
    var next := st.(pos := st.pos + 1);
    match part
    case Separator => next
    case DataPart => Section(toks, next)
    case BssPart => Bss(toks, next)
    case TextPart => SkipText(toks, st)
    case Stray => next.(errors := st.errors + 2)
  }

  predicate AtEnd(toks: seq<Token>, st: State) {
    Current(toks, st.pos).kind == EOF
  }

  function Iterate(toks: seq<Token>, st: State, n: nat): State
    decreases n
  {
    if n == 0 || AtEnd(toks, st) then st else Iterate(toks, Iteration(toks, st), n - 1)
  }

  /** The outer loop leaves after some number of iterations. */
  ghost predicate Terminates(toks: seq<Token>, st: State) {
    exists n: nat :: AtEnd(toks, Iterate(toks, st, n))
  }

  /** A token that the text-skipping loop stops at without any branch consuming it. */
  predicate Stalls(t: Token) {
    (t.kind == LABEL || t.kind == OPCODE) && t.value in {"data", "section", "bss"}
  }

  predicate BeforeEnd(toks: seq<Token>, p: nat) {
    p < |toks| && forall q :: 0 <= q <= p ==> toks[q].kind != EOF
  }

  /** No stalling token before the first end-of-file token. */
  ghost predicate StallFree(toks: seq<Token>) {
    forall p: nat :: BeforeEnd(toks, p) ==> !Stalls(toks[p])
  }

  /** Nothing up to pos is an end-of-file token that was read past. */
  predicate OnTrack(toks: seq<Token>, pos: nat) {
    forall q :: 0 <= q < pos ==> q < |toks| && toks[q].kind != EOF
  }

  lemma {:induction false} ValuesOnTrack(toks: seq<Token>, st: State, d: Directive)
    requires OnTrack(toks, st.pos)
    ensures OnTrack(toks, Values(toks, st, d).pos)
    decreases |toks| - st.pos
  {
    var t := Current(toks, st.pos);
    if TakesValue(d, t) {
      ValuesOnTrack(toks, ValuesNext(toks, st, d), d);
    }
  }

  lemma {:induction false} SectionOnTrack(toks: seq<Token>, st: State)
    requires OnTrack(toks, st.pos)
    ensures OnTrack(toks, Section(toks, st).pos)
    decreases |toks| - st.pos
  {
    var t := Current(toks, st.pos);
    if !EndsSection(t) {
      ValuesOnTrack(toks, st.(pos := st.pos + 1), DirectiveOf(t.value));
      SectionOnTrack(toks, SectionNext(toks, st));
    }
  }

  lemma {:induction false} BssOnTrack(toks: seq<Token>, st: State)
    requires OnTrack(toks, st.pos)
    ensures OnTrack(toks, Bss(toks, st).pos)
    decreases |toks| - st.pos
  {
    if !EndsSection(Current(toks, st.pos)) {
      BssOnTrack(toks, st.(pos := st.pos + 1));
    }
  }

  lemma {:induction false} SkipTextOnTrack(toks: seq<Token>, st: State)
    requires OnTrack(toks, st.pos)
    ensures OnTrack(toks, SkipText(toks, st).pos)
    decreases |toks| - st.pos
  {
    var t := Current(toks, st.pos);
    if !(t.kind == EOF || t.value in {"data", "section", "bss"}) {
      SkipTextOnTrack(toks, st.(pos := st.pos + 1));
    }
  }

  lemma {:induction false} PartOnTrack(toks: seq<Token>, st: State, part: Part)
    requires OnTrack(toks, st.pos) && !AtEnd(toks, st)
    ensures OnTrack(toks, ReadPart(toks, st, part).pos)
  {
    var next := st.(pos := st.pos + 1);
    match part
    case DataPart => SectionOnTrack(toks, next);
    case BssPart => BssOnTrack(toks, next);
    case TextPart => SkipTextOnTrack(toks, st);
    case _ =>
  }

  lemma {:induction false} IterationOnTrack(toks: seq<Token>, st: State)
    requires OnTrack(toks, st.pos) && !AtEnd(toks, st)
    ensures OnTrack(toks, Iteration(toks, st).pos)
  {
    PartOnTrack(toks, st, PartOf(Current(toks, st.pos)));
  }

  lemma {:induction false} StallsInText(t: Token)
    requires Stalls(t)
    ensures PartOf(t) == TextPart
  {
  }

  lemma {:induction false} SkipTextProgress(toks: seq<Token>, st: State)
    requires !AtEnd(toks, st) && PartOf(Current(toks, st.pos)) == TextPart
    ensures SkipText(toks, st).pos > st.pos <==> !Stalls(Current(toks, st.pos))
    ensures Stalls(Current(toks, st.pos)) ==> SkipText(toks, st) == st
  {
  }

  /** Unread tokens are a measure: every iteration consumes one unless it stands on a stalling token. */
  lemma {:induction false} IterationProgress(toks: seq<Token>, st: State)
    requires !AtEnd(toks, st)
    ensures Iteration(toks, st).pos > st.pos <==> !Stalls(Current(toks, st.pos))
    ensures Stalls(Current(toks, st.pos)) ==> Iteration(toks, st) == st
  {
    var t := Current(toks, st.pos);
    if PartOf(t) == TextPart {
      SkipTextProgress(toks, st);
    } else if Stalls(t) {
      StallsInText(t);
    }
  }

  /** On a list without stalling tokens every iteration reads on, and not past the end. */
  lemma {:induction false} IterationAdvances(toks: seq<Token>, st: State)
    requires OnTrack(toks, st.pos) && StallFree(toks) && !AtEnd(toks, st)
    ensures Iteration(toks, st).pos > st.pos && OnTrack(toks, Iteration(toks, st).pos)
  {
    assert BeforeEnd(toks, st.pos);
    IterationProgress(toks, st);
    IterationOnTrack(toks, st);
  }

  // A stalling token is never read past

  lemma {:induction false} ValuesStopAt(toks: seq<Token>, st: State, d: Directive, p: nat)
    requires st.pos <= p && BeforeEnd(toks, p) && Stalls(toks[p])
    ensures Values(toks, st, d).pos <= p
    decreases |toks| - st.pos
  {
    var t := Current(toks, st.pos);
    if TakesValue(d, t) {
      ValuesStopAt(toks, ValuesNext(toks, st, d), d, p);
    }
  }

  lemma {:induction false} SectionStopsAt(toks: seq<Token>, st: State, p: nat)
    requires st.pos <= p && BeforeEnd(toks, p) && Stalls(toks[p])
    ensures Section(toks, st).pos <= p
    decreases |toks| - st.pos
  {
    var t := Current(toks, st.pos);
    if !EndsSection(t) {
      ValuesStopAt(toks, st.(pos := st.pos + 1), DirectiveOf(t.value), p);
      SectionStopsAt(toks, SectionNext(toks, st), p);
    }
  }

  lemma {:induction false} BssStopsAt(toks: seq<Token>, st: State, p: nat)
    requires st.pos <= p && BeforeEnd(toks, p) && Stalls(toks[p])
    ensures Bss(toks, st).pos <= p
    decreases |toks| - st.pos
  {
    if !EndsSection(Current(toks, st.pos)) {
      BssStopsAt(toks, st.(pos := st.pos + 1), p);
    }
  }

  lemma {:induction false} SkipTextStopsAt(toks: seq<Token>, st: State, p: nat)
    requires st.pos <= p && BeforeEnd(toks, p) && Stalls(toks[p])
    ensures SkipText(toks, st).pos <= p
    decreases |toks| - st.pos
  {
    var t := Current(toks, st.pos);
    if !(t.kind == EOF || t.value in {"data", "section", "bss"}) {
      SkipTextStopsAt(toks, st.(pos := st.pos + 1), p);
    }
  }

  lemma {:induction false} PartStopsAt(toks: seq<Token>, st: State, p: nat, part: Part)
    requires st.pos <= p && BeforeEnd(toks, p) && Stalls(toks[p])
    requires st.pos == p ==> part == TextPart
    ensures ReadPart(toks, st, part).pos <= p
  {
    var next := st.(pos := st.pos + 1);
    match part
    case DataPart => SectionStopsAt(toks, next, p);
    case BssPart => BssStopsAt(toks, next, p);
    case TextPart => SkipTextStopsAt(toks, st, p);
    case _ =>
  }

  lemma {:induction false} IterationStopsAt(toks: seq<Token>, st: State, p: nat)
    requires st.pos <= p && BeforeEnd(toks, p) && Stalls(toks[p])
    ensures Iteration(toks, st).pos <= p
  {
    StallsInText(toks[p]);
    PartStopsAt(toks, st, p, PartOf(Current(toks, st.pos)));
  }

  lemma {:induction false} IterateStopsAt(toks: seq<Token>, st: State, p: nat, n: nat)
    requires st.pos <= p && BeforeEnd(toks, p) && Stalls(toks[p])
    ensures !AtEnd(toks, Iterate(toks, st, n))
    decreases n
  {
    if n != 0 {
      IterationStopsAt(toks, st, p);
      IterateStopsAt(toks, Iteration(toks, st), p, n - 1);
    }
  }

  lemma {:induction false} StallFreeTerminates(toks: seq<Token>, st: State) returns (n: nat)
    requires OnTrack(toks, st.pos) && StallFree(toks)
    ensures AtEnd(toks, Iterate(toks, st, n))
    decreases |toks| - st.pos
  {
    n := 0;
    if !AtEnd(toks, st) {
      IterationAdvances(toks, st);
      var m := StallFreeTerminates(toks, Iteration(toks, st));
      n := m + 1;
    }
  }

  /**
   The first pass ends exactly when no LABEL or OPCODE token before the first end of file is spelled
   data, section or bss.
   */
  lemma {:induction false} TerminatesExactly(toks: seq<Token>, st: State)
    requires st.pos == 0
    ensures Terminates(toks, st) <==> StallFree(toks)
  {
    if StallFree(toks) {
      var n := StallFreeTerminates(toks, st);
    } else {
      var p: nat :| BeforeEnd(toks, p) && Stalls(toks[p]);
      forall n: nat
        ensures !AtEnd(toks, Iterate(toks, st, n))
      {
        IterateStopsAt(toks, st, p, n);
      }
    }
  }

  /** A label named like a section, in a file of nothing else, keeps the first pass from ever ending. */
  lemma {:induction false} SectionNamedLabelLoops(toks: seq<Token>)
    requires |toks| == 2 && toks[0].kind == LABEL && toks[1].kind == EOF
    requires toks[0].value == "data" || toks[0].value == "bss" || toks[0].value == "section"
    ensures !Terminates(toks, Start())
  {
    TerminatesExactly(toks, Start());
    assert BeforeEnd(toks, 0) && Stalls(toks[0]);
  }
}
