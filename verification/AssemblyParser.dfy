/**
 The Parser class of src/assembler/parser.cpp: token cursor, data sections, first pass and
 back-patching. The operand parsers of the text section are not modelled; what they leave behind,
 the intermediate code and the back-patch list, is given.
 */
module AssemblyParser {
  import opened DataSection
  import opened FirstPass
  import opened BackPatching

  class Parser {
    const tokens: seq<Token>
    var pos: nat
    var errorCount: nat
    var dataIndex: nat
    var dataBuffer: seq<Datum>
    var symbolTable: map<string, SymbolData>
    var backPatch: seq<nat>
    var intermediateCode: Code
    /** Every label and datum with the offset it was given, in order. */
    ghost var trace: seq<Placement>

    constructor (tokens: seq<Token>)
      ensures this.tokens == tokens
      ensures View() == Start()
      ensures backPatch == [] && intermediateCode == []
    {
      this.tokens := tokens;
      pos, errorCount, dataIndex, dataBuffer := 0, 0, 0, [];
      symbolTable, backPatch, intermediateCode, trace := map[], [], [], [];
    }

    ghost function View(): State
      reads this
    {
      State(pos, errorCount, dataIndex, dataBuffer, symbolTable, trace)
    }

    function CurrentToken(): Token
      reads this
    {
      if pos < |tokens| then tokens[pos] else END
    }

    function PeekToken(n: nat): Token
      reads this
    {
      if pos + n < |tokens| then tokens[pos + n] else END
    }

    method NextToken()
      modifies this`pos
      ensures pos == if old(pos) < |tokens| then old(pos) + 1 else old(pos)
    {
      if pos < |tokens| {
        pos := pos + 1;
      }
    }

    /** errors_.count++ followed by recordError, which counts the same error again. */
    method RecordError()
      modifies this`errorCount
      ensures errorCount == old(errorCount) + 2
    {
      errorCount := errorCount + 1;
      errorCount := errorCount + 1;
    }

    method Align(alignment: nat)
      requires alignment > 0
      modifies this`dataIndex
      ensures dataIndex == AlignUp(old(dataIndex), alignment)
    {
      if dataIndex % alignment != 0 {
        dataIndex := dataIndex + (alignment - dataIndex % alignment);
      }
    }

    /** align, data_buffer_.emplace_back, data_index_ += size */
    method Emplace(d: Datum)
      modifies this`dataIndex, this`dataBuffer, this`trace
      ensures View() == Append(old(View()), [d])
    {
      Align(AlignOf(d));
      trace := trace + [DatumAt(d, dataIndex)];
      dataBuffer := dataBuffer + [d];
      dataIndex := dataIndex + SizeOf(d);
    }

    method EmplaceZeros(num: nat)
      modifies this`dataIndex, this`dataBuffer, this`trace
      ensures View() == Append(old(View()), seq(num, _ => U8(0)))
    {
      for i := 0 to num
        invariant Append(View(), seq(num - i, _ => U8(0))) == Append(old(View()), seq(num, _ => U8(0)))
      {
        ghost var before := View();
        ghost var zeros := seq(num - i, _ => U8(0));
        assert zeros[..1] == [U8(0)] && zeros[1..] == seq(num - i - 1, _ => U8(0));
        Emplace(U8(0));
      }
    }

    /** One value token, converted as its directive says. */
    method TakeValue(d: Directive)
      requires d != NotDirective
      modifies this`errorCount, this`dataIndex, this`dataBuffer, this`trace
      ensures View() == Value(old(View()), d, CurrentToken())
    {
      var t := CurrentToken();
      match d
      case Dword => Emplace(U64(t.num % 0x1_0000_0000_0000_0000));
      case Word => Emplace(U32(t.num % 0x1_0000_0000));
      case Halfword => Emplace(U16(t.num % 0x1_0000));
      case Byte => Emplace(U8(t.num % 0x100));
      case Single => Emplace(F32(t.single));
      case Double => Emplace(F64(t.double));
      case Str => Emplace(Text(Unescape(t.value) + ['\0']));
      case Zero =>
        if t.num > 0 {
          EmplaceZeros(t.num);
        } else {
          RecordError();
        }
    }

    /** The loop over the values and commas after a directive; the source has one copy for each directive. */
    method ParseValues(d: Directive)
      requires d != NotDirective
      modifies this`pos, this`errorCount, this`dataIndex, this`dataBuffer, this`trace
      ensures View() == Values(tokens, old(View()), d)
    {
      while TakesValue(d, CurrentToken())
        invariant Values(tokens, View(), d) == Values(tokens, old(View()), d)
        decreases |tokens| - pos
      {
        ghost var before := View();
        if CurrentToken().kind == ValueKind(d) {
          TakeValue(d);
        }
        NextToken();
        assert View() == ValuesNext(tokens, before, d);
      }
    }

    method ParseDataLabel()
      requires pos < |tokens|
      modifies this`pos, this`errorCount, this`dataIndex, this`symbolTable, this`trace
      ensures View() == Label(tokens, old(View()))
    {
      var t := CurrentToken();
      var d := DirectiveOf(PeekToken(1).value);
      if d == NotDirective {
        RecordError();
      }
      Align(AlignOfDirective(d));
      symbolTable := symbolTable[t.value := SymbolData(dataIndex, t.line, true)];
      trace := trace + [LabelAt(t.value, AlignOfDirective(d), dataIndex)];
      NextToken();
    }

    method ParseDataDirective()
      modifies this`pos, this`errorCount, this`dataIndex, this`dataBuffer, this`symbolTable, this`trace
      ensures View() == Section(tokens, old(View()))
    {
      while !EndsSection(CurrentToken())
        invariant Section(tokens, View()) == Section(tokens, old(View()))
        decreases |tokens| - pos
      {
        ParseDataEntry(DirectiveOf(CurrentToken().value));
      }
    }

    /** The body of the data section loop, the current token reading as d. */
    method ParseDataEntry(d: Directive)
      requires pos < |tokens|
      modifies this`pos, this`errorCount, this`dataIndex, this`dataBuffer, this`symbolTable, this`trace
      ensures View() == Dispatch(tokens, old(View()), d)
    {
      if CurrentToken().kind == LABEL {
        ParseDataLabel();
      } else if d == NotDirective {
        RecordError();
        NextToken();
      } else {
        NextToken();
        ParseValues(d);
      }
    }

    method ParseBssDirective()
      modifies this`pos
      ensures View() == Bss(tokens, old(View()))
    {
      while !EndsSection(CurrentToken())
        invariant Bss(tokens, View()) == Bss(tokens, old(View()))
        decreases |tokens| - pos
      {
        NextToken();
      }
    }

    method SkipTextSection()
      modifies this`pos
      ensures View() == SkipText(tokens, old(View()))
    {
      while CurrentToken().kind != EOF && CurrentToken().value !in {"data", "section", "bss"}
        invariant SkipText(tokens, View()) == SkipText(tokens, old(View()))
        decreases |tokens| - pos
      {
        NextToken();
      }
    }

    /** The body of the outer loop of the first pass. */
    method ParseNext()
      requires CurrentToken().kind != EOF
      modifies this`pos, this`errorCount, this`dataIndex, this`dataBuffer, this`symbolTable, this`trace
      ensures View() == Iteration(tokens, old(View()))
    {
      ParseSection(PartOf(CurrentToken()));
    }

    /** The same, the current token taken for part. */
    method ParseSection(part: Part)
      requires CurrentToken().kind != EOF
      modifies this`pos, this`errorCount, this`dataIndex, this`dataBuffer, this`symbolTable, this`trace
      ensures View() == ReadPart(tokens, old(View()), part)
    {
      match part
      case Separator =>
        NextToken();
      case DataPart =>
        NextToken();
        ParseDataDirective();
      case BssPart =>
        NextToken();
        ParseBssDirective();
      case TextPart =>
        SkipTextSection();
      case Stray =>
        RecordError();
        NextToken();
    }

    /** The first pass. The source loops forever on other token lists. */
    method FirstPass()
      requires pos == 0 && StallFree(tokens)
      modifies this`pos, this`errorCount, this`dataIndex, this`dataBuffer, this`symbolTable, this`trace
      ensures AtEnd(tokens, View())
      ensures exists n: nat :: View() == Iterate(tokens, old(View()).(index := 0), n)
    {
      dataIndex := 0;
      ghost var start := View();
      ghost var n: nat := 0;
      while CurrentToken().kind != EOF
        invariant OnTrack(tokens, pos)
        invariant View() == Iterate(tokens, start, n)
        decreases |tokens| - pos
      {
        IterationAdvances(tokens, View());
        IterateOnce(tokens, start, n);
        ParseNext();
        n := n + 1;
      }
      assert start == old(View()).(index := 0);
    }

    /** The back-patch loop of parse. */
    method BackPatch()
      requires InBounds(intermediateCode, backPatch)
      modifies this`errorCount, this`intermediateCode
      ensures intermediateCode == PatchedCode(old(intermediateCode), symbolTable, backPatch)
      ensures errorCount == old(errorCount) + 2 * Failures(old(intermediateCode), symbolTable, backPatch)
    {
      ghost var code := intermediateCode;
      for k := 0 to |backPatch|
        invariant intermediateCode == PatchedCode(code, symbolTable, backPatch[..k])
        invariant errorCount == old(errorCount) + 2 * Failures(code, symbolTable, backPatch[..k])
      {
        assert backPatch[..k + 1][..k] == backPatch[..k];
        PatchEntry(backPatch[k]);
      }
      assert backPatch[..|backPatch|] == backPatch;
    }

    method PatchEntry(index: nat)
      requires index < |intermediateCode|
      modifies this`errorCount, this`intermediateCode
      ensures intermediateCode == PatchAt(old(intermediateCode), symbolTable, index)
      ensures errorCount == old(errorCount)
                + if Patch(symbolTable, old(intermediateCode[index].0), index).failed then 2 else 0
    {
      var block := intermediateCode[index].0;
      if block.target in symbolTable {
        var symbol := symbolTable[block.target];
        var offset := Offset(symbol.address, index);
        if IsB(block) {
          if !symbol.isData {
            if -4096 <= offset <= 4095 {
              block := block.(imm := offset);
            } else {
              RecordError();
              return;
            }
          } else {
            RecordError();
          }
        } else if IsJ(block) {
          if -0x10_0000 <= offset <= 0xF_FFFF {
            block := block.(imm := offset);
          } else {
            RecordError();
            return;
          }
        } else {
          RecordError();
          return;
        }
        intermediateCode := intermediateCode[index := (block, true)];
      } else {
        RecordError();
      }
    }
  }

  lemma {:induction false} IterateOnce(toks: seq<Token>, st: State, n: nat)
    requires !AtEnd(toks, Iterate(toks, st, n))
    ensures Iterate(toks, st, n + 1) == Iteration(toks, Iterate(toks, st, n))
    decreases n
  {
    if n != 0 {
      IterateOnce(toks, Iteration(toks, st), n - 1);
    }
  }
}
