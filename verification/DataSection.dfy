/**
 What the data section of an assembly file means to the parser (src/assembler/parser.cpp): the
 effect of its token loops on the parser state, written as functions of the remaining tokens.
 */
module DataSection {

  datatype TokenType =
    | INVALID | EOF | IDENTIFIER | DIRECTIVE | OPCODE | GP_REGISTER | FP_REGISTER | VEC_REGISTER | CSR_REGISTER
    | NUM | FLOAT | LABEL | LABEL_REF | COMMA | LPAREN | RPAREN | STRING | RM

  /**
   A token. num, single and double are the values that std::stoull, std::stof and std::stod read off
   the spelling of a number, the last two as IEEE bit patterns.
   */
  datatype Token = Token(kind: TokenType, value: string, line: nat, num: nat, single: nat, double: nat)

  /** One element of data_buffer_; floats and doubles are kept as their bit patterns. */
  datatype Datum =
    | U8(u8: nat)
    | U16(u16: nat)
    | U32(u32: nat)
    | U64(u64: nat)
    | F32(f32: nat)
    | F64(f64: nat)
    | Text(chars: string)

  function AlignOf(d: Datum): (a: nat)
    ensures a in {1, 2, 4, 8}
  {
    match d
    case U8(_) => 1
    case U16(_) => 2
    case U32(_) => 4
    case U64(_) => 8
    case F32(_) => 4
    case F64(_) => 8
    case Text(_) => 1
  }

  function SizeOf(d: Datum): nat {
    if d.Text? then |d.chars| else AlignOf(d)
  }

  datatype SymbolData = SymbolData(address: nat, line: nat, isData: bool)

  /** Where the parser put a label or a datum. */
  datatype Placement =
    | LabelAt(name: string, align: nat, offset: nat)
    | DatumAt(datum: Datum, offset: nat)

  /** The parser fields that the first pass changes, with a record of every placement. */
  datatype State = State(
    pos: nat,
    errors: nat,
    index: nat,
    buffer: seq<Datum>,
    symbols: map<string, SymbolData>,
    trace: seq<Placement>
  )

  /** The parser as it is constructed. */
  function Start(): State {
    State(0, 0, 0, [], map[], [])
  }

  datatype Directive = Dword | Word | Halfword | Byte | Single | Double | Zero | Str | NotDirective

  function DirectiveOf(value: string): Directive {
    if value == "dword" then Dword
    else if value == "word" then Word
    else if value == "halfword" then Halfword
    else if value == "byte" then Byte
    else if value == "float" then Single
    else if value == "double" then Double
    else if value == "zero" then Zero
    else if value == "string" then Str
    else NotDirective
  }

  function AlignOfDirective(d: Directive): (a: nat)
    ensures a in {1, 2, 4, 8}
  {
    match d
    case Dword => 8
    case Word => 4
    case Halfword => 2
    case Byte => 1
    case Single => 4
    case Double => 8
    case Zero => 1
    case Str => 1
    case NotDirective => 1
  }

  /** The token type whose values a directive collects. */
  function ValueKind(d: Directive): TokenType {
    match d
    case Single => FLOAT
    case Double => FLOAT
    case Str => STRING
    case _ => NUM
  }

  /** ParseEscapedString of src/utils.cpp. */
  function Unescape(s: string): string
    decreases |s|
  {
    if s == [] then []
    else if s[0] == '\\' && |s| > 1 then
      (match s[1]
       case 'n' => ['\n']
       case 't' => ['\t']
       case '\\' => ['\\']
       case '"' => ['"']
       case c => ['\\', c]) + Unescape(s[2..])
    else [s[0]] + Unescape(s[1..])
  }

  /** The data buffer elements that one value token contributes. */
  function Elements(d: Directive, t: Token): seq<Datum> {
    match d
    case Dword => [U64(t.num % 0x1_0000_0000_0000_0000)]
    case Word => [U32(t.num % 0x1_0000_0000)]
    case Halfword => [U16(t.num % 0x1_0000)]
    case Byte => [U8(t.num % 0x100)]
    case Single => [F32(t.single)]
    case Double => [F64(t.double)]
    case Zero => seq(t.num, _ => U8(0))
    case Str => [Text(Unescape(t.value) + ['\0'])]
    case NotDirective => []
  }

  function AlignUp(n: nat, a: nat): (m: nat)
    requires a > 0
    ensures n <= m
  {
    if n % a != 0 then n + (a - n % a) else n
  }

  const END := Token(EOF, "", 1, 0, 0, 0)

  function Current(toks: seq<Token>, pos: nat): Token {
    if pos < |toks| then toks[pos] else END
  }

  /** Appends data one by one at the aligned data index. */
  function Append(st: State, data: seq<Datum>): State
    decreases |data|
  {
    if data == [] then st
    else
      var at := AlignUp(st.index, AlignOf(data[0]));
      Append(st.(index := at + SizeOf(data[0]), buffer := st.buffer + [data[0]],
                 trace := st.trace + [DatumAt(data[0], at)]),
             data[1..])
  }

  /** One value token of a directive; a zero directive with a zero count is an error, counted twice. */
  function Value(st: State, d: Directive, t: Token): State {
    if d == Zero && t.num == 0 then st.(errors := st.errors + 2) else Append(st, Elements(d, t))
  }

  predicate TakesValue(d: Directive, t: Token) {
    t.kind != EOF && (t.kind == ValueKind(d) || t.kind == COMMA)
  }

  /** One step of a value loop. */
  function ValuesNext(toks: seq<Token>, st: State, d: Directive): (r: State)
    ensures r.pos == st.pos + 1
  {
    var t := Current(toks, st.pos);
    (if t.kind == ValueKind(d) then Value(st, d, t) else st).(pos := st.pos + 1)
  }

  /** The value loop of a directive. */
  function Values(toks: seq<Token>, st: State, d: Directive): (r: State)
    ensures r.pos >= st.pos
    decreases |toks| - st.pos
  {
    if !TakesValue(d, Current(toks, st.pos)) then st else Values(toks, ValuesNext(toks, st, d), d)
  }

  /** A label before directive d: aligned for it, or an error if it is none; entered in the symbol table either way. */
  function PlaceLabel(st: State, t: Token, d: Directive): State {
    var a := AlignOfDirective(d);
    var at := AlignUp(st.index, a);
    st.(pos := st.pos + 1,
        errors := if d == NotDirective then st.errors + 2 else st.errors,
        index := at,
        symbols := st.symbols[t.value := SymbolData(at, t.line, true)],
        trace := st.trace + [LabelAt(t.value, a, at)])
  }

  function Label(toks: seq<Token>, st: State): State {
    PlaceLabel(st, Current(toks, st.pos), DirectiveOf(Current(toks, st.pos + 1).value))
  }

  predicate EndsSection(t: Token) {
    t.value in {"text", "data", "bss", "section"} || t.kind == EOF
  }

  /**
   One step of the data section loop, the current token reading as d: a label, a directive with its
   values, or an error.
   */
  function Dispatch(toks: seq<Token>, st: State, d: Directive): (r: State)
    ensures r.pos > st.pos
  {
    var next := st.(pos := st.pos + 1);
    if Current(toks, st.pos).kind == LABEL then Label(toks, st)
    else if d == NotDirective then next.(errors := st.errors + 2)
    else Values(toks, next, d)
  }

  function SectionNext(toks: seq<Token>, st: State): (r: State)
    ensures r.pos > st.pos
  {
    Dispatch(toks, st, DirectiveOf(Current(toks, st.pos).value))
  }

  function Section(toks: seq<Token>, st: State): (r: State)
    ensures r.pos >= st.pos
    decreases |toks| - st.pos
  {
    if EndsSection(Current(toks, st.pos)) then st else Section(toks, SectionNext(toks, st))
  }
}
