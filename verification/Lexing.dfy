/** The lexer of the expression language, as functions on the text that is left. */
module Lexing {
  import opened Syntax

  datatype LexError = UnexpectedCharacter | UnterminatedQuote | InvalidEscape | InvalidExponent

  datatype Scanned<T> = Scan(value: T, rest: Text) | Fail(error: LexError)

  // ----------------------------------------------------------------------------- characters

  const QUOTE: Unit := 39
  const DOUBLE: Unit := 34
  const BACKSLASH: Unit := 92
  const SPACE: Unit := 32
  const DOT: Unit := 46
  const SMALL_E: Unit := 101
  const SMALL_U: Unit := 117
  const PLUS: Unit := 43
  const MINUS: Unit := 45

  predicate IsDigit(c: Unit) {
    48 <= c <= 57
  }

  predicate IsLetter(c: Unit) {
    97 <= c <= 122 || 65 <= c <= 90
  }

  /** `isIdent`: letters, underscore and dollar. */
  predicate IsIdent(c: Unit) {
    IsLetter(c) || c == 95 || c == 36
  }

  /** `isWhitespace`: space, CR, tab, LF, vertical tab, no-break space. */
  predicate IsWhitespace(c: Unit) {
    c == 32 || c == 13 || c == 9 || c == 10 || c == 11 || c == 160
  }

  predicate IsExpOperator(c: Unit) {
    c == PLUS || c == MINUS || IsDigit(c)
  }

  /** Lower case, as far as numbers go. */
  function Lower(c: Unit): Unit {
    if 65 <= c <= 90 then c + 32 else c
  }

  /** `(){}[].,;:?`. */
  function Punctuation(c: Unit): seq<Symbol> {
    if c == 40 then [LParen] else if c == 41 then [RParen]
    else if c == 123 then [LBrace] else if c == 125 then [RBrace]
    else if c == 91 then [LBracket] else if c == 93 then [RBracket]
    else if c == 46 then [Dot] else if c == 44 then [Comma]
    else if c == 59 then [Semicolon] else if c == 58 then [Colon]
    else if c == 63 then [Question] else []
  }

  /** The text of a symbol. */
  function SymbolText(s: Symbol): Text {
    match s
    case PlusSign => [43] case MinusSign => [45] case Times => [42] case Slash => [47] case Percent => [37]
    case Eq3 => [61, 61, 61] case Ne3 => [33, 61, 61] case Eq2 => [61, 61] case Ne2 => [33, 61]
    case Less => [60] case Greater => [62] case LessEq => [60, 61] case GreaterEq => [62, 61]
    case AndAnd => [38, 38] case OrOr => [124, 124] case Bang => [33] case Equals => [61] case Bar => [124]
    case LParen => [40] case RParen => [41] case LBrace => [123] case RBrace => [125]
    case LBracket => [91] case RBracket => [93] case Dot => [46] case Comma => [44]
    case Semicolon => [59] case Question => [63] case Colon => [58]
  }

  // ------------------------------------------------------------------------------- operators

  /** The table of operators, by the first one, two or three characters. */
  function Operator1(a: Unit): seq<Symbol> {
    if a == 43 then [PlusSign] else if a == 45 then [MinusSign] else if a == 42 then [Times]
    else if a == 47 then [Slash] else if a == 37 then [Percent] else if a == 60 then [Less]
    else if a == 62 then [Greater] else if a == 33 then [Bang] else if a == 61 then [Equals]
    else if a == 124 then [Bar] else []
  }

  function Operator2(a: Unit, b: Unit): seq<Symbol> {
    if b == 61 then
      if a == 61 then [Eq2] else if a == 33 then [Ne2] else if a == 60 then [LessEq] else if a == 62 then [GreaterEq] else []
    else if a == 38 && b == 38 then [AndAnd] else if a == 124 && b == 124 then [OrOr] else []
  }

  function Operator3(a: Unit, b: Unit, c: Unit): seq<Symbol> {
    if b == 61 && c == 61 then (if a == 61 then [Eq3] else if a == 33 then [Ne3] else []) else []
  }

  /** Three characters if they are an operator, else two, else one. */
  function OperatorAt(t: Text): (r: seq<Symbol>)
    requires t != []
    ensures |r| <= 1
  {
    var f := if |t| > 2 then Operator3(t[0], t[1], t[2]) else [];
    var e := if |t| > 1 then Operator2(t[0], t[1]) else [];
    if f != [] then f else if e != [] then e else Operator1(t[0])
  }

  // -------------------------------------------------------------------------------- strings

  predicate IsHex(c: Unit) {
    IsDigit(c) || 97 <= c <= 102 || 65 <= c <= 70
  }

  function HexValue(c: Unit): (v: Unit)
    requires IsHex(c)
    ensures v < 16
  {
    if IsDigit(c) then c - 48 else if c >= 97 then c - 87 else c - 55
  }

  /** `parseInt(f, 16)` of four hexadecimal digits. */
  function FourHex(t: Text): Unit
    requires |t| >= 4 && IsHex(t[0]) && IsHex(t[1]) && IsHex(t[2]) && IsHex(t[3])
  {
    HexValue(t[0]) * 4096 + HexValue(t[1]) * 256 + HexValue(t[2]) * 16 + HexValue(t[3])
  }

  /** The table of one-letter escapes; other characters stand for themselves. */
  function Unescaped(c: Unit): Unit {
    if c == 110 then 10 else if c == 102 then 12 else if c == 114 then 13
    else if c == 116 then 9 else if c == 118 then 11 else c
  }

  /** What one character, or one escape, of a string stands for. */
  function OneCharacter(t: Text): (r: Scanned<Unit>)
    requires t != []
    ensures r.Scan? ==> |r.rest| < |t|
  {
    if t[0] != BACKSLASH then Scan(t[0], t[1..])
    else if |t| == 1 then Fail(UnterminatedQuote)
    else if t[1] != SMALL_U then Scan(Unescaped(t[1]), t[2..])
    else if |t| >= 6 && IsHex(t[2]) && IsHex(t[3]) && IsHex(t[4]) && IsHex(t[5]) then Scan(FourHex(t[2..]), t[6..])
    else Fail(InvalidEscape)
  }

  /** The rest of a string after its opening quote. */
  function StringTail(t: Text, quote: Unit): (r: Scanned<Text>)
    ensures r.Scan? ==> |r.rest| < |t|
    decreases |t|
  {
    if t == [] then Fail(UnterminatedQuote)
    else if t[0] == quote then Scan([], t[1..])
    else match OneCharacter(t)
      case Fail(e) => Fail(e)
      case Scan(c, rest) =>
        match StringTail(rest, quote)
        case Fail(e) => Fail(e)
        case Scan(more, end) => Scan([c] + more, end)
  }

  // -------------------------------------------------------------------------------- numbers

  /** The loop of `readNumber`, with what it has read so far. */
  function NumberTail(read: Text, t: Text): (r: Scanned<Text>)
    ensures r.Scan? ==> |r.rest| + |r.value| == |t| + |read|
    decreases |t|
  {
    if t == [] then Scan(read, t)
    else
      var d := Lower(t[0]);
      var afterE := read != [] && read[|read| - 1] == SMALL_E;
      var digitNext := |t| > 1 && IsDigit(t[1]);
      if d == DOT || IsDigit(d) then NumberTail(read + [d], t[1..])
      else if d == SMALL_E && |t| > 1 && IsExpOperator(t[1]) then NumberTail(read + [d], t[1..])
      else if IsExpOperator(d) && digitNext && afterE then NumberTail(read + [d], t[1..])
      else if !IsExpOperator(d) || digitNext || !afterE then Scan(read, t)
      else Fail(InvalidExponent)
  }

  function IdentLength(t: Text): (n: nat)
    ensures n <= |t|
  {
    if t == [] || !(IsIdent(t[0]) || IsDigit(t[0])) then 0 else 1 + IdentLength(t[1..])
  }

  // ----------------------------------------------------------------------------------- lex

  /** The first token of a text that does not begin with white space. */
  function OneToken(t: Text): (r: Scanned<Token>)
    requires t != []
    ensures r.Scan? ==> |r.rest| < |t|
  {
    var a := t[0];
    if a == DOUBLE || a == QUOTE then
      match StringTail(t[1..], a)
      case Fail(e) => Fail(e)
      case Scan(s, rest) => Scan(Const(Quoted(s)), rest)
    else if IsDigit(a) || (a == DOT && |t| > 1 && IsDigit(t[1])) then
      NumberAdvances(t);
      match NumberTail([], t)
      case Fail(e) => Fail(e)
      case Scan(n, rest) => Scan(Const(Number(n)), rest)
    else if IsIdent(a) then Scan(Name(t[..IdentLength(t)]), t[IdentLength(t)..])
    else if Punctuation(a) != [] then Scan(Sym(Punctuation(a)[0]), t[1..])
    else
      var op := OperatorAt(t);
      if op == [] then Fail(UnexpectedCharacter)
      else
        OperatorIsPrefix(t);
        Scan(Sym(op[0]), t[|SymbolText(op[0])|..])
  }

  lemma {:induction false} NumberGrows(read: Text, t: Text)
    ensures NumberTail(read, t).Scan? ==> |NumberTail(read, t).value| >= |read|
    decreases |t|
  {
    if t != [] { NumberGrows(read + [Lower(t[0])], t[1..]); }
  }

  lemma {:induction false} NumberAdvances(t: Text)
    requires t != [] && (IsDigit(t[0]) || t[0] == DOT)
    ensures NumberTail([], t).Scan? ==> |NumberTail([], t).rest| < |t|
  {
    NumberGrows([t[0]], t[1..]);
    assert [] + [t[0]] == [t[0]];
  }

  /** The operator found is what the text begins with, and no longer operator is. */
  lemma {:induction false} OperatorIsPrefix(t: Text)
    requires t != []
    ensures OperatorAt(t) != [] ==> SymbolText(OperatorAt(t)[0]) <= t
  {
  }

  /** The symbols the operator table knows. */
  predicate IsOperator(s: Symbol) {
    InfixLevel(s) != 0 || s == Bang || s == Equals || s == Bar
  }

  lemma {:induction false} LongestMatch(t: Text, s: Symbol)
    requires t != [] && IsOperator(s) && SymbolText(s) <= t
    ensures OperatorAt(t) != [] && IsOperator(OperatorAt(t)[0])
    ensures |SymbolText(s)| <= |SymbolText(OperatorAt(t)[0])|
  {
    var n := |SymbolText(s)|;
    assert t[0] == SymbolText(s)[0];
    if n > 1 { assert t[1] == SymbolText(s)[1]; }
    if n > 2 { assert t[2] == SymbolText(s)[2]; }
  }

  function Lex(t: Text): (r: Scanned<seq<Token>>)
    ensures r.Scan? ==> r.rest == []
    decreases |t|
  {
    if t == [] then Scan([], [])
    else if IsWhitespace(t[0]) then Lex(t[1..])
    else match OneToken(t)
      case Fail(e) => Fail(e)
      case Scan(token, rest) =>
        match Lex(rest)
        case Fail(e) => Fail(e)
        case Scan(more, _) => Scan([token] + more, [])
  }
}
