/** Tokens and syntax trees of the expression language, and its grammar as functions on the tokens
  * that are left. */
module Syntax {

  /** Texts are sequences of UTF-16 code units, as in JavaScript. */
  type Unit = n: int | 0 <= n < 0x1_0000

  type Text = seq<Unit>

  /** A text of plain characters. */
  function Plain(s: string): (t: Text)
    ensures |t| == |s|
  {
    seq(|s|, i requires 0 <= i < |s| => s[i] as int % 0x1_0000)
  }

  datatype Symbol =
    | PlusSign | MinusSign | Times | Slash | Percent
    | Eq3 | Ne3 | Eq2 | Ne2 | Less | Greater | LessEq | GreaterEq
    | AndAnd | OrOr | Bang | Equals | Bar
    | LParen | RParen | LBrace | RBrace | LBracket | RBracket | Dot | Comma | Semicolon | Question | Colon

  /** The value of a constant token: a string, or the text of a number. */
  datatype Constant = Quoted(s: Text) | Number(text: Text)

  /** Names and constants never have the text of a symbol, so a symbol stands for its text. */
  datatype Token = Sym(symbol: Symbol) | Name(name: Text) | Const(constant: Constant)

  datatype Key = NameKey(name: Text) | ConstKey(constant: Constant)

  /** `Infix` is LogicalExpression for `||` and `&&` and BinaryExpression for the other operators;
    * `Filter` is the CallExpression with `filter` set. */
  datatype Ast =
    | Assign(left: Ast, right: Ast)
    | Cond(test: Ast, alternate: Ast, consequent: Ast)
    | Infix(op: Symbol, left: Ast, right: Ast)
    | Prefix(op: Symbol, argument: Ast)
    | Ident(name: Text)
    | Lit(constant: Constant)
    | Keyword(name: Text)
    | Member(target: Ast, name: Text)
    | Computed(target: Ast, property: Ast)
    | Call(callee: Ast, args: seq<Ast>)
    | Filter(input: Ast, name: Text, args: seq<Ast>)
    | Array(elements: seq<Ast>)
    | Object(keys: seq<Key>, values: seq<Ast>)

  /** `MissingKey` is the syntax error for an object that ends after a comma; it names no token. */
  datatype Error = EndOfExpression | Syntax(token: Token) | MissingKey

  datatype Parsed<T> = Ok(value: T, rest: seq<Token>) | Err(error: Error)

  /** `||` and `&&` bind least, then equality, relations, sums and products. */
  const OR := 2
  const PRODUCT := 7
  const PREFIX := 8
  const PRIMARY := 9

  /** The level at which a symbol is an infix operator; 0 for none. */
  function InfixLevel(s: Symbol): nat {
    match s
    case OrOr => 2
    case AndAnd => 3
    case Eq2 => 4 case Ne2 => 4 case Eq3 => 4 case Ne3 => 4
    case Less => 5 case Greater => 5 case LessEq => 5 case GreaterEq => 5
    case PlusSign => 6 case MinusSign => 6
    case Times => 7 case Slash => 7 case Percent => 7
    case _ => 0
  }

  predicate IsPrefix(s: Symbol) {
    s == PlusSign || s == MinusSign || s == Bang
  }

  /** The names in the table `constants`. */
  predicate IsKeyword(name: Text) {
    name == Plain("true") || name == Plain("false") || name == Plain("null") || name == Plain("undefined") || name == Plain("this")
  }

  /** `peek(a)`. */
  predicate Starts(ts: seq<Token>, s: Symbol) {
    ts != [] && ts[0] == Sym(s)
  }

  /** Whether the loop of a level goes on. */
  predicate StartsInfix(ts: seq<Token>, level: nat) {
    ts != [] && ts[0].Sym? && InfixLevel(ts[0].symbol) == level
  }

  /** The error of `consume(a)` or of a primary that cannot begin here. */
  function Complaint(ts: seq<Token>): Error {
    if ts == [] then EndOfExpression else Syntax(ts[0])
  }

  /** Trees the grammar has a form for. */
  predicate WellFormed(e: Ast) {
    match e
    case Assign(a, b) => WellFormed(a) && WellFormed(b)
    case Cond(t, a, b) => WellFormed(t) && WellFormed(a) && WellFormed(b)
    case Infix(op, a, b) => InfixLevel(op) != 0 && WellFormed(a) && WellFormed(b)
    case Prefix(op, a) => IsPrefix(op) && WellFormed(a)
    case Ident(name) => !IsKeyword(name)
    case Lit(_) => true
    case Keyword(name) => IsKeyword(name)
    case Member(o, _) => WellFormed(o)
    case Computed(o, p) => WellFormed(o) && WellFormed(p)
    case Call(f, args) => WellFormed(f) && AllWellFormed(args)
    case Filter(i, _, args) => WellFormed(i) && AllWellFormed(args)
    case Array(es) => AllWellFormed(es)
    case Object(ks, vs) => |ks| == |vs| && AllWellFormed(vs)
  }

  predicate AllWellFormed(es: seq<Ast>) {
    es == [] || (WellFormed(es[0]) && AllWellFormed(es[1..]))
  }

  // ------------------------------------------------------------------------------- the grammar

  function FilterChain(ts: seq<Token>): (r: Parsed<Ast>)
    ensures r.Ok? ==> |r.rest| < |ts| && WellFormed(r.value)
    decreases |ts|, 20
  {
    match Expression(ts)
    case Err(e) => Err(e)
    case Ok(a, r) => Filters(a, r)
  }

  /** The loop over the filters behind an expression. */
  function Filters(a: Ast, ts: seq<Token>): (r: Parsed<Ast>)
    ensures r.Ok? ==> |r.rest| <= |ts| && (WellFormed(a) ==> WellFormed(r.value))
    decreases |ts|, 0
  {
    if !Starts(ts, Bar) then Ok(a, ts)
    else if |ts| < 2 || !ts[1].Name? then Err(Complaint(ts[1..]))
    else match FilterArgs(ts[2..])
      case Err(e) => Err(e)
      case Ok(args, r) => Filters(Filter(a, ts[1].name, args), r)
  }

  function FilterArgs(ts: seq<Token>): (r: Parsed<seq<Ast>>)
    ensures r.Ok? ==> |r.rest| <= |ts| && AllWellFormed(r.value)
    decreases |ts|, 0
  {
    if !Starts(ts, Colon) then Ok([], ts)
    else match Expression(ts[1..])
      case Err(e) => Err(e)
      case Ok(a, r) =>
        match FilterArgs(r)
        case Err(e) => Err(e)
        case Ok(more, r2) => Ok([a] + more, r2)
  }

  /** `expression`, which is `assignment`. */
  function Expression(ts: seq<Token>): (r: Parsed<Ast>)
    ensures r.Ok? ==> |r.rest| < |ts| && WellFormed(r.value)
    decreases |ts|, 12
  {
    match Ternary(ts)
    case Err(e) => Err(e)
    case Ok(a, r) =>
      if !Starts(r, Equals) then Ok(a, r)
      else match Expression(r[1..])
        case Err(e) => Err(e)
        case Ok(b, r2) => Ok(Assign(a, b), r2)
  }

  function Ternary(ts: seq<Token>): (r: Parsed<Ast>)
    ensures r.Ok? ==> |r.rest| < |ts| && WellFormed(r.value)
    decreases |ts|, 11
  {
    match Level(OR, ts)
    case Err(e) => Err(e)
    case Ok(a, r) => if Starts(r, Question) then Branches(a, r[1..]) else Ok(a, r)
  }

  function Branches(test: Ast, ts: seq<Token>): (r: Parsed<Ast>)
    ensures r.Ok? ==> |r.rest| < |ts| && (WellFormed(test) ==> WellFormed(r.value))
    decreases |ts|, 13
  {
    match Expression(ts)
    case Err(e) => Err(e)
    case Ok(c, r) =>
      if !Starts(r, Colon) then Err(Complaint(r))
      else match Expression(r[1..])
        case Err(e) => Err(e)
        case Ok(d, r2) => Ok(Cond(test, c, d), r2)
  }

  /** The six levels of left-associative operators, then `unary`. */
  function Level(level: nat, ts: seq<Token>): (r: Parsed<Ast>)
    requires OR <= level <= PREFIX
    ensures r.Ok? ==> |r.rest| < |ts| && WellFormed(r.value)
    decreases |ts|, 10 - level
  {
    if level == PREFIX then Unary(ts)
    else match Level(level + 1, ts)
      case Err(e) => Err(e)
      case Ok(a, r) => Infixes(level, a, r)
  }

  function Infixes(level: nat, a: Ast, ts: seq<Token>): (r: Parsed<Ast>)
    requires OR <= level <= PRODUCT
    ensures r.Ok? ==> |r.rest| <= |ts| && (WellFormed(a) ==> WellFormed(r.value))
    decreases |ts|, 0
  {
    if !StartsInfix(ts, level) then Ok(a, ts)
    else match Level(level + 1, ts[1..])
      case Err(e) => Err(e)
      case Ok(b, r) => Infixes(level, Infix(ts[0].symbol, a, b), r)
  }

  function Unary(ts: seq<Token>): (r: Parsed<Ast>)
    ensures r.Ok? ==> |r.rest| < |ts| && WellFormed(r.value)
    decreases |ts|, 1
  {
    if ts != [] && ts[0].Sym? && IsPrefix(ts[0].symbol) then
      match Unary(ts[1..])
      case Err(e) => Err(e)
      case Ok(a, r) => Ok(Prefix(ts[0].symbol, a), r)
    else match Atom(ts)
      case Err(e) => Err(e)
      case Ok(a, r) => Postfixes(a, r)
  }

  /** The first part of `primary`. */
  function Atom(ts: seq<Token>): (r: Parsed<Ast>)
    ensures r.Ok? ==> |r.rest| < |ts| && WellFormed(r.value)
    decreases |ts|, 0
  {
    if ts == [] then Err(EndOfExpression)
    else match ts[0]
      case Name(name) => Ok(if IsKeyword(name) then Keyword(name) else Ident(name), ts[1..])
      case Const(c) => Ok(Lit(c), ts[1..])
      case Sym(s) =>
        if s == LParen then
          match FilterChain(ts[1..])
          case Err(e) => Err(e)
          case Ok(a, r) => if Starts(r, RParen) then Ok(a, r[1..]) else Err(Complaint(r))
        else if s == LBracket then
          match Elements(ts[1..])
          case Err(e) => Err(e)
          case Ok(es, r) => if Starts(r, RBracket) then Ok(Array(es), r[1..]) else Err(Complaint(r))
        else if s == LBrace then
          if |ts| == 1 then Err(EndOfExpression)
          else match Properties(ts[1..])
          case Err(e) => Err(e)
          case Ok(ps, r) => if Starts(r, RBrace) then Ok(Object(ps.0, ps.1), r[1..]) else Err(Complaint(r))
        else Err(Syntax(ts[0]))
  }

  /** The loop of `primary` over calls, computed members and members. */
  function Postfixes(a: Ast, ts: seq<Token>): (r: Parsed<Ast>)
    ensures r.Ok? ==> |r.rest| <= |ts| && (WellFormed(a) ==> WellFormed(r.value))
    decreases |ts|, 0
  {
    if Starts(ts, LParen) then
      match Arguments(ts[1..])
      case Err(e) => Err(e)
      case Ok(args, r) => if Starts(r, RParen) then Postfixes(Call(a, args), r[1..]) else Err(Complaint(r))
    else if Starts(ts, LBracket) then
      match Expression(ts[1..])
      case Err(e) => Err(e)
      case Ok(p, r) => if Starts(r, RBracket) then Postfixes(Computed(a, p), r[1..]) else Err(Complaint(r))
    else if Starts(ts, Dot) then
      if |ts| < 2 || !ts[1].Name? then Err(Complaint(ts[1..]))
      else Postfixes(Member(a, ts[1].name), ts[2..])
    else Ok(a, ts)
  }

  function Arguments(ts: seq<Token>): (r: Parsed<seq<Ast>>)
    ensures r.Ok? ==> |r.rest| <= |ts| && AllWellFormed(r.value)
    decreases |ts|, 15
  {
    if ts == [] then Err(EndOfExpression) else if Starts(ts, RParen) then Ok([], ts) else Expressions(ts)
  }

  /** The loop over arguments between commas; there is at least one. */
  function Expressions(ts: seq<Token>): (r: Parsed<seq<Ast>>)
    ensures r.Ok? ==> |r.rest| <= |ts| && AllWellFormed(r.value)
    decreases |ts|, 14
  {
    match Expression(ts)
    case Err(e) => Err(e)
    case Ok(a, r) =>
      if !Starts(r, Comma) then Ok([a], r)
      else match Expressions(r[1..])
        case Err(e) => Err(e)
        case Ok(more, r2) => Ok([a] + more, r2)
  }

  /** Array elements; a comma may end the list. */
  function Elements(ts: seq<Token>): (r: Parsed<seq<Ast>>)
    ensures r.Ok? ==> |r.rest| <= |ts| && AllWellFormed(r.value)
    decreases |ts|, 14
  {
    if Starts(ts, RBracket) then Ok([], ts)
    else match Expression(ts)
      case Err(e) => Err(e)
      case Ok(a, r) =>
        if !Starts(r, Comma) then Ok([a], r)
        else match Elements(r[1..])
          case Err(e) => Err(e)
          case Ok(more, r2) => Ok([a] + more, r2)
  }

  function Properties(ts: seq<Token>): (r: Parsed<(seq<Key>, seq<Ast>)>)
    ensures r.Ok? ==> |r.rest| <= |ts| && |r.value.0| == |r.value.1| && AllWellFormed(r.value.1)
    decreases |ts|, 14
  {
    if Starts(ts, RBrace) then Ok(([], []), ts)
    else if ts == [] then Err(MissingKey)
    else if ts[0].Sym? then Err(Syntax(ts[0]))
    else if !Starts(ts[1..], Colon) then Err(Complaint(ts[1..]))
    else
      var key := if ts[0].Name? then NameKey(ts[0].name) else ConstKey(ts[0].constant);
      match Expression(ts[2..])
      case Err(e) => Err(e)
      case Ok(a, r) =>
        if !Starts(r, Comma) then Ok(([key], [a]), r)
        else match Properties(r[1..])
          case Err(e) => Err(e)
          case Ok(more, r2) => Ok(([key] + more.0, [a] + more.1), r2)
  }

  /** `program`: statements, some of them empty, up to the first that no semicolon follows. */
  function Program(ts: seq<Token>): (r: Parsed<seq<Ast>>)
    ensures r.Ok? ==> |r.rest| <= |ts| && AllWellFormed(r.value)
    decreases |ts|, 30
  {
    if ts == [] || Starts(ts, RBrace) || Starts(ts, RParen) || Starts(ts, RBracket) then Ok([], ts)
    else if Starts(ts, Semicolon) then Program(ts[1..])
    else match FilterChain(ts)
      case Err(e) => Err(e)
      case Ok(a, r) =>
        if !Starts(r, Semicolon) then Ok([a], r)
        else match Program(r[1..])
          case Err(e) => Err(e)
          case Ok(more, r2) => Ok([a] + more, r2)
  }

  /** `ast`: nothing may be left. */
  function ParseProgram(ts: seq<Token>): Parsed<seq<Ast>> {
    match Program(ts)
    case Err(e) => Err(e)
    case Ok(body, r) => if r != [] then Err(Syntax(r[0])) else Ok(body, [])
  }
}
