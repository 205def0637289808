/** Printing a syntax tree with the fewest parentheses, and that the parser undoes it. */
module ParserInverse {
  import opened Syntax

  /** The level a tree belongs to: 0 assignment, 1 conditional, 2 to 7 infix, 8 prefix, 9 primary;
    * a filter needs parentheses everywhere but at the top. */
  function Prec(e: Ast): int {
    match e
    case Filter(_, _, _) => -1
    case Assign(_, _) => 0
    case Cond(_, _, _) => 1
    case Infix(op, _, _) => InfixLevel(op)
    case Prefix(_, _) => 8
    case _ => 9
  }

  // -------------------------------------------------------------------------------- printing

  function Bare(e: Ast): seq<Token>
    decreases e, 0
  {
    match e
    case Assign(a, b) => Print(a, OR) + [Sym(Equals)] + Print(b, 0)
    case Cond(t, a, b) => Print(t, OR) + [Sym(Question)] + Print(a, 0) + [Sym(Colon)] + Print(b, 0)
    case Infix(op, a, b) => Print(a, InfixLevel(op)) + [Sym(op)] + Print(b, InfixLevel(op) + 1)
    case Prefix(op, a) => [Sym(op)] + Print(a, PREFIX)
    case Ident(name) => [Name(name)]
    case Lit(c) => [Const(c)]
    case Keyword(name) => [Name(name)]
    case Member(o, name) => Print(o, PRIMARY) + [Sym(Dot), Name(name)]
    case Computed(o, p) => Print(o, PRIMARY) + [Sym(LBracket)] + Print(p, 0) + [Sym(RBracket)]
    case Call(f, args) => Print(f, PRIMARY) + [Sym(LParen)] + PrintList(args) + [Sym(RParen)]
    case Filter(i, name, args) => Print(i, -1) + [Sym(Bar), Name(name)] + PrintArgs(args)
    case Array(es) => [Sym(LBracket)] + PrintList(es) + [Sym(RBracket)]
    case Object(ks, vs) => [Sym(LBrace)] + PrintProperties(ks, vs) + [Sym(RBrace)]
  }

  /** Parentheses only where the place asks for a higher level. */
  function Print(e: Ast, level: int): seq<Token>
    decreases e, 1
  {
    if Prec(e) >= level then Bare(e) else [Sym(LParen)] + Bare(e) + [Sym(RParen)]
  }

  function PrintList(es: seq<Ast>): seq<Token> {
    if es == [] then []
    else if |es| == 1 then Print(es[0], 0)
    else Print(es[0], 0) + [Sym(Comma)] + PrintList(es[1..])
  }

  function PrintArgs(es: seq<Ast>): seq<Token> {
    if es == [] then [] else [Sym(Colon)] + Print(es[0], 0) + PrintArgs(es[1..])
  }

  function KeyToken(k: Key): Token {
    match k
    case NameKey(name) => Name(name)
    case ConstKey(c) => Const(c)
  }

  function PrintProperties(ks: seq<Key>, vs: seq<Ast>): seq<Token>
    decreases vs
  {
    if ks == [] || vs == [] then []
    else
      var one := [KeyToken(ks[0]), Sym(Colon)] + Print(vs[0], 0);
      if |vs| == 1 then one else one + [Sym(Comma)] + PrintProperties(ks[1..], vs[1..])
  }

  function PrintProgram(body: seq<Ast>): seq<Token> {
    if body == [] then []
    else if |body| == 1 then Bare(body[0])
    else Bare(body[0]) + [Sym(Semicolon)] + PrintProgram(body[1..])
  }

  // ----------------------------------------------------------------------- what may come next

  /** A parser of the level would take the next token as part of what it has read. */
  predicate Continues(level: int, ts: seq<Token>) {
    ts != [] && ts[0].Sym? &&
    var s := ts[0].symbol;
    || s == LParen || s == LBracket || s == Dot
    || (InfixLevel(s) >= level && InfixLevel(s) != 0)
    || (s == Question && level <= 1) || (s == Equals && level <= 1)
  }

  /** The parser of a level: assignment, conditional, then the operator levels. */
  function ParseAt(level: nat, ts: seq<Token>): Parsed<Ast>
    requires level <= PRIMARY
  {
    if level == 0 then Expression(ts)
    else if level == 1 then Ternary(ts)
    else if level <= PREFIX then Level(level, ts)
    else match Atom(ts)
      case Err(e) => Err(e)
      case Ok(a, r) => Postfixes(a, r)
  }

  // ------------------------------------------------------------------- one step of the grammar

  /** Tokens that no level goes on with. */
  lemma {:induction false} Stops(level: int, s: Symbol, ts: seq<Token>)
    requires s == RParen || s == RBracket || s == RBrace || s == Comma || s == Colon || s == Semicolon || s == Bar
    ensures !Continues(level, [Sym(s)] + ts)
  {
  }

  lemma {:induction false} StartsStops(level: int, s: Symbol, ts: seq<Token>)
    requires (s == RBracket || s == RBrace) && Starts(ts, s)
    ensures !Continues(level, ts) && !Starts(ts, Comma)
  {
  }

  lemma {:induction false} StopsAbove(low: int, high: int, ts: seq<Token>)
    requires low <= high && !Continues(low, ts)
    ensures !Continues(high, ts)
  {
  }

  lemma {:induction false} OneLevelUp(level: nat, ts: seq<Token>, e: Ast, rest: seq<Token>)
    requires level < PRIMARY && ParseAt(level + 1, ts) == Ok(e, rest) && !Continues(level, rest)
    ensures ParseAt(level, ts) == Ok(e, rest)
  {
    hide ParseAt, Level, Expression, Ternary, Unary, Atom, Postfixes, Infixes;
    Levels(level, ts);
    Levels(level + 1, ts);
    if level == 0 {
      FromTernary(ts, e, rest);
    } else if level == 1 {
      FromLevel(ts, e, rest);
    } else if level == PREFIX {
      FromPrimary(ts, e, rest);
    } else {
      StepLevel(level, ts, e, rest);
      EndInfixes(level, e, rest);
    }
  }

  lemma {:induction false} FromTernary(ts: seq<Token>, e: Ast, rest: seq<Token>)
    requires Ternary(ts) == Ok(e, rest) && !Starts(rest, Equals)
    ensures Expression(ts) == Ok(e, rest)
  {
  }

  lemma {:induction false} FromLevel(ts: seq<Token>, e: Ast, rest: seq<Token>)
    requires Level(OR, ts) == Ok(e, rest) && !Starts(rest, Question)
    ensures Ternary(ts) == Ok(e, rest)
  {
  }

  lemma {:induction false} FromPrimary(ts: seq<Token>, e: Ast, rest: seq<Token>)
    requires ParseAt(PRIMARY, ts) == Ok(e, rest)
    ensures Unary(ts) == Ok(e, rest)
  {
    hide Postfixes;
    AtomNotPrefix(ts);
  }

  lemma {:induction false} AtomNotPrefix(ts: seq<Token>)
    requires Atom(ts).Ok?
    ensures ts != [] && !(ts[0].Sym? && IsPrefix(ts[0].symbol))
  {
  }

  /** What was read at a level is read the same from every lower one. */
  lemma {:induction false} Raise(from: nat, level: nat, ts: seq<Token>, e: Ast, rest: seq<Token>)
    requires level <= from <= PRIMARY && ParseAt(from, ts) == Ok(e, rest) && !Continues(level, rest)
    ensures ParseAt(level, ts) == Ok(e, rest)
    decreases from
  {
    hide ParseAt;
    if level < from {
      OneLevelUp(from - 1, ts, e, rest);
      Raise(from - 1, level, ts, e, rest);
    }
  }

  lemma {:induction false} StepInfix(level: nat, a: Ast, op: Symbol, b: Ast, ts: seq<Token>, rest: seq<Token>)
    requires OR <= level <= PRODUCT && InfixLevel(op) == level && Level(level + 1, ts) == Ok(b, rest)
    ensures Infixes(level, a, [Sym(op)] + ts) == Infixes(level, Infix(op, a, b), rest)
  {
    assert ([Sym(op)] + ts)[1..] == ts;
  }

  lemma {:induction false} StepPrefix(op: Symbol, a: Ast, ts: seq<Token>, rest: seq<Token>)
    requires IsPrefix(op) && Unary(ts) == Ok(a, rest)
    ensures Unary([Sym(op)] + ts) == Ok(Prefix(op, a), rest)
  {
    assert ([Sym(op)] + ts)[1..] == ts;
  }

  lemma {:induction false} StepAssign(ts: seq<Token>, a: Ast, us: seq<Token>, b: Ast, rest: seq<Token>)
    requires Ternary(ts) == Ok(a, [Sym(Equals)] + us) && Expression(us) == Ok(b, rest)
    ensures Expression(ts) == Ok(Assign(a, b), rest)
  {
    assert ([Sym(Equals)] + us)[1..] == us;
  }

  lemma {:induction false} StepCond(ts: seq<Token>, t: Ast, us: seq<Token>, a: Ast, vs: seq<Token>, b: Ast, rest: seq<Token>)
    requires Level(OR, ts) == Ok(t, [Sym(Question)] + us) && Expression(us) == Ok(a, [Sym(Colon)] + vs)
    requires Expression(vs) == Ok(b, rest)
    ensures Ternary(ts) == Ok(Cond(t, a, b), rest)
  {
    assert ([Sym(Question)] + us)[1..] == us;
    assert ([Sym(Colon)] + vs)[1..] == vs;
  }

  lemma {:induction false} StepParen(ts: seq<Token>, a: Ast, rest: seq<Token>)
    requires FilterChain(ts) == Ok(a, [Sym(RParen)] + rest)
    ensures Atom([Sym(LParen)] + ts) == Ok(a, rest)
  {
    assert ([Sym(LParen)] + ts)[1..] == ts;
    assert ([Sym(RParen)] + rest)[1..] == rest;
  }

  lemma {:induction false} StepMember(a: Ast, name: Text, rest: seq<Token>)
    ensures Postfixes(a, [Sym(Dot), Name(name)] + rest) == Postfixes(Member(a, name), rest)
  {
    assert ([Sym(Dot), Name(name)] + rest)[2..] == rest;
  }

  lemma {:induction false} StepComputed(a: Ast, p: Ast, ts: seq<Token>, rest: seq<Token>)
    requires Expression(ts) == Ok(p, [Sym(RBracket)] + rest)
    ensures Postfixes(a, [Sym(LBracket)] + ts) == Postfixes(Computed(a, p), rest)
  {
    assert ([Sym(LBracket)] + ts)[1..] == ts;
    assert ([Sym(RBracket)] + rest)[1..] == rest;
  }

  lemma {:induction false} StepCall(a: Ast, args: seq<Ast>, ts: seq<Token>, rest: seq<Token>)
    requires Arguments(ts) == Ok(args, [Sym(RParen)] + rest)
    ensures Postfixes(a, [Sym(LParen)] + ts) == Postfixes(Call(a, args), rest)
  {
    assert ([Sym(LParen)] + ts)[1..] == ts;
    assert ([Sym(RParen)] + rest)[1..] == rest;
  }

  lemma {:induction false} StepArray(es: seq<Ast>, ts: seq<Token>, rest: seq<Token>)
    requires Elements(ts) == Ok(es, [Sym(RBracket)] + rest)
    ensures Atom([Sym(LBracket)] + ts) == Ok(Array(es), rest)
  {
    assert ([Sym(LBracket)] + ts)[1..] == ts;
    assert ([Sym(RBracket)] + rest)[1..] == rest;
  }

  lemma {:induction false} StepObject(ks: seq<Key>, vs: seq<Ast>, ts: seq<Token>, rest: seq<Token>)
    requires ts != [] && Properties(ts) == Ok((ks, vs), [Sym(RBrace)] + rest)
    ensures Atom([Sym(LBrace)] + ts) == Ok(Object(ks, vs), rest)
  {
    assert ([Sym(LBrace)] + ts)[1..] == ts;
    assert ([Sym(RBrace)] + rest)[1..] == rest;
  }

  lemma {:induction false} StepFilter(a: Ast, name: Text, args: seq<Ast>, ts: seq<Token>, rest: seq<Token>)
    requires FilterArgs(ts) == Ok(args, rest)
    ensures Filters(a, [Sym(Bar), Name(name)] + ts) == Filters(Filter(a, name, args), rest)
  {
    assert ([Sym(Bar), Name(name)] + ts)[2..] == ts;
  }

  lemma {:induction false} StepArg(a: Ast, ts: seq<Token>, us: seq<Token>, more: seq<Ast>, rest: seq<Token>)
    requires Expression(ts) == Ok(a, us) && FilterArgs(us) == Ok(more, rest)
    ensures FilterArgs([Sym(Colon)] + ts) == Ok([a] + more, rest)
  {
    assert ([Sym(Colon)] + ts)[1..] == ts;
  }

  lemma {:induction false} StepExpressions(a: Ast, ts: seq<Token>, us: seq<Token>, more: seq<Ast>, rest: seq<Token>)
    requires Expression(ts) == Ok(a, [Sym(Comma)] + us) && Expressions(us) == Ok(more, rest)
    ensures Expressions(ts) == Ok([a] + more, rest)
  {
    assert ([Sym(Comma)] + us)[1..] == us;
  }

  lemma {:induction false} LastExpression(a: Ast, ts: seq<Token>, rest: seq<Token>)
    requires Expression(ts) == Ok(a, rest) && !Starts(rest, Comma)
    ensures Expressions(ts) == Ok([a], rest)
    ensures !Starts(ts, RBracket) ==> Elements(ts) == Ok([a], rest)
  {
  }

  lemma {:induction false} StepElements(a: Ast, ts: seq<Token>, us: seq<Token>, more: seq<Ast>, rest: seq<Token>)
    requires Expression(ts) == Ok(a, [Sym(Comma)] + us) && Elements(us) == Ok(more, rest) && !Starts(ts, RBracket)
    ensures Elements(ts) == Ok([a] + more, rest)
  {
    assert ([Sym(Comma)] + us)[1..] == us;
  }

  lemma {:induction false} StepProperties(k: Key, a: Ast, ts: seq<Token>, us: seq<Token>, ks: seq<Key>, vs: seq<Ast>, rest: seq<Token>)
    requires Expression(ts) == Ok(a, [Sym(Comma)] + us) && Properties(us) == Ok((ks, vs), rest)
    ensures Properties([KeyToken(k), Sym(Colon)] + ts) == Ok(([k] + ks, [a] + vs), rest)
  {
    var all := [KeyToken(k), Sym(Colon)] + ts;
    assert all[2..] == ts && all[1..][0] == Sym(Colon);
    assert ([Sym(Comma)] + us)[1..] == us;
  }

  lemma {:induction false} LastProperty(k: Key, a: Ast, ts: seq<Token>, rest: seq<Token>)
    requires Expression(ts) == Ok(a, rest) && !Starts(rest, Comma)
    ensures Properties([KeyToken(k), Sym(Colon)] + ts) == Ok(([k], [a]), rest)
  {
    var all := [KeyToken(k), Sym(Colon)] + ts;
    assert all[2..] == ts && all[1..][0] == Sym(Colon);
  }

  lemma {:induction false} StepName(e: Ast, rest: seq<Token>)
    requires WellFormed(e) && (e.Ident? || e.Keyword? || e.Lit?)
    ensures Atom(Bare(e) + rest) == Ok(e, rest)
  {
    hide Properties, Elements, FilterChain;
    assert |Bare(e)| == 1;
    assert (Bare(e) + rest)[1..] == rest;
  }

  lemma {:induction false} StepChain(ts: seq<Token>, a: Ast, rest: seq<Token>)
    requires Expression(ts) == Ok(a, rest)
    ensures FilterChain(ts) == Filters(a, rest)
  {
  }

  lemma {:induction false} StepLevel(level: nat, ts: seq<Token>, a: Ast, rest: seq<Token>)
    requires OR <= level <= PRODUCT && Level(level + 1, ts) == Ok(a, rest)
    ensures Level(level, ts) == Infixes(level, a, rest)
  {
  }

  lemma {:induction false} StepPrimary(ts: seq<Token>, a: Ast, rest: seq<Token>)
    requires Atom(ts) == Ok(a, rest)
    ensures ParseAt(PRIMARY, ts) == Postfixes(a, rest)
  {
  }

  lemma {:induction false} EndPostfixes(a: Ast, rest: seq<Token>)
    requires !Continues(PRIMARY, rest)
    ensures Postfixes(a, rest) == Ok(a, rest)
  {
  }

  lemma {:induction false} EndInfixes(level: nat, a: Ast, rest: seq<Token>)
    requires OR <= level <= PRODUCT && !Continues(level, rest)
    ensures Infixes(level, a, rest) == Ok(a, rest)
  {
  }

  lemma {:induction false} EndFilters(a: Ast, rest: seq<Token>)
    requires !Starts(rest, Bar)
    ensures Filters(a, rest) == Ok(a, rest)
  {
  }

  lemma {:induction false} Levels(level: nat, ts: seq<Token>)
    requires level <= PRIMARY
    ensures level == 0 ==> ParseAt(level, ts) == Expression(ts)
    ensures level == 1 ==> ParseAt(level, ts) == Ternary(ts)
    ensures OR <= level <= PREFIX ==> ParseAt(level, ts) == Level(level, ts)
    ensures level == PREFIX ==> ParseAt(level, ts) == Unary(ts)
  {
  }

  // --------------------------------------------------------------------- the parser undoes Print

  /** A name, a constant, an array or an object. */
  predicate IsAtom(e: Ast) {
    e.Ident? || e.Keyword? || e.Lit? || e.Array? || e.Object?
  }

  lemma {:induction false} AtomReads(e: Ast, rest: seq<Token>)
    requires WellFormed(e) && IsAtom(e)
    ensures Atom(Bare(e) + rest) == Ok(e, rest)
    decreases e, 0
  {
    hide Properties, Elements, Atom, PrintList, PrintProperties, IsKeyword;
    match e
    case Array(es) =>
      var ts := PrintList(es) + ([Sym(RBracket)] + rest);
      ElementsRead(es, [Sym(RBracket)] + rest);
      StepArray(es, ts, rest);
      assert Bare(e) + rest == [Sym(LBracket)] + ts;
    case Object(ks, vs) =>
      var ts := PrintProperties(ks, vs) + ([Sym(RBrace)] + rest);
      PropertiesRead(ks, vs, [Sym(RBrace)] + rest);
      StepObject(ks, vs, ts, rest);
      assert Bare(e) + rest == [Sym(LBrace)] + ts;
    case _ => StepName(e, rest);
  }

  /** A primary followed by anything: the loop over postfixes goes on from it. */
  lemma {:induction false} PrimaryReads(e: Ast, rest: seq<Token>)
    requires WellFormed(e)
    ensures ParseAt(PRIMARY, Print(e, PRIMARY) + rest) == Postfixes(e, rest)
    decreases e, 5
  {
    hide ParseAt, Postfixes, Atom, FilterChain, Filters, Expression, Bare, WellFormed, Continues, Prec, Print;
    PrintedPrimary(e);
    if Prec(e) < PRIMARY {
      var end := [Sym(RParen)] + rest;
      var ts := Bare(e) + end;
      Stops(0, RParen, rest);
      ChainReads(e, end);
      EndFilters(e, end);
      StepParen(ts, e, rest);
      assert Print(e, PRIMARY) + rest == [Sym(LParen)] + ts;
      StepPrimary(Print(e, PRIMARY) + rest, e, rest);
    } else {
      PostfixReads(e, rest);
    }
  }

  lemma {:induction false} PrintedPrimary(e: Ast)
    requires WellFormed(e)
    ensures Prec(e) <= PRIMARY
    ensures Print(e, PRIMARY) == if Prec(e) < PRIMARY then [Sym(LParen)] + Bare(e) + [Sym(RParen)] else Bare(e)
  {
    hide Bare, IsKeyword;
  }

  lemma {:induction false} PostfixReads(e: Ast, rest: seq<Token>)
    requires WellFormed(e) && Prec(e) == PRIMARY
    ensures ParseAt(PRIMARY, Bare(e) + rest) == Postfixes(e, rest)
    decreases e, 1
  {
    hide ParseAt, Postfixes, Atom, Expression, Arguments, Print, PrintList, IsKeyword, IsAtom, Continues, Prec;
    PrimaryAtom(e);
    if IsAtom(e) {
      AtomReads(e, rest);
      StepPrimary(Bare(e) + rest, e, rest);
    } else if e.Member? {
      var more := [Sym(Dot), Name(e.name)] + rest;
      PrimaryReads(e.target, more);
      StepMember(e.target, e.name, rest);
      assert Bare(e) + rest == Print(e.target, PRIMARY) + more;
    } else if e.Computed? {
      var ts := Print(e.property, 0) + ([Sym(RBracket)] + rest);
      PrimaryReads(e.target, [Sym(LBracket)] + ts);
      Stops(0, RBracket, rest);
      Reads(e.property, 0, [Sym(RBracket)] + rest);
      Levels(0, ts);
      StepComputed(e.target, e.property, ts, rest);
      assert Bare(e) + rest == Print(e.target, PRIMARY) + ([Sym(LBracket)] + ts);
    } else {
      var ts := PrintList(e.args) + ([Sym(RParen)] + rest);
      PrimaryReads(e.callee, [Sym(LParen)] + ts);
      ArgumentsRead(e.args, rest);
      StepCall(e.callee, e.args, ts, rest);
      assert Bare(e) + rest == Print(e.callee, PRIMARY) + ([Sym(LParen)] + ts);
    }
  }

  lemma {:induction false} PrimaryAtom(e: Ast)
    requires Prec(e) == PRIMARY && WellFormed(e)
    ensures e.Member? || e.Computed? || e.Call? || IsAtom(e)
  {
    hide IsKeyword;
  }

  /** An infix tree followed by anything its operands would not take: the loop of its level goes on
    * from it.  This is where operators associate to the left. */
  lemma {:induction false} InfixReads(e: Ast, rest: seq<Token>)
    requires WellFormed(e) && e.Infix? && !Continues(Prec(e) + 1, rest)
    ensures Level(Prec(e), Bare(e) + rest) == Infixes(Prec(e), e, rest)
    decreases e, 1
  {
    hide ParseAt, Level, Infixes, Print;
    var m := Prec(e);
    var ts := Print(e.right, m + 1) + rest;
    OperandReads(m, e.left, [Sym(e.op)] + ts);
    Reads(e.right, m + 1, rest);
    Levels(m + 1, ts);
    StepInfix(m, e.left, e.op, e.right, ts, rest);
    assert Bare(e) + rest == Print(e.left, m) + ([Sym(e.op)] + ts);
  }

  lemma {:induction false} OperandReads(m: nat, e: Ast, rest: seq<Token>)
    requires WellFormed(e) && OR <= m <= PRODUCT && !Continues(m + 1, rest)
    ensures Level(m, Print(e, m) + rest) == Infixes(m, e, rest)
    decreases e, 8
  {
    hide ParseAt, Level, Infixes, Bare;
    if Prec(e) == m {
      PrecInfix(e);
      InfixReads(e, rest);
    } else {
      Reads(e, m + 1, rest);
      Levels(m + 1, Print(e, m + 1) + rest);
      StepLevel(m, Print(e, m + 1) + rest, e, rest);
      assert Print(e, m) == Print(e, m + 1);
    }
  }

  lemma {:induction false} PrecInfix(e: Ast)
    requires OR <= Prec(e) <= PRODUCT
    ensures e.Infix?
  {
  }

  lemma {:induction false} AssignReads(a: Ast, b: Ast, rest: seq<Token>)
    requires WellFormed(a) && WellFormed(b) && !Continues(0, rest)
    ensures Expression(Bare(Assign(a, b)) + rest) == Ok(Assign(a, b), rest)
    decreases Assign(a, b), 1
  {
    hide ParseAt, Print, Bare, Expression, Ternary, Level, WellFormed, Continues;
    var us := Print(b, 0) + rest;
    var ts := Print(a, OR) + ([Sym(Equals)] + us);
    EqualsStops(us);
    Reads(a, OR, [Sym(Equals)] + us);
    Levels(OR, ts);
    FromLevel(ts, a, [Sym(Equals)] + us);
    Reads(b, 0, rest);
    Levels(0, us);
    StepAssign(ts, a, us, b, rest);
    BareAssign(a, b, rest);
  }

  lemma {:induction false} EqualsStops(us: seq<Token>)
    ensures !Continues(OR, [Sym(Equals)] + us) && !Starts([Sym(Equals)] + us, Question)
  {
  }

  lemma {:induction false} BareAssign(a: Ast, b: Ast, rest: seq<Token>)
    ensures Bare(Assign(a, b)) + rest == Print(a, OR) + ([Sym(Equals)] + (Print(b, 0) + rest))
  {
    hide Print;
    assert Bare(Assign(a, b)) == Print(a, OR) + [Sym(Equals)] + Print(b, 0);
  }

  /** In front of a conditional's branch the test was printed at the level of `||`; the last branch
    * takes in what the conditional is followed by, which is nothing it could go on with. */
  lemma {:induction false} CondReads(t: Ast, a: Ast, b: Ast, rest: seq<Token>)
    requires WellFormed(t) && WellFormed(a) && WellFormed(b) && !Continues(1, rest)
    ensures Ternary(Bare(Cond(t, a, b)) + rest) == Ok(Cond(t, a, b), rest)
    decreases Cond(t, a, b), 1
  {
    hide ParseAt, Print, Bare, Expression, Ternary, Level, WellFormed, Continues;
    var vs := Print(b, 0) + rest;
    var us := Print(a, 0) + ([Sym(Colon)] + vs);
    var ts := Print(t, OR) + ([Sym(Question)] + us);
    CondStops(us, rest);
    Stops(0, Colon, vs);
    Reads(t, OR, [Sym(Question)] + us);
    Levels(OR, ts);
    Reads(a, 0, [Sym(Colon)] + vs);
    Levels(0, us);
    Reads(b, 0, rest);
    Levels(0, vs);
    StepCond(ts, t, us, a, vs, b, rest);
    BareCond(t, a, b, rest);
  }

  lemma {:induction false} CondStops(us: seq<Token>, rest: seq<Token>)
    requires !Continues(1, rest)
    ensures !Continues(OR, [Sym(Question)] + us) && !Continues(0, rest)
  {
  }

  lemma {:induction false} BareCond(t: Ast, a: Ast, b: Ast, rest: seq<Token>)
    ensures Bare(Cond(t, a, b)) + rest ==
            Print(t, OR) + ([Sym(Question)] + (Print(a, 0) + ([Sym(Colon)] + (Print(b, 0) + rest))))
  {
    hide Print;
    var vs := Print(b, 0) + rest;
    assert Bare(Cond(t, a, b)) + rest ==
           (Print(t, OR) + [Sym(Question)] + Print(a, 0) + [Sym(Colon)]) + vs;
    assert (Print(t, OR) + [Sym(Question)] + Print(a, 0) + [Sym(Colon)]) + vs ==
           (Print(t, OR) + [Sym(Question)] + Print(a, 0)) + ([Sym(Colon)] + vs);
  }

  lemma {:induction false} PrefixReads(op: Symbol, a: Ast, rest: seq<Token>)
    requires WellFormed(a) && IsPrefix(op) && !Continues(PREFIX, rest)
    ensures Unary(Bare(Prefix(op, a)) + rest) == Ok(Prefix(op, a), rest)
    decreases Prefix(op, a), 1
  {
    hide ParseAt, Print, Unary, Level, WellFormed;
    var ts := Print(a, PREFIX) + rest;
    Reads(a, PREFIX, rest);
    Levels(PREFIX, ts);
    StepPrefix(op, a, ts, rest);
    assert Bare(Prefix(op, a)) + rest == [Sym(op)] + ts;
  }

  /** A tree printed bare, read at its own level. */
  lemma {:induction false} BareReads(e: Ast, rest: seq<Token>)
    requires WellFormed(e) && Prec(e) >= 0 && !Continues(Prec(e), rest)
    ensures ParseAt(Prec(e), Bare(e) + rest) == Ok(e, rest)
    decreases e, 2
  {
    hide ParseAt, Print, Level, Infixes, Expression, Ternary, Postfixes, Unary, Bare, IsKeyword, AllWellFormed;
    var p := Prec(e);
    Levels(p, Bare(e) + rest);
    match e
    case Assign(a, b) => AssignReads(a, b, rest);
    case Cond(t, a, b) => CondReads(t, a, b, rest);
    case Infix(op, a, b) =>
      InfixReads(e, rest);
      EndInfixes(p, e, rest);
    case Prefix(op, a) => PrefixReads(op, a, rest);
    case _ =>
      PostfixReads(e, rest);
      EndPostfixes(e, rest);
  }

  /** A whole filter chain. */
  lemma {:induction false} ChainReads(e: Ast, rest: seq<Token>)
    requires WellFormed(e) && !Continues(0, rest) && !Starts(rest, Colon)
    ensures FilterChain(Bare(e) + rest) == Filters(e, rest)
    decreases e, 3
  {
    hide ParseAt, Print, Bare, FilterChain, Filters, Expression, FilterArgs, PrintArgs, IsKeyword, Continues, AllWellFormed, Prec;
    if e.Filter? {
      var us := PrintArgs(e.args) + rest;
      var more := [Sym(Bar), Name(e.name)] + us;
      Stops(0, Bar, [Name(e.name)] + us);
      assert [Sym(Bar)] + ([Name(e.name)] + us) == more;
      ChainReads(e.input, more);
      ArgsRead(e.args, rest);
      StepFilter(e.input, e.name, e.args, us, rest);
      BareFilter(e, rest);
    } else {
      OwnLevel(e);
      StopsAbove(0, Prec(e), rest);
      BareReads(e, rest);
      Raise(Prec(e), 0, Bare(e) + rest, e, rest);
      Levels(0, Bare(e) + rest);
      StepChain(Bare(e) + rest, e, rest);
    }
  }

  lemma {:induction false} OwnLevel(e: Ast)
    requires WellFormed(e) && !e.Filter?
    ensures 0 <= Prec(e) <= PRIMARY
  {
    hide IsKeyword;
  }

  lemma {:induction false} BareFilter(e: Ast, rest: seq<Token>)
    requires e.Filter?
    ensures Bare(e) + rest == Bare(e.input) + ([Sym(Bar), Name(e.name)] + (PrintArgs(e.args) + rest))
  {
    hide PrintArgs;
    BareAtMinusOne(e.input);
    assert Bare(e) == Bare(e.input) + [Sym(Bar), Name(e.name)] + PrintArgs(e.args);
  }

  lemma {:induction false} BareAtMinusOne(e: Ast)
    ensures Print(e, -1) == Bare(e)
  {
  }

  /** A tree printed for a level and followed by something that level does not take is read back,
    * and exactly its own tokens are taken. */
  lemma {:induction false} Reads(e: Ast, level: nat, rest: seq<Token>)
    requires WellFormed(e) && level <= PRIMARY && !Continues(level, rest)
    ensures ParseAt(level, Print(e, level) + rest) == Ok(e, rest)
    decreases e, 7
  {
    hide ParseAt, Bare, Postfixes;
    if Prec(e) >= level {
      StopsAbove(level, Prec(e), rest);
      BareReads(e, rest);
      Raise(Prec(e), level, Bare(e) + rest, e, rest);
    } else {
      assert Print(e, level) == Print(e, PRIMARY);
      PrimaryReads(e, rest);
      EndPostfixes(e, rest);
      Raise(PRIMARY, level, Print(e, PRIMARY) + rest, e, rest);
    }
  }

  // ------------------------------------------------------------------------------------ lists

  lemma {:induction false} ArgsRead(es: seq<Ast>, rest: seq<Token>)
    requires AllWellFormed(es) && !Continues(0, rest) && !Starts(rest, Colon)
    ensures FilterArgs(PrintArgs(es) + rest) == Ok(es, rest)
    decreases es, 0
  {
    hide ParseAt, Print, PrintArgs, Expression, FilterArgs, WellFormed, Continues;
    if es == [] {
      NoneArgs(rest);
      NoArgs(rest);
    } else {
      var more := PrintArgs(es[1..]) + rest;
      var ts := Print(es[0], 0) + more;
      ArgsNext(es[1..], rest);
      Reads(es[0], 0, more);
      Levels(0, ts);
      ArgsRead(es[1..], rest);
      StepArg(es[0], ts, more, es[1..], rest);
      SomeArgs(es, rest);
      assert [es[0]] + es[1..] == es;
    }
  }

  lemma {:induction false} NoneArgs(rest: seq<Token>)
    ensures PrintArgs([]) + rest == rest
  {
  }

  lemma {:induction false} SomeArgs(es: seq<Ast>, rest: seq<Token>)
    requires es != []
    ensures PrintArgs(es) + rest == [Sym(Colon)] + (Print(es[0], 0) + (PrintArgs(es[1..]) + rest))
  {
    hide Print;
    assert PrintArgs(es) == [Sym(Colon)] + Print(es[0], 0) + PrintArgs(es[1..]);
  }

  lemma {:induction false} NoArgs(rest: seq<Token>)
    requires !Starts(rest, Colon)
    ensures FilterArgs(rest) == Ok([], rest)
  {
  }

  lemma {:induction false} ArgsNext(es: seq<Ast>, rest: seq<Token>)
    requires !Continues(0, rest)
    ensures !Continues(0, PrintArgs(es) + rest)
  {
    hide Print;
    if es == [] { assert PrintArgs(es) + rest == rest; }
  }

  lemma {:induction false} ListReads(es: seq<Ast>, rest: seq<Token>)
    requires AllWellFormed(es) && es != [] && !Continues(0, rest) && !Starts(rest, Comma)
    ensures Expressions(PrintList(es) + rest) == Ok(es, rest)
    decreases es, 0
  {
    hide ParseAt, Print, Expression, Expressions, WellFormed, Continues;
    if |es| == 1 {
      Reads(es[0], 0, rest);
      Levels(0, Print(es[0], 0) + rest);
      LastExpression(es[0], Print(es[0], 0) + rest, rest);
      assert [es[0]] == es;
    } else {
      var more := PrintList(es[1..]) + rest;
      var ts := Print(es[0], 0) + ([Sym(Comma)] + more);
      Stops(0, Comma, more);
      Reads(es[0], 0, [Sym(Comma)] + more);
      Levels(0, ts);
      ListReads(es[1..], rest);
      StepExpressions(es[0], ts, more, es[1..], rest);
      assert PrintList(es) + rest == ts;
      assert [es[0]] + es[1..] == es;
    }
  }

  lemma {:induction false} ArgumentsRead(es: seq<Ast>, rest: seq<Token>)
    requires AllWellFormed(es)
    ensures Arguments(PrintList(es) + ([Sym(RParen)] + rest)) == Ok(es, [Sym(RParen)] + rest)
    decreases es, 1
  {
    hide ParseAt, Print, Expressions;
    var end := [Sym(RParen)] + rest;
    if es == [] {
      assert PrintList(es) + end == end;
    } else {
      ListReads(es, end);
      PrintStarts(es[0], 0);
      ListStarts(es, end);
    }
  }

  /** No tree begins with a closing bracket. */
  predicate Opens(t: Token) {
    t != Sym(RParen) && t != Sym(RBracket) && t != Sym(RBrace) && t != Sym(Semicolon)
  }

  lemma {:induction false} PrintStarts(e: Ast, level: int)
    requires WellFormed(e)
    ensures Print(e, level) != [] && Opens(Print(e, level)[0])
    ensures Bare(e) != [] && Opens(Bare(e)[0])
    decreases e
  {
    match e
    case Assign(a, _) => PrintStarts(a, OR);
    case Cond(t, _, _) => PrintStarts(t, OR);
    case Infix(op, a, _) => PrintStarts(a, InfixLevel(op));
    case Member(o, _) => PrintStarts(o, PRIMARY);
    case Computed(o, _) => PrintStarts(o, PRIMARY);
    case Call(f, _) => PrintStarts(f, PRIMARY);
    case Filter(i, _, _) => PrintStarts(i, -1);
    case _ =>
  }

  lemma {:induction false} ListStarts(es: seq<Ast>, rest: seq<Token>)
    requires AllWellFormed(es) && es != []
    ensures PrintList(es) + rest != [] && Opens((PrintList(es) + rest)[0])
  {
    hide Print;
    PrintStarts(es[0], 0);
  }

  lemma {:induction false} ElementsRead(es: seq<Ast>, rest: seq<Token>)
    requires AllWellFormed(es) && Starts(rest, RBracket)
    ensures Elements(PrintList(es) + rest) == Ok(es, rest)
    decreases es, 0
  {
    hide ParseAt, Print, Expression, WellFormed, Elements, Continues;
    if es == [] {
      assert PrintList(es) + rest == rest;
      NoElements(rest);
    } else {
      ListStarts(es, rest);
      if |es| == 1 {
        StartsStops(0, RBracket, rest);
        Reads(es[0], 0, rest);
        Levels(0, Print(es[0], 0) + rest);
        LastExpression(es[0], Print(es[0], 0) + rest, rest);
        assert [es[0]] == es;
      } else {
        var more := PrintList(es[1..]) + rest;
        var ts := Print(es[0], 0) + ([Sym(Comma)] + more);
        Stops(0, Comma, more);
        Reads(es[0], 0, [Sym(Comma)] + more);
        Levels(0, ts);
        ElementsRead(es[1..], rest);
        assert PrintList(es) + rest == ts;
        StepElements(es[0], ts, more, es[1..], rest);
        assert [es[0]] + es[1..] == es;
      }
    }
  }

  lemma {:induction false} NoElements(rest: seq<Token>)
    requires Starts(rest, RBracket)
    ensures Elements(rest) == Ok([], rest)
  {
  }

  lemma {:induction false} NoProperties(rest: seq<Token>)
    requires Starts(rest, RBrace)
    ensures Properties(rest) == Ok(([], []), rest)
  {
  }

  lemma {:induction false} PropertiesRead(ks: seq<Key>, vs: seq<Ast>, rest: seq<Token>)
    requires |ks| == |vs| && AllWellFormed(vs) && Starts(rest, RBrace)
    ensures Properties(PrintProperties(ks, vs) + rest) == Ok((ks, vs), rest)
    decreases vs, 0
  {
    hide ParseAt, Print, Expression, Properties, WellFormed, KeyToken, Continues;
    if vs == [] {
      assert PrintProperties(ks, vs) + rest == rest;
      NoProperties(rest);
    } else if |vs| == 1 {
      var us := Print(vs[0], 0) + rest;
      assert PrintProperties(ks, vs) + rest == [KeyToken(ks[0]), Sym(Colon)] + us;
      StartsStops(0, RBrace, rest);
      Reads(vs[0], 0, rest);
      Levels(0, us);
      LastProperty(ks[0], vs[0], us, rest);
      assert [ks[0]] == ks && [vs[0]] == vs;
    } else {
      var more := PrintProperties(ks[1..], vs[1..]) + rest;
      var us := Print(vs[0], 0) + ([Sym(Comma)] + more);
      assert PrintProperties(ks, vs) + rest == [KeyToken(ks[0]), Sym(Colon)] + us;
      Stops(0, Comma, more);
      Reads(vs[0], 0, [Sym(Comma)] + more);
      Levels(0, us);
      PropertiesRead(ks[1..], vs[1..], rest);
      StepProperties(ks[0], vs[0], us, more, ks[1..], vs[1..], rest);
      assert [ks[0]] + ks[1..] == ks && [vs[0]] + vs[1..] == vs;
    }
  }

  // --------------------------------------------------------------------------------- programs

  /** The parser undoes the printer on whole programs, and takes every token. */
  lemma {:induction false} ProgramReads(body: seq<Ast>)
    requires AllWellFormed(body)
    ensures ParseProgram(PrintProgram(body)) == Ok(body, [])
  {
    hide Bare, Program, WellFormed;
    ProgramRest(body);
  }

  lemma {:induction false} ProgramRest(body: seq<Ast>)
    requires AllWellFormed(body)
    ensures Program(PrintProgram(body)) == Ok(body, [])
  {
    hide Bare, FilterChain, Filters, WellFormed, Program, Continues, Opens;
    if body == [] {
      EmptyProgram();
    } else if |body| == 1 {
      StatementReads(body[0], []);
      assert Bare(body[0]) + [] == Bare(body[0]);
      LastStatement(Bare(body[0]), body[0]);
      assert [body[0]] == body;
    } else {
      var more := PrintProgram(body[1..]);
      StatementReads(body[0], [Sym(Semicolon)] + more);
      assert PrintProgram(body) == Bare(body[0]) + ([Sym(Semicolon)] + more);
      ProgramRest(body[1..]);
      StepStatement(PrintProgram(body), body[0], more, body[1..]);
      assert [body[0]] + body[1..] == body;
    }
  }

  lemma {:induction false} StatementReads(e: Ast, rest: seq<Token>)
    requires WellFormed(e) && (rest == [] || Starts(rest, Semicolon))
    ensures FilterChain(Bare(e) + rest) == Ok(e, rest) && Bare(e) != [] && Opens(Bare(e)[0])
  {
    hide Bare, FilterChain, Filters, WellFormed;
    PrintStarts(e, -1);
    if rest != [] { assert rest == [Sym(Semicolon)] + rest[1..]; }
    ChainReads(e, rest);
    EndFilters(e, rest);
  }

  lemma {:induction false} EmptyProgram()
    ensures Program([]) == Ok([], [])
  {
  }

  lemma {:induction false} LastStatement(ts: seq<Token>, e: Ast)
    requires ts != [] && Opens(ts[0]) && FilterChain(ts) == Ok(e, [])
    ensures Program(ts) == Ok([e], [])
  {
    hide FilterChain;
  }

  lemma {:induction false} StepStatement(ts: seq<Token>, e: Ast, us: seq<Token>, more: seq<Ast>)
    requires ts != [] && Opens(ts[0]) && FilterChain(ts) == Ok(e, [Sym(Semicolon)] + us) && Program(us) == Ok(more, [])
    ensures Program(ts) == Ok([e] + more, [])
  {
    hide FilterChain;
    assert ([Sym(Semicolon)] + us)[1..] == us;
  }

  /** Whatever the parser accepts, printing what it made of it and parsing that again gives the same
    * program. */
  lemma {:induction false} AcceptedThenReprinted(ts: seq<Token>)
    ensures match ParseProgram(ts)
            case Ok(body, rest) => rest == [] && ParseProgram(PrintProgram(body)) == Ok(body, [])
            case Err(_) => true
  {
    hide Program, PrintProgram;
    match Program(ts)
    case Ok(body, rest) => if rest == [] { ProgramReads(body); }
    case Err(_) =>
  }
}
