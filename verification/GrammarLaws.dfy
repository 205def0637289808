/** What token lists are parsed to, told with the symbols written out: precedence, associativity and
  * every other form of the language, without the table the parser and the printer share. */
module GrammarLaws {
  import opened Syntax
  import opened ParserInverse

  /** The infix operators, those that bind least first. */
  const CLASSES: seq<set<Symbol>> :=
    [{OrOr}, {AndAnd}, {Eq2, Ne2, Eq3, Ne3}, {Less, Greater, LessEq, GreaterEq}, {PlusSign, MinusSign}, {Times, Slash, Percent}]

  /** Nothing that `(`, `[` or `.` would take further. */
  predicate NoPostfix(rest: seq<Token>) {
    rest == [] || (rest[0] != Sym(LParen) && rest[0] != Sym(LBracket) && rest[0] != Sym(Dot))
  }

  /** The tokens are an operand, whatever comes next: they are read as `x`. */
  ghost predicate Operand(t: seq<Token>, x: Ast) {
    forall rest :: NoPostfix(rest) ==> Unary(t + rest) == Ok(x, rest)
  }

  function PrimaryOf(ts: seq<Token>): Parsed<Ast> {
    match Atom(ts)
    case Err(e) => Err(e)
    case Ok(a, r) => Postfixes(a, r)
  }

  /** The tokens are a primary: the loop over calls and members goes on from `x`. */
  ghost predicate Primary(t: seq<Token>, x: Ast) {
    forall rest :: PrimaryOf(t + rest) == Postfixes(x, rest)
  }

  // ----------------------------------------------------------------------------- primaries

  lemma {:induction false} PrimaryOperand(t: seq<Token>, x: Ast)
    requires Primary(t, x)
    ensures Operand(t, x)
  {
    forall rest | NoPostfix(rest) ensures Unary(t + rest) == Ok(x, rest) {
      assert PrimaryOf(t + rest) == Postfixes(x, rest);
      PostfixesEnd(x, rest);
      AtomNotPrefix(t + rest);
    }
  }

  lemma {:induction false} PostfixesEnd(x: Ast, rest: seq<Token>)
    requires NoPostfix(rest)
    ensures Postfixes(x, rest) == Ok(x, rest)
  {
  }

  /** A name is a name unless it is one of five words; a constant is itself. */
  lemma {:induction false} WordsRead(name: Text, c: Constant)
    ensures Primary([Name(name)],
                    if name in {Plain("true"), Plain("false"), Plain("null"), Plain("undefined"), Plain("this")}
                    then Keyword(name) else Ident(name))
    ensures Primary([Const(c)], Lit(c))
  {
    hide FilterChain, Elements, Properties, Postfixes;
    forall t: Token, rest: seq<Token> ensures ([t] + rest)[1..] == rest && ([t] + rest)[0] == t { }
  }

  lemma {:induction false} MembersRead(t: seq<Token>, x: Ast, name: Text, p: seq<Token>, y: Ast)
    requires Primary(t, x) && Operand(p, y)
    ensures Primary(t + [Sym(Dot), Name(name)], Member(x, name))
    ensures Primary(t + [Sym(LBracket)] + p + [Sym(RBracket)], Computed(x, y))
  {
    hide PrimaryOf, Postfixes;
    forall rest ensures PrimaryOf(t + [Sym(Dot), Name(name)] + rest) == Postfixes(Member(x, name), rest) {
      assert t + [Sym(Dot), Name(name)] + rest == t + ([Sym(Dot), Name(name)] + rest);
      StepMember(x, name, rest);
    }
    forall rest ensures PrimaryOf(t + [Sym(LBracket)] + p + [Sym(RBracket)] + rest) == Postfixes(Computed(x, y), rest) {
      var us := p + ([Sym(RBracket)] + rest);
      assert t + [Sym(LBracket)] + p + [Sym(RBracket)] + rest == t + ([Sym(LBracket)] + us);
      OperandExpression(p, y, RBracket, rest);
      StepComputed(x, y, us, rest);
    }
  }

  /** Lists between commas. */
  function Commas(ts: seq<seq<Token>>): seq<Token> {
    if ts == [] then [] else if |ts| == 1 then ts[0] else ts[0] + [Sym(Comma)] + Commas(ts[1..])
  }

  ghost predicate Operands(ts: seq<seq<Token>>, xs: seq<Ast>) {
    |ts| == |xs| && forall k :: 0 <= k < |ts| ==> Operand(ts[k], xs[k])
  }

  lemma {:induction false} CallRead(t: seq<Token>, x: Ast, ts: seq<seq<Token>>, xs: seq<Ast>)
    requires Primary(t, x) && Operands(ts, xs)
    ensures Primary(t + [Sym(LParen)] + Commas(ts) + [Sym(RParen)], Call(x, xs))
  {
    hide PrimaryOf, Postfixes, Arguments;
    forall rest ensures PrimaryOf(t + [Sym(LParen)] + Commas(ts) + [Sym(RParen)] + rest) == Postfixes(Call(x, xs), rest) {
      var us := Commas(ts) + ([Sym(RParen)] + rest);
      assert t + [Sym(LParen)] + Commas(ts) + [Sym(RParen)] + rest == t + ([Sym(LParen)] + us);
      ArgumentsAre(ts, xs, rest);
      StepCall(x, xs, us, rest);
    }
  }

  lemma {:induction false} ArgumentsAre(ts: seq<seq<Token>>, xs: seq<Ast>, rest: seq<Token>)
    requires Operands(ts, xs)
    ensures Arguments(Commas(ts) + ([Sym(RParen)] + rest)) == Ok(xs, [Sym(RParen)] + rest)
  {
    hide Expressions, Operand;
    var end := [Sym(RParen)] + rest;
    if ts == [] {
      assert Commas(ts) + end == end;
    } else {
      ExpressionsAre(ts, xs, RParen, rest);
      CommasOpen(ts, xs, end);
    }
  }

  lemma {:induction false} CommasOpen(ts: seq<seq<Token>>, xs: seq<Ast>, end: seq<Token>)
    requires Operands(ts, xs) && ts != []
    ensures Commas(ts) + end != [] && Opens((Commas(ts) + end)[0])
  {
    hide Operand;
    OperandOpens(ts[0], xs[0]);
  }

  lemma {:induction false} ExpressionsAre(ts: seq<seq<Token>>, xs: seq<Ast>, s: Symbol, rest: seq<Token>)
    requires Operands(ts, xs) && ts != [] && (s == RParen || s == RBracket)
    ensures Expressions(Commas(ts) + ([Sym(s)] + rest)) == Ok(xs, [Sym(s)] + rest)
    decreases |ts|
  {
    hide Expressions, Expression, Operand, Elements;
    var end := [Sym(s)] + rest;
    if |ts| == 1 {
      OperandExpression(ts[0], xs[0], s, rest);
      LastExpression(xs[0], ts[0] + end, end);
      assert [xs[0]] == xs;
    } else {
      var more := Commas(ts[1..]) + end;
      OperandExpression(ts[0], xs[0], Comma, more);
      ExpressionsAre(ts[1..], xs[1..], s, rest);
      StepExpressions(xs[0], ts[0] + ([Sym(Comma)] + more), more, xs[1..], end);
      assert Commas(ts) + end == ts[0] + ([Sym(Comma)] + more);
      assert [xs[0]] + xs[1..] == xs;
    }
  }

  lemma {:induction false} ArrayRead(ts: seq<seq<Token>>, xs: seq<Ast>)
    requires Operands(ts, xs)
    ensures Primary([Sym(LBracket)] + Commas(ts) + [Sym(RBracket)], Array(xs))
    ensures ts != [] ==> Primary([Sym(LBracket)] + Commas(ts) + [Sym(Comma), Sym(RBracket)], Array(xs))
  {
    hide Elements, Postfixes, Atom;
    forall rest ensures PrimaryOf([Sym(LBracket)] + Commas(ts) + [Sym(RBracket)] + rest) == Postfixes(Array(xs), rest) {
      var us := Commas(ts) + ([Sym(RBracket)] + rest);
      assert [Sym(LBracket)] + Commas(ts) + [Sym(RBracket)] + rest == [Sym(LBracket)] + us;
      ElementsAre(ts, xs, [], rest);
      StepArray(xs, us, rest);
    }
    if ts != [] {
      forall rest ensures PrimaryOf([Sym(LBracket)] + Commas(ts) + [Sym(Comma), Sym(RBracket)] + rest) == Postfixes(Array(xs), rest) {
        var us := Commas(ts) + ([Sym(Comma)] + ([Sym(RBracket)] + rest));
        assert [Sym(LBracket)] + Commas(ts) + [Sym(Comma), Sym(RBracket)] + rest == [Sym(LBracket)] + us;
        ElementsAre(ts, xs, [Sym(Comma)], rest);
        StepArray(xs, us, rest);
      }
    }
  }

  /** A comma may end the list. */
  lemma {:induction false} ElementsAre(ts: seq<seq<Token>>, xs: seq<Ast>, last: seq<Token>, rest: seq<Token>)
    requires Operands(ts, xs) && (last == [] || (ts != [] && last == [Sym(Comma)]))
    ensures Elements(Commas(ts) + (last + ([Sym(RBracket)] + rest))) == Ok(xs, [Sym(RBracket)] + rest)
    ensures last == [] ==> Elements(Commas(ts) + ([Sym(RBracket)] + rest)) == Ok(xs, [Sym(RBracket)] + rest)
    decreases |ts|
  {
    hide Expression, Operand, Elements;
    var end := [Sym(RBracket)] + rest;
    assert last == [] ==> last + end == end;
    if ts == [] {
      assert Commas(ts) + end == end;
      NoElements(end);
    } else {
      CommasOpen(ts, xs, last + end);
      if |ts| == 1 {
        assert [xs[0]] == xs;
        if last == [] {
          OperandExpression(ts[0], xs[0], RBracket, rest);
          LastExpression(xs[0], ts[0] + end, end);
        } else {
          OperandExpression(ts[0], xs[0], Comma, end);
          NoElements(end);
          StepElements(xs[0], ts[0] + ([Sym(Comma)] + end), end, [], end);
          assert [xs[0]] + [] == xs;
        }
      } else {
        var more := Commas(ts[1..]) + (last + end);
        OperandExpression(ts[0], xs[0], Comma, more);
        ElementsAre(ts[1..], xs[1..], last, rest);
        assert Commas(ts) + (last + end) == ts[0] + ([Sym(Comma)] + more);
        StepElements(xs[0], ts[0] + ([Sym(Comma)] + more), more, xs[1..], end);
        assert [xs[0]] + xs[1..] == xs;
      }
    }
  }

  /** The tokens of properties: names or constants, each with a colon and a value. */
  function Pairs(ks: seq<Key>, ts: seq<seq<Token>>): seq<Token>
    requires |ks| == |ts|
  {
    if ts == [] then []
    else
      var key := match ks[0] case NameKey(name) => Name(name) case ConstKey(c) => Const(c);
      var one := [key, Sym(Colon)] + ts[0];
      if |ts| == 1 then one else one + [Sym(Comma)] + Pairs(ks[1..], ts[1..])
  }

  lemma {:induction false} ObjectRead(ks: seq<Key>, ts: seq<seq<Token>>, xs: seq<Ast>)
    requires Operands(ts, xs) && |ks| == |ts|
    ensures Primary([Sym(LBrace)] + Pairs(ks, ts) + [Sym(RBrace)], Object(ks, xs))
  {
    hide Properties, Postfixes, Atom;
    forall rest ensures PrimaryOf([Sym(LBrace)] + Pairs(ks, ts) + [Sym(RBrace)] + rest) == Postfixes(Object(ks, xs), rest) {
      var us := Pairs(ks, ts) + ([Sym(RBrace)] + rest);
      assert [Sym(LBrace)] + Pairs(ks, ts) + [Sym(RBrace)] + rest == [Sym(LBrace)] + us;
      PropertiesAre(ks, ts, xs, rest);
      StepObject(ks, xs, us, rest);
    }
  }

  lemma {:induction false} PairsAre(ks: seq<Key>, ts: seq<seq<Token>>)
    requires |ks| == |ts|
    ensures ts == [] ==> Pairs(ks, ts) == []
    ensures |ts| == 1 ==> Pairs(ks, ts) == [KeyToken(ks[0]), Sym(Colon)] + ts[0]
    ensures |ts| > 1 ==> Pairs(ks, ts) == [KeyToken(ks[0]), Sym(Colon)] + ts[0] + [Sym(Comma)] + Pairs(ks[1..], ts[1..])
  {
  }

  lemma {:induction false} PropertiesAre(ks: seq<Key>, ts: seq<seq<Token>>, xs: seq<Ast>, rest: seq<Token>)
    requires Operands(ts, xs) && |ks| == |ts|
    ensures Properties(Pairs(ks, ts) + ([Sym(RBrace)] + rest)) == Ok((ks, xs), [Sym(RBrace)] + rest)
    decreases |ts|
  {
    hide Expression, Operand, Properties, Pairs, KeyToken;
    var end := [Sym(RBrace)] + rest;
    PairsAre(ks, ts);
    if ts == [] {
      assert Pairs(ks, ts) + end == end;
      NoProperties(end);
    } else if |ts| == 1 {
      OperandExpression(ts[0], xs[0], RBrace, rest);
      LastProperty(ks[0], xs[0], ts[0] + end, end);
      assert Pairs(ks, ts) + end == [KeyToken(ks[0]), Sym(Colon)] + (ts[0] + end);
      assert [ks[0]] == ks && [xs[0]] == xs;
    } else {
      var more := Pairs(ks[1..], ts[1..]) + end;
      OperandExpression(ts[0], xs[0], Comma, more);
      PropertiesAre(ks[1..], ts[1..], xs[1..], rest);
      StepProperties(ks[0], xs[0], ts[0] + ([Sym(Comma)] + more), more, ks[1..], xs[1..], end);
      assert Pairs(ks, ts) + end == [KeyToken(ks[0]), Sym(Colon)] + (ts[0] + ([Sym(Comma)] + more));
      assert [ks[0]] + ks[1..] == ks && [xs[0]] + xs[1..] == xs;
    }
  }

  // ------------------------------------------------------------------------------ operands

  /** A sign or `!` in front of an operand makes an operand, so it binds tighter than every infix
    * operator. */
  lemma {:induction false} PrefixRead(op: Symbol, t: seq<Token>, x: Ast)
    requires op in {PlusSign, MinusSign, Bang} && Operand(t, x)
    ensures Operand([Sym(op)] + t, Prefix(op, x))
  {
    hide Unary;
    forall rest | NoPostfix(rest) ensures Unary([Sym(op)] + t + rest) == Ok(Prefix(op, x), rest) {
      assert [Sym(op)] + t + rest == [Sym(op)] + (t + rest);
      StepPrefix(op, x, t + rest, rest);
    }
  }

  lemma {:induction false} OperandOpens(t: seq<Token>, x: Ast)
    requires Operand(t, x)
    ensures t != [] && Opens(t[0])
  {
    assert t + [] == t;
    assert Unary(t) == Ok(x, []);
    UnaryOpens(t);
  }

  lemma {:induction false} UnaryOpens(t: seq<Token>)
    requires Unary(t).Ok?
    ensures t != [] && Opens(t[0])
  {
    hide Postfixes, FilterChain, Elements, Properties;
  }

  /** An operator of a class stops the levels above it. */
  lemma {:induction false} OperatorStops(n: nat, op: Symbol, level: nat, us: seq<Token>)
    requires n < 6 && op in CLASSES[n] && level > n + 2
    ensures !Continues(level, [Sym(op)] + us)
  {
    ClassLevel(op, n);
  }

  lemma {:induction false} NothingStops(level: int)
    ensures !Continues(level, [])
  {
  }

  lemma {:induction false} OperandAt(t: seq<Token>, x: Ast, level: nat, rest: seq<Token>)
    requires Operand(t, x) && level <= PREFIX && !Continues(level, rest)
    ensures ParseAt(level, t + rest) == Ok(x, rest)
  {
    hide Unary, ParseAt;
    Levels(PREFIX, t + rest);
    Raise(PREFIX, level, t + rest, x, rest);
  }

  lemma {:induction false} OperandExpression(t: seq<Token>, x: Ast, s: Symbol, rest: seq<Token>)
    requires Operand(t, x) && s in {RParen, RBracket, RBrace, Comma, Colon, Semicolon, Bar}
    ensures Expression(t + ([Sym(s)] + rest)) == Ok(x, [Sym(s)] + rest)
  {
    hide ParseAt;
    Stops(0, s, rest);
    OperandAt(t, x, 0, [Sym(s)] + rest);
    Levels(0, t + ([Sym(s)] + rest));
  }

  /** Anything in parentheses is a primary. */
  lemma {:induction false} ParenthesesRead(t: seq<Token>, x: Ast)
    requires forall rest :: FilterChain(t + ([Sym(RParen)] + rest)) == Ok(x, [Sym(RParen)] + rest)
    ensures Primary([Sym(LParen)] + t + [Sym(RParen)], x)
  {
    hide Atom, FilterChain, Postfixes;
    forall rest ensures PrimaryOf([Sym(LParen)] + t + [Sym(RParen)] + rest) == Postfixes(x, rest) {
      assert [Sym(LParen)] + t + [Sym(RParen)] + rest == [Sym(LParen)] + (t + ([Sym(RParen)] + rest));
      StepParen(t + ([Sym(RParen)] + rest), x, rest);
    }
  }

  // ------------------------------------------------------------------------- infix operators

  lemma {:induction false} ClassLevel(op: Symbol, n: nat)
    requires n < 6 && op in CLASSES[n]
    ensures InfixLevel(op) == n + 2
  {
  }

  lemma {:induction false} WholeStatement(ts: seq<Token>, t: seq<Token>, x: Ast, more: seq<Token>, e: Ast)
    requires ts == t + more && Operand(t, x) && Expression(ts) == Ok(e, [])
    ensures ParseProgram(ts) == Ok([e], [])
  {
    hide Expression, Operand, FilterChain, Filters;
    OperandOpens(t, x);
    StepChain(ts, e, []);
    EndFilters(e, []);
    LastStatement(ts, e);
  }

  lemma {:induction false} ToExpression(level: nat, ts: seq<Token>, e: Ast)
    requires level <= PREFIX && ParseAt(level, ts) == Ok(e, [])
    ensures Expression(ts) == Ok(e, [])
  {
    hide ParseAt, Continues;
    NothingStops(level);
    NothingStops(0);
    Raise(level, 0, ts, e, []);
    Levels(0, ts);
  }

  /** One operator, followed by something its level does not take. */
  lemma {:induction false} OneOperator(n: nat, op: Symbol, t: seq<Token>, x: Ast, u: seq<Token>, y: Ast, rest: seq<Token>)
    requires n < 6 && op in CLASSES[n] && Operand(t, x) && Operand(u, y) && !Continues(n + 3, rest)
    ensures Level(n + 2, t + [Sym(op)] + u + rest) == Infixes(n + 2, Infix(op, x, y), rest)
  {
    hide ParseAt, Level, Infixes, Operand, Continues, InfixLevel;
    var more := [Sym(op)] + (u + rest);
    ClassLevel(op, n);
    OperatorStops(n, op, n + 3, u + rest);
    OperandAt(t, x, n + 3, more);
    OperandAt(u, y, n + 3, rest);
    Levels(n + 3, t + more);
    Levels(n + 3, u + rest);
    StepLevel(n + 2, t + more, x, more);
    StepInfix(n + 2, x, op, y, u + rest, rest);
    assert t + [Sym(op)] + u + rest == t + more;
  }

  lemma {:induction false} InfixRead(n: nat, op: Symbol, t: seq<Token>, x: Ast, u: seq<Token>, y: Ast, rest: seq<Token>)
    requires n < 6 && op in CLASSES[n] && Operand(t, x) && Operand(u, y) && !Continues(n + 2, rest)
    ensures ParseAt(n + 2, t + [Sym(op)] + u + rest) == Ok(Infix(op, x, y), rest)
  {
    hide ParseAt, Level, Infixes, Operand, Continues, InfixLevel;
    StopsAbove(n + 2, n + 3, rest);
    OneOperator(n, op, t, x, u, y, rest);
    EndInfixes(n + 2, Infix(op, x, y), rest);
    Levels(n + 2, t + [Sym(op)] + u + rest);
  }

  /** Precedence and associativity: of two operators the one of the later class takes the operand
    * between them, and the first one if both are of the same class. */
  lemma {:induction false} Precedence(n: nat, op: Symbol, m: nat, op': Symbol, t: seq<Token>, x: Ast, u: seq<Token>, y: Ast, v: seq<Token>, z: Ast)
    requires n < 6 && op in CLASSES[n] && m < 6 && op' in CLASSES[m]
    requires Operand(t, x) && Operand(u, y) && Operand(v, z)
    ensures ParseProgram(t + [Sym(op)] + u + [Sym(op')] + v) ==
            Ok([if m > n then Infix(op, x, Infix(op', y, z)) else Infix(op', Infix(op, x, y), z)], [])
  {
    if m > n {
      LaterTakes(n, op, m, op', t, x, u, y, v, z);
    } else {
      FirstTakes(n, op, m, op', t, x, u, y, v, z);
    }
  }

  lemma {:induction false} LaterTakes(n: nat, op: Symbol, m: nat, op': Symbol, t: seq<Token>, x: Ast, u: seq<Token>, y: Ast, v: seq<Token>, z: Ast)
    requires n < m < 6 && op in CLASSES[n] && op' in CLASSES[m] && Operand(t, x) && Operand(u, y) && Operand(v, z)
    ensures ParseProgram(t + [Sym(op)] + u + [Sym(op')] + v) == Ok([Infix(op, x, Infix(op', y, z))], [])
  {
    hide ParseAt, Level, Infixes, Expression, Operand, ParseProgram, Continues, InfixLevel;
    var ts := t + [Sym(op)] + u + [Sym(op')] + v;
    var tail := u + [Sym(op')] + v;
    var more := [Sym(op)] + tail;
    var right := Infix(op', y, z);
    assert tail + [] == tail && ts == t + more;
    NothingStops(m + 2);
    NothingStops(n + 3);
    NothingStops(n + 2);
    InfixRead(m, op', u, y, v, z, []);
    Raise(m + 2, n + 3, tail, right, []);
    Levels(n + 3, tail);
    OperatorStops(n, op, n + 3, tail);
    OperandAt(t, x, n + 3, more);
    Levels(n + 3, ts);
    StepLevel(n + 2, ts, x, more);
    ClassLevel(op, n);
    StepInfix(n + 2, x, op, right, tail, []);
    EndInfixes(n + 2, Infix(op, x, right), []);
    Levels(n + 2, ts);
    ToExpression(n + 2, ts, Infix(op, x, right));
    WholeStatement(ts, t, x, more, Infix(op, x, right));
  }

  lemma {:induction false} FirstTakes(n: nat, op: Symbol, m: nat, op': Symbol, t: seq<Token>, x: Ast, u: seq<Token>, y: Ast, v: seq<Token>, z: Ast)
    requires m <= n < 6 && op in CLASSES[n] && op' in CLASSES[m] && Operand(t, x) && Operand(u, y) && Operand(v, z)
    ensures ParseProgram(t + [Sym(op)] + u + [Sym(op')] + v) == Ok([Infix(op', Infix(op, x, y), z)], [])
  {
    hide ParseAt, Level, Infixes, Expression, Operand, ParseProgram, Continues, InfixLevel;
    var first, rest := Infix(op, x, y), [Sym(op')] + v;
    var whole := Infix(op', first, z);
    var ts := t + [Sym(op)] + u + rest;
    assert t + [Sym(op)] + u + [Sym(op')] + v == ts;
    FirstAt(n, op, m, op', t, x, u, y, v);
    SecondAt(m, op', ts, first, v, z);
    ToExpression(m + 2, ts, whole);
    assert ts == t + ([Sym(op)] + u + rest);
    WholeStatement(ts, t, x, [Sym(op)] + u + rest, whole);
  }

  /** The first operator is read before the second one is looked at. */
  lemma {:induction false} FirstAt(n: nat, op: Symbol, m: nat, op': Symbol, t: seq<Token>, x: Ast, u: seq<Token>, y: Ast, v: seq<Token>)
    requires m <= n < 6 && op in CLASSES[n] && op' in CLASSES[m] && Operand(t, x) && Operand(u, y)
    ensures var rest := [Sym(op')] + v;
            Level(m + 2, t + [Sym(op)] + u + rest) == Infixes(m + 2, Infix(op, x, y), rest)
  {
    hide ParseAt, Level, Infixes, Operand, Continues, InfixLevel;
    var first, rest := Infix(op, x, y), [Sym(op')] + v;
    var ts := t + [Sym(op)] + u + rest;
    OperatorStops(m, op', n + 3, v);
    OneOperator(n, op, t, x, u, y, rest);
    if m < n {
      OperatorStops(m, op', n + 2, v);
      OperatorStops(m, op', m + 3, v);
      EndInfixes(n + 2, first, rest);
      Levels(n + 2, ts);
      Raise(n + 2, m + 3, ts, first, rest);
      Levels(m + 3, ts);
      StepLevel(m + 2, ts, first, rest);
    }
  }

  lemma {:induction false} SecondAt(m: nat, op: Symbol, ts: seq<Token>, first: Ast, v: seq<Token>, z: Ast)
    requires m < 6 && op in CLASSES[m] && Operand(v, z) && Level(m + 2, ts) == Infixes(m + 2, first, [Sym(op)] + v)
    ensures ParseAt(m + 2, ts) == Ok(Infix(op, first, z), [])
  {
    hide ParseAt, Level, Infixes, Operand, Continues, InfixLevel;
    assert v + [] == v;
    NothingStops(m + 3);
    NothingStops(m + 2);
    OperandAt(v, z, m + 3, []);
    Levels(m + 3, v);
    ClassLevel(op, m);
    StepInfix(m + 2, first, op, z, v, []);
    EndInfixes(m + 2, Infix(op, first, z), []);
    Levels(m + 2, ts);
  }

  /** Parentheses hold an infix expression together. */
  lemma {:induction false} GroupRead(n: nat, op: Symbol, t: seq<Token>, x: Ast, u: seq<Token>, y: Ast)
    requires n < 6 && op in CLASSES[n] && Operand(t, x) && Operand(u, y)
    ensures Primary([Sym(LParen)] + (t + [Sym(op)] + u) + [Sym(RParen)], Infix(op, x, y))
  {
    hide ParseAt, Level, Infixes, Operand, Continues, InfixLevel, FilterChain, Filters, Expression, Primary;
    forall rest ensures FilterChain(t + [Sym(op)] + u + ([Sym(RParen)] + rest)) == Ok(Infix(op, x, y), [Sym(RParen)] + rest) {
      var ts, end := t + [Sym(op)] + u + ([Sym(RParen)] + rest), [Sym(RParen)] + rest;
      Stops(n + 2, RParen, rest);
      Stops(0, RParen, rest);
      InfixRead(n, op, t, x, u, y, end);
      Raise(n + 2, 0, ts, Infix(op, x, y), end);
      Levels(0, ts);
      StepChain(ts, Infix(op, x, y), end);
      EndFilters(Infix(op, x, y), end);
    }
    ParenthesesRead(t + [Sym(op)] + u, Infix(op, x, y));
  }

  // -------------------------------------------------------- conditionals, assignments, filters

  lemma {:induction false} ThenStops(s: Symbol, us: seq<Token>)
    requires s == Question || s == Equals
    ensures !Continues(OR, [Sym(s)] + us)
  {
  }

  lemma {:induction false} OperandLast(t: seq<Token>, x: Ast)
    requires Operand(t, x)
    ensures Expression(t) == Ok(x, []) && Ternary(t) == Ok(x, [])
  {
    hide ParseAt;
    assert t + [] == t;
    OperandAt(t, x, 0, []);
    OperandAt(t, x, 1, []);
    Levels(0, t);
    Levels(1, t);
  }

  /** The test comes first, then the branch for true, then the one for false, which goes as far as it can. */
  lemma {:induction false} CondExpression(t: seq<Token>, x: Ast, u: seq<Token>, y: Ast, v: seq<Token>, z: Ast)
    requires Operand(t, x) && Operand(u, y) && Expression(v) == Ok(z, [])
    ensures Ternary(t + [Sym(Question)] + u + [Sym(Colon)] + v) == Ok(Cond(x, y, z), [])
    ensures Expression(t + [Sym(Question)] + u + [Sym(Colon)] + v) == Ok(Cond(x, y, z), [])
  {
    hide ParseAt, Level, Expression, Ternary, Operand;
    var us := u + ([Sym(Colon)] + v);
    var ts := t + ([Sym(Question)] + us);
    ThenStops(Question, us);
    OperandAt(t, x, OR, [Sym(Question)] + us);
    Levels(OR, ts);
    OperandExpression(u, y, Colon, v);
    StepCond(ts, x, us, y, v, z, []);
    FromTernary(ts, Cond(x, y, z), []);
    assert t + [Sym(Question)] + u + [Sym(Colon)] + v == ts;
  }

  lemma {:induction false} AssignExpression(t: seq<Token>, x: Ast, v: seq<Token>, z: Ast)
    requires Operand(t, x) && Expression(v) == Ok(z, [])
    ensures Expression(t + [Sym(Equals)] + v) == Ok(Assign(x, z), [])
  {
    hide ParseAt, Level, Expression, Ternary, Operand;
    var more := [Sym(Equals)] + v;
    ThenStops(Equals, v);
    OperandAt(t, x, OR, more);
    Levels(OR, t + more);
    FromLevel(t + more, x, more);
    StepAssign(t + more, x, v, z, []);
    assert t + [Sym(Equals)] + v == t + more;
  }

  /** A conditional, one in the last branch of another, an assignment in it, an assignment of an
    * assignment and of a conditional. */
  lemma {:induction false} FormsRead(a: seq<Token>, p: Ast, b: seq<Token>, q: Ast, c: seq<Token>, r: Ast, d: seq<Token>, s: Ast, e: seq<Token>, o: Ast)
    requires Operand(a, p) && Operand(b, q) && Operand(c, r) && Operand(d, s) && Operand(e, o)
    ensures ParseProgram(a + [Sym(Question)] + b + [Sym(Colon)] + c) == Ok([Cond(p, q, r)], [])
    ensures ParseProgram(a + [Sym(Question)] + b + [Sym(Colon)] + (c + [Sym(Question)] + d + [Sym(Colon)] + e)) ==
            Ok([Cond(p, q, Cond(r, s, o))], [])
    ensures ParseProgram(a + [Sym(Question)] + b + [Sym(Colon)] + (c + [Sym(Equals)] + d)) == Ok([Cond(p, q, Assign(r, s))], [])
    ensures ParseProgram(a + [Sym(Equals)] + b) == Ok([Assign(p, q)], [])
    ensures ParseProgram(a + [Sym(Equals)] + (b + [Sym(Equals)] + c)) == Ok([Assign(p, Assign(q, r))], [])
    ensures ParseProgram(a + [Sym(Equals)] + (b + [Sym(Question)] + c + [Sym(Colon)] + d)) == Ok([Assign(p, Cond(q, r, s))], [])
  {
    hide Expression, Ternary, Operand, ParseProgram;
    OperandLast(b, q);
    OperandLast(c, r);
    OperandLast(d, s);
    OperandLast(e, o);
    CondStatement(a, p, b, q, c, r);
    CondExpression(c, r, d, s, e, o);
    CondStatement(a, p, b, q, c + [Sym(Question)] + d + [Sym(Colon)] + e, Cond(r, s, o));
    AssignExpression(c, r, d, s);
    CondStatement(a, p, b, q, c + [Sym(Equals)] + d, Assign(r, s));
    AssignStatement(a, p, b, q);
    AssignExpression(b, q, c, r);
    AssignStatement(a, p, b + [Sym(Equals)] + c, Assign(q, r));
    CondExpression(b, q, c, r, d, s);
    AssignStatement(a, p, b + [Sym(Question)] + c + [Sym(Colon)] + d, Cond(q, r, s));
  }

  lemma {:induction false} CondStatement(t: seq<Token>, x: Ast, u: seq<Token>, y: Ast, v: seq<Token>, z: Ast)
    requires Operand(t, x) && Operand(u, y) && Expression(v) == Ok(z, [])
    ensures ParseProgram(t + [Sym(Question)] + u + [Sym(Colon)] + v) == Ok([Cond(x, y, z)], [])
  {
    hide Expression, Operand, ParseProgram, Ternary;
    CondExpression(t, x, u, y, v, z);
    var ts := t + [Sym(Question)] + u + [Sym(Colon)] + v;
    assert ts == t + ([Sym(Question)] + u + [Sym(Colon)] + v);
    WholeStatement(ts, t, x, [Sym(Question)] + u + [Sym(Colon)] + v, Cond(x, y, z));
  }

  lemma {:induction false} AssignStatement(t: seq<Token>, x: Ast, v: seq<Token>, z: Ast)
    requires Operand(t, x) && Expression(v) == Ok(z, [])
    ensures ParseProgram(t + [Sym(Equals)] + v) == Ok([Assign(x, z)], [])
  {
    hide Expression, Operand, ParseProgram, Ternary;
    AssignExpression(t, x, v, z);
    assert t + [Sym(Equals)] + v == t + ([Sym(Equals)] + v);
    WholeStatement(t + [Sym(Equals)] + v, t, x, [Sym(Equals)] + v, Assign(x, z));
  }

  /** A conditional's test and last branch, and what is assigned, are whole infix expressions. */
  lemma {:induction false} InfixInForms(n: nat, op: Symbol, t: seq<Token>, x: Ast, t': seq<Token>, x': Ast,
      u: seq<Token>, y: Ast, v: seq<Token>, z: Ast, v': seq<Token>, z': Ast)
    requires n < 6 && op in CLASSES[n]
    requires Operand(t, x) && Operand(t', x') && Operand(u, y) && Operand(v, z) && Operand(v', z')
    ensures ParseProgram(t + [Sym(op)] + t' + ([Sym(Question)] + u + [Sym(Colon)] + v)) == Ok([Cond(Infix(op, x, x'), y, z)], [])
    ensures ParseProgram(t + [Sym(Question)] + u + [Sym(Colon)] + (v + [Sym(op)] + v')) == Ok([Cond(x, y, Infix(op, z, z'))], [])
    ensures ParseProgram(t + [Sym(Equals)] + (v + [Sym(op)] + v')) == Ok([Assign(x, Infix(op, z, z'))], [])
  {
    hide Expression, Operand, ParseProgram, Ternary, Level, ParseAt;
    InfixRead(n, op, v, z, v', z', []);
    assert v + [Sym(op)] + v' + [] == v + [Sym(op)] + v';
    ToExpression(n + 2, v + [Sym(op)] + v', Infix(op, z, z'));
    CondStatement(t, x, u, y, v + [Sym(op)] + v', Infix(op, z, z'));
    AssignStatement(t, x, v + [Sym(op)] + v', Infix(op, z, z'));
    InfixTest(n, op, t, x, t', x', u, y, v, z);
  }

  lemma {:induction false} InfixTest(n: nat, op: Symbol, t: seq<Token>, x: Ast, t': seq<Token>, x': Ast, u: seq<Token>, y: Ast, v: seq<Token>, z: Ast)
    requires n < 6 && op in CLASSES[n] && Operand(t, x) && Operand(t', x') && Operand(u, y) && Operand(v, z)
    ensures ParseProgram(t + [Sym(op)] + t' + ([Sym(Question)] + u + [Sym(Colon)] + v)) == Ok([Cond(Infix(op, x, x'), y, z)], [])
  {
    hide Expression, Operand, ParseProgram, Ternary, Level, ParseAt, Continues, InfixLevel;
    var us := u + ([Sym(Colon)] + v);
    var rest := [Sym(Question)] + us;
    var ts := t + [Sym(op)] + t' + rest;
    ThenStops(Question, us);
    StopsAbove(OR, n + 2, rest);
    InfixRead(n, op, t, x, t', x', rest);
    Raise(n + 2, OR, ts, Infix(op, x, x'), rest);
    Levels(OR, ts);
    OperandExpression(u, y, Colon, v);
    OperandLast(v, z);
    StepCond(ts, Infix(op, x, x'), us, y, v, z, []);
    FromTernary(ts, Cond(Infix(op, x, x'), y, z), []);
    assert rest == [Sym(Question)] + u + [Sym(Colon)] + v;
    assert ts == t + ([Sym(op)] + t' + rest);
    WholeStatement(ts, t, x, [Sym(op)] + t' + rest, Cond(Infix(op, x, x'), y, z));
  }

  /** The arguments of a filter, each behind a colon. */
  function Colons(ts: seq<seq<Token>>): seq<Token> {
    if ts == [] then [] else [Sym(Colon)] + ts[0] + Colons(ts[1..])
  }

  /** A filter takes what stands before it, and its arguments in their order; a second one takes the
    * result of the first. */
  lemma {:induction false} FiltersRead(t: seq<Token>, x: Ast, name: Text, ts: seq<seq<Token>>, xs: seq<Ast>, name': Text, us: seq<seq<Token>>, ys: seq<Ast>)
    requires Operand(t, x) && Operands(ts, xs) && Operands(us, ys)
    ensures ParseProgram(t + ([Sym(Bar), Name(name)] + (Colons(ts) + ([Sym(Bar), Name(name')] + (Colons(us) + []))))) ==
            Ok([Filter(Filter(x, name, xs), name', ys)], [])
  {
    hide Expression, Operand, FilterChain, Filters, FilterArgs, Program;
    var second := [Sym(Bar), Name(name')] + (Colons(us) + []);
    var rest := [Sym(Bar), Name(name)] + (Colons(ts) + second);
    assert rest == [Sym(Bar)] + ([Name(name)] + (Colons(ts) + second));
    OperandExpression(t, x, Bar, [Name(name)] + (Colons(ts) + second));
    StepChain(t + rest, x, rest);
    FilterArgsAre(ts, xs, second);
    StepFilter(x, name, xs, Colons(ts) + second, second);
    FilterArgsAre(us, ys, []);
    StepFilter(Filter(x, name, xs), name', ys, Colons(us) + [], []);
    EndFilters(Filter(Filter(x, name, xs), name', ys), []);
    OperandOpens(t, x);
    LastStatement(t + rest, Filter(Filter(x, name, xs), name', ys));
  }

  lemma {:induction false} FilterArgsAre(ts: seq<seq<Token>>, xs: seq<Ast>, rest: seq<Token>)
    requires Operands(ts, xs) && (rest == [] || Starts(rest, Bar))
    ensures FilterArgs(Colons(ts) + rest) == Ok(xs, rest)
    decreases |ts|
  {
    hide Expression, Operand, FilterArgs;
    if ts == [] {
      assert Colons(ts) + rest == rest;
      NoArgs(rest);
    } else {
      var more := Colons(ts[1..]) + rest;
      FilterArgsAre(ts[1..], xs[1..], rest);
      BeforeColons(ts[0], xs[0], ts[1..], rest);
      StepArg(xs[0], ts[0] + more, more, xs[1..], rest);
      assert Colons(ts) + rest == [Sym(Colon)] + (ts[0] + more);
      assert [xs[0]] + xs[1..] == xs;
    }
  }

  lemma {:induction false} BeforeColons(t: seq<Token>, x: Ast, ts: seq<seq<Token>>, rest: seq<Token>)
    requires Operand(t, x) && (rest == [] || Starts(rest, Bar))
    ensures Expression(t + (Colons(ts) + rest)) == Ok(x, Colons(ts) + rest)
  {
    hide Expression, Operand, ParseAt;
    var more := Colons(ts) + rest;
    assert !Continues(0, more) by {
      if ts == [] { assert more == rest; } else { assert more[0] == Sym(Colon); }
    }
    OperandAt(t, x, 0, more);
    Levels(0, t + more);
  }

  /** Statements in their order; semicolons between them, any number. */
  lemma {:induction false} StatementsRead(t: seq<Token>, x: Ast, us: seq<Token>, more: seq<Ast>)
    requires Operand(t, x) && ParseProgram(us) == Ok(more, [])
    ensures ParseProgram(t + [Sym(Semicolon)] + us) == Ok([x] + more, [])
    ensures ParseProgram([Sym(Semicolon)] + us) == Ok(more, [])
  {
    hide Expression, Operand, FilterChain, Filters;
    var rest := [Sym(Semicolon)] + us;
    OperandExpression(t, x, Semicolon, us);
    StepChain(t + rest, x, rest);
    EndFilters(x, rest);
    OperandOpens(t, x);
    assert t + [Sym(Semicolon)] + us == t + rest;
    StepStatement(t + rest, x, us, more);
    assert rest[1..] == us;
  }

  // ---------------------------------------------------------------------------------- errors

  /** A token that no form goes on with is the error, and the first one that is left. */
  lemma {:induction false} LeftoverIsError(t: seq<Token>, x: Ast, s: Symbol, rest: seq<Token>)
    requires Operand(t, x) && s in {RParen, RBracket, RBrace, Comma, Colon}
    ensures ParseProgram(t + ([Sym(s)] + rest)) == Err(Syntax(Sym(s)))
  {
    hide Expression, Operand, FilterChain, Filters;
    var end := [Sym(s)] + rest;
    OperandExpression(t, x, s, rest);
    StepChain(t + end, x, end);
    EndFilters(x, end);
    OperandOpens(t, x);
    StatementThenEnd(t + end, x, end);
  }

  lemma {:induction false} StatementThenEnd(ts: seq<Token>, e: Ast, rest: seq<Token>)
    requires ts != [] && Opens(ts[0]) && FilterChain(ts) == Ok(e, rest) && !Starts(rest, Semicolon)
    ensures Program(ts) == Ok([e], rest)
  {
    hide FilterChain;
  }

  /** A parenthesis that is not closed, or closed by something else, is an error at the end or there. */
  lemma {:induction false} UnclosedIsError(t: seq<Token>, x: Ast, s: Symbol, rest: seq<Token>)
    requires Operand(t, x) && s in {RBracket, RBrace, Comma, Colon, Semicolon}
    ensures ParseProgram([Sym(LParen)] + t) == Err(EndOfExpression)
    ensures ParseProgram([Sym(LParen)] + (t + ([Sym(s)] + rest))) == Err(Syntax(Sym(s)))
  {
    hide Expression, Operand, FilterChain, Filters, ParseProgram;
    var end := [Sym(s)] + rest;
    OperandLast(t, x);
    StepChain(t, x, []);
    EndFilters(x, []);
    Unclosed(t, x, []);
    OperandExpression(t, x, s, rest);
    StepChain(t + end, x, end);
    EndFilters(x, end);
    Unclosed(t + end, x, end);
  }

  lemma {:induction false} Unclosed(ts: seq<Token>, x: Ast, rest: seq<Token>)
    requires FilterChain(ts) == Ok(x, rest) && !Starts(rest, RParen)
    ensures ParseProgram([Sym(LParen)] + ts) == Err(if rest == [] then EndOfExpression else Syntax(rest[0]))
  {
    hide Filters, Elements, Properties;
    var all := [Sym(LParen)] + ts;
    assert all[1..] == ts;
    var e := if rest == [] then EndOfExpression else Syntax(rest[0]);
    AtomFails(ts, x, rest);
    FailsUp(all, e);
  }

  lemma {:induction false} AtomFails(ts: seq<Token>, x: Ast, rest: seq<Token>)
    requires FilterChain(ts) == Ok(x, rest) && !Starts(rest, RParen)
    ensures Atom([Sym(LParen)] + ts) == Err(if rest == [] then EndOfExpression else Syntax(rest[0]))
  {
    hide FilterChain;
    assert ([Sym(LParen)] + ts)[1..] == ts;
  }

  /** The error of the first primary is the error of the program. */
  lemma {:induction false} FailsUp(ts: seq<Token>, e: Error)
    requires ts != [] && Opens(ts[0]) && Atom(ts) == Err(e) && !(ts[0].Sym? && IsPrefix(ts[0].symbol))
    ensures ParseProgram(ts) == Err(e)
  {
    hide Atom, Infixes, Filters;
    assert Unary(ts) == Err(e);
    LevelFails(OR, ts, e);
    assert Ternary(ts) == Err(e);
    assert Expression(ts) == Err(e);
    assert FilterChain(ts) == Err(e);
    assert Program(ts) == Err(e);
  }

  lemma {:induction false} LevelFails(level: nat, ts: seq<Token>, e: Error)
    requires OR <= level <= PREFIX && Unary(ts) == Err(e)
    ensures Level(level, ts) == Err(e)
    decreases PREFIX - level
  {
    hide Unary, Infixes;
    if level < PREFIX { LevelFails(level + 1, ts, e); }
  }

  /** An operator without an operand behind it, and a text that ends too early. */
  lemma {:induction false} MissingOperandIsError(op: Symbol)
    requires op in {PlusSign, MinusSign, Bang}
    ensures ParseProgram([Sym(op)]) == Err(EndOfExpression)
  {
    hide Infixes, Filters;
    var ts := [Sym(op)];
    assert ts[1..] == [];
    assert Atom([]) == Err(EndOfExpression);
    assert Unary([]) == Err(EndOfExpression);
    assert Unary(ts) == Err(EndOfExpression);
    LevelFails(OR, ts, EndOfExpression);
    assert Expression(ts) == Err(EndOfExpression);
    assert FilterChain(ts) == Err(EndOfExpression);
  }

  /** Brackets, braces and calls that the text ends in: always the end of the expression, but for a comma
    * between properties, behind which a key is missed. */
  lemma {:induction false} CutOffIsError(t: seq<Token>, x: Ast, key: Token)
    requires Operand(t, x) && !key.Sym?
    ensures ParseProgram([Sym(LBracket)]) == Err(EndOfExpression)
    ensures ParseProgram([Sym(LBracket)] + (t + [Sym(Comma)])) == Err(EndOfExpression)
    ensures ParseProgram([Sym(LBrace)]) == Err(EndOfExpression)
    ensures ParseProgram([Sym(LBrace)] + [key]) == Err(EndOfExpression)
    ensures ParseProgram([Sym(LBrace)] + ([key, Sym(Colon)] + (t + [Sym(Comma)]))) == Err(MissingKey)
  {
    hide Expression, Operand, Elements, Properties, ParseProgram, Atom;
    ListCutOff(t, x);
    FailsUp([Sym(LBracket)], EndOfExpression);
    FailsUp([Sym(LBracket)] + (t + [Sym(Comma)]), EndOfExpression);
    ObjectCutOff(t, x, key);
    FailsUp([Sym(LBrace)], EndOfExpression);
    FailsUp([Sym(LBrace)] + [key], EndOfExpression);
    FailsUp([Sym(LBrace)] + ([key, Sym(Colon)] + (t + [Sym(Comma)])), MissingKey);
  }

  lemma {:induction false} ListCutOff(t: seq<Token>, x: Ast)
    requires Operand(t, x)
    ensures Atom([Sym(LBracket)]) == Err(EndOfExpression)
    ensures Atom([Sym(LBracket)] + (t + [Sym(Comma)])) == Err(EndOfExpression)
  {
    hide Expression, Operand;
    EndsNowhere();
    OperandExpression(t, x, Comma, []);
    OperandOpens(t, x);
    assert t + ([Sym(Comma)] + []) == t + [Sym(Comma)];
    assert Elements([]) == Err(EndOfExpression);
    assert [Sym(Comma)][1..] == [];
    assert Elements(t + [Sym(Comma)]) == Err(EndOfExpression);
    assert ([Sym(LBracket)] + (t + [Sym(Comma)]))[1..] == t + [Sym(Comma)];
    assert [Sym(LBracket)][1..] == [];
  }

  lemma {:induction false} EndsNowhere()
    ensures Expression([]) == Err(EndOfExpression)
  {
    hide Infixes;
    assert Atom([]) == Err(EndOfExpression);
    assert Unary([]) == Err(EndOfExpression);
    LevelFails(OR, [], EndOfExpression);
    assert Ternary([]) == Err(EndOfExpression);
  }

  lemma {:induction false} ObjectCutOff(t: seq<Token>, x: Ast, key: Token)
    requires Operand(t, x) && !key.Sym?
    ensures Atom([Sym(LBrace)]) == Err(EndOfExpression)
    ensures Atom([Sym(LBrace)] + [key]) == Err(EndOfExpression)
    ensures Atom([Sym(LBrace)] + ([key, Sym(Colon)] + (t + [Sym(Comma)]))) == Err(MissingKey)
  {
    hide Expression, Operand;
    OperandExpression(t, x, Comma, []);
    assert t + ([Sym(Comma)] + []) == t + [Sym(Comma)];
    var ps := [key, Sym(Colon)] + (t + [Sym(Comma)]);
    assert ps[2..] == t + [Sym(Comma)] && ps[1..][0] == Sym(Colon);
    assert [Sym(Comma)][1..] == [];
    assert Properties([]) == Err(MissingKey);
    assert Properties(ps) == Err(MissingKey);
    assert ([Sym(LBrace)] + ps)[1..] == ps;
    assert [key][1..] == [];
    assert Properties([key]) == Err(EndOfExpression);
    assert ([Sym(LBrace)] + [key])[1..] == [key];
  }

  /** A symbol where a key should be, and anything but a colon behind a key. */
  lemma {:induction false} BadKeyIsError(s: Symbol, key: Token, other: Token, rest: seq<Token>)
    requires s != RBrace && !key.Sym? && other != Sym(Colon)
    ensures ParseProgram([Sym(LBrace)] + ([Sym(s)] + rest)) == Err(Syntax(Sym(s)))
    ensures ParseProgram([Sym(LBrace)] + ([key, other] + rest)) == Err(Syntax(other))
  {
    hide ParseProgram, Expression;
    var a, b := [Sym(s)] + rest, [key, other] + rest;
    assert ([Sym(LBrace)] + a)[1..] == a && ([Sym(LBrace)] + b)[1..] == b;
    assert b[1..][0] == other;
    assert Properties(a) == Err(Syntax(Sym(s)));
    assert Properties(b) == Err(Syntax(other));
    FailsUp([Sym(LBrace)] + a, Syntax(Sym(s)));
    FailsUp([Sym(LBrace)] + b, Syntax(other));
  }

  lemma {:induction false} EmptyStatements(n: nat)
    ensures ParseProgram(seq(n, _ => Sym(Semicolon))) == Ok([], [])
    decreases n
  {
    var ts := seq(n, _ => Sym(Semicolon));
    if n > 0 {
      EmptyStatements(n - 1);
      assert ts[1..] == seq(n - 1, _ => Sym(Semicolon));
    }
  }
}
