/** The parser as it runs: it shifts tokens off the front of one list, with loops where the grammar
  * repeats.  Every method does what the function of the same name in `Syntax` says. */
module ParserLoops {
  import opened Syntax

  datatype Outcome<T> = Value(v: T) | Throws(error: Error)

  class Parser {
    var tokens: seq<Token>

    constructor (tokens: seq<Token>)
      ensures this.tokens == tokens
    {
      this.tokens := tokens;
    }

    /** The result, and the tokens left if there is one. */
    ghost predicate Does<T>(r: Outcome<T>, p: Parsed<T>)
      reads this
    {
      match p
      case Ok(v, rest) => r == Value(v) && tokens == rest
      case Err(e) => r == Throws(e)
    }

    /** `expect(a)`. */
    method Expect(s: Symbol) returns (found: bool)
      modifies this
      ensures found == Starts(old(tokens), s)
      ensures tokens == if found then old(tokens)[1..] else old(tokens)
    {
      found := tokens != [] && tokens[0] == Sym(s);
      if found { tokens := tokens[1..]; }
    }

    /** `consume(a)`, with the error it throws. */
    method Consume(s: Symbol) returns (r: Outcome<()>)
      modifies this
      ensures Starts(old(tokens), s) ==> r == Value(()) && tokens == old(tokens)[1..]
      ensures !Starts(old(tokens), s) ==> r == Throws(Complaint(old(tokens)))
    {
      if tokens == [] { return Throws(EndOfExpression); }
      var found := Expect(s);
      if found { return Value(()); }
      return Throws(Syntax(tokens[0]));
    }

    /** `identifier()`, giving the name. */
    method Identifier() returns (r: Outcome<Text>)
      modifies this
      ensures old(tokens) != [] && old(tokens)[0].Name? ==> r == Value(old(tokens)[0].name) && tokens == old(tokens)[1..]
      ensures !(old(tokens) != [] && old(tokens)[0].Name?) ==> r == Throws(Complaint(old(tokens)))
    {
      if tokens == [] { return Throws(EndOfExpression); }
      var t := tokens[0];
      tokens := tokens[1..];
      if t.Name? { return Value(t.name); }
      return Throws(Syntax(t));
    }

    method ParseFilterChain() returns (r: Outcome<Ast>)
      modifies this
      ensures Does(r, FilterChain(old(tokens)))
      decreases |tokens|, 20
    {
      hide Expression, WellFormed;
      r := ParseExpression();
      if r.Throws? { return; }
      while Starts(tokens, Bar)
        invariant r.Value? && |tokens| < |old(tokens)|
        invariant FilterChain(old(tokens)) == Filters(r.v, tokens)
        decreases |tokens|
      {
        ghost var before, a := tokens, r.v;
        tokens := tokens[1..];
        var name := Identifier();
        if name.Throws? { return Throws(name.error); }
        assert tokens == before[2..];
        var args := ParseFilterArgs();
        if args.Throws? { return Throws(args.error); }
        r := Value(Filter(r.v, name.v, args.v));
      }
    }

    method ParseFilterArgs() returns (r: Outcome<seq<Ast>>)
      modifies this
      ensures Does(r, FilterArgs(old(tokens)))
      decreases |tokens|, 0
    {
      hide Expression, WellFormed, AllWellFormed;
      var args := [];
      ghost var all := FilterArgs(tokens);
      PrependNone(all);
      while Starts(tokens, Colon)
        invariant |tokens| <= |old(tokens)|
        invariant Prepended(all, args, FilterArgs(tokens))
        decreases |tokens|
      {
        ghost var before := tokens;
        tokens := tokens[1..];
        var a := ParseExpression();
        if a.Throws? { return Throws(a.error); }
        MoreFilterArgs(all, args, before, a.v, tokens);
        args := args + [a.v];
      }
      NoFilterArgs(tokens);
      assert args + [] == args;
      return Value(args);
    }

    method ParseExpression() returns (r: Outcome<Ast>)
      modifies this
      ensures Does(r, Expression(old(tokens)))
      decreases |tokens|, 12
    {
      hide Ternary, WellFormed;
      r := ParseTernary();
      if r.Throws? { return; }
      var assigns := Expect(Equals);
      if assigns {
        var right := ParseExpression();
        if right.Throws? { return right; }
        r := Value(Assign(r.v, right.v));
      }
    }

    method ParseTernary() returns (r: Outcome<Ast>)
      modifies this
      ensures Does(r, Ternary(old(tokens)))
      decreases |tokens|, 11
    {
      hide Level, Expression, WellFormed;
      r := ParseLevel(OR);
      if r.Throws? { return; }
      var asks := Expect(Question);
      if !asks { return; }
      var c := ParseExpression();
      if c.Throws? { return c; }
      var colon := Consume(Colon);
      if colon.Throws? { return Throws(colon.error); }
      var d := ParseExpression();
      if d.Throws? { return d; }
      r := Value(Cond(r.v, c.v, d.v));
    }

    /** `logicalOR` down to `multiplicative`, which differ only in their operators and in what they
      * call for an operand. */
    method ParseLevel(level: nat) returns (r: Outcome<Ast>)
      requires OR <= level <= PREFIX
      modifies this
      ensures Does(r, Level(level, old(tokens)))
      decreases |tokens|, 10 - level
    {
      hide Unary, WellFormed;
      if level == PREFIX {
        r := ParseUnary();
        return;
      }
      r := ParseLevel(level + 1);
      if r.Throws? { return; }
      while StartsInfix(tokens, level)
        invariant r.Value? && |tokens| < |old(tokens)|
        invariant Level(level, old(tokens)) == Infixes(level, r.v, tokens)
        decreases |tokens|
      {
        var op := tokens[0].symbol;
        tokens := tokens[1..];
        var b := ParseLevel(level + 1);
        if b.Throws? { return b; }
        r := Value(Infix(op, r.v, b.v));
      }
    }

    method ParseUnary() returns (r: Outcome<Ast>)
      modifies this
      ensures Does(r, Unary(old(tokens)))
      decreases |tokens|, 1
    {
      hide Atom, Postfixes, WellFormed;
      if tokens != [] && tokens[0].Sym? && IsPrefix(tokens[0].symbol) {
        var op := tokens[0].symbol;
        tokens := tokens[1..];
        var a := ParseUnary();
        if a.Throws? { return a; }
        return Value(Prefix(op, a.v));
      }
      r := ParsePrimary();
    }

    method ParsePrimary() returns (r: Outcome<Ast>)
      requires !(tokens != [] && tokens[0].Sym? && IsPrefix(tokens[0].symbol))
      modifies this
      ensures Does(r, Unary(old(tokens)))
      decreases |tokens|, 0, 1
    {
      hide Atom, Expression, Arguments, WellFormed;
      r := ParseAtom();
      if r.Throws? { return; }
      while tokens != [] && (tokens[0] == Sym(LParen) || tokens[0] == Sym(LBracket) || tokens[0] == Sym(Dot))
        invariant r.Value? && |tokens| < |old(tokens)|
        invariant Unary(old(tokens)) == Postfixes(r.v, tokens)
        decreases |tokens|
      {
        var s := tokens[0].symbol;
        ghost var before := tokens;
        tokens := tokens[1..];
        if s == LParen {
          var args := ParseArguments();
          if args.Throws? { return Throws(args.error); }
          var close := Consume(RParen);
          if close.Throws? { return Throws(close.error); }
          r := Value(Call(r.v, args.v));
        } else if s == LBracket {
          var p := ParseExpression();
          if p.Throws? { return p; }
          var close := Consume(RBracket);
          if close.Throws? { return Throws(close.error); }
          r := Value(Computed(r.v, p.v));
        } else {
          var name := Identifier();
          if name.Throws? { return Throws(name.error); }
          assert tokens == before[2..];
          r := Value(Member(r.v, name.v));
        }
      }
    }

    method ParseAtom() returns (r: Outcome<Ast>)
      modifies this
      ensures Does(r, Atom(old(tokens)))
      decreases |tokens|, 0, 0
    {
      hide FilterChain, Elements, Properties, WellFormed;
      if tokens == [] { return Throws(EndOfExpression); }
      var t := tokens[0];
      if !t.Sym? {
        tokens := tokens[1..];
        return Value(if t.Const? then Lit(t.constant) else if IsKeyword(t.name) then Keyword(t.name) else Ident(t.name));
      }
      if t.symbol != LParen && t.symbol != LBracket && t.symbol != LBrace { return Throws(Syntax(t)); }
      tokens := tokens[1..];
      if t.symbol == LParen {
        r := ParseFilterChain();
        if r.Throws? { return; }
        var close := Consume(RParen);
        if close.Throws? { return Throws(close.error); }
      } else if t.symbol == LBracket {
        var es := ParseElements();
        if es.Throws? { return Throws(es.error); }
        var close := Consume(RBracket);
        if close.Throws? { return Throws(close.error); }
        r := Value(Array(es.v));
      } else {
        if tokens == [] { return Throws(EndOfExpression); }
        var ps := ParseProperties();
        if ps.Throws? { return Throws(ps.error); }
        var close := Consume(RBrace);
        if close.Throws? { return Throws(close.error); }
        r := Value(Object(ps.v.0, ps.v.1));
      }
    }

    method ParseArguments() returns (r: Outcome<seq<Ast>>)
      modifies this
      ensures Does(r, Arguments(old(tokens)))
      decreases |tokens|, 15
    {
      hide Expression, WellFormed, AllWellFormed, Expressions;
      if tokens == [] { return Throws(EndOfExpression); }
      if Starts(tokens, RParen) { return Value([]); }
      var args, more := [], true;
      ghost var all := Expressions(tokens);
      PrependNone(all);
      while more
        invariant |tokens| <= |old(tokens)|
        invariant more ==> Prepended(all, args, Expressions(tokens))
        invariant !more ==> all == Ok(args, tokens)
        decreases |tokens|, more
      {
        ghost var before := tokens;
        var a := ParseExpression();
        if a.Throws? {
          FailedExpression(all, args, before);
          return Throws(a.error);
        }
        ghost var after := tokens;
        more := Expect(Comma);
        MoreExpressions(all, args, before, a.v, after);
        args := args + [a.v];
      }
      return Value(args);
    }

    method ParseElements() returns (r: Outcome<seq<Ast>>)
      modifies this
      ensures Does(r, Elements(old(tokens)))
      decreases |tokens|, 14
    {
      hide Expression, WellFormed, AllWellFormed, Elements;
      var es, more := [], true;
      ghost var all := Elements(tokens);
      PrependNone(all);
      while more
        invariant |tokens| <= |old(tokens)|
        invariant more ==> Prepended(all, es, Elements(tokens))
        invariant !more ==> all == Ok(es, tokens)
        decreases |tokens|, more
      {
        ghost var before := tokens;
        if Starts(tokens, RBracket) {
          LastElement(all, es, tokens);
          return Value(es);
        }
        var a := ParseExpression();
        if a.Throws? {
          FailedElement(all, es, before);
          return Throws(a.error);
        }
        ghost var after := tokens;
        more := Expect(Comma);
        MoreElements(all, es, before, a.v, after);
        es := es + [a.v];
      }
      return Value(es);
    }

    method ParseProperties() returns (r: Outcome<(seq<Key>, seq<Ast>)>)
      modifies this
      ensures Does(r, Properties(old(tokens)))
      decreases |tokens|, 14
    {
      hide Expression, WellFormed, AllWellFormed, Properties;
      var keys, values, more := [], [], true;
      ghost var all := Properties(tokens);
      BothNone(all);
      while more
        invariant |tokens| <= |old(tokens)|
        invariant more ==> Both(all, keys, values, Properties(tokens))
        invariant !more ==> all == Ok((keys, values), tokens)
        decreases |tokens|, more
      {
        ghost var before := tokens;
        PropertyErrors(all, keys, values, before);
        if Starts(tokens, RBrace) { return Value((keys, values)); }
        if tokens == [] { return Throws(MissingKey); }
        if tokens[0].Sym? { return Throws(Syntax(tokens[0])); }
        var key := if tokens[0].Name? then NameKey(tokens[0].name) else ConstKey(tokens[0].constant);
        tokens := tokens[1..];
        var colon := Consume(Colon);
        if colon.Throws? { return Throws(colon.error); }
        assert tokens == before[2..];
        var a := ParseExpression();
        if a.Throws? { return Throws(a.error); }
        ghost var after := tokens;
        more := Expect(Comma);
        MoreProperties(all, keys, values, before, key, a.v, after);
        keys, values := keys + [key], values + [a.v];
      }
      return Value((keys, values));
    }

    method ParseBody() returns (r: Outcome<seq<Ast>>)
      modifies this
      ensures Does(r, Program(old(tokens)))
    {
      hide FilterChain, WellFormed, AllWellFormed, Program;
      var body, more := [], true;
      ghost var all := Program(tokens);
      PrependNone(all);
      while more
        invariant |tokens| <= |old(tokens)|
        invariant more ==> Prepended(all, body, Program(tokens))
        invariant !more ==> all == Ok(body, tokens)
        decreases |tokens|, more
      {
        ghost var before := tokens;
        if tokens != [] && !Starts(tokens, RBrace) && !Starts(tokens, RParen) && !Starts(tokens, RBracket) &&
           !Starts(tokens, Semicolon) {
          var a := ParseFilterChain();
          if a.Throws? {
            FailedStatement(all, body, before);
            return Throws(a.error);
          }
          ghost var after := tokens;
          more := Expect(Semicolon);
          MoreStatements(all, body, before, a.v, after);
          body := body + [a.v];
        } else {
          more := Expect(Semicolon);
          EmptyStatement(all, body, before);
        }
      }
      return Value(body);
    }

    /** `ast`. */
    method Parse() returns (r: Outcome<seq<Ast>>)
      modifies this
      ensures Does(r, ParseProgram(old(tokens)))
    {
      hide Program;
      r := ParseBody();
      if r.Value? && tokens != [] { return Throws(Syntax(tokens[0])); }
    }
  }

  /** `all` is what comes of `p` after `xs` have been read. */
  ghost predicate Prepended<T>(all: Parsed<seq<T>>, xs: seq<T>, p: Parsed<seq<T>>) {
    match p
    case Ok(more, rest) => all == Ok(xs + more, rest)
    case Err(e) => all == Err(e)
  }

  lemma {:induction false} PrependNone<T>(p: Parsed<seq<T>>)
    ensures Prepended(p, [], p)
  {
    if p.Ok? { assert [] + p.value == p.value; }
  }

  lemma {:induction false} NoFilterArgs(ts: seq<Token>)
    requires !Starts(ts, Colon)
    ensures FilterArgs(ts) == Ok([], ts)
  {
  }

  lemma {:induction false} MoreFilterArgs(all: Parsed<seq<Ast>>, xs: seq<Ast>, ts: seq<Token>, a: Ast, us: seq<Token>)
    requires Prepended(all, xs, FilterArgs(ts)) && Starts(ts, Colon) && Expression(ts[1..]) == Ok(a, us)
    ensures Prepended(all, xs + [a], FilterArgs(us))
  {
    hide Expression;
    if FilterArgs(us).Ok? { assert xs + ([a] + FilterArgs(us).value) == xs + [a] + FilterArgs(us).value; }
  }

  lemma {:induction false} MoreExpressions(all: Parsed<seq<Ast>>, xs: seq<Ast>, ts: seq<Token>, a: Ast, us: seq<Token>)
    requires Prepended(all, xs, Expressions(ts)) && Expression(ts) == Ok(a, us)
    ensures if Starts(us, Comma) then Prepended(all, xs + [a], Expressions(us[1..])) else all == Ok(xs + [a], us)
  {
    hide Expression;
    if Starts(us, Comma) && Expressions(us[1..]).Ok? {
      var more := Expressions(us[1..]).value;
      assert xs + ([a] + more) == xs + [a] + more;
    }
  }

  lemma {:induction false} FailedExpression(all: Parsed<seq<Ast>>, xs: seq<Ast>, ts: seq<Token>)
    requires Prepended(all, xs, Expressions(ts)) && Expression(ts).Err?
    ensures all == Err(Expression(ts).error)
  {
    hide Expression;
  }

  lemma {:induction false} LastElement(all: Parsed<seq<Ast>>, xs: seq<Ast>, ts: seq<Token>)
    requires Prepended(all, xs, Elements(ts)) && Starts(ts, RBracket)
    ensures all == Ok(xs, ts)
  {
    assert xs + [] == xs;
  }

  lemma {:induction false} FailedElement(all: Parsed<seq<Ast>>, xs: seq<Ast>, ts: seq<Token>)
    requires Prepended(all, xs, Elements(ts)) && !Starts(ts, RBracket) && Expression(ts).Err?
    ensures all == Err(Expression(ts).error)
  {
    hide Expression;
  }

  lemma {:induction false} MoreElements(all: Parsed<seq<Ast>>, xs: seq<Ast>, ts: seq<Token>, a: Ast, us: seq<Token>)
    requires Prepended(all, xs, Elements(ts)) && !Starts(ts, RBracket) && Expression(ts) == Ok(a, us)
    ensures if Starts(us, Comma) then Prepended(all, xs + [a], Elements(us[1..])) else all == Ok(xs + [a], us)
  {
    hide Expression;
    if Starts(us, Comma) && Elements(us[1..]).Ok? {
      var more := Elements(us[1..]).value;
      assert xs + ([a] + more) == xs + [a] + more;
    }
  }

  /** The same for properties. */
  ghost predicate Both(all: Parsed<(seq<Key>, seq<Ast>)>, ks: seq<Key>, vs: seq<Ast>, p: Parsed<(seq<Key>, seq<Ast>)>) {
    match p
    case Ok(more, rest) => all == Ok((ks + more.0, vs + more.1), rest)
    case Err(e) => all == Err(e)
  }

  lemma {:induction false} BothNone(p: Parsed<(seq<Key>, seq<Ast>)>)
    ensures Both(p, [], [], p)
  {
    if p.Ok? { assert [] + p.value.0 == p.value.0 && [] + p.value.1 == p.value.1; }
  }

  lemma {:induction false} PropertyErrors(all: Parsed<(seq<Key>, seq<Ast>)>, ks: seq<Key>, vs: seq<Ast>, ts: seq<Token>)
    requires Both(all, ks, vs, Properties(ts))
    ensures Starts(ts, RBrace) ==> all == Ok((ks, vs), ts)
    ensures ts == [] ==> all == Err(MissingKey)
    ensures ts != [] && ts[0].Sym? && ts[0].symbol != RBrace ==> all == Err(Syntax(ts[0]))
    ensures ts != [] && !ts[0].Sym? && !Starts(ts[1..], Colon) ==> all == Err(Complaint(ts[1..]))
    ensures ts != [] && !ts[0].Sym? && Starts(ts[1..], Colon) && Expression(ts[2..]).Err? ==> all == Err(Expression(ts[2..]).error)
  {
    hide Expression;
    assert ks + [] == ks && vs + [] == vs;
  }

  lemma {:induction false} MoreProperties(all: Parsed<(seq<Key>, seq<Ast>)>, ks: seq<Key>, vs: seq<Ast>, ts: seq<Token>, k: Key, a: Ast,
                       us: seq<Token>)
    requires Both(all, ks, vs, Properties(ts)) && ts != [] && !ts[0].Sym? && Starts(ts[1..], Colon)
    requires k == if ts[0].Name? then NameKey(ts[0].name) else ConstKey(ts[0].constant)
    requires Expression(ts[2..]) == Ok(a, us)
    ensures if Starts(us, Comma) then Both(all, ks + [k], vs + [a], Properties(us[1..]))
            else all == Ok((ks + [k], vs + [a]), us)
  {
    hide Expression;
    if Starts(us, Comma) && Properties(us[1..]).Ok? {
      var more := Properties(us[1..]).value;
      assert ks + ([k] + more.0) == ks + [k] + more.0 && vs + ([a] + more.1) == vs + [a] + more.1;
    }
  }

  /** The token is not one that ends a program, nor a semicolon. */
  predicate Begins(ts: seq<Token>) {
    ts != [] && !Starts(ts, RBrace) && !Starts(ts, RParen) && !Starts(ts, RBracket) && !Starts(ts, Semicolon)
  }

  lemma {:induction false} FailedStatement(all: Parsed<seq<Ast>>, xs: seq<Ast>, ts: seq<Token>)
    requires Prepended(all, xs, Program(ts)) && Begins(ts) && FilterChain(ts).Err?
    ensures all == Err(FilterChain(ts).error)
  {
    hide FilterChain;
  }

  lemma {:induction false} MoreStatements(all: Parsed<seq<Ast>>, xs: seq<Ast>, ts: seq<Token>, a: Ast, us: seq<Token>)
    requires Prepended(all, xs, Program(ts)) && Begins(ts) && FilterChain(ts) == Ok(a, us)
    ensures if Starts(us, Semicolon) then Prepended(all, xs + [a], Program(us[1..])) else all == Ok(xs + [a], us)
  {
    hide FilterChain;
    if Starts(us, Semicolon) && Program(us[1..]).Ok? {
      var more := Program(us[1..]).value;
      assert xs + ([a] + more) == xs + [a] + more;
    }
  }

  lemma {:induction false} EmptyStatement(all: Parsed<seq<Ast>>, xs: seq<Ast>, ts: seq<Token>)
    requires Prepended(all, xs, Program(ts)) && !Begins(ts)
    ensures if Starts(ts, Semicolon) then Prepended(all, xs, Program(ts[1..])) else all == Ok(xs, ts)
  {
    hide FilterChain;
    assert xs + [] == xs;
  }
}
