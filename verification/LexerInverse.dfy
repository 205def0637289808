/** Writing tokens out with spaces between them, and that the lexer undoes it. */
module LexerInverse {
  import opened Syntax
  import opened Lexing
  import opened ParserInverse

  // --------------------------------------------------------------------------------- writing

  function HexDigit(v: Unit): (c: Unit)
    requires v < 16
    ensures IsHex(c) && HexValue(c) == v
  {
    if v < 10 then 48 + v else 87 + v
  }

  predicate IsPlain(c: Unit) {
    c == SPACE || IsLetter(c) || IsDigit(c)
  }

  /** `stringEscapeFn`: everything but spaces, letters and digits as four hexadecimal digits. */
  function EscapeUnit(c: Unit): Text {
    if IsPlain(c) then [c]
    else [BACKSLASH, SMALL_U, HexDigit(c / 4096), HexDigit(c / 256 % 16), HexDigit(c / 16 % 16), HexDigit(c % 16)]
  }

  function EscapeAll(s: Text): Text {
    if s == [] then [] else EscapeUnit(s[0]) + EscapeAll(s[1..])
  }

  /** `escape` of a string. */
  function Escape(s: Text): Text {
    [QUOTE] + EscapeAll(s) + [QUOTE]
  }

  function TokenText(t: Token): Text {
    match t
    case Sym(s) => SymbolText(s)
    case Name(n) => n
    case Const(Quoted(s)) => Escape(s)
    case Const(Number(n)) => n
  }

  function Render(ts: seq<Token>): Text {
    if ts == [] then []
    else if |ts| == 1 then TokenText(ts[0])
    else TokenText(ts[0]) + [SPACE] + Render(ts[1..])
  }

  // ---------------------------------------------------------------- which tokens can be written

  predicate IdentText(n: Text) {
    n != [] && IsIdent(n[0]) && forall k :: 0 <= k < |n| ==> IsIdent(n[k]) || IsDigit(n[k])
  }

  /** A place in a number: a digit, a dot, an `e` with a sign or a digit after it, or a sign between
    * an `e` and a digit. */
  predicate NumberPart(n: Text, k: nat)
    requires k < |n|
  {
    || n[k] == DOT || IsDigit(n[k])
    || (n[k] == SMALL_E && k + 1 < |n| && IsExpOperator(n[k + 1]))
    || ((n[k] == PLUS || n[k] == MINUS) && k > 0 && n[k - 1] == SMALL_E && k + 1 < |n| && IsDigit(n[k + 1]))
  }

  predicate NumberText(n: Text) {
    && n != [] && (IsDigit(n[0]) || (n[0] == DOT && |n| > 1 && IsDigit(n[1])))
    && forall k :: 0 <= k < |n| ==> NumberPart(n, k)
  }

  predicate Writable(t: Token) {
    match t
    case Sym(_) => true
    case Name(n) => IdentText(n)
    case Const(Quoted(_)) => true
    case Const(Number(n)) => NumberText(n)
  }

  /** After a token comes the end or a space. */
  predicate Ends(rest: Text) {
    rest == [] || rest[0] == SPACE
  }

  // --------------------------------------------------------------------------------- strings

  lemma {:induction false} UnitReads(c: Unit, rest: Text)
    ensures EscapeUnit(c) != [] && EscapeUnit(c)[0] != QUOTE
    ensures OneCharacter(EscapeUnit(c) + rest) == Scan(c, rest)
  {
    var t := EscapeUnit(c) + rest;
    if IsPlain(c) {
      assert t[1..] == rest;
    } else {
      assert t[6..] == rest;
      HexDigits(c);
    }
  }

  lemma {:induction false} HexDigits(c: Unit)
    ensures c / 4096 < 16 && c == c / 4096 * 4096 + c / 256 % 16 * 256 + c / 16 % 16 * 16 + c % 16
  {
    assert c / 256 == c / 4096 * 16 + c / 256 % 16;
    assert c / 16 == c / 256 * 16 + c / 16 % 16;
  }

  lemma {:induction false} StringReads(s: Text, rest: Text)
    ensures StringTail(EscapeAll(s) + ([QUOTE] + rest), QUOTE) == Scan(s, rest)
  {
    hide EscapeUnit, OneCharacter;
    var end := [QUOTE] + rest;
    if s == [] {
      assert EscapeAll(s) + end == end && end[1..] == rest;
    } else {
      var more := EscapeAll(s[1..]) + end;
      UnitReads(s[0], more);
      StringReads(s[1..], rest);
      assert EscapeAll(s) + end == EscapeUnit(s[0]) + more;
      assert [s[0]] + s[1..] == s;
    }
  }

  // --------------------------------------------------------------------------------- numbers

  lemma {:induction false} NumberReads(n: Text, k: nat, rest: Text)
    requires k <= |n| && (forall j :: 0 <= j < |n| ==> NumberPart(n, j)) && Ends(rest)
    ensures NumberTail(n[..k], n[k..] + rest) == Scan(n, rest)
    decreases |n| - k
  {
    hide NumberTail;
    var t := n[k..] + rest;
    if k == |n| {
      assert n[..k] == n && t == rest;
      NumberStops(n, rest);
    } else {
      assert NumberPart(n, k);
      assert n[..k+1] == n[..k] + [n[k]] && t[1..] == n[k+1..] + rest;
      NumberGoesOn(n[..k], t);
      NumberReads(n, k + 1, rest);
    }
  }

  lemma {:induction false} NumberStops(n: Text, rest: Text)
    requires Ends(rest)
    ensures NumberTail(n, rest) == Scan(n, rest)
  {
  }

  /** The loop takes the next character. */
  predicate GoesOn(read: Text, t: Text)
    requires t != []
  {
    var d := Lower(t[0]);
    || d == DOT || IsDigit(d) || (d == SMALL_E && |t| > 1 && IsExpOperator(t[1]))
    || (IsExpOperator(d) && |t| > 1 && IsDigit(t[1]) && read != [] && read[|read| - 1] == SMALL_E)
  }

  lemma {:induction false} NumberGoesOn(read: Text, t: Text)
    requires t != []
    ensures GoesOn(read, t) ==> NumberTail(read, t) == NumberTail(read + [Lower(t[0])], t[1..])
    ensures !GoesOn(read, t) && NumberTail(read, t).Scan? ==> NumberTail(read, t) == Scan(read, t)
  {
  }

  /** What has been read is a number but perhaps for its last character, which the next one of the
    * text makes good. */
  predicate NumberSoFar(read: Text, t: Text) {
    && (forall k :: 0 <= k < |read| - 1 ==> NumberPart(read, k))
    && (read == [] ||
        var c := read[|read| - 1];
        || c == DOT || IsDigit(c) || (c == SMALL_E && t != [] && IsExpOperator(t[0]))
        || ((c == PLUS || c == MINUS) && |read| > 1 && read[|read| - 2] == SMALL_E && t != [] && IsDigit(t[0])))
  }

  lemma {:induction false} NumberMade(read: Text, t: Text)
    requires NumberSoFar(read, t)
    ensures var r := NumberTail(read, t);
            r.Scan? ==> read <= r.value && forall k :: 0 <= k < |r.value| ==> NumberPart(r.value, k)
    decreases |t|
  {
    hide NumberTail;
    var r := NumberTail(read, t);
    if t == [] {
      NumberStops(read, t);
    } else if GoesOn(read, t) {
      NumberGoesOn(read, t);
      NumberOneMore(read, t);
      NumberMade(read + [Lower(t[0])], t[1..]);
      assert r.Scan? ==> read <= read + [Lower(t[0])] <= r.value;
    } else {
      NumberGoesOn(read, t);
      if r.Scan? { NumberOver(read, t); }
    }
  }

  lemma {:induction false} NumberOneMore(read: Text, t: Text)
    requires NumberSoFar(read, t) && t != [] && GoesOn(read, t)
    ensures NumberSoFar(read + [Lower(t[0])], t[1..])
  {
    var more := read + [Lower(t[0])];
    forall k | 0 <= k < |more| - 1 ensures NumberPart(more, k) {
      if k < |read| - 1 { assert NumberPart(read, k); }
    }
  }

  lemma {:induction false} NumberOver(read: Text, t: Text)
    requires NumberSoFar(read, t) && t != [] && !GoesOn(read, t) && NumberTail(read, t).Scan?
    ensures forall k :: 0 <= k < |read| ==> NumberPart(read, k)
  {
  }

  lemma {:induction false} NumberIsNumber(t: Text)
    requires t != [] && (IsDigit(t[0]) || (t[0] == DOT && |t| > 1 && IsDigit(t[1])))
    ensures NumberTail([], t).Scan? ==> NumberText(NumberTail([], t).value)
  {
    hide NumberTail;
    var r := NumberTail([], t);
    if r.Scan? {
      var d := Lower(t[0]);
      NumberGoesOn([], t);
      assert [] + [d] == [d];
      NumberOneMore([], t);
      NumberMade([d], t[1..]);
      assert r.value[0] == d;
      if t[0] == DOT {
        NumberGoesOn([d], t[1..]);
        NumberOneMore([d], t[1..]);
        assert [d] + [Lower(t[1])] == [d, t[1]];
        NumberMade([d, t[1]], t[1..][1..]);
        assert r.value[1] == t[1];
      }
    }
  }

  // ------------------------------------------------------------------------ names and symbols

  lemma {:induction false} IdentReads(n: Text, rest: Text)
    requires (forall k :: 0 <= k < |n| ==> IsIdent(n[k]) || IsDigit(n[k])) && Ends(rest)
    ensures IdentLength(n + rest) == |n|
  {
    if n == [] {
      assert n + rest == rest;
    } else {
      assert (n + rest)[1..] == n[1..] + rest;
      IdentReads(n[1..], rest);
    }
  }

  lemma {:induction false} IdentIsIdent(t: Text)
    ensures forall k :: 0 <= k < IdentLength(t) ==> IsIdent(t[k]) || IsDigit(t[k])
  {
    if t != [] && (IsIdent(t[0]) || IsDigit(t[0])) {
      IdentIsIdent(t[1..]);
      forall k | 0 <= k < IdentLength(t) ensures IsIdent(t[k]) || IsDigit(t[k]) {
        if k > 0 { assert t[k] == t[1..][k - 1]; }
      }
    }
  }

  lemma {:induction false} SymbolReads(s: Symbol, rest: Text)
    requires Ends(rest)
    ensures OneToken(SymbolText(s) + rest) == Scan(Sym(s), rest)
  {
    hide StringTail, NumberTail, IdentLength, OperatorAt, SymbolText, Punctuation;
    var t := SymbolText(s) + rest;
    SymbolStarts(s, rest);
    assert t[|SymbolText(s)|..] == rest;
    if IsOperator(s) { OperatorReads(s, rest); }
  }

  /** An operator begins with a character that begins no other token. */
  lemma {:induction false} SymbolStarts(s: Symbol, rest: Text)
    requires Ends(rest)
    ensures SymbolText(s) != []
    ensures var t := SymbolText(s) + rest;
            var a := t[0];
            && a != DOUBLE && a != QUOTE && !IsDigit(a) && !IsIdent(a) && (a == DOT ==> !(|t| > 1 && IsDigit(t[1])))
            && (IsOperator(s) ==> Punctuation(a) == [])
            && (!IsOperator(s) ==> Punctuation(a) == [s] && |SymbolText(s)| == 1)
  {
  }

  lemma {:induction false} OperatorReads(s: Symbol, rest: Text)
    requires IsOperator(s) && Ends(rest)
    ensures OperatorAt(SymbolText(s) + rest) == [s]
  {
    hide SymbolText;
    var t, n := SymbolText(s) + rest, |SymbolText(s)|;
    SymbolTexts(s);
    assert |t| > n ==> t[n] == SPACE;
    assert t[0] == SymbolText(s)[0];
    if n > 1 { assert t[1] == SymbolText(s)[1]; }
    if n > 2 { assert t[2] == SymbolText(s)[2]; }
  }

  /** The tables and the texts agree. */
  lemma {:induction false} SymbolTexts(s: Symbol)
    requires IsOperator(s)
    ensures var w := SymbolText(s);
            && 1 <= |w| <= 3
            && (|w| == 1 ==> Operator1(w[0]) == [s])
            && (|w| == 2 ==> Operator2(w[0], w[1]) == [s])
            && (|w| == 3 ==> Operator3(w[0], w[1], w[2]) == [s])
  {
  }

  // -------------------------------------------------------------------------------- the theorem

  lemma {:induction false} TokenReads(token: Token, rest: Text)
    requires Writable(token) && Ends(rest)
    ensures TokenText(token) != [] && !IsWhitespace(TokenText(token)[0])
    ensures OneToken(TokenText(token) + rest) == Scan(token, rest)
  {
    hide StringTail, NumberTail, IdentLength, EscapeAll;
    var t := TokenText(token) + rest;
    match token
    case Sym(s) => SymbolReads(s, rest);
    case Name(n) =>
      IdentReads(n, rest);
      assert t[..|n|] == n && t[|n|..] == rest;
    case Const(Quoted(s)) =>
      StringReads(s, rest);
      assert t[1..] == EscapeAll(s) + ([QUOTE] + rest);
    case Const(Number(n)) =>
      assert NumberPart(n, 0);
      NumberReads(n, 0, rest);
      assert n[..0] == [] && n[0..] == n;
      if n[0] == DOT { assert t[1] == n[1]; }
  }

  /** Any list of tokens written with spaces in between lexes back to itself. */
  lemma {:induction false} RenderReads(ts: seq<Token>)
    requires forall k :: 0 <= k < |ts| ==> Writable(ts[k])
    ensures Lex(Render(ts)) == Scan(ts, [])
  {
    hide OneToken, TokenText, Writable, Lex;
    if ts == [] {
      LexNothing();
    } else if |ts| == 1 {
      TokenReads(ts[0], []);
      assert TokenText(ts[0]) + [] == TokenText(ts[0]);
      LexNothing();
      LexOne(TokenText(ts[0]), ts[0], [], []);
      assert [ts[0]] + [] == ts;
    } else {
      var more := Render(ts[1..]);
      TokenReads(ts[0], [SPACE] + more);
      RenderReads(ts[1..]);
      LexSpace(more);
      assert Render(ts) == TokenText(ts[0]) + ([SPACE] + more);
      LexOne(Render(ts), ts[0], [SPACE] + more, ts[1..]);
      assert [ts[0]] + ts[1..] == ts;
    }
  }

  lemma {:induction false} LexNothing()
    ensures Lex([]) == Scan([], [])
  {
  }

  lemma {:induction false} LexSpace(t: Text)
    ensures Lex([SPACE] + t) == Lex(t)
  {
    assert ([SPACE] + t)[1..] == t;
  }

  lemma {:induction false} LexOne(t: Text, token: Token, rest: Text, more: seq<Token>)
    requires t != [] && !IsWhitespace(t[0]) && OneToken(t) == Scan(token, rest) && Lex(rest) == Scan(more, [])
    ensures Lex(t) == Scan([token] + more, [])
  {
    hide OneToken;
  }

  /** Every token the lexer makes can be written. */
  lemma {:induction false} OneTokenWritable(t: Text)
    requires t != [] && OneToken(t).Scan?
    ensures Writable(OneToken(t).value)
  {
    hide StringTail, NumberTail, IdentLength;
    var a := t[0];
    if IsDigit(a) || (a == DOT && |t| > 1 && IsDigit(t[1])) {
      NumberIsNumber(t);
    } else if IsIdent(a) {
      IdentIsIdent(t);
      IdentNotEmpty(t);
    }
  }

  lemma {:induction false} IdentNotEmpty(t: Text)
    requires t != [] && IsIdent(t[0])
    ensures IdentLength(t) > 0
  {
  }

  lemma {:induction false} LexWritable(t: Text)
    requires Lex(t).Scan?
    ensures forall k :: 0 <= k < |Lex(t).value| ==> Writable(Lex(t).value[k])
    decreases |t|
  {
    hide OneToken, Writable;
    if t != [] {
      if IsWhitespace(t[0]) {
        LexWritable(t[1..]);
      } else {
        OneTokenWritable(t);
        LexWritable(OneToken(t).rest);
      }
    }
  }

  /** Whatever text the lexer accepts, writing its tokens out and lexing again gives the same
    * tokens. */
  lemma {:induction false} LexedThenRewritten(t: Text)
    ensures match Lex(t)
            case Scan(ts, _) => Lex(Render(ts)) == Scan(ts, [])
            case Fail(_) => true
  {
    hide Lex, Render;
    if Lex(t).Scan? {
      LexWritable(t);
      RenderReads(Lex(t).value);
    }
  }

  // ------------------------------------------------------------------- from tree to text and back

  /** The names and numbers in a tree can be written. */
  predicate Spellable(e: Ast) {
    match e
    case Assign(a, b) => Spellable(a) && Spellable(b)
    case Cond(t, a, b) => Spellable(t) && Spellable(a) && Spellable(b)
    case Infix(_, a, b) => Spellable(a) && Spellable(b)
    case Prefix(_, a) => Spellable(a)
    case Ident(name) => IdentText(name)
    case Lit(c) => Writable(Const(c))
    case Keyword(name) => IdentText(name)
    case Member(o, name) => Spellable(o) && IdentText(name)
    case Computed(o, p) => Spellable(o) && Spellable(p)
    case Call(f, args) => Spellable(f) && AllSpellable(args)
    case Filter(i, name, args) => Spellable(i) && IdentText(name) && AllSpellable(args)
    case Array(es) => AllSpellable(es)
    case Object(ks, vs) => (forall k :: 0 <= k < |ks| ==> Writable(KeyToken(ks[k]))) && AllSpellable(vs)
  }

  predicate AllSpellable(es: seq<Ast>) {
    es == [] || (Spellable(es[0]) && AllSpellable(es[1..]))
  }

  predicate AllWritable(ts: seq<Token>) {
    forall k :: 0 <= k < |ts| ==> Writable(ts[k])
  }

  lemma {:induction false} BareWritable(e: Ast)
    requires Spellable(e)
    ensures AllWritable(Bare(e))
    decreases e, 0
  {
    hide Writable, Print, IdentText;
    NameWritable(e);
    match e
    case Assign(a, b) => PrintWritable(a, OR); PrintWritable(b, 0);
    case Cond(t, a, b) => PrintWritable(t, OR); PrintWritable(a, 0); PrintWritable(b, 0);
    case Infix(op, a, b) => PrintWritable(a, InfixLevel(op)); PrintWritable(b, InfixLevel(op) + 1);
    case Prefix(_, a) => PrintWritable(a, PREFIX);
    case Member(o, _) => PrintWritable(o, PRIMARY);
    case Computed(o, p) => PrintWritable(o, PRIMARY); PrintWritable(p, 0);
    case Call(f, args) => PrintWritable(f, PRIMARY); ListWritable(args);
    case Filter(i, _, args) => PrintWritable(i, -1); ListWritable(args);
    case Array(es) => ListWritable(es);
    case Object(ks, vs) => PropertiesWritable(ks, vs);
    case _ =>
  }

  lemma {:induction false} NameWritable(e: Ast)
    requires Spellable(e)
    ensures match e
            case Ident(name) => Writable(Name(name))
            case Keyword(name) => Writable(Name(name))
            case Member(_, name) => Writable(Name(name))
            case Filter(_, name, _) => Writable(Name(name))
            case _ => true
    ensures forall s :: Writable(Sym(s))
  {
  }

  lemma {:induction false} PrintWritable(e: Ast, level: int)
    requires Spellable(e)
    ensures AllWritable(Print(e, level))
    decreases e, 1
  {
    hide Spellable, Bare;
    BareWritable(e);
  }

  lemma {:induction false} ListWritable(es: seq<Ast>)
    requires AllSpellable(es)
    ensures AllWritable(PrintList(es)) && AllWritable(PrintArgs(es))
    decreases es, 0
  {
    hide Spellable, Print;
    if es != [] {
      PrintWritable(es[0], 0);
      ListWritable(es[1..]);
    }
  }

  lemma {:induction false} PropertiesWritable(ks: seq<Key>, vs: seq<Ast>)
    requires AllSpellable(vs) && forall k :: 0 <= k < |ks| ==> Writable(KeyToken(ks[k]))
    ensures AllWritable(PrintProperties(ks, vs))
    decreases vs, 0
  {
    hide Spellable, Print, KeyToken;
    if vs != [] && ks != [] {
      PrintWritable(vs[0], 0);
      PropertiesWritable(ks[1..], vs[1..]);
    }
  }

  lemma {:induction false} ProgramWritable(body: seq<Ast>)
    requires AllSpellable(body)
    ensures AllWritable(PrintProgram(body))
  {
    hide Spellable, Bare;
    if body != [] {
      BareWritable(body[0]);
      ProgramWritable(body[1..]);
    }
  }

  /** A program printed with as few parentheses as the levels allow and written out as text is read
    * back by the lexer and the parser together. */
  lemma {:induction false} SourceReads(body: seq<Ast>)
    requires AllWellFormed(body) && AllSpellable(body)
    ensures var lexed := Lex(Render(PrintProgram(body)));
            lexed.Scan? && ParseProgram(lexed.value) == Ok(body, [])
  {
    hide Lex, Render, ParseProgram, PrintProgram;
    ProgramWritable(body);
    RenderReads(PrintProgram(body));
    ProgramReads(body);
  }
}
