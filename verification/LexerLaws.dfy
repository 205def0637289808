/** What texts are lexed to, told with the characters written out: symbols, escapes, names, numbers and
  * white space, without the tables that reading and writing share. */
module LexerLaws {
  import opened Syntax
  import opened Lexing
  import opened LexerInverse

  // ------------------------------------------------------------------------------- strings

  /** The letters behind a backslash that stand for another character: n, f, r, t, v. */
  const LETTERS: map<Unit, Unit> := map[110 := 10, 102 := 12, 114 := 13, 116 := 9, 118 := 11]

  /** Hexadecimal digits of either case. */
  const HEX: map<Unit, int> :=
    map[48 := 0, 49 := 1, 50 := 2, 51 := 3, 52 := 4, 53 := 5, 54 := 6, 55 := 7, 56 := 8, 57 := 9,
        97 := 10, 98 := 11, 99 := 12, 100 := 13, 101 := 14, 102 := 15,
        65 := 10, 66 := 11, 67 := 12, 68 := 13, 69 := 14, 70 := 15]

  lemma {:induction false} HexExactly(c: Unit)
    ensures IsHex(c) <==> c in HEX
    ensures c in HEX ==> HexValue(c) == HEX[c]
  {
  }

  /** One unit as it may be written in a string: by itself, behind a backslash, or as `\u` with four
    * digits. */
  datatype Piece = Itself(c: Unit) | Behind(c: Unit) | Code(a: Unit, b: Unit, c: Unit, d: Unit)

  function Spelled(p: Piece): Text {
    match p
    case Itself(c) => [c]
    case Behind(c) => [92, c]
    case Code(a, b, c, d) => [92, 117, a, b, c, d]
  }

  /** The piece is allowed between these quotes, and stands for the unit. */
  ghost predicate Stands(p: Piece, quote: Unit, u: Unit) {
    match p
    case Itself(c) => c != quote && c != 92 && u == c
    case Behind(c) => c != 117 && u == if c in LETTERS then LETTERS[c] else c
    case Code(a, b, c, d) =>
      a in HEX && b in HEX && c in HEX && d in HEX && u == ((HEX[a] * 16 + HEX[b]) * 16 + HEX[c]) * 16 + HEX[d]
  }

  function SpelledAll(ps: seq<Piece>): Text {
    if ps == [] then [] else Spelled(ps[0]) + SpelledAll(ps[1..])
  }

  ghost predicate StandForAll(ps: seq<Piece>, quote: Unit, us: Text) {
    |ps| == |us| && forall k :: 0 <= k < |ps| ==> Stands(ps[k], quote, us[k])
  }

  lemma {:induction false} PieceReads(p: Piece, quote: Unit, u: Unit, rest: Text)
    requires quote != 92 && Stands(p, quote, u)
    ensures OneCharacter(Spelled(p) + rest) == Scan(u, rest) && Spelled(p)[0] != quote
  {
    var t := Spelled(p) + rest;
    match p
    case Itself(c) => assert t[1..] == rest;
    case Behind(c) => assert t[2..] == rest;
    case Code(a, b, c, d) =>
      HexExactly(a);
      HexExactly(b);
      HexExactly(c);
      HexExactly(d);
      assert t[6..] == rest;
      assert t[2..][0] == a && t[2..][1] == b && t[2..][2] == c && t[2..][3] == d;
  }

  /** A text of such pieces, with its closing quote, is read to the units. */
  lemma {:induction false} PiecesRead(ps: seq<Piece>, quote: Unit, us: Text, rest: Text)
    requires quote != 92 && StandForAll(ps, quote, us)
    ensures StringTail(SpelledAll(ps) + ([quote] + rest), quote) == Scan(us, rest)
    decreases |ps|
  {
    hide OneCharacter, Spelled, Stands;
    var end := [quote] + rest;
    if ps == [] {
      assert SpelledAll(ps) + end == end && end[1..] == rest;
    } else {
      var more := SpelledAll(ps[1..]) + end;
      PieceReads(ps[0], quote, us[0], more);
      PiecesRead(ps[1..], quote, us[1..], rest);
      SpelledSome(ps[0]);
      assert SpelledAll(ps) + end == Spelled(ps[0]) + more;
      assert [us[0]] + us[1..] == us;
    }
  }

  lemma {:induction false} SpelledSome(p: Piece)
    ensures Spelled(p) != []
  {
  }

  /** And nothing else is: whatever is read was written in such pieces. */
  lemma {:induction false} OnlyPiecesRead(t: Text, quote: Unit) returns (ps: seq<Piece>)
    requires quote != 92 && StringTail(t, quote).Scan?
    ensures var r := StringTail(t, quote);
            StandForAll(ps, quote, r.value) && t == SpelledAll(ps) + ([quote] + r.rest)
    decreases |t|
  {
    hide OneCharacter, Stands;
    var r := StringTail(t, quote);
    if t[0] == quote {
      ps := [];
      assert t == [] + ([quote] + t[1..]);
    } else {
      var one := OneCharacter(t);
      var p := OnlyPiece(t, quote);
      var more := OnlyPiecesRead(one.rest, quote);
      ps := [p] + more;
      assert ps[1..] == more;
      assert t == SpelledAll(ps) + ([quote] + r.rest);
    }
  }

  lemma {:induction false} OnlyPiece(t: Text, quote: Unit) returns (p: Piece)
    requires t != [] && t[0] != quote && quote != 92 && OneCharacter(t).Scan?
    ensures Stands(p, quote, OneCharacter(t).value) && t == Spelled(p) + OneCharacter(t).rest
  {
    if t[0] != 92 {
      p := Itself(t[0]);
      assert t == [t[0]] + t[1..];
    } else if t[1] != 117 {
      p := Behind(t[1]);
      assert t == [92, t[1]] + t[2..];
    } else {
      p := Code(t[2], t[3], t[4], t[5]);
      HexExactly(t[2]);
      HexExactly(t[3]);
      HexExactly(t[4]);
      HexExactly(t[5]);
      assert t == [92, 117, t[2], t[3], t[4], t[5]] + t[6..];
    }
  }

  /** As a token, between either kind of quotes. */
  lemma {:induction false} QuotedReads(ps: seq<Piece>, quote: Unit, us: Text, rest: Text)
    requires quote in {39, 34} && StandForAll(ps, quote, us)
    ensures OneToken([quote] + (SpelledAll(ps) + ([quote] + rest))) == Scan(Const(Quoted(us)), rest)
  {
    hide StringTail;
    PiecesRead(ps, quote, us, rest);
    var t := [quote] + (SpelledAll(ps) + ([quote] + rest));
    assert t[1..] == SpelledAll(ps) + ([quote] + rest);
  }

  // ------------------------------------------------------------------------- strings that fail

  lemma {:induction false} FailsBehind(ps: seq<Piece>, quote: Unit, us: Text, end: Text, e: LexError)
    requires quote != 92 && StandForAll(ps, quote, us) && StringTail(end, quote) == Fail(e)
    ensures StringTail(SpelledAll(ps) + end, quote) == Fail(e)
    decreases |ps|
  {
    hide OneCharacter, Spelled, Stands;
    if ps == [] {
      assert SpelledAll(ps) + end == end;
    } else {
      var more := SpelledAll(ps[1..]) + end;
      PieceReads(ps[0], quote, us[0], more);
      FailsBehind(ps[1..], quote, us[1..], end, e);
      SpelledSome(ps[0]);
      assert SpelledAll(ps) + end == Spelled(ps[0]) + more;
    }
  }

  /** A string that is not closed is unterminated, behind a last backslash too. */
  lemma {:induction false} UnclosedFails(ps: seq<Piece>, quote: Unit, us: Text)
    requires quote != 92 && StandForAll(ps, quote, us)
    ensures StringTail(SpelledAll(ps), quote) == Fail(UnterminatedQuote)
    ensures StringTail(SpelledAll(ps) + [92], quote) == Fail(UnterminatedQuote)
  {
    FailsBehind(ps, quote, us, [], UnterminatedQuote);
    assert SpelledAll(ps) + [] == SpelledAll(ps);
    FailsBehind(ps, quote, us, [92], UnterminatedQuote);
  }

  /** `\u` without four hexadecimal digits is the other error, at once. */
  lemma {:induction false} BadCodeFails(ps: seq<Piece>, quote: Unit, us: Text, rest: Text)
    requires quote != 92 && StandForAll(ps, quote, us)
    requires |rest| < 4 || exists k :: 0 <= k < 4 && rest[k] !in HEX
    ensures StringTail(SpelledAll(ps) + ([92, 117] + rest), quote) == Fail(InvalidEscape)
  {
    var end := [92, 117] + rest;
    forall c ensures IsHex(c) <==> c in HEX { HexExactly(c); }
    assert |rest| >= 4 ==> end[2] == rest[0] && end[3] == rest[1] && end[4] == rest[2] && end[5] == rest[3];
    FailsBehind(ps, quote, us, end, InvalidEscape);
  }

  // -------------------------------------------------------------------------- characters

  predicate Digit(c: Unit) {
    '0' as int <= c <= '9' as int
  }

  predicate NameStart(c: Unit) {
    'a' as int <= c <= 'z' as int || 'A' as int <= c <= 'Z' as int || c == '_' as int || c == '$' as int
  }

  /** Space, tab, line feed, vertical tab, carriage return, no-break space. */
  const WHITE: set<Unit> := {32, 9, 10, 11, 13, 160}

  /** White space is skipped. */
  lemma {:induction false} WhiteSkipped(c: Unit, t: Text)
    requires c in WHITE
    ensures Lex([c] + t) == Lex(t)
  {
    hide OneToken;
    assert ([c] + t)[1..] == t;
  }

  /** A name is a letter, `_` or `$` and all such characters and digits that follow. */
  lemma {:induction false} NameReads(n: Text, rest: Text)
    requires n != [] && NameStart(n[0]) && (forall k :: 0 <= k < |n| ==> NameStart(n[k]) || Digit(n[k]))
    requires rest == [] || !(NameStart(rest[0]) || Digit(rest[0]))
    ensures OneToken(n + rest) == Scan(Name(n), rest)
  {
    hide StringTail, NumberTail, IdentLength;
    NameLength(n, rest);
    var t := n + rest;
    assert t[0] == n[0] && t[..|n|] == n && t[|n|..] == rest;
  }

  lemma {:induction false} NameLength(n: Text, rest: Text)
    requires forall k :: 0 <= k < |n| ==> NameStart(n[k]) || Digit(n[k])
    requires rest == [] || !(NameStart(rest[0]) || Digit(rest[0]))
    ensures IdentLength(n + rest) == |n|
  {
    if n == [] {
      assert n + rest == rest;
    } else {
      assert (n + rest)[1..] == n[1..] + rest;
      NameLength(n[1..], rest);
    }
  }

  /** An exponent may be written with a capital E; the token has a small one. */
  lemma {:induction false} NumberEitherCase(m: Text, n: Text, k: nat, rest: Text)
    requires k <= |n| == |m| && (forall j :: 0 <= j < |n| ==> NumberPart(n, j)) && Ends(rest)
    requires forall j :: 0 <= j < |n| ==> m[j] == n[j] || (m[j] == 'E' as int && n[j] == 'e' as int)
    ensures NumberTail(n[..k], m[k..] + rest) == Scan(n, rest)
    decreases |n| - k
  {
    hide NumberTail;
    var t := m[k..] + rest;
    if k == |n| {
      assert n[..k] == n && t == rest;
      NumberStops(n, rest);
    } else {
      assert NumberPart(n, k);
      assert n[..k+1] == n[..k] + [n[k]] && t[1..] == m[k+1..] + rest;
      NumberGoesOn(n[..k], t);
      NumberEitherCase(m, n, k + 1, rest);
    }
  }

  // -------------------------------------------------------------------------------- symbols

  /** Every symbol and its text. */
  function Spelling(s: Symbol): string {
    match s
    case PlusSign => "+" case MinusSign => "-" case Times => "*" case Slash => "/" case Percent => "%"
    case Eq3 => "===" case Ne3 => "!==" case Eq2 => "==" case Ne2 => "!=" case Less => "<"
    case Greater => ">" case LessEq => "<=" case GreaterEq => ">=" case AndAnd => "&&" case OrOr => "||"
    case Bang => "!" case Equals => "=" case Bar => "|" case LParen => "(" case RParen => ")"
    case LBrace => "{" case RBrace => "}" case LBracket => "[" case RBracket => "]" case Dot => "."
    case Comma => "," case Semicolon => ";" case Question => "?" case Colon => ":"
  }

  lemma {:induction false} SpellingIs(s: Symbol)
    ensures |Spelling(s)| == |SymbolText(s)| && Plain(Spelling(s)) == SymbolText(s)
  {
    forall k | 0 <= k < |Spelling(s)| ensures Spelling(s)[k] as int == SymbolText(s)[k] { }
  }

  /** The text of a symbol, with no `=`, `&`, `|` or digit behind it that would make another token of it,
    * is read as that symbol. */
  lemma {:induction false} SpelledSymbol(s: Symbol, rest: Text)
    requires rest == [] || (rest[0] !in {'=' as int, '&' as int, '|' as int} && !Digit(rest[0]))
    ensures OneToken(Plain(Spelling(s)) + rest) == Scan(Sym(s), rest)
  {
    hide Spelling, Plain;
    SpellingIs(s);
    SymbolBefore(s, rest);
  }

  lemma {:induction false} SymbolBefore(s: Symbol, rest: Text)
    requires rest == [] || (rest[0] !in {61, 38, 124} && !Digit(rest[0]))
    ensures OneToken(SymbolText(s) + rest) == Scan(Sym(s), rest)
  {
    hide StringTail, NumberTail, IdentLength, OperatorAt, SymbolText, Punctuation;
    var t := SymbolText(s) + rest;
    BeginsSymbol(s, rest);
    assert t[|SymbolText(s)|..] == rest;
    if IsOperator(s) { OperatorBefore(s, rest); }
  }

  lemma {:induction false} BeginsSymbol(s: Symbol, rest: Text)
    requires rest == [] || !Digit(rest[0])
    ensures SymbolText(s) != []
    ensures var t := SymbolText(s) + rest;
            var a := t[0];
            && a != DOUBLE && a != QUOTE && !IsDigit(a) && !IsIdent(a) && (a == DOT ==> !(|t| > 1 && IsDigit(t[1])))
            && (IsOperator(s) ==> Punctuation(a) == [])
            && (!IsOperator(s) ==> Punctuation(a) == [s] && |SymbolText(s)| == 1)
  {
  }

  lemma {:induction false} OperatorBefore(s: Symbol, rest: Text)
    requires IsOperator(s) && (rest == [] || rest[0] !in {61, 38, 124})
    ensures OperatorAt(SymbolText(s) + rest) == [s]
  {
    hide SymbolText;
    var t, n := SymbolText(s) + rest, |SymbolText(s)|;
    SymbolTexts(s);
    assert |t| > n ==> t[n] == rest[0];
    assert t[0] == SymbolText(s)[0];
    if n > 1 { assert t[1] == SymbolText(s)[1]; }
    if n > 2 { assert t[2] == SymbolText(s)[2]; }
  }

  /** No other character begins a token. */
  lemma {:induction false} OthersFail(c: Unit, t: Text)
    requires c !in WHITE && !NameStart(c) && !Digit(c) && c !in {39, 34}
    requires forall s: Symbol :: Spelling(s) == "" || c != Spelling(s)[0] as int
    ensures Lex([c] + t) == Fail(UnexpectedCharacter)
  {
    hide StringTail, NumberTail, IdentLength, Spelling, SymbolText, Punctuation, OperatorAt;
    var u := [c] + t;
    assert u[0] == c;
    OneBegins(u);
    if Punctuation(c) != [] { BeginsWith(Punctuation(c)[0], c); }
    if OperatorAt(u) != [] { BeginsWith(OperatorAt(u)[0], c); }
    BeginsWith(Dot, c);
    assert OneToken(u) == Fail(UnexpectedCharacter);
  }

  lemma {:induction false} BeginsWith(s: Symbol, c: Unit)
    requires Spelling(s) == "" || c != Spelling(s)[0] as int
    ensures SymbolText(s) != [] && c != SymbolText(s)[0]
  {
    SpellingIs(s);
    assert Plain(Spelling(s))[0] == Spelling(s)[0] as int;
  }

  lemma {:induction false} OneBegins(u: Text)
    requires u != []
    ensures Punctuation(u[0]) != [] ==> SymbolText(Punctuation(u[0])[0]) == [u[0]]
    ensures OperatorAt(u) != [] ==> SymbolText(OperatorAt(u)[0]) != [] && SymbolText(OperatorAt(u)[0])[0] == u[0]
    ensures SymbolText(Dot) == [46]
  {
    OperatorIsPrefix(u);
  }

  /** Tokens of a text, one after the other. */
  lemma {:induction false} LexesOn(t: Text, token: Token, rest: Text)
    requires t != [] && t[0] !in WHITE && OneToken(t) == Scan(token, rest)
    ensures match Lex(rest)
            case Scan(more, _) => Lex(t) == Scan([token] + more, [])
            case Fail(e) => Lex(t) == Fail(e)
  {
    hide OneToken;
  }
}
