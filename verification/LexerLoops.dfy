/** The lexer as it runs: one index moves over the text and tokens are pushed. */
module LexerLoops {
  import opened Syntax
  import opened Lexing

  datatype Outcome = Done | Threw(error: LexError)

  /** `all` is what comes of `p` after `xs` has been read. */
  ghost predicate After<T>(all: Scanned<seq<T>>, xs: seq<T>, p: Scanned<seq<T>>) {
    match p
    case Scan(more, rest) => all == Scan(xs + more, rest)
    case Fail(e) => all == Fail(e)
  }

  lemma {:induction false} AfterNone<T>(p: Scanned<seq<T>>)
    ensures After(p, [], p)
  {
    if p.Scan? { assert [] + p.value == p.value; }
  }

  /** One more character of a string. */
  lemma {:induction false} AfterCharacter(all: Scanned<Text>, xs: Text, t: Text, quote: Unit)
    requires After(all, xs, StringTail(t, quote)) && t != [] && t[0] != quote
    ensures match OneCharacter(t)
            case Scan(c, rest) => After(all, xs + [c], StringTail(rest, quote))
            case Fail(e) => all == Fail(e)
  {
    hide OneCharacter;
    if OneCharacter(t).Scan? && StringTail(OneCharacter(t).rest, quote).Scan? {
      var c, more := OneCharacter(t).value, StringTail(OneCharacter(t).rest, quote).value;
      assert xs + ([c] + more) == xs + [c] + more;
    }
  }

  lemma {:induction false} AfterQuote(all: Scanned<Text>, xs: Text, t: Text, quote: Unit)
    requires After(all, xs, StringTail(t, quote)) && t != [] && t[0] == quote
    ensures all == Scan(xs, t[1..])
  {
    assert xs + [] == xs;
  }

  lemma {:induction false} Unterminated(all: Scanned<Text>, xs: Text, t: Text, quote: Unit)
    requires After(all, xs, StringTail(t, quote)) && quote != BACKSLASH
    requires t == [] || t == [BACKSLASH]
    ensures all == Fail(UnterminatedQuote)
  {
  }

  lemma {:induction false} AfterToken(all: Scanned<seq<Token>>, xs: seq<Token>, t: Text)
    requires After(all, xs, Lex(t)) && t != [] && !IsWhitespace(t[0])
    ensures match OneToken(t)
            case Scan(token, rest) => After(all, xs + [token], Lex(rest))
            case Fail(e) => all == Fail(e)
  {
    hide OneToken;
    if OneToken(t).Scan? && Lex(OneToken(t).rest).Scan? {
      var token, more := OneToken(t).value, Lex(OneToken(t).rest).value;
      assert xs + ([token] + more) == xs + [token] + more;
    }
  }

  class Lexer {
    const text: Text
    var index: nat
    var tokens: seq<Token>

    constructor (text: Text)
      ensures this.text == text && index == 0 && tokens == []
    {
      this.text, index, tokens := text, 0, [];
    }

    /** The text that is left. */
    ghost function Left(): Text
      requires index <= |text|
      reads this`index
    {
      text[index..]
    }

    /** One token was pushed and the index stands behind it, or there was an error. */
    ghost predicate Pushed(r: Outcome, before: seq<Token>, s: Scanned<Token>)
      reads this
    {
      match s
      case Scan(token, rest) => r.Done? && tokens == before + [token] && index <= |text| && Left() == rest
      case Fail(e) => r == Threw(e)
    }

    method ReadString() returns (r: Outcome)
      requires index < |text| && (text[index] == DOUBLE || text[index] == QUOTE)
      modifies this
      ensures Pushed(r, old(tokens), OneToken(old(Left())))
    {
      hide StringTail, NumberTail, IdentLength, OperatorAt, Punctuation;
      var s: Text;
      assert Left()[1..] == text[index + 1..];
      r, s := ReadQuoted(text[index]);
      if r.Done? { tokens := tokens + [Const(Quoted(s))]; }
    }

    /** The loop of `readString`. */
    method ReadQuoted(quote: Unit) returns (r: Outcome, s: Text)
      requires index < |text| && quote != BACKSLASH
      modifies this`index
      ensures match StringTail(text[old(index) + 1..], quote)
              case Scan(v, rest) => r.Done? && s == v && index <= |text| && text[index..] == rest
              case Fail(e) => r == Threw(e)
    {
      hide OneCharacter, StringTail;
      index := index + 1;
      var escape := false;
      s := [];
      ghost var all := StringTail(text[index..], quote);
      AfterNone(all);
      while index < |text|
        invariant index <= |text|
        invariant escape ==> index > 0 && text[index - 1] == BACKSLASH
        invariant After(all, s, StringTail(text[index - (if escape then 1 else 0)..], quote))
        decreases |text| - index
      {
        var c := text[index];
        ghost var t := text[index - (if escape then 1 else 0)..];
        if escape {
          AfterCharacter(all, s, t, quote);
          var ok, u := ReadEscape();
          if !ok { return Threw(InvalidEscape), s; }
          s := s + [u];
          escape := false;
        } else if c == BACKSLASH {
          escape := true;
        } else if c == quote {
          AfterQuote(all, s, t, quote);
          assert t[1..] == text[index + 1..];
          index := index + 1;
          return Done, s;
        } else {
          AfterCharacter(all, s, t, quote);
          PlainCharacter(t);
          assert t[1..] == text[index + 1..];
          s := s + [c];
        }
        index := index + 1;
      }
      assert text[index - (if escape then 1 else 0)..] == if escape then [BACKSLASH] else [];
      Unterminated(all, s, text[index - (if escape then 1 else 0)..], quote);
      return Threw(UnterminatedQuote), s;
    }

    /** The character after a backslash, or the four after `\u`; the index stays on the last one. */
    method ReadEscape() returns (ok: bool, u: Unit)
      requires 0 < index < |text| && text[index - 1] == BACKSLASH
      modifies this`index
      ensures match OneCharacter(text[old(index) - 1..])
              case Scan(v, rest) => ok && u == v && index < |text| && text[index + 1..] == rest && old(index) <= index
              case Fail(e) => !ok && e == InvalidEscape
    {
      hide OneCharacter, FourHex, IsHex, Unescaped;
      ghost var t := text[index - 1..];
      Escapes(t);
      if text[index] == SMALL_U {
        if index + 5 > |text| || !IsHex(text[index + 1]) || !IsHex(text[index + 2]) || !IsHex(text[index + 3]) ||
           !IsHex(text[index + 4]) {
          return false, 0;
        }
        assert t[2..][..4] == text[index + 1..index + 5];
        assert t[6..] == text[index + 5..];
        SameHex(t[2..], text[index + 1..index + 5]);
        u := FourHex(text[index + 1..index + 5]);
        index := index + 4;
      } else {
        assert t[2..] == text[index + 1..];
        u := Unescaped(text[index]);
      }
      ok := true;
    }

    lemma {:induction false} Escapes(t: Text)
      requires |t| > 1 && t[0] == BACKSLASH
      ensures t[1] != SMALL_U ==> OneCharacter(t) == Scan(Unescaped(t[1]), t[2..])
      ensures t[1] == SMALL_U && (|t| < 6 || !IsHex(t[2]) || !IsHex(t[3]) || !IsHex(t[4]) || !IsHex(t[5])) ==>
                OneCharacter(t) == Fail(InvalidEscape)
      ensures t[1] == SMALL_U && |t| >= 6 && IsHex(t[2]) && IsHex(t[3]) && IsHex(t[4]) && IsHex(t[5]) ==>
                OneCharacter(t) == Scan(FourHex(t[2..]), t[6..])
    {
    }

    lemma {:induction false} SameHex(t: Text, u: Text)
      requires |t| >= 4 && u == t[..4] && IsHex(t[0]) && IsHex(t[1]) && IsHex(t[2]) && IsHex(t[3])
      ensures FourHex(u) == FourHex(t)
    {
    }

    lemma {:induction false} PlainCharacter(t: Text)
      requires t != [] && t[0] != BACKSLASH
      ensures OneCharacter(t) == Scan(t[0], t[1..])
    {
    }

    method ReadNumber() returns (r: Outcome)
      requires index < |text| && (IsDigit(text[index]) || (text[index] == DOT && index + 1 < |text| && IsDigit(text[index + 1])))
      modifies this
      ensures Pushed(r, old(tokens), OneToken(old(Left())))
    {
      hide StringTail, IdentLength, OperatorAt, Punctuation;
      ghost var all := NumberTail([], Left());
      var number: Text := [];
      while index < |text|
        invariant index <= |text| && tokens == old(tokens)
        invariant NumberTail(number, Left()) == all
        decreases |text| - index
      {
        var d := Lower(text[index]);
        var next := index + 1 < |text| && IsDigit(text[index + 1]);
        var afterE := number != [] && number[|number| - 1] == SMALL_E;
        assert Left()[1..] == text[index + 1..];
        if d == DOT || IsDigit(d) {
          number := number + [d];
        } else if d == SMALL_E && index + 1 < |text| && IsExpOperator(text[index + 1]) {
          number := number + [d];
        } else if IsExpOperator(d) && next && afterE {
          number := number + [d];
        } else if !IsExpOperator(d) || next || !afterE {
          break;
        } else {
          return Threw(InvalidExponent);
        }
        index := index + 1;
      }
      assert all == Scan(number, Left());
      tokens := tokens + [Const(Number(number))];
      return Done;
    }

    method ReadIdent()
      requires index < |text| && IsIdent(text[index])
      modifies this
      ensures Pushed(Done, old(tokens), OneToken(old(Left())))
    {
      hide StringTail, NumberTail, OperatorAt, Punctuation;
      var start := index;
      while index < |text| && (IsIdent(text[index]) || IsDigit(text[index]))
        invariant start <= index <= |text| && tokens == old(tokens)
        invariant IdentLength(text[start..]) == index - start + IdentLength(Left())
        decreases |text| - index
      {
        assert Left()[1..] == text[index + 1..];
        index := index + 1;
      }
      assert text[start..][..index - start] == text[start..index];
      tokens := tokens + [Name(text[start..index])];
    }

    method ReadSymbol() returns (r: Outcome)
      requires index < |text| && !IsDigit(text[index]) && !IsIdent(text[index])
      requires text[index] != QUOTE && text[index] != DOUBLE
      requires !(text[index] == DOT && index + 1 < |text| && IsDigit(text[index + 1]))
      modifies this
      ensures Pushed(r, old(tokens), OneToken(old(Left())))
    {
      hide StringTail, NumberTail, IdentLength, OperatorAt, SymbolText;
      var a := text[index];
      ghost var t := Left();
      if Punctuation(a) != [] {
        tokens := tokens + [Sym(Punctuation(a)[0])];
        index := index + 1;
        return Done;
      }
      OperatorIsPrefix(t);
      var f := if index + 2 < |text| then Operator3(a, text[index + 1], text[index + 2]) else [];
      var e := if index + 1 < |text| then Operator2(a, text[index + 1]) else [];
      OperatorChoice(t, f, e);
      if f == [] && e == [] && Operator1(a) == [] { return Threw(UnexpectedCharacter); }
      var op := if f != [] then f[0] else if e != [] then e[0] else Operator1(a)[0];
      tokens := tokens + [Sym(op)];
      index := index + |SymbolText(op)|;
      return Done;
    }

    lemma {:induction false} OperatorChoice(t: Text, f: seq<Symbol>, e: seq<Symbol>)
      requires t != []
      requires f == if |t| > 2 then Operator3(t[0], t[1], t[2]) else []
      requires e == if |t| > 1 then Operator2(t[0], t[1]) else []
      ensures OperatorAt(t) == if f != [] then f else if e != [] then e else Operator1(t[0])
    {
    }

    /** `lex`. */
    method Run() returns (r: Outcome)
      requires index == 0 && tokens == []
      modifies this
      ensures match Lex(text)
              case Scan(ts, _) => r.Done? && tokens == ts && index == |text|
              case Fail(e) => r == Threw(e)
    {
      hide OneToken, Lex;
      ghost var all := Lex(text);
      AfterNone(all);
      assert Left() == text;
      while index < |text|
        invariant index <= |text| && After(all, tokens, Lex(Left()))
        decreases |text| - index
      {
        var a := text[index];
        ghost var t, before := Left(), tokens;
        if IsWhitespace(a) {
          LexWhitespace(t);
          assert t[1..] == text[index + 1..];
          index := index + 1;
        } else {
          AfterToken(all, tokens, t);
          if a == DOUBLE || a == QUOTE {
            r := ReadString();
          } else if IsDigit(a) || (a == DOT && index + 1 < |text| && IsDigit(text[index + 1])) {
            r := ReadNumber();
          } else if IsIdent(a) {
            ReadIdent();
            r := Done;
          } else {
            r := ReadSymbol();
          }
          if r.Threw? { return; }
          TokenAdvances(t);
        }
      }
      LexEnd(Left());
      assert tokens + [] == tokens;
      return Done;
    }

    lemma {:induction false} LexWhitespace(t: Text)
      requires t != [] && IsWhitespace(t[0])
      ensures Lex(t) == Lex(t[1..])
    {
    }

    lemma {:induction false} LexEnd(t: Text)
      requires t == []
      ensures Lex(t) == Scan([], [])
    {
    }

    /** The index strictly advances. */
    lemma {:induction false} TokenAdvances(t: Text)
      requires t != []
      ensures OneToken(t).Scan? ==> |OneToken(t).rest| < |t|
    {
      hide StringTail, NumberTail, IdentLength, OperatorAt, Punctuation;
    }
  }
}
