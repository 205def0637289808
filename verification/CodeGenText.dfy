/** The compiler as the program runs it: an object that appends text to the current function
  * body.  Text is a list of chunks; every brace that can stand at the head of a statement is a
  * chunk of its own. */
module CodeGenText {
  import opened Expressions
  import opened CodeGen
  import opened CodeGenCorrect

  /** Pieces pushed onto a body: a statement without a leading brace, `if(c){`, `}`, `else{`,
    * and the parts of an object literal that begins a statement: `{`, `'key':value` and `};`. */
  datatype Chunk =
    | Simple(stmt: Stmt)
    | OpenIf(cond: JExpr)
    | OpenElse
    | Close
    | OpenBrace
    | Entry(key: string, value: JExpr)
    | CloseBrace

  predicate Braceless(c: Stmt) {
    !c.If? && !c.IfElse? && !(c.Discard? && c.e.JObject?)
  }

  function Entries(keys: seq<string>, values: seq<JExpr>): seq<Chunk> {
    if keys == [] || values == [] then []
    else [Entry(keys[0], values[0])] + Entries(keys[1..], values[1..])
  }

  /** The text of an operand followed by a semicolon. */
  function DiscardText(e: JExpr): seq<Chunk> {
    match e
    case JObject(keys, values) => [OpenBrace] + Entries(keys, values) + [CloseBrace]
    case _ => [Simple(Discard(e))]
  }

  function TextOne(c: Stmt): seq<Chunk>
    decreases c
  {
    match c
    case If(cond, thn) => [OpenIf(cond)] + Text(thn) + [Close]
    case IfElse(cond, thn, els) => [OpenIf(cond)] + Text(thn) + [Close, OpenElse] + Text(els) + [Close]
    case Discard(e) => DiscardText(e)
    case _ => [Simple(c)]
  }

  function Text(code: seq<Stmt>): seq<Chunk>
    decreases code
  {
    if code == [] then [] else TextOne(code[0]) + Text(code[1..])
  }

  /** Reads statements up to the first unmatched `}` or the end; `None` is a syntax error.
    * A brace at the head of a statement opens a block: an empty one does nothing, and in any
    * other the compiler writes a string and a colon, which no statement begins with. */
  function ReadBlock(text: seq<Chunk>): (r: Option<(seq<Stmt>, seq<Chunk>)>)
    ensures r.Some? ==> |r.value.1| <= |text|
    ensures r.Some? ==> r.value.1 == [] || r.value.1[0] == Close
    decreases |text|
  {
    if text == [] || text[0] == Close then Some(([], text))
    else if text[0].OpenElse? || text[0].Entry? || text[0].CloseBrace? then None
    else if text[0].OpenBrace? then
      if |text| == 1 || text[1] != CloseBrace then None
      else
        match ReadBlock(text[2..])
        case None => None
        case Some((code, rest)) => Some(([Discard(JObject([], []))] + code, rest))
    else if text[0].Simple? then
      if !Braceless(text[0].stmt) then None
      else
        match ReadBlock(text[1..])
        case None => None
        case Some((code, rest)) => Some(([text[0].stmt] + code, rest))
    else
      match ReadBlock(text[1..])
      case None => None
      case Some((thn, rest)) =>
        if rest == [] then None
        else if |rest| > 1 && rest[1] == OpenElse then
          match ReadBlock(rest[2..])
          case None => None
          case Some((els, rest2)) =>
            if rest2 == [] then None
            else
              match ReadBlock(rest2[1..])
              case None => None
              case Some((code, rest3)) => Some(([IfElse(text[0].cond, thn, els)] + code, rest3))
        else
          match ReadBlock(rest[1..])
          case None => None
          case Some((code, rest3)) => Some(([If(text[0].cond, thn)] + code, rest3))
  }

  lemma {:induction false} TextConcat(a: seq<Stmt>, b: seq<Stmt>)
    ensures Text(a + b) == Text(a) + Text(b)
  {
    if a == [] {
      assert a + b == b;
    } else {
      assert (a + b)[1..] == a[1..] + b;
      TextConcat(a[1..], b);
    }
  }

  lemma {:induction false} TextNoElse(code: seq<Stmt>)
    ensures code != [] ==> Text(code) != [] && Text(code)[0] != OpenElse
  {
  }

  /** What reading one more statement, or several, in front of `r` gives. */
  function Before(code: seq<Stmt>, r: Option<(seq<Stmt>, seq<Chunk>)>): Option<(seq<Stmt>, seq<Chunk>)> {
    match r
    case None => None
    case Some((more, rest)) => Some((code + more, rest))
  }

  /** A literal with keys at the head of a statement. */
  predicate KeyedLiteral(c: Stmt) {
    c.Discard? && c.e.JObject? && !(c.e.keys == [] && c.e.elems == [])
  }

  ghost predicate WritableOne(c: Stmt)
    decreases c
  {
    match c
    case If(_, thn) => Writable(thn)
    case IfElse(_, thn, els) => Writable(thn) && Writable(els)
    case _ => !KeyedLiteral(c)
  }

  /** No statement, at any depth, is an object literal with keys. */
  ghost predicate Writable(code: seq<Stmt>)
    decreases code
  {
    code == [] || (WritableOne(code[0]) && Writable(code[1..]))
  }

  lemma {:induction false} WritableConcat(a: seq<Stmt>, b: seq<Stmt>)
    ensures Writable(a + b) <==> Writable(a) && Writable(b)
  {
    if a == [] {
      assert a + b == b;
    } else {
      assert (a + b)[1..] == a[1..] + b;
      WritableConcat(a[1..], b);
    }
  }

  lemma {:induction false} WritableSingle(c: Stmt)
    ensures Writable([c]) <==> WritableOne(c)
  {
    assert Writable([c][1..]);
  }

  lemma {:induction false} WritableLast(code: seq<Stmt>, c: Stmt)
    requires Writable(code) && WritableOne(c)
    ensures Writable(code + [c])
  {
    WritableConcat(code, [c]);
    WritableSingle(c);
  }

  /** The braces are unambiguous: in front of any text that does not go on with an `else`, a
    * writable text reads back as the statements it was written from. */
  lemma {:induction false} ReadText(code: seq<Stmt>, tail: seq<Chunk>)
    requires Writable(code)
    requires tail == [] || tail[0] != OpenElse
    ensures ReadBlock(Text(code) + tail) == Before(code, ReadBlock(tail))
    decreases code
  {
    hide ReadBlock, TextOne;
    if code == [] {
      assert Text(code) + tail == tail;
      BeforeNothing(ReadBlock(tail));
    } else {
      var next := Text(code[1..]) + tail;
      ReadText(code[1..], tail);
      assert Text(code) + tail == TextOne(code[0]) + next;
      TextNoElse(code[1..]);
      ReadTextOne(code[0], next);
      BeforeMore(code, ReadBlock(tail));
    }
  }

  lemma {:induction false} BeforeNothing(r: Option<(seq<Stmt>, seq<Chunk>)>)
    ensures Before([], r) == r
  {
    if r.Some? { assert [] + r.value.0 == r.value.0; }
  }

  lemma {:induction false} BeforeMore(code: seq<Stmt>, r: Option<(seq<Stmt>, seq<Chunk>)>)
    requires code != []
    ensures Before([code[0]], Before(code[1..], r)) == Before(code, r)
  {
    if r.Some? {
      assert [code[0]] + (code[1..] + r.value.0) == code + r.value.0;
    }
  }

  lemma {:induction false} ReadTextOne(c: Stmt, tail: seq<Chunk>)
    requires WritableOne(c)
    requires tail == [] || tail[0] != OpenElse
    ensures ReadBlock(TextOne(c) + tail) == Before([c], ReadBlock(tail))
    decreases c
  {
    match c
    case If(cond, thn) =>
      ReadText(thn, [Close] + tail);
      RegroupIf([OpenIf(cond)], Text(thn), [Close], tail);
      ReadIf(cond, thn, Text(thn), tail);
    case IfElse(cond, thn, els) =>
      ReadText(thn, [Close, OpenElse] + (Text(els) + ([Close] + tail)));
      ReadText(els, [Close] + tail);
      RegroupIfElse([OpenIf(cond)], Text(thn), [Close, OpenElse], Text(els), [Close], tail);
      ReadIfElse(cond, thn, Text(thn), els, Text(els), tail);
    case _ =>
      ReadSimple(c, tail);
  }

  lemma {:induction false} ReadSimple(c: Stmt, tail: seq<Chunk>)
    requires !c.If? && !c.IfElse? && !KeyedLiteral(c)
    ensures ReadBlock(TextOne(c) + tail) == Before([c], ReadBlock(tail))
  {
    if c.Discard? && c.e.JObject? {
      var text := TextOne(c) + tail;
      assert text == [OpenBrace, CloseBrace] + tail;
      assert text[2..] == tail;
    } else {
      assert TextOne(c) == [Simple(c)];
      assert ([Simple(c)] + tail)[1..] == tail;
    }
  }

  /** A literal with keys is no statement, whatever follows it. */
  lemma {:induction false} ReadKeyed(c: Stmt, tail: seq<Chunk>)
    requires c.Discard? && c.e.JObject? && c.e.keys != [] && c.e.elems != []
    ensures ReadBlock(TextOne(c) + tail) == None
  {
    var text := TextOne(c) + tail;
    assert text[0] == OpenBrace && text[1] == Entry(c.e.keys[0], c.e.elems[0]);
  }

  lemma {:induction false} RegroupIf(a: seq<Chunk>, b: seq<Chunk>, c: seq<Chunk>, d: seq<Chunk>)
    ensures a + b + c + d == a + (b + (c + d))
  {
  }

  lemma {:induction false} RegroupIfElse(a: seq<Chunk>, b: seq<Chunk>, c: seq<Chunk>, d: seq<Chunk>, e: seq<Chunk>, f: seq<Chunk>)
    ensures a + b + c + d + e + f == a + (b + (c + (d + (e + f))))
  {
    RegroupIf(a + b + c, d, e, f);
    RegroupIf(a, b, c, d + (e + f));
  }

  lemma {:induction false} ReadIf(cond: JExpr, thn: seq<Stmt>, thnText: seq<Chunk>, tail: seq<Chunk>)
    requires ReadBlock(thnText + ([Close] + tail)) == Before(thn, Some(([], [Close] + tail)))
    requires tail == [] || tail[0] != OpenElse
    ensures ReadBlock([OpenIf(cond)] + (thnText + ([Close] + tail))) == Before([If(cond, thn)], ReadBlock(tail))
  {
    var text := [OpenIf(cond)] + (thnText + ([Close] + tail));
    assert text[1..] == thnText + ([Close] + tail);
    assert ([Close] + tail)[1..] == tail;
    assert thn + [] == thn;
  }

  lemma {:induction false} ReadIfElse(cond: JExpr, thn: seq<Stmt>, thnText: seq<Chunk>, els: seq<Stmt>, elsText: seq<Chunk>,
                   tail: seq<Chunk>)
    requires var afterThen := [Close, OpenElse] + (elsText + ([Close] + tail));
             ReadBlock(thnText + afterThen) == Before(thn, Some(([], afterThen)))
    requires ReadBlock(elsText + ([Close] + tail)) == Before(els, Some(([], [Close] + tail)))
    ensures ReadBlock([OpenIf(cond)] + (thnText + ([Close, OpenElse] + (elsText + ([Close] + tail)))))
         == Before([IfElse(cond, thn, els)], ReadBlock(tail))
  {
    hide ReadBlock;
    var afterThen := [Close, OpenElse] + (elsText + ([Close] + tail));
    var text := [OpenIf(cond)] + (thnText + afterThen);
    assert text[1..] == thnText + afterThen;
    assert afterThen[2..] == elsText + ([Close] + tail);
    assert ([Close] + tail)[1..] == tail;
    assert thn + [] == thn && els + [] == els;
    ReadBothBranches(text, thn, afterThen, els, [Close] + tail);
  }

  lemma {:induction false} ReadBothBranches(text: seq<Chunk>, thn: seq<Stmt>, afterThen: seq<Chunk>, els: seq<Stmt>, afterElse: seq<Chunk>)
    requires text != [] && text[0].OpenIf? && ReadBlock(text[1..]) == Some((thn, afterThen))
    requires |afterThen| > 1 && afterThen[1] == OpenElse && ReadBlock(afterThen[2..]) == Some((els, afterElse))
    requires afterElse != []
    ensures ReadBlock(text) == Before([IfElse(text[0].cond, thn, els)], ReadBlock(afterElse[1..]))
  {
  }

  lemma {:induction false} TextSingle(c: Stmt)
    ensures Text([c]) == TextOne(c)
  {
    assert [c][1..] == [];
  }

  lemma {:induction false} Regroup3(a: seq<Chunk>, b: seq<Chunk>, c: seq<Chunk>, d: seq<Chunk>, e: seq<Chunk>)
    ensures a + b + c + d + e == a + (b + (c + d + e))
  {
  }

  lemma {:induction false} Regroup5(a: seq<Chunk>, b: seq<Chunk>, c: seq<Chunk>, d: seq<Chunk>, e: seq<Chunk>, f: seq<Chunk>, g: seq<Chunk>)
    ensures a + b + c + d + e + f + g == a + (b + (c + d + e + f + g))
  {
    assert a + b + c + d + e + f + g == a + (b + c + d + e + f + g);
    assert b + c + d + e + f + g == b + (c + d + e + f + g);
  }

  /** The pushes of `if_` with one branch, after `code` on a body that held `pre`. */
  lemma {:induction false} PushedIf(pre: seq<Chunk>, code: seq<Stmt>, cond: JExpr, thn: seq<Stmt>)
    ensures pre + Text(code) + [OpenIf(cond)] + Text(thn) + [Close] == pre + Text(code + [If(cond, thn)])
  {
    TextConcat(code, [If(cond, thn)]);
    TextSingle(If(cond, thn));
    Regroup3(pre, Text(code), [OpenIf(cond)], Text(thn), [Close]);
  }

  /** The pushes of `if_` with both branches. */
  lemma {:induction false} PushedIfElse(pre: seq<Chunk>, code: seq<Stmt>, cond: JExpr, thn: seq<Stmt>, els: seq<Stmt>)
    ensures pre + Text(code) + [OpenIf(cond)] + Text(thn) + [Close, OpenElse] + Text(els) + [Close]
         == pre + Text(code + [IfElse(cond, thn, els)])
  {
    TextConcat(code, [IfElse(cond, thn, els)]);
    TextSingle(IfElse(cond, thn, els));
    Regroup5(pre, Text(code), [OpenIf(cond)], Text(thn), [Close, OpenElse], Text(els), [Close]);
  }

  /** The same with nothing written before the `if`. */
  lemma {:induction false} PushedIfElseOnly(pre: seq<Chunk>, cond: JExpr, thn: seq<Stmt>, els: seq<Stmt>)
    ensures pre + [OpenIf(cond)] + Text(thn) + [Close, OpenElse] + Text(els) + [Close]
         == pre + Text([IfElse(cond, thn, els)])
  {
    PushedIfElse(pre, [], cond, thn, els);
    assert pre + Text([]) == pre;
    assert [] + [IfElse(cond, thn, els)] == [IfElse(cond, thn, els)];
  }

  lemma {:induction false} PushedIfOnly(pre: seq<Chunk>, cond: JExpr, thn: seq<Stmt>)
    ensures pre + [OpenIf(cond)] + Text(thn) + [Close] == pre + Text([If(cond, thn)])
  {
    PushedIf(pre, [], cond, thn);
    assert pre + Text([]) == pre;
    assert [] + [If(cond, thn)] == [If(cond, thn)];
  }

  lemma {:induction false} PushedMore(pre: seq<Chunk>, a: seq<Stmt>, b: seq<Stmt>)
    ensures pre + Text(a) + Text(b) == pre + Text(a + b)
  {
    TextConcat(a, b);
  }

  // ------------------------------------------------------------------------ whole functions

  /** A generated function: its `var` line, its body and what it returns. */
  datatype Function = Function(vars: seq<VarDecl>, body: seq<Chunk>, result: Option<JExpr>)

  const EMPTY: GenState := GenState(0, map[], [])

  function Start(base: nat): GenState {
    EMPTY.(next := base)
  }

  /** A program's statements: all but the last are evaluated for nothing. */
  function GenerateProgram(es: seq<Expr>, st: GenState): (GenState, seq<Stmt>, Option<JExpr>)
    decreases es
  {
    if es == [] then (st, [], None)
    else
      var g := Generate(es[0], None, st, false);
      if |es| == 1 then (g.st, g.code, Some(g.out))
      else
        var (st1, code, out) := GenerateProgram(es[1..], g.st);
        (st1, g.code + [Discard(g.out)] + code, out)
  }

  function MainFunction(es: seq<Expr>, base: nat): Function {
    var (st, code, out) := GenerateProgram(es, Start(base));
    Function(st.vars, Text(code), out)
  }

  /** `fn0`, `fn1`, ...: a watched input as a function of the scope alone. */
  function InputFunction(e: Expr, base: nat): Function {
    var g := Generate(e, Some(base), Start(base).Fresh(), true);
    Function(g.st.vars, Text(g.code), Some(Temp(base)))
  }

  /** Makes and calls a generated function; `None` is a syntax error or a thrown exception. */
  function Run(fn: Function, f: Frame): Option<Value> {
    match ReadBlock(fn.body)
    case None => None
    case Some((code, rest)) =>
      if rest != [] || (Flagged(fn.vars) && !TestsLocals(f.l)) then None
      else
        match Exec(code, f, EntryEnv(fn.vars, f))
        case None => None
        case Some(env) =>
          Some(if fn.result.Some? then EvalJ(fn.result.value, f, env) else Undefined)
  }

  /** The interpreter's program: every statement, then the value of the last. */
  function EvalProgram(es: seq<Expr>, f: Frame): Value {
    if es == [] then Undefined else Eval(es[|es|-1], f.host, f.s, f.l, f.i)
  }

  /** The compiler object of one function under construction. */
  class Compiler {
    var nextId: nat
    var own: map<string, nat>
    var vars: seq<VarDecl>
    var body: seq<Chunk>

    constructor (base: nat)
      ensures State() == Start(base) && body == []
    {
      nextId, own, vars, body := base, map[], [], [];
    }

    function State(): GenState
      reads this
    {
      GenState(nextId, own, vars)
    }

    method NextId(local: Option<string>) returns (id: nat)
      modifies this`nextId, this`vars
      ensures id == old(nextId) && nextId == id + 1 && vars == old(vars) + [VarDecl(id, local)]
    {
      id := nextId;
      nextId := nextId + 1;
      vars := vars + [VarDecl(id, local)];
    }

    method GetHasOwnProperty(name: string) returns (id: nat)
      modifies this`nextId, this`vars, this`own
      ensures (State(), id) == old(State()).Flag(name)
    {
      if name !in own {
        id := NextId(Some(name));
        own := own[name := id];
      } else {
        id := own[name];
      }
    }

    method Target(c: Option<nat>) returns (id: nat)
      modifies this`nextId, this`vars
      ensures (State(), id) == old(State()).Target(c)
    {
      match c
      case Some(t) => id := t;
      case None => id := NextId(None);
    }

    method Push(stmt: Stmt)
      requires Braceless(stmt)
      modifies this`body
      ensures body == old(body) + Text([stmt])
    {
      body := body + [Simple(stmt)];
    }

    /** An operand for nothing, whatever text it has, and a semicolon. */
    method PushOperand(e: JExpr)
      modifies this`body
      ensures body == old(body) + Text([Discard(e)])
    {
      body := body + DiscardText(e);
    }

    method AssignTo(c: Option<nat>, e: JExpr)
      modifies this`body
      ensures body == old(body) + Text(AssignOpt(c, e))
    {
      match c
      case Some(id) => Push(Assign(id, e));
      case None =>
    }

    /** `recurse`: the pushes made while walking `e` spell out exactly `Generate(e, c, ...)`. */
    method Recurse(e: Expr, c: Option<nat>, inputs: bool) returns (out: JExpr)
      requires Compilable(e)
      modifies this
      ensures var g := Generate(e, c, old(State()), inputs);
              State() == g.st && out == g.out && body == old(body) + Text(g.code)
      decreases e, 1
    {
      match e
      case Literal(v) => out := Lit(v); AssignTo(c, out);
      case This => out := Scope; AssignTo(c, out);
      case Unary(op, a) => out := RecurseUnary(op, a, c, inputs);
      case Binary(op, a, b) => out := RecurseBinary(op, a, b, c, inputs);
      case Logical(isAnd, a, b) => out := RecurseLogical(isAnd, a, b, c, inputs);
      case Conditional(p, a, b) => out := RecurseConditional(p, a, b, c, inputs);
      case Ident(name) => out := RecurseIdent(name, c, inputs);
      case Member(o, name) => out := RecurseMember(o, name, c, inputs);
      case Computed(o, p) => out := RecurseComputed(o, p, c, inputs);
      case ArrayLit(es) => out := RecurseArray(es, c, inputs);
      case ObjectLit(keys, vs) => out := RecurseObject(keys, vs, c, inputs);
      case Watched(id, n) => out := RecurseWatched(id, n, c, inputs);
    }

    method RecurseUnary(op: UnaryOp, a: Expr, c: Option<nat>, inputs: bool) returns (out: JExpr)
      requires Compilable(a)
      modifies this
      ensures var g := Generate(Unary(op, a), c, old(State()), inputs);
              State() == g.st && out == g.out && body == old(body) + Text(g.code)
      decreases Unary(op, a), 0
    {
      hide Text, TextOne;
      ghost var pre, st0 := body, State();
      var l := Recurse(a, None, inputs);
      out := JUnary(op, JIfDefined(l));
      AssignTo(c, out);
      PushedMore(pre, Generate(a, None, st0, inputs).code, AssignOpt(c, out));
    }

    method RecurseBinary(op: BinaryOp, a: Expr, b: Expr, c: Option<nat>, inputs: bool) returns (out: JExpr)
      requires Compilable(a) && Compilable(b)
      modifies this
      ensures var g := Generate(Binary(op, a, b), c, old(State()), inputs);
              State() == g.st && out == g.out && body == old(body) + Text(g.code)
      decreases Binary(op, a, b), 0
    {
      hide Text, TextOne, Generate, Compilable;
      ghost var pre, st0 := body, State();
      BinaryCode(op, a, b, c, st0, inputs);
      var h := Recurse(a, None, inputs);
      ghost var st1 := State();
      var l := Recurse(b, None, inputs);
      out := BinaryText(op, h, l);
      AssignTo(c, out);
      ghost var x, y := Generate(a, None, st0, inputs).code, Generate(b, None, st1, inputs).code;
      PushedMore(pre, x, y);
      PushedMore(pre, x + y, AssignOpt(c, out));
    }

    method RecurseLogical(isAnd: bool, a: Expr, b: Expr, c: Option<nat>, inputs: bool) returns (out: JExpr)
      requires Compilable(a) && Compilable(b)
      modifies this
      ensures var g := Generate(Logical(isAnd, a, b), c, old(State()), inputs);
              State() == g.st && out == g.out && body == old(body) + Text(g.code)
      decreases Logical(isAnd, a, b), 0
    {
      hide Text, TextOne, Generate, Compilable;
      ghost var pre := body;
      LogicalCode(isAnd, a, b, c, State(), inputs);
      var t := Target(c);
      ghost var st0 := State();
      var _ := Recurse(a, Some(t), inputs);
      ghost var st1 := State();
      var cond := if isAnd then Temp(t) else JNot(Temp(t));
      body := body + [OpenIf(cond)];
      var _ := Recurse(b, Some(t), inputs);
      body := body + [Close];
      out := Temp(t);
      PushedIf(pre, Generate(a, Some(t), st0, inputs).code, cond, Generate(b, Some(t), st1, inputs).code);
    }

    method RecurseConditional(p: Expr, a: Expr, b: Expr, c: Option<nat>, inputs: bool) returns (out: JExpr)
      requires Compilable(p) && Compilable(a) && Compilable(b)
      modifies this
      ensures var g := Generate(Conditional(p, a, b), c, old(State()), inputs);
              State() == g.st && out == g.out && body == old(body) + Text(g.code)
      decreases Conditional(p, a, b), 0
    {
      hide Text, TextOne, Generate, Compilable;
      ghost var pre := body;
      ConditionalCode(p, a, b, c, State(), inputs);
      var t := Target(c);
      ghost var st0 := State();
      var _ := Recurse(p, Some(t), inputs);
      ghost var st1 := State();
      body := body + [OpenIf(Temp(t))];
      var _ := Recurse(a, Some(t), inputs);
      ghost var st2 := State();
      body := body + [Close, OpenElse];
      var _ := Recurse(b, Some(t), inputs);
      body := body + [Close];
      out := Temp(t);
      PushedIfElse(pre, Generate(p, Some(t), st0, inputs).code, Temp(t),
                   Generate(a, Some(t), st1, inputs).code, Generate(b, Some(t), st2, inputs).code);
    }

    method RecurseIdent(name: string, c: Option<nat>, inputs: bool) returns (out: JExpr)
      modifies this
      ensures var g := Generate(Ident(name), c, old(State()), inputs);
              State() == g.st && out == g.out && body == old(body) + Text(g.code)
    {
      ghost var pre := body;
      var t := Target(c);
      out := Temp(t);
      var fromScope, fromLocals := LoadName(t, Scope, name), LoadName(t, Locals, name);
      if inputs {
        Push(fromScope);
      } else {
        var flag := GetHasOwnProperty(name);
        body := body + [OpenIf(JNot(Temp(flag)))];
        body := body + [OpenIf(Scope)];
        Push(fromScope);
        body := body + [Close];
        PushedIfOnly(pre + [OpenIf(JNot(Temp(flag)))], Scope, [fromScope]);
        body := body + [Close, OpenElse];
        Push(fromLocals);
        body := body + [Close];
        PushedIfElseOnly(pre, JNot(Temp(flag)), [If(Scope, [fromScope])], [fromLocals]);
      }
    }

    method RecurseMember(o: Expr, name: string, c: Option<nat>, inputs: bool) returns (out: JExpr)
      requires Compilable(o) && !o.Watched?
      modifies this
      ensures var g := Generate(Member(o, name), c, old(State()), inputs);
              State() == g.st && out == g.out && body == old(body) + Text(g.code)
      decreases Member(o, name), 0
    {
      hide Text, TextOne, Generate, Compilable;
      ghost var pre := body;
      MemberCode(o, name, c, State(), inputs);
      var h := NextId(None);
      var t := Target(c);
      ghost var st0 := State();
      var _ := Recurse(o, Some(h), inputs);
      var load, clear := LoadName(t, Temp(h), name), Assign(t, Lit(Undefined));
      body := body + [OpenIf(JNotNull(Temp(h)))];
      Push(load);
      body := body + [Close, OpenElse];
      Push(clear);
      body := body + [Close];
      out := Temp(t);
      PushedIfElse(pre, Generate(o, Some(h), st0, inputs).code, JNotNull(Temp(h)), [load], [clear]);
    }

    method RecurseComputed(o: Expr, p: Expr, c: Option<nat>, inputs: bool) returns (out: JExpr)
      requires Compilable(o) && !o.Watched? && Compilable(p)
      modifies this
      ensures var g := Generate(Computed(o, p), c, old(State()), inputs);
              State() == g.st && out == g.out && body == old(body) + Text(g.code)
      decreases Computed(o, p), 0
    {
      hide Text, TextOne, Generate, Compilable;
      ghost var pre := body;
      ComputedCode(o, p, c, State(), inputs);
      var h := NextId(None);
      var t := Target(c);
      ghost var st0 := State();
      var _ := Recurse(o, Some(h), inputs);
      body := body + [OpenIf(JNotNull(Temp(h)))];
      ghost var st1 := State();
      RecurseProperty(p, h, t, inputs);
      body := body + [Close, OpenElse];
      Push(Assign(t, Lit(Undefined)));
      body := body + [Close];
      out := Temp(t);
      PushedIfElse(pre, Generate(o, Some(h), st0, inputs).code, JNotNull(Temp(h)),
                   Generate(p, Some(st1.next), st1.Fresh(), inputs).code + [LoadIndex(t, Temp(h), Temp(st1.next))],
                   [Assign(t, Lit(Undefined))]);
    }

    /** The branch of a computed member read in which the object is present. */
    method RecurseProperty(p: Expr, h: nat, t: nat, inputs: bool)
      requires Compilable(p)
      modifies this
      ensures var l := old(nextId);
              var k := Generate(p, Some(l), old(State()).Fresh(), inputs);
              State() == k.st && body == old(body) + Text(k.code + [LoadIndex(t, Temp(h), Temp(l))])
      decreases p, 2
    {
      hide Text, TextOne;
      ghost var pre := body;
      var l := NextId(None);
      ghost var st1 := State();
      var _ := Recurse(p, Some(l), inputs);
      Push(LoadIndex(t, Temp(h), Temp(l)));
      PushedMore(pre, Generate(p, Some(l), st1, inputs).code, [LoadIndex(t, Temp(h), Temp(l))]);
    }

    method RecurseWatched(id: nat, n: Expr, c: Option<nat>, inputs: bool) returns (out: JExpr)
      requires Compilable(n)
      modifies this
      ensures var g := Generate(Watched(id, n), c, old(State()), inputs);
              State() == g.st && out == g.out && body == old(body) + Text(g.code)
      decreases Watched(id, n), 0
    {
      hide Text, TextOne, Generate, Compilable;
      ghost var pre := body;
      WatchedCode(id, n, c, State(), inputs);
      var t := Target(c);
      ghost var st0 := State();
      body := body + [OpenIf(InputsGiven)];
      Push(Assign(t, InputAt(id)));
      body := body + [Close, OpenElse];
      out := Recurse(n, Some(t), inputs);
      body := body + [Close];
      ghost var els := Generate(n, Some(t), st0, inputs).code;
      PushedIfElseOnly(pre, InputsGiven, [Assign(t, InputAt(id))], els);
    }

    method RecurseArray(es: seq<Expr>, c: Option<nat>, inputs: bool) returns (out: JExpr)
      requires forall k :: 0 <= k < |es| ==> Compilable(es[k])
      modifies this
      ensures var g := Generate(ArrayLit(es), c, old(State()), inputs);
              State() == g.st && out == g.out && body == old(body) + Text(g.code)
      decreases ArrayLit(es), 0
    {
      hide Text, TextOne;
      ghost var pre, st0 := body, State();
      var m := RecurseAll(es, inputs);
      out := JArray(m);
      AssignTo(c, out);
      PushedMore(pre, GenerateAll(es, st0, inputs).1, AssignOpt(c, out));
    }

    method RecurseObject(keys: seq<string>, vs: seq<Expr>, c: Option<nat>, inputs: bool) returns (out: JExpr)
      requires forall k :: 0 <= k < |vs| ==> Compilable(vs[k])
      modifies this
      ensures var g := Generate(ObjectLit(keys, vs), c, old(State()), inputs);
              State() == g.st && out == g.out && body == old(body) + Text(g.code)
      decreases ObjectLit(keys, vs), 0
    {
      hide Text, TextOne;
      ghost var pre, st0 := body, State();
      var m := RecurseAll(vs, inputs);
      out := JObject(keys, m);
      AssignTo(c, out);
      PushedMore(pre, GenerateAll(vs, st0, inputs).1, AssignOpt(c, out));
    }

    method RecurseAll(es: seq<Expr>, inputs: bool) returns (m: seq<JExpr>)
      requires forall k :: 0 <= k < |es| ==> Compilable(es[k])
      modifies this
      ensures var (st, code, outs) := GenerateAll(es, old(State()), inputs);
              State() == st && m == outs && body == old(body) + Text(code)
      decreases es, 0
    {
      if es == [] {
        return [];
      }
      ghost var pre := body;
      var t := NextId(None);
      ghost var st0 := State();
      var first := Recurse(es[0], Some(t), inputs);
      ghost var st1 := State();
      var rest := RecurseAll(es[1..], inputs);
      m := [first] + rest;
      PushedMore(pre, Generate(es[0], Some(t), st0, inputs).code, GenerateAll(es[1..], st1, inputs).1);
    }

    /** The main stage of `compile`. */
    method CompileProgram(es: seq<Expr>) returns (fn: Function)
      requires forall k :: 0 <= k < |es| ==> Compilable(es[k])
      requires State() == Start(nextId) && body == []
      modifies this
      ensures fn == MainFunction(es, old(nextId))
    {
      var k, result := 0, None;
      ghost var start := State();
      ghost var code: seq<Stmt> := [];
      assert es[0..] == es && code + GenerateProgram(es, start).1 == GenerateProgram(es, start).1;
      while k < |es|
        invariant 0 <= k <= |es|
        invariant body == Text(code)
        invariant k < |es| ==> result == None
        invariant GenerateProgram(es, start) == Prefixed(code, GenerateProgram(es[k..], State()), result)
      {
        ghost var st := State();
        var out := Recurse(es[k], None, false);
        ghost var g := Generate(es[k], None, st, false);
        ProgramStep(es, k, st, code);
        TextConcat(code, g.code);
        code := code + g.code;
        if k != |es| - 1 {
          PushOperand(out);
          TextConcat(code, [Discard(out)]);
          code := code + [Discard(out)];
        } else {
          result := Some(out);
        }
        k := k + 1;
      }
      assert code + [] == code;
      fn := Function(vars, body, result);
    }
  }

  /** A program whose first statements have already been written as `code`. */
  ghost function Prefixed(code: seq<Stmt>, p: (GenState, seq<Stmt>, Option<JExpr>), result: Option<JExpr>)
    : (GenState, seq<Stmt>, Option<JExpr>)
  {
    (p.0, code + p.1, if result.Some? then result else p.2)
  }

  lemma {:induction false} ProgramStep(es: seq<Expr>, k: nat, st: GenState, code: seq<Stmt>)
    requires k < |es|
    ensures var g := Generate(es[k], None, st, false);
            var tail := GenerateProgram(es[k+1..], g.st);
            Prefixed(code, GenerateProgram(es[k..], st), None)
            == if k == |es| - 1 then Prefixed(code + g.code, tail, Some(g.out))
               else Prefixed(code + g.code + [Discard(g.out)], tail, None)
  {
    assert es[k..][0] == es[k] && es[k..][1..] == es[k+1..];
    var g := Generate(es[k], None, st, false);
    var tail := GenerateProgram(es[k+1..], g.st);
    assert code + (g.code + [Discard(g.out)] + tail.1) == code + g.code + [Discard(g.out)] + tail.1;
    assert code + g.code + [] == code + g.code;
  }
}
