/** Compiler correctness for whole generated functions, and exactly when it needs its
  * assumptions. */
module BackEndsAgree {
  import opened Expressions
  import opened CodeGen
  import opened CodeGenCorrect
  import opened CodeGenText

  /** Every temporary up to the next one is declared once, and each cached flag is declared
    * with its own test, and nothing else with one. */
  ghost predicate Declared(base: nat, st: GenState) {
    && base + |st.vars| == st.next
    && (forall k :: 0 <= k < |st.vars| ==> st.vars[k].id == base + k)
    && (forall name :: name in st.own ==>
          base <= st.own[name] < st.next && st.vars[st.own[name] - base].local == Some(name))
    && (forall k :: 0 <= k < |st.vars| && st.vars[k].local.Some? ==> st.vars[k].local.value in st.own)
  }

  lemma {:induction false} DeclaredMore(base: nat, st: GenState, next: GenState, local: Option<string>)
    requires Declared(base, st)
    requires next.next == st.next + 1 && next.vars == st.vars + [VarDecl(st.next, local)]
    requires forall name :: name in next.own ==>
      (name in st.own && next.own[name] == st.own[name]) || (local == Some(name) && next.own[name] == st.next)
    requires forall name :: name in st.own || local == Some(name) ==> name in next.own
    ensures Declared(base, next)
  {
    forall k | 0 <= k < |next.vars| && next.vars[k].local.Some? ensures next.vars[k].local.value in next.own {
      if k < |st.vars| { assert next.vars[k] == st.vars[k]; }
    }
    forall name | name in next.own
      ensures base <= next.own[name] < next.next && next.vars[next.own[name] - base].local == Some(name)
    {
      if name in st.own && next.own[name] == st.own[name] {
        assert next.vars[st.own[name] - base] == st.vars[st.own[name] - base];
      }
    }
  }

  lemma {:induction false} DeclaredTarget(base: nat, st: GenState, c: Option<nat>)
    requires Declared(base, st)
    ensures Declared(base, st.Fresh())
    ensures Declared(base, st.Target(c).0)
  {
    DeclaredMore(base, st, st.Fresh(), None);
  }

  lemma {:induction false} DeclaredFlag(base: nat, st: GenState, name: string)
    requires Declared(base, st)
    ensures Declared(base, st.Flag(name).0)
  {
    if name !in st.own {
      DeclaredMore(base, st, st.Flag(name).0, Some(name));
    }
  }

  lemma {:induction false} GenerateDeclared(base: nat, e: Expr, c: Option<nat>, st: GenState, inputs: bool)
    requires Declared(base, st)
    ensures Declared(base, Generate(e, c, st, inputs).st)
    decreases e
  {
    hide Declared;
    match e
    case Literal(_) =>
    case This =>
    case Ident(name) =>
      DeclaredTarget(base, st, c);
      DeclaredFlag(base, st.Target(c).0, name);
    case Unary(_, a) => GenerateDeclared(base, a, None, st, inputs);
    case Binary(_, a, b) =>
      GenerateDeclared(base, a, None, st, inputs);
      GenerateDeclared(base, b, None, Generate(a, None, st, inputs).st, inputs);
    case Logical(_, a, b) =>
      DeclaredTarget(base, st, c);
      TwoDeclared(e, base, a, b, st.Target(c).1, st.Target(c).0, inputs);
    case Conditional(p, a, b) =>
      DeclaredTarget(base, st, c);
      var (st0, t) := st.Target(c);
      TwoDeclared(e, base, p, a, t, st0, inputs);
      GenerateDeclared(base, b, Some(t), Generate(a, Some(t), Generate(p, Some(t), st0, inputs).st, inputs).st, inputs);
    case Member(o, _) =>
      DeclaredTarget(base, st, c);
      DeclaredTarget(base, st.Fresh(), c);
      GenerateDeclared(base, o, Some(st.next), st.Fresh().Target(c).0, inputs);
    case Computed(o, p) => ComputedDeclared(base, o, p, c, st, inputs);
    case ArrayLit(es) => GenerateAllDeclared(base, es, st, inputs);
    case ObjectLit(_, vs) => GenerateAllDeclared(base, vs, st, inputs);
    case Watched(_, n) =>
      DeclaredTarget(base, st, c);
      GenerateDeclared(base, n, Some(st.Target(c).1), st.Target(c).0, inputs);
  }

  lemma {:induction false} TwoDeclared(e: Expr, base: nat, a: Expr, b: Expr, t: nat, st: GenState, inputs: bool)
    requires Declared(base, st) && a < e && b < e
    ensures Declared(base, Generate(b, Some(t), Generate(a, Some(t), st, inputs).st, inputs).st)
    decreases e, 0
  {
    hide Declared;
    GenerateDeclared(base, a, Some(t), st, inputs);
    GenerateDeclared(base, b, Some(t), Generate(a, Some(t), st, inputs).st, inputs);
  }

  lemma {:induction false} ComputedDeclared(base: nat, o: Expr, p: Expr, c: Option<nat>, st: GenState, inputs: bool)
    requires Declared(base, st)
    ensures Declared(base, Generate(Computed(o, p), c, st, inputs).st)
    decreases Computed(o, p), 0
  {
    hide Declared;
    DeclaredTarget(base, st, c);
    DeclaredTarget(base, st.Fresh(), c);
    var st0 := st.Fresh().Target(c).0;
    GenerateDeclared(base, o, Some(st.next), st0, inputs);
    var g := Generate(o, Some(st.next), st0, inputs);
    DeclaredTarget(base, g.st, c);
    GenerateDeclared(base, p, Some(g.st.next), g.st.Fresh(), inputs);
  }

  lemma {:induction false} GenerateAllDeclared(base: nat, es: seq<Expr>, st: GenState, inputs: bool)
    requires Declared(base, st)
    ensures Declared(base, GenerateAll(es, st, inputs).0)
    decreases es
  {
    if es != [] {
      GenerateDeclared(base, es[0], Some(st.next), st.Fresh(), inputs);
      GenerateAllDeclared(base, es[1..], Generate(es[0], Some(st.next), st.Fresh(), inputs).st, inputs);
    }
  }

  lemma {:induction false} EntryValue(base: nat, vars: seq<VarDecl>, f: Frame, k: nat)
    requires forall j :: 0 <= j < |vars| ==> vars[j].id == base + j
    requires k < |vars|
    ensures Get(EntryEnv(vars, f), base + k) ==
            if vars[k].local.Some? then Bool(f.host.HasLocal(f.l, vars[k].local.value)) else Undefined
  {
    if k < |vars| - 1 {
      EntryValue(base, vars[..|vars|-1], f, k);
    }
  }

  /** The cached has-local flags hold the right truth values on entry. */
  lemma {:induction false} EntryFlags(base: nat, st: GenState, f: Frame)
    requires Declared(base, st)
    ensures FlagsOk(EntryEnv(st.vars, f), st, f)
  {
    forall name | name in st.own
      ensures Truthy(Get(EntryEnv(st.vars, f), st.own[name])) == f.host.HasLocal(f.l, name)
    {
      EntryValue(base, st.vars, f, st.own[name] - base);
    }
  }

  lemma {:induction false} ProgramBefore(es: seq<Expr>, st: GenState)
    ensures st.Before(GenerateProgram(es, st).0)
    decreases es
  {
    if es != [] {
      GenerateBefore(es[0], None, st, false);
      if |es| > 1 {
        ProgramBefore(es[1..], Generate(es[0], None, st, false).st);
      }
    }
  }

  lemma {:induction false} ProgramDeclared(base: nat, es: seq<Expr>, st: GenState)
    requires Declared(base, st)
    ensures Declared(base, GenerateProgram(es, st).0)
    decreases es
  {
    if es != [] {
      GenerateDeclared(base, es[0], None, st, false);
      if |es| > 1 {
        ProgramDeclared(base, es[1..], Generate(es[0], None, st, false).st);
      }
    }
  }

  lemma {:induction false} ProgramCorrect(es: seq<Expr>, st: GenState, f: Frame, env: Env)
    requires forall k :: 0 <= k < |es| ==> Compilable(es[k])
    requires st.Valid() && Ready(f, false)
    requires FlagsOk(env, GenerateProgram(es, st).0, f)
    ensures var (_, code, out) := GenerateProgram(es, st);
            Exec(code, f, env).Some? &&
            EvalProgram(es, f) == (if out.Some? then EvalJ(out.value, f, Exec(code, f, env).value) else Undefined)
    decreases es
  {
    hide Generate, FlagsOk, Ready;
    if es != [] {
      var g := Generate(es[0], None, st, false);
      Prepare(es[0], None, st, false);
      if |es| == 1 {
        GenerateCorrect(es[0], None, st, false, f, env);
      } else {
        var (st1, code, out) := GenerateProgram(es[1..], g.st);
        ProgramBefore(es[1..], g.st);
        FlagsEarlier(env, g.st, st1, f);
        GenerateCorrect(es[0], None, st, false, f, env);
        FlagsKept(g, None, st, st1, f, env);
        var env1 := Exec(g.code, f, env).value;
        ProgramCorrect(es[1..], g.st, f, env1);
        ExecConcat(g.code + [Discard(g.out)], code, f, env);
        ExecConcat(g.code, [Discard(g.out)], f, env);
        ExecSingle(Discard(g.out), f, env1);
      }
    }
  }

  // --------------------------------------------------------------------- reading the text back

  lemma {:induction false} AssignWritable(code: seq<Stmt>, c: Option<nat>, e: JExpr)
    requires Writable(code)
    ensures Writable(code + AssignOpt(c, e))
  {
    match c
    case Some(id) => WritableLast(code, Assign(id, e));
    case None => assert code + [] == code;
  }

  /** What one node emits holds no operand thrown away. */
  lemma {:induction false} GenerateWritable(e: Expr, c: Option<nat>, st: GenState, inputs: bool)
    ensures Writable(Generate(e, c, st, inputs).code)
    decreases e
  {
    hide Writable, WritableOne;
    match e
    case Literal(v) => LeafWritable(c, Lit(v));
    case This => LeafWritable(c, Scope);
    case Ident(name) => IdentWritable(name, c, st, inputs);
    case Unary(op, a) =>
      var g := Generate(a, None, st, inputs);
      GenerateWritable(a, None, st, inputs);
      AssignWritable(g.code, c, JUnary(op, JIfDefined(g.out)));
    case Binary(op, a, b) =>
      var g := Generate(a, None, st, inputs);
      var h := Generate(b, None, g.st, inputs);
      GenerateWritable(a, None, st, inputs);
      GenerateWritable(b, None, g.st, inputs);
      WritableConcat(g.code, h.code);
      AssignWritable(g.code + h.code, c, BinaryText(op, g.out, h.out));
    case Logical(isAnd, a, b) =>
      var (st0, t) := st.Target(c);
      var g := Generate(a, Some(t), st0, inputs);
      var h := Generate(b, Some(t), g.st, inputs);
      GenerateWritable(a, Some(t), st0, inputs);
      GenerateWritable(b, Some(t), g.st, inputs);
      IfWritable(g.code, if isAnd then Temp(t) else JNot(Temp(t)), h.code);
    case Conditional(p, a, b) =>
      var (st0, t) := st.Target(c);
      var g := Generate(p, Some(t), st0, inputs);
      var h := Generate(a, Some(t), g.st, inputs);
      var k := Generate(b, Some(t), h.st, inputs);
      GenerateWritable(p, Some(t), st0, inputs);
      GenerateWritable(a, Some(t), g.st, inputs);
      GenerateWritable(b, Some(t), h.st, inputs);
      IfElseWritable(g.code, Temp(t), h.code, k.code);
    case Member(o, name) =>
      var (st0, t) := st.Fresh().Target(c);
      GenerateWritable(o, Some(st.next), st0, inputs);
      AccessWritable(Generate(o, Some(st.next), st0, inputs).code, st.next, [], LoadName(t, Temp(st.next), name), t);
    case Computed(o, p) =>
      var (st0, t) := st.Fresh().Target(c);
      var g := Generate(o, Some(st.next), st0, inputs);
      var k := Generate(p, Some(g.st.next), g.st.Fresh(), inputs);
      GenerateWritable(o, Some(st.next), st0, inputs);
      GenerateWritable(p, Some(g.st.next), g.st.Fresh(), inputs);
      AccessWritable(g.code, st.next, k.code, LoadIndex(t, Temp(st.next), Temp(g.st.next)), t);
    case ArrayLit(es) =>
      var all := GenerateAll(es, st, inputs);
      GenerateAllWritable(es, st, inputs);
      AssignWritable(all.1, c, JArray(all.2));
    case ObjectLit(keys, vs) =>
      var all := GenerateAll(vs, st, inputs);
      GenerateAllWritable(vs, st, inputs);
      AssignWritable(all.1, c, JObject(keys, all.2));
    case Watched(id, n) =>
      var (st0, t) := st.Target(c);
      var g := Generate(n, Some(t), st0, inputs);
      GenerateWritable(n, Some(t), st0, inputs);
      WatchedWritable(id, t, g.code);
  }

  lemma {:induction false} LeafWritable(c: Option<nat>, e: JExpr)
    ensures Writable(AssignOpt(c, e))
  {
    AssignWritable([], c, e);
    assert [] + AssignOpt(c, e) == AssignOpt(c, e);
  }

  lemma {:induction false} IfWritable(code: seq<Stmt>, cond: JExpr, thn: seq<Stmt>)
    requires Writable(code) && Writable(thn)
    ensures Writable(code + [If(cond, thn)])
  {
    WritableLast(code, If(cond, thn));
  }

  lemma {:induction false} IfElseWritable(code: seq<Stmt>, cond: JExpr, thn: seq<Stmt>, els: seq<Stmt>)
    requires Writable(code) && Writable(thn) && Writable(els)
    ensures Writable(code + [IfElse(cond, thn, els)])
  {
    WritableLast(code, IfElse(cond, thn, els));
  }

  /** A member read: the object, then the property, then the read or its absence. */
  lemma {:induction false} AccessWritable(code: seq<Stmt>, h: nat, key: seq<Stmt>, load: Stmt, t: nat)
    requires Writable(code) && Writable(key) && (load.LoadName? || load.LoadIndex?)
    ensures Writable(code + [IfElse(JNotNull(Temp(h)), key + [load], [Assign(t, Lit(Undefined))])])
    ensures key == [] ==> Writable(code + [IfElse(JNotNull(Temp(h)), [load], [Assign(t, Lit(Undefined))])])
  {
    WritableLast(key, load);
    WritableSingle(Assign(t, Lit(Undefined)));
    IfElseWritable(code, JNotNull(Temp(h)), key + [load], [Assign(t, Lit(Undefined))]);
    if key == [] { assert key + [load] == [load]; }
  }

  lemma {:induction false} WatchedWritable(id: nat, t: nat, els: seq<Stmt>)
    requires Writable(els)
    ensures Writable([IfElse(InputsGiven, [Assign(t, InputAt(id))], els)])
  {
    WritableSingle(Assign(t, InputAt(id)));
    WritableSingle(IfElse(InputsGiven, [Assign(t, InputAt(id))], els));
  }

  lemma {:induction false} IdentWritable(name: string, c: Option<nat>, st: GenState, inputs: bool)
    ensures Writable(Generate(Ident(name), c, st, inputs).code)
  {
    var (st0, t) := st.Target(c);
    var flag := st0.Flag(name).1;
    WritableSingle(LoadName(t, Scope, name));
    WritableSingle(LoadName(t, Locals, name));
    WritableSingle(If(Scope, [LoadName(t, Scope, name)]));
    WritableSingle(IfElse(JNot(Temp(flag)), [If(Scope, [LoadName(t, Scope, name)])], [LoadName(t, Locals, name)]));
  }

  lemma {:induction false} GenerateAllWritable(es: seq<Expr>, st: GenState, inputs: bool)
    ensures Writable(GenerateAll(es, st, inputs).1)
    ensures |GenerateAll(es, st, inputs).2| == |es|
    decreases es
  {
    if es != [] {
      var g := Generate(es[0], Some(st.next), st.Fresh(), inputs);
      GenerateWritable(es[0], Some(st.next), st.Fresh(), inputs);
      GenerateAllWritable(es[1..], g.st, inputs);
      WritableConcat(g.code, GenerateAll(es[1..], g.st, inputs).1);
    }
  }

  lemma {:induction false} ReadWhole(code: seq<Stmt>)
    requires Writable(code)
    ensures ReadBlock(Text(code)) == Some((code, []))
  {
    hide Text, Writable;
    ReadText(code, []);
    assert Text(code) + [] == Text(code) && code + [] == code;
  }

  predicate Keyed(e: Expr) {
    e.ObjectLit? && e.keys != []
  }

  /** No statement but the last is an object literal with keys. */
  predicate Written(es: seq<Expr>) {
    forall k :: 0 <= k < |es| - 1 ==> !Keyed(es[k])
  }

  lemma {:induction false} OperandKeyed(e: Expr, st: GenState)
    requires Compilable(e)
    ensures var c := Discard(Generate(e, None, st, false).out);
            (Keyed(e) <==> KeyedLiteral(c)) && (Keyed(e) ==> c.e.keys != [] && c.e.elems != [])
  {
    if e.ObjectLit? {
      GenerateAllWritable(e.values, st, false);
    }
  }

  lemma {:induction false} WrittenTail(es: seq<Expr>)
    requires |es| > 1
    ensures Written(es) <==> !Keyed(es[0]) && Written(es[1..])
  {
    if !Keyed(es[0]) && Written(es[1..]) {
      forall k | 0 <= k < |es| - 1 ensures !Keyed(es[k]) {
        if k > 0 { assert es[k] == es[1..][k - 1]; }
      }
    }
    if Written(es) {
      forall k | 0 <= k < |es[1..]| - 1 ensures !Keyed(es[1..][k]) {
        assert es[1..][k] == es[k + 1];
      }
    }
  }

  /** A body is a syntax error exactly when an operand thrown away is a literal with keys. */
  lemma {:induction false} ProgramReads(es: seq<Expr>, st: GenState)
    requires forall k :: 0 <= k < |es| ==> Compilable(es[k])
    ensures var code := GenerateProgram(es, st).1;
            ReadBlock(Text(code)) == if Written(es) then Some((code, [])) else None
    decreases es
  {
    if es != [] {
      var g := Generate(es[0], None, st, false);
      GenerateWritable(es[0], None, st, false);
      if |es| == 1 {
        ReadWhole(g.code);
      } else {
        var code := GenerateProgram(es[1..], g.st).1;
        ProgramReads(es[1..], g.st);
        WrittenTail(es);
        OperandKeyed(es[0], g.st);
        OperandKeyed(es[0], st);
        FirstReads(g.code, Discard(g.out), code);
      }
    }
  }

  lemma {:induction false} FirstReads(code: seq<Stmt>, c: Stmt, more: seq<Stmt>)
    requires Writable(code) && c.Discard?
    requires KeyedLiteral(c) ==> c.e.keys != [] && c.e.elems != []
    requires ReadBlock(Text(more)) in {None, Some((more, []))}
    ensures ReadBlock(Text(code + [c] + more)) ==
            if KeyedLiteral(c) || ReadBlock(Text(more)) == None then None else Some((code + [c] + more, []))
  {
    hide ReadBlock;
    var tail := TextOne(c) + Text(more);
    TextConcat(code + [c], more);
    TextConcat(code, [c]);
    TextSingle(c);
    assert Text(code + [c] + more) == Text(code) + tail;
    TextNoElse([c]);
    ReadText(code, tail);
    if KeyedLiteral(c) {
      ReadKeyed(c, Text(more));
    } else {
      ReadSimple(c, Text(more));
      assert code + ([c] + more) == code + [c] + more;
    }
  }

  // -------------------------------------------------------------------- names and primitive locals

  /** A name occurs in the expression, reached or not. */
  predicate Mentions(e: Expr)
    decreases e
  {
    match e
    case Ident(_) => true
    case Member(o, _) => Mentions(o)
    case Computed(o, p) => Mentions(o) || Mentions(p)
    case Unary(_, a) => Mentions(a)
    case Binary(_, a, b) => Mentions(a) || Mentions(b)
    case Logical(_, a, b) => Mentions(a) || Mentions(b)
    case Conditional(p, a, b) => Mentions(p) || Mentions(a) || Mentions(b)
    case ArrayLit(es) => exists k :: 0 <= k < |es| && Mentions(es[k])
    case ObjectLit(_, vs) => exists k :: 0 <= k < |vs| && Mentions(vs[k])
    case Watched(_, n) => Mentions(n)
    case _ => false
  }

  /** The interpreter comes to a name, and so to `name in l`, while it evaluates. */
  predicate Reaches(e: Expr, f: Frame)
    decreases e
  {
    match e
    case Ident(_) => true
    case Member(o, _) => Reaches(o, f)
    case Computed(o, p) =>
      Reaches(o, f) || (!Nullish(Eval(o, f.host, f.s, f.l, f.i)) && Reaches(p, f))
    case Unary(_, a) => Reaches(a, f)
    case Binary(_, a, b) => Reaches(a, f) || Reaches(b, f)
    case Logical(isAnd, a, b) =>
      Reaches(a, f) || (Truthy(Eval(a, f.host, f.s, f.l, f.i)) == isAnd && Reaches(b, f))
    case Conditional(p, a, b) =>
      Reaches(p, f) || (if Truthy(Eval(p, f.host, f.s, f.l, f.i)) then Reaches(a, f) else Reaches(b, f))
    case ArrayLit(es) => exists k :: 0 <= k < |es| && Reaches(es[k], f)
    case ObjectLit(_, vs) => exists k :: 0 <= k < |vs| && Reaches(vs[k], f)
    case Watched(_, n) => f.i.None? && Reaches(n, f)
    case _ => false
  }

  predicate MentionsAny(es: seq<Expr>) {
    exists k :: 0 <= k < |es| && Mentions(es[k])
  }

  predicate ReachesAny(es: seq<Expr>, f: Frame) {
    exists k :: 0 <= k < |es| && Reaches(es[k], f)
  }

  /** The interpreter's call; `None` is the exception of `in` on a primitive. */
  function Interpret(es: seq<Expr>, f: Frame): Option<Value> {
    if !TestsLocals(f.l) && ReachesAny(es, f) then None else Some(EvalProgram(es, f))
  }

  lemma {:induction false} ReachedMentioned(e: Expr, f: Frame)
    requires Reaches(e, f)
    ensures Mentions(e)
    decreases e
  {
    match e
    case Member(o, _) => ReachedMentioned(o, f);
    case Computed(o, p) => if Reaches(o, f) { ReachedMentioned(o, f); } else { ReachedMentioned(p, f); }
    case Unary(_, a) => ReachedMentioned(a, f);
    case Binary(_, a, b) => if Reaches(a, f) { ReachedMentioned(a, f); } else { ReachedMentioned(b, f); }
    case Logical(_, a, b) => if Reaches(a, f) { ReachedMentioned(a, f); } else { ReachedMentioned(b, f); }
    case Conditional(p, a, b) =>
      if Reaches(p, f) { ReachedMentioned(p, f); }
      else if Reaches(a, f) { ReachedMentioned(a, f); }
      else { ReachedMentioned(b, f); }
    case ArrayLit(es) =>
      var k :| 0 <= k < |es| && Reaches(es[k], f);
      ReachedMentioned(es[k], f);
    case ObjectLit(_, vs) =>
      var k :| 0 <= k < |vs| && Reaches(vs[k], f);
      ReachedMentioned(vs[k], f);
    case Watched(_, n) => ReachedMentioned(n, f);
    case _ =>
  }

  /** A flag is cached exactly when some name has been met. */
  lemma {:induction false} GenerateOwn(e: Expr, c: Option<nat>, st: GenState)
    ensures Generate(e, c, st, false).st.own == map[] <==> st.own == map[] && !Mentions(e)
    decreases e
  {
    match e
    case Literal(_) =>
    case This =>
    case Ident(name) =>
      var st0 := st.Target(c).0;
      assert name in st0.Flag(name).0.own;
    case Unary(_, a) => GenerateOwn(a, None, st);
    case Binary(_, a, b) =>
      GenerateOwn(a, None, st);
      GenerateOwn(b, None, Generate(a, None, st, false).st);
    case Logical(_, a, b) =>
      var (st0, t) := st.Target(c);
      GenerateOwn(a, Some(t), st0);
      GenerateOwn(b, Some(t), Generate(a, Some(t), st0, false).st);
    case Conditional(p, a, b) =>
      var (st0, t) := st.Target(c);
      var g := Generate(p, Some(t), st0, false);
      GenerateOwn(p, Some(t), st0);
      GenerateOwn(a, Some(t), g.st);
      GenerateOwn(b, Some(t), Generate(a, Some(t), g.st, false).st);
    case Member(o, _) => GenerateOwn(o, Some(st.next), st.Fresh().Target(c).0);
    case Computed(o, p) =>
      var st0 := st.Fresh().Target(c).0;
      var g := Generate(o, Some(st.next), st0, false);
      GenerateOwn(o, Some(st.next), st0);
      GenerateOwn(p, Some(g.st.next), g.st.Fresh());
    case ArrayLit(es) => GenerateAllOwn(es, st);
    case ObjectLit(_, vs) => GenerateAllOwn(vs, st);
    case Watched(_, n) =>
      var (st0, t) := st.Target(c);
      GenerateOwn(n, Some(t), st0);
  }

  lemma {:induction false} GenerateAllOwn(es: seq<Expr>, st: GenState)
    ensures GenerateAll(es, st, false).0.own == map[] <==> st.own == map[] && !MentionsAny(es)
    decreases es
  {
    if es != [] {
      var g := Generate(es[0], Some(st.next), st.Fresh(), false);
      GenerateOwn(es[0], Some(st.next), st.Fresh());
      GenerateAllOwn(es[1..], g.st);
      MentionsTail(es);
    }
  }

  lemma {:induction false} MentionsTail(es: seq<Expr>)
    requires es != []
    ensures MentionsAny(es) <==> Mentions(es[0]) || MentionsAny(es[1..])
  {
    if MentionsAny(es) && !Mentions(es[0]) {
      var k :| 0 <= k < |es| && Mentions(es[k]);
      assert es[1..][k - 1] == es[k];
    }
    if MentionsAny(es[1..]) {
      var k :| 0 <= k < |es[1..]| && Mentions(es[1..][k]);
      assert es[k + 1] == es[1..][k];
    }
  }

  lemma {:induction false} ProgramOwn(es: seq<Expr>, st: GenState)
    ensures GenerateProgram(es, st).0.own == map[] <==> st.own == map[] && !MentionsAny(es)
    decreases es
  {
    if es != [] {
      var g := Generate(es[0], None, st, false);
      GenerateOwn(es[0], None, st);
      MentionsTail(es);
      if |es| > 1 { ProgramOwn(es[1..], g.st); }
    }
  }

  /** The variable line tests the locals exactly when the program holds a name. */
  lemma {:induction false} FlaggedIffMentioned(es: seq<Expr>, base: nat)
    ensures Flagged(GenerateProgram(es, Start(base)).0.vars) <==> MentionsAny(es)
  {
    var st := GenerateProgram(es, Start(base)).0;
    ProgramDeclared(base, es, Start(base));
    ProgramOwn(es, Start(base));
    if st.own != map[] {
      var name :| name in st.own;
      assert st.vars[st.own[name] - base].local.Some?;
    }
    if Flagged(st.vars) {
      var k :| 0 <= k < |st.vars| && st.vars[k].local.Some?;
      assert st.vars[k].local.value in st.own;
    }
  }

  // ------------------------------------------------------------------------------ main theorems

  /** Main theorem.  For any statements, any scope object, locals and input values: the generated
    * function returns what the interpreter computes, except that a statement before the last
    * which is a literal with keys makes it a syntax error, and that locals which `in` cannot
    * test make it throw as soon as a name occurs anywhere. */
  lemma {:induction false} MainFunctionCorrect(es: seq<Expr>, base: nat, f: Frame)
    requires forall k :: 0 <= k < |es| ==> Compilable(es[k])
    requires Ready(f, false)
    ensures Run(MainFunction(es, base), f) ==
            if Written(es) && (TestsLocals(f.l) || !MentionsAny(es)) then Some(EvalProgram(es, f)) else None
  {
    var (st, code, out) := GenerateProgram(es, Start(base));
    ProgramDeclared(base, es, Start(base));
    EntryFlags(base, st, f);
    ProgramCorrect(es, Start(base), f, EntryEnv(st.vars, f));
    ProgramReads(es, Start(base));
    FlaggedIffMentioned(es, base);
  }

  lemma {:induction false} ReachedAnyMentioned(es: seq<Expr>, f: Frame)
    requires ReachesAny(es, f)
    ensures MentionsAny(es)
  {
    var k :| 0 <= k < |es| && Reaches(es[k], f);
    ReachedMentioned(es[k], f);
  }

  /** With locals that can be tested, in particular none, the back ends agree on a program if and
    * only if no statement but the last is an object literal with keys. */
  lemma {:induction false} AgreeIffWritten(es: seq<Expr>, base: nat, f: Frame)
    requires forall k :: 0 <= k < |es| ==> Compilable(es[k])
    requires Ready(f, false) && TestsLocals(f.l)
    ensures Run(MainFunction(es, base), f) == Interpret(es, f) <==> Written(es)
  {
    MainFunctionCorrect(es, base, f);
  }

  /** With primitive locals they agree on such a program if and only if it holds no name or the
    * interpreter comes to one, and on any other if and only if the interpreter comes to one, and so
    * throws as well. */
  lemma {:induction false} AgreeOnPrimitiveLocals(es: seq<Expr>, base: nat, f: Frame)
    requires forall k :: 0 <= k < |es| ==> Compilable(es[k])
    requires Ready(f, false) && !TestsLocals(f.l)
    ensures Run(MainFunction(es, base), f) == Interpret(es, f) <==>
            ReachesAny(es, f) || (Written(es) && !MentionsAny(es))
  {
    MainFunctionCorrect(es, base, f);
    if ReachesAny(es, f) { ReachedAnyMentioned(es, f); }
  }

  /** `{a: 1}; 2` is 2 to the interpreter and a syntax error to the generator. */
  lemma {:induction false} DiscardedLiteral(base: nat, f: Frame)
    requires Ready(f, false) && TestsLocals(f.l)
    ensures var es := [ObjectLit(["a"], [Literal(Num(1))]), Literal(Num(2))];
            Run(MainFunction(es, base), f) == None && Interpret(es, f) == Some(Num(2))
  {
    var es := [ObjectLit(["a"], [Literal(Num(1))]), Literal(Num(2))];
    assert Compilable(es[0]) && Compilable(es[1]);
    assert Keyed(es[0]);
    MainFunctionCorrect(es, base, f);
  }

  /** `true || a` with the text "x" for locals is true to the interpreter and throws otherwise. */
  lemma {:induction false} EagerFlag(base: nat, f: Frame)
    requires Ready(f, false) && f.l == Str("x")
    ensures var es := [Logical(false, Literal(Bool(true)), Ident("a"))];
            Run(MainFunction(es, base), f) == None && Interpret(es, f) == Some(Bool(true))
  {
    var e := Logical(false, Literal(Bool(true)), Ident("a"));
    assert Mentions(Ident("a")) && Mentions(e);
    assert Mentions([e][0]);
    assert !Reaches(Literal(Bool(true)), f) && !Reaches(e, f);
    MainFunctionCorrect([e], base, f);
  }

  /** The same for the function of a watched input, which is given only the scope. */
  lemma {:induction false} InputFunctionCorrect(e: Expr, base: nat, host: Host, s: Value)
    requires Compilable(e)
    requires Ready(Frame(host, s, Undefined, None), true)
    ensures Run(InputFunction(e, base), Frame(host, s, Undefined, None))
         == Some(Eval(e, host, s, Undefined, None))
  {
    var f := Frame(host, s, Undefined, None);
    var st := Start(base).Fresh();
    var g := Generate(e, Some(base), st, true);
    assert Declared(base, st);
    GenerateDeclared(base, e, Some(base), st, true);
    EntryFlags(base, g.st, f);
    GenerateCorrect(e, Some(base), st, true, f, EntryEnv(g.st.vars, f));
    GenerateWritable(e, Some(base), st, true);
    ReadWhole(g.code);
  }

  // ------------------------------------------------------------- where the assumptions bite

  /** The back ends agree on every written program over the scope `s`, with any locals that can
    * be tested and any inputs. */
  ghost predicate AgreeOn(host: Host, s: Value) {
    forall es: seq<Expr>, base: nat, l: Value, i: Option<seq<Value>> ::
      (forall k :: 0 <= k < |es| ==> Compilable(es[k])) && Written(es) && TestsLocals(l)
      ==> Run(MainFunction(es, base), Frame(host, s, l, i)) == Interpret(es, Frame(host, s, l, i))
  }

  /** They do so if and only if there is a scope object and `+0` and `-0` are `0`: the generator
    * applies the operator to a substituted zero, the interpreter skips it. */
  lemma {:induction false} AgreeExactly(host: Host, s: Value)
    ensures AgreeOn(host, s) <==> Truthy(s) && KeepsZero(host)
  {
    if Truthy(s) && KeepsZero(host) {
      forall es: seq<Expr>, base: nat, l: Value, i: Option<seq<Value>> |
        (forall k :: 0 <= k < |es| ==> Compilable(es[k])) && Written(es) && TestsLocals(l)
        ensures Run(MainFunction(es, base), Frame(host, s, l, i)) == Interpret(es, Frame(host, s, l, i))
      {
        MainFunctionCorrect(es, base, Frame(host, s, l, i));
      }
    }
    if AgreeOn(host, s) {
      var f := Frame(host, s, Undefined, None);
      assert TestsLocals(Undefined);
      if !Truthy(s) {
        FalsyScopeDiffers(host, s, 0);
        AgreeOnOne(host, s, Logical(true, Literal(Num(1)), Ident("b")));
        assert false;
      }
      SignOfUndefined(Pos, f);
      SignOfUndefined(Neg, f);
      AgreeOnOne(host, s, Unary(Pos, Literal(Undefined)));
      AgreeOnOne(host, s, Unary(Neg, Literal(Undefined)));
    }
  }

  lemma {:induction false} AgreeOnOne(host: Host, s: Value, e: Expr)
    requires AgreeOn(host, s) && Compilable(e)
    ensures var f := Frame(host, s, Undefined, None);
            Run(MainFunction([e], 0), f) == Some(EvalProgram([e], f))
  {
    var f := Frame(host, s, Undefined, None);
    assert Written([e]);
    assert Run(MainFunction([e], 0), f) == Interpret([e], f);
  }

  lemma {:induction false} SignOfUndefined(op: UnaryOp, f: Frame)
    requires op == Pos || op == Neg
    ensures Run(MainFunction([Unary(op, Literal(Undefined))], 0), f) == Some(f.host.Unary(op, Num(0)))
    ensures EvalProgram([Unary(op, Literal(Undefined))], f) == Num(0)
  {
    var e := Unary(op, Literal(Undefined));
    var q := JUnary(op, JIfDefined(Lit(Undefined)));
    assert Generate(Literal(Undefined), None, Start(0), false) == Gen(Start(0), [], Lit(Undefined));
    assert Generate(e, None, Start(0), false).out == q;
    assert Generate(e, None, Start(0), false).code == [] + [];
    assert EvalJ(JIfDefined(Lit(Undefined)), f, map[]) == Num(0) by {
      assert EvalJ(Lit(Undefined), f, map[]) == Undefined;
    }
  }

  /** Without a scope object they differ: for `1 && b` the generated code leaves the left
    * operand in the shared temporary. */
  lemma {:induction false} FalsyScopeDiffers(host: Host, s: Value, base: nat)
    requires !Truthy(s)
    ensures var es := [Logical(true, Literal(Num(1)), Ident("b"))];
            var f := Frame(host, s, Undefined, None);
            Run(MainFunction(es, base), f) == Some(Num(1)) && EvalProgram(es, f) == Undefined
  {
    hide Run, MainFunction, Generate, Exec, EntryEnv, AndCode, EvalJ, Declared;
    var f := Frame(host, s, Undefined, None);
    var g := AndGenerated(base);
    AndCompilable();
    RunOne(Logical(true, Literal(Num(1)), Ident("b")), base, f);
    EntryFlags(base, g.st, f);
    var env := EntryEnv(g.st.vars, f);
    assert !Truthy(Get(env, g.st.own["b"]));
    AndWithoutScope(base, f, env);
    TempHolds(base, f, env);
  }

  lemma {:induction false} AndCompilable()
    ensures Compilable(Logical(true, Literal(Num(1)), Ident("b")))
  {
  }

  lemma {:induction false} TempHolds(t: nat, f: Frame, env: Env)
    ensures EvalJ(Temp(t), f, env[t := Num(1)]) == Num(1)
  {
  }

  /** The code of `1 && b`, with the target `t` and its flag behind it. */
  function AndCode(t: nat): seq<Stmt> {
    [Assign(t, Lit(Num(1)))] +
    [If(Temp(t), [IfElse(JNot(Temp(t + 1)), [If(Scope, [LoadName(t, Scope, "b")])], [LoadName(t, Locals, "b")])])]
  }

  lemma {:induction false} AndGenerated(base: nat) returns (g: Gen)
    ensures g == Generate(Logical(true, Literal(Num(1)), Ident("b")), None, Start(base), false)
    ensures g.code == AndCode(base) && g.out == Temp(base)
    ensures Declared(base, g.st) && "b" in g.st.own && g.st.own["b"] == base + 1
  {
    var e := Logical(true, Literal(Num(1)), Ident("b"));
    g := Generate(e, None, Start(base), false);
    var st0 := Start(base).Fresh();
    assert Generate(Literal(Num(1)), Some(base), st0, false).code == [Assign(base, Lit(Num(1)))];
    assert Generate(Ident("b"), Some(base), st0, false).code ==
      [IfElse(JNot(Temp(base + 1)), [If(Scope, [LoadName(base, Scope, "b")])], [LoadName(base, Locals, "b")])];
    GenerateDeclared(base, e, None, Start(base), false);
  }

  /** Calling the function of one expression runs its code. */
  lemma {:induction false} RunOne(e: Expr, base: nat, f: Frame)
    requires Compilable(e) && TestsLocals(f.l)
    ensures var g := Generate(e, None, Start(base), false);
            var end := Exec(g.code, f, EntryEnv(g.st.vars, f));
            Run(MainFunction([e], base), f) == if end.None? then None else Some(EvalJ(g.out, f, end.value))
  {
    assert Written([e]);
    ProgramReads([e], Start(base));
  }

  lemma {:induction false} AndWithoutScope(t: nat, f: Frame, env: Env)
    requires !Truthy(f.s) && !Truthy(Get(env, t + 1))
    ensures Exec(AndCode(t), f, env) == Some(env[t := Num(1)])
  {
    var one, pick := Assign(t, Lit(Num(1))), LoadName(t, Scope, "b");
    var inner := IfElse(JNot(Temp(t + 1)), [If(Scope, [pick])], [LoadName(t, Locals, "b")]);
    var env1 := env[t := Num(1)];
    ExecConcat([one], [If(Temp(t), [inner])], f, env);
    ExecSingle(one, f, env);
    ExecSingle(If(Temp(t), [inner]), f, env1);
    ExecSingle(inner, f, env1);
    assert EvalJ(Temp(t + 1), f, env1) == Get(env, t + 1);
    ExecSingle(If(Scope, [pick]), f, env1);
  }
}
