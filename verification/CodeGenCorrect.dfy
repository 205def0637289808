/** The two back ends agree: running the generated temporaries and `if`s gives the value of
  * the tree-walking evaluator. */
module CodeGenCorrect {
  import opened Expressions
  import opened CodeGen

  // ---------------------------------------------------------------- states only move forward

  lemma {:induction false} BeforeTransitive(a: GenState, b: GenState, c: GenState)
    requires a.Before(b) && b.Before(c)
    ensures a.Before(c)
  {
  }

  lemma {:induction false} GenerateBefore(e: Expr, c: Option<nat>, st: GenState, inputs: bool)
    ensures st.Before(Generate(e, c, st, inputs).st)
    ensures st.Valid() ==> Generate(e, c, st, inputs).st.Valid()
    decreases e
  {
    match e
    case Literal(_) =>
    case This =>
    case Unary(_, a) => GenerateBefore(a, None, st, inputs);
    case Binary(_, a, b) =>
      GenerateBefore(a, None, st, inputs);
      GenerateBefore(b, None, Generate(a, None, st, inputs).st, inputs);
    case Logical(_, a, b) =>
      var (st0, t) := st.Target(c);
      var g := Generate(a, Some(t), st0, inputs);
      GenerateBefore(a, Some(t), st0, inputs);
      GenerateBefore(b, Some(t), g.st, inputs);
    case Conditional(p, a, b) => ConditionalBefore(p, a, b, c, st, inputs);
    case Ident(_) =>
    case Member(o, _) =>
      var (st0, t) := st.Fresh().Target(c);
      GenerateBefore(o, Some(st.next), st0, inputs);
    case Computed(o, p) => ComputedBefore(o, p, c, st, inputs);
    case ArrayLit(es) => GenerateAllBefore(es, st, inputs);
    case ObjectLit(_, vs) => GenerateAllBefore(vs, st, inputs);
    case Watched(_, n) =>
      var (st0, t) := st.Target(c);
      GenerateBefore(n, Some(t), st0, inputs);
  }

  lemma {:induction false} ConditionalBefore(p: Expr, a: Expr, b: Expr, c: Option<nat>, st: GenState, inputs: bool)
    ensures st.Before(Generate(Conditional(p, a, b), c, st, inputs).st)
    ensures st.Valid() ==> Generate(Conditional(p, a, b), c, st, inputs).st.Valid()
    decreases Conditional(p, a, b), 0
  {
    var (st0, t) := st.Target(c);
    var g := Generate(p, Some(t), st0, inputs);
    var h := Generate(a, Some(t), g.st, inputs);
    GenerateBefore(p, Some(t), st0, inputs);
    GenerateBefore(a, Some(t), g.st, inputs);
    GenerateBefore(b, Some(t), h.st, inputs);
    BeforeTransitive(st0, g.st, h.st);
  }

  lemma {:induction false} ComputedBefore(o: Expr, p: Expr, c: Option<nat>, st: GenState, inputs: bool)
    ensures st.Before(Generate(Computed(o, p), c, st, inputs).st)
    ensures st.Valid() ==> Generate(Computed(o, p), c, st, inputs).st.Valid()
    decreases Computed(o, p), 0
  {
    var (st0, t) := st.Fresh().Target(c);
    var g := Generate(o, Some(st.next), st0, inputs);
    GenerateBefore(o, Some(st.next), st0, inputs);
    GenerateBefore(p, Some(g.st.next), g.st.Fresh(), inputs);
    BeforeTransitive(st0, g.st, g.st.Fresh());
  }

  lemma {:induction false} GenerateAllBefore(es: seq<Expr>, st: GenState, inputs: bool)
    ensures st.Before(GenerateAll(es, st, inputs).0)
    ensures st.Valid() ==> GenerateAll(es, st, inputs).0.Valid()
    decreases es
  {
    if es != [] {
      GenerateBefore(es[0], Some(st.next), st.Fresh(), inputs);
      GenerateAllBefore(es[1..], Generate(es[0], Some(st.next), st.Fresh(), inputs).st, inputs);
    }
  }

  // --------------------------------------------------------- which temporaries code touches

  ghost function WritesOne(c: Stmt): set<nat>
    decreases c
  {
    match c
    case Discard(_) => {}
    case Assign(id, _) => {id}
    case LoadName(id, _, _) => {id}
    case LoadIndex(id, _, _) => {id}
    case If(_, thn) => Writes(thn)
    case IfElse(_, thn, els) => Writes(thn) + Writes(els)
  }

  ghost function Writes(code: seq<Stmt>): set<nat>
    decreases code
  {
    if code == [] then {} else WritesOne(code[0]) + Writes(code[1..])
  }

  ghost function Reads(e: JExpr): set<nat>
    decreases e
  {
    match e
    case Temp(id) => {id}
    case JUnary(_, a) => Reads(a)
    case JBinary(_, a, b) => Reads(a) + Reads(b)
    case JIfDefined(a) => Reads(a)
    case JPlus(a, b) => Reads(a) + Reads(b)
    case JNot(a) => Reads(a)
    case JNotNull(a) => Reads(a)
    case JArray(es) => ReadsAll(es)
    case JObject(_, es) => ReadsAll(es)
    case _ => {}
  }

  ghost function ReadsAll(es: seq<JExpr>): set<nat>
    decreases es
  {
    if es == [] then {} else Reads(es[0]) + ReadsAll(es[1..])
  }

  lemma {:induction false} WritesConcat(a: seq<Stmt>, b: seq<Stmt>)
    ensures Writes(a + b) == Writes(a) + Writes(b)
  {
    if a == [] {
      assert a + b == b;
    } else {
      assert (a + b)[1..] == a[1..] + b;
      WritesConcat(a[1..], b);
    }
  }

  lemma {:induction false} ExecConcat(a: seq<Stmt>, b: seq<Stmt>, f: Frame, env: Env)
    ensures Exec(a + b, f, env) ==
            match Exec(a, f, env)
            case None => None
            case Some(env') => Exec(b, f, env')
  {
    if a == [] {
      assert a + b == b;
    } else {
      assert (a + b)[1..] == a[1..] + b;
      match ExecOne(a[0], f, env)
      case None =>
      case Some(env') => ExecConcat(a[1..], b, f, env');
    }
  }

  lemma {:induction false} ExecOneFrame(c: Stmt, f: Frame, env: Env, x: nat)
    requires ExecOne(c, f, env).Some?
    requires x !in WritesOne(c)
    ensures Get(ExecOne(c, f, env).value, x) == Get(env, x)
    decreases c
  {
    match c
    case If(cond, thn) =>
      if Truthy(EvalJ(cond, f, env)) { ExecFrame(thn, f, env, x); }
    case IfElse(cond, thn, els) =>
      if Truthy(EvalJ(cond, f, env)) { ExecFrame(thn, f, env, x); } else { ExecFrame(els, f, env, x); }
    case _ =>
  }

  /** Code changes only the temporaries it writes. */
  lemma {:induction false} ExecFrame(code: seq<Stmt>, f: Frame, env: Env, x: nat)
    requires Exec(code, f, env).Some?
    requires x !in Writes(code)
    ensures Get(Exec(code, f, env).value, x) == Get(env, x)
    decreases code
  {
    if code != [] {
      ExecOneFrame(code[0], f, env, x);
      ExecFrame(code[1..], f, ExecOne(code[0], f, env).value, x);
    }
  }

  ghost predicate Agree(xs: set<nat>, env: Env, env': Env) {
    forall x :: x in xs ==> Get(env, x) == Get(env', x)
  }

  lemma {:induction false} EvalJStable(e: JExpr, f: Frame, env: Env, env': Env)
    requires Agree(Reads(e), env, env')
    ensures EvalJ(e, f, env) == EvalJ(e, f, env')
    decreases e
  {
    match e
    case JUnary(_, a) => EvalJStable(a, f, env, env');
    case JBinary(_, a, b) => EvalJStable(a, f, env, env'); EvalJStable(b, f, env, env');
    case JIfDefined(a) => EvalJStable(a, f, env, env');
    case JPlus(a, b) => EvalJStable(a, f, env, env'); EvalJStable(b, f, env, env');
    case JNot(a) => EvalJStable(a, f, env, env');
    case JNotNull(a) => EvalJStable(a, f, env, env');
    case JArray(es) => EvalJAllStable(es, f, env, env');
    case JObject(_, es) => EvalJAllStable(es, f, env, env');
    case Temp(id) => assert id in Reads(e);
    case _ =>
  }

  lemma {:induction false} EvalJAllStable(es: seq<JExpr>, f: Frame, env: Env, env': Env)
    requires Agree(ReadsAll(es), env, env')
    ensures EvalJAll(es, f, env) == EvalJAll(es, f, env')
    decreases es
  {
    if es != [] {
      EvalJStable(es[0], f, env, env');
      EvalJAllStable(es[1..], f, env, env');
    }
  }

  // ------------------------------------------------- generated code stays in its own temporaries

  ghost predicate NotFlag(x: nat, st: GenState) {
    forall name :: name in st.own ==> st.own[name] != x
  }

  /** Between states `a` and `b`, and for target `c`, only these temporaries are touched, and
    * none of them is a has-local flag. */
  ghost predicate Confined(xs: set<nat>, c: Option<nat>, a: GenState, b: GenState) {
    forall x :: x in xs ==> (c == Some(x) || a.next <= x < b.next) && NotFlag(x, b)
  }

  ghost predicate TargetOk(c: Option<nat>, st: GenState) {
    c.Some? ==> c.value < st.next && NotFlag(c.value, st)
  }

  lemma {:induction false} NotFlagLater(x: nat, a: GenState, b: GenState)
    requires a.Before(b) && x < a.next && NotFlag(x, a)
    ensures NotFlag(x, b)
  {
  }

  lemma {:induction false} ConfinedLater(xs: set<nat>, c: Option<nat>, a: GenState, b: GenState, b': GenState)
    requires Confined(xs, c, a, b) && b.Before(b')
    requires c.Some? ==> c.value < b.next
    ensures Confined(xs, c, a, b')
  {
    forall x | x in xs ensures (c == Some(x) || a.next <= x < b'.next) && NotFlag(x, b') {
      NotFlagLater(x, b, b');
    }
  }

  lemma {:induction false} TargetFacts(c: Option<nat>, st: GenState)
    requires st.Valid() && TargetOk(c, st)
    ensures var (st0, t) := st.Target(c);
            st.Before(st0) && st0.Valid() && TargetOk(Some(t), st0) &&
            (c == Some(t) || st.next <= t)
  {
  }

  ghost predicate WellConfined(g: Gen, c: Option<nat>, st: GenState) {
    && Confined(Writes(g.code), c, st, g.st)
    && Confined(Reads(g.out), c, st, g.st)
  }

  lemma {:induction false} WritesAssignOpt(c: Option<nat>, q: JExpr)
    ensures Writes(AssignOpt(c, q)) == if c.Some? then {c.value} else {}
  {
  }

  lemma {:induction false} TargetNotFlag(c: Option<nat>, a: GenState, b: GenState)
    requires TargetOk(c, a) && a.Before(b)
    ensures TargetOk(c, b)
  {
  }

  /** Code aimed at `t` is confined for the caller whose target `t` came from. */
  lemma {:induction false} Retarget(xs: set<nat>, t: nat, c: Option<nat>, st: GenState, st0: GenState, b: GenState)
    requires Confined(xs, Some(t), st0, b)
    requires st.next <= st0.next <= b.next && t < b.next
    requires c == Some(t) || st.next <= t
    ensures Confined(xs, c, st, b)
  {
  }

  lemma {:induction false} ConfinedSingle(x: nat, c: Option<nat>, st: GenState, b: GenState)
    requires c == Some(x) || st.next <= x
    requires TargetOk(Some(x), b)
    ensures Confined({x}, c, st, b)
  {
  }

  /** Two runs of generation for one target, one after the other. */
  lemma {:induction false} ConfinedSequence(xs: set<nat>, ys: set<nat>, c: Option<nat>, a: GenState, m: GenState, b: GenState)
    requires Confined(xs, c, a, m) && Confined(ys, c, m, b)
    requires a.Before(m) && m.Before(b) && TargetOk(c, a)
    ensures Confined(xs + ys, c, a, b)
  {
    ConfinedLater(xs, c, a, m, b);
    forall x | x in xs + ys ensures (c == Some(x) || a.next <= x < b.next) && NotFlag(x, b) {
      assert x in xs || x in ys;
    }
  }

  lemma {:induction false} ConfinedOptional(q: JExpr, c: Option<nat>, xs: set<nat>, code: seq<Stmt>, st: GenState, b: GenState)
    requires Confined(Writes(code), None, st, b) && Confined(xs, None, st, b)
    requires TargetOk(c, b)
    requires Reads(q) == xs
    ensures WellConfined(Gen(b, code + AssignOpt(c, q), q), c, st)
  {
    WritesAssignOpt(c, q);
    WritesConcat(code, AssignOpt(c, q));
  }

  lemma {:induction false} GenerateConfined(e: Expr, c: Option<nat>, st: GenState, inputs: bool)
    requires st.Valid() && TargetOk(c, st)
    ensures WellConfined(Generate(e, c, st, inputs), c, st)
    decreases e
  {
    hide Generate, WellConfined;
    match e
    case Literal(_) => LeafConfined(e, c, st, inputs);
    case This => LeafConfined(e, c, st, inputs);
    case Unary(op, a) => GenerateUnaryConfined(op, a, c, st, inputs);
    case Binary(op, a, b) => GenerateBinaryConfined(op, a, b, c, st, inputs);
    case Logical(isAnd, a, b) => GenerateLogicalConfined(isAnd, a, b, c, st, inputs);
    case Conditional(p, a, b) => GenerateConditionalConfined(p, a, b, c, st, inputs);
    case Ident(name) => ConfinedIdent(name, c, st, inputs);
    case Member(o, name) => GenerateMemberConfined(o, name, c, st, inputs);
    case Computed(o, p) => GenerateComputedConfined(o, p, c, st, inputs);
    case ArrayLit(es) => GenerateArrayConfined(es, c, st, inputs);
    case ObjectLit(keys, vs) => GenerateObjectConfined(keys, vs, c, st, inputs);
    case Watched(id, n) => GenerateWatchedConfined(id, n, c, st, inputs);
  }

  lemma {:induction false} LeafConfined(e: Expr, c: Option<nat>, st: GenState, inputs: bool)
    requires TargetOk(c, st) && (e.Literal? || e.This?)
    ensures WellConfined(Generate(e, c, st, inputs), c, st)
  {
    WritesAssignOpt(c, if e.This? then Scope else Lit(e.value));
  }

  lemma {:induction false} GenerateUnaryConfined(op: UnaryOp, a: Expr, c: Option<nat>, st: GenState, inputs: bool)
    requires st.Valid() && TargetOk(c, st)
    ensures WellConfined(Generate(Unary(op, a), c, st, inputs), c, st)
    decreases Unary(op, a), 0
  {
    hide Generate;
    UnaryCode(op, a, c, st, inputs);
    var g := Generate(a, None, st, inputs);
    GenerateConfined(a, None, st, inputs);
    GenerateBefore(a, None, st, inputs);
    TargetNotFlag(c, st, g.st);
    ConfinedOptional(JUnary(op, JIfDefined(g.out)), c, Reads(g.out), g.code, st, g.st);
  }

  lemma {:induction false} GenerateArrayConfined(es: seq<Expr>, c: Option<nat>, st: GenState, inputs: bool)
    requires st.Valid() && TargetOk(c, st)
    ensures WellConfined(Generate(ArrayLit(es), c, st, inputs), c, st)
    decreases ArrayLit(es), 0
  {
    hide Confined, TargetOk, WellConfined, GenerateAll;
    GenerateAllConfined(es, st, inputs);
    ConfinedList(es, JArray(GenerateAll(es, st, inputs).2), c, st, inputs);
  }

  lemma {:induction false} GenerateObjectConfined(keys: seq<string>, vs: seq<Expr>, c: Option<nat>, st: GenState, inputs: bool)
    requires st.Valid() && TargetOk(c, st)
    ensures WellConfined(Generate(ObjectLit(keys, vs), c, st, inputs), c, st)
    decreases ObjectLit(keys, vs), 0
  {
    hide Confined, TargetOk, WellConfined, GenerateAll;
    GenerateAllConfined(vs, st, inputs);
    ConfinedList(vs, JObject(keys, GenerateAll(vs, st, inputs).2), c, st, inputs);
  }

  /** A list of operands and what is made of them. */
  lemma {:induction false} ConfinedList(es: seq<Expr>, q: JExpr, c: Option<nat>, st: GenState, inputs: bool)
    requires st.Valid() && TargetOk(c, st)
    requires var (st1, code, outs) := GenerateAll(es, st, inputs);
             Reads(q) == ReadsAll(outs) && Confined(Writes(code), None, st, st1) && Confined(ReadsAll(outs), None, st, st1)
    ensures var (st1, code, outs) := GenerateAll(es, st, inputs);
            WellConfined(Gen(st1, code + AssignOpt(c, q), q), c, st)
  {
    var (st1, code, outs) := GenerateAll(es, st, inputs);
    GenerateAllBefore(es, st, inputs);
    TargetNotFlag(c, st, st1);
    ConfinedOptional(q, c, ReadsAll(outs), code, st, st1);
  }

  lemma {:induction false} GenerateBinaryConfined(op: BinaryOp, a: Expr, b: Expr, c: Option<nat>, st: GenState, inputs: bool)
    requires st.Valid() && TargetOk(c, st)
    ensures WellConfined(Generate(Binary(op, a, b), c, st, inputs), c, st)
    decreases Binary(op, a, b), 0
  {
    var g := Generate(a, None, st, inputs);
    var h := Generate(b, None, g.st, inputs);
    GenerateBefore(a, None, st, inputs);
    GenerateBefore(b, None, g.st, inputs);
    GenerateConfined(a, None, st, inputs);
    GenerateConfined(b, None, g.st, inputs);
    ConfinedBinary(op, g, h, c, st);
  }

  lemma {:induction false} GenerateLogicalConfined(isAnd: bool, a: Expr, b: Expr, c: Option<nat>, st: GenState, inputs: bool)
    requires st.Valid() && TargetOk(c, st)
    ensures WellConfined(Generate(Logical(isAnd, a, b), c, st, inputs), c, st)
    decreases Logical(isAnd, a, b), 0
  {
    TargetFacts(c, st);
    var (st0, t) := st.Target(c);
    var g := Generate(a, Some(t), st0, inputs);
    GenerateBefore(a, Some(t), st0, inputs);
    TargetNotFlag(Some(t), st0, g.st);
    GenerateBefore(b, Some(t), g.st, inputs);
    GenerateConfined(a, Some(t), st0, inputs);
    GenerateConfined(b, Some(t), g.st, inputs);
    ConfinedLogical(if isAnd then Temp(t) else JNot(Temp(t)), g, Generate(b, Some(t), g.st, inputs), t, c, st, st0);
  }

  lemma {:induction false} GenerateConditionalConfined(p: Expr, a: Expr, b: Expr, c: Option<nat>, st: GenState, inputs: bool)
    requires st.Valid() && TargetOk(c, st)
    ensures WellConfined(Generate(Conditional(p, a, b), c, st, inputs), c, st)
    decreases Conditional(p, a, b), 0
  {
    TargetFacts(c, st);
    var (st0, t) := st.Target(c);
    var g := Generate(p, Some(t), st0, inputs);
    var h := Generate(a, Some(t), g.st, inputs);
    GenerateBefore(p, Some(t), st0, inputs);
    TargetNotFlag(Some(t), st0, g.st);
    GenerateBefore(a, Some(t), g.st, inputs);
    TargetNotFlag(Some(t), g.st, h.st);
    GenerateBefore(b, Some(t), h.st, inputs);
    GenerateConfined(p, Some(t), st0, inputs);
    GenerateConfined(a, Some(t), g.st, inputs);
    GenerateConfined(b, Some(t), h.st, inputs);
    ConfinedConditional(g, h, Generate(b, Some(t), h.st, inputs), t, c, st, st0);
  }

  lemma {:induction false} GenerateMemberConfined(o: Expr, name: string, c: Option<nat>, st: GenState, inputs: bool)
    requires st.Valid() && TargetOk(c, st)
    ensures WellConfined(Generate(Member(o, name), c, st, inputs), c, st)
    decreases Member(o, name), 0
  {
    TargetFacts(c, st.Fresh());
    var (st0, t) := st.Fresh().Target(c);
    TargetNotFlag(Some(st.next), st.Fresh(), st0);
    GenerateConfined(o, Some(st.next), st0, inputs);
    GenerateBefore(o, Some(st.next), st0, inputs);
    ConfinedMember(name, Generate(o, Some(st.next), st0, inputs), t, c, st, st0);
  }

  lemma {:induction false} GenerateComputedConfined(o: Expr, p: Expr, c: Option<nat>, st: GenState, inputs: bool)
    requires st.Valid() && TargetOk(c, st)
    ensures WellConfined(Generate(Computed(o, p), c, st, inputs), c, st)
    decreases Computed(o, p), 0
  {
    hide Generate, WellConfined;
    ComputedCode(o, p, c, st, inputs);
    TargetFacts(c, st.Fresh());
    var (st0, t) := st.Fresh().Target(c);
    var g := Generate(o, Some(st.next), st0, inputs);
    TargetNotFlag(Some(st.next), st.Fresh(), st0);
    GenerateConfined(o, Some(st.next), st0, inputs);
    GenerateBefore(o, Some(st.next), st0, inputs);
    GenerateBefore(p, Some(g.st.next), g.st.Fresh(), inputs);
    GenerateConfined(p, Some(g.st.next), g.st.Fresh(), inputs);
    ConfinedComputed(g, Generate(p, Some(g.st.next), g.st.Fresh(), inputs), t, c, st, st0);
  }

  lemma {:induction false} GenerateWatchedConfined(id: nat, n: Expr, c: Option<nat>, st: GenState, inputs: bool)
    requires st.Valid() && TargetOk(c, st)
    ensures WellConfined(Generate(Watched(id, n), c, st, inputs), c, st)
    decreases Watched(id, n), 0
  {
    TargetFacts(c, st);
    var (st0, t) := st.Target(c);
    GenerateConfined(n, Some(t), st0, inputs);
    GenerateBefore(n, Some(t), st0, inputs);
    ConfinedWatched(id, Generate(n, Some(t), st0, inputs), t, c, st, st0);
  }

  lemma {:induction false} ConfinedBinary(op: BinaryOp, g: Gen, h: Gen, c: Option<nat>, st: GenState)
    requires TargetOk(c, st) && st.Before(g.st) && g.st.Before(h.st)
    requires WellConfined(g, None, st) && WellConfined(h, None, g.st)
    ensures var q := BinaryText(op, g.out, h.out);
            WellConfined(Gen(h.st, g.code + h.code + AssignOpt(c, q), q), c, st)
  {
    var q := BinaryText(op, g.out, h.out);
    ConfinedSequence(Writes(g.code), Writes(h.code), None, st, g.st, h.st);
    ConfinedSequence(Reads(g.out), Reads(h.out), None, st, g.st, h.st);
    assert Reads(q) == Reads(g.out) + Reads(h.out);
    WritesConcat(g.code, h.code);
    TargetNotFlag(c, st, g.st);
    TargetNotFlag(c, g.st, h.st);
    ConfinedOptional(q, c, Reads(g.out) + Reads(h.out), g.code + h.code, st, h.st);
  }

  lemma {:induction false} ConfinedLogical(cond: JExpr, g: Gen, h: Gen, t: nat, c: Option<nat>, st: GenState, st0: GenState)
    requires TargetOk(Some(t), st0) && st.next <= st0.next && (c == Some(t) || st.next <= t)
    requires st0.Before(g.st) && g.st.Before(h.st)
    requires WellConfined(g, Some(t), st0) && WellConfined(h, Some(t), g.st)
    ensures WellConfined(Gen(h.st, g.code + [If(cond, h.code)], Temp(t)), c, st)
  {
    ConfinedSequence(Writes(g.code), Writes(h.code), Some(t), st0, g.st, h.st);
    WritesConcat(g.code, [If(cond, h.code)]);
    assert Writes([If(cond, h.code)]) == Writes(h.code);
    Retarget(Writes(g.code) + Writes(h.code), t, c, st, st0, h.st);
    TargetNotFlag(Some(t), st0, g.st);
    TargetNotFlag(Some(t), g.st, h.st);
    ConfinedSingle(t, c, st, h.st);
  }

  lemma {:induction false} ConfinedConditional(g: Gen, h: Gen, k: Gen, t: nat, c: Option<nat>, st: GenState, st0: GenState)
    requires TargetOk(Some(t), st0) && st.next <= st0.next && (c == Some(t) || st.next <= t)
    requires st0.Before(g.st) && g.st.Before(h.st) && h.st.Before(k.st)
    requires WellConfined(g, Some(t), st0) && WellConfined(h, Some(t), g.st) && WellConfined(k, Some(t), h.st)
    ensures WellConfined(Gen(k.st, g.code + [IfElse(Temp(t), h.code, k.code)], Temp(t)), c, st)
  {
    TargetNotFlag(Some(t), st0, g.st);
    TargetNotFlag(Some(t), g.st, h.st);
    TargetNotFlag(Some(t), h.st, k.st);
    ConfinedSequence(Writes(h.code), Writes(k.code), Some(t), g.st, h.st, k.st);
    BeforeTransitive(g.st, h.st, k.st);
    ConfinedSequence(Writes(g.code), Writes(h.code) + Writes(k.code), Some(t), st0, g.st, k.st);
    WritesConcat(g.code, [IfElse(Temp(t), h.code, k.code)]);
    assert Writes([IfElse(Temp(t), h.code, k.code)]) == Writes(h.code) + Writes(k.code);
    Retarget(Writes(g.code) + (Writes(h.code) + Writes(k.code)), t, c, st, st0, k.st);
    ConfinedSingle(t, c, st, k.st);
  }

  lemma {:induction false} ConfinedIdent(name: string, c: Option<nat>, st: GenState, inputs: bool)
    requires st.Valid() && TargetOk(c, st)
    ensures WellConfined(Generate(Ident(name), c, st, inputs), c, st)
  {
    TargetFacts(c, st);
    var (st0, t) := st.Target(c);
    var g := Generate(Ident(name), c, st, inputs);
    assert st0.Before(g.st);
    TargetNotFlag(Some(t), st0, g.st);
    ConfinedSingle(t, c, st, g.st);
    if !inputs {
      var pick := [If(Scope, [LoadName(t, Scope, name)])];
      assert Writes([LoadName(t, Scope, name)]) == {t};
      assert Writes(pick) == {t};
      assert Writes([LoadName(t, Locals, name)]) == {t};
      assert Writes([IfElse(JNot(Temp(st0.Flag(name).1)), pick, [LoadName(t, Locals, name)])]) == {t};
    }
  }

  lemma {:induction false} ConfinedMember(name: string, g: Gen, t: nat, c: Option<nat>, st: GenState, st0: GenState)
    requires TargetOk(Some(t), st0) && st.Fresh().next <= st0.next && (c == Some(t) || st.next <= t)
    requires TargetOk(Some(st.next), st0)
    requires st0.Before(g.st)
    requires WellConfined(g, Some(st.next), st0)
    ensures var last := IfElse(JNotNull(Temp(st.next)), [LoadName(t, Temp(st.next), name)], [Assign(t, Lit(Undefined))]);
            WellConfined(Gen(g.st, g.code + [last], Temp(t)), c, st)
  {
    var last := IfElse(JNotNull(Temp(st.next)), [LoadName(t, Temp(st.next), name)], [Assign(t, Lit(Undefined))]);
    TargetNotFlag(Some(t), st0, g.st);
    ConfinedSingle(t, c, st, g.st);
    Retarget(Writes(g.code), st.next, c, st, st0, g.st);
    WritesConcat(g.code, [last]);
    assert Writes([LoadName(t, Temp(st.next), name)]) == {t};
    assert Writes([Assign(t, Lit(Undefined))]) == {t};
    assert Writes([last]) == {t};
  }

  lemma {:induction false} ConfinedComputed(g: Gen, k: Gen, t: nat, c: Option<nat>, st: GenState, st0: GenState)
    requires TargetOk(Some(t), st0) && st.Fresh().next <= st0.next && (c == Some(t) || st.next <= t)
    requires TargetOk(Some(st.next), st0)
    requires st0.Before(g.st) && g.st.Fresh().Before(k.st) && g.st.Valid()
    requires WellConfined(g, Some(st.next), st0) && WellConfined(k, Some(g.st.next), g.st.Fresh())
    ensures var thn := k.code + [LoadIndex(t, Temp(st.next), Temp(g.st.next))];
            var last := IfElse(JNotNull(Temp(st.next)), thn, [Assign(t, Lit(Undefined))]);
            WellConfined(Gen(k.st, g.code + [last], Temp(t)), c, st)
  {
    var load := LoadIndex(t, Temp(st.next), Temp(g.st.next));
    var thn := k.code + [load];
    var last := IfElse(JNotNull(Temp(st.next)), thn, [Assign(t, Lit(Undefined))]);
    BeforeTransitive(g.st, g.st.Fresh(), k.st);
    TargetNotFlag(Some(t), st0, g.st);
    TargetNotFlag(Some(t), g.st, k.st);
    ConfinedSingle(t, c, st, k.st);
    TargetNotFlag(Some(st.next), st0, g.st);
    ConfinedLater(Writes(g.code), Some(st.next), st0, g.st, k.st);
    Retarget(Writes(g.code), st.next, c, st, st0, k.st);
    Retarget(Writes(k.code), g.st.next, c, st, g.st.Fresh(), k.st);
    WritesConcat(k.code, [load]);
    WritesConcat(g.code, [last]);
    assert Writes([load]) == {t};
    assert Writes([Assign(t, Lit(Undefined))]) == {t};
    assert Writes([last]) == Writes(k.code) + {t};
  }

  lemma {:induction false} ConfinedWatched(id: nat, g: Gen, t: nat, c: Option<nat>, st: GenState, st0: GenState)
    requires TargetOk(Some(t), st0) && st.next <= st0.next && (c == Some(t) || st.next <= t)
    requires st0.Before(g.st)
    requires WellConfined(g, Some(t), st0)
    ensures WellConfined(Gen(g.st, [IfElse(InputsGiven, [Assign(t, InputAt(id))], g.code)], g.out), c, st)
  {
    TargetNotFlag(Some(t), st0, g.st);
    ConfinedSingle(t, c, st, g.st);
    Retarget(Writes(g.code), t, c, st, st0, g.st);
    Retarget(Reads(g.out), t, c, st, st0, g.st);
    assert Writes([Assign(t, InputAt(id))]) == {t};
    assert Writes([IfElse(InputsGiven, [Assign(t, InputAt(id))], g.code)]) == {t} + Writes(g.code);
  }

  lemma {:induction false} GenerateAllConfined(es: seq<Expr>, st: GenState, inputs: bool)
    requires st.Valid()
    ensures var (st1, code, outs) := GenerateAll(es, st, inputs);
            Confined(Writes(code), None, st, st1) && Confined(ReadsAll(outs), None, st, st1)
    decreases es
  {
    if es != [] {
      var g := Generate(es[0], Some(st.next), st.Fresh(), inputs);
      var (st1, code, outs) := GenerateAll(es[1..], g.st, inputs);
      GenerateBefore(es[0], Some(st.next), st.Fresh(), inputs);
      GenerateAllBefore(es[1..], g.st, inputs);
      GenerateConfined(es[0], Some(st.next), st.Fresh(), inputs);
      GenerateAllConfined(es[1..], g.st, inputs);
      ConfinedLater(Writes(g.code), Some(st.next), st.Fresh(), g.st, st1);
      ConfinedLater(Reads(g.out), Some(st.next), st.Fresh(), g.st, st1);
      WritesConcat(g.code, code);
      assert ([g.out] + outs)[1..] == outs;
    }
  }

  // ------------------------------------------------------------------------ values computed

  /** The only laws of the host operators that the agreement needs. */
  ghost predicate KeepsZero(host: Host) {
    host.toNumber(Num(0)) == Num(0) && host.negate(Num(0)) == Num(0)
  }

  /** A frame the stage may run in: a scope object, and for an input function just that. */
  ghost predicate Ready(f: Frame, inputs: bool) {
    Truthy(f.s) && KeepsZero(f.host) && (inputs ==> f.l == Undefined && f.i.None?)
  }

  ghost predicate FlagsOk(env: Env, st: GenState, f: Frame) {
    forall name :: name in st.own ==> Truthy(Get(env, st.own[name])) == f.host.HasLocal(f.l, name)
  }

  /** `g` runs without an exception, its operand denotes `v` afterwards, and so does `c`. */
  ghost predicate Computes(g: Gen, c: Option<nat>, f: Frame, env: Env, v: Value) {
    && Exec(g.code, f, env).Some?
    && var env' := Exec(g.code, f, env).value;
       EvalJ(g.out, f, env') == v && (c.Some? ==> Get(env', c.value) == v)
  }

  ghost function Meaning(e: Expr, f: Frame): Value {
    Eval(e, f.host, f.s, f.l, f.i)
  }

  /** Flags survive code confined to an earlier stretch of temporaries. */
  lemma {:induction false} FlagsKept(g: Gen, c: Option<nat>, st: GenState, later: GenState, f: Frame, env: Env)
    requires Exec(g.code, f, env).Some?
    requires WellConfined(g, c, st) && TargetOk(c, g.st) && g.st.Before(later)
    requires FlagsOk(env, later, f)
    ensures FlagsOk(Exec(g.code, f, env).value, later, f)
  {
    forall name | name in later.own
      ensures Get(Exec(g.code, f, env).value, later.own[name]) == Get(env, later.own[name])
    {
      assert later.own[name] !in Writes(g.code);
      ExecFrame(g.code, f, env, later.own[name]);
    }
  }

  lemma {:induction false} FlagsEarlier(env: Env, a: GenState, b: GenState, f: Frame)
    requires a.Before(b) && FlagsOk(env, b, f)
    ensures FlagsOk(env, a, f)
  {
  }

  /** An operand that reads nothing the code writes keeps its value. */
  lemma {:induction false} OperandKept(e: JExpr, code: seq<Stmt>, f: Frame, env: Env)
    requires Exec(code, f, env).Some? && Reads(e) !! Writes(code)
    ensures EvalJ(e, f, Exec(code, f, env).value) == EvalJ(e, f, env)
  {
    var env' := Exec(code, f, env).value;
    forall x | x in Reads(e) ensures Get(env, x) == Get(env', x) {
      ExecFrame(code, f, env, x);
    }
    EvalJStable(e, f, env, env');
  }

  /** The closing `assign(c, q)`. */
  lemma {:induction false} ComputesOptional(code: seq<Stmt>, q: JExpr, st: GenState, b: GenState, c: Option<nat>, f: Frame, env: Env)
    requires Exec(code, f, env).Some?
    requires TargetOk(c, st) && Confined(Reads(q), None, st, b)
    ensures Computes(Gen(b, code + AssignOpt(c, q), q), c, f, env, EvalJ(q, f, Exec(code, f, env).value))
  {
    var env1 := Exec(code, f, env).value;
    ExecConcat(code, AssignOpt(c, q), f, env);
    if c.Some? {
      assert Exec([Assign(c.value, q)], f, env1) == Some(env1[c.value := EvalJ(q, f, env1)]);
      WritesAssignOpt(c, q);
      OperandKept(q, [Assign(c.value, q)], f, env1);
    }
  }

  lemma {:induction false} ComputesBinary(op: BinaryOp, g: Gen, h: Gen, c: Option<nat>, st: GenState, f: Frame, env: Env, x: Value, y: Value)
    requires TargetOk(c, st) && st.Before(g.st) && g.st.Before(h.st)
    requires WellConfined(g, None, st) && WellConfined(h, None, g.st)
    requires Computes(g, None, f, env, x)
    requires Computes(h, None, f, Exec(g.code, f, env).value, y)
    ensures var q := BinaryText(op, g.out, h.out);
            Computes(Gen(h.st, g.code + h.code + AssignOpt(c, q), q), c, f, env, f.host.ApplyBinary(op, x, y))
  {
    var q := BinaryText(op, g.out, h.out);
    var env1 := Exec(g.code, f, env).value;
    ExecConcat(g.code, h.code, f, env);
    OperandKept(g.out, h.code, f, env1);
    ConfinedSequence(Reads(g.out), Reads(h.out), None, st, g.st, h.st);
    assert Reads(q) == Reads(g.out) + Reads(h.out);
    ComputesOptional(g.code + h.code, q, st, h.st, c, f, env);
    var env2 := Exec(h.code, f, env1).value;
    assert EvalJ(JIfDefined(g.out), f, env2) == IfDefined(x, Num(0));
    assert EvalJ(JIfDefined(h.out), f, env2) == IfDefined(y, Num(0));
  }

  lemma {:induction false} ComputesLogical(isAnd: bool, g: Gen, h: Gen, t: nat, c: Option<nat>, f: Frame, env: Env, x: Value, y: Value)
    requires c.Some? ==> c.value == t
    requires Computes(g, Some(t), f, env, x)
    requires Truthy(x) == isAnd ==> Computes(h, Some(t), f, Exec(g.code, f, env).value, y)
    ensures Computes(Gen(h.st, g.code + [If(if isAnd then Temp(t) else JNot(Temp(t)), h.code)], Temp(t)), c, f, env,
              if Truthy(x) == isAnd then y else x)
  {
    var last := If(if isAnd then Temp(t) else JNot(Temp(t)), h.code);
    var env1 := Exec(g.code, f, env).value;
    ExecConcat(g.code, [last], f, env);
    ExecSingle(last, f, env1);
    assert EvalJ(Temp(t), f, env1) == x;
  }

  lemma {:induction false} ExecSingle(c: Stmt, f: Frame, env: Env)
    ensures Exec([c], f, env) == ExecOne(c, f, env)
  {
  }

  lemma {:induction false} ComputesConditional(g: Gen, h: Gen, k: Gen, t: nat, c: Option<nat>, f: Frame, env: Env, x: Value, y: Value)
    requires c.Some? ==> c.value == t
    requires Computes(g, Some(t), f, env, x)
    requires Computes(if Truthy(x) then h else k, Some(t), f, Exec(g.code, f, env).value, y)
    ensures Computes(Gen(k.st, g.code + [IfElse(Temp(t), h.code, k.code)], Temp(t)), c, f, env, y)
  {
    var last := IfElse(Temp(t), h.code, k.code);
    ExecConcat(g.code, [last], f, env);
    ExecSingle(last, f, Exec(g.code, f, env).value);
  }

  lemma {:induction false} ComputesMember(name: string, g: Gen, b: nat, t: nat, c: Option<nat>, f: Frame, env: Env, x: Value)
    requires c.Some? ==> c.value == t
    requires Computes(g, Some(b), f, env, x)
    ensures var last := IfElse(JNotNull(Temp(b)), [LoadName(t, Temp(b), name)], [Assign(t, Lit(Undefined))]);
            Computes(Gen(g.st, g.code + [last], Temp(t)), c, f, env,
              if Nullish(x) then Undefined else f.host.get(x, Str(name)))
  {
    var load, clear := LoadName(t, Temp(b), name), Assign(t, Lit(Undefined));
    var last := IfElse(JNotNull(Temp(b)), [load], [clear]);
    var env1 := Exec(g.code, f, env).value;
    ExecConcat(g.code, [last], f, env);
    ExecSingle(last, f, env1);
    ExecSingle(load, f, env1);
    ExecSingle(clear, f, env1);
  }

  lemma {:induction false} ComputesComputed(g: Gen, k: Gen, b: nat, l: nat, t: nat, c: Option<nat>, f: Frame, env: Env, x: Value, y: Value)
    requires c.Some? ==> c.value == t
    requires Computes(g, Some(b), f, env, x)
    requires b !in Writes(k.code)
    requires !Nullish(x) ==> Computes(k, Some(l), f, Exec(g.code, f, env).value, y)
    ensures var thn := k.code + [LoadIndex(t, Temp(b), Temp(l))];
            var last := IfElse(JNotNull(Temp(b)), thn, [Assign(t, Lit(Undefined))]);
            Computes(Gen(k.st, g.code + [last], Temp(t)), c, f, env,
              if Nullish(x) then Undefined else f.host.get(x, y))
  {
    var load, clear := LoadIndex(t, Temp(b), Temp(l)), Assign(t, Lit(Undefined));
    var last := IfElse(JNotNull(Temp(b)), k.code + [load], [clear]);
    var env1 := Exec(g.code, f, env).value;
    ExecConcat(g.code, [last], f, env);
    ExecSingle(last, f, env1);
    assert EvalJ(Temp(b), f, env1) == x;
    if Nullish(x) {
      ExecSingle(clear, f, env1);
    } else {
      ExecConcat(k.code, [load], f, env1);
      ExecFrame(k.code, f, env1, b);
      ExecSingle(load, f, Exec(k.code, f, env1).value);
    }
  }

  /** Everything known about one run of generation before its code is run. */
  lemma {:induction false} Prepare(e: Expr, c: Option<nat>, st: GenState, inputs: bool)
    requires st.Valid() && TargetOk(c, st)
    ensures var g := Generate(e, c, st, inputs);
            st.Before(g.st) && g.st.Valid() && TargetOk(c, g.st) && WellConfined(g, c, st)
  {
    GenerateBefore(e, c, st, inputs);
    GenerateConfined(e, c, st, inputs);
    TargetNotFlag(c, st, Generate(e, c, st, inputs).st);
  }

  /** Compiler correctness for one expression, from any compiler state and for any target. */
  lemma {:induction false} GenerateCorrect(e: Expr, c: Option<nat>, st: GenState, inputs: bool, f: Frame, env: Env)
    requires Compilable(e) && st.Valid() && TargetOk(c, st) && Ready(f, inputs)
    requires FlagsOk(env, Generate(e, c, st, inputs).st, f)
    ensures Computes(Generate(e, c, st, inputs), c, f, env, Meaning(e, f))
    decreases e
  {
    match e
    case Literal(v) => ComputesOptional([], Lit(v), st, st, c, f, env);
    case This => ComputesOptional([], Scope, st, st, c, f, env);
    case Unary(op, a) => UnaryCorrect(op, a, c, st, inputs, f, env);
    case Binary(op, a, b) => BinaryCorrect(op, a, b, c, st, inputs, f, env);
    case Logical(isAnd, a, b) => LogicalCorrect(isAnd, a, b, c, st, inputs, f, env);
    case Conditional(p, a, b) => ConditionalCorrect(p, a, b, c, st, inputs, f, env);
    case Ident(name) => IdentCorrect(name, c, st, inputs, f, env);
    case Member(o, name) => MemberCorrect(o, name, c, st, inputs, f, env);
    case Computed(o, p) => ComputedCorrect(o, p, c, st, inputs, f, env);
    case ArrayLit(es) => ArrayCorrect(es, c, st, inputs, f, env);
    case ObjectLit(keys, vs) => ObjectCorrect(keys, vs, c, st, inputs, f, env);
    case Watched(id, n) => WatchedCorrect(id, n, c, st, inputs, f, env);
  }

  lemma {:induction false} UnaryCorrect(op: UnaryOp, a: Expr, c: Option<nat>, st: GenState, inputs: bool, f: Frame, env: Env)
    requires Compilable(Unary(op, a)) && st.Valid() && TargetOk(c, st) && Ready(f, inputs)
    requires FlagsOk(env, Generate(Unary(op, a), c, st, inputs).st, f)
    ensures Computes(Generate(Unary(op, a), c, st, inputs), c, f, env, Meaning(Unary(op, a), f))
    decreases Unary(op, a), 0
  {
    hide Generate, FlagsOk;
    UnaryCode(op, a, c, st, inputs);
    var g := Generate(a, None, st, inputs);
    GenerateCorrect(a, None, st, inputs, f, env);
    Prepare(a, None, st, inputs);
    ComputesOptional(g.code, JUnary(op, JIfDefined(g.out)), st, g.st, c, f, env);
    assert EvalJ(JIfDefined(g.out), f, Exec(g.code, f, env).value) == IfDefined(Meaning(a, f), Num(0));
  }

  lemma {:induction false} MemberCorrect(o: Expr, name: string, c: Option<nat>, st: GenState, inputs: bool, f: Frame, env: Env)
    requires Compilable(Member(o, name)) && st.Valid() && TargetOk(c, st) && Ready(f, inputs)
    requires FlagsOk(env, Generate(Member(o, name), c, st, inputs).st, f)
    ensures Computes(Generate(Member(o, name), c, st, inputs), c, f, env, Meaning(Member(o, name), f))
    decreases Member(o, name), 0
  {
    TargetFacts(c, st.Fresh());
    var (st0, t) := st.Fresh().Target(c);
    TargetNotFlag(Some(st.next), st.Fresh(), st0);
    GenerateCorrect(o, Some(st.next), st0, inputs, f, env);
    ComputesMember(name, Generate(o, Some(st.next), st0, inputs), st.next, t, c, f, env, Meaning(o, f));
  }

  lemma {:induction false} ArrayCorrect(es: seq<Expr>, c: Option<nat>, st: GenState, inputs: bool, f: Frame, env: Env)
    requires Compilable(ArrayLit(es)) && st.Valid() && TargetOk(c, st) && Ready(f, inputs)
    requires FlagsOk(env, Generate(ArrayLit(es), c, st, inputs).st, f)
    ensures Computes(Generate(ArrayLit(es), c, st, inputs), c, f, env, Meaning(ArrayLit(es), f))
    decreases ArrayLit(es), 0
  {
    hide FlagsOk, Ready, GenerateAll, Confined;
    GenerateAllCorrect(es, st, inputs, f, env);
    var (st1, code, outs) := GenerateAll(es, st, inputs);
    GenerateAllConfined(es, st, inputs);
    ComputesOptional(code, JArray(outs), st, st1, c, f, env);
  }

  lemma {:induction false} ObjectCorrect(keys: seq<string>, vs: seq<Expr>, c: Option<nat>, st: GenState, inputs: bool, f: Frame, env: Env)
    requires Compilable(ObjectLit(keys, vs)) && st.Valid() && TargetOk(c, st) && Ready(f, inputs)
    requires FlagsOk(env, Generate(ObjectLit(keys, vs), c, st, inputs).st, f)
    ensures Computes(Generate(ObjectLit(keys, vs), c, st, inputs), c, f, env, Meaning(ObjectLit(keys, vs), f))
    decreases ObjectLit(keys, vs), 0
  {
    hide FlagsOk, Ready, GenerateAll, Confined;
    GenerateAllCorrect(vs, st, inputs, f, env);
    var (st1, code, outs) := GenerateAll(vs, st, inputs);
    GenerateAllConfined(vs, st, inputs);
    ComputesOptional(code, JObject(keys, outs), st, st1, c, f, env);
  }

  lemma {:induction false} BinaryCorrect(op: BinaryOp, a: Expr, b: Expr, c: Option<nat>, st: GenState, inputs: bool, f: Frame, env: Env)
    requires Compilable(Binary(op, a, b)) && st.Valid() && TargetOk(c, st) && Ready(f, inputs)
    requires FlagsOk(env, Generate(Binary(op, a, b), c, st, inputs).st, f)
    ensures Computes(Generate(Binary(op, a, b), c, st, inputs), c, f, env, Meaning(Binary(op, a, b), f))
    decreases Binary(op, a, b), 0
  {
    var g := Generate(a, None, st, inputs);
    var h := Generate(b, None, g.st, inputs);
    Prepare(a, None, st, inputs);
    Prepare(b, None, g.st, inputs);
    FlagsEarlier(env, g.st, h.st, f);
    GenerateCorrect(a, None, st, inputs, f, env);
    FlagsKept(g, None, st, h.st, f, env);
    GenerateCorrect(b, None, g.st, inputs, f, Exec(g.code, f, env).value);
    ComputesBinary(op, g, h, c, st, f, env, Meaning(a, f), Meaning(b, f));
  }

  lemma {:induction false} LogicalCorrect(isAnd: bool, a: Expr, b: Expr, c: Option<nat>, st: GenState, inputs: bool, f: Frame, env: Env)
    requires Compilable(Logical(isAnd, a, b)) && st.Valid() && TargetOk(c, st) && Ready(f, inputs)
    requires FlagsOk(env, Generate(Logical(isAnd, a, b), c, st, inputs).st, f)
    ensures Computes(Generate(Logical(isAnd, a, b), c, st, inputs), c, f, env, Meaning(Logical(isAnd, a, b), f))
    decreases Logical(isAnd, a, b), 0
  {
    TargetFacts(c, st);
    var (st0, t) := st.Target(c);
    var g := Generate(a, Some(t), st0, inputs);
    var h := Generate(b, Some(t), g.st, inputs);
    Prepare(a, Some(t), st0, inputs);
    Prepare(b, Some(t), g.st, inputs);
    FlagsEarlier(env, g.st, h.st, f);
    GenerateCorrect(a, Some(t), st0, inputs, f, env);
    FlagsKept(g, Some(t), st0, h.st, f, env);
    GenerateCorrect(b, Some(t), g.st, inputs, f, Exec(g.code, f, env).value);
    ComputesLogical(isAnd, g, h, t, c, f, env, Meaning(a, f), Meaning(b, f));
  }

  lemma {:induction false} ConditionalCorrect(p: Expr, a: Expr, b: Expr, c: Option<nat>, st: GenState, inputs: bool, f: Frame, env: Env)
    requires Compilable(Conditional(p, a, b)) && st.Valid() && TargetOk(c, st) && Ready(f, inputs)
    requires FlagsOk(env, Generate(Conditional(p, a, b), c, st, inputs).st, f)
    ensures Computes(Generate(Conditional(p, a, b), c, st, inputs), c, f, env, Meaning(Conditional(p, a, b), f))
    decreases Conditional(p, a, b), 0
  {
    TargetFacts(c, st);
    var (st0, t) := st.Target(c);
    var g := Generate(p, Some(t), st0, inputs);
    var h := Generate(a, Some(t), g.st, inputs);
    var k := Generate(b, Some(t), h.st, inputs);
    Prepare(p, Some(t), st0, inputs);
    Prepare(a, Some(t), g.st, inputs);
    Prepare(b, Some(t), h.st, inputs);
    BeforeTransitive(g.st, h.st, k.st);
    FlagsEarlier(env, g.st, k.st, f);
    GenerateCorrect(p, Some(t), st0, inputs, f, env);
    FlagsKept(g, Some(t), st0, k.st, f, env);
    var env1 := Exec(g.code, f, env).value;
    FlagsEarlier(env1, h.st, k.st, f);
    GenerateCorrect(a, Some(t), g.st, inputs, f, env1);
    GenerateCorrect(b, Some(t), h.st, inputs, f, env1);
    ComputesConditional(g, h, k, t, c, f, env, Meaning(p, f),
                        if Truthy(Meaning(p, f)) then Meaning(a, f) else Meaning(b, f));
  }

  lemma {:induction false} IdentCorrect(name: string, c: Option<nat>, st: GenState, inputs: bool, f: Frame, env: Env)
    requires st.Valid() && TargetOk(c, st) && Ready(f, inputs)
    requires FlagsOk(env, Generate(Ident(name), c, st, inputs).st, f)
    ensures Computes(Generate(Ident(name), c, st, inputs), c, f, env, Meaning(Ident(name), f))
  {
    var (st0, t) := st.Target(c);
    var fromScope, fromLocals := LoadName(t, Scope, name), LoadName(t, Locals, name);
    ExecSingle(fromScope, f, env);
    if !inputs {
      var (st1, flag) := st0.Flag(name);
      assert name in st1.own && st1.own[name] == flag;
      assert Truthy(EvalJ(Temp(flag), f, env)) == f.host.HasLocal(f.l, name);
      ExecSingle(fromLocals, f, env);
      ExecSingle(If(Scope, [fromScope]), f, env);
      ExecSingle(IfElse(JNot(Temp(flag)), [If(Scope, [fromScope])], [fromLocals]), f, env);
    }
  }

  lemma {:induction false} ComputedCorrect(o: Expr, p: Expr, c: Option<nat>, st: GenState, inputs: bool, f: Frame, env: Env)
    requires Compilable(Computed(o, p)) && st.Valid() && TargetOk(c, st) && Ready(f, inputs)
    requires FlagsOk(env, Generate(Computed(o, p), c, st, inputs).st, f)
    ensures Computes(Generate(Computed(o, p), c, st, inputs), c, f, env, Meaning(Computed(o, p), f))
    decreases Computed(o, p), 0
  {
    hide Generate, FlagsOk;
    ComputedCode(o, p, c, st, inputs);
    var b := st.next;
    TargetFacts(c, st.Fresh());
    var (st0, t) := st.Fresh().Target(c);
    TargetNotFlag(Some(b), st.Fresh(), st0);
    var g := Generate(o, Some(b), st0, inputs);
    var l := g.st.next;
    var k := Generate(p, Some(l), g.st.Fresh(), inputs);
    Prepare(o, Some(b), st0, inputs);
    Prepare(p, Some(l), g.st.Fresh(), inputs);
    BeforeTransitive(g.st, g.st.Fresh(), k.st);
    FlagsEarlier(env, g.st, k.st, f);
    GenerateCorrect(o, Some(b), st0, inputs, f, env);
    FlagsKept(g, Some(b), st0, k.st, f, env);
    GenerateCorrect(p, Some(l), g.st.Fresh(), inputs, f, Exec(g.code, f, env).value);
    assert b !in Writes(k.code);
    ComputesComputed(g, k, b, l, t, c, f, env, Meaning(o, f), Meaning(p, f));
  }

  lemma {:induction false} WatchedCorrect(id: nat, n: Expr, c: Option<nat>, st: GenState, inputs: bool, f: Frame, env: Env)
    requires Compilable(Watched(id, n)) && st.Valid() && TargetOk(c, st) && Ready(f, inputs)
    requires FlagsOk(env, Generate(Watched(id, n), c, st, inputs).st, f)
    ensures Computes(Generate(Watched(id, n), c, st, inputs), c, f, env, Meaning(Watched(id, n), f))
    decreases Watched(id, n), 0
  {
    TargetFacts(c, st);
    var (st0, t) := st.Target(c);
    var g := Generate(n, Some(t), st0, inputs);
    assert g.out == Temp(t);
    GenerateCorrect(n, Some(t), st0, inputs, f, env);
    ExecSingle(Assign(t, InputAt(id)), f, env);
    ExecSingle(IfElse(InputsGiven, [Assign(t, InputAt(id))], g.code), f, env);
  }

  lemma {:induction false} GenerateAllCorrect(es: seq<Expr>, st: GenState, inputs: bool, f: Frame, env: Env)
    requires forall k :: 0 <= k < |es| ==> Compilable(es[k])
    requires st.Valid() && Ready(f, inputs)
    requires FlagsOk(env, GenerateAll(es, st, inputs).0, f)
    ensures var (st1, code, outs) := GenerateAll(es, st, inputs);
            Exec(code, f, env).Some? &&
            EvalJAll(outs, f, Exec(code, f, env).value) == EvalAll(es, f.host, f.s, f.l, f.i)
    decreases es
  {
    if es != [] {
      var g := Generate(es[0], Some(st.next), st.Fresh(), inputs);
      var (st1, code, outs) := GenerateAll(es[1..], g.st, inputs);
      Prepare(es[0], Some(st.next), st.Fresh(), inputs);
      GenerateAllBefore(es[1..], g.st, inputs);
      GenerateAllConfined(es[1..], g.st, inputs);
      FlagsEarlier(env, g.st, st1, f);
      GenerateCorrect(es[0], Some(st.next), st.Fresh(), inputs, f, env);
      FlagsKept(g, Some(st.next), st.Fresh(), st1, f, env);
      var env1 := Exec(g.code, f, env).value;
      GenerateAllCorrect(es[1..], g.st, inputs, f, env1);
      ExecConcat(g.code, code, f, env);
      OperandKept(g.out, code, f, env1);
      assert ([g.out] + outs)[1..] == outs;
    }
  }
}
