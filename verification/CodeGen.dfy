/** The code-generating back end: JavaScript text built from temporaries and `if`s,
  * kept here as a list of chunks in which braces are explicit. */
module CodeGen {
  import opened Expressions

  /** Expressions of the generated code.  `Temp(n)` is the variable `vn`. */
  datatype JExpr =
    | Temp(id: nat)
    | Scope
    | Locals
    | InputsGiven
    | InputAt(watchId: nat)
    | Lit(v: Value)
    | JUnary(op: UnaryOp, arg: JExpr)
    | JBinary(bop: BinaryOp, left: JExpr, right: JExpr)
    | JIfDefined(arg: JExpr)
    | JPlus(left: JExpr, right: JExpr)
    | JNot(arg: JExpr)
    | JNotNull(arg: JExpr)
    | JArray(elems: seq<JExpr>)
    | JObject(keys: seq<string>, elems: seq<JExpr>)

  /** Statements: `e;`, `id = e;`, `id = base.name;`, `id = base[key];` and two shapes of `if`. */
  datatype Stmt =
    | Discard(e: JExpr)
    | Assign(id: nat, e: JExpr)
    | LoadName(id: nat, base: JExpr, name: string)
    | LoadIndex(id: nat, base: JExpr, key: JExpr)
    | If(cond: JExpr, thn: seq<Stmt>)
    | IfElse(cond: JExpr, thn: seq<Stmt>, els: seq<Stmt>)

  /** One declaration in a function's `var` line; `Some(name)` is `l&&('name' in l)`. */
  datatype VarDecl = VarDecl(id: nat, local: Option<string>)

  /** The part of the compiler state that `recurse` threads through: the next temporary,
    * the cached has-local flags and the declared variables of the current function. */
  datatype GenState = GenState(next: nat, own: map<string, nat>, vars: seq<VarDecl>)
  {
    function Fresh(): GenState {
      this.(next := next + 1, vars := vars + [VarDecl(next, None)])
    }

    /** `getHasOwnProperty("l", name)`. */
    function Flag(name: string): (GenState, nat) {
      if name in own then (this, own[name])
      else (GenState(next + 1, own[name := next], vars + [VarDecl(next, Some(name))]), next)
    }

    /** The given target, or else a new temporary. */
    function Target(c: Option<nat>): (GenState, nat) {
      match c
      case Some(id) => (this, id)
      case None => (Fresh(), next)
    }

    ghost predicate Valid() {
      forall name :: name in own ==> own[name] < next
    }

    /** `later` is a state reached from this one. */
    ghost predicate Before(later: GenState) {
      && next <= later.next
      && (forall name :: name in own ==> name in later.own && later.own[name] == own[name])
      && (forall name :: name in later.own && name !in own ==> next <= later.own[name])
    }
  }

  /** State after generation, emitted statements, and the operand handed to the callback. */
  datatype Gen = Gen(st: GenState, code: seq<Stmt>, out: JExpr)

  function AssignOpt(c: Option<nat>, e: JExpr): seq<Stmt> {
    match c
    case Some(id) => [Assign(id, e)]
    case None => []
  }

  function BinaryText(op: BinaryOp, h: JExpr, l: JExpr): JExpr {
    if op == Plus then JPlus(h, l)
    else if op == Minus then JBinary(Minus, JIfDefined(h), JIfDefined(l))
    else JBinary(op, h, l)
  }

  /** What `recurse(e, c)` emits; `inputs` is the stage that compiles watched inputs. */
  function Generate(e: Expr, c: Option<nat>, st: GenState, inputs: bool): Gen
    decreases e
  {
    match e
    case Literal(v) => Gen(st, AssignOpt(c, Lit(v)), Lit(v))
    case This => Gen(st, AssignOpt(c, Scope), Scope)
    case Unary(op, a) =>
      var g := Generate(a, None, st, inputs);
      var q := JUnary(op, JIfDefined(g.out));
      Gen(g.st, g.code + AssignOpt(c, q), q)
    case Binary(op, a, b) =>
      var g := Generate(a, None, st, inputs);
      var h := Generate(b, None, g.st, inputs);
      var q := BinaryText(op, g.out, h.out);
      Gen(h.st, g.code + h.code + AssignOpt(c, q), q)
    case Logical(isAnd, a, b) =>
      var (st0, t) := st.Target(c);
      var g := Generate(a, Some(t), st0, inputs);
      var h := Generate(b, Some(t), g.st, inputs);
      Gen(h.st, g.code + [If(if isAnd then Temp(t) else JNot(Temp(t)), h.code)], Temp(t))
    case Conditional(p, a, b) =>
      var (st0, t) := st.Target(c);
      var g := Generate(p, Some(t), st0, inputs);
      var h := Generate(a, Some(t), g.st, inputs);
      var k := Generate(b, Some(t), h.st, inputs);
      Gen(k.st, g.code + [IfElse(Temp(t), h.code, k.code)], Temp(t))
    case Ident(name) =>
      var (st0, t) := st.Target(c);
      if inputs then Gen(st0, [LoadName(t, Scope, name)], Temp(t))
      else
        var (st1, flag) := st0.Flag(name);
        Gen(st1,
            [IfElse(JNot(Temp(flag)),
                    [If(Scope, [LoadName(t, Scope, name)])],
                    [LoadName(t, Locals, name)])],
            Temp(t))
    case Member(o, name) =>
      var h := st.next;
      var (st0, t) := st.Fresh().Target(c);
      var g := Generate(o, Some(h), st0, inputs);
      Gen(g.st,
          g.code + [IfElse(JNotNull(Temp(h)), [LoadName(t, Temp(h), name)], [Assign(t, Lit(Undefined))])],
          Temp(t))
    case Computed(o, p) =>
      var h := st.next;
      var (st0, t) := st.Fresh().Target(c);
      var g := Generate(o, Some(h), st0, inputs);
      var l := g.st.next;
      var k := Generate(p, Some(l), g.st.Fresh(), inputs);
      Gen(k.st,
          g.code + [IfElse(JNotNull(Temp(h)),
                           k.code + [LoadIndex(t, Temp(h), Temp(l))],
                           [Assign(t, Lit(Undefined))])],
          Temp(t))
    case ArrayLit(es) =>
      var (st1, code, outs) := GenerateAll(es, st, inputs);
      var q := JArray(outs);
      Gen(st1, code + AssignOpt(c, q), q)
    case ObjectLit(keys, vs) =>
      var (st1, code, outs) := GenerateAll(vs, st, inputs);
      var q := JObject(keys, outs);
      Gen(st1, code + AssignOpt(c, q), q)
    case Watched(id, node) =>
      var (st0, t) := st.Target(c);
      var g := Generate(node, Some(t), st0, inputs);
      Gen(g.st, [IfElse(InputsGiven, [Assign(t, InputAt(id))], g.code)], g.out)
  }

  /** A list of operands, each with a temporary of its own. */
  function GenerateAll(es: seq<Expr>, st: GenState, inputs: bool): (GenState, seq<Stmt>, seq<JExpr>)
    decreases es
  {
    if es == [] then (st, [], [])
    else
      var g := Generate(es[0], Some(st.next), st.Fresh(), inputs);
      var (st1, code, outs) := GenerateAll(es[1..], g.st, inputs);
      (st1, g.code + code, [g.out] + outs)
  }

  /** The properties of an object literal: a value for every key, and the key that sets the
    * prototype at most once, as a literal with two of it is no expression. */
  predicate Properties(keys: seq<string>, values: seq<Expr>) {
    && |keys| == |values|
    && forall i, j :: 0 <= i < j < |keys| ==> !(keys[i] == "__proto__" && keys[j] == "__proto__")
  }

  /** Every watched node computes into its own temporary, and no member read has a watched
    * object: the shape `annotate` produces, and what the callbacks of `recurse` rely on. */
  predicate Compilable(e: Expr)
    decreases e
  {
    match e
    case Literal(_) => true
    case Ident(_) => true
    case This => true
    case Member(o, _) => Compilable(o) && !o.Watched?
    case Computed(o, p) => Compilable(o) && !o.Watched? && Compilable(p)
    case Unary(_, a) => Compilable(a)
    case Binary(_, a, b) => Compilable(a) && Compilable(b)
    case Logical(_, a, b) => Compilable(a) && Compilable(b)
    case Conditional(p, a, b) => Compilable(p) && Compilable(a) && Compilable(b)
    case ArrayLit(es) => forall k :: 0 <= k < |es| ==> Compilable(es[k])
    case ObjectLit(keys, vs) => Properties(keys, vs) && forall k :: 0 <= k < |vs| ==> Compilable(vs[k])
    case Watched(_, n) =>
      (n.Ident? || n.Member? || n.Computed? || n.Logical? || n.Conditional?) && Compilable(n)
  }

  // ------------------------------------------------------- the cases of `Generate`, one by one

  lemma {:induction false} UnaryCode(op: UnaryOp, a: Expr, c: Option<nat>, st: GenState, inputs: bool)
    ensures var g := Generate(a, None, st, inputs);
            var q := JUnary(op, JIfDefined(g.out));
            Generate(Unary(op, a), c, st, inputs) == Gen(g.st, g.code + AssignOpt(c, q), q)
  {
  }

  lemma {:induction false} BinaryCode(op: BinaryOp, a: Expr, b: Expr, c: Option<nat>, st: GenState, inputs: bool)
    ensures var g := Generate(a, None, st, inputs);
            var h := Generate(b, None, g.st, inputs);
            var q := BinaryText(op, g.out, h.out);
            Generate(Binary(op, a, b), c, st, inputs) == Gen(h.st, g.code + h.code + AssignOpt(c, q), q)
  {
  }

  lemma {:induction false} LogicalCode(isAnd: bool, a: Expr, b: Expr, c: Option<nat>, st: GenState, inputs: bool)
    ensures var (st0, t) := st.Target(c);
            var g := Generate(a, Some(t), st0, inputs);
            var h := Generate(b, Some(t), g.st, inputs);
            Generate(Logical(isAnd, a, b), c, st, inputs) ==
            Gen(h.st, g.code + [If(if isAnd then Temp(t) else JNot(Temp(t)), h.code)], Temp(t))
  {
  }

  lemma {:induction false} ConditionalCode(p: Expr, a: Expr, b: Expr, c: Option<nat>, st: GenState, inputs: bool)
    ensures var (st0, t) := st.Target(c);
            var g := Generate(p, Some(t), st0, inputs);
            var h := Generate(a, Some(t), g.st, inputs);
            var k := Generate(b, Some(t), h.st, inputs);
            Generate(Conditional(p, a, b), c, st, inputs) == Gen(k.st, g.code + [IfElse(Temp(t), h.code, k.code)], Temp(t))
  {
  }

  lemma {:induction false} MemberCode(o: Expr, name: string, c: Option<nat>, st: GenState, inputs: bool)
    ensures var h := st.next;
            var (st0, t) := st.Fresh().Target(c);
            var g := Generate(o, Some(h), st0, inputs);
            Generate(Member(o, name), c, st, inputs) ==
            Gen(g.st,
                g.code + [IfElse(JNotNull(Temp(h)), [LoadName(t, Temp(h), name)], [Assign(t, Lit(Undefined))])],
                Temp(t))
  {
  }

  lemma {:induction false} ComputedCode(o: Expr, p: Expr, c: Option<nat>, st: GenState, inputs: bool)
    ensures var h := st.next;
            var (st0, t) := st.Fresh().Target(c);
            var g := Generate(o, Some(h), st0, inputs);
            var l := g.st.next;
            var k := Generate(p, Some(l), g.st.Fresh(), inputs);
            Generate(Computed(o, p), c, st, inputs) ==
            Gen(k.st,
                g.code + [IfElse(JNotNull(Temp(h)), k.code + [LoadIndex(t, Temp(h), Temp(l))], [Assign(t, Lit(Undefined))])],
                Temp(t))
  {
  }

  lemma {:induction false} WatchedCode(id: nat, node: Expr, c: Option<nat>, st: GenState, inputs: bool)
    ensures var (st0, t) := st.Target(c);
            var g := Generate(node, Some(t), st0, inputs);
            Generate(Watched(id, node), c, st, inputs) ==
            Gen(g.st, [IfElse(InputsGiven, [Assign(t, InputAt(id))], g.code)], g.out)
  {
  }

  // ------------------------------------------------------------------ meaning of the code

  /** Run-time parameters of a generated function: scope, locals, inputs. */
  datatype Frame = Frame(host: Host, s: Value, l: Value, i: Option<seq<Value>>)

  type Env = map<nat, Value>

  function Get(env: Env, id: nat): Value {
    if id in env then env[id] else Undefined
  }

  function EvalJ(e: JExpr, f: Frame, env: Env): Value
    decreases e
  {
    match e
    case Temp(id) => Get(env, id)
    case Scope => f.s
    case Locals => f.l
    case InputsGiven => Bool(f.i.Some?)
    case InputAt(w) => if f.i.Some? && w < |f.i.value| then f.i.value[w] else Undefined
    case Lit(v) => v
    case JUnary(op, a) => f.host.Unary(op, EvalJ(a, f, env))
    case JBinary(op, a, b) => f.host.binary(op, EvalJ(a, f, env), EvalJ(b, f, env))
    case JIfDefined(a) => IfDefined(EvalJ(a, f, env), Num(0))
    case JPlus(a, b) => f.host.PlusOf(EvalJ(a, f, env), EvalJ(b, f, env))
    case JNot(a) => Bool(!Truthy(EvalJ(a, f, env)))
    case JNotNull(a) => Bool(!Nullish(EvalJ(a, f, env)))
    case JArray(es) => Arr(EvalJAll(es, f, env))
    case JObject(keys, es) => MakeObject(keys, EvalJAll(es, f, env))
  }

  function EvalJAll(es: seq<JExpr>, f: Frame, env: Env): seq<Value>
    decreases es
  {
    if es == [] then [] else [EvalJ(es[0], f, env)] + EvalJAll(es[1..], f, env)
  }

  /** Runs one statement; `None` is a thrown TypeError (a property read of null/undefined). */
  function ExecOne(c: Stmt, f: Frame, env: Env): Option<Env>
    decreases c
  {
    match c
    case Discard(_) => Some(env)
    case Assign(id, e) => Some(env[id := EvalJ(e, f, env)])
    case LoadName(id, base, name) =>
      var b := EvalJ(base, f, env);
      if Nullish(b) then None else Some(env[id := f.host.get(b, Str(name))])
    case LoadIndex(id, base, key) =>
      var b := EvalJ(base, f, env);
      if Nullish(b) then None else Some(env[id := f.host.get(b, EvalJ(key, f, env))])
    case If(cond, thn) =>
      if Truthy(EvalJ(cond, f, env)) then Exec(thn, f, env) else Some(env)
    case IfElse(cond, thn, els) =>
      if Truthy(EvalJ(cond, f, env)) then Exec(thn, f, env) else Exec(els, f, env)
  }

  function Exec(code: seq<Stmt>, f: Frame, env: Env): Option<Env>
    decreases code
  {
    if code == [] then Some(env)
    else
      match ExecOne(code[0], f, env)
      case None => None
      case Some(env') => Exec(code[1..], f, env')
  }

  /** Locals for which `l&&('name' in l)` gives an answer; `in` throws on a primitive. */
  predicate TestsLocals(l: Value) {
    !Truthy(l) || l.Date? || l.Arr? || l.Obj?
  }

  /** The variable line looks for some name in the locals, whether or not the body needs it. */
  predicate Flagged(vars: seq<VarDecl>) {
    exists k :: 0 <= k < |vars| && vars[k].local.Some?
  }

  /** The variable line of a generated function, run on entry. */
  function EntryEnv(vars: seq<VarDecl>, f: Frame): Env
  {
    if vars == [] then map[]
    else
      var d := vars[|vars|-1];
      var env := EntryEnv(vars[..|vars|-1], f);
      match d.local
      case None => env[d.id := Undefined]
      case Some(name) => env[d.id := Bool(f.host.HasLocal(f.l, name))]
  }
}
