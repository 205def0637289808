/** What expressions come to, in either back end: every operator described by its operands' values,
  * without the functions the back ends share. */
module OperatorLaws {
  import opened Expressions
  import opened CodeGen
  import opened CodeGenCorrect
  import opened CodeGenText
  import opened BackEndsAgree

  /** The values that count as false. */
  const FALSY: set<Value> := {Undefined, Null, Bool(false), Num(0), NaN, Str("")}

  lemma {:induction false} FalsyExactly(v: Value)
    ensures Truthy(v) <==> v !in FALSY
  {
  }

  /** Both back ends give `v` for the expression, the generated function wherever its temporaries start. */
  ghost predicate Gives(e: Expr, f: Frame, v: Value) {
    && Interpret([e], f) == Some(v)
    && forall base: nat :: Run(MainFunction([e], base), f) == Some(v)
  }

  /** A call on a scope object, with locals that can be looked into, and signs that keep 0. */
  ghost predicate Callable(f: Frame) {
    && f.s !in FALSY
    && (f.l in FALSY || f.l.Date? || f.l.Arr? || f.l.Obj?)
    && f.host.toNumber(Num(0)) == Num(0) && f.host.negate(Num(0)) == Num(0)
  }

  /** Every expression gives one value, the same in both. */
  lemma {:induction false} GivesOne(e: Expr, f: Frame, v: Value)
    requires Compilable(e) && Callable(f)
    ensures Gives(e, f, v) <==> v == Eval(e, f.host, f.s, f.l, f.i)
  {
    FalsyExactly(f.s);
    FalsyExactly(f.l);
    forall base: nat ensures Run(MainFunction([e], base), f) == Some(Eval(e, f.host, f.s, f.l, f.i)) {
      MainFunctionCorrect([e], base, f);
    }
    assert Run(MainFunction([e], 0), f) == Some(Eval(e, f.host, f.s, f.l, f.i));
  }

  lemma {:induction false} LiteralGives(v: Value, f: Frame)
    requires Callable(f)
    ensures Gives(Literal(v), f, v) && Gives(This, f, f.s)
  {
    GivesOne(Literal(v), f, v);
    GivesOne(This, f, f.s);
  }

  /** A name is read from the locals if there are any and they have it, and from the scope otherwise. */
  lemma {:induction false} NameGives(name: string, f: Frame)
    requires Callable(f)
    ensures Gives(Ident(name), f,
                  f.host.get(if f.l !in FALSY && f.host.has(f.l, name) then f.l else f.s, Str(name)))
  {
    hide Gives;
    FalsyExactly(f.s);
    FalsyExactly(f.l);
    GivesOne(Ident(name), f, Eval(Ident(name), f.host, f.s, f.l, f.i));
  }

  /** Without a scope object the interpreter gives undefined for a name the locals do not have. */
  lemma {:induction false} NameWithoutScope(name: string, f: Frame)
    requires f.s in FALSY && (f.l in FALSY || f.l.Date? || f.l.Arr? || f.l.Obj?)
    ensures Interpret([Ident(name)], f) ==
            Some(if f.l !in FALSY && f.host.has(f.l, name) then f.host.get(f.l, Str(name)) else Undefined)
  {
    FalsyExactly(f.s);
    FalsyExactly(f.l);
  }

  /** A member of null or undefined is undefined. */
  lemma {:induction false} MemberGives(o: Expr, name: string, f: Frame, x: Value)
    requires Compilable(Member(o, name)) && Callable(f) && Gives(o, f, x)
    ensures Gives(Member(o, name), f, if x in {Undefined, Null} then Undefined else f.host.get(x, Str(name)))
  {
    hide Gives, Callable;
    GivesOne(o, f, x);
    GivesOne(Member(o, name), f, Eval(Member(o, name), f.host, f.s, f.l, f.i));
  }

  lemma {:induction false} ComputedGives(o: Expr, p: Expr, f: Frame, x: Value, y: Value)
    requires Compilable(Computed(o, p)) && Callable(f) && Gives(o, f, x) && Gives(p, f, y)
    ensures Gives(Computed(o, p), f, if x in {Undefined, Null} then Undefined else f.host.get(x, y))
  {
    hide Gives, Callable;
    GivesOne(o, f, x);
    GivesOne(p, f, y);
    GivesOne(Computed(o, p), f, Eval(Computed(o, p), f.host, f.s, f.l, f.i));
  }

  /** A sign makes 0 of undefined and otherwise is the host's; `!` tells the falsy values. */
  lemma {:induction false} UnaryGives(a: Expr, f: Frame, x: Value)
    requires Compilable(a) && Callable(f) && Gives(a, f, x)
    ensures Gives(Unary(Pos, a), f, if x == Undefined then Num(0) else f.host.toNumber(x))
    ensures Gives(Unary(Neg, a), f, if x == Undefined then Num(0) else f.host.negate(x))
    ensures Gives(Unary(Not, a), f, Bool(x in FALSY))
  {
    hide Gives, Callable;
    FalsyExactly(x);
    GivesOne(a, f, x);
    forall op ensures Gives(Unary(op, a), f, f.host.ApplyUnary(op, x)) {
      GivesOne(Unary(op, a), f, Eval(Unary(op, a), f.host, f.s, f.l, f.i));
    }
    assert Gives(Unary(Pos, a), f, f.host.ApplyUnary(Pos, x));
    assert Gives(Unary(Neg, a), f, f.host.ApplyUnary(Neg, x));
    assert Gives(Unary(Not, a), f, f.host.ApplyUnary(Not, x));
  }

  /** `+` takes the defined one of two operands, `-` takes 0 for an undefined one, and every other
    * operator is the host's. */
  lemma {:induction false} BinaryGives(op: BinaryOp, a: Expr, b: Expr, f: Frame, x: Value, y: Value)
    requires Compilable(a) && Compilable(b) && Callable(f) && Gives(a, f, x) && Gives(b, f, y)
    ensures Gives(Binary(op, a, b), f,
                  if op == Plus then
                    if x == Undefined then y else if y == Undefined then x else f.host.binary(Plus, x, y)
                  else if op == Minus then
                    f.host.binary(Minus, if x == Undefined then Num(0) else x, if y == Undefined then Num(0) else y)
                  else f.host.binary(op, x, y))
  {
    hide Gives, Callable;
    GivesOne(a, f, x);
    GivesOne(b, f, y);
    GivesOne(Binary(op, a, b), f, Eval(Binary(op, a, b), f.host, f.s, f.l, f.i));
  }

  /** `&&` gives its left operand if that is falsy and its right one otherwise, `||` the other way round,
    * and the conditional chooses between its branches. */
  lemma {:induction false} ChoiceGives(a: Expr, b: Expr, c: Expr, f: Frame, x: Value, y: Value, z: Value)
    requires Compilable(a) && Compilable(b) && Compilable(c) && Callable(f) && Gives(a, f, x) && Gives(b, f, y) && Gives(c, f, z)
    ensures Gives(Logical(true, a, b), f, if x in FALSY then x else y)
    ensures Gives(Logical(false, a, b), f, if x in FALSY then y else x)
    ensures Gives(Conditional(a, b, c), f, if x in FALSY then z else y)
  {
    hide Gives, Callable;
    FalsyExactly(x);
    GivesOne(a, f, x);
    GivesOne(b, f, y);
    GivesOne(c, f, z);
    GivesOne(Logical(true, a, b), f, Eval(Logical(true, a, b), f.host, f.s, f.l, f.i));
    GivesOne(Logical(false, a, b), f, Eval(Logical(false, a, b), f.host, f.s, f.l, f.i));
    GivesOne(Conditional(a, b, c), f, Eval(Conditional(a, b, c), f.host, f.s, f.l, f.i));
  }

  /** An operand that is not reached need not give anything. */
  lemma {:induction false} NotReached(a: Expr, b: Expr, c: Expr, f: Frame, x: Value, y: Value)
    requires Compilable(a) && Compilable(b) && Compilable(c) && Callable(f) && Gives(a, f, x) && Gives(b, f, y)
    ensures x in FALSY ==> Gives(Logical(true, a, c), f, x) && Gives(Conditional(a, c, b), f, y)
    ensures x !in FALSY ==> Gives(Logical(false, a, c), f, x) && Gives(Conditional(a, b, c), f, y)
  {
    hide Gives, Callable;
    var z := Eval(c, f.host, f.s, f.l, f.i);
    GivesOne(c, f, z);
    ChoiceGives(a, c, b, f, x, z, y);
    ChoiceGives(a, b, c, f, x, y, z);
  }

  lemma {:induction false} ListGives(es: seq<Expr>, f: Frame, xs: seq<Value>)
    requires Compilable(ArrayLit(es)) && Callable(f) && |xs| == |es|
    requires forall k :: 0 <= k < |es| ==> Gives(es[k], f, xs[k])
    ensures Gives(ArrayLit(es), f, Arr(xs))
  {
    hide Gives, Callable;
    forall k | 0 <= k < |es| ensures xs[k] == Eval(es[k], f.host, f.s, f.l, f.i) { GivesOne(es[k], f, xs[k]); }
    assert EvalAll(es, f.host, f.s, f.l, f.i) == xs;
    GivesOne(ArrayLit(es), f, Arr(xs));
  }

  /** The object has each key with the value that stands last for it. */
  lemma {:induction false} ObjectGives(keys: seq<string>, es: seq<Expr>, f: Frame, xs: seq<Value>)
      returns (fields: map<string, Value>)
    requires Compilable(ObjectLit(keys, es)) && Callable(f) && |xs| == |es|
    requires forall k :: 0 <= k < |es| ==> Gives(es[k], f, xs[k])
    ensures Gives(ObjectLit(keys, es), f, Obj(fields))
    ensures forall key :: key in fields <==> key in keys
    ensures forall k :: 0 <= k < |keys| && keys[k] !in keys[k + 1..] ==> fields[keys[k]] == xs[k]
  {
    hide Gives, Callable;
    forall k | 0 <= k < |es| ensures xs[k] == Eval(es[k], f.host, f.s, f.l, f.i) { GivesOne(es[k], f, xs[k]); }
    assert EvalAll(es, f.host, f.s, f.l, f.i) == xs;
    fields := FillObject(keys, xs);
    Filled(keys, xs);
    GivesOne(ObjectLit(keys, es), f, Obj(fields));
  }

  lemma {:induction false} Filled(keys: seq<string>, xs: seq<Value>)
    requires |keys| == |xs|
    ensures forall key :: key in FillObject(keys, xs) <==> key in keys
    ensures forall k :: 0 <= k < |keys| && keys[k] !in keys[k + 1..] ==> FillObject(keys, xs)[keys[k]] == xs[k]
  {
    if keys != [] {
      Filled(keys[1..], xs[1..]);
      assert keys == [keys[0]] + keys[1..];
      var rest := FillObject(keys[1..], xs[1..]);
      forall k | 0 <= k < |keys| && keys[k] !in keys[k + 1..] ensures FillObject(keys, xs)[keys[k]] == xs[k] {
        if k > 0 {
          assert keys[1..][k - 1] == keys[k] && keys[1..][k..] == keys[k + 1..];
          assert keys[k] in keys[1..];
        } else {
          assert keys[0] !in keys[1..];
        }
      }
    }
  }

  /** A watched node is the value given for it, and is computed when no values are given. */
  lemma {:induction false} WatchedGives(id: nat, node: Expr, f: Frame, x: Value)
    requires Compilable(Watched(id, node)) && Callable(f) && Gives(node, f.(i := None), x)
    ensures f.i.None? ==> Gives(Watched(id, node), f, x)
    ensures f.i.Some? && id < |f.i.value| ==> Gives(Watched(id, node), f, f.i.value[id])
  {
    hide Gives;
    GivesOne(node, f.(i := None), x);
    GivesOne(Watched(id, node), f, Eval(Watched(id, node), f.host, f.s, f.l, f.i));
  }

  /** The value of a program is that of its last statement, and undefined if it has none. */
  lemma {:induction false} ProgramGives(es: seq<Expr>, base: nat, f: Frame, v: Value)
    requires (forall k :: 0 <= k < |es| ==> Compilable(es[k])) && Written(es) && Callable(f)
    requires if es == [] then v == Undefined else Gives(es[|es| - 1], f, v)
    ensures Interpret(es, f) == Some(v) && Run(MainFunction(es, base), f) == Some(v)
  {
    hide Gives;
    FalsyExactly(f.s);
    FalsyExactly(f.l);
    if es != [] { GivesOne(es[|es| - 1], f, v); }
    MainFunctionCorrect(es, base, f);
  }
}
