/** JavaScript values, the expression syntax tree of the Angular parser, and the
  * tree-walking evaluator that the closure back end builds for it. */
module Expressions {

  datatype Option<+T> = None | Some(value: T)

  /** Values that reach an expression.  Numbers are integers; the two zeros are one. */
  datatype Value =
    | Undefined
    | Null
    | Bool(b: bool)
    | Num(n: int)
    | NaN
    | Str(s: string)
    | Date(ms: int)
    | Arr(elems: seq<Value>)
    | Obj(fields: map<string, Value>)

  predicate Truthy(v: Value) {
    match v
    case Undefined => false
    case Null => false
    case Bool(b) => b
    case Num(n) => n != 0
    case NaN => false
    case Str(s) => s != ""
    case _ => true
  }

  predicate Nullish(v: Value) {
    v.Undefined? || v.Null?
  }

  /** `ifDefined(v, d)`. */
  function IfDefined(v: Value, d: Value): Value {
    if v.Undefined? then d else v
  }

  datatype UnaryOp = Pos | Neg | Not

  datatype BinaryOp = Plus | Minus | Mul | Div | Mod
                    | StrictEq | StrictNe | LooseEq | LooseNe | Lt | Gt | Le | Ge

  /** What the host language supplies and neither back end defines: numeric negation and
    * conversion, the binary operators, property reads, the `in` test and the `valueOf` of objects. */
  datatype Host = Host(
    toNumber: Value -> Value,
    negate: Value -> Value,
    binary: (BinaryOp, Value, Value) -> Value,
    get: (Value, Value) -> Value,
    has: (Value, string) -> bool,
    valueOf: Value -> Value)
  {
    function Unary(op: UnaryOp, v: Value): Value {
      match op
      case Pos => toNumber(v)
      case Neg => negate(v)
      case Not => Bool(!Truthy(v))
    }

    /** `l && (name in l)`, as a truth value. */
    predicate HasLocal(l: Value, name: string) {
      Truthy(l) && has(l, name)
    }

    /** The `plus` helper: an undefined operand is ignored. */
    function PlusOf(a: Value, b: Value): Value {
      if a.Undefined? then b
      else if b.Undefined? then a
      else binary(Plus, a, b)
    }

    /** The interpreter's unary operators: a sign on undefined gives zero. */
    function ApplyUnary(op: UnaryOp, d: Value): Value {
      match op
      case Pos => if d.Undefined? then Num(0) else toNumber(d)
      case Neg => if d.Undefined? then Num(0) else negate(d)
      case Not => Bool(!Truthy(d))
    }

    function ApplyBinary(op: BinaryOp, x: Value, y: Value): Value {
      if op == Plus then PlusOf(x, y)
      else if op == Minus then binary(Minus, IfDefined(x, Num(0)), IfDefined(y, Num(0)))
      else binary(op, x, y)
    }

    /** A name: locals that have it win over the scope. */
    function Lookup(s: Value, l: Value, name: string): Value {
      var g := if HasLocal(l, name) then l else s;
      if Truthy(g) then get(g, Str(name)) else Undefined
    }
  }

  /** A node tagged `Watched` is one whose `watchId` has been set. */
  datatype Expr =
    | Literal(value: Value)
    | Ident(name: string)
    | This
    | Member(object: Expr, name: string)
    | Computed(object: Expr, property: Expr)
    | Unary(uop: UnaryOp, arg: Expr)
    | Binary(bop: BinaryOp, left: Expr, right: Expr)
    | Logical(isAnd: bool, left: Expr, right: Expr)
    | Conditional(test: Expr, alternate: Expr, consequent: Expr)
    | ArrayLit(elements: seq<Expr>)
    | ObjectLit(keys: seq<string>, values: seq<Expr>)
    | Watched(watchId: nat, node: Expr)

  /** `{k0: v0, k1: v1, ...}` filled from left to right. */
  function MakeObject(keys: seq<string>, vals: seq<Value>): Value
  {
    Obj(FillObject(keys, vals))
  }

  function FillObject(keys: seq<string>, vals: seq<Value>): map<string, Value>
  {
    if keys == [] || vals == [] then map[]
    else map[keys[0] := vals[0]] + FillObject(keys[1..], vals[1..])
  }

  /** The closure the interpreter back end builds for `e`, applied to a scope `s`, locals
    * `l` and, when the caller supplies them, the values of the watched inputs. */
  function Eval(e: Expr, host: Host, s: Value, l: Value, inputs: Option<seq<Value>>): Value
    decreases e
  {
    match e
    case Literal(v) => v
    case Ident(name) => host.Lookup(s, l, name)
    case This => s
    case Member(o, name) =>
      var h := Eval(o, host, s, l, inputs);
      if Nullish(h) then Undefined else host.get(h, Str(name))
    case Computed(o, p) =>
      var m := Eval(o, host, s, l, inputs);
      if Nullish(m) then Undefined else host.get(m, Eval(p, host, s, l, inputs))
    case Unary(op, a) => host.ApplyUnary(op, Eval(a, host, s, l, inputs))
    case Binary(op, a, b) => host.ApplyBinary(op, Eval(a, host, s, l, inputs), Eval(b, host, s, l, inputs))
    case Logical(isAnd, a, b) =>
      var x := Eval(a, host, s, l, inputs);
      if Truthy(x) == isAnd then Eval(b, host, s, l, inputs) else x
    case Conditional(t, a, b) =>
      if Truthy(Eval(t, host, s, l, inputs)) then Eval(a, host, s, l, inputs)
      else Eval(b, host, s, l, inputs)
    case ArrayLit(es) => Arr(EvalAll(es, host, s, l, inputs))
    case ObjectLit(keys, vs) => MakeObject(keys, EvalAll(vs, host, s, l, inputs))
    case Watched(id, node) =>
      match inputs
      case Some(vals) => if id < |vals| then vals[id] else Undefined
      case None => Eval(node, host, s, l, None)
  }

  function EvalAll(es: seq<Expr>, host: Host, s: Value, l: Value, inputs: Option<seq<Value>>): (vs: seq<Value>)
    ensures |vs| == |es|
    ensures forall k :: 0 <= k < |es| ==> vs[k] == Eval(es[k], host, s, l, inputs)
    decreases es
  {
    if es == [] then []
    else [Eval(es[0], host, s, l, inputs)] + EvalAll(es[1..], host, s, l, inputs)
  }
}
