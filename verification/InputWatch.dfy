/** Which sub-expressions a watch needs to look at, and the memoising watch built on them. */
module InputWatch {
  import opened Expressions
  import opened CodeGen
  import CodeGenCorrect
  import opened CodeGenText
  import BackEndsAgree

  // ---------------------------------------------------------------------- the analysis `U`

  /** `constant`. */
  predicate Constant(e: Expr)
    decreases e
  {
    match e
    case Literal(_) => true
    case Ident(_) => false
    case This => false
    case Member(o, _) => Constant(o)
    case Computed(o, p) => Constant(o) && Constant(p)
    case Unary(_, a) => Constant(a)
    case Binary(_, a, b) => Constant(a) && Constant(b)
    case Logical(_, a, b) => Constant(a) && Constant(b)
    case Conditional(p, a, b) => Constant(p) && Constant(a) && Constant(b)
    case ArrayLit(es) => forall k :: 0 <= k < |es| ==> Constant(es[k])
    case ObjectLit(_, vs) => forall k :: 0 <= k < |vs| ==> Constant(vs[k])
    case Watched(_, n) => Constant(n)
  }

  /** `toWatch`. */
  function ToWatch(e: Expr): seq<Expr>
    decreases e
  {
    match e
    case Literal(_) => []
    case This => []
    case Ident(_) => [e]
    case Member(_, _) => [e]
    case Computed(_, _) => [e]
    case Unary(_, a) => ToWatch(a)
    case Binary(_, a, b) => ToWatch(a) + ToWatch(b)
    case Logical(_, _, _) => if Constant(e) then [] else [e]
    case Conditional(_, _, _) => if Constant(e) then [] else [e]
    case ArrayLit(es) => ToWatchAll(es)
    case ObjectLit(_, vs) => ToWatchAll(vs)
    case Watched(_, n) => ToWatch(n)
  }

  function ToWatchAll(es: seq<Expr>): seq<Expr>
    decreases es
  {
    if es == [] then []
    else (if Constant(es[0]) then [] else ToWatch(es[0])) + ToWatchAll(es[1..])
  }

  /** The inputs of a program: `None` when there is nothing cheaper to watch than itself. */
  function Inputs(body: seq<Expr>): Option<seq<Expr>> {
    if |body| != 1 then None
    else
      var w := ToWatch(body[0]);
      if |w| != 1 || w[0] != body[0] then Some(w) else None
  }

  /** Numbers the watched nodes of `e` from `k` on, setting their `watchId`. */
  function Annotate(e: Expr, k: nat): (Expr, nat)
    decreases e
  {
    match e
    case Literal(_) => (e, k)
    case This => (e, k)
    case Ident(_) => (Watched(k, e), k + 1)
    case Member(_, _) => (Watched(k, e), k + 1)
    case Computed(_, _) => (Watched(k, e), k + 1)
    case Unary(op, a) =>
      var (a', k1) := Annotate(a, k);
      (Unary(op, a'), k1)
    case Binary(op, a, b) =>
      var (a', k1) := Annotate(a, k);
      var (b', k2) := Annotate(b, k1);
      (Binary(op, a', b'), k2)
    case Logical(_, _, _) => if Constant(e) then (e, k) else (Watched(k, e), k + 1)
    case Conditional(_, _, _) => if Constant(e) then (e, k) else (Watched(k, e), k + 1)
    case ArrayLit(es) =>
      var (es', k1) := AnnotateAll(es, k);
      (ArrayLit(es'), k1)
    case ObjectLit(keys, vs) =>
      var (vs', k1) := AnnotateAll(vs, k);
      (ObjectLit(keys, vs'), k1)
    case Watched(_, _) => (e, k)
  }

  function AnnotateAll(es: seq<Expr>, k: nat): (seq<Expr>, nat)
    decreases es
  {
    if es == [] then ([], k)
    else
      var (e, k1) := if Constant(es[0]) then (es[0], k) else Annotate(es[0], k);
      var (rest, k2) := AnnotateAll(es[1..], k1);
      ([e] + rest, k2)
  }

  /** As parsed: no node carries a watch id yet. */
  predicate Plain(e: Expr)
    decreases e
  {
    match e
    case Literal(_) => true
    case Ident(_) => true
    case This => true
    case Member(o, _) => Plain(o)
    case Computed(o, p) => Plain(o) && Plain(p)
    case Unary(_, a) => Plain(a)
    case Binary(_, a, b) => Plain(a) && Plain(b)
    case Logical(_, a, b) => Plain(a) && Plain(b)
    case Conditional(p, a, b) => Plain(p) && Plain(a) && Plain(b)
    case ArrayLit(es) => forall k :: 0 <= k < |es| ==> Plain(es[k])
    case ObjectLit(keys, vs) => Properties(keys, vs) && forall k :: 0 <= k < |vs| ==> Plain(vs[k])
    case Watched(_, _) => false
  }

  /** `this` is read only below a watched node. */
  predicate ThisFree(e: Expr)
    decreases e
  {
    match e
    case This => false
    case Unary(_, a) => ThisFree(a)
    case Binary(_, a, b) => ThisFree(a) && ThisFree(b)
    case ArrayLit(es) => forall k :: 0 <= k < |es| ==> ThisFree(es[k])
    case ObjectLit(_, vs) => forall k :: 0 <= k < |vs| ==> ThisFree(vs[k])
    case _ => true
  }

  /** The names, literals and `this` in an expression. */
  ghost function Leaves(e: Expr): set<Expr>
    decreases e
  {
    match e
    case Literal(_) => {e}
    case Ident(_) => {e}
    case This => {e}
    case Member(o, _) => Leaves(o)
    case Computed(o, p) => Leaves(o) + Leaves(p)
    case Unary(_, a) => Leaves(a)
    case Binary(_, a, b) => Leaves(a) + Leaves(b)
    case Logical(_, a, b) => Leaves(a) + Leaves(b)
    case Conditional(p, a, b) => Leaves(p) + Leaves(a) + Leaves(b)
    case ArrayLit(es) => LeavesAll(es)
    case ObjectLit(_, vs) => LeavesAll(vs)
    case Watched(_, n) => Leaves(n)
  }

  ghost function LeavesAll(es: seq<Expr>): set<Expr>
    decreases es
  {
    if es == [] then {} else Leaves(es[0]) + LeavesAll(es[1..])
  }

  /** Constant is what is made of literals only. */
  lemma {:induction false} ConstantExactly(e: Expr)
    ensures Constant(e) <==> forall x :: x in Leaves(e) ==> x.Literal?
    decreases e
  {
    match e
    case Literal(_) =>
    case Ident(_) =>
    case This =>
    case Member(o, _) => ConstantExactly(o);
    case Computed(o, p) => ConstantExactly(o); ConstantExactly(p);
    case Unary(_, a) => ConstantExactly(a);
    case Binary(_, a, b) => ConstantExactly(a); ConstantExactly(b);
    case Logical(_, a, b) => ConstantExactly(a); ConstantExactly(b);
    case Conditional(p, a, b) => ConstantExactly(p); ConstantExactly(a); ConstantExactly(b);
    case ArrayLit(es) => ConstantsExactly(es);
    case ObjectLit(_, vs) => ConstantsExactly(vs);
    case Watched(_, n) => ConstantExactly(n);
  }

  lemma {:induction false} ConstantsExactly(es: seq<Expr>)
    ensures (forall k :: 0 <= k < |es| ==> Constant(es[k])) <==> forall x :: x in LeavesAll(es) ==> x.Literal?
    decreases es
  {
    if es != [] {
      ConstantExactly(es[0]);
      ConstantsExactly(es[1..]);
      assert es == [es[0]] + es[1..];
    }
  }

  /** What is watched instead of an expression are its names and member reads, and those choices between
    * operands that are not constant: nothing that only computes with them. */
  lemma {:induction false} WatchedAre(e: Expr, w: Expr)
    requires w in ToWatch(e)
    ensures w.Ident? || w.Member? || w.Computed? || ((w.Logical? || w.Conditional?) && !Constant(w))
    decreases e
  {
    match e
    case Unary(_, a) => WatchedAre(a, w);
    case Binary(_, a, b) => if w in ToWatch(a) { WatchedAre(a, w); } else { WatchedAre(b, w); }
    case ArrayLit(es) => WatchedInList(es, w);
    case ObjectLit(_, vs) => WatchedInList(vs, w);
    case Watched(_, n) => WatchedAre(n, w);
    case _ =>
  }

  lemma {:induction false} WatchedInList(es: seq<Expr>, w: Expr)
    requires w in ToWatchAll(es)
    ensures w.Ident? || w.Member? || w.Computed? || ((w.Logical? || w.Conditional?) && !Constant(w))
    decreases es
  {
    if !Constant(es[0]) && w in ToWatch(es[0]) { WatchedAre(es[0], w); } else { WatchedInList(es[1..], w); }
  }

  lemma {:induction false} PlainCompilable(e: Expr)
    requires Plain(e)
    ensures Compilable(e)
    decreases e
  {
    match e
    case Literal(_) =>
    case Ident(_) =>
    case This =>
    case Member(o, _) => PlainCompilable(o);
    case Computed(o, p) => PlainCompilable(o); PlainCompilable(p);
    case Unary(_, a) => PlainCompilable(a);
    case Binary(_, a, b) => PlainCompilable(a); PlainCompilable(b);
    case Logical(_, a, b) => PlainCompilable(a); PlainCompilable(b);
    case Conditional(p, a, b) => PlainCompilable(p); PlainCompilable(a); PlainCompilable(b);
    case ArrayLit(es) => forall k | 0 <= k < |es| ensures Compilable(es[k]) { PlainCompilable(es[k]); }
    case ObjectLit(_, vs) => forall k | 0 <= k < |vs| ensures Compilable(vs[k]) { PlainCompilable(vs[k]); }
  }

  /** Annotation gives one id per watched node, in order, and keeps the code generator's
    * precondition. */
  lemma {:induction false} AnnotateShape(e: Expr, k: nat)
    requires Plain(e)
    ensures Annotate(e, k).1 == k + |ToWatch(e)|
    ensures Compilable(Annotate(e, k).0)
    decreases e
  {
    PlainCompilable(e);
    match e
    case Unary(_, a) => AnnotateShape(a, k);
    case Binary(_, a, b) =>
      AnnotateShape(a, k);
      AnnotateShape(b, Annotate(a, k).1);
    case ArrayLit(es) => AnnotateAllShape(es, k);
    case ObjectLit(_, vs) => AnnotateAllShape(vs, k);
    case _ =>
  }

  lemma {:induction false} AnnotateAllShape(es: seq<Expr>, k: nat)
    requires forall j :: 0 <= j < |es| ==> Plain(es[j])
    ensures AnnotateAll(es, k).1 == k + |ToWatchAll(es)|
    ensures |AnnotateAll(es, k).0| == |es|
    ensures forall j :: 0 <= j < |AnnotateAll(es, k).0| ==> Compilable(AnnotateAll(es, k).0[j])
    decreases es
  {
    if es != [] {
      var (e, k1) := if Constant(es[0]) then (es[0], k) else Annotate(es[0], k);
      if Constant(es[0]) { PlainCompilable(es[0]); } else { AnnotateShape(es[0], k); }
      AnnotateAllShape(es[1..], k1);
    }
  }

  /** Run-time parameters of an evaluation. */
  datatype Setting = Setting(s: Value, l: Value, i: Option<seq<Value>>)

  function EvalIn(e: Expr, host: Host, x: Setting): Value {
    Eval(e, host, x.s, x.l, x.i)
  }

  /** A constant expression has one value, whatever the scope and the locals. */
  lemma {:induction false} ConstantValue(e: Expr, host: Host, x: Setting, y: Setting)
    requires Constant(e) && Plain(e)
    ensures EvalIn(e, host, x) == EvalIn(e, host, y)
    decreases e
  {
    match e
    case Literal(_) =>
    case Member(o, _) => ConstantValue(o, host, x, y);
    case Computed(o, p) => ConstantValue(o, host, x, y); ConstantValue(p, host, x, y);
    case Unary(_, a) => ConstantValue(a, host, x, y);
    case Binary(_, a, b) => ConstantValue(a, host, x, y); ConstantValue(b, host, x, y);
    case Logical(_, a, b) => ConstantValue(a, host, x, y); ConstantValue(b, host, x, y);
    case Conditional(p, a, b) =>
      ConstantValue(p, host, x, y);
      ConstantValue(a, host, x, y);
      ConstantValue(b, host, x, y);
    case ArrayLit(es) => ConstantValues(es, host, x, y);
    case ObjectLit(_, vs) => ConstantValues(vs, host, x, y);
  }

  lemma {:induction false} ConstantValues(es: seq<Expr>, host: Host, x: Setting, y: Setting)
    requires forall k :: 0 <= k < |es| ==> Constant(es[k]) && Plain(es[k])
    ensures EvalAll(es, host, x.s, x.l, x.i) == EvalAll(es, host, y.s, y.l, y.i)
    decreases es
  {
    if es != [] {
      ConstantValue(es[0], host, x, y);
      ConstantValues(es[1..], host, x, y);
    }
  }

  /** The value of a watched expression on a scope: no locals, no inputs. */
  function Fresh(e: Expr, host: Host, s: Value): Value {
    Eval(e, host, s, Undefined, None)
  }

  ghost predicate Holds(vals: seq<Value>, k: nat, w: seq<Expr>, host: Host, s: Value) {
    && k + |w| <= |vals|
    && forall j :: 0 <= j < |w| ==> vals[k + j] == Fresh(w[j], host, s)
  }

  lemma {:induction false} HoldsSplit(vals: seq<Value>, k: nat, w: seq<Expr>, w': seq<Expr>, host: Host, s: Value)
    requires Holds(vals, k, w + w', host, s)
    ensures Holds(vals, k, w, host, s) && Holds(vals, k + |w|, w', host, s)
  {
    forall j | 0 <= j < |w| ensures vals[k + j] == Fresh(w[j], host, s) {
      assert (w + w')[j] == w[j];
    }
    forall j | 0 <= j < |w'| ensures vals[k + |w| + j] == Fresh(w'[j], host, s) {
      assert (w + w')[|w| + j] == w'[j];
    }
  }

  /** The watched nodes determine the value: with their values on scope `s` supplied, the
    * annotated expression evaluates to the value on `s`, on whatever scope it is run. */
  lemma {:induction false} InputsDetermine(e: Expr, k: nat, host: Host, s: Value, now: Value, vals: seq<Value>)
    requires Plain(e) && ThisFree(e)
    requires Holds(vals, k, ToWatch(e), host, s)
    ensures Eval(Annotate(e, k).0, host, now, Undefined, Some(vals)) == Fresh(e, host, s)
    decreases e, 0
  {
    match e
    case Literal(_) =>
    case Ident(_) => assert ToWatch(e)[0] == e;
    case Member(_, _) => assert ToWatch(e)[0] == e;
    case Computed(_, _) => assert ToWatch(e)[0] == e;
    case Unary(_, a) => InputsDetermine(a, k, host, s, now, vals);
    case Binary(_, a, b) =>
      HoldsSplit(vals, k, ToWatch(a), ToWatch(b), host, s);
      AnnotateShape(a, k);
      InputsDetermine(a, k, host, s, now, vals);
      InputsDetermine(b, Annotate(a, k).1, host, s, now, vals);
    case Logical(_, _, _) =>
      if Constant(e) { ConstantValue(e, host, Setting(now, Undefined, Some(vals)), Setting(s, Undefined, None)); }
      else { assert ToWatch(e)[0] == e; }
    case Conditional(_, _, _) =>
      if Constant(e) { ConstantValue(e, host, Setting(now, Undefined, Some(vals)), Setting(s, Undefined, None)); }
      else { assert ToWatch(e)[0] == e; }
    case ArrayLit(es) => InputsDetermineAll(es, k, host, s, now, vals);
    case ObjectLit(_, vs) => InputsDetermineAll(vs, k, host, s, now, vals);
  }

  lemma {:induction false} InputsDetermineAll(es: seq<Expr>, k: nat, host: Host, s: Value, now: Value, vals: seq<Value>)
    requires forall j :: 0 <= j < |es| ==> Plain(es[j]) && ThisFree(es[j])
    requires Holds(vals, k, ToWatchAll(es), host, s)
    ensures EvalAll(AnnotateAll(es, k).0, host, now, Undefined, Some(vals)) == EvalAll(es, host, s, Undefined, None)
    decreases es
  {
    if es != [] {
      var w := if Constant(es[0]) then [] else ToWatch(es[0]);
      HoldsSplit(vals, k, w, ToWatchAll(es[1..]), host, s);
      var (first, k1) := if Constant(es[0]) then (es[0], k) else Annotate(es[0], k);
      InputsDetermineElement(es[0], k, host, s, now, vals);
      InputsDetermineAll(es[1..], k1, host, s, now, vals);
      EvalAllCons(first, AnnotateAll(es[1..], k1).0, host, now, Undefined, Some(vals));
    }
  }

  lemma {:induction false} InputsDetermineElement(e: Expr, k: nat, host: Host, s: Value, now: Value, vals: seq<Value>)
    requires Plain(e) && ThisFree(e)
    requires Holds(vals, k, if Constant(e) then [] else ToWatch(e), host, s)
    ensures var (first, k1) := if Constant(e) then (e, k) else Annotate(e, k);
            Eval(first, host, now, Undefined, Some(vals)) == Fresh(e, host, s) &&
            k1 == k + |if Constant(e) then [] else ToWatch(e)|
    decreases e, 1
  {
    if Constant(e) {
      ConstantValue(e, host, Setting(now, Undefined, Some(vals)), Setting(s, Undefined, None));
    } else {
      AnnotateShape(e, k);
      InputsDetermine(e, k, host, s, now, vals);
    }
  }

  lemma {:induction false} EvalAllCons(e: Expr, es: seq<Expr>, host: Host, s: Value, l: Value, i: Option<seq<Value>>)
    ensures EvalAll([e] + es, host, s, l, i) == [Eval(e, host, s, l, i)] + EvalAll(es, host, s, l, i)
  {
    assert ([e] + es)[1..] == es;
  }

  /** A `this`-free expression with nothing to watch is constant. */
  lemma {:induction false} SomethingToWatch(e: Expr)
    requires Plain(e) && ThisFree(e) && !Constant(e)
    ensures ToWatch(e) != []
    decreases e
  {
    match e
    case Unary(_, a) => SomethingToWatch(a);
    case Binary(_, a, b) => if !Constant(a) { SomethingToWatch(a); } else { SomethingToWatch(b); }
    case ArrayLit(es) => SomethingToWatchAll(es);
    case ObjectLit(_, vs) => SomethingToWatchAll(vs);
    case _ =>
  }

  lemma {:induction false} SomethingToWatchAll(es: seq<Expr>)
    requires forall j :: 0 <= j < |es| ==> Plain(es[j]) && ThisFree(es[j])
    requires exists j :: 0 <= j < |es| && !Constant(es[j])
    ensures ToWatchAll(es) != []
    decreases es
  {
    if Constant(es[0]) {
      var j :| 0 <= j < |es| && !Constant(es[j]);
      assert es[1..][j - 1] == es[j];
      SomethingToWatchAll(es[1..]);
    } else {
      SomethingToWatch(es[0]);
    }
  }

  // ------------------------------------------------------------------- the watch delegate

  predicate IsObject(v: Value) {
    v.Date? || v.Arr? || v.Obj?
  }

  /** What the `valueOf` of an object gives, a date's number of milliseconds for one; other values are
    * their own. */
  function ValueOf(host: Host, v: Value): Value {
    if IsObject(v) then host.valueOf(v) else v
  }

  /** What is remembered of an input: `k && valueOf(k)`. */
  function Remembered(host: Host, v: Value): Value {
    if Truthy(v) then ValueOf(host, v) else v
  }

  /** `typeof` says "object" of null, too. */
  predicate TypeofObject(v: Value) {
    IsObject(v) || v.Null?
  }

  /** The comparison of the delegate; `None` is the value nothing equals, before any call. */
  predicate SameInput(host: Host, a: Value, b: Option<Value>) {
    if b.None? then false
    else if Nullish(a) || Nullish(b.value) then a == b.value
    else if IsObject(a) && TypeofObject(ValueOf(host, a)) then false
    else ValueOf(host, a) == b.value
  }

  /** The value stands for a primitive that is not null or undefined, or is a primitive itself. */
  predicate HasPrimitive(host: Host, a: Value) {
    IsObject(a) ==> !IsObject(ValueOf(host, a)) && !Nullish(ValueOf(host, a))
  }

  /** Two different values that the comparison cannot tell apart, as they have the same primitive value: a
    * date and its number, or two objects with a `valueOf` of their own. */
  predicate Twins(host: Host, a: Value, b: Value) {
    a != b && HasPrimitive(host, a) && ValueOf(host, a) == ValueOf(host, b)
  }

  /** Exactly what "unchanged" means to the delegate. */
  lemma {:induction false} SameInputExactly(host: Host, a: Value, b: Value)
    ensures SameInput(host, a, Some(Remembered(host, b))) <==> (a == b && HasPrimitive(host, a)) || Twins(host, a, b)
  {
  }

  /** The comparison and the copy written out.  Null and undefined are only like themselves.  A date, an array or
    * an object counts as what its `valueOf` gives, unless that is null or an object again, and is then never
    * taken for unchanged.  Anything else counts as itself, and nothing is like what is there at first. */
  lemma {:induction false} ComparedAs(host: Host, a: Value, b: Value)
    ensures !SameInput(host, a, None)
    ensures var boxed, v := a.Date? || a.Arr? || a.Obj?, host.valueOf(a);
            SameInput(host, a, Some(b)) <==>
            if a == Undefined || a == Null || b == Undefined || b == Null then a == b
            else if boxed then v == b && v != Null && !v.Date? && !v.Arr? && !v.Obj?
            else a == b
    ensures Remembered(host, a) == if a.Date? || a.Arr? || a.Obj? then host.valueOf(a) else a
  {
  }

  /** Inputs are watched exactly when there is one statement and it is something other than a name, a member
    * read or a choice: those are what would be watched themselves. */
  lemma {:induction false} InputsAre(body: seq<Expr>)
    ensures Inputs(body).Some? <==>
            |body| == 1 && !body[0].Ident? && !body[0].Member? && !body[0].Computed? &&
            ((body[0].Logical? || body[0].Conditional?) ==> Constant(body[0]))
  {
    if |body| == 1 && |ToWatch(body[0])| == 1 { WatchedAre(body[0], ToWatch(body[0])[0]); }
  }

  /** `l`, `m` and `h` of the delegate. */
  datatype Memo = Memo(last: seq<Option<Value>>, values: seq<Value>, result: Value)

  function FirstChange(host: Host, cur: seq<Value>, last: seq<Option<Value>>): (j: nat)
    requires |cur| == |last|
    ensures j <= |cur|
    ensures forall c :: 0 <= c < j ==> SameInput(host, cur[c], last[c])
    ensures j < |cur| ==> !SameInput(host, cur[j], last[j])
  {
    if cur == [] then 0
    else if !SameInput(host, cur[0], last[0]) then 0
    else 1 + FirstChange(host, cur[1..], last[1..])
  }

  function Observe(w: seq<Expr>, host: Host, s: Value): (cur: seq<Value>)
    ensures |cur| == |w|
    ensures forall c :: 0 <= c < |w| ==> cur[c] == Fresh(w[c], host, s)
  {
    EvalAll(w, host, s, Undefined, None)
  }

  /** One call of the delegate: inputs from the first changed one on are stored again, and
    * only then is the expression evaluated. */
  function Call(e: Expr, host: Host, s: Value, memo: Memo): (r: Memo)
    requires |memo.last| == |memo.values| == |ToWatch(e)|
    ensures |r.last| == |r.values| == |ToWatch(e)|
  {
    var cur := Observe(ToWatch(e), host, s);
    var j := FirstChange(host, cur, memo.last);
    var last := seq(|cur|, c requires 0 <= c < |cur| => if c < j then memo.last[c] else Some(Remembered(host, cur[c])));
    var values := seq(|cur|, c requires 0 <= c < |cur| => if c < j then memo.values[c] else cur[c]);
    Memo(last, values,
         if j < |cur| then Eval(Annotate(e, 0).0, host, s, Undefined, Some(values)) else memo.result)
  }

  function Initial(e: Expr): Memo {
    Memo(seq(|ToWatch(e)|, _ => None), seq(|ToWatch(e)|, _ => Null), Undefined)
  }

  /** The memo is up to date with scope `s`. */
  ghost predicate Current(e: Expr, host: Host, s: Value, memo: Memo) {
    && memo.values == Observe(ToWatch(e), host, s)
    && memo.last == seq(|memo.values|, c requires 0 <= c < |memo.values| => Some(Remembered(host, memo.values[c])))
    && memo.result == Fresh(e, host, s)
  }

  ghost predicate NoTwins(e: Expr, host: Host, s: Value, s': Value) {
    forall c :: 0 <= c < |ToWatch(e)| ==> !Twins(host, Fresh(ToWatch(e)[c], host, s'), Fresh(ToWatch(e)[c], host, s))
  }

  lemma {:induction false} FirstCall(e: Expr, host: Host, s: Value)
    requires Plain(e) && ThisFree(e) && ToWatch(e) != []
    ensures Current(e, host, s, Call(e, host, s, Initial(e)))
  {
    var memo := Call(e, host, s, Initial(e));
    var cur := Observe(ToWatch(e), host, s);
    assert FirstChange(host, cur, Initial(e).last) == 0;
    assert memo.values == cur;
    InputsDetermine(e, 0, host, s, s, memo.values);
  }

  /** After a call with no twin in sight everything stored is up to date. */
  lemma {:induction false} StoredAgain(e: Expr, host: Host, s: Value, s': Value, memo: Memo)
    requires Current(e, host, s, memo) && NoTwins(e, host, s, s')
    ensures var next := Call(e, host, s', memo);
            next.values == Observe(ToWatch(e), host, s') &&
            next.last == seq(|next.values|, c requires 0 <= c < |next.values| => Some(Remembered(host, next.values[c])))
  {
    hide Call, Observe, ToWatch, FirstChange, Current, Twins, SameInput, Remembered;
    CurrentInputs(e, host, s, memo);
    CallStores(e, host, s', memo);
    CallRemembers(e, host, s', memo);
    var next := Call(e, host, s', memo);
    var cur := Observe(ToWatch(e), host, s');
    var j := FirstChange(host, cur, memo.last);
    forall c | 0 <= c < |cur| ensures next.values[c] == cur[c] && next.last[c] == Some(Remembered(host, cur[c])) {
      if c < j { MissedOrSame(host, cur[c], memo.values[c], memo.last[c]); }
    }
  }

  lemma {:induction false} NextCall(e: Expr, host: Host, s: Value, s': Value, memo: Memo)
    requires Plain(e) && ThisFree(e)
    requires Current(e, host, s, memo) && NoTwins(e, host, s, s')
    ensures Current(e, host, s', Call(e, host, s', memo))
  {
    StoredAgain(e, host, s, s', memo);
    var cur := Observe(ToWatch(e), host, s');
    InputsDetermine(e, 0, host, s', s', cur);
    if FirstChange(host, cur, memo.last) == |cur| {
      assert memo.values == Call(e, host, s', memo).values;
      InputsDetermine(e, 0, host, s, s', cur);
    }
  }

  function Calls(e: Expr, host: Host, run: seq<Value>): (r: Memo)
    ensures |r.last| == |r.values| == |ToWatch(e)|
  {
    if run == [] then Initial(e)
    else Call(e, host, run[|run|-1], Calls(e, host, run[..|run|-1]))
  }

  /** The memoised watch is invisible: over every run of scopes in which no input is replaced by
    * another with the same primitive value, each call returns what evaluating from scratch returns. */
  lemma {:induction false} MemoEqualsFresh(e: Expr, host: Host, run: seq<Value>)
    requires Plain(e) && ThisFree(e) && !Constant(e) && run != []
    requires forall t :: 0 < t < |run| ==> NoTwins(e, host, run[t-1], run[t])
    ensures Current(e, host, run[|run|-1], Calls(e, host, run))
    ensures Calls(e, host, run).result == Fresh(e, host, run[|run|-1])
  {
    SomethingToWatch(e);
    var before := run[..|run|-1];
    if before == [] {
      FirstCall(e, host, run[0]);
    } else {
      MemoEqualsFresh(e, host, before);
      NextCall(e, host, before[|before|-1], run[|run|-1], Calls(e, host, before));
    }
  }

  /** None of the first `j` values is a twin of what was there before. */
  ghost predicate NoneTwins(host: Host, cur: seq<Value>, before: seq<Value>, j: nat) {
    forall c :: 0 <= c < j && c < |cur| && c < |before| ==> !Twins(host, cur[c], before[c])
  }

  /** No input in front of the first changed one is a twin of what was stored. */
  ghost predicate NoTwinMissed(e: Expr, host: Host, s: Value, s': Value, memo: Memo)
    requires |memo.last| == |ToWatch(e)|
  {
    var cur := Observe(ToWatch(e), host, s');
    NoneTwins(host, cur, Observe(ToWatch(e), host, s), FirstChange(host, cur, memo.last))
  }

  lemma {:induction false} CallStores(e: Expr, host: Host, s: Value, memo: Memo)
    requires |memo.last| == |memo.values| == |ToWatch(e)|
    ensures var cur, next := Observe(ToWatch(e), host, s), Call(e, host, s, memo);
            var j := FirstChange(host, cur, memo.last);
            && |next.values| == |cur| == |ToWatch(e)|
            && (forall c :: 0 <= c < |cur| ==> next.values[c] == if c < j then memo.values[c] else cur[c])
            && (forall c :: 0 <= c < |cur| ==> cur[c] == Fresh(ToWatch(e)[c], host, s))
            && (forall c :: 0 <= c < j ==> SameInput(host, cur[c], memo.last[c]))
            && next.result == if j < |cur| then Eval(Annotate(e, 0).0, host, s, Undefined, Some(next.values)) else memo.result
  {
  }

  lemma {:induction false} CallRemembers(e: Expr, host: Host, s: Value, memo: Memo)
    requires |memo.last| == |memo.values| == |ToWatch(e)|
    ensures var cur, next := Observe(ToWatch(e), host, s), Call(e, host, s, memo);
            var j := FirstChange(host, cur, memo.last);
            |next.last| == |cur| &&
            forall c :: 0 <= c < |cur| ==> next.last[c] == if c < j then memo.last[c] else Some(Remembered(host, cur[c]))
  {
  }

  lemma {:induction false} CurrentInputs(e: Expr, host: Host, s: Value, memo: Memo)
    requires Current(e, host, s, memo)
    ensures |memo.last| == |memo.values| == |ToWatch(e)| && memo.values == Observe(ToWatch(e), host, s)
    ensures forall c :: 0 <= c < |memo.values| ==>
      memo.last[c] == Some(Remembered(host, memo.values[c])) && memo.values[c] == Fresh(ToWatch(e)[c], host, s)
  {
  }

  /** For every expression, what is stored after the next call is up to date if and only if no twin
    * comes before the first changed input. */
  lemma {:induction false} StoredExactly(e: Expr, host: Host, s: Value, s': Value, memo: Memo)
    requires Current(e, host, s, memo)
    ensures Call(e, host, s', memo).values == Observe(ToWatch(e), host, s') <==> NoTwinMissed(e, host, s, s', memo)
  {
    hide Call, Observe, ToWatch, FirstChange, Current, NoneTwins;
    CurrentInputs(e, host, s, memo);
    CallStores(e, host, s', memo);
    var cur, before := Observe(ToWatch(e), host, s'), Observe(ToWatch(e), host, s);
    SameOrTwins(host, cur, before, memo.last, Call(e, host, s', memo).values, FirstChange(host, cur, memo.last));
  }

  lemma {:induction false} SameOrTwins(host: Host, cur: seq<Value>, before: seq<Value>, last: seq<Option<Value>>, next: seq<Value>, j: nat)
    requires |cur| == |before| == |last| == |next| >= j
    requires forall c :: 0 <= c < |cur| ==> last[c] == Some(Remembered(host, before[c]))
    requires forall c :: 0 <= c < j ==> SameInput(host, cur[c], last[c])
    requires forall c :: 0 <= c < |cur| ==> next[c] == if c < j then before[c] else cur[c]
    ensures next == cur <==> NoneTwins(host, cur, before, j)
  {
    hide Twins, SameInput, Remembered;
    forall c | 0 <= c < j ensures next[c] != cur[c] <==> Twins(host, cur[c], before[c]) {
      MissedOrSame(host, cur[c], before[c], last[c]);
    }
  }

  lemma {:induction false} MissedOrSame(host: Host, now: Value, before: Value, last: Option<Value>)
    requires last == Some(Remembered(host, before)) && SameInput(host, now, last)
    ensures now != before <==> Twins(host, now, before)
  {
    SameInputExactly(host, now, before);
  }

  /** The elements of a list that is watched element by element. */
  ghost predicate Inputlike(es: seq<Expr>) {
    forall k :: 0 <= k < |es| ==> (es[k].Ident? || es[k].Member? || es[k].Computed?) && !Constant(es[k])
  }

  lemma {:induction false} ListInputs(es: seq<Expr>)
    requires Inputlike(es)
    ensures ToWatchAll(es) == es
  {
    if es != [] {
      ListInputs(es[1..]);
      assert es == [es[0]] + es[1..];
    }
  }

  lemma {:induction false} NoInputs(es: seq<Expr>, k: nat)
    requires es == []
    ensures AnnotateAll(es, k).0 == []
  {
  }

  lemma {:induction false} OneInput(es: seq<Expr>, k: nat)
    requires es != [] && Inputlike(es)
    ensures AnnotateAll(es, k).0 == [Watched(k, es[0])] + AnnotateAll(es[1..], k + 1).0
  {
    assert Annotate(es[0], k) == (Watched(k, es[0]), k + 1);
  }

  lemma {:induction false} InputsOfList(es: seq<Expr>, k: nat, host: Host, s: Value, vals: seq<Value>)
    requires Inputlike(es) && k + |es| <= |vals|
    ensures EvalAll(AnnotateAll(es, k).0, host, s, Undefined, Some(vals)) == vals[k..k + |es|]
    decreases es
  {
    hide AnnotateAll, Annotate, Constant, EvalAll, Inputlike;
    if es == [] {
      NoInputs(es, k);
      EvalNone(host, s, vals);
    } else {
      InputlikeTail(es);
      InputsOfList(es[1..], k + 1, host, s, vals);
      var rest := AnnotateAll(es[1..], k + 1).0;
      OneInput(es, k);
      EvalNext(Watched(k, es[0]), rest, host, s, vals);
      assert vals[k..k + |es|] == [vals[k]] + vals[k + 1..k + |es|];
    }
  }

  lemma {:induction false} InputlikeTail(es: seq<Expr>)
    requires es != [] && Inputlike(es)
    ensures Inputlike(es[1..])
  {
  }

  lemma {:induction false} EvalNone(host: Host, s: Value, vals: seq<Value>)
    ensures EvalAll([], host, s, Undefined, Some(vals)) == []
  {
  }

  lemma {:induction false} EvalNext(e: Expr, rest: seq<Expr>, host: Host, s: Value, vals: seq<Value>)
    ensures EvalAll([e] + rest, host, s, Undefined, Some(vals)) ==
            [Eval(e, host, s, Undefined, Some(vals))] + EvalAll(rest, host, s, Undefined, Some(vals))
  {
    assert ([e] + rest)[1..] == rest;
  }

  /** The condition is needed: for any array of names and member reads, `[x]` among them, the next
    * call is right if and only if no twin comes before the first changed input. */
  lemma {:induction false} TwinsExactly(es: seq<Expr>, host: Host, s: Value, s': Value, memo: Memo)
    requires Inputlike(es) && Current(ArrayLit(es), host, s, memo)
    ensures Call(ArrayLit(es), host, s', memo).result == Fresh(ArrayLit(es), host, s')
       <==> NoTwinMissed(ArrayLit(es), host, s, s', memo)
  {
    hide Call, FirstChange, Current, NoTwinMissed, Observe, Annotate, Eval, Inputlike;
    var e := ArrayLit(es);
    ListInputs(es);
    CurrentInputs(e, host, s, memo);
    CallStores(e, host, s', memo);
    StoredExactly(e, host, s, s', memo);
    var next := Call(e, host, s', memo);
    ListResult(es, host, s', next.values);
    FreshList(es, host, s');
    FreshResult(e, host, s, memo);
    FreshList(es, host, s);
    if FirstChange(host, Observe(es, host, s'), memo.last) == |es| {
      assert next.values == memo.values;
    }
    assert next.result == Arr(next.values);
  }

  lemma {:induction false} ListResult(es: seq<Expr>, host: Host, s: Value, vals: seq<Value>)
    requires Inputlike(es) && |vals| == |es|
    ensures Eval(Annotate(ArrayLit(es), 0).0, host, s, Undefined, Some(vals)) == Arr(vals)
  {
    InputsOfList(es, 0, host, s, vals);
    assert vals[0..|es|] == vals;
  }

  lemma {:induction false} FreshList(es: seq<Expr>, host: Host, s: Value)
    ensures Fresh(ArrayLit(es), host, s) == Arr(Observe(es, host, s))
  {
  }

  lemma {:induction false} FreshResult(e: Expr, host: Host, s: Value, memo: Memo)
    requires Current(e, host, s, memo)
    ensures memo.result == Fresh(e, host, s)
  {
  }

  /** A non-constant expression without inputs, such as `this`, is never evaluated by the
    * delegate.  The generator back end installs no delegate then; the closure one does. */
  lemma {:induction false} NoInputsNeverEvaluated(e: Expr, host: Host, run: seq<Value>)
    requires ToWatch(e) == []
    ensures Calls(e, host, run).result == Undefined
  {
    if run != [] {
      NoInputsNeverEvaluated(e, host, run[..|run|-1]);
    }
  }

  /** Which delegate `$parse` installs for one expression statement. */
  datatype Mode = Once | Memoised | Plainly

  function WatchMode(e: Expr, closures: bool): Mode {
    if Constant(e) then Once
    else if Inputs([e]).Some? && (closures || Inputs([e]).value != []) then Memoised
    else Plainly
  }

  /** What the last call of a watch on `e` returns over a run of scopes. */
  function WatchedValue(e: Expr, host: Host, closures: bool, run: seq<Value>): Value
    requires run != []
  {
    match WatchMode(e, closures)
    case Once => Fresh(e, host, run[0])
    case Memoised => Calls(e, host, run).result
    case Plainly => Fresh(e, host, run[|run|-1])
  }

  /** Whatever delegate is installed, a watch returns the current value. */
  lemma {:induction false} WatchIsFresh(e: Expr, host: Host, closures: bool, run: seq<Value>)
    requires Plain(e) && ThisFree(e) && run != []
    requires forall t :: 0 < t < |run| ==> NoTwins(e, host, run[t-1], run[t])
    ensures WatchedValue(e, host, closures, run) == Fresh(e, host, run[|run|-1])
  {
    match WatchMode(e, closures)
    case Once => ConstantValue(e, host, Setting(run[0], Undefined, None), Setting(run[|run|-1], Undefined, None));
    case Memoised => MemoEqualsFresh(e, host, run);
    case Plainly =>
  }

  /** Under content-security policy a watch on `this` stays undefined. */
  lemma {:induction false} WatchOnThis(host: Host, run: seq<Value>)
    requires run != []
    ensures WatchedValue(This, host, true, run) == Undefined
    ensures WatchedValue(This, host, false, run) == run[|run|-1]
  {
    NoInputsNeverEvaluated(This, host, run);
  }

  /** The generated main function, called by the delegate with the stored inputs, returns the
    * value of the expression on the scope those inputs came from. */
  lemma {:induction false} CompiledWatch(e: Expr, base: nat, host: Host, s: Value, now: Value, vals: seq<Value>)
    requires Plain(e) && ThisFree(e)
    requires Truthy(now) && CodeGenCorrect.KeepsZero(host)
    requires vals == Observe(ToWatch(e), host, s)
    ensures Run(MainFunction([Annotate(e, 0).0], base), Frame(host, now, Undefined, Some(vals)))
         == Some(Fresh(e, host, s))
  {
    AnnotateShape(e, 0);
    InputsDetermine(e, 0, host, s, now, vals);
    BackEndsAgree.MainFunctionCorrect([Annotate(e, 0).0], base, Frame(host, now, Undefined, Some(vals)));
  }

  /** The delegate's closure variables and its watch function. */
  class InputsDelegate {
    const e: Expr
    const host: Host
    const inputs: seq<Expr>
    var last: seq<Option<Value>>
    var values: seq<Value>
    var result: Value

    constructor (e: Expr, host: Host)
      ensures this.e == e && this.host == host && Valid() && State() == Initial(e)
    {
      this.e, this.host := e, host;
      inputs := ToWatch(e);
      last := seq(|ToWatch(e)|, _ => None);
      values := seq(|ToWatch(e)|, _ => Null);
      result := Undefined;
    }

    ghost predicate Valid()
      reads this
    {
      inputs == ToWatch(e) && |last| == |values| == |inputs|
    }

    function State(): Memo
      reads this
    {
      Memo(last, values, result)
    }

    method Watch(s: Value) returns (v: Value)
      requires Valid()
      modifies this
      ensures Valid() && State() == Call(e, host, s, old(State())) && v == result
    {
      ghost var cur := Observe(ToWatch(e), host, s);
      ghost var j := FirstChange(host, cur, last);
      var changed, c := false, 0;
      while c < |inputs|
        invariant 0 <= c <= |inputs| == |last| == |values|
        invariant changed == (j < c)
        invariant forall d :: 0 <= d < |inputs| ==>
          last[d] == if j <= d < c then Some(Remembered(host, cur[d])) else old(last)[d]
        invariant forall d :: 0 <= d < |inputs| ==>
          values[d] == if j <= d < c then cur[d] else old(values)[d]
        invariant result == old(result)
      {
        var k := Fresh(inputs[c], host, s);
        if !changed {
          changed := !SameInput(host, k, last[c]);
        }
        if changed {
          values := values[c := k];
          last := last[c := Some(Remembered(host, k))];
        }
        c := c + 1;
      }
      assert values == Call(e, host, s, old(State())).values;
      assert last == Call(e, host, s, old(State())).last;
      if changed {
        result := Eval(Annotate(e, 0).0, host, s, Undefined, Some(values));
      }
      v := result;
    }
  }
}
