/** Six limbs of seven decimal digits, as `Number.prototype.toFixed` uses them.  The lowest limb may
  * hold a half; every operation is exact in double arithmetic, so real numbers stand for them. */
module Limbs {

  const BASE: real := 10000000.0

  /** 2 to the 53rd: below it the doubles hold every integer and the sums here are exact. */
  const EXACT: real := 9007199254740992.0

  predicate IsInt(x: real) {
    x.Floor as real == x
  }

  /** The lowest limb comes first. */
  function Value(s: seq<real>): real {
    if s == [] then 0.0 else s[0] + BASE * Value(s[1..])
  }

  /** Multiplication under a name, so that proofs can keep it closed. */
  function Mul(a: real, b: real): real {
    a * b
  }

  function Power(b: real, n: nat): real {
    if n == 0 then 1.0 else b * Power(b, n - 1)
  }

  predicate IsLimb(x: real) {
    0.0 <= x < BASE
  }

  ghost predicate Ranged(s: seq<real>) {
    forall i :: 0 <= i < |s| ==> IsLimb(s[i])
  }

  ghost predicate Whole(s: seq<real>) {
    forall i :: 0 <= i < |s| ==> IsInt(s[i])
  }

  /** All limbs in range and all but the lowest whole. */
  ghost predicate Proper(s: seq<real>) {
    |s| == 6 && Ranged(s) && Whole(s[1..])
  }

  lemma {:induction false} ValueSnoc(s: seq<real>, x: real)
    ensures Value(s + [x]) == Value(s) + Mul(Power(BASE, |s|), x)
  {
    if s == [] {
      assert (s + [x])[1..] == [];
    } else {
      assert (s + [x])[1..] == s[1..] + [x];
      ValueSnoc(s[1..], x);
      Spread(BASE, Power(BASE, |s| - 1), x, Value(s[1..]));
    }
  }

  lemma {:induction false} Spread(b: real, p: real, x: real, v: real)
    ensures b * (v + p * x) == b * v + (b * p) * x
  {
  }

  lemma {:induction false} ValueNonNegative(s: seq<real>)
    requires Ranged(s)
    ensures 0.0 <= Value(s)
  {
    if s != [] { ValueNonNegative(s[1..]); }
  }

  lemma {:induction false} PowerPositive(b: real, n: nat)
    requires b >= 1.0
    ensures Power(b, n) >= 1.0
  {
    if n > 0 { PowerPositive(b, n - 1); }
  }

  /** The remainder and quotient by the base. */
  function Low(r: real): real {
    r - BASE * (r / BASE).Floor as real
  }

  function High(r: real): real {
    (r / BASE).Floor as real
  }

  lemma {:induction false} LowHigh(r: real)
    requires r >= 0.0
    ensures IsLimb(Low(r)) && r == Low(r) + BASE * High(r) && 0.0 <= High(r) <= r / BASE
    ensures IsInt(High(r)) && (IsInt(r) ==> IsInt(Low(r)))
  {
    if IsInt(r) {
      assert Low(r) == (r.Floor - 10000000 * (r / BASE).Floor) as real;
    }
  }

  lemma {:induction false} Scale(a: real, b: real, c: real)
    requires 0.0 <= a && b <= c
    ensures a * b <= a * c
  {
  }

  lemma {:induction false} Products(a: real, b: real, c: real, d: real)
    requires 0.0 <= a <= c && 0.0 <= b <= d
    ensures 0.0 <= a * b <= c * d
  {
    Scale(a, 0.0, b);
    Scale(a, b, d);
    Scale(d, a, c);
    assert a * d == d * a && c * d == d * c;
  }

  // ------------------------------------------------------------------------ multiply and add

  /** After the limbs in `done`, with `r` to carry on. */
  ghost predicate Multiplied(done: seq<real>, was: seq<real>, t: nat, n: real, r: real) {
    && |done| <= |was| == 6 && Ranged(done) && 0.0 <= r < EXACT
    && (done == [] ==> r == n) && (done != [] ==> IsInt(r) && r <= EXACT / BASE && Whole(done[1..]))
    && (IsInt(n) && (t == 0 || Whole(was)) ==> IsInt(r) && Whole(done))
    && Value(done) + Mul(Power(BASE, |done|), r) == Mul(t as real, Value(was[..|done|])) + n
  }

  /** One round of `l`; the sum is exact. */
  lemma {:induction false} MultiplyStep(done: seq<real>, was: seq<real>, t: nat, n: real, r: real, x: real, sum: real)
    requires Multiplied(done, was, t, n, r) && |done| < 6 && Proper(was)
    requires t <= 10000000 && 0.0 <= n < EXACT && (t == 0 || n <= 1.0)
    requires x == was[|done|] && sum == r + Mul(t as real, x)
    ensures 0.0 <= sum < EXACT && Multiplied(done + [Low(sum)], was, t, n, High(sum))
  {
    hide Value, Power, Low, High, IsInt, Mul;
    var next := done + [Low(sum)];
    Fits(t, x, r);
    LowHigh(sum);
    WholeProduct(t, x, r);
    Quotient(sum);
    if done != [] {
      assert was[1..][|done| - 1] == x;
      assert next[1..] == done[1..] + [Low(sum)];
    } else {
      assert next[1..] == [];
    }
    assert was[..|next|] == was[..|done|] + [x];
    MultiplyValue(done, was[..|done|], x, t as real, n, r, sum);
  }

  lemma {:induction false} Quotient(r: real)
    requires r < EXACT
    ensures r / BASE <= EXACT / BASE
  {
  }

  lemma {:induction false} MultiplyValue(done: seq<real>, was: seq<real>, x: real, t: real, n: real, carry: real, r: real)
    requires |done| == |was| && r == carry + Mul(t, x) && r >= 0.0
    requires Value(done) + Mul(Power(BASE, |done|), carry) == Mul(t, Value(was)) + n
    ensures Value(done + [Low(r)]) + Mul(Power(BASE, |done| + 1), High(r)) == Mul(t, Value(was + [x])) + n
  {
    hide Value, Low, High, Power, Mul;
    ValueSnoc(done, Low(r));
    ValueSnoc(was, x);
    LowSplit(r);
    NextPower(|done|);
    MulAlgebra(Power(BASE, |done|), Low(r), High(r), carry, t, x, Value(was), Value(done), n);
  }

  lemma {:induction false} LowSplit(r: real)
    requires r >= 0.0
    ensures Low(r) + BASE * High(r) == r
  {
  }

  lemma {:induction false} NextPower(k: nat)
    ensures Power(BASE, k + 1) == BASE * Power(BASE, k)
  {
  }

  lemma {:induction false} MulAlgebra(p: real, low: real, high: real, carry: real, t: real, x: real, v: real, w: real, n: real)
    requires low + BASE * high == carry + Mul(t, x) && w + Mul(p, carry) == Mul(t, v) + n
    ensures w + Mul(p, low) + Mul(BASE * p, high) == Mul(t, v + Mul(p, x)) + n
  {
    assert p * (low + BASE * high) == p * low + (BASE * p) * high;
    assert p * (carry + t * x) == p * carry + t * (p * x);
    assert t * (v + p * x) == t * v + t * (p * x);
  }

  /** `l(t, n)`: multiplies by t and adds n; what does not fit six limbs would be lost. */
  method MultiplyAdd(s: array<real>, t: nat, n: real)
    requires s.Length == 6 && Proper(s[..]) && t <= 10000000 && 0.0 <= n < EXACT && (t == 0 || n <= 1.0)
    requires t as real * Value(s[..]) + n < Power(BASE, 6)
    modifies s
    ensures Proper(s[..]) && Value(s[..]) == t as real * Value(old(s[..])) + n
    ensures IsInt(n) && (t == 0 || Whole(old(s[..]))) ==> Whole(s[..])
  {
    hide Value, Power, Low, High, IsInt, Multiplied, Proper;
    var e, r := 0, n;
    ghost var was, done := s[..], [];
    MultipliedNone(was, t, n);
    while e < 6
      invariant 0 <= e <= 6 && s.Length == 6 && |done| == e
      invariant s[..e] == done && s[e..] == was[e..]
      invariant Multiplied(done, was, t, n, r)
    {
      assert s[e] == s[e..][0] == was[e];
      ghost var carry := r;
      r := r + t as real * s[e];
      assert r == carry + Mul(t as real, s[e]);
      MultiplyStep(done, was, t, n, carry, s[e], r);
      assert r < EXACT;
      s[e] := r - BASE * (r / BASE).Floor as real;
      LowIs(r);
      done := done + [Low(r)];
      r := (r / BASE).Floor as real;
      e := e + 1;
    }
    assert s[..] == done;
    NothingLost(done, was, t, n, r);
  }

  lemma {:induction false} LowIs(r: real)
    ensures Low(r) == r - BASE * (r / BASE).Floor as real && High(r) == (r / BASE).Floor as real
  {
  }

  lemma {:induction false} MultipliedNone(was: seq<real>, t: nat, n: real)
    requires Proper(was) && 0.0 <= n < EXACT
    ensures Multiplied([], was, t, n, n)
  {
    assert was[..0] == [];
  }

  /** No sum leaves the exact range. */
  lemma {:induction false} Fits(t: nat, x: real, r: real)
    requires t <= 10000000 && IsLimb(x) && 0.0 <= r
    ensures 0.0 <= Mul(t as real, x) <= BASE * BASE
    ensures t == 0 ==> Mul(t as real, x) == 0.0
    ensures r <= EXACT / BASE ==> r + Mul(t as real, x) < EXACT
    ensures r <= 1.0 ==> r + Mul(t as real, x) < EXACT
  {
    Products(t as real, x, BASE, BASE);
  }

  lemma {:induction false} WholeProduct(t: nat, x: real, r: real)
    ensures IsInt(x) && IsInt(r) ==> IsInt(r + Mul(t as real, x))
    ensures t == 0 && IsInt(r) ==> IsInt(r + Mul(t as real, x))
  {
    if IsInt(x) && IsInt(r) {
      assert r + t as real * x == (r.Floor + t * x.Floor) as real;
    }
  }

  lemma {:induction false} NothingLost(done: seq<real>, was: seq<real>, t: nat, n: real, r: real)
    requires Multiplied(done, was, t, n, r) && |done| == 6 && Mul(t as real, Value(was)) + n < Power(BASE, 6)
    ensures Proper(done) && Value(done) == Mul(t as real, Value(was)) + n
    ensures IsInt(n) && (t == 0 || Whole(was)) ==> Whole(done)
  {
    hide Value, Power, Mul;
    assert was[..6] == was;
    ValueNonNegative(done);
    PowerPositive(BASE, 6);
    NoCarry(Power(BASE, 6), r, Value(done), Mul(t as real, Value(was)) + n);
  }

  lemma {:induction false} NoCarry(p: real, r: real, v: real, total: real)
    requires p > 0.0 && v >= 0.0 && v + Mul(p, r) == total < p && r >= 0.0 && IsInt(r)
    ensures r == 0.0 && v == total
  {
    hide Mul;
    OneOrMore(p, r);
    assert r < 1.0;
    assert r.Floor == 0;
  }

  lemma {:induction false} OneOrMore(p: real, r: real)
    requires p > 0.0
    ensures r >= 1.0 ==> Mul(p, r) >= p
    ensures r == 0.0 ==> Mul(p, r) == 0.0
  {
    if r >= 1.0 { Scale(p, 1.0, r); }
  }

  // --------------------------------------------------------------------------------- division

  /** `q` are the quotient's limbs so far, for the upper limbs of `was`, and `rem` is left over. */
  ghost predicate Divided(q: seq<real>, was: seq<real>, t: nat, rem: real) {
    && |q| <= |was| == 6 && t > 0 && Ranged(q) && Whole(q) && 0.0 <= rem < t as real
    && (|q| < 6 ==> IsInt(rem))
    && Mul(t as real, Value(q)) + rem == Value(was[6 - |q|..])
  }

  lemma {:induction false} DividedNone(was: seq<real>, t: nat)
    requires |was| == 6 && t > 0
    ensures Divided([], was, t, 0.0)
  {
    assert was[6..] == [];
  }

  /** One round of `h`. */
  lemma {:induction false} DivideStep(q: seq<real>, was: seq<real>, t: nat, rem: real, x: real, sum: real)
    requires Divided(q, was, t, rem) && |q| < 6 && Proper(was)
    requires x == was[5 - |q|] && sum == BASE * rem + x
    ensures Divided([Over(sum, t)] + q, was, t, Rem(sum, t))
  {
    hide Value, Mul, IsInt, Over, Rem;
    var k := 5 - |q|;
    Limb(was, k);
    WholeBelow(rem, t);
    OverRem(sum, t, rem, x);
    assert was[k..] == [x] + was[k+1..];
    ValueCons(x, was[k+1..]);
    ValueCons(Over(sum, t), q);
    DivideAlgebra(t as real, Over(sum, t), Rem(sum, t), Value(q), rem, x, Value(was[k+1..]));
  }

  lemma {:induction false} Limb(was: seq<real>, k: nat)
    requires Proper(was) && k < 6
    ensures IsLimb(was[k]) && (k > 0 ==> IsInt(was[k]))
  {
    if k > 0 { assert was[1..][k - 1] == was[k]; }
  }

  lemma {:induction false} WholeBelow(rem: real, t: nat)
    requires IsInt(rem) && rem < t as real
    ensures rem <= t as real - 1.0
  {
    var k := rem.Floor;
    assert k < t;
    assert k <= t - 1;
  }

  lemma {:induction false} ValueCons(x: real, s: seq<real>)
    ensures Value([x] + s) == x + BASE * Value(s)
  {
    assert ([x] + s)[1..] == s;
  }

  function Over(sum: real, t: nat): real
    requires t > 0
  {
    (sum / t as real).Floor as real
  }

  function Rem(sum: real, t: nat): real
    requires t > 0
  {
    sum - Mul(t as real, Over(sum, t))
  }

  lemma {:induction false} OverRem(sum: real, t: nat, rem: real, x: real)
    requires t > 0 && sum == BASE * rem + x && 0.0 <= rem <= t as real - 1.0 && IsLimb(x) && IsInt(rem)
    ensures IsLimb(Over(sum, t)) && IsInt(Over(sum, t)) && 0.0 <= Rem(sum, t) < t as real
    ensures Mul(t as real, Over(sum, t)) + Rem(sum, t) == sum && (IsInt(x) ==> IsInt(Rem(sum, t)))
  {
    hide IsInt, Mul;
    BelowBase(sum, rem, x, t as real);
    QuotientBelow(sum, t as real, BASE);
    RemainderRange(sum, t as real);
    FloorLimb(sum / t as real);
    if IsInt(x) { WholeRemainder(sum, t, rem, x); }
  }

  lemma {:induction false} BelowBase(sum: real, rem: real, x: real, t: real)
    requires sum == BASE * rem + x && 0.0 <= rem <= t - 1.0 && IsLimb(x)
    ensures 0.0 <= sum < BASE * t
  {
  }

  lemma {:induction false} FloorLimb(y: real)
    requires 0.0 <= y < BASE
    ensures IsLimb(y.Floor as real) && IsInt(y.Floor as real)
  {
  }

  lemma {:induction false} WholeRemainder(sum: real, t: nat, rem: real, x: real)
    requires t > 0 && sum == BASE * rem + x && IsInt(rem) && IsInt(x)
    ensures IsInt(Rem(sum, t))
  {
    var y, r, z := (sum / t as real).Floor, rem.Floor, x.Floor;
    assert t as real * y as real == (t * y) as real;
    assert Rem(sum, t) == (10000000 * r + z - t * y) as real;
  }

  lemma {:induction false} QuotientBelow(a: real, t: real, b: real)
    requires t > 0.0 && 0.0 <= a < b * t
    ensures 0.0 <= a / t < b
  {
    assert a / t * t == a;
    if a / t >= b { Scale(t, b, a / t); }
  }

  lemma {:induction false} RemainderRange(a: real, t: real)
    requires t > 0.0
    ensures 0.0 <= a - Mul(t, (a / t).Floor as real) < t
  {
    hide Mul;
    var y := a / t;
    Fraction(y);
    Smaller(t, y - y.Floor as real);
    Apart(t, y, y.Floor as real, a);
  }

  lemma {:induction false} Fraction(y: real)
    ensures 0.0 <= y - y.Floor as real < 1.0
  {
  }

  lemma {:induction false} Apart(t: real, y: real, k: real, a: real)
    requires t > 0.0 && y == a / t
    ensures Mul(t, y - k) == a - Mul(t, k)
  {
    assert y * t == a;
  }

  lemma {:induction false} Smaller(t: real, f: real)
    requires t > 0.0 && 0.0 <= f < 1.0
    ensures 0.0 <= Mul(t, f) < t
  {
  }

  lemma {:induction false} DivideAlgebra(t: real, over: real, rem: real, v: real, was: real, x: real, w: real)
    requires Mul(t, over) + rem == BASE * was + x && Mul(t, v) + was == w
    ensures Mul(t, over + BASE * v) + rem == x + BASE * w
  {
    assert t * (over + BASE * v) == t * over + BASE * (t * v);
  }

  /** `h(t)`: divides by t and drops the remainder, a half in the lowest limb included. */
  method Divide(s: array<real>, t: nat)
    requires s.Length == 6 && Proper(s[..]) && 0 < t <= 8388608
    modifies s
    ensures Proper(s[..]) && Whole(s[..]) && Value(s[..]) == (Value(old(s[..])) / t as real).Floor as real
  {
    hide Value, Mul, IsInt, Divided, Proper, Over, Rem;
    var n, e := 6, 0.0;
    ghost var was, q, rem := s[..], [], 0.0;
    DividedNone(was, t);
    while n > 0
      invariant 0 <= n <= 6 && s.Length == 6 && |q| == 6 - n
      invariant s[n..] == q && s[..n] == was[..n]
      invariant Divided(q, was, t, rem) && e == BASE * rem
    {
      n := n - 1;
      assert s[n] == s[..n+1][n] == was[n];
      e := e + s[n];
      ghost var sum := e;
      DivideStep(q, was, t, rem, s[n], sum);
      DivideExact(q, was, t, rem, s[n], sum);
      assert e < EXACT;
      s[n] := (e / t as real).Floor as real;
      OverIs(sum, t);
      q := [Over(sum, t)] + q;
      rem := Rem(sum, t);
      assert s[n..] == [s[n]] + s[n+1..];
      e := (e - t as real * (e / t as real).Floor as real) * BASE;
    }
    assert s[..] == q;
    DividedAll(q, was, t, rem);
  }

  lemma {:induction false} OverIs(sum: real, t: nat)
    requires t > 0
    ensures Over(sum, t) == (sum / t as real).Floor as real
    ensures Rem(sum, t) == sum - t as real * (sum / t as real).Floor as real
  {
  }

  lemma {:induction false} DivideExact(q: seq<real>, was: seq<real>, t: nat, rem: real, x: real, sum: real)
    requires Divided(q, was, t, rem) && |q| < 6 && Proper(was) && t <= 8388608
    requires x == was[5 - |q|] && sum == BASE * rem + x
    ensures sum < EXACT
  {
    hide Value, Mul;
    Limb(was, 5 - |q|);
  }

  lemma {:induction false} DividedAll(q: seq<real>, was: seq<real>, t: nat, rem: real)
    requires Divided(q, was, t, rem) && |q| == 6
    ensures Proper(q) && Whole(q) && Value(q) == (Value(was) / t as real).Floor as real
  {
    hide Value, Mul;
    assert was[0..] == was;
    ValueWhole(q);
    WholeQuotient(t as real, Value(q), rem, Value(was));
  }

  lemma {:induction false} ValueWhole(s: seq<real>)
    requires Whole(s)
    ensures IsInt(Value(s))
  {
    if s != [] {
      ValueWhole(s[1..]);
      assert Value(s) == (s[0].Floor + 10000000 * Value(s[1..]).Floor) as real;
    }
  }

  lemma {:induction false} WholeQuotient(t: real, v: real, rem: real, w: real)
    requires t > 0.0 && IsInt(v) && 0.0 <= rem < t && Mul(t, v) + rem == w
    ensures v == (w / t).Floor as real
  {
    QuotientBelow(rem, t, 1.0);
    SplitQuotient(t, v, rem, w);
    FloorOfSum(v, rem / t);
  }

  lemma {:induction false} SplitQuotient(t: real, v: real, rem: real, w: real)
    requires t > 0.0 && Mul(t, v) + rem == w
    ensures w / t == v + rem / t
  {
    var y := rem / t;
    assert y * t == rem;
    assert (v + y) * t == w;
  }

  lemma {:induction false} FloorOfSum(v: real, f: real)
    requires IsInt(v) && 0.0 <= f < 1.0
    ensures (v + f).Floor as real == v
  {
    FloorIs(v + f, v.Floor);
  }

  lemma {:induction false} FloorIs(x: real, k: int)
    requires k as real <= x < k as real + 1.0
    ensures x.Floor == k
  {
  }
}
