/** The one quotient of `toFixed` that doubles cannot hold: rounding it does not change its floor. */
module Rounding {
  import opened Limbs
  import opened Decimals
  import opened ToFixed

  /** The double with significand `m` and exponent `k`; overflow and underflow are out of reach here. */
  function Scaled(m: int, k: int): real {
    m as real * TwoTo(k)
  }

  ghost predicate IsDouble(x: real) {
    exists m: int, k: int :: -9007199254740992 < m < 9007199254740992 && x == Scaled(m, k)
  }

  function Gap(x: real, y: real): real {
    if x < y then y - x else x - y
  }

  /** `r` is a double closest to the exact quotient `q`, however ties are broken. */
  ghost predicate RoundedTo(q: real, r: real) {
    IsDouble(r) && forall w :: IsDouble(w) ==> Gap(r, q) <= Gap(w, q)
  }

  lemma {:induction false} Grid()
    ensures TwoTo(-23) == 1.0 / 8388608.0 && TwoTo(-24) == 1.0 / 16777216.0 && TwoTo(0) == 1.0
  {
    assert TwoTo(-4) == 0.0625;
    assert TwoTo(-8) == 0.00390625;
    assert TwoTo(-12) == 0.000244140625;
    assert TwoTo(-16) == 0.0000152587890625;
    assert TwoTo(-20) == 0.00000095367431640625;
  }

  /** Some double is as close as half a step of the grid of doubles around there. */
  lemma {:induction false} Nearby(q: real, k: int, steps: real) returns (w: real)
    requires steps > 0.0 && TwoTo(k) == 1.0 / steps && 0.0 <= q && q * steps + 0.5 < EXACT
    ensures IsDouble(w) && 2.0 * steps * Gap(w, q) <= 1.0
  {
    var m := (q * steps + 0.5).Floor;
    w := Scaled(m, k);
    assert w * steps == m as real;
    assert -0.5 <= q * steps - m as real <= 0.5;
    assert (q - w) * steps == q * steps - m as real;
    OverSteps(q, w, steps);
  }

  lemma {:induction false} OverSteps(q: real, w: real, steps: real)
    requires steps > 0.0 && -0.5 <= (q - w) * steps <= 0.5
    ensures 2.0 * steps * Gap(w, q) <= 1.0
  {
    assert 2.0 * steps * (q - w) == 2.0 * ((q - w) * steps);
    assert 2.0 * steps * (w - q) == -(2.0 * ((q - w) * steps));
  }

  /** Rounding the quotient by ten million does not change its floor, for every whole number that is
    * exact and every whole number of halves below half of that. */
  lemma {:induction false} QuotientKeepsFloor(y: real, r: real)
    requires 0.0 <= y < EXACT && IsInt(2.0 * y) && (IsInt(y) || y < EXACT / 2.0)
    requires RoundedTo(y / BASE, r)
    ensures r.Floor == (y / BASE).Floor
  {
    hide TwoTo, IsDouble;
    Grid();
    var q := y / BASE;
    var f := q.Floor;
    FloorIsDouble(f);
    assert Gap(r, q) <= Gap(f as real, q);
    assert f as real <= r;
    var w: real;
    if IsInt(y) {
      w := Nearby(q, -23, 8388608.0);
      NextFloor(y, 1.0);
    } else {
      w := Nearby(q, -24, 16777216.0);
      NextFloor(y, 2.0);
    }
    assert Gap(r, q) <= Gap(w, q);
  }

  lemma {:induction false} FloorIsDouble(f: int)
    requires 0 <= f < 9007199254740992
    ensures IsDouble(f as real)
  {
    assert Scaled(f, 0) == f as real;
  }

  /** The next whole number is at least one part of ten million (times `u`) away. */
  lemma {:induction false} NextFloor(y: real, u: real)
    requires 0.0 <= y && (u == 1.0 || u == 2.0) && IsInt(u * y)
    ensures ((y / BASE).Floor + 1) as real - y / BASE >= 1.0 / (u * BASE)
  {
    var f := (y / BASE).Floor;
    assert y < (f + 1) as real * BASE;
    assert u * y == (u * y).Floor as real;
    assert (u * y).Floor < u.Floor * (f + 1) * 10000000;
    assert (u * y).Floor + 1 <= u.Floor * (f + 1) * 10000000;
  }

  /** The numbers the loops start from are such: the significand is whole, or a whole number of halves
    * and below half of what is exact. */
  lemma {:induction false} SignificandHalves(x: real, m: nat, q: int, k: int, e: real)
    requires TINY < x < HUGE && Double(x, m, q) && k >= -69 && x < TwoTo(k + 1) && (k > -69 ==> TwoTo(k) <= x)
    requires e == Mul(x, TwoTo(52 - k))
    ensures 0.0 <= e < EXACT && IsInt(2.0 * e) && (IsInt(e) || e < EXACT / 2.0)
  {
    hide TwoTo, Mul, IsInt;
    SignificandFacts(x, m, q, k, e);
    var j := q + 52 - k;
    MulAssoc(m as real, TwoTo(q), TwoTo(52 - k));
    TwoToSum(q, 52 - k);
    assert e == Mul(m as real, TwoTo(j));
    TwoToPositive(q);
    MulGrows(TwoTo(q), m as real, EXACT);
    MulAssoc(m as real, TwoTo(q), 1.0);
    Constants();
    TwoToSum(q, 53);
    assert x < TwoTo(q + 53);
    if j >= 0 {
      TwoToPow(j);
      WholeTimes(m, Pow(2, j));
    } else {
      if k > -69 { TwoToGrows(q + 53, k); }
      BelowTiny();
      if j < -1 { TwoToGrows(q + 53, -70); }
      assert j == -1;
      TwoToNext(-1);
      HalfOf(m, TwoTo(-1), e);
    }
  }

  lemma {:induction false} BelowTiny()
    ensures TwoTo(-70) < TINY
  {
    hide TwoTo;
    Constants();
    TwoToSum(70, -70);
    TwoToPositive(-70);
    InverseOf(TwoTo(70), TwoTo(-70));
  }

  lemma {:induction false} InverseOf(a: real, b: real)
    requires a > HUGE && b > 0.0 && Mul(a, b) == 1.0
    ensures b < TINY
  {
    assert (a - HUGE) * b > 0.0;
    assert a * b == HUGE * b + (a - HUGE) * b;
  }

  lemma {:induction false} WholeTimes(m: nat, p: nat)
    ensures IsInt(Mul(m as real, p as real)) && IsInt(2.0 * Mul(m as real, p as real))
  {
    assert m as real * p as real == (m * p) as real;
    assert 2.0 * (m * p) as real == (2 * m * p) as real;
  }

  lemma {:induction false} HalfOf(m: nat, h: real, e: real)
    requires 2.0 * h == 1.0 && e == Mul(m as real, h) && m < 9007199254740992
    ensures IsInt(2.0 * e) && e < EXACT / 2.0
  {
    assert 2.0 * e == m as real;
  }
}
