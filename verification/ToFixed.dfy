/** `Number.prototype.toFixed` (section 20.1.3.3 of ECMAScript 2015). */
module ToFixed {
  import opened Limbs
  import opened Decimals

  datatype Num = NaN | Infinite(negative: bool) | Finite(x: real)

  /** `HostString` is `String(x)`, for numbers from 10 to the 21st on. */
  datatype Answer = RangeError | Text(s: string) | HostString

  const HUGE: real := 1000000000000000000000.0
  const TINY: real := 0.000000000000000000001

  // ------------------------------------------------------------------- what the standard asks for

  /** The whole number nearest to z, the larger of two. */
  function Nearest(z: real): int {
    (z + 0.5).Floor
  }

  lemma {:induction false} NearestIsClosest(z: real, k: int)
    ensures var n := Nearest(z);
            var near, far := Distance(n, z), Distance(k, z);
            near < far || (near == far && k <= n)
  {
  }

  function Distance(k: int, z: real): real {
    if k as real >= z then k as real - z else z - k as real
  }

  /** The digits of n with the point before the last f of them, and zeros in front as needed. */
  function Format(n: nat, f: nat): string {
    var m := if f > 0 && |Decimal(n)| <= f then Zeros(f + 1 - |Decimal(n)|) + Decimal(n) else Decimal(n);
    if f == 0 then m else m[..|m| - f] + "." + m[|m| - f..]
  }

  lemma {:induction false} ReadZeros(k: nat, s: string)
    requires s != ""
    ensures Read(Zeros(k) + s) == Read(s)
    decreases |s|
  {
    var z := Zeros(k) + s;
    var n := |s| - 1;
    assert z[..|z| - 1] == Zeros(k) + s[..n] && z[|z| - 1] == s[n];
    if n > 0 { ReadZeros(k, s[..n]); } else { assert Zeros(k) + s[..n] == Zeros(k); OnlyZeros(k); assert Read(s[..n]) == 0; }
  }

  lemma {:induction false} OnlyZeros(k: nat)
    ensures Read(Zeros(k)) == 0
  {
    if k > 0 {
      ZerosSnoc(k - 1);
      assert Zeros(k)[..k - 1] == Zeros(k - 1);
      OnlyZeros(k - 1);
    }
  }

  /** Reading a number in two parts. */
  lemma {:induction false} ReadParts(a: string, b: string)
    ensures Read(a + b) == Read(a) * Pow(10, |b|) + Read(b)
    decreases |b|
  {
    if b == "" {
      assert a + b == a;
    } else {
      var n := |b| - 1;
      assert (a + b)[..|a + b| - 1] == a + b[..n] && (a + b)[|a + b| - 1] == b[n];
      ReadParts(a, b[..n]);
      PowProducts(Read(a), Pow(10, n), Read(b[..n]));
    }
  }

  lemma {:induction false} PowProducts(x: nat, p: nat, y: nat)
    ensures 10 * (x * p + y) == x * (10 * p) + 10 * y
  {
    assert x * (10 * p) == 10 * (x * p);
  }

  /** What the formatted digits mean: a whole part without superfluous zeros, and for f > 0 a point and
    * exactly f digits; read together without the point they are the number. */
  lemma {:induction false} FormatReads(n: nat, f: nat) returns (whole: string, decimals: string)
    ensures Format(n, f) == if f == 0 then whole else whole + "." + decimals
    ensures |decimals| == f && whole != "" && (|whole| > 1 ==> whole[0] != '0')
    ensures Read(whole) * Pow(10, f) + Read(decimals) == n
  {
    hide Decimal, Read, Pow, Zeros;
    var d := Decimal(n);
    DecimalReads(n);
    DecimalOfZero(n);
    if f == 0 {
      whole, decimals := d, "";
      ReadParts(d, "");
      assert d + "" == d;
    } else {
      var m := if |d| <= f then Zeros(f + 1 - |d|) + d else d;
      whole, decimals := m[..|m| - f], m[|m| - f..];
      if |d| <= f { ReadZeros(f + 1 - |d|, d); }
      assert whole + decimals == m;
      ReadParts(whole, decimals);
    }
  }

  lemma {:induction false} DecimalOfZero(n: nat)
    ensures n == 0 ==> Decimal(n) == "0"
  {
  }

  function Abs(x: real): real {
    if x < 0.0 then -x else x
  }

  lemma {:induction false} ScaledNearest(x: real, f: nat)
    requires x >= 0.0
    ensures Nearest(Mul(x, Pow(10, f) as real)) >= 0
  {
    hide Nearest, Pow;
    Products(x, Pow(10, f) as real, x, Pow(10, f) as real);
    NearestNonNegative(Mul(x, Pow(10, f) as real));
  }

  lemma {:induction false} NearestNonNegative(z: real)
    requires z >= 0.0
    ensures Nearest(z) >= 0
  {
  }

  function Standard(x: real, f: nat): string {
    ScaledNearest(Abs(x), f);
    (if x < 0.0 then "-" else "") + Format(Nearest(Mul(Abs(x), Pow(10, f) as real)), f)
  }

  /** The standard's answer in its own terms: a minus sign for a negative number, and the digits of the
    * whole number closest to |x| times 10 to the f-th, the larger of two, with the last f behind a point. */
  lemma {:induction false} StandardMeans(x: real, f: nat) returns (n: nat, whole: string, decimals: string)
    ensures Standard(x, f) == (if x < 0.0 then "-" else "") + if f == 0 then whole else whole + "." + decimals
    ensures |decimals| == f && whole != "" && (|whole| > 1 ==> whole[0] != '0')
    ensures Read(whole) * Pow(10, f) + Read(decimals) == n
    ensures var z := (if x < 0.0 then -x else x) * Pow(10, f) as real;
            n as real - 0.5 <= z < n as real + 0.5
  {
    hide Decimal, Read, Pow, Format;
    ScaledNearest(Abs(x), f);
    n := Nearest(Mul(Abs(x), Pow(10, f) as real));
    whole, decimals := FormatReads(n, f);
  }

  // ------------------------------------------------------------------------------ the exponent

  /** Two to a power that may be negative. */
  function TwoTo(q: int): real
    decreases if q < 0 then -q else q
  {
    if q == 0 then 1.0 else if q > 0 then 2.0 * TwoTo(q - 1) else TwoTo(q + 1) / 2.0
  }

  lemma {:induction false} TwoToNext(q: int)
    ensures TwoTo(q + 1) == 2.0 * TwoTo(q)
  {
  }

  lemma {:induction false} TwoToPow(n: nat)
    ensures TwoTo(n) == Pow(2, n) as real
  {
    if n > 0 { TwoToPow(n - 1); }
  }

  lemma {:induction false} TwoToPositive(q: int)
    ensures TwoTo(q) > 0.0
    decreases if q < 0 then -q else q
  {
    if q > 0 { TwoToPositive(q - 1); }
    if q < 0 { TwoToPositive(q + 1); }
  }

  lemma {:induction false} TwoToSum(a: int, b: int)
    ensures Mul(TwoTo(a), TwoTo(b)) == TwoTo(a + b)
    decreases if b < 0 then -b else b
  {
    if b > 0 {
      TwoToSum(a, b - 1);
      TwoToNext(a + b - 1);
      MulTwice(TwoTo(a), TwoTo(b - 1));
    }
    if b < 0 {
      TwoToSum(a, b + 1);
      TwoToNext(a + b);
      MulTwice(TwoTo(a), TwoTo(b));
      TwoToNext(b);
    }
  }

  lemma {:induction false} MulTwice(x: real, y: real)
    ensures Mul(x, 2.0 * y) == 2.0 * Mul(x, y)
  {
  }

  lemma {:induction false} TwoToGrows(a: int, b: int)
    requires a <= b
    ensures TwoTo(a) <= TwoTo(b)
    decreases b - a
  {
    if a < b {
      TwoToGrows(a, b - 1);
      TwoToNext(b - 1);
      TwoToPositive(b - 1);
    }
  }

  lemma {:induction false} MulAssoc(x: real, y: real, z: real)
    ensures Mul(Mul(x, y), z) == Mul(x, Mul(y, z)) && Mul(x, y) == Mul(y, x)
  {
    assert x * y * z == x * (y * z);
  }

  lemma {:induction false} MulGrows(x: real, a: real, b: real)
    requires x > 0.0
    ensures a <= b ==> Mul(x, a) <= Mul(x, b)
    ensures a < b ==> Mul(x, a) < Mul(x, b)
  {
    hide Mul;
    MulMinus(x, b, a);
    MulSign(x, b - a);
  }

  lemma {:induction false} MulMinus(x: real, b: real, a: real)
    ensures Mul(x, b - a) == Mul(x, b) - Mul(x, a)
  {
  }

  lemma {:induction false} MulSign(x: real, y: real)
    requires x > 0.0
    ensures y >= 0.0 ==> Mul(x, y) >= 0.0
    ensures y > 0.0 ==> Mul(x, y) > 0.0
  {
  }

  lemma {:induction false} PositiveMul(x: real, y: real)
    requires x > 0.0 && y > 0.0
    ensures x * y > 0.0
  {
  }

  lemma {:induction false} PositivePow(b: nat, e: nat)
    requires b > 0
    ensures Pow(b, e) > 0
  {
    if e > 0 { PositivePow(b, e - 1); }
  }

  /** A double with a 53-bit significand. */
  predicate Double(x: real, m: nat, q: int) {
    4503599627370496 <= m < 9007199254740992 && x == Mul(m as real, TwoTo(q))
  }

  /** `d(t)`: the exponent, by twelves and then by ones. */
  method Log2(t: real) returns (n: nat)
    requires t > 0.0
    ensures t < 1.0 ==> n == 0
    ensures t >= 1.0 ==> Pow(2, n) as real <= t < 2.0 * Pow(2, n) as real
  {
    hide Pow, Mul;
    var e := t;
    n := 0;
    NoPower(t);
    while e >= 4096.0
      invariant e > 0.0 && Mul(e, Pow(2, n) as real) == t && (t < 1.0 ==> n == 0 && e == t) && (t >= 1.0 ==> e >= 1.0)
      decreases e.Floor
    {
      MorePower(e, n, 12, 4096);
      Shrinks(e, 4096.0);
      n := n + 12;
      e := e / 4096.0;
    }
    while e >= 2.0
      invariant e > 0.0 && Mul(e, Pow(2, n) as real) == t && (t < 1.0 ==> n == 0 && e == t) && (t >= 1.0 ==> e >= 1.0)
      decreases e.Floor
    {
      MorePower(e, n, 1, 2);
      Shrinks(e, 2.0);
      n := n + 1;
      e := e / 2.0;
    }
    if t >= 1.0 {
      PositivePow(2, n);
      Bracket(e, Pow(2, n) as real);
    }
  }

  lemma {:induction false} NoPower(t: real)
    ensures Mul(t, Pow(2, 0) as real) == t
  {
  }

  lemma {:induction false} MorePower(e: real, n: nat, k: nat, p: nat)
    requires (k == 12 && p == 4096) || (k == 1 && p == 2)
    ensures Mul(e / p as real, Pow(2, n + k) as real) == Mul(e, Pow(2, n) as real)
  {
    hide Pow;
    PowSum(2, n, k);
    SomePowers();
    Regrouped(e, Pow(2, n), p);
  }

  lemma {:induction false} SomePowers()
    ensures Pow(2, 0) == 1 && Pow(2, 1) == 2 && Pow(2, 12) == 4096
  {
    assert Pow(2, 4) == 16;
    assert Pow(2, 8) == 256;
  }

  lemma {:induction false} Regrouped(e: real, a: nat, p: nat)
    requires p > 0
    ensures Mul(e / p as real, (a * p) as real) == Mul(e, a as real)
  {
    var y, b, c := e / p as real, a as real, p as real;
    assert (a * p) as real == b * c;
    assert y * c == e;
    assert y * (b * c) == (y * c) * b;
  }

  lemma {:induction false} Shrinks(e: real, p: real)
    requires p >= 2.0 && e >= p
    ensures e / p >= 1.0 && (e / p).Floor < e.Floor
  {
    var y := e / p;
    assert y * p == e;
    AtLeastOne(y, p, e);
    Scale(y, 2.0, p);
    Below(y, e);
  }

  lemma {:induction false} AtLeastOne(y: real, p: real, e: real)
    requires p > 0.0 && y * p == e && e >= p
    ensures y >= 1.0
  {
    assert (1.0 - y) * p == p - e;
    SignOf(1.0 - y, p);
  }

  lemma {:induction false} SignOf(a: real, p: real)
    requires p > 0.0 && a * p <= 0.0
    ensures a <= 0.0
  {
  }

  lemma {:induction false} Below(y: real, e: real)
    requires y >= 1.0 && y * 2.0 <= e
    ensures y.Floor < e.Floor
  {
  }

  lemma {:induction false} Bracket(e: real, p: real)
    requires 1.0 <= e < 2.0 && p > 0.0
    ensures p <= Mul(e, p) < 2.0 * p
  {
    assert (e - 1.0) * p >= 0.0;
    assert (2.0 - e) * p > 0.0;
  }

  // --------------------------------------------------------------------------------- the digits

  lemma {:induction false} Constants()
    ensures TwoTo(52) == 4503599627370496.0 && TwoTo(53) == EXACT && TwoTo(70) > HUGE && TwoTo(0) == 1.0
  {
    hide TwoTo, Pow;
    TwoToPow(52);
    TwoToPow(53);
    TwoToPow(70);
    TwoToPow(0);
    NoPower(1.0);
    Ladder();
  }

  lemma {:induction false} Ladder()
    ensures Pow(2, 0) == 1 && Pow(2, 52) == 4503599627370496 && Pow(2, 53) == 9007199254740992
    ensures Pow(2, 70) == 1180591620717411303424
  {
    hide Pow;
    SomePowers();
    PowSum(2, 12, 1);
    PowSum(2, 13, 13);
    PowSum(2, 26, 26);
    assert Pow(2, 52) == 67108864 * 67108864;
    PowSum(2, 52, 1);
    PowSum(2, 1, 1);
    PowSum(2, 2, 2);
    PowSum(2, 4, 12);
    PowSum(2, 1, 16);
    PowSum(2, 53, 17);
    assert Pow(2, 70) == 9007199254740992 * 131072;
  }

  /** The exponent that `Log2` found for x scaled by 2 to the 69th. */
  lemma {:induction false} Exponent(x: real, log: nat)
    requires x > 0.0
    requires var t := Mul(x, TwoTo(69)); (t < 1.0 ==> log == 0) && (t >= 1.0 ==> TwoTo(log) <= t < 2.0 * TwoTo(log))
    ensures log > 0 || Mul(x, TwoTo(69)) >= 1.0 ==> TwoTo(log - 69) <= x
    ensures x < TwoTo(log - 68)
  {
    hide Mul, TwoTo;
    var t := Mul(x, TwoTo(69));
    TwoToPositive(-69);
    TwoToSum(69, -69);
    TwoToSum(log, -69);
    TwoToSum(log + 1, -69);
    TwoToNext(log);
    Constants();
    MulAssoc(x, TwoTo(69), TwoTo(-69));
    MulOne(x);
    MulAssoc(t, TwoTo(-69), 1.0);
    MulAssoc(TwoTo(log), TwoTo(-69), 1.0);
    MulAssoc(TwoTo(log + 1), TwoTo(-69), 1.0);
    MulGrows(TwoTo(-69), TwoTo(log), t);
    MulGrows(TwoTo(-69), t, TwoTo(log + 1));
  }

  lemma {:induction false} MulOne(x: real)
    ensures Mul(x, 1.0) == x
  {
  }

  /** The significand of a double, found from its exponent. */
  lemma {:induction false} Whole53(x: real, m: nat, q: int, k: int)
    requires Double(x, m, q) && TwoTo(k) <= x < TwoTo(k + 1)
    ensures k == q + 52 && Mul(x, TwoTo(52 - k)) == m as real
  {
    hide Mul, TwoTo;
    Constants();
    TwoToPositive(q);
    TwoToSum(q, 52);
    TwoToSum(q, 53);
    MulAssoc(m as real, TwoTo(q), TwoTo(52 - k));
    MulGrows(TwoTo(q), TwoTo(52), m as real);
    MulGrows(TwoTo(q), m as real, TwoTo(53));
    if k < q + 52 { TwoToGrows(k + 1, q + 52); }
    if k > q + 52 { TwoToGrows(q + 53, k); }
    TwoToSum(q, 52 - k);
    MulOne(m as real);
  }

  /** What `Significand` computes, from the exponent k. */
  lemma {:induction false} SignificandFacts(x: real, m: nat, q: int, k: int, e: real)
    requires TINY < x < HUGE && Double(x, m, q) && k >= -69 && x < TwoTo(k + 1) && (k > -69 ==> TwoTo(k) <= x)
    requires e == Mul(x, TwoTo(52 - k))
    ensures -17 <= 52 - k && 0.0 <= e < EXACT && (k >= 52 ==> IsInt(e)) && Mul(e, TwoTo(k - 52)) == x
  {
    hide Mul, TwoTo;
    Constants();
    if k >= 70 { TwoToGrows(70, k); }
    TwoToPositive(52 - k);
    TwoToSum(k + 1, 52 - k);
    MulGrows(TwoTo(52 - k), x, TwoTo(k + 1));
    MulGrows(TwoTo(52 - k), 0.0, x);
    MulAssoc(x, TwoTo(52 - k), TwoTo(k - 52));
    MulAssoc(TwoTo(k + 1), TwoTo(52 - k), 1.0);
    MulZero(TwoTo(52 - k));
    TwoToSum(52 - k, k - 52);
    MulOne(x);
    if k >= 52 { Whole53(x, m, q, k); }
  }

  lemma {:induction false} MulZero(x: real)
    ensures Mul(x, 0.0) == 0.0
  {
  }

  /** The exponent of a number below one as well: scaled up by 2 to the 69th first. */
  method FloorLog(x: real) returns (k: int)
    requires x > 0.0
    ensures k >= -69 && x < TwoTo(k + 1) && (k > -69 ==> TwoTo(k) <= x)
  {
    hide Mul, TwoTo, FastPower, Pow;
    var t := x * FastPower(2, 69, 1) as real;
    PowerIs(69, x);
    ScaledUp(x);
    var log := Log2(t);
    TwoToPow(log);
    Exponent(x, log);
    k := log as int - 69;
  }

  lemma {:induction false} ScaledUp(x: real)
    requires x > 0.0
    ensures Mul(x, TwoTo(69)) > 0.0
  {
    hide Mul, TwoTo;
    TwoToPositive(69);
    MulGrows(x, 0.0, TwoTo(69));
    MulZero(x);
  }

  /** Scales x so that its significand is below 2 to the 53rd: x is e over 2 to the n-th.  For a
    * normal exponent e is whole; below 2 to the -69th a half may be left. */
  method Significand(x: real, ghost m: nat, ghost q: int) returns (n: int, e: real)
    requires TINY < x < HUGE && Double(x, m, q)
    ensures -17 <= n <= 121 && 0.0 <= e < EXACT && Mul(e, TwoTo(-n)) == x && (n <= 0 ==> IsInt(e))
  {
    hide Mul, TwoTo, Double, IsInt, FastPower;
    var k := FloorLog(x);
    e := Shift(x, k);
    PowerIs(52, e);
    Constants();
    e := e * 4503599627370496.0;
    ShiftSum(x, k);
    SignificandFacts(x, m, q, k, e);
    n := 52 - k;
  }

  lemma {:induction false} PowerIs(n: nat, x: real)
    ensures FastPower(2, n, 1) as real == TwoTo(n) && x * FastPower(2, n, 1) as real == Mul(x, TwoTo(n))
    ensures x * TwoTo(n) == Mul(x, TwoTo(n))
  {
    hide FastPower, Pow, TwoTo;
    TwoToPow(n);
  }

  /** The significand: times a power of two for a negative exponent, over one otherwise. */
  function Shift(x: real, k: int): (e: real)
    ensures e == Mul(x, TwoTo(-k))
  {
    hide TwoTo, Mul, FastPower, Pow;
    TwoToPositive(k);
    if k < 0 then
      PowerIs(-k, x);
      x * FastPower(2, -k, 1) as real
    else
      PowerIs(k, x);
      ShiftDown(x, k);
      x / FastPower(2, k, 1) as real
  }

  lemma {:induction false} ShiftDown(x: real, k: int)
    requires k >= 0 && TwoTo(k) > 0.0 && FastPower(2, k, 1) as real == TwoTo(k)
    ensures x / FastPower(2, k, 1) as real == Mul(x, TwoTo(-k))
  {
    hide TwoTo, Mul;
    TwoToSum(-k, k);
    Constants();
    MulAssoc(x, TwoTo(-k), TwoTo(k));
    MulOne(x);
    QuotientIs(x, TwoTo(k), Mul(x, TwoTo(-k)));
  }

  lemma {:induction false} QuotientIs(x: real, d: real, y: real)
    requires d > 0.0 && Mul(y, d) == x
    ensures x / d == y
  {
  }

  lemma {:induction false} ShiftSum(x: real, k: int)
    ensures Mul(Mul(x, TwoTo(-k)), TwoTo(52)) == Mul(x, TwoTo(52 - k))
  {
    hide TwoTo, Mul;
    MulAssoc(x, TwoTo(-k), TwoTo(52));
    TwoToSum(-k, 52);
  }

  // ------------------------------------------------------------------------------- the digits

  const SIX_LIMBS: real := 1000000000000000000000000000000000000000000.0

  lemma {:induction false} SixLimbs()
    ensures Power(BASE, 6) == SIX_LIMBS
  {
    assert Power(BASE, 2) == BASE * BASE;
    assert Power(BASE, 4) == BASE * BASE * (BASE * BASE);
  }

  /** Twenty decimal places keep a significand far below the bound of the six limbs. */
  lemma {:induction false} Roomy(e: real, f: nat)
    requires 0.0 <= e < EXACT && f <= 20
    ensures 0.0 <= Mul(e, Pow(10, f) as real) <= 900719925474099200000000000000000000.0
  {
    hide Pow;
    TenUpTo(f);
    Products(e, Pow(10, f) as real, EXACT, 100000000000000000000.0);
  }

  lemma {:induction false} TenUpTo(f: nat)
    requires f <= 20
    ensures 1 <= Pow(10, f) <= 100000000000000000000
  {
    hide Pow;
    PowSum(10, f, 20 - f);
    PositivePow(10, f);
    PositivePow(10, 20 - f);
    TenToTheTwentieth();
    ProductAtLeast(Pow(10, f), Pow(10, 20 - f));
  }

  lemma {:induction false} ProductAtLeast(a: nat, b: nat)
    requires b > 0
    ensures a <= a * b
  {
  }

  lemma {:induction false} TenToTheTwentieth()
    ensures Pow(10, 20) == 100000000000000000000 && Pow(10, 7) == 10000000 && Pow(10, 0) == 1
  {
    SevenZeros();
    assert Pow(10, 3) == 1000;
    hide Pow;
    PowSum(10, 7, 7);
    PowSum(10, 3, 3);
    PowSum(10, 14, 6);
  }

  /** Seven more places at a time. */
  lemma {:induction false} SevenMore(v: real, r: nat, y: real)
    requires r >= 7 && v >= 0.0 && Mul(v, Pow(10, r) as real) == y
    ensures BASE * v == 10000000.0 * v <= y && Mul(BASE * v, Pow(10, r - 7) as real) == y
  {
    hide Pow;
    PowSum(10, 7, r - 7);
    TenToTheTwentieth();
    PositivePow(10, r - 7);
    var p := Pow(10, r - 7) as real;
    assert (10000000 * Pow(10, r - 7)) as real == BASE * p;
    Regroup7(v, p);
    Scale(BASE * v, 1.0, p);
  }

  lemma {:induction false} Regroup7(v: real, p: real)
    ensures Mul(v, BASE * p) == Mul(BASE * v, p)
  {
  }

  lemma {:induction false} LastPlaces(r: nat)
    requires r < 7
    ensures FastPower(10, r, 1) == Pow(10, r) <= 10000000
  {
    hide Pow, FastPower;
    PowSum(10, r, 7 - r);
    PositivePow(10, 7 - r);
    TenToTheTwentieth();
    ProductAtLeast(Pow(10, r), Pow(10, 7 - r));
  }

  /** Loads the number and multiplies it by 10 to the f-th, seven decimal places at a time and then
    * by what remains. */
  method ScaleUp(s: array<real>, e: real, f: nat)
    requires s.Length == 6 && Proper(s[..]) && 0.0 <= e < EXACT && f <= 20
    modifies s
    ensures Proper(s[..]) && Value(s[..]) == Mul(e, Pow(10, f) as real)
  {
    hide Proper, Value, Mul, Pow, FastPower, Power;
    SixLimbs();
    Roomy(e, f);
    MultiplyAdd(s, 0, e);
    NoTimes(Value(old(s[..])));
    var r := f;
    ghost var y := Mul(e, Pow(10, f) as real);
    while r >= 7
      invariant 0 <= r <= f && s.Length == 6 && Proper(s[..]) && Mul(Value(s[..]), Pow(10, r) as real) == y
    {
      ProperValue(s[..]);
      SevenMore(Value(s[..]), r, y);
      MultiplyAdd(s, 10000000, 0.0);
      r := r - 7;
    }
    LastPlaces(r);
    TimesIs(FastPower(10, r, 1), Value(s[..]));
    MultiplyAdd(s, FastPower(10, r, 1), 0.0);
  }

  lemma {:induction false} NoTimes(v: real)
    ensures 0.0 * v == 0.0
  {
  }

  lemma {:induction false} TimesIs(t: nat, v: real)
    ensures t as real * v == Mul(v, t as real)
  {
  }

  lemma {:induction false} ProperValue(s: seq<real>)
    requires Proper(s)
    ensures 0.0 <= Value(s)
  {
    ValueNonNegative(s);
  }

  /** Dividing twice and rounding down twice is dividing by the product and rounding down once. */
  lemma {:induction false} FloorFloor(v: real, a: real, b: nat)
    requires v >= 0.0 && a > 0.0 && b > 0
    ensures ((v / a).Floor as real / b as real).Floor == (v / Mul(a, b as real)).Floor
  {
    var y := v / a;
    var k := (y.Floor as real / b as real).Floor;
    hide Mul;
    FloorBounds(y);
    FloorBounds(y.Floor as real / b as real);
    WholeSteps(y, b, k);
    QuotientTwice(v, a, b as real);
    QuotientBetween(y, b as real, k);
    FloorIs(y / b as real, k);
  }

  lemma {:induction false} FloorBounds(y: real)
    ensures y.Floor as real <= y < y.Floor as real + 1.0
  {
  }

  lemma {:induction false} WholeSteps(y: real, b: nat, k: int)
    requires b > 0 && k == (y.Floor as real / b as real).Floor
    ensures Mul(b as real, k as real) <= y < Mul(b as real, k as real + 1.0)
  {
    hide Mul;
    var w, c := y.Floor, b as real;
    var u := w as real / c;
    ExactQuotient(w as real, c);
    FloorBounds(u);
    MulGrows(c, k as real, u);
    MulGrows(c, u, k as real + 1.0);
    MulInts(b, k + 1);
    NextInt(w, b * (k + 1));
    FloorBounds(y);
  }

  lemma {:induction false} ExactQuotient(w: real, c: real)
    requires c > 0.0
    ensures Mul(c, w / c) == w
  {
  }

  lemma {:induction false} MulInts(a: int, b: int)
    ensures Mul(a as real, b as real) == (a * b) as real && Mul(a as real, (b - 1) as real + 1.0) == (a * b) as real
  {
  }

  lemma {:induction false} NextInt(a: int, b: int)
    ensures a as real < b as real ==> a as real + 1.0 <= b as real
  {
    if a < b { assert (a + 1) as real == a as real + 1.0; }
  }

  lemma {:induction false} QuotientTwice(v: real, a: real, b: real)
    requires a > 0.0 && b > 0.0
    ensures Mul(a, b) > 0.0 && v / Mul(a, b) == v / a / b
  {
    PositiveMul(a, b);
    var y := v / a;
    var u := y / b;
    assert u * b == y && y * a == v;
    assert u * (a * b) == u * b * a;
  }

  lemma {:induction false} QuotientBetween(y: real, b: real, k: int)
    requires b > 0.0 && Mul(b, k as real) <= y < Mul(b, k as real + 1.0)
    ensures k as real <= y / b < k as real + 1.0
  {
    var u := y / b;
    assert u * b == y;
    assert b * (u - k as real) == y - b * k as real;
    assert b * (k as real + 1.0 - u) == b * (k as real + 1.0) - y;
    SignOf(k as real - u, b);
    NotNegative(k as real + 1.0 - u, b);
  }

  lemma {:induction false} NotNegative(a: real, p: real)
    requires p > 0.0 && p * a > 0.0
    ensures a > 0.0
  {
  }

  /** What is left to divide by, and that the outcome is fixed. */
  ghost predicate Halving(v: real, r: nat, w: int)
  {
    v >= 0.0 && (v / PowPositive(2, r) as real).Floor == w
  }

  function PowPositive(b: nat, e: nat): (p: nat)
    requires b > 0
    ensures p > 0 && p == Pow(b, e)
  {
    PositivePow(b, e);
    Pow(b, e)
  }

  lemma {:induction false} HalvingStep(v: real, r: nat, w: int, t: nat)
    requires r >= 23 && Halving(v, r, w) && t == 8388608
    ensures Halving((v / t as real).Floor as real, r - 23, w)
  {
    hide Mul, Pow;
    PowSum(2, 23, r - 23);
    TwentyThree();
    var b := PowPositive(2, r - 23);
    FloorFloor(v, t as real, b);
    TimesWhole(t, b);
    FloorNotNegative(v / t as real);
  }

  lemma {:induction false} FloorNotNegative(y: real)
    requires y >= 0.0
    ensures y.Floor as real >= 0.0
  {
  }

  lemma {:induction false} TimesWhole(a: nat, b: nat)
    ensures Mul(a as real, b as real) == (a * b) as real
  {
  }

  lemma {:induction false} TwentyThree()
    ensures Pow(2, 23) == 8388608
  {
    hide Pow;
    SomePowers();
    PowSum(2, 1, 1);
    PowSum(2, 2, 2);
    PowSum(2, 4, 4);
    PowSum(2, 8, 2);
    PowSum(2, 10, 1);
    PowSum(2, 11, 12);
  }

  lemma {:induction false} ShiftInRange(r: nat)
    requires r < 23
    ensures 0 < PowPositive(2, r) <= 8388608
  {
    hide Pow;
    PowSum(2, r, 23 - r);
    PositivePow(2, 23 - r);
    TwentyThree();
    ProductAtLeast(Pow(2, r), Pow(2, 23 - r));
  }

  /** Divides by 2 to the (n - 1)-th, twenty-three bits at a time and then by what remains. */
  method ScaleDown(s: array<real>, n: nat)
    requires s.Length == 6 && Proper(s[..])
    modifies s
    ensures Proper(s[..]) && Whole(s[..])
    ensures Value(s[..]) == (Value(old(s[..])) / PowPositive(2, n) as real).Floor as real
  {
    hide Proper, Value, Pow, PowPositive, Whole, Halving;
    var r := n;
    ProperValue(s[..]);
    ghost var w := (Value(s[..]) / PowPositive(2, n) as real).Floor;
    HalvingIs(Value(s[..]), n);
    while r >= 23
      invariant 0 <= r <= n && s.Length == 6 && Proper(s[..]) && Halving(Value(s[..]), r, w)
    {
      HalvingStep(Value(s[..]), r, w, 8388608);
      Divide(s, 8388608);
      r := r - 23;
    }
    HalvingIs(Value(s[..]), r);
    ShiftInRange(r);
    Divide(s, PowPositive(2, r));
  }

  lemma {:induction false} HalvingIs(v: real, r: nat)
    ensures v >= 0.0 ==> Halving(v, r, (v / PowPositive(2, r) as real).Floor)
    ensures forall w :: Halving(v, r, w) ==> w == (v / PowPositive(2, r) as real).Floor
  {
  }

  // ------------------------------------------------------------------------------- rounding

  /** Doubling, rounding down, adding one and halving is rounding half up. */
  lemma {:induction false} HalfUp(z: real)
    requires z >= 0.0
    ensures (((2.0 * z).Floor as real + 1.0) / 2.0).Floor == Nearest(z)
  {
    var a, n := (2.0 * z).Floor, Nearest(z);
    FloorBounds(2.0 * z);
    FloorBounds(z + 0.5);
    Between(a, n, z);
    FloorIs((a as real + 1.0) / 2.0, n);
  }

  lemma {:induction false} Between(a: int, n: int, z: real)
    requires a as real <= 2.0 * z < a as real + 1.0 && n as real <= z + 0.5 < n as real + 1.0
    ensures 2 * n - 1 <= a <= 2 * n
  {
    assert (2 * n - 1) as real < (a + 1) as real;
    assert a as real < (2 * n + 1) as real;
  }

  /** The last two steps: one is added, and the sum is halved. */
  method RoundHalf(s: array<real>)
    requires s.Length == 6 && Proper(s[..]) && Whole(s[..]) && Value(s[..]) + 1.0 < SIX_LIMBS
    modifies s
    ensures Proper(s[..]) && Whole(s[..])
    ensures Value(s[..]) == ((Value(old(s[..])) + 1.0) / 2.0).Floor as real
  {
    hide Proper, Value, Whole, Power;
    SixLimbs();
    MultiplyAdd(s, 1, 1.0);
    Divide(s, 2);
  }

  /** The rounding of e times 10 to the f-th over 2 to the n-th, for n > 0. */
  method SmallDigits(s: array<real>, e: real, n: nat, f: nat) returns (y: string)
    requires s.Length == 6 && Proper(s[..]) && 0.0 <= e < EXACT && f <= 20 && n > 0
    modifies s
    ensures Proper(s[..])
    ensures Rounded(e, n, f) >= 0 && y == Decimal(Rounded(e, n, f))
  {
    hide Proper, Value, Whole, Mul, Pow, PowPositive, Decimal, WholeValue, Rounded;
    ghost var p := Mul(e, Pow(10, f) as real);
    Roomy(e, f);
    ScaleUp(s, e, f);
    ScaleDown(s, n - 1);
    Shrunk(p, n - 1);
    RoundHalf(s);
    y := Print(s);
    RoundedIs(e, n, f);
    ProperWhole(s[..]);
  }

  lemma {:induction false} ProperWhole(s: seq<real>)
    requires Proper(s) && Whole(s)
    ensures Ranged(s) && WholeValue(s) as real == Value(s)
  {
    WholeValueIs(s);
  }

  ghost function Rounded(e: real, n: nat, f: nat): int {
    Nearest(Mul(e, Pow(10, f) as real) / PowPositive(2, n) as real)
  }

  lemma {:induction false} Shrunk(p: real, k: nat)
    requires 0.0 <= p <= 900719925474099200000000000000000000.0
    ensures (p / PowPositive(2, k) as real).Floor as real + 1.0 < SIX_LIMBS
  {
    hide PowPositive;
    var d := PowPositive(2, k) as real;
    var u := p / d;
    assert u * d == p;
    Scale(u, 1.0, d);
    FloorBounds(u);
  }

  lemma {:induction false} RoundedIs(e: real, n: nat, f: nat)
    requires n > 0 && Mul(e, Pow(10, f) as real) >= 0.0
    ensures var p := Mul(e, Pow(10, f) as real);
            (((p / PowPositive(2, n - 1) as real).Floor as real + 1.0) / 2.0).Floor == Rounded(e, n, f)
    ensures Rounded(e, n, f) >= 0
  {
    hide Mul, PowPositive, Nearest;
    var p := Mul(e, Pow(10, f) as real);
    var d := PowPositive(2, n - 1) as real;
    NextTwo(n);
    Doubled(p, d);
    HalfUp(p / (2.0 * d));
    NearestNonNegative(p / (2.0 * d));
  }

  lemma {:induction false} NextTwo(n: nat)
    requires n > 0
    ensures PowPositive(2, n) == 2 * PowPositive(2, n - 1)
  {
  }

  lemma {:induction false} Doubled(p: real, d: real)
    requires d > 0.0 && p >= 0.0
    ensures 2.0 * (p / (2.0 * d)) == p / d && p / (2.0 * d) >= 0.0
  {
    var u := p / (2.0 * d);
    assert u * (2.0 * d) == p;
    assert 2.0 * u * d == p;
  }

  // --------------------------------------------------------------------- large numbers are whole

  lemma {:induction false} Shift17(k: nat)
    requires k <= 17
    ensures 0 < PowPositive(2, k) <= 131072
  {
    hide Pow;
    PowSum(2, k, 17 - k);
    PositivePow(2, 17 - k);
    SomePowers();
    PowSum(2, 1, 1);
    PowSum(2, 2, 2);
    PowSum(2, 4, 12);
    PowSum(2, 1, 16);
    ProductAtLeast(Pow(2, k), Pow(2, 17 - k));
  }

  /** The branch without fractional bits: the number times its power of two, and zeros for the decimal
    * places. */
  method LargeDigits(s: array<real>, e: real, k: nat, f: nat) returns (y: string)
    requires s.Length == 6 && Proper(s[..]) && 0.0 < e < EXACT && IsInt(e) && k <= 17 && f <= 20
    modifies s
    ensures Proper(s[..])
    ensures y == Decimal(e.Floor * PowPositive(2, k) * Pow(10, f))
  {
    hide Proper, Value, Whole, Pow, PowPositive, Decimal, WholeValue, Zeros, Power;
    SixLimbs();
    Shift17(k);
    MultiplyAdd(s, 0, e);
    NoTimes(Value(old(s[..])));
    NotTooLarge(PowPositive(2, k), e);
    MultiplyAdd(s, PowPositive(2, k), 0.0);
    ProperWhole(s[..]);
    WholeTimes(PowPositive(2, k), e, WholeValue(s[..]));
    y := Print(s);
    TrailingZeros(WholeValue(s[..]), f);
    y := y + Zeros(f);
  }

  lemma {:induction false} NotTooLarge(t: nat, e: real)
    requires t <= 131072 && 0.0 <= e < EXACT
    ensures 0.0 <= t as real * e + 0.0 < SIX_LIMBS
  {
    Products(t as real, e, 131072.0, EXACT);
  }

  lemma {:induction false} WholeTimes(t: nat, e: real, w: nat)
    requires IsInt(e) && w as real == t as real * e + 0.0 && t > 0 && e > 0.0
    ensures w == e.Floor * t && w > 0
  {
    assert t as real * e == (t * e.Floor) as real;
    assert e.Floor >= 1;
    ProductAtLeast(t, e.Floor);
  }

  lemma {:induction false} TrailingZeros(w: nat, f: nat)
    requires w > 0
    ensures Decimal(w) + Zeros(f) == Decimal(w * Pow(10, f))
  {
    hide Decimal;
    if f == 0 {
      assert Pow(10, 0) == 1;
    } else {
      PositivePow(10, f);
      DecimalSplit(w, 0, f);
      ZeroPadded(f);
    }
  }

  lemma {:induction false} ZeroPadded(f: nat)
    requires f > 0
    ensures |Decimal(0)| <= f && Padded(0, f) == Zeros(f)
  {
    ZerosSnoc(f - 1);
  }

  // ------------------------------------------------------------------------------- the whole

  /** Below the threshold nothing is left of twenty decimal places. */
  lemma {:induction false} TinyIsZero(x: real, f: nat)
    requires 0.0 <= x <= TINY && f <= 20
    ensures Nearest(Mul(x, Pow(10, f) as real)) == 0
  {
    hide Pow;
    TenUpTo(f);
    Products(x, Pow(10, f) as real, TINY, 100000000000000000000.0);
  }

  lemma {:induction false} SmallIsStandard(x: real, e: real, n: int, f: nat)
    requires n > 0 && Mul(e, TwoTo(-n)) == x && e >= 0.0
    ensures Rounded(e, n, f) == Nearest(Mul(x, Pow(10, f) as real))
  {
    hide Mul, TwoTo, Pow, Nearest, PowPositive;
    var d, t := PowPositive(2, n) as real, Pow(10, f) as real;
    PowerOfTwo(n);
    MulAssoc(e, TwoTo(-n), t);
    MulAssoc(TwoTo(-n), t, 1.0);
    MulAssoc(e, t, TwoTo(-n));
    TwoToSum(-n, n);
    Constants();
    MulAssoc(Mul(e, t), TwoTo(-n), d);
    MulOne(Mul(e, t));
    QuotientIs(Mul(e, t), d, Mul(Mul(e, t), TwoTo(-n)));
  }

  lemma {:induction false} PowerOfTwo(n: nat)
    ensures PowPositive(2, n) as real == TwoTo(n)
  {
    TwoToPow(n);
  }

  lemma {:induction false} LargeIsStandard(x: real, e: real, k: nat, f: nat)
    requires IsInt(e) && e > 0.0 && Mul(e, TwoTo(k)) == x
    ensures e.Floor * PowPositive(2, k) * Pow(10, f) == Nearest(Mul(x, Pow(10, f) as real)) && e.Floor > 0
  {
    hide TwoTo, Pow, PowPositive, Nearest, Mul;
    PowerOfTwo(k);
    var w, p, t := e.Floor, PowPositive(2, k), Pow(10, f);
    WholeProducts(e, w, p, t);
    NearestWhole(w * p * t);
  }

  lemma {:induction false} WholeProducts(e: real, w: int, p: nat, t: nat)
    requires e == w as real && e > 0.0
    ensures w > 0 && Mul(Mul(e, p as real), t as real) == (w * p * t) as real
  {
    assert (w * p) as real == w as real * p as real;
    assert (w * p * t) as real == (w * p) as real * t as real;
  }

  lemma {:induction false} NearestWhole(w: int)
    ensures Nearest(w as real) == w
  {
  }

  /** The digits of a number of at least 10 to the -21st. */
  method Digits(s: array<real>, x: real, f: nat, ghost m: nat, ghost q: int) returns (y: string)
    requires s.Length == 6 && Proper(s[..]) && TINY < x < HUGE && Double(x, m, q) && f <= 20
    modifies s
    ensures Proper(s[..]) && Nearest(Mul(x, Pow(10, f) as real)) >= 0
    ensures y == Decimal(Nearest(Mul(x, Pow(10, f) as real)))
  {
    hide Proper, Mul, Pow, PowPositive, Decimal, Rounded, TwoTo, Nearest, Double, IsInt;
    ScaledNearest(x, f);
    var n, e := Significand(x, m, q);
    if n > 0 {
      y := SmallDigits(s, e, n, f);
      SmallIsStandard(x, e, n, f);
    } else {
      NotZero(e, TwoTo(-n), x);
      LargeIsStandard(x, e, -n, f);
      y := LargeDigits(s, e, -n, f);
    }
  }

  lemma {:induction false} NotZero(e: real, t: real, x: real)
    requires e >= 0.0 && Mul(e, t) == x && x > 0.0
    ensures e > 0.0
  {
  }

  lemma {:induction false} OneZeroMore(k: nat)
    ensures Zeros(k + 1) == "0" + Zeros(k)
  {
  }

  /** The point is put in as the standard says. */
  lemma {:induction false} PointIn(n: nat, f: nat)
    ensures var y := Decimal(n);
            Format(n, f) == if f == 0 then y
                            else if |y| <= f then "0." + Zeros(f - |y|) + y
                            else y[..|y| - f] + "." + y[|y| - f..]
  {
    hide Decimal, Zeros;
    var y := Decimal(n);
    if f > 0 && |y| <= f {
      var m := Zeros(f + 1 - |y|) + y;
      OneZeroMore(f - |y|);
      assert m[..1] == "0" && m[1..] == Zeros(f - |y|) + y;
      assert |m| - f == 1;
    }
  }

  /** `toFixed`.  The double is given with its significand and exponent; the limbs keep what an
    * earlier call left in them. */
  method ToFixed(s: array<real>, a: Num, digits: int, ghost m: nat, ghost q: int) returns (r: Answer)
    requires s.Length == 6 && Proper(s[..])
    requires a.Finite? && TINY < Abs(a.x) < HUGE ==> Double(Abs(a.x), m, q)
    modifies s
    ensures Proper(s[..])
    ensures !(0 <= digits <= 20) ==> r == RangeError
    ensures 0 <= digits <= 20 ==>
      r == match a
           case NaN => Text("NaN")
           case Infinite(_) => HostString
           case Finite(x) => if Abs(x) >= 1000000000000000000000.0 then HostString else Text(Standard(x, digits))
  {
    hide Proper, Mul, Pow, Decimal, Nearest, Double, Format, Zeros;
    if digits < 0 || digits > 20 { return RangeError; }
    if a.NaN? { return Text("NaN"); }
    if a.Infinite? || a.x <= -HUGE || a.x >= HUGE { return HostString; }
    var x, g := a.x, "";
    if x < 0.0 {
      g := "-";
      x := -x;
    }
    var f: nat := digits;
    var y := "0";
    ScaledNearest(x, f);
    ghost var n: nat := Nearest(Mul(x, Pow(10, f) as real));
    if x > TINY {
      y := Digits(s, x, f, m, q);
    } else {
      TinyIsZero(x, f);
      ZeroText();
    }
    PointIn(n, f);
    if f > 0 {
      var c := |y|;
      y := g + (if c <= f then "0." + Zeros(f - c) + y else y[..c - f] + "." + y[c - f..]);
    } else {
      y := g + y;
    }
    return Text(y);
  }

  lemma {:induction false} ZeroText()
    ensures Decimal(0) == "0"
  {
  }
}
