/** Decimal notation of whole numbers, and the helpers of `toFixed` that make and scale it. */
module Decimals {
  import opened Limbs

  function Digit(d: nat): char
    requires d < 10
  {
    "0123456789"[d]
  }

  /** `String(n)` of a whole number. */
  function Decimal(n: nat): (s: string)
    ensures s != ""
  {
    if n < 10 then [Digit(n)] else Decimal(n / 10) + [Digit(n % 10)]
  }

  function Zeros(k: nat): (s: string)
    ensures |s| == k
  {
    if k == 0 then "" else "0" + Zeros(k - 1)
  }

  function Pow(b: nat, e: nat): nat {
    if e == 0 then 1 else b * Pow(b, e - 1)
  }

  // ------------------------------------------------------------------- what the digits mean

  function DigitValue(c: char): nat {
    if '0' <= c <= '9' then c as int - '0' as int else 0
  }

  function Read(s: string): nat {
    if s == "" then 0 else 10 * Read(s[..|s| - 1]) + DigitValue(s[|s| - 1])
  }

  /** The notation is the number's, and has no zero in front. */
  lemma {:induction false} DecimalReads(n: nat)
    ensures Read(Decimal(n)) == n && (n > 0 ==> Decimal(n)[0] != '0')
  {
    if n < 10 {
      assert Decimal(n)[..0] == "";
    } else {
      DecimalReads(n / 10);
      assert Decimal(n)[..|Decimal(n)| - 1] == Decimal(n / 10);
      assert Decimal(n)[0] == Decimal(n / 10)[0];
    }
  }

  // ---------------------------------------------------------------------------- limb by limb

  /** A limb below others is written with all its digits. */
  function Padded(lo: nat, k: nat): string
    requires |Decimal(lo)| <= k
  {
    Zeros(k - |Decimal(lo)|) + Decimal(lo)
  }

  lemma {:induction false} DecimalLength(lo: nat, k: nat)
    requires lo < Pow(10, k) && k > 0
    ensures |Decimal(lo)| <= k
    decreases k
  {
    assert Pow(10, 1) == 10;
    if lo >= 10 { DecimalLength(lo / 10, k - 1); }
  }

  lemma {:induction false} ZerosSnoc(k: nat)
    ensures Zeros(k + 1) == Zeros(k) + "0"
  {
    if k > 0 { ZerosSnoc(k - 1); }
  }

  /** `hi * 10^k + lo` is written as `hi` followed by `lo` in k digits. */
  lemma {:induction false} DecimalSplit(hi: nat, lo: nat, k: nat)
    requires hi > 0 && k > 0 && lo < Pow(10, k)
    ensures |Decimal(lo)| <= k && Decimal(hi * Pow(10, k) + lo) == Decimal(hi) + Padded(lo, k)
    decreases k
  {
    hide Decimal, Padded, Pow;
    DecimalLength(lo, k);
    var p, n := Pow(10, k - 1), hi * Pow(10, k) + lo;
    MorePlaces(k);
    TenTimes(hi, p, lo);
    LastDigit(n);
    if k == 1 {
      OneDigit(lo);
    } else {
      DecimalSplit(hi, lo / 10, k - 1);
      PaddedLast(lo, k);
    }
  }

  lemma {:induction false} MorePlaces(k: nat)
    requires k > 0
    ensures Pow(10, k) == 10 * Pow(10, k - 1) && Pow(10, k - 1) > 0 && (k == 1 ==> Pow(10, k - 1) == 1)
  {
    if k > 1 { MorePlaces(k - 1); }
  }

  lemma {:induction false} LastDigit(n: nat)
    requires n >= 10
    ensures Decimal(n) == Decimal(n / 10) + [Digit(n % 10)]
  {
  }

  lemma {:induction false} OneDigit(lo: nat)
    requires lo < 10
    ensures |Decimal(lo)| == 1 && Padded(lo, 1) == [Digit(lo)] && lo / 10 == 0
  {
  }

  lemma {:induction false} TenTimes(hi: nat, p: nat, lo: nat)
    requires hi > 0 && p > 0
    ensures hi * (10 * p) + lo >= 10 && (hi * (10 * p) + lo) / 10 == hi * p + lo / 10 && (hi * (10 * p) + lo) % 10 == lo % 10
  {
    var h := hi * p;
    assert hi * (10 * p) == 10 * h;
    assert h >= 1;
  }

  lemma {:induction false} PaddedLast(lo: nat, k: nat)
    requires k > 1 && |Decimal(lo)| <= k && |Decimal(lo / 10)| <= k - 1
    ensures Padded(lo, k) == Padded(lo / 10, k - 1) + [Digit(lo % 10)]
  {
    if lo < 10 {
      ZerosSnoc(k - 2);
      assert Decimal(lo / 10) == "0";
      assert Zeros(k - 2) + "0" == Zeros(k - 1);
    }
  }

  /** The limbs as a whole number. */
  function WholeValue(s: seq<real>): nat
    requires Ranged(s) && Whole(s)
  {
    if s == [] then 0 else s[0].Floor + 10000000 * WholeValue(s[1..])
  }

  lemma {:induction false} WholeValueIs(s: seq<real>)
    requires Ranged(s) && Whole(s)
    ensures WholeValue(s) as real == Value(s)
  {
    if s != [] { WholeValueIs(s[1..]); }
  }

  /** `p()`: the number the limbs stand for, in decimal. */
  method Print(s: array<real>) returns (y: string)
    requires s.Length == 6 && Proper(s[..]) && Whole(s[..])
    ensures y == Decimal(WholeValue(s[..]))
  {
    hide Decimal, WholeValue, Padded, Pow;
    var t := 6;
    y := "";
    NoLimbs();
    assert s[6..] == [];
    while t > 0
      invariant 0 <= t <= 6
      invariant Ranged(s[t..]) && Whole(s[t..])
      invariant y == "" <==> (t == 6 || (t > 0 && WholeValue(s[t..]) == 0))
      invariant y != "" ==> y == Decimal(WholeValue(s[t..]))
      invariant y != "" && t > 0 ==> WholeValue(s[t..]) > 0
      invariant y == "" ==> WholeValue(s[t..]) == 0
    {
      t := t - 1;
      assert s[..][t] == s[t];
      assert s[t..] == [s[t]] + s[t+1..];
      OneLimb(s[t], s[t+1..]);
      if y != "" || t == 0 || s[t] != 0.0 {
        var limb := s[t].Floor;
        var e := Decimal(limb);
        if y == "" {
          y := e;
        } else {
          LimbBelow(WholeValue(s[t+1..]), limb);
          y := y + Zeros(7 - |e|) + e;
        }
      }
    }
    assert s[0..] == s[..];
  }

  lemma {:induction false} NoLimbs()
    ensures WholeValue([]) == 0
  {
  }

  lemma {:induction false} OneLimb(x: real, s: seq<real>)
    requires IsLimb(x) && IsInt(x) && Ranged(s) && Whole(s)
    ensures Ranged([x] + s) && Whole([x] + s) && WholeValue([x] + s) == x.Floor + 10000000 * WholeValue(s)
    ensures x == 0.0 <==> x.Floor == 0
  {
    assert ([x] + s)[1..] == s;
  }

  lemma {:induction false} LimbBelow(hi: nat, limb: nat)
    requires hi > 0 && limb < 10000000
    ensures |Decimal(limb)| <= 7
    ensures Decimal(limb + 10000000 * hi) == Decimal(hi) + Zeros(7 - |Decimal(limb)|) + Decimal(limb)
  {
    hide Decimal, Pow;
    SevenZeros();
    DecimalSplit(hi, limb, 7);
    assert Decimal(hi) + Padded(limb, 7) == Decimal(hi) + Zeros(7 - |Decimal(limb)|) + Decimal(limb);
  }

  lemma {:induction false} SevenZeros()
    ensures Pow(10, 7) == 10000000
  {
    assert Pow(10, 2) == 100;
    assert Pow(10, 4) == 10000;
    assert Pow(10, 6) == 1000000;
  }

  // ----------------------------------------------------------------------- powers and logarithm

  lemma {:induction false} Squares(t: nat, p: nat)
    ensures t * t * (p * p) == t * p * (t * p)
  {
    assert t * p * (t * p) == t * (p * (t * p)) == t * (p * t * p);
    assert p * t * p == t * (p * p);
  }

  lemma {:induction false} PowProduct(t: nat, n: nat)
    ensures Pow(t * t, n) == Pow(t, n) * Pow(t, n)
  {
    if n > 0 {
      PowProduct(t, n - 1);
      Squares(t, Pow(t, n - 1));
    }
  }

  lemma {:induction false} PowSum(t: nat, a: nat, b: nat)
    ensures Pow(t, a + b) == Pow(t, a) * Pow(t, b)
  {
    if a > 0 {
      PowSum(t, a - 1, b);
      Regroup(t, Pow(t, a - 1), Pow(t, b));
    }
  }

  /** `v(t, n, e)`: repeated squaring. */
  function FastPower(t: nat, n: nat, e: nat): (r: nat)
    ensures r == e * Pow(t, n)
    decreases n
  {
    if n == 0 then e
    else if n % 2 == 1 then
      Regroup(e, t, Pow(t, n - 1));
      FastPower(t, n - 1, e * t)
    else
      PowProduct(t, n / 2);
      PowSum(t, n / 2, n / 2);
      FastPower(t * t, n / 2, e)
  }

  lemma {:induction false} Regroup(e: nat, t: nat, p: nat)
    ensures e * t * p == e * (t * p)
  {
  }
}
