/** Sequences without repetition, and taking an element out. */
module Sequences {

  /** No element occurs twice. */
  ghost predicate Distinct<T>(s: seq<T>) {
    s == [] || (s[0] !in s[1..] && Distinct(s[1..]))
  }

  lemma {:induction false} DistinctSnoc<T>(s: seq<T>, x: T)
    ensures Distinct(s + [x]) <==> Distinct(s) && x !in s
  {
    if s == [] {
      assert (s + [x])[1..] == [];
    } else {
      assert (s + [x])[1..] == s[1..] + [x];
      DistinctSnoc(s[1..], x);
    }
  }

  lemma {:induction false} DistinctConcat<T>(a: seq<T>, b: seq<T>)
    requires Distinct(a) && Distinct(b)
    requires forall x :: x in a ==> x !in b
    ensures Distinct(a + b)
  {
    if a == [] {
      assert a + b == b;
    } else {
      assert (a + b)[1..] == a[1..] + b;
      DistinctConcat(a[1..], b);
    }
  }

  /** Drops the first occurrence. */
  function Without<K(==)>(order: seq<K>, k: K): seq<K> {
    if order == [] then []
    else if order[0] == k then order[1..]
    else [order[0]] + Without(order[1..], k)
  }

  lemma {:induction false} WithoutAt<K>(order: seq<K>, i: nat)
    requires i < |order| && Distinct(order)
    ensures Without(order, order[i]) == order[..i] + order[i+1..]
  {
    if i > 0 {
      assert order[1..][i-1] == order[i];
      WithoutAt(order[1..], i - 1);
      assert order[1..][..i-1] == order[1..i] && order[1..][i..] == order[i+1..];
      assert [order[0]] + order[1..i] == order[..i];
    }
  }

  lemma {:induction false} WithoutAbsent<K>(order: seq<K>, k: K)
    requires k !in order
    ensures Without(order, k) == order
  {
    if order != [] {
      WithoutAbsent(order[1..], k);
    }
  }

  lemma {:induction false} WithoutContents<K>(order: seq<K>, k: K)
    requires Distinct(order)
    ensures Distinct(Without(order, k))
    ensures forall x :: x in Without(order, k) ==> x in order && x != k
    ensures forall x :: x in order && x != k ==> x in Without(order, k)
    ensures |Without(order, k)| == |order| - (if k in order then 1 else 0)
  {
    if order != [] {
      assert order == [order[0]] + order[1..];
      WithoutContents(order[1..], k);
      if order[0] == k {
        assert k !in order[1..];
      } else {
        var w := Without(order[1..], k);
        assert Without(order, k) == [order[0]] + w;
        assert order[0] !in order[1..];
      }
    }
  }

  lemma {:induction false} WithoutLength<K>(order: seq<K>, k: K)
    requires k in order
    ensures |Without(order, k)| == |order| - 1
  {
    if order[0] != k { WithoutLength(order[1..], k); }
  }
}
