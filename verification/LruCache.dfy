/** The bounded cache of `$cacheFactory`: a hash of entries that also form a doubly linked
  * list in order of use. */
module LruCache {
  import opened Expressions
  import opened Sequences

  // ------------------------------------------------------------------------ the simple form

  /** Keys from the stalest to the freshest, and their values. */
  datatype Lru<K, V> = Lru(order: seq<K>, data: map<K, V>)

  ghost predicate WellFormed<K, V>(c: Lru<K, V>, capacity: nat) {
    && Distinct(c.order)
    && (forall k :: k in c.data ==> k in c.order)
    && (forall k :: k in c.order ==> k in c.data)
    && |c.order| <= capacity
  }

  /** Drops the stalest key while there are too many. */
  function Evict<K(==), V>(c: Lru<K, V>, capacity: nat): Lru<K, V> {
    if |c.order| > capacity then Lru(c.order[1..], c.data - {c.order[0]}) else c
  }

  /** `put`; an undefined value is ignored. */
  function Put<K(==), V>(c: Lru<K, V>, capacity: nat, k: K, v: Option<V>): Lru<K, V> {
    match v
    case None => c
    case Some(value) => Evict(Lru(Without(c.order, k) + [k], c.data[k := value]), capacity)
  }

  function Get<K(==), V>(c: Lru<K, V>, k: K): Lru<K, V> {
    if k in c.data then c.(order := Without(c.order, k) + [k]) else c
  }

  function Lookup<K(==), V>(c: Lru<K, V>, k: K): Option<V> {
    if k in c.data then Some(c.data[k]) else None
  }

  function Remove<K(==), V>(c: Lru<K, V>, k: K): Lru<K, V> {
    if k in c.data then Lru(Without(c.order, k), c.data - {k}) else c
  }

  // ------------------------------------------------------------------- inclusion over traces

  datatype Request<K, V> = PutReq(k: K, v: Option<V>) | GetReq(k: K) | RemoveReq(k: K)

  function Serve<K(==), V>(c: Lru<K, V>, capacity: nat, r: Request<K, V>): Lru<K, V> {
    match r
    case PutReq(k, v) => Put(c, capacity, k, v)
    case GetReq(k) => Get(c, k)
    case RemoveReq(k) => Remove(c, k)
  }

  function ServeAll<K(==), V>(capacity: nat, trace: seq<Request<K, V>>): Lru<K, V> {
    if trace == [] then Lru([], map[])
    else Serve(ServeAll(capacity, trace[..|trace|-1]), capacity, trace[|trace|-1])
  }

  /** `a` is what remains of `b` after dropping some elements. */
  ghost predicate Subsequence<T>(a: seq<T>, b: seq<T>) {
    if a == [] then true
    else if b == [] then false
    else if a[|a|-1] == b[|b|-1] then Subsequence(a[..|a|-1], b[..|b|-1])
    else Subsequence(a, b[..|b|-1])
  }

  lemma {:induction false} SubsequenceIn<T>(a: seq<T>, b: seq<T>)
    requires Subsequence(a, b)
    ensures |a| <= |b|
    ensures forall x :: x in a ==> x in b
  {
    if a != [] {
      assert a == a[..|a|-1] + [a[|a|-1]] && b == b[..|b|-1] + [b[|b|-1]];
      if a[|a|-1] == b[|b|-1] { SubsequenceIn(a[..|a|-1], b[..|b|-1]); } else { SubsequenceIn(a, b[..|b|-1]); }
    }
  }

  lemma {:induction false} SubsequenceAppend<T>(a: seq<T>, b: seq<T>, x: T)
    requires Subsequence(a, b)
    ensures Subsequence(a + [x], b + [x])
  {
    assert (a + [x])[..|a|] == a && (b + [x])[..|b|] == b;
  }

  lemma {:induction false} SubsequenceSkip<T>(a: seq<T>, b: seq<T>, x: T)
    requires Subsequence(a, b) && x !in a
    ensures Subsequence(a, b + [x])
  {
    assert (b + [x])[..|b|] == b;
  }

  lemma {:induction false} WithoutSnoc<K>(order: seq<K>, y: K, k: K)
    requires Distinct(order + [y])
    ensures Without(order + [y], k) == if k == y then order else Without(order, k) + [y]
    decreases order
  {
    assert (order + [y])[|order|] == y;
    if order == [] {
      assert ([] + [y])[1..] == [];
    } else {
      assert (order + [y])[1..] == order[1..] + [y];
      assert forall i :: 0 <= i < |order| ==> (order + [y])[i] == order[i];
      WithoutSnoc(order[1..], y, k);
    }
  }

  /** Dropping a key from both sides keeps the inclusion. */
  lemma {:induction false} SubsequenceWithout<T>(a: seq<T>, b: seq<T>, k: T)
    requires Subsequence(a, b) && Distinct(a) && Distinct(b)
    ensures Subsequence(Without(a, k), Without(b, k))
  {
    if a == [] {
    } else {
      var a', b', x, y := a[..|a|-1], b[..|b|-1], a[|a|-1], b[|b|-1];
      assert a == a' + [x] && b == b' + [y];
      DistinctSnoc(a', x);
      DistinctSnoc(b', y);
      WithoutSnoc(a', x, k);
      WithoutSnoc(b', y, k);
      if x == y {
        SubsequenceWithout(a', b', k);
        if k != x {
          SubsequenceAppend(Without(a', k), Without(b', k), x);
        }
      } else {
        SubsequenceWithout(a, b', k);
        if k != y {
          SubsequenceIn(a, b');
          assert y !in b';
          WithoutContents(a, k);
          SubsequenceSkip(Without(a, k), Without(b', k), y);
        } else {
          SubsequenceIn(a, b');
          WithoutAbsent(a, k);
          WithoutAbsent(b', k);
        }
      }
    }
  }

  lemma {:induction false} SubsequenceLast<T>(a: seq<T>, b: seq<T>)
    requires Subsequence(a, b) && a != []
    ensures b != []
    ensures if a[|a|-1] == b[|b|-1] then Subsequence(a[..|a|-1], b[..|b|-1]) else Subsequence(a, b[..|b|-1])
  {
  }

  lemma {:induction false} EmptySubsequence<T>(b: seq<T>)
    ensures Subsequence([], b)
  {
  }

  lemma {:induction false} SubsequenceTails<T>(a: seq<T>, b: seq<T>)
    requires Subsequence(a, b) && a != [] && Distinct(b)
    ensures b != [] && Subsequence(a[1..], b[1..])
    ensures a[0] != b[0] ==> Subsequence(a, b[1..])
    decreases |b|, 1
  {
    hide Subsequence, Distinct;
    SubsequenceLast(a, b);
    var a', b', x, y := a[..|a|-1], b[..|b|-1], a[|a|-1], b[|b|-1];
    assert b == b' + [y] && a == a' + [x];
    DistinctSnoc(b', y);
    if x != y {
      SkipTails(a, b', y);
    } else if a' != [] {
      SubsequenceTails(a', b');
      assert a[1..] == a'[1..] + [x] && b[1..] == b'[1..] + [x];
      SubsequenceAppend(a'[1..], b'[1..], x);
      if a[0] != b[0] { SubsequenceAppend(a', b'[1..], x); }
    } else {
      assert a[1..] == [];
      EmptySubsequence(b[1..]);
      if b' != [] {
        assert b[1..] == b'[1..] + [x];
        EmptySubsequence(b'[1..]);
        SubsequenceAppend([], b'[1..], x);
        assert [] + [x] == a;
      }
    }
  }

  lemma {:induction false} SkipTails<T>(a: seq<T>, b: seq<T>, y: T)
    requires Subsequence(a, b) && a != [] && Distinct(b) && y !in b
    ensures b != [] && Subsequence(a[1..], (b + [y])[1..])
    ensures a[0] != b[0] ==> Subsequence(a, (b + [y])[1..])
    decreases |b|, 2
  {
    hide Subsequence, Distinct;
    SubsequenceIn(a, b);
    SubsequenceTails(a, b);
    assert (b + [y])[1..] == b[1..] + [y];
    SubsequenceSkip(a[1..], b[1..], y);
    if a[0] != b[0] { SubsequenceSkip(a, b[1..], y); }
  }

  /** The small cache sits inside the large one. */
  ghost predicate Included<K, V>(a: Lru<K, V>, b: Lru<K, V>, c1: nat, c2: nat) {
    && WellFormed(a, c1) && WellFormed(b, c2)
    && Subsequence(a.order, b.order)
    && |b.order| <= |a.order| + (c2 - c1)
    && forall k :: k in a.data ==> k in b.data && b.data[k] == a.data[k]
  }

  lemma {:induction false} EvictWellFormed<K, V>(c: Lru<K, V>, capacity: nat)
    requires 1 <= capacity && WellFormed(c, capacity + 1)
    ensures WellFormed(Evict(c, capacity), capacity)
  {
    if |c.order| > capacity {
      assert c.order == [c.order[0]] + c.order[1..];
    }
  }

  lemma {:induction false} TouchedWellFormed<K, V>(c: Lru<K, V>, capacity: nat, k: K, v: V)
    requires WellFormed(c, capacity)
    ensures WellFormed(Lru(Without(c.order, k) + [k], c.data[k := v]), capacity + 1)
  {
    WithoutContents(c.order, k);
    DistinctSnoc(Without(c.order, k), k);
  }

  lemma {:induction false} ServeWellFormed<K, V>(c: Lru<K, V>, capacity: nat, r: Request<K, V>)
    requires 1 <= capacity && WellFormed(c, capacity)
    ensures WellFormed(Serve(c, capacity, r), capacity)
  {
    WithoutContents(c.order, r.k);
    DistinctSnoc(Without(c.order, r.k), r.k);
    match r
    case PutReq(k, v) =>
      if v.Some? {
        TouchedWellFormed(c, capacity, k, v.value);
        EvictWellFormed(Lru(Without(c.order, k) + [k], c.data[k := v.value]), capacity);
      }
    case GetReq(k) =>
    case RemoveReq(k) =>
  }

  /** Evicting from both sides keeps the inclusion, one key over the limit or not. */
  lemma {:induction false} IncludedEvict<K, V>(a: Lru<K, V>, b: Lru<K, V>, c1: nat, c2: nat)
    requires 1 <= c1 <= c2 && Included(a, b, c1 + 1, c2 + 1)
    ensures Included(Evict(a, c1), Evict(b, c2), c1, c2)
  {
    EvictWellFormed(a, c1);
    EvictWellFormed(b, c2);
    SubsequenceIn(a.order, b.order);
    if |b.order| > c2 {
      assert |a.order| > c1;
      SubsequenceTails(a.order, b.order);
      assert a.order == [a.order[0]] + a.order[1..];
      assert b.order == [b.order[0]] + b.order[1..];
      if b.order[0] != a.order[0] {
        SubsequenceIn(a.order, b.order[1..]);
      }
    } else if |a.order| > c1 {
      SubsequenceDropFirst(a.order, b.order);
    }
  }

  lemma {:induction false} IncludedPut<K, V>(a: Lru<K, V>, b: Lru<K, V>, c1: nat, c2: nat, k: K, v: V)
    requires 1 <= c1 <= c2 && Included(a, b, c1, c2)
    ensures Included(Put(a, c1, k, Some(v)), Put(b, c2, k, Some(v)), c1, c2)
  {
    var x, y := Without(a.order, k), Without(b.order, k);
    TouchedWellFormed(a, c1, k, v);
    TouchedWellFormed(b, c2, k, v);
    SubsequenceIn(a.order, b.order);
    WithoutContents(a.order, k);
    WithoutContents(b.order, k);
    SubsequenceWithout(a.order, b.order, k);
    SubsequenceAppend(x, y, k);
    IncludedEvict(Lru(x + [k], a.data[k := v]), Lru(y + [k], b.data[k := v]), c1, c2);
  }

  lemma {:induction false} SubsequenceDropFirst<T>(a: seq<T>, b: seq<T>)
    requires Subsequence(a, b) && a != []
    ensures Subsequence(a[1..], b)
  {
    var a', b', x, y := a[..|a|-1], b[..|b|-1], a[|a|-1], b[|b|-1];
    if x == y {
      if a' != [] {
        SubsequenceDropFirst(a', b');
        SubsequenceAppend(a'[1..], b', x);
        assert a[1..] == a'[1..] + [x] && b == b' + [x];
      }
    } else {
      SubsequenceDropFirst(a, b');
      if |a| > 1 {
        assert a[1..][|a[1..]|-1] == x;
      }
    }
  }

  lemma {:induction false} IncludedGet<K, V>(a: Lru<K, V>, b: Lru<K, V>, c1: nat, c2: nat, k: K)
    requires 1 <= c1 <= c2 && Included(a, b, c1, c2)
    ensures Included(Get(a, k), Get(b, k), c1, c2)
  {
    ServeWellFormed(a, c1, GetReq(k));
    ServeWellFormed(b, c2, GetReq(k));
    WithoutContents(a.order, k);
    WithoutContents(b.order, k);
    SubsequenceWithout(a.order, b.order, k);
    if k in a.data {
      SubsequenceAppend(Without(a.order, k), Without(b.order, k), k);
    } else if k in b.data {
      WithoutAbsent(a.order, k);
      SubsequenceSkip(a.order, Without(b.order, k), k);
    }
  }

  lemma {:induction false} IncludedRemove<K, V>(a: Lru<K, V>, b: Lru<K, V>, c1: nat, c2: nat, k: K)
    requires 1 <= c1 <= c2 && Included(a, b, c1, c2)
    ensures Included(Remove(a, k), Remove(b, k), c1, c2)
  {
    ServeWellFormed(a, c1, RemoveReq(k));
    ServeWellFormed(b, c2, RemoveReq(k));
    WithoutContents(a.order, k);
    WithoutContents(b.order, k);
    SubsequenceWithout(a.order, b.order, k);
    if k !in a.data { WithoutAbsent(a.order, k); }
    if k !in b.data { WithoutAbsent(b.order, k); }
  }

  /** Over every trace, the cache with the smaller capacity holds a subsequence of the recency
    * list of the larger one, with the same values, and lags by at most the difference. */
  lemma {:induction false} InclusionProperty<K, V>(c1: nat, c2: nat, trace: seq<Request<K, V>>)
    requires 1 <= c1 <= c2
    ensures Included(ServeAll(c1, trace), ServeAll(c2, trace), c1, c2)
  {
    if trace != [] {
      var before, r := trace[..|trace|-1], trace[|trace|-1];
      InclusionProperty(c1, c2, before);
      var a, b := ServeAll(c1, before), ServeAll(c2, before);
      match r
      case PutReq(k, v) => if v.Some? { IncludedPut(a, b, c1, c2, k, v.value); }
      case GetReq(k) => IncludedGet(a, b, c1, c2, k);
      case RemoveReq(k) => IncludedRemove(a, b, c1, c2, k);
    }
  }

  /** So a hit in the small cache is a hit, with the same value, in the large one. */
  lemma {:induction false} HitsNest<K, V>(c1: nat, c2: nat, trace: seq<Request<K, V>>, k: K)
    requires 1 <= c1 <= c2
    requires Lookup(ServeAll(c1, trace), k).Some?
    ensures Lookup(ServeAll(c2, trace), k) == Lookup(ServeAll(c1, trace), k)
  {
    InclusionProperty(c1, c2, trace);
  }

  /** The key just put is always there afterwards, as the freshest. */
  lemma {:induction false} PutStays<K, V>(c: Lru<K, V>, capacity: nat, k: K, v: V)
    requires 1 <= capacity && WellFormed(c, capacity)
    ensures var r := Put(c, capacity, k, Some(v));
            Lookup(r, k) == Some(v) && r.order != [] && r.order[|r.order|-1] == k
  {
    WithoutContents(c.order, k);
  }

  /** A put loses a key exactly when a new key meets a full cache, and then it loses the one
    * used longest ago. */
  lemma {:induction false} PutLoses<K, V>(c: Lru<K, V>, capacity: nat, k: K, v: V, x: K)
    requires 1 <= capacity && WellFormed(c, capacity)
    ensures x in c.data && x !in Put(c, capacity, k, Some(v)).data
       <==> k !in c.data && |c.order| == capacity && x == c.order[0]
  {
    WithoutContents(c.order, k);
    if k !in c.data {
      WithoutAbsent(c.order, k);
    }
  }
}
