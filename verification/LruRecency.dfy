/** Which key a full cache loses, told from the requests alone. */
module LruRecency {
  import opened Expressions
  import opened Sequences
  import opened LruCache

  /** The place in the trace of the last use of a key: a put of a value, or a get that found it; -1 for
    * none. */
  function LastUse<K(==), V>(capacity: nat, trace: seq<Request<K, V>>, x: K): int {
    if trace == [] then -1
    else
      var n := |trace| - 1;
      var used := match trace[n]
                  case PutReq(k, v) => k == x && v.Some?
                  case GetReq(k) => k == x && x in ServeAll(capacity, trace[..n]).data
                  case RemoveReq(_) => false;
      if used then n else LastUse(capacity, trace[..n], x)
  }

  lemma {:induction false} LastUseBelow<K, V>(capacity: nat, trace: seq<Request<K, V>>, x: K)
    ensures -1 <= LastUse(capacity, trace, x) < |trace|
  {
    if trace != [] { LastUseBelow(capacity, trace[..|trace| - 1], x); }
  }

  /** Keys that were used earlier stand before those used later. */
  ghost predicate ByUse<K, V>(order: seq<K>, capacity: nat, trace: seq<Request<K, V>>) {
    && (forall i, j :: 0 <= i < j < |order| ==> LastUse(capacity, trace, order[i]) < LastUse(capacity, trace, order[j]))
    && (forall i :: 0 <= i < |order| ==> 0 <= LastUse(capacity, trace, order[i]))
  }

  /** Dropping an element keeps the others in their order. */
  lemma {:induction false} WithoutPlaces<K>(order: seq<K>, k: K) returns (at: seq<nat>)
    requires Distinct(order)
    ensures |at| == |Without(order, k)|
    ensures forall i :: 0 <= i < |at| ==> at[i] < |order| && Without(order, k)[i] == order[at[i]] && order[at[i]] != k
    ensures forall i, j :: 0 <= i < j < |at| ==> at[i] < at[j]
  {
    if k in order {
      var p :| 0 <= p < |order| && order[p] == k;
      at := WithoutAtPlace(order, p);
    } else {
      WithoutAbsent(order, k);
      at := seq(|order|, i => i);
    }
  }

  lemma {:induction false} WithoutAtPlace<K>(order: seq<K>, p: nat) returns (at: seq<nat>)
    requires Distinct(order) && p < |order|
    ensures |at| == |Without(order, order[p])|
    ensures forall i :: 0 <= i < |at| ==> at[i] < |order| && Without(order, order[p])[i] == order[at[i]] && order[at[i]] != order[p]
    ensures forall i, j :: 0 <= i < j < |at| ==> at[i] < at[j]
  {
    hide Distinct, Without;
    WithoutAt(order, p);
    at := seq(|order| - 1, i requires 0 <= i < |order| - 1 => Skipping(p, i));
    forall i | 0 <= i < |at| ensures Without(order, order[p])[i] == order[at[i]] && order[at[i]] != order[p] {
      SkippedAt(order, p, i);
    }
  }

  function Skipping(p: nat, i: nat): nat {
    if i < p then i else i + 1
  }

  lemma {:induction false} SkippedAt<K>(order: seq<K>, p: nat, i: nat)
    requires Distinct(order) && p < |order| && i < |order| - 1
    ensures |Without(order, order[p])| == |order| - 1
    ensures Without(order, order[p])[i] == order[Skipping(p, i)] && order[Skipping(p, i)] != order[p]
  {
    hide Distinct, Without;
    WithoutAt(order, p);
    WithoutContents(order, order[p]);
    assert Without(order, order[p])[i] in Without(order, order[p]);
  }

  lemma {:induction false} ByUseSome<K, V>(order: seq<K>, some: seq<K>, at: seq<nat>, capacity: nat, trace: seq<Request<K, V>>)
    requires ByUse(order, capacity, trace) && |at| == |some|
    requires forall i :: 0 <= i < |at| ==> at[i] < |order| && some[i] == order[at[i]]
    requires forall i, j :: 0 <= i < j < |at| ==> at[i] < at[j]
    ensures ByUse(some, capacity, trace)
  {
    hide LastUse;
    forall i, j | 0 <= i < j < |some| ensures LastUse(capacity, trace, some[i]) < LastUse(capacity, trace, some[j]) {
      assert at[i] < at[j];
    }
  }

  /** Requests for other keys leave the last use of a key. */
  lemma {:induction false} OthersKept<K, V>(capacity: nat, trace: seq<Request<K, V>>, x: K)
    requires trace != [] && trace[|trace| - 1].k != x
    ensures LastUse(capacity, trace, x) == LastUse(capacity, trace[..|trace| - 1], x)
  {
  }

  lemma {:induction false} ByUseOthers<K, V>(order: seq<K>, capacity: nat, trace: seq<Request<K, V>>)
    requires trace != [] && ByUse(order, capacity, trace[..|trace| - 1]) && trace[|trace| - 1].k !in order
    ensures ByUse(order, capacity, trace)
  {
    hide LastUse;
    forall i | 0 <= i < |order|
      ensures LastUse(capacity, trace, order[i]) == LastUse(capacity, trace[..|trace| - 1], order[i])
    {
      OthersKept(capacity, trace, order[i]);
    }
  }

  /** A key that is used now goes behind the others. */
  lemma {:induction false} ByUseTouched<K, V>(order: seq<K>, capacity: nat, trace: seq<Request<K, V>>, k: K)
    requires Distinct(order) && trace != [] && ByUse(order, capacity, trace[..|trace| - 1])
    requires trace[|trace| - 1].k == k && LastUse(capacity, trace, k) == |trace| - 1
    ensures ByUse(Without(order, k) + [k], capacity, trace)
  {
    hide LastUse;
    var rest := Without(order, k);
    WithoutContents(order, k);
    var at := WithoutPlaces(order, k);
    ByUseSome(order, rest, at, capacity, trace[..|trace| - 1]);
    ByUseOthers(rest, capacity, trace);
    forall i | 0 <= i < |rest| ensures LastUse(capacity, trace, rest[i]) < |trace| - 1 {
      OthersKept(capacity, trace, rest[i]);
      LastUseBelow(capacity, trace[..|trace| - 1], rest[i]);
    }
  }

  lemma {:induction false} ByUseTail<K, V>(order: seq<K>, capacity: nat, trace: seq<Request<K, V>>)
    requires ByUse(order, capacity, trace) && order != []
    ensures ByUse(order[1..], capacity, trace)
  {
    hide LastUse;
  }

  /** After any trace the keys stand in the order of their last uses. */
  lemma {:induction false} OrderIsRecency<K, V>(capacity: nat, trace: seq<Request<K, V>>)
    requires 1 <= capacity
    ensures var c := ServeAll(capacity, trace); WellFormed(c, capacity) && ByUse(c.order, capacity, trace)
  {
    if trace != [] {
      var before, r := trace[..|trace| - 1], trace[|trace| - 1];
      OrderIsRecency(capacity, before);
      var c := ServeAll(capacity, before);
      ServeWellFormed(c, capacity, r);
      RequestKeeps(capacity, trace, c);
    }
  }

  lemma {:induction false} RequestKeeps<K, V>(capacity: nat, trace: seq<Request<K, V>>, c: Lru<K, V>)
    requires 1 <= capacity && trace != [] && c == ServeAll(capacity, trace[..|trace| - 1])
    requires WellFormed(c, capacity) && ByUse(c.order, capacity, trace[..|trace| - 1])
    ensures ByUse(Serve(c, capacity, trace[|trace| - 1]).order, capacity, trace)
  {
    hide ByUse, ServeAll;
    var r := trace[|trace| - 1];
    WithoutContents(c.order, r.k);
    match r
    case PutReq(k, v) =>
      if v.Some? {
        ByUseTouched(c.order, capacity, trace, k);
        ByUseTail(Without(c.order, k) + [k], capacity, trace);
      } else {
        NothingUsed(c.order, capacity, trace);
      }
    case GetReq(k) =>
      if k in c.data {
        ByUseTouched(c.order, capacity, trace, k);
      } else {
        NothingUsed(c.order, capacity, trace);
      }
    case RemoveReq(k) =>
      if k in c.data {
        var at := WithoutPlaces(c.order, k);
        ByUseSome(c.order, Without(c.order, k), at, capacity, trace[..|trace| - 1]);
        ByUseOthers(Without(c.order, k), capacity, trace);
      } else {
        NothingUsed(c.order, capacity, trace);
      }
  }

  lemma {:induction false} NothingUsed<K, V>(order: seq<K>, capacity: nat, trace: seq<Request<K, V>>)
    requires trace != [] && ByUse(order, capacity, trace[..|trace| - 1])
    requires match trace[|trace| - 1]
             case PutReq(_, v) => v.None?
             case GetReq(k) => k !in ServeAll(capacity, trace[..|trace| - 1]).data
             case RemoveReq(_) => true
    ensures ByUse(order, capacity, trace)
  {
    hide ServeAll;
    forall x ensures LastUse(capacity, trace, x) == LastUse(capacity, trace[..|trace| - 1], x) { }
  }

  /** The key whose last use is the earliest of all that are there. */
  ghost predicate Stalest<K, V>(capacity: nat, trace: seq<Request<K, V>>, x: K) {
    var c := ServeAll(capacity, trace);
    x in c.data && forall y :: y in c.data && y != x ==> LastUse(capacity, trace, x) < LastUse(capacity, trace, y)
  }

  /** What the cache holds after one more request: a put of a value stores it, and if the key is new and
    * the cache was full, the key used longest ago is lost; a put of undefined and a get store and lose
    * nothing; a remove takes its key away. */
  lemma {:induction false} ContentsAre<K, V>(capacity: nat, trace: seq<Request<K, V>>, r: Request<K, V>) returns (lost: set<K>)
    requires 1 <= capacity
    ensures var c, d := ServeAll(capacity, trace), ServeAll(capacity, trace + [r]);
            match r
            case PutReq(k, None) => d.data == c.data
            case PutReq(k, Some(v)) =>
              && d.data == c.data[k := v] - lost && |d.data| <= capacity
              && if k in c.data || |c.data| < capacity then lost == {}
                 else exists x :: lost == {x} && x != k && Stalest(capacity, trace, x)
            case GetReq(k) => d.data == c.data
            case RemoveReq(k) => d.data == c.data - {k}
  {
    hide LastUse, Stalest, ByUse, Put, Get, Remove, WellFormed;
    var c := ServeAll(capacity, trace);
    assert (trace + [r])[..|trace|] == trace;
    OrderIsRecency(capacity, trace);
    lost := {};
    match r
    case PutReq(k, v) =>
      if v.Some? {
        lost := PutContents(c, capacity, k, v.value);
        if lost != {} { FirstIsStalest(capacity, trace); }
      } else {
        PutNothing(c, capacity, k);
      }
    case GetReq(k) => GetContents(c, k);
    case RemoveReq(k) => RemoveContents(c, k);
  }

  lemma {:induction false} PutNothing<K, V>(c: Lru<K, V>, capacity: nat, k: K)
    ensures Put(c, capacity, k, None) == c
  {
  }

  lemma {:induction false} GetContents<K, V>(c: Lru<K, V>, k: K)
    ensures Get(c, k).data == c.data
  {
  }

  lemma {:induction false} RemoveContents<K, V>(c: Lru<K, V>, k: K)
    ensures Remove(c, k).data == c.data - {k}
  {
    if k !in c.data { assert c.data - {k} == c.data; }
  }

  lemma {:induction false} PutContents<K, V>(c: Lru<K, V>, capacity: nat, k: K, v: V) returns (lost: set<K>)
    requires 1 <= capacity && WellFormed(c, capacity)
    ensures var d := Put(c, capacity, k, Some(v));
            && d.data == c.data[k := v] - lost && |d.data| <= capacity
            && (k in c.data || |c.data| < capacity ==> lost == {})
            && (k !in c.data && |c.data| >= capacity ==> c.order != [] && lost == {c.order[0]} && c.order[0] != k)
  {
    SameSize(c, capacity);
    WithoutContents(c.order, k);
    PutSize(c, capacity, k, v);
    if k in c.data || |c.data| < capacity {
      lost := {};
      assert c.data[k := v] - {} == c.data[k := v];
    } else {
      WithoutAbsent(c.order, k);
      lost := {c.order[0]};
      assert (c.order + [k])[0] == c.order[0];
    }
  }

  lemma {:induction false} PutSize<K, V>(c: Lru<K, V>, capacity: nat, k: K, v: V)
    requires 1 <= capacity && WellFormed(c, capacity)
    ensures |Put(c, capacity, k, Some(v)).data| <= capacity
  {
    hide Put;
    ServeWellFormed(c, capacity, PutReq(k, Some(v)));
    SameSize(Put(c, capacity, k, Some(v)), capacity);
  }

  lemma {:induction false} SameSize<K, V>(c: Lru<K, V>, capacity: nat)
    requires WellFormed(c, capacity)
    ensures |c.data| == |c.order|
  {
    DistinctSize(c.order);
    assert c.data.Keys == set k | k in c.order;
  }

  lemma {:induction false} DistinctSize<K>(order: seq<K>)
    requires Distinct(order)
    ensures |set k | k in order| == |order|
  {
    if order != [] {
      DistinctSize(order[1..]);
      assert order == [order[0]] + order[1..];
      assert (set k | k in order) == {order[0]} + set k | k in order[1..];
    }
  }

  lemma {:induction false} FirstIsStalest<K, V>(capacity: nat, trace: seq<Request<K, V>>)
    requires 1 <= capacity && ServeAll(capacity, trace).order != []
    ensures Stalest(capacity, trace, ServeAll(capacity, trace).order[0])
  {
    hide LastUse, ServeAll;
    OrderIsRecency(capacity, trace);
    var c := ServeAll(capacity, trace);
    forall y | y in c.data && y != c.order[0]
      ensures LastUse(capacity, trace, c.order[0]) < LastUse(capacity, trace, y)
    {
      var i :| 0 <= i < |c.order| && c.order[i] == y;
    }
  }

  /** A get that finds its key makes it the one used last, and gives its value. */
  lemma {:induction false} GetStays<K, V>(capacity: nat, trace: seq<Request<K, V>>, k: K)
    requires 1 <= capacity && k in ServeAll(capacity, trace).data
    ensures var c, d := ServeAll(capacity, trace), ServeAll(capacity, trace + [GetReq(k)]);
            && d.data == c.data && d.order != [] && d.order[|d.order| - 1] == k
            && d.order[..|d.order| - 1] == Without(c.order, k)
            && LastUse(capacity, trace + [GetReq(k)], k) == |trace|
  {
    assert (trace + [GetReq(k)])[..|trace|] == trace;
  }
}
