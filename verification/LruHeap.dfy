/** The cache object itself: entries on the heap, linked both ways, with the two ends. */
module LruHeap {
  import opened Expressions
  import opened Sequences
  import opened LruCache

  /** `n` points to the entry used next after this one, `p` to the one used just before. */
  class Entry<K> {
    const key: K
    var n: Entry?<K>
    var p: Entry?<K>

    constructor (key: K)
      ensures this.key == key && n == null && p == null
    {
      this.key, n, p := key, null, null;
    }
  }

  function Drop<T>(s: seq<T>, i: nat): seq<T>
    requires i <= |s|
  {
    if i == |s| then s else s[..i] + s[i+1..]
  }

  /** The entries are different objects. */
  ghost predicate Apart<T>(s: seq<T>) {
    forall i, j :: 0 <= i < j < |s| ==> s[i] != s[j]
  }

  /** Entry by entry, `list` is filed in `hash` under the keys in `order`. */
  ghost predicate Parallel<K>(list: seq<Entry<K>>, order: seq<K>, hash: map<K, Entry<K>>) {
    if list == [] || order == [] then list == [] && order == []
    else order[0] in hash && list[0] == hash[order[0]] && Parallel(list[1..], order[1..], hash)
  }

  ghost function ToSet<K>(order: seq<K>): set<K> {
    if order == [] then {} else {order[0]} + ToSet(order[1..])
  }

  ghost predicate OwnKeys<K>(hash: map<K, Entry<K>>) {
    forall k :: k in hash ==> hash[k].key == k
  }

  /** The hash holds the listed keys, once each, and every entry knows its key. */
  ghost predicate Named<K>(list: seq<Entry<K>>, order: seq<K>, hash: map<K, Entry<K>>) {
    Parallel(list, order, hash) && Distinct(order) && hash.Keys == ToSet(order) && OwnKeys(hash)
  }

  lemma {:induction false} ToSetIn<K>(order: seq<K>, k: K)
    ensures k in ToSet(order) <==> k in order
  {
    if order != [] { ToSetIn(order[1..], k); }
  }

  lemma {:induction false} ToSetWithout<K>(order: seq<K>, k: K)
    requires Distinct(order)
    ensures ToSet(Without(order, k)) == ToSet(order) - {k}
  {
    if order != [] {
      ToSetIn(order[1..], order[0]);
      ToSetWithout(order[1..], k);
    }
  }

  lemma {:induction false} ToSetSnoc<K>(order: seq<K>, k: K)
    ensures ToSet(order + [k]) == ToSet(order) + {k}
  {
    if order == [] {
      assert (order + [k])[1..] == [];
    } else {
      assert (order + [k])[1..] == order[1..] + [k];
      ToSetSnoc(order[1..], k);
    }
  }

  lemma {:induction false} ParallelAt<K>(list: seq<Entry<K>>, order: seq<K>, hash: map<K, Entry<K>>, i: nat)
    requires Parallel(list, order, hash) && i < |order|
    ensures |list| == |order| && order[i] in hash && list[i] == hash[order[i]]
  {
    if i > 0 {
      ParallelAt(list[1..], order[1..], hash, i - 1);
    } else {
      ParallelLength(list, order, hash);
    }
  }

  lemma {:induction false} ParallelLength<K>(list: seq<Entry<K>>, order: seq<K>, hash: map<K, Entry<K>>)
    requires Parallel(list, order, hash)
    ensures |list| == |order|
  {
    if list != [] && order != [] { ParallelLength(list[1..], order[1..], hash); }
  }

  lemma {:induction false} DropRest<T>(s: seq<T>, i: nat)
    requires 0 < i < |s|
    ensures Drop(s, i) != [] && Drop(s, i)[0] == s[0] && Drop(s, i)[1..] == Drop(s[1..], i - 1)
  {
    assert s[..i][1..] == s[1..][..i-1];
    assert s[i+1..] == s[1..][i..];
    assert Drop(s, i) == [s[0]] + (s[..i][1..] + s[i+1..]);
  }

  lemma {:induction false} ParallelDrop<K>(list: seq<Entry<K>>, order: seq<K>, hash: map<K, Entry<K>>, i: nat)
    requires Parallel(list, order, hash) && i < |order| == |list| && Distinct(order)
    ensures Parallel(Drop(list, i), Without(order, order[i]), hash)
  {
    if i == 0 {
      assert Drop(list, 0) == list[1..];
    } else {
      assert order[1..][i-1] == order[i];
      ParallelDrop(list[1..], order[1..], hash, i - 1);
      DropRest(list, i);
      assert order[0] != order[i];
    }
  }

  lemma {:induction false} ParallelSnoc<K>(list: seq<Entry<K>>, order: seq<K>, hash: map<K, Entry<K>>, k: K)
    requires Parallel(list, order, hash) && k in hash
    ensures Parallel(list + [hash[k]], order + [k], hash)
  {
    if list == [] || order == [] {
      assert (list + [hash[k]])[1..] == [] && (order + [k])[1..] == [];
    } else {
      assert (list + [hash[k]])[1..] == list[1..] + [hash[k]] && (order + [k])[1..] == order[1..] + [k];
      ParallelSnoc(list[1..], order[1..], hash, k);
    }
  }

  lemma {:induction false} ParallelFrame<K>(list: seq<Entry<K>>, order: seq<K>, hash: map<K, Entry<K>>, hash': map<K, Entry<K>>)
    requires Parallel(list, order, hash)
    requires forall k :: k in order && k in hash ==> k in hash' && hash'[k] == hash[k]
    ensures Parallel(list, order, hash')
  {
    if list != [] && order != [] {
      ParallelFrame(list[1..], order[1..], hash, hash');
    }
  }

  /** The place of the entry filed under `k`. */
  lemma {:induction false} NamedPlace<K>(list: seq<Entry<K>>, order: seq<K>, hash: map<K, Entry<K>>, k: K) returns (i: nat)
    requires Named(list, order, hash) && k in hash
    ensures i < |order| == |list| && order[i] == k && list[i] == hash[k] && hash[k].key == k
  {
    ToSetIn(order, k);
    i :| 0 <= i < |order| && order[i] == k;
    ParallelAt(list, order, hash, i);
  }

  lemma {:induction false} NamedDrop<K>(list: seq<Entry<K>>, order: seq<K>, hash: map<K, Entry<K>>, i: nat)
    requires Named(list, order, hash) && i < |order| == |list|
    ensures Named(Drop(list, i), Without(order, order[i]), hash - {order[i]})
    ensures list[i].key == order[i] && |Without(order, order[i])| == |order| - 1
  {
    ParallelAt(list, order, hash, i);
    ParallelDrop(list, order, hash, i);
    WithoutContents(order, order[i]);
    ToSetWithout(order, order[i]);
    ParallelFrame(Drop(list, i), Without(order, order[i]), hash, hash - {order[i]});
  }

  lemma {:induction false} NamedMove<K>(list: seq<Entry<K>>, order: seq<K>, hash: map<K, Entry<K>>, i: nat)
    requires Named(list, order, hash) && i < |order| == |list|
    ensures Named(Drop(list, i) + [list[i]], Without(order, order[i]) + [order[i]], hash)
  {
    var k := order[i];
    ParallelAt(list, order, hash, i);
    ParallelDrop(list, order, hash, i);
    ParallelSnoc(Drop(list, i), Without(order, k), hash, k);
    WithoutContents(order, k);
    DistinctSnoc(Without(order, k), k);
    ToSetWithout(order, k);
    ToSetSnoc(Without(order, k), k);
  }

  lemma {:induction false} NamedNew<K>(list: seq<Entry<K>>, order: seq<K>, hash: map<K, Entry<K>>, c: Entry<K>)
    requires Named(list, order, hash) && c.key !in hash
    ensures Named(list + [c], Without(order, c.key) + [c.key], hash[c.key := c])
    ensures c !in list
  {
    var k := c.key;
    ToSetIn(order, k);
    WithoutAbsent(order, k);
    DistinctSnoc(order, k);
    ToSetSnoc(order, k);
    ParallelFrame(list, order, hash, hash[k := c]);
    ParallelSnoc(list, order, hash[k := c], k);
    if c in list {
      var i :| 0 <= i < |list| && list[i] == c;
      ParallelLength(list, order, hash);
      ParallelAt(list, order, hash, i);
    }
  }

  /** The entries in order of use: the closure variables `q` and `s` and the functions on them. */
  class UseList<K> {
    var freshEnd: Entry?<K>
    var staleEnd: Entry?<K>
    /** The entries from the stalest to the freshest. */
    ghost var list: seq<Entry<K>>
    /** Every entry this list has held. */
    ghost var repr: set<Entry<K>>

    constructor ()
      ensures Valid() && list == [] && repr == {}
    {
      freshEnd, staleEnd, list, repr := null, null, [], {};
    }

    /** The pointers spell out `list`. */
    ghost predicate Valid()
      reads this, repr
    {
      && (forall i :: 0 <= i < |list| ==> list[i] in repr)
      && Apart(list)
      && staleEnd == (if list == [] then null else list[0])
      && freshEnd == (if list == [] then null else list[|list|-1])
      && (forall i {:trigger list[i].n} :: 0 <= i < |list| ==> list[i].n == if i + 1 < |list| then list[i+1] else null)
      && (forall i {:trigger list[i].p} :: 0 <= i < |list| ==> list[i].p == if i > 0 then list[i-1] else null)
    }

    lemma {:induction false} Neighbours(i: nat)
      requires Valid() && i < |list|
      ensures list[i].n == if i + 1 < |list| then list[i+1] else null
      ensures list[i].p == if i > 0 then list[i-1] else null
    {
    }

    /** Makes `older` the predecessor of `newer`. */
    method Link(newer: Entry?<K>, older: Entry?<K>)
      modifies (if newer == null then {} else {newer})`p, (if older == null then {} else {older})`n
      ensures newer != older && newer != null ==> newer.p == older
      ensures newer != older && older != null ==> older.n == newer
      ensures newer == older && newer != null ==> newer.p == old(newer.p) && newer.n == old(newer.n)
    {
      if newer != older {
        if newer != null { newer.p := older; }
        if older != null { older.n := newer; }
      }
    }

    /** Makes `a` the freshest entry; `i` is its place in the list, or the end for a new one. */
    method Refresh(a: Entry<K>, ghost i: nat)
      requires Valid()
      requires i <= |list|
      requires a in repr
      requires if i < |list| then a == list[i] else a !in list && a.n == null && a.p == null
      modifies this, repr
      ensures list == Drop(old(list), i) + [a] && repr == old(repr)
      ensures Valid()
    {
      if a == freshEnd {
        assert list == Drop(list, i) + [a];
      } else {
        Splice(a, i);
      }
    }

    /** The entry becomes the stale end if there is none, and stops being it otherwise. */
    method RenewStale(a: Entry<K>)
      modifies this`staleEnd
      ensures staleEnd == if old(staleEnd) == null then a else if old(staleEnd) == a then a.n else old(staleEnd)
    {
      if staleEnd != null {
        if staleEnd == a { staleEnd := a.n; }
      } else {
        staleEnd := a;
      }
    }

    /** `Valid` but for the stale end. */
    ghost predicate Chained()
      reads this, repr
    {
      && (forall i :: 0 <= i < |list| ==> list[i] in repr)
      && Apart(list)
      && freshEnd == (if list == [] then null else list[|list|-1])
      && (forall i {:trigger list[i].n} :: 0 <= i < |list| ==> list[i].n == if i + 1 < |list| then list[i+1] else null)
      && (forall i {:trigger list[i].p} :: 0 <= i < |list| ==> list[i].p == if i > 0 then list[i-1] else null)
    }

    /** The part of `Refresh` that has work to do. */
    method Splice(a: Entry<K>, ghost i: nat)
      requires Valid()
      requires i <= |list| && a != freshEnd
      requires a in repr
      requires if i < |list| then a == list[i] else a !in list && a.n == null && a.p == null
      modifies this, repr
      ensures list == Drop(old(list), i) + [a] && repr == old(repr)
      ensures Valid()
    {
      TakeOut(a, i);
      PutLast(a);
    }

    /** The entry leaves its place: the stale end moves off it, and its neighbours are joined. */
    method TakeOut(a: Entry<K>, ghost i: nat)
      requires Valid()
      requires i <= |list| && a != freshEnd && a in repr
      requires if i < |list| then a == list[i] else a !in list && a.n == null && a.p == null
      modifies this, repr
      ensures list == Drop(old(list), i) && repr == old(repr) && a !in list && a != freshEnd
      ensures Chained() && staleEnd == if list == [] then a else list[0]
    {
      hide Drop;
      ghost var s := list;
      if i < |s| { Neighbours(i); }
      RenewStale(a);
      Link(a.n, a.p);
      DropPlaces(s, i);
      list := Drop(s, i);
    }

    lemma {:induction false} DropPlaces(s: seq<Entry<K>>, i: nat)
      requires i <= |s| && Apart(s)
      ensures var u := Drop(s, i);
              && Apart(u) && |u| == (if i < |s| then |s| - 1 else |s|)
              && (forall j {:trigger u[j]} :: 0 <= j < |u| ==> u[j] == s[if j < i then j else j + 1])
              && (i < |s| ==> s[i] !in u)
    {
    }

    /** The entry goes in front of the fresh end and becomes it. */
    method PutLast(a: Entry<K>)
      requires Chained() && a in repr && a !in list && a != freshEnd && staleEnd == if list == [] then a else list[0]
      modifies this, repr
      ensures Valid() && list == old(list) + [a] && repr == old(repr)
    {
      Link(a, freshEnd);
      freshEnd := a;
      a.n := null;
      list := list + [a];
    }

    /** `remove`'s surgery on the list. */
    method Unlink(b: Entry<K>, ghost i: nat)
      requires Valid() && i < |list| && b == list[i]
      modifies this, repr
      ensures list == Drop(old(list), i) && repr == old(repr)
      ensures Valid()
    {
      hide Drop;
      ghost var s := list;
      Neighbours(i);
      if b == freshEnd { freshEnd := b.p; }
      if b == staleEnd { staleEnd := b.n; }
      Link(b.n, b.p);
      DropPlaces(s, i);
      list := Drop(s, i);
    }

    /** A new entry becomes the freshest. */
    method Insert(c: Entry<K>)
      requires Valid() && c !in list && c.n == null && c.p == null
      modifies this, repr, c
      ensures Valid() && list == old(list) + [c] && repr == old(repr) + {c}
    {
      repr := repr + {c};
      Refresh(c, |list|);
    }

    method Clear()
      modifies this
      ensures Valid() && list == [] && repr == {}
    {
      freshEnd, staleEnd, list, repr := null, null, [], {};
    }
  }

  class Cache<K(==), V> {
    const capacity: nat
    const uses: UseList<K>
    var size: nat
    var data: map<K, V>
    var hash: map<K, Entry<K>>
    /** The keys from the stalest to the freshest. */
    ghost var order: seq<K>

    constructor (capacity: nat)
      requires 1 <= capacity
      ensures Valid() && fresh(uses) && fresh(uses.repr)
      ensures this.capacity == capacity && Abstract() == Lru([], map[])
    {
      this.capacity, size, data, hash := capacity, 0, map[], map[];
      uses := new UseList();
      order := [];
    }

    ghost predicate Valid()
      reads this, uses, uses.repr
    {
      && 1 <= capacity
      && uses.Valid() && Named(uses.list, order, hash)
      && hash.Keys == data.Keys
      && size == |order| <= capacity
    }

    ghost function Abstract(): Lru<K, V>
      reads this
    {
      Lru(order, data)
    }

    lemma {:induction false} OrderLength(k: K)
      requires Named(uses.list, order, hash)
      ensures |Without(order, k)| == |order| - (if k in hash then 1 else 0)
    {
      ToSetIn(order, k);
      WithoutContents(order, k);
    }

    /** `remove`, also of the stalest key of a cache that is one over its capacity. */
    method Discard(b: Entry<K>, ghost i: nat)
      requires 1 <= capacity && uses.Valid() && Named(uses.list, order, hash)
      requires i < |uses.list| && b == uses.list[i]
      requires hash.Keys == data.Keys && size == |order| <= capacity + 1
      modifies this, uses, uses.repr
      ensures Valid() && uses.repr == old(uses.repr)
      ensures order == Without(old(order), b.key) && data == old(data) - {b.key}
    {
      ParallelLength(uses.list, order, hash);
      NamedDrop(uses.list, order, hash, i);
      uses.Unlink(b, i);
      order := Without(order, b.key);
      hash := hash - {b.key};
      data := data - {b.key};
      size := size - 1;
    }

    method Remove(k: K)
      requires Valid()
      modifies this, uses, uses.repr
      ensures Valid() && uses.repr == old(uses.repr)
      ensures Abstract() == LruCache.Remove(old(Abstract()), k)
    {
      if k in hash {
        ghost var i := NamedPlace(uses.list, order, hash, k);
        Discard(hash[k], i);
      }
    }

    /** The entry for `k`, made if there is none, becomes the freshest. */
    method Touch(k: K)
      requires uses.Valid() && Named(uses.list, order, hash)
      modifies this`order, this`hash, uses, uses.repr
      ensures uses.Valid() && Named(uses.list, order, hash)
      ensures fresh(uses.repr - old(uses.repr))
      ensures hash.Keys == old(hash).Keys + {k}
      ensures order == Without(old(order), k) + [k]
    {
      hide Named, Without;
      if k in hash {
        ghost var i := NamedPlace(uses.list, order, hash, k);
        NamedMove(uses.list, order, hash, i);
        uses.Refresh(hash[k], i);
      } else {
        var c := new Entry(k);
        NamedNew(uses.list, order, hash, c);
        uses.Insert(c);
        hash := hash[k := c];
      }
      order := Without(order, k) + [k];
    }

    /** `get`: a hit makes the key the freshest. */
    method Get(k: K) returns (v: Option<V>)
      requires Valid()
      modifies this, uses, uses.repr
      ensures Valid() && fresh(uses.repr - old(uses.repr))
      ensures Abstract() == LruCache.Get(old(Abstract()), k)
      ensures v == Lookup(old(Abstract()), k)
    {
      if k !in hash {
        return None;
      }
      OrderLength(k);
      Touch(k);
      v := Some(data[k]);
    }

    /** Removal of the stalest key from a cache one over its capacity. */
    method EvictStalest()
      requires 1 <= capacity && uses.Valid() && Named(uses.list, order, hash)
      requires hash.Keys == data.Keys && size == |order| == capacity + 1
      modifies this, uses, uses.repr
      ensures Valid() && uses.repr == old(uses.repr)
      ensures Abstract() == Evict(old(Abstract()), capacity)
    {
      ParallelLength(uses.list, order, hash);
      ParallelAt(uses.list, order, hash, 0);
      assert uses.staleEnd.key == order[0];
      Discard(uses.staleEnd, 0);
    }

    /** `put` up to the point where the capacity is checked. */
    method Store(k: K, v: V)
      requires Valid()
      modifies this, uses, uses.repr
      ensures 1 <= capacity && uses.Valid() && Named(uses.list, order, hash)
      ensures hash.Keys == data.Keys && size == |order| <= capacity + 1
      ensures fresh(uses.repr - old(uses.repr))
      ensures Abstract() == Lru(Without(old(order), k) + [k], old(data)[k := v])
    {
      hide UseList.Valid, Named, Without;
      OrderLength(k);
      Touch(k);
      if k !in data { size := size + 1; }
      data := data[k := v];
    }

    /** `put`; an undefined value is ignored, and the stalest entry makes room. */
    method Put(k: K, v: Option<V>)
      requires Valid()
      modifies this, uses, uses.repr
      ensures Valid() && fresh(uses.repr - old(uses.repr))
      ensures Abstract() == LruCache.Put(old(Abstract()), capacity, k, v)
    {
      if v.Some? {
        Store(k, v.value);
        if size > capacity {
          EvictStalest();
        }
      }
    }

    /** `removeAll`. */
    method RemoveAll()
      requires Valid()
      modifies this, uses
      ensures Valid() && Abstract() == Lru([], map[])
    {
      data, size, hash, order := map[], 0, map[], [];
      uses.Clear();
    }
  }
}
