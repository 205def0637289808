/** The insertion-ordered Map of the collections polyfill, in the simple form: a list to which
  * entries are only ever appended, with removed entries marked (ECMAScript 2015, 23.1.3). */
module OrderedMap {
  import opened Expressions

  datatype Slot<K, V> = Slot(key: K, value: V, removed: bool)

  /** Every slot from `lo` up to `hi` is removed. */
  ghost predicate Gone<K, V>(s: seq<Slot<K, V>>, lo: int, hi: int) {
    forall j :: 0 <= j < |s| && lo <= j < hi ==> s[j].removed
  }

  /** Live keys are distinct. */
  ghost predicate Unique<K, V>(s: seq<Slot<K, V>>) {
    forall i, j :: 0 <= i < j < |s| && !s[i].removed && !s[j].removed ==> s[i].key != s[j].key
  }

  /** The place of the live slot of `k`, or the length. */
  function Find<K(==), V>(s: seq<Slot<K, V>>, k: K): (i: nat)
    ensures i <= |s|
    ensures i < |s| ==> !s[i].removed && s[i].key == k
  {
    if s == [] then 0
    else if !s[0].removed && s[0].key == k then 0
    else 1 + Find(s[1..], k)
  }

  lemma {:induction false} FindFirst<K, V>(s: seq<Slot<K, V>>, k: K)
    ensures forall j :: 0 <= j < Find(s, k) ==> s[j].removed || s[j].key != k
  {
    if s != [] && (s[0].removed || s[0].key != k) {
      FindFirst(s[1..], k);
    }
  }

  /** The first live slot from `c` on, or the length. */
  function NextLive<K, V>(s: seq<Slot<K, V>>, c: nat): (i: nat)
    requires c <= |s|
    ensures c <= i <= |s|
    ensures i < |s| ==> !s[i].removed
    decreases |s| - c
  {
    if c == |s| || !s[c].removed then c else NextLive(s, c + 1)
  }

  lemma {:induction false} NextLiveFirst<K, V>(s: seq<Slot<K, V>>, c: nat)
    requires c <= |s|
    ensures Gone(s, c, NextLive(s, c))
    decreases |s| - c
  {
    if c < |s| && s[c].removed { NextLiveFirst(s, c + 1); }
  }

  function SetSlot<K(==), V>(s: seq<Slot<K, V>>, k: K, v: V): seq<Slot<K, V>> {
    var i := Find(s, k);
    if i < |s| then s[i := Slot(k, v, false)] else s + [Slot(k, v, false)]
  }

  function DeleteSlot<K(==), V>(s: seq<Slot<K, V>>, k: K): seq<Slot<K, V>> {
    var i := Find(s, k);
    if i < |s| then s[i := s[i].(removed := true)] else s
  }

  function ClearSlots<K, V>(s: seq<Slot<K, V>>): (r: seq<Slot<K, V>>) {
    seq(|s|, i requires 0 <= i < |s| => s[i].(removed := true))
  }

  function Lookup<K(==), V>(s: seq<Slot<K, V>>, k: K): Option<V> {
    var i := Find(s, k);
    if i < |s| then Some(s[i].value) else None
  }

  /** The operations are those of a map. */
  lemma {:induction false} MapLaws<K, V>(s: seq<Slot<K, V>>, k: K, v: V, k': K)
    requires Unique(s)
    ensures Lookup(SetSlot(s, k, v), k') == if k' == k then Some(v) else Lookup(s, k')
    ensures Lookup(DeleteSlot(s, k), k') == if k' == k then None else Lookup(s, k')
    ensures Lookup(ClearSlots(s), k') == None
  {
    var i, j := Find(s, k), Find(s, k');
    FindFirst(s, k);
    FindFirst(s, k');
    SetKeepsUnique(s, k, v);
    FindNone(ClearSlots(s), k');
    FindUnique(SetSlot(s, k, v), k', if k' == k then i else if j < |s| then j else |SetSlot(s, k, v)|);
    FindUnique(DeleteSlot(s, k), k', if k' == k then |s| else j);
  }

  /** What the operations do to places: setting a key that is there changes its value only, and a new one
    * goes to the end; deleting marks the place of the key; clearing marks all. */
  lemma {:induction false} PlacesKept<K, V>(s: seq<Slot<K, V>>, k: K, v: V)
    requires Unique(s)
    ensures (exists i :: 0 <= i < |s| && s[i] == Slot(k, s[i].value, false)) ==>
              |SetSlot(s, k, v)| == |s| &&
              (forall i :: 0 <= i < |s| ==>
                 SetSlot(s, k, v)[i] == if s[i].key == k && !s[i].removed then Slot(k, v, false) else s[i])
    ensures (forall i :: 0 <= i < |s| ==> s[i].removed || s[i].key != k) ==> SetSlot(s, k, v) == s + [Slot(k, v, false)]
    ensures |DeleteSlot(s, k)| == |ClearSlots(s)| == |s|
    ensures forall i :: 0 <= i < |s| ==>
              && DeleteSlot(s, k)[i] == Slot(s[i].key, s[i].value, s[i].removed || s[i].key == k)
              && ClearSlots(s)[i] == Slot(s[i].key, s[i].value, true)
  {
    FindFirst(s, k);
  }

  lemma {:induction false} FindUnique<K, V>(s: seq<Slot<K, V>>, k: K, i: nat)
    requires i <= |s| && Unique(s)
    requires i < |s| ==> !s[i].removed && s[i].key == k
    requires i == |s| ==> forall j :: 0 <= j < |s| ==> s[j].removed || s[j].key != k
    ensures Find(s, k) == i
  {
    FindFirst(s, k);
  }

  lemma {:induction false} FindNone<K, V>(s: seq<Slot<K, V>>, k: K)
    requires Gone(s, 0, |s|)
    ensures Find(s, k) == |s|
  {
    if s != [] {
      assert s[0].removed;
      FindNone(s[1..], k);
    }
  }

  /** The number of live slots. */
  function Live<K, V>(s: seq<Slot<K, V>>): nat {
    if s == [] then 0 else Live(s[..|s|-1]) + if s[|s|-1].removed then 0 else 1
  }

  lemma {:induction false} LiveUpdate<K, V>(s: seq<Slot<K, V>>, i: nat, x: Slot<K, V>)
    requires i < |s|
    ensures Live(s[i := x]) == Live(s) - (if s[i].removed then 0 else 1) + (if x.removed then 0 else 1)
  {
    var t := s[i := x];
    if i == |s| - 1 {
      assert t[..|s|-1] == s[..|s|-1];
    } else {
      LiveUpdate(s[..|s|-1], i, x);
      assert t[..|s|-1] == s[..|s|-1][i := x];
    }
  }

  lemma {:induction false} LiveNone<K, V>(s: seq<Slot<K, V>>)
    requires Gone(s, 0, |s|)
    ensures Live(s) == 0
  {
    if s != [] { LiveNone(s[..|s|-1]); }
  }

  // ------------------------------------------------------------- iteration under mutation

  datatype Op<K, V> = Set(k: K, v: V) | Delete(k: K) | Clear | Next

  /** A map with one iterator on it: slots passed, slots handed out in order, finished. */
  datatype Iteration<K, V> = Iteration(slots: seq<Slot<K, V>>, cursor: nat, visited: seq<nat>, done: bool)

  function Step<K(==), V>(x: Iteration<K, V>, op: Op<K, V>): Iteration<K, V>
    requires x.cursor <= |x.slots|
  {
    match op
    case Set(k, v) => x.(slots := SetSlot(x.slots, k, v))
    case Delete(k) => x.(slots := DeleteSlot(x.slots, k))
    case Clear => x.(slots := ClearSlots(x.slots))
    case Next =>
      if x.done then x
      else
        var j := NextLive(x.slots, x.cursor);
        if j < |x.slots| then x.(cursor := j + 1, visited := x.visited + [j])
        else x.(done := true)
  }

  /** `b` is reached from `a` by appending and removing: places keep their keys, and what is
    * removed stays removed. */
  ghost predicate Evolves<K, V>(a: seq<Slot<K, V>>, b: seq<Slot<K, V>>) {
    && |a| <= |b|
    && forall i :: 0 <= i < |a| ==> b[i].key == a[i].key && (a[i].removed ==> b[i].removed)
  }

  /** Handed out in insertion order and never twice; what the cursor passed was either handed
    * out or is removed. */
  ghost predicate Sound<K, V>(x: Iteration<K, V>) {
    && x.cursor <= |x.slots|
    && Unique(x.slots)
    && (forall a, b :: 0 <= a < b < |x.visited| ==> x.visited[a] < x.visited[b])
    && (forall a :: 0 <= a < |x.visited| ==> x.visited[a] < x.cursor)
    && (forall i :: 0 <= i < x.cursor ==> x.slots[i].removed || i in x.visited)
  }

  lemma {:induction false} SetKeepsUnique<K, V>(s: seq<Slot<K, V>>, k: K, v: V)
    requires Unique(s)
    ensures Unique(SetSlot(s, k, v)) && Evolves(s, SetSlot(s, k, v))
  {
    FindFirst(s, k);
  }

  lemma {:induction false} StepSound<K, V>(x: Iteration<K, V>, op: Op<K, V>)
    requires Sound(x)
    ensures Sound(Step(x, op)) && Evolves(x.slots, Step(x, op).slots)
    ensures x.visited <= Step(x, op).visited
  {
    match op
    case Set(k, v) => SetKeepsUnique(x.slots, k, v);
    case Delete(k) =>
    case Clear =>
    case Next =>
      var j := NextLive(x.slots, x.cursor);
      NextLiveFirst(x.slots, x.cursor);
      if !x.done && j < |x.slots| {
        var y := Step(x, op);
        forall i | 0 <= i < y.cursor ensures y.slots[i].removed || i in y.visited {
          if i == j { assert y.visited[|x.visited|] == j; }
          else if i < x.cursor { assert x.slots[i].removed || i in x.visited; }
        }
      }
  }

  function Steps<K(==), V>(x: Iteration<K, V>, ops: seq<Op<K, V>>): Iteration<K, V>
    requires Sound(x)
    ensures Sound(Steps(x, ops))
    decreases ops
  {
    if ops == [] then x
    else
      StepSound(x, ops[0]);
      Steps(Step(x, ops[0]), ops[1..])
  }

  /** From a new iterator, any interleaving of `set`, `delete`, `clear` and `next` hands out
    * slots in insertion order, each at most once, and skips only what is removed. */
  lemma {:induction false} IterationSound<K, V>(x: Iteration<K, V>, ops: seq<Op<K, V>>)
    requires Sound(x)
    ensures Sound(Steps(x, ops)) && x.visited <= Steps(x, ops).visited
    ensures Evolves(x.slots, Steps(x, ops).slots)
    decreases ops
  {
    if ops != [] {
      StepSound(x, ops[0]);
      IterationSound(Step(x, ops[0]), ops[1..]);
      EvolvesTransitive(x.slots, Step(x, ops[0]).slots, Steps(x, ops).slots);
    }
  }

  lemma {:induction false} EvolvesTransitive<K, V>(a: seq<Slot<K, V>>, b: seq<Slot<K, V>>, c: seq<Slot<K, V>>)
    requires Evolves(a, b) && Evolves(b, c)
    ensures Evolves(a, c)
  {
  }

  /** An entry that is live when the iteration finishes has been handed out, exactly once,
    * whenever it was added. */
  lemma {:induction false} FinishedMeansAll<K, V>(x: Iteration<K, V>, i: nat)
    requires Sound(x) && !x.done && Step(x, Next).done
    requires i < |x.slots| && !x.slots[i].removed
    ensures i in x.visited
    ensures forall a, b :: 0 <= a < |x.visited| && 0 <= b < |x.visited| && x.visited[a] == i == x.visited[b] ==> a == b
  {
    NextLiveFirst(x.slots, x.cursor);
  }

  /** A slot that the cursor has passed is never handed out (again), whatever happens next. */
  lemma {:induction false} PassedIsPast<K, V>(x: Iteration<K, V>, ops: seq<Op<K, V>>, a: nat)
    requires Sound(x)
    requires |x.visited| <= a < |Steps(x, ops).visited|
    ensures Steps(x, ops).visited[a] >= x.cursor
    decreases ops
  {
    if ops != [] {
      StepSound(x, ops[0]);
      var y := Step(x, ops[0]);
      IterationSound(y, ops[1..]);
      if a < |y.visited| {
        assert y.visited[a] == Steps(x, ops).visited[a];
      } else {
        PassedIsPast(y, ops[1..], a);
      }
    }
  }

  /** Deleted before it was reached: not handed out afterwards, even if its key is set again
    * (which makes a new entry at the end). */
  lemma {:induction false} RemovedIsSkipped<K, V>(x: Iteration<K, V>, ops: seq<Op<K, V>>, i: nat, a: nat)
    requires Sound(x) && i < |x.slots| && x.slots[i].removed
    requires |x.visited| <= a < |Steps(x, ops).visited|
    ensures Steps(x, ops).visited[a] != i
    decreases ops
  {
    if ops != [] {
      StepSound(x, ops[0]);
      var y := Step(x, ops[0]);
      IterationSound(y, ops[1..]);
      if a < |y.visited| {
        assert y.visited[a] == Steps(x, ops).visited[a];
      } else {
        RemovedIsSkipped(y, ops[1..], i, a);
      }
    }
  }
}
