/** The Map object: entries on the heap whose `p` pointers survive removal. */
module MapHeap {
  import opened Expressions
  import opened OrderedMap
  import opened LooseKeys

  class Entry<K, V> {
    const k: K
    var v: V
    var p: Entry?<K, V>
    var n: Entry?<K, V>
    var r: bool
    /** The place of this entry among all entries ever added. */
    ghost const idx: nat

    constructor (k: K, v: V, p: Entry?<K, V>, ghost idx: nat)
      ensures this.k == k && this.v == v && this.p == p && n == null && !r && this.idx == idx
    {
      this.k, this.v, this.p, n, r, this.idx := k, v, p, null, false, idx;
    }
  }

  /** The entry at a place, null for the place -1. */
  ghost function EntryOf<K, V>(hist: seq<Entry<K, V>>, i: int): Entry?<K, V> {
    if 0 <= i < |hist| then hist[i] else null
  }

  /** Where the pointers lead, as places: previous and next of every entry, and the two ends;
    * -1 stands for none. */
  datatype Links = Links(p: seq<int>, n: seq<int>, first: int, last: int)

  ghost predicate InRange(x: Links, size: nat) {
    && (forall i :: 0 <= i < |x.p| ==> -1 <= x.p[i] < size)
    && (forall i :: 0 <= i < |x.n| ==> -1 <= x.n[i] < size)
    && -1 <= x.first < size && -1 <= x.last < size
  }

  ghost predicate LiveAt<K, V>(s: seq<Slot<K, V>>, i: int) {
    0 <= i < |s| && !s[i].removed
  }

  /** Going back from place `i` one gets to `q`, with nothing live in between. */
  ghost predicate Back<K, V>(s: seq<Slot<K, V>>, q: int, i: int) {
    -1 <= q < i && Gone(s, q + 1, i)
  }

  /** Going on from before place `i` one gets to the live place `q`, the next one. */
  ghost predicate Ahead<K, V>(s: seq<Slot<K, V>>, q: int, i: int) {
    if q == -1 then Gone(s, i, |s|) else i <= q && LiveAt(s, q) && Gone(s, i, q)
  }

  /** The list invariant.  Following `p` from any entry, removed or not, skips only removed
    * ones; among live entries `p` and `n` are the neighbours. */
  ghost predicate Shape<K, V>(s: seq<Slot<K, V>>, x: Links) {
    && |x.p| == |x.n| == |s|
    && (forall i {:trigger x.p[i]} :: 0 <= i < |s| ==> Back(s, x.p[i], i))
    && (forall i {:trigger x.p[i]} :: 0 <= i < |s| && !s[i].removed && x.p[i] != -1 ==> LiveAt(s, x.p[i]))
    && (forall i {:trigger x.n[i]} :: 0 <= i < |s| && !s[i].removed ==> Ahead(s, x.n[i], i + 1))
    && Ahead(s, x.first, 0)
    && Back(s, x.last, |s|) && (x.last != -1 ==> LiveAt(s, x.last))
  }

  function AppendLinks(x: Links, size: nat): Links
    requires |x.p| == |x.n| == size && -1 <= x.last < size
  {
    Links(x.p + [x.last],
          (if x.last == -1 then x.n else x.n[x.last := size]) + [-1],
          if x.first == -1 then size else x.first,
          size)
  }

  lemma {:induction false} ShapeAppend<K, V>(s: seq<Slot<K, V>>, x: Links, slot: Slot<K, V>)
    requires Shape(s, x) && !slot.removed
    ensures Shape(s + [slot], AppendLinks(x, |s|))
  {
    var t, y := s + [slot], AppendLinks(x, |s|);
    forall i | 0 <= i < |s| && !s[i].removed ensures Ahead(t, y.n[i], i + 1) {
      assert Ahead(s, x.n[i], i + 1);
    }
    forall i | 0 <= i < |s| ensures Back(t, y.p[i], i) && (!t[i].removed && y.p[i] != -1 ==> LiveAt(t, y.p[i])) {
      assert Back(s, x.p[i], i);
    }
  }

  function DetachLinks(x: Links, d: nat): Links
    requires |x.p| == |x.n| && d < |x.p| && -1 <= x.p[d] < |x.p| && -1 <= x.n[d] < |x.p|
  {
    var prev, next := x.p[d], x.n[d];
    Links(if next == -1 then x.p else x.p[next := prev],
          if prev == -1 then x.n else x.n[prev := next],
          if x.first == d then next else x.first,
          if x.last == d then prev else x.last)
  }

  lemma {:induction false} ShapeDetach<K, V>(s: seq<Slot<K, V>>, x: Links, d: nat)
    requires Shape(s, x) && LiveAt(s, d)
    ensures -1 <= x.p[d] < |s| && -1 <= x.n[d] < |s|
    ensures Shape(s[d := s[d].(removed := true)], DetachLinks(x, d))
  {
    assert Back(s, x.p[d], d) && Ahead(s, x.n[d], d + 1);
    DetachBack(s, x, d);
    DetachAhead(s, x, d);
  }

  lemma {:induction false} DetachBack<K, V>(s: seq<Slot<K, V>>, x: Links, d: nat)
    requires Shape(s, x) && LiveAt(s, d) && -1 <= x.p[d] < |s| && -1 <= x.n[d] < |s|
    ensures var t, y := s[d := s[d].(removed := true)], DetachLinks(x, d);
            (forall i {:trigger y.p[i]} :: 0 <= i < |s| ==> Back(t, y.p[i], i)) &&
            (forall i {:trigger y.p[i]} :: 0 <= i < |s| && !t[i].removed && y.p[i] != -1 ==> LiveAt(t, y.p[i])) &&
            Back(t, y.last, |s|) && (y.last != -1 ==> LiveAt(t, y.last))
  {
    var t, y := s[d := s[d].(removed := true)], DetachLinks(x, d);
    assert Back(s, x.p[d], d) && Ahead(s, x.n[d], d + 1);
    forall i | 0 <= i < |s|
      ensures Back(t, y.p[i], i) && (!t[i].removed && y.p[i] != -1 ==> LiveAt(t, y.p[i]))
    {
      assert Back(s, x.p[i], i);
    }
  }

  lemma {:induction false} DetachAhead<K, V>(s: seq<Slot<K, V>>, x: Links, d: nat)
    requires Shape(s, x) && LiveAt(s, d) && -1 <= x.p[d] < |s| && -1 <= x.n[d] < |s|
    ensures var t, y := s[d := s[d].(removed := true)], DetachLinks(x, d);
            (forall i {:trigger y.n[i]} :: 0 <= i < |s| && !t[i].removed ==> Ahead(t, y.n[i], i + 1)) &&
            Ahead(t, y.first, 0)
  {
    var t, y := s[d := s[d].(removed := true)], DetachLinks(x, d);
    assert Back(s, x.p[d], d) && Ahead(s, x.n[d], d + 1);
    forall i | 0 <= i < |s| && !t[i].removed ensures Ahead(t, y.n[i], i + 1) {
      assert Ahead(s, x.n[i], i + 1);
    }
  }

  lemma {:induction false} FindSame<K, V>(s: seq<Slot<K, V>>, t: seq<Slot<K, V>>, k: K)
    requires |t| == |s|
    requires forall i :: 0 <= i < |s| ==> t[i].removed == s[i].removed && t[i].key == s[i].key
    ensures Find(t, k) == Find(s, k)
  {
    if s != [] { FindSame(s[1..], t[1..], k); }
  }

  lemma {:induction false} SameShape<K, V>(s: seq<Slot<K, V>>, t: seq<Slot<K, V>>, x: Links)
    requires Shape(s, x) && |t| == |s|
    requires forall i :: 0 <= i < |s| ==> t[i].removed == s[i].removed
    ensures Shape(t, x)
  {
    forall i | 0 <= i < |s| ensures Back(t, x.p[i], i) && (!t[i].removed ==> Ahead(t, x.n[i], i + 1)) {
      assert Back(s, x.p[i], i) && (!s[i].removed ==> Ahead(s, x.n[i], i + 1));
    }
  }

  ghost predicate Among<K, V>(hist: seq<Entry<K, V>>, repr: set<Entry<K, V>>) {
    forall i :: 0 <= i < |hist| ==> hist[i] in repr
  }

  /** Entries hold what their slots say. */
  ghost predicate Values<K, V>(hist: seq<Entry<K, V>>, repr: set<Entry<K, V>>, s: seq<Slot<K, V>>)
    reads repr`r, repr`v
  {
    && |hist| == |s| && Among(hist, repr)
    && (forall i {:trigger hist[i]} :: 0 <= i < |hist| ==> hist[i].idx == i && hist[i].k == s[i].key)
    && (forall i {:trigger hist[i].r} :: 0 <= i < |hist| ==> hist[i].r == s[i].removed)
    && (forall i {:trigger hist[i].v} :: 0 <= i < |hist| ==> hist[i].v == s[i].value)
  }

  /** Every `p` leads where `ps` says. */
  ghost predicate Preceding<K, V>(hist: seq<Entry<K, V>>, repr: set<Entry<K, V>>, ps: seq<int>)
    reads repr`p
  {
    && |hist| == |ps| && Among(hist, repr)
    && (forall i {:trigger hist[i].p} :: 0 <= i < |hist| ==> hist[i].p == EntryOf(hist, ps[i]))
  }

  /** Every live `n` leads where `ns` says. */
  ghost predicate Following<K, V>(hist: seq<Entry<K, V>>, repr: set<Entry<K, V>>, s: seq<Slot<K, V>>, ns: seq<int>)
    reads repr`n
  {
    && |hist| == |ns| == |s| && Among(hist, repr)
    && (forall i {:trigger hist[i].n} :: 0 <= i < |hist| && !s[i].removed ==> hist[i].n == EntryOf(hist, ns[i]))
  }

  /** The index has exactly the live fast keys. */
  ghost predicate Indexed<K, V>(index: map<K, Entry<K, V>>, hist: seq<Entry<K, V>>, s: seq<Slot<K, V>>, fast: K -> bool) {
    && |hist| == |s|
    && (forall k :: k in index ==> fast(k) && Find(s, k) < |s| && index[k] == hist[Find(s, k)])
    && (forall i :: 0 <= i < |s| && !s[i].removed && fast(s[i].key) ==> s[i].key in index)
  }

  lemma {:induction false} IndexedAppend<K, V>(index: map<K, Entry<K, V>>, hist: seq<Entry<K, V>>, s: seq<Slot<K, V>>, fast: K -> bool,
                            e: Entry<K, V>, k: K, v: V)
    requires Indexed(index, hist, s, fast) && Unique(s) && Find(s, k) == |s|
    ensures Unique(s + [Slot(k, v, false)])
    ensures Indexed(if fast(k) then index[k := e] else index, hist + [e], s + [Slot(k, v, false)], fast)
  {
    var t := s + [Slot(k, v, false)];
    FindFirst(s, k);
    forall x | x in index || x == k ensures Find(t, x) == if x == k then |s| else Find(s, x) {
      FindUnique(t, x, if x == k then |s| else Find(s, x));
    }
  }

  lemma {:induction false} IndexedDetach<K, V>(index: map<K, Entry<K, V>>, hist: seq<Entry<K, V>>, s: seq<Slot<K, V>>, fast: K -> bool, d: nat)
    requires Indexed(index, hist, s, fast) && Unique(s) && LiveAt(s, d)
    ensures Unique(s[d := s[d].(removed := true)])
    ensures Indexed(index - {s[d].key}, hist, s[d := s[d].(removed := true)], fast)
  {
    var t := s[d := s[d].(removed := true)];
    forall x | x in index && x != s[d].key ensures Find(t, x) == Find(s, x) {
      FindUnique(t, x, Find(s, x));
    }
  }

  lemma {:induction false} IndexedAssign<K, V>(index: map<K, Entry<K, V>>, hist: seq<Entry<K, V>>, s: seq<Slot<K, V>>, fast: K -> bool,
                            d: nat, v: V)
    requires Indexed(index, hist, s, fast) && Unique(s) && d < |s|
    ensures Unique(s[d := s[d].(value := v)])
    ensures Indexed(index, hist, s[d := s[d].(value := v)], fast)
  {
    forall x | x in index ensures Find(s[d := s[d].(value := v)], x) == Find(s, x) {
      FindSame(s, s[d := s[d].(value := v)], x);
    }
  }

  /** The slots once the loop of `clear` has reached place `a`. */
  ghost function ClearedTo<K, V>(s: seq<Slot<K, V>>, a: nat): seq<Slot<K, V>>
    requires a <= |s|
  {
    ClearSlots(s[..a]) + s[a..]
  }

  /** Up to place `a`, `p` pointers are as they were or cut. */
  ghost predicate ClearedLinks(was: seq<int>, now: seq<int>, a: nat) {
    && |was| == |now|
    && (forall i :: 0 <= i < |now| ==> now[i] == was[i] || now[i] == -1)
    && (forall i :: a <= i < |now| ==> now[i] == was[i])
  }

  /** The index holds only keys found at place `a` or later. */
  ghost predicate IndexFrom<K, V>(index: map<K, Entry<K, V>>, s: seq<Slot<K, V>>, a: nat) {
    forall k :: k in index ==> a <= Find(s, k) < |s|
  }

  lemma {:induction false} FirstPlace<K, V>(s: seq<Slot<K, V>>, x: Links)
    requires Shape(s, x)
    ensures NextLive(s, 0) == if x.first == -1 then |s| else x.first
    ensures ClearedTo(s, NextLive(s, 0)) == s
  {
    NextLiveIs(s, 0, if x.first == -1 then |s| else x.first);
    ClearedToSame(s, NextLive(s, 0));
  }

  lemma {:induction false} ClearedToSame<K, V>(s: seq<Slot<K, V>>, a: nat)
    requires a <= |s| && Gone(s, 0, a)
    ensures ClearedTo(s, a) == s
  {
    forall i | 0 <= i < a ensures ClearSlots(s[..a])[i] == s[i] {
      assert s[i].removed;
    }
  }

  /** Following `n` reads on from live slot to live slot. */
  ghost predicate ReadsOn<K, V>(s: seq<Slot<K, V>>, x: Links) {
    && |x.p| == |x.n| == |s|
    && NextLive(s, 0) == (if x.first == -1 then |s| else x.first)
    && ClearedTo(s, NextLive(s, 0)) == s
    && (forall a {:trigger LiveAt(s, a)} :: LiveAt(s, a) ==>
          -1 <= x.p[a] < a && NextLive(s, a + 1) == if x.n[a] == -1 then |s| else x.n[a])
  }

  lemma {:induction false} ShapeReadsOn<K, V>(s: seq<Slot<K, V>>, x: Links)
    requires Shape(s, x)
    ensures ReadsOn(s, x)
  {
    FirstPlace(s, x);
    forall a | LiveAt(s, a)
      ensures -1 <= x.p[a] < a && NextLive(s, a + 1) == if x.n[a] == -1 then |s| else x.n[a]
    {
      NextPlace(s, x, a);
    }
  }

  lemma {:induction false} IndexedFrom<K, V>(index: map<K, Entry<K, V>>, hist: seq<Entry<K, V>>, s: seq<Slot<K, V>>, fast: K -> bool)
    requires Indexed(index, hist, s, fast)
    ensures IndexFrom(index, s, NextLive(s, 0))
  {
    NextLiveFirst(s, 0);
  }

  lemma {:induction false} NextPlace<K, V>(s: seq<Slot<K, V>>, x: Links, a: nat)
    requires Shape(s, x) && LiveAt(s, a)
    ensures NextLive(s, a + 1) == if x.n[a] == -1 then |s| else x.n[a]
    ensures -1 <= x.p[a] < a
  {
    assert Ahead(s, x.n[a], a + 1) && Back(s, x.p[a], a);
    NextLiveIs(s, a + 1, if x.n[a] == -1 then |s| else x.n[a]);
  }

  lemma {:induction false} LiveNotSkipped<K, V>(s: seq<Slot<K, V>>, a: nat, f: nat)
    requires a < f && LiveAt(s, f)
    ensures NextLive(s, a + 1) <= f
  {
    NextLiveFirst(s, a + 1);
  }

  lemma {:induction false} IndexNext<K, V>(index: map<K, Entry<K, V>>, s: seq<Slot<K, V>>, a: nat)
    requires IndexFrom(index, s, a) && LiveAt(s, a)
    ensures IndexFrom(index - {s[a].key}, s, NextLive(s, a + 1))
  {
    var b := NextLive(s, a + 1);
    NextLiveFirst(s, a + 1);
    forall k | k in index && k != s[a].key ensures b <= Find(s, k) {
      assert Find(s, k) != a;
      LiveNotSkipped(s, a, Find(s, k));
    }
  }

  lemma {:induction false} ClearedStep<K, V>(s: seq<Slot<K, V>>, a: nat, b: nat)
    requires a < b <= |s| && Gone(s, a + 1, b)
    ensures ClearedTo(s, a)[a := s[a].(removed := true)] == ClearedTo(s, b)
  {
    assert forall i :: a < i < b ==> s[i].(removed := true) == s[i];
  }

  lemma {:induction false} ClearedAll<K, V>(s: seq<Slot<K, V>>, x: Links, y: Links, hist: seq<Entry<K, V>>, fast: K -> bool)
    requires |hist| == |s|
    requires Shape(s, x) && ClearedLinks(x.p, y.p, |s|) && y.n == x.n && y.first == -1 && y.last == -1
    ensures Indexed(map[], hist, ClearSlots(s), fast)
    ensures Shape(ClearSlots(s), y) && Unique(ClearSlots(s)) && Live(ClearSlots(s)) == 0
  {
    LiveNone(ClearSlots(s));
    forall i | 0 <= i < |s| ensures Back(ClearSlots(s), y.p[i], i) {
      assert Back(s, x.p[i], i);
    }
  }

  class StrongMap<K(==), V> {
    /** For which keys `fastKey` gives an index key; others are found by walking the list with the
      * loose comparison. */
    const rule: Lookups<K>
    var index: map<K, Entry<K, V>>
    var first: Entry?<K, V>
    var last: Entry?<K, V>
    var size: int
    /** All entries ever added, what they stand for, and where their pointers lead. */
    ghost var hist: seq<Entry<K, V>>
    ghost var slots: seq<Slot<K, V>>
    ghost var links: Links
    ghost var repr: set<Entry<K, V>>

    constructor (rule: Lookups<K>)
      ensures Valid() && slots == [] && this.rule == rule
    {
      this.rule, index, first, last, size := rule, map[], null, null, 0;
      hist, slots, links, repr := [], [], Links([], [], -1, -1), {};
    }

    /** The heap holds what the slots and the links say. */
    ghost predicate Mirrored()
      reads this`hist, this`slots, this`links, this`first, this`last, this`repr, repr
    {
      && |links.p| == |links.n| == |slots| && InRange(links, |slots|)
      && Values(hist, repr, slots) && Preceding(hist, repr, links.p) && Following(hist, repr, slots, links.n)
      && first == EntryOf(hist, links.first)
      && last == EntryOf(hist, links.last)
    }

    ghost predicate Valid()
      reads this, repr
    {
      && Mirrored() && Shape(slots, links) && Unique(slots)
      && Indexed(index, hist, slots, rule.fast)
      && size == Live(slots)
    }

    /** Where an iterator standing on `e` has got to. */
    ghost function Passed(e: Entry?<K, V>): nat {
      if e == null then 0 else e.idx + 1
    }

    /** The step shared by `forEach` and the iterators: back to the last entry that was not
      * removed, then on to the next one.  It finds the first live slot not yet passed. */
    method Advance(e: Entry?<K, V>) returns (next: Entry?<K, V>)
      requires Valid() && (e != null ==> e in hist)
      ensures next == EntryOf(hist, NextLive(slots, Passed(e)))
    {
      var at := e;
      while at != null && at.r
        invariant at != null ==> at in hist && at.idx < Passed(e)
        invariant Gone(slots, Passed(at), Passed(e))
        decreases Passed(at)
      {
        ghost var i := at.idx;
        assert at == hist[i] && Back(slots, links.p[i], i);
        at := at.p;
      }
      if at != null { assert at == hist[at.idx] && Ahead(slots, links.n[at.idx], at.idx + 1); }
      next := if at != null then at.n else first;
      NextLiveIs(slots, Passed(e), if next == null then |slots| else next.idx);
    }

    /** `getEntry`: by its index key, or else the first entry with a loosely equal key. */
    method GetEntry(k: K) returns (e: Entry?<K, V>)
      requires Valid()
      ensures e == EntryOf(hist, Find(slots, Meant(slots, rule, k)))
      ensures Told(slots, rule, k) <==> e == EntryOf(hist, Find(slots, k)) && (e != null ==> e.k == k)
    {
      LocatedIsMeant(slots, rule, k);
      MeantExactly(slots, rule, k);
      if rule.fast(k) {
        e := if k in index then index[k] else null;
        FindUnique(slots, k, if k in index then Find(slots, k) else |slots|);
        return;
      }
      e := first;
      ghost var at := if first == null then |slots| else first.idx;
      while e != null && !LooselyEqual(rule, e.k, k)
        invariant 0 <= at <= |slots| && e == EntryOf(hist, at) && (at < |slots| ==> LiveAt(slots, at))
        invariant forall j :: 0 <= j < at ==> slots[j].removed || !LooselyEqual(rule, slots[j].key, k)
        decreases |slots| - at
      {
        assert e == hist[at] && Ahead(slots, links.n[at], at + 1);
        e := e.n;
        at := if e == null then |slots| else e.idx;
      }
      assert FindLoose(slots, rule, k) == at;
    }

    /** `def`: a new key gets a new entry at the end. */
    method Def(k: K, v: V)
      requires Valid()
      modifies this, repr
      ensures Valid() && slots == SetSlot(old(slots), Meant(old(slots), rule, k), v)
      ensures Told(old(slots), rule, k) ==> slots == SetSlot(old(slots), k, v)
      ensures old(hist) <= hist && fresh(repr - old(repr))
    {
      MeantExactly(slots, rule, k);
      LocatedIsMeant(slots, rule, k);
      var e := GetEntry(k);
      if e != null {
        Assign(e, v);
      } else {
        Append(k, v);
      }
    }

    /** `def` of a key that has an entry: its value is replaced. */
    method Assign(e: Entry<K, V>, v: V)
      requires Valid() && e in hist
      modifies this`slots, e`v
      ensures Valid() && slots == old(slots)[e.idx := old(slots)[e.idx].(value := v)]
    {
      assert e == hist[e.idx];
      LiveUpdate(slots, e.idx, slots[e.idx].(value := v));
      SameShape(slots, slots[e.idx := slots[e.idx].(value := v)], links);
      IndexedAssign(index, hist, slots, rule.fast, e.idx, v);
      WriteValue(e, v);
    }

    method WriteValue(e: Entry<K, V>, v: V)
      requires Mirrored() && e in hist
      modifies this`slots, e`v
      ensures Mirrored() && slots == old(slots)[e.idx := old(slots)[e.idx].(value := v)]
    {
      assert e == hist[e.idx];
      slots := slots[e.idx := slots[e.idx].(value := v)];
      e.v := v;
    }

    /** The entry for a key that has none. */
    method Append(k: K, v: V)
      requires Valid() && Find(slots, k) == |slots|
      modifies this, repr
      ensures Valid() && slots == old(slots) + [Slot(k, v, false)]
      ensures old(hist) <= hist && fresh(repr - old(repr))
    {
      ShapeAppend(slots, links, Slot(k, v, false));
      assert (slots + [Slot(k, v, false)])[..|slots|] == slots;
      ghost var s, h, x := slots, hist, index;
      var e := Add(k, v);
      IndexedAppend(x, h, s, rule.fast, e, k, v);
    }

    /** All the writes of `def` for a new key. */
    method Add(k: K, v: V) returns (e: Entry<K, V>)
      requires Mirrored()
      modifies this`first, this`last, this`hist, this`slots, this`links, this`repr, this`index, this`size, repr
      ensures Mirrored() && hist == old(hist) + [e] && fresh(repr - old(repr))
      ensures slots == old(slots) + [Slot(k, v, false)] && links == AppendLinks(old(links), |old(slots)|)
      ensures index == (if rule.fast(k) then old(index)[k := e] else old(index)) && size == old(size) + 1
    {
      e := LinkNew(k, v);
      size := size + 1;
      if rule.fast(k) { index := index[k := e]; }
    }

    /** Writes the next pointer of an entry, if there is one; `a` and `q` are the places of the two. */
    method SetNext(at: Entry?<K, V>, to: Entry?<K, V>, ghost a: int, ghost q: int)
      requires Values(hist, repr, slots) && Following(hist, repr, slots, links.n)
      requires -1 <= a < |hist| && at == EntryOf(hist, a) && to == EntryOf(hist, q)
      modifies this`links, repr`n
      ensures links == old(links).(n := if a == -1 then old(links.n) else old(links.n)[a := q])
      ensures Following(hist, repr, slots, links.n)
    {
      if at != null {
        at.n := to;
        links := links.(n := links.n[a := q]);
      }
    }

    /** Writes the previous pointer of an entry, if there is one. */
    method SetPrevious(at: Entry?<K, V>, to: Entry?<K, V>, ghost a: int, ghost q: int)
      requires Values(hist, repr, slots) && Preceding(hist, repr, links.p)
      requires -1 <= a < |hist| && at == EntryOf(hist, a) && to == EntryOf(hist, q)
      modifies this`links, repr`p
      ensures links == old(links).(p := if a == -1 then old(links.p) else old(links.p)[a := q])
      ensures Preceding(hist, repr, links.p)
    {
      if at != null {
        at.p := to;
        links := links.(p := links.p[a := q]);
      }
    }

    /** The new entry of `def`, not yet reachable from the others. */
    method NewEntry(k: K, v: V) returns (e: Entry<K, V>)
      requires Mirrored()
      modifies this`hist, this`slots, this`links, this`repr
      ensures fresh(e) && repr == old(repr) + {e} && hist == old(hist) + [e] && slots == old(slots) + [Slot(k, v, false)]
      ensures links == old(links).(p := old(links.p) + [old(links.last)], n := old(links.n) + [-1])
      ensures Values(hist, repr, slots) && Preceding(hist, repr, links.p) && Following(hist, repr, slots, links.n)
      ensures forall i :: -1 <= i < |old(hist)| ==> EntryOf(hist, i) == EntryOf(old(hist), i)
    {
      ghost var h, x := hist, links;
      e := new Entry(k, v, last, |hist|);
      hist := h + [e];
      repr := repr + {e};
      slots := slots + [Slot(k, v, false)];
      links := x.(p := x.p + [x.last], n := x.n + [-1]);
      forall i | 0 <= i < |h|
        ensures hist[i].p == EntryOf(hist, links.p[i])
        ensures !slots[i].removed ==> hist[i].n == EntryOf(hist, links.n[i])
      {
        assert hist[i] == h[i] && old(h[i].p) == EntryOf(h, x.p[i]);
      }
    }

    /** The pointer part of `def`. */
    method LinkNew(k: K, v: V) returns (e: Entry<K, V>)
      requires Mirrored()
      modifies this`first, this`last, this`hist, this`slots, this`links, this`repr, repr`n
      ensures Mirrored() && fresh(e) && repr == old(repr) + {e} && hist == old(hist) + [e]
      ensures slots == old(slots) + [Slot(k, v, false)] && links == AppendLinks(old(links), |old(slots)|)
    {
      hide Values, Preceding, Following;
      ghost var size, x := |hist|, links;
      var was := last;
      e := NewEntry(k, v);
      MoveEnds(e, size);
      SetNext(was, e, x.last, size);
    }

    /** The new entry at place `d` becomes the last, and the first if there was none. */
    method MoveEnds(e: Entry<K, V>, ghost d: nat)
      requires d < |hist| && e == hist[d]
      requires -1 <= links.first < |hist| && first == EntryOf(hist, links.first)
      modifies this`first, this`last, this`links
      ensures links == old(links).(first := if old(links.first) == -1 then d else old(links.first), last := d)
      ensures first == EntryOf(hist, links.first) && last == EntryOf(hist, links.last)
    {
      last := e;
      if first == null { first := e; }
      links := links.(first := if links.first == -1 then d else links.first, last := d);
    }

    /** `delete`: marks the entry, which keeps its own pointers. */
    method Delete(k: K) returns (found: bool)
      requires Valid()
      modifies this, repr
      ensures Valid() && hist == old(hist) && repr == old(repr)
      ensures slots == DeleteSlot(old(slots), Meant(old(slots), rule, k))
      ensures found == (Lookup(old(slots), Meant(old(slots), rule, k)).Some?)
      ensures Told(old(slots), rule, k) ==> slots == DeleteSlot(old(slots), k) && found == (Lookup(old(slots), k).Some?)
    {
      MeantExactly(slots, rule, k);
      LocatedIsMeant(slots, rule, k);
      var e := GetEntry(k);
      found := e != null;
      if e != null {
        Detach(e);
      }
    }

    method Detach(e: Entry<K, V>)
      requires Valid() && e in hist && !e.r
      modifies this, repr
      ensures Valid() && hist == old(hist) && repr == old(repr) && slots == old(slots)[e.idx := old(slots)[e.idx].(removed := true)]
    {
      ghost var d := e.idx;
      assert e == hist[d];
      ShapeDetach(slots, links, d);
      LiveUpdate(slots, d, slots[d].(removed := true));
      IndexedDetach(index, hist, slots, rule.fast, d);
      Drop(e, d);
    }

    /** All the writes of `delete`. */
    method Drop(e: Entry<K, V>, ghost d: nat)
      requires Mirrored() && d < |hist| && e == hist[d] && !e.r
      requires -1 <= links.p[d] < d && (links.n[d] == -1 || d < links.n[d] < |hist|)
      modifies this`first, this`last, this`slots, this`links, this`index, this`size, repr
      ensures Mirrored() && slots == old(slots)[d := old(slots)[d].(removed := true)]
      ensures links == DetachLinks(old(links), d)
      ensures index == old(index) - {old(slots)[d].key} && size == old(size) - 1
    {
      index := index - {e.k};
      Unlink(e, d);
      size := size - 1;
    }

    /** Marks an entry as removed. */
    method Mark(e: Entry<K, V>, ghost d: nat)
      requires Values(hist, repr, slots) && Following(hist, repr, slots, links.n) && d < |hist| && e == hist[d]
      modifies this`slots, e`r
      ensures slots == old(slots)[d := old(slots)[d].(removed := true)]
      ensures Values(hist, repr, slots) && Following(hist, repr, slots, links.n)
    {
      e.r := true;
      slots := slots[d := slots[d].(removed := true)];
    }

    lemma {:induction false} Neighbours(d: nat)
      requires Mirrored() && d < |hist| && !hist[d].r
      ensures hist[d].n == EntryOf(hist, links.n[d]) && hist[d].p == EntryOf(hist, links.p[d])
      ensures d < |links.p| == |links.n| == |slots|
      ensures -1 <= links.first < |hist| == |slots| && -1 <= links.last < |hist|
      ensures -1 <= links.p[d] < |slots| && -1 <= links.n[d] < |slots|
      ensures InRange(DetachLinks(links, d), |slots|)
    {
    }

    /** The pointer part of `delete`. */
    method Unlink(e: Entry<K, V>, ghost d: nat)
      requires Mirrored() && d < |hist| && e == hist[d] && !e.r
      requires -1 <= links.p[d] < d && (links.n[d] == -1 || d < links.n[d] < |hist|)
      modifies this`first, this`last, this`slots, this`links, repr`n, repr`p, e`r
      ensures Mirrored() && slots == old(slots)[d := old(slots)[d].(removed := true)]
      ensures links == DetachLinks(old(links), d)
    {
      hide Values, Preceding, Following, InRange, EntryOf, Among;
      ghost var x := links;
      var next, prev := e.n, e.p;
      Neighbours(d);
      Mark(e, d);
      SetNext(prev, next, x.p[d], x.n[d]);
      SetPrevious(next, prev, x.n[d], x.p[d]);
      DropEnds(e, next, prev, d, x.n[d], x.p[d]);
    }

    /** The two ends move off the entry at place `d`. */
    method DropEnds(e: Entry<K, V>, next: Entry?<K, V>, prev: Entry?<K, V>, ghost d: nat, ghost a: int, ghost b: int)
      requires Values(hist, repr, slots) && d < |hist| && e == hist[d]
      requires next == EntryOf(hist, a) && prev == EntryOf(hist, b)
      requires -1 <= links.first < |hist| && -1 <= links.last < |hist|
      requires first == EntryOf(hist, links.first) && last == EntryOf(hist, links.last)
      modifies this`first, this`last, this`links
      ensures links == old(links).(first := if old(links.first) == d then a else old(links.first),
                                   last := if old(links.last) == d then b else old(links.last))
      ensures first == EntryOf(hist, links.first) && last == EntryOf(hist, links.last)
    {
      if first == e { first := next; }
      if last == e { last := prev; }
      links := links.(first := if links.first == d then a else links.first,
                      last := if links.last == d then b else links.last);
    }

    /** One turn of the loop of `clear`, on the live entry at place `a`. */
    method Wipe(e: Entry<K, V>, ghost a: nat)
      requires Values(hist, repr, slots) && Preceding(hist, repr, links.p) && Following(hist, repr, slots, links.n)
      requires a < |hist| && e == hist[a]
      requires -1 <= links.p[a] < a && (links.p[a] != -1 ==> slots[links.p[a]].removed)
      modifies this`slots, this`links, repr`r, repr`n, repr`p
      ensures slots == old(slots)[a := old(slots)[a].(removed := true)]
      ensures links == old(links).(p := old(links).p[a := -1]) && e.n == old(e.n)
      ensures Values(hist, repr, slots) && Preceding(hist, repr, links.p) && Following(hist, repr, slots, links.n)
    {
      Mark(e, a);
      if e.p != null {
        e.p.n := null;
        e.p := null;
      }
      links := links.(p := links.p[a := -1]);
    }

    /** `clear`: every live entry is marked and cut loose, so cursors on them fall back to the
      * front of the list. */
    method Clear()
      requires Valid()
      modifies this, repr
      ensures Valid() && hist == old(hist) && repr == old(repr) && slots == ClearSlots(old(slots))
    {
      hide Shape, Unique, IndexFrom, ReadsOn, Indexed, ClearSlots, ClearedLinks, InRange, Values, Preceding, Following;
      ghost var s, x := slots, links;
      ClearStarts();
      ClearAll();
      ClearedAll(s, x, links, hist, rule.fast);
    }

    lemma {:induction false} ClearStarts()
      requires Valid()
      ensures ReadsOn(slots, links) && IndexFrom(index, slots, NextLive(slots, 0)) && |hist| == |slots|
    {
      hide InRange, Preceding, Following;
      IndexedFrom(index, hist, slots, rule.fast);
      ShapeReadsOn(slots, links);
    }

    /** All the writes of `clear`. */
    method ClearAll()
      requires Mirrored() && ReadsOn(slots, links) && IndexFrom(index, slots, NextLive(slots, 0))
      modifies this`size, this`first, this`last, this`slots, this`links, this`index, repr
      ensures Mirrored() && size == 0 && index == map[] && slots == ClearSlots(old(slots))
      ensures links.n == old(links.n) && links.first == -1 && links.last == -1
      ensures ClearedLinks(old(links.p), links.p, |old(slots)|)
    {
      WipeAll();
      Reset();
    }

    /** The writes after the loop of `clear`. */
    method Reset()
      requires |links.p| == |links.n| == |slots| && InRange(links, |slots|)
      requires Values(hist, repr, slots) && Preceding(hist, repr, links.p) && Following(hist, repr, slots, links.n)
      modifies this`size, this`first, this`last, this`links
      ensures Mirrored() && size == 0 && links == old(links).(first := -1, last := -1)
    {
      first, last := null, null;
      size := 0;
      links := links.(first := -1, last := -1);
    }

    /** The loop of `clear` on slots `s` and links `x` has reached place `a`. */
    ghost predicate Clearing(s: seq<Slot<K, V>>, x: Links, a: nat)
      reads this`hist, this`slots, this`links, this`index, this`repr, repr
    {
      && a <= |s| && slots == ClearedTo(s, a)
      && links == x.(p := links.p) && ClearedLinks(x.p, links.p, a)
      && Values(hist, repr, slots) && Preceding(hist, repr, links.p) && Following(hist, repr, slots, links.n)
      && IndexFrom(index, s, a)
    }

    method WipeStep(e: Entry<K, V>, ghost s: seq<Slot<K, V>>, ghost x: Links, ghost a: nat) returns (next: Entry?<K, V>, ghost b: nat)
      requires Clearing(s, x, a) && a < |s| && LiveAt(s, a) && e == EntryOf(hist, a)
      requires -1 <= x.p[a] < a && NextLive(s, a + 1) == if x.n[a] == -1 then |s| else x.n[a]
      modifies this`slots, this`links, this`index, repr
      ensures a < b <= |s| && Clearing(s, x, b) && next == EntryOf(hist, b) && b == NextLive(s, a + 1)
    {
      b := NextLive(s, a + 1);
      NextLiveFirst(s, a + 1);
      IndexNext(index, s, a);
      ClearedStep(s, a, b);
      Wipe(e, a);
      index := index - {e.k};
      next := e.n;
    }

    lemma {:induction false} StartClearing()
      requires Mirrored() && ReadsOn(slots, links) && IndexFrom(index, slots, NextLive(slots, 0))
      ensures Clearing(slots, links, NextLive(slots, 0)) && first == EntryOf(hist, NextLive(slots, 0))
      ensures |hist| == |slots|
    {
    }

    lemma {:induction false} EndClearing(s: seq<Slot<K, V>>, x: Links)
      requires Clearing(s, x, |s|)
      ensures Values(hist, repr, slots) && Preceding(hist, repr, links.p) && Following(hist, repr, slots, links.n)
      ensures slots == ClearSlots(s) && index == map[]
      ensures links == x.(p := links.p) && ClearedLinks(x.p, links.p, |s|)
    {
      assert s[..|s|] == s;
      assert forall k :: k !in index;
    }

    lemma {:induction false} ReadOn(s: seq<Slot<K, V>>, x: Links, a: nat)
      requires ReadsOn(s, x) && LiveAt(s, a)
      ensures |x.p| == |x.n| == |s|
      ensures -1 <= x.p[a] < a && NextLive(s, a + 1) == if x.n[a] == -1 then |s| else x.n[a]
    {
    }

    method WipeAll()
      requires Mirrored() && ReadsOn(slots, links) && IndexFrom(index, slots, NextLive(slots, 0))
      modifies this`slots, this`links, this`index, repr
      ensures Values(hist, repr, slots) && Preceding(hist, repr, links.p) && Following(hist, repr, slots, links.n)
      ensures slots == ClearSlots(old(slots)) && index == map[]
      ensures links == old(links).(p := links.p) && ClearedLinks(old(links.p), links.p, |old(slots)|)
    {
      hide Mirrored, Clearing, ReadsOn, IndexFrom, Values, Preceding, Following, ClearSlots, ClearedTo, ClearedLinks;
      ghost var s, x := slots, links;
      StartClearing();
      var e := first;
      ghost var a := NextLive(s, 0);
      while e != null
        invariant Clearing(s, x, a) && e == EntryOf(hist, a) && a <= |s| && (a < |s| ==> LiveAt(s, a))
        decreases |s| - a
      {
        ReadOn(s, x, a);
        e, a := WipeStep(e, s, x, a);
      }
      EndClearing(s, x);
    }
  }

  lemma {:induction false} NextLiveIs<K, V>(s: seq<Slot<K, V>>, c: nat, i: nat)
    requires c <= i <= |s| && Gone(s, c, i) && (i < |s| ==> !s[i].removed)
    ensures NextLive(s, c) == i
    decreases i - c
  {
    if c < i { NextLiveIs(s, c + 1, i); }
  }

  /** `forEach` and the iterators of one map: the entry last handed out, if still iterating. */
  class Cursor<K(==), V> {
    const of: StrongMap<K, V>
    var at: Entry?<K, V>
    var done: bool

    constructor (of: StrongMap<K, V>)
      ensures this.of == of && at == null && !done
    {
      this.of, at, done := of, null, false;
    }

    /** This cursor is where the simple iteration `x` is. */
    ghost predicate Stands(x: Iteration<K, V>)
      reads this, of, of.repr
    {
      && of.Valid() && x.slots == of.slots && x.done == done
      && (at != null ==> at in of.hist && at.idx < |of.hist|)
      && x.cursor == of.Passed(at) <= |x.slots|
    }

    /** One call of `next`: hands out the entry the simple form hands out. */
    method Next(ghost x: Iteration<K, V>) returns (e: Entry?<K, V>)
      requires Stands(x)
      modifies this
      ensures Stands(Step(x, Op.Next))
      ensures e != null ==> e.idx == NextLive(x.slots, x.cursor)
      ensures e == (if !x.done && NextLive(x.slots, x.cursor) < |x.slots| then of.hist[NextLive(x.slots, x.cursor)] else null)
    {
      if done {
        return null;
      }
      e := of.Advance(at);
      if e != null { at := e; } else { done := true; }
    }
  }

  /** One operation on the map or the cursor; the entry handed out by `next`, if any. */
  method Perform<K(==), V>(c: Cursor<K, V>, op: Op<K, V>, ghost x: Iteration<K, V>) returns (e: Entry?<K, V>)
    requires c.Stands(x)
    modifies c, c.of, c.of.repr
    ensures c.Stands(Step(x, Intended(x.slots, c.of.rule, op)))
    ensures old(c.of.hist) <= c.of.hist && fresh(c.of.repr - old(c.of.repr))
    ensures Step(x, Intended(x.slots, c.of.rule, op)).visited == x.visited + (if e == null then [] else [e.idx])
  {
    hide Shape, Unique, Indexed, Values, Preceding, Following, Meant, Told;
    e := null;
    match op {
      case Set(key, v) => c.of.Def(key, v);
      case Delete(key) => var _ := c.of.Delete(key);
      case Clear => c.of.Clear();
      case Next => e := c.Next(x);
    }
  }

  /** Runs any interleaving of mutations and `next` calls on the heap.  What the iterator hands
    * out are the entries at the places the simple form visits. */
  method Replay<K(==), V>(c: Cursor<K, V>, ops: seq<Op<K, V>>, ghost x: Iteration<K, V>) returns (out: seq<Entry<K, V>>)
    requires c.Stands(x) && Sound(x)
    modifies c, c.of, c.of.repr
    ensures c.Stands(Steps(x, IntendedAll(x, c.of.rule, ops)))
    ensures Steps(x, IntendedAll(x, c.of.rule, ops)).visited == x.visited + Places(out)
    ensures AllTold(x, c.of.rule, ops) ==> c.Stands(Steps(x, ops)) && Steps(x, ops).visited == x.visited + Places(out)
    decreases ops
  {
    hide Sound, Intended, AllTold, IntendedAll, Step, Cursor.Stands, StrongMap.Valid, Steps;
    RunAsAsked(x, c.of.rule, ops);
    out := [];
    if ops == [] {
      NothingIntended(x, c.of.rule, ops);
    } else {
      IntendedNext(x, c.of.rule, ops);
      var e := Perform(c, ops[0], x);
      var rest := Replay(c, ops[1..], Step(x, Intended(x.slots, c.of.rule, ops[0])));
      out := if e == null then rest else [e] + rest;
      PlacesMore(x.visited, e, rest);
    }
  }

  lemma {:induction false} NothingIntended<K, V>(x: Iteration<K, V>, rule: Lookups<K>, ops: seq<Op<K, V>>)
    requires Sound(x) && ops == []
    ensures Steps(x, IntendedAll(x, rule, ops)) == x && x.visited + Places<K, V>([]) == x.visited
  {
  }

  lemma {:induction false} PlacesMore<K, V>(visited: seq<nat>, e: Entry?<K, V>, rest: seq<Entry<K, V>>)
    ensures visited + (if e == null then [] else [e.idx]) + Places(rest)
         == visited + Places(if e == null then rest else [e] + rest)
  {
    if e != null { assert ([e] + rest)[1..] == rest; }
  }

  ghost function Places<K, V>(out: seq<Entry<K, V>>): seq<nat> {
    if out == [] then [] else [out[0].idx] + Places(out[1..])
  }
}
