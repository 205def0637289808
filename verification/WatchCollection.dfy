/** The comparison function of `$watchCollection`: it keeps a shallow copy of the collection it saw
  * last, the number of its elements, and counts changes. */
module WatchCollection {
  import opened Sequences

  /** Property names: all that matters is which are the same. */
  type Name = int

  /** An element; `NaN` is the one value not equal to itself.  `Val` stands for everything else,
    * objects as references. */
  datatype Element<T> = NaN | Missing | Val(v: T)

  /** What every object inherits under a name.  A write to most of these names makes an own one; the
    * setter of `__proto__` stores nothing of a primitive. */
  datatype Given<T> = Given(value: Element<T>, stored: bool)

  /** What the watched expression may give: `undefined`, another value that is no object, an array or
    * something like one, or an object. */
  datatype Collection<T> = Undefined | Simple(e: Element<T>) | Items(items: seq<Element<T>>) | Fields(fields: map<Name, Element<T>>)

  /** The copy (`Undefined` before anything was seen), `oldLength` and the change counter. */
  datatype Copy<T> = Copy(shadow: Collection<T>, oldLength: int, changes: nat)

  /** `===`; for elements the code adds that `NaN` is like `NaN`, which is plain equality here. */
  predicate StrictEqual<T(==)>(h: Element<T>, g: Element<T>) {
    h == g && !h.NaN?
  }

  // -------------------------------------------------------------------------- what one call does

  /** Setting `length`: cuts the copy off or fills it up. */
  function Resized<T>(s: seq<Element<T>>, n: nat): (r: seq<Element<T>>)
    ensures |r| == n
  {
    if n <= |s| then s[..n] else s + seq(n - |s|, _ => Missing)
  }

  function Differences<T(==)>(a: seq<Element<T>>, b: seq<Element<T>>): nat
    requires |a| == |b|
  {
    if a == [] then 0
    else Differences(a[..|a| - 1], b[..|a| - 1]) + (if a[|a| - 1] == b[|a| - 1] then 0 else 1)
  }

  function SeeItems<T(==)>(c: Copy<T>, items: seq<Element<T>>): Copy<T> {
    var other := !c.shadow.Items?;
    var was, length := if other then [] else c.shadow.items, if other then 0 else c.oldLength;
    Copy(Items(items), |items|,
         c.changes + (if other then 1 else 0) + (if length == |items| then 0 else 1) +
         Differences(Resized(was, |items|), items))
  }

  function SeeSimple<T(==)>(c: Copy<T>, e: Element<T>): Copy<T> {
    if c.shadow.Simple? && StrictEqual(c.shadow.e, e) then c
    else Copy(Simple(e), c.oldLength, c.changes + 1)
  }

  /** An own name of the object that the copy has with the same value; `b in f` also finds what
    * every object inherits. */
  predicate Found<T(==)>(was: map<Name, Element<T>>, inherited: map<Name, Given<T>>, b: Name, g: Element<T>) {
    if b in was then was[b] == g else b in inherited && inherited[b].value == g
  }

  /** The names among `names` whose values the copy does not have. */
  function ChangedNames<T(==)>(was: map<Name, Element<T>>, inherited: map<Name, Given<T>>, e: map<Name, Element<T>>,
                               names: set<Name>): set<Name> {
    set b | b in names && b in e && !Found(was, inherited, b, e[b])
  }

  /** A write to the name ends up in the copy. */
  predicate Stores<T>(was: map<Name, Element<T>>, inherited: map<Name, Given<T>>, b: Name) {
    b in was || (b in inherited ==> inherited[b].stored)
  }

  /** The copy with those written over it. */
  function Merged<T(==)>(was: map<Name, Element<T>>, inherited: map<Name, Given<T>>, e: map<Name, Element<T>>,
                         names: set<Name>): map<Name, Element<T>> {
    was + map b | b in ChangedNames(was, inherited, e, names) && Stores(was, inherited, b) :: e[b]
  }

  /** The names that are counted as new. */
  function Added<T>(was: map<Name, Element<T>>, inherited: map<Name, Given<T>>, names: set<Name>): set<Name> {
    names - was.Keys - inherited.Keys
  }

  /** What deleting leaves: the names the object has. */
  function Kept<T>(m: map<Name, Element<T>>, names: set<Name>): map<Name, Element<T>> {
    map b | b in m && b in names :: m[b]
  }

  /** `delete f[b]`. */
  function Dropped<T>(f: map<Name, Element<T>>, b: Name): map<Name, Element<T>> {
    map k | k in f && k != b :: f[k]
  }

  /** From a copy of an object, its length and the counter. */
  function SeeFrom<T(==)>(was: map<Name, Element<T>>, length: int, l: nat, inherited: map<Name, Given<T>>,
                          e: map<Name, Element<T>>): Copy<T> {
    var m := Merged(was, inherited, e, e.Keys);
    var t := length + |Added(was, inherited, e.Keys)|;
    var k := l + |ChangedNames(was, inherited, e, e.Keys)|;
    if t > |e| then Copy(Fields(Kept(m, e.Keys)), t - |m.Keys - e.Keys|, k + 1) else Copy(Fields(m), t, k)
  }

  function SeeFields<T(==)>(c: Copy<T>, inherited: map<Name, Given<T>>, e: map<Name, Element<T>>): Copy<T> {
    if c.shadow.Fields? then SeeFrom(c.shadow.fields, c.oldLength, c.changes, inherited, e)
    else SeeFrom(map[], 0, c.changes + 1, inherited, e)
  }

  /** `undefined` leaves everything as it is. */
  function See<T(==)>(c: Copy<T>, inherited: map<Name, Given<T>>, v: Collection<T>): Copy<T> {
    match v
    case Undefined => c
    case Simple(e) => SeeSimple(c, e)
    case Items(items) => SeeItems(c, items)
    case Fields(e) => SeeFields(c, inherited, e)
  }

  // ------------------------------------------------------------------------------- exactness

  /** The object has no own name that every object inherits. */
  predicate Clean<T>(v: Collection<T>, inherited: map<Name, Given<T>>) {
    v.Fields? ==> v.fields.Keys !! inherited.Keys
  }

  /** The copy is what was seen last, and the length its size. */
  predicate Exact<T(==)>(c: Copy<T>, seen: Collection<T>) {
    && c.shadow == seen
    && (seen.Items? ==> c.oldLength == |seen.items|)
    && (seen.Fields? ==> c.oldLength == |seen.fields|)
  }

  lemma {:induction false} DifferencesNone<T>(a: seq<Element<T>>, b: seq<Element<T>>)
    requires |a| == |b|
    ensures Differences(a, b) == 0 <==> a == b
  {
    if a != [] {
      var n := |a| - 1;
      DifferencesNone(a[..n], b[..n]);
      assert a == a[..n] + [a[n]] && b == b[..n] + [b[n]];
    }
  }

  lemma {:induction false} SubsetFull<K>(a: set<K>, b: set<K>)
    requires a <= b
    ensures |a| <= |b| && (|a| == |b| ==> a == b)
  {
    SubsetSize(a, b);
    if a != b {
      var x :| x in b && x !in a;
      SubsetSize(a, b - {x});
    }
  }

  lemma {:induction false} SubsetSize<K>(a: set<K>, b: set<K>)
    requires a <= b
    ensures |a| <= |b|
    decreases a
  {
    if a != {} {
      var x :| x in a;
      SubsetSize(a - {x}, b - {x});
    }
  }

  lemma {:induction false} MergedClean<T>(was: map<Name, Element<T>>, inherited: map<Name, Given<T>>, e: map<Name, Element<T>>)
    requires was.Keys !! inherited.Keys && e.Keys !! inherited.Keys
    ensures Merged(was, inherited, e, e.Keys) == was + e
    ensures |ChangedNames(was, inherited, e, e.Keys)| == 0 <==> was + e == was
  {
    var changed := ChangedNames(was, inherited, e, e.Keys);
    forall b | b in e ensures b in changed <==> !(b in was && was[b] == e[b]) {
    }
    if changed == {} {
      forall b | b in e ensures b in was && was[b] == e[b] { assert b !in changed; }
      assert was + e == was;
    } else {
      var b :| b in changed;
      assert (was + e)[b] == e[b];
    }
  }

  lemma {:induction false} MergedSizes<T>(was: map<Name, Element<T>>, inherited: map<Name, Given<T>>, e: map<Name, Element<T>>)
    requires was.Keys !! inherited.Keys && e.Keys !! inherited.Keys
    ensures |was| + |Added(was, inherited, e.Keys)| == |was + e|
    ensures |was + e| - |(was + e).Keys - e.Keys| == |e|
    ensures |was + e| >= |e| && (|was + e| == |e| ==> was + e == e)
  {
    hide Added;
    var m := was + e;
    MergedKeys(was, e);
    SetSizes(was.Keys, inherited.Keys, e.Keys, m.Keys);
    AddedIs(was, inherited, e.Keys);
    if |m| == |e| { SameKeys(was, e); }
  }

  lemma {:induction false} AddedIs<T>(was: map<Name, Element<T>>, inherited: map<Name, Given<T>>, names: set<Name>)
    ensures Added(was, inherited, names) == names - was.Keys - inherited.Keys
  {
  }

  lemma {:induction false} SetSizes<K>(w: set<K>, i: set<K>, e: set<K>, m: set<K>)
    requires w !! i && e !! i && m == w + e
    ensures |w| + |e - w - i| == |m| && |m| - |m - e| == |e| && |e| <= |m| && (|m| == |e| ==> m == e)
  {
    Union(w, e - w - i, m);
    Union(e, m - e, m);
    SubsetFull(e, m);
  }

  lemma {:induction false} MergedKeys<T>(was: map<Name, Element<T>>, e: map<Name, Element<T>>)
    ensures (was + e).Keys == was.Keys + e.Keys
  {
  }

  lemma {:induction false} Union<K>(a: set<K>, b: set<K>, c: set<K>)
    requires a !! b && c == a + b
    ensures |c| == |a| + |b|
  {
  }

  lemma {:induction false} SameKeys<T>(was: map<Name, Element<T>>, e: map<Name, Element<T>>)
    requires (was + e).Keys == e.Keys
    ensures was + e == e
  {
  }

  lemma {:induction false} Restricted<T>(was: map<Name, Element<T>>, e: map<Name, Element<T>>)
    ensures Kept(was + e, e.Keys) == e
  {
  }

  /** Without inherited names, merging is overwriting, and deletion is found by counting. */
  lemma {:induction false} SeeFromExactly<T>(was: map<Name, Element<T>>, l: nat, inherited: map<Name, Given<T>>, e: map<Name, Element<T>>)
    requires was.Keys !! inherited.Keys && e.Keys !! inherited.Keys
    ensures var d := SeeFrom(was, |was|, l, inherited, e);
            Exact(d, Fields(e)) && d.changes >= l && (d.changes > l <==> e != was)
  {
    hide Merged, ChangedNames, Added, Kept;
    MergedClean(was, inherited, e);
    MergedSizes(was, inherited, e);
    Restricted(was, e);
    Unchanged(was, e);
  }

  lemma {:induction false} Unchanged<T>(was: map<Name, Element<T>>, e: map<Name, Element<T>>)
    ensures e == was ==> was + e == was
  {
  }

  /** An inherited name in the object is not counted: the length comes out short by their number. */
  lemma {:induction false} ShortCount<K>(w: set<K>, i: set<K>, e: set<K>)
    requires w !! i
    ensures |w| + |e - w - i| - |w + e - e| == |e| - |e * i|
  {
    Union(w, e - w, w + e);
    Union(e, w + e - e, w + e);
    Union(e - w - i, e * i, e - w);
  }

  /** Only an object without inherited names leaves an exact copy. */
  lemma {:induction false} ExactOnlyClean<T>(was: map<Name, Element<T>>, l: nat, inherited: map<Name, Given<T>>, e: map<Name, Element<T>>)
    requires was.Keys !! inherited.Keys
    requires Exact(SeeFrom(was, |was|, l, inherited, e), Fields(e))
    ensures e.Keys !! inherited.Keys
  {
    var m := Merged(was, inherited, e, e.Keys);
    CopiedNames(was, inherited, e);
    KeptNames(m, e.Keys);
    assert m.Keys == was.Keys + e.Keys;
    ShortCount(was.Keys, inherited.Keys, e.Keys);
    AddedIs(was, inherited, e.Keys);
    if |was| + |Added(was, inherited, e.Keys)| <= |e| {
      assert was.Keys + e.Keys - e.Keys == {};
    }
    assert e.Keys * inherited.Keys == {};
  }

  lemma {:induction false} CopiedNames<T>(was: map<Name, Element<T>>, inherited: map<Name, Given<T>>, e: map<Name, Element<T>>)
    ensures was.Keys <= Merged(was, inherited, e, e.Keys).Keys <= was.Keys + e.Keys
  {
  }

  lemma {:induction false} KeptNames<T>(m: map<Name, Element<T>>, names: set<Name>)
    ensures Kept(m, names).Keys == m.Keys * names
  {
  }

  /** From an exact copy of an object without inherited names: what the next object leaves is exact
    * if and only if it has none either, and then the counter has grown exactly at a change. */
  lemma {:induction false} SeeFieldsExactly<T>(c: Copy<T>, inherited: map<Name, Given<T>>, before: Collection<T>, e: map<Name, Element<T>>)
    requires Exact(c, before) && Clean(before, inherited)
    ensures var d := SeeFields(c, inherited, e);
            && (Exact(d, Fields(e)) <==> Clean(Fields(e), inherited))
            && (Clean(Fields(e), inherited) ==> d.changes >= c.changes && (d.changes > c.changes <==> Fields(e) != before))
  {
    hide SeeFrom;
    var was, l := if c.shadow.Fields? then c.shadow.fields else map[], if c.shadow.Fields? then c.changes else c.changes + 1;
    var d := SeeFrom(was, |was|, l, inherited, e);
    assert d == SeeFields(c, inherited, e);
    if e.Keys !! inherited.Keys {
      SeeFromExactly(was, l, inherited, e);
    } else if Exact(d, Fields(e)) {
      ExactOnlyClean(was, l, inherited, e);
    }
  }

  /** With an exact copy of what was seen before, without inherited names: one call leaves an exact
    * copy of what it sees if and only if that has no inherited names, and then the counter has grown
    * exactly when it differs from what was seen before, or is the number `NaN` itself. */
  lemma {:induction false} SeeExactly<T>(c: Copy<T>, inherited: map<Name, Given<T>>, before: Collection<T>, v: Collection<T>)
    requires Exact(c, before) && Clean(before, inherited) && !v.Undefined?
    ensures var d := See(c, inherited, v);
            && (Exact(d, v) <==> Clean(v, inherited))
            && (Clean(v, inherited) ==> d.changes >= c.changes && (d.changes > c.changes <==> v != before || v == Simple(NaN)))
  {
    hide SeeFields;
    match v
    case Simple(e) =>
    case Items(items) => SeeItemsExactly(c, before, items);
    case Fields(e) => SeeFieldsExactly(c, inherited, before, e);
  }

  lemma {:induction false} SeeItemsExactly<T>(c: Copy<T>, before: Collection<T>, items: seq<Element<T>>)
    requires Exact(c, before)
    ensures var d := SeeItems(c, items);
            Exact(d, Items(items)) && d.changes >= c.changes && (d.changes > c.changes <==> Items(items) != before)
  {
    hide Differences;
    var was := if c.shadow.Items? then c.shadow.items else [];
    DifferencesNone(Resized(was, |items|), items);
    if |was| == |items| { assert Resized(was, |items|) == was; }
  }

  /** What an array adds to the counter: one for a copy of another kind, one for another length, and one for
    * every element that is not what the copy has at its place, where places past its end hold `undefined`. */
  lemma {:induction false} ItemsCounted<T>(c: Copy<T>, items: seq<Element<T>>)
    ensures var was := if c.shadow.Items? then c.shadow.items else [];
            var others := set i | 0 <= i < |items| && items[i] != if i < |was| then was[i] else Missing;
            SeeItems(c, items).changes == c.changes + |others| +
            if c.shadow.Items? then (if c.oldLength == |items| then 0 else 1) else (if items == [] then 1 else 2)
  {
    hide Differences;
    var was := if c.shadow.Items? then c.shadow.items else [];
    var others := set i | 0 <= i < |items| && items[i] != if i < |was| then was[i] else Missing;
    var filled := Resized(was, |items|);
    DifferencesAre(filled, items);
    assert others == set i | 0 <= i < |items| && filled[i] != items[i];
  }

  lemma {:induction false} DifferencesAre<T>(a: seq<Element<T>>, b: seq<Element<T>>)
    requires |a| == |b|
    ensures Differences(a, b) == |set i | 0 <= i < |a| && a[i] != b[i]|
    decreases |a|
  {
    var others := set i | 0 <= i < |a| && a[i] != b[i];
    if a == [] {
      assert others == {};
    } else {
      var n := |a| - 1;
      DifferencesAre(a[..n], b[..n]);
      var before := set i | 0 <= i < |a[..n]| && a[..n][i] != b[..n][i];
      assert others == if a[n] == b[n] then before else before + {n};
    }
  }

  /** Everything that was seen, in order; what was seen last, other than `undefined`. */
  function SeeAll<T(==)>(c: Copy<T>, inherited: map<Name, Given<T>>, vs: seq<Collection<T>>): Copy<T> {
    if vs == [] then c else See(SeeAll(c, inherited, vs[..|vs| - 1]), inherited, vs[|vs| - 1])
  }

  function Last<T>(vs: seq<Collection<T>>): Collection<T> {
    if vs == [] then Undefined
    else if vs[|vs| - 1].Undefined? then Last(vs[..|vs| - 1])
    else vs[|vs| - 1]
  }

  function Fresh<T>(): Copy<T> {
    Copy(Undefined, 0, 0)
  }

  /** The copy was exact after each of the calls, and the counter grew exactly at the changes. */
  ghost predicate ExactSoFar<T(!new)>(inherited: map<Name, Given<T>>, vs: seq<Collection<T>>) {
    forall k :: 0 <= k <= |vs| ==> Exact(SeeAll(Fresh(), inherited, vs[..k]), Last(vs[..k]))
  }

  ghost predicate CountedSoFar<T(!new)>(inherited: map<Name, Given<T>>, vs: seq<Collection<T>>) {
    forall k :: 0 <= k < |vs| && !vs[k].Undefined? ==>
      (SeeAll(Fresh(), inherited, vs[..k + 1]).changes > SeeAll(Fresh(), inherited, vs[..k]).changes
       <==> vs[k] != Last(vs[..k]) || vs[k] == Simple(NaN))
  }

  ghost predicate AllClean<T>(vs: seq<Collection<T>>, inherited: map<Name, Given<T>>) {
    forall k :: 0 <= k < |vs| ==> Clean(vs[k], inherited)
  }

  /** Over any sequence of values: the copy is exact after every call if and only if no object among
    * them has an inherited name, and then the counter grows exactly at a shallow change. */
  lemma {:induction false} AlwaysExact<T(!new)>(inherited: map<Name, Given<T>>, vs: seq<Collection<T>>)
    ensures ExactSoFar(inherited, vs) <==> AllClean(vs, inherited)
    ensures AllClean(vs, inherited) ==> CountedSoFar(inherited, vs) && Clean(Last(vs), inherited)
  {
    hide See, Exact, Clean, ExactSoFar, CountedSoFar, AllClean, SeeAll, Last;
    if vs == [] {
      NothingSeen(inherited, vs);
    } else {
      AlwaysExact(inherited, vs[..|vs| - 1]);
      ExactOneMore(inherited, vs);
      CleanOneMore(inherited, vs);
      if AllClean(vs[..|vs| - 1], inherited) { NextSeen(inherited, vs); }
    }
  }

  lemma {:induction false} NothingSeen<T(!new)>(inherited: map<Name, Given<T>>, vs: seq<Collection<T>>)
    requires vs == []
    ensures ExactSoFar(inherited, vs) && AllClean(vs, inherited) && CountedSoFar(inherited, vs) && Clean(Last(vs), inherited)
  {
    assert vs[..0] == [];
  }

  lemma {:induction false} CleanOneMore<T>(inherited: map<Name, Given<T>>, vs: seq<Collection<T>>)
    requires vs != []
    ensures AllClean(vs, inherited) <==> AllClean(vs[..|vs| - 1], inherited) && Clean(vs[|vs| - 1], inherited)
  {
    hide Clean;
    assert vs == vs[..|vs| - 1] + [vs[|vs| - 1]];
  }

  /** The last call, after calls that were exact. */
  lemma {:induction false} NextSeen<T(!new)>(inherited: map<Name, Given<T>>, vs: seq<Collection<T>>)
    requires vs != []
    requires var n := |vs| - 1;
             Clean(Last(vs[..n]), inherited) && Exact(SeeAll(Fresh(), inherited, vs[..n]), Last(vs[..n]))
    ensures var n := |vs| - 1;
            var c, d := SeeAll(Fresh(), inherited, vs[..n]), SeeAll(Fresh(), inherited, vs);
            && (Exact(d, Last(vs)) <==> Clean(vs[n], inherited))
            && (Clean(vs[n], inherited) ==> Clean(Last(vs), inherited))
            && (Clean(vs[n], inherited) && !vs[n].Undefined? ==>
                  (d.changes > c.changes <==> vs[n] != Last(vs[..n]) || vs[n] == Simple(NaN)))
  {
    hide See, Exact;
    var n := |vs| - 1;
    var c := SeeAll(Fresh(), inherited, vs[..n]);
    if vs[n].Undefined? {
      UndefinedKeeps(c, inherited);
    } else {
      SeeExactly(c, inherited, Last(vs[..n]), vs[n]);
    }
  }

  lemma {:induction false} ExactOneMore<T(!new)>(inherited: map<Name, Given<T>>, vs: seq<Collection<T>>)
    requires vs != []
    ensures var n := |vs| - 1;
            && (ExactSoFar(inherited, vs[..n]) ==> Exact(SeeAll(Fresh(), inherited, vs[..n]), Last(vs[..n])))
            && (ExactSoFar(inherited, vs) <==>
                  ExactSoFar(inherited, vs[..n]) && Exact(SeeAll(Fresh(), inherited, vs), Last(vs)))
            && (CountedSoFar(inherited, vs) <==>
                  CountedSoFar(inherited, vs[..n]) &&
                  (!vs[n].Undefined? ==>
                     (SeeAll(Fresh(), inherited, vs).changes > SeeAll(Fresh(), inherited, vs[..n]).changes
                      <==> vs[n] != Last(vs[..n]) || vs[n] == Simple(NaN))))
  {
    hide See, Exact, SeeAll, Last;
    var n := |vs| - 1;
    assert vs[..|vs|] == vs && vs[..n + 1] == vs && vs[..n][..n] == vs[..n];
    forall k | 0 <= k <= n ensures vs[..n][..k] == vs[..k] { }
    if ExactSoFar(inherited, vs) {
      forall k | 0 <= k <= n ensures Exact(SeeAll(Fresh(), inherited, vs[..n][..k]), Last(vs[..n][..k])) {
        assert vs[..n][..k] == vs[..k];
      }
    }
    if ExactSoFar(inherited, vs[..n]) && Exact(SeeAll(Fresh(), inherited, vs), Last(vs)) {
      forall k | 0 <= k <= |vs| ensures Exact(SeeAll(Fresh(), inherited, vs[..k]), Last(vs[..k])) {
        if k <= n { assert vs[..n][..k] == vs[..k]; }
      }
    }
  }

  lemma {:induction false} UndefinedKeeps<T>(c: Copy<T>, inherited: map<Name, Given<T>>)
    ensures See(c, inherited, Undefined) == c
  {
  }

  // ------------------------------------------------------------------------- inherited names

  /** The number of names is right for the first object seen exactly when no name is inherited. */
  lemma {:induction false} FirstCount<T>(c: Copy<T>, inherited: map<Name, Given<T>>, e: map<Name, Element<T>>)
    requires !c.shadow.Fields?
    ensures See(c, inherited, Fields(e)).oldLength == |e| <==> Clean(Fields(e), inherited)
  {
    var none: map<Name, Element<T>> := map[];
    var counted := Added(none, inherited, e.Keys);
    SubsetFull(counted, e.Keys);
  }

  function Without<T>(m: map<Name, Element<T>>, gone: set<Name>): map<Name, Element<T>> {
    map b | b in m && b !in gone :: m[b]
  }

  /** A name of the object that a write does not store, with another value than it gives: it counts as a
    * change in every call. */
  predicate Restless<T(==)>(inherited: map<Name, Given<T>>, e: map<Name, Element<T>>) {
    exists b :: b in e && b in inherited && !inherited[b].stored && e[b] != inherited[b].value
  }

  /** After the first object seen, whatever its values, the deletion of some of its names is noticed if
    * and only if more names go than the object has in common with those every object inherits, or what
    * is left counts as changed anyway. */
  lemma {:induction false} DeletionNoticed<T>(c: Copy<T>, inherited: map<Name, Given<T>>, before: map<Name, Element<T>>, gone: set<Name>)
    requires !c.shadow.Fields? && gone != {} && gone <= before.Keys
    ensures var d := See(c, inherited, Fields(before));
            var e := See(d, inherited, Fields(Without(before, gone)));
            && e.changes >= d.changes
            && (e.changes > d.changes <==> |before.Keys * inherited.Keys| < |gone| || Restless(inherited, Without(before, gone)))
            && (e.changes == d.changes ==> e == d)
  {
    hide Merged, ChangedNames, Added, Found, Kept, Without, Restless, SeeFrom, Stores, See, SeeFields;
    WithoutKeys(before, gone);
    DeletionCounted(c, inherited, before, gone, |before| - |before.Keys * inherited.Keys|);
  }

  lemma {:induction false} DeletionCounted<T>(c: Copy<T>, inherited: map<Name, Given<T>>, before: map<Name, Element<T>>, gone: set<Name>, n: int)
    requires !c.shadow.Fields? && n == |before| - |before.Keys * inherited.Keys|
    ensures var d := See(c, inherited, Fields(before));
            var e := See(d, inherited, Fields(Without(before, gone)));
            && e.changes >= d.changes
            && (e.changes > d.changes <==> n > |Without(before, gone)| || Restless(inherited, Without(before, gone)))
            && (e.changes == d.changes ==> e == d)
  {
    hide Merged, ChangedNames, Added, Found, Kept, Without, Restless, SeeFrom, Stores, See, SeeFields;
    var none: map<Name, Element<T>> := map[];
    var after, was := Without(before, gone), Merged(none, inherited, before, before.Keys);
    var l := c.changes + 1 + |ChangedNames(none, inherited, before, before.Keys)|;
    FirstCopied(c, inherited, before);
    assert See(c, inherited, Fields(before)) == Copy(Fields(was), n, l);
    StillFound(inherited, before, gone);
    NothingStored(was, inherited, after);
    SeenAgain(was, n, l, inherited, after);
  }

  /** The copy and the length after the first object. */
  lemma {:induction false} FirstCopied<T>(c: Copy<T>, inherited: map<Name, Given<T>>, before: map<Name, Element<T>>)
    requires !c.shadow.Fields?
    ensures See(c, inherited, Fields(before)) ==
            Copy(Fields(Merged(map[], inherited, before, before.Keys)), |before| - |before.Keys * inherited.Keys|,
                 c.changes + 1 + |ChangedNames(map[], inherited, before, before.Keys)|)
  {
    hide Merged, ChangedNames, Added, Kept;
    FirstSeen(inherited, before);
  }

  /** An object of which nothing is new and nothing is stored. */
  lemma {:induction false} SeenAgain<T>(was: map<Name, Element<T>>, n: int, l: nat, inherited: map<Name, Given<T>>, after: map<Name, Element<T>>)
    requires Added(was, inherited, after.Keys) == {} && Merged(was, inherited, after, after.Keys) == was
    ensures var d := See(Copy(Fields(was), n, l), inherited, Fields(after));
            && d.changes >= l
            && (d.changes > l <==> n > |after| || ChangedNames(was, inherited, after, after.Keys) != {})
            && (n <= |after| ==> d == Copy(Fields(was), n, d.changes))
  {
    hide Merged, ChangedNames, Added, Kept;
  }

  lemma {:induction false} WithoutKeys<T>(m: map<Name, Element<T>>, gone: set<Name>)
    requires gone <= m.Keys
    ensures Without(m, gone).Keys == m.Keys - gone && |Without(m, gone)| == |m| - |gone|
  {
    assert Without(m, gone).Keys == m.Keys - gone;
  }

  /** The first object: its inherited names are not counted, and all others are copied. */
  lemma {:induction false} FirstSeen<T>(inherited: map<Name, Given<T>>, before: map<Name, Element<T>>)
    ensures var none: map<Name, Element<T>> := map[];
            |Added(none, inherited, before.Keys)| == |before| - |before.Keys * inherited.Keys|
  {
    Union(before.Keys - inherited.Keys, before.Keys * inherited.Keys, before.Keys);
    var none: map<Name, Element<T>> := map[];
    assert Added(none, inherited, before.Keys) == before.Keys - inherited.Keys;
  }

  /** Names that stay are found again with their values, in the copy or as inherited, except for those
    * that were not stored. */
  lemma {:induction false} StillFound<T>(inherited: map<Name, Given<T>>, before: map<Name, Element<T>>, gone: set<Name>)
    ensures var none: map<Name, Element<T>> := map[];
            var was := Merged(none, inherited, before, before.Keys);
            var after := Without(before, gone);
            && Added(was, inherited, after.Keys) == {}
            && (ChangedNames(was, inherited, after, after.Keys) == {} <==> !Restless(inherited, after))
            && forall b :: b in ChangedNames(was, inherited, after, after.Keys) ==> !Stores(was, inherited, b)
  {
    var none: map<Name, Element<T>> := map[];
    var was := Merged(none, inherited, before, before.Keys);
    var after := Without(before, gone);
    var changed := ChangedNames(was, inherited, after, after.Keys);
    forall b | b in after
      ensures b in was || b in inherited
      ensures b in changed <==> b in inherited && !inherited[b].stored && after[b] != inherited[b].value
      ensures b in changed ==> !Stores(was, inherited, b)
    {
      StillFoundOne(inherited, before, b);
    }
    if Restless(inherited, after) {
      var b :| b in after && b in inherited && !inherited[b].stored && after[b] != inherited[b].value;
      assert b in changed;
    } else {
      assert changed == {};
    }
  }

  lemma {:induction false} StillFoundOne<T>(inherited: map<Name, Given<T>>, before: map<Name, Element<T>>, b: Name)
    requires b in before
    ensures var none: map<Name, Element<T>> := map[];
            var was := Merged(none, inherited, before, before.Keys);
            && (b in was || b in inherited)
            && (Found(was, inherited, b, before[b]) <==> !(b in inherited && !inherited[b].stored && before[b] != inherited[b].value))
            && (!Found(was, inherited, b, before[b]) ==> !Stores(was, inherited, b))
  {
    var none: map<Name, Element<T>> := map[];
    assert b in ChangedNames(none, inherited, before, before.Keys) <==> !Found(none, inherited, b, before[b]);
  }

  lemma {:induction false} NothingStored<T>(was: map<Name, Element<T>>, inherited: map<Name, Given<T>>, e: map<Name, Element<T>>)
    requires forall b :: b in ChangedNames(was, inherited, e, e.Keys) ==> !Stores(was, inherited, b)
    ensures Merged(was, inherited, e, e.Keys) == was
  {
    hide ChangedNames, Stores;
  }

  /** With an own field named like an inherited one, say `constructor`, the deletion of another goes
    * unnoticed: the counter stays and the copy keeps the deleted field. */
  lemma {:induction false} DeletionMissed<T>(name: Name, g: Element<T>, h: Element<T>, other: Name, x: Element<T>)
    requires name != other && g != h
    ensures var inherited := map[name := Given(h, true)];
            var before := map[name := g, other := x];
            var c := See(Fresh(), inherited, Fields(before));
            var d := See(c, inherited, Fields(map[name := g]));
            d.changes == c.changes && d.shadow == Fields(before)
  {
    hide See;
    var inherited := map[name := Given(h, true)];
    var before := map[name := g, other := x];
    assert before.Keys * inherited.Keys == {name};
    assert Without(before, {other}) == map[name := g];
    DeletionNoticed(Fresh(), inherited, before, {other});
    FirstCopy(Fresh(), inherited, before);
  }

  /** An object with such a name, a `__proto__` with a primitive value, makes the counter grow in every
    * further call, although it stays the same and so do copy and length. */
  lemma {:induction false} ProtoNeverRests<T>(c: Copy<T>, inherited: map<Name, Given<T>>, e: map<Name, Element<T>>, more: nat)
    requires !c.shadow.Fields? && Restless(inherited, e)
    ensures var d := See(c, inherited, Fields(e)).(changes := more);
            var again := See(d, inherited, Fields(e));
            again.changes > more && again == d.(changes := again.changes)
  {
    hide Merged, ChangedNames, Added, Found, Kept, Restless, Stores, See;
    var was := Merged(map[], inherited, e, e.Keys);
    FirstCopied(c, inherited, e);
    StillFound(inherited, e, {});
    assert Without(e, {}) == e;
    NothingStored(was, inherited, e);
    SeenAgain(was, |e| - |e.Keys * inherited.Keys|, more, inherited, e);
  }

  /** The copy of a first object whose values are not the inherited ones, and stored, is complete. */
  lemma {:induction false} FirstCopy<T>(c: Copy<T>, inherited: map<Name, Given<T>>, before: map<Name, Element<T>>)
    requires !c.shadow.Fields?
    requires forall b :: b in before && b in inherited ==> before[b] != inherited[b].value && inherited[b].stored
    ensures See(c, inherited, Fields(before)).shadow == Fields(before)
  {
    hide ChangedNames, Merged, Added, Kept;
    AllMerged(inherited, before);
    FirstSeen(inherited, before);
  }

  lemma {:induction false} AllMerged<T>(inherited: map<Name, Given<T>>, before: map<Name, Element<T>>)
    requires forall b :: b in before && b in inherited ==> before[b] != inherited[b].value && inherited[b].stored
    ensures Merged(map[], inherited, before, before.Keys) == before
  {
    var none: map<Name, Element<T>> := map[];
    assert ChangedNames(none, inherited, before, before.Keys) == before.Keys;
  }

  // ----------------------------------------------------------------------------------- the class

  /** An order in which `for (b in f)` goes over names. */
  ghost predicate Lists(order: seq<Name>, names: set<Name>) {
    Distinct(order) && forall b :: b in order <==> b in names
  }

  ghost function From(order: seq<Name>, i: nat): set<Name>
    requires i <= |order|
  {
    set b | b in order[i..]
  }

  lemma {:induction false} FromNext(order: seq<Name>, i: nat)
    requires i < |order| && Distinct(order)
    ensures order[i] in From(order, i) && order[i] !in From(order, i + 1)
    ensures From(order, i + 1) == From(order, i) - {order[i]}
  {
    assert order[i..] == [order[i]] + order[i+1..];
    DistinctAt(order, i);
  }

  lemma {:induction false} DistinctAt(order: seq<Name>, i: nat)
    requires i < |order| && Distinct(order)
    ensures order[i] !in order[i+1..]
  {
    if i > 0 {
      DistinctAt(order[1..], i - 1);
      assert order[1..][i..] == order[i+1..];
    }
  }

  lemma {:induction false} FromAll(order: seq<Name>, names: set<Name>)
    requires Lists(order, names)
    ensures From(order, 0) == names && From(order, |order|) == {} && |order| == |names| && Distinct(order)
    ensures forall i :: 0 <= i < |order| ==> order[i] in names
  {
    assert order[0..] == order;
    forall b ensures b in From(order, 0) <==> b in names {
    }
    assert From(order, |order|) == {};
    FromSize(order, 0);
    forall i | 0 <= i < |order| ensures order[i] in names { assert order[i] in order; }
  }

  lemma {:induction false} FromSize(order: seq<Name>, i: nat)
    requires i <= |order| && Distinct(order)
    ensures |From(order, i)| == |order| - i
    decreases |order| - i
  {
    if i == |order| {
      assert From(order, i) == {};
    } else {
      FromNext(order, i);
      FromSize(order, i + 1);
    }
  }

  class CollectionWatch<T(==)> {
    var shadow: Collection<T>
    var oldLength: int
    var changes: nat
    /** What a fresh object inherits, such as `constructor`, `toString` and the setter `__proto__`. */
    const inherited: map<Name, Given<T>>
    /** The order in which the names of an object come. */
    const order: set<Name> -> seq<Name>

    ghost predicate Ordered() {
      forall names :: Lists(order(names), names)
    }

    constructor (inherited: map<Name, Given<T>>, order: set<Name> -> seq<Name>)
      ensures this.inherited == inherited && this.order == order && Now() == Fresh()
    {
      this.inherited, this.order, shadow, oldLength, changes := inherited, order, Undefined, 0, 0;
    }

    function Now(): Copy<T>
      reads this
    {
      Copy(shadow, oldLength, changes)
    }

    method CompareItems(items: seq<Element<T>>)
      modifies this
      ensures Now() == SeeItems(old(Now()), items)
    {
      hide Differences;
      if !shadow.Items? {
        shadow, oldLength, changes := Items([]), 0, changes + 1;
      }
      if oldLength != |items| {
        changes := changes + 1;
        oldLength := |items|;
      }
      shadow := Items(Resized(shadow.items, |items|));
      CompareEach(items);
    }

    /** The loop over the elements. */
    method CompareEach(items: seq<Element<T>>)
      requires shadow.Items? && |shadow.items| == |items|
      modifies this`shadow, this`changes
      ensures shadow == Items(items) && old(shadow).Items? && |old(shadow.items)| == |items|
      ensures changes == old(changes) + Differences(old(shadow.items), items)
    {
      hide Differences;
      ghost var filled, start := shadow.items, changes;
      NoDifferences(filled[..0], items[..0]);
      var b := 0;
      while b < |items|
        invariant 0 <= b <= |items| && shadow.Items? && |shadow.items| == |items|
        invariant shadow.items[..b] == items[..b] && shadow.items[b..] == filled[b..]
        invariant changes == start + Differences(filled[..b], items[..b])
      {
        var h, g := shadow.items[b], items[b];
        assert h == shadow.items[b..][0] == filled[b];
        OneMore(filled, items, b);
        if h != g {
          changes := changes + 1;
          shadow := Items(shadow.items[b := g]);
        }
        b := b + 1;
      }
      assert shadow.items[..b] == shadow.items && filled[..b] == filled && items[..b] == items;
    }

    lemma {:induction false} NoDifferences(a: seq<Element<T>>, b: seq<Element<T>>)
      requires a == b == []
      ensures Differences(a, b) == 0
    {
    }

    lemma {:induction false} OneMore(a: seq<Element<T>>, b: seq<Element<T>>, k: nat)
      requires k < |a| == |b|
      ensures Differences(a[..k+1], b[..k+1]) == Differences(a[..k], b[..k]) + (if a[k] == b[k] then 0 else 1)
    {
      assert a[..k+1][..k] == a[..k] && b[..k+1][..k] == b[..k];
    }

    method CompareSimple(e: Element<T>)
      modifies this
      ensures Now() == SeeSimple(old(Now()), e)
    {
      if !(shadow.Simple? && StrictEqual(shadow.e, e)) {
        shadow, changes := Simple(e), changes + 1;
      }
    }

    /** The names of an object in their order. */
    method NamesOf(f: map<Name, Element<T>>) returns (names: seq<Name>)
      requires Ordered()
      ensures Distinct(names) && From(names, 0) == f.Keys && From(names, |names|) == {} && |names| == |f|
      ensures forall i :: 0 <= i < |names| ==> names[i] in f
    {
      hide From, Lists, Distinct;
      names := order(f.Keys);
      FromAll(names, f.Keys);
    }

    /** The loop over the object's own names, which come in any order. */
    method CompareNames(e: map<Name, Element<T>>) returns (a: nat)
      requires shadow.Fields? && Ordered()
      modifies this
      ensures old(shadow).Fields? && a == |e|
      ensures shadow == Fields(Merged(old(shadow.fields), inherited, e, e.Keys))
      ensures oldLength == old(oldLength) + |Added(old(shadow.fields), inherited, e.Keys)|
      ensures changes == old(changes) + |ChangedNames(old(shadow.fields), inherited, e, e.Keys)|
    {
      hide Merged, ChangedNames, Found, Added, From, Lists, Distinct;
      var names := NamesOf(e);
      ghost var was := shadow.fields;
      NoNames(was, e);
      assert e.Keys - From(names, 0) == {};
      a := 0;
      while a < |names|
        invariant 0 <= a <= |names| && shadow.Fields?
        invariant shadow.fields == Merged(was, inherited, e, e.Keys - From(names, a))
        invariant oldLength == old(oldLength) + |Added(was, inherited, e.Keys - From(names, a))|
        invariant changes == old(changes) + |ChangedNames(was, inherited, e, e.Keys - From(names, a))|
      {
        var b := names[a];
        FromNext(names, a);
        NextName(was, e, e.Keys - From(names, a), b);
        assert e.Keys - From(names, a + 1) == (e.Keys - From(names, a)) + {b};
        CompareName(b, e[b]);
        a := a + 1;
      }
      assert e.Keys - {} == e.Keys;
    }

    method CompareName(b: Name, g: Element<T>)
      requires shadow.Fields?
      modifies this
      ensures old(shadow).Fields?
      ensures shadow == if Found(old(shadow.fields), inherited, b, g) || !Stores(old(shadow.fields), inherited, b) then old(shadow)
                        else Fields(old(shadow.fields)[b := g])
      ensures changes == old(changes) + if Found(old(shadow.fields), inherited, b, g) then 0 else 1
      ensures oldLength == old(oldLength) + if b in old(shadow.fields) || b in inherited then 0 else 1
    {
      if b in shadow.fields {
        if shadow.fields[b] != g {
          changes := changes + 1;
          shadow := Fields(shadow.fields[b := g]);
        }
      } else if b in inherited {
        if inherited[b].value != g {
          changes := changes + 1;
          if inherited[b].stored { shadow := Fields(shadow.fields[b := g]); }
        }
      } else {
        oldLength := oldLength + 1;
        shadow := Fields(shadow.fields[b := g]);
        changes := changes + 1;
      }
    }

    lemma {:induction false} NoNames(was: map<Name, Element<T>>, e: map<Name, Element<T>>)
      ensures ChangedNames(was, inherited, e, {}) == {} && Merged(was, inherited, e, {}) == was && Added(was, inherited, {}) == {}
    {
    }

    /** A name not dealt with yet is in the copy as it was at the start. */
    lemma {:induction false} NextName(was: map<Name, Element<T>>, e: map<Name, Element<T>>, done: set<Name>, b: Name)
      requires b in e && b !in done
      ensures var m, n := Merged(was, inherited, e, done), done + {b};
              && (b in m <==> b in was)
              && Found(m, inherited, b, e[b]) == Found(was, inherited, b, e[b])
              && Merged(was, inherited, e, n) == (if Found(was, inherited, b, e[b]) || !Stores(was, inherited, b) then m else m[b := e[b]])
              && Stores(m, inherited, b) == Stores(was, inherited, b)
              && |Added(was, inherited, n)| == |Added(was, inherited, done)| + (if b in was || b in inherited then 0 else 1)
              && |ChangedNames(was, inherited, e, n)| ==
                 |ChangedNames(was, inherited, e, done)| + (if Found(was, inherited, b, e[b]) then 0 else 1)
    {
      hide Found, Added, ChangedNames, Merged;
      NextChanged(was, e, done, b);
      NextAdded(was, done, b);
      SameFound(was, e, done, b);
      NextMerged(was, e, done, b);
    }

    lemma {:induction false} NextMerged(was: map<Name, Element<T>>, e: map<Name, Element<T>>, done: set<Name>, b: Name)
      requires b in e && b !in done
      ensures Merged(was, inherited, e, done + {b}) ==
              if Found(was, inherited, b, e[b]) || !Stores(was, inherited, b) then Merged(was, inherited, e, done)
              else Merged(was, inherited, e, done)[b := e[b]]
    {
      hide Found, ChangedNames;
      NextChanged(was, e, done, b);
    }

    lemma {:induction false} NextChanged(was: map<Name, Element<T>>, e: map<Name, Element<T>>, done: set<Name>, b: Name)
      requires b in e && b !in done
      ensures ChangedNames(was, inherited, e, done + {b}) ==
              ChangedNames(was, inherited, e, done) + (if Found(was, inherited, b, e[b]) then {} else {b})
      ensures b !in ChangedNames(was, inherited, e, done)
      ensures forall k :: k in ChangedNames(was, inherited, e, done) ==> k in e
    {
      hide Found;
    }

    lemma {:induction false} NextAdded(was: map<Name, Element<T>>, done: set<Name>, b: Name)
      requires b !in done
      ensures Added(was, inherited, done + {b}) == Added(was, inherited, done) + (if b in was || b in inherited then {} else {b})
      ensures b !in Added(was, inherited, done)
    {
    }

    lemma {:induction false} SameFound(was: map<Name, Element<T>>, e: map<Name, Element<T>>, done: set<Name>, b: Name)
      requires b in e && b !in done
      ensures var m := Merged(was, inherited, e, done);
              && (b in m <==> b in was) && Found(m, inherited, b, e[b]) == Found(was, inherited, b, e[b])
              && Stores(m, inherited, b) == Stores(was, inherited, b)
    {
    }

    /** The loop that drops the names the object no longer has as its own. */
    method DeleteNames(e: map<Name, Element<T>>)
      requires shadow.Fields? && Ordered()
      modifies this
      ensures old(shadow).Fields? && changes == old(changes)
      ensures shadow == Fields(Kept(old(shadow.fields), e.Keys))
      ensures oldLength == old(oldLength) - |old(shadow.fields).Keys - e.Keys|
    {
      hide Deleting, Kept, Dropped, From, Lists, Distinct, Ordered;
      var f := shadow.fields;
      ghost var start := oldLength;
      var names := NamesOf(f);
      AllKept(f, e.Keys, start);
      DropNames(f, names, e);
      AllDropped(f, e.Keys, shadow.fields, oldLength, start);
    }

    method DropNames(ghost f: map<Name, Element<T>>, names: seq<Name>, e: map<Name, Element<T>>)
      requires shadow.Fields? && Distinct(names) && Deleting(f, e.Keys, From(names, 0), shadow.fields, oldLength, oldLength)
      modifies this
      ensures shadow.Fields? && changes == old(changes)
      ensures Deleting(f, e.Keys, From(names, |names|), shadow.fields, oldLength, old(oldLength))
    {
      hide Deleting, Kept, Dropped, From, Distinct;
      var i := 0;
      while i < |names|
        invariant 0 <= i <= |names| && changes == old(changes) && shadow.Fields?
        invariant Deleting(f, e.Keys, From(names, i), shadow.fields, oldLength, old(oldLength))
      {
        DropName(f, e, names, i, shadow.fields, oldLength, old(oldLength));
        DeleteName(names[i], e);
        i := i + 1;
      }
    }

    method DeleteName(b: Name, e: map<Name, Element<T>>)
      requires shadow.Fields?
      modifies this
      ensures old(shadow).Fields? && changes == old(changes)
      ensures shadow == if b in e then old(shadow) else Fields(Dropped(old(shadow.fields), b))
      ensures oldLength == old(oldLength) - if b in e then 0 else 1
    {
      if b !in e {
        oldLength := oldLength - 1;
        shadow := Fields(Dropped(shadow.fields, b));
      }
    }

    /** The names in `rest` have not been looked at. */
    ghost predicate Deleting(f: map<Name, Element<T>>, names: set<Name>, rest: set<Name>, now: map<Name, Element<T>>,
                             length: int, start: int) {
      rest <= f.Keys && now == Kept(f, names + rest) && length == start - |f.Keys - (names + rest)|
    }

    lemma {:induction false} AllDropped(f: map<Name, Element<T>>, names: set<Name>, now: map<Name, Element<T>>, length: int, start: int)
      requires Deleting(f, names, {}, now, length, start)
      ensures now == Kept(f, names) && length == start - |f.Keys - names|
    {
      assert names + {} == names;
    }

    lemma {:induction false} AllKept(f: map<Name, Element<T>>, names: set<Name>, start: int)
      ensures Deleting(f, names, f.Keys, f, start, start)
    {
      assert f.Keys - (names + f.Keys) == {};
    }

    lemma {:induction false} DropName(f: map<Name, Element<T>>, e: map<Name, Element<T>>, order: seq<Name>, i: nat, now: map<Name, Element<T>>,
                   length: int, start: int)
      requires i < |order| && Distinct(order) && Deleting(f, e.Keys, From(order, i), now, length, start)
      ensures if order[i] in e then Deleting(f, e.Keys, From(order, i + 1), now, length, start)
              else Deleting(f, e.Keys, From(order, i + 1), Dropped(now, order[i]), length - 1, start)
    {
      hide From, Kept, Dropped;
      var b, rest, names := order[i], From(order, i), e.Keys;
      FromNext(order, i);
      if b in e {
        assert names + (rest - {b}) == names + rest;
      } else {
        FewerNames(f.Keys, names, rest, b);
        FewerKept(f, names, rest, b);
      }
    }

    lemma {:induction false} FewerNames(keys: set<Name>, names: set<Name>, rest: set<Name>, b: Name)
      requires b in rest && rest <= keys && b !in names
      ensures |keys - (names + (rest - {b}))| == |keys - (names + rest)| + 1
    {
      assert keys - (names + (rest - {b})) == (keys - (names + rest)) + {b};
    }

    lemma {:induction false} FewerKept(f: map<Name, Element<T>>, names: set<Name>, rest: set<Name>, b: Name)
      requires b in rest && b !in names
      ensures Kept(f, names + (rest - {b})) == Dropped(Kept(f, names + rest), b)
    {
    }

    method CompareFields(e: map<Name, Element<T>>)
      requires Ordered()
      modifies this
      ensures Now() == SeeFields(old(Now()), inherited, e)
    {
      hide SeeFrom;
      if !shadow.Fields? {
        shadow, oldLength, changes := Fields(map[]), 0, changes + 1;
      }
      CompareWith(e);
    }

    method CompareWith(e: map<Name, Element<T>>)
      requires shadow.Fields? && Ordered()
      modifies this
      ensures old(shadow).Fields? && Now() == SeeFrom(old(shadow.fields), old(oldLength), old(changes), inherited, e)
    {
      hide Merged, ChangedNames, Found, Added, Kept;
      var a := CompareNames(e);
      if oldLength > a {
        changes := changes + 1;
        DeleteNames(e);
      }
    }

    /** The comparison function; it gives the counter, except for `undefined`. */
    method Observe(v: Collection<T>) returns (r: Collection<nat>)
      requires Ordered()
      modifies this
      ensures Now() == See(old(Now()), inherited, v)
      ensures r == if v.Undefined? then Undefined else Simple(Val(changes))
    {
      hide SeeFields, SeeItems;
      if v.Undefined? { return Undefined; }
      if v.Simple? {
        CompareSimple(v.e);
      } else if v.Items? {
        CompareItems(v.items);
      } else {
        CompareFields(v.fields);
      }
      return Simple(Val(changes));
    }
  }
}
