/** The tree of scopes with its sibling links, as a table indexed by creation order, and the
  * depth-first walk over it. */
module ScopeTree {
  import opened Expressions
  import opened Sequences

  /** One scope.  Pointers are places in the table, -1 for none.  A scope that was destroyed, or
    * sits below one that was, is not live.  `kids` lists the children of a live scope. */
  datatype Node<W> = Node(live: bool, parent: int, prev: int, next: int, head: int, tail: int,
                          kids: seq<nat>, watchers: seq<W>)

  type Table<W> = seq<Node<W>>

  /** Scopes are created after their parents. */
  ghost predicate Parents<W>(t: Table<W>) {
    forall i :: 0 <= i < |t| ==> -1 <= t[i].parent < i
  }

  /** Nothing reaches a live scope from one that is not. */
  ghost predicate DeadApart<W>(t: Table<W>) {
    forall i :: 0 <= i < |t| && !t[i].live ==>
      && (t[i].parent != -1 ==> 0 <= t[i].parent < |t| && !t[t[i].parent].live)
      && (t[i].tail != -1 ==> i < t[i].tail < |t| && !t[t[i].tail].live)
      && (t[i].head != -1 ==> t[i].tail != -1)
  }

  ghost predicate IsLive<W>(t: Table<W>, i: int) {
    0 <= i < |t| && t[i].live
  }

  /** Every live scope but the root is listed by its live parent. */
  ghost predicate Listed<W>(t: Table<W>) {
    forall i :: 0 <= i < |t| && t[i].live ==>
      && (t[i].parent == -1 <==> i == 0)
      && (i != 0 ==> IsLive(t, t[i].parent) && i in t[t[i].parent].kids)
  }

  ghost predicate Increasing(s: seq<nat>) {
    forall j, k :: 0 <= j < k < |s| ==> s[j] < s[k]
  }

  function Nth(s: seq<nat>, j: int): int {
    if 0 <= j < |s| then s[j] else -1
  }

  /** The children of `i`, in order of creation, are linked both ways and from both ends. */
  ghost predicate Linked<W>(t: Table<W>, i: nat)
    requires i < |t|
  {
    var kids := t[i].kids;
    && Increasing(kids)
    && t[i].head == Nth(kids, 0) && t[i].tail == Nth(kids, |kids| - 1)
    && forall j :: 0 <= j < |kids| ==> IsLive(t, kids[j]) && t[kids[j]].parent == i &&
                                       t[kids[j]].prev == Nth(kids, j - 1) && t[kids[j]].next == Nth(kids, j + 1)
  }

  ghost predicate Tree<W>(t: Table<W>) {
    && |t| > 0 && Parents(t) && DeadApart(t) && Listed(t)
    && (t[0].prev == -1 && t[0].next == -1)
    && (forall i {:trigger t[i].kids} :: 0 <= i < |t| && t[i].live ==> Linked(t, i))
  }

  /** `i` is `g` or above it. */
  ghost predicate Above<W>(t: Table<W>, i: int, g: int)
    requires Parents(t) && -1 <= g < |t|
    decreases g
  {
    g != -1 && (i == g || Above(t, i, t[g].parent))
  }

  lemma {:induction false} AboveBound<W>(t: Table<W>, i: int, g: int)
    requires Parents(t) && -1 <= g < |t| && Above(t, i, g)
    ensures 0 <= i <= g
    decreases g
  {
    if i != g { AboveBound(t, i, t[g].parent); }
  }

  lemma {:induction false} AboveTransitive<W>(t: Table<W>, i: int, k: int, g: int)
    requires Parents(t) && -1 <= g < |t| && 0 <= k < |t| && Above(t, i, k) && Above(t, k, g)
    ensures Above(t, i, g)
    decreases g
  {
    if k != g { AboveTransitive(t, i, k, t[g].parent); }
  }

  /** What is above a live scope is live. */
  lemma {:induction false} AboveLive<W>(t: Table<W>, i: int, g: int)
    requires Tree(t) && IsLive(t, g) && Above(t, i, g)
    ensures IsLive(t, i)
    decreases g
  {
    if i != g { AboveLive(t, i, t[g].parent); }
  }

  /** The child of `i` on the way down to `g`. */
  ghost function Toward<W>(t: Table<W>, i: int, g: int): (k: int)
    requires Tree(t) && IsLive(t, g) && Above(t, i, g) && i != g
    ensures IsLive(t, k) && t[k].parent == i && Above(t, k, g)
    decreases g
  {
    if t[g].parent == i then g else Toward(t, i, t[g].parent)
  }

  lemma {:induction false} TowardOnly<W>(t: Table<W>, i: int, g: int, k: int)
    requires Tree(t) && IsLive(t, g) && Above(t, i, g) && i != g
    requires 0 <= k < |t| && t[k].parent == i && Above(t, k, g)
    ensures k == Toward(t, i, g)
    decreases g
  {
    if k != g {
      AboveBound(t, k, t[g].parent);
      if t[g].parent == i { assert false; }
      TowardOnly(t, i, t[g].parent, k);
    }
  }

  // ------------------------------------------------------------ counting and walking a subtree

  /** All of `ks` are live children of `i`. */
  ghost predicate KidsFrom<W>(t: Table<W>, ks: seq<nat>, i: int) {
    ks == [] || (IsLive(t, ks[0]) && i < ks[0] && t[ks[0]].parent == i && KidsFrom(t, ks[1..], i))
  }

  lemma {:induction false} KidsFromEach<W>(t: Table<W>, ks: seq<nat>, i: int)
    requires forall j :: 0 <= j < |ks| ==> IsLive(t, ks[j]) && i < ks[j] && t[ks[j]].parent == i
    ensures KidsFrom(t, ks, i)
  {
    if ks != [] { KidsFromEach(t, ks[1..], i); }
  }

  lemma {:induction false} EachKid<W>(t: Table<W>, ks: seq<nat>, i: int, k: nat)
    requires KidsFrom(t, ks, i) && k in ks
    ensures IsLive(t, k) && i < k && t[k].parent == i
  {
    if k != ks[0] { EachKid(t, ks[1..], i, k); }
  }

  lemma {:induction false} Kids<W>(t: Table<W>, i: int)
    requires Tree(t) && IsLive(t, i)
    ensures Linked(t, i) && KidsFrom(t, t[i].kids, i)
    ensures forall k :: k in t[i].kids ==> IsLive(t, k) && i < k && t[k].parent == i
  {
    assert Linked(t, i);
    KidsFromEach(t, t[i].kids, i);
  }

  /** The scopes at and below `i`, in the order of a depth-first walk. */
  ghost function Pre<W>(t: Table<W>, i: int): seq<nat>
    requires Tree(t) && IsLive(t, i)
    decreases |t| - i, 1, 0
  {
    hide Tree;
    Kids(t, i);
    [i] + PreAll(t, t[i].kids, i)
  }

  ghost function PreAll<W>(t: Table<W>, ks: seq<nat>, above: int): seq<nat>
    requires Tree(t) && 0 <= above < |t|
    requires KidsFrom(t, ks, above)
    decreases |t| - above, 0, |ks|
  {
    if ks == [] then [] else Pre(t, ks[0]) + PreAll(t, ks[1..], above)
  }

  /** A scope's own watchers in the order the walk looks at them: last to first. */
  ghost function Reverse<W>(s: seq<W>): seq<W> {
    if s == [] then [] else Reverse(s[1..]) + [s[0]]
  }

  ghost function Watchers<W>(t: Table<W>, order: seq<nat>): seq<W>
    requires forall j :: 0 <= j < |order| ==> order[j] < |t|
  {
    if order == [] then [] else Reverse(t[order[0]].watchers) + Watchers(t, order[1..])
  }

  /** `$$watchersCount` should be: the watchers at and below `i`. */
  ghost function Total<W>(t: Table<W>, i: int): nat
    requires Tree(t) && IsLive(t, i)
    decreases |t| - i, 1, 0
  {
    hide Tree;
    Kids(t, i);
    |t[i].watchers| + TotalAll(t, t[i].kids, i)
  }

  ghost function TotalAll<W>(t: Table<W>, ks: seq<nat>, above: int): nat
    requires Tree(t) && 0 <= above < |t|
    requires KidsFrom(t, ks, above)
    decreases |t| - above, 0, |ks|
  {
    if ks == [] then 0 else Total(t, ks[0]) + TotalAll(t, ks[1..], above)
  }

  lemma {:induction false} WatchersConcat<W>(t: Table<W>, a: seq<nat>, b: seq<nat>)
    requires forall j :: 0 <= j < |a| ==> a[j] < |t|
    requires forall j :: 0 <= j < |b| ==> b[j] < |t|
    ensures forall j :: 0 <= j < |a + b| ==> (a + b)[j] < |t|
    ensures Watchers(t, a + b) == Watchers(t, a) + Watchers(t, b)
  {
    hide Reverse;
    if a == [] {
      assert a + b == b;
    } else {
      assert (a + b)[1..] == a[1..] + b && (a + b)[0] == a[0];
      WatchersConcat(t, a[1..], b);
      var own := Reverse(t[a[0]].watchers);
      assert Watchers(t, a + b) == own + (Watchers(t, a[1..]) + Watchers(t, b));
    }
  }

  /** The watcher at place `k` of the walk is the one at place `k` from the end of the list. */
  lemma {:induction false} LastFirst<W>(s: seq<W>, k: nat)
    requires k < |s|
    ensures |Reverse(s)| == |s| && Reverse(s)[k] == s[|s| - 1 - k]
  {
    ReverseLength(s);
    ReverseLength(s[1..]);
    if k < |s| - 1 { LastFirst(s[1..], k); }
  }

  lemma {:induction false} ReverseLength<W>(s: seq<W>)
    ensures |Reverse(s)| == |s| && multiset(Reverse(s)) == multiset(s)
  {
    if s != [] {
      ReverseLength(s[1..]);
      assert s == [s[0]] + s[1..];
    }
  }

  /** `x` is at or below one of `ks`. */
  ghost predicate BelowOne<W>(t: Table<W>, ks: seq<nat>, x: int)
    requires Parents(t) && -1 <= x < |t|
  {
    ks != [] && (Above(t, ks[0], x) || BelowOne(t, ks[1..], x))
  }

  lemma {:induction false} BelowOneOf<W>(t: Table<W>, ks: seq<nat>, x: int, k: nat)
    requires Parents(t) && -1 <= x < |t| && k in ks && Above(t, k, x)
    ensures BelowOne(t, ks, x)
  {
    if k != ks[0] { BelowOneOf(t, ks[1..], x, k); }
  }

  lemma {:induction false} BelowWhich<W>(t: Table<W>, ks: seq<nat>, x: int) returns (k: nat)
    requires Parents(t) && -1 <= x < |t| && BelowOne(t, ks, x)
    ensures k in ks && Above(t, k, x)
  {
    if Above(t, ks[0], x) { k := ks[0]; } else { k := BelowWhich(t, ks[1..], x); }
  }

  lemma {:induction false} AboveKid<W>(t: Table<W>, i: int, k: int, x: int)
    requires Parents(t) && -1 <= x < |t| && 0 <= k < |t| && t[k].parent == i && i >= 0 && Above(t, k, x)
    ensures Above(t, i, x)
  {
    assert Above(t, i, t[k].parent);
    assert Above(t, i, k);
    AboveTransitive(t, i, k, x);
  }

  lemma {:induction false} TreeParents<W>(t: Table<W>)
    requires Tree(t)
    ensures |t| > 0 && Parents(t)
  {
  }

  lemma {:induction false} TowardKid<W>(t: Table<W>, i: int, x: int)
    requires Tree(t) && IsLive(t, i) && IsLive(t, x) && Above(t, i, x) && x != i
    ensures Toward(t, i, x) in t[i].kids && Above(t, Toward(t, i, x), x)
  {
    var k := Toward(t, i, x);
    assert t[k].live;
  }

  /** The walk order lists exactly the live scopes at and below `i`. */
  lemma {:induction false} PreExactly<W>(t: Table<W>, i: int, x: int)
    requires Tree(t) && Parents(t) && IsLive(t, i) && IsLive(t, x)
    ensures x in Pre(t, i) <==> Above(t, i, x)
    decreases |t| - i, 1, 0
  {
    hide Tree, Linked;
    Kids(t, i);
    PreAllExactly(t, t[i].kids, i, x);
    if Above(t, i, x) && x != i {
      TowardKid(t, i, x);
      BelowOneOf(t, t[i].kids, x, Toward(t, i, x));
    }
    if BelowOne(t, t[i].kids, x) {
      var k := BelowWhich(t, t[i].kids, x);
      AboveKid(t, i, k, x);
    }
  }

  lemma {:induction false} PreAllExactly<W>(t: Table<W>, ks: seq<nat>, above: int, x: int)
    requires Tree(t) && Parents(t) && 0 <= above < |t| && IsLive(t, x)
    requires KidsFrom(t, ks, above)
    ensures x in PreAll(t, ks, above) <==> BelowOne(t, ks, x)
    decreases |t| - above, 0, |ks|
  {
    hide Tree, Linked;
    if ks != [] {
      PreExactly(t, ks[0], x);
      PreAllExactly(t, ks[1..], above, x);
    }
  }

  lemma {:induction false} PreLive<W>(t: Table<W>, i: int)
    requires Tree(t) && IsLive(t, i)
    ensures forall x :: x in Pre(t, i) ==> IsLive(t, x)
    decreases |t| - i, 1, 0
  {
    hide Tree, Linked;
    Kids(t, i);
    PreAllLive(t, t[i].kids, i);
  }

  lemma {:induction false} PreAllLive<W>(t: Table<W>, ks: seq<nat>, above: int)
    requires Tree(t) && 0 <= above < |t|
    requires KidsFrom(t, ks, above)
    ensures forall x :: x in PreAll(t, ks, above) ==> IsLive(t, x)
    decreases |t| - above, 0, |ks|
  {
    hide Tree, Linked;
    if ks != [] {
      PreLive(t, ks[0]);
      PreAllLive(t, ks[1..], above);
    }
  }

  /** ... and each of them once. */
  lemma {:induction false} PreOnce<W>(t: Table<W>, i: int)
    requires Tree(t) && Parents(t) && IsLive(t, i)
    ensures Distinct(Pre(t, i))
    decreases |t| - i, 1, 0
  {
    hide Tree;
    Kids(t, i);
    PreAllOnce(t, t[i].kids, i);
    PreAllExactly(t, t[i].kids, i, i);
    if BelowOne(t, t[i].kids, i) {
      var k := BelowWhich(t, t[i].kids, i);
      AboveBound(t, k, i);
    }
    assert ([i] + PreAll(t, t[i].kids, i))[1..] == PreAll(t, t[i].kids, i);
  }

  lemma {:induction false} PreAllOnce<W>(t: Table<W>, ks: seq<nat>, i: int)
    requires Tree(t) && Parents(t) && IsLive(t, i) && Increasing(ks)
    requires KidsFrom(t, ks, i)
    ensures Distinct(PreAll(t, ks, i))
    decreases |t| - i, 0, |ks|
  {
    hide Tree, Linked;
    if ks != [] {
      PreOnce(t, ks[0]);
      PreAllOnce(t, ks[1..], i);
      PreLive(t, ks[0]);
      forall x | x in Pre(t, ks[0]) ensures x !in PreAll(t, ks[1..], i) {
        PreExactly(t, ks[0], x);
        PreAllExactly(t, ks[1..], i, x);
        if BelowOne(t, ks[1..], x) {
          var k := BelowWhich(t, ks[1..], x);
          EachKid(t, ks[1..], i, k);
          SameParentApart(t, i, ks[0], k, x);
        }
      }
      DistinctConcat(Pre(t, ks[0]), PreAll(t, ks[1..], i));
    }
  }

  /** A scope is below at most one child of `i`. */
  lemma {:induction false} SameParentApart<W>(t: Table<W>, i: int, k: int, k': int, x: int)
    requires Tree(t) && Parents(t) && IsLive(t, x) && 0 <= k < |t| && 0 <= k' < |t|
    requires t[k].parent == i && t[k'].parent == i && i >= 0 && Above(t, k, x) && Above(t, k', x)
    ensures k == k'
  {
    hide Tree;
    AboveKid(t, i, k, x);
    AboveBound(t, k, x);
    TowardOnly(t, i, x, k);
    TowardOnly(t, i, x, k');
  }

  /** The count is the number of watchers the full walk looks at. */
  lemma {:induction false} TotalIsLength<W>(t: Table<W>, i: int)
    requires Tree(t) && IsLive(t, i)
    ensures forall j :: 0 <= j < |Pre(t, i)| ==> Pre(t, i)[j] < |t|
    ensures |Watchers(t, Pre(t, i))| == Total(t, i)
    decreases |t| - i, 1, 0
  {
    hide Tree, Linked;
    Kids(t, i);
    TotalAllIsLength(t, t[i].kids, i);
    assert ([i] + PreAll(t, t[i].kids, i))[1..] == PreAll(t, t[i].kids, i);
    ReverseLength(t[i].watchers);
  }

  lemma {:induction false} TotalAllIsLength<W>(t: Table<W>, ks: seq<nat>, above: int)
    requires Tree(t) && 0 <= above < |t|
    requires KidsFrom(t, ks, above)
    ensures forall j :: 0 <= j < |PreAll(t, ks, above)| ==> PreAll(t, ks, above)[j] < |t|
    ensures |Watchers(t, PreAll(t, ks, above))| == TotalAll(t, ks, above)
    decreases |t| - above, 0, |ks|
  {
    hide Tree, Linked;
    if ks != [] {
      TotalIsLength(t, ks[0]);
      TotalAllIsLength(t, ks[1..], above);
      WatchersConcat(t, Pre(t, ks[0]), PreAll(t, ks[1..], above));
    }
  }
}
