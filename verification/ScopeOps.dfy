/** What `$new`, `$watch`, unwatching and `$destroy` do to the tree of scopes, and that the
  * watcher counts stay exact. */
module ScopeOps {
  import opened Expressions
  import opened Sequences
  import opened ScopeTree

  // --------------------------------------------------------------------------- changing watchers

  function SetWatchers<W>(t: Table<W>, g: nat, ws: seq<W>): Table<W>
    requires g < |t|
  {
    t[g := t[g].(watchers := ws)]
  }

  /** The tables differ in watchers only. */
  ghost predicate SameShape<W>(t: Table<W>, u: Table<W>) {
    && |t| == |u|
    && forall i :: 0 <= i < |t| ==> u[i] == t[i].(watchers := u[i].watchers)
  }

  lemma {:induction false} SameShapeLinked<W>(t: Table<W>, u: Table<W>, i: nat)
    requires SameShape(t, u) && i < |t| && Linked(t, i)
    ensures Linked(u, i)
  {
    forall j | 0 <= j < |u[i].kids|
      ensures IsLive(u, u[i].kids[j]) && u[u[i].kids[j]].parent == i
      ensures u[u[i].kids[j]].prev == Nth(u[i].kids, j - 1) && u[u[i].kids[j]].next == Nth(u[i].kids, j + 1)
    {
      assert IsLive(t, t[i].kids[j]);
    }
  }

  lemma {:induction false} SameShapeListed<W>(t: Table<W>, u: Table<W>)
    requires SameShape(t, u) && Parents(t) && DeadApart(t) && Listed(t)
    ensures Parents(u) && DeadApart(u) && Listed(u)
  {
    forall i | 0 <= i < |u| && u[i].live
      ensures (u[i].parent == -1 <==> i == 0) && (i != 0 ==> IsLive(u, u[i].parent) && i in u[u[i].parent].kids)
    {
      assert t[i].live && (i != 0 ==> IsLive(t, t[i].parent));
    }
  }

  lemma {:induction false} SetWatchersKeeps<W>(t: Table<W>, g: nat, ws: seq<W>)
    requires Tree(t) && g < |t|
    ensures Tree(SetWatchers(t, g, ws))
  {
    var u := SetWatchers(t, g, ws);
    TreeIf(t, u);
  }

  lemma {:induction false} TreeIf<W>(t: Table<W>, u: Table<W>)
    requires Tree(t) && SameShape(t, u)
    ensures Tree(u)
  {
    hide Linked, Listed, DeadApart, Parents;
    SameShapeListed(t, u);
    forall i | 0 <= i < |u| && u[i].live ensures Linked(u, i) {
      assert t[i].live;
      assert t[i].kids == u[i].kids;
      SameShapeLinked(t, u, i);
    }
  }

  lemma {:induction false} SameParentsAbove<W>(t: Table<W>, u: Table<W>, i: int, g: int)
    requires Parents(t) && Parents(u) && |t| <= |u| && -1 <= g < |t|
    requires forall k :: 0 <= k < |t| ==> u[k].parent == t[k].parent
    ensures Above(u, i, g) <==> Above(t, i, g)
    decreases g
  {
    if g != -1 && i != g { SameParentsAbove(t, u, i, t[g].parent); }
  }

  /** How much the count of `i` changes when `g` goes from `a` to `b` watchers. */
  ghost function Shift<W>(t: Table<W>, i: int, g: int, delta: int): int
    requires Parents(t) && -1 <= g < |t|
  {
    if Above(t, i, g) then delta else 0
  }

  /** Changing the watchers of a scope changes the counts of that scope and those above it. */
  lemma {:induction false} SetWatchersTotal<W>(t: Table<W>, g: nat, ws: seq<W>, i: int)
    requires Tree(t) && Parents(t) && IsLive(t, g) && IsLive(t, i) && Tree(SetWatchers(t, g, ws))
    ensures Total(SetWatchers(t, g, ws), i) == Total(t, i) + Shift(t, i, g, |ws| - |t[g].watchers|)
    decreases |t| - i, 1, 0
  {
    hide Tree, Linked, Above;
    var u := SetWatchers(t, g, ws);
    Kids(t, i);
    Kids(u, i);
    assert u[i].kids == t[i].kids;
    SetWatchersTotals(t, g, ws, t[i].kids, i);
    if i == g {
      AboveSelf(t, g);
      KidsNotAbove(t, t[i].kids, i);
    } else {
      AboveIffBelowOne(t, i, g);
    }
  }

  lemma {:induction false} AboveSelf<W>(t: Table<W>, g: nat)
    requires Parents(t) && g < |t|
    ensures Above(t, g, g)
  {
  }

  lemma {:induction false} KidsNotAbove<W>(t: Table<W>, ks: seq<nat>, i: int)
    requires Parents(t) && 0 <= i < |t| && KidsFrom(t, ks, i)
    ensures !BelowOne(t, ks, i)
    decreases ks
  {
    if ks != [] {
      if Above(t, ks[0], i) { AboveBound(t, ks[0], i); }
      KidsNotAbove(t, ks[1..], i);
    }
  }

  lemma {:induction false} AboveIffBelowOne<W>(t: Table<W>, i: int, g: int)
    requires Tree(t) && Parents(t) && IsLive(t, i) && IsLive(t, g) && i != g
    ensures Above(t, i, g) <==> BelowOne(t, t[i].kids, g)
  {
    hide Tree, Linked;
    Kids(t, i);
    if Above(t, i, g) {
      TowardKid(t, i, g);
      BelowOneOf(t, t[i].kids, g, Toward(t, i, g));
    }
    if BelowOne(t, t[i].kids, g) {
      var k := BelowWhich(t, t[i].kids, g);
      AboveKid(t, i, k, g);
    }
  }

  lemma {:induction false} SetWatchersTotals<W>(t: Table<W>, g: nat, ws: seq<W>, ks: seq<nat>, i: int)
    requires Tree(t) && Parents(t) && IsLive(t, g) && Tree(SetWatchers(t, g, ws))
    requires 0 <= i < |t| && KidsFrom(t, ks, i) && Increasing(ks)
    ensures KidsFrom(SetWatchers(t, g, ws), ks, i)
    ensures TotalAll(SetWatchers(t, g, ws), ks, i)
         == TotalAll(t, ks, i) + if BelowOne(t, ks, g) then |ws| - |t[g].watchers| else 0
    decreases |t| - i, 0, |ks|
  {
    hide Tree, Linked, Above;
    if ks != [] {
      SetWatchersTotal(t, g, ws, ks[0]);
      SetWatchersTotals(t, g, ws, ks[1..], i);
      OnlyOneBelow(t, ks, i, g);
    }
  }

  /** At most one of some children of `i` is above `g`. */
  lemma {:induction false} OnlyOneBelow<W>(t: Table<W>, ks: seq<nat>, i: int, g: int)
    requires Tree(t) && Parents(t) && IsLive(t, g) && ks != [] && 0 <= i < |t| && KidsFrom(t, ks, i) && Increasing(ks)
    ensures !(Above(t, ks[0], g) && BelowOne(t, ks[1..], g))
  {
    hide Tree, Linked;
    if Above(t, ks[0], g) && BelowOne(t, ks[1..], g) {
      var k := BelowWhich(t, ks[1..], g);
      EachKid(t, ks[1..], i, k);
      SameParentApart(t, i, ks[0], k, g);
      assert false;
    }
  }

  /** Above a dead scope there are only dead ones. */
  lemma {:induction false} AboveDead<W>(t: Table<W>, i: int, g: int)
    requires Tree(t) && Parents(t) && 0 <= g < |t| && !t[g].live && IsLive(t, i)
    ensures !Above(t, i, g)
    decreases g
  {
    if t[g].parent != -1 { AboveDead(t, i, t[g].parent); }
  }

  lemma {:induction false} DeadTotal<W>(t: Table<W>, g: nat, ws: seq<W>, i: int)
    requires Tree(t) && g < |t| && !t[g].live && IsLive(t, i) && Tree(SetWatchers(t, g, ws))
    ensures Total(SetWatchers(t, g, ws), i) == Total(t, i)
    decreases |t| - i, 1, 0
  {
    hide Tree, Linked;
    Kids(t, i);
    Kids(SetWatchers(t, g, ws), i);
    DeadTotals(t, g, ws, t[i].kids, i);
  }

  lemma {:induction false} DeadTotals<W>(t: Table<W>, g: nat, ws: seq<W>, ks: seq<nat>, i: int)
    requires Tree(t) && g < |t| && !t[g].live && Tree(SetWatchers(t, g, ws)) && 0 <= i < |t| && KidsFrom(t, ks, i)
    ensures KidsFrom(SetWatchers(t, g, ws), ks, i)
    ensures TotalAll(SetWatchers(t, g, ws), ks, i) == TotalAll(t, ks, i)
    decreases |t| - i, 0, |ks|
  {
    hide Tree, Linked;
    if ks != [] {
      DeadTotal(t, g, ws, ks[0]);
      DeadTotals(t, g, ws, ks[1..], i);
    }
  }

  /** The exact count of every live scope after the watchers of any scope changed. */
  lemma {:induction false} CountAfter<W>(t: Table<W>, g: nat, ws: seq<W>, i: int)
    requires Tree(t) && Parents(t) && g < |t| && IsLive(t, i)
    ensures Tree(SetWatchers(t, g, ws)) && IsLive(SetWatchers(t, g, ws), i)
    ensures Total(SetWatchers(t, g, ws), i) == Total(t, i) + Shift(t, i, g, |ws| - |t[g].watchers|)
  {
    hide Tree;
    SetWatchersKeeps(t, g, ws);
    if t[g].live {
      SetWatchersTotal(t, g, ws, i);
    } else {
      AboveDead(t, i, g);
      DeadTotal(t, g, ws, i);
    }
  }

  // ------------------------------------------------------------------------------ a new scope

  function AddedNode<W>(t: Table<W>, c: nat, i: nat): Node<W>
    requires c < |t| && i <= |t|
  {
    var d := |t|;
    if i == d then Node(t[c].live, c, t[c].tail, -1, -1, -1, [], [])
    else
      var n := if t[c].head != -1 && i == t[c].tail then t[i].(next := d) else t[i];
      if i == c then n.(head := if n.head != -1 then n.head else d, tail := d, kids := n.kids + [d]) else n
  }

  /** `$new` with parent `c`. */
  function AddScope<W>(t: Table<W>, c: nat): Table<W>
    requires c < |t|
  {
    seq(|t| + 1, i requires 0 <= i <= |t| => AddedNode(t, c, i))
  }

  lemma {:induction false} AddParents<W>(t: Table<W>, c: nat)
    requires c < |t| && Parents(t)
    ensures Parents(AddScope(t, c))
  {
  }

  lemma {:induction false} AddDead<W>(t: Table<W>, c: nat)
    requires c < |t| && DeadApart(t)
    ensures DeadApart(AddScope(t, c))
  {
    hide DeadApart, AddedNode;
    var u := AddScope(t, c);
    forall i | 0 <= i < |u| && !u[i].live
      ensures u[i].parent != -1 ==> 0 <= u[i].parent < |u| && !u[u[i].parent].live
      ensures u[i].tail != -1 ==> i < u[i].tail < |u| && !u[u[i].tail].live
      ensures u[i].head != -1 ==> u[i].tail != -1
    {
      assert u[i] == AddedNode(t, c, i);
      AddedDead(t, c, i);
      var n := u[i];
      if n.parent != -1 { assert u[n.parent] == AddedNode(t, c, n.parent); }
      if n.tail != -1 { assert u[n.tail] == AddedNode(t, c, n.tail); }
    }
    DeadFrom(u);
  }

  /** A scope that is not live after the addition was not, or hangs below one. */
  lemma {:induction false} AddedDead<W>(t: Table<W>, c: nat, i: nat)
    requires c < |t| && DeadApart(t) && i <= |t| && !AddedNode(t, c, i).live
    ensures var n := AddedNode(t, c, i);
            && (n.parent != -1 ==> 0 <= n.parent <= |t| && !AddedNode(t, c, n.parent).live)
            && (n.tail != -1 ==> i < n.tail <= |t| && !AddedNode(t, c, n.tail).live)
            && (n.head != -1 ==> n.tail != -1)
  {
  }

  lemma {:induction false} AddListed<W>(t: Table<W>, c: nat)
    requires c < |t| && Listed(t)
    ensures Listed(AddScope(t, c))
  {
    var u := AddScope(t, c);
    forall i | 0 <= i < |u| && u[i].live
      ensures (u[i].parent == -1 <==> i == 0) && (i != 0 ==> IsLive(u, u[i].parent) && i in u[u[i].parent].kids)
    {
      if i == |t| {
        assert u[c].kids[|t[c].kids|] == i;
      } else if i != 0 {
        assert IsLive(t, t[i].parent) && i in t[t[i].parent].kids;
      }
    }
  }

  /** The children of other scopes keep their links. */
  lemma {:induction false} AddLinkedOther<W>(t: Table<W>, c: nat, i: nat)
    requires c < |t| && i < |t| && i != c && Linked(t, i)
    requires t[c].head != -1 ==> 0 <= t[c].tail < |t| && (!t[t[c].tail].live || t[t[c].tail].parent == c)
    ensures Linked(AddScope(t, c), i)
  {
    var u, kids := AddScope(t, c), t[i].kids;
    forall j | 0 <= j < |kids|
      ensures IsLive(u, kids[j]) && u[kids[j]].parent == i
      ensures u[kids[j]].prev == Nth(kids, j - 1) && u[kids[j]].next == Nth(kids, j + 1)
    {
      assert IsLive(t, kids[j]);
    }
  }

  lemma {:induction false} LinkedKid<W>(t: Table<W>, c: nat, j: nat)
    requires IsLive(t, c) && Linked(t, c) && j < |t[c].kids|
    ensures var kids := t[c].kids;
            IsLive(t, kids[j]) && t[kids[j]].parent == c && kids[j] <= kids[|kids|-1] == t[c].tail &&
            t[kids[j]].prev == Nth(kids, j - 1) && t[kids[j]].next == Nth(kids, j + 1) &&
            (j < |kids| - 1 ==> kids[j] < kids[|kids|-1]) && t[c].head == kids[0]
  {
  }

  lemma {:induction false} AddOwnKid<W>(t: Table<W>, c: nat, j: nat)
    requires Parents(t) && IsLive(t, c) && Linked(t, c) && j <= |t[c].kids|
    ensures var u, more := AddScope(t, c), t[c].kids + [|t|];
            IsLive(u, more[j]) && u[more[j]].parent == c &&
            u[more[j]].prev == Nth(more, j - 1) && u[more[j]].next == Nth(more, j + 1)
  {
    hide Linked, Parents, Increasing;
    LinkedEnds(t, c);
    var kids := t[c].kids;
    if j < |kids| {
      LinkedKid(t, c, j);
      var k := kids[j];
      assert AddScope(t, c)[k] == AddedNode(t, c, k);
      assert k != c;
    } else {
      assert AddScope(t, c)[|t|] == AddedNode(t, c, |t|);
    }
  }

  lemma {:induction false} LinkedEnds<W>(t: Table<W>, c: nat)
    requires Parents(t) && IsLive(t, c) && Linked(t, c)
    ensures t[c].head == Nth(t[c].kids, 0) && t[c].tail == Nth(t[c].kids, |t[c].kids| - 1)
    ensures forall j :: 0 <= j < |t[c].kids| ==> c < t[c].kids[j] < |t|
  {
    forall j | 0 <= j < |t[c].kids| ensures c < t[c].kids[j] < |t| { LinkedKid(t, c, j); }
  }

  lemma {:induction false} AddLinkedOwn<W>(t: Table<W>, c: nat)
    requires Parents(t) && IsLive(t, c) && Linked(t, c)
    ensures Linked(AddScope(t, c), c)
  {
    var u, more := AddScope(t, c), t[c].kids + [|t|];
    assert u[c].kids == more;
    forall j | 0 <= j < |more|
      ensures IsLive(u, more[j]) && u[more[j]].parent == c
      ensures u[more[j]].prev == Nth(more, j - 1) && u[more[j]].next == Nth(more, j + 1)
    {
      AddOwnKid(t, c, j);
    }
    IncreasingSnoc(t, c);
  }

  lemma {:induction false} IncreasingSnoc<W>(t: Table<W>, c: nat)
    requires IsLive(t, c) && Linked(t, c)
    ensures Increasing(t[c].kids + [|t|])
  {
    forall j | 0 <= j < |t[c].kids| ensures t[c].kids[j] < |t| { LinkedKid(t, c, j); }
  }

  lemma {:induction false} LastKid<W>(t: Table<W>, c: nat)
    requires Tree(t) && c < |t|
    ensures t[c].head != -1 ==> c < t[c].tail < |t| && (!t[t[c].tail].live || t[t[c].tail].parent == c)
  {
    if t[c].live {
      assert Linked(t, c);
      if t[c].kids != [] { assert IsLive(t, t[c].kids[|t[c].kids| - 1]); }
    }
  }

  lemma {:induction false} AddKeeps<W>(t: Table<W>, c: nat)
    requires Tree(t) && c < |t|
    ensures Tree(AddScope(t, c))
  {
    hide Linked, Listed, DeadApart, Parents;
    AddParents(t, c);
    AddDead(t, c);
    AddListed(t, c);
    LastKid(t, c);
    var u := AddScope(t, c);
    forall i | 0 <= i < |u| && u[i].live ensures Linked(u, i) {
      if i == c {
        assert Linked(t, c);
        AddLinkedOwn(t, c);
      } else if i < |t| {
        assert Linked(t, i);
        AddLinkedOther(t, c, i);
      } else {
        AddedLinked(t, c);
      }
    }
  }

  lemma {:induction false} AddedLinked<W>(t: Table<W>, c: nat)
    requires c < |t|
    ensures Linked(AddScope(t, c), |t|)
  {
  }

  /** A new scope has no watchers and changes no count. */
  lemma {:induction false} AddTotal<W>(t: Table<W>, c: nat, i: int)
    requires Tree(t) && c < |t| && Tree(AddScope(t, c)) && IsLive(AddScope(t, c), i)
    ensures Total(AddScope(t, c), i) == if i == |t| then 0 else Total(t, i)
    decreases |t| - i, 1, 0
  {
    hide Tree, Linked;
    var u := AddScope(t, c);
    Kids(u, i);
    if i < |t| {
      Kids(t, i);
      AddTotals(t, c, t[i].kids, i);
      if i == c {
        AddTotal(t, c, |t|);
        TotalAllSnoc(u, t[i].kids, |t|, i);
      }
    }
  }

  lemma {:induction false} TotalAllSnoc<W>(u: Table<W>, ks: seq<nat>, k: nat, i: int)
    requires Tree(u) && 0 <= i < |u| && KidsFrom(u, ks, i) && KidsFrom(u, ks + [k], i) && IsLive(u, k)
    ensures TotalAll(u, ks + [k], i) == TotalAll(u, ks, i) + Total(u, k)
  {
    hide Tree, Linked;
    if ks == [] {
      assert (ks + [k])[1..] == [];
    } else {
      assert (ks + [k])[1..] == ks[1..] + [k];
      TotalAllSnoc(u, ks[1..], k, i);
    }
  }

  lemma {:induction false} AddTotals<W>(t: Table<W>, c: nat, ks: seq<nat>, i: int)
    requires Tree(t) && c < |t| && Tree(AddScope(t, c)) && 0 <= i < |t| && KidsFrom(t, ks, i)
    ensures KidsFrom(AddScope(t, c), ks, i)
    ensures TotalAll(AddScope(t, c), ks, i) == TotalAll(t, ks, i)
    decreases |t| - i, 0, |ks|
  {
    hide Tree, Linked;
    if ks != [] {
      AddTotal(t, c, ks[0]);
      AddTotals(t, c, ks[1..], i);
    }
  }

  // ------------------------------------------------------------------------- a scope destroyed

  ghost function DestroyedNode<W>(t: Table<W>, d: nat, i: nat): Node<W>
    requires Parents(t) && d < |t| && i < |t|
  {
    var n, a := t[i], t[d].parent;
    if i == d then Node(false, -1, -1, -1, -1, -1, [], n.watchers)
    else n.(
      live := n.live && !Above(t, d, i),
      head := if i == a && n.head == d then t[d].next else n.head,
      tail := if i == a && n.tail == d then t[d].prev else n.tail,
      kids := if i == a then Without(n.kids, d) else n.kids,
      next := if i == t[d].prev then t[d].next else n.next,
      prev := if i == t[d].next then t[d].prev else n.prev)
  }

  /** `$destroy` of a live scope: it is cut out, and it and everything below it is dead. */
  ghost function DestroyScope<W>(t: Table<W>, d: nat): Table<W>
    requires Parents(t) && d < |t|
  {
    seq(|t|, i requires 0 <= i < |t| => DestroyedNode(t, d, i))
  }

  lemma {:induction false} DestroyParents<W>(t: Table<W>, d: nat)
    requires Parents(t) && d < |t|
    ensures Parents(DestroyScope(t, d))
  {
  }

  /** Everything below `d` is cut off together. */
  lemma {:induction false} DestroyDead<W>(t: Table<W>, d: nat)
    requires Tree(t) && Parents(t) && IsLive(t, d)
    ensures DeadApart(DestroyScope(t, d))
  {
    hide Tree, Listed, Linked, Parents, DeadApart;
    var u := DestroyScope(t, d);
    forall i | 0 <= i < |u| && !u[i].live
      ensures u[i].parent != -1 ==> 0 <= u[i].parent < |u| && !u[u[i].parent].live
      ensures u[i].tail != -1 ==> i < u[i].tail < |u| && !u[u[i].tail].live
      ensures u[i].head != -1 ==> u[i].tail != -1
    {
      if i != d {
        assert u[i] == DestroyedNode(t, d, i);
        if t[i].live { DyingNode(t, d, i); } else { DeadNode(t, d, i); }
      }
    }
    DeadFrom(u);
  }

  lemma {:induction false} DeadFrom<W>(u: Table<W>)
    requires forall i :: 0 <= i < |u| && !u[i].live ==>
      && (u[i].parent != -1 ==> 0 <= u[i].parent < |u| && !u[u[i].parent].live)
      && (u[i].tail != -1 ==> i < u[i].tail < |u| && !u[u[i].tail].live)
      && (u[i].head != -1 ==> u[i].tail != -1)
    ensures DeadApart(u)
  {
  }

  /** A scope that was already dead is not touched. */
  lemma {:induction false} DeadNode<W>(t: Table<W>, d: nat, i: nat)
    requires Tree(t) && Parents(t) && IsLive(t, d) && i < |t| && !t[i].live
    ensures var u := DestroyScope(t, d);
            (t[i].parent != -1 ==> 0 <= t[i].parent < |t| && !u[t[i].parent].live) &&
            (t[i].tail != -1 ==> i < t[i].tail < |t| && !u[t[i].tail].live) &&
            (t[i].head != -1 ==> t[i].tail != -1) && i != t[d].parent
  {
    hide Tree, Listed, Linked, Above;
    NextIsLiveHere(t, d);
    DeadPointers(t, i);
    var u := DestroyScope(t, d);
    if t[i].parent != -1 { assert u[t[i].parent] == DestroyedNode(t, d, t[i].parent); }
    if t[i].tail != -1 { assert u[t[i].tail] == DestroyedNode(t, d, t[i].tail); }
  }

  lemma {:induction false} DeadPointers<W>(t: Table<W>, i: nat)
    requires Tree(t) && i < |t| && !t[i].live
    ensures t[i].parent != -1 ==> 0 <= t[i].parent < |t| && !t[t[i].parent].live
    ensures t[i].tail != -1 ==> i < t[i].tail < |t| && !t[t[i].tail].live
    ensures t[i].head != -1 ==> t[i].tail != -1
  {
    hide Listed, Linked;
  }

  lemma {:induction false} NextIsLiveHere<W>(t: Table<W>, d: nat)
    requires Tree(t) && Parents(t) && IsLive(t, d)
    ensures t[d].parent != -1 ==> IsLive(t, t[d].parent)
  {
  }

  lemma {:induction false} DyingNode<W>(t: Table<W>, d: nat, i: nat)
    requires Tree(t) && Parents(t) && IsLive(t, d) && IsLive(t, i) && i != d && Above(t, d, i)
    ensures var u := DestroyScope(t, d);
            0 <= t[i].parent < |t| && !u[t[i].parent].live &&
            (t[i].tail != -1 ==> i < t[i].tail < |t| && !u[t[i].tail].live) &&
            (t[i].head != -1 ==> t[i].tail != -1) && i != t[d].parent
  {
    hide Tree;
    var u := DestroyScope(t, d);
    AboveBound(t, d, t[i].parent);
    AboveBound(t, d, i);
    assert u[t[i].parent] == DestroyedNode(t, d, t[i].parent);
    Kids(t, i);
    LinkedEnds(t, i);
    if t[i].tail != -1 {
      var k := t[i].kids[|t[i].kids| - 1];
      LinkedKid(t, i, |t[i].kids| - 1);
      assert Above(t, d, t[k].parent);
      assert Above(t, d, k);
      assert u[k] == DestroyedNode(t, d, k);
    }
  }

  lemma {:induction false} DestroyListed<W>(t: Table<W>, d: nat)
    requires Tree(t) && Parents(t) && IsLive(t, d)
    ensures Listed(DestroyScope(t, d))
  {
    hide Linked, DeadApart;
    var u := DestroyScope(t, d);
    forall i | 0 <= i < |u| && u[i].live
      ensures (u[i].parent == -1 <==> i == 0) && (i != 0 ==> IsLive(u, u[i].parent) && i in u[u[i].parent].kids)
    {
      var p := t[i].parent;
      assert u[i] == DestroyedNode(t, d, i) && i != d && u[i].parent == p;
      if i != 0 {
        assert IsLive(t, p) && i in t[p].kids;
        assert !Above(t, d, p);
        assert u[p] == DestroyedNode(t, d, p) && p != d;
        WithoutOther(t[p].kids, d, i);
      }
    }
  }

  lemma {:induction false} WithoutOther(ks: seq<nat>, d: nat, k: nat)
    requires k in ks && k != d
    ensures k in Without(ks, d)
  {
    if ks[0] != d && k != ks[0] { WithoutOther(ks[1..], d, k); }
  }

  /** Where `d` stands among its siblings. */
  lemma {:induction false} Place<W>(t: Table<W>, d: nat) returns (p: nat)
    requires Tree(t) && Parents(t) && IsLive(t, d) && t[d].parent != -1
    ensures IsLive(t, t[d].parent) && Linked(t, t[d].parent) && p < |t[t[d].parent].kids|
    ensures t[t[d].parent].kids[p] == d
    ensures t[d].prev == Nth(t[t[d].parent].kids, p - 1) && t[d].next == Nth(t[t[d].parent].kids, p + 1)
  {
    var a := t[d].parent;
    assert Linked(t, a);
    p :| 0 <= p < |t[a].kids| && t[a].kids[p] == d;
    LinkedKid(t, a, p);
  }

  lemma {:induction false} RootAlone<W>(t: Table<W>, d: nat)
    requires Tree(t) && IsLive(t, d) && t[d].parent == -1
    ensures t[d].prev == -1 && t[d].next == -1
  {
  }

  lemma {:induction false} Siblings<W>(t: Table<W>, d: nat)
    requires Tree(t) && Parents(t) && IsLive(t, d)
    ensures t[d].prev != -1 ==> IsLive(t, t[d].prev) && t[t[d].prev].parent == t[d].parent
    ensures t[d].next != -1 ==> IsLive(t, t[d].next) && t[t[d].next].parent == t[d].parent
  {
    hide Tree, Linked, Parents;
    if t[d].parent == -1 {
      RootAlone(t, d);
    } else {
      var p := Place(t, d);
      var a := t[d].parent;
      if p > 0 { LinkedKid(t, a, p - 1); }
      if p + 1 < |t[a].kids| { LinkedKid(t, a, p + 1); }
    }
  }

  lemma {:induction false} DestroyOtherKid<W>(t: Table<W>, d: nat, i: nat, j: nat)
    requires Tree(t) && Parents(t) && IsLive(t, d) && IsLive(t, i) && !Above(t, d, i) && i != t[d].parent
    requires Linked(t, i) && j < |t[i].kids|
    ensures var u, k := DestroyScope(t, d), t[i].kids[j];
            IsLive(u, k) && u[k].parent == i && u[k].prev == Nth(t[i].kids, j - 1) && u[k].next == Nth(t[i].kids, j + 1)
  {
    hide Tree, Linked, Parents;
    LinkedKid(t, i, j);
    Siblings(t, d);
    var k := t[i].kids[j];
    assert k != d;
    AboveStep(t, d, k);
    assert DestroyScope(t, d)[k] == DestroyedNode(t, d, k);
  }

  lemma {:induction false} DestroyLinkedOther<W>(t: Table<W>, d: nat, i: nat)
    requires Tree(t) && Parents(t) && IsLive(t, d) && IsLive(t, i) && !Above(t, d, i) && i != t[d].parent
    ensures Linked(DestroyScope(t, d), i)
  {
    hide Tree;
    Kids(t, i);
    var u := DestroyScope(t, d);
    assert u[i] == DestroyedNode(t, d, i) && u[i].kids == t[i].kids;
    HeadNotElsewhere(t, d, i);
    forall j | 0 <= j < |t[i].kids|
      ensures IsLive(u, t[i].kids[j]) && u[t[i].kids[j]].parent == i
      ensures u[t[i].kids[j]].prev == Nth(t[i].kids, j - 1) && u[t[i].kids[j]].next == Nth(t[i].kids, j + 1)
    {
      DestroyOtherKid(t, d, i, j);
    }
  }

  lemma {:induction false} HeadNotElsewhere<W>(t: Table<W>, d: nat, i: nat)
    requires Parents(t) && d < |t| && i < |t| && i != d && i != t[d].parent
    ensures DestroyedNode(t, d, i).head == t[i].head && DestroyedNode(t, d, i).tail == t[i].tail
  {
  }

  lemma {:induction false} DestroyOwnKid<W>(t: Table<W>, d: nat, a: nat, p: nat, j: nat)
    requires Tree(t) && Parents(t) && IsLive(t, d) && t[d].parent == a && IsLive(t, a) && Linked(t, a)
    requires p < |t[a].kids| && t[a].kids[p] == d && j < |t[a].kids| - 1
    requires t[d].prev == Nth(t[a].kids, p - 1) && t[d].next == Nth(t[a].kids, p + 1)
    ensures var u, kids := DestroyScope(t, d), t[a].kids[..p] + t[a].kids[p+1..];
            IsLive(u, kids[j]) && u[kids[j]].parent == a &&
            u[kids[j]].prev == Nth(kids, j - 1) && u[kids[j]].next == Nth(kids, j + 1)
  {
    hide Tree, Linked, Parents;
    var kids := t[a].kids;
    var x := if j < p then j else j + 1;
    var k := kids[x];
    LinkedKid(t, a, x);
    LinkedKid(t, a, p);
    KidsApart(t, a, x, p);
    if p > 0 { KidsApart(t, a, x, p - 1); }
    if p + 1 < |kids| { KidsApart(t, a, x, p + 1); }
    NotAboveParent(t, d, a);
    AboveStep(t, d, k);
    assert DestroyScope(t, d)[k] == DestroyedNode(t, d, k);
  }

  lemma {:induction false} AboveStep<W>(t: Table<W>, d: nat, k: nat)
    requires Parents(t) && k < |t| && t[k].parent >= 0
    ensures Above(t, d, k) <==> d == k || Above(t, d, t[k].parent)
  {
  }

  lemma {:induction false} KidsApart<W>(t: Table<W>, a: nat, x: nat, y: nat)
    requires IsLive(t, a) && Linked(t, a) && x < |t[a].kids| && y < |t[a].kids|
    ensures t[a].kids[x] == t[a].kids[y] ==> x == y
  {
  }

  lemma {:induction false} NotAboveParent<W>(t: Table<W>, d: nat, a: nat)
    requires Parents(t) && d < |t| && t[d].parent == a
    ensures !Above(t, d, a)
  {
    if Above(t, d, a) { AboveBound(t, d, a); }
  }

  lemma {:induction false} IncreasingDistinct(ks: seq<nat>)
    requires Increasing(ks)
    ensures Distinct(ks)
  {
    if ks != [] { IncreasingDistinct(ks[1..]); }
  }

  lemma {:induction false} LinkedIncreasing<W>(t: Table<W>, a: nat)
    requires a < |t| && Linked(t, a)
    ensures Increasing(t[a].kids)
  {
  }

  lemma {:induction false} LinkedFrom<W>(u: Table<W>, a: nat, kids: seq<nat>)
    requires a < |u| && u[a].kids == kids && Increasing(kids)
    requires u[a].head == Nth(kids, 0) && u[a].tail == Nth(kids, |kids| - 1)
    requires forall j :: 0 <= j < |kids| ==> IsLive(u, kids[j]) && u[kids[j]].parent == a &&
                                             u[kids[j]].prev == Nth(kids, j - 1) && u[kids[j]].next == Nth(kids, j + 1)
    ensures Linked(u, a)
  {
  }

  lemma {:induction false} IncreasingDrop(ks: seq<nat>, p: nat)
    requires Increasing(ks) && p < |ks|
    ensures Increasing(ks[..p] + ks[p+1..])
    ensures Without(ks, ks[p]) == ks[..p] + ks[p+1..]
  {
    IncreasingDistinct(ks);
    WithoutAt(ks, p);
  }

  lemma {:induction false} DestroyLinkedOwn<W>(t: Table<W>, d: nat, a: nat)
    requires Tree(t) && Parents(t) && IsLive(t, d) && t[d].parent == a && a >= 0
    ensures Linked(DestroyScope(t, d), a)
  {
    hide Tree, Parents, Linked, Increasing, Without;
    var p := Place(t, d);
    var u, kids := DestroyScope(t, d), t[a].kids[..p] + t[a].kids[p+1..];
    LinkedIncreasing(t, a);
    IncreasingDrop(t[a].kids, p);
    LinkedEnds(t, a);
    assert a < t[a].kids[p];
    assert u[a] == DestroyedNode(t, d, a) && u[a].kids == kids;
    KidsApart(t, a, 0, p);
    KidsApart(t, a, |t[a].kids| - 1, p);
    forall j | 0 <= j < |kids|
      ensures IsLive(u, kids[j]) && u[kids[j]].parent == a
      ensures u[kids[j]].prev == Nth(kids, j - 1) && u[kids[j]].next == Nth(kids, j + 1)
    {
      DestroyOwnKid(t, d, a, p, j);
    }
    LinkedFrom(u, a, kids);
  }

  lemma {:induction false} DestroyKeeps<W>(t: Table<W>, d: nat)
    requires Tree(t) && Parents(t) && IsLive(t, d)
    ensures Tree(DestroyScope(t, d))
  {
    hide Linked, Listed, DeadApart, Parents;
    var u := DestroyScope(t, d);
    DestroyParents(t, d);
    DestroyDead(t, d);
    DestroyListed(t, d);
    DestroyRoot(t, d);
    forall i | 0 <= i < |u| && u[i].live ensures Linked(u, i) {
      assert u[i] == DestroyedNode(t, d, i);
      if i == t[d].parent { DestroyLinkedOwn(t, d, i); } else { DestroyLinkedOther(t, d, i); }
    }
  }

  lemma {:induction false} DestroyRoot<W>(t: Table<W>, d: nat)
    requires Tree(t) && Parents(t) && IsLive(t, d)
    ensures DestroyScope(t, d)[0].prev == -1 && DestroyScope(t, d)[0].next == -1
  {
    hide Linked, DeadApart;
    Siblings(t, d);
    assert DestroyScope(t, d)[0] == DestroyedNode(t, d, 0);
  }

  /** A live scope that survives loses the watchers of what was cut out below it. */
  lemma {:induction false} DestroyTotal<W>(t: Table<W>, d: nat, i: int)
    requires Tree(t) && Parents(t) && IsLive(t, d) && Tree(DestroyScope(t, d)) && IsLive(t, i) && !Above(t, d, i)
    ensures IsLive(DestroyScope(t, d), i)
    ensures Total(DestroyScope(t, d), i) == Total(t, i) - Shift(t, i, d, Total(t, d))
    decreases |t| - i, 1, 0
  {
    hide Tree, Linked, Above, Parents;
    var u := DestroyScope(t, d);
    AboveSelf(t, d);
    assert u[i] == DestroyedNode(t, d, i);
    Kids(t, i);
    Kids(u, i);
    LinkedIncreasing(t, i);
    DestroyTotals(t, d, t[i].kids, i);
    AboveIffBelowOne(t, i, d);
    if i != t[d].parent {
      NotAKid(t, d, t[i].kids, i);
    }
  }

  lemma {:induction false} NotAKid<W>(t: Table<W>, d: nat, ks: seq<nat>, i: int)
    requires d < |t| && KidsFrom(t, ks, i) && t[d].parent != i
    ensures Without(ks, d) == ks
  {
    if ks != [] { NotAKid(t, d, ks[1..], i); }
  }

  lemma {:induction false} DestroyTotals<W>(t: Table<W>, d: nat, ks: seq<nat>, i: int)
    requires Tree(t) && Parents(t) && IsLive(t, d) && Tree(DestroyScope(t, d))
    requires 0 <= i < |t| && KidsFrom(t, ks, i) && Increasing(ks) && IsLive(t, i) && !Above(t, d, i)
    ensures KidsFrom(DestroyScope(t, d), Without(ks, d), i)
    ensures TotalAll(DestroyScope(t, d), Without(ks, d), i)
         == TotalAll(t, ks, i) - if BelowOne(t, ks, d) then Total(t, d) else 0
    decreases |t| - i, 0, |ks|
  {
    hide Tree, Linked, Above, Parents, Increasing;
    if ks != [] {
      var k, u := ks[0], DestroyScope(t, d);
      IncreasingTail(ks);
      DestroyTotals(t, d, ks[1..], i);
      OnlyOneBelow(t, ks, i, d);
      AboveStep(t, d, k);
      AboveSelf(t, d);
      if k == d {
        NotRepeated(ks);
      } else {
        DestroyTotal(t, d, k);
        assert u[k] == DestroyedNode(t, d, k);
        assert Without(ks, d) == [k] + Without(ks[1..], d);
        assert Without(ks, d)[1..] == Without(ks[1..], d);
      }
    }
  }

  lemma {:induction false} IncreasingTail(ks: seq<nat>)
    requires ks != [] && Increasing(ks)
    ensures Increasing(ks[1..])
  {
  }

  lemma {:induction false} NotRepeated(ks: seq<nat>)
    requires ks != [] && Increasing(ks)
    ensures Without(ks[1..], ks[0]) == ks[1..]
  {
    IncreasingDistinct(ks);
    WithoutAbsent(ks[1..], ks[0]);
  }
}
