/** The depth-first walk of `$digest` and the operations that change the scope tree. */
module ScopeWalk {
  import opened Expressions
  import opened Sequences
  import opened ScopeTree

  // ---------------------------------------------------------------------- the pruned walk

  /** The later siblings of `n`, by their `next` links. */
  ghost function Later<W>(t: Table<W>, n: int): seq<nat>
    requires Tree(t) && IsLive(t, n)
    decreases |t| - n
  {
    hide Tree;
    NextIsLive(t, n);
    if t[n].next == -1 then [] else [t[n].next] + Later(t, t[n].next)
  }

  lemma {:induction false} LaterKids<W>(t: Table<W>, n: int)
    requires Tree(t) && IsLive(t, n)
    ensures KidsFrom(t, Later(t, n), t[n].parent)
    decreases |t| - n
  {
    hide Tree;
    NextIsLive(t, n);
    if t[n].next != -1 { LaterKids(t, t[n].next); }
  }

  lemma {:induction false} NextIsLive<W>(t: Table<W>, n: int)
    requires Tree(t) && IsLive(t, n)
    ensures t[n].next != -1 ==> IsLive(t, t[n].next) && n < t[n].next && t[t[n].next].parent == t[n].parent
    ensures t[n].parent < n && (t[n].parent == -1 ==> n == 0 && t[n].next == -1)
    ensures t[n].parent != -1 ==> IsLive(t, t[n].parent)
    ensures t[n].next != -1 ==> t[n].parent != -1
  {
    if n != 0 {
      var i := t[n].parent;
      assert Linked(t, i);
      var j :| 0 <= j < |t[i].kids| && t[i].kids[j] == n;
      assert t[n].next == Nth(t[i].kids, j + 1);
    }
  }

  lemma {:induction false} LaterAre<W>(t: Table<W>, i: int, j: nat)
    requires Tree(t) && IsLive(t, i) && j < |t[i].kids|
    ensures IsLive(t, t[i].kids[j]) && Later(t, t[i].kids[j]) == t[i].kids[j+1..]
    decreases |t[i].kids| - j
  {
    hide Tree, Linked, Later;
    KidLinks(t, i, j);
    LaterStep(t, t[i].kids[j]);
    if j + 1 < |t[i].kids| {
      KidLinks(t, i, j + 1);
      LaterAre(t, i, j + 1);
      assert t[i].kids[j+1..] == [t[i].kids[j + 1]] + t[i].kids[j+2..];
    }
  }

  lemma {:induction false} KidLinks<W>(t: Table<W>, i: int, j: nat)
    requires Tree(t) && IsLive(t, i) && j < |t[i].kids|
    ensures IsLive(t, t[i].kids[j]) && t[t[i].kids[j]].next == Nth(t[i].kids, j + 1)
  {
    hide Tree;
    Kids(t, i);
  }

  lemma {:induction false} LaterStep<W>(t: Table<W>, n: int)
    requires Tree(t) && IsLive(t, n)
    ensures t[n].next == -1 ==> Later(t, n) == []
    ensures t[n].next != -1 ==> IsLive(t, t[n].next) && Later(t, n) == [t[n].next] + Later(t, t[n].next)
  {
    hide Tree;
    NextIsLive(t, n);
  }

  /** What a full walk from `start` still has to look at after the subtree of `n`. */
  ghost function After<W>(t: Table<W>, start: int, n: int): seq<nat>
    requires Tree(t) && IsLive(t, n)
    decreases n
  {
    if n == start || t[n].parent == -1 then []
    else
      NextIsLive(t, n);
      LaterKids(t, n);
      PreAll(t, Later(t, n), t[n].parent) + After(t, start, t[n].parent)
  }

  /** Up from `n` until there is a next sibling; -1 when `start` is reached first. */
  ghost function Climb<W>(t: Table<W>, start: int, n: int): int
    requires Tree(t) && IsLive(t, n)
    decreases n
  {
    if n == start || t[n].parent == -1 then -1
    else if t[n].next != -1 then t[n].next
    else
      NextIsLive(t, n);
      Climb(t, start, t[n].parent)
  }

  lemma {:induction false} SiblingFinds<W>(t: Table<W>, start: int, n: int)
    requires Tree(t) && Parents(t) && IsLive(t, n) && IsLive(t, start) && Above(t, start, n)
    requires n != start && t[n].next != -1
    ensures var k := t[n].next;
            IsLive(t, k) && Above(t, start, k) && After(t, start, n) == Pre(t, k) + After(t, start, k)
  {
    hide Tree, Linked, Above;
    var k, i := t[n].next, t[n].parent;
    NextIsLive(t, n);
    LaterKids(t, n);
    LaterKids(t, k);
    AboveSibling(t, start, n, k);
    PreAllCons(t, k, Later(t, k), i);
    assert After(t, start, n) == PreAll(t, [k] + Later(t, k), i) + After(t, start, i);
    assert After(t, start, k) == PreAll(t, Later(t, k), i) + After(t, start, i);
  }

  lemma {:induction false} PreAllCons<W>(t: Table<W>, k: nat, ks: seq<nat>, i: int)
    requires Tree(t) && 0 <= i < |t| && KidsFrom(t, ks, i) && IsLive(t, k) && i < k && t[k].parent == i
    ensures KidsFrom(t, [k] + ks, i) && PreAll(t, [k] + ks, i) == Pre(t, k) + PreAll(t, ks, i)
  {
    hide Tree, Linked;
    assert ([k] + ks)[1..] == ks;
  }

  lemma {:induction false} AboveSibling<W>(t: Table<W>, start: int, n: int, k: int)
    requires Parents(t) && 0 <= n < |t| && 0 <= k < |t| && t[n].parent == t[k].parent
    requires Above(t, start, n) && n != start && n < k
    ensures Above(t, start, k) && k != start
  {
    AboveBound(t, start, n);
  }

  lemma {:induction false} ClimbFinds<W>(t: Table<W>, start: int, n: int)
    requires Tree(t) && Parents(t) && IsLive(t, n) && IsLive(t, start) && Above(t, start, n)
    ensures var k := Climb(t, start, n);
            if k == -1 then After(t, start, n) == []
            else IsLive(t, k) && Above(t, start, k) && After(t, start, n) == Pre(t, k) + After(t, start, k)
    decreases n
  {
    hide Tree, Linked;
    NextIsLive(t, n);
    if n != start {
      AboveBound(t, start, t[n].parent);
      if t[n].next != -1 {
        SiblingFinds(t, start, n);
      } else {
        LaterKids(t, n);
        ClimbFinds(t, start, t[n].parent);
        assert PreAll(t, Later(t, n), t[n].parent) == [];
        assert After(t, start, n) == After(t, start, t[n].parent);
      }
    }
  }

  /** Going down to the first child loses nothing. */
  lemma {:induction false} DescendFinds<W>(t: Table<W>, start: int, n: int)
    requires Tree(t) && Parents(t) && IsLive(t, n) && IsLive(t, start) && Above(t, start, n) && t[n].head != -1
    ensures var k := t[n].head;
            IsLive(t, k) && Above(t, start, k) && Pre(t, n) + After(t, start, n) == [n] + (Pre(t, k) + After(t, start, k))
  {
    hide Tree, Linked, Above, Pre, After, KidsFrom;
    Kids(t, n);
    var k := t[n].head;
    FirstKid(t, n);
    LaterAre(t, n, 0);
    LaterKids(t, k);
    FirstAbove(t, start, n, k);
    PreAllFirst(t, n, k);
    AfterKid(t, start, n, k);
  }

  lemma {:induction false} FirstKid<W>(t: Table<W>, n: int)
    requires Tree(t) && IsLive(t, n) && t[n].head != -1
    ensures t[n].kids != [] && t[n].head == t[n].kids[0] && IsLive(t, t[n].head) && t[t[n].head].parent == n < t[n].head
  {
    hide Tree;
    Kids(t, n);
  }

  lemma {:induction false} FirstAbove<W>(t: Table<W>, start: int, n: int, k: int)
    requires Parents(t) && 0 <= n < |t| && 0 <= k < |t| && t[k].parent == n && Above(t, start, n)
    ensures Above(t, start, k) && start != k
  {
    AboveBound(t, start, n);
  }

  lemma {:induction false} PreAllFirst<W>(t: Table<W>, n: int, k: int)
    requires Tree(t) && IsLive(t, n) && t[n].kids != [] && t[n].kids[0] == k && IsLive(t, k) && KidsFrom(t, t[n].kids, n)
    ensures KidsFrom(t, t[n].kids[1..], n) && Pre(t, n) == [n] + (Pre(t, k) + PreAll(t, t[n].kids[1..], n))
  {
    hide Tree, Linked;
  }

  lemma {:induction false} AfterKid<W>(t: Table<W>, start: int, n: int, k: int)
    requires Tree(t) && IsLive(t, n) && IsLive(t, k) && t[k].parent == n && k != start && n != -1
    requires Later(t, k) == t[n].kids[1..] && KidsFrom(t, t[n].kids[1..], n)
    ensures After(t, start, k) == PreAll(t, t[n].kids[1..], n) + After(t, start, n)
  {
    hide Tree, Linked;
  }

  lemma {:induction false} LeafPre<W>(t: Table<W>, n: int)
    requires Tree(t) && IsLive(t, n) && t[n].head == -1
    ensures Pre(t, n) == [n]
  {
    hide Tree;
    Kids(t, n);
    assert t[n].kids == [];
  }

  /** Where the walk goes after `n`, with the counter as it should be. */
  ghost function Successor<W>(t: Table<W>, start: int, n: int): int
    requires Tree(t) && IsLive(t, n)
  {
    if Total(t, n) != 0 && t[n].head != -1 then t[n].head else Climb(t, start, n)
  }

  ghost predicate InTable<W>(t: Table<W>, order: seq<nat>) {
    forall j :: 0 <= j < |order| ==> order[j] < |t|
  }

  /** All that is left to look at from `n` on. */
  ghost function Left<W>(t: Table<W>, start: int, n: int): (order: seq<nat>)
    requires Tree(t) && IsLive(t, n)
    ensures |order| > 0
  {
    Pre(t, n) + After(t, start, n)
  }

  lemma {:induction false} AfterLive<W>(t: Table<W>, start: int, n: int)
    requires Tree(t) && IsLive(t, n)
    ensures forall x :: x in After(t, start, n) ==> IsLive(t, x)
    decreases n
  {
    hide Tree, Linked;
    NextIsLive(t, n);
    if n != start && t[n].parent != -1 {
      LaterKids(t, n);
      PreAllLive(t, Later(t, n), t[n].parent);
      AfterLive(t, start, t[n].parent);
    }
  }

  lemma {:induction false} LeftInTable<W>(t: Table<W>, start: int, n: int)
    requires Tree(t) && IsLive(t, n)
    ensures InTable(t, Left(t, start, n))
  {
    hide Tree, Linked;
    PreLive(t, n);
    AfterLive(t, start, n);
    forall j | 0 <= j < |Left(t, start, n)| ensures Left(t, start, n)[j] < |t| {
      assert Left(t, start, n)[j] in Left(t, start, n);
    }
  }

  /** One step of the walk: it looks at the watchers of `n`, and what the pruning leaves out has
    * none. */
  lemma {:induction false} WalkStep<W>(t: Table<W>, start: int, n: int)
    requires Tree(t) && Parents(t) && IsLive(t, n) && IsLive(t, start) && Above(t, start, n)
    ensures InTable(t, Left(t, start, n))
    ensures var k := Successor(t, start, n);
            if k == -1 then Watchers(t, Left(t, start, n)) == Reverse(t[n].watchers)
            else IsLive(t, k) && Above(t, start, k) && |Left(t, start, k)| < |Left(t, start, n)| &&
                 InTable(t, Left(t, start, k)) &&
                 Watchers(t, Left(t, start, n)) == Reverse(t[n].watchers) + Watchers(t, Left(t, start, k))
  {
    hide Tree, Linked;
    LeftInTable(t, start, n);
    if Total(t, n) != 0 && t[n].head != -1 {
      DescendFinds(t, start, n);
      var k := t[n].head;
      LeftInTable(t, start, k);
      assert ([n] + Left(t, start, k))[1..] == Left(t, start, k);
    } else {
      ClimbFinds(t, start, n);
      PreLive(t, n);
      AfterLive(t, start, n);
      InTableOf(t, Pre(t, n));
      InTableOf(t, After(t, start, n));
      WatchersConcat(t, Pre(t, n), After(t, start, n));
      OwnOnly(t, n);
      var k := Climb(t, start, n);
      if k != -1 { LeftInTable(t, start, k); }
    }
  }

  lemma {:induction false} InTableOf<W>(t: Table<W>, order: seq<nat>)
    requires forall x :: x in order ==> IsLive(t, x)
    ensures InTable(t, order)
  {
    forall j | 0 <= j < |order| ensures order[j] < |t| { assert order[j] in order; }
  }

  /** A pruned subtree has only its root's watchers, if any. */
  lemma {:induction false} OwnOnly<W>(t: Table<W>, n: int)
    requires Tree(t) && IsLive(t, n) && (Total(t, n) == 0 || t[n].head == -1)
    ensures InTable(t, Pre(t, n)) && Watchers(t, Pre(t, n)) == Reverse(t[n].watchers)
  {
    hide Tree, Linked;
    TotalIsLength(t, n);
    ReverseLength(t[n].watchers);
    if t[n].head == -1 {
      LeafPre(t, n);
      assert [n][1..] == [];
    }
  }

  /** The whole pruned walk. */
  ghost function Walk<W>(t: Table<W>, start: int, n: int): seq<W>
    requires Tree(t) && Parents(t) && IsLive(t, n) && IsLive(t, start) && Above(t, start, n)
    decreases |Left(t, start, n)|
  {
    hide Tree;
    WalkStep(t, start, n);
    var k := Successor(t, start, n);
    Reverse(t[n].watchers) + if k == -1 then [] else Walk(t, start, k)
  }

  lemma {:induction false} WalkIsFull<W>(t: Table<W>, start: int, n: int)
    requires Tree(t) && Parents(t) && IsLive(t, n) && IsLive(t, start) && Above(t, start, n)
    ensures InTable(t, Left(t, start, n)) && Walk(t, start, n) == Watchers(t, Left(t, start, n))
    decreases |Left(t, start, n)|
  {
    hide Tree;
    WalkStep(t, start, n);
    var k := Successor(t, start, n);
    if k != -1 { WalkIsFull(t, start, k); }
  }

  /** The pruned walk from `start` looks at every watcher at or below `start`, scope by scope in
    * depth-first order, each once. */
  lemma {:induction false} PrunedWalkComplete<W>(t: Table<W>, start: int)
    requires Tree(t) && Parents(t) && IsLive(t, start)
    ensures InTable(t, Pre(t, start)) && Walk(t, start, start) == Watchers(t, Pre(t, start))
    ensures Distinct(Pre(t, start)) && |Walk(t, start, start)| == Total(t, start)
    ensures forall x :: IsLive(t, x) ==> (x in Pre(t, start) <==> Above(t, start, x))
  {
    hide Tree, Linked;
    WalkIsFull(t, start, start);
    assert Left(t, start, start) == Pre(t, start);
    PreOnce(t, start);
    TotalIsLength(t, start);
    forall x | IsLive(t, x) ensures x in Pre(t, start) <==> Above(t, start, x) {
      PreExactly(t, start, x);
    }
  }
}
