/** Scopes as objects: parent, sibling and child pointers, and the watcher counters that
  * `$watch`, unwatching and `$destroy` push up the parent chain. */
module ScopeHeap {
  import opened Expressions
  import opened Sequences
  import opened ScopeTree
  import opened ScopeWalk
  import opened ScopeOps

  class Scope<W> {
    var parent: Scope?<W>
    var prev: Scope?<W>
    var next: Scope?<W>
    var head: Scope?<W>
    var tail: Scope?<W>
    /** The list of watchers, which the unwatch closures keep hold of. */
    var watchers: seq<W>
    var count: int
    /** The place of this scope in order of creation. */
    ghost const place: nat

    constructor (parent: Scope?<W>, prev: Scope?<W>, ghost place: nat)
      ensures this.parent == parent && this.prev == prev && next == null && head == null && tail == null
      ensures watchers == [] && count == 0 && this.place == place
    {
      this.parent, this.prev, next, head, tail := parent, prev, null, null, null;
      watchers, count, this.place := [], 0, place;
    }
  }

  /** The scope at a place, null for -1. */
  ghost function At<W>(all: seq<Scope<W>>, i: int): Scope?<W> {
    if 0 <= i < |all| then all[i] else null
  }

  ghost predicate Places<W>(all: seq<Scope<W>>, repr: set<Scope<W>>) {
    forall i {:trigger all[i]} :: 0 <= i < |all| ==> all[i].place == i && all[i] in repr
  }

  ghost predicate HasParents<W>(all: seq<Scope<W>>, repr: set<Scope<W>>, t: Table<W>)
    requires Places(all, repr)
    reads repr`parent
  {
    |all| == |t| && forall i {:trigger all[i].parent} :: 0 <= i < |all| ==> all[i].parent == At(all, t[i].parent)
  }

  ghost predicate HasPrevs<W>(all: seq<Scope<W>>, repr: set<Scope<W>>, t: Table<W>)
    requires Places(all, repr)
    reads repr`prev
  {
    |all| == |t| && forall i {:trigger all[i].prev} :: 0 <= i < |all| ==> all[i].prev == At(all, t[i].prev)
  }

  ghost predicate HasNexts<W>(all: seq<Scope<W>>, repr: set<Scope<W>>, t: Table<W>)
    requires Places(all, repr)
    reads repr`next
  {
    |all| == |t| && forall i {:trigger all[i].next} :: 0 <= i < |all| ==> all[i].next == At(all, t[i].next)
  }

  ghost predicate HasHeads<W>(all: seq<Scope<W>>, repr: set<Scope<W>>, t: Table<W>)
    requires Places(all, repr)
    reads repr`head
  {
    |all| == |t| && forall i {:trigger all[i].head} :: 0 <= i < |all| ==> all[i].head == At(all, t[i].head)
  }

  ghost predicate HasTails<W>(all: seq<Scope<W>>, repr: set<Scope<W>>, t: Table<W>)
    requires Places(all, repr)
    reads repr`tail
  {
    |all| == |t| && forall i {:trigger all[i].tail} :: 0 <= i < |all| ==> all[i].tail == At(all, t[i].tail)
  }

  ghost predicate HasWatchers<W>(all: seq<Scope<W>>, repr: set<Scope<W>>, t: Table<W>)
    requires Places(all, repr)
    reads repr`watchers
  {
    |all| == |t| && forall i {:trigger all[i].watchers} :: 0 <= i < |all| ==> all[i].watchers == t[i].watchers
  }

  /** Every live scope counts the watchers at and below it. */
  ghost predicate HasCounts<W>(all: seq<Scope<W>>, repr: set<Scope<W>>, t: Table<W>)
    requires Places(all, repr) && Tree(t)
    reads repr`count
  {
    |all| == |t| && forall i {:trigger all[i].count} :: 0 <= i < |all| && t[i].live ==> all[i].count == Total(t, i)
  }

  /** Pointers stay inside the table. */
  ghost predicate InRange<W>(t: Table<W>) {
    forall i :: 0 <= i < |t| ==>
      -1 <= t[i].parent < |t| && -1 <= t[i].prev < |t| && -1 <= t[i].next < |t| && -1 <= t[i].head < |t| && -1 <= t[i].tail < |t|
  }

  ghost function RootOnly<W>(): (t: Table<W>)
    ensures Tree(t)
  {
    [Node(true, -1, -1, -1, -1, -1, [], [])]
  }

  lemma {:induction false} RootOnlyTotal<W>()
    ensures Total(RootOnly<W>(), 0) == 0
  {
  }

  // ------------------------------------------------------------------------------ whole runs

  /** What a program may do to scopes, named by their places in order of creation. */
  datatype Op<W> = NewChild(at: nat) | AddWatch(at: nat, w: W) | DropWatch(at: nat, w: W) | Remove(at: nat)

  /** What the methods of `Scopes` do to the table.  A call on a scope that does not exist does
    * nothing, and neither does removing one that is already gone. */
  ghost function Apply<W>(t: Table<W>, op: Op<W>): (u: Table<W>)
    requires Tree(t)
    ensures Tree(u)
  {
    hide Tree;
    TreeParents(t);
    match op
    case NewChild(c) => if c < |t| then AddKeeps(t, c); AddScope(t, c) else t
    case AddWatch(s, w) =>
      if s < |t| then SetWatchersKeeps(t, s, [w] + t[s].watchers); SetWatchers(t, s, [w] + t[s].watchers) else t
    case DropWatch(s, w) =>
      if s < |t| then SetWatchersKeeps(t, s, Without(t[s].watchers, w)); SetWatchers(t, s, Without(t[s].watchers, w)) else t
    case Remove(s) => if IsLive(t, s) then DestroyKeeps(t, s); DestroyScope(t, s) else t
  }

  ghost function Run<W>(t: Table<W>, ops: seq<Op<W>>): (u: Table<W>)
    requires Tree(t)
    ensures Tree(u)
    decreases |ops|
  {
    if ops == [] then t else Apply(Run(t, ops[..|ops| - 1]), ops[|ops| - 1])
  }

  /** After any run, from any scope that is still live, the pruned walk sees exactly the watchers
    * of the scopes at and below it, scope by scope in depth-first order, no scope twice. */
  lemma {:induction false} AnyRunWalks<W>(ops: seq<Op<W>>, start: int)
    requires IsLive(Run(RootOnly<W>(), ops), start)
    ensures var t := Run(RootOnly<W>(), ops);
            Parents(t) && Above(t, start, start) && InTable(t, Pre(t, start)) &&
            Walk(t, start, start) == Watchers(t, Pre(t, start)) && Distinct(Pre(t, start)) &&
            (forall x :: IsLive(t, x) ==> (x in Pre(t, start) <==> Above(t, start, x)))
  {
    hide Tree, Run;
    var t := Run(RootOnly<W>(), ops);
    TreeParents(t);
    AboveSelf(t, start);
    PrunedWalkComplete(t, start);
  }

  /** Watchers put on one scope one after the other. */
  ghost function AddAll<W>(t: Table<W>, at: nat, ws: seq<W>): (u: Table<W>)
    requires Tree(t)
    ensures Tree(u)
    decreases |ws|
  {
    if ws == [] then t else AddAll(Apply(t, AddWatch(at, ws[0])), at, ws[1..])
  }

  /** The walk looks at the watchers of a scope in the order in which they were put on it, however many
    * there were before. */
  lemma {:induction false} SeenAsAdded<W>(t: Table<W>, at: nat, ws: seq<W>)
    requires Tree(t) && at < |t|
    ensures var u := AddAll(t, at, ws);
            |u| == |t| && Watchers(u, [at]) == Watchers(t, [at]) + ws
    decreases |ws|
  {
    hide Tree;
    OneScope(t, at);
    if ws != [] {
      var v := Apply(t, AddWatch(at, ws[0]));
      assert v == SetWatchers(t, at, [ws[0]] + t[at].watchers);
      WatchersSet(t, at, [ws[0]] + t[at].watchers);
      SeenAsAdded(v, at, ws[1..]);
      OneScope(v, at);
      AddedLast(t[at].watchers, ws[0]);
      assert Watchers(t, [at]) + [ws[0]] + ws[1..] == Watchers(t, [at]) + ws by { assert ws == [ws[0]] + ws[1..]; }
    }
  }

  lemma {:induction false} WatchersSet<W>(t: Table<W>, at: nat, ws: seq<W>)
    requires at < |t|
    ensures |SetWatchers(t, at, ws)| == |t| && SetWatchers(t, at, ws)[at].watchers == ws
  {
  }

  lemma {:induction false} OneScope<W>(t: Table<W>, at: nat)
    requires at < |t|
    ensures Watchers(t, [at]) == Reverse(t[at].watchers)
  {
    assert [at][1..] == [];
  }

  lemma {:induction false} AddedLast<W>(s: seq<W>, w: W)
    ensures Reverse([w] + s) == Reverse(s) + [w]
  {
    forall k | 0 <= k < |s| + 1 ensures |Reverse([w] + s)| == |s| + 1 && |Reverse(s)| == |s| && Reverse([w] + s)[k] == (Reverse(s) + [w])[k] {
      LastFirst([w] + s, k);
      ReverseLength(s);
      if k < |s| { LastFirst(s, k); }
    }
  }

  /** Taking a watcher off leaves all others, in their order, and goes for the one put on last; a watcher that
    * is not there leaves everything as it is. */
  lemma {:induction false} SeenWithout<W>(t: Table<W>, at: nat, w: W, a: seq<W>, b: seq<W>)
    requires Tree(t) && at < |t|
    requires Watchers(t, [at]) == a + [w] + b && w !in b
    ensures var u := Apply(t, DropWatch(at, w));
            |u| == |t| && Watchers(u, [at]) == a + b && forall i :: 0 <= i < |t| && i != at ==> u[i] == t[i]
  {
    hide Tree;
    OneScope(t, at);
    var s := t[at].watchers;
    ReverseTwice(s);
    ReverseConcat(a + [w], b);
    ReverseConcat(a, [w]);
    ReverseConcat(a, b);
    assert Reverse([w]) == [w];
    ReverseHas(b, w);
    WithoutFirst(Reverse(b), w, Reverse(a));
    assert s == Reverse(b) + ([w] + Reverse(a));
    var u := Apply(t, DropWatch(at, w));
    assert u == SetWatchers(t, at, Reverse(b) + Reverse(a));
    OneScope(u, at);
    ReverseTwice(a + b);
  }

  lemma {:induction false} NotThere<W>(t: Table<W>, at: nat, w: W)
    requires Tree(t) && at < |t| && w !in t[at].watchers
    ensures Apply(t, DropWatch(at, w)) == t
  {
    hide Tree;
    WithoutAbsent(t[at].watchers, w);
  }

  lemma {:induction false} WithoutFirst<W>(a: seq<W>, w: W, b: seq<W>)
    requires w !in a
    ensures Without(a + ([w] + b), w) == a + b
  {
    var s := a + ([w] + b);
    if a == [] {
      assert s == [w] + b;
    } else {
      assert s[1..] == a[1..] + ([w] + b);
      WithoutFirst(a[1..], w, b);
    }
  }

  lemma {:induction false} ReverseConcat<W>(a: seq<W>, b: seq<W>)
    ensures Reverse(a + b) == Reverse(b) + Reverse(a)
  {
    if a == [] {
      assert a + b == b;
    } else {
      assert (a + b)[1..] == a[1..] + b;
      ReverseConcat(a[1..], b);
    }
  }

  lemma {:induction false} ReverseTwice<W>(s: seq<W>)
    ensures Reverse(Reverse(s)) == s
  {
    if s != [] {
      ReverseTwice(s[1..]);
      ReverseConcat(Reverse(s[1..]), [s[0]]);
      assert Reverse([s[0]]) == [s[0]];
    }
  }

  lemma {:induction false} ReverseHas<W>(s: seq<W>, w: W)
    ensures w in Reverse(s) <==> w in s
  {
    if s != [] { ReverseHas(s[1..], w); }
  }

  /** Removing a live scope ends exactly the scopes at and below it; the others keep their watchers.  Removing
    * one again does nothing. */
  lemma {:induction false} RemovedIs<W>(t: Table<W>, at: nat)
    requires Tree(t) && at < |t|
    ensures Parents(t)
    ensures var u := Apply(t, Remove(at));
            |u| == |t| && (t[at].live ==> forall i :: 0 <= i < |t| ==>
                             u[i].watchers == t[i].watchers && (u[i].live <==> t[i].live && !Above(t, at, i)))
    ensures !t[at].live ==> Apply(t, Remove(at)) == t
  {
    hide Tree;
    TreeParents(t);
    AboveSelf(t, at);
  }

  class Scopes<W(==)> {
    const root: Scope<W>
    ghost var all: seq<Scope<W>>
    ghost var repr: set<Scope<W>>
    ghost var table: Table<W>

    ghost predicate Shape()
      reads this, repr
    {
      && Places(all, repr) && InRange(table)
      && HasParents(all, repr, table) && HasPrevs(all, repr, table) && HasNexts(all, repr, table)
      && HasHeads(all, repr, table) && HasTails(all, repr, table) && HasWatchers(all, repr, table)
    }

    ghost predicate Valid()
      reads this, repr
    {
      Shape() && Tree(table) && HasCounts(all, repr, table) && root == all[0]
    }

    constructor ()
      ensures Valid() && fresh(repr) && |table| == 1 && table[0].live && table[0].watchers == []
    {
      root := new Scope(null, null, 0);
      new;
      all, repr := [root], {root};
      table := RootOnly();
      RootOnlyTotal<W>();
    }

    /** Adds to the counter of a scope and, going up the parents, to those of all above it. */
    method AddCount(s: Scope<W>, delta: int)
      requires Places(all, repr) && HasParents(all, repr, table) && Parents(table) && s in all
      modifies repr`count
      ensures s.place < |all| && all[s.place] == s
      ensures forall i {:trigger all[i].count} :: 0 <= i < |all| ==>
        all[i].count == old(all[i].count) + Shift(table, i, s.place, delta)
    {
      var a: Scope?<W> := s;
      ghost var k: int := s.place;
      while a != null
        invariant -1 <= k < |all| && a == At(all, k)
        invariant forall i {:trigger all[i].count} :: 0 <= i < |all| ==>
          all[i].count == old(all[i].count) + Shift(table, i, s.place, delta) - Shift(table, i, k, delta)
        decreases k
      {
        ghost var up := table[k].parent;
        assert a == all[k];
        a.count := a.count + delta;
        assert !Above(table, k, up) by { if Above(table, k, up) { AboveBound(table, k, up); } }
        a := a.parent;
        k := up;
      }
    }

    /** Replaces a scope's list and moves the counters along. */
    method ChangeWatchers(s: Scope<W>, ws: seq<W>, delta: int)
      requires Valid() && s in all && delta == |ws| - |s.watchers|
      modifies this`table, repr`watchers, repr`count
      ensures Valid() && s.place < |old(table)| && table == SetWatchers(old(table), s.place, ws)
    {
      hide Tree, Total, Above, HasPrevs, HasNexts, HasHeads, HasTails;
      ghost var t := table;
      TreeParents(t);
      assert s == all[s.place] && s.watchers == t[s.place].watchers;
      WriteList(s, ws);
      SetWatchersKeeps(t, s.place, ws);
      TreeParents(table);
      AddCount(s, delta);
      forall i | 0 <= i < |all| && t[i].live
        ensures all[i].count == Total(table, i)
      {
        CountAfter(t, s.place, ws, i);
        SameParentsAbove(t, table, i, s.place);
      }
    }

    method WriteList(s: Scope<W>, ws: seq<W>)
      requires Shape() && s in all
      modifies this`table, repr`watchers
      ensures Shape() && s.place < |old(table)| && all[s.place] == s
      ensures table == SetWatchers(old(table), s.place, ws)
    {
      s.watchers := ws;
      table := SetWatchers(table, s.place, ws);
    }

    /** `$watch`: the new watcher goes to the front. */
    method Watch(s: Scope<W>, w: W)
      requires Valid() && s in all
      modifies this`table, repr`watchers, repr`count
      ensures Valid() && s.place < |old(table)|
      ensures table == SetWatchers(old(table), s.place, [w] + old(table)[s.place].watchers)
    {
      assert s.watchers == table[s.place].watchers;
      ChangeWatchers(s, [w] + s.watchers, 1);
    }

    /** The function `$watch` returns: takes the watcher out of the list, if it is there. */
    method Unwatch(s: Scope<W>, w: W)
      requires Valid() && s in all
      modifies this`table, repr`watchers, repr`count
      ensures Valid() && s.place < |old(table)|
      ensures table == SetWatchers(old(table), s.place, Without(old(table)[s.place].watchers, w))
    {
      assert s == all[s.place] && s.watchers == table[s.place].watchers;
      if w in s.watchers {
        WithoutLength(s.watchers, w);
        ChangeWatchers(s, Without(s.watchers, w), -1);
      } else {
        WithoutAbsent(s.watchers, w);
      }
    }

    // ----------------------------------------------------------------------------- $destroy

    method CutHeads(a: Scope?<W>, s: Scope<W>, next: Scope?<W>, ghost d: nat)
      requires Places(all, repr) && HasHeads(all, repr, table) && Parents(table)
      requires d < |all| && s == all[d] && a == At(all, table[d].parent) && next == At(all, table[d].next)
      requires -1 <= table[d].next < |all| && InRange(table)
      modifies repr`head
      ensures HasHeads(all, repr, DestroyScope(table, d))
    {
      if a != null && a.head == s { a.head := next; }
      s.head := null;
    }

    method CutTails(a: Scope?<W>, s: Scope<W>, prev: Scope?<W>, ghost d: nat)
      requires Places(all, repr) && HasTails(all, repr, table) && Parents(table)
      requires d < |all| && s == all[d] && a == At(all, table[d].parent) && prev == At(all, table[d].prev)
      requires -1 <= table[d].prev < |all| && InRange(table)
      modifies repr`tail
      ensures HasTails(all, repr, DestroyScope(table, d))
    {
      if a != null && a.tail == s { a.tail := prev; }
      s.tail := null;
    }

    method CutNexts(s: Scope<W>, prev: Scope?<W>, next: Scope?<W>, ghost d: nat)
      requires Places(all, repr) && HasNexts(all, repr, table) && Parents(table)
      requires d < |all| && s == all[d] && prev == At(all, table[d].prev) && next == At(all, table[d].next)
      requires InRange(table)
      modifies repr`next
      ensures HasNexts(all, repr, DestroyScope(table, d))
    {
      if prev != null { prev.next := next; }
      s.next := null;
    }

    method CutPrevs(s: Scope<W>, prev: Scope?<W>, next: Scope?<W>, ghost d: nat)
      requires Places(all, repr) && HasPrevs(all, repr, table) && Parents(table)
      requires d < |all| && s == all[d] && prev == At(all, table[d].prev) && next == At(all, table[d].next)
      requires InRange(table)
      modifies repr`prev
      ensures HasPrevs(all, repr, DestroyScope(table, d))
    {
      if next != null { next.prev := prev; }
      s.prev := null;
    }

    method CutParent(s: Scope<W>, ghost d: nat)
      requires Places(all, repr) && HasParents(all, repr, table) && Parents(table)
      requires d < |all| && s == all[d]
      modifies repr`parent
      ensures HasParents(all, repr, DestroyScope(table, d))
    {
      s.parent := null;
    }

    lemma {:induction false} CutRest(d: nat)
      requires Places(all, repr) && HasWatchers(all, repr, table) && Parents(table) && d < |all| && InRange(table)
      ensures HasWatchers(all, repr, DestroyScope(table, d)) && InRange(DestroyScope(table, d))
    {
    }

    /** The pointer part of `$destroy`. */
    method Cut(s: Scope<W>, ghost d: nat)
      requires Shape() && Parents(table) && d < |all| && s == all[d]
      modifies this`table, repr`parent, repr`prev, repr`next, repr`head, repr`tail
      ensures Shape() && table == DestroyScope(old(table), d)
    {
      hide HasParents, HasPrevs, HasNexts, HasHeads, HasTails, HasWatchers, Parents, DestroyScope, At, Places, InRange;
      var a, prev, next := s.parent, s.prev, s.next;
      Pointers(d);
      CutHeads(a, s, next, d);
      CutTails(a, s, prev, d);
      CutNexts(s, prev, next, d);
      CutPrevs(s, prev, next, d);
      CutParent(s, d);
      CutRest(d);
      table := DestroyScope(table, d);
    }

    lemma {:induction false} Pointers(d: nat)
      requires Shape() && d < |all|
      ensures |all| == |table| && all[d].parent == At(all, table[d].parent)
      ensures all[d].prev == At(all, table[d].prev) && all[d].next == At(all, table[d].next)
      ensures all[d].head == At(all, table[d].head) && all[d].tail == At(all, table[d].tail)
      ensures all[d].watchers == table[d].watchers
      ensures -1 <= table[d].parent < |all| && -1 <= table[d].prev < |all| && -1 <= table[d].next < |all|
      ensures -1 <= table[d].head < |all| && -1 <= table[d].tail < |all|
    {
    }

    /** `$destroy` of a scope that is still live: the scopes above lose its watchers from their
      * counts, and it leaves the sibling list. */
    method Destroy(s: Scope<W>)
      requires Valid() && s in all && IsLive(table, s.place)
      modifies this`table, repr`parent, repr`prev, repr`next, repr`head, repr`tail, repr`count
      ensures Valid() && old(Parents(table)) && table == DestroyScope(old(table), s.place)
    {
      hide Tree, Total, Above, HasPrevs, HasNexts, HasHeads, HasTails;
      ghost var t, d := table, s.place;
      TreeParents(t);
      AddCount(s, -s.count);
      Cut(s, d);
      DestroyKeeps(t, d);
      forall i | 0 <= i < |all| && table[i].live
        ensures all[i].count == Total(table, i)
      {
        assert table[i] == DestroyedNode(t, d, i);
        DestroyTotal(t, d, i);
      }
    }

    // --------------------------------------------------------------------------------- $new

    method LinkNext(c: Scope<W>, d: Scope<W>, ghost p: nat)
      requires Places(all, repr) && HasNexts(all, repr, table) && HasHeads(all, repr, table) && HasTails(all, repr, table)
      requires p < |all| && c == all[p] && d !in repr && d.place == |all| && d.next == null
      requires InRange(table) && (table[p].head != -1 ==> 0 <= table[p].tail)
      modifies repr`next
      ensures Places(all + [d], repr + {d}) && HasNexts(all + [d], repr + {d}, AddScope(table, p))
    {
      if c.head != null { c.tail.next := d; }
    }

    method LinkHead(c: Scope<W>, d: Scope<W>, ghost p: nat)
      requires Places(all, repr) && HasHeads(all, repr, table) && InRange(table)
      requires p < |all| && c == all[p] && d !in repr && d.place == |all| && d.head == null
      modifies repr`head
      ensures Places(all + [d], repr + {d}) && HasHeads(all + [d], repr + {d}, AddScope(table, p))
    {
      if c.head == null { c.head := d; }
    }

    method LinkTail(c: Scope<W>, d: Scope<W>, ghost p: nat)
      requires Places(all, repr) && HasTails(all, repr, table) && InRange(table)
      requires p < |all| && c == all[p] && d !in repr && d.place == |all| && d.tail == null
      modifies repr`tail
      ensures Places(all + [d], repr + {d}) && HasTails(all + [d], repr + {d}, AddScope(table, p))
    {
      c.tail := d;
    }

    lemma {:induction false} NewRest(c: Scope<W>, d: Scope<W>, p: nat)
      requires Places(all, repr) && HasParents(all, repr, table) && HasPrevs(all, repr, table)
      requires HasWatchers(all, repr, table) && InRange(table)
      requires p < |all| && c == all[p] && d !in repr && d.place == |all|
      requires d.parent == c && d.prev == At(all, table[p].tail) && d.watchers == []
      ensures Places(all + [d], repr + {d})
      ensures HasParents(all + [d], repr + {d}, AddScope(table, p)) && HasPrevs(all + [d], repr + {d}, AddScope(table, p))
      ensures HasWatchers(all + [d], repr + {d}, AddScope(table, p))
    {
    }

    lemma {:induction false} NewInRange(p: nat)
      requires InRange(table) && p < |table|
      ensures InRange(AddScope(table, p))
    {
    }

    /** The pointer part of `$new`. */
    method Hang(c: Scope<W>, d: Scope<W>, ghost p: nat)
      requires Shape() && p < |all| && c == all[p] && d !in repr && d.place == |all|
      requires d.parent == c && d.prev == c.tail && d.next == null && d.head == null && d.tail == null && d.watchers == []
      requires table[p].head != -1 ==> 0 <= table[p].tail
      modifies this`all, this`repr, this`table, repr`next, repr`head, repr`tail
      ensures Shape() && all == old(all) + [d] && repr == old(repr) + {d} && table == AddScope(old(table), p)
    {
      hide HasParents, HasPrevs, HasNexts, HasHeads, HasTails, HasWatchers, InRange, Places, AddScope, AddedNode;
      Pointers(p);
      NewRest(c, d, p);
      NewInRange(p);
      Link(c, d, p);
      all, repr, table := all + [d], repr + {d}, AddScope(table, p);
    }

    /** The new scope becomes the last child of its parent, and the first if there was none. */
    method Link(c: Scope<W>, d: Scope<W>, ghost p: nat)
      requires Places(all, repr) && InRange(table)
      requires HasNexts(all, repr, table) && HasHeads(all, repr, table) && HasTails(all, repr, table)
      requires p < |all| && p < |table| && c == all[p] && d !in repr && d.place == |all|
      requires d.next == null && d.head == null && d.tail == null && (table[p].head != -1 ==> 0 <= table[p].tail)
      modifies repr`next, repr`head, repr`tail
      ensures Places(all + [d], repr + {d}) && HasNexts(all + [d], repr + {d}, AddScope(table, p))
      ensures HasHeads(all + [d], repr + {d}, AddScope(table, p)) && HasTails(all + [d], repr + {d}, AddScope(table, p))
    {
      hide HasNexts, HasHeads, HasTails, InRange, Places, AddScope, AddedNode;
      LinkNext(c, d, p);
      LinkHead(c, d, p);
      LinkTail(c, d, p);
    }

    /** `$new`: a scope without watchers at the end of its parent's list of children. */
    method New(c: Scope<W>) returns (d: Scope<W>)
      requires Valid() && c in all
      modifies this`all, this`repr, this`table, repr`next, repr`head, repr`tail
      ensures Valid() && fresh(d) && all == old(all) + [d] && repr == old(repr) + {d}
      ensures c.place < |old(table)| && table == AddScope(old(table), c.place)
    {
      hide Tree, Total, HasParents, HasPrevs, HasNexts, HasHeads, HasTails;
      ghost var t, p := table, c.place;
      assert c == all[p];
      d := new Scope(c, c.tail, |all|);
      LastKid(t, p);
      Hang(c, d, p);
      AddKeeps(t, p);
      assert table[..|t|] == AddScope(t, p)[..|t|];
      forall i | 0 <= i < |all| && table[i].live
        ensures all[i].count == Total(table, i)
      {
        AddTotal(t, p, i);
        assert table[i] == AddedNode(t, p, i);
      }
    }

    // --------------------------------------------------------------------------- the walk

    /** The watchers of one scope, from the last to the first. */
    method Own(s: Scope<W>, seen: seq<W>) returns (out: seq<W>)
      ensures out == seen + Reverse(s.watchers)
    {
      out := seen;
      var k := s.watchers;
      var m := |k|;
      while m > 0
        invariant 0 <= m <= |k| && out == seen + Reverse(k[m..])
      {
        m := m - 1;
        out := out + [k[m]];
        assert k[m..] == [k[m]] + k[m+1..];
      }
      assert k[0..] == k;
    }

    /** The climbing loop: up the parents until a scope has a next sibling or the start is reached. */
    method ClimbFrom(start: Scope<W>, from: Scope<W>) returns (k: Scope?<W>)
      requires Shape() && Tree(table) && start in all && from in all
      requires start.place < |all| && from.place < |all| && IsLive(table, start.place) && IsLive(table, from.place)
      requires Parents(table) && Above(table, start.place, from.place)
      ensures -1 <= Climb(table, start.place, from.place) < |all|
      ensures k == At(all, Climb(table, start.place, from.place))
    {
      hide Tree, HasParents, HasPrevs, HasNexts, HasHeads, HasTails, InRange;
      var n := from;
      k := null;
      assert n == all[n.place];
      Pointers(n.place);
      while n != start && k == null
        invariant n in all && n.place < |all| && IsLive(table, n.place) && Above(table, start.place, n.place)
        invariant -1 <= table[n.place].next < |all|
        invariant k == null ==> Climb(table, start.place, n.place) == Climb(table, start.place, from.place)
        invariant k != null ==> k == At(all, Climb(table, start.place, from.place))
        invariant k != null ==> 0 <= Climb(table, start.place, from.place) < |all|
        decreases n.place, k == null
      {
        assert n == all[n.place] && start == all[start.place];
        Pointers(n.place);
        NextIsLive(table, n.place);
        k := n.next;
        if k == null {
          n := n.parent;
          assert n == all[n.place];
          Pointers(n.place);
        }
      }
    }

    /** `$digest`'s depth-first walk from `start`, which skips the scopes below one whose counter is
      * zero, comes by every watcher at and below `start`, in the order of the full walk. */
    method Traverse(start: Scope<W>) returns (seen: seq<W>)
      requires Valid() && start in all && IsLive(table, start.place)
      ensures InTable(table, Pre(table, start.place)) && seen == Watchers(table, Pre(table, start.place))
      ensures |seen| == start.count
    {
      hide Tree, Total, HasParents, HasPrevs, HasNexts, HasHeads, HasTails, InRange, Climb, Above, Pre, Watchers, Walk, Left, InTable;
      ghost var t, s := table, start.place;
      TreeParents(t);
      AboveSelf(t, s);
      PrunedWalkComplete(t, s);
      seen := [];
      var n: Scope? := start;
      ghost var at := s;
      while n != null
        invariant at != -1 ==> IsLive(t, at) && Above(t, s, at)
        invariant -1 <= at < |all| && n == At(all, at)
        invariant seen + (if at == -1 then [] else Walk(t, s, at)) == Walk(t, s, s)
        decreases if at == -1 then 0 else |Left(t, s, at)| + 1
      {
        at, n, seen := Move(start, n, seen);
      }
    }

    method Move(start: Scope<W>, n: Scope<W>, seen: seq<W>) returns (ghost at: int, k: Scope?<W>, out: seq<W>)
      requires Valid() && start in all && n in all && IsLive(table, start.place) && IsLive(table, n.place)
      requires Parents(table) && Above(table, start.place, n.place)
      ensures -1 <= at < |all| && k == At(all, at)
      ensures at != -1 ==> IsLive(table, at) && Above(table, start.place, at) &&
                           |Left(table, start.place, at)| < |Left(table, start.place, n.place)|
      ensures out + (if at == -1 then [] else Walk(table, start.place, at)) == seen + Walk(table, start.place, n.place)
    {
      hide Tree, Total, HasParents, HasPrevs, HasNexts, HasHeads, HasTails, InRange, Climb, Above, Pre, Watchers, Left, InTable;
      ghost var t, s := table, start.place;
      assert n == all[n.place] && start == all[s];
      Pointers(n.place);
      out := Own(n, seen);
      WalkStep(t, s, n.place);
      at := Successor(t, s, n.place);
      if n.count != 0 && n.head != null {
        k := n.head;
      } else {
        k := ClimbFrom(start, n);
      }
    }
  }
}
