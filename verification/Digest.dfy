/** The dirty-checking loop: repeated passes over the watchers until nothing changes. */
module Digest {
  import opened Expressions

  /** A watcher: what it looks at (`None` is an exception, which is reported and swallowed), and
    * the listener told of (new, old), which changes the state as it likes and may queue tasks. */
  datatype Watcher<!S, !V, !T> = Watcher(get: S -> Option<V>, listener: (V, V, S) -> (S, seq<T>))

  /** The watchers in the order in which the walk over the scopes meets them, the effect of a
    * queued task, and the retry limit.  `left` measures a drain of the queue. */
  datatype App<!S(!new), !V, !T(!new)> = App(
    watchers: seq<Watcher<S, V, T>>,
    run: (T, S) -> (S, seq<T>),
    ttl: nat,
    ghost left: (S, seq<T>) -> nat)
  {
    /** Every drain of the queue is finite. */
    ghost predicate Drains()
    {
      forall s: S, t: T, q: seq<T> ::
        var (s', more) := run(t, s);
        left(s', q + more) < left(s, [t] + q)
    }
  }

  /** What happened: a listener was called with a new and an old value, or a queued task was run. */
  datatype Event<V, T> = Told(watcher: nat, now: V, was: V) | Ran(task: T)

  /** State, last seen values (`None` before the first look), queue, and the log of events. */
  datatype World<S, V, T> = World(s: S, last: seq<Option<V>>, queue: seq<T>, log: seq<Event<V, T>>)

  /** Nothing to report: unchanged, or not readable. */
  predicate Clean<S(!new), V(==), T(!new)>(app: App<S, V, T>, w: World<S, V, T>, k: nat)
    requires |w.last| == |app.watchers| && k < |app.watchers|
  {
    app.watchers[k].get(w.s) in {None, w.last[k]}
  }

  /** Watcher `k` is dirty: store the value, call the listener. */
  function Fire<S(!new), V, T(!new)>(app: App<S, V, T>, w: World<S, V, T>, k: nat): (w': World<S, V, T>)
    requires |w.last| == |app.watchers| && k < |app.watchers| && !Clean(app, w, k)
    ensures |w'.last| == |app.watchers|
  {
    var now := app.watchers[k].get(w.s).value;
    var was := if w.last[k].None? then now else w.last[k].value;
    var (s', more) := app.watchers[k].listener(now, was, w.s);
    World(s', w.last[k := Some(now)], w.queue + more, w.log + [Told(k, now, was)])
  }

  function RunTask<S(!new), V, T(!new)>(app: App<S, V, T>, w: World<S, V, T>): (w': World<S, V, T>)
    requires w.queue != []
    ensures |w'.last| == |w.last|
  {
    var (s', more) := app.run(w.queue[0], w.s);
    w.(s := s', queue := w.queue[1..] + more, log := w.log + [Ran(w.queue[0])])
  }

  ghost function Drain<S(!new), V, T(!new)>(app: App<S, V, T>, w: World<S, V, T>): (w': World<S, V, T>)
    requires app.Drains()
    ensures w'.queue == [] && w'.last == w.last
    ensures w.queue == [] ==> w' == w
    decreases app.left(w.s, w.queue)
  {
    if w.queue == [] then w
    else
      assert w.queue == [w.queue[0]] + w.queue[1..];
      Drain(app, RunTask(app, w))
  }

  // ------------------------------------------------------------ the simple form: full passes

  /** Looks at every watcher from `k` on. */
  ghost function FullScan<S(!new), V, T(!new)>(app: App<S, V, T>, w: World<S, V, T>, k: nat, dirty: bool): (r: (World<S, V, T>, bool))
    requires |w.last| == |app.watchers| && k <= |app.watchers|
    ensures |r.0.last| == |app.watchers|
    decreases |app.watchers| - k
  {
    if k == |app.watchers| then (w, dirty)
    else if Clean(app, w, k) then FullScan(app, w, k + 1, dirty)
    else FullScan(app, Fire(app, w, k), k + 1, true)
  }

  /** `Settled` is a normal return, `TooMany` the exception after the retry limit. */
  datatype Outcome<S, V, T> =
    | Settled(w: World<S, V, T>, passes: nat)
    | TooMany(w: World<S, V, T>, passes: nat)

  ghost function FullDigest<S(!new), V, T(!new)>(app: App<S, V, T>, w: World<S, V, T>, retries: nat, passes: nat): Outcome<S, V, T>
    requires app.Drains() && |w.last| == |app.watchers|
    decreases retries
  {
    var (w', dirty) := FullScan(app, Drain(app, w), 0, false);
    if !dirty && w'.queue == [] then Settled(w', passes + 1)
    else if retries == 0 then TooMany(w', passes + 1)
    else FullDigest(app, w', retries - 1, passes + 1)
  }

  // --------------------------------------------------------- the short cut: last dirty watch

  /** One pass that stops when it meets the last dirty watcher and finds it clean. */
  ghost function FastScan<S(!new), V, T(!new)>(app: App<S, V, T>, w: World<S, V, T>, k: nat, dirty: bool, lastDirty: Option<nat>)
    : (r: (World<S, V, T>, bool, Option<nat>))
    requires |w.last| == |app.watchers| && k <= |app.watchers|
    ensures |r.0.last| == |app.watchers|
    decreases |app.watchers| - k
  {
    if k == |app.watchers| then (w, dirty, lastDirty)
    else if !Clean(app, w, k) then FastScan(app, Fire(app, w, k), k + 1, true, Some(k))
    else if lastDirty == Some(k) && app.watchers[k].get(w.s).Some? then (w, false, lastDirty)
    else FastScan(app, w, k + 1, dirty, lastDirty)
  }

  ghost predicate CleanBetween<S(!new), V, T(!new)>(app: App<S, V, T>, w: World<S, V, T>, lo: int, hi: int)
    requires |w.last| == |app.watchers|
  {
    forall k :: 0 <= k < |app.watchers| && lo <= k < hi ==> Clean(app, w, k)
  }

  /** What the last dirty watcher tells, at position `k` of a pass: everything looked at since
    * it fired is clean. */
  ghost predicate Trail<S(!new), V, T(!new)>(app: App<S, V, T>, w: World<S, V, T>, k: nat, dirty: bool, lastDirty: Option<nat>)
    requires |w.last| == |app.watchers|
  {
    match lastDirty
    case None => !dirty
    case Some(j) =>
      if dirty then j < k && CleanBetween(app, w, j + 1, k)
      else j < |app.watchers| && CleanBetween(app, w, 0, k) && CleanBetween(app, w, j + 1, |app.watchers|)
  }

  lemma {:induction false} CleanTail<S(!new), V, T(!new)>(app: App<S, V, T>, w: World<S, V, T>, k: nat, dirty: bool)
    requires |w.last| == |app.watchers| && k <= |app.watchers|
    requires CleanBetween(app, w, k, |app.watchers|)
    ensures FullScan(app, w, k, dirty) == (w, dirty)
    decreases |app.watchers| - k
  {
    if k < |app.watchers| {
      CleanTail(app, w, k + 1, dirty);
    }
  }

  /** One pass with the short cut does what a full pass does. */
  lemma {:induction false} ScansAgree<S(!new), V, T(!new)>(app: App<S, V, T>, w: World<S, V, T>, k: nat, dirty: bool, lastDirty: Option<nat>)
    requires |w.last| == |app.watchers| && k <= |app.watchers|
    requires Trail(app, w, k, dirty, lastDirty)
    ensures var fast, full := FastScan(app, w, k, dirty, lastDirty), FullScan(app, w, k, dirty);
            fast.0 == full.0 && fast.1 == full.1 &&
            (fast.1 ==> Trail(app, fast.0, |app.watchers|, true, fast.2))
    decreases |app.watchers| - k
  {
    if k < |app.watchers| {
      if !Clean(app, w, k) {
        ScansAgree(app, Fire(app, w, k), k + 1, true, Some(k));
      } else if lastDirty == Some(k) && app.watchers[k].get(w.s).Some? {
        CleanTail(app, w, k, dirty);
      } else {
        ScansAgree(app, w, k + 1, dirty, lastDirty);
      }
    }
  }

  /** The trail left by a dirty pass is the one the next pass starts with, unless queued tasks
    * run first, which forget it. */
  lemma {:induction false} NextPass<S(!new), V, T(!new)>(app: App<S, V, T>, w: World<S, V, T>, lastDirty: Option<nat>)
    requires |w.last| == |app.watchers|
    requires Trail(app, w, |app.watchers|, true, lastDirty)
    ensures Trail(app, w, 0, false, lastDirty)
  {
  }

  lemma {:induction false} FullScanClean<S(!new), V, T(!new)>(app: App<S, V, T>, w: World<S, V, T>, k: nat)
    requires |w.last| == |app.watchers| && k <= |app.watchers|
    requires !FullScan(app, w, k, false).1
    ensures FullScan(app, w, k, false).0 == w && CleanBetween(app, w, k, |app.watchers|)
    decreases |app.watchers| - k
  {
    if k < |app.watchers| {
      if Clean(app, w, k) {
        FullScanClean(app, w, k + 1);
      } else {
        StaysDirty(app, Fire(app, w, k), k + 1);
      }
    }
  }

  lemma {:induction false} StaysDirty<S(!new), V, T(!new)>(app: App<S, V, T>, w: World<S, V, T>, k: nat)
    requires |w.last| == |app.watchers| && k <= |app.watchers|
    ensures FullScan(app, w, k, true).1
    decreases |app.watchers| - k
  {
    if k < |app.watchers| {
      if Clean(app, w, k) { StaysDirty(app, w, k + 1); } else { StaysDirty(app, Fire(app, w, k), k + 1); }
    }
  }

  ghost predicate AllClean<S(!new), V, T(!new)>(app: App<S, V, T>, w: World<S, V, T>)
    requires |w.last| == |app.watchers|
  {
    CleanBetween(app, w, 0, |app.watchers|)
  }

  /** A digest that returns leaves every watcher clean and the queue empty; one that throws
    * has made every allowed pass; nothing makes more. */
  lemma {:induction false} DigestSettles<S(!new), V, T(!new)>(app: App<S, V, T>, w: World<S, V, T>, retries: nat, passes: nat)
    requires app.Drains() && |w.last| == |app.watchers|
    ensures var o := FullDigest(app, w, retries, passes);
            |o.w.last| == |app.watchers| && passes < o.passes <= passes + retries + 1 &&
            (o.Settled? ==> AllClean(app, o.w) && o.w.queue == []) &&
            (o.TooMany? ==> o.passes == passes + retries + 1)
    decreases retries
  {
    var (w', dirty) := FullScan(app, Drain(app, w), 0, false);
    if !dirty && w'.queue == [] {
      FullScanClean(app, Drain(app, w), 0);
    } else if retries > 0 {
      DigestSettles(app, w', retries - 1, passes + 1);
    }
  }

  /** Digesting again right after a normal return calls no listener and changes nothing. */
  lemma {:induction false} DigestTwice<S(!new), V, T(!new)>(app: App<S, V, T>, w: World<S, V, T>, retries: nat, again: nat)
    requires app.Drains() && |w.last| == |app.watchers|
    requires FullDigest(app, w, retries, 0).Settled?
    ensures var done := FullDigest(app, w, retries, 0).w;
            |done.last| == |app.watchers| && FullDigest(app, done, again, 0) == Settled(done, 1)
  {
    DigestSettles(app, w, retries, 0);
    var done := FullDigest(app, w, retries, 0).w;
    CleanTail(app, done, 0, false);
  }

  /** The root scope: the fields that `$digest` updates. */
  class RootScope<S(!new), V(==), T(!new)> {
    const app: App<S, V, T>
    var state: S
    var last: seq<Option<V>>
    var asyncQueue: seq<T>
    var lastDirty: Option<nat>
    ghost var log: seq<Event<V, T>>

    constructor (app: App<S, V, T>, state: S)
      ensures this.app == app && Valid() && log == [] && this.state == state && asyncQueue == []
    {
      this.app, this.state := app, state;
      last := seq(|app.watchers|, _ => None);
      asyncQueue, lastDirty, log := [], None, [];
    }

    ghost predicate Valid()
      reads this
    {
      |last| == |app.watchers|
    }

    ghost function TheWorld(): World<S, V, T>
      reads this
    {
      World(state, last, asyncQueue, log)
    }

    /** Runs queued tasks until none is left; any of them makes the last dirty watcher moot. */
    method DrainQueue()
      requires app.Drains() && Valid()
      modifies this
      ensures TheWorld() == Drain(app, old(TheWorld()))
      ensures lastDirty == if old(asyncQueue) == [] then old(lastDirty) else None
    {
      while asyncQueue != []
        invariant Drain(app, TheWorld()) == Drain(app, old(TheWorld()))
        invariant if old(asyncQueue) == [] then TheWorld() == old(TheWorld()) && lastDirty == old(lastDirty)
                  else asyncQueue == old(asyncQueue) || lastDirty == None
        decreases app.left(state, asyncQueue)
      {
        ghost var w := TheWorld();
        assert w.queue == [w.queue[0]] + w.queue[1..];
        var (s', more) := app.run(asyncQueue[0], state);
        log := log + [Ran(asyncQueue[0])];
        state, asyncQueue := s', asyncQueue[1..] + more;
        lastDirty := None;
        assert TheWorld() == RunTask(app, w);
      }
    }

    /** One pass over the watchers with the short cut. */
    method Scan() returns (dirty: bool)
      requires Valid()
      modifies this
      ensures Valid() && (TheWorld(), dirty, lastDirty) == FastScan(app, old(TheWorld()), 0, false, old(lastDirty))
    {
      dirty := false;
      var k := 0;
      while k < |app.watchers|
        invariant Valid() && 0 <= k <= |app.watchers|
        invariant FastScan(app, TheWorld(), k, dirty, lastDirty)
               == FastScan(app, old(TheWorld()), 0, false, old(lastDirty))
      {
        var got := app.watchers[k].get(state);
        if got.None? {
        } else if last[k] != got {
          ghost var w := TheWorld();
          var value := got.value;
          dirty := true;
          lastDirty := Some(k);
          var was := if last[k].None? then value else last[k].value;
          last := last[k := got];
          var (s', more) := app.watchers[k].listener(value, was, state);
          state, asyncQueue := s', asyncQueue + more;
          log := log + [Told(k, value, was)];
          assert TheWorld() == Fire(app, w, k);
        } else if lastDirty == Some(k) {
          dirty := false;
          return;
        }
        k := k + 1;
      }
    }

    /** The body of the outer loop: drain, then scan. */
    method Pass() returns (dirty: bool)
      requires app.Drains() && Valid()
      requires asyncQueue == [] ==> Trail(app, TheWorld(), 0, false, lastDirty)
      modifies this
      ensures Valid()
      ensures (TheWorld(), dirty) == FullScan(app, Drain(app, old(TheWorld())), 0, false)
      ensures dirty ==> Trail(app, TheWorld(), 0, false, lastDirty)
    {
      DrainQueue();
      ghost var w, l := TheWorld(), lastDirty;
      ScansAgree(app, w, 0, false, l);
      dirty := Scan();
      if dirty {
        NextPass(app, TheWorld(), lastDirty);
      }
    }

    /** `$digest`.  Although passes stop early, the listener calls, the final state and the
      * verdict are those of the loop that always looks at every watcher. */
    method Digest() returns (settled: bool, passes: nat)
      requires app.Drains() && Valid()
      modifies this
      ensures Valid()
      ensures FullDigest(app, old(TheWorld()), app.ttl, 0)
           == (if settled then Settled(TheWorld(), passes) else TooMany(TheWorld(), passes))
      ensures settled ==> AllClean(app, TheWorld()) && asyncQueue == []
      ensures passes <= app.ttl + 1
    {
      DigestSettles(app, TheWorld(), app.ttl, 0);
      lastDirty := None;
      var retries := app.ttl;
      passes := 0;
      ghost var goal := FullDigest(app, TheWorld(), app.ttl, 0);
      while true
        invariant Valid() && passes + retries == app.ttl
        invariant FullDigest(app, TheWorld(), retries, passes) == goal
        invariant asyncQueue == [] ==> Trail(app, TheWorld(), 0, false, lastDirty)
        decreases retries
      {
        var dirty := Pass();
        passes := passes + 1;
        if !dirty && asyncQueue == [] {
          return true, passes;
        }
        if retries == 0 {
          return false, passes;
        }
        retries := retries - 1;
      }
    }
  }
}
