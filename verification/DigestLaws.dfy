/** What a digest does, told from its log alone: which values listeners are handed, in which order
  * watchers are looked at, and when the loop ends. */
module DigestLaws {
  import opened Expressions
  import opened Digest

  /** The state after some events: every listener and task applied in turn. */
  function StateAfter<S(!new), V, T(!new)>(app: App<S, V, T>, s: S, log: seq<Event<V, T>>): S {
    if log == [] then s
    else
      var before := StateAfter(app, s, log[..|log| - 1]);
      match log[|log| - 1]
      case Told(k, now, was) => if k < |app.watchers| then app.watchers[k].listener(now, was, before).0 else before
      case Ran(t) => app.run(t, before).0
  }

  /** The tasks that events have queued, in order. */
  function QueuedBy<S(!new), V, T(!new)>(app: App<S, V, T>, s: S, log: seq<Event<V, T>>): seq<T> {
    if log == [] then []
    else
      var n := |log| - 1;
      var before := StateAfter(app, s, log[..n]);
      QueuedBy(app, s, log[..n]) +
      (match log[n]
       case Told(k, now, was) => if k < |app.watchers| then app.watchers[k].listener(now, was, before).1 else []
       case Ran(t) => app.run(t, before).1)
  }

  function TasksRun<V, T>(log: seq<Event<V, T>>): seq<T> {
    if log == [] then []
    else TasksRun(log[..|log| - 1]) + (match log[|log| - 1] case Ran(t) => [t] case Told(_, _, _) => [])
  }

  /** The value a watcher was seen at last: the newest it was told of, or `first` if there was none. */
  function SeenAt<V, T>(log: seq<Event<V, T>>, k: nat, first: Option<V>): Option<V> {
    if log == [] then first
    else
      match log[|log| - 1]
      case Told(j, now, _) => if j == k then Some(now) else SeenAt(log[..|log| - 1], k, first)
      case Ran(_) => SeenAt(log[..|log| - 1], k, first)
  }

  /** A listener is told the value its watcher has at that moment, which is not the one it was seen at
    * last, and that one as the old value, or the new one twice if there was none. */
  ghost predicate ToldRightly<S(!new), V, T(!new)>(app: App<S, V, T>, s: S, last: seq<Option<V>>, log: seq<Event<V, T>>, i: nat)
    requires i < |log|
  {
    match log[i]
    case Ran(_) => true
    case Told(k, now, was) =>
      && k < |app.watchers| == |last|
      && app.watchers[k].get(StateAfter(app, s, log[..i])) == Some(now)
      && match SeenAt(log[..i], k, last[k])
         case None => was == now
         case Some(v) => was == v && v != now
  }

  /** `w` is what the events of `log` make of `v`. */
  ghost predicate Follows<S(!new), V, T(!new)>(app: App<S, V, T>, v: World<S, V, T>, w: World<S, V, T>, log: seq<Event<V, T>>) {
    && |v.last| == |w.last| == |app.watchers|
    && w.log == v.log + log
    && w.s == StateAfter(app, v.s, log)
    && TasksRun(log) + w.queue == v.queue + QueuedBy(app, v.s, log)
    && (forall k :: 0 <= k < |w.last| ==> w.last[k] == SeenAt(log, k, v.last[k]))
    && (forall i :: 0 <= i < |log| ==> ToldRightly(app, v.s, v.last, log, i))
  }

  lemma {:induction false} FollowsSelf<S(!new), V, T(!new)>(app: App<S, V, T>, w: World<S, V, T>)
    requires |w.last| == |app.watchers|
    ensures Follows(app, w, w, [])
  {
    assert w.log + [] == w.log;
  }

  lemma {:induction false} ToldBefore<S(!new), V, T(!new)>(app: App<S, V, T>, s: S, last: seq<Option<V>>, log: seq<Event<V, T>>, e: Event<V, T>, i: nat)
    requires i < |log|
    ensures ToldRightly(app, s, last, log + [e], i) == ToldRightly(app, s, last, log, i)
  {
    assert (log + [e])[..i] == log[..i] && (log + [e])[i] == log[i];
  }

  /** What one more event adds to what is told from the log. */
  lemma {:induction false} OneMore<S(!new), V, T(!new)>(app: App<S, V, T>, s: S, log: seq<Event<V, T>>, e: Event<V, T>)
    requires e.Told? ==> e.watcher < |app.watchers|
    ensures var before, more := StateAfter(app, s, log), log + [e];
            var done := if e.Told? then app.watchers[e.watcher].listener(e.now, e.was, before) else app.run(e.task, before);
            && StateAfter(app, s, more) == done.0
            && QueuedBy(app, s, more) == QueuedBy(app, s, log) + done.1
            && TasksRun(more) == TasksRun(log) + (if e.Told? then [] else [e.task])
            && (forall k, first :: SeenAt(more, k, first) == if e.Told? && e.watcher == k then Some(e.now) else SeenAt(log, k, first))
  {
    var more := log + [e];
    assert more[..|log|] == log && more[|log|] == e;
  }

  lemma {:induction false} QueueMoves<T>(done: seq<T>, queue: seq<T>, start: seq<T>, asked: seq<T>, run: seq<T>, rest: seq<T>, new_: seq<T>)
    requires done + queue == start + asked && queue == run + rest
    ensures done + run + (rest + new_) == start + (asked + new_)
  {
    assert done + run + (rest + new_) == done + (run + rest) + new_;
    assert start + asked + new_ == start + (asked + new_);
  }

  /** One more event. */
  lemma {:induction false} FollowsFire<S(!new), V, T(!new)>(app: App<S, V, T>, v: World<S, V, T>, w: World<S, V, T>, log: seq<Event<V, T>>, k: nat)
    requires Follows(app, v, w, log) && k < |app.watchers| && !Clean(app, w, k)
    ensures var u := Fire(app, w, k); Follows(app, v, u, log + [u.log[|w.log|]]) && u.log[|w.log|].Told? && u.log[|w.log|].watcher == k
  {
    hide StateAfter, QueuedBy, TasksRun, SeenAt;
    var u := Fire(app, w, k);
    var e := u.log[|w.log|];
    var more := log + [e];
    OneMore(app, v.s, log, e);
    assert more[..|log|] == log;
    assert w.log + [e] == v.log + more;
    QueueMoves(TasksRun(log), w.queue, v.queue, QueuedBy(app, v.s, log), [], w.queue, app.watchers[k].listener(e.now, e.was, w.s).1);
    forall i | 0 <= i < |more| ensures ToldRightly(app, v.s, v.last, more, i) {
      if i < |log| { ToldBefore(app, v.s, v.last, log, e, i); }
    }
  }

  lemma {:induction false} FollowsTask<S(!new), V, T(!new)>(app: App<S, V, T>, v: World<S, V, T>, w: World<S, V, T>, log: seq<Event<V, T>>)
    requires Follows(app, v, w, log) && w.queue != []
    ensures Follows(app, v, RunTask(app, w), log + [Ran(w.queue[0])])
  {
    hide StateAfter, QueuedBy, TasksRun, SeenAt, ToldRightly;
    var e: Event<V, T> := Ran(w.queue[0]);
    var more := log + [e];
    OneMore(app, v.s, log, e);
    assert w.log + [e] == v.log + more;
    assert w.queue == [w.queue[0]] + w.queue[1..];
    QueueMoves(TasksRun(log), w.queue, v.queue, QueuedBy(app, v.s, log), [w.queue[0]], w.queue[1..], app.run(w.queue[0], w.s).1);
    forall i | 0 <= i < |more| ensures ToldRightly(app, v.s, v.last, more, i) {
      if i < |log| { ToldBefore(app, v.s, v.last, log, e, i); } else { TaskTold(app, v.s, v.last, more, i); }
    }
  }

  lemma {:induction false} TaskTold<S(!new), V, T(!new)>(app: App<S, V, T>, s: S, last: seq<Option<V>>, log: seq<Event<V, T>>, i: nat)
    requires i < |log| && log[i].Ran?
    ensures ToldRightly(app, s, last, log, i)
  {
  }

  ghost predicate OnlyTasks<V, T>(log: seq<Event<V, T>>) {
    forall i :: 0 <= i < |log| ==> log[i].Ran?
  }

  lemma {:induction false} DrainFollows<S(!new), V, T(!new)>(app: App<S, V, T>, v: World<S, V, T>, w: World<S, V, T>, log: seq<Event<V, T>>)
      returns (more: seq<Event<V, T>>)
    requires app.Drains() && Follows(app, v, w, log)
    ensures OnlyTasks(more) && Follows(app, v, Drain(app, w), log + more)
    decreases app.left(w.s, w.queue)
  {
    if w.queue == [] {
      more := [];
      assert log + [] == log;
    } else {
      assert w.queue == [w.queue[0]] + w.queue[1..];
      FollowsTask(app, v, w, log);
      var e: Event<V, T> := Ran(w.queue[0]);
      var rest := DrainFollows(app, v, RunTask(app, w), log + [e]);
      more := [e] + rest;
      assert log + [e] + rest == log + more;
    }
  }

  /** The first `i` events are those of the watchers before `k`. */
  ghost predicate Before<V, T>(log: seq<Event<V, T>>, i: nat, k: nat)
    requires i <= |log|
  {
    && (i > 0 ==> log[i - 1].Told? && log[i - 1].watcher < k)
    && (i < |log| ==> log[i].Told? && k <= log[i].watcher)
  }

  /** Watchers up to `to` are looked at in their order, each once: the events are told to watchers in
    * ascending order, and a watcher that is not told was unchanged, or not readable, when its turn came,
    * after the events of those before it. */
  ghost predicate InOrder<S(!new), V, T(!new)>(app: App<S, V, T>, v: World<S, V, T>, log: seq<Event<V, T>>, to: nat) {
    && |v.last| == |app.watchers| >= to
    && (forall i :: 0 <= i < |log| ==> log[i].Told? && log[i].watcher < to)
    && (forall i, j :: 0 <= i < j < |log| ==> log[i].watcher < log[j].watcher)
    && (forall k: nat, i: nat :: k < to && i <= |log| && Before(log, i, k) ==>
          (i < |log| && log[i].watcher == k) || app.watchers[k].get(StateAfter(app, v.s, log[..i])) in {None, v.last[k]})
  }

  lemma {:induction false} NeverSeen<V, T>(log: seq<Event<V, T>>, k: nat, first: Option<V>)
    requires forall i :: 0 <= i < |log| ==> log[i].Told? && log[i].watcher < k
    ensures SeenAt(log, k, first) == first
  {
    if log != [] { NeverSeen(log[..|log| - 1], k, first); }
  }

  lemma {:induction false} OrderClean<S(!new), V, T(!new)>(app: App<S, V, T>, v: World<S, V, T>, w: World<S, V, T>, log: seq<Event<V, T>>, k: nat)
    requires Follows(app, v, w, log) && InOrder(app, v, log, k) && k < |app.watchers| && Clean(app, w, k)
    ensures InOrder(app, v, log, k + 1)
  {
    NeverSeen(log, k, v.last[k]);
    assert log[..|log|] == log;
    forall j: nat, i: nat | j < k + 1 && i <= |log| && Before(log, i, j)
      ensures (i < |log| && log[i].watcher == j) || app.watchers[j].get(StateAfter(app, v.s, log[..i])) in {None, v.last[j]}
    {
      if j == k { assert i == |log|; }
    }
  }

  lemma {:induction false} OrderFired<S(!new), V, T(!new)>(app: App<S, V, T>, v: World<S, V, T>, log: seq<Event<V, T>>, e: Event<V, T>, k: nat)
    requires InOrder(app, v, log, k) && k < |app.watchers| && e.Told? && e.watcher == k
    ensures InOrder(app, v, log + [e], k + 1)
  {
    var more := log + [e];
    forall j: nat, i: nat | j < k + 1 && i <= |more| && Before(more, i, j)
      ensures (i < |more| && more[i].watcher == j) || app.watchers[j].get(StateAfter(app, v.s, more[..i])) in {None, v.last[j]}
    {
      if i <= |log| {
        assert more[..i] == log[..i];
        if j < k { assert Before(log, i, j); }
      }
    }
  }

  /** A pass from position `k` on, after the events of the positions before. */
  lemma {:induction false} ScanFollows<S(!new), V, T(!new)>(app: App<S, V, T>, v: World<S, V, T>, w: World<S, V, T>, log: seq<Event<V, T>>,
      k: nat, dirty: bool) returns (more: seq<Event<V, T>>)
    requires Follows(app, v, w, log) && k <= |app.watchers| && InOrder(app, v, log, k)
    ensures var (u, d) := FullScan(app, w, k, dirty);
            && Follows(app, v, u, log + more) && InOrder(app, v, log + more, |app.watchers|)
            && d == (dirty || more != [])
    decreases |app.watchers| - k
  {
    hide Follows, InOrder;
    FollowsSizes(app, v, w, log);
    if k == |app.watchers| {
      more := [];
      assert log + [] == log;
    } else if Clean(app, w, k) {
      OrderClean(app, v, w, log, k);
      more := ScanFollows(app, v, w, log, k + 1, dirty);
    } else {
      var u := Fire(app, w, k);
      var e := u.log[|w.log|];
      FollowsFire(app, v, w, log, k);
      OrderFired(app, v, log, e, k);
      var rest := ScanFollows(app, v, u, log + [e], k + 1, true);
      more := [e] + rest;
      assert log + [e] + rest == log + more;
    }
  }

  lemma {:induction false} FollowsSizes<S(!new), V, T(!new)>(app: App<S, V, T>, v: World<S, V, T>, w: World<S, V, T>, log: seq<Event<V, T>>)
    requires Follows(app, v, w, log)
    ensures |w.last| == |app.watchers| && w.log == v.log + log
  {
  }

  ghost function PassOnce<S(!new), V, T(!new)>(app: App<S, V, T>, w: World<S, V, T>): (u: World<S, V, T>)
    requires app.Drains() && |w.last| == |app.watchers|
    ensures |u.last| == |app.watchers|
  {
    FullScan(app, Drain(app, w), 0, false).0
  }

  /** One round of the outer loop: first tasks only, until none is queued, and then the watchers, in
    * their order, each told once if it has changed. */
  lemma {:induction false} PassInOrder<S(!new), V, T(!new)>(app: App<S, V, T>, w: World<S, V, T>)
      returns (tasks: seq<Event<V, T>>, told: seq<Event<V, T>>)
    requires app.Drains() && |w.last| == |app.watchers|
    ensures var d := Drain(app, w);
            && OnlyTasks(tasks) && Follows(app, w, d, tasks) && d.queue == []
            && Follows(app, d, PassOnce(app, w), told) && InOrder(app, d, told, |app.watchers|)
            && FullScan(app, d, 0, false).1 == (told != [])
  {
    FollowsSelf(app, w);
    tasks := DrainFollows(app, w, w, []);
    assert [] + tasks == tasks;
    var d := Drain(app, w);
    FollowsSelf(app, d);
    told := ScanFollows(app, d, d, [], 0, false);
    assert [] + told == told;
  }

  /** Following on: the second stretch of events is told from the state the first one left. */
  lemma {:induction false} FollowsPass<S(!new), V, T(!new)>(app: App<S, V, T>, v: World<S, V, T>, w: World<S, V, T>, log: seq<Event<V, T>>)
      returns (more: seq<Event<V, T>>)
    requires app.Drains() && Follows(app, v, w, log)
    ensures Follows(app, v, PassOnce(app, w), log + more)
  {
    var tasks := DrainFollows(app, v, w, log);
    var told := ScanEvents(app, v, Drain(app, w), log + tasks, 0, false);
    more := tasks + told;
    assert log + more == log + tasks + told;
  }

  lemma {:induction false} ScanEvents<S(!new), V, T(!new)>(app: App<S, V, T>, v: World<S, V, T>, w: World<S, V, T>, log: seq<Event<V, T>>,
      k: nat, dirty: bool) returns (more: seq<Event<V, T>>)
    requires Follows(app, v, w, log) && k <= |app.watchers|
    ensures Follows(app, v, FullScan(app, w, k, dirty).0, log + more)
    decreases |app.watchers| - k
  {
    hide Follows;
    FollowsSizes(app, v, w, log);
    if k == |app.watchers| {
      more := [];
      assert log + [] == log;
    } else if Clean(app, w, k) {
      more := ScanEvents(app, v, w, log, k + 1, dirty);
    } else {
      var u := Fire(app, w, k);
      var e := u.log[|w.log|];
      FollowsFire(app, v, w, log, k);
      var rest := ScanEvents(app, v, u, log + [e], k + 1, true);
      more := [e] + rest;
      assert log + [e] + rest == log + more;
    }
  }

  /** The whole digest, told from its log: the final state is the first one with the logged listeners and
    * tasks applied in order; tasks are run in the order in which they were queued; every listener was
    * handed the value its watcher had at that moment, and the one it had been seen at before. */
  lemma {:induction false} DigestReplays<S(!new), V, T(!new)>(app: App<S, V, T>, w: World<S, V, T>, retries: nat, passes: nat)
      returns (log: seq<Event<V, T>>)
    requires app.Drains() && |w.last| == |app.watchers|
    ensures Follows(app, w, FullDigest(app, w, retries, passes).w, log)
  {
    FollowsSelf(app, w);
    log := DigestEvents(app, w, w, [], retries, passes);
  }

  lemma {:induction false} DigestEvents<S(!new), V, T(!new)>(app: App<S, V, T>, v: World<S, V, T>, w: World<S, V, T>, log: seq<Event<V, T>>,
      retries: nat, passes: nat) returns (all: seq<Event<V, T>>)
    requires app.Drains() && Follows(app, v, w, log)
    ensures |w.last| == |app.watchers| && Follows(app, v, FullDigest(app, w, retries, passes).w, all)
    decreases retries
  {
    hide Follows;
    FollowsSizes(app, v, w, log);
    var more := FollowsPass(app, v, w, log);
    var (u, dirty) := FullScan(app, Drain(app, w), 0, false);
    if (dirty || u.queue != []) && retries > 0 {
      all := DigestEvents(app, v, u, log + more, retries - 1, passes + 1);
    } else {
      all := log + more;
    }
  }

  // ------------------------------------------------------------------------- when the loop ends

  ghost function Passes<S(!new), V, T(!new)>(app: App<S, V, T>, w: World<S, V, T>, n: nat): (u: World<S, V, T>)
    requires app.Drains() && |w.last| == |app.watchers|
    ensures |u.last| == |app.watchers|
    decreases n
  {
    if n == 0 then w else Passes(app, PassOnce(app, w), n - 1)
  }

  /** The pass from `w` tells nobody anything and leaves nothing queued. */
  ghost predicate Quiet<S(!new), V, T(!new)>(app: App<S, V, T>, w: World<S, V, T>)
    requires app.Drains() && |w.last| == |app.watchers|
  {
    var u := PassOnce(app, w);
    u.queue == [] && |w.log| <= |u.log| && forall i :: |w.log| <= i < |u.log| ==> u.log[i].Ran?
  }

  lemma {:induction false} QuietExactly<S(!new), V, T(!new)>(app: App<S, V, T>, w: World<S, V, T>)
    requires app.Drains() && |w.last| == |app.watchers|
    ensures Quiet(app, w) <==> var (u, dirty) := FullScan(app, Drain(app, w), 0, false); !dirty && u.queue == []
  {
    var tasks, told := PassInOrder(app, w);
    var d, u := Drain(app, w), PassOnce(app, w);
    assert u.log == w.log + tasks + told;
    if told != [] {
      assert u.log[|w.log| + |tasks|] == told[0];
    }
  }

  /** The loop ends with the first pass that is quiet, and throws when none of the allowed ones is. */
  lemma {:induction false} EndsWhenQuiet<S(!new), V, T(!new)>(app: App<S, V, T>, w: World<S, V, T>, ttl: nat, n: nat)
    requires app.Drains() && |w.last| == |app.watchers|
    ensures var o := FullDigest(app, w, ttl, n);
            && n < o.passes <= n + ttl + 1
            && o.w == Passes(app, w, o.passes - n)
            && (forall p: nat :: p < o.passes - n - 1 ==> !Quiet(app, Passes(app, w, p)))
            && (if o.Settled? then Quiet(app, Passes(app, w, o.passes - n - 1))
                else o.passes == n + ttl + 1 && !Quiet(app, Passes(app, w, ttl)))
    decreases ttl
  {
    hide Quiet;
    QuietExactly(app, w);
    var u := PassOnce(app, w);
    assert Passes(app, w, 1) == u by { assert Passes(app, u, 0) == u; }
    if !Quiet(app, w) && ttl > 0 {
      EndsWhenQuiet(app, u, ttl - 1, n + 1);
      var o := FullDigest(app, w, ttl, n);
      assert o == FullDigest(app, u, ttl - 1, n + 1);
      forall p: nat | p < o.passes - n - 1 ensures !Quiet(app, Passes(app, w, p)) {
        if p > 0 { assert Passes(app, w, p) == Passes(app, u, p - 1); }
      }
    }
  }
}
