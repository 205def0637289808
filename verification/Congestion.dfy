/** The monitor of `AdaptiveCongestionController`: threads that ask for a process tracker, wait for
  * one, and report, interleaved in any way that section 17.2 of the Java Language Specification
  * allows.  A synchronized block runs as one step up to a `wait`. */
module Congestion {

  /** Where a thread stands in `getProcessTracker`.  An awake thread has left the wait set and
    * has to get the lock again; it was notified, or woken spuriously or by an interrupt. */
  datatype Thread = Outside | Waiting | Awake(notified: bool)

  /** A `ProcessTimer`: its stopwatch, and how often it has given its process back. */
  datatype Tracker = Tracker(running: bool, returned: nat)

  datatype State = State(counter: int, shuttingDown: bool, threads: seq<Thread>, trackers: seq<Tracker>)

  datatype Action =
    | Enter(t: nat)
    | Recheck(t: nat)
    | Wake(t: nat)
    | Finished(k: nat, chosen: nat)
    | Failed(k: nat, chosen: nat)
    | Shutdown

  function Begin(n: nat): State {
    State(0, false, seq(n, _ => Outside), [])
  }

  predicate Waits(s: State, t: nat) {
    t < |s.threads| && s.threads[t] == Waiting
  }

  /** The thread `notify` takes out of the wait set: the one it chooses, if that one waits. */
  function Notify(threads: seq<Thread>, chosen: nat): seq<Thread> {
    if chosen < |threads| && threads[chosen] == Waiting then threads[chosen := Awake(true)]
    else NotifyFirst(threads)
  }

  function NotifyFirst(threads: seq<Thread>): seq<Thread> {
    if threads == [] then []
    else if threads[0] == Waiting then [Awake(true)] + threads[1..]
    else [threads[0]] + NotifyFirst(threads[1..])
  }

  /** `processReturned`, for the tracker k. */
  function Returned(s: State, k: nat, chosen: nat): State
    requires k < |s.trackers|
  {
    State(s.counter - 1, s.shuttingDown, Notify(s.threads, chosen),
          s.trackers[k := s.trackers[k].(returned := s.trackers[k].returned + 1)])
  }

  /** The test of the loop: wait, or count the process and return a running tracker. */
  function Test(s: State, max: int, t: nat): State
    requires t < |s.threads|
  {
    if s.counter >= max then s.(threads := s.threads[t := Waiting])
    else s.(counter := s.counter + 1, threads := s.threads[t := Outside], trackers := s.trackers + [Tracker(true, 0)])
  }

  function Step(s: State, max: int, a: Action): State {
    match a
    case Enter(t) => if t < |s.threads| && s.threads[t] == Outside then Test(s, max, t) else s
    case Recheck(t) =>
      if t < |s.threads| && s.threads[t].Awake? then
        if s.shuttingDown then s.(threads := s.threads[t := Outside]) else Test(s, max, t)
      else s
    case Wake(t) => if Waits(s, t) then s.(threads := s.threads[t := Awake(false)]) else s
    case Finished(k, chosen) =>
      // a stopwatch that is not running throws before the process is given back
      if k < |s.trackers| && s.trackers[k].running then
        Returned(s.(trackers := s.trackers[k := s.trackers[k].(running := false)]), k, chosen)
      else s
    case Failed(k, chosen) => if k < |s.trackers| then Returned(s, k, chosen) else s
    case Shutdown => s.(shuttingDown := true) // and `notifyAll` throws, outside the monitor
  }

  function Run(s: State, max: int, acts: seq<Action>): State
    decreases |acts|
  {
    if acts == [] then s else Run(Step(s, max, acts[0]), max, acts[1..])
  }

  // ---------------------------------------------------------------------------------- counting

  /** Threads that were notified and have not looked again. */
  function Notified(threads: seq<Thread>): nat {
    if threads == [] then 0 else (if threads[0] == Awake(true) then 1 else 0) + Notified(threads[1..])
  }

  /** Processes given back, all in all. */
  function Returns(ts: seq<Tracker>): nat {
    if ts == [] then 0 else ts[0].returned + Returns(ts[1..])
  }

  /** Trackers that have not reported. */
  function Outstanding(ts: seq<Tracker>): nat {
    if ts == [] then 0 else (if ts[0].returned == 0 then 1 else 0) + Outstanding(ts[1..])
  }

  /** Reports beyond the first of each tracker. */
  function Extra(ts: seq<Tracker>): nat {
    if ts == [] then 0 else (if ts[0].returned == 0 then 0 else ts[0].returned - 1) + Extra(ts[1..])
  }

  lemma {:induction false} NotifiedUpdate(threads: seq<Thread>, t: nat, to: Thread)
    requires t < |threads|
    ensures Notified(threads[t := to]) ==
            Notified(threads) - (if threads[t] == Awake(true) then 1 else 0) + (if to == Awake(true) then 1 else 0)
  {
    if t == 0 {
      assert threads[t := to][1..] == threads[1..];
    } else {
      assert threads[t := to][1..] == threads[1..][t - 1 := to];
      NotifiedUpdate(threads[1..], t - 1, to);
    }
  }

  lemma {:induction false} FirstNotified(threads: seq<Thread>)
    ensures var u := NotifyFirst(threads);
            && |u| == |threads|
            && (Waiting in threads ==> Notified(u) == Notified(threads) + 1)
            && (Waiting !in threads ==> u == threads)
            && (Waiting in u ==> Waiting in threads)
  {
    if threads != [] {
      FirstNotified(threads[1..]);
      var u := NotifyFirst(threads);
      assert u[1..] == if threads[0] == Waiting then threads[1..] else NotifyFirst(threads[1..]);
      assert threads == [threads[0]] + threads[1..];
    }
  }

  /** `notify` wakes exactly one waiting thread, if there is any. */
  lemma {:induction false} NotifyWakes(threads: seq<Thread>, chosen: nat)
    ensures var u := Notify(threads, chosen);
            && |u| == |threads|
            && Notified(u) == Notified(threads) + (if Waiting in threads then 1 else 0)
            && (Waiting in u ==> Waiting in threads)
  {
    FirstNotified(threads);
    if chosen < |threads| && threads[chosen] == Waiting { NotifiedUpdate(threads, chosen, Awake(true)); }
  }

  lemma {:induction false} ReturnsUpdate(ts: seq<Tracker>, k: nat, to: Tracker)
    requires k < |ts|
    ensures Returns(ts[k := to]) == Returns(ts) - ts[k].returned + to.returned
  {
    if k == 0 {
      assert ts[k := to][1..] == ts[1..];
    } else {
      assert ts[k := to][1..] == ts[1..][k - 1 := to];
      ReturnsUpdate(ts[1..], k - 1, to);
    }
  }

  lemma {:induction false} ReturnsSnoc(ts: seq<Tracker>, to: Tracker)
    ensures Returns(ts + [to]) == Returns(ts) + to.returned
  {
    if ts == [] {
      assert (ts + [to])[1..] == [];
    } else {
      assert (ts + [to])[1..] == ts[1..] + [to];
      ReturnsSnoc(ts[1..], to);
    }
  }

  lemma {:induction false} Balance(ts: seq<Tracker>)
    ensures Returns(ts) == |ts| - Outstanding(ts) + Extra(ts) && Outstanding(ts) <= |ts|
    ensures Extra(ts) == 0 <==> forall k :: 0 <= k < |ts| ==> ts[k].returned <= 1
  {
    if ts != [] {
      Balance(ts[1..]);
      assert ts == [ts[0]] + ts[1..];
      assert forall k :: 0 <= k < |ts| - 1 ==> ts[1..][k] == ts[k + 1];
    }
  }

  // -------------------------------------------------------------------------------- invariants

  /** The counter is trackers handed out less processes given back, and within the bound. */
  predicate Counted(s: State, max: int) {
    s.counter == |s.trackers| - Returns(s.trackers) && (s.counter <= max || s.trackers == [])
  }

  /** A notified thread that looks again after a shutdown: it leaves without its process. */
  predicate Leaves(s: State, a: Action) {
    a.Recheck? && a.t < |s.threads| && s.threads[a.t] == Awake(true) && s.shuttingDown
  }

  /** How many threads left like that. */
  function Left(s: State, max: int, acts: seq<Action>): nat
    decreases |acts|
  {
    if acts == [] then 0 else (if Leaves(s, acts[0]) then 1 else 0) + Left(Step(s, max, acts[0]), max, acts[1..])
  }

  /** While a thread waits, every free process has a notified thread on its way to it, but for those
    * that have left. */
  predicate Awaited(s: State, max: int, left: nat) {
    Waiting in s.threads ==> s.counter + Notified(s.threads) + left >= max
  }

  lemma {:induction false} TestKeeps(s: State, max: int, t: nat, left: nat)
    requires t < |s.threads| && !s.threads[t].Waiting? && Counted(s, max) && Awaited(s, max, left)
    ensures Counted(Test(s, max, t), max) && Awaited(Test(s, max, t), max, left)
  {
    NotifiedUpdate(s.threads, t, Waiting);
    NotifiedUpdate(s.threads, t, Outside);
    ReturnsSnoc(s.trackers, Tracker(true, 0));
    StillWaiting(s.threads, t, Outside);
  }

  lemma {:induction false} StillWaiting(threads: seq<Thread>, t: nat, to: Thread)
    requires t < |threads| && to != Waiting
    ensures Waiting in threads[t := to] ==> Waiting in threads
  {
    if Waiting in threads[t := to] {
      var i :| 0 <= i < |threads| && threads[t := to][i] == Waiting;
      assert threads[i] == Waiting;
    }
  }

  lemma {:induction false} ReturnedKeeps(s: State, max: int, k: nat, chosen: nat, left: nat)
    requires k < |s.trackers| && Counted(s, max) && Awaited(s, max, left)
    ensures Counted(Returned(s, k, chosen), max) && Awaited(Returned(s, k, chosen), max, left)
  {
    ReturnsUpdate(s.trackers, k, s.trackers[k].(returned := s.trackers[k].returned + 1));
    NotifyWakes(s.threads, chosen);
  }

  lemma {:induction false} StepKeeps(s: State, max: int, a: Action, left: nat)
    requires Counted(s, max) && Awaited(s, max, left)
    ensures Counted(Step(s, max, a), max) && Awaited(Step(s, max, a), max, left + if Leaves(s, a) then 1 else 0)
  {
    hide Test, Returned, Notify;
    match a
    case Enter(t) => if t < |s.threads| && s.threads[t] == Outside { TestKeeps(s, max, t, left); }
    case Recheck(t) =>
      if t < |s.threads| && s.threads[t].Awake? {
        if s.shuttingDown {
          NotifiedUpdate(s.threads, t, Outside);
          StillWaiting(s.threads, t, Outside);
        } else {
          TestKeeps(s, max, t, left);
        }
      }
    case Wake(t) =>
      if Waits(s, t) {
        NotifiedUpdate(s.threads, t, Awake(false));
        StillWaiting(s.threads, t, Awake(false));
      }
    case Finished(k, chosen) =>
      if k < |s.trackers| && s.trackers[k].running {
        ReturnsUpdate(s.trackers, k, s.trackers[k].(running := false));
        ReturnedKeeps(s.(trackers := s.trackers[k := s.trackers[k].(running := false)]), max, k, chosen, left);
      }
    case Failed(k, chosen) => if k < |s.trackers| { ReturnedKeeps(s, max, k, chosen, left); }
    case Shutdown =>
  }

  lemma {:induction false} RunKeeps(s: State, max: int, acts: seq<Action>, left: nat)
    requires Counted(s, max) && Awaited(s, max, left)
    ensures Counted(Run(s, max, acts), max) && Awaited(Run(s, max, acts), max, left + Left(s, max, acts))
    decreases |acts|
  {
    hide Step, Counted, Awaited, Leaves;
    if acts != [] {
      StepKeeps(s, max, acts[0], left);
      RunKeeps(Step(s, max, acts[0]), max, acts[1..], left + if Leaves(s, acts[0]) then 1 else 0);
    }
  }

  lemma {:induction false} BeginOk(n: nat, max: int)
    ensures Counted(Begin(n), max) && Awaited(Begin(n), max, 0)
  {
  }

  /** Over any run of any number of threads, the counter is the number of outstanding trackers
    * less the superfluous reports.  So it equals that number exactly when no tracker has given its
    * process back twice, and then at most `max` trackers are out. */
  lemma {:induction false} CounterExact(n: nat, max: nat, acts: seq<Action>)
    ensures var s := Run(Begin(n), max, acts);
            && s.counter == Outstanding(s.trackers) - Extra(s.trackers) <= max
            && (s.counter == Outstanding(s.trackers) <==> forall k :: 0 <= k < |s.trackers| ==> s.trackers[k].returned <= 1)
  {
    hide Run;
    BeginOk(n, max);
    RunKeeps(Begin(n), max, acts, 0);
    Balance(Run(Begin(n), max, acts).trackers);
  }

  /** Over any run, a shutdown included: while a thread waits, the free processes for which nobody is
    * on the way are at most the notified threads that left after a shutdown. */
  lemma {:induction false} WakeUpsLost(n: nat, max: nat, acts: seq<Action>, t: nat)
    requires Waits(Run(Begin(n), max, acts), t)
    ensures var s := Run(Begin(n), max, acts);
            max - s.counter - Notified(s.threads) <= Left(Begin(n), max, acts)
    ensures !Run(Begin(n), max, acts).shuttingDown ==> Left(Begin(n), max, acts) == 0
  {
    hide Run, Left;
    BeginOk(n, max);
    RunKeeps(Begin(n), max, acts, 0);
    NobodyLeft(Begin(n), max, acts);
    var s := Run(Begin(n), max, acts);
    assert s.threads[t] in s.threads;
  }

  lemma {:induction false} NobodyLeft(s: State, max: int, acts: seq<Action>)
    ensures s.shuttingDown ==> Run(s, max, acts).shuttingDown
    ensures !Run(s, max, acts).shuttingDown ==> Left(s, max, acts) == 0
    decreases |acts|
  {
    if acts != [] { NobodyLeft(Step(s, max, acts[0]), max, acts[1..]); }
  }

  /** No wake-up is lost: before a shutdown, whenever a thread waits while a process is free, some
    * thread has been notified and is on its way. */
  lemma {:induction false} NoLostWakeUp(n: nat, max: nat, acts: seq<Action>, t: nat)
    requires Waits(Run(Begin(n), max, acts), t) && !Run(Begin(n), max, acts).shuttingDown
    ensures var s := Run(Begin(n), max, acts);
            s.counter + Notified(s.threads) >= max && (s.counter < max ==> exists u :: 0 <= u < |s.threads| && s.threads[u] == Awake(true))
  {
    hide Run;
    WakeUpsLost(n, max, acts, t);
    var s := Run(Begin(n), max, acts);
    if s.counter < max { SomeNotified(s.threads); }
  }

  lemma {:induction false} SomeNotified(threads: seq<Thread>)
    requires Notified(threads) > 0
    ensures exists u :: 0 <= u < |threads| && threads[u] == Awake(true)
  {
    if threads[0] != Awake(true) {
      SomeNotified(threads[1..]);
      var u :| 0 <= u < |threads[1..]| && threads[1..][u] == Awake(true);
      assert threads[u + 1] == Awake(true);
    } else {
      assert threads[0] == Awake(true);
    }
  }

  /** Two reports of one failure let two trackers out at a bound of one.  (A second `finished` of one
    * tracker does not: its stopwatch throws.) */
  lemma {:induction false} DoubleFailureOverAdmits()
    ensures var acts := [Enter(0), Failed(0, 0), Failed(0, 0), Enter(0), Enter(0)];
            Outstanding(Run(Begin(1), 1, acts).trackers) == 2
    ensures var acts := [Enter(0), Finished(0, 0), Finished(0, 0), Enter(0), Enter(0)];
            Outstanding(Run(Begin(1), 1, acts).trackers) == 1
  {
    var s0 := Begin(1);
    assert s0.threads == [Outside];
    var s1 := Step(s0, 1, Enter(0));
    assert s1 == State(1, false, [Outside], [Tracker(true, 0)]);
    var s3 := Step(Step(s1, 1, Failed(0, 0)), 1, Failed(0, 0));
    assert s3 == State(-1, false, [Outside], [Tracker(true, 2)]);
    var s5 := Step(Step(s3, 1, Enter(0)), 1, Enter(0));
    assert s5.trackers == [Tracker(true, 2), Tracker(true, 0), Tracker(true, 0)];
    FiveSteps(s0, 1, Enter(0), Failed(0, 0), Failed(0, 0), Enter(0), Enter(0));
    var u2 := Step(s1, 1, Finished(0, 0));
    assert u2 == State(0, false, [Outside], [Tracker(false, 1)]);
    assert Step(u2, 1, Finished(0, 0)) == u2;
    var u4 := Step(u2, 1, Enter(0));
    assert u4 == State(1, false, [Outside], [Tracker(false, 1), Tracker(true, 0)]);
    var u5 := Step(u4, 1, Enter(0));
    assert u5.trackers == [Tracker(false, 1), Tracker(true, 0)];
    FiveSteps(s0, 1, Enter(0), Finished(0, 0), Finished(0, 0), Enter(0), Enter(0));
    CountTwo(Tracker(true, 2), Tracker(true, 0), Tracker(true, 0));
    CountOne(Tracker(false, 1), Tracker(true, 0));
  }

  lemma {:induction false} CountTwo(a: Tracker, b: Tracker, c: Tracker)
    requires a.returned > 0 && b.returned == c.returned == 0
    ensures Outstanding([a, b, c]) == 2
  {
    assert [a, b, c][1..] == [b, c] && [b, c][1..] == [c] && [c][1..] == [];
    assert Outstanding([c]) == 1;
    assert Outstanding([b, c]) == 2;
  }

  lemma {:induction false} CountOne(a: Tracker, b: Tracker)
    requires a.returned > 0 && b.returned == 0
    ensures Outstanding([a, b]) == 1
  {
    assert [a, b][1..] == [b] && [b][1..] == [];
    assert Outstanding([b]) == 1;
  }

  lemma {:induction false} FiveSteps(s: State, max: int, a: Action, b: Action, c: Action, d: Action, e: Action)
    ensures Run(s, max, [a, b, c, d, e]) == Step(Step(Step(Step(Step(s, max, a), max, b), max, c), max, d), max, e)
  {
    hide Step;
    assert [a, b, c, d, e][1..] == [b, c, d, e] && [b, c, d, e][1..] == [c, d, e];
    assert [c, d, e][1..] == [d, e] && [d, e][1..] == [e] && [e][1..] == [];
    var s3 := Step(Step(Step(s, max, a), max, b), max, c);
    assert Run(s3, max, [d, e]) == Run(Step(s3, max, d), max, [e]);
    assert Run(Step(s, max, a), max, [b, c, d, e]) == Run(Step(Step(s, max, a), max, b), max, [c, d, e]);
    assert Run(Step(Step(s, max, a), max, b), max, [c, d, e]) == Run(s3, max, [d, e]);
    assert Run(Step(s3, max, d), max, [e]) == Step(Step(s3, max, d), max, e);
  }

  /** The bound is met: one notified thread leaves after a shutdown without its process, and another
    * goes on waiting beside it with nobody on the way. */
  lemma {:induction false} ShutdownLosesWakeUp()
    ensures var s := Run(Begin(3), 1, [Enter(0), Enter(1), Enter(2), Shutdown, Finished(0, 1)]);
            var t := Step(s, 1, Recheck(1));
            Leaves(s, Recheck(1)) && Waits(t, 2) && t.counter == 0 && Notified(t.threads) == 0
  {
    var s0 := Begin(3);
    assert s0.threads == [Outside, Outside, Outside];
    var s3 := Step(Step(Step(s0, 1, Enter(0)), 1, Enter(1)), 1, Enter(2));
    assert s3 == State(1, false, [Outside, Waiting, Waiting], [Tracker(true, 0)]);
    var s5 := Step(Step(s3, 1, Shutdown), 1, Finished(0, 1));
    assert s5 == State(0, true, [Outside, Awake(true), Waiting], [Tracker(false, 1)]);
    FiveSteps(s0, 1, Enter(0), Enter(1), Enter(2), Shutdown, Finished(0, 1));
    var t := Step(s5, 1, Recheck(1));
    assert t.threads == [Outside, Outside, Waiting];
    NoneNotified(Outside, Outside, Waiting);
  }

  lemma {:induction false} NoneNotified(a: Thread, b: Thread, c: Thread)
    requires !a.Awake? && !b.Awake? && !c.Awake?
    ensures Notified([a, b, c]) == 0
  {
    assert [a, b, c][1..] == [b, c] && [b, c][1..] == [c] && [c][1..] == [];
    assert Notified([c]) == 0;
    assert Notified([b, c]) == 0;
  }

  /** `m_maxProcesses` is never assigned and so is 0: as the code stands no thread ever gets a
    * tracker. */
  lemma {:induction false} NothingAdmitted(s: State, acts: seq<Action>)
    requires s.trackers == [] && s.counter == 0
    ensures Run(s, 0, acts).trackers == [] && Run(s, 0, acts).counter == 0
    decreases |acts|
  {
    if acts != [] { NothingAdmitted(Step(s, 0, acts[0]), acts[1..]); }
  }

  /** A shutdown turns nobody away who comes after it: a thread gets a running tracker as long as there is
    * room, and goes to wait otherwise. */
  lemma {:induction false} AdmittedAfterShutdown(s: State, max: int, t: nat)
    requires t < |s.threads| && s.threads[t] == Outside
    ensures var u := Run(s, max, [Shutdown, Enter(t)]);
            if s.counter < max then u.counter == s.counter + 1 && u.threads == s.threads && u.trackers == s.trackers + [Tracker(true, 0)]
            else u.counter == s.counter && u.threads == s.threads[t := Waiting] && u.trackers == s.trackers
  {
    TwoSteps(s, max, Shutdown, Enter(t));
  }

  lemma {:induction false} TwoSteps(s: State, max: int, a: Action, b: Action)
    ensures Run(s, max, [a, b]) == Step(Step(s, max, a), max, b)
  {
    hide Step;
    assert [a, b][1..] == [b] && [b][1..] == [];
    assert Run(Step(s, max, a), max, [b]) == Step(Step(s, max, a), max, b);
  }

  /** A tracker that has finished can still fail, which gives its process back once more; finishing a second
    * time throws and gives nothing back. */
  lemma {:induction false} FinishThenFail(s: State, max: int, k: nat, chosen: nat, next: nat)
    requires k < |s.trackers| && s.trackers[k].running
    ensures var u := Run(s, max, [Finished(k, chosen), Failed(k, next)]);
            u.counter == s.counter - 2 && u.trackers == s.trackers[k := Tracker(false, s.trackers[k].returned + 2)]
    ensures Run(s, max, [Finished(k, chosen), Finished(k, next)]) == Step(s, max, Finished(k, chosen))
  {
    hide Notify;
    TwoSteps(s, max, Finished(k, chosen), Failed(k, next));
    TwoSteps(s, max, Finished(k, chosen), Finished(k, next));
  }

  // ----------------------------------------------------------------------- the class, block by block

  class AdaptiveCongestionController {
    var processCounter: int
    const maxProcesses: int
    var shuttingDown: bool
    /** The wait set of the lock and the threads on their way, and the trackers handed out. */
    var threads: seq<Thread>
    var trackers: seq<Tracker>

    constructor (maxProcesses: int, n: nat)
      ensures this.maxProcesses == maxProcesses && Now() == Begin(n)
    {
      processCounter, this.maxProcesses, shuttingDown := 0, maxProcesses, false;
      threads, trackers := seq(n, _ => Outside), [];
    }

    function Now(): State
      reads this
    {
      State(processCounter, shuttingDown, threads, trackers)
    }

    /** `getProcessTracker` from the test of the loop to the `wait` or the end. */
    method TestAndTake(t: nat)
      requires t < |threads|
      modifies this
      ensures t < |old(Now()).threads| && Now() == Test(old(Now()), maxProcesses, t)
    {
      if processCounter >= maxProcesses {
        threads := threads[t := Waiting];
      } else {
        processCounter := processCounter + 1;
        threads := threads[t := Outside];
        trackers := trackers + [Tracker(true, 0)];
      }
    }

    method GetProcessTracker(t: nat)
      requires t < |threads| && threads[t] == Outside
      modifies this
      ensures Now() == Step(old(Now()), maxProcesses, Enter(t))
    {
      TestAndTake(t);
    }

    /** After `wait` has returned or thrown. */
    method AfterWait(t: nat)
      requires t < |threads| && threads[t].Awake?
      modifies this
      ensures Now() == Step(old(Now()), maxProcesses, Recheck(t))
    {
      if shuttingDown {
        threads := threads[t := Outside];
        return;
      }
      TestAndTake(t);
    }

    method ProcessReturned(k: nat, chosen: nat)
      requires k < |trackers|
      modifies this
      ensures k < |old(Now()).trackers| && Now() == Returned(old(Now()), k, chosen)
    {
      processCounter := processCounter - 1;
      trackers := trackers[k := trackers[k].(returned := trackers[k].returned + 1)];
      threads := Notify(threads, chosen);
    }

    /** `ProcessTimer.finished`: stops the stopwatch, which throws if it is stopped already. */
    method FinishedProcess(k: nat, chosen: nat) returns (threw: bool)
      requires k < |trackers|
      modifies this
      ensures Now() == Step(old(Now()), maxProcesses, Finished(k, chosen)) && threw == !old(trackers)[k].running
    {
      if !trackers[k].running { return true; }
      trackers := trackers[k := trackers[k].(running := false)];
      ProcessReturned(k, chosen);
      return false;
    }

    method FailedProcess(k: nat, chosen: nat)
      requires k < |trackers|
      modifies this
      ensures Now() == Step(old(Now()), maxProcesses, Failed(k, chosen))
    {
      ProcessReturned(k, chosen);
    }
  }
}
