/** `$q` as it runs: promise states are objects whose fields are assigned, and one turn goes through
  * its list calling the user's functions. */
module PromiseHeap {
  import opened Promises

  class PromiseState<V> {
    var status: int
    var value: Value<V>
    var pending: seq<Entry>
    var processScheduled: bool
    ghost const place: nat

    constructor (ghost place: nat)
      ensures status == 0 && value == Undefined && pending == [] && !processScheduled && this.place == place
    {
      status, value, pending, processScheduled, this.place := 0, Undefined, [], false, place;
    }
  }

  class Q<V> {
    /** All promise states made so far; a number stands for a reference to one of them. */
    var all: seq<PromiseState<V>>
    var pairs: seq<Pair>
    /** The functions given to `nextTick`, by the promise each is for. */
    var queue: seq<nat>
    /** The calls of `$$resolve` that wait for the user's code, innermost last. */
    var looking: seq<Frame<V>>
    ghost var repr: set<PromiseState<V>>
    ghost var view: State<V>

    ghost predicate Places()
      reads this`all, this`repr
    {
      forall i {:trigger all[i]} :: 0 <= i < |all| ==> all[i].place == i && all[i] in repr
    }

    ghost predicate Fields()
      requires Places()
      reads this`all, this`repr, this`view, repr
    {
      && |all| == |view.promises|
      && forall i {:trigger all[i]} {:trigger view.promises[i]} :: 0 <= i < |all| ==> Same(all[i], view.promises[i])
    }

    ghost predicate Shape()
      reads this, repr
    {
      Places() && Fields() && pairs == view.pairs && queue == view.queue && looking == view.looking
    }

    ghost predicate Valid()
      reads this, repr
    {
      Shape() && Sane(view)
    }

    constructor ()
      ensures Valid() && view == NoPromises()
    {
      all, pairs, queue, looking, repr, view := [], [], [], [], {}, NoPromises();
    }

    /** `new Deferred`. */
    method NewDeferred()
      requires Shape()
      modifies this`all, this`repr, this`view
      ensures Shape() && fresh(repr - old(repr)) && repr >= old(repr) && view == NewPromise(old(view))
      ensures pairs == old(pairs) && queue == old(queue)
    {
      var d := new PromiseState(|all|);
      all, repr, view := all + [d], repr + {d}, NewPromise(view);
    }

    method ScheduleProcessing(i: nat)
      requires Shape() && i < |all|
      modifies this`view, this`queue, repr`processScheduled
      ensures Shape() && i < |old(view).promises| && view == Schedule(old(view), i)
    {
      var p := all[i];
      ghost var s := view;
      if !p.processScheduled && p.pending != [] {
        p.processScheduled := true;
        queue := queue + [i];
        view := Schedule(view, i);
      }
    }

    /** Adds an entry to those waiting for a promise. */
    method Push(i: nat, e: Entry)
      requires Shape() && i < |all|
      modifies this`view, repr`pending
      ensures Shape() && i < |old(view).promises| && view == Register(old(view), i, e)
    {
      all[i].pending := all[i].pending + [e];
      view := Register(view, i, e);
    }

    /** `then`; the result is the number of the promise it returns. */
    method Then(i: nat, onOk: Callback, onErr: Callback, progress: bool) returns (d: nat)
      requires Shape() && i < |all|
      modifies this`all, this`repr, this`view, this`queue, repr
      ensures Shape() && fresh(repr - old(repr)) && repr >= old(repr)
      ensures i < |old(view).promises| && view == Promises.Then(old(view), i, onOk, onErr, progress)
      ensures d == if onOk.Missing? && onErr.Missing? && !progress then i else |old(all)|
    {
      hide Promises.Schedule, Register, NewPromise;
      if onOk.Missing? && onErr.Missing? && !progress { return i; }
      d := |all|;
      NewSizes(view);
      NewDeferred();
      Push(i, Entry(d, onOk, onErr));
      RegisterSizes(view, i, d);
      if all[i].status > 0 { ScheduleProcessing(i); }
    }

    lemma {:induction false} NewSizes(s: State<V>)
      ensures |NewPromise(s).promises| == |s.promises| + 1
    {
    }

    lemma {:induction false} RegisterSizes(s: State<V>, i: nat, d: nat)
      requires Shape() && s == view && i < |all|
      ensures i < |s.promises| && all[i].status == s.promises[i].status
    {
    }

    method SetOutcome(i: nat, status: int, v: Value<V>)
      requires Shape() && i < |all|
      modifies this`view, repr`value, repr`status
      ensures Shape() && i < |old(view).promises|
      ensures view == old(view).(promises := old(view).promises[i := old(view).promises[i].(value := v, status := status)])
    {
      all[i].value := v;
      all[i].status := status;
      view := view.(promises := view.promises[i := view.promises[i].(value := v, status := status)]);
    }

    method SettleAs(i: nat, status: int, v: Value<V>)
      requires Shape() && i < |all|
      modifies this`view, this`queue, repr
      ensures Shape() && i < |old(view).promises| && view == Settle(old(view), i, status, v)
    {
      hide Promises.Schedule;
      SetOutcome(i, status, v);
      ScheduleProcessing(i);
    }

    /** The status becomes -1. */
    method SetStatusLocked(i: nat)
      requires Shape() && i < |all|
      modifies this`view, repr`status
      ensures Shape() && i < |old(view).promises| && view == SetLocked(old(view), i)
    {
      all[i].status := -1;
      view := SetLocked(view, i);
    }

    method MakePair(i: nat) returns (k: nat)
      requires Shape()
      modifies this`view, this`pairs
      ensures Shape() && view == AddPair(old(view), i) && k == |old(view).pairs|
    {
      k := |pairs|;
      pairs := pairs + [Pair(i, false)];
      view := AddPair(view, i);
    }

    method LockIn(i: nat) returns (k: nat)
      requires Shape() && i < |all|
      modifies this`view, this`pairs, repr`status
      ensures Shape() && i < |old(view).promises| && view == Lock(old(view), i) && k == |old(view).pairs|
    {
      SetStatusLocked(i);
      k := MakePair(i);
    }

    method MarkUsed(k: nat)
      requires Shape() && k < |pairs|
      modifies this`view, this`pairs
      ensures Shape() && k < |old(view).pairs| && view == Used(old(view), k)
    {
      pairs := pairs[k := pairs[k].(used := true)];
      view := Used(view, k);
    }

    /** The user's code runs: a lookup of `then` begins, or the `then` that was found is called. */
    method Enter(f: Frame<V>)
      requires Shape()
      modifies this`view, this`looking
      ensures Shape() && view == Promises.Push(old(view), f)
    {
      looking := looking + [f];
      view := Promises.Push(view, f);
    }

    /** It comes back. */
    method Leave() returns (f: Frame<V>)
      requires Shape() && looking != []
      modifies this`view, this`looking
      ensures old(view).looking != [] && Shape() && view == Pop(old(view)) && f == Top(old(view))
    {
      f := looking[|looking| - 1];
      looking := looking[..|looking| - 1];
      view := Pop(view);
    }

    /** `$$resolve` of a value on which there is no `then` to look up, or only our own. */
    method ResolveAny(i: nat, v: Value<V>)
      requires Shape() && i < |all| && !v.Object?
      modifies this, repr
      ensures Shape() && fresh(repr - old(repr)) && repr >= old(repr)
      ensures i < |old(view).promises| && view == ResolveInner(old(view), i, v)
    {
      hide Settle, Lock, Promises.Then;
      LockedSizes(view, i);
      if v.Ref? && v.p < |all| {
        var k := LockIn(i);
        var d := Then(v.p, Settler(k, true), Settler(k, false), true);
      } else {
        SettleAs(i, 1, v);
      }
    }

    /** `deferred.resolve`, up to the lookup of `then`. */
    method Resolve(i: nat, v: Value<V>)
      requires Shape() && i < |all|
      modifies this, repr
      ensures Shape() && fresh(repr - old(repr)) && repr >= old(repr)
      ensures i < |old(view).promises| && view == Promises.Resolve(old(view), i, v)
    {
      hide Settle, ResolveInner;
      RegisterSizes(view, i, i);
      if all[i].status == 0 {
        if v == Ref(i) { SettleAs(i, 2, CycleError); }
        else if v.Object? { Enter(Fresh(i, v)); }
        else { ResolveAny(i, v); }
      }
    }

    /** `deferred.reject`. */
    method Reject(i: nat, v: Value<V>)
      requires Shape() && i < |all|
      modifies this`view, this`queue, repr
      ensures Shape() && i < |old(view).promises| && view == Promises.Reject(old(view), i, v)
    {
      hide Settle;
      RegisterSizes(view, i, i);
      if all[i].status == 0 { SettleAs(i, 2, v); }
    }

    /** After a function of a pair, in a turn: the child is resolved with what it returned. */
    method Finish(c: Caller)
      requires Shape()
      modifies this, repr
      ensures Shape() && fresh(repr - old(repr)) && repr >= old(repr)
      ensures view == Done(old(view), c)
    {
      hide Promises.Resolve;
      match c
      case Script =>
      case Reaction(child) => if child < |all| { Resolve(child, Undefined); }
    }

    /** One of the pair of functions handed to a thenable: only the first call of the two counts. */
    method UsePair(k: nat, ok: bool, v: Value<V>, c: Caller)
      requires Shape() && k < |pairs| && pairs[k].promise < |all|
      modifies this, repr
      ensures Shape() && fresh(repr - old(repr)) && repr >= old(repr)
      ensures k < |old(view).pairs| && old(view).pairs[k].promise < |old(view).promises|
      ensures view == CallPair(old(view), k, ok, v, c)
    {
      hide Settle, ResolveInner, Done;
      if pairs[k].used {
        Finish(c);
        return;
      }
      var i := pairs[k].promise;
      MarkUsed(k);
      if !ok {
        SettleAs(i, 2, v);
        Finish(c);
      } else if v.Object? {
        var n := MakePair(i);
        Enter(OfPair(i, v, n, c));
      } else {
        ResolveAny(i, v);
        Finish(c);
      }
    }

    /** `$$resolve` after the lookup of `then`. */
    method DecideNow(f: Frame<V>, o: Looking<V>)
      requires Shape() && FrameInTable(view, f) && !f.Handing?
      modifies this, repr
      ensures Shape() && fresh(repr - old(repr)) && repr >= old(repr)
      ensures old(FrameInTable(view, f)) && view == Decide(old(view), f, o)
    {
      hide Settle, Done, Lock, SetLocked;
      match f
      case Fresh(i, v) =>
        match o {
          case AFunction =>
            var k := LockIn(i);
            Enter(Handing(Script));
          case Otherwise => SettleAs(i, 1, v);
          case Throws(error) => SettleAs(i, 2, error);
        }
      case OfPair(i, v, n, c) =>
        if o.AFunction? {
          SetStatusLocked(i);
          Enter(Handing(c));
        } else {
          MarkUsed(n);
          if o.Throws? { SettleAs(i, 2, o.error); } else { SettleAs(i, 1, v); }
          Finish(c);
        }
    }

    lemma {:induction false} TopInTable()
      requires Valid() && looking != []
      ensures FrameInTable(Pop(view), Top(view))
    {
      PopSane(view);
    }

    /** Nobody has been handed the pair yet. */
    method IsHeld(k: nat) returns (held: bool)
      requires Shape()
      ensures held == Held(view, k)
    {
      held := exists f :: 0 <= f < |looking| && looking[f].OfPair? && looking[f].pair == k;
    }

    /** One action of the user's code. */
    method Do(a: Action<V>)
      requires Valid() && UserAction(a)
      modifies this, repr
      ensures Valid() && fresh(repr - old(repr)) && repr >= old(repr)
      ensures old(Sane(view)) && view == Step(old(view), a) && view.turn == old(view.turn)
    {
      hide Sane, Promises.Then, Promises.Resolve, Promises.Reject, CallPair, NewPromise, Decide, Done, Held;
      UserStepCalm(view, a);
      match a
      case New => NewDeferred();
      case CallThen(i, onOk, onErr, progress) =>
        if i < |all| && UserCallback(onOk) && UserCallback(onErr) { var d := Then(i, onOk, onErr, progress); }
      case CallResolve(i, v) => if i < |all| { Resolve(i, v); }
      case CallReject(i, v) => if i < |all| { Reject(i, v); }
      case UsePair(k, ok, v) =>
        var held := IsHeld(k);
        if k < |pairs| && !held {
          UsedSane(view, k);
          UsePair(k, ok, v, Script);
        }
      case Looked(o) =>
        if looking != [] && !looking[|looking| - 1].Handing? {
          TopInTable();
          var f := Leave();
          DecideNow(f, o);
        }
      case Handed =>
        if looking != [] && looking[|looking| - 1].Handing? {
          var f := Leave();
          Finish(f.caller);
        }
    }

    // ------------------------------------------------------------------------------- a turn

    /** The start of a turn, for the first function in the queue: the waiting entries are taken over,
      * the promise has none any more, and can be scheduled again. */
    method TakeOver() returns (i: nat, e: seq<Entry>)
      requires Valid() && view.turn.Idle? && queue != [] && looking == []
      modifies this`view, this`queue, repr`pending, repr`processScheduled
      ensures Valid() && i < |all| && old(Sane(view)) && view == Step(old(view), Promises.Start) && view.turn == Going(i, e)
      ensures looking == []
    {
      hide EntriesInTable, InLine, FramesInTable;
      StartSane(view);
      i := queue[0];
      queue := queue[1..];
      e := all[i].pending;
      all[i].processScheduled := false;
      all[i].pending := [];
      view := StartTurn(view);
    }

    lemma {:induction false} ChildHere(child: nat)
      requires Shape() && child < |view.promises|
      ensures child < |all|
    {
    }

    ghost method MarkTaken()
      requires Shape() && view.turn.Going? && view.turn.rest != [] && view.turn.promise < |view.promises|
      modifies this`view
      ensures Shape() && view == TakeEntry(old(view))
    {
      view := TakeEntry(view);
    }

    /** The user's callback comes back and its deferred gets the outcome. */
    method EndCall(child: nat, a: Action<V>)
      requires Valid() && view.turn.Calling? && view.turn.child == child && (a.Return? || a.Throw?) && looking == []
      modifies this, repr
      ensures Valid() && fresh(repr - old(repr)) && repr >= old(repr)
      ensures old(Sane(view)) && view == Step(old(view), a)
      ensures old(view).turn.Calling? && view.turn == Going(old(view).turn.promise, old(view).turn.rest)
    {
      hide Sane, Promises.Resolve, Promises.Reject;
      BackSane(view);
      ResolveSane(Back(view), child, a.v);
      CalmTurn(Back(view), Promises.Resolve(Back(view), child, a.v));
      CalmTurn(Back(view), Promises.Reject(Back(view), child, a.v));
      view := Back(view);
      ChildHere(child);
      if a.Return? { Resolve(child, a.v); } else { Reject(child, a.v); }
    }

    /** The user's code inside one entry of a turn, as long as there is some: its callback, the lookups
      * of `then` on what it resolves, and the calls of the `then` that were found. */
    method Drive(ghost i: nat, child: nat, ghost rest: seq<Entry>, calling: bool, acts: seq<Action<V>>)
        returns (done: bool, ghost trace: seq<Action<V>>)
      requires Valid() && view.turn == if calling then Calling(i, rest, child) else Going(i, rest)
      modifies this, repr
      ensures Valid() && fresh(repr - old(repr)) && repr >= old(repr)
      ensures old(Sane(view)) && view == Run(old(view), trace)
      ensures done ==> looking == [] && view.turn == Going(i, rest)
    {
      hide Sane, Run, Step;
      ghost var s := view;
      var k, inside := 0, calling;
      trace := [];
      RunNone(s);
      while k < |acts| && (inside || looking != [])
        invariant 0 <= k <= |acts| && Valid() && fresh(repr - old(repr)) && repr >= old(repr)
        invariant view == Run(s, trace)
        invariant view.turn == if inside then Calling(i, rest, child) else Going(i, rest)
      {
        var a := acts[k];
        if UserAction(a) {
          Do(a);
          RunSnoc(s, trace, a);
          trace := trace + [a];
        } else if inside && looking == [] && (a.Return? || a.Throw?) {
          EndCall(child, a);
          RunSnoc(s, trace, a);
          trace := trace + [a];
          inside := false;
        }
        k := k + 1;
      }
      done := !inside && looking == [];
    }

    /** One round of the loop over the list that was taken, up to the user's code. */
    method HandleEntry(i: nat, e: Entry, ghost rest: seq<Entry>) returns (calling: bool)
      requires Valid() && looking == [] && view.turn == Going(i, [e] + rest)
      modifies this, repr
      ensures Valid() && fresh(repr - old(repr)) && repr >= old(repr)
      ensures old(Sane(view)) && view == Step(old(view), Promises.Take)
      ensures view.turn == if calling then Calling(i, rest, e.child) else Going(i, rest)
    {
      hide Sane, Step, TakeEntry, Promises.Resolve, Promises.Reject, CallPair;
      TakeStep(view, i, e, rest);
      RegisterSizes(view, i, i);
      MarkTaken();
      ChildHere(i);
      ChildHere(e.child);
      var v := all[i].value;
      var callback := CallbackAt(e, all[i].status);
      HandleSane(view, e, all[i].status, v);
      calling := callback.User?;
      match callback
      case User(_) => view := view.(turn := Calling(i, rest, e.child));
      case Settler(k, works) => UsePair(k, works, v, Reaction(e.child));
      case _ =>
        if all[i].status == 1 { Resolve(e.child, v); } else { Reject(e.child, v); }
    }

    /** A whole turn, with `script(f)` the user's code inside the entry at place `f`: every way it can go
      * is a run of the steps of `Promises`.  Without an end of that code the turn is not finished. */
    method RunTurn(script: nat -> seq<Action<V>>) returns (finished: bool, ghost trace: seq<Action<V>>)
      requires Valid() && view.turn.Idle? && queue != [] && looking == []
      modifies this, repr
      ensures Valid() && fresh(repr - old(repr))
      ensures old(Sane(view)) && view == Run(old(view), trace) && (finished ==> view.turn.Idle? && looking == [])
    {
      hide Sane, Run, Step;
      ghost var s := view;
      RunOne(s, Promises.Start);
      var i, e := TakeOver();
      trace := [Promises.Start];
      var f := 0;
      while f < |e|
        invariant 0 <= f <= |e| && Valid() && view.turn == Going(i, e[f..]) && looking == []
        invariant fresh(repr - old(repr)) && repr >= old(repr)
        invariant view == Run(s, trace)
      {
        assert e[f..] == [e[f]] + e[f+1..];
        RunSnoc(s, trace, Promises.Take);
        var calling := HandleEntry(i, e[f], e[f+1..]);
        trace := trace + [Promises.Take];
        ghost var more;
        finished, more := Drive(i, e[f].child, e[f+1..], calling, script(f));
        RunConcat(s, trace, more);
        trace := trace + more;
        if !finished { return; }
        f := f + 1;
      }
      RunSnoc(s, trace, Promises.Finish);
      EndTurn(i);
      trace := trace + [Promises.Finish];
      finished := true;
    }

    method EndTurn(ghost i: nat)
      requires Valid() && view.turn == Going(i, []) && looking == []
      modifies this`view
      ensures Valid() && old(Sane(view)) && view == Step(old(view), Promises.Finish) && view.turn.Idle?
    {
      hide Sane;
      TurnSane(view, Idle);
      view := view.(turn := Idle);
    }
  }

  /** What the step `Take` comes to. */
  lemma {:induction false} TakeStep<V>(s: State<V>, i: nat, e: Entry, rest: seq<Entry>)
    requires Sane(s) && s.turn == Going(i, [e] + rest) && s.looking == []
    ensures i < |s.promises| && Sane(TakeEntry(s)) && TakeEntry(s).turn == Going(i, rest) && InTable(TakeEntry(s), e)
    ensures |TakeEntry(s).promises| == |s.promises|
    ensures TakeEntry(s).promises[i].status == s.promises[i].status && TakeEntry(s).promises[i].value == s.promises[i].value
    ensures forall k :: 0 <= k < |TakeEntry(s).pairs| ==> TakeEntry(s).pairs[k].promise < |TakeEntry(s).promises|
    ensures Step(s, Promises.Take) == Handle(TakeEntry(s), e, s.promises[i].status, s.promises[i].value)
  {
    hide InLine, EntriesInTable, FramesInTable, Resolve, Reject, CallPair;
    TakeSane(s);
    assert ([e] + rest)[1..] == rest;
  }

  ghost predicate Same<V>(o: PromiseState<V>, p: Promise<V>)
    reads o
  {
    o.status == p.status && o.value == p.value && o.pending == p.pending && o.processScheduled == p.scheduled
  }
}
