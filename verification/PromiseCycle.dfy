/** A promise that is resolved with itself.  `resolve` notices; the function handed to a thenable
  * goes straight to `$$resolve`, which does not, and the promise then waits for itself for ever
  * (section 2.3.1 of Promises/A+ asks for a rejection in both cases). */
module PromiseCycle {
  import opened Promises
  import opened PromiseOutcomes

  predicate Mentions(e: Entry, n: nat) {
    (e.onOk.Settler? && e.onOk.pair == n) || (e.onErr.Settler? && e.onErr.pair == n)
  }

  /** Pair `n` is the one unused pair of promise `i`, and only `i` itself would call it. */
  ghost predicate WaitsForItself<V>(s: State<V>, i: nat, n: nat) {
    && i < |s.promises| && Live(s, n, i) && !Held(s, n)
    && forall j, k {:trigger s.promises[j].registered[k]} ::
         0 <= j < |s.promises| && j != i && 0 <= k < |s.promises[j].registered| ==> !Mentions(s.promises[j].registered[k], n)
  }

  /** From `s` to `t` pair `n` stays as it is, no lookup gets hold of it, and nothing new is registered
    * that would call it. */
  ghost predicate Aside<V>(s: State<V>, t: State<V>, n: nat) {
    && n < |s.pairs| <= |t.pairs| && t.pairs[n] == s.pairs[n] && |s.promises| <= |t.promises|
    && (Held(t, n) ==> Held(s, n))
    && (forall j {:trigger t.promises[j]} :: 0 <= j < |s.promises| ==> s.promises[j].registered <= t.promises[j].registered)
    && forall j, k {:trigger t.promises[j].registered[k]} ::
         0 <= j < |t.promises| && 0 <= k < |t.promises[j].registered| && (j < |s.promises| ==> k >= |s.promises[j].registered|) ==>
           !Mentions(t.promises[j].registered[k], n)
  }

  lemma {:induction false} AsideSelf<V>(s: State<V>, n: nat)
    requires n < |s.pairs|
    ensures Aside(s, s, n)
  {
  }

  lemma {:induction false} AsideOn<V>(s: State<V>, t: State<V>, u: State<V>, n: nat)
    requires Aside(s, t, n) && Aside(t, u, n)
    ensures Aside(s, u, n)
  {
    forall j, k | 0 <= j < |u.promises| && 0 <= k < |u.promises[j].registered| && (j < |s.promises| ==> k >= |s.promises[j].registered|)
      ensures !Mentions(u.promises[j].registered[k], n)
    {
      if j < |t.promises| && k < |t.promises[j].registered| {
        assert u.promises[j].registered[k] == t.promises[j].registered[k];
      }
    }
  }

  lemma {:induction false} AsideThen<V>(s: State<V>, i: nat, onOk: Callback, onErr: Callback, progress: bool, n: nat)
    requires i < |s.promises| && n < |s.pairs| && !Mentions(Entry(|s.promises|, onOk, onErr), n)
    ensures Aside(s, Then(s, i, onOk, onErr, progress), n)
  {
  }

  lemma {:induction false} AsideSettle<V>(s: State<V>, i: nat, status: int, v: Value<V>, n: nat)
    requires i < |s.promises| && n < |s.pairs|
    ensures Aside(s, Settle(s, i, status, v), n)
  {
  }

  lemma {:induction false} AsideLock<V>(s: State<V>, i: nat, n: nat)
    requires i < |s.promises| && n < |s.pairs|
    ensures Aside(s, Lock(s, i), n)
  {
  }

  lemma {:induction false} AsidePush<V>(s: State<V>, f: Frame<V>, n: nat)
    requires n < |s.pairs| && !(f.OfPair? && f.pair == n)
    ensures Aside(s, Push(s, f), n)
  {
    var t := Push(s, f);
    if Held(t, n) {
      var g :| 0 <= g < |t.looking| && t.looking[g].OfPair? && t.looking[g].pair == n;
      assert t.looking[g] == s.looking[g];
    }
  }

  lemma {:induction false} AsidePop<V>(s: State<V>, n: nat)
    requires n < |s.pairs| && s.looking != []
    ensures Aside(s, Pop(s), n)
  {
    var t := Pop(s);
    if Held(t, n) {
      var g :| 0 <= g < |t.looking| && t.looking[g].OfPair? && t.looking[g].pair == n;
      assert t.looking[g] == s.looking[g];
    }
  }

  lemma {:induction false} AsideResolveInner<V>(s: State<V>, i: nat, v: Value<V>, n: nat)
    requires i < |s.promises| && n < |s.pairs| && !v.Object?
    ensures Aside(s, ResolveInner(s, i, v), n)
  {
    hide Aside, Settle, Lock, Then;
    LockedSizes(s, i);
    AsideLock(s, i, n);
    AsideSettle(s, i, FULFILLED, v, n);
    if v.Ref? && v.p < |s.promises| {
      var k := |s.pairs|;
      AsideThen(Lock(s, i), v.p, Settler(k, true), Settler(k, false), true, n);
      AsideOn(s, Lock(s, i), ResolveInner(s, i, v), n);
    }
  }

  lemma {:induction false} AsideResolve<V>(s: State<V>, i: nat, v: Value<V>, n: nat)
    requires i < |s.promises| && n < |s.pairs|
    ensures Aside(s, Resolve(s, i, v), n) && Aside(s, Reject(s, i, v), n)
  {
    hide Aside, Settle, ResolveInner;
    AsideSelf(s, n);
    AsideSettle(s, i, REJECTED, CycleError, n);
    AsideSettle(s, i, REJECTED, v, n);
    if v.Object? { AsidePush(s, Fresh(i, v), n); } else { AsideResolveInner(s, i, v, n); }
  }

  lemma {:induction false} AsideDone<V>(s: State<V>, t: State<V>, c: Caller, n: nat)
    requires Aside(s, t, n)
    ensures Aside(s, Done(t, c), n)
  {
    hide Aside, Resolve;
    AsideSizes(s, t, n);
    if c.Reaction? && c.child < |t.promises| {
      AsideResolve(t, c.child, Undefined, n);
      AsideOn(s, t, Done(t, c), n);
    }
  }

  lemma {:induction false} AsideCallPair<V>(s: State<V>, k: nat, ok: bool, v: Value<V>, c: Caller, n: nat)
    requires k < |s.pairs| && s.pairs[k].promise < |s.promises| && n < |s.pairs| && k != n
    ensures Aside(s, CallPair(s, k, ok, v, c), n)
  {
    hide Aside, Settle, ResolveInner, Done;
    AsideSelf(s, n);
    var t, i := Used(s, k), s.pairs[k].promise;
    if s.pairs[k].used {
      AsideDone(s, s, c, n);
    } else {
      AsideUsed(s, k, n);
      if !ok {
        AsideSettle(t, i, REJECTED, v, n);
        AsideOn(s, t, Settle(t, i, REJECTED, v), n);
        AsideDone(s, Settle(t, i, REJECTED, v), c, n);
      } else if v.Object? {
        AsidePair(t, i, n);
        AsidePush(AddPair(t, i), OfPair(i, v, |s.pairs|, c), n);
        AsideOn(s, t, AddPair(t, i), n);
        AsideOn(s, AddPair(t, i), CallPair(s, k, ok, v, c), n);
      } else {
        AsideResolveInner(t, i, v, n);
        AsideOn(s, t, ResolveInner(t, i, v), n);
        AsideDone(s, ResolveInner(t, i, v), c, n);
      }
    }
  }

  lemma {:induction false} AsidePair<V>(s: State<V>, i: nat, n: nat)
    requires n < |s.pairs|
    ensures Aside(s, AddPair(s, i), n)
  {
  }

  lemma {:induction false} AsideSetLocked<V>(s: State<V>, i: nat, n: nat)
    requires n < |s.pairs| && i < |s.promises|
    ensures Aside(s, SetLocked(s, i), n)
  {
  }

  /** The end of a lookup does not touch a pair that belongs to no lookup. */
  lemma {:induction false} AsideDecide<V>(s: State<V>, f: Frame<V>, o: Looking<V>, n: nat)
    requires FrameInTable(s, f) && !f.Handing? && n < |s.pairs| && !(f.OfPair? && f.pair == n)
    ensures Aside(s, Decide(s, f, o), n)
  {
    hide Aside, Settle, Done, Lock, SetLocked;
    match f
    case Fresh(i, v) =>
      LockedSizes(s, i);
      AsideLock(s, i, n);
      AsidePush(Lock(s, i), Handing(Script), n);
      AsideOn(s, Lock(s, i), Push(Lock(s, i), Handing(Script)), n);
      AsideSettle(s, i, FULFILLED, v, n);
      if o.Throws? { AsideSettle(s, i, REJECTED, o.error, n); }
    case OfPair(i, v, m, c) =>
      LockedSizes(s, i);
      AsideSetLocked(s, i, n);
      AsidePush(SetLocked(s, i), Handing(c), n);
      AsideOn(s, SetLocked(s, i), Push(SetLocked(s, i), Handing(c)), n);
      AsideUsed(s, m, n);
      AsideSettle(Used(s, m), i, FULFILLED, v, n);
      AsideOn(s, Used(s, m), Settle(Used(s, m), i, FULFILLED, v), n);
      AsideDone(s, Settle(Used(s, m), i, FULFILLED, v), c, n);
      if o.Throws? {
        AsideSettle(Used(s, m), i, REJECTED, o.error, n);
        AsideOn(s, Used(s, m), Settle(Used(s, m), i, REJECTED, o.error), n);
        AsideDone(s, Settle(Used(s, m), i, REJECTED, o.error), c, n);
      }
  }

  lemma {:induction false} AsideUsed<V>(s: State<V>, k: nat, n: nat)
    requires k < |s.pairs| && n < |s.pairs| && k != n
    ensures Aside(s, Used(s, k), n)
  {
  }

  lemma {:induction false} AsideTake<V>(s: State<V>, n: nat)
    requires n < |s.pairs| && s.turn.Going? && s.turn.rest != [] && s.turn.promise < |s.promises|
    ensures Aside(s, TakeEntry(s), n)
  {
  }

  lemma {:induction false} AsideHandle<V>(s: State<V>, e: Entry, status: int, v: Value<V>, n: nat)
    requires s.turn.Going? && InTable(s, e) && n < |s.pairs| && !Mentions(e, n)
    requires forall k :: 0 <= k < |s.pairs| ==> s.pairs[k].promise < |s.promises|
    ensures Aside(s, Handle(s, e, status, v), n)
  {
    hide Aside, Resolve, Reject, CallPair;
    match CallbackAt(e, status)
    case User(_) =>
      var t := s.(turn := Calling(s.turn.promise, s.turn.rest, e.child));
      AsideSelf(s, n);
      AsideTurn(s, t, n);
    case Settler(k, ok) => AsideCallPair(s, k, ok, v, Reaction(e.child), n);
    case _ => AsideResolve(s, e.child, v, n);
  }

  lemma {:induction false} AsideSizes<V>(s: State<V>, t: State<V>, n: nat)
    requires Aside(s, t, n)
    ensures n < |t.pairs|
  {
  }

  lemma {:induction false} AsideTurn<V>(s: State<V>, t: State<V>, n: nat)
    requires n < |s.pairs| && t.promises == s.promises && t.pairs == s.pairs && t.looking == s.looking
    ensures Aside(s, t, n)
  {
  }

  lemma {:induction false} AsideStart<V>(s: State<V>, n: nat)
    requires s.turn.Idle? && s.queue != [] && s.queue[0] < |s.promises| && n < |s.pairs|
    ensures Aside(s, StartTurn(s), n)
  {
  }

  /** The entry at hand belongs to a settled promise, so not to the one that waits for itself. */
  lemma {:induction false} EntryAside<V>(s: State<V>, i: nat, n: nat)
    requires Inv(s) && WaitsForItself(s, i, n) && s.turn.Going? && s.turn.rest != []
    ensures !Mentions(s.turn.rest[0], n)
  {
    hide QueueExact, Sane;
    NextEntry(s);
    var p := s.promises[s.turn.promise];
    assert s.promises[i].status == LOCKED;
    assert s.turn.rest[0] == p.registered[|p.calls|];
  }

  lemma {:induction false} StepAside<V>(s: State<V>, a: Action<V>, i: nat, n: nat)
    requires Inv(s) && WaitsForItself(s, i, n) && !(a.UsePair? && a.k == n)
    ensures Aside(s, Step(s, a), n)
  {
    hide Almost, Inv, WaitsForItself, Aside, Resolve, Reject, CallPair, Then, Handle, StartTurn, TakeEntry, Decide, Done, Held;
    InvSane(s);
    WaitingPair(s, i, n);
    AsideSelf(s, n);
    match a
    case New => AsideNew(s, n);
    case CallThen(j, onOk, onErr, progress) =>
      if j < |s.promises| && UserCallback(onOk) && UserCallback(onErr) { AsideThen(s, j, onOk, onErr, progress, n); }
    case CallResolve(j, v) => if j < |s.promises| { AsideResolve(s, j, v, n); }
    case CallReject(j, v) => if j < |s.promises| { AsideResolve(s, j, v, n); }
    case UsePair(k, ok, v) =>
      if k < |s.pairs| && !Held(s, k) {
        UsedSane(s, k);
        AsideCallPair(s, k, ok, v, Script, n);
      }
    case Looked(o) =>
      if s.looking != [] && !Top(s).Handing? {
        PopSane(s);
        AsidePop(s, n);
        TopOther(s, n);
        AsideDecide(Pop(s), Top(s), o, n);
        AsideOn(s, Pop(s), Step(s, a), n);
      }
    case Handed =>
      if s.looking != [] && Top(s).Handing? {
        AsidePop(s, n);
        AsideDone(s, Pop(s), Top(s).caller, n);
      }
    case Start =>
      if s.looking == [] && s.turn.Idle? && s.queue != [] {
        StartSane(s);
        AsideStart(s, n);
      }
    case Take =>
      if s.looking == [] && s.turn.Going? && s.turn.rest != [] {
        TakeSane(s);
        var e, t, p := s.turn.rest[0], TakeEntry(s), s.promises[s.turn.promise];
        EntryAside(s, i, n);
        AsideTake(s, n);
        TakenGoing(s);
        AsideSizes(s, t, n);
        AsideHandle(t, e, p.status, p.value, n);
        AsideOn(s, t, Step(s, a), n);
      }
    case Return(v) => if s.looking == [] && s.turn.Calling? { AsideBack(s, v, n); }
    case Throw(v) => if s.looking == [] && s.turn.Calling? { AsideBack(s, v, n); }
    case Finish => AsideTurn(s, Step(s, a), n);
  }

  lemma {:induction false} TopOther<V>(s: State<V>, n: nat)
    requires s.looking != [] && !Held(s, n)
    ensures !(Top(s).OfPair? && Top(s).pair == n)
  {
    assert s.looking[|s.looking| - 1] == Top(s);
  }

  lemma {:induction false} AsideNew<V>(s: State<V>, n: nat)
    requires n < |s.pairs|
    ensures Aside(s, NewPromise(s), n)
  {
  }

  lemma {:induction false} AsideBack<V>(s: State<V>, v: Value<V>, n: nat)
    requires Sane(s) && s.turn.Calling? && n < |s.pairs| && s.looking == []
    ensures Aside(s, Step(s, Return(v)), n) && Aside(s, Step(s, Throw(v)), n)
  {
    hide Sane, Aside, Resolve, Reject;
    BackSane(s);
    AsideTurn(s, Back(s), n);
    AsideResolve(Back(s), s.turn.child, v, n);
    AsideOn(s, Back(s), Step(s, Return(v)), n);
    AsideOn(s, Back(s), Step(s, Throw(v)), n);
  }

  lemma {:induction false} WaitingPair<V>(s: State<V>, i: nat, n: nat)
    requires WaitsForItself(s, i, n)
    ensures n < |s.pairs| && !Held(s, n)
  {
  }

  lemma {:induction false} StillWaits<V>(s: State<V>, t: State<V>, i: nat, n: nat)
    requires WaitsForItself(s, i, n) && Aside(s, t, n)
    ensures WaitsForItself(t, i, n)
  {
    forall j, k | 0 <= j < |t.promises| && j != i && 0 <= k < |t.promises[j].registered|
      ensures !Mentions(t.promises[j].registered[k], n)
    {
      if j < |s.promises| && k < |s.promises[j].registered| {
        assert t.promises[j].registered[k] == s.promises[j].registered[k];
      }
    }
  }

  /** Whatever happens in an undisturbed run, short of the pair being used by hand, the promise stays
    * locked. */
  lemma {:induction false} WaitsForEver<V>(s: State<V>, acts: seq<Action<V>>, i: nat, n: nat)
    requires Inv(s) && WaitsForItself(s, i, n) && Undisturbed(s, acts)
    requires forall k :: 0 <= k < |acts| ==> !(acts[k].UsePair? && acts[k].k == n)
    ensures var t := Run(s, acts);
            i < |t.promises| && t.promises[i].status == LOCKED && t.promises[i].calls == []
    decreases |acts|
  {
    hide Step, WaitsForItself, Aside, Clash, Almost, Inv;
    InvSane(s);
    if acts == [] {
      WaitingIsLocked(s, i, n);
    } else {
      StepKeeps(s, acts[0]);
      StepAside(s, acts[0], i, n);
      StillWaits(s, Step(s, acts[0]), i, n);
      WaitsForEver(Step(s, acts[0]), acts[1..], i, n);
    }
  }

  lemma {:induction false} WaitingIsLocked<V>(s: State<V>, i: nat, n: nat)
    requires Inv(s) && WaitsForItself(s, i, n)
    ensures i < |s.promises| && s.promises[i].status == LOCKED && s.promises[i].calls == []
  {
    OneOrderly(s, -1, -1, i);
  }

  /** `resolve` rejects a promise given to itself; the function a thenable was given makes it wait
    * for itself, and then no run without a by-hand call of the new pair ever settles it. */
  lemma {:induction false} OnlyResolveNotices<V>(s: State<V>, i: nat, k: nat, acts: seq<Action<V>>)
    requires Inv(s) && i < |s.promises| && !Settled(s.promises[i])
    requires s.promises[i].status == LOCKED ==> Live(s, k, i) && !Held(s, k) && Undisturbed(s, [UsePair(k, true, Ref(i))] + acts)
    requires forall j :: 0 <= j < |acts| ==> !(acts[j].UsePair? && acts[j].k == |s.pairs|)
    ensures s.promises[i].status == PENDING ==>
              var t := Step(s, CallResolve(i, Ref(i)));
              t.promises[i].status == REJECTED && t.promises[i].value == CycleError
    ensures s.promises[i].status == LOCKED ==>
              var t := Run(s, [UsePair(k, true, Ref(i))] + acts);
              i < |t.promises| && t.promises[i].status == LOCKED && t.promises[i].calls == []
  {
    hide Inv;
    InvSane(s);
    if s.promises[i].status == LOCKED {
      var a := UsePair(k, true, Ref(i));
      StepKeeps(s, a);
      SelfRegistered(s, i, k);
      assert ([a] + acts)[1..] == acts;
      WaitsForEver(Step(s, a), acts, i, |s.pairs|);
    }
  }

  lemma {:induction false} SelfRegistered<V>(s: State<V>, i: nat, k: nat)
    requires Inv(s) && Live(s, k, i) && !Held(s, k)
    ensures i < |s.promises| && WaitsForItself(Step(s, UsePair(k, true, Ref(i))), i, |s.pairs|)
  {
    hide QueueExact, AllOrderly, InLine;
    var t := Step(s, UsePair(k, true, Ref(i)));
    assert t == CallPair(s, k, true, Ref(i), Script);
    assert s.promises[i].status == LOCKED;
    forall j, l | 0 <= j < |t.promises| && j != i && 0 <= l < |t.promises[j].registered|
      ensures !Mentions(t.promises[j].registered[l], |s.pairs|)
    {
      if j < |s.promises| { assert InTable(s, s.promises[j].registered[l]); }
    }
    forall f | 0 <= f < |s.looking| && s.looking[f].OfPair? ensures s.looking[f].pair < |s.pairs| {
      assert FrameInTable(s, s.looking[f]);
    }
  }
}
