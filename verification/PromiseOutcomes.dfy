/** Outcomes of promises: a settled promise stays as it is exactly as long as nobody decides about a
  * promise while `then` is looked up for it. */
module PromiseOutcomes {
  import opened Sequences
  import opened Promises

  /** Entries are dealt with with the final outcome, and not before there is one. */
  ghost predicate Orderly<V>(p: Promise<V>, rest: seq<Entry>) {
    && LOCKED <= p.status <= REJECTED
    && (forall k :: 0 <= k < |p.calls| ==> p.calls[k].ok == (p.status == FULFILLED) && p.calls[k].value == p.value)
    && (!Settled(p) ==> !p.scheduled && rest == [] && p.calls == [])
  }

  /** Nobody waits for a settled promise without a turn coming. */
  predicate Due<V>(p: Promise<V>) {
    Settled(p) ==> (p.scheduled <==> p.pending != [])
  }

  ghost predicate AllOrderly<V>(s: State<V>) {
    forall i {:trigger s.promises[i]} :: 0 <= i < |s.promises| ==> Orderly(s.promises[i], Rest(s, i))
  }

  ghost predicate AllDue<V>(s: State<V>, but: int) {
    forall i {:trigger s.promises[i]} :: 0 <= i < |s.promises| && i != but ==> Due(s.promises[i])
  }

  ghost predicate QueueExact<V>(s: State<V>) {
    Distinct(s.queue) && forall i :: i in s.queue <==> 0 <= i < |s.promises| && s.promises[i].scheduled
  }

  predicate Live<V>(s: State<V>, k: int, i: int) {
    0 <= k < |s.pairs| && !s.pairs[k].used && s.pairs[k].promise == i
  }

  /** A promise is locked exactly while there is an unused pair for it, and then there is one.  The
    * promise `open` has no unused pair, locked or not: somebody is deciding about it. */
  ghost predicate Locks<V>(s: State<V>, open: int) {
    && (forall k, i :: Live(s, k, i) ==> 0 <= i < |s.promises| && s.promises[i].status == LOCKED && i != open)
    && (forall k, l, i :: Live(s, k, i) && Live(s, l, i) ==> k == l)
    && (forall i {:trigger s.promises[i]} ::
          0 <= i < |s.promises| && s.promises[i].status == LOCKED && i != open ==> exists k :: Live(s, k, i))
  }

  /** The pairs that belong to lookups are unused and different, and no lookup begun by `resolve` is
    * above one that a pair began for the same promise. */
  ghost predicate FramesLive<V>(s: State<V>) {
    && (forall f :: 0 <= f < |s.looking| && s.looking[f].OfPair? ==> Live(s, s.looking[f].pair, s.looking[f].promise))
    && (forall f, g :: 0 <= f < g < |s.looking| && s.looking[f].OfPair? && s.looking[g].OfPair? ==>
          s.looking[f].pair != s.looking[g].pair)
    && (forall f, g :: 0 <= f < g < |s.looking| && s.looking[f].OfPair? && s.looking[g].Fresh? ==>
          s.looking[f].promise != s.looking[g].promise)
  }

  ghost predicate TurnSettled<V>(s: State<V>) {
    !s.turn.Idle? ==> s.turn.promise < |s.promises| && Settled(s.promises[s.turn.promise])
  }

  /** The invariant, up to the promise that may need a turn and the one that is being decided. */
  ghost predicate Almost<V>(s: State<V>, due: int, open: int) {
    Sane(s) && AllOrderly(s) && AllDue(s, due) && QueueExact(s) && Locks(s, open) && FramesLive(s) && TurnSettled(s)
  }

  ghost predicate Inv<V>(s: State<V>) {
    Almost(s, -1, -1)
  }

  ghost predicate Undecided<V>(s: State<V>, i: int) {
    0 <= i < |s.promises| && Almost(s, -1, i) && !Settled(s.promises[i])
  }

  /** A settled promise keeps its outcome. */
  ghost predicate OutcomesKept<V>(s: State<V>, t: State<V>) {
    && |s.promises| <= |t.promises|
    && forall i {:trigger t.promises[i]} :: 0 <= i < |s.promises| && Settled(s.promises[i]) ==>
         t.promises[i].status == s.promises[i].status && t.promises[i].value == s.promises[i].value
  }

  lemma {:induction false} KeptSelf<V>(s: State<V>)
    ensures OutcomesKept(s, s)
  {
  }

  lemma {:induction false} KeptOn<V>(s: State<V>, t: State<V>, u: State<V>)
    requires OutcomesKept(s, t) && OutcomesKept(t, u)
    ensures OutcomesKept(s, u)
  {
    forall i | 0 <= i < |s.promises| && Settled(s.promises[i])
      ensures u.promises[i].status == s.promises[i].status && u.promises[i].value == s.promises[i].value
    {
      assert t.promises[i].status == s.promises[i].status;
    }
  }

  lemma {:induction false} OneOrderly<V>(s: State<V>, due: int, open: int, i: nat)
    requires Almost(s, due, open) && i < |s.promises|
    ensures Orderly(s.promises[i], Rest(s, i))
  {
  }

  // ------------------------------------------------------------------- changing one promise

  lemma {:induction false} UpdateOrderly<V>(s: State<V>, t: State<V>, i: nat)
    requires OnlyAt(s, t, i) && i < |s.promises| && AllOrderly(s) && Orderly(t.promises[i], Rest(t, i))
    ensures AllOrderly(t)
  {
    hide Orderly;
  }

  lemma {:induction false} UpdateQueue<V>(s: State<V>, t: State<V>, i: nat)
    requires OnlyAt(s, t, i) && i < |s.promises| && QueueExact(s) && t.queue == s.queue
    requires t.promises[i].scheduled == s.promises[i].scheduled
    ensures QueueExact(t)
  {
  }

  lemma {:induction false} UpdateDue<V>(s: State<V>, t: State<V>, i: nat)
    requires OnlyAt(s, t, i) && i < |s.promises| && (AllDue(s, -1) || AllDue(s, i))
    ensures AllDue(t, i) && (Due(t.promises[i]) ==> AllDue(t, -1))
  {
  }

  /** The locks hang on the statuses and the pairs, and so do the frames. */
  lemma {:induction false} SamePairs<V>(s: State<V>, t: State<V>, open: int)
    requires Locks(s, open) && t.pairs == s.pairs && |t.promises| == |s.promises|
    requires forall i :: 0 <= i < |s.promises| ==> t.promises[i].status == s.promises[i].status
    ensures Locks(t, open)
  {
    forall k, i | Live(t, k, i) ensures 0 <= i < |t.promises| && t.promises[i].status == LOCKED && i != open { assert Live(s, k, i); }
    forall k, l, i | Live(t, k, i) && Live(t, l, i) ensures k == l { assert Live(s, k, i) && Live(s, l, i); }
    forall i | 0 <= i < |t.promises| && t.promises[i].status == LOCKED && i != open ensures exists k :: Live(t, k, i) {
      var k :| Live(s, k, i);
      assert Live(t, k, i);
    }
  }

  lemma {:induction false} SameFrames<V>(s: State<V>, t: State<V>)
    requires FramesLive(s) && t.looking == s.looking && |s.pairs| <= |t.pairs|
    requires forall k :: 0 <= k < |s.pairs| && !s.pairs[k].used ==> t.pairs[k] == s.pairs[k]
    ensures FramesLive(t)
  {
    forall f | 0 <= f < |t.looking| && t.looking[f].OfPair? ensures Live(t, t.looking[f].pair, t.looking[f].promise) {
      assert Live(s, s.looking[f].pair, s.looking[f].promise);
    }
  }

  lemma {:induction false} NewKeeps<V>(s: State<V>)
    requires Inv(s)
    ensures Inv(NewPromise(s)) && OutcomesKept(s, NewPromise(s))
  {
    hide Sane, AllOrderly, QueueExact, Locks, FramesLive, Orderly;
    NewSane(s);
    NewOrderly(s);
    NewLocks(s);
    NewQueue(s);
    SameFrames(s, NewPromise(s));
  }

  lemma {:induction false} NewOrderly<V>(s: State<V>)
    requires AllOrderly(s) && TurnSettled(s)
    ensures AllOrderly(NewPromise(s))
  {
    hide Orderly;
    FreshOrderly<V>();
  }

  lemma {:induction false} FreshOrderly<V>()
    ensures Orderly(Promise<V>.Promise(PENDING, Undefined, [], false, [], []), [])
  {
  }

  lemma {:induction false} NewQueue<V>(s: State<V>)
    requires QueueExact(s)
    ensures QueueExact(NewPromise(s))
  {
  }

  lemma {:induction false} NewLocks<V>(s: State<V>)
    requires Locks(s, -1)
    ensures Locks(NewPromise(s), -1)
  {
    var t := NewPromise(s);
    forall k, i | Live(t, k, i) ensures 0 <= i < |t.promises| && t.promises[i].status == LOCKED { assert Live(s, k, i); }
    forall k, l, i | Live(t, k, i) && Live(t, l, i) ensures k == l { assert Live(s, k, i) && Live(s, l, i); }
    forall i | 0 <= i < |t.promises| && t.promises[i].status == LOCKED ensures exists k :: Live(t, k, i) {
      var k :| Live(s, k, i);
      assert Live(t, k, i);
    }
  }

  lemma {:induction false} ScheduleKeeps<V>(s: State<V>, i: nat)
    requires i < |s.promises| && Almost(s, i, -1) && Settled(s.promises[i])
    requires s.promises[i].scheduled ==> s.promises[i].pending != []
    ensures Inv(Schedule(s, i)) && OutcomesKept(s, Schedule(s, i))
  {
    hide Sane, Locks, QueueExact, AllOrderly, Orderly, FramesLive, AllDue;
    var p, t := s.promises[i], Schedule(s, i);
    ScheduleSane(s, i);
    UpdateDue(s, t, i);
    if !p.scheduled && p.pending != [] {
      OneOrderly(s, i, -1, i);
      ScheduledOrderly(p, Rest(s, i));
      UpdateOrderly(s, t, i);
      ScheduledQueue(s, t, i);
      SamePairs(s, t, -1);
      SameFrames(s, t);
    }
  }

  lemma {:induction false} ScheduledOrderly<V>(p: Promise<V>, rest: seq<Entry>)
    requires Orderly(p, rest) && Settled(p)
    ensures Orderly(p.(scheduled := true), rest)
  {
  }

  lemma {:induction false} ScheduledQueue<V>(s: State<V>, t: State<V>, i: nat)
    requires QueueExact(s) && OnlyAt(s, t, i) && i < |s.promises| && t.queue == s.queue + [i]
    requires !s.promises[i].scheduled && t.promises[i].scheduled
    ensures QueueExact(t)
  {
    DistinctSnoc(s.queue, i);
    forall j ensures j in t.queue <==> 0 <= j < |t.promises| && t.promises[j].scheduled {
      assert j in t.queue <==> j in s.queue || j == i;
    }
  }

  lemma {:induction false} RegisterKeeps<V>(s: State<V>, i: nat, e: Entry)
    requires Inv(s) && i < |s.promises| && InTable(s, e)
    ensures Almost(Register(s, i, e), i, -1) && OutcomesKept(s, Register(s, i, e))
  {
    hide Sane, Locks, QueueExact, AllOrderly, Orderly, InTable, FramesLive, AllDue;
    var t := Register(s, i, e);
    RegisterSane(s, i, e);
    OneOrderly(s, -1, -1, i);
    RegisteredOrderly(s.promises[i], e, Rest(s, i));
    UpdateOrderly(s, t, i);
    UpdateDue(s, t, i);
    SamePairs(s, t, -1);
    SameFrames(s, t);
    UpdateQueue(s, t, i);
  }

  lemma {:induction false} RegisteredOrderly<V>(p: Promise<V>, e: Entry, rest: seq<Entry>)
    requires Orderly(p, rest)
    ensures Orderly(p.(pending := p.pending + [e], registered := p.registered + [e]), rest)
  {
  }

  lemma {:induction false} ThenKeeps<V>(s: State<V>, i: nat, onOk: Callback, onErr: Callback, progress: bool)
    requires Inv(s) && i < |s.promises|
    requires onOk.Settler? ==> onOk.pair < |s.pairs|
    requires onErr.Settler? ==> onErr.pair < |s.pairs|
    ensures Inv(Then(s, i, onOk, onErr, progress)) && OutcomesKept(s, Then(s, i, onOk, onErr, progress))
  {
    hide Inv, Almost, OutcomesKept;
    KeptSelf(s);
    if !(onOk.Missing? && onErr.Missing? && !progress) {
      var t := NewPromise(s);
      NewKeeps(s);
      var e := Entry(|s.promises|, onOk, onErr);
      RegisterKeeps(t, i, e);
      var u := Register(t, i, e);
      KeptOn(s, t, u);
      OneOrderly(u, i, -1, i);
      if u.promises[i].status > 0 {
        ScheduleKeeps(u, i);
        KeptOn(s, u, Schedule(u, i));
      } else {
        NotDue(u, i);
      }
    }
  }

  lemma {:induction false} NotDue<V>(s: State<V>, i: nat)
    requires i < |s.promises| && Almost(s, i, -1) && !Settled(s.promises[i])
    ensures Inv(s)
  {
  }

  // ------------------------------------------------------------------ deciding about a promise

  lemma {:induction false} SettleKeeps<V>(s: State<V>, i: nat, status: int, v: Value<V>)
    requires Undecided(s, i) && (status == FULFILLED || status == REJECTED)
    ensures Inv(Settle(s, i, status, v)) && OutcomesKept(s, Settle(s, i, status, v))
  {
    hide Sane, Locks, QueueExact, AllOrderly, FramesLive, AllDue, TurnSettled;
    var p := s.promises[i];
    var t := s.(promises := s.promises[i := p.(value := v, status := status)]);
    UpdateSane(s, t, i) by { SaneParts(s); }
    OneOrderly(s, -1, i, i);
    UpdateOrderly(s, t, i);
    UpdateDue(s, t, i);
    UpdateQueue(s, t, i);
    SettledLocks(s, t, i);
    SameFrames(s, t);
    SettledTurn(s, t, i);
    ScheduleKeeps(t, i);
    KeptOn(s, t, Schedule(t, i));
  }

  lemma {:induction false} SaneParts<V>(s: State<V>)
    requires Sane(s)
    ensures PairsInTable(s) && TurnInTable(s)
  {
  }

  lemma {:induction false} SettledTurn<V>(s: State<V>, t: State<V>, i: nat)
    requires TurnSettled(s) && OnlyAt(s, t, i) && i < |s.promises| && (Settled(s.promises[i]) ==> Settled(t.promises[i]))
    ensures TurnSettled(t)
  {
  }

  lemma {:induction false} SettledLocks<V>(s: State<V>, t: State<V>, i: nat)
    requires Locks(s, i) && OnlyAt(s, t, i) && i < |s.promises| && Settled(t.promises[i]) && t.pairs == s.pairs
    ensures Locks(t, -1)
  {
    forall k, j | Live(t, k, j) ensures 0 <= j < |t.promises| && t.promises[j].status == LOCKED { assert Live(s, k, j); }
    forall k, l, j | Live(t, k, j) && Live(t, l, j) ensures k == l { assert Live(s, k, j) && Live(s, l, j); }
    forall j | 0 <= j < |t.promises| && t.promises[j].status == LOCKED ensures exists k :: Live(t, k, j) {
      var k :| Live(s, k, j);
      assert Live(t, k, j);
    }
  }

  lemma {:induction false} LockKeeps<V>(s: State<V>, i: nat)
    requires Undecided(s, i)
    ensures Inv(Lock(s, i)) && OutcomesKept(s, Lock(s, i))
  {
    hide Sane, Locks, QueueExact, AllOrderly, FramesLive, AllDue, TurnSettled;
    var t := Lock(s, i);
    LockSane(s, i);
    OneOrderly(s, -1, i, i);
    UpdateOrderly(s, t, i);
    UpdateDue(s, t, i);
    UpdateQueue(s, t, i);
    SameFrames(s, t);
    SettledTurn(s, t, i);
    LockedLocks(s, i);
  }

  lemma {:induction false} LockedLocks<V>(s: State<V>, i: nat)
    requires Locks(s, i) && i < |s.promises|
    ensures Locks(Lock(s, i), -1)
  {
    var t, n := Lock(s, i), |s.pairs|;
    forall k, j | Live(t, k, j) ensures 0 <= j < |t.promises| && t.promises[j].status == LOCKED { assert k == n || Live(s, k, j); }
    forall k, l, j | Live(t, k, j) && Live(t, l, j) ensures k == l {
      assert k == n || Live(s, k, j);
      assert l == n || Live(s, l, j);
    }
    forall j | 0 <= j < |t.promises| && t.promises[j].status == LOCKED ensures exists k :: Live(t, k, j) {
      if j == i { assert Live(t, n, i); } else {
        var k :| Live(s, k, j);
        assert Live(t, k, j);
      }
    }
  }

  lemma {:induction false} ResolveInnerKeeps<V>(s: State<V>, i: nat, v: Value<V>)
    requires Undecided(s, i) && !v.Object?
    ensures Inv(ResolveInner(s, i, v)) && OutcomesKept(s, ResolveInner(s, i, v))
  {
    hide Inv, Almost, OutcomesKept, Settle, Lock;
    if v.Ref? && v.p < |s.promises| {
      LockKeeps(s, i);
      LockedSizes(s, i);
      var t, n := Lock(s, i), |s.pairs|;
      ThenKeeps(t, v.p, Settler(n, true), Settler(n, false), true);
      KeptOn(s, t, Then(t, v.p, Settler(n, true), Settler(n, false), true));
    } else {
      SettleKeeps(s, i, FULFILLED, v);
    }
  }

  /** A promise nobody has decided about yet has no pair. */
  lemma {:induction false} PendingUndecided<V>(s: State<V>, i: nat)
    requires Inv(s) && i < |s.promises| && s.promises[i].status == PENDING
    ensures Undecided(s, i)
  {
    hide Sane, QueueExact, AllOrderly, FramesLive, AllDue, TurnSettled;
    assert Locks(s, i) by {
      forall k, j | Live(s, k, j) ensures j != i { assert s.promises[j].status == LOCKED; }
    }
  }

  lemma {:induction false} PushFreshKeeps<V>(s: State<V>, i: nat, v: Value<V>)
    requires Inv(s) && i < |s.promises| && s.promises[i].status == PENDING
    ensures Inv(Push(s, Fresh(i, v))) && OutcomesKept(s, Push(s, Fresh(i, v)))
  {
    hide Sane, QueueExact, FramesLive, Orderly;
    var t := Push(s, Fresh(i, v));
    PushSane(s, Fresh(i, v));
    SamePairs(s, t, -1);
    SameRest(s, t);
    FreshLive(s, i, v);
    SameQueue(s, t);
  }

  lemma {:induction false} FreshLive<V>(s: State<V>, i: nat, v: Value<V>)
    requires FramesLive(s) && Locks(s, -1) && i < |s.promises| && s.promises[i].status == PENDING
    ensures FramesLive(Push(s, Fresh(i, v)))
  {
    var t := Push(s, Fresh(i, v));
    forall f | 0 <= f < |s.looking| && s.looking[f].OfPair?
      ensures Live(t, t.looking[f].pair, t.looking[f].promise) && t.looking[f].promise != i
    {
      assert t.looking[f] == s.looking[f];
      assert Live(s, s.looking[f].pair, s.looking[f].promise);
    }
  }

  lemma {:induction false} SameQueue<V>(s: State<V>, t: State<V>)
    requires QueueExact(s) && t.queue == s.queue && |t.promises| == |s.promises|
    requires forall j :: 0 <= j < |s.promises| ==> t.promises[j].scheduled == s.promises[j].scheduled
    ensures QueueExact(t)
  {
  }

  lemma {:induction false} SameRest<V>(s: State<V>, t: State<V>)
    requires AllOrderly(s) && t.promises == s.promises && t.turn == s.turn
    ensures AllOrderly(t)
  {
    hide Orderly;
    forall i | 0 <= i < |t.promises| ensures Rest(t, i) == Rest(s, i) { }
  }

  lemma {:induction false} ResolveKeeps<V>(s: State<V>, i: nat, v: Value<V>)
    requires Inv(s) && i < |s.promises|
    ensures Inv(Resolve(s, i, v)) && OutcomesKept(s, Resolve(s, i, v))
  {
    hide Inv, Almost, OutcomesKept, Settle, ResolveInner;
    KeptSelf(s);
    if s.promises[i].status == 0 {
      PendingUndecided(s, i);
      if v == Ref(i) { SettleKeeps(s, i, REJECTED, CycleError); }
      else if v.Object? { PushFreshKeeps(s, i, v); }
      else { ResolveInnerKeeps(s, i, v); }
    }
  }

  lemma {:induction false} RejectKeeps<V>(s: State<V>, i: nat, v: Value<V>)
    requires Inv(s) && i < |s.promises|
    ensures Inv(Reject(s, i, v)) && OutcomesKept(s, Reject(s, i, v))
  {
    hide Inv, Almost, OutcomesKept, Settle;
    KeptSelf(s);
    if s.promises[i].status == 0 {
      PendingUndecided(s, i);
      SettleKeeps(s, i, REJECTED, v);
    }
  }

  lemma {:induction false} DoneKeeps<V>(s: State<V>, t: State<V>, c: Caller)
    requires Inv(t) && OutcomesKept(s, t)
    ensures Inv(Done(t, c)) && OutcomesKept(s, Done(t, c))
  {
    hide Inv, OutcomesKept, Resolve;
    if c.Reaction? && c.child < |t.promises| {
      ResolveKeeps(t, c.child, Undefined);
      KeptOn(s, t, Done(t, c));
    }
  }

  /** The pair is the only one for its promise, and the promise is locked: using it leaves the
    * promise undecided. */
  lemma {:induction false} UsedUndecided<V>(s: State<V>, k: nat)
    requires Inv(s) && k < |s.pairs| && !s.pairs[k].used && !Held(s, k)
    ensures s.pairs[k].promise < |s.promises| && s.promises[s.pairs[k].promise].status == LOCKED
    ensures Undecided(Used(s, k), s.pairs[k].promise) && OutcomesKept(s, Used(s, k))
  {
    hide Sane, AllOrderly, QueueExact, FramesLive;
    var t, i := Used(s, k), s.pairs[k].promise;
    assert Live(s, k, i);
    assert Locks(t, i) by {
      forall l, j | Live(t, l, j) ensures 0 <= j < |t.promises| && t.promises[j].status == LOCKED && j != i { assert Live(s, l, j); }
      forall l, m, j | Live(t, l, j) && Live(t, m, j) ensures l == m { assert Live(s, l, j) && Live(s, m, j); }
      forall j | 0 <= j < |t.promises| && t.promises[j].status == LOCKED && j != i ensures exists l :: Live(t, l, j) {
        var l :| Live(s, l, j);
        assert Live(t, l, j);
      }
    }
    UsedSane(s, k);
    SameRest(s, t);
    SameQueue(s, t);
    UsedFrames(s, k);
  }

  lemma {:induction false} UsedFrames<V>(s: State<V>, k: nat)
    requires FramesLive(s) && k < |s.pairs| && !Held(s, k)
    ensures FramesLive(Used(s, k))
  {
    var t := Used(s, k);
    forall f | 0 <= f < |t.looking| && t.looking[f].OfPair? ensures Live(t, t.looking[f].pair, t.looking[f].promise) {
      assert Live(s, s.looking[f].pair, s.looking[f].promise);
    }
  }

  lemma {:induction false} CallPairKeeps<V>(s: State<V>, k: nat, ok: bool, v: Value<V>, c: Caller)
    requires Inv(s) && k < |s.pairs| && !Held(s, k) && CallerInTable(s, c)
    ensures s.pairs[k].promise < |s.promises|
    ensures Inv(CallPair(s, k, ok, v, c)) && OutcomesKept(s, CallPair(s, k, ok, v, c))
  {
    hide Almost, OutcomesKept, Settle, ResolveInner, Undecided, Inv, Done, Held;
    KeptSelf(s);
    InvSane(s);
    UsedSane(s, k);
    if s.pairs[k].used {
      DoneKeeps(s, s, c);
    } else {
      var t, i := Used(s, k), s.pairs[k].promise;
      UsedUndecided(s, k);
      if !ok {
        SettleKeeps(t, i, REJECTED, v);
        KeptOn(s, t, Settle(t, i, REJECTED, v));
        DoneKeeps(s, Settle(t, i, REJECTED, v), c);
      } else if v.Object? {
        assert SetLocked(t, i) == t;
        LockKeeps(t, i);
        UndecidedFrames(t, i);
        KeptOn(s, t, AddPair(t, i));
        PushPairKeeps(t, i, v, c);
        KeptOn(s, AddPair(t, i), CallPair(s, k, ok, v, c));
      } else {
        ResolveInnerKeeps(t, i, v);
        KeptOn(s, t, ResolveInner(t, i, v));
        DoneKeeps(s, ResolveInner(t, i, v), c);
      }
    }
  }

  lemma {:induction false} UndecidedFrames<V>(s: State<V>, i: int)
    requires Undecided(s, i)
    ensures FramesLive(s)
  {
  }

  lemma {:induction false} InvSane<V>(s: State<V>)
    requires Inv(s)
    ensures Sane(s)
  {
  }

  /** A lookup begun by a pair takes the next pair with it. */
  lemma {:induction false} PushPairKeeps<V>(s: State<V>, i: nat, v: Value<V>, c: Caller)
    requires Inv(AddPair(s, i)) && i < |s.promises| && CallerInTable(s, c) && FramesLive(s)
    ensures var t := AddPair(s, i);
            Inv(Push(t, OfPair(i, v, |s.pairs|, c))) && OutcomesKept(t, Push(t, OfPair(i, v, |s.pairs|, c)))
  {
    hide Sane, QueueExact, FramesLive, Orderly;
    var t := AddPair(s, i);
    var u := Push(t, OfPair(i, v, |s.pairs|, c));
    PushSane(t, OfPair(i, v, |s.pairs|, c));
    SamePairs(t, u, -1);
    SameRest(t, u);
    SameQueue(t, u);
    PairLive(s, i, v, c);
  }

  lemma {:induction false} PairLive<V>(s: State<V>, i: nat, v: Value<V>, c: Caller)
    requires FramesLive(s)
    ensures FramesLive(Push(AddPair(s, i), OfPair(i, v, |s.pairs|, c)))
  {
    var t := Push(AddPair(s, i), OfPair(i, v, |s.pairs|, c));
    forall f | 0 <= f < |s.looking| && s.looking[f].OfPair?
      ensures Live(t, t.looking[f].pair, t.looking[f].promise) && t.looking[f].pair < |s.pairs|
    {
      assert t.looking[f] == s.looking[f];
      assert Live(s, s.looking[f].pair, s.looking[f].promise);
    }
    assert Live(t, |s.pairs|, i);
  }

  lemma {:induction false} PushHandingKeeps<V>(s: State<V>, c: Caller)
    requires Inv(s) && CallerInTable(s, c)
    ensures Inv(Push(s, Handing(c))) && OutcomesKept(s, Push(s, Handing(c)))
  {
    hide Sane, QueueExact, FramesLive, Orderly;
    var t := Push(s, Handing(c));
    PushSane(s, Handing(c));
    SamePairs(s, t, -1);
    SameRest(s, t);
    SameQueue(s, t);
    HandingLive(s, c);
  }

  lemma {:induction false} HandingLive<V>(s: State<V>, c: Caller)
    requires FramesLive(s)
    ensures FramesLive(Push(s, Handing(c)))
  {
    var t := Push(s, Handing(c));
    forall f | 0 <= f < |t.looking| && t.looking[f].OfPair? ensures Live(t, t.looking[f].pair, t.looking[f].promise) {
      assert t.looking[f] == s.looking[f];
      assert Live(s, s.looking[f].pair, s.looking[f].promise);
    }
  }

  lemma {:induction false} PopKeeps<V>(s: State<V>)
    requires Inv(s) && s.looking != []
    ensures Inv(Pop(s)) && OutcomesKept(s, Pop(s))
    ensures Top(s).OfPair? ==> Live(Pop(s), Top(s).pair, Top(s).promise) && !Held(Pop(s), Top(s).pair)
  {
    hide Sane, QueueExact, FramesLive, Orderly;
    PopSane(s);
    SamePairs(s, Pop(s), -1);
    SameRest(s, Pop(s));
    SameQueue(s, Pop(s));
    PoppedLive(s);
  }

  lemma {:induction false} PoppedLive<V>(s: State<V>)
    requires FramesLive(s) && s.looking != []
    ensures FramesLive(Pop(s))
    ensures Top(s).OfPair? ==> Live(Pop(s), Top(s).pair, Top(s).promise) && !Held(Pop(s), Top(s).pair)
  {
    var t, n := Pop(s), |s.looking| - 1;
    forall f | 0 <= f < |t.looking| && t.looking[f].OfPair?
      ensures Live(t, t.looking[f].pair, t.looking[f].promise)
      ensures Top(s).OfPair? ==> t.looking[f].pair != Top(s).pair
    {
      assert t.looking[f] == s.looking[f];
      assert Live(s, s.looking[f].pair, s.looking[f].promise);
    }
    if Top(s).OfPair? { assert Live(s, s.looking[n].pair, s.looking[n].promise); }
  }

  // ------------------------------------------------------------------------- the end of a lookup

  /** What was decided meanwhile is what is decided now. */
  ghost predicate SameOutcome<V>(p: Promise<V>, v: Value<V>, o: Looking<V>) {
    match o
    case AFunction => false
    case Otherwise => p.status == FULFILLED && p.value == v
    case Throws(error) => p.status == REJECTED && p.value == error
  }

  /** The end of a lookup begun by `resolve` for a promise that was settled or locked after the check,
    * by the code that ran meanwhile, and not with the same outcome. */
  ghost predicate Clash<V>(s: State<V>, a: Action<V>)
    requires Sane(s)
  {
    a.Looked? && s.looking != [] && Top(s).Fresh? &&
    (assert FrameInTable(s, Top(s));
     var p := s.promises[Top(s).promise];
     p.status != PENDING && !SameOutcome(p, Top(s).value, a.o))
  }

  lemma {:induction false} FreshKeeps<V>(s: State<V>, i: nat, v: Value<V>, o: Looking<V>)
    requires Inv(s) && i < |s.promises| && (s.promises[i].status == PENDING || SameOutcome(s.promises[i], v, o))
    ensures Inv(Decide(s, Fresh(i, v), o)) && OutcomesKept(s, Decide(s, Fresh(i, v), o))
  {
    hide Inv, Almost, OutcomesKept, Settle, Lock;
    if s.promises[i].status == PENDING {
      PendingUndecided(s, i);
      match o
      case AFunction =>
        LockKeeps(s, i);
        PushHandingKeeps(Lock(s, i), Script);
        KeptOn(s, Lock(s, i), Decide(s, Fresh(i, v), o));
      case Otherwise => SettleKeeps(s, i, FULFILLED, v);
      case Throws(error) => SettleKeeps(s, i, REJECTED, error);
    } else {
      KeptSelf(s);
      SettledAgain(s, i);
    }
  }

  /** Settling with the same outcome asks for no further turn. */
  lemma {:induction false} SettledAgain<V>(s: State<V>, i: nat)
    requires Inv(s) && i < |s.promises| && Settled(s.promises[i])
    ensures Settle(s, i, s.promises[i].status, s.promises[i].value) == s
  {
    hide Sane, QueueExact, FramesLive, Orderly, Locks;
    var p := s.promises[i];
    assert Due(p);
    assert p.(value := p.value, status := p.status) == p;
    assert s.promises[i := p] == s.promises;
  }

  lemma {:induction false} OfPairKeeps<V>(s: State<V>, i: nat, v: Value<V>, n: nat, c: Caller, o: Looking<V>)
    requires Inv(s) && Live(s, n, i) && !Held(s, n) && CallerInTable(s, c)
    ensures i < |s.promises|
    ensures Inv(Decide(s, OfPair(i, v, n, c), o)) && OutcomesKept(s, Decide(s, OfPair(i, v, n, c), o))
  {
    hide Inv, Almost, OutcomesKept, Settle, Done, Held, Undecided;
    UsedUndecided(s, n);
    var t := Used(s, n);
    match o
    case AFunction =>
      assert SetLocked(s, i) == s;
      PushHandingKeeps(s, c);
    case Otherwise =>
      SettleKeeps(t, i, FULFILLED, v);
      KeptOn(s, t, Settle(t, i, FULFILLED, v));
      DoneKeeps(s, Settle(t, i, FULFILLED, v), c);
    case Throws(error) =>
      SettleKeeps(t, i, REJECTED, error);
      KeptOn(s, t, Settle(t, i, REJECTED, error));
      DoneKeeps(s, Settle(t, i, REJECTED, error), c);
  }

  lemma {:induction false} LookedKeeps<V>(s: State<V>, o: Looking<V>)
    requires Inv(s) && s.looking != [] && !Top(s).Handing? && !Clash(s, Looked(o))
    ensures FrameInTable(Pop(s), Top(s))
    ensures Inv(Decide(Pop(s), Top(s), o)) && OutcomesKept(s, Decide(Pop(s), Top(s), o))
  {
    hide Almost, Inv, OutcomesKept, Decide, Live, Held;
    InvSane(s);
    PopSane(s);
    PopKeeps(s);
    match Top(s)
    case Fresh(i, v) =>
      FreshKeeps(Pop(s), i, v, o);
      KeptOn(s, Pop(s), Decide(Pop(s), Top(s), o));
    case OfPair(i, v, n, c) =>
      OfPairKeeps(Pop(s), i, v, n, c, o);
      KeptOn(s, Pop(s), Decide(Pop(s), Top(s), o));
  }

  // ----------------------------------------------------------------------------------- turns

  lemma {:induction false} StartKeeps<V>(s: State<V>)
    requires Inv(s) && s.turn.Idle? && s.queue != []
    ensures s.queue[0] < |s.promises| && Inv(StartTurn(s)) && OutcomesKept(s, StartTurn(s))
  {
    hide Sane, Locks, QueueExact, FramesLive;
    StartSane(s);
    QueueFirst(s);
    var i, t := s.queue[0], StartTurn(s);
    OneOrderly(s, -1, -1, i);
    assert AllOrderly(t) by { StartOrderly(s, t, i); }
    SamePairs(s, t, -1);
    SameFrames(s, t);
    StartQueue(s, t, i);
  }

  lemma {:induction false} StartQueue<V>(s: State<V>, t: State<V>, i: nat)
    requires QueueExact(s) && s.queue == [i] + t.queue && |t.promises| == |s.promises| && i < |s.promises|
    requires forall j :: 0 <= j < |s.promises| && j != i ==> t.promises[j].scheduled == s.promises[j].scheduled
    requires !t.promises[i].scheduled
    ensures QueueExact(t)
  {
    assert t.queue == s.queue[1..];
    forall j ensures j in t.queue <==> 0 <= j < |t.promises| && t.promises[j].scheduled {
      assert j in s.queue <==> j == i || j in t.queue;
    }
  }

  lemma {:induction false} QueueFirst<V>(s: State<V>)
    requires QueueExact(s) && s.queue != []
    ensures s.queue[0] < |s.promises| && s.promises[s.queue[0]].scheduled
  {
    assert s.queue[0] in s.queue;
  }

  lemma {:induction false} StartOrderly<V>(s: State<V>, t: State<V>, i: nat)
    requires i < |s.promises| && AllOrderly(s) && s.turn.Idle? && t.turn.Going? && t.turn.promise == i
    requires |t.promises| == |s.promises| && Orderly(t.promises[i], Rest(t, i))
    requires forall j :: 0 <= j < |s.promises| && j != i ==> t.promises[j] == s.promises[j]
    ensures AllOrderly(t)
  {
    hide Orderly;
  }

  lemma {:induction false} TakeKeeps<V>(s: State<V>)
    requires Inv(s) && s.turn.Going? && s.turn.rest != []
    ensures s.turn.promise < |s.promises| && Inv(TakeEntry(s)) && OutcomesKept(s, TakeEntry(s))
  {
    hide Sane, Locks, QueueExact, FramesLive;
    TakeSane(s);
    var i, t := s.turn.promise, TakeEntry(s);
    OneOrderly(s, -1, -1, i);
    assert AllOrderly(t) by { TakeOrderly(s, t, i); }
    SamePairs(s, t, -1);
    SameFrames(s, t);
    SameQueue(s, t);
  }

  lemma {:induction false} TakeOrderly<V>(s: State<V>, t: State<V>, i: nat)
    requires i < |s.promises| && AllOrderly(s) && !s.turn.Idle? && !t.turn.Idle? && t.turn.promise == s.turn.promise == i
    requires |t.promises| == |s.promises| && Orderly(t.promises[i], Rest(t, i))
    requires forall j :: 0 <= j < |s.promises| && j != i ==> t.promises[j] == s.promises[j]
    ensures AllOrderly(t)
  {
    hide Orderly;
  }

  /** Changing where the turn stands, but not its list. */
  lemma {:induction false} TurnKeeps<V>(s: State<V>, turn: Turn)
    requires Inv(s) && (s.turn.Idle? ==> turn.Idle?) && (turn.Idle? && !s.turn.Idle? ==> s.turn.rest == [])
    requires !turn.Idle? ==> turn.promise == s.turn.promise && turn.rest == s.turn.rest
    requires turn.Calling? ==> turn.child < |s.promises|
    ensures Inv(s.(turn := turn)) && OutcomesKept(s, s.(turn := turn))
  {
    hide Sane, Orderly, QueueExact, Locks, FramesLive;
    var t := s.(turn := turn);
    TurnSane(s, turn);
    assert AllOrderly(t) by {
      forall i | 0 <= i < |t.promises| ensures Orderly(t.promises[i], Rest(t, i)) {
        assert Orderly(s.promises[i], Rest(s, i));
        assert Rest(t, i) == Rest(s, i);
      }
    }
    SamePairs(s, t, -1);
    SameFrames(s, t);
    SameQueue(s, t);
  }

  lemma {:induction false} HandleKeeps<V>(s: State<V>, e: Entry, status: int, v: Value<V>)
    requires Inv(s) && s.turn.Going? && InTable(s, e) && s.looking == []
    ensures forall k :: 0 <= k < |s.pairs| ==> s.pairs[k].promise < |s.promises|
    ensures Inv(Handle(s, e, status, v)) && OutcomesKept(s, Handle(s, e, status, v))
  {
    hide Almost, Inv, Resolve, Reject, CallPair, OutcomesKept;
    InvSane(s);
    match CallbackAt(e, status)
    case User(_) => TurnKeeps(s, Calling(s.turn.promise, s.turn.rest, e.child));
    case Settler(k, ok) => CallPairKeeps(s, k, ok, v, Reaction(e.child));
    case _ =>
      ResolveKeeps(s, e.child, v);
      RejectKeeps(s, e.child, v);
  }

  lemma {:induction false} BackKeeps<V>(s: State<V>)
    requires Inv(s) && s.turn.Calling?
    ensures Inv(Back(s)) && OutcomesKept(s, Back(s)) && s.turn.child < |s.promises|
  {
    hide Almost, OutcomesKept;
    InvSane(s);
    BackSane(s);
    TurnKeeps(s, Going(s.turn.promise, s.turn.rest));
  }

  /** Every step but the end of a clashing lookup keeps the invariant and every outcome. */
  lemma {:induction false} StepKeeps<V>(s: State<V>, a: Action<V>)
    requires Inv(s) && !Clash(s, a)
    ensures Inv(Step(s, a)) && OutcomesKept(s, Step(s, a))
  {
    hide Almost, Inv, Resolve, Reject, CallPair, Then, Handle, OutcomesKept, StartTurn, TakeEntry, Decide, Done, Held, Clash;
    InvSane(s);
    KeptSelf(s);
    match a
    case New => NewKeeps(s);
    case CallThen(i, onOk, onErr, progress) =>
      if i < |s.promises| && UserCallback(onOk) && UserCallback(onErr) { ThenKeeps(s, i, onOk, onErr, progress); }
    case CallResolve(i, v) => if i < |s.promises| { ResolveKeeps(s, i, v); }
    case CallReject(i, v) => if i < |s.promises| { RejectKeeps(s, i, v); }
    case UsePair(k, ok, v) => if k < |s.pairs| && !Held(s, k) { CallPairKeeps(s, k, ok, v, Script); }
    case Looked(o) => if s.looking != [] && !Top(s).Handing? { LookedKeeps(s, o); }
    case Handed =>
      if s.looking != [] && Top(s).Handing? {
        PopKeeps(s);
        DoneKeeps(s, Pop(s), Top(s).caller);
      }
    case Start => if s.looking == [] && s.turn.Idle? && s.queue != [] { StartKeeps(s); }
    case Take =>
      if s.looking == [] && s.turn.Going? && s.turn.rest != [] {
        TakeSane(s);
        var p, e, t := s.promises[s.turn.promise], s.turn.rest[0], TakeEntry(s);
        TakeKeeps(s);
        TakenGoing(s);
        TakenLooking(s);
        HandleKeeps(t, e, p.status, p.value);
        KeptOn(s, t, Handle(t, e, p.status, p.value));
      }
    case Return(v) =>
      if s.looking == [] && s.turn.Calling? {
        BackKeeps(s);
        ResolveKeeps(Back(s), s.turn.child, v);
        KeptOn(s, Back(s), Resolve(Back(s), s.turn.child, v));
      }
    case Throw(v) =>
      if s.looking == [] && s.turn.Calling? {
        BackKeeps(s);
        RejectKeeps(Back(s), s.turn.child, v);
        KeptOn(s, Back(s), Reject(Back(s), s.turn.child, v));
      }
    case Finish => if s.looking == [] && s.turn.Going? && s.turn.rest == [] { TurnKeeps(s, Idle); }
  }

  lemma {:induction false} TakenLooking<V>(s: State<V>)
    requires s.turn.Going? && s.turn.rest != [] && s.turn.promise < |s.promises|
    ensures TakeEntry(s).looking == s.looking
  {
  }

  // ------------------------------------------------------------------------------ whole runs

  /** No lookup ends in a clash. */
  ghost predicate Undisturbed<V>(s: State<V>, acts: seq<Action<V>>)
    requires Sane(s)
    decreases |acts|
  {
    acts == [] || (StepSane(s, acts[0]); !Clash(s, acts[0]) && Undisturbed(Step(s, acts[0]), acts[1..]))
  }

  /** No step changes the outcome of a settled promise. */
  ghost predicate Kept<V>(s: State<V>, acts: seq<Action<V>>)
    requires Sane(s)
    decreases |acts|
  {
    acts == [] || (StepSane(s, acts[0]); OutcomesKept(s, Step(s, acts[0])) && Kept(Step(s, acts[0]), acts[1..]))
  }

  lemma {:induction false} RunKeeps<V>(s: State<V>, acts: seq<Action<V>>)
    requires Inv(s) && Undisturbed(s, acts)
    ensures Inv(Run(s, acts)) && Kept(s, acts)
    decreases |acts|
  {
    hide Inv, Step, Clash, OutcomesKept, Almost;
    InvSane(s);
    if acts != [] {
      StepKeeps(s, acts[0]);
      RunKeeps(Step(s, acts[0]), acts[1..]);
    }
  }

  /** In an undisturbed run a settled promise never changes its status or its value, whatever
    * happens. */
  lemma {:induction false} SettledForever<V>(s: State<V>, acts: seq<Action<V>>, i: nat)
    requires Inv(s) && Undisturbed(s, acts) && i < |s.promises| && Settled(s.promises[i])
    ensures var t := Run(s, acts);
            i < |t.promises| && t.promises[i].status == s.promises[i].status && t.promises[i].value == s.promises[i].value
    decreases |acts|
  {
    hide Inv, Step, Clash;
    InvSane(s);
    if acts != [] {
      StepKeeps(s, acts[0]);
      assert Step(s, acts[0]).promises[i].status == s.promises[i].status;
      SettledForever(Step(s, acts[0]), acts[1..], i);
    }
  }

  lemma {:induction false} NoneInv<V>()
    ensures Inv(NoPromises<V>())
  {
  }

  /** In any state that an undisturbed run reaches from the empty one, the entries of a promise have
    * been dealt with in the order of the calls of `then`, each at most once and with the outcome of
    * the promise; none before there is an outcome; and all of them once there is one and no turn is
    * running or waiting. */
  lemma {:induction false} EachOnceInOrder<V>(acts: seq<Action<V>>, i: nat)
    requires Undisturbed(NoPromises<V>(), acts) && i < |Run(NoPromises<V>(), acts).promises|
    ensures var t := Run(NoPromises<V>(), acts);
            var p := t.promises[i];
            && |p.calls| <= |p.registered|
            && (forall k :: 0 <= k < |p.calls| ==> p.calls[k] == Call(p.registered[k], p.status == FULFILLED, p.value))
            && (!Settled(p) ==> p.calls == [])
            && (Settled(p) && t.turn.Idle? && t.queue == [] ==> |p.calls| == |p.registered|)
  {
    hide Run, Undisturbed, Locks, FramesLive, EntriesInTable, FramesInTable;
    NoneInv<V>();
    RunKeeps(NoPromises<V>(), acts);
    var t := Run(NoPromises<V>(), acts);
    OneOrderly(t, -1, -1, i);
    OneLinedUp(t, i);
    assert Due(t.promises[i]);
    assert i in t.queue <==> t.promises[i].scheduled;
  }

  // --------------------------------------------------------------------- that a clash is a clash

  /** Calling a function of a pair that was not used settles its promise. */
  lemma {:induction false} PairSettles<V>(s: State<V>, k: nat, ok: bool)
    requires Sane(s) && k < |s.pairs| && !s.pairs[k].used && !Held(s, k)
    ensures var i, t := s.pairs[k].promise, Step(s, UsePair(k, ok, Undefined));
            && i < |s.promises| == |t.promises|
            && t.promises[i].status == (if ok then FULFILLED else REJECTED)
            && t.pairs == s.pairs[k := s.pairs[k].(used := true)] && t.looking == s.looking
  {
    hide Sane, Held, Calm;
    UsedSane(s, k);
    var i := s.pairs[k].promise;
    assert ResolveInner(Used(s, k), i, Undefined) == Settle(Used(s, k), i, FULFILLED, Undefined);
  }

  /** A promise that was locked meanwhile has a pair that somebody holds. */
  lemma {:induction false} OtherPair<V>(s: State<V>) returns (k: nat)
    requires Inv(s) && s.looking != [] && Top(s).Fresh?
    requires Top(s).promise < |s.promises| && s.promises[Top(s).promise].status == LOCKED
    ensures Live(s, k, Top(s).promise) && !Held(Pop(s), k)
  {
    hide Sane, AllOrderly, QueueExact;
    var i, n := Top(s).promise, |s.looking| - 1;
    var l :| Live(s, l, i);
    k := l;
    forall f | 0 <= f < n && s.looking[f].OfPair? ensures s.looking[f].pair != k {
      assert Live(s, s.looking[f].pair, s.looking[f].promise);
      assert s.looking[n].Fresh?;
    }
  }

  /** After a clash some settled outcome has changed, or can be made to change by calling the functions
    * of the pairs that are out, with no further lookup. */
  lemma {:induction false} ClashChanges<V>(s: State<V>, a: Action<V>) returns (more: seq<Action<V>>)
    requires Inv(s) && Clash(s, a)
    ensures Sane(Step(s, a)) && Undisturbed(Step(s, a), more) && !Kept(s, [a] + more)
  {
    hide Inv, Sane, Step, Live, Held;
    InvSane(s);
    ClashTop(s, a);
    var i, t := Top(s).promise, Step(s, a);
    StepSane(s, a);
    if Settled(s.promises[i]) {
      more := [];
      ClashSettled(s, a);
      FirstStep(s, a, more);
    } else {
      var k := OtherPair(s);
      ClashLocked(s, a, k);
      var ok := !a.o.Otherwise?;
      var b := UsePair(k, ok, Undefined);
      PairSettles(t, k, ok);
      StepSane(t, b);
      if a.o.AFunction? {
        var u, n, c := Step(t, b), |s.pairs|, UsePair(|s.pairs|, false, Undefined);
        SameHeld(t, u, n);
        PairSettles(u, n, false);
        StepSane(u, c);
        FirstStep(u, c, []);
        FirstStep(t, b, [c]);
        more := [b, c];
        assert [b] + [c] == more && [c] + [] == [c];
      } else {
        FirstStep(t, b, []);
        more := [b];
        assert [b] + [] == more;
      }
      FirstStep(s, a, more);
    }
  }

  lemma {:induction false} FirstStep<V>(s: State<V>, a: Action<V>, more: seq<Action<V>>)
    requires Sane(s)
    ensures Sane(Step(s, a))
    ensures !a.Looked? && Undisturbed(Step(s, a), more) ==> Undisturbed(s, [a] + more)
    ensures Kept(s, [a] + more) ==> OutcomesKept(s, Step(s, a)) && Kept(Step(s, a), more)
  {
    hide Sane, Step, OutcomesKept;
    StepSane(s, a);
    assert ([a] + more)[1..] == more;
  }

  lemma {:induction false} SameHeld<V>(s: State<V>, t: State<V>, k: nat)
    requires t.looking == s.looking && !Held(s, k)
    ensures !Held(t, k)
  {
  }

  lemma {:induction false} ClashTop<V>(s: State<V>, a: Action<V>)
    requires Inv(s) && Clash(s, a)
    ensures s.looking != [] && Top(s).Fresh? && Top(s).promise < |s.promises| && a.Looked?
    ensures Settled(s.promises[Top(s).promise]) || s.promises[Top(s).promise].status == LOCKED
    ensures !SameOutcome(s.promises[Top(s).promise], Top(s).value, a.o)
  {
    hide InLine, EntriesInTable, QueueExact, Locks, FramesLive;
    assert FrameInTable(s, Top(s));
    OneOrderly(s, -1, -1, Top(s).promise);
  }

  /** A settled promise is overwritten. */
  lemma {:induction false} ClashSettled<V>(s: State<V>, a: Action<V>)
    requires Sane(s) && a.Looked? && s.looking != [] && Top(s).Fresh? && Top(s).promise < |s.promises|
    requires Settled(s.promises[Top(s).promise]) && !SameOutcome(s.promises[Top(s).promise], Top(s).value, a.o)
    ensures !OutcomesKept(s, Step(s, a))
  {
    hide Sane;
    var i, t := Top(s).promise, Step(s, a);
    assert t.promises[i].status != s.promises[i].status || t.promises[i].value != s.promises[i].value;
  }

  /** A locked promise is locked again or settled, and its pair is still out. */
  lemma {:induction false} ClashLocked<V>(s: State<V>, a: Action<V>, k: nat)
    requires Inv(s) && a.Looked? && s.looking != [] && Top(s).Fresh? && Top(s).promise < |s.promises|
    requires s.promises[Top(s).promise].status == LOCKED && Live(s, k, Top(s).promise) && !Held(Pop(s), k)
    ensures var i, t := Top(s).promise, Step(s, a);
            && |t.promises| == |s.promises|
            && k < |s.pairs| <= |t.pairs| && t.pairs[k].promise == i && !t.pairs[k].used && !Held(t, k)
            && (a.o.Otherwise? ==> t.promises[i].status == FULFILLED)
            && (a.o.Throws? ==> t.promises[i].status == REJECTED)
            && (a.o.AFunction? ==> |t.pairs| == |s.pairs| + 1 && t.pairs[|s.pairs|] == Pair(i, false) && !Held(t, |s.pairs|))
  {
    hide Sane, AllOrderly, QueueExact, Locks;
    var t, n := Step(s, a), |s.looking| - 1;
    forall f | 0 <= f < n && s.looking[f].OfPair? ensures s.looking[f].pair < |s.pairs| {
      assert Live(s, s.looking[f].pair, s.looking[f].promise);
    }
    assert forall f :: 0 <= f < n ==> Pop(s).looking[f] == s.looking[f];
    assert forall f :: 0 <= f < |t.looking| && t.looking[f].OfPair? ==> f < n && t.looking[f] == Pop(s).looking[f];
  }

  /** No beginning of the run can be continued, without a further clash, so that a settled outcome
    * changes. */
  ghost predicate KeptHowever<V(!new)>(s: State<V>, acts: seq<Action<V>>)
    requires Sane(s)
  {
    forall k: nat, more: seq<Action<V>> ::
      k <= |acts| && Undisturbed(Run(s, acts[..k]), more) ==> Kept(s, acts[..k] + more)
  }

  lemma {:induction false} UndisturbedConcat<V>(s: State<V>, a: seq<Action<V>>, b: seq<Action<V>>)
    requires Sane(s)
    ensures Undisturbed(s, a + b) <==> Undisturbed(s, a) && Undisturbed(Run(s, a), b)
    ensures Kept(s, a + b) <==> Kept(s, a) && Kept(Run(s, a), b)
    decreases |a|
  {
    hide Sane, Step, Clash, OutcomesKept;
    if a == [] {
      assert a + b == b;
    } else {
      StepSane(s, a[0]);
      assert (a + b)[1..] == a[1..] + b;
      UndisturbedConcat(Step(s, a[0]), a[1..], b);
    }
  }

  /** The place of the first clash. */
  lemma {:induction false} FirstClash<V>(s: State<V>, acts: seq<Action<V>>) returns (k: nat)
    requires Sane(s) && !Undisturbed(s, acts)
    ensures k < |acts| && Undisturbed(s, acts[..k]) && Clash(Run(s, acts[..k]), acts[k])
    decreases |acts|
  {
    hide Sane, Step, Clash;
    StepSane(s, acts[0]);
    if Clash(s, acts[0]) {
      k := 0;
      assert acts[..0] == [];
    } else {
      var j := FirstClash(Step(s, acts[0]), acts[1..]);
      k := j + 1;
      assert acts[..k][1..] == acts[1..][..j];
    }
  }

  /** Settled outcomes are kept exactly as long as nobody settles or locks a promise between the check
    * of `resolve` and the end of the lookup that follows it. */
  lemma {:induction false} KeptExactly<V(!new)>(s: State<V>, acts: seq<Action<V>>)
    requires Inv(s)
    ensures Undisturbed(s, acts) <==> KeptHowever(s, acts)
  {
    hide Inv, Run, Undisturbed, Kept, Clash, Step;
    InvSane(s);
    if Undisturbed(s, acts) {
      forall k: nat, more: seq<Action<V>> | k <= |acts| && Undisturbed(Run(s, acts[..k]), more)
        ensures Kept(s, acts[..k] + more)
      {
        assert acts == acts[..k] + acts[k..];
        UndisturbedConcat(s, acts[..k], acts[k..]);
        UndisturbedConcat(s, acts[..k], more);
        RunKeeps(s, acts[..k] + more);
      }
    } else {
      var k := FirstClash(s, acts);
      var u, a := Run(s, acts[..k]), acts[k];
      RunKeeps(s, acts[..k]);
      var more := ClashChanges(u, a);
      RunSnoc(s, acts[..k], a);
      assert acts[..k + 1] == acts[..k] + [a];
      assert acts[..k + 1] + more == acts[..k] + ([a] + more);
      UndisturbedConcat(s, acts[..k], [a] + more);
      assert !Kept(s, acts[..k + 1] + more);
    }
  }

  // ------------------------------------------------------------------------------ an input

  /** `then` on a promise, and then its deferred is resolved with an object whose `then` getter
    * resolves the same deferred with 1 and gives a function. */
  function GetterRun<V>(x: V, one: V): seq<Action<V>> {
    [New, CallThen(0, User(0), Missing, false), CallResolve(0, Object(x)), CallResolve(0, Plain(one))] +
    [Looked(AFunction), Handed, Start, Take]
  }

  /** The promise is fulfilled with 1 and then locked, and the turn that was asked for deals with the
    * entry of `then` although there is no outcome: it rejects the promise `then` gave with 1. */
  lemma {:induction false} GetterUnsettles<V>(x: V, one: V)
    ensures var u := Run(NoPromises<V>(), GetterRun(x, one)[..4]);
            |u.promises| == 2 && u.promises[0].status == FULFILLED && u.promises[0].value == Plain(one)
    ensures var t := Run(NoPromises<V>(), GetterRun(x, one));
            && |t.promises| == 2 && t.promises[0].status == LOCKED && |t.promises[0].calls| == 1
            && t.promises[1].status == REJECTED && t.promises[1].value == Plain(one)
  {
    hide Sane, Run, Calm, Grows, SameAhead;
    var e := Entry(1, User(0), Missing);
    var s4 := GetterSettles(x, one);
    var p, c := s4.promises[0], s4.promises[1];
    StepSane(s4, Looked(AFunction));
    var s5 := Step(s4, Looked(AFunction));
    assert s5 == State([p.(status := LOCKED), c], [Pair(0, false)], [0], Idle, [Handing(Script)]);
    StepSane(s5, Handed);
    var s6 := Step(s5, Handed);
    assert s6 == s5.(looking := []);
    StepSane(s6, Start);
    var s7 := Step(s6, Start);
    assert s7 == State([p.(status := LOCKED, scheduled := false, pending := []), c], [Pair(0, false)], [], Going(0, [e]), []);
    StepSane(s7, Take);
    TakesUnsettled(s7, e);
    FourRun(s4, Looked(AFunction), Handed, Start, Take);
    var acts := GetterRun(x, one);
    assert acts[..4] + acts[4..] == acts && acts[4..] == [Looked(AFunction), Handed, Start, Take];
    assert acts[..4] == [New, CallThen(0, User(0), Missing, false), CallResolve(0, Object(x)), CallResolve(0, Plain(one))];
    RunConcat(NoPromises<V>(), acts[..4], acts[4..]);
  }

  lemma {:induction false} TakesUnsettled<V>(s: State<V>, e: Entry)
    requires Sane(s) && s.looking == [] && s.turn == Going(0, [e]) && |s.promises| == 2 && e.child == 1
    requires s.promises[0].status == LOCKED && s.promises[1].status == PENDING && s.promises[0].calls == []
    ensures var t := Step(s, Take);
            && |t.promises| == 2 && t.promises[0].status == LOCKED && |t.promises[0].calls| == 1
            && t.promises[1].status == REJECTED && t.promises[1].value == s.promises[0].value
  {
    hide Sane;
    TakeSane(s);
  }

  lemma {:induction false} GetterSettles<V>(x: V, one: V) returns (s4: State<V>)
    ensures Sane(s4)
    ensures s4 == Run(NoPromises<V>(),
      [New, CallThen(0, User(0), Missing, false), CallResolve(0, Object(x)), CallResolve(0, Plain(one))])
    ensures var e := Entry(1, User(0), Missing);
            s4 == State([Promise(FULFILLED, Plain(one), [e], true, [e], []), Promise(PENDING, Undefined, [], false, [], [])],
                        [], [0], Idle, [Fresh(0, Object(x))])
  {
    hide Sane, Run, Calm, Grows, SameAhead;
    var e := Entry(1, User(0), Missing);
    var s0 := NoPromises<V>();
    var a, b, c, d := New, CallThen(0, User(0), Missing, false), CallResolve(0, Object(x)), CallResolve(0, Plain(one));
    StepSane(s0, a);
    var s1 := Step(s0, a);
    assert s1 == State([Promise(PENDING, Undefined, [], false, [], [])], [], [], Idle, []);
    StepSane(s1, b);
    var s2 := Step(s1, b);
    assert [] + [e] == [e];
    assert s2.promises == [Promise(PENDING, Undefined, [e], false, [e], []), Promise(PENDING, Undefined, [], false, [], [])];
    assert s2 == State([Promise(PENDING, Undefined, [e], false, [e], []), Promise(PENDING, Undefined, [], false, [], [])], [], [], Idle, []);
    StepSane(s2, c);
    var s3 := Step(s2, c);
    assert s3 == s2.(looking := [Fresh(0, Object(x))]);
    StepSane(s3, d);
    s4 := Step(s3, d);
    FourRun(s0, a, b, c, d);
  }

  lemma {:induction false} FourRun<V>(s: State<V>, a: Action<V>, b: Action<V>, c: Action<V>, d: Action<V>)
    requires Sane(s) && Sane(Step(s, a)) && Sane(Step(Step(s, a), b)) && Sane(Step(Step(Step(s, a), b), c))
    ensures Run(s, [a, b, c, d]) == Step(Step(Step(Step(s, a), b), c), d)
  {
    hide Sane, Step;
    RunOne(s, a);
    RunSnoc(s, [a], b);
    RunSnoc(s, [a] + [b], c);
    RunSnoc(s, [a] + [b] + [c], d);
    assert [a] + [b] + [c] + [d] == [a, b, c, d];
  }
}
