/** What becomes of single promises, told by statuses and values: which callback a turn calls, how an
  * outcome is passed on, and how one promise takes over another's. */
module PromiseLaws {
  import opened Promises
  import opened PromiseOutcomes

  /** Values that `resolve` looks no further into. */
  predicate Final<V>(v: Value<V>) {
    v.Undefined? || v.Plain? || v.CycleError?
  }

  ghost predicate Has<V>(s: State<V>, i: nat, status: int, v: Value<V>) {
    i < |s.promises| && s.promises[i].status == status && s.promises[i].value == v
  }

  /** A pending promise gets the status and the value it is settled with; one that is not pending keeps
    * what it has. */
  lemma {:induction false} SettledAs<V>(s: State<V>, i: nat, v: Value<V>)
    requires Sane(s) && i < |s.promises| && Final(v)
    ensures s.promises[i].status == 0 ==> Has(Step(s, CallResolve(i, v)), i, 1, v)
    ensures s.promises[i].status != 0 ==> Step(s, CallResolve(i, v)) == s
    ensures s.promises[i].status == 0 ==> Has(Step(s, CallReject(i, v)), i, 2, v)
    ensures s.promises[i].status != 0 ==> Step(s, CallReject(i, v)) == s
  {
    hide Sane;
  }

  /** A promise resolved with itself is rejected; with another it is locked, until somebody tells it. */
  lemma {:induction false} ResolvedWithPromise<V>(s: State<V>, i: nat, p: nat)
    requires Sane(s) && i < |s.promises| && p < |s.promises| && s.promises[i].status == 0
    ensures var t := Step(s, CallResolve(i, Ref(p)));
            if p == i then Has(t, i, 2, CycleError)
            else
              var n := |s.pairs|;
              && i < |t.promises| && t.promises[i].status == -1
              && t.pairs == s.pairs + [Pair(i, false)]
              && p < |t.promises| && t.promises[p].registered == s.promises[p].registered + [Entry(|s.promises|, Settler(n, true), Settler(n, false))]
  {
    hide Sane;
  }

  /** The function of a pair that is called first settles its promise: the one for fulfilment with a final
    * value, and the one for rejection with any. */
  lemma {:induction false} PairGives<V>(s: State<V>, k: nat, ok: bool, v: Value<V>)
    requires Sane(s) && k < |s.pairs| && !Held(s, k) && (ok ==> Final(v))
    ensures s.pairs[k].promise < |s.promises|
    ensures var t := Step(s, UsePair(k, ok, v));
            if s.pairs[k].used then t == s
            else Has(t, s.pairs[k].promise, if ok then 1 else 2, v) && k < |t.pairs| && t.pairs[k].used
  {
    hide Sane, Held, Calm;
    UsedSane(s, k);
  }

  /** A turn at an entry of promise `p`, whose deferred is for the pending promise `child`. */
  ghost predicate AtEntry<V>(s: State<V>, p: nat, e: Entry, rest: seq<Entry>) {
    && Sane(s) && s.looking == [] && s.turn == Going(p, [e] + rest)
    && p < |s.promises| && Settled(s.promises[p])
    && e.child < |s.promises| && e.child != p && s.promises[e.child].status == 0
  }

  /** The callback for fulfilment is called for a fulfilled promise and the one for rejection for a rejected
    * one.  Without a function in its place the outcome is passed on as it is. */
  lemma {:induction false} CalledOrPassedOn<V>(s: State<V>, p: nat, e: Entry, rest: seq<Entry>)
    requires AtEntry(s, p, e, rest)
    ensures var o, t := s.promises[p], Step(s, Take);
            var callback := if o.status == 1 then e.onOk else e.onErr;
            && (callback.User? ==> t == TakeEntry(s).(turn := Calling(p, rest, e.child)))
            && ((callback.Missing? || callback.NoFunction?) && (o.status == 1 ==> Final(o.value)) ==>
                  Has(t, e.child, o.status, o.value) && t.turn == Going(p, rest))
    ensures var o, t := s.promises[p], TakeEntry(s);
            t.promises == s.promises[p := o.(calls := o.calls + [Call(e, o.status == 1, o.value)])]
  {
    hide Sane, Calm, Resolve, Reject;
    TakeSane(s);
    assert ([e] + rest)[1..] == rest;
    var o, t := s.promises[p], TakeEntry(s);
    var callback := if o.status == 1 then e.onOk else e.onErr;
    if (callback.Missing? || callback.NoFunction?) && (o.status == 1 ==> Final(o.value)) {
      PassedOn(t, e.child, o.status, o.value);
    }
  }

  lemma {:induction false} PassedOn<V>(s: State<V>, i: nat, status: int, v: Value<V>)
    requires Sane(s) && i < |s.promises| && s.promises[i].status == 0
    ensures Final(v) ==> Has(Resolve(s, i, v), i, 1, v) && Resolve(s, i, v).turn == s.turn
    ensures Has(Reject(s, i, v), i, 2, v) && Reject(s, i, v).turn == s.turn
  {
    hide Sane;
  }

  /** What a callback returns fulfils the child, and what it throws rejects it. */
  lemma {:induction false} ReturnedOrThrown<V>(s: State<V>, v: Value<V>)
    requires Sane(s) && s.looking == [] && s.turn.Calling?
    ensures s.turn.child < |s.promises|
    ensures s.promises[s.turn.child].status == 0 && Final(v) ==> Has(Step(s, Return(v)), s.turn.child, 1, v)
    ensures s.promises[s.turn.child].status == 0 ==> Has(Step(s, Throw(v)), s.turn.child, 2, v)
    ensures Step(s, Return(v)).turn == Step(s, Throw(v)).turn == Going(s.turn.promise, s.turn.rest)
  {
    hide Sane, Calm;
    BackSane(s);
    ResolveSane(Back(s), s.turn.child, v);
    CalmTurn(Back(s), Resolve(Back(s), s.turn.child, v));
    CalmTurn(Back(s), Reject(Back(s), s.turn.child, v));
  }

  /** A promise that was resolved with `p` takes over its outcome when `p` tells it. */
  lemma {:induction false} OutcomeTaken<V>(s: State<V>, p: nat, k: nat, child: nat, rest: seq<Entry>)
    requires AtEntry(s, p, Entry(child, Settler(k, true), Settler(k, false)), rest)
    requires k < |s.pairs| && !s.pairs[k].used && s.pairs[k].promise != child && s.pairs[k].promise != p
    requires s.promises[p].status == 1 ==> Final(s.promises[p].value)
    ensures Has(Step(s, Take), s.pairs[k].promise, s.promises[p].status, s.promises[p].value)
  {
    hide Sane, Calm, Grows, SameAhead;
    var e := Entry(child, Settler(k, true), Settler(k, false));
    var i, o, t := s.pairs[k].promise, s.promises[p], TakeEntry(s);
    TakeSane(s);
    assert ([e] + rest)[1..] == rest;
    UsedSane(t, k);
    var u := Settle(Used(t, k), i, o.status, o.value);
    assert Has(u, i, o.status, o.value);
    assert Step(s, Take) == Done(u, Reaction(child));
  }

  /** Told by a pair that was used before, nothing is settled again; either way the function of the pair returns
    * `undefined`, which fulfils the deferred of the entry. */
  lemma {:induction false} TellerAnswered<V>(s: State<V>, p: nat, k: nat, child: nat, rest: seq<Entry>)
    requires AtEntry(s, p, Entry(child, Settler(k, true), Settler(k, false)), rest)
    requires k < |s.pairs| && s.pairs[k].promise != child
    requires !s.pairs[k].used && s.promises[p].status == 1 ==> Final(s.promises[p].value)
    ensures var t := Step(s, Take);
            && Has(t, child, 1, Undefined)
            && (s.pairs[k].used ==>
                  && |t.promises| == |s.promises| && t.pairs == s.pairs
                  && forall i :: 0 <= i < |t.promises| && i != child ==>
                       t.promises[i].status == s.promises[i].status && t.promises[i].value == s.promises[i].value)
  {
    hide Sane, Calm, Grows, SameAhead;
    var e := Entry(child, Settler(k, true), Settler(k, false));
    var i, o, t := s.pairs[k].promise, s.promises[p], TakeEntry(s);
    TakeSane(s);
    assert ([e] + rest)[1..] == rest;
    if s.pairs[k].used {
      assert Step(s, Take) == Done(t, Reaction(child));
    } else {
      UsedSane(t, k);
      var u := Settle(Used(t, k), i, o.status, o.value);
      assert Step(s, Take) == Done(u, Reaction(child));
    }
  }

  /** What the lookup of `then` came to decides a promise that is still pending: a function locks it and is
    * handed a new pair, anything else fulfils it with the object, and an exception rejects it. */
  lemma {:induction false} LookupDecides<V>(s: State<V>, i: nat, v: Value<V>, o: Looking<V>)
    requires Sane(s) && i < |s.promises| && s.promises[i].status == 0 && v.Object?
    ensures var looked := Step(s, CallResolve(i, v));
            && Sane(looked) && looked.promises == s.promises && looked.looking == s.looking + [Fresh(i, v)]
            && match o
               case AFunction =>
                 var t := Step(looked, Looked(o));
                 i < |t.promises| && t.promises[i].status == -1 && t.pairs == s.pairs + [Pair(i, false)]
               case Otherwise => Has(Step(looked, Looked(o)), i, 1, v)
               case Throws(error) => Has(Step(looked, Looked(o)), i, 2, error)
  {
    hide Sane, Calm, Grows, SameAhead;
    var looked := Step(s, CallResolve(i, v));
    StepSane(s, CallResolve(i, v));
    assert Pop(looked).promises == s.promises;
  }

  /** Turns are taken in the order in which they were asked for, and a turn takes all entries that wait. */
  lemma {:induction false} TurnsInOrder<V>(s: State<V>, a: Action<V>)
    requires Sane(s)
    ensures var t := Step(s, a);
            if a.Start? && s.looking == [] && s.turn.Idle? && s.queue != [] then
              && t.queue == s.queue[1..] && s.queue[0] < |s.promises|
              && t.turn == Going(s.queue[0], s.promises[s.queue[0]].pending)
            else s.queue <= t.queue
  {
    hide Calm, Grows, SameAhead, InLine, EntriesInTable, FramesInTable;
    if a.Start? && s.looking == [] && s.turn.Idle? && s.queue != [] {
      StartSane(s);
    } else {
      QueueGrows(s, a);
    }
  }

  lemma {:induction false} ThenQueue<V>(s: State<V>, i: nat, onOk: Callback, onErr: Callback, progress: bool)
    requires i < |s.promises|
    ensures s.queue <= Then(s, i, onOk, onErr, progress).queue
  {
  }

  lemma {:induction false} ResolveQueue<V>(s: State<V>, i: nat, v: Value<V>)
    requires i < |s.promises|
    ensures s.queue <= Resolve(s, i, v).queue && s.queue <= Reject(s, i, v).queue
    ensures !v.Object? ==> s.queue <= ResolveInner(s, i, v).queue
  {
    hide Then;
    if v.Ref? && v.p < |s.promises| {
      ThenQueue(Lock(s, i), v.p, Settler(|s.pairs|, true), Settler(|s.pairs|, false), true);
    }
  }

  lemma {:induction false} DoneQueue<V>(s: State<V>, c: Caller)
    ensures s.queue <= Done(s, c).queue
  {
    hide Resolve;
    if c.Reaction? && c.child < |s.promises| { ResolveQueue(s, c.child, Undefined); }
  }

  lemma {:induction false} PairQueue<V>(s: State<V>, k: nat, ok: bool, v: Value<V>, c: Caller)
    requires k < |s.pairs| && s.pairs[k].promise < |s.promises|
    ensures s.queue <= CallPair(s, k, ok, v, c).queue
  {
    hide Resolve, Reject, ResolveInner, Done;
    var t, i := Used(s, k), s.pairs[k].promise;
    DoneQueue(s, c);
    DoneQueue(Settle(t, i, REJECTED, v), c);
    if !v.Object? {
      ResolveQueue(t, i, v);
      DoneQueue(ResolveInner(t, i, v), c);
    }
  }

  lemma {:induction false} DecideQueue<V>(s: State<V>, f: Frame<V>, o: Looking<V>)
    requires FrameInTable(s, f) && !f.Handing?
    ensures s.queue <= Decide(s, f, o).queue
  {
    hide Done;
    match f
    case Fresh(i, v) =>
    case OfPair(i, v, n, c) =>
      DoneQueue(Settle(Used(s, n), i, FULFILLED, v), c);
      if o.Throws? { DoneQueue(Settle(Used(s, n), i, REJECTED, o.error), c); }
  }

  lemma {:induction false} QueueGrows<V>(s: State<V>, a: Action<V>)
    requires Sane(s) && !(a.Start? && s.looking == [] && s.turn.Idle? && s.queue != [])
    ensures s.queue <= Step(s, a).queue
  {
    hide Sane, Calm, Grows, SameAhead, Then, Resolve, Reject, CallPair, Decide, Done, Held;
    match a
    case New =>
    case CallThen(i, onOk, onErr, progress) => if i < |s.promises| { ThenQueue(s, i, onOk, onErr, progress); }
    case CallResolve(i, v) => if i < |s.promises| { ResolveQueue(s, i, v); }
    case CallReject(i, v) => if i < |s.promises| { ResolveQueue(s, i, v); }
    case UsePair(k, ok, v) =>
      if k < |s.pairs| {
        UsedSane(s, k);
        PairQueue(s, k, ok, v, Script);
      }
    case Looked(o) =>
      if s.looking != [] && !Top(s).Handing? {
        PopSane(s);
        DecideQueue(Pop(s), Top(s), o);
      }
    case Handed => if s.looking != [] && Top(s).Handing? { DoneQueue(Pop(s), Top(s).caller); }
    case Start =>
    case Take =>
      if s.looking == [] && s.turn.Going? && s.turn.rest != [] {
        TakeSane(s);
        var p, e, t := s.promises[s.turn.promise], s.turn.rest[0], TakeEntry(s);
        HandleQueue(t, e, p.status, p.value);
      }
    case Return(v) =>
      if s.looking == [] && s.turn.Calling? {
        BackSane(s);
        ResolveQueue(Back(s), s.turn.child, v);
      }
    case Throw(v) =>
      if s.looking == [] && s.turn.Calling? {
        BackSane(s);
        ResolveQueue(Back(s), s.turn.child, v);
      }
    case Finish =>
  }

  lemma {:induction false} HandleQueue<V>(s: State<V>, e: Entry, status: int, v: Value<V>)
    requires Sane(s) && s.turn.Going? && InTable(s, e)
    ensures forall k :: 0 <= k < |s.pairs| ==> s.pairs[k].promise < |s.promises|
    ensures s.queue <= Handle(s, e, status, v).queue
  {
    hide InLine, EntriesInTable, FramesInTable, Resolve, Reject, CallPair;
    ResolveQueue(s, e.child, v);
    match CallbackAt(e, status)
    case Settler(k, ok) => PairQueue(s, k, ok, v, Reaction(e.child));
    case _ =>
  }
}
