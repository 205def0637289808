/** `$q`: promises, the functions handed to thenables, the turns that call the callbacks, and the
  * user's code that runs while `then` is looked up on an object.  Here: the steps, and what they
  * keep whatever that code does. */
module Promises {
  import opened Sequences

  /** What can be passed around: `Ref` is one of our promises, `Object` any other object or function,
    * whose `then` has to be looked up. */
  datatype Value<V> =
    | Undefined
    | Plain(v: V)
    | Ref(p: nat)
    | Object(v: V)
    | CycleError

  /** An argument of `then`.  `Settler` is one of the two functions of a pair made by `$$resolve`. */
  datatype Callback = Missing | NoFunction | User(f: nat) | Settler(pair: nat, ok: bool)

  /** `[deferred, onFulfilled, onRejected]`; the deferred is named by its promise. */
  datatype Entry = Entry(child: nat, onOk: Callback, onErr: Callback)

  /** A callback entry that was dealt with, and with what. */
  datatype Call<V> = Call(entry: Entry, ok: bool, value: Value<V>)

  /** `$$state`; an undefined `pending` is empty.  `registered` and `calls` record what was given to
    * `then` and what was dealt with. */
  datatype Promise<V> = Promise(status: int, value: Value<V>, pending: seq<Entry>, scheduled: bool,
                                registered: seq<Entry>, calls: seq<Call<V>>)

  /** Two functions that between them work once. */
  datatype Pair = Pair(promise: nat, used: bool)

  /** The function run by `nextTick`: it has taken the pending list and goes along it, and may be
    * inside the user's callback of the entry for `child`. */
  datatype Turn = Idle | Going(promise: nat, rest: seq<Entry>) | Calling(promise: nat, rest: seq<Entry>, child: nat)

  /** Who called a function of a pair: the user's code, or a turn, which then resolves the child. */
  datatype Caller = Script | Reaction(child: nat)

  /** User's code that `$$resolve` is waiting for: the lookup of `then` on the value that is to decide a
    * promise, begun by `resolve` or by a function of a pair, or the call of the `then` that was found.
    * A lookup begun by a pair has the next pair with it, which nobody has been handed yet. */
  datatype Frame<V> =
    | Fresh(promise: nat, value: Value<V>)
    | OfPair(promise: nat, value: Value<V>, pair: nat, caller: Caller)
    | Handing(caller: Caller)

  /** What a lookup of `then` came to. */
  datatype Looking<V> = AFunction | Otherwise | Throws(error: Value<V>)

  datatype State<V> = State(promises: seq<Promise<V>>, pairs: seq<Pair>, queue: seq<nat>, turn: Turn, looking: seq<Frame<V>>)

  const PENDING := 0
  const LOCKED := -1
  const FULFILLED := 1
  const REJECTED := 2

  predicate Settled<V>(p: Promise<V>) {
    p.status == FULFILLED || p.status == REJECTED
  }

  function NewPromise<V>(s: State<V>): State<V> {
    s.(promises := s.promises + [Promise(PENDING, Undefined, [], false, [], [])])
  }

  /** `f`: asks for a turn unless one is coming or nobody waits. */
  function Schedule<V>(s: State<V>, i: nat): State<V>
    requires i < |s.promises|
  {
    var p := s.promises[i];
    if !p.scheduled && p.pending != [] then
      s.(promises := s.promises[i := p.(scheduled := true)], queue := s.queue + [i])
    else s
  }

  function Register<V>(s: State<V>, i: nat, e: Entry): State<V>
    requires i < |s.promises|
  {
    var p := s.promises[i];
    s.(promises := s.promises[i := p.(pending := p.pending + [e], registered := p.registered + [e])])
  }

  function Then<V>(s: State<V>, i: nat, onOk: Callback, onErr: Callback, progress: bool): State<V>
    requires i < |s.promises|
  {
    if onOk.Missing? && onErr.Missing? && !progress then s
    else
      var t := Register(NewPromise(s), i, Entry(|s.promises|, onOk, onErr));
      if t.promises[i].status > 0 then Schedule(t, i) else t
  }

  function Settle<V>(s: State<V>, i: nat, status: int, v: Value<V>): State<V>
    requires i < |s.promises|
  {
    Schedule(s.(promises := s.promises[i := s.promises[i].(value := v, status := status)]), i)
  }

  function SetLocked<V>(s: State<V>, i: nat): State<V>
    requires i < |s.promises|
  {
    s.(promises := s.promises[i := s.promises[i].(status := LOCKED)])
  }

  /** A fresh pair for whoever decides about the promise. */
  function AddPair<V>(s: State<V>, i: nat): State<V> {
    s.(pairs := s.pairs + [Pair(i, false)])
  }

  function Lock<V>(s: State<V>, i: nat): State<V>
    requires i < |s.promises|
  {
    AddPair(SetLocked(s, i), i)
  }

  function Used<V>(s: State<V>, k: nat): State<V>
    requires k < |s.pairs|
  {
    s.(pairs := s.pairs[k := s.pairs[k].(used := true)])
  }

  function Push<V>(s: State<V>, f: Frame<V>): State<V> {
    s.(looking := s.looking + [f])
  }

  function Pop<V>(s: State<V>): State<V>
    requires s.looking != []
  {
    s.(looking := s.looking[..|s.looking| - 1])
  }

  /** `$$resolve` of anything but an object that is none of ours.  A pair that is not handed out is
    * left out here. */
  function ResolveInner<V>(s: State<V>, i: nat, v: Value<V>): State<V>
    requires i < |s.promises| && !v.Object?
  {
    match v
    case Ref(p) =>
      if p < |s.promises| then
        Then(Lock(s, i), p, Settler(|s.pairs|, true), Settler(|s.pairs|, false), true)
      else Settle(s, i, FULFILLED, v)
    case _ => Settle(s, i, FULFILLED, v)
  }

  /** `resolve`: the check, and then the decision, or for an object the beginning of the lookup. */
  function Resolve<V>(s: State<V>, i: nat, v: Value<V>): State<V>
    requires i < |s.promises|
  {
    if s.promises[i].status != 0 then s
    else if v == Ref(i) then Settle(s, i, REJECTED, CycleError)
    else if v.Object? then Push(s, Fresh(i, v))
    else ResolveInner(s, i, v)
  }

  function Reject<V>(s: State<V>, i: nat, v: Value<V>): State<V>
    requires i < |s.promises|
  {
    if s.promises[i].status != 0 then s else Settle(s, i, REJECTED, v)
  }

  /** A function of a pair returns `undefined`, with which a turn resolves the child. */
  function Done<V>(s: State<V>, c: Caller): State<V> {
    match c
    case Script => s
    case Reaction(child) => if child < |s.promises| then Resolve(s, child, Undefined) else s
  }

  /** Calls a function of a pair. */
  function CallPair<V>(s: State<V>, k: nat, ok: bool, v: Value<V>, c: Caller): State<V>
    requires k < |s.pairs| && s.pairs[k].promise < |s.promises|
  {
    if s.pairs[k].used then Done(s, c)
    else
      var t, i := Used(s, k), s.pairs[k].promise;
      if !ok then Done(Settle(t, i, REJECTED, v), c)
      else if v.Object? then Push(AddPair(t, i), OfPair(i, v, |s.pairs|, c))
      else Done(ResolveInner(t, i, v), c)
  }

  /** `$$resolve` after the lookup: it writes whatever the status is by now.  A pair that was not
    * handed out is done with. */
  function Decide<V>(s: State<V>, f: Frame<V>, o: Looking<V>): State<V>
    requires match f
             case Fresh(i, _) => i < |s.promises|
             case OfPair(i, _, n, _) => i < |s.promises| && n < |s.pairs|
             case Handing(_) => false
  {
    match f
    case Fresh(i, v) =>
      (match o
       case AFunction => Push(Lock(s, i), Handing(Script))
       case Otherwise => Settle(s, i, FULFILLED, v)
       case Throws(error) => Settle(s, i, REJECTED, error))
    case OfPair(i, v, n, c) =>
      (match o
       case AFunction => Push(SetLocked(s, i), Handing(c))
       case Otherwise => Done(Settle(Used(s, n), i, FULFILLED, v), c)
       case Throws(error) => Done(Settle(Used(s, n), i, REJECTED, error), c))
  }

  // --------------------------------------------------------------------------------- turns

  function StartTurn<V>(s: State<V>): State<V>
    requires s.turn.Idle? && s.queue != [] && s.queue[0] < |s.promises|
  {
    var i := s.queue[0];
    var p := s.promises[i];
    s.(promises := s.promises[i := p.(scheduled := false, pending := [])], queue := s.queue[1..], turn := Going(i, p.pending))
  }

  /** Takes the next entry off the list of the turn. */
  function TakeEntry<V>(s: State<V>): State<V>
    requires s.turn.Going? && s.turn.rest != [] && s.turn.promise < |s.promises|
  {
    var i := s.turn.promise;
    var p, e := s.promises[i], s.turn.rest[0];
    s.(promises := s.promises[i := p.(calls := p.calls + [Call(e, p.status == FULFILLED, p.value)])],
       turn := Going(i, s.turn.rest[1..]))
  }

  /** The element of the entry at the place of the status; at 0 and -1 there is no function. */
  function CallbackAt(e: Entry, status: int): Callback {
    if status == FULFILLED then e.onOk else if status == REJECTED then e.onErr else NoFunction
  }

  /** What the turn does with an entry: a user's callback is entered, the functions of a pair are
    * called, and anything else passes the outcome on. */
  function Handle<V>(s: State<V>, e: Entry, status: int, v: Value<V>): State<V>
    requires s.turn.Going? && InTable(s, e)
    requires forall k :: 0 <= k < |s.pairs| ==> s.pairs[k].promise < |s.promises|
  {
    match CallbackAt(e, status)
    case User(_) => s.(turn := Calling(s.turn.promise, s.turn.rest, e.child))
    case Settler(k, ok) => CallPair(s, k, ok, v, Reaction(e.child))
    case _ => if status == FULFILLED then Resolve(s, e.child, v) else Reject(s, e.child, v)
  }

  predicate InTable<V>(s: State<V>, e: Entry) {
    && e.child < |s.promises|
    && (e.onOk.Settler? ==> e.onOk.pair < |s.pairs|)
    && (e.onErr.Settler? ==> e.onErr.pair < |s.pairs|)
  }

  predicate CallerInTable<V>(s: State<V>, c: Caller) {
    c.Reaction? ==> c.child < |s.promises|
  }

  predicate FrameInTable<V>(s: State<V>, f: Frame<V>) {
    match f
    case Fresh(i, _) => i < |s.promises|
    case OfPair(i, _, n, c) => i < |s.promises| && n < |s.pairs| && CallerInTable(s, c)
    case Handing(c) => CallerInTable(s, c)
  }

  /** The callback of the current entry is over. */
  function Back<V>(s: State<V>): State<V>
    requires s.turn.Calling?
  {
    s.(turn := Going(s.turn.promise, s.turn.rest))
  }

  /** Everything that can happen, in any order.  Users register their own functions only.  While
    * `then` is looked up or called, no turn goes on; `Looked` ends a lookup and `Handed` the call. */
  datatype Action<V> =
    | New
    | CallThen(i: nat, onOk: Callback, onErr: Callback, progress: bool)
    | CallResolve(i: nat, v: Value<V>)
    | CallReject(i: nat, v: Value<V>)
    | UsePair(k: nat, ok: bool, v: Value<V>)
    | Looked(o: Looking<V>)
    | Handed
    | Start
    | Take
    | Return(v: Value<V>)
    | Throw(v: Value<V>)
    | Finish

  predicate UserCallback(c: Callback) {
    !c.Settler?
  }

  /** The pair belongs to a lookup that is not over: nobody has its functions. */
  predicate Held<V>(s: State<V>, k: nat) {
    exists f :: 0 <= f < |s.looking| && s.looking[f].OfPair? && s.looking[f].pair == k
  }

  function Top<V>(s: State<V>): Frame<V>
    requires s.looking != []
  {
    s.looking[|s.looking| - 1]
  }

  // -------------------------------------------------------------------- what every step keeps

  function Rest<V>(s: State<V>, i: nat): seq<Entry> {
    if !s.turn.Idle? && s.turn.promise == i then s.turn.rest else []
  }

  /** Entries are dealt with in the order of the calls of `then`, each once. */
  ghost predicate LinedUp<V>(p: Promise<V>, rest: seq<Entry>) {
    && |p.calls| <= |p.registered|
    && p.registered[|p.calls|..] == rest + p.pending
    && (forall k :: 0 <= k < |p.calls| ==> p.calls[k].entry == p.registered[k])
  }

  ghost predicate InLine<V>(s: State<V>) {
    forall i {:trigger s.promises[i]} :: 0 <= i < |s.promises| ==> LinedUp(s.promises[i], Rest(s, i))
  }

  ghost predicate EntriesInTable<V>(s: State<V>) {
    forall i, k {:trigger s.promises[i].registered[k]} ::
      0 <= i < |s.promises| && 0 <= k < |s.promises[i].registered| ==> InTable(s, s.promises[i].registered[k])
  }

  ghost predicate FramesInTable<V>(s: State<V>) {
    forall f :: 0 <= f < |s.looking| ==> FrameInTable(s, s.looking[f])
  }

  ghost predicate PairsInTable<V>(s: State<V>) {
    forall k :: 0 <= k < |s.pairs| ==> s.pairs[k].promise < |s.promises|
  }

  ghost predicate QueueInTable<V>(s: State<V>) {
    forall i :: i in s.queue ==> i < |s.promises|
  }

  ghost predicate TurnInTable<V>(s: State<V>) {
    && (!s.turn.Idle? ==> s.turn.promise < |s.promises|)
    && (s.turn.Calling? ==> s.turn.child < |s.promises|)
  }

  ghost predicate Sane<V>(s: State<V>) {
    InLine(s) && EntriesInTable(s) && FramesInTable(s) && PairsInTable(s) && QueueInTable(s) && TurnInTable(s)
  }

  /** Nothing was dealt with, the turn stands where it stood, and nothing registered was lost. */
  ghost predicate Calm<V>(s: State<V>, t: State<V>) {
    && |s.promises| <= |t.promises| && |s.pairs| <= |t.pairs| && t.turn == s.turn
    && (forall i {:trigger t.promises[i]} :: 0 <= i < |s.promises| ==>
          t.promises[i].calls == s.promises[i].calls && s.promises[i].registered <= t.promises[i].registered)
    && (forall i {:trigger t.promises[i]} :: |s.promises| <= i < |t.promises| ==> t.promises[i].calls == [])
  }

  lemma {:induction false} CalmSelf<V>(s: State<V>)
    ensures Calm(s, s)
  {
  }

  lemma {:induction false} CalmOn<V>(s: State<V>, t: State<V>, u: State<V>)
    requires Calm(s, t) && Calm(t, u)
    ensures Calm(s, u)
  {
    forall i | 0 <= i < |s.promises|
      ensures u.promises[i].calls == s.promises[i].calls && s.promises[i].registered <= u.promises[i].registered
    {
      assert s.promises[i].registered <= t.promises[i].registered <= u.promises[i].registered;
    }
    forall i | |s.promises| <= i < |u.promises| ensures u.promises[i].calls == [] {
      if i < |t.promises| { assert t.promises[i].calls == []; }
    }
  }

  /** Only promise `i` differs. */
  ghost predicate OnlyAt<V>(s: State<V>, t: State<V>, i: nat) {
    && |t.promises| == |s.promises| && t.turn == s.turn && |s.pairs| <= |t.pairs|
    && forall j {:trigger t.promises[j]} :: 0 <= j < |s.promises| && j != i ==> t.promises[j] == s.promises[j]
  }

  lemma {:induction false} SameTables<V>(s: State<V>, t: State<V>)
    requires EntriesInTable(s) && FramesInTable(s) && t.looking == s.looking
    requires |s.promises| <= |t.promises| && |s.pairs| <= |t.pairs|
    requires forall i {:trigger t.promises[i]} :: 0 <= i < |s.promises| ==> t.promises[i].registered == s.promises[i].registered
    requires forall i {:trigger t.promises[i]} :: |s.promises| <= i < |t.promises| ==> t.promises[i].registered == []
    ensures EntriesInTable(t) && FramesInTable(t)
  {
    forall i, k | 0 <= i < |t.promises| && 0 <= k < |t.promises[i].registered| ensures InTable(t, t.promises[i].registered[k]) {
      assert InTable(s, s.promises[i].registered[k]);
    }
    forall f | 0 <= f < |t.looking| ensures FrameInTable(t, t.looking[f]) {
      assert FrameInTable(s, s.looking[f]);
    }
  }

  lemma {:induction false} SameLine<V>(s: State<V>, t: State<V>, i: nat)
    requires InLine(s) && OnlyAt(s, t, i) && i < |s.promises| && LinedUp(t.promises[i], Rest(t, i))
    ensures InLine(t)
  {
    hide LinedUp;
  }

  lemma {:induction false} OneLinedUp<V>(s: State<V>, i: nat)
    requires InLine(s) && i < |s.promises|
    ensures LinedUp(s.promises[i], Rest(s, i))
  {
  }

  /** Promise `i` gets another outcome or is asked to have a turn. */
  lemma {:induction false} UpdateSane<V>(s: State<V>, t: State<V>, i: nat)
    requires Sane(s) && OnlyAt(s, t, i) && i < |s.promises| && t.looking == s.looking && PairsInTable(t)
    requires forall j :: j in t.queue ==> j in s.queue || j == i
    requires t.promises[i].registered == s.promises[i].registered && t.promises[i].calls == s.promises[i].calls
    requires t.promises[i].pending == s.promises[i].pending
    ensures Sane(t) && Calm(s, t)
  {
    hide EntriesInTable, FramesInTable, InLine;
    OneLinedUp(s, i);
    SameLine(s, t, i);
    SameTables(s, t);
  }

  lemma {:induction false} NewSane<V>(s: State<V>)
    requires Sane(s)
    ensures Sane(NewPromise(s)) && Calm(s, NewPromise(s))
  {
    hide EntriesInTable, FramesInTable, LinedUp;
    SameTables(s, NewPromise(s));
    NothingInLine<V>();
  }

  lemma {:induction false} NothingInLine<V>()
    ensures LinedUp(Promise<V>.Promise(PENDING, Undefined, [], false, [], []), [])
  {
  }

  lemma {:induction false} ScheduleSane<V>(s: State<V>, i: nat)
    requires Sane(s) && i < |s.promises|
    ensures Sane(Schedule(s, i)) && Calm(s, Schedule(s, i))
  {
    hide EntriesInTable, FramesInTable, InLine, Calm;
    CalmSelf(s);
    var p := s.promises[i];
    if !p.scheduled && p.pending != [] { UpdateSane(s, Schedule(s, i), i); }
  }

  lemma {:induction false} RegisterSane<V>(s: State<V>, i: nat, e: Entry)
    requires Sane(s) && i < |s.promises| && InTable(s, e)
    ensures Sane(Register(s, i, e)) && Calm(s, Register(s, i, e))
  {
    hide InLine;
    var t := Register(s, i, e);
    OneLinedUp(s, i);
    RegisteredLine(s.promises[i], e, Rest(s, i));
    SameLine(s, t, i);
    forall j, k | 0 <= j < |t.promises| && 0 <= k < |t.promises[j].registered| ensures InTable(t, t.promises[j].registered[k]) {
      if j != i || k < |s.promises[j].registered| { assert InTable(s, s.promises[j].registered[k]); }
    }
    forall f | 0 <= f < |t.looking| ensures FrameInTable(t, t.looking[f]) { assert FrameInTable(s, s.looking[f]); }
  }

  lemma {:induction false} RegisteredLine<V>(p: Promise<V>, e: Entry, rest: seq<Entry>)
    requires LinedUp(p, rest)
    ensures LinedUp(p.(pending := p.pending + [e], registered := p.registered + [e]), rest)
  {
    var q := p.(pending := p.pending + [e], registered := p.registered + [e]);
    assert q.registered[|q.calls|..] == p.registered[|p.calls|..] + [e];
  }

  lemma {:induction false} ThenSane<V>(s: State<V>, i: nat, onOk: Callback, onErr: Callback, progress: bool)
    requires Sane(s) && i < |s.promises|
    requires onOk.Settler? ==> onOk.pair < |s.pairs|
    requires onErr.Settler? ==> onErr.pair < |s.pairs|
    ensures Sane(Then(s, i, onOk, onErr, progress)) && Calm(s, Then(s, i, onOk, onErr, progress))
    ensures Then(s, i, onOk, onErr, progress).looking == s.looking
  {
    hide Sane, Calm;
    CalmSelf(s);
    if !(onOk.Missing? && onErr.Missing? && !progress) {
      var e := Entry(|s.promises|, onOk, onErr);
      var t := NewPromise(s);
      NewSane(s);
      RegisterSane(t, i, e);
      var u := Register(t, i, e);
      CalmOn(s, t, u);
      if u.promises[i].status > 0 {
        ScheduleSane(u, i);
        CalmOn(s, u, Schedule(u, i));
      }
    }
  }

  lemma {:induction false} SettleSane<V>(s: State<V>, i: nat, status: int, v: Value<V>)
    requires Sane(s) && i < |s.promises|
    ensures Sane(Settle(s, i, status, v)) && Calm(s, Settle(s, i, status, v)) && Settle(s, i, status, v).looking == s.looking
    ensures |Settle(s, i, status, v).promises| == |s.promises| && Settle(s, i, status, v).pairs == s.pairs
  {
    hide EntriesInTable, FramesInTable, InLine, Calm;
    UpdateSane(s, Settle(s, i, status, v), i);
  }

  lemma {:induction false} LockSane<V>(s: State<V>, i: nat)
    requires Sane(s) && i < |s.promises|
    ensures Sane(SetLocked(s, i)) && Calm(s, SetLocked(s, i))
    ensures Sane(AddPair(s, i)) && Calm(s, AddPair(s, i))
    ensures Sane(Lock(s, i)) && Calm(s, Lock(s, i))
  {
    hide EntriesInTable, FramesInTable, InLine, Calm;
    UpdateSane(s, SetLocked(s, i), i);
    UpdateSane(s, AddPair(s, i), i);
    UpdateSane(s, Lock(s, i), i);
  }

  lemma {:induction false} UsedSane<V>(s: State<V>, k: nat)
    requires Sane(s) && k < |s.pairs|
    ensures s.pairs[k].promise < |s.promises| && Sane(Used(s, k)) && Calm(s, Used(s, k))
  {
    hide EntriesInTable, FramesInTable, InLine, Calm;
    UpdateSane(s, Used(s, k), s.pairs[k].promise);
  }

  lemma {:induction false} PushSane<V>(s: State<V>, f: Frame<V>)
    requires Sane(s) && FrameInTable(s, f)
    ensures Sane(Push(s, f)) && Calm(s, Push(s, f))
  {
    hide LinedUp;
    assert InLine(Push(s, f)) by {
      forall i | 0 <= i < |s.promises| ensures Rest(Push(s, f), i) == Rest(s, i) { }
    }
  }

  lemma {:induction false} PopSane<V>(s: State<V>)
    requires Sane(s) && s.looking != []
    ensures Sane(Pop(s)) && Calm(s, Pop(s)) && FrameInTable(Pop(s), Top(s))
  {
    hide LinedUp;
    assert FrameInTable(s, Top(s));
    assert InLine(Pop(s)) by {
      forall i | 0 <= i < |s.promises| ensures Rest(Pop(s), i) == Rest(s, i) { }
    }
  }

  lemma {:induction false} ResolveInnerSane<V>(s: State<V>, i: nat, v: Value<V>)
    requires Sane(s) && i < |s.promises| && !v.Object?
    ensures Sane(ResolveInner(s, i, v)) && Calm(s, ResolveInner(s, i, v)) && ResolveInner(s, i, v).looking == s.looking
  {
    hide Sane, Calm, Settle, Then;
    SettleSane(s, i, FULFILLED, v);
    if v.Ref? && v.p < |s.promises| {
      LockSane(s, i);
      var n := |s.pairs|;
      ThenSane(Lock(s, i), v.p, Settler(n, true), Settler(n, false), true);
      CalmOn(s, Lock(s, i), ResolveInner(s, i, v));
    }
  }

  lemma {:induction false} ResolveSane<V>(s: State<V>, i: nat, v: Value<V>)
    requires Sane(s) && i < |s.promises|
    ensures Sane(Resolve(s, i, v)) && Calm(s, Resolve(s, i, v))
    ensures Sane(Reject(s, i, v)) && Calm(s, Reject(s, i, v))
  {
    hide Sane, Calm, Settle, ResolveInner;
    CalmSelf(s);
    SettleSane(s, i, REJECTED, CycleError);
    SettleSane(s, i, REJECTED, v);
    if v.Object? { PushSane(s, Fresh(i, v)); } else { ResolveInnerSane(s, i, v); }
  }

  lemma {:induction false} DoneSane<V>(s: State<V>, t: State<V>, c: Caller)
    requires Sane(t) && Calm(s, t)
    ensures Sane(Done(t, c)) && Calm(s, Done(t, c))
  {
    hide Sane, Calm, Resolve;
    if c.Reaction? && c.child < |t.promises| {
      ResolveSane(t, c.child, Undefined);
      CalmOn(s, t, Done(t, c));
    }
  }

  lemma {:induction false} CallPairSane<V>(s: State<V>, k: nat, ok: bool, v: Value<V>, c: Caller)
    requires Sane(s) && k < |s.pairs| && CallerInTable(s, c)
    ensures s.pairs[k].promise < |s.promises|
    ensures Sane(CallPair(s, k, ok, v, c)) && Calm(s, CallPair(s, k, ok, v, c))
  {
    hide Sane, Calm, Settle, ResolveInner, Done;
    UsedSane(s, k);
    CalmSelf(s);
    var t, i := Used(s, k), s.pairs[k].promise;
    if s.pairs[k].used {
      DoneSane(s, s, c);
    } else if !ok {
      SettleSane(t, i, REJECTED, v);
      CalmOn(s, t, Settle(t, i, REJECTED, v));
      DoneSane(s, Settle(t, i, REJECTED, v), c);
    } else if v.Object? {
      LockSane(t, i);
      var u := AddPair(t, i);
      CalmOn(s, t, u);
      PushSane(u, OfPair(i, v, |s.pairs|, c));
      CalmOn(s, u, CallPair(s, k, ok, v, c));
    } else {
      ResolveInnerSane(t, i, v);
      CalmOn(s, t, ResolveInner(t, i, v));
      DoneSane(s, ResolveInner(t, i, v), c);
    }
  }

  lemma {:induction false} DecideSane<V>(s: State<V>, f: Frame<V>, o: Looking<V>)
    requires Sane(s) && FrameInTable(s, f) && !f.Handing?
    ensures Sane(Decide(s, f, o)) && Calm(s, Decide(s, f, o))
  {
    hide Sane, Calm, Settle, Done, Lock, SetLocked;
    match f
    case Fresh(i, v) =>
      LockSane(s, i);
      PushSane(Lock(s, i), Handing(Script));
      CalmOn(s, Lock(s, i), Push(Lock(s, i), Handing(Script)));
      SettleSane(s, i, FULFILLED, v);
      if o.Throws? { SettleSane(s, i, REJECTED, o.error); }
    case OfPair(i, v, n, c) =>
      LockSane(s, i);
      UsedSane(s, n);
      LockedSizes(s, i);
      PushSane(SetLocked(s, i), Handing(c));
      CalmOn(s, SetLocked(s, i), Push(SetLocked(s, i), Handing(c)));
      SettledSane(s, n, i, FULFILLED, v, c);
      if o.Throws? { SettledSane(s, n, i, REJECTED, o.error, c); }
  }

  lemma {:induction false} LockedSizes<V>(s: State<V>, i: nat)
    requires i < |s.promises|
    ensures |SetLocked(s, i).promises| == |s.promises| && |SetLocked(s, i).pairs| == |s.pairs|
    ensures |Lock(s, i).promises| == |s.promises| && |Lock(s, i).pairs| == |s.pairs| + 1
  {
  }

  lemma {:induction false} SettledSane<V>(s: State<V>, n: nat, i: nat, status: int, v: Value<V>, c: Caller)
    requires Sane(s) && n < |s.pairs| && i < |s.promises|
    ensures Sane(Done(Settle(Used(s, n), i, status, v), c)) && Calm(s, Done(Settle(Used(s, n), i, status, v), c))
  {
    hide Sane, Calm, Settle, Done;
    UsedSane(s, n);
    SettleSane(Used(s, n), i, status, v);
    CalmOn(s, Used(s, n), Settle(Used(s, n), i, status, v));
    DoneSane(s, Settle(Used(s, n), i, status, v), c);
  }

  // ----------------------------------------------------------------------------------- turns

  lemma {:induction false} StartSane<V>(s: State<V>)
    requires Sane(s) && s.turn.Idle? && s.queue != []
    ensures s.queue[0] < |s.promises| && Sane(StartTurn(s))
  {
    hide LinedUp, EntriesInTable, FramesInTable;
    assert s.queue[0] in s.queue;
    var i, t := s.queue[0], StartTurn(s);
    OneLinedUp(s, i);
    StartedLine(s.promises[i], Rest(s, i));
    assert InLine(t);
    SameTables(s, t);
    forall j | j in t.queue ensures j in s.queue { }
  }

  lemma {:induction false} StartedLine<V>(p: Promise<V>, rest: seq<Entry>)
    requires LinedUp(p, rest) && rest == []
    ensures LinedUp(p.(scheduled := false, pending := []), p.pending)
  {
    assert rest + p.pending == p.pending + [];
  }

  /** The entry at hand is registered, so it is in the table. */
  lemma {:induction false} NextEntry<V>(s: State<V>)
    requires Sane(s) && s.turn.Going? && s.turn.rest != []
    ensures s.turn.promise < |s.promises| && InTable(s, s.turn.rest[0])
    ensures var p := s.promises[s.turn.promise];
            |p.calls| < |p.registered| && s.turn.rest[0] == p.registered[|p.calls|]
  {
    var i := s.turn.promise;
    var p := s.promises[i];
    OneLinedUp(s, i);
    assert (s.turn.rest + p.pending)[0] == p.registered[|p.calls|];
  }

  lemma {:induction false} TakeSane<V>(s: State<V>)
    requires Sane(s) && s.turn.Going? && s.turn.rest != []
    ensures s.turn.promise < |s.promises| && Sane(TakeEntry(s)) && InTable(TakeEntry(s), s.turn.rest[0])
    ensures SameAhead(s, TakeEntry(s))
  {
    hide LinedUp, EntriesInTable, FramesInTable;
    NextEntry(s);
    var i, t := s.turn.promise, TakeEntry(s);
    OneLinedUp(s, i);
    TakenLine(s.promises[i], s.turn.rest);
    assert InLine(t);
    SameTables(s, t);
  }

  lemma {:induction false} TakenLine<V>(p: Promise<V>, rest: seq<Entry>)
    requires LinedUp(p, rest) && rest != []
    ensures LinedUp(p.(calls := p.calls + [Call(rest[0], p.status == FULFILLED, p.value)]), rest[1..])
  {
    var w := rest + p.pending;
    assert p.registered[|p.calls|] == w[0] == rest[0];
    assert p.registered[|p.calls|..][1..] == p.registered[|p.calls| + 1..];
    assert w[1..] == rest[1..] + p.pending;
  }

  /** Changing where the turn stands, but not its list. */
  lemma {:induction false} TurnSane<V>(s: State<V>, turn: Turn)
    requires Sane(s) && (s.turn.Idle? ==> turn.Idle?) && (turn.Idle? && !s.turn.Idle? ==> s.turn.rest == [])
    requires !turn.Idle? ==> turn.promise == s.turn.promise && turn.rest == s.turn.rest
    requires turn.Calling? ==> turn.child < |s.promises|
    ensures Sane(s.(turn := turn)) && SameAhead(s, s.(turn := turn)) && Grows(s, s.(turn := turn))
  {
    hide LinedUp, EntriesInTable, FramesInTable;
    var t := s.(turn := turn);
    assert InLine(t) by {
      forall i | 0 <= i < |t.promises| ensures LinedUp(t.promises[i], Rest(t, i)) {
        OneLinedUp(s, i);
        assert Rest(t, i) == Rest(s, i);
      }
    }
    SameTables(s, t);
  }

  /** How many entries of a promise are dealt with or about to be in the turn that is running. */
  function Ahead<V>(s: State<V>, i: nat): nat {
    if i < |s.promises| then |s.promises[i].calls| + |Rest(s, i)| else 0
  }

  ghost predicate SameAhead<V>(s: State<V>, t: State<V>) {
    forall i: nat {:trigger Ahead(t, i)} :: Ahead(t, i) == Ahead(s, i)
  }

  /** What was registered or dealt with stays so. */
  ghost predicate Grows<V>(s: State<V>, t: State<V>) {
    && |s.promises| <= |t.promises| && |s.pairs| <= |t.pairs|
    && (forall i {:trigger t.promises[i]} :: 0 <= i < |s.promises| ==>
          s.promises[i].registered <= t.promises[i].registered && s.promises[i].calls <= t.promises[i].calls)
  }

  lemma {:induction false} GrowsOn<V>(s: State<V>, t: State<V>, u: State<V>)
    requires Grows(s, t) && Grows(t, u)
    ensures Grows(s, u)
    ensures SameAhead(s, t) && SameAhead(t, u) ==> SameAhead(s, u)
  {
    forall i | 0 <= i < |s.promises|
      ensures s.promises[i].registered <= u.promises[i].registered && s.promises[i].calls <= u.promises[i].calls
    {
      assert s.promises[i].registered <= t.promises[i].registered && s.promises[i].calls <= t.promises[i].calls;
    }
    if SameAhead(s, t) && SameAhead(t, u) {
      forall i: nat ensures Ahead(u, i) == Ahead(s, i) { assert Ahead(t, i) == Ahead(s, i); }
    }
  }

  lemma {:induction false} CalmGrows<V>(s: State<V>, t: State<V>)
    requires Calm(s, t) && TurnInTable(s)
    ensures Grows(s, t) && SameAhead(s, t)
  {
  }

  /** A step that is calm once the turn has moved. */
  lemma {:induction false} CalmAfter<V>(s: State<V>, t: State<V>, u: State<V>)
    requires Grows(s, t) && SameAhead(s, t) && Calm(t, u) && Sane(t)
    ensures Grows(s, u) && SameAhead(s, u)
  {
    hide Calm, SameAhead;
    CalmGrows(t, u);
    GrowsOn(s, t, u);
  }

  lemma {:induction false} HandleSane<V>(s: State<V>, e: Entry, status: int, v: Value<V>)
    requires Sane(s) && s.turn.Going? && InTable(s, e)
    ensures forall k :: 0 <= k < |s.pairs| ==> s.pairs[k].promise < |s.promises|
    ensures Sane(Handle(s, e, status, v)) && Grows(s, Handle(s, e, status, v)) && SameAhead(s, Handle(s, e, status, v))
    ensures !CallbackAt(e, status).User? ==> Handle(s, e, status, v).turn == s.turn
  {
    hide InLine, EntriesInTable, FramesInTable, Calm, Resolve, Reject, CallPair, SameAhead, Grows;
    match CallbackAt(e, status)
    case User(_) => TurnSane(s, Calling(s.turn.promise, s.turn.rest, e.child));
    case Settler(k, ok) =>
      CallPairSane(s, k, ok, v, Reaction(e.child));
      CalmGrows(s, CallPair(s, k, ok, v, Reaction(e.child)));
      CalmTurn(s, CallPair(s, k, ok, v, Reaction(e.child)));
    case _ =>
      ResolveSane(s, e.child, v);
      CalmGrows(s, Resolve(s, e.child, v));
      CalmGrows(s, Reject(s, e.child, v));
      CalmTurn(s, Resolve(s, e.child, v));
      CalmTurn(s, Reject(s, e.child, v));
  }

  lemma {:induction false} CalmTurn<V>(s: State<V>, t: State<V>)
    requires Calm(s, t)
    ensures t.turn == s.turn && |s.promises| <= |t.promises|
  {
  }

  // ------------------------------------------------------------------------------------ steps

  ghost function Step<V>(s: State<V>, a: Action<V>): State<V>
    requires Sane(s)
  {
    match a
    case New => NewPromise(s)
    case CallThen(i, onOk, onErr, progress) =>
      if i < |s.promises| && UserCallback(onOk) && UserCallback(onErr) then Then(s, i, onOk, onErr, progress) else s
    case CallResolve(i, v) => if i < |s.promises| then Resolve(s, i, v) else s
    case CallReject(i, v) => if i < |s.promises| then Reject(s, i, v) else s
    case UsePair(k, ok, v) => if k < |s.pairs| && !Held(s, k) then CallPair(s, k, ok, v, Script) else s
    case Looked(o) =>
      if s.looking != [] && !Top(s).Handing? then
        PopSane(s);
        Decide(Pop(s), Top(s), o)
      else s
    case Handed => if s.looking != [] && Top(s).Handing? then Done(Pop(s), Top(s).caller) else s
    case Start =>
      if s.looking == [] && s.turn.Idle? && s.queue != [] then
        assert s.queue[0] in s.queue;
        StartTurn(s)
      else s
    case Take =>
      if s.looking == [] && s.turn.Going? && s.turn.rest != [] then
        var p, e := s.promises[s.turn.promise], s.turn.rest[0];
        TakeSane(s);
        Handle(TakeEntry(s), e, p.status, p.value)
      else s
    case Return(v) => if s.looking == [] && s.turn.Calling? then Resolve(Back(s), s.turn.child, v) else s
    case Throw(v) => if s.looking == [] && s.turn.Calling? then Reject(Back(s), s.turn.child, v) else s
    case Finish => if s.looking == [] && s.turn.Going? && s.turn.rest == [] then s.(turn := Idle) else s
  }

  lemma {:induction false} BackSane<V>(s: State<V>)
    requires Sane(s) && s.turn.Calling?
    ensures Sane(Back(s)) && Grows(s, Back(s)) && SameAhead(s, Back(s)) && s.turn.child < |s.promises|
  {
    hide InLine, EntriesInTable, FramesInTable, Grows, SameAhead;
    TurnSane(s, Going(s.turn.promise, s.turn.rest));
  }

  /** The actions of the user's code, inside whatever runs it. */
  predicate UserAction<V>(a: Action<V>) {
    a.New? || a.CallThen? || a.CallResolve? || a.CallReject? || a.UsePair? || a.Looked? || a.Handed?
  }

  lemma {:induction false} UserStepCalm<V>(s: State<V>, a: Action<V>)
    requires Sane(s) && UserAction(a)
    ensures Sane(Step(s, a)) && Calm(s, Step(s, a))
  {
    hide Sane, Calm, Resolve, Reject, CallPair, Then, Decide, Done;
    CalmSelf(s);
    match a
    case New => NewSane(s);
    case CallThen(i, onOk, onErr, progress) =>
      if i < |s.promises| && UserCallback(onOk) && UserCallback(onErr) { ThenSane(s, i, onOk, onErr, progress); }
    case CallResolve(i, v) => if i < |s.promises| { ResolveSane(s, i, v); }
    case CallReject(i, v) => if i < |s.promises| { ResolveSane(s, i, v); }
    case UsePair(k, ok, v) => if k < |s.pairs| && !Held(s, k) { CallPairSane(s, k, ok, v, Script); }
    case Looked(o) =>
      if s.looking != [] && !Top(s).Handing? {
        PopSane(s);
        DecideSane(Pop(s), Top(s), o);
        CalmOn(s, Pop(s), Step(s, a));
      }
    case Handed =>
      if s.looking != [] && Top(s).Handing? {
        PopSane(s);
        DoneSane(s, Pop(s), Top(s).caller);
      }
  }

  /** Every step keeps the tables and the order of the entries, and only the start of a turn brings
    * further callbacks within reach, whatever the user's code does and wherever it runs. */
  lemma {:induction false} StepSane<V>(s: State<V>, a: Action<V>)
    requires Sane(s)
    ensures Sane(Step(s, a)) && Grows(s, Step(s, a))
    ensures !a.Start? ==> SameAhead(s, Step(s, a))
  {
    hide InLine, EntriesInTable, FramesInTable, Calm, Resolve, Reject, Handle, TakeEntry, SameAhead, Grows, Step;
    if UserAction(a) {
      UserStepCalm(s, a);
      CalmGrows(s, Step(s, a));
    } else {
      TurnStepSane(s, a);
    }
  }

  lemma {:induction false} TurnStepSane<V>(s: State<V>, a: Action<V>)
    requires Sane(s) && !UserAction(a)
    ensures Sane(Step(s, a)) && Grows(s, Step(s, a))
    ensures !a.Start? ==> SameAhead(s, Step(s, a))
  {
    hide Sane, Calm, Resolve, Reject, Handle, TakeEntry, SameAhead, Grows, StartTurn;
    SelfGrows(s);
    match a
    case Start =>
      if s.looking == [] && s.turn.Idle? && s.queue != [] {
        StartSane(s);
        StartGrows(s);
      }
    case Take =>
      if s.looking == [] && s.turn.Going? && s.turn.rest != [] {
        TakeSane(s);
        var p, e, t := s.promises[s.turn.promise], s.turn.rest[0], TakeEntry(s);
        TakenGoing(s);
        HandleSane(t, e, p.status, p.value);
        GrowsOn(s, t, Step(s, a));
      }
    case Return(v) =>
      if s.looking == [] && s.turn.Calling? {
        BackSane(s);
        ResolveSane(Back(s), s.turn.child, v);
        CalmAfter(s, Back(s), Step(s, a));
      }
    case Throw(v) =>
      if s.looking == [] && s.turn.Calling? {
        BackSane(s);
        ResolveSane(Back(s), s.turn.child, v);
        CalmAfter(s, Back(s), Step(s, a));
      }
    case Finish => if s.looking == [] && s.turn.Going? && s.turn.rest == [] { TurnSane(s, Idle); }
  }

  lemma {:induction false} SelfGrows<V>(s: State<V>)
    ensures Grows(s, s) && SameAhead(s, s)
  {
  }

  lemma {:induction false} StartGrows<V>(s: State<V>)
    requires s.turn.Idle? && s.queue != [] && s.queue[0] < |s.promises|
    ensures Grows(s, StartTurn(s))
  {
  }

  lemma {:induction false} TakenGoing<V>(s: State<V>)
    requires s.turn.Going? && s.turn.rest != [] && s.turn.promise < |s.promises|
    ensures TakeEntry(s).turn.Going? && Grows(s, TakeEntry(s))
  {
  }

  // ------------------------------------------------------------------------------ whole runs

  ghost function Run<V>(s: State<V>, acts: seq<Action<V>>): (t: State<V>)
    requires Sane(s)
    ensures Sane(t)
    decreases |acts|
  {
    if acts == [] then s
    else
      StepSane(s, acts[0]);
      Run(Step(s, acts[0]), acts[1..])
  }

  ghost function NoPromises<V>(): (s: State<V>)
    ensures Sane(s)
  {
    State([], [], [], Idle, [])
  }

  lemma {:induction false} RunGrows<V>(s: State<V>, acts: seq<Action<V>>)
    requires Sane(s)
    ensures Grows(s, Run(s, acts))
    decreases |acts|
  {
    hide Sane, Step, Grows;
    SelfGrows(s);
    if acts != [] {
      StepSane(s, acts[0]);
      RunGrows(Step(s, acts[0]), acts[1..]);
      GrowsOn(s, Step(s, acts[0]), Run(s, acts));
    }
  }

  /** In any state that can be reached, the entries of a promise have been dealt with in the order of
    * the calls of `then`, each at most once. */
  lemma {:induction false} AtMostOnceInOrder<V>(acts: seq<Action<V>>, i: nat)
    requires i < |Run(NoPromises<V>(), acts).promises|
    ensures var p := Run(NoPromises<V>(), acts).promises[i];
            |p.calls| <= |p.registered| && forall k :: 0 <= k < |p.calls| ==> p.calls[k].entry == p.registered[k]
  {
    hide Run;
    OneLinedUp(Run(NoPromises<V>(), acts), i);
  }

  /** Callbacks are never called at once: until the next turn starts, at most those are dealt with
    * that the running turn had already taken. */
  lemma {:induction false} NotBeforeATurn<V>(s: State<V>, acts: seq<Action<V>>, i: nat)
    requires Sane(s) && forall k :: 0 <= k < |acts| ==> !acts[k].Start?
    ensures Ahead(Run(s, acts), i) == Ahead(s, i)
    decreases |acts|
  {
    hide Sane, Step, Ahead;
    if acts != [] {
      StepSane(s, acts[0]);
      NotBeforeATurn(Step(s, acts[0]), acts[1..], i);
    }
  }

  /** The entry that `then` registers is dealt with in a turn that starts later. */
  lemma {:induction false} ThenIsLater<V>(s: State<V>, i: nat, onOk: Callback, onErr: Callback, progress: bool, acts: seq<Action<V>>)
    requires Sane(s) && i < |s.promises| && UserCallback(onOk) && UserCallback(onErr)
    requires !onOk.Missing? || !onErr.Missing? || progress
    requires forall k :: 0 <= k < |acts| ==> !acts[k].Start?
    ensures var t := Step(s, CallThen(i, onOk, onErr, progress));
            var n := |s.promises[i].registered|;
            var u := Run(s, [CallThen(i, onOk, onErr, progress)] + acts);
            && i < |t.promises| && t.promises[i].registered == s.promises[i].registered + [Entry(|s.promises|, onOk, onErr)]
            && i < |u.promises| && |u.promises[i].calls| <= n
  {
    hide Sane;
    var a := CallThen(i, onOk, onErr, progress);
    var t := Step(s, a);
    StepSane(s, a);
    assert ([a] + acts)[1..] == acts;
    NotBeforeATurn(t, acts, i);
    RunGrows(t, acts);
    AheadRegistered(s, i);
    assert Ahead(t, i) == Ahead(s, i);
  }

  lemma {:induction false} AheadRegistered<V>(s: State<V>, i: nat)
    requires Sane(s) && i < |s.promises|
    ensures Ahead(s, i) <= |s.promises[i].registered|
  {
    OneLinedUp(s, i);
    var p := s.promises[i];
    assert |p.registered[|p.calls|..]| == |Rest(s, i)| + |p.pending|;
  }

  lemma {:induction false} RunSnoc<V>(s: State<V>, acts: seq<Action<V>>, a: Action<V>)
    requires Sane(s)
    ensures Run(s, acts + [a]) == Step(Run(s, acts), a)
  {
    hide Sane, Step;
    RunConcat(s, acts, [a]);
    RunOne(Run(s, acts), a);
  }

  lemma {:induction false} RunConcat<V>(s: State<V>, a: seq<Action<V>>, b: seq<Action<V>>)
    requires Sane(s)
    ensures Run(s, a + b) == Run(Run(s, a), b)
    decreases |a|
  {
    hide Sane, Step;
    if a == [] {
      assert a + b == b;
    } else {
      StepSane(s, a[0]);
      assert (a + b)[1..] == a[1..] + b;
      RunConcat(Step(s, a[0]), a[1..], b);
    }
  }

  lemma {:induction false} RunNone<V>(s: State<V>)
    requires Sane(s)
    ensures Run(s, []) == s
  {
  }

  lemma {:induction false} RunOne<V>(s: State<V>, a: Action<V>)
    requires Sane(s)
    ensures Run(s, [a]) == Step(s, a)
  {
    hide Sane, Step;
    StepSane(s, a);
    assert [a][1..] == [];
    RunNone(Step(s, a));
  }
}
