/** Which entry a key is taken for.  Keys that have an index key are told apart by it; a frozen
  * object has none, and its entry is looked for along the list with the loose comparison. */
module LooseKeys {
  import opened Expressions
  import opened OrderedMap

  /** The two things the lookup is made of: which keys have an index key, and `a == b` where the
    * two are not the same. */
  datatype Lookups<!K> = Lookups(fast: K -> bool, loose: (K, K) -> bool)

  predicate LooselyEqual<K(==)>(rule: Lookups<K>, a: K, b: K) {
    a == b || rule.loose(a, b)
  }

  /** The first live slot whose key is loosely equal to `k`, or the length. */
  function FindLoose<K(==), V>(s: seq<Slot<K, V>>, rule: Lookups<K>, k: K): (i: nat)
    ensures i <= |s|
    ensures i < |s| ==> !s[i].removed && LooselyEqual(rule, s[i].key, k)
    ensures forall j :: 0 <= j < i ==> s[j].removed || !LooselyEqual(rule, s[j].key, k)
  {
    if s == [] then 0
    else if !s[0].removed && LooselyEqual(rule, s[0].key, k) then 0
    else 1 + FindLoose(s[1..], rule, k)
  }

  /** The place `getEntry` finds. */
  function Located<K(==), V>(s: seq<Slot<K, V>>, rule: Lookups<K>, k: K): (i: nat)
    ensures i <= |s|
    ensures i < |s| ==> !s[i].removed
  {
    if rule.fast(k) then Find(s, k) else FindLoose(s, rule, k)
  }

  /** The key whose entry that is; `k` itself if there is none. */
  function Meant<K(==), V>(s: seq<Slot<K, V>>, rule: Lookups<K>, k: K): K {
    var i := Located(s, rule, k);
    if i < |s| then s[i].key else k
  }

  /** A frozen key meets no other key loosely equal to it before its own entry. */
  ghost predicate Told<K, V>(s: seq<Slot<K, V>>, rule: Lookups<K>, k: K) {
    rule.fast(k) || forall j :: 0 <= j < Find(s, k) && !s[j].removed ==> !rule.loose(s[j].key, k)
  }

  /** A key is taken for itself if and only if it is told apart like this. */
  lemma {:induction false} MeantExactly<K, V>(s: seq<Slot<K, V>>, rule: Lookups<K>, k: K)
    requires Unique(s)
    ensures Meant(s, rule, k) == k <==> Told(s, rule, k)
  {
    FindFirst(s, k);
    if Meant(s, rule, k) == k && Located(s, rule, k) < |s| {
      FindUnique(s, k, Located(s, rule, k));
    }
  }

  /** What the lookup finds is the entry of the key meant. */
  lemma {:induction false} LocatedIsMeant<K, V>(s: seq<Slot<K, V>>, rule: Lookups<K>, k: K)
    requires Unique(s)
    ensures Find(s, Meant(s, rule, k)) == Located(s, rule, k)
  {
    var i := Located(s, rule, k);
    FindFirst(s, k);
    FindUnique(s, Meant(s, rule, k), i);
  }

  /** An operation done to the entry of the key meant. */
  function Intended<K(==), V>(s: seq<Slot<K, V>>, rule: Lookups<K>, op: Op<K, V>): Op<K, V> {
    match op
    case Set(k, v) => Set(Meant(s, rule, k), v)
    case Delete(k) => Delete(Meant(s, rule, k))
    case _ => op
  }

  ghost predicate OpTold<K, V>(s: seq<Slot<K, V>>, rule: Lookups<K>, op: Op<K, V>) {
    match op
    case Set(k, _) => Told(s, rule, k)
    case Delete(k) => Told(s, rule, k)
    case _ => true
  }

  function IntendedAll<K(==), V>(x: Iteration<K, V>, rule: Lookups<K>, ops: seq<Op<K, V>>): seq<Op<K, V>>
    requires Sound(x)
    decreases ops
  {
    if ops == [] then []
    else
      var op := Intended(x.slots, rule, ops[0]);
      StepSound(x, op);
      [op] + IntendedAll(Step(x, op), rule, ops[1..])
  }

  lemma {:induction false} IntendedNext<K, V>(x: Iteration<K, V>, rule: Lookups<K>, ops: seq<Op<K, V>>)
    requires Sound(x) && ops != []
    ensures x.cursor <= |x.slots|
    ensures var y := Step(x, Intended(x.slots, rule, ops[0]));
            Sound(y) && Steps(x, IntendedAll(x, rule, ops)) == Steps(y, IntendedAll(y, rule, ops[1..]))
  {
    var op := Intended(x.slots, rule, ops[0]);
    StepSound(x, op);
    var more := IntendedAll(Step(x, op), rule, ops[1..]);
    assert ([op] + more)[0] == op && ([op] + more)[1..] == more;
  }

  /** Every key used in a run is told apart when it is used. */
  ghost predicate AllTold<K, V>(x: Iteration<K, V>, rule: Lookups<K>, ops: seq<Op<K, V>>)
    requires Sound(x)
    decreases ops
  {
    ops == [] || (StepSound(x, ops[0]); OpTold(x.slots, rule, ops[0]) && AllTold(Step(x, ops[0]), rule, ops[1..]))
  }

  lemma {:induction false} IntendedExactly<K, V>(s: seq<Slot<K, V>>, rule: Lookups<K>, op: Op<K, V>)
    requires Unique(s)
    ensures Intended(s, rule, op) == op <==> OpTold(s, rule, op)
  {
    match op
    case Set(k, _) => MeantExactly(s, rule, k);
    case Delete(k) => MeantExactly(s, rule, k);
    case _ =>
  }

  /** A run does what was asked for, operation by operation, if and only if every key in it is told
    * apart from the others. */
  lemma {:induction false} RunAsAsked<K, V>(x: Iteration<K, V>, rule: Lookups<K>, ops: seq<Op<K, V>>)
    requires Sound(x)
    ensures IntendedAll(x, rule, ops) == ops <==> AllTold(x, rule, ops)
    decreases ops
  {
    if ops != [] {
      var op := Intended(x.slots, rule, ops[0]);
      IntendedExactly(x.slots, rule, ops[0]);
      StepSound(x, op);
      var rest := IntendedAll(Step(x, op), rule, ops[1..]);
      assert ([op] + rest)[0] == op && ([op] + rest)[1..] == rest;
      assert ops == [ops[0]] + ops[1..];
      if op == ops[0] {
        RunAsAsked(Step(x, op), rule, ops[1..]);
      }
    }
  }

  /** Keys of two kinds: texts, and objects of which some are frozen and print as some text. */
  datatype Key = Text(t: string) | Object(id: nat, frozen: bool, prints: string)

  function KeysOfTwoKinds(): Lookups<Key> {
    Lookups((k: Key) => k.Text? || !k.frozen, (a: Key, b: Key) => a.Text? && b.Object? && a.t == b.prints)
  }

  /** With an entry for the text "[object Object]", looking up a frozen object without one gives
    * that entry, and setting it writes there. */
  lemma {:induction false} FrozenTakenForText<V>(id: nat, v: V, w: V)
    ensures var text, thing := Text("[object Object]"), Object(id, true, "[object Object]");
            var s := SetSlot([], text, v);
            && Lookup(s, thing) == None
            && Lookup(s, Meant(s, KeysOfTwoKinds(), thing)) == Some(v)
            && Lookup(SetSlot(s, Meant(s, KeysOfTwoKinds(), thing), w), text) == Some(w)
  {
    var text, thing := Text("[object Object]"), Object(id, true, "[object Object]");
    var s: seq<Slot<Key, V>> := SetSlot([], text, v);
    assert s == [Slot(text, v, false)];
    assert LooselyEqual(KeysOfTwoKinds(), text, thing);
    assert Meant(s, KeysOfTwoKinds(), thing) == text;
    assert SetSlot(s, text, w) == [Slot(text, w, false)];
  }
}
