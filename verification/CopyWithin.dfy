/** `Array.prototype.copyWithin` (section 22.1.3.3 of ECMAScript 2015), holes included. */
module CopyWithin {

  datatype Slot<T> = Hole | Item(v: T)

  /** `toAbsoluteIndex`: a negative position counts from the end. */
  function Absolute(t: int, length: nat): (k: nat)
    ensures k <= length
  {
    if t < 0 then (if t + length < 0 then 0 else t + length) else if t < length then t else length
  }

  function Min(a: int, b: int): int {
    if a < b then a else b
  }

  /** `end` is left out for `None`. */
  datatype End = None | At(k: int)

  function Finish(end: End, length: nat): (k: nat)
    ensures k <= length
  {
    match end
    case None => length
    case At(k) => Absolute(k, length)
  }

  /** How many elements are copied; none for a negative number. */
  function Count(to: nat, from: nat, final: nat, length: nat): int {
    Min(final - from, length - to)
  }

  /** The array after copying `count` elements from a snapshot of itself. */
  function Copied<T>(s: seq<Slot<T>>, to: nat, from: nat, count: int): (r: seq<Slot<T>>)
    requires count > 0 ==> to + count <= |s| && from + count <= |s|
    ensures |r| == |s|
  {
    seq(|s|, i requires 0 <= i < |s| => if to <= i < to + count then s[from + (i - to)] else s[i])
  }

  lemma {:induction false} CountFits(to: nat, from: nat, final: nat, length: nat)
    requires to <= length && from <= length && final <= length
    ensures var c := Count(to, from, final, length); c > 0 ==> to + c <= length && from + c <= length
  {
  }

  /** What the arguments ask for. */
  function Asked<T>(s: seq<Slot<T>>, target: int, start: int, end: End): seq<Slot<T>> {
    var n := |s|;
    CountFits(Absolute(target, n), Absolute(start, n), Finish(end, n), n);
    Copied(s, Absolute(target, n), Absolute(start, n), Count(Absolute(target, n), Absolute(start, n), Finish(end, n), n))
  }

  /** Outside the target range nothing changes, and inside it the source range of the array as it
    * was appears, whatever the overlap. */
  lemma {:induction false} AskedIs<T>(s: seq<Slot<T>>, target: int, start: int, end: End)
    ensures var n := |s|;
            var to, from := Absolute(target, n), Absolute(start, n);
            var count := Count(to, from, Finish(end, n), n);
            var r := Asked(s, target, start, end);
            |r| == n && (if count <= 0 then r == s
                         else r[..to] == s[..to] && r[to + count..] == s[to + count..] && r[to..to + count] == s[from..from + count])
  {
    var n := |s|;
    var to, from := Absolute(target, n), Absolute(start, n);
    var count := Count(to, from, Finish(end, n), n);
    CountFits(to, from, Finish(end, n), n);
    if count <= 0 { assert Asked(s, target, start, end) == s; }
  }

  /** The same in the arguments' own terms: a position counts from the end if it is negative, and is moved
    * to the nearest end of the array if it lies outside; an `end` left out is the length; and no more is
    * copied than fits behind the target. */
  lemma {:induction false} ArgumentsAre<T>(s: seq<Slot<T>>, target: int, start: int, end: End, i: nat)
    requires i < |s|
    ensures var n := |s|;
            var to := if target >= n then n else if target >= 0 then target else if target >= -n then n + target else 0;
            var from := if start >= n then n else if start >= 0 then start else if start >= -n then n + start else 0;
            var stop := match end
                        case None => n
                        case At(k) => if k >= n then n else if k >= 0 then k else if k >= -n then n + k else 0;
            var source := from + (i - to);
            Asked(s, target, start, end)[i] == if to <= i && source < stop && source < n then s[source] else s[i]
  {
  }

  /** What the loop has done after some rounds: forwards the first `done` elements, backwards the
    * last. */
  ghost predicate PartDone<T>(now: seq<Slot<T>>, s: seq<Slot<T>>, to: nat, from: nat, count: nat, back: bool, left: nat)
    requires to + count <= |s| && from + count <= |s| && left <= count
  {
    && |now| == |s|
    && forall i {:trigger now[i]} :: 0 <= i < |s| ==>
         now[i] == if to + (if back then left else 0) <= i < to + (if back then count else count - left)
                   then s[from + (i - to)] else s[i]
  }

  /** The element the next round reads has not been overwritten. */
  lemma {:induction false} NextIntact<T>(now: seq<Slot<T>>, s: seq<Slot<T>>, to: nat, from: nat, count: nat, back: bool, left: nat)
    requires to + count <= |s| && from + count <= |s| && 0 < left <= count
    requires PartDone(now, s, to, from, count, back, left) && back == (from < to < from + count)
    ensures var k := if back then left - 1 else count - left;
            now[from + k] == s[from + k] && PartDone(now[to + k := s[from + k]], s, to, from, count, back, left - 1)
  {
  }

  lemma {:induction false} NothingDone<T>(s: seq<Slot<T>>, to: nat, from: nat, count: nat, back: bool)
    requires to + count <= |s| && from + count <= |s|
    ensures PartDone(s, s, to, from, count, back, count)
  {
  }

  lemma {:induction false} AllDone<T>(now: seq<Slot<T>>, s: seq<Slot<T>>, to: nat, from: nat, count: nat, back: bool)
    requires to + count <= |s| && from + count <= |s| && PartDone(now, s, to, from, count, back, 0)
    ensures now == Copied(s, to, from, count)
  {
  }

  /** The copying loop: from the far end backwards when the target begins inside the source, and
    * forwards otherwise.  A missing element is deleted at its target. */
  method CopyElements<T>(e: array<Slot<T>>, to: nat, from: nat, count: nat)
    requires to + count <= e.Length && from + count <= e.Length
    modifies e
    ensures e[..] == Copied(old(e[..]), to, from, count)
  {
    hide PartDone, Copied;
    ghost var s, back := e[..], from < to < from + count;
    var c: int, a: int, f, l := to, from, count, 1;
    if a < c && c < a + f {
      l := -1;
      a := a + f - 1;
      c := c + f - 1;
    }
    NothingDone(s, to, from, count, back);
    while f > 0
      invariant 0 <= f <= count && PartDone(e[..], s, to, from, count, back, f)
      invariant l == if back then -1 else 1
      invariant c - to == a - from == if back then f - 1 else count - f
    {
      NextIntact(e[..], s, to, from, count, back, f);
      Write(e, c, a);
      f := f - 1;
      c, a := c + l, a + l;
    }
    AllDone(e[..], s, to, from, count, back);
  }

  method Write<T>(e: array<Slot<T>>, c: nat, a: nat)
    requires c < e.Length && a < e.Length
    modifies e
    ensures e[..] == old(e[..])[c := old(e[..])[a]]
  {
    e[c] := e[a];
  }

  method CopyWithin<T>(e: array<Slot<T>>, target: int, start: int, end: End)
    modifies e
    ensures e[..] == Asked(old(e[..]), target, start, end)
  {
    hide Copied;
    var u := e.Length;
    var c := Absolute(target, u);
    var a := Absolute(start, u);
    var f := Min(Finish(end, u) - a, u - c);
    CountFits(c, a, Finish(end, u), u);
    if f > 0 { CopyElements(e, c, a, f); } else { NothingCopied(e[..], c, a, f); }
  }

  lemma {:induction false} NothingCopied<T>(s: seq<Slot<T>>, to: nat, from: nat, count: int)
    requires count <= 0
    ensures Copied(s, to, from, count) == s
  {
  }
}
