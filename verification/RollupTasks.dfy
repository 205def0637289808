/** The two forms of a roll-up task: the one the page edits and the one the server stores. */
module RollupTasks {

  datatype Option<T> = None | Some(value: T)

  /** A task on the page.  An execution type is a place in the list of execution types; absent is
    * what the page got for an unknown unit. */
  datatype Simple<A, G> = Simple(
    id: Option<string>, name: Option<string>, executionType: Option<nat>, complex: bool,
    save_as: Option<string>, time_zone: Option<string>, metric_name: Option<string>,
    group_by_type: Option<string>, group_by_values: Option<string>,
    aggregators: Option<seq<A>>, tags: Option<G>)

  /** A grouping by tags names them; one by time or by value has none. */
  datatype GroupBy = GroupBy(name: string, tags: Option<seq<string>>)

  datatype Metric<A, G> = Metric(name: Option<string>, tags: Option<G>, group_by: Option<seq<GroupBy>>, aggregators: Option<seq<A>>)

  datatype Interval = Interval(value: int, unit: string)

  datatype Query<A, G> = Query(metrics: seq<Metric<A, G>>, start_relative: Interval)

  datatype Rollup<A, G> = Rollup(save_as: Option<string>, time_zone: Option<string>, query: Option<Query<A, G>>)

  datatype Real<A, G> = Real(id: Option<string>, name: Option<string>, rollups: seq<Rollup<A, G>>, execution_interval: Interval)

  // ----------------------------------------------------------------------------- split and join

  /** The first place of a comma and a space, or the length. */
  function Find(s: string): (i: nat)
    ensures i <= |s| && (i < |s| ==> i + 2 <= |s| && s[i] == ',' && s[i + 1] == ' ')
  {
    if s == "" then 0
    else if |s| > 1 && s[0] == ',' && s[1] == ' ' then 0
    else 1 + Find(s[1..])
  }

  /** `s.split(", ")`. */
  function Split(s: string): (parts: seq<string>)
    ensures parts != []
    decreases |s|
  {
    var i := Find(s);
    if i == |s| then [s] else [s[..i]] + Split(s[i + 2..])
  }

  /** `parts.join(", ")`. */
  function Join(parts: seq<string>): string {
    if parts == [] then ""
    else if |parts| == 1 then parts[0]
    else parts[0] + ", " + Join(parts[1..])
  }

  lemma {:induction false} SplitThenJoin(s: string)
    ensures Join(Split(s)) == s
    decreases |s|
  {
    hide Find;
    var i := Find(s);
    if i < |s| {
      SplitThenJoin(s[i + 2..]);
      assert Split(s)[1..] == Split(s[i + 2..]);
      assert s == s[..i] + ", " + s[i + 2..];
    }
  }

  predicate HasSeparator(s: string) {
    Find(s) < |s|
  }

  lemma {:induction false} FindIn(t: string, rest: string)
    requires !HasSeparator(t)
    ensures Find(t + ", " + rest) == |t|
  {
    if t != "" {
      assert (t + ", " + rest)[1..] == t[1..] + ", " + rest;
      FindIn(t[1..], rest);
    }
  }

  lemma {:induction false} FindFirst(t: string, rest: string)
    requires HasSeparator(t)
    ensures Find(t + rest) == Find(t)
  {
    assert (t + rest)[0] == t[0];
    if |t| > 1 && t[0] == ',' && t[1] == ' ' {
      assert (t + rest)[1] == t[1];
    } else {
      assert (t + rest)[1..] == t[1..] + rest;
      FindFirst(t[1..], rest);
    }
  }

  /** No name contains the separator. */
  predicate Separate(parts: seq<string>) {
    forall k :: 0 <= k < |parts| ==> !HasSeparator(parts[k])
  }

  lemma {:induction false} SeparateRest(parts: seq<string>)
    requires parts != []
    ensures Separate(parts) <==> !HasSeparator(parts[0]) && Separate(parts[1..])
  {
    assert forall k :: 0 <= k < |parts| - 1 ==> parts[1..][k] == parts[k + 1];
    assert forall k :: 0 < k < |parts| ==> parts[k] == parts[1..][k - 1];
  }

  /** Splitting gives the joined names back exactly when there are some and none contains the
    * separator. */
  lemma {:induction false} JoinThenSplit(parts: seq<string>)
    ensures Split(Join(parts)) == parts <==> parts != [] && Separate(parts)
  {
    hide HasSeparator, Separate, Split, Find;
    if parts != [] {
      var t, rest := parts[0], Join(parts[1..]);
      SeparateRest(parts);
      assert parts == [t] + parts[1..];
      if |parts| == 1 {
        SplitOne(t);
        NoneSeparate();
      } else {
        JoinThenSplit(parts[1..]);
        SplitMore(t, rest);
      }
    }
  }

  lemma {:induction false} NoneSeparate()
    ensures Separate([])
  {
  }

  lemma {:induction false} SplitOne(t: string)
    ensures Split(t) == [t] <==> !HasSeparator(t)
  {
  }

  lemma {:induction false} SplitMore(t: string, rest: string)
    ensures if HasSeparator(t) then Split(t + ", " + rest)[0] != t else Split(t + ", " + rest) == [t] + Split(rest)
  {
    hide Find;
    var s := t + ", " + rest;
    if HasSeparator(t) {
      assert s == t + (", " + rest);
      FindFirst(t, ", " + rest);
      assert Split(s)[0] == s[..Find(t)];
    } else {
      FindIn(t, rest);
      assert s[|t| + 2..] == rest && s[..|t|] == t;
    }
  }

  // -------------------------------------------------------------------------- execution intervals

  /** The number of execution types: every minute, hour, day, week, month, year. */
  const TYPES := 6

  function Lower(c: char): char {
    if 'A' <= c <= 'Z' then (c as int + 32) as char else c
  }

  function LowerAll(s: string): string {
    if s == "" then "" else [Lower(s[0])] + LowerAll(s[1..])
  }

  function FromInterval(i: Interval): Option<nat> {
    var unit := LowerAll(i.unit);
    if unit == "milliseconds" || unit == "seconds" || unit == "minutes" then Some(0)
    else if unit == "hours" then Some(1)
    else if unit == "days" then Some(2)
    else if unit == "weeks" then Some(3)
    else if unit == "months" then Some(4)
    else if unit == "years" then Some(5)
    else None
  }

  function ToUnit(k: nat): string
    requires k < TYPES
  {
    ["minutes", "hours", "days", "weeks", "months", "years"][k]
  }

  /** No capital letter. */
  predicate IsLower(s: string) {
    forall i :: 0 <= i < |s| ==> !('A' <= s[i] <= 'Z')
  }

  lemma {:induction false} LowerSame(s: string)
    requires IsLower(s)
    ensures LowerAll(s) == s
  {
    if s != "" { LowerSame(s[1..]); }
  }

  lemma {:induction false} UnitLower(k: nat)
    requires k < TYPES
    ensures LowerAll(ToUnit(k)) == ToUnit(k)
  {
    hide LowerAll;
    LowerSame(ToUnit(k));
  }

  lemma {:induction false} IntervalBack(k: nat, v: int)
    requires k < TYPES
    ensures FromInterval(Interval(v, ToUnit(k))) == Some(k)
  {
    hide LowerAll;
    UnitLower(k);
    Units();
  }

  /** The types by their units, in letters of either case; what is run more often than every minute counts
    * as every minute. */
  lemma {:induction false} TypesByUnit(v: int)
    ensures FromInterval(Interval(v, "milliseconds")) == FromInterval(Interval(v, "seconds")) == FromInterval(Interval(v, "minutes")) == Some(0)
    ensures FromInterval(Interval(v, "hours")) == Some(1) && FromInterval(Interval(v, "days")) == Some(2)
    ensures FromInterval(Interval(v, "weeks")) == Some(3) && FromInterval(Interval(v, "months")) == Some(4)
    ensures FromInterval(Interval(v, "years")) == Some(5)
    ensures ToUnit(0) == "minutes" && ToUnit(1) == "hours" && ToUnit(2) == "days"
    ensures ToUnit(3) == "weeks" && ToUnit(4) == "months" && ToUnit(5) == "years"
  {
    hide LowerAll;
    LowerSame("milliseconds");
    LowerSame("seconds");
    forall k: nat | k < TYPES ensures LowerAll(ToUnit(k)) == ToUnit(k) { UnitLower(k); }
    assert LowerAll(ToUnit(0)) == "minutes" && LowerAll(ToUnit(1)) == "hours" && LowerAll(ToUnit(2)) == "days";
    assert LowerAll(ToUnit(3)) == "weeks" && LowerAll(ToUnit(4)) == "months" && LowerAll(ToUnit(5)) == "years";
    Units();
  }

  lemma {:induction false} EitherCase(i: Interval, unit: string)
    requires |unit| == |i.unit|
    requires forall k :: 0 <= k < |unit| ==> unit[k] == i.unit[k] || ('A' <= unit[k] <= 'Z' && i.unit[k] as int == unit[k] as int + 32)
    requires IsLower(i.unit)
    ensures FromInterval(Interval(i.value, unit)) == FromInterval(i)
  {
    SameLower(i.unit, unit);
  }

  lemma {:induction false} SameLower(a: string, b: string)
    requires |a| == |b| && IsLower(a)
    requires forall k :: 0 <= k < |b| ==> b[k] == a[k] || ('A' <= b[k] <= 'Z' && a[k] as int == b[k] as int + 32)
    ensures LowerAll(b) == LowerAll(a)
  {
    if a != "" { SameLower(a[1..], b[1..]); }
  }

  /** The units differ. */
  lemma {:induction false} Units()
    ensures "minutes"[0] == 'm' && "months"[0] == 'm' && "minutes"[1] == 'i' && "months"[1] == 'o'
    ensures "milliseconds"[2] == 'l' && "seconds"[0] == 's' && "hours"[0] == 'h' && "days"[0] == 'd' && "weeks"[0] == 'w'
    ensures "years"[0] == 'y' && "milliseconds"[0] == 'm' && "milliseconds"[1] == 'i'
  {
  }

  // ------------------------------------------------------------------------------- the two ways

  /** A set text that is not empty. */
  predicate Truthy(s: Option<string>) {
    s.Some? && s.value != ""
  }

  predicate KnownType<A, G>(t: Simple<A, G>) {
    t.executionType.Some? && t.executionType.value < TYPES
  }

  /** The task to be stored, for a known execution type. */
  function Stored<A, G>(t: Simple<A, G>): Real<A, G>
    requires KnownType(t)
  {
    var group_by := if Truthy(t.group_by_type) && Truthy(t.group_by_values)
                    then Some([GroupBy(t.group_by_type.value, Some(Split(t.group_by_values.value)))]) else None;
    var metric := Metric(t.metric_name, t.tags, group_by, t.aggregators);
    var query := Query([metric], Interval(1, "hours"));
    var rollup := Rollup(t.save_as, if Truthy(t.time_zone) then t.time_zone else None, Some(query));
    Real(t.id, t.name, [rollup], Interval(1, ToUnit(t.executionType.value)))
  }

  /** `toSimpleTask` fails on a metric without a list of aggregators or with a first grouping that has
    * no tags, and `toRealTask` on an execution type that is not in the list. */
  datatype Outcome<T> = TypeError | ReferenceError | Done(value: T)

  /** `toRealTask`, but for the aggregators' `edit` flags, which the method below clears. */
  function ToReal<A, G>(t: Simple<A, G>): Outcome<Real<A, G>> {
    if KnownType(t) then Done(Stored(t)) else ReferenceError
  }

  const DEFAULT_GROUP_BY_TYPE := "tag"

  function ToSimple<A, G>(r: Real<A, G>): Outcome<Simple<A, G>> {
    var t: Simple<A, G> :=
      Simple(r.id, r.name, FromInterval(r.execution_interval), |r.rollups| > 1, None, None, None, None, None, None, None);
    if r.rollups == [] then Done(t)
    else
      var first := r.rollups[0];
      var u := t.(save_as := first.save_as, time_zone := first.time_zone);
      if first.query.None? then Done(u) else ToSimpleQuery(first.query.value, u)
  }

  function ToSimpleQuery<A, G>(q: Query<A, G>, t: Simple<A, G>): Outcome<Simple<A, G>> {
    if q.metrics == [] then Done(t)
    else
      var m := q.metrics[0];
      var u := t.(metric_name := m.name);
      if m.group_by.Some? && m.group_by.value != [] && m.group_by.value[0].tags.None? then TypeError
      else
        var v := if m.group_by.Some? && m.group_by.value != []
                 then u.(group_by_type := Some(m.group_by.value[0].name),
                         group_by_values := Some(Join(m.group_by.value[0].tags.value)))
                 else u.(group_by_type := Some(DEFAULT_GROUP_BY_TYPE));
        if m.aggregators.None? then TypeError
        else
          var w := if m.aggregators.value != [] then v.(aggregators := m.aggregators) else v;
          Done(if m.tags.Some? then w.(tags := m.tags) else w)
  }

  // ------------------------------------------------------------------------------- round trips

  /** A task as the page makes it: one roll-up, something to aggregate, empty texts left out, and the
    * group type it starts with while there is nothing to group by. */
  predicate PageTask<A, G>(t: Simple<A, G>) {
    && KnownType(t) && !t.complex
    && t.aggregators.Some? && t.aggregators.value != []
    && (t.time_zone.Some? ==> t.time_zone.value != "")
    && t.group_by_type.Some?
    && (if t.group_by_values.Some? then t.group_by_values.value != "" && t.group_by_type.value != ""
        else t.group_by_type.value == DEFAULT_GROUP_BY_TYPE)
  }

  /** Saving a task and loading it again gives it back exactly when it is as the page makes it,
    * whatever its grouping values and tags are. */
  lemma {:induction false} SimpleComesBack<A, G>(t: Simple<A, G>)
    ensures match ToReal(t)
            case Done(r) => (ToSimple(r) == Done(t) <==> PageTask(t)) && (ToSimple(r).TypeError? <==> t.aggregators.None?)
            case _ => !PageTask(t)
  {
    hide FromInterval, ToUnit, Split, Join;
    if KnownType(t) {
      IntervalBack(t.executionType.value, 1);
      if t.group_by_values.Some? { SplitThenJoin(t.group_by_values.value); }
    }
  }

  /** Where the page's fields go, and what the server is told besides. */
  lemma {:induction false} FieldsStored<A, G>(t: Simple<A, G>)
    requires KnownType(t)
    ensures ToReal(t).Done?
    ensures var r := ToReal(t).value;
            && r.id == t.id && r.name == t.name && |r.rollups| == 1
            && r.execution_interval.value == 1 && FromInterval(r.execution_interval) == t.executionType
            && var u := r.rollups[0];
               u.save_as == t.save_as && u.time_zone == (if t.time_zone == Some("") then None else t.time_zone) && u.query.Some?
    ensures var q := ToReal(t).value.rollups[0].query.value;
            && q.start_relative == Interval(1, "hours") && |q.metrics| == 1
            && var m := q.metrics[0];
               m.name == t.metric_name && m.tags == t.tags && m.aggregators == t.aggregators
  {
    hide FromInterval, ToUnit, Split, Join;
    IntervalBack(t.executionType.value, 1);
  }

  /** Where the stored fields are read from: the first roll-up, the first metric of its query and the first
    * grouping of that, each only if it is there. */
  lemma {:induction false} FieldsLoaded<A, G>(r: Real<A, G>)
    requires ToSimple(r).Done?
    ensures var t := ToSimple(r).value;
            && t.id == r.id && t.name == r.name && t.executionType == FromInterval(r.execution_interval)
            && (t.complex <==> 2 <= |r.rollups|)
            && (if r.rollups == [] then t.save_as.None? && t.time_zone.None?
                else t.save_as == r.rollups[0].save_as && t.time_zone == r.rollups[0].time_zone)
    ensures (r.rollups == [] || r.rollups[0].query.None? || r.rollups[0].query.value.metrics == []) ==>
              ToSimple(r).value.(id := None, name := None, executionType := None, complex := false, save_as := None, time_zone := None) ==
              Simple(None, None, None, false, None, None, None, None, None, None, None)
    ensures r.rollups != [] && r.rollups[0].query.Some? && r.rollups[0].query.value.metrics != [] ==>
              var t, m := ToSimple(r).value, r.rollups[0].query.value.metrics[0];
              && t.metric_name == m.name && t.tags == m.tags
              && m.aggregators.Some? && t.aggregators == (if m.aggregators.value == [] then None else m.aggregators)
              && (if m.group_by.Some? && m.group_by.value != [] then
                    var g := m.group_by.value[0];
                    g.tags.Some? && t.group_by_type == Some(g.name) && t.group_by_values == Some(Join(g.tags.value))
                  else t.group_by_type == Some("tag") && t.group_by_values.None?)
  {
    hide FromInterval, Join;
  }

  /** And when loading throws. */
  lemma {:induction false} LoadingThrows<A, G>(r: Real<A, G>)
    ensures !ToSimple(r).ReferenceError?
    ensures ToSimple(r).TypeError? <==>
            && r.rollups != [] && r.rollups[0].query.Some? && r.rollups[0].query.value.metrics != []
            && var m := r.rollups[0].query.value.metrics[0];
               m.aggregators.None? || (m.group_by.Some? && m.group_by.value != [] && m.group_by.value[0].tags.None?)
  {
    hide FromInterval, Join;
  }

  /** A stored task in the form the page writes. */
  predicate PageForm<A, G>(r: Real<A, G>) {
    && |r.rollups| == 1 && r.rollups[0].query.Some?
    && (r.rollups[0].time_zone.Some? ==> r.rollups[0].time_zone.value != "")
    && r.execution_interval.value == 1 && (exists k: nat :: k < TYPES && r.execution_interval.unit == ToUnit(k))
    && var q := r.rollups[0].query.value;
       |q.metrics| == 1 && q.start_relative == Interval(1, "hours") && PageMetric(q.metrics[0])
  }

  predicate PageMetric<A, G>(m: Metric<A, G>) {
    && m.aggregators.Some? && m.aggregators.value != []
    && (m.group_by.Some? ==>
          |m.group_by.value| == 1 && m.group_by.value[0].name != "" && m.group_by.value[0].tags.Some? &&
          var tags := m.group_by.value[0].tags.value;
          tags != [] && tags != [""] && Separate(tags))
  }

  lemma {:induction false} JoinEmpty(parts: seq<string>)
    ensures Join(parts) == "" <==> parts == [] || parts == [""]
  {
    if |parts| == 1 { assert parts == [parts[0]]; }
    if |parts| > 1 { assert |Join(parts)| >= 2; }
  }

  lemma {:induction false} TypeInRange(i: Interval)
    ensures FromInterval(i).Some? ==> FromInterval(i).value < TYPES
  {
  }

  /** Loading a stored task and saving it again leaves it as it is exactly when it is in the form the
    * page writes: one roll-up of one metric, the interval of an execution type, something to
    * aggregate, and at most one grouping, by tags without the separator. */
  lemma {:induction false} RealComesBack<A, G>(r: Real<A, G>)
    ensures match ToSimple(r)
            case Done(t) => ToReal(t) == Done(r) <==> PageForm(r)
            case _ => !PageForm(r)
  {
    hide FromInterval, ToUnit, Split, Join, Separate, PageMetric;
    IntervalForm(r.execution_interval);
    if |r.rollups| == 1 && r.rollups[0].query.Some? && |r.rollups[0].query.value.metrics| == 1 {
      OneMetric(r);
    }
  }

  /** The interval comes back when it is the one an execution type is stored as. */
  lemma {:induction false} IntervalForm(i: Interval)
    ensures match FromInterval(i)
            case None => forall k: nat :: k < TYPES ==> i.unit != ToUnit(k)
            case Some(n) =>
              n < TYPES && (Interval(1, ToUnit(n)) == i <==> i.value == 1 && exists k: nat :: k < TYPES && i.unit == ToUnit(k))
  {
    hide FromInterval, ToUnit;
    TypeInRange(i);
    forall k: nat | k < TYPES && i.unit == ToUnit(k)
      ensures FromInterval(i) == Some(k)
    {
      IntervalBack(k, i.value);
      assert Interval(i.value, ToUnit(k)) == i;
    }
  }

  lemma {:induction false} OneMetric<A, G>(r: Real<A, G>)
    requires |r.rollups| == 1 && r.rollups[0].query.Some? && |r.rollups[0].query.value.metrics| == 1
    ensures match ToSimple(r)
            case Done(t) => ToReal(t) == Done(r) <==> PageForm(r)
            case _ => !PageForm(r)
  {
    hide FromInterval, ToUnit, Split, Join, Separate;
    IntervalForm(r.execution_interval);
    var rollup := r.rollups[0];
    var m := rollup.query.value.metrics[0];
    assert r.rollups == [rollup] && rollup.query.value.metrics == [m];
    if m.group_by.Some? && m.group_by.value != [] && m.group_by.value[0].tags.Some? {
      var tags := m.group_by.value[0].tags.value;
      JoinThenSplit(tags);
      JoinEmpty(tags);
      if |m.group_by.value| == 1 { assert m.group_by.value == [m.group_by.value[0]]; }
    }
  }

  // ---------------------------------------------------------------------- the flags of the page

  class Aggregator<B> {
    const body: B
    /** The page is editing it. */
    var edit: bool

    constructor (body: B)
      ensures this.body == body && !edit
    {
      this.body, edit := body, false;
    }
  }

  /** `toRealTask` shares the aggregators with the page's task and takes their `edit` flags off. */
  method ToRealTask<B, G>(t: Simple<Aggregator<B>, G>) returns (r: Outcome<Real<Aggregator<B>, G>>)
    modifies if t.aggregators.Some? then t.aggregators.value else []
    ensures r == ToReal(t)
    ensures t.aggregators.Some? ==> forall a :: a in t.aggregators.value ==> !a.edit
  {
    if t.aggregators.Some? {
      var i := 0;
      while i < |t.aggregators.value|
        invariant 0 <= i <= |t.aggregators.value|
        invariant forall k :: 0 <= k < i ==> !t.aggregators.value[k].edit
      {
        t.aggregators.value[i].edit := false;
        i := i + 1;
      }
    }
    r := ToReal(t);
  }
}
