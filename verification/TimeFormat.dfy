/** Printing times and strict parsing of them in the date picker. */
module TimeFormat {
  import opened Decimals

  datatype Time = Time(hour: nat, minute: nat, second: nat, millisec: nat, microsec: nat)

  predicate InRange(t: Time) {
    t.hour < 24 && t.minute < 60 && t.second < 60 && t.millisec < 1000 && t.microsec < 1000
  }

  // ------------------------------------------------------------------------- cutting up a format

  /** Three regular expressions cut up a format, for printing, for parsing and for numbering the
    * groups (that one after lowering all letters), and they do not quite agree. */
  datatype Purpose = Printing | Parsing | Numbering

  datatype Piece = Field(text: string) | Char(c: char)

  predicate IsField(p: Purpose, c: char) {
    c == 'h' || c == 'm' || c == 's' || c == 'l' || c == 'c' || c == 't' || (p != Numbering && (c == 'H' || c == 'T'))
  }

  /** Whether the two characters are one field. */
  predicate Pair(p: Purpose, c: char, d: char) {
    || (c == d && (c == 'h' || c == 'H' || c == 'm' || c == 's' || c == 't' || c == 'T'))
    || ((c == 't' || c == 'T') && (d == 't' || d == 'T'))
    || (p == Parsing && (c == 'h' || c == 'H') && (d == 'h' || d == 'H'))
  }

  function Cut(p: Purpose, f: string): seq<Piece> {
    if f == "" then []
    else if !IsField(p, f[0]) then [Char(f[0])] + Cut(p, f[1..])
    else if |f| > 1 && Pair(p, f[0], f[1]) then [Field(f[..2])] + Cut(p, f[2..])
    else [Field(f[..1])] + Cut(p, f[1..])
  }

  function Lower(c: char): char {
    if 'A' <= c <= 'Z' then (c as int + 32) as char else c
  }

  function LowerAll(f: string): string {
    if f == "" then "" else [Lower(f[0])] + LowerAll(f[1..])
  }

  // --------------------------------------------------------------------------------- printing

  /** The last k characters: zeros are put in front of a number and the text is cut to its width. */
  function LastOf(s: string, k: nat): (r: string)
    ensures |s| >= k ==> |r| == k
  {
    if |s| <= k then s else s[|s| - k..]
  }

  function Twelve(hour: nat): nat {
    if hour % 12 == 0 then 12 else hour % 12
  }

  const AM := "AM"
  const PM := "PM"

  function Marker(t: Time): string {
    if t.hour > 11 then PM else AM
  }

  /** `formatTime`, one piece at a time. */
  function PieceText(p: Piece, t: Time): string {
    match p
    case Char(c) => [c]
    case Field(x) =>
      if x == "HH" then LastOf("0" + Decimal(t.hour), 2)
      else if x == "H" then Decimal(t.hour)
      else if x == "hh" then LastOf("0" + Decimal(Twelve(t.hour)), 2)
      else if x == "h" then Decimal(Twelve(t.hour))
      else if x == "mm" then LastOf("0" + Decimal(t.minute), 2)
      else if x == "m" then Decimal(t.minute)
      else if x == "ss" then LastOf("0" + Decimal(t.second), 2)
      else if x == "s" then Decimal(t.second)
      else if x == "l" then LastOf("00" + Decimal(t.millisec), 3)
      else if x == "c" then LastOf("00" + Decimal(t.microsec), 3)
      else if x == "TT" then Marker(t)
      else if x == "T" then Marker(t)[..1]
      else if x == "tt" then LowerAll(Marker(t))
      else if x == "t" then LowerAll(Marker(t))[..1]
      else x
  }

  function Texts(ps: seq<Piece>, t: Time): string {
    if ps == [] then "" else PieceText(ps[0], t) + Texts(ps[1..], t)
  }

  function FormatTime(f: string, t: Time): string {
    Texts(Cut(Printing, f), t)
  }

  // ---------------------------------------------------------------------------------- matching

  /** What a piece becomes in the regular expression: `(\d?\d)`, `(\d{2})`, `(\d?\d?\d)`, the group of
    * markers, one character, or optional white space. */
  datatype Pattern = OneOrTwo | Two | UpToThree | Markers | Letter(c: char) | Space

  predicate IsGroup(p: Pattern) {
    !p.Letter? && !p.Space?
  }

  predicate IsSpace(c: char) {
    c == ' ' || c == '\t' || c == '\n' || c == '\r'
  }

  function PatternOf(p: Piece): Pattern {
    match p
    case Char(c) => if IsSpace(c) then Space else Letter(c)
    case Field(x) =>
      if x == "" then Letter(' ')
      else if Lower(x[0]) == 't' then Markers
      else if x[0] == 'l' || x[0] == 'c' then UpToThree
      else if |x| == 1 then OneOrTwo
      else Two
  }

  function Patterns(ps: seq<Piece>): seq<Pattern> {
    if ps == [] then [] else [PatternOf(ps[0])] + Patterns(ps[1..])
  }

  predicate IsDigitChar(c: char) {
    '0' <= c <= '9'
  }

  /** The number of digits a text begins with. */
  function DigitRun(t: string): nat {
    if t == "" || !IsDigitChar(t[0]) then 0 else 1 + DigitRun(t[1..])
  }

  predicate StartsWith(t: string, w: string) {
    |w| <= |t| && LowerAll(t[..|w|]) == LowerAll(w)
  }

  /** The lengths a pattern may take from a text, in the order in which they are tried. */
  function Lengths(p: Pattern, t: string): seq<nat> {
    match p
    case Two => if DigitRun(t) >= 2 then [2] else []
    case OneOrTwo => (if DigitRun(t) >= 2 then [2] else []) + (if DigitRun(t) >= 1 then [1] else [])
    case UpToThree =>
      (if DigitRun(t) >= 3 then [3] else []) + (if DigitRun(t) >= 2 then [2] else []) + (if DigitRun(t) >= 1 then [1] else [])
    case Markers =>
      (if StartsWith(t, AM) then [2] else []) + (if StartsWith(t, "A") then [1] else []) +
      (if StartsWith(t, PM) then [2] else []) + (if StartsWith(t, "P") then [1] else []) + [0]
    case Letter(c) => if StartsWith(t, [c]) then [1] else []
    case Space => (if t != "" && IsSpace(t[0]) then [1] else []) + [0]
  }

  /** A group that took nothing is undefined. */
  datatype Match = NoMatch | Groups(texts: seq<string>)

  /** `s.match(...)` with its backtracking; the groups from the first one on. */
  function MatchAll(ps: seq<Pattern>, t: string): Match
    decreases |ps|, 0, 0
  {
    if ps == [] then (if t == "" then Groups([]) else NoMatch)
    else TryLengths(ps, t, Lengths(ps[0], t))
  }

  function TryLengths(ps: seq<Pattern>, t: string, lengths: seq<nat>): Match
    requires ps != []
    decreases |ps| - 1, 1, |lengths|
  {
    if lengths == [] || lengths[0] > |t| then NoMatch
    else
      match MatchAll(ps[1..], t[lengths[0]..])
      case NoMatch => TryLengths(ps, t, lengths[1..])
      case Groups(texts) => Groups((if IsGroup(ps[0]) then [t[..lengths[0]]] else []) + texts)
  }

  // ---------------------------------------------------------------------------------- positions

  function Fields(ps: seq<Piece>): seq<string> {
    if ps == [] then [] else (match ps[0] case Field(x) => [x] case Char(_) => []) + Fields(ps[1..])
  }

  /** The number of the first field that begins with the letter, from 1; 0 for none. */
  function Position(fields: seq<string>, letter: char): nat {
    if fields == [] then 0
    else if fields[0] != "" && fields[0][0] == letter then 1
    else if Position(fields[1..], letter) == 0 then 0
    else 1 + Position(fields[1..], letter)
  }

  // ------------------------------------------------------------------------------------ parsing

  /** `Number` of a group by its position; a group that is not there would give `NaN`. */
  datatype Value = NaN | Number(n: nat)

  function GroupValue(groups: seq<string>, position: nat): Value {
    if position == 0 then Number(0)
    else if position > |groups| then NaN
    else Number(Read(groups[position - 1]))
  }

  datatype Result = NotMatched | Result(hour: Value, minute: Value, second: Value, millisec: Value, microsec: Value)

  predicate IsAmName(s: string) {
    LowerAll(s) == "am" || LowerAll(s) == "a"
  }

  /** The hour from its group and the group of the marker. */
  function HourValue(groups: seq<string>, h: nat, t: nat): Value {
    var marked := 0 < t <= |groups| && groups[t - 1] != "";
    var am := marked && IsAmName(groups[t - 1]);
    if h == 0 then Number(0)
    else if h > |groups| then NaN
    else if am && groups[h - 1] == "12" then Number(0)
    else if marked && !am && groups[h - 1] != "12" then Number(Read(groups[h - 1]) + 12)
    else Number(Read(groups[h - 1]))
  }

  function StrictParse(f: string, s: string): Result {
    match MatchAll(Patterns(Cut(Parsing, f)), s)
    case NoMatch => NotMatched
    case Groups(g) =>
      var fields := Fields(Cut(Numbering, LowerAll(f)));
      Result(HourValue(g, Position(fields, 'h'), Position(fields, 't')),
             GroupValue(g, Position(fields, 'm')), GroupValue(g, Position(fields, 's')),
             GroupValue(g, Position(fields, 'l')), GroupValue(g, Position(fields, 'c')))
  }

  // ----------------------------------------------------------------------- numbering, as a loop

  lemma {:induction false} PositionSnoc(fields: seq<string>, x: string, letter: char)
    ensures Position(fields + [x], letter) ==
            if Position(fields, letter) != 0 then Position(fields, letter)
            else if x != "" && x[0] == letter then |fields| + 1 else 0
  {
    if fields == [] {
      assert [x][1..] == [] && fields + [x] == [x];
    } else {
      assert (fields + [x])[1..] == fields[1..] + [x];
      PositionSnoc(fields[1..], x, letter);
    }
  }

  /** `getFormatPositions`: the first group of each kind, -1 where there is none. */
  method GetFormatPositions(finds: seq<string>) returns (orders: map<char, int>)
    requires forall i :: 0 <= i < |finds| ==> finds[i] != "" && finds[i][0] in {'h', 'm', 's', 'l', 'c', 't'}
    ensures orders.Keys == {'h', 'm', 's', 'l', 'c', 't'}
    ensures forall letter :: letter in orders ==>
      orders[letter] == if Position(finds, letter) == 0 then -1 else Position(finds, letter)
  {
    orders := map['h' := -1, 'm' := -1, 's' := -1, 'l' := -1, 'c' := -1, 't' := -1];
    var i := 0;
    while i < |finds|
      invariant 0 <= i <= |finds| && orders.Keys == {'h', 'm', 's', 'l', 'c', 't'}
      invariant forall letter :: letter in orders ==>
        orders[letter] == if Position(finds[..i], letter) == 0 then -1 else Position(finds[..i], letter)
    {
      forall letter | letter in orders
        ensures Position(finds[..i+1], letter) ==
                if Position(finds[..i], letter) != 0 then Position(finds[..i], letter)
                else if finds[i][0] == letter then i + 1 else 0
      {
        assert finds[..i+1] == finds[..i] + [finds[i]];
        PositionSnoc(finds[..i], finds[i], letter);
      }
      if orders[finds[i][0]] == -1 { orders := orders[finds[i][0] := i + 1]; }
      i := i + 1;
    }
    assert finds[..i] == finds;
  }
}
