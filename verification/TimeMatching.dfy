/** What strict parsing matches, without its backtracking: which texts, and which of several ways. */
module TimeMatching {
  import opened Decimals
  import opened TimeFormat

  // ------------------------------------------------------------------------ what a pattern is for

  /** The same letter, in either case. */
  predicate SameLetter(a: char, b: char) {
    || a == b
    || ('A' <= a <= 'Z' && b as int == a as int + 32)
    || ('A' <= b <= 'Z' && a as int == b as int + 32)
  }

  predicate SameText(a: string, b: string) {
    |a| == |b| && forall k :: 0 <= k < |a| ==> SameLetter(a[k], b[k])
  }

  predicate AllDigits(w: string) {
    forall k :: 0 <= k < |w| ==> '0' <= w[k] <= '9'
  }

  /** What a pattern stands for: some digits, a marker or nothing, one character, or optional white space. */
  predicate Fits(p: Pattern, w: string) {
    match p
    case Two => |w| == 2 && AllDigits(w)
    case OneOrTwo => 1 <= |w| <= 2 && AllDigits(w)
    case UpToThree => 1 <= |w| <= 3 && AllDigits(w)
    case Markers => w == "" || SameText(w, "AM") || SameText(w, "A") || SameText(w, "PM") || SameText(w, "P")
    case Letter(c) => SameText(w, [c])
    case Space => w == "" || (|w| == 1 && w[0] in {' ', '\t', '\n', '\r'})
  }

  /** One text for each pattern. */
  ghost predicate FitAll(ps: seq<Pattern>, ws: seq<string>) {
    |ps| == |ws| && forall k :: 0 <= k < |ps| ==> Fits(ps[k], ws[k])
  }

  function Concat(ws: seq<string>): string {
    if ws == [] then "" else ws[0] + Concat(ws[1..])
  }

  /** The texts of the groups among them. */
  function GroupsOf(ps: seq<Pattern>, ws: seq<string>): seq<string>
    requires |ps| == |ws|
  {
    if ps == [] then []
    else (if ps[0].Letter? || ps[0].Space? then [] else [ws[0]]) + GroupsOf(ps[1..], ws[1..])
  }

  /** Where the two first differ in length, the first is longer. */
  ghost predicate Longer(ws: seq<string>, vs: seq<string>) {
    |ws| == |vs| && (ws == [] || |ws[0]| > |vs[0]| || (|ws[0]| == |vs[0]| && Longer(ws[1..], vs[1..])))
  }

  // --------------------------------------------------------------------------- what may be taken

  lemma {:induction false} LowerSame(a: char, b: char)
    ensures Lower(a) == Lower(b) <==> SameLetter(a, b)
  {
  }

  lemma {:induction false} LowerAllSame(a: string, b: string)
    requires |a| == |b|
    ensures LowerAll(a) == LowerAll(b) <==> SameText(a, b)
    decreases |a|
  {
    if a != "" {
      LowerAllSame(a[1..], b[1..]);
      LowerSame(a[0], b[0]);
      LowerCons(a);
      LowerCons(b);
      assert SameText(a, b) <==> SameLetter(a[0], b[0]) && SameText(a[1..], b[1..]) by { TextCons(a, b); }
    }
  }

  lemma {:induction false} LowerCons(a: string)
    requires a != ""
    ensures LowerAll(a) != "" && LowerAll(a)[0] == Lower(a[0]) && LowerAll(a)[1..] == LowerAll(a[1..])
  {
  }

  lemma {:induction false} TextCons(a: string, b: string)
    requires |a| == |b| && a != ""
    ensures SameText(a, b) <==> SameLetter(a[0], b[0]) && SameText(a[1..], b[1..])
  {
    if SameLetter(a[0], b[0]) && SameText(a[1..], b[1..]) {
      forall k | 0 <= k < |a| ensures SameLetter(a[k], b[k]) {
        if k > 0 { assert a[1..][k - 1] == a[k] && b[1..][k - 1] == b[k]; }
      }
    }
  }

  lemma {:induction false} StartsExactly(t: string, w: string)
    ensures StartsWith(t, w) <==> |w| <= |t| && SameText(t[..|w|], w)
  {
    hide LowerAll;
    if |w| <= |t| { LowerAllSame(t[..|w|], w); }
  }

  lemma {:induction false} RunExactly(t: string, n: nat)
    requires n <= |t|
    ensures DigitRun(t) >= n <==> AllDigits(t[..n])
    decreases n
  {
    if n > 0 {
      RunExactly(t[1..], n - 1);
      assert t[1..][..n - 1] == t[1..n];
      assert AllDigits(t[..n]) <==> IsDigitChar(t[0]) && AllDigits(t[1..n]) by {
        if IsDigitChar(t[0]) && AllDigits(t[1..n]) {
          forall k | 0 <= k < n ensures '0' <= t[..n][k] <= '9' { if k > 0 { assert t[1..n][k - 1] == t[k]; } }
        } else if AllDigits(t[..n]) {
          assert t[..n][0] == t[0];
          forall k | 0 <= k < n - 1 ensures '0' <= t[1..n][k] <= '9' { assert t[1..n][k] == t[..n][k + 1]; }
        }
      }
    }
  }

  lemma {:induction false} RunShort(t: string)
    ensures DigitRun(t) <= |t|
  {
    if t != "" { RunShort(t[1..]); }
  }

  /** A number of digits is allowed by a pattern if the text begins with so many. */
  lemma {:induction false} DigitLengths(p: Pattern, t: string, n: nat)
    requires p.Two? || p.OneOrTwo? || p.UpToThree?
    ensures n in Lengths(p, t) <==> n <= |t| && Fits(p, t[..n])
  {
    hide DigitRun, AllDigits;
    RunShort(t);
    if n <= |t| { RunExactly(t, n); }
  }

  lemma {:induction false} MarkerLengths(t: string, n: nat)
    ensures n in Lengths(Markers, t) <==> n <= |t| && Fits(Markers, t[..n])
  {
    hide LowerAll, SameText, StartsWith;
    StartsExactly(t, "AM");
    StartsExactly(t, "A");
    StartsExactly(t, "PM");
    StartsExactly(t, "P");
    if n <= |t| { SameLengths(t[..n]); }
  }

  lemma {:induction false} SameLengths(w: string)
    ensures SameText(w, "AM") || SameText(w, "PM") ==> |w| == 2
    ensures SameText(w, "A") || SameText(w, "P") ==> |w| == 1
  {
  }

  /** The lengths tried are those of the texts the pattern fits. */
  lemma {:induction false} LengthsFit(p: Pattern, t: string, n: nat)
    ensures n in Lengths(p, t) <==> n <= |t| && Fits(p, t[..n])
  {
    hide LowerAll, SameText, StartsWith, DigitRun;
    match p
    case Markers => MarkerLengths(t, n);
    case Letter(c) =>
      StartsExactly(t, [c]);
      if n <= |t| { assert SameText(t[..n], [c]) ==> n == 1 by { OneLength(t[..n], [c]); } }
    case Space =>
    case _ => DigitLengths(p, t, n);
  }

  lemma {:induction false} OneLength(a: string, b: string)
    ensures SameText(a, b) ==> |a| == |b|
  {
  }

  /** They are tried from the longest to the shortest. */
  lemma {:induction false} LengthsFall(p: Pattern, t: string, i: nat, j: nat)
    requires i < j < |Lengths(p, t)|
    ensures Lengths(p, t)[i] > Lengths(p, t)[j]
  {
    hide StartsWith, DigitRun;
    if p.Markers? { OneMarker(t); }
  }

  lemma {:induction false} OneMarker(t: string)
    ensures StartsWith(t, "AM") || StartsWith(t, "A") ==> !StartsWith(t, "PM") && !StartsWith(t, "P")
  {
    StartsExactly(t, "AM");
    StartsExactly(t, "A");
    StartsExactly(t, "PM");
    StartsExactly(t, "P");
    assert "A"[0] == 'A' && "AM"[0] == 'A' && "P"[0] == 'P' && "PM"[0] == 'P';
    if t != "" {
      assert t[..1][0] == t[0] && (|t| > 1 ==> t[..2][0] == t[0]);
    }
  }

  // ------------------------------------------------------------------------------- the match

  /** A way to cut up a text among the patterns, and the way the match takes, or none. */
  ghost predicate Ways(ps: seq<Pattern>, t: string, ws: seq<string>) {
    FitAll(ps, ws) && Concat(ws) == t
  }

  lemma {:induction false} WaysOne(ps: seq<Pattern>, t: string, ws: seq<string>)
    requires ps != []
    ensures Ways(ps, t, ws) <==>
            ws != [] && |ws[0]| <= |t| && ws[0] == t[..|ws[0]|] && Fits(ps[0], ws[0]) && Ways(ps[1..], t[|ws[0]|..], ws[1..])
  {
    hide Fits;
    if ws != [] {
      var n := |ws[0]|;
      if Ways(ps, t, ws) {
        assert t[..n] == ws[0] && t[n..] == Concat(ws[1..]);
        forall k | 0 <= k < |ps| - 1 ensures Fits(ps[1..][k], ws[1..][k]) { assert Fits(ps[k + 1], ws[k + 1]); }
      }
    }
  }

  /** The match is found exactly when the text can be cut up into parts that fit the patterns; of all the ways
    * to do that it takes the one that gives the first part as much as possible, then the second, and so on. */
  lemma {:induction false} MatchExactly(ps: seq<Pattern>, t: string) returns (ws: seq<string>)
    ensures match MatchAll(ps, t)
            case NoMatch => forall vs :: !Ways(ps, t, vs)
            case Groups(texts) =>
              Ways(ps, t, ws) && texts == GroupsOf(ps, ws) && forall vs :: Ways(ps, t, vs) && vs != ws ==> Longer(ws, vs)
    decreases |ps|, 0, 0
  {
    hide Fits, Lengths, Longer;
    if ps == [] {
      ws := [];
    } else {
      forall n: nat ensures n in Lengths(ps[0], t) <==> n <= |t| && Fits(ps[0], t[..n]) { LengthsFit(ps[0], t, n); }
      forall i: nat, j: nat | i < j < |Lengths(ps[0], t)| ensures Lengths(ps[0], t)[i] > Lengths(ps[0], t)[j] { LengthsFall(ps[0], t, i, j); }
      ws := TryExactly(ps, t, Lengths(ps[0], t));
      forall vs | Ways(ps, t, vs) ensures |vs| > 0 && |vs[0]| in Lengths(ps[0], t) { WaysOne(ps, t, vs); }
    }
  }

  /** The same for a first part of one of these lengths. */
  lemma {:induction false} TryExactly(ps: seq<Pattern>, t: string, lengths: seq<nat>) returns (ws: seq<string>)
    requires ps != []
    requires forall n :: n in lengths ==> n <= |t| && Fits(ps[0], t[..n])
    requires forall i, j :: 0 <= i < j < |lengths| ==> lengths[i] > lengths[j]
    ensures match TryLengths(ps, t, lengths)
            case NoMatch => forall vs :: Ways(ps, t, vs) ==> vs != [] && |vs[0]| !in lengths
            case Groups(texts) =>
              && Ways(ps, t, ws) && ws != [] && |ws[0]| in lengths && texts == GroupsOf(ps, ws)
              && forall vs :: Ways(ps, t, vs) && vs != ws && vs != [] && |vs[0]| in lengths ==> Longer(ws, vs)
    decreases |ps| - 1, 1, |lengths|
  {
    hide Fits, Lengths;
    ws := [];
    if lengths != [] {
      var n := lengths[0];
      assert n in lengths;
      var more := MatchExactly(ps[1..], t[n..]);
      if MatchAll(ps[1..], t[n..]).NoMatch? {
        ws := TryExactly(ps, t, lengths[1..]);
        forall vs | Ways(ps, t, vs) ensures vs != [] && |vs[0]| != n { WaysOne(ps, t, vs); }
      } else {
        ws := [t[..n]] + more;
        assert ws[1..] == more;
        WaysOne(ps, t, ws);
        forall vs | Ways(ps, t, vs) && vs != ws && vs != [] && |vs[0]| in lengths ensures Longer(ws, vs) {
          WaysOne(ps, t, vs);
          if |vs[0]| == n { assert vs == [vs[0]] + vs[1..]; }
        }
      }
    }
    forall vs | Ways(ps, t, vs) ensures vs != [] { WaysOne(ps, t, vs); }
  }

  // ------------------------------------------------------------------------------ the markers

  /** The hour is what its group says; a marker of either form for the morning makes twelve midnight, and one
    * for the afternoon adds twelve hours to all but twelve.  Without a marker nothing is done. */
  lemma {:induction false} HourTold(groups: seq<string>, h: nat, m: nat)
    requires 0 < h <= |groups| && 0 < m <= |groups| && Fits(Markers, groups[m - 1])
    ensures var n, w := Read(groups[h - 1]), groups[m - 1];
            HourValue(groups, h, m) ==
            if SameText(w, "A") || SameText(w, "AM") then Number(if groups[h - 1] == "12" then 0 else n)
            else if w == "" then Number(n)
            else Number(if groups[h - 1] == "12" then 12 else n + 12)
    ensures HourValue(groups, h, 0) == Number(Read(groups[h - 1])) && HourValue(groups, 0, m) == Number(0)
  {
    hide LowerAll, SameText, Read;
    var w := groups[m - 1];
    ReadTwelve();
    SmallNames();
    SameLengths(w);
    if |w| == 2 { LowerAllSame(w, "AM"); LowerLength(w); }
    if |w| == 1 { LowerAllSame(w, "A"); LowerLength(w); }
  }

  lemma {:induction false} LowerLength(w: string)
    ensures |LowerAll(w)| == |w|
  {
    if w != "" { LowerLength(w[1..]); }
  }

  lemma {:induction false} SmallNames()
    ensures LowerAll("AM") == "am" && LowerAll("A") == "a"
    ensures !SameText("", "A") && !SameText("", "AM")
  {
    assert "AM"[1..] == "M" && LowerAll("M") == "m";
  }

  lemma {:induction false} ReadTwelve()
    ensures Read("12") == 12
  {
    assert "12"[..1] == "1" && "1"[..0] == "";
    assert Read("1") == 1;
  }

  // -------------------------------------------------------------------------- printed times match

  /** The fields there are, but for two of a letter in different cases. */
  const FIELDS: set<string> := {"HH", "H", "hh", "h", "mm", "m", "ss", "s", "l", "c", "TT", "T", "tt", "t"}

  /** Characters with a meaning in a regular expression or a format, other than the fields. */
  const SPECIAL: set<char> := {'^', '$', '.', '*', '+', '?', '|', '(', ')', '[', ']', '{', '}', '\\', '\'', 'z', 'Z'}

  /** For every format of those fields and of characters that stand for themselves, a printed time parses,
    * single letters, which print and read one digit or two, included. */
  lemma {:induction false} PrintedNeverFails(f: string, t: Time)
    requires InRange(t)
    requires forall k :: 0 <= k < |f| ==> f[k] !in SPECIAL
    requires forall x :: Field(x) in Cut(Parsing, f) ==> x in FIELDS
    ensures StrictParse(f, FormatTime(f, t)).Result?
  {
    hide Cut, MatchAll, Patterns, Texts, HourValue, GroupValue, Position;
    SameCut(f);
    var ws := TextsFit(Cut(Parsing, f), t);
    var found := MatchExactly(Patterns(Cut(Parsing, f)), FormatTime(f, t));
  }

  lemma {:induction false} SameCut(f: string)
    requires forall x :: Field(x) in Cut(Parsing, f) ==> x in FIELDS
    ensures Cut(Printing, f) == Cut(Parsing, f)
    decreases |f|
  {
    if f != "" {
      var pieces := Cut(Parsing, f);
      assert forall p :: p in pieces[1..] ==> p in pieces;
      if !IsField(Parsing, f[0]) {
        assert pieces[1..] == Cut(Parsing, f[1..]);
        SameCut(f[1..]);
      } else if |f| > 1 && Pair(Parsing, f[0], f[1]) {
        assert pieces[1..] == Cut(Parsing, f[2..]);
        SameCut(f[2..]);
        assert Field(f[..2]) == pieces[0];
        NotMixed(f[..2]);
      } else {
        assert pieces[1..] == Cut(Parsing, f[1..]);
        SameCut(f[1..]);
      }
    }
  }

  lemma {:induction false} NotMixed(x: string)
    requires x in FIELDS && |x| == 2
    ensures x[0] == x[1]
  {
  }

  lemma {:induction false} TextsFit(ps: seq<Piece>, t: Time) returns (ws: seq<string>)
    requires InRange(t)
    requires forall x :: Field(x) in ps ==> x in FIELDS
    ensures Ways(Patterns(ps), Texts(ps, t), ws)
    decreases ps
  {
    hide Fits, PieceText, PatternOf;
    ws := [];
    if ps != [] {
      var more := TextsFit(ps[1..], t);
      ws := [PieceText(ps[0], t)] + more;
      PieceFits(ps[0], t);
      assert ws[1..] == more && Patterns(ps)[1..] == Patterns(ps[1..]);
    }
  }

  lemma {:induction false} PieceFits(p: Piece, t: Time)
    requires InRange(t) && (p.Field? ==> p.text in FIELDS)
    ensures Fits(PatternOf(p), PieceText(p, t))
  {
    hide Decimal, LastOf, AllDigits;
    match p
    case Char(c) =>
    case Field(x) => FieldFits(x, t);
  }

  /** Each field prints what its pattern takes. */
  lemma {:induction false} FieldFits(x: string, t: Time)
    requires InRange(t) && x in FIELDS
    ensures Fits(PatternOf(Field(x)), PieceText(Field(x), t))
  {
    hide Decimal, LastOf, AllDigits, LowerAll;
    ShortDecimal(t.hour);
    ShortDecimal(Twelve(t.hour));
    ShortDecimal(t.minute);
    ShortDecimal(t.second);
    PaddedDecimal(t.millisec);
    PaddedDecimal(t.microsec);
    FieldLetters();
    MarkersFit();
  }

  lemma {:induction false} ShortDecimal(n: nat)
    requires n < 100
    ensures 1 <= |Decimal(n)| <= 2 && AllDigits(Decimal(n))
    ensures |LastOf("0" + Decimal(n), 2)| == 2 && AllDigits(LastOf("0" + Decimal(n), 2))
  {
    if n >= 10 { assert Decimal(n / 10) == [Digit(n / 10)]; }
  }

  lemma {:induction false} PaddedDecimal(n: nat)
    requires n < 1000
    ensures |LastOf("00" + Decimal(n), 3)| == 3 && AllDigits(LastOf("00" + Decimal(n), 3))
  {
    if n >= 100 {
      ShortDecimal(n / 10);
      assert Decimal(n) == Decimal(n / 10) + [Digit(n % 10)];
    } else {
      ShortDecimal(n);
    }
  }

  /** What each field is in the pattern, by its letters. */
  lemma {:induction false} FieldLetters()
    ensures forall x :: x in {"HH", "hh", "mm", "ss"} ==> PatternOf(Field(x)) == Two
    ensures forall x :: x in {"H", "h", "m", "s"} ==> PatternOf(Field(x)) == OneOrTwo
    ensures forall x :: x in {"l", "c"} ==> PatternOf(Field(x)) == UpToThree
    ensures forall x :: x in {"TT", "T", "tt", "t"} ==> PatternOf(Field(x)) == Markers
  {
  }

  lemma {:induction false} MarkersFit()
    ensures forall w :: w in {"AM", "PM", "A", "P"} ==> Fits(Markers, w) && Fits(Markers, LowerAll(w))
    ensures "AM"[..1] == "A" && "PM"[..1] == "P" && LowerAll("AM")[..1] == LowerAll("A") && LowerAll("PM")[..1] == LowerAll("P")
  {
    assert "AM"[1..] == "M" && "PM"[1..] == "M" && LowerAll("M") == "m";
    assert LowerAll("AM") == "am" && LowerAll("PM") == "pm" && LowerAll("A") == "a" && LowerAll("P") == "p";
  }
}
