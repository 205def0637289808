/** What strict parsing makes of a printed time, for formats of the fixed-width fields. */
module TimeRoundTrip {
  import opened Decimals
  import opened TimeFormat

  datatype Kind = Hours24 | Hours12 | Minutes | Seconds | Millis | Micros | AmPm

  datatype Part = Of(kind: Kind) | Separator(c: char)

  predicate IsSeparator(c: char) {
    c == ':' || c == '-' || c == '/' || c == ' '
  }

  predicate Fine(parts: seq<Part>) {
    forall k :: 0 <= k < |parts| ==> parts[k].Separator? ==> IsSeparator(parts[k].c)
  }

  function Spelling(k: Kind): string {
    match k
    case Hours24 => "HH"
    case Hours12 => "hh"
    case Minutes => "mm"
    case Seconds => "ss"
    case Millis => "l"
    case Micros => "c"
    case AmPm => "TT"
  }

  /** The letter the field is numbered under. */
  function LetterOf(k: Kind): char {
    match k
    case Hours24 => 'h'
    case Hours12 => 'h'
    case Minutes => 'm'
    case Seconds => 's'
    case Millis => 'l'
    case Micros => 'c'
    case AmPm => 't'
  }

  function Source(p: Part): string {
    match p
    case Of(k) => Spelling(k)
    case Separator(c) => [c]
  }

  function PieceOf(p: Part): Piece {
    match p
    case Of(k) => Field(Spelling(k))
    case Separator(c) => Char(c)
  }

  /** The format string. */
  function Spell(parts: seq<Part>): string {
    if parts == [] then "" else Source(parts[0]) + Spell(parts[1..])
  }

  function Pieces(parts: seq<Part>): seq<Piece> {
    if parts == [] then [] else [PieceOf(parts[0])] + Pieces(parts[1..])
  }

  // ------------------------------------------------------------------ the three cuts agree here

  lemma {:induction false} CutSpelled(p: Purpose, parts: seq<Part>)
    requires Fine(parts) && p != Numbering
    ensures Cut(p, Spell(parts)) == Pieces(parts)
  {
    hide Cut, Spelling;
    if parts == [] {
      CutNothing(p);
    } else {
      CutSpelled(p, parts[1..]);
      match parts[0]
      case Separator(c) => CutSeparator(p, c, Spell(parts[1..]));
      case Of(k) => CutField(p, k, Spell(parts[1..]));
    }
  }

  lemma {:induction false} CutNothing(p: Purpose)
    ensures Cut(p, "") == []
  {
  }

  lemma {:induction false} CutSeparator(p: Purpose, c: char, rest: string)
    requires IsSeparator(c)
    ensures Cut(p, [c] + rest) == [Char(c)] + Cut(p, rest)
  {
    assert ([c] + rest)[1..] == rest;
  }

  lemma {:induction false} CutField(p: Purpose, k: Kind, rest: string)
    requires p != Numbering
    ensures Cut(p, Spelling(k) + rest) == [Field(Spelling(k))] + Cut(p, rest)
  {
    var w := Spelling(k);
    var f := w + rest;
    assert f[|w|..] == rest && f[..|w|] == w;
  }

  lemma {:induction false} LowerConcat(a: string, b: string)
    ensures LowerAll(a + b) == LowerAll(a) + LowerAll(b)
  {
    if a == "" {
      assert a + b == b;
    } else {
      assert (a + b)[1..] == a[1..] + b;
      LowerConcat(a[1..], b);
    }
  }

  // ------------------------------------------------------------- which formats are numbered right

  /** What makes, hides or adds groups in ways that the cuts here leave out: quoted text, time zones,
    * and the characters that open, close or escape groups and classes in a regular expression. */
  predicate Special(c: char) {
    c == '\'' || c == 'z' || c == 'Z' || c == '(' || c == ')' || c == '[' || c == '\\'
  }

  predicate NoSpecials(f: string) {
    forall k :: 0 <= k < |f| ==> !Special(f[k])
  }

  /** A capital that is no field, but whose small letter is one. */
  predicate StrayCapital(c: char) {
    c == 'M' || c == 'S' || c == 'L' || c == 'C'
  }

  predicate NoStrays(f: string) {
    forall k :: 0 <= k < |f| ==> !StrayCapital(f[k])
  }

  function LowerPiece(p: Piece): Piece {
    match p
    case Field(x) => Field(LowerAll(x))
    case Char(c) => Char(Lower(c))
  }

  function LowerPieces(ps: seq<Piece>): seq<Piece> {
    if ps == [] then [] else [LowerPiece(ps[0])] + LowerPieces(ps[1..])
  }

  /** The small letter each group of the pattern begins with, in order. */
  function GroupLetters(ps: seq<Piece>): seq<char> {
    if ps == [] then []
    else (if IsGroup(PatternOf(ps[0])) && ps[0].Field? && ps[0].text != "" then [Lower(ps[0].text[0])] else []) + GroupLetters(ps[1..])
  }

  /** For every format: the fields that are numbered are those of the pattern, lowered, if and only
    * if none of the capitals M, S, L and C is in it. */
  lemma {:induction false} NumberedAsParsed(f: string)
    requires NoSpecials(f)
    ensures LowerPieces(Cut(Parsing, f)) == Cut(Numbering, LowerAll(f)) <==> NoStrays(f)
    decreases |f|
  {
    hide Cut, LowerPieces, LowerAll;
    if f == "" {
      NothingNumbered();
    } else if IsField(Parsing, f[0]) && |f| > 1 && Pair(Parsing, f[0], f[1]) {
      NumberedAsParsed(f[2..]);
      PairNumbered(f);
      StraysSplit(f, 2);
      assert !StrayCapital(f[0]) && !StrayCapital(f[1]);
      SameTails(Field(LowerAll(f[..2])), LowerPieces(Cut(Parsing, f[2..])), Cut(Numbering, LowerAll(f[2..])));
    } else {
      NumberedAsParsed(f[1..]);
      StraysSplit(f, 1);
      var a, b := LowerPieces(Cut(Parsing, f[1..])), Cut(Numbering, LowerAll(f[1..]));
      if IsField(Parsing, f[0]) {
        SingleNumbered(f);
        SameTails(Field(LowerAll(f[..1])), a, b);
      } else {
        CharNumbered(f);
        SameTails(Char(Lower(f[0])), a, b);
      }
    }
  }

  lemma {:induction false} SameTails(x: Piece, a: seq<Piece>, b: seq<Piece>)
    ensures [x] + a == [x] + b <==> a == b
  {
    if [x] + a == [x] + b {
      assert ([x] + a)[1..] == a && ([x] + b)[1..] == b;
    }
  }

  lemma {:induction false} NothingNumbered()
    ensures Cut(Parsing, "") == [] && LowerPieces([]) == [] && LowerAll("") == "" && Cut(Numbering, "") == []
  {
  }

  lemma {:induction false} StraysSplit(f: string, n: nat)
    requires n <= |f|
    ensures NoStrays(f) <==> (forall k :: 0 <= k < n ==> !StrayCapital(f[k])) && NoStrays(f[n..])
  {
    forall k | n <= k < |f| ensures f[k] == f[n..][k - n] {
    }
  }

  lemma {:induction false} LowerNext(f: string)
    requires f != ""
    ensures LowerAll(f) == [Lower(f[0])] + LowerAll(f[1..]) && LowerAll(f)[1..] == LowerAll(f[1..])
    ensures |f| > 1 ==> LowerAll(f) == [Lower(f[0]), Lower(f[1])] + LowerAll(f[2..]) && LowerAll(f)[2..] == LowerAll(f[2..])
    ensures |f| == 1 ==> |LowerAll(f)| == 1
  {
    if |f| > 1 {
      assert f[1..][1..] == f[2..];
      assert LowerAll(f[1..]) == [Lower(f[1])] + LowerAll(f[2..]);
    }
  }

  lemma {:induction false} LowerCons(p: Piece, ps: seq<Piece>)
    ensures LowerPieces([p] + ps) == [LowerPiece(p)] + LowerPieces(ps)
  {
    assert ([p] + ps)[1..] == ps;
  }

  lemma {:induction false} PairNumbered(f: string)
    requires |f| > 1 && IsField(Parsing, f[0]) && Pair(Parsing, f[0], f[1])
    ensures LowerPieces(Cut(Parsing, f)) == [Field(LowerAll(f[..2]))] + LowerPieces(Cut(Parsing, f[2..]))
    ensures Cut(Numbering, LowerAll(f)) == [Field(LowerAll(f[..2]))] + Cut(Numbering, LowerAll(f[2..]))
  {
    hide LowerPieces, LowerAll;
    LowerCons(Field(f[..2]), Cut(Parsing, f[2..]));
    LowerNext(f);
    LowerNext(f[..2]);
    NothingNumbered();
    assert f[..2][2..] == "";
    var g := LowerAll(f);
    assert g[..2] == LowerAll(f[..2]);
  }

  /** A single letter; the small letter before its stray capital is numbered together with it. */
  lemma {:induction false} SingleNumbered(f: string)
    requires f != "" && IsField(Parsing, f[0]) && !(|f| > 1 && Pair(Parsing, f[0], f[1]))
    ensures LowerPieces(Cut(Parsing, f)) == [Field(LowerAll(f[..1]))] + LowerPieces(Cut(Parsing, f[1..]))
    ensures if |f| > 1 && Pair(Numbering, Lower(f[0]), Lower(f[1]))
            then StrayCapital(f[1]) && Cut(Numbering, LowerAll(f))[0] != Field(LowerAll(f[..1]))
            else Cut(Numbering, LowerAll(f)) == [Field(LowerAll(f[..1]))] + Cut(Numbering, LowerAll(f[1..]))
    ensures |f| > 1 && Pair(Numbering, Lower(f[0]), Lower(f[1])) ==> !NoStrays(f[1..])
  {
    hide LowerPieces, LowerAll;
    LowerCons(Field(f[..1]), Cut(Parsing, f[1..]));
    LowerNext(f);
    LowerNext(f[..1]);
    NothingNumbered();
    assert f[..1][1..] == "";
    var g := LowerAll(f);
    assert g[..1] == LowerAll(f[..1]);
    if |f| > 1 && Pair(Numbering, Lower(f[0]), Lower(f[1])) {
      assert Cut(Numbering, g)[0] == Field(g[..2]);
      assert StrayCapital(f[1..][0]);
    }
  }

  lemma {:induction false} CharNumbered(f: string)
    requires f != "" && !IsField(Parsing, f[0])
    ensures LowerPieces(Cut(Parsing, f)) == [Char(Lower(f[0]))] + LowerPieces(Cut(Parsing, f[1..]))
    ensures if StrayCapital(f[0]) then Cut(Numbering, LowerAll(f))[0] != Char(Lower(f[0]))
            else Cut(Numbering, LowerAll(f)) == [Char(Lower(f[0]))] + Cut(Numbering, LowerAll(f[1..]))
  {
    hide LowerPieces, LowerAll;
    LowerCons(Char(f[0]), Cut(Parsing, f[1..]));
    LowerNext(f);
  }

  /** Then every group is numbered under its own letter. */
  lemma {:induction false} GroupsNumbered(f: string)
    requires NoSpecials(f) && NoStrays(f)
    ensures FirstLetters(Fields(Cut(Numbering, LowerAll(f)))) == GroupLetters(Cut(Parsing, f))
  {
    hide Cut;
    NumberedAsParsed(f);
    FieldsAreGroups(f);
    LettersLowered(Cut(Parsing, f));
  }

  predicate ProperFields(ps: seq<Piece>) {
    forall k :: 0 <= k < |ps| && ps[k].Field? ==> ps[k].text != "" && IsGroup(PatternOf(ps[k]))
  }

  /** Every field of a format becomes a group of the pattern. */
  lemma {:induction false} FieldsAreGroups(f: string)
    ensures ProperFields(Cut(Parsing, f))
    decreases |f|
  {
    if f != "" {
      if IsField(Parsing, f[0]) && |f| > 1 && Pair(Parsing, f[0], f[1]) { FieldsAreGroups(f[2..]); } else { FieldsAreGroups(f[1..]); }
    }
  }

  lemma {:induction false} LettersLowered(ps: seq<Piece>)
    requires ProperFields(ps)
    ensures FirstLetters(Fields(LowerPieces(ps))) == GroupLetters(ps)
  {
    if ps != [] {
      LettersLowered(ps[1..]);
      var rest := LowerPieces(ps[1..]);
      assert ([LowerPiece(ps[0])] + rest)[1..] == rest;
      match ps[0]
      case Char(c) => assert [] + Fields(rest) == Fields(rest) && [] + GroupLetters(ps[1..]) == GroupLetters(ps[1..]);
      case Field(x) =>
        LowerNext(x);
        assert ([LowerAll(x)] + Fields(rest))[1..] == Fields(rest);
    }
  }

  function Letters(parts: seq<Part>): seq<char> {
    if parts == [] then []
    else (match parts[0] case Of(k) => [LetterOf(k)] case Separator(_) => []) + Letters(parts[1..])
  }

  function FirstLetters(fields: seq<string>): seq<char> {
    if fields == [] then [] else (if fields[0] == "" then [] else [fields[0][0]]) + FirstLetters(fields[1..])
  }

  /** In particular, the groups of the formats spelled here are numbered in the order of their
    * fields. */
  lemma {:induction false} NumberedSpelled(parts: seq<Part>)
    requires Fine(parts)
    ensures FirstLetters(Fields(Cut(Numbering, LowerAll(Spell(parts))))) == Letters(parts)
  {
    hide Cut;
    SpelledPlain(parts);
    GroupsNumbered(Spell(parts));
    CutSpelled(Parsing, parts);
    LettersOfPieces(parts);
  }

  lemma {:induction false} SpelledPlain(parts: seq<Part>)
    requires Fine(parts)
    ensures NoSpecials(Spell(parts)) && NoStrays(Spell(parts))
  {
    if parts != [] { SpelledPlain(parts[1..]); }
  }

  lemma {:induction false} LettersOfPieces(parts: seq<Part>)
    ensures GroupLetters(Pieces(parts)) == Letters(parts)
  {
    hide PatternOf, Spelling, LetterOf;
    if parts != [] {
      LettersOfPieces(parts[1..]);
      assert Pieces(parts)[1..] == Pieces(parts[1..]);
      if parts[0].Of? { GroupOfKind(parts[0].kind); }
    }
  }

  lemma {:induction false} GroupOfKind(k: Kind)
    ensures IsGroup(PatternOf(Field(Spelling(k)))) && Spelling(k) != "" && Lower(Spelling(k)[0]) == LetterOf(k)
  {
  }

  function LetterPosition(letters: seq<char>, letter: char): nat {
    if letters == [] then 0
    else if letters[0] == letter then 1
    else if LetterPosition(letters[1..], letter) == 0 then 0
    else 1 + LetterPosition(letters[1..], letter)
  }

  predicate NoneEmpty(fields: seq<string>) {
    forall k :: 0 <= k < |fields| ==> fields[k] != ""
  }

  lemma {:induction false} PositionIs(fields: seq<string>, letter: char)
    requires NoneEmpty(fields)
    ensures Position(fields, letter) == LetterPosition(FirstLetters(fields), letter)
  {
    if fields != [] {
      PositionIs(fields[1..], letter);
      assert ([fields[0][0]] + FirstLetters(fields[1..]))[1..] == FirstLetters(fields[1..]);
    }
  }

  lemma {:induction false} FieldsNotEmpty(p: Purpose, f: string)
    ensures NoneEmpty(Fields(Cut(p, f)))
    decreases |f|
  {
    if f != "" {
      if !IsField(p, f[0]) {
        FieldsNotEmpty(p, f[1..]);
      } else if |f| > 1 && Pair(p, f[0], f[1]) {
        FieldsNotEmpty(p, f[2..]);
      } else {
        FieldsNotEmpty(p, f[1..]);
      }
    }
  }

  // ------------------------------------------------------------------------------- the texts

  function TwoDigits(n: nat): string
    requires n < 100
  {
    [Digit(n / 10), Digit(n % 10)]
  }

  function ThreeDigits(n: nat): string
    requires n < 1000
  {
    [Digit(n / 100), Digit(n / 10 % 10), Digit(n % 10)]
  }

  /** What a field prints. */
  function KindText(k: Kind, t: Time): string
    requires InRange(t)
  {
    match k
    case Hours24 => TwoDigits(t.hour)
    case Hours12 => TwoDigits(Twelve(t.hour))
    case Minutes => TwoDigits(t.minute)
    case Seconds => TwoDigits(t.second)
    case Millis => ThreeDigits(t.millisec)
    case Micros => ThreeDigits(t.microsec)
    case AmPm => Marker(t)
  }

  lemma {:induction false} TwoDigitsIs(n: nat)
    requires n < 100
    ensures LastOf("0" + Decimal(n), 2) == TwoDigits(n) && Read(TwoDigits(n)) == n
  {
    hide Read, Decimal;
    TwoDecimals(n);
    ReadMore([], n / 10);
    ReadMore([Digit(n / 10)], n % 10);
    assert [] + [Digit(n / 10)] == [Digit(n / 10)] && [Digit(n / 10)] + [Digit(n % 10)] == TwoDigits(n);
    ReadNothing();
  }

  lemma {:induction false} ReadNothing()
    ensures Read("") == 0
  {
  }

  lemma {:induction false} ReadMore(s: string, d: nat)
    requires d < 10
    ensures Read(s + [Digit(d)]) == 10 * Read(s) + d
  {
    assert (s + [Digit(d)])[..|s|] == s;
  }

  lemma {:induction false} TwoDecimals(n: nat)
    requires n < 100
    ensures Decimal(n) == if n < 10 then [Digit(n)] else TwoDigits(n)
    ensures n < 10 ==> TwoDigits(n) == "0" + [Digit(n)]
  {
    assert n >= 10 ==> Decimal(n / 10) == [Digit(n / 10)];
  }

  lemma {:induction false} ThreeDecimals(n: nat)
    requires n < 1000
    ensures n < 10 ==> Decimal(n) == [Digit(n)] && ThreeDigits(n) == "00" + [Digit(n)]
    ensures 10 <= n < 100 ==> Decimal(n) == TwoDigits(n) && ThreeDigits(n) == "0" + TwoDigits(n)
    ensures n >= 100 ==> Decimal(n) == ThreeDigits(n)
  {
    hide Decimal, TwoDigits, ThreeDigits, Digit;
    if n < 100 {
      TwoDecimals(n);
      SmallThree(n);
      if n < 10 { assert "0" + ("0" + [Digit(n)]) == "00" + [Digit(n)]; }
    } else {
      TwoDecimals(n / 10);
      MoreDecimals(n);
      ThreeFromTwo(n);
    }
  }

  lemma {:induction false} SmallThree(n: nat)
    requires n < 100
    ensures ThreeDigits(n) == "0" + TwoDigits(n)
  {
    assert n / 100 == 0 && n / 10 % 10 == n / 10;
    assert Digit(0) == '0';
  }

  lemma {:induction false} MoreDecimals(n: nat)
    requires n >= 10
    ensures Decimal(n) == Decimal(n / 10) + [Digit(n % 10)]
  {
  }

  lemma {:induction false} ThreeDigitsIs(n: nat)
    requires n < 1000
    ensures LastOf("00" + Decimal(n), 3) == ThreeDigits(n) && Read(ThreeDigits(n)) == n
  {
    hide Read, Decimal, LastOf;
    TwoDigitsIs(n / 10);
    ReadMore(TwoDigits(n / 10), n % 10);
    ThreeFromTwo(n);
    LastThree(n);
  }

  lemma {:induction false} ThreeFromTwo(n: nat)
    requires n < 1000
    ensures TwoDigits(n / 10) + [Digit(n % 10)] == ThreeDigits(n)
  {
    assert n / 10 / 10 == n / 100;
  }

  lemma {:induction false} LastThree(n: nat)
    requires n < 1000
    ensures LastOf("00" + Decimal(n), 3) == ThreeDigits(n)
  {
    hide Decimal;
    ThreeDecimals(n);
    var w := "00" + Decimal(n);
    if n >= 100 {
      assert w[2..] == ThreeDigits(n);
    } else if n >= 10 {
      assert w == "0" + ThreeDigits(n);
      assert w[1..] == ThreeDigits(n);
    }
  }

  lemma {:induction false} KindTextIs(k: Kind, t: Time)
    requires InRange(t)
    ensures PieceText(Field(Spelling(k)), t) == KindText(k, t)
  {
    hide Decimal, LastOf, TwoDigits, ThreeDigits;
    TwoDigitsIs(t.hour);
    TwoDigitsIs(Twelve(t.hour));
    TwoDigitsIs(t.minute);
    TwoDigitsIs(t.second);
    ThreeDigitsIs(t.millisec);
    ThreeDigitsIs(t.microsec);
  }

  function PartText(p: Part, t: Time): string
    requires InRange(t)
  {
    match p
    case Of(k) => KindText(k, t)
    case Separator(c) => [c]
  }

  function Printed(parts: seq<Part>, t: Time): string
    requires InRange(t)
  {
    if parts == [] then "" else PartText(parts[0], t) + Printed(parts[1..], t)
  }

  lemma {:induction false} TextsAre(parts: seq<Part>, t: Time)
    requires InRange(t)
    ensures Texts(Pieces(parts), t) == Printed(parts, t)
  {
    hide PieceText, KindText, Spelling;
    if parts != [] {
      TextsAre(parts[1..], t);
      OneText(parts[0], t);
    }
  }

  lemma {:induction false} OneText(p: Part, t: Time)
    requires InRange(t)
    ensures PieceText(PieceOf(p), t) == PartText(p, t)
  {
    hide KindText, Spelling;
    if p.Of? { KindTextIs(p.kind, t); }
  }

  // ------------------------------------------------------------------------------- the groups

  function GroupTexts(parts: seq<Part>, t: Time): seq<string>
    requires InRange(t)
  {
    if parts == [] then []
    else (match parts[0] case Of(k) => [KindText(k, t)] case Separator(_) => []) + GroupTexts(parts[1..], t)
  }

  /** The first length tried is that of the printed text. */
  lemma {:induction false} FirstLength(p: Part, t: Time, rest: string)
    requires InRange(t) && (p.Separator? ==> IsSeparator(p.c))
    ensures var ls := Lengths(PatternOf(PieceOf(p)), PartText(p, t) + rest);
            ls != [] && ls[0] == |PartText(p, t)|
    ensures IsGroup(PatternOf(PieceOf(p))) == p.Of?
  {
    match p
    case Separator(c) =>
      var text := PartText(p, t) + rest;
      assert text[..1] == [c] && text[0] == c;
    case Of(k) => KindLength(k, t, rest);
  }

  lemma {:induction false} KindLength(k: Kind, t: Time, rest: string)
    requires InRange(t)
    ensures var q := PatternOf(Field(Spelling(k)));
            var ls := Lengths(q, KindText(k, t) + rest);
            ls != [] && ls[0] == |KindText(k, t)| && IsGroup(q)
  {
    hide DigitRun, StartsWith, LowerAll;
    match k
    case AmPm => MarkerLength(t, rest);
    case Millis => ThreeRun(t.millisec, rest);
    case Micros => ThreeRun(t.microsec, rest);
    case Hours24 => TwoRun(t.hour, rest);
    case Hours12 => TwoRun(Twelve(t.hour), rest);
    case Minutes => TwoRun(t.minute, rest);
    case Seconds => TwoRun(t.second, rest);
  }

  lemma {:induction false} TwoRun(n: nat, rest: string)
    requires n < 100
    ensures DigitRun(TwoDigits(n) + rest) >= 2
  {
    var t := TwoDigits(n) + rest;
    assert IsDigitChar(t[0]) && IsDigitChar(t[1..][0]);
    assert DigitRun(t[1..]) >= 1;
  }

  lemma {:induction false} ThreeRun(n: nat, rest: string)
    requires n < 1000
    ensures DigitRun(ThreeDigits(n) + rest) >= 3
  {
    var t := ThreeDigits(n) + rest;
    assert IsDigitChar(t[0]) && IsDigitChar(t[1..][0]) && IsDigitChar(t[1..][1..][0]);
    assert DigitRun(t[1..][1..]) >= 1;
    assert DigitRun(t[1..]) >= 2;
  }

  lemma {:induction false} MarkerLength(t: Time, rest: string)
    ensures var ls := Lengths(Markers, Marker(t) + rest); ls != [] && ls[0] == 2
  {
    var text := Marker(t) + rest;
    assert text[..2] == Marker(t) && text[..1] == Marker(t)[..1];
    assert AM[..1] == "A" && PM[..1] == "P";
    assert LowerAll("M") == "m" && AM[1..] == "M" && PM[1..] == "M";
    assert LowerAll(AM) == "am" && LowerAll(PM) == "pm" && LowerAll("A") == "a" && LowerAll("P") == "p";
    assert "am"[0] != "pm"[0] && "a"[0] != "p"[0];
  }

  /** A printed time matches the pattern of its format, each group taking its field's text. */
  lemma {:induction false} PrintedMatches(parts: seq<Part>, t: Time)
    requires InRange(t) && Fine(parts)
    ensures MatchAll(Patterns(Pieces(parts)), Printed(parts, t)) == Groups(GroupTexts(parts, t))
  {
    hide PatternOf, Lengths, PartText, IsGroup;
    if parts != [] {
      var ps, text, rest := Patterns(Pieces(parts)), Printed(parts, t), Printed(parts[1..], t);
      PrintedMatches(parts[1..], t);
      FirstLength(parts[0], t, rest);
      var n := |PartText(parts[0], t)|;
      assert text[n..] == rest && text[..n] == PartText(parts[0], t);
      assert ps[1..] == Patterns(Pieces(parts[1..]));
      OfText(parts[0], t);
    }
  }

  lemma {:induction false} OfText(p: Part, t: Time)
    requires InRange(t)
    ensures p.Of? ==> PartText(p, t) == KindText(p.kind, t)
  {
  }

  // --------------------------------------------------------------------------- what comes back

  /** The first field under a letter. */
  datatype Found = Nothing | First(kind: Kind)

  function FirstOf(parts: seq<Part>, letter: char): Found {
    if parts == [] then Nothing
    else if parts[0].Of? && LetterOf(parts[0].kind) == letter then First(parts[0].kind)
    else FirstOf(parts[1..], letter)
  }

  lemma {:induction false} GroupOf(parts: seq<Part>, letter: char, t: Time)
    requires InRange(t)
    ensures var k, g := LetterPosition(Letters(parts), letter), GroupTexts(parts, t);
            match FirstOf(parts, letter)
            case Nothing => k == 0
            case First(kind) => 0 < k <= |g| && g[k - 1] == KindText(kind, t)
  {
    hide KindText, LetterOf;
    if parts != [] {
      GroupOf(parts[1..], letter, t);
      var more, g := Letters(parts[1..]), GroupTexts(parts[1..], t);
      match parts[0]
      case Of(kind) => NextPosition(LetterOf(kind), more, letter);
      case Separator(_) => assert [] + more == more && [] + g == g;
    }
  }

  lemma {:induction false} NextPosition(x: char, letters: seq<char>, letter: char)
    ensures LetterPosition([x] + letters, letter) ==
            if x == letter then 1 else if LetterPosition(letters, letter) == 0 then 0 else 1 + LetterPosition(letters, letter)
  {
    assert ([x] + letters)[1..] == letters;
  }

  lemma {:induction false} FirstHasLetter(parts: seq<Part>, letter: char)
    ensures FirstOf(parts, letter).First? ==> LetterOf(FirstOf(parts, letter).kind) == letter
  {
    if parts != [] { FirstHasLetter(parts[1..], letter); }
  }

  /** The hour that comes back. */
  function HourBack(hours: Found, marked: bool, hour: nat): nat {
    match hours
    case First(Hours24) => if marked && hour > 12 then hour + 12 else hour
    case First(Hours12) => if marked then hour else Twelve(hour)
    case _ => 0
  }

  lemma {:induction false} HourRead(kind: Kind, marked: bool, t: Time, groups: seq<string>, h: nat, m: nat)
    requires InRange(t) && (kind == Hours24 || kind == Hours12)
    requires 0 < h <= |groups| && groups[h - 1] == KindText(kind, t)
    requires if marked then 0 < m <= |groups| && groups[m - 1] == Marker(t) else m == 0
    ensures HourValue(groups, h, m) == Number(HourBack(First(kind), marked, t.hour))
  {
    hide Read, Decimal, TwoDigits, IsAmName, LastOf;
    var n := if kind == Hours24 then t.hour else Twelve(t.hour);
    TwoDigitsIs(n);
    IsTwelve(n);
    MarkerNames(t);
  }

  lemma {:induction false} IsTwelve(n: nat)
    requires n < 100
    ensures TwoDigits(n) == "12" <==> n == 12
  {
    if TwoDigits(n) == "12" {
      assert TwoDigits(n)[0] == '1' && TwoDigits(n)[1] == '2';
    }
  }

  lemma {:induction false} MarkerNames(t: Time)
    ensures Marker(t) != "" && (IsAmName(Marker(t)) <==> t.hour <= 11)
  {
    assert LowerAll("M") == "m" && AM[1..] == "M" && PM[1..] == "M";
    assert LowerAll(AM) == "am" && LowerAll(PM) == "pm";
    assert "am"[0] != "pm"[0] && "a"[0] != "pm"[0];
  }

  function Back(found: Found, n: nat): Value {
    Number(if found == Nothing then 0 else n)
  }

  /** For every format of these fields, in any order and number, and every time of the day: the
    * printed time parses, the minute, second, millisecond and microsecond come back where the format
    * has them, and the hour is `HourBack`. */
  lemma {:induction false} PrintedParses(parts: seq<Part>, t: Time)
    requires InRange(t) && Fine(parts)
    ensures StrictParse(Spell(parts), FormatTime(Spell(parts), t)) ==
            Result(Number(HourBack(FirstOf(parts, 'h'), FirstOf(parts, 't').First?, t.hour)),
                   Back(FirstOf(parts, 'm'), t.minute), Back(FirstOf(parts, 's'), t.second),
                   Back(FirstOf(parts, 'l'), t.millisec), Back(FirstOf(parts, 'c'), t.microsec))
  {
    hide Cut, Spell, HourValue, HourBack, KindText, GroupTexts, Position, FirstOf;
    CutSpelled(Printing, parts);
    CutSpelled(Parsing, parts);
    TextsAre(parts, t);
    PrintedMatches(parts, t);
    NumberParses(parts, 'm', t);
    NumberParses(parts, 's', t);
    NumberParses(parts, 'l', t);
    NumberParses(parts, 'c', t);
    HourParses(parts, t);
  }

  lemma {:induction false} PlaceOf(parts: seq<Part>, letter: char, t: Time)
    requires InRange(t) && Fine(parts)
    ensures var k, g := Position(Fields(Cut(Numbering, LowerAll(Spell(parts)))), letter), GroupTexts(parts, t);
            match FirstOf(parts, letter)
            case Nothing => k == 0
            case First(kind) => 0 < k <= |g| && g[k - 1] == KindText(kind, t) && LetterOf(kind) == letter
  {
    hide Cut, Spell, KindText, GroupTexts, Position, FirstOf, LetterOf;
    NumberedSpelled(parts);
    FieldsNotEmpty(Numbering, LowerAll(Spell(parts)));
    PositionIs(Fields(Cut(Numbering, LowerAll(Spell(parts)))), letter);
    GroupOf(parts, letter, t);
    FirstHasLetter(parts, letter);
  }

  lemma {:induction false} NumberParses(parts: seq<Part>, letter: char, t: Time)
    requires InRange(t) && Fine(parts) && (letter == 'm' || letter == 's' || letter == 'l' || letter == 'c')
    ensures GroupValue(GroupTexts(parts, t), Position(Fields(Cut(Numbering, LowerAll(Spell(parts)))), letter)) ==
            Back(FirstOf(parts, letter),
                 if letter == 'm' then t.minute else if letter == 's' then t.second
                 else if letter == 'l' then t.millisec else t.microsec)
  {
    hide Cut, Spell, GroupTexts, Position, FirstOf, Read, TwoDigits, ThreeDigits;
    PlaceOf(parts, letter, t);
    TwoDigitsIs(t.minute);
    TwoDigitsIs(t.second);
    ThreeDigitsIs(t.millisec);
    ThreeDigitsIs(t.microsec);
  }

  lemma {:induction false} HourParses(parts: seq<Part>, t: Time)
    requires InRange(t) && Fine(parts)
    ensures var fields := Fields(Cut(Numbering, LowerAll(Spell(parts))));
            HourValue(GroupTexts(parts, t), Position(fields, 'h'), Position(fields, 't')) ==
            Number(HourBack(FirstOf(parts, 'h'), FirstOf(parts, 't').First?, t.hour))
  {
    hide Cut, Spell, GroupTexts, Position, FirstOf, TwoDigits, ThreeDigits;
    PlaceOf(parts, 'h', t);
    PlaceOf(parts, 't', t);
    var fields, g := Fields(Cut(Numbering, LowerAll(Spell(parts)))), GroupTexts(parts, t);
    match FirstOf(parts, 'h')
    case Nothing =>
    case First(kind) =>
      HourRead(kind, FirstOf(parts, 't').First?, t, g, Position(fields, 'h'), Position(fields, 't'));
  }

  /** When the hour comes back unchanged: a 24-hour field loses it only beside a marker and after
    * noon's hour, a 12-hour field only without one, before one and after twelve. */
  lemma {:induction false} HourExact(hours: Kind, marked: bool, hour: nat)
    requires hour < 24 && (hours == Hours24 || hours == Hours12)
    ensures HourBack(First(hours), marked, hour) == hour <==>
            if hours == Hours24 then !marked || hour <= 12 else marked || 1 <= hour <= 12
  {
  }

  /** A format outside that condition: a capital `M` is no field for the parser, but it is numbered as
    * one, and then the seconds are read from a group that is not there. */
  lemma {:induction false} CapitalsMisnumber(s: string)
    requires |s| == 4 && s[..2] == "MM" && IsDigitChar(s[2]) && IsDigitChar(s[3])
    ensures var r := StrictParse("MMss", s); r.Result? && r.second == NaN
  {
    hide Cut, Patterns, Fields, MatchAll, LowerAll, HourValue, Read, Position;
    CapitalLower();
    CapitalFields();
    CapitalPattern();
    CapitalMatch(s);
    CapitalPosition();
  }

  lemma {:induction false} CapitalLower()
    ensures LowerAll("MMss") == "mmss"
  {
    assert "MMss"[1..] == "Mss" && "Mss"[1..] == "ss" && "ss"[1..] == "s" && "s"[1..] == "";
    assert LowerAll("s") == "s" && LowerAll("ss") == "ss" && LowerAll("Mss") == "mss";
  }

  lemma {:induction false} CapitalPosition()
    ensures Position(["mm", "ss"], 's') == 2
  {
    assert ["mm", "ss"][1..] == ["ss"];
    assert Position(["ss"], 's') == 1;
  }

  lemma {:induction false} CapitalFields()
    ensures Fields(Cut(Numbering, "mmss")) == ["mm", "ss"]
  {
    assert "mmss"[2..] == "ss" && "mmss"[..2] == "mm" && "ss"[2..] == "" && "ss"[..2] == "ss";
    assert Cut(Numbering, "ss") == [Field("ss")];
    assert Cut(Numbering, "mmss") == [Field("mm")] + [Field("ss")];
    assert [Field("mm"), Field("ss")][1..] == [Field("ss")] && [Field("ss")][1..] == [];
    assert Fields([Field("ss")]) == ["ss"];
  }

  lemma {:induction false} CapitalPattern()
    ensures Patterns(Cut(Parsing, "MMss")) == [Letter('M'), Letter('M'), Two]
  {
    assert "MMss"[1..] == "Mss" && "Mss"[1..] == "ss" && "ss"[2..] == "" && "ss"[..2] == "ss";
    assert Cut(Parsing, "ss") == [Field("ss")];
    assert Cut(Parsing, "Mss") == [Char('M')] + [Field("ss")];
    assert Cut(Parsing, "MMss") == [Char('M')] + [Char('M'), Field("ss")];
    assert [Char('M'), Char('M'), Field("ss")][1..] == [Char('M'), Field("ss")];
    assert [Char('M'), Field("ss")][1..] == [Field("ss")] && [Field("ss")][1..] == [];
    assert Patterns([Field("ss")]) == [Two];
    assert Patterns([Char('M'), Field("ss")]) == [Letter('M'), Two];
  }

  lemma {:induction false} CapitalMatch(s: string)
    requires |s| == 4 && s[..2] == "MM" && IsDigitChar(s[2]) && IsDigitChar(s[3])
    ensures MatchAll([Letter('M'), Letter('M'), Two], s) == Groups([s[2..]])
  {
    var a, b := s[1..], s[2..];
    assert s[0] == s[..2][0] && s[1] == s[..2][1];
    assert a[1..] == b && b[2..] == "" && b[..2] == b;
    assert DigitRun(b[1..]) >= 1;
    assert Lengths(Two, b) == [2];
    assert [Letter('M'), Letter('M'), Two][1..] == [Letter('M'), Two] && [Letter('M'), Two][1..] == [Two] && [Two][1..] == [];
    assert MatchAll([], "") == Groups([]);
    assert MatchAll([Two], b) == Groups([b]);
    assert a[..1] == "M" && s[..1] == "M";
    assert MatchAll([Letter('M'), Two], a) == Groups([b]);
  }

  /** What comes back instead: beside a marker a 24-hour field gives the hours after twelve twelve hours
    * late, and a 12-hour field without one gives the hour as a clock face shows it. */
  lemma {:induction false} HourLate(hours: Kind, marked: bool, hour: nat)
    requires hour < 24 && (hours == Hours24 || hours == Hours12)
    requires HourBack(First(hours), marked, hour) != hour
    ensures HourBack(First(hours), marked, hour) ==
            if hours == Hours24 then hour + 12 else if hour == 0 then 12 else hour - 12
  {
  }

  /** The text is the number in decimal, without a zero in front. */
  predicate Shortest(s: string, n: nat) {
    Read(s) == n && s != "" && (n > 0 ==> s[0] != '0') && (n == 0 ==> s == "0")
  }

  /** What the other fields print: single letters a number without padding, or the first letter of the
    * marker, and small letters a small marker. */
  lemma {:induction false} OtherFieldsAre(t: Time)
    requires InRange(t)
    ensures Shortest(PieceText(Field("H"), t), t.hour)
    ensures Shortest(PieceText(Field("h"), t), if t.hour == 0 then 12 else if t.hour <= 12 then t.hour else t.hour - 12)
    ensures Shortest(PieceText(Field("m"), t), t.minute)
    ensures Shortest(PieceText(Field("s"), t), t.second)
    ensures PieceText(Field("T"), t) == if t.hour < 12 then "A" else "P"
    ensures PieceText(Field("TT"), t) == if t.hour < 12 then "AM" else "PM"
    ensures PieceText(Field("t"), t) == if t.hour < 12 then "a" else "p"
    ensures PieceText(Field("tt"), t) == if t.hour < 12 then "am" else "pm"
  {
    hide Decimal, Read, LastOf, LowerAll;
    DecimalShortest(t.hour);
    DecimalShortest(Twelve(t.hour));
    DecimalShortest(t.minute);
    DecimalShortest(t.second);
    SmallMarkers();
    FieldNames();
  }

  lemma {:induction false} DecimalShortest(n: nat)
    ensures Shortest(Decimal(n), n)
  {
    DecimalReads(n);
  }

  lemma {:induction false} SmallMarkers()
    ensures LowerAll("AM") == "am" && LowerAll("PM") == "pm" && "AM"[..1] == "A" && "PM"[..1] == "P"
    ensures "am"[..1] == "a" && "pm"[..1] == "p"
  {
    assert LowerAll("M") == "m" && "AM"[1..] == "M" && "PM"[1..] == "M";
  }

  /** The names of the fields differ. */
  lemma {:induction false} FieldNames()
    ensures "H"[0] == 'H' && "h"[0] == 'h' && "m"[0] == 'm' && "s"[0] == 's' && "T"[0] == 'T' && "t"[0] == 't'
    ensures "l"[0] == 'l' && "c"[0] == 'c' && "TT"[0] == 'T' && "tt"[0] == 't'
  {
  }
}
