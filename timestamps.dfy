/**
 * The part of Go's `time.Parse` that the DATE field uses: the two layouts
 * "01/02/2006 03:04:05 PM" and "01/02/2006 15:04:05", read element by element
 * as Go walks a layout, with no time zone (the result is UTC).
 */
module Timestamps {
  import opened Wrappers
  import opened Decimal

  datatype DateTime = DateTime(year: int, month: int, day: int, hour: int, minute: int, second: int)

  /** Go's zero `time.Time`: January 1 of year 1, 00:00:00 UTC. */
  const Zero: DateTime := DateTime(1, 1, 1, 0, 0, 0)

  predicate IsLeap(year: int) {
    year % 4 == 0 && (year % 100 != 0 || year % 400 == 0)
  }

  function DaysIn(month: int, year: int): int
    requires 1 <= month <= 12
  {
    if month == 2 then (if IsLeap(year) then 29 else 28)
    else if month == 4 || month == 6 || month == 9 || month == 11 then 30
    else 31
  }

  /** A calendar date and time of day that the four-digit-year layouts can spell. */
  predicate Valid(d: DateTime) {
    && 0 <= d.year <= 9999
    && 1 <= d.month <= 12
    && 1 <= d.day <= DaysIn(d.month, d.year)
    && 0 <= d.hour < 24
    && 0 <= d.minute < 60
    && 0 <= d.second < 60
  }

  /** The layout elements that occur in the two layouts. */
  datatype Element =
    | Month2   // "01"
    | Day2     // "02"
    | Year4    // "2006"
    | Hour24   // "15": one or two digits
    | Hour12   // "03"
    | Minute2  // "04"
    | Second2  // "05"
    | AmPm     // "PM"
    | Space    // a layout space: one or more spaces in the text
    | Lit(c: char)

  /** "01/02/2006 03:04:05 PM" */
  const Layout12: seq<Element> :=
    [Month2, Lit('/'), Day2, Lit('/'), Year4, Space, Hour12, Lit(':'), Minute2, Lit(':'), Second2, Space, AmPm]

  /** "01/02/2006 15:04:05" */
  const Layout24: seq<Element> :=
    [Month2, Lit('/'), Day2, Lit('/'), Year4, Space, Hour24, Lit(':'), Minute2, Lit(':'), Second2]

  /** What has been read so far; `pm` is set by the AM/PM element. */
  datatype Fields = Fields(year: int, month: int, day: int, hour: int, minute: int, second: int, pm: Option<bool>)

  const Unread: Fields := Fields(0, -1, -1, 0, 0, 0, None)

  datatype Number = Number(value: nat, rest: string)

  datatype Scanned = Scanned(fields: Fields, rest: string)

  /** Exactly `width` digits. */
  function Fixed(s: string, width: nat): (r: Option<Number>)
    ensures r.Some? ==> width <= |s| && r.value.rest == s[width..]
  {
    if width <= |s| && AllDigits(s[..width]) then Some(Number(Value(s[..width]), s[width..])) else None
  }

  /** One digit, or two when a second one follows (Go's non-fixed `getnum`). */
  function Loose2(s: string): (r: Option<Number>)
    ensures r.Some? ==> r.value.value < 100
  {
    if |s| == 0 || !IsDigit(s[0]) then None
    else if |s| == 1 || !IsDigit(s[1]) then Some(Number(DigitValue(s[0]), s[1..]))
    else Some(Number(DigitValue(s[0]) * 10 + DigitValue(s[1]), s[2..]))
  }

  function TrimSpaces(s: string): (r: string)
    ensures |r| <= |s|
    ensures r == [] || r[0] != ' '
  {
    if |s| > 0 && s[0] == ' ' then TrimSpaces(s[1..]) else s
  }

  /** Reads one layout element from the front of `s`. */
  function ScanElement(e: Element, s: string, f: Fields): Option<Scanned> {
    match e
    case Month2 =>
      var n :- Fixed(s, 2);
      if 1 <= n.value <= 12 then Some(Scanned(f.(month := n.value), n.rest)) else None
    case Day2 =>
      var n :- Fixed(s, 2);
      Some(Scanned(f.(day := n.value), n.rest))
    case Year4 =>
      var n :- Fixed(s, 4);
      Some(Scanned(f.(year := n.value), n.rest))
    case Hour24 =>
      var n :- Loose2(s);
      if n.value < 24 then Some(Scanned(f.(hour := n.value), n.rest)) else None
    case Hour12 =>
      var n :- Fixed(s, 2);
      if n.value <= 12 then Some(Scanned(f.(hour := n.value), n.rest)) else None
    case Minute2 =>
      var n :- Fixed(s, 2);
      if n.value < 60 then Some(Scanned(f.(minute := n.value), n.rest)) else None
    case Second2 =>
      var n :- Fixed(s, 2);
      if n.value < 60 then Some(Scanned(f.(second := n.value), n.rest)) else None
    case AmPm =>
      if |s| >= 2 && s[..2] == "AM" then Some(Scanned(f.(pm := Some(false)), s[2..]))
      else if |s| >= 2 && s[..2] == "PM" then Some(Scanned(f.(pm := Some(true)), s[2..]))
      else None
    case Space =>
      if |s| > 0 && s[0] != ' ' then None else Some(Scanned(f, TrimSpaces(s)))
    case Lit(c) =>
      if |s| > 0 && s[0] == c then Some(Scanned(f, s[1..])) else None
  }

  function Scan(layout: seq<Element>, s: string, f: Fields): Option<Scanned>
    decreases |layout|
  {
    if layout == [] then Some(Scanned(f, s))
    else
      var r :- ScanElement(layout[0], s, f);
      Scan(layout[1..], r.rest, r.fields)
  }

  /** The hour of day once the AM/PM element has been applied to a 12-hour reading. */
  function ClockHour(f: Fields): int {
    if f.pm == Some(true) && f.hour < 12 then f.hour + 12
    else if f.pm == Some(false) && f.hour == 12 then 0
    else f.hour
  }

  /**
   * `time.Parse(layout, s)`: the whole text must match the layout, and the
   * day must exist in the month read; `None` stands for Go's parse error.
   */
  function ParseLayout(layout: seq<Element>, s: string): (r: Option<DateTime>)
    ensures r.Some? ==> Valid(r.value)
  {
    var scanned :- Scan(layout, s, Unread);
    var f := scanned.fields;
    var d := DateTime(f.year, f.month, f.day, ClockHour(f), f.minute, f.second);
    if scanned.rest == [] && Valid(d) then Some(d) else None
  }

  function Parse12(s: string): (r: Option<DateTime>)
    ensures r.Some? ==> Valid(r.value)
  {
    ParseLayout(Layout12, s)
  }

  function Parse24(s: string): (r: Option<DateTime>)
    ensures r.Some? ==> Valid(r.value)
  {
    ParseLayout(Layout24, s)
  }

  // ---------------------------------------------------------------------
  // Formatting (Go's `Time.Format` for the same layouts): the partner that
  // the parser is proved against.

  function Pad2(n: nat): (s: string)
    requires n < 100
    ensures |s| == 2 && AllDigits(s)
  {
    [DigitChar(n / 10), DigitChar(n % 10)]
  }

  function Pad4(n: nat): (s: string)
    requires n < 10000
    ensures |s| == 4 && AllDigits(s)
  {
    [DigitChar(n / 1000), DigitChar(n / 100 % 10), DigitChar(n / 10 % 10), DigitChar(n % 10)]
  }

  /** The hour as a 12-hour clock shows it: 12, 1, ..., 11. */
  function Hour12Of(hour: int): (h: int)
    requires 0 <= hour < 24
    ensures 1 <= h <= 12
  {
    if hour % 12 == 0 then 12 else hour % 12
  }

  function FormatElement(e: Element, d: DateTime): string
    requires Valid(d)
  {
    match e
    case Month2 => Pad2(d.month)
    case Day2 => Pad2(d.day)
    case Year4 => Pad4(d.year)
    case Hour24 => Pad2(d.hour)
    case Hour12 => Pad2(Hour12Of(d.hour))
    case Minute2 => Pad2(d.minute)
    case Second2 => Pad2(d.second)
    case AmPm => if d.hour < 12 then "AM" else "PM"
    case Space => " "
    case Lit(c) => [c]
  }

  function Format(layout: seq<Element>, d: DateTime): string
    requires Valid(d)
    decreases |layout|
  {
    if layout == [] then [] else FormatElement(layout[0], d) + Format(layout[1..], d)
  }

  /** What reading the formatted element sets in the fields. */
  function FillElement(e: Element, d: DateTime, f: Fields): Fields
    requires Valid(d)
  {
    match e
    case Month2 => f.(month := d.month)
    case Day2 => f.(day := d.day)
    case Year4 => f.(year := d.year)
    case Hour24 => f.(hour := d.hour)
    case Hour12 => f.(hour := Hour12Of(d.hour))
    case Minute2 => f.(minute := d.minute)
    case Second2 => f.(second := d.second)
    case AmPm => f.(pm := Some(d.hour >= 12))
    case Space => f
    case Lit(_) => f
  }

  function Fill(layout: seq<Element>, d: DateTime, f: Fields): Fields
    requires Valid(d)
    decreases |layout|
  {
    if layout == [] then f else Fill(layout[1..], d, FillElement(layout[0], d, f))
  }

  /** An element whose text never starts with a space. */
  predicate Solid(e: Element) {
    e != Space && e != Lit(' ')
  }

  /** Every layout space is followed by a solid element, so a space run ends where the next element starts. */
  predicate SpacesSeparated(layout: seq<Element>) {
    forall i :: 0 <= i < |layout| && layout[i] == Space ==> i + 1 < |layout| && Solid(layout[i + 1])
  }

  lemma ValuePad2(n: nat)
    requires n < 100
    ensures Value(Pad2(n)) == n
  {
    var s := Pad2(n);
    assert s[..1][..0] == [];
    assert Value(s[..1]) == n / 10;
    assert Value(s) == Value(s[..1]) * 10 + n % 10;
  }

  lemma ValuePad4(n: nat)
    requires n < 10000
    ensures Value(Pad4(n)) == n
  {
    var s := Pad4(n);
    Places(n);
    assert s[..1][..0] == [];
    assert s[..2][..1] == s[..1];
    assert s[..3][..2] == s[..2];
    assert Value(s[..1]) == n / 1000;
    assert Value(s[..2]) == n / 100;
    assert Value(s[..3]) == n / 10;
  }

  /** Peeling the decimal places of a four-digit number one at a time. */
  lemma Places(n: nat)
    requires n < 10000
    ensures n / 1000 * 10 + n / 100 % 10 == n / 100
    ensures n / 100 * 10 + n / 10 % 10 == n / 10
    ensures n / 10 * 10 + n % 10 == n
  {
    assert n / 100 / 10 == n / 1000;
    assert n / 10 / 10 == n / 100;
  }

  lemma SolidFormat(e: Element, d: DateTime, tail: string)
    requires Valid(d) && Solid(e)
    ensures |FormatElement(e, d) + tail| > 0 && (FormatElement(e, d) + tail)[0] != ' '
  {
  }

  lemma {:induction false} TrimOneSpace(tail: string)
    requires tail == [] || tail[0] != ' '
    ensures TrimSpaces(" " + tail) == tail
  {
    assert (" " + tail)[1..] == tail;
  }

  /** Reading an element's own text sets its field and consumes exactly that text. */
  lemma ScanElementFormat(e: Element, d: DateTime, f: Fields, tail: string)
    requires Valid(d)
    requires e == Space ==> tail == [] || tail[0] != ' '
    ensures ScanElement(e, FormatElement(e, d) + tail, f) == Some(Scanned(FillElement(e, d, f), tail))
  {
    var text := FormatElement(e, d);
    var s := text + tail;
    assert s[|text|..] == tail;
    assert s[..|text|] == text;
    match e
    case Month2 => ValuePad2(d.month);
    case Day2 => ValuePad2(d.day);
    case Year4 => ValuePad4(d.year);
    case Hour24 =>
      ValuePad2(d.hour);
      assert s[..2][..1] == [s[0]];
      assert s[..2][..1][..0] == [];
    case Hour12 => ValuePad2(Hour12Of(d.hour));
    case Minute2 => ValuePad2(d.minute);
    case Second2 => ValuePad2(d.second);
    case AmPm =>
    case Space => TrimOneSpace(tail);
    case Lit(_) =>
  }

  /** Reading a formatted layout back consumes all of it and fills in every element. */
  lemma {:induction false} ScanFormat(layout: seq<Element>, d: DateTime, f: Fields)
    requires Valid(d) && SpacesSeparated(layout)
    ensures Scan(layout, Format(layout, d), f) == Some(Scanned(Fill(layout, d, f), []))
    decreases |layout|
  {
    if layout != [] {
      var tail := Format(layout[1..], d);
      if layout[0] == Space {
        assert layout[1..][0] == layout[1];
        SolidFormat(layout[1], d, Format(layout[2..], d));
        assert tail == FormatElement(layout[1], d) + Format(layout[2..], d);
      }
      ScanElementFormat(layout[0], d, f, tail);
      assert SpacesSeparated(layout[1..]) by {
        forall i | 0 <= i < |layout[1..]| && layout[1..][i] == Space
          ensures i + 1 < |layout[1..]| && Solid(layout[1..][i + 1])
        {
          assert layout[i + 1] == Space;
        }
      }
      ScanFormat(layout[1..], d, FillElement(layout[0], d, f));
    }
  }

  /** The text Go's `Format("01/02/2006 15:04:05")` gives. */
  function Format24(d: DateTime): string
    requires Valid(d)
  {
    Format(Layout24, d)
  }

  /** The text Go's `Format("01/02/2006 03:04:05 PM")` gives. */
  function Format12(d: DateTime): string
    requires Valid(d)
  {
    Format(Layout12, d)
  }

  /** Filling is order-blind: each date field ends up as the element that sets it says. */
  lemma {:induction false} FillDate(layout: seq<Element>, d: DateTime, f: Fields)
    requires Valid(d)
    ensures Fill(layout, d, f).year == if Year4 in layout then d.year else f.year
    ensures Fill(layout, d, f).month == if Month2 in layout then d.month else f.month
    ensures Fill(layout, d, f).day == if Day2 in layout then d.day else f.day
    decreases |layout|
  {
    if layout != [] {
      assert layout == [layout[0]] + layout[1..];
      FillDate(layout[1..], d, FillElement(layout[0], d, f));
    }
  }

  /** The same for the time-of-day fields, when the layout has only one kind of hour. */
  lemma {:induction false} FillClock(layout: seq<Element>, d: DateTime, f: Fields)
    requires Valid(d)
    requires !(Hour12 in layout && Hour24 in layout)
    ensures Fill(layout, d, f).hour ==
      if Hour24 in layout then d.hour else if Hour12 in layout then Hour12Of(d.hour) else f.hour
    ensures Fill(layout, d, f).minute == if Minute2 in layout then d.minute else f.minute
    ensures Fill(layout, d, f).second == if Second2 in layout then d.second else f.second
    ensures Fill(layout, d, f).pm == if AmPm in layout then Some(d.hour >= 12) else f.pm
    decreases |layout|
  {
    if layout != [] {
      assert layout == [layout[0]] + layout[1..];
      FillClock(layout[1..], d, FillElement(layout[0], d, f));
    }
  }

  /**
   * A layout that spells every field once (either kind of hour) reads its own
   * text back as the date and time it was formatted from.
   */
  lemma ParseLayoutFormat(layout: seq<Element>, d: DateTime)
    requires Valid(d) && SpacesSeparated(layout)
    requires Year4 in layout && Month2 in layout && Day2 in layout && Minute2 in layout && Second2 in layout
    requires Hour24 in layout <==> Hour12 !in layout
    requires Hour12 in layout <==> AmPm in layout
    ensures ParseLayout(layout, Format(layout, d)) == Some(d)
  {
    ScanFormat(layout, d, Unread);
    FillRestores(layout, d);
  }

  /** Applying AM/PM to the 12-hour reading of an hour gives the hour back. */
  lemma ClockHourTwelve(f: Fields, hour: int)
    requires 0 <= hour < 24 && f.hour == Hour12Of(hour) && f.pm == Some(hour >= 12)
    ensures ClockHour(f) == hour
  {
  }

  /** The fields filled from a complete layout make up the date and time again. */
  lemma FillRestores(layout: seq<Element>, d: DateTime)
    requires Valid(d)
    requires Year4 in layout && Month2 in layout && Day2 in layout && Minute2 in layout && Second2 in layout
    requires Hour24 in layout <==> Hour12 !in layout
    requires Hour12 in layout <==> AmPm in layout
    ensures var f := Fill(layout, d, Unread);
      DateTime(f.year, f.month, f.day, ClockHour(f), f.minute, f.second) == d
  {
    var f := Fill(layout, d, Unread);
    FillDate(layout, d, Unread);
    FillClock(layout, d, Unread);
    if Hour12 in layout {
      ClockHourTwelve(f, d.hour);
    }
  }

  /** Every date and time the 24-hour layout can spell is read back unchanged. */
  lemma Parse24Format24(d: DateTime)
    requires Valid(d)
    ensures Parse24(Format24(d)) == Some(d)
  {
    Layout24Complete();
    ParseLayoutFormat(Layout24, d);
  }

  lemma Layout24Complete()
    ensures SpacesSeparated(Layout24)
    ensures Year4 in Layout24 && Month2 in Layout24 && Day2 in Layout24 && Minute2 in Layout24 && Second2 in Layout24 && Hour24 in Layout24
    ensures Hour12 !in Layout24 && AmPm !in Layout24
  {
    Spaces24();
    Present24();
    Absent24();
  }

  lemma Present24()
    ensures Year4 in Layout24 && Month2 in Layout24 && Day2 in Layout24 && Minute2 in Layout24 && Second2 in Layout24 && Hour24 in Layout24
  {
    var l := Layout24;
    assert l[0] == Month2 && l[2] == Day2 && l[4] == Year4 && l[6] == Hour24 && l[8] == Minute2 && l[10] == Second2;
  }

  lemma Absent24()
    ensures Hour12 !in Layout24 && AmPm !in Layout24
  {
  }

  lemma Spaces24()
    ensures SpacesSeparated(Layout24)
  {
  }

  /** Every date and time the 12-hour layout can spell is read back unchanged, AM/PM included. */
  lemma Parse12Format12(d: DateTime)
    requires Valid(d)
    ensures Parse12(Format12(d)) == Some(d)
  {
    Layout12Complete();
    ParseLayoutFormat(Layout12, d);
  }

  lemma Layout12Complete()
    ensures SpacesSeparated(Layout12)
    ensures Year4 in Layout12 && Month2 in Layout12 && Day2 in Layout12 && Minute2 in Layout12 && Second2 in Layout12 && Hour12 in Layout12 && AmPm in Layout12
    ensures Hour24 !in Layout12
  {
    Spaces12();
    Present12();
    Absent12();
  }

  lemma Present12()
    ensures Year4 in Layout12 && Month2 in Layout12 && Day2 in Layout12 && Minute2 in Layout12 && Second2 in Layout12 && Hour12 in Layout12 && AmPm in Layout12
  {
    var l := Layout12;
    assert l[0] == Month2 && l[2] == Day2 && l[4] == Year4 && l[6] == Hour12 && l[8] == Minute2 && l[10] == Second2 && l[12] == AmPm;
  }

  lemma Absent12()
    ensures Hour24 !in Layout12
  {
  }

  lemma Spaces12()
    ensures SpacesSeparated(Layout12)
  {
  }

  lemma FormatAt(layout: seq<Element>, k: nat, d: DateTime)
    requires Valid(d) && k < |layout|
    ensures Format(layout[k..], d) == FormatElement(layout[k], d) + Format(layout[k + 1..], d)
  {
    assert layout[k..][1..] == layout[k + 1..];
  }

  /** The 12-hour text written out: "MM/DD/YYYY hh:mm:ss AM" or "... PM". */
  lemma Format12Text(d: DateTime)
    requires Valid(d)
    ensures Format12(d) ==
      Pad2(d.month) + ("/" + (Pad2(d.day) + ("/" + (Pad4(d.year) + (" " +
      (Pad2(Hour12Of(d.hour)) + (":" + (Pad2(d.minute) + (":" + (Pad2(d.second) + (" " +
      ((if d.hour < 12 then "AM" else "PM") + []))))))))))))
  {
    var l := Layout12;
    assert l[0..] == l;
    FormatAt(l, 0, d); FormatAt(l, 1, d); FormatAt(l, 2, d); FormatAt(l, 3, d);
    FormatAt(l, 4, d); FormatAt(l, 5, d); FormatAt(l, 6, d); FormatAt(l, 7, d);
    FormatAt(l, 8, d); FormatAt(l, 9, d); FormatAt(l, 10, d); FormatAt(l, 11, d);
    FormatAt(l, 12, d);
    assert l[13..] == [];
  }

  /** The 24-hour text written out: "MM/DD/YYYY HH:mm:ss". */
  lemma Format24Text(d: DateTime)
    requires Valid(d)
    ensures Format24(d) ==
      Pad2(d.month) + ("/" + (Pad2(d.day) + ("/" + (Pad4(d.year) + (" " +
      (Pad2(d.hour) + (":" + (Pad2(d.minute) + (":" + (Pad2(d.second) + []))))))))))
  {
    var l := Layout24;
    assert l[0..] == l;
    FormatAt(l, 0, d); FormatAt(l, 1, d); FormatAt(l, 2, d); FormatAt(l, 3, d);
    FormatAt(l, 4, d); FormatAt(l, 5, d); FormatAt(l, 6, d); FormatAt(l, 7, d);
    FormatAt(l, 8, d); FormatAt(l, 9, d); FormatAt(l, 10, d);
    assert l[11..] == [];
  }

  /** A formatted layout ends with the text of its last element. */
  lemma {:induction false} FormatEndsWith(layout: seq<Element>, d: DateTime)
    requires Valid(d) && |layout| > 0
    ensures var s, t := Format(layout, d), FormatElement(layout[|layout| - 1], d);
      |t| <= |s| && s[|s| - |t|..] == t
  {
    var t := FormatElement(layout[|layout| - 1], d);
    FormatHead(layout, d);
    if |layout| == 1 {
      assert Format(layout[1..], d) == [];
      SuffixAppend(t, [], []);
      assert t + [] == t;
    } else {
      FormatEndsWith(layout[1..], d);
      assert layout[1..][|layout[1..]| - 1] == layout[|layout| - 1];
      SuffixAppend(FormatElement(layout[0], d), Format(layout[1..], d), t);
    }
  }

  lemma FormatHead(layout: seq<Element>, d: DateTime)
    requires Valid(d) && |layout| > 0
    ensures Format(layout, d) == FormatElement(layout[0], d) + Format(layout[1..], d)
    ensures |layout| == 1 ==> Format(layout[1..], d) == []
  {
  }

  lemma SuffixAppend(head: string, tail: string, t: string)
    requires |t| <= |tail| && tail[|tail| - |t|..] == t
    ensures |t| <= |head + tail| && (head + tail)[|head + tail| - |t|..] == t
  {
    assert (head + tail)[|head + tail| - |t|..] == tail[|tail| - |t|..];
  }
}
