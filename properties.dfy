/**
 * What parse.go's `Parse` promises about its result, stated over the
 * line-by-line meaning `Run` / `ParseSpec` (which the method `Parse` is
 * proved to compute) and over the per-line `ApplyField`.
 */
module ParserProperties {
  import opened Wrappers
  import opened Text
  import opened Decimal
  import opened Timestamps
  import opened Entries
  import opened Parser

  /** The four marker lines contain no ": ", so `Classify` keeps them whole. */
  lemma MarkersSepFree()
    ensures !HasSep(RecordEnd) && !HasSep(FieldEnd) && !HasSep(BodyHeader) && !HasSep(ExtendedBodyHeader)
  {
    NoColonNoSep(RecordEnd);
    NoColonNoSep(FieldEnd);
    assert forall j :: 0 <= j < |BodyHeader| && BodyHeader[j] == ':' ==> j == |BodyHeader| - 1;
    assert forall j :: 0 <= j < |ExtendedBodyHeader| && ExtendedBodyHeader[j] == ':' ==> j == |ExtendedBodyHeader| - 1;
  }

  /**
   * A "KEY: value" line whose key and value hold no ": " reads as that key and
   * value; lone colons, as in "20:41:58", stay in the value.
   */
  lemma KeyValueLine(key: string, value: string)
    requires !HasSep(key) && !HasSep(value)
    ensures Classify(key + Sep + value) == Field(key, value)
  {
    SplitKeyValue(key, value);
  }

  /** A "KEY: value" line outside a block goes through `ApplyField`. */
  lemma KeyValueAt(edition: Edition, s: State, lines: seq<string>, i: nat, key: string, value: string)
    requires i < |lines| && s.mode == TopLevel
    requires lines[i] == key + Sep + value && !HasSep(key) && !HasSep(value)
    ensures Run(edition, s, lines[i..]) ==
      match ApplyField(edition, s.current, key, value)
      case Err(e) => Err(e)
      case Ok(m) => Run(edition, s.(current := m), lines[i + 1..])
  {
    KeyValueLine(key, value);
    RunFieldLine(edition, s.done, s.current, lines, i);
  }

  /** A line without ": " outside a block. */
  lemma BareAt(edition: Edition, s: State, lines: seq<string>, i: nat)
    requires i < |lines| && s.mode == TopLevel && !HasSep(lines[i])
    ensures Run(edition, s, lines[i..]) ==
      var line := lines[i];
      if line == RecordEnd then Run(edition, State(s.done + [s.current], NewEntry(), TopLevel), lines[i + 1..])
      else if line == BodyHeader then Run(edition, s.(mode := InBody), lines[i + 1..])
      else if line == ExtendedBodyHeader then Run(edition, s.(mode := InExtendedBody), lines[i + 1..])
      else Run(edition, s, lines[i + 1..])
  {
    RunBareLine(edition, s.done, s.current, lines, i);
  }

  // ---------------------------------------------------------------------------
  // The mode and the number of entries

  /** The mode after `line`, read off the raw text of the line. */
  function NextMode(mode: Mode, line: string): Mode {
    match mode
    case TopLevel =>
      if line == BodyHeader then InBody
      else if line == ExtendedBodyHeader then InExtendedBody
      else TopLevel
    case _ => if line == FieldEnd then TopLevel else mode
  }

  /** How many "--------" lines are read outside a BODY or EXTENDED BODY block. */
  function Closed(mode: Mode, lines: seq<string>): nat
    decreases |lines|
  {
    if lines == [] then 0
    else (if mode == TopLevel && lines[0] == RecordEnd then 1 else 0) + Closed(NextMode(mode, lines[0]), lines[1..])
  }

  /**
   * A successful step moves to `NextMode`, and closes the current entry exactly
   * on a "--------" line outside a block; it never touches the finished ones.
   */
  lemma StepMode(edition: Edition, s: State, line: string)
    requires Step(edition, s, line).Ok?
    ensures Step(edition, s, line).value.mode == NextMode(s.mode, line)
    ensures Step(edition, s, line).value.done ==
      if s.mode == TopLevel && line == RecordEnd then s.done + [s.current] else s.done
  {
    if s.mode == TopLevel {
      MarkersSepFree();
      match Classify(line)
      case Bare(text) =>
      case Field(key, value) =>
        assert line != RecordEnd && line != BodyHeader && line != ExtendedBodyHeader;
    }
  }

  /**
   * A run that succeeds keeps the entries already finished and adds one entry
   * per "--------" line read outside a block: an entry that is not closed by a
   * "--------" line is not returned.
   */
  lemma {:induction false} RunCount(edition: Edition, s: State, lines: seq<string>)
    requires Run(edition, s, lines).Ok?
    ensures var es := Run(edition, s, lines).value;
      |es| == |s.done| + Closed(s.mode, lines) && es[..|s.done|] == s.done
    decreases |lines|
  {
    if lines != [] {
      var next := Step(edition, s, lines[0]).value;
      StepMode(edition, s, lines[0]);
      RunCount(edition, next, lines[1..]);
      var es := Run(edition, s, lines).value;
      assert es[..|s.done|] == es[..|next.done|][..|s.done|];
    }
  }

  /** `Parse` returns exactly one entry per "--------" line outside a block. */
  lemma ParseCount(edition: Edition, lines: seq<string>)
    requires ParseSpec(edition, lines).Ok?
    ensures |ParseSpec(edition, lines).value| == Closed(TopLevel, lines)
  {
    RunCount(edition, Start(), lines);
  }

  /** Lines after the last "--------" only build an entry that is dropped. */
  lemma TrailingEntryDropped(edition: Edition, s: State, lines: seq<string>)
    requires Run(edition, s, lines).Ok? && Closed(s.mode, lines) == 0
    ensures Run(edition, s, lines) == Ok(s.done)
  {
    RunCount(edition, s, lines);
    var es := Run(edition, s, lines).value;
    assert es == es[..|s.done|];
  }

  // ---------------------------------------------------------------------------
  // What every returned entry satisfies

  /**
   * STATUS is unset or one of the three allowed words, ALLOW COMMENTS is unset,
   * 0 or 1, ALLOW PINGS is an int64 and the date is a real calendar date. As
   * written, ALLOW PINGS is only ever set once ALLOW COMMENTS is; with the
   * corrected check it is unset, 0 or 1.
   */
  predicate WellFormed(edition: Edition, e: Entry) {
    && (e.status == "" || AllowedStatus(e.status))
    && (e.allowComments == DefaultAllowComments || e.allowComments == 0 || e.allowComments == 1)
    && MinInt <= e.allowPings <= MaxInt
    && (edition == AsWritten && e.allowPings != DefaultAllowPings ==> e.allowComments != DefaultAllowComments)
    && (edition == Corrected ==> e.allowPings == DefaultAllowPings || e.allowPings == 0 || e.allowPings == 1)
    && Valid(e.date)
  }

  predicate AllWellFormed(edition: Edition, es: seq<Entry>) {
    forall k :: 0 <= k < |es| ==> WellFormed(edition, es[k])
  }

  lemma NewEntryWellFormed(edition: Edition)
    ensures WellFormed(edition, NewEntry())
  {
  }

  /** Every key/value line that is accepted keeps an entry well formed. */
  lemma ApplyFieldWellFormed(edition: Edition, e: Entry, key: string, value: string)
    requires WellFormed(edition, e) && ApplyField(edition, e, key, value).Ok?
    ensures WellFormed(edition, ApplyField(edition, e, key, value).value)
  {
    if key == "STATUS" || key == "ALLOW COMMENTS" || key == "ALLOW PINGS" {
      FlagFieldWellFormed(edition, e, key, value);
    } else {
      OtherFieldWellFormed(edition, e, key, value);
    }
  }

  lemma FlagFieldWellFormed(edition: Edition, e: Entry, key: string, value: string)
    requires key == "STATUS" || key == "ALLOW COMMENTS" || key == "ALLOW PINGS"
    requires WellFormed(edition, e) && ApplyField(edition, e, key, value).Ok?
    ensures WellFormed(edition, ApplyField(edition, e, key, value).value)
  {
    if key == "STATUS" {
      StatusRule(edition, e, value);
    } else if key == "ALLOW COMMENTS" {
      AllowCommentsRule(edition, e, value);
    } else if edition == AsWritten {
      AllowPingsAsWritten(e, value);
    } else {
      AllowPingsCorrected(e, value);
    }
  }

  lemma OtherFieldWellFormed(edition: Edition, e: Entry, key: string, value: string)
    requires key != "STATUS" && key != "ALLOW COMMENTS" && key != "ALLOW PINGS"
    requires WellFormed(edition, e) && ApplyField(edition, e, key, value).Ok?
    ensures WellFormed(edition, ApplyField(edition, e, key, value).value)
  {
    if key == "DATE" {
      DateRule(edition, e, value);
    } else if key == "CATEGORY" {
      CategoryRule(edition, e, value);
    } else if TextKey(key) {
      TextKeyRule(edition, e, key, value);
    } else {
      UnknownKey(edition, e, key, value);
    }
  }

  /** Every line that is accepted keeps the entries well formed. */
  lemma StepWellFormed(edition: Edition, s: State, line: string)
    requires WellFormed(edition, s.current) && AllWellFormed(edition, s.done)
    requires Step(edition, s, line).Ok?
    ensures WellFormed(edition, Step(edition, s, line).value.current)
    ensures AllWellFormed(edition, Step(edition, s, line).value.done)
  {
    if s.mode == TopLevel && Classify(line).Field? {
      ApplyFieldWellFormed(edition, s.current, Classify(line).key, Classify(line).value);
    }
  }

  lemma {:induction false} RunWellFormed(edition: Edition, s: State, lines: seq<string>)
    requires WellFormed(edition, s.current) && AllWellFormed(edition, s.done)
    requires Run(edition, s, lines).Ok?
    ensures AllWellFormed(edition, Run(edition, s, lines).value)
    decreases |lines|
  {
    if lines != [] {
      StepWellFormed(edition, s, lines[0]);
      RunWellFormed(edition, Step(edition, s, lines[0]).value, lines[1..]);
    }
  }

  /** Every entry `Parse` returns is well formed. */
  lemma ParseWellFormed(edition: Edition, lines: seq<string>)
    requires ParseSpec(edition, lines).Ok?
    ensures AllWellFormed(edition, ParseSpec(edition, lines).value)
  {
    NewEntryWellFormed(edition);
    RunWellFormed(edition, Start(), lines);
  }

  // ---------------------------------------------------------------------------
  // BODY and EXTENDED BODY blocks

  /**
   * A BODY block is copied verbatim up to the first "-----", whatever its lines
   * look like ("--------" and "KEY: value" lines included); after it the
   * parser is back outside any block.
   */
  lemma BodyBlock(edition: Edition, done: seq<Entry>, m: Entry, block: seq<string>, rest: seq<string>)
    requires forall k :: 0 <= k < |block| ==> block[k] != FieldEnd
    ensures Run(edition, State(done, m, InBody), block + [FieldEnd] + rest) ==
            Run(edition, State(done, m.(body := m.body + BlockText(block)), TopLevel), rest)
  {
    BlockAt(edition, done, m, false, block, rest);
  }

  /** The same for an EXTENDED BODY block. */
  lemma ExtendedBodyBlock(edition: Edition, done: seq<Entry>, m: Entry, block: seq<string>, rest: seq<string>)
    requires forall k :: 0 <= k < |block| ==> block[k] != FieldEnd
    ensures Run(edition, State(done, m, InExtendedBody), block + [FieldEnd] + rest) ==
            Run(edition, State(done, m.(extendedBody := m.extendedBody + BlockText(block)), TopLevel), rest)
  {
    BlockAt(edition, done, m, true, block, rest);
  }

  /** `BlockEnd` for a block followed by its "-----" and the rest of the input. */
  lemma BlockAt(edition: Edition, done: seq<Entry>, m: Entry, extended: bool, block: seq<string>, rest: seq<string>)
    requires forall k :: 0 <= k < |block| ==> block[k] != FieldEnd
    ensures Run(edition, State(done, m, if extended then InExtendedBody else InBody), block + [FieldEnd] + rest) ==
            Run(edition, State(done, WithBlock(m, extended, block), TopLevel), rest)
  {
    var lines := block + [FieldEnd] + rest;
    var n := |block|;
    assert lines[0..] == lines && lines[0..n] == block && lines[n + 1..] == rest;
    BlockEnd(edition, done, m, extended, lines, 0, n, n + 1);
  }

  // ---------------------------------------------------------------------------
  // Lines that change nothing

  /** The keys whose value is copied into the entry as it is. */
  predicate TextKey(key: string) {
    key == "AUTHOR" || key == "TITLE" || key == "BASENAME" || key == "CONVERT BREAKS" || key == "PRIMARY CATEGORY"
  }

  /** The keys the `switch key` of `Parse` handles. */
  predicate KnownKey(key: string) {
    TextKey(key) || key == "STATUS" || key == "ALLOW COMMENTS" || key == "ALLOW PINGS" || key == "DATE" || key == "CATEGORY"
  }

  /** No key of the `switch key` contains ": ". */
  lemma KeySepFree(key: string)
    requires KnownKey(key)
    ensures !HasSep(key)
  {
    assert ':' !in key;
    NoColonNoSep(key);
  }

  /** A line with an unknown key is accepted and changes nothing. */
  lemma UnknownKey(edition: Edition, e: Entry, key: string, value: string)
    requires !KnownKey(key)
    ensures ApplyField(edition, e, key, value) == Ok(e)
  {
  }

  /**
   * Outside a block, a line without ": " other than the three markers (a lone
   * "-----", "EXCERPT:", a blank line) and a line with an unknown key are skipped.
   */
  lemma SkippedLine(edition: Edition, s: State, line: string)
    requires s.mode == TopLevel
    requires if HasSep(line) then !KnownKey(Classify(line).key)
             else line != RecordEnd && line != BodyHeader && line != ExtendedBodyHeader
    ensures Step(edition, s, line) == Ok(s)
  {
    if HasSep(line) {
      UnknownKey(edition, s.current, Classify(line).key, Classify(line).value);
    }
  }

  // ---------------------------------------------------------------------------
  // One key/value line

  /**
   * A text field is always accepted and set to the value, and no other field
   * changes.
   */
  lemma TextKeyRule(edition: Edition, e: Entry, key: string, value: string)
    requires TextKey(key)
    ensures key == "AUTHOR" ==> ApplyField(edition, e, key, value) == Ok(e.(author := value))
    ensures key == "TITLE" ==> ApplyField(edition, e, key, value) == Ok(e.(title := value))
    ensures key == "BASENAME" ==> ApplyField(edition, e, key, value) == Ok(e.(basename := value))
    ensures key == "CONVERT BREAKS" ==> ApplyField(edition, e, key, value) == Ok(e.(convertBreaks := value))
    ensures key == "PRIMARY CATEGORY" ==> ApplyField(edition, e, key, value) == Ok(e.(primaryCategory := value))
  {
  }

  /** A later line for a text field replaces an earlier one. */
  lemma LastTextWins(edition: Edition, e: Entry, key: string, v1: string, v2: string)
    requires TextKey(key)
    ensures ApplyField(edition, e, key, v1).Ok?
    ensures ApplyField(edition, ApplyField(edition, e, key, v1).value, key, v2) == ApplyField(edition, e, key, v2)
  {
  }

  /** STATUS is accepted exactly when it is Draft, Publish or Future, and then stored. */
  lemma StatusRule(edition: Edition, e: Entry, value: string)
    ensures ApplyField(edition, e, "STATUS", value).Ok? <==> value == "Draft" || value == "Publish" || value == "Future"
    ensures ApplyField(edition, e, "STATUS", value).Ok? ==> ApplyField(edition, e, "STATUS", value).value == e.(status := value)
    ensures ApplyField(edition, e, "STATUS", value).Err? ==> ApplyField(edition, e, "STATUS", value).error == BadStatus(value)
  {
  }

  /** ALLOW COMMENTS is accepted exactly when it reads as the integer 0 or 1. */
  lemma AllowCommentsRule(edition: Edition, e: Entry, value: string)
    ensures var r := ApplyField(edition, e, "ALLOW COMMENTS", value);
      && (r.Ok? <==> Atoi(value) == Some(0) || Atoi(value) == Some(1))
      && (r.Ok? ==> r.value == e.(allowComments := Atoi(value).value))
      && (r.Err? && Atoi(value).None? ==> r.error == NotAnInteger(AllowCommentsFlag, value))
      && (r.Err? && Atoi(value).Some? ==> r.error == OutOfRange(AllowCommentsFlag, Atoi(value).value))
  {
  }

  /**
   * As written, ALLOW PINGS is accepted when it is any integer and ALLOW
   * COMMENTS was already set: its own value is never range-checked.
   */
  lemma AllowPingsAsWritten(e: Entry, value: string)
    ensures var r := ApplyField(AsWritten, e, "ALLOW PINGS", value);
      && (r.Ok? <==> Atoi(value).Some? && (e.allowComments == 0 || e.allowComments == 1))
      && (r.Ok? ==> r.value == e.(allowPings := Atoi(value).value))
      && (r.Err? && Atoi(value).None? ==> r.error == NotAnInteger(AllowPingsFlag, value))
      && (r.Err? && Atoi(value).Some? ==> r.error == OutOfRange(AllowPingsFlag, Atoi(value).value))
  {
  }

  /** With the corrected check, ALLOW PINGS follows the same rule as ALLOW COMMENTS. */
  lemma AllowPingsCorrected(e: Entry, value: string)
    ensures var r := ApplyField(Corrected, e, "ALLOW PINGS", value);
      && (r.Ok? <==> Atoi(value) == Some(0) || Atoi(value) == Some(1))
      && (r.Ok? ==> r.value == e.(allowPings := Atoi(value).value))
      && (r.Err? && Atoi(value).None? ==> r.error == NotAnInteger(AllowPingsFlag, value))
      && (r.Err? && Atoi(value).Some? ==> r.error == OutOfRange(AllowPingsFlag, Atoi(value).value))
  {
  }

  /**
   * A layout's text ends in AM or PM exactly when its last element is the
   * AM/PM element; when it is the seconds it ends in digits.
   */
  lemma TwelveHourByLast(layout: seq<Element>, d: DateTime)
    requires Valid(d) && |layout| > 0
    requires layout[|layout| - 1] == AmPm || layout[|layout| - 1] == Second2
    ensures TwelveHour(Format(layout, d)) <==> layout[|layout| - 1] == AmPm
  {
    FormatEndsWith(layout, d);
    var s, t := Format(layout, d), FormatElement(layout[|layout| - 1], d);
    if layout[|layout| - 1] == Second2 {
      EndsInDigit(s, t);
    } else {
      EndsInAmPm(s, t);
    }
  }

  lemma EndsInDigit(s: string, t: string)
    requires |t| == 2 && IsDigit(t[0]) && |t| <= |s| && s[|s| - |t|..] == t
    ensures !TwelveHour(s)
  {
    assert s[|s| - 2] == t[0];
  }

  lemma EndsInAmPm(s: string, t: string)
    requires (t == "AM" || t == "PM") && |t| <= |s| && s[|s| - |t|..] == t
    ensures TwelveHour(s)
  {
  }

  /** 12-hour text is read with the 12-hour layout and gives the date back. */
  lemma ParseDate12(d: DateTime)
    requires Valid(d)
    ensures TwelveHour(Format12(d)) && ParseDate(Format12(d)) == Some(d)
  {
    TwelveHourByLast(Layout12, d);
    Parse12Format12(d);
  }

  /** 24-hour text is read with the 24-hour layout and gives the date back. */
  lemma ParseDate24(d: DateTime)
    requires Valid(d)
    ensures !TwelveHour(Format24(d)) && ParseDate(Format24(d)) == Some(d)
  {
    TwelveHourByLast(Layout24, d);
    Parse24Format24(d);
  }

  /** A date written in either layout is accepted and stored as that date. */
  lemma DateRoundTrip(edition: Edition, e: Entry, d: DateTime)
    requires Valid(d)
    ensures ApplyField(edition, e, "DATE", Format12(d)) == Ok(e.(date := d))
    ensures ApplyField(edition, e, "DATE", Format24(d)) == Ok(e.(date := d))
  {
    ParseDate12(d);
    DateRule(edition, e, Format12(d));
    ParseDate24(d);
    DateRule(edition, e, Format24(d));
  }

  /** Only the one-character elements can produce a colon. */
  lemma NoColonInside(e: Element, d: DateTime, j: nat)
    requires Valid(d) && j < |FormatElement(e, d)| && |FormatElement(e, d)| >= 2
    ensures FormatElement(e, d)[j] != ':'
  {
    var t := FormatElement(e, d);
    if e == AmPm {
      assert t == "AM" || t == "PM";
    } else {
      assert AllDigits(t);
      assert IsDigit(t[j]);
    }
  }

  /** A layout whose colons are never followed by a space formats to text with no ": ". */
  lemma {:induction false} FormatNoSep(layout: seq<Element>, d: DateTime)
    requires Valid(d)
    requires forall k :: 0 <= k < |layout| - 1 && layout[k] == Lit(':') ==> Solid(layout[k + 1])
    ensures !HasSep(Format(layout, d))
    decreases |layout|
  {
    if layout != [] {
      var a, b := FormatElement(layout[0], d), Format(layout[1..], d);
      assert Format(layout, d) == a + b;
      assert forall k :: 0 <= k < |layout[1..]| - 1 && layout[1..][k] == Lit(':') ==> Solid(layout[1..][k + 1]) by {
        forall k | 0 <= k < |layout[1..]| - 1 && layout[1..][k] == Lit(':')
          ensures Solid(layout[1..][k + 1])
        {
          assert layout[k + 1] == Lit(':');
        }
      }
      FormatNoSep(layout[1..], d);
      forall j ensures !SepAt(a + b, j) {
        if 0 <= j && j + 1 < |a + b| {
          if j + 1 < |a| {
            NoColonInside(layout[0], d, j);
          } else if j + 1 == |a| {
            if |a| >= 2 {
              NoColonInside(layout[0], d, j);
            } else if (a + b)[j] == ':' {
              assert layout[0] == Lit(':');
              assert |layout| >= 2;
              FormatAt(layout, 1, d);
              assert layout[1..] == layout[1..][0..];
              assert b == FormatElement(layout[1], d) + Format(layout[2..], d) by {
                assert layout[1..][1..] == layout[2..];
              }
              SolidFormat(layout[1], d, Format(layout[2..], d));
            }
          } else {
            assert !SepAt(b, j - |a|);
          }
        }
      }
    }
  }

  /**
   * A "DATE: ..." line holding a date in either layout sets the entry's date
   * to that date; the colons of the time never split the line.
   */
  lemma DateLineAt(edition: Edition, s: State, lines: seq<string>, i: nat, d: DateTime)
    requires i < |lines| && s.mode == TopLevel && Valid(d)
    requires lines[i] == "DATE" + Sep + Format12(d) || lines[i] == "DATE" + Sep + Format24(d)
    ensures Run(edition, s, lines[i..]) == Run(edition, s.(current := s.current.(date := d)), lines[i + 1..])
  {
    var text := if lines[i] == "DATE" + Sep + Format12(d) then Format12(d) else Format24(d);
    KeySepFree("DATE");
    Date12NoSep(d);
    Date24NoSep(d);
    DateRoundTrip(edition, s.current, d);
    assert ApplyField(edition, s.current, "DATE", text) == Ok(s.current.(date := d));
    KeyValueAt(edition, s, lines, i, "DATE", text);
  }

  lemma Date12NoSep(d: DateTime)
    requires Valid(d)
    ensures !HasSep(Format12(d))
  {
    FormatNoSep(Layout12, d);
  }

  lemma Date24NoSep(d: DateTime)
    requires Valid(d)
    ensures !HasSep(Format24(d))
  {
    FormatNoSep(Layout24, d);
  }

  /** A DATE is accepted exactly when it reads in the layout its suffix selects. */
  lemma DateRule(edition: Edition, e: Entry, value: string)
    ensures var r := ApplyField(edition, e, "DATE", value);
      && (r.Ok? <==> ParseDate(value).Some?)
      && (r.Ok? ==> r.value == e.(date := ParseDate(value).value) && Valid(r.value.date))
      && (r.Err? ==> r.error == BadDate(value))
  {
  }

  /** A CATEGORY value is always accepted and appended. */
  lemma CategoryRule(edition: Edition, e: Entry, value: string)
    ensures ApplyField(edition, e, "CATEGORY", value) == Ok(e.(category := e.category + [value]))
  {
  }

  // ---------------------------------------------------------------------------
  // CATEGORY lines

  /** One CATEGORY line outside a block. */
  lemma CategoryAt(edition: Edition, s: State, lines: seq<string>, i: nat, value: string)
    requires i < |lines| && s.mode == TopLevel
    requires lines[i] == "CATEGORY" + Sep + value && !HasSep(value)
    ensures Run(edition, s, lines[i..]) ==
            Run(edition, s.(current := s.current.(category := s.current.category + [value])), lines[i + 1..])
  {
    KeySepFree("CATEGORY");
    CategoryRule(edition, s.current, value);
    KeyValueAt(edition, s, lines, i, "CATEGORY", value);
  }

  /** One "CATEGORY: v" line for each of `values`, in order. */
  function CategoryLines(values: seq<string>): (lines: seq<string>)
    ensures |lines| == |values|
  {
    if values == [] then [] else ["CATEGORY" + Sep + values[0]] + CategoryLines(values[1..])
  }

  /** The first of the CATEGORY lines appends the first value. */
  lemma CategoryHead(edition: Edition, s: State, values: seq<string>, rest: seq<string>)
    requires s.mode == TopLevel && values != [] && !HasSep(values[0])
    ensures Run(edition, s, CategoryLines(values) + rest) ==
            Run(edition, s.(current := s.current.(category := s.current.category + values[..1])), CategoryLines(values[1..]) + rest)
  {
    var lines := CategoryLines(values) + rest;
    assert values[..1] == [values[0]];
    CategoryLinesCons(values, rest);
    CategoryAt(edition, s, lines, 0, values[0]);
  }

  lemma CategoryLinesCons(values: seq<string>, rest: seq<string>)
    requires values != []
    ensures var lines := CategoryLines(values) + rest;
      lines[0] == "CATEGORY" + Sep + values[0] && lines[0..] == lines && lines[1..] == CategoryLines(values[1..]) + rest
  {
    var line := "CATEGORY" + Sep + values[0];
    assert CategoryLines(values) == [line] + CategoryLines(values[1..]);
    ConsAppend(line, CategoryLines(values[1..]), rest);
  }

  lemma ConsAppend<T>(x: T, xs: seq<T>, rest: seq<T>)
    ensures var l := [x] + xs + rest; l[0] == x && l[0..] == l && l[1..] == xs + rest
  {
  }

  /** Adding no categories changes nothing; adding the first one and then the rest adds them all. */
  lemma CategoriesAdded(s: State, values: seq<string>)
    ensures values == [] ==> s.(current := s.current.(category := s.current.category + values)) == s
    ensures values != [] ==>
      var next := s.(current := s.current.(category := s.current.category + values[..1]));
      next.(current := next.current.(category := next.current.category + values[1..])) ==
      s.(current := s.current.(category := s.current.category + values))
  {
    if values == [] {
      assert s.current.category + values == s.current.category;
    } else {
      assert values[..1] + values[1..] == values;
      assert s.current.category + values[..1] + values[1..] == s.current.category + values;
    }
  }

  /**
   * Consecutive CATEGORY lines outside a block append their values to the
   * entry's categories, in the order of the lines.
   */
  lemma {:induction false} CategoriesInOrder(edition: Edition, s: State, values: seq<string>, rest: seq<string>)
    requires s.mode == TopLevel && forall k :: 0 <= k < |values| ==> !HasSep(values[k])
    ensures Run(edition, s, CategoryLines(values) + rest) ==
            Run(edition, s.(current := s.current.(category := s.current.category + values)), rest)
    decreases |values|
  {
    CategoriesAdded(s, values);
    if values == [] {
      assert CategoryLines(values) + rest == rest;
    } else {
      CategoryHead(edition, s, values, rest);
      var next := s.(current := s.current.(category := s.current.category + values[..1]));
      assert forall k :: 0 <= k < |values[1..]| ==> values[1..][k] == values[k + 1];
      CategoriesInOrder(edition, next, values[1..], rest);
    }
  }
}
