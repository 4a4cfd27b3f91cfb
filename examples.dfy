/**
 * The cases of parse_test.go, and the inputs behind the ALLOW PINGS finding,
 * worked through `ParseSpec`.
 */
module ParserExamples {
  import opened Wrappers
  import opened Text
  import opened Decimal
  import opened Timestamps
  import opened Entries
  import opened Parser
  import opened ParserProperties

  /** TestParseStatusNotAllowed: a STATUS other than Draft, Publish or Future stops the parse. */
  lemma StatusNotAllowed(edition: Edition, lines: seq<string>)
    requires lines == ["STATUS" + Sep + "Published"]
    ensures ParseSpec(edition, lines) == Err(BadStatus("Published"))
  {
    KeySepFree("STATUS");
    NoColonNoSep("Published");
    StatusRule(edition, NewEntry(), "Published");
    assert lines[0..] == lines;
    KeyValueAt(edition, Start(), lines, 0, "STATUS", "Published");
  }

  /** An ALLOW COMMENTS: 1 line. */
  lemma CommentsOne(edition: Edition, s: State, lines: seq<string>, i: nat)
    requires i < |lines| && s.mode == TopLevel && lines[i] == "ALLOW COMMENTS" + Sep + "1"
    ensures Run(edition, s, lines[i..]) == Run(edition, s.(current := s.current.(allowComments := 1)), lines[i + 1..])
  {
    KeySepFree("ALLOW COMMENTS");
    NoColonNoSep("1");
    AtoiItoa(1);
    AllowCommentsRule(edition, s.current, "1");
    KeyValueAt(edition, s, lines, i, "ALLOW COMMENTS", "1");
  }

  /** A "--------" line closes the entry. */
  lemma RecordEndAt(edition: Edition, s: State, lines: seq<string>, i: nat)
    requires i < |lines| && s.mode == TopLevel && lines[i] == RecordEnd
    ensures Run(edition, s, lines[i..]) == Run(edition, State(s.done + [s.current], NewEntry(), TopLevel), lines[i + 1..])
  {
    MarkersSepFree();
    BareAt(edition, s, lines, i);
  }

  /** A line that turns the new entry into `e`, then "--------": the input gives `e` alone. */
  lemma OneLineThenEnd(edition: Edition, lines: seq<string>, e: Entry)
    requires |lines| == 2 && lines[1] == RecordEnd
    requires Run(edition, Start(), lines[0..]) == Run(edition, Start().(current := e), lines[1..])
    ensures ParseSpec(edition, lines) == Ok([e])
  {
    var s1 := Start().(current := e);
    assert lines[0..] == lines;
    RecordEndAt(edition, s1, lines, 1);
    assert s1.done + [s1.current] == [e];
    RunAtEnd(edition, State([e], NewEntry(), TopLevel), lines);
  }

  /** One accepted "KEY: value" line, then "--------": the input gives that entry alone. */
  lemma FieldThenEnd(edition: Edition, lines: seq<string>, key: string, value: string, e: Entry)
    requires |lines| == 2 && lines[0] == key + Sep + value && lines[1] == RecordEnd
    requires !HasSep(key) && !HasSep(value)
    requires ApplyField(edition, NewEntry(), key, value) == Ok(e)
    ensures ParseSpec(edition, lines) == Ok([e])
  {
    KeyValueAt(edition, Start(), lines, 0, key, value);
    OneLineThenEnd(edition, lines, e);
  }

  /** As written, an ALLOW PINGS: 7 line is accepted when ALLOW COMMENTS is 1. */
  lemma PingsSevenAt(s: State, lines: seq<string>, i: nat)
    requires i < |lines| && s.mode == TopLevel && s.current.allowComments == 1
    requires lines[i] == "ALLOW PINGS" + Sep + "7"
    ensures Run(AsWritten, s, lines[i..]) == Run(AsWritten, s.(current := s.current.(allowPings := 7)), lines[i + 1..])
  {
    KeySepFree("ALLOW PINGS");
    NoColonNoSep("7");
    AtoiItoa(7);
    AllowPingsAsWritten(s.current, "7");
    KeyValueAt(AsWritten, s, lines, i, "ALLOW PINGS", "7");
  }

  /** As written, ALLOW PINGS 7 is accepted once ALLOW COMMENTS is 1. */
  lemma PingsCheckedAgainstComments(lines: seq<string>)
    requires lines == ["ALLOW COMMENTS" + Sep + "1", "ALLOW PINGS" + Sep + "7", RecordEnd]
    ensures ParseSpec(AsWritten, lines) == Ok([NewEntry().(allowComments := 1, allowPings := 7)])
  {
    var e1 := NewEntry().(allowComments := 1);
    var e2 := e1.(allowPings := 7);
    var s1 := State([], e1, TopLevel);
    var s2 := State([], e2, TopLevel);
    var s3 := State([e2], NewEntry(), TopLevel);
    assert lines[0..] == lines;
    CommentsOne(AsWritten, Start(), lines, 0);
    PingsSevenAt(s1, lines, 1);
    RecordEndAt(AsWritten, s2, lines, 2);
    assert s2.done + [s2.current] == [e2];
    RunAtEnd(AsWritten, s3, lines);
  }

  /** With the corrected check the same lines are refused. */
  lemma PingsCheckedCorrected(lines: seq<string>)
    requires lines == ["ALLOW COMMENTS" + Sep + "1", "ALLOW PINGS" + Sep + "7", RecordEnd]
    ensures ParseSpec(Corrected, lines) == Err(OutOfRange(AllowPingsFlag, 7))
  {
    var e1 := NewEntry().(allowComments := 1);
    assert lines[0..] == lines;
    CommentsOne(Corrected, Start(), lines, 0);
    KeySepFree("ALLOW PINGS");
    NoColonNoSep("7");
    AtoiItoa(7);
    AllowPingsCorrected(e1, "7");
    KeyValueAt(Corrected, State([], e1, TopLevel), lines, 1, "ALLOW PINGS", "7");
  }

  /** As written, ALLOW PINGS 1 is refused while ALLOW COMMENTS is unset. */
  lemma PingsWithoutComments(lines: seq<string>)
    requires lines == ["ALLOW PINGS" + Sep + "1", RecordEnd]
    ensures ParseSpec(AsWritten, lines) == Err(OutOfRange(AllowPingsFlag, 1))
  {
    assert lines[0..] == lines;
    KeySepFree("ALLOW PINGS");
    NoColonNoSep("1");
    AtoiItoa(1);
    AllowPingsAsWritten(NewEntry(), "1");
    KeyValueAt(AsWritten, Start(), lines, 0, "ALLOW PINGS", "1");
  }

  lemma PingsWithoutCommentsCorrected(lines: seq<string>)
    requires lines == ["ALLOW PINGS" + Sep + "1", RecordEnd]
    ensures ParseSpec(Corrected, lines) == Ok([NewEntry().(allowPings := 1)])
  {
    KeySepFree("ALLOW PINGS");
    NoColonNoSep("1");
    AtoiItoa(1);
    AllowPingsCorrected(NewEntry(), "1");
    FieldThenEnd(Corrected, lines, "ALLOW PINGS", "1", NewEntry().(allowPings := 1));
  }

  /** "04/22/2017", the date half shared by the three TestParseDate cases. */
  lemma April22(rest: string)
    ensures Pad2(4) + ("/" + (Pad2(22) + ("/" + (Pad4(2017) + rest)))) == "04/22/2017" + rest
  {
    assert Pad2(4) == "04";
    assert Pad2(22) == "22";
    assert Pad4(2017) == "2017";
  }

  lemma ClockPM()
    ensures " " + (Pad2(Hour12Of(20)) + (":" + (Pad2(41) + (":" + (Pad2(58) + (" " + ((if 20 < 12 then "AM" else "PM") + []))))))) ==
            " 08:41:58 PM"
  {
    assert Pad2(8) == "08";
    assert Pad2(41) == "41";
    assert Pad2(58) == "58";
  }

  lemma ClockAM()
    ensures " " + (Pad2(Hour12Of(8)) + (":" + (Pad2(41) + (":" + (Pad2(58) + (" " + ((if 8 < 12 then "AM" else "PM") + []))))))) ==
            " 08:41:58 AM"
  {
    assert Pad2(8) == "08";
    assert Pad2(41) == "41";
    assert Pad2(58) == "58";
  }

  lemma Clock24()
    ensures " " + (Pad2(20) + (":" + (Pad2(41) + (":" + (Pad2(58) + []))))) == " 20:41:58"
  {
    assert Pad2(20) == "20";
    assert Pad2(41) == "41";
    assert Pad2(58) == "58";
  }

  /** The pieces `Format12` produces for 2017-04-22 20:41:58 spell the test's first string. */
  lemma PiecesPM()
    ensures Pad2(4) + ("/" + (Pad2(22) + ("/" + (Pad4(2017) + (" " + (Pad2(Hour12Of(20)) + (":" +
            (Pad2(41) + (":" + (Pad2(58) + (" " + ((if 20 < 12 then "AM" else "PM") + [])))))))))))) ==
            "04/22/2017 08:41:58 PM"
  {
    ClockPM();
    April22(" 08:41:58 PM");
    assert "04/22/2017" + " 08:41:58 PM" == "04/22/2017 08:41:58 PM";
  }

  /** The pieces for 2017-04-22 08:41:58 spell the test's second string. */
  lemma PiecesAM()
    ensures Pad2(4) + ("/" + (Pad2(22) + ("/" + (Pad4(2017) + (" " + (Pad2(Hour12Of(8)) + (":" +
            (Pad2(41) + (":" + (Pad2(58) + (" " + ((if 8 < 12 then "AM" else "PM") + [])))))))))))) ==
            "04/22/2017 08:41:58 AM"
  {
    ClockAM();
    April22(" 08:41:58 AM");
    assert "04/22/2017" + " 08:41:58 AM" == "04/22/2017 08:41:58 AM";
  }

  /** The pieces `Format24` produces for 2017-04-22 20:41:58 spell the test's third string. */
  lemma Pieces24()
    ensures Pad2(4) + ("/" + (Pad2(22) + ("/" + (Pad4(2017) + (" " + (Pad2(20) + (":" +
            (Pad2(41) + (":" + (Pad2(58) + [])))))))))) == "04/22/2017 20:41:58"
  {
    Clock24();
    April22(" 20:41:58");
    assert "04/22/2017" + " 20:41:58" == "04/22/2017 20:41:58";
  }

  /** TestParseDate, first case: "04/22/2017 08:41:58 PM" is 20:41:58. */
  lemma DatePM(lines: seq<string>, d: DateTime)
    requires d == DateTime(2017, 4, 22, 20, 41, 58)
    requires lines == ["DATE" + Sep + "04/22/2017 08:41:58 PM", RecordEnd]
    ensures ParseSpec(AsWritten, lines) == Ok([NewEntry().(date := d)])
  {
    Format12Text(d);
    PiecesPM();
    Date12NoSep(d);
    KeySepFree("DATE");
    DateRoundTrip(AsWritten, NewEntry(), d);
    FieldThenEnd(AsWritten, lines, "DATE", "04/22/2017 08:41:58 PM", NewEntry().(date := d));
  }

  /** TestParseDate, second case: "04/22/2017 08:41:58 AM" is 08:41:58. */
  lemma DateAM(lines: seq<string>, d: DateTime)
    requires d == DateTime(2017, 4, 22, 8, 41, 58)
    requires lines == ["DATE" + Sep + "04/22/2017 08:41:58 AM", RecordEnd]
    ensures ParseSpec(AsWritten, lines) == Ok([NewEntry().(date := d)])
  {
    Format12Text(d);
    PiecesAM();
    Date12NoSep(d);
    KeySepFree("DATE");
    DateRoundTrip(AsWritten, NewEntry(), d);
    FieldThenEnd(AsWritten, lines, "DATE", "04/22/2017 08:41:58 AM", NewEntry().(date := d));
  }

  /** TestParseDate, third case: "04/22/2017 20:41:58" in the 24-hour layout. */
  lemma Date24(lines: seq<string>, d: DateTime)
    requires d == DateTime(2017, 4, 22, 20, 41, 58)
    requires lines == ["DATE" + Sep + "04/22/2017 20:41:58", RecordEnd]
    ensures ParseSpec(AsWritten, lines) == Ok([NewEntry().(date := d)])
  {
    Format24Text(d);
    Pieces24();
    Date24NoSep(d);
    KeySepFree("DATE");
    DateRoundTrip(AsWritten, NewEntry(), d);
    FieldThenEnd(AsWritten, lines, "DATE", "04/22/2017 20:41:58", NewEntry().(date := d));
  }
}
