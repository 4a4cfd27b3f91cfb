# Movable Type import parser, modelled in Dafny

This project models the parser of the `movabletype` Go package. The parser reads
a Movable Type export ("Movable Type Import Format") and returns one `Entry` per
record. The model covers the `Entry` record with its defaults, `NewEntry`, and
`Parse`, which works as follows:

- It reads the input line by line and splits each line at every `": "`.
- A line with no separator is a marker:
  - `--------` closes the current entry;
  - `BODY:` and `EXTENDED BODY:` start a block that is copied verbatim up to
    `-----`;
  - every other line is skipped.
- In a `KEY: value` line, the `switch key` sets one field, with checks for
  STATUS, ALLOW COMMENTS, ALLOW PINGS and DATE.

The project is split into these modules:

- `Wrappers`: `Option` and `Result`.
- `Text`: `strings.Split(line, ": ")`, which the parser uses to classify lines,
  and `strings.HasSuffix`.
- `Decimal`: `strconv.Atoi` with int64 range, and `Itoa` as its partner.
- `Timestamps`: the part of `time.Parse` that the two DATE layouts
  `01/02/2006 03:04:05 PM` and `01/02/2006 15:04:05` use. Go's `Time.Format` for
  the same layouts serves as its partner.
- `Entries`: `Entry`, `NewEntry`, the classification of a line, and
  `ApplyField`, which models the `switch key`.
- `Parser`: the method `Parse` (outer loop), `ReadBlock` (the two inner block
  loops) and `SetField` (the `switch key`).
  - Each is proved to compute the line-by-line meaning `Step`, `Run` and
    `ParseSpec`. `ParseSpec` is a fold over the lines with a mode: top level,
    inside BODY, or inside EXTENDED BODY.
- `ParserProperties`: what `Parse` promises, proved about that meaning.
- `ParserExamples`: the cases of `parse_test.go`, and the inputs behind the
  finding below.

`Edition` selects the behaviour:

- `AsWritten` reproduces parse.go line for line.
- `Corrected` differs only in the ALLOW PINGS range check (see "## Findings").

## Model

| member | source | states |
|---|---|---|
| Entries.NewEntry | parse.go:50-55 | A new entry has every text field empty, no categories and the zero date. Its ALLOW COMMENTS and ALLOW PINGS hold the defaults, -1. |
| Entries.Classify | parse.go:68-71 | A line is bare exactly when it contains no `": "`, and a bare line is kept whole. Otherwise the key is the separator-free text before the first separator. The value is the separator-free text after it, up to the next separator or the end of the line. |
| Text.Split | parse.go:68 | `strings.Split(line, ": ")` always gives at least one piece. `SplitPieces` and `JoinSplit` pin it down completely. |
| Text.SplitPieces | parse.go:68-70 | `Split` gives one piece exactly when the line has no separator, and no piece contains a separator. |
| Text.JoinSplit | parse.go:68 | Joining the pieces of `Split` with `": "` gives back the line, so splitting loses nothing. |
| Text.SplitKeyValue | parse.go:111 | A line made of a separator-free key, `": "` and a separator-free value splits into exactly that key and value. |
| Decimal.Atoi | parse.go:131 | An accepted value is an int64. It is an optional sign followed only by digits, and a negative result has a leading minus. `AtoiItoa` is its round trip. |
| Decimal.AtoiItoa | parse.go:131 | `Atoi` reads back every int64 that `Itoa` writes, negative numbers included. |
| Timestamps.ParseLayoutFormat | parse.go:151-156 | Take a layout that has a year, month, day, minute and second, exactly one kind of hour, and AM/PM exactly when the hour is 12-hour, and in which every space is followed by a field. Such a layout reads its own formatted text back as the date it was formatted from. |
| Timestamps.Parse12 | parse.go:153 | `time.Parse("01/02/2006 03:04:05 PM", value)` returns only dates that exist in the calendar. `Parse12Format12` is its round trip. |
| Timestamps.Parse24 | parse.go:155 | `time.Parse("01/02/2006 15:04:05", value)` returns only dates that exist in the calendar. `Parse24Format24` is its round trip. |
| Timestamps.Parse12Format12 | parse.go:152-153 | Every valid date and time, formatted in the 12-hour layout, is parsed back unchanged, including the AM/PM hour. |
| Timestamps.Parse24Format24 | parse.go:154-155 | Every valid date and time, formatted in the 24-hour layout, is parsed back unchanged. |
| Entries.ParseDate | parse.go:151-156 | The DATE column yields only calendar dates. `ParserProperties.ParseDate12`, `ParseDate24` and `DateRule` show which layout it picks and what it reads. |
| Entries.ApplyField | parse.go:113-167 | Only STATUS, ALLOW COMMENTS, ALLOW PINGS and DATE can fail, and no key changes Body or ExtendedBody. The rule for each key is proved in the `ParserProperties` rows below. |
| Parser.Step | parse.go:67-168 | Only a `KEY: value` line outside a block can fail, and one line closes at most the entry being built, leaving the earlier entries as they were. |
| Parser.Run | parse.go:67-170 | A successful run keeps the entries closed before it in front and adds at most one entry per line. |
| Parser.ParseSpec | parse.go:58-171 | The line-by-line meaning of `Parse` returns at most one entry per input line. `RunCount`, `ParseCount` and `ParseWellFormed` state the rest. |
| Parser.Parse | parse.go:58-171 | The method, with its outer loop over the lines, returns exactly `ParseSpec(edition, lines)`: the closed entries, or the first error. |
| Parser.ReadBlock | parse.go:83-106 | After a BODY: or EXTENDED BODY: header, the inner loop stops at the first `-----`, consuming it, or at the end of the input. The lines before the stop contain no `-----`. Each of them, followed by a newline, is appended to Body (or ExtendedBody), and nothing else changes. |
| Parser.BlockEnd | parse.go:83-106 | A block read as `ReadBlock` describes leaves the line-by-line run at top level, with the block appended, at the position where the loop stopped. |
| Parser.SetField | parse.go:111-167 | The `switch key` returns exactly `ApplyField`: the updated entry, or the error of the STATUS, ALLOW COMMENTS, ALLOW PINGS or DATE check. |
| ParserProperties.MarkersSepFree | parse.go:73-95 | The four marker lines contain no `": "`, so the parser sees each of them as a bare line. |
| ParserProperties.KeyValueLine | parse.go:68-111 | A `KEY: value` line whose key and value contain no `": "` is read as that key and value. Lone colons, as in `20:41:58`, stay in the value. |
| ParserProperties.StepMode | parse.go:67-109 | A successful line moves the parser into the mode given by `NextMode` and leaves the finished entries untouched. The current entry is appended exactly on a `--------` read outside a block. |
| ParserProperties.RunCount | parse.go:73-76 | A successful run keeps the entries already closed as a prefix. It adds exactly one entry for each `--------` line read outside a block. |
| ParserProperties.ParseCount | parse.go:73-76 | `Parse` returns as many entries as there are `--------` lines outside BODY and EXTENDED BODY blocks. |
| ParserProperties.TrailingEntryDropped | parse.go:167-170 | If no `--------` follows, the entry being built is not returned: the result is the entries closed before. |
| ParserProperties.ApplyFieldWellFormed | parse.go:113-167 | Every accepted key/value line keeps an entry well formed. |
| ParserProperties.StepWellFormed | parse.go:67-168 | Every accepted line keeps the current entry and the closed entries well formed. |
| ParserProperties.ParseWellFormed | parse.go:123-160 | Every entry `Parse` returns is well formed. STATUS is empty or Draft, Publish or Future, ALLOW COMMENTS is -1, 0 or 1, and the date exists in the calendar. As written, ALLOW PINGS is any int64, set only once ALLOW COMMENTS has been set. With the corrected check it is -1, 0 or 1. |
| ParserProperties.BodyBlock | parse.go:84-94 | A BODY block adds each of its lines to Body with a newline, up to the first `-----`, whatever the lines contain (`--------` and `KEY: value` lines included). The parser is then back at top level. |
| ParserProperties.ExtendedBodyBlock | parse.go:95-105 | The same for an EXTENDED BODY block and ExtendedBody. |
| ParserProperties.UnknownKey | parse.go:113-167 | A key the switch does not handle is accepted and leaves the entry unchanged. |
| ParserProperties.SkippedLine | parse.go:70-108 | At top level, these lines change nothing: a line without a separator that is not one of the three markers (a lone `-----`, `EXCERPT:`, a blank line), and a line with an unknown key. |
| ParserProperties.TextKeyRule | parse.go:114-122 | AUTHOR, TITLE, BASENAME, CONVERT BREAKS and PRIMARY CATEGORY are always accepted. The result is the entry with only the named field set to the value. |
| ParserProperties.LastTextWins | parse.go:114-122 | For AUTHOR, TITLE and BASENAME (and likewise CONVERT BREAKS and PRIMARY CATEGORY), a later line replaces the value of an earlier one: the result does not depend on the earlier value. |
| ParserProperties.StatusRule | parse.go:123-129 | STATUS is accepted exactly when the value is Draft, Publish or Future, and is then stored. Any other value gives the BadStatus error with that value. |
| ParserProperties.AllowCommentsRule | parse.go:130-138 | ALLOW COMMENTS is accepted exactly when the value reads as the integer 0 or 1, and is then stored. A non-integer gives NotAnInteger, and any other integer gives OutOfRange with that integer. |
| ParserProperties.AllowPingsAsWritten | parse.go:139-147 | As written, ALLOW PINGS is accepted exactly when the value is an integer and ALLOW COMMENTS already holds 0 or 1, and the integer is then stored unchecked. A non-integer gives NotAnInteger. Otherwise the error is OutOfRange, carrying the ALLOW PINGS integer. |
| ParserProperties.AllowPingsCorrected | parse.go:139-147 | With the corrected check, ALLOW PINGS is accepted exactly when the value reads as 0 or 1, and is then stored. A non-integer gives NotAnInteger, and any other integer gives OutOfRange with that integer. |
| ParserProperties.TwelveHourByLast | parse.go:152 | Text formatted from a layout ends in AM or PM exactly when the layout's last element is AM/PM rather than the seconds. |
| ParserProperties.ParseDate12 | parse.go:152-153 | 12-hour text selects the 12-hour layout and reads back as its date. |
| ParserProperties.ParseDate24 | parse.go:154-155 | 24-hour text selects the 24-hour layout and reads back as its date. |
| ParserProperties.DateRule | parse.go:151-160 | DATE is accepted exactly when the value parses in the layout its AM/PM suffix selects, and the parsed date is then stored. Otherwise the result is BadDate. |
| ParserProperties.DateRoundTrip | parse.go:151-160 | A DATE value written in either layout is accepted and stored as the date it spells. |
| ParserProperties.Date12NoSep | parse.go:68 | A 12-hour DATE value never contains `": "`, so the colons of the time never split the line. |
| ParserProperties.Date24NoSep | parse.go:68 | The same for a 24-hour DATE value. |
| ParserProperties.DateLineAt | parse.go:151-160 | A `DATE: ...` line holding a date in either layout sets the entry's date to that date, and parsing continues. |
| ParserProperties.CategoryRule | parse.go:164-166 | A CATEGORY value is always accepted and appended to the categories. |
| ParserProperties.CategoriesInOrder | parse.go:164-166 | Consecutive CATEGORY lines append their values to the categories in the order of the lines. Parsing then continues from the lines after them. |
| ParserExamples.StatusNotAllowed | parse_test.go:104-112 | `STATUS: Published` stops the parse with BadStatus("Published"). |
| ParserExamples.DatePM | parse_test.go:119-122 | `DATE: 04/22/2017 08:41:58 PM` followed by `--------` gives one entry dated 2017-04-22 20:41:58. |
| ParserExamples.DateAM | parse_test.go:123-126 | `DATE: 04/22/2017 08:41:58 AM` gives 2017-04-22 08:41:58. |
| ParserExamples.Date24 | parse_test.go:127-130 | `DATE: 04/22/2017 20:41:58` gives 2017-04-22 20:41:58. |
| ParserExamples.PingsCheckedAgainstComments | parse.go:144-146 | As written, `ALLOW COMMENTS: 1`, `ALLOW PINGS: 7`, `--------` returns an entry whose ALLOW PINGS is 7. |
| ParserExamples.PingsWithoutComments | parse.go:144-146 | As written, `ALLOW PINGS: 1`, `--------` fails with OutOfRange(ALLOW PINGS, 1), because ALLOW COMMENTS is still -1. |
| ParserExamples.PingsCheckedCorrected | parse.go:144-146 | With the corrected check, the first input fails with OutOfRange(ALLOW PINGS, 7). |
| ParserExamples.PingsWithoutCommentsCorrected | parse.go:144-146 | With the corrected check, the second input gives an entry whose ALLOW PINGS is 1. |

## Left out

- Reading the input (`bufio.Scanner`) is not modelled. `Parse` takes the input
  already split into lines, without their line terminators.
  - Two consequences of the scanner are therefore not captured. A line longer
    than the scanner's 64 KiB token limit ends the scan early. `scanner.Err()`
    is never consulted, so such an input yields the entries closed so far and
    no error.
- Go strings are byte strings, while the model uses `seq<char>`. Splitting at
  `": "` and comparing with ASCII literals give the same result on UTF-8 text.
  No byte of a multi-byte character equals `:` or a space.
- Error values are constructors of `Error`. The text of the error messages, and
  the `errors.Wrap` cause, are not modelled.
- `time.Parse` is modelled only for the two layouts the parser uses:
  - fixed-width month, day, year, 12-hour hour, minute and second;
  - a 24-hour hour of one or two digits;
  - runs of spaces, upper-case AM/PM, and the day-of-month check.
  - Go accepts a fractional second after the seconds field even though the
    layout has none (`…:58.5`). The model rejects such a DATE value with
    `BadDate`. The result is always UTC, as in Go.
- `[]*Entry` is modelled as a sequence of values. After `m = NewEntry()` the
  parser never touches an appended entry again, so pointers add nothing.
- `parse_test.go`'s `TestParse` expects an `Excerpt` field that `Entry` does not
  have. The model follows parse.go: `EXCERPT:` is a bare line that is skipped,
  and the lines of its block are read as ordinary top-level lines.
- The two-entry input of `TestParse` is not worked through as one example. The
  lemmas it relies on are proved separately: `BodyBlock`, `ExtendedBodyBlock`,
  `CategoriesInOrder`, `DateLineAt`, `TextKeyRule`, `AllowCommentsRule` and
  `ParseCount`.

## Findings

| source | as written | input that shows it | evidently intended | confidence | as-written member | corrected member |
|---|---|---|---|---|---|---|
| parse.go:144 | The ALLOW PINGS case range-checks `m.AllowComments` instead of the value just read into `m.AllowPings`. | `ALLOW COMMENTS: 1`, `ALLOW PINGS: 7`, `--------` is accepted with ALLOW PINGS 7. `ALLOW PINGS: 1`, `--------` is refused with "ALLOW PINGS column is allowed only 0 or 1. Got 1". | `if m.AllowPings != 0 && m.AllowPings != 1`: the error message and the field comment at parse.go:33 both say ALLOW PINGS is 0 or 1. | high; not executed | ParserExamples.PingsCheckedAgainstComments | ParserProperties.AllowPingsCorrected |

With the corrected check (`Edition.Corrected`), `ParserProperties.ParseWellFormed`
proves that every returned entry has ALLOW PINGS equal to -1, 0 or 1.
`ParserExamples.PingsCheckedCorrected` and
`ParserExamples.PingsWithoutCommentsCorrected` show that both inputs above then
behave as intended.
