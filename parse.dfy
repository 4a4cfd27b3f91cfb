/**
 * parse.go's `Parse`: a single pass over the input lines that builds one
 * entry at a time. `Step` and `Run` give its meaning line by line; the method
 * `Parse` keeps the source's shape (an outer loop over the lines, the two
 * inner loops over the BODY and EXTENDED BODY blocks in `ReadBlock`, and the
 * `switch key` in `SetField`) and is proved to compute `ParseSpec`. Both take
 * an `Edition`: `AsWritten` is parse.go, `Corrected` fixes its ALLOW PINGS check.
 */
module Parser {
  import opened Wrappers
  import opened Text
  import opened Decimal
  import opened Timestamps
  import opened Entries

  const RecordEnd: string := "--------"
  const FieldEnd: string := "-----"
  const BodyHeader: string := "BODY:"
  const ExtendedBodyHeader: string := "EXTENDED BODY:"

  /** Where the scanner is: reading lines one by one, or inside a block. */
  datatype Mode = TopLevel | InBody | InExtendedBody

  /** The finished entries (`mts`), the entry being built (`m`), and the mode. */
  datatype State = State(done: seq<Entry>, current: Entry, mode: Mode)

  function Start(): State {
    State([], NewEntry(), TopLevel)
  }

  /**
   * The effect of one input line. Only a "KEY: value" line outside a block can
   * fail, and a line closes at most the entry being built.
   */
  function Step(edition: Edition, s: State, line: string): (r: Result<State, Error>)
    ensures r.Err? ==> s.mode == TopLevel && HasSep(line)
    ensures r.Ok? ==> r.value.done == s.done || r.value.done == s.done + [s.current]
  {
    match s.mode
    case InBody =>
      if line == FieldEnd then Ok(s.(mode := TopLevel))
      else Ok(s.(current := s.current.(body := s.current.body + line + "\n")))
    case InExtendedBody =>
      if line == FieldEnd then Ok(s.(mode := TopLevel))
      else Ok(s.(current := s.current.(extendedBody := s.current.extendedBody + line + "\n")))
    case TopLevel =>
      match Classify(line)
      case Bare(text) =>
        if text == RecordEnd then Ok(State(s.done + [s.current], NewEntry(), TopLevel))
        else if text == BodyHeader then Ok(s.(mode := InBody))
        else if text == ExtendedBodyHeader then Ok(s.(mode := InExtendedBody))
        else Ok(s)
      case Field(key, value) =>
        match ApplyField(edition, s.current, key, value)
        case Err(e) => Err(e)
        case Ok(entry) => Ok(s.(current := entry))
  }

  /**
   * The remaining lines from state `s`; at the end the unfinished entry is
   * dropped. The entries already closed stay in front, and each line closes at
   * most one more.
   */
  function Run(edition: Edition, s: State, lines: seq<string>): (r: Result<seq<Entry>, Error>)
    ensures r.Ok? ==> |s.done| <= |r.value| <= |s.done| + |lines| && r.value[..|s.done|] == s.done
    decreases |lines|
  {
    if lines == [] then Ok(s.done)
    else
      match Step(edition, s, lines[0])
      case Err(e) => Err(e)
      case Ok(next) =>
        var r := Run(edition, next, lines[1..]);
        assert r.Ok? ==> r.value[..|s.done|] == r.value[..|next.done|][..|s.done|];
        r
  }

  /** `Parse` on the whole input: at most one entry per line. */
  function ParseSpec(edition: Edition, lines: seq<string>): (r: Result<seq<Entry>, Error>)
    ensures r.Ok? ==> |r.value| <= |lines|
  {
    Run(edition, Start(), lines)
  }

  lemma {:induction false} RunCons(edition: Edition, s: State, lines: seq<string>, i: nat)
    requires i < |lines|
    ensures Run(edition, s, lines[i..]) ==
      match Step(edition, s, lines[i])
      case Err(e) => Err(e)
      case Ok(next) => Run(edition, next, lines[i + 1..])
  {
    assert lines[i..][0] == lines[i];
    assert lines[i..][1..] == lines[i + 1..];
  }

  lemma RunAtEnd(edition: Edition, s: State, lines: seq<string>)
    ensures Run(edition, s, lines[|lines|..]) == Ok(s.done)
  {
    assert lines[|lines|..] == [];
  }

  /** One line inside a BODY block, as the inner loop of `Parse` reads it. */
  lemma {:induction false} RunBodyLine(edition: Edition, done: seq<Entry>, m: Entry, lines: seq<string>, i: nat)
    requires i < |lines|
    ensures Run(edition, State(done, m, InBody), lines[i..]) ==
      if lines[i] == FieldEnd then Run(edition, State(done, m, TopLevel), lines[i + 1..])
      else Run(edition, State(done, m.(body := m.body + lines[i] + "\n"), InBody), lines[i + 1..])
  {
    RunCons(edition, State(done, m, InBody), lines, i);
  }

  /** One line inside an EXTENDED BODY block. */
  lemma {:induction false} RunExtendedBodyLine(edition: Edition, done: seq<Entry>, m: Entry, lines: seq<string>, i: nat)
    requires i < |lines|
    ensures Run(edition, State(done, m, InExtendedBody), lines[i..]) ==
      if lines[i] == FieldEnd then Run(edition, State(done, m, TopLevel), lines[i + 1..])
      else Run(edition, State(done, m.(extendedBody := m.extendedBody + lines[i] + "\n"), InExtendedBody), lines[i + 1..])
  {
    RunCons(edition, State(done, m, InExtendedBody), lines, i);
  }

  /** A line without a separator outside any block. */
  lemma {:induction false} RunBareLine(edition: Edition, done: seq<Entry>, m: Entry, lines: seq<string>, i: nat)
    requires i < |lines| && Classify(lines[i]).Bare?
    ensures Run(edition, State(done, m, TopLevel), lines[i..]) ==
      var line := lines[i];
      if line == RecordEnd then Run(edition, State(done + [m], NewEntry(), TopLevel), lines[i + 1..])
      else if line == BodyHeader then Run(edition, State(done, m, InBody), lines[i + 1..])
      else if line == ExtendedBodyHeader then Run(edition, State(done, m, InExtendedBody), lines[i + 1..])
      else Run(edition, State(done, m, TopLevel), lines[i + 1..])
  {
    RunCons(edition, State(done, m, TopLevel), lines, i);
  }

  /** A "KEY: value" line outside any block. */
  lemma {:induction false} RunFieldLine(edition: Edition, done: seq<Entry>, m: Entry, lines: seq<string>, i: nat)
    requires i < |lines| && Classify(lines[i]).Field?
    ensures Run(edition, State(done, m, TopLevel), lines[i..]) ==
      var c := Classify(lines[i]);
      match ApplyField(edition, m, c.key, c.value)
      case Err(e) => Err(e)
      case Ok(entry) => Run(edition, State(done, entry, TopLevel), lines[i + 1..])
  {
    RunCons(edition, State(done, m, TopLevel), lines, i);
  }

  /**
   * `Parse(r)`, with the reader already split into lines: the entries closed
   * by a "--------" line, or the first error. `Parse(AsWritten, lines)` is
   * parse.go's `Parse`.
   */
  method Parse(edition: Edition, lines: seq<string>) returns (r: Result<seq<Entry>, Error>)
    ensures r == ParseSpec(edition, lines)
  {
    ghost var spec := ParseSpec(edition, lines);
    var mts: seq<Entry> := [];
    var m := NewEntry();
    var i := 0;
    while i < |lines|
      invariant i <= |lines|
      invariant spec == Run(edition, State(mts, m, TopLevel), lines[i..])
    {
      var line := lines[i];
      i := i + 1;
      var ss := Split(line);

      if |ss| <= 1 {
        var value := ss[0];
        assert Classify(line) == Bare(value);
        RunBareLine(edition, mts, m, lines, i - 1);
        if value == RecordEnd {
          mts := mts + [m];
          m := NewEntry();
          assert spec == Run(edition, State(mts, m, TopLevel), lines[i..]);
          continue;
        }
        if value == FieldEnd {
          assert spec == Run(edition, State(mts, m, TopLevel), lines[i..]);
          continue;
        }
        if value == BodyHeader || value == ExtendedBodyHeader {
          var start, entry, extended := i, m, value == ExtendedBodyHeader;
          m, i := ReadBlock(lines, start, entry, extended);
          BlockEnd(edition, mts, entry, extended, lines, start, if start < i && lines[i - 1] == FieldEnd then i - 1 else i, i);
        } else {
          assert spec == Run(edition, State(mts, m, TopLevel), lines[i..]);
        }
        continue;
      }

      var key, value := ss[0], ss[1];
      assert Classify(line) == Field(key, value);
      RunFieldLine(edition, mts, m, lines, i - 1);
      var updated := SetField(edition, m, key, value);
      if updated.Err? {
        return Err(updated.error);
      }
      m := updated.value;
      assert spec == Run(edition, State(mts, m, TopLevel), lines[i..]);
    }
    RunAtEnd(edition, State(mts, m, TopLevel), lines);
    return Ok(mts);
  }

  /** What a block adds to the body: each of its lines followed by a newline. */
  function BlockText(block: seq<string>): string {
    if block == [] then "" else block[0] + "\n" + BlockText(block[1..])
  }

  /** `e` with `block` appended to its body, or to its extended body. */
  function WithBlock(e: Entry, extended: bool, block: seq<string>): Entry {
    if extended then e.(extendedBody := e.extendedBody + BlockText(block))
    else e.(body := e.body + BlockText(block))
  }

  lemma {:induction false} BlockTextSnoc(block: seq<string>, line: string)
    ensures BlockText(block + [line]) == BlockText(block) + line + "\n"
    decreases |block|
  {
    if block == [] {
      assert block + [line] == [line];
      assert BlockText([line]) == line + "\n" + BlockText([]);
    } else {
      assert (block + [line])[1..] == block[1..] + [line];
      BlockTextSnoc(block[1..], line);
      var head, tail := block[0] + "\n", BlockText(block[1..]);
      assert head + (tail + line + "\n") == head + tail + line + "\n";
    }
  }

  lemma WithBlockEmpty(e: Entry, extended: bool, lines: seq<string>, start: nat)
    requires start <= |lines|
    ensures WithBlock(e, extended, lines[start..start]) == e
  {
    assert lines[start..start] == [];
    assert e.body + "" == e.body && e.extendedBody + "" == e.extendedBody;
  }

  /** One more line of a block adds that line and a newline. */
  lemma WithBlockStep(e: Entry, extended: bool, lines: seq<string>, start: nat, i: nat)
    requires start <= i < |lines|
    ensures var before := WithBlock(e, extended, lines[start..i]);
      WithBlock(e, extended, lines[start..i + 1]) ==
        if extended then before.(extendedBody := before.extendedBody + lines[i] + "\n")
        else before.(body := before.body + lines[i] + "\n")
  {
    assert lines[start..i + 1] == lines[start..i] + [lines[i]];
    BlockTextSnoc(lines[start..i], lines[i]);
    var text, block := if extended then e.extendedBody else e.body, BlockText(lines[start..i]);
    assert text + (block + lines[i] + "\n") == text + block + lines[i] + "\n";
  }

  /** Inside a block, lines other than "-----" only add to the body being read. */
  lemma {:induction false} BlockRun(edition: Edition, done: seq<Entry>, e: Entry, extended: bool,
                                    lines: seq<string>, start: nat, i: nat)
    requires start <= i <= |lines|
    requires forall k :: start <= k < i ==> lines[k] != FieldEnd
    ensures var mode := if extended then InExtendedBody else InBody;
      Run(edition, State(done, e, mode), lines[start..]) ==
      Run(edition, State(done, WithBlock(e, extended, lines[start..i]), mode), lines[i..])
    decreases i - start
  {
    if i == start {
      WithBlockEmpty(e, extended, lines, start);
    } else {
      BlockRun(edition, done, e, extended, lines, start, i - 1);
      WithBlockStep(e, extended, lines, start, i - 1);
      var m := WithBlock(e, extended, lines[start..i - 1]);
      if extended {
        RunExtendedBodyLine(edition, done, m, lines, i - 1);
      } else {
        RunBodyLine(edition, done, m, lines, i - 1);
      }
    }
  }

  /**
   * What the inner loop stops on: a block starting at `start` that ends at
   * `stop`, consumed up to `i`. Either the "-----" at `stop` ended it (then
   * `i` is one past it) or the input ran out (then `stop == i == |lines|`).
   */
  predicate BlockEnds(lines: seq<string>, start: nat, stop: nat, i: nat) {
    && start <= stop <= i <= |lines|
    && (forall k :: start <= k < stop ==> lines[k] != FieldEnd)
    && (if stop < i then i == stop + 1 && lines[stop] == FieldEnd else i == |lines|)
  }

  /** After the block, the run goes on at top level with the block appended. */
  lemma BlockEnd(edition: Edition, mts: seq<Entry>, entry: Entry, extended: bool,
                 lines: seq<string>, start: nat, stop: nat, i: nat)
    requires BlockEnds(lines, start, stop, i)
    ensures Run(edition, State(mts, entry, if extended then InExtendedBody else InBody), lines[start..]) ==
            Run(edition, State(mts, WithBlock(entry, extended, lines[start..stop]), TopLevel), lines[i..])
  {
    BlockRun(edition, mts, entry, extended, lines, start, stop);
    var m := WithBlock(entry, extended, lines[start..stop]);
    if stop < i {
      if extended {
        RunExtendedBodyLine(edition, mts, m, lines, stop);
      } else {
        RunBodyLine(edition, mts, m, lines, stop);
      }
    } else {
      RunAtEnd(edition, State(mts, m, if extended then InExtendedBody else InBody), lines);
      RunAtEnd(edition, State(mts, m, TopLevel), lines);
    }
  }

  /**
   * The inner loops of `Parse`: after a BODY: (or EXTENDED BODY:) header, every
   * line up to the next "-----" is appended to the body (or extended body)
   * with a newline, and the "-----" itself is consumed. Without a "-----" the
   * block runs to the end of the input.
   */
  method ReadBlock(lines: seq<string>, start: nat, entry: Entry, extended: bool)
    returns (m: Entry, i: nat)
    requires start <= |lines|
    ensures start <= i <= |lines|
    ensures var stop := if start < i && lines[i - 1] == FieldEnd then i - 1 else i;
      BlockEnds(lines, start, stop, i) && m == WithBlock(entry, extended, lines[start..stop])
  {
    m, i := entry, start;
    WithBlockEmpty(entry, extended, lines, start);
    if !extended {
      while i < |lines|
        invariant start <= i <= |lines|
        invariant forall k :: start <= k < i ==> lines[k] != FieldEnd
        invariant m == WithBlock(entry, false, lines[start..i])
      {
        var line := lines[i];
        if line == FieldEnd {
          i := i + 1;
          return;
        }
        WithBlockStep(entry, false, lines, start, i);
        i := i + 1;
        m := m.(body := m.body + line + "\n");
      }
    } else {
      while i < |lines|
        invariant start <= i <= |lines|
        invariant forall k :: start <= k < i ==> lines[k] != FieldEnd
        invariant m == WithBlock(entry, true, lines[start..i])
      {
        var line := lines[i];
        if line == FieldEnd {
          i := i + 1;
          return;
        }
        WithBlockStep(entry, true, lines, start, i);
        i := i + 1;
        m := m.(extendedBody := m.extendedBody + line + "\n");
      }
    }
  }

  /** The `switch key` in `Parse`, updating the entry being built field by field. */
  method SetField(edition: Edition, entry: Entry, key: string, value: string) returns (r: Result<Entry, Error>)
    ensures r == ApplyField(edition, entry, key, value)
  {
    var m := entry;
    if key == "AUTHOR" {
      m := m.(author := value);
    } else if key == "TITLE" {
      m := m.(title := value);
    } else if key == "BASENAME" {
      m := m.(basename := value);
    } else if key == "STATUS" {
      if value == "Draft" || value == "Publish" || value == "Future" {
        m := m.(status := value);
      } else {
        return Err(BadStatus(value));
      }
    } else if key == "ALLOW COMMENTS" {
      var n := Atoi(value);
      if n.None? {
        return Err(NotAnInteger(AllowCommentsFlag, value));
      }
      m := m.(allowComments := n.value);
      if m.allowComments != 0 && m.allowComments != 1 {
        return Err(OutOfRange(AllowCommentsFlag, m.allowComments));
      }
    } else if key == "ALLOW PINGS" {
      var n := Atoi(value);
      if n.None? {
        return Err(NotAnInteger(AllowPingsFlag, value));
      }
      m := m.(allowPings := n.value);
      var checked := if edition == AsWritten then m.allowComments else m.allowPings;
      if checked != 0 && checked != 1 {
        return Err(OutOfRange(AllowPingsFlag, m.allowPings));
      }
    } else if key == "CONVERT BREAKS" {
      m := m.(convertBreaks := value);
    } else if key == "DATE" {
      var date: Option<DateTime>;
      if HasSuffix(value, "AM") || HasSuffix(value, "PM") {
        date := Parse12(value);
      } else {
        date := Parse24(value);
      }
      if date.None? {
        return Err(BadDate(value));
      }
      m := m.(date := date.value);
    } else if key == "PRIMARY CATEGORY" {
      m := m.(primaryCategory := value);
    } else if key == "CATEGORY" {
      m := m.(category := m.category + [value]);
    }
    return Ok(m);
  }
}
