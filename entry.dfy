/**
 * One Movable Type import record (parse.go's `Entry`), its constructor, and
 * what a single "KEY: value" line does to the record being built.
 */
module Entries {
  import opened Wrappers
  import opened Text
  import opened Decimal
  import opened Timestamps

  /** `AllowComments` and `AllowPings` hold -1 until a line sets them. */
  const DefaultAllowComments: int := -1
  const DefaultAllowPings: int := -1

  datatype Entry = Entry(
    author: string,
    title: string,
    basename: string,
    status: string,
    allowComments: int,
    allowPings: int,
    convertBreaks: string,
    date: DateTime,
    primaryCategory: string,
    category: seq<string>,
    body: string,
    extendedBody: string)

  /** `NewEntry()`: every field at Go's zero value except the two flags. */
  function NewEntry(): (e: Entry)
    ensures e.allowComments == DefaultAllowComments && e.allowPings == DefaultAllowPings
    ensures e.author == e.title == e.basename == e.status == e.convertBreaks == e.primaryCategory == ""
    ensures e.category == [] && e.body == "" && e.extendedBody == "" && e.date == Zero
  {
    Entry("", "", "", "", DefaultAllowComments, DefaultAllowPings, "", Zero, "", [], "", "")
  }

  datatype Flag = AllowCommentsFlag | AllowPingsFlag

  /** Why `Parse` gave up; Go returns these as formatted or wrapped `error`s. */
  datatype Error =
    | BadStatus(value: string)               // not Draft, Publish or Future
    | NotAnInteger(flag: Flag, value: string) // strconv.Atoi failed
    | OutOfRange(flag: Flag, got: int)        // an integer other than 0 or 1
    | BadDate(value: string)                 // time.Parse failed

  /**
   * `AsWritten` reproduces parse.go; `Corrected` range-checks the ALLOW PINGS
   * value instead of ALLOW COMMENTS (see the README's findings).
   */
  datatype Edition = AsWritten | Corrected

  /** A line after `strings.Split(line, ": ")`. */
  datatype Line = Bare(text: string) | Field(key: string, value: string)

  /**
   * A line with no separator is bare; otherwise the key is the text before the
   * first separator and the value the text up to the second one, if any.
   */
  function Classify(line: string): (c: Line)
    ensures c.Bare? <==> !HasSep(line)
    ensures c.Bare? ==> c.text == line
    ensures c.Field? ==> !HasSep(c.key) && !HasSep(c.value)
    ensures c.Field? ==>
      var n := |c.key| + 2 + |c.value|;
      n <= |line| && line[..n] == c.key + Sep + c.value && (n == |line| || SepAt(line, n))
  {
    var ss := Split(line);
    SplitPieces(line);
    if |ss| <= 1 then
      Bare(ss[0])
    else
      SplitFirstTwo(line);
      Field(ss[0], ss[1])
  }

  /** The three STATUS values the format allows. */
  predicate AllowedStatus(value: string) {
    value == "Draft" || value == "Publish" || value == "Future"
  }

  /** The DATE value uses the 12-hour layout exactly when it ends in AM or PM. */
  predicate TwelveHour(value: string) {
    HasSuffix(value, "AM") || HasSuffix(value, "PM")
  }

  /** The DATE column: `time.Parse` in the layout the suffix selects; only calendar dates pass. */
  function ParseDate(value: string): (r: Option<DateTime>)
    ensures r.Some? ==> Valid(r.value)
  {
    if TwelveHour(value) then Parse12(value) else Parse24(value)
  }

  /**
   * The `switch key` of `Parse`: what one key/value line does to the entry.
   * Only the four checked keys can fail, and no key touches the bodies.
   */
  function ApplyField(edition: Edition, e: Entry, key: string, value: string): (r: Result<Entry, Error>)
    ensures r.Err? ==> key == "STATUS" || key == "ALLOW COMMENTS" || key == "ALLOW PINGS" || key == "DATE"
    ensures r.Ok? ==> r.value.body == e.body && r.value.extendedBody == e.extendedBody
  {
    if key == "AUTHOR" then Ok(e.(author := value))
    else if key == "TITLE" then Ok(e.(title := value))
    else if key == "BASENAME" then Ok(e.(basename := value))
    else if key == "STATUS" then
      if AllowedStatus(value) then Ok(e.(status := value)) else Err(BadStatus(value))
    else if key == "ALLOW COMMENTS" then
      match Atoi(value)
      case None => Err(NotAnInteger(AllowCommentsFlag, value))
      case Some(n) => if n != 0 && n != 1 then Err(OutOfRange(AllowCommentsFlag, n)) else Ok(e.(allowComments := n))
    else if key == "ALLOW PINGS" then
      match Atoi(value)
      case None => Err(NotAnInteger(AllowPingsFlag, value))
      case Some(n) =>
        var checked := if edition == AsWritten then e.allowComments else n;
        if checked != 0 && checked != 1 then Err(OutOfRange(AllowPingsFlag, n)) else Ok(e.(allowPings := n))
    else if key == "CONVERT BREAKS" then Ok(e.(convertBreaks := value))
    else if key == "DATE" then
      match ParseDate(value)
      case None => Err(BadDate(value))
      case Some(d) => Ok(e.(date := d))
    else if key == "PRIMARY CATEGORY" then Ok(e.(primaryCategory := value))
    else if key == "CATEGORY" then Ok(e.(category := e.category + [value]))
    else Ok(e)
  }
}
