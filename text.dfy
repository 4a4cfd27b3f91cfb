/**
 * The two pieces of Go's `strings` package that the parser relies on:
 * `strings.Split(line, ": ")` and `strings.HasSuffix`.
 */
module Text {
  import opened Wrappers

  /** The separator between a key and its value. */
  const Sep: string := ": "

  /** A separator starts at index `j` of `s`. */
  predicate SepAt(s: string, j: int) {
    0 <= j && j + 1 < |s| && s[j] == ':' && s[j + 1] == ' '
  }

  ghost predicate HasSep(s: string) {
    exists j :: SepAt(s, j)
  }

  /** The index of the first separator in `s`, as `strings.Index` finds it. */
  function FirstSep(s: string): (r: Option<nat>)
    ensures r.Some? ==> SepAt(s, r.value)
    ensures r.Some? ==> forall j :: 0 <= j < r.value ==> !SepAt(s, j)
    ensures r.None? <==> !HasSep(s)
  {
    if |s| < 2 then
      None
    else if s[0] == ':' && s[1] == ' ' then
      assert SepAt(s, 0);
      Some(0)
    else
      match FirstSep(s[1..])
      case None =>
        assert forall j :: SepAt(s, j) ==> j == 0 || SepAt(s[1..], j - 1);
        None
      case Some(i) =>
        assert forall j :: 1 <= j <= i ==> (SepAt(s, j) <==> SepAt(s[1..], j - 1));
        assert SepAt(s, i + 1);
        Some(i + 1)
  }

  /**
   * `strings.Split(s, ": ")`: the pieces of `s` between separators, at least one.
   */
  function Split(s: string): (parts: seq<string>)
    ensures |parts| >= 1
    decreases |s|
  {
    match FirstSep(s)
    case None => [s]
    case Some(i) => [s[..i]] + Split(s[i + 2..])
  }

  /** There is more than one piece exactly when the line holds a separator, and no piece holds one. */
  lemma {:induction false} SplitPieces(s: string)
    ensures |Split(s)| == 1 <==> !HasSep(s)
    ensures forall k :: 0 <= k < |Split(s)| ==> !HasSep(Split(s)[k])
    decreases |s|
  {
    match FirstSep(s)
    case None =>
    case Some(i) =>
      var head, rest := s[..i], s[i + 2..];
      assert Split(s) == [head] + Split(rest);
      assert forall j :: SepAt(head, j) ==> SepAt(s, j);
      SplitPieces(rest);
      forall k | 1 <= k < |Split(s)|
        ensures !HasSep(Split(s)[k])
      {
        assert Split(s)[k] == Split(rest)[k - 1];
      }
  }

  /** `strings.Join(parts, ": ")`, the inverse of `Split`. */
  function Join(parts: seq<string>): string
    requires |parts| >= 1
  {
    if |parts| == 1 then parts[0] else parts[0] + Sep + Join(parts[1..])
  }

  /** Splitting loses nothing: joining the pieces gives the line back. */
  lemma {:induction false} JoinSplit(s: string)
    ensures Join(Split(s)) == s
    decreases |s|
  {
    match FirstSep(s)
    case None =>
    case Some(i) =>
      var rest := s[i + 2..];
      var parts := Split(s);
      assert parts == [s[..i]] + Split(rest);
      assert parts[1..] == Split(rest);
      JoinSplit(rest);
      assert |parts| > 1;
      assert Join(parts) == parts[0] + Sep + Join(parts[1..]);
      assert s == s[..i] + Sep + rest;
  }

  /** A line made of a separator-free key and value splits back into exactly those two. */
  lemma SplitKeyValue(key: string, value: string)
    requires !HasSep(key) && !HasSep(value)
    ensures Split(key + Sep + value) == [key, value]
  {
    var s := key + Sep + value;
    assert SepAt(s, |key|);
    forall j | 0 <= j < |key|
      ensures !SepAt(s, j)
    {
      if j + 1 < |key| {
        assert !SepAt(key, j);
      }
    }
    assert FirstSep(s) == Some(|key|);
    assert s[..|key|] == key;
    assert s[|key| + 2..] == value;
  }

  /** The first piece is a prefix of the line, followed by a separator or by nothing. */
  lemma {:induction false} SplitFirst(s: string)
    ensures var n := |Split(s)[0]|;
      n <= |s| && s[..n] == Split(s)[0] && (n == |s| || SepAt(s, n))
  {
    match FirstSep(s)
    case None =>
    case Some(i) =>
      assert Split(s)[0] == s[..i];
  }

  /**
   * With a separator present, the first two pieces are the text before the
   * first separator and the text between it and the next one (or the end).
   */
  lemma {:induction false} SplitFirstTwo(s: string)
    requires HasSep(s)
    ensures |Split(s)| >= 2
    ensures var n := |Split(s)[0]| + 2 + |Split(s)[1]|;
      n <= |s| && s[..n] == Split(s)[0] + Sep + Split(s)[1] && (n == |s| || SepAt(s, n))
  {
    var i := FirstSep(s).value;
    var rest := s[i + 2..];
    assert Split(s) == [s[..i]] + Split(rest);
    SplitFirst(rest);
    PrefixThroughSecond(s, i, Split(rest)[0]);
  }

  /** A separator at `i` followed by a prefix `v` of what comes after it. */
  lemma PrefixThroughSecond(s: string, i: nat, v: string)
    requires SepAt(s, i)
    requires var rest := s[i + 2..]; |v| <= |rest| && rest[..|v|] == v && (|v| == |rest| || SepAt(rest, |v|))
    ensures var n := i + 2 + |v|; n <= |s| && s[..n] == s[..i] + Sep + v && (n == |s| || SepAt(s, n))
  {
    var n := i + 2 + |v|;
    assert s[..n] == s[..i] + s[i..i + 2] + s[i + 2..][..|v|];
  }

  /** A string with no colon at all cannot contain the separator. */
  lemma NoColonNoSep(s: string)
    requires ':' !in s
    ensures !HasSep(s)
  {
  }

  /** `strings.HasSuffix(s, suffix)`. */
  predicate HasSuffix(s: string, suffix: string) {
    |suffix| <= |s| && s[|s| - |suffix|..] == suffix
  }
}
