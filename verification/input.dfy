/**
 * `read_input`: one line of standard input, trimmed and parsed. The lines
 * still to be read are a sequence of strings; at the end of the input a
 * read yields the empty line, as `read_line` does at end of file.
 */
module Input {
  import opened Wrappers
  import opened Numbers
  import opened Coords

  /** The message `read_input` reports for any line that does not parse. */
  const ParseFailure: string := "Input can't be parsed"

  /** `char::is_whitespace`: the characters with the Unicode White_Space property. */
  const Whitespace: set<char> := {
    '\t', '\n', '\U{B}', '\U{C}', '\r', ' ', '\U{85}', '\U{A0}', '\U{1680}',
    '\U{2000}', '\U{2001}', '\U{2002}', '\U{2003}', '\U{2004}', '\U{2005}',
    '\U{2006}', '\U{2007}', '\U{2008}', '\U{2009}', '\U{200A}',
    '\U{2028}', '\U{2029}', '\U{202F}', '\U{205F}', '\U{3000}'
  }

  predicate AllIn(s: string, ws: set<char>) {
    forall i :: 0 <= i < |s| ==> s[i] in ws
  }

  /** The number of characters from `ws` that `s` starts with. */
  function Leading(s: string, ws: set<char>): (n: nat)
    ensures n <= |s| && forall k :: 0 <= k < n ==> s[k] in ws
    ensures n < |s| ==> s[n] !in ws
    decreases |s|
  {
    if s == [] || s[0] !in ws then 0
    else 1 + Leading(s[1..], ws)
  }

  /** The number of characters from `ws` that `s` ends with. */
  function Trailing(s: string, ws: set<char>): (n: nat)
    ensures n <= |s| && forall k :: |s| - n <= k < |s| ==> s[k] in ws
    ensures n < |s| ==> s[|s| - n - 1] !in ws
    decreases |s|
  {
    if s == [] || s[|s| - 1] !in ws then 0
    else 1 + Trailing(s[..|s| - 1], ws)
  }

  /**
   * `s[i..j]` is `s` with its ends from `ws` cut off: everything before `i`
   * and from `j` on is in `ws`, and a non-empty middle neither starts nor
   * ends with a character of `ws`.
   */
  ghost predicate TrimmedAt(s: string, ws: set<char>, i: int, j: int) {
    && 0 <= i <= j <= |s|
    && (forall k :: 0 <= k < i ==> s[k] in ws)
    && (forall k :: j <= k < |s| ==> s[k] in ws)
    && (i < j ==> s[i] !in ws && s[j - 1] !in ws)
  }

  /** `str::trim_matches`: `trim_start_matches` followed by `trim_end_matches`. */
  function TrimMatches(s: string, ws: set<char>): (r: string)
    ensures |r| <= |s|
  {
    var i := Leading(s, ws);
    s[i..|s| - Trailing(s[i..], ws)]
  }

  /** `str::trim`: whitespace cut off both ends. */
  function Trim(s: string): (r: string)
    ensures |r| <= |s|
  {
    TrimMatches(s, Whitespace)
  }

  /** `TrimMatches` cuts at the first and after the last character outside `ws`. */
  lemma TrimCut(s: string, ws: set<char>)
    ensures var i := Leading(s, ws); var j := |s| - Trailing(s[i..], ws);
      TrimmedAt(s, ws, i, j) && TrimMatches(s, ws) == s[i..j]
  {
    var i := Leading(s, ws);
    var rest := s[i..];
    var n := Trailing(rest, ws);
    var j := |s| - n;
    forall k | j <= k < |s| ensures s[k] in ws {
      assert s[k] == rest[k - i];
    }
    if i < j {
      assert s[j - 1] == rest[|rest| - n - 1];
    }
  }

  /** The cut is determined by `s`: any cut with those properties is the one `TrimMatches` makes. */
  lemma TrimmedAtUnique(s: string, ws: set<char>, i: int, j: int, i': int, j': int)
    requires TrimmedAt(s, ws, i, j) && TrimmedAt(s, ws, i', j')
    ensures s[i..j] == s[i'..j']
  {
    if i < j || i' < j' {
      assert i == i' && j == j';
    }
  }

  /** Any cut with the properties of `TrimmedAt` is what `TrimMatches` returns. */
  lemma TrimMatchesAt(s: string, ws: set<char>, i: int, j: int)
    requires TrimmedAt(s, ws, i, j)
    ensures TrimMatches(s, ws) == s[i..j]
  {
    TrimCut(s, ws);
    TrimmedAtUnique(s, ws, i, j, Leading(s, ws), |s| - Trailing(s[Leading(s, ws)..], ws));
  }

  /** Trimming twice is trimming once. */
  lemma TrimIdempotent(s: string)
    ensures Trim(Trim(s)) == Trim(s)
  {
    var t := Trim(s);
    TrimCut(s, Whitespace);
    assert TrimmedAt(t, Whitespace, 0, |t|);
    TrimMatchesAt(t, Whitespace, 0, |t|);
  }

  /** A line without whitespace at its ends is read as it is. */
  lemma TrimKeepsInner(s: string)
    requires s == [] || (s[0] !in Whitespace && s[|s| - 1] !in Whitespace)
    ensures Trim(s) == s
  {
    TrimMatchesAt(s, Whitespace, 0, |s|);
  }

  /** `read_line`: the next line and the lines after it; the empty line at the end of the input. */
  function ReadLine(inputs: seq<string>): (r: (string, seq<string>))
    ensures inputs != [] ==> r.0 == inputs[0] && r.1 == inputs[1..]
    ensures inputs == [] ==> r.0 == "" && r.1 == []
  {
    if inputs == [] then ("", []) else (inputs[0], inputs[1..])
  }

  /** `bool::from_str`: exactly `true` or `false`. */
  function ParseBool(s: string): (r: Option<bool>)
  {
    if s == "true" then Some(true)
    else if s == "false" then Some(false)
    else None
  }

  /** `read_input::<Coordinates>()`: the next line, trimmed, as coordinates. */
  function ReadCoordinates(inputs: seq<string>): (r: (Result<Coordinates>, seq<string>))
    ensures r.1 == ReadLine(inputs).1
    ensures r.0.Err? ==> r.0.error == ParseFailure
  {
    var (line, rest) := ReadLine(inputs);
    match FromStr(Trim(line))
    case Ok(c) => (Ok(c), rest)
    case Err(_) => (Err(ParseFailure), rest)
  }

  /** `read_input::<bool>()`: the next line, trimmed, as a yes or no answer. */
  function ReadBool(inputs: seq<string>): (r: (Result<bool>, seq<string>))
    ensures r.1 == ReadLine(inputs).1
    ensures r.0.Err? ==> r.0.error == ParseFailure
  {
    var (line, rest) := ReadLine(inputs);
    match ParseBool(Trim(line))
    case Some(v) => (Ok(v), rest)
    case None => (Err(ParseFailure), rest)
  }

  /** At the end of the input neither coordinates nor an answer can be read. */
  lemma EndOfInput()
    ensures ReadCoordinates([]) == (Err(ParseFailure), [])
    ensures ReadBool([]) == (Err(ParseFailure), [])
  {
    assert Trim("") == "";
  }

  /** Padding from `ws` on either side of a text with no `ws` at its ends is cut off again. */
  lemma TrimPadded(l: string, t: string, r: string, ws: set<char>)
    requires AllIn(l, ws) && AllIn(r, ws)
    requires t != [] && t[0] !in ws && t[|t| - 1] !in ws
    ensures TrimMatches(l + t + r, ws) == t
  {
    var s := l + t + r;
    var i, j := |l|, |l| + |t|;
    assert s[i..j] == t;
    assert forall k :: 0 <= k < i ==> s[k] == l[k];
    assert forall k :: j <= k < |s| ==> s[k] == r[k - j];
    assert TrimmedAt(s, ws, i, j);
    TrimMatchesAt(s, ws, i, j);
  }

  /** Neither a digit nor a minus sign is whitespace. */
  lemma SignOrDigitIsNotWhitespace(ch: char)
    requires IsDigit(ch) || ch == '-'
    ensures ch !in Whitespace
  {
  }

  /** A numeral starts with a digit or `-` and ends with a digit. */
  lemma NumeralEnds(t: string)
    requires IsNumeral(t)
    ensures t != [] && t[0] !in Whitespace && t[|t| - 1] !in Whitespace
  {
    SignOrDigitIsNotWhitespace(t[0]);
    if IsDigits(t) {
      SignOrDigitIsNotWhitespace(t[|t| - 1]);
    } else {
      var u := t[1..];
      assert t[|t| - 1] == u[|u| - 1];
      SignOrDigitIsNotWhitespace(u[|u| - 1]);
    }
  }

  /** A label starts with a digit or `-` and ends with a digit. */
  lemma LabelEnds(x: int8, y: int8)
    ensures var s := Label(x, y); s != [] && s[0] !in Whitespace && s[|s| - 1] !in Whitespace
  {
    var tx, ty := ToDecimal(x), ToDecimal(y);
    ToDecimalDenotes(x);
    ToDecimalDenotes(y);
    NumeralEnds(tx);
    NumeralEnds(ty);
    var s := Label(x, y);
    assert s == tx + "," + ty;
    assert s[0] == tx[0] && s[|s| - 1] == ty[|ty| - 1];
  }

  /** A cell's own label, typed with any surrounding whitespace, reads back as that cell. */
  lemma ReadLabel(x: int8, y: int8, l: string, r: string, rest: seq<string>)
    requires AllIn(l, Whitespace) && AllIn(r, Whitespace)
    ensures ReadCoordinates([l + Label(x, y) + r] + rest) == (Ok(Coordinates(x, y)), rest)
  {
    LabelEnds(x, y);
    TrimPadded(l, Label(x, y), r, Whitespace);
    LabelRoundTrip(x, y);
    assert ([l + Label(x, y) + r] + rest)[1..] == rest;
  }
}
