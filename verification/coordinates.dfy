/** A cell address and its text form `x,y`, as typed by a player. */
module Coords {
  import opened Wrappers
  import opened Numbers

  datatype Coordinates = Coordinates(x: int8, y: int8)

  /** The one error message of the parser, whatever went wrong. */
  const ParseError: string := "Coordinates can't be parsed"

  /** `format!("{},{}", x, y)`: the text the board shows in an empty cell. */
  function Label(x: int8, y: int8): string
  {
    ToDecimal(x) + "," + ToDecimal(y)
  }

  /** The position of the first comma in `s`, if any. */
  function FirstComma(s: string): (r: Option<nat>)
    ensures r.Some? ==> r.value < |s| && s[r.value] == ',' && ',' !in s[..r.value]
    ensures r.None? ==> ',' !in s
  {
    if s == [] then None
    else if s[0] == ',' then Some(0)
    else
      match FirstComma(s[1..])
      case None => None
      case Some(i) =>
        assert s[..i + 1] == [s[0]] + s[1..][..i];
        Some(i + 1)
  }

  /** `s` matches `^(-?[0-9]+),(-?[0-9]+)$` with the separating comma at `i`. */
  ghost predicate MatchesAt(s: string, i: int) {
    && 0 <= i < |s| && s[i] == ','
    && IsNumeral(s[..i]) && IsNumeral(s[i + 1..])
  }

  /**
   * `Coordinates::from_str`: the whole text must be two numerals separated by
   * one comma, and each must fit in `i8`. Bounds are not checked here.
   */
  function FromStr(s: string): (r: Result<Coordinates>)
    ensures r.Err? ==> r.error == ParseError
  {
    match FirstComma(s)
    case None => Err(ParseError)
    case Some(i) =>
      var left, right := s[..i], s[i + 1..];
      if !(IsNumeral(left) && IsNumeral(right)) then Err(ParseError)
      else
        match (ParseInt8(left), ParseInt8(right))
        case (Some(x), Some(y)) => Ok(Coordinates(x, y))
        case _ => Err(ParseError)
  }

  /** A numeral holds no comma, so the comma of a match is the first comma. */
  lemma MatchedCommaIsFirst(s: string, i: int)
    requires MatchesAt(s, i)
    ensures FirstComma(s) == Some(i)
  {
    assert forall k :: 0 <= k < i ==> s[..i][k] != ',';
  }

  /**
   * The parser accepts exactly the texts that match the pattern and whose two
   * numerals denote values in `i8` range, and returns those values. Every
   * other text is refused with the one parse error.
   */
  lemma FromStrMeaning(s: string)
    ensures (forall i :: !MatchesAt(s, i)) ==> FromStr(s) == Err(ParseError)
    ensures forall i :: MatchesAt(s, i) ==>
      var x, y := NumeralValue(s[..i]), NumeralValue(s[i + 1..]);
      FromStr(s) == if InInt8(x) && InInt8(y) then Ok(Coordinates(x as int8, y as int8)) else Err(ParseError)
  {
    forall i | MatchesAt(s, i) {
      MatchedCommaIsFirst(s, i);
    }
    if FirstComma(s).Some? {
      var i := FirstComma(s).value;
      if IsNumeral(s[..i]) && IsNumeral(s[i + 1..]) {
        assert MatchesAt(s, i);
      }
    }
  }

  /** Only texts of the form `-?digits,-?digits` are ever accepted. */
  lemma FromStrOnlyMatches(s: string)
    requires FromStr(s).Ok?
    ensures exists i :: MatchesAt(s, i)
  {
    FromStrMeaning(s);
  }

  /** Reading back the label of an empty cell gives its coordinates. */
  lemma {:induction false} LabelRoundTrip(x: int8, y: int8)
    ensures FromStr(Label(x, y)) == Ok(Coordinates(x, y))
  {
    var a, b := ToDecimal(x), ToDecimal(y);
    ToDecimalDenotes(x);
    ToDecimalDenotes(y);
    var s := Label(x, y);
    assert s[..|a|] == a && s[|a| + 1..] == b;
    assert MatchesAt(s, |a|);
    FromStrMeaning(s);
  }
}
