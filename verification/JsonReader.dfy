/**
 The grammar of JSON text (sections 2 and 2.5 of RFC 4627) as the reader applies it: white space is skipped
 before every token, and a match is a list of events for the tree builder plus the text that follows.
 */
module JsonReader {
  import opened JsonText
  import opened JsonWriter

  datatype Event = BeginObj | EndObj | BeginArray | EndArray | NewName(raw: string) | NewStr(raw: string)
                 | NewTrue | NewFalse | NewNull | NewInt(i: int) | NewUInt64(u: int) | NewReal(digits: string)

  /** A rule matches, does not match, or gives up on the whole text, with the events fired until then. */
  datatype Parse = Match(events: seq<Event>, rest: string) | NoMatch | Throw(events: seq<Event>, reason: string)

  // ---------------------------------------------------------------- tokens

  predicate IsSpace(c: char) {
    c == ' ' || 9 <= c as int <= 13
  }

  function Skip(s: string): (t: string)
    ensures |t| <= |s| && (t != "" ==> !IsSpace(t[0]))
  {
    if s != "" && IsSpace(s[0]) then Skip(s[1..]) else s
  }

  predicate IsDigit(c: char) {
    '0' <= c <= '9'
  }

  predicate IsSign(c: char) {
    c == '+' || c == '-'
  }

  predicate IsExponentLetter(c: char) {
    c == 'e' || c == 'E'
  }

  /** How many digits s starts with. */
  function DigitRun(s: string): (n: nat)
    ensures n <= |s| && forall i :: 0 <= i < n ==> IsDigit(s[i])
    ensures n < |s| ==> !IsDigit(s[n])
  {
    if s != "" && IsDigit(s[0]) then 1 + DigitRun(s[1..]) else 0
  }

  function Number(s: string): (n: int)
    requires forall i :: 0 <= i < |s| ==> IsDigit(s[i])
    ensures n >= 0
  {
    if s == "" then 0
    else
      assert IsDigit(s[|s| - 1]);
      Number(s[..|s| - 1]) * 10 + (s[|s| - 1] as int - '0' as int)
  }

  /** The length of a sign. */
  function SignLength(s: string): (n: nat)
    ensures n <= |s|
  {
    if s != "" && IsSign(s[0]) then 1 else 0
  }

  /** The length of an exponent: none if there is no letter, negative if the letter has no digits. */
  function ExponentLength(s: string): (n: int)
    ensures n <= |s|
  {
    if s == "" || !IsExponentLetter(s[0]) then 0
    else
      var t := s[1..];
      var sign := SignLength(t);
      var digits := DigitRun(t[sign..]);
      if digits == 0 then -1 else 1 + sign + digits
  }

  /** How much of t belongs to a real number of which whole digits have been read: a dot and digits, at least one in
      all, or an exponent behind digits, or both. None also when the exponent is broken off. */
  function FractionLength(t: string, whole: nat): (n: nat)
    ensures n <= |t|
  {
    if t != "" && t[0] == '.' then
      var fraction := DigitRun(t[1..]);
      var exponent := ExponentLength(t[1 + fraction..]);
      if whole + fraction == 0 || exponent < 0 then 0 else 1 + fraction + exponent
    else
      var exponent := ExponentLength(t);
      if whole == 0 || exponent < 0 then 0 else exponent
  }

  /** The length of the real number s starts with. */
  function RealLength(s: string): (n: nat)
    ensures n <= |s|
  {
    var sign := SignLength(s);
    var whole := DigitRun(s[sign..]);
    var more := FractionLength(s[sign + whole..], whole);
    if more == 0 then 0 else sign + whole + more
  }

  /** A signed 64-bit integer, or else, without a sign, an unsigned one. */
  function ParseInteger(s: string): (r: Parse)
    ensures r.Match? ==> |r.rest| < |s|
  {
    var sign := SignLength(s);
    var t := s[sign..];
    var n := DigitRun(t);
    if n == 0 then NoMatch
    else
      var size := Number(t[..n]);
      var value := if sign == 1 && s[0] == '-' then -size else size;
      if -TWO63 <= value < TWO63 then Match([NewInt(value)], t[n..])
      else if sign == 0 && value < TWO64 then Match([NewUInt64(value)], t[n..])
      else NoMatch
  }

  /** A real number if the text starts with one, otherwise an integer. */
  function ParseNumber(s: string): (r: Parse)
    ensures r.Match? ==> |r.rest| < |s|
  {
    var n := RealLength(s);
    if n > 0 then Match([NewReal(s[..n])], s[n..]) else ParseInteger(s)
  }

  /** A quoted string: a string value, or the name of a member. */
  function ParseString(s: string, isName: bool): (r: Parse)
    ensures r.Match? ==> |r.rest| < |s|
  {
    if s == "" || s[0] != '"' then NoMatch
    else
      var n := QuotedLength(s[1..]);
      if n < 0 then NoMatch
      else
        var raw := s[..n + 2];
        Match([if isName then NewName(raw) else NewStr(raw)], s[n + 2..])
  }

  // ---------------------------------------------------------------- the rules

  function Prefixed(events: seq<Event>, r: Parse): Parse {
    if r.NoMatch? then r else r.(events := events + r.events)
  }

  function BeginEvent(isObj: bool): Event {
    if isObj then BeginObj else BeginArray
  }

  function EndEvent(isObj: bool): Event {
    if isObj then EndObj else EndArray
  }

  function ParseValue(s: string): (r: Parse)
    ensures r.Match? ==> |r.rest| < |s|
    decreases |s|, 0
  {
    var t := Skip(s);
    if t == "" then NoMatch
    else if t[0] == '"' then ParseString(t, false)
    else if IsDigit(t[0]) || IsSign(t[0]) || t[0] == '.' then ParseNumber(t)
    else if t[0] == '{' then ParseCompound(true, t[1..])
    else if t[0] == '[' then ParseCompound(false, t[1..])
    else if "true" <= t then Match([NewTrue], t[4..])
    else if "false" <= t then Match([NewFalse], t[5..])
    else if "null" <= t then Match([NewNull], t[4..])
    else NoMatch
  }

  /** What follows an opening bracket: no or more items and the closing bracket. */
  function ParseCompound(isObj: bool, s: string): (r: Parse)
    ensures !r.NoMatch? && (r.Match? ==> |r.rest| < |s|)
    decreases |s|, 3
  {
    var items := Prefixed([BeginEvent(isObj)], ParseItems(isObj, s));
    if !items.Match? then items
    else
      var t := Skip(items.rest);
      if t != "" && t[0] == (if isObj then '}' else ']') then Match(items.events + [EndEvent(isObj)], t[1..])
      else Throw(items.events, if isObj then "not an object" else "not an array")
  }

  /** Items with commas between them, possibly none. */
  function ParseItems(isObj: bool, s: string): (r: Parse)
    ensures !r.NoMatch? && (r.Match? ==> |r.rest| <= |s|)
    decreases |s|, 2
  {
    var first := ParseItem(isObj, s);
    match first
    case Match(events, rest) => Prefixed(events, ParseMore(isObj, rest))
    case NoMatch => Match([], s)
    case _ => first
  }

  /** A comma that no item follows is left in the text. */
  function ParseMore(isObj: bool, s: string): (r: Parse)
    ensures !r.NoMatch? && (r.Match? ==> |r.rest| <= |s|)
    decreases |s|, 0
  {
    var t := Skip(s);
    if t == "" || t[0] != ',' then Match([], s)
    else
      var next := ParseItem(isObj, t[1..]);
      match next
      case Match(events, rest) => Prefixed(events, ParseMore(isObj, rest))
      case NoMatch => Match([], s)
      case _ => next
  }

  /** A value, in an object with a name and a colon before it. */
  function ParseItem(isObj: bool, s: string): (r: Parse)
    ensures r.Match? ==> |r.rest| < |s|
    decreases |s|, 1
  {
    if !isObj then ParseValue(s)
    else
      var name := ParseString(Skip(s), true);
      if !name.Match? then name
      else
        var t := Skip(name.rest);
        if t == "" || t[0] != ':' then Throw(name.events, "no colon in pair")
        else
          var value := ParseValue(t[1..]);
          if value.NoMatch? then Throw(name.events, "not a value") else Prefixed(name.events, value)
  }

  /** A whole text must begin with a value; what follows it is the caller's. */
  function ParseJson(s: string): (r: Parse)
    ensures !r.NoMatch?
  {
    var value := ParseValue(s);
    if value.NoMatch? then Throw([], "not a value") else value
  }
}
