/**
 Escaping and unescaping the strings of JSON text. A byte of the original is a character below 256.
 */
module JsonText {
  predicate Bytes(s: string) {
    forall i :: 0 <= i < |s| ==> s[i] as int < 256
  }

  const BACKSPACE: char := 8 as char
  const FORM_FEED: char := 12 as char

  /** Is a character printable, in whatever locale, and does the writer leave unprintable ones alone? */
  datatype Escaping = Escaping(raw: bool, printable: char -> bool)

  // ---------------------------------------------------------------- hexadecimal digits

  function ToHexChar(c: int): (ch: char)
    requires 0 <= c <= 0xF
  {
    if c < 10 then ('0' as int + c) as char else ('A' as int - 10 + c) as char
  }

  function HexToNum(c: char): (n: int)
    ensures 0 <= n <= 0xF
  {
    if '0' <= c <= '9' then c as int - '0' as int
    else if 'a' <= c <= 'f' then c as int - 'a' as int + 10
    else if 'A' <= c <= 'F' then c as int - 'A' as int + 10
    else 0
  }

  lemma HexRoundTrip(c: int)
    requires 0 <= c <= 0xF
    ensures HexToNum(ToHexChar(c)) == c
    ensures ToHexChar(c) != '"' && ToHexChar(c) != '\\'
  {
  }

  /** Four hexadecimal digits behind \u, low one last. */
  function NonPrintableToString(c: int): (s: string)
    requires 0 <= c
    ensures |s| == 6
  {
    ['\\', 'u', ToHexChar(c / 0x1000 % 0x10), ToHexChar(c / 0x100 % 0x10),
     ToHexChar(c / 0x10 % 0x10), ToHexChar(c % 0x10)]
  }

  /** The character of four digits; what does not fit a byte is cut off. */
  function UnicodeStrToChar(s: string): (c: char)
    requires |s| == 4
  {
    ((HexToNum(s[0]) * 0x1000 + HexToNum(s[1]) * 0x100 + HexToNum(s[2]) * 0x10 + HexToNum(s[3])) % 256) as char
  }

  function HexStrToChar(s: string): (c: char)
    requires |s| == 2
  {
    (HexToNum(s[0]) * 0x10 + HexToNum(s[1])) as char
  }

  lemma Nibbles(n: int)
    requires 0 <= n < 256
    ensures n / 0x1000 % 0x10 == 0 && n / 0x100 % 0x10 == 0 && n / 0x10 % 0x10 == n / 0x10
    ensures 0 <= n / 0x10 <= 0xF && n == n / 0x10 * 0x10 + n % 0x10
  {
  }

  lemma UnicodeRoundTrip(c: char)
    requires c as int < 256
    ensures UnicodeStrToChar(NonPrintableToString(c as int)[2..]) == c
  {
    var n := c as int;
    Nibbles(n);
    var high, low := n / 0x10, n % 0x10;
    assert NonPrintableToString(n)[2..] == [ToHexChar(0), ToHexChar(0), ToHexChar(high), ToHexChar(low)];
    hide NonPrintableToString, HexToNum, ToHexChar;
    HexRoundTrip(0);
    HexRoundTrip(high);
    HexRoundTrip(low);
  }

  // ---------------------------------------------------------------- the writer's side

  /** The characters with a short escape, and the letter that stands for them. */
  function ShortEscape(c: char): (letter: string)
    ensures |letter| <= 1
  {
    if c == '"' then "\""
    else if c == '\\' then "\\"
    else if c == BACKSPACE then "b"
    else if c == FORM_FEED then "f"
    else if c == '\n' then "n"
    else if c == '\r' then "r"
    else if c == '\t' then "t"
    else ""
  }

  /** How one character is written. */
  function EscapedChar(c: char, e: Escaping): (s: string) {
    if ShortEscape(c) != "" then "\\" + ShortEscape(c)
    else if e.raw || e.printable(c) then [c]
    else NonPrintableToString(c as int)
  }

  /** Seven characters have short escapes, printable ones and with raw all others stay, and the rest is written as four
      hexadecimal digits. */
  lemma EscapedAs(c: char, e: Escaping)
    ensures c == '"' ==> EscapedChar(c, e) == "\\\""
    ensures c == '\\' ==> EscapedChar(c, e) == "\\\\"
    ensures c as int == 8 ==> EscapedChar(c, e) == "\\b"
    ensures c as int == 9 ==> EscapedChar(c, e) == "\\t"
    ensures c as int == 10 ==> EscapedChar(c, e) == "\\n"
    ensures c as int == 12 ==> EscapedChar(c, e) == "\\f"
    ensures c as int == 13 ==> EscapedChar(c, e) == "\\r"
    ensures c !in "\"\\" && c as int !in {8, 9, 10, 12, 13} ==>
              var n := c as int;
              EscapedChar(c, e) ==
              if e.raw || e.printable(c) then [c]
              else "\\u" +
                   [UPPER[n / 4096 % 16], UPPER[n / 256 % 16], UPPER[n / 16 % 16], UPPER[n % 16]]
  {
    var n := c as int;
    UpperDigit(n / 4096 % 16);
    UpperDigit(n / 256 % 16);
    UpperDigit(n / 16 % 16);
    UpperDigit(n % 16);
    hide ToHexChar;
  }

  lemma UpperDigit(k: nat)
    requires k < 16
    ensures ToHexChar(k) == UPPER[k]
  {
    if k >= 10 {
      assert UPPER[k] == ('A' as int + (k - 10)) as char;
    } else {
      assert UPPER[k] == ('0' as int + k) as char;
    }
  }

  function Escaped(s: string, e: Escaping): (r: string) {
    if s == "" then "" else EscapedChar(s[0], e) + Escaped(s[1..], e)
  }

  lemma {:induction false} EscapedAppend(s: string, c: char, e: Escaping)
    ensures Escaped(s + [c], e) == Escaped(s, e) + EscapedChar(c, e)
  {
    if s == "" {
      assert s + [c] == [c];
    } else {
      assert (s + [c])[1..] == s[1..] + [c];
      EscapedAppend(s[1..], c, e);
    }
  }

  method AddEscChars(s: string, e: Escaping) returns (result: string)
    ensures result == Escaped(s, e)
  {
    result := "";
    for i := 0 to |s|
      invariant result == Escaped(s[..i], e)
    {
      var c := s[i];
      assert s[..i + 1] == s[..i] + [c];
      EscapedAppend(s[..i], c, e);
      if ShortEscape(c) != "" {
        result := result + "\\" + ShortEscape(c);
      } else if e.raw || e.printable(c) {
        result := result + [c];
      } else {
        result := result + NonPrintableToString(c as int);
      }
    }
    assert s[..|s|] == s;
  }

  // ---------------------------------------------------------------- the reader's side

  /** What stands for the text after a backslash, and how much of it: an unknown letter, and a numeric escape
      with too little text after it, stand for nothing. */
  function EscapeMeaning(t: string): (r: (string, nat))
    requires |t| > 0
    ensures 1 <= r.1 <= |t|
  {
    if t[0] == 't' then ("\t", 1)
    else if t[0] == 'b' then ([BACKSPACE], 1)
    else if t[0] == 'f' then ([FORM_FEED], 1)
    else if t[0] == 'n' then ("\n", 1)
    else if t[0] == 'r' then ("\r", 1)
    else if t[0] in "\\/\"" then ([t[0]], 1)
    else if t[0] == 'x' && |t| >= 3 then ([HexStrToChar(t[1..3])], 3)
    else if t[0] == 'u' && |t| >= 5 then ([UnicodeStrToChar(t[1..5])], 5)
    else ("", 1)
  }

  /** A backslash that is the last character stands for itself. */
  function Unescaped(s: string): (r: string)
    decreases |s|
  {
    if |s| < 2 then s
    else if s[0] == '\\' then
      var (meaning, used) := EscapeMeaning(s[1..]);
      meaning + Unescaped(s[1 + used..])
    else [s[0]] + Unescaped(s[1..])
  }

  /** The short escapes, a backslash and a quote included; a slash may be escaped too, and any other letter vanishes. */
  lemma ShortEscapes(t: string)
    requires t != ""
    ensures t[0] in "\"\\/" ==> EscapeMeaning(t) == ([t[0]], 1)
    ensures t[0] == 'b' ==> EscapeMeaning(t) == ([8 as char], 1)
    ensures t[0] == 't' ==> EscapeMeaning(t) == ([9 as char], 1)
    ensures t[0] == 'n' ==> EscapeMeaning(t) == ([10 as char], 1)
    ensures t[0] == 'f' ==> EscapeMeaning(t) == ([12 as char], 1)
    ensures t[0] == 'r' ==> EscapeMeaning(t) == ([13 as char], 1)
    ensures t[0] !in "\"\\/btnfrxu" || (t[0] == 'x' && |t| < 3) || (t[0] == 'u' && |t| < 5) ==>
              EscapeMeaning(t) == ("", 1)
  {
    hide HexStrToChar, UnicodeStrToChar;
  }

  const LOWER := "0123456789abcdef"
  const UPPER := "0123456789ABCDEF"

  lemma HexDigits(h: char, k: nat)
    requires k < 16 && (h == LOWER[k] || h == UPPER[k])
    ensures HexToNum(h) == k
  {
    if k >= 10 {
      assert LOWER[k] == ('a' as int + (k - 10)) as char && UPPER[k] == ('A' as int + (k - 10)) as char;
    } else {
      assert LOWER[k] == ('0' as int + k) as char == UPPER[k];
    }
  }

  /** The numeric escapes, with large or small digits: two for a byte, or four of which the last two count. */
  lemma NumericEscapes(t: string, a: nat, b: nat)
    requires a < 16 && b < 16
    ensures |t| >= 3 && t[0] == 'x' && t[1] in [LOWER[a], UPPER[a]] && t[2] in [LOWER[b], UPPER[b]] ==>
              EscapeMeaning(t) == ([(16 * a + b) as char], 3)
    ensures |t| >= 5 && t[0] == 'u' && t[3] in [LOWER[a], UPPER[a]] && t[4] in [LOWER[b], UPPER[b]] ==>
              EscapeMeaning(t) == ([(16 * a + b) as char], 5)
  {
    if |t| >= 3 && t[0] == 'x' && t[1] in [LOWER[a], UPPER[a]] && t[2] in [LOWER[b], UPPER[b]] {
      HexDigits(t[1], a);
      HexDigits(t[2], b);
    }
    if |t| >= 5 && t[0] == 'u' && t[3] in [LOWER[a], UPPER[a]] && t[4] in [LOWER[b], UPPER[b]] {
      HexDigits(t[3], a);
      HexDigits(t[4], b);
      LowDigits(t[1..5], a, b);
    }
    hide HexToNum, UnicodeStrToChar;
  }

  lemma LowSum(x: nat, y: nat, a: nat, b: nat)
    requires a < 16 && b < 16
    ensures (x * 0x1000 + y * 0x100 + a * 0x10 + b) % 256 == 16 * a + b
  {
    assert x * 0x1000 + y * 0x100 + a * 0x10 + b == 256 * (16 * x + y) + (16 * a + b);
  }

  lemma LowDigits(s: string, a: nat, b: nat)
    requires |s| == 4 && HexToNum(s[2]) == a < 16 && HexToNum(s[3]) == b < 16
    ensures UnicodeStrToChar(s) == (16 * a + b) as char
  {
    LowSum(HexToNum(s[0]), HexToNum(s[1]), a, b);
    hide HexToNum;
  }

  lemma PlainFirst(c: char, t: string)
    requires c != '\\'
    ensures Unescaped([c] + t) == [c] + Unescaped(t)
  {
    assert ([c] + t)[1..] == t;
    hide EscapeMeaning;
  }

  /** Text without a backslash stands for itself. */
  lemma {:induction false} PlainUnescaped(plain: string, t: string)
    requires forall i :: 0 <= i < |plain| ==> plain[i] != '\\'
    ensures Unescaped(plain + t) == plain + Unescaped(t)
    decreases |plain|
  {
    hide *;
    if plain == "" {
      assert plain + t == t;
    } else {
      var first, rest := plain[0], plain[1..];
      PlainUnescaped(rest, t);
      assert plain + t == [first] + (rest + t);
      PlainFirst(first, rest + t);
      Reassociate([first], rest, Unescaped(t));
      assert plain == [first] + rest;
    }
  }

  /** A backslash stands with the text behind it for what that escapes, and at the very end for itself. */
  lemma EscapeUnescaped(t: string)
    ensures Unescaped("\\" + t) ==
            if t == "" then "\\" else EscapeMeaning(t).0 + Unescaped(t[EscapeMeaning(t).1..])
  {
    var s := "\\" + t;
    if t != "" {
      UnescapedAt(s, 0);
      hide EscapeMeaning, Unescaped;
      assert s[0..] == s && s[1..] == t;
      assert s[1 + EscapeMeaning(t).1..] == t[EscapeMeaning(t).1..];
    }
  }

  lemma OneUnescaped(c: char, e: Escaping, t: string)
    requires c as int < 256
    ensures Unescaped(EscapedChar(c, e) + t) == [c] + Unescaped(t)
  {
    if ShortEscape(c) != "" {
      ShortUnescaped(c, t);
    } else if e.raw || e.printable(c) {
      assert ([c] + t)[1..] == t;
    } else {
      UnicodeUnescaped(c, t);
    }
  }

  lemma ShortUnescaped(c: char, t: string)
    requires ShortEscape(c) != ""
    ensures Unescaped("\\" + ShortEscape(c) + t) == [c] + Unescaped(t)
  {
    var s := "\\" + ShortEscape(c) + t;
    assert s[1..] == ShortEscape(c) + t;
    assert s[2..] == t;
    assert EscapeMeaning(s[1..]) == ([c], 1);
  }

  lemma UnicodeUnescaped(c: char, t: string)
    requires c as int < 256
    ensures Unescaped(NonPrintableToString(c as int) + t) == [c] + Unescaped(t)
  {
    var w := NonPrintableToString(c as int);
    UnicodeRoundTrip(c);
    assert w[0] == '\\' && w[1] == 'u';
    hide NonPrintableToString, UnicodeStrToChar;
    var s := w + t;
    assert s[1..][1..5] == w[2..];
    assert s[6..] == t;
    assert EscapeMeaning(s[1..]) == ([c], 5);
  }

  /** Unescaping undoes escaping, whatever counts as printable. */
  lemma {:induction false} EscapeRoundTrip(s: string, e: Escaping)
    requires Bytes(s)
    ensures Unescaped(Escaped(s, e)) == s
  {
    if s != "" {
      OneUnescaped(s[0], e, Escaped(s[1..], e));
      EscapeRoundTrip(s[1..], e);
    }
  }

  /** One escape in place: what it stands for is appended, and i is left on its last character. */
  method AppendEscCharAndIncrIter(s: string, result: string, i: nat) returns (result': string, i': nat)
    requires i < |s|
    ensures result' == result + EscapeMeaning(s[i..]).0
    ensures i' + 1 == i + EscapeMeaning(s[i..]).1
  {
    result', i' := result, i;
    var c2 := s[i];
    match c2
    case 't' => result' := result' + "\t";
    case 'n' => result' := result' + "\n";
    case 'r' => result' := result' + "\r";
    case '\\' => result' := result' + "\\";
    case '/' => result' := result' + "/";
    case '"' => result' := result' + "\"";
    case 'x' =>
      if |s| - i >= 3 {
        assert s[i..][1..3] == s[i + 1..i + 3];
        result' := result' + [HexStrToChar(s[i + 1..i + 3])];
        i' := i + 2;
      }
    case 'u' =>
      if |s| - i >= 5 {
        assert s[i..][1..5] == s[i + 1..i + 5];
        result' := result' + [UnicodeStrToChar(s[i + 1..i + 5])];
        i' := i + 4;
      }
    case _ =>
      if c2 == 'b' {
        result' := result' + [BACKSPACE];
      } else if c2 == 'f' {
        result' := result' + [FORM_FEED];
      }
  }

  lemma UnescapedAt(s: string, i: nat)
    requires i < |s| - 1
    ensures s[i] == '\\' ==>
              i + 1 + EscapeMeaning(s[i + 1..]).1 <= |s| &&
              Unescaped(s[i..]) == EscapeMeaning(s[i + 1..]).0 + Unescaped(s[i + 1 + EscapeMeaning(s[i + 1..]).1..])
    ensures s[i] != '\\' ==> Unescaped(s[i..]) == [s[i]] + Unescaped(s[i + 1..])
  {
    hide EscapeMeaning;
    var t := s[i..];
    assert |t| >= 2 && t[0] == s[i] && t[1..] == s[i + 1..];
    if s[i] == '\\' {
      var used := EscapeMeaning(t[1..]).1;
      assert t[1 + used..] == s[i + 1 + used..];
    }
  }

  /** The result so far and the stretch from substrStart on stand for the first i characters of s. */
  predicate Scanned(s: string, result: string, substrStart: nat, i: nat) {
    substrStart <= i <= |s| && Unescaped(s) == result + s[substrStart..i] + Unescaped(s[i..])
  }

  lemma ScanEscape(s: string, result: string, substrStart: nat, i: nat)
    requires Scanned(s, result, substrStart, i) && i < |s| - 1 && s[i] == '\\'
    ensures var (meaning, used) := EscapeMeaning(s[i + 1..]);
            Scanned(s, result + s[substrStart..i] + meaning, i + 1 + used, i + 1 + used)
  {
    var (meaning, used) := EscapeMeaning(s[i + 1..]);
    var done, next := result + s[substrStart..i], i + 1 + used;
    UnescapedAt(s, i);
    hide EscapeMeaning, Unescaped;
    Reassociate(done, meaning, Unescaped(s[next..]));
    assert done + meaning + s[next..next] == done + meaning;
  }

  lemma ScanPlain(s: string, result: string, substrStart: nat, i: nat)
    requires Scanned(s, result, substrStart, i) && i < |s| - 1 && s[i] != '\\'
    ensures Scanned(s, result, substrStart, i + 1)
  {
    UnescapedAt(s, i);
    hide EscapeMeaning, Unescaped;
    Reassociate(result + s[substrStart..i], [s[i]], Unescaped(s[i + 1..]));
    Extend(result, s, substrStart, i);
  }

  lemma JoinStretch(r: string, s: string, from: nat, i: nat)
    requires from <= i <= |s|
    ensures r + s[from..i] + s[i..] == r + s[from..]
  {
    assert s[from..i] + s[i..] == s[from..];
    Reassociate(r, s[from..i], s[i..]);
  }

  lemma ScanFinishes(s: string, result: string, substrStart: nat, i: nat)
    requires Scanned(s, result, substrStart, i) && |s| - 1 <= i
    ensures Unescaped(s) == result + s[substrStart..]
  {
    hide EscapeMeaning, Unescaped;
    ShortText(s[i..]);
    JoinStretch(result, s, substrStart, i);
  }

  lemma ScanInside(s: string, result: string, substrStart: nat, i: nat)
    requires Scanned(s, result, substrStart, i)
    ensures substrStart <= i <= |s|
  {
  }

  lemma ShortText(t: string)
    requires |t| < 2
    ensures Unescaped(t) == t
  {
  }

  lemma ScanBegins(s: string)
    ensures Scanned(s, "", 0, 0)
  {
    assert s[0..] == s;
    hide Unescaped;
  }

  /** The plain stretch before a backslash, then what the escape stands for. */
  method AppendStretchAndEsc(s: string, result: string, substrStart: nat, i: nat) returns (result': string, i': nat)
    requires substrStart <= i < |s| - 1
    ensures result' == result + s[substrStart..i] + EscapeMeaning(s[i + 1..]).0
    ensures i' == i + EscapeMeaning(s[i + 1..]).1
  {
    hide *;
    result' := result + s[substrStart..i];
    result', i' := AppendEscCharAndIncrIter(s, result', i + 1);
  }

  /** The reader's loop: plain stretches are appended whole, escapes one by one. */
  method SubstituteEscChars(s: string) returns (result: string)
    ensures result == Unescaped(s)
  {
    if |s| < 2 {
      return s;
    }
    hide *;
    ScanBegins(s);
    result := "";
    var substrStart, i := 0, 0;
    while i < |s| - 1
      invariant 0 <= substrStart <= i <= |s|
      invariant Scanned(s, result, substrStart, i)
      decreases |s| - i
    {
      if s[i] == '\\' {
        ScanEscape(s, result, substrStart, i);
        result, i := AppendStretchAndEsc(s, result, substrStart, i);
        substrStart := i + 1;
      } else {
        ScanPlain(s, result, substrStart, i);
      }
      i := i + 1;
      ScanInside(s, result, substrStart, i);
    }
    ScanFinishes(s, result, substrStart, i);
    result := result + s[substrStart..];
  }

  lemma Reassociate(a: string, b: string, c: string)
    ensures a + (b + c) == (a + b) + c
  {
  }

  lemma Extend(r: string, s: string, from: nat, i: nat)
    requires from <= i < |s|
    ensures r + s[from..i] + [s[i]] == r + s[from..i + 1]
  {
  }

  // ---------------------------------------------------------------- the closing quote

  /** Length of the text before the closing quote, a backslash taking the next character along; -1 if there is
      no closing quote. */
  function QuotedLength(s: string): (n: int)
    ensures -1 <= n < |s| || n == -1
    decreases |s|
  {
    if s == "" then -1
    else if s[0] == '"' then 0
    else
      var step := if s[0] == '\\' then 2 else 1;
      if |s| < step then -1
      else
        var n := QuotedLength(s[step..]);
        if n < 0 then -1 else step + n
  }

  lemma OneScanned(c: char, e: Escaping, t: string)
    requires c as int < 256 && QuotedLength(t) >= 0
    ensures QuotedLength(EscapedChar(c, e) + t) == |EscapedChar(c, e)| + QuotedLength(t)
  {
    var w := EscapedChar(c, e);
    var s := w + t;
    if ShortEscape(c) != "" {
      assert s[2..] == t;
    } else if e.raw || e.printable(c) {
      assert s[1..] == t;
    } else {
      var n := c as int;
      HexRoundTrip(n / 0x1000 % 0x10);
      HexRoundTrip(n / 0x100 % 0x10);
      HexRoundTrip(n / 0x10 % 0x10);
      HexRoundTrip(n % 0x10);
      PlainScanned(s[5..]);
      PlainScanned(s[4..]);
      PlainScanned(s[3..]);
      PlainScanned(s[2..]);
      assert s[2..][1..] == s[3..] && s[3..][1..] == s[4..] && s[4..][1..] == s[5..] && s[5..][1..] == t;
    }
  }

  lemma PlainScanned(s: string)
    requires s != "" && s[0] != '"' && s[0] != '\\' && QuotedLength(s[1..]) >= 0
    ensures QuotedLength(s) == 1 + QuotedLength(s[1..])
  {
  }

  /** No quote inside an escaped string closes it: the next one does. */
  lemma {:induction false} NoQuoteInside(s: string, e: Escaping, tail: string)
    requires Bytes(s) && tail != "" && tail[0] == '"'
    ensures QuotedLength(Escaped(s, e) + tail) == |Escaped(s, e)|
  {
    hide EscapedChar;
    if s == "" {
      assert Escaped(s, e) + tail == tail;
    } else {
      NoQuoteInside(s[1..], e, tail);
      OneScanned(s[0], e, Escaped(s[1..], e) + tail);
      Reassociate(EscapedChar(s[0], e), Escaped(s[1..], e), tail);
    }
  }
}
