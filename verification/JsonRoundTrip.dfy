/**
 The reader reads back what the generator wrote: a printed value is one of its spellings, and that spelling stands for
 the value.
 */
module JsonRoundTrip {
  import opened JsonText
  import opened JsonWriter
  import opened JsonReader
  import opened JsonTokens
  import opened JsonSpelling
  import opened JsonActions

  /** The strings hold bytes, the integers fit their 64-bit types, and real numbers are written as such. */
  predicate Storable(v: Value, st: Style)
    decreases v
  {
    match v
    case Obj(members) => forall k :: 0 <= k < |members| ==> Bytes(members[k].name) && Storable(members[k].value, st)
    case Arr(elements) => forall k :: 0 <= k < |elements| ==> Storable(elements[k], st)
    case Str(text) => Bytes(text)
    case Int(i) => -TWO63 <= i < TWO63
    case UInt(u) => 0 <= u < TWO64
    case Real(digits) => IsReal(st.realText(digits))
    case _ => true
  }

  lemma ChildStorable(v: Value, k: nat, st: Style)
    requires Compound(v) && k < Size(v) && Storable(v, st)
    ensures Storable(Child(v, k), st)
  {
  }

  // ---------------------------------------------------------------- what a value comes back as

  /** The value as it is read back: small unsigned integers have become signed, and real numbers are as written. */
  function Normal(v: Value, style: Style): (w: Value)
    decreases v, 1, 0
  {
    if Compound(v) then NormalUpTo(v, Size(v), style)
    else if v.UInt? && v.u < TWO63 then Int(v.u)
    else if v.Real? then Real(style.realText(v.digits))
    else v
  }

  /** Its first k children. */
  function NormalUpTo(v: Value, k: nat, style: Style): (w: Value)
    requires Compound(v) && k <= Size(v)
    ensures Compound(w) && Size(w) == k && w.Obj? == v.Obj?
    decreases v, 0, k
  {
    if k == 0 then (if v.Obj? then Obj([]) else Arr([]))
    else AddChild(NormalUpTo(v, k - 1, style), NameAt(v, k - 1), Normal(Child(v, k - 1), style))
  }

  /** Number, order and names of the children stay. */
  lemma {:induction false} NormalChildren(v: Value, n: nat, k: nat, style: Style)
    requires Compound(v) && k < n <= Size(v)
    ensures Child(NormalUpTo(v, n, style), k) == Normal(Child(v, k), style)
    ensures NameAt(NormalUpTo(v, n, style), k) == NameAt(v, k)
    decreases n
  {
    if k < n - 1 {
      AddChildKeeps(NormalUpTo(v, n - 1, style), NameAt(v, n - 1), Normal(Child(v, n - 1), style), k);
      NormalChildren(v, n - 1, k, style);
    }
  }

  /** No small unsigned integer anywhere, and every real number is written as it was read. */
  predicate Plain(v: Value, style: Style)
    decreases v
  {
    if Compound(v) then forall k :: 0 <= k < Size(v) ==> Plain(Child(v, k), style)
    else (v.UInt? ==> v.u >= TWO63) && (v.Real? ==> style.realText(v.digits) == v.digits)
  }

  /** The value is read back unchanged exactly if it has no unsigned integer that fits the signed type and no real
      number that is written in another way. */
  lemma {:induction false} NormalIsSame(v: Value, style: Style)
    ensures Normal(v, style) == v <==> Plain(v, style)
    decreases v
  {
    if Compound(v) {
      var w := Normal(v, style);
      forall k | 0 <= k < Size(v)
        ensures Child(w, k) == Normal(Child(v, k), style) && NameAt(w, k) == NameAt(v, k)
        ensures Normal(Child(v, k), style) == Child(v, k) <==> Plain(Child(v, k), style)
      {
        NormalChildren(v, Size(v), k, style);
        NormalIsSame(Child(v, k), style);
      }
      if Plain(v, style) {
        SameChildren(v, w);
      }
    }
  }

  lemma SameChildren(v: Value, w: Value)
    requires Compound(v) && Compound(w) && v.Obj? == w.Obj? && Size(v) == Size(w)
    requires forall k :: 0 <= k < Size(v) ==> Child(w, k) == Child(v, k) && NameAt(w, k) == NameAt(v, k)
    ensures v == w
  {
    if v.Obj? {
      forall k | 0 <= k < |v.members| ensures v.members[k] == w.members[k] {
        assert Child(w, k) == Child(v, k) && NameAt(w, k) == NameAt(v, k);
      }
    } else {
      forall k | 0 <= k < |v.elements| ensures v.elements[k] == w.elements[k] {
        assert Child(w, k) == Child(v, k);
      }
    }
  }

  // ---------------------------------------------------------------- scalars as tokens

  /** The digits of a number, the first one not a zero unless it is the only one. */
  lemma {:induction false} DigitsValue(n: nat)
    ensures Digits(n) != "" && Decimals(Digits(n)) && DecimalValue(Digits(n)) == n
    ensures Digits(n)[0] == '0' ==> n == 0 && Digits(n) == "0"
  {
    if n >= 10 {
      DigitsValue(n / 10);
      OneDigitMore(Digits(n / 10), Digit(n % 10));
    } else {
      assert Digits(n)[1..] == "";
    }
  }

  function IntegerToken(i: int): Token {
    if i < 0 then Integer("-", Digits(-i)) else Integer("", Digits(i))
  }

  /** Every 64-bit integer is written as a token that stands for it: a minus sign if it is negative, and its decimal
      digits without leading zeros. */
  lemma NumberSpelled(i: int)
    requires -TWO63 <= i < TWO64
    ensures Proper(IntegerToken(i)) && TokenText(IntegerToken(i)) == Decimal(i)
    ensures TokenValue(IntegerToken(i)) == if i < TWO63 then Int(i) else UInt(i)
    ensures var digits := if i < 0 then Decimal(i)[1..] else Decimal(i);
            (i < 0 ==> Decimal(i)[0] == '-') && Decimals(digits) && (digits[0] == '0' ==> i == 0 && digits == "0")
  {
    DigitsValue(if i < 0 then -i else i);
    hide Digits, Decimals, DecimalValue;
  }

  /** What is between the quotes of a written string closes with the quote behind it and stands for the string. */
  lemma StringSpelled(s: string, e: Escaping)
    requires Bytes(s)
    ensures Closed(Escaped(s, e)) && Unescaped(Escaped(s, e)) == s
  {
    var w := Escaped(s, e);
    NoQuoteInside(s, e, "\"");
    EscapeRoundTrip(s, e);
    hide QuotedLength, Escaped, Unescaped;
    ScanClosed(w + "\"");
    assert (w + "\"")[..|w|] == w;
  }

  /** The parts of a real number. */
  ghost function RealToken(s: string): (t: Token)
    requires IsReal(s)
    ensures t.Fractional? && Proper(t) && TokenText(t) == s
  {
    RealIsToken(s);
    var t: Token :| t.Fractional? && Proper(t) && TokenText(t) == s;
    t
  }

  lemma RealIsToken(s: string)
    requires IsReal(s)
    ensures exists t: Token :: t.Fractional? && Proper(t) && TokenText(t) == s
  {
    WholeIsReal(s);
    hide *;
    var t := RealSplit(s);
    assert s[..|s|] == s;
  }

  ghost function TokenOf(v: Value, st: Style): (t: Token)
    requires !Compound(v) && Storable(v, st)
  {
    match v
    case Str(text) => Quotation(Escaped(text, st.escaping))
    case Bool(b) => if b then True else False
    case Int(i) => IntegerToken(i)
    case UInt(u) => IntegerToken(u)
    case Real(digits) => RealToken(st.realText(digits))
    case _ => Nothing
  }

  lemma ScalarSpelled(v: Value, st: Style)
    requires !Compound(v) && Storable(v, st)
    ensures var t := TokenOf(v, st);
            Proper(t) && TokenText(t) == Scalar(v, st) && TokenValue(t) == Normal(v, st)
  {
    match v
    case Str(text) =>
      StringSpelled(text, st.escaping);
      hide Closed, Escaped, Unescaped;
    case Int(i) =>
      NumberSpelled(i);
      hide IntegerToken, Decimal, TokenValue, Proper;
    case UInt(u) =>
      NumberSpelled(u);
      hide IntegerToken, Decimal, TokenValue, Proper;
    case _ => hide IsReal, FractionText;
  }

  // ---------------------------------------------------------------- the layout as white space

  lemma {:induction false} IndentationWhite(level: nat)
    ensures White(Indentation(level))
  {
    if level > 0 {
      IndentationWhite(level - 1);
    }
  }

  lemma LayoutWhite(level: nat, st: Style)
    ensures White(LineEnd(st)) && White(Gap(st)) && White(Margin(level, st)) && White(LineEnd(st) + Margin(level, st))
  {
    IndentationWhite(level);
  }

  /** The printed value as a spelling, with this white space before it. */
  ghost function AsPrinted(v: Value, before: string, level: nat, st: Style): (t: Spelled)
    requires Storable(v, st)
    decreases v, 1, 0
  {
    if Compound(v) then Node(before, v.Obj?, ItemsAsPrinted(v, 0, level + 1, st), LineEnd(st) + Margin(level, st))
    else Leaf(before, TokenOf(v, st))
  }

  ghost function ItemsAsPrinted(v: Value, k: nat, level: nat, st: Style): (items: seq<Item>)
    requires Compound(v) && k <= Size(v) && Storable(v, st)
    decreases v, 0, Size(v) - k
  {
    if k == Size(v) then []
    else
      ChildStorable(v, k, st);
      var line := LineEnd(st) + Margin(level, st);
      var child := AsPrinted(Child(v, k), if v.Obj? then Gap(st) else line, level, st);
      [if v.Obj? then Item("", line, Escaped(v.members[k].name, st.escaping), Gap(st), child)
       else Item("", "", "", "", child)] +
      ItemsAsPrinted(v, k + 1, level, st)
  }

  lemma PrintedIsSpelling(v: Value, before: string, level: nat, st: Style)
    requires Storable(v, st) && White(before)
    ensures Spelling(AsPrinted(v, before, level, st))
    decreases v, 1, 0
  {
    LayoutWhite(level, st);
    if Compound(v) {
      ItemsAreSpelling(v, 0, level + 1, st);
      hide LineEnd, Margin, ItemsAsPrinted, SpellingItems, White;
    } else {
      ScalarSpelled(v, st);
      hide TokenOf, Proper;
    }
  }

  lemma ItemsAreSpelling(v: Value, k: nat, level: nat, st: Style)
    requires Compound(v) && k <= Size(v) && Storable(v, st)
    ensures SpellingItems(v.Obj?, ItemsAsPrinted(v, k, level, st))
    decreases v, 0, Size(v) - k
  {
    if k < Size(v) {
      ChildStorable(v, k, st);
      LayoutWhite(level, st);
      var child, line := Child(v, k), LineEnd(st) + Margin(level, st);
      PrintedIsSpelling(child, if v.Obj? then Gap(st) else line, level, st);
      ItemsAreSpelling(v, k + 1, level, st);
      if v.Obj? {
        assert Bytes(v.members[k].name);
        StringSpelled(v.members[k].name, st.escaping);
      }
      var items := ItemsAsPrinted(v, k, level, st);
      assert items[1..] == ItemsAsPrinted(v, k + 1, level, st);
      hide LineEnd, Margin, Gap, AsPrinted, Spelling, Closed, Escaped, ItemsAsPrinted;
    }
  }

  /** The printed text is the text of that spelling. */
  lemma PrintedText(v: Value, before: string, level: nat, st: Style)
    requires Storable(v, st)
    ensures Text(AsPrinted(v, before, level, st)) == before + Printed(v, level, st)
    decreases v, 1, 0
  {
    if Compound(v) {
      if Size(v) > 0 {
        ItemsPrinted(v, 0, level + 1, st);
      }
      hide LineEnd, Margin, ItemsAsPrinted, PrintedFrom;
      NodePrinted(v, before, level, st);
    } else {
      ScalarSpelled(v, st);
      hide TokenOf, TokenText, Scalar;
    }
  }

  lemma NodePrinted(v: Value, before: string, level: nat, st: Style)
    requires Compound(v) && Storable(v, st)
    requires Size(v) > 0 ==>
               ItemsText(v.Obj?, ItemsAsPrinted(v, 0, level + 1, st)) + LineEnd(st) ==
               LineEnd(st) + PrintedFrom(v, 0, level + 1, st)
    ensures Text(AsPrinted(v, before, level, st)) == before + Printed(v, level, st)
  {
    var t, items := AsPrinted(v, before, level, st), ItemsAsPrinted(v, 0, level + 1, st);
    var body, printed := ItemsText(v.Obj?, items), PrintedFrom(v, 0, level + 1, st);
    NodeText(t, "", LineEnd(st) + Margin(level, st) + (Closing(v) + ""));
    assert Size(v) == 0 ==> body == "" && printed == "";
    hide LineEnd, Margin, ItemsAsPrinted, PrintedFrom, ItemsText, Text;
    CompoundShape(before, Opening(v), body, printed, LineEnd(st), Margin(level, st), Closing(v));
    assert Text(t) + "" == Text(t);
  }

  lemma CompoundShape(before: string, open: string, body: string, printed: string, end: string, margin: string,
                      close: string)
    requires body + end == end + printed
    ensures before + (open + (body + (end + margin + (close + "")))) == before + (open + end + printed + margin + close)
  {
    assert body + (end + margin + (close + "")) == (body + end) + margin + close;
  }

  /** The items from k on and a line end, against a line end and the printed children. */
  lemma ItemsPrinted(v: Value, k: nat, level: nat, st: Style)
    requires Compound(v) && k < Size(v) && Storable(v, st)
    ensures ItemsText(v.Obj?, ItemsAsPrinted(v, k, level, st)) + LineEnd(st) ==
            LineEnd(st) + PrintedFrom(v, k, level, st)
    decreases v, 0, Size(v) - k
  {
    hide *;
    var more, line := ItemsAsPrinted(v, k + 1, level, st), LineEnd(st) + Margin(level, st);
    var item, comma := Label(v, k, st) + Printed(Child(v, k), level, st), if k + 1 < Size(v) then "," else "";
    ChildStorable(v, k, st);
    PrintedText(Child(v, k), if v.Obj? then Gap(st) else line, level, st);
    ItemPrintedText(v, k, level, st);
    if k + 1 < Size(v) {
      ItemsPrinted(v, k + 1, level, st);
      MoreItemsText(v, k + 1, level, st);
      Reassociate(comma, ItemsText(v.Obj?, more), LineEnd(st));
    } else {
      NoneAsPrinted(v, level, st);
    }
    PrintedNext(v, k, level, st);
    ItemShape(LineEnd(st), Margin(level, st), item, MoreText(v.Obj?, more), PrintedFrom(v, k + 1, level, st), comma);
  }

  lemma FirstAsPrinted(v: Value, k: nat, level: nat, st: Style)
    requires Compound(v) && k < Size(v) && Storable(v, st) && Storable(Child(v, k), st)
    ensures var items, line := ItemsAsPrinted(v, k, level, st), LineEnd(st) + Margin(level, st);
            var child := AsPrinted(Child(v, k), if v.Obj? then Gap(st) else line, level, st);
            items != [] && items[1..] == ItemsAsPrinted(v, k + 1, level, st) &&
            items[0] == if v.Obj? then Item("", line, Escaped(v.members[k].name, st.escaping), Gap(st), child)
                        else Item("", "", "", "", child)
  {
    hide LineEnd, Margin, Gap, AsPrinted, Escaped;
  }

  lemma LabelIs(v: Value, k: nat, st: Style)
    requires v.Obj? && k < Size(v)
    ensures Label(v, k, st) == "\"" + Escaped(v.members[k].name, st.escaping) + "\"" + Gap(st) + ":" + Gap(st)
  {
    hide Gap, Escaped;
  }

  lemma ItemsTextIs(isObj: bool, items: seq<Item>)
    requires items != []
    ensures ItemsText(isObj, items) == JsonSpelling.ItemText(isObj, items[0]) + MoreText(isObj, items[1..])
  {
    hide JsonSpelling.ItemText, MoreText;
  }

  lemma MemberShape(line: string, q: string, gap: string, value: string, text: string)
    requires text == gap + value
    ensures line + (q + (gap + (":" + (text + "")))) == line + (q + gap + ":" + gap + value)
  {
  }

  lemma ItemPrintedText(v: Value, k: nat, level: nat, st: Style)
    requires Compound(v) && k < Size(v) && Storable(v, st) && Storable(Child(v, k), st)
    requires var before := if v.Obj? then Gap(st) else LineEnd(st) + Margin(level, st);
             Text(AsPrinted(Child(v, k), before, level, st)) == before + Printed(Child(v, k), level, st)
    ensures ItemsText(v.Obj?, ItemsAsPrinted(v, k, level, st)) ==
            LineEnd(st) + Margin(level, st) + (Label(v, k, st) + Printed(Child(v, k), level, st)) +
            MoreText(v.Obj?, ItemsAsPrinted(v, k + 1, level, st))
  {
    var items := ItemsAsPrinted(v, k, level, st);
    FirstAsPrinted(v, k, level, st);
    if v.Obj? {
      MemberText(items[0], "");
      LabelIs(v, k, st);
      hide *;
      var line, name := LineEnd(st) + Margin(level, st), Escaped(v.members[k].name, st.escaping);
      MemberShape(line, "\"" + name + "\"", Gap(st), Printed(Child(v, k), level, st), Text(items[0].value));
      assert JsonSpelling.ItemText(true, items[0]) + "" == JsonSpelling.ItemText(true, items[0]);
      ItemsTextIs(true, items);
    } else {
      ItemsTextIs(false, items);
      NoLabel(v, k, st);
      assert JsonSpelling.ItemText(false, items[0]) == Text(items[0].value);
      hide *;
      assert "" + Printed(Child(v, k), level, st) == Printed(Child(v, k), level, st);
    }
  }

  lemma MoreItemsText(v: Value, k: nat, level: nat, st: Style)
    requires Compound(v) && k < Size(v) && Storable(v, st)
    ensures MoreText(v.Obj?, ItemsAsPrinted(v, k, level, st)) ==
            "," + ItemsText(v.Obj?, ItemsAsPrinted(v, k, level, st))
  {
    var items := ItemsAsPrinted(v, k, level, st);
    assert items[0].beforeComma == "";
    hide ItemsAsPrinted, JsonSpelling.ItemText;
  }

  lemma NoneAsPrinted(v: Value, level: nat, st: Style)
    requires Compound(v) && Storable(v, st)
    ensures MoreText(v.Obj?, ItemsAsPrinted(v, Size(v), level, st)) == "" && PrintedFrom(v, Size(v), level, st) == ""
  {
  }

  lemma PrintedNext(v: Value, k: nat, level: nat, st: Style)
    requires Compound(v) && k < Size(v)
    ensures PrintedFrom(v, k, level, st) ==
            Margin(level, st) + (Label(v, k, st) + Printed(Child(v, k), level, st)) +
            ((if k + 1 < Size(v) then "," else "") + LineEnd(st)) + PrintedFrom(v, k + 1, level, st)
  {
    hide Margin, Label, LineEnd;
  }

  lemma ItemShape(end: string, margin: string, item: string, more: string, rest: string, comma: string)
    requires more + end == comma + (end + rest)
    ensures (end + margin + item + more) + end == end + (margin + item + (comma + end) + rest)
  {
    assert (end + margin + item + more) + end == end + margin + item + (more + end);
  }

  // ---------------------------------------------------------------- what that spelling stands for

  lemma PrintedValue(v: Value, before: string, level: nat, st: Style)
    requires Storable(v, st) && White(before)
    ensures Spelling(AsPrinted(v, before, level, st)) && ValueOf(AsPrinted(v, before, level, st)) == Normal(v, st)
    decreases v, 1, 0
  {
    PrintedIsSpelling(v, before, level, st);
    if Compound(v) {
      ItemsAreSpelling(v, 0, level + 1, st);
      ItemsFill(v, 0, level + 1, st);
      hide ItemsAsPrinted, Filled, NormalUpTo;
      assert Empty(v.Obj?) == NormalUpTo(v, 0, st) by { NoChildren(v, st); }
    } else {
      ScalarSpelled(v, st);
      hide TokenOf, TokenValue, Normal;
    }
  }

  lemma NoChildren(v: Value, st: Style)
    requires Compound(v)
    ensures NormalUpTo(v, 0, st) == Empty(v.Obj?)
  {
  }

  lemma ItemsFill(v: Value, k: nat, level: nat, st: Style)
    requires Compound(v) && k <= Size(v) && Storable(v, st)
    ensures SpellingItems(v.Obj?, ItemsAsPrinted(v, k, level, st))
    ensures Filled(NormalUpTo(v, k, st), v.Obj?, ItemsAsPrinted(v, k, level, st)) == Normal(v, st)
    decreases v, 0, Size(v) - k
  {
    ItemsAreSpelling(v, k, level, st);
    if k < Size(v) {
      var items := ItemsAsPrinted(v, k, level, st);
      var before := if v.Obj? then Gap(st) else LineEnd(st) + Margin(level, st);
      ChildStorable(v, k, st);
      LayoutWhite(level, st);
      PrintedValue(Child(v, k), before, level, st);
      ItemsFill(v, k + 1, level, st);
      ItemValue(v, k, level, st);
      hide *;
      FilledNext(NormalUpTo(v, k, st), v.Obj?, items);
    }
  }

  /** The first of the items adds the next child. */
  lemma ItemValue(v: Value, k: nat, level: nat, st: Style)
    requires Compound(v) && k < Size(v) && Storable(v, st) && Storable(Child(v, k), st)
    requires var before := if v.Obj? then Gap(st) else LineEnd(st) + Margin(level, st);
             Spelling(AsPrinted(Child(v, k), before, level, st)) &&
             ValueOf(AsPrinted(Child(v, k), before, level, st)) == Normal(Child(v, k), st)
    ensures var items := ItemsAsPrinted(v, k, level, st);
            items != [] && items[1..] == ItemsAsPrinted(v, k + 1, level, st) && Spelling(items[0].value) &&
            NormalUpTo(v, k + 1, st) ==
            AddChild(NormalUpTo(v, k, st), Unescaped(items[0].name), ValueOf(items[0].value))
  {
    FirstAsPrinted(v, k, level, st);
    if v.Obj? {
      assert Bytes(v.members[k].name);
      StringSpelled(v.members[k].name, st.escaping);
    }
    hide ItemsAsPrinted, AsPrinted, ValueOf, Normal, Spelling, Unescaped, Escaped, Closed, LineEnd, Margin, Gap;
  }

  // ---------------------------------------------------------------- read back

  /** A written value is read back wherever it stands, white space before it and, if it is a number, anything that does
      not continue a number behind it; the events read are those of a spelling that stands for the value. */
  lemma TextReadBack(v: Value, st: Style, before: string, tail: string)
    requires Storable(v, st) && White(before) && (v.Int? || v.UInt? || v.Real? ==> Ends(tail))
    ensures var t := AsPrinted(v, before, 0, st);
            Spelling(t) && ParseJson(before + (Printed(v, 0, st) + tail)) == Match(Events(t), tail) &&
            ValueOf(t) == Normal(v, st)
  {
    var t := AsPrinted(v, before, 0, st);
    if v.Int? || v.UInt? || v.Real? {
      assert t == Leaf(before, TokenOf(v, st));
      ScalarSpelled(v, st);
      EndsComplete(t.token, tail);
    } else if !Compound(v) {
      NotNumeric(v, before, st, tail);
    }
    hide *;
    PrintedText(v, before, 0, st);
    PrintedValue(v, before, 0, st);
    ReadsText(t, tail);
    Reassociate(before, Printed(v, 0, st), tail);
  }

  lemma NotNumeric(v: Value, before: string, st: Style, tail: string)
    requires Storable(v, st) && !Compound(v) && !v.Int? && !v.UInt? && !v.Real?
    ensures AsPrinted(v, before, 0, st) == Leaf(before, TokenOf(v, st)) && Complete(TokenOf(v, st), tail)
  {
  }
}
