/**
 JSON values and the text the generator writes for them.
 */
module JsonWriter {
  import opened JsonText

  /** Objects keep their members in order, duplicates included. Integers are signed or unsigned 64-bit. A real number
      is the text it was read from. */
  datatype Value = Obj(members: seq<Member>) | Arr(elements: seq<Value>) | Str(text: string)
                 | Bool(b: bool) | Int(i: int) | UInt(u: int) | Real(digits: string) | Null
  datatype Member = Member(name: string, value: Value)

  const TWO63 := 0x8000_0000_0000_0000
  const TWO64 := 0x1_0000_0000_0000_0000

  predicate Compound(v: Value) {
    v.Obj? || v.Arr?
  }

  function Size(v: Value): nat
    requires Compound(v)
  {
    if v.Obj? then |v.members| else |v.elements|
  }

  function Child(v: Value, k: nat): (c: Value)
    requires Compound(v) && k < Size(v)
    ensures c < v
  {
    if v.Obj? then
      assert v.members[k] < v;
      v.members[k].value
    else v.elements[k]
  }

  // ---------------------------------------------------------------- what is written

  /** realText is how the output stream writes a number that was read from a text, trailing zeros removed or not. */
  datatype Style = Style(pretty: bool, escaping: Escaping, realText: string -> string)

  function Digit(d: int): (c: char)
    requires 0 <= d < 10
    ensures '0' <= c <= '9'
  {
    ('0' as int + d) as char
  }

  function Digits(n: nat): (s: string)
    ensures s != "" && forall i :: 0 <= i < |s| ==> '0' <= s[i] <= '9'
  {
    if n < 10 then [Digit(n)] else Digits(n / 10) + [Digit(n % 10)]
  }

  function Decimal(i: int): (s: string) {
    if i < 0 then "-" + Digits(-i) else Digits(i)
  }

  function Quoted(s: string, e: Escaping): string {
    "\"" + Escaped(s, e) + "\""
  }

  function Indentation(level: nat): (s: string) {
    if level == 0 then "" else Indentation(level - 1) + "    "
  }

  function Margin(level: nat, st: Style): string {
    if st.pretty then Indentation(level) else ""
  }

  function LineEnd(st: Style): string {
    if st.pretty then "\n" else ""
  }

  function Gap(st: Style): string {
    if st.pretty then " " else ""
  }

  /** What precedes child k: the name of a member, nothing for an element. */
  function Label(v: Value, k: nat, st: Style): string
    requires Compound(v) && k < Size(v)
  {
    if v.Obj? then Quoted(v.members[k].name, st.escaping) + Gap(st) + ":" + Gap(st) else ""
  }

  function Separator(v: Value, k: nat, st: Style): string
    requires Compound(v) && k < Size(v)
  {
    (if k + 1 < Size(v) then "," else "") + LineEnd(st)
  }

  function Opening(v: Value): string
    requires Compound(v)
  {
    if v.Obj? then "{" else "["
  }

  function Closing(v: Value): string
    requires Compound(v)
  {
    if v.Obj? then "}" else "]"
  }

  function Scalar(v: Value, st: Style): string
    requires !Compound(v)
  {
    match v
    case Str(text) => Quoted(text, st.escaping)
    case Bool(b) => if b then "true" else "false"
    case Int(i) => Decimal(i)
    case UInt(u) => Decimal(u)
    case Real(digits) => st.realText(digits)
    case _ => "null"
  }

  function Printed(v: Value, level: nat, st: Style): string
    decreases v, 1, 0
  {
    if Compound(v) then
      Opening(v) + LineEnd(st) + PrintedFrom(v, 0, level + 1, st) + Margin(level, st) + Closing(v)
    else Scalar(v, st)
  }

  /** Children k and later. */
  function PrintedFrom(v: Value, k: nat, level: nat, st: Style): string
    requires Compound(v) && k <= Size(v)
    decreases v, 0, Size(v) - k
  {
    if k == Size(v) then ""
    else
      Margin(level, st) + (Label(v, k, st) + Printed(Child(v, k), level, st)) + Separator(v, k, st) +
      PrintedFrom(v, k + 1, level, st)
  }

  // ---------------------------------------------------------------- the generator

  class Generator {
    var os: string
    var indentationLevel: nat
    const style: Style

    constructor (v: Value, os: string, style: Style)
      ensures this.os == os + Printed(v, 0, style) && this.style == style && indentationLevel == 0
    {
      this.os := os;
      this.style := style;
      indentationLevel := 0;
      new;
      Output(v);
    }

    method Output(v: Value)
      modifies this
      ensures os == old(os) + Printed(v, old(indentationLevel), style)
      ensures indentationLevel == old(indentationLevel)
      decreases v, 5
    {
      hide Digits, Escaped;
      match v
      case Obj(_) => OutputArrayOrObj(v, "{", "}");
      case Arr(_) => OutputArrayOrObj(v, "[", "]");
      case Str(text) => OutputString(text);
      case Bool(b) => os := os + if b then "true" else "false";
      case Int(i) => os := os + Decimal(i);
      case UInt(u) => os := os + Decimal(u);
      case Real(digits) => os := os + style.realText(digits);
      case Null => os := os + "null";
    }

    method OutputString(s: string)
      modifies `os
      ensures os == old(os) + Quoted(s, style.escaping)
    {
      var escaped := AddEscChars(s, style.escaping);
      os := os + "\"" + escaped + "\"";
    }

    /** A member: its name, a colon, its value. */
    method OutputMember(v: Value, k: nat)
      requires v.Obj? && k < Size(v)
      modifies this
      ensures os == old(os) + (Label(v, k, style) + Printed(Child(v, k), old(indentationLevel), style))
      ensures indentationLevel == old(indentationLevel)
      decreases v, 0
    {
      hide Printed, Quoted;
      OutputString(v.members[k].name);
      Space();
      os := os + ":";
      Space();
      assert os == old(os) + Label(v, k, style);
      assert v.members[k] < v;
      Output(v.members[k].value);
    }

    method OutputArrayOrObj(v: Value, startChar: string, endChar: string)
      requires Compound(v) && startChar == Opening(v) && endChar == Closing(v)
      modifies this
      ensures os == old(os) + Printed(v, old(indentationLevel), style)
      ensures indentationLevel == old(indentationLevel)
      decreases v, 4
    {
      hide PrintedFrom, Margin, LineEnd;
      os := os + startChar;
      NewLine();
      ghost var start := os;
      indentationLevel := indentationLevel + 1;
      OutputItems(v);
      indentationLevel := indentationLevel - 1;
      Indent();
      os := os + endChar;
    }

    /** The loop over the children, a comma after each but the last. */
    method OutputItems(v: Value)
      requires Compound(v)
      modifies this
      ensures os == old(os) + PrintedFrom(v, 0, old(indentationLevel), style)
      ensures indentationLevel == old(indentationLevel)
      decreases v, 3
    {
      var i := 0;
      while i < Size(v)
        invariant 0 <= i <= Size(v) && indentationLevel == old(indentationLevel)
        invariant os + PrintedFrom(v, i, indentationLevel, style) ==
                  old(os) + PrintedFrom(v, 0, indentationLevel, style)
      {
        ghost var before := os;
        OutputItem(v, i);
        ItemPrinted(before, v, i, indentationLevel, style);
        i := i + 1;
      }
    }

    /** One child with its indentation and what separates it from the next. */
    method OutputItem(v: Value, k: nat)
      requires Compound(v) && k < Size(v)
      modifies this
      ensures os == old(os) + ItemText(v, k, old(indentationLevel), style)
      ensures indentationLevel == old(indentationLevel)
      decreases v, 2
    {
      hide Printed, Label, Margin, Separator;
      Indent();
      OutputLabelled(v, k);
      OutputSeparator(v, k);
    }

    method OutputLabelled(v: Value, k: nat)
      requires Compound(v) && k < Size(v)
      modifies this
      ensures os == old(os) + (Label(v, k, style) + Printed(Child(v, k), old(indentationLevel), style))
      ensures indentationLevel == old(indentationLevel)
      decreases v, 1
    {
      hide Printed, Label;
      if v.Obj? {
        OutputMember(v, k);
      } else {
        NoLabel(v, k, style);
        Output(v.elements[k]);
      }
    }

    method OutputSeparator(v: Value, k: nat)
      requires Compound(v) && k < Size(v)
      modifies `os
      ensures os == old(os) + Separator(v, k, style)
    {
      var next := k + 1;
      if next != Size(v) {
        os := os + ",";
      }
      NewLine();
    }

    method Indent()
      modifies `os
      ensures os == old(os) + Margin(indentationLevel, style)
    {
      if !style.pretty {
        return;
      }
      for i := 0 to indentationLevel
        invariant os == old(os) + Indentation(i)
      {
        os := os + "    ";
      }
    }

    method Space()
      modifies `os
      ensures os == old(os) + Gap(style)
    {
      if style.pretty {
        os := os + " ";
      }
    }

    method NewLine()
      modifies `os
      ensures os == old(os) + LineEnd(style)
    {
      if style.pretty {
        os := os + "\n";
      }
    }
  }

  function ItemText(v: Value, k: nat, level: nat, st: Style): string
    requires Compound(v) && k < Size(v)
  {
    Margin(level, st) + (Label(v, k, st) + Printed(Child(v, k), level, st)) + Separator(v, k, st)
  }

  lemma NoLabel(v: Value, k: nat, st: Style)
    requires v.Arr? && k < Size(v)
    ensures Label(v, k, st) == ""
  {
  }

  lemma ItemPrinted(before: string, v: Value, k: nat, level: nat, st: Style)
    requires Compound(v) && k < Size(v)
    ensures (before + ItemText(v, k, level, st)) + PrintedFrom(v, k + 1, level, st)
         == before + PrintedFrom(v, k, level, st)
  {
  }
}
