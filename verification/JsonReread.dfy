/**
 What reading yields can be written and read again: the value of any accepted byte text comes back.
 */
module JsonReread {
  import opened JsonText
  import opened JsonWriter
  import opened JsonReader
  import opened JsonTokens
  import opened JsonActions
  import opened JsonRoundTrip
  import opened JsonDocument

  // ---------------------------------------------------------------- what reading yields

  /** Strings of bytes, integers of the kind the reader chooses for them, and real numbers. */
  predicate Readable(v: Value)
    decreases v
  {
    if Compound(v) then forall k :: 0 <= k < Size(v) ==> Bytes(NameAt(v, k)) && Readable(Child(v, k))
    else
      match v
      case Str(text) => Bytes(text)
      case Int(i) => -TWO63 <= i < TWO63
      case UInt(u) => TWO63 <= u < TWO64
      case Real(digits) => IsReal(digits)
      case _ => true
  }

  predicate Clean(event: Event) {
    match event
    case NewName(raw) => |raw| >= 2 && Bytes(raw)
    case NewStr(raw) => |raw| >= 2 && Bytes(raw)
    case NewInt(i) => -TWO63 <= i < TWO63
    case NewUInt64(u) => TWO63 <= u < TWO64
    case NewReal(digits) => IsReal(digits)
    case _ => true
  }

  predicate AllClean(events: seq<Event>) {
    forall i :: 0 <= i < |events| ==> Clean(events[i])
  }

  // ---------------------------------------------------------------- the builder keeps it

  lemma {:induction false} UnescapedBytes(s: string)
    requires Bytes(s)
    ensures Bytes(Unescaped(s))
    decreases |s|
  {
    if |s| >= 2 {
      hide EscapeMeaning;
      if s[0] == '\\' {
        MeaningBytes(s[1..]);
        UnescapedBytes(s[1 + EscapeMeaning(s[1..]).1..]);
      } else {
        UnescapedBytes(s[1..]);
      }
    }
  }

  lemma MeaningBytes(t: string)
    requires Bytes(t) && t != ""
    ensures Bytes(EscapeMeaning(t).0)
  {
    hide HexToNum;
  }

  lemma AddReadable(v: Value, name: string, child: Value)
    requires Compound(v) && Readable(v) && Bytes(name) && Readable(child)
    ensures Readable(AddChild(v, name, child))
  {
    var w := AddChild(v, name, child);
    forall k | 0 <= k < Size(w) ensures Bytes(NameAt(w, k)) && Readable(Child(w, k)) {
      if k < Size(v) {
        AddChildKeeps(v, name, child, k);
      }
    }
  }

  lemma ReplaceReadable(v: Value, child: Value)
    requires Compound(v) && Size(v) > 0 && Readable(v) && Readable(child)
    ensures Readable(ReplaceLast(v, child))
  {
    var w := ReplaceLast(v, child);
    forall k | 0 <= k < Size(w) ensures Bytes(NameAt(w, k)) && Readable(Child(w, k)) {
      assert NameAt(w, k) == NameAt(v, k);
      assert k < Size(v) - 1 ==> Child(w, k) == Child(v, k);
    }
  }

  lemma {:induction false} GrownReadable(v: Value, p: Path, name: string, child: Value)
    requires OnSpine(v, p) && Compound(At(v, p)) && Readable(v) && Bytes(name) && Readable(child)
    ensures Readable(Grown(v, p, name, child))
    decreases |p|
  {
    if p == [] {
      AddReadable(v, name, child);
    } else {
      var c := Child(v, p[0]);
      assert Readable(c);
      GrownReadable(c, p[1..], name, child);
      ReplaceReadable(v, Grown(c, p[1..], name, child));
    }
  }

  /** The value under construction is readable once there is one, and the pending name is of bytes. */
  predicate Sound(st: State) {
    Bytes(st.name) && (st.current.To? ==> Readable(st.value))
  }

  lemma AddedSound(st: State, child: Value)
    requires SpineState(st) && Sound(st) && Readable(child)
    requires st.current.To? ==> Compound(At(st.value, st.current.path))
    ensures Sound(Added(st, child)) && Added(st, child).current.To?
  {
    if st.current.To? {
      GrownReadable(st.value, st.current.path, st.name, child);
    }
    hide Readable, Bytes, Grown;
  }

  lemma ScalarReadable(event: Event)
    requires Clean(event)
    requires !event.NewName? && !event.BeginObj? && !event.BeginArray? && !event.EndObj? && !event.EndArray?
    ensures (event.NewStr? ==> |event.raw| >= 2) && Readable(ScalarOf(event))
  {
    if event.NewStr? {
      UnescapedBytes(event.raw[1..|event.raw| - 1]);
    }
    hide IsReal, Unescaped;
  }

  lemma StepSound(st: State, event: Event)
    requires SpineState(st) && Legal(st, event) && Sound(st) && Clean(event)
    ensures Sound(Step(st, event)) && Step(st, event).current.To?
  {
    match event
    case BeginObj => AddedSound(st, Obj([]));
    case BeginArray => AddedSound(st, Arr([]));
    case EndObj =>
    case EndArray =>
    case NewName(raw) => UnescapedBytes(raw[1..|raw| - 1]);
    case _ =>
      ScalarReadable(event);
      AddedSound(st, ScalarOf(event));
  }

  lemma {:induction false} RunSound(st: State, events: seq<Event>)
    requires LegalRun(st, events) && Sound(st) && AllClean(events)
    ensures Sound(Run(st, events)) && (st.current.To? || events != [] ==> Run(st, events).current.To?)
    decreases |events|
  {
    if events != [] {
      assert Clean(events[0]);
      StepSound(st, events[0]);
      assert AllClean(events[1..]);
      RunSound(Step(st, events[0]), events[1..]);
    }
  }

  // ---------------------------------------------------------------- the grammar fires clean events

  lemma {:induction false} SkipBytes(s: string)
    requires Bytes(s)
    ensures Bytes(Skip(s))
  {
    if s != "" && IsSpace(s[0]) {
      SkipBytes(s[1..]);
    }
  }

  /** What is read as a real number is one from end to end. */
  lemma RealOfPrefix(s: string)
    requires RealLength(s) > 0
    ensures IsReal(s[..RealLength(s)])
  {
    hide *;
    var t := RealSplit(s);
    FractionalIsReal(t);
  }

  predicate CleanParse(r: Parse) {
    match r
    case Match(events, rest) => AllClean(events) && Bytes(rest)
    case NoMatch => true
    case Throw(events, _) => AllClean(events)
  }

  lemma PrefixedClean(events: seq<Event>, r: Parse)
    requires AllClean(events) && CleanParse(r)
    ensures CleanParse(Prefixed(events, r))
  {
    hide Clean;
  }

  lemma NumberClean(s: string)
    requires Bytes(s)
    ensures CleanParse(ParseNumber(s))
  {
    hide ParseInteger, RealLength, IsReal, CleanParse;
    var n := RealLength(s);
    if n > 0 {
      RealOfPrefix(s);
      OneClean(NewReal(s[..n]), s, n);
    } else {
      IntegerClean(s);
    }
  }

  lemma OneClean(event: Event, s: string, n: nat)
    requires Clean(event) && Bytes(s) && n <= |s|
    ensures CleanParse(Match([event], s[n..]))
  {
    hide Clean;
  }

  lemma IntegerClean(s: string)
    requires Bytes(s)
    ensures CleanParse(ParseInteger(s))
  {
    hide DigitRun, SignLength, IsReal, Number;
  }

  lemma StringClean(s: string, isName: bool)
    requires Bytes(s)
    ensures CleanParse(ParseString(s, isName))
  {
    hide QuotedLength;
  }

  lemma ValueClean(s: string)
    requires Bytes(s)
    ensures CleanParse(ParseValue(s))
    decreases |s|, 0
  {
    SkipBytes(s);
    var t := Skip(s);
    if t != "" {
      NumberClean(t);
      StringClean(t, false);
      if t[0] == '{' || t[0] == '[' {
        CompoundClean(t[0] == '{', t[1..]);
      }
    }
    hide ParseNumber, ParseString, ParseCompound, Skip;
  }

  lemma CompoundClean(isObj: bool, s: string)
    requires Bytes(s)
    ensures CleanParse(ParseCompound(isObj, s))
    decreases |s|, 3
  {
    ItemsClean(isObj, s);
    hide ParseItems, Skip, Clean, AllClean;
    var items := Prefixed([BeginEvent(isObj)], ParseItems(isObj, s));
    BracketsClean(isObj);
    PrefixedClean([BeginEvent(isObj)], ParseItems(isObj, s));
    if items.Match? {
      SkipBytes(items.rest);
      EventsJoinClean(items.events, [EndEvent(isObj)]);
    }
  }

  lemma BracketsClean(isObj: bool)
    ensures AllClean([BeginEvent(isObj)]) && AllClean([EndEvent(isObj)])
  {
  }

  lemma EventsJoinClean(a: seq<Event>, b: seq<Event>)
    requires AllClean(a) && AllClean(b)
    ensures AllClean(a + b)
  {
    hide Clean;
  }

  lemma ItemsClean(isObj: bool, s: string)
    requires Bytes(s)
    ensures CleanParse(ParseItems(isObj, s))
    decreases |s|, 2
  {
    var first := ParseItem(isObj, s);
    ItemClean(isObj, s);
    if first.Match? {
      MoreClean(isObj, first.rest);
      PrefixedClean(first.events, ParseMore(isObj, first.rest));
    }
    hide ParseItem, ParseMore, Clean, Bytes, Prefixed;
  }

  lemma MoreClean(isObj: bool, s: string)
    requires Bytes(s)
    ensures CleanParse(ParseMore(isObj, s))
    decreases |s|, 0
  {
    SkipBytes(s);
    var t := Skip(s);
    if t != "" && t[0] == ',' {
      var item := ParseItem(isObj, t[1..]);
      ItemClean(isObj, t[1..]);
      if item.Match? {
        MoreClean(isObj, item.rest);
        PrefixedClean(item.events, ParseMore(isObj, item.rest));
      }
    }
    hide ParseItem, Clean, Prefixed, Skip;
  }

  lemma ItemClean(isObj: bool, s: string)
    requires Bytes(s)
    ensures CleanParse(ParseItem(isObj, s))
    decreases |s|, 1
  {
    if isObj {
      SkipBytes(s);
      var name := ParseString(Skip(s), true);
      StringClean(Skip(s), true);
      if name.Match? {
        SkipBytes(name.rest);
        var t := Skip(name.rest);
        if t != "" && t[0] == ':' {
          ValueClean(t[1..]);
          PrefixedClean(name.events, ParseValue(t[1..]));
        }
      }
    } else {
      ValueClean(s);
    }
    hide ParseString, ParseValue, Skip, Clean, Prefixed;
  }

  /** A text that is accepted has at least one event. */
  lemma SomeEvent(s: string)
    requires ParseJson(s).Match?
    ensures ParseJson(s).events != []
  {
    var t := Skip(s);
    if t != "" && (t[0] == '{' || t[0] == '[') {
      CompoundParts(t[0] == '{', t[1..]);
    } else {
      var event := ScalarMatch(s);
    }
    hide ParseCompound, Skip, ParseNumber, ParseString;
  }

  // ---------------------------------------------------------------- reading, writing and reading again

  /** The output stream writes real numbers as real numbers. */
  ghost predicate WritesReals(style: Style) {
    forall digits :: IsReal(digits) ==> IsReal(style.realText(digits))
  }

  /** And these as they were read. */
  predicate SameReals(v: Value, style: Style)
    decreases v
  {
    if Compound(v) then forall k :: 0 <= k < Size(v) ==> SameReals(Child(v, k), style)
    else v.Real? ==> style.realText(v.digits) == v.digits
  }

  lemma {:induction false} ReadableIsStorable(v: Value, style: Style)
    requires Readable(v) && WritesReals(style)
    ensures Storable(v, style) && (Plain(v, style) <==> SameReals(v, style))
    decreases v
  {
    if Compound(v) {
      forall k | 0 <= k < Size(v)
        ensures Bytes(NameAt(v, k)) && Storable(Child(v, k), style)
        ensures Plain(Child(v, k), style) <==> SameReals(Child(v, k), style)
      {
        ReadableIsStorable(Child(v, k), style);
      }
      StorableByChildren(v, style);
    }
    hide IsReal, Bytes;
  }

  lemma StorableByChildren(v: Value, style: Style)
    requires Compound(v)
    requires forall k :: 0 <= k < Size(v) ==> Bytes(NameAt(v, k)) && Storable(Child(v, k), style)
    ensures Storable(v, style)
  {
    if v.Obj? {
      forall k | 0 <= k < |v.members|
        ensures Bytes(v.members[k].name) && Storable(v.members[k].value, style)
      {
        assert Bytes(NameAt(v, k)) && Storable(Child(v, k), style);
      }
    } else {
      forall k | 0 <= k < |v.elements| ensures Storable(v.elements[k], style) {
        assert Storable(Child(v, k), style);
      }
    }
  }

  /** The value of any accepted text of bytes can be stored; printed in any style and parsed again it gives a value
      that differs at most in how its real numbers are written, and the same value if they are written as they were
      read. */
  lemma ReadWriteRead(s: string, style: Style, before: Value, other: Value)
    requires Bytes(s) && ParseJson(s).Match? && WritesReals(style)
    ensures LegalRun(Start(before), ParseJson(s).events)
    ensures var v := Run(Start(before), ParseJson(s).events).value;
            var again := ParseJson(Printed(v, 0, style));
            Readable(v) && Storable(v, style) &&
            again.Match? && again.rest == "" && LegalRun(Start(other), again.events) &&
            Run(Start(other), again.events).value == Normal(v, style) &&
            (Normal(v, style) == v <==> SameReals(v, style))
  {
    TextLegal(s, before);
    SomeEvent(s);
    ValueClean(s);
    assert AllClean(ParseJson(s).events) && Sound(Start(before));
    hide *;
    var events := ParseJson(s).events;
    RunSound(Start(before), events);
    var v := Run(Start(before), events).value;
    SoundValue(Run(Start(before), events));
    ReadableIsStorable(v, style);
    NormalIsSame(v, style);
    NoTail(v, style);
    WriteReadRoundTrip(v, style, other, "", "");
  }

  lemma SoundValue(st: State)
    requires Sound(st) && st.current.To?
    ensures Readable(st.value)
  {
  }

  lemma NoTail(v: Value, style: Style)
    ensures "" + (Printed(v, 0, style) + "") == Printed(v, 0, style) && White("") && Ends("")
  {
    hide Printed;
  }
}
