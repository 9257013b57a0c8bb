/**
 Reading whole texts: for every text the grammar drives the tree builder legally, and a written value is rebuilt.
 */
module JsonDocument {
  import opened JsonWriter
  import opened JsonReader
  import opened JsonTokens
  import opened JsonSpelling
  import opened JsonErrors
  import opened JsonActions
  import opened JsonRoundTrip

  // ---------------------------------------------------------------- the kinds of the open containers

  /** Which of the nodes from the root down to p are objects. */
  function Kinds(v: Value, p: Path): (kinds: seq<bool>)
    requires OnSpine(v, p)
    ensures |kinds| == |p| + 1
    decreases |p|
  {
    if p == [] then [v.Obj?] else [v.Obj?] + Kinds(Child(v, p[0]), p[1..])
  }

  lemma {:induction false} KindsLast(v: Value, p: Path)
    requires OnSpine(v, p)
    ensures Kinds(v, p)[|p|] == At(v, p).Obj?
    decreases |p|
  {
    if p != [] {
      KindsLast(Child(v, p[0]), p[1..]);
    }
  }

  lemma {:induction false} KindsPrefix(v: Value, p: Path)
    requires OnSpine(v, p) && p != []
    ensures OnSpine(v, p[..|p| - 1]) && Kinds(v, p[..|p| - 1]) == Kinds(v, p)[..|p|]
    decreases |p|
  {
    var q := p[..|p| - 1];
    if |p| > 1 {
      KindsPrefix(Child(v, p[0]), p[1..]);
      assert q[1..] == p[1..][..|p| - 2];
    } else {
      assert q == [];
    }
  }

  /** Growth changes no kind and adds that of the child. */
  lemma {:induction false} GrownKinds(v: Value, p: Path, name: string, child: Value)
    requires OnSpine(v, p) && Compound(At(v, p))
    requires OnSpine(Grown(v, p, name, child), p) && OnSpine(Grown(v, p, name, child), Below(v, p))
    ensures Kinds(Grown(v, p, name, child), p) == Kinds(v, p)
    ensures Kinds(Grown(v, p, name, child), Below(v, p)) == Kinds(v, p) + [child.Obj?]
    decreases |p|
  {
    var w, q := Grown(v, p, name, child), Below(v, p);
    if p == [] {
      GrownKindsHere(v, name, child);
    } else {
      var c := Child(v, p[0]);
      GrownBelow(v, p, name, child);
      GrownAt(c, p[1..], name, child);
      hide *;
      GrownKinds(c, p[1..], name, child);
      KindsNext(w, p);
      KindsNext(v, p);
      KindsNext(w, q);
      assert [v.Obj?] + (Kinds(c, p[1..]) + [child.Obj?]) == [v.Obj?] + Kinds(c, p[1..]) + [child.Obj?];
    }
  }

  lemma GrownKindsHere(v: Value, name: string, child: Value)
    requires Compound(v) && OnSpine(Grown(v, [], name, child), Below(v, []))
    ensures Kinds(Grown(v, [], name, child), []) == Kinds(v, [])
    ensures Kinds(Grown(v, [], name, child), Below(v, [])) == Kinds(v, []) + [child.Obj?]
  {
    assert Below(v, [])[1..] == [];
    assert Kinds(child, []) == [child.Obj?];
    hide AddChild;
  }

  lemma KindsNext(v: Value, p: Path)
    requires OnSpine(v, p) && p != []
    ensures Kinds(v, p) == [v.Obj?] + Kinds(Child(v, p[0]), p[1..])
  {
  }

  lemma GrownBelow(v: Value, p: Path, name: string, child: Value)
    requires OnSpine(v, p) && Compound(At(v, p)) && p != []
    ensures var c := Child(v, p[0]);
            var w := Grown(v, p, name, child);
            Compound(w) && w.Obj? == v.Obj? && Size(w) == Size(v) && Child(w, p[0]) == Grown(c, p[1..], name, child) &&
            Compound(At(c, p[1..])) && Below(v, p)[0] == p[0] && Below(v, p)[1..] == Below(c, p[1..])
  {
  }

  // ---------------------------------------------------------------- legal for every text

  /** The machine is inside a container. */
  ghost predicate Open(st: State) {
    SpineState(st) && st.current.To? && Compound(At(st.value, st.current.path))
  }

  function OpenKinds(st: State): seq<bool>
    requires Open(st)
  {
    Kinds(st.value, st.current.path)
  }

  /** It is there again, with the same containers around it. */
  ghost predicate Kept(st: State, r: State)
    requires Open(st)
  {
    Open(r) && r.current == st.current && r.stack == st.stack && OpenKinds(r) == OpenKinds(st)
  }

  /** A legal run that comes back to where it began. */
  ghost predicate Balanced(st: State, events: seq<Event>)
    requires Open(st)
  {
    LegalRun(st, events) && Kept(st, Run(st, events))
  }

  lemma BalancedJoins(st: State, a: seq<Event>, b: seq<Event>)
    requires Open(st) && Balanced(st, a) && Balanced(Run(st, a), b)
    ensures Balanced(st, a + b)
  {
    hide LegalRun, Run, Open, OpenKinds;
    RunJoins(st, a, b);
  }

  lemma ScalarBalanced(st: State, event: Event)
    requires Open(st) && Legal(st, event)
    requires !event.BeginObj? && !event.BeginArray? && !event.EndObj? && !event.EndArray? && !event.NewName?
    ensures Balanced(st, [event])
  {
    RunOne(st, event);
    StepKeepsSpine(st, event);
    var p := st.current.path;
    GrownAt(st.value, p, st.name, ScalarOf(event));
    GrownKinds(st.value, p, st.name, ScalarOf(event));
    hide Grown, At, OnSpine, Kinds, SpineState, LegalRun, Run;
  }

  lemma NameBalanced(st: State, raw: string)
    requires Open(st) && At(st.value, st.current.path).Obj? && |raw| >= 2
    ensures Balanced(st, [NewName(raw)])
  {
  }

  /** Beginning a container opens it. */
  lemma BeginOpens(st: State, isObj: bool)
    requires Open(st)
    ensures Legal(st, BeginEvent(isObj))
    ensures var entered := Step(st, BeginEvent(isObj));
            Open(entered) && OpenKinds(entered) == OpenKinds(st) + [isObj] &&
            entered.stack == st.stack + [st.current.path]
  {
    var child := if isObj then Obj([]) else Arr([]);
    StepKeepsSpine(st, BeginEvent(isObj));
    GrownAt(st.value, st.current.path, st.name, child);
    GrownKinds(st.value, st.current.path, st.name, child);
    hide Grown, At, OnSpine, Kinds, SpineState, Below;
  }

  /** Ending it closes it and returns to the container around it. */
  lemma EndCloses(st: State, isObj: bool, inner: State)
    requires Open(st) && Open(inner) && OpenKinds(inner) == OpenKinds(st) + [isObj]
    requires inner.stack == st.stack + [st.current.path]
    ensures Legal(inner, EndEvent(isObj)) && Kept(st, Step(inner, EndEvent(isObj)))
  {
    var path := inner.current.path;
    KindsLast(inner.value, path);
    StepKeepsSpine(inner, EndEvent(isObj));
    KindsPrefix(inner.value, path);
    SpinePrefix(inner.value, path, |path| - 1);
    assert inner.stack[|st.stack|] == path[..|path| - 1];
    hide At, OnSpine, Kinds, SpineState;
  }

  lemma CompoundBalanced(st: State, isObj: bool, between: seq<Event>)
    requires Open(st) && Legal(st, BeginEvent(isObj)) && Open(Step(st, BeginEvent(isObj)))
    requires Balanced(Step(st, BeginEvent(isObj)), between)
    ensures Balanced(st, [BeginEvent(isObj)] + between + [EndEvent(isObj)])
  {
    var entered := Step(st, BeginEvent(isObj));
    BeginOpens(st, isObj);
    var inner := Run(entered, between);
    assert Open(inner) && OpenKinds(inner) == OpenKinds(entered) && inner.stack == entered.stack;
    hide LegalRun, Run, OpenKinds, SpineState, At, Step, Legal;
    EndCloses(st, isObj, inner);
    BracketedRun(st, BeginEvent(isObj), between, EndEvent(isObj));
  }

  // ---------------------------------------------------------------- the rules

  /** A rule that matches comes back to where it began; one that gives up has fired legal events until then. */
  ghost predicate Tame(st: State, r: Parse)
    requires Open(st)
  {
    match r
    case Match(events, _) => Balanced(st, events)
    case NoMatch => true
    case _ => LegalRun(st, r.events)
  }

  lemma TameJoins(st: State, events: seq<Event>, r: Parse)
    requires Open(st) && Balanced(st, events) && !r.NoMatch? && Tame(Run(st, events), r)
    ensures Tame(st, Prefixed(events, r))
  {
    hide LegalRun, Run, Open, OpenKinds;
    if r.Match? {
      BalancedJoins(st, events, r.events);
    } else {
      RunJoins(st, events, r.events);
    }
  }

  lemma EventBefore(st: State, event: Event, events: seq<Event>)
    requires SpineState(st) && Legal(st, event) && LegalRun(Step(st, event), events)
    ensures LegalRun(st, [event] + events)
  {
    RunOne(st, event);
    RunJoins(st, [event], events);
  }

  lemma ValueLegal(s: string, st: State)
    requires Open(st)
    ensures Tame(st, ParseValue(s))
    decreases |s|, 0
  {
    var t := Skip(s);
    if t != "" && (t[0] == '{' || t[0] == '[') {
      CompoundLegal(t[0] == '{', t[1..], st);
    } else if ParseValue(s).Match? {
      var event := ScalarMatch(s);
      ScalarBalanced(st, event);
    } else {
      NothingFired(s);
    }
  }

  /** A value that is not a container is one event. */
  lemma ScalarMatch(s: string) returns (event: Event)
    requires ParseValue(s).Match? && Skip(s) != "" && Skip(s)[0] != '{' && Skip(s)[0] != '['
    ensures ParseValue(s).events == [event] && (event.NewStr? ==> |event.raw| >= 2)
    ensures !event.BeginObj? && !event.BeginArray? && !event.EndObj? && !event.EndArray? && !event.NewName?
  {
    var token := TokenSplit(s);
    event := TokenEvent(token);
    hide ParseValue, Skip, Closed, FractionText, IntegerOf;
  }

  lemma NothingFired(s: string)
    requires !ParseValue(s).Match? && (Skip(s) == "" || (Skip(s)[0] != '{' && Skip(s)[0] != '['))
    ensures ParseValue(s).NoMatch?
  {
  }

  lemma CompoundLegal(isObj: bool, s: string, st: State)
    requires Open(st)
    ensures Tame(st, ParseCompound(isObj, s))
    decreases |s|, 3
  {
    BeginOpens(st, isObj);
    OpensAs(st, isObj);
    var entered, items := Step(st, BeginEvent(isObj)), ParseItems(isObj, s);
    ItemsLegal(isObj, s, entered);
    CompoundParts(isObj, s);
    if ParseCompound(isObj, s).Match? {
      CompoundBalanced(st, isObj, items.events);
    } else {
      EventBefore(st, BeginEvent(isObj), items.events);
    }
  }

  lemma CompoundParts(isObj: bool, s: string)
    ensures var items, whole := ParseItems(isObj, s), ParseCompound(isObj, s);
            if whole.Match? then
              items.Match? && whole.events == [BeginEvent(isObj)] + items.events + [EndEvent(isObj)]
            else whole.events == [BeginEvent(isObj)] + items.events
  {
  }

  /** The innermost open container is of this kind. */
  ghost predicate OpenAs(st: State, isObj: bool) {
    Open(st) && At(st.value, st.current.path).Obj? == isObj
  }

  lemma OpensAs(st: State, isObj: bool)
    requires Open(st) && Legal(st, BeginEvent(isObj)) && Open(Step(st, BeginEvent(isObj)))
    requires OpenKinds(Step(st, BeginEvent(isObj))) == OpenKinds(st) + [isObj]
    requires Step(st, BeginEvent(isObj)).stack == st.stack + [st.current.path]
    ensures OpenAs(Step(st, BeginEvent(isObj)), isObj)
  {
    var entered := Step(st, BeginEvent(isObj));
    KindsLast(entered.value, entered.current.path);
    assert |entered.current.path| == |st.stack| + 1;
    hide At, Kinds, OnSpine;
  }

  lemma ItemsLegal(isObj: bool, s: string, st: State)
    requires OpenAs(st, isObj)
    ensures Tame(st, ParseItems(isObj, s))
    decreases |s|, 2
  {
    var first := ParseItem(isObj, s);
    ItemLegal(isObj, s, st);
    if first.Match? {
      var next := Run(st, first.events);
      StillOpenAs(st, next, isObj);
      MoreLegal(isObj, first.rest, next);
      TameJoins(st, first.events, ParseMore(isObj, first.rest));
    } else {
      NothingBalanced(st);
    }
  }

  lemma MoreLegal(isObj: bool, s: string, st: State)
    requires OpenAs(st, isObj)
    ensures Tame(st, ParseMore(isObj, s))
    decreases |s|, 0
  {
    var t := Skip(s);
    NothingBalanced(st);
    if t != "" && t[0] == ',' {
      var item := ParseItem(isObj, t[1..]);
      ItemLegal(isObj, t[1..], st);
      if item.Match? {
        var next := Run(st, item.events);
        StillOpenAs(st, next, isObj);
        MoreLegal(isObj, item.rest, next);
        TameJoins(st, item.events, ParseMore(isObj, item.rest));
      }
    }
  }

  lemma ItemLegal(isObj: bool, s: string, st: State)
    requires OpenAs(st, isObj)
    ensures Tame(st, ParseItem(isObj, s))
    decreases |s|, 1
  {
    if isObj {
      var name := ParseString(Skip(s), true);
      if name.Match? {
        var raw := name.events[0].raw;
        assert name.events == [NewName(raw)] && |raw| >= 2;
        var t := Skip(name.rest);
        NameBalanced(st, raw);
        if t != "" && t[0] == ':' {
          var value, named := ParseValue(t[1..]), Run(st, [NewName(raw)]);
          ValueLegal(t[1..], named);
          if !value.NoMatch? {
            TameJoins(st, [NewName(raw)], value);
          }
        }
      }
    } else {
      ValueLegal(s, st);
    }
  }

  lemma NothingBalanced(st: State)
    requires Open(st)
    ensures Balanced(st, [])
  {
  }

  lemma StillOpenAs(st: State, next: State, isObj: bool)
    requires OpenAs(st, isObj) && Kept(st, next)
    ensures OpenAs(next, isObj)
  {
    KindsLast(st.value, st.current.path);
    KindsLast(next.value, next.current.path);
  }

  // ---------------------------------------------------------------- whole texts

  /** Whatever the text, accepted or not, no event the grammar fires finds the builder in a state it cannot handle. */
  lemma TextLegal(s: string, before: Value)
    ensures LegalRun(Start(before), ParseJson(s).events)
  {
    var t, st := Skip(s), Start(before);
    if t != "" && (t[0] == '{' || t[0] == '[') {
      var isObj := t[0] == '{';
      assert ParseJson(s) == ParseValue(s) == ParseCompound(isObj, t[1..]);
      var entered := RootOpens(before, isObj);
      ItemsLegal(isObj, t[1..], entered);
      RootLegal(isObj, t[1..], st, entered);
    } else if ParseValue(s).Match? {
      var event := ScalarMatch(s);
      RunOne(st, event);
    } else {
      NothingFired(s);
    }
  }

  /** And no pointer the builder holds goes stale, at any event of any text. */
  lemma TextKeepsPointers(s: string, before: Value, i: nat, q: Path)
    requires i < |ParseJson(s).events|
    ensures var events := ParseJson(s).events;
            LegalRun(Start(before), events[..i]) &&
            var st := Run(Start(before), events[..i]);
            SpineState(st) && Legal(st, events[i]) &&
            (Held(st, q) ==> Unmoved(st.value, Step(st, events[i]).value, q))
  {
    hide *;
    TextLegal(s, before);
    RunKeepsPointers(Start(before), ParseJson(s).events, i, q);
  }

  lemma RootOpens(before: Value, isObj: bool) returns (entered: State)
    ensures Legal(Start(before), BeginEvent(isObj)) && entered == Step(Start(before), BeginEvent(isObj))
    ensures OpenAs(entered, isObj) && entered.current == To([])
  {
    entered := Step(Start(before), BeginEvent(isObj));
  }

  lemma RootLegal(isObj: bool, s: string, st: State, entered: State)
    requires SpineState(st) && Legal(st, BeginEvent(isObj)) && entered == Step(st, BeginEvent(isObj))
    requires OpenAs(entered, isObj) && entered.current == To([]) && Tame(entered, ParseItems(isObj, s))
    ensures LegalRun(st, ParseCompound(isObj, s).events)
  {
    var items := ParseItems(isObj, s);
    CompoundParts(isObj, s);
    hide ParseCompound, ParseItems;
    if ParseCompound(isObj, s).Match? {
      RootEnds(st, isObj, items.events, entered);
    } else {
      EventBefore(st, BeginEvent(isObj), items.events);
    }
  }

  lemma RootEnds(st: State, isObj: bool, between: seq<Event>, entered: State)
    requires SpineState(st) && Legal(st, BeginEvent(isObj)) && entered == Step(st, BeginEvent(isObj))
    requires OpenAs(entered, isObj) && entered.current == To([]) && Balanced(entered, between)
    ensures LegalRun(st, [BeginEvent(isObj)] + between + [EndEvent(isObj)])
  {
    var inner := Run(entered, between);
    StillOpenAs(entered, inner, isObj);
    assert SpineState(inner) && Legal(inner, EndEvent(isObj));
    hide LegalRun, Run, SpineState, Legal, Step;
    BracketedRun(st, BeginEvent(isObj), between, EndEvent(isObj));
  }

  /** How reading ends. */
  datatype Outcome = Read | Failed(reason: string)

  /** Reading a text. On success the value it begins with and the text behind it; on an error the text is as it was,
      and the value is what had been built until then. A text is read exactly if it begins with a spelled value, and
      the value read is the one spelled. */
  method ReadRange(s: string, before: Value) returns (outcome: Outcome, value: Value, rest: string)
    ensures match ParseJson(s)
            case Match(_, r) => outcome == Read && rest == r
            case Throw(_, reason) => outcome == Failed(reason) && rest == s
    ensures LegalRun(Start(before), ParseJson(s).events)
    ensures value == Run(Start(before), ParseJson(s).events).value
    ensures outcome == Read ==> exists t :: Begins(s, t, rest) && value == ValueOf(t)
    ensures forall t, tail :: Begins(s, t, tail) ==> outcome == Read && rest == tail && value == ValueOf(t)
    ensures outcome.Failed? ==> GivenUp(s, ParseJson(s).events, outcome.reason)
  {
    hide *;
    outcome, value, rest := ReadEvents(s, before);
    ReadMeans(s, before);
    SpelledMeans(s, before);
  }

  method ReadEvents(s: string, before: Value) returns (outcome: Outcome, value: Value, rest: string)
    ensures match ParseJson(s)
            case Match(_, r) => outcome == Read && rest == r
            case Throw(_, reason) => outcome == Failed(reason) && rest == s
    ensures LegalRun(Start(before), ParseJson(s).events)
    ensures value == Run(Start(before), ParseJson(s).events).value
  {
    var parsed := ParseJson(s);
    TextLegal(s, before);
    hide ParseJson;
    value := Build(parsed.events, before);
    match parsed
    case Match(_, r) => outcome, rest := Read, r;
    case Throw(_, reason) => outcome, rest := Failed(reason), s;
  }

  lemma ReadMeans(s: string, before: Value)
    requires LegalRun(Start(before), ParseJson(s).events)
    ensures ParseJson(s).Match? ==>
              exists t :: Begins(s, t, ParseJson(s).rest) &&
                          Run(Start(before), ParseJson(s).events).value == ValueOf(t)
    ensures ParseJson(s).Throw? ==> GivenUp(s, ParseJson(s).events, ParseJson(s).reason)
  {
    hide *;
    if ParseJson(s).Match? {
      var t := AcceptedText(s, before);
    } else {
      TextBroken(s);
    }
  }

  lemma SpelledMeans(s: string, before: Value)
    requires LegalRun(Start(before), ParseJson(s).events)
    ensures forall t, tail :: Begins(s, t, tail) ==>
              ParseJson(s).Match? && ParseJson(s).rest == tail &&
              Run(Start(before), ParseJson(s).events).value == ValueOf(t)
  {
    hide ParseJson, Run, LegalRun, ValueOf, Text, Spelling, Ends, Start;
    forall t, tail | Begins(s, t, tail)
      ensures ParseJson(s).Match? && ParseJson(s).rest == tail
      ensures Run(Start(before), ParseJson(s).events).value == ValueOf(t)
    {
      SpelledText(t, tail, before);
    }
  }

  /** A spelled value is read, whatever white space is in it, and only what stands behind it is left. */
  lemma SpelledText(t: Spelled, tail: string, before: Value)
    requires Spelling(t) && (t.Leaf? ==> Complete(t.token, tail))
    ensures var parsed := ParseJson(Text(t) + tail);
            parsed.Match? && parsed.rest == tail && LegalRun(Start(before), parsed.events) &&
            Run(Start(before), parsed.events).value == ValueOf(t)
  {
    hide *;
    ReadsText(t, tail);
    BuildsRoot(t, before);
  }

  /** A text that is accepted is such a spelling and what is left. */
  lemma AcceptedText(s: string, before: Value) returns (t: Spelled)
    requires ParseJson(s).Match?
    ensures Begins(s, t, ParseJson(s).rest)
    ensures LegalRun(Start(before), ParseJson(s).events)
    ensures Run(Start(before), ParseJson(s).events).value == ValueOf(t)
  {
    t := TextSpelled(s);
    hide ParseJson, Text, Complete, Spelling, Events, LegalRun, Run, ValueOf, Start;
    BuildsRoot(t, before);
  }

  /** The builder over the events. */
  method Build(events: seq<Event>, before: Value) returns (value: Value)
    requires LegalRun(Start(before), events)
    ensures value == Run(Start(before), events).value
  {
    var actions := new SemanticActions(before);
    var i := 0;
    assert events[0..] == events;
    while i < |events|
      invariant 0 <= i <= |events|
      invariant LegalRun(actions.Machine(), events[i..])
      invariant Run(actions.Machine(), events[i..]) == Run(Start(before), events)
    {
      assert events[i..][1..] == events[i + 1..];
      actions.Act(events[i]);
      i := i + 1;
    }
    value := actions.value;
  }

  /** A written value is read back: in either layout, with either treatment of unprintable characters, whatever
      counts as printable, and whatever follows it. */
  lemma WriteReadRoundTrip(v: Value, style: Style, before: Value, ws: string, tail: string)
    requires Storable(v, style) && White(ws) && (v.Int? || v.UInt? || v.Real? ==> Ends(tail))
    ensures var parsed := ParseJson(ws + (Printed(v, 0, style) + tail));
            parsed.Match? && parsed.rest == tail && LegalRun(Start(before), parsed.events) &&
            Run(Start(before), parsed.events).value == Normal(v, style)
  {
    hide *;
    TextReadBack(v, style, ws, tail);
    BuildsRoot(AsPrinted(v, ws, 0, style), before);
  }

  /** Without small unsigned integers it is the same value. */
  lemma PlainRoundTrip(v: Value, style: Style, before: Value)
    requires Storable(v, style) && Plain(v, style)
    ensures var parsed := ParseJson(Printed(v, 0, style));
            parsed.Match? && parsed.rest == "" && LegalRun(Start(before), parsed.events) &&
            Run(Start(before), parsed.events).value == v
  {
    WriteReadRoundTrip(v, style, before, "", "");
    NormalIsSame(v, style);
    hide *;
    assert "" + (Printed(v, 0, style) + "") == Printed(v, 0, style);
  }
}
