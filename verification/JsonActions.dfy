/**
 The tree builder: the grammar's events drive a machine that knows the value under construction, the container
 being filled, and the containers around it. A pointer into the tree is the path of child numbers to its target.
 */
module JsonActions {
  import opened JsonText
  import opened JsonWriter
  import opened JsonReader
  import opened JsonTokens
  import opened JsonSpelling

  type Path = seq<nat>

  // ---------------------------------------------------------------- trees and paths

  /** The last child, where an event stream goes on. */
  predicate OnSpine(v: Value, p: Path)
    decreases |p|
  {
    p == [] || (Compound(v) && Size(v) > 0 && p[0] == Size(v) - 1 && OnSpine(Child(v, p[0]), p[1..]))
  }

  function At(v: Value, p: Path): (w: Value)
    requires OnSpine(v, p)
    decreases |p|
  {
    if p == [] then v else At(Child(v, p[0]), p[1..])
  }

  function AddChild(v: Value, name: string, child: Value): (w: Value)
    requires Compound(v)
    ensures Compound(w) && w.Obj? == v.Obj? && Size(w) == Size(v) + 1 && Child(w, Size(v)) == child
  {
    if v.Obj? then Obj(v.members + [Member(name, child)]) else Arr(v.elements + [child])
  }

  lemma AddChildKeeps(v: Value, name: string, child: Value, k: nat)
    requires Compound(v) && k < Size(v)
    ensures Child(AddChild(v, name, child), k) == Child(v, k)
    ensures NameAt(AddChild(v, name, child), k) == NameAt(v, k)
  {
  }

  function ReplaceLast(v: Value, child: Value): (w: Value)
    requires Compound(v) && Size(v) > 0
    ensures Compound(w) && w.Obj? == v.Obj? && Size(w) == Size(v) && Child(w, Size(v) - 1) == child
  {
    var last := Size(v) - 1;
    if v.Obj? then Obj(v.members[..last] + [Member(v.members[last].name, child)])
    else Arr(v.elements[..last] + [child])
  }

  /** The tree with a child added to the container at p. */
  function Grown(v: Value, p: Path, name: string, child: Value): (w: Value)
    requires OnSpine(v, p) && Compound(At(v, p))
    decreases |p|
  {
    if p == [] then AddChild(v, name, child)
    else ReplaceLast(v, Grown(Child(v, p[0]), p[1..], name, child))
  }

  /** Where the added child is. */
  function Below(v: Value, p: Path): (q: Path)
    requires OnSpine(v, p) && Compound(At(v, p))
  {
    p + [Size(At(v, p))]
  }

  /** The added child is on the spine, at the end of the path. */
  lemma {:induction false} GrownAt(v: Value, p: Path, name: string, child: Value)
    requires OnSpine(v, p) && Compound(At(v, p))
    ensures OnSpine(Grown(v, p, name, child), p)
    ensures At(Grown(v, p, name, child), p) == AddChild(At(v, p), name, child)
    ensures OnSpine(Grown(v, p, name, child), Below(v, p))
    ensures At(Grown(v, p, name, child), Below(v, p)) == child
    decreases |p|
  {
    if p == [] {
      assert Below(v, p)[1..] == [];
    } else {
      GrownAt(Child(v, p[0]), p[1..], name, child);
      assert Below(v, p)[1..] == Below(Child(v, p[0]), p[1..]);
    }
  }

  /** Growing the child just added is adding the grown child. */
  lemma {:induction false} GrownInside(v: Value, p: Path, name: string, child: Value, inner: string, grandchild: Value)
    requires OnSpine(v, p) && Compound(At(v, p)) && Compound(child)
    requires OnSpine(Grown(v, p, name, child), Below(v, p)) && At(Grown(v, p, name, child), Below(v, p)) == child
    ensures Grown(Grown(v, p, name, child), Below(v, p), inner, grandchild)
         == Grown(v, p, name, AddChild(child, inner, grandchild))
    decreases |p|
  {
    var q, w := Below(v, p), Grown(v, p, name, child);
    if p == [] {
      assert q[1..] == [];
      assert Grown(child, [], inner, grandchild) == AddChild(child, inner, grandchild);
    } else {
      var c := Child(v, p[0]);
      GrownAt(c, p[1..], name, child);
      assert q[1..] == Below(c, p[1..]);
      GrownInside(c, p[1..], name, child, inner, grandchild);
    }
  }

  // ---------------------------------------------------------------- the machine

  /** current is None until the first event; stack holds the containers around the current one. */
  datatype Pointer = NullPointer | To(path: Path)
  datatype State = State(value: Value, current: Pointer, stack: seq<Path>, name: string)

  /** The stack and the current pointer are the nodes of the rightmost open spine, from the root down. */
  ghost predicate SpineState(st: State) {
    if st.current.NullPointer? then st.stack == []
    else
      OnSpine(st.value, st.current.path) && |st.stack| == |st.current.path| &&
      (forall i :: 0 <= i < |st.stack| ==> st.stack[i] == st.current.path[..i]) &&
      (st.current.path != [] ==> Compound(At(st.value, st.current.path)))
  }

  /** The events a state accepts: only a container takes children, names are for objects, an end closes what was
      begun, and a string comes with its quotes. */
  predicate Legal(st: State, event: Event)
    requires st.current.To? ==> OnSpine(st.value, st.current.path)
  {
    (event.NewStr? || event.NewName? ==> |event.raw| >= 2) &&
    match st.current
    case NullPointer => !event.EndObj? && !event.EndArray? && !event.NewName?
    case To(p) =>
      var node := At(st.value, p);
      if event.EndObj? || event.NewName? then node.Obj?
      else if event.EndArray? then node.Arr?
      else Compound(node)
  }

  function Added(st: State, child: Value): (r: State)
    requires st.current.To? ==> OnSpine(st.value, st.current.path) && Compound(At(st.value, st.current.path))
  {
    if st.current.NullPointer? then st.(value := child, current := To([]))
    else st.(value := Grown(st.value, st.current.path, st.name, child))
  }

  function Begun(st: State, empty: Value): (r: State)
    requires st.current.To? ==> OnSpine(st.value, st.current.path) && Compound(At(st.value, st.current.path))
  {
    if st.current.NullPointer? then Added(st, empty)
    else
      Added(st, empty).(stack := st.stack + [st.current.path], current := To(Below(st.value, st.current.path)))
  }

  function Ended(st: State): (r: State)
    requires st.current.To? && |st.stack| == |st.current.path|
  {
    if st.current.path == [] then st
    else st.(current := To(st.stack[|st.stack| - 1]), stack := st.stack[..|st.stack| - 1])
  }

  /** A quoted string without its quotes, unescaped. */
  function GetStr(raw: string): (s: string)
    requires |raw| >= 2
  {
    Unescaped(raw[1..|raw| - 1])
  }

  function ScalarOf(event: Event): (v: Value)
    requires !event.NewName? && !event.BeginObj? && !event.BeginArray? && !event.EndObj? && !event.EndArray?
    requires event.NewStr? ==> |event.raw| >= 2
  {
    match event
    case NewStr(raw) => Str(GetStr(raw))
    case NewTrue => Bool(true)
    case NewFalse => Bool(false)
    case NewNull => Null
    case NewInt(i) => Int(i)
    case NewUInt64(u) => UInt(u)
    case NewReal(digits) => Real(digits)
  }

  function Step(st: State, event: Event): (r: State)
    requires SpineState(st) && Legal(st, event)
  {
    match event
    case BeginObj => Begun(st, Obj([]))
    case BeginArray => Begun(st, Arr([]))
    case EndObj => Ended(st)
    case EndArray => Ended(st)
    case NewName(raw) => st.(name := GetStr(raw))
    case _ => Added(st, ScalarOf(event))
  }

  // ---------------------------------------------------------------- what every step keeps

  lemma {:induction false} SpinePrefix(v: Value, p: Path, n: nat)
    requires OnSpine(v, p) && n <= |p|
    ensures OnSpine(v, p[..n]) && (n < |p| ==> Compound(At(v, p[..n])))
    decreases |p|
  {
    if n > 0 {
      SpinePrefix(Child(v, p[0]), p[1..], n - 1);
      assert p[..n][1..] == p[1..][..n - 1];
    }
  }

  lemma StepKeepsSpine(st: State, event: Event)
    requires SpineState(st) && Legal(st, event)
    ensures SpineState(Step(st, event))
  {
    if st.current.To? {
      var p := st.current.path;
      if Compound(At(st.value, p)) {
        AddKeepsSpine(st, p);
      }
      if p != [] {
        SpinePrefix(st.value, p, |p| - 1);
      }
    }
  }

  lemma AddKeepsSpine(st: State, p: Path)
    requires SpineState(st) && st.current == To(p) && Compound(At(st.value, p))
    ensures forall child :: SpineState(Added(st, child))
    ensures SpineState(Begun(st, Obj([]))) && SpineState(Begun(st, Arr([])))
  {
    forall child ensures SpineState(Added(st, child)) {
      GrownAt(st.value, p, st.name, child);
    }
    GrownAt(st.value, p, st.name, Obj([]));
    GrownAt(st.value, p, st.name, Arr([]));
  }

  // ---------------------------------------------------------------- pointers

  /** The pointers the machine holds. */
  ghost predicate Held(st: State, q: Path) {
    st.current == To(q) || q in st.stack
  }

  /** v and w have q, and none of the containers above its target is larger in one than in the other: one that
      grows may move its children. */
  ghost predicate Unmoved(v: Value, w: Value, q: Path) {
    OnSpine(v, q) && OnSpine(w, q) &&
    forall n :: 0 <= n < |q| ==> SameSize(v, w, q[..n])
  }

  ghost predicate SameSize(v: Value, w: Value, p: Path) {
    OnSpine(v, p) && OnSpine(w, p) && Compound(At(v, p)) && Compound(At(w, p)) && Size(At(v, p)) == Size(At(w, p))
  }

  /** Growing the tree at p changes no size above p. */
  lemma {:induction false} GrownAbove(v: Value, p: Path, name: string, child: Value, n: nat)
    requires OnSpine(v, p) && Compound(At(v, p)) && n < |p|
    ensures SameSize(v, Grown(v, p, name, child), p[..n])
    decreases |p|
  {
    if n > 0 {
      GrownAbove(Child(v, p[0]), p[1..], name, child, n - 1);
      assert p[..n][1..] == p[1..][..n - 1];
    }
  }

  lemma SpineAbove(v: Value, p: Path, n: nat)
    requires OnSpine(v, p) && n < |p|
    ensures SameSize(v, v, p[..n])
  {
    SpinePrefix(v, p, n);
  }

  lemma StackedPrefix(st: State, q: Path)
    requires SpineState(st) && Held(st, q)
    ensures st.current.To? && q == st.current.path[..|q|]
  {
    if q in st.stack {
      var i :| 0 <= i < |st.stack| && st.stack[i] == q;
      assert q == st.current.path[..i];
    } else {
      assert st.current.path[..|q|] == q;
    }
  }

  /** A step leaves the tree as it is or grows it at the current container. */
  lemma StepGrows(st: State, event: Event) returns (grows: bool, child: Value)
    requires SpineState(st) && Legal(st, event) && st.current.To?
    ensures grows ==>
              Compound(At(st.value, st.current.path)) &&
              Step(st, event).value == Grown(st.value, st.current.path, st.name, child)
    ensures !grows ==> Step(st, event).value == st.value
  {
    grows := !event.EndObj? && !event.EndArray? && !event.NewName?;
    child := if event.BeginObj? then Obj([]) else if event.BeginArray? then Arr([])
             else if grows then ScalarOf(event) else Null;
  }

  /** In a step no container above the target of a pointer grows, so no pointer the machine holds goes stale. */
  lemma NoPointerGoesStale(st: State, event: Event, q: Path)
    requires SpineState(st) && Legal(st, event) && Held(st, q)
    ensures Unmoved(st.value, Step(st, event).value, q)
  {
    StackedPrefix(st, q);
    var p, w := st.current.path, Step(st, event).value;
    var grows, child := StepGrows(st, event);
    SpinePrefix(st.value, p, |q|);
    if grows {
      GrownAt(st.value, p, st.name, child);
      SpinePrefix(w, p, |q|);
    }
    hide *;
    forall n | 0 <= n < |q| ensures SameSize(st.value, w, q[..n]) {
      assert q[..n] == p[..n];
      if grows {
        GrownAbove(st.value, p, st.name, child, n);
      } else {
        SpineAbove(st.value, p, n);
      }
    }
    AllUnmoved(st.value, w, q);
  }

  lemma AllUnmoved(v: Value, w: Value, q: Path)
    requires OnSpine(v, q) && OnSpine(w, q) && forall n :: 0 <= n < |q| ==> SameSize(v, w, q[..n])
    ensures Unmoved(v, w, q)
  {
  }

  // ---------------------------------------------------------------- runs

  ghost predicate LegalRun(st: State, events: seq<Event>)
    decreases |events|
  {
    SpineState(st) && (events == [] || (Legal(st, events[0]) && LegalRun(Step(st, events[0]), events[1..])))
  }

  function Run(st: State, events: seq<Event>): (r: State)
    requires LegalRun(st, events)
    decreases |events|
  {
    if events == [] then st else Run(Step(st, events[0]), events[1..])
  }

  lemma {:induction false} RunJoins(st: State, a: seq<Event>, b: seq<Event>)
    requires LegalRun(st, a) && LegalRun(Run(st, a), b)
    ensures LegalRun(st, a + b) && Run(st, a + b) == Run(Run(st, a), b)
    decreases |a|
  {
    if a == [] {
      assert a + b == b;
    } else {
      assert (a + b)[1..] == a[1..] + b;
      RunJoins(Step(st, a[0]), a[1..], b);
    }
  }

  lemma RunOne(st: State, event: Event)
    requires SpineState(st) && Legal(st, event)
    ensures LegalRun(st, [event]) && Run(st, [event]) == Step(st, event)
  {
    StepKeepsSpine(st, event);
    assert Run(Step(st, event), []) == Step(st, event);
  }

  /** In every run the spine is kept. */
  lemma {:induction false} RunKeepsSpine(st: State, events: seq<Event>)
    requires LegalRun(st, events)
    ensures SpineState(Run(st, events))
    decreases |events|
  {
    if events != [] {
      RunKeepsSpine(Step(st, events[0]), events[1..]);
    }
  }

  /** At every event of a run, the pointers held before it survive it. */
  lemma {:induction false} RunKeepsPointers(st: State, events: seq<Event>, i: nat, q: Path)
    requires LegalRun(st, events) && i < |events|
    ensures LegalRun(st, events[..i])
    ensures var before := Run(st, events[..i]);
            SpineState(before) && Legal(before, events[i]) &&
            (Held(before, q) ==> Unmoved(before.value, Step(before, events[i]).value, q))
    decreases i
  {
    if i == 0 {
      assert events[..0] == [];
      assert Run(st, []) == st;
      if Held(st, q) {
        NoPointerGoesStale(st, events[0], q);
      }
    } else {
      var next := Step(st, events[0]);
      RunKeepsPointers(next, events[1..], i - 1, q);
      assert events[..i][1..] == events[1..][..i - 1];
      assert Run(st, events[..i]) == Run(next, events[1..][..i - 1]);
    }
  }

  // ---------------------------------------------------------------- what a spelling stands for

  function NameAt(v: Value, k: nat): (s: string)
    requires Compound(v) && k < Size(v)
  {
    if v.Obj? then v.members[k].name else ""
  }

  /** A string stands for its unescaped text, an integer for its value, signed if it fits, a real number for itself. */
  function TokenValue(token: Token): (v: Value)
    requires Proper(token)
    ensures !Compound(v)
  {
    match token
    case True => Bool(true)
    case False => Bool(false)
    case Nothing => Null
    case Quotation(body) => Str(Unescaped(body))
    case Integer(sign, digits) =>
      var i := IntegerOf(sign, digits);
      if i < 0x8000_0000_0000_0000 then Int(i) else UInt(i)
    case Fractional(_, _, _, _, _) => Real(TokenText(token))
  }

  function Empty(isObj: bool): (v: Value)
    ensures Compound(v) && v.Obj? == isObj && Size(v) == 0
  {
    if isObj then Obj([]) else Arr([])
  }

  function ValueOf(t: Spelled): (v: Value)
    requires Spelling(t)
    decreases t
  {
    match t
    case Leaf(_, token) => TokenValue(token)
    case Node(_, isObj, items, _) => Filled(Empty(isObj), isObj, items)
  }

  /** w with the items added as further children. */
  function Filled(w: Value, isObj: bool, items: seq<Item>): (v: Value)
    requires Compound(w) && SpellingItems(isObj, items)
    ensures Compound(v) && v.Obj? == w.Obj? && Size(v) == Size(w) + |items|
    decreases items
  {
    if items == [] then w
    else
      assert SpellingItem(isObj, items[0]);
      Filled(AddChild(w, Unescaped(items[0].name), ValueOf(items[0].value)), isObj, items[1..])
  }

  lemma {:induction false} ItemIsSpelling(isObj: bool, items: seq<Item>, k: nat)
    requires SpellingItems(isObj, items) && k < |items|
    ensures SpellingItem(isObj, items[k]) && Spelling(items[k].value)
    decreases items
  {
    if k > 0 {
      ItemIsSpelling(isObj, items[1..], k - 1);
    }
  }

  lemma {:induction false} FilledChildren(w: Value, isObj: bool, items: seq<Item>, k: nat)
    requires Compound(w) && w.Obj? == isObj && SpellingItems(isObj, items) && k < Size(w) + |items|
    requires k >= Size(w) ==> Spelling(items[k - Size(w)].value)
    ensures Child(Filled(w, isObj, items), k) ==
            if k < Size(w) then Child(w, k) else ValueOf(items[k - Size(w)].value)
    ensures isObj ==>
              NameAt(Filled(w, isObj, items), k) ==
              if k < Size(w) then NameAt(w, k) else Unescaped(items[k - Size(w)].name)
    decreases items
  {
    if items != [] {
      assert SpellingItem(isObj, items[0]);
      var next := AddChild(w, Unescaped(items[0].name), ValueOf(items[0].value));
      if k < Size(w) {
        AddChildKeeps(w, Unescaped(items[0].name), ValueOf(items[0].value), k);
      }
      FilledChildren(next, isObj, items[1..], k);
      hide Unescaped, ValueOf, SpellingItem, Spelling;
    }
  }

  /** A container stands for one of its kind with the items as children, in order and under their unescaped names. */
  lemma NodeChildren(t: Spelled, k: nat)
    requires t.Node? && Spelling(t)
    ensures Compound(ValueOf(t)) && ValueOf(t).Obj? == t.isObj && Size(ValueOf(t)) == |t.items|
    ensures k < |t.items| ==> Spelling(t.items[k].value) && Child(ValueOf(t), k) == ValueOf(t.items[k].value)
    ensures k < |t.items| && t.isObj ==> NameAt(ValueOf(t), k) == Unescaped(t.items[k].name)
  {
    if k < |t.items| {
      ItemIsSpelling(t.isObj, t.items, k);
      FilledChildren(Empty(t.isObj), t.isObj, t.items, k);
    }
    hide SpellingItems, Filled, Unescaped;
  }

  // ---------------------------------------------------------------- the events of a spelling build its value

  /** Where a container under construction sits: it is the whole value, or a child being added to another. */
  datatype Context = Root | Inside(tree: Value, path: Path, name: string)

  ghost predicate Fitting(c: Context) {
    c.Inside? ==> OnSpine(c.tree, c.path) && Compound(At(c.tree, c.path))
  }

  function Plug(c: Context, child: Value): (v: Value)
    requires Fitting(c)
  {
    if c.Root? then child else Grown(c.tree, c.path, c.name, child)
  }

  function PathOf(c: Context): Path
    requires Fitting(c)
  {
    if c.Root? then [] else Below(c.tree, c.path)
  }

  lemma PlugAt(c: Context, child: Value)
    requires Fitting(c)
    ensures OnSpine(Plug(c, child), PathOf(c)) && At(Plug(c, child), PathOf(c)) == child
  {
    if c.Inside? {
      GrownAt(c.tree, c.path, c.name, child);
    }
  }

  lemma PlugGrows(c: Context, child: Value, name: string, grandchild: Value)
    requires Fitting(c) && Compound(child)
    requires OnSpine(Plug(c, child), PathOf(c)) && At(Plug(c, child), PathOf(c)) == child
    ensures Grown(Plug(c, child), PathOf(c), name, grandchild) == Plug(c, AddChild(child, name, grandchild))
  {
    if c.Inside? {
      GrownInside(c.tree, c.path, c.name, child, name, grandchild);
    }
  }

  /** r is st with this value; the name last seen does not matter. */
  predicate Became(st: State, r: State, value: Value) {
    r.value == value && r.current == st.current && r.stack == st.stack
  }

  /** Inside an open container, the events of a spelled value add it there and leave the pointers as they were. */
  lemma BuildsInside(t: Spelled, st: State)
    requires Spelling(t) && SpineState(st) && st.current.To? && Compound(At(st.value, st.current.path))
    ensures LegalRun(st, Events(t))
    ensures Became(st, Run(st, Events(t)), Grown(st.value, st.current.path, st.name, ValueOf(t)))
    decreases t
  {
    match t
    case Leaf(_, token) => TokenBuilds(t, st);
    case Node(_, isObj, items, _) =>
      var c := Inside(st.value, st.current.path, st.name);
      BeginEnters(st, isObj);
      var entered := Step(st, BeginEvent(isObj));
      InsidePlug(st, Empty(isObj));
      InsidePlug(st, ValueOf(t));
      BuildsItems(isObj, items, Empty(isObj), c, entered);
      NodeEvents(t);
      hide *;
      var inner := Run(entered, ItemsEvents(isObj, items));
      RunKeepsSpine(entered, ItemsEvents(isObj, items));
      NodeIsFilled(t);
      BecameMeans(entered, inner, Plug(c, ValueOf(t)));
      SpineHolds(st);
      EndFits(st, isObj, ValueOf(t), inner);
      EndReturns(st, isObj, inner);
      BracketedRun(st, BeginEvent(isObj), ItemsEvents(isObj, items), EndEvent(isObj));
      BracketEvents(isObj);
  }

  lemma BracketEvents(isObj: bool)
    ensures BeginEvent(isObj) == (if isObj then BeginObj else BeginArray)
    ensures EndEvent(isObj) == if isObj then EndObj else EndArray
  {
  }

  lemma NodeIsFilled(t: Spelled)
    requires t.Node? && Spelling(t)
    ensures SpellingItems(t.isObj, t.items) && ValueOf(t) == Filled(Empty(t.isObj), t.isObj, t.items)
    ensures Compound(ValueOf(t)) && ValueOf(t).Obj? == t.isObj
  {
  }

  lemma BecameMeans(st: State, r: State, value: Value)
    requires Became(st, r, value)
    ensures r.value == value && r.current == st.current && r.stack == st.stack
  {
  }

  lemma InsidePlug(st: State, child: Value)
    requires SpineState(st) && st.current.To? && Compound(At(st.value, st.current.path))
    ensures var c := Inside(st.value, st.current.path, st.name);
            Fitting(c) && PathOf(c) == Below(st.value, st.current.path) &&
            Plug(c, child) == Grown(st.value, st.current.path, st.name, child)
  {
  }

  lemma TokenBuilds(t: Spelled, st: State)
    requires t.Leaf? && Spelling(t) && SpineState(st)
    requires st.current.To? ==> Compound(At(st.value, st.current.path))
    ensures LegalRun(st, Events(t)) && Run(st, Events(t)) == Added(st, ValueOf(t))
  {
    var event := TokenEvent(t.token);
    LeafEvents(t);
    EventValue(t.token);
    hide TokenEvent, TokenValue, ScalarOf, SpineState, OnSpine, At, Added;
    RunOne(st, event);
  }

  /** The event of a token stands for the token's value. */
  lemma EventValue(token: Token)
    requires Proper(token)
    ensures var event := TokenEvent(token);
            !event.NewName? && !event.BeginObj? && !event.BeginArray? && !event.EndObj? && !event.EndArray? &&
            (event.NewStr? ==> |event.raw| >= 2) && ScalarOf(event) == TokenValue(token)
  {
    if token.Quotation? {
      QuotedGetStr(token.body);
    }
    hide GetStr, Unescaped, IntegerOf, Closed;
  }

  lemma QuotedGetStr(body: string)
    ensures GetStr("\"" + body + "\"") == Unescaped(body)
  {
    var raw := "\"" + body + "\"";
    assert raw[1..|raw| - 1] == body;
    hide Unescaped;
  }

  /** After the opening event, the events of the items fill the container. */
  lemma BuildsItems(isObj: bool, items: seq<Item>, w: Value, c: Context, st: State)
    requires SpellingItems(isObj, items) && Compound(w) && w.Obj? == isObj && SpineState(st) && Fitting(c)
    requires st.current == To(PathOf(c)) && st.value == Plug(c, w)
    ensures LegalRun(st, ItemsEvents(isObj, items))
    ensures Became(st, Run(st, ItemsEvents(isObj, items)), Plug(c, Filled(w, isObj, items)))
    decreases items
  {
    if items == [] {
      hide Plug, SpineState;
    } else {
      ContainerReady(w, c, st);
      assert SpellingItem(isObj, items[0]) && Spelling(items[0].value);
      var item, value := items[0], ValueOf(items[0].value);
      var named := if isObj then st.(name := Unescaped(item.name)) else st;
      NamedReady(st, named);
      BuildsInside(item.value, named);
      hide *;
      var next := Run(named, Events(item.value));
      var more := AddChild(w, Unescaped(item.name), value);
      BuildsNext(w, item, value, c, st, named, next);
      RunKeepsSpine(named, Events(item.value));
      BuildsItems(isObj, items[1..], more, c, next);
      ItemRun(isObj, items, st, named);
      FilledNext(w, isObj, items);
      BecameMore(st, next, Run(next, ItemsEvents(isObj, items[1..])), next.value, Plug(c, Filled(w, isObj, items)));
    }
  }

  lemma FilledNext(w: Value, isObj: bool, items: seq<Item>)
    requires Compound(w) && SpellingItems(isObj, items) && items != [] && Spelling(items[0].value)
    ensures SpellingItems(isObj, items[1..])
    ensures Filled(w, isObj, items) ==
            Filled(AddChild(w, Unescaped(items[0].name), ValueOf(items[0].value)), isObj, items[1..])
  {
  }

  /** The container under construction is the one the current pointer names. */
  lemma ContainerReady(w: Value, c: Context, st: State)
    requires Compound(w) && Fitting(c) && st.current == To(PathOf(c)) && st.value == Plug(c, w)
    ensures st.current.To? && OnSpine(st.value, st.current.path) && At(st.value, st.current.path) == w
  {
    PlugAt(c, w);
  }

  lemma NamedReady(st: State, named: State)
    requires SpineState(st) && st.current.To? && Compound(At(st.value, st.current.path))
    requires named == st.(name := named.name)
    ensures SpineState(named) && named.current.To? && Compound(At(named.value, named.current.path))
  {
  }

  lemma BecameMore(st: State, next: State, r: State, value: Value, final: Value)
    requires next.current == st.current && next.stack == st.stack && Became(next, r, final)
    ensures Became(st, r, final)
  {
  }

  /** One more child in place. */
  lemma BuildsNext(w: Value, item: Item, value: Value, c: Context, st: State, named: State, next: State)
    requires Compound(w) && SpineState(st) && Fitting(c) && st.current == To(PathOf(c)) && st.value == Plug(c, w)
    requires OnSpine(st.value, PathOf(c)) && At(st.value, PathOf(c)) == w
    requires named == st.(name := named.name) && (w.Obj? ==> named.name == Unescaped(item.name))
    requires Became(named, next, Grown(st.value, PathOf(c), named.name, value))
    ensures next.current == st.current && next.stack == st.stack
    ensures next.value == Plug(c, AddChild(w, Unescaped(item.name), value))
  {
    PlugGrows(c, w, named.name, value);
    assert AddChild(w, named.name, value) == AddChild(w, Unescaped(item.name), value);
    hide Plug, Grown, OnSpine, At, Unescaped, SpineState;
  }

  lemma ItemRun(isObj: bool, items: seq<Item>, st: State, named: State)
    requires SpellingItems(isObj, items) && items != [] && SpellingItems(isObj, items[1..])
    requires SpellingItem(isObj, items[0]) && Spelling(items[0].value)
    requires SpineState(st) && st.current.To? && Compound(At(st.value, st.current.path))
    requires At(st.value, st.current.path).Obj? == isObj
    requires named == if isObj then st.(name := Unescaped(items[0].name)) else st
    requires LegalRun(named, Events(items[0].value))
    requires LegalRun(Run(named, Events(items[0].value)), ItemsEvents(isObj, items[1..]))
    ensures LegalRun(st, ItemsEvents(isObj, items))
    ensures Run(st, ItemsEvents(isObj, items))
         == Run(Run(named, Events(items[0].value)), ItemsEvents(isObj, items[1..]))
  {
    hide *;
    var value, rest := Events(items[0].value), ItemsEvents(isObj, items[1..]);
    ItemsEventsNext(isObj, items);
    RunJoins(named, value, rest);
    if isObj {
      var event := NewName("\"" + items[0].name + "\"");
      NameSteps(items[0].name, st);
      RunOne(st, event);
      RunJoins(st, [event], value + rest);
    }
  }

  lemma ItemsEventsNext(isObj: bool, items: seq<Item>)
    requires SpellingItems(isObj, items) && items != [] && SpellingItems(isObj, items[1..])
    requires SpellingItem(isObj, items[0]) && Spelling(items[0].value)
    ensures var more := Events(items[0].value) + ItemsEvents(isObj, items[1..]);
            ItemsEvents(isObj, items) ==
            if isObj then [Event.NewName("\"" + items[0].name + "\"")] + more else more
  {
    hide Events, Spelling, Closed;
  }

  lemma NameSteps(name: string, st: State)
    requires SpineState(st) && st.current.To? && At(st.value, st.current.path).Obj?
    ensures var event := NewName("\"" + name + "\"");
            Legal(st, event) && Step(st, event) == st.(name := Unescaped(name))
  {
    QuotedGetStr(name);
    hide GetStr, SpineState, At, OnSpine;
  }

  /** An event, the events between, and an event. */
  lemma BracketedRun(st: State, first: Event, between: seq<Event>, last: Event)
    requires SpineState(st) && Legal(st, first) && LegalRun(Step(st, first), between)
    requires SpineState(Run(Step(st, first), between)) && Legal(Run(Step(st, first), between), last)
    ensures LegalRun(st, [first] + between + [last])
    ensures Run(st, [first] + between + [last]) == Step(Run(Step(st, first), between), last)
  {
    hide *;
    var entered := Step(st, first);
    var inner := Run(entered, between);
    RunOne(inner, last);
    RunJoins(entered, between, [last]);
    RunOne(st, first);
    RunJoins(st, [first], between + [last]);
    assert [first] + between + [last] == [first] + (between + [last]);
  }

  /** The end of a child gives the pointers back to its parent. */
  lemma EndReturns(st: State, isObj: bool, inner: State)
    requires SpineState(inner) && Legal(inner, EndEvent(isObj))
    requires st.current.To? && inner.current.To? && inner.stack == st.stack + [st.current.path]
    ensures Became(st, Step(inner, EndEvent(isObj)), inner.value)
  {
  }

  /** A completed child may be ended. */
  lemma EndFits(st: State, isObj: bool, child: Value, inner: State)
    requires st.current.To? && OnSpine(st.value, st.current.path) && Compound(At(st.value, st.current.path))
    requires Compound(child) && child.Obj? == isObj
    requires inner.current == To(Below(st.value, st.current.path))
    requires inner.value == Grown(st.value, st.current.path, st.name, child)
    ensures OnSpine(inner.value, inner.current.path) && Legal(inner, EndEvent(isObj))
  {
    hide *;
    GrownAt(st.value, st.current.path, st.name, child);
    EndIsLegal(inner, isObj, child);
  }

  lemma EndIsLegal(st: State, isObj: bool, child: Value)
    requires st.current.To? && OnSpine(st.value, st.current.path) && At(st.value, st.current.path) == child
    requires Compound(child) && child.Obj? == isObj
    ensures Legal(st, EndEvent(isObj))
  {
  }

  lemma SpineHolds(st: State)
    requires SpineState(st) && st.current.To?
    ensures OnSpine(st.value, st.current.path)
  {
  }

  lemma BeginEnters(st: State, isObj: bool)
    requires SpineState(st) && st.current.To? && Compound(At(st.value, st.current.path))
    ensures Legal(st, BeginEvent(isObj))
    ensures Step(st, BeginEvent(isObj)).current == To(Below(st.value, st.current.path))
    ensures Step(st, BeginEvent(isObj)).stack == st.stack + [st.current.path]
    ensures Step(st, BeginEvent(isObj)).value == Grown(st.value, st.current.path, st.name, Empty(isObj))
    ensures SpineState(Step(st, BeginEvent(isObj)))
  {
    StepKeepsSpine(st, BeginEvent(isObj));
    hide Grown, OnSpine, At, SpineState;
  }

  // ---------------------------------------------------------------- the builder itself

  class SemanticActions {
    var value: Value
    var current: Pointer
    var stack: seq<Path>
    var name: string

    constructor (value: Value)
      ensures Machine() == Start(value)
    {
      this.value, current, stack, name := value, NullPointer, [], "";
    }

    function Machine(): State
      reads this
    {
      State(value, current, stack, name)
    }

    method BeginObj()
      requires SpineState(Machine()) && Legal(Machine(), Event.BeginObj)
      modifies this
      ensures Machine() == Step(old(Machine()), Event.BeginObj)
    {
      BeginCompound(Obj([]));
    }

    method EndObj()
      requires SpineState(Machine()) && Legal(Machine(), Event.EndObj)
      modifies this
      ensures Machine() == Step(old(Machine()), Event.EndObj)
    {
      EndCompound();
    }

    method BeginArray()
      requires SpineState(Machine()) && Legal(Machine(), Event.BeginArray)
      modifies this
      ensures Machine() == Step(old(Machine()), Event.BeginArray)
    {
      BeginCompound(Arr([]));
    }

    method EndArray()
      requires SpineState(Machine()) && Legal(Machine(), Event.EndArray)
      modifies this
      ensures Machine() == Step(old(Machine()), Event.EndArray)
    {
      EndCompound();
    }

    method NewName(raw: string)
      requires SpineState(Machine()) && Legal(Machine(), Event.NewName(raw))
      modifies this
      ensures Machine() == Step(old(Machine()), Event.NewName(raw))
    {
      name := SubstituteEscChars(raw[1..|raw| - 1]);
    }

    method NewStr(raw: string)
      requires SpineState(Machine()) && Legal(Machine(), Event.NewStr(raw))
      modifies this
      ensures Machine() == Step(old(Machine()), Event.NewStr(raw))
    {
      var s := SubstituteEscChars(raw[1..|raw| - 1]);
      var _ := AddToCurrent(Str(s));
    }

    /** true, false, null and the numbers. */
    method NewScalar(event: Event)
      requires event.NewTrue? || event.NewFalse? || event.NewNull? || event.NewInt? || event.NewUInt64? ||
               event.NewReal?
      requires SpineState(Machine()) && Legal(Machine(), event)
      modifies this
      ensures Machine() == Step(old(Machine()), event)
    {
      var _ := AddToCurrent(ScalarOf(event));
    }

    /** The action of an event. */
    method Act(event: Event)
      requires SpineState(Machine()) && Legal(Machine(), event)
      modifies this
      ensures Machine() == Step(old(Machine()), event)
    {
      match event
      case BeginObj => BeginObj();
      case EndObj => EndObj();
      case BeginArray => BeginArray();
      case EndArray => EndArray();
      case NewName(raw) => NewName(raw);
      case NewStr(raw) => NewStr(raw);
      case _ => NewScalar(event);
    }

    method BeginCompound(empty: Value)
      requires SpineState(Machine()) && (current.To? ==> Compound(At(value, current.path)))
      modifies this
      ensures Machine() == Begun(old(Machine()), empty)
    {
      if current.NullPointer? {
        var _ := AddToCurrent(empty);
      } else {
        stack := stack + [current.path];
        var added := AddToCurrent(empty);
        current := To(added);
      }
    }

    method EndCompound()
      requires SpineState(Machine()) && current.To?
      modifies this
      ensures Machine() == Ended(old(Machine()))
    {
      if current.path != [] {
        current := To(stack[|stack| - 1]);
        stack := stack[..|stack| - 1];
      }
    }

    /** Adds a child to the current container, or makes it the whole value, and returns a pointer to it. */
    method AddToCurrent(child: Value) returns (added: Path)
      requires current.To? ==> OnSpine(value, current.path) && Compound(At(value, current.path))
      modifies this
      ensures Machine() == Added(old(Machine()), child)
      ensures OnSpine(value, added) && At(value, added) == child
      ensures added == if old(current).To? then Below(old(value), old(current).path) else []
    {
      if current.NullPointer? {
        value := child;
        current := To([]);
        added := [];
      } else {
        GrownAt(value, current.path, name, child);
        added := Below(value, current.path);
        value := Grown(value, current.path, name, child);
      }
    }
  }

  /** Before the first event. */
  function Start(value: Value): State {
    State(value, NullPointer, [], "")
  }

  /** The events of a spelled value, from the start, build that value. */
  lemma BuildsRoot(t: Spelled, before: Value)
    requires Spelling(t)
    ensures LegalRun(Start(before), Events(t)) && Run(Start(before), Events(t)).value == ValueOf(t)
  {
    var st := Start(before);
    match t
    case Leaf(_, token) => TokenBuilds(t, st);
    case Node(_, isObj, items, _) =>
      var entered := Step(st, BeginEvent(isObj));
      StepKeepsSpine(st, BeginEvent(isObj));
      BuildsItems(isObj, items, Empty(isObj), Root, entered);
      NodeIsFilled(t);
      NodeEvents(t);
      hide Filled, ItemsEvents, Events, LegalRun, Run;
      var inner := Run(entered, ItemsEvents(isObj, items));
      RunKeepsSpine(entered, ItemsEvents(isObj, items));
      EndIsLegal(inner, isObj, ValueOf(t));
      BracketedRun(st, BeginEvent(isObj), ItemsEvents(isObj, items), EndEvent(isObj));
  }
}
