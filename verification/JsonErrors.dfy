/**
 Texts that are not read: how far the reader got, the events fired until then, and the reason it gives.
 */
module JsonErrors {
  import opened JsonText
  import opened JsonReader
  import opened JsonTokens
  import opened JsonSpelling

  /** A container that breaks off: behind whole items, and from the second item on a comma, it is cut. */
  datatype Broken = Broken(before: string, isObj: bool, items: seq<Item>, beforeComma: string, cut: Cut)

  /** Where: at the closing bracket, behind a name, behind a colon, or inside an item. */
  datatype Cut = AtBracket | AtColon(beforeName: string, name: string)
               | AtValue(beforeName: string, name: string, beforeColon: string)
               | Within(beforeName: string, name: string, beforeColon: string, inner: Broken)

  predicate ProperBroken(b: Broken)
    decreases b
  {
    White(b.before) && SpellingItems(b.isObj, b.items) && White(b.beforeComma) && ProperCut(b.isObj, b.cut)
  }

  predicate ProperCut(isObj: bool, cut: Cut)
    decreases cut
  {
    match cut
    case AtBracket => true
    case AtColon(beforeName, name) => isObj && White(beforeName) && Closed(name)
    case AtValue(beforeName, name, beforeColon) => isObj && White(beforeName) && Closed(name) && White(beforeColon)
    case Within(beforeName, name, beforeColon, inner) =>
      (isObj ==> White(beforeName) && Closed(name) && White(beforeColon)) && ProperBroken(inner)
  }

  function BrokenText(b: Broken): string
    decreases b
  {
    b.before + ((if b.isObj then "{" else "[") +
                (ItemsText(b.isObj, b.items) + (Lead(b) + CutText(b.isObj, b.cut))))
  }

  /** The comma before the item that is cut. */
  function Lead(b: Broken): string {
    if b.items == [] || b.cut.AtBracket? then "" else b.beforeComma + ","
  }

  function CutText(isObj: bool, cut: Cut): string
    decreases cut
  {
    match cut
    case AtBracket => ""
    case AtColon(beforeName, name) => beforeName + ("\"" + name + "\"")
    case AtValue(beforeName, name, beforeColon) => beforeName + ("\"" + name + "\"" + (beforeColon + ":"))
    case Within(beforeName, name, beforeColon, inner) =>
      if isObj then beforeName + ("\"" + name + "\"" + (beforeColon + (":" + BrokenText(inner)))) else BrokenText(inner)
  }

  function BrokenEvents(b: Broken): seq<Event>
    requires ProperBroken(b)
    decreases b
  {
    [if b.isObj then BeginObj else BeginArray] + (ItemsEvents(b.isObj, b.items) + CutEvents(b.isObj, b.cut))
  }

  function CutEvents(isObj: bool, cut: Cut): seq<Event>
    requires ProperCut(isObj, cut)
    decreases cut
  {
    match cut
    case AtBracket => []
    case AtColon(_, name) => [NewName("\"" + name + "\"")]
    case AtValue(_, name, _) => [NewName("\"" + name + "\"")]
    case Within(_, name, _, inner) =>
      if isObj then [NewName("\"" + name + "\"")] + BrokenEvents(inner) else BrokenEvents(inner)
  }

  function Reason(isObj: bool, cut: Cut): string
    decreases cut
  {
    match cut
    case AtBracket => if isObj then "not an object" else "not an array"
    case AtColon(_, _) => "no colon in pair"
    case AtValue(_, _, _) => "not a value"
    case Within(_, _, _, inner) => Reason(inner.isObj, inner.cut)
  }

  // ---------------------------------------------------------------- why it goes no further

  /** Behind its white space the text does not begin with c. */
  ghost predicate Missing(s: string, c: char) {
    forall n :: 0 <= n < |s| && White(s[..n]) ==> s[n] != c
  }

  /** The text does not begin with a value. */
  ghost predicate NoValue(s: string) {
    forall t, tail :: !Begins(s, t, tail)
  }

  ghost predicate Stuck(isObj: bool, cut: Cut, rest: string)
    decreases cut
  {
    match cut
    case AtBracket => Missing(rest, if isObj then '}' else ']')
    case AtColon(_, _) => Missing(rest, ':')
    case AtValue(_, _, _) => NoValue(rest)
    case Within(_, _, _, inner) => Stuck(inner.isObj, inner.cut, rest)
  }

  lemma WhitePrefix(s: string, n: nat, m: nat)
    requires n <= |s| && White(s[..n])
    ensures m < n ==> WhiteCharacter(s[m])
  {
    assert m < n ==> s[..n][m] == s[m];
  }

  lemma IsMissing(s: string, c: char)
    requires !WhiteCharacter(c) && (Skip(s) == "" || Skip(s)[0] != c)
    ensures Missing(s, c)
  {
    var ws := Skipped(s);
    assert Skip(s) != "" ==> s[|ws|] == Skip(s)[0] && !WhiteCharacter(s[|ws|]);
    hide Skip;
    forall n | 0 <= n < |s| && White(s[..n]) ensures s[n] != c {
      WhitePrefix(s, n, |ws|);
      assert n < |ws| ==> s[n] == ws[n];
    }
  }

  lemma IsNoValue(s: string)
    requires ParseValue(s).NoMatch?
    ensures NoValue(s)
  {
    forall t, tail ensures !Begins(s, t, tail) {
      if Begins(s, t, tail) {
        ReadsValue(t, tail);
      }
    }
  }

  // ---------------------------------------------------------------- the rules

  /** A rule that gives up has read a broken container and is stuck behind it. */
  lemma ValueBroken(s: string) returns (b: Broken, rest: string)
    requires ParseValue(s).Throw?
    ensures ProperBroken(b) && s == BrokenText(b) + rest && Stuck(b.isObj, b.cut, rest)
    ensures ParseValue(s) == Throw(BrokenEvents(b), Reason(b.isObj, b.cut))
    decreases |s|, 0
  {
    hide *;
    var ws := Skipped(s);
    var w := Skip(s);
    ThrownByCompound(s);
    OpensCompound(s);
    b, rest := CompoundBroken(w[0] == '{', w[1..]);
    BeforeBracket(b, ws, rest);
    b := b.(before := ws);
  }

  lemma ThrownByCompound(s: string)
    requires ParseValue(s).Throw?
    ensures Skip(s) != "" && (Skip(s)[0] == '{' || Skip(s)[0] == '[')
  {
    hide ParseCompound, Skip;
  }

  lemma BeforeBracket(b: Broken, ws: string, rest: string)
    requires ProperBroken(b) && b.before == "" && White(ws)
    ensures var c := b.(before := ws);
            ProperBroken(c) && BrokenEvents(c) == BrokenEvents(b) && ws + (BrokenText(b) + rest) == BrokenText(c) + rest
  {
    hide ItemsText, CutText, SpellingItems, ProperCut, ItemsEvents, CutEvents;
    assert Lead(b.(before := ws)) == Lead(b);
    hide Lead;
  }

  lemma CompoundBroken(isObj: bool, s: string) returns (b: Broken, rest: string)
    requires ParseCompound(isObj, s).Throw?
    ensures ProperBroken(b) && b.before == "" && b.isObj == isObj && Stuck(isObj, b.cut, rest)
    ensures (if isObj then "{" else "[") + s == BrokenText(b) + rest
    ensures ParseCompound(isObj, s) == Throw(BrokenEvents(b), Reason(isObj, b.cut))
    decreases |s|, 3
  {
    hide *;
    ThrownParts(isObj, s);
    if ParseItems(isObj, s).Throw? {
      var items, comma, cut;
      items, comma, cut, rest := ItemsBroken(isObj, s);
      b := Broken("", isObj, items, comma, cut);
      BrokenIs(b, rest);
    } else {
      b, rest := BracketMissing(isObj, s);
    }
  }

  lemma BracketMissing(isObj: bool, s: string) returns (b: Broken, rest: string)
    requires ParseCompound(isObj, s).Throw? && ParseItems(isObj, s).Match?
    ensures ProperBroken(b) && b.before == "" && b.isObj == isObj && Stuck(isObj, b.cut, rest)
    ensures (if isObj then "{" else "[") + s == BrokenText(b) + rest
    ensures ParseCompound(isObj, s) == Throw(BrokenEvents(b), Reason(isObj, b.cut))
  {
    assert !WhiteCharacter('}') && !WhiteCharacter(']');
    hide *;
    ThrownParts(isObj, s);
    var items := ItemsSpelled(isObj, s);
    rest := ParseItems(isObj, s).rest;
    b := Broken("", isObj, items, "", AtBracket);
    IsMissing(rest, if isObj then '}' else ']');
    AtBracketIs(b, rest);
  }

  lemma AtBracketIs(b: Broken, rest: string)
    requires b == Broken("", b.isObj, b.items, "", AtBracket) && SpellingItems(b.isObj, b.items)
    ensures ProperBroken(b)
    ensures BrokenEvents(b) == [if b.isObj then BeginObj else BeginArray] + ItemsEvents(b.isObj, b.items)
    ensures BrokenText(b) + rest == (if b.isObj then "{" else "[") + (ItemsText(b.isObj, b.items) + rest)
    ensures Missing(rest, if b.isObj then '}' else ']') ==> Stuck(b.isObj, b.cut, rest)
    ensures Reason(b.isObj, b.cut) == if b.isObj then "not an object" else "not an array"
  {
    hide ItemsText, SpellingItems, ItemsEvents, Missing;
    assert CutText(b.isObj, b.cut) == "" && CutEvents(b.isObj, b.cut) == [];
    assert "" + ("" + rest) == rest;
    BrokenIs(b, rest);
  }

  lemma ThrownParts(isObj: bool, s: string)
    requires ParseCompound(isObj, s).Throw?
    ensures var items, whole := ParseItems(isObj, s), ParseCompound(isObj, s);
            whole.events == [if isObj then BeginObj else BeginArray] + items.events &&
            if items.Throw? then whole.reason == items.reason
            else
              items.Match? && whole.reason == (if isObj then "not an object" else "not an array") &&
              (Skip(items.rest) == "" || Skip(items.rest)[0] != if isObj then '}' else ']')
  {
    hide ParseItems, Skip;
  }

  lemma LeadIs(b: Broken)
    ensures Lead(b) == if b.items == [] || b.cut.AtBracket? then "" else b.beforeComma + ","
  {
  }

  lemma BrokenShape(open: string, items: string, lead: string, cut: string, rest: string)
    ensures "" + (open + (items + (lead + cut))) + rest == open + (items + (lead + (cut + rest)))
  {
  }

  lemma BrokenIs(b: Broken, rest: string)
    requires b.before == "" && SpellingItems(b.isObj, b.items) && White(b.beforeComma) && ProperCut(b.isObj, b.cut)
    ensures ProperBroken(b)
    ensures BrokenEvents(b) ==
            [if b.isObj then BeginObj else BeginArray] + (ItemsEvents(b.isObj, b.items) + CutEvents(b.isObj, b.cut))
    ensures BrokenText(b) + rest == (if b.isObj then "{" else "[") +
            (ItemsText(b.isObj, b.items) + ((if b.items == [] || b.cut.AtBracket? then "" else b.beforeComma + ",") +
             (CutText(b.isObj, b.cut) + rest)))
  {
    assert White("");
    hide ItemsText, CutText, SpellingItems, ProperCut, ItemsEvents, CutEvents, Lead;
    LeadIs(b);
    BrokenShape(if b.isObj then "{" else "[", ItemsText(b.isObj, b.items), Lead(b), CutText(b.isObj, b.cut), rest);
  }

  lemma ThrownItems(isObj: bool, s: string)
    requires ParseItems(isObj, s).Throw?
    ensures var first := ParseItem(isObj, s);
            if first.Match? then
              var more := ParseMore(isObj, first.rest);
              more.Throw? && ParseItems(isObj, s) == Throw(first.events + more.events, more.reason)
            else first.Throw? && ParseItems(isObj, s) == first
  {
    hide ParseItem, ParseMore;
  }

  lemma ThrownMore(isObj: bool, s: string)
    requires ParseMore(isObj, s).Throw?
    ensures var t := Skip(s);
            t != "" && t == "," + t[1..] &&
            var next := ParseItem(isObj, t[1..]);
            if next.Match? then
              var more := ParseMore(isObj, next.rest);
              more.Throw? && ParseMore(isObj, s) == Throw(next.events + more.events, more.reason)
            else next.Throw? && ParseMore(isObj, s) == next
  {
    hide ParseItem, Skip;
  }

  lemma JoinEvents(a: seq<Event>, b: seq<Event>, c: seq<Event>)
    ensures a + (b + c) == (a + b) + c
  {
  }

  lemma NoItemsBefore(isObj: bool, rest: string, events: seq<Event>)
    ensures SpellingItems(isObj, []) && White("")
    ensures ItemsText(isObj, []) + ("" + rest) == rest && MoreText(isObj, []) + rest == rest
    ensures ItemsEvents(isObj, []) + events == events
  {
  }

  lemma ItemsBroken(isObj: bool, s: string) returns (items: seq<Item>, comma: string, cut: Cut, rest: string)
    requires ParseItems(isObj, s).Throw?
    ensures SpellingItems(isObj, items) && White(comma) && ProperCut(isObj, cut) && !cut.AtBracket?
    ensures s == ItemsText(isObj, items) + ((if items == [] then "" else comma + ",") + (CutText(isObj, cut) + rest))
    ensures ParseItems(isObj, s) == Throw(ItemsEvents(isObj, items) + CutEvents(isObj, cut), Reason(isObj, cut))
    ensures Stuck(isObj, cut, rest)
    decreases |s|, 2
  {
    hide *;
    var first := ParseItem(isObj, s);
    ThrownItems(isObj, s);
    if first.Match? {
      var item := ItemSpelled(isObj, s);
      var others;
      others, comma, cut, rest := MoreBroken(isObj, first.rest);
      items := [item] + others;
      OneItemMore(isObj, item, others, comma + "," + (CutText(isObj, cut) + rest));
      JoinEvents(first.events, ItemsEvents(isObj, others), CutEvents(isObj, cut));
    } else {
      items, comma := [], "";
      cut, rest := ItemBroken(isObj, s);
      NoItemsBefore(isObj, CutText(isObj, cut) + rest, CutEvents(isObj, cut));
    }
  }

  lemma MoreBroken(isObj: bool, s: string) returns (items: seq<Item>, comma: string, cut: Cut, rest: string)
    requires ParseMore(isObj, s).Throw?
    ensures SpellingItems(isObj, items) && White(comma) && ProperCut(isObj, cut) && !cut.AtBracket?
    ensures s == MoreText(isObj, items) + (comma + "," + (CutText(isObj, cut) + rest))
    ensures ParseMore(isObj, s) == Throw(ItemsEvents(isObj, items) + CutEvents(isObj, cut), Reason(isObj, cut))
    ensures Stuck(isObj, cut, rest)
    decreases |s|, 0
  {
    hide *;
    var ws := Skipped(s);
    var w := Skip(s);
    ThrownMore(isObj, s);
    var next := ParseItem(isObj, w[1..]);
    if next.Match? {
      var item := ItemSpelled(isObj, w[1..]);
      WithComma(isObj, item, ws);
      item := item.(beforeComma := ws);
      var others;
      others, comma, cut, rest := MoreBroken(isObj, next.rest);
      items := [item] + others;
      OneItemMore(isObj, item, others, comma + "," + (CutText(isObj, cut) + rest));
      JoinEvents(next.events, ItemsEvents(isObj, others), CutEvents(isObj, cut));
    } else {
      items, comma := [], ws;
      cut, rest := ItemBroken(isObj, w[1..]);
      NoItemsBefore(isObj, comma + "," + (CutText(isObj, cut) + rest), CutEvents(isObj, cut));
      Reassociate(comma, ",", CutText(isObj, cut) + rest);
    }
  }

  lemma ItemBroken(isObj: bool, s: string) returns (cut: Cut, rest: string)
    requires ParseItem(isObj, s).Throw?
    ensures ProperCut(isObj, cut) && !cut.AtBracket? && s == CutText(isObj, cut) + rest && Stuck(isObj, cut, rest)
    ensures ParseItem(isObj, s) == Throw(CutEvents(isObj, cut), Reason(isObj, cut))
    decreases |s|, 1
  {
    if isObj {
      cut, rest := MemberBroken(s);
    } else {
      var inner;
      inner, rest := ValueBroken(s);
      cut := Within("", "", "", inner);
      hide ParseValue, ProperBroken, BrokenText, BrokenEvents;
    }
  }

  lemma MemberBroken(s: string) returns (cut: Cut, rest: string)
    requires ParseItem(true, s).Throw?
    ensures ProperCut(true, cut) && !cut.AtBracket? && s == CutText(true, cut) + rest && Stuck(true, cut, rest)
    ensures ParseItem(true, s) == Throw(CutEvents(true, cut), Reason(true, cut))
    decreases |s|, 0
  {
    assert !WhiteCharacter(':');
    hide *;
    ThrownMember(s);
    var beforeName := Skipped(s);
    var name, after := NameSplit(Skip(s));
    var w := Skip(after);
    if w != "" && w[0] == ':' {
      assert w == ":" + w[1..];
      var beforeColon := Skipped(after);
      if ParseValue(w[1..]).NoMatch? {
        cut, rest := AtValue(beforeName, name, beforeColon), w[1..];
        IsNoValue(rest);
      } else {
        var inner;
        inner, rest := ValueBroken(w[1..]);
        cut := Within(beforeName, name, beforeColon, inner);
      }
    } else {
      cut, rest := AtColon(beforeName, name), after;
      IsMissing(rest, ':');
    }
    CutIs(cut, rest);
  }

  lemma ThrownMember(s: string)
    requires ParseItem(true, s).Throw?
    ensures var name, whole := ParseString(Skip(s), true), ParseItem(true, s);
            name.Match? &&
            var t := Skip(name.rest);
            if t == "" || t[0] != ':' then whole == Throw(name.events, "no colon in pair")
            else
              var value := ParseValue(t[1..]);
              |t[1..]| < |s| && !value.Match? &&
              whole == if value.NoMatch? then Throw(name.events, "not a value")
                       else Throw(name.events + value.events, value.reason)
  {
    hide ParseValue, Skip;
  }

  lemma MemberCut(cut: Cut, rest: string)
    requires !cut.AtBracket?
    ensures CutText(true, cut) + rest ==
            cut.beforeName + ("\"" + cut.name + "\"" +
            (if cut.AtColon? then rest
             else cut.beforeColon + (":" + (if cut.AtValue? then rest else BrokenText(cut.inner) + rest))))
  {
    hide BrokenText;
  }

  lemma CutIs(cut: Cut, rest: string)
    requires !cut.AtBracket? && White(cut.beforeName) && Closed(cut.name)
    requires !cut.AtColon? ==> White(cut.beforeColon)
    requires cut.Within? ==> ProperBroken(cut.inner)
    ensures ProperCut(true, cut)
    ensures CutText(true, cut) + rest ==
            cut.beforeName + ("\"" + cut.name + "\"" +
            (if cut.AtColon? then rest
             else cut.beforeColon + (":" + (if cut.AtValue? then rest else BrokenText(cut.inner) + rest))))
    ensures CutEvents(true, cut) ==
            [NewName("\"" + cut.name + "\"")] + if cut.Within? then BrokenEvents(cut.inner) else []
    ensures Reason(true, cut) == if cut.AtColon? then "no colon in pair" else if cut.AtValue? then "not a value"
                                 else Reason(cut.inner.isObj, cut.inner.cut)
    ensures Stuck(true, cut, rest) <==>
            if cut.AtColon? then Missing(rest, ':') else if cut.AtValue? then NoValue(rest)
            else Stuck(cut.inner.isObj, cut.inner.cut, rest)
  {
    hide Closed, White, ProperBroken, BrokenText, BrokenEvents, Missing, NoValue;
    MemberCut(cut, rest);
  }

  // ---------------------------------------------------------------- whole texts

  /** A text is given up either because no value begins it, or in a broken container: the reader has fired the events of
      what it has read of that, and gives the reason for which it is stuck there. */
  ghost predicate GivenUp(s: string, events: seq<Event>, reason: string) {
    (NoValue(s) && events == [] && reason == "not a value") ||
    exists b, rest ::
      ProperBroken(b) && s == BrokenText(b) + rest && Stuck(b.isObj, b.cut, rest) &&
      events == BrokenEvents(b) && reason == Reason(b.isObj, b.cut)
  }

  lemma TextBroken(s: string)
    requires ParseJson(s).Throw?
    ensures GivenUp(s, ParseJson(s).events, ParseJson(s).reason)
  {
    if ParseValue(s).NoMatch? {
      IsNoValue(s);
    } else {
      var b, rest := ValueBroken(s);
    }
    hide ParseValue, BrokenText, ProperBroken, Stuck, NoValue, BrokenEvents, Reason;
  }
}
