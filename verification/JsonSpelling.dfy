/**
 Texts with arbitrary white space between their tokens, and that the reader accepts exactly these: the events fired
 and the text left are those of the spelling.
 */
module JsonSpelling {
  import opened JsonText
  import opened JsonReader
  import opened JsonTokens

  /** A value as it stands in a text, white space included: before its first token, and before a closing bracket. */
  datatype Spelled = Leaf(before: string, token: Token)
                   | Node(before: string, isObj: bool, items: seq<Item>, last: string)

  /** An element, or a member with the text of its name between the quotes, and the white space before the comma that
      precedes it (not before the first item), before the name, and before the colon. */
  datatype Item = Item(beforeComma: string, beforeName: string, name: string, beforeColon: string, value: Spelled)

  predicate Spelling(t: Spelled)
    decreases t
  {
    White(t.before) &&
    match t
    case Leaf(_, token) => Proper(token)
    case Node(_, isObj, items, last) => White(last) && SpellingItems(isObj, items)
  }

  predicate SpellingItems(isObj: bool, items: seq<Item>)
    decreases items
  {
    items == [] || (SpellingItem(isObj, items[0]) && SpellingItems(isObj, items[1..]))
  }

  predicate SpellingItem(isObj: bool, item: Item)
    decreases item
  {
    White(item.beforeComma) && (isObj ==> White(item.beforeName) && Closed(item.name) && White(item.beforeColon)) &&
    Spelling(item.value)
  }

  // ---------------------------------------------------------------- the text

  function Text(t: Spelled): string
    decreases t
  {
    match t
    case Leaf(before, token) => before + TokenText(token)
    case Node(before, isObj, items, last) =>
      before + ((if isObj then "{" else "[") + (ItemsText(isObj, items) + (last + (if isObj then "}" else "]"))))
  }

  function ItemsText(isObj: bool, items: seq<Item>): string
    decreases items, 1
  {
    if items == [] then "" else ItemText(isObj, items[0]) + MoreText(isObj, items[1..])
  }

  /** Each item after its comma. */
  function MoreText(isObj: bool, items: seq<Item>): string
    decreases items
  {
    if items == [] then ""
    else items[0].beforeComma + ("," + (ItemText(isObj, items[0]) + MoreText(isObj, items[1..])))
  }

  function ItemText(isObj: bool, item: Item): string
    decreases item
  {
    if isObj then
      item.beforeName + ("\"" + item.name + "\"" + (item.beforeColon + (":" + Text(item.value))))
    else Text(item.value)
  }

  // ---------------------------------------------------------------- the events

  function Events(t: Spelled): seq<Event>
    requires Spelling(t)
    decreases t
  {
    match t
    case Leaf(_, token) => [TokenEvent(token)]
    case Node(_, isObj, items, _) =>
      [if isObj then BeginObj else BeginArray] + ItemsEvents(isObj, items) + [if isObj then EndObj else EndArray]
  }

  function ItemsEvents(isObj: bool, items: seq<Item>): seq<Event>
    requires SpellingItems(isObj, items)
    decreases items
  {
    if items == [] then [] else ItemEvents(isObj, items[0]) + ItemsEvents(isObj, items[1..])
  }

  function ItemEvents(isObj: bool, item: Item): seq<Event>
    requires SpellingItem(isObj, item)
    decreases item
  {
    if isObj then [NewName("\"" + item.name + "\"")] + Events(item.value) else Events(item.value)
  }

  // ---------------------------------------------------------------- a spelling is read

  /** Behind the items comes, after white space, a closing bracket. */
  predicate Closes(s: string) {
    Ends(s) && Skip(s) != "" && (Skip(s)[0] == '}' || Skip(s)[0] == ']')
  }

  lemma LastCloses(last: string, bracket: string, tail: string)
    requires White(last) && (bracket == "}" || bracket == "]")
    ensures Closes(last + (bracket + tail)) && Skip(last + (bracket + tail)) == bracket + tail
  {
    SkipWhite(last, bracket + tail);
  }

  /** More items and a closing bracket do not continue a number. */
  lemma MoreEnds(isObj: bool, items: seq<Item>, closing: string)
    requires SpellingItems(isObj, items) && Closes(closing)
    ensures Ends(MoreText(isObj, items) + closing)
  {
    hide ItemText, Skip, Closed;
    if items == [] {
      assert "" + closing == closing;
    } else {
      var ws := items[0].beforeComma;
      var s := MoreText(isObj, items) + closing;
      assert ws == "" ==> s[0] == ',';
      assert ws != "" ==> s[0] == ws[0];
    }
  }

  /** A spelled value is read whole: its events are fired and what stands behind it is left. Only a number standing
      alone must be complete in front of that. */
  lemma ReadsValue(t: Spelled, tail: string)
    requires Spelling(t) && (t.Leaf? ==> Complete(t.token, tail))
    ensures ParseValue(Text(t) + tail) == Match(Events(t), tail)
    decreases t, 1
  {
    match t
    case Leaf(before, token) =>
      TokenStarts(token);
      hide *;
      LeafText(t, tail);
      assert Starts(TokenText(token) + tail) by { StartsBefore(TokenText(token), tail); }
      SkipWhite(before, TokenText(token) + tail);
      ReadsToken(token, Text(t) + tail, tail);
      LeafEvents(t);
    case Node(before, isObj, items, last) =>
      var closing := last + ((if isObj then "}" else "]") + tail);
      LastCloses(last, if isObj then "}" else "]", tail);
      ReadsItems(isObj, items, closing);
      hide *;
      NodeReads(t, tail, closing);
  }

  lemma StartsBefore(s: string, tail: string)
    requires Starts(s)
    ensures Starts(s + tail)
  {
  }

  lemma LeafText(t: Spelled, tail: string)
    requires t.Leaf?
    ensures Text(t) + tail == t.before + (TokenText(t.token) + tail)
  {
    hide TokenText;
  }

  lemma LeafEvents(t: Spelled)
    requires t.Leaf? && Spelling(t)
    ensures White(t.before) && Proper(t.token) && Events(t) == [TokenEvent(t.token)]
  {
  }

  lemma BracketStarts(open: string, body: string)
    requires open == "{" || open == "["
    ensures Starts(open + body) && (open + body)[0] == open[0]
  {
  }

  lemma NodeReads(t: Spelled, tail: string, closing: string)
    requires t.Node? && Spelling(t) && SpellingItems(t.isObj, t.items)
    requires closing == t.last + ((if t.isObj then "}" else "]") + tail)
    requires Skip(closing) == (if t.isObj then "}" else "]") + tail
    requires ParseItems(t.isObj, ItemsText(t.isObj, t.items) + closing) ==
             Match(ItemsEvents(t.isObj, t.items), closing)
    ensures ParseValue(Text(t) + tail) == Match(Events(t), tail)
  {
    var open, body := if t.isObj then "{" else "[", ItemsText(t.isObj, t.items) + closing;
    assert White(t.before);
    NodeText(t, tail, closing);
    NodeEvents(t);
    hide *;
    BracketStarts(open, body);
    SkipWhite(t.before, open + body);
    OpensCompound(Text(t) + tail);
    assert (open + body)[1..] == body;
    CompoundReads(t.isObj, body, ItemsEvents(t.isObj, t.items), closing, tail);
  }

  lemma CompoundReads(isObj: bool, body: string, events: seq<Event>, closing: string, tail: string)
    requires ParseItems(isObj, body) == Match(events, closing)
    requires Skip(closing) == (if isObj then "}" else "]") + tail
    ensures ParseCompound(isObj, body) ==
            Match([if isObj then BeginObj else BeginArray] + events + [if isObj then EndObj else EndArray], tail)
  {
    assert Skip(closing)[1..] == tail;
    hide ParseItems, Skip;
  }

  lemma NodeText(t: Spelled, tail: string, closing: string)
    requires t.Node? && closing == t.last + ((if t.isObj then "}" else "]") + tail)
    ensures Text(t) + tail == t.before + ((if t.isObj then "{" else "[") + (ItemsText(t.isObj, t.items) + closing))
  {
    hide ItemsText;
  }

  lemma NodeEvents(t: Spelled)
    requires t.Node? && Spelling(t)
    ensures Events(t) == [if t.isObj then BeginObj else BeginArray] + ItemsEvents(t.isObj, t.items) +
            [if t.isObj then EndObj else EndArray]
  {
  }

  lemma ReadsItems(isObj: bool, items: seq<Item>, closing: string)
    requires SpellingItems(isObj, items) && Closes(closing)
    ensures ParseItems(isObj, ItemsText(isObj, items) + closing) == Match(ItemsEvents(isObj, items), closing)
    decreases items, 2
  {
    if items == [] {
      NoItem(isObj, closing);
      assert "" + closing == closing;
    } else {
      var item, more := items[0], MoreText(isObj, items[1..]);
      MoreEnds(isObj, items[1..], closing);
      ReadsItem(isObj, item, more + closing);
      ReadsMore(isObj, items[1..], closing);
      hide *;
      FirstItem(isObj, items, closing);
      FirstMatched(isObj, ItemText(isObj, item) + (more + closing));
    }
  }

  lemma FirstItem(isObj: bool, items: seq<Item>, closing: string)
    requires SpellingItems(isObj, items) && items != []
    ensures SpellingItem(isObj, items[0]) && SpellingItems(isObj, items[1..])
    ensures ItemsText(isObj, items) + closing
         == ItemText(isObj, items[0]) + (MoreText(isObj, items[1..]) + closing)
    ensures ItemsEvents(isObj, items) == ItemEvents(isObj, items[0]) + ItemsEvents(isObj, items[1..])
  {
    hide ItemText, MoreText, ItemEvents, SpellingItem;
  }

  lemma FirstMatched(isObj: bool, s: string)
    requires ParseItem(isObj, s).Match?
    ensures var first := ParseItem(isObj, s);
            ParseItems(isObj, s) == Prefixed(first.events, ParseMore(isObj, first.rest)) &&
            forall events, rest :: Prefixed(first.events, Match(events, rest)) == Match(first.events + events, rest)
  {
    hide ParseItem, ParseMore;
  }

  lemma NoItem(isObj: bool, s: string)
    requires Closes(s)
    ensures ParseItem(isObj, s) == NoMatch && ParseItems(isObj, s) == Match([], s)
  {
    var t := Skip(s);
    assert !("true" <= t) && !("false" <= t) && !("null" <= t);
    assert ParseString(t, true) == NoMatch;
    hide Skip, ParseNumber, ParseString, ParseCompound;
    assert ParseValue(s) == NoMatch;
  }

  lemma ReadsMore(isObj: bool, items: seq<Item>, closing: string)
    requires SpellingItems(isObj, items) && Closes(closing)
    ensures ParseMore(isObj, MoreText(isObj, items) + closing) == Match(ItemsEvents(isObj, items), closing)
    decreases items, 1
  {
    if items == [] {
      assert "" + closing == closing;
      hide Skip;
    } else {
      var item, more := items[0], MoreText(isObj, items[1..]);
      MoreEnds(isObj, items[1..], closing);
      ReadsItem(isObj, item, more + closing);
      ReadsMore(isObj, items[1..], closing);
      assert White(item.beforeComma);
      hide ParseItem, ItemText, ItemEvents, Ends, Skip, Closes, Closed;
      CommaText(isObj, items, closing);
      var after := ItemText(isObj, item) + (more + closing);
      SkipWhite(item.beforeComma, "," + after);
      assert ("," + after)[1..] == after;
      hide MoreText;
    }
  }

  lemma CommaText(isObj: bool, items: seq<Item>, closing: string)
    requires items != []
    ensures MoreText(isObj, items) + closing
         == items[0].beforeComma + ("," + (ItemText(isObj, items[0]) + (MoreText(isObj, items[1..]) + closing)))
  {
    hide ItemText;
  }

  lemma ReadsItem(isObj: bool, item: Item, tail: string)
    requires SpellingItem(isObj, item) && Ends(tail)
    ensures ParseItem(isObj, ItemText(isObj, item) + tail) == Match(ItemEvents(isObj, item), tail)
    decreases item, 0
  {
    assert Spelling(item.value);
    if item.value.Leaf? {
      EndsComplete(item.value.token, tail);
    }
    ReadsValue(item.value, tail);
    if isObj {
      assert White(item.beforeName) && Closed(item.name) && White(item.beforeColon);
      hide ParseValue, Text, Events, Spelling, Skip, Closed, White, Ends, ParseString;
      var value := Text(item.value) + tail;
      var q := "\"" + item.name + "\"";
      var colon := item.beforeColon + (":" + value);
      MemberText(item, tail);
      SkipWhite(item.beforeName, q + colon);
      QuotationReadBack(item.name, true, colon);
      SkipWhite(item.beforeColon, ":" + value);
      assert (":" + value)[1..] == value;
    }
  }

  lemma MemberText(item: Item, tail: string)
    ensures ItemText(true, item) + tail ==
            item.beforeName + ("\"" + item.name + "\"" + (item.beforeColon + (":" + (Text(item.value) + tail))))
  {
    hide Text;
  }

  // ---------------------------------------------------------------- what is read is a spelling

  /** A text is matched only if it begins with a spelled value, whose events are those fired and behind which the rest
      of the text begins. */
  lemma ValueSpelled(s: string) returns (t: Spelled)
    requires ParseValue(s).Match?
    ensures Spelling(t) && s == Text(t) + ParseValue(s).rest && ParseValue(s).events == Events(t)
    ensures t.Leaf? ==> Complete(t.token, ParseValue(s).rest)
    decreases |s|, 0
  {
    hide *;
    var ws := Skipped(s);
    var w := Skip(s);
    if w != "" && (w[0] == '{' || w[0] == '[') {
      OpensCompound(s);
      var items, last := CompoundSpelled(w[0] == '{', w[1..]);
      t := Node(ws, w[0] == '{', items, last);
      NodeIs(t, w[1..], ParseValue(s).rest);
    } else {
      SomeToken(s);
      var token := TokenSplit(s);
      t := Leaf(ws, token);
      LeafIs(t, ParseValue(s).rest);
    }
  }

  lemma OpensCompound(s: string)
    requires Skip(s) != "" && (Skip(s)[0] == '{' || Skip(s)[0] == '[')
    ensures ParseValue(s) == ParseCompound(Skip(s)[0] == '{', Skip(s)[1..])
    ensures Skip(s) == (if Skip(s)[0] == '{' then "{" else "[") + Skip(s)[1..]
  {
    hide ParseCompound, Skip;
  }

  lemma SomeToken(s: string)
    requires ParseValue(s).Match?
    ensures Skip(s) != ""
  {
  }

  lemma LeafIs(t: Spelled, rest: string)
    requires t.Leaf? && White(t.before) && Proper(t.token)
    ensures Spelling(t) && t.before + (TokenText(t.token) + rest) == Text(t) + rest
    ensures Events(t) == [TokenEvent(t.token)]
  {
    LeafText(t, rest);
  }

  lemma NodeIs(t: Spelled, body: string, rest: string)
    requires t.Node? && White(t.before) && White(t.last) && SpellingItems(t.isObj, t.items)
    requires body == ItemsText(t.isObj, t.items) + (t.last + ((if t.isObj then "}" else "]") + rest))
    ensures Spelling(t) && t.before + ((if t.isObj then "{" else "[") + body) == Text(t) + rest
    ensures Events(t) == [if t.isObj then BeginObj else BeginArray] + ItemsEvents(t.isObj, t.items) +
            [if t.isObj then EndObj else EndArray]
  {
    hide ItemsText, ItemsEvents, SpellingItems, White;
    NodeText(t, rest, t.last + ((if t.isObj then "}" else "]") + rest));
  }

  lemma CompoundSpelled(isObj: bool, s: string) returns (items: seq<Item>, last: string)
    requires ParseCompound(isObj, s).Match?
    ensures SpellingItems(isObj, items) && White(last)
    ensures s == ItemsText(isObj, items) + (last + ((if isObj then "}" else "]") + ParseCompound(isObj, s).rest))
    ensures ParseCompound(isObj, s).events == [if isObj then BeginObj else BeginArray] + ItemsEvents(isObj, items) +
            [if isObj then EndObj else EndArray]
    decreases |s|, 3
  {
    hide *;
    MatchedCompound(isObj, s);
    items := ItemsSpelled(isObj, s);
    last := Skipped(ParseItems(isObj, s).rest);
  }

  lemma MatchedCompound(isObj: bool, s: string)
    requires ParseCompound(isObj, s).Match?
    ensures var items := ParseItems(isObj, s);
            items.Match? && Skip(items.rest) == (if isObj then "}" else "]") + ParseCompound(isObj, s).rest &&
            ParseCompound(isObj, s).events == [if isObj then BeginObj else BeginArray] + items.events +
            [if isObj then EndObj else EndArray]
  {
    hide ParseItems, Skip;
  }

  lemma ItemsSpelled(isObj: bool, s: string) returns (items: seq<Item>)
    requires ParseItems(isObj, s).Match?
    ensures SpellingItems(isObj, items) && s == ItemsText(isObj, items) + ParseItems(isObj, s).rest
    ensures ParseItems(isObj, s).events == ItemsEvents(isObj, items)
    decreases |s|, 2
  {
    var first := ParseItem(isObj, s);
    assert first.Match? ==> ParseItems(isObj, s) == Prefixed(first.events, ParseMore(isObj, first.rest));
    if first.Match? {
      var more := ParseMore(isObj, first.rest);
      assert more.Match? && ParseItems(isObj, s) == Match(first.events + more.events, more.rest);
      hide *;
      var item := ItemSpelled(isObj, s);
      var others := MoreSpelled(isObj, first.rest);
      items := [item] + others;
      OneItemMore(isObj, item, others, more.rest);
    } else {
      items := [];
      hide ParseItem;
    }
  }

  lemma OneItemMore(isObj: bool, item: Item, others: seq<Item>, rest: string)
    requires SpellingItem(isObj, item) && SpellingItems(isObj, others)
    ensures var items := [item] + others;
            SpellingItems(isObj, items) && ItemsEvents(isObj, items) ==
            ItemEvents(isObj, item) + ItemsEvents(isObj, others) &&
            ItemText(isObj, item) + (MoreText(isObj, others) + rest) == ItemsText(isObj, items) + rest &&
            item.beforeComma + ("," + (ItemText(isObj, item) + (MoreText(isObj, others) + rest))) ==
            MoreText(isObj, items) + rest
  {
    var items := [item] + others;
    assert items[1..] == others && items[0] == item;
    CommaText(isObj, items, rest);
    hide ItemText, SpellingItem, ItemEvents, MoreText;
    assert SpellingItems(isObj, items);
    assert ItemsText(isObj, items) == ItemText(isObj, item) + MoreText(isObj, others);
    hide *;
    Reassociate(ItemText(isObj, item), MoreText(isObj, others), rest);
  }

  lemma MoreSpelled(isObj: bool, s: string) returns (items: seq<Item>)
    requires ParseMore(isObj, s).Match?
    ensures SpellingItems(isObj, items) && s == MoreText(isObj, items) + ParseMore(isObj, s).rest
    ensures ParseMore(isObj, s).events == ItemsEvents(isObj, items)
    decreases |s|, 0
  {
    var ws := Skipped(s);
    var w := Skip(s);
    items := [];
    if w != "" && w[0] == ',' && ParseItem(isObj, w[1..]).Match? {
      var next := ParseItem(isObj, w[1..]);
      var more := ParseMore(isObj, next.rest);
      assert more.Match? && ParseMore(isObj, s) == Match(next.events + more.events, more.rest);
      hide *;
      assert w == "," + w[1..];
      var item := ItemSpelled(isObj, w[1..]);
      WithComma(isObj, item, ws);
      item := item.(beforeComma := ws);
      var others := MoreSpelled(isObj, next.rest);
      items := [item] + others;
      OneItemMore(isObj, item, others, more.rest);
    } else {
      hide ParseItem, Skip;
    }
  }

  lemma WithComma(isObj: bool, item: Item, ws: string)
    requires SpellingItem(isObj, item) && White(ws)
    ensures var other := item.(beforeComma := ws);
            SpellingItem(isObj, other) && ItemText(isObj, other) == ItemText(isObj, item) &&
            ItemEvents(isObj, other) == ItemEvents(isObj, item)
  {
    hide Closed, Spelling, Text, Events;
  }

  lemma ItemSpelled(isObj: bool, s: string) returns (item: Item)
    requires ParseItem(isObj, s).Match?
    ensures SpellingItem(isObj, item) && s == ItemText(isObj, item) + ParseItem(isObj, s).rest
    ensures ParseItem(isObj, s).events == ItemEvents(isObj, item)
    decreases |s|, 1
  {
    if isObj {
      item := MemberSpelled(s);
    } else {
      var value := ValueSpelled(s);
      item := Item("", "", "", "", value);
      hide ParseValue, Spelling, Text, Events;
    }
  }

  lemma MemberParts(s: string)
    requires ParseItem(true, s).Match?
    ensures var name, whole := ParseString(Skip(s), true), ParseItem(true, s);
            name.Match? && Skip(name.rest) != "" && Skip(name.rest)[0] == ':' &&
            var value := ParseValue(Skip(name.rest)[1..]);
            value.Match? && |Skip(name.rest)[1..]| < |s| && whole == Match(name.events + value.events, value.rest)
  {
    hide ParseValue, ParseString, Skip;
  }

  lemma MemberIs(item: Item, rest: string)
    requires item.beforeComma == "" && White(item.beforeName) && Closed(item.name) && White(item.beforeColon)
    requires Spelling(item.value)
    ensures SpellingItem(true, item)
    ensures item.beforeName +
            ("\"" + item.name + "\"" + (item.beforeColon + (":" + (Text(item.value) + rest)))) ==
            ItemText(true, item) + rest
    ensures ItemEvents(true, item) == [NewName("\"" + item.name + "\"")] + Events(item.value)
  {
    MemberText(item, rest);
    hide Closed, Spelling, Text, Events, ItemText;
  }

  lemma MemberSpelled(s: string) returns (item: Item)
    requires ParseItem(true, s).Match?
    ensures SpellingItem(true, item) && s == ItemText(true, item) + ParseItem(true, s).rest
    ensures ParseItem(true, s).events == ItemEvents(true, item)
    decreases |s|, 0
  {
    hide *;
    MemberParts(s);
    var beforeName := Skipped(s);
    var name, rest := NameSplit(Skip(s));
    var beforeColon := Skipped(rest);
    var colon := Skip(rest);
    var value := ValueSpelled(colon[1..]);
    item := Item("", beforeName, name, beforeColon, value);
    MemberIs(item, ParseItem(true, s).rest);
    assert colon == ":" + colon[1..];
  }

  lemma NameSplit(s: string) returns (name: string, rest: string)
    requires ParseString(s, true).Match?
    ensures Closed(name) && s == "\"" + name + "\"" + rest
    ensures ParseString(s, true) == Match([NewName("\"" + name + "\"")], rest)
  {
    var n := QuotedLength(s[1..]);
    ScanClosed(s[1..]);
    hide QuotedLength, Closed;
    name, rest := s[1..][..n], s[n + 2..];
    assert s[..n + 2] == "\"" + name + "\"";
  }

  // ---------------------------------------------------------------- whole texts

  /** The text is the spelled value t with tail behind it, in front of which it is complete. */
  ghost predicate Begins(s: string, t: Spelled, tail: string) {
    Spelling(t) && (t.Leaf? ==> Complete(t.token, tail)) && s == Text(t) + tail
  }

  lemma ReadsText(t: Spelled, tail: string)
    requires Spelling(t) && (t.Leaf? ==> Complete(t.token, tail))
    ensures ParseJson(Text(t) + tail) == Match(Events(t), tail)
  {
    ReadsValue(t, tail);
    hide ParseValue, Text, Events;
  }

  lemma TextSpelled(s: string) returns (t: Spelled)
    requires ParseJson(s).Match?
    ensures Begins(s, t, ParseJson(s).rest) && ParseJson(s).events == Events(t)
  {
    t := ValueSpelled(s);
    hide ParseValue, Text, Events, Spelling;
  }
}
