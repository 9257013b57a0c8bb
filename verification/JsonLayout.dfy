/**
 How the generator lays out a text, told by its tokens alone: what stands between two tokens depends on them and on
 how many containers are open there.
 */
module JsonLayout {
  import opened JsonText
  import opened JsonWriter
  import opened JsonReader
  import opened JsonTokens
  import opened JsonRoundTrip

  // ---------------------------------------------------------------- the tokens of a value

  /** Brackets, commas, colons, quoted names and scalars, in order. */
  function Pieces(v: Value, st: Style): (ps: seq<string>)
    ensures ps != []
    decreases v, 1, 0
  {
    if v.Obj? then ["{"] + PiecesFrom(v, 0, st) + ["}"]
    else if v.Arr? then ["["] + PiecesFrom(v, 0, st) + ["]"]
    else [Scalar(v, st)]
  }

  /** Those of children k and later, a comma before each but the first. */
  function PiecesFrom(v: Value, k: nat, st: Style): (ps: seq<string>)
    requires Compound(v) && k <= Size(v)
    decreases v, 0, Size(v) - k
  {
    if k == Size(v) then []
    else
      (if k > 0 then [","] else []) +
      (if v.Obj? then ["\"" + Escaped(v.members[k].name, st.escaping) + "\"", ":"] else []) +
      Pieces(Child(v, k), st) + PiecesFrom(v, k + 1, st)
  }

  // ---------------------------------------------------------------- the layout

  function Blanks(n: nat): (s: string)
    ensures |s| == n && forall i :: 0 <= i < n ==> s[i] == ' '
  {
    seq(n, i requires 0 <= i < n => ' ')
  }

  predicate Opens(p: string) {
    p == "{" || p == "["
  }

  predicate Shuts(p: string) {
    p == "}" || p == "]"
  }

  /** What stands between tokens a and b where depth containers are open: nothing in compact text. In pretty text one
      blank on either side of a colon, nothing before a comma, and otherwise a new line with four blanks for every
      container around b; a closing bracket is not inside its own container. */
  function Between(pretty: bool, a: string, b: string, depth: nat): string {
    if !pretty then ""
    else if a == ":" || b == ":" then " "
    else if b == "," then ""
    else if Shuts(b) then "\n" + Blanks(if depth > 0 then 4 * (depth - 1) else 0)
    else "\n" + Blanks(4 * depth)
  }

  function Deeper(p: string, depth: nat): nat {
    if Opens(p) then depth + 1 else if Shuts(p) && depth > 0 then depth - 1 else depth
  }

  /** The tokens ps after token a, with depth containers open. */
  function LaidAfter(pretty: bool, a: string, depth: nat, ps: seq<string>): string
    decreases |ps|
  {
    if ps == [] then ""
    else Between(pretty, a, ps[0], depth) + (ps[0] + LaidAfter(pretty, ps[0], Deeper(ps[0], depth), ps[1..]))
  }

  function Laid(pretty: bool, ps: seq<string>): string
    requires ps != []
  {
    ps[0] + LaidAfter(pretty, ps[0], Deeper(ps[0], 0), ps[1..])
  }

  // ---------------------------------------------------------------- the printed text is laid out like this

  /** A token that is no punctuation. */
  predicate Inner(p: string) {
    p != ":" && p != "," && !Opens(p) && !Shuts(p)
  }

  lemma ScalarInner(v: Value, st: Style)
    requires !Compound(v) && Storable(v, st)
    ensures Inner(Scalar(v, st))
  {
    ScalarSpelled(v, st);
    var t := TokenOf(v, st);
    TokenStarts(t);
    InnerToken(t);
    hide *;
  }

  lemma FirstInner(p: string)
    requires p != "" && (IsDigit(p[0]) || IsSign(p[0]) || p[0] == '.')
    ensures Inner(p)
  {
  }

  lemma InnerToken(t: Token)
    requires Proper(t)
    ensures Inner(TokenText(t))
  {
    TokenStarts(t);
    var p := TokenText(t);
    if Numeric(t) {
      hide *;
      FirstInner(p);
    } else {
      hide Closed;
    }
  }

  lemma {:induction false} IndentationIs(level: nat)
    ensures Indentation(level) == Blanks(4 * level)
  {
    if level > 0 {
      IndentationIs(level - 1);
      assert Blanks(4 * level) == Blanks(4 * (level - 1)) + "    ";
    } else {
      assert Blanks(0) == "";
    }
  }

  /** The layout functions of the generator in place of blanks. */
  lemma GapsAre(a: string, b: string, depth: nat, st: Style)
    requires a != ":" && b != ":"
    ensures b != "," && !Shuts(b) ==> Between(st.pretty, a, b, depth) == LineEnd(st) + Margin(depth, st)
    ensures Shuts(b) && depth > 0 ==> Between(st.pretty, a, b, depth) == LineEnd(st) + Margin(depth - 1, st)
    ensures b == "," ==> Between(st.pretty, a, b, depth) == ""
  {
    IndentationIs(depth);
    if depth > 0 {
      IndentationIs(depth - 1);
    }
    hide Blanks, Indentation;
  }

  lemma ColonGaps(a: string, b: string, depth: nat, st: Style)
    requires a == ":" || b == ":"
    ensures Between(st.pretty, a, b, depth) == Gap(st)
  {
  }

  lemma OnePiece(pretty: bool, a: string, depth: nat, p: string, rest: seq<string>)
    ensures LaidAfter(pretty, a, depth, [p] + rest) ==
            Between(pretty, a, p, depth) + (p + LaidAfter(pretty, p, Deeper(p, depth), rest))
  {
    var ps := [p] + rest;
    assert ps[0] == p && ps[1..] == rest;
    hide Between, Deeper;
  }

  /** A value begins with an opening bracket or a token that is no punctuation, and does not end with a colon. */
  lemma FirstAndLast(v: Value, st: Style)
    requires Storable(v, st)
    ensures Opens(Pieces(v, st)[0]) || Inner(Pieces(v, st)[0])
    ensures Pieces(v, st)[|Pieces(v, st)| - 1] != ":"
  {
    if !Compound(v) {
      ScalarInner(v, st);
    }
    hide Scalar, PiecesFrom;
  }

  function LastPiece(v: Value, st: Style): string {
    var ps := Pieces(v, st);
    ps[|ps| - 1]
  }

  /** A value among other tokens: its own text, begun as its first token asks. */
  lemma ValueLaid(v: Value, st: Style, a: string, depth: nat, rest: seq<string>)
    requires Storable(v, st)
    ensures LaidAfter(st.pretty, a, depth, Pieces(v, st) + rest) ==
            Between(st.pretty, a, Pieces(v, st)[0], depth) +
            (Printed(v, depth, st) + LaidAfter(st.pretty, LastPiece(v, st), depth, rest))
    decreases v, 2
  {
    if Compound(v) {
      ItemsLaid(v, 0, st, Opening(v), depth + 1, Closing(v), rest);
      CompoundPieces(v, st, depth);
      hide *;
      OnePiece(st.pretty, a, depth, Opening(v), PiecesFrom(v, 0, st) + ([Closing(v)] + rest));
      BracketPieces(Opening(v), PiecesFrom(v, 0, st), Closing(v), rest);
      CompoundLaid(Between(st.pretty, a, Opening(v), depth), Opening(v), LineEnd(st), PrintedFrom(v, 0, depth + 1, st),
                   Margin(depth, st), Closing(v), LaidAfter(st.pretty, Closing(v), depth, rest));
    } else {
      ScalarInner(v, st);
      hide Scalar, Between, LaidAfter;
      OnePiece(st.pretty, a, depth, Scalar(v, st), rest);
    }
  }

  lemma BracketPieces(open: string, items: seq<string>, close: string, rest: seq<string>)
    ensures [open] + items + [close] + rest == [open] + (items + ([close] + rest))
  {
  }

  lemma CompoundPieces(v: Value, st: Style, depth: nat)
    requires Compound(v)
    ensures Pieces(v, st) == [Opening(v)] + PiecesFrom(v, 0, st) + [Closing(v)]
    ensures Pieces(v, st)[0] == Opening(v) && LastPiece(v, st) == Closing(v)
    ensures Deeper(Opening(v), depth) == depth + 1 && Opening(v) != ":" && Shuts(Closing(v))
    ensures Printed(v, depth, st) ==
            Opening(v) + LineEnd(st) + PrintedFrom(v, 0, depth + 1, st) + Margin(depth, st) + Closing(v)
  {
    hide PiecesFrom, PrintedFrom, LineEnd, Margin;
  }

  lemma CompoundLaid(gap: string, open: string, end: string, items: string, margin: string, close: string, tail: string)
    ensures gap + (open + ("" + (end + (items + (margin + (close + tail))))))
         == gap + ((open + end + items + margin + close) + tail)
  {
  }

  /** The children from k on and the closing bracket, after the token a. */
  lemma ItemsLaid(v: Value, k: nat, st: Style, a: string, depth: nat, close: string, rest: seq<string>)
    requires Compound(v) && k <= Size(v) && Storable(v, st) && depth > 0 && Shuts(close) && a != ":"
    ensures LaidAfter(st.pretty, a, depth, PiecesFrom(v, k, st) + ([close] + rest)) ==
            (if 0 < k < Size(v) then "," else "") +
            (LineEnd(st) + (PrintedFrom(v, k, depth, st) + (Margin(depth - 1, st) +
             (close + LaidAfter(st.pretty, close, depth - 1, rest)))))
    decreases v, 1, Size(v) - k
  {
    if k == Size(v) {
      NoneLeft(v, st, a, depth, close, rest);
    } else {
      hide *;
      var others := PiecesFrom(v, k + 1, st) + ([close] + rest);
      ChildStorable(v, k, st);
      ChildLaid(v, k, st, if k > 0 then "," else a, depth, others);
      FirstAndLast(Child(v, k), st);
      LastIs(Child(v, k), st);
      ItemsLaid(v, k + 1, st, LastPiece(Child(v, k), st), depth, close, rest);
      CommaLaid(v, k, st, a, depth, [close] + rest);
      PrintedNext(v, k, depth, st);
      ItemLaid(if k > 0 then "," else "", LineEnd(st), Margin(depth, st),
               Label(v, k, st) + Printed(Child(v, k), depth, st), if k + 1 < Size(v) then "," else "",
               PrintedFrom(v, k + 1, depth, st),
               Margin(depth - 1, st) + (close + LaidAfter(st.pretty, close, depth - 1, rest)));
    }
  }

  lemma LastIs(v: Value, st: Style)
    ensures LastPiece(v, st) == Pieces(v, st)[|Pieces(v, st)| - 1]
  {
  }

  lemma ItemLaid(comma: string, end: string, margin: string, item: string, next: string, rest: string, close: string)
    ensures comma + ((end + margin) + (item + (next + (end + (rest + close)))))
         == comma + (end + ((margin + item + (next + end) + rest) + close))
  {
  }

  lemma NoPieces(v: Value, st: Style, depth: nat)
    requires Compound(v)
    ensures PiecesFrom(v, Size(v), st) == [] && PrintedFrom(v, Size(v), depth, st) == ""
  {
  }

  lemma EmptyItems(end: string, margin: string, rest: string)
    ensures (end + margin) + rest == "" + (end + ("" + (margin + rest)))
  {
  }

  lemma NoneLeft(v: Value, st: Style, a: string, depth: nat, close: string, rest: seq<string>)
    requires Compound(v) && Storable(v, st) && depth > 0 && Shuts(close) && a != ":"
    ensures LaidAfter(st.pretty, a, depth, PiecesFrom(v, Size(v), st) + ([close] + rest)) ==
            "" + (LineEnd(st) + (PrintedFrom(v, Size(v), depth, st) + (Margin(depth - 1, st) +
            (close + LaidAfter(st.pretty, close, depth - 1, rest)))))
  {
    NoPieces(v, st, depth);
    assert Deeper(close, depth) == depth - 1 && close != ":";
    hide *;
    assert [] + ([close] + rest) == [close] + rest;
    OnePiece(st.pretty, a, depth, close, rest);
    GapsAre(a, close, depth, st);
    EmptyItems(LineEnd(st), Margin(depth - 1, st), close + LaidAfter(st.pretty, close, depth - 1, rest));
  }

  lemma CommaDepth(depth: nat)
    ensures Deeper(",", depth) == depth
  {
  }

  lemma CommaPieces(v: Value, k: nat, st: Style, rest: seq<string>)
    requires Compound(v) && k < Size(v)
    ensures PiecesFrom(v, k, st) + rest ==
            (if k > 0 then [","] else []) + (ChildPieces(v, k, st) + (PiecesFrom(v, k + 1, st) + rest))
  {
    hide Pieces, Escaped;
  }

  /** The comma before a child that is not the first. */
  lemma CommaLaid(v: Value, k: nat, st: Style, a: string, depth: nat, rest: seq<string>)
    requires Compound(v) && k < Size(v) && a != ":"
    ensures LaidAfter(st.pretty, a, depth, PiecesFrom(v, k, st) + rest) ==
            (if k > 0 then "," else "") +
            LaidAfter(st.pretty, if k > 0 then "," else a, depth,
                      ChildPieces(v, k, st) + (PiecesFrom(v, k + 1, st) + rest))
  {
    var ps := ChildPieces(v, k, st) + (PiecesFrom(v, k + 1, st) + rest);
    CommaPieces(v, k, st, rest);
    hide *;
    if k > 0 {
      OnePiece(st.pretty, a, depth, ",", ps);
      GapsAre(a, ",", depth, st);
      CommaDepth(depth);
    } else {
      assert [] + ps == ps;
    }
  }

  function ChildPieces(v: Value, k: nat, st: Style): seq<string>
    requires Compound(v) && k < Size(v)
  {
    (if v.Obj? then ["\"" + Escaped(v.members[k].name, st.escaping) + "\"", ":"] else []) + Pieces(Child(v, k), st)
  }

  /** A child on its line. */
  lemma ChildLaid(v: Value, k: nat, st: Style, a: string, depth: nat, rest: seq<string>)
    requires Compound(v) && k < Size(v) && Storable(v, st) && Storable(Child(v, k), st) && a != ":"
    ensures LaidAfter(st.pretty, a, depth, ChildPieces(v, k, st) + rest) ==
            (LineEnd(st) + Margin(depth, st)) + ((Label(v, k, st) + Printed(Child(v, k), depth, st)) +
            LaidAfter(st.pretty, LastPiece(Child(v, k), st), depth, rest))
    decreases v, 0
  {
    var child := Child(v, k);
    ValueLaid(child, st, if v.Obj? then ":" else a, depth, rest);
    ChildPiecesAre(v, k, st, rest);
    hide *;
    if v.Obj? {
      LabelIs(v, k, st);
      NameLaid("\"" + Escaped(v.members[k].name, st.escaping) + "\"", st, a, depth, Pieces(child, st) + rest);
      ColonGaps(":", Pieces(child, st)[0], depth, st);
      MemberLaid(LineEnd(st) + Margin(depth, st), "\"" + Escaped(v.members[k].name, st.escaping) + "\"", Gap(st),
                 Printed(child, depth, st), LaidAfter(st.pretty, LastPiece(child, st), depth, rest));
    } else {
      NoLabel(v, k, st);
      FirstAndLast(child, st);
      FirstGap(a, Pieces(child, st)[0], depth, st);
      assert "" + Printed(child, depth, st) == Printed(child, depth, st);
    }
  }

  lemma ChildPiecesAre(v: Value, k: nat, st: Style, rest: seq<string>)
    requires Compound(v) && k < Size(v)
    ensures ChildPieces(v, k, st) + rest ==
            if v.Obj? then
              ["\"" + Escaped(v.members[k].name, st.escaping) + "\""] + ([":"] + (Pieces(Child(v, k), st) + rest))
            else Pieces(Child(v, k), st) + rest
  {
    hide Pieces, Escaped;
  }

  lemma NameLaid(q: string, st: Style, a: string, depth: nat, value: seq<string>)
    requires a != ":" && |q| >= 2 && q[0] == '"'
    ensures LaidAfter(st.pretty, a, depth, [q] + ([":"] + value)) ==
            (LineEnd(st) + Margin(depth, st)) + (q + (Gap(st) + (":" + LaidAfter(st.pretty, ":", depth, value))))
  {
    assert Inner(q) && Deeper(q, depth) == depth && Deeper(":", depth) == depth;
    hide *;
    OnePiece(st.pretty, a, depth, q, [":"] + value);
    OnePiece(st.pretty, q, depth, ":", value);
    InnerGap(a, q, depth, st);
    ColonGaps(q, ":", depth, st);
  }

  lemma MemberLaid(line: string, q: string, gap: string, value: string, tail: string)
    ensures line + (q + (gap + (":" + (gap + (value + tail))))) == line + ((q + gap + ":" + gap + value) + tail)
  {
  }

  lemma InnerGap(a: string, b: string, depth: nat, st: Style)
    requires a != ":" && Inner(b)
    ensures Between(st.pretty, a, b, depth) == LineEnd(st) + Margin(depth, st)
  {
    GapsAre(a, b, depth, st);
  }

  lemma FirstGap(a: string, b: string, depth: nat, st: Style)
    requires a != ":" && (Opens(b) || Inner(b))
    ensures Between(st.pretty, a, b, depth) == LineEnd(st) + Margin(depth, st)
  {
    GapsAre(a, b, depth, st);
  }

  lemma Cancelled(a: string, b: string, c: string)
    requires a + b == a + c
    ensures b == c
  {
    assert b == (a + b)[|a|..] && c == (a + c)[|a|..];
  }

  /** The generator's text is the layout of the value's tokens. */
  lemma Layout(v: Value, st: Style)
    requires Storable(v, st)
    ensures Printed(v, 0, st) == Laid(st.pretty, Pieces(v, st))
  {
    var ps := Pieces(v, st);
    ValueLaid(v, st, ",", 0, []);
    hide Pieces, Printed, Between, Deeper;
    assert ps + [] == ps;
    Cancelled(Between(st.pretty, ",", ps[0], 0), Printed(v, 0, st) + "", Laid(st.pretty, ps));
  }

  // ---------------------------------------------------------------- without white space

  /** The text with the blanks and line ends outside quotes taken out. */
  function Squeezed(s: string): (r: string)
    decreases |s|
  {
    if s == "" then ""
    else if s[0] == '"' && QuotedLength(s[1..]) >= 0 then
      var n := QuotedLength(s[1..]) + 2;
      s[..n] + Squeezed(s[n..])
    else if s[0] == ' ' || s[0] == '\n' then Squeezed(s[1..])
    else [s[0]] + Squeezed(s[1..])
  }

  /** A token has nothing to take out. */
  predicate Solid(p: string) {
    (|p| >= 2 && p[0] == '"' && p[|p| - 1] == '"' && Closed(p[1..|p| - 1])) || Bare(p)
  }

  predicate Bare(p: string) {
    forall i :: 0 <= i < |p| ==> p[i] != '"' && p[i] != ' ' && p[i] != '\n'
  }

  lemma QuotedStays(p: string, rest: string)
    requires |p| >= 2 && p[0] == '"' && p[|p| - 1] == '"' && Closed(p[1..|p| - 1])
    ensures Squeezed(p + rest) == p + Squeezed(rest)
  {
    var body, s := p[1..|p| - 1], p + rest;
    ClosedScan(body, rest);
    assert s[1..] == body + ("\"" + rest);
    assert s[..|p|] == p && s[|p|..] == rest;
    hide Closed;
  }

  lemma {:induction false} PlainStays(p: string, rest: string)
    requires Bare(p)
    ensures Squeezed(p + rest) == p + Squeezed(rest)
  {
    if p == "" {
      assert p + rest == rest;
    } else {
      assert (p + rest)[1..] == p[1..] + rest;
      PlainStays(p[1..], rest);
    }
  }

  lemma SolidStays(p: string, rest: string)
    requires Solid(p)
    ensures Squeezed(p + rest) == p + Squeezed(rest)
  {
    if p != "" && p[0] == '"' {
      QuotedStays(p, rest);
    } else {
      PlainStays(p, rest);
    }
    hide Closed, Squeezed;
  }

  lemma {:induction false} GapGoes(gap: string, rest: string)
    requires forall i :: 0 <= i < |gap| ==> gap[i] == ' ' || gap[i] == '\n'
    ensures Squeezed(gap + rest) == Squeezed(rest)
  {
    if gap == "" {
      assert gap + rest == rest;
    } else {
      assert (gap + rest)[1..] == gap[1..] + rest;
      GapGoes(gap[1..], rest);
    }
  }

  lemma BetweenGoes(pretty: bool, a: string, b: string, depth: nat, rest: string)
    ensures Squeezed(Between(pretty, a, b, depth) + rest) == Squeezed(rest)
  {
    var gap := Between(pretty, a, b, depth);
    assert forall i :: 0 <= i < |gap| ==> gap[i] == ' ' || gap[i] == '\n';
    GapGoes(gap, rest);
    hide Squeezed;
  }

  predicate AllSolid(ps: seq<string>) {
    forall i :: 0 <= i < |ps| ==> Solid(ps[i])
  }

  /** Squeezing takes out exactly the layout. */
  lemma {:induction false} LayoutGoes(pretty: bool, a: string, depth: nat, ps: seq<string>)
    requires AllSolid(ps)
    ensures Squeezed(LaidAfter(pretty, a, depth, ps)) == LaidAfter(false, a, depth, ps)
    decreases |ps|
  {
    if ps != [] {
      var p, rest := ps[0], LaidAfter(pretty, ps[0], Deeper(ps[0], depth), ps[1..]);
      LayoutGoes(pretty, p, Deeper(p, depth), ps[1..]);
      BetweenGoes(pretty, a, p, depth, p + rest);
      SolidStays(p, rest);
      hide Squeezed, Solid, Deeper;
    }
  }

  lemma BareJoins(a: string, b: string)
    requires Bare(a) && Bare(b)
    ensures Bare(a + b)
    ensures Solid(a + b)
  {
    hide Closed;
  }

  lemma PartsBare(sign: string, digits: string)
    requires Sign(sign) && Decimals(digits)
    ensures Bare(sign) && Bare(digits)
  {
  }

  lemma FractionBare(dot: bool, fraction: string, exponent: Exponent)
    requires Bare(fraction) && ProperExponent(exponent)
    ensures Bare(FractionText(dot, fraction, exponent))
  {
    var text := ExponentText(exponent);
    if exponent.Exponent? {
      PartsBare(exponent.sign, exponent.digits);
      BareJoins(exponent.sign, exponent.digits);
      assert Bare([exponent.letter]);
      BareJoins([exponent.letter], exponent.sign + exponent.digits);
    }
    assert Bare(text);
    hide ExponentText, ProperExponent;
    BareJoins(fraction, text);
    assert Bare(".");
    BareJoins(".", fraction + text);
  }

  lemma TokenSolid(t: Token)
    requires Proper(t)
    ensures Solid(TokenText(t))
  {
    match t
    case Quotation(body) =>
      assert TokenText(t)[1..|TokenText(t)| - 1] == body;
      hide Closed;
    case Integer(sign, digits) =>
      PartsBare(sign, digits);
      hide *;
      BareJoins(sign, digits);
    case Fractional(sign, whole, dot, fraction, exponent) =>
      PartsBare(sign, whole);
      PartsBare(sign, fraction);
      FractionBare(dot, fraction, exponent);
      hide *;
      BareJoins(whole, FractionText(dot, fraction, exponent));
      BareJoins(sign, whole + FractionText(dot, fraction, exponent));
    case _ => hide Closed;
  }

  lemma ScalarSolid(v: Value, st: Style)
    requires !Compound(v) && Storable(v, st)
    ensures Solid(Scalar(v, st))
  {
    ScalarSpelled(v, st);
    hide *;
    TokenSolid(TokenOf(v, st));
  }

  lemma NameSolid(s: string, e: Escaping)
    requires Bytes(s)
    ensures Solid("\"" + Escaped(s, e) + "\"")
  {
    StringSpelled(s, e);
    var p := "\"" + Escaped(s, e) + "\"";
    assert p[1..|p| - 1] == Escaped(s, e);
    hide Closed, Escaped, Unescaped;
  }

  lemma PiecesSolid(v: Value, st: Style)
    requires Storable(v, st)
    ensures AllSolid(Pieces(v, st))
    decreases v, 1, 0
  {
    if Compound(v) {
      PiecesFromSolid(v, 0, st);
      assert Solid("{") && Solid("}") && Solid("[") && Solid("]");
      hide PiecesFrom, Solid;
    } else {
      ScalarSolid(v, st);
      hide Scalar, Solid;
    }
  }

  lemma AllJoin(a: seq<string>, b: seq<string>)
    requires AllSolid(a) && AllSolid(b)
    ensures AllSolid(a + b) && AllSolid([] + b)
  {
    hide Solid;
  }

  lemma CommaSolid()
    ensures AllSolid([","])
  {
    assert Bare(",");
  }

  lemma ChildSolid(v: Value, k: nat, st: Style)
    requires Compound(v) && k < Size(v) && AllSolid(Pieces(Child(v, k), st))
    requires v.Obj? ==> Solid("\"" + Escaped(v.members[k].name, st.escaping) + "\"")
    ensures AllSolid(ChildPieces(v, k, st))
  {
    assert Solid(":") by { assert Bare(":"); }
    hide Pieces, Solid, Escaped;
  }

  lemma PiecesFromSolid(v: Value, k: nat, st: Style)
    requires Compound(v) && k <= Size(v) && Storable(v, st)
    ensures AllSolid(PiecesFrom(v, k, st))
    decreases v, 0, Size(v) - k
  {
    if k < Size(v) {
      ChildStorable(v, k, st);
      PiecesSolid(Child(v, k), st);
      PiecesFromSolid(v, k + 1, st);
      if v.Obj? {
        assert Bytes(v.members[k].name);
        NameSolid(v.members[k].name, st.escaping);
      }
      CommaPieces(v, k, st, []);
      hide *;
      ChildSolid(v, k, st);
      assert PiecesFrom(v, k + 1, st) + [] == PiecesFrom(v, k + 1, st);
      assert PiecesFrom(v, k, st) + [] == PiecesFrom(v, k, st);
      AllJoin(ChildPieces(v, k, st), PiecesFrom(v, k + 1, st));
      CommaSolid();
      AllJoin([","], ChildPieces(v, k, st) + PiecesFrom(v, k + 1, st));
    } else {
      hide Solid;
    }
  }

  /** The layout does not change the tokens. */
  lemma SamePieces(v: Value, st: Style, compact: Style)
    requires compact == st.(pretty := false)
    ensures Pieces(v, compact) == Pieces(v, st) && (Storable(v, compact) <==> Storable(v, st))
    decreases v, 1, 0
  {
    if Compound(v) {
      SamePiecesFrom(v, 0, st, compact);
      forall k | 0 <= k < Size(v) ensures Storable(Child(v, k), compact) <==> Storable(Child(v, k), st) {
        SamePieces(Child(v, k), st, compact);
      }
    }
  }

  lemma SamePiecesFrom(v: Value, k: nat, st: Style, compact: Style)
    requires Compound(v) && k <= Size(v) && compact == st.(pretty := false)
    ensures PiecesFrom(v, k, compact) == PiecesFrom(v, k, st)
    decreases v, 0, Size(v) - k
  {
    if k < Size(v) {
      SamePieces(Child(v, k), st, compact);
      SamePiecesFrom(v, k + 1, st, compact);
      hide Pieces, Storable;
    }
  }

  /** Without its blanks and line ends outside quotes either text is the compact one, which therefore has none. */
  lemma SqueezedIsCompact(v: Value, st: Style)
    requires Storable(v, st)
    ensures Squeezed(Printed(v, 0, st)) == Printed(v, 0, st.(pretty := false))
  {
    var ps, compact := Pieces(v, st), st.(pretty := false);
    hide *;
    Layout(v, st);
    SamePieces(v, st, compact);
    Layout(v, compact);
    PiecesSolid(v, st);
    LaidIs(st.pretty, ps);
    LaidIs(false, ps);
    SolidStays(ps[0], LaidAfter(st.pretty, ps[0], Deeper(ps[0], 0), ps[1..]));
    LayoutGoes(st.pretty, ps[0], Deeper(ps[0], 0), ps[1..]);
  }

  lemma LaidIs(pretty: bool, ps: seq<string>)
    requires ps != []
    ensures Laid(pretty, ps) == ps[0] + LaidAfter(pretty, ps[0], Deeper(ps[0], 0), ps[1..])
    ensures AllSolid(ps) ==> Solid(ps[0]) && AllSolid(ps[1..])
  {
  }
}
