/**
 * Raw SQL text (src/core/sql.ts:165-188): `@ref(name)` is a model reference, `@start` and
 * `@end` are interval bounds, the rest is text as it stands. The three patterns share no
 * first position, so matching needs no backtracking.
 */
module SqlTexts {
  import opened Common

  datatype Node = Text(text: string) | Ref(name: string) | Bound(isStart: bool)

  /** What JavaScript's `\s` matches. */
  predicate IsSpace(c: char) {
    var n := c as int;
    9 <= n <= 13 || n == 32 || n == 160 || n == 5760 || 8192 <= n <= 8202
    || n == 8232 || n == 8233 || n == 8239 || n == 8287 || n == 12288 || n == 65279
  }

  predicate IsWord(c: char) {
    'a' <= c <= 'z' || 'A' <= c <= 'Z' || '0' <= c <= '9' || c == '_'
  }

  /** Tab, line feed, vertical tab, form feed, carriage return, and the space characters of Unicode. */
  const SPACES := [
    9 as char, 10 as char, 11 as char, 12 as char, 13 as char, 32 as char, 160 as char, 5760 as char,
    8192 as char, 8193 as char, 8194 as char, 8195 as char, 8196 as char, 8197 as char, 8198 as char,
    8199 as char, 8200 as char, 8201 as char, 8202 as char, 8232 as char, 8233 as char, 8239 as char,
    8287 as char, 12288 as char, 65279 as char]

  const LOWER := "abcdefghijklmnopqrstuvwxyz"
  const UPPER := "ABCDEFGHIJKLMNOPQRSTUVWXYZ"
  const DIGITS := "0123456789"
  const WORD_CHARS := LOWER + UPPER + DIGITS + "_"

  lemma SpaceExact(c: char)
    ensures IsSpace(c) <==> c in SPACES
  {
    if IsSpace(c) {
      var n := c as int;
      var i := if n <= 13 then n - 9 else if n == 32 then 5 else if n == 160 then 6 else if n == 5760 then 7
               else if n <= 8202 then n - 8184 else if n <= 8233 then n - 8213 else if n == 8239 then 21
               else if n == 8287 then 22 else if n == 12288 then 23 else 24;
      assert SPACES[i] == c;
    }
  }

  lemma LowerExact(c: char)
    ensures c in LOWER <==> 'a' <= c <= 'z'
  {
    if 'a' <= c <= 'z' { assert LOWER[c as int - 'a' as int] == c; }
  }

  lemma UpperExact(c: char)
    ensures c in UPPER <==> 'A' <= c <= 'Z'
  {
    if 'A' <= c <= 'Z' { assert UPPER[c as int - 'A' as int] == c; }
  }

  lemma DigitExact(c: char)
    ensures c in DIGITS <==> '0' <= c <= '9'
  {
    if '0' <= c <= '9' { assert DIGITS[c as int - '0' as int] == c; }
  }

  lemma InAny(c: char, a: string, b: string, d: string)
    ensures c in a + b + d + "_" <==> c in a || c in b || c in d || c == '_'
  {
  }

  lemma WordExact(c: char)
    ensures IsWord(c) <==> c in WORD_CHARS
  {
    LowerExact(c);
    UpperExact(c);
    DigitExact(c);
    InAny(c, LOWER, UPPER, DIGITS);
  }

  predicate IsNameChar(c: char) {
    c != ')' && !IsSpace(c)
  }

  predicate Begins(s: string, prefix: string) {
    |prefix| <= |s| && s[..|prefix|] == prefix
  }

  const REF := "@ref("
  const START := "@start"
  const END := "@end"

  function LeadSpaces(s: string): (n: nat)
    ensures n <= |s|
  {
    if s != "" && IsSpace(s[0]) then 1 + LeadSpaces(s[1..]) else 0
  }

  function LeadName(s: string): (n: nat)
    ensures n <= |s|
  {
    if s != "" && IsNameChar(s[0]) then 1 + LeadName(s[1..]) else 0
  }

  datatype Match = Match(node: Node, length: nat)

  /** What follows `@ref(`: the name and how far its `)` is. */
  function MatchName(inner: string): (m: Option<(string, nat)>)
    ensures m.Some? ==> m.value.1 < |inner|
  {
    var a := LeadSpaces(inner);
    var b := LeadName(inner[a..]);
    var c := LeadSpaces(inner[a + b..]);
    var close := a + b + c;
    if b > 0 && close < |inner| && inner[close] == ')' then Some((inner[a..a + b], close)) else None
  }

  /** `@ref\(\s*([^)\s]+)\s*\)` at the very beginning. */
  function MatchRef(s: string): (m: Option<Match>)
    ensures m.Some? ==> m.value.node.Ref? && 0 < m.value.length <= |s|
  {
    if !Begins(s, REF) then None else
      var m := MatchName(s[5..]);
      if m.None? then None else Some(Match(Ref(m.value.0), 5 + m.value.1 + 1))
  }

  /** `@start\b` or `@end\b`: no word character may follow. */
  function MatchBound(s: string): (m: Option<Match>)
    ensures m.Some? ==> m.value.node.Bound? && 0 < m.value.length <= |s|
  {
    if Begins(s, START) && Boundary(s[6..]) then Some(Match(Bound(true), 6))
    else if Begins(s, END) && Boundary(s[4..]) then Some(Match(Bound(false), 4))
    else None
  }

  predicate Boundary(rest: string) {
    rest == "" || !IsWord(rest[0])
  }

  function MatchHead(s: string): (m: Option<Match>)
    ensures m.Some? ==> !m.value.node.Text? && 0 < m.value.length <= |s|
  {
    if MatchRef(s).Some? then MatchRef(s) else MatchBound(s)
  }

  function TextNode(text: string): seq<Node> {
    if text == "" then [] else [Text(text)]
  }

  /** Left to right: `before` is the text since the last match. */
  function Scan(before: string, s: string): seq<Node>
    decreases |s|
  {
    if s == "" then TextNode(before)
    else if MatchHead(s).Some? then
      TextNode(before) + [MatchHead(s).value.node] + Scan("", s[MatchHead(s).value.length..])
    else Scan(before + [s[0]], s[1..])
  }

  function Parse(text: string): seq<Node> {
    Scan("", text)
  }

  lemma ScanHit(text: string, cursor: nat, at: nat)
    requires cursor <= at < |text| && MatchHead(text[at..]).Some?
    ensures var m := MatchHead(text[at..]).value;
            var next := at + m.length;
            Scan(text[cursor..at], text[at..])
            == TextNode(text[cursor..at]) + [m.node] + Scan(text[next..next], text[next..])
  {
    hide MatchHead;
    var next := at + MatchHead(text[at..]).value.length;
    assert text[at..][MatchHead(text[at..]).value.length..] == text[next..] && text[next..next] == "";
  }

  lemma ScanMiss(text: string, cursor: nat, at: nat)
    requires cursor <= at < |text| && MatchHead(text[at..]).None?
    ensures Scan(text[cursor..at], text[at..]) == Scan(text[cursor..at + 1], text[at + 1..])
  {
    hide MatchHead;
    assert text[at..][1..] == text[at + 1..];
    assert text[cursor..at] + [text[at..][0]] == text[cursor..at + 1];
  }

  lemma ScanEnds(text: string, cursor: nat)
    requires cursor <= |text|
    ensures Scan(text[cursor..|text|], text[|text|..]) == TextNode(text[cursor..])
  {
    assert text[|text|..] == "" && text[cursor..|text|] == text[cursor..];
  }

  method ParseSqlText(text: string) returns (nodes: seq<Node>)
    ensures nodes == Parse(text)
  {
    hide MatchHead, Scan;
    nodes := [];
    var cursor, at := 0, 0;
    assert text[0..0] == "" && text[0..] == text;
    while at < |text|
      invariant 0 <= cursor <= at <= |text|
      invariant nodes + Scan(text[cursor..at], text[at..]) == Parse(text)
      decreases |text| - at
    {
      ghost var before := nodes;
      var m := MatchHead(text[at..]);
      if m.Some? {
        ScanHit(text, cursor, at);
        if cursor < at {
          nodes := nodes + [Text(text[cursor..at])];
        }
        nodes := nodes + [m.value.node];
        assert nodes == before + (TextNode(text[cursor..at]) + [m.value.node]);
        at := at + m.value.length;
        cursor := at;
      } else {
        ScanMiss(text, cursor, at);
        at := at + 1;
      }
    }
    ScanEnds(text, cursor);
    if cursor < |text| {
      nodes := nodes + [Text(text[cursor..])];
    }
  }

  // ----- printing -----

  function PrintNode(n: Node): string {
    match n
    case Text(text) => text
    case Ref(name) => REF + name + ")"
    case Bound(isStart) => if isStart then START else END
  }

  function Print(nodes: seq<Node>): string {
    if nodes == [] then "" else PrintNode(nodes[0]) + Print(nodes[1..])
  }

  lemma {:induction false} PrintConcat(xs: seq<Node>, ys: seq<Node>)
    ensures Print(xs + ys) == Print(xs) + Print(ys)
  {
    if xs == [] {
      assert xs + ys == ys;
    } else {
      assert (xs + ys)[1..] == xs[1..] + ys;
      PrintConcat(xs[1..], ys);
    }
  }

  /** The text with the white space just inside its `@ref( )` removed. */
  function Squeezed(s: string): string
    decreases |s|
  {
    if s == "" then ""
    else if MatchHead(s).Some? then PrintNode(MatchHead(s).value.node) + Squeezed(s[MatchHead(s).value.length..])
    else [s[0]] + Squeezed(s[1..])
  }

  lemma PrintText(text: string)
    ensures Print(TextNode(text)) == text
  {
    if text != "" { assert [Text(text)][1..] == []; }
  }

  lemma {:induction false} PrintScan(before: string, s: string)
    ensures Print(Scan(before, s)) == before + Squeezed(s)
    decreases |s|
  {
    hide MatchHead, PrintNode, TextNode;
    PrintText(before);
    if s != "" {
      if MatchHead(s).Some? {
        var n, rest := MatchHead(s).value.node, s[MatchHead(s).value.length..];
        PrintScan("", rest);
        PrintConcat(TextNode(before) + [n], Scan("", rest));
        PrintConcat(TextNode(before), [n]);
        assert [n][1..] == [];
      } else {
        PrintScan(before + [s[0]], s[1..]);
      }
    }
  }

  lemma PrintIsSqueezed(text: string)
    ensures Print(Parse(text)) == Squeezed(text)
  {
    PrintScan("", text);
  }

  // ----- and back -----

  lemma {:induction false} LeadNameExact(name: string, rest: string)
    requires (forall i | 0 <= i < |name| :: IsNameChar(name[i])) && (rest == "" || !IsNameChar(rest[0]))
    ensures LeadName(name + rest) == |name|
  {
    hide IsNameChar;
    if name == "" {
      assert name + rest == rest;
    } else {
      var s := name + rest;
      assert s[1..] == name[1..] + rest;
      assert s[0] == name[0] && IsNameChar(s[0]);
      forall i | 0 <= i < |name[1..]| ensures IsNameChar(name[1..][i]) {
        assert name[1..][i] == name[i + 1];
      }
      LeadNameExact(name[1..], rest);
    }
  }

  lemma {:induction false} LeadNameMax(s: string)
    ensures forall i | 0 <= i < LeadName(s) :: IsNameChar(s[i])
  {
    hide IsNameChar;
    if s != "" && IsNameChar(s[0]) {
      LeadNameMax(s[1..]);
      forall i | 0 <= i < LeadName(s) ensures IsNameChar(s[i]) {
        if i > 0 { assert s[i] == s[1..][i - 1]; }
      }
    }
  }

  predicate RefName(name: string) {
    name != "" && forall i | 0 <= i < |name| :: IsNameChar(name[i])
  }

  lemma NameMatches(name: string, rest: string)
    requires RefName(name)
    ensures MatchName(name + (")" + rest)) == Some((name, |name|))
  {
    var tail := ")" + rest;
    var inner := name + tail;
    assert !IsSpace(inner[0]) by { assert IsNameChar(name[0]); }
    assert !IsSpace(tail[0]) && !IsNameChar(tail[0]);
    LeadNameExact(name, tail);
    hide IsSpace, IsNameChar;
    assert LeadSpaces(inner) == 0 && inner[0..] == inner;
    assert inner[|name|..] == tail && LeadSpaces(tail) == 0;
    assert inner[..|name|] == name;
  }

  lemma RefBegins(inner: string)
    ensures Begins(REF + inner, REF) && (REF + inner)[5..] == inner
  {
    assert (REF + inner)[..5] == REF;
  }

  /** A printed reference is matched as itself. */
  lemma RefMatches(name: string, rest: string)
    requires RefName(name)
    ensures MatchHead(REF + name + ")" + rest) == Some(Match(Ref(name), |name| + 6))
  {
    hide MatchName, Begins, RefName;
    var inner := name + (")" + rest);
    NameMatches(name, rest);
    RefBegins(inner);
    assert REF + name + ")" + rest == REF + inner;
  }

  lemma NotBegins(s: string, prefix: string, i: nat)
    requires i < |s| && i < |prefix| && s[i] != prefix[i]
    ensures !Begins(s, prefix)
  {
    assert |prefix| <= |s| ==> s[..|prefix|][i] == s[i];
  }

  /** A bound is one unless a letter, a digit or an underscore follows. */
  lemma BoundExact(isStart: bool, rest: string)
    ensures MatchHead(PrintNode(Bound(isStart)) + rest)
            == if rest != "" && rest[0] in WORD_CHARS then None
               else Some(Match(Bound(isStart), |PrintNode(Bound(isStart))|))
  {
    hide MatchHead, IsWord;
    BoundMatches(isStart, rest);
    if rest != "" { WordExact(rest[0]); }
  }

  lemma BoundMatches(isStart: bool, rest: string)
    ensures Boundary(rest) <==> MatchHead(PrintNode(Bound(isStart)) + rest).Some?
    ensures Boundary(rest) ==>
              MatchHead(PrintNode(Bound(isStart)) + rest) == Some(Match(Bound(isStart), |PrintNode(Bound(isStart))|))
  {
    var s := PrintNode(Bound(isStart)) + rest;
    assert s[1] == if isStart then 's' else 'e';
    NotBegins(s, REF, 1);
    if isStart {
      NotBegins(s, END, 1);
      assert s[..6] == START && s[6..] == rest;
    } else {
      NotBegins(s, START, 1);
      assert s[..4] == END && s[4..] == rest;
    }
  }

  /** A token of the printed text that is none of the nodes starts inside this text. */
  ghost predicate NoMatchIn(text: string, rest: string) {
    forall i | 0 <= i < |text| :: MatchHead(text[i..] + rest).None?
  }

  /**
   * The nodes a parser could have made: no empty or touching texts, proper reference names,
   * a word boundary after each bound, and no token that begins inside a text.
   */
  ghost predicate Faithful(nodes: seq<Node>) {
    nodes == [] ||
    (Faithful(nodes[1..]) &&
     match nodes[0]
     case Ref(name) => RefName(name)
     case Bound(_) => Boundary(Print(nodes[1..]))
     case Text(text) =>
       text != "" && NoMatchIn(text, Print(nodes[1..])) && (nodes[1..] == [] || !nodes[1].Text?))
  }

  lemma NoMatchRest(text: string, rest: string)
    requires text != "" && NoMatchIn(text, rest)
    ensures MatchHead(text + rest).None? && NoMatchIn(text[1..], rest)
  {
    hide MatchHead;
    assert text[0..] == text;
    forall i | 0 <= i < |text[1..]| ensures MatchHead(text[1..][i..] + rest).None? {
      assert text[1..][i..] == text[i + 1..];
    }
  }

  lemma ScanSkips(before: string, s: string)
    requires s != "" && MatchHead(s).None?
    ensures Scan(before, s) == Scan(before + [s[0]], s[1..])
  {
    hide MatchHead;
  }

  lemma {:induction false} ScanText(before: string, text: string, rest: string)
    requires NoMatchIn(text, rest)
    ensures Scan(before, text + rest) == Scan(before + text, rest)
    decreases |text|
  {
    hide MatchHead, NoMatchIn, Scan;
    if text == "" {
      assert text + rest == rest && before + text == before;
    } else {
      NoMatchRest(text, rest);
      ScanSkips(before, text + rest);
      assert (text + rest)[0] == text[0] && (text + rest)[1..] == text[1..] + rest;
      ScanText(before + [text[0]], text[1..], rest);
      assert before + [text[0]] + text[1..] == before + text;
    }
  }

  lemma HeadMatches(nodes: seq<Node>)
    requires nodes != [] && Faithful(nodes) && !nodes[0].Text?
    ensures var m := MatchHead(Print(nodes));
            m.Some? && m.value.node == nodes[0] && Print(nodes)[m.value.length..] == Print(nodes[1..])
  {
    var rest := Print(nodes[1..]);
    match nodes[0] {
      case Ref(name) =>
        RefMatches(name, rest);
        assert REF + name + ")" + rest == Print(nodes);
      case Bound(isStart) =>
        BoundMatches(isStart, rest);
      case Text(_) =>
    }
  }

  /** After a text, the scan goes on with the next token or ends. */
  lemma TextThenRest(text: string, tail: seq<Node>)
    requires text != "" && NoMatchIn(text, Print(tail)) && Faithful(tail) && (tail == [] || !tail[0].Text?)
    ensures Parse(text + Print(tail)) == [Text(text)] + Parse(Print(tail))
  {
    hide MatchHead, RefName, Boundary, NoMatchIn;
    var rest := Print(tail);
    ScanText("", text, rest);
    assert "" + text == text;
    if tail != [] {
      HeadMatches(tail);
    }
  }

  lemma {:induction false} FaithfulParses(nodes: seq<Node>)
    requires Faithful(nodes)
    ensures Parse(Print(nodes)) == nodes
  {
    hide MatchHead, RefName, Boundary, NoMatchIn;
    if nodes != [] {
      var tail := nodes[1..];
      FaithfulParses(tail);
      assert nodes == [nodes[0]] + tail;
      if nodes[0].Text? {
        TextThenRest(nodes[0].text, tail);
      } else {
        HeadMatches(nodes);
      }
    }
  }

  // ----- exactly -----

  lemma NameShape(inner: string)
    requires MatchName(inner).Some?
    ensures RefName(MatchName(inner).value.0) && |MatchName(inner).value.0| <= MatchName(inner).value.1
  {
    hide IsNameChar;
    var a := LeadSpaces(inner);
    var b := LeadName(inner[a..]);
    LeadNameMax(inner[a..]);
    assert inner[a..a + b] == inner[a..][..b];
  }

  lemma RefMatchShape(s: string)
    requires MatchRef(s).Some?
    ensures RefName(MatchRef(s).value.node.name)
    ensures |PrintNode(MatchRef(s).value.node)| <= MatchRef(s).value.length
  {
    hide MatchName, RefName;
    NameShape(s[5..]);
  }

  lemma {:induction false} SqueezedShorter(s: string)
    ensures |Squeezed(s)| <= |s|
    decreases |s|
  {
    if s != "" {
      if MatchHead(s).Some? {
        if MatchRef(s).Some? { RefMatchShape(s); }
        SqueezedShorter(s[MatchHead(s).value.length..]);
      } else {
        SqueezedShorter(s[1..]);
      }
    }
  }

  /** In a text with nothing to squeeze, every match is printed as it was written. */
  lemma TightMatch(s: string)
    requires s != "" && Squeezed(s) == s && MatchHead(s).Some?
    ensures var m := MatchHead(s).value;
            PrintNode(m.node) + s[m.length..] == s && Squeezed(s[m.length..]) == s[m.length..]
  {
    var m := MatchHead(s).value;
    if MatchRef(s).Some? { RefMatchShape(s); }
    var rest := s[m.length..];
    SqueezedShorter(rest);
    assert |PrintNode(m.node)| == m.length && |Squeezed(rest)| == |rest|;
    assert s[m.length..] == Squeezed(rest);
  }

  lemma {:induction false} TightIsFaithful(before: string, s: string)
    requires Squeezed(s) == s && NoMatchIn(before, s)
    ensures Faithful(Scan(before, s))
    decreases |s|
  {
    hide MatchHead, RefName, Boundary;
    PrintScan("", s);
    if s == "" {
      assert Scan(before, s) == TextNode(before);
      assert before != "" ==> [Text(before)][1..] == [];
    } else if MatchHead(s).Some? {
      var m := MatchHead(s).value;
      var rest := s[m.length..];
      TightMatch(s);
      TightIsFaithful("", rest);
      PrintScan("", rest);
      TightNode(s);
      var tail := Scan("", rest);
      var withNode := [m.node] + tail;
      assert withNode[1..] == tail;
      assert "" + rest == rest;
      assert Faithful(withNode);
      assert Print(withNode) == s;
      if before != "" {
        assert ([Text(before)] + withNode)[1..] == withNode;
        assert Scan(before, s) == [Text(before)] + withNode;
      } else {
        assert Scan(before, s) == withNode;
      }
    } else {
      assert [s[0]] + s[1..] == s;
      ExtendNoMatch(before, s);
      TightIsFaithful(before + [s[0]], s[1..]);
    }
  }

  lemma TightNode(s: string)
    requires MatchHead(s).Some?
    ensures var m := MatchHead(s).value;
            match m.node case Ref(name) => RefName(name) case Bound(_) => Boundary(s[m.length..]) case Text(_) => false
  {
    if MatchRef(s).Some? { RefMatchShape(s); }
  }

  lemma ExtendNoMatch(before: string, s: string)
    requires s != "" && NoMatchIn(before, s) && MatchHead(s).None?
    ensures NoMatchIn(before + [s[0]], s[1..])
  {
    var more := before + [s[0]];
    forall i | 0 <= i < |more| ensures MatchHead(more[i..] + s[1..]).None? {
      if i < |before| {
        assert more[i..] + s[1..] == before[i..] + s;
      } else {
        assert more[i..] + s[1..] == s;
      }
    }
  }

  /** Printed nodes parse back to themselves exactly when they are faithful. */
  lemma ParseOfPrintExact(nodes: seq<Node>)
    ensures Parse(Print(nodes)) == nodes <==> Faithful(nodes)
  {
    if Faithful(nodes) {
      FaithfulParses(nodes);
    } else if Parse(Print(nodes)) == nodes {
      PrintIsSqueezed(Print(nodes));
      TightIsFaithful("", Print(nodes));
    }
  }

  // ----- what parsing and printing does to a text -----

  /** A stretch of the source: text, `@ref(` `pre` `name` `post` `)`, or a bound. */
  datatype Piece = Plain(text: string) | Reference(pre: string, name: string, post: string) | Mark(isStart: bool)

  function Written(p: Piece): string {
    match p
    case Plain(text) => text
    case Reference(pre, name, post) => REF + pre + name + post + ")"
    case Mark(isStart) => PrintNode(Bound(isStart))
  }

  function Source(ps: seq<Piece>): string {
    if ps == [] then "" else Written(ps[0]) + Source(ps[1..])
  }

  /** The white space of a reference dropped. */
  function Tight(p: Piece): Piece {
    if p.Reference? then p.(pre := "", post := "") else p
  }

  function Tightened(ps: seq<Piece>): seq<Piece> {
    seq(|ps|, i requires 0 <= i < |ps| => Tight(ps[i]))
  }

  function NodeOf(p: Piece): Node {
    match p
    case Plain(text) => Text(text)
    case Reference(_, name, _) => Ref(name)
    case Mark(isStart) => Bound(isStart)
  }

  function NodesOf(ps: seq<Piece>): seq<Node> {
    seq(|ps|, i requires 0 <= i < |ps| => NodeOf(ps[i]))
  }

  ghost predicate Blank(s: string) {
    forall i | 0 <= i < |s| :: IsSpace(s[i])
  }

  /** Only white space around the name, and no token begins inside a text. */
  ghost predicate ProperPieces(ps: seq<Piece>) {
    ps == [] ||
    (ProperPieces(ps[1..]) &&
     match ps[0]
     case Plain(text) => text != "" && NoMatchIn(text, Source(ps[1..]))
     case Reference(pre, name, post) => Blank(pre) && RefName(name) && Blank(post)
     case Mark(_) => Boundary(Source(ps[1..])))
  }

  /** What stands between `@ref(` and its `)`, in three parts. */
  function PartsOf(inner: string): (p: Piece)
    ensures p.Reference?
  {
    var a := LeadSpaces(inner);
    var b := LeadName(inner[a..]);
    var c := LeadSpaces(inner[a + b..]);
    Reference(inner[..a], inner[a..a + b], inner[a + b..a + b + c])
  }

  /** The token a match stands for, as written. */
  function PieceAt(s: string): Piece
    requires MatchHead(s).Some?
  {
    if MatchRef(s).Some? then PartsOf(s[5..]) else Mark(MatchHead(s).value.node.isStart)
  }

  function PlainPiece(text: string): seq<Piece> {
    if text == "" then [] else [Plain(text)]
  }

  function PiecesFrom(before: string, s: string): seq<Piece>
    decreases |s|
  {
    if s == "" then PlainPiece(before)
    else if MatchHead(s).Some? then
      PlainPiece(before) + [PieceAt(s)] + PiecesFrom("", s[MatchHead(s).value.length..])
    else PiecesFrom(before + [s[0]], s[1..])
  }

  function Pieces(text: string): seq<Piece> {
    PiecesFrom("", text)
  }

  lemma {:induction false} LeadSpacesBlank(s: string)
    ensures Blank(s[..LeadSpaces(s)])
  {
    hide IsSpace;
    if s != "" && IsSpace(s[0]) {
      LeadSpacesBlank(s[1..]);
      var n := LeadSpaces(s);
      forall i | 0 <= i < n ensures IsSpace(s[..n][i]) {
        if i > 0 { assert s[..n][i] == s[1..][..n - 1][i - 1]; }
      }
    }
  }

  lemma ThreeSlices(s: string, a: nat, b: nat, c: nat)
    requires a + b + c < |s| && s[a + b + c] == ')'
    ensures s[..a] + s[a..a + b] + s[a + b..a + b + c] + ")" == s[..a + b + c + 1]
  {
    assert s[..a] + s[a..a + b] == s[..a + b];
    assert s[..a + b] + s[a + b..a + b + c] == s[..a + b + c];
    assert s[..a + b + c] + [s[a + b + c]] == s[..a + b + c + 1];
  }

  lemma PartsWritten(inner: string)
    requires MatchName(inner).Some?
    ensures var p := PartsOf(inner);
            && p.name == MatchName(inner).value.0
            && p.pre + p.name + p.post + ")" == inner[..MatchName(inner).value.1 + 1]
  {
    var a := LeadSpaces(inner);
    var b := LeadName(inner[a..]);
    var c := LeadSpaces(inner[a + b..]);
    hide LeadSpaces, LeadName;
    ThreeSlices(inner, a, b, c);
  }

  lemma BlankSlice(s: string, from: nat)
    requires from <= |s|
    ensures Blank(s[from..from + LeadSpaces(s[from..])])
  {
    hide Blank;
    var n := LeadSpaces(s[from..]);
    LeadSpacesBlank(s[from..]);
    hide LeadSpaces;
    assert s[from..][..n] == s[from..from + n];
  }

  lemma PartsBlank(inner: string)
    ensures Blank(PartsOf(inner).pre) && Blank(PartsOf(inner).post)
  {
    hide Blank, LeadSpaces, LeadName;
    LeadSpacesBlank(inner);
    BlankSlice(inner, LeadSpaces(inner) + LeadName(inner[LeadSpaces(inner)..]));
  }

  lemma AfterHead(s: string, n: nat)
    requires |s| >= 5 && s[..5] == REF && n <= |s| - 5
    ensures REF + s[5..][..n] == s[..5 + n]
  {
    assert s == REF + s[5..];
  }

  lemma ReferencePiece(s: string)
    requires MatchRef(s).Some?
    ensures var p, m := PartsOf(s[5..]), MatchRef(s).value;
            && Written(p) == s[..m.length] && m.node == Ref(p.name)
            && Blank(p.pre) && RefName(p.name) && Blank(p.post)
  {
    hide Blank, RefName, MatchName, PartsOf;
    var inner := s[5..];
    PartsWritten(inner);
    PartsBlank(inner);
    NameShape(inner);
    var p := PartsOf(inner);
    AfterHead(s, MatchName(inner).value.1 + 1);
    assert REF + p.pre + p.name + p.post + ")" == REF + (p.pre + p.name + p.post + ")");
  }

  /** A match is exactly the piece as written, stands for its node, and is properly shaped. */
  lemma MatchIsPiece(s: string)
    requires MatchHead(s).Some?
    ensures var p, m := PieceAt(s), MatchHead(s).value;
            && NodeOf(p) == m.node && Written(p) == s[..m.length] && !p.Plain?
            && (p.Reference? ==> Blank(p.pre) && RefName(p.name) && Blank(p.post))
            && (p.Mark? ==> Boundary(s[m.length..]))
  {
    hide Blank, RefName, PartsOf, MatchRef;
    if MatchRef(s).Some? {
      ReferencePiece(s);
    } else {
      hide Written;
      MarkPiece(s);
    }
  }

  lemma MarkPiece(s: string)
    requires MatchBound(s).Some?
    ensures var m := MatchBound(s).value;
            Written(Mark(m.node.isStart)) == s[..m.length] && Boundary(s[m.length..])
  {
  }

  lemma {:induction false} SourceConcat(xs: seq<Piece>, ys: seq<Piece>)
    ensures Source(xs + ys) == Source(xs) + Source(ys)
  {
    hide Written;
    if xs == [] {
      assert xs + ys == ys;
    } else {
      assert (xs + ys)[1..] == xs[1..] + ys;
      SourceConcat(xs[1..], ys);
    }
  }

  lemma SourceHead(p: Piece, ps: seq<Piece>)
    ensures Source([p] + ps) == Written(p) + Source(ps) && ([p] + ps)[1..] == ps
  {
  }

  lemma SourcePlain(text: string, ps: seq<Piece>)
    ensures Source(PlainPiece(text) + ps) == text + Source(ps)
  {
    if text == "" {
      assert PlainPiece(text) + ps == ps;
    } else {
      SourceHead(Plain(text), ps);
    }
  }

  lemma SourceThree(text: string, p: Piece, ps: seq<Piece>)
    ensures Source(PlainPiece(text) + [p] + ps) == text + (Written(p) + Source(ps))
  {
    hide Written, PlainPiece;
    SourceHead(p, ps);
    SourcePlain(text, [p] + ps);
    assert PlainPiece(text) + [p] + ps == PlainPiece(text) + ([p] + ps);
  }

  lemma SourceEnd(text: string)
    ensures Source(PlainPiece(text)) == text + ""
  {
    SourcePlain(text, []);
    assert PlainPiece(text) + [] == PlainPiece(text);
  }

  /** The pieces are the text, nothing lost and nothing moved. */
  lemma {:induction false} PiecesSource(before: string, s: string)
    ensures Source(PiecesFrom(before, s)) == before + s
    decreases |s|
  {
    hide MatchHead, PieceAt, Written, NodeOf, PlainPiece, Source;
    if s == "" {
      SourceEnd(before);
    } else if MatchHead(s).Some? {
      var n := MatchHead(s).value.length;
      PiecesSource("", s[n..]);
      MatchIsPiece(s);
      SourceThree(before, PieceAt(s), PiecesFrom("", s[n..]));
      assert "" + s[n..] == s[n..];
      assert s[..n] + s[n..] == s;
    } else {
      PiecesSource(before + [s[0]], s[1..]);
      assert [s[0]] + s[1..] == s;
      assert before + [s[0]] + s[1..] == before + ([s[0]] + s[1..]);
    }
  }

  lemma NodesThree(text: string, p: Piece, ps: seq<Piece>)
    ensures NodesOf(PlainPiece(text) + [p] + ps) == TextNode(text) + [NodeOf(p)] + NodesOf(ps)
  {
    NodesOne(p);
    NodesPlain(text);
    hide NodesOf, NodeOf, PlainPiece, TextNode;
    NodesConcat(PlainPiece(text), [p]);
    NodesConcat(PlainPiece(text) + [p], ps);
  }

  lemma NodesOne(p: Piece)
    ensures NodesOf([p]) == [NodeOf(p)]
  {
  }

  lemma NodesPlain(text: string)
    ensures NodesOf(PlainPiece(text)) == TextNode(text)
  {
  }

  lemma {:induction false} PiecesNodes(before: string, s: string)
    ensures NodesOf(PiecesFrom(before, s)) == Scan(before, s)
    decreases |s|
  {
    hide MatchHead, PieceAt, NodesOf, NodeOf, PlainPiece, TextNode;
    if s == "" {
      NodesPlain(before);
    } else if MatchHead(s).Some? {
      PiecesNodes("", s[MatchHead(s).value.length..]);
      MatchNode(s);
      NodesThree(before, PieceAt(s), PiecesFrom("", s[MatchHead(s).value.length..]));
    } else {
      PiecesNodes(before + [s[0]], s[1..]);
    }
  }

  lemma MatchNode(s: string)
    requires MatchHead(s).Some?
    ensures NodeOf(PieceAt(s)) == MatchHead(s).value.node
  {
    hide Written;
    MatchIsPiece(s);
  }

  lemma NodesConcat(xs: seq<Piece>, ys: seq<Piece>)
    ensures NodesOf(xs + ys) == NodesOf(xs) + NodesOf(ys)
  {
  }

  lemma ProperHead(p: Piece, ps: seq<Piece>)
    requires ProperPieces(ps)
    requires match p
             case Plain(text) => text != "" && NoMatchIn(text, Source(ps))
             case Reference(pre, name, post) => Blank(pre) && RefName(name) && Blank(post)
             case Mark(_) => Boundary(Source(ps))
    ensures ProperPieces([p] + ps)
  {
    assert ([p] + ps)[1..] == ps;
  }

  /** A token in front of proper pieces, and the text before it. */
  lemma HitProper(before: string, s: string, p: Piece, ps: seq<Piece>)
    requires NoMatchIn(before, s) && s == Written(p) + Source(ps) && ProperPieces(ps) && !p.Plain?
    requires p.Reference? ==> Blank(p.pre) && RefName(p.name) && Blank(p.post)
    requires p.Mark? ==> Boundary(Source(ps))
    ensures ProperPieces(PlainPiece(before) + [p] + ps)
  {
    hide NoMatchIn, Blank, RefName, Boundary, Written, ProperPieces;
    ProperHead(p, ps);
    SourceHead(p, ps);
    if before == "" {
      assert PlainPiece(before) + [p] + ps == [p] + ps;
    } else {
      ProperHead(Plain(before), [p] + ps);
      assert PlainPiece(before) + [p] + ps == [Plain(before)] + ([p] + ps);
    }
  }

  lemma EndProper(before: string)
    requires NoMatchIn(before, "")
    ensures ProperPieces(PlainPiece(before))
  {
    hide NoMatchIn;
    if before != "" {
      assert [Plain(before)][1..] == [];
    }
  }

  lemma PiecesHit(before: string, s: string)
    requires MatchHead(s).Some? && ProperPieces(PiecesFrom("", s[MatchHead(s).value.length..])) && NoMatchIn(before, s)
    ensures ProperPieces(PlainPiece(before) + [PieceAt(s)] + PiecesFrom("", s[MatchHead(s).value.length..]))
  {
    hide MatchHead, PieceAt, NoMatchIn, Blank, RefName, Boundary, Written, ProperPieces, Source, PiecesFrom, PlainPiece;
    var n := MatchHead(s).value.length;
    PiecesSource("", s[n..]);
    MatchIsPiece(s);
    assert "" + s[n..] == s[n..];
    assert s == s[..n] + s[n..];
    HitProper(before, s, PieceAt(s), PiecesFrom("", s[n..]));
  }

  lemma {:induction false} PiecesProper(before: string, s: string)
    requires NoMatchIn(before, s)
    ensures ProperPieces(PiecesFrom(before, s))
    decreases |s|
  {
    hide MatchHead, PieceAt, NoMatchIn, ProperPieces, PlainPiece;
    if s == "" {
      EndProper(before);
    } else if MatchHead(s).Some? {
      NothingIn(s[MatchHead(s).value.length..]);
      PiecesProper("", s[MatchHead(s).value.length..]);
      PiecesHit(before, s);
    } else {
      ExtendNoMatch(before, s);
      PiecesProper(before + [s[0]], s[1..]);
    }
  }

  lemma NothingIn(rest: string)
    ensures NoMatchIn("", rest)
  {
  }

  lemma NodesHead(ps: seq<Piece>)
    requires ps != []
    ensures NodesOf(ps) != [] && NodesOf(ps)[0] == NodeOf(ps[0]) && NodesOf(ps)[1..] == NodesOf(ps[1..])
  {
    hide NodeOf;
  }

  lemma TightHead(ps: seq<Piece>)
    requires ps != []
    ensures Tightened(ps) == [Tight(ps[0])] + Tightened(ps[1..])
  {
    hide Tight;
  }

  lemma PrintedTight(p: Piece)
    ensures PrintNode(NodeOf(p)) == Written(Tight(p))
  {
  }

  lemma {:induction false} PrintNodes(ps: seq<Piece>)
    ensures Print(NodesOf(ps)) == Source(Tightened(ps))
  {
    hide NodesOf, Tightened, PrintNode, NodeOf, Written, Tight;
    if ps == [] {
      NoPieces();
    } else {
      PrintNodes(ps[1..]);
      NodesHead(ps);
      TightHead(ps);
      SourceHead(Tight(ps[0]), Tightened(ps[1..]));
      PrintedTight(ps[0]);
    }
  }

  lemma NoPieces()
    ensures NodesOf([]) == [] && Tightened([]) == []
  {
  }

  /**
   * A text is a row of pieces, found leftmost first: plain text in which no token begins,
   * references with white space on either side of the name, and bounds. Parsing gives their
   * nodes, and printing those restores every piece but for the white space in its references.
   */
  lemma PrintOfParse(text: string)
    ensures Source(Pieces(text)) == text && ProperPieces(Pieces(text))
    ensures Parse(text) == NodesOf(Pieces(text))
    ensures Print(Parse(text)) == Source(Tightened(Pieces(text)))
  {
    PiecesSource("", text);
    NothingIn(text);
    PiecesProper("", text);
    PiecesNodes("", text);
    PrintNodes(Pieces(text));
    assert "" + text == text;
  }

  function Despaced(s: string): string {
    if s == "" then "" else (if IsSpace(s[0]) then "" else [s[0]]) + Despaced(s[1..])
  }

  lemma {:induction false} DespacedConcat(s: string, t: string)
    ensures Despaced(s + t) == Despaced(s) + Despaced(t)
  {
    hide IsSpace;
    if s == "" {
      assert s + t == t;
    } else {
      assert (s + t)[1..] == s[1..] + t;
      DespacedConcat(s[1..], t);
    }
  }

  lemma {:induction false} DespacedBlank(s: string)
    requires Blank(s)
    ensures Despaced(s) == ""
  {
    hide IsSpace;
    if s != "" {
      forall i | 0 <= i < |s[1..]| ensures IsSpace(s[1..][i]) { assert s[1..][i] == s[i + 1]; }
      DespacedBlank(s[1..]);
    }
  }

  lemma DespacedPiece(p: Piece)
    requires p.Reference? ==> Blank(p.pre) && Blank(p.post)
    ensures Despaced(Written(p)) == Despaced(Written(Tight(p)))
  {
    hide Blank, Despaced;
    if p.Reference? {
      DespacedBlank(p.pre);
      DespacedBlank(p.post);
      DespacedConcat(REF, p.pre);
      DespacedConcat(REF + p.pre, p.name);
      DespacedConcat(REF + p.pre + p.name, p.post);
      DespacedConcat(REF + p.pre + p.name + p.post, ")");
      DespacedConcat(REF, p.name);
      DespacedConcat(REF + p.name, ")");
      assert Written(Tight(p)) == REF + p.name + ")";
    }
  }

  lemma {:induction false} DespacedPieces(ps: seq<Piece>)
    requires ProperPieces(ps)
    ensures Despaced(Source(ps)) == Despaced(Source(Tightened(ps)))
  {
    hide Blank, Despaced, Written, Tight, NoMatchIn, RefName, Boundary;
    if ps == [] {
      assert Tightened(ps) == [];
    } else {
      DespacedPieces(ps[1..]);
      DespacedPiece(ps[0]);
      TightHead(ps);
      SourceHead(Tight(ps[0]), Tightened(ps[1..]));
      DespacedConcat(Written(ps[0]), Source(ps[1..]));
      DespacedConcat(Written(Tight(ps[0])), Source(Tightened(ps[1..])));
    }
  }

  /** Parsing and printing changes nothing but white space. */
  lemma OnlySpaceIsLost(text: string)
    ensures Despaced(Print(Parse(text))) == Despaced(text)
  {
    hide Despaced, ProperPieces;
    PrintOfParse(text);
    DespacedPieces(Pieces(text));
  }

  ghost predicate AllTight(ps: seq<Piece>) {
    forall i | 0 <= i < |ps| :: ps[i].Reference? ==> ps[i].pre == "" == ps[i].post
  }

  lemma {:induction false} TightLength(ps: seq<Piece>)
    ensures |Source(Tightened(ps))| <= |Source(ps)|
    ensures |Source(Tightened(ps))| == |Source(ps)| <==> AllTight(ps)
  {
    if ps != [] {
      TightLength(ps[1..]);
      TightHead(ps);
      SourceHead(Tight(ps[0]), Tightened(ps[1..]));
      assert ps == [ps[0]] + ps[1..];
    }
  }

  /** A text is restored exactly when none of its references has white space around the name. */
  lemma RestoredExact(text: string)
    ensures Print(Parse(text)) == text <==> AllTight(Pieces(text))
  {
    hide ProperPieces, Source;
    PrintOfParse(text);
    TightLength(Pieces(text));
    if AllTight(Pieces(text)) {
      assert Tightened(Pieces(text)) == Pieces(text);
    }
  }

  lemma SpacedName()
    ensures MatchName(" y )") == Some(("y", 3))
  {
    var inner := " y )";
    assert IsSpace(' ') && !IsSpace('y') && IsNameChar('y') && !IsNameChar(' ') && !IsSpace(')');
    hide IsSpace, IsNameChar;
    assert inner[1..] == "y )" && "y )"[1..] == " )" && " )"[1..] == ")";
    assert LeadSpaces("y )") == 0 && LeadSpaces(inner) == 1;
    assert LeadName(" )") == 0 && LeadName("y )") == 1;
    assert inner[1 + 1..] == " )" && LeadSpaces(")") == 0 && LeadSpaces(" )") == 1;
    assert inner[1..1 + 1] == "y";
  }

  lemma SpacedRef()
    ensures MatchHead("@ref( y )") == Some(Match(Ref("y"), 9))
  {
    hide MatchName, Begins;
    SpacedName();
    RefBegins(" y )");
    assert REF + " y )" == "@ref( y )";
  }

  /** A name followed by white space and then by something else than `)` is none. */
  lemma NoName(name: string, rest: string)
    requires RefName(name) && |rest| >= 2 && IsSpace(rest[0]) && !IsSpace(rest[1]) && rest[1] != ')'
    ensures MatchName(name + rest).None?
  {
    var inner := name + rest;
    assert !IsSpace(inner[0]) by { assert IsNameChar(name[0]); }
    LeadNameExact(name, rest);
    hide IsSpace, IsNameChar, RefName;
    assert LeadSpaces(inner) == 0 && inner[0..] == inner && inner[|name|..] == rest;
    assert LeadSpaces(rest[1..]) == 0;
    assert inner[|name| + 1] == rest[1];
  }

  lemma HiddenRef()
    ensures MatchHead("@ref(@ref( y )").None?
  {
    var name, rest := "@ref(", " y )";
    assert RefName(name);
    NoName(name, rest);
    hide MatchName, IsSpace, RefName;
    var s := REF + (name + rest);
    RefBegins(name + rest);
    NotBegins(s, START, 1);
    NotBegins(s, END, 1);
    hide Begins;
    assert s == "@ref(@ref( y )";
  }

  lemma NotAt(s: string)
    requires s != "" && s[0] != '@'
    ensures MatchHead(s).None?
  {
    NotBegins(s, REF, 0);
    NotBegins(s, START, 0);
    NotBegins(s, END, 0);
  }

  lemma NotInside(text: string, rest: string, i: nat)
    requires i < |text| && text[i] != '@'
    ensures MatchHead(text[i..] + rest).None?
  {
    hide MatchHead;
    var s := text[i..] + rest;
    assert s[0] == text[i];
    NotAt(s);
  }

  lemma ScanToken(before: string, s: string)
    requires MatchHead(s).Some? && MatchHead(s).value.length == |s|
    ensures Scan(before, s) == TextNode(before) + [MatchHead(s).value.node]
  {
    assert s[|s|..] == "";
  }

  lemma NoneInLead()
    ensures NoMatchIn("@ref(", "@ref( y )")
  {
    hide MatchHead;
    var lead, token := "@ref(", "@ref( y )";
    HiddenRef();
    assert lead + token == "@ref(@ref( y )" && lead[0..] == lead;
    forall i | 0 <= i < |lead| ensures MatchHead(lead[i..] + token).None? {
      if i > 0 { NotInside(lead, token, i); }
    }
  }

  lemma HiddenTokenParses()
    ensures Parse("@ref(" + "@ref( y )") == [Text("@ref("), Ref("y")]
  {
    hide MatchHead, NoMatchIn;
    var lead, token := "@ref(", "@ref( y )";
    SpacedRef();
    NoneInLead();
    ScanText("", lead, token);
    assert "" + lead == lead;
    ScanToken(lead, token);
  }

  lemma RefParses(name: string)
    requires RefName(name)
    ensures Parse(REF + name + ")") == [Ref(name)]
  {
    hide MatchHead;
    RefMatches(name, "");
    var s := REF + name + ")";
    assert s + "" == s;
    ScanToken("", s);
  }

  lemma PrintPair(a: Node, b: Node)
    ensures Print([a, b]) == PrintNode(a) + PrintNode(b)
  {
    PrintConcat([a], [b]);
    assert [a][1..] == [] && [b][1..] == [] && [a] + [b] == [a, b];
  }

  /** White space can keep a token from forming: squeezed out, the text means something else. */
  lemma SqueezingIsNotStable()
    ensures Parse("@ref(" + "@ref( y )") == [Text("@ref("), Ref("y")]
    ensures Parse(Print([Text("@ref("), Ref("y")])) == [Ref("@ref(" + "y")]
  {
    hide Parse;
    HiddenTokenParses();
    PrintPair(Text("@ref("), Ref("y"));
    var name := "@ref(" + "y";
    assert RefName(name);
    RefParses(name);
    assert Print([Text("@ref("), Ref("y")]) == REF + name + ")";
  }
}
