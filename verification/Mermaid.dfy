/**
  The Mermaid printer and parser of packages/shared/src/mermaid.ts. Every regular expression of
  the parser is deterministic, so each becomes a function that consumes what the expression
  matches; the pass over the source text stays a loop. The declaration scan looks for ids followed
  by a bracketed and quoted label anywhere in the text; the edge pass works on the text with all
  brackets removed. The proof of the round trip follows the same two passes: what each finds in
  printed text is what was printed, line by line, and nothing else in the text can match.
 */
module Mermaid {
  import opened Options
  import opened Text

  datatype NodeType = Source | Transform | Sink | Fork | Merge

  /** A node without a label has the empty label, as in the printer's `label || activityType`. */
  datatype Node = Node(id: string, nodeType: NodeType, activityType: string, title: string)

  /** An edge without a condition has the empty condition. */
  datatype Link = Link(source: string, target: string, condition: string)
  datatype PipelineEdge = PipelineEdge(id: string, link: Link)

  datatype CatalogEntry = CatalogEntry(activityType: string, nodeType: NodeType, title: string)

  datatype Warning = UnknownConnector(id: string) | Undeclared(id: string)
  datatype Definition = Definition(nodes: seq<Node>, edges: seq<PipelineEdge>, warnings: seq<Warning>)

  // ----- definition to Mermaid -----

  function Replace(s: string): string {
    seq(|s|, i requires 0 <= i < |s| =>
      if s[i] == '"' then '\'' else if s[i] == '(' || s[i] == ')' then ' ' else s[i])
  }

  /** Every run of white space becomes one space. */
  function Collapse(s: string): string
    decreases |s|
  {
    if s == "" then ""
    else if IsSpace(s[0]) then " " + Collapse(TrimStart(s))
    else [s[0]] + Collapse(s[1..])
  }

  function EscapeLabel(s: string): string {
    Trim(Collapse(Replace(s)))
  }

  function UsedLabel(n: Node): string {
    if n.title != "" then n.title else n.activityType
  }

  function DisplayLabel(n: Node): string {
    EscapeLabel(UsedLabel(n))
  }

  function Slashes(condition: string): string {
    seq(|condition|, i requires 0 <= i < |condition| => if condition[i] == '|' then '/' else condition[i])
  }

  function RawLabel(title: string, activityType: string): string {
    title + " (" + activityType + ")"
  }

  function NodeLine(n: Node): string {
    "  " + n.id + "[\"" + RawLabel(DisplayLabel(n), n.activityType) + "\"]"
  }

  function LinkTail(condition: string, target: string): string {
    (if condition != "" then " |" + Slashes(condition) + "|" else "") + " " + target
  }

  function LinkLine(l: Link): string {
    "  " + l.source + " -->" + LinkTail(l.condition, l.target)
  }

  const HEADER := "flowchart LR"

  function NodeLines(nodes: seq<Node>): seq<string> {
    seq(|nodes|, i requires 0 <= i < |nodes| => NodeLine(nodes[i]))
  }

  function LinkLines(links: seq<Link>): seq<string> {
    seq(|links|, i requires 0 <= i < |links| => LinkLine(links[i]))
  }

  function Lines(nodes: seq<Node>, links: seq<Link>): seq<string> {
    [HEADER] + NodeLines(nodes) + LinkLines(links)
  }

  function Print(nodes: seq<Node>, links: seq<Link>): string {
    Join(Lines(nodes, links), '\n')
  }

  lemma NodeLinesNext(nodes: seq<Node>, i: nat)
    requires i < |nodes|
    ensures [HEADER] + NodeLines(nodes[..i + 1]) == [HEADER] + NodeLines(nodes[..i]) + [NodeLine(nodes[i])]
  {
    hide NodeLine;
    assert nodes[..i + 1][i] == nodes[i];
    assert NodeLines(nodes[..i + 1]) == NodeLines(nodes[..i]) + [NodeLine(nodes[i])];
  }

  lemma LinkLinesNext(links: seq<Link>, i: nat)
    requires i < |links|
    ensures LinkLines(links[..i + 1]) == LinkLines(links[..i]) + [LinkLine(links[i])]
  {
    assert links[..i + 1][i] == links[i];
  }

  method DefinitionToMermaid(nodes: seq<Node>, links: seq<Link>) returns (text: string)
    ensures text == Print(nodes, links)
  {
    var lines := [HEADER];
    var i := 0;
    while i < |nodes|
      invariant 0 <= i <= |nodes| && lines == [HEADER] + NodeLines(nodes[..i])
    {
      NodeLinesNext(nodes, i);
      lines := lines + [NodeLine(nodes[i])];
      i := i + 1;
    }
    assert nodes[..i] == nodes;
    i := 0;
    while i < |links|
      invariant 0 <= i <= |links| && lines == [HEADER] + NodeLines(nodes) + LinkLines(links[..i])
    {
      LinkLinesNext(links, i);
      lines := lines + [LinkLine(links[i])];
      i := i + 1;
    }
    assert links[..i] == links;
    return Join(lines, '\n');
  }

  // ----- Mermaid to definition: node declarations -----

  predicate IsIdChar(c: char) {
    'A' <= c <= 'Z' || 'a' <= c <= 'z' || '0' <= c <= '9' || c == '_' || c == '-'
  }

  predicate IsId(s: string) {
    s != "" && forall i :: 0 <= i < |s| ==> IsIdChar(s[i])
  }

  /** The length of the leading run of id characters. */
  function IdRun(s: string): (n: nat)
    ensures n <= |s| && (forall i :: 0 <= i < n ==> IsIdChar(s[i])) && (n < |s| ==> !IsIdChar(s[n]))
  {
    if s != "" && IsIdChar(s[0]) then 1 + IdRun(s[1..]) else 0
  }

  /** Drops `c` from the front, after any white space. */
  function Expect(s: string, c: char): (r: Option<string>)
    ensures r.Some? ==> |r.value| < |s|
  {
    var t := TrimStart(s);
    if t != "" && t[0] == c then Some(t[1..]) else None
  }

  datatype Declaration = Declaration(id: string, raw: string, rest: string)

  /** A node declaration at the very start of `s`: an id, then `["raw"]` with optional space. */
  function MatchDeclaration(s: string): (r: Option<Declaration>)
    ensures r.Some? ==> |r.value.rest| < |s|
  {
    var n := IdRun(s);
    if n == 0 then None
    else
      var open := Expect(s[n..], '[');
      if open.None? then None
      else
        var quote := Expect(open.value, '"');
        if quote.None? then None
        else
          var end := IndexOf(quote.value, '"');
          if end.None? then None
          else
            var close := Expect(quote.value[end.value + 1..], ']');
            if close.None? then None
            else Some(Declaration(s[..n], quote.value[..end.value], close.value))
  }

  /** The global match: all declarations from left to right, each search starting after the last match. */
  function Declarations(s: string): seq<(string, string)>
    decreases |s|
  {
    if s == "" then []
    else
      var m := MatchDeclaration(s);
      if m.Some? then [(m.value.id, m.value.raw)] + Declarations(m.value.rest)
      else Declarations(s[1..])
  }

  datatype Suffix = Suffix(before: string, inner: string)

  /** The trailing parenthesised part of a title: leftmost "(", no ")" inside, white space after. */
  function MatchSuffix(raw: string): Option<Suffix> {
    if raw == "" then None
    else
      var close := IndexOf(raw[1..], ')');
      if raw[0] == '(' && close.Some? && close.value > 0 && AllSpace(raw[1..][close.value + 1..]) then
        Some(Suffix("", raw[1..][..close.value]))
      else
        var later := MatchSuffix(raw[1..]);
        if later.Some? then Some(Suffix([raw[0]] + later.value.before, later.value.inner)) else None
  }

  /** The catalog as a map: a later entry replaces an earlier one with the same key. */
  function ByType(catalog: seq<CatalogEntry>, activityType: string): Option<CatalogEntry> {
    if catalog == [] then None
    else
      var n := |catalog| - 1;
      if catalog[n].activityType == activityType then Some(catalog[n]) else ByType(catalog[..n], activityType)
  }

  function ByLabel(catalog: seq<CatalogEntry>, lower: string -> string, key: string): Option<CatalogEntry> {
    if catalog == [] then None
    else
      var n := |catalog| - 1;
      if lower(catalog[n].title) == key then Some(catalog[n]) else ByLabel(catalog[..n], lower, key)
  }

  function DefaultNodeType(activityType: string): NodeType {
    var head := Split(activityType, '.')[0];
    if head == "flow" then
      if |activityType| >= 5 && activityType[|activityType| - 5..] == "merge" then Merge else Fork
    else if head == "transform" then Transform
    else if head == "sink" then Sink
    else Source
  }

  function FirstNonEmpty(a: string, b: string): string {
    if a != "" then a else b
  }

  /** What one declaration means, and whether it maps to a catalogued connector. */
  function ParseNode(catalog: seq<CatalogEntry>, lower: string -> string, id: string, raw: string): (Node, bool) {
    var m := MatchSuffix(raw);
    var named := if m.Some? then Trim(m.value.inner) else "";
    var labelText := Trim(if m.Some? then m.value.before else raw);
    var exact := if named != "" then ByType(catalog, named) else None;
    var entry := if exact.Some? then exact else ByLabel(catalog, lower, lower(labelText));
    var activityType := if exact.None? && entry.Some? then entry.value.activityType else named;
    if entry.Some? then
      (Node(id, entry.value.nodeType, FirstNonEmpty(activityType, entry.value.activityType),
            FirstNonEmpty(labelText, FirstNonEmpty(entry.value.title, id))), true)
    else
      (Node(id, DefaultNodeType(FirstNonEmpty(activityType, "transform.map")), activityType,
            FirstNonEmpty(labelText, id)), false)
  }

  predicate HasNode(nodes: seq<Node>, id: string) {
    exists i :: 0 <= i < |nodes| && nodes[i].id == id
  }

  /** Setting a key of an insertion-ordered map. */
  function PutNode(nodes: seq<Node>, n: Node): seq<Node> {
    if nodes == [] then [n]
    else if nodes[0].id == n.id then [n] + nodes[1..]
    else [nodes[0]] + PutNode(nodes[1..], n)
  }

  function DeclareOne(catalog: seq<CatalogEntry>, lower: string -> string, d: Definition, m: (string, string)): Definition {
    var (node, known) := ParseNode(catalog, lower, m.0, m.1);
    d.(nodes := PutNode(d.nodes, node),
       warnings := if known then d.warnings else d.warnings + [UnknownConnector(m.0)])
  }

  function DeclareAll(catalog: seq<CatalogEntry>, lower: string -> string, d: Definition, ms: seq<(string, string)>): Definition
    decreases |ms|
  {
    if ms == [] then d else DeclareAll(catalog, lower, DeclareOne(catalog, lower, d, ms[0]), ms[1..])
  }

  // ----- Mermaid to definition: edges -----

  /** Removes every bracketed part. */
  function Strip(s: string): string
    decreases |s|
  {
    if s == "" then ""
    else
      var close := IndexOf(s, ']');
      if s[0] == '[' && close.Some? then Strip(s[close.value + 1..]) else [s[0]] + Strip(s[1..])
  }

  predicate ArrowAt(s: string, i: nat) {
    i + 3 <= |s| && s[i] == '-' && s[i + 1] == '-' && s[i + 2] == '>'
  }

  function FindArrow(s: string): (r: Option<nat>)
    ensures r.Some? ==> ArrowAt(s, r.value)
    ensures forall i :: 0 <= i < (if r.Some? then r.value else |s|) ==> !ArrowAt(s, i)
  {
    if s == "" then None
    else if ArrowAt(s, 0) then Some(0)
    else
      var later := FindArrow(s[1..]);
      assert forall i :: 1 <= i <= |s| ==> ArrowAt(s, i) == ArrowAt(s[1..], i - 1);
      if later.Some? then Some(later.value + 1) else None
  }

  /** `line.split("-->")` */
  function SplitArrows(s: string): (r: seq<string>)
    ensures r != []
    decreases |s|
  {
    var i := FindArrow(s);
    if i.None? then [s] else [s[..i.value]] + SplitArrows(s[i.value + 3..])
  }

  /** The id that ends a segment, up to white space. */
  function MatchLeft(s: string): Option<string> {
    var id := IdTail(TrimEnd(s));
    if id == "" then None else Some(id)
  }

  function IdTail(s: string): string {
    if s != "" && IsIdChar(s[|s| - 1]) then IdTail(s[..|s| - 1]) + [s[|s| - 1]] else ""
  }

  /** An optional condition between bars, then the id that starts the segment. */
  function MatchRight(s: string): Option<(string, string)> {
    var t := TrimStart(s);
    var close := if t != "" && t[0] == '|' then IndexOf(t[1..], '|') else None;
    var condition := if close.Some? then t[1..][..close.value] else "";
    var u := if close.Some? then TrimStart(t[1..][close.value + 1..]) else t;
    var n := IdRun(u);
    if n == 0 then None else Some((condition, u[..n]))
  }

  function LinksFrom(segments: seq<string>): seq<Link>
    requires segments != []
  {
    if |segments| == 1 then []
    else
      var left, right := MatchLeft(segments[0]), MatchRight(segments[1]);
      (if left.Some? && right.Some? then [Link(left.value, right.value.1, Trim(right.value.0))] else [])
      + LinksFrom(segments[1..])
  }

  function LinksOf(lines: seq<string>): seq<Link> {
    if lines == [] then [] else LinksFrom(SplitArrows(lines[0])) + LinksOf(lines[1..])
  }

  function Decimal(n: nat): string {
    (if n < 10 then "" else Decimal(n / 10)) + ["0123456789"[n % 10]]
  }

  function EnsureNode(d: Definition, id: string): Definition {
    if HasNode(d.nodes, id) then d
    else Definition(d.nodes + [Node(id, Transform, "", id)], d.edges, d.warnings + [Undeclared(id)])
  }

  function AddLink(d: Definition, l: Link): Definition {
    var e := EnsureNode(EnsureNode(d, l.source), l.target);
    e.(edges := e.edges + [PipelineEdge("e" + Decimal(|e.edges| + 1), l)])
  }

  function AddLinks(d: Definition, links: seq<Link>): Definition
    decreases |links|
  {
    if links == [] then d else AddLinks(AddLink(d, links[0]), links[1..])
  }

  function Parse(src: string, catalog: seq<CatalogEntry>, lower: string -> string): Definition {
    AddLinks(DeclareAll(catalog, lower, Definition([], [], []), Declarations(src)),
             LinksOf(Split(Strip(src), '\n')))
  }

  method MermaidToDefinition(src: string, catalog: seq<CatalogEntry>, lower: string -> string)
      returns (d: Definition)
    ensures d == Parse(src, catalog, lower)
  {
    d := ParseDeclarations(src, catalog, lower);
    d := ParseEdges(Split(Strip(src), '\n'), d);
  }

  /** Pass 1: repeated matching over the source text. */
  method ParseDeclarations(src: string, catalog: seq<CatalogEntry>, lower: string -> string)
      returns (d: Definition)
    ensures d == DeclareAll(catalog, lower, Definition([], [], []), Declarations(src))
  {
    hide MatchDeclaration, DeclareOne;
    d := Definition([], [], []);
    var rest := src;
    while rest != ""
      invariant DeclareAll(catalog, lower, d, Declarations(rest))
             == DeclareAll(catalog, lower, Definition([], [], []), Declarations(src))
      decreases |rest|
    {
      var m := MatchDeclaration(rest);
      if m.Some? {
        DeclareNext(catalog, lower, d, rest);
        d := DeclareOne(catalog, lower, d, (m.value.id, m.value.raw));
        rest := m.value.rest;
      } else {
        rest := rest[1..];
      }
    }
  }

  /** Pass 2: the edges, line by line. */
  method ParseEdges(lines: seq<string>, declared: Definition) returns (d: Definition)
    ensures d == AddLinks(declared, LinksOf(lines))
  {
    hide SplitArrows, AddLink;
    d := declared;
    var i := 0;
    while i < |lines|
      invariant 0 <= i <= |lines|
      invariant AddLinks(d, LinksOf(lines[i..])) == AddLinks(declared, LinksOf(lines))
    {
      LinksOfNext(d, lines[i..]);
      assert lines[i..][1..] == lines[i + 1..];
      d := ParseLine(lines[i], d);
      i := i + 1;
    }
  }

  /** The body of the edge pass: every arrow of one line. */
  method ParseLine(line: string, d0: Definition) returns (d: Definition)
    ensures d == AddLinks(d0, LinksFrom(SplitArrows(line)))
  {
    hide MatchLeft, MatchRight, Trim, SplitArrows, AddLink;
    d := d0;
    var segments := SplitArrows(line);
    var j := 0;
    while j < |segments| - 1
      invariant 0 <= j < |segments|
      invariant AddLinks(d, LinksFrom(segments[j..])) == AddLinks(d0, LinksFrom(segments))
    {
      var left, right := MatchLeft(segments[j]), MatchRight(segments[j + 1]);
      assert segments[j..][1..] == segments[j + 1..];
      if left.Some? && right.Some? {
        LinksFromNext(segments[j..], Link(left.value, right.value.1, Trim(right.value.0)), d);
        d := AddLink(d, Link(left.value, right.value.1, Trim(right.value.0)));
      } else {
        assert LinksFrom(segments[j..]) == LinksFrom(segments[j + 1..]);
      }
      j := j + 1;
    }
  }

  lemma LinksFromNext(segments: seq<string>, l: Link, d: Definition)
    requires |segments| > 1 && MatchLeft(segments[0]).Some? && MatchRight(segments[1]).Some?
    requires var right := MatchRight(segments[1]).value;
             l == Link(MatchLeft(segments[0]).value, right.1, Trim(right.0))
    ensures AddLinks(d, LinksFrom(segments)) == AddLinks(AddLink(d, l), LinksFrom(segments[1..]))
  {
    assert ([l] + LinksFrom(segments[1..]))[1..] == LinksFrom(segments[1..]);
  }

  lemma LinksOfNext(d: Definition, lines: seq<string>)
    requires lines != []
    ensures AddLinks(d, LinksOf(lines)) == AddLinks(AddLinks(d, LinksFrom(SplitArrows(lines[0]))), LinksOf(lines[1..]))
  {
    AddLinksConcat(d, LinksFrom(SplitArrows(lines[0])), LinksOf(lines[1..]));
  }

  lemma DeclareNext(catalog: seq<CatalogEntry>, lower: string -> string, d: Definition, s: string)
    requires s != "" && MatchDeclaration(s).Some?
    ensures var m := MatchDeclaration(s).value;
            DeclareAll(catalog, lower, d, Declarations(s))
            == DeclareAll(catalog, lower, DeclareOne(catalog, lower, d, (m.id, m.raw)), Declarations(m.rest))
  {
    var m := MatchDeclaration(s).value;
    assert ([(m.id, m.raw)] + Declarations(m.rest))[1..] == Declarations(m.rest);
  }

  lemma {:induction false} AddLinksConcat(d: Definition, a: seq<Link>, b: seq<Link>)
    ensures AddLinks(d, a + b) == AddLinks(AddLinks(d, a), b)
    decreases |a|
  {
    if a == [] {
      assert a + b == b;
    } else {
      assert (a + b)[1..] == a[1..] + b;
      AddLinksConcat(AddLink(d, a[0]), a[1..], b);
    }
  }

  // ----- what the printer leaves behind -----

  /** Labels as the printer writes them: no quotes or parentheses, single inner spaces. */
  ghost predicate CleanLabel(s: string) {
    Trimmed(s) && Keeps(Printable, s) && SingleSpaces(s)
  }

  predicate Printable(c: char) {
    c != '"' && c != '(' && c != ')'
  }

  ghost predicate SingleSpaces(s: string) {
    && (forall i :: 0 <= i < |s| ==> IsSpace(s[i]) ==> s[i] == ' ')
    && (forall i :: 1 <= i < |s| ==> !(IsSpace(s[i - 1]) && IsSpace(s[i])))
  }

  /** What collapsing keeps of any property of characters that spaces have as well. */
  ghost predicate Keeps(p: char -> bool, s: string) {
    forall i :: 0 <= i < |s| ==> p(s[i])
  }

  lemma {:induction false} CollapseKeeps(p: char -> bool, s: string)
    requires Keeps(p, s) && p(' ')
    ensures Keeps(p, Collapse(s))
    decreases |s|
  {
    if s == "" {
    } else if IsSpace(s[0]) {
      CollapseKeeps(p, TrimStart(s));
    } else {
      CollapseKeeps(p, s[1..]);
    }
  }

  lemma {:induction false} CollapseSingles(s: string)
    ensures SingleSpaces(Collapse(s))
    ensures s != "" && !IsSpace(s[0]) ==> Collapse(s) != "" && !IsSpace(Collapse(s)[0])
    decreases |s|
  {
    if s == "" {
    } else if IsSpace(s[0]) {
      CollapseSingles(TrimStart(s));
    } else {
      CollapseSingles(s[1..]);
    }
  }

  lemma {:induction false} CollapseFixed(s: string)
    requires SingleSpaces(s)
    ensures Collapse(s) == s
    decreases |s|
  {
    if s == "" {
    } else if IsSpace(s[0]) {
      assert |s| > 1 ==> !IsSpace(s[1]);
      assert TrimStart(s[1..]) == s[1..];
      assert TrimStart(s) == s[1..];
      CollapseFixed(s[1..]);
    } else {
      CollapseFixed(s[1..]);
    }
  }

  lemma SliceKeeps(p: char -> bool, s: string, i: nat, j: nat)
    requires i <= j <= |s|
    ensures Keeps(p, s) ==> Keeps(p, s[i..j])
    ensures SingleSpaces(s) ==> SingleSpaces(s[i..j])
  {
    var t := s[i..j];
    assert forall k :: 0 <= k < |t| ==> t[k] == s[i + k];
  }

  lemma EscapeKeeps(p: char -> bool, s: string)
    requires Keeps(p, Replace(s)) && p(' ')
    ensures Keeps(p, EscapeLabel(s)) && SingleSpaces(EscapeLabel(s)) && Trimmed(EscapeLabel(s))
  {
    var t := Collapse(Replace(s));
    CollapseKeeps(p, Replace(s));
    CollapseSingles(Replace(s));
    hide Collapse, Replace;
    TrimIsTrimmed(t);
    var i, j := TrimSlice(t);
    SliceKeeps(p, t, i, j);
  }

  lemma EscapeIsClean(s: string)
    ensures CleanLabel(EscapeLabel(s))
  {
    EscapeKeeps(Printable, s);
  }

  lemma EscapeFixed(s: string)
    requires CleanLabel(s)
    ensures EscapeLabel(s) == s
  {
    assert Replace(s) == s;
    CollapseFixed(s);
    TrimFixed(s);
  }

  lemma EscapeAvoids(s: string, c: char)
    requires c !in s && c != ' ' && c != '\''
    ensures c !in EscapeLabel(s)
  {
    EscapeKeeps((d: char) => d != c, s);
  }

  /** Trimming takes a slice. */
  lemma TrimSlice(s: string) returns (i: nat, j: nat)
    ensures i <= j <= |s| && Trim(s) == s[i..j]
  {
    i := |s| - |TrimStart(s)|;
    j := i + |Trim(s)|;
  }

  // ----- round trip: declarations -----

  function Unlines(lines: seq<string>): string {
    if lines == [] then "" else "\n" + lines[0] + Unlines(lines[1..])
  }

  lemma {:induction false} JoinIsUnlines(first: string, lines: seq<string>)
    ensures Join([first] + lines, '\n') == first + Unlines(lines)
    decreases |lines|
  {
    if lines == [] {
    } else {
      assert ([first] + lines)[1..] == [lines[0]] + lines[1..];
      JoinIsUnlines(lines[0], lines[1..]);
    }
  }

  lemma {:induction false} IdRunPrefix(id: string, t: string)
    requires forall i :: 0 <= i < |id| ==> IsIdChar(id[i])
    requires t == "" || !IsIdChar(t[0])
    ensures IdRun(id + t) == |id|
  {
    if id == "" {
      assert id + t == t;
    } else {
      assert (id + t)[1..] == id[1..] + t;
      IdRunPrefix(id[1..], t);
    }
  }

  lemma MatchPrinted(id: string, raw: string, rest: string)
    requires IsId(id) && '"' !in raw
    ensures MatchDeclaration(id + "[\"" + raw + "\"]" + rest) == Some(Declaration(id, raw, rest))
  {
    hide TrimStart, IdRun, Expect, IndexOf;
    var quoted := raw + ['"'] + ("]" + rest);
    var s := id + ("[" + ("\"" + quoted));
    assert id + "[\"" + raw + "\"]" + rest == s;
    IdRunPrefix(id, "[" + ("\"" + quoted));
    assert s[|id|..] == "[" + ("\"" + quoted);
    ExpectFirst('[', "\"" + quoted);
    ExpectFirst('"', quoted);
    IndexOfSplit(raw, '"', "]" + rest);
    ExpectFirst(']', rest);
  }

  lemma ExpectFirst(c: char, t: string)
    requires !IsSpace(c)
    ensures Expect([c] + t, c) == Some(t)
  {
    assert TrimStart([c] + t) == [c] + t;
  }

  /** The text after a point cannot complete a declaration begun before it. */
  ghost predicate Harmless(t: string) {
    (t == "" || !IsIdChar(t[0])) && (TrimStart(t) == "" || TrimStart(t)[0] != '[')
  }

  lemma {:induction false} SkipPlain(u: string, t: string)
    requires '[' !in u && Harmless(t)
    ensures Declarations(u + t) == Declarations(t)
  {
    if u == "" {
      assert u + t == t;
    } else {
      NoMatchInPlain(u, t);
      assert (u + t)[1..] == u[1..] + t;
      SkipPlain(u[1..], t);
    }
  }

  lemma NoMatchInPlain(u: string, t: string)
    requires u != "" && '[' !in u && Harmless(t)
    ensures MatchDeclaration(u + t).None?
  {
    hide IdRun, TrimStart, IndexOf;
    var n := IdRun(u);
    IdRunPrefix(u[..n], u[n..] + t);
    assert u + t == u[..n] + (u[n..] + t);
    assert (u + t)[n..] == u[n..] + t;
    TrimStartAcross(u[n..], t);
    NoBracketAhead(u[n..] + t);
  }

  lemma NoBracketAhead(s: string)
    requires TrimStart(s) == "" || TrimStart(s)[0] != '['
    ensures Expect(s, '[').None?
  {
    hide TrimStart;
  }

  lemma {:induction false} TrimStartAcross(u: string, t: string)
    requires '[' !in u && (TrimStart(t) == "" || TrimStart(t)[0] != '[')
    ensures TrimStart(u + t) == "" || TrimStart(u + t)[0] != '['
  {
    if u == "" {
      assert u + t == t;
    } else if IsSpace(u[0]) {
      assert (u + t)[1..] == u[1..] + t;
      TrimStartAcross(u[1..], t);
    }
  }

  /** A printed line begins, after its indentation, with an id. */
  lemma IndentedIsHarmless(id: string, t: string)
    requires IsId(id)
    ensures Harmless("\n  " + id + t)
  {
    var s := id + t;
    assert s[0] == id[0] && IsIdChar(id[0]);
    assert TrimStart(s) == s;
    TrimStartPad("\n  ", s);
    hide TrimStart, IsId;
    assert "\n  " + id + t == "\n  " + s;
  }

  lemma DeclarePrinted(id: string, raw: string, rest: string)
    requires IsId(id) && '"' !in raw
    ensures Declarations("\n  " + (id + "[\"" + raw + "\"]" + rest)) == [(id, raw)] + Declarations(rest)
  {
    hide Declarations, MatchDeclaration;
    var s := id + "[\"" + raw + "\"]" + rest;
    MatchPrinted(id, raw, rest);
    DeclareHere(s, id, raw, rest);
    SkipBlank("\n  ", s);
  }

  lemma DeclareHere(s: string, id: string, raw: string, rest: string)
    requires s != "" && MatchDeclaration(s) == Some(Declaration(id, raw, rest))
    ensures Declarations(s) == [(id, raw)] + Declarations(rest)
  {
    hide MatchDeclaration;
  }

  lemma {:induction false} SkipBlank(pad: string, t: string)
    requires forall i :: 0 <= i < |pad| ==> !IsIdChar(pad[i])
    ensures Declarations(pad + t) == Declarations(t)
  {
    if pad == "" {
      assert pad + t == t;
    } else {
      assert (pad + t)[1..] == pad[1..] + t;
      SkipBlank(pad[1..], t);
    }
  }

  ghost predicate GoodNode(catalog: seq<CatalogEntry>, n: Node) {
    && IsId(n.id)
    && n.activityType != "" && Trimmed(n.activityType)
    && (forall c :: c in n.activityType ==> c != '"' && c != ')' && c != ']')
    && ']' !in n.title
    && ByType(catalog, n.activityType).Some?
    && ByType(catalog, n.activityType).value.nodeType == n.nodeType
  }

  ghost predicate GoodLink(nodes: seq<Node>, l: Link) {
    && HasNode(nodes, l.source) && HasNode(nodes, l.target)
    && '[' !in l.condition && '\n' !in l.condition
    && forall i :: !ArrowAt(l.condition, i)
  }

  function Raw(n: Node): string {
    RawLabel(DisplayLabel(n), n.activityType)
  }

  function Pairs(nodes: seq<Node>): seq<(string, string)> {
    if nodes == [] then [] else [(nodes[0].id, Raw(nodes[0]))] + Pairs(nodes[1..])
  }

  lemma RawChars(catalog: seq<CatalogEntry>, n: Node)
    requires GoodNode(catalog, n)
    ensures '"' !in Raw(n) && ']' !in Raw(n)
  {
    hide EscapeLabel, Trimmed, ByType, IsId, Printable;
    var shown := UsedLabel(n);
    EscapeAvoids(shown, ']');
    EscapeIsClean(shown);
    CleanHasNoQuote(DisplayLabel(n));
  }

  lemma CleanHasNoQuote(s: string)
    requires CleanLabel(s)
    ensures '"' !in s && '(' !in s
  {
    assert forall i :: 0 <= i < |s| ==> Printable(s[i]);
  }

  /** The scan finds exactly the printed nodes, whatever harmless text follows them. */
  lemma {:induction false} DeclarationsOfNodes(catalog: seq<CatalogEntry>, nodes: seq<Node>, rest: seq<string>)
    requires forall n :: n in nodes ==> GoodNode(catalog, n)
    ensures Declarations(Unlines(NodeLines(nodes) + rest)) == Pairs(nodes) + Declarations(Unlines(rest))
  {
    hide Unlines, Raw, Declarations, NodeLine;
    if nodes == [] {
      assert NodeLines(nodes) + rest == rest;
    } else {
      var n := nodes[0];
      var tail := Unlines(NodeLines(nodes[1..]) + rest);
      RawChars(catalog, n);
      DeclarationsOfNodes(catalog, nodes[1..], rest);
      NodeLinesCons(nodes, rest);
      DeclarePrinted(n.id, Raw(n), tail);
      UnlinesOfNodes(nodes, rest);
      assert Pairs(nodes) + Declarations(Unlines(rest)) == [(n.id, Raw(n))] + (Pairs(nodes[1..]) + Declarations(Unlines(rest)));
    }
  }

  lemma UnlinesOfNodes(nodes: seq<Node>, rest: seq<string>)
    requires nodes != []
    ensures var n := nodes[0];
            Unlines(NodeLines(nodes) + rest)
            == "\n  " + (n.id + "[\"" + Raw(n) + "\"]" + Unlines(NodeLines(nodes[1..]) + rest))
  {
    hide RawLabel, DisplayLabel, NodeLines;
    NodeLinesCons(nodes, rest);
  }

  lemma NodeLinesCons(nodes: seq<Node>, rest: seq<string>)
    requires nodes != []
    ensures NodeLines(nodes) + rest != []
    ensures (NodeLines(nodes) + rest)[0] == NodeLine(nodes[0])
    ensures (NodeLines(nodes) + rest)[1..] == NodeLines(nodes[1..]) + rest
  {
    hide NodeLine;
  }

  // ----- round trip: nodes -----

  lemma MatchSuffixLater(c: char, rest: string)
    requires c != '(' && MatchSuffix(rest).Some?
    ensures MatchSuffix([c] + rest) == Some(Suffix([c] + MatchSuffix(rest).value.before, MatchSuffix(rest).value.inner))
  {
    hide IndexOf, AllSpace;
    var raw := [c] + rest;
    assert raw != "" && raw[0] == c && raw[1..] == rest;
  }

  lemma {:induction false} MatchSuffixSkip(u: string, t: string)
    requires '(' !in u && MatchSuffix(t).Some?
    ensures MatchSuffix(u + t) == Some(Suffix(u + MatchSuffix(t).value.before, MatchSuffix(t).value.inner))
  {
    hide MatchSuffix;
    var m := MatchSuffix(t).value;
    if u == "" {
      assert u + t == t && u + m.before == m.before;
    } else {
      MatchSuffixSkip(u[1..], t);
      MatchSuffixLater(u[0], u[1..] + t);
      assert [u[0]] + (u[1..] + t) == u + t;
      assert u + m.before == [u[0]] + (u[1..] + m.before);
    }
  }

  lemma MatchSuffixHere(inner: string)
    requires inner != "" && ')' !in inner
    ensures MatchSuffix("(" + inner + ")") == Some(Suffix("", inner))
  {
    IndexOfSplit(inner, ')', "");
    assert ("(" + inner + ")")[1..] == inner + [')'] + "";
  }

  lemma TrimSpaceAfter(s: string)
    requires Trimmed(s)
    ensures Trim(s + " ") == s
  {
    if s == "" {
      assert TrimStart(" ") == "";
    } else {
      assert TrimStart(s + " ") == s + " ";
      TrimEndPad(s, " ");
    }
  }

  function NormalNode(catalog: seq<CatalogEntry>, n: Node): Node
    requires ByType(catalog, n.activityType).Some?
  {
    n.(title := FirstNonEmpty(DisplayLabel(n), FirstNonEmpty(ByType(catalog, n.activityType).value.title, n.id)))
  }

  lemma {:induction false} ByTypeKey(catalog: seq<CatalogEntry>, activityType: string)
    ensures var entry := ByType(catalog, activityType);
            entry.Some? ==> entry.value.activityType == activityType
  {
    if catalog != [] {
      ByTypeKey(catalog[..|catalog| - 1], activityType);
    }
  }

  lemma ParsePrintedNode(catalog: seq<CatalogEntry>, lower: string -> string, n: Node)
    requires GoodNode(catalog, n)
    ensures ParseNode(catalog, lower, n.id, Raw(n)) == (NormalNode(catalog, n), true)
  {
    hide MatchSuffix, Trim, TrimStart, TrimEnd, EscapeLabel, ByLabel, ByType, IsId, DefaultNodeType, AllSpace;
    var shown := DisplayLabel(n);
    EscapeIsClean(UsedLabel(n));
    CleanHasNoQuote(shown);
    MatchSuffixHere(n.activityType);
    MatchSuffixSkip(shown + " ", "(" + n.activityType + ")");
    assert Raw(n) == (shown + " ") + ("(" + n.activityType + ")");
    assert (shown + " ") + "" == shown + " ";
    TrimSpaceAfter(shown);
    TrimFixed(n.activityType);
    ByTypeKey(catalog, n.activityType);
  }

  function NormalNodes(catalog: seq<CatalogEntry>, nodes: seq<Node>): seq<Node>
    requires forall n :: n in nodes ==> ByType(catalog, n.activityType).Some?
  {
    seq(|nodes|, i requires 0 <= i < |nodes| => assert nodes[i] in nodes; NormalNode(catalog, nodes[i]))
  }

  lemma {:induction false} PutFresh(nodes: seq<Node>, n: Node)
    requires !HasNode(nodes, n.id)
    ensures PutNode(nodes, n) == nodes + [n]
  {
    if nodes != [] {
      assert nodes[0].id != n.id;
      forall i | 0 <= i < |nodes[1..]| ensures nodes[1..][i].id != n.id {
        assert nodes[1..][i] == nodes[i + 1];
      }
      PutFresh(nodes[1..], n);
    }
  }

  ghost predicate DistinctIds(nodes: seq<Node>) {
    forall i, j :: 0 <= i < j < |nodes| ==> nodes[i].id != nodes[j].id
  }

  lemma DeclarePrintedNode(catalog: seq<CatalogEntry>, lower: string -> string, d: Definition, n: Node)
    requires GoodNode(catalog, n) && !HasNode(d.nodes, n.id)
    ensures DeclareOne(catalog, lower, d, (n.id, Raw(n))) == d.(nodes := d.nodes + [NormalNode(catalog, n)])
  {
    hide ParseNode, Raw, PutNode, HasNode, ByType, FirstNonEmpty, DisplayLabel;
    ParsePrintedNode(catalog, lower, n);
    PutFresh(d.nodes, NormalNode(catalog, n));
  }

  lemma {:induction false} DeclarePrintedNodes(catalog: seq<CatalogEntry>, lower: string -> string, d: Definition, nodes: seq<Node>)
    requires forall n :: n in nodes ==> GoodNode(catalog, n)
    requires DistinctIds(nodes) && forall i :: 0 <= i < |nodes| ==> !HasNode(d.nodes, nodes[i].id)
    ensures forall n :: n in nodes ==> ByType(catalog, n.activityType).Some?
    ensures DeclareAll(catalog, lower, d, Pairs(nodes)) == d.(nodes := d.nodes + NormalNodes(catalog, nodes))
    decreases |nodes|
  {
    GoodIsCatalogued(catalog, nodes);
    hide GoodNode, NormalNode, NormalNodes, DeclareOne, Raw, ByType, HasNode, DistinctIds;
    if nodes == [] {
      NormalNodesCons(catalog, d.nodes, nodes);
    } else {
      var n := nodes[0];
      DeclarePrintedNode(catalog, lower, d, n);
      NormalKeepsId(catalog, n);
      FreshAfter(d.nodes, NormalNode(catalog, n), nodes);
      DeclarePrintedNodes(catalog, lower, d.(nodes := d.nodes + [NormalNode(catalog, n)]), nodes[1..]);
      assert Pairs(nodes)[1..] == Pairs(nodes[1..]);
      NormalNodesCons(catalog, d.nodes, nodes);
    }
  }

  lemma NormalNodesCons(catalog: seq<CatalogEntry>, done: seq<Node>, nodes: seq<Node>)
    requires forall n :: n in nodes ==> ByType(catalog, n.activityType).Some?
    ensures done + NormalNodes(catalog, nodes)
         == if nodes == [] then done
            else done + [NormalNode(catalog, nodes[0])] + NormalNodes(catalog, nodes[1..])
  {
    hide NormalNode, ByType;
  }

  lemma FreshAfter(done: seq<Node>, next: Node, nodes: seq<Node>)
    requires nodes != [] && DistinctIds(nodes) && next.id == nodes[0].id
    requires forall i :: 0 <= i < |nodes| ==> !HasNode(done, nodes[i].id)
    ensures DistinctIds(nodes[1..])
    ensures forall i :: 0 <= i < |nodes[1..]| ==> !HasNode(done + [next], nodes[1..][i].id)
  {
    forall i | 0 <= i < |nodes[1..]| ensures !HasNode(done + [next], nodes[1..][i].id) {
      assert nodes[1..][i] == nodes[i + 1] && nodes[0].id != nodes[i + 1].id;
    }
  }

  lemma GoodIsCatalogued(catalog: seq<CatalogEntry>, nodes: seq<Node>)
    ensures forall n :: n in nodes && GoodNode(catalog, n) ==> ByType(catalog, n.activityType).Some?
  {
  }

  lemma NormalKeepsId(catalog: seq<CatalogEntry>, n: Node)
    requires ByType(catalog, n.activityType).Some?
    ensures NormalNode(catalog, n).id == n.id
  {
  }

  // ----- round trip: edges -----

  lemma {:induction false} StripPlain(u: string, t: string)
    requires '[' !in u
    ensures Strip(u + t) == u + Strip(t)
  {
    if u == "" {
      assert u + t == t;
    } else {
      assert (u + t)[1..] == u[1..] + t;
      StripPlain(u[1..], t);
    }
  }

  lemma StripBracket(x: string, t: string)
    requires ']' !in x
    ensures Strip("[" + x + "]" + t) == Strip(t)
  {
    var s := "[" + x + "]" + t;
    assert s == ("[" + x) + [']'] + t;
    IndexOfSplit("[" + x, ']', t);
  }

  function BareLines(nodes: seq<Node>): seq<string> {
    if nodes == [] then [] else ["  " + nodes[0].id] + BareLines(nodes[1..])
  }

  lemma StripNodeLine(catalog: seq<CatalogEntry>, n: Node, t: string)
    requires GoodNode(catalog, n)
    ensures Strip("\n  " + (n.id + "[\"" + Raw(n) + "\"]" + t)) == "\n" + ("  " + n.id) + Strip(t)
  {
    hide Strip, Raw;
    RawChars(catalog, n);
    hide GoodNode;
    var quoted := "\"" + Raw(n) + "\"";
    StripPlain("\n  " + n.id, "[" + quoted + "]" + t);
    StripBracket(quoted, t);
    assert "\n  " + (n.id + "[\"" + Raw(n) + "\"]" + t) == ("\n  " + n.id) + ("[" + quoted + "]" + t);
  }

  lemma {:induction false} StripNodes(catalog: seq<CatalogEntry>, nodes: seq<Node>, rest: seq<string>)
    requires forall n :: n in nodes ==> GoodNode(catalog, n)
    ensures Strip(Unlines(NodeLines(nodes) + rest)) == Unlines(BareLines(nodes)) + Strip(Unlines(rest))
  {
    hide Strip, Raw, NodeLine, GoodNode;
    if nodes == [] {
      assert NodeLines(nodes) + rest == rest;
    } else {
      UnlinesOfNodes(nodes, rest);
      StripNodeLine(catalog, nodes[0], Unlines(NodeLines(nodes[1..]) + rest));
      StripNodes(catalog, nodes[1..], rest);
      assert BareLines(nodes)[1..] == BareLines(nodes[1..]);
    }
  }

  lemma {:induction false} SplitUnlines(first: string, lines: seq<string>)
    requires '\n' !in first && forall l :: l in lines ==> '\n' !in l
    ensures Split(first + Unlines(lines), '\n') == [first] + lines
  {
    JoinIsUnlines(first, lines);
    SplitJoin([first] + lines, '\n');
  }

  lemma {:induction false} UnlinesAppend(a: seq<string>, b: seq<string>)
    ensures Unlines(a + b) == Unlines(a) + Unlines(b)
  {
    if a == [] {
      assert a + b == b;
    } else {
      assert (a + b)[1..] == a[1..] + b;
      UnlinesAppend(a[1..], b);
    }
  }

  lemma NoArrowNoLinks(line: string)
    requires '>' !in line
    ensures LinksFrom(SplitArrows(line)) == []
  {
    assert FindArrow(line).None?;
  }

  function NormalLink(l: Link): Link {
    l.(condition := Trim(Slashes(l.condition)))
  }

  lemma SplitPrintedLink(left: string, tail: string)
    requires '>' !in left && forall i :: !ArrowAt(tail, i)
    ensures SplitArrows(left + "-->" + tail) == [left, tail]
  {
    var s := left + "-->" + tail;
    assert ArrowAt(s, |left|);
    forall i | 0 <= i < |left| ensures !ArrowAt(s, i) {
      assert i + 2 < |left| ==> s[i + 2] == left[i + 2];
    }
    assert s[|left| + 3..] == tail && s[..|left|] == left;
    assert FindArrow(tail).None?;
  }

  lemma {:induction false} IdTailOf(pad: string, id: string)
    requires forall i :: 0 <= i < |id| ==> IsIdChar(id[i])
    requires pad == "" || !IsIdChar(pad[|pad| - 1])
    ensures IdTail(pad + id) == id
  {
    if id == "" {
      assert pad + id == pad;
    } else {
      var n := |id| - 1;
      assert (pad + id)[..|pad + id| - 1] == pad + id[..n];
      IdTailOf(pad, id[..n]);
    }
  }

  lemma MatchLeftPrinted(id: string)
    requires IsId(id)
    ensures MatchLeft("  " + id + " ") == Some(id)
  {
    TrimEndPad("  " + id, " ");
    TrimEndTail("  ", id);
    IdTailOf("  ", id);
  }

  lemma TrimStartSpace(t: string)
    requires t != "" && !IsSpace(t[0])
    ensures TrimStart(" " + t) == t && TrimStart(t) == t
  {
    TrimStartPad(" ", t);
  }

  lemma MatchRightPlain(id: string)
    requires IsId(id)
    ensures MatchRight(" " + id) == Some(("", id))
  {
    TrimStartSpace(id);
    IdRunPrefix(id, "");
    assert id + "" == id;
    hide TrimStart, IdRun, IndexOf;
  }

  lemma MatchRightConditional(condition: string, id: string)
    requires IsId(id) && '|' !in condition
    ensures MatchRight(" " + ("|" + (condition + ['|'] + (" " + id)))) == Some((condition, id))
  {
    hide TrimStart, IdRun, IndexOf;
    var t := "|" + (condition + ['|'] + (" " + id));
    TrimStartSpace(t);
    assert t[1..] == condition + ['|'] + (" " + id);
    IndexOfSplit(condition, '|', " " + id);
    TrimStartSpace(id);
    IdRunPrefix(id, "");
    assert id + "" == id;
  }

  lemma MatchRightPrinted(condition: string, id: string)
    requires IsId(id)
    ensures MatchRight(LinkTail(condition, id)) == Some((Slashes(condition), id))
  {
    hide MatchRight, IsId, LinkTail;
    assert '|' !in Slashes(condition);
    MatchRightPlain(id);
    MatchRightConditional(Slashes(condition), id);
    LinkTailForm(condition, id);
  }

  lemma LinkTailForm(condition: string, id: string)
    ensures condition == "" ==> LinkTail(condition, id) == " " + id && Slashes(condition) == ""
    ensures condition != "" ==> LinkTail(condition, id) == " " + ("|" + (Slashes(condition) + ['|'] + (" " + id)))
  {
    assert condition == "" ==> Slashes(condition) == "";
    hide Slashes;
  }

  lemma TailHasNoArrow(condition: string, id: string)
    requires IsId(id) && forall i :: !ArrowAt(condition, i)
    ensures forall i :: !ArrowAt(LinkTail(condition, id), i)
  {
    var tail := LinkTail(condition, id);
    var c := Slashes(condition);
    if condition == "" {
      assert forall k :: 1 <= k < |tail| ==> tail[k] == id[k - 1];
    } else {
      assert tail == " |" + c + ("| " + id);
      assert forall k :: 2 <= k < |c| + 2 ==> tail[k] == c[k - 2];
      assert forall k :: |c| + 4 <= k < |tail| ==> tail[k] == id[k - |c| - 4];
      forall i: nat ensures !ArrowAt(tail, i) {
        if 2 <= i && i + 2 < |c| + 2 {
          assert !ArrowAt(condition, i - 2);
        }
      }
    }
  }

  lemma LinksOfPrintedLine(l: Link)
    requires IsId(l.source) && IsId(l.target)
    requires forall i :: !ArrowAt(l.condition, i)
    ensures LinksFrom(SplitArrows(LinkLine(l))) == [NormalLink(l)]
  {
    hide SplitArrows, MatchLeft, MatchRight, LinkTail, Trim;
    var left, tail := "  " + l.source + " ", LinkTail(l.condition, l.target);
    TailHasNoArrow(l.condition, l.target);
    SplitPrintedLink(left, tail);
    assert LinkLine(l) == left + "-->" + tail;
    MatchLeftPrinted(l.source);
    MatchRightPrinted(l.condition, l.target);
    var segments := SplitArrows(LinkLine(l));
    assert segments[1..] == [tail];
    assert LinksFrom([tail]) == [];
  }

  // ----- round trip: the whole text -----

  lemma BareLineHasNoLinks(id: string)
    requires IsId(id)
    ensures LinksFrom(SplitArrows("  " + id)) == []
  {
    NoArrowNoLinks("  " + id);
  }

  lemma {:induction false} LinksOfBareLines(nodes: seq<Node>, rest: seq<string>)
    requires forall n :: n in nodes ==> IsId(n.id)
    ensures LinksOf(BareLines(nodes) + rest) == LinksOf(rest)
  {
    hide SplitArrows, LinksFrom, IsId;
    if nodes == [] {
      assert BareLines(nodes) + rest == rest;
    } else {
      BareLineHasNoLinks(nodes[0].id);
      LinksOfBareLines(nodes[1..], rest);
      assert (BareLines(nodes) + rest)[1..] == BareLines(nodes[1..]) + rest;
    }
  }

  function NormalLinks(links: seq<Link>): seq<Link> {
    seq(|links|, i requires 0 <= i < |links| => NormalLink(links[i]))
  }

  ghost predicate GoodLinks(nodes: seq<Node>, links: seq<Link>) {
    forall l :: l in links ==> GoodLink(nodes, l) && IsId(l.source) && IsId(l.target)
  }

  lemma {:induction false} LinksOfLinkLines(nodes: seq<Node>, links: seq<Link>)
    requires GoodLinks(nodes, links)
    ensures LinksOf(LinkLines(links)) == NormalLinks(links)
  {
    hide SplitArrows, LinksFrom, NormalLink, LinkLine, IsId;
    if links != [] {
      assert links[0] in links;
      LinksOfPrintedLine(links[0]);
      LinksOfLinkLines(nodes, links[1..]);
      assert LinkLines(links)[1..] == LinkLines(links[1..]);
      assert NormalLinks(links) == [NormalLink(links[0])] + NormalLinks(links[1..]);
    }
  }

  lemma LinkLineChars(nodes: seq<Node>, l: Link)
    requires GoodLink(nodes, l) && IsId(l.source) && IsId(l.target)
    ensures '[' !in LinkLine(l) && '\n' !in LinkLine(l)
  {
    hide HasNode, ArrowAt;
    assert forall c :: c in Slashes(l.condition) ==> c in l.condition || c == '/';
    hide Slashes;
    assert forall c :: c in l.source || c in l.target ==> IsIdChar(c);
    hide IsIdChar, IsId;
  }

  function Numbered(after: nat, links: seq<Link>): seq<PipelineEdge>
    decreases |links|
  {
    if links == [] then []
    else [PipelineEdge("e" + Decimal(after + 1), links[0])] + Numbered(after + 1, links[1..])
  }

  lemma AddKnownLink(d: Definition, l: Link)
    requires HasNode(d.nodes, l.source) && HasNode(d.nodes, l.target)
    ensures AddLink(d, l) == d.(edges := d.edges + [PipelineEdge("e" + Decimal(|d.edges| + 1), l)])
  {
    hide HasNode, Decimal;
  }

  lemma AppendAssoc<T>(a: seq<T>, x: T, b: seq<T>)
    ensures (a + [x]) + b == a + ([x] + b)
  {
  }

  lemma {:induction false} AddKnownLinks(d: Definition, links: seq<Link>)
    requires forall l :: l in links ==> HasNode(d.nodes, l.source) && HasNode(d.nodes, l.target)
    ensures AddLinks(d, links) == d.(edges := d.edges + Numbered(|d.edges|, links))
    decreases |links|
  {
    hide HasNode, Decimal, AddLink;
    if links == [] {
      assert d.edges + [] == d.edges;
    } else {
      assert links[0] in links;
      AddKnownLink(d, links[0]);
      var first := PipelineEdge("e" + Decimal(|d.edges| + 1), links[0]);
      AddKnownLinks(d.(edges := d.edges + [first]), links[1..]);
      AppendAssoc(d.edges, first, Numbered(|d.edges| + 1, links[1..]));
    }
  }

  lemma NormalLinksKnown(nodes: seq<Node>, links: seq<Link>)
    requires forall l :: l in links ==> HasNode(nodes, l.source) && HasNode(nodes, l.target)
    ensures forall l :: l in NormalLinks(links) ==> HasNode(nodes, l.source) && HasNode(nodes, l.target)
  {
    hide HasNode, Trim, Slashes;
  }

  lemma NormalNodesKnown(catalog: seq<CatalogEntry>, nodes: seq<Node>, id: string)
    requires forall n :: n in nodes ==> ByType(catalog, n.activityType).Some?
    requires HasNode(nodes, id)
    ensures HasNode(NormalNodes(catalog, nodes), id)
  {
    var i :| 0 <= i < |nodes| && nodes[i].id == id;
    assert NormalNodes(catalog, nodes)[i].id == id;
  }

  ghost predicate GoodDefinition(catalog: seq<CatalogEntry>, nodes: seq<Node>, links: seq<Link>) {
    && DistinctIds(nodes)
    && (forall n :: n in nodes ==> GoodNode(catalog, n))
    && (forall l :: l in links ==> GoodLink(nodes, l))
  }

  lemma GoodLinksOf(catalog: seq<CatalogEntry>, nodes: seq<Node>, links: seq<Link>)
    requires GoodDefinition(catalog, nodes, links)
    ensures GoodLinks(nodes, links)
  {
    forall l | l in links ensures IsId(l.source) && IsId(l.target) {
      assert GoodLink(nodes, l);
      var i, j :| 0 <= i < |nodes| && 0 <= j < |nodes| && nodes[i].id == l.source && nodes[j].id == l.target;
      assert GoodNode(catalog, nodes[i]) && GoodNode(catalog, nodes[j]);
    }
  }

  lemma {:induction false} UnlinesAvoids(lines: seq<string>, c: char)
    requires c != '\n' && forall l :: l in lines ==> c !in l
    ensures c !in Unlines(lines)
  {
    if lines != [] {
      assert lines[0] in lines;
      UnlinesAvoids(lines[1..], c);
    }
  }

  lemma LinkLinesChars(nodes: seq<Node>, links: seq<Link>)
    requires GoodLinks(nodes, links)
    ensures forall l :: l in LinkLines(links) ==> '[' !in l && '\n' !in l
  {
    hide GoodLink, IsId, LinkLine;
    forall i | 0 <= i < |links| ensures '[' !in LinkLine(links[i]) && '\n' !in LinkLine(links[i]) {
      assert links[i] in links;
      LinkLineChars(nodes, links[i]);
    }
  }

  lemma {:induction false} BareLinesChars(nodes: seq<Node>)
    requires forall n :: n in nodes ==> IsId(n.id)
    ensures forall l :: l in BareLines(nodes) ==> '\n' !in l
  {
    if nodes != [] {
      assert nodes[0] in nodes;
      BareLinesChars(nodes[1..]);
    }
  }

  lemma PrintIsUnlines(nodes: seq<Node>, links: seq<Link>)
    ensures Print(nodes, links) == HEADER + Unlines(NodeLines(nodes) + LinkLines(links))
  {
    hide NodeLines, LinkLines;
    JoinIsUnlines(HEADER, NodeLines(nodes) + LinkLines(links));
    assert [HEADER] + (NodeLines(nodes) + LinkLines(links)) == Lines(nodes, links);
  }

  lemma BodyIsHarmless(catalog: seq<CatalogEntry>, nodes: seq<Node>, links: seq<Link>)
    requires (forall n :: n in nodes ==> GoodNode(catalog, n)) && GoodLinks(nodes, links)
    ensures Harmless(Unlines(NodeLines(nodes) + LinkLines(links)))
  {
    hide NodeLine, LinkTail, Harmless, Raw;
    if nodes != [] {
      UnlinesOfNodes(nodes, LinkLines(links));
      assert GoodNode(catalog, nodes[0]);
      var n, tail := nodes[0], Unlines(NodeLines(nodes[1..]) + LinkLines(links));
      IndentedIsHarmless(n.id, "[\"" + Raw(n) + "\"]" + tail);
      assert "\n  " + (n.id + "[\"" + Raw(n) + "\"]" + tail) == "\n  " + n.id + ("[\"" + Raw(n) + "\"]" + tail);
    } else {
      HasMember(links);
      EmptyIsHarmless();
      assert NodeLines(nodes) + LinkLines(links) == [];
    }
  }

  lemma HasMember<T>(s: seq<T>)
    ensures s != [] ==> exists x :: x in s
  {
    if s != [] {
      assert s[0] in s;
    }
  }

  lemma EmptyIsHarmless()
    ensures Harmless("")
  {
  }

  lemma PrintedDeclarations(catalog: seq<CatalogEntry>, nodes: seq<Node>, links: seq<Link>)
    requires GoodDefinition(catalog, nodes, links)
    ensures Declarations(Print(nodes, links)) == Pairs(nodes)
  {
    GoodLinksOf(catalog, nodes, links);
    PrintIsUnlines(nodes, links);
    BodyIsHarmless(catalog, nodes, links);
    SkipPlain(HEADER, Unlines(NodeLines(nodes) + LinkLines(links)));
    DeclarationsOfNodes(catalog, nodes, LinkLines(links));
    LinkLinesChars(nodes, links);
    UnlinesAvoids(LinkLines(links), '[');
    hide Unlines, NodeLines, LinkLines, GoodNode, GoodLink, Print;
    EmptyIsHarmless();
    SkipPlain(Unlines(LinkLines(links)), "");
    assert Unlines(LinkLines(links)) + "" == Unlines(LinkLines(links));
    assert Pairs(nodes) + [] == Pairs(nodes);
  }

  lemma StrippedText(catalog: seq<CatalogEntry>, nodes: seq<Node>, links: seq<Link>)
    requires (forall n :: n in nodes ==> GoodNode(catalog, n)) && GoodLinks(nodes, links)
    ensures Strip(Print(nodes, links)) == HEADER + Unlines(BareLines(nodes) + LinkLines(links))
  {
    hide NodeLines, LinkLines, Unlines, GoodNode, Print, Strip, BareLines;
    var lines := LinkLines(links);
    StripLinkLines(nodes, links);
    hide GoodLinks;
    PrintIsUnlines(nodes, links);
    StripPlain(HEADER, Unlines(NodeLines(nodes) + lines));
    StripNodes(catalog, nodes, lines);
    UnlinesAppend(BareLines(nodes), lines);
  }

  lemma StripLinkLines(nodes: seq<Node>, links: seq<Link>)
    requires GoodLinks(nodes, links)
    ensures Strip(Unlines(LinkLines(links))) == Unlines(LinkLines(links))
  {
    LinkLinesChars(nodes, links);
    hide GoodLinks, LinkLines, Unlines, Strip;
    var text := Unlines(LinkLines(links));
    UnlinesAvoids(LinkLines(links), '[');
    StripPlain(text, "");
    StripNothing();
    assert text + "" == text;
  }

  lemma PrintedLinks(catalog: seq<CatalogEntry>, nodes: seq<Node>, links: seq<Link>)
    requires GoodDefinition(catalog, nodes, links)
    ensures LinksOf(Split(Strip(Print(nodes, links)), '\n')) == NormalLinks(links)
  {
    GoodLinksOf(catalog, nodes, links);
    hide LinkLines, Unlines, GoodNode, GoodLink, GoodLinks, LinksOf, Print, Strip, BareLines, NormalLinks, Split, DistinctIds;
    LinkLinesChars(nodes, links);
    BareLinesChars(nodes);
    StrippedText(catalog, nodes, links);
    SplitUnlines(HEADER, BareLines(nodes) + LinkLines(links));
    LinksOfHeader(BareLines(nodes) + LinkLines(links));
    LinksOfBareLines(nodes, LinkLines(links));
    LinksOfLinkLines(nodes, links);
  }

  lemma StripNothing()
    ensures Strip("") == ""
  {
  }

  lemma LinksOfHeader(lines: seq<string>)
    ensures LinksOf([HEADER] + lines) == LinksOf(lines)
  {
    NoArrowNoLinks(HEADER);
    assert ([HEADER] + lines)[1..] == lines;
  }

  /**
    Parsing the printed text returns the same nodes in order, with normalised labels, and the same
    edges in order, renumbered and with trimmed conditions, without a single warning.
   */
  lemma RoundTrip(nodes: seq<Node>, links: seq<Link>, catalog: seq<CatalogEntry>, lower: string -> string)
    requires GoodDefinition(catalog, nodes, links)
    ensures forall n :: n in nodes ==> ByType(catalog, n.activityType).Some?
    ensures Parse(Print(nodes, links), catalog, lower)
         == Definition(NormalNodes(catalog, nodes), Numbered(0, NormalLinks(links)), [])
  {
    PrintedDeclarations(catalog, nodes, links);
    PrintedLinks(catalog, nodes, links);
    RebuildDefinition(nodes, links, catalog, lower);
  }

  lemma RebuildDefinition(nodes: seq<Node>, links: seq<Link>, catalog: seq<CatalogEntry>, lower: string -> string)
    requires GoodDefinition(catalog, nodes, links)
    ensures forall n :: n in nodes ==> ByType(catalog, n.activityType).Some?
    ensures AddLinks(DeclareAll(catalog, lower, Definition([], [], []), Pairs(nodes)), NormalLinks(links))
         == Definition(NormalNodes(catalog, nodes), Numbered(0, NormalLinks(links)), [])
  {
    var d := Definition([], [], []);
    DeclarePrintedNodes(catalog, lower, d, nodes);
    LinkEndsKnown(catalog, nodes, links);
    hide NormalNodes, GoodNode, GoodLink, ByType, HasNode, DeclareAll, Pairs, AddLinks, Numbered, NormalLinks, DistinctIds;
    assert [] + NormalNodes(catalog, nodes) == NormalNodes(catalog, nodes);
    AddKnownLinks(d.(nodes := NormalNodes(catalog, nodes)), NormalLinks(links));
    assert [] + Numbered(0, NormalLinks(links)) == Numbered(0, NormalLinks(links));
  }

  lemma LinkEndsKnown(catalog: seq<CatalogEntry>, nodes: seq<Node>, links: seq<Link>)
    requires forall n :: n in nodes ==> ByType(catalog, n.activityType).Some?
    requires forall l :: l in links ==> GoodLink(nodes, l)
    ensures forall l :: l in NormalLinks(links) ==>
              HasNode(NormalNodes(catalog, nodes), l.source) && HasNode(NormalNodes(catalog, nodes), l.target)
  {
    hide HasNode, ByType, NormalNodes, ArrowAt, Trim, Slashes;
    forall id | HasNode(nodes, id) ensures HasNode(NormalNodes(catalog, nodes), id) {
      NormalNodesKnown(catalog, nodes, id);
    }
    NormalLinksKnown(nodes, links);
  }

  // ----- printing again -----

  lemma DisplayOfNormal(catalog: seq<CatalogEntry>, n: Node)
    requires GoodNode(catalog, n)
    requires forall c :: c in catalog && c.title != "" ==> EscapeLabel(c.title) != ""
    ensures DisplayLabel(NormalNode(catalog, n)) == DisplayLabel(n) <==> DisplayLabel(n) != ""
  {
    hide EscapeLabel, CleanLabel, IsSpace;
    EscapeIsClean(UsedLabel(n));
    if DisplayLabel(n) != "" {
      EscapeFixed(DisplayLabel(n));
    } else {
      ByTypeMember(catalog, n.activityType);
      IdIsClean(n.id);
      EscapeFixed(n.id);
    }
  }

  lemma {:induction false} ByTypeMember(catalog: seq<CatalogEntry>, activityType: string)
    ensures var entry := ByType(catalog, activityType);
            entry.Some? ==> entry.value in catalog
  {
    if catalog != [] {
      ByTypeMember(catalog[..|catalog| - 1], activityType);
    }
  }

  lemma IdIsClean(id: string)
    requires IsId(id)
    ensures CleanLabel(id)
  {
  }

  lemma SlashesOfTrimmed(condition: string)
    ensures Slashes(Trim(Slashes(condition))) == Trim(Slashes(condition))
    ensures Trim(Slashes(condition)) == Slashes(condition) <==> Trimmed(condition)
  {
    hide Trim;
    var c := Slashes(condition);
    SlashesEnds(condition);
    TrimFixed(c);
    assert '|' !in c;
    TrimAvoids(c, '|');
    hide IsSpace;
    assert Slashes(Trim(c)) == Trim(c);
  }

  lemma SlashesEnds(condition: string)
    ensures Trimmed(Slashes(condition)) <==> Trimmed(condition)
  {
    if condition != "" {
      var c := Slashes(condition);
      assert IsSpace(c[0]) <==> IsSpace(condition[0]);
      assert IsSpace(c[|c| - 1]) <==> IsSpace(condition[|c| - 1]);
    }
  }

  lemma SameLinkLine(l: Link)
    ensures LinkLine(NormalLink(l)) == LinkLine(l) <==> Trimmed(l.condition)
  {
    SlashesOfTrimmed(l.condition);
    var c := Trim(Slashes(l.condition));
    assert |c| <= |Slashes(l.condition)| by { TrimIsTrimmed(Slashes(l.condition)); }
    hide Trim, Trimmed;
    if c != Slashes(l.condition) {
      assert |c| < |Slashes(l.condition)| by { TrimShorter(Slashes(l.condition)); }
      assert |Slashes(c)| == |c|;
      assert |LinkLine(NormalLink(l))| < |LinkLine(l)|;
    }
  }

  lemma TrimShorter(s: string)
    requires Trim(s) != s
    ensures |Trim(s)| < |s|
  {
  }

  lemma SameNodeLine(catalog: seq<CatalogEntry>, n: Node)
    requires GoodNode(catalog, n)
    requires forall c :: c in catalog && c.title != "" ==> EscapeLabel(c.title) != ""
    ensures NodeLine(NormalNode(catalog, n)) == NodeLine(n) <==> DisplayLabel(n) != ""
  {
    DisplayOfNormal(catalog, n);
    var m := NormalNode(catalog, n);
    assert m.id == n.id && m.activityType == n.activityType;
    hide DisplayLabel, GoodNode, NormalNode, EscapeLabel;
    SameFrame("  " + n.id + "[\"", DisplayLabel(m), DisplayLabel(n), " (" + n.activityType + ")\"]");
    NodeLineFrame(n);
    NodeLineFrame(m);
  }

  lemma NodeLineFrame(n: Node)
    ensures NodeLine(n) == ("  " + n.id + "[\"") + DisplayLabel(n) + (" (" + n.activityType + ")\"]")
  {
    hide DisplayLabel;
  }

  lemma SameFrame(front: string, a: string, b: string, back: string)
    ensures front + a + back == front + b + back <==> a == b
  {
    var s, t := front + a + back, front + b + back;
    if s == t {
      assert |a| == |b|;
      assert a == s[|front|..|front| + |a|] && b == t[|front|..|front| + |b|];
    }
  }

  function LinksIn(edges: seq<PipelineEdge>): seq<Link> {
    seq(|edges|, i requires 0 <= i < |edges| => edges[i].link)
  }

  lemma {:induction false} LinksInNumbered(after: nat, links: seq<Link>)
    ensures LinksIn(Numbered(after, links)) == links
    decreases |links|
  {
    hide Decimal;
    if links != [] {
      LinksInNumbered(after + 1, links[1..]);
      assert Numbered(after, links)[1..] == Numbered(after + 1, links[1..]);
      assert LinksIn(Numbered(after, links))[1..] == LinksIn(Numbered(after + 1, links[1..]));
    }
  }

  ghost predicate OneLine(lines: seq<string>) {
    forall i :: 0 <= i < |lines| ==> '\n' !in lines[i]
  }

  lemma ConcatCancel(a: seq<string>, b: seq<string>, a2: seq<string>, b2: seq<string>)
    requires |a| == |a2|
    ensures a + b == a2 + b2 <==> a == a2 && b == b2
  {
    assert (a + b)[..|a|] == a && (a2 + b2)[..|a|] == a2;
    assert (a + b)[|a|..] == b && (a2 + b2)[|a|..] == b2;
  }

  lemma UnlinesInjective(first: string, a: seq<string>, b: seq<string>)
    requires '\n' !in first && OneLine(a) && OneLine(b)
    ensures first + Unlines(a) == first + Unlines(b) <==> a == b
  {
    hide Unlines;
    SplitUnlines(first, a);
    SplitUnlines(first, b);
    assert ([first] + a)[1..] == a && ([first] + b)[1..] == b;
  }

  /** Two texts printed from as many nodes and links agree exactly when all their lines agree. */
  lemma SameLines(nodes: seq<Node>, links: seq<Link>, nodes2: seq<Node>, links2: seq<Link>)
    requires |nodes| == |nodes2| && |links| == |links2|
    requires OneLine(NodeLines(nodes)) && OneLine(LinkLines(links))
    requires OneLine(NodeLines(nodes2)) && OneLine(LinkLines(links2))
    ensures Print(nodes, links) == Print(nodes2, links2) <==>
            NodeLines(nodes) == NodeLines(nodes2) && LinkLines(links) == LinkLines(links2)
  {
    hide NodeLine, LinkLine, Print, Unlines;
    PrintIsUnlines(nodes, links);
    PrintIsUnlines(nodes2, links2);
    UnlinesInjective(HEADER, NodeLines(nodes) + LinkLines(links), NodeLines(nodes2) + LinkLines(links2));
    ConcatCancel(NodeLines(nodes), LinkLines(links), NodeLines(nodes2), LinkLines(links2));
  }

  lemma DisplayIsOneLine(n: Node)
    ensures '\n' !in DisplayLabel(n)
  {
    hide EscapeLabel, CleanLabel;
    EscapeIsClean(UsedLabel(n));
    CleanIsOneLine(DisplayLabel(n));
  }

  lemma NotInPlus(a: string, b: string, c: char)
    requires c !in a && c !in b
    ensures c !in a + b
  {
  }

  lemma FiveParts(a: string, b: string, c: string, d: string, e: string, ch: char)
    requires ch !in a && ch !in b && ch !in c && ch !in d && ch !in e
    ensures ch !in a + b + c + d + e
  {
    NotInPlus(a, b, ch);
    NotInPlus(a + b, c, ch);
    NotInPlus(a + b + c, d, ch);
    NotInPlus(a + b + c + d, e, ch);
  }

  lemma IdIsOneLine(id: string)
    requires IsId(id)
    ensures '\n' !in id
  {
  }

  lemma RawIsOneLine(display: string, activityType: string)
    requires '\n' !in display && '\n' !in activityType
    ensures '\n' !in RawLabel(display, activityType)
  {
    FiveParts(display, " (", activityType, ")", "", '\n');
    assert display + " (" + activityType + ")" + "" == RawLabel(display, activityType);
  }

  lemma FrameIsOneLine(id: string, raw: string)
    requires '\n' !in id && '\n' !in raw
    ensures '\n' !in "  " + id + "[\"" + raw + "\"]"
  {
    FiveParts("  ", id, "[\"", raw, "\"]", '\n');
  }

  lemma NodeLineIsOneLine(n: Node)
    requires IsId(n.id) && '\n' !in n.activityType
    ensures '\n' !in NodeLine(n)
  {
    hide DisplayLabel, IsId, RawLabel;
    IdIsOneLine(n.id);
    DisplayIsOneLine(n);
    RawIsOneLine(DisplayLabel(n), n.activityType);
    FrameIsOneLine(n.id, RawLabel(DisplayLabel(n), n.activityType));
  }

  lemma CleanIsOneLine(s: string)
    requires CleanLabel(s)
    ensures '\n' !in s
  {
    assert SingleSpaces(s) && IsSpace('\n');
  }

  lemma TrimAvoids(s: string, c: char)
    requires c !in s
    ensures c !in Trim(s)
  {
    hide Trim;
    var i, j := TrimSlice(s);
  }

  lemma LinkIsOneLine(l: Link)
    requires IsId(l.source) && IsId(l.target) && '\n' !in l.condition
    ensures '\n' !in LinkLine(l)
  {
    assert '\n' !in l.source && '\n' !in l.target;
    hide IsId, IsIdChar;
    assert forall c :: c in Slashes(l.condition) ==> c in l.condition || c == '/';
    hide Slashes;
  }

  lemma NormalLinkIsOneLine(l: Link)
    requires IsId(l.source) && IsId(l.target) && '\n' !in l.condition
    ensures '\n' !in LinkLine(NormalLink(l)) && '\n' !in LinkLine(l)
  {
    assert forall c :: c in Slashes(l.condition) ==> c in l.condition || c == '/';
    hide IsId, Slashes, Trim, LinkLine;
    TrimAvoids(Slashes(l.condition), '\n');
    LinkIsOneLine(l);
    LinkIsOneLine(NormalLink(l));
  }

  /**
    Printing the parsed definition gives the same text again exactly when every node shows a label
    and no condition carries white space at its ends.
   */
  lemma PrintsAgain(nodes: seq<Node>, links: seq<Link>, catalog: seq<CatalogEntry>, lower: string -> string)
    requires GoodDefinition(catalog, nodes, links)
    requires forall n :: n in nodes ==> '\n' !in n.activityType
    requires forall c :: c in catalog && c.title != "" ==> EscapeLabel(c.title) != ""
    ensures var d := Parse(Print(nodes, links), catalog, lower);
            Print(d.nodes, LinksIn(d.edges)) == Print(nodes, links) <==>
            && (forall n :: n in nodes ==> DisplayLabel(n) != "")
            && (forall l :: l in links ==> Trimmed(l.condition))
  {
    RoundTrip(nodes, links, catalog, lower);
    GoodLinksOf(catalog, nodes, links);
    LinksInNumbered(0, NormalLinks(links));
    hide Parse, Print, Numbered, LinksIn, Trimmed, NormalNode, NormalLink, GoodNode, GoodLink, ByType;
    var nodes2, links2 := NormalNodes(catalog, nodes), NormalLinks(links);
    NodeLinesAgree(catalog, nodes, nodes2);
    LinkLinesAgree(nodes, links, links2);
    SameLines(nodes2, links2, nodes, links);
  }

  lemma NodeLinesAgree(catalog: seq<CatalogEntry>, nodes: seq<Node>, nodes2: seq<Node>)
    requires forall n :: n in nodes ==> GoodNode(catalog, n) && '\n' !in n.activityType
    requires forall c :: c in catalog && c.title != "" ==> EscapeLabel(c.title) != ""
    requires |nodes2| == |nodes| && forall i :: 0 <= i < |nodes| ==>
               ByType(catalog, nodes[i].activityType).Some? && nodes2[i] == NormalNode(catalog, nodes[i])
    ensures OneLine(NodeLines(nodes)) && OneLine(NodeLines(nodes2))
    ensures NodeLines(nodes2) == NodeLines(nodes) <==> forall n :: n in nodes ==> DisplayLabel(n) != ""
  {
    hide NodeLine, DisplayLabel, ByType, EscapeLabel, IsId, NormalNode, GoodNode;
    forall i | 0 <= i < |nodes|
      ensures '\n' !in NodeLine(nodes[i]) && '\n' !in NodeLine(nodes2[i])
      ensures NodeLine(nodes2[i]) == NodeLine(nodes[i]) <==> DisplayLabel(nodes[i]) != ""
    {
      assert nodes[i] in nodes;
      NormalNodeIsOneLine(catalog, nodes[i]);
      SameNodeLine(catalog, nodes[i]);
    }
    if NodeLines(nodes2) == NodeLines(nodes) {
      forall i | 0 <= i < |nodes| ensures DisplayLabel(nodes[i]) != "" {
        assert NodeLines(nodes2)[i] == NodeLines(nodes)[i];
      }
    }
  }

  lemma NormalNodeIsOneLine(catalog: seq<CatalogEntry>, n: Node)
    requires GoodNode(catalog, n) && '\n' !in n.activityType
    ensures '\n' !in NodeLine(n) && '\n' !in NodeLine(NormalNode(catalog, n))
  {
    hide NodeLine, IsId, DisplayLabel;
    NodeLineIsOneLine(n);
    NodeLineIsOneLine(NormalNode(catalog, n));
  }

  lemma LinkLinesAgree(nodes: seq<Node>, links: seq<Link>, links2: seq<Link>)
    requires GoodLinks(nodes, links)
    requires |links2| == |links| && forall i :: 0 <= i < |links| ==> links2[i] == NormalLink(links[i])
    ensures OneLine(LinkLines(links)) && OneLine(LinkLines(links2))
    ensures LinkLines(links2) == LinkLines(links) <==> forall l :: l in links ==> Trimmed(l.condition)
  {
    hide LinkLine, Trimmed, NormalLink, IsId, HasNode, ArrowAt;
    forall i | 0 <= i < |links|
      ensures '\n' !in LinkLine(links[i]) && '\n' !in LinkLine(links2[i])
      ensures LinkLine(links2[i]) == LinkLine(links[i]) <==> Trimmed(links[i].condition)
    {
      assert GoodLink(nodes, links[i]);
      NormalLinkIsOneLine(links[i]);
      SameLinkLine(links[i]);
    }
    hide GoodLink, GoodLinks;
    if LinkLines(links2) == LinkLines(links) {
      forall i | 0 <= i < |links| ensures Trimmed(links[i].condition) {
        assert LinkLines(links2)[i] == LinkLines(links)[i];
      }
    }
  }
}
