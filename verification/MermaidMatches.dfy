/**
  What the Mermaid printer writes and what its parser makes of any text, printed or not: the exact
  texts its matches take, what a declaration and an edge become, and the definition as a whole.
 */
module MermaidMatches {
  import opened Options
  import opened Text
  import opened Mermaid

  // ----- labels -----

  /** The words of a text: its parts between white space. `word` is what was read of the first one. */
  function Words(s: string, word: string): seq<string>
    decreases |s|
  {
    if s == "" then if word == "" then [] else [word]
    else if IsSpace(s[0]) then (if word == "" then [] else [word]) + Words(s[1..], "")
    else Words(s[1..], word + [s[0]])
  }

  lemma {:induction false} WordsTrimStart(s: string)
    ensures Words(TrimStart(s), "") == Words(s, "")
    decreases |s|
  {
    if s != "" && IsSpace(s[0]) {
      WordsTrimStart(s[1..]);
    }
  }

  lemma {:induction false} WordsCollapse(s: string, word: string)
    ensures Words(Collapse(s), word) == Words(s, word)
    decreases |s|
  {
    if s == "" {
    } else if IsSpace(s[0]) {
      var rest := TrimStart(s);
      assert TrimStart(s) == TrimStart(s[1..]);
      WordsCollapse(rest, "");
      WordsTrimStart(s[1..]);
      assert Collapse(s) == " " + Collapse(rest) && (" " + Collapse(rest))[1..] == Collapse(rest);
    } else {
      WordsCollapse(s[1..], word + [s[0]]);
      assert ([s[0]] + Collapse(s[1..]))[1..] == Collapse(s[1..]);
    }
  }

  lemma {:induction false} WordsPad(s: string, pad: string, word: string)
    requires AllSpace(pad)
    ensures Words(s + pad, word) == Words(s, word)
    decreases |s| + |pad|
  {
    if s != "" {
      assert (s + pad)[1..] == s[1..] + pad;
      WordsPad(s[1..], pad, if IsSpace(s[0]) then "" else word + [s[0]]);
    } else if pad != "" {
      assert s + pad == pad && "" + pad[1..] == pad[1..];
      WordsPad("", pad[1..], "");
    } else {
      assert s + pad == s;
    }
  }

  /** Quotes become single ones and parentheses spaces. */
  ghost predicate Softens(s: string, t: string) {
    |t| == |s| && forall i :: 0 <= i < |s| ==>
      t[i] == match s[i]
              case '"' => '\''
              case '(' => ' '
              case ')' => ' '
              case c => c
  }

  /** Escaping a label keeps its words, with quotes and parentheses replaced; with `EscapeIsClean` that determines it. */
  lemma EscapeKeepsWords(s: string, t: string)
    requires Softens(s, t)
    ensures Words(EscapeLabel(s), "") == Words(t, "")
  {
    hide Words, Collapse, Trim, Replace;
    SoftensIsReplace(s, t);
    WordsCollapse(t, "");
    WordsTrim(Collapse(t));
  }

  lemma SoftensIsReplace(s: string, t: string)
    requires Softens(s, t)
    ensures t == Replace(s)
  {
    forall i | 0 <= i < |s| ensures t[i] == Replace(s)[i] {
    }
  }

  lemma WordsTrim(s: string)
    ensures Words(Trim(s), "") == Words(s, "")
  {
    hide Words;
    WordsTrimStart(s);
    hide TrimStart;
    var trimmed := TrimStart(s);
    var end := TrimEnd(trimmed);
    assert Trim(s) == end;
    hide TrimEnd;
    WordsPad(end, trimmed[|end|..], "");
    assert end + trimmed[|end|..] == trimmed;
  }

  // ----- the printed form -----

  lemma OneCharLabel(c: string)
    requires |c| == 1 && !IsSpace(c[0]) && c[0] !in "\"()"
    ensures EscapeLabel(c) == c
  {
    assert Replace(c) == c;
    assert c[1..] == "" && Collapse("") == "";
    assert Collapse(c) == [c[0]] + Collapse(c[1..]) == c;
    TrimFixed(c);
  }

  lemma ThreeJoined(a: string, b: string, c: string)
    ensures Join([a, b, c], '\n') == a + "\n" + b + "\n" + c
  {
    JoinAppend([a, b], c, '\n');
    JoinAppend([a], b, '\n');
    assert [a, b] + [c] == [a, b, c] && [a] + [b] == [a, b];
    assert Join([a], '\n') == a;
  }

  lemma OneOfEach(n: Node, l: Link)
    ensures Print([n], [l]) == HEADER + "\n" + NodeLine(n) + "\n" + LinkLine(l)
  {
    hide NodeLine, LinkLine, Join;
    assert Lines([n], [l]) == [HEADER, NodeLine(n), LinkLine(l)];
    ThreeJoined(HEADER, NodeLine(n), LinkLine(l));
  }

  /** A node and a link with and without a condition, spelled out. */
  lemma PrintedForm(n: Node, plain: Link, conditional: Link)
    requires n == Node("a", n.nodeType, "t", "T") && plain == Link("a", "b", "") && conditional == Link("a", "b", "y|z")
    ensures Print([n], [plain]) == "flowchart LR" + "\n" + "  a[\"T (t)\"]" + "\n" + "  a --> b"
    ensures Print([n], [conditional]) == "flowchart LR" + "\n" + "  a[\"T (t)\"]" + "\n" + "  a --> |y/z| b"
  {
    OneOfEach(n, plain);
    OneOfEach(n, conditional);
    NodeSpelled(n);
    LinkSpelled(plain);
    ConditionSpelled(conditional);
    hide Print, NodeLine, LinkLine;
  }

  lemma NodeSpelled(n: Node)
    requires n == Node("a", n.nodeType, "t", "T")
    ensures NodeLine(n) == "  a[\"T (t)\"]"
  {
    hide DisplayLabel;
    DisplayedT(n);
    assert "  " + "a" + "[\"" + "T (t)" + "\"]" == "  a[\"T (t)\"]";
    assert RawLabel("T", "t") == "T (t)";
  }

  lemma DisplayedT(n: Node)
    requires n.title == "T"
    ensures DisplayLabel(n) == "T"
  {
    OneCharLabel("T");
    hide EscapeLabel;
  }

  lemma LinkSpelled(l: Link)
    requires l == Link("a", "b", "")
    ensures LinkLine(l) == "  a --> b"
  {
  }

  lemma ConditionSpelled(l: Link)
    requires l == Link("a", "b", "y|z")
    ensures LinkLine(l) == "  a --> |y/z| b"
  {
    assert Slashes(l.condition) == "y/z";
    hide Slashes;
  }

  /** Without a title a node shows its activity type. */
  lemma TypeIsShown(n: Node)
    ensures n.title == "" ==> DisplayLabel(n) == EscapeLabel(n.activityType)
    ensures n.title != "" ==> DisplayLabel(n) == EscapeLabel(n.title)
  {
  }

  // ----- what the parser makes of any text -----

  /** Which connector a declaration names: by its type if that is catalogued, else by its label. */
  ghost predicate Names(catalog: seq<CatalogEntry>, lower: string -> string, raw: string, entry: CatalogEntry) {
    var m := MatchSuffix(raw);
    var named, labelText := if m.Some? then Trim(m.value.inner) else "", Trim(if m.Some? then m.value.before else raw);
    entry in catalog &&
    if named != "" && exists c :: c in catalog && c.activityType == named then entry.activityType == named
    else lower(entry.title) == lower(labelText)
  }

  /** The node is one of the connector's kind; without a label of its own it has the connector's, or its id. */
  predicate Connects(n: Node, entry: CatalogEntry, labelText: string) {
    && n.nodeType == entry.nodeType && n.activityType == entry.activityType
    && (labelText == "" ==> n.title == if entry.title != "" then entry.title else n.id)
  }

  lemma {:induction false} ByTypeIs(catalog: seq<CatalogEntry>, activityType: string)
    ensures ByType(catalog, activityType).Some? <==> exists c :: c in catalog && c.activityType == activityType
    ensures ByType(catalog, activityType).Some? ==>
      ByType(catalog, activityType).value in catalog && ByType(catalog, activityType).value.activityType == activityType
  {
    if catalog != [] {
      var n := |catalog| - 1;
      ByTypeIs(catalog[..n], activityType);
      assert catalog == catalog[..n] + [catalog[n]];
    }
  }

  lemma {:induction false} ByLabelIs(catalog: seq<CatalogEntry>, lower: string -> string, key: string)
    ensures ByLabel(catalog, lower, key).Some? <==> exists c :: c in catalog && lower(c.title) == key
    ensures ByLabel(catalog, lower, key).Some? ==>
      ByLabel(catalog, lower, key).value in catalog && lower(ByLabel(catalog, lower, key).value.title) == key
  {
    if catalog != [] {
      var n := |catalog| - 1;
      ByLabelIs(catalog[..n], lower, key);
      assert catalog == catalog[..n] + [catalog[n]];
    }
  }

  /**
    What a declaration becomes. It maps to a connector exactly if one is named; then the node has
    that connector's types. Otherwise it keeps the type that is written and gets a kind by its head.
    The label is the text before the type, or the connector's own, or the id.
   */
  lemma DeclarationMeans(catalog: seq<CatalogEntry>, lower: string -> string, id: string, raw: string)
    ensures var (n, known) := ParseNode(catalog, lower, id, raw);
            var m := MatchSuffix(raw);
            var named, labelText := if m.Some? then Trim(m.value.inner) else "", Trim(if m.Some? then m.value.before else raw);
            && n.id == id && (labelText != "" ==> n.title == labelText)
            && (known <==> exists entry :: Names(catalog, lower, raw, entry))
            && (known ==> exists entry :: Names(catalog, lower, raw, entry) && Connects(n, entry, labelText))
            && (!known ==> n.activityType == named && (labelText == "" ==> n.title == id)
                           && n.nodeType == DefaultNodeType(if named != "" then named else "transform.map"))
  {
    hide MatchSuffix, ByType, ByLabel, DefaultNodeType, Trim;
    var m := MatchSuffix(raw);
    var named, labelText := if m.Some? then Trim(m.value.inner) else "", Trim(if m.Some? then m.value.before else raw);
    ByTypeIs(catalog, named);
    ByLabelIs(catalog, lower, lower(labelText));
    var exact := if named != "" then ByType(catalog, named) else None;
    var entry := if exact.Some? then exact else ByLabel(catalog, lower, lower(labelText));
    if entry.Some? {
      assert Names(catalog, lower, raw, entry.value);
    }
  }

  /** The kind of an unknown connector, by the part of its type before the first dot. */
  lemma KindByHead(head: string, rest: string)
    requires '.' !in head
    ensures var kind := DefaultNodeType(head + "." + rest);
            && (head == "transform" ==> kind == Transform && DefaultNodeType(head) == Transform)
            && (head == "sink" ==> kind == Sink && DefaultNodeType(head) == Sink)
            && (head == "flow" && |rest| >= 5 ==> kind == if rest[|rest| - 5..] == "merge" then Merge else Fork)
            && (head !in {"transform", "sink", "flow"} ==> kind == Source && DefaultNodeType(head) == Source)
  {
    SplitFirst(head, '.', rest);
    assert head + ['.'] + rest == head + "." + rest;
    hide Split;
    if |rest| >= 5 {
      var whole := head + "." + rest;
      assert whole[|whole| - 5..] == rest[|rest| - 5..];
    }
  }

  lemma {:induction false} PutNodeIs(nodes: seq<Node>, n: Node)
    requires DistinctIds(nodes)
    ensures DistinctIds(PutNode(nodes, n))
    ensures forall x :: x in PutNode(nodes, n) <==> x == n || (x in nodes && x.id != n.id)
    ensures HasNode(nodes, n.id) ==>
      |PutNode(nodes, n)| == |nodes| && forall i :: 0 <= i < |nodes| ==> PutNode(nodes, n)[i].id == nodes[i].id
    ensures !HasNode(nodes, n.id) ==> PutNode(nodes, n) == nodes + [n]
  {
    if nodes != [] {
      assert nodes == [nodes[0]] + nodes[1..];
      HasNodeTail(nodes, n.id);
      if nodes[0].id != n.id {
        PutNodeIs(nodes[1..], n);
      }
    }
    hide HasNode;
  }

  lemma HasNodeIs(nodes: seq<Node>, id: string)
    ensures HasNode(nodes, id) <==> exists x :: x in nodes && x.id == id
  {
    if x :| x in nodes && x.id == id {
      var i :| 0 <= i < |nodes| && nodes[i] == x;
    }
  }

  lemma PutNodeHas(nodes: seq<Node>, n: Node, id: string)
    requires DistinctIds(nodes)
    ensures HasNode(PutNode(nodes, n), id) <==> HasNode(nodes, id) || id == n.id
  {
    PutNodeIs(nodes, n);
    HasNodeIs(nodes, id);
    HasNodeIs(PutNode(nodes, n), id);
    hide PutNode, HasNode, DistinctIds;
    assert n in PutNode(nodes, n);
  }

  lemma HasNodeTail(nodes: seq<Node>, id: string)
    requires nodes != []
    ensures HasNode(nodes, id) <==> nodes[0].id == id || HasNode(nodes[1..], id)
  {
    if HasNode(nodes[1..], id) {
      var i :| 0 <= i < |nodes| - 1 && nodes[1..][i].id == id;
      assert nodes[i + 1].id == id;
    }
    if HasNode(nodes, id) && nodes[0].id != id {
      var i :| 0 <= i < |nodes| && nodes[i].id == id;
      assert nodes[1..][i - 1].id == id;
    }
  }

  ghost predicate Declared(ms: seq<(string, string)>, id: string) {
    exists i :: 0 <= i < |ms| && ms[i].0 == id
  }

  /** The last declaration of an id, which is the one that counts. */
  ghost predicate LastDeclaration(ms: seq<(string, string)>, i: nat) {
    i < |ms| && forall j :: i < j < |ms| ==> ms[j].0 != ms[i].0
  }

  ghost predicate Unknown(catalog: seq<CatalogEntry>, lower: string -> string, ms: seq<(string, string)>, id: string) {
    exists i :: 0 <= i < |ms| && ms[i].0 == id && !ParseNode(catalog, lower, id, ms[i].1).1
  }

  ghost predicate LastCounts(catalog: seq<CatalogEntry>, lower: string -> string, before: seq<Node>, ms: seq<(string, string)>, after: seq<Node>) {
    && (forall i: nat :: LastDeclaration(ms, i) ==> ParseNode(catalog, lower, ms[i].0, ms[i].1).0 in after)
    && (forall x :: x in before && !Declared(ms, x.id) ==> x in after)
  }

  lemma LastCountsBoth(catalog: seq<CatalogEntry>, lower: string -> string, a: seq<Node>, m: (string, string), b: seq<Node>,
                       rest: seq<(string, string)>, c: seq<Node>)
    requires LastCounts(catalog, lower, a, [m], b) && LastCounts(catalog, lower, b, rest, c)
    ensures LastCounts(catalog, lower, a, [m] + rest, c)
  {
    hide ParseNode;
    var ms := [m] + rest;
    forall i: nat | LastDeclaration(ms, i) ensures ParseNode(catalog, lower, ms[i].0, ms[i].1).0 in c {
      if i == 0 {
        FirstIsLast(m, rest);
        ParsedId(catalog, lower, m.0, m.1);
        assert LastDeclaration([m], 0) && [m][0] == m;
      } else {
        LastInRest(m, rest, i);
      }
    }
    forall x | x in a && !Declared(ms, x.id) ensures x in c {
      DeclaredBoth(m, rest, x.id);
    }
  }

  lemma FirstIsLast(m: (string, string), rest: seq<(string, string)>)
    requires LastDeclaration([m] + rest, 0)
    ensures !Declared(rest, m.0)
  {
    forall j | 0 <= j < |rest| ensures rest[j].0 != m.0 {
      assert ([m] + rest)[j + 1] == rest[j];
    }
  }

  lemma LastInRest(m: (string, string), rest: seq<(string, string)>, i: nat)
    requires i > 0 && LastDeclaration([m] + rest, i)
    ensures LastDeclaration(rest, i - 1) && ([m] + rest)[i] == rest[i - 1]
  {
    forall j | i - 1 < j < |rest| ensures rest[j].0 != rest[i - 1].0 {
      assert ([m] + rest)[j + 1] == rest[j];
    }
  }

  ghost predicate DeclaresAll(catalog: seq<CatalogEntry>, lower: string -> string, d: Definition, ms: seq<(string, string)>, v: Definition) {
    && DistinctIds(v.nodes) && v.edges == d.edges && |d.nodes| <= |v.nodes|
    && (forall i :: 0 <= i < |d.nodes| ==> v.nodes[i].id == d.nodes[i].id)
    && (forall id :: HasNode(v.nodes, id) <==> HasNode(d.nodes, id) || Declared(ms, id))
    && LastCounts(catalog, lower, d.nodes, ms, v.nodes)
    && (forall id :: UnknownConnector(id) in v.warnings <==> UnknownConnector(id) in d.warnings || Unknown(catalog, lower, ms, id))
    && (forall id :: Undeclared(id) in v.warnings <==> Undeclared(id) in d.warnings)
  }

  lemma DeclareOneIs(catalog: seq<CatalogEntry>, lower: string -> string, d: Definition, m: (string, string))
    requires DistinctIds(d.nodes)
    ensures DeclaresAll(catalog, lower, d, [m], DeclareOne(catalog, lower, d, m))
  {
    hide ParseNode, PutNode;
    var node := ParseNode(catalog, lower, m.0, m.1).0;
    assert node.id == m.0 by { ParsedId(catalog, lower, m.0, m.1); }
    PutNodeIs(d.nodes, node);
    forall id ensures HasNode(PutNode(d.nodes, node), id) <==> HasNode(d.nodes, id) || id == node.id {
      PutNodeHas(d.nodes, node, id);
    }
    assert [m][0] == m;
    hide HasNode, DistinctIds;
    var v := DeclareOne(catalog, lower, d, m);
    assert forall id :: Declared([m], id) <==> id == m.0;
    assert LastCounts(catalog, lower, d.nodes, [m], v.nodes);
    OneUnknown(catalog, lower, m);
    hide LastCounts;
  }

  lemma OneUnknown(catalog: seq<CatalogEntry>, lower: string -> string, m: (string, string))
    ensures forall id :: Unknown(catalog, lower, [m], id) <==> id == m.0 && !ParseNode(catalog, lower, m.0, m.1).1
  {
    hide ParseNode;
    assert [m][0] == m;
  }

  lemma ParsedId(catalog: seq<CatalogEntry>, lower: string -> string, id: string, raw: string)
    ensures ParseNode(catalog, lower, id, raw).0.id == id
  {
  }

  lemma DeclaresBoth(catalog: seq<CatalogEntry>, lower: string -> string, d: Definition, m: (string, string), u: Definition,
                     rest: seq<(string, string)>, v: Definition)
    requires DeclaresAll(catalog, lower, d, [m], u) && DeclaresAll(catalog, lower, u, rest, v)
    ensures DeclaresAll(catalog, lower, d, [m] + rest, v)
  {
    hide ParseNode, HasNode, DistinctIds;
    var ms := [m] + rest;
    forall id ensures Declared(ms, id) <==> Declared([m], id) || Declared(rest, id) {
      DeclaredBoth(m, rest, id);
    }
    forall id ensures Unknown(catalog, lower, ms, id) <==> Unknown(catalog, lower, [m], id) || Unknown(catalog, lower, rest, id) {
      UnknownBoth(catalog, lower, m, rest, id);
    }
    LastCountsBoth(catalog, lower, d.nodes, m, u.nodes, rest, v.nodes);
    hide LastCounts;
  }

  lemma DeclaredBoth(m: (string, string), rest: seq<(string, string)>, id: string)
    ensures Declared([m] + rest, id) <==> Declared([m], id) || Declared(rest, id)
  {
    var ms := [m] + rest;
    if Declared(rest, id) {
      var i :| 0 <= i < |rest| && rest[i].0 == id;
      assert ms[i + 1].0 == id;
    }
    if Declared([m], id) {
      assert ms[0].0 == id;
    }
    if Declared(ms, id) {
      var i :| 0 <= i < |ms| && ms[i].0 == id;
      if i > 0 {
        assert rest[i - 1].0 == id;
      } else {
        assert [m][0].0 == id;
      }
    }
  }

  lemma UnknownBoth(catalog: seq<CatalogEntry>, lower: string -> string, m: (string, string), rest: seq<(string, string)>, id: string)
    ensures Unknown(catalog, lower, [m] + rest, id) <==> Unknown(catalog, lower, [m], id) || Unknown(catalog, lower, rest, id)
  {
    hide ParseNode;
    var ms := [m] + rest;
    if Unknown(catalog, lower, rest, id) {
      var i :| 0 <= i < |rest| && rest[i].0 == id && !ParseNode(catalog, lower, id, rest[i].1).1;
      assert ms[i + 1] == rest[i];
    }
    if Unknown(catalog, lower, [m], id) {
      assert ms[0] == m;
    }
    if Unknown(catalog, lower, ms, id) {
      var i :| 0 <= i < |ms| && ms[i].0 == id && !ParseNode(catalog, lower, id, ms[i].1).1;
      if i > 0 {
        assert rest[i - 1] == ms[i];
      } else {
        assert [m][0] == ms[0];
      }
    }
  }

  lemma {:induction false} DeclareAllIs(catalog: seq<CatalogEntry>, lower: string -> string, d: Definition, ms: seq<(string, string)>)
    requires DistinctIds(d.nodes)
    ensures DeclaresAll(catalog, lower, d, ms, DeclareAll(catalog, lower, d, ms))
    decreases |ms|
  {
    hide DeclareOne, ParseNode, DistinctIds;
    if ms == [] {
      assert forall id :: !Declared([], id) && !Unknown(catalog, lower, [], id);
    } else {
      hide HasNode, DeclaresAll;
      var u := DeclareOne(catalog, lower, d, ms[0]);
      DeclareOneIs(catalog, lower, d, ms[0]);
      DeclareAllIs(catalog, lower, u, ms[1..]);
      DeclaresBoth(catalog, lower, d, ms[0], u, ms[1..], DeclareAll(catalog, lower, u, ms[1..]));
      assert [ms[0]] + ms[1..] == ms;
    }
  }

  ghost predicate IsEnd(links: seq<Link>, id: string) {
    exists i :: 0 <= i < |links| && (links[i].source == id || links[i].target == id)
  }

  /** Edges added in order; ends that are no nodes yet become plain ones, each with one warning. */
  ghost predicate AddsAll(d: Definition, links: seq<Link>, v: Definition) {
    && DistinctIds(v.nodes) && d.nodes <= v.nodes && d.warnings <= v.warnings
    && |v.warnings| - |d.warnings| == |v.nodes| - |d.nodes|
    && (forall id :: HasNode(v.nodes, id) <==> HasNode(d.nodes, id) || IsEnd(links, id))
    && (forall x :: x in v.nodes ==> x in d.nodes || x == Node(x.id, Transform, "", x.id))
    && (forall id :: Undeclared(id) in v.warnings <==> Undeclared(id) in d.warnings || (IsEnd(links, id) && !HasNode(d.nodes, id)))
    && (forall id :: UnknownConnector(id) in v.warnings <==> UnknownConnector(id) in d.warnings)
    && |v.edges| == |d.edges| + |links| && d.edges <= v.edges
    && forall i :: 0 <= i < |links| ==> v.edges[|d.edges| + i] == PipelineEdge("e" + Decimal(|d.edges| + i + 1), links[i])
  }

  lemma EnsureNodeIs(d: Definition, id: string)
    requires DistinctIds(d.nodes)
    ensures var v := EnsureNode(d, id);
            && DistinctIds(v.nodes) && d.nodes <= v.nodes && d.warnings <= v.warnings && v.edges == d.edges
            && |v.warnings| - |d.warnings| == |v.nodes| - |d.nodes|
            && (forall x :: HasNode(v.nodes, x) <==> HasNode(d.nodes, x) || x == id)
            && (forall x :: x in v.nodes ==> x in d.nodes || x == Node(x.id, Transform, "", x.id))
            && (forall x :: Undeclared(x) in v.warnings <==> Undeclared(x) in d.warnings || (x == id && !HasNode(d.nodes, x)))
            && (forall x :: UnknownConnector(x) in v.warnings <==> UnknownConnector(x) in d.warnings)
  {
    if !HasNode(d.nodes, id) {
      var n := Node(id, Transform, "", id);
      forall x ensures HasNode(d.nodes + [n], x) <==> HasNode(d.nodes, x) || x == id {
        HasNodeAppend(d.nodes, n, x);
      }
    }
  }

  lemma HasNodeAppend(nodes: seq<Node>, n: Node, id: string)
    ensures HasNode(nodes + [n], id) <==> HasNode(nodes, id) || n.id == id
  {
    if HasNode(nodes, id) {
      var i :| 0 <= i < |nodes| && nodes[i].id == id;
      assert (nodes + [n])[i].id == id;
    }
    if n.id == id {
      assert (nodes + [n])[|nodes|].id == id;
    }
  }

  lemma AddLinkIs(d: Definition, l: Link)
    requires DistinctIds(d.nodes)
    ensures AddsAll(d, [l], AddLink(d, l))
  {
    hide EnsureNode, HasNode, DistinctIds, Decimal;
    EnsureNodeIs(d, l.source);
    EnsureNodeIs(EnsureNode(d, l.source), l.target);
    assert [l][0] == l;
    forall id ensures IsEnd([l], id) <==> l.source == id || l.target == id {
    }
  }

  lemma IsEndBoth(l: Link, rest: seq<Link>, id: string)
    ensures IsEnd([l] + rest, id) <==> IsEnd([l], id) || IsEnd(rest, id)
  {
    var links := [l] + rest;
    if IsEnd(rest, id) {
      var i :| 0 <= i < |rest| && (rest[i].source == id || rest[i].target == id);
      assert links[i + 1] == rest[i];
    }
    if IsEnd([l], id) {
      assert links[0] == l;
    }
    if IsEnd(links, id) {
      var i :| 0 <= i < |links| && (links[i].source == id || links[i].target == id);
      if i > 0 {
        assert rest[i - 1] == links[i];
      } else {
        assert [l][0] == links[0];
      }
    }
  }

  lemma AddsBoth(d: Definition, l: Link, u: Definition, rest: seq<Link>, v: Definition)
    requires AddsAll(d, [l], u) && AddsAll(u, rest, v)
    ensures AddsAll(d, [l] + rest, v)
  {
    hide HasNode, DistinctIds, Decimal, IsEnd;
    forall id ensures IsEnd([l] + rest, id) <==> IsEnd([l], id) || IsEnd(rest, id) {
      IsEndBoth(l, rest, id);
    }
    var links := [l] + rest;
    forall i | 0 <= i < |links| ensures v.edges[|d.edges| + i] == PipelineEdge("e" + Decimal(|d.edges| + i + 1), links[i]) {
      if i == 0 {
        assert v.edges[|d.edges|] == u.edges[|d.edges|] && [l][0] == l;
      } else {
        assert v.edges[|u.edges| + (i - 1)] == PipelineEdge("e" + Decimal(|u.edges| + (i - 1) + 1), rest[i - 1]);
      }
    }
  }

  lemma {:induction false} AddLinksIs(d: Definition, links: seq<Link>)
    requires DistinctIds(d.nodes)
    ensures AddsAll(d, links, AddLinks(d, links))
    decreases |links|
  {
    hide AddLink, HasNode, DistinctIds, Decimal;
    if links != [] {
      var u := AddLink(d, links[0]);
      AddLinkIs(d, links[0]);
      AddLinksIs(u, links[1..]);
      AddsBoth(d, links[0], u, links[1..], AddLinks(u, links[1..]));
      assert [links[0]] + links[1..] == links;
    }
  }

  /**
    The definition made of any text. Its node ids are different and are exactly those declared or
    used by an edge; the last declaration of an id counts; ends that were not declared are plain
    nodes. The edges are the matched ones in order, numbered from 1, and join nodes of the
    definition. There is a warning for exactly the unknown connectors and the undeclared ends.
   */
  lemma ParsedDefinition(src: string, catalog: seq<CatalogEntry>, lower: string -> string)
    ensures var d, ms, links := Parse(src, catalog, lower), Declarations(src), LinksOf(Split(Strip(src), '\n'));
            && DistinctIds(d.nodes) && (forall id :: HasNode(d.nodes, id) <==> Declared(ms, id) || IsEnd(links, id))
            && (forall i: nat :: LastDeclaration(ms, i) ==> ParseNode(catalog, lower, ms[i].0, ms[i].1).0 in d.nodes)
            && (forall id :: IsEnd(links, id) && !Declared(ms, id) ==> Node(id, Transform, "", id) in d.nodes)
            && |d.edges| == |links| && (forall i :: 0 <= i < |links| ==> d.edges[i] == PipelineEdge("e" + Decimal(i + 1), links[i]))
            && (forall i :: 0 <= i < |d.edges| ==> HasNode(d.nodes, d.edges[i].link.source) && HasNode(d.nodes, d.edges[i].link.target))
            && (forall id :: UnknownConnector(id) in d.warnings <==> Unknown(catalog, lower, ms, id))
            && (forall id :: Undeclared(id) in d.warnings <==> IsEnd(links, id) && !Declared(ms, id))
  {
    hide ParseNode, DeclareAll, AddLinks, Declarations, LinksOf, Split, Strip, Decimal;
    var ms, links := Declarations(src), LinksOf(Split(Strip(src), '\n'));
    var d0 := DeclareAll(catalog, lower, Definition([], [], []), ms);
    DeclareAllIs(catalog, lower, Definition([], [], []), ms);
    AddLinksIs(d0, links);
    var d := AddLinks(d0, links);
    forall id ensures !HasNode([], id) {
    }
    hide DistinctIds, Unknown, LastDeclaration;
    forall id | IsEnd(links, id) && !Declared(ms, id) ensures Node(id, Transform, "", id) in d.nodes {
      assert HasNode(d.nodes, id) && !HasNode(d0.nodes, id);
      var i :| 0 <= i < |d.nodes| && d.nodes[i].id == id;
    }
    forall i | 0 <= i < |d.edges| ensures HasNode(d.nodes, d.edges[i].link.source) && HasNode(d.nodes, d.edges[i].link.target) {
      assert d.edges[|d0.edges| + i] == PipelineEdge("e" + Decimal(|d0.edges| + i + 1), links[i]);
      assert IsEnd(links, links[i].source) && IsEnd(links, links[i].target);
    }
  }

  // ----- what the matches are -----

  /** An id, a bracket, a quoted text without quotes and a bracket, with any white space in between. */
  ghost predicate Declares(s: string, d: Declaration, a: string, b: string, c: string) {
    && IsId(d.id) && '"' !in d.raw && AllSpace(a) && AllSpace(b) && AllSpace(c)
    && s == d.id + (a + (['['] + (b + (['"'] + (d.raw + ['"'] + (c + ([']'] + d.rest)))))))
  }

  lemma ExpectAcross(pad: string, c: char, t: string)
    requires AllSpace(pad) && !IsSpace(c)
    ensures Expect(pad + ([c] + t), c) == Some(t)
  {
    TrimStartPad(pad, [c] + t);
    assert TrimStart([c] + t) == [c] + t;
  }

  /** What is found behind white space. */
  lemma ExpectedAt(s: string, c: char) returns (pad: string)
    requires Expect(s, c).Some?
    ensures AllSpace(pad) && s == pad + ([c] + Expect(s, c).value)
  {
    var t := TrimStart(s);
    pad := s[..|s| - |t|];
    assert s == pad + t && t == [c] + t[1..];
  }

  /** A declaration is matched at the start of a text exactly where there is one. */
  lemma MatchesDeclarations(s: string)
    ensures forall d, a, b, c :: Declares(s, d, a, b, c) ==> MatchDeclaration(s) == Some(d)
    ensures MatchDeclaration(s).Some? ==> exists a, b, c :: Declares(s, MatchDeclaration(s).value, a, b, c)
  {
    hide MatchDeclaration;
    forall d, a, b, c | Declares(s, d, a, b, c) ensures MatchDeclaration(s) == Some(d) {
      DeclaredIsMatched(s, d, a, b, c);
    }
    if MatchDeclaration(s).Some? {
      var a, b, c := MatchedIsDeclared(s);
    }
  }

  lemma DeclaredIsMatched(s: string, d: Declaration, a: string, b: string, c: string)
    requires Declares(s, d, a, b, c)
    ensures MatchDeclaration(s) == Some(d)
  {
    hide TrimStart, IdRun, Expect, IndexOf, AllSpace, IsId;
    var closed := c + ([']'] + d.rest);
    var quoted := d.raw + ['"'] + closed;
    var inside := b + (['"'] + quoted);
    var after := a + (['['] + inside);
    assert d.raw + ['"'] + (c + ([']'] + d.rest)) == quoted;
    assert s == d.id + after;
    NotIdAhead(a, '[', inside);
    IdChars(d.id);
    IdRunPrefix(d.id, after);
    assert s[|d.id|..] == after && s[..|d.id|] == d.id;
    ExpectAcross(a, '[', inside);
    ExpectAcross(b, '"', quoted);
    IndexOfSplit(d.raw, '"', closed);
    ExpectAcross(c, ']', d.rest);
  }

  lemma NotIdAhead(a: string, c: char, t: string)
    requires AllSpace(a) && !IsIdChar(c)
    ensures var u := a + ([c] + t); u != "" && !IsIdChar(u[0])
  {
    var u := a + ([c] + t);
    if a != "" {
      assert u[0] == a[0] && IsSpace(a[0]);
    }
  }

  lemma IdChars(id: string)
    requires IsId(id)
    ensures id != "" && forall i :: 0 <= i < |id| ==> IsIdChar(id[i])
  {
  }

  lemma MatchedIsDeclared(s: string) returns (a: string, b: string, c: string)
    requires MatchDeclaration(s).Some?
    ensures Declares(s, MatchDeclaration(s).value, a, b, c)
  {
    hide TrimStart, Expect, AllSpace;
    var n := IdRun(s);
    var open := Expect(s[n..], '[').value;
    var quote := Expect(open, '"').value;
    var end := IndexOf(quote, '"').value;
    a := ExpectedAt(s[n..], '[');
    b := ExpectedAt(open, '"');
    c := ExpectedAt(quote[end + 1..], ']');
    var d := MatchDeclaration(s).value;
    assert quote == d.raw + ['"'] + quote[end + 1..];
    hide IdRun, IndexOf;
    assert s == s[..n] + s[n..];
  }

  /** The scan takes the leftmost declaration, and goes on behind it. */
  lemma {:induction false} LeftmostDeclaration(s: string, k: nat)
    requires k <= |s| && forall i :: 0 <= i < k ==> MatchDeclaration(s[i..]).None?
    ensures Declarations(s) == Declarations(s[k..])
    ensures MatchDeclaration(s).Some? && s != "" ==>
      Declarations(s) == [(MatchDeclaration(s).value.id, MatchDeclaration(s).value.raw)] + Declarations(MatchDeclaration(s).value.rest)
  {
    hide MatchDeclaration;
    if k == 0 {
      assert s[0..] == s;
    } else {
      assert s[0..] == s;
      forall i | 0 <= i < k - 1 ensures MatchDeclaration(s[1..][i..]).None? {
        assert s[1..][i..] == s[i + 1..];
      }
      LeftmostDeclaration(s[1..], k - 1);
      assert s[1..][k - 1..] == s[k..];
    }
  }

  /** Text in brackets is removed, an open bracket that is not closed stays. */
  lemma StripsBrackets(u: string, x: string, t: string)
    requires '[' !in u
    ensures ']' !in x ==> Strip(u + ("[" + x + "]" + t)) == u + Strip(t)
    ensures ']' !in t ==> Strip(u + t) == u + t
  {
    hide Strip;
    if ']' !in x {
      StripPlain(u, "[" + x + "]" + t);
      StripBracket(x, t);
    }
    if ']' !in t {
      StripPlain(u, t);
      StripOpen(t);
    }
  }

  lemma {:induction false} StripOpen(t: string)
    requires ']' !in t
    ensures Strip(t) == t
  {
    if t != "" {
      assert t == [t[0]] + t[1..];
      StripOpen(t[1..]);
    }
  }

  /** The segments between the arrows of a line hold no arrow, and joined by arrows they are the line. */
  lemma {:induction false} SegmentsAre(s: string)
    ensures forall k :: 0 <= k < |SplitArrows(s)| ==> NoArrow(SplitArrows(s)[k])
    ensures ArrowJoin(SplitArrows(s)) == s
    decreases |s|
  {
    var i := FindArrow(s);
    if i.Some? {
      var rest := s[i.value + 3..];
      SegmentsAre(rest);
      var segments := SplitArrows(s);
      assert segments[0] == s[..i.value] && segments[1..] == SplitArrows(rest);
      assert forall j :: 0 <= j ==> ArrowAt(s[..i.value], j) ==> ArrowAt(s, j);
      assert s == s[..i.value] + "-->" + rest;
    } else {
      assert SplitArrows(s) == [s];
    }
  }

  ghost predicate NoArrow(s: string) {
    forall i :: 0 <= i <= |s| ==> !ArrowAt(s, i)
  }

  function ArrowJoin(segments: seq<string>): string {
    if segments == [] then "" else if |segments| == 1 then segments[0] else segments[0] + "-->" + ArrowJoin(segments[1..])
  }

  /** The id at the end of a segment, before white space: the longest there is. */
  lemma LeftEndIs(s: string, a: string, id: string, pad: string)
    requires s == a + id + pad && IsId(id) && AllSpace(pad) && (a == "" || !IsIdChar(a[|a| - 1]))
    ensures MatchLeft(s) == Some(id)
  {
    TrimEndPad(a + id, pad);
    TrimEndTail(a, id);
    IdTailOf(a, id);
  }

  /** Without an id at its end a segment has no left end. */
  lemma LeftEndNeedsId(s: string, a: string, pad: string)
    requires s == a + pad && AllSpace(pad) && (a == "" || (!IsIdChar(a[|a| - 1]) && !IsSpace(a[|a| - 1])))
    ensures MatchLeft(s) == None
  {
    TrimEndPad(a, pad);
    if a != "" {
      TrimEndTail("", a);
      assert "" + a == a;
    } else {
      assert TrimEnd("") == "";
    }
  }

  lemma StartsWithId(pad: string, id: string, rest: string)
    requires IsId(id) && AllSpace(pad) && (rest == "" || !IsIdChar(rest[0]))
    ensures var u := id + rest;
            TrimStart(pad + u) == u && IdRun(u) == |id| && u[..|id|] == id && u != "" && IsIdChar(u[0])
  {
    var u := id + rest;
    assert u[0] == id[0] && IsIdChar(u[0]);
    assert TrimStart(u) == u;
    TrimStartPad(pad, u);
    IdRunPrefix(id, rest);
  }

  /** The id at the start of a segment. */
  lemma RightEndIs(pad: string, id: string, rest: string)
    requires IsId(id) && AllSpace(pad) && (rest == "" || !IsIdChar(rest[0]))
    ensures MatchRight(pad + (id + rest)) == Some(("", id))
  {
    hide TrimStart, IdRun, IndexOf, IsId, AllSpace;
    StartsWithId(pad, id, rest);
  }

  /** And with the condition between bars before it. */
  lemma ConditionalEndIs(pad: string, condition: string, pad2: string, id: string, rest: string)
    requires IsId(id) && AllSpace(pad) && AllSpace(pad2) && (rest == "" || !IsIdChar(rest[0])) && '|' !in condition
    ensures MatchRight(pad + (['|'] + (condition + ['|'] + (pad2 + (id + rest))))) == Some((condition, id))
  {
    hide MatchRight, IdRun, IsId, TrimStart, AllSpace;
    var v := pad2 + (id + rest);
    var t := ['|'] + (condition + ['|'] + v);
    BarIsNoSpace(condition + ['|'] + v);
    TrimStartPad(pad, t);
    StartsWithId(pad2, id, rest);
    MatchRightBars(pad + t, condition, v, id + rest, |id|);
  }

  lemma BarIsNoSpace(t: string)
    ensures TrimStart(['|'] + t) == ['|'] + t
  {
  }

  lemma MatchRightBars(s: string, condition: string, v: string, u: string, n: nat)
    requires TrimStart(s) == ['|'] + (condition + ['|'] + v) && '|' !in condition
    requires TrimStart(v) == u && IdRun(u) == n && 0 < n <= |u|
    ensures MatchRight(s) == Some((condition, u[..n]))
  {
    hide TrimStart, IdRun, IndexOf;
    var t := ['|'] + (condition + ['|'] + v);
    IndexOfSplit(condition, '|', v);
    assert t[0] == '|' && t[1..] == condition + ['|'] + v;
  }

  /** Every opening parenthesis is closed later. */
  ghost predicate AllClosed(s: string) {
    forall i :: 0 <= i < |s| && s[i] == '(' ==> ')' in s[i..]
  }

  lemma AllClosedTail(s: string)
    requires s != "" && AllClosed(s)
    ensures AllClosed(s[1..]) && (s[0] == '(' ==> ')' in s)
  {
    var t := s[1..];
    assert s[0..] == s;
    forall i | 0 <= i < |t| && t[i] == '(' ensures ')' in t[i..] {
      assert s[i + 1] == '(' && s[i + 1..] == t[i..];
    }
  }

  /** The type of a declaration: the last parenthesised text, if nothing but white space follows it. */
  lemma SuffixIs(before: string, inner: string, pad: string)
    requires inner != "" && ')' !in inner && AllSpace(pad) && AllClosed(before)
    ensures MatchSuffix(before + ("(" + (inner + [')'] + pad))) == Some(Suffix(before, inner))
  {
    hide MatchSuffix, AllSpace, AllClosed;
    SuffixStarts(inner, pad);
    SuffixBehind(before, "(" + (inner + [')'] + pad), inner);
  }

  /** A type ends a text with a closing parenthesis and white space behind it. */
  ghost predicate EndsInType(raw: string, m: Suffix, pad: string) {
    m.inner != "" && ')' !in m.inner && AllSpace(pad) && raw == m.before + ("(" + (m.inner + [')'] + pad))
  }

  /** And whatever is taken for a type is such a text. */
  lemma {:induction false} SuffixFound(raw: string) returns (pad: string)
    requires MatchSuffix(raw).Some?
    ensures EndsInType(raw, MatchSuffix(raw).value, pad)
  {
    hide MatchSuffix, AllSpace, EndsInType;
    var here, at := MatchSuffixCases(raw);
    if here {
      pad := TypeHere(raw, at);
    } else {
      pad := SuffixFound(raw[1..]);
      TypeLater(raw[0], raw[1..], MatchSuffix(raw[1..]).value, pad);
      assert raw == [raw[0]] + raw[1..];
    }
  }

  lemma MatchSuffixCases(raw: string) returns (here: bool, at: nat)
    requires MatchSuffix(raw).Some?
    ensures raw != ""
    ensures here ==> raw[0] == '(' && IndexOf(raw[1..], ')') == Some(at) && at > 0 && AllSpace(raw[1..][at + 1..])
                     && MatchSuffix(raw) == Some(Suffix("", raw[1..][..at]))
    ensures !here ==> MatchSuffix(raw[1..]).Some?
                      && MatchSuffix(raw) == Some(Suffix([raw[0]] + MatchSuffix(raw[1..]).value.before, MatchSuffix(raw[1..]).value.inner))
  {
    hide IndexOf, AllSpace;
    var close := IndexOf(raw[1..], ')');
    here := raw[0] == '(' && close.Some? && close.value > 0 && AllSpace(raw[1..][close.value + 1..]);
    at := if here then close.value else 0;
  }

  lemma TypeHere(raw: string, at: nat) returns (pad: string)
    requires raw != "" && raw[0] == '(' && IndexOf(raw[1..], ')') == Some(at) && at > 0 && AllSpace(raw[1..][at + 1..])
    ensures EndsInType(raw, Suffix("", raw[1..][..at]), pad)
  {
    hide AllSpace;
    var rest := raw[1..];
    var inner := rest[..at];
    pad := rest[at + 1..];
    assert rest == inner + [')'] + pad;
    hide IndexOf;
    assert raw == "" + ("(" + rest);
  }

  lemma TypeLater(c: char, rest: string, m: Suffix, pad: string)
    requires EndsInType(rest, m, pad)
    ensures EndsInType([c] + rest, Suffix([c] + m.before, m.inner), pad)
  {
    hide AllSpace;
  }

  lemma {:induction false} SuffixBehind(before: string, tail: string, inner: string)
    requires tail != "" && tail[0] == '(' && MatchSuffix(tail) == Some(Suffix("", inner)) && AllClosed(before)
    ensures MatchSuffix(before + tail) == Some(Suffix(before, inner))
  {
    hide MatchSuffix, IndexOf, AllSpace, AllClosed;
    if before == "" {
      assert before + tail == tail;
    } else {
      AllClosedTail(before);
      SuffixBehind(before[1..], tail, inner);
      var rest := before[1..] + tail;
      assert before + tail == [before[0]] + rest && [before[0]] + before[1..] == before;
      if before[0] == '(' {
        NotTheSuffix(before, tail);
        SuffixLater(rest);
      } else {
        MatchSuffixLater(before[0], rest);
      }
    }
  }

  lemma SuffixStarts(inner: string, pad: string)
    requires inner != "" && ')' !in inner && AllSpace(pad)
    ensures MatchSuffix("(" + (inner + [')'] + pad)) == Some(Suffix("", inner))
  {
    hide IndexOf, AllSpace;
    IndexOfSplit(inner, ')', pad);
    assert ("(" + (inner + [')'] + pad))[1..] == inner + [')'] + pad;
  }

  lemma SuffixLater(rest: string)
    requires MatchSuffix(rest).Some? && IndexOf(rest, ')').Some? && !AllSpace(rest[IndexOf(rest, ')').value + 1..])
    ensures MatchSuffix(['('] + rest) == Some(Suffix(['('] + MatchSuffix(rest).value.before, MatchSuffix(rest).value.inner))
  {
    hide MatchSuffix, IndexOf, AllSpace;
    var raw := ['('] + rest;
    MatchSuffixOnce(raw);
    assert raw[0] == '(' && raw[1..] == rest;
  }

  lemma MatchSuffixOnce(raw: string)
    requires raw != "" && MatchSuffix(raw[1..]).Some?
    ensures var close, later := IndexOf(raw[1..], ')'), MatchSuffix(raw[1..]).value;
            close.Some? && !AllSpace(raw[1..][close.value + 1..]) ==>
              MatchSuffix(raw) == Some(Suffix([raw[0]] + later.before, later.inner))
  {
    hide IndexOf, AllSpace;
  }

  lemma NotTheSuffix(before: string, tail: string)
    requires before != "" && before[0] == '(' && ')' in before && tail != "" && tail[0] == '('
    ensures var rest := before[1..] + tail;
            var close := IndexOf(rest, ')');
            close.Some? && !AllSpace(rest[close.value + 1..])
  {
    var rest := before[1..] + tail;
    var k :| 0 <= k < |before| && before[k] == ')';
    assert rest[k - 1] == ')';
    var close := IndexOf(rest, ')').value;
    assert close <= k - 1;
    assert rest[close + 1..][|before| - 1 - (close + 1)] == '(';
  }
}
