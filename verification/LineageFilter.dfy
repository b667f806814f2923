/**
  Filtering of the workspace lineage graph (`filterWorkspaceLineage` in lineage.ts): filters by
  domain, layer and text, then a depth-bounded breadth-first search around a focus node.
 */
module LineageFilter {
  import opened Options
  import opened Text

  /** `rest` stands for all other fields, which only the text query sees. */
  datatype Node =
    | Pipeline(id: string, rest: string, domain: Option<string>)
    | ExternalJob(id: string, rest: string)
    | Asset(id: string, rest: string, layer: Option<string>, urn: string)

  datatype Link = Link(id: string, source: string, target: string)
  datatype ColumnLink = ColumnLink(id: string, sourceUrn: string, targetUrn: string)
  datatype Stats = Stats(pipelines: nat, externalJobs: nat, assets: nat, links: nat, sharedAssets: nat, columnLinks: nat)
  datatype Lineage = Lineage(nodes: seq<Node>, links: seq<Link>, columns: seq<ColumnLink>, stats: Stats)

  /** A missing query or focus is the empty string. */
  datatype Filter = Filter(query: string, domains: set<string>, layers: set<string>, focus: string, depth: int)

  /** The platform's lower-casing, and the JSON text of a node. */
  datatype Platform = Platform(lower: string -> string, json: Node -> string)

  predicate Includes(text: string, part: string) {
    exists i :: 0 <= i <= |text| - |part| && IncludesAt(text, part, i)
  }

  predicate IncludesAt(text: string, part: string, i: nat)
    requires i + |part| <= |text|
  {
    text[i..i + |part|] == part
  }

  function Query(f: Filter, pl: Platform): string {
    pl.lower(Trim(f.query))
  }

  /** Empty domain names are not filtered by. */
  function Domains(f: Filter): set<string> {
    f.domains - {""}
  }

  // ----- neighbourhoods -----

  predicate Adjacent(links: seq<Link>, x: string, y: string) {
    exists l :: l in links && Joins(l, x, y)
  }

  function Ids(nodes: seq<Node>): set<string> {
    set n | n in nodes :: n.id
  }

  /** The seeds and their neighbours inside `within`. */
  ghost function Incident(links: seq<Link>, seeds: set<string>, within: set<string>): set<string> {
    seeds + set y | y in within && exists x :: x in seeds && Adjacent(links, x, y)
  }

  /** The nodes at most `d` links away from the focus, along allowed nodes. */
  ghost function Ball(links: seq<Link>, allowed: set<string>, focus: string, d: nat): set<string> {
    if d == 0 then {focus} else Incident(links, Ball(links, allowed, focus, d - 1), allowed)
  }

  ghost predicate Walk(links: seq<Link>, allowed: set<string>, p: seq<string>) {
    && p != [] && (forall i :: 1 <= i < |p| ==> p[i] in allowed)
    && (forall i :: 1 <= i < |p| ==> Adjacent(links, p[i - 1], p[i]))
  }

  ghost predicate WithinDistance(links: seq<Link>, allowed: set<string>, x: string, y: string, d: nat) {
    exists p :: Walk(links, allowed, p) && p[0] == x && p[|p| - 1] == y && |p| <= d + 1
  }

  /** The ball is exactly the set of nodes within undirected distance `d`. */
  lemma {:induction false} BallIsDistance(links: seq<Link>, allowed: set<string>, focus: string, d: nat, y: string)
    ensures y in Ball(links, allowed, focus, d) <==> WithinDistance(links, allowed, focus, y, d)
  {
    hide Adjacent;
    if y in Ball(links, allowed, focus, d) {
      var p := WalkInBall(links, allowed, focus, d, y);
    }
    if WithinDistance(links, allowed, focus, y, d) {
      var p :| Walk(links, allowed, p) && p[0] == focus && p[|p| - 1] == y && |p| <= d + 1;
      WalkStaysInBall(links, allowed, focus, d, p);
    }
  }

  lemma {:induction false} WalkInBall(links: seq<Link>, allowed: set<string>, focus: string, d: nat, y: string)
      returns (p: seq<string>)
    requires y in Ball(links, allowed, focus, d)
    ensures Walk(links, allowed, p) && p[0] == focus && p[|p| - 1] == y && |p| <= d + 1
  {
    hide Adjacent;
    if d == 0 {
      p := [focus];
    } else if y in Ball(links, allowed, focus, d - 1) {
      p := WalkInBall(links, allowed, focus, d - 1, y);
    } else {
      var x :| x in Ball(links, allowed, focus, d - 1) && Adjacent(links, x, y);
      var q := WalkInBall(links, allowed, focus, d - 1, x);
      p := q + [y];
    }
  }

  lemma {:induction false} BallGrows(links: seq<Link>, allowed: set<string>, focus: string, d: nat, e: nat)
    requires d <= e
    ensures Ball(links, allowed, focus, d) <= Ball(links, allowed, focus, e)
    decreases e
  {
    if d < e {
      BallGrows(links, allowed, focus, d, e - 1);
    }
  }

  lemma {:induction false} WalkStaysInBall(links: seq<Link>, allowed: set<string>, focus: string, d: nat, p: seq<string>)
    requires Walk(links, allowed, p) && p[0] == focus && |p| <= d + 1
    ensures p[|p| - 1] in Ball(links, allowed, focus, d)
    decreases |p|
  {
    hide Adjacent;
    if |p| == 1 {
      BallGrows(links, allowed, focus, 0, d);
    } else {
      var q := p[..|p| - 1];
      assert Walk(links, allowed, q);
      WalkStaysInBall(links, allowed, focus, d - 1, q);
      assert Adjacent(links, p[|p| - 2], p[|p| - 1]);
    }
  }

  lemma {:induction false} BallInside(links: seq<Link>, allowed: set<string>, focus: string, d: nat)
    requires focus in allowed
    ensures Ball(links, allowed, focus, d) <= allowed && focus in Ball(links, allowed, focus, d)
  {
    if d > 0 {
      BallInside(links, allowed, focus, d - 1);
    }
  }

  function Near(neighbours: map<string, set<string>>, x: string): set<string> {
    if x in neighbours then neighbours[x] else {}
  }

  ghost predicate NearIsAdjacent(links: seq<Link>, neighbours: map<string, set<string>>) {
    forall x, y :: y in Near(neighbours, x) <==> Adjacent(links, x, y)
  }

  method Neighbours(links: seq<Link>) returns (neighbours: map<string, set<string>>)
    ensures NearIsAdjacent(links, neighbours)
  {
    neighbours := map[];
    for i := 0 to |links|
      invariant NearIsAdjacent(links[..i], neighbours)
    {
      var l := links[i];
      ghost var before := neighbours;
      if l.source !in neighbours {
        neighbours := neighbours[l.source := {}];
      }
      if l.target !in neighbours {
        neighbours := neighbours[l.target := {}];
      }
      neighbours := neighbours[l.source := neighbours[l.source] + {l.target}];
      neighbours := neighbours[l.target := neighbours[l.target] + {l.source}];
      NearNext(links, i, before, neighbours);
    }
    assert links[..|links|] == links;
  }

  predicate Joins(l: Link, x: string, y: string) {
    (l.source == x && l.target == y) || (l.source == y && l.target == x)
  }

  lemma NearNext(links: seq<Link>, i: nat, before: map<string, set<string>>, after: map<string, set<string>>)
    requires i < |links| && NearIsAdjacent(links[..i], before)
    requires forall x, y :: y in Near(after, x) <==> y in Near(before, x) || Joins(links[i], x, y)
    ensures NearIsAdjacent(links[..i + 1], after)
  {
    forall x, y ensures y in Near(after, x) <==> Adjacent(links[..i + 1], x, y) {
      assert links[..i + 1] == links[..i] + [links[i]];
      assert y in Near(before, x) <==> Adjacent(links[..i], x, y);
    }
  }

  /** `incident`: the two nested loops over seeds and their neighbours. */
  method CollectIncident(ghost links: seq<Link>, neighbours: map<string, set<string>>, seeds: set<string>, within: set<string>)
      returns (out: set<string>)
    requires NearIsAdjacent(links, neighbours)
    ensures out == Incident(links, seeds, within)
  {
    out := seeds;
    var left := seeds;
    while left != {}
      invariant left <= seeds
      invariant out == Incident(links, seeds - left, within) + seeds
    {
      var id :| id in left;
      left := left - {id};
      out := out + Near(neighbours, id) * within;
      assert seeds - left == (seeds - left - {id}) + {id};
    }
    assert seeds - left == seeds;
  }

  // ----- the focus search -----

  ghost function Waiting(queue: seq<(string, nat)>, from: nat): set<string> {
    set i | from <= i < |queue| :: queue[i].0
  }

  /**
    Breadth-first search at level `k`: the first `n` queued nodes are at distance `k`, the others
    one further; only they can still have neighbours that are not focused yet.
   */
  ghost predicate Searching(links: seq<Link>, allowed: set<string>, focus: string, depth: nat,
                            queue: seq<(string, nat)>, focused: set<string>, k: nat, n: nat)
  {
    && k <= depth && n <= |queue| && focus in allowed
    && (forall i :: 0 <= i < |queue| ==> queue[i].1 == if i < n then k else k + 1)
    && (n < |queue| ==> k < depth)
    && Waiting(queue, n) <= Ball(links, allowed, focus, k + 1)
    && focused == Ball(links, allowed, focus, k) + Waiting(queue, n)
    && (forall i :: 0 <= i < n ==> queue[i].0 in Ball(links, allowed, focus, k))
    && (k < depth ==> forall x, y ::
          x in Ball(links, allowed, focus, k) && y in allowed && y !in focused && Adjacent(links, x, y)
          ==> x in Waiting(queue[..n], 0))
  }

  lemma NextLevel(links: seq<Link>, allowed: set<string>, focus: string, depth: nat,
                  queue: seq<(string, nat)>, focused: set<string>, k: nat)
    requires k < depth && Searching(links, allowed, focus, depth, queue, focused, k, 0)
    ensures Searching(links, allowed, focus, depth, queue, focused, k + 1, |queue|)
  {
    hide Adjacent;
    var ball, next := Ball(links, allowed, focus, k), Ball(links, allowed, focus, k + 1);
    assert queue[..0] == [] && queue[..|queue|] == queue;
    BallGrows(links, allowed, focus, k, k + 1);
    assert focused == next by {
      forall y | y in next ensures y in focused {
        if y !in ball {
          var x :| x in ball && Adjacent(links, x, y);
        }
      }
    }
    assert Waiting(queue, |queue|) == {};
  }

  lemma {:induction false} SearchDone(links: seq<Link>, allowed: set<string>, focus: string, depth: nat,
                                      focused: set<string>, k: nat)
    requires Searching(links, allowed, focus, depth, [], focused, k, 0)
    ensures focused == Ball(links, allowed, focus, depth)
    decreases depth - k
  {
    if k < depth {
      NextLevel(links, allowed, focus, depth, [], focused, k);
      SearchDone(links, allowed, focus, depth, focused, k + 1);
    } else {
      assert Waiting([], 0) == {};
    }
  }

  /** Dequeuing a node at the current level and queueing its unseen neighbours. */
  lemma Dequeue(links: seq<Link>, allowed: set<string>, focus: string, depth: nat,
                queue: seq<(string, nat)>, focused: set<string>, k: nat, n: nat, added: seq<(string, nat)>, grown: set<string>)
    requires n > 0 && Searching(links, allowed, focus, depth, queue, focused, k, n)
    requires k >= depth ==> added == [] && grown == focused
    requires k < depth ==> grown == focused + Waiting(added, 0)
    requires k < depth ==> forall y :: y in Waiting(added, 0) <==> y in allowed && y !in focused && Adjacent(links, queue[0].0, y)
    requires forall i :: 0 <= i < |added| ==> added[i].1 == k + 1
    ensures Searching(links, allowed, focus, depth, queue[1..] + added, grown, k, n - 1)
  {
    hide Adjacent;
    var rest := queue[1..] + added;
    var head := queue[0].0;
    assert Waiting(rest, n - 1) == Waiting(queue, n) + Waiting(added, 0) by {
      WaitingTail(queue, n, added);
    }
    if k < depth {
      forall x, y | x in Ball(links, allowed, focus, k) && y in allowed && y !in grown && Adjacent(links, x, y)
        ensures x in Waiting(rest[..n - 1], 0)
      {
        assert x in Waiting(queue[..n], 0);
        var i :| 0 <= i < n && queue[..n][i].0 == x;
        assert i > 0;
        assert rest[..n - 1][i - 1].0 == x;
      }
    }
  }

  lemma WaitingTail(queue: seq<(string, nat)>, n: nat, added: seq<(string, nat)>)
    requires 0 < n <= |queue|
    ensures Waiting(queue[1..] + added, n - 1) == Waiting(queue, n) + Waiting(added, 0)
  {
    var rest := queue[1..] + added;
    forall x | x in Waiting(queue, n) ensures x in Waiting(rest, n - 1) {
      var i :| n <= i < |queue| && queue[i].0 == x;
      assert rest[i - 1].0 == x;
    }
    forall x | x in Waiting(added, 0) ensures x in Waiting(rest, n - 1) {
      var i :| 0 <= i < |added| && added[i].0 == x;
      assert rest[|queue| - 1 + i].0 == x;
    }
  }

  /** The loop over the neighbours of one dequeued node. */
  method Expand(near: set<string>, allowed: set<string>, focused0: set<string>, distance: nat)
      returns (added: seq<(string, nat)>, focused: set<string>)
    ensures focused == focused0 + Waiting(added, 0)
    ensures forall y :: y in Waiting(added, 0) <==> y in near && y in allowed && y !in focused0
    ensures forall i :: 0 <= i < |added| ==> added[i].1 == distance + 1
  {
    added, focused := [], focused0;
    var left := near;
    while left != {}
      invariant left <= near && focused == focused0 + Waiting(added, 0)
      invariant forall y :: y in Waiting(added, 0) <==> y in near - left && y in allowed && y !in focused0
      invariant forall i :: 0 <= i < |added| ==> added[i].1 == distance + 1
    {
      var y :| y in left;
      left := left - {y};
      if y in allowed && y !in focused {
        WaitingAppend(added, (y, distance + 1));
        focused := focused + {y};
        added := added + [(y, distance + 1)];
      }
    }
  }

  lemma WaitingAppend(queue: seq<(string, nat)>, item: (string, nat))
    ensures Waiting(queue + [item], 0) == Waiting(queue, 0) + {item.0}
  {
    var all := queue + [item];
    assert all[|queue|].0 == item.0;
    forall x | x in Waiting(queue, 0) ensures x in Waiting(all, 0) {
      var i :| 0 <= i < |queue| && queue[i].0 == x;
      assert all[i].0 == x;
    }
  }

  method FocusSearch(ghost links: seq<Link>, neighbours: map<string, set<string>>, allowed: set<string>, focus: string, depth: nat)
      returns (focused: set<string>)
    requires NearIsAdjacent(links, neighbours) && focus in allowed
    ensures focused == Ball(links, allowed, focus, depth)
  {
    hide Searching, Ball, Adjacent;
    focused := {focus};
    var queue: seq<(string, nat)> := [(focus, 0)];
    ghost var k: nat, n: nat := 0, 1;
    StartSearch(links, allowed, focus, depth);
    while |queue| > 0
      invariant Searching(links, allowed, focus, depth, queue, focused, k, n)
      decreases allowed - focused, |queue|
    {
      HeadLevel(links, allowed, focus, depth, queue, focused, k, n);
      if n == 0 {
        NextLevel(links, allowed, focus, depth, queue, focused, k);
        k, n := k + 1, |queue|;
        HeadLevel(links, allowed, focus, depth, queue, focused, k, n);
      }
      var (id, distance) := queue[0];
      ghost var seen := focused;
      var added: seq<(string, nat)> := [];
      if distance < depth {
        added, focused := Expand(Near(neighbours, id), allowed, focused, distance);
      }
      Dequeue(links, allowed, focus, depth, queue, seen, k, n, added, focused);
      if added != [] {
        assert added[0].0 in Waiting(added, 0);
      }
      queue := queue[1..] + added;
      n := n - 1;
    }
    HeadLevel(links, allowed, focus, depth, queue, focused, k, n);
    SearchDone(links, allowed, focus, depth, focused, k);
  }

  lemma HeadLevel(links: seq<Link>, allowed: set<string>, focus: string, depth: nat,
                  queue: seq<(string, nat)>, focused: set<string>, k: nat, n: nat)
    requires Searching(links, allowed, focus, depth, queue, focused, k, n)
    ensures n <= |queue| && k <= depth && (n > 0 ==> queue[0].1 == k) && (n == 0 && queue != [] ==> k < depth)
  {
  }

  lemma StartSearch(links: seq<Link>, allowed: set<string>, focus: string, depth: nat)
    requires focus in allowed
    ensures Searching(links, allowed, focus, depth, [(focus, 0)], {focus}, 0, 1)
  {
    var queue: seq<(string, nat)> := [(focus, 0)];
    assert queue[..1] == queue;
    assert queue[0].0 in Waiting(queue, 0);
    assert Waiting(queue, 1) == {};
  }

  // ----- the filter -----

  function Select<T(!new)>(s: seq<T>, keep: T -> bool): (r: seq<T>)
    ensures forall x :: x in r <==> x in s && keep(x)
  {
    if s == [] then []
    else
      var n := |s| - 1;
      assert s == s[..n] + [s[n]];
      Select(s[..n], keep) + (if keep(s[n]) then [s[n]] else [])
  }

  lemma {:induction false} SelectAll<T(!new)>(s: seq<T>, keep: T -> bool)
    requires forall x :: x in s ==> keep(x)
    ensures Select(s, keep) == s
  {
    if s != [] {
      var n := |s| - 1;
      assert s == s[..n] + [s[n]];
      SelectAll(s[..n], keep);
    }
  }

  predicate IsAssetId(id: string) {
    |id| >= 6 && id[..6] == "asset:"
  }

  function AssetEnd(l: Link): string {
    if IsAssetId(l.source) then l.source else if IsAssetId(l.target) then l.target else ""
  }

  function OtherEnd(l: Link): string {
    if l.source == AssetEnd(l) then l.target else l.source
  }

  function Consumers(links: seq<Link>, asset: string): set<string> {
    set l | l in links && AssetEnd(l) == asset && OtherEnd(l) != "" :: OtherEnd(l)
  }

  /** Asset ends of links with a second consumer somewhere among the links. */
  function Shared(links: seq<Link>): set<string> {
    set l | l in links && AssetEnd(l) != "" && |Consumers(links, AssetEnd(l))| > 1 :: AssetEnd(l)
  }

  function Urns(nodes: seq<Node>): set<string> {
    set n | n in nodes && n.Asset? :: n.urn
  }

  function StatsOf(nodes: seq<Node>, links: seq<Link>, columns: seq<ColumnLink>): Stats {
    Stats(|Select(nodes, (n: Node) => n.Pipeline?)|, |Select(nodes, (n: Node) => n.ExternalJob?)|,
          |Urns(nodes)|, |links|, |Shared(links)|, |columns|)
  }

  /** The part of the graph on the allowed nodes, with counts of what is left. */
  function Restrict(g: Lineage, allowed: set<string>): Lineage {
    var nodes := Select(g.nodes, (n: Node) => n.id in allowed);
    var links := Select(g.links, (l: Link) => l.source in allowed && l.target in allowed);
    var columns := Select(g.columns, (c: ColumnLink) => c.sourceUrn in Urns(nodes) && c.targetUrn in Urns(nodes));
    Lineage(nodes, links, columns, StatsOf(nodes, links, columns))
  }

  predicate Inactive(f: Filter, pl: Platform) {
    Query(f, pl) == "" && Domains(f) == {} && f.layers == {} && f.focus == ""
  }

  function OrElse(x: Option<string>, fallback: string): string {
    if x.Some? then x.value else fallback
  }

  function DomainSeeds(nodes: seq<Node>, domains: set<string>): set<string> {
    set n | n in nodes && n.Pipeline? && OrElse(n.domain, "Unassigned") in domains :: n.id
  }

  function LayerSeeds(nodes: seq<Node>, layers: set<string>, allowed: set<string>): set<string> {
    set n | n in nodes && n.id in allowed && n.Asset? && OrElse(n.layer, "external") in layers :: n.id
  }

  function QuerySeeds(nodes: seq<Node>, query: string, pl: Platform, allowed: set<string>): set<string> {
    set n | n in nodes && n.id in allowed && Includes(pl.lower(pl.json(n)), query) :: n.id
  }

  ghost function AllowedByDomain(g: Lineage, f: Filter): set<string> {
    if Domains(f) == {} then Ids(g.nodes) else Incident(g.links, DomainSeeds(g.nodes, Domains(f)), Ids(g.nodes))
  }

  ghost function AllowedByLayer(g: Lineage, f: Filter): set<string> {
    var allowed := AllowedByDomain(g, f);
    if f.layers == {} then allowed else Incident(g.links, LayerSeeds(g.nodes, f.layers, allowed), allowed)
  }

  ghost function AllowedByQuery(g: Lineage, f: Filter, pl: Platform): set<string> {
    var allowed := AllowedByLayer(g, f);
    if Query(f, pl) == "" then allowed else Incident(g.links, QuerySeeds(g.nodes, Query(f, pl), pl, allowed), allowed)
  }

  function Depth(f: Filter): nat {
    if f.depth < 0 then 0 else f.depth
  }

  ghost function Allowed(g: Lineage, f: Filter, pl: Platform): set<string> {
    var allowed := AllowedByQuery(g, f, pl);
    if f.focus != "" && f.focus in allowed then Ball(g.links, allowed, f.focus, Depth(f)) else allowed
  }

  ghost function Filtered(g: Lineage, f: Filter, pl: Platform): Lineage {
    if Inactive(f, pl) then g else Restrict(g, Allowed(g, f, pl))
  }

  method FilterWorkspaceLineage(g: Lineage, f: Filter, pl: Platform) returns (r: Lineage)
    ensures r == Filtered(g, f, pl)
  {
    hide Incident, Ball, Restrict, NearIsAdjacent, DomainSeeds, LayerSeeds, QuerySeeds, Query, Domains, Ids;
    if Inactive(f, pl) {
      return g;
    }
    var allowed := Ids(g.nodes);
    var neighbours := Neighbours(g.links);
    if Domains(f) != {} {
      allowed := CollectIncident(g.links, neighbours, DomainSeeds(g.nodes, Domains(f)), allowed);
    }
    if f.layers != {} {
      allowed := CollectIncident(g.links, neighbours, LayerSeeds(g.nodes, f.layers, allowed), allowed);
    }
    if Query(f, pl) != "" {
      allowed := CollectIncident(g.links, neighbours, QuerySeeds(g.nodes, Query(f, pl), pl, allowed), allowed);
    }
    if f.focus != "" && f.focus in allowed {
      allowed := FocusSearch(g.links, neighbours, allowed, f.focus, Depth(f));
    }
    r := RestrictTo(g, allowed);
  }

  /** The closing part: the induced graph and the loop that counts consumers of each asset. */
  method RestrictTo(g: Lineage, allowed: set<string>) returns (r: Lineage)
    ensures r == Restrict(g, allowed)
  {
    var nodes := Select(g.nodes, (n: Node) => n.id in allowed);
    var links := Select(g.links, (l: Link) => l.source in allowed && l.target in allowed);
    var urns := Urns(nodes);
    var columns := Select(g.columns, (c: ColumnLink) => c.sourceUrn in urns && c.targetUrn in urns);
    SelectSame(g.columns, (c: ColumnLink) => c.sourceUrn in urns && c.targetUrn in urns,
               (c: ColumnLink) => c.sourceUrn in Urns(nodes) && c.targetUrn in Urns(nodes));
    var uses := Uses(links);
    var shared := set a | a in uses && |uses[a]| > 1;
    assert shared == Shared(links);
    return Lineage(nodes, links, columns,
      Stats(|Select(nodes, (n: Node) => n.Pipeline?)|, |Select(nodes, (n: Node) => n.ExternalJob?)|,
            |urns|, |links|, |shared|, |columns|));
  }

  lemma {:induction false} SelectSame<T(!new)>(s: seq<T>, p: T -> bool, q: T -> bool)
    requires forall x :: x in s ==> p(x) == q(x)
    ensures Select(s, p) == Select(s, q)
  {
    if s != [] {
      var n := |s| - 1;
      assert s == s[..n] + [s[n]];
      SelectSame(s[..n], p, q);
    }
  }

  method Uses(links: seq<Link>) returns (uses: map<string, set<string>>)
    ensures forall a :: a in uses <==> a != "" && Consumers(links, a) != {}
    ensures forall a :: a in uses ==> uses[a] == Consumers(links, a)
  {
    hide AssetEnd, OtherEnd;
    uses := map[];
    for i := 0 to |links|
      invariant forall a :: a in uses <==> a != "" && Consumers(links[..i], a) != {}
      invariant forall a :: a in uses ==> uses[a] == Consumers(links[..i], a)
    {
      var l := links[i];
      var asset, consumer := AssetEnd(l), OtherEnd(l);
      forall a ensures Consumers(links[..i + 1], a) ==
        Consumers(links[..i], a) + (if AssetEnd(l) == a && OtherEnd(l) != "" then {OtherEnd(l)} else {})
      {
        ConsumersNext(links, i, a);
      }
      if asset != "" && consumer != "" {
        if asset !in uses {
          uses := uses[asset := {}];
        }
        uses := uses[asset := uses[asset] + {consumer}];
      }
    }
    assert links[..|links|] == links;
  }

  lemma ConsumersNext(links: seq<Link>, i: nat, a: string)
    requires i < |links|
    ensures Consumers(links[..i + 1], a) ==
      Consumers(links[..i], a) + (if AssetEnd(links[i]) == a && OtherEnd(links[i]) != "" then {OtherEnd(links[i])} else {})
  {
    hide AssetEnd, OtherEnd;
    assert links[..i + 1] == links[..i] + [links[i]];
  }

  // ----- what filtering guarantees -----

  ghost predicate ClosedLineage(g: Lineage) {
    && (forall l :: l in g.links ==> l.source in Ids(g.nodes) && l.target in Ids(g.nodes))
    && (forall c :: c in g.columns ==> c.sourceUrn in Urns(g.nodes) && c.targetUrn in Urns(g.nodes))
    && g.stats == StatsOf(g.nodes, g.links, g.columns)
  }

  lemma SeedsInside(nodes: seq<Node>, f: Filter, pl: Platform, allowed: set<string>)
    ensures DomainSeeds(nodes, Domains(f)) <= Ids(nodes)
    ensures LayerSeeds(nodes, f.layers, allowed) <= allowed && QuerySeeds(nodes, Query(f, pl), pl, allowed) <= allowed
  {
  }

  lemma AllowedAreNodes(g: Lineage, f: Filter, pl: Platform)
    ensures AllowedByQuery(g, f, pl) <= Ids(g.nodes) && Allowed(g, f, pl) <= AllowedByQuery(g, f, pl)
  {
    SeedsInside(g.nodes, f, pl, AllowedByDomain(g, f));
    SeedsInside(g.nodes, f, pl, AllowedByLayer(g, f));
    hide Adjacent, DomainSeeds, LayerSeeds, QuerySeeds, Query, Domains, Ids;
    var allowed := AllowedByQuery(g, f, pl);
    if f.focus != "" && f.focus in allowed {
      BallInside(g.links, allowed, f.focus, Depth(f));
    }
  }

  /** Any active filter returns the closed subgraph that the allowed nodes span, with its own counts. */
  lemma FilteredIsClosed(g: Lineage, f: Filter, pl: Platform)
    requires !Inactive(f, pl)
    ensures ClosedLineage(Filtered(g, f, pl))
    ensures Ids(Filtered(g, f, pl).nodes) == Allowed(g, f, pl)
    ensures forall n :: n in Filtered(g, f, pl).nodes <==> n in g.nodes && n.id in Allowed(g, f, pl)
    ensures forall l :: l in Filtered(g, f, pl).links <==> l in g.links && l.source in Allowed(g, f, pl) && l.target in Allowed(g, f, pl)
  {
    AllowedAreNodes(g, f, pl);
    hide Allowed, AllowedByQuery, Select, StatsOf;
    var r, allowed := Filtered(g, f, pl), Allowed(g, f, pl);
    forall x | x in allowed ensures x in Ids(r.nodes) {
      var n :| n in g.nodes && n.id == x;
      assert n in r.nodes;
    }
  }

  // ----- which nodes stay -----

  ghost predicate Linked(links: seq<Link>, a: string, b: string) {
    exists l :: l in links && ((l.source == a && l.target == b) || (l.source == b && l.target == a))
  }

  /** The same node, or one joined to it by a link. */
  ghost predicate Beside(links: seq<Link>, a: string, b: string) {
    a == b || Linked(links, a, b)
  }

  /** The text of the node contains the query. */
  ghost predicate Matches(f: Filter, pl: Platform, n: Node) {
    exists a, b :: pl.lower(pl.json(n)) == a + pl.lower(Trim(f.query)) + b
  }

  /** A pipeline without a domain counts as unassigned; no domain has an empty name. */
  ghost predicate InDomain(n: Node, domains: set<string>) {
    n.Pipeline? &&
    match n.domain
    case Some(d) => d != "" && d in domains
    case None => "Unassigned" in domains
  }

  /** An asset without a layer counts as external. */
  ghost predicate InLayer(n: Node, layers: set<string>) {
    n.Asset? &&
    match n.layer
    case Some(l) => l in layers
    case None => "external" in layers
  }

  /** A pipeline of one of the domains, if domains are chosen, or a node beside one. */
  ghost predicate DomainKeeps(g: Lineage, f: Filter, x: string) {
    (forall d :: d in f.domains ==> d == "") ||
    exists p :: p in g.nodes && InDomain(p, f.domains) && Beside(g.links, p.id, x)
  }

  /** Among those, an asset of one of the layers, if layers are chosen, or a node beside one. */
  ghost predicate LayerKeeps(g: Lineage, f: Filter, x: string) {
    DomainKeeps(g, f, x) &&
    (f.layers == {} ||
     exists a :: a in g.nodes && InLayer(a, f.layers) && DomainKeeps(g, f, a.id) && Beside(g.links, a.id, x))
  }

  /** Among those, a node whose text has the query, if there is one, or a node beside such a node. */
  ghost predicate QueryKeeps(g: Lineage, f: Filter, pl: Platform, x: string) {
    LayerKeeps(g, f, x) &&
    (pl.lower(Trim(f.query)) == "" ||
     exists n :: n in g.nodes && Matches(f, pl, n) && LayerKeeps(g, f, n.id) && Beside(g.links, n.id, x))
  }

  ghost predicate FocusApplies(g: Lineage, f: Filter, pl: Platform) {
    f.focus != "" && f.focus in Ids(g.nodes) && QueryKeeps(g, f, pl, f.focus)
  }

  /** A walk of at most `depth` links from the focus through nodes that the other filters keep. */
  ghost predicate FocusKeeps(g: Lineage, f: Filter, pl: Platform, x: string) {
    exists p :: ShortWalk(g, f, pl, x, p)
  }

  ghost predicate ShortWalk(g: Lineage, f: Filter, pl: Platform, x: string, p: seq<string>) {
    && p != [] && p[0] == f.focus && p[|p| - 1] == x && |p| - 1 <= (if f.depth < 0 then 0 else f.depth)
    && (forall i :: 1 <= i < |p| ==> p[i] in Ids(g.nodes) && QueryKeeps(g, f, pl, p[i]))
    && (forall i :: 1 <= i < |p| ==> Linked(g.links, p[i - 1], p[i]))
  }

  lemma IncludesIs(text: string, part: string)
    ensures Includes(text, part) <==> exists a, b :: text == a + part + b
  {
    if Includes(text, part) {
      var i :| 0 <= i <= |text| - |part| && IncludesAt(text, part, i);
      assert text == text[..i] + part + text[i + |part|..];
    }
    if a, b :| text == a + part + b {
      assert IncludesAt(text, part, |a|);
    }
  }

  lemma LinkedIs(links: seq<Link>, a: string, b: string)
    ensures Linked(links, a, b) <==> Adjacent(links, a, b)
  {
    if l :| l in links && ((l.source == a && l.target == b) || (l.source == b && l.target == a)) {
      assert Joins(l, a, b);
    }
  }

  lemma BesideIs(links: seq<Link>, a: string, b: string)
    ensures Beside(links, a, b) <==> a == b || Adjacent(links, a, b)
  {
    LinkedIs(links, a, b);
  }

  lemma IncidentIs(links: seq<Link>, seeds: set<string>, within: set<string>, x: string)
    requires seeds <= within
    ensures x in Incident(links, seeds, within) <==> x in within && exists s :: s in seeds && Beside(links, s, x)
  {
    hide Beside, Adjacent;
    if s :| s in seeds && Beside(links, s, x) {
      BesideIs(links, s, x);
    }
    if x in seeds {
      BesideIs(links, x, x);
    } else if s :| s in seeds && Adjacent(links, s, x) {
      BesideIs(links, s, x);
    }
  }

  lemma DomainIs(g: Lineage, f: Filter, x: string)
    ensures x in AllowedByDomain(g, f) <==> x in Ids(g.nodes) && DomainKeeps(g, f, x)
  {
    hide Incident, Beside;
    var seeds := DomainSeeds(g.nodes, Domains(f));
    assert Domains(f) == {} <==> forall d :: d in f.domains ==> d == "" by { NoDomains(f); }
    IncidentIs(g.links, seeds, Ids(g.nodes), x);
    if p :| p in g.nodes && InDomain(p, f.domains) && Beside(g.links, p.id, x) {
      assert p.id in seeds;
    }
  }

  lemma NoDomains(f: Filter)
    ensures Domains(f) == {} <==> forall d :: d in f.domains ==> d == ""
  {
    if Domains(f) == {} {
      forall d | d in f.domains ensures d == "" {
        assert d !in Domains(f);
      }
    }
  }

  lemma LayerIs(g: Lineage, f: Filter, x: string)
    ensures x in AllowedByLayer(g, f) <==> x in Ids(g.nodes) && LayerKeeps(g, f, x)
  {
    hide Incident, Beside, AllowedByDomain, DomainKeeps;
    var before := AllowedByDomain(g, f);
    var seeds := LayerSeeds(g.nodes, f.layers, before);
    DomainIs(g, f, x);
    IncidentIs(g.links, seeds, before, x);
    if a :| a in g.nodes && InLayer(a, f.layers) && DomainKeeps(g, f, a.id) && Beside(g.links, a.id, x) {
      DomainIs(g, f, a.id);
      assert a.id in seeds;
    }
    if s :| s in seeds && Beside(g.links, s, x) {
      DomainIs(g, f, s);
    }
  }

  lemma QuerySeedIs(g: Lineage, f: Filter, pl: Platform, before: set<string>, x: string)
    ensures x in QuerySeeds(g.nodes, Query(f, pl), pl, before) <==> x in before && exists n :: n in g.nodes && n.id == x && Matches(f, pl, n)
  {
    hide Trim;
    forall n ensures Includes(pl.lower(pl.json(n)), Query(f, pl)) <==> Matches(f, pl, n) {
      IncludesIs(pl.lower(pl.json(n)), Query(f, pl));
    }
    hide Includes, Matches;
  }

  lemma QueryIs(g: Lineage, f: Filter, pl: Platform, x: string)
    ensures x in AllowedByQuery(g, f, pl) <==> x in Ids(g.nodes) && QueryKeeps(g, f, pl, x)
  {
    hide Incident, Beside, AllowedByLayer, LayerKeeps, Matches, QuerySeeds, Trim;
    var before := AllowedByLayer(g, f);
    var seeds := QuerySeeds(g.nodes, Query(f, pl), pl, before);
    LayerIs(g, f, x);
    if Query(f, pl) != "" {
      QueryStepIs(g, f, pl, before, seeds, x);
    }
  }

  /** The same for the set the query starts from. */
  lemma QueryStepIs(g: Lineage, f: Filter, pl: Platform, before: set<string>, seeds: set<string>, x: string)
    requires before == AllowedByLayer(g, f) && seeds == QuerySeeds(g.nodes, Query(f, pl), pl, before)
    ensures x in Incident(g.links, seeds, before) <==>
      x in before && exists n :: n in g.nodes && Matches(f, pl, n) && LayerKeeps(g, f, n.id) && Beside(g.links, n.id, x)
  {
    hide Incident, Beside, AllowedByLayer, LayerKeeps, Matches, Trim, Includes;
    assert seeds <= before;
    hide QuerySeeds;
    IncidentIs(g.links, seeds, before, x);
    if s :| s in seeds && Beside(g.links, s, x) {
      QuerySeedIs(g, f, pl, before, s);
      LayerIs(g, f, s);
    }
    if n :| n in g.nodes && Matches(f, pl, n) && LayerKeeps(g, f, n.id) && Beside(g.links, n.id, x) {
      LayerIs(g, f, n.id);
      assert n.id in Ids(g.nodes);
      QuerySeedIs(g, f, pl, before, n.id);
    }
  }

  lemma FocusIs(g: Lineage, f: Filter, pl: Platform, x: string)
    requires f.focus in AllowedByQuery(g, f, pl)
    ensures x in Ball(g.links, AllowedByQuery(g, f, pl), f.focus, Depth(f)) <==> FocusKeeps(g, f, pl, x)
  {
    hide AllowedByQuery, QueryKeeps, Adjacent, Ids;
    var allowed := AllowedByQuery(g, f, pl);
    BallIsDistance(g.links, allowed, f.focus, Depth(f), x);
    forall y ensures y in allowed <==> y in Ids(g.nodes) && QueryKeeps(g, f, pl, y) {
      QueryIs(g, f, pl, y);
    }
    forall a, b ensures Linked(g.links, a, b) <==> Adjacent(g.links, a, b) {
      LinkedIs(g.links, a, b);
    }
    hide Ball, Linked;
    if WithinDistance(g.links, allowed, f.focus, x, Depth(f)) {
      var p :| Walk(g.links, allowed, p) && p[0] == f.focus && p[|p| - 1] == x && |p| <= Depth(f) + 1;
      assert ShortWalk(g, f, pl, x, p);
    }
    if p :| ShortWalk(g, f, pl, x, p) {
      assert Walk(g.links, allowed, p);
    }
  }

  /**
    What the filters keep, one after the other: nodes of the chosen domains, then of the chosen
    layers, then with the query in their text, each with the nodes beside them; around a focus that
    is still there, what can be reached from it in at most `depth` links.
   */
  lemma KeptExactly(g: Lineage, f: Filter, pl: Platform, n: Node)
    ensures n in Filtered(g, f, pl).nodes <==>
      && n in g.nodes && QueryKeeps(g, f, pl, n.id)
      && (FocusApplies(g, f, pl) ==> FocusKeeps(g, f, pl, n.id))
  {
    hide Trim;
    QueryIs(g, f, pl, n.id);
    QueryIs(g, f, pl, f.focus);
    if Inactive(f, pl) {
      NoDomains(f);
    } else {
      FilteredIsClosed(g, f, pl);
      hide Filtered, QueryKeeps, FocusKeeps, AllowedByQuery, Ball;
      if f.focus != "" && f.focus in AllowedByQuery(g, f, pl) {
        FocusIs(g, f, pl, n.id);
        AllowedAreNodes(g, f, pl);
      }
    }
  }

  /** With domains alone: the pipelines of a chosen domain and the nodes beside them stay. */
  lemma DomainsAlone(g: Lineage, f: Filter, pl: Platform, n: Node)
    requires f.focus == "" && f.layers == {} && pl.lower(Trim(f.query)) == "" && exists d :: d in f.domains && d != ""
    ensures n in Filtered(g, f, pl).nodes <==>
      n in g.nodes && exists p :: p in g.nodes && InDomain(p, f.domains) && Beside(g.links, p.id, n.id)
  {
    hide Filtered, Beside, Trim, Includes;
    KeptExactly(g, f, pl, n);
  }

  /** With layers alone: the assets of a chosen layer and the nodes beside them stay. */
  lemma LayersAlone(g: Lineage, f: Filter, pl: Platform, n: Node)
    requires f.focus == "" && f.domains == {} && pl.lower(Trim(f.query)) == "" && f.layers != {}
    ensures n in Filtered(g, f, pl).nodes <==>
      n in g.nodes && exists a :: a in g.nodes && InLayer(a, f.layers) && Beside(g.links, a.id, n.id)
  {
    hide Filtered, Beside, Trim, Includes;
    KeptExactly(g, f, pl, n);
  }

  /** With a query alone: the nodes whose text has it and the nodes beside them stay. */
  lemma QueryAlone(g: Lineage, f: Filter, pl: Platform, n: Node)
    requires f.focus == "" && f.domains == {} && f.layers == {} && pl.lower(Trim(f.query)) != ""
    ensures n in Filtered(g, f, pl).nodes <==>
      n in g.nodes && exists m :: m in g.nodes && Matches(f, pl, m) && Beside(g.links, m.id, n.id)
  {
    hide Filtered, Beside, Matches, Trim;
    KeptExactly(g, f, pl, n);
  }

  // ----- what the counts count -----

  ghost predicate AssetName(id: string) {
    exists rest :: id == "asset:" + rest
  }

  /** A link between an asset and its consumer; of two assets the source is the one used. */
  ghost predicate UsesIn(l: Link, asset: string, consumer: string) {
    if AssetName(l.source) then l.source == asset && l.target == consumer
    else AssetName(l.target) && l.target == asset && l.source == consumer
  }

  ghost predicate UsedBy(links: seq<Link>, asset: string, consumer: string) {
    consumer != "" && exists l :: l in links && UsesIn(l, asset, consumer)
  }

  ghost predicate HasTwoConsumers(links: seq<Link>, asset: string) {
    exists c, d :: c != d && UsedBy(links, asset, c) && UsedBy(links, asset, d)
  }

  ghost predicate NoRepeats(s: seq<string>) {
    forall i, j :: 0 <= i < j < |s| ==> s[i] != s[j]
  }

  lemma {:induction false} ListOf(s: set<string>) returns (list: seq<string>)
    ensures NoRepeats(list) && |list| == |s| && forall x :: x in list <==> x in s
  {
    if s == {} {
      list := [];
    } else {
      var x :| x in s;
      var rest := ListOf(s - {x});
      list := rest + [x];
    }
  }

  function Positions(nodes: seq<Node>, keep: Node -> bool): set<nat> {
    set i | 0 <= i < |nodes| && keep(nodes[i])
  }

  lemma {:induction false} SelectCounts(nodes: seq<Node>, keep: Node -> bool)
    ensures |Positions(nodes, keep)| == |Select(nodes, keep)|
  {
    if nodes != [] {
      var n := |nodes| - 1;
      SelectCounts(nodes[..n], keep);
      SelectLast(nodes, keep);
      hide Select;
      LastPosition(nodes, keep);
      var before := Positions(nodes[..n], keep);
      hide Positions;
      assert n !in before;
    }
  }

  lemma LastPosition(nodes: seq<Node>, keep: Node -> bool)
    requires nodes != []
    ensures var n := |nodes| - 1;
            && n !in Positions(nodes[..n], keep)
            && Positions(nodes, keep) == Positions(nodes[..n], keep) + if keep(nodes[n]) then {n} else {}
  {
  }

  lemma SelectLast(nodes: seq<Node>, keep: Node -> bool)
    requires nodes != []
    ensures var n := |nodes| - 1; |Select(nodes, keep)| == |Select(nodes[..n], keep)| + if keep(nodes[n]) then 1 else 0
  {
  }

  lemma UsesInIs(l: Link, asset: string, consumer: string)
    requires asset != ""
    ensures UsesIn(l, asset, consumer) <==> AssetEnd(l) == asset && OtherEnd(l) == consumer
  {
    AssetNameIs(l.source);
    AssetNameIs(l.target);
  }

  lemma AssetNameIs(id: string)
    ensures AssetName(id) <==> IsAssetId(id)
  {
    if IsAssetId(id) {
      assert id == "asset:" + id[6..];
    }
  }

  lemma ConsumersAre(links: seq<Link>, asset: string, consumer: string)
    requires asset != ""
    ensures consumer in Consumers(links, asset) <==> UsedBy(links, asset, consumer)
  {
    forall l ensures UsesIn(l, asset, consumer) <==> AssetEnd(l) == asset && OtherEnd(l) == consumer {
      UsesInIs(l, asset, consumer);
    }
    hide UsesIn, AssetEnd, OtherEnd;
  }

  lemma TwoInSet(s: set<string>)
    ensures |s| > 1 <==> exists c, d :: c != d && c in s && d in s
  {
    if |s| > 1 {
      var c :| c in s;
      var rest := s - {c};
      assert |rest| == |s| - 1;
      var d :| d in rest;
    }
    if c, d :| c != d && c in s && d in s {
      assert |s - {c} - {d}| == |s| - 2;
    }
  }

  lemma SharedIs(links: seq<Link>, asset: string)
    ensures asset in Shared(links) <==> asset != "" && HasTwoConsumers(links, asset)
  {
    if asset != "" {
      forall c ensures c in Consumers(links, asset) <==> UsedBy(links, asset, c) {
        ConsumersAre(links, asset, c);
      }
      TwoInSet(Consumers(links, asset));
      if HasTwoConsumers(links, asset) {
        var c, d :| c != d && UsedBy(links, asset, c) && UsedBy(links, asset, d);
        assert c in Consumers(links, asset);
        hide AssetEnd, OtherEnd;
      }
    }
  }

  /** Pipelines and external jobs by position, assets by location, shared assets by id. */
  lemma StatsCount(nodes: seq<Node>, links: seq<Link>, columns: seq<ColumnLink>)
      returns (pipelines: set<nat>, jobs: set<nat>, urns: seq<string>, shared: seq<string>)
    ensures var stats := StatsOf(nodes, links, columns);
            && stats.pipelines == |pipelines| && stats.externalJobs == |jobs| && stats.assets == |urns|
            && stats.links == |links| && stats.sharedAssets == |shared| && stats.columnLinks == |columns|
    ensures forall i: nat :: i in pipelines <==> i < |nodes| && nodes[i].Pipeline?
    ensures forall i: nat :: i in jobs <==> i < |nodes| && nodes[i].ExternalJob?
    ensures NoRepeats(urns) && forall u :: u in urns <==> exists n :: n in nodes && n.Asset? && n.urn == u
    ensures NoRepeats(shared) && forall a :: a in shared <==> a != "" && HasTwoConsumers(links, a)
  {
    pipelines := Positions(nodes, (n: Node) => n.Pipeline?);
    jobs := Positions(nodes, (n: Node) => n.ExternalJob?);
    SelectCounts(nodes, (n: Node) => n.Pipeline?);
    SelectCounts(nodes, (n: Node) => n.ExternalJob?);
    urns := ListOf(Urns(nodes));
    shared := ListOf(Shared(links));
    hide Select, Shared, HasTwoConsumers;
    forall a ensures a in shared <==> a != "" && HasTwoConsumers(links, a) {
      SharedIs(links, a);
    }
  }

  /** Around a focus, exactly the nodes within undirected distance `depth` along allowed nodes stay. */
  lemma FocusKeepsDistance(g: Lineage, f: Filter, pl: Platform, n: Node)
    requires f.focus != "" && f.focus in AllowedByQuery(g, f, pl)
    ensures n in Filtered(g, f, pl).nodes <==>
      n in g.nodes && WithinDistance(g.links, AllowedByQuery(g, f, pl), f.focus, n.id, Depth(f))
  {
    FilteredIsClosed(g, f, pl);
    hide AllowedByQuery, Filtered, WithinDistance;
    BallIsDistance(g.links, AllowedByQuery(g, f, pl), f.focus, Depth(f), n.id);
  }

  ghost predicate FocusOnly(f: Filter, pl: Platform) {
    Query(f, pl) == "" && Domains(f) == {} && f.layers == {} && f.focus != ""
  }

  /** The balls of a graph and of its restriction to the largest one are the same. */
  lemma {:induction false} BallsSurvive(links: seq<Link>, kept: seq<Link>, allowed: set<string>, ball: set<string>,
                                        focus: string, depth: nat, k: nat)
    requires focus in allowed && k <= depth && ball == Ball(links, allowed, focus, depth)
    requires forall l :: l in kept <==> l in links && l.source in ball && l.target in ball
    ensures Ball(kept, ball, focus, k) == Ball(links, allowed, focus, k)
  {
    hide Adjacent, Incident;
    if k > 0 {
      BallsSurvive(links, kept, allowed, ball, focus, depth, k - 1);
      BallGrows(links, allowed, focus, k - 1, depth);
      BallGrows(links, allowed, focus, k, depth);
      BallInside(links, allowed, focus, depth);
      IncidentSurvives(links, kept, Ball(links, allowed, focus, k - 1), allowed, ball);
    }
  }

  lemma IncidentSurvives(links: seq<Link>, kept: seq<Link>, inner: set<string>, allowed: set<string>, ball: set<string>)
    requires inner <= ball <= allowed && Incident(links, inner, allowed) <= ball
    requires forall l :: l in kept <==> l in links && l.source in ball && l.target in ball
    ensures Incident(kept, inner, ball) == Incident(links, inner, allowed)
  {
    forall x, y | x in inner && y in ball ensures Adjacent(kept, x, y) <==> Adjacent(links, x, y) {
      if Adjacent(links, x, y) {
        var l :| l in links && Joins(l, x, y);
        assert l in kept;
      }
    }
    hide Adjacent;
  }

  /** Filtering by focus alone a second time changes nothing. */
  lemma FocusIsIdempotent(g: Lineage, f: Filter, pl: Platform)
    requires FocusOnly(f, pl)
    ensures Filtered(Filtered(g, f, pl), f, pl) == Filtered(g, f, pl)
  {
    hide Query, Select, StatsOf;
    FilteredIsClosed(g, f, pl);
    var r := Filtered(g, f, pl);
    var allowed := Allowed(g, f, pl);
    assert AllowedByQuery(g, f, pl) == Ids(g.nodes) && AllowedByQuery(r, f, pl) == Ids(r.nodes) == allowed;
    if f.focus in Ids(g.nodes) {
      BallInside(g.links, Ids(g.nodes), f.focus, Depth(f));
      BallsSurvive(g.links, r.links, Ids(g.nodes), allowed, f.focus, Depth(f), Depth(f));
    }
    assert Allowed(r, f, pl) == allowed;
    RestrictSame(r, allowed);
  }

  lemma RestrictSame(r: Lineage, allowed: set<string>)
    requires ClosedLineage(r) && Ids(r.nodes) == allowed
    ensures Restrict(r, allowed) == r
  {
    SelectAll(r.nodes, (n: Node) => n.id in allowed);
    SelectAll(r.links, (l: Link) => l.source in allowed && l.target in allowed);
    SelectAll(r.columns, (c: ColumnLink) => c.sourceUrn in Urns(r.nodes) && c.targetUrn in Urns(r.nodes));
    SelectSame(r.columns, (c: ColumnLink) => c.sourceUrn in Urns(r.nodes) && c.targetUrn in Urns(r.nodes),
               (c: ColumnLink) => c.sourceUrn in Urns(Select(r.nodes, (n: Node) => n.id in allowed))
                               && c.targetUrn in Urns(Select(r.nodes, (n: Node) => n.id in allowed)));
  }
}
