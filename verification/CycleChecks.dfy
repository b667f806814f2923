/**
  The two cycle checks of a pipeline definition: the server's Kahn count
  (pipeline_validation.go) and the web editor's three-colour depth-first search
  (validatePipeline.ts), and the unguarded chain walk of routes_pipelines.go that relies on them.
 */
module CycleChecks {
  import opened Graphs
  import opened Kahn

  // ----- the server -----

  datatype Verdict =
    | Accepted
    | NoNodes
    | EmptyId
    | DuplicateId(id: string)
    | UnknownNode(edge: Edge)
    | CycleFound

  ghost predicate WellFormed(ids: seq<string>, edges: seq<Edge>) {
    ids != [] && "" !in ids && Distinct(ids) && Closed(ids, edges)
  }

  method ValidatePipeline(ids: seq<string>, edges: seq<Edge>) returns (v: Verdict)
    ensures v.Accepted? <==> WellFormed(ids, edges) && !HasCycle(edges)
    ensures v.CycleFound? <==> WellFormed(ids, edges) && HasCycle(edges)
    ensures v.NoNodes? <==> ids == []
    ensures v.EmptyId? ==> "" in ids
    ensures v.DuplicateId? ==> exists i, j :: 0 <= i < j < |ids| && ids[i] == ids[j] == v.id
    ensures v.UnknownNode? ==> v.edge in edges && (v.edge.source !in ids || v.edge.target !in ids)
  {
    if |ids| == 0 {
      return NoNodes;
    }
    v := CheckNodes(ids);
    if !v.Accepted? {
      return;
    }
    var indegree, outgoing;
    v, indegree, outgoing := LinkEdges(ids, edges);
    if !v.Accepted? {
      return;
    }
    var visited := CountByKahn(ids, edges, indegree, outgoing);
    return if visited != |ids| then CycleFound else Accepted;
  }

  /** The loop over the nodes: ids must be non-empty and distinct. */
  method CheckNodes(ids: seq<string>) returns (v: Verdict)
    ensures v.Accepted? || v.EmptyId? || v.DuplicateId?
    ensures v.Accepted? <==> Distinct(ids) && "" !in ids
    ensures v.EmptyId? ==> "" in ids
    ensures v.DuplicateId? ==> exists i, j :: 0 <= i < j < |ids| && ids[i] == ids[j] == v.id
  {
    var known: set<string> := {};
    var i := 0;
    while i < |ids|
      invariant 0 <= i <= |ids| && forall k, m :: 0 <= k < m < i ==> ids[k] != ids[m]
      invariant forall k :: 0 <= k < i ==> ids[k] != ""
      invariant known == set k | 0 <= k < i :: ids[k]
    {
      if ids[i] == "" {
        return EmptyId;
      }
      if ids[i] in known {
        return DuplicateId(ids[i]);
      }
      known := known + {ids[i]};
      i := i + 1;
    }
    return Accepted;
  }

  /** The adjacency of the first edges: counted in-edges and listed targets. */
  ghost predicate Linked(ids: seq<string>, edges: seq<Edge>, indegree: map<string, nat>,
                         outgoing: map<string, seq<string>>)
  {
    && indegree.Keys == SetOf(ids)
    && (forall x :: x in ids ==> indegree[x] == Pending(edges, {}, x))
    && (forall x :: Lookup(outgoing, x) == Targets(edges, x))
  }

  /** The loop over the edges: endpoints must be known. */
  method LinkEdges(ids: seq<string>, edges: seq<Edge>)
      returns (v: Verdict, indegree: map<string, nat>, outgoing: map<string, seq<string>>)
    ensures v.Accepted? || v.UnknownNode?
    ensures v.Accepted? <==> Closed(ids, edges)
    ensures v.Accepted? ==> Linked(ids, edges, indegree, outgoing)
    ensures v.UnknownNode? ==> v.edge in edges && (v.edge.source !in ids || v.edge.target !in ids)
  {
    indegree := map x | x in ids :: 0;
    outgoing := map[];
    var i := 0;
    while i < |edges|
      invariant 0 <= i <= |edges| && Closed(ids, edges[..i])
      invariant Linked(ids, edges[..i], indegree, outgoing)
    {
      var e := edges[i];
      if e.source !in indegree || e.target !in indegree {
        return UnknownNode(e), indegree, outgoing;
      }
      LinkStep(ids, edges, i, indegree, outgoing);
      indegree := indegree[e.target := indegree[e.target] + 1];
      outgoing := outgoing[e.source := Lookup(outgoing, e.source) + [e.target]];
      i := i + 1;
    }
    assert edges[..i] == edges;
    return Accepted, indegree, outgoing;
  }

  lemma LinkStep(ids: seq<string>, edges: seq<Edge>, i: nat, indegree: map<string, nat>,
                 outgoing: map<string, seq<string>>)
    requires i < |edges| && Linked(ids, edges[..i], indegree, outgoing)
    requires edges[i].source in ids && edges[i].target in ids
    ensures var e := edges[i];
            Linked(ids, edges[..i + 1], indegree[e.target := indegree[e.target] + 1],
                   outgoing[e.source := Lookup(outgoing, e.source) + [e.target]])
  {
    var e := edges[i];
    var next := outgoing[e.source := Lookup(outgoing, e.source) + [e.target]];
    forall x | x in ids
      ensures indegree[e.target := indegree[e.target] + 1][x] == Pending(edges[..i + 1], {}, x)
    {
      PendingNext(edges, i, {}, x);
    }
    forall x ensures Lookup(next, x) == Targets(edges[..i + 1], x) {
      TargetsNext(edges, i, x);
      assert Lookup(outgoing, x) == Targets(edges[..i], x);
    }
  }

  /**
    The queue of the server's check. The seeds come from ranging over a Go map, so they are
    queued in an arbitrary order.
   */
  method CountByKahn(ids: seq<string>, edges: seq<Edge>, indegree0: map<string, nat>,
                     outgoing: map<string, seq<string>>) returns (visited: nat)
    requires Distinct(ids) && Closed(ids, edges)
    requires Linked(ids, edges, indegree0, outgoing)
    ensures visited <= |ids|
    ensures visited == |ids| <==> !HasCycle(edges)
  {
    var indegree := indegree0;
    var queue := SeedQueue(indegree);
    KahnStart(ids, edges, indegree, queue);
    visited := 0;
    ghost var order: seq<string> := [];
    while |queue| > 0
      invariant KahnState(ids, edges, indegree, order, queue)
      invariant visited == |order|
      decreases |ids| - |order|
    {
      KahnBound(ids, edges, indegree, order, queue);
      var id := queue[0];
      KahnDequeue(ids, edges, indegree, order, queue);
      queue := queue[1..];
      visited := visited + 1;
      var targets := Lookup(outgoing, id);
      var j := 0;
      while j < |targets|
        invariant 0 <= j <= |targets|
        invariant KahnInner(ids, edges, indegree, order + [id], queue, targets[j..])
      {
        KahnEdge(ids, edges, indegree, order + [id], queue, targets[j..]);
        var target := targets[j];
        indegree := indegree[target := indegree[target] - 1];
        if indegree[target] == 0 {
          queue := queue + [target];
        }
        assert targets[j..][1..] == targets[j + 1..];
        j := j + 1;
      }
      order := order + [id];
    }
    KahnResult(ids, edges, indegree, order);
  }

  method SeedQueue(indegree: map<string, nat>) returns (queue: seq<string>)
    ensures Distinct(queue)
    ensures forall x :: x in queue <==> x in indegree && indegree[x] == 0
  {
    queue := [];
    var unseen := indegree.Keys;
    while unseen != {}
      invariant unseen <= indegree.Keys && Distinct(queue)
      invariant forall x :: x in queue <==> x in indegree && x !in unseen && indegree[x] == 0
    {
      var id :| id in unseen;
      unseen := unseen - {id};
      if indegree[id] == 0 {
        queue := queue + [id];
      }
    }
  }

  // ----- the web editor -----

  const ARROW: char := '\U{2192}'

  datatype WebError = SelfLoop(edge: Edge) | DuplicateEdge(edge: Edge) | Cycle

  function Key(e: Edge): string {
    e.source + [ARROW] + e.target
  }

  /** The edges the editor keeps: no self-loops, and only the first edge with a given key. */
  function Kept(edges: seq<Edge>): seq<Edge> {
    if edges == [] then []
    else
      var kept, e := Kept(edges[..|edges| - 1]), edges[|edges| - 1];
      if e.source == e.target || Key(e) in Keys(kept) then kept else kept + [e]
  }

  function Keys(edges: seq<Edge>): set<string> {
    set e | e in edges :: Key(e)
  }

  function EdgeErrors(edges: seq<Edge>): seq<WebError> {
    if edges == [] then []
    else
      var n := |edges| - 1;
      var e := edges[n];
      EdgeErrors(edges[..n]) +
      (if e.source == e.target then [SelfLoop(e)]
       else if Key(e) in Keys(Kept(edges[..n])) then [DuplicateEdge(e)] else [])
  }

  /** The edges between known nodes; the others are invisible to the search. */
  function Between(ids: seq<string>, edges: seq<Edge>): (r: seq<Edge>)
    ensures forall e :: e in r <==> e in edges && e.source in ids && e.target in ids
  {
    if edges == [] then []
    else
      var n := |edges| - 1;
      assert edges == edges[..n] + [edges[n]];
      Between(ids, edges[..n]) +
      (if edges[n].source in ids && edges[n].target in ids then [edges[n]] else [])
  }

  datatype Colour = White | Gray | Black

  /** Search state: the open calls are gray, `finished` lists the black nodes, last one first. */
  ghost predicate Searched(ids: seq<string>, edges: seq<Edge>, colour: map<string, Colour>,
                           finished: seq<string>, stack: seq<string>)
  {
    && colour.Keys == SetOf(ids)
    && Distinct(finished)
    && (forall x :: x in finished <==> x in colour && colour[x] == Black)
    && (forall x :: x in stack <==> x in colour && colour[x] == Gray)
    && ReverseSorted(Between(ids, edges), finished)
  }

  ghost function Whites(colour: map<string, Colour>): set<string> {
    set x | x in colour && colour[x] == White
  }

  lemma EnterNode(ids: seq<string>, edges: seq<Edge>, colour: map<string, Colour>,
                  finished: seq<string>, stack: seq<string>, id: string)
    requires Searched(ids, edges, colour, finished, stack) && id in Whites(colour)
    ensures Searched(ids, edges, colour[id := Gray], finished, stack + [id])
    ensures Whites(colour[id := Gray]) == Whites(colour) - {id}
  {
  }

  lemma LeaveNode(ids: seq<string>, edges: seq<Edge>, colour: map<string, Colour>,
                  finished: seq<string>, stack: seq<string>, id: string)
    requires Searched(ids, edges, colour, finished, stack + [id]) && id !in stack
    requires forall t :: t in Targets(edges, id) && t in ids ==> t in finished
    ensures Searched(ids, edges, colour[id := Black], [id] + finished, stack)
    ensures Whites(colour[id := Black]) == Whites(colour)
  {
    FinishFirst(ids, edges, finished, id);
    hide ReverseSorted;
    assert (stack + [id])[|stack|] == id;
    assert forall x :: x in stack + [id] <==> x in stack || x == id;
  }

  lemma FinishFirst(ids: seq<string>, edges: seq<Edge>, finished: seq<string>, id: string)
    requires ReverseSorted(Between(ids, edges), finished)
    requires forall t :: t in Targets(edges, id) && t in ids ==> t in finished
    ensures ReverseSorted(Between(ids, edges), [id] + finished)
  {
    hide Between, Targets;
    var next := [id] + finished;
    forall e | e in edges && e.source == id && e.target in ids ensures e.target in finished {
      TargetsAreEdges(edges, id, e.target);
    }
    forall i, e | 0 <= i < |next| && e in Between(ids, edges) && e.source == next[i]
      ensures e.target in next[i + 1..]
    {
      if i == 0 {
        assert next[1..] == finished;
      } else {
        assert next[i] == finished[i - 1];
        assert next[i + 1..] == finished[i..];
      }
    }
  }

  /** The depth-first search: the closure variables of `dfs` are the fields here. */
  class CycleFinder {
    const ids: seq<string>
    const outgoing: map<string, seq<string>>
    ghost const edges: seq<Edge>
    var colour: map<string, Colour>
    ghost var finished: seq<string>

    ghost predicate Valid(stack: seq<string>)
      reads this
    {
      && outgoing.Keys == SetOf(ids)
      && (forall x :: x in ids ==> outgoing[x] == Targets(edges, x))
      && Searched(ids, edges, colour, finished, stack)
    }

    constructor (ids: seq<string>, outgoing: map<string, seq<string>>, ghost edges: seq<Edge>)
      requires outgoing.Keys == SetOf(ids)
      requires forall x :: x in ids ==> outgoing[x] == Targets(edges, x)
      ensures Valid([])
      ensures this.ids == ids && this.outgoing == outgoing && this.edges == edges
      ensures forall x :: x in ids ==> colour[x] == White
    {
      this.ids := ids;
      this.outgoing := outgoing;
      this.edges := edges;
      this.colour := map x | x in outgoing :: White;
      this.finished := [];
    }

    /** Explores from a white node; `stack` is the path of open calls leading to `id`. */
    method Dfs(id: string, ghost stack: seq<string>) returns (found: bool)
      requires Valid(stack) && id in Whites(colour)
      requires IsPath(Between(ids, edges), stack + [id])
      modifies this
      ensures found ==> HasCycle(Between(ids, edges))
      ensures !found ==> Valid(stack) && id in finished
      ensures !found ==> forall x :: x in old(finished) ==> x in finished
      ensures Whites(colour) <= old(Whites(colour))
      decreases Whites(colour)
    {
      EnterNode(ids, edges, colour, finished, stack, id);
      colour := colour[id := Gray];
      ghost var here := stack + [id];
      var targets := outgoing[id];
      var j := 0;
      while j < |targets|
        invariant 0 <= j <= |targets|
        invariant Valid(here)
        invariant Whites(colour) <= old(Whites(colour)) - {id}
        invariant forall x :: x in old(finished) ==> x in finished
        invariant forall k :: 0 <= k < j && targets[k] in ids ==> targets[k] in finished
      {
        var next := targets[j];
        TargetsAreEdges(edges, id, next);
        if next in colour && colour[next] == Gray {
          CloseCycle(Between(ids, edges), here, next);
          return true;
        }
        if next in colour && colour[next] == White {
          PathAppend(Between(ids, edges), here, Edge(id, next));
          var deeper := Dfs(next, here);
          if deeper {
            return true;
          }
        }
        j := j + 1;
      }
      LeaveNode(ids, edges, colour, finished, stack, id);
      colour := colour[id := Black];
      finished := [id] + finished;
      return false;
    }

    /** The loop over all nodes that starts a search at every node still white. */
    method FindCycle() returns (found: bool)
      requires Valid([])
      modifies this
      ensures found <==> HasCycle(Between(ids, edges))
    {
      var i := 0;
      while i < |ids|
        invariant 0 <= i <= |ids|
        invariant Valid([])
        invariant forall k :: 0 <= k < i ==> ids[k] in finished
      {
        assert ids[i] in colour;
        assert colour[ids[i]] != Gray;
        if colour[ids[i]] == White {
          assert [] + [ids[i]] == [ids[i]];
          var cyclic := Dfs(ids[i], []);
          if cyclic {
            return true;
          }
        }
        i := i + 1;
      }
      ReverseSortedIsAcyclic(Between(ids, edges), finished);
      return false;
    }
  }

  /** Every edge out of a listed node leads to a node listed after it. */
  ghost predicate ReverseSorted(es: seq<Edge>, order: seq<string>) {
    forall i, e :: 0 <= i < |order| && e in es && e.source == order[i] ==> e.target in order[i + 1..]
  }

  lemma CloseCycle(es: seq<Edge>, here: seq<string>, next: string)
    requires IsPath(es, here) && next in here
    requires Edge(here[|here| - 1], next) in es
    ensures HasCycle(es)
  {
    var i :| 0 <= i < |here| && here[i] == next;
    PathSlice(es, here, i, |here| - 1);
    PathAppend(es, here[i..|here| - 1 + 1], Edge(here[|here| - 1], next));
    assert IsCycle(es, here[i..|here| - 1 + 1] + [next]);
  }

  lemma ReverseSortedIsAcyclic(es: seq<Edge>, order: seq<string>)
    requires ReverseSorted(es, order) && Distinct(order)
    requires forall e :: e in es ==> e.source in order
    ensures !HasCycle(es)
  {
    forall i, e | 0 <= i < |order| && e in es && e.target == order[i] ensures e.source in order[..i] {
      var k :| 0 <= k < |order| && order[k] == e.source;
      assert e.target in order[k + 1..];
      var m :| k + 1 <= m < |order| && order[m] == e.target;
      assert m == i;
    }
    forall e | e in es ensures e.target in order {
      var k :| 0 <= k < |order| && order[k] == e.source;
      assert e.target in order[k + 1..];
    }
    TopoSortedIsAcyclic(es, order);
  }

  ghost predicate EditorLinked(ids: seq<string>, edges: seq<Edge>, edgeSet: set<string>,
                               outgoing: map<string, seq<string>>)
  {
    && edgeSet == Keys(Kept(edges))
    && outgoing.Keys == SetOf(ids)
    && (forall x :: x in ids ==> outgoing[x] == Targets(Kept(edges), x))
  }

  lemma EditorLinkStep(ids: seq<string>, edges: seq<Edge>, i: nat, edgeSet: set<string>,
                       outgoing: map<string, seq<string>>)
    requires i < |edges| && EditorLinked(ids, edges[..i], edgeSet, outgoing)
    ensures var e := edges[i];
            if e.source == e.target || Key(e) in edgeSet then EditorLinked(ids, edges[..i + 1], edgeSet, outgoing)
            else EditorLinked(ids, edges[..i + 1], edgeSet + {Key(e)},
                              if e.source in outgoing then outgoing[e.source := outgoing[e.source] + [e.target]] else outgoing)
    ensures var e := edges[i];
            EdgeErrors(edges[..i + 1]) == EdgeErrors(edges[..i]) +
              (if e.source == e.target then [SelfLoop(e)] else if Key(e) in edgeSet then [DuplicateEdge(e)] else [])
  {
    var e := edges[i];
    assert edges[..i + 1][..i] == edges[..i];
    var kept := Kept(edges[..i]);
    if e.source != e.target && Key(e) !in edgeSet {
      assert (kept + [e])[..|kept|] == kept;
      assert forall d :: d in kept + [e] <==> d in kept || d == e;
      assert Keys(kept + [e]) == Keys(kept) + {Key(e)};
    }
  }

  /** The edge and cycle errors of the editor's validator, in the order it reports them. */
  method ValidateInEditor(ids: seq<string>, edges: seq<Edge>) returns (errs: seq<WebError>)
    ensures errs == EdgeErrors(edges) + (if HasCycle(Between(ids, Kept(edges))) then [Cycle] else [])
  {
    errs := [];
    var outgoing: map<string, seq<string>> := map x | x in ids :: [];
    var edgeSet: set<string> := {};
    var i := 0;
    while i < |edges|
      invariant 0 <= i <= |edges|
      invariant errs == EdgeErrors(edges[..i])
      invariant EditorLinked(ids, edges[..i], edgeSet, outgoing)
    {
      var e := edges[i];
      EditorLinkStep(ids, edges, i, edgeSet, outgoing);
      if e.source == e.target {
        errs := errs + [SelfLoop(e)];
      } else if Key(e) in edgeSet {
        errs := errs + [DuplicateEdge(e)];
      } else {
        edgeSet := edgeSet + {Key(e)};
        if e.source in outgoing {
          outgoing := outgoing[e.source := outgoing[e.source] + [e.target]];
        }
      }
      i := i + 1;
    }
    assert edges[..i] == edges;
    var finder := new CycleFinder(ids, outgoing, Kept(edges));
    var cyclic := finder.FindCycle();
    if cyclic {
      errs := errs + [Cycle];
    }
  }

  // ----- agreement -----

  ghost predicate NoArrow(ids: seq<string>) {
    forall x :: x in ids ==> ARROW !in x
  }

  lemma KeyInjective(a: Edge, b: Edge)
    requires ARROW !in a.source && ARROW !in b.source && Key(a) == Key(b)
    ensures a == b
  {
    var k := Key(a);
    assert k[|a.source|] == ARROW && k[|b.source|] == ARROW;
    assert forall i :: 0 <= i < |a.source| ==> k[i] == a.source[i];
    assert forall i :: 0 <= i < |b.source| ==> k[i] == b.source[i];
    assert |a.source| == |b.source|;
    assert a.source == k[..|a.source|] && b.source == k[..|b.source|];
    assert a.target == k[|a.source| + 1..] && b.target == k[|b.source| + 1..];
  }

  ghost predicate IsPair(ids: seq<string>, e: Edge) {
    e.source in ids && e.target in ids && e.source != e.target
  }

  /** No two different pairs of different nodes share a key. */
  ghost predicate KeysApart(ids: seq<string>) {
    forall a, b :: IsPair(ids, a) && IsPair(ids, b) && Key(a) == Key(b) ==> a == b
  }

  /** Ids without arrows are one way to keep the keys apart. */
  lemma NoArrowKeepsApart(ids: seq<string>)
    requires NoArrow(ids)
    ensures KeysApart(ids)
  {
    hide Key;
    forall a, b | IsPair(ids, a) && IsPair(ids, b) && Key(a) == Key(b) ensures a == b {
      KeyInjective(a, b);
    }
  }

  /** With keys apart the editor drops nothing but self-loops and repetitions. */
  lemma {:induction false} KeptEdges(ids: seq<string>, edges: seq<Edge>, e: Edge)
    requires Closed(ids, edges) && KeysApart(ids)
    ensures e in Kept(edges) <==> e in edges && e.source != e.target
  {
    if edges == [] {
    } else {
      var n := |edges| - 1;
      var last := edges[n];
      KeptEdges(ids, edges[..n], e);
      assert edges == edges[..n] + [last];
      assert last in edges;
      if Key(last) in Keys(Kept(edges[..n])) {
        var twin :| twin in Kept(edges[..n]) && Key(twin) == Key(last);
        KeptEdges(ids, edges[..n], twin);
        if last.source != last.target {
          assert IsPair(ids, twin) && IsPair(ids, last);
        }
      }
    }
  }

  lemma {:induction false} SelfLoopsReported(edges: seq<Edge>, e: Edge)
    ensures SelfLoop(e) in EdgeErrors(edges) <==> e in edges && e.source == e.target
  {
    if edges == [] {
    } else {
      var n := |edges| - 1;
      SelfLoopsReported(edges[..n], e);
      assert edges == edges[..n] + [edges[n]];
    }
  }

  ghost predicate EditorRejects(ids: seq<string>, edges: seq<Edge>) {
    (exists e :: SelfLoop(e) in EdgeErrors(edges)) || HasCycle(Between(ids, Kept(edges)))
  }

  /**
    The editor reports a self-loop or a cycle exactly when the server's count rejects: both mean
    that the definition has a directed cycle.
   */
  lemma ChecksAgree(ids: seq<string>, edges: seq<Edge>)
    requires Closed(ids, edges) && KeysApart(ids)
    ensures EditorRejects(ids, edges) <==> HasCycle(edges)
  {
    var kept := Between(ids, Kept(edges));
    forall e ensures e in kept <==> e in edges && e.source != e.target {
      KeptEdges(ids, edges, e);
    }
    if exists e :: SelfLoop(e) in EdgeErrors(edges) {
      var e :| SelfLoop(e) in EdgeErrors(edges);
      SelfLoopsReported(edges, e);
      assert IsCycle(edges, [e.source, e.target]);
    } else if HasCycle(kept) {
      var p :| IsCycle(kept, p);
      assert IsCycle(edges, p);
    }
    if HasCycle(edges) && !(exists e :: SelfLoop(e) in EdgeErrors(edges)) {
      var p :| IsCycle(edges, p);
      forall i | 1 <= i < |p| ensures Edge(p[i - 1], p[i]) in kept {
        SelfLoopsReported(edges, Edge(p[i - 1], p[i]));
      }
      assert IsCycle(kept, p);
    }
  }

  /** The two checks agree on all definitions over these ids. */
  ghost predicate AgreeOver(ids: seq<string>) {
    forall edges :: Closed(ids, edges) ==> (EditorRejects(ids, edges) <==> HasCycle(edges))
  }

  /** The two checks agree on every definition over given ids exactly when these keep the keys apart. */
  lemma ChecksAgreeExactly(ids: seq<string>)
    ensures AgreeOver(ids) <==> KeysApart(ids)
  {
    hide Key, HasCycle, EditorRejects;
    if KeysApart(ids) {
      forall edges | Closed(ids, edges) ensures EditorRejects(ids, edges) <==> HasCycle(edges) {
        ChecksAgree(ids, edges);
      }
    } else {
      var a, b :| IsPair(ids, a) && IsPair(ids, b) && Key(a) == Key(b) && a != b;
      SharedKeyHidesCycle(ids, a, b);
    }
  }

  /**
    When two different pairs share a key the editor drops the second one, and with it any cycle
    the second one closes.
   */
  lemma SharedKeyHidesCycle(ids: seq<string>, a: Edge, b: Edge)
    requires IsPair(ids, a) && IsPair(ids, b) && Key(a) == Key(b) && a != b
    ensures var edges := [a, b, Edge(b.target, b.source)];
            Closed(ids, edges) && HasCycle(edges) && !EditorRejects(ids, edges)
  {
    var back := Edge(b.target, b.source);
    var edges := [a, b, back];
    assert edges[1] == b && edges[2] == back;
    assert IsCycle(edges, [b.source, b.target, b.source]);
    KeptOfThree(a, b, back);
    TwoEdgesNoCycle(Between(ids, Kept(edges)), a, back);
    forall e ensures SelfLoop(e) !in EdgeErrors(edges) {
      SelfLoopsReported(edges, e);
    }
  }

  lemma KeptOfThree(a: Edge, b: Edge, c: Edge)
    requires a.source != a.target && Key(a) == Key(b)
    ensures forall e :: e in Kept([a, b, c]) ==> e == a || e == c
  {
    assert [a, b, c][..2] == [a, b] && [a, b][..1] == [a] && [a][..0] == [];
    assert Kept([a]) == [a];
    assert a in [a];
    assert Kept([a, b]) == [a];
  }

  /** Two edges that are no loops and not each other's reverse close no cycle. */
  lemma TwoEdgesNoCycle(edges: seq<Edge>, a: Edge, b: Edge)
    requires forall e :: e in edges ==> e == a || e == b
    requires a.source != a.target && b.source != b.target && b != Edge(a.target, a.source)
    ensures !HasCycle(edges)
  {
    var rank: map<string, nat> :=
      if b.source == a.target then map[a.source := 0, a.target := 1, b.target := 2]
      else if b.target == a.source then map[b.source := 0, a.source := 1, a.target := 2]
      else map[a.source := 0, b.source := 0, a.target := 1, b.target := 1];
    assert RanksUp(edges, rank);
    if HasCycle(edges) {
      var p :| IsCycle(edges, p);
      PathRank(edges, rank, p);
    }
  }

  /** A concrete well-formed definition that the server rejects and the editor passes. */
  lemma ArrowInIdHidesCycle(a: string, b: string)
    requires a == "x" + [ARROW] + "y" && b == "y" + [ARROW] + "z"
    ensures var ids, edges := [a, "z", "x", b], [Edge(a, "z"), Edge("x", b), Edge(b, "x")];
            WellFormed(ids, edges) && HasCycle(edges) && !EditorRejects(ids, edges)
  {
    var ids := [a, "z", "x", b];
    assert a[0] == 'x' && |a| == 3 && b[0] == 'y' && |b| == 3;
    SharedKey(a, b);
    assert a in ids && "z" in ids && "x" in ids && b in ids;
    SharedKeyHidesCycle(ids, Edge(a, "z"), Edge("x", b));
  }

  lemma SharedKey(a: string, b: string)
    requires a == "x" + [ARROW] + "y" && b == "y" + [ARROW] + "z"
    ensures Key(Edge(a, "z")) == Key(Edge("x", b))
  {
  }

  // ----- the chain walk -----

  /** The last edge leaving a node decides where the walk goes next; "" means the walk is over. */
  function NextInChain(edges: seq<Edge>, x: string): string {
    if edges == [] then ""
    else
      var e := edges[|edges| - 1];
      if e.source == x then e.target else NextInChain(edges[..|edges| - 1], x)
  }

  lemma {:induction false} NextInChainIsEdge(edges: seq<Edge>, x: string)
    ensures NextInChain(edges, x) != "" ==> Edge(x, NextInChain(edges, x)) in edges
    ensures (forall e :: e in edges ==> e.target != "") && NextInChain(edges, x) == "" ==>
              forall e :: e in edges ==> e.source != x
  {
    if edges == [] {
    } else {
      var n := |edges| - 1;
      assert edges == edges[..n] + [edges[n]];
      assert edges[n] in edges;
      if edges[n].source != x {
        NextInChainIsEdge(edges[..n], x);
      }
    }
  }

  lemma NextInChainStep(edges: seq<Edge>, i: nat, x: string)
    requires i < |edges|
    ensures NextInChain(edges[..i + 1], x) == if edges[i].source == x then edges[i].target else NextInChain(edges[..i], x)
  {
    assert edges[..i + 1][..i] == edges[..i];
  }

  function Follow(outgoing: map<string, string>, x: string): string {
    if x in outgoing then outgoing[x] else ""
  }

  method LinkChain(ids: seq<string>, edges: seq<Edge>)
      returns (indegree: map<string, nat>, outgoing: map<string, string>)
    requires Closed(ids, edges)
    ensures indegree.Keys == SetOf(ids)
    ensures forall x :: x in ids ==> indegree[x] == Pending(edges, {}, x)
    ensures forall x :: Follow(outgoing, x) == NextInChain(edges, x)
  {
    indegree := map x | x in ids :: 0;
    outgoing := map[];
    var i := 0;
    while i < |edges|
      invariant 0 <= i <= |edges| && indegree.Keys == SetOf(ids)
      invariant forall x :: x in ids ==> indegree[x] == Pending(edges[..i], {}, x)
      invariant forall x :: Follow(outgoing, x) == NextInChain(edges[..i], x)
    {
      var e := edges[i];
      forall x ensures Pending(edges[..i + 1], {}, x) == Pending(edges[..i], {}, x) + (if e.target == x then 1 else 0) {
        PendingNext(edges, i, {}, x);
      }
      ghost var next := outgoing[e.source := e.target];
      forall x ensures Follow(next, x) == NextInChain(edges[..i + 1], x) {
        NextInChainStep(edges, i, x);
        assert Follow(outgoing, x) == NextInChain(edges[..i], x);
      }
      indegree := indegree[e.target := indegree[e.target] + 1];
      outgoing := outgoing[e.source := e.target];
      i := i + 1;
    }
    assert edges[..i] == edges;
  }

  /** The nodes walked so far, with `current` next; ranks make the walk finite. */
  ghost predicate Walking(ids: seq<string>, edges: seq<Edge>, rank: map<string, nat>, walked: seq<string>) {
    && walked != [] && IsPath(edges, walked)
    && (forall e :: e in edges ==> e.target != walked[0])
    && (forall x :: x in walked ==> x in ids && x in rank)
    && (forall k, m :: 0 <= k < m < |walked| ==> rank[walked[k]] < rank[walked[m]])
  }

  lemma WalkOn(ids: seq<string>, edges: seq<Edge>, rank: map<string, nat>, walked: seq<string>, next: string)
    requires Closed(ids, edges) && RanksUp(edges, rank) && Walking(ids, edges, rank, walked)
    requires Edge(walked[|walked| - 1], next) in edges
    ensures Walking(ids, edges, rank, walked + [next])
    ensures rank[walked[|walked| - 1]] < rank[next]
  {
  }

  /**
    The lineage walk from the first node without incoming edges. It has no guard against cycles;
    on an accepted definition it terminates, follows edges, never meets a node twice, starts at a
    node without incoming edges and stops only at a node without outgoing ones.
   */
  method ChainWalk(ids: seq<string>, edges: seq<Edge>) returns (chain: seq<string>)
    requires WellFormed(ids, edges) && !HasCycle(edges)
    ensures IsPath(edges, chain) && Distinct(chain)
    ensures forall e :: e in edges ==> e.target != chain[0]
    ensures forall e :: e in edges ==> e.source != chain[|chain| - 1]
  {
    var indegree, outgoing := LinkChain(ids, edges);
    var current := "";
    var i := 0;
    while i < |ids|
      invariant 0 <= i <= |ids| && current == ""
      invariant forall k :: 0 <= k < i ==> indegree[ids[k]] != 0
    {
      if indegree[ids[i]] == 0 {
        current := ids[i];
        break;
      }
      i := i + 1;
    }
    RootExists(ids, edges);
    PendingZero(edges, {}, current);
    ghost var rank := AcyclicRank(ids, edges);
    chain := [];
    while current != ""
      invariant current != "" ==> Walking(ids, edges, rank, chain + [current])
      invariant current == "" ==> Walking(ids, edges, rank, chain)
      invariant current == "" ==> forall e :: e in edges ==> e.source != chain[|chain| - 1]
      decreases current != "", if current != "" then |SetOf(ids)| - rank[current] else 0
    {
      assert (chain + [current])[|chain|] == current;
      chain := chain + [current];
      NextInChainIsEdge(edges, current);
      assert forall e :: e in edges ==> e.target in ids;
      var next := Follow(outgoing, current);
      if next != "" {
        WalkOn(ids, edges, rank, chain, next);
      }
      current := next;
    }
  }

  lemma RootExists(ids: seq<string>, edges: seq<Edge>)
    requires WellFormed(ids, edges) && !HasCycle(edges)
    ensures exists x :: x in ids && Pending(edges, {}, x) == 0
  {
    if forall x :: x in ids ==> Pending(edges, {}, x) != 0 {
      var all := SetOf(ids);
      assert ids[0] in all;
      forall x | x in all ensures HasPredecessorIn(edges, x, all) {
        PendingZero(edges, {}, x);
      }
      StuckHasCycle(edges, all);
    }
  }
}
