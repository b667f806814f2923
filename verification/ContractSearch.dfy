/**
  The two searches for the data contract upstream of a sink: the server's depth-first search with
  a shared visited set (`extractContracts` in routes_pipelines.go) and the breadth-first search of
  the lineage code (`upstreamContract` in lineage.ts). Both are proved against paths in the graph,
  and then they are compared on one and the same definition.
 */
module ContractSearch {
  import opened Options
  import opened Graphs

  type Fields = map<string, string>

  /** `schemaJson` of a node: an object, a string holding one, a string that is no JSON, anything else. */
  datatype Schema = ObjectSchema(fields: Fields) | ObjectText(fields: Fields) | BadText | OtherSchema

  datatype Node = Node(id: string, isSink: bool, isContract: bool, schema: Schema)

  /** Later nodes replace earlier ones with the same id. */
  function NodeOf(nodes: seq<Node>, id: string): Option<Node> {
    if nodes == [] then None
    else
      var n := |nodes| - 1;
      if nodes[n].id == id then Some(nodes[n]) else NodeOf(nodes[..n], id)
  }

  /** The server takes only schemas that are already objects. */
  predicate ServerAccepts(nodes: seq<Node>, id: string) {
    var n := NodeOf(nodes, id);
    n.Some? && n.value.isContract && n.value.schema.ObjectSchema?
  }

  /** The lineage code also parses a schema given as text. */
  predicate LineageAccepts(nodes: seq<Node>, id: string) {
    var n := NodeOf(nodes, id);
    n.Some? && n.value.isContract && (n.value.schema.ObjectSchema? || n.value.schema.ObjectText?)
  }

  /** Text that does not parse ends the lineage search. */
  predicate LineageGivesUp(nodes: seq<Node>, id: string) {
    var n := NodeOf(nodes, id);
    n.Some? && n.value.isContract && n.value.schema.BadText?
  }

  function FieldsOf(nodes: seq<Node>, id: string): Fields
    requires LineageAccepts(nodes, id)
  {
    NodeOf(nodes, id).value.schema.fields
  }

  /** `c` lies at least one edge upstream of `x`. */
  ghost predicate Upstream(es: seq<Edge>, c: string, x: string) {
    exists p :: IsPath(es, p) && |p| >= 2 && p[0] == c && p[|p| - 1] == x
  }

  lemma UpstreamDirect(es: seq<Edge>, c: string, x: string)
    requires Edge(c, x) in es
    ensures Upstream(es, c, x)
  {
    assert IsPath(es, [c, x]);
  }

  lemma UpstreamStep(es: seq<Edge>, c: string, s: string, x: string)
    requires Upstream(es, c, s) && Edge(s, x) in es
    ensures Upstream(es, c, x)
  {
    var p :| IsPath(es, p) && |p| >= 2 && p[0] == c && p[|p| - 1] == s;
    PathAppend(es, p, Edge(s, x));
    assert (p + [x])[0] == c;
  }

  // ----- the server: depth first -----

  /** All sources of `x` have been visited and none of them is a contract. */
  ghost predicate Exhausted(nodes: seq<Node>, es: seq<Edge>, visited: set<string>, x: string) {
    forall s :: Edge(s, x) in es ==> s in visited && !ServerAccepts(nodes, s)
  }

  function Names(es: seq<Edge>): set<string> {
    (set e | e in es :: e.source) + (set e | e in es :: e.target)
  }

  ghost predicate HasContract(nodes: seq<Node>, es: seq<Edge>, id: string) {
    exists c :: ServerAccepts(nodes, c) && Upstream(es, c, id)
  }

  ghost predicate IsContractOf(nodes: seq<Node>, es: seq<Edge>, id: string, fields: Fields) {
    exists c :: ServerAccepts(nodes, c) && Upstream(es, c, id) && fields == FieldsOf(nodes, c)
  }

  ghost predicate IsSink(nodes: seq<Node>, id: string) {
    exists n :: n in nodes && n.isSink && n.id == id
  }

  lemma ContractBelow(nodes: seq<Node>, es: seq<Edge>, s: string, x: string, fields: Fields)
    requires IsContractOf(nodes, es, s, fields) && Edge(s, x) in es
    ensures IsContractOf(nodes, es, x, fields)
  {
    var c :| ServerAccepts(nodes, c) && Upstream(es, c, s) && fields == FieldsOf(nodes, c);
    UpstreamStep(es, c, s, x);
  }

  lemma ContractAbove(nodes: seq<Node>, es: seq<Edge>, s: string, x: string)
    requires ServerAccepts(nodes, s) && Edge(s, x) in es
    ensures IsContractOf(nodes, es, x, FieldsOf(nodes, s))
  {
    UpstreamDirect(es, s, x);
  }

  class ContractFinder {
    const nodes: seq<Node>
    const incoming: map<string, seq<string>>
    ghost const es: seq<Edge>
    var visited: set<string>

    ghost predicate Valid()
      reads this
    {
      forall x :: Lookup(incoming, x) == Sources(es, x)
    }

    constructor (nodes: seq<Node>, incoming: map<string, seq<string>>, ghost es: seq<Edge>)
      requires forall x :: Lookup(incoming, x) == Sources(es, x)
      ensures Valid() && visited == {} && this.nodes == nodes && this.es == es
    {
      this.nodes := nodes;
      this.incoming := incoming;
      this.es := es;
      this.visited := {};
    }

    method FindContract(id: string) returns (r: Option<Fields>)
      requires Valid()
      modifies this
      ensures Valid() && old(visited) <= visited && id in visited
      ensures r.Some? ==> IsContractOf(nodes, es, id, r.value)
      ensures r.None? ==> forall x :: x in visited && x !in old(visited) ==> Exhausted(nodes, es, visited, x)
      decreases (Names(es) + {id}) - visited, if id in Names(es) then 0 else 1
    {
      hide NodeOf, FieldsOf, IsContractOf, Sources;
      if id in visited {
        return None;
      }
      visited := visited + {id};
      var sources := Lookup(incoming, id);
      var i := 0;
      while i < |sources|
        invariant 0 <= i <= |sources| && Valid()
        invariant old(visited) + {id} <= visited
        invariant forall k :: 0 <= k < i ==> sources[k] in visited && !ServerAccepts(nodes, sources[k])
        invariant forall x :: x in visited && x !in old(visited) && x != id ==> Exhausted(nodes, es, visited, x)
      {
        var source := sources[i];
        assert Edge(source, id) in es;
        assert source in Names(es) && id in Names(es);
        if ServerAccepts(nodes, source) {
          ContractAbove(nodes, es, source, id);
          return Some(FieldsOf(nodes, source));
        }
        ghost var before := visited;
        var contract := FindContract(source);
        if contract.Some? {
          ContractBelow(nodes, es, source, id, contract.value);
          return contract;
        }
        forall x | x in visited && x !in old(visited) && x != id ensures Exhausted(nodes, es, visited, x) {
          if x in before {
            assert Exhausted(nodes, es, before, x);
          }
        }
        i := i + 1;
      }
      return None;
    }
  }

  lemma {:induction false} NothingUpstream(nodes: seq<Node>, es: seq<Edge>, visited: set<string>, p: seq<string>)
    requires forall x :: x in visited ==> Exhausted(nodes, es, visited, x)
    requires IsPath(es, p) && |p| >= 2 && p[|p| - 1] in visited
    ensures !ServerAccepts(nodes, p[0])
    decreases |p|
  {
    var n := |p| - 1;
    assert Edge(p[n - 1], p[n]) in es;
    assert Exhausted(nodes, es, visited, p[n]);
    if |p| > 2 {
      NothingUpstream(nodes, es, visited, p[..n]);
    }
  }

  /** The server's search from one node, with a fresh visited set: complete as well as sound. */
  method ServerSearch(nodes: seq<Node>, es: seq<Edge>, incoming: map<string, seq<string>>, id: string)
      returns (r: Option<Fields>)
    requires forall x :: Lookup(incoming, x) == Sources(es, x)
    ensures r.Some? <==> HasContract(nodes, es, id)
    ensures r.Some? ==> IsContractOf(nodes, es, id, r.value)
  {
    var finder := new ContractFinder(nodes, incoming, es);
    r := finder.FindContract(id);
    if r.None? {
      forall c | Upstream(es, c, id) ensures !ServerAccepts(nodes, c) {
        var p :| IsPath(es, p) && |p| >= 2 && p[0] == c && p[|p| - 1] == id;
        NothingUpstream(nodes, es, finder.visited, p);
      }
    }
  }

  /** The contracts of a definition, by sink: present exactly for sinks below an accepted contract. */
  method ExtractContracts(nodes: seq<Node>, es: seq<Edge>) returns (contracts: map<string, Fields>)
    ensures forall id :: id in contracts <==>
      IsSink(nodes, id) && HasContract(nodes, es, id)
    ensures forall id :: id in contracts ==>
      IsContractOf(nodes, es, id, contracts[id])
  {
    var incoming := LinkSources(es);
    contracts := map[];
    for i := 0 to |nodes|
      invariant forall id :: id in contracts <==>
        IsSink(nodes[..i], id) && HasContract(nodes, es, id)
      invariant forall id :: id in contracts ==>
        IsContractOf(nodes, es, id, contracts[id])
    {
      assert nodes[..i + 1] == nodes[..i] + [nodes[i]];
      if nodes[i].isSink {
        var contract := ServerSearch(nodes, es, incoming, nodes[i].id);
        if contract.Some? {
          contracts := contracts[nodes[i].id := contract.value];
        }
      }
    }
    assert nodes[..|nodes|] == nodes;
  }

  // ----- the lineage code: breadth first -----

  /** The nodes at most `d` edges upstream of `start`, not counting `start` itself as distance 0. */
  ghost function Within(es: seq<Edge>, start: string, d: nat): set<string> {
    if d == 0 then {}
    else Within(es, start, d - 1) + SetOf(Sources(es, start)) + Above(es, Within(es, start, d - 1))
  }

  ghost function Above(es: seq<Edge>, near: set<string>): set<string> {
    set e | e in es && e.target in near :: e.source
  }

  lemma {:induction false} WithinGrows(es: seq<Edge>, start: string, d: nat, e: nat)
    requires d <= e
    ensures Within(es, start, d) <= Within(es, start, e)
    decreases e
  {
    hide Above, Sources, SetOf;
    if d < e {
      WithinGrows(es, start, d, e - 1);
    }
  }

  lemma UpstreamFirst(es: seq<Edge>, e: Edge, x: string)
    requires e in es && Upstream(es, e.target, x)
    ensures Upstream(es, e.source, x)
  {
    var p :| IsPath(es, p) && |p| >= 2 && p[0] == e.target && p[|p| - 1] == x;
    PathPrepend(es, e, p);
    assert ([e.source] + p)[|p|] == x;
  }

  lemma {:induction false} WithinIsUpstream(es: seq<Edge>, start: string, d: nat, c: string)
    requires c in Within(es, start, d)
    ensures Upstream(es, c, start)
  {
    hide Upstream, Sources;
    if c in Within(es, start, d - 1) {
      WithinIsUpstream(es, start, d - 1, c);
    } else if c in Sources(es, start) {
      UpstreamDirect(es, c, start);
    } else {
      var e :| e in es && e.target in Within(es, start, d - 1) && e.source == c;
      WithinIsUpstream(es, start, d - 1, e.target);
      UpstreamFirst(es, e, start);
    }
  }

  lemma {:induction false} PathIsWithin(es: seq<Edge>, p: seq<string>)
    requires IsPath(es, p) && |p| >= 2
    ensures p[0] in Within(es, p[|p| - 1], |p| - 1)
    decreases |p|
  {
    assert Edge(p[0], p[1]) in es;
    if |p| == 2 {
      assert p[0] in Sources(es, p[1]);
    } else {
      var q := p[1..];
      PathSlice(es, p, 1, |p| - 1);
      assert p[1..|p| - 1 + 1] == q;
      PathIsWithin(es, q);
    }
  }

  ghost predicate AtSomeDistance(es: seq<Edge>, start: string, c: string) {
    exists d: nat :: c in Within(es, start, d)
  }

  /** Being upstream is being within some distance. */
  lemma UpstreamIffWithin(es: seq<Edge>, start: string, c: string)
    ensures Upstream(es, c, start) <==> AtSomeDistance(es, start, c)
  {
    if Upstream(es, c, start) {
      var p :| IsPath(es, p) && |p| >= 2 && p[0] == c && p[|p| - 1] == start;
      PathIsWithin(es, p);
    }
    if AtSomeDistance(es, start, c) {
      var d: nat :| c in Within(es, start, d);
      WithinIsUpstream(es, start, d, c);
    }
  }

  /**
    Breadth-first search at distance `k`: the first `n` queued nodes are at most `k` upstream, the
    rest at most `k + 1`; everything closer than `k` has been looked at.
   */
  ghost predicate Searching(es: seq<Edge>, start: string, queue: seq<string>, seen: set<string>, k: nat, n: nat)
  {
    && k >= 1 && n <= |queue|
    && Within(es, start, k - 1) <= seen <= Within(es, start, k)
    && SetOf(queue[..n]) <= Within(es, start, k) <= seen + SetOf(queue[..n])
    && SetOf(queue[n..]) <= Within(es, start, k + 1)
    && (forall e :: e in es && e.target in seen ==> e.source in Within(es, start, k) + SetOf(queue[n..]))
  }

  lemma WithinNext(es: seq<Edge>, start: string, k: nat, known: set<string>)
    requires k >= 1 && Within(es, start, k) <= known
    requires forall e :: e in es && e.target in Within(es, start, k) ==> e.source in known
    ensures Within(es, start, k + 1) <= known
  {
    hide Sources;
    WithinGrows(es, start, 1, k);
    FirstWithin(es, start);
  }

  lemma NextDistance(es: seq<Edge>, start: string, queue: seq<string>, seen: set<string>, k: nat)
    requires Searching(es, start, queue, seen, k, 0)
    ensures Searching(es, start, queue, seen, k + 1, |queue|)
    ensures seen == Within(es, start, k)
  {
    hide Sources, Within;
    assert queue[..0] == [] && queue[0..] == queue && queue[..|queue|] == queue && queue[|queue|..] == [];
    assert SetOf([]) == {};
    WithinGrows(es, start, k, k + 1);
    WithinNext(es, start, k, seen + SetOf(queue));
  }

  lemma FirstWithin(es: seq<Edge>, start: string)
    ensures Within(es, start, 1) == SetOf(Sources(es, start))
  {
  }

  lemma SkipSeen(es: seq<Edge>, start: string, queue: seq<string>, seen: set<string>, k: nat, n: nat)
    requires n > 0 && Searching(es, start, queue, seen, k, n) && queue[0] in seen
    ensures Searching(es, start, queue[1..], seen, k, n - 1)
  {
    hide Within;
    QueueTail(queue, [], n);
    assert queue[1..] + [] == queue[1..];
  }

  lemma QueueTail(queue: seq<string>, added: seq<string>, n: nat)
    requires 0 < n <= |queue|
    ensures var rest := queue[1..] + added;
            && SetOf(queue[..n]) == {queue[0]} + SetOf(rest[..n - 1])
            && SetOf(rest[n - 1..]) == SetOf(queue[n..]) + SetOf(added)
  {
    var rest := queue[1..] + added;
    assert queue[..n] == [queue[0]] + rest[..n - 1];
    assert rest[n - 1..] == queue[n..] + added;
  }

  lemma EdgesInto(es: seq<Edge>, x: string, seen: set<string>, known: set<string>)
    requires forall e :: e in es && e.target in seen ==> e.source in known
    ensures forall e :: e in es && e.target in seen + {x} ==> e.source in known + SetOf(Sources(es, x))
  {
    hide Sources;
    forall e | e in es && e.target in seen + {x} ensures e.source in known + SetOf(Sources(es, x)) {
      if e.target !in seen {
        assert e == Edge(e.source, x);
      }
    }
  }

  lemma LookAt(es: seq<Edge>, start: string, queue: seq<string>, seen: set<string>, k: nat, n: nat)
    requires n > 0 && Searching(es, start, queue, seen, k, n)
    ensures Searching(es, start, queue[1..] + Sources(es, queue[0]), seen + {queue[0]}, k, n - 1)
  {
    hide Within, Sources;
    var added := Sources(es, queue[0]);
    QueueTail(queue, added, n);
    assert queue[0] in SetOf(queue[..n]);
    SourcesAreCloser(es, start, queue[0], k);
    EdgesInto(es, queue[0], seen, Within(es, start, k) + SetOf(queue[n..]));
    hide SetOf;
    var rest := queue[1..] + added;
    assert Within(es, start, k) + SetOf(queue[n..]) + SetOf(added) == Within(es, start, k) + SetOf(rest[n - 1..]);
  }

  lemma SourcesAreCloser(es: seq<Edge>, start: string, x: string, k: nat)
    requires x in Within(es, start, k)
    ensures SetOf(Sources(es, x)) <= Within(es, start, k + 1)
  {
    forall y | y in Sources(es, x) ensures y in Within(es, start, k + 1) {
      assert Edge(y, x) in es;
    }
  }

  lemma {:induction false} ClosedHoldsAll(es: seq<Edge>, start: string, seen: set<string>, d: nat)
    requires SetOf(Sources(es, start)) <= seen
    requires forall e :: e in es && e.target in seen ==> e.source in seen
    ensures Within(es, start, d) <= seen
  {
    if d > 0 {
      ClosedHoldsAll(es, start, seen, d - 1);
    }
  }

  lemma NothingLeft(es: seq<Edge>, start: string, seen: set<string>, k: nat, d: nat)
    requires Searching(es, start, [], seen, k, 0)
    ensures Within(es, start, d) <= seen
  {
    NextDistance(es, start, [], seen, k);
    WithinGrows(es, start, 1, k);
    FirstWithin(es, start);
    hide Sources, Within;
    ClosedHoldsAll(es, start, seen, d);
  }

  lemma SourcesAreNames(es: seq<Edge>, x: string)
    ensures forall y :: y in Sources(es, x) ==> y in Names(es)
  {
    forall y | y in Sources(es, x) ensures y in Names(es) {
      assert Edge(y, x) in es;
    }
  }

  /** The nodes in the order in which the queue brings them up, once each. */
  function VisitOrder(es: seq<Edge>, queue: seq<string>, seen: set<string>): seq<string>
    requires forall x :: x in queue ==> x in Names(es)
    decreases Names(es) - seen, |queue|
  {
    if queue == [] then []
    else if queue[0] in seen then VisitOrder(es, queue[1..], seen)
    else
      SourcesAreNames(es, queue[0]);
      [queue[0]] + VisitOrder(es, queue[1..] + Sources(es, queue[0]), seen + {queue[0]})
  }

  function Order(es: seq<Edge>, start: string): seq<string> {
    SourcesAreNames(es, start);
    VisitOrder(es, Sources(es, start), {})
  }

  /** Nothing that comes earlier is farther away. */
  ghost predicate NearestFirst(es: seq<Edge>, start: string, order: seq<string>) {
    forall i, j, d: nat :: 0 <= i < j < |order| && order[j] in Within(es, start, d) ==> order[i] in Within(es, start, d)
  }

  /** The upstream nodes, each once, by distance. */
  ghost predicate BreadthFirst(es: seq<Edge>, start: string, order: seq<string>) {
    Distinct(order) && NearestFirst(es, start, order) && forall x :: x in order <==> Upstream(es, x, start)
  }

  ghost predicate Remaining(es: seq<Edge>, start: string, seen: set<string>, order: seq<string>) {
    && Distinct(order) && NearestFirst(es, start, order)
    && (forall x :: x in order ==> x !in seen && AtSomeDistance(es, start, x))
    && forall d: nat :: Within(es, start, d) <= seen + SetOf(order)
  }

  lemma RemainingOneMore(es: seq<Edge>, start: string, seen: set<string>, k: nat, x: string, rest: seq<string>)
    requires k >= 1 && Within(es, start, k - 1) <= seen && x in Within(es, start, k) && x !in seen
    requires Remaining(es, start, seen + {x}, rest)
    ensures Remaining(es, start, seen, [x] + rest)
  {
    hide Within;
    var order := [x] + rest;
    assert SetOf(order) == {x} + SetOf(rest);
    forall i, j, d: nat | 0 <= i < j < |order| && order[j] in Within(es, start, d) ensures order[i] in Within(es, start, d) {
      assert order[j] in rest && order[j] !in seen;
      if i == 0 {
        if d < k {
          WithinGrows(es, start, d, k - 1);
        }
        WithinGrows(es, start, k, d);
      }
    }
  }

  lemma {:induction false} VisitOrderRemains(es: seq<Edge>, start: string, queue: seq<string>, seen: set<string>, k: nat, n: nat)
    requires Searching(es, start, queue, seen, k, n) && n <= |queue| && forall x :: x in queue ==> x in Names(es)
    ensures Remaining(es, start, seen, VisitOrder(es, queue, seen))
    decreases Names(es) - seen, |queue|, if n == 0 then 1 else 0
  {
    hide Remaining, Within, Searching, Sources;
    if queue == [] {
      forall d: nat ensures Within(es, start, d) <= seen {
        NothingLeft(es, start, seen, k, d);
      }
      NothingRemains(es, start, seen);
    } else if n == 0 {
      NextDistance(es, start, queue, seen, k);
      VisitOrderRemains(es, start, queue, seen, k + 1, |queue|);
    } else if queue[0] in seen {
      SkipSeen(es, start, queue, seen, k, n);
      VisitOrderRemains(es, start, queue[1..], seen, k, n - 1);
    } else {
      LookAt(es, start, queue, seen, k, n);
      FrontIsNear(es, start, queue, seen, k, n);
      SourcesAreNames(es, queue[0]);
      VisitOrderRemains(es, start, queue[1..] + Sources(es, queue[0]), seen + {queue[0]}, k, n - 1);
      RemainingOneMore(es, start, seen, k, queue[0], VisitOrder(es, queue[1..] + Sources(es, queue[0]), seen + {queue[0]}));
    }
  }

  lemma NothingRemains(es: seq<Edge>, start: string, seen: set<string>)
    requires forall d: nat :: Within(es, start, d) <= seen
    ensures Remaining(es, start, seen, [])
  {
  }

  lemma FrontIsNear(es: seq<Edge>, start: string, queue: seq<string>, seen: set<string>, k: nat, n: nat)
    requires n > 0 && Searching(es, start, queue, seen, k, n)
    ensures k >= 1 && Within(es, start, k - 1) <= seen && queue[0] in Within(es, start, k)
  {
    hide Within;
    assert queue[0] in SetOf(queue[..n]);
  }

  lemma OrderIsBreadthFirst(es: seq<Edge>, start: string)
    ensures BreadthFirst(es, start, Order(es, start))
  {
    hide VisitOrder, Upstream;
    var queue := Sources(es, start);
    assert queue[..|queue|] == queue && queue[|queue|..] == [];
    FirstWithin(es, start);
    SourcesAreNames(es, start);
    VisitOrderRemains(es, start, queue, {}, 1, |queue|);
    var order := Order(es, start);
    forall x ensures x in order <==> Upstream(es, x, start) {
      UpstreamIffWithin(es, start, x);
      if AtSomeDistance(es, start, x) {
        var d: nat :| x in Within(es, start, d);
        assert x in SetOf(order);
      }
    }
  }

  // ----- the result of the search -----

  /** A node that ends the search, with a contract or without one. */
  predicate Decisive(nodes: seq<Node>, id: string) {
    LineageAccepts(nodes, id) || LineageGivesUp(nodes, id)
  }

  function FirstDecision(nodes: seq<Node>, order: seq<string>): Option<Fields> {
    if order == [] then None
    else if LineageAccepts(nodes, order[0]) then Some(FieldsOf(nodes, order[0]))
    else if LineageGivesUp(nodes, order[0]) then None
    else FirstDecision(nodes, order[1..])
  }

  function LineageResult(nodes: seq<Node>, es: seq<Edge>, start: string): Option<Fields> {
    FirstDecision(nodes, Order(es, start))
  }

  /** The first decisive node of the order. */
  ghost predicate DecidesAt(nodes: seq<Node>, order: seq<string>, i: nat) {
    i < |order| && Decisive(nodes, order[i]) && forall j :: 0 <= j < i ==> !Decisive(nodes, order[j])
  }

  ghost predicate AcceptsAt(nodes: seq<Node>, order: seq<string>, i: nat, fields: Fields) {
    DecidesAt(nodes, order, i) && LineageAccepts(nodes, order[i]) && fields == FieldsOf(nodes, order[i])
  }

  lemma {:induction false} FirstDecisionExact(nodes: seq<Node>, order: seq<string>)
    ensures var r := FirstDecision(nodes, order);
            && (r.Some? ==> exists i: nat :: AcceptsAt(nodes, order, i, r.value))
            && (forall i: nat :: DecidesAt(nodes, order, i) && LineageAccepts(nodes, order[i]) ==> r.Some?)
  {
    hide LineageAccepts, LineageGivesUp, FieldsOf;
    var r := FirstDecision(nodes, order);
    if order == [] {
    } else if Decisive(nodes, order[0]) {
      if r.Some? {
        assert AcceptsAt(nodes, order, 0, r.value);
      }
    } else {
      FirstDecisionExact(nodes, order[1..]);
      if r.Some? {
        var i: nat :| AcceptsAt(nodes, order[1..], i, r.value);
        assert AcceptsAt(nodes, order, i + 1, r.value);
      }
      forall i: nat | DecidesAt(nodes, order, i) && LineageAccepts(nodes, order[i]) ensures r.Some? {
        if i > 0 {
          assert DecidesAt(nodes, order[1..], i - 1);
        }
      }
    }
  }

  /**
    The lineage search finds a contract exactly when the first decisive node upstream, nearest
    first, has a schema it can read, and then it returns that schema.
   */
  lemma LineageResultExact(nodes: seq<Node>, es: seq<Edge>, start: string)
    ensures var order, r := Order(es, start), LineageResult(nodes, es, start);
            && BreadthFirst(es, start, order)
            && (r.Some? ==> exists i: nat :: AcceptsAt(nodes, order, i, r.value))
            && (forall i: nat :: DecidesAt(nodes, order, i) && LineageAccepts(nodes, order[i]) ==> r.Some?)
  {
    OrderIsBreadthFirst(es, start);
    hide Order, FirstDecision;
    FirstDecisionExact(nodes, Order(es, start));
  }

  /**
    The loop over the queue. The first decisive node upstream, nearest first, settles the answer:
    its schema if that can be read, nothing if not.
   */
  method UpstreamContract(nodes: seq<Node>, es: seq<Edge>, start: string)
      returns (r: Option<Fields>)
    ensures r == LineageResult(nodes, es, start) && BreadthFirst(es, start, Order(es, start))
    ensures r.Some? ==> exists i: nat :: AcceptsAt(nodes, Order(es, start), i, r.value)
    ensures r.None? ==> forall i: nat :: DecidesAt(nodes, Order(es, start), i) ==> LineageGivesUp(nodes, Order(es, start)[i])
  {
    hide Sources, LineageAccepts, LineageGivesUp, BreadthFirst;
    LineageResultExact(nodes, es, start);
    var incoming := LinkSources(es);
    var queue := Lookup(incoming, start);
    var seen: set<string> := {};
    SourcesAreNames(es, start);
    while |queue| > 0
      invariant seen <= Names(es) && forall x :: x in queue ==> x in Names(es)
      invariant LineageResult(nodes, es, start) == FirstDecision(nodes, VisitOrder(es, queue, seen))
      decreases Names(es) - seen, |queue|
    {
      var id := queue[0];
      if id in seen {
        queue := queue[1..];
        continue;
      }
      SourcesAreNames(es, id);
      ghost var rest := VisitOrder(es, queue[1..] + Lookup(incoming, id), seen + {id});
      assert ([id] + rest)[1..] == rest;
      if LineageAccepts(nodes, id) {
        return Some(FieldsOf(nodes, id));
      }
      if LineageGivesUp(nodes, id) {
        return None;
      }
      seen := seen + {id};
      queue := queue[1..] + Lookup(incoming, id);
    }
    return None;
  }

  // ----- what depends on the order of the edges -----

  ghost predicate Reorders(es: seq<Edge>, es2: seq<Edge>) {
    multiset(es2) == multiset(es)
  }

  ghost predicate SameMembers(es: seq<Edge>, es2: seq<Edge>) {
    forall e :: e in es <==> e in es2
  }

  lemma SourcesSame(es: seq<Edge>, es2: seq<Edge>, x: string)
    requires SameMembers(es, es2)
    ensures SetOf(Sources(es, x)) == SetOf(Sources(es2, x))
  {
    hide Sources;
    forall y ensures y in Sources(es, x) <==> y in Sources(es2, x) {
      assert Edge(y, x) in es <==> Edge(y, x) in es2;
    }
  }

  lemma AboveSame(es: seq<Edge>, es2: seq<Edge>, near: set<string>)
    requires SameMembers(es, es2)
    ensures Above(es, near) == Above(es2, near)
  {
  }

  lemma WithinIs(es: seq<Edge>, start: string, d: nat)
    ensures d == 0 ==> Within(es, start, d) == {}
    ensures d > 0 ==> Within(es, start, d) == Within(es, start, d - 1) + SetOf(Sources(es, start)) + Above(es, Within(es, start, d - 1))
  {
  }

  lemma {:induction false} WithinSame(es: seq<Edge>, es2: seq<Edge>, start: string, d: nat)
    requires SameMembers(es, es2)
    ensures Within(es, start, d) == Within(es2, start, d)
  {
    hide Sources, SetOf, Above, SameMembers, Within;
    WithinIs(es, start, d);
    WithinIs(es2, start, d);
    if d > 0 {
      WithinSame(es, es2, start, d - 1);
      SourcesSame(es, es2, start);
      AboveSame(es, es2, Within(es, start, d - 1));
    }
  }

  /** The edges that satisfy or do not satisfy a membership. */
  function Chosen(es: seq<Edge>, chosen: set<Edge>, take: bool): seq<Edge> {
    if es == [] then []
    else Chosen(es[..|es| - 1], chosen, take) + (if (es[|es| - 1] in chosen) == take then [es[|es| - 1]] else [])
  }

  lemma {:induction false} ChosenReorders(es: seq<Edge>, chosen: set<Edge>)
    ensures Reorders(es, Chosen(es, chosen, true) + Chosen(es, chosen, false))
    ensures forall e :: e in Chosen(es, chosen, true) <==> e in es && e in chosen
  {
    if es != [] {
      ChosenReorders(es[..|es| - 1], chosen);
      assert es == es[..|es| - 1] + [es[|es| - 1]];
    }
  }

  lemma {:induction false} SourcesJoin(a: seq<Edge>, b: seq<Edge>, x: string)
    ensures Sources(a + b, x) == Sources(a, x) + Sources(b, x)
  {
    if b == [] {
      assert a + b == a;
    } else {
      var n := |b| - 1;
      SourcesJoin(a, b[..n], x);
      assert (a + b)[..|a + b| - 1] == a + b[..n];
    }
  }

  /** A shortest path down to `start`: each node is one step nearer than the one before it. */
  ghost predicate Shortest(es: seq<Edge>, p: seq<string>) {
    && |p| >= 2 && IsPath(es, p)
    && forall j :: 0 <= j < |p| - 1 ==> Closest(es, p[|p| - 1], p[j], |p| - 1 - j)
  }

  ghost predicate Closest(es: seq<Edge>, start: string, x: string, d: nat) {
    d >= 1 && x in Within(es, start, d) && x !in Within(es, start, d - 1)
  }

  lemma OneStepNearer(es: seq<Edge>, start: string, x: string, d: nat) returns (e: Edge)
    requires d > 1 && Closest(es, start, x, d)
    ensures e in es && e.source == x && Closest(es, start, e.target, d - 1)
  {
    WithinGrows(es, start, 1, d - 1);
    FirstWithin(es, start);
    hide Sources;
    e :| e in es && e.target in Within(es, start, d - 1) && e.source == x;
  }

  lemma ClosestIsAway(es: seq<Edge>, start: string, x: string, d: nat)
    requires Closest(es, start, x, d)
    ensures d >= 1
  {
  }

  lemma ShortestEdge(es: seq<Edge>, start: string, x: string)
    requires Closest(es, start, x, 1)
    ensures Shortest(es, [x, start])
  {
    FirstWithin(es, start);
    assert Edge(x, start) in es;
  }

  lemma ShortestOneMore(es: seq<Edge>, e: Edge, q: seq<string>)
    requires Shortest(es, q) && e in es && e.target == q[0] && Closest(es, q[|q| - 1], e.source, |q|)
    ensures Shortest(es, [e.source] + q)
  {
    hide Closest;
    PathPrepend(es, e, q);
    hide IsPath;
    var p := [e.source] + q;
    forall j | 0 <= j < |p| - 1 ensures Closest(es, p[|p| - 1], p[j], |p| - 1 - j) {
      if j > 0 {
        assert p[j] == q[j - 1];
      }
    }
  }

  lemma {:induction false} ShortestPath(es: seq<Edge>, start: string, x: string, d: nat) returns (p: seq<string>)
    requires Closest(es, start, x, d)
    ensures Shortest(es, p) && |p| == d + 1 && p[0] == x && p[d] == start
    decreases d
  {
    hide Closest, IsPath, Shortest, Within;
    ClosestIsAway(es, start, x, d);
    if d == 1 {
      ShortestEdge(es, start, x);
      p := [x, start];
    } else {
      var e := OneStepNearer(es, start, x, d);
      var q := ShortestPath(es, start, e.target, d - 1);
      ShortestOneMore(es, e, q);
      p := [x] + q;
    }
  }

  /** Each node of the path comes first among the sources of the next. */
  ghost predicate LeadsAt(es: seq<Edge>, p: seq<string>, j: nat)
    requires j < |p| - 1
  {
    Sources(es, p[j + 1]) != [] && Sources(es, p[j + 1])[0] == p[j]
  }

  ghost predicate Leads(es: seq<Edge>, p: seq<string>) {
    forall j :: 0 <= j < |p| - 1 ==> LeadsAt(es, p, j)
  }

  ghost function EdgeAt(p: seq<string>, j: nat): Edge
    requires j < |p| - 1
  {
    Edge(p[j], p[j + 1])
  }

  ghost function EdgesOf(p: seq<string>): set<Edge> {
    set j | 0 <= j < |p| - 1 :: EdgeAt(p, j)
  }

  lemma EdgeIn(es: seq<Edge>, p: seq<string>, j: nat)
    requires IsPath(es, p) && j < |p| - 1
    ensures EdgeAt(p, j) in es && EdgeAt(p, j) in EdgesOf(p)
  {
    assert Edge(p[j + 1 - 1], p[j + 1]) in es;
  }

  lemma CloserDiffers(es: seq<Edge>, start: string, x: string, d: nat, y: string, e: nat)
    requires Closest(es, start, x, d) && Closest(es, start, y, e) && d < e
    ensures x != y
  {
    hide Within;
    WithinGrows(es, start, d, e - 1);
  }

  lemma NotBeforeStart(es: seq<Edge>, start: string, x: string, d: nat)
    requires Closest(es, start, x, d) && d > 1
    ensures Edge(x, start) !in es
  {
    FirstWithin(es, start);
    hide Within;
    WithinGrows(es, start, 1, d - 1);
  }

  lemma TargetsDiffer(es: seq<Edge>, p: seq<string>, i: nat, j: nat)
    requires Shortest(es, p) && i < j < |p| - 1
    ensures p[i + 1] != p[j + 1]
  {
    hide Closest;
    var n := |p| - 1;
    var start := p[n];
    EdgeIn(es, p, i);
    hide IsPath;
    assert Closest(es, start, p[i], n - i) && Closest(es, start, p[i + 1], n - (i + 1));
    if j + 1 < n {
      assert Closest(es, start, p[j + 1], n - (j + 1));
      CloserDiffers(es, start, p[j + 1], n - (j + 1), p[i + 1], n - (i + 1));
    } else {
      NotBeforeStart(es, start, p[i], n - i);
    }
  }

  /** With the edges of the path moved to the front it leads. */
  lemma PathFirst(es: seq<Edge>, p: seq<string>) returns (es2: seq<Edge>)
    requires Shortest(es, p)
    ensures Reorders(es, es2) && Leads(es2, p)
  {
    hide Shortest;
    var front := Chosen(es, EdgesOf(p), true);
    var back := Chosen(es, EdgesOf(p), false);
    es2 := front + back;
    ChosenReorders(es, EdgesOf(p));
    forall j | 0 <= j < |p| - 1 ensures LeadsAt(es2, p, j) {
      OnlySource(es, p, front, j);
      SourcesJoin(front, back, p[j + 1]);
    }
  }

  lemma OnlySource(es: seq<Edge>, p: seq<string>, front: seq<Edge>, j: nat)
    requires Shortest(es, p) && j < |p| - 1
    requires forall e :: e in front <==> e in es && e in EdgesOf(p)
    ensures LeadsAt(front, p, j)
  {
    hide Closest, Sources;
    EdgeIn(es, p, j);
    assert p[j] in Sources(front, p[j + 1]);
    var y := Sources(front, p[j + 1])[0];
    assert y in Sources(front, p[j + 1]);
    var i :| 0 <= i < |p| - 1 && Edge(y, p[j + 1]) == EdgeAt(p, i);
    if i < j {
      TargetsDiffer(es, p, i, j);
    } else if j < i {
      TargetsDiffer(es, p, j, i);
    }
  }

  ghost predicate AllWithin(es: seq<Edge>, start: string, xs: seq<string>, d: nat) {
    forall x :: x in xs ==> x in Within(es, start, d)
  }

  /** No node up to distance `d` decides the search. */
  ghost predicate Undecided(nodes: seq<Node>, es: seq<Edge>, start: string, d: nat) {
    forall x :: x in Within(es, start, d) ==> !Decisive(nodes, x)
  }

  /** While a leading path is under way its next node stands first among those of its distance. */
  lemma {:induction false} LeadDecides(nodes: seq<Node>, es: seq<Edge>, p: seq<string>, k: nat,
                                       near: seq<string>, far: seq<string>, seen: set<string>)
    requires Shortest(es, p) && Leads(es, p) && k < |p| - 1
    requires Undecided(nodes, es, p[|p| - 1], |p| - 2) && Decisive(nodes, p[0])
    requires forall x :: x in near + [p[k]] + far ==> x in Names(es)
    requires AllWithin(es, p[|p| - 1], near, |p| - 2 - k) && seen <= Within(es, p[|p| - 1], |p| - 2 - k)
    requires AllWithin(es, p[|p| - 1], far, |p| - 1 - k)
    ensures FirstDecision(nodes, VisitOrder(es, near + [p[k]] + far, seen))
         == if LineageAccepts(nodes, p[0]) then Some(FieldsOf(nodes, p[0])) else None
    decreases k, Names(es) - seen, |near|
  {
    hide Within, Sources, LineageAccepts, LineageGivesUp;
    var n := |p| - 1;
    var start := p[n];
    var queue := near + [p[k]] + far;
    var id := queue[0];
    SourcesAreNames(es, id);
    var order := VisitOrder(es, queue, seen);
    assert Closest(es, start, p[k], n - k);
    if near == [] {
      assert queue[1..] == far;
      assert order == [id] + VisitOrder(es, far + Sources(es, id), seen + {id});
      if k > 0 {
        WithinGrows(es, start, n - k, n - 1);
        assert !Decisive(nodes, id);
        SourcesAreCloser(es, start, id, n - k);
        WithinGrows(es, start, n - k - 1, n - k);
        assert LeadsAt(es, p, k - 1);
        var more := Sources(es, id)[1..];
        assert far + Sources(es, id) == far + [p[k - 1]] + more;
        LeadDecides(nodes, es, p, k - 1, far, more, seen + {id});
        assert order[1..] == VisitOrder(es, far + [p[k - 1]] + more, seen + {id});
      }
    } else {
      assert queue[1..] == near[1..] + [p[k]] + far;
      if id in seen {
        LeadDecides(nodes, es, p, k, near[1..], far, seen);
      } else {
        WithinGrows(es, start, n - k - 1, n - 1);
        assert !Decisive(nodes, id);
        SourcesAreCloser(es, start, id, n - k - 1);
        var more := far + Sources(es, id);
        assert queue[1..] + Sources(es, id) == near[1..] + [p[k]] + more;
        LeadDecides(nodes, es, p, k, near[1..], more, seen + {id});
        assert order[1..] == VisitOrder(es, near[1..] + [p[k]] + more, seen + {id});
      }
    }
  }

  lemma ShortestSame(es: seq<Edge>, es2: seq<Edge>, p: seq<string>)
    requires Shortest(es, p) && SameMembers(es, es2)
    ensures Shortest(es2, p)
  {
    hide Within;
    var n := |p| - 1;
    forall j | 0 <= j < n ensures Closest(es2, p[n], p[j], n - j) {
      assert Closest(es, p[n], p[j], n - j);
      WithinSame(es, es2, p[n], n - j);
      WithinSame(es, es2, p[n], n - j - 1);
    }
  }

  lemma SameEdges(es: seq<Edge>, es2: seq<Edge>)
    requires Reorders(es, es2)
    ensures SameMembers(es, es2)
  {
    assert forall e :: e in es <==> e in multiset(es);
    assert forall e :: e in es2 <==> e in multiset(es2);
  }

  lemma UndecidedSame(nodes: seq<Node>, es: seq<Edge>, es2: seq<Edge>, start: string, d: nat)
    requires Reorders(es, es2) && Undecided(nodes, es, start, d)
    ensures Undecided(nodes, es2, start, d)
  {
    SameEdges(es, es2);
    WithinSame(es, es2, start, d);
  }

  /** Any of the nearest decisive nodes decides the search in some order of the edges. */
  lemma SomeOrderDecides(nodes: seq<Node>, es: seq<Edge>, start: string, x: string, d: nat) returns (es2: seq<Edge>)
    requires Closest(es, start, x, d) && Decisive(nodes, x) && Undecided(nodes, es, start, d - 1)
    ensures Reorders(es, es2)
    ensures LineageResult(nodes, es2, start) == if LineageAccepts(nodes, x) then Some(FieldsOf(nodes, x)) else None
  {
    hide Decisive, Undecided, Shortest, LineageAccepts, VisitOrder, Within, FirstDecision;
    var p := ShortestPath(es, start, x, d);
    es2 := PathFirst(es, p);
    SameEdges(es, es2);
    ShortestSame(es, es2, p);
    UndecidedSame(nodes, es, es2, start, d - 1);
    var queue := Sources(es2, start);
    SourcesAreNames(es2, start);
    assert LeadsAt(es2, p, d - 1);
    hide Sources;
    var far := queue[1..];
    assert queue == [] + [p[d - 1]] + far;
    FirstWithin(es2, start);
    LeadDecides(nodes, es2, p, d - 1, [], far, {});
  }

  lemma NothingAtZero(es: seq<Edge>, start: string, d: nat)
    requires Within(es, start, d) != {}
    ensures d > 0
  {
  }

  /** The nearest of some nodes, of which `y` is one. */
  lemma {:induction false} Nearest(es: seq<Edge>, start: string, wanted: set<string>, y: string, d: nat) returns (x: string, n: nat)
    requires y in wanted && y in Within(es, start, d)
    ensures x in wanted && Closest(es, start, x, n) && n <= d
    ensures forall z :: z in Within(es, start, n - 1) ==> z !in wanted
    decreases d
  {
    hide Within;
    NothingAtZero(es, start, d);
    if z :| z in Within(es, start, d - 1) && z in wanted {
      x, n := Nearest(es, start, wanted, z, d - 1);
    } else {
      x, n := y, d;
    }
  }

  lemma {:induction false} FirstDecisive(nodes: seq<Node>, order: seq<string>, i: nat) returns (j: nat)
    requires i < |order| && Decisive(nodes, order[i])
    ensures j <= i && DecidesAt(nodes, order, j)
    decreases i
  {
    hide Decisive;
    if k :| 0 <= k < i && Decisive(nodes, order[k]) {
      j := FirstDecisive(nodes, order, k);
    } else {
      j := i;
    }
  }

  ghost predicate AcceptedWithin(nodes: seq<Node>, es: seq<Edge>, start: string, d: nat) {
    exists c :: c in Within(es, start, d) && LineageAccepts(nodes, c)
  }

  ghost predicate ReadableWithin(nodes: seq<Node>, es: seq<Edge>, start: string, d: nat) {
    forall x :: x in Within(es, start, d) ==> !LineageGivesUp(nodes, x)
  }

  lemma FoundWithin(nodes: seq<Node>, es: seq<Edge>, start: string, d: nat)
    requires AcceptedWithin(nodes, es, start, d) && ReadableWithin(nodes, es, start, d)
    ensures LineageResult(nodes, es, start).Some?
  {
    LineageResultExact(nodes, es, start);
    hide LineageResult, Order, Within, LineageAccepts, LineageGivesUp, Upstream, Distinct;
    var order := Order(es, start);
    var c :| c in Within(es, start, d) && LineageAccepts(nodes, c);
    UpstreamIffWithin(es, start, c);
    var i: nat :| i < |order| && order[i] == c;
    var j := FirstDecisive(nodes, order, i);
    assert order[j] in Within(es, start, d);
  }

  /** The search returns a nearest decisive node. */
  lemma DecidedNearest(nodes: seq<Node>, es: seq<Edge>, start: string, order: seq<string>, i: nat, n: nat)
    requires BreadthFirst(es, start, order) && DecidesAt(nodes, order, i) && Closest(es, start, order[i], n)
    ensures Undecided(nodes, es, start, n - 1)
  {
    hide Within, Decisive, Upstream, Distinct;
    forall y | y in Within(es, start, n - 1) ensures !Decisive(nodes, y) {
      UpstreamIffWithin(es, start, y);
      var j: nat :| j < |order| && order[j] == y;
    }
  }

  ghost predicate FoundAlways(nodes: seq<Node>, es: seq<Edge>, start: string) {
    forall es2 :: Reorders(es, es2) ==> LineageResult(nodes, es2, start).Some?
  }

  ghost predicate FoundSometimes(nodes: seq<Node>, es: seq<Edge>, start: string) {
    exists es2 :: Reorders(es, es2) && LineageResult(nodes, es2, start).Some?
  }

  /** What was found in one order of the edges is a nearest decisive node. */
  lemma FoundIsNearest(nodes: seq<Node>, es: seq<Edge>, start: string) returns (x: string, n: nat)
    requires LineageResult(nodes, es, start).Some?
    ensures Closest(es, start, x, n) && LineageAccepts(nodes, x) && Undecided(nodes, es, start, n - 1)
    ensures LineageResult(nodes, es, start) == Some(FieldsOf(nodes, x))
  {
    LineageResultExact(nodes, es, start);
    hide LineageResult, Order, Within, LineageAccepts, Upstream, Distinct, NearestFirst;
    var order := Order(es, start);
    var i: nat :| AcceptsAt(nodes, order, i, LineageResult(nodes, es, start).value);
    x := order[i];
    UpstreamIffWithin(es, start, x);
    var d: nat :| x in Within(es, start, d);
    var y;
    y, n := Nearest(es, start, {x}, x, d);
    DecidedNearest(nodes, es, start, order, i, n);
  }

  /**
    A contract is found whatever the order of the edges exactly when at some distance there is a
    readable contract and up to there no unparsable one.
   */
  lemma FoundInEveryOrder(nodes: seq<Node>, es: seq<Edge>, start: string)
    ensures FoundAlways(nodes, es, start) <==>
            exists d: nat :: AcceptedWithin(nodes, es, start, d) && ReadableWithin(nodes, es, start, d)
  {
    hide LineageResult, Within, LineageAccepts, LineageGivesUp;
    if d: nat :| AcceptedWithin(nodes, es, start, d) && ReadableWithin(nodes, es, start, d) {
      forall es2 | Reorders(es, es2) ensures LineageResult(nodes, es2, start).Some? {
        SameEdges(es, es2);
        WithinSame(es, es2, start, d);
        FoundWithin(nodes, es2, start, d);
      }
    }
    if FoundAlways(nodes, es, start) {
      assert Reorders(es, es);
      var x, n := FoundIsNearest(nodes, es, start);
      assert AcceptedWithin(nodes, es, start, n);
      if bad :| bad in Within(es, start, n) && LineageGivesUp(nodes, bad) {
        assert Decisive(nodes, bad);
        GivesUpNotAccepts(nodes, bad);
        var es2 := SomeOrderDecides(nodes, es, start, bad, n);
      }
      assert ReadableWithin(nodes, es, start, n);
    }
  }

  lemma GivesUpNotAccepts(nodes: seq<Node>, x: string)
    requires LineageGivesUp(nodes, x)
    ensures !LineageAccepts(nodes, x)
  {
  }

  /** In some order of the edges one is found exactly when no unparsable text is nearer than it. */
  lemma FoundInSomeOrder(nodes: seq<Node>, es: seq<Edge>, start: string)
    ensures FoundSometimes(nodes, es, start) <==>
            exists d: nat :: AcceptedWithin(nodes, es, start, d + 1) && ReadableWithin(nodes, es, start, d)
  {
    hide LineageResult, Within, LineageAccepts, LineageGivesUp;
    if d: nat :| AcceptedWithin(nodes, es, start, d + 1) && ReadableWithin(nodes, es, start, d) {
      var accepted := set y | y in Within(es, start, d + 1) && LineageAccepts(nodes, y);
      var c :| c in Within(es, start, d + 1) && LineageAccepts(nodes, c);
      var x, n := Nearest(es, start, accepted, c, d + 1);
      WithinGrows(es, start, n - 1, d);
      WithinGrows(es, start, d, d + 1);
      forall y | y in Within(es, start, n - 1) ensures !Decisive(nodes, y) {
        assert y !in accepted;
      }
      var es2 := SomeOrderDecides(nodes, es, start, x, n);
      assert Reorders(es, es2) && LineageResult(nodes, es2, start).Some?;
    }
    if es2 :| Reorders(es, es2) && LineageResult(nodes, es2, start).Some? {
      var x, n := FoundIsNearest(nodes, es2, start);
      SameEdges(es, es2);
      WithinSame(es, es2, start, n);
      WithinSame(es, es2, start, n - 1);
      assert AcceptedWithin(nodes, es, start, n - 1 + 1);
      assert ReadableWithin(nodes, es, start, n - 1);
    }
  }

  // ----- both searches -----

  ghost predicate HasLineageContract(nodes: seq<Node>, es: seq<Edge>, id: string) {
    exists c :: LineageAccepts(nodes, c) && Upstream(es, c, id)
  }

  ghost predicate HasBadText(nodes: seq<Node>, es: seq<Edge>, id: string) {
    exists c :: LineageGivesUp(nodes, c) && Upstream(es, c, id)
  }

  lemma ContractIsFound(nodes: seq<Node>, es: seq<Edge>, id: string)
    requires HasLineageContract(nodes, es, id) && !HasBadText(nodes, es, id)
    ensures LineageResult(nodes, es, id).Some?
  {
    hide Upstream, Within, LineageAccepts, LineageGivesUp, LineageResult;
    var c :| LineageAccepts(nodes, c) && Upstream(es, c, id);
    UpstreamIffWithin(es, id, c);
    var d: nat :| c in Within(es, id, d);
    forall x | x in Within(es, id, d) ensures !LineageGivesUp(nodes, x) {
      UpstreamIffWithin(es, id, x);
    }
    FoundWithin(nodes, es, id, d);
  }

  lemma FoundIsUpstream(nodes: seq<Node>, es: seq<Edge>, id: string)
    requires LineageResult(nodes, es, id).Some?
    ensures HasLineageContract(nodes, es, id)
  {
    hide Upstream, Within, LineageAccepts, LineageResult, Undecided;
    var x, n := FoundIsNearest(nodes, es, id);
    UpstreamIffWithin(es, id, x);
  }

  /**
    Both searches on one definition. With no unparsable text upstream the lineage code finds a
    contract exactly when there is one, so it finds one whenever the server does; the server in
    turn misses only contracts given as text.
   */
  method CompareSearches(nodes: seq<Node>, es: seq<Edge>, id: string) returns (server: Option<Fields>, lineage: Option<Fields>)
    ensures server.Some? <==> HasContract(nodes, es, id)
    ensures lineage == LineageResult(nodes, es, id) && (lineage.Some? ==> HasLineageContract(nodes, es, id))
    ensures !HasBadText(nodes, es, id) ==> (lineage.Some? <==> HasLineageContract(nodes, es, id))
    ensures !HasBadText(nodes, es, id) && server.Some? ==> lineage.Some?
    ensures lineage.Some? && server.None? ==> forall c :: LineageAccepts(nodes, c) && Upstream(es, c, id) ==> NodeOf(nodes, c).value.schema.ObjectText?
  {
    hide Upstream, LineageResult, HasBadText, LineageGivesUp;
    var incoming := LinkSources(es);
    server := ServerSearch(nodes, es, incoming, id);
    lineage := UpstreamContract(nodes, es, id);
    if lineage.Some? {
      FoundIsUpstream(nodes, es, id);
    }
    if HasLineageContract(nodes, es, id) && !HasBadText(nodes, es, id) {
      ContractIsFound(nodes, es, id);
    }
  }

  /** A contract and an unparsable one at the same distance: which edge comes first decides. */
  lemma SiblingHidesContract()
    ensures var nodes := [Node("good", false, true, ObjectSchema(map[])), Node("bad", false, true, BadText)];
            var badFirst, goodFirst := [Edge("bad", "sink"), Edge("good", "sink")], [Edge("good", "sink"), Edge("bad", "sink")];
            && HasContract(nodes, badFirst, "sink") && LineageResult(nodes, badFirst, "sink") == None
            && Reorders(badFirst, goodFirst) && LineageResult(nodes, goodFirst, "sink") == Some(map[])
  {
    var nodes := [Node("good", false, true, ObjectSchema(map[])), Node("bad", false, true, BadText)];
    var badFirst, goodFirst := [Edge("bad", "sink"), Edge("good", "sink")], [Edge("good", "sink"), Edge("bad", "sink")];
    assert nodes[..1] == [nodes[0]];
    assert NodeOf(nodes, "good") == Some(nodes[0]) && NodeOf(nodes, "bad") == Some(nodes[1]);
    hide NodeOf, LineageResult, Upstream;
    UpstreamDirect(badFirst, "good", "sink");
    assert ServerAccepts(nodes, "good");
    FirstSourceDecides(nodes, "bad", "good", "sink");
    FirstSourceDecides(nodes, "good", "bad", "sink");
    assert badFirst == [badFirst[0]] + [badFirst[1]] && goodFirst == [badFirst[1]] + [badFirst[0]];
  }

  lemma FirstSourceDecides(nodes: seq<Node>, a: string, b: string, x: string)
    requires Decisive(nodes, a)
    ensures LineageResult(nodes, [Edge(a, x), Edge(b, x)], x) ==
            if LineageAccepts(nodes, a) then Some(FieldsOf(nodes, a)) else None
  {
    var es := [Edge(a, x), Edge(b, x)];
    assert es[..1] == [es[0]] && es[..1][..0] == [];
    assert Sources(es[..1], x) == [a];
    assert Sources(es, x) == [a, b];
    hide Sources, NodeOf;
    var order := Order(es, x);
    assert order != [] && order[0] == a;
    hide Order;
  }

  lemma SourcesNext(es: seq<Edge>, e: Edge, x: string)
    ensures Sources(es + [e], x) == Sources(es, x) + if e.target == x then [e.source] else []
  {
    assert (es + [e])[..|es|] == es;
  }

  lemma NodeOfNext(nodes: seq<Node>, n: Node, id: string)
    ensures NodeOf(nodes + [n], id) == if n.id == id then Some(n) else NodeOf(nodes, id)
  {
    assert (nodes + [n])[..|nodes|] == nodes;
  }

  /** A contract given as text is found by the lineage search only; of two nodes with one id the later counts. */
  lemma TextIsFoundOnce(fields: Fields)
    ensures var nodes := [Node("c", false, true, BadText)] + [Node("c", false, true, ObjectText(fields))];
            var es := [Edge("c", "s")];
            LineageResult(nodes, es, "s") == Some(fields) && !HasContract(nodes, es, "s")
  {
    var nodes := [Node("c", false, true, BadText)] + [Node("c", false, true, ObjectText(fields))];
    var es := [] + [Edge("c", "s")];
    forall x ensures !ServerAccepts(nodes, x) && (x == "c" ==> NodeOf(nodes, x) == Some(nodes[1])) {
      NodeOfNext([nodes[0]], nodes[1], x);
      NodeOfNext([], nodes[0], x);
      assert [] + [nodes[0]] == [nodes[0]];
    }
    SourcesNext([], Edge("c", "s"), "s");
    assert Sources(es, "s") == ["c"];
    SourcesAreNames(es, "s");
    hide Sources, NodeOf;
    var order := Order(es, "s");
    assert order != [] && order[0] == "c";
    hide Order, Upstream;
  }

  /** Schemas that are neither objects nor text, and nodes that are no contracts, are passed over. */
  lemma OthersArePassed(fields: Fields)
    ensures var nodes := [Node("plain", false, false, ObjectSchema(map[]))] + [Node("list", false, true, OtherSchema)] + [Node("c", false, true, ObjectSchema(fields))];
            var es := [Edge("plain", "s")] + [Edge("list", "plain")] + [Edge("c", "list")];
            LineageResult(nodes, es, "s") == Some(fields) && HasContract(nodes, es, "s")
  {
    var nodes := [Node("plain", false, false, ObjectSchema(map[]))] + [Node("list", false, true, OtherSchema)] + [Node("c", false, true, ObjectSchema(fields))];
    var es := [Edge("plain", "s")] + [Edge("list", "plain")] + [Edge("c", "list")];
    ThreeNodes(nodes[0], nodes[1], nodes[2]);
    hide Sources, NodeOf, VisitOrder, Upstream;
    assert es[1] == Edge("list", "plain") && es[2] == Edge("c", "list");
    UpstreamDirect(es, "c", "list");
    UpstreamStep(es, "c", "list", "plain");
    UpstreamStep(es, "c", "plain", "s");
    assert ServerAccepts(nodes, "c");
    ThreeInOrder(es);
    hide Order;
    var order := Order(es, "s");
    assert order[1..] == ["list", "c"] && order[1..][1..] == ["c"];
    assert FirstDecision(nodes, ["c"]) == Some(fields);
    assert FirstDecision(nodes, ["list", "c"]) == Some(fields);
  }

  lemma ThreeNodes(a: Node, b: Node, c: Node)
    requires a.id == "plain" && b.id == "list" && c.id == "c"
    ensures var nodes := [a] + [b] + [c];
            NodeOf(nodes, "plain") == Some(a) && NodeOf(nodes, "list") == Some(b) && NodeOf(nodes, "c") == Some(c)
  {
    forall id ensures NodeOf([a] + [b] + [c], id) == if c.id == id then Some(c) else if b.id == id then Some(b) else if a.id == id then Some(a) else None {
      NodeOfNext([a] + [b], c, id);
      NodeOfNext([a], b, id);
      NodeOfNext([], a, id);
      assert [] + [a] == [a];
    }
    hide NodeOf;
  }

  lemma ThreeEdges(es: seq<Edge>)
    requires es == [Edge("plain", "s")] + [Edge("list", "plain")] + [Edge("c", "list")]
    ensures Sources(es, "s") == ["plain"] && Sources(es, "plain") == ["list"] && Sources(es, "list") == ["c"] && Sources(es, "c") == []
  {
    forall x ensures Sources(es, x) == (if x == "s" then ["plain"] else []) + (if x == "plain" then ["list"] else []) + if x == "list" then ["c"] else [] {
      SourcesNext([Edge("plain", "s")] + [Edge("list", "plain")], Edge("c", "list"), x);
      SourcesNext([Edge("plain", "s")], Edge("list", "plain"), x);
      SourcesNext([], Edge("plain", "s"), x);
      assert [] + [Edge("plain", "s")] == [Edge("plain", "s")];
    }
    hide Sources;
  }

  lemma ThreeInOrder(es: seq<Edge>)
    requires es == [Edge("plain", "s")] + [Edge("list", "plain")] + [Edge("c", "list")]
    ensures Order(es, "s") == ["plain", "list", "c"]
  {
    ThreeEdges(es);
    hide Sources;
    SourcesAreNames(es, "s");
    SourcesAreNames(es, "plain");
    SourcesAreNames(es, "list");
    SourcesAreNames(es, "c");
    assert ["c"][1..] + [] == [] && ["list"][1..] + ["c"] == ["c"] && ["plain"][1..] + ["list"] == ["list"];
    assert VisitOrder(es, ["c"], {"plain", "list"}) == ["c"];
    assert {"plain"} + {"list"} == {"plain", "list"};
    assert VisitOrder(es, ["list"], {"plain"}) == ["list"] + ["c"];
    assert {} + {"plain"} == {"plain"};
  }
}
