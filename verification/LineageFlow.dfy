/**
  The layered layout of the lineage page (`buildFlow` in lineageFlow.tsx): longest-path ranks by
  Kahn's algorithm, barycenter sweeps over the columns, then card positions. Columns are sequences
  of node ids from left to right; a node's rank is the number of its column. Positions are real
  numbers and every card has a fixed size by kind. On a cyclic graph the ranks are whatever the
  queue reached before it ran dry, so only the parts of the layout that do not depend on the order
  of ranks are claimed there.
 */
module LineageFlow {
  import opened Graphs
  import opened Kahn

  // ----- longest-path ranks -----

  /** The longest path ending at `x` has `r` edges. */
  ghost predicate IsLongest(edges: seq<Edge>, x: string, r: nat) {
    && (exists p :: IsPath(edges, p) && p[|p| - 1] == x && |p| == r + 1)
    && (forall p :: IsPath(edges, p) && p[|p| - 1] == x ==> |p| <= r + 1)
  }

  ghost predicate Raised(rank: map<string, nat>, used: seq<Edge>, x: string) {
    x in rank && exists e :: e in used && e.target == x && e.source in rank && rank[x] == rank[e.source] + 1
  }

  /** The ranks are the maxima over the edges used so far. */
  ghost predicate RanksFor(ids: seq<string>, rank: map<string, nat>, used: seq<Edge>)
  {
    && rank.Keys == SetOf(ids)
    && (forall e :: e in used ==> e.source in rank && e.target in rank && rank[e.source] < rank[e.target])
    && (forall x :: x in rank && rank[x] > 0 ==> Raised(rank, used, x))
  }

  lemma RaiseRank(ids: seq<string>, rank: map<string, nat>, used: seq<Edge>, id: string, next: string)
    requires RanksFor(ids, rank, used) && id in rank && next in rank && id != next
    requires forall e :: e in used ==> e.source != next
    ensures RanksFor(ids, rank[next := Max(rank[next], rank[id] + 1)], used + [Edge(id, next)])
  {
    var raised, all := rank[next := Max(rank[next], rank[id] + 1)], used + [Edge(id, next)];
    assert forall e :: e in all <==> e in used || e == Edge(id, next);
    forall x | x in raised && raised[x] > 0 ensures Raised(raised, all, x) {
      if x == next && raised[x] == rank[id] + 1 {
        assert Edge(id, next) in all;
      } else {
        assert Raised(rank, used, x);
        var e :| e in used && e.target == x && e.source in rank && rank[x] == rank[e.source] + 1;
        assert e in all;
      }
    }
  }

  function Max(a: nat, b: nat): nat {
    if a < b then b else a
  }

  lemma {:induction false} PathBelowRank(ids: seq<string>, edges: seq<Edge>, rank: map<string, nat>, p: seq<string>)
    requires RanksFor(ids, rank, edges) && IsPath(edges, p) && p[|p| - 1] in rank
    ensures |p| <= rank[p[|p| - 1]] + 1
  {
    if |p| > 1 {
      assert Edge(p[|p| - 2], p[|p| - 1]) in edges;
      PathBelowRank(ids, edges, rank, p[..|p| - 1]);
    }
  }

  lemma {:induction false} PathOfRank(ids: seq<string>, edges: seq<Edge>, rank: map<string, nat>, x: string)
      returns (p: seq<string>)
    requires RanksFor(ids, rank, edges) && x in rank
    ensures IsPath(edges, p) && p[|p| - 1] == x && |p| == rank[x] + 1
    decreases rank[x]
  {
    if rank[x] == 0 {
      p := [x];
    } else {
      assert Raised(rank, edges, x);
      var e :| e in edges && e.target == x && e.source in rank && rank[x] == rank[e.source] + 1;
      p := PathOfRank(ids, edges, rank, e.source);
      PathAppend(edges, p, e);
      p := p + [x];
    }
  }

  lemma RanksAreLongest(ids: seq<string>, edges: seq<Edge>, rank: map<string, nat>)
    requires RanksFor(ids, rank, edges)
    ensures forall x :: x in ids ==> IsLongest(edges, x, rank[x])
  {
    forall x | x in ids ensures IsLongest(edges, x, rank[x]) {
      var q := PathOfRank(ids, edges, rank, x);
      forall p | IsPath(edges, p) && p[|p| - 1] == x ensures |p| <= rank[x] + 1 {
        PathBelowRank(ids, edges, rank, p);
      }
    }
  }

  /** Which edges have been used: exactly those that leave a dequeued node. */
  ghost predicate UsedBy(edges: seq<Edge>, order: seq<string>, used: seq<Edge>) {
    forall e :: e in used <==> e in edges && e.source in order
  }

  method LinkFlow(ids: seq<string>, edges: seq<Edge>)
      returns (indegree: map<string, nat>, outgoing: map<string, seq<string>>)
    requires Closed(ids, edges)
    ensures indegree.Keys == SetOf(ids)
    ensures forall x :: x in ids ==> indegree[x] == Pending(edges, {}, x)
    ensures forall x :: Lookup(outgoing, x) == Targets(edges, x)
  {
    indegree := map x | x in ids :: 0;
    outgoing := map[];
    var i := 0;
    while i < |edges|
      invariant 0 <= i <= |edges| && indegree.Keys == SetOf(ids)
      invariant forall x :: x in ids ==> indegree[x] == Pending(edges[..i], {}, x)
      invariant forall x :: Lookup(outgoing, x) == Targets(edges[..i], x)
    {
      var e := edges[i];
      ghost var next := outgoing[e.source := Lookup(outgoing, e.source) + [e.target]];
      forall x ensures Lookup(next, x) == Targets(edges[..i + 1], x) {
        TargetsNext(edges, i, x);
        assert Lookup(outgoing, x) == Targets(edges[..i], x);
      }
      forall x | x in ids
        ensures Pending(edges[..i + 1], {}, x) == Pending(edges[..i], {}, x) + (if e.target == x then 1 else 0)
      {
        PendingNext(edges, i, {}, x);
      }
      indegree := indegree[e.target := indegree[e.target] + 1];
      outgoing := outgoing[e.source := Lookup(outgoing, e.source) + [e.target]];
      i := i + 1;
    }
    assert edges[..i] == edges;
  }

  /** Ranks of all nodes; on an acyclic graph the rank is the length of the longest path ending there. */
  method LongestPathRanks(ids: seq<string>, edges: seq<Edge>) returns (rank: map<string, nat>)
    requires Distinct(ids) && Closed(ids, edges)
    ensures rank.Keys == SetOf(ids)
    ensures !HasCycle(edges) ==> RanksFor(ids, rank, edges)
  {
    hide KahnInner, KahnState, RanksFor, UsedBy, Visiting;
    var indegree, outgoing := LinkFlow(ids, edges);
    rank := map x | x in ids :: 0;
    var queue := Roots(ids, indegree);
    KahnStart(ids, edges, indegree, queue);
    ghost var used: seq<Edge> := [];
    FlatRanks(ids, edges, rank);
    assert queue[..0] == [] && queue[0..] == queue;
    var index := 0;
    while index < |queue|
      invariant 0 <= index <= |queue| && Distinct(queue)
      invariant KahnState(ids, edges, indegree, queue[..index], queue[index..])
      invariant RanksFor(ids, rank, used) && UsedBy(edges, queue[..index], used)
      decreases |ids| - index
    {
      KahnBound(ids, edges, indegree, queue[..index], queue[index..]);
      KahnDequeue(ids, edges, indegree, queue[..index], queue[index..]);
      StartVisit(ids, edges, rank, indegree, queue, used, index);
      rank, indegree, queue, used := Visit(ids, edges, rank, indegree, queue, used, index, Lookup(outgoing, queue[index]));
      EndVisit(ids, edges, rank, indegree, queue, used, index);
      index := index + 1;
    }
    assert queue[..index] == queue && queue[index..] == [];
    KahnResult(ids, edges, indegree, queue);
    RankKeys(ids, rank, used);
    if !HasCycle(edges) {
      QueueIsKnown(ids, edges, indegree, queue);
      AllUsed(ids, edges, queue, rank, used);
    }
  }

  lemma StartVisit(ids: seq<string>, edges: seq<Edge>, rank: map<string, nat>, indegree: map<string, nat>,
                   queue: seq<string>, used: seq<Edge>, index: nat)
    requires index < |queue| && Distinct(queue)
    requires KahnInner(ids, edges, indegree, queue[..index] + [queue[index..][0]], queue[index..][1..], Targets(edges, queue[index..][0]))
    requires RanksFor(ids, rank, used) && UsedBy(edges, queue[..index], used)
    ensures Visiting(ids, edges, rank, indegree, queue, used, index, [], Targets(edges, queue[index]))
  {
    hide KahnInner, RanksFor;
    assert queue[..index] + [queue[index..][0]] == queue[..index + 1] && queue[index..][1..] == queue[index + 1..];
  }

  lemma EndVisit(ids: seq<string>, edges: seq<Edge>, rank: map<string, nat>, indegree: map<string, nat>,
                 queue: seq<string>, used: seq<Edge>, index: nat)
    requires index < |queue|
    requires Visiting(ids, edges, rank, indegree, queue, used, index, Targets(edges, queue[index]), [])
    ensures Distinct(queue) && KahnState(ids, edges, indegree, queue[..index + 1], queue[index + 1..])
    ensures RanksFor(ids, rank, used) && UsedBy(edges, queue[..index + 1], used)
  {
    hide KahnInner, RanksFor, Targets;
    UsedAll(edges, queue, index, used);
  }

  lemma FlatRanks(ids: seq<string>, edges: seq<Edge>, rank: map<string, nat>)
    requires rank == map x | x in ids :: 0
    ensures RanksFor(ids, rank, []) && UsedBy(edges, [], [])
  {
  }

  lemma RankKeys(ids: seq<string>, rank: map<string, nat>, used: seq<Edge>)
    requires RanksFor(ids, rank, used)
    ensures rank.Keys == SetOf(ids)
  {
  }

  lemma QueueIsKnown(ids: seq<string>, edges: seq<Edge>, indegree: map<string, nat>, queue: seq<string>)
    requires KahnState(ids, edges, indegree, queue, [])
    ensures forall x :: x in queue ==> x in ids
  {
    assert queue + [] == queue;
  }

  lemma AllUsed(ids: seq<string>, edges: seq<Edge>, order: seq<string>, rank: map<string, nat>, used: seq<Edge>)
    requires Distinct(ids) && Distinct(order) && |order| == |ids| && (forall x :: x in order ==> x in ids)
    requires Closed(ids, edges) && UsedBy(edges, order, used) && RanksFor(ids, rank, used)
    ensures RanksFor(ids, rank, edges)
  {
    DistinctSize(ids);
    DistinctCovers(order, SetOf(ids));
    assert forall e :: e in edges ==> e.source in SetOf(ids);
    assert forall e :: e in used <==> e in edges;
    forall x | x in rank && rank[x] > 0 ensures Raised(rank, edges, x) {
      assert Raised(rank, used, x);
    }
  }

  method Roots(ids: seq<string>, indegree: map<string, nat>) returns (queue: seq<string>)
    requires Distinct(ids) && indegree.Keys == SetOf(ids)
    ensures Distinct(queue)
    ensures forall x :: x in queue <==> x in indegree && indegree[x] == 0
  {
    queue := [];
    for i := 0 to |ids|
      invariant Distinct(queue)
      invariant forall x :: x in queue <==> x in ids[..i] && indegree[x] == 0
    {
      if indegree[ids[i]] == 0 {
        assert ids[i] !in ids[..i];
        queue := queue + [ids[i]];
      }
    }
  }

  /** One node is being visited: `part` of its targets are raised, `todo` is left. */
  ghost predicate Visiting(ids: seq<string>, edges: seq<Edge>, rank: map<string, nat>, indegree: map<string, nat>,
                           queue: seq<string>, used: seq<Edge>, index: nat, part: seq<string>, todo: seq<string>)
  {
    && index < |queue| && Distinct(queue)
    && KahnInner(ids, edges, indegree, queue[..index + 1], queue[index + 1..], todo)
    && RanksFor(ids, rank, used)
    && UsedPart(edges, queue[..index], used, queue[index], part)
  }

  /** The inner loop: raises the targets of one node and queues those that become ready. */
  method Visit(ids: seq<string>, edges: seq<Edge>, rank0: map<string, nat>, indegree0: map<string, nat>,
               queue0: seq<string>, ghost used0: seq<Edge>, index: nat, targets: seq<string>)
      returns (rank: map<string, nat>, indegree: map<string, nat>, queue: seq<string>, ghost used: seq<Edge>)
    requires index < |queue0| && targets == Targets(edges, queue0[index])
    requires Visiting(ids, edges, rank0, indegree0, queue0, used0, index, [], targets)
    ensures queue0 <= queue
    ensures Visiting(ids, edges, rank, indegree, queue, used, index, targets, [])
  {
    hide Visiting;
    rank, indegree, queue, used := rank0, indegree0, queue0, used0;
    var id := queue[index];
    var j := 0;
    assert targets[..0] == [] && targets[0..] == targets;
    while j < |targets|
      invariant 0 <= j <= |targets| && queue0 <= queue
      invariant Visiting(ids, edges, rank, indegree, queue, used, index, targets[..j], targets[j..])
    {
      var next := targets[j];
      VisitStep(ids, edges, rank, indegree, queue, used, index, targets, j);
      rank := rank[next := Max(rank[next], rank[id] + 1)];
      used := used + [Edge(id, next)];
      var remaining := indegree[next] - 1;
      indegree := indegree[next := remaining];
      if remaining == 0 {
        queue := queue + [next];
      }
      j := j + 1;
    }
    assert targets[..j] == targets && targets[j..] == [];
  }

  lemma VisitStep(ids: seq<string>, edges: seq<Edge>, rank: map<string, nat>, indegree: map<string, nat>,
                  queue: seq<string>, used: seq<Edge>, index: nat, targets: seq<string>, j: nat)
    requires j < |targets| && index < |queue| && targets == Targets(edges, queue[index])
    requires Visiting(ids, edges, rank, indegree, queue, used, index, targets[..j], targets[j..])
    ensures targets[j] in rank && queue[index] in rank && targets[j] in indegree && indegree[targets[j]] > 0
    ensures var next, left := targets[j], indegree[targets[j]] - 1;
            Visiting(ids, edges, rank[next := Max(rank[next], rank[queue[index]] + 1)], indegree[next := left],
                     if left == 0 then queue + [next] else queue, used + [Edge(queue[index], next)], index,
                     targets[..j + 1], targets[j + 1..])
  {
    hide KahnInner, RanksFor, Targets;
    var id, next := queue[index], targets[j];
    KahnEdge(ids, edges, indegree, queue[..index + 1], queue[index + 1..], targets[j..]);
    NextIsOpen(ids, edges, indegree, queue, index, targets[j..]);
    RankKeys(ids, rank, used);
    forall e | e in used ensures e.source in queue {
      assert e.source in queue[..index] || e.source == queue[index];
    }
    RaiseRank(ids, rank, used, id, next);
    UsedOneMore(edges, queue[..index], used, id, targets, j);
    var longer := queue + [next];
    assert longer[..index + 1] == queue[..index + 1] && longer[index + 1..] == queue[index + 1..] + [next];
    assert longer[..index] == queue[..index];
    assert targets[j..][1..] == targets[j + 1..];
  }

  lemma NextIsOpen(ids: seq<string>, edges: seq<Edge>, indegree: map<string, nat>,
                   queue: seq<string>, index: nat, todo: seq<string>)
    requires index < |queue| && todo != []
    requires KahnInner(ids, edges, indegree, queue[..index + 1], queue[index + 1..], todo)
    ensures todo[0] !in queue && todo[0] in ids && queue[index] in ids
  {
    var next := todo[0];
    assert next in todo;
    CountInPositive(todo, next);
    assert queue[..index + 1] + queue[index + 1..] == queue;
    assert queue[index] in queue;
  }

  lemma UsedOneMore(edges: seq<Edge>, order: seq<string>, used: seq<Edge>, id: string, targets: seq<string>, j: nat)
    requires targets == Targets(edges, id) && j < |targets|
    requires UsedPart(edges, order, used, id, targets[..j])
    ensures UsedPart(edges, order, used + [Edge(id, targets[j])], id, targets[..j + 1])
  {
    TargetsAreEdges(edges, id, targets[j]);
    assert targets[..j + 1] == targets[..j] + [targets[j]];
  }

  lemma UsedAll(edges: seq<Edge>, queue: seq<string>, index: nat, used: seq<Edge>)
    requires index < |queue|
    requires UsedPart(edges, queue[..index], used, queue[index], Targets(edges, queue[index]))
    ensures UsedBy(edges, queue[..index + 1], used)
  {
    assert queue[..index + 1] == queue[..index] + [queue[index]];
    forall e | e in edges && e.source == queue[index] ensures e.target in Targets(edges, queue[index]) {
      TargetsAreEdges(edges, queue[index], e.target);
    }
  }

  ghost predicate UsedPart(edges: seq<Edge>, order: seq<string>, used: seq<Edge>, id: string, part: seq<string>) {
    forall e :: e in used <==> e in edges && (e.source in order || (e.source == id && e.target in part))
  }

  // ----- columns and sweeps -----

  /** The nodes of one rank, in node order. */
  function OfRank(ids: seq<string>, rank: map<string, nat>, r: nat): seq<string>
    requires forall x :: x in ids ==> x in rank
  {
    if ids == [] then []
    else
      var n := |ids| - 1;
      assert ids[n] in ids;
      OfRank(ids[..n], rank, r) + (if rank[ids[n]] == r then [ids[n]] else [])
  }

  method FillColumns(ids: seq<string>, rank: map<string, nat>) returns (columns: seq<seq<string>>)
    requires forall x :: x in ids ==> x in rank
    ensures forall r :: 0 <= r < |columns| ==> columns[r] == OfRank(ids, rank, r)
    ensures forall x :: x in ids ==> rank[x] < |columns|
  {
    columns := [];
    var i := 0;
    while i < |ids|
      invariant 0 <= i <= |ids|
      invariant forall r :: 0 <= r < |columns| ==> columns[r] == OfRank(ids[..i], rank, r)
      invariant forall x :: x in ids[..i] ==> rank[x] < |columns|
    {
      var id := ids[i];
      columns := Widen(columns, rank[id], ids[..i], rank);
      forall r: nat ensures OfRank(ids[..i + 1], rank, r) == OfRank(ids[..i], rank, r) + (if rank[id] == r then [id] else []) {
        assert ids[..i + 1][..i] == ids[..i];
      }
      columns := columns[rank[id] := columns[rank[id]] + [id]];
      assert ids[..i + 1] == ids[..i] + [id];
      i := i + 1;
    }
    assert ids[..i] == ids;
  }

  /** Assigning behind the end of the column list leaves empty columns in between. */
  method Widen(columns0: seq<seq<string>>, last: nat, ids: seq<string>, rank: map<string, nat>)
      returns (columns: seq<seq<string>>)
    requires forall x :: x in ids ==> x in rank && rank[x] < |columns0|
    requires forall r :: 0 <= r < |columns0| ==> columns0[r] == OfRank(ids, rank, r)
    ensures |columns| > last && |columns| >= |columns0|
    ensures forall r :: 0 <= r < |columns| ==> columns[r] == OfRank(ids, rank, r)
  {
    columns := columns0;
    while |columns| <= last
      invariant |columns| >= |columns0|
      invariant forall r :: 0 <= r < |columns| ==> columns[r] == OfRank(ids, rank, r)
    {
      NoneOfRank(ids, rank, |columns|);
      columns := columns + [[]];
    }
  }

  lemma {:induction false} NoneOfRank(ids: seq<string>, rank: map<string, nat>, r: nat)
    requires forall x :: x in ids ==> x in rank && rank[x] != r
    ensures OfRank(ids, rank, r) == []
  {
    if ids != [] {
      assert ids[|ids| - 1] in ids;
      NoneOfRank(ids[..|ids| - 1], rank, r);
    }
  }

  lemma {:induction false} OfRankMembers(ids: seq<string>, rank: map<string, nat>, r: nat)
    requires forall x :: x in ids ==> x in rank
    ensures forall x :: x in OfRank(ids, rank, r) <==> x in ids && rank[x] == r
    ensures Distinct(ids) ==> Distinct(OfRank(ids, rank, r))
  {
    if ids != [] {
      var n := |ids| - 1;
      OfRankMembers(ids[..n], rank, r);
      assert ids == ids[..n] + [ids[n]];
    }
  }

  // A barycenter is the mean index of a node's neighbours, or its own index without neighbours.
  function IndexSum(orderIndex: map<string, nat>, xs: seq<string>): real
    requires forall x :: x in xs ==> x in orderIndex
  {
    if xs == [] then 0.0 else orderIndex[xs[0]] as real + IndexSum(orderIndex, xs[1..])
  }

  function Barycenter(orderIndex: map<string, nat>, id: string, neighbours: seq<string>): real
    requires id in orderIndex && forall x :: x in neighbours ==> x in orderIndex
  {
    if neighbours == [] then orderIndex[id] as real
    else IndexSum(orderIndex, neighbours) / (|neighbours| as real)
  }

  lemma {:induction false} IndexSumJoin(orderIndex: map<string, nat>, a: seq<string>, b: seq<string>)
    requires forall x :: x in a + b ==> x in orderIndex
    ensures (forall x :: x in a ==> x in orderIndex) && (forall x :: x in b ==> x in orderIndex)
    ensures IndexSum(orderIndex, a + b) == IndexSum(orderIndex, a) + IndexSum(orderIndex, b)
  {
    assert forall x :: x in a ==> x in a + b;
    assert forall x :: x in b ==> x in a + b;
    if a == [] {
      assert a + b == b;
    } else {
      assert (a + b)[1..] == a[1..] + b;
      IndexSumJoin(orderIndex, a[1..], b);
    }
  }

  lemma OneFewer(a: seq<string>, b: seq<string>, i: nat)
    requires a != [] && multiset(a) == multiset(b) && i < |b| && b[i] == a[0]
    ensures multiset(a[1..]) == multiset(b[..i] + b[i + 1..])
  {
    assert a == [a[0]] + a[1..];
    assert b == b[..i] + [b[i]] + b[i + 1..];
    assert multiset(a[1..]) == multiset(a) - multiset{a[0]};
    assert multiset(b[..i] + b[i + 1..]) == multiset(b) - multiset{b[i]};
  }

  lemma MeanTimes(sum: real, n: nat)
    requires n > 0
    ensures n as real * (sum / n as real) == sum
  {
  }

  /** A sum of indices does not depend on the order of the neighbours. */
  lemma {:induction false} IndexSumAnyOrder(orderIndex: map<string, nat>, a: seq<string>, b: seq<string>)
    requires multiset(a) == multiset(b) && forall x :: x in a ==> x in orderIndex
    ensures forall x :: x in b ==> x in orderIndex
    ensures IndexSum(orderIndex, a) == IndexSum(orderIndex, b)
  {
    hide IndexSum;
    SameMembers(a, b);
    if a != [] {
      assert a[0] in b;
      var i :| 0 <= i < |b| && b[i] == a[0];
      var rest := b[..i] + b[i + 1..];
      assert b == b[..i] + ([b[i]] + b[i + 1..]) && a == [a[0]] + a[1..];
      OneFewer(a, b, i);
      IndexSumJoin(orderIndex, b[..i], [b[i]] + b[i + 1..]);
      IndexSumJoin(orderIndex, [b[i]], b[i + 1..]);
      IndexSumJoin(orderIndex, b[..i], b[i + 1..]);
      IndexSumJoin(orderIndex, [a[0]], a[1..]);
      IndexSumAnyOrder(orderIndex, a[1..], rest);
    }
  }

  /** The total of the indices at the first `n` neighbours. */
  function IndexTotal(orderIndex: map<string, nat>, xs: seq<string>, n: nat): nat
    requires n <= |xs| && forall x :: x in xs ==> x in orderIndex
  {
    if n == 0 then 0 else IndexTotal(orderIndex, xs, n - 1) + orderIndex[xs[n - 1]]
  }

  lemma {:induction false} IndexSumIsTotal(orderIndex: map<string, nat>, xs: seq<string>, n: nat)
    requires n <= |xs| && forall x :: x in xs ==> x in orderIndex
    ensures IndexSum(orderIndex, xs[..n]) == IndexTotal(orderIndex, xs, n) as real
  {
    if n > 0 {
      IndexSumIsTotal(orderIndex, xs, n - 1);
      assert xs[..n] == xs[..n - 1] + [xs[n - 1]];
      IndexSumJoin(orderIndex, xs[..n - 1], [xs[n - 1]]);
    }
  }

  /** A barycenter is the mean of the neighbours' indices, in whatever order they come; alone, a node keeps its index. */
  lemma BarycenterIsMean(orderIndex: map<string, nat>, id: string, xs: seq<string>, ys: seq<string>)
    requires id in orderIndex && (forall x :: x in xs ==> x in orderIndex) && multiset(ys) == multiset(xs)
    ensures forall x :: x in ys ==> x in orderIndex
    ensures |xs| as real * Barycenter(orderIndex, id, xs) == IndexTotal(orderIndex, xs, |xs|) as real
    ensures xs == [] ==> Barycenter(orderIndex, id, xs) == orderIndex[id] as real
    ensures Barycenter(orderIndex, id, ys) == Barycenter(orderIndex, id, xs)
  {
    hide IndexSum, IndexTotal, Barycenter;
    SameMembers(ys, xs);
    IndexSumAnyOrder(orderIndex, xs, ys);
    IndexSumIsTotal(orderIndex, xs, |xs|);
    assert xs[..|xs|] == xs;
    BarycenterIs(orderIndex, id, xs);
    BarycenterIs(orderIndex, id, ys);
    if xs != [] {
      MeanTimes(IndexSum(orderIndex, xs), |xs|);
    } else {
      NothingToAdd(orderIndex, xs);
      assert |xs| as real * Barycenter(orderIndex, id, xs) == 0.0;
    }
  }

  lemma BarycenterIs(orderIndex: map<string, nat>, id: string, xs: seq<string>)
    requires id in orderIndex && forall x :: x in xs ==> x in orderIndex
    ensures Barycenter(orderIndex, id, xs) == if xs == [] then orderIndex[id] as real else IndexSum(orderIndex, xs) / |xs| as real
  {
  }

  lemma NothingToAdd(orderIndex: map<string, nat>, xs: seq<string>)
    requires xs == []
    ensures IndexTotal(orderIndex, xs, 0) == 0
  {
  }

  ghost predicate SortedBy(key: map<string, real>, s: seq<string>) {
    && (forall x :: x in s ==> x in key)
    && forall i, j :: 0 <= i < j < |s| ==> key[s[i]] <= key[s[j]]
  }

  /** Inserts behind every element that is not larger, which keeps the sort stable. */
  function Insert(key: map<string, real>, s: seq<string>, x: string): (r: seq<string>)
    requires x in key && forall y :: y in s ==> y in key
    ensures multiset(r) == multiset(s) + multiset{x}
  {
    if s == [] then [x]
    else
      var n := |s| - 1;
      assert s == s[..n] + [s[n]];
      if key[s[n]] <= key[x] then s + [x] else Insert(key, s[..n], x) + [s[n]]
  }

  lemma InsertMembers(key: map<string, real>, s: seq<string>, x: string)
    requires x in key && forall y :: y in s ==> y in key
    ensures forall y :: y in Insert(key, s, x) <==> y in s || y == x
  {
    var r := Insert(key, s, x);
    hide Insert;
    forall y ensures y in r <==> y in s || y == x {
      assert y in r <==> y in multiset(r);
      assert y in s <==> y in multiset(s);
    }
  }

  lemma {:induction false} InsertSorted(key: map<string, real>, s: seq<string>, x: string)
    requires SortedBy(key, s) && x in key
    ensures SortedBy(key, Insert(key, s, x))
  {
    InsertMembers(key, s, x);
    if s != [] {
      var n := |s| - 1;
      if key[s[n]] > key[x] {
        InsertSorted(key, s[..n], x);
        InsertMembers(key, s[..n], x);
        var front := Insert(key, s[..n], x);
        assert Insert(key, s, x) == front + [s[n]];
        hide Insert;
        forall y | y in front ensures key[y] <= key[s[n]] {
          assert y in s[..n] || y == x;
        }
      }
    }
  }

  function StableSort(key: map<string, real>, s: seq<string>): (r: seq<string>)
    requires forall x :: x in s ==> x in key
    ensures multiset(r) == multiset(s) && SortedBy(key, r)
  {
    if s == [] then []
    else
      var n := |s| - 1;
      assert s == s[..n] + [s[n]];
      assert s[n] in s;
      var front := StableSort(key, s[..n]);
      InsertSorted(key, front, s[n]);
      Insert(key, front, s[n])
  }

  /** The elements with one key, in the order of the sequence. */
  function WithKey(key: map<string, real>, s: seq<string>, v: real): seq<string> {
    if s == [] then []
    else
      var n := |s| - 1;
      WithKey(key, s[..n], v) + if s[n] in key && key[s[n]] == v then [s[n]] else []
  }

  lemma WithKeyAppend(key: map<string, real>, s: seq<string>, x: string, v: real)
    ensures WithKey(key, s + [x], v) == WithKey(key, s, v) + if x in key && key[x] == v then [x] else []
  {
    assert (s + [x])[..|s|] == s;
  }

  lemma {:induction false} InsertIsStable(key: map<string, real>, s: seq<string>, x: string, v: real)
    requires SortedBy(key, s) && x in key
    ensures WithKey(key, Insert(key, s, x), v) == WithKey(key, s, v) + if key[x] == v then [x] else []
  {
    hide WithKey, SortedBy;
    SortedParts(key, s);
    if s == [] || key[s[|s| - 1]] <= key[x] {
      assert s + [x] == Insert(key, s, x);
      WithKeyAppend(key, s, x, v);
    } else {
      var n := |s| - 1;
      assert Insert(key, s, x) == Insert(key, s[..n], x) + [s[n]];
      assert s == s[..n] + [s[n]];
      hide Insert;
      InsertIsStable(key, s[..n], x, v);
      WithKeyAppend(key, s[..n], s[n], v);
      WithKeyAppend(key, Insert(key, s[..n], x), s[n], v);
    }
  }

  lemma SortedParts(key: map<string, real>, s: seq<string>)
    requires SortedBy(key, s)
    ensures forall y :: y in s ==> y in key
    ensures s != [] ==> SortedBy(key, s[..|s| - 1]) && s[|s| - 1] in key && forall y :: y in s[..|s| - 1] ==> y in key
  {
  }

  /** Elements with equal keys keep their order. */
  lemma {:induction false} SortIsStable(key: map<string, real>, s: seq<string>, v: real)
    requires forall x :: x in s ==> x in key
    ensures WithKey(key, StableSort(key, s), v) == WithKey(key, s, v)
  {
    if s != [] {
      var n := |s| - 1;
      assert s[n] in s;
      SortIsStable(key, s[..n], v);
      InsertIsStable(key, StableSort(key, s[..n]), s[n], v);
    }
  }

  ghost predicate SameColumns(a: seq<seq<string>>, b: seq<seq<string>>) {
    |a| == |b| && forall c :: 0 <= c < |a| ==> multiset(a[c]) == multiset(b[c])
  }

  /** What a column is sorted by: the barycenters over the index map as it is. */
  function SortKey(order: map<string, nat>, id: string, neighbours: seq<string>): real {
    if id in order && (forall x :: x in neighbours ==> x in order) then Barycenter(order, id, neighbours) else 0.0
  }

  function Neighbours(edges: seq<Edge>, fromLeft: bool, id: string): seq<string> {
    if fromLeft then Sources(edges, id) else Targets(edges, id)
  }

  function SortKeys(column: seq<string>, order: map<string, nat>, edges: seq<Edge>, fromLeft: bool): map<string, real> {
    map x | x in column :: SortKey(order, x, Neighbours(edges, fromLeft, x))
  }

  function Arranged(column: seq<string>, order: map<string, nat>, edges: seq<Edge>, fromLeft: bool): seq<string> {
    StableSort(SortKeys(column, order, edges, fromLeft), column)
  }

  /** The index map after the first `n` nodes of a column got their positions. */
  function Indexed(order: map<string, nat>, column: seq<string>, n: nat): map<string, nat>
    requires n <= |column|
  {
    if n == 0 then order else Indexed(order, column, n - 1)[column[n - 1] := n - 1]
  }

  function IndexAll(columns: seq<seq<string>>, n: nat): map<string, nat>
    requires n <= |columns|
  {
    if n == 0 then map[] else Indexed(IndexAll(columns, n - 1), columns[n - 1], |columns[n - 1]|)
  }

  datatype Sweep = Sweep(columns: seq<seq<string>>, order: map<string, nat>)

  function SweepOne(s: Sweep, c: nat, edges: seq<Edge>, fromLeft: bool): Sweep
    requires c < |s.columns|
  {
    if s.columns[c] == [] then s
    else
      var arranged := Arranged(s.columns[c], s.order, edges, fromLeft);
      Sweep(s.columns[c := arranged], Indexed(s.order, arranged, |arranged|))
  }

  /** After `sweeps` whole sweeps and `k` columns of the next one; even sweeps go from the left. */
  function SweepTo(start: Sweep, edges: seq<Edge>, sweeps: nat, k: nat): (s: Sweep)
    requires k <= |start.columns|
    ensures |s.columns| == |start.columns|
    decreases sweeps, k
  {
    var fromLeft := sweeps % 2 == 0;
    if k > 0 then
      SweepOne(SweepTo(start, edges, sweeps, k - 1), if fromLeft then k - 1 else |start.columns| - k, edges, fromLeft)
    else if sweeps > 0 then SweepTo(start, edges, sweeps - 1, |start.columns|)
    else start
  }

  lemma {:induction false} IndexedKeys(order: map<string, nat>, column: seq<string>, n: nat)
    requires n <= |column|
    ensures Indexed(order, column, n).Keys == order.Keys + SetOf(column[..n])
  {
    if n > 0 {
      IndexedKeys(order, column, n - 1);
      assert column[..n] == column[..n - 1] + [column[n - 1]];
    }
  }

  lemma {:induction false} IndexedAt(order: map<string, nat>, column: seq<string>, n: nat, i: nat)
    requires i < n <= |column| && Distinct(column)
    ensures column[i] in Indexed(order, column, n) && Indexed(order, column, n)[column[i]] == i
  {
    if i < n - 1 {
      IndexedAt(order, column, n - 1, i);
    }
  }

  method IndexColumn(column: seq<string>, orderIndex0: map<string, nat>) returns (orderIndex: map<string, nat>)
    ensures orderIndex == Indexed(orderIndex0, column, |column|)
    ensures orderIndex.Keys == orderIndex0.Keys + SetOf(column)
  {
    orderIndex := orderIndex0;
    for i := 0 to |column|
      invariant orderIndex == Indexed(orderIndex0, column, i)
    {
      orderIndex := orderIndex[column[i] := i];
    }
    IndexedKeys(orderIndex0, column, |column|);
    assert column[..|column|] == column;
  }

  /** One column of one sweep: sorted by barycenter, then indexed again. */
  method SortColumn(column: seq<string>, orderIndex0: map<string, nat>, neighbours: map<string, seq<string>>,
                    edges: seq<Edge>, fromLeft: bool)
      returns (sorted: seq<string>, orderIndex: map<string, nat>)
    requires forall x :: x in column ==> x in orderIndex0
    requires forall x :: Lookup(neighbours, x) == Neighbours(edges, fromLeft, x)
    requires forall x, y :: y in Neighbours(edges, fromLeft, x) ==> y in orderIndex0
    ensures sorted == Arranged(column, orderIndex0, edges, fromLeft) && orderIndex == Indexed(orderIndex0, sorted, |sorted|)
    ensures multiset(sorted) == multiset(column) && orderIndex.Keys == orderIndex0.Keys
  {
    hide StableSort, Insert, Neighbours, SortedBy, Barycenter;
    var key := map x | x in column :: Barycenter(orderIndex0, x, Lookup(neighbours, x));
    assert key == SortKeys(column, orderIndex0, edges, fromLeft);
    sorted := StableSort(key, column);
    SameMembers(sorted, column);
    orderIndex := IndexColumn(sorted, orderIndex0);
  }

  ghost predicate NotAbove(order: map<string, nat>, edges: seq<Edge>, fromLeft: bool, a: string, b: string) {
    var near, far := Neighbours(edges, fromLeft, a), Neighbours(edges, fromLeft, b);
    && a in order && b in order && (forall x :: x in near + far ==> x in order)
    && Barycenter(order, a, near) <= Barycenter(order, b, far)
  }

  /**
    After its step a column is in the order of the barycenters taken before it, nodes with the same
    barycenter as they stood before, and it is indexed in that order.
   */
  lemma ArrangedIsSorted(column: seq<string>, order: map<string, nat>, edges: seq<Edge>, fromLeft: bool)
    requires Distinct(column) && forall x :: x in column ==> x in order
    requires forall x, y :: y in Neighbours(edges, fromLeft, x) ==> y in order
    ensures var sorted := Arranged(column, order, edges, fromLeft);
            var index := Indexed(order, sorted, |sorted|);
            && (forall i, j :: 0 <= i < j < |sorted| ==> NotAbove(order, edges, fromLeft, sorted[i], sorted[j]))
            && (forall v :: WithKey(SortKeys(column, order, edges, fromLeft), sorted, v) ==
                            WithKey(SortKeys(column, order, edges, fromLeft), column, v))
            && (forall i :: 0 <= i < |sorted| ==> sorted[i] in index && index[sorted[i]] == i)
  {
    var sorted := Arranged(column, order, edges, fromLeft);
    hide StableSort, Insert, Neighbours, Barycenter, Indexed, WithKey;
    forall v ensures WithKey(SortKeys(column, order, edges, fromLeft), sorted, v) ==
                     WithKey(SortKeys(column, order, edges, fromLeft), column, v)
    {
      SortIsStable(SortKeys(column, order, edges, fromLeft), column, v);
    }
    SameMembers(sorted, column);
    forall i, j | 0 <= i < j < |sorted| ensures NotAbove(order, edges, fromLeft, sorted[i], sorted[j]) {
      assert sorted[i] in column && sorted[j] in column;
    }
    forall i | 0 <= i < |sorted|
      ensures var index := Indexed(order, sorted, |sorted|); sorted[i] in index && index[sorted[i]] == i
    {
      IndexedAt(order, sorted, |sorted|, i);
    }
  }

  /** `b` is not before `a`, by the mean index of what they are joined to on one side. */
  ghost predicate MeansAscend(order: map<string, nat>, a: string, nearA: seq<string>, b: string, nearB: seq<string>) {
    && a in order && b in order && (forall x :: x in nearA ==> x in order) && (forall x :: x in nearB ==> x in order)
    && Barycenter(order, a, nearA) <= Barycenter(order, b, nearB)
  }

  /** Every node of the columns and every end of an edge has an index. */
  ghost predicate IndexedColumns(s: Sweep, edges: seq<Edge>) {
    && (forall c :: 0 <= c < |s.columns| ==> Distinct(s.columns[c]))
    && (forall c, x :: 0 <= c < |s.columns| && x in s.columns[c] ==> x in s.order)
    && (forall e :: e in edges ==> e.source in s.order && e.target in s.order)
  }

  /**
    One step of a sweep. Even sweeps, the first one among them, go through the columns from the
    left and sort each by its nodes' sources; odd ones go from the right and sort by the targets.
    The column is rearranged, no other is touched.
   */
  lemma SweepStepSorts(start: Sweep, edges: seq<Edge>, sweeps: nat, k: nat)
    requires k < |start.columns|
    requires IndexedColumns(SweepTo(start, edges, sweeps, k), edges)
    ensures var s, t := SweepTo(start, edges, sweeps, k), SweepTo(start, edges, sweeps, k + 1);
            var c := if sweeps % 2 == 0 then k else |start.columns| - 1 - k;
            && |t.columns| == |s.columns| && multiset(t.columns[c]) == multiset(s.columns[c])
            && (forall d :: 0 <= d < |s.columns| && d != c ==> t.columns[d] == s.columns[d])
            && (sweeps % 2 == 0 ==> forall i, j :: 0 <= i < j < |t.columns[c]| ==>
                  MeansAscend(s.order, t.columns[c][i], Sources(edges, t.columns[c][i]), t.columns[c][j], Sources(edges, t.columns[c][j])))
            && (sweeps % 2 == 1 ==> forall i, j :: 0 <= i < j < |t.columns[c]| ==>
                  MeansAscend(s.order, t.columns[c][i], Targets(edges, t.columns[c][i]), t.columns[c][j], Targets(edges, t.columns[c][j])))
  {
    hide StableSort, Insert, Barycenter, Indexed, Sources, Targets;
    var s := SweepTo(start, edges, sweeps, k);
    var c, fromLeft := if sweeps % 2 == 0 then k else |start.columns| - 1 - k, sweeps % 2 == 0;
    var t := SweepTo(start, edges, sweeps, k + 1);
    assert t == SweepOne(s, c, edges, fromLeft);
    hide SweepTo;
    forall x, y | y in Neighbours(edges, fromLeft, x) ensures y in s.order {
      if !fromLeft {
        TargetsAreEdges(edges, x, y);
        assert Edge(x, y) in edges;
      } else {
        assert Edge(y, x) in edges;
      }
    }
    if s.columns[c] != [] {
      assert Distinct(s.columns[c]);
      ArrangedIsSorted(s.columns[c], s.order, edges, fromLeft);
      hide Arranged;
      var sorted := Arranged(s.columns[c], s.order, edges, fromLeft);
      ArrangedSame(s.columns[c], s.order, edges, fromLeft);
      forall i, j | 0 <= i < j < |sorted|
        ensures MeansAscend(s.order, sorted[i], Neighbours(edges, fromLeft, sorted[i]), sorted[j], Neighbours(edges, fromLeft, sorted[j]))
      {
        assert NotAbove(s.order, edges, fromLeft, sorted[i], sorted[j]);
      }
    }
  }

  /** The first sweep starts with the columns as they are, each later one where the one before ended. */
  lemma SweepsFollow(start: Sweep, edges: seq<Edge>, sweeps: nat)
    ensures SweepTo(start, edges, 0, 0) == start
    ensures SweepTo(start, edges, sweeps + 1, 0) == SweepTo(start, edges, sweeps, |start.columns|)
  {
  }

  lemma ArrangedSame(column: seq<string>, order: map<string, nat>, edges: seq<Edge>, fromLeft: bool)
    ensures multiset(Arranged(column, order, edges, fromLeft)) == multiset(column)
  {
    hide StableSort, Insert;
  }

  lemma {:induction false} SameMembers(a: seq<string>, b: seq<string>)
    requires multiset(a) == multiset(b)
    ensures forall x :: x in a <==> x in b
    ensures |a| == |b|
    ensures Distinct(b) ==> Distinct(a)
  {
    forall x ensures x in a <==> x in b {
      assert x in a <==> x in multiset(a);
      assert x in b <==> x in multiset(b);
    }
    assert |multiset(a)| == |a| && |multiset(b)| == |b|;
    if Distinct(b) {
      forall i, j | 0 <= i < j < |a| ensures a[i] != a[j] {
        if a[i] == a[j] {
          TwiceInMultiset(a, i, j);
          DistinctMultiset(b, a[i]);
        }
      }
    }
  }

  lemma TwiceInMultiset(a: seq<string>, i: nat, j: nat)
    requires i < j < |a| && a[i] == a[j]
    ensures multiset(a)[a[i]] >= 2
  {
    assert a == a[..i] + [a[i]] + a[i + 1..j] + [a[j]] + a[j + 1..];
  }

  lemma {:induction false} DistinctMultiset(b: seq<string>, x: string)
    requires Distinct(b)
    ensures multiset(b)[x] <= 1
  {
    if b != [] {
      DistinctMultiset(b[1..], x);
      assert b == [b[0]] + b[1..];
      if x == b[0] {
        assert x !in b[1..];
      }
    }
  }

  /** Every column is distinct, the columns share no node, and the index map covers all of them. */
  ghost predicate SweepState(columns: seq<seq<string>>, columns0: seq<seq<string>>, orderIndex: map<string, nat>, ids: seq<string>) {
    && SameColumns(columns, columns0)
    && (forall c :: 0 <= c < |columns| ==> Distinct(columns[c]) && forall x :: x in columns[c] ==> x in ids)
    && orderIndex.Keys == SetOf(ids)
  }

  lemma SweepStep(columns: seq<seq<string>>, columns0: seq<seq<string>>, before: map<string, nat>, orderIndex: map<string, nat>,
                  ids: seq<string>, c: nat, sorted: seq<string>)
    requires SweepState(columns, columns0, before, ids) && orderIndex.Keys == before.Keys
    requires c < |columns| && multiset(sorted) == multiset(columns[c])
    ensures SweepState(columns[c := sorted], columns0, orderIndex, ids)
  {
    SameMembers(sorted, columns[c]);
  }

  /** Four sweeps, from the left against the sources, from the right against the targets. */
  method Sweeps(ids: seq<string>, columns0: seq<seq<string>>, orderIndex0: map<string, nat>,
                incoming: map<string, seq<string>>, outgoing: map<string, seq<string>>, edges: seq<Edge>)
      returns (columns: seq<seq<string>>)
    requires SweepState(columns0, columns0, orderIndex0, ids) && Closed(ids, edges)
    requires forall x :: Lookup(incoming, x) == Sources(edges, x)
    requires forall x :: Lookup(outgoing, x) == Targets(edges, x)
    ensures SameColumns(columns, columns0)
    ensures columns == SweepTo(Sweep(columns0, orderIndex0), edges, 4, 0).columns
  {
    hide StableSort, Insert, Distinct, Barycenter, Arranged, Indexed, SweepState, SameColumns, Neighbours;
    ghost var start := Sweep(columns0, orderIndex0);
    columns := columns0;
    var orderIndex := orderIndex0;
    var sweep := 0;
    while sweep < 4
      invariant 0 <= sweep <= 4 && |columns| == |columns0| && SweepState(columns, columns0, orderIndex, ids)
      invariant Sweep(columns, orderIndex) == SweepTo(start, edges, sweep, 0)
    {
      var fromLeft := sweep % 2 == 0;
      var neighbours := if fromLeft then incoming else outgoing;
      NeighboursKnown(ids, edges, fromLeft, incoming, outgoing);
      var k := 0;
      while k < |columns|
        invariant 0 <= k <= |columns| == |columns0| && SweepState(columns, columns0, orderIndex, ids)
        invariant Sweep(columns, orderIndex) == SweepTo(start, edges, sweep, k)
      {
        var c := if fromLeft then k else |columns| - 1 - k;
        if columns[c] != [] {
          StateColumn(columns, columns0, orderIndex, ids, c);
          ghost var before := orderIndex;
          var sorted;
          sorted, orderIndex := SortColumn(columns[c], orderIndex, neighbours, edges, fromLeft);
          SweepStep(columns, columns0, before, orderIndex, ids, c, sorted);
          columns := columns[c := sorted];
        }
        k := k + 1;
      }
      sweep := sweep + 1;
    }
    StateColumns(columns, columns0, orderIndex, ids);
  }

  lemma NeighboursKnown(ids: seq<string>, edges: seq<Edge>, fromLeft: bool, incoming: map<string, seq<string>>, outgoing: map<string, seq<string>>)
    requires Closed(ids, edges)
    requires forall x :: Lookup(incoming, x) == Sources(edges, x)
    requires forall x :: Lookup(outgoing, x) == Targets(edges, x)
    ensures forall x, y :: y in Neighbours(edges, fromLeft, x) ==> y in ids
    ensures forall x :: Lookup(if fromLeft then incoming else outgoing, x) == Neighbours(edges, fromLeft, x)
  {
    forall x, y | y in Neighbours(edges, fromLeft, x) ensures y in ids {
      if fromLeft {
        assert Edge(y, x) in edges;
      } else {
        TargetsAreEdges(edges, x, y);
      }
    }
  }

  lemma StateColumn(columns: seq<seq<string>>, columns0: seq<seq<string>>, orderIndex: map<string, nat>, ids: seq<string>, c: nat)
    requires SweepState(columns, columns0, orderIndex, ids) && c < |columns|
    ensures (forall x :: x in columns[c] ==> x in orderIndex) && forall x :: x in ids ==> x in orderIndex
  {
  }

  lemma StateColumns(columns: seq<seq<string>>, columns0: seq<seq<string>>, orderIndex: map<string, nat>, ids: seq<string>)
    requires SweepState(columns, columns0, orderIndex, ids)
    ensures SameColumns(columns, columns0)
  {
  }

  // ----- positions -----

  const ASSET_WIDTH := 360.0
  const ASSET_HEIGHT := 152.0
  const PIPELINE_WIDTH := 200.0
  const PIPELINE_HEIGHT := 128.0
  const COL_GAP := 160.0
  const ROW_GAP := 32.0

  datatype Card = Card(x: real, y: real, width: real, height: real)

  function Width(assets: set<string>, id: string): real {
    if id in assets then ASSET_WIDTH else PIPELINE_WIDTH
  }

  function Height(assets: set<string>, id: string): real {
    if id in assets then ASSET_HEIGHT else PIPELINE_HEIGHT
  }

  predicate LeftOf(a: Card, b: Card) {
    a.x + a.width + COL_GAP <= b.x
  }

  predicate Above(a: Card, b: Card) {
    a.y + a.height + ROW_GAP <= b.y
  }

  predicate Inside(c: Card, x: real, y: real) {
    c.x <= x <= c.x + c.width && c.y <= y <= c.y + c.height
  }

  /** No point lies in both cards. */
  ghost predicate Disjoint(a: Card, b: Card) {
    forall x, y :: !(Inside(a, x, y) && Inside(b, x, y))
  }

  function ColumnWidth(assets: set<string>, column: seq<string>): real {
    if column == [] then 0.0
    else
      var rest, w := ColumnWidth(assets, column[1..]), Width(assets, column[0]);
      if rest < w then w else rest
  }

  function ColumnHeight(assets: set<string>, column: seq<string>): real {
    if column == [] then -ROW_GAP
    else ColumnHeight(assets, column[..|column| - 1]) + Height(assets, column[|column| - 1]) + ROW_GAP
  }

  lemma {:induction false} ColumnWidthBounds(assets: set<string>, column: seq<string>, id: string)
    requires id in column
    ensures Width(assets, id) <= ColumnWidth(assets, column)
  {
    if id != column[0] {
      ColumnWidthBounds(assets, column[1..], id);
    }
  }

  /** A column of cards between `left` and `left + width`: stacked, and centred both ways. */
  ghost predicate Placed(assets: set<string>, column: seq<string>, cards: map<string, Card>, left: real, width: real) {
    && (forall x :: x in column ==> x in cards)
    && (forall x :: x in column ==> cards[x].width == Width(assets, x) && cards[x].height == Height(assets, x))
    && (forall x :: x in column ==> left <= cards[x].x && cards[x].x + cards[x].width / 2.0 == left + width / 2.0)
    && (forall i, j :: 0 <= i < j < |column| ==> Above(cards[column[i]], cards[column[j]]))
    && (column != [] ==>
          cards[column[0]].y + cards[column[|column| - 1]].y + cards[column[|column| - 1]].height == 0.0)
  }

  /** The first `i` cards of a column have been placed, and `y` is where the next one goes. */
  ghost predicate PlacedPart(assets: set<string>, column: seq<string>, i: nat, cards: map<string, Card>,
                             x: real, width: real, top: real, y: real)
  {
    && i <= |column| && y == top + ColumnHeight(assets, column[..i]) + ROW_GAP
    && (forall k :: 0 <= k < i ==> column[k] in cards && SizedFor(assets, column[k], cards[column[k]], x, width))
    && (forall k :: 0 <= k < i ==> cards[column[k]].y + cards[column[k]].height + ROW_GAP <= y)
    && (forall k, m :: 0 <= k < m < i ==> Above(cards[column[k]], cards[column[m]]))
    && (i > 0 ==> cards[column[0]].y == top)
    && (i > 0 ==> cards[column[i - 1]].y + cards[column[i - 1]].height + ROW_GAP == y)
  }

  predicate SizedFor(assets: set<string>, id: string, card: Card, x: real, width: real) {
    && card.width == Width(assets, id) && card.height == Height(assets, id)
    && card.x == x + (width - card.width) / 2.0
  }

  lemma PlaceNext(assets: set<string>, column: seq<string>, i: nat, cards: map<string, Card>,
                  x: real, width: real, top: real, y: real)
    requires Distinct(column) && i < |column| && PlacedPart(assets, column, i, cards, x, width, top, y)
    ensures var id := column[i];
            var card := Card(x + (width - Width(assets, id)) / 2.0, y, Width(assets, id), Height(assets, id));
            PlacedPart(assets, column, i + 1, cards[id := card], x, width, top, y + Height(assets, id) + ROW_GAP)
  {
    assert column[..i + 1][..i] == column[..i];
    hide ColumnHeight;
  }

  method PlaceColumn(assets: set<string>, column: seq<string>, cards0: map<string, Card>, x: real)
      returns (cards: map<string, Card>, width: real)
    requires Distinct(column) && column != []
    ensures width == ColumnWidth(assets, column) && Placed(assets, column, cards, x, width)
    ensures forall y :: y in cards0 ==> y in cards && (y !in column ==> cards[y] == cards0[y])
  {
    hide PlacedPart;
    width := ColumnWidth(assets, column);
    var height := ColumnHeight(assets, column);
    cards := cards0;
    var y := -height / 2.0;
    NothingPlaced(assets, column, cards, x, width, y);
    var i := 0;
    while i < |column|
      invariant 0 <= i <= |column|
      invariant PlacedPart(assets, column, i, cards, x, width, -height / 2.0, y)
      invariant forall z :: z in cards0 ==> z in cards && (z !in column ==> cards[z] == cards0[z])
    {
      var id := column[i];
      PlaceNext(assets, column, i, cards, x, width, -height / 2.0, y);
      cards := cards[id := Card(x + (width - Width(assets, id)) / 2.0, y, Width(assets, id), Height(assets, id))];
      y := y + Height(assets, id) + ROW_GAP;
      i := i + 1;
    }
    AllPlaced(assets, column, cards, x, y);
  }

  lemma NothingPlaced(assets: set<string>, column: seq<string>, cards: map<string, Card>, x: real, width: real, top: real)
    ensures PlacedPart(assets, column, 0, cards, x, width, top, top)
  {
  }

  lemma AllPlaced(assets: set<string>, column: seq<string>, cards: map<string, Card>, x: real, y: real)
    requires column != []
    requires PlacedPart(assets, column, |column|, cards, x, ColumnWidth(assets, column), -ColumnHeight(assets, column) / 2.0, y)
    ensures Placed(assets, column, cards, x, ColumnWidth(assets, column))
  {
    assert column[..|column|] == column;
    forall z | z in column ensures Width(assets, z) <= ColumnWidth(assets, column) {
      ColumnWidthBounds(assets, column, z);
    }
    hide ColumnHeight, ColumnWidth;
  }

  ghost predicate SomewherePlaced(assets: set<string>, column: seq<string>, cards: map<string, Card>) {
    exists left :: Placed(assets, column, cards, left, ColumnWidth(assets, column))
  }

  ghost predicate EachPlaced(assets: set<string>, columns: seq<seq<string>>, c: nat, cards: map<string, Card>) {
    c <= |columns| && forall k :: 0 <= k < c ==> SomewherePlaced(assets, columns[k], cards)
  }

  ghost predicate EndsBefore(columns: seq<seq<string>>, c: nat, cards: map<string, Card>, x: real) {
    c <= |columns| && forall k, a :: 0 <= k < c && a in columns[k] ==> a in cards && cards[a].x + cards[a].width + COL_GAP <= x
  }

  ghost predicate LeftToRight(columns: seq<seq<string>>, c: nat, cards: map<string, Card>) {
    && c <= |columns|
    && (forall k, a :: 0 <= k < c && a in columns[k] ==> a in cards)
    && (forall k, m, a, b :: 0 <= k < m < c && a in columns[k] && b in columns[m] ==> LeftOf(cards[a], cards[b]))
  }

  /** The first `c` columns are placed from left to right, all of them left of `x`. */
  ghost predicate LaidOut(assets: set<string>, columns: seq<seq<string>>, c: nat, cards: map<string, Card>, x: real) {
    EachPlaced(assets, columns, c, cards) && EndsBefore(columns, c, cards, x) && LeftToRight(columns, c, cards)
  }

  ghost predicate Separate(columns: seq<seq<string>>) {
    && (forall c :: 0 <= c < |columns| ==> Distinct(columns[c]))
    && (forall c, d, x :: 0 <= c < d < |columns| && x in columns[c] ==> x !in columns[d])
  }

  lemma NextColumn(assets: set<string>, columns: seq<seq<string>>, c: nat, before: map<string, Card>,
                   cards: map<string, Card>, x: real, width: real)
    requires c < |columns| && Separate(columns) && LaidOut(assets, columns, c, before, x)
    requires width == ColumnWidth(assets, columns[c]) && Placed(assets, columns[c], cards, x, width)
    requires forall y :: y in before ==> y in cards && (y !in columns[c] ==> cards[y] == before[y])
    ensures LaidOut(assets, columns, c + 1, cards, x + width + COL_GAP)
  {
    assert SomewherePlaced(assets, columns[c], cards);
    WidthPositive(assets, columns[c]);
    ColumnExtent(assets, columns[c], cards, x);
    hide SomewherePlaced, Placed, ColumnWidth, EachPlaced, LeftToRight;
    forall k, a | 0 <= k < c && a in columns[k] ensures a in before && a in cards && cards[a] == before[a] {
      assert a !in columns[c];
    }
    EachPlacedNext(assets, columns, c, before, cards);
    LeftToRightNext(columns, c, before, cards, x);
  }

  lemma EachPlacedNext(assets: set<string>, columns: seq<seq<string>>, c: nat, before: map<string, Card>, cards: map<string, Card>)
    requires c < |columns| && EachPlaced(assets, columns, c, before) && SomewherePlaced(assets, columns[c], cards)
    requires forall k, a :: 0 <= k < c && a in columns[k] ==> a in before && a in cards && cards[a] == before[a]
    ensures EachPlaced(assets, columns, c + 1, cards)
  {
    hide SomewherePlaced;
    forall k | 0 <= k < c ensures SomewherePlaced(assets, columns[k], cards) {
      PlacedElsewhere(assets, columns[k], before, cards);
    }
  }

  lemma LeftToRightNext(columns: seq<seq<string>>, c: nat, before: map<string, Card>, cards: map<string, Card>, x: real)
    requires c < |columns| && LeftToRight(columns, c, before) && EndsBefore(columns, c, before, x)
    requires forall a :: a in columns[c] ==> a in cards && x <= cards[a].x
    requires forall k, a :: 0 <= k < c && a in columns[k] ==> a in before && a in cards && cards[a] == before[a]
    ensures LeftToRight(columns, c + 1, cards)
  {
    forall k, m, a, b | 0 <= k < m < c + 1 && a in columns[k] && b in columns[m] ensures LeftOf(cards[a], cards[b]) {
      if m < c {
        assert LeftOf(before[a], before[b]);
      }
    }
  }

  /** A placed column lies between its left edge and that edge plus its width. */
  lemma ColumnExtent(assets: set<string>, column: seq<string>, cards: map<string, Card>, x: real)
    requires Placed(assets, column, cards, x, ColumnWidth(assets, column))
    ensures forall a :: a in column ==>
      a in cards && x <= cards[a].x && cards[a].x + cards[a].width <= x + ColumnWidth(assets, column)
  {
    forall a | a in column ensures cards[a].x + cards[a].width <= x + ColumnWidth(assets, column) {
      ColumnWidthBounds(assets, column, a);
    }
  }

  lemma {:induction false} WidthPositive(assets: set<string>, column: seq<string>)
    ensures ColumnWidth(assets, column) >= 0.0
  {
    if column != [] {
      WidthPositive(assets, column[1..]);
    }
  }

  lemma PlacedElsewhere(assets: set<string>, column: seq<string>, before: map<string, Card>, cards: map<string, Card>)
    requires SomewherePlaced(assets, column, before)
    requires forall x :: x in column ==> x in cards && x in before && cards[x] == before[x]
    ensures SomewherePlaced(assets, column, cards)
  {
    var left :| Placed(assets, column, before, left, ColumnWidth(assets, column));
    assert forall i :: 0 <= i < |column| ==> column[i] in column;
    assert Placed(assets, column, cards, left, ColumnWidth(assets, column));
  }

  method PlaceColumns(assets: set<string>, columns: seq<seq<string>>) returns (cards: map<string, Card>, ghost x: real)
    requires Separate(columns)
    ensures LaidOut(assets, columns, |columns|, cards, x)
  {
    hide LaidOut, Placed;
    cards := map[];
    var right := 0.0;
    NoColumns(assets, columns, cards, right);
    var c := 0;
    while c < |columns|
      invariant 0 <= c <= |columns|
      invariant LaidOut(assets, columns, c, cards, right)
    {
      if columns[c] == [] {
        SkipColumn(assets, columns, c, cards, right);
      } else {
        ghost var before := cards;
        var width;
        cards, width := PlaceColumn(assets, columns[c], cards, right);
        NextColumn(assets, columns, c, before, cards, right, width);
        right := right + width + COL_GAP;
      }
      c := c + 1;
    }
    x := right;
  }

  lemma NoColumns(assets: set<string>, columns: seq<seq<string>>, cards: map<string, Card>, x: real)
    ensures LaidOut(assets, columns, 0, cards, x)
  {
  }

  lemma SkipColumn(assets: set<string>, columns: seq<seq<string>>, c: nat, cards: map<string, Card>, x: real)
    requires c < |columns| && columns[c] == [] && LaidOut(assets, columns, c, cards, x)
    ensures LaidOut(assets, columns, c + 1, cards, x)
  {
    hide SomewherePlaced;
    EmptyPlaced(assets, columns[c], cards);
    assert forall a :: a !in columns[c];
  }

  lemma EmptyPlaced(assets: set<string>, column: seq<string>, cards: map<string, Card>)
    requires column == []
    ensures SomewherePlaced(assets, column, cards)
  {
    assert Placed(assets, column, cards, 0.0, ColumnWidth(assets, column));
  }

  // ----- the whole layout -----

  /** Different cards are disjoint when their nodes sit in separate columns or apart in one. */
  lemma CardsDisjoint(assets: set<string>, columns: seq<seq<string>>, cards: map<string, Card>, x: real,
                      k: nat, m: nat, a: string, b: string)
    requires Separate(columns) && LaidOut(assets, columns, |columns|, cards, x)
    requires k < |columns| && m < |columns| && a in columns[k] && b in columns[m] && a != b
    ensures Disjoint(cards[a], cards[b])
  {
    if k < m {
      assert LeftOf(cards[a], cards[b]);
    } else if m < k {
      assert LeftOf(cards[b], cards[a]);
    } else {
      assert SomewherePlaced(assets, columns[k], cards);
      var left :| Placed(assets, columns[k], cards, left, ColumnWidth(assets, columns[k]));
      var i :| 0 <= i < |columns[k]| && columns[k][i] == a;
      var j :| 0 <= j < |columns[k]| && columns[k][j] == b;
      if i < j {
        assert Above(cards[a], cards[b]);
      } else {
        assert Above(cards[b], cards[a]);
      }
    }
  }

  lemma ColumnsOfRanks(ids: seq<string>, rank: map<string, nat>, columns0: seq<seq<string>>, columns: seq<seq<string>>)
    requires Distinct(ids) && rank.Keys == SetOf(ids)
    requires forall r :: 0 <= r < |columns0| ==> columns0[r] == OfRank(ids, rank, r)
    requires SameColumns(columns, columns0)
    ensures Separate(columns)
    ensures forall c, x :: 0 <= c < |columns| ==> (x in columns[c] <==> x in ids && rank[x] == c)
  {
    forall c | 0 <= c < |columns|
      ensures Distinct(columns[c]) && forall x :: x in columns[c] <==> x in ids && rank[x] == c
    {
      OfRankMembers(ids, rank, c);
      SameMembers(columns[c], columns0[c]);
    }
  }

  /** The columns before any sweep. */
  function RankColumns(ids: seq<string>, rank: map<string, nat>, n: nat): (columns: seq<seq<string>>)
    requires forall x :: x in ids ==> x in rank
    ensures |columns| == n && forall r :: 0 <= r < n ==> columns[r] == OfRank(ids, rank, r)
  {
    if n == 0 then [] else RankColumns(ids, rank, n - 1) + [OfRank(ids, rank, n - 1)]
  }

  /** The columns after four sweeps. */
  function Swept(ids: seq<string>, rank: map<string, nat>, edges: seq<Edge>, n: nat): seq<seq<string>>
    requires forall x :: x in ids ==> x in rank
  {
    var columns := RankColumns(ids, rank, n);
    SweepTo(Sweep(columns, IndexAll(columns, n)), edges, 4, 0).columns
  }

  /**
    The layout of a closed graph with distinct ids. Columns hold exactly the nodes of their rank and
    cards never overlap, cyclic or not. Without a cycle the rank is the length of the longest path
    ending in the node and every edge runs to the right with at least COL_GAP between the cards.
   */
  method BuildFlow(ids: seq<string>, assets: set<string>, edges: seq<Edge>)
      returns (rank: map<string, nat>, columns: seq<seq<string>>, cards: map<string, Card>)
    requires Distinct(ids) && Closed(ids, edges)
    ensures rank.Keys == SetOf(ids) && forall x :: x in ids ==> rank[x] < |columns| && x in cards
    ensures forall c :: 0 <= c < |columns| ==> multiset(columns[c]) == multiset(OfRank(ids, rank, c))
    ensures columns == Swept(ids, rank, edges, |columns|)
    ensures forall c :: 0 <= c < |columns| ==> SomewherePlaced(assets, columns[c], cards)
    ensures forall a, b :: a in ids && b in ids && a != b ==> Disjoint(cards[a], cards[b])
    ensures !HasCycle(edges) ==> forall x :: x in ids ==> IsLongest(edges, x, rank[x])
    ensures !HasCycle(edges) ==> forall e :: e in edges ==> LeftOf(cards[e.source], cards[e.target])
  {
    hide RanksFor, IsLongest, Disjoint, SomewherePlaced, LaidOut, OfRank, SweepState, Separate, SweepTo, IndexAll, Sources, Targets;
    rank := LongestPathRanks(ids, edges);
    var columns0 := FillColumns(ids, rank);
    ColumnsOfRanks(ids, rank, columns0, columns0);
    var orderIndex := IndexColumns(ids, rank, columns0);
    var incoming := LinkSources(edges);
    var outgoing := Outgoing(ids, edges);
    columns := Sweeps(ids, columns0, orderIndex, incoming, outgoing, edges);
    assert columns0 == RankColumns(ids, rank, |columns0|);
    ColumnsOfRanks(ids, rank, columns0, columns);
    ghost var x;
    cards, x := PlaceColumns(assets, columns);
    assert forall x :: x in ids ==> x in columns[rank[x]];
    AllPlacedSomewhere(assets, columns, cards, x);
    AllDisjoint(ids, assets, rank, columns, cards, x);
    if !HasCycle(edges) {
      AllEdgesGoRight(ids, assets, edges, rank, columns, cards, x);
    }
  }

  lemma AllPlacedSomewhere(assets: set<string>, columns: seq<seq<string>>, cards: map<string, Card>, x: real)
    requires LaidOut(assets, columns, |columns|, cards, x)
    ensures forall c :: 0 <= c < |columns| ==> SomewherePlaced(assets, columns[c], cards)
  {
  }

  lemma AllDisjoint(ids: seq<string>, assets: set<string>, rank: map<string, nat>,
                    columns: seq<seq<string>>, cards: map<string, Card>, x: real)
    requires rank.Keys == SetOf(ids) && Separate(columns)
    requires forall x :: x in ids ==> rank[x] < |columns| && x in columns[rank[x]]
    requires LaidOut(assets, columns, |columns|, cards, x)
    ensures forall x :: x in ids ==> x in cards
    ensures forall a, b :: a in ids && b in ids && a != b ==> Disjoint(cards[a], cards[b])
  {
    hide LaidOut, Separate, Disjoint;
    forall a | a in ids ensures a in cards {
      CardOf(assets, columns, cards, x, rank[a], a);
    }
    forall a, b | a in ids && b in ids && a != b ensures Disjoint(cards[a], cards[b]) {
      CardsDisjoint(assets, columns, cards, x, rank[a], rank[b], a, b);
    }
  }

  lemma CardOf(assets: set<string>, columns: seq<seq<string>>, cards: map<string, Card>, x: real, k: nat, a: string)
    requires LaidOut(assets, columns, |columns|, cards, x) && k < |columns| && a in columns[k]
    ensures a in cards
  {
    hide EachPlaced, EndsBefore;
  }

  lemma AllEdgesGoRight(ids: seq<string>, assets: set<string>, edges: seq<Edge>, rank: map<string, nat>,
                        columns: seq<seq<string>>, cards: map<string, Card>, x: real)
    requires Closed(ids, edges) && RanksFor(ids, rank, edges)
    requires forall x :: x in ids ==> x in cards && rank[x] < |columns| && x in columns[rank[x]]
    requires LaidOut(assets, columns, |columns|, cards, x)
    ensures forall x :: x in ids ==> IsLongest(edges, x, rank[x])
    ensures forall e :: e in edges ==> LeftOf(cards[e.source], cards[e.target])
  {
    RanksAreLongest(ids, edges, rank);
    hide IsLongest, LaidOut;
    forall e | e in edges ensures LeftOf(cards[e.source], cards[e.target]) {
      EdgeGoesRight(assets, columns, rank, cards, x, e);
    }
  }

  lemma EdgeGoesRight(assets: set<string>, columns: seq<seq<string>>, rank: map<string, nat>,
                      cards: map<string, Card>, x: real, e: Edge)
    requires LaidOut(assets, columns, |columns|, cards, x)
    requires e.source in rank && e.target in rank && rank[e.source] < rank[e.target] < |columns|
    requires e.source in columns[rank[e.source]] && e.target in columns[rank[e.target]]
    ensures e.source in cards && e.target in cards && LeftOf(cards[e.source], cards[e.target])
  {
    hide SomewherePlaced;
  }

  method Outgoing(ids: seq<string>, edges: seq<Edge>) returns (outgoing: map<string, seq<string>>)
    requires Closed(ids, edges)
    ensures forall x :: Lookup(outgoing, x) == Targets(edges, x)
  {
    var indegree;
    indegree, outgoing := LinkFlow(ids, edges);
  }

  method IndexColumns(ids: seq<string>, rank: map<string, nat>, columns: seq<seq<string>>)
      returns (orderIndex: map<string, nat>)
    requires rank.Keys == SetOf(ids) && Separate(columns)
    requires forall x :: x in ids ==> rank[x] < |columns|
    requires forall c, x :: 0 <= c < |columns| ==> (x in columns[c] <==> x in ids && rank[x] == c)
    ensures SweepState(columns, columns, orderIndex, ids) && orderIndex == IndexAll(columns, |columns|)
  {
    hide Indexed;
    orderIndex := map[];
    var c := 0;
    while c < |columns|
      invariant 0 <= c <= |columns| && orderIndex == IndexAll(columns, c)
      invariant forall x :: x in orderIndex <==> x in ids && rank[x] < c
    {
      orderIndex := IndexColumn(columns[c], orderIndex);
      c := c + 1;
    }
    assert forall x :: x in ids ==> x in columns[rank[x]];
  }
}
