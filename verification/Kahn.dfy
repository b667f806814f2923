/**
  The invariants of Kahn's algorithm, shared by the server's cycle check and the layered layout.
  `order` lists the dequeued nodes, `queue` the waiting ones, and `todo` the targets of the last
  dequeued node that are still to be counted down. Nothing depends on the order of the queue, so
  the facts hold for the random order in which Go walks a map as well as for node order.
 */
module Kahn {
  import opened Graphs

  lemma KahnStart(ids: seq<string>, edges: seq<Edge>, indegree: map<string, nat>, queue: seq<string>)
    requires indegree.Keys == SetOf(ids) && Distinct(queue)
    requires forall x :: x in ids ==> indegree[x] == Pending(edges, {}, x)
    requires forall x :: x in queue <==> x in indegree && indegree[x] == 0
    ensures KahnState(ids, edges, indegree, [], queue)
  {
    assert [] + queue == queue;
    assert SetOf([]) == {};
  }

  /** Everything queued so far: finished nodes first, the waiting ones after them. */
  ghost predicate KahnInner(ids: seq<string>, edges: seq<Edge>, indegree: map<string, nat>,
                            order: seq<string>, queue: seq<string>, todo: seq<string>)
  {
    && indegree.Keys == SetOf(ids)
    && TopoSorted(edges, order)
    && Distinct(order + queue)
    && (forall t :: t in todo ==> t in ids)
    && (forall x :: x in ids ==> indegree[x] == Pending(edges, SetOf(order), x) + CountIn(todo, x))
    && (forall x :: x in order + queue <==> x in ids && indegree[x] == 0)
  }

  ghost predicate KahnState(ids: seq<string>, edges: seq<Edge>, indegree: map<string, nat>,
                            order: seq<string>, queue: seq<string>)
  {
    KahnInner(ids, edges, indegree, order, queue, [])
  }

  lemma KahnBound(ids: seq<string>, edges: seq<Edge>, indegree: map<string, nat>,
                  order: seq<string>, queue: seq<string>)
    requires Distinct(ids) && KahnState(ids, edges, indegree, order, queue)
    ensures |order| + |queue| <= |ids|
  {
    DistinctBound(order + queue, SetOf(ids));
    DistinctSize(ids);
  }

  lemma KahnDequeue(ids: seq<string>, edges: seq<Edge>, indegree: map<string, nat>,
                    order: seq<string>, queue: seq<string>)
    requires Closed(ids, edges) && queue != []
    requires KahnState(ids, edges, indegree, order, queue)
    ensures KahnInner(ids, edges, indegree, order + [queue[0]], queue[1..], Targets(edges, queue[0]))
  {
    var id := queue[0];
    var all := order + queue;
    var next := order + [id];
    assert next + queue[1..] == all;
    assert all[|order|] == id && id in all;
    forall x | x in ids
      ensures indegree[x] == Pending(edges, SetOf(next), x) + CountIn(Targets(edges, id), x)
    {
      assert forall k :: 0 <= k < |order| ==> all[k] == order[k];
      assert id !in order;
      PendingStep(edges, SetOf(order), id, x);
      assert SetOf(next) == SetOf(order) + {id};
    }
    forall t | t in Targets(edges, id) ensures t in ids {
      TargetsAreEdges(edges, id, t);
    }
    forall i, e | 0 <= i < |next| && e in edges && e.target == next[i] ensures e.source in next[..i] {
      if i < |order| {
        assert next[..i] == order[..i];
      } else {
        assert Pending(edges, SetOf(order), id) == 0;
        PendingZero(edges, SetOf(order), id);
        assert next[..i] == order;
      }
    }
  }

  lemma KahnEdge(ids: seq<string>, edges: seq<Edge>, indegree: map<string, nat>,
                 order: seq<string>, queue: seq<string>, todo: seq<string>)
    requires todo != [] && KahnInner(ids, edges, indegree, order, queue, todo)
    ensures todo[0] in indegree && indegree[todo[0]] > 0
    ensures var left := indegree[todo[0]] - 1;
            KahnInner(ids, edges, indegree[todo[0] := left], order,
                      if left == 0 then queue + [todo[0]] else queue, todo[1..])
  {
    var t := todo[0];
    assert t in todo;
    CountInPositive(todo, t);
    var next := if indegree[t] == 1 then queue + [t] else queue;
    assert indegree[t] > 0;
    assert t !in order + queue;
    if indegree[t] == 1 {
      assert order + next == (order + queue) + [t];
    }
  }

  lemma KahnResult(ids: seq<string>, edges: seq<Edge>, indegree: map<string, nat>, order: seq<string>)
    requires Distinct(ids) && Closed(ids, edges)
    requires KahnState(ids, edges, indegree, order, [])
    ensures |order| <= |ids|
    ensures |order| == |ids| <==> !HasCycle(edges)
  {
    KahnBound(ids, edges, indegree, order, []);
    assert order + [] == order;
    DistinctSize(ids);
    if |order| == |ids| {
      DistinctCovers(order, SetOf(ids));
      TopoSortedIsAcyclic(edges, order);
    } else {
      DistinctSize(order);
      var stuck := SetOf(ids) - SetOf(order);
      if forall x :: x in ids ==> x in order {
        DistinctBound(ids, SetOf(order));
      }
      var first :| first in ids && first !in order;
      assert first in stuck;
      forall x | x in stuck ensures HasPredecessorIn(edges, x, stuck) {
        assert x !in order + [] && indegree[x] != 0;
        PendingZero(edges, SetOf(order), x);
        var e :| e in edges && e.target == x && e.source !in SetOf(order);
        assert e.source in stuck;
      }
      StuckHasCycle(edges, stuck);
    }
  }
}
