/**
  Directed graphs in the shape every pipeline definition has: a list of node ids and a list of
  edges. The path, cycle and ordering facts here serve both cycle checks, the layered layout, the
  chain walk and the contract searches. Lists of targets and sources keep edge order and repeated
  edges, because the code that is modelled counts and averages over them.
 */
module Graphs {
  datatype Edge = Edge(source: string, target: string)

  ghost predicate IsPath(es: seq<Edge>, p: seq<string>) {
    |p| >= 1 && forall i :: 1 <= i < |p| ==> Edge(p[i - 1], p[i]) in es
  }

  ghost predicate IsCycle(es: seq<Edge>, p: seq<string>) {
    |p| >= 2 && IsPath(es, p) && p[0] == p[|p| - 1]
  }

  ghost predicate HasCycle(es: seq<Edge>) {
    exists p :: IsCycle(es, p)
  }

  ghost predicate Distinct<T>(s: seq<T>) {
    forall i, j :: 0 <= i < j < |s| ==> s[i] != s[j]
  }

  /** Every edge joins two of the given nodes. */
  ghost predicate Closed(ids: seq<string>, es: seq<Edge>) {
    forall e :: e in es ==> e.source in ids && e.target in ids
  }

  // ----- counting edges -----

  function CountIn(ts: seq<string>, x: string): nat {
    if ts == [] then 0 else (if ts[0] == x then 1 else 0) + CountIn(ts[1..], x)
  }

  /** The targets of the edges leaving `id`, in edge order. */
  function Targets(es: seq<Edge>, id: string): seq<string> {
    if es == [] then []
    else
      var e := es[|es| - 1];
      Targets(es[..|es| - 1], id) + (if e.source == id then [e.target] else [])
  }

  /** How many edges into `x` leave a node outside `done`. */
  function Pending(es: seq<Edge>, done: set<string>, x: string): nat {
    if es == [] then 0
    else
      var e := es[|es| - 1];
      Pending(es[..|es| - 1], done, x) + (if e.target == x && e.source !in done then 1 else 0)
  }

  /** A missing entry of an adjacency map stands for no targets. */
  function Lookup(adjacency: map<string, seq<string>>, x: string): seq<string> {
    if x in adjacency then adjacency[x] else []
  }

  /** The sources of the edges into `x`, in edge order. */
  function Sources(es: seq<Edge>, x: string): (r: seq<string>)
    ensures forall y :: y in r <==> Edge(y, x) in es
  {
    if es == [] then []
    else
      var n := |es| - 1;
      assert es == es[..n] + [es[n]];
      Sources(es[..n], x) + (if es[n].target == x then [es[n].source] else [])
  }

  lemma LinkSource(es: seq<Edge>, i: nat, incoming: map<string, seq<string>>, x: string)
    requires i < |es| && Lookup(incoming, x) == Sources(es[..i], x)
    ensures x == es[i].target ==> Lookup(incoming, x) + [es[i].source] == Sources(es[..i + 1], x)
    ensures x != es[i].target ==> Lookup(incoming, x) == Sources(es[..i + 1], x)
  {
    assert es[..i + 1][..i] == es[..i];
  }

  method LinkSources(es: seq<Edge>) returns (incoming: map<string, seq<string>>)
    ensures forall x :: Lookup(incoming, x) == Sources(es, x)
  {
    hide Sources;
    incoming := map[];
    assert es[..0] == [];
    forall x ensures Sources(es[..0], x) == [] {
      if Sources(es[..0], x) != [] {
        assert Sources(es[..0], x)[0] in Sources(es[..0], x);
      }
    }
    for i := 0 to |es|
      invariant forall x :: Lookup(incoming, x) == Sources(es[..i], x)
    {
      var e := es[i];
      ghost var next := incoming[e.target := Lookup(incoming, e.target) + [e.source]];
      forall x ensures Lookup(next, x) == Sources(es[..i + 1], x) {
        LinkSource(es, i, incoming, x);
      }
      incoming := incoming[e.target := Lookup(incoming, e.target) + [e.source]];
    }
    assert es[..|es|] == es;
  }

  lemma PendingNext(es: seq<Edge>, i: nat, done: set<string>, x: string)
    requires i < |es|
    ensures Pending(es[..i + 1], done, x)
         == Pending(es[..i], done, x) + (if es[i].target == x && es[i].source !in done then 1 else 0)
  {
    assert es[..i + 1][..i] == es[..i];
  }

  lemma TargetsNext(es: seq<Edge>, i: nat, x: string)
    requires i < |es|
    ensures Targets(es[..i + 1], x) == Targets(es[..i], x) + (if es[i].source == x then [es[i].target] else [])
  {
    assert es[..i + 1][..i] == es[..i];
  }

  lemma {:induction false} CountInAppend(a: seq<string>, t: string, x: string)
    ensures CountIn(a + [t], x) == CountIn(a, x) + (if t == x then 1 else 0)
  {
    if a == [] {
    } else {
      assert (a + [t])[1..] == a[1..] + [t];
      CountInAppend(a[1..], t, x);
    }
  }

  lemma {:induction false} CountInPositive(ts: seq<string>, x: string)
    ensures CountIn(ts, x) > 0 <==> x in ts
  {
    if ts == [] {
    } else {
      CountInPositive(ts[1..], x);
    }
  }

  lemma {:induction false} TargetsAreEdges(es: seq<Edge>, id: string, t: string)
    ensures t in Targets(es, id) <==> Edge(id, t) in es
  {
    if es == [] {
    } else {
      TargetsAreEdges(es[..|es| - 1], id, t);
      assert es == es[..|es| - 1] + [es[|es| - 1]];
    }
  }

  /** Finishing one more node settles exactly the edges that leave it. */
  lemma {:induction false} PendingStep(es: seq<Edge>, done: set<string>, id: string, x: string)
    requires id !in done
    ensures Pending(es, done, x) == Pending(es, done + {id}, x) + CountIn(Targets(es, id), x)
  {
    if es == [] {
    } else {
      var e := es[|es| - 1];
      PendingStep(es[..|es| - 1], done, id, x);
      if e.source == id {
        CountInAppend(Targets(es[..|es| - 1], id), e.target, x);
      } else {
        assert Targets(es, id) == Targets(es[..|es| - 1], id);
      }
    }
  }

  lemma {:induction false} PendingZero(es: seq<Edge>, done: set<string>, x: string)
    ensures Pending(es, done, x) == 0 <==> forall e :: e in es && e.target == x ==> e.source in done
  {
    if es == [] {
    } else {
      PendingZero(es[..|es| - 1], done, x);
      assert es == es[..|es| - 1] + [es[|es| - 1]];
      assert es[|es| - 1] in es;
    }
  }

  // ----- finite sets of names -----

  lemma {:induction false} DistinctBound(s: seq<string>, names: set<string>)
    requires Distinct(s) && forall x :: x in s ==> x in names
    ensures |s| <= |names|
  {
    if s == [] {
    } else {
      var smaller := names - {s[0]};
      forall x | x in s[1..] ensures x in smaller {}
      assert s[0] in s;
      DistinctBound(s[1..], smaller);
    }
  }

  lemma {:induction false} Pigeonhole(p: seq<string>, names: set<string>) returns (i: nat, j: nat)
    requires |p| > |names| && forall x :: x in p ==> x in names
    ensures i < j < |p| && p[i] == p[j]
  {
    assert p[0] in p;
    if p[0] in p[1..] {
      i := 0;
      j :| 1 <= j < |p| && p[j] == p[0];
    } else {
      i, j := Pigeonhole(p[1..], names - {p[0]});
      i, j := i + 1, j + 1;
    }
  }

  /** Distinct names cover a set as soon as there are as many of them. */
  lemma {:induction false} DistinctCovers(s: seq<string>, names: set<string>)
    requires Distinct(s) && (forall x :: x in s ==> x in names) && |s| == |names|
    ensures forall x :: x in names ==> x in s
  {
    forall x | x in names ensures x in s {
      if x !in s {
        DistinctBound(s, names - {x});
      }
    }
  }

  function SetOf(s: seq<string>): set<string> {
    set x | x in s
  }

  lemma {:induction false} DistinctSize(s: seq<string>)
    requires Distinct(s)
    ensures |SetOf(s)| == |s|
  {
    if s == [] {
    } else {
      assert SetOf(s) == {s[0]} + SetOf(s[1..]);
      DistinctSize(s[1..]);
    }
  }

  // ----- cycles and orders -----

  ghost predicate HasPredecessorIn(es: seq<Edge>, x: string, names: set<string>) {
    exists e :: e in es && e.target == x && e.source in names
  }

  lemma PathSlice(es: seq<Edge>, p: seq<string>, i: nat, j: nat)
    requires IsPath(es, p) && i <= j < |p|
    ensures IsPath(es, p[i..j + 1])
  {
  }

  lemma PathPrepend(es: seq<Edge>, e: Edge, q: seq<string>)
    requires IsPath(es, q) && e in es && e.target == q[0]
    ensures IsPath(es, [e.source] + q)
  {
  }

  lemma PathAppend(es: seq<Edge>, p: seq<string>, e: Edge)
    requires IsPath(es, p) && e in es && e.source == p[|p| - 1]
    ensures IsPath(es, p + [e.target])
  {
  }

  lemma {:induction false} BackwardWalk(es: seq<Edge>, stuck: set<string>, n: nat) returns (p: seq<string>)
    requires stuck != {}
    requires forall x :: x in stuck ==> HasPredecessorIn(es, x, stuck)
    ensures |p| == n + 1 && IsPath(es, p) && forall x :: x in p ==> x in stuck
  {
    if n == 0 {
      var x :| x in stuck;
      p := [x];
    } else {
      var q := BackwardWalk(es, stuck, n - 1);
      assert q[0] in q && HasPredecessorIn(es, q[0], stuck);
      var e :| e in es && e.target == q[0] && e.source in stuck;
      PathPrepend(es, e, q);
      p := [e.source] + q;
    }
  }

  /** A non-empty set of nodes that each have a predecessor in the set contains a cycle. */
  lemma StuckHasCycle(es: seq<Edge>, stuck: set<string>)
    requires stuck != {}
    requires forall x :: x in stuck ==> HasPredecessorIn(es, x, stuck)
    ensures HasCycle(es)
  {
    var p := BackwardWalk(es, stuck, |stuck|);
    var i, j := Pigeonhole(p, stuck);
    PathSlice(es, p, i, j);
    assert IsCycle(es, p[i..j + 1]);
  }

  /** Every edge into a listed node comes from a node listed before it. */
  ghost predicate TopoSorted(es: seq<Edge>, order: seq<string>) {
    forall i, e :: 0 <= i < |order| && e in es && e.target == order[i] ==> e.source in order[..i]
  }

  lemma {:induction false} PathGoesForward(es: seq<Edge>, order: seq<string>, p: seq<string>, i: nat)
    requires TopoSorted(es, order) && IsPath(es, p) && |p| >= 2
    requires i < |order| && p[|p| - 1] == order[i]
    ensures p[0] in order[..i]
    decreases |p|
  {
    var e := Edge(p[|p| - 2], p[|p| - 1]);
    assert e in es;
    assert e.source in order[..i];
    if |p| > 2 {
      var k :| 0 <= k < i && order[k] == e.source;
      PathGoesForward(es, order, p[..|p| - 1], k);
      assert order[..k] <= order[..i];
    }
  }

  lemma TopoSortedIsAcyclic(es: seq<Edge>, order: seq<string>)
    requires TopoSorted(es, order) && Distinct(order)
    requires forall e :: e in es ==> e.target in order
    ensures !HasCycle(es)
  {
    if HasCycle(es) {
      var p :| IsCycle(es, p);
      assert Edge(p[|p| - 2], p[|p| - 1]) in es;
      var i :| 0 <= i < |order| && order[i] == p[|p| - 1];
      PathGoesForward(es, order, p, i);
    }
  }

  /** An acyclic graph can be laid out so that every edge points to the right. */
  lemma {:induction false} TopologicalOrder(es: seq<Edge>, names: set<string>, before: seq<string>)
      returns (order: seq<string>)
    requires !HasCycle(es)
    requires TopoSorted(es, before) && Distinct(before) && forall x :: x in before ==> x !in names
    requires forall e :: e in es ==> e.source in names || e.source in before
    ensures before <= order && TopoSorted(es, order) && Distinct(order)
    ensures forall x :: x in order <==> x in before || x in names
    decreases names
  {
    if names == {} {
      order := before;
    } else {
      if forall x :: x in names ==> HasPredecessorIn(es, x, names) {
        StuckHasCycle(es, names);
        assert false;
      }
      var x :| x in names && !HasPredecessorIn(es, x, names);
      var next := before + [x];
      forall i, e | 0 <= i < |next| && e in es && e.target == next[i] ensures e.source in next[..i] {
        if i < |before| {
          assert next[..i] == before[..i];
        } else {
          assert next[..i] == before;
        }
      }
      order := TopologicalOrder(es, names - {x}, next);
    }
  }

  // ----- ranks -----

  /** A rank that grows along every edge. */
  ghost predicate RanksUp(es: seq<Edge>, rank: map<string, nat>) {
    forall e :: e in es ==> e.source in rank && e.target in rank && rank[e.source] < rank[e.target]
  }

  function Position(order: seq<string>, x: string): (i: nat)
    requires x in order
    ensures i < |order| && order[i] == x && x !in order[..i]
  {
    if order[0] == x then 0
    else
      assert order == [order[0]] + order[1..];
      1 + Position(order[1..], x)
  }

  /** Acyclic closed graphs are exactly those that have a rank growing along every edge. */
  lemma AcyclicIffRanked(ids: seq<string>, es: seq<Edge>)
    requires Closed(ids, es)
    ensures !HasCycle(es) <==> exists rank: map<string, nat> :: RanksUp(es, rank)
  {
    if !HasCycle(es) {
      var rank := AcyclicRank(ids, es);
    }
    if exists rank: map<string, nat> :: RanksUp(es, rank) {
      var rank: map<string, nat> :| RanksUp(es, rank);
      if HasCycle(es) {
        var p :| IsCycle(es, p);
        PathRank(es, rank, p);
      }
    }
  }

  lemma AcyclicRank(ids: seq<string>, es: seq<Edge>) returns (rank: map<string, nat>)
    requires Closed(ids, es) && !HasCycle(es)
    ensures RanksUp(es, rank) && forall x :: x in ids ==> x in rank && rank[x] < |SetOf(ids)|
  {
    var order := TopologicalOrder(es, SetOf(ids), []);
    DistinctBound(order, SetOf(ids));
    rank := map x | x in SetOf(ids) :: Position(order, x);
    forall e | e in es ensures rank[e.source] < rank[e.target] {
      assert e.source in order[..rank[e.target]];
      var k :| 0 <= k < rank[e.target] && order[k] == e.source;
      assert order[rank[e.source]] == order[k];
    }
  }

  lemma {:induction false} PathRank(es: seq<Edge>, rank: map<string, nat>, p: seq<string>)
    requires RanksUp(es, rank) && IsPath(es, p) && |p| >= 2
    ensures p[0] in rank && p[|p| - 1] in rank && rank[p[0]] < rank[p[|p| - 1]]
  {
    assert Edge(p[|p| - 2], p[|p| - 1]) in es;
    if |p| > 2 {
      PathRank(es, rank, p[..|p| - 1]);
    }
  }
}
