/**
  The streaming protocol: fetch from the durable cursor, run every node, commit the checkpoint.
  `CommitSourceCursors` (activities.go) holds the durable side, `StreamDirectWorkflow` and
  `runStreamBatch` (stream_direct.go) the workflow side. The last part puts any number of
  executions, with failing and repeated activities, around one cursor.
 */
module StreamCursors {
  import opened Options

  // ----- offsets -----

  /** The last offset read, by partition. */
  type Offsets = map<string, nat>

  const EXACT: nat := 0x20_0000_0000_0000  // 2^53: up to here every integer is a float64

  /** `n` rounded to the nearest multiple of `ulp`, ties to the even multiple. */
  function RoundTo(n: nat, ulp: nat): nat
    requires ulp > 0
  {
    var q, r := n / ulp, n % ulp;
    if 2 * r < ulp || (2 * r == ulp && q % 2 == 0) then q * ulp else (q + 1) * ulp
  }

  function RoundFrom(n: nat, ulp: nat): nat
    requires ulp > 0
    decreases n - EXACT * ulp
  {
    if n <= EXACT * ulp then RoundTo(n, ulp) else RoundFrom(n, 2 * ulp)
  }

  /** Decoding an offset as a 64-bit float. */
  function NumberValue(n: nat): nat {
    RoundFrom(n, 1)
  }

  ghost predicate ExactOffsets(o: Offsets) {
    forall p :: p in o ==> o[p] <= EXACT
  }

  lemma NumberValueExact(n: nat)
    requires n <= EXACT
    ensures NumberValue(n) == n
  {
  }

  lemma {:induction false} OneMore(d: nat, ulp: nat)
    ensures d * ulp >= 0 && (d > 0 ==> d * ulp >= ulp)
  {
    if d > 0 {
      OneMore(d - 1, ulp);
      assert d * ulp == (d - 1) * ulp + ulp;
    }
  }

  ghost function Times(d: nat, ulp: nat): nat {
    d * ulp
  }

  /** Different multiples of `ulp` are at least `ulp` apart. */
  lemma Multiples(a: nat, b: nat, ulp: nat)
    ensures a < b ==> Times(a, ulp) + ulp <= Times(b, ulp)
    ensures b < a ==> Times(b, ulp) + ulp <= Times(a, ulp)
  {
    if a < b {
      OneMore(b - a, ulp);
      assert b * ulp == a * ulp + (b - a) * ulp;
    }
    if b < a {
      OneMore(a - b, ulp);
      assert a * ulp == b * ulp + (a - b) * ulp;
    }
  }

  /** Rounding goes to a neighbouring multiple, up from above the middle and down from below it. */
  lemma RoundToNeighbour(n: nat, ulp: nat) returns (q: nat, r: nat)
    requires ulp > 0
    ensures n == Times(q, ulp) + r && r < ulp
    ensures RoundTo(n, ulp) == Times(q, ulp) + if 2 * r < ulp || (2 * r == ulp && q % 2 == 0) then 0 else ulp
  {
    q, r := n / ulp, n % ulp;
    assert (q + 1) * ulp == q * ulp + ulp;
  }

  lemma RoundToBounds(n: nat, ulp: nat, q: nat)
    requires ulp > 0
    ensures n <= Times(q, ulp) ==> RoundTo(n, ulp) <= Times(q, ulp)
    ensures Times(q, ulp) <= n ==> Times(q, ulp) <= RoundTo(n, ulp)
  {
    hide RoundTo, Times;
    var d, r := RoundToNeighbour(n, ulp);
    Multiples(d, q, ulp);
    Between(d, q, r, ulp, Times(d, ulp), Times(q, ulp), RoundTo(n, ulp));
  }

  lemma Between(d: nat, q: nat, r: nat, ulp: nat, low: nat, bound: nat, rounded: nat)
    requires r < ulp && (rounded == low || (rounded == low + ulp && r > 0))
    requires (d == q ==> low == bound) && (d < q ==> low + ulp <= bound) && (q < d ==> bound + ulp <= low)
    ensures (low + r <= bound ==> rounded <= bound) && (bound <= low + r ==> bound <= rounded)
  {
  }

  lemma RoundToGrows(m: nat, n: nat, ulp: nat)
    requires ulp > 0 && m <= n
    ensures RoundTo(m, ulp) <= RoundTo(n, ulp)
  {
    hide RoundTo, Times;
    var d, r := RoundToNeighbour(m, ulp);
    var e, s := RoundToNeighbour(n, ulp);
    Multiples(d, e, ulp);
    Ordered(d, e, r, s, ulp, Times(d, ulp), Times(e, ulp));
  }

  lemma Ordered(d: nat, e: nat, r: nat, s: nat, ulp: nat, low: nat, high: nat)
    requires r < ulp && s < ulp && low + r <= high + s
    requires (d == e ==> low == high) && (d < e ==> low + ulp <= high) && (e < d ==> high + ulp <= low)
    ensures low + (if 2 * r < ulp || (2 * r == ulp && d % 2 == 0) then 0 else ulp)
         <= high + (if 2 * s < ulp || (2 * s == ulp && e % 2 == 0) then 0 else ulp)
  {
  }

  /** A number beyond the exact range of one spacing stays beyond it when it is rounded to a wider one. */
  lemma {:induction false} RoundFromStaysAbove(n: nat, ulp: nat)
    requires ulp > 0 && EXACT * ulp < n
    ensures EXACT * ulp <= RoundFrom(n, 2 * ulp)
    decreases n - EXACT * ulp
  {
    assert EXACT * ulp == (EXACT / 2) * (2 * ulp);
    if n <= EXACT * (2 * ulp) {
      RoundToBounds(n, 2 * ulp, EXACT / 2);
    } else {
      RoundFromStaysAbove(n, 2 * ulp);
    }
  }

  lemma {:induction false} RoundFromGrows(m: nat, n: nat, ulp: nat)
    requires ulp > 0 && m <= n
    ensures RoundFrom(m, ulp) <= RoundFrom(n, ulp)
    decreases n - EXACT * ulp
  {
    if n <= EXACT * ulp {
      RoundToGrows(m, n, ulp);
    } else if m <= EXACT * ulp {
      RoundToBounds(m, ulp, EXACT);
      RoundFromStaysAbove(n, ulp);
    } else {
      RoundFromGrows(m, n, 2 * ulp);
    }
  }

  /** Decoding never reverses the order of two offsets. */
  lemma NumberValueGrows(m: nat, n: nat)
    requires NumberValue(m) < NumberValue(n)
    ensures m < n
  {
    if n <= m {
      RoundFromGrows(n, m, 1);
    }
  }

  // ----- the durable side -----

  /** A source checkpoint; only streams have offsets, `rest` stands for all other fields. */
  datatype Checkpoint = Checkpoint(topic: string, offsets: Option<Offsets>, rest: string)

  function Merge(existing: Offsets, incoming: Offsets): Offsets {
    map p | p in existing.Keys + incoming.Keys ::
      if p !in existing || (p in incoming && NumberValue(incoming[p]) > NumberValue(existing[p]))
      then incoming[p] else existing[p]
  }

  function StoredTopic(row: Option<Checkpoint>): string {
    if row.Some? then row.value.topic else ""
  }

  function StoredOffsets(row: Option<Checkpoint>): Offsets {
    if row.Some? && row.value.offsets.Some? then row.value.offsets.value else map[]
  }

  function Commit(row: Option<Checkpoint>, next: Checkpoint): Checkpoint {
    if next.offsets.None? then next
    else
      var base := if StoredTopic(row) == next.topic then StoredOffsets(row) else map[];
      next.(offsets := Some(Merge(base, next.offsets.value)))
  }

  type Rows = map<(string, string), Checkpoint>

  function Row(rows: Rows, tenant: string, connection: string): Option<Checkpoint> {
    if (tenant, connection) in rows then Some(rows[(tenant, connection)]) else None
  }

  function CommitAll(rows: Rows, tenant: string, cursors: seq<(string, Checkpoint)>): Rows {
    if cursors == [] then rows
    else
      var n := |cursors| - 1;
      var done := CommitAll(rows, tenant, cursors[..n]);
      done[(tenant, cursors[n].0) := Commit(Row(done, tenant, cursors[n].0), cursors[n].1)]
  }

  /** The table connector_state; each call of the activity is one transaction. */
  class ConnectorState {
    var rows: Rows

    constructor ()
      ensures rows == map[]
    {
      rows := map[];
    }

    /** `failing` lists the writes that the database refuses; any of them rolls everything back. */
    method CommitSourceCursors(tenant: string, cursors: seq<(string, Checkpoint)>, failing: set<nat>)
        returns (ok: bool)
      modifies this
      ensures ok <==> forall i :: 0 <= i < |cursors| ==> i !in failing
      ensures rows == if ok then CommitAll(old(rows), tenant, cursors) else old(rows)
    {
      var tx := rows;
      var i := 0;
      while i < |cursors|
        invariant 0 <= i <= |cursors| && rows == old(rows)
        invariant forall k :: 0 <= k < i ==> k !in failing
        invariant tx == CommitAll(rows, tenant, cursors[..i])
      {
        var (connection, checkpoint) := cursors[i];
        var next := checkpoint;
        if checkpoint.offsets.Some? {
          var existing := Row(tx, tenant, connection);
          var base: Offsets := map[];
          if StoredTopic(existing) == checkpoint.topic {
            base := StoredOffsets(existing);
          }
          var merged := MergeInto(base, checkpoint.offsets.value);
          next := checkpoint.(offsets := Some(merged));
        }
        if i in failing {
          return false;
        }
        assert cursors[..i + 1][..i] == cursors[..i];
        tx := tx[(tenant, connection) := next];
        i := i + 1;
      }
      assert cursors[..i] == cursors;
      rows := tx;
      return true;
    }
  }

  /** The loop over the incoming partitions, which come in no particular order. */
  method MergeInto(base: Offsets, incoming: Offsets) returns (merged: Offsets)
    ensures merged == Merge(base, incoming)
  {
    merged := base;
    var left := incoming.Keys;
    while left != {}
      invariant left <= incoming.Keys
      invariant merged.Keys == base.Keys + (incoming.Keys - left)
      invariant forall p :: p in merged ==>
        merged[p] == if p in left then base[p] else Merge(base, incoming)[p]
    {
      var p :| p in left;
      if p !in merged || NumberValue(incoming[p]) > NumberValue(merged[p]) {
        merged := merged[p := incoming[p]];
      }
      left := left - {p};
    }
  }

  // ----- what one call stores -----

  /** Cursors of one call are stored one after the other, each on what the earlier ones left. */
  lemma {:induction false} CommitAllSplits(rows: Rows, tenant: string, a: seq<(string, Checkpoint)>, b: seq<(string, Checkpoint)>)
    ensures CommitAll(rows, tenant, a + b) == CommitAll(CommitAll(rows, tenant, a), tenant, b)
  {
    hide Commit;
    if b == [] {
      assert a + b == a;
    } else {
      var n := |b| - 1;
      assert (a + b)[..|a + b| - 1] == a + b[..n];
      CommitAllSplits(rows, tenant, a, b[..n]);
    }
  }

  /** A cursor without offsets replaces the stored one; one with offsets is merged if the topic is the same. */
  lemma CommitOne(rows: Rows, tenant: string, connection: string, c: Checkpoint)
    ensures var key := (tenant, connection);
            var after := CommitAll(rows, tenant, [(connection, c)]);
            && key in after && after[key].topic == c.topic && after[key].rest == c.rest
            && (forall k :: k != key ==> (k in after <==> k in rows) && (k in rows ==> after[k] == rows[k]))
            && (c.offsets.None? ==> after[key] == c)
            && (c.offsets.Some? && (key !in rows || rows[key].topic != c.topic) ==> after[key] == c)
            && (c.offsets.Some? && key in rows && rows[key].topic == c.topic ==>
                  && after[key].offsets.Some?
                  && after[key].offsets.value.Keys == StoredOffsets(Some(rows[key])).Keys + c.offsets.value.Keys)
  {
    hide NumberValue;
    var cursors := [(connection, c)];
    assert cursors[..0] == [];
    assert CommitAll(rows, tenant, cursors[..0]) == rows;
    if c.offsets.Some? {
      assert Merge(map[], c.offsets.value) == c.offsets.value;
    }
  }

  // ----- commits form a maximum -----

  ghost predicate Attained(commits: seq<Offsets>, p: string, offset: nat) {
    exists c :: c in commits && p in c && c[p] == offset
  }

  /** `m` is the pointwise maximum of the commits. */
  ghost predicate IsMaximum(m: Offsets, commits: seq<Offsets>) {
    && (forall c, p :: c in commits && p in c ==> p in m && c[p] <= m[p])
    && (forall p :: p in m ==> Attained(commits, p, m[p]))
  }

  function MergeAll(commits: seq<Offsets>): Offsets {
    if commits == [] then map[] else Merge(MergeAll(commits[..|commits| - 1]), commits[|commits| - 1])
  }

  lemma MergeIsMaximum(a: Offsets, b: Offsets)
    requires ExactOffsets(a) && ExactOffsets(b)
    ensures Merge(a, b).Keys == a.Keys + b.Keys && ExactOffsets(Merge(a, b))
    ensures forall p :: p in a && p !in b ==> Merge(a, b)[p] == a[p]
    ensures forall p :: p in b && p !in a ==> Merge(a, b)[p] == b[p]
    ensures forall p :: p in a && p in b ==> Merge(a, b)[p] == if a[p] <= b[p] then b[p] else a[p]
  {
    forall p | p in a && p in b ensures Merge(a, b)[p] == if a[p] <= b[p] then b[p] else a[p] {
      NumberValueExact(a[p]);
      NumberValueExact(b[p]);
    }
  }

  lemma {:induction false} MergeAllIsMaximum(commits: seq<Offsets>)
    requires forall c :: c in commits ==> ExactOffsets(c)
    ensures ExactOffsets(MergeAll(commits)) && IsMaximum(MergeAll(commits), commits)
  {
    if commits != [] {
      var n := |commits| - 1;
      var before, last := commits[..n], commits[n];
      assert commits == before + [last];
      MergeAllIsMaximum(before);
      MergeIsMaximum(MergeAll(before), last);
      MaximumGrows(MergeAll(before), before, last);
    }
  }

  lemma MaximumGrows(m: Offsets, before: seq<Offsets>, last: Offsets)
    requires ExactOffsets(m) && ExactOffsets(last) && IsMaximum(m, before)
    ensures IsMaximum(Merge(m, last), before + [last])
  {
    hide Merge, Attained, NumberValue;
    MergeIsMaximum(m, last);
    var merged := Merge(m, last);
    assert forall p :: p in m ==> p in merged && m[p] <= merged[p];
    assert forall p :: p in last ==> p in merged && last[p] <= merged[p];
    MaximumBounds(m, merged, before, last);
    MaximumAttained(m, merged, before, last);
  }

  lemma MaximumAttained(m: Offsets, merged: Offsets, before: seq<Offsets>, last: Offsets)
    requires forall p :: p in m ==> Attained(before, p, m[p])
    requires forall p :: p in merged ==> (p in last && merged[p] == last[p]) || (p in m && merged[p] == m[p])
    ensures forall p :: p in merged ==> Attained(before + [last], p, merged[p])
  {
    hide Attained;
    forall p | p in merged ensures Attained(before + [last], p, merged[p]) {
      if p in last && merged[p] == last[p] {
        AttainedBy(before + [last], last, p);
      } else {
        AttainedStill(before, last, p, m[p]);
      }
    }
  }

  lemma MaximumBounds(m: Offsets, merged: Offsets, before: seq<Offsets>, last: Offsets)
    requires IsMaximum(m, before)
    requires forall p :: p in m ==> p in merged && m[p] <= merged[p]
    requires forall p :: p in last ==> p in merged && last[p] <= merged[p]
    ensures forall c, p :: c in before + [last] && p in c ==> p in merged && c[p] <= merged[p]
  {
    hide Attained;
  }

  lemma AttainedBy(commits: seq<Offsets>, c: Offsets, p: string)
    requires c in commits && p in c
    ensures Attained(commits, p, c[p])
  {
  }

  lemma AttainedStill(before: seq<Offsets>, last: Offsets, p: string, offset: nat)
    requires Attained(before, p, offset)
    ensures Attained(before + [last], p, offset)
  {
    var c :| c in before && p in c && c[p] == offset;
    assert c in before + [last];
  }

  /** The order of commits and their repetition do not matter. */
  lemma CommitOrderIrrelevant(a: seq<Offsets>, b: seq<Offsets>)
    requires forall c :: c in a ==> ExactOffsets(c)
    requires forall c :: c in a <==> c in b
    ensures MergeAll(a) == MergeAll(b)
  {
    MergeAllIsMaximum(a);
    MergeAllIsMaximum(b);
    MaximumUnique(MergeAll(a), MergeAll(b), a, b);
  }

  lemma MaximumUnique(m: Offsets, n: Offsets, a: seq<Offsets>, b: seq<Offsets>)
    requires forall c :: c in a <==> c in b
    requires IsMaximum(m, a) && IsMaximum(n, b)
    ensures m == n
  {
    Dominates(m, n, a, b);
    Dominates(n, m, b, a);
  }

  lemma Dominates(m: Offsets, n: Offsets, a: seq<Offsets>, b: seq<Offsets>)
    requires forall c :: c in a ==> c in b
    requires IsMaximum(m, a) && IsMaximum(n, b)
    ensures forall p :: p in m ==> p in n && m[p] <= n[p]
  {
    forall p | p in m ensures p in n && m[p] <= n[p] {
      assert Attained(a, p, m[p]);
      var c :| c in a && p in c && c[p] == m[p];
      assert c in b;
    }
  }

  /**
    Two commits to one partition can be swapped exactly when they are equal or decode to different
    numbers; above 2^53 neighbouring offsets decode to the same one and the first commit wins.
   */
  lemma SwapIffDistinguished(p: string, a: nat, b: nat)
    ensures MergeAll([map[p := a], map[p := b]]) == MergeAll([map[p := b], map[p := a]])
       <==> a == b || NumberValue(a) != NumberValue(b)
    ensures NumberValue(a) == NumberValue(b) ==> MergeAll([map[p := a], map[p := b]]) == map[p := a]
    ensures NumberValue(EXACT) == NumberValue(EXACT + 1)
  {
    AboveExact();
    hide NumberValue, MergeAll;
    MergeTwo(p, a, b);
    MergeTwo(p, b, a);
    if a != b && NumberValue(a) == NumberValue(b) {
      assert map[p := a][p] != map[p := b][p];
    }
  }

  lemma AboveExact()
    ensures NumberValue(EXACT) == NumberValue(EXACT + 1)
  {
    assert RoundFrom(EXACT + 1, 1) == RoundFrom(EXACT + 1, 2);
  }

  lemma MergeTwo(p: string, a: nat, b: nat)
    ensures MergeAll([map[p := a], map[p := b]]) == map[p := if NumberValue(b) > NumberValue(a) then b else a]
  {
    hide NumberValue;
    var commits: seq<Offsets> := [map[p := a], map[p := b]];
    assert commits[..1] == [map[p := a]] && [map[p := a]][..0] == [];
    assert MergeAll([map[p := a]]) == map[p := a];
  }

  // ----- one batch -----

  datatype Outcome = Success | Skipped | Failed
  datatype PlanNode = PlanNode(id: string, isSource: bool)
  datatype Page = Page(checkpoint: Option<Checkpoint>, count: nat)
  datatype Batch = Batch(results: map<string, Outcome>, checkpoint: Option<Checkpoint>, count: nat, failed: bool)

  /** What the activities of one iteration answer; an unsuccessful fetch has no page. */
  datatype Answers = Answers(page: string -> Option<Page>, outcome: string -> Outcome, commit: bool)

  predicate Fails(n: PlanNode, a: Answers) {
    if n.isSource then a.page(n.id).None? else a.outcome(n.id) == Failed
  }

  function Flat(levels: seq<seq<PlanNode>>): seq<PlanNode> {
    if levels == [] then [] else Flat(levels[..|levels| - 1]) + levels[|levels| - 1]
  }

  /** The page of the last source. */
  function LastPage(nodes: seq<PlanNode>, a: Answers): Option<Page> {
    if nodes == [] then None
    else
      var n := nodes[|nodes| - 1];
      if n.isSource then a.page(n.id) else LastPage(nodes[..|nodes| - 1], a)
  }

  ghost predicate AllRan(nodes: seq<PlanNode>, a: Answers, b: Batch) {
    && (forall n :: n in nodes ==> !Fails(n, a))
    && (forall id :: id in b.results <==> exists n :: n in nodes && n.id == id)
    && (forall id :: id in b.results ==> b.results[id] != Failed)
    && b.checkpoint == (if LastPage(nodes, a).Some? then LastPage(nodes, a).value.checkpoint else None)
    && b.count == (if LastPage(nodes, a).Some? then LastPage(nodes, a).value.count else 0)
    && !b.failed
  }

  /**
    Runs the plan level by level. A checkpoint is handed out only when no node failed, and then
    it is the one of the last source.
   */
  method RunStreamBatch(levels: seq<seq<PlanNode>>, a: Answers) returns (b: Batch, ghost fetched: Option<Page>)
    ensures b.failed <==> exists n :: n in Flat(levels) && Fails(n, a)
    ensures b.failed ==> b.checkpoint.None?
    ensures !b.failed ==> AllRan(Flat(levels), a, b) && fetched == LastPage(Flat(levels), a)
  {
    b := Batch(map[], None, 0, false);
    fetched := None;
    ghost var ran: seq<PlanNode> := [];
    var i := 0;
    while i < |levels|
      invariant 0 <= i <= |levels| && ran == Flat(levels[..i])
      invariant AllRan(ran, a, b) && fetched == LastPage(ran, a)
    {
      var j := 0;
      while j < |levels[i]|
        invariant 0 <= j <= |levels[i]| && ran == Flat(levels[..i]) + levels[i][..j]
        invariant AllRan(ran, a, b) && fetched == LastPage(ran, a)
      {
        var node := levels[i][j];
        InFlat(levels, i, j);
        if Fails(node, a) {
          return Batch(b.results, None, if node.isSource then 0 else b.count, true), fetched;
        }
        RanOneMore(ran, node, a, b);
        if node.isSource {
          var page := a.page(node.id).value;
          b := Batch(b.results[node.id := Success], page.checkpoint, page.count, false);
          fetched := Some(page);
        } else {
          b := b.(results := b.results[node.id := a.outcome(node.id)]);
        }
        ran := ran + [node];
        j := j + 1;
      }
      assert levels[i][..j] == levels[i];
      assert levels[..i + 1][..i] == levels[..i];
      i := i + 1;
    }
    assert levels[..i] == levels;
  }

  lemma RanOneMore(ran: seq<PlanNode>, n: PlanNode, a: Answers, b: Batch)
    requires AllRan(ran, a, b) && !Fails(n, a)
    ensures LastPage(ran + [n], a) == if n.isSource then a.page(n.id) else LastPage(ran, a)
    ensures AllRan(ran + [n], a,
                   if n.isSource then
                     Batch(b.results[n.id := Success], a.page(n.id).value.checkpoint, a.page(n.id).value.count, false)
                   else b.(results := b.results[n.id := a.outcome(n.id)]))
  {
    var next := ran + [n];
    assert next[..|ran|] == ran;
    assert forall m :: m in next <==> m in ran || m == n;
  }

  lemma {:induction false} InFlat(levels: seq<seq<PlanNode>>, i: nat, j: nat)
    requires i < |levels| && j < |levels[i]|
    ensures levels[i][j] in Flat(levels)
    decreases |levels|
  {
    var n := |levels| - 1;
    if i < n {
      InFlat(levels[..n], i, j);
    }
  }

  // ----- one execution -----

  const STREAM_CONTINUE_AFTER: nat := 100

  datatype Metrics = Metrics(batches: nat, records: nat, errors: nat)
  datatype Phase = Ready | Running(page: Page) | Committing(page: Page) | Stopped
  datatype Exec = Exec(phase: Phase, iteration: nat, metrics: Metrics)

  datatype Event =
    | Fetched(page: Page)
    | BatchFailed
    | BatchOk
    | Reported(ok: bool)
    | Cancel
    | Continue

  function Counted(x: Exec, count: nat): Exec {
    Exec(Ready, x.iteration + 1, x.metrics.(batches := x.metrics.batches + 1, records := x.metrics.records + count))
  }

  function Errored(x: Exec): Exec {
    Exec(Ready, x.iteration + 1, x.metrics.(errors := x.metrics.errors + 1))
  }

  /** The protocol of one execution: fetch, run every node, commit, and only then count the batch. */
  function ExecStep(x: Exec, e: Event): Option<Exec> {
    match (x.phase, e)
    case (Ready, Fetched(page)) => if x.iteration < STREAM_CONTINUE_AFTER then Some(x.(phase := Running(page))) else None
    case (Ready, BatchFailed) => if x.iteration < STREAM_CONTINUE_AFTER then Some(Errored(x)) else None
    case (Ready, BatchOk) => if x.iteration < STREAM_CONTINUE_AFTER then Some(Counted(x, 0)) else None
    case (Ready, Cancel) => if x.iteration < STREAM_CONTINUE_AFTER then Some(x.(phase := Stopped)) else None
    case (Ready, Continue) => if x.iteration == STREAM_CONTINUE_AFTER then Some(x.(iteration := 0)) else None
    case (Running(_), BatchFailed) => Some(Errored(x))
    case (Running(page), BatchOk) =>
      if page.checkpoint.Some? then Some(x.(phase := Committing(page))) else Some(Counted(x, page.count))
    case (Committing(page), Reported(ok)) => if ok then Some(Counted(x, page.count)) else Some(Errored(x))
    case _ => None
  }

  function Replay(x: Exec, trace: seq<Event>): Option<Exec> {
    if trace == [] then Some(x)
    else
      var y := Replay(x, trace[..|trace| - 1]);
      if y.None? then None else ExecStep(y.value, trace[|trace| - 1])
  }

  lemma ReplayNext(x: Exec, trace: seq<Event>, e: Event)
    ensures Replay(x, trace + [e]) == if Replay(x, trace).None? then None else ExecStep(Replay(x, trace).value, e)
  {
    assert (trace + [e])[..|trace|] == trace;
  }

  datatype Signals = Signals(pause: bool, resume: bool, cancel: bool)
  datatype Wake = Resumed | CancelledWhilePaused
  datatype Iteration = Iteration(signals: Signals, wake: Wake, answers: Answers)
  datatype Result = ContinuedAsNew | CancelledRun

  /** Pending signals at the top of an iteration, then the wait while paused. */
  method CancelledAtTop(input: Iteration, paused0: bool) returns (paused: bool, cancelled: bool)
    ensures !(paused && !cancelled)
    ensures cancelled == (input.signals.cancel ||
      ((paused0 || input.signals.pause) && !input.signals.resume && input.wake == CancelledWhilePaused))
  {
    paused := paused0;
    if input.signals.pause {
      paused := true;
    }
    if input.signals.resume {
      paused := false;
    }
    cancelled := input.signals.cancel;
    while paused && !cancelled
      invariant cancelled ==> input.signals.cancel || (paused && input.wake == CancelledWhilePaused)
      invariant input.signals.cancel ==> cancelled
      invariant paused ==> (paused0 || input.signals.pause) && !input.signals.resume
      invariant !paused && (paused0 || input.signals.pause) && !input.signals.resume && !cancelled ==> input.wake == Resumed
      decreases paused, !cancelled
    {
      match input.wake
      case Resumed => paused := false;
      case CancelledWhilePaused => cancelled := true;
    }
  }

  /** The run ends at the top of this iteration: cancelled, or paused, not resumed and then cancelled. */
  predicate Stops(input: Iteration) {
    || input.signals.cancel
    || (input.signals.pause && !input.signals.resume && input.wake.CancelledWhilePaused?)
  }

  /** The batch of an iteration does not count: a node failed, or its checkpoint could not be committed. */
  ghost predicate BatchLost(levels: seq<seq<PlanNode>>, a: Answers) {
    || (exists n :: n in Flat(levels) && Fails(n, a))
    || (LastPage(Flat(levels), a).Some? && LastPage(Flat(levels), a).value.checkpoint.Some? && !a.commit)
  }

  function PageCount(levels: seq<seq<PlanNode>>, a: Answers): nat {
    if LastPage(Flat(levels), a).Some? then LastPage(Flat(levels), a).value.count else 0
  }

  /** How many of the first `n` batches do not count. */
  ghost function LostBatches(levels: seq<seq<PlanNode>>, inputs: seq<Iteration>, n: nat): nat
    requires n <= |inputs|
  {
    if n == 0 then 0
    else LostBatches(levels, inputs, n - 1) + if BatchLost(levels, inputs[n - 1].answers) then 1 else 0
  }

  /** The records of those of the first `n` batches that count. */
  ghost function RecordsOfBatches(levels: seq<seq<PlanNode>>, inputs: seq<Iteration>, n: nat): nat
    requires n <= |inputs|
  {
    if n == 0 then 0
    else
      var a := inputs[n - 1].answers;
      RecordsOfBatches(levels, inputs, n - 1) + if BatchLost(levels, a) then 0 else PageCount(levels, a)
  }

  /** `ran` iterations come before the first one that ends the run, or all there are. */
  ghost predicate RunsUntil(inputs: seq<Iteration>, ran: nat) {
    && ran <= |inputs| && (forall i :: 0 <= i < ran ==> !Stops(inputs[i]))
    && (ran < |inputs| ==> Stops(inputs[ran]))
  }

  /** How often the nodes were run. */
  function BatchesRun(trace: seq<Event>): nat {
    if trace == [] then 0
    else
      var last := trace[|trace| - 1];
      BatchesRun(trace[..|trace| - 1]) + if last.BatchOk? || last.BatchFailed? then 1 else 0
  }

  lemma BatchesRunNext(trace: seq<Event>, e: Event)
    ensures BatchesRun(trace + [e]) == BatchesRun(trace) + if e.BatchOk? || e.BatchFailed? then 1 else 0
  {
    assert (trace + [e])[..|trace|] == trace;
  }

  /**
    The workflow loop. It is cancelled exactly when some iteration is, by a cancel signal or by one
    that comes while it is paused. Each iteration before that, or each of the hundred, runs the
    nodes once, and the metrics say what became of these batches. The trace is one the protocol allows.
   */
  method StreamDirectWorkflow(levels: seq<seq<PlanNode>>, start: Metrics, inputs: seq<Iteration>)
      returns (result: Result, metrics: Metrics, ghost trace: seq<Event>, ghost ran: nat)
    requires |inputs| == STREAM_CONTINUE_AFTER
    ensures RunsUntil(inputs, ran) && BatchesRun(trace) == ran
    ensures result == CancelledRun <==> exists i :: 0 <= i < |inputs| && Stops(inputs[i])
    ensures metrics.errors == start.errors + LostBatches(levels, inputs, ran)
    ensures metrics.batches == start.batches + (ran - LostBatches(levels, inputs, ran))
    ensures metrics.records == start.records + RecordsOfBatches(levels, inputs, ran)
    ensures var end := Replay(Exec(Ready, 0, start), trace);
            end.Some? && end.value == Exec(if result == CancelledRun then Stopped else Ready, end.value.iteration, metrics)
  {
    hide Replay, BatchLost, PageCount, BatchesRun, ExecStep;
    StartTrace(start);
    metrics := start;
    trace := [];
    ghost var x := Exec(Ready, 0, start);
    var paused := false;
    var iteration := 0;
    while iteration < STREAM_CONTINUE_AFTER
      invariant 0 <= iteration <= STREAM_CONTINUE_AFTER
      invariant Replay(Exec(Ready, 0, start), trace) == Some(x) && x == Exec(Ready, iteration, metrics)
      invariant !paused && forall i :: 0 <= i < iteration ==> !Stops(inputs[i])
      invariant BatchesRun(trace) == iteration
      invariant metrics.errors == start.errors + LostBatches(levels, inputs, iteration)
      invariant metrics.batches == start.batches + (iteration - LostBatches(levels, inputs, iteration))
      invariant metrics.records == start.records + RecordsOfBatches(levels, inputs, iteration)
    {
      var cancelled;
      paused, cancelled := CancelledAtTop(inputs[iteration], paused);
      if cancelled {
        CanStop(x);
        trace, x := Advance(start, trace, x, Cancel);
        return CancelledRun, metrics, trace, iteration;
      }
      metrics, trace, x := RunIteration(levels, inputs[iteration].answers, start, metrics, trace, x);
      iteration := iteration + 1;
    }
    CanContinue(x);
    trace, x := Advance(start, trace, x, Continue);
    return ContinuedAsNew, metrics, trace, iteration;
  }

  lemma StartTrace(start: Metrics)
    ensures Replay(Exec(Ready, 0, start), []) == Some(Exec(Ready, 0, start)) && BatchesRun([]) == 0
  {
  }

  lemma CanStop(x: Exec)
    requires x.phase.Ready? && x.iteration < STREAM_CONTINUE_AFTER
    ensures ExecStep(x, Cancel) == Some(x.(phase := Stopped))
  {
  }

  lemma CanContinue(x: Exec)
    requires x.phase.Ready? && x.iteration == STREAM_CONTINUE_AFTER
    ensures ExecStep(x, Continue) == Some(x.(iteration := 0))
  {
  }

  /** The rest of the loop body: one batch, its commit and its metrics. */
  method RunIteration(levels: seq<seq<PlanNode>>, a: Answers, ghost start: Metrics, metrics0: Metrics,
                      ghost trace0: seq<Event>, ghost x0: Exec)
      returns (metrics: Metrics, ghost trace: seq<Event>, ghost x: Exec)
    requires Replay(Exec(Ready, 0, start), trace0) == Some(x0)
    requires x0.phase == Ready && x0.iteration < STREAM_CONTINUE_AFTER && x0.metrics == metrics0
    ensures Replay(Exec(Ready, 0, start), trace) == Some(x) && x == Exec(Ready, x0.iteration + 1, metrics)
    ensures BatchesRun(trace) == BatchesRun(trace0) + 1
    ensures metrics.errors == metrics0.errors + if BatchLost(levels, a) then 1 else 0
    ensures metrics.batches == metrics0.batches + if BatchLost(levels, a) then 0 else 1
    ensures metrics.records == metrics0.records + if BatchLost(levels, a) then 0 else PageCount(levels, a)
  {
    hide Replay, Fails, BatchesRun;
    metrics, trace, x := metrics0, trace0, x0;
    var batch;
    ghost var fetched;
    batch, fetched := RunStreamBatch(levels, a);
    if fetched.Some? {
      trace, x := Advance(start, trace, x, Fetched(fetched.value));
    }
    trace, x := Advance(start, trace, x, if batch.failed then BatchFailed else BatchOk);
    if batch.failed {
      return metrics.(errors := metrics.errors + 1), trace, x;
    }
    if batch.checkpoint.Some? {
      trace, x := Advance(start, trace, x, Reported(a.commit));
      if !a.commit {
        return metrics.(errors := metrics.errors + 1), trace, x;
      }
    }
    metrics := metrics.(batches := metrics.batches + 1, records := metrics.records + batch.count);
  }

  ghost method Advance(start: Metrics, trace: seq<Event>, x: Exec, e: Event) returns (trace2: seq<Event>, y: Exec)
    requires Replay(Exec(Ready, 0, start), trace) == Some(x) && ExecStep(x, e).Some?
    ensures trace2 == trace + [e] && Replay(Exec(Ready, 0, start), trace2) == Some(y) && y == ExecStep(x, e).value
    ensures BatchesRun(trace2) == BatchesRun(trace) + if e.BatchOk? || e.BatchFailed? then 1 else 0
  {
    BatchesRunNext(trace, e);
    ReplayNext(Exec(Ready, 0, start), trace, e);
    trace2, y := trace + [e], ExecStep(x, e).value;
  }

  // ----- any number of executions around one cursor -----

  /**
    `row` is the stored cursor of one connection and `log` the length of each topic partition.
    A commit activity can be retried, or finish long after its workflow gave it up, so every
    checkpoint ever handed to it may be applied at any later time, any number of times. `bases`
    remembers the offsets each running batch was fetched from; `done` collects the records of
    batches in which no node failed and `history` the commits in the order they were applied.
   */
  datatype World = World(
    row: Option<Checkpoint>,
    log: map<(string, string), nat>,
    topics: map<nat, string>,
    execs: map<nat, Exec>,
    bases: map<nat, Offsets>,
    issued: set<Checkpoint>,
    history: seq<Checkpoint>,
    done: iset<(string, string, nat)>)

  datatype Action =
    | Produce(topic: string, partition: string)
    | Start(exec: nat, topic: string)
    | Fetch(exec: nat, sawRow: bool, page: Page)
    | Advanced(exec: nat, event: Event)
    | Apply(checkpoint: Checkpoint)

  ghost const INITIAL := World(None, map[], map[], map[], map[], {}, [], iset{})

  /** The first offset read: after the stored one, or from the start of the partition. */
  function First(base: Offsets, p: string): nat {
    if p in base then base[p] + 1 else 0
  }

  /**
    A Kafka page: consecutive records of some partitions. Once any offset is stored only the stored
    partitions are read. The fetch starts from the offsets of the stored cursor, whatever its topic.
   */
  ghost predicate PageOf(w: World, topic: string, base: Offsets, c: Checkpoint) {
    && c.topic == topic && c.offsets.Some?
    && forall p :: p in c.offsets.value ==>
         && (base == map[] || p in base)
         && (topic, p) in w.log
         && First(base, p) <= c.offsets.value[p] < w.log[(topic, p)]
  }

  ghost function Records(topic: string, base: Offsets, o: Offsets): iset<(string, string, nat)> {
    iset p, k: nat | p in o && First(base, p) <= k <= o[p] :: (topic, p, k)
  }

  ghost function Base(w: World, sawRow: bool): Offsets {
    if sawRow then StoredOffsets(w.row) else map[]
  }

  /** A commit can be reported as done only after it was applied. */
  ghost predicate Applied(w: World, phase: Phase) {
    phase.Committing? && phase.page.checkpoint.Some? ==> phase.page.checkpoint.value in w.history
  }

  ghost predicate Known(w: World, e: nat) {
    e in w.execs && e in w.topics && e in w.bases
  }

  ghost function Step(w: World, a: Action): Option<World> {
    match a
    case Produce(t, p) => Some(w.(log := w.log[(t, p) := 1 + if (t, p) in w.log then w.log[(t, p)] else 0]))
    case Start(e, t) =>
      if e in w.execs then None
      else Some(w.(execs := w.execs[e := Exec(Ready, 0, Metrics(0, 0, 0))], topics := w.topics[e := t], bases := w.bases[e := map[]]))
    case Fetch(e, sawRow, page) =>
      // the read of the stored cursor ignores its own failure and then starts without offsets
      if !Known(w, e) || ExecStep(w.execs[e], Fetched(page)).None? then None
      else if page.checkpoint.None? || !PageOf(w, w.topics[e], Base(w, sawRow), page.checkpoint.value) then None
      else Some(w.(execs := w.execs[e := ExecStep(w.execs[e], Fetched(page)).value], bases := w.bases[e := Base(w, sawRow)]))
    case Advanced(e, event) =>
      if event.Fetched? || !Known(w, e) || ExecStep(w.execs[e], event).None? then None
      else if event == Reported(true) && !Applied(w, w.execs[e].phase) then None
      else
        var moved := w.(execs := w.execs[e := ExecStep(w.execs[e], event).value]);
        if event.BatchOk? && w.execs[e].phase.Running? && w.execs[e].phase.page.checkpoint.Some? then
          var c := w.execs[e].phase.page.checkpoint.value;
          Some(moved.(issued := w.issued + {c}, done := w.done + Records(w.topics[e], w.bases[e], StoredOffsets(Some(c)))))
        else Some(moved)
    case Apply(c) =>
      if c !in w.issued then None
      else Some(w.(row := Some(Commit(w.row, c)), history := w.history + [c]))
  }

  ghost function Run(actions: seq<Action>): Option<World> {
    if actions == [] then Some(INITIAL)
    else
      var w := Run(actions[..|actions| - 1]);
      if w.None? then None else Step(w.value, actions[|actions| - 1])
  }

  ghost predicate Delivered(w: World, topic: string, o: Offsets) {
    forall p, k: nat :: p in o && k <= o[p] ==> (topic, p, k) in w.done
  }

  /** A checkpoint whose batch, and everything before it, has gone through every node. */
  ghost predicate Settled(w: World, topic: string, c: Checkpoint) {
    && c.topic == topic && c.offsets.Some? && Delivered(w, topic, c.offsets.value)
    && forall p :: p in c.offsets.value ==> (topic, p) in w.log && c.offsets.value[p] < w.log[(topic, p)]
  }

  /** A running batch continues where delivered records end. */
  ghost predicate Continues(w: World, topic: string, e: nat) {
    && Known(w, e) && w.topics[e] == topic && Delivered(w, topic, w.bases[e])
    && (w.execs[e].phase.Running? && w.execs[e].phase.page.checkpoint.Some? ==>
          PageOf(w.(row := None), topic, w.bases[e], w.execs[e].phase.page.checkpoint.value))
  }

  ghost predicate Inv(w: World, topic: string) {
    && (forall e :: e in w.execs ==> Continues(w, topic, e))
    && (forall c :: c in w.issued ==> Settled(w, topic, c))
    && (forall c :: c in w.history ==> c in w.issued)
    && (w.row.Some? ==> Settled(w, topic, w.row.value))
    && StoredOffsets(w.row) == MergeAll(OffsetsOf(w.history))
  }

  ghost function OffsetsOf(history: seq<Checkpoint>): seq<Offsets> {
    seq(|history|, i requires 0 <= i < |history| => StoredOffsets(Some(history[i])))
  }

  lemma SettledStays(w: World, v: World, topic: string, c: Checkpoint)
    requires Settled(w, topic, c) && w.done <= v.done
    requires forall k :: k in w.log ==> k in v.log && w.log[k] <= v.log[k]
    ensures Settled(v, topic, c)
  {
  }

  lemma ContinuesStays(w: World, v: World, topic: string, e: nat)
    requires Continues(w, topic, e) && w.done <= v.done
    requires forall k :: k in w.log ==> k in v.log && w.log[k] <= v.log[k]
    requires Known(v, e) && v.topics[e] == w.topics[e]
    requires v.bases[e] == w.bases[e] && (v.execs[e].phase == w.execs[e].phase || !v.execs[e].phase.Running?)
    ensures Continues(v, topic, e)
  {
  }

  /** The batch of a successful run settles its checkpoint. */
  lemma BatchSettles(w: World, v: World, topic: string, e: nat, c: Checkpoint)
    requires Continues(w, topic, e) && w.execs[e].phase.Running?
    requires w.execs[e].phase.page.checkpoint == Some(c)
    requires v.done == w.done + Records(topic, w.bases[e], StoredOffsets(Some(c))) && v.log == w.log
    ensures Settled(v, topic, c)
  {
    var o, base := c.offsets.value, w.bases[e];
    forall p, k: nat | p in o && k <= o[p] ensures (topic, p, k) in v.done {
      if k < First(base, p) {
        assert p in base && k <= base[p];
      } else {
        assert (topic, p, k) in Records(topic, base, o);
      }
    }
  }

  lemma CommitSettles(w: World, topic: string, c: Checkpoint)
    requires Settled(w, topic, c) && (w.row.Some? ==> Settled(w, topic, w.row.value))
    requires topic != ""
    ensures Settled(w, topic, Commit(w.row, c))
    ensures Commit(w.row, c).offsets == Some(Merge(StoredOffsets(w.row), c.offsets.value))
  {
    hide NumberValue;
  }

  lemma MergedHistory(history: seq<Checkpoint>, c: Checkpoint)
    ensures MergeAll(OffsetsOf(history + [c])) == Merge(MergeAll(OffsetsOf(history)), StoredOffsets(Some(c)))
  {
    hide Merge;
    var all := OffsetsOf(history + [c]);
    assert all[..|all| - 1] == OffsetsOf(history);
  }

  ghost predicate OneTopic(topic: string, a: Action) {
    a.Start? ==> a.topic == topic
  }

  lemma ProduceKeepsInv(w: World, topic: string, a: Action)
    requires Inv(w, topic) && a.Produce?
    ensures Inv(Step(w, a).value, topic)
  {
    var v := Step(w, a).value;
    forall c | Settled(w, topic, c) ensures Settled(v, topic, c) {
      SettledStays(w, v, topic, c);
    }
    hide Settled;
    forall e | e in v.execs ensures Continues(v, topic, e) {
      ContinuesStays(w, v, topic, e);
    }
  }

  lemma StartKeepsInv(w: World, topic: string, a: Action)
    requires Inv(w, topic) && a.Start? && a.topic == topic && Step(w, a).Some?
    ensures Inv(Step(w, a).value, topic)
  {
    var v := Step(w, a).value;
    forall c | Settled(w, topic, c) ensures Settled(v, topic, c) {
      SettledStays(w, v, topic, c);
    }
    hide Settled;
    forall e | e in v.execs ensures Continues(v, topic, e) {
      if e != a.exec {
        ContinuesStays(w, v, topic, e);
      }
    }
  }

  lemma BaseDelivered(w: World, topic: string, sawRow: bool)
    requires w.row.Some? ==> Settled(w, topic, w.row.value)
    ensures Delivered(w, topic, Base(w, sawRow))
  {
  }

  lemma FetchKeepsInv(w: World, topic: string, a: Action)
    requires Inv(w, topic) && a.Fetch? && Step(w, a).Some?
    ensures Inv(Step(w, a).value, topic)
  {
    var v := Step(w, a).value;
    BaseDelivered(w, topic, a.sawRow);
    forall c | Settled(w, topic, c) ensures Settled(v, topic, c) {
      SettledStays(w, v, topic, c);
    }
    hide Settled;
    assert Continues(w, topic, a.exec);
    forall e | e in v.execs ensures Continues(v, topic, e) {
      if e != a.exec {
        ContinuesStays(w, v, topic, e);
      }
    }
  }

  lemma AdvancedKeepsInv(w: World, topic: string, a: Action)
    requires Inv(w, topic) && a.Advanced? && Step(w, a).Some?
    ensures Inv(Step(w, a).value, topic)
  {
    var v := Step(w, a).value;
    IssuedStaySettled(w, topic, a);
    hide Settled;
    forall e | e in v.execs ensures Continues(v, topic, e) {
      ContinuesStays(w, v, topic, e);
    }
  }

  lemma IssuedStaySettled(w: World, topic: string, a: Action)
    requires Inv(w, topic) && a.Advanced? && Step(w, a).Some?
    ensures var v := Step(w, a).value;
            (forall c :: c in v.issued ==> Settled(v, topic, c)) && (w.row.Some? ==> Settled(v, topic, w.row.value))
  {
    var v := Step(w, a).value;
    assert Continues(w, topic, a.exec);
    hide MergeAll, OffsetsOf, Settled;
    forall c | Settled(w, topic, c) ensures Settled(v, topic, c) {
      SettledStays(w, v, topic, c);
    }
    forall c | c in v.issued ensures Settled(v, topic, c) {
      if c !in w.issued {
        BatchSettles(w, v, topic, a.exec, c);
      }
    }
  }

  lemma ApplyKeepsInv(w: World, topic: string, a: Action)
    requires Inv(w, topic) && topic != "" && a.Apply? && Step(w, a).Some?
    ensures Inv(Step(w, a).value, topic)
  {
    var v := Step(w, a).value;
    CommitSettles(w, topic, a.checkpoint);
    MergedHistory(w.history, a.checkpoint);
    hide MergeAll, OffsetsOf, Merge;
    forall c | Settled(w, topic, c) ensures Settled(v, topic, c) {
      SettledStays(w, v, topic, c);
    }
    assert Settled(w, topic, a.checkpoint);
    assert a.checkpoint.offsets.Some?;
    hide Settled;
    forall e | e in v.execs ensures Continues(v, topic, e) {
      ContinuesStays(w, v, topic, e);
    }
  }

  lemma StepKeepsInv(w: World, topic: string, a: Action)
    requires Inv(w, topic) && topic != "" && OneTopic(topic, a) && Step(w, a).Some?
    ensures Inv(Step(w, a).value, topic)
  {
    hide Inv, Step;
    match a
    case Produce(_, _) => ProduceKeepsInv(w, topic, a);
    case Start(_, _) => StartKeepsInv(w, topic, a);
    case Fetch(_, _, _) => FetchKeepsInv(w, topic, a);
    case Advanced(_, _) => AdvancedKeepsInv(w, topic, a);
    case Apply(_) => ApplyKeepsInv(w, topic, a);
  }

  lemma {:induction false} RunKeepsInv(topic: string, actions: seq<Action>)
    requires topic != "" && Run(actions).Some? && forall a :: a in actions ==> OneTopic(topic, a)
    ensures Inv(Run(actions).value, topic)
  {
    hide Step;
    if actions == [] {
      assert OffsetsOf([]) == [];
    } else {
      var n := |actions| - 1;
      RunKeepsInv(topic, actions[..n]);
      StepKeepsInv(Run(actions[..n]).value, topic, actions[n]);
    }
  }

  /**
    At-least-once delivery. However many executions of one topic run, fail, repeat their commits
    or continue as new: every record at or below the stored offset of its partition was in a batch
    in which no node failed.
   */
  lemma AtLeastOnce(topic: string, actions: seq<Action>)
    requires topic != "" && Run(actions).Some? && forall a :: a in actions ==> OneTopic(topic, a)
    ensures var w := Run(actions).value;
            forall p, k: nat :: p in StoredOffsets(w.row) && k <= StoredOffsets(w.row)[p] ==> (topic, p, k) in w.done
  {
    RunKeepsInv(topic, actions);
  }

  /** While the log stays within the exact range, the stored offsets are the maximum of all commits. */
  lemma StoredIsMaximum(topic: string, actions: seq<Action>)
    requires topic != "" && Run(actions).Some? && forall a :: a in actions ==> OneTopic(topic, a)
    requires forall k :: k in Run(actions).value.log ==> Run(actions).value.log[k] <= EXACT
    ensures var w := Run(actions).value;
            IsMaximum(StoredOffsets(w.row), OffsetsOf(w.history))
  {
    RunKeepsInv(topic, actions);
    var w := Run(actions).value;
    forall c | c in OffsetsOf(w.history) ensures ExactOffsets(c) {
      var i :| 0 <= i < |w.history| && c == StoredOffsets(Some(w.history[i]));
      assert Settled(w, topic, w.history[i]);
    }
    MergeAllIsMaximum(OffsetsOf(w.history));
  }

  /** A batch with a checkpoint is counted only when the stored offsets have reached it. */
  lemma CountedIsStored(topic: string, actions: seq<Action>, e: nat)
    requires topic != "" && Run(actions).Some? && forall a :: a in actions ==> OneTopic(topic, a)
    requires forall k :: k in Run(actions).value.log ==> Run(actions).value.log[k] <= EXACT
    requires Step(Run(actions).value, Advanced(e, Reported(true))).Some?
    ensures var w := Run(actions).value;
            var page := w.execs[e].phase.page;
            page.checkpoint.Some? ==>
              forall p :: p in StoredOffsets(page.checkpoint) ==>
                p in StoredOffsets(w.row) && StoredOffsets(page.checkpoint)[p] <= StoredOffsets(w.row)[p]
  {
    StoredIsMaximum(topic, actions);
    var w := Run(actions).value;
    var page := w.execs[e].phase.page;
    if page.checkpoint.Some? {
      var i :| 0 <= i < |w.history| && w.history[i] == page.checkpoint.value;
      assert OffsetsOf(w.history)[i] == StoredOffsets(page.checkpoint);
      hide Run, Attained;
    }
  }

  lemma MergeNeverDecreases(a: Offsets, b: Offsets, p: string)
    requires p in a
    ensures p in Merge(a, b) && a[p] <= Merge(a, b)[p]
  {
    hide NumberValue;
    if p in b && NumberValue(b[p]) > NumberValue(a[p]) {
      NumberValueGrows(a[p], b[p]);
    }
  }

  /** No step moves a stored offset back, within the exact range or beyond it. */
  lemma OffsetsNeverDecrease(topic: string, actions: seq<Action>, a: Action, p: string)
    requires topic != "" && Run(actions).Some? && forall b :: b in actions ==> OneTopic(topic, b)
    requires Step(Run(actions).value, a).Some?
    requires p in StoredOffsets(Run(actions).value.row)
    ensures var before, after := StoredOffsets(Run(actions).value.row), StoredOffsets(Step(Run(actions).value, a).value.row);
            p in after && before[p] <= after[p]
  {
    RunKeepsInv(topic, actions);
    var w := Run(actions).value;
    if a.Apply? {
      assert Settled(w, topic, a.checkpoint);
      CommitSettles(w, topic, a.checkpoint);
      MergeNeverDecreases(StoredOffsets(w.row), a.checkpoint.offsets.value, p);
    }
    hide NumberValue, Merge;
  }

  lemma RunNext(actions: seq<Action>, a: Action)
    requires Run(actions).Some?
    ensures Run(actions + [a]) == Step(Run(actions).value, a)
  {
    hide Step;
    assert (actions + [a])[..|actions|] == actions;
  }

  lemma Do(actions: seq<Action>, w: World, a: Action) returns (more: seq<Action>, v: World)
    requires Run(actions) == Some(w) && Step(w, a).Some?
    ensures more == actions + [a] && Run(more) == Some(v) && v == Step(w, a).value
  {
    RunNext(actions, a);
    more, v := actions + [a], Step(w, a).value;
  }

  const IDLE := Exec(Ready, 0, Metrics(0, 0, 0))

  /** A checkpoint at offset `n` of the first partition. */
  function LastOf(topic: string, n: nat): Checkpoint {
    Checkpoint(topic, Some(map["0" := n]), "")
  }

  /** One record of the first topic, two of the second, and an execution for each. */
  lemma TwoTopics(t: string, u: string) returns (actions: seq<Action>, w: World)
    requires t != u
    ensures Run(actions) == Some(w) && StartsIn({t, u}, actions)
    ensures w.row == None && w.done == iset{} && w.log == map[(t, "0") := 1, (u, "0") := 2]
    ensures w.execs == map[0 := IDLE, 1 := IDLE] && w.topics == map[0 := t, 1 := u] && w.bases.Keys == {0, 1}
  {
    hide Run;
    EmptyRun();
    actions, w := Do([], INITIAL, Produce(t, "0"));
    actions, w := Do(actions, w, Produce(u, "0"));
    actions, w := Do(actions, w, Produce(u, "0"));
    actions, w := Do(actions, w, Start(0, t));
    actions, w := Do(actions, w, Start(1, u));
  }

  /** The execution of one topic fetches a page, runs it and commits it. */
  lemma OneBatch(actions0: seq<Action>, w0: World, e: nat, c: Checkpoint) returns (actions: seq<Action>, w: World)
    requires Run(actions0) == Some(w0) && Known(w0, e) && w0.execs[e] == IDLE
    requires PageOf(w0, w0.topics[e], StoredOffsets(w0.row), c) && c.offsets.Some?
    ensures Run(actions) == Some(w)
    ensures w.row == Some(Commit(w0.row, c)) && w.log == w0.log && w.topics == w0.topics
    ensures w.bases.Keys == w0.bases.Keys && w.execs.Keys == w0.execs.Keys
    ensures forall d :: d in w0.execs && d != e ==> w.execs[d] == w0.execs[d]
    ensures w.done == w0.done + Records(w0.topics[e], StoredOffsets(w0.row), c.offsets.value)
    ensures forall ts :: StartsIn(ts, actions0) ==> StartsIn(ts, actions)
  {
    hide Run, Commit, PageOf, Records;
    actions, w := Do(actions0, w0, Fetch(e, true, Page(Some(c), 1)));
    actions, w := Do(actions, w, Advanced(e, BatchOk));
    actions, w := Do(actions, w, Apply(c));
  }

  /**
    With two topics on one connection delivery is lost: the fetch takes the offsets of the stored
    cursor without looking at its topic, so a second topic starts behind its first records.
   */
  lemma TopicSwitchSkipsRecords(t: string, u: string) returns (actions: seq<Action>)
    requires t != u && t != "" && u != ""
    ensures Run(actions).Some? && StartsIn({t, u}, actions)
    ensures Run(actions).value.row == Some(LastOf(u, 1)) && (u, "0", 0) !in Run(actions).value.done
  {
    hide Run;
    var w;
    actions, w := TwoTopics(t, u);
    actions, w := OneBatch(actions, w, 0, LastOf(t, 0));
    FirstCommit(None, LastOf(t, 0));
    assert w.row == Some(LastOf(t, 0));
    actions, w := OneBatch(actions, w, 1, LastOf(u, 1));
    FirstCommit(Some(LastOf(t, 0)), LastOf(u, 1));
  }

  /** All executions of the run are of topics of the set. */
  ghost predicate StartsIn(ts: set<string>, actions: seq<Action>) {
    forall a :: a in actions && a.Start? ==> a.topic in ts
  }

  /** Every record up to a stored offset of the stored topic was in a batch in which no node failed. */
  ghost predicate Covered(w: World) {
    forall p, k: nat :: p in StoredOffsets(w.row) && k <= StoredOffsets(w.row)[p] ==> (StoredTopic(w.row), p, k) in w.done
  }

  ghost predicate AlwaysCovered(ts: set<string>) {
    forall actions :: Run(actions).Some? && StartsIn(ts, actions) ==> Covered(Run(actions).value)
  }

  /** Every run over a set of topics is covered exactly when the connection has at most one topic. */
  lemma DeliveryExact(ts: set<string>)
    requires "" !in ts
    ensures AlwaysCovered(ts) <==> |ts| <= 1
  {
    hide Run;
    if |ts| <= 1 {
      var t := if ts == {} then "any" else var t :| t in ts; t;
      AtMostOne(ts, t);
      forall actions | Run(actions).Some? && StartsIn(ts, actions) ensures Covered(Run(actions).value) {
        OneTopicIsCovered(t, actions);
      }
    } else {
      var t :| t in ts;
      assert |ts - {t}| >= 1;
      var u :| u in ts - {t};
      var actions := TopicSwitchSkipsRecords(t, u);
      assert StartsIn(ts, actions);
      SkippedIsUncovered(Run(actions).value, u);
    }
  }

  lemma AtMostOne(ts: set<string>, t: string)
    requires |ts| <= 1 && (ts == {} || t in ts)
    ensures forall u :: u in ts ==> u == t
  {
    if t in ts {
      assert |ts - {t}| == 0;
      forall u | u in ts ensures u == t {
        assert u !in ts - {t};
      }
    }
  }

  lemma OneTopicIsCovered(topic: string, actions: seq<Action>)
    requires topic != "" && Run(actions).Some? && forall a :: a in actions ==> OneTopic(topic, a)
    ensures Covered(Run(actions).value)
  {
    hide Run;
    RunKeepsInv(topic, actions);
  }

  lemma SkippedIsUncovered(w: World, topic: string)
    requires w.row == Some(LastOf(topic, 1)) && (topic, "0", 0) !in w.done
    ensures !Covered(w)
  {
    var o := StoredOffsets(w.row);
    assert o == map["0" := 1] && StoredTopic(w.row) == topic;
    assert "0" in o && (StoredTopic(w.row), "0", 0) !in w.done;
  }

  // ----- partitions that are never read -----

  /** A step of the one topic in which every fetch sees the stored cursor. */
  ghost predicate SeesRow(topic: string, a: Action) {
    OneTopic(topic, a) && (a.Fetch? ==> a.sawRow)
  }

  ghost predicate Reads(a: Action, p: string) {
    a.Fetch? && p in StoredOffsets(a.page.checkpoint)
  }

  /** Some continuation of the run fetches records of the partition. */
  ghost predicate CanBeRead(topic: string, actions: seq<Action>, p: string) {
    exists more :: ReadsAfter(topic, actions, more, p)
  }

  ghost predicate ReadsAfter(topic: string, actions: seq<Action>, more: seq<Action>, p: string) {
    Run(actions + more).Some? && (forall a :: a in more ==> SeesRow(topic, a)) && exists a :: a in more && Reads(a, p)
  }

  lemma ReadsLater(topic: string, actions: seq<Action>, a: Action, more: seq<Action>, p: string)
    requires ReadsAfter(topic, actions + [a], more, p) && SeesRow(topic, a)
    ensures ReadsAfter(topic, actions, [a] + more, p)
  {
    hide Run, Reads;
    assert actions + [a] + more == actions + ([a] + more);
  }

  /** A running batch, or one that ran and may still be committed, has records of the partition. */
  ghost predicate Pending(w: World, p: string) {
    || (exists c :: c in w.issued && p in StoredOffsets(Some(c)))
    || (exists e :: RunsOn(w, e, p))
  }

  ghost predicate RunsOn(w: World, e: nat, p: string) {
    e in w.execs && w.execs[e].phase.Running? && p in StoredOffsets(w.execs[e].phase.page.checkpoint)
  }

  ghost predicate Untouched(w: World, p: string) {
    StoredOffsets(w.row) != map[] && p !in StoredOffsets(w.row) && !Pending(w, p)
  }

  /** Once another partition is stored and nothing is pending, the partition is out of reach. */
  lemma StepKeepsUntouched(w: World, topic: string, a: Action, p: string)
    requires Inv(w, topic) && Untouched(w, p) && SeesRow(topic, a) && Step(w, a).Some?
    ensures Untouched(Step(w, a).value, p) && !Reads(a, p)
  {
    hide Inv, Step, Untouched;
    match a
    case Apply(c) => UntouchedByApply(w, topic, a, p);
    case Fetch(_, _, _) => UntouchedByFetch(w, a, p);
    case Advanced(_, _) => UntouchedByAdvanced(w, a, p);
    case _ => UntouchedByOthers(w, a, p);
  }

  lemma UntouchedByApply(w: World, topic: string, a: Action, p: string)
    requires Inv(w, topic) && Untouched(w, p) && a.Apply? && Step(w, a).Some?
    ensures Untouched(Step(w, a).value, p)
  {
    UntouchedCommit(w, topic, a.checkpoint, p);
    hide Inv, Commit, StoredOffsets;
    var v := Step(w, a).value;
    forall e ensures !RunsOn(v, e, p) {
      assert !RunsOn(w, e, p);
    }
  }

  lemma UntouchedByFetch(w: World, a: Action, p: string)
    requires Untouched(w, p) && a.Fetch? && a.sawRow && Step(w, a).Some?
    ensures Untouched(Step(w, a).value, p) && !Reads(a, p)
  {
    NotInPage(w, w.topics[a.exec], StoredOffsets(w.row), a.page.checkpoint.value, p);
    hide PageOf, StoredOffsets;
    var v := Step(w, a).value;
    forall e ensures !RunsOn(v, e, p) {
      assert !RunsOn(w, e, p);
    }
  }

  lemma UntouchedByAdvanced(w: World, a: Action, p: string)
    requires Untouched(w, p) && a.Advanced? && Step(w, a).Some?
    ensures Untouched(Step(w, a).value, p)
  {
    hide StoredOffsets, Records;
    var v := Step(w, a).value;
    assert !RunsOn(w, a.exec, p);
    forall e ensures !RunsOn(v, e, p) {
      assert !RunsOn(w, e, p);
    }
  }

  lemma UntouchedByOthers(w: World, a: Action, p: string)
    requires Untouched(w, p) && (a.Produce? || a.Start?) && Step(w, a).Some?
    ensures Untouched(Step(w, a).value, p)
  {
    hide StoredOffsets;
    var v := Step(w, a).value;
    forall e ensures !RunsOn(v, e, p) {
      assert !RunsOn(w, e, p);
    }
  }

  lemma NotInPage(w: World, topic: string, base: Offsets, c: Checkpoint, p: string)
    requires PageOf(w, topic, base, c) && base != map[] && p !in base
    ensures p !in StoredOffsets(Some(c))
  {
  }

  lemma UntouchedCommit(w: World, topic: string, c: Checkpoint, p: string)
    requires Inv(w, topic) && Untouched(w, p) && c in w.issued
    ensures var o := StoredOffsets(Some(Commit(w.row, c))); o != map[] && p !in o
  {
    hide MergeAll, OffsetsOf;
    assert Settled(w, topic, c);
    var q :| q in StoredOffsets(w.row);
    assert q in Merge(StoredOffsets(w.row), c.offsets.value);
  }

  lemma {:induction false} RunKeepsUntouched(topic: string, actions: seq<Action>, more: seq<Action>, p: string)
    requires topic != "" && (forall a :: a in actions ==> OneTopic(topic, a)) && Run(actions).Some?
    requires Untouched(Run(actions).value, p) && Run(actions + more).Some? && forall a :: a in more ==> SeesRow(topic, a)
    ensures Untouched(Run(actions + more).value, p) && forall a :: a in more ==> !Reads(a, p)
    decreases |more|
  {
    hide Step, Untouched, Reads;
    if more == [] {
      assert actions + more == actions;
    } else {
      var n := |more| - 1;
      var before := actions + more[..n];
      assert (actions + more)[..|actions + more| - 1] == before;
      RunKeepsUntouched(topic, actions, more[..n], p);
      RunKeepsInv(topic, before);
      StepKeepsUntouched(Run(before).value, topic, more[n], p);
    }
  }

  lemma {:induction false} AboveAll(used: set<nat>) returns (e: nat)
    ensures forall x :: x in used ==> x < e
  {
    e := 0;
    if used != {} {
      var y :| y in used;
      var above := AboveAll(used - {y});
      e := if above <= y then y + 1 else above;
      forall x | x in used ensures x < e {
        assert x != y ==> x in used - {y};
      }
    }
  }

  /** A new record, a new execution and a fetch. */
  lemma ReadStored(topic: string, actions0: seq<Action>, p: string) returns (more: seq<Action>)
    requires Run(actions0).Some? && Inv(Run(actions0).value, topic)
    requires var o := StoredOffsets(Run(actions0).value.row); o == map[] || p in o
    ensures ReadsAfter(topic, actions0, more, p)
  {
    hide Run, Inv, Step, StoredOffsets;
    var w0 := Run(actions0).value;
    var e, c := FreshFetch(w0, topic, p);
    var fetch := Fetch(e, true, Page(Some(c), 1));
    var actions, w := Do(actions0, w0, Produce(topic, p));
    actions, w := Do(actions, w, Start(e, topic));
    actions, w := Do(actions, w, fetch);
    more := [Produce(topic, p), Start(e, topic), fetch];
    assert actions == actions0 + more;
    FetchReads(fetch, c, p);
    assert fetch in more;
  }

  lemma FreshFetch(w0: World, topic: string, p: string) returns (e: nat, c: Checkpoint)
    requires Inv(w0, topic) && (StoredOffsets(w0.row) == map[] || p in StoredOffsets(w0.row))
    ensures p in StoredOffsets(Some(c))
    ensures var w1 := Step(w0, Produce(topic, p));
            w1.Some? &&
            var w2 := Step(w1.value, Start(e, topic));
            w2.Some? && Step(w2.value, Fetch(e, true, Page(Some(c), 1))).Some?
  {
    e := AboveAll(w0.execs.Keys);
    assert e !in w0.execs.Keys;
    c := Checkpoint(topic, Some(map[p := First(StoredOffsets(w0.row), p)]), "");
    if p in StoredOffsets(w0.row) {
      StoredInLog(w0, topic, p);
    }
    hide Inv;
    var w2 := Step(Step(w0, Produce(topic, p)).value, Start(e, topic)).value;
    assert PageOf(w2, topic, StoredOffsets(w0.row), c);
  }

  lemma StoredInLog(w: World, topic: string, p: string)
    requires Inv(w, topic) && p in StoredOffsets(w.row)
    ensures (topic, p) in w.log && StoredOffsets(w.row)[p] < w.log[(topic, p)]
  {
    assert Settled(w, topic, w.row.value);
  }

  lemma FetchReads(a: Action, c: Checkpoint, p: string)
    requires a.Fetch? && a.page.checkpoint == Some(c) && p in StoredOffsets(Some(c))
    ensures Reads(a, p)
  {
  }

  lemma ReadIssued(topic: string, actions0: seq<Action>, p: string, c: Checkpoint) returns (more: seq<Action>)
    requires topic != "" && Run(actions0).Some? && Inv(Run(actions0).value, topic)
    requires c in Run(actions0).value.issued && p in StoredOffsets(Some(c))
    ensures ReadsAfter(topic, actions0, more, p)
  {
    var w0 := Run(actions0).value;
    hide Run;
    assert Settled(w0, topic, c);
    CommitSettles(w0, topic, c);
    var actions, w := Do(actions0, w0, Apply(c));
    StepKeepsInv(w0, topic, Apply(c));
    hide Inv, ReadsAfter;
    more := ReadStored(topic, actions, p);
    ReadsLater(topic, actions0, Apply(c), more, p);
    more := [Apply(c)] + more;
  }

  lemma ReadRunning(topic: string, actions0: seq<Action>, p: string, e: nat) returns (more: seq<Action>)
    requires topic != "" && Run(actions0).Some? && Inv(Run(actions0).value, topic) && RunsOn(Run(actions0).value, e, p)
    ensures ReadsAfter(topic, actions0, more, p)
  {
    var w0 := Run(actions0).value;
    hide Run;
    assert Known(w0, e);
    var ran := Advanced(e, BatchOk);
    var actions, w := Do(actions0, w0, ran);
    StepKeepsInv(w0, topic, ran);
    hide Inv, ReadsAfter;
    more := ReadIssued(topic, actions, p, w0.execs[e].phase.page.checkpoint.value);
    ReadsLater(topic, actions0, ran, more, p);
    more := [ran] + more;
  }

  /**
    A partition can still be read exactly while no offset is stored at all, its own is, or a batch
    with its records is on the way; otherwise no continuation in which the fetches see the stored
    cursor ever reads it, however many records arrive.
   */
  lemma PartitionReadExact(topic: string, actions: seq<Action>, p: string)
    requires topic != "" && Run(actions).Some? && forall a :: a in actions ==> OneTopic(topic, a)
    ensures var w := Run(actions).value;
            CanBeRead(topic, actions, p) <==> StoredOffsets(w.row) == map[] || p in StoredOffsets(w.row) || Pending(w, p)
  {
    RunKeepsInv(topic, actions);
    var w := Run(actions).value;
    hide Run, Inv, Step, Reads;
    var more: seq<Action> := [];
    if StoredOffsets(w.row) == map[] || p in StoredOffsets(w.row) {
      more := ReadStored(topic, actions, p);
    } else if c :| c in w.issued && p in StoredOffsets(Some(c)) {
      more := ReadIssued(topic, actions, p, c);
    } else if e :| RunsOn(w, e, p) {
      more := ReadRunning(topic, actions, p, e);
    } else {
      forall more | Run(actions + more).Some? && (forall a :: a in more ==> SeesRow(topic, a))
        ensures forall a :: a in more ==> !Reads(a, p)
      {
        RunKeepsUntouched(topic, actions, more, p);
      }
    }
  }

  /** One batch of the first partition, and the record in the second is never read. */
  lemma SecondPartitionUnread(topic: string) returns (actions: seq<Action>)
    requires topic != ""
    ensures Run(actions).Some? && StartsIn({topic}, actions)
    ensures (topic, "1") in Run(actions).value.log && !CanBeRead(topic, actions, "1")
  {
    hide Run;
    EmptyRun();
    var w;
    actions, w := Do([], INITIAL, Produce(topic, "0"));
    actions, w := Do(actions, w, Produce(topic, "1"));
    actions, w := Do(actions, w, Start(0, topic));
    var c := LastOf(topic, 0);
    actions, w := Do(actions, w, Fetch(0, true, Page(Some(c), 1)));
    actions, w := Do(actions, w, Advanced(0, BatchOk));
    actions, w := Do(actions, w, Apply(c));
    FirstCommit(None, c);
    assert w.row == Some(c) && w.issued == {c};
    assert w.execs.Keys == {0} && !w.execs[0].phase.Running?;
    hide CanBeRead, Step;
    PartitionReadExact(topic, actions, "1");
  }

  lemma FirstCommit(row: Option<Checkpoint>, c: Checkpoint)
    requires c.offsets.Some? && StoredTopic(row) != c.topic
    ensures Commit(row, c) == c
  {
    assert Merge(map[], c.offsets.value) == c.offsets.value;
  }

  lemma EmptyRun()
    ensures Run([]) == Some(INITIAL)
  {
  }
}
