/**
  The Iceberg connector (files.go): snapshot paging of `icebergFetch` and the idempotent append of
  `appendIcebergTable`. A scan returns the rows of the current snapshot in a fixed order in which
  an append adds at the end.
 */
module Iceberg {
  import opened Options

  const MAX_PAGE: nat := 10000
  const DEFAULT_PAGE: int := 1000

  // ----- reading -----

  datatype Snapshot = Snapshot(id: string, isAppend: bool, rows: seq<string>)

  /** Empty strings and zeros stand for missing fields. */
  datatype Cursor = Cursor(snapshotId: string, totalRecords: nat, pending: string, rowOffset: nat)

  const NO_CURSOR: Cursor := Cursor("", 0, "", 0)

  datatype Fetched = Page(records: seq<string>, next: Cursor, hasMore: bool) | NotAnAppend

  /** The first number of the ingestion settings and the configuration that is not zero. */
  function PageSize(ingestion: int, configured: int): (page: nat)
    ensures 1 <= page <= 10000
    ensures ingestion != 0 ==> page == if ingestion < 1 then 1 else if ingestion > 10000 then 10000 else ingestion
    ensures ingestion == 0 && configured != 0 ==> page == if configured < 1 then 1 else if configured > 10000 then 10000 else configured
    ensures ingestion == 0 && configured == 0 ==> page == 1000
  {
    var size := if ingestion != 0 then ingestion else if configured != 0 then configured else DEFAULT_PAGE;
    if size < 1 then 1 else if size > MAX_PAGE then MAX_PAGE else size
  }

  /** Where the next page starts: at the offset of a snapshot half read, otherwise behind the rows counted last time. */
  function StartOf(snapshot: Snapshot, cursor: Cursor): nat {
    if cursor.pending == snapshot.id && cursor.rowOffset != 0 then cursor.rowOffset else cursor.totalRecords
  }

  function Slice(rows: seq<string>, start: nat, n: nat): seq<string> {
    var from := if start > |rows| then |rows| else start;
    rows[from..if from + n > |rows| then |rows| else from + n]
  }

  function Flatten(batches: seq<seq<string>>): seq<string> {
    if batches == [] then [] else Flatten(batches[..|batches| - 1]) + batches[|batches| - 1]
  }

  /** One fetch against the current snapshot. */
  function FetchSpec(snapshot: Option<Snapshot>, cursor: Cursor, page: nat): Fetched {
    match snapshot
    case None => Page([], cursor, false)
    case Some(s) =>
      if cursor.snapshotId == s.id then Page([], cursor, false)
      else if cursor.snapshotId != "" && !s.isAppend then NotAnAppend
      else
        var start := StartOf(s, cursor);
        var records := Slice(s.rows, start, page);
        var from := if start > |s.rows| then |s.rows| else start;
        if from + |records| < |s.rows| then Page(records, Cursor(cursor.snapshotId, |s.rows|, s.id, from + |records|), true)
        else Page(records, Cursor(s.id, |s.rows|, "", 0), false)
  }

  /** The scan is asked for no more rows than the page reaches to and comes in batches. */
  method IcebergFetch(snapshot: Option<Snapshot>, cursor: Cursor, page: nat, batches: seq<seq<string>>) returns (r: Fetched)
    requires page >= 1
    requires snapshot.Some? ==> Flatten(batches) == Slice(snapshot.value.rows, 0, StartOf(snapshot.value, cursor) + page)
    ensures r == FetchSpec(snapshot, cursor, page)
  {
    if snapshot.None? {
      return Page([], cursor, false);
    }
    var s := snapshot.value;
    if cursor.snapshotId == s.id {
      return Page([], cursor, false);
    }
    if cursor.snapshotId != "" && !s.isAppend {
      return NotAnAppend;
    }
    var total := |s.rows|;
    var start := StartOf(s, cursor);
    var all: seq<string> := [];
    for i := 0 to |batches|
      invariant all == Flatten(batches[..i])
    {
      assert batches[..i + 1][..i] == batches[..i];
      all := all + batches[i];
    }
    assert batches[..|batches|] == batches;
    var from := if start > |all| then |all| else start;
    var end := if from + page > |all| then |all| else from + page;
    var records := all[from..end];
    assert records == Slice(s.rows, start, page) && (from == start || from == |s.rows|);
    var hasMore := from + |records| < total;
    var next := Cursor(s.id, total, "", 0);
    if hasMore {
      next := Cursor(cursor.snapshotId, total, s.id, from + |records|);
    }
    return Page(records, next, hasMore);
  }

  /**
    What a fetch answers. Nothing new without a snapshot or with the one read last; an error when a
    reader that has read something meets a snapshot that is no append; otherwise the rows behind
    those counted, at most a page of them. While rows are left the cursor stays with the snapshot
    read last and remembers where to go on in this one, and then it moves to this one.
   */
  lemma FetchAnswers(snapshot: Option<Snapshot>, cursor: Cursor, page: nat)
    requires page >= 1
    ensures var r := FetchSpec(snapshot, cursor, page);
            && (snapshot.None? || snapshot.value.id == cursor.snapshotId ==> r == Page([], cursor, false))
            && (snapshot.Some? && snapshot.value.id != cursor.snapshotId ==>
                  var s := snapshot.value;
                  && (r.NotAnAppend? <==> cursor.snapshotId != "" && !s.isAppend)
                  && (r.Page? ==> FetchesFrom(s, cursor, page, r)))
  {
  }

  ghost predicate FetchesFrom(s: Snapshot, cursor: Cursor, page: nat, r: Fetched)
    requires r.Page?
  {
    var start := StartOf(s, cursor);
    && (start >= |s.rows| ==> r.records == [])
    && (start < |s.rows| ==>
          && |r.records| == (if |s.rows| - start < page then |s.rows| - start else page)
          && forall i :: 0 <= i < |r.records| ==> r.records[i] == s.rows[start + i])
    && r.hasMore == (start + page < |s.rows|) && r.next.totalRecords == |s.rows|
    && (r.hasMore ==> r.next.snapshotId == cursor.snapshotId && r.next.pending == s.id && r.next.rowOffset == start + page)
    && (!r.hasMore ==> r.next.snapshotId == s.id && r.next.pending == "" && r.next.rowOffset == 0)
  }

  /**
    Only the kind of the current snapshot is looked at. When an append follows an overwrite before
    the next fetch, a reader that had read `n` rows goes on behind the first `n` of the new ones,
    which it never hands out.
   */
  lemma OverwriteThenAppendSkips(before: seq<string>, rows: seq<string>, id: string, cursor: Cursor, page: nat)
    requires page >= 1 && cursor.snapshotId != "" && cursor.snapshotId != id && id != "" && cursor.pending == "" && cursor.totalRecords == |before|
    ensures var r := FetchSpec(Some(Snapshot(id, true, rows)), cursor, page);
            && r.Page? && FetchSpec(Some(Snapshot(id, false, rows)), cursor, page) == NotAnAppend
            && (|rows| <= |before| ==> r == Page([], Cursor(id, |rows|, "", 0), false))
            && (|rows| > |before| ==> r.records <= rows[|before|..] && (|rows| <= |before| + page ==> r.records == rows[|before|..]))
  {
  }

  // ----- appends and pages -----

  /** The table's current snapshot, the reader's cursor, and everything it was handed. */
  datatype World = World(table: Option<Snapshot>, cursor: Cursor, emitted: seq<string>, used: set<string>)

  datatype Step = Append(id: string, rows: seq<string>) | Fetch(page: nat)

  function RowsOf(table: Option<Snapshot>): seq<string> {
    if table.Some? then table.value.rows else []
  }

  /** The reader is in the middle of a snapshot. */
  predicate HalfRead(w: World) {
    w.cursor.pending != ""
  }

  function Next(w: World, step: Step): World {
    match step
    case Append(id, rows) =>
      if id == "" || id in w.used then w
      else w.(table := Some(Snapshot(id, true, RowsOf(w.table) + rows)), used := w.used + {id})
    case Fetch(page) =>
      if page == 0 then w
      else
        var r := FetchSpec(w.table, w.cursor, page);
        if r.Page? then w.(cursor := r.next, emitted := w.emitted + r.records) else w
  }

  const START: World := World(None, NO_CURSOR, [], {})

  ghost predicate IsRun(worlds: seq<World>, steps: seq<Step>) {
    && |worlds| == |steps| + 1 && worlds[0] == START
    && forall i :: 0 <= i < |steps| ==> worlds[i + 1] == Next(worlds[i], steps[i])
  }

  /** Appends come only while no snapshot is half read. */
  ghost predicate AppendsWait(worlds: seq<World>, steps: seq<Step>) {
    forall i :: 0 <= i < |steps| && i < |worlds| && steps[i].Append? ==> !HalfRead(worlds[i])
  }

  /** What was handed out is the beginning of the table, and the cursor knows how far it reaches. */
  predicate InStep(w: World) {
    var rows := RowsOf(w.table);
    && w.emitted <= rows && "" !in w.used
    && (w.table.Some? ==> w.table.value.id in w.used && w.table.value.isAppend)
    && (w.cursor.snapshotId != "" ==> w.cursor.snapshotId in w.used)
    && (if HalfRead(w) then
          w.table.Some? && w.cursor.pending == w.table.value.id && w.cursor.rowOffset == |w.emitted| > 0
          && w.cursor.snapshotId != w.table.value.id && |w.emitted| < |rows| == w.cursor.totalRecords
        else w.cursor.totalRecords == |w.emitted|)
    && (w.table.Some? && w.cursor.snapshotId == w.table.value.id ==> w.emitted == rows)
    && (w.table.None? ==> w.cursor == NO_CURSOR)
  }

  lemma AppendInStep(w: World, id: string, rows: seq<string>)
    requires InStep(w) && !HalfRead(w)
    ensures InStep(Next(w, Append(id, rows)))
  {
  }

  lemma FetchInStep(w: World, page: nat)
    requires InStep(w) && page >= 1
    ensures var v := Next(w, Fetch(page));
            && InStep(v) && w.emitted <= v.emitted
            && (w.emitted != RowsOf(w.table) ==> |v.emitted| > |w.emitted|)
            && FetchSpec(w.table, w.cursor, page).Page?
            && (!FetchSpec(w.table, w.cursor, page).hasMore <==> v.emitted == RowsOf(w.table))
  {
    var rows := RowsOf(w.table);
    if w.table.Some? && w.cursor.snapshotId != w.table.value.id {
      assert StartOf(w.table.value, w.cursor) == |w.emitted|;
      assert w.emitted == rows[..|w.emitted|];
    }
  }

  /**
    With appends only between complete reads: what the reader was handed is always the beginning
    of the table, each row once and in order, whatever the page sizes.
   */
  lemma {:induction false} RowsOnceInOrder(worlds: seq<World>, steps: seq<Step>, n: nat)
    requires IsRun(worlds, steps) && AppendsWait(worlds, steps) && n < |worlds|
    ensures InStep(worlds[n]) && worlds[n].emitted <= RowsOf(worlds[n].table)
  {
    hide Next, InStep;
    if n == 0 {
      StartInStep();
    } else {
      RowsOnceInOrder(worlds, steps, n - 1);
      match steps[n - 1] {
        case Append(id, rows) => AppendInStep(worlds[n - 1], id, rows);
        case Fetch(page) =>
          if page == 0 {
            NoPage(worlds[n - 1]);
          } else {
            FetchInStep(worlds[n - 1], page);
          }
      }
      InStepPrefix(worlds[n]);
    }
  }

  lemma StartInStep()
    ensures InStep(START) && START.emitted <= RowsOf(START.table)
  {
  }

  lemma NoPage(w: World)
    ensures Next(w, Fetch(0)) == w
  {
  }

  lemma InStepPrefix(w: World)
    requires InStep(w)
    ensures w.emitted <= RowsOf(w.table)
  {
  }

  /** Fetching until there is no more hands out the rest of the table, and then nothing. */
  method Drain(w: World, page: nat) returns (v: World)
    requires InStep(w) && page >= 1
    ensures InStep(v) && v.table == w.table && w.emitted <= v.emitted == RowsOf(w.table)
    ensures Next(v, Fetch(page)).emitted == v.emitted
  {
    hide InStep;
    v := w;
    var hasMore := true;
    InStepPrefix(v);
    while hasMore
      invariant InStep(v) && v.table == w.table && w.emitted <= v.emitted <= RowsOf(v.table)
      invariant !hasMore ==> v.emitted == RowsOf(w.table)
      decreases hasMore, |RowsOf(w.table)| - |v.emitted|
    {
      FetchInStep(v, page);
      hasMore := FetchSpec(v.table, v.cursor, page).hasMore;
      v := Next(v, Fetch(page));
      InStepPrefix(v);
    }
    FetchInStep(v, page);
    InStepPrefix(Next(v, Fetch(page)));
  }

  /** An append keeps the reader in step exactly when no snapshot is half read. */
  lemma AppendExact(w: World, id: string, rows: seq<string>)
    requires InStep(w) && id != "" && id !in w.used
    ensures InStep(Next(w, Append(id, rows))) <==> !HalfRead(w)
  {
  }

  /** An append in the middle of a read makes the reader skip what was left of the older snapshot. */
  lemma AppendMidReadSkips(w: World, id: string, rows: seq<string>, page: nat)
    requires InStep(w) && HalfRead(w) && id != "" && id !in w.used && page >= 1
    ensures var before := RowsOf(w.table);
            var v := Next(Next(w, Append(id, rows)), Fetch(page));
            && |w.emitted| < |before|
            && v.emitted == w.emitted + Slice(rows, 0, page)
            && (HalfRead(v) ==> v.cursor.rowOffset >= |before|)
  {
    var before := RowsOf(w.table);
    assert Slice(before + rows, |before|, page) == Slice(rows, 0, page);
  }

  // ----- writing -----

  /** What the summary of a snapshot says about the append that made it. */
  datatype Commit = Commit(id: string, execution: string, node: string, recordCount: nat)

  /** An attempt fails before the commit, commits without the writer learning of it, or succeeds. */
  datatype Outcome = FailsBefore | LosesReply | Succeeds
  datatype Appended = Appended(id: string, recordCount: nat, idempotent: bool) | Failed

  predicate IsOf(c: Commit, execution: string, node: string) {
    c.execution == execution && c.node == node
  }

  class IcebergTable {
    var commits: seq<Commit>

    /** The latest snapshot this node wrote for this execution. */
    method FindCommitted(execution: string, node: string) returns (r: Option<Commit>)
      ensures r == Latest(commits, execution, node)
    {
      var i := |commits|;
      assert commits[..i] == commits;
      while i > 0
        invariant 0 <= i <= |commits| && Latest(commits, execution, node) == Latest(commits[..i], execution, node)
      {
        i := i - 1;
        assert commits[..i + 1][..i] == commits[..i];
        if IsOf(commits[i], execution, node) {
          return Some(commits[i]);
        }
      }
      return None;
    }

    /** One attempt at an append; `id` is the snapshot id a commit would get. */
    method Append(execution: string, node: string, rows: seq<string>, id: string, outcome: Outcome) returns (r: Appended)
      modifies this
      ensures (commits, r) == Attempt(old(commits), execution, node, |rows|, id, outcome)
    {
      var committed := FindCommitted(execution, node);
      if committed.Some? {
        return Appended(committed.value.id, committed.value.recordCount, true);
      }
      if outcome == FailsBefore {
        return Failed;
      }
      commits := commits + [Commit(id, execution, node, |rows|)];
      return if outcome == LosesReply then Failed else Appended(id, |rows|, false);
    }
  }

  /** The last commit of an execution and node. */
  function Latest(commits: seq<Commit>, execution: string, node: string): Option<Commit> {
    if commits == [] then None
    else
      var c := commits[|commits| - 1];
      if IsOf(c, execution, node) then Some(c) else Latest(commits[..|commits| - 1], execution, node)
  }

  function Attempt(commits: seq<Commit>, execution: string, node: string, count: nat, id: string, outcome: Outcome): (seq<Commit>, Appended) {
    var committed := Latest(commits, execution, node);
    if committed.Some? then (commits, Appended(committed.value.id, committed.value.recordCount, true))
    else if outcome == FailsBefore then (commits, Failed)
    else (commits + [Commit(id, execution, node, count)], if outcome == LosesReply then Failed else Appended(id, count, false))
  }

  /** Our attempts, and whatever other executions and nodes append in between. */
  datatype Event = Try(id: string, outcome: Outcome) | Other(c: Commit)

  function After(commits: seq<Commit>, execution: string, node: string, count: nat, event: Event): seq<Commit> {
    match event
    case Try(id, outcome) => Attempt(commits, execution, node, count, id, outcome).0
    case Other(c) => if IsOf(c, execution, node) then commits else commits + [c]
  }

  function AfterAll(commits: seq<Commit>, execution: string, node: string, count: nat, events: seq<Event>): seq<Commit> {
    if events == [] then commits
    else After(AfterAll(commits, execution, node, count, events[..|events| - 1]), execution, node, count, events[|events| - 1])
  }

  /** The appends this node made for this execution. */
  function Own(commits: seq<Commit>, execution: string, node: string): seq<Commit> {
    if commits == [] then []
    else
      var c := commits[|commits| - 1];
      Own(commits[..|commits| - 1], execution, node) + if IsOf(c, execution, node) then [c] else []
  }

  predicate Commits(event: Event) {
    event.Try? && event.outcome != FailsBefore
  }

  lemma {:induction false} OwnIsLatest(commits: seq<Commit>, execution: string, node: string)
    ensures Latest(commits, execution, node).None? <==> Own(commits, execution, node) == []
    ensures Latest(commits, execution, node).Some? ==>
      var own := Own(commits, execution, node);
      own[|own| - 1] == Latest(commits, execution, node).value
  {
    if commits != [] {
      OwnIsLatest(commits[..|commits| - 1], execution, node);
    }
  }

  /**
    However often the append is retried one attempt after the other, and whatever else is appended
    meanwhile: exactly one snapshot of this execution and node once any attempt has reached its
    commit, the one made by the first that did, and none before.
   */
  lemma {:induction false} RetriesCommitOnce(commits: seq<Commit>, execution: string, node: string, count: nat, events: seq<Event>)
    requires Own(commits, execution, node) == []
    ensures var own := Own(AfterAll(commits, execution, node, count, events), execution, node);
            match FirstCommit(events)
            case None => own == []
            case Some(k) => own == [Commit(events[k].id, execution, node, count)]
  {
    if events != [] {
      var n := |events| - 1;
      RetriesCommitOnce(commits, execution, node, count, events[..n]);
      var before := AfterAll(commits, execution, node, count, events[..n]);
      OwnIsLatest(before, execution, node);
      OwnNext(before, execution, node, count, events[n]);
    }
  }

  lemma OwnNext(commits: seq<Commit>, execution: string, node: string, count: nat, event: Event)
    ensures var own := Own(commits, execution, node);
            Own(After(commits, execution, node, count, event), execution, node) ==
              if Latest(commits, execution, node).None? && Commits(event) then own + [Commit(event.id, execution, node, count)] else own
  {
    match event
    case Try(id, outcome) => assert (commits + [Commit(id, execution, node, count)])[..|commits|] == commits;
    case Other(c) => assert (commits + [c])[..|commits|] == commits;
  }

  /** The first attempt that reaches its commit. */
  function FirstCommit(events: seq<Event>): (r: Option<nat>)
    ensures r.Some? ==> r.value < |events| && Commits(events[r.value])
  {
    if events == [] then None
    else
      var n := |events| - 1;
      var before := FirstCommit(events[..n]);
      if before.Some? then before else if Commits(events[n]) then Some(n) else None
  }

  /** Every attempt that reports success names that one snapshot and its record count. */
  lemma SuccessNamesTheCommit(commits: seq<Commit>, execution: string, node: string, count: nat, id: string, outcome: Outcome)
    requires |Own(commits, execution, node)| <= 1
    ensures var a := Attempt(commits, execution, node, count, id, outcome);
            a.1.Appended? ==>
              Own(a.0, execution, node) == [Commit(a.1.id, execution, node, a.1.recordCount)] && (a.1.idempotent <==> Own(commits, execution, node) != [])
    ensures Attempt(commits, execution, node, count, id, outcome).1.Appended? <==> Own(commits, execution, node) != [] || outcome == Succeeds
  {
    OwnIsLatest(commits, execution, node);
    assert (commits + [Commit(id, execution, node, count)])[..|commits|] == commits;
    OwnAre(commits, execution, node);
  }

  lemma {:induction false} OwnAre(commits: seq<Commit>, execution: string, node: string)
    ensures forall c :: c in Own(commits, execution, node) ==> IsOf(c, execution, node)
  {
    if commits != [] {
      OwnAre(commits[..|commits| - 1], execution, node);
    }
  }
}
