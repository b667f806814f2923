/**
  Delivery of stream events to pipelines: `deliverEvent` and `consumePipelineEventStream` in
  routes_triggers.go, with one consumer. Replies of Redis, of the database and of `fireExecution`
  are inputs; the process may crash at the marked points.
 */
module EventDelivery {
  import opened Options

  /** An event id and the id of a pipeline row. */
  type Pair = (string, string)

  datatype Row = Row(id: string, readable: bool)
  /** `FireLost`: the workflow was started, but its start or its record is reported as failed. */
  datatype FireReply = FireWorks | FireLost | FireOverQuota | FireFails

  /** `LockLost`: the lock was set, but the reply is an error. */
  datatype LockReply = LockWorks | LockLost | LockFails
  datatype Crash = NoCrash | AfterLock | AfterFire | AfterMark
  datatype Reply = Reply(existsWorks: bool, lock: LockReply, fire: FireReply, markWorks: bool, unlockWorks: bool, crash: Crash)

  datatype Outcome = AlreadyDone | LockedOut | Unreadable | Fired | OverQuota | FireFailed | Crashed

  /** Redis keys, and the history of starts and of quota refusals. */
  datatype State = State(done: set<Pair>, locks: set<Pair>, fired: seq<Pair>, refused: seq<Pair>)

  function Unlock(s: State, p: Pair, r: Reply): State {
    if r.unlockWorks then s.(locks := s.locks - {p}) else s
  }

  function Mark(s: State, p: Pair, r: Reply): State {
    if r.markWorks then s.(done := s.done + {p}) else s
  }

  function Fire(s: State, p: Pair, fire: FireReply): (State, Outcome) {
    match fire
    case FireWorks => (s.(fired := s.fired + [p]), Fired)
    case FireLost => (s.(fired := s.fired + [p]), FireFailed)
    case FireOverQuota => (s.(refused := s.refused + [p]), OverQuota)
    case FireFails => (s, FireFailed)
  }

  /** Starting the pipeline and marking the pair done, with the lock held. */
  function FireMarked(s: State, p: Pair, r: Reply): (State, Outcome) {
    var (fired, o) := Fire(s, p, r.fire);
    if r.crash == AfterFire then (fired, Crashed)
    else if o == FireFailed then (Unlock(fired, p, r), FireFailed)
    else if r.crash == AfterMark then (Mark(fired, p, r), Crashed)
    else (Unlock(Mark(fired, p, r), p, r), o)
  }

  /** An event without an id is neither marked nor locked. */
  function FireUnmarked(s: State, p: Pair, r: Reply): (State, Outcome) {
    var (fired, o) := Fire(s, p, r.fire);
    (fired, if r.crash == AfterFire then Crashed else o)
  }

  /** One matched row. A failing look at the done mark counts as "not done". */
  function DeliverRow(s: State, event: string, row: Row, r: Reply): (State, Outcome) {
    var p := (event, row.id);
    if event == "" then if row.readable then FireUnmarked(s, p, r) else (s, Unreadable)
    else if r.existsWorks && p in s.done then (s, AlreadyDone)
    else if r.lock.LockFails? || p in s.locks then (s, LockedOut)
    else
      var locked := s.(locks := s.locks + {p});
      if r.lock.LockLost? then (locked, LockedOut)
      else if r.crash == AfterLock then (locked, Crashed)
      else if !row.readable then (Unlock(locked, p, r), Unreadable)
      else FireMarked(locked, p, r)
  }

  /** All matched rows in order, up to a crash. */
  function DeliverRows(s: State, event: string, rows: seq<Row>, replies: seq<Reply>): (r: (State, seq<Outcome>))
    requires |rows| == |replies|
    ensures |r.1| <= |rows|
    ensures forall k :: 0 <= k < |r.1| - 1 ==> r.1[k] != Crashed
    ensures |r.1| < |rows| ==> r.1 != [] && r.1[|r.1| - 1] == Crashed
  {
    if rows == [] then (s, [])
    else
      var n := |rows| - 1;
      var before := DeliverRows(s, event, rows[..n], replies[..n]);
      if HasCrashed(before.1) then before
      else
        var last := DeliverRow(before.0, event, rows[n], replies[n]);
        (last.0, before.1 + [last.1])
  }

  predicate HasCrashed(outcomes: seq<Outcome>) {
    outcomes != [] && outcomes[|outcomes| - 1] == Crashed
  }

  predicate Settles(o: Outcome) {
    o in {AlreadyDone, Unreadable, Fired, OverQuota}
  }

  predicate AllSettle(outcomes: seq<Outcome>) {
    forall k :: 0 <= k < |outcomes| ==> Settles(outcomes[k])
  }

  datatype Result = Delivered | Retry | Crash

  function ResultOf(outcomes: seq<Outcome>): Result {
    if HasCrashed(outcomes) then Crash else if AllSettle(outcomes) then Delivered else Retry
  }

  lemma ResultNext(outcomes: seq<Outcome>, o: Outcome)
    requires !HasCrashed(outcomes)
    ensures ResultOf(outcomes + [o]) == if o == Crashed then Crash else if Settles(o) then ResultOf(outcomes) else Retry
  {
    var longer := outcomes + [o];
    forall k | 0 <= k < |outcomes| ensures longer[k] == outcomes[k] {
    }
    assert AllSettle(longer) <==> AllSettle(outcomes) && Settles(longer[|outcomes|]);
  }

  // ----- the stream -----

  /** What a delivery of an item found: the pipelines it matched at that moment. */
  datatype Record = Record(item: nat, rows: seq<Row>)

  /**
    The stream by position with the event id of each item; the items from `next` on have never
    been handed out, `unacked` are those handed out and not acknowledged.
   */
  datatype World = World(state: State, items: seq<string>, next: nat, unacked: set<nat>, deleted: set<nat>, pending: bool, log: seq<Record>)

  /** `AckLost`: acknowledged, but the reply is an error. */
  datatype AckReply = AckWorks | AckLost | AckFails
  datatype ItemReply = ItemReply(rows: Option<seq<Row>>, replies: seq<Reply>, ack: AckReply, deleteWorks: bool)

  predicate Fits(r: ItemReply) {
    r.rows.Some? ==> |r.replies| == |r.rows.value|
  }

  /** A delivered item is acknowledged, and deleted only when the acknowledgement is known to have worked. */
  function Acked(w: World, i: nat, r: ItemReply): World {
    match r.ack
    case AckFails => w
    case AckLost => w.(unacked := w.unacked - {i})
    case AckWorks => w.(unacked := w.unacked - {i}, deleted := if r.deleteWorks then w.deleted + {i} else w.deleted)
  }

  function RunItem(w: World, i: nat, r: ItemReply): (World, Result)
    requires i < |w.items| && Fits(r)
  {
    if r.rows.None? then (w, Retry)
    else
      var d := DeliverRows(w.state, w.items[i], r.rows.value, r.replies);
      var after := w.(state := d.0, log := w.log + [Record(i, r.rows.value)]);
      if ResultOf(d.1) == Delivered then (Acked(after, i, r), Delivered) else (after, ResultOf(d.1))
  }

  predicate BatchFits(size: nat, batch: seq<nat>, replies: seq<ItemReply>) {
    |batch| == |replies| && forall k :: 0 <= k < |batch| ==> batch[k] < size && Fits(replies[k])
  }

  /** The messages of one read in order, up to a crash, and whether some must be retried. */
  function RunBatch(w: World, batch: seq<nat>, replies: seq<ItemReply>): (r: (World, Result))
    requires BatchFits(|w.items|, batch, replies)
    ensures r.0.items == w.items && r.0.next == w.next && r.0.pending == w.pending
  {
    if batch == [] then (w, Delivered)
    else
      var n := |batch| - 1;
      var before := RunBatch(w, batch[..n], replies[..n]);
      if before.1 == Crash then before
      else
        var last := RunItem(before.0, batch[n], replies[n]);
        (last.0, if last.1 == Delivered then before.1 else last.1)
  }

  /** A read of the stream: nothing to hand out, an error, or messages. */
  datatype Read = Nothing | ReadFails(taken: nat) | Messages(batch: seq<nat>)

  const READ_COUNT: nat := 20

  /** What a consumer group may answer to a read of the pending list, or of new items. */
  ghost predicate Legal(w: World, read: Read) {
    match read
    case Nothing => w.pending ==> w.unacked == {}
    case ReadFails(taken) => w.next + taken <= |w.items| && (w.pending ==> taken == 0)
    case Messages(batch) =>
      |batch| <= READ_COUNT &&
      if w.pending then (forall i :: i in batch ==> i in w.unacked) && (batch == [] ==> w.unacked == {})
      else w.next + |batch| <= |w.items| && forall k :: 0 <= k < |batch| ==> batch[k] == w.next + k
  }

  function Span(from: nat, n: nat): (r: set<nat>)
    ensures forall i: nat :: i in r <==> from <= i < from + n
  {
    if n == 0 then {} else Span(from, n - 1) + {from + n - 1}
  }

  function Handed(w: World, taken: nat): World {
    w.(next := w.next + taken, unacked := w.unacked + Span(w.next, taken))
  }

  /** One turn of the consumer loop; after a crash the consumer starts again with the pending list. */
  function Iterate(w: World, read: Read, replies: seq<ItemReply>): World
    requires InRange(w, read, replies)
  {
    match read
    case Nothing => w.(pending := false)
    case ReadFails(taken) => Handed(w, taken)
    case Messages(batch) =>
      var r := RunBatch(if w.pending then w else Handed(w, |batch|), batch, replies);
      r.0.(pending := if r.1 != Delivered then true else w.pending && batch != [])
  }

  predicate InRange(w: World, read: Read, replies: seq<ItemReply>) {
    read.Messages? ==> BatchFits(|w.items|, read.batch, replies)
  }

  class EventConsumer {
    var done: set<Pair>
    var locks: set<Pair>
    var fired: seq<Pair>
    var refused: seq<Pair>
    var items: seq<string>
    var next: nat
    var unacked: set<nat>
    var deleted: set<nat>
    var pending: bool
    ghost var log: seq<Record>

    function Now(): State
      reads `done, `locks, `fired, `refused
    {
      State(done, locks, fired, refused)
    }

    /** One row: what it contributes to the answer, and the state it leaves. */
    method HandleRow(event: string, row: Row, r: Reply) returns (o: Outcome)
      modifies `done, `locks, `fired, `refused
      ensures (Now(), o) == DeliverRow(old(Now()), event, row, r)
    {
      var p := (event, row.id);
      if event != "" {
        if r.existsWorks && p in done {
          return AlreadyDone;
        }
        if r.lock.LockFails? || p in locks {
          return LockedOut;
        }
        locks := locks + {p};
        if r.lock.LockLost? {
          return LockedOut;
        }
        if r.crash == AfterLock {
          return Crashed;
        }
      }
      if !row.readable {
        o := Unreadable;
      } else {
        match r.fire {
          case FireWorks =>
            fired := fired + [p];
            o := Fired;
          case FireLost =>
            fired := fired + [p];
            o := FireFailed;
          case FireOverQuota =>
            refused := refused + [p];
            o := OverQuota;
          case FireFails =>
            o := FireFailed;
        }
        if r.crash == AfterFire {
          return Crashed;
        }
        if event != "" && o != FireFailed {
          if r.markWorks {
            done := done + {p};
          }
          if r.crash == AfterMark {
            return Crashed;
          }
        }
      }
      if event != "" && r.unlockWorks {
        locks := locks - {p};
      }
    }

    /** `rows` is `None` when the query fails; then nothing happens and the event is to be retried. */
    method DeliverEvent(event: string, rows: Option<seq<Row>>, replies: seq<Reply>) returns (result: Result, ghost outcomes: seq<Outcome>)
      requires rows.Some? ==> |replies| == |rows.value|
      modifies `done, `locks, `fired, `refused
      ensures rows.None? ==> result == Retry && outcomes == [] && Now() == old(Now())
      ensures rows.Some? ==> (Now(), outcomes) == DeliverRows(old(Now()), event, rows.value, replies) && result == ResultOf(outcomes)
    {
      outcomes := [];
      if rows.None? {
        return Retry, [];
      }
      result := Delivered;
      var i := 0;
      while i < |rows.value|
        invariant 0 <= i <= |rows.value|
        invariant (Now(), outcomes) == DeliverRows(old(Now()), event, rows.value[..i], replies[..i])
        invariant !HasCrashed(outcomes) && result == ResultOf(outcomes)
      {
        assert rows.value[..i + 1][..i] == rows.value[..i] && replies[..i + 1][..i] == replies[..i];
        var o := HandleRow(event, rows.value[i], replies[i]);
        ResultNext(outcomes, o);
        outcomes := outcomes + [o];
        if o == Crashed {
          StaysCrashed(old(Now()), event, rows.value, replies, i + 1);
          return Crash, outcomes;
        }
        if !Settles(o) {
          result := Retry;
        }
        i := i + 1;
      }
      assert rows.value[..i] == rows.value && replies[..i] == replies;
    }

    ghost function Snapshot(): World
      reads this
    {
      World(Now(), items, next, unacked, deleted, pending, log)
    }

    method HandleItem(i: nat, r: ItemReply) returns (result: Result)
      requires i < |items| && Fits(r)
      modifies `done, `locks, `fired, `refused, `unacked, `deleted, `log
      ensures (Snapshot(), result) == RunItem(old(Snapshot()), i, r)
    {
      ghost var outcomes;
      result, outcomes := DeliverEvent(items[i], r.rows, r.replies);
      if r.rows.Some? {
        log := log + [Record(i, r.rows.value)];
      }
      if result == Delivered && !r.ack.AckFails? {
        unacked := unacked - {i};
        if r.ack.AckWorks? && r.deleteWorks {
          deleted := deleted + {i};
        }
      }
    }

    method HandleBatch(batch: seq<nat>, replies: seq<ItemReply>) returns (result: Result)
      requires BatchFits(|items|, batch, replies)
      modifies `done, `locks, `fired, `refused, `unacked, `deleted, `log
      ensures (Snapshot(), result) == RunBatch(old(Snapshot()), batch, replies)
    {
      hide RunItem, RunBatch, Fits;
      ghost var start := Snapshot();
      var retry, count := false, 0;
      BatchStart(start, batch, replies);
      while count < |batch|
        invariant 0 <= count <= |batch| && items == start.items
        invariant (Snapshot(), if retry then Retry else Delivered) == RunBatch(start, batch[..count], replies[..count])
      {
        BatchNext(start, batch, replies, count);
        result := HandleItem(batch[count], replies[count]);
        if result == Crash {
          BatchStaysCrashed(start, batch, replies, count + 1);
          return;
        }
        if result == Retry {
          retry := true;
        }
        count := count + 1;
      }
      assert batch[..count] == batch && replies[..count] == replies;
      return if retry then Retry else Delivered;
    }

    /** One turn of the loop. */
    method Consume(read: Read, replies: seq<ItemReply>)
      requires InRange(Snapshot(), read, replies)
      modifies this
      ensures Snapshot() == Iterate(old(Snapshot()), read, replies)
    {
      hide RunBatch, BatchFits;
      match read {
        case Nothing =>
          pending := false;
        case ReadFails(taken) =>
          unacked := unacked + Span(next, taken);
          next := next + taken;
        case Messages(batch) =>
          if !pending {
            unacked := unacked + Span(next, |batch|);
            next := next + |batch|;
          }
          var result := HandleBatch(batch, replies);
          if |batch| == 0 {
            pending := false;
          }
          if result != Delivered {
            pending := true;
          }
      }
    }
  }

  lemma BatchStart(w: World, batch: seq<nat>, replies: seq<ItemReply>)
    requires BatchFits(|w.items|, batch, replies)
    ensures RunBatch(w, batch[..0], replies[..0]) == (w, Delivered)
  {
  }

  lemma BatchNext(w: World, batch: seq<nat>, replies: seq<ItemReply>, k: nat)
    requires BatchFits(|w.items|, batch, replies)
    requires k < |batch|
    ensures batch[k] < |w.items| && Fits(replies[k])
    ensures var before := RunBatch(w, batch[..k], replies[..k]);
            before.1 != Crash ==>
              var last := RunItem(before.0, batch[k], replies[k]);
              RunBatch(w, batch[..k + 1], replies[..k + 1]) == (last.0, if last.1 == Delivered then before.1 else last.1)
  {
    assert batch[..k + 1][..k] == batch[..k] && replies[..k + 1][..k] == replies[..k];
  }

  lemma {:induction false} BatchStaysCrashed(w: World, batch: seq<nat>, replies: seq<ItemReply>, k: nat)
    requires BatchFits(|w.items|, batch, replies)
    requires k <= |batch| && RunBatch(w, batch[..k], replies[..k]).1 == Crash
    ensures RunBatch(w, batch, replies) == RunBatch(w, batch[..k], replies[..k])
  {
    hide RunItem, Fits;
    var n := |batch|;
    if k < n {
      assert batch[..n - 1][..k] == batch[..k] && replies[..n - 1][..k] == replies[..k];
      BatchStaysCrashed(w, batch[..n - 1], replies[..n - 1], k);
    } else {
      assert batch[..k] == batch && replies[..k] == replies;
    }
  }

  /** After a crash the remaining rows are not looked at. */
  lemma {:induction false} StaysCrashed(s: State, event: string, rows: seq<Row>, replies: seq<Reply>, k: nat)
    requires |rows| == |replies| && k <= |rows|
    requires HasCrashed(DeliverRows(s, event, rows[..k], replies[..k]).1)
    ensures DeliverRows(s, event, rows, replies) == DeliverRows(s, event, rows[..k], replies[..k])
  {
    var n := |rows|;
    if k < n {
      assert rows[..n - 1][..k] == rows[..k] && replies[..n - 1][..k] == replies[..k];
      StaysCrashed(s, event, rows[..n - 1], replies[..n - 1], k);
    } else {
      assert rows[..k] == rows && replies[..k] == replies;
    }
  }

  // ----- what an acknowledgement means -----

  /** Every done mark stands for a start or a quota refusal. */
  ghost predicate MarksMean(s: State) {
    forall p :: p in s.done ==> p in s.fired || p in s.refused
  }

  /** The row was fired for the event or refused by quota, or its definition cannot be read. */
  predicate RowHandled(s: State, event: string, row: Row) {
    !row.readable || (event, row.id) in s.fired || (event, row.id) in s.refused
  }

  predicate RowsHandled(s: State, event: string, rows: seq<Row>) {
    forall k :: 0 <= k < |rows| ==> RowHandled(s, event, rows[k])
  }

  /** Histories only grow. */
  predicate Later(s: State, t: State) {
    s.fired <= t.fired && s.refused <= t.refused
  }

  lemma FireMarkedHandles(s: State, p: Pair, r: Reply)
    requires MarksMean(s)
    ensures var d := FireMarked(s, p, r);
            && MarksMean(d.0) && Later(s, d.0)
            && (Settles(d.1) ==> p in d.0.fired || p in d.0.refused)
  {
    var f, q := s.fired + [p], s.refused + [p];
    assert f[|s.fired|] == p && q[|s.refused|] == p;
  }

  lemma DeliverRowHandles(s: State, event: string, row: Row, r: Reply)
    requires MarksMean(s)
    ensures var d := DeliverRow(s, event, row, r);
            && MarksMean(d.0) && Later(s, d.0)
            && (Settles(d.1) ==> RowHandled(d.0, event, row))
  {
    hide FireMarked;
    var p := (event, row.id);
    var f, q := s.fired + [p], s.refused + [p];
    assert f[|s.fired|] == p && q[|s.refused|] == p;
    FireMarkedHandles(s.(locks := s.locks + {p}), p, r);
  }

  lemma StaysHandled(s: State, t: State, event: string, row: Row)
    requires Later(s, t) && RowHandled(s, event, row)
    ensures RowHandled(t, event, row)
  {
    var p := (event, row.id);
    if p in s.fired {
      var k :| 0 <= k < |s.fired| && s.fired[k] == p;
      assert t.fired[k] == p;
    } else if p in s.refused {
      var k :| 0 <= k < |s.refused| && s.refused[k] == p;
      assert t.refused[k] == p;
    }
  }

  lemma RowsStayHandled(s: State, t: State, event: string, rows: seq<Row>)
    requires Later(s, t) && RowsHandled(s, event, rows)
    ensures RowsHandled(t, event, rows)
  {
    hide Later, RowHandled;
    forall k | 0 <= k < |rows| ensures RowHandled(t, event, rows[k]) {
      StaysHandled(s, t, event, rows[k]);
    }
  }

  /** A delivery reported as successful has handled every matched row. */
  lemma {:induction false} DeliverRowsHandle(s: State, event: string, rows: seq<Row>, replies: seq<Reply>)
    requires |rows| == |replies| && MarksMean(s)
    ensures var d := DeliverRows(s, event, rows, replies);
            && MarksMean(d.0) && Later(s, d.0)
            && (ResultOf(d.1) == Delivered ==> RowsHandled(d.0, event, rows))
  {
    hide DeliverRow, MarksMean, RowHandled;
    if rows != [] {
      var n := |rows| - 1;
      DeliverRowsHandle(s, event, rows[..n], replies[..n]);
      var before := DeliverRows(s, event, rows[..n], replies[..n]);
      if !HasCrashed(before.1) {
        DeliverRowHandles(before.0, event, rows[n], replies[n]);
        var last := DeliverRow(before.0, event, rows[n], replies[n]);
        ResultNext(before.1, last.1);
        if ResultOf(before.1 + [last.1]) == Delivered {
          RowsStayHandled(before.0, last.0, event, rows[..n]);
          HandledNext(last.0, event, rows);
        }
      }
    }
  }

  lemma HandledNext(s: State, event: string, rows: seq<Row>)
    requires rows != [] && RowsHandled(s, event, rows[..|rows| - 1]) && RowHandled(s, event, rows[|rows| - 1])
    ensures RowsHandled(s, event, rows)
  {
    hide RowHandled;
    forall k | 0 <= k < |rows| ensures RowHandled(s, event, rows[k]) {
      if k < |rows| - 1 {
        assert rows[..|rows| - 1][k] == rows[k];
      }
    }
  }

  /** Some delivery of the item has handled all the rows it matched. */
  ghost predicate ItemHandled(w: World, i: nat) {
    i < |w.items| && exists k :: 0 <= k < |w.log| && w.log[k].item == i && RowsHandled(w.state, w.items[i], w.log[k].rows)
  }

  ghost predicate Advances(w: World, v: World) {
    w.items <= v.items && w.log <= v.log && Later(w.state, v.state)
  }

  lemma ItemStaysHandled(w: World, v: World, i: nat)
    requires Advances(w, v) && ItemHandled(w, i)
    ensures ItemHandled(v, i)
  {
    hide Later, RowsHandled;
    var k :| 0 <= k < |w.log| && w.log[k].item == i && RowsHandled(w.state, w.items[i], w.log[k].rows);
    RowsStayHandled(w.state, v.state, w.items[i], w.log[k].rows);
    assert v.log[k] == w.log[k] && v.items[i] == w.items[i];
  }

  /** What is acknowledged was handled; what is deleted was acknowledged. */
  ghost predicate AcksMean(w: World) {
    && MarksMean(w.state) && w.next <= |w.items| && (forall i :: i in w.unacked ==> i < w.next)
    && (forall i: nat :: i < w.next && i !in w.unacked ==> ItemHandled(w, i))
    && (forall i :: i in w.deleted ==> i < w.next && i !in w.unacked)
  }

  /** While new items are read, whatever is still unacknowledged has been handled. */
  ghost predicate NothingForgotten(w: World) {
    w.pending || forall i :: i in w.unacked ==> ItemHandled(w, i)
  }

  lemma RunItemHandles(w: World, i: nat, r: ItemReply)
    requires i < |w.items| && Fits(r) && MarksMean(w.state)
    ensures var d := RunItem(w, i, r);
            && MarksMean(d.0.state) && Advances(w, d.0) && d.0.next == w.next
            && (d.1 == Delivered ==> ItemHandled(d.0, i))
            && (d.0.unacked == w.unacked || (d.1 == Delivered && d.0.unacked == w.unacked - {i}))
            && (d.0.deleted == w.deleted || (i !in d.0.unacked && d.0.deleted == w.deleted + {i}))
  {
    hide DeliverRows, MarksMean, RowsHandled, ResultOf;
    if r.rows.Some? {
      DeliverRowsHandle(w.state, w.items[i], r.rows.value, r.replies);
      var d := RunItem(w, i, r);
      assert d.0.log[|w.log|] == Record(i, r.rows.value);
    }
  }

  lemma ItemsStayHandled(w: World, v: World, items: set<nat>)
    requires Advances(w, v) && forall i :: i in items ==> ItemHandled(w, i)
    ensures forall i :: i in items ==> ItemHandled(v, i)
  {
    hide Advances, ItemHandled;
    forall i | i in items ensures ItemHandled(v, i) {
      ItemStaysHandled(w, v, i);
    }
  }

  lemma RunItemKeepsAcks(w: World, i: nat, r: ItemReply)
    requires i < w.next <= |w.items| && Fits(r) && AcksMean(w)
    ensures AcksMean(RunItem(w, i, r).0)
  {
    hide RunItem, ItemHandled, Advances, MarksMean;
    RunItemHandles(w, i, r);
    var v := RunItem(w, i, r).0;
    ItemsStayHandled(w, v, Span(0, w.next) - w.unacked);
    assert v.items == w.items by { RunItemItems(w, i, r); }
    forall j: nat | j < v.next && j !in v.unacked ensures ItemHandled(v, j) {
      assert j in w.unacked || j in Span(0, w.next) - w.unacked;
    }
  }

  lemma RunItemItems(w: World, i: nat, r: ItemReply)
    requires i < |w.items| && Fits(r)
    ensures RunItem(w, i, r).0.items == w.items && RunItem(w, i, r).0.next == w.next
  {
  }

  lemma AdvancesOn(u: World, v: World, w: World)
    requires Advances(u, v) && Advances(v, w)
    ensures Advances(u, w)
  {
  }

  lemma {:induction false} RunBatchHandles(w: World, batch: seq<nat>, replies: seq<ItemReply>)
    requires AcksMean(w) && BatchFits(|w.items|, batch, replies) && forall k :: 0 <= k < |batch| ==> batch[k] < w.next
    ensures var d := RunBatch(w, batch, replies);
            && AcksMean(d.0) && Advances(w, d.0) && d.0.unacked <= w.unacked
            && (d.1 == Delivered ==> forall k :: 0 <= k < |batch| ==> ItemHandled(d.0, batch[k]))
  {
    hide RunItem, AcksMean, ItemHandled, Advances;
    if batch == [] {
      AdvancesFrom(w);
    } else {
      var n := |batch| - 1;
      RunBatchHandles(w, batch[..n], replies[..n]);
      var before := RunBatch(w, batch[..n], replies[..n]);
      if before.1 != Crash {
        MarksOf(before.0);
        RunItemHandles(before.0, batch[n], replies[n]);
        RunItemKeepsAcks(before.0, batch[n], replies[n]);
        var last := RunItem(before.0, batch[n], replies[n]);
        AdvancesOn(w, before.0, last.0);
        if before.1 == Delivered && last.1 == Delivered {
          forall k | 0 <= k < |batch| ensures ItemHandled(last.0, batch[k]) {
            if k < n {
              assert batch[..n][k] == batch[k];
              ItemStaysHandled(before.0, last.0, batch[k]);
            }
          }
        }
      }
    }
  }

  lemma AdvancesFrom(w: World)
    ensures Advances(w, w)
  {
  }

  lemma MarksOf(w: World)
    requires AcksMean(w)
    ensures MarksMean(w.state) && w.next <= |w.items|
  {
  }

  lemma HandedKeepsAcks(w: World, taken: nat)
    requires AcksMean(w) && w.next + taken <= |w.items|
    ensures AcksMean(Handed(w, taken)) && Advances(w, Handed(w, taken))
  {
    hide MarksMean, RowsHandled;
    var v := Handed(w, taken);
    forall i: nat | i < v.next && i !in v.unacked ensures ItemHandled(v, i) {
      assert ItemHandled(w, i);
      ItemStaysHandled(w, v, i);
    }
  }

  lemma SetPending(w: World, pending: bool)
    requires AcksMean(w)
    ensures AcksMean(w.(pending := pending)) && Advances(w, w.(pending := pending))
    ensures forall i: nat :: ItemHandled(w, i) ==> ItemHandled(w.(pending := pending), i)
  {
    hide RowsHandled;
    forall i: nat | ItemHandled(w, i) ensures ItemHandled(w.(pending := pending), i) {
      ItemStaysHandled(w, w.(pending := pending), i);
    }
  }

  // ----- runs -----

  datatype Step =
    | Publish(event: string)
    | ExpireLock(p: Pair)
    | ExpireMark(p: Pair)
    | Restart
    | Turn(read: Read, replies: seq<ItemReply>)

  ghost function Next(w: World, step: Step): World {
    match step
    case Publish(event) => w.(items := w.items + [event])
    case ExpireLock(p) => w.(state := w.state.(locks := w.state.locks - {p}))
    case ExpireMark(p) => w.(state := w.state.(done := w.state.done - {p}))
    case Restart => w.(pending := true)
    case Turn(read, replies) => if Legal(w, read) && InRange(w, read, replies) then Iterate(w, read, replies) else w
  }

  const START: World := World(State({}, {}, [], []), [], 0, {}, {}, true, [])

  ghost predicate IsRun(worlds: seq<World>, steps: seq<Step>) {
    && |worlds| == |steps| + 1 && worlds[0] == START
    && forall i :: 0 <= i < |steps| ==> worlds[i + 1] == Next(worlds[i], steps[i])
  }

  lemma MessagesKeepAcks(w: World, batch: seq<nat>, replies: seq<ItemReply>)
    requires AcksMean(w) && Legal(w, Messages(batch)) && InRange(w, Messages(batch), replies)
    ensures AcksMean(Iterate(w, Messages(batch), replies))
    ensures NothingForgotten(w) ==> NothingForgotten(Iterate(w, Messages(batch), replies))
  {
    hide RunBatch, AcksMean, ItemHandled, BatchFits, Advances, Handed;
    var v := if w.pending then w else Handed(w, |batch|);
    assert |v.items| == |w.items| && v.unacked <= w.unacked + Span(w.next, |batch|) && v.pending == w.pending by { HandedIs(w, |batch|); }
    if w.pending {
      AdvancesFrom(w);
    } else {
      HandedKeepsAcks(w, |batch|);
    }
    UnackedBelow(v);
    HandedIs(w, |batch|);
    forall k | 0 <= k < |batch| ensures batch[k] < v.next {
      assert batch[k] in batch;
    }
    RunBatchHandles(v, batch, replies);
    var r := RunBatch(v, batch, replies);
    var after := Iterate(w, Messages(batch), replies);
    SetPending(r.0, after.pending);
    if NothingForgotten(w) && !after.pending {
      AdvancesOn(w, v, r.0);
      forall i | i in after.unacked ensures ItemHandled(after, i) {
        assert i in w.unacked || i in Span(w.next, |batch|);
        if i in w.unacked {
          ItemStaysHandled(w, r.0, i);
        } else {
          assert batch[i - w.next] == i;
        }
      }
    }
  }

  lemma HandedIs(w: World, taken: nat)
    ensures var v := Handed(w, taken);
            v.items == w.items && v.unacked == w.unacked + Span(w.next, taken) && v.pending == w.pending && v.next == w.next + taken
  {
  }

  lemma UnackedBelow(w: World)
    requires AcksMean(w)
    ensures forall i :: i in w.unacked ==> i < w.next
  {
  }

  lemma QuietStep(w: World, v: World)
    requires AcksMean(w) && Advances(w, v) && v.next == w.next && v.unacked == w.unacked && v.deleted == w.deleted && v.state.done <= w.state.done
    ensures AcksMean(v) && (v.pending || NothingForgotten(w.(pending := v.pending)) ==> NothingForgotten(v))
  {
    hide RowsHandled;
    forall i: nat | ItemHandled(w, i) ensures ItemHandled(v, i) {
      ItemStaysHandled(w, v, i);
    }
    forall i: nat | ItemHandled(w.(pending := v.pending), i) ensures ItemHandled(v, i) {
      ItemStaysHandled(w.(pending := v.pending), v, i);
    }
    forall p | p in v.state.done ensures p in v.state.fired || p in v.state.refused {
      MarkStays(w.state, v.state, p);
    }
  }

  lemma MarkStays(s: State, t: State, p: Pair)
    requires Later(s, t) && (p in s.fired || p in s.refused)
    ensures p in t.fired || p in t.refused
  {
    StaysHandled(s, t, p.0, Row(p.1, true));
  }

  ghost predicate LosesARead(step: Step) {
    step.Turn? && step.read.ReadFails? && step.read.taken > 0
  }

  lemma NextKeepsAcks(w: World, step: Step)
    requires AcksMean(w)
    ensures AcksMean(Next(w, step))
    ensures NothingForgotten(w) && !LosesARead(step) ==> NothingForgotten(Next(w, step))
  {
    hide AcksMean, ItemHandled;
    match step
    case Publish(event) => QuietStep(w, Next(w, step));
    case ExpireLock(p) => QuietStep(w, Next(w, step));
    case ExpireMark(p) => QuietStep(w, Next(w, step));
    case Restart => QuietStep(w, Next(w, step));
    case Turn(read, replies) =>
      if Legal(w, read) && InRange(w, read, replies) {
        match read
        case Nothing => QuietStep(w, Next(w, step));
        case ReadFails(taken) =>
          HandedKeepsAcks(w, taken);
          if taken == 0 {
            QuietStep(w, Next(w, step));
          }
        case Messages(batch) => MessagesKeepAcks(w, batch, replies);
      }
  }

  /**
    In every run: an acknowledged item was handled, that is, in one of its deliveries every matched
    row was fired, refused by quota or unreadable; only acknowledged items are deleted. Unless the
    answer to a read is lost, new items are read only while no unhandled item waits unacknowledged.
   */
  lemma {:induction false} AcknowledgedIsHandled(worlds: seq<World>, steps: seq<Step>, n: nat)
    requires IsRun(worlds, steps) && n < |worlds|
    ensures AcksMean(worlds[n])
    ensures (forall k :: 0 <= k < n ==> !LosesARead(steps[k])) ==> NothingForgotten(worlds[n])
  {
    hide Next, AcksMean, NothingForgotten, LosesARead;
    if n == 0 {
      StartKeepsAcks();
    } else {
      AcknowledgedIsHandled(worlds, steps, n - 1);
      NextKeepsAcks(worlds[n - 1], steps[n - 1]);
    }
  }

  lemma StartKeepsAcks()
    ensures AcksMean(START) && NothingForgotten(START)
  {
  }

  // ----- at most one start per event and pipeline -----

  predicate Starts(r: Reply) {
    r.lock.LockWorks? && r.crash != AfterLock && (r.fire.FireWorks? || r.fire.FireLost?)
  }

  /** A start is reported, the done mark can be read and written, and no crash comes in between. */
  predicate Reliable(r: Reply) {
    Starts(r) ==> r.fire.FireWorks? && r.existsWorks && r.markWorks && r.crash != AfterFire
  }

  /** A step in which no mark expires and every row gets a reply that is allowed. */
  predicate StepWith(allowed: Reply -> bool, step: Step) {
    match step
    case ExpireMark(_) => false
    case Turn(_, replies) => forall i, k :: 0 <= i < |replies| && 0 <= k < |replies[i].replies| ==> allowed(replies[i].replies[k])
    case _ => true
  }

  /** Whatever was fired for an event with an id is marked done, and was fired once. */
  ghost predicate FiredOnce(s: State) {
    (forall k :: 0 <= k < |s.fired| && s.fired[k].0 != "" ==> s.fired[k] in s.done) && NoneTwice(s)
  }

  /** No pipeline was fired twice for one event with an id. */
  ghost predicate NoneTwice(s: State) {
    forall j, k :: 0 <= j < k < |s.fired| && s.fired[j] == s.fired[k] ==> s.fired[j].0 == ""
  }

  lemma FireMarkedOnce(s: State, p: Pair, r: Reply)
    requires FiredOnce(s) && p !in s.done && p.0 != "" && Reliable(r) && r.lock.LockWorks? && r.crash != AfterLock
    ensures FiredOnce(FireMarked(s, p, r).0)
  {
  }

  lemma NotStarted(s: State, p: Pair, r: Reply)
    requires FiredOnce(s) && !Starts(r) && r.lock.LockWorks? && r.crash != AfterLock
    ensures FiredOnce(FireMarked(s, p, r).0)
  {
  }

  lemma DeliverRowOnce(s: State, event: string, row: Row, r: Reply)
    requires FiredOnce(s) && Reliable(r)
    ensures FiredOnce(DeliverRow(s, event, row, r).0)
  {
    hide FireMarked;
    var p := (event, row.id);
    var locked := s.(locks := s.locks + {p});
    assert FiredOnce(locked);
    if event != "" && r.lock.LockWorks? && r.crash != AfterLock {
      if p !in s.done {
        FireMarkedOnce(locked, p, r);
      } else if !r.existsWorks {
        NotStarted(locked, p, r);
      }
    }
  }

  lemma {:induction false} DeliverRowsOnce(s: State, event: string, rows: seq<Row>, replies: seq<Reply>)
    requires |rows| == |replies| && FiredOnce(s) && forall k :: 0 <= k < |replies| ==> Reliable(replies[k])
    ensures FiredOnce(DeliverRows(s, event, rows, replies).0)
  {
    hide FiredOnce, DeliverRow, Reliable;
    if rows != [] {
      var n := |rows| - 1;
      DeliverRowsOnce(s, event, rows[..n], replies[..n]);
      DeliverRowOnce(DeliverRows(s, event, rows[..n], replies[..n]).0, event, rows[n], replies[n]);
    }
  }

  lemma {:induction false} RunBatchOnce(w: World, batch: seq<nat>, replies: seq<ItemReply>)
    requires BatchFits(|w.items|, batch, replies) && FiredOnce(w.state)
    requires forall i, k :: 0 <= i < |replies| && 0 <= k < |replies[i].replies| ==> Reliable(replies[i].replies[k])
    ensures FiredOnce(RunBatch(w, batch, replies).0.state)
  {
    hide FiredOnce, DeliverRows, Reliable, ResultOf;
    if batch != [] {
      var n := |batch| - 1;
      RunBatchOnce(w, batch[..n], replies[..n]);
      var before := RunBatch(w, batch[..n], replies[..n]).0;
      var r := replies[n];
      if r.rows.Some? {
        DeliverRowsOnce(before.state, w.items[batch[n]], r.rows.value, r.replies);
      }
    }
  }

  lemma NextOnce(w: World, step: Step)
    requires FiredOnce(w.state) && StepWith(Reliable, step)
    ensures FiredOnce(Next(w, step).state)
  {
    hide RunBatch, Reliable;
    match step
    case Turn(read, replies) =>
      hide FiredOnce;
      if Legal(w, read) && InRange(w, read, replies) && read.Messages? {
        RunBatchOnce(if w.pending then w else Handed(w, |read.batch|), read.batch, replies);
      }
    case _ =>
  }

  /** Across all redeliveries of a reliable run, no pipeline is fired twice for one event id. */
  lemma {:induction false} AtMostOneStart(worlds: seq<World>, steps: seq<Step>, n: nat)
    requires IsRun(worlds, steps) && n < |worlds| && forall k :: 0 <= k < n ==> StepWith(Reliable, steps[k])
    ensures FiredOnce(worlds[n].state)
  {
    hide Next, StepWith;
    if n > 0 {
      hide FiredOnce;
      AtMostOneStart(worlds, steps, n - 1);
      NextOnce(worlds[n - 1], steps[n - 1]);
    }
  }

  /**
    A start that leaves no done mark, because it is reported as failed, writing the mark fails or a
    crash comes first, is repeated by the next delivery that gets the lock; and so is any start
    whose mark cannot be read.
   */
  lemma UnmarkedFiresAgain(s: State, event: string, row: Row, first: Reply, again: Reply)
    requires event != "" && row.readable && (event, row.id) !in s.done && (event, row.id) !in s.locks
    requires Starts(first) && Starts(again)
    ensures var p := (event, row.id);
            var once := DeliverRow(s, event, row, first).0;
            var twice := DeliverRow(once.(locks := once.locks - {p}), event, row, again).0;
            (twice.fired == s.fired + [p, p]) <==>
              first.fire.FireLost? || !first.markWorks || first.crash == AfterFire || !again.existsWorks
  {
    var p := (event, row.id);
    assert s.fired + [p] + [p] == s.fired + [p, p];
  }

  ghost predicate RunWith(allowed: Reply -> bool, worlds: seq<World>, steps: seq<Step>) {
    IsRun(worlds, steps) && |worlds| == |steps| + 1 && forall k :: 0 <= k < |steps| ==> StepWith(allowed, steps[k])
  }

  ghost predicate NeverTwice(allowed: Reply -> bool) {
    forall worlds: seq<World>, steps: seq<Step> :: RunWith(allowed, worlds, steps) ==> NoneTwice(worlds[|steps|].state)
  }

  /**
    For any set of allowed replies: no run in which marks do not expire fires a pipeline twice for
    one event id, exactly when every allowed reply is reliable. One other reply is enough: repeated,
    it fires twice.
   */
  lemma AtMostOneExact(allowed: Reply -> bool)
    ensures NeverTwice(allowed) <==> forall r :: allowed(r) ==> Reliable(r)
  {
    hide IsRun, NoneTwice;
    if forall r :: allowed(r) ==> Reliable(r) {
      forall worlds: seq<World>, steps: seq<Step> | RunWith(allowed, worlds, steps) ensures NoneTwice(worlds[|steps|].state) {
        forall k | 0 <= k < |steps| ensures StepWith(Reliable, steps[k]) {
          assert StepWith(allowed, steps[k]);
        }
        AtMostOneStart(worlds, steps, |steps|);
      }
    } else {
      var r :| allowed(r) && !Reliable(r);
      var worlds, steps := FiresTwice(r);
      forall k | 0 <= k < |steps| ensures StepWith(allowed, steps[k]) {
      }
      assert RunWith(allowed, worlds, steps);
    }
  }

  /** One delivery with the reply, after which the item is not acknowledged. */
  function Once(r: Reply): Step {
    Turn(Messages([0]), [ItemReply(Some([Row("row", true)]), [r], AckFails, false)])
  }

  const PAIR: Pair := ("event", "row")

  lemma OnceFires(w: World, r: Reply)
    requires !Reliable(r) && w.items == ["event"] && Legal(w, Messages([0]))
    requires PAIR !in w.state.locks && (PAIR in w.state.done ==> !r.existsWorks)
    ensures var v := Next(w, Once(r));
            && v.state.fired == w.state.fired + [PAIR] && v.items == w.items && 0 in v.unacked
            && (PAIR in v.state.done ==> !r.existsWorks)
  {
    var rows, replies := [Row("row", true)], [r];
    var s := w.state;
    assert rows[..0] == [] && replies[..0] == [];
    var d := DeliverRow(s, "event", rows[0], r);
    assert DeliverRows(s, "event", rows[..0], replies[..0]) == (s, []);
    assert DeliverRows(s, "event", rows, replies) == (d.0, [] + [d.1]);
    hide DeliverRows;
    var item := ItemReply(Some(rows), replies, AckFails, false);
    var batch, items := [0], [item];
    var u := if w.pending then w else Handed(w, 1);
    assert batch[..0] == [] && items[..0] == [];
    BatchStart(u, batch, items);
    BatchNext(u, batch, items, 0);
    assert batch[..1] == batch && items[..1] == items;
  }

  lemma FiresTwice(r: Reply) returns (worlds: seq<World>, steps: seq<Step>)
    requires !Reliable(r)
    ensures IsRun(worlds, steps) && |worlds| == |steps| + 1 && !NoneTwice(worlds[|steps|].state)
    ensures steps == [Publish("event"), Turn(Nothing, []), Once(r), Restart, ExpireLock(PAIR), Once(r)]
  {
    hide Once;
    steps := [Publish("event"), Turn(Nothing, []), Once(r), Restart, ExpireLock(PAIR), Once(r)];
    var w1 := Next(START, steps[0]);
    var w2 := Next(w1, steps[1]);
    OnceFires(w2, r);
    var w3 := Next(w2, steps[2]);
    var w4 := Next(w3, steps[3]);
    var w5 := Next(w4, steps[4]);
    OnceFires(w5, r);
    var w6 := Next(w5, steps[5]);
    worlds := [START, w1, w2, w3, w4, w5, w6];
    assert w6.state.fired == [PAIR, PAIR];
    assert w6.state.fired[0] == w6.state.fired[1];
  }

  // ----- progress -----

  ghost function After(w: World, steps: seq<Step>): World {
    if steps == [] then w else Next(After(w, steps[..|steps| - 1]), steps[|steps| - 1])
  }

  lemma {:induction false} AfterBoth(w: World, a: seq<Step>, b: seq<Step>)
    ensures After(w, a + b) == After(After(w, a), b)
  {
    hide Next;
    if b == [] {
      assert a + b == a;
    } else {
      var n := |b| - 1;
      AfterBoth(w, a, b[..n]);
      assert (a + b)[..|a + b| - 1] == a + b[..n];
    }
  }

  lemma AfterOne(w: World, step: Step)
    ensures After(w, [step]) == Next(w, step)
  {
    assert [step][..0] == [];
  }

  /** A turn that hands out nothing changes nothing but that new items are read from then on. */
  lemma EmptyTurn(w: World, read: Read, replies: seq<ItemReply>)
    requires Legal(w, read) && InRange(w, read, replies) && (read == Nothing || read == Messages([]))
    ensures Next(w, Turn(read, replies)) == w.(pending := false)
  {
    if read == Messages([]) {
      assert RunBatch(Handed(w, 0), [], replies) == (Handed(w, 0), Delivered);
      assert w.unacked + Span(w.next, 0) == w.unacked;
    }
  }

  const GOOD: Reply := Reply(true, LockWorks, FireWorks, true, true, NoCrash)

  function GoodReplies(n: nat): seq<Reply> {
    seq(n, _ => GOOD)
  }

  /** Everything works for an item that matches the given rows. */
  function Healthy(rows: seq<Row>): ItemReply {
    ItemReply(Some(rows), GoodReplies(|rows|), AckWorks, true)
  }

  /** One message, everything works; `matched` says which rows each item matches. */
  function HealthyTurn(i: nat, matched: nat -> seq<Row>): Step {
    Turn(Messages([i]), [Healthy(matched(i))])
  }

  /** A healthy step: a lock that expires, a restart, an empty pending list, or one message handled without failures. */
  predicate HealthyStep(step: Step, matched: nat -> seq<Row>) {
    match step
    case ExpireLock(_) => true
    case Restart => true
    case Turn(Messages(batch), replies) =>
      |replies| == |batch| && |batch| <= 1 && forall k :: 0 <= k < |batch| ==> replies[k] == Healthy(matched(batch[k]))
    case _ => false
  }

  /** The pipeline of the row was started for the event, or refused for lack of quota. */
  ghost predicate Served(s: State, event: string, row: Row) {
    row.readable ==> (event, row.id) in s.fired || (event, row.id) in s.refused
  }

  ghost predicate AllServed(s: State, event: string, rows: seq<Row>) {
    forall k :: 0 <= k < |rows| ==> Served(s, event, rows[k])
  }

  lemma GoodRow(s: State, event: string, row: Row)
    requires s.locks == {} && MarksMean(s)
    ensures var d := DeliverRow(s, event, row, GOOD);
            d.0.locks == {} && MarksMean(d.0) && Later(s, d.0) && Settles(d.1) && Served(d.0, event, row)
  {
    var p := (event, row.id);
    var f := s.fired + [p];
    assert f[|s.fired|] == p;
  }

  lemma {:induction false} GoodRows(s: State, event: string, rows: seq<Row>)
    requires s.locks == {} && MarksMean(s)
    ensures var d := DeliverRows(s, event, rows, GoodReplies(|rows|));
            d.0.locks == {} && MarksMean(d.0) && Later(s, d.0) && AllSettle(d.1) && AllServed(d.0, event, rows)
  {
    hide DeliverRow, MarksMean, Later, Served;
    if rows == [] {
      LaterSelf(s);
    } else {
      var n := |rows| - 1;
      assert GoodReplies(|rows|)[..n] == GoodReplies(n);
      GoodRows(s, event, rows[..n]);
      var before := DeliverRows(s, event, rows[..n], GoodReplies(n));
      GoodRow(before.0, event, rows[n]);
      var last := DeliverRow(before.0, event, rows[n], GOOD);
      LaterOn(s, before.0, last.0);
      forall k | 0 <= k < |rows| ensures Served(last.0, event, rows[k]) {
        if k < n {
          assert rows[..n][k] == rows[k];
          StaysServed(before.0, last.0, event, rows[k]);
        }
      }
    }
  }

  lemma LaterSelf(s: State)
    ensures Later(s, s)
  {
  }

  lemma LaterOn(s: State, t: State, u: State)
    requires Later(s, t) && Later(t, u)
    ensures Later(s, u)
  {
  }

  lemma StaysServed(s: State, t: State, event: string, row: Row)
    requires Later(s, t) && Served(s, event, row)
    ensures Served(t, event, row)
  {
    if row.readable {
      StaysHandled(s, t, event, row);
    }
  }

  lemma AllStayServed(s: State, t: State, event: string, rows: seq<Row>)
    requires Later(s, t) && AllServed(s, event, rows)
    ensures AllServed(t, event, rows)
  {
    hide Later, Served;
    forall k | 0 <= k < |rows| ensures Served(t, event, rows[k]) {
      StaysServed(s, t, event, rows[k]);
    }
  }

  /** The states in which a healthy step gets on: no leftover lock, and marks that mean something. */
  ghost predicate Ready(w: World) {
    w.state.locks == {} && MarksMean(w.state) && w.next <= |w.items| && forall i :: i in w.unacked ==> i < w.next
  }

  /** A healthy delivery acknowledges the item and serves its rows. */
  lemma GoodItem(w: World, i: nat, matched: nat -> seq<Row>)
    requires Ready(w) && i < |w.items|
    ensures var d := RunItem(w, i, Healthy(matched(i)));
            && d.1 == Delivered && Ready(d.0) && Later(w.state, d.0.state) && AllServed(d.0.state, w.items[i], matched(i))
            && d.0.unacked == w.unacked - {i} && d.0.deleted == w.deleted + {i}
            && d.0.items == w.items && d.0.next == w.next && d.0.pending == w.pending
  {
    hide DeliverRows, AllServed, MarksMean, Later;
    GoodRows(w.state, w.items[i], matched(i));
  }

  lemma GoodTurn(w: World, i: nat, matched: nat -> seq<Row>)
    requires Ready(w) && if w.pending then i in w.unacked else i == w.next < |w.items|
    ensures var v := Next(w, HealthyTurn(i, matched));
            && Ready(v) && Later(w.state, v.state) && AllServed(v.state, w.items[i], matched(i))
            && v.unacked == w.unacked - {i} && v.deleted == w.deleted + {i} && v.items == w.items && v.pending == w.pending
            && v.next == if w.pending then w.next else w.next + 1
  {
    hide AllServed, MarksMean, Later, RunItem, Healthy;
    var batch, replies := [i], [Healthy(matched(i))];
    assert Fits(replies[0]) by { HealthyFits(matched(i)); }
    var u := if w.pending then w else Handed(w, 1);
    GoodItem(u, i, matched);
    BatchStart(u, batch, replies);
    BatchNext(u, batch, replies, 0);
    assert batch[..1] == batch && replies[..1] == replies;
    hide RunBatch;
    assert InRange(w, Messages(batch), replies);
    if !w.pending {
      assert w.unacked + Span(w.next, 1) - {i} == w.unacked - {i};
    }
  }

  lemma HealthyFits(rows: seq<Row>)
    ensures Fits(Healthy(rows))
  {
  }

  ghost predicate AllHealthy(steps: seq<Step>, matched: nat -> seq<Row>) {
    forall s :: s in steps ==> HealthyStep(s, matched)
  }

  /** `v` has served the given items of `w` and lost nothing. */
  ghost predicate Progress(w: World, v: World, served: set<nat>, matched: nat -> seq<Row>) {
    && Ready(v) && v.items == w.items && Later(w.state, v.state) && v.deleted == w.deleted + served
    && forall i :: i in served && i < |w.items| ==> AllServed(v.state, w.items[i], matched(i))
  }

  lemma ProgressOn(u: World, v: World, w: World, a: set<nat>, b: set<nat>, matched: nat -> seq<Row>)
    requires Progress(u, v, a, matched) && Progress(v, w, b, matched)
    ensures Progress(u, w, a + b, matched)
  {
    hide AllServed, Later, MarksMean;
    LaterOn(u.state, v.state, w.state);
    forall i | i in a && i < |u.items| ensures AllServed(w.state, u.items[i], matched(i)) {
      AllStayServed(v.state, w.state, u.items[i], matched(i));
    }
  }

  lemma ProgressTurn(w: World, i: nat, matched: nat -> seq<Row>)
    requires Ready(w) && if w.pending then i in w.unacked else i == w.next < |w.items|
    ensures var v := Next(w, HealthyTurn(i, matched));
            && Progress(w, v, {i}, matched) && v.unacked == w.unacked - {i} && v.pending == w.pending
            && v.next == if w.pending then w.next else w.next + 1
    ensures HealthyStep(HealthyTurn(i, matched), matched)
  {
    hide AllServed, Later, MarksMean, Next, Healthy;
    GoodTurn(w, i, matched);
  }

  /** From the pending list: every unacknowledged item is delivered, then new items are read. */
  lemma {:induction false} DrainPending(w: World, matched: nat -> seq<Row>) returns (more: seq<Step>)
    requires Ready(w) && w.pending
    ensures AllHealthy(more, matched) && Restart !in more
    ensures var v := After(w, more);
            Progress(w, v, w.unacked, matched) && v.unacked == {} && !v.pending && v.next == w.next
    decreases w.unacked
  {
    hide Next, Ready, Later, AllServed, HealthyTurn;
    if w.unacked == {} {
      more := [Turn(Messages([]), [])];
      AfterOne(w, more[0]);
      EmptyTurn(w, Messages([]), []);
      StillReady(w, matched);
    } else {
      var i :| i in w.unacked;
      ProgressTurn(w, i, matched);
      var u := Next(w, HealthyTurn(i, matched));
      more := DrainPending(u, matched);
      ProgressOn(w, u, After(u, more), {i}, u.unacked, matched);
      AfterOne(w, HealthyTurn(i, matched));
      AfterBoth(w, [HealthyTurn(i, matched)], more);
      assert {i} + u.unacked == w.unacked;
      NotARestart(i, matched);
      more := [HealthyTurn(i, matched)] + more;
    }
  }

  lemma NotARestart(i: nat, matched: nat -> seq<Row>)
    ensures HealthyTurn(i, matched) != Restart
  {
  }

  lemma StillReady(w: World, matched: nat -> seq<Row>)
    requires Ready(w)
    ensures Progress(w, w.(pending := false), {}, matched) && Progress(w, w.(pending := true), {}, matched)
  {
    LaterSelf(w.state);
  }

  /** From there: every new item is read and delivered. */
  lemma {:induction false} ReadNew(w: World, matched: nat -> seq<Row>) returns (more: seq<Step>)
    requires Ready(w) && !w.pending && w.unacked == {}
    ensures AllHealthy(more, matched) && Restart !in more
    ensures var v := After(w, more);
            && Progress(w, v, Span(w.next, |w.items| - w.next), matched)
            && v.unacked == {} && !v.pending && v.next == |w.items|
    decreases |w.items| - w.next
  {
    NextInRange(w);
    hide Next, Ready, Later, AllServed, HealthyTurn, Span;
    if w.next == |w.items| {
      more := [];
      StillReady(w, matched);
      assert w.(pending := false) == w;
      assert Span(w.next, 0) == {};
    } else {
      ProgressTurn(w, w.next, matched);
      var u := Next(w, HealthyTurn(w.next, matched));
      more := ReadNew(u, matched);
      ProgressOn(w, u, After(u, more), {w.next}, Span(u.next, |u.items| - u.next), matched);
      AfterOne(w, HealthyTurn(w.next, matched));
      AfterBoth(w, [HealthyTurn(w.next, matched)], more);
      assert {w.next} + Span(u.next, |u.items| - u.next) == Span(w.next, |w.items| - w.next);
      NotARestart(w.next, matched);
      more := [HealthyTurn(w.next, matched)] + more;
    }
  }

  lemma NextInRange(w: World)
    requires Ready(w)
    ensures w.next <= |w.items|
  {
  }

  /** All items that are not acknowledged yet. */
  function Waiting(w: World): set<nat> {
    w.unacked + if w.next <= |w.items| then Span(w.next, |w.items| - w.next) else {}
  }

  /** Without a restart, from a world that is at its pending list or has nothing on it. */
  lemma DeliverAll(w: World, matched: nat -> seq<Row>) returns (more: seq<Step>)
    requires Ready(w) && (w.pending || w.unacked == {})
    ensures AllHealthy(more, matched) && Restart !in more
    ensures var v := After(w, more);
            Progress(w, v, Waiting(w), matched) && v.unacked == {} && !v.pending && v.next == |w.items|
  {
    NextInRange(w);
    hide Next, Ready, Later, AllServed, Span, AllHealthy;
    var u, first := w, [];
    if w.pending {
      first := DrainPending(w, matched);
      u := After(w, first);
    } else {
      StillReady(w, matched);
      assert w.(pending := false) == w;
    }
    assert Progress(w, u, w.unacked, matched) && u.unacked == {} && !u.pending && u.next == w.next;
    assert Ready(u);
    more := ReadNew(u, matched);
    ProgressOn(w, u, After(u, more), w.unacked, Span(u.next, |u.items| - u.next), matched);
    AfterBoth(w, first, more);
    HealthyBoth(first, more, matched);
    more := first + more;
  }

  lemma HealthyBoth(a: seq<Step>, b: seq<Step>, matched: nat -> seq<Row>)
    ensures (a == [] || AllHealthy(a, matched)) && AllHealthy(b, matched) ==> AllHealthy(a + b, matched)
  {
  }

  /** Locks left behind by a crash or a lost reply expire. */
  lemma {:induction false} ExpireLocks(w: World, matched: nat -> seq<Row>) returns (more: seq<Step>)
    ensures AllHealthy(more, matched) && Restart !in more
    ensures After(w, more) == w.(state := w.state.(locks := {}))
    decreases w.state.locks
  {
    if w.state.locks == {} {
      more := [];
    } else {
      var p :| p in w.state.locks;
      var u := Next(w, ExpireLock(p));
      more := ExpireLocks(u, matched);
      AfterOne(w, ExpireLock(p));
      AfterBoth(w, [ExpireLock(p)], more);
      more := [ExpireLock(p)] + more;
    }
  }

  /**
    From every world of a run, once everything works again, all published items are acknowledged
    and the pipelines they match served. A restart is needed only if items were left unacknowledged
    while new ones are read.
   */
  lemma EverythingIsDelivered(worlds: seq<World>, steps: seq<Step>, n: nat, matched: nat -> seq<Row>) returns (more: seq<Step>)
    requires IsRun(worlds, steps) && n < |worlds|
    ensures AllHealthy(more, matched) && (worlds[n].pending || worlds[n].unacked == {} ==> Restart !in more)
    ensures var w, v := worlds[n], After(worlds[n], more);
            && v.items == w.items && v.next == |v.items| && v.unacked == {} && !v.pending
            && v.deleted == w.deleted + Waiting(w)
            && forall i :: i in Waiting(w) ==> i < |w.items| && AllServed(v.state, w.items[i], matched(i))
  {
    AcknowledgedIsHandled(worlds, steps, n);
    var w := worlds[n];
    var u := w.(state := w.state.(locks := {}));
    assert Ready(u);
    assert forall i :: i in Waiting(w) ==> i < |w.items|;
    var first := ExpireLocks(w, matched);
    hide Next, Later, AllServed, Span, AllHealthy, AcksMean;
    if !w.pending && w.unacked != {} {
      RestartReady(u);
      AfterOne(u, Restart);
      AfterBoth(w, first, [Restart]);
      HealthyRestart(matched);
      HealthyBoth(first, [Restart], matched);
      first := first + [Restart];
      u := u.(pending := true);
    }
    hide Ready;
    more := DeliverAll(u, matched);
    AfterBoth(w, first, more);
    HealthyBoth(first, more, matched);
    more := first + more;
  }

  lemma HealthyRestart(matched: nat -> seq<Row>)
    ensures AllHealthy([Restart], matched)
  {
  }

  lemma RestartReady(w: World)
    requires Ready(w)
    ensures Next(w, Restart) == w.(pending := true) && Ready(w.(pending := true))
  {
  }

  /** While new items are read, a healthy step without a restart leaves the unacknowledged ones as they are. */
  lemma HealthyLeaves(w: World, step: Step, matched: nat -> seq<Row>)
    requires Ready(w) && !w.pending && HealthyStep(step, matched) && step != Restart
    ensures var v := Next(w, step); Ready(v) && !v.pending && w.unacked <= v.unacked
  {
    if step.Turn? && Legal(w, step.read) && InRange(w, step.read, step.replies) {
      var batch := step.read.batch;
      if batch == [] {
        assert step == Turn(Messages([]), []);
        EmptyTurn(w, step.read, step.replies);
      } else {
        assert step == HealthyTurn(batch[0], matched);
        hide Next;
        GoodTurn(w, batch[0], matched);
      }
    }
  }

  lemma {:induction false} HealthyStepsLeave(w: World, steps: seq<Step>, matched: nat -> seq<Row>)
    requires Ready(w) && !w.pending && AllHealthy(steps, matched) && Restart !in steps
    ensures var v := After(w, steps); Ready(v) && !v.pending && w.unacked <= v.unacked
  {
    hide Next, Ready, HealthyStep;
    if steps != [] {
      var n := |steps| - 1;
      assert steps[n] in steps;
      HealthyStepsLeave(w, steps[..n], matched);
      HealthyLeaves(After(w, steps[..n]), steps[n], matched);
    }
  }

  ghost predicate DeliversWithoutRestart(w: World, matched: nat -> seq<Row>) {
    exists more :: AllHealthy(more, matched) && Restart !in more && After(w, more).unacked == {} && After(w, more).next == |w.items|
  }

  /**
    With no lock left behind, healthy turns alone acknowledge everything exactly when the consumer
    is at its pending list or has nothing on it. An item whose read or acknowledgement was lost
    while new items are read waits for a restart or for the next failure.
   */
  lemma RestartNeededExactly(w: World, matched: nat -> seq<Row>)
    requires Ready(w)
    ensures DeliversWithoutRestart(w, matched) <==> w.pending || w.unacked == {}
  {
    hide After, Ready, AllHealthy, Progress;
    if w.pending || w.unacked == {} {
      var more := DeliverAll(w, matched);
    } else {
      forall more | AllHealthy(more, matched) && Restart !in more ensures After(w, more).unacked != {} {
        HealthyStepsLeave(w, more, matched);
      }
    }
  }

  // ----- what one row and one batch do -----

  /** The row gets as far as being fired. */
  predicate Reaches(s: State, event: string, row: Row, r: Reply) {
    && row.readable
    && (event != "" ==>
          && !(r.existsWorks && (event, row.id) in s.done)
          && r.lock.LockWorks? && (event, row.id) !in s.locks && r.crash != AfterLock)
  }

  /**
    What delivering a row changes. It is started or refused only when it is reached. For an event
    with an id a start that is reported and a refusal are marked, nothing else is. The lock stays
    only after a crash, or when setting or deleting it was not answered.
   */
  lemma RowExactly(s: State, event: string, row: Row, r: Reply)
    ensures var p := (event, row.id);
            var t := DeliverRow(s, event, row, r).0;
            && t.fired == (if Reaches(s, event, row, r) && (r.fire.FireWorks? || r.fire.FireLost?) then s.fired + [p] else s.fired)
            && t.refused == (if Reaches(s, event, row, r) && r.fire.FireOverQuota? then s.refused + [p] else s.refused)
            && (event == "" ==> t.done == s.done && t.locks == s.locks)
            && (event != "" ==>
                  && t.done == (if Reaches(s, event, row, r) && (r.fire.FireWorks? || r.fire.FireOverQuota?) && r.crash != AfterFire && r.markWorks
                                then s.done + {p} else s.done)
                  && t.locks - {p} == s.locks - {p} && (p in s.locks ==> p in t.locks))
    ensures var d := DeliverRow(s, event, row, r);
            event != "" && (event, row.id) !in s.locks ==>
              ((event, row.id) in d.0.locks <==>
                 d.1 == Crashed || (d.1 == LockedOut && r.lock.LockLost?) || (d.1 in {Unreadable, Fired, OverQuota, FireFailed} && !r.unlockWorks))
  {
  }

  /** How a row ends: what stands in its way comes in this order. */
  lemma RowEnds(s: State, event: string, row: Row, r: Reply)
    ensures var p := (event, row.id);
            var o := DeliverRow(s, event, row, r).1;
            && (o == AlreadyDone <==> event != "" && r.existsWorks && p in s.done)
            && (o == LockedOut <==> event != "" && o != AlreadyDone && (p in s.locks || !r.lock.LockWorks?))
            && (o == Unreadable <==> !row.readable && (event != "" ==> o !in {AlreadyDone, LockedOut} && r.crash != AfterLock))
            && (o == Fired ==> r.fire.FireWorks?) && (o == OverQuota ==> r.fire.FireOverQuota?)
            && (o == FireFailed ==> r.fire.FireLost? || r.fire.FireFails?)
            && (o == Crashed ==> r.crash != NoCrash)
            && (Reaches(s, event, row, r) && r.crash == NoCrash ==> o in {Fired, OverQuota, FireFailed})
  {
  }

  /** The deliveries of a batch, one for each message whose query worked. */
  function Deliveries(batch: seq<nat>, replies: seq<ItemReply>): seq<Record>
    requires |batch| == |replies|
  {
    if batch == [] then []
    else
      var n := |batch| - 1;
      Deliveries(batch[..n], replies[..n]) + if replies[n].rows.Some? then [Record(batch[n], replies[n].rows.value)] else []
  }

  /** Without a crash every message of a batch is tried, also after one that has to be retried. */
  lemma {:induction false} BatchTriesAll(w: World, batch: seq<nat>, replies: seq<ItemReply>)
    requires BatchFits(|w.items|, batch, replies) && RunBatch(w, batch, replies).1 != Crash
    ensures RunBatch(w, batch, replies).0.log == w.log + Deliveries(batch, replies)
  {
    hide DeliverRows, ResultOf;
    if batch != [] {
      var n := |batch| - 1;
      BatchTriesAll(w, batch[..n], replies[..n]);
    }
  }
}
