/**
  Partitioned backfill of a Postgres source: `planBackfill` and `dispatchBackfills` (backfills.go),
  `boundedPageSize` and `postgresFetch` (databases.go), the page loop `runSource` (dynamic_dag.go).
  Instants are integers, counted in nanoseconds; a table is given by its rows in cursor order.
 */
module Backfill {
  import opened Options

  const DAY: int := 86_400_000_000_000
  const MAX_PARTITIONS: nat := 366
  const MAX_PAGES: nat := 50
  const MAX_PAGE_SIZE: nat := 10000
  const DEFAULT_PAGE_SIZE: real := 1000.0

  // ----- the plan -----

  datatype Partition = Partition(from: int, to: int)
  datatype PlanError = BadTimes | BadDays | BadConcurrency | TooManyPartitions
  datatype PlanResult = Planned(partitions: seq<Partition>, concurrency: nat) | Refused(error: PlanError)

  /** Conversion to an integer cuts off the fraction. */
  function Truncate(x: real): int {
    if x >= 0.0 then x.Floor else -(-x).Floor
  }

  /** A number that is missing counts as 1. */
  function NumberOr1(x: Option<real>): int {
    if x.Some? then Truncate(x.value) else 1
  }

  predicate WholeDays(x: real) {
    1.0 <= x <= 31.0 && x.Floor as real == x
  }

  /** The check of the days takes any number from 1 to below 32, so it fails its message between them. */
  lemma DaysAccepted(x: real)
    ensures 1 <= NumberOr1(Some(x)) <= 31 <==> 1.0 <= x < 32.0
    ensures (1 <= NumberOr1(Some(x)) <= 31 <==> WholeDays(x)) <==> !(1.0 < x < 32.0) || x.Floor as real == x
    ensures NumberOr1(Some(1.5)) == 1 && !WholeDays(1.5) && NumberOr1(None) == 1
  {
  }

  /** How many steps of the given length it takes to cover a range. */
  function Needed(from: int, to: int, step: int): (n: nat)
    requires from < to && step > 0
    ensures from + (n - 1) * step < to <= from + n * step
  {
    CeilingBounds(to - from, step);
    (to - from + step - 1) / step
  }

  lemma CeilingBounds(length: int, step: int)
    requires length > 0 && step > 0
    ensures var n := (length + step - 1) / step;
            n >= 1 && (n - 1) * step < length <= n * step
  {
    var x := length + step - 1;
    var n := x / step;
    assert x == n * step + x % step;
    assert (n - 1) * step == n * step - step;
  }

  /** Consecutive partitions from `from` up to `to`, each one step long except perhaps the last. */
  ghost predicate Tiles(parts: seq<Partition>, from: int, to: int, step: int) {
    && |parts| >= 1 && parts[0].from == from && parts[|parts| - 1].to == to
    && (forall k :: 0 <= k < |parts| ==> parts[k].from < parts[k].to <= parts[k].from + step)
    && (forall k :: 1 <= k < |parts| ==> parts[k - 1].to == parts[k].from == parts[k - 1].from + step)
  }

  /** The plan up to `cursor`, the end of its last partition unless that was cut short. */
  ghost predicate Tiling(parts: seq<Partition>, from: int, to: int, step: int, cursor: int) {
    if parts == [] then cursor == from
    else Tiles(parts, from, if cursor < to then cursor else to, step) && parts[|parts| - 1].from + step == cursor
  }

  lemma TilingNext(parts: seq<Partition>, from: int, to: int, step: int, cursor: int)
    requires Tiling(parts, from, to, step, cursor) && cursor < to && step > 0
    ensures Tiling(parts + [Partition(cursor, if cursor + step > to then to else cursor + step)], from, to, step, cursor + step)
  {
    var more := parts + [Partition(cursor, if cursor + step > to then to else cursor + step)];
    assert forall k :: 0 <= k < |parts| ==> more[k] == parts[k];
    assert more[|parts|].from == cursor;
  }

  lemma MultiplesGrow(m: int, n: int, step: int)
    requires step > 0
    ensures m <= n <==> m * step <= n * step
  {
  }

  lemma NeededIs(from: int, to: int, step: int, n: nat, cursor: int)
    requires from < to && step > 0 && Reached(from, step, n, cursor) && cursor - step < to <= cursor
    ensures n == Needed(from, to, step)
  {
    var m := Needed(from, to, step);
    assert from + (n - 1) * step == cursor - step;
    MultiplesGrow(m, n - 1, step);
    MultiplesGrow(n, m - 1, step);
  }

  lemma MoreThanNeeded(from: int, to: int, step: int, n: nat, cursor: int)
    requires from < to && step > 0 && Reached(from, step, n, cursor) && cursor < to
    ensures Needed(from, to, step) > n
  {
    MultiplesGrow(Needed(from, to, step), n, step);
  }

  predicate ValidTimes(from: Option<int>, to: Option<int>) {
    from.Some? && to.Some? && from.value < to.value
  }

  method PlanBackfill(from: Option<int>, to: Option<int>, days: Option<real>, concurrency: Option<real>) returns (r: PlanResult)
    ensures r == Refused(BadTimes) <==> !ValidTimes(from, to)
    ensures r == Refused(BadDays) <==> ValidTimes(from, to) && !(1 <= NumberOr1(days) <= 31)
    ensures r == Refused(BadConcurrency) <==>
      ValidTimes(from, to) && 1 <= NumberOr1(days) <= 31 && !(1 <= NumberOr1(concurrency) <= 5)
    ensures ValidTimes(from, to) && 1 <= NumberOr1(days) <= 31 && 1 <= NumberOr1(concurrency) <= 5 ==>
      (r == Refused(TooManyPartitions) <==> Needed(from.value, to.value, NumberOr1(days) * DAY) > MAX_PARTITIONS)
    ensures r.Planned? ==>
      && Tiles(r.partitions, from.value, to.value, NumberOr1(days) * DAY)
      && |r.partitions| == Needed(from.value, to.value, NumberOr1(days) * DAY) && r.concurrency == NumberOr1(concurrency)
  {
    if from.None? || to.None? || from.value >= to.value {
      return Refused(BadTimes);
    }
    var partitionDays, maxConcurrency := NumberOr1(days), NumberOr1(concurrency);
    if partitionDays < 1 || partitionDays > 31 {
      return Refused(BadDays);
    }
    if maxConcurrency < 1 || maxConcurrency > 5 {
      return Refused(BadConcurrency);
    }
    hide Needed, Tiling, Tiles, NumberOr1;
    r := Partitions(from.value, to.value, partitionDays * DAY, maxConcurrency);
  }

  method Partitions(from: int, to: int, step: int, concurrency: nat) returns (r: PlanResult)
    requires from < to && step > 0
    ensures r == Refused(TooManyPartitions) <==> Needed(from, to, step) > MAX_PARTITIONS
    ensures r.Planned? ==> Tiles(r.partitions, from, to, step) && |r.partitions| == Needed(from, to, step) && r.concurrency == concurrency
    ensures r.Refused? ==> r.error == TooManyPartitions
  {
    hide Needed, Tiling, Tiles;
    var partitions: seq<Partition> := [];
    var cursor := from;
    StartTiling(from, to, step);
    while cursor < to
      invariant Tiling(partitions, from, to, step, cursor)
      invariant |partitions| <= MAX_PARTITIONS && Reached(from, step, |partitions|, cursor)
      invariant cursor - step < to && (partitions == [] ==> cursor < to)
    {
      TilingNext(partitions, from, to, step, cursor);
      ReachedNext(from, step, |partitions|, cursor);
      var end := cursor + step;
      if end > to {
        end := to;
      }
      partitions := partitions + [Partition(cursor, end)];
      if |partitions| > MAX_PARTITIONS {
        MoreThanNeeded(from, to, step, MAX_PARTITIONS, cursor);
        return Refused(TooManyPartitions);
      }
      cursor := cursor + step;
    }
    NeededIs(from, to, step, |partitions|, cursor);
    TilingEnds(partitions, from, to, step, cursor);
    return Planned(partitions, concurrency);
  }

  /** The cursor after so many steps. */
  ghost predicate Reached(from: int, step: int, n: nat, cursor: int) {
    cursor == from + n * step
  }

  lemma ReachedNext(from: int, step: int, n: nat, cursor: int)
    requires Reached(from, step, n, cursor)
    ensures Reached(from, step, n + 1, cursor + step)
  {
  }

  lemma StartTiling(from: int, to: int, step: int)
    ensures Tiling([], from, to, step, from) && Reached(from, step, 0, from)
  {
  }

  lemma TilingEnds(parts: seq<Partition>, from: int, to: int, step: int, cursor: int)
    requires Tiling(parts, from, to, step, cursor) && from < to <= cursor
    ensures Tiles(parts, from, to, step)
  {
  }

  // ----- a page -----

  /** The first number that is neither missing nor zero, or 0. */
  function FirstNumber(values: seq<Option<real>>): real {
    if values == [] then 0.0
    else if values[0].Some? && values[0].value != 0.0 then values[0].value
    else FirstNumber(values[1..])
  }

  lemma {:induction false} FirstOf(values: seq<Option<real>>, last: real)
    requires last != 0.0
    ensures FirstNumber(values + [Some(last)]) == if FirstNumber(values) == 0.0 then last else FirstNumber(values)
  {
    if values == [] {
      assert values + [Some(last)] == [Some(last)];
    } else {
      assert (values + [Some(last)])[1..] == values[1..] + [Some(last)];
      FirstOf(values[1..], last);
    }
  }

  function BoundedPageSize(values: seq<Option<real>>): (page: nat)
    ensures 1 <= page <= MAX_PAGE_SIZE
    ensures FirstNumber(values) == 0.0 ==> page == 1000
    ensures FirstNumber(values) != 0.0 && FirstNumber(values) < 1.0 ==> page == 1
    ensures 1.0 <= FirstNumber(values) < 10000.0 ==> page == FirstNumber(values).Floor
    ensures FirstNumber(values) >= 10000.0 ==> page == 10000
  {
    FirstOf(values, DEFAULT_PAGE_SIZE);
    var page := Truncate(FirstNumber(values + [Some(DEFAULT_PAGE_SIZE)]));
    if page < 1 then 1 else if page > MAX_PAGE_SIZE then MAX_PAGE_SIZE else page
  }

  datatype Row = Row(cursor: int, data: string)

  /** Rows in cursor order; equal cursor values are allowed, missing ones fail every comparison. */
  ghost predicate Ordered(rows: seq<Row>) {
    forall i, j :: 0 <= i < j < |rows| ==> rows[i].cursor <= rows[j].cursor
  }

  ghost predicate Unique(rows: seq<Row>) {
    forall i, j :: 0 <= i < j < |rows| ==> rows[i].cursor != rows[j].cursor
  }

  /** The rows with `from <= cursor < to`, in order: what one scan of the range returns. */
  function Range(rows: seq<Row>, from: int, to: int): seq<Row> {
    if rows == [] then []
    else
      var n := |rows| - 1;
      Range(rows[..n], from, to) + if from <= rows[n].cursor < to then [rows[n]] else []
  }

  function Take(rows: seq<Row>, n: nat): seq<Row> {
    if n < |rows| then rows[..n] else rows
  }

  datatype Page = Page(records: seq<Row>, next: Option<int>, hasMore: bool)

  /**
    One fetch of a backfill: from the cursor on, exclusive, or from the start, inclusive, up to the
    end; one row more than the page tells whether there are more. If the cursor column is not among
    the selected columns, the next cursor has no value. Cursor values are whole, so "greater than
    v" is "at least v + 1".
   */
  function PostgresFetch(rows: seq<Row>, cursor: Option<int>, start: int, end: int, page: nat, selected: bool): Page
    requires page >= 1
  {
    var values := Take(Range(rows, if cursor.Some? then cursor.value + 1 else start, end), page + 1);
    var hasMore := |values| > page;
    var kept := Take(values, page);
    Page(kept, if kept == [] then cursor else if selected then Some(kept[|kept| - 1].cursor) else None, hasMore)
  }

  /** The rows beyond a cursor value. */
  function After(rows: seq<Row>, v: int): (r: seq<Row>)
    ensures |r| <= |rows|
  {
    if rows == [] then []
    else
      var n := |rows| - 1;
      After(rows[..n], v) + if rows[n].cursor > v then [rows[n]] else []
  }

  lemma {:induction false} AfterShrinks(rows: seq<Row>, i: nat)
    requires i < |rows|
    ensures |After(rows, rows[i].cursor)| < |rows|
  {
    var n := |rows| - 1;
    if i < n {
      AfterShrinks(rows[..n], i);
    }
  }

  /** What paging delivers of a range in cursor order: after each page, whatever is tied with its last row is passed over. */
  function Paged(range: seq<Row>, page: nat): seq<Row>
    requires page >= 1
    decreases |range|
  {
    if |range| <= page then range
    else
      AfterShrinks(range, page - 1);
      range[..page] + Paged(After(range, range[page - 1].cursor), page)
  }

  /** How many pages that takes. */
  function PageCount(range: seq<Row>, page: nat): nat
    requires page >= 1
    decreases |range|
  {
    if |range| <= page then 1
    else
      AfterShrinks(range, page - 1);
      1 + PageCount(After(range, range[page - 1].cursor), page)
  }

  lemma {:induction false} AfterConcat(u: seq<Row>, v: seq<Row>, c: int)
    ensures After(u + v, c) == After(u, c) + After(v, c)
  {
    if v == [] {
      assert u + v == u;
    } else {
      var n := |v| - 1;
      assert v == v[..n] + [v[n]];
      AfterAppend(v[..n], v[n], c);
      AfterAppend(u + v[..n], v[n], c);
      hide After;
      AfterConcat(u, v[..n], c);
      assert u + v == u + v[..n] + [v[n]];
    }
  }

  lemma OrderedAppend(rows: seq<Row>, r: Row)
    requires forall x :: x in rows ==> x.cursor <= r.cursor
    ensures Ordered(rows) ==> Ordered(rows + [r])
    ensures Unique(rows) && (forall x :: x in rows ==> x.cursor != r.cursor) ==> Unique(rows + [r])
  {
  }

  /** The last row of an ordered table bounds the others. */
  lemma LastBounds(rows: seq<Row>)
    requires rows != [] && Ordered(rows)
    ensures var n := |rows| - 1;
            && Ordered(rows[..n])
            && (forall x :: x in rows[..n] ==> x.cursor <= rows[n].cursor)
            && (Unique(rows) ==> Unique(rows[..n]) && forall x :: x in rows[..n] ==> x.cursor != rows[n].cursor)
  {
  }

  lemma {:induction false} AfterNone(rows: seq<Row>, c: int)
    requires forall i :: 0 <= i < |rows| ==> rows[i].cursor <= c
    ensures After(rows, c) == []
  {
    if rows != [] {
      AfterNone(rows[..|rows| - 1], c);
    }
  }

  lemma {:induction false} AfterAll(rows: seq<Row>, c: int)
    requires forall i :: 0 <= i < |rows| ==> rows[i].cursor > c
    ensures After(rows, c) == rows
  {
    if rows != [] {
      AfterAll(rows[..|rows| - 1], c);
    }
  }

  lemma {:induction false} AfterOrdered(rows: seq<Row>, c: int)
    requires Ordered(rows)
    ensures Ordered(After(rows, c)) && (Unique(rows) ==> Unique(After(rows, c)))
    ensures forall r :: r in After(rows, c) ==> r in rows
  {
    if rows != [] {
      hide Ordered, Unique;
      var n := |rows| - 1;
      LastBounds(rows);
      AfterOrdered(rows[..n], c);
      OrderedAppend(After(rows[..n], c), rows[n]);
    }
  }

  lemma PrefixBelow(range: seq<Row>, n: nat)
    requires Ordered(range) && 1 <= n <= |range|
    ensures forall i :: 0 <= i < n ==> range[..n][i].cursor <= range[n - 1].cursor
  {
  }

  /** In cursor order, only rows after position `n` can lie beyond the row before it. */
  lemma AfterTail(range: seq<Row>, n: nat)
    requires Ordered(range) && 1 <= n <= |range|
    ensures After(range, range[n - 1].cursor) == After(range[n..], range[n - 1].cursor)
  {
    hide Ordered, After;
    var c := range[n - 1].cursor;
    PrefixBelow(range, n);
    AfterConcat(range[..n], range[n..], c);
    AfterNone(range[..n], c);
    assert range[..n] + range[n..] == range;
  }

  lemma {:induction false} PagedSize(range: seq<Row>, page: nat)
    requires page >= 1 && Ordered(range)
    ensures |Paged(range, page)| <= |range|
    decreases |range|
  {
    hide Ordered;
    if |range| > page {
      AfterTail(range, page);
      AfterOrdered(range, range[page - 1].cursor);
      AfterShrinks(range, page - 1);
      PagedSize(After(range, range[page - 1].cursor), page);
    }
  }

  /** No rows with equal cursor values lie on both sides of a page boundary. */
  ghost predicate NoTiesAcrossPages(range: seq<Row>, page: nat)
    requires page >= 1
  {
    forall i :: 0 < i < |range| && i % page == 0 ==> range[i - 1].cursor < range[i].cursor
  }

  lemma NoTiesNext(range: seq<Row>, page: nat)
    requires page >= 1 && |range| > page
    ensures NoTiesAcrossPages(range, page) <==> range[page - 1].cursor < range[page].cursor && NoTiesAcrossPages(range[page..], page)
  {
    var rest := range[page..];
    if NoTiesAcrossPages(range, page) {
      assert page % page == 0;
      forall i | 0 < i < |rest| && i % page == 0 ensures rest[i - 1].cursor < rest[i].cursor {
        PageShift(i + page, page);
        assert range[i + page - 1].cursor < range[i + page].cursor;
      }
    }
    if range[page - 1].cursor < range[page].cursor && NoTiesAcrossPages(rest, page) {
      forall i | 0 < i < |range| && i % page == 0 ensures range[i - 1].cursor < range[i].cursor {
        if i > page {
          PageShift(i, page);
          assert rest[i - page - 1].cursor < rest[i - page].cursor;
        } else {
          BelowPage(i, page);
        }
      }
    }
  }

  lemma PageShift(i: int, page: nat)
    requires page >= 1
    ensures (i - page) % page == i % page
  {
    var q := i / page;
    assert i - page == (q - 1) * page + i % page;
    RemainderIs(i - page, q - 1, i % page, page);
  }

  lemma RemainderIs(x: int, q: int, r: int, d: nat)
    requires d >= 1 && x == q * d + r && 0 <= r < d
    ensures x % d == r
  {
    var p := x / d;
    if p < q {
      MultiplesGrow(p + 1, q, d);
    } else if q < p {
      MultiplesGrow(q + 1, p, d);
    }
  }

  lemma BelowPage(i: nat, page: nat)
    requires 0 < i <= page && i % page == 0
    ensures i == page
  {
  }

  lemma OrderedDrop(range: seq<Row>, n: nat)
    requires Ordered(range) && n <= |range|
    ensures Ordered(range[n..])
  {
  }

  /** Paging delivers a whole range exactly when no tie straddles a page boundary. */
  lemma {:induction false} PagedIsAll(range: seq<Row>, page: nat)
    requires page >= 1 && Ordered(range)
    ensures Paged(range, page) == range <==> NoTiesAcrossPages(range, page)
    decreases |range|
  {
    hide Ordered, NoTiesAcrossPages;
    if |range| <= page {
      NoBoundary(range, page);
    } else {
      var c, rest := range[page - 1].cursor, range[page..];
      assert range == range[..page] + rest;
      AfterTail(range, page);
      AfterOrdered(range, c);
      AfterShrinks(range, page - 1);
      NoTiesNext(range, page);
      OrderedDrop(range, page);
      if c < range[page].cursor {
        AllBeyond(range, page);
        AfterAll(rest, c);
        PagedIsAll(rest, page);
      } else {
        TieIsLost(range, page);
      }
    }
  }

  /** Two rows tied across a page boundary: the second is never delivered. */
  lemma TiedRowLost(cursor: int)
    ensures var range := [Row(cursor, "a"), Row(cursor, "b")]; Ordered(range) && Paged(range, 1) == range[..1]
  {
    var range := [Row(cursor, "a"), Row(cursor, "b")];
    assert range[..1][..0] == [];
    assert After(range[..1], cursor) == [];
    assert After(range, cursor) == [];
  }

  lemma NoBoundary(range: seq<Row>, page: nat)
    requires page >= 1 && |range| <= page
    ensures NoTiesAcrossPages(range, page)
  {
    forall i | 0 < i < |range| ensures i % page != 0 {
      RemainderIs(i, 0, i, page);
    }
  }

  lemma AllBeyond(range: seq<Row>, page: nat)
    requires Ordered(range) && 1 <= page < |range| && range[page - 1].cursor < range[page].cursor
    ensures forall i :: 0 <= i < |range[page..]| ==> range[page..][i].cursor > range[page - 1].cursor
  {
    forall i | 0 <= i < |range[page..]| ensures range[page..][i].cursor > range[page - 1].cursor {
      assert range[page..][i] == range[page + i];
      assert range[page].cursor <= range[page + i].cursor;
    }
  }

  lemma TieIsLost(range: seq<Row>, page: nat)
    requires Ordered(range) && 1 <= page < |range| && range[page - 1].cursor >= range[page].cursor
    ensures |Paged(range, page)| < |range|
  {
    var c, rest := range[page - 1].cursor, range[page..];
    AfterTail(range, page);
    AfterOrdered(range, c);
    AfterSmaller(rest, c);
    AfterShrinks(range, page - 1);
    PagedSize(After(range, c), page);
  }

  lemma {:induction false} AfterSmaller(rows: seq<Row>, c: int)
    requires rows != [] && rows[0].cursor <= c
    ensures |After(rows, c)| < |rows|
  {
    assert rows == [rows[0]] + rows[1..];
    AfterConcat([rows[0]], rows[1..], c);
    AfterNone([rows[0]], c);
  }

  lemma UniqueHasNoTies(range: seq<Row>, page: nat)
    requires page >= 1 && Ordered(range) && Unique(range)
    ensures NoTiesAcrossPages(range, page)
  {
  }

  lemma UniqueTail(range: seq<Row>, page: nat)
    requires Ordered(range) && Unique(range) && 1 <= page < |range|
    ensures After(range, range[page - 1].cursor) == range[page..]
    ensures Ordered(range[page..]) && Unique(range[page..])
  {
    AfterTail(range, page);
    AllBeyond(range, page);
    hide Ordered, Unique;
    AfterAll(range[page..], range[page - 1].cursor);
  }

  /** With unique cursor values the number of pages is the length over the page size, rounded up. */
  lemma {:induction false} PageCountUnique(range: seq<Row>, page: nat, limit: nat)
    requires page >= 1 && limit >= 1 && Ordered(range) && Unique(range)
    ensures PageCount(range, page) <= limit <==> |range| <= limit * page
    decreases |range|
  {
    hide Ordered, Unique, After;
    if |range| <= page {
      MultiplesGrow(1, limit, page);
    } else {
      UniqueTail(range, page);
      assert (limit - 1) * page == limit * page - page;
      if limit > 1 {
        PageCountUnique(range[page..], page, limit - 1);
      }
    }
  }

  // ----- the page loop -----

  lemma AfterAppend(rows: seq<Row>, r: Row, v: int)
    ensures After(rows + [r], v) == if r.cursor > v then After(rows, v) + [r] else After(rows, v)
  {
    assert (rows + [r])[..|rows|] == rows;
  }

  lemma RangeLast(rows: seq<Row>, from: int, to: int)
    requires rows != []
    ensures var n := |rows| - 1;
            Range(rows, from, to) ==
              if from <= rows[n].cursor < to then Range(rows[..n], from, to) + [rows[n]] else Range(rows[..n], from, to)
  {
  }

  lemma {:induction false} RangeIsAfter(rows: seq<Row>, from: int, to: int, v: int)
    requires from <= v + 1
    ensures Range(rows, v + 1, to) == After(Range(rows, from, to), v)
  {
    hide After;
    if rows == [] {
      AfterNone([], v);
    } else {
      var n := |rows| - 1;
      RangeIsAfter(rows[..n], from, to, v);
      AfterAppend(Range(rows[..n], from, to), rows[n], v);
      RangeLast(rows, v + 1, to);
      RangeLast(rows, from, to);
      hide Range;
    }
  }

  lemma {:induction false} RangeOrdered(rows: seq<Row>, from: int, to: int)
    requires Ordered(rows)
    ensures Ordered(Range(rows, from, to)) && (Unique(rows) ==> Unique(Range(rows, from, to)))
    ensures forall r :: r in Range(rows, from, to) ==> r in rows && from <= r.cursor < to
  {
    if rows != [] {
      hide Ordered, Unique;
      var n := |rows| - 1;
      LastBounds(rows);
      RangeOrdered(rows[..n], from, to);
      OrderedAppend(Range(rows[..n], from, to), rows[n]);
      RangeLast(rows, from, to);
      hide Range;
    }
  }

  lemma RangeBounds(rows: seq<Row>, from: int, to: int, i: nat)
    requires Ordered(rows) && i < |Range(rows, from, to)|
    ensures from <= Range(rows, from, to)[i].cursor < to
  {
    RangeOrdered(rows, from, to);
    assert Range(rows, from, to)[i] in Range(rows, from, to);
  }

  function Lower(cursor: Option<int>, start: int): int {
    if cursor.Some? then cursor.value + 1 else start
  }

  lemma TakeTwice(left: seq<Row>, page: nat)
    requires page >= 1
    ensures Take(Take(left, page + 1), page) == Take(left, page)
    ensures |Take(left, page + 1)| > page <==> |left| > page
  {
  }

  /** What one page takes off the rows still to come. */
  lemma FetchTakes(rows: seq<Row>, cursor: Option<int>, start: int, end: int, page: nat)
    requires page >= 1 && Ordered(rows)
    ensures var left := Range(rows, Lower(cursor, start), end);
            var p := PostgresFetch(rows, cursor, start, end, page, true);
            && p.hasMore == (|left| > page) && p.records == Take(left, page)
            && (p.hasMore ==> p.next.Some? && Range(rows, Lower(p.next, start), end) == After(left, left[page - 1].cursor))
  {
    hide Range, Ordered, After;
    var left := Range(rows, Lower(cursor, start), end);
    TakeTwice(left, page);
    if |left| > page {
      RangeBounds(rows, Lower(cursor, start), end, page - 1);
      RangeIsAfter(rows, Lower(cursor, start), end, left[page - 1].cursor);
    }
  }

  /**
    Reading one partition, from a stored cursor if there is one. With the cursor column selected it
    succeeds exactly when the pages of the range are at most 50; without it every page after the
    first one is that of the whole range again, so it succeeds exactly when one page is enough
    either for what lies behind the cursor or for the whole range.
   */
  method RunSource(rows: seq<Row>, known: Option<int>, start: int, end: int, page: nat, selected: bool) returns (ok: bool, records: seq<Row>)
    requires page >= 1 && Ordered(rows)
    ensures selected ==> (ok <==> PageCount(Range(rows, Lower(known, start), end), page) <= MAX_PAGES)
    ensures selected && ok ==> records == Paged(Range(rows, Lower(known, start), end), page)
    ensures !selected ==> (ok <==> |Range(rows, Lower(known, start), end)| <= page || |Range(rows, start, end)| <= page)
    ensures !selected && ok ==>
      var first := Range(rows, Lower(known, start), end);
      records == if |first| <= page then first else Take(first, page) + Range(rows, start, end)
  {
    hide Range, Paged, PageCount, PostgresFetch;
    ghost var all, whole := Range(rows, Lower(known, start), end), Range(rows, start, end);
    var checkpoint := known;
    var pageNumber := 1;
    records := [];
    assert [] + Paged(all, page) == Paged(all, page);
    while true
      invariant 1 <= pageNumber <= MAX_PAGES
      invariant selected ==> Reading(all, Range(rows, Lower(checkpoint, start), end), page, pageNumber, records)
      invariant !selected && pageNumber == 1 ==> checkpoint == known && records == []
      invariant !selected && pageNumber > 1 ==> checkpoint.None? && |all| > page
      invariant !selected && pageNumber == 2 ==> records == Take(all, page)
      invariant !selected && pageNumber > 2 ==> |whole| > page
      decreases MAX_PAGES - pageNumber
    {
      var p := PostgresFetch(rows, checkpoint, start, end, page, selected);
      if selected {
        FetchTakes(rows, checkpoint, start, end, page);
        ReadingNext(all, Range(rows, Lower(checkpoint, start), end), page, pageNumber, records);
      } else {
        FetchRepeats(rows, checkpoint, start, end, page);
      }
      checkpoint := p.next;
      records := records + p.records;
      if !p.hasMore {
        return true, records;
      }
      if pageNumber >= MAX_PAGES {
        return false, records;
      }
      pageNumber := pageNumber + 1;
    }
  }

  lemma FetchRepeats(rows: seq<Row>, cursor: Option<int>, start: int, end: int, page: nat)
    requires page >= 1
    ensures var all := Range(rows, Lower(cursor, start), end);
            var p := PostgresFetch(rows, cursor, start, end, page, false);
            p.hasMore == (|all| > page) && p.records == Take(all, page) && (p.hasMore ==> p.next.None?)
            && (|all| <= page ==> p.records == all)
  {
  }

  /** `left` is still to be read on page `pageNumber`. */
  ghost predicate Reading(all: seq<Row>, left: seq<Row>, page: nat, pageNumber: nat, records: seq<Row>)
    requires page >= 1
  {
    records + Paged(left, page) == Paged(all, page) && pageNumber - 1 + PageCount(left, page) == PageCount(all, page)
  }

  lemma ReadingNext(all: seq<Row>, left: seq<Row>, page: nat, pageNumber: nat, records: seq<Row>)
    requires page >= 1 && Reading(all, left, page, pageNumber, records)
    ensures |left| <= page ==> records + left == Paged(all, page) && PageCount(all, page) == pageNumber && Take(left, page) == left
    ensures |left| > page ==>
      PageCount(all, page) > pageNumber &&
      Reading(all, After(left, left[page - 1].cursor), page, pageNumber + 1, records + Take(left, page))
  {
    if |left| > page {
      AfterShrinks(left, page - 1);
      var rest := After(left, left[page - 1].cursor);
      assert records + left[..page] + Paged(rest, page) == records + (left[..page] + Paged(rest, page));
      PageCountPositive(rest, page);
    }
  }

  lemma PageCountPositive(range: seq<Row>, page: nat)
    requires page >= 1
    ensures PageCount(range, page) >= 1
  {
  }

  /** A partition with unique, selected cursor values: read completely and in order, if it has at most 50 pages. */
  method ReadPartition(rows: seq<Row>, start: int, end: int, page: nat) returns (ok: bool, records: seq<Row>)
    requires page >= 1 && Ordered(rows) && Unique(rows)
    ensures ok <==> |Range(rows, start, end)| <= MAX_PAGES * page
    ensures ok ==> records == Range(rows, start, end)
  {
    hide Range, Paged, PageCount, Ordered, Unique, NoTiesAcrossPages;
    RangeOrdered(rows, start, end);
    var range := Range(rows, start, end);
    UniqueHasNoTies(range, page);
    PagedIsAll(range, page);
    PageCountUnique(range, page, MAX_PAGES);
    ok, records := RunSource(rows, None, start, end, page, true);
  }

  // ----- all partitions -----

  lemma {:induction false} RangeJoin(rows: seq<Row>, a: int, b: int, c: int)
    requires Ordered(rows) && a <= b <= c
    ensures Range(rows, a, b) + Range(rows, b, c) == Range(rows, a, c)
  {
    hide Range, Ordered, Unique;
    if rows == [] {
      RangeNothing(a, b);
      RangeNothing(b, c);
      RangeNothing(a, c);
      assert rows == [] == [] + [];
    } else {
      var n := |rows| - 1;
      LastBounds(rows);
      RangeJoin(rows[..n], a, b, c);
      if rows[n].cursor < b {
        assert forall i :: 0 <= i < n ==> rows[..n][i] in rows[..n];
        RangeEmpty(rows[..n], b, c);
      }
      RangeLast(rows, a, b);
      RangeLast(rows, b, c);
      RangeLast(rows, a, c);
      var u, v := Range(rows[..n], a, b), Range(rows[..n], b, c);
      assert (u + v) + [rows[n]] == u + (v + [rows[n]]);
    }
  }

  lemma RangeNothing(from: int, to: int)
    ensures Range([], from, to) == []
  {
  }

  lemma {:induction false} RangeEmpty(rows: seq<Row>, from: int, to: int)
    requires forall i :: 0 <= i < |rows| ==> rows[i].cursor < from
    ensures Range(rows, from, to) == []
  {
    if rows != [] {
      RangeEmpty(rows[..|rows| - 1], from, to);
    }
  }

  function RangesOf(rows: seq<Row>, parts: seq<Partition>): seq<Row> {
    if parts == [] then []
    else RangesOf(rows, parts[..|parts| - 1]) + Range(rows, parts[|parts| - 1].from, parts[|parts| - 1].to)
  }

  /** Consecutive partitions, some perhaps empty. */
  ghost predicate Consecutive(parts: seq<Partition>) {
    && (forall k :: 0 <= k < |parts| ==> parts[k].from <= parts[k].to)
    && (forall k :: 1 <= k < |parts| ==> parts[k - 1].to == parts[k].from)
  }

  /** Consecutive partitions read one after the other are one scan of the whole range. */
  lemma {:induction false} RangesJoin(rows: seq<Row>, parts: seq<Partition>)
    requires Ordered(rows) && parts != [] && Consecutive(parts)
    ensures parts[0].from <= parts[|parts| - 1].to
    ensures RangesOf(rows, parts) == Range(rows, parts[0].from, parts[|parts| - 1].to)
  {
    hide Range, Ordered;
    var n := |parts| - 1;
    if n > 0 {
      RangesJoin(rows, parts[..n]);
      RangeJoin(rows, parts[0].from, parts[n].from, parts[n].to);
    } else {
      assert parts[..0] == [];
    }
  }

  /** Boundaries are stored with microsecond precision: a whole microsecond less than one microsecond away. */
  ghost predicate Stores(stored: int -> int) {
    && (forall t :: stored(t) % 1000 == 0 && t - 1000 < stored(t) < t + 1000)
    && (forall t, u :: t <= u ==> stored(t) <= stored(u))
  }

  function StorePlan(parts: seq<Partition>, stored: int -> int): (r: seq<Partition>)
    ensures |r| == |parts|
    ensures forall k :: 0 <= k < |parts| ==> r[k] == Partition(stored(parts[k].from), stored(parts[k].to))
  {
    if parts == [] then []
    else StorePlan(parts[..|parts| - 1], stored) + [Partition(stored(parts[|parts| - 1].from), stored(parts[|parts| - 1].to))]
  }

  lemma StoredTiles(parts: seq<Partition>, from: int, to: int, step: int, stored: int -> int)
    requires Tiles(parts, from, to, step) && Stores(stored)
    ensures var plan := StorePlan(parts, stored);
            plan != [] && Consecutive(plan) && plan[0].from == stored(from) && plan[|plan| - 1].to == stored(to)
  {
  }

  ghost predicate WholeMicroseconds(rows: seq<Row>) {
    forall i :: 0 <= i < |rows| ==> rows[i].cursor % 1000 == 0
  }

  /** Rounding up to a whole microsecond passes no whole microsecond. */
  lemma RoundedUp(t: int, stored: int -> int, c: int)
    requires Stores(stored) && stored(t) >= t && c % 1000 == 0
    ensures t <= c <==> stored(t) <= c
  {
    var s := stored(t);
    assert s % 1000 == 0 && s < t + 1000;
  }

  lemma {:induction false} StoredRangeSame(rows: seq<Row>, from: int, to: int, stored: int -> int)
    requires Stores(stored) && WholeMicroseconds(rows) && stored(from) >= from && stored(to) >= to
    ensures Range(rows, stored(from), stored(to)) == Range(rows, from, to)
  {
    if rows != [] {
      var n := |rows| - 1;
      RoundedUp(from, stored, rows[n].cursor);
      RoundedUp(to, stored, rows[n].cursor);
      assert WholeMicroseconds(rows[..n]);
      hide Stores, WholeMicroseconds;
      StoredRangeSame(rows[..n], from, to, stored);
    }
  }

  /**
    Storing the range changes nothing for any table of microsecond timestamps exactly when neither
    end is rounded down, as for ends that are whole microseconds.
   */
  lemma StoredRangeExact(from: int, to: int, stored: int -> int)
    requires Stores(stored) && stored(from) < stored(to)
    ensures stored(from) >= from && stored(to) >= to <==>
      (forall rows :: Ordered(rows) && WholeMicroseconds(rows) ==> Range(rows, stored(from), stored(to)) == Range(rows, from, to))
    ensures from % 1000 == 0 && to % 1000 == 0 ==> stored(from) >= from && stored(to) >= to
  {
    forall rows | stored(from) >= from && stored(to) >= to && WholeMicroseconds(rows)
      ensures Range(rows, stored(from), stored(to)) == Range(rows, from, to)
    {
      StoredRangeSame(rows, from, to, stored);
    }
    StoredNear(from, stored);
    StoredNear(to, stored);
    hide Stores, Range;
    var first, last := [Row(stored(from), "")], [Row(stored(to), "")];
    assert Ordered(first) && WholeMicroseconds(first) && Ordered(last) && WholeMicroseconds(last);
    RangeOne(first[0], from, to);
    RangeOne(first[0], stored(from), stored(to));
    RangeOne(last[0], from, to);
    RangeOne(last[0], stored(from), stored(to));
  }

  lemma StoredNear(t: int, stored: int -> int)
    requires Stores(stored)
    ensures stored(t) % 1000 == 0 && t - 1000 < stored(t) < t + 1000 && (t % 1000 == 0 ==> stored(t) >= t)
  {
  }

  lemma RangeOne(row: Row, from: int, to: int)
    ensures Range([row], from, to) == if from <= row.cursor < to then [row] else []
  {
    assert [row][..0] == [];
  }

  function Nearest(t: int): int {
    (t + 500) / 1000 * 1000
  }

  lemma NearestStores()
    ensures Stores(Nearest)
  {
  }

  /** Rounding to the nearest microsecond moves a range that starts 400 nanoseconds after one. */
  lemma RoundedDownAddsARow()
    ensures var rows := [Row(0, "before")];
            Stores(Nearest) && Range(rows, 400, 2000) == [] && Range(rows, Nearest(400), Nearest(2000)) == rows
  {
    NearestStores();
    var rows := [Row(0, "before")];
    assert rows[..0] == [];
    hide Stores;
  }

  // ----- dispatch -----

  datatype Ingestion = Ingestion(mode: string, start: int, end: Option<int>, stateKey: string, pageSize: int)
  datatype Node = Node(id: string, isSource: bool, ingestion: Option<Ingestion>)

  function Prepared(node: Node, part: Partition, key: string): Node {
    if !node.isSource then node
    else
      var size := if node.ingestion.Some? then node.ingestion.value.pageSize else 0;
      node.(ingestion := Some(Ingestion("backfill", part.from, Some(part.to), key, if size > 10000 then size else 10000)))
  }

  /** The definition's source nodes are pointed at the partition, in place. */
  method PointAtPartition(nodes: array<Node>, part: Partition, key: string)
    modifies nodes
    ensures forall i :: 0 <= i < nodes.Length ==> nodes[i] == Prepared(old(nodes[i]), part, key)
  {
    for i := 0 to nodes.Length
      invariant forall k :: 0 <= k < i ==> nodes[k] == Prepared(old(nodes[k]), part, key)
      invariant forall k :: i <= k < nodes.Length ==> nodes[k] == old(nodes[k])
    {
      var node := nodes[i];
      if node.isSource {
        var ingestion := if node.ingestion.Some? then node.ingestion.value else Ingestion("", 0, None, "", 0);
        ingestion := ingestion.(mode := "backfill", start := part.from, end := Some(part.to), stateKey := key);
        ingestion := ingestion.(pageSize := if ingestion.pageSize > 10000 then ingestion.pageSize else 10000);
        nodes[i] := node.(ingestion := Some(ingestion));
      }
    }
  }

  /** A dispatched source always reads full pages, so a partition fails beyond half a million rows. */
  lemma DispatchedPageSize(node: Node, part: Partition, key: string, configured: Option<real>)
    requires node.isSource
    ensures PageSizeOf(Prepared(node, part, key), configured) * MAX_PAGES == 500000
  {
    var size := Prepared(node, part, key).ingestion.value.pageSize;
    assert ([Some(size as real), configured] + [Some(DEFAULT_PAGE_SIZE)])[0] == Some(size as real);
  }

  // ----- running what was dispatched -----

  /** Under which name the cursor of a source is kept. */
  function ConnectionId(pipeline: string, node: Node): string {
    pipeline + ":" + node.id +
    if node.ingestion.Some? && node.ingestion.value.stateKey != "" then ":" + node.ingestion.value.stateKey else ""
  }

  function PageSizeOf(node: Node, configured: Option<real>): (page: nat)
    ensures 1 <= page <= MAX_PAGE_SIZE
  {
    BoundedPageSize([if node.ingestion.Some? then Some(node.ingestion.value.pageSize as real) else None, configured])
  }

  /** The lower bound of a read without a cursor: none unless the node is in backfill mode. */
  function StartOf(rows: seq<Row>, node: Node): int {
    if node.ingestion.Some? && node.ingestion.value.mode == "backfill" then node.ingestion.value.start
    else if rows == [] then 0 else rows[0].cursor
  }

  /** The upper bound of a read: none unless the node has one. */
  function EndOf(rows: seq<Row>, node: Node): int {
    if node.ingestion.Some? && node.ingestion.value.end.Some? then node.ingestion.value.end.value
    else if rows == [] then 0 else rows[|rows| - 1].cursor + 1
  }

  lemma {:induction false} RangeAll(rows: seq<Row>, from: int, to: int)
    requires forall i :: 0 <= i < |rows| ==> from <= rows[i].cursor < to
    ensures Range(rows, from, to) == rows
  {
    if rows != [] {
      RangeAll(rows[..|rows| - 1], from, to);
    }
  }

  /** A node that is in no backfill and has no end is read from the first row to the last. */
  lemma ReadsWholeTable(rows: seq<Row>, node: Node)
    requires Ordered(rows)
    requires node.ingestion.Some? ==> node.ingestion.value.mode != "backfill" && node.ingestion.value.end.None?
    ensures Range(rows, StartOf(rows, node), EndOf(rows, node)) == rows
  {
    RangeAll(rows, StartOf(rows, node), EndOf(rows, node));
  }

  /** A source with unique, selected cursor values, read as its node says, from its stored cursor on. */
  method RunNode(pipeline: string, node: Node, rows: seq<Row>, cursors: map<string, int>, configured: Option<real>)
      returns (ok: bool, records: seq<Row>)
    requires Ordered(rows) && Unique(rows)
    ensures var id := ConnectionId(pipeline, node);
            var range := Range(rows, if id in cursors then cursors[id] + 1 else StartOf(rows, node), EndOf(rows, node));
            (ok <==> |range| <= MAX_PAGES * PageSizeOf(node, configured)) && (ok ==> records == range)
  {
    hide Range, Paged, PageCount, Ordered, Unique, NoTiesAcrossPages, PageSizeOf, StartOf, EndOf;
    var id := ConnectionId(pipeline, node);
    var page := PageSizeOf(node, configured);
    var known := if id in cursors then Some(cursors[id]) else None;
    var start, end := StartOf(rows, node), EndOf(rows, node);
    RangeOrdered(rows, Lower(known, start), end);
    ghost var range := Range(rows, Lower(known, start), end);
    UniqueHasNoTies(range, page);
    PagedIsAll(range, page);
    PageCountUnique(range, page, MAX_PAGES);
    ok, records := RunSource(rows, known, start, end, page, true);
  }

  ghost predicate Fits(rows: seq<Row>, part: Partition) {
    |Range(rows, part.from, part.to)| <= 500000
  }

  /** Names with different keys differ, whatever the ids are. */
  lemma KeysSeparate(a: string, b: string, k: string, l: string)
    requires ':' !in k && ':' !in l && a + ":" + k == b + ":" + l
    ensures k == l
  {
    var s := a + ":" + k;
    assert s[|a|] == ':' && s[|b|] == ':';
    if |a| == |b| {
      assert k == s[|a| + 1..] == l;
    }
  }

  /** The cursors that the partitions before this one left behind. */
  ghost predicate OnlyKeys(cursors0: map<string, int>, cursors: map<string, int>, keys: seq<string>) {
    forall id :: id in cursors ==> id in cursors0 || exists k, prefix :: k in keys && id == prefix + ":" + k
  }

  /** No cursor is kept under a name that ends in one of the keys. */
  ghost predicate NewKeys(cursors: map<string, int>, keys: seq<string>) {
    && (forall k :: k in keys ==> k != "" && ':' !in k)
    && (forall i, j :: 0 <= i < j < |keys| ==> keys[i] != keys[j])
    && (forall k, prefix: string :: k in keys ==> prefix + ":" + k !in cursors)
  }

  lemma NoCursorYet(cursors0: map<string, int>, cursors: map<string, int>, keys: seq<string>, k: nat, pipeline: string, node: Node, part: Partition)
    requires NewKeys(cursors0, keys) && k < |keys| && OnlyKeys(cursors0, cursors, keys[..k]) && node.isSource
    ensures ConnectionId(pipeline, Prepared(node, part, keys[k])) !in cursors
  {
    var prefix := pipeline + ":" + node.id;
    var id := prefix + ":" + keys[k];
    assert keys[k] in keys;
    assert prefix + (":" + keys[k]) == id;
    if id in cursors {
      var l, other :| l in keys[..k] && id == other + ":" + l;
      KeysSeparate(prefix, other, keys[k], l);
    }
  }

  /** What one execution did for each node: only sources read, and only if all of them succeed does it complete. */
  ghost predicate ReadsPartition(nodes: seq<Node>, tables: seq<seq<Row>>, part: Partition, ok: bool, outputs: seq<seq<Row>>)
    requires |tables| == |nodes|
  {
    && |outputs| == |nodes|
    && (ok <==> forall i :: 0 <= i < |nodes| && nodes[i].isSource ==> Fits(tables[i], part))
    && (ok ==> forall i :: 0 <= i < |nodes| ==> outputs[i] == if nodes[i].isSource then Range(tables[i], part.from, part.to) else [])
  }

  ghost predicate GoodTables(tables: seq<seq<Row>>) {
    forall i :: 0 <= i < |tables| ==> Ordered(tables[i]) && Unique(tables[i])
  }

  /** What changes in a node: a source gets the mode, the partition's ends, its key and a page size of at least 10000. */
  lemma PreparedFields(node: Node, part: Partition, key: string)
    ensures var p := Prepared(node, part, key);
            && p.id == node.id && p.isSource == node.isSource && (!node.isSource ==> p == node)
            && (node.isSource ==>
                  && p.ingestion.Some? && p.ingestion.value.mode == "backfill" && p.ingestion.value.stateKey == key
                  && p.ingestion.value.start == part.from && p.ingestion.value.end == Some(part.to) && p.ingestion.value.pageSize >= 10000
                  && (p.ingestion.value.pageSize > 10000 ==> node.ingestion.Some? && p.ingestion.value.pageSize == node.ingestion.value.pageSize)
                  && (node.ingestion.Some? ==> p.ingestion.value.pageSize >= node.ingestion.value.pageSize))
  {
  }

  /** The pointed-at node reads exactly the partition. */
  lemma PreparedReads(node: Node, part: Partition, key: string, rows: seq<Row>, configured: Option<real>)
    requires node.isSource
    ensures var p := Prepared(node, part, key);
            && StartOf(rows, p) == part.from && EndOf(rows, p) == part.to
            && MAX_PAGES * PageSizeOf(p, configured) == 500000
  {
    DispatchedPageSize(node, part, key, configured);
  }

  /** One dispatched execution: a fresh copy of the definition is pointed at the partition and run. */
  method RunPartition(pipeline: string, definition: seq<Node>, tables: seq<seq<Row>>, part: Partition, ghost keys: seq<string>, k: nat, key: string,
                      ghost cursors0: map<string, int>, cursors: map<string, int>, configured: Option<real>)
      returns (ok: bool, outputs: seq<seq<Row>>, after: map<string, int>)
    requires |tables| == |definition| && GoodTables(tables)
    requires NewKeys(cursors0, keys) && k < |keys| && key == keys[k] && OnlyKeys(cursors0, cursors, keys[..k])
    ensures ReadsPartition(definition, tables, part, ok, outputs)
    ensures OnlyKeys(cursors0, after, keys[..k + 1])
    ensures (!ok ==> after == cursors) && forall id :: id in cursors ==> id in after && after[id] == cursors[id]
    ensures ok ==> forall i :: 0 <= i < |definition| && definition[i].isSource && outputs[i] != [] ==>
      ConnectionId(pipeline, Prepared(definition[i], part, key)) in after
  {
    hide Range, Ordered, Unique, Fits, NewKeys, Prepared, StartOf, EndOf, PageSizeOf, ConnectionId, OnlyKeys;
    var nodes := new Node[|definition|](i requires 0 <= i < |definition| => definition[i]);
    PointAtPartition(nodes, part, key);
    ok, outputs, after := true, [], cursors;
    StillOnlyKeys(cursors0, cursors, keys, k);
    for i := 0 to nodes.Length
      invariant |outputs| == i
      invariant forall j :: 0 <= j < nodes.Length ==> nodes[j] == Prepared(definition[j], part, key)
      invariant ok <==> forall j :: 0 <= j < i && definition[j].isSource ==> Fits(tables[j], part)
      invariant ok ==> forall j :: 0 <= j < i ==> outputs[j] == if definition[j].isSource then Range(tables[j], part.from, part.to) else []
      invariant OnlyKeys(cursors0, after, keys[..k + 1])
      invariant forall id :: id in cursors ==> id in after && after[id] == cursors[id]
      invariant forall j :: 0 <= j < i && definition[j].isSource && outputs[j] != [] ==>
        ConnectionId(pipeline, Prepared(definition[j], part, key)) in after
    {
      PreparedKind(definition[i], part, key);
      if nodes[i].isSource {
        NoCursorYet(cursors0, cursors, keys, k, pipeline, definition[i], part);
        PreparedReads(definition[i], part, key, tables[i], configured);
        var good, records := RunNode(pipeline, nodes[i], tables[i], cursors, configured);
        assert good <==> Fits(tables[i], part) by { FitsIs(tables[i], part); }
        ok := ok && good;
        outputs := outputs + [records];
        if records != [] {
          CursorKept(cursors0, after, keys, k, pipeline, definition[i], part, records[|records| - 1].cursor);
          after := after[ConnectionId(pipeline, nodes[i]) := records[|records| - 1].cursor];
        }
      } else {
        outputs := outputs + [[]];
      }
    }
    if !ok {
      after := cursors;
      StillOnlyKeys(cursors0, cursors, keys, k);
    }
  }

  lemma PreparedKind(node: Node, part: Partition, key: string)
    ensures Prepared(node, part, key).isSource == node.isSource
  {
  }

  lemma FitsIs(rows: seq<Row>, part: Partition)
    ensures Fits(rows, part) <==> |Range(rows, part.from, part.to)| <= 500000
  {
  }

  lemma StillOnlyKeys(cursors0: map<string, int>, cursors: map<string, int>, keys: seq<string>, k: nat)
    requires k < |keys| && OnlyKeys(cursors0, cursors, keys[..k])
    ensures OnlyKeys(cursors0, cursors, keys[..k + 1])
  {
    assert forall x :: x in keys[..k] ==> x in keys[..k + 1];
  }

  lemma CursorKept(cursors0: map<string, int>, cursors: map<string, int>, keys: seq<string>, k: nat, pipeline: string, node: Node, part: Partition, v: int)
    requires k < |keys| && OnlyKeys(cursors0, cursors, keys[..k + 1]) && node.isSource && NewKeys(cursors0, keys)
    ensures OnlyKeys(cursors0, cursors[ConnectionId(pipeline, Prepared(node, part, keys[k])) := v], keys[..k + 1])
  {
    var prefix := pipeline + ":" + node.id;
    assert keys[k] in keys && keys[..k + 1][k] == keys[k];
    assert prefix + (":" + keys[k]) == prefix + ":" + keys[k];
    assert keys[k] in keys[..k + 1];
  }

  /** The outputs of the executions so far, by node. */
  ghost predicate ReadsPlan(nodes: seq<Node>, tables: seq<seq<Row>>, plan: seq<Partition>, ok: bool, outputs: seq<seq<Row>>)
    requires |tables| == |nodes|
  {
    && |outputs| == |nodes|
    && (ok <==> forall k, i :: 0 <= k < |plan| && 0 <= i < |nodes| && nodes[i].isSource ==> Fits(tables[i], plan[k]))
    && (ok ==> forall i :: 0 <= i < |nodes| ==> outputs[i] == if nodes[i].isSource then RangesOf(tables[i], plan) else [])
  }

  lemma OneMorePartition(nodes: seq<Node>, tables: seq<seq<Row>>, plan: seq<Partition>, k: nat, ok: bool, before: seq<seq<Row>>, good: bool, outputs: seq<seq<Row>>)
    requires |tables| == |nodes| && k < |plan| && ReadsPlan(nodes, tables, plan[..k], ok, before)
    requires ReadsPartition(nodes, tables, plan[k], good, outputs)
    ensures ReadsPlan(nodes, tables, plan[..k + 1], ok && good, Joined(before, outputs))
  {
    hide Range, Fits, RangesOf;
    assert plan[..k + 1][..k] == plan[..k];
    if ok && good {
      forall i | 0 <= i < |nodes| ensures Joined(before, outputs)[i] == if nodes[i].isSource then RangesOf(tables[i], plan[..k + 1]) else [] {
        RangesOfNext(tables[i], plan, k);
      }
    }
    if !ok {
      var l, i :| 0 <= l < k && 0 <= i < |nodes| && nodes[i].isSource && !Fits(tables[i], plan[..k][l]);
      assert !Fits(tables[i], plan[..k + 1][l]);
    }
    if !good {
      var i :| 0 <= i < |nodes| && nodes[i].isSource && !Fits(tables[i], plan[k]);
      assert !Fits(tables[i], plan[..k + 1][k]);
    }
  }

  lemma RangesOfNext(rows: seq<Row>, plan: seq<Partition>, k: nat)
    requires k < |plan|
    ensures RangesOf(rows, plan[..k + 1]) == RangesOf(rows, plan[..k]) + Range(rows, plan[k].from, plan[k].to)
  {
    assert plan[..k + 1][..k] == plan[..k];
  }

  function Joined(a: seq<seq<Row>>, b: seq<seq<Row>>): (r: seq<seq<Row>>)
    requires |a| == |b|
  {
    seq(|a|, i requires 0 <= i < |a| => a[i] + b[i])
  }

  /**
    A planned backfill, stored, dispatched partition by partition and run: when every partition
    succeeds, the outputs of each source together are one scan of the stored range, each row once,
    in order. A partition succeeds exactly when no source has more than half a million rows in it.
   */
  method RunBackfill(pipeline: string, definition: seq<Node>, tables: seq<seq<Row>>, from: int, to: int, step: int, parts: seq<Partition>,
                     stored: int -> int, keys: seq<string>, cursors: map<string, int>, configured: Option<real>)
      returns (ok: bool, outputs: seq<seq<Row>>)
    requires |tables| == |definition| && GoodTables(tables) && Tiles(parts, from, to, step) && Stores(stored)
    requires |keys| == |parts| && NewKeys(cursors, keys)
    ensures |outputs| == |definition|
    ensures ok ==> forall i :: 0 <= i < |definition| && definition[i].isSource ==> outputs[i] == Range(tables[i], stored(from), stored(to))
    ensures ok <==> forall k, i :: 0 <= k < |parts| && 0 <= i < |definition| && definition[i].isSource ==>
      Fits(tables[i], Partition(stored(parts[k].from), stored(parts[k].to)))
  {
    var plan := StorePlan(parts, stored);
    StoredTiles(parts, from, to, step, stored);
    hide Range, Tiles, Stores, Consecutive, Fits, NewKeys, OnlyKeys, Ordered, Unique;
    ok, outputs := true, seq(|definition|, _ => []);
    var current := cursors;
    NothingRead(definition, tables, plan, outputs, cursors, keys);
    for k := 0 to |plan|
      invariant ReadsPlan(definition, tables, plan[..k], ok, outputs) && OnlyKeys(cursors, current, keys[..k])
    {
      hide ReadsPlan, ReadsPartition;
      PlanSize(definition, tables, plan[..k], ok, outputs);
      var good, more, after := RunPartition(pipeline, definition, tables, plan[k], keys, k, keys[k], cursors, current, configured);
      PartitionSize(definition, tables, plan[k], good, more);
      OneMorePartition(definition, tables, plan, k, ok, outputs, good, more);
      ok, outputs, current := ok && good, Joined(outputs, more), after;
    }
    assert plan[..|plan|] == plan;
    forall i | 0 <= i < |definition| && ok && definition[i].isSource ensures outputs[i] == Range(tables[i], stored(from), stored(to)) {
      RangesJoin(tables[i], plan);
    }
  }

  lemma NothingRead(nodes: seq<Node>, tables: seq<seq<Row>>, plan: seq<Partition>, outputs: seq<seq<Row>>, cursors: map<string, int>, keys: seq<string>)
    requires |tables| == |nodes| == |outputs| && forall i :: 0 <= i < |outputs| ==> outputs[i] == []
    ensures ReadsPlan(nodes, tables, plan[..0], true, outputs) && OnlyKeys(cursors, cursors, keys[..0])
  {
  }

  lemma PlanSize(nodes: seq<Node>, tables: seq<seq<Row>>, plan: seq<Partition>, ok: bool, outputs: seq<seq<Row>>)
    requires |tables| == |nodes| && ReadsPlan(nodes, tables, plan, ok, outputs)
    ensures |outputs| == |nodes|
  {
  }

  lemma PartitionSize(nodes: seq<Node>, tables: seq<seq<Row>>, part: Partition, ok: bool, outputs: seq<seq<Row>>)
    requires |tables| == |nodes| && ReadsPartition(nodes, tables, part, ok, outputs)
    ensures |outputs| == |nodes|
  {
  }
}
