/**
  Listing pipelines page by page: the server's keyset pages (`pipelineList` in routes_pipelines.go)
  and the client that follows the cursors (`listAllPipelines` in api.ts). A row is given by its
  sort key; a table is the rows that match the filters, in listing order.
 */
module KeysetPaging {
  import opened Options

  /** Creation time and row id, both as numbers. */
  datatype Key = Key(created: int, id: int)

  /** Newer rows are listed first, and of equally old ones the greater id. */
  predicate Precedes(a: Key, b: Key) {
    a.created > b.created || (a.created == b.created && a.id > b.id)
  }

  /** The listing order is a strict total order of the keys, newest first. */
  lemma PrecedesOrders(a: Key, b: Key, c: Key)
    ensures !Precedes(a, a) && (Precedes(a, b) ==> !Precedes(b, a)) && (a != b ==> Precedes(a, b) || Precedes(b, a))
    ensures Precedes(a, b) && Precedes(b, c) ==> Precedes(a, c)
    ensures (a.created > b.created ==> Precedes(a, b)) && (a.created == b.created ==> (Precedes(a, b) <==> a.id > b.id))
  {
  }

  ghost predicate Descending(rows: seq<Key>) {
    forall i, j :: 0 <= i < j < |rows| ==> Precedes(rows[i], rows[j])
  }

  const SERVER_DEFAULT: nat := 50
  const SERVER_MAX: nat := 200

  /** The server's page size: the request if it is positive, within the configured maximum. */
  function ServerLimit(requested: int, configured: int): (limit: nat)
    ensures 1 <= limit <= 200 && (1 <= configured <= 200 ==> limit <= configured)
    ensures requested >= 1 && limit != requested ==> limit < requested && limit == if 1 <= configured <= 200 then configured else 200
    ensures requested < 1 && limit != 50 ==> limit < 50 && limit == configured
  {
    var wanted := if requested < 1 then SERVER_DEFAULT else requested;
    var most := if configured <= 0 || configured > SERVER_MAX then SERVER_MAX else configured;
    if wanted > most then most else wanted
  }

  /** The client's page size; `None` is a number that is not finite. */
  function ClientLimit(pageSize: Option<real>): (limit: nat)
    ensures 1 <= limit <= 200
    ensures pageSize.Some? && 1 <= pageSize.value.Floor <= 200 ==> limit == pageSize.value.Floor
    ensures pageSize.None? || pageSize.value.Floor > 200 ==> limit == 200
    ensures pageSize.Some? && pageSize.value.Floor < 1 ==> limit == 1
  {
    if pageSize.None? then 200
    else
      var n := pageSize.value.Floor;
      if n < 1 then 1 else if n > 200 then 200 else n
  }

  /** The rows listed after the cursor. */
  function Below(rows: seq<Key>, cursor: Option<Key>): seq<Key> {
    if rows == [] then []
    else
      var last := rows[|rows| - 1];
      Below(rows[..|rows| - 1], cursor) + if cursor.None? || Precedes(cursor.value, last) then [last] else []
  }

  datatype Page = Page(rows: seq<Key>, next: Option<Key>)

  /** One row more than the page is asked for, to see whether there are more. */
  function PipelineList(table: seq<Key>, cursor: Option<Key>, limit: nat): Page
    requires limit >= 1
  {
    var below := Below(table, cursor);
    var fetched := if |below| > limit + 1 then below[..limit + 1] else below;
    if |fetched| > limit then Page(fetched[..limit], Some(fetched[limit - 1])) else Page(fetched, None)
  }

  lemma PageOfBelow(table: seq<Key>, cursor: Option<Key>, limit: nat)
    requires limit >= 1
    ensures var below, p := Below(table, cursor), PipelineList(table, cursor, limit);
            && (|below| > limit ==> p == Page(below[..limit], Some(below[limit - 1])))
            && (|below| <= limit ==> p == Page(below, None))
  {
    var below := Below(table, cursor);
    if |below| > limit + 1 {
      assert below[..limit + 1][..limit] == below[..limit];
    }
  }

  lemma {:induction false} BelowNone(rows: seq<Key>)
    ensures Below(rows, None) == rows
  {
    if rows != [] {
      BelowNone(rows[..|rows| - 1]);
    }
  }

  /** In a descending table the rows below one of its rows are those behind it. */
  lemma {:induction false} BelowSuffix(table: seq<Key>, i: nat, n: nat)
    requires Descending(table) && i < n <= |table|
    ensures Below(table[..n], Some(table[i])) == table[i + 1..n]
    decreases n
  {
    var m := n - 1;
    assert table[..n][..m] == table[..m] && table[..n][m] == table[m];
    if i < m {
      BelowSuffix(table, i, m);
      assert Precedes(table[i], table[m]);
    } else {
      NothingBelow(table, i, m);
    }
  }

  lemma {:induction false} NothingBelow(table: seq<Key>, i: nat, n: nat)
    requires Descending(table) && i < |table| && n <= i
    ensures Below(table[..n], Some(table[i])) == []
    decreases n
  {
    if n > 0 {
      assert table[..n][..n - 1] == table[..n - 1] && table[..n][n - 1] == table[n - 1];
      assert Precedes(table[n - 1], table[i]);
      NothingBelow(table, i, n - 1);
    }
  }

  // ----- the client -----

  /** Only newer rows appear between pages: the table at page `t` is the first one with rows in front. */
  ghost predicate OnlyNewer(tables: nat -> seq<Key>) {
    forall t: nat :: Descending(tables(t)) && |tables(t)| >= |tables(0)| && tables(t)[|tables(t)| - |tables(0)|..] == tables(0)
  }

  lemma At(tables: nat -> seq<Key>, t: nat)
    requires OnlyNewer(tables)
    ensures Descending(tables(t)) && |tables(t)| >= |tables(0)| && tables(t)[|tables(t)| - |tables(0)|..] == tables(0)
  {
  }

  lemma BelowInSuffix(now: seq<Key>, first: seq<Key>, i: nat)
    requires Descending(now) && |now| >= |first| && now[|now| - |first|..] == first && 1 <= i <= |first|
    ensures Below(now, Some(first[i - 1])) == first[i..]
  {
    hide Descending, Below;
    var shift := |now| - |first|;
    assert now[shift..][i - 1] == now[shift + i - 1];
    BelowSuffix(now, shift + i - 1, |now|);
    assert now[..|now|] == now;
    assert now[shift + i..] == now[shift..][i..];
  }

  lemma PageOfFirst(tables: nat -> seq<Key>, t: nat, i: nat)
    requires OnlyNewer(tables) && i <= |tables(0)| && (i == 0 ==> t == 0)
    ensures Below(tables(t), if i == 0 then None else Some(tables(0)[i - 1])) == tables(0)[i..]
  {
    hide OnlyNewer, Below, Descending;
    if i == 0 {
      BelowNone(tables(0));
    } else {
      At(tables, t);
      BelowInSuffix(tables(t), tables(0), i);
    }
  }

  /** The cursor after the first `i` rows. */
  function CursorAt(first: seq<Key>, i: nat): Option<Key>
    requires i <= |first|
  {
    if i == 0 then None else Some(first[i - 1])
  }

  lemma NextPage(tables: nat -> seq<Key>, t: nat, i: nat, limit: nat)
    requires OnlyNewer(tables) && limit >= 1 && i <= |tables(0)| && (i == 0 ==> t == 0)
    ensures var first := tables(0);
            var p := PipelineList(tables(t), CursorAt(first, i), limit);
            var n := i + |p.rows|;
            && n <= |first| && first[..i] + p.rows == first[..n]
            && (p.next.None? ==> n == |first|)
            && (p.next.Some? ==> i < n && p.next == CursorAt(first, n) && p.next.value !in first[..i])
  {
    hide OnlyNewer, Below, PipelineList, Descending;
    var first := tables(0);
    PageOfFirst(tables, t, i);
    PageOfBelow(tables(t), CursorAt(first, i), limit);
    At(tables, 0);
    if i + limit < |first| {
      assert first[..i] + first[i..][..limit] == first[..i + limit];
      NewCursor(first, i, i + limit);
    } else {
      assert first[..i] + first[i..] == first[..|first|];
    }
  }

  lemma NewCursor(first: seq<Key>, i: nat, n: nat)
    requires i < n <= |first| && Descending(first)
    ensures first[n - 1] !in first[..i]
  {
  }

  /**
    Following the cursors returns the rows that were there at the start, each once and in order,
    for any page size, while newer rows arrive between the pages; it ends, and never sees a cursor
    twice.
   */
  method ListAllPipelines(tables: nat -> seq<Key>, pageSize: Option<real>, configured: int) returns (rows: seq<Key>, repeated: bool)
    requires OnlyNewer(tables)
    ensures rows == tables(0) && !repeated
  {
    hide OnlyNewer, PipelineList, ServerLimit, ClientLimit;
    var limit := ServerLimit(ClientLimit(pageSize), configured);
    var seen: set<Key> := {};
    var cursor: Option<Key> := None;
    var t := 0;
    rows := [];
    while true
      invariant |rows| <= |tables(0)| && rows == tables(0)[..|rows|] && (|rows| == 0 ==> t == 0)
      invariant cursor == CursorAt(tables(0), |rows|)
      invariant forall c :: c in seen ==> c in rows
      decreases |tables(0)| - |rows|
    {
      NextPage(tables, t, |rows|, limit);
      var page := PipelineList(tables(t), cursor, limit);
      rows := rows + page.rows;
      if page.next.None? {
        return rows, false;
      }
      if page.next.value in seen {
        return rows, true;
      }
      seen := seen + {page.next.value};
      cursor := page.next;
      assert page.next.value == rows[|rows| - 1];
      t := t + 1;
    }
  }

  // ----- any rows may arrive -----

  /** A complete listing: each page from the table at its time, from where the page before stopped. */
  ghost predicate IsListing(tables: seq<seq<Key>>, pages: seq<Page>, cursor: Option<Key>, limit: nat)
    requires limit >= 1
    decreases |pages|
  {
    && |tables| == |pages| >= 1 && pages[0] == PipelineList(tables[0], cursor, limit)
    && (if pages[0].next.None? then |pages| == 1
        else |pages| > 1 && IsListing(tables[1..], pages[1..], pages[0].next, limit))
  }

  ghost predicate Contains(after: seq<Key>, before: seq<Key>) {
    forall k :: k in before ==> k in after
  }

  /** Rows are added anywhere, but none removed. */
  ghost predicate Growing(tables: seq<seq<Key>>) {
    && (forall t :: 0 <= t < |tables| ==> Descending(tables[t]))
    && (forall t, u :: 0 <= t && u == t + 1 < |tables| ==> Contains(tables[u], tables[t]))
  }

  function RowsOf(pages: seq<Page>): seq<Key>
    decreases |pages|
  {
    if pages == [] then [] else pages[0].rows + RowsOf(pages[1..])
  }

  predicate After(cursor: Option<Key>, k: Key) {
    cursor.None? || Precedes(cursor.value, k)
  }

  lemma {:induction false} BelowIs(rows: seq<Key>, cursor: Option<Key>)
    requires Descending(rows)
    ensures Descending(Below(rows, cursor))
    ensures forall k :: k in Below(rows, cursor) <==> k in rows && After(cursor, k)
  {
    if rows != [] {
      var n := |rows| - 1;
      assert rows == rows[..n] + [rows[n]];
      assert Descending(rows[..n]);
      BelowIs(rows[..n], cursor);
      LastFollows(rows);
      hide Descending;
      forall k | k in Below(rows[..n], cursor) ensures Precedes(k, rows[n]) {
      }
      DescendingAppend(Below(rows[..n], cursor), rows[n]);
    }
  }

  lemma LastFollows(rows: seq<Key>)
    requires rows != [] && Descending(rows)
    ensures var last := rows[|rows| - 1]; forall k :: k in rows[..|rows| - 1] ==> Precedes(k, last)
  {
  }

  lemma DescendingAppend(rows: seq<Key>, k: Key)
    requires Descending(rows)
    requires forall r :: r in rows ==> Precedes(r, k)
    ensures Descending(rows + [k])
  {
  }

  lemma DescendingConcat(a: seq<Key>, b: seq<Key>, cut: Key)
    requires Descending(a) && Descending(b)
    requires forall k :: k in a ==> k == cut || Precedes(k, cut)
    requires forall k :: k in b ==> Precedes(cut, k)
    ensures Descending(a + b)
  {
    var s := a + b;
    forall i, j | 0 <= i < j < |s| ensures Precedes(s[i], s[j]) {
      if i < |a| && j >= |a| {
        assert s[i] in a && s[j] in b;
      }
    }
  }

  /** The first page: a beginning of what is below the cursor, up to the next cursor. */
  lemma FirstPage(table: seq<Key>, cursor: Option<Key>, limit: nat)
    requires Descending(table) && limit >= 1
    ensures var p := PipelineList(table, cursor, limit);
            && Descending(p.rows)
            && (forall k :: k in p.rows ==> k in table && After(cursor, k))
            && (forall k :: k in table && After(cursor, k) ==> k in p.rows || (p.next.Some? && Precedes(p.next.value, k)))
            && (p.next.Some? ==> After(cursor, p.next.value) && forall k :: k in p.rows ==> k == p.next.value || Precedes(k, p.next.value))
  {
    BelowIs(table, cursor);
    PageOfBelow(table, cursor, limit);
    var below := Below(table, cursor);
    hide Below;
    if |below| > limit {
      forall k | k in below ensures k in below[..limit] || Precedes(below[limit - 1], k) {
        var i :| 0 <= i < |below| && below[i] == k;
        if i < limit {
          assert below[..limit][i] == k;
        }
      }
      forall k | k in below[..limit] ensures k in below && (k == below[limit - 1] || Precedes(k, below[limit - 1])) {
        var i :| 0 <= i < limit && below[..limit][i] == k;
        assert below[i] == k;
      }
      assert below[limit - 1] in below;
    }
  }

  lemma GrowingTail(tables: seq<seq<Key>>)
    requires |tables| > 1 && Growing(tables)
    ensures Growing(tables[1..]) && Descending(tables[0]) && Contains(tables[1], tables[0])
  {
    hide Contains, Descending;
    var rest := tables[1..];
    forall t, u | 0 <= t && u == t + 1 < |rest| ensures Contains(rest[u], rest[t]) {
      assert rest[u] == tables[u + 1] && rest[t] == tables[t + 1];
    }
  }

  /** What a complete listing from a cursor returns. */
  ghost predicate Complete(rows: seq<Key>, first: seq<Key>, cursor: Option<Key>) {
    && Descending(rows)
    && (forall k :: k in rows ==> After(cursor, k))
    && (forall k :: k in first && After(cursor, k) ==> k in rows)
  }

  /**
    Wherever rows are inserted between the pages, a listing that comes to its end is in strictly
    descending order, so it repeats nothing, and it has every row that was there at the start.
   */
  lemma {:induction false} ListingIsComplete(tables: seq<seq<Key>>, pages: seq<Page>, cursor: Option<Key>, limit: nat)
    requires limit >= 1 && Growing(tables) && IsListing(tables, pages, cursor, limit)
    ensures Complete(RowsOf(pages), tables[0], cursor)
    decreases |pages|
  {
    hide PipelineList, Descending, Growing;
    FirstDescending(tables);
    FirstPage(tables[0], cursor, limit);
    if pages[0].next.None? {
      assert RowsOf(pages) == pages[0].rows by { OnePage(pages); }
    } else {
      var next, rest := pages[0].next, RowsOf(pages[1..]);
      GrowingTail(tables);
      ListingIsComplete(tables[1..], pages[1..], next, limit);
      CombinePages(pages[0].rows, rest, tables[0], tables[1], cursor, next.value);
    }
  }

  lemma FirstDescending(tables: seq<seq<Key>>)
    requires Growing(tables) && |tables| >= 1
    ensures Descending(tables[0])
  {
  }

  lemma OnePage(pages: seq<Page>)
    requires |pages| == 1
    ensures RowsOf(pages) == pages[0].rows
  {
  }

  lemma CombinePages(page: seq<Key>, rest: seq<Key>, first: seq<Key>, second: seq<Key>, cursor: Option<Key>, next: Key)
    requires Descending(page) && Complete(rest, second, Some(next)) && After(cursor, next)
    requires forall k :: k in page ==> After(cursor, k) && (k == next || Precedes(k, next))
    requires forall k :: k in first && After(cursor, k) ==> k in page || Precedes(next, k)
    requires Contains(second, first)
    ensures Complete(page + rest, first, cursor)
  {
    hide Descending;
    DescendingConcat(page, rest, next);
  }
}
