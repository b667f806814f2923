/**
  The Postgres sink (`postgresBatchRows`, `postgresSink` in databases.go): rows are written in
  multi-row statements; a conflict key turns them into upserts.
 */
module BatchedWrites {
  import opened Options

  const BATCH_ROWS: nat := 500
  const MAX_PARAMS: nat := 65535

  /** A missing value is NULL. */
  type Value = Option<string>
  type Row = map<string, Value>

  function ValueOf(row: Row, column: string): Value {
    if column in row then row[column] else None
  }

  datatype SinkError = NoColumns | TooManyColumns | DuplicateInStatement

  /** Rows per statement, so that the bind parameters suffice. */
  function BatchRows(columnCount: nat): (r: (nat, Option<SinkError>))
    ensures r.1.None? <==> 1 <= columnCount <= MAX_PARAMS
    ensures r.1.None? ==> 1 <= r.0 <= BATCH_ROWS && r.0 * columnCount <= MAX_PARAMS
    ensures r.1.None? && r.0 < BATCH_ROWS ==> (r.0 + 1) * columnCount > MAX_PARAMS
  {
    if columnCount < 1 then (0, Some(NoColumns))
    else
      var rows := MAX_PARAMS / columnCount;
      Quotient(MAX_PARAMS, columnCount);
      if rows < 1 then (0, Some(TooManyColumns))
      else
        Fewer(if BATCH_ROWS < rows then BATCH_ROWS else rows, rows, columnCount);
        (if BATCH_ROWS < rows then BATCH_ROWS else rows, None)
  }

  lemma Quotient(a: nat, d: nat)
    requires d >= 1
    ensures (a / d) * d <= a < (a / d + 1) * d
    ensures a / d >= 1 <==> a >= d
  {
  }

  lemma Fewer(m: nat, n: nat, d: nat)
    requires m <= n
    ensures m * d <= n * d
  {
  }

  // ----- the table -----

  /** The proposed row: one value for every column of the statement. */
  function Proposed(row: Row, columns: seq<string>): Row {
    map c | c in columns :: ValueOf(row, c)
  }

  /** The values of the conflict key; NULLs never conflict, and without a conflict key nothing does. */
  function KeyOf(row: Row, conflict: seq<string>): Option<seq<string>> {
    if conflict == [] then None else KeyValues(row, conflict)
  }

  function KeyValues(row: Row, conflict: seq<string>): Option<seq<string>> {
    if conflict == [] then Some([])
    else
      var first, rest := ValueOf(row, conflict[0]), KeyValues(row, conflict[1..]);
      if first.None? || rest.None? then None else Some([first.value] + rest.value)
  }

  /** Rows by key, and the rows that have none. */
  datatype Table = Table(keyed: map<seq<string>, Row>, unkeyed: seq<Row>)

  /** What the conflict clause does with a row that is there already. */
  function Merge(there: Row, row: Row, conflict: seq<string>): Row {
    there + map c | c in row && c !in conflict :: row[c]
  }

  /** All columns belong to the key: the clause says DO NOTHING. */
  predicate DoesNothing(columns: seq<string>, conflict: seq<string>) {
    forall c :: c in columns ==> c in conflict
  }

  function Upsert(t: Table, row: Row, conflict: seq<string>): Table {
    var key := KeyOf(row, conflict);
    if key.None? then t.(unkeyed := t.unkeyed + [row])
    else if key.value in t.keyed then t.(keyed := t.keyed[key.value := Merge(t.keyed[key.value], row, conflict)])
    else t.(keyed := t.keyed[key.value := row])
  }

  /** The key is made of the values of the conflict columns, in their order, if there are any and none is NULL. */
  lemma {:induction false} KeyValuesAre(row: Row, conflict: seq<string>)
    ensures KeyValues(row, conflict).Some? <==> forall i :: 0 <= i < |conflict| ==> ValueOf(row, conflict[i]).Some?
    ensures KeyValues(row, conflict).Some? ==>
      |KeyValues(row, conflict).value| == |conflict| &&
      forall i :: 0 <= i < |conflict| ==> KeyValues(row, conflict).value[i] == ValueOf(row, conflict[i]).value
  {
    if conflict != [] {
      KeyValuesAre(row, conflict[1..]);
      var all := forall i :: 0 <= i < |conflict| ==> ValueOf(row, conflict[i]).Some?;
      if all {
        assert forall i :: 0 <= i < |conflict[1..]| ==> conflict[1..][i] == conflict[i + 1];
      }
      if ValueOf(row, conflict[0]).Some? && KeyValues(row, conflict[1..]).Some? {
        forall i | 0 <= i < |conflict| ensures ValueOf(row, conflict[i]).Some? {
          assert i > 0 ==> conflict[1..][i - 1] == conflict[i];
        }
      }
    }
  }

  /**
    An upsert. Without a conflict key, or with a NULL in it, the row is added. Otherwise a row that
    is there with the same key values takes over the other columns, and if there is none it is new.
   */
  lemma UpsertMeans(t: Table, row: Row, conflict: seq<string>)
    ensures var u := Upsert(t, row, conflict);
            if conflict == [] || exists i :: 0 <= i < |conflict| && ValueOf(row, conflict[i]).None? then
              u == Table(t.keyed, t.unkeyed + [row])
            else
              && u.unkeyed == t.unkeyed
              && exists k :: KeyIs(k, row, conflict) && k in u.keyed && u.keyed.Keys == t.keyed.Keys + {k}
                   && (forall other :: other in t.keyed && other != k ==> u.keyed[other] == t.keyed[other])
                   && (k !in t.keyed ==> u.keyed[k] == row)
                   && (k in t.keyed ==> TakesOver(t.keyed[k], row, conflict, u.keyed[k]))
  {
    KeyValuesAre(row, conflict);
    hide KeyValues;
    var key := KeyOf(row, conflict);
    if key.Some? {
      assert KeyIs(key.value, row, conflict);
    }
  }

  ghost predicate KeyIs(k: seq<string>, row: Row, conflict: seq<string>) {
    |k| == |conflict| && forall i :: 0 <= i < |conflict| ==> ValueOf(row, conflict[i]) == Some(k[i])
  }

  ghost predicate TakesOver(there: Row, row: Row, conflict: seq<string>, merged: Row) {
    && merged.Keys == there.Keys + set c | c in row && c !in conflict
    && forall c :: c in merged ==>
         if c in row && c !in conflict then merged[c] == row[c] else c in there && merged[c] == there[c]
  }

  /** One row after the other. */
  function RowByRow(t: Table, rows: seq<Row>, conflict: seq<string>): Table {
    if rows == [] then t else Upsert(RowByRow(t, rows[..|rows| - 1], conflict), rows[|rows| - 1], conflict)
  }

  predicate KeysDistinct(rows: seq<Row>, conflict: seq<string>) {
    forall i, j :: 0 <= i < j < |rows| && KeyOf(rows[i], conflict).Some? ==> KeyOf(rows[i], conflict) != KeyOf(rows[j], conflict)
  }

  function KeysOf(rows: seq<Row>, conflict: seq<string>): set<seq<string>> {
    set r | r in rows && KeyOf(r, conflict).Some? :: KeyOf(r, conflict).value
  }

  /** The first of the rows with a key. */
  function RowWith(rows: seq<Row>, key: seq<string>, conflict: seq<string>): (r: Row)
    requires key in KeysOf(rows, conflict)
    ensures r in rows && KeyOf(r, conflict) == Some(key)
  {
    if KeyOf(rows[0], conflict) == Some(key) then rows[0]
    else
      assert rows == [rows[0]] + rows[1..];
      RowWith(rows[1..], key, conflict)
  }

  function Unkeyed(rows: seq<Row>, conflict: seq<string>): seq<Row> {
    if rows == [] then []
    else
      var last := rows[|rows| - 1];
      Unkeyed(rows[..|rows| - 1], conflict) + if KeyOf(last, conflict).None? then [last] else []
  }

  /**
    One multi-row statement, all of it against the table as it was. Updating a row twice in one
    statement is an error; with DO NOTHING the first of several rows with a key wins.
   */
  function Statement(t: Table, rows: seq<Row>, conflict: seq<string>, nothing: bool): Option<Table> {
    if !nothing && !KeysDistinct(rows, conflict) then None
    else
      Some(Table(map k | k in t.keyed.Keys + KeysOf(rows, conflict) ::
                   if k !in KeysOf(rows, conflict) then t.keyed[k]
                   else if k in t.keyed then Merge(t.keyed[k], RowWith(rows, k, conflict), conflict)
                   else RowWith(rows, k, conflict),
                 t.unkeyed + Unkeyed(rows, conflict)))
  }

  // ----- one statement is its rows one by one -----

  lemma KeysOfAppend(rows: seq<Row>, r: Row, conflict: seq<string>)
    ensures KeysOf(rows + [r], conflict) == KeysOf(rows, conflict) + if KeyOf(r, conflict).Some? then {KeyOf(r, conflict).value} else {}
  {
  }

  lemma {:induction false} RowWithAppend(rows: seq<Row>, r: Row, key: seq<string>, conflict: seq<string>)
    requires key in KeysOf(rows + [r], conflict)
    ensures key in KeysOf(rows, conflict) ==> RowWith(rows + [r], key, conflict) == RowWith(rows, key, conflict)
    ensures key !in KeysOf(rows, conflict) ==> RowWith(rows + [r], key, conflict) == r
  {
    hide KeyOf;
    if rows == [] {
      assert rows + [r] == [r];
    } else {
      assert (rows + [r])[1..] == rows[1..] + [r];
      assert rows == [rows[0]] + rows[1..];
      if KeyOf(rows[0], conflict) != Some(key) {
        RowWithAppend(rows[1..], r, key, conflict);
      }
    }
  }

  /** What the table holds for a key after a statement. */
  ghost predicate Holds(t: Table, rows: seq<Row>, conflict: seq<string>, u: Table, k: seq<string>) {
    if k !in KeysOf(rows, conflict) then (k in u.keyed <==> k in t.keyed) && (k in t.keyed ==> u.keyed[k] == t.keyed[k])
    else k in u.keyed && u.keyed[k] == (if k in t.keyed then Merge(t.keyed[k], RowWith(rows, k, conflict), conflict) else RowWith(rows, k, conflict))
  }

  /** A row that adds nothing to its key: all its columns belong to the key. */
  ghost predicate KeyOnly(rows: seq<Row>, conflict: seq<string>) {
    forall r :: r in rows ==> forall c :: c in r ==> c in conflict
  }

  /** A second row with a key changes nothing: under distinct keys there is none. */
  predicate Repeats(before: seq<Row>, r: Row, conflict: seq<string>) {
    KeyOf(r, conflict).Some? && KeyOf(r, conflict).value in KeysOf(before, conflict)
  }

  lemma RepeatIsKeyOnly(before: seq<Row>, r: Row, conflict: seq<string>)
    requires KeysDistinct(before + [r], conflict) || KeyOnly(before + [r], conflict)
    ensures Repeats(before, r, conflict) ==> forall c :: c in r ==> c in conflict
  {
    hide KeyOf;
    var rows := before + [r];
    assert rows[|before|] == r;
    if KeysDistinct(rows, conflict) {
      forall x | x in before && KeyOf(x, conflict).Some? ensures KeyOf(x, conflict) != KeyOf(r, conflict) {
        var i :| 0 <= i < |before| && before[i] == x;
        assert rows[i] == x;
      }
    } else {
      assert r in rows;
    }
  }

  lemma MergeNothing(there: Row, r: Row, conflict: seq<string>)
    requires forall c :: c in r ==> c in conflict
    ensures Merge(there, r, conflict) == there
  {
  }

  lemma HoldsNext(t: Table, before: seq<Row>, r: Row, conflict: seq<string>, u: Table, k: seq<string>)
    requires Holds(t, before, conflict, u, k)
    requires Repeats(before, r, conflict) ==> forall c :: c in r ==> c in conflict
    ensures Holds(t, before + [r], conflict, Upsert(u, r, conflict), k)
  {
    hide KeyOf, RowWith, Merge, KeysOf;
    KeysOfAppend(before, r, conflict);
    if k in KeysOf(before + [r], conflict) {
      RowWithAppend(before, r, k, conflict);
      if Repeats(before, r, conflict) && k == KeyOf(r, conflict).value {
        MergeNothing(u.keyed[k], r, conflict);
      }
    }
  }

  lemma {:induction false} RowByRowHolds(t: Table, rows: seq<Row>, conflict: seq<string>, k: seq<string>)
    requires KeysDistinct(rows, conflict) || KeyOnly(rows, conflict)
    ensures Holds(t, rows, conflict, RowByRow(t, rows, conflict), k)
  {
    if rows == [] {
      assert KeysOf(rows, conflict) == {};
    } else {
      hide Holds, Upsert, Repeats;
      var n := |rows| - 1;
      var before, r := rows[..n], rows[n];
      assert rows == before + [r];
      FewerRows(before, r, conflict);
      RowByRowHolds(t, before, conflict, k);
      RepeatIsKeyOnly(before, r, conflict);
      HoldsNext(t, before, r, conflict, RowByRow(t, before, conflict), k);
    }
  }

  lemma FewerRows(before: seq<Row>, r: Row, conflict: seq<string>)
    ensures KeysDistinct(before + [r], conflict) ==> KeysDistinct(before, conflict)
    ensures KeyOnly(before + [r], conflict) ==> KeyOnly(before, conflict)
  {
    hide KeyOf;
    var rows := before + [r];
    if KeysDistinct(rows, conflict) {
      forall i, j | 0 <= i < j < |before| && KeyOf(before[i], conflict).Some?
        ensures KeyOf(before[i], conflict) != KeyOf(before[j], conflict)
      {
        assert rows[i] == before[i] && rows[j] == before[j];
      }
    }
    assert forall x :: x in before ==> x in rows;
  }

  lemma {:induction false} RowByRowUnkeyed(t: Table, rows: seq<Row>, conflict: seq<string>)
    ensures RowByRow(t, rows, conflict).unkeyed == t.unkeyed + Unkeyed(rows, conflict)
  {
    hide KeyOf, Merge;
    if rows != [] {
      var n := |rows| - 1;
      RowByRowUnkeyed(t, rows[..n], conflict);
      assert t.unkeyed + (Unkeyed(rows[..n], conflict) + [rows[n]]) == t.unkeyed + Unkeyed(rows[..n], conflict) + [rows[n]];
    }
  }

  lemma StatementHolds(t: Table, rows: seq<Row>, conflict: seq<string>, nothing: bool, k: seq<string>)
    requires Statement(t, rows, conflict, nothing).Some?
    ensures Holds(t, rows, conflict, Statement(t, rows, conflict, nothing).value, k)
  {
    hide KeysOf, KeyOf, Merge, RowWith, KeysDistinct;
  }

  lemma SameTables(t: Table, rows: seq<Row>, conflict: seq<string>, u: Table, v: Table)
    requires forall k :: Holds(t, rows, conflict, u, k) && Holds(t, rows, conflict, v, k)
    requires u.unkeyed == v.unkeyed
    ensures u == v
  {
    hide KeysOf, KeyOf, Merge, RowWith;
    assert forall k :: Holds(t, rows, conflict, u, k) ==> (k in u.keyed <==> k in KeysOf(rows, conflict) || k in t.keyed);
    assert forall k :: Holds(t, rows, conflict, v, k) ==> (k in v.keyed <==> k in KeysOf(rows, conflict) || k in t.keyed);
    assert u.keyed.Keys == v.keyed.Keys;
    forall k | k in u.keyed ensures u.keyed[k] == v.keyed[k] {
      assert Holds(t, rows, conflict, u, k) && Holds(t, rows, conflict, v, k);
    }
    assert u.keyed == v.keyed;
  }

  /** Two rows with one key: together they fail, one after the other they do not. */
  lemma RepeatedKeyFails(t: Table, a: Row, b: Row, conflict: seq<string>)
    requires KeyOf(a, conflict).Some? && KeyOf(b, conflict) == KeyOf(a, conflict)
    ensures Statement(t, [a, b], conflict, false).None?
    ensures Statement(t, [a], conflict, false).Some? && RowByRow(t, [a, b], conflict) == Upsert(Upsert(t, a, conflict), b, conflict)
  {
    hide KeyOf, Upsert;
    var rows := [a, b];
    assert rows[0] == a && rows[1] == b && !KeysDistinct(rows, conflict);
    StatementIsRowByRow(t, rows, conflict, false);
    StatementIsRowByRow(t, [a], conflict, false);
    assert KeysDistinct([a], conflict);
    hide Statement, KeysDistinct;
    assert rows[..1] == [a] && [a][..0] == [];
  }

  /** A statement that does not fail leaves the table as its rows one by one would. */
  lemma StatementIsRowByRow(t: Table, rows: seq<Row>, conflict: seq<string>, nothing: bool)
    requires nothing ==> KeyOnly(rows, conflict)
    ensures Statement(t, rows, conflict, nothing).Some? <==> nothing || KeysDistinct(rows, conflict)
    ensures Statement(t, rows, conflict, nothing).Some? ==> Statement(t, rows, conflict, nothing).value == RowByRow(t, rows, conflict)
  {
    var s := Statement(t, rows, conflict, nothing);
    if s.Some? {
      assert s.value.unkeyed == t.unkeyed + Unkeyed(rows, conflict);
      hide Statement, Holds, KeysDistinct, KeyOnly;
      forall k ensures Holds(t, rows, conflict, s.value, k) && Holds(t, rows, conflict, RowByRow(t, rows, conflict), k) {
        StatementHolds(t, rows, conflict, nothing, k);
        assert KeysDistinct(rows, conflict) || KeyOnly(rows, conflict) by { Succeeded(t, rows, conflict, nothing); }
        RowByRowHolds(t, rows, conflict, k);
      }
      RowByRowUnkeyed(t, rows, conflict);
      SameTables(t, rows, conflict, s.value, RowByRow(t, rows, conflict));
    }
  }

  lemma Succeeded(t: Table, rows: seq<Row>, conflict: seq<string>, nothing: bool)
    requires Statement(t, rows, conflict, nothing).Some?
    ensures nothing || KeysDistinct(rows, conflict)
  {
  }

  // ----- building a statement -----

  /** The columns of all rows, each once; the original sorts them. */
  method AllColumns(rows: seq<Row>) returns (columns: seq<string>)
    ensures forall i, j :: 0 <= i < j < |columns| ==> columns[i] != columns[j]
    ensures forall c :: c in columns <==> exists i :: 0 <= i < |rows| && c in rows[i]
  {
    var names: set<string> := {};
    for i := 0 to |rows|
      invariant forall c :: c in names <==> exists k :: 0 <= k < i && c in rows[k]
    {
      names := names + rows[i].Keys;
    }
    columns := [];
    ghost var all := names;
    while names != {}
      invariant forall c :: c in all <==> c in names || c in columns
      invariant forall c :: c in columns ==> c !in names
      invariant forall i, j :: 0 <= i < j < |columns| ==> columns[i] != columns[j]
      decreases names
    {
      var c :| c in names;
      names := names - {c};
      columns := columns + [c];
    }
  }

  /** A statement with its bind parameters; a group lists the numbers of the placeholders of a row. */
  datatype Insert = Insert(groups: seq<seq<nat>>, args: seq<Value>)

  /** Placeholder i * |columns| + j + 1 is bound to row i, column j, and there are no others. */
  ghost predicate BindsRows(s: Insert, batch: seq<Row>, columns: seq<string>) {
    && |s.groups| == |batch| && |s.args| == |batch| * |columns|
    && forall i :: 0 <= i < |batch| ==> BindsRow(s, i, batch[i], columns, i * |columns|)
  }

  /** The parameters of row i follow the first `base` ones. */
  ghost predicate BindsRow(s: Insert, i: nat, row: Row, columns: seq<string>, base: nat)
    requires i < |s.groups|
  {
    && |s.groups[i]| == |columns| && base + |columns| <= |s.args|
    && forall j :: 0 <= j < |columns| ==> s.groups[i][j] == base + j + 1 && s.args[base + j] == ValueOf(row, columns[j])
  }

  predicate Readable(group: seq<nat>, args: seq<Value>, columns: seq<string>) {
    |group| == |columns| && forall j :: 0 <= j < |group| ==> 1 <= group[j] <= |args|
  }

  /** The row the database reads from a statement: column j from the parameter named in place j. */
  function ReadRow(group: seq<nat>, args: seq<Value>, columns: seq<string>): Row
    requires Readable(group, args, columns)
  {
    if columns == [] then map[]
    else
      var n := |columns| - 1;
      ReadRow(group[..n], args, columns[..n])[columns[n] := args[group[n] - 1]]
  }

  lemma ProposedNext(row: Row, columns: seq<string>)
    requires columns != []
    ensures var n := |columns| - 1;
            Proposed(row, columns) == Proposed(row, columns[..n])[columns[n] := ValueOf(row, columns[n])]
  {
    hide ValueOf;
    var n := |columns| - 1;
    assert columns == columns[..n] + [columns[n]];
  }

  lemma {:induction false} ReadIsProposed(group: seq<nat>, args: seq<Value>, columns: seq<string>, row: Row)
    requires Readable(group, args, columns)
    requires forall j :: 0 <= j < |group| ==> args[group[j] - 1] == ValueOf(row, columns[j])
    ensures ReadRow(group, args, columns) == Proposed(row, columns)
  {
    if columns != [] {
      hide Proposed, ValueOf;
      var n := |columns| - 1;
      ReadIsProposed(group[..n], args, columns[..n], row);
      ProposedNext(row, columns);
    }
  }

  /** The group of one row: its values are bound in column order. */
  method BindRow(row: Row, columns: seq<string>, args: seq<Value>) returns (group: seq<nat>, more: seq<Value>)
    ensures |group| == |columns| && |more| == |args| + |columns| && args <= more
    ensures forall j :: 0 <= j < |columns| ==> group[j] == |args| + j + 1 && more[|args| + j] == ValueOf(row, columns[j])
  {
    group, more := [], args;
    for j := 0 to |columns|
      invariant |group| == j && |more| == |args| + j && args <= more
      invariant forall k :: 0 <= k < j ==> group[k] == |args| + k + 1 && more[|args| + k] == ValueOf(row, columns[k])
    {
      more := more + [ValueOf(row, columns[j])];
      group := group + [|more|];
    }
  }

  method BuildInsert(batch: seq<Row>, columns: seq<string>) returns (s: Insert)
    ensures BindsRows(s, batch, columns)
  {
    s := Insert([], []);
    hide ValueOf;
    for i := 0 to |batch|
      invariant BindsRows(s, batch[..i], columns)
    {
      var group, args := BindRow(batch[i], columns, s.args);
      BindNext(s, batch, columns, i, group, args);
      s := Insert(s.groups + [group], args);
    }
    assert batch[..|batch|] == batch;
  }

  lemma BindNext(s: Insert, batch: seq<Row>, columns: seq<string>, i: nat, group: seq<nat>, args: seq<Value>)
    requires i < |batch| && BindsRows(s, batch[..i], columns)
    requires |group| == |columns| && |args| == |s.args| + |columns| && s.args <= args
    requires forall j :: 0 <= j < |columns| ==> group[j] == |s.args| + j + 1 && args[|s.args| + j] == ValueOf(batch[i], columns[j])
    ensures BindsRows(Insert(s.groups + [group], args), batch[..i + 1], columns)
  {
    hide ValueOf;
    var t := Insert(s.groups + [group], args);
    var some := batch[..i + 1];
    assert (i + 1) * |columns| == i * |columns| + |columns|;
    forall k | 0 <= k < i + 1 ensures BindsRow(t, k, some[k], columns, k * |columns|) {
      if k < i {
        assert BindsRow(s, k, batch[..i][k], columns, k * |columns|);
        StillBinds(s, t, k, some[k], columns, k * |columns|);
      }
    }
  }

  lemma StillBinds(s: Insert, t: Insert, k: nat, row: Row, columns: seq<string>, base: nat)
    requires k < |s.groups| && s.groups <= t.groups && s.args <= t.args && BindsRow(s, k, row, columns, base)
    ensures BindsRow(t, k, row, columns, base)
  {
    assert t.groups[k] == s.groups[k];
  }

  /** The rows the database reads from a statement. */
  function ReadAll(groups: seq<seq<nat>>, args: seq<Value>, columns: seq<string>): (rows: seq<Row>)
    requires forall i :: 0 <= i < |groups| ==> Readable(groups[i], args, columns)
    ensures |rows| == |groups| && forall i :: 0 <= i < |rows| ==> rows[i] == ReadRow(groups[i], args, columns)
  {
    if groups == [] then []
    else ReadAll(groups[..|groups| - 1], args, columns) + [ReadRow(groups[|groups| - 1], args, columns)]
  }

  function ProposedAll(rows: seq<Row>, columns: seq<string>): (r: seq<Row>)
    ensures |r| == |rows| && forall i :: 0 <= i < |rows| ==> r[i] == Proposed(rows[i], columns)
  {
    if rows == [] then [] else ProposedAll(rows[..|rows| - 1], columns) + [Proposed(rows[|rows| - 1], columns)]
  }

  /** Through its parameters a statement says exactly the rows of its batch. */
  lemma StatementSaysRows(s: Insert, batch: seq<Row>, columns: seq<string>)
    requires BindsRows(s, batch, columns)
    ensures forall i :: 0 <= i < |s.groups| ==> Readable(s.groups[i], s.args, columns)
    ensures ReadAll(s.groups, s.args, columns) == ProposedAll(batch, columns)
  {
    hide ReadRow, Proposed, ValueOf;
    forall i | 0 <= i < |s.groups|
      ensures Readable(s.groups[i], s.args, columns) && ReadRow(s.groups[i], s.args, columns) == Proposed(batch[i], columns)
    {
      assert BindsRow(s, i, batch[i], columns, i * |columns|);
      ReadIsProposed(s.groups[i], s.args, columns, batch[i]);
    }
  }

  // ----- the sink -----

  /** The batches of a list of rows. */
  function Batches(rows: seq<Row>, size: nat): seq<seq<Row>>
    requires size >= 1
    decreases |rows|
  {
    if rows == [] then [] else if |rows| <= size then [rows] else [rows[..size]] + Batches(rows[size..], size)
  }

  function Flatten(batches: seq<seq<Row>>): seq<Row>
    decreases |batches|
  {
    if batches == [] then [] else batches[0] + Flatten(batches[1..])
  }

  /** The batches are the rows in order. */
  lemma {:induction false} BatchesTile(rows: seq<Row>, size: nat)
    requires size >= 1
    ensures Flatten(Batches(rows, size)) == rows
    decreases |rows|
  {
    if |rows| > size {
      BatchesTile(rows[size..], size);
      assert Batches(rows, size)[1..] == Batches(rows[size..], size);
      assert rows == rows[..size] + rows[size..];
    } else if rows != [] {
      assert Batches(rows, size)[1..] == [];
      assert rows + [] == rows;
    }
  }

  /** No batch is empty or too large, and all but the last are full. */
  lemma {:induction false} BatchSizes(rows: seq<Row>, size: nat, k: nat)
    requires size >= 1 && k < |Batches(rows, size)|
    ensures 1 <= |Batches(rows, size)[k]| <= size && (k + 1 < |Batches(rows, size)| ==> |Batches(rows, size)[k]| == size)
    decreases |rows|
  {
    if |rows| > size && k > 0 {
      BatchSizes(rows[size..], size, k - 1);
    }
  }

  /** Statement by statement, up to the first that fails; what was written before stays. */
  function RunAll(t: Table, batches: seq<seq<Row>>, conflict: seq<string>, nothing: bool): (Table, bool)
    decreases |batches|
  {
    if batches == [] then (t, true)
    else
      var first := Statement(t, batches[0], conflict, nothing);
      if first.None? then (t, false) else RunAll(first.value, batches[1..], conflict, nothing)
  }

  ghost predicate DistinctInEach(batches: seq<seq<Row>>, conflict: seq<string>) {
    forall k :: 0 <= k < |batches| ==> KeysDistinct(batches[k], conflict)
  }

  lemma {:induction false} RowByRowConcat(t: Table, a: seq<Row>, b: seq<Row>, conflict: seq<string>)
    ensures RowByRow(t, a + b, conflict) == RowByRow(RowByRow(t, a, conflict), b, conflict)
  {
    hide Upsert;
    if b == [] {
      assert a + b == a;
    } else {
      var n := |b| - 1;
      assert (a + b)[..|a + b| - 1] == a + b[..n];
      RowByRowConcat(t, a, b[..n], conflict);
    }
  }

  /**
    The batched write succeeds exactly when no statement would update a row twice, and then it
    leaves the table as upserting row by row would.
   */
  lemma {:induction false} BatchedIsRowByRow(t: Table, batches: seq<seq<Row>>, conflict: seq<string>, nothing: bool)
    requires nothing ==> KeyOnly(Flatten(batches), conflict)
    ensures RunAll(t, batches, conflict, nothing).1 <==> nothing || DistinctInEach(batches, conflict)
    ensures RunAll(t, batches, conflict, nothing).1 ==> RunAll(t, batches, conflict, nothing).0 == RowByRow(t, Flatten(batches), conflict)
    decreases |batches|
  {
    hide Statement, KeysDistinct, RowByRow;
    if batches == [] {
      assert RowByRow(t, [], conflict) == t by { NoRows(t, conflict); }
    } else {
      var rest := batches[1..];
      if nothing {
        KeyOnlyParts(batches[0], Flatten(rest), conflict);
      }
      StatementIsRowByRow(t, batches[0], conflict, nothing);
      DistinctParts(batches, conflict);
      var first := Statement(t, batches[0], conflict, nothing);
      if first.Some? {
        BatchedIsRowByRow(first.value, rest, conflict, nothing);
        RowByRowConcat(t, batches[0], Flatten(rest), conflict);
      }
    }
  }

  lemma NoRows(t: Table, conflict: seq<string>)
    ensures RowByRow(t, [], conflict) == t
  {
  }

  lemma KeyOnlyParts(a: seq<Row>, b: seq<Row>, conflict: seq<string>)
    requires KeyOnly(a + b, conflict)
    ensures KeyOnly(a, conflict) && KeyOnly(b, conflict)
  {
    assert forall r :: r in a ==> r in a + b;
    assert forall r :: r in b ==> r in a + b;
  }

  lemma DistinctParts(batches: seq<seq<Row>>, conflict: seq<string>)
    requires batches != []
    ensures DistinctInEach(batches, conflict) <==> KeysDistinct(batches[0], conflict) && DistinctInEach(batches[1..], conflict)
  {
    hide KeysDistinct;
    var rest := batches[1..];
    forall k | DistinctInEach(batches, conflict) && 0 <= k < |rest| ensures KeysDistinct(rest[k], conflict) {
      assert rest[k] == batches[k + 1];
    }
    forall k | KeysDistinct(batches[0], conflict) && DistinctInEach(rest, conflict) && 0 <= k < |batches| ensures KeysDistinct(batches[k], conflict) {
      if k > 0 {
        assert rest[k - 1] == batches[k];
      }
    }
  }

  lemma {:induction false} BatchesOfProposed(rows: seq<Row>, columns: seq<string>, size: nat)
    requires size >= 1
    ensures |Batches(ProposedAll(rows, columns), size)| == |Batches(rows, size)|
    ensures forall k :: 0 <= k < |Batches(rows, size)| ==> Batches(ProposedAll(rows, columns), size)[k] == ProposedAll(Batches(rows, size)[k], columns)
    decreases |rows|
  {
    hide Proposed;
    if |rows| > size {
      assert ProposedAll(rows, columns)[..size] == ProposedAll(rows[..size], columns);
      assert ProposedAll(rows, columns)[size..] == ProposedAll(rows[size..], columns);
      BatchesOfProposed(rows[size..], columns, size);
    }
  }

  lemma {:induction false} RunAllNext(t: Table, batches: seq<seq<Row>>, k: nat, conflict: seq<string>, nothing: bool)
    requires k < |batches|
    decreases k
    ensures var before := RunAll(t, batches[..k], conflict, nothing);
            before.1 ==>
              var next := Statement(before.0, batches[k], conflict, nothing);
              && (next.Some? ==> RunAll(t, batches[..k + 1], conflict, nothing) == (next.value, true))
              && (next.None? ==> RunAll(t, batches, conflict, nothing) == (before.0, false))
  {
    hide Statement;
    if k == 0 {
      assert batches[..0] == [] && batches[..1] == [batches[0]] && batches[..1][1..] == [];
    } else {
      var first := Statement(t, batches[0], conflict, nothing);
      assert batches[..k][0] == batches[0] && batches[..k][1..] == batches[1..][..k - 1];
      assert batches[..k + 1][0] == batches[0] && batches[..k + 1][1..] == batches[1..][..k];
      if first.Some? {
        RunAllNext(first.value, batches[1..], k - 1, conflict, nothing);
      }
    }
  }

  class PostgresTable {
    var table: Table

    constructor (table: Table)
      ensures this.table == table
    {
      this.table := table;
    }

    /** The database executes one statement, reading its rows through the placeholders. */
    method Exec(s: Insert, columns: seq<string>, conflict: seq<string>, nothing: bool) returns (ok: bool)
      requires forall i :: 0 <= i < |s.groups| ==> Readable(s.groups[i], s.args, columns)
      modifies this
      ensures var after := Statement(old(table), ReadAll(s.groups, s.args, columns), conflict, nothing);
              ok == after.Some? && table == (if ok then after.value else old(table))
    {
      var after := Statement(table, ReadAll(s.groups, s.args, columns), conflict, nothing);
      if after.Some? {
        table := after.value;
      }
      return after.Some?;
    }

    /** Writes the batches in order; every statement binds its batch and stays within the parameter limit. */
    method WriteBatches(rows: seq<Row>, columns: seq<string>, size: nat, conflict: seq<string>, nothing: bool)
        returns (ok: bool, statements: seq<Insert>)
      requires size >= 1 && size * |columns| <= MAX_PARAMS
      modifies this
      ensures (table, ok) == RunAll(old(table), Batches(ProposedAll(rows, columns), size), conflict, nothing)
      ensures |statements| <= |Batches(rows, size)| && (ok ==> |statements| == |Batches(rows, size)|)
      ensures forall k :: 0 <= k < |statements| ==> BindsRows(statements[k], Batches(rows, size)[k], columns) && |statements[k].args| <= MAX_PARAMS
    {
      hide Statement, BindsRows, ReadRow, Proposed, RunAll, Batches, ReadAll, ProposedAll;
      ghost var batches, proposed := Batches(rows, size), Batches(ProposedAll(rows, columns), size);
      BatchesOfProposed(rows, columns, size);
      NothingRun(table, proposed, conflict, nothing);
      statements := [];
      var start := 0;
      BatchStart(rows, size);
      while start < |rows|
        invariant 0 <= start <= |rows| && |statements| <= |batches|
        invariant Batches(rows[start..], size) == batches[|statements|..]
        invariant (table, true) == RunAll(old(table), proposed[..|statements|], conflict, nothing)
        invariant forall k :: 0 <= k < |statements| ==> BindsRows(statements[k], batches[k], columns) && |statements[k].args| <= MAX_PARAMS
      {
        var end := start + size;
        if end > |rows| {
          end := |rows|;
        }
        var batch := rows[start..end];
        BatchAt(rows, size, start, |statements|);
        var s := BuildInsert(batch, columns);
        StatementSaysRows(s, batch, columns);
        ParamsFit(s, batch, columns, size);
        RunAllNext(old(table), proposed, |statements|, conflict, nothing);
        ok := Exec(s, columns, conflict, nothing);
        statements := statements + [s];
        if !ok {
          return;
        }
        start := end;
      }
      AllRun(rows, size, start, |statements|);
      assert proposed[..|statements|] == proposed;
      return true, statements;
    }

    /**
      The sink. It fails on rows without columns or with too many, and when an update statement
      would touch a key twice; otherwise the table ends as if the rows had been upserted one by one.
     */
    method Sink(rows: seq<Row>, conflict: seq<string>) returns (error: Option<SinkError>, columns: seq<string>)
      modifies this
      ensures rows == [] ==> error.None? && table == old(table)
      ensures rows != [] ==> forall c :: c in columns <==> exists i :: 0 <= i < |rows| && c in rows[i]
      ensures rows != [] ==> (error == Some(NoColumns) <==> columns == []) && (error == Some(TooManyColumns) <==> |columns| > MAX_PARAMS)
      ensures rows != [] && 1 <= |columns| <= MAX_PARAMS ==>
        (error.None? <==> (conflict != [] && forall c :: c in columns ==> c in conflict) || DistinctInEach(Batches(ProposedAll(rows, columns), BatchRows(|columns|).0), conflict))
      ensures rows != [] && error.None? ==> table == RowByRow(old(table), ProposedAll(rows, columns), conflict)
    {
      columns := [];
      if rows == [] {
        return None, columns;
      }
      columns := AllColumns(rows);
      hide Batches, ProposedAll, RunAll, RowByRow, DistinctInEach, KeyOnly, DoesNothing;
      var size, refused := BatchRows(|columns|).0, BatchRows(|columns|).1;
      if refused.Some? {
        ColumnErrors(|columns|);
        return refused, columns;
      }
      var nothing := OnlyNothing(columns, conflict);
      SinkIsRowByRow(table, rows, columns, size, conflict);
      var ok, statements := WriteBatches(rows, columns, size, conflict, nothing);
      return if ok then None else Some(DuplicateInStatement), columns;
    }
  }

  lemma ColumnErrors(n: nat)
    ensures BatchRows(n).1 == (if n == 0 then Some(NoColumns) else if n > MAX_PARAMS then Some(TooManyColumns) else None)
  {
  }

  predicate OnlyNothing(columns: seq<string>, conflict: seq<string>) {
    conflict != [] && DoesNothing(columns, conflict)
  }

  lemma SinkIsRowByRow(t: Table, rows: seq<Row>, columns: seq<string>, size: nat, conflict: seq<string>)
    requires size >= 1
    ensures var batches, nothing := Batches(ProposedAll(rows, columns), size), OnlyNothing(columns, conflict);
            var r := RunAll(t, batches, conflict, nothing);
            && (r.1 <==> nothing || DistinctInEach(batches, conflict))
            && (r.1 ==> r.0 == RowByRow(t, ProposedAll(rows, columns), conflict))
  {
    hide Batches, RunAll, RowByRow, DistinctInEach;
    var proposed := ProposedAll(rows, columns);
    BatchesTile(proposed, size);
    if OnlyNothing(columns, conflict) {
      ProposedKeyOnly(rows, columns, conflict);
    }
    BatchedIsRowByRow(t, Batches(proposed, size), conflict, OnlyNothing(columns, conflict));
  }

  lemma ProposedKeyOnly(rows: seq<Row>, columns: seq<string>, conflict: seq<string>)
    requires DoesNothing(columns, conflict)
    ensures KeyOnly(ProposedAll(rows, columns), conflict)
  {
    hide ProposedAll;
    forall r, c | r in ProposedAll(rows, columns) && c in r ensures c in conflict {
      var i :| 0 <= i < |rows| && ProposedAll(rows, columns)[i] == r;
      assert c in columns;
    }
  }

  lemma NothingRun(t: Table, batches: seq<seq<Row>>, conflict: seq<string>, nothing: bool)
    ensures RunAll(t, batches[..0], conflict, nothing) == (t, true)
  {
  }

  lemma BatchStart(rows: seq<Row>, size: nat)
    requires size >= 1
    ensures Batches(rows[0..], size) == Batches(rows, size)[0..]
  {
    assert rows[0..] == rows;
  }

  /** The loop's next batch is the next one of the list. */
  lemma BatchAt(rows: seq<Row>, size: nat, start: nat, n: nat)
    requires size >= 1 && start < |rows| && n <= |Batches(rows, size)| && Batches(rows[start..], size) == Batches(rows, size)[n..]
    ensures n < |Batches(rows, size)|
    ensures var end := if start + size > |rows| then |rows| else start + size;
            Batches(rows, size)[n] == rows[start..end] && |rows[start..end]| <= size && Batches(rows[end..], size) == Batches(rows, size)[n + 1..]
  {
    var end := if start + size > |rows| then |rows| else start + size;
    var left := rows[start..];
    assert left[..end - start] == rows[start..end] && left[end - start..] == rows[end..];
    assert Batches(rows, size)[n..][1..] == Batches(rows, size)[n + 1..];
    assert |left| <= size ==> left == rows[start..end];
  }

  lemma AllRun(rows: seq<Row>, size: nat, start: nat, n: nat)
    requires size >= 1 && start == |rows| && n <= |Batches(rows, size)| && Batches(rows[start..], size) == Batches(rows, size)[n..]
    ensures n == |Batches(rows, size)|
  {
    assert rows[start..] == [];
  }

  lemma ParamsFit(s: Insert, batch: seq<Row>, columns: seq<string>, size: nat)
    requires BindsRows(s, batch, columns) && |batch| <= size && size * |columns| <= MAX_PARAMS
    ensures |s.args| <= MAX_PARAMS
  {
    Fewer(|batch|, size, |columns|);
  }
}
