/**
  Dedupe across runs: the in-run handler `dedupeHandler` (transforms.go), `filterCrossRunDedupe`
  and `CommitDedupeKeys` (activities.go). A value carries the encoding of its key fields; the
  stored hash of an encoding stands for the encoding itself.
 */
module Dedupe {
  import opened Options

  datatype Value = Value(isObject: bool, key: string, data: string)

  function Keys(rows: seq<Value>): set<string> {
    set r | r in rows :: r.key
  }

  ghost predicate DistinctKeys(rows: seq<Value>) {
    forall i, j :: 0 <= i < j < |rows| ==> rows[i].key != rows[j].key
  }

  /** The rows whose key occurs for the first time and is not among those seen before. */
  function KeepFirst(rows: seq<Value>, seen: set<string>): seq<Value> {
    if rows == [] then []
    else
      var n := |rows| - 1;
      var before := KeepFirst(rows[..n], seen);
      if rows[n].key in seen + Keys(rows[..n]) then before else before + [rows[n]]
  }

  /** The last row with a key. */
  function LastWith(rows: seq<Value>, key: string): (r: Value)
    requires key in Keys(rows)
    ensures r in rows && r.key == key
  {
    var n := |rows| - 1;
    assert rows == rows[..n] + [rows[n]];
    if rows[n].key == key then rows[n] else LastWith(rows[..n], key)
  }

  lemma KeysAppend(rows: seq<Value>, r: Value)
    ensures Keys(rows + [r]) == Keys(rows) + {r.key}
  {
  }

  lemma KeysNext(rows: seq<Value>, i: nat)
    requires i < |rows|
    ensures Keys(rows[..i + 1]) == Keys(rows[..i]) + {rows[i].key} && rows[..i + 1][..i] == rows[..i]
  {
    assert rows[..i + 1] == rows[..i] + [rows[i]];
    KeysAppend(rows[..i], rows[i]);
  }

  /** The first row with a key. */
  function FirstWith(rows: seq<Value>, key: string): (r: Value)
    requires key in Keys(rows)
    ensures r in rows && r.key == key
  {
    var n := |rows| - 1;
    assert rows == rows[..n] + [rows[n]];
    if key in Keys(rows[..n]) then FirstWith(rows[..n], key) else rows[n]
  }

  lemma {:induction false} KeepFirstIsDistinct(rows: seq<Value>, seen: set<string>)
    ensures DistinctKeys(KeepFirst(rows, seen))
    ensures Keys(KeepFirst(rows, seen)) == Keys(rows) - seen
    ensures forall r :: r in KeepFirst(rows, seen) ==> r in rows
  {
    if rows != [] {
      var n := |rows| - 1;
      KeepFirstIsDistinct(rows[..n], seen);
      KeysNext(rows, n);
      assert rows[..n + 1] == rows;
      var before := KeepFirst(rows[..n], seen);
      KeysAppend(before, rows[n]);
      hide Keys;
      if rows[n].key !in seen + Keys(rows[..n]) {
        DistinctAppend(before, rows[n]);
      }
    }
  }

  lemma DistinctAppend(rows: seq<Value>, r: Value)
    requires DistinctKeys(rows) && r.key !in Keys(rows)
    ensures DistinctKeys(rows + [r])
  {
  }

  // ----- within a run -----

  /** The keys of the rows, each once, in order of first occurrence. */
  function KeyOrder(rows: seq<Value>): seq<string> {
    if rows == [] then []
    else
      var n := |rows| - 1;
      if rows[n].key in Keys(rows[..n]) then KeyOrder(rows[..n]) else KeyOrder(rows[..n]) + [rows[n].key]
  }

  lemma {:induction false} KeyOrderKeys(rows: seq<Value>)
    ensures forall k :: k in KeyOrder(rows) <==> k in Keys(rows)
  {
    if rows != [] {
      var n := |rows| - 1;
      KeysNext(rows, n);
      assert rows[..n + 1] == rows;
      KeyOrderKeys(rows[..n]);
    }
  }

  function Chosen(rows: seq<Value>, keepLast: bool, key: string): Value
    requires key in Keys(rows)
  {
    if keepLast then LastWith(rows, key) else FirstWith(rows, key)
  }

  ghost predicate ChosenRows(rows: seq<Value>, keepLast: bool, byKey: map<string, Value>) {
    byKey.Keys == Keys(rows) && forall k :: k in byKey ==> byKey[k] == Chosen(rows, keepLast, k)
  }

  lemma ChooseNext(rows: seq<Value>, i: nat, keepLast: bool, byKey: map<string, Value>)
    requires i < |rows| && ChosenRows(rows[..i], keepLast, byKey)
    ensures var r := rows[i];
            ChosenRows(rows[..i + 1], keepLast, if r.key in byKey && !keepLast then byKey else byKey[r.key := r])
  {
    KeysNext(rows, i);
    var more := rows[..i + 1];
    assert more[..i] == rows[..i] && more[i] == rows[i];
    hide Keys;
    forall k | k in Keys(more) ensures
      && (k in Keys(rows[..i]) ==> FirstWith(more, k) == FirstWith(rows[..i], k))
      && (k == rows[i].key ==> LastWith(more, k) == rows[i])
      && (k != rows[i].key ==> LastWith(more, k) == LastWith(rows[..i], k))
    {
    }
  }

  /** Each key once, in order of first occurrence, with the first or the last of its rows. */
  ghost predicate IsDeduped(rows: seq<Value>, keepLast: bool, out: seq<Value>) {
    && |out| == |KeyOrder(rows)|
    && forall i :: 0 <= i < |out| ==> KeyOrder(rows)[i] in Keys(rows) && out[i] == Chosen(rows, keepLast, KeyOrder(rows)[i])
  }

  /** Without key fields the handler passes the rows on as they are. */
  method DedupeRows(rows: seq<Value>, hasKeyFields: bool, keepLast: bool) returns (out: seq<Value>)
    ensures !hasKeyFields ==> out == rows
    ensures hasKeyFields ==> IsDeduped(rows, keepLast, out)
  {
    if !hasKeyFields {
      return rows;
    }
    hide Chosen, Keys, KeyOrder, ChosenRows;
    var byKey: map<string, Value> := map[];
    var order: seq<string> := [];
    StartChoosing(rows, keepLast);
    for i := 0 to |rows|
      invariant byKey.Keys == Keys(rows[..i]) && order == KeyOrder(rows[..i]) && ChosenRows(rows[..i], keepLast, byKey)
    {
      KeysNext(rows, i);
      OrderNext(rows, i);
      ChooseNext(rows, i, keepLast, byKey);
      var r := rows[i];
      if r.key !in byKey {
        order := order + [r.key];
      }
      if keepLast || r.key !in byKey {
        byKey := byKey[r.key := r];
      }
    }
    assert rows[..|rows|] == rows;
    out := [];
    KeyOrderKeys(rows);
    for i := 0 to |order|
      invariant |out| == i && forall k :: 0 <= k < i ==> order[k] in byKey && out[k] == byKey[order[k]]
    {
      out := out + [byKey[order[i]]];
    }
    DedupedFrom(rows, keepLast, byKey, out);
  }

  lemma StartChoosing(rows: seq<Value>, keepLast: bool)
    ensures Keys(rows[..0]) == {} && KeyOrder(rows[..0]) == [] && ChosenRows(rows[..0], keepLast, map[])
  {
  }

  lemma OrderNext(rows: seq<Value>, i: nat)
    requires i < |rows|
    ensures KeyOrder(rows[..i + 1]) == if rows[i].key in Keys(rows[..i]) then KeyOrder(rows[..i]) else KeyOrder(rows[..i]) + [rows[i].key]
  {
    assert rows[..i + 1][..i] == rows[..i];
  }

  lemma DedupedFrom(rows: seq<Value>, keepLast: bool, byKey: map<string, Value>, out: seq<Value>)
    requires ChosenRows(rows, keepLast, byKey) && |out| == |KeyOrder(rows)|
    requires forall k :: 0 <= k < |out| ==> KeyOrder(rows)[k] in byKey && out[k] == byKey[KeyOrder(rows)[k]]
    ensures IsDeduped(rows, keepLast, out)
  {
  }

  lemma {:induction false} KeyOrderOfKept(rows: seq<Value>)
    ensures |KeyOrder(rows)| == |KeepFirst(rows, {})|
    ensures forall i :: 0 <= i < |KeyOrder(rows)| ==>
      KeyOrder(rows)[i] in Keys(rows) && KeepFirst(rows, {})[i] == FirstWith(rows, KeyOrder(rows)[i])
  {
    if rows != [] {
      var n := |rows| - 1;
      KeyOrderOfKept(rows[..n]);
      KeysNext(rows, n);
      assert rows[..n + 1] == rows;
      hide Keys;
      assert {} + Keys(rows[..n]) == Keys(rows[..n]);
    }
  }

  /** Keeping first rows is plain keep-first dedupe, and leaves no key twice; so does keeping last ones. */
  lemma DedupedIsDistinct(rows: seq<Value>, keepLast: bool, out: seq<Value>)
    requires IsDeduped(rows, keepLast, out)
    ensures DistinctKeys(out) && Keys(out) == Keys(rows)
    ensures !keepLast ==> out == KeepFirst(rows, {})
  {
    KeyOrderOfKept(rows);
    KeepFirstIsDistinct(rows, {});
    var kept := KeepFirst(rows, {});
    forall i | 0 <= i < |out| ensures out[i].key == kept[i].key {
      assert KeyOrder(rows)[i] in Keys(rows);
    }
    SameKeys(out, kept);
  }

  lemma SameKeys(a: seq<Value>, b: seq<Value>)
    requires |a| == |b| && forall i :: 0 <= i < |a| ==> a[i].key == b[i].key
    ensures Keys(a) == Keys(b) && (DistinctKeys(b) ==> DistinctKeys(a))
  {
    forall k ensures k in Keys(a) <==> k in Keys(b) {
      if k in Keys(a) {
        var i :| 0 <= i < |a| && a[i].key == k;
        assert b[i] in b;
      }
      if k in Keys(b) {
        var i :| 0 <= i < |b| && b[i].key == k;
        assert a[i] in a;
      }
    }
  }

  // ----- across runs -----

  /** For every row with a key not stored yet, in order, the last row of the input with that key. */
  function Fresh(rows: seq<Value>, stored: set<string>, n: nat): seq<Value>
    requires n <= |rows|
  {
    if n == 0 then []
    else
      var r := rows[n - 1];
      assert r in rows;
      Fresh(rows, stored, n - 1) + if r.key in stored then [] else [LastWith(rows, r.key)]
  }

  ghost predicate AllObjects(rows: seq<Value>) {
    forall i :: 0 <= i < |rows| ==> rows[i].isObject
  }

  /** The hashes of the rows, and by hash the last row that has it. */
  method HashRows(rows: seq<Value>) returns (ok: bool, byHash: map<string, Value>)
    ensures ok <==> AllObjects(rows)
    ensures ok ==> byHash.Keys == Keys(rows) && forall k :: k in byHash ==> byHash[k] == LastWith(rows, k)
  {
    hide Keys;
    byHash := map[];
    StartChoosing(rows, true);
    for i := 0 to |rows|
      invariant AllObjects(rows[..i]) && ChosenRows(rows[..i], true, byHash)
    {
      if !rows[i].isObject {
        return false, byHash;
      }
      ChooseNext(rows, i, true, byHash);
      KeysNext(rows, i);
      byHash := byHash[rows[i].key := rows[i]];
    }
    assert rows[..|rows|] == rows;
    return true, byHash;
  }

  /** The filter: rows with stored keys are dropped; the keys of the others are to be stored if the run succeeds. */
  method FilterCrossRun(rows: seq<Value>, stored: set<string>) returns (r: Option<seq<Value>>, unseen: seq<string>)
    ensures r.None? <==> !AllObjects(rows)
    ensures r.Some? ==> r.value == Fresh(rows, stored, |rows|) && |unseen| == |r.value|
    ensures r.Some? ==> forall k :: 0 <= k < |unseen| ==> unseen[k] == r.value[k].key
  {
    var ok, byHash := HashRows(rows);
    if !ok {
      return None, [];
    }
    hide Keys;
    var filtered: seq<Value> := [];
    unseen := [];
    for i := 0 to |rows|
      invariant filtered == Fresh(rows, stored, i) && |unseen| == |filtered|
      invariant forall k :: 0 <= k < |unseen| ==> unseen[k] == filtered[k].key
    {
      var hash := rows[i].key;
      RowHasKey(rows, i);
      if hash !in stored {
        filtered := filtered + [byHash[hash]];
        unseen := unseen + [hash];
      }
    }
    return Some(filtered), unseen;
  }

  lemma RowHasKey(rows: seq<Value>, i: nat)
    requires i < |rows|
    ensures rows[i].key in Keys(rows)
  {
    assert rows[i] in rows;
  }

  lemma {:induction false} FreshKeys(rows: seq<Value>, stored: set<string>, n: nat)
    requires n <= |rows|
    ensures Keys(Fresh(rows, stored, n)) == Keys(rows[..n]) - stored
  {
    if n > 0 {
      FreshKeys(rows, stored, n - 1);
      KeysNext(rows, n - 1);
      RowHasKey(rows, n - 1);
      var before, last := Fresh(rows, stored, n - 1), LastWith(rows, rows[n - 1].key);
      KeysAppend(before, last);
      hide Keys;
      if rows[n - 1].key in stored {
        assert Fresh(rows, stored, n) == before;
      } else {
        assert Fresh(rows, stored, n) == before + [last];
      }
    }
  }

  ghost predicate AllFirstOrStored(rows: seq<Value>, stored: set<string>, n: nat)
    requires n <= |rows|
  {
    forall j :: 0 <= j < n ==> FirstOrStored(rows, stored, j)
  }

  lemma {:induction false} KeepFirstLonger(rows: seq<Value>, stored: set<string>, n: nat)
    requires n <= |rows|
    ensures |KeepFirst(rows[..n], stored)| <= |Fresh(rows, stored, n)|
    ensures |KeepFirst(rows[..n], stored)| == |Fresh(rows, stored, n)| <==> AllFirstOrStored(rows, stored, n)
  {
    hide Keys;
    if n > 0 {
      KeepFirstLonger(rows, stored, n - 1);
      KeysNext(rows, n - 1);
      assert AllFirstOrStored(rows, stored, n) <==> AllFirstOrStored(rows, stored, n - 1) && FirstOrStored(rows, stored, n - 1);
    }
  }

  predicate FirstOrStored(rows: seq<Value>, stored: set<string>, j: nat)
    requires j < |rows|
  {
    rows[j].key in stored || rows[j].key !in Keys(rows[..j])
  }

  /** No key that is not stored yet comes twice. */
  ghost predicate NoFreshRepeats(rows: seq<Value>, stored: set<string>) {
    forall i, j :: 0 <= i < j < |rows| && rows[i].key == rows[j].key ==> rows[j].key in stored
  }

  /** The filter is keep-first dedupe exactly on inputs that repeat no unseen key. */
  lemma FilterExact(rows: seq<Value>, stored: set<string>)
    ensures Fresh(rows, stored, |rows|) == KeepFirst(rows, stored) <==> NoFreshRepeats(rows, stored)
  {
    assert rows[..|rows|] == rows;
    KeepFirstLonger(rows, stored, |rows|);
    RepeatsAre(rows, stored);
    if NoFreshRepeats(rows, stored) {
      FreshIsKeepFirstUnless(rows, stored, |rows|);
    }
  }

  lemma RepeatsAre(rows: seq<Value>, stored: set<string>)
    ensures NoFreshRepeats(rows, stored) <==> AllFirstOrStored(rows, stored, |rows|)
  {
    if !NoFreshRepeats(rows, stored) {
      var i, j :| 0 <= i < j < |rows| && rows[i].key == rows[j].key && rows[j].key !in stored;
      assert rows[..j][i] in rows[..j];
      assert !FirstOrStored(rows, stored, j);
    }
    forall j | NoFreshRepeats(rows, stored) && 0 <= j < |rows| ensures FirstOrStored(rows, stored, j) {
      if rows[j].key in Keys(rows[..j]) {
        var i :| 0 <= i < j && rows[..j][i].key == rows[j].key;
      }
    }
  }

  lemma RowIsFirst(rows: seq<Value>, stored: set<string>, i: nat)
    requires NoFreshRepeats(rows, stored) && i < |rows|
    ensures FirstOrStored(rows, stored, i)
    ensures rows[i].key in Keys(rows) && (rows[i].key !in stored ==> LastWith(rows, rows[i].key) == rows[i])
  {
    hide Keys;
    RepeatsAre(rows, stored);
    RowHasKey(rows, i);
    if rows[i].key !in stored {
      OnlyFresh(rows, stored, i);
    }
  }

  lemma {:induction false} FreshIsKeepFirstUnless(rows: seq<Value>, stored: set<string>, n: nat)
    requires NoFreshRepeats(rows, stored) && n <= |rows|
    ensures Fresh(rows, stored, n) == KeepFirst(rows[..n], stored)
  {
    hide Keys, NoFreshRepeats, LastWith;
    if n > 0 {
      FreshIsKeepFirstUnless(rows, stored, n - 1);
      KeysNext(rows, n - 1);
      RowIsFirst(rows, stored, n - 1);
    }
  }

  lemma OnlyFresh(rows: seq<Value>, stored: set<string>, i: nat)
    requires NoFreshRepeats(rows, stored) && i < |rows| && rows[i].key !in stored
    ensures rows[i].key in Keys(rows) && LastWith(rows, rows[i].key) == rows[i]
  {
    RowHasKey(rows, i);
    var j :| 0 <= j < |rows| && rows[j] == LastWith(rows, rows[i].key);
  }

  lemma {:induction false} KeepFirstConcat(a: seq<Value>, b: seq<Value>, seen: set<string>)
    ensures KeepFirst(a + b, seen) == KeepFirst(a, seen) + KeepFirst(b, seen + Keys(a))
  {
    if b == [] {
      assert a + b == a;
    } else {
      var n := |b| - 1;
      assert (a + b)[..|a + b| - 1] == a + b[..n] && (a + b)[|a + b| - 1] == b[n];
      KeepFirstConcat(a, b[..n], seen);
      KeysConcat(a, b[..n]);
      hide Keys;
      assert seen + Keys(a + b[..n]) == seen + Keys(a) + Keys(b[..n]);
    }
  }

  lemma KeysConcat(a: seq<Value>, b: seq<Value>)
    ensures Keys(a + b) == Keys(a) + Keys(b)
  {
  }

  // ----- sequences of runs -----

  /**
    How an execution ends. Its keys are stored only after all nodes succeeded; it can still fail
    then, when the reply to storing them is lost or its end cannot be recorded.
   */
  datatype Ending = Completed | KeysStored | NothingStored
  datatype Run = Run(input: seq<Value>, ending: Ending)

  class DedupeKeys {
    var stored: set<string>

    /** Storing a key that is there already changes nothing. */
    method Commit(hashes: seq<string>)
      modifies this
      ensures stored == old(stored) + set h | h in hashes
    {
      for i := 0 to |hashes|
        invariant stored == old(stored) + set h | h in hashes[..i]
      {
        assert hashes[..i + 1] == hashes[..i] + [hashes[i]];
        stored := stored + {hashes[i]};
      }
      assert hashes[..|hashes|] == hashes;
    }

    /** One run: its output counts only when it completes. */
    method Execute(run: Run) returns (out: seq<Value>)
      modifies this
      ensures out == (if run.ending.Completed? && AllObjects(run.input) then Fresh(run.input, old(stored), |run.input|) else [])
      ensures stored == (if run.ending.NothingStored? || !AllObjects(run.input) then old(stored) else old(stored) + Keys(run.input))
    {
      var filtered, unseen := FilterCrossRun(run.input, stored);
      if filtered.None? || run.ending.NothingStored? {
        return [];
      }
      ghost var before := stored;
      Commit(unseen);
      FreshKeys(run.input, before, |run.input|);
      assert run.input[..|run.input|] == run.input;
      SetOfKeys(filtered.value, unseen);
      return if run.ending.Completed? then filtered.value else [];
    }
  }

  lemma SetOfKeys(rows: seq<Value>, keys: seq<string>)
    requires |rows| == |keys| && forall k :: 0 <= k < |keys| ==> keys[k] == rows[k].key
    ensures (set h | h in keys) == Keys(rows)
  {
    forall h ensures h in keys <==> h in Keys(rows) {
      if h in keys {
        var k :| 0 <= k < |keys| && keys[k] == h;
        assert rows[k] in rows;
      }
      if h in Keys(rows) {
        var k :| 0 <= k < |rows| && rows[k].key == h;
        assert keys[k] in keys;
      }
    }
  }

  /** The inputs of the completed runs, one after the other. */
  function Committed(runs: seq<Run>): seq<Value> {
    if runs == [] then []
    else
      var last := runs[|runs| - 1];
      Committed(runs[..|runs| - 1]) + if last.ending.Completed? then last.input else []
  }

  /** The inputs of the runs that stored their keys. */
  function Recorded(runs: seq<Run>): seq<Value> {
    if runs == [] then []
    else
      var last := runs[|runs| - 1];
      Recorded(runs[..|runs| - 1]) + if last.ending.NothingStored? then [] else last.input
  }

  /** What the completed runs put out. */
  function Outputs(runs: seq<Run>): seq<Value> {
    if runs == [] then []
    else
      var n := |runs| - 1;
      Outputs(runs[..n]) + if runs[n].ending.Completed? then KeepFirst(runs[n].input, Keys(Recorded(runs[..n]))) else []
  }

  /** No completed run gets a key that was stored before, but by failed runs only. */
  ghost predicate NoneSwallowed(runs: seq<Run>) {
    runs == [] ||
      var n := |runs| - 1;
      && NoneSwallowed(runs[..n])
      && (runs[n].ending.Completed? ==> Keys(runs[n].input) * Keys(Recorded(runs[..n])) <= Keys(Committed(runs[..n])))
  }

  /** Every input is an array of objects without repeated keys, as the in-run handler leaves it. */
  ghost predicate Clean(runs: seq<Run>) {
    forall i :: 0 <= i < |runs| ==> AllObjects(runs[i].input) && DistinctKeys(runs[i].input)
  }

  /**
    Over any sequence of runs, the outputs of the completed ones are keep-first dedupe of their
    inputs put together exactly when no failed run has stored a key that a completed one gets first;
    the stored keys are exactly those of all runs that stored theirs, and no key is put out twice.
   */
  method ExecuteAll(runs: seq<Run>) returns (outputs: seq<Value>, stored: set<string>)
    requires Clean(runs)
    ensures outputs == Outputs(runs) && DistinctKeys(outputs)
    ensures outputs == KeepFirst(Committed(runs), {}) <==> NoneSwallowed(runs)
    ensures stored == Keys(Recorded(runs))
  {
    hide Keys, KeepFirst, DistinctKeys, AllObjects;
    var keys := new DedupeKeys;
    keys.stored := {};
    outputs := [];
    NothingYet(runs);
    for i := 0 to |runs|
      invariant outputs == Outputs(runs[..i]) && keys.stored == Keys(Recorded(runs[..i]))
    {
      OneMoreRun(runs, i);
      var out := keys.Execute(runs[i]);
      outputs := outputs + out;
    }
    assert runs[..|runs|] == runs;
    stored := keys.stored;
    OutputsExact(runs);
    OutputsOnce(runs);
  }

  lemma NothingYet(runs: seq<Run>)
    ensures Outputs(runs[..0]) == [] && Keys(Recorded(runs[..0])) == {}
  {
  }

  lemma OneMoreRun(runs: seq<Run>, i: nat)
    requires i < |runs| && Clean(runs)
    ensures var input, before := runs[i].input, Keys(Recorded(runs[..i]));
            && AllObjects(input)
            && Keys(Recorded(runs[..i + 1])) == (if runs[i].ending.NothingStored? then before else before + Keys(input))
            && Outputs(runs[..i + 1]) == Outputs(runs[..i]) + if runs[i].ending.Completed? then Fresh(input, before, |input|) else []
  {
    assert runs[..i + 1][..i] == runs[..i];
    var input, before := runs[i].input, Keys(Recorded(runs[..i]));
    KeysConcat(Recorded(runs[..i]), input);
    assert Recorded(runs[..i]) + [] == Recorded(runs[..i]);
    assert NoFreshRepeats(input, before);
    FilterExact(input, before);
  }

  lemma {:induction false} KeepFirstLess(rows: seq<Value>, fewer: set<string>, more: set<string>)
    requires fewer <= more
    ensures |KeepFirst(rows, more)| <= |KeepFirst(rows, fewer)|
    ensures |KeepFirst(rows, more)| == |KeepFirst(rows, fewer)| <==> Keys(rows) * more <= fewer
    ensures Keys(rows) * more <= fewer ==> KeepFirst(rows, more) == KeepFirst(rows, fewer)
  {
    if rows != [] {
      var n := |rows| - 1;
      KeepFirstLess(rows[..n], fewer, more);
      KeysNext(rows, n);
      assert rows[..n + 1] == rows;
      hide Keys;
    }
  }

  lemma {:induction false} RecordedHasCommitted(runs: seq<Run>)
    ensures Keys(Committed(runs)) <= Keys(Recorded(runs))
  {
    if runs != [] {
      var n := |runs| - 1;
      RecordedHasCommitted(runs[..n]);
      KeysConcat(Committed(runs[..n]), runs[n].input);
      KeysConcat(Recorded(runs[..n]), runs[n].input);
      assert Committed(runs[..n]) + [] == Committed(runs[..n]);
    }
  }

  lemma {:induction false} OutputsExact(runs: seq<Run>)
    ensures |Outputs(runs)| <= |KeepFirst(Committed(runs), {})|
    ensures |Outputs(runs)| == |KeepFirst(Committed(runs), {})| <==> NoneSwallowed(runs)
    ensures NoneSwallowed(runs) ==> Outputs(runs) == KeepFirst(Committed(runs), {})
  {
    hide Keys, KeepFirst;
    if runs == [] {
      KeepFirstNothing();
    } else {
      var n := |runs| - 1;
      var a, input := Committed(runs[..n]), runs[n].input;
      OutputsExact(runs[..n]);
      if runs[n].ending.Completed? {
        KeepFirstConcat(a, input, {});
        assert {} + Keys(a) == Keys(a);
        RecordedHasCommitted(runs[..n]);
        KeepFirstLess(input, Keys(a), Keys(Recorded(runs[..n])));
      } else {
        assert a + [] == a;
      }
    }
  }

  lemma KeepFirstNothing()
    ensures KeepFirst([], {}) == []
  {
  }

  lemma DistinctConcat(a: seq<Value>, b: seq<Value>)
    requires DistinctKeys(a) && DistinctKeys(b) && Keys(a) * Keys(b) == {}
    ensures DistinctKeys(a + b)
  {
    forall i, j | 0 <= i < |a| && 0 <= j < |b| ensures a[i].key != b[j].key {
      RowHasKey(a, i);
      RowHasKey(b, j);
      assert a[i].key !in Keys(a) * Keys(b);
    }
  }

  lemma {:induction false} OutputsOnce(runs: seq<Run>)
    ensures DistinctKeys(Outputs(runs)) && Keys(Outputs(runs)) <= Keys(Recorded(runs))
  {
    if runs != [] {
      var n := |runs| - 1;
      OutputsOnce(runs[..n]);
      var before, last := Recorded(runs[..n]), runs[n].input;
      var kept := KeepFirst(last, Keys(before));
      KeysConcat(before, last);
      KeysConcat(Outputs(runs[..n]), kept);
      KeepFirstIsDistinct(last, Keys(before));
      hide Keys, KeepFirst, DistinctKeys;
      if runs[n].ending.Completed? {
        DistinctConcat(Outputs(runs[..n]), kept);
      } else {
        assert Outputs(runs[..n]) + [] == Outputs(runs[..n]) && before + [] == before;
      }
    }
  }

  /** A run that stores its key and then fails swallows the row: the next run puts nothing out. */
  lemma FailedRunSwallows(v: Value)
    ensures var runs := [Run([v], KeysStored), Run([v], Completed)];
            Outputs(runs) == [] && KeepFirst(Committed(runs), {}) == [v] && !NoneSwallowed(runs)
  {
    var runs := [Run([v], KeysStored), Run([v], Completed)];
    assert runs[..1] == [runs[0]] && runs[..1][..0] == [];
    OneRow(v);
    hide KeepFirst, Keys;
    assert Recorded(runs[..1]) == [v] && Outputs(runs[..1]) == [] && Committed(runs[..1]) == [];
    assert Committed(runs) == [] + [v];
    assert Outputs(runs) == [] + KeepFirst([v], Keys([v]));
    OutputsExact(runs);
  }

  lemma OneRow(v: Value)
    ensures KeepFirst([v], {}) == [v] && KeepFirst([v], Keys([v])) == []
  {
    assert [v][..0] == [];
    assert v in [v];
  }

  /** Without such runs nothing is swallowed. */
  lemma {:induction false} CleanEndings(runs: seq<Run>)
    requires forall i :: 0 <= i < |runs| ==> !runs[i].ending.KeysStored?
    ensures Recorded(runs) == Committed(runs) && NoneSwallowed(runs)
  {
    if runs != [] {
      CleanEndings(runs[..|runs| - 1]);
    }
  }

  lemma {:induction false} KeepFirstTwice(rows: seq<Value>, seen: set<string>)
    ensures KeepFirst(KeepFirst(rows, {}), seen) == KeepFirst(rows, seen)
  {
    if rows != [] {
      var n := |rows| - 1;
      KeepFirstTwice(rows[..n], seen);
      KeepFirstIsDistinct(rows[..n], {});
      hide Keys;
      var before := KeepFirst(rows[..n], {});
      assert (before + [rows[n]])[..|before|] == before;
      assert {} + Keys(rows[..n]) == Keys(rows[..n]) == Keys(rows[..n]) - {};
    }
  }

  /** The runs as the in-run handler, keeping first rows, passes their inputs on. */
  ghost predicate HandsOn(raw: seq<Run>, runs: seq<Run>) {
    |runs| == |raw| && forall i :: 0 <= i < |raw| ==> runs[i] == Run(KeepFirst(raw[i].input, {}), raw[i].ending)
  }

  lemma OneMoreInput(a: seq<Value>, b: seq<Value>, input: seq<Value>)
    requires Keys(a) == Keys(b) && KeepFirst(a, {}) == KeepFirst(b, {})
    ensures KeepFirst(b + KeepFirst(input, {}), {}) == KeepFirst(a + input, {})
    ensures Keys(b + KeepFirst(input, {})) == Keys(a + input)
  {
    hide Keys, KeepFirst, DistinctKeys;
    var once := KeepFirst(input, {});
    KeepFirstConcat(a, input, {});
    KeepFirstConcat(b, once, {});
    KeepFirstTwice(input, {} + Keys(a));
    KeepFirstIsDistinct(input, {});
    KeysConcat(a, input);
    KeysConcat(b, once);
  }

  /** The handler hands on the keys of its inputs, so it changes neither what is stored nor what is swallowed. */
  lemma {:induction false} SameKeysRecorded(raw: seq<Run>, runs: seq<Run>)
    requires HandsOn(raw, runs)
    ensures Keys(Recorded(runs)) == Keys(Recorded(raw)) && Keys(Committed(runs)) == Keys(Committed(raw))
    ensures NoneSwallowed(runs) <==> NoneSwallowed(raw)
  {
    hide Keys, KeepFirst;
    if raw != [] {
      var n := |raw| - 1;
      SameKeysRecorded(raw[..n], runs[..n]);
      var input, once := raw[n].input, runs[n].input;
      KeepFirstKeys(input);
      assert Keys(once) == Keys(input);
      KeysConcat(Recorded(raw[..n]), input);
      KeysConcat(Recorded(runs[..n]), once);
      KeysConcat(Committed(raw[..n]), input);
      KeysConcat(Committed(runs[..n]), once);
      NothingAppended(Recorded(raw[..n]), Recorded(runs[..n]));
      NothingAppended(Committed(raw[..n]), Committed(runs[..n]));
    }
  }

  lemma KeepFirstKeys(rows: seq<Value>)
    ensures Keys(KeepFirst(rows, {})) == Keys(rows)
  {
    KeepFirstIsDistinct(rows, {});
  }

  lemma NothingAppended(a: seq<Value>, b: seq<Value>)
    ensures a + [] == a && b + [] == b
  {
  }

  /** Handler and filter together dedupe the raw inputs of all completed runs, as if they were one input. */
  lemma {:induction false} NodeDedupesRawInputs(raw: seq<Run>, runs: seq<Run>)
    requires HandsOn(raw, runs)
    ensures KeepFirst(Committed(runs), {}) == KeepFirst(Committed(raw), {})
    ensures Outputs(runs) == KeepFirst(Committed(raw), {}) <==> NoneSwallowed(raw)
    ensures Keys(Recorded(runs)) == Keys(Recorded(raw))
  {
    hide Keys, KeepFirst;
    SameKeysRecorded(raw, runs);
    OutputsExact(runs);
    hide NoneSwallowed, Outputs;
    if raw == [] {
      assert runs == [];
    } else {
      var n := |raw| - 1;
      NodeDedupesRawInputs(raw[..n], runs[..n]);
      SameKeysRecorded(raw[..n], runs[..n]);
      var a, b := Committed(raw[..n]), Committed(runs[..n]);
      OneMoreInput(a, b, raw[n].input);
      NothingAppended(a, b);
    }
  }

  /**
    Without key fields the in-run handler does not dedupe and all rows share one key: the first
    run with rows puts out its last row as often as it has rows, later runs nothing.
   */
  lemma {:induction false} NoKeyFields(rows: seq<Value>, key: string, stored: set<string>, n: nat)
    requires rows != [] && n <= |rows| && forall i :: 0 <= i < |rows| ==> rows[i].key == key
    ensures key in stored ==> Fresh(rows, stored, n) == []
    ensures key !in stored ==> |Fresh(rows, stored, n)| == n
    ensures key !in stored ==> forall k :: 0 <= k < n ==> Fresh(rows, stored, n)[k] == rows[|rows| - 1]
  {
    if n > 0 {
      NoKeyFields(rows, key, stored, n - 1);
    }
  }
}
