/**
  Merging node inputs: the in-memory concatenation and the spilled one, `MergeRefs` and
  `streamConcatMerge` (activities.go). A record is given by its encoding.
 */
module SpillMerge {
  import opened Options
  import opened Text

  /** What reading an input gives: an error, something that is no array, or the encoded records. */
  datatype Input = Unreadable | NotAnArray | Records(records: seq<string>)

  datatype Merge = Merged(bytes: string, count: nat) | TooLong | ReadFailed | InputNotAnArray | NeedsMemory | StrategyFailed

  /** `Custom` stands for the joins and for tagging with the source, which may fail. */
  datatype Strategy = Concatenate | Union | Custom(merge: seq<seq<string>> -> Option<seq<string>>)

  /** The encoding of an array. */
  function Encode(records: seq<string>): string {
    "[" + Join(records, ',') + "]"
  }

  function Concat(inputs: seq<Input>): seq<string> {
    if inputs == [] then []
    else
      var last := inputs[|inputs| - 1];
      Concat(inputs[..|inputs| - 1]) + if last.Records? then last.records else []
  }

  predicate AllArrays(inputs: seq<Input>) {
    forall i :: 0 <= i < |inputs| ==> inputs[i].Records?
  }

  /** How many inputs come before the first one that cannot be merged. */
  function Sound(inputs: seq<Input>): (n: nat)
    ensures n <= |inputs| && AllArrays(inputs[..n]) && (n < |inputs| ==> !inputs[n].Records?)
  {
    if inputs == [] || !inputs[0].Records? then 0
    else
      assert inputs == [inputs[0]] + inputs[1..];
      1 + Sound(inputs[1..])
  }

  predicate Within(limit: int, size: nat) {
    limit <= 0 || size <= limit
  }

  /** The spill writes ahead of the closing bracket, so an early overflow hides a later bad input. */
  function SpillResult(inputs: seq<Input>, limit: int): Merge {
    var n := Sound(inputs);
    var records := Concat(inputs[..n]);
    if n < |inputs| then
      if !Within(limit, |Encode(records)| - 1) then TooLong
      else if inputs[n].Unreadable? then ReadFailed else InputNotAnArray
    else if !Within(limit, |Encode(records)|) then TooLong
    else Merged(Encode(records), |records|)
  }

  /** One more record in an array that is still open. */
  lemma OpenArrayNext(done: seq<string>, record: string)
    ensures "[" + Join(done + [record], ',') == if done == [] then "[" + record else "[" + Join(done, ',') + "," + record
  {
    JoinAppend(done, record, ',');
    if done == [] {
      assert "[" + Join(done + [record], ',') == "[" + record;
    } else {
      assert "[" + (Join(done, ',') + [','] + record) == "[" + Join(done, ',') + "," + record;
    }
  }

  lemma EmptyJoin()
    ensures Join([], ',') == ""
  {
  }

  class Spill {
    const limit: int
    var bytes: string
    var written: nat

    constructor (limit: int)
      ensures this.limit == limit && bytes == "" && written == 0
    {
      this.limit := limit;
      bytes := "";
      written := 0;
    }

    /** The length is counted first; bytes that would pass the limit are not written. */
    method Write(b: string) returns (ok: bool)
      modifies this
      ensures written == old(written) + |b| && ok == Within(limit, written)
      ensures bytes == if ok then old(bytes) + b else old(bytes)
    {
      written := written + |b|;
      if limit > 0 && written > limit {
        return false;
      }
      bytes := bytes + b;
      return true;
    }

    /** The file so far: an open array of the given records, within the limit. */
    ghost predicate Holds(records: seq<string>)
      reads this
    {
      bytes == "[" + Join(records, ',') && written == |bytes| && Within(limit, written)
    }

    /** One record, after a comma except at the very start. */
    method WriteRecord(ghost done: seq<string>, count: nat, record: string) returns (ok: bool)
      requires Holds(done) && count == |done|
      modifies this
      ensures ok ==> Holds(done + [record])
      ensures !ok ==> !Within(limit, 1 + |Join(done + [record], ',')|)
    {
      OpenArrayNext(done, record);
      EmptyJoin();
      hide Join;
      ghost var open := "[" + Join(done + [record], ',');
      assert |open| == 1 + |Join(done + [record], ',')|;
      if count > 0 {
        assert open == bytes + "," + record;
        ok := Write(",");
        if !ok {
          return;
        }
      } else {
        assert done == [] && bytes == "[" && open == bytes + record;
      }
      ok := Write(record);
      assert ok ==> bytes == open;
    }

    /** The records of one input. */
    method WriteRecords(ghost before: seq<string>, count: nat, records: seq<string>) returns (ok: bool)
      requires Holds(before) && count == |before|
      modifies this
      ensures ok ==> Holds(before + records)
      ensures !ok ==> !Within(limit, 1 + |Join(before + records, ',')|)
    {
      hide Join, Holds;
      assert before + records[..0] == before;
      for i := 0 to |records|
        invariant Holds(before + records[..i])
      {
        assert before + records[..i + 1] == (before + records[..i]) + [records[i]];
        JoinGrows(before, records, i + 1);
        ok := WriteRecord(before + records[..i], count + i, records[i]);
        if !ok {
          return;
        }
      }
      assert before + records[..|records|] == before + records;
      return true;
    }
  }

  lemma {:induction false} JoinGrows(before: seq<string>, records: seq<string>, i: nat)
    requires i <= |records|
    ensures |Join(before + records[..i], ',')| <= |Join(before + records, ',')|
    decreases |records| - i
  {
    if i < |records| {
      assert before + records[..i + 1] == (before + records[..i]) + [records[i]];
      JoinAppend(before + records[..i], records[i], ',');
      JoinGrows(before, records, i + 1);
    } else {
      assert records[..i] == records;
    }
  }

  lemma ConcatNext(inputs: seq<Input>, i: nat)
    requires i < |inputs|
    ensures inputs[i].Records? ==> Concat(inputs[..i + 1]) == Concat(inputs[..i]) + inputs[i].records
  {
    assert inputs[..i + 1][..i] == inputs[..i];
  }

  lemma {:induction false} SoundIs(inputs: seq<Input>, n: nat)
    requires n <= |inputs| && AllArrays(inputs[..n]) && (n < |inputs| ==> !inputs[n].Records?)
    ensures Sound(inputs) == n
  {
    var m := Sound(inputs);
    assert forall k :: 0 <= k < n ==> inputs[..n][k] == inputs[k];
    assert forall k :: 0 <= k < m ==> inputs[..m][k] == inputs[k];
  }

  /** Passing the limit on some inputs, the merge of more of them passes it too. */
  lemma {:induction false} TooLongStays(inputs: seq<Input>, limit: int, i: nat, n: nat)
    requires i <= n <= |inputs| && AllArrays(inputs[..n])
    requires !Within(limit, 1 + |Join(Concat(inputs[..i]), ',')|)
    ensures !Within(limit, 1 + |Join(Concat(inputs[..n]), ',')|)
    decreases n - i
  {
    hide Join;
    if i < n {
      assert inputs[..n][i] == inputs[i];
      ConcatNext(inputs, i);
      JoinGrows(Concat(inputs[..i]), inputs[i].records, 0);
      assert inputs[i].records[..0] == [] && Concat(inputs[..i]) + [] == Concat(inputs[..i]);
      TooLongStays(inputs, limit, i + 1, n);
    }
  }

  lemma OverflowResult(inputs: seq<Input>, limit: int, i: nat)
    requires i <= |inputs| && AllArrays(inputs[..i]) && !Within(limit, 1 + |Join(Concat(inputs[..i]), ',')|)
    ensures SpillResult(inputs, limit) == TooLong
  {
    hide Join;
    var n := Sound(inputs);
    assert forall k :: 0 <= k < i ==> inputs[..i][k] == inputs[k];
    assert n >= i;
    TooLongStays(inputs, limit, i, n);
    assert |Encode(Concat(inputs[..n]))| == 2 + |Join(Concat(inputs[..n]), ',')|;
    assert inputs[..|inputs|] == inputs;
  }

  /** Input by input, record by record, through the spill file. */
  method StreamConcatMerge(inputs: seq<Input>, limit: int) returns (r: Merge)
    ensures r == SpillResult(inputs, limit)
  {
    hide Join, SpillResult, Concat;
    var spill := new Spill(limit);
    var ok := spill.Write("[");  // one byte never passes a limit
    assert ok;
    StartResult(inputs);
    var count := 0;
    for i := 0 to |inputs|
      invariant AllArrays(inputs[..i]) && spill.limit == limit
      invariant spill.Holds(Concat(inputs[..i])) && count == |Concat(inputs[..i])|
    {
      if !inputs[i].Records? {
        BadInputResult(inputs, limit, i);
        return if inputs[i].Unreadable? then ReadFailed else InputNotAnArray;
      }
      ConcatNext(inputs, i);
      assert inputs[..i + 1] == inputs[..i] + [inputs[i]];
      ok := spill.WriteRecords(Concat(inputs[..i]), count, inputs[i].records);
      if !ok {
        OverflowResult(inputs, limit, i + 1);
        return TooLong;
      }
      count := count + |inputs[i].records|;
    }
    assert inputs[..|inputs|] == inputs;
    ok := spill.Write("]");
    CompleteResult(inputs, limit);
    if !ok {
      return TooLong;
    }
    return Merged(spill.bytes, count);
  }

  lemma StartResult(inputs: seq<Input>)
    ensures Concat(inputs[..0]) == [] && "[" + Join([], ',') == "["
  {
  }

  lemma BadInputResult(inputs: seq<Input>, limit: int, i: nat)
    requires i < |inputs| && AllArrays(inputs[..i]) && !inputs[i].Records?
    requires Within(limit, 1 + |Join(Concat(inputs[..i]), ',')|)
    ensures SpillResult(inputs, limit) == if inputs[i].Unreadable? then ReadFailed else InputNotAnArray
  {
    hide Join;
    SoundIs(inputs, i);
    assert |Encode(Concat(inputs[..i]))| == 2 + |Join(Concat(inputs[..i]), ',')|;
  }

  lemma CompleteResult(inputs: seq<Input>, limit: int)
    requires AllArrays(inputs)
    ensures SpillResult(inputs, limit) ==
      if Within(limit, |"[" + Join(Concat(inputs), ',') + "]"|) then Merged("[" + Join(Concat(inputs), ',') + "]", |Concat(inputs)|) else TooLong
  {
    hide Join;
    assert inputs[..|inputs|] == inputs;
    SoundIs(inputs, |inputs|);
  }

  function Arrays(inputs: seq<Input>): seq<seq<string>> {
    if inputs == [] then []
    else
      var last := inputs[|inputs| - 1];
      Arrays(inputs[..|inputs| - 1]) + [if last.Records? then last.records else []]
  }

  function Flat(arrays: seq<seq<string>>): seq<string> {
    if arrays == [] then [] else Flat(arrays[..|arrays| - 1]) + arrays[|arrays| - 1]
  }

  /** Every record where it occurs first; records are the same when their encodings are. */
  function FirstOnes(records: seq<string>): seq<string> {
    if records == [] then []
    else
      var n := |records| - 1;
      FirstOnes(records[..n]) + if records[n] in records[..n] then [] else [records[n]]
  }

  function MergedRecords(arrays: seq<seq<string>>, strategy: Strategy): Option<seq<string>> {
    match strategy
    case Concatenate => Some(Flat(arrays))
    case Union => Some(FirstOnes(Flat(arrays)))
    case Custom(merge) => merge(arrays)
  }

  function InMemory(inputs: seq<Input>, strategy: Strategy): Merge {
    var n := Sound(inputs);
    if n < |inputs| then if inputs[n].Unreadable? then ReadFailed else InputNotAnArray
    else
      var merged := MergedRecords(Arrays(inputs), strategy);
      if merged.None? then StrategyFailed else Merged(Encode(merged.value), |merged.value|)
  }

  lemma {:induction false} FlatArrays(inputs: seq<Input>)
    ensures Flat(Arrays(inputs)) == Concat(inputs)
  {
    if inputs != [] {
      var n := |inputs| - 1;
      FlatArrays(inputs[..n]);
      assert Arrays(inputs)[..|Arrays(inputs)| - 1] == Arrays(inputs[..n]);
    }
  }

  /** Concatenation keeps the records of each input together and in order. */
  lemma {:induction false} FlatJoin(a: seq<seq<string>>, b: seq<seq<string>>)
    ensures Flat(a + b) == Flat(a) + Flat(b) && forall records :: Flat([records]) == records
  {
    forall records: seq<string> ensures Flat([records]) == records {
      assert [records][..0] == [];
    }
    if b == [] {
      assert a + b == a;
    } else {
      var n := |b| - 1;
      assert (a + b)[..|a + b| - 1] == a + b[..n];
      FlatJoin(a, b[..n]);
    }
  }

  /** A union has exactly the records of its inputs, each once. */
  lemma {:induction false} FirstOnesAreASet(records: seq<string>)
    ensures forall x :: x in FirstOnes(records) <==> x in records
    ensures forall i, j :: 0 <= i < j < |FirstOnes(records)| ==> FirstOnes(records)[i] != FirstOnes(records)[j]
    ensures forall n :: 0 <= n <= |records| ==> FirstOnes(records[..n]) <= FirstOnes(records)
  {
    assert records[..|records|] == records;
    if records != [] {
      var n := |records| - 1;
      forall k | 0 <= k <= n ensures records[..n][..k] == records[..k] {
      }
      FirstOnesAreASet(records[..n]);
      assert records == records[..n] + [records[n]];
    }
  }

  lemma FirstOnesAppend(records: seq<string>, x: string)
    ensures FirstOnes(records + [x]) == FirstOnes(records) + if x in records then [] else [x]
  {
    assert (records + [x])[..|records|] == records;
  }

  lemma FlatNext(arrays: seq<seq<string>>, i: nat)
    requires i < |arrays|
    ensures Flat(arrays[..i + 1]) == Flat(arrays[..i]) + arrays[i]
  {
    assert arrays[..i + 1][..i] == arrays[..i];
  }

  /** The rows of the union, looked up by their encoding. */
  method UnionOf(arrays: seq<seq<string>>) returns (out: seq<string>)
    ensures out == FirstOnes(Flat(arrays))
  {
    hide Flat, FirstOnes;
    var seen: set<string> := {};
    out := [];
    ghost var done: seq<string> := [];
    NothingMerged(arrays);
    for i := 0 to |arrays|
      invariant done == Flat(arrays[..i]) && out == FirstOnes(done) && forall x :: x in seen <==> x in done
    {
      FlatNext(arrays, i);
      var rows := arrays[i];
      ghost var before := done;
      for j := 0 to |rows|
        invariant done == before + rows[..j] && out == FirstOnes(done) && forall x :: x in seen <==> x in done
      {
        FirstOnesAppend(done, rows[j]);
        if rows[j] !in seen {
          seen := seen + {rows[j]};
          out := out + [rows[j]];
        }
        done := done + [rows[j]];
      }
      assert rows[..|rows|] == rows;
    }
    assert arrays[..|arrays|] == arrays;
  }

  lemma NothingMerged(arrays: seq<seq<string>>)
    ensures Flat(arrays[..0]) == [] && FirstOnes([]) == []
  {
  }

  method MergeArrays(arrays: seq<seq<string>>, strategy: Strategy) returns (merged: Option<seq<string>>)
    ensures merged == MergedRecords(arrays, strategy)
  {
    match strategy
    case Concatenate =>
      hide Flat;
      var out: seq<string> := [];
      NothingMerged(arrays);
      for i := 0 to |arrays|
        invariant out == Flat(arrays[..i])
      {
        FlatNext(arrays, i);
        out := out + arrays[i];
      }
      assert arrays[..|arrays|] == arrays;
      merged := Some(out);
    case Union =>
      var out := UnionOf(arrays);
      merged := Some(out);
    case Custom(merge) =>
      merged := merge(arrays);
  }

  /** The in-memory path keeps all arrays, merges them and encodes the result. */
  method MergeInMemory(inputs: seq<Input>, strategy: Strategy) returns (r: Merge)
    ensures r == InMemory(inputs, strategy)
  {
    hide Encode, MergedRecords;
    var arrays: seq<seq<string>> := [];
    assert Arrays(inputs[..0]) == [];
    for i := 0 to |inputs|
      invariant AllArrays(inputs[..i]) && arrays == Arrays(inputs[..i])
    {
      if !inputs[i].Records? {
        SoundIs(inputs, i);
        return if inputs[i].Unreadable? then ReadFailed else InputNotAnArray;
      }
      assert inputs[..i + 1][..i] == inputs[..i];
      assert inputs[..i + 1] == inputs[..i] + [inputs[i]];
      arrays := arrays + [inputs[i].records];
    }
    assert inputs[..|inputs|] == inputs;
    SoundIs(inputs, |inputs|);
    var merged := MergeArrays(arrays, strategy);
    return if merged.None? then StrategyFailed else Merged(Encode(merged.value), |merged.value|);
  }

  function TotalSize(sizes: seq<nat>): nat {
    if sizes == [] then 0 else TotalSize(sizes[..|sizes| - 1]) + sizes[|sizes| - 1]
  }

  predicate Oversized(sizes: seq<nat>, limit: int) {
    limit > 0 && TotalSize(sizes) > limit
  }

  /** Inputs above the limit are spilled when they are concatenated, and refused for any other strategy. */
  method MergeRefs(inputs: seq<Input>, sizes: seq<nat>, strategy: Strategy, limit: int) returns (r: Merge)
    requires |inputs| == |sizes|
    ensures limit <= 0 || TotalSize(sizes) <= limit ==> r == InMemory(inputs, strategy)
    ensures limit > 0 && TotalSize(sizes) > limit ==> r == if strategy.Concatenate? then SpillResult(inputs, limit) else NeedsMemory
  {
    var totalBytes := 0;
    for i := 0 to |sizes|
      invariant totalBytes == TotalSize(sizes[..i])
    {
      assert sizes[..i + 1][..i] == sizes[..i];
      totalBytes := totalBytes + sizes[i];
    }
    assert sizes[..|sizes|] == sizes;
    var oversized := limit > 0 && totalBytes > limit;
    if oversized && !strategy.Concatenate? {
      return NeedsMemory;
    }
    if oversized {
      r := StreamConcatMerge(inputs, limit);
    } else {
      r := MergeInMemory(inputs, strategy);
    }
  }

  // ----- the spill against memory -----

  /** Where the spill succeeds it produces what the in-memory path would, and only the limit sets them apart. */
  lemma SpillRefinesMemory(inputs: seq<Input>, limit: int)
    ensures SpillResult(inputs, limit).Merged? ==> SpillResult(inputs, limit) == InMemory(inputs, Concatenate)
    ensures AllArrays(inputs) ==>
      (SpillResult(inputs, limit) == TooLong <==> limit > 0 && |InMemory(inputs, Concatenate).bytes| > limit)
    ensures limit <= 0 ==> SpillResult(inputs, limit) == InMemory(inputs, Concatenate)
  {
    assert inputs[..|inputs|] == inputs;
    FlatArrays(inputs);
    if AllArrays(inputs) {
      SoundIs(inputs, |inputs|);
    }
  }

  /** The sizes declared for the inputs are those of their encodings. */
  ghost predicate ExactSizes(inputs: seq<Input>, sizes: seq<nat>) {
    |inputs| == |sizes| && forall i :: 0 <= i < |inputs| ==> inputs[i].Records? && sizes[i] == |Encode(inputs[i].records)|
  }

  function NonEmpty(inputs: seq<Input>): nat {
    if inputs == [] then 0
    else
      var last := inputs[|inputs| - 1];
      NonEmpty(inputs[..|inputs| - 1]) + if last.Records? && last.records != [] then 1 else 0
  }

  function Bodies(records: seq<string>): nat {
    if records == [] then 0 else Bodies(records[..|records| - 1]) + |records[|records| - 1]|
  }

  lemma {:induction false} JoinLength(records: seq<string>)
    ensures |Join(records, ',')| == Bodies(records) + if records == [] then 0 else |records| - 1
  {
    if records != [] {
      var n := |records| - 1;
      JoinLength(records[..n]);
      JoinAppend(records[..n], records[n], ',');
      assert records == records[..n] + [records[n]];
      hide Join;
    }
  }

  lemma {:induction false} BodiesConcat(a: seq<string>, b: seq<string>)
    ensures Bodies(a + b) == Bodies(a) + Bodies(b)
  {
    if b == [] {
      assert a + b == a;
    } else {
      var n := |b| - 1;
      assert (a + b)[..|a + b| - 1] == a + b[..n];
      BodiesConcat(a, b[..n]);
    }
  }

  lemma {:induction false} SizesAdd(inputs: seq<Input>, sizes: seq<nat>)
    requires ExactSizes(inputs, sizes)
    ensures TotalSize(sizes) == 2 * |inputs| + Bodies(Concat(inputs)) + |Concat(inputs)| - NonEmpty(inputs)
    ensures NonEmpty(inputs) == 0 <==> Concat(inputs) == []
  {
    hide Join;
    if inputs != [] {
      var n := |inputs| - 1;
      SizesAdd(inputs[..n], sizes[..n]);
      JoinLength(inputs[n].records);
      BodiesConcat(Concat(inputs[..n]), inputs[n].records);
      hide Bodies;
    }
  }

  /**
    With exact sizes, k inputs and m of them not empty, an oversized concatenation succeeds exactly
    when the declared total exceeds the limit by at most 2k - 1 - m bytes (2k - 2 if all are empty).
   */
  lemma SpillSlack(inputs: seq<Input>, sizes: seq<nat>, limit: int)
    requires ExactSizes(inputs, sizes) && Oversized(sizes, limit)
    ensures var m := NonEmpty(inputs);
            SpillResult(inputs, limit).Merged? <==>
              TotalSize(sizes) - limit <= 2 * |inputs| - (if m == 0 then 2 else 1 + m)
  {
    hide Join;
    SizesAdd(inputs, sizes);
    JoinLength(Concat(inputs));
    assert AllArrays(inputs);
    CompleteResult(inputs, limit);
  }
}
