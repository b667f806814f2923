/**
  The life of pipeline versions: create, activate and promote, with the test-run and data-contract
  gates of promotion (routes_pipelines.go). A row's id is its position in the table; every
  transaction is one atomic step.
 */
module Lifecycle {
  import opened Options

  // ----- data contracts -----

  /** Field specifications by field name, and the contracts of a definition by sink. */
  type Fields = map<string, string>
  type Contracts = map<string, Fields>

  /** One optional marker is not part of the type. */
  function TrimOptional(spec: string): string {
    if spec != "" && spec[|spec| - 1] == '?' then spec[..|spec| - 1] else spec
  }

  lemma TrimsOne(t: string)
    ensures TrimOptional(t + "?") == t && (t == "" || t[|t| - 1] != '?' ==> TrimOptional(t) == t)
  {
  }

  datatype Break =
    | ContractRemoved(sink: string)
    | FieldRemoved(field: string, sink: string)
    | TypeChanged(field: string, was: string, now: string, sink: string)

  /** Every sink keeps its contract, and every field stays with its type. */
  ghost predicate Satisfies(now: Contracts, was: Contracts) {
    forall sink :: sink in was ==> sink in now && KeepsFields(now[sink], was[sink])
  }

  ghost predicate KeepsFields(now: Fields, was: Fields) {
    forall f :: f in was ==> f in now && TrimOptional(now[f]) == TrimOptional(was[f])
  }

  lemma SatisfiesSelf(c: Contracts)
    ensures Satisfies(c, c)
  {
  }

  lemma SatisfiesChain(a: Contracts, b: Contracts, c: Contracts)
    requires Satisfies(b, a) && Satisfies(c, b)
    ensures Satisfies(c, a)
  {
    forall sink | sink in a ensures sink in c && KeepsFields(c[sink], a[sink]) {
      assert KeepsFields(b[sink], a[sink]) && KeepsFields(c[sink], b[sink]);
    }
  }

  /** The breaks one sink contributes. */
  ghost predicate BreaksFields(now: Fields, was: Fields, sink: string, b: Break) {
    match b
    case ContractRemoved(_) => false
    case FieldRemoved(f, s) => s == sink && f in was && f !in now
    case TypeChanged(f, t, u, s) =>
      s == sink && f in was && f in now && t == TrimOptional(was[f]) && u == TrimOptional(now[f]) && t != u
  }

  ghost predicate IsBreak(now: Contracts, was: Contracts, b: Break) {
    b.sink in was && if b.sink in now then BreaksFields(now[b.sink], was[b.sink], b.sink, b) else b.ContractRemoved?
  }

  lemma NoFieldBreaks(now: Fields, was: Fields, sink: string)
    ensures KeepsFields(now, was) <==> forall b :: !BreaksFields(now, was, sink, b)
  {
    if !KeepsFields(now, was) {
      var f :| f in was && !(f in now && TrimOptional(now[f]) == TrimOptional(was[f]));
      if f in now {
        assert BreaksFields(now, was, sink, TypeChanged(f, TrimOptional(was[f]), TrimOptional(now[f]), sink));
      } else {
        assert BreaksFields(now, was, sink, FieldRemoved(f, sink));
      }
    }
  }

  /** There is nothing to report exactly when the new contracts satisfy the old ones. */
  lemma NoBreaks(now: Contracts, was: Contracts)
    ensures Satisfies(now, was) <==> forall b :: !IsBreak(now, was, b)
  {
    if Satisfies(now, was) {
      forall b ensures !IsBreak(now, was, b) {
        if b.sink in was {
          NoFieldBreaks(now[b.sink], was[b.sink], b.sink);
        }
      }
    } else {
      var sink :| sink in was && !(sink in now && KeepsFields(now[sink], was[sink]));
      if sink in now {
        NoFieldBreaks(now[sink], was[sink], sink);
        var b :| BreaksFields(now[sink], was[sink], sink, b);
        assert IsBreak(now, was, b);
      } else {
        assert IsBreak(now, was, ContractRemoved(sink));
      }
    }
  }

  method CompareFields(now: Fields, was: Fields, sink: string) returns (breaks: seq<Break>)
    ensures forall b :: b in breaks <==> BreaksFields(now, was, sink, b)
  {
    breaks := [];
    var removed := was.Keys;
    while removed != {}
      invariant removed <= was.Keys
      invariant forall b :: b in breaks <==> b.FieldRemoved? && b.field !in removed && BreaksFields(now, was, sink, b)
    {
      var f :| f in removed;
      if f !in now {
        breaks := breaks + [FieldRemoved(f, sink)];
      }
      removed := removed - {f};
    }
    var changed := was.Keys;
    while changed != {}
      invariant changed <= was.Keys
      invariant forall b :: b in breaks <==> BreaksFields(now, was, sink, b) && (b.FieldRemoved? || b.field !in changed)
    {
      var f :| f in changed;
      if f in now {
        var t, u := TrimOptional(was[f]), TrimOptional(now[f]);
        if t != u {
          breaks := breaks + [TypeChanged(f, t, u, sink)];
        }
      }
      changed := changed - {f};
    }
  }

  /** The report lists exactly the breaks, in whatever order the maps are walked. */
  method CompareContracts(was: Contracts, now: Contracts) returns (breaks: seq<Break>)
    ensures forall b :: b in breaks <==> IsBreak(now, was, b)
    ensures breaks == [] <==> Satisfies(now, was)
  {
    breaks := [];
    var sinks := was.Keys;
    while sinks != {}
      invariant sinks <= was.Keys
      invariant forall b :: b in breaks <==> b.sink !in sinks && IsBreak(now, was, b)
    {
      var sink :| sink in sinks;
      var found: seq<Break>;
      if sink in now {
        found := CompareFields(now[sink], was[sink], sink);
      } else {
        found := [ContractRemoved(sink)];
      }
      breaks := breaks + found;
      sinks := sinks - {sink};
    }
    NoBreaks(now, was);
    assert breaks != [] ==> breaks[0] in breaks;
  }

  // ----- the tables -----

  datatype Environment = Test | Prod
  datatype Status = Draft | Active | Archived
  datatype Row = Row(key: string, version: nat, contracts: Contracts, status: Status, environment: Environment, promotedFrom: Option<nat>)
  datatype Execution = Execution(row: nat, environment: Environment, completed: bool)
  datatype Store = Store(rows: seq<Row>, executions: seq<Execution>)

  const EMPTY: Store := Store([], [])

  datatype Refusal = NotFound | NotATestVersion | NoTestRun | BreakingContract

  datatype Outcome = Done(id: nat) | Refused(why: Refusal)

  /** `coalesce(MAX(version), 0)` over one key. */
  function MaxVersion(rows: seq<Row>, key: string): (v: nat)
    ensures forall r :: r in rows && r.key == key ==> r.version <= v
    ensures v == 0 || exists r :: r in rows && r.key == key && r.version == v
  {
    if rows == [] then 0
    else
      var n := |rows| - 1;
      var v := MaxVersion(rows[..n], key);
      assert rows == rows[..n] + [rows[n]];
      if rows[n].key == key && rows[n].version > v then rows[n].version else v
  }

  predicate IsActive(r: Row, key: string, env: Environment) {
    r.key == key && r.environment == env && r.status == Active
  }

  /** The update that archives the active version of a key in an environment. */
  function Archive(rows: seq<Row>, key: string, env: Environment): (r: seq<Row>)
    ensures |r| == |rows|
    ensures forall i :: 0 <= i < |rows| ==> r[i] == if IsActive(rows[i], key, env) then rows[i].(status := Archived) else rows[i]
  {
    if rows == [] then []
    else
      var n := |rows| - 1;
      Archive(rows[..n], key, env) + [if IsActive(rows[n], key, env) then rows[n].(status := Archived) else rows[n]]
  }

  /** The production version that is live, if there is one. */
  function Live(rows: seq<Row>, key: string): (r: Option<nat>)
    ensures r.Some? ==> r.value < |rows| && IsActive(rows[r.value], key, Prod)
    ensures r.None? ==> forall i :: 0 <= i < |rows| ==> !IsActive(rows[i], key, Prod)
  {
    if rows == [] then None
    else
      var n := |rows| - 1;
      if IsActive(rows[n], key, Prod) then Some(n) else Live(rows[..n], key)
  }

  predicate Tested(s: Store, id: nat) {
    exists e :: e in s.executions && e == Execution(id, Test, true)
  }

  function Created(s: Store, key: string, contracts: Contracts): Store {
    s.(rows := s.rows + [Row(key, MaxVersion(s.rows, key) + 1, contracts, Draft, Test, None)])
  }

  function Activated(s: Store, id: nat): Store
    requires id < |s.rows|
  {
    var row := s.rows[id];
    var archived := Archive(s.rows, row.key, row.environment);
    s.(rows := archived[id := archived[id].(status := Active)])
  }

  function Promoted(s: Store, id: nat): Store
    requires id < |s.rows|
  {
    var row := s.rows[id];
    s.(rows := Archive(s.rows, row.key, Prod) +
               [Row(row.key, MaxVersion(s.rows, row.key) + 1, row.contracts, Active, Prod, Some(row.version))])
  }

  /** The gates of a promotion, in the order in which they are tried. */
  ghost function Gate(s: Store, id: nat, allowBreaking: bool): Option<Refusal> {
    if id >= |s.rows| then Some(NotFound)
    else if s.rows[id].environment != Test then Some(NotATestVersion)
    else if !Tested(s, id) then Some(NoTestRun)
    else
      var live := Live(s.rows, s.rows[id].key);
      if live.Some? && !allowBreaking && !Satisfies(s.rows[id].contracts, s.rows[live.value].contracts) then Some(BreakingContract)
      else None
  }

  class PipelineTable {
    var store: Store

    constructor ()
      ensures store == EMPTY
    {
      store := EMPTY;
    }

    method Create(key: string, contracts: Contracts) returns (id: nat, version: nat)
      modifies this
      ensures store == Created(old(store), key, contracts) && id == |old(store).rows|
      ensures version == store.rows[id].version
    {
      version := MaxVersion(store.rows, key) + 1;
      id := |store.rows|;
      store := store.(rows := store.rows + [Row(key, version, contracts, Draft, Test, None)]);
    }

    method Activate(id: nat) returns (r: Outcome)
      modifies this
      ensures id >= |old(store).rows| ==> r == Refused(NotFound) && store == old(store)
      ensures id < |old(store).rows| ==> r == Done(id) && store == Activated(old(store), id)
    {
      if id >= |store.rows| {
        return Refused(NotFound);
      }
      var row := store.rows[id];
      store := store.(rows := Archive(store.rows, row.key, row.environment));
      store := store.(rows := store.rows[id := store.rows[id].(status := Active)]);
      return Done(id);
    }

    method Promote(id: nat, allowBreaking: bool) returns (r: Outcome)
      modifies this
      ensures Gate(old(store), id, allowBreaking).Some? ==> r == Refused(Gate(old(store), id, allowBreaking).value) && store == old(store)
      ensures Gate(old(store), id, allowBreaking).None? ==> r == Done(|old(store).rows|) && store == Promoted(old(store), id)
    {
      hide Archive, MaxVersion, Live, Satisfies;
      if id >= |store.rows| {
        return Refused(NotFound);
      }
      var row := store.rows[id];
      if row.environment != Test {
        return Refused(NotATestVersion);
      }
      if !Tested(store, id) {
        return Refused(NoTestRun);
      }
      var live := Live(store.rows, row.key);
      if live.Some? {
        var breaks := CompareContracts(store.rows[live.value].contracts, row.contracts);
        if |breaks| > 0 && !allowBreaking {
          return Refused(BreakingContract);
        }
      }
      var version := MaxVersion(store.rows, row.key) + 1;
      store := store.(rows := Archive(store.rows, row.key, Prod));
      store := store.(rows := store.rows + [Row(row.key, version, row.contracts, Active, Prod, Some(row.version))]);
      return Done(|store.rows| - 1);
    }
  }

  // ----- runs -----

  datatype Step =
    | Create(key: string, contracts: Contracts)
    | Activate(id: nat)
    | Promote(id: nat, allowBreaking: bool)
    | StartExecution(id: nat, environment: Environment)
    | FinishExecution(e: nat, completed: bool)
    | PurgeExecution(e: nat)

  ghost function Next(s: Store, step: Step): Store {
    match step
    case Create(key, contracts) => Created(s, key, contracts)
    case Activate(id) => if id < |s.rows| then Activated(s, id) else s
    case Promote(id, allowBreaking) => if Gate(s, id, allowBreaking).None? then Promoted(s, id) else s
    case StartExecution(id, env) =>
      if id < |s.rows| then s.(executions := s.executions + [Execution(id, env, false)]) else s
    case FinishExecution(e, completed) =>
      if e < |s.executions| then s.(executions := s.executions[e := s.executions[e].(completed := completed)]) else s
    case PurgeExecution(e) =>
      if e < |s.executions| then s.(executions := s.executions[..e] + s.executions[e + 1..]) else s
  }

  ghost predicate IsRun(states: seq<Store>, steps: seq<Step>) {
    && |states| == |steps| + 1 && states[0] == EMPTY
    && forall i :: 0 <= i < |steps| ==> states[i + 1] == Next(states[i], steps[i])
  }

  /** At most one active version per key and environment. */
  ghost predicate OneActive(rows: seq<Row>) {
    forall i, j :: 0 <= i < j < |rows| && rows[i].key == rows[j].key && rows[i].environment == rows[j].environment ==>
      !(rows[i].status == Active && rows[j].status == Active)
  }

  /** Versions of a key grow in the order in which its rows were inserted, starting at 1. */
  ghost predicate VersionsGrow(rows: seq<Row>) {
    && (forall i :: 0 <= i < |rows| ==> rows[i].version >= 1)
    && (forall i, j :: 0 <= i < j < |rows| && rows[i].key == rows[j].key ==> rows[i].version < rows[j].version)
  }

  /** Rows stay where they are and change in nothing but their status. */
  ghost predicate Extends(after: seq<Row>, before: seq<Row>) {
    |before| <= |after| && forall i :: 0 <= i < |before| ==> after[i].(status := before[i].status) == before[i]
  }

  /** Row `i` is a test version, or was promoted from the test version in row `j`. */
  ghost predicate PromotedFrom(rows: seq<Row>, i: nat, j: nat) {
    && j < i < |rows| && rows[i].environment == Prod && rows[j].environment == Test && rows[j].key == rows[i].key
    && rows[i].promotedFrom == Some(rows[j].version) && rows[i].contracts == rows[j].contracts
  }

  /** A production version that is live is there as soon as there is any production version. */
  ghost predicate SomeLive(rows: seq<Row>) {
    forall i :: 0 <= i < |rows| && rows[i].environment == Prod ==> Live(rows, rows[i].key).Some?
  }

  lemma LiveIs(rows: seq<Row>, key: string, i: nat)
    requires OneActive(rows) && i < |rows| && IsActive(rows[i], key, Prod)
    ensures Live(rows, key) == Some(i)
  {
    hide Live;
    var live := Live(rows, key);
    assert live.Some?;
    assert IsActive(rows[live.value], key, Prod);
  }

  ghost predicate Sound(rows: seq<Row>) {
    OneActive(rows) && VersionsGrow(rows) && SomeLive(rows)
  }

  lemma ArchiveStatus(rows: seq<Row>, key: string, env: Environment)
    ensures Extends(Archive(rows, key, env), rows)
    ensures forall i :: 0 <= i < |rows| ==> !IsActive(Archive(rows, key, env)[i], key, env)
    ensures forall i :: 0 <= i < |rows| && Archive(rows, key, env)[i].status == Active ==> rows[i].status == Active
  {
    hide Archive;
  }

  lemma ArchiveOneActive(rows: seq<Row>, key: string, env: Environment)
    requires OneActive(rows)
    ensures OneActive(Archive(rows, key, env))
  {
    hide Archive;
    ArchiveStatus(rows, key, env);
  }

  /** An active production version outside what was archived is still there, in front of anything appended. */
  lemma StillLive(rows: seq<Row>, key: string, env: Environment, after: seq<Row>, other: string)
    requires |after| >= |rows| && Live(rows, other).Some?
    requires forall i :: 0 <= i < |rows| && !IsActive(rows[i], key, env) ==> after[i] == rows[i]
    requires other != key || env != Prod
    ensures Live(after, other).Some?
  {
    hide Live;
    var i := Live(rows, other).value;
    assert after[i] == rows[i];
  }

  lemma CreatedIsSound(s: Store, key: string, contracts: Contracts)
    requires Sound(s.rows)
    ensures Sound(Created(s, key, contracts).rows) && Extends(Created(s, key, contracts).rows, s.rows)
  {
    var t := Created(s, key, contracts);
    hide MaxVersion, Live;
    forall i | 0 <= i < |t.rows| && t.rows[i].environment == Prod ensures Live(t.rows, t.rows[i].key).Some? {
      var j := Live(s.rows, s.rows[i].key).value;
      assert t.rows[j] == s.rows[j];
    }
  }

  lemma ActivatedIsSound(s: Store, id: nat)
    requires Sound(s.rows) && id < |s.rows|
    ensures Sound(Activated(s, id).rows) && Extends(Activated(s, id).rows, s.rows)
    ensures |Activated(s, id).rows| == |s.rows|
    ensures IsActive(Activated(s, id).rows[id], s.rows[id].key, s.rows[id].environment)
  {
    hide Archive, Live, Sound;
    var row := s.rows[id];
    var t := Activated(s, id);
    assert OneActive(s.rows) && VersionsGrow(s.rows) && SomeLive(s.rows) by { UnfoldSound(s.rows); }
    ArchiveOneActive(s.rows, row.key, row.environment);
    ArchiveStatus(s.rows, row.key, row.environment);
    forall i | 0 <= i < |t.rows| && t.rows[i].environment == Prod ensures Live(t.rows, t.rows[i].key).Some? {
      var other := t.rows[i].key;
      if other == row.key && row.environment == Prod {
        assert IsActive(t.rows[id], other, Prod);
      } else {
        assert s.rows[i].key == other;
        var j := Live(s.rows, other).value;
        assert t.rows[j] == s.rows[j];
      }
    }
    SoundFrom(t.rows);
  }

  lemma UnfoldSound(rows: seq<Row>)
    requires Sound(rows)
    ensures OneActive(rows) && VersionsGrow(rows) && SomeLive(rows)
  {
  }

  lemma SoundFrom(rows: seq<Row>)
    requires OneActive(rows) && VersionsGrow(rows) && SomeLive(rows)
    ensures Sound(rows)
  {
  }

  lemma PromotedIsSound(s: Store, id: nat)
    requires Sound(s.rows) && id < |s.rows|
    ensures Sound(Promoted(s, id).rows) && Extends(Promoted(s, id).rows, s.rows)
    ensures IsActive(Promoted(s, id).rows[|s.rows|], s.rows[id].key, Prod)
  {
    hide Archive, Live, MaxVersion;
    var row := s.rows[id];
    var t := Promoted(s, id);
    ArchiveOneActive(s.rows, row.key, Prod);
    ArchiveStatus(s.rows, row.key, Prod);
    forall i | 0 <= i < |t.rows| && t.rows[i].environment == Prod ensures Live(t.rows, t.rows[i].key).Some? {
      var other := t.rows[i].key;
      if other == row.key {
        assert IsActive(t.rows[|s.rows|], other, Prod);
      } else {
        StillLive(s.rows, row.key, Prod, t.rows, other);
      }
    }
  }

  lemma NextIsSound(s: Store, step: Step)
    requires Sound(s.rows)
    ensures Sound(Next(s, step).rows) && Extends(Next(s, step).rows, s.rows)
  {
    hide Sound, Created, Activated, Promoted, Gate;
    match step
    case Create(key, contracts) => CreatedIsSound(s, key, contracts);
    case Activate(id) => if id < |s.rows| { ActivatedIsSound(s, id); }
    case Promote(id, allowBreaking) => 
      OutsideIsRefused(s, id, allowBreaking);
      if id < |s.rows| {
        PromotedIsSound(s, id);
      }
    case _ =>
  }

  lemma OutsideIsRefused(s: Store, id: nat, allowBreaking: bool)
    ensures id >= |s.rows| ==> Gate(s, id, allowBreaking).Some?
  {
  }

  /** In every state of every run: one active version per key and environment, versions growing. */
  lemma {:induction false} RunsStaySound(states: seq<Store>, steps: seq<Step>, n: nat)
    requires IsRun(states, steps) && n < |states|
    ensures Sound(states[n].rows)
  {
    if n > 0 {
      RunsStaySound(states, steps, n - 1);
      NextIsSound(states[n - 1], steps[n - 1]);
    }
  }

  // ----- where production versions come from -----

  /** Some earlier state of the run shows row `j` as a test version with a completed test run. */
  ghost predicate WasTested(states: seq<Store>, n: nat, j: nat) {
    exists k :: 0 <= k < n <= |states| && Tested(states[k], j)
  }

  ghost predicate Backed(states: seq<Store>, n: nat, rows: seq<Row>, i: nat) {
    exists j: nat :: PromotedFrom(rows, i, j) && WasTested(states, n, j)
  }

  ghost predicate AllBacked(states: seq<Store>, n: nat, rows: seq<Row>) {
    forall i :: 0 <= i < |rows| && rows[i].environment == Prod ==> Backed(states, n, rows, i)
  }

  lemma StillBacked(states: seq<Store>, n: nat, before: seq<Row>, after: seq<Row>, i: nat)
    requires n < |states| && i < |before| && before[i].environment == Prod && Backed(states, n, before, i) && Extends(after, before)
    ensures Backed(states, n + 1, after, i)
  {
    var j: nat :| PromotedFrom(before, i, j) && WasTested(states, n, j);
    assert after[j].(status := before[j].status) == before[j] && after[i].(status := before[i].status) == before[i];
    assert PromotedFrom(after, i, j);
    var k :| 0 <= k < n && Tested(states[k], j);
    assert WasTested(states, n + 1, j);
  }

  /** Only a promotion adds a production row. */
  lemma NewProduction(s: Store, step: Step)
    requires |Next(s, step).rows| > |s.rows| && Next(s, step).rows[|s.rows|].environment == Prod
    ensures |Next(s, step).rows| == |s.rows| + 1
    ensures step.Promote? && Gate(s, step.id, step.allowBreaking).None? && Tested(s, step.id)
    ensures PromotedFrom(Next(s, step).rows, |s.rows|, step.id)
  {
    hide Archive, MaxVersion, Live;
  }

  lemma AtMostOneRow(s: Store, step: Step)
    ensures |Next(s, step).rows| <= |s.rows| + 1
  {
    hide Archive, MaxVersion, Live, Gate;
  }

  /** In every run, each production row carries the contracts of a test version that had a completed test run. */
  lemma {:induction false} ProductionIsBacked(states: seq<Store>, steps: seq<Step>, n: nat)
    requires IsRun(states, steps) && n < |states|
    ensures AllBacked(states, n, states[n].rows)
  {
    hide Next, Sound;
    if n > 0 {
      ProductionIsBacked(states, steps, n - 1);
      RunsStaySound(states, steps, n - 1);
      var before, after := states[n - 1], states[n];
      NextIsSound(before, steps[n - 1]);
      AtMostOneRow(before, steps[n - 1]);
      forall i | 0 <= i < |after.rows| && after.rows[i].environment == Prod ensures Backed(states, n, after.rows, i) {
        if i < |before.rows| {
          StillBacked(states, n - 1, before.rows, after.rows, i);
        } else {
          NewProduction(before, steps[n - 1]);
          assert WasTested(states, n, steps[n - 1].id);
        }
      }
    }
  }

  // ----- contracts across production versions -----

  /** The live version satisfies the contracts of every production version of its key. */
  ghost predicate Guarantee(rows: seq<Row>, key: string) {
    forall i :: 0 <= i < |rows| && rows[i].environment == Prod && rows[i].key == key && Live(rows, key).Some? ==>
      Satisfies(rows[Live(rows, key).value].contracts, rows[i].contracts)
  }

  ghost predicate Guaranteed(rows: seq<Row>) {
    forall key :: Guarantee(rows, key)
  }

  /**
    A step that puts a version live whose contracts break those of the version live before:
    promoting with the override, or activating an older production version.
   */
  ghost predicate Careful(s: Store, step: Step) {
    match step
    case Promote(id, true) => Gate(s, id, true).None? ==> Gate(s, id, false).None?
    case Activate(id) =>
      id < |s.rows| && s.rows[id].environment == Prod ==>
        var live := Live(s.rows, s.rows[id].key);
        live.Some? ==> Satisfies(s.rows[id].contracts, s.rows[live.value].contracts)
    case _ => true
  }

  /** A key whose production rows and live version stay as they were keeps its guarantee. */
  lemma SameGuarantee(before: seq<Row>, after: seq<Row>, key: string)
    requires Extends(after, before) && Live(after, key) == Live(before, key)
    requires forall i :: |before| <= i < |after| ==> after[i].environment == Test || after[i].key != key
    ensures Guarantee(after, key) <==> Guarantee(before, key)
  {
    hide Live, Satisfies;
    forall i | 0 <= i < |before| ensures after[i].contracts == before[i].contracts && after[i].key == before[i].key && after[i].environment == before[i].environment {
      assert after[i].(status := before[i].status) == before[i];
    }
  }

  /** With `new` live instead of `live`, the guarantee holds exactly if the new contracts satisfy the old. */
  lemma NewLive(rows: seq<Row>, key: string, live: nat, new_: nat, after: seq<Row>)
    requires Guarantee(rows, key) && Live(rows, key) == Some(live) && Live(after, key) == Some(new_)
    requires Extends(after, rows) && new_ < |after|
    requires |after| == |rows| || (|after| == |rows| + 1 && new_ == |rows|)
    ensures Guarantee(after, key) <==> Satisfies(after[new_].contracts, rows[live].contracts)
  {
    hide Live, Satisfies;
    forall i | 0 <= i < |rows| ensures after[i].contracts == rows[i].contracts && after[i].key == rows[i].key && after[i].environment == rows[i].environment {
      assert after[i].(status := rows[i].status) == rows[i];
    }
    if Satisfies(after[new_].contracts, rows[live].contracts) {
      forall i | 0 <= i < |after| && after[i].environment == Prod && after[i].key == key
        ensures Satisfies(after[new_].contracts, after[i].contracts)
      {
        if i < |rows| {
          SatisfiesChain(rows[i].contracts, rows[live].contracts, after[new_].contracts);
        } else {
          SatisfiesSelf(after[new_].contracts);
        }
      }
    }
  }

  lemma NoProduction(rows: seq<Row>, key: string)
    requires Sound(rows) && Live(rows, key).None?
    ensures forall i :: 0 <= i < |rows| ==> rows[i].environment == Test || rows[i].key != key
  {
    hide Live;
  }

  lemma OtherLive(before: seq<Row>, after: seq<Row>, key: string)
    requires Sound(before) && Sound(after) && Extends(after, before)
    requires Live(before, key).Some? ==> after[Live(before, key).value] == before[Live(before, key).value]
    requires forall i :: |before| <= i < |after| ==> after[i].environment == Test || after[i].key != key
    ensures Live(after, key) == Live(before, key)
    ensures Guarantee(after, key) <==> Guarantee(before, key)
  {
    hide Live, Satisfies, Guarantee;
    if Live(before, key).Some? {
      LiveIs(after, key, Live(before, key).value);
    } else {
      NoProduction(before, key);
      forall i | 0 <= i < |after| ensures !IsActive(after[i], key, Prod) {
        if i < |before| {
          assert after[i].(status := before[i].status) == before[i];
        }
      }
    }
    SameGuarantee(before, after, key);
  }

  lemma CreateGuarantee(s: Store, key: string, contracts: Contracts)
    requires Sound(s.rows) && Guaranteed(s.rows)
    ensures Guaranteed(Created(s, key, contracts).rows)
  {
    hide Live, MaxVersion, Sound, Guarantee;
    CreatedIsSound(s, key, contracts);
    forall k ensures Guarantee(Created(s, key, contracts).rows, k) {
      OtherLive(s.rows, Created(s, key, contracts).rows, k);
    }
  }

  lemma OtherActivated(s: Store, id: nat, key: string)
    requires Sound(s.rows) && id < |s.rows| && (s.rows[id].environment == Test || s.rows[id].key != key)
    ensures Guarantee(Activated(s, id).rows, key) <==> Guarantee(s.rows, key)
  {
    hide Live, Sound, Guarantee, Archive;
    ActivatedIsSound(s, id);
    OtherLive(s.rows, Activated(s, id).rows, key);
  }

  lemma LiveExists(rows: seq<Row>, i: nat)
    requires Sound(rows) && i < |rows| && rows[i].environment == Prod
    ensures Live(rows, rows[i].key).Some?
  {
  }

  /** Activating a production version keeps the guarantee exactly when it satisfies the one live so far. */
  lemma ActivateGuarantee(s: Store, id: nat)
    requires Sound(s.rows) && Guaranteed(s.rows) && id < |s.rows|
    ensures Guaranteed(Activated(s, id).rows) <==> Careful(s, Activate(id))
  {
    hide Live, Sound, Guarantee, Archive, Satisfies, Activated;
    var row, t := s.rows[id], Activated(s, id);
    forall k | row.environment == Test || row.key != k ensures Guarantee(t.rows, k) {
      OtherActivated(s, id, k);
      assert Guarantee(s.rows, k);
    }
    if row.environment == Prod {
      ActivatedIsSound(s, id);
      LiveExists(s.rows, id);
      LiveIsSound(t.rows, row.key, id);
      assert Guarantee(s.rows, row.key);
      NewLive(s.rows, row.key, Live(s.rows, row.key).value, id, t.rows);
      SameContracts(s.rows, t.rows, id);
    }
  }

  lemma SameContracts(before: seq<Row>, after: seq<Row>, i: nat)
    requires Extends(after, before) && i < |before|
    ensures after[i].contracts == before[i].contracts
  {
    assert after[i].(status := before[i].status) == before[i];
  }

  lemma LiveIsSound(rows: seq<Row>, key: string, i: nat)
    requires Sound(rows) && i < |rows| && IsActive(rows[i], key, Prod)
    ensures Live(rows, key) == Some(i)
  {
    LiveIs(rows, key, i);
  }

  lemma OtherPromoted(s: Store, id: nat, key: string)
    requires Sound(s.rows) && id < |s.rows| && s.rows[id].key != key
    ensures Guarantee(Promoted(s, id).rows, key) <==> Guarantee(s.rows, key)
  {
    hide Live, Sound, Guarantee, Archive, MaxVersion;
    PromotedIsSound(s, id);
    OtherLive(s.rows, Promoted(s, id).rows, key);
  }

  lemma FirstPromotion(rows: seq<Row>, key: string, after: seq<Row>)
    requires Sound(rows) && Live(rows, key).None? && Extends(after, rows) && |after| == |rows| + 1
    requires Live(after, key) == Some(|rows|)
    ensures Guarantee(after, key)
  {
    hide Live, Satisfies;
    SatisfiesSelf(after[|rows|].contracts);
    NoProduction(rows, key);
    forall i | 0 <= i < |rows| ensures after[i].environment == Test || after[i].key != key {
      assert after[i].(status := rows[i].status) == rows[i];
    }
  }

  lemma PromotedGuarantee(s: Store, id: nat)
    requires Sound(s.rows) && Guaranteed(s.rows) && id < |s.rows|
    ensures Guaranteed(Promoted(s, id).rows) <==>
      (Live(s.rows, s.rows[id].key).Some? ==>
         Satisfies(s.rows[id].contracts, s.rows[Live(s.rows, s.rows[id].key).value].contracts))
  {
    var row, t := s.rows[id], Promoted(s, id);
    assert t.rows[|s.rows|].contracts == row.contracts;
    hide Live, Sound, Guarantee, Archive, Satisfies, Promoted;
    forall k | row.key != k ensures Guarantee(t.rows, k) {
      OtherPromoted(s, id, k);
      assert Guarantee(s.rows, k);
    }
    PromotedIsSound(s, id);
    assert |t.rows| == |s.rows| + 1 by { PromotedSize(s, id); }
    LiveIsSound(t.rows, row.key, |s.rows|);
    assert Guarantee(s.rows, row.key);
    if Live(s.rows, row.key).Some? {
      NewLive(s.rows, row.key, Live(s.rows, row.key).value, |s.rows|, t.rows);
    } else {
      FirstPromotion(s.rows, row.key, t.rows);
    }
  }

  lemma PromotedSize(s: Store, id: nat)
    requires id < |s.rows|
    ensures |Promoted(s, id).rows| == |s.rows| + 1
  {
  }

  lemma PromoteGuarantee(s: Store, id: nat, allowBreaking: bool)
    requires Sound(s.rows) && Guaranteed(s.rows)
    ensures Guaranteed(Next(s, Promote(id, allowBreaking)).rows) <==> Careful(s, Promote(id, allowBreaking))
  {
    hide Live, Sound, Guaranteed, Satisfies, Promoted;
    if Gate(s, id, allowBreaking).None? {
      PromotedGuarantee(s, id);
    }
  }

  /** A careful step is exactly one that keeps the guarantee. */
  lemma NextGuarantee(s: Store, step: Step)
    requires Sound(s.rows) && Guaranteed(s.rows)
    ensures Guaranteed(Next(s, step).rows) <==> Careful(s, step)
  {
    hide Guaranteed, Sound, Gate, Created, Activated, Promoted, Live, Satisfies;
    match step
    case Create(key, contracts) => CreateGuarantee(s, key, contracts);
    case Activate(id) => if id < |s.rows| { ActivateGuarantee(s, id); }
    case Promote(id, allowBreaking) => PromoteGuarantee(s, id, allowBreaking);
    case _ =>
  }

  ghost predicate AllGuaranteed(states: seq<Store>, n: nat) {
    forall i :: 0 <= i < n && i < |states| ==> Guaranteed(states[i].rows)
  }

  ghost predicate AllCareful(states: seq<Store>, steps: seq<Step>, n: nat) {
    forall i :: 0 <= i < n && i < |states| && i < |steps| ==> Careful(states[i], steps[i])
  }

  /**
    Along a run the live contracts satisfy those of all production versions in every state exactly
    when every step was careful.
   */
  lemma {:induction false} GuaranteeExact(states: seq<Store>, steps: seq<Step>, n: nat)
    requires IsRun(states, steps) && n < |states|
    ensures AllGuaranteed(states, n + 1) <==> AllCareful(states, steps, n)
  {
    hide Next, Careful, Sound;
    if n == 0 {
      assert states[0].rows == [];
    } else {
      hide Guaranteed;
      GuaranteeExact(states, steps, n - 1);
      assert AllGuaranteed(states, n + 1) <==> AllGuaranteed(states, n) && Guaranteed(states[n].rows);
      assert AllCareful(states, steps, n) <==> AllCareful(states, steps, n - 1) && Careful(states[n - 1], steps[n - 1]);
      if AllGuaranteed(states, n) {
        RunsStaySound(states, steps, n - 1);
        NextGuarantee(states[n - 1], steps[n - 1]);
      }
    }
  }

  /** A production change other than a promotion without override. */
  predicate Unguarded(s: Store, step: Step) {
    || (step.Promote? && step.allowBreaking)
    || (step.Activate? && step.id < |s.rows| && s.rows[step.id].environment == Prod)
  }

  /** With promotions without override as the only production changes, the live version satisfies every production version there was. */
  lemma PromotionsKeepContracts(states: seq<Store>, steps: seq<Step>, key: string)
    requires IsRun(states, steps)
    requires forall i :: 0 <= i < |steps| ==> !Unguarded(states[i], steps[i])
    ensures Guarantee(states[|steps|].rows, key)
  {
    GuaranteeExact(states, steps, |steps|);
    hide Gate, Satisfies, Live;
    forall i | 0 <= i < |steps| ensures Careful(states[i], steps[i]) {
      assert !Unguarded(states[i], steps[i]);
    }
    assert Guaranteed(states[|steps|].rows);
  }

  // ----- a production version put back -----

  lemma MaxIs(rows: seq<Row>, key: string, i: nat)
    requires i < |rows| && rows[i].key == key && forall r :: r in rows && r.key == key ==> r.version <= rows[i].version
    ensures MaxVersion(rows, key) == rows[i].version
  {
    assert rows[i] in rows;
  }

  lemma ArchivedIs(rows: seq<Row>, i: nat, after: seq<Row>)
    requires i < |rows| && after == rows[i := rows[i].(status := Archived)] && rows[i].status == Active
    requires forall j :: 0 <= j < |rows| && j != i ==> !IsActive(rows[j], rows[i].key, rows[i].environment)
    ensures Archive(rows, rows[i].key, rows[i].environment) == after
  {
    hide Archive;
    assert IsActive(rows[i], rows[i].key, rows[i].environment);
    var done := Archive(rows, rows[i].key, rows[i].environment);
    forall j | 0 <= j < |rows| ensures done[j] == after[j] {
    }
  }

  lemma NoneToArchive(rows: seq<Row>, key: string)
    requires forall j :: 0 <= j < |rows| ==> !IsActive(rows[j], key, Prod)
    ensures Archive(rows, key, Prod) == rows
  {
    hide Archive;
    var done := Archive(rows, key, Prod);
    forall j | 0 <= j < |rows| ensures done[j] == rows[j] {
    }
  }

  lemma FirstPromoted(t: Row, e: Execution)
    requires t.key == "p" && t.environment == Test && t.version == 1 && e == Execution(0, Test, true)
    ensures Next(Store([t], [e]), Promote(0, false)) ==
            Store([t, Row("p", 2, t.contracts, Active, Prod, Some(1))], [e])
  {
    var s := Store([t], [e]);
    hide Live, MaxVersion, Archive;
    MaxIs(s.rows, "p", 0);
    NoneToArchive(s.rows, "p");
    assert Live(s.rows, "p").None?;
    assert e in s.executions;
    assert Gate(s, 0, false).None?;
  }

  lemma SecondPromoted(t1: Row, p1: Row, t2: Row, e1: Execution, e2: Execution)
    requires t1.key == p1.key == t2.key == "p" && t1.environment == t2.environment == Test
    requires t1.version == 1 && p1.version == 2 && t2.version == 3 && IsActive(p1, "p", Prod) && e2 == Execution(2, Test, true)
    requires Satisfies(t2.contracts, p1.contracts)
    ensures Next(Store([t1, p1, t2], [e1, e2]), Promote(2, false)) ==
            Store([t1, p1.(status := Archived), t2, Row("p", 4, t2.contracts, Active, Prod, Some(3))], [e1, e2])
  {
    var s := Store([t1, p1, t2], [e1, e2]);
    hide Live, MaxVersion, Archive, Satisfies;
    MaxIs(s.rows, "p", 2);
    ArchivedIs(s.rows, 1, [t1, p1.(status := Archived), t2]);
    assert IsActive(s.rows[1], "p", Prod);
    assert Live(s.rows, "p") == Some(1);
    assert s.executions[1] == e2 && e2 in s.executions;
    assert Gate(s, 2, false).None?;
  }

  lemma SecondCreated(t1: Row, p1: Row, e: Execution, contracts: Contracts)
    requires t1.key == p1.key == "p" && t1.version == 1 && p1.version == 2
    ensures Next(Store([t1, p1], [e]), Create("p", contracts)) ==
            Store([t1, p1, Row("p", 3, contracts, Draft, Test, None)], [e])
  {
    hide MaxVersion;
    MaxIs([t1, p1], "p", 1);
  }

  lemma FirstCreated(contracts: Contracts)
    ensures Next(EMPTY, Create("p", contracts)) == Store([Row("p", 1, contracts, Draft, Test, None)], [])
  {
  }

  lemma EmptyRun()
    ensures IsRun([EMPTY], [])
  {
  }

  lemma Do(states: seq<Store>, steps: seq<Step>, s: Store, step: Step) returns (moreStates: seq<Store>, moreSteps: seq<Step>, t: Store)
    requires IsRun(states, steps) && states[|steps|] == s
    ensures IsRun(moreStates, moreSteps) && moreStates == states + [t] && moreSteps == steps + [step] && t == Next(s, step)
    ensures moreStates[|moreSteps|] == t
  {
    hide Next;
    t := Next(s, step);
    moreStates, moreSteps := states + [t], steps + [step];
  }

  lemma FirstVersion(contracts: Contracts) returns (states: seq<Store>, steps: seq<Step>)
    ensures steps == [Create("p", contracts), StartExecution(0, Test), FinishExecution(0, true), Promote(0, false)]
    ensures IsRun(states, steps) && |states| == 5
    ensures states[4] == Store([Row("p", 1, contracts, Draft, Test, None), Row("p", 2, contracts, Active, Prod, Some(1))],
                               [Execution(0, Test, true)])
  {
    hide IsRun, Gate, Promoted, MaxVersion;
    EmptyRun();
    var t := Row("p", 1, contracts, Draft, Test, None);
    FirstCreated(contracts);
    FirstPromoted(t, Execution(0, Test, true));
    var s;
    states, steps, s := Do([EMPTY], [], EMPTY, Create("p", contracts));
    states, steps, s := Do(states, steps, s, StartExecution(0, Test));
    states, steps, s := Do(states, steps, s, FinishExecution(0, true));
    assert s == Store([t], [Execution(0, Test, true)]);
    states, steps, s := Do(states, steps, s, Promote(0, false));
  }

  lemma SecondVersion(states0: seq<Store>, steps0: seq<Step>, t1: Row, p1: Row, e1: Execution, contracts: Contracts)
      returns (states: seq<Store>, steps: seq<Step>)
    requires IsRun(states0, steps0) && states0[|steps0|] == Store([t1, p1], [e1])
    requires t1.key == "p" && t1.environment == Test && t1.version == 1 && p1.version == 2 && IsActive(p1, "p", Prod)
    requires Satisfies(contracts, p1.contracts)
    ensures steps == steps0 + [Create("p", contracts), StartExecution(2, Test), FinishExecution(1, true), Promote(2, false)]
    ensures IsRun(states, steps) && |states| == |states0| + 4 && states0 <= states
    ensures states[|steps|] == Store([t1, p1.(status := Archived), Row("p", 3, contracts, Draft, Test, None),
                                      Row("p", 4, contracts, Active, Prod, Some(3))], [e1, Execution(2, Test, true)])
  {
    hide IsRun, Gate, Promoted, MaxVersion, Satisfies;
    var t2, e2 := Row("p", 3, contracts, Draft, Test, None), Execution(2, Test, true);
    SecondCreated(t1, p1, e1, contracts);
    SecondPromoted(t1, p1, t2, e1, e2);
    RunSize(states0, steps0);
    var s;
    states, steps, s := Do(states0, steps0, states0[|steps0|], Create("p", contracts));
    states, steps, s := Do(states, steps, s, StartExecution(2, Test));
    states, steps, s := Do(states, steps, s, FinishExecution(1, true));
    assert s == Store([t1, p1, t2], [e1, e2]);
    states, steps, s := Do(states, steps, s, Promote(2, false));
  }

  /**
    Two versions are promoted under all gates, the second with more than the first; activating the
    first production version again puts contracts live that do not satisfy those of the second.
   */
  lemma ReactivationBreaksContracts(one: Contracts, two: Contracts) returns (states: seq<Store>, steps: seq<Step>)
    requires Satisfies(two, one) && !Satisfies(one, two)
    ensures steps == [Create("p", one), StartExecution(0, Test), FinishExecution(0, true), Promote(0, false),
                      Create("p", two), StartExecution(2, Test), FinishExecution(1, true), Promote(2, false), Activate(1)]
    ensures IsRun(states, steps) && |states| == 10 && Guaranteed(states[8].rows) && !Guaranteed(states[9].rows)
  {
    hide Satisfies, IsRun, Live, Next, Guaranteed;
    var t1, p1 := Row("p", 1, one, Draft, Test, None), Row("p", 2, one, Active, Prod, Some(1));
    states, steps := FirstVersion(one);
    RunSize(states, steps);
    states, steps := SecondVersion(states, steps, t1, p1, Execution(0, Test, true), two);
    var s8 := states[8];
    assert IsActive(s8.rows[3], "p", Prod);
    assert Live(s8.rows, "p") == Some(3);
    assert !Careful(s8, Activate(1));
    var s9;
    states, steps, s9 := Do(states, steps, s8, Activate(1));
    BreaksAtTheEnd(states, steps);
  }

  lemma RunSize(states: seq<Store>, steps: seq<Step>)
    requires IsRun(states, steps)
    ensures |states| == |steps| + 1
  {
  }

  predicate Guarded(step: Step) {
    !step.Activate? && (step.Promote? ==> !step.allowBreaking)
  }

  lemma BreaksAtTheEnd(states: seq<Store>, steps: seq<Step>)
    requires IsRun(states, steps) && |steps| == 9 && |states| == 10 && !Careful(states[8], steps[8])
    requires forall i :: 0 <= i < 8 ==> Guarded(steps[i])
    ensures Guaranteed(states[8].rows) && !Guaranteed(states[9].rows)
  {
    forall i | 0 <= i < 8 ensures Careful(states[i], steps[i]) {
      assert Guarded(steps[i]);
    }
    hide Careful, Guaranteed, Next;
    GuaranteeExact(states, steps, 8);
    GuaranteeExact(states, steps, 9);
    assert AllGuaranteed(states, 9);
  }

  lemma ContractsNarrowed()
    ensures var one: Contracts, two: Contracts := map["sink" := map["a" := "int"]], map["sink" := map["a" := "int", "b" := "int"]];
            Satisfies(two, one) && !Satisfies(one, two)
  {
    var one: Contracts, two: Contracts := map["sink" := map["a" := "int"]], map["sink" := map["a" := "int", "b" := "int"]];
    assert "b" in two["sink"] && "b" !in one["sink"];
  }

  // ----- what each operation does -----

  /** A new version is a draft for tests, numbered one above all of its key, from 1. */
  lemma CreateExactly(s: Store, key: string, contracts: Contracts)
    ensures var t := Next(s, Create(key, contracts));
            var n := |s.rows|;
            && t.executions == s.executions && |t.rows| == n + 1 && t.rows[..n] == s.rows
            && t.rows[n] == Row(key, t.rows[n].version, contracts, Draft, Test, None) && t.rows[n].version >= 1
            && (forall r :: r in s.rows && r.key == key ==> r.version < t.rows[n].version)
            && (t.rows[n].version > 1 ==> exists r :: r in s.rows && r.key == key && r.version == t.rows[n].version - 1)
  {
    hide MaxVersion;
  }

  /** Activation makes the row the active one of its key and environment and archives the one before it. */
  lemma ActivateExactly(s: Store, id: nat)
    requires id < |s.rows|
    ensures var t := Next(s, Activate(id));
            && t.executions == s.executions && |t.rows| == |s.rows| && t.rows[id] == s.rows[id].(status := Active)
            && forall i :: 0 <= i < |s.rows| && i != id ==>
                 t.rows[i] == if s.rows[i].key == s.rows[id].key && s.rows[i].environment == s.rows[id].environment && s.rows[i].status == Active
                              then s.rows[i].(status := Archived) else s.rows[i]
  {
    hide Archive;
  }

  /** A promotion that passes its gates archives the live version and puts a copy of the row behind all others, active. */
  lemma PromoteExactly(s: Store, id: nat, allowBreaking: bool)
    requires Gate(s, id, allowBreaking).None?
    ensures var t := Next(s, Promote(id, allowBreaking));
            var n := |s.rows|;
            && t.executions == s.executions && |t.rows| == n + 1
            && t.rows[n] == Row(s.rows[id].key, t.rows[n].version, s.rows[id].contracts, Active, Prod, Some(s.rows[id].version))
            && (forall r :: r in s.rows && r.key == s.rows[id].key ==> r.version < t.rows[n].version)
            && (t.rows[n].version > 1 ==> exists r :: r in s.rows && r.key == s.rows[id].key && r.version == t.rows[n].version - 1)
            && forall i :: 0 <= i < n ==>
                 t.rows[i] == if s.rows[i].key == s.rows[id].key && s.rows[i].environment == Prod && s.rows[i].status == Active
                              then s.rows[i].(status := Archived) else s.rows[i]
  {
    hide Archive, MaxVersion, Gate;
  }

  /** The gates: the row is a test version, a test run of it has completed, and no live contract breaks unless that is allowed. */
  lemma GateExactly(s: Store, id: nat, allowBreaking: bool)
    ensures Gate(s, id, allowBreaking).None? <==>
      && id < |s.rows| && s.rows[id].environment == Test
      && (exists k :: 0 <= k < |s.executions| && s.executions[k].row == id && s.executions[k].environment == Test && s.executions[k].completed)
      && (allowBreaking || forall i :: 0 <= i < |s.rows| && Live(s.rows, s.rows[id].key) == Some(i) ==>
            Satisfies(s.rows[id].contracts, s.rows[i].contracts))
  {
    hide Satisfies, Live;
    if id < |s.rows| {
      if Tested(s, id) {
        var k :| 0 <= k < |s.executions| && s.executions[k] == Execution(id, Test, true);
      }
      if k :| 0 <= k < |s.executions| && s.executions[k].row == id && s.executions[k].environment == Test && s.executions[k].completed {
        assert s.executions[k] == Execution(id, Test, true) && s.executions[k] in s.executions;
      }
    }
  }

  /** Only finishing a test execution as completed makes its version a tested one. */
  lemma TestedOnlyByFinishing(s: Store, step: Step, id: nat)
    requires !Tested(s, id) && Tested(Next(s, step), id)
    ensures step.FinishExecution? && step.completed && step.e < |s.executions|
    ensures s.executions[step.e].row == id && s.executions[step.e].environment == Test
  {
    hide Archive, MaxVersion, Gate;
    var t := Next(s, step);
    var e := Execution(id, Test, true);
    assert e in t.executions && e !in s.executions;
  }
}
