/**
  Quota and billing under interleaving, within one month: `fireExecution`, `consumeQuota` and
  `releaseQuota` (temporal.go), `PrepareScheduledExecution` (activities.go) and `billingWebhook`
  (routes_billing.go). Every database transaction is one atomic step; between transactions any
  number of handlers interleave, fail or are retried.
 */
module Quota {
  import opened Options

  const FREE_TIER: nat := 5
  const RUNS_PER_UNIT: nat := 5

  datatype Plan = Plan(free: nat, extra: nat)
  datatype Execution = Execution(id: string, tenant: string)
  datatype OrderStatus = Created | Paid | Failed
  datatype Order = Order(id: string, tenant: string, units: nat, status: OrderStatus, payment: Option<string>)
  datatype Store = Store(plans: map<string, Plan>, counts: map<string, nat>, executions: seq<Execution>, orders: seq<Order>)

  /** A plan row is made with these values when it is first needed. */
  function PlanOf(s: Store, t: string): Plan {
    if t in s.plans then s.plans[t] else Plan(FREE_TIER, 0)
  }

  function Limit(s: Store, t: string): nat {
    PlanOf(s, t).free + PlanOf(s, t).extra
  }

  function Count(s: Store, t: string): nat {
    if t in s.counts then s.counts[t] else 0
  }

  // ----- the transactions -----

  predicate HasRoom(s: Store, t: string) {
    Count(s, t) < Limit(s, t)
  }

  function Consumed(s: Store, t: string): Store {
    s.(plans := s.plans[t := PlanOf(s, t)], counts := s.counts[t := Count(s, t) + 1])
  }

  /** Giving a run back never takes the counter below zero, and does nothing without a counter. */
  function Released(s: Store, t: string): Store {
    if t !in s.counts then s
    else s.(counts := s.counts[t := if s.counts[t] == 0 then 0 else s.counts[t] - 1])
  }

  predicate Known(executions: seq<Execution>, id: string) {
    exists e :: e in executions && e.id == id
  }

  function Recorded(s: Store, e: Execution): Store {
    s.(executions := s.executions + [e])
  }

  /** A scheduled start counts first and then leaves an execution that is already there alone. */
  function Scheduled(s: Store, e: Execution): Store {
    var c := Consumed(s, e.tenant);
    if Known(c.executions, e.id) then c else Recorded(c, e)
  }

  function FindOrder(orders: seq<Order>, id: string): (r: Option<nat>)
    ensures r.Some? ==> r.value < |orders| && orders[r.value].id == id
  {
    if orders == [] then None
    else
      var n := |orders| - 1;
      if orders[n].id == id then Some(n) else FindOrder(orders[..n], id)
  }

  /** A payment id is stored for at most one order; orders without one do not clash. */
  predicate PaymentTaken(orders: seq<Order>, k: nat, payment: Option<string>) {
    payment.Some? && exists i :: 0 <= i < |orders| && i != k && orders[i].payment == payment
  }

  predicate Payable(s: Store, k: nat, payment: Option<string>) {
    k < |s.orders| && s.orders[k].status != Paid && !PaymentTaken(s.orders, k, payment)
  }

  function PaidFor(s: Store, k: nat, payment: Option<string>): Store
    requires k < |s.orders|
  {
    var o := s.orders[k];
    var plan := PlanOf(s, o.tenant);
    s.(orders := s.orders[k := o.(status := Paid, payment := payment)],
       plans := s.plans[o.tenant := plan.(extra := plan.extra + o.units * RUNS_PER_UNIT)])
  }

  /** A failed payment closes an order only while nothing has happened to it. */
  function MarkedFailed(s: Store, id: string): Store {
    var k := FindOrder(s.orders, id);
    if k.Some? && s.orders[k.value].status == Created then s.(orders := s.orders[k.value := s.orders[k.value].(status := Failed)])
    else s
  }

  class BillingTables {
    var store: Store

    method ConsumeQuota(t: string) returns (ok: bool)
      modifies this
      ensures ok == HasRoom(old(store), t)
      ensures store == if ok then Consumed(old(store), t) else old(store)
    {
      var draft := store;
      if t !in draft.plans {
        draft := draft.(plans := draft.plans[t := Plan(FREE_TIER, 0)]);
      }
      if t !in draft.counts {
        draft := draft.(counts := draft.counts[t := 0]);
      }
      var limit, used := draft.plans[t].free + draft.plans[t].extra, draft.counts[t];
      if used >= limit {
        return false;
      }
      draft := draft.(counts := draft.counts[t := used + 1]);
      assert draft.plans == store.plans[t := PlanOf(store, t)];
      assert draft.counts == store.counts[t := Count(store, t) + 1];
      store := draft;
      return true;
    }

    method ReleaseQuota(t: string)
      modifies this
      ensures store == Released(old(store), t)
    {
      if t in store.counts {
        var used := store.counts[t];
        store := store.(counts := store.counts[t := if used == 0 then 0 else used - 1]);
      }
    }

    /** The retried activity: nothing in it notices that an earlier attempt already counted. */
    method PrepareScheduled(e: Execution) returns (ok: bool)
      modifies this
      ensures ok == HasRoom(old(store), e.tenant)
      ensures store == if ok then Scheduled(old(store), e) else old(store)
    {
      ok := ConsumeQuota(e.tenant);
      if ok && !Known(store.executions, e.id) {
        store := Recorded(store, e);
      }
    }

    /** The locked half of the webhook: the status is read again before anything is credited. */
    method Capture(k: nat, payment: Option<string>) returns (credited: bool)
      requires k < |store.orders|
      modifies this
      ensures credited == Payable(old(store), k, payment)
      ensures store == if credited then PaidFor(old(store), k, payment) else old(store)
    {
      var o := store.orders[k];
      if o.status == Paid || PaymentTaken(store.orders, k, payment) {
        return false;
      }
      var plan := PlanOf(store, o.tenant);
      store := store.(orders := store.orders[k := o.(status := Paid, payment := payment)]);
      store := store.(plans := store.plans[o.tenant := plan.(extra := plan.extra + o.units * RUNS_PER_UNIT)]);
      return true;
    }
  }

  // ----- handlers -----

  datatype FireStage = Consuming | Starting | Recording | Releasing | Ended

  datatype Handler =
    | Fire(execution: Execution, stage: FireStage)
    | Schedule(execution: Execution)
    | CaptureRead(order: string, payment: Option<string>)
    | CaptureWrite(k: nat, payment: Option<string>)
    | PaymentFailed(order: string)
    | Finished

  /** How a step's call to the database or the workflow server turns out. */
  datatype Reply = Works | Fails | LostReply

  /** `lost` names the tenants of runs that stay counted although nothing was recorded for them. */
  datatype World = World(store: Store, handlers: seq<Handler>, lost: seq<string>)

  datatype Step = Begin(h: Handler) | Advance(i: nat, reply: Reply) | NewOrder(id: string, tenant: string, units: nat)

  /** A handler as it arrives. */
  predicate Fresh(h: Handler) {
    match h
    case Fire(_, stage) => stage == Consuming
    case CaptureWrite(_, _) => false
    case _ => true
  }

  function With(w: World, i: nat, h: Handler): World
    requires i < |w.handlers|
  {
    w.(handlers := w.handlers[i := h])
  }

  function AdvanceFire(w: World, i: nat, e: Execution, stage: FireStage, reply: Reply): World
    requires i < |w.handlers|
  {
    match stage
    case Consuming =>
      if reply == Fails || !HasRoom(w.store, e.tenant) then With(w, i, Fire(e, Ended))
      else if reply == LostReply then With(w, i, Fire(e, Ended)).(store := Consumed(w.store, e.tenant), lost := w.lost + [e.tenant])
      else With(w, i, Fire(e, Starting)).(store := Consumed(w.store, e.tenant))
    case Starting => With(w, i, Fire(e, if reply == Works then Recording else Releasing))
    case Recording =>
      if reply == Fails || Known(w.store.executions, e.id) then With(w, i, Fire(e, Releasing))
      else With(w, i, Fire(e, if reply == Works then Ended else Releasing)).(store := Recorded(w.store, e))
    case Releasing =>
      if reply == Fails then With(w, i, Fire(e, Ended)).(lost := w.lost + [e.tenant])
      else With(w, i, Fire(e, Ended)).(store := Released(w.store, e.tenant))
    case Ended => w
  }

  function AdvanceHandler(w: World, i: nat, reply: Reply): World
    requires i < |w.handlers|
  {
    match w.handlers[i]
    case Fire(e, stage) => AdvanceFire(w, i, e, stage, reply)
    case Schedule(e) =>
      if reply == Fails || !HasRoom(w.store, e.tenant) then w
      else w.(store := Scheduled(w.store, e), lost := if Known(w.store.executions, e.id) then w.lost + [e.tenant] else w.lost)
    case CaptureRead(order, payment) =>
      var k := FindOrder(w.store.orders, order);
      if reply == Fails || k.None? || w.store.orders[k.value].status == Paid then With(w, i, Finished)
      else With(w, i, CaptureWrite(k.value, payment))
    case CaptureWrite(k, payment) =>
      if reply == Fails || !Payable(w.store, k, payment) then With(w, i, Finished)
      else With(w, i, Finished).(store := PaidFor(w.store, k, payment))
    case PaymentFailed(order) =>
      if reply == Fails then With(w, i, Finished) else With(w, i, Finished).(store := MarkedFailed(w.store, order))
    case Finished => w
  }

  function Next(w: World, step: Step): World {
    match step
    case Begin(h) => if Fresh(h) then w.(handlers := w.handlers + [h]) else w
    case Advance(i, reply) => if i < |w.handlers| then AdvanceHandler(w, i, reply) else w
    case NewOrder(id, tenant, units) =>
      if FindOrder(w.store.orders, id).Some? then w
      else w.(store := w.store.(orders := w.store.orders + [Order(id, tenant, units, Created, None)]))
  }

  /** The one reply that breaks the books: an execution is recorded, but the handler is told otherwise. */
  predicate Misreported(w: World, step: Step) {
    && step.Advance? && step.reply == LostReply && step.i < |w.handlers|
    && w.handlers[step.i].Fire? && w.handlers[step.i].stage == Recording
    && !Known(w.store.executions, w.handlers[step.i].execution.id)
  }

  // ----- the books -----

  predicate InFlight(h: Handler, t: string) {
    h.Fire? && h.execution.tenant == t && h.stage in {Starting, Recording, Releasing}
  }

  function FlightsOf(handlers: seq<Handler>, t: string): nat {
    if handlers == [] then 0
    else FlightsOf(handlers[..|handlers| - 1], t) + if InFlight(handlers[|handlers| - 1], t) then 1 else 0
  }

  function RunsOf(executions: seq<Execution>, t: string): nat {
    if executions == [] then 0
    else RunsOf(executions[..|executions| - 1], t) + if executions[|executions| - 1].tenant == t then 1 else 0
  }

  function LostOf(lost: seq<string>, t: string): nat {
    if lost == [] then 0 else LostOf(lost[..|lost| - 1], t) + if lost[|lost| - 1] == t then 1 else 0
  }

  function PaidUnits(orders: seq<Order>, t: string): nat {
    if orders == [] then 0
    else
      var o := orders[|orders| - 1];
      PaidUnits(orders[..|orders| - 1], t) + if o.tenant == t && o.status == Paid then o.units else 0
  }

  /** What a tenant's counter stands for. */
  function Accounted(w: World, t: string): nat {
    RunsOf(w.store.executions, t) + FlightsOf(w.handlers, t) + LostOf(w.lost, t)
  }

  /** Counter and quota minus what they stand for: both differences never change. */
  function Unexplained(w: World, t: string): int {
    Count(w.store, t) - Accounted(w, t)
  }

  function Granted(s: Store, t: string): int {
    PlanOf(s, t).extra - PaidUnits(s.orders, t) * RUNS_PER_UNIT
  }

  lemma {:induction false} FlightsUpdate(handlers: seq<Handler>, i: nat, h: Handler, t: string)
    requires i < |handlers|
    ensures FlightsOf(handlers[i := h], t) + (if InFlight(handlers[i], t) then 1 else 0)
         == FlightsOf(handlers, t) + (if InFlight(h, t) then 1 else 0)
  {
    var n := |handlers| - 1;
    if i < n {
      assert handlers[i := h][..n] == handlers[..n][i := h];
      FlightsUpdate(handlers[..n], i, h, t);
    } else {
      assert handlers[i := h][..n] == handlers[..n];
    }
  }

  lemma {:induction false} PaidUpdate(orders: seq<Order>, k: nat, o: Order, t: string)
    requires k < |orders| && o.tenant == orders[k].tenant && o.units == orders[k].units
    ensures PaidUnits(orders[k := o], t) + (if o.tenant == t && orders[k].status == Paid then o.units else 0)
         == PaidUnits(orders, t) + (if o.tenant == t && o.status == Paid then o.units else 0)
  {
    var n := |orders| - 1;
    if k < n {
      assert orders[k := o][..n] == orders[..n][k := o];
      PaidUpdate(orders[..n], k, o, t);
    } else {
      assert orders[k := o][..n] == orders[..n];
    }
  }

  lemma AppendRun(executions: seq<Execution>, e: Execution, t: string)
    ensures RunsOf(executions + [e], t) == RunsOf(executions, t) + if e.tenant == t then 1 else 0
  {
    assert (executions + [e])[..|executions|] == executions;
  }

  lemma AppendLost(lost: seq<string>, u: string, t: string)
    ensures LostOf(lost + [u], t) == LostOf(lost, t) + if u == t then 1 else 0
  {
    assert (lost + [u])[..|lost|] == lost;
  }

  lemma AppendHandler(handlers: seq<Handler>, h: Handler, t: string)
    ensures FlightsOf(handlers + [h], t) == FlightsOf(handlers, t) + if InFlight(h, t) then 1 else 0
  {
    assert (handlers + [h])[..|handlers|] == handlers;
  }

  lemma AppendOrder(orders: seq<Order>, o: Order, t: string)
    ensures PaidUnits(orders + [o], t) == PaidUnits(orders, t) + if o.tenant == t && o.status == Paid then o.units else 0
  {
    assert (orders + [o])[..|orders|] == orders;
  }

  /** A run in flight is one that is counted: giving it back really lowers the counter. */
  lemma {:induction false} FlightIsCounted(handlers: seq<Handler>, i: nat, t: string)
    requires i < |handlers| && InFlight(handlers[i], t)
    ensures FlightsOf(handlers, t) >= 1
  {
    var n := |handlers| - 1;
    if i < n {
      FlightIsCounted(handlers[..n], i, t);
    }
  }

  lemma ConsumingKeepsBooks(w: World, i: nat, e: Execution, reply: Reply, t: string)
    requires i < |w.handlers| && w.handlers[i] == Fire(e, Consuming)
    ensures Unexplained(AdvanceFire(w, i, e, Consuming, reply), t) == Unexplained(w, t)
  {
    hide FlightsOf, RunsOf, LostOf, HasRoom;
    FlightsUpdate(w.handlers, i, Fire(e, Starting), t);
    FlightsUpdate(w.handlers, i, Fire(e, Ended), t);
    AppendLost(w.lost, e.tenant, t);
  }

  lemma StartingKeepsBooks(w: World, i: nat, e: Execution, reply: Reply, t: string)
    requires i < |w.handlers| && w.handlers[i] == Fire(e, Starting)
    ensures Unexplained(AdvanceFire(w, i, e, Starting, reply), t) == Unexplained(w, t)
  {
    hide FlightsOf, RunsOf, LostOf;
    FlightsUpdate(w.handlers, i, Fire(e, Recording), t);
    FlightsUpdate(w.handlers, i, Fire(e, Releasing), t);
  }

  lemma RecordingKeepsBooks(w: World, i: nat, e: Execution, reply: Reply, t: string)
    requires i < |w.handlers| && w.handlers[i] == Fire(e, Recording)
    requires reply != LostReply || Known(w.store.executions, e.id)
    ensures Unexplained(AdvanceFire(w, i, e, Recording, reply), t) == Unexplained(w, t)
  {
    hide FlightsOf, RunsOf, LostOf, Known;
    FlightsUpdate(w.handlers, i, Fire(e, Releasing), t);
    FlightsUpdate(w.handlers, i, Fire(e, Ended), t);
    AppendRun(w.store.executions, e, t);
  }

  lemma ReleasingKeepsBooks(w: World, i: nat, e: Execution, reply: Reply, t: string)
    requires i < |w.handlers| && w.handlers[i] == Fire(e, Releasing) && Unexplained(w, e.tenant) >= 0
    ensures Unexplained(AdvanceFire(w, i, e, Releasing, reply), t) == Unexplained(w, t)
  {
    hide FlightsOf, RunsOf, LostOf;
    FlightsUpdate(w.handlers, i, Fire(e, Ended), t);
    AppendLost(w.lost, e.tenant, t);
    FlightIsCounted(w.handlers, i, e.tenant);
  }

  lemma FireKeepsBooks(w: World, i: nat, reply: Reply, t: string)
    requires i < |w.handlers| && w.handlers[i].Fire? && Unexplained(w, w.handlers[i].execution.tenant) >= 0
    requires !Misreported(w, Advance(i, reply))
    ensures Unexplained(AdvanceHandler(w, i, reply), t) == Unexplained(w, t)
  {
    hide Unexplained, AdvanceFire, Known;
    var e := w.handlers[i].execution;
    match w.handlers[i].stage
    case Consuming => ConsumingKeepsBooks(w, i, e, reply, t);
    case Starting => StartingKeepsBooks(w, i, e, reply, t);
    case Recording => RecordingKeepsBooks(w, i, e, reply, t);
    case Releasing => ReleasingKeepsBooks(w, i, e, reply, t);
    case Ended => EndedChangesNothing(w, i, e, reply);
  }

  lemma EndedChangesNothing(w: World, i: nat, e: Execution, reply: Reply)
    requires i < |w.handlers|
    ensures AdvanceFire(w, i, e, Ended, reply) == w
  {
  }

  lemma ScheduleKeepsBooks(w: World, i: nat, reply: Reply, t: string)
    requires i < |w.handlers| && w.handlers[i].Schedule?
    ensures Unexplained(AdvanceHandler(w, i, reply), t) == Unexplained(w, t)
  {
    hide FlightsOf, RunsOf, LostOf, HasRoom, Known;
    var e := w.handlers[i].execution;
    AppendRun(w.store.executions, e, t);
    AppendLost(w.lost, e.tenant, t);
  }

  lemma WebhookKeepsBooks(w: World, i: nat, reply: Reply, t: string)
    requires i < |w.handlers| && !w.handlers[i].Fire? && !w.handlers[i].Schedule?
    ensures Unexplained(AdvanceHandler(w, i, reply), t) == Unexplained(w, t)
  {
    hide FlightsOf, RunsOf, LostOf, Payable, FindOrder;
    FlightsUpdate(w.handlers, i, Finished, t);
    if w.handlers[i].CaptureRead? {
      var k := FindOrder(w.store.orders, w.handlers[i].order);
      if k.Some? {
        FlightsUpdate(w.handlers, i, CaptureWrite(k.value, w.handlers[i].payment), t);
      }
    }
  }

  /** No step but a misreported recording changes what a tenant's counter leaves unexplained. */
  lemma NextKeepsBooks(w: World, step: Step, t: string)
    requires forall u :: Unexplained(w, u) >= 0
    requires !Misreported(w, step)
    ensures Unexplained(Next(w, step), t) == Unexplained(w, t)
  {
    match step
    case Begin(h) =>
      AppendHandler(w.handlers, h, t);
      hide FlightsOf, RunsOf, LostOf;
    case Advance(i, reply) =>
      hide Unexplained, AdvanceHandler;
      if i < |w.handlers| {
        if w.handlers[i].Fire? {
          FireKeepsBooks(w, i, reply, t);
        } else if w.handlers[i].Schedule? {
          ScheduleKeepsBooks(w, i, reply, t);
        } else {
          WebhookKeepsBooks(w, i, reply, t);
        }
      }
    case NewOrder(id, tenant, units) =>
      hide FlightsOf, RunsOf, LostOf;
  }

  // ----- what was granted -----

  lemma PaidGrants(s: Store, k: nat, payment: Option<string>, t: string)
    requires Payable(s, k, payment)
    ensures Granted(PaidFor(s, k, payment), t) == Granted(s, t)
    ensures Limit(PaidFor(s, k, payment), t) >= Limit(s, t)
  {
    hide PaidUnits, PaymentTaken;
    PaidUpdate(s.orders, k, s.orders[k].(status := Paid, payment := payment), t);
  }

  lemma FailedGrants(s: Store, id: string, t: string)
    ensures Granted(MarkedFailed(s, id), t) == Granted(s, t)
    ensures Limit(MarkedFailed(s, id), t) == Limit(s, t)
  {
    hide PaidUnits, FindOrder;
    var k := FindOrder(s.orders, id);
    if k.Some? {
      PaidUpdate(s.orders, k.value, s.orders[k.value].(status := Failed), t);
    }
  }

  /** No step changes the granted quota that is not explained by paid orders, and none lowers the limit. */
  lemma NextKeepsGrants(w: World, step: Step, t: string)
    ensures Granted(Next(w, step).store, t) == Granted(w.store, t)
    ensures Limit(Next(w, step).store, t) >= Limit(w.store, t)
  {
    match step
    case Begin(h) =>
    case Advance(i, reply) =>
      if i < |w.handlers| {
        AdvanceKeepsGrants(w, i, reply, t);
      }
    case NewOrder(id, tenant, units) =>
      AppendOrder(w.store.orders, Order(id, tenant, units, Created, None), t);
      hide PaidUnits, FindOrder;
  }

  lemma AdvanceKeepsGrants(w: World, i: nat, reply: Reply, t: string)
    requires i < |w.handlers|
    ensures Granted(AdvanceHandler(w, i, reply).store, t) == Granted(w.store, t)
    ensures Limit(AdvanceHandler(w, i, reply).store, t) >= Limit(w.store, t)
  {
    hide PaidUnits, PaidFor, Payable, MarkedFailed, FindOrder, HasRoom, Known;
    match w.handlers[i]
    case CaptureWrite(k, payment) =>
      if Payable(w.store, k, payment) {
        PaidGrants(w.store, k, payment, t);
      }
    case PaymentFailed(order) => FailedGrants(w.store, order, t);
    case _ =>
  }

  // ----- runs -----

  ghost predicate WithinLimits(s: Store) {
    forall t :: Count(s, t) <= Limit(s, t)
  }

  lemma CountGrowsWithRoom(w: World, step: Step, t: string)
    ensures Count(Next(w, step).store, t) <= Count(w.store, t) || (HasRoom(w.store, t) && Count(Next(w, step).store, t) == Count(w.store, t) + 1)
  {
    hide FindOrder, Payable, MarkedFailed, Known;
    match step
    case Begin(h) =>
    case NewOrder(id, tenant, units) =>
    case Advance(i, reply) =>
      if i < |w.handlers| {
        match w.handlers[i]
        case Fire(e, stage) => FireCount(w, i, e, stage, reply, t);
        case PaymentFailed(order) => FailedCount(w.store, order, t);
        case _ =>
      }
  }

  lemma FailedCount(s: Store, id: string, t: string)
    ensures Count(MarkedFailed(s, id), t) == Count(s, t)
  {
  }

  lemma FireCount(w: World, i: nat, e: Execution, stage: FireStage, reply: Reply, t: string)
    requires i < |w.handlers|
    ensures var after := AdvanceFire(w, i, e, stage, reply);
            Count(after.store, t) <= Count(w.store, t) || (HasRoom(w.store, t) && Count(after.store, t) == Count(w.store, t) + 1)
  {
    hide Known;
  }

  lemma NextWithinLimits(w: World, step: Step)
    requires WithinLimits(w.store)
    ensures WithinLimits(Next(w, step).store)
  {
    hide Count, Limit, Next;
    forall t ensures Count(Next(w, step).store, t) <= Limit(Next(w, step).store, t) {
      CountGrowsWithRoom(w, step, t);
      NextKeepsGrants(w, step, t);
    }
  }

  ghost predicate IsRun(worlds: seq<World>, steps: seq<Step>) {
    && |worlds| == |steps| + 1
    && forall i :: 0 <= i < |steps| ==> worlds[i + 1] == Next(worlds[i], steps[i])
  }

  /** No recording of the run was misreported. */
  ghost predicate Honest(worlds: seq<World>, steps: seq<Step>) {
    forall i :: 0 <= i < |steps| && i < |worlds| ==> !Misreported(worlds[i], steps[i])
  }

  /** Nothing in flight yet, and at most as many runs recorded as counted. */
  ghost predicate Opening(w: World) {
    && w.handlers == [] && w.lost == [] && WithinLimits(w.store)
    && forall t :: RunsOf(w.store.executions, t) <= Count(w.store, t)
  }

  /** The bought quota has grown by five runs for every unit of the orders paid in between. */
  ghost predicate ExtraIsPaidFor(before: Store, after: Store, t: string) {
    PlanOf(after, t).extra == PlanOf(before, t).extra + RUNS_PER_UNIT * (PaidUnits(after.orders, t) - PaidUnits(before.orders, t))
  }

  /** Whatever is misreported, the limit is never exceeded and only paid orders add to it, each once. */
  lemma {:induction false} RunsStayWithinLimits(worlds: seq<World>, steps: seq<Step>, n: nat)
    requires IsRun(worlds, steps) && n < |worlds| && WithinLimits(worlds[0].store)
    ensures WithinLimits(worlds[n].store)
    ensures forall t :: ExtraIsPaidFor(worlds[0].store, worlds[n].store, t)
  {
    hide Next;
    if n > 0 {
      RunsStayWithinLimits(worlds, steps, n - 1);
      NextWithinLimits(worlds[n - 1], steps[n - 1]);
      hide PaidUnits, PlanOf, WithinLimits;
      forall t ensures ExtraIsPaidFor(worlds[0].store, worlds[n].store, t) {
        assert ExtraIsPaidFor(worlds[0].store, worlds[n - 1].store, t);
        NextKeepsGrants(worlds[n - 1], steps[n - 1], t);
      }
    }
  }

  lemma {:induction false} RunsKeepBooks(worlds: seq<World>, steps: seq<Step>, n: nat)
    requires IsRun(worlds, steps) && n < |worlds| && Opening(worlds[0]) && Honest(worlds, steps)
    ensures forall t :: Unexplained(worlds[n], t) == Unexplained(worlds[0], t) >= 0
  {
    hide Next, Misreported;
    if n > 0 {
      RunsKeepBooks(worlds, steps, n - 1);
      hide Unexplained;
      forall t ensures Unexplained(worlds[n], t) == Unexplained(worlds[n - 1], t) {
        NextKeepsBooks(worlds[n - 1], steps[n - 1], t);
      }
    }
  }

  /** Recorded runs and runs in flight stay covered by the counter, and the counter by the quota. */
  lemma RunsAreCovered(worlds: seq<World>, steps: seq<Step>, n: nat, t: string)
    requires IsRun(worlds, steps) && n < |worlds| && Opening(worlds[0]) && Honest(worlds, steps)
    ensures var s := worlds[n].store;
            RunsOf(s.executions, t) + FlightsOf(worlds[n].handlers, t) <= Count(s, t) <= Limit(s, t)
  {
    RunsKeepBooks(worlds, steps, n);
    RunsStayWithinLimits(worlds, steps, n);
    hide RunsOf, FlightsOf, Count, Limit;
    assert Unexplained(worlds[n], t) >= 0;
  }

  /** A misreported recording takes one run of its tenant out of the books. */
  lemma MisreportLosesARun(w: World, step: Step)
    requires Misreported(w, step)
    ensures var t := w.handlers[step.i].execution.tenant;
            Unexplained(Next(w, step), t) == Unexplained(w, t) - 1
  {
    hide FlightsOf, RunsOf, LostOf, Known;
    var e := w.handlers[step.i].execution;
    FlightsUpdate(w.handlers, step.i, Fire(e, Releasing), e.tenant);
    AppendRun(w.store.executions, e, e.tenant);
  }

  ghost predicate SameBooks(v: World, w: World) {
    forall t :: Unexplained(v, t) == Unexplained(w, t)
  }

  ghost predicate BooksKept(worlds: seq<World>) {
    forall n :: 0 <= n < |worlds| ==> SameBooks(worlds[n], worlds[0])
  }

  /** The books stay as they were in every state of a run exactly when no recording is misreported. */
  lemma BooksExact(worlds: seq<World>, steps: seq<Step>)
    requires IsRun(worlds, steps) && Opening(worlds[0])
    ensures BooksKept(worlds) <==> Honest(worlds, steps)
  {
    hide Unexplained, Next, Misreported, Opening;
    if Honest(worlds, steps) {
      forall n | 0 <= n < |worlds| ensures SameBooks(worlds[n], worlds[0]) {
        RunsKeepBooks(worlds, steps, n);
      }
    }
    if BooksKept(worlds) {
      forall i | 0 <= i < |steps| ensures !Misreported(worlds[i], steps[i]) {
        assert SameBooks(worlds[i], worlds[0]) && SameBooks(worlds[i + 1], worlds[0]);
        if Misreported(worlds[i], steps[i]) {
          MisreportShows(worlds[i], steps[i]);
        }
      }
    }
  }

  lemma MisreportShows(w: World, step: Step)
    requires Misreported(w, step)
    ensures !SameBooks(Next(w, step), w)
  {
    hide Unexplained;
    MisreportLosesARun(w, step);
  }

  /** From empty tables: the database records the run, the reply is lost, the handler gives the run back. */
  lemma MisreportedRunIsFree(e: Execution) returns (worlds: seq<World>, steps: seq<Step>)
    ensures IsRun(worlds, steps) && Opening(worlds[0]) && worlds[0].store == Store(map[], map[], [], [])
    ensures var s := worlds[|worlds| - 1].store;
            RunsOf(s.executions, e.tenant) == 1 && Count(s, e.tenant) == 0
  {
    var w0 := World(Store(map[], map[], [], []), [], []);
    var w1 := World(w0.store, [Fire(e, Consuming)], []);
    var w2, w3 := ConsumeAndStart(w1, e);
    var w4, w5 := RecordAndRelease(w3, e);
    worlds := [w0, w1, w2, w3, w4, w5];
    steps := [Begin(Fire(e, Consuming)), Advance(0, Works), Advance(0, Works), Advance(0, LostReply), Advance(0, Works)];
    hide AdvanceHandler;
    assert Next(w0, steps[0]) == w1;
  }

  lemma ConsumeAndStart(w: World, e: Execution) returns (v: World, u: World)
    requires w == World(Store(map[], map[], [], []), [Fire(e, Consuming)], [])
    ensures v == Next(w, Advance(0, Works)) && u == Next(v, Advance(0, Works))
    ensures u == World(Consumed(w.store, e.tenant), [Fire(e, Recording)], []) && Count(u.store, e.tenant) == 1
  {
    v := World(Consumed(w.store, e.tenant), [Fire(e, Starting)], []);
    u := World(Consumed(w.store, e.tenant), [Fire(e, Recording)], []);
  }

  lemma RecordAndRelease(w: World, e: Execution) returns (v: World, u: World)
    requires w.handlers == [Fire(e, Recording)] && w.store.executions == [] && e.tenant in w.store.counts && w.store.counts[e.tenant] == 1
    ensures v == Next(w, Advance(0, LostReply)) && u == Next(v, Advance(0, Works))
    ensures RunsOf(u.store.executions, e.tenant) == 1 && Count(u.store, e.tenant) == 0
  {
    v := w.(handlers := [Fire(e, Releasing)], store := Recorded(w.store, e));
    u := v.(handlers := [Fire(e, Ended)], store := Released(v.store, e.tenant));
    AppendRun([], e, e.tenant);
    assert [] + [e] == [e];
  }

  // ----- what is admitted -----

  /** A step that takes a run from the quota, if it is answered. */
  predicate Takes(w: World, step: Step, t: string) {
    && step.Advance? && step.reply != Fails && step.i < |w.handlers|
    && (w.handlers[step.i].Fire? || w.handlers[step.i].Schedule?) && w.handlers[step.i].execution.tenant == t
    && (w.handlers[step.i].Fire? ==> w.handlers[step.i].stage == Consuming)
  }

  /** Such a step counts one run while the counter is below the limit, and else leaves it. */
  lemma TakesExactly(w: World, step: Step, t: string)
    requires Takes(w, step, t)
    ensures Count(Next(w, step).store, t) == Count(w.store, t) + if Count(w.store, t) < Limit(w.store, t) then 1 else 0
  {
    hide Known;
  }

  /** In every interleaving only a tenant that has used up its quota is refused. */
  lemma RefusedOnlyWhenFull(worlds: seq<World>, steps: seq<Step>, n: nat, t: string)
    requires IsRun(worlds, steps) && n < |steps| && WithinLimits(worlds[0].store) && Takes(worlds[n], steps[n], t)
    ensures Count(worlds[n + 1].store, t) == Count(worlds[n].store, t) <==>
            Count(worlds[n].store, t) == Limit(worlds[n].store, t)
  {
    RunsStayWithinLimits(worlds, steps, n);
    hide Count, Limit, Next;
    assert Count(worlds[n].store, t) <= Limit(worlds[n].store, t);
    TakesExactly(worlds[n], steps[n], t);
  }

  function After(w: World, steps: seq<Step>): World {
    if steps == [] then w else Next(After(w, steps[..|steps| - 1]), steps[|steps| - 1])
  }

  lemma {:induction false} AfterBoth(w: World, a: seq<Step>, b: seq<Step>)
    ensures After(w, a + b) == After(After(w, a), b)
  {
    hide Next;
    if b == [] {
      assert a + b == a;
    } else {
      var n := |b| - 1;
      AfterBoth(w, a, b[..n]);
      assert (a + b)[..|a + b| - 1] == a + b[..n];
    }
  }

  lemma AfterTwo(w: World, a: Step, b: Step)
    ensures After(w, [a, b]) == Next(Next(w, a), b)
  {
    hide Next;
    var one, two := [a], [a, b];
    assert one[..0] == [] && two[..1] == one;
    assert After(w, one) == Next(w, a);
  }

  datatype Start = Start(execution: Execution, scheduled: bool)

  /** A start whose calls all work; its handler is the next one. */
  function StartSteps(s: Start, h: nat): seq<Step> {
    if s.scheduled then [Begin(Schedule(s.execution)), Advance(h, Works)]
    else [Begin(Fire(s.execution, Consuming)), Advance(h, Works)] + [Advance(h, Works), Advance(h, Works)]
  }

  function AllSteps(starts: seq<Start>, h: nat): seq<Step> {
    if starts == [] then []
    else
      var n := |starts| - 1;
      AllSteps(starts[..n], h) + StartSteps(starts[n], h + n)
  }

  function Executions(starts: seq<Start>): seq<Execution> {
    if starts == [] then []
    else Executions(starts[..|starts| - 1]) + [starts[|starts| - 1].execution]
  }

  /** One start with working replies: recorded and counted while there is quota left, else refused without a trace. */
  ghost predicate StartedOrRefused(w: World, v: World, e: Execution) {
    && |v.handlers| == |w.handlers| + 1 && v.lost == w.lost
    && Limit(v.store, e.tenant) == Limit(w.store, e.tenant)
    && if Count(w.store, e.tenant) < Limit(w.store, e.tenant) then
         v.store.executions == w.store.executions + [e] && Count(v.store, e.tenant) == Count(w.store, e.tenant) + 1
       else v.store == w.store
  }

  lemma Consumes(w: World, e: Execution)
    ensures var h := |w.handlers|;
            After(w, [Begin(Fire(e, Consuming)), Advance(h, Works)]) ==
              if Count(w.store, e.tenant) < Limit(w.store, e.tenant)
              then World(Consumed(w.store, e.tenant), w.handlers + [Fire(e, Starting)], w.lost)
              else World(w.store, w.handlers + [Fire(e, Ended)], w.lost)
  {
    AfterTwo(w, Begin(Fire(e, Consuming)), Advance(|w.handlers|, Works));
    hide After, Consumed, Count, Limit;
    var begun := w.(handlers := w.handlers + [Fire(e, Consuming)]);
    assert Next(w, Begin(Fire(e, Consuming))) == begun;
    assert begun.handlers[|w.handlers| := Fire(e, Starting)] == w.handlers + [Fire(e, Starting)];
    assert begun.handlers[|w.handlers| := Fire(e, Ended)] == w.handlers + [Fire(e, Ended)];
  }

  lemma StartsAndRecords(w: World, h: nat, e: Execution)
    requires |w.handlers| == h + 1 && w.handlers[h] == Fire(e, Starting) && !Known(w.store.executions, e.id)
    ensures After(w, [Advance(h, Works), Advance(h, Works)]) == World(Recorded(w.store, e), w.handlers[h := Fire(e, Ended)], w.lost)
  {
    AfterTwo(w, Advance(h, Works), Advance(h, Works));
    hide After, Known, Recorded;
    var u := With(w, h, Fire(e, Recording));
    assert Next(w, Advance(h, Works)) == u;
    assert u.handlers[h := Fire(e, Ended)] == w.handlers[h := Fire(e, Ended)];
  }

  lemma StaysEnded(w: World, h: nat, e: Execution)
    requires |w.handlers| == h + 1 && w.handlers[h] == Fire(e, Ended)
    ensures After(w, [Advance(h, Works), Advance(h, Works)]) == w
  {
    AfterTwo(w, Advance(h, Works), Advance(h, Works));
    hide After;
    assert Next(w, Advance(h, Works)) == w;
  }

  lemma ManualStart(w: World, e: Execution)
    requires !Known(w.store.executions, e.id)
    ensures StartedOrRefused(w, After(w, StartSteps(Start(e, false), |w.handlers|)), e)
  {
    var h := |w.handlers|;
    AfterBoth(w, [Begin(Fire(e, Consuming)), Advance(h, Works)], [Advance(h, Works), Advance(h, Works)]);
    Consumes(w, e);
    ConsumedCounts(w.store, e.tenant);
    RecordedCounts(Consumed(w.store, e.tenant), e);
    hide After, Known, Consumed, Count, Limit;
    if Count(w.store, e.tenant) < Limit(w.store, e.tenant) {
      StartsAndRecords(World(Consumed(w.store, e.tenant), w.handlers + [Fire(e, Starting)], w.lost), h, e);
    } else {
      StaysEnded(World(w.store, w.handlers + [Fire(e, Ended)], w.lost), h, e);
    }
  }

  lemma ScheduledStart(w: World, e: Execution)
    requires !Known(w.store.executions, e.id)
    ensures StartedOrRefused(w, After(w, StartSteps(Start(e, true), |w.handlers|)), e)
  {
    AfterTwo(w, Begin(Schedule(e)), Advance(|w.handlers|, Works));
    ConsumedCounts(w.store, e.tenant);
    var begun := w.(handlers := w.handlers + [Schedule(e)]);
    assert Next(w, Begin(Schedule(e))) == begun;
    hide Known, After, Consumed, Count, Limit, Next, StartSteps;
    assert StartSteps(Start(e, true), |w.handlers|) == [Begin(Schedule(e)), Advance(|w.handlers|, Works)] by { ScheduledSteps(e, |w.handlers|); }
    ScheduleAdvances(begun, |w.handlers|, e);
    RecordedCounts(Consumed(w.store, e.tenant), e);
  }

  lemma ScheduledSteps(e: Execution, h: nat)
    ensures StartSteps(Start(e, true), h) == [Begin(Schedule(e)), Advance(h, Works)]
  {
  }

  lemma ScheduleAdvances(w: World, h: nat, e: Execution)
    requires h < |w.handlers| && w.handlers[h] == Schedule(e) && !Known(w.store.executions, e.id)
    ensures Next(w, Advance(h, Works)) ==
            if Count(w.store, e.tenant) < Limit(w.store, e.tenant) then w.(store := Recorded(Consumed(w.store, e.tenant), e)) else w
  {
    hide Known, Recorded, Count, Limit;
    assert Consumed(w.store, e.tenant).executions == w.store.executions;
    hide Consumed;
  }

  lemma ConsumedCounts(s: Store, t: string)
    ensures Count(Consumed(s, t), t) == Count(s, t) + 1 && Limit(Consumed(s, t), t) == Limit(s, t)
    ensures Consumed(s, t).executions == s.executions
  {
  }

  lemma RecordedCounts(s: Store, e: Execution)
    ensures Count(Recorded(s, e), e.tenant) == Count(s, e.tenant) && Limit(Recorded(s, e), e.tenant) == Limit(s, e.tenant)
  {
  }

  /** New executions of one tenant, under different ids. */
  ghost predicate NewStarts(w: World, starts: seq<Start>, t: string) {
    && (forall i :: 0 <= i < |starts| ==> starts[i].execution.tenant == t && !Known(w.store.executions, starts[i].execution.id))
    && (forall i, j :: 0 <= i < j < |starts| ==> starts[i].execution.id != starts[j].execution.id)
  }

  function Min(a: nat, b: nat): nat {
    if a < b then a else b
  }

  /**
    From a world with `c` runs counted and a limit of `l`, however many starts arrive, manual or
    scheduled: exactly the first `l - c` are recorded and counted, and all others are refused.
   */
  lemma {:induction false} QuotaIsUsedUp(w: World, starts: seq<Start>, t: string)
    requires Count(w.store, t) <= Limit(w.store, t) && NewStarts(w, starts, t)
    ensures var v := After(w, AllSteps(starts, |w.handlers|));
            var taken := Min(|starts|, Limit(w.store, t) - Count(w.store, t));
            && v.store.executions == w.store.executions + Executions(starts[..taken])
            && Count(v.store, t) == Count(w.store, t) + taken && Limit(v.store, t) == Limit(w.store, t)
            && v.lost == w.lost && |v.handlers| == |w.handlers| + |starts|
  {
    hide Next, Count, Limit, Known, StartSteps;
    if starts == [] {
      assert w.store.executions + [] == w.store.executions;
    } else {
      var n := |starts| - 1;
      var h, room := |w.handlers|, Limit(w.store, t) - Count(w.store, t);
      FewerStarts(w, starts, n, t);
      QuotaIsUsedUp(w, starts[..n], t);
      var u := After(w, AllSteps(starts[..n], h));
      var taken := Min(n, room);
      assert starts[..n][..taken] == starts[..taken];
      StillNew(w, starts, t, u, taken);
      AfterBoth(w, AllSteps(starts[..n], h), StartSteps(starts[n], h + n));
      var e := starts[n].execution;
      if starts[n].scheduled {
        assert starts[n] == Start(e, true);
        ScheduledStart(u, e);
      } else {
        assert starts[n] == Start(e, false);
        ManualStart(u, e);
      }
      hide After, AllSteps;
      OneMoreStart(w, u, After(u, StartSteps(starts[n], h + n)), starts, t);
    }
  }

  lemma OneMoreStart(w: World, u: World, v: World, starts: seq<Start>, t: string)
    requires starts != [] && Count(w.store, t) <= Limit(w.store, t)
    requires var e := starts[|starts| - 1].execution; e.tenant == t && StartedOrRefused(u, v, e)
    requires var taken := Min(|starts| - 1, Limit(w.store, t) - Count(w.store, t));
             && u.store.executions == w.store.executions + Executions(starts[..taken])
             && Count(u.store, t) == Count(w.store, t) + taken && Limit(u.store, t) == Limit(w.store, t)
    ensures var taken := Min(|starts|, Limit(w.store, t) - Count(w.store, t));
            && v.store.executions == w.store.executions + Executions(starts[..taken])
            && Count(v.store, t) == Count(w.store, t) + taken && Limit(v.store, t) == Limit(w.store, t)
  {
    hide Count, Limit;
    var n := |starts| - 1;
    if n < Limit(w.store, t) - Count(w.store, t) {
      assert starts[..n + 1] == starts;
      var e := starts[n].execution;
      assert w.store.executions + Executions(starts[..n]) + [e] == w.store.executions + (Executions(starts[..n]) + [e]);
    }
  }

  /** A tenant that has never started or bought anything has five runs, none of them bought. */
  lemma NewTenantHasFive(w: World, starts: seq<Start>, t: string)
    requires t !in w.store.plans && t !in w.store.counts && NewStarts(w, starts, t)
    ensures PlanOf(w.store, t).extra == 0
    ensures After(w, AllSteps(starts, |w.handlers|)).store.executions ==
            w.store.executions + Executions(if |starts| <= 5 then starts else starts[..5])
  {
    hide Known, After, Next;
    QuotaIsUsedUp(w, starts, t);
    assert starts[..|starts|] == starts;
  }

  lemma FewerStarts(w: World, starts: seq<Start>, n: nat, t: string)
    requires NewStarts(w, starts, t) && n <= |starts|
    ensures NewStarts(w, starts[..n], t)
  {
  }

  lemma StillNew(w: World, starts: seq<Start>, t: string, u: World, taken: nat)
    requires starts != [] && NewStarts(w, starts, t) && taken <= |starts| - 1
    requires u.store.executions == w.store.executions + Executions(starts[..taken])
    ensures !Known(u.store.executions, starts[|starts| - 1].execution.id) && starts[|starts| - 1].execution.tenant == t
  {
    var id := starts[|starts| - 1].execution.id;
    ExecutionsFrom(starts[..taken]);
    forall e | e in u.store.executions ensures e.id != id {
      if e in w.store.executions {
        assert !Known(w.store.executions, id);
      } else {
        assert e in Executions(starts[..taken]);
        var i :| 0 <= i < taken && starts[..taken][i].execution == e;
        assert starts[i].execution == e;
      }
    }
  }

  lemma {:induction false} ExecutionsFrom(starts: seq<Start>)
    ensures forall e :: e in Executions(starts) ==> exists i :: 0 <= i < |starts| && starts[i].execution == e
  {
    if starts != [] {
      var n := |starts| - 1;
      ExecutionsFrom(starts[..n]);
      forall e | e in Executions(starts) ensures exists i :: 0 <= i < |starts| && starts[i].execution == e {
        if e in Executions(starts[..n]) {
          var i :| 0 <= i < n && starts[..n][i].execution == e;
          assert starts[i].execution == e;
        } else {
          assert starts[n].execution == e;
        }
      }
    }
  }

  // ----- what is credited -----

  ghost predicate OneOrder(s: Store, k: nat, id: string) {
    k < |s.orders| && s.orders[k].id == id && forall i :: 0 <= i < |s.orders| && i != k ==> s.orders[i].id != id
  }

  /** The two steps of a webhook whose calls work. */
  function CaptureSteps(id: string, payment: Option<string>, h: nat): seq<Step> {
    [Begin(CaptureRead(id, payment)), Advance(h, Works)] + [Advance(h, Works)]
  }

  /**
    A captured payment pays an order that is not paid yet, whether or not it failed before, and
    adds five runs for each of its units; a paid order is left alone. No other order or plan changes.
   */
  lemma CaptureCredits(w: World, k: nat, id: string, payment: Option<string>)
    requires OneOrder(w.store, k, id)
    requires payment.Some? ==> forall i :: 0 <= i < |w.store.orders| && i != k ==> w.store.orders[i].payment != payment
    ensures var s, v := w.store, After(w, CaptureSteps(id, payment, |w.handlers|)).store;
            var o := s.orders[k];
            && v.counts == s.counts && v.executions == s.executions && |v.orders| == |s.orders|
            && (forall i :: 0 <= i < |s.orders| && i != k ==> v.orders[i] == s.orders[i])
            && (o.status == Paid ==> v == s)
            && (o.status != Paid ==>
                  && v.orders[k] == o.(status := Paid, payment := payment)
                  && PlanOf(v, o.tenant) == PlanOf(s, o.tenant).(extra := PlanOf(s, o.tenant).extra + 5 * o.units)
                  && forall t :: t != o.tenant ==> PlanOf(v, t) == PlanOf(s, t))
  {
    CaptureEnds(w, k, id, payment);
    NotTaken(w.store.orders, k, payment);
    PaysOnly(w.store, k, payment);
    hide After, PaidFor, PaymentTaken, PlanOf;
  }

  /** A payment that already belongs to another order pays nothing. */
  lemma CaptureRefusesTaken(w: World, k: nat, id: string, payment: Option<string>, other: nat)
    requires OneOrder(w.store, k, id)
    requires other < |w.store.orders| && other != k && payment.Some? && w.store.orders[other].payment == payment
    ensures After(w, CaptureSteps(id, payment, |w.handlers|)).store == w.store
  {
    CaptureEnds(w, k, id, payment);
    hide After, PaidFor;
  }

  lemma CaptureEnds(w: World, k: nat, id: string, payment: Option<string>)
    requires OneOrder(w.store, k, id)
    ensures After(w, CaptureSteps(id, payment, |w.handlers|)).store ==
            if Payable(w.store, k, payment) then PaidFor(w.store, k, payment) else w.store
  {
    var h := |w.handlers|;
    var first := [Begin(CaptureRead(id, payment)), Advance(h, Works)];
    AfterBoth(w, first, [Advance(h, Works)]);
    CaptureReads(w, k, id, payment);
    var u := After(w, first);
    assert [Advance(h, Works)][..0] == [];
    assert After(u, [Advance(h, Works)]) == Next(u, Advance(h, Works));
    hide FindOrder, After, Next;
    CaptureWrites(u, h, k, payment);
  }

  lemma CaptureWrites(u: World, h: nat, k: nat, payment: Option<string>)
    requires h < |u.handlers| && k < |u.store.orders|
    requires u.handlers[h] == if u.store.orders[k].status == Paid then Finished else CaptureWrite(k, payment)
    ensures Next(u, Advance(h, Works)).store == if Payable(u.store, k, payment) then PaidFor(u.store, k, payment) else u.store
  {
    hide PaidFor, PaymentTaken;
  }

  lemma CaptureReads(w: World, k: nat, id: string, payment: Option<string>)
    requires OneOrder(w.store, k, id)
    ensures var h := |w.handlers|;
            After(w, [Begin(CaptureRead(id, payment)), Advance(h, Works)]) ==
              World(w.store, w.handlers + [if w.store.orders[k].status == Paid then Finished else CaptureWrite(k, payment)], w.lost)
  {
    var h := |w.handlers|;
    AfterTwo(w, Begin(CaptureRead(id, payment)), Advance(h, Works));
    FindIs(w.store.orders, k, id);
    hide FindOrder, After;
    var begun := w.(handlers := w.handlers + [CaptureRead(id, payment)]);
    assert Next(w, Begin(CaptureRead(id, payment))) == begun;
    assert forall x :: begun.handlers[h := x] == w.handlers + [x];
  }

  lemma NotTaken(orders: seq<Order>, k: nat, payment: Option<string>)
    requires payment.Some? ==> forall i :: 0 <= i < |orders| && i != k ==> orders[i].payment != payment
    ensures !PaymentTaken(orders, k, payment)
  {
  }

  lemma PaysOnly(s: Store, k: nat, payment: Option<string>)
    requires k < |s.orders|
    ensures var v, o := PaidFor(s, k, payment), s.orders[k];
            && v.counts == s.counts && v.executions == s.executions && v.orders == s.orders[k := o.(status := Paid, payment := payment)]
            && PlanOf(v, o.tenant) == PlanOf(s, o.tenant).(extra := PlanOf(s, o.tenant).extra + 5 * o.units)
            && forall t :: t != o.tenant ==> PlanOf(v, t) == PlanOf(s, t)
  {
  }

  lemma {:induction false} FindIs(orders: seq<Order>, k: nat, id: string)
    requires k < |orders| && orders[k].id == id && forall i :: 0 <= i < |orders| && i != k ==> orders[i].id != id
    ensures FindOrder(orders, id) == Some(k)
  {
    var n := |orders| - 1;
    if k < n {
      assert orders[n].id != id;
      FindIs(orders[..n], k, id);
    }
  }

  /** A failed payment closes an order that is still open, and nothing else. */
  lemma FailureCloses(w: World, k: nat, id: string)
    requires OneOrder(w.store, k, id)
    ensures var s, v := w.store, After(w, [Begin(PaymentFailed(id)), Advance(|w.handlers|, Works)]).store;
            v == s.(orders := s.orders[k := s.orders[k].(status := if s.orders[k].status == Created then Failed else s.orders[k].status)])
  {
    var h := |w.handlers|;
    AfterTwo(w, Begin(PaymentFailed(id)), Advance(h, Works));
    FindIs(w.store.orders, k, id);
    hide FindOrder, After;
    if w.store.orders[k].status != Created {
      assert w.store.orders[k := w.store.orders[k].(status := w.store.orders[k].status)] == w.store.orders;
    }
  }
}
