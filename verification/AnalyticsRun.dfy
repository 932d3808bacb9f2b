/**
 Whole runs of the analytics: rows arrive on the current day, orders are edited and change their status,
 midnight passes, and the nightly job runs for the day before.  Every row refers to a known tenant (or
 shipment); nothing keeps a shipment from being delivered twice.

 A request that edits an order or changes its status checks the status first and writes later, with no
 lock and no second check, so each is split into those two.
 */
module AnalyticsRun {
  import opened Options
  import opened AnalyticsTables
  import opened SnapshotJob
  import opened MergeSeries
  import opened AnalyticsQuery

  type RequestId = nat

  /** An order before and after an update. */
  datatype Edit = Edit(before: Order, after: Order)

  /** The fields an update request gives; `items` is the value of its new line items. */
  datatype Request = Request(mode: Option<PaymentMode>, codAmount: Option<int>, value: Option<int>, items: Option<int>)

  /** What a request that has passed its check will write; an edit has read the payment mode. */
  datatype Open =
    | Moving(id: nat, status: OrderStatus)
    | Editing(id: nat, readMode: PaymentMode, request: Request)

  /**
   `done` holds the days whose job has run, `open` the requests between their check and their write, and
   `edits` the updates of each day's orders since the last job run for that day.
   */
  datatype World = World(db: Db, today: Day, snapshots: Snapshots, done: set<Day>, open: map<RequestId, Open>, edits: seq<Edit>)

  /** A JobRun carries the snapshot table the job leaves behind. */
  datatype Step =
    | AddTenant(tenant: TenantId)
    | AddOrder(order: Order)
    | OpenMove(r: RequestId, id: nat, status: OrderStatus)
    | OpenEdit(r: RequestId, id: nat, request: Request)
    | Write(r: RequestId)
    | Abort(r: RequestId)
    | AddShipment(shipment: Shipment)
    | AddDelivery(id: nat)
    | AddNdr(tenant: TenantId)
    | AddRto(tenant: TenantId)
    | AddInvoice(tenant: TenantId, total: int)
    | Midnight
    | JobRun(after: Snapshots)

  /** An order that may be edited. */
  predicate Editable(status: OrderStatus) {
    status == Pending || status == Processing
  }

  /**
   The status changes some path makes: the transition table, the API's cancellation, and the two writes
   of ready_to_ship, when a booking is cancelled or made in the sandbox, that look at no status.
   */
  predicate CanMove(before: OrderStatus, after: OrderStatus) {
    match after
    case Pending => false
    case Processing => before == Pending
    case ReadyToShip => true
    case Shipped => before == ReadyToShip
    case Cancelled => before == Pending || before == Processing || before == ReadyToShip
  }

  /** An update: new items set the value, and the amount to collect if the order was read as cod and none is given. */
  function Edited(o: Order, readMode: PaymentMode, request: Request): Order {
    var newValue := if request.items.Some? then request.items else request.value;
    var newCod := if request.items.Some? && readMode == Cod && request.codAmount.None? then request.items else request.codAmount;
    o.(mode := request.mode.GetOr(o.mode),
       codAmount := if newCod.Some? then newCod else o.codAmount,
       value := if newValue.Some? then newValue else o.value)
  }

  /** What a write makes of its order. */
  function Written(o: Order, x: Open): Order {
    match x
    case Moving(_, status) => o.(status := status)
    case Editing(_, readMode, request) => Edited(o, readMode, request)
  }

  ghost predicate Enabled(w: World, step: Step)
    requires WellFormed(w.db)
  {
    match step
    case AddTenant(t) => t != SENTINEL && t !in w.db.tenants
    case AddOrder(o) => o.tenant in w.db.tenants && o.day == w.today && o.status == Pending
    case OpenMove(r, id, status) => r !in w.open && id < |w.db.orders| && CanMove(w.db.orders[id].status, status)
    case OpenEdit(r, id, _) => r !in w.open && id < |w.db.orders| && Editable(w.db.orders[id].status)
    case Write(r) => r in w.open && w.open[r].id < |w.db.orders|
    case Abort(r) => r in w.open
    case AddShipment(s) => s.tenant in w.db.tenants && s.day == w.today
    case AddDelivery(id) => id < |w.db.shipments|
    case AddNdr(t) => t in w.db.tenants
    case AddRto(t) => t in w.db.tenants
    case AddInvoice(t, _) => t in w.db.tenants
    case Midnight => true
    case JobRun(after) => Upserted(w.snapshots, after, w.db, w.today - 1)
  }

  function NextDb(w: World, step: Step): Db {
    var db := w.db;
    match step
    case AddTenant(t) => db.(tenants := db.tenants + [t])
    case AddOrder(o) => db.(orders := db.orders + [o])
    case Write(r) =>
      if r in w.open && w.open[r].id < |db.orders| then
        db.(orders := db.orders[w.open[r].id := Written(db.orders[w.open[r].id], w.open[r])])
      else db
    case AddShipment(s) => db.(shipments := db.shipments + [s])
    case AddDelivery(id) => db.(deliveries := db.deliveries + [Delivery(id, w.today)])
    case AddNdr(t) => db.(ndrs := db.ndrs + [Incident(t, w.today)])
    case AddRto(t) => db.(rtos := db.rtos + [Incident(t, w.today)])
    case AddInvoice(t, total) => db.(invoices := db.invoices + [AnalyticsTables.Invoice(t, w.today, total)])
    case _ => db
  }

  /** The write of an update. */
  predicate IsEdit(w: World, step: Step) {
    step.Write? && step.r in w.open && w.open[step.r].Editing? && w.open[step.r].id < |w.db.orders|
  }

  function EditedId(w: World, step: Step): (id: nat)
    requires IsEdit(w, step)
    ensures id < |w.db.orders|
  {
    w.open[step.r].id
  }

  /** The updates but those of a day's orders. */
  function Since(edits: seq<Edit>, d: Day): seq<Edit> {
    if |edits| == 0 then []
    else
      var e := edits[|edits| - 1];
      Since(edits[..|edits| - 1], d) + if e.before.day == d then [] else [e]
  }

  function Next(w: World, step: Step): World {
    match step
    case Midnight => w.(today := w.today + 1)
    case JobRun(after) =>
      w.(snapshots := after, done := w.done + {w.today - 1}, edits := Since(w.edits, w.today - 1))
    case OpenMove(r, id, status) => w.(open := w.open[r := Moving(id, status)])
    case OpenEdit(r, id, request) =>
      if id < |w.db.orders| then w.(open := w.open[r := Editing(id, w.db.orders[id].mode, request)]) else w
    case Write(r) =>
      w.(db := NextDb(w, step),
         open := w.open - {r},
         edits :=
           if IsEdit(w, step) then w.edits + [Edit(w.db.orders[w.open[r].id], Written(w.db.orders[w.open[r].id], w.open[r]))]
           else w.edits)
    case Abort(r) => w.(open := w.open - {r})
    case _ => w.(db := NextDb(w, step))
  }

  const EMPTY_TABLES := Db([], [], [], [], [], [], [])

  function Start(today: Day): World {
    World(EMPTY_TABLES, today, map[], {}, map[], [])
  }

  ghost predicate IsRun(w: World, steps: seq<Step>)
    decreases |steps|
  {
    steps == [] || (WellFormed(w.db) && Enabled(w, steps[0]) && IsRun(Next(w, steps[0]), steps[1..]))
  }

  function After(w: World, steps: seq<Step>): World
    decreases |steps|
  {
    if steps == [] then w else After(Next(w, steps[0]), steps[1..])
  }

  /** An update is let through for a pending or processing order only; which statuses an order of each status can get. */
  lemma StatusChecks(w: World, r: RequestId, id: nat, request: Request, status: OrderStatus)
    requires WellFormed(w.db) && id < |w.db.orders| && r !in w.open
    ensures var now := w.db.orders[id].status;
      && (Enabled(w, OpenEdit(r, id, request)) <==> now in {Pending, Processing})
      && (Enabled(w, OpenMove(r, id, status)) <==>
           status in match now
             case Pending => {Processing, ReadyToShip, Cancelled}
             case Processing => {ReadyToShip, Cancelled}
             case ReadyToShip => {ReadyToShip, Shipped, Cancelled}
             case Shipped => {ReadyToShip}
             case Cancelled => {ReadyToShip})
  {
  }

  // ---------- What updates add up to ----------

  /** What an update changes of a metric. */
  function Change(e: Edit, m: Metric): Fact {
    Fact(e.before.tenant, e.before.day, OrderFact(e.after, m).amount - OrderFact(e.before, m).amount)
  }

  function Changes(edits: seq<Edit>, m: Metric): seq<Fact> {
    seq(|edits|, i requires 0 <= i < |edits| => Change(edits[i], m))
  }

  function EditSum(edits: seq<Edit>, scope: TenantId, d: Day, m: Metric): int {
    Total(Changes(edits, m), scope, d)
  }

  lemma EditSumSnoc(edits: seq<Edit>, e: Edit, scope: TenantId, d: Day, m: Metric)
    ensures EditSum(edits + [e], scope, d, m) ==
      EditSum(edits, scope, d, m) + if InScope(Change(e, m), scope, d) then Change(e, m).amount else 0
  {
    assert Changes(edits + [e], m) == Changes(edits, m) + [Change(e, m)];
    TotalOfLonger(Changes(edits, m), Change(e, m), scope, d);
  }

  /** A job run forgets the updates of its day and no others. */
  lemma {:induction false} SinceSum(edits: seq<Edit>, dropped: Day, scope: TenantId, d: Day, m: Metric)
    ensures EditSum(Since(edits, dropped), scope, d, m) == if d == dropped then 0 else EditSum(edits, scope, d, m)
    decreases |edits|
  {
    if |edits| > 0 {
      var front, e := edits[..|edits| - 1], edits[|edits| - 1];
      SinceSum(front, dropped, scope, d, m);
      assert front + [e] == edits;
      EditSumSnoc(front, e, scope, d, m);
      if e.before.day == dropped {
        assert Since(edits, dropped) == Since(front, dropped);
      } else {
        EditSumSnoc(Since(front, dropped), e, scope, d, m);
      }
    }
  }

  lemma {:induction false} SinceFrom(edits: seq<Edit>, d: Day, tenants: seq<TenantId>)
    requires forall e :: e in edits ==> e.before.tenant in tenants
    ensures forall e :: e in Since(edits, d) ==> e.before.tenant in tenants
    decreases |edits|
  {
    if |edits| > 0 {
      SinceFrom(edits[..|edits| - 1], d, tenants);
    }
  }

  lemma {:induction false} NoChangesNoSum(edits: seq<Edit>, scope: TenantId, d: Day, m: Metric)
    requires forall i :: 0 <= i < |edits| ==> Change(edits[i], m).amount == 0
    ensures EditSum(edits, scope, d, m) == 0
    decreases |edits|
  {
    if |edits| > 0 {
      var front := edits[..|edits| - 1];
      NoChangesNoSum(front, scope, d, m);
      assert front + [edits[|edits| - 1]] == edits;
      EditSumSnoc(front, edits[|edits| - 1], scope, d, m);
    }
  }

  lemma {:induction false} TotalUpdate(facts: seq<Fact>, i: nat, f: Fact, scope: TenantId, d: Day)
    requires i < |facts| && f.tenant == facts[i].tenant && f.day == facts[i].day
    ensures Total(facts[i := f], scope, d) ==
      Total(facts, scope, d) + if InScope(f, scope, d) then f.amount - facts[i].amount else 0
    decreases |facts|
  {
    var n := |facts| - 1;
    if i == n {
      assert facts[i := f][..n] == facts[..n];
    } else {
      TotalUpdate(facts[..n], i, f, scope, d);
      assert facts[i := f][..n] == facts[..n][i := f];
    }
  }

  // ---------- What a step does to the facts ----------

  /** One more fact of today, or none. */
  ghost predicate Grows(facts: seq<Fact>, facts': seq<Fact>, db: Db, today: Day) {
    || facts' == facts
    || (|facts'| == |facts| + 1 && facts' == facts + [facts'[|facts|]]
        && facts'[|facts|].day == today && facts'[|facts|].tenant in db.tenants)
  }

  lemma StepGrows(w: World, step: Step, m: Metric)
    requires WellFormed(w.db) && KnownTenants(FactsOf(w.db, ShipmentsCount), w.db.tenants) && Enabled(w, step)
    requires !IsEdit(w, step)
    ensures WellFormed(NextDb(w, step))
    ensures Grows(FactsOf(w.db, m), FactsOf(NextDb(w, step), m), w.db, w.today)
  {
    var db, db' := w.db, NextDb(w, step);
    assert WellFormed(db');
    var facts, facts' := FactsOf(db, m), FactsOf(db', m);
    if |facts'| == |facts| {
      assert facts' == facts;
    } else {
      assert facts' == facts + [facts'[|facts|]];
      if step.AddDelivery? {
        assert FactsOf(db, ShipmentsCount)[step.id].tenant in db.tenants;
      }
    }
  }

  /** An update of an order keeps its tenant and day, and only changes amounts. */
  lemma EditUpdates(w: World, step: Step, m: Metric)
    requires WellFormed(w.db) && Enabled(w, step) && IsEdit(w, step)
    ensures WellFormed(NextDb(w, step))
    ensures var facts, facts' := FactsOf(w.db, m), FactsOf(NextDb(w, step), m);
      var e := Next(w, step).edits[|w.edits|];
      && Next(w, step).edits == w.edits + [e] && e.before == w.db.orders[EditedId(w, step)]
      && if m in {OrdersCount, CodAmount, PrepaidAmount}
         then EditedId(w, step) < |facts| && facts[EditedId(w, step)] == OrderFact(e.before, m)
              && facts' == facts[EditedId(w, step) := OrderFact(e.after, m)]
         else facts' == facts && Change(e, m).amount == 0
  {
  }

  // ---------- What every step keeps ----------

  /** Facts are of known tenants and not of the future. */
  ghost predicate Sound(facts: seq<Fact>, tenants: seq<TenantId>, today: Day) {
    KnownTenants(facts, tenants) && forall i :: 0 <= i < |facts| ==> facts[i].day <= today
  }

  ghost predicate FactsOk(db: Db, today: Day, m: Metric)
    requires WellFormed(db)
  {
    Sound(FactsOf(db, m), db.tenants, today)
  }

  /** The snapshot of a day and the updates since make up what the job would write now. */
  predicate Balanced(w: World, scope: TenantId, d: Day, m: Metric)
    requires WellFormed(w.db)
  {
    SnapshotValue(w.snapshots, scope, d, m) + EditSum(w.edits, scope, d, m) == JobValue(w.db, scope, d, m)
  }

  ghost predicate Inv(w: World) {
    && WellFormed(w.db)
    && Distinct(w.db.tenants) && SENTINEL !in w.db.tenants
    && (forall m :: FactsOk(w.db, w.today, m))
    && (forall key: (TenantId, Day) :: key in w.snapshots ==> key.0 == SENTINEL || key.0 in w.db.tenants)
    && (forall d :: d in w.done ==> d < w.today)
    && (forall e :: e in w.edits ==> e.before.tenant in w.db.tenants)
    && (forall scope, d, m :: d in w.done && (scope == SENTINEL || scope in w.db.tenants) ==> Balanced(w, scope, d, m))
  }

  lemma StartInv(today: Day)
    ensures Inv(Start(today))
  {
  }

  lemma InvHasForeignKeys(w: World)
    requires Inv(w)
    ensures ForeignKeys(w.db)
  {
    forall m ensures KnownTenants(FactsOf(w.db, m), w.db.tenants) {
      assert FactsOk(w.db, w.today, m);
    }
  }

  /** A fact of another day adds nothing to the totals of a day. */
  lemma GrowingKeepsTotal(facts: seq<Fact>, facts': seq<Fact>, db: Db, today: Day, scope: TenantId, d: Day)
    requires Grows(facts, facts', db, today) && d != today
    ensures Total(facts', scope, d) == Total(facts, scope, d)
  {
  }

  lemma {:induction false} GrowingKeepsTenantSum(tenants: seq<TenantId>, facts: seq<Fact>, facts': seq<Fact>, db: Db, today: Day, d: Day)
    requires Grows(facts, facts', db, today) && d != today
    ensures TenantSum(tenants, facts', d) == TenantSum(tenants, facts, d)
    decreases |tenants|
  {
    if |tenants| > 0 {
      GrowingKeepsTenantSum(tenants[..|tenants| - 1], facts, facts', db, today, d);
      GrowingKeepsTotal(facts, facts', db, today, tenants[|tenants| - 1], d);
    }
  }

  /** Rows that arrive today change no past day's job row. */
  lemma StepKeepsPast(w: World, step: Step, scope: TenantId, d: Day, m: Metric)
    requires Inv(w) && Enabled(w, step) && !step.AddTenant? && !IsEdit(w, step) && d < w.today
    ensures WellFormed(NextDb(w, step))
    ensures JobValue(NextDb(w, step), scope, d, m) == JobValue(w.db, scope, d, m)
  {
    var db' := NextDb(w, step);
    assert FactsOk(w.db, w.today, ShipmentsCount);
    StepGrows(w, step, m);
    GrowingKeepsTotal(FactsOf(w.db, m), FactsOf(db', m), w.db, w.today, scope, d);
    GrowingKeepsTenantSum(w.db.tenants, FactsOf(w.db, m), FactsOf(db', m), w.db, w.today, d);
    JobValueOf(w.db, scope, d, m);
    JobValueOf(db', scope, d, m);
  }

  lemma {:induction false} StrangerHasNoTotal(facts: seq<Fact>, tenants: seq<TenantId>, t: TenantId, d: Day)
    requires KnownTenants(facts, tenants) && t !in tenants && t != SENTINEL
    ensures Total(facts, t, d) == 0
    decreases |facts|
  {
    if |facts| > 0 {
      var front := facts[..|facts| - 1];
      assert forall i :: 0 <= i < |front| ==> front[i] == facts[i];
      StrangerHasNoTotal(front, tenants, t, d);
    }
  }

  lemma SameFacts(db: Db, t: TenantId, m: Metric)
    requires WellFormed(db)
    ensures FactsOf(db.(tenants := db.tenants + [t]), m) == FactsOf(db, m)
  {
  }

  /** A new tenant has no rows yet: it changes nobody's job row and its own is zero. */
  lemma NewTenantKeepsPast(w: World, t: TenantId, scope: TenantId, d: Day, m: Metric)
    requires Inv(w) && t != SENTINEL && t !in w.db.tenants
    ensures JobValue(w.db.(tenants := w.db.tenants + [t]), scope, d, m) == JobValue(w.db, scope, d, m)
    ensures JobValue(w.db, t, d, m) == 0
  {
    var db' := w.db.(tenants := w.db.tenants + [t]);
    assert FactsOk(w.db, w.today, m);
    SameFacts(w.db, t, m);
    TenantSumSnoc(w.db.tenants, t, FactsOf(w.db, m), d);
    hide FactsOf;
    hide TenantSum;
    hide Total;
    hide JobValue;
    StrangerHasNoTotal(FactsOf(w.db, m), w.db.tenants, t, d);
    JobValueOf(w.db, scope, d, m);
    JobValueOf(db', scope, d, m);
    JobValueOf(w.db, t, d, m);
  }

  lemma JobIsTotal(db: Db, scope: TenantId, d: Day, m: Metric)
    requires WellFormed(db) && Distinct(db.tenants) && SENTINEL !in db.tenants && KnownTenants(FactsOf(db, m), db.tenants)
    ensures JobValue(db, scope, d, m) ==
      if m == RevenueAmount && scope != SENTINEL then 0 else Total(FactsOf(db, m), scope, d)
  {
    hide FactsOf;
    hide JobValue;
    JobValueOf(db, scope, d, m);
    TenantsPartition(db.tenants, FactsOf(db, m), d);
    NoOrphans(FactsOf(db, m), db.tenants, d);
  }

  /** An update moves the job's row by what it changes. */
  lemma EditMovesJobValue(w: World, step: Step, scope: TenantId, d: Day, m: Metric)
    requires Inv(w) && Enabled(w, step) && IsEdit(w, step)
    ensures WellFormed(NextDb(w, step))
    ensures JobValue(NextDb(w, step), scope, d, m) - JobValue(w.db, scope, d, m) ==
      EditSum(Next(w, step).edits, scope, d, m) - EditSum(w.edits, scope, d, m)
  {
    var db' := NextDb(w, step);
    EditUpdates(w, step, m);
    StepKeepsFacts(w, step, m);
    var e := Next(w, step).edits[|w.edits|];
    var facts := FactsOf(w.db, m);
    assert FactsOk(w.db, w.today, m);
    JobIsTotal(w.db, scope, d, m);
    JobIsTotal(db', scope, d, m);
    EditSumSnoc(w.edits, e, scope, d, m);
    if m in {OrdersCount, CodAmount, PrepaidAmount} {
      TotalUpdate(facts, EditedId(w, step), OrderFact(e.after, m), scope, d);
    }
  }

  lemma UpsertedValue(before: Snapshots, after: Snapshots, db: Db, day: Day, scope: TenantId, d: Day, m: Metric)
    requires WellFormed(db) && SENTINEL !in db.tenants && Upserted(before, after, db, day)
    requires scope == SENTINEL || scope in db.tenants
    ensures SnapshotValue(after, scope, d, m) ==
      if d == day then JobValue(db, scope, d, m) else SnapshotValue(before, scope, d, m)
  {
  }

  lemma JobRunKeepsFits(w: World, after: Snapshots, scope: TenantId, d: Day, m: Metric)
    requires Inv(w) && Enabled(w, JobRun(after))
    requires d in Next(w, JobRun(after)).done && (scope == SENTINEL || scope in w.db.tenants)
    ensures Balanced(Next(w, JobRun(after)), scope, d, m)
  {
    hide EditSum;
    hide JobValue;
    hide SnapshotValue;
    hide Upserted;
    hide FactsOk;
    UpsertedValue(w.snapshots, after, w.db, w.today - 1, scope, d, m);
    SinceSum(w.edits, w.today - 1, scope, d, m);
    if d != w.today - 1 {
      assert Balanced(w, scope, d, m);
    }
  }

  lemma AddTenantKeepsFits(w: World, t: TenantId, scope: TenantId, d: Day, m: Metric)
    requires Inv(w) && Enabled(w, AddTenant(t))
    requires d in w.done && (scope == SENTINEL || scope in w.db.tenants + [t])
    ensures Balanced(Next(w, AddTenant(t)), scope, d, m)
  {
    hide EditSum;
    hide JobValue;
    NewTenantKeepsPast(w, t, scope, d, m);
    if scope == t {
      StrangerHasNoEdits(w, t, d, m);
    } else {
      assert Balanced(w, scope, d, m);
    }
  }

  lemma NextParts(w: World, step: Step)
    requires !step.JobRun?
    ensures Next(w, step).db == NextDb(w, step) && Next(w, step).snapshots == w.snapshots
    ensures !IsEdit(w, step) ==> Next(w, step).edits == w.edits
  {
  }

  lemma RowsKeepFits(w: World, step: Step, scope: TenantId, d: Day, m: Metric)
    requires Inv(w) && Enabled(w, step) && !step.JobRun? && !step.AddTenant?
    requires d in w.done && (scope == SENTINEL || scope in w.db.tenants)
    ensures WellFormed(Next(w, step).db) && Balanced(Next(w, step), scope, d, m)
  {
    hide EditSum;
    hide JobValue;
    hide SnapshotValue;
    hide FactsOk;
    hide Next;
    hide NextDb;
    NextParts(w, step);
    assert Balanced(w, scope, d, m);
    if IsEdit(w, step) {
      EditMovesJobValue(w, step, scope, d, m);
    } else {
      StepKeepsPast(w, step, scope, d, m);
    }
  }

  lemma StepKeepsFits(w: World, step: Step, scope: TenantId, d: Day, m: Metric)
    requires Inv(w) && Enabled(w, step)
    requires var w' := Next(w, step); d in w'.done && (scope == SENTINEL || scope in w'.db.tenants)
    ensures WellFormed(Next(w, step).db) && Balanced(Next(w, step), scope, d, m)
  {
    if step.JobRun? {
      JobRunKeepsFits(w, step.after, scope, d, m);
    } else if step.AddTenant? {
      AddTenantKeepsFits(w, step.tenant, scope, d, m);
    } else {
      RowsKeepFits(w, step, scope, d, m);
    }
  }

  lemma StrangerHasNoEdits(w: World, t: TenantId, d: Day, m: Metric)
    requires Inv(w) && t != SENTINEL && t !in w.db.tenants
    ensures EditSum(w.edits, t, d, m) == 0
  {
    assert forall i :: 0 <= i < |w.edits| ==> w.edits[i] in w.edits;
    StrangerHasNoTotal(Changes(w.edits, m), w.db.tenants, t, d);
  }

  lemma GrowingStaysSound(facts: seq<Fact>, facts': seq<Fact>, db: Db, today: Day)
    requires Sound(facts, db.tenants, today) && Grows(facts, facts', db, today)
    ensures Sound(facts', db.tenants, today)
  {
  }

  lemma LaterStaysSound(facts: seq<Fact>, tenants: seq<TenantId>, tenants': seq<TenantId>, today: Day, today': Day)
    requires Sound(facts, tenants, today) && today <= today' && forall t :: t in tenants ==> t in tenants'
    ensures Sound(facts, tenants', today')
  {
  }

  lemma StepKeepsFacts(w: World, step: Step, m: Metric)
    requires Inv(w) && Enabled(w, step)
    ensures WellFormed(Next(w, step).db) && FactsOk(Next(w, step).db, Next(w, step).today, m)
  {
    hide Balanced;
    hide FactsOf;
    assert FactsOk(w.db, w.today, m) && FactsOk(w.db, w.today, ShipmentsCount);
    var w' := Next(w, step);
    if IsEdit(w, step) {
      EditUpdates(w, step, m);
    } else {
      StepGrows(w, step, m);
      GrowingStaysSound(FactsOf(w.db, m), FactsOf(NextDb(w, step), m), w.db, w.today);
      LaterStaysSound(FactsOf(w'.db, m), w.db.tenants, w'.db.tenants, w.today, w'.today);
    }
  }

  lemma StepKeepsRest(w: World, step: Step)
    requires Inv(w) && Enabled(w, step)
    ensures var w' := Next(w, step);
      && Distinct(w'.db.tenants) && SENTINEL !in w'.db.tenants
      && (forall key: (TenantId, Day) :: key in w'.snapshots ==> key.0 == SENTINEL || key.0 in w'.db.tenants)
      && (forall d :: d in w'.done ==> d < w'.today)
  {
    hide Balanced;
    hide FactsOk;
  }

  lemma StepKeepsEdits(w: World, step: Step)
    requires Inv(w) && Enabled(w, step)
    ensures forall e :: e in Next(w, step).edits ==> e.before.tenant in Next(w, step).db.tenants
  {
    hide Balanced;
    hide Upserted;
    SinceFrom(w.edits, w.today - 1, w.db.tenants);
    if IsEdit(w, step) {
      KnownOrder(w, EditedId(w, step));
    }
    hide FactsOk;
  }

  lemma KnownOrder(w: World, i: nat)
    requires Inv(w) && i < |w.db.orders|
    ensures w.db.orders[i].tenant in w.db.tenants
  {
    assert FactsOk(w.db, w.today, OrdersCount);
    assert FactsOf(w.db, OrdersCount)[i].tenant == w.db.orders[i].tenant;
  }

  lemma StepKeepsInv(w: World, step: Step)
    requires Inv(w) && Enabled(w, step)
    ensures Inv(Next(w, step))
  {
    var w' := Next(w, step);
    forall m ensures WellFormed(w'.db) && FactsOk(w'.db, w'.today, m) {
      StepKeepsFacts(w, step, m);
    }
    assert FactsOk(w'.db, w'.today, OrdersCount);
    forall scope, d, m | d in w'.done && (scope == SENTINEL || scope in w'.db.tenants) ensures Balanced(w', scope, d, m) {
      StepKeepsFits(w, step, scope, d, m);
    }
    StepKeepsRest(w, step);
    StepKeepsEdits(w, step);
    hide FactsOk;
    hide Balanced;
    hide Next;
    hide WellFormed;
  }

  lemma {:induction false} RunKeepsInv(w: World, steps: seq<Step>)
    requires Inv(w) && IsRun(w, steps)
    ensures Inv(After(w, steps))
    decreases |steps|
  {
    if steps != [] {
      StepKeepsInv(w, steps[0]);
      RunKeepsInv(Next(w, steps[0]), steps[1..]);
    }
  }

  /** Updates change no metric but the two amounts of orders. */
  lemma EditsTouchOnlyAmounts(edits: seq<Edit>, scope: TenantId, d: Day, m: Metric)
    requires m != CodAmount && m != PrepaidAmount
    ensures EditSum(edits, scope, d, m) == 0
  {
    NoChangesNoSum(edits, scope, d, m);
  }

  /** Nothing has moved the metric away from a day's snapshot: no double delivery, and no updates since the job that add up to anything. */
  predicate Unmoved(w: World, scope: TenantId, d: Day, m: Metric)
    requires WellFormed(w.db)
  {
    if m == DeliveredCount then DeliveredOnce(w.db, |w.db.deliveries|, scope, d) else EditSum(w.edits, scope, d, m) == 0
  }

  lemma SnapshotIsDirectIff(w: World, scope: TenantId, d: Day, m: Metric)
    requires Inv(w) && d in w.done && (scope == SENTINEL || scope in w.db.tenants)
    ensures SnapshotValue(w.snapshots, scope, d, m) == Direct(w.db, scope, d, m) <==> Unmoved(w, scope, d, m)
  {
    hide EditSum;
    hide JobValue;
    hide Direct;
    hide DeliveredOnce;
    hide SnapshotValue;
    assert Balanced(w, scope, d, m);
    InvHasForeignKeys(w);
    if m == DeliveredCount {
      EditsTouchOnlyAmounts(w.edits, scope, d, m);
    }
    if scope == SENTINEL {
      PlatformRowIsDirectIff(w.db, d, m);
    } else {
      TenantSnapshotAgreesIff(w.db, scope, d, m);
    }
  }

  /**
   In every reachable state, for a tenant and for the platform, each metric of each date of a range whose
   past days have had their job is the direct aggregate exactly when the date is not past, or no shipment
   was delivered twice on it, or the updates of its orders since its job add up to nothing, for the metric
   at hand.  Updates only touch the two order amounts.
   */
  lemma RunsAnswerDirectlyIff(start: Day, steps: seq<Step>, scope: TenantId, dateFrom: Day, dateTo: Day, live: Series)
    requires IsRun(Start(start), steps)
    requires var w := After(Start(start), steps);
      && WellFormed(w.db)
      && (scope == SENTINEL || scope in w.db.tenants)
      && (forall d :: dateFrom <= d <= dateTo && d < w.today ==> d in w.done)
      && (w.today <= dateTo ==> IsLive(live, w.db, scope, LiveFrom(dateFrom, w.today), dateTo))
    ensures var w := After(Start(start), steps);
      var rows := GetMetrics(w.snapshots, scope, dateFrom, dateTo, w.today, live);
      && AscendingIn(rows, dateFrom, dateTo)
      && (forall d, m :: dateFrom <= d <= dateTo ==>
           (ValueAt(rows, d, m) == Direct(w.db, scope, d, m) <==> (d < w.today ==> Unmoved(w, scope, d, m))))
      && (forall d, m :: m !in {DeliveredCount, CodAmount, PrepaidAmount} ==> Unmoved(w, scope, d, m))
  {
    StartInv(start);
    RunKeepsInv(Start(start), steps);
    var w := After(Start(start), steps);
    GetMetricsByDate(w.snapshots, w.db, scope, dateFrom, dateTo, w.today, live);
    forall d, m | dateFrom <= d <= dateTo && d < w.today
      ensures SnapshotValue(w.snapshots, scope, d, m) == Direct(w.db, scope, d, m) <==> Unmoved(w, scope, d, m)
    {
      SnapshotIsDirectIff(w, scope, d, m);
    }
    forall d, m | m !in {DeliveredCount, CodAmount, PrepaidAmount} ensures Unmoved(w, scope, d, m) {
      EditsTouchOnlyAmounts(w.edits, scope, d, m);
    }
  }

  // ---------- The direct aggregates are what has happened ----------

  /** What a step adds to a metric of a day, for a tenant or for the platform. */
  function Adds(w: World, step: Step, scope: TenantId, d: Day, m: Metric): int {
    match step
    case AddOrder(o) =>
      if !(d == o.day && Sees(scope, o.tenant)) then 0
      else if m == OrdersCount then 1
      else if m == CodAmount && o.mode == Cod then o.codAmount.GetOr(0)
      else if m == PrepaidAmount && o.mode == Prepaid then o.value.GetOr(0)
      else 0
    case AddShipment(s) =>
      if !(d == s.day && Sees(scope, s.tenant)) then 0
      else if m == ShipmentsCount then 1
      else if m == ShippingSpend then s.rate.GetOr(0)
      else 0
    case AddDelivery(id) =>
      if m == DeliveredCount && d == w.today && id < |w.db.shipments| && Sees(scope, w.db.shipments[id].tenant)
        && Delivery(id, w.today) !in w.db.deliveries
      then 1 else 0
    case AddNdr(t) => if m == NdrCount && d == w.today && Sees(scope, t) then 1 else 0
    case AddRto(t) => if m == RtoCount && d == w.today && Sees(scope, t) then 1 else 0
    case AddInvoice(_, total) => if m == RevenueAmount && d == w.today && scope == SENTINEL then total else 0
    case Write(r) => if IsEdit(w, step) then EditAdds(w.db.orders[w.open[r].id], w.open[r], scope, d, m) else 0
    case _ => 0
  }

  /** An update takes the order out of its amount and puts it into the amount of its mode afterwards. */
  function EditAdds(o: Order, x: Open, scope: TenantId, d: Day, m: Metric): int
    requires x.Editing?
  {
    var request, mode := x.request, x.request.mode.GetOr(o.mode);
    var itemsSetCod := request.codAmount.None? && request.items.Some? && x.readMode == Cod;
    var cod := if itemsSetCod then request.items.value else request.codAmount.GetOr(o.codAmount.GetOr(0));
    var value := if request.items.Some? then request.items.value else request.value.GetOr(o.value.GetOr(0));
    if !(d == o.day && Sees(scope, o.tenant)) then 0
    else if m == CodAmount then (if mode == Cod then cod else 0) - if o.mode == Cod then o.codAmount.GetOr(0) else 0
    else if m == PrepaidAmount then (if mode == Prepaid then value else 0) - if o.mode == Prepaid then o.value.GetOr(0) else 0
    else 0
  }

  lemma WriteAdds(w: World, step: Step, scope: TenantId, d: Day, m: Metric)
    requires WellFormed(w.db) && Enabled(w, step) && step.Write?
    ensures WellFormed(Next(w, step).db)
    ensures Direct(Next(w, step).db, scope, d, m) == Direct(w.db, scope, d, m) + Adds(w, step, scope, d, m)
  {
    var db' := Next(w, step).db;
    assert WellFormed(db');
    if IsEdit(w, step) && m in {OrdersCount, CodAmount, PrepaidAmount} {
      EditUpdates(w, step, m);
      var e := Next(w, step).edits[|w.edits|];
      TotalUpdate(FactsOf(w.db, m), EditedId(w, step), OrderFact(e.after, m), scope, d);
    } else {
      assert FactsOf(db', m) == FactsOf(w.db, m);
      SameFactsSameDirect(w.db, db', scope, d, m);
    }
  }

  /** Every step moves every metric of every day and scope by exactly what it adds. */
  lemma StepAdds(w: World, step: Step, scope: TenantId, d: Day, m: Metric)
    requires WellFormed(w.db) && Enabled(w, step)
    ensures WellFormed(Next(w, step).db)
    ensures Direct(Next(w, step).db, scope, d, m) == Direct(w.db, scope, d, m) + Adds(w, step, scope, d, m)
  {
    hide Direct;
    hide FactsOf;
    match step
    case AddTenant(t) => SameFacts(w.db, t, m); SameFactsSameDirect(w.db, Next(w, step).db, scope, d, m);
    case AddOrder(o) => OrderArrives(w.db, o, scope, d, m);
    case AddShipment(s) => ShipmentArrives(w.db, s, scope, d, m);
    case AddDelivery(id) => DeliveryArrives(w.db, id, w.today, scope, d, m);
    case AddNdr(t) => NdrArrives(w.db, t, w.today, scope, d, m);
    case AddRto(t) => RtoArrives(w.db, t, w.today, scope, d, m);
    case AddInvoice(t, total) => InvoiceArrives(w.db, t, w.today, total, scope, d, m);
    case Write(_) => WriteAdds(w, step, scope, d, m);
    case _ =>
  }

  function Added(w: World, steps: seq<Step>, scope: TenantId, d: Day, m: Metric): int
    decreases |steps|
  {
    if steps == [] then 0 else Adds(w, steps[0], scope, d, m) + Added(Next(w, steps[0]), steps[1..], scope, d, m)
  }

  lemma {:induction false} RunAdds(w: World, steps: seq<Step>, scope: TenantId, d: Day, m: Metric)
    requires WellFormed(w.db) && IsRun(w, steps)
    ensures WellFormed(After(w, steps).db)
    ensures Direct(After(w, steps).db, scope, d, m) == Direct(w.db, scope, d, m) + Added(w, steps, scope, d, m)
    decreases |steps|
  {
    hide Direct;
    hide Adds;
    hide Next;
    if steps != [] {
      StepAdds(w, steps[0], scope, d, m);
      RunAdds(Next(w, steps[0]), steps[1..], scope, d, m);
    }
  }

  /** From the empty tables on, a direct aggregate is the sum of what every step of the run has added to it. */
  lemma DirectIsHistory(start: Day, steps: seq<Step>, scope: TenantId, d: Day, m: Metric)
    requires IsRun(Start(start), steps)
    ensures WellFormed(After(Start(start), steps).db)
    ensures Direct(After(Start(start), steps).db, scope, d, m) == Added(Start(start), steps, scope, d, m)
  {
    EmptyTablesCountNothing([], scope, d, m);
    RunAdds(Start(start), steps, scope, d, m);
  }

  // ---------- Which updates make a past day stale ----------

  /**
   The update leaves a metric as it was, in terms of the request, the mode it read and the order before
   the write.  An order that turns cod keeps whatever amount to collect it had, even if items come with it.
   */
  predicate LeavesAmount(o: Order, readMode: PaymentMode, request: Request, m: Metric) {
    var mode, cod, value := request.mode.GetOr(o.mode), o.codAmount.GetOr(0), o.value.GetOr(0);
    var itemsSetCod := request.codAmount.None? && request.items.Some? && readMode == Cod;
    match m
    case CodAmount =>
      if mode == Cod && itemsSetCod then request.items.value == if o.mode == Cod then cod else 0
      else if mode == Cod then request.codAmount.GetOr(cod) == if o.mode == Cod then cod else 0
      else o.mode == Cod ==> cod == 0
    case PrepaidAmount =>
      if mode == Prepaid then
        (if request.items.Some? then request.items.value else request.value.GetOr(value)) == if o.mode == Prepaid then value else 0
      else o.mode == Prepaid ==> value == 0
    case _ => true
  }

  lemma LeavesAmountIff(o: Order, readMode: PaymentMode, request: Request, m: Metric)
    ensures OrderFact(Edited(o, readMode, request), m).amount == OrderFact(o, m).amount <==> LeavesAmount(o, readMode, request, m)
  {
  }

  /** A snapshot that was right is still right after an update of its day is written exactly when the update leaves the amount as it was. */
  lemma EditAgreesIff(w: World, step: Step, scope: TenantId, m: Metric)
    requires Inv(w) && Enabled(w, step) && IsEdit(w, step)
    requires var o := w.db.orders[EditedId(w, step)];
      && o.day in w.done && (scope == SENTINEL || scope == o.tenant)
      && SnapshotValue(w.snapshots, scope, o.day, m) == Direct(w.db, scope, o.day, m)
    ensures var w', o, x := Next(w, step), w.db.orders[EditedId(w, step)], w.open[step.r];
      && Inv(w')
      && (SnapshotValue(w'.snapshots, scope, o.day, m) == Direct(w'.db, scope, o.day, m) <==>
           LeavesAmount(o, x.readMode, x.request, m))
  {
    hide SnapshotValue;
    hide Direct;
    hide EditSum;
    hide DeliveredOnce;
    var w', o, x := Next(w, step), w.db.orders[EditedId(w, step)], w.open[step.r];
    StepKeepsInv(w, step);
    KnownOrder(w, EditedId(w, step));
    SnapshotIsDirectIff(w, scope, o.day, m);
    SnapshotIsDirectIff(w', scope, o.day, m);
    LeavesAmountIff(o, x.readMode, x.request, m);
    if m == DeliveredCount {
      SameDeliveries(w.db, w'.db, scope, o.day);
    } else {
      EditSumSnoc(w.edits, Edit(o, Edited(o, x.readMode, x.request)), scope, o.day, m);
    }
  }

  lemma SameDeliveries(db: Db, db': Db, scope: TenantId, d: Day)
    requires WellFormed(db) && db'.deliveries == db.deliveries && db'.shipments == db.shipments
    ensures DeliveredOnce(db', |db'.deliveries|, scope, d) <==> DeliveredOnce(db, |db.deliveries|, scope, d)
  {
  }

  // ---------- When a past day can be edited no more ----------

  /** The step writes an update of an order of the day. */
  predicate EditsDay(w: World, step: Step, d: Day) {
    IsEdit(w, step) && w.db.orders[EditedId(w, step)].day == d
  }

  ghost predicate RunEditsDay(w: World, steps: seq<Step>, d: Day)
    decreases |steps|
  {
    steps != [] && (EditsDay(w, steps[0], d) || RunEditsDay(Next(w, steps[0]), steps[1..], d))
  }

  /** Whatever happens from here on, no order of the day is edited. */
  ghost predicate NeverEdited(w: World, d: Day) {
    forall steps :: IsRun(w, steps) ==> !RunEditsDay(w, steps, d)
  }

  /** The request is about an order of the day. */
  predicate OnDay(w: World, x: Open, d: Day) {
    x.id < |w.db.orders| && w.db.orders[x.id].day == d
  }

  /** No order of the day may be edited, and no request between its check and its write edits one or makes it editable. */
  ghost predicate DayFinal(w: World, d: Day) {
    && (forall i :: 0 <= i < |w.db.orders| && w.db.orders[i].day == d ==> !Editable(w.db.orders[i].status))
    && (forall r :: r in w.open && OnDay(w, w.open[r], d) ==> w.open[r].Moving? && !Editable(w.open[r].status))
  }

  lemma DayFinalStep(w: World, step: Step, d: Day)
    requires WellFormed(w.db) && Enabled(w, step) && d < w.today && DayFinal(w, d)
    ensures DayFinal(Next(w, step), d) && !EditsDay(w, step, d)
  {
  }

  lemma {:induction false} FinalDayIsNotEdited(w: World, steps: seq<Step>, d: Day)
    requires IsRun(w, steps) && d < w.today && DayFinal(w, d)
    ensures !RunEditsDay(w, steps, d)
    decreases |steps|
  {
    if steps != [] {
      DayFinalStep(w, steps[0], d);
      FinalDayIsNotEdited(Next(w, steps[0]), steps[1..], d);
    }
  }

  const NOTHING := Request(None, None, None, None)

  lemma EditingRun(w: World, r: RequestId, d: Day)
    requires WellFormed(w.db) && r in w.open && OnDay(w, w.open[r], d) && w.open[r].Editing?
    ensures IsRun(w, [Write(r)]) && RunEditsDay(w, [Write(r)], d)
  {
    assert [Write(r)][1..] == [];
    assert WellFormed(Next(w, Write(r)).db);
  }

  lemma EditableRun(w: World, r: RequestId, id: nat)
    requires WellFormed(w.db) && r !in w.open && id < |w.db.orders| && Editable(w.db.orders[id].status)
    ensures IsRun(w, [OpenEdit(r, id, NOTHING)] + [Write(r)])
    ensures RunEditsDay(w, [OpenEdit(r, id, NOTHING)] + [Write(r)], w.db.orders[id].day)
  {
    var w1 := Next(w, OpenEdit(r, id, NOTHING));
    EditingRun(w1, r, w.db.orders[id].day);
    assert ([OpenEdit(r, id, NOTHING)] + [Write(r)])[1..] == [Write(r)];
  }

  lemma ReopeningRun(w: World, r: RequestId, d: Day)
    requires WellFormed(w.db) && r in w.open && OnDay(w, w.open[r], d) && w.open[r].Moving? && Editable(w.open[r].status)
    ensures var steps := [Write(r)] + ([OpenEdit(r, w.open[r].id, NOTHING)] + [Write(r)]);
      IsRun(w, steps) && RunEditsDay(w, steps, d)
  {
    var id := w.open[r].id;
    var w1 := Next(w, Write(r));
    assert WellFormed(w1.db);
    EditableRun(w1, r, id);
    assert ([Write(r)] + ([OpenEdit(r, id, NOTHING)] + [Write(r)]))[1..] == [OpenEdit(r, id, NOTHING)] + [Write(r)];
  }

  lemma {:induction false} UnusedId(ids: set<RequestId>) returns (r: RequestId)
    ensures r !in ids && forall x :: x in ids ==> x < r
    decreases |ids|
  {
    if x :| x in ids {
      r := UnusedId(ids - {x});
      if r <= x {
        r := x + 1;
      }
      assert ids == ids - {x} + {x};
    } else {
      r := 0;
    }
  }

  lemma OtherwiseEdited(w: World, d: Day) returns (steps: seq<Step>)
    requires WellFormed(w.db) && !DayFinal(w, d)
    ensures IsRun(w, steps) && RunEditsDay(w, steps, d)
  {
    if r :| r in w.open && OnDay(w, w.open[r], d) && (w.open[r].Editing? || Editable(w.open[r].status)) {
      if w.open[r].Editing? {
        EditingRun(w, r, d);
        steps := [Write(r)];
      } else {
        ReopeningRun(w, r, d);
        steps := [Write(r)] + ([OpenEdit(r, w.open[r].id, NOTHING)] + [Write(r)]);
      }
    } else {
      var i :| 0 <= i < |w.db.orders| && w.db.orders[i].day == d && Editable(w.db.orders[i].status);
      var r := UnusedId(w.open.Keys);
      EditableRun(w, r, i);
      steps := [OpenEdit(r, i, NOTHING)] + [Write(r)];
    }
  }

  /** No run edits the orders of a past day again exactly when all are closed and no open request edits or reopens one. */
  lemma DayIsFinalIff(w: World, d: Day)
    requires WellFormed(w.db) && d < w.today
    ensures DayFinal(w, d) <==> NeverEdited(w, d)
  {
    if DayFinal(w, d) {
      forall steps | IsRun(w, steps) ensures !RunEditsDay(w, steps, d) {
        FinalDayIsNotEdited(w, steps, d);
      }
    } else {
      var steps := OtherwiseEdited(w, d);
    }
  }

  lemma FinalDayKeepsSum(w: World, step: Step, scope: TenantId, d: Day, m: Metric)
    requires WellFormed(w.db) && Enabled(w, step) && d < w.today && DayFinal(w, d) && EditSum(w.edits, scope, d, m) == 0
    ensures EditSum(Next(w, step).edits, scope, d, m) == 0
  {
    hide EditSum;
    DayFinalStep(w, step, d);
    if step.JobRun? {
      SinceSum(w.edits, w.today - 1, scope, d, m);
    } else if IsEdit(w, step) {
      EditSumSnoc(w.edits, Next(w, step).edits[|w.edits|], scope, d, m);
    }
  }

  /** Once a past day is final, updates that add up to nothing stay so: its order amounts stay right. */
  lemma {:induction false} FinalDayStays(w: World, steps: seq<Step>, scope: TenantId, d: Day, m: Metric)
    requires IsRun(w, steps) && d < w.today && DayFinal(w, d) && EditSum(w.edits, scope, d, m) == 0
    ensures DayFinal(After(w, steps), d) && EditSum(After(w, steps).edits, scope, d, m) == 0
    decreases |steps|
  {
    if steps != [] {
      DayFinalStep(w, steps[0], d);
      FinalDayKeepsSum(w, steps[0], scope, d, m);
      FinalDayStays(Next(w, steps[0]), steps[1..], scope, d, m);
    }
  }

  // ---------- Runs that make a past day stale ----------

  lemma OneStep(w: World, step: Step, rest: seq<Step>)
    requires WellFormed(w.db) && Enabled(w, step) && IsRun(Next(w, step), rest)
    ensures IsRun(w, [step] + rest) && After(w, [step] + rest) == After(Next(w, step), rest)
  {
  }

  lemma {:induction false} RunsCompose(w: World, a: seq<Step>, b: seq<Step>)
    requires IsRun(w, a) && IsRun(After(w, a), b)
    ensures IsRun(w, a + b) && After(w, a + b) == After(After(w, a), b)
    decreases |a|
  {
    if a == [] {
      assert a + b == b;
    } else {
      assert (a + b)[0] == a[0] && (a + b)[1..] == a[1..] + b;
      RunsCompose(Next(w, a[0]), a[1..], b);
    }
  }

  /** The tables with one tenant and one order. */
  function OneOrder(o: Order): Db {
    EMPTY_TABLES.(tenants := [o.tenant], orders := [o])
  }

  function CodOrder(t: TenantId, d: Day, cod: int): Order {
    Order(t, d, Cod, Some(cod), Some(cod), Pending)
  }

  /** The morning after, when the job has run for the order's day. */
  function Built(o: Order): World {
    var rows: Snapshots := map[(o.tenant, o.day) := TenantRow(OneOrder(o), o.tenant, o.day), (SENTINEL, o.day) := PlatformRow(OneOrder(o), o.day)];
    World(OneOrder(o), o.day + 1, rows, {o.day}, map[], [])
  }

  lemma OneDayTable(o: Order)
    requires o.tenant != SENTINEL
    ensures Upserted(map[], Built(o).snapshots, OneOrder(o), o.day)
  {
  }

  lemma BuiltRun(o: Order) returns (steps: seq<Step>)
    requires o.tenant != SENTINEL && o.status == Pending
    ensures IsRun(Start(o.day), steps) && After(Start(o.day), steps) == Built(o)
  {
    hide TenantRow;
    hide PlatformRow;
    var job := JobRun(Built(o).snapshots);
    var w1 := Next(Start(o.day), AddTenant(o.tenant));
    var w2 := Next(w1, AddOrder(o));
    var w3 := Next(w2, Midnight);
    assert w1.db == EMPTY_TABLES.(tenants := [o.tenant]) && w2.db == w3.db == OneOrder(o);
    assert Next(w3, job) == Built(o);
    OneDayTable(o);
    hide Next;
    hide Upserted;
    OneStep(w3, job, []);
    OneStep(w2, Midnight, [job] + []);
    OneStep(w1, AddOrder(o), [Midnight] + ([job] + []));
    OneStep(Start(o.day), AddTenant(o.tenant), [AddOrder(o)] + ([Midnight] + ([job] + [])));
    steps := [AddTenant(o.tenant)] + ([AddOrder(o)] + ([Midnight] + ([job] + [])));
  }

  lemma CodUpdateRun(w: World, o: Order, now: int) returns (steps: seq<Step>)
    requires w.db == OneOrder(o) && w.open == map[] && o.mode == Cod && Editable(o.status)
    ensures IsRun(w, steps)
    ensures After(w, steps).db == OneOrder(o.(codAmount := Some(now)))
    ensures After(w, steps).snapshots == w.snapshots && After(w, steps).today == w.today && After(w, steps).done == w.done
  {
    var request := Request(None, Some(now), None, None);
    var w1 := Next(w, OpenEdit(0, 0, request));
    var w2 := Next(w1, Write(0));
    assert w2.db.orders == [o.(codAmount := Some(now))];
    hide Next;
    OneStep(w1, Write(0), []);
    OneStep(w, OpenEdit(0, 0, request), [Write(0)] + []);
    steps := [OpenEdit(0, 0, request)] + ([Write(0)] + []);
  }

  lemma OneOrderValues(w: World, was: Order, o: Order)
    requires was.tenant != SENTINEL && was.mode == o.mode == Cod && o.tenant == was.tenant && o.day == was.day
    requires w.db == OneOrder(o) && w.today == o.day + 1 && w.snapshots == Built(was).snapshots
    ensures ValueAt(GetMetrics(w.snapshots, o.tenant, o.day, o.day, w.today, []), o.day, CodAmount) == was.codAmount.GetOr(0)
    ensures WellFormed(w.db) && Direct(w.db, o.tenant, o.day, CodAmount) == o.codAmount.GetOr(0)
  {
    var before, after := OrderFact(was, CodAmount), OrderFact(o, CodAmount);
    GetMetricsByDate(w.snapshots, w.db, o.tenant, o.day, o.day, w.today, []);
    assert FactsOf(OneOrder(was), CodAmount) == [] + [before];
    assert FactsOf(w.db, CodAmount) == [] + [after];
    TotalOfLonger([], before, o.tenant, o.day);
    TotalOfLonger([], after, o.tenant, o.day);
  }

  /** One cod order, its day's job, and an update of the amount to collect: the answer is the old amount. */
  lemma EditMakesStale(t: TenantId, d: Day, was: int, now: int) returns (steps: seq<Step>)
    requires t != SENTINEL
    ensures IsRun(Start(d), steps)
    ensures var w := After(Start(d), steps);
      && WellFormed(w.db) && d in w.done && w.today == d + 1
      && ValueAt(GetMetrics(w.snapshots, t, d, d, w.today, []), d, CodAmount) == was
      && Direct(w.db, t, d, CodAmount) == now
  {
    var o := CodOrder(t, d, was);
    var built := BuiltRun(o);
    var update := CodUpdateRun(Built(o), o, now);
    RunsCompose(Start(d), built, update);
    steps := built + update;
    OneOrderValues(After(Start(d), steps), o, o.(codAmount := Some(now)));
  }

  /**
   The same on a day whose only order has been cancelled, so that it is closed, and whose answer is right:
   a change to processing that was checked before the cancellation is written over it, and the order is
   updated after that.
   */
  lemma ReopeningMakesStale(t: TenantId, d: Day, was: int, now: int) returns (closing: seq<Step>, rest: seq<Step>)
    requires t != SENTINEL
    ensures IsRun(Start(d), closing) && IsRun(After(Start(d), closing), rest)
    ensures var w := After(Start(d), closing);
      && WellFormed(w.db) && d in w.done && w.today == d + 1
      && |w.db.orders| == 1 && w.db.orders[0].day == d && w.db.orders[0].status == Cancelled
      && ValueAt(GetMetrics(w.snapshots, t, d, d, w.today, []), d, CodAmount) == Direct(w.db, t, d, CodAmount) == was
    ensures var w := After(After(Start(d), closing), rest);
      && WellFormed(w.db) && w.today == d + 1
      && ValueAt(GetMetrics(w.snapshots, t, d, d, w.today, []), d, CodAmount) == was
      && Direct(w.db, t, d, CodAmount) == now
  {
    var o := CodOrder(t, d, was);
    var built := BuiltRun(o);
    var closed, reopened := Reopening(Built(o), o);
    var w3 := After(Built(o), closed);
    RunsCompose(Start(d), built, closed);
    closing := built + closed;
    var w4, processing := After(w3, reopened), o.(status := Processing);
    var update := CodUpdateRun(w4, processing, now);
    RunsCompose(w3, reopened, update);
    rest := reopened + update;
    OneOrderValues(w3, o, o.(status := Cancelled));
    OneOrderValues(After(w3, rest), o, processing.(codAmount := Some(now)));
  }

  lemma Reopening(w: World, o: Order) returns (closed: seq<Step>, reopened: seq<Step>)
    requires w.db == OneOrder(o) && w.open == map[] && o.status == Pending
    ensures IsRun(w, closed) && IsRun(After(w, closed), reopened)
    ensures After(w, closed) == w.(db := OneOrder(o.(status := Cancelled)), open := map[0 := Moving(0, Processing)])
    ensures After(After(w, closed), reopened) == w.(db := OneOrder(o.(status := Processing)))
  {
    var w1 := Next(w, OpenMove(0, 0, Processing));
    var w2 := Next(w1, OpenMove(1, 0, Cancelled));
    var w3 := Next(w2, Write(1));
    var w4 := Next(w3, Write(0));
    assert w3.db.orders == [o.(status := Cancelled)] && w3.open == map[0 := Moving(0, Processing)];
    assert w4.db.orders == [o.(status := Processing)] && w4.open == map[];
    hide Next;
    OneStep(w2, Write(1), []);
    OneStep(w1, OpenMove(1, 0, Cancelled), [Write(1)] + []);
    OneStep(w, OpenMove(0, 0, Processing), [OpenMove(1, 0, Cancelled)] + ([Write(1)] + []));
    closed := [OpenMove(0, 0, Processing)] + ([OpenMove(1, 0, Cancelled)] + ([Write(1)] + []));
    OneStep(w3, Write(0), []);
    reopened := [Write(0)] + [];
  }
}
