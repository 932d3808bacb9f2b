/**
 The tables behind the analytics, and the direct aggregates of a day over them.

 Dates are day numbers.  `deliveries` holds the status-history rows whose new status is delivered.
 Money is in paise; a SUM or a column that is NULL counts as zero.
 */
module AnalyticsTables {
  import opened Options

  type Day = int
  type TenantId = nat

  /** The all-zero tenant id that stands for the whole platform. */
  const SENTINEL: TenantId := 0

  datatype Metric =
    | OrdersCount
    | ShipmentsCount
    | DeliveredCount
    | NdrCount
    | RtoCount
    | CodAmount
    | PrepaidAmount
    | ShippingSpend
    | RevenueAmount

  /** The numbers of one row; a metric that is null or not there is not a key. */
  type Row = map<Metric, int>

  datatype PaymentMode = Cod | Prepaid

  datatype OrderStatus = Pending | Processing | ReadyToShip | Shipped | Cancelled

  datatype Order = Order(
    tenant: TenantId,
    day: Day,
    mode: PaymentMode,
    codAmount: Option<int>,
    value: Option<int>,
    status: OrderStatus)

  datatype Shipment = Shipment(tenant: TenantId, day: Day, rate: Option<int>)

  datatype Delivery = Delivery(shipment: nat, day: Day)

  datatype Incident = Incident(tenant: TenantId, day: Day)

  datatype Invoice = Invoice(tenant: TenantId, day: Day, total: int)

  /** A shipment's id is its position. */
  datatype Db = Db(
    tenants: seq<TenantId>,
    orders: seq<Order>,
    shipments: seq<Shipment>,
    deliveries: seq<Delivery>,
    ndrs: seq<Incident>,
    rtos: seq<Incident>,
    invoices: seq<Invoice>)

  /** What one table row adds to a metric. */
  datatype Fact = Fact(tenant: TenantId, day: Day, amount: int)

  function OrderFact(o: Order, m: Metric): Fact {
    Fact(o.tenant, o.day,
         match m
         case CodAmount => if o.mode == Cod then o.codAmount.GetOr(0) else 0
         case PrepaidAmount => if o.mode == Prepaid then o.value.GetOr(0) else 0
         case _ => 1)
  }

  function ShipmentFact(s: Shipment, m: Metric): Fact {
    Fact(s.tenant, s.day, if m == ShippingSpend then s.rate.GetOr(0) else 1)
  }

  /** The inner join with shipments: a row of an unknown shipment joins nothing. */
  function DeliveryFact(shipments: seq<Shipment>, d: Delivery): Fact
    requires d.shipment < |shipments|
  {
    Fact(shipments[d.shipment].tenant, d.day, 1)
  }

  /** History rows refer to shipments. */
  predicate WellFormed(db: Db) {
    forall i :: 0 <= i < |db.deliveries| ==> db.deliveries[i].shipment < |db.shipments|
  }

  function FactsOf(db: Db, m: Metric): (r: seq<Fact>)
    requires WellFormed(db)
  {
    match m
    case OrdersCount => seq(|db.orders|, i requires 0 <= i < |db.orders| => OrderFact(db.orders[i], m))
    case CodAmount => seq(|db.orders|, i requires 0 <= i < |db.orders| => OrderFact(db.orders[i], m))
    case PrepaidAmount => seq(|db.orders|, i requires 0 <= i < |db.orders| => OrderFact(db.orders[i], m))
    case ShipmentsCount => seq(|db.shipments|, i requires 0 <= i < |db.shipments| => ShipmentFact(db.shipments[i], m))
    case ShippingSpend => seq(|db.shipments|, i requires 0 <= i < |db.shipments| => ShipmentFact(db.shipments[i], m))
    case DeliveredCount =>
      seq(|db.deliveries|, i requires 0 <= i < |db.deliveries| => DeliveryFact(db.shipments, db.deliveries[i]))
    case NdrCount => seq(|db.ndrs|, i requires 0 <= i < |db.ndrs| => Fact(db.ndrs[i].tenant, db.ndrs[i].day, 1))
    case RtoCount => seq(|db.rtos|, i requires 0 <= i < |db.rtos| => Fact(db.rtos[i].tenant, db.rtos[i].day, 1))
    case RevenueAmount =>
      seq(|db.invoices|, i requires 0 <= i < |db.invoices| =>
        Fact(db.invoices[i].tenant, db.invoices[i].day, db.invoices[i].total))
  }

  /** The platform sees every row, a tenant its own. */
  predicate InScope(f: Fact, scope: TenantId, day: Day) {
    f.day == day && (scope == SENTINEL || f.tenant == scope)
  }

  function Total(facts: seq<Fact>, scope: TenantId, day: Day): int {
    if |facts| == 0 then 0
    else
      var f := facts[|facts| - 1];
      Total(facts[..|facts| - 1], scope, day) + if InScope(f, scope, day) then f.amount else 0
  }

  predicate HasRow(facts: seq<Fact>, scope: TenantId, day: Day) {
    exists i :: 0 <= i < |facts| && InScope(facts[i], scope, day)
  }

  lemma {:induction false} NoRowsNoTotal(facts: seq<Fact>, scope: TenantId, day: Day)
    requires !HasRow(facts, scope, day)
    ensures Total(facts, scope, day) == 0
    decreases |facts|
  {
    if |facts| > 0 {
      var front := facts[..|facts| - 1];
      assert forall i :: 0 <= i < |front| ==> front[i] == facts[i];
      NoRowsNoTotal(front, scope, day);
    }
  }

  lemma TotalOfLonger(facts: seq<Fact>, f: Fact, scope: TenantId, day: Day)
    ensures Total(facts + [f], scope, day) == Total(facts, scope, day) + if InScope(f, scope, day) then f.amount else 0
    ensures HasRow(facts + [f], scope, day) <==> HasRow(facts, scope, day) || InScope(f, scope, day)
  {
  }

  // ---------- Tenants partition the rows ----------

  predicate Distinct(tenants: seq<TenantId>) {
    forall i, j :: 0 <= i < j < |tenants| ==> tenants[i] != tenants[j]
  }

  /** The sum of the per-tenant totals. */
  function TenantSum(tenants: seq<TenantId>, facts: seq<Fact>, day: Day): int {
    if |tenants| == 0 then 0
    else TenantSum(tenants[..|tenants| - 1], facts, day) + Total(facts, tenants[|tenants| - 1], day)
  }

  /** The total of the rows whose tenant is not in the list. */
  function OrphanTotal(facts: seq<Fact>, tenants: seq<TenantId>, day: Day): int {
    if |facts| == 0 then 0
    else
      var f := facts[|facts| - 1];
      OrphanTotal(facts[..|facts| - 1], tenants, day) + if f.day == day && f.tenant !in tenants then f.amount else 0
  }

  lemma {:induction false} TenantSumOfNothing(tenants: seq<TenantId>, day: Day)
    ensures TenantSum(tenants, [], day) == 0
    decreases |tenants|
  {
    if |tenants| > 0 {
      TenantSumOfNothing(tenants[..|tenants| - 1], day);
    }
  }

  lemma TenantSumSnoc(tenants: seq<TenantId>, t: TenantId, facts: seq<Fact>, day: Day)
    ensures TenantSum(tenants + [t], facts, day) == TenantSum(tenants, facts, day) + Total(facts, t, day)
  {
  }

  lemma {:induction false} TenantSumOfLonger(tenants: seq<TenantId>, facts: seq<Fact>, f: Fact, day: Day)
    requires Distinct(tenants) && SENTINEL !in tenants
    ensures TenantSum(tenants, facts + [f], day) ==
      TenantSum(tenants, facts, day) + if f.day == day && f.tenant in tenants then f.amount else 0
    decreases |tenants|
  {
    if |tenants| > 0 {
      var front, t := tenants[..|tenants| - 1], tenants[|tenants| - 1];
      assert tenants == front + [t];
      TenantSumOfLonger(front, facts, f, day);
      TotalOfLonger(facts, f, t, day);
      assert t in tenants && t != SENTINEL;
      assert t !in front;
    }
  }

  /** Every row is counted once: under its tenant, or among the orphans. */
  lemma {:induction false} TenantsPartition(tenants: seq<TenantId>, facts: seq<Fact>, day: Day)
    requires Distinct(tenants) && SENTINEL !in tenants
    ensures TenantSum(tenants, facts, day) + OrphanTotal(facts, tenants, day) == Total(facts, SENTINEL, day)
    decreases |facts|
  {
    if |facts| == 0 {
      TenantSumOfNothing(tenants, day);
    } else {
      var front, f := facts[..|facts| - 1], facts[|facts| - 1];
      TenantsPartition(tenants, front, day);
      TenantSumOfLonger(tenants, front, f, day);
      assert front + [f] == facts;
    }
  }

  /** The sum over the tenants is the direct total exactly when the orphans add up to nothing. */
  lemma PlatformSumIff(tenants: seq<TenantId>, facts: seq<Fact>, day: Day)
    requires Distinct(tenants) && SENTINEL !in tenants
    ensures TenantSum(tenants, facts, day) == Total(facts, SENTINEL, day) <==> OrphanTotal(facts, tenants, day) == 0
  {
    TenantsPartition(tenants, facts, day);
  }

  predicate KnownTenants(facts: seq<Fact>, tenants: seq<TenantId>) {
    forall i :: 0 <= i < |facts| ==> facts[i].tenant in tenants
  }

  lemma {:induction false} NoOrphans(facts: seq<Fact>, tenants: seq<TenantId>, day: Day)
    requires KnownTenants(facts, tenants)
    ensures OrphanTotal(facts, tenants, day) == 0
    decreases |facts|
  {
    if |facts| > 0 {
      var front := facts[..|facts| - 1];
      assert forall i :: 0 <= i < |front| ==> front[i] == facts[i];
      NoOrphans(front, tenants, day);
    }
  }

  // ---------- Delivered shipments ----------

  predicate DeliveredIn(db: Db, i: nat, scope: TenantId, day: Day)
    requires WellFormed(db) && i < |db.deliveries|
  {
    InScope(DeliveryFact(db.shipments, db.deliveries[i]), scope, day)
  }

  /** The shipments with a delivered row in the first n history rows. */
  function DeliveredShipments(db: Db, n: nat, scope: TenantId, day: Day): set<nat>
    requires WellFormed(db) && n <= |db.deliveries|
  {
    set i | 0 <= i < n && DeliveredIn(db, i, scope, day) :: db.deliveries[i].shipment
  }

  /** No shipment has two delivered rows on the day. */
  predicate DeliveredOnce(db: Db, n: nat, scope: TenantId, day: Day)
    requires WellFormed(db) && n <= |db.deliveries|
  {
    forall i, j :: 0 <= i < j < n && DeliveredIn(db, i, scope, day) && DeliveredIn(db, j, scope, day) ==>
      db.deliveries[i].shipment != db.deliveries[j].shipment
  }

  /** What the n-th history row adds. */
  lemma OneMoreDelivery(db: Db, n: nat, scope: TenantId, day: Day)
    requires WellFormed(db) && 0 < n <= |db.deliveries|
    ensures var before, s := DeliveredShipments(db, n - 1, scope, day), db.deliveries[n - 1].shipment;
      var counts := DeliveredIn(db, n - 1, scope, day);
      && DeliveredShipments(db, n, scope, day) == (if counts then before + {s} else before)
      && (DeliveredOnce(db, n, scope, day) <==> DeliveredOnce(db, n - 1, scope, day) && (counts ==> s !in before))
  {
  }

  lemma OneMoreRow(db: Db, n: nat, scope: TenantId, day: Day)
    requires WellFormed(db) && 0 < n <= |db.deliveries|
    ensures var facts := FactsOf(db, DeliveredCount);
      Total(facts[..n], scope, day) == Total(facts[..n - 1], scope, day) + if DeliveredIn(db, n - 1, scope, day) then 1 else 0
  {
    var facts := FactsOf(db, DeliveredCount);
    assert facts[..n] == facts[..n - 1] + [facts[n - 1]];
    TotalOfLonger(facts[..n - 1], facts[n - 1], scope, day);
  }

  lemma {:induction false} RowsAndShipments(db: Db, n: nat, scope: TenantId, day: Day)
    requires WellFormed(db) && n <= |db.deliveries|
    ensures var rows := Total(FactsOf(db, DeliveredCount)[..n], scope, day);
      && |DeliveredShipments(db, n, scope, day)| <= rows
      && (|DeliveredShipments(db, n, scope, day)| == rows <==> DeliveredOnce(db, n, scope, day))
    decreases n
  {
    hide DeliveredShipments;
    hide DeliveredOnce;
    hide DeliveredIn;
    hide FactsOf;
    hide Total;
    hide WellFormed;
    if n == 0 {
      NothingDelivered(db, scope, day);
    } else {
      RowsAndShipments(db, n - 1, scope, day);
      OneMoreDelivery(db, n, scope, day);
      OneMoreRow(db, n, scope, day);
      OneMoreMember(DeliveredShipments(db, n - 1, scope, day), db.deliveries[n - 1].shipment);
    }
  }

  lemma NothingDelivered(db: Db, scope: TenantId, day: Day)
    requires WellFormed(db)
    ensures Total(FactsOf(db, DeliveredCount)[..0], scope, day) == 0
    ensures DeliveredShipments(db, 0, scope, day) == {} && DeliveredOnce(db, 0, scope, day)
  {
  }

  lemma OneMoreMember(s: set<nat>, x: nat)
    ensures |s + {x}| == if x in s then |s| else |s| + 1
  {
    assert x in s ==> s + {x} == s;
  }

  /** Counting rows counts shipments exactly when no shipment was delivered twice that day. */
  lemma RowsAreShipmentsIff(db: Db, scope: TenantId, day: Day)
    requires WellFormed(db)
    ensures var n := |db.deliveries|;
      Total(FactsOf(db, DeliveredCount), scope, day) == |DeliveredShipments(db, n, scope, day)| <==>
        DeliveredOnce(db, n, scope, day)
  {
    var facts := FactsOf(db, DeliveredCount);
    assert facts[..|db.deliveries|] == facts;
    RowsAndShipments(db, |db.deliveries|, scope, day);
  }

  // ---------- The direct aggregates of a day ----------

  /** What the live queries count: distinct delivered shipments, revenue for the platform only, totals otherwise. */
  function Direct(db: Db, scope: TenantId, day: Day, m: Metric): int
    requires WellFormed(db)
  {
    match m
    case DeliveredCount => |DeliveredShipments(db, |db.deliveries|, scope, day)|
    case RevenueAmount => if scope == SENTINEL then Total(FactsOf(db, m), scope, day) else 0
    case _ => Total(FactsOf(db, m), scope, day)
  }

  lemma NoRowsNoDirect(db: Db, scope: TenantId, day: Day, m: Metric)
    requires WellFormed(db) && !HasRow(FactsOf(db, m), scope, day)
    ensures Direct(db, scope, day, m) == 0
  {
    var facts := FactsOf(db, m);
    NoRowsNoTotal(facts, scope, day);
    if m == DeliveredCount {
      assert facts[..|db.deliveries|] == facts;
      RowsAndShipments(db, |db.deliveries|, scope, day);
    }
  }

  // ---------- What one more row does to the aggregates ----------

  /** The platform sees every tenant's rows. */
  predicate Sees(scope: TenantId, t: TenantId) {
    scope == SENTINEL || scope == t
  }

  lemma EmptyTablesCountNothing(tenants: seq<TenantId>, scope: TenantId, d: Day, m: Metric)
    ensures Direct(Db(tenants, [], [], [], [], [], []), scope, d, m) == 0
  {
    NoRowsNoDirect(Db(tenants, [], [], [], [], [], []), scope, d, m);
  }

  lemma SameFactsSameDirect(db: Db, db': Db, scope: TenantId, d: Day, m: Metric)
    requires WellFormed(db) && WellFormed(db') && FactsOf(db', m) == FactsOf(db, m)
    requires m == DeliveredCount ==> db'.deliveries == db.deliveries && db.shipments <= db'.shipments
    ensures Direct(db', scope, d, m) == Direct(db, scope, d, m)
  {
    if m == DeliveredCount {
      SameHistory(db, db', scope, d);
    }
  }

  lemma OneMoreFact(db: Db, db': Db, f: Fact, scope: TenantId, d: Day, m: Metric)
    requires WellFormed(db) && WellFormed(db') && m != DeliveredCount && FactsOf(db', m) == FactsOf(db, m) + [f]
    ensures Direct(db', scope, d, m) == Direct(db, scope, d, m) +
      if d == f.day && Sees(scope, f.tenant) && (m == RevenueAmount ==> scope == SENTINEL) then f.amount else 0
  {
    TotalOfLonger(FactsOf(db, m), f, scope, d);
  }

  lemma NdrArrives(db: Db, t: TenantId, day: Day, scope: TenantId, d: Day, m: Metric)
    requires WellFormed(db)
    ensures Direct(db.(ndrs := db.ndrs + [Incident(t, day)]), scope, d, m) == Direct(db, scope, d, m) +
      if m == NdrCount && d == day && Sees(scope, t) then 1 else 0
  {
    var db' := db.(ndrs := db.ndrs + [Incident(t, day)]);
    if m == NdrCount {
      assert FactsOf(db', m) == FactsOf(db, m) + [Fact(t, day, 1)];
      OneMoreFact(db, db', Fact(t, day, 1), scope, d, m);
    } else {
      SameFactsSameDirect(db, db', scope, d, m);
    }
  }

  lemma RtoArrives(db: Db, t: TenantId, day: Day, scope: TenantId, d: Day, m: Metric)
    requires WellFormed(db)
    ensures Direct(db.(rtos := db.rtos + [Incident(t, day)]), scope, d, m) == Direct(db, scope, d, m) +
      if m == RtoCount && d == day && Sees(scope, t) then 1 else 0
  {
    var db' := db.(rtos := db.rtos + [Incident(t, day)]);
    if m == RtoCount {
      assert FactsOf(db', m) == FactsOf(db, m) + [Fact(t, day, 1)];
      OneMoreFact(db, db', Fact(t, day, 1), scope, d, m);
    } else {
      SameFactsSameDirect(db, db', scope, d, m);
    }
  }

  /** Revenue is the platform's alone. */
  lemma InvoiceArrives(db: Db, t: TenantId, day: Day, total: int, scope: TenantId, d: Day, m: Metric)
    requires WellFormed(db)
    ensures Direct(db.(invoices := db.invoices + [Invoice(t, day, total)]), scope, d, m) == Direct(db, scope, d, m) +
      if m == RevenueAmount && d == day && scope == SENTINEL then total else 0
  {
    var db' := db.(invoices := db.invoices + [Invoice(t, day, total)]);
    if m == RevenueAmount {
      assert FactsOf(db', m) == FactsOf(db, m) + [Fact(t, day, total)];
      OneMoreFact(db, db', Fact(t, day, total), scope, d, m);
    } else {
      SameFactsSameDirect(db, db', scope, d, m);
    }
  }

  lemma ShipmentArrives(db: Db, s: Shipment, scope: TenantId, d: Day, m: Metric)
    requires WellFormed(db)
    ensures Direct(db.(shipments := db.shipments + [s]), scope, d, m) == Direct(db, scope, d, m) +
      if !(d == s.day && Sees(scope, s.tenant)) then 0
      else if m == ShipmentsCount then 1
      else if m == ShippingSpend then s.rate.GetOr(0)
      else 0
  {
    var db' := db.(shipments := db.shipments + [s]);
    if m == ShipmentsCount || m == ShippingSpend {
      var f := Fact(s.tenant, s.day, if m == ShipmentsCount then 1 else s.rate.GetOr(0));
      assert FactsOf(db', m) == FactsOf(db, m) + [f];
      OneMoreFact(db, db', f, scope, d, m);
    } else {
      assert FactsOf(db', m) == FactsOf(db, m);
      SameFactsSameDirect(db, db', scope, d, m);
    }
  }

  lemma OrderArrives(db: Db, o: Order, scope: TenantId, d: Day, m: Metric)
    requires WellFormed(db)
    ensures Direct(db.(orders := db.orders + [o]), scope, d, m) == Direct(db, scope, d, m) +
      if !(d == o.day && Sees(scope, o.tenant)) then 0
      else if m == OrdersCount then 1
      else if m == CodAmount && o.mode == Cod then o.codAmount.GetOr(0)
      else if m == PrepaidAmount && o.mode == Prepaid then o.value.GetOr(0)
      else 0
  {
    var db' := db.(orders := db.orders + [o]);
    if m == OrdersCount || m == CodAmount || m == PrepaidAmount {
      assert FactsOf(db', m) == FactsOf(db, m) + [OrderFact(o, m)];
      OneMoreFact(db, db', OrderFact(o, m), scope, d, m);
    } else {
      SameFactsSameDirect(db, db', scope, d, m);
    }
  }

  /** A delivered shipment counts once a day. */
  lemma DeliveryArrives(db: Db, id: nat, day: Day, scope: TenantId, d: Day, m: Metric)
    requires WellFormed(db) && id < |db.shipments|
    ensures WellFormed(db.(deliveries := db.deliveries + [Delivery(id, day)]))
    ensures Direct(db.(deliveries := db.deliveries + [Delivery(id, day)]), scope, d, m) == Direct(db, scope, d, m) +
      if m == DeliveredCount && d == day && Sees(scope, db.shipments[id].tenant) && Delivery(id, day) !in db.deliveries then 1 else 0
  {
    var db' := db.(deliveries := db.deliveries + [Delivery(id, day)]);
    assert WellFormed(db');
    if m == DeliveredCount {
      hide DeliveredShipments;
      hide DeliveredOnce;
      var n := |db.deliveries|;
      SameHistory(db, db', scope, d);
      OneMoreDelivery(db', n + 1, scope, d);
      OneMoreMember(DeliveredShipments(db, n, scope, d), id);
      if Sees(scope, db.shipments[id].tenant) {
        DeliveredBefore(db, id, scope, d);
      }
    } else {
      assert FactsOf(db', m) == FactsOf(db, m);
      SameFactsSameDirect(db, db', scope, d, m);
    }
  }

  lemma SameHistory(db: Db, db': Db, scope: TenantId, d: Day)
    requires WellFormed(db) && WellFormed(db') && db.deliveries <= db'.deliveries && db.shipments <= db'.shipments
    ensures DeliveredShipments(db', |db.deliveries|, scope, d) == DeliveredShipments(db, |db.deliveries|, scope, d)
  {
    assert forall i :: 0 <= i < |db.deliveries| ==> (DeliveredIn(db', i, scope, d) <==> DeliveredIn(db, i, scope, d));
  }

  lemma DeliveredBefore(db: Db, id: nat, scope: TenantId, d: Day)
    requires WellFormed(db) && id < |db.shipments| && Sees(scope, db.shipments[id].tenant)
    ensures id in DeliveredShipments(db, |db.deliveries|, scope, d) <==> Delivery(id, d) in db.deliveries
  {
    if Delivery(id, d) in db.deliveries {
      var i :| 0 <= i < |db.deliveries| && db.deliveries[i] == Delivery(id, d);
      assert DeliveredIn(db, i, scope, d);
    }
  }
}
