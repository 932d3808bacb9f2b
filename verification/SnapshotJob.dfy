/**
 The nightly job: grouped queries over one day are folded into one row per tenant and one platform row,
 and the rows are upserted into the snapshot table.

 The results of the grouped queries are inputs, in any order the database returns them.
 */
module SnapshotJob {
  import opened Options
  import opened AnalyticsTables

  const COUNTED: set<Metric> :=
    {OrdersCount, ShipmentsCount, DeliveredCount, NdrCount, RtoCount, CodAmount, PrepaidAmount, ShippingSpend}

  /** The start row of a tenant: zeros, and no revenue. */
  const ZERO_ROW: Row := map m | m in COUNTED :: 0

  type Snapshots = map<(TenantId, Day), Row>

  // ---------- Orders, grouped by tenant and payment mode ----------

  datatype OrderGroup = OrderGroup(tenant: TenantId, mode: PaymentMode, count: int, codSum: Option<int>, valueSum: Option<int>)

  predicate InGroup(o: Order, tenant: TenantId, mode: PaymentMode, day: Day) {
    o.tenant == tenant && o.mode == mode && o.day == day
  }

  /** COUNT(id), SUM(cod_amount) or SUM(order_value) over one group. */
  function GroupTotal(orders: seq<Order>, tenant: TenantId, mode: PaymentMode, day: Day, m: Metric): int {
    if |orders| == 0 then 0
    else
      var o := orders[|orders| - 1];
      GroupTotal(orders[..|orders| - 1], tenant, mode, day, m) +
      if !InGroup(o, tenant, mode, day) then 0
      else match m
        case CodAmount => o.codAmount.GetOr(0)
        case PrepaidAmount => o.value.GetOr(0)
        case _ => 1
  }

  /** One group for each tenant and mode that has an order on the day. */
  ghost predicate GroupsOrders(groups: seq<OrderGroup>, orders: seq<Order>, day: Day) {
    && (forall i, j :: 0 <= i < j < |groups| ==> (groups[i].tenant, groups[i].mode) != (groups[j].tenant, groups[j].mode))
    && (forall i :: 0 <= i < |groups| ==> OrderGroupOk(groups[i], orders, day))
    && (forall k :: 0 <= k < |orders| && orders[k].day == day ==>
         exists i :: 0 <= i < |groups| && groups[i].tenant == orders[k].tenant && groups[i].mode == orders[k].mode)
  }

  predicate OrderGroupOk(g: OrderGroup, orders: seq<Order>, day: Day) {
    && g.count == GroupTotal(orders, g.tenant, g.mode, day, OrdersCount)
    && g.codSum.GetOr(0) == GroupTotal(orders, g.tenant, g.mode, day, CodAmount)
    && g.valueSum.GetOr(0) == GroupTotal(orders, g.tenant, g.mode, day, PrepaidAmount)
  }

  function AddOrderGroup(row: Row, g: OrderGroup): Row
    requires OrdersCount in row && CodAmount in row && PrepaidAmount in row
  {
    var counted := row[OrdersCount := row[OrdersCount] + g.count];
    if g.mode == Cod then counted[CodAmount := row[CodAmount] + g.codSum.GetOr(0)]
    else counted[PrepaidAmount := row[PrepaidAmount] + g.valueSum.GetOr(0)]
  }

  /** A tenant's row after the groups, starting from zeros. */
  function AddedOrders(groups: seq<OrderGroup>, t: TenantId): (r: Row)
    ensures r.Keys == COUNTED
  {
    if |groups| == 0 then ZERO_ROW
    else
      var before, g := AddedOrders(groups[..|groups| - 1], t), groups[|groups| - 1];
      if g.tenant == t then AddOrderGroup(before, g) else before
  }

  predicate Seen(groups: seq<OrderGroup>, t: TenantId, mode: PaymentMode) {
    exists i :: 0 <= i < |groups| && groups[i].tenant == t && groups[i].mode == mode
  }

  /** What the groups of one mode have added so far. */
  function SeenTotal(groups: seq<OrderGroup>, orders: seq<Order>, t: TenantId, mode: PaymentMode, day: Day, m: Metric): int {
    if Seen(groups, t, mode) then GroupTotal(orders, t, mode, day, m) else 0
  }

  ghost predicate OrdersAdded(r: Row, groups: seq<OrderGroup>, orders: seq<Order>, t: TenantId, day: Day)
    requires r.Keys == COUNTED
  {
    && r[OrdersCount] == SeenTotal(groups, orders, t, Cod, day, OrdersCount) + SeenTotal(groups, orders, t, Prepaid, day, OrdersCount)
    && r[CodAmount] == SeenTotal(groups, orders, t, Cod, day, CodAmount)
    && r[PrepaidAmount] == SeenTotal(groups, orders, t, Prepaid, day, PrepaidAmount)
    && forall m :: m in COUNTED - {OrdersCount, CodAmount, PrepaidAmount} ==> r[m] == 0
  }

  lemma SeenOneMore(groups: seq<OrderGroup>, g: OrderGroup, t: TenantId, mode: PaymentMode)
    ensures Seen(groups + [g], t, mode) <==> Seen(groups, t, mode) || (g.tenant == t && g.mode == mode)
  {
    assert (groups + [g])[|groups|] == g;
    if Seen(groups, t, mode) {
      var i :| 0 <= i < |groups| && groups[i].tenant == t && groups[i].mode == mode;
      assert (groups + [g])[i] == groups[i];
    }
  }

  lemma {:induction false} OrderGroupsAddUp(groups: seq<OrderGroup>, orders: seq<Order>, t: TenantId, day: Day)
    requires forall i, j :: 0 <= i < j < |groups| ==> (groups[i].tenant, groups[i].mode) != (groups[j].tenant, groups[j].mode)
    requires forall i :: 0 <= i < |groups| ==> OrderGroupOk(groups[i], orders, day)
    ensures OrdersAdded(AddedOrders(groups, t), groups, orders, t, day)
    decreases |groups|
  {
    if |groups| > 0 {
      var front, g := groups[..|groups| - 1], groups[|groups| - 1];
      OrderGroupsAddUp(front, orders, t, day);
      assert groups == front + [g];
      SeenOneMore(front, g, t, Cod);
      SeenOneMore(front, g, t, Prepaid);
      assert !Seen(front, g.tenant, g.mode);
      assert OrderGroupOk(g, orders, day);
      hide GroupTotal;
      hide Seen;
    }
  }

  /** The order facts of one metric add up group by group. */
  function ModeTotal(orders: seq<Order>, t: TenantId, day: Day, m: Metric): int {
    match m
    case CodAmount => GroupTotal(orders, t, Cod, day, m)
    case PrepaidAmount => GroupTotal(orders, t, Prepaid, day, m)
    case _ => GroupTotal(orders, t, Cod, day, m) + GroupTotal(orders, t, Prepaid, day, m)
  }

  lemma {:induction false} ModesMakeTheTotal(orders: seq<Order>, facts: seq<Fact>, t: TenantId, day: Day, m: Metric)
    requires |facts| == |orders| && forall i :: 0 <= i < |orders| ==> facts[i] == OrderFact(orders[i], m)
    requires t != SENTINEL
    ensures Total(facts, t, day) == ModeTotal(orders, t, day, m)
    decreases |orders|
  {
    if |orders| > 0 {
      ModesMakeTheTotal(orders[..|orders| - 1], facts[..|facts| - 1], t, day, m);
      assert facts[|facts| - 1] == OrderFact(orders[|orders| - 1], m);
    }
  }

  lemma {:induction false} NoOrdersNoTotal(orders: seq<Order>, t: TenantId, mode: PaymentMode, day: Day, m: Metric)
    requires forall k :: 0 <= k < |orders| ==> !InGroup(orders[k], t, mode, day)
    ensures GroupTotal(orders, t, mode, day, m) == 0
    decreases |orders|
  {
    if |orders| > 0 {
      NoOrdersNoTotal(orders[..|orders| - 1], t, mode, day, m);
    }
  }

  /** After all groups the order metrics of a tenant are its totals of the day. */
  lemma AddedOrdersAreTotals(db: Db, groups: seq<OrderGroup>, t: TenantId, day: Day)
    requires WellFormed(db) && t != SENTINEL && GroupsOrders(groups, db.orders, day)
    ensures var r := AddedOrders(groups, t);
      && (forall m :: m in {OrdersCount, CodAmount, PrepaidAmount} ==> r[m] == Total(FactsOf(db, m), t, day))
      && (forall m :: m in COUNTED - {OrdersCount, CodAmount, PrepaidAmount} ==> r[m] == 0)
  {
    OrderGroupsAddUp(groups, db.orders, t, day);
    forall m | m in {OrdersCount, CodAmount, PrepaidAmount} ensures Total(FactsOf(db, m), t, day) == ModeTotal(db.orders, t, day, m) {
      ModesMakeTheTotal(db.orders, FactsOf(db, m), t, day, m);
    }
    forall mode, m ensures SeenTotal(groups, db.orders, t, mode, day, m) == GroupTotal(db.orders, t, mode, day, m) {
      if !Seen(groups, t, mode) {
        NoOrdersNoTotal(db.orders, t, mode, day, m);
      }
    }
  }

  // ---------- The other tables, grouped by tenant ----------

  datatype Group = Group(tenant: TenantId, values: Row)

  /** One group for each tenant that has a row on the day, with its totals. */
  ghost predicate Groups(groups: seq<Group>, db: Db, day: Day, metrics: set<Metric>)
    requires WellFormed(db)
  {
    && (forall i, j :: 0 <= i < j < |groups| ==> groups[i].tenant != groups[j].tenant)
    && (forall i :: 0 <= i < |groups| ==> groups[i].values.Keys == metrics)
    && (forall i, m :: 0 <= i < |groups| && m in metrics ==>
         groups[i].values[m] == Total(FactsOf(db, m), groups[i].tenant, day))
    && (forall m, t :: m in metrics && t != SENTINEL && HasRow(FactsOf(db, m), t, day) ==>
         exists i :: 0 <= i < |groups| && groups[i].tenant == t)
  }

  /** A tenant's row after the groups have been assigned to it. */
  function Assigned(groups: seq<Group>, t: TenantId, row: Row): Row {
    if |groups| == 0 then row
    else
      var before, g := Assigned(groups[..|groups| - 1], t, row), groups[|groups| - 1];
      if g.tenant == t then before + g.values else before
  }

  lemma {:induction false} AssignedValue(groups: seq<Group>, t: TenantId, row: Row, metrics: set<Metric>)
    requires forall i :: 0 <= i < |groups| ==> groups[i].values.Keys == metrics
    requires forall i, j :: 0 <= i < j < |groups| ==> groups[i].tenant != groups[j].tenant
    requires metrics <= row.Keys
    ensures Assigned(groups, t, row).Keys == row.Keys
    ensures forall m :: m in row && m !in metrics ==> Assigned(groups, t, row)[m] == row[m]
    ensures forall i, m :: 0 <= i < |groups| && groups[i].tenant == t && m in metrics ==> Assigned(groups, t, row)[m] == groups[i].values[m]
    ensures (forall i :: 0 <= i < |groups| ==> groups[i].tenant != t) ==> Assigned(groups, t, row) == row
    decreases |groups|
  {
    if |groups| > 0 {
      var front, g := groups[..|groups| - 1], groups[|groups| - 1];
      AssignedValue(front, t, row, metrics);
      assert forall i :: 0 <= i < |front| ==> front[i] == groups[i];
    }
  }

  /** Assigning the groups of some metrics over zeros gives the totals of the day. */
  lemma AssignedAreTotals(db: Db, groups: seq<Group>, t: TenantId, day: Day, row: Row, metrics: set<Metric>)
    requires WellFormed(db) && t != SENTINEL && Groups(groups, db, day, metrics) && metrics <= row.Keys
    requires forall m :: m in metrics ==> row[m] == 0
    ensures var r := Assigned(groups, t, row);
      && r.Keys == row.Keys
      && (forall m :: m in metrics ==> r[m] == Total(FactsOf(db, m), t, day))
      && (forall m :: m in row.Keys - metrics ==> r[m] == row[m])
  {
    AssignedValue(groups, t, row, metrics);
    forall m | m in metrics ensures Assigned(groups, t, row)[m] == Total(FactsOf(db, m), t, day) {
      if i :| 0 <= i < |groups| && groups[i].tenant == t {
      } else {
        NoRowsNoTotal(FactsOf(db, m), t, day);
      }
    }
  }

  // ---------- The rows the job must write ----------

  function TenantRow(db: Db, t: TenantId, day: Day): Row
    requires WellFormed(db)
  {
    map m | m in COUNTED :: Total(FactsOf(db, m), t, day)
  }

  /** Sums of the tenant rows, and the invoice total. */
  function PlatformRow(db: Db, day: Day): Row
    requires WellFormed(db)
  {
    (map m | m in COUNTED :: TenantSum(db.tenants, FactsOf(db, m), day))
      [RevenueAmount := Total(FactsOf(db, RevenueAmount), SENTINEL, day)]
  }

  /** The five queries, folded one after another, give the tenant's row. */
  lemma FoldedRowIsTenantRow(db: Db, t: TenantId, day: Day, orders: seq<OrderGroup>, shipments: seq<Group>,
                             delivered: seq<Group>, ndrs: seq<Group>, rtos: seq<Group>)
    requires WellFormed(db) && t != SENTINEL && GroupsOrders(orders, db.orders, day)
    requires Groups(shipments, db, day, {ShipmentsCount, ShippingSpend}) && Groups(delivered, db, day, {DeliveredCount})
    requires Groups(ndrs, db, day, {NdrCount}) && Groups(rtos, db, day, {RtoCount})
    ensures Assigned(rtos, t, Assigned(ndrs, t, Assigned(delivered, t, Assigned(shipments, t, AddedOrders(orders, t)))))
      == TenantRow(db, t, day)
  {
    hide GroupsOrders;
    hide Groups;
    hide AddedOrders;
    hide Assigned;
    hide Total;
    hide FactsOf;
    AddedOrdersAreTotals(db, orders, t, day);
    var r1 := AddedOrders(orders, t);
    AssignedAreTotals(db, shipments, t, day, r1, {ShipmentsCount, ShippingSpend});
    var r2 := Assigned(shipments, t, r1);
    AssignedAreTotals(db, delivered, t, day, r2, {DeliveredCount});
    var r3 := Assigned(delivered, t, r2);
    AssignedAreTotals(db, ndrs, t, day, r3, {NdrCount});
    var r4 := Assigned(ndrs, t, r3);
    AssignedAreTotals(db, rtos, t, day, r4, {RtoCount});
    var r5 := Assigned(rtos, t, r4);
    forall m | m in COUNTED ensures r5[m] == Total(FactsOf(db, m), t, day) {
      match m
      case OrdersCount =>
      case CodAmount =>
      case PrepaidAmount =>
      case _ =>
    }
  }

  function Plus(a: Row, b: Row): Row {
    map m | m in a :: a[m] + if m in b then b[m] else 0
  }

  /** The sums over the first n tenants. */
  function CountedSums(db: Db, n: nat, day: Day): Row
    requires WellFormed(db) && n <= |db.tenants|
  {
    map m | m in COUNTED :: TenantSum(db.tenants[..n], FactsOf(db, m), day)
  }

  lemma CountedSumsStep(db: Db, n: nat, day: Day)
    requires WellFormed(db) && n < |db.tenants|
    ensures Plus(CountedSums(db, n, day), TenantRow(db, db.tenants[n], day)) == CountedSums(db, n + 1, day)
  {
    hide FactsOf;
    hide Total;
    hide TenantSum;
    assert db.tenants[..n + 1] == db.tenants[..n] + [db.tenants[n]];
    forall m | m in COUNTED
      ensures CountedSums(db, n + 1, day)[m] == CountedSums(db, n, day)[m] + TenantRow(db, db.tenants[n], day)[m]
    {
      TenantSumSnoc(db.tenants[..n], db.tenants[n], FactsOf(db, m), day);
    }
  }

  /** The snapshot table once the rows of a day are in it. */
  ghost predicate Upserted(before: Snapshots, after: Snapshots, db: Db, day: Day)
    requires WellFormed(db)
  {
    && (forall t :: t in db.tenants ==> (t, day) in after && after[(t, day)] == TenantRow(db, t, day))
    && (SENTINEL, day) in after && after[(SENTINEL, day)] == PlatformRow(db, day)
    && (forall key: (TenantId, Day) :: !(key.1 == day && (key.0 == SENTINEL || key.0 in db.tenants)) ==>
         (key in after <==> key in before) && (key in before ==> after[key] == before[key]))
  }

  // ---------- The job ----------

  class Job {
    var snapshots: Snapshots

    constructor ()
      ensures snapshots == map[]
    {
      snapshots := map[];
    }

    method AddOrders(tenants: seq<TenantId>, groups: seq<OrderGroup>) returns (r: map<TenantId, Row>)
      ensures forall t :: t in r <==> t in tenants
      ensures forall t :: t in r ==> r[t] == AddedOrders(groups, t)
    {
      hide AddedOrders;
      r := map t | t in tenants :: ZERO_ROW;
      forall t | t in r ensures r[t] == AddedOrders([], t) {
        NoOrdersAdded(t);
      }
      assert groups[..0] == [];
      for i := 0 to |groups|
        invariant forall t :: t in r <==> t in tenants
        invariant forall t :: t in r ==> r[t] == AddedOrders(groups[..i], t)
      {
        var g := groups[i];
        forall t | t in r
          ensures AddedOrders(groups[..i + 1], t) == if t == g.tenant then AddOrderGroup(AddedOrders(groups[..i], t), g) else AddedOrders(groups[..i], t)
        {
          OneOrderGroup(groups, i, t);
        }
        if g.tenant in r {
          r := r[g.tenant := AddOrderGroup(r[g.tenant], g)];
        }
      }
      assert groups[..|groups|] == groups;
    }

    method AssignGroups(aggregates: map<TenantId, Row>, groups: seq<Group>) returns (r: map<TenantId, Row>)
      ensures r.Keys == aggregates.Keys
      ensures forall t :: t in r ==> r[t] == Assigned(groups, t, aggregates[t])
    {
      r := aggregates;
      for i := 0 to |groups|
        invariant r.Keys == aggregates.Keys
        invariant forall t :: t in r ==> r[t] == Assigned(groups[..i], t, aggregates[t])
      {
        var g := groups[i];
        assert groups[..i + 1][..i] == groups[..i];
        if g.tenant in r {
          r := r[g.tenant := r[g.tenant] + g.values];
        }
      }
      assert groups[..|groups|] == groups;
    }

    /** The tenant rows, from the five grouped queries. */
    method TenantRows(ghost db: Db, tenants: seq<TenantId>, day: Day, orders: seq<OrderGroup>, shipments: seq<Group>,
                      delivered: seq<Group>, ndrs: seq<Group>, rtos: seq<Group>)
      returns (r: map<TenantId, Row>)
      requires WellFormed(db) && tenants == db.tenants && SENTINEL !in tenants
      requires GroupsOrders(orders, db.orders, day)
      requires Groups(shipments, db, day, {ShipmentsCount, ShippingSpend}) && Groups(delivered, db, day, {DeliveredCount})
      requires Groups(ndrs, db, day, {NdrCount}) && Groups(rtos, db, day, {RtoCount})
      ensures forall t :: t in r <==> t in tenants
      ensures forall t :: t in r ==> r[t] == TenantRow(db, t, day)
    {
      hide GroupsOrders;
      hide Groups;
      hide AddedOrders;
      hide Assigned;
      hide TenantRow;
      var a1 := AddOrders(tenants, orders);
      var a2 := AssignGroups(a1, shipments);
      var a3 := AssignGroups(a2, delivered);
      var a4 := AssignGroups(a3, ndrs);
      r := AssignGroups(a4, rtos);
      forall t | t in r ensures r[t] == TenantRow(db, t, day) {
        FoldedRowIsTenantRow(db, t, day, orders, shipments, delivered, ndrs, rtos);
      }
    }

    /** The platform row: sums over the tenant rows, then the invoice total. */
    method SumRows(ghost db: Db, tenants: seq<TenantId>, ghost day: Day, aggregates: map<TenantId, Row>, invoicesSum: Option<int>) returns (r: Row)
      requires WellFormed(db) && tenants == db.tenants
      requires forall t :: t in aggregates <==> t in tenants
      requires forall t :: t in aggregates ==> aggregates[t] == TenantRow(db, t, day)
      requires invoicesSum.GetOr(0) == Total(FactsOf(db, RevenueAmount), SENTINEL, day)
      ensures r == PlatformRow(db, day)
    {
      hide TenantRow;
      hide FactsOf;
      hide Total;
      r := ZERO_ROW;
      assert r == CountedSums(db, 0, day);
      for i := 0 to |tenants|
        invariant r == CountedSums(db, i, day)
      {
        CountedSumsStep(db, i, day);
        r := Plus(r, aggregates[tenants[i]]);
      }
      assert tenants[..|tenants|] == tenants;
      r := r[RevenueAmount := invoicesSum.GetOr(0)];
    }

    /** The upserts, in one transaction. */
    method UpsertRows(tenants: seq<TenantId>, day: Day, aggregates: map<TenantId, Row>, platformRow: Row)
      requires forall t :: t in aggregates <==> t in tenants
      requires SENTINEL !in tenants
      modifies this
      ensures forall t :: t in tenants ==> (t, day) in snapshots && snapshots[(t, day)] == aggregates[t]
      ensures (SENTINEL, day) in snapshots && snapshots[(SENTINEL, day)] == platformRow
      ensures forall key: (TenantId, Day) :: !(key.1 == day && (key.0 == SENTINEL || key.0 in tenants)) ==>
        (key in snapshots <==> key in old(snapshots)) && (key in old(snapshots) ==> snapshots[key] == old(snapshots)[key])
    {
      for i := 0 to |tenants|
        invariant forall j :: 0 <= j < i ==> (tenants[j], day) in snapshots && snapshots[(tenants[j], day)] == aggregates[tenants[j]]
        invariant forall key: (TenantId, Day) :: !(key.1 == day && (key.0 == SENTINEL || key.0 in tenants)) ==>
          (key in snapshots <==> key in old(snapshots)) && (key in old(snapshots) ==> snapshots[key] == old(snapshots)[key])
      {
        snapshots := snapshots[(tenants[i], day) := aggregates[tenants[i]]];
      }
      snapshots := snapshots[(SENTINEL, day) := platformRow];
    }

    method RunAggregationForDate(ghost db: Db, tenants: seq<TenantId>, day: Day, orders: seq<OrderGroup>, shipments: seq<Group>,
                                 delivered: seq<Group>, ndrs: seq<Group>, rtos: seq<Group>, invoicesSum: Option<int>)
      requires WellFormed(db) && tenants == db.tenants && SENTINEL !in tenants
      requires GroupsOrders(orders, db.orders, day)
      requires Groups(shipments, db, day, {ShipmentsCount, ShippingSpend}) && Groups(delivered, db, day, {DeliveredCount})
      requires Groups(ndrs, db, day, {NdrCount}) && Groups(rtos, db, day, {RtoCount})
      requires invoicesSum.GetOr(0) == Total(FactsOf(db, RevenueAmount), SENTINEL, day)
      modifies this
      ensures Upserted(old(snapshots), snapshots, db, day)
    {
      var aggregates := TenantRows(db, tenants, day, orders, shipments, delivered, ndrs, rtos);
      var platformRow := SumRows(db, tenants, day, aggregates, invoicesSum);
      hide TenantRow;
      hide PlatformRow;
      UpsertRows(tenants, day, aggregates, platformRow);
    }
  }

  lemma NoOrdersAdded(t: TenantId)
    ensures AddedOrders([], t) == ZERO_ROW
  {
  }

  lemma OneOrderGroup(groups: seq<OrderGroup>, i: nat, t: TenantId)
    requires i < |groups|
    ensures var before := AddedOrders(groups[..i], t);
      AddedOrders(groups[..i + 1], t) == if t == groups[i].tenant then AddOrderGroup(before, groups[i]) else before
  {
    assert groups[..i + 1][..i] == groups[..i];
  }
}
