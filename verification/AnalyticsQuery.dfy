/**
 The metrics of a date range: snapshots before today and live queries from today on, and why the two
 together say what live queries over the whole range would.

 One clock reading decides today, and days are of one time zone.
 */
module AnalyticsQuery {
  import opened Options
  import opened AnalyticsTables
  import opened SnapshotJob
  import opened MergeSeries

  // ---------- The live queries ----------

  /** The metrics of the six queries; the last one is run for the platform only. */
  const QUERIES: seq<set<Metric>> := [
    {OrdersCount, CodAmount, PrepaidAmount},
    {ShipmentsCount, ShippingSpend},
    {DeliveredCount},
    {NdrCount},
    {RtoCount},
    {RevenueAmount}]

  /** The result of a query grouped by date, in any order: a row for each date that has one, with its aggregates. */
  ghost predicate ByDate(rows: Series, db: Db, scope: TenantId, dateFrom: Day, dateTo: Day, metrics: set<Metric>)
    requires WellFormed(db)
  {
    && (forall i, j :: 0 <= i < j < |rows| ==> rows[i].date != rows[j].date)
    && (forall i :: 0 <= i < |rows| ==> dateFrom <= rows[i].date <= dateTo && rows[i].values.Keys == metrics)
    && (forall i, m :: 0 <= i < |rows| && m in metrics ==> rows[i].values[m] == Direct(db, scope, rows[i].date, m))
    && (forall d, m :: dateFrom <= d <= dateTo && m in metrics && HasRow(FactsOf(db, m), scope, d) ==> HasDate(rows, d))
  }

  ghost predicate LiveResults(series: seq<Series>, db: Db, scope: TenantId, dateFrom: Day, dateTo: Day)
    requires WellFormed(db)
  {
    && |series| == |QUERIES|
    && (forall k :: 0 <= k < 5 ==> ByDate(series[k], db, scope, dateFrom, dateTo, QUERIES[k]))
    && (if scope == SENTINEL then ByDate(series[5], db, scope, dateFrom, dateTo, QUERIES[5]) else series[5] == [])
  }

  ghost predicate IsLive(rows: Series, db: Db, scope: TenantId, dateFrom: Day, dateTo: Day)
    requires WellFormed(db)
  {
    exists series :: LiveResults(series, db, scope, dateFrom, dateTo) && rows == Rendered(Merged(Flatten(series)))
  }

  ghost function DirectRow(db: Db, scope: TenantId, d: Day, metrics: set<Metric>): DatedRow
    requires WellFormed(db)
  {
    DatedRow(d, map m | m in metrics :: Direct(db, scope, d, m))
  }

  /** One way the database can answer a query: the dates that have a row of metric `key`, ascending. */
  ghost function AnyAnswer(db: Db, scope: TenantId, dateFrom: Day, dateTo: Day, metrics: set<Metric>, key: Metric): Series
    requires WellFormed(db)
    decreases dateTo - dateFrom
  {
    if dateFrom > dateTo then []
    else
      (if HasRow(FactsOf(db, key), scope, dateFrom) then [DirectRow(db, scope, dateFrom, metrics)] else [])
      + AnyAnswer(db, scope, dateFrom + 1, dateTo, metrics, key)
  }

  lemma {:induction false} AnyAnswerRows(db: Db, scope: TenantId, dateFrom: Day, dateTo: Day, metrics: set<Metric>, key: Metric)
    requires WellFormed(db)
    ensures var rows := AnyAnswer(db, scope, dateFrom, dateTo, metrics, key);
      AscendingIn(rows, dateFrom, dateTo) && forall i :: 0 <= i < |rows| ==> rows[i] == DirectRow(db, scope, rows[i].date, metrics)
    decreases dateTo - dateFrom
  {
    hide HasRow;
    hide FactsOf;
    hide Direct;
    if dateFrom <= dateTo {
      AnyAnswerRows(db, scope, dateFrom + 1, dateTo, metrics, key);
    }
  }

  lemma {:induction false} AnyAnswerHasDate(db: Db, scope: TenantId, dateFrom: Day, dateTo: Day, metrics: set<Metric>, key: Metric, d: Day)
    requires WellFormed(db) && dateFrom <= d <= dateTo && HasRow(FactsOf(db, key), scope, d)
    ensures HasDate(AnyAnswer(db, scope, dateFrom, dateTo, metrics, key), d)
    decreases dateTo - dateFrom
  {
    hide HasRow;
    hide FactsOf;
    hide Direct;
    var rest := AnyAnswer(db, scope, dateFrom + 1, dateTo, metrics, key);
    var head := if HasRow(FactsOf(db, key), scope, dateFrom) then [DirectRow(db, scope, dateFrom, metrics)] else [];
    HasDateOfConcat(head, rest, d);
    if d == dateFrom {
      assert head[0].date == d;
    } else {
      AnyAnswerHasDate(db, scope, dateFrom + 1, dateTo, metrics, key, d);
    }
  }

  lemma AnyAnswerIsByDate(db: Db, scope: TenantId, dateFrom: Day, dateTo: Day, metrics: set<Metric>, key: Metric)
    requires WellFormed(db)
    requires forall d, m :: m in metrics && HasRow(FactsOf(db, m), scope, d) ==> HasRow(FactsOf(db, key), scope, d)
    ensures ByDate(AnyAnswer(db, scope, dateFrom, dateTo, metrics, key), db, scope, dateFrom, dateTo, metrics)
  {
    hide HasRow;
    hide FactsOf;
    hide Direct;
    hide AnyAnswer;
    AnyAnswerRows(db, scope, dateFrom, dateTo, metrics, key);
    forall d, m | dateFrom <= d <= dateTo && m in metrics && HasRow(FactsOf(db, m), scope, d)
      ensures HasDate(AnyAnswer(db, scope, dateFrom, dateTo, metrics, key), d)
    {
      AnyAnswerHasDate(db, scope, dateFrom, dateTo, metrics, key, d);
    }
  }

  /** Metrics of one query have rows on the same dates. */
  lemma SamePresence(db: Db, scope: TenantId, d: Day, m: Metric)
    requires WellFormed(db)
    ensures m in QUERIES[0] && HasRow(FactsOf(db, m), scope, d) ==> HasRow(FactsOf(db, OrdersCount), scope, d)
    ensures m in QUERIES[1] && HasRow(FactsOf(db, m), scope, d) ==> HasRow(FactsOf(db, ShipmentsCount), scope, d)
  {
    if HasRow(FactsOf(db, m), scope, d) {
      var i :| 0 <= i < |FactsOf(db, m)| && InScope(FactsOf(db, m)[i], scope, d);
      assert m in QUERIES[0] ==> InScope(FactsOf(db, OrdersCount)[i], scope, d);
      assert m in QUERIES[1] ==> InScope(FactsOf(db, ShipmentsCount)[i], scope, d);
    }
  }

  const KEYS: seq<Metric> := [OrdersCount, ShipmentsCount, DeliveredCount, NdrCount, RtoCount, RevenueAmount]

  lemma AnswerToQuery(db: Db, scope: TenantId, dateFrom: Day, dateTo: Day, k: nat)
    requires WellFormed(db) && k < 6
    ensures ByDate(AnyAnswer(db, scope, dateFrom, dateTo, QUERIES[k], KEYS[k]), db, scope, dateFrom, dateTo, QUERIES[k])
  {
    hide HasRow;
    hide FactsOf;
    hide AnyAnswer;
    hide ByDate;
    forall d, m | m in QUERIES[k] && HasRow(FactsOf(db, m), scope, d) ensures HasRow(FactsOf(db, KEYS[k]), scope, d) {
      SamePresence(db, scope, d, m);
    }
    AnyAnswerIsByDate(db, scope, dateFrom, dateTo, QUERIES[k], KEYS[k]);
  }

  lemma AnswersExist(db: Db, scope: TenantId, dateFrom: Day, dateTo: Day) returns (series: seq<Series>)
    requires WellFormed(db)
    ensures LiveResults(series, db, scope, dateFrom, dateTo)
  {
    hide AnyAnswer;
    hide ByDate;
    var answers := seq(6, k requires 0 <= k < 6 => AnyAnswer(db, scope, dateFrom, dateTo, QUERIES[k], KEYS[k]));
    forall k | 0 <= k < 6 ensures ByDate(answers[k], db, scope, dateFrom, dateTo, QUERIES[k]) {
      AnswerToQuery(db, scope, dateFrom, dateTo, k);
    }
    series := if scope == SENTINEL then answers else answers[5 := []];
  }

  /** The live queries can always be answered. */
  lemma LiveExists(db: Db, scope: TenantId, dateFrom: Day, dateTo: Day)
    requires WellFormed(db)
    ensures exists rows :: IsLive(rows, db, scope, dateFrom, dateTo)
  {
    hide LiveResults;
    var series := AnswersExist(db, scope, dateFrom, dateTo);
    assert IsLive(Rendered(Merged(Flatten(series))), db, scope, dateFrom, dateTo);
  }

  method QueryLive(ghost db: Db, series: seq<Series>, ghost scope: TenantId, ghost dateFrom: Day, ghost dateTo: Day) returns (r: Series)
    requires WellFormed(db) && LiveResults(series, db, scope, dateFrom, dateTo)
    ensures IsLive(r, db, scope, dateFrom, dateTo)
  {
    r := Merge(series);
  }

  // ---------- Reading a metric off a result ----------

  /** The metric on a date; a missing row and a null read as zero. */
  function ValueAt(rows: Series, d: Day, m: Metric): int {
    if |rows| == 0 then 0
    else if rows[0].date == d then Lookup(rows[0].values, m).GetOr(0)
    else ValueAt(rows[1..], d, m)
  }

  lemma {:induction false} ValueOfRow(rows: Series, i: nat, m: Metric)
    requires i < |rows| && forall j :: 0 <= j < i ==> rows[j].date != rows[i].date
    ensures ValueAt(rows, rows[i].date, m) == Lookup(rows[i].values, m).GetOr(0)
    decreases i
  {
    if i > 0 {
      var rest := rows[1..];
      assert forall j :: 0 <= j < i - 1 ==> rest[j] == rows[j + 1];
      ValueOfRow(rest, i - 1, m);
    }
  }

  lemma {:induction false} ValueOfNoRow(rows: Series, d: Day, m: Metric)
    requires !HasDate(rows, d)
    ensures ValueAt(rows, d, m) == 0
    decreases |rows|
  {
    if |rows| > 0 {
      assert rows[0].date != d;
      assert forall i :: 0 <= i < |rows[1..]| ==> rows[1..][i] == rows[i + 1];
      ValueOfNoRow(rows[1..], d, m);
    }
  }

  lemma {:induction false} ValueOfConcat(a: Series, b: Series, d: Day, m: Metric)
    ensures ValueAt(a + b, d, m) == if HasDate(a, d) then ValueAt(a, d, m) else ValueAt(b, d, m)
    decreases |a|
  {
    if |a| == 0 {
      assert a + b == b;
    } else {
      assert (a + b)[1..] == a[1..] + b;
      ValueOfConcat(a[1..], b, d, m);
      if HasDate(a, d) && a[0].date != d {
        var i :| 0 <= i < |a| && a[i].date == d;
        assert a[1..][i - 1].date == d;
      }
      if HasDate(a[1..], d) {
        var i :| 0 <= i < |a[1..]| && a[1..][i].date == d;
        assert a[i + 1].date == d;
      }
    }
  }

  ghost predicate AscendingIn(rows: Series, dateFrom: Day, dateTo: Day) {
    && (forall i, j :: 0 <= i < j < |rows| ==> rows[i].date < rows[j].date)
    && (forall i :: 0 <= i < |rows| ==> dateFrom <= rows[i].date <= dateTo)
  }

  // ---------- Live rows give the direct aggregates ----------

  lemma WrittenIsDirect(series: seq<Series>, db: Db, scope: TenantId, dateFrom: Day, dateTo: Day, x: DatedRow, m: Metric)
    requires WellFormed(db) && LiveResults(series, db, scope, dateFrom, dateTo) && x in Flatten(series)
    ensures dateFrom <= x.date <= dateTo
    ensures m in x.values ==> x.values[m] == Direct(db, scope, x.date, m)
  {
    InFlatten(series, x);
    var k :| 0 <= k < |series| && x in series[k];
    var i :| 0 <= i < |series[k]| && series[k][i] == x;
    assert ByDate(series[k], db, scope, dateFrom, dateTo, QUERIES[k]);
  }

  /** A query's row for a date leaves a written value in the merge. */
  lemma RowIsWritten(series: seq<Series>, k: nat, d: Day, m: Metric)
    requires k < |series| && HasDate(series[k], d)
    requires forall i :: 0 <= i < |series[k]| ==> m in series[k][i].values
    ensures LastWrite(Flatten(series), d, m).Some?
  {
    var i :| 0 <= i < |series[k]| && series[k][i].date == d;
    InFlatten(series, series[k][i]);
    LastWriteIsSomeRow(Flatten(series), d, m);
  }

  lemma UnwrittenIsZero(series: seq<Series>, db: Db, scope: TenantId, dateFrom: Day, dateTo: Day, d: Day, m: Metric)
    requires WellFormed(db) && LiveResults(series, db, scope, dateFrom, dateTo) && dateFrom <= d <= dateTo
    requires LastWrite(Flatten(series), d, m).None?
    ensures Direct(db, scope, d, m) == 0
  {
    hide HasRow;
    hide FactsOf;
    hide LastWrite;
    if m != RevenueAmount || scope == SENTINEL {
      var k := QueryOf(m);
      assert ByDate(series[k], db, scope, dateFrom, dateTo, QUERIES[k]);
      if HasDate(series[k], d) {
        RowIsWritten(series, k, d, m);
      }
      NoRowsNoDirect(db, scope, d, m);
    }
  }

  function QueryOf(m: Metric): (k: nat)
    ensures k < |QUERIES| && m in QUERIES[k]
    ensures k == 5 <==> m == RevenueAmount
  {
    match m
    case OrdersCount => 0
    case CodAmount => 0
    case PrepaidAmount => 0
    case ShipmentsCount => 1
    case ShippingSpend => 1
    case DeliveredCount => 2
    case NdrCount => 3
    case RtoCount => 4
    case RevenueAmount => 5
  }

  lemma LiveInRange(series: seq<Series>, db: Db, scope: TenantId, dateFrom: Day, dateTo: Day)
    requires WellFormed(db) && LiveResults(series, db, scope, dateFrom, dateTo)
    ensures AscendingIn(Rendered(Merged(Flatten(series))), dateFrom, dateTo)
  {
    hide LiveResults;
    hide Merged;
    hide Flatten;
    var flat, rows := Flatten(series), Rendered(Merged(Flatten(series)));
    forall i | 0 <= i < |rows| ensures dateFrom <= rows[i].date <= dateTo {
      MergeIsByDate(series, rows[i].date, OrdersCount);
      assert HasDate(flat, rows[i].date);
      var j :| 0 <= j < |flat| && flat[j].date == rows[i].date;
      WrittenIsDirect(series, db, scope, dateFrom, dateTo, flat[j], OrdersCount);
    }
  }

  /** The merged live result is ascending, stays in the range, and reads as the direct aggregate on every date of it. */
  lemma LiveIsDirect(rows: Series, db: Db, scope: TenantId, dateFrom: Day, dateTo: Day)
    requires WellFormed(db) && IsLive(rows, db, scope, dateFrom, dateTo)
    ensures AscendingIn(rows, dateFrom, dateTo)
    ensures forall d, m :: dateFrom <= d <= dateTo ==> ValueAt(rows, d, m) == Direct(db, scope, d, m)
  {
    hide LiveResults;
    hide Merged;
    hide Flatten;
    hide Direct;
    hide ValueAt;
    var series :| LiveResults(series, db, scope, dateFrom, dateTo) && rows == Rendered(Merged(Flatten(series)));
    LiveInRange(series, db, scope, dateFrom, dateTo);
    forall d, m | dateFrom <= d <= dateTo ensures ValueAt(rows, d, m) == Direct(db, scope, d, m) {
      LiveValue(series, db, scope, dateFrom, dateTo, d, m);
    }
  }

  lemma LiveValue(series: seq<Series>, db: Db, scope: TenantId, dateFrom: Day, dateTo: Day, d: Day, m: Metric)
    requires WellFormed(db) && LiveResults(series, db, scope, dateFrom, dateTo) && dateFrom <= d <= dateTo
    ensures ValueAt(Rendered(Merged(Flatten(series))), d, m) == Direct(db, scope, d, m)
  {
    hide LiveResults;
    hide Merged;
    hide Direct;
    var flat, rows := Flatten(series), Rendered(Merged(Flatten(series)));
    MergeIsByDate(series, d, m);
    MergedValue(flat, d, m);
    if LastWrite(flat, d, m).Some? {
      LastWriteIsSomeRow(flat, d, m);
      var x :| x in flat && x.date == d && m in x.values && x.values[m] == LastWrite(flat, d, m).value;
      WrittenIsDirect(series, db, scope, dateFrom, dateTo, x, m);
    } else {
      UnwrittenIsZero(series, db, scope, dateFrom, dateTo, d, m);
    }
    if HasDate(flat, d) {
      var i :| 0 <= i < |rows| && rows[i].date == d;
      ValueOfRow(rows, i, m);
    } else {
      ValueOfNoRow(rows, d, m);
    }
  }

  // ---------- Snapshots ----------

  /** The snapshot rows of a range, ascending. */
  function QuerySnapshots(snapshots: Snapshots, scope: TenantId, dateFrom: Day, dateTo: Day): Series
    decreases dateTo - dateFrom
  {
    if dateFrom > dateTo then []
    else
      (if (scope, dateFrom) in snapshots then [DatedRow(dateFrom, snapshots[(scope, dateFrom)])] else [])
      + QuerySnapshots(snapshots, scope, dateFrom + 1, dateTo)
  }

  function SnapshotValue(snapshots: Snapshots, scope: TenantId, d: Day, m: Metric): int {
    if (scope, d) in snapshots then Lookup(snapshots[(scope, d)], m).GetOr(0) else 0
  }

  lemma {:induction false} SnapshotsAscend(snapshots: Snapshots, scope: TenantId, dateFrom: Day, dateTo: Day)
    ensures AscendingIn(QuerySnapshots(snapshots, scope, dateFrom, dateTo), dateFrom, dateTo)
    decreases dateTo - dateFrom
  {
    if dateFrom <= dateTo {
      SnapshotsAscend(snapshots, scope, dateFrom + 1, dateTo);
    }
  }

  lemma {:induction false} SnapshotRowAt(snapshots: Snapshots, scope: TenantId, dateFrom: Day, dateTo: Day, d: Day, m: Metric)
    requires dateFrom <= d <= dateTo
    ensures var rows := QuerySnapshots(snapshots, scope, dateFrom, dateTo);
      && (HasDate(rows, d) <==> (scope, d) in snapshots)
      && ValueAt(rows, d, m) == SnapshotValue(snapshots, scope, d, m)
    decreases dateTo - dateFrom
  {
    var rows, rest := QuerySnapshots(snapshots, scope, dateFrom, dateTo), QuerySnapshots(snapshots, scope, dateFrom + 1, dateTo);
    var head := if (scope, dateFrom) in snapshots then [DatedRow(dateFrom, snapshots[(scope, dateFrom)])] else [];
    assert rows == head + rest;
    ValueOfConcat(head, rest, d, m);
    HasDateOfConcat(head, rest, d);
    if d > dateFrom {
      SnapshotRowAt(snapshots, scope, dateFrom + 1, dateTo, d, m);
      assert !HasDate(head, d);
    } else {
      SnapshotsAscend(snapshots, scope, dateFrom + 1, dateTo);
      assert !HasDate(rest, d);
      if (scope, dateFrom) in snapshots {
        assert head[0].date == d;
        ValueOfRow(head, 0, m);
      } else {
        ValueOfNoRow(rest, d, m);
      }
    }
  }

  lemma HasDateOfConcat(a: Series, b: Series, d: Day)
    ensures HasDate(a + b, d) <==> HasDate(a, d) || HasDate(b, d)
  {
    assert forall i :: 0 <= i < |b| ==> (a + b)[|a| + i] == b[i];
    assert forall i :: 0 <= i < |a| ==> (a + b)[i] == a[i];
  }

  /** What the job writes for a scope: the tenant's row or the platform row. */
  function JobValue(db: Db, scope: TenantId, d: Day, m: Metric): int
    requires WellFormed(db)
  {
    Lookup(if scope == SENTINEL then PlatformRow(db, d) else TenantRow(db, scope, d), m).GetOr(0)
  }

  /** Its value for each metric. */
  lemma JobValueOf(db: Db, scope: TenantId, d: Day, m: Metric)
    requires WellFormed(db)
    ensures JobValue(db, scope, d, m) ==
      if m == RevenueAmount then (if scope == SENTINEL then Total(FactsOf(db, m), SENTINEL, d) else 0)
      else if scope == SENTINEL then TenantSum(db.tenants, FactsOf(db, m), d)
      else Total(FactsOf(db, m), scope, d)
  {
    hide FactsOf;
    assert m == RevenueAmount || m in COUNTED;
  }

  /** The snapshot of a day reads as the job's row from these tables would. */
  ghost predicate Fits(snapshots: Snapshots, db: Db, scope: TenantId, d: Day)
    requires WellFormed(db)
  {
    forall m :: SnapshotValue(snapshots, scope, d, m) == JobValue(db, scope, d, m)
  }

  // ---------- When a snapshot says what the live query would ----------

  /** A tenant's snapshot agrees on every metric but the delivered count, and on that exactly when no shipment of its was delivered twice that day. */
  lemma TenantSnapshotAgreesIff(db: Db, t: TenantId, d: Day, m: Metric)
    requires WellFormed(db) && t != SENTINEL
    ensures JobValue(db, t, d, m) == Direct(db, t, d, m) <==>
      (m == DeliveredCount ==> DeliveredOnce(db, |db.deliveries|, t, d))
  {
    hide JobValue;
    hide FactsOf;
    hide DeliveredOnce;
    hide DeliveredShipments;
    JobValueOf(db, t, d, m);
    RowsAreShipmentsIff(db, t, d);
  }

  /** The platform snapshot agrees on the revenue; on a summed metric exactly when the rows of unknown tenants add up to nothing. */
  lemma PlatformSnapshotAgreesIff(db: Db, d: Day, m: Metric)
    requires WellFormed(db) && Distinct(db.tenants) && SENTINEL !in db.tenants && m != DeliveredCount
    ensures JobValue(db, SENTINEL, d, m) == Direct(db, SENTINEL, d, m) <==>
      (m == RevenueAmount || OrphanTotal(FactsOf(db, m), db.tenants, d) == 0)
  {
    hide JobValue;
    hide FactsOf;
    JobValueOf(db, SENTINEL, d, m);
    PlatformSumIff(db.tenants, FactsOf(db, m), d);
  }

  /** With known tenants only, the platform's delivered count agrees exactly when no shipment was delivered twice that day. */
  lemma PlatformDeliveredAgreesIff(db: Db, d: Day)
    requires WellFormed(db) && Distinct(db.tenants) && SENTINEL !in db.tenants
    requires KnownTenants(FactsOf(db, DeliveredCount), db.tenants)
    ensures JobValue(db, SENTINEL, d, DeliveredCount) == Direct(db, SENTINEL, d, DeliveredCount) <==>
      DeliveredOnce(db, |db.deliveries|, SENTINEL, d)
  {
    hide JobValue;
    JobValueOf(db, SENTINEL, d, DeliveredCount);
    TenantsPartition(db.tenants, FactsOf(db, DeliveredCount), d);
    NoOrphans(FactsOf(db, DeliveredCount), db.tenants, d);
    RowsAreShipmentsIff(db, SENTINEL, d);
  }

  /** What the primary key of the tenant table and the foreign keys of the others enforce. */
  ghost predicate ForeignKeys(db: Db)
    requires WellFormed(db)
  {
    Distinct(db.tenants) && SENTINEL !in db.tenants && forall m :: KnownTenants(FactsOf(db, m), db.tenants)
  }

  /** So the platform row is the direct aggregate in every metric, the delivered count exactly when no shipment was delivered twice that day. */
  lemma PlatformRowIsDirectIff(db: Db, d: Day, m: Metric)
    requires WellFormed(db) && ForeignKeys(db)
    ensures JobValue(db, SENTINEL, d, m) == Direct(db, SENTINEL, d, m) <==>
      (m == DeliveredCount ==> DeliveredOnce(db, |db.deliveries|, SENTINEL, d))
  {
    if m == DeliveredCount {
      PlatformDeliveredAgreesIff(db, d);
    } else {
      NoOrphans(FactsOf(db, m), db.tenants, d);
      PlatformSnapshotAgreesIff(db, d, m);
    }
  }

  /** Two overlapping status updates can both write the delivered row of one shipment: the job then counts it twice. */
  lemma DeliveredTwiceDisagrees(t: TenantId, d: Day) returns (db: Db)
    requires t != SENTINEL
    ensures WellFormed(db) && ForeignKeys(db) && db.deliveries == [Delivery(0, d), Delivery(0, d)]
    ensures JobValue(db, t, d, DeliveredCount) != Direct(db, t, d, DeliveredCount)
    ensures JobValue(db, SENTINEL, d, DeliveredCount) != Direct(db, SENTINEL, d, DeliveredCount)
  {
    hide JobValue;
    hide Direct;
    db := Db([t], [], [Shipment(t, d, None)], [Delivery(0, d), Delivery(0, d)], [], [], []);
    assert DeliveredIn(db, 0, t, d) && DeliveredIn(db, 1, t, d);
    assert DeliveredIn(db, 0, SENTINEL, d) && DeliveredIn(db, 1, SENTINEL, d);
    TenantSnapshotAgreesIff(db, t, d, DeliveredCount);
    PlatformDeliveredAgreesIff(db, d);
  }

  /** The foreign keys hold and no shipment is delivered twice a day. */
  ghost predicate Clean(db: Db)
    requires WellFormed(db)
  {
    ForeignKeys(db) && forall d :: DeliveredOnce(db, |db.deliveries|, SENTINEL, d)
  }

  lemma CleanJobIsDirect(db: Db, scope: TenantId, d: Day, m: Metric)
    requires WellFormed(db) && Clean(db)
    ensures JobValue(db, scope, d, m) == Direct(db, scope, d, m)
  {
    assert DeliveredOnce(db, |db.deliveries|, SENTINEL, d);
    if scope != SENTINEL {
      assert DeliveredOnce(db, |db.deliveries|, scope, d);
      TenantSnapshotAgreesIff(db, scope, d, m);
    } else {
      PlatformRowIsDirectIff(db, d, m);
    }
  }

  // ---------- The routed query ----------

  /** `live` is the live result for the part of the range from today on; it is not asked for when there is none. */
  function GetMetrics(snapshots: Snapshots, scope: TenantId, dateFrom: Day, dateTo: Day, today: Day, live: Series): Series {
    if dateTo < today then QuerySnapshots(snapshots, scope, dateFrom, dateTo)
    else if dateFrom >= today then live
    else QuerySnapshots(snapshots, scope, dateFrom, today - 1) + live
  }

  function LiveFrom(dateFrom: Day, today: Day): Day {
    if dateFrom >= today then dateFrom else today
  }

  /** On each date the answer is the snapshot before today and the direct aggregate from today on, in strictly ascending order. */
  lemma GetMetricsByDate(snapshots: Snapshots, db: Db, scope: TenantId, dateFrom: Day, dateTo: Day, today: Day, live: Series)
    requires WellFormed(db)
    requires today <= dateTo ==> IsLive(live, db, scope, LiveFrom(dateFrom, today), dateTo)
    ensures var rows := GetMetrics(snapshots, scope, dateFrom, dateTo, today, live);
      && AscendingIn(rows, dateFrom, dateTo)
      && forall d, m :: dateFrom <= d <= dateTo ==>
           ValueAt(rows, d, m) == if d < today then SnapshotValue(snapshots, scope, d, m) else Direct(db, scope, d, m)
  {
    hide Direct;
    hide IsLive;
    hide ValueAt;
    hide QuerySnapshots;
    hide SnapshotValue;
    var lastPast := if dateTo < today then dateTo else today - 1;
    var before := QuerySnapshots(snapshots, scope, dateFrom, lastPast);
    SnapshotsAscend(snapshots, scope, dateFrom, lastPast);
    if today <= dateTo {
      LiveIsDirect(live, db, scope, LiveFrom(dateFrom, today), dateTo);
    }
    forall d, m | dateFrom <= d <= dateTo
      ensures ValueAt(GetMetrics(snapshots, scope, dateFrom, dateTo, today, live), d, m) ==
        if d < today then SnapshotValue(snapshots, scope, d, m) else Direct(db, scope, d, m)
    {
      if d < today {
        SnapshotRowAt(snapshots, scope, dateFrom, lastPast, d, m);
      }
      if dateFrom < today <= dateTo {
        ValueOfSplit(before, live, dateFrom, today, dateTo, d, m);
      }
    }
  }

  /** A result in two parts reads as its part before the split, or as the other from there on. */
  lemma ValueOfSplit(before: Series, live: Series, dateFrom: Day, today: Day, dateTo: Day, d: Day, m: Metric)
    requires AscendingIn(before, dateFrom, today - 1) && AscendingIn(live, today, dateTo)
    ensures ValueAt(before + live, d, m) == if d < today then ValueAt(before, d, m) else ValueAt(live, d, m)
  {
    hide ValueAt;
    ValueOfConcat(before, live, d, m);
    if d < today {
      NotBeforeRange(live, today, dateTo, d);
      ValueOfNoRow(live, d, m);
      if !HasDate(before, d) {
        ValueOfNoRow(before, d, m);
      }
    } else {
      NotAfterRange(before, dateFrom, today - 1, d);
    }
  }

  lemma NotBeforeRange(rows: Series, dateFrom: Day, dateTo: Day, d: Day)
    requires AscendingIn(rows, dateFrom, dateTo) && d < dateFrom
    ensures !HasDate(rows, d)
  {
  }

  lemma NotAfterRange(rows: Series, dateFrom: Day, dateTo: Day, d: Day)
    requires AscendingIn(rows, dateFrom, dateTo) && d > dateTo
    ensures !HasDate(rows, d)
  {
  }

  /** With fitting snapshots for the past days and clean tables, the answer is the all-live aggregate of the range. */
  lemma GetMetricsIsAllLive(snapshots: Snapshots, db: Db, scope: TenantId, dateFrom: Day, dateTo: Day, today: Day, live: Series, all: Series)
    requires WellFormed(db) && Clean(db)
    requires forall d :: dateFrom <= d <= dateTo && d < today ==> Fits(snapshots, db, scope, d)
    requires today <= dateTo ==> IsLive(live, db, scope, LiveFrom(dateFrom, today), dateTo)
    requires IsLive(all, db, scope, dateFrom, dateTo)
    ensures var rows := GetMetrics(snapshots, scope, dateFrom, dateTo, today, live);
      && AscendingIn(rows, dateFrom, dateTo)
      && forall d, m :: dateFrom <= d <= dateTo ==> ValueAt(rows, d, m) == ValueAt(all, d, m) == Direct(db, scope, d, m)
  {
    GetMetricsByDate(snapshots, db, scope, dateFrom, dateTo, today, live);
    LiveIsDirect(all, db, scope, dateFrom, dateTo);
    forall d, m | dateFrom <= d <= dateTo && d < today ensures SnapshotValue(snapshots, scope, d, m) == Direct(db, scope, d, m) {
      assert Fits(snapshots, db, scope, d);
      CleanJobIsDirect(db, scope, d, m);
    }
  }

  /** A past day without a snapshot row reads as zero: it agrees exactly when nothing happened on it. */
  lemma MissingSnapshotAgreesIff(snapshots: Snapshots, db: Db, scope: TenantId, dateFrom: Day, dateTo: Day, today: Day, live: Series, d: Day, m: Metric)
    requires WellFormed(db) && dateFrom <= d <= dateTo && d < today && (scope, d) !in snapshots
    requires today <= dateTo ==> IsLive(live, db, scope, LiveFrom(dateFrom, today), dateTo)
    ensures ValueAt(GetMetrics(snapshots, scope, dateFrom, dateTo, today, live), d, m) == Direct(db, scope, d, m) <==>
      Direct(db, scope, d, m) == 0
  {
    GetMetricsByDate(snapshots, db, scope, dateFrom, dateTo, today, live);
  }
}
