/** Merging query results by date into one row per date. */
module MergeSeries {
  import opened Options
  import opened AnalyticsTables
  import opened SnapshotJob

  datatype DatedRow = DatedRow(date: Day, values: Row)

  type Series = seq<DatedRow>

  /** All rows, series after series. */
  function Flatten(series: seq<Series>): Series {
    if |series| == 0 then [] else Flatten(series[..|series| - 1]) + series[|series| - 1]
  }

  /** What the loops leave in `merged`: a row is created with the defaults and each key of each row is written over it. */
  function Merged(rows: Series): map<Day, Row> {
    if |rows| == 0 then map[]
    else
      var before, row := Merged(rows[..|rows| - 1]), rows[|rows| - 1];
      before[row.date := (if row.date in before then before[row.date] else ZERO_ROW) + row.values]
  }

  // ---------- Ascending dates ----------

  lemma {:induction false} HasLeast(days: set<Day>)
    requires days != {}
    ensures exists least :: least in days && forall d :: d in days ==> least <= d
    decreases |days|
  {
    if forall d :: d !in days {
      assert false;
    }
    var d :| d in days;
    var rest := days - {d};
    assert days == rest + {d};
    if rest != {} {
      HasLeast(rest);
      var least :| least in rest && forall e :: e in rest ==> least <= e;
      var both := if d < least then d else least;
      assert both in days && forall e :: e in days ==> both <= e;
    } else {
      assert d in days && forall e :: e in days ==> d <= e;
    }
  }

  function Least(days: set<Day>): (r: Day)
    requires days != {}
    ensures r in days && forall d :: d in days ==> r <= d
  {
    HasLeast(days);
    var least :| least in days && forall d :: d in days ==> least <= d;
    least
  }

  function Ascending(days: set<Day>): (r: seq<Day>)
    ensures forall d :: d in r <==> d in days
    ensures forall i, j :: 0 <= i < j < |r| ==> r[i] < r[j]
    decreases |days|
  {
    if days == {} then []
    else
      var least := Least(days);
      var rest := Ascending(days - {least});
      assert forall i :: 0 <= i < |rest| ==> rest[i] in rest;
      [least] + rest
  }

  lemma {:induction false} AscendingIsUnique(a: seq<Day>, b: seq<Day>)
    requires forall i, j :: 0 <= i < j < |a| ==> a[i] < a[j]
    requires forall i, j :: 0 <= i < j < |b| ==> b[i] < b[j]
    requires forall d :: d in a <==> d in b
    ensures a == b
    decreases |a|
  {
    assert forall i :: 0 <= i < |a| ==> a[i] in a;
    assert forall i :: 0 <= i < |b| ==> b[i] in b;
    if |a| == 0 || |b| == 0 {
      if |a| != |b| {
        assert false;
      }
    } else {
      forall d ensures d in a[1..] <==> d in b[1..] {
        assert d in a <==> d == a[0] || d in a[1..];
        assert d in b <==> d == b[0] || d in b[1..];
      }
      AscendingIsUnique(a[1..], b[1..]);
    }
  }

  // ---------- The method ----------

  function Rendered(merged: map<Day, Row>): (r: Series)
    ensures |r| == |Ascending(merged.Keys)|
    ensures forall i :: 0 <= i < |r| ==> r[i].date in merged && r[i] == DatedRow(r[i].date, merged[r[i].date])
    ensures forall i, j :: 0 <= i < j < |r| ==> r[i].date < r[j].date
  {
    var days := Ascending(merged.Keys);
    seq(|days|, i requires 0 <= i < |days| => DatedRow(days[i], merged[days[i]]))
  }

  predicate HasDate(rows: Series, d: Day) {
    exists i :: 0 <= i < |rows| && rows[i].date == d
  }

  predicate RowsOf(rows: Series, merged: map<Day, Row>, days: set<Day>)
    requires days <= merged.Keys
  {
    (forall i :: 0 <= i < |rows| ==> rows[i].date in days && rows[i].values == merged[rows[i].date])
    && forall d :: d in days ==> HasDate(rows, d)
  }

  predicate AscendingRows(rows: Series) {
    forall i, j :: 0 <= i < j < |rows| ==> rows[i].date < rows[j].date
  }

  /** However they were sorted, ascending rows of a whole table are the rendered table. */
  lemma AscendingRowsAreRendered(rows: Series, merged: map<Day, Row>)
    requires RowsOf(rows, merged, merged.Keys) && AscendingRows(rows)
    ensures rows == Rendered(merged)
  {
    hide Ascending;
    var dates := Dates(rows);
    forall d ensures d in dates <==> d in Ascending(merged.Keys) {
      DateIn(rows, d);
    }
    AscendingIsUnique(dates, Ascending(merged.Keys));
  }

  function Dates(rows: Series): (r: seq<Day>)
    ensures |r| == |rows| && forall i :: 0 <= i < |rows| ==> r[i] == rows[i].date
  {
    seq(|rows|, i requires 0 <= i < |rows| => rows[i].date)
  }

  lemma DateIn(rows: Series, d: Day)
    ensures d in Dates(rows) <==> HasDate(rows, d)
  {
  }

  /** Puts a row of a new date in its place. */
  method Insert(rows: Series, row: DatedRow) returns (r: Series)
    requires AscendingRows(rows) && !HasDate(rows, row.date)
    ensures AscendingRows(r)
    ensures forall x :: x in r <==> x == row || x in rows
  {
    var i := 0;
    while i < |rows| && rows[i].date < row.date
      invariant i <= |rows| && forall k :: 0 <= k < i ==> rows[k].date < row.date
    {
      i := i + 1;
    }
    r := rows[..i] + [row] + rows[i..];
    InsertedInPlace(rows, i, row);
  }

  lemma InsertedInPlace(rows: Series, i: nat, row: DatedRow)
    requires i <= |rows| && AscendingRows(rows) && !HasDate(rows, row.date)
    requires forall k :: 0 <= k < i ==> rows[k].date < row.date
    requires i < |rows| ==> rows[i].date >= row.date
    ensures AscendingRows(rows[..i] + [row] + rows[i..])
    ensures forall x :: x in rows[..i] + [row] + rows[i..] <==> x == row || x in rows
  {
  }

  /** The rows of the table, taken in any order, sorted by date. */
  method SortByDate(merged: map<Day, Row>) returns (r: Series)
    ensures r == Rendered(merged)
  {
    r := [];
    var left := merged.Keys;
    while left != {}
      invariant left <= merged.Keys && RowsOf(r, merged, merged.Keys - left) && AscendingRows(r)
      decreases |left|
    {
      HasLeast(left);
      var d :| d in left;
      ghost var before := r;
      r := Insert(r, DatedRow(d, merged[d]));
      left := left - {d};
      StillRowsOf(before, r, merged, merged.Keys - left, d);
    }
    AscendingRowsAreRendered(r, merged);
  }

  lemma StillRowsOf(before: Series, rows: Series, merged: map<Day, Row>, days: set<Day>, d: Day)
    requires days <= merged.Keys && d in days && RowsOf(before, merged, days - {d})
    requires forall x :: x in rows <==> x == DatedRow(d, merged[d]) || x in before
    ensures RowsOf(rows, merged, days)
  {
    assert forall i :: 0 <= i < |rows| ==> rows[i] in rows;
    forall e | e in days ensures HasDate(rows, e) {
      if e == d {
        assert DatedRow(d, merged[d]) in rows;
      } else {
        assert e in days - {d};
        var i :| 0 <= i < |before| && before[i].date == e;
        assert before[i] in rows;
      }
    }
  }

  method Overwrite(target: Row, values: Row) returns (r: Row)
    ensures r == target + values
  {
    r := target;
    var keys := values.Keys;
    while keys != {}
      invariant keys <= values.Keys
      invariant r == target + (map k | k in values && k !in keys :: values[k])
      decreases |keys|
    {
      var k :| k in keys;
      r := r[k := values[k]];
      keys := keys - {k};
    }
    assert (map k | k in values && k !in keys :: values[k]) == values;
  }

  /** Creates the row of a date if there is none yet, and writes a row's keys over it. */
  method WriteRow(merged: map<Day, Row>, row: DatedRow) returns (r: map<Day, Row>)
    ensures r == merged[row.date := (if row.date in merged then merged[row.date] else ZERO_ROW) + row.values]
  {
    r := merged;
    if row.date !in r {
      r := r[row.date := ZERO_ROW];
    }
    var written := Overwrite(r[row.date], row.values);
    r := r[row.date := written];
  }

  method Merge(series: seq<Series>) returns (r: Series)
    ensures r == Rendered(Merged(Flatten(series)))
  {
    var merged: map<Day, Row> := map[];
    for i := 0 to |series|
      invariant merged == Merged(Flatten(series[..i]))
    {
      var data := series[i];
      ghost var done := Flatten(series[..i]);
      assert done + data[..0] == done;
      for j := 0 to |data|
        invariant merged == Merged(done + data[..j])
      {
        ghost var next := done + data[..j + 1];
        assert next[..|next| - 1] == done + data[..j] && next[|next| - 1] == data[j];
        merged := WriteRow(merged, data[j]);
      }
      assert data[..|data|] == data;
      assert series[..i + 1][..i] == series[..i];
    }
    assert series[..|series|] == series;
    r := SortByDate(merged);
  }

  // ---------- What is merged ----------

  /** The value the last row with this date and key wrote. */
  function LastWrite(rows: Series, d: Day, m: Metric): Option<int> {
    if |rows| == 0 then None
    else
      var row := rows[|rows| - 1];
      if row.date == d && m in row.values then Some(row.values[m]) else LastWrite(rows[..|rows| - 1], d, m)
  }

  function Lookup(row: Row, m: Metric): Option<int> {
    if m in row then Some(row[m]) else None
  }

  lemma HasDateSnoc(rows: Series, row: DatedRow, d: Day)
    ensures HasDate(rows + [row], d) <==> HasDate(rows, d) || row.date == d
  {
    assert forall i :: 0 <= i < |rows| ==> (rows + [row])[i] == rows[i];
    assert (rows + [row])[|rows|] == row;
  }

  /** The dates are those of the rows; each metric has its last written value, or the default. */
  lemma {:induction false} MergedValue(rows: Series, d: Day, m: Metric)
    ensures d in Merged(rows) <==> HasDate(rows, d)
    ensures d in Merged(rows) ==>
      Lookup(Merged(rows)[d], m) == if LastWrite(rows, d, m).Some? then LastWrite(rows, d, m) else Lookup(ZERO_ROW, m)
    ensures LastWrite(rows, d, m).Some? ==> HasDate(rows, d)
    decreases |rows|
  {
    if |rows| > 0 {
      var front, row := rows[..|rows| - 1], rows[|rows| - 1];
      MergedValue(front, d, m);
      assert rows == front + [row];
      HasDateSnoc(front, row, d);
      hide HasDate;
    }
  }

  // ---------- Order independence ----------

  /** Rows that share a date and a metric agree on it. */
  ghost predicate Agree(rows: Series) {
    forall x, y, m :: x in rows && y in rows && x.date == y.date && m in x.values && m in y.values ==> x.values[m] == y.values[m]
  }

  lemma {:induction false} LastWriteIsSomeRow(rows: Series, d: Day, m: Metric)
    ensures LastWrite(rows, d, m).Some? <==> exists x :: x in rows && x.date == d && m in x.values
    ensures LastWrite(rows, d, m).Some? ==>
      exists x :: x in rows && x.date == d && m in x.values && x.values[m] == LastWrite(rows, d, m).value
    decreases |rows|
  {
    if |rows| > 0 {
      var front, row := rows[..|rows| - 1], rows[|rows| - 1];
      LastWriteIsSomeRow(front, d, m);
      assert rows == front + [row];
    }
  }

  lemma SameRowsSameWrites(a: Series, b: Series, d: Day, m: Metric)
    requires Agree(a) && forall x :: x in a <==> x in b
    ensures LastWrite(a, d, m) == LastWrite(b, d, m)
  {
    LastWriteIsSomeRow(a, d, m);
    LastWriteIsSomeRow(b, d, m);
  }

  lemma RowsEqual(a: Row, b: Row)
    requires forall m :: Lookup(a, m) == Lookup(b, m)
    ensures a == b
  {
    forall m ensures (m in a <==> m in b) && (m in a ==> a[m] == b[m]) {
      assert Lookup(a, m) == Lookup(b, m);
    }
  }

  lemma SameRowsSameMerge(a: Series, b: Series)
    requires Agree(a) && forall x :: x in a <==> x in b
    ensures Merged(a) == Merged(b)
  {
    forall d ensures d in Merged(a) <==> d in Merged(b) {
      MergedValue(a, d, OrdersCount);
      MergedValue(b, d, OrdersCount);
      if i :| 0 <= i < |a| && a[i].date == d {
        assert a[i] in b;
      }
      if i :| 0 <= i < |b| && b[i].date == d {
        assert b[i] in a;
      }
    }
    forall d | d in Merged(a) ensures Merged(a)[d] == Merged(b)[d] {
      forall m ensures Lookup(Merged(a)[d], m) == Lookup(Merged(b)[d], m) {
        MergedValue(a, d, m);
        MergedValue(b, d, m);
        SameRowsSameWrites(a, b, d, m);
      }
      RowsEqual(Merged(a)[d], Merged(b)[d]);
    }
  }

  lemma {:induction false} InFlatten(series: seq<Series>, x: DatedRow)
    ensures x in Flatten(series) <==> exists i :: 0 <= i < |series| && x in series[i]
    decreases |series|
  {
    if |series| > 0 {
      var front, last := series[..|series| - 1], series[|series| - 1];
      InFlatten(front, x);
      assert series == front + [last];
      if x in Flatten(front) {
        var i :| 0 <= i < |front| && x in front[i];
        assert x in series[i];
      }
      if i :| 0 <= i < |series| && x in series[i] {
        assert i < |front| ==> x in front[i];
      }
    }
  }

  /** No date twice in a series, and no metric in rows of two series. */
  ghost predicate Disjoint(series: seq<Series>) {
    && (forall s, i, j :: 0 <= s < |series| && 0 <= i < j < |series[s]| ==> series[s][i].date != series[s][j].date)
    && (forall s, t, i, j :: 0 <= s < t < |series| && 0 <= i < |series[s]| && 0 <= j < |series[t]| ==>
         series[s][i].values.Keys !! series[t][j].values.Keys)
  }

  lemma SharedMetricSameSeries(series: seq<Series>, s: nat, i: nat, t: nat, j: nat, m: Metric)
    requires Disjoint(series) && s < |series| && t < |series| && i < |series[s]| && j < |series[t]|
    requires m in series[s][i].values && m in series[t][j].values
    ensures s == t
  {
  }

  lemma DisjointAgree(series: seq<Series>)
    requires Disjoint(series)
    ensures Agree(Flatten(series))
  {
    forall x, y, m | x in Flatten(series) && y in Flatten(series) && x.date == y.date && m in x.values && m in y.values
      ensures x.values[m] == y.values[m]
    {
      InFlatten(series, x);
      InFlatten(series, y);
      var s :| 0 <= s < |series| && x in series[s];
      var t :| 0 <= t < |series| && y in series[t];
      var i :| 0 <= i < |series[s]| && series[s][i] == x;
      var j :| 0 <= j < |series[t]| && series[t][j] == y;
      SharedMetricSameSeries(series, s, i, t, j, m);
    }
  }

  /** Series with unique dates and separate metrics can be given in any order. */
  lemma SeriesOrderDoesNotMatter(a: seq<Series>, b: seq<Series>)
    requires Disjoint(a) && forall s :: s in a <==> s in b
    ensures Rendered(Merged(Flatten(a))) == Rendered(Merged(Flatten(b)))
  {
    DisjointAgree(a);
    forall x ensures x in Flatten(a) <==> x in Flatten(b) {
      InFlatten(a, x);
      InFlatten(b, x);
      if i :| 0 <= i < |a| && x in a[i] {
        assert a[i] in b;
      }
      if i :| 0 <= i < |b| && x in b[i] {
        assert b[i] in a;
      }
    }
    SameRowsSameMerge(Flatten(a), Flatten(b));
  }

  /** The result: one row a date, ascending, for exactly the dates of the inputs, each metric as last written or the default. */
  lemma MergeIsByDate(series: seq<Series>, d: Day, m: Metric)
    ensures var rows, r := Flatten(series), Rendered(Merged(Flatten(series)));
      && (forall i, j :: 0 <= i < j < |r| ==> r[i].date < r[j].date)
      && ((exists i :: 0 <= i < |r| && r[i].date == d) <==> HasDate(rows, d))
      && (forall i :: 0 <= i < |r| && r[i].date == d ==>
           Lookup(r[i].values, m) == if LastWrite(rows, d, m).Some? then LastWrite(rows, d, m) else Lookup(ZERO_ROW, m))
  {
    var merged := Merged(Flatten(series));
    MergedValue(Flatten(series), d, m);
    RenderedDates(merged, d);
  }

  lemma RenderedDates(merged: map<Day, Row>, d: Day)
    ensures d in merged <==> exists i :: 0 <= i < |Rendered(merged)| && Rendered(merged)[i].date == d
  {
    var days, r := Ascending(merged.Keys), Rendered(merged);
    assert forall i :: 0 <= i < |days| ==> r[i].date == days[i];
    if d in merged {
      assert d in days;
      var i :| 0 <= i < |days| && days[i] == d;
      assert r[i].date == d;
    }
  }
}
