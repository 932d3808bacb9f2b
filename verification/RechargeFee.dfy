/**
 The amounts of a new wallet recharge: fee, GST on the fee and total, in exact arithmetic on rupees, and
 what is stored (two decimals) and sent to checkout (whole paise).
 */
module RechargeFee {
  import opened Options

  const GST_RATE: real := 0.18
  const DEFAULT_MIN: real := 100.0
  const DEFAULT_MAX: real := 500000.0

  /** A missing or zero setting falls back to its default. */
  datatype Config = Config(minRecharge: Option<real>, maxRecharge: Option<real>, feePercent: Option<real>, gstInvoice: bool)

  function OrDefault(setting: Option<real>, default: real): real {
    if setting.Some? && setting.value != 0.0 then setting.value else default
  }

  /** Math.round, and numeric rounding of a non-negative number to a whole number of paise. */
  function Round(x: real): int {
    (x + 0.5).Floor
  }

  datatype Quote = Quote(amount: real, fee: real, gst: real, total: real)

  function FeeOf(amount: real, percent: real): real {
    amount * percent / 100.0
  }

  function QuoteFor(amount: real, config: Config): Quote {
    var fee := FeeOf(amount, OrDefault(config.feePercent, 0.0));
    var gst := if config.gstInvoice then fee * GST_RATE else 0.0;
    Quote(amount, fee, gst, amount + fee + gst)
  }

  /** The row's columns in paise, and the amount of the checkout order. */
  datatype Stored = Stored(amount: int, fee: int, gst: int, total: int, checkout: int)

  datatype Reply = InvalidAmount | NoGateway | BelowMinimum | AboveMaximum | Opened(row: Stored)

  function Store(q: Quote): Stored {
    Stored(Round(q.amount * 100.0), Round(q.fee * 100.0), Round(q.gst * 100.0), Round(q.total * 100.0), Round(q.total * 100.0))
  }

  /** `amount` is what parseFloat made of the request, None for NaN; `gateway` the active gateway's settings. */
  function InitiateRecharge(amount: Option<real>, gateway: Option<Config>): Reply {
    if amount.None? || amount.value <= 0.0 then InvalidAmount
    else if gateway.None? then NoGateway
    else if amount.value < OrDefault(gateway.value.minRecharge, DEFAULT_MIN) then BelowMinimum
    else if amount.value > OrDefault(gateway.value.maxRecharge, DEFAULT_MAX) then AboveMaximum
    else Opened(Store(QuoteFor(amount.value, gateway.value)))
  }

  predicate FeeNotNegative(gateway: Option<Config>) {
    gateway.Some? ==> OrDefault(gateway.value.feePercent, 0.0) >= 0.0
  }

  function Rupees(paise: int): real {
    paise as real / 100.0
  }

  lemma FeeGrows(a: real, b: real, percent: real)
    requires 0.0 <= a <= b && percent >= 0.0
    ensures 0.0 <= FeeOf(a, percent) <= FeeOf(b, percent)
  {
    assert 0.0 <= a * percent <= b * percent;
  }

  /** Rounding the parts and rounding their sum differ by at most one when the first part is whole. */
  lemma RoundedParts(whole: int, x: real, y: real)
    ensures -1 <= Round(whole as real + x + y) - (whole + Round(x) + Round(y)) <= 1
  {
  }

  /**
   For an amount in whole paise and a non-negative rate, the stored total is within one paisa of the sum
   of the stored parts, no part is negative, and checkout asks for exactly the stored total.
   */
  lemma TotalWithinOnePaisa(paise: int, gateway: Option<Config>)
    requires FeeNotNegative(gateway)
    requires InitiateRecharge(Some(Rupees(paise)), gateway).Opened?
    ensures var row := InitiateRecharge(Some(Rupees(paise)), gateway).row;
      && row.amount == paise && row.fee >= 0 && row.gst >= 0
      && -1 <= row.total - (row.amount + row.fee + row.gst) <= 1
      && row.checkout == row.total >= row.amount
  {
    var q := QuoteFor(Rupees(paise), gateway.value);
    hide FeeOf;
    FeeGrows(0.0, Rupees(paise), OrDefault(gateway.value.feePercent, 0.0));
    assert q.fee >= 0.0 && q.gst >= 0.0;
    assert q.total * 100.0 == paise as real + q.fee * 100.0 + q.gst * 100.0;
    RoundedParts(paise, q.fee * 100.0, q.gst * 100.0);
  }

  /** The one paisa is real: 100.45 rupees at one percent with GST. */
  lemma OnePaisaIsReached()
    ensures exists paise, gateway ::
      && FeeNotNegative(gateway)
      && var r := InitiateRecharge(Some(Rupees(paise)), gateway);
         r.Opened? && r.row.total == r.row.amount + r.row.fee + r.row.gst + 1
  {
    var gateway := Some(Config(None, None, Some(1.0), true));
    var r := InitiateRecharge(Some(Rupees(10045)), gateway);
    assert r == Opened(Stored(10045, 100, 18, 10164, 10164));
    assert FeeNotNegative(gateway);
  }

  /** A larger amount is never charged less. */
  lemma TotalIsMonotone(paise: int, more: int, gateway: Option<Config>)
    requires FeeNotNegative(gateway) && paise <= more
    requires InitiateRecharge(Some(Rupees(paise)), gateway).Opened?
    requires InitiateRecharge(Some(Rupees(more)), gateway).Opened?
    ensures var a, b := InitiateRecharge(Some(Rupees(paise)), gateway).row, InitiateRecharge(Some(Rupees(more)), gateway).row;
      a.total <= b.total && a.fee <= b.fee && a.gst <= b.gst
  {
    hide FeeOf;
    FeeGrows(Rupees(paise), Rupees(more), OrDefault(gateway.value.feePercent, 0.0));
    var p, q := QuoteFor(Rupees(paise), gateway.value), QuoteFor(Rupees(more), gateway.value);
    assert p.fee <= q.fee && p.gst <= q.gst;
  }

  predicate Nearest(paise: int, exact: real) {
    paise as real - 0.5 <= exact < paise as real + 0.5
  }

  /**
   The stored fee is the nearest paisa to the percentage of the amount, the GST the nearest to 18 % of the
   exact fee, or nothing without GST invoices, and the total the nearest to the exact sum.
   */
  lemma StoredIsNearest(paise: int, config: Config)
    requires InitiateRecharge(Some(Rupees(paise)), Some(config)).Opened?
    ensures var row := InitiateRecharge(Some(Rupees(paise)), Some(config)).row;
      var fee := paise as real * config.feePercent.GetOr(0.0) / 100.0;
      var gst := if config.gstInvoice then fee * 18.0 / 100.0 else 0.0;
      && row.amount == paise && Nearest(row.fee, fee) && Nearest(row.gst, gst)
      && Nearest(row.total, paise as real + fee + gst) && row.checkout == row.total
  {
    var percent := config.feePercent.GetOr(0.0);
    var q := QuoteFor(Rupees(paise), config);
    var fee := paise as real * percent / 100.0;
    assert OrDefault(config.feePercent, 0.0) == percent;
    assert FeeOf(Rupees(paise), percent) * 100.0 == fee;
    hide FeeOf;
    assert q.gst * 100.0 == if config.gstInvoice then fee * 18.0 / 100.0 else 0.0;
    assert q.amount * 100.0 == paise as real;
    assert q.total * 100.0 == paise as real + fee + q.gst * 100.0;
  }

  /** Every request gets the reply of the first check it fails: a positive amount, a gateway, and its limits of 100 and 500000 by default. */
  lemma ReplyIsFirstFailedCheck(amount: Option<real>, gateway: Option<Config>)
    ensures var r, x := InitiateRecharge(amount, gateway), amount.GetOr(0.0);
      && (r.InvalidAmount? <==> x <= 0.0)
      && (r.NoGateway? <==> x > 0.0 && gateway.None?)
      && (gateway.Some? && x > 0.0 ==>
           var config := gateway.value;
           var min := if config.minRecharge.GetOr(0.0) == 0.0 then 100.0 else config.minRecharge.value;
           var max := if config.maxRecharge.GetOr(0.0) == 0.0 then 500000.0 else config.maxRecharge.value;
           && (r.BelowMinimum? <==> x < min)
           && (r.AboveMaximum? <==> min <= x && max < x)
           && (r.Opened? <==> min <= x <= max))
  {
  }
}
