/**
 Shipment invoices and cancellation credit notes, each call in a transaction of its own and the
 calls one after another.  A call may fail at any await; it then rolls back and returns null.
 The tax result and the effective invoice prefix are inputs.
 */
module Billing {
  import opened Options
  import opened InvoiceNumber
  import opened NumberAllocation

  type Id = nat

  datatype Shipment = Shipment(tenant: Id, rate: int)

  datatype Tax = Tax(cgst: int, sgst: int, igst: int, total: int)

  datatype Invoice = Invoice(tenant: Id, number: string, shipment: Id, subtotal: int, tax: Tax)

  datatype LineItem = LineItem(invoice: Id, unitPrice: int, amount: int)

  datatype CreditNote = CreditNote(tenant: Id, invoice: Id, number: string, reason: string, amount: int, shipment: Id)

  /** A row's id is its position in its table. */
  datatype Db = Db(
    shipments: map<Id, Shipment>,
    invoices: seq<Invoice>,
    lineItems: seq<LineItem>,
    creditNotes: seq<CreditNote>,
    counters: map<Key, nat>)

  /** Where a call throws, if it does. */
  datatype Fault = NoFault | OnFetch | OnCheck | OnTax | OnNumber | OnInsert | OnLineItem | OnCommit

  /** The position of the first row with the key that is asked for. */
  function Find<T>(rows: seq<T>, keyOf: T -> Id, key: Id): (r: Option<Id>)
    ensures r.Some? ==> r.value < |rows| && keyOf(rows[r.value]) == key
    ensures r.None? ==> forall i :: 0 <= i < |rows| ==> keyOf(rows[i]) != key
  {
    if |rows| == 0 then None
    else
      var r := Find(rows[..|rows| - 1], keyOf, key);
      if r.Some? then r
      else if keyOf(rows[|rows| - 1]) == key then Some(|rows| - 1)
      else None
  }

  function FindInvoice(invoices: seq<Invoice>, shipment: Id): Option<Id> {
    Find(invoices, (i: Invoice) => i.shipment, shipment)
  }

  function FindCreditNote(notes: seq<CreditNote>, invoice: Id): Option<Id> {
    Find(notes, (n: CreditNote) => n.invoice, invoice)
  }

  function Last(counters: map<Key, nat>, key: Key): nat {
    if key in counters then counters[key] else 0
  }

  /** `start` is the financial year of the clock, `setting` the tenant's prefix setting. */
  function Invoiced(db: Db, shipment: Id, start: nat, setting: Option<string>, tax: Tax, fault: Fault): (Db, Option<Id>) {
    if fault == OnFetch || fault == OnCheck || shipment !in db.shipments then (db, None)
    else
      var existing := FindInvoice(db.invoices, shipment);
      if existing.Some? then (db, if fault == OnCommit then None else existing)
      else if fault != NoFault then (db, None)
      else
        var s, key := db.shipments[shipment], Key(start, InvoiceSeries);
        var n := Last(db.counters, key) + 1;
        var id := |db.invoices|;
        var number := Print(Prefix(InvoiceSeries, true, setting), start, n);
        (db.(invoices := db.invoices + [Invoice(s.tenant, number, shipment, s.rate, tax)],
             lineItems := db.lineItems + [LineItem(id, s.rate, s.rate)],
             counters := db.counters[key := n]),
         Some(id))
  }

  function Credited(db: Db, shipment: Id, start: nat, reason: string, fault: Fault): (Db, Option<Id>) {
    if fault == OnFetch then (db, None)
    else
      var invoice := FindInvoice(db.invoices, shipment);
      if invoice.None? then (db, None)
      else if fault == OnCheck then (db, None)
      else
        var existing := FindCreditNote(db.creditNotes, invoice.value);
        if existing.Some? then (db, if fault == OnCommit then None else existing)
        else if fault != NoFault then (db, None)
        else
          var original, key := db.invoices[invoice.value], Key(start, CreditNoteSeries);
          var n := Last(db.counters, key) + 1;
          var number := Print(Prefix(CreditNoteSeries, false, None), start, n);
          (db.(creditNotes := db.creditNotes +
                 [CreditNote(original.tenant, invoice.value, number, reason, original.tax.total, shipment)],
               counters := db.counters[key := n]),
           Some(|db.creditNotes|))
  }

  // ---------- What a call does ----------

  ghost predicate HasInvoice(db: Db, shipment: Id) {
    exists i :: 0 <= i < |db.invoices| && db.invoices[i].shipment == shipment
  }

  ghost predicate HasNote(db: Db, invoice: Id) {
    exists i :: 0 <= i < |db.creditNotes| && db.creditNotes[i].invoice == invoice
  }

  /** One invoice, its line item and one step of the year's invoice counter, and nothing else. */
  ghost predicate OneInvoiceMade(before: Db, after: Db, r: Option<Id>, shipment: Id, start: nat, setting: Option<string>, tax: Tax)
    requires shipment in before.shipments
  {
    var id, s, key := |before.invoices|, before.shipments[shipment], Key(start, InvoiceSeries);
    var next := if key in before.counters then before.counters[key] + 1 else 1;
    && r == Some(id)
    && |after.invoices| == id + 1 && after.invoices[..id] == before.invoices
    && (var made := after.invoices[id];
        && made.shipment == shipment && made.tenant == s.tenant && made.subtotal == s.rate && made.tax == tax
        && ReadNumber(made.number) == Some(Parts(if setting.GetOr("") != "" then setting.GetOr("") else "INV", start, next)))
    && after.lineItems == before.lineItems + [LineItem(id, s.rate, s.rate)]
    && after.counters == before.counters[key := next]
    && after.shipments == before.shipments && after.creditNotes == before.creditNotes
  }

  /** One credit note over the invoice's total and one step of the year's credit-note counter, and nothing else. */
  ghost predicate OneNoteMade(before: Db, after: Db, r: Option<Id>, invoice: Id, start: nat, reason: string)
    requires invoice < |before.invoices|
  {
    var id, original, key := |before.creditNotes|, before.invoices[invoice], Key(start, CreditNoteSeries);
    var next := if key in before.counters then before.counters[key] + 1 else 1;
    && r == Some(id)
    && |after.creditNotes| == id + 1 && after.creditNotes[..id] == before.creditNotes
    && (var made := after.creditNotes[id];
        && made.invoice == invoice && made.shipment == original.shipment && made.tenant == original.tenant
        && made.amount == original.tax.total && made.reason == reason
        && ReadNumber(made.number) == Some(Parts("CN", start, next)))
    && after.counters == before.counters[key := next]
    && after.shipments == before.shipments && after.invoices == before.invoices && after.lineItems == before.lineItems
  }

  /**
   The whole contract of an invoicing call.  It makes an invoice exactly for a known shipment that has none
   and when nothing throws; otherwise it changes nothing and returns the existing invoice, or nothing if
   there is none, the shipment is unknown, or one of the awaits it does get to throws.
   */
  ghost predicate InvoicingDone(before: Db, after: Db, r: Option<Id>, shipment: Id, start: nat, setting: Option<string>, tax: Tax, fault: Fault) {
    if shipment in before.shipments && !HasInvoice(before, shipment) && fault == NoFault then
      OneInvoiceMade(before, after, r, shipment, start, setting, tax)
    else
      && after == before
      && (r.Some? <==> shipment in before.shipments && HasInvoice(before, shipment) && fault !in {OnFetch, OnCheck, OnCommit})
      && (r.Some? ==> r.value < |before.invoices| && before.invoices[r.value].shipment == shipment)
  }

  /** The same of a cancellation, for the invoice of the shipment. */
  ghost predicate CreditingDone(before: Db, after: Db, r: Option<Id>, shipment: Id, start: nat, reason: string, fault: Fault) {
    if !HasInvoice(before, shipment) then after == before && r == None
    else
      exists invoice :: 0 <= invoice < |before.invoices| && before.invoices[invoice].shipment == shipment
        && NoteDone(before, after, r, invoice, start, reason, fault)
  }

  ghost predicate NoteDone(before: Db, after: Db, r: Option<Id>, invoice: Id, start: nat, reason: string, fault: Fault)
    requires invoice < |before.invoices|
  {
    if !HasNote(before, invoice) && fault == NoFault then OneNoteMade(before, after, r, invoice, start, reason)
    else
      && after == before
      && (r.Some? <==> HasNote(before, invoice) && fault !in {OnFetch, OnCheck, OnCommit})
      && (r.Some? ==> r.value < |before.creditNotes| && before.creditNotes[r.value].invoice == invoice)
  }

  lemma InvoicedIsDone(db: Db, shipment: Id, start: nat, setting: Option<string>, tax: Tax, fault: Fault)
    ensures var (after, r) := Invoiced(db, shipment, start, setting, tax, fault);
      InvoicingDone(db, after, r, shipment, start, setting, tax, fault)
  {
    hide Print;
    hide ReadNumber;
    PrintedPrefix(true, setting, start, Last(db.counters, Key(start, InvoiceSeries)) + 1);
  }

  lemma CreditedIsDone(db: Db, shipment: Id, start: nat, reason: string, fault: Fault)
    ensures var (after, r) := Credited(db, shipment, start, reason, fault);
      CreditingDone(db, after, r, shipment, start, reason, fault)
  {
    hide Print;
    hide ReadNumber;
    PrintedPrefix(false, None, start, Last(db.counters, Key(start, CreditNoteSeries)) + 1);
    var (after, r) := Credited(db, shipment, start, reason, fault);
    var invoice := FindInvoice(db.invoices, shipment);
    if invoice.Some? {
      assert NoteDone(db, after, r, invoice.value, start, reason, fault);
    }
  }

  // ---------- What every call keeps ----------

  /** The counters printed on the numbers of one financial year, in table order. */
  function CountersOf(numbers: seq<string>, start: nat): seq<nat> {
    if numbers == [] then []
    else
      var rest, parts := CountersOf(numbers[..|numbers| - 1], start), ReadNumber(numbers[|numbers| - 1]);
      if parts.Some? && parts.value.start == start then rest + [parts.value.counter] else rest
  }

  function InvoiceNumbers(invoices: seq<Invoice>): (r: seq<string>)
    ensures |r| == |invoices| && forall i :: 0 <= i < |r| ==> r[i] == invoices[i].number
  {
    seq(|invoices|, i requires 0 <= i < |invoices| => invoices[i].number)
  }

  function NoteNumbers(notes: seq<CreditNote>): (r: seq<string>)
    ensures |r| == |notes| && forall i :: 0 <= i < |r| ==> r[i] == notes[i].number
  {
    seq(|notes|, i requires 0 <= i < |notes| => notes[i].number)
  }

  ghost predicate NoteOk(db: Db, n: CreditNote) {
    && n.invoice < |db.invoices|
    && n.amount == db.invoices[n.invoice].tax.total
    && n.tenant == db.invoices[n.invoice].tenant
    && n.shipment == db.invoices[n.invoice].shipment
    && ReadNumber(n.number).Some?
    && ReadNumber(n.number).value.prefix == "CN"
  }

  ghost predicate InvoiceOk(db: Db, x: Invoice) {
    && x.shipment in db.shipments
    && x.tenant == db.shipments[x.shipment].tenant && x.subtotal == db.shipments[x.shipment].rate
  }

  /** At most one invoice a shipment, for the shipment's tenant and rate, each with its one line item. */
  ghost predicate InvoicesOk(db: Db) {
    && (forall i :: 0 <= i < |db.invoices| ==> InvoiceOk(db, db.invoices[i]))
    && (forall i, j :: 0 <= i < j < |db.invoices| ==> db.invoices[i].shipment != db.invoices[j].shipment)
    && |db.lineItems| == |db.invoices|
    && (forall i :: 0 <= i < |db.lineItems| ==> db.lineItems[i] == LineItem(i, db.invoices[i].subtotal, db.invoices[i].subtotal))
  }

  /** At most one credit note an invoice, for its total and numbered CN. */
  ghost predicate NotesOk(db: Db) {
    && (forall i, j :: 0 <= i < j < |db.creditNotes| ==> db.creditNotes[i].invoice != db.creditNotes[j].invoice)
    && (forall i :: 0 <= i < |db.creditNotes| ==> NoteOk(db, db.creditNotes[i]))
  }

  /** The committed documents use up the counters, one number each and in order. */
  ghost predicate Inv(db: Db) {
    && InvoicesOk(db)
    && NotesOk(db)
    && CountersUsed(InvoiceNumbers(db.invoices), db.counters, InvoiceSeries)
    && CountersUsed(NoteNumbers(db.creditNotes), db.counters, CreditNoteSeries)
  }

  ghost predicate CountersUsed(numbers: seq<string>, counters: map<Key, nat>, series: Series) {
    forall start :: CountersOf(numbers, start) == OneTo(Last(counters, Key(start, series)))
  }

  lemma NextNumberUsesCounter(numbers: seq<string>, counters: map<Key, nat>, series: Series, start: nat, prefix: string)
    requires CountersUsed(numbers, counters, series)
    ensures var n := Last(counters, Key(start, series)) + 1;
      CountersUsed(numbers + [Print(prefix, start, n)], counters[Key(start, series) := n], series)
  {
    var n := Last(counters, Key(start, series)) + 1;
    var longer := numbers + [Print(prefix, start, n)];
    PrintedReadsBack(prefix, start, n);
    assert longer[..|longer| - 1] == numbers;
    forall y ensures CountersOf(longer, y) == OneTo(Last(counters[Key(start, series) := n], Key(y, series))) {
      assert CountersOf(numbers, y) == OneTo(Last(counters, Key(y, series)));
      assert y == start ==> OneTo(n - 1) + [n] == OneTo(n);
    }
  }

  lemma OtherSeriesKeepsCounters(numbers: seq<string>, counters: map<Key, nat>, series: Series, key: Key, n: nat)
    requires CountersUsed(numbers, counters, series) && key.series != series
    ensures CountersUsed(numbers, counters[key := n], series)
  {
  }

  lemma InvoicedKeepsInv(db: Db, shipment: Id, start: nat, setting: Option<string>, tax: Tax, fault: Fault)
    requires Inv(db)
    ensures Inv(Invoiced(db, shipment, start, setting, tax, fault).0)
  {
    hide Print;
    hide CountersUsed;
    var db' := Invoiced(db, shipment, start, setting, tax, fault).0;
    if db' != db {
      var prefix, n := Prefix(InvoiceSeries, true, setting), Last(db.counters, Key(start, InvoiceSeries)) + 1;
      NextNumberUsesCounter(InvoiceNumbers(db.invoices), db.counters, InvoiceSeries, start, prefix);
      OtherSeriesKeepsCounters(NoteNumbers(db.creditNotes), db.counters, CreditNoteSeries, Key(start, InvoiceSeries), n);
      assert InvoiceNumbers(db'.invoices) == InvoiceNumbers(db.invoices) + [Print(prefix, start, n)];
      assert InvoicesOk(db') by {
        assert forall i :: 0 <= i < |db.invoices| ==> InvoiceOk(db, db.invoices[i]);
      }
      assert NotesOk(db') by {
        assert forall i :: 0 <= i < |db.creditNotes| ==> NoteOk(db, db.creditNotes[i]);
      }
    }
  }

  lemma CreditedKeepsInv(db: Db, shipment: Id, start: nat, reason: string, fault: Fault)
    requires Inv(db)
    ensures Inv(Credited(db, shipment, start, reason, fault).0)
  {
    hide Print;
    hide CountersUsed;
    var db' := Credited(db, shipment, start, reason, fault).0;
    if db' != db {
      var n := Last(db.counters, Key(start, CreditNoteSeries)) + 1;
      NextNumberUsesCounter(NoteNumbers(db.creditNotes), db.counters, CreditNoteSeries, start, "CN");
      OtherSeriesKeepsCounters(InvoiceNumbers(db.invoices), db.counters, InvoiceSeries, Key(start, CreditNoteSeries), n);
      PrintedReadsBack("CN", start, n);
      assert NoteNumbers(db'.creditNotes) == NoteNumbers(db.creditNotes) + [Print("CN", start, n)];
      assert InvoicesOk(db') by {
        assert forall i :: 0 <= i < |db.invoices| ==> InvoiceOk(db, db.invoices[i]);
      }
      assert NotesOk(db') by {
        assert forall i :: 0 <= i < |db.creditNotes| ==> NoteOk(db, db.creditNotes[i]);
      }
    }
  }

  // ---------- Whole runs ----------

  datatype Op =
    | NewShipment(shipment: Id, row: Shipment)
    | InvoiceOp(shipment: Id, start: nat, setting: Option<string>, tax: Tax, fault: Fault)
    | CancelOp(shipment: Id, start: nat, reason: string, fault: Fault)

  function Do(db: Db, op: Op): Db {
    match op
    case NewShipment(shipment, row) =>
      if shipment in db.shipments then db else db.(shipments := db.shipments[shipment := row])
    case InvoiceOp(shipment, start, setting, tax, fault) => Invoiced(db, shipment, start, setting, tax, fault).0
    case CancelOp(shipment, start, reason, fault) => Credited(db, shipment, start, reason, fault).0
  }

  function After(db: Db, ops: seq<Op>): Db
    decreases |ops|
  {
    if ops == [] then db else After(Do(db, ops[0]), ops[1..])
  }

  const EMPTY_DB := Db(map[], [], [], [], map[])

  /** Rows are only ever added. */
  predicate Extends(db: Db, db': Db) {
    && db.invoices <= db'.invoices
    && db.creditNotes <= db'.creditNotes
    && db.shipments.Keys <= db'.shipments.Keys
  }

  lemma OpKeepsInv(db: Db, op: Op)
    requires Inv(db)
    ensures Inv(Do(db, op)) && Extends(db, Do(db, op))
  {
    match op
    case NewShipment(_, _) =>
      assert forall i :: 0 <= i < |db.invoices| ==> InvoiceOk(db, db.invoices[i]);
      assert forall i :: 0 <= i < |db.creditNotes| ==> NoteOk(db, db.creditNotes[i]);
    case InvoiceOp(shipment, start, setting, tax, fault) => InvoicedKeepsInv(db, shipment, start, setting, tax, fault);
    case CancelOp(shipment, start, reason, fault) => CreditedKeepsInv(db, shipment, start, reason, fault);
  }

  lemma {:induction false} RunKeepsInv(db: Db, ops: seq<Op>)
    requires Inv(db)
    ensures Inv(After(db, ops)) && Extends(db, After(db, ops))
    decreases |ops|
  {
    hide Inv;
    hide Do;
    if ops != [] {
      OpKeepsInv(db, ops[0]);
      RunKeepsInv(Do(db, ops[0]), ops[1..]);
    }
  }

  /** Over any run from the empty tables the invariant holds, and documents and consumed counters agree in number. */
  lemma RunsKeepTheBooks(ops: seq<Op>, start: nat)
    ensures var db := After(EMPTY_DB, ops);
      && Inv(db)
      && |CountersOf(InvoiceNumbers(db.invoices), start)| == Last(db.counters, Key(start, InvoiceSeries))
      && |CountersOf(NoteNumbers(db.creditNotes), start)| == Last(db.counters, Key(start, CreditNoteSeries))
  {
    EmptyInv();
    RunKeepsInv(EMPTY_DB, ops);
    var db := After(EMPTY_DB, ops);
    assert CountersOf(InvoiceNumbers(db.invoices), start) == OneTo(Last(db.counters, Key(start, InvoiceSeries)));
    assert CountersOf(NoteNumbers(db.creditNotes), start) == OneTo(Last(db.counters, Key(start, CreditNoteSeries)));
  }

  lemma EmptyInv()
    ensures Inv(EMPTY_DB)
  {
  }

  lemma FindsTheInvoice(db: Db, id: Id)
    requires InvoicesOk(db) && id < |db.invoices|
    ensures FindInvoice(db.invoices, db.invoices[id].shipment) == Some(id)
  {
  }

  lemma FindsTheNote(db: Db, id: Id)
    requires NotesOk(db) && id < |db.creditNotes|
    ensures FindCreditNote(db.creditNotes, db.creditNotes[id].invoice) == Some(id)
  {
  }

  /**
   Once a call has returned an invoice, every later call for the shipment that does not fail returns
   the same unchanged record and leaves the database as it is, whatever happened in between.
   */
  lemma InvoicingAgainChangesNothing(db: Db, op: Op, ops: seq<Op>, again: Op)
    requires Inv(db) && op.InvoiceOp? && again.InvoiceOp? && again.shipment == op.shipment
    requires Invoiced(db, op.shipment, op.start, op.setting, op.tax, op.fault).1.Some?
    ensures var id := Invoiced(db, op.shipment, op.start, op.setting, op.tax, op.fault).1.value;
      var db1 := Do(db, op);
      var db2 := After(db1, ops);
      var r := Invoiced(db2, again.shipment, again.start, again.setting, again.tax, again.fault);
      && r.0 == db2
      && (again.fault == NoFault ==> r.1 == Some(id))
      && (r.1.Some? ==> r.1 == Some(id))
      && id < |db1.invoices| && id < |db2.invoices| && db2.invoices[id] == db1.invoices[id]
  {
    OpKeepsInv(db, op);
    var db1, id := Do(db, op), Invoiced(db, op.shipment, op.start, op.setting, op.tax, op.fault).1.value;
    assert op.shipment in db1.shipments;
    assert id < |db1.invoices| && db1.invoices[id].shipment == op.shipment;
    hide Do;
    hide NotesOk;
    hide CountersUsed;
    RunKeepsInv(db1, ops);
    FindsTheInvoice(After(db1, ops), id);
  }

  /** The same for credit notes. */
  lemma CreditingAgainChangesNothing(db: Db, op: Op, ops: seq<Op>, again: Op)
    requires Inv(db) && op.CancelOp? && again.CancelOp? && again.shipment == op.shipment
    requires Credited(db, op.shipment, op.start, op.reason, op.fault).1.Some?
    ensures var id := Credited(db, op.shipment, op.start, op.reason, op.fault).1.value;
      var db1 := Do(db, op);
      var db2 := After(db1, ops);
      var r := Credited(db2, again.shipment, again.start, again.reason, again.fault);
      && r.0 == db2
      && (again.fault == NoFault ==> r.1 == Some(id))
      && (r.1.Some? ==> r.1 == Some(id))
      && id < |db1.creditNotes| && id < |db2.creditNotes| && db2.creditNotes[id] == db1.creditNotes[id]
  {
    OpKeepsInv(db, op);
    var db1, id := Do(db, op), Credited(db, op.shipment, op.start, op.reason, op.fault).1.value;
    CreditedNote(db, op);
    hide Do;
    hide CountersUsed;
    RunKeepsInv(db1, ops);
    FindsTheInvoice(After(db1, ops), db1.creditNotes[id].invoice);
    FindsTheNote(After(db1, ops), id);
  }

  /** The note a call returns is of the invoice of its shipment. */
  lemma CreditedNote(db: Db, op: Op)
    requires op.CancelOp? && Credited(db, op.shipment, op.start, op.reason, op.fault).1.Some?
    ensures var db1, id := Do(db, op), Credited(db, op.shipment, op.start, op.reason, op.fault).1.value;
      && id < |db1.creditNotes| && db1.creditNotes[id].invoice < |db1.invoices|
      && db1.invoices[db1.creditNotes[id].invoice].shipment == op.shipment
  {
  }

  // ---------- The services ----------

  class BillingService {
    var shipments: map<Id, Shipment>
    var invoices: seq<Invoice>
    var lineItems: seq<LineItem>
    var creditNotes: seq<CreditNote>
    var counters: map<Key, nat>

    ghost function Model(): Db
      reads this
    {
      Db(shipments, invoices, lineItems, creditNotes, counters)
    }

    constructor ()
      ensures Model() == EMPTY_DB
    {
      shipments, invoices, lineItems, creditNotes, counters := map[], [], [], [], map[];
    }

    method GenerateNextNumber(series: Series, start: nat, prefix: string) returns (number: string)
      modifies this`counters
      ensures var key := Key(start, series);
        && counters == old(counters)[key := if key in old(counters) then old(counters)[key] + 1 else 1]
        && number == Print(prefix, start, counters[key])
        && ReadNumber(number) == Some(Parts(prefix, start, counters[key]))
    {
      var key := Key(start, series);
      if key !in counters {
        counters := counters[key := 0];
      }
      var nextVal := counters[key] + 1;
      counters := counters[key := nextVal];
      number := prefix + [SLASH] + YearLabel(start) + [SLASH] + Padded(Decimal(nextVal));
      PrintedReadsBack(prefix, start, nextVal);
    }

    method CreateShipmentInvoice(shipmentId: Id, start: nat, setting: Option<string>, tax: Tax, fault: Fault)
      returns (r: Option<Id>)
      modifies this
      ensures InvoicingDone(old(Model()), Model(), r, shipmentId, start, setting, tax, fault)
      ensures (Model(), r) == Invoiced(old(Model()), shipmentId, start, setting, tax, fault)
    {
      InvoicedIsDone(Model(), shipmentId, start, setting, tax, fault);
      hide InvoicingDone;
      hide FindInvoice;
      hide Print;
      hide Prefix;
      // What a rollback restores.
      var invoices0, lineItems0, counters0 := invoices, lineItems, counters;
      if fault == OnFetch || shipmentId !in shipments {
        return None;
      }
      var shipment := shipments[shipmentId];
      if fault == OnCheck {
        return None;
      }
      var existing := FindInvoice(invoices, shipmentId);
      if existing.Some? {
        if fault == OnCommit {
          return None;
        }
        return existing;
      }
      if fault == OnTax {
        return None;
      }
      var number := GenerateNextNumber(InvoiceSeries, start, Prefix(InvoiceSeries, true, setting));
      if fault == OnNumber {
        counters := counters0;
        return None;
      }
      var id := |invoices|;
      invoices := invoices + [Invoice(shipment.tenant, number, shipmentId, shipment.rate, tax)];
      if fault == OnInsert {
        invoices, counters := invoices0, counters0;
        return None;
      }
      lineItems := lineItems + [LineItem(id, shipment.rate, shipment.rate)];
      if fault == OnLineItem || fault == OnCommit {
        invoices, lineItems, counters := invoices0, lineItems0, counters0;
        return None;
      }
      r := Some(id);
    }

    method CreateCancellationCreditNote(shipmentId: Id, start: nat, reason: string, fault: Fault) returns (r: Option<Id>)
      modifies this
      ensures CreditingDone(old(Model()), Model(), r, shipmentId, start, reason, fault)
      ensures (Model(), r) == Credited(old(Model()), shipmentId, start, reason, fault)
    {
      CreditedIsDone(Model(), shipmentId, start, reason, fault);
      hide CreditingDone;
      var creditNotes0, counters0 := creditNotes, counters;
      if fault == OnFetch {
        return None;
      }
      var invoice := FindInvoice(invoices, shipmentId);
      if invoice.None? {
        return None;
      }
      if fault == OnCheck {
        return None;
      }
      var existing := FindCreditNote(creditNotes, invoice.value);
      if existing.Some? {
        if fault == OnCommit {
          return None;
        }
        return existing;
      }
      var number := GenerateNextNumber(CreditNoteSeries, start, Prefix(CreditNoteSeries, false, None));
      var original := invoices[invoice.value];
      var id := |creditNotes|;
      if fault != OnNumber {
        creditNotes := creditNotes +
          [CreditNote(original.tenant, invoice.value, number, reason, original.tax.total, shipmentId)];
      }
      if fault != NoFault {
        creditNotes, counters := creditNotes0, counters0;
        return None;
      }
      r := Some(id);
    }
  }
}
