/**
 The wallet recharge ledger: client verification, payment webhook and admin reconciliation all credit
 the same recharge, while the wallet service credits and debits the same wallets.  Each database
 transaction is one atomic step here; `RechargeOverlap` says what happens when they overlap.  Money is
 in paise.
 */
module Recharge {
  import opened Options

  type Id = nat
  type Tenant = nat

  datatype Status = Initiated | Succeeded | Failed | Refunded

  datatype RechargeTx = RechargeTx(
    tenant: Tenant,
    gateway: string,
    orderId: Option<string>,
    amount: int,
    status: Status,
    paymentId: Option<string>,
    ledgerId: Option<nat>,
    reconciledBy: Option<string>)

  /** `amount` is negative for a debit; `recharge` is the recharge an entry pays, if it pays one. */
  datatype Entry = Entry(tenant: Tenant, amount: int, balanceAfter: int, recharge: Option<Id>)

  /** A recharge's id is its position; a tenant without a wallet is not in `wallets`. */
  datatype State = State(recharges: seq<RechargeTx>, wallets: map<Tenant, int>, ledger: seq<Entry>)

  /**
   `valid` is the verdict on the signature or the payment fetched from the gateway, `crash` says that
   some await throws, so that the transaction rolls back, and `found` is the row the webhook's findOne
   returns for its order, if any.  WalletCredit and WalletDebit are the wallet service's own.
   */
  datatype Step =
    | Initiate(tenant: Tenant, gateway: string, orderId: Option<string>, amount: int)
    | Verify(id: Id, caller: Tenant, gatewayKnown: bool, valid: bool, paymentId: Option<string>, crash: bool)
    | Webhook(order: string, found: Option<Id>, provider: string, paymentId: Option<string>, crash: bool)
    | Reconcile(id: Id, crash: bool)
    | WalletCredit(tenant: Tenant, amount: int)
    | WalletDebit(tenant: Tenant, amount: int)

  datatype Reply =
    | NotFound
    | AlreadyCredited
    | GatewayMissing
    | Rejected
    | Credited(newBalance: int)
    | ServerError
    | Accepted
    | InvalidAmount
    | Insufficient

  function Balance(s: State, t: Tenant): int {
    if t in s.wallets then s.wallets[t] else 0
  }

  /** The payment id and the source a payment step records. */
  function PaymentIdOf(step: Step): Option<string> {
    match step
    case Verify(_, _, _, _, paymentId, _) => paymentId
    case Webhook(_, _, _, paymentId, _) => paymentId
    case _ => None
  }

  function SourceOf(step: Step): string {
    match step
    case Verify(_, _, _, _, _, _) => "client_verify"
    case Webhook(_, _, provider, _, _) => provider + "_webhook"
    case _ => "admin_reconcile"
  }

  /** The writes of a credit, from a wallet balance read before. */
  function CreditFrom(s: State, id: Id, previous: int, paymentId: Option<string>, source: string): State
    requires id < |s.recharges|
  {
    var tx := s.recharges[id];
    var newBalance := previous + tx.amount;
    State(
      s.recharges[id := tx.(
        status := Succeeded,
        paymentId := if paymentId.Some? then paymentId else tx.paymentId,
        ledgerId := Some(|s.ledger|),
        reconciledBy := Some(source))],
      s.wallets[tx.tenant := newBalance],
      s.ledger + [Entry(tx.tenant, tx.amount, newBalance, Some(id))])
  }

  function MarkFailed(s: State, id: Id): State
    requires id < |s.recharges|
  {
    s.(recharges := s.recharges[id := s.recharges[id].(status := Failed)])
  }

  function Credit(s: State, id: Id, step: Step): State
    requires id < |s.recharges|
  {
    CreditFrom(s, id, Balance(s, s.recharges[id].tenant), PaymentIdOf(step), SourceOf(step))
  }

  /** What the wallet service does: a positive amount, an existing wallet, and for a debit enough in it. */
  function MoveWallet(s: State, t: Tenant, amount: int): State {
    var newBalance := Balance(s, t) + amount;
    s.(wallets := s.wallets[t := newBalance], ledger := s.ledger + [Entry(t, amount, newBalance, None)])
  }

  /** The recharge a payment step gets as far as, read off the fields no step ever changes. */
  function Target(s: State, step: Step): Option<Id> {
    match step
    case Verify(id, caller, gatewayKnown, _, _, crash) =>
      if !crash && id < |s.recharges| && s.recharges[id].tenant == caller && gatewayKnown then Some(id) else None
    case Webhook(_, found, _, _, crash) =>
      if !crash && found.Some? && found.value < |s.recharges| then found else None
    case Reconcile(id, crash) => if !crash && id < |s.recharges| then Some(id) else None
    case _ => None
  }

  /** A verification that finds no proof of payment. */
  predicate Fails(s: State, step: Step)
    requires Target(s, step).Some?
  {
    step.Verify? && s.recharges[step.id].gateway == "razorpay" && !step.valid
  }

  /** The recharge a step confirms. */
  function Confirms(s: State, step: Step): Option<Id> {
    if Target(s, step).Some? && !Fails(s, step) then Target(s, step) else None
  }

  function Next(s: State, step: Step): (State, Reply) {
    match step
    case Initiate(tenant, gateway, orderId, amount) =>
      (s.(recharges := s.recharges + [RechargeTx(tenant, gateway, orderId, amount, Initiated, None, None, None)]), Accepted)
    case Verify(id, caller, gatewayKnown, valid, paymentId, crash) =>
      if crash then (s, ServerError)
      else if id >= |s.recharges| || s.recharges[id].tenant != caller then (s, NotFound)
      else if s.recharges[id].status == Succeeded then (s, AlreadyCredited)
      else if !gatewayKnown then (s, GatewayMissing)
      else if s.recharges[id].gateway == "razorpay" && !valid then (MarkFailed(s, id), Rejected)
      else
        var s' := Credit(s, id, step);
        (s', Credited(Balance(s', caller)))
    case Webhook(_, found, provider, paymentId, crash) =>
      if crash || found.None? || found.value >= |s.recharges| || s.recharges[found.value].status == Succeeded then (s, Accepted)
      else (Credit(s, found.value, step), Accepted)
    case Reconcile(id, crash) =>
      if crash then (s, ServerError)
      else if id >= |s.recharges| then (s, NotFound)
      else if s.recharges[id].status == Succeeded then (s, AlreadyCredited)
      else
        var s' := Credit(s, id, step);
        (s', Credited(Balance(s', s.recharges[id].tenant)))
    case WalletCredit(tenant, amount) =>
      if amount <= 0 then (s, InvalidAmount)
      else if tenant !in s.wallets then (s, NotFound)
      else (MoveWallet(s, tenant, amount), Credited(Balance(s, tenant) + amount))
    case WalletDebit(tenant, amount) =>
      if amount <= 0 then (s, InvalidAmount)
      else if tenant !in s.wallets then (s, NotFound)
      else if Balance(s, tenant) < amount then (s, Insufficient)
      else (MoveWallet(s, tenant, -amount), Credited(Balance(s, tenant) - amount))
  }

  /** A new recharge is not paid yet, and moves no money. */
  lemma InitiateOpensOne(s: State, tenant: Tenant, gateway: string, orderId: Option<string>, amount: int)
    ensures var s' := Next(s, Initiate(tenant, gateway, orderId, amount)).0;
      && s'.wallets == s.wallets && s'.ledger == s.ledger
      && |s'.recharges| == |s.recharges| + 1 && s'.recharges[..|s.recharges|] == s.recharges
      && var tx := s'.recharges[|s.recharges|];
         && tx.tenant == tenant && tx.gateway == gateway && tx.orderId == orderId && tx.amount == amount
         && tx.status == Initiated && tx.paymentId == None && tx.ledgerId == None && tx.reconciledBy == None
  {
  }

  /** What findOne may answer for an order id: any row that has it, none only when no row does. */
  predicate Found(s: State, step: Step) {
    step.Webhook? ==>
      if step.found.Some? then
        step.found.value < |s.recharges| && s.recharges[step.found.value].orderId == Some(step.order)
      else forall i :: 0 <= i < |s.recharges| ==> s.recharges[i].orderId != Some(step.order)
  }

  ghost predicate IsRun(s: State, steps: seq<Step>)
    decreases |steps|
  {
    steps == [] || (Found(s, steps[0]) && IsRun(Next(s, steps[0]).0, steps[1..]))
  }

  function After(s: State, steps: seq<Step>): State
    decreases |steps|
  {
    if steps == [] then s else After(Next(s, steps[0]).0, steps[1..])
  }

  // ---------- The ledger ----------

  function Opening(opening: map<Tenant, int>, t: Tenant): int {
    if t in opening then opening[t] else 0
  }

  function SumEntries(ledger: seq<Entry>, t: Tenant): int {
    if ledger == [] then 0
    else
      var e := ledger[|ledger| - 1];
      SumEntries(ledger[..|ledger| - 1], t) + if e.tenant == t then e.amount else 0
  }

  /** An entry that pays a recharge is the one the recharge points to. */
  ghost predicate EntryOk(s: State, i: nat)
    requires i < |s.ledger|
  {
    var e := s.ledger[i];
    e.recharge.Some? ==>
      && e.recharge.value < |s.recharges|
      && var tx := s.recharges[e.recharge.value];
         (tx.status == Succeeded && tx.ledgerId == Some(i) && e.tenant == tx.tenant && e.amount == tx.amount)
  }

  ghost predicate RechargeOk(s: State, id: Id)
    requires id < |s.recharges|
  {
    var tx := s.recharges[id];
    tx.status == Succeeded ==>
      tx.ledgerId.Some? && tx.ledgerId.value < |s.ledger| && s.ledger[tx.ledgerId.value].recharge == Some(id)
  }

  /** Successful recharges and ledger entries match one to one. */
  ghost predicate Matched(s: State) {
    && (forall i :: 0 <= i < |s.ledger| ==> EntryOk(s, i))
    && (forall id :: 0 <= id < |s.recharges| ==> RechargeOk(s, id))
  }

  /** Every balance_after is the running sum of its wallet, and the balance is the last of them. */
  ghost predicate Running(s: State, opening: map<Tenant, int>) {
    && (forall i :: 0 <= i < |s.ledger| ==>
         s.ledger[i].balanceAfter == Opening(opening, s.ledger[i].tenant) + SumEntries(s.ledger[..i + 1], s.ledger[i].tenant))
    && (forall t :: Balance(s, t) == Opening(opening, t) + SumEntries(s.ledger, t))
  }

  ghost predicate Inv(s: State, opening: map<Tenant, int>) {
    Matched(s) && Running(s, opening)
  }

  /** An empty ledger, no successful recharge, and every wallet at its opening balance. */
  lemma FreshLedgerInv(s: State)
    requires s.ledger == [] && forall id :: 0 <= id < |s.recharges| ==> s.recharges[id].status != Succeeded
    ensures Inv(s, s.wallets)
  {
  }

  lemma CreditKeepsMatched(s: State, id: Id, step: Step)
    requires Matched(s) && id < |s.recharges| && s.recharges[id].status != Succeeded
    ensures Matched(Credit(s, id, step))
  {
    var s' := Credit(s, id, step);
    forall i | 0 <= i < |s'.ledger| ensures EntryOk(s', i) {
      if i < |s.ledger| {
        assert EntryOk(s, i);
      }
    }
    forall x | 0 <= x < |s'.recharges| ensures RechargeOk(s', x) {
      assert RechargeOk(s, x);
    }
  }

  lemma MoveKeepsMatched(s: State, t: Tenant, amount: int)
    requires Matched(s)
    ensures Matched(MoveWallet(s, t, amount))
  {
    var s' := MoveWallet(s, t, amount);
    forall i | 0 <= i < |s'.ledger| ensures EntryOk(s', i) {
      assert i < |s.ledger| ==> EntryOk(s, i);
    }
    forall x | 0 <= x < |s'.recharges| ensures RechargeOk(s', x) {
      assert RechargeOk(s, x);
    }
  }

  /** One more entry whose balance_after is the old balance plus its amount, and the wallet set to it. */
  lemma EntryKeepsRunning(s: State, s': State, opening: map<Tenant, int>, e: Entry)
    requires Running(s, opening)
    requires s'.ledger == s.ledger + [e] && s'.wallets == s.wallets[e.tenant := e.balanceAfter]
    requires e.balanceAfter == Balance(s, e.tenant) + e.amount
    ensures Running(s', opening)
  {
    var n := |s.ledger|;
    assert s'.ledger[..n] == s.ledger && s'.ledger[..n + 1] == s'.ledger;
    forall i | 0 <= i < |s'.ledger|
      ensures s'.ledger[i].balanceAfter == Opening(opening, s'.ledger[i].tenant) + SumEntries(s'.ledger[..i + 1], s'.ledger[i].tenant)
    {
      if i < n {
        assert s'.ledger[..i + 1] == s.ledger[..i + 1];
      }
    }
  }

  lemma StatusKeepsInv(s: State, s': State, opening: map<Tenant, int>)
    requires Inv(s, opening) && s'.ledger == s.ledger && s'.wallets == s.wallets && |s.recharges| <= |s'.recharges|
    requires forall id :: 0 <= id < |s.recharges| ==>
      s'.recharges[id] == s.recharges[id] || (s.recharges[id].status != Succeeded && s'.recharges[id].status != Succeeded)
    requires forall id :: |s.recharges| <= id < |s'.recharges| ==> s'.recharges[id].status != Succeeded
    ensures Inv(s', opening)
  {
    forall i | 0 <= i < |s'.ledger| ensures EntryOk(s', i) {
      assert EntryOk(s, i);
    }
    forall x | 0 <= x < |s'.recharges| ensures RechargeOk(s', x) {
      if x < |s.recharges| {
        assert RechargeOk(s, x);
      }
    }
    assert forall t :: Balance(s', t) == Balance(s, t);
  }

  lemma CreditKeepsInv(s: State, opening: map<Tenant, int>, id: Id, step: Step)
    requires Inv(s, opening) && id < |s.recharges| && s.recharges[id].status != Succeeded
    ensures Inv(Credit(s, id, step), opening)
  {
    CreditKeepsMatched(s, id, step);
    var s' := Credit(s, id, step);
    EntryKeepsRunning(s, s', opening, s'.ledger[|s.ledger|]);
  }

  lemma MoveKeepsInv(s: State, opening: map<Tenant, int>, t: Tenant, amount: int)
    requires Inv(s, opening)
    ensures Inv(MoveWallet(s, t, amount), opening)
  {
    MoveKeepsMatched(s, t, amount);
    var s' := MoveWallet(s, t, amount);
    EntryKeepsRunning(s, s', opening, s'.ledger[|s.ledger|]);
  }

  lemma StepKeepsInv(s: State, opening: map<Tenant, int>, step: Step)
    requires Inv(s, opening)
    ensures Inv(Next(s, step).0, opening)
  {
    var s' := Next(s, step).0;
    if s'.ledger == s.ledger {
      hide Inv;
      StatusKeepsInv(s, s', opening);
    } else {
      hide Inv;
      match step
      case WalletCredit(t, amount) => MoveKeepsInv(s, opening, t, amount);
      case WalletDebit(t, amount) => MoveKeepsInv(s, opening, t, -amount);
      case Verify(id, _, _, _, _, _) => CreditKeepsInv(s, opening, id, step);
      case Webhook(_, found, _, _, _) => CreditKeepsInv(s, opening, found.value, step);
      case Reconcile(id, _) => CreditKeepsInv(s, opening, id, step);
      case Initiate(_, _, _, _) =>
    }
  }

  /** After any run the ledger is the running account of each wallet and matches the successful recharges. */
  lemma {:induction false} RunKeepsInv(s: State, opening: map<Tenant, int>, steps: seq<Step>)
    requires Inv(s, opening)
    ensures Inv(After(s, steps), opening)
    decreases |steps|
  {
    if steps != [] {
      StepKeepsInv(s, opening, steps[0]);
      RunKeepsInv(Next(s, steps[0]).0, opening, steps[1..]);
    }
  }

  /** The same from a fresh ledger, with no invariant to start from. */
  lemma FreshRunKeepsBooks(s: State, steps: seq<Step>)
    requires s.ledger == [] && forall id :: 0 <= id < |s.recharges| ==> s.recharges[id].status != Succeeded
    ensures Inv(After(s, steps), s.wallets)
  {
    FreshLedgerInv(s);
    RunKeepsInv(s, s.wallets, steps);
  }

  /** Every entry of a recharge is at the same place in the ledger. */
  lemma OneEntryPerRecharge(s: State, opening: map<Tenant, int>, id: Id)
    requires Inv(s, opening) && id < |s.recharges|
    ensures s.recharges[id].status == Succeeded <==> exists i :: 0 <= i < |s.ledger| && s.ledger[i].recharge == Some(id)
    ensures forall i, j :: 0 <= i < |s.ledger| && 0 <= j < |s.ledger| && s.ledger[i].recharge == s.ledger[j].recharge == Some(id) ==> i == j
  {
    assert RechargeOk(s, id);
    forall i | 0 <= i < |s.ledger| && s.ledger[i].recharge == Some(id)
      ensures s.recharges[id].status == Succeeded && s.recharges[id].ledgerId == Some(i)
    {
      assert EntryOk(s, i);
    }
  }

  /** Success is absorbing: nothing about a successful recharge changes again. */
  lemma {:induction false} SuccessStays(s: State, steps: seq<Step>, id: Id)
    requires id < |s.recharges| && s.recharges[id].status == Succeeded
    ensures id < |After(s, steps).recharges| && After(s, steps).recharges[id] == s.recharges[id]
    decreases |steps|
  {
    if steps != [] {
      SuccessStays(Next(s, steps[0]).0, steps[1..], id);
    }
  }

  // ---------- Final balances ----------

  /** The amounts of a tenant's successful recharges. */
  function Paid(recharges: seq<RechargeTx>, t: Tenant): int {
    if recharges == [] then 0
    else
      var tx := recharges[|recharges| - 1];
      Paid(recharges[..|recharges| - 1], t) + if tx.tenant == t && tx.status == Succeeded then tx.amount else 0
  }

  function Part(tx: RechargeTx, t: Tenant): int {
    if tx.tenant == t && tx.status == Succeeded then tx.amount else 0
  }

  lemma {:induction false} PaidUpdate(recharges: seq<RechargeTx>, id: Id, tx: RechargeTx, t: Tenant)
    requires id < |recharges|
    ensures Paid(recharges[id := tx], t) == Paid(recharges, t) - Part(recharges[id], t) + Part(tx, t)
    decreases |recharges|
  {
    var front, n := recharges[..|recharges| - 1], |recharges| - 1;
    if id == n {
      assert recharges[id := tx][..n] == front;
    } else {
      PaidUpdate(front, id, tx, t);
      assert recharges[id := tx][..n] == front[id := tx];
    }
  }

  /** What the wallet service's entries add up to. */
  function Moved(ledger: seq<Entry>, t: Tenant): int {
    if ledger == [] then 0
    else
      var e := ledger[|ledger| - 1];
      Moved(ledger[..|ledger| - 1], t) + if e.tenant == t && e.recharge.None? then e.amount else 0
  }

  /** What is left of a balance without the recharges paid and the wallet service's entries. */
  function Rest(s: State, t: Tenant): int {
    Balance(s, t) - Paid(s.recharges, t) - Moved(s.ledger, t)
  }

  lemma PaymentConserves(s: State, id: Id, step: Step, t: Tenant)
    requires id < |s.recharges| && s.recharges[id].status != Succeeded
    ensures Rest(Credit(s, id, step), t) == Rest(s, t) == Rest(MarkFailed(s, id), t)
  {
    var credited := Credit(s, id, step);
    PaidUpdate(s.recharges, id, credited.recharges[id], t);
    PaidUpdate(s.recharges, id, MarkFailed(s, id).recharges[id], t);
    assert credited.ledger[..|s.ledger|] == s.ledger;
  }

  lemma MoveConserves(s: State, tenant: Tenant, amount: int, t: Tenant)
    ensures Rest(MoveWallet(s, tenant, amount), t) == Rest(s, t)
  {
  }

  /** A step moves a balance by exactly what it adds to the successful recharges and to the service's entries. */
  lemma StepConserves(s: State, step: Step, t: Tenant)
    ensures Rest(Next(s, step).0, t) == Rest(s, t)
  {
    match step
    case Initiate(_, _, _, _) => assert Next(s, step).0.recharges[..|s.recharges|] == s.recharges;
    case WalletCredit(tenant, amount) => MoveConserves(s, tenant, amount, t);
    case WalletDebit(tenant, amount) => MoveConserves(s, tenant, -amount, t);
    case _ =>
      if Target(s, step).Some? && s.recharges[Target(s, step).value].status != Succeeded {
        hide Rest;
        PaymentConserves(s, Target(s, step).value, step, t);
      }
  }

  lemma {:induction false} RunConserves(s: State, steps: seq<Step>, t: Tenant)
    ensures Rest(After(s, steps), t) == Rest(s, t)
    decreases |steps|
  {
    if steps != [] {
      StepConserves(s, steps[0], t);
      RunConserves(Next(s, steps[0]).0, steps[1..], t);
    }
  }

  /** Nothing but verifications, webhooks and reconciliations. */
  ghost predicate PaymentSteps(steps: seq<Step>) {
    forall i :: 0 <= i < |steps| ==> steps[i].Verify? || steps[i].Webhook? || steps[i].Reconcile?
  }

  /** Payments leave the wallet service's entries alone. */
  lemma {:induction false} PaymentsMoveNothing(s: State, steps: seq<Step>, t: Tenant)
    requires PaymentSteps(steps)
    ensures Moved(After(s, steps).ledger, t) == Moved(s.ledger, t)
    decreases |steps|
  {
    if steps != [] {
      var s' := Next(s, steps[0]).0;
      assert s'.ledger != s.ledger ==> s'.ledger[..|s.ledger|] == s.ledger;
      PaymentsMoveNothing(s', steps[1..], t);
    }
  }

  ghost predicate ConfirmedIn(s: State, steps: seq<Step>, id: Id) {
    exists i :: 0 <= i < |steps| && Confirms(s, steps[i]) == Some(id)
  }

  /** The fields that decide what a step confirms. */
  predicate SameTerms(s: State, s': State) {
    |s.recharges| == |s'.recharges| && forall id :: 0 <= id < |s.recharges| ==>
      var a, b := s.recharges[id], s'.recharges[id];
      a.tenant == b.tenant && a.gateway == b.gateway && a.amount == b.amount && a.orderId == b.orderId
  }

  /** A payment step changes no terms, and succeeds exactly the recharge it confirms. */
  lemma StepConfirms(s: State, step: Step)
    requires Found(s, step) && (step.Verify? || step.Webhook? || step.Reconcile?)
    ensures SameTerms(s, Next(s, step).0)
    ensures forall id :: 0 <= id < |s.recharges| ==>
      (Next(s, step).0.recharges[id].status == Succeeded <==> s.recharges[id].status == Succeeded || Confirms(s, step) == Some(id))
  {
  }

  lemma SameTermsConfirm(s: State, s': State, step: Step)
    requires SameTerms(s, s')
    ensures Confirms(s', step) == Confirms(s, step)
  {
  }

  /** A recharge ends up successful exactly when it was before or some step confirmed it, whatever the order and the repetitions. */
  lemma {:induction false} SuccessIffConfirmed(s: State, steps: seq<Step>, id: Id)
    requires IsRun(s, steps) && PaymentSteps(steps) && id < |s.recharges|
    ensures SameTerms(s, After(s, steps))
    ensures After(s, steps).recharges[id].status == Succeeded <==>
      s.recharges[id].status == Succeeded || ConfirmedIn(s, steps, id)
    decreases |steps|
  {
    if steps != [] {
      var s', rest := Next(s, steps[0]).0, steps[1..];
      StepConfirms(s, steps[0]);
      hide Next;
      SuccessIffConfirmed(s', rest, id);
      forall i | 0 <= i < |rest| ensures Confirms(s', rest[i]) == Confirms(s, steps[i + 1]) {
        SameTermsConfirm(s, s', rest[i]);
      }
      hide Confirms;
      if i :| 0 <= i < |rest| && Confirms(s', rest[i]) == Some(id) {
        assert Confirms(s, steps[i + 1]) == Some(id);
      }
      if i :| 0 <= i < |steps| && Confirms(s, steps[i]) == Some(id) {
        assert i > 0 ==> Confirms(s', rest[i - 1]) == Some(id);
      }
    }
  }

  lemma {:induction false} PaidByStatus(a: seq<RechargeTx>, b: seq<RechargeTx>, t: Tenant)
    requires |a| == |b|
    requires forall i :: 0 <= i < |a| ==>
      a[i].tenant == b[i].tenant && a[i].amount == b[i].amount && (a[i].status == Succeeded <==> b[i].status == Succeeded)
    ensures Paid(a, t) == Paid(b, t)
    decreases |a|
  {
    if a != [] {
      PaidByStatus(a[..|a| - 1], b[..|b| - 1], t);
    }
  }

  /** The recharges of a table as they stand once those in `confirmed` are successful. */
  ghost function Settled(recharges: seq<RechargeTx>, confirmed: iset<Id>): (r: seq<RechargeTx>)
    ensures |r| == |recharges|
  {
    seq(|recharges|, i requires 0 <= i < |recharges| =>
      if i in confirmed then recharges[i].(status := Succeeded) else recharges[i])
  }

  /**
   Final balances do not depend on the order or the repetition of the steps: each is the starting
   balance plus the amounts of the recharges that were not successful yet and got at least one
   successful confirmation, each counted once.
   */
  lemma FinalBalance(s: State, steps: seq<Step>, t: Tenant)
    requires IsRun(s, steps) && PaymentSteps(steps)
    ensures var confirmed := iset id | ConfirmedIn(s, steps, id);
      Balance(After(s, steps), t) == Balance(s, t) + Paid(Settled(s.recharges, confirmed), t) - Paid(s.recharges, t)
  {
    var s', confirmed := After(s, steps), iset id | ConfirmedIn(s, steps, id);
    RunConserves(s, steps, t);
    PaymentsMoveNothing(s, steps, t);
    if s.recharges == [] {
      EmptyStaysEmpty(s, steps);
    } else {
      SuccessIffConfirmed(s, steps, 0);
    }
    assert SameTerms(s, s');
    forall id | 0 <= id < |s.recharges|
      ensures s'.recharges[id].status == Succeeded <==> Settled(s.recharges, confirmed)[id].status == Succeeded
    {
      SuccessIffConfirmed(s, steps, id);
    }
    PaidByStatus(s'.recharges, Settled(s.recharges, confirmed), t);
  }

  lemma {:induction false} EmptyStaysEmpty(s: State, steps: seq<Step>)
    requires IsRun(s, steps) && PaymentSteps(steps) && s.recharges == []
    ensures After(s, steps).recharges == []
    decreases |steps|
  {
    if steps != [] {
      EmptyStaysEmpty(Next(s, steps[0]).0, steps[1..]);
    }
  }

  /** Two runs made of the same steps, in any order and with any repetition, end in the same balances. */
  lemma OrderDoesNotMatter(s: State, a: seq<Step>, b: seq<Step>, t: Tenant)
    requires IsRun(s, a) && IsRun(s, b) && PaymentSteps(a) && PaymentSteps(b)
    requires forall x :: x in a <==> x in b
    ensures Balance(After(s, a), t) == Balance(After(s, b), t)
  {
    FinalBalance(s, a, t);
    FinalBalance(s, b, t);
    var ca, cb := iset id | ConfirmedIn(s, a, id), iset id | ConfirmedIn(s, b, id);
    forall id ensures id in ca <==> id in cb {
      if i :| 0 <= i < |a| && Confirms(s, a[i]) == Some(id) {
        assert a[i] in b;
      }
      if i :| 0 <= i < |b| && Confirms(s, b[i]) == Some(id) {
        assert b[i] in a;
      }
    }
    assert ca == cb;
  }

  // ---------- No overdraft ----------

  ghost predicate NonNegative(s: State) {
    && (forall t :: t in s.wallets ==> s.wallets[t] >= 0)
    && (forall id :: 0 <= id < |s.recharges| ==> s.recharges[id].amount >= 0)
  }

  lemma StepKeepsNonNegative(s: State, step: Step)
    requires NonNegative(s) && (step.Initiate? ==> step.amount >= 0)
    ensures NonNegative(Next(s, step).0)
  {
  }

  /** No run of payments, credits and debits takes a wallet below zero, as long as no recharge is of a negative amount. */
  lemma {:induction false} RunKeepsNonNegative(s: State, steps: seq<Step>)
    requires NonNegative(s) && forall i :: 0 <= i < |steps| && steps[i].Initiate? ==> steps[i].amount >= 0
    ensures NonNegative(After(s, steps))
    decreases |steps|
  {
    if steps != [] {
      StepKeepsNonNegative(s, steps[0]);
      RunKeepsNonNegative(Next(s, steps[0]).0, steps[1..]);
    }
  }

  // ---------- The controllers and the wallet service ----------

  /** The wallet of one tenant moves by `amount`, one entry of no recharge is added, and nothing else changes. */
  ghost predicate OneWalletMoved(before: State, after: State, tenant: Tenant, amount: int) {
    && tenant in before.wallets
    && after.wallets == before.wallets[tenant := before.wallets[tenant] + amount]
    && after.ledger == before.ledger + [Entry(tenant, amount, before.wallets[tenant] + amount, None)]
    && after.recharges == before.recharges
  }

  /** A recharge is paid into its tenant's wallet, which is made if there is none, and nothing else changes. */
  ghost predicate OneRechargePaid(before: State, after: State, id: Id, paymentId: Option<string>, source: string)
    requires id < |before.recharges|
  {
    var tx := before.recharges[id];
    var newBalance := if tx.tenant in before.wallets then before.wallets[tx.tenant] + tx.amount else tx.amount;
    && after.wallets == before.wallets[tx.tenant := newBalance]
    && after.ledger == before.ledger + [Entry(tx.tenant, tx.amount, newBalance, Some(id))]
    && after.recharges == before.recharges[id := tx.(
         status := Succeeded,
         paymentId := paymentId,
         ledgerId := Some(|before.ledger|),
         reconciledBy := Some(source))]
  }

  class RechargeControllers {
    var recharges: seq<RechargeTx>
    var wallets: map<Tenant, int>
    var ledger: seq<Entry>

    ghost function Model(): State
      reads this
    {
      State(recharges, wallets, ledger)
    }

    constructor (recharges: seq<RechargeTx>, wallets: map<Tenant, int>)
      ensures Model() == State(recharges, wallets, [])
    {
      this.recharges, this.wallets, ledger := recharges, wallets, [];
    }

    /** The wallet row, the ledger row and the recharge row of one credit, as all three paths write them. */
    method CreditRecharge(id: Id, paymentId: Option<string>, source: string) returns (newBalance: int)
      requires id < |recharges|
      modifies this
      ensures var s := old(Model());
        && Model() == CreditFrom(s, id, Balance(s, s.recharges[id].tenant), paymentId, source)
        && newBalance == Balance(Model(), s.recharges[id].tenant)
    {
      var tx := recharges[id];
      if tx.tenant !in wallets {
        wallets := wallets[tx.tenant := 0];
      }
      newBalance := wallets[tx.tenant] + tx.amount;
      wallets := wallets[tx.tenant := newBalance];
      var entry := |ledger|;
      ledger := ledger + [Entry(tx.tenant, tx.amount, newBalance, Some(id))];
      recharges := recharges[id := tx.(
        status := Succeeded,
        paymentId := if paymentId.Some? then paymentId else tx.paymentId,
        ledgerId := Some(entry),
        reconciledBy := Some(source))];
    }

    method VerifyPayment(id: Id, caller: Tenant, gatewayKnown: bool, valid: bool, paymentId: Option<string>, crash: bool)
      returns (reply: Reply)
      modifies this
      ensures (Model(), reply) == Next(old(Model()), Verify(id, caller, gatewayKnown, valid, paymentId, crash))
      ensures reply.ServerError? <==> crash
      ensures reply.NotFound? <==> !crash && !(id < |old(recharges)| && old(recharges)[id].tenant == caller)
      ensures !crash && id < |old(recharges)| && old(recharges)[id].tenant == caller ==>
        var tx := old(recharges)[id];
        && (reply.AlreadyCredited? <==> tx.status == Succeeded)
        && (reply.GatewayMissing? <==> tx.status != Succeeded && !gatewayKnown)
        && (reply.Rejected? <==> tx.status != Succeeded && gatewayKnown && tx.gateway == "razorpay" && !valid)
        && (reply.Credited? <==> tx.status != Succeeded && gatewayKnown && (tx.gateway != "razorpay" || valid))
      ensures reply.Rejected? ==>
        Model() == old(Model()).(recharges := old(recharges)[id := old(recharges)[id].(status := Failed)])
      ensures reply.Credited? ==>
        && OneRechargePaid(old(Model()), Model(), id, if paymentId.Some? then paymentId else old(recharges)[id].paymentId, "client_verify")
        && reply.newBalance == wallets[caller]
      ensures !reply.Credited? && !reply.Rejected? ==> Model() == old(Model())
    {
      if crash {
        return ServerError;
      }
      if id >= |recharges| || recharges[id].tenant != caller {
        return NotFound;
      }
      var tx := recharges[id];
      if tx.status == Succeeded {
        return AlreadyCredited;
      }
      if !gatewayKnown {
        return GatewayMissing;
      }
      var isValid := if tx.gateway == "razorpay" then valid else true;
      if !isValid {
        recharges := recharges[id := tx.(status := Failed)];
        return Rejected;
      }
      var newBalance := CreditRecharge(id, paymentId, "client_verify");
      return Credited(newBalance);
    }

    method ProcessSuccessfulRecharge(order: string, found: Option<Id>, provider: string, paymentId: Option<string>, crash: bool)
      requires Found(Model(), Webhook(order, found, provider, paymentId, crash))
      modifies this
      ensures Model() == Next(old(Model()), Webhook(order, found, provider, paymentId, crash)).0
      ensures if crash || found.None? || old(recharges)[found.value].status == Succeeded then Model() == old(Model())
        else OneRechargePaid(old(Model()), Model(), found.value,
                             if paymentId.Some? then paymentId else old(recharges)[found.value].paymentId, provider + "_webhook")
    {
      if crash || found.None? {
        return;
      }
      if recharges[found.value].status == Succeeded {
        return;
      }
      var _ := CreditRecharge(found.value, paymentId, provider + "_webhook");
    }

    method ReconcileTransaction(id: Id, crash: bool) returns (reply: Reply)
      modifies this
      ensures (Model(), reply) == Next(old(Model()), Reconcile(id, crash))
      ensures reply.ServerError? <==> crash
      ensures reply.NotFound? <==> !crash && id >= |old(recharges)|
      ensures reply.AlreadyCredited? <==> !crash && id < |old(recharges)| && old(recharges)[id].status == Succeeded
      ensures !reply.Credited? ==> Model() == old(Model()) && (reply.ServerError? || reply.NotFound? || reply.AlreadyCredited?)
      ensures reply.Credited? ==>
        && OneRechargePaid(old(Model()), Model(), id, old(recharges)[id].paymentId, "admin_reconcile")
        && reply.newBalance == wallets[recharges[id].tenant]
    {
      if crash {
        return ServerError;
      }
      if id >= |recharges| {
        return NotFound;
      }
      if recharges[id].status == Succeeded {
        return AlreadyCredited;
      }
      var newBalance := CreditRecharge(id, None, "admin_reconcile");
      return Credited(newBalance);
    }

    method CreditWallet(tenant: Tenant, amount: int) returns (reply: Reply)
      modifies this
      ensures (Model(), reply) == Next(old(Model()), WalletCredit(tenant, amount))
      ensures reply.InvalidAmount? <==> amount <= 0
      ensures reply.NotFound? <==> amount > 0 && tenant !in old(wallets)
      ensures if amount > 0 && tenant in old(wallets)
        then OneWalletMoved(old(Model()), Model(), tenant, amount) && reply == Credited(old(wallets)[tenant] + amount)
        else Model() == old(Model())
    {
      if amount <= 0 {
        return InvalidAmount;
      }
      if tenant !in wallets {
        return NotFound;
      }
      var newBalance := wallets[tenant] + amount;
      ledger := ledger + [Entry(tenant, amount, newBalance, None)];
      wallets := wallets[tenant := newBalance];
      return Credited(newBalance);
    }

    method DebitWallet(tenant: Tenant, amount: int) returns (reply: Reply)
      modifies this
      ensures (Model(), reply) == Next(old(Model()), WalletDebit(tenant, amount))
      ensures reply.InvalidAmount? <==> amount <= 0
      ensures reply.NotFound? <==> amount > 0 && tenant !in old(wallets)
      ensures reply.Insufficient? <==> amount > 0 && tenant in old(wallets) && old(wallets)[tenant] < amount
      ensures if amount > 0 && tenant in old(wallets) && old(wallets)[tenant] >= amount
        then OneWalletMoved(old(Model()), Model(), tenant, -amount) && reply == Credited(old(wallets)[tenant] - amount)
        else Model() == old(Model())
    {
      if amount <= 0 {
        return InvalidAmount;
      }
      if tenant !in wallets {
        return NotFound;
      }
      if wallets[tenant] < amount {
        return Insufficient;
      }
      var newBalance := wallets[tenant] - amount;
      ledger := ledger + [Entry(tenant, -amount, newBalance, None)];
      wallets := wallets[tenant := newBalance];
      return Credited(newBalance);
    }
  }
}
