/**
 The recharge paths when their transactions overlap.  None of them locks a row: each reads the recharge
 status, then perhaps the wallet, and writes later, a credit in absolute values and a failed
 verification over whatever the status is by then.  Here each is split at those reads and writes.  The
 wallet service does lock the wallet row, so its moves stay whole.
 */
module RechargeOverlap {
  import opened Options
  import opened Recharge

  type TxnId = nat

  /** How far an open transaction is, and what it read of the wallet row, if there was one. */
  datatype Stage = StatusRead | WalletRead(hadWallet: bool, previous: int)

  /** An open payment transaction with the status it read; `step` is what it would do in one piece. */
  datatype Open = Open(step: Step, status: Status, stage: Stage)

  datatype Shared = Shared(base: State, open: map<TxnId, Open>)

  datatype Move =
    | Start(t: TxnId, step: Step)
    | ReadWallet(t: TxnId)
    | Write(t: TxnId)
    | WriteFailed(t: TxnId)
    | Abort(t: TxnId)
    | Other(step: Step)

  /** The recharge a payment step is about. */
  function IdOf(step: Step): Id {
    match step
    case Verify(id, _, _, _, _, _) => id
    case Webhook(_, found, _, _, _) => found.GetOr(0)
    case Reconcile(id, _) => id
    case _ => 0
  }

  /** A start that finds the recharge successful opens nothing; a second insert of a wallet row fails. */
  predicate Enabled(s: Shared, m: Move) {
    match m
    case Start(t, step) =>
      && t !in s.open && Found(s.base, step) && Target(s.base, step).Some?
      && s.base.recharges[IdOf(step)].status != Succeeded
    case ReadWallet(t) =>
      t in s.open && s.open[t].stage.StatusRead? && Target(s.base, s.open[t].step).Some? && !Fails(s.base, s.open[t].step)
    case Write(t) =>
      && t in s.open && s.open[t].stage.WalletRead? && Target(s.base, s.open[t].step).Some? && !Fails(s.base, s.open[t].step)
      && (s.open[t].stage.hadWallet || s.base.recharges[IdOf(s.open[t].step)].tenant !in s.base.wallets)
    case WriteFailed(t) =>
      t in s.open && s.open[t].stage.StatusRead? && Target(s.base, s.open[t].step).Some? && Fails(s.base, s.open[t].step)
    case Abort(t) => t in s.open
    case Other(step) => step.Initiate? || step.WalletCredit? || step.WalletDebit?
  }

  /** An update of a row writes the status only if it is not the one that was read. */
  function Apply(s: Shared, m: Move): Shared
    requires Enabled(s, m)
  {
    match m
    case Start(t, step) => s.(open := s.open[t := Open(step, s.base.recharges[IdOf(step)].status, StatusRead)])
    case ReadWallet(t) =>
      var x := s.open[t];
      var tenant := s.base.recharges[IdOf(x.step)].tenant;
      s.(open := s.open[t := x.(stage := WalletRead(tenant in s.base.wallets, Balance(s.base, tenant)))])
    case Write(t) =>
      var x := s.open[t];
      Shared(CreditFrom(s.base, IdOf(x.step), x.stage.previous, PaymentIdOf(x.step), SourceOf(x.step)), s.open - {t})
    case WriteFailed(t) =>
      var x := s.open[t];
      Shared(if x.status == Failed then s.base else MarkFailed(s.base, IdOf(x.step)), s.open - {t})
    case Abort(t) => s.(open := s.open - {t})
    case Other(step) => s.(base := Next(s.base, step).0)
  }

  ghost predicate IsRun(s: Shared, moves: seq<Move>)
    decreases |moves|
  {
    moves == [] || (Enabled(s, moves[0]) && IsRun(Apply(s, moves[0]), moves[1..]))
  }

  ghost function After(s: Shared, moves: seq<Move>): Shared
    requires IsRun(s, moves)
    decreases |moves|
  {
    if moves == [] then s else After(Apply(s, moves[0]), moves[1..])
  }

  /**
   A credit is computed from the wallet as it was read, whatever has happened since: the balance and the
   entry's balance_after are that balance plus the recharge's amount, and the recharge is successful.
   */
  lemma CreditUsesWhatItRead(s: Shared, t: TxnId, later: State)
    requires Enabled(s, ReadWallet(t))
    requires Enabled(Apply(s, ReadWallet(t)).(base := later), Write(t))
    ensures var id := IdOf(s.open[t].step);
      var tenant := s.base.recharges[id].tenant;
      var read := if tenant in s.base.wallets then s.base.wallets[tenant] else 0;
      var after, tx := Apply(Apply(s, ReadWallet(t)).(base := later), Write(t)), later.recharges[id];
      && after.base.wallets == later.wallets[tx.tenant := read + tx.amount]
      && after.base.ledger == later.ledger + [Entry(tx.tenant, tx.amount, read + tx.amount, Some(id))]
      && |after.base.recharges| == |later.recharges| && after.base.recharges[id].status == Succeeded
      && (forall x :: 0 <= x < |later.recharges| && x != id ==> after.base.recharges[x] == later.recharges[x])
      && after.open == s.open - {t}
  {
  }

  /** A verification that fails overwrites whatever status there is by then, unless it had read `failed` itself; it touches no money. */
  lemma FailureOverwrites(s: Shared, t: TxnId, step: Step, later: State)
    requires Enabled(s, Start(t, step))
    requires Enabled(Apply(s, Start(t, step)).(base := later), WriteFailed(t))
    ensures var id := IdOf(step);
      var after := Apply(Apply(s, Start(t, step)).(base := later), WriteFailed(t)).base;
      && after.wallets == later.wallets && after.ledger == later.ledger && |after.recharges| == |later.recharges|
      && (forall x :: 0 <= x < |later.recharges| && x != id ==> after.recharges[x] == later.recharges[x])
      && after.recharges[id] ==
           if s.base.recharges[id].status == Failed then later.recharges[id] else later.recharges[id].(status := Failed)
  {
  }

  // ---------- The exact condition ----------

  /** What a write relies on is still so: the recharge is not successful, and a credit's balance is the one it read. */
  predicate Timely(s: Shared, m: Move)
    requires Enabled(s, m)
  {
    match m
    case Write(t) =>
      var tx := s.base.recharges[IdOf(s.open[t].step)];
      tx.status != Succeeded && Balance(s.base, tx.tenant) == s.open[t].stage.previous
    case WriteFailed(t) => s.base.recharges[IdOf(s.open[t].step)].status != Succeeded || s.open[t].status == Failed
    case _ => true
  }

  /** A late credit does what the whole step would do now exactly when it is timely. */
  lemma WriteIsAtomicIff(s: Shared, t: TxnId)
    requires Enabled(s, Write(t))
    ensures Apply(s, Write(t)).base == Next(s.base, s.open[t].step).0 <==> Timely(s, Write(t))
  {
    var id := IdOf(s.open[t].step);
    assert Apply(s, Write(t)).base.ledger != s.base.ledger;
    assert s.base.recharges[id].status != Succeeded ==> Next(s.base, s.open[t].step).0 == Credit(s.base, id, s.open[t].step);
    assert Apply(s, Write(t)).base.ledger[|s.base.ledger|].balanceAfter == s.open[t].stage.previous + s.base.recharges[id].amount;
  }

  lemma MatchedPair(s: State, id: Id)
    requires Matched(s) && id < |s.recharges| && s.recharges[id].status == Succeeded
    ensures var l := s.recharges[id].ledgerId;
      l.Some? && l.value < |s.ledger| && s.ledger[l.value].recharge == Some(id)
  {
    assert RechargeOk(s, id);
  }

  /** An entry that no later move can put right: a wrong balance_after, or a paid recharge that does not point to it. */
  ghost predicate BadEntry(s: State, opening: map<Tenant, int>, i: nat)
    requires i < |s.ledger|
  {
    var e := s.ledger[i];
    || e.balanceAfter != Opening(opening, e.tenant) + SumEntries(s.ledger[..i + 1], e.tenant)
    || (e.recharge.Some? && e.recharge.value < |s.recharges| &&
        (s.recharges[e.recharge.value].status != Succeeded || s.recharges[e.recharge.value].ledgerId != Some(i)))
  }

  ghost predicate Broken(s: State, opening: map<Tenant, int>) {
    exists i :: 0 <= i < |s.ledger| && BadEntry(s, opening, i)
  }

  lemma BrokenIsNotInv(s: State, opening: map<Tenant, int>)
    requires Broken(s, opening)
    ensures !Inv(s, opening)
  {
    var i :| 0 <= i < |s.ledger| && BadEntry(s, opening, i);
    assert Matched(s) ==> EntryOk(s, i);
  }

  lemma UntimelyWriteBreaks(s: Shared, opening: map<Tenant, int>, m: Move)
    requires Inv(s.base, opening) && Enabled(s, m) && !Timely(s, m)
    ensures Broken(Apply(s, m).base, opening)
  {
    var id, s', n := IdOf(s.open[m.t].step), Apply(s, m).base, |s.base.ledger|;
    var tx := s.base.recharges[id];
    if tx.status == Succeeded {
      MatchedPair(s.base, id);
      assert BadEntry(s', opening, tx.ledgerId.value);
    } else {
      var t := tx.tenant;
      assert s'.ledger[..n + 1] == s'.ledger && s'.ledger[..n] == s.base.ledger;
      assert Balance(s.base, t) == Opening(opening, t) + SumEntries(s.base.ledger, t);
      assert BadEntry(s', opening, n);
    }
  }

  lemma TimelyMoveKeepsInv(s: Shared, opening: map<Tenant, int>, m: Move)
    requires Inv(s.base, opening) && Enabled(s, m) && Timely(s, m)
    ensures Inv(Apply(s, m).base, opening)
  {
    match m
    case Write(t) =>
      var x := s.open[t];
      CreditKeepsInv(s.base, opening, IdOf(x.step), x.step);
    case WriteFailed(t) => StatusKeepsInv(s.base, Apply(s, m).base, opening);
    case Other(step) => StepKeepsInv(s.base, opening, step);
    case _ =>
  }

  /** From a sound ledger a move leaves a sound ledger exactly when it is timely. */
  lemma MoveKeepsLedgerIff(s: Shared, opening: map<Tenant, int>, m: Move)
    requires Inv(s.base, opening) && Enabled(s, m)
    ensures Inv(Apply(s, m).base, opening) <==> Timely(s, m)
  {
    if Timely(s, m) {
      TimelyMoveKeepsInv(s, opening, m);
    } else {
      UntimelyWriteBreaks(s, opening, m);
      BrokenIsNotInv(Apply(s, m).base, opening);
    }
  }

  /** Entries are never changed, and a recharge only ever points to a newer one. */
  lemma BrokenStays(s: Shared, opening: map<Tenant, int>, m: Move)
    requires Broken(s.base, opening) && Enabled(s, m)
    ensures Broken(Apply(s, m).base, opening)
  {
    var s' := Apply(s, m).base;
    var i :| 0 <= i < |s.base.ledger| && BadEntry(s.base, opening, i);
    assert s'.ledger[..i + 1] == s.base.ledger[..i + 1];
    assert BadEntry(s', opening, i);
  }

  ghost predicate AllTimely(s: Shared, moves: seq<Move>)
    requires IsRun(s, moves)
    decreases |moves|
  {
    moves == [] || (Timely(s, moves[0]) && AllTimely(Apply(s, moves[0]), moves[1..]))
  }

  lemma {:induction false} BrokenRun(s: Shared, opening: map<Tenant, int>, moves: seq<Move>)
    requires Broken(s.base, opening) && IsRun(s, moves)
    ensures !Inv(After(s, moves).base, opening)
    decreases |moves|
  {
    if moves == [] {
      BrokenIsNotInv(s.base, opening);
    } else {
      BrokenStays(s, opening, moves[0]);
      BrokenRun(Apply(s, moves[0]), opening, moves[1..]);
    }
  }

  /** Any run from a sound ledger, however its transactions overlap, ends in one exactly when every write was timely. */
  lemma {:induction false} RunKeepsLedgerIff(s: Shared, opening: map<Tenant, int>, moves: seq<Move>)
    requires Inv(s.base, opening) && IsRun(s, moves)
    ensures Inv(After(s, moves).base, opening) <==> AllTimely(s, moves)
    decreases |moves|
  {
    if moves != [] {
      MoveKeepsLedgerIff(s, opening, moves[0]);
      if Timely(s, moves[0]) {
        RunKeepsLedgerIff(Apply(s, moves[0]), opening, moves[1..]);
      } else {
        UntimelyWriteBreaks(s, opening, moves[0]);
        BrokenRun(Apply(s, moves[0]), opening, moves[1..]);
      }
    }
  }

  // ---------- Runs without overlap on one wallet ----------

  ghost predicate HasOpen(s: Shared, tenant: Tenant) {
    exists t :: t in s.open && IdOf(s.open[t].step) < |s.base.recharges| && s.base.recharges[IdOf(s.open[t].step)].tenant == tenant
  }

  /** A payment starts, or the wallet service moves, while a payment to the same wallet is open. */
  ghost predicate Overlaps(s: Shared, m: Move) {
    match m
    case Start(t, step) => IdOf(step) < |s.base.recharges| && HasOpen(s, s.base.recharges[IdOf(step)].tenant)
    case Other(WalletCredit(tenant, _)) => HasOpen(s, tenant)
    case Other(WalletDebit(tenant, _)) => HasOpen(s, tenant)
    case _ => false
  }

  ghost predicate IsOrderlyRun(s: Shared, moves: seq<Move>)
    decreases |moves|
  {
    moves == [] || (Enabled(s, moves[0]) && !Overlaps(s, moves[0]) && IsOrderlyRun(Apply(s, moves[0]), moves[1..]))
  }

  /** Everything an open transaction has read is still so. */
  ghost predicate OpenOk(s: Shared, t: TxnId)
    requires t in s.open
  {
    var x := s.open[t];
    && Target(s.base, x.step) == Some(IdOf(x.step))
    && var tx := s.base.recharges[IdOf(x.step)];
       && tx.status == x.status != Succeeded
       && (x.stage.WalletRead? ==>
            Balance(s.base, tx.tenant) == x.stage.previous && (x.stage.hadWallet <==> tx.tenant in s.base.wallets))
  }

  predicate SameWallet(s: State, x: Open, y: Open) {
    IdOf(x.step) < |s.recharges| && IdOf(y.step) < |s.recharges|
    && s.recharges[IdOf(x.step)].tenant == s.recharges[IdOf(y.step)].tenant
  }

  /** Nothing read is out of date, and no two are open on one wallet. */
  ghost predicate Orderly(s: Shared) {
    && (forall t :: t in s.open ==> OpenOk(s, t))
    && (forall t, u :: t in s.open && u in s.open && SameWallet(s.base, s.open[t], s.open[u]) ==> t == u)
  }

  /** The whole step a move completes, if it completes one. */
  function Completes(s: Shared, m: Move): Option<Step>
    requires Enabled(s, m)
  {
    match m
    case Write(t) => Some(s.open[t].step)
    case WriteFailed(t) => Some(s.open[t].step)
    case Other(step) => Some(step)
    case _ => None
  }

  lemma OrderlyMoveIsStep(s: Shared, m: Move)
    requires Orderly(s) && Enabled(s, m)
    ensures Timely(s, m)
    ensures Apply(s, m).base == if Completes(s, m).Some? then Next(s.base, Completes(s, m).value).0 else s.base
  {
  }

  /** A transaction that stays open keeps what it read when the move is about another wallet. */
  lemma OtherWalletStaysOk(s: Shared, m: Move, t: TxnId)
    requires Orderly(s) && Enabled(s, m) && !Overlaps(s, m)
    requires t in s.open && (m.Other? || t != m.t)
    ensures t in Apply(s, m).open && OpenOk(Apply(s, m), t)
  {
    assert OpenOk(s, t);
    if m.Write? || m.WriteFailed? {
      assert !SameWallet(s.base, s.open[t], s.open[m.t]);
    }
  }

  lemma TenantsStay(s: Shared, m: Move)
    requires Enabled(s, m)
    ensures var r, r' := s.base.recharges, Apply(s, m).base.recharges;
      |r| <= |r'| && forall id :: 0 <= id < |r| ==> r'[id].tenant == r[id].tenant
  {
  }

  lemma SameWalletBefore(s: Shared, m: Move, t: TxnId, u: TxnId)
    requires Orderly(s) && Enabled(s, m) && !Overlaps(s, m)
    requires var s' := Apply(s, m); t in s'.open && u in s'.open && SameWallet(s'.base, s'.open[t], s'.open[u])
    ensures t == u
  {
    hide Next;
    TenantsStay(s, m);
    if m.Start? {
      if t in s.open && u in s.open {
        assert SameWallet(s.base, s.open[t], s.open[u]);
      }
    } else {
      assert OpenOk(s, t) && OpenOk(s, u);
      hide Overlaps;
      assert SameWallet(s.base, s.open[t], s.open[u]);
    }
  }

  lemma OrderlyStep(s: Shared, m: Move)
    requires Orderly(s) && Enabled(s, m) && !Overlaps(s, m)
    ensures Orderly(Apply(s, m))
  {
    var s' := Apply(s, m);
    forall t | t in s'.open ensures OpenOk(s', t) {
      if m.Other? || t != m.t {
        OtherWalletStaysOk(s, m, t);
      } else if m.ReadWallet? {
        assert OpenOk(s, t);
      }
    }
    forall t, u | t in s'.open && u in s'.open && SameWallet(s'.base, s'.open[t], s'.open[u]) ensures t == u {
      SameWalletBefore(s, m, t, u);
    }
  }

  /** The whole steps of a run, in the order in which they were completed. */
  ghost function Serial(s: Shared, moves: seq<Move>): seq<Step>
    requires IsOrderlyRun(s, moves)
    decreases |moves|
  {
    if moves == [] then []
    else
      (if Completes(s, moves[0]).Some? then [Completes(s, moves[0]).value] else [])
      + Serial(Apply(s, moves[0]), moves[1..])
  }

  /** Transactions of different wallets may overlap at will: they do what their whole steps do one after another. */
  lemma {:induction false} OrderlyRunIsSerial(s: Shared, moves: seq<Move>)
    requires Orderly(s) && IsOrderlyRun(s, moves)
    ensures IsRun(s, moves) && AllTimely(s, moves)
    ensures After(s, moves).base == Recharge.After(s.base, Serial(s, moves))
    decreases |moves|
  {
    if moves != [] {
      OrderlyMoveIsStep(s, moves[0]);
      OrderlyStep(s, moves[0]);
      var rest := Serial(Apply(s, moves[0]), moves[1..]);
      OrderlyRunIsSerial(Apply(s, moves[0]), moves[1..]);
      if Completes(s, moves[0]).Some? {
        assert Serial(s, moves)[0] == Completes(s, moves[0]).value && Serial(s, moves)[1..] == rest;
      } else {
        assert Serial(s, moves) == rest;
      }
    }
  }

  /** So the ledger stays sound, and a success stays a success. */
  lemma OrderlyRunKeepsLedger(base: State, opening: map<Tenant, int>, moves: seq<Move>, id: Id)
    requires Inv(base, opening) && IsOrderlyRun(Shared(base, map[]), moves)
    ensures IsRun(Shared(base, map[]), moves)
    ensures var s := After(Shared(base, map[]), moves).base;
      && Inv(s, opening)
      && (id < |base.recharges| && base.recharges[id].status == Succeeded ==>
           id < |s.recharges| && s.recharges[id] == base.recharges[id])
  {
    var start := Shared(base, map[]);
    OrderlyRunIsSerial(start, moves);
    Recharge.RunKeepsInv(base, opening, Serial(start, moves));
    if id < |base.recharges| && base.recharges[id].status == Succeeded {
      Recharge.SuccessStays(base, Serial(start, moves), id);
    }
  }

  // ---------- Runs in which transactions do overlap ----------

  lemma {:induction false} Then(s: Shared, moves: seq<Move>, m: Move)
    requires IsRun(s, moves) && Enabled(After(s, moves), m)
    ensures IsRun(s, moves + [m]) && After(s, moves + [m]) == Apply(After(s, moves), m)
    decreases |moves|
  {
    if moves == [] {
      assert IsRun(Apply(s, m), [m][1..]) && moves + [m] == [m];
    } else {
      Then(Apply(s, moves[0]), moves[1..], m);
      assert (moves + [m])[1..] == moves[1..] + [m];
    }
  }

  /** A step that would credit recharge `id` now. */
  predicate Pays(s: State, step: Step, id: Id) {
    id < |s.recharges| && s.recharges[id].status != Succeeded && Found(s, step) && Confirms(s, step) == Some(id)
  }

  lemma Reading(s: Shared, moves: seq<Move>, t: TxnId, step: Step, id: Id) returns (more: seq<Move>)
    requires IsRun(s, moves) && t !in After(s, moves).open && Pays(After(s, moves).base, step, id)
    ensures IsRun(s, more)
    ensures var b := After(s, moves);
      var tenant := b.base.recharges[id].tenant;
      After(s, more) == b.(open := b.open[t := Open(step, b.base.recharges[id].status, WalletRead(tenant in b.base.wallets, Balance(b.base, tenant)))])
  {
    Then(s, moves, Start(t, step));
    more := moves + [Start(t, step)];
    Then(s, more, ReadWallet(t));
    more := more + [ReadWallet(t)];
  }

  lemma Paying(s: Shared, moves: seq<Move>, opening: map<Tenant, int>, t: TxnId, step: Step, id: Id) returns (more: seq<Move>)
    requires IsRun(s, moves) && t !in After(s, moves).open && Pays(After(s, moves).base, step, id)
    ensures IsRun(s, more)
    ensures After(s, more) == After(s, moves).(base := Credit(After(s, moves).base, id, step))
    ensures Inv(After(s, moves).base, opening) ==> Inv(After(s, more).base, opening)
    ensures Broken(After(s, moves).base, opening) ==> Broken(After(s, more).base, opening)
  {
    more := Reading(s, moves, t, step, id);
    var read := After(s, more);
    Then(s, more, Write(t));
    more := more + [Write(t)];
    assert After(s, more).open == After(s, moves).open;
    if Inv(read.base, opening) {
      MoveKeepsLedgerIff(read, opening, Write(t));
    }
    if Broken(read.base, opening) {
      BrokenStays(read, opening, Write(t));
    }
  }

  /**
   Two confirmations of one recharge that overlap, from any sound state with the wallet there: both write.
   The recharge then has two ledger entries while the wallet has gained its amount once.
   */
  lemma OverlapBreaksLedger(base: State, opening: map<Tenant, int>, id: Id, a: Step, b: Step) returns (moves: seq<Move>)
    requires Inv(base, opening) && Pays(base, a, id) && Pays(base, b, id) && base.recharges[id].tenant in base.wallets
    ensures IsRun(Shared(base, map[]), moves)
    ensures var s, n, tx := After(Shared(base, map[]), moves).base, |base.ledger|, base.recharges[id];
      && |s.ledger| == n + 2 && s.ledger[n].recharge == s.ledger[n + 1].recharge == Some(id)
      && Balance(s, tx.tenant) == Balance(base, tx.tenant) + tx.amount
      && !Inv(s, opening)
  {
    hide Inv;
    hide Found;
    var s0 := Shared(base, map[]);
    moves := Reading(s0, [], 0, a, id);
    moves := Reading(s0, moves, 1, b, id);
    var s2 := After(s0, moves);
    Then(s0, moves, Write(0));
    moves := moves + [Write(0)];
    var s3 := After(s0, moves);
    MoveKeepsLedgerIff(s2, opening, Write(0));
    Then(s0, moves, Write(1));
    moves := moves + [Write(1)];
    MoveKeepsLedgerIff(s3, opening, Write(1));
  }

  /** Two different recharges of one wallet that overlap: one of the two credits is lost from the balance. */
  lemma OverlapLosesCredit(base: State, first: Id, second: Id, a: Step, b: Step) returns (moves: seq<Move>)
    requires first != second && Pays(base, a, first) && Pays(base, b, second)
    requires base.recharges[first].tenant == base.recharges[second].tenant
    requires base.recharges[first].tenant in base.wallets
    ensures IsRun(Shared(base, map[]), moves)
    ensures var s, t := After(Shared(base, map[]), moves).base, base.recharges[first].tenant;
      && |s.recharges| == |base.recharges|
      && s.recharges[first].status == s.recharges[second].status == Succeeded
      && Balance(s, t) == Balance(base, t) + base.recharges[second].amount
  {
    var s0 := Shared(base, map[]);
    moves := Reading(s0, [], 0, a, first);
    moves := Reading(s0, moves, 1, b, second);
    Then(s0, moves, Write(0));
    moves := moves + [Write(0)];
    Then(s0, moves, Write(1));
    moves := moves + [Write(1)];
  }

  /** A debit between the read and the write of a credit is lost: the wallet service's lock does not help. */
  lemma OverlapLosesDebit(base: State, id: Id, step: Step, debit: int) returns (moves: seq<Move>)
    requires Pays(base, step, id) && base.recharges[id].tenant in base.wallets
    requires 0 < debit <= Balance(base, base.recharges[id].tenant)
    ensures IsRun(Shared(base, map[]), moves)
    ensures var s, n, tx := After(Shared(base, map[]), moves).base, |base.ledger|, base.recharges[id];
      && |s.ledger| == n + 2 && s.ledger[n] == Entry(tx.tenant, -debit, Balance(base, tx.tenant) - debit, None)
      && Balance(s, tx.tenant) == Balance(base, tx.tenant) + tx.amount
  {
    var s0 := Shared(base, map[]);
    moves := Reading(s0, [], 0, step, id);
    var other := Other(WalletDebit(base.recharges[id].tenant, debit));
    Then(s0, moves, other);
    moves := moves + [other];
    Then(s0, moves, Write(0));
    moves := moves + [Write(0)];
  }

  /**
   A verification that fails after another path has credited its recharge puts `failed` over the success.
   The next confirmation pays again: two entries for one recharge, and the wallet has twice the amount.
   */
  lemma LateFailurePaysTwice(base: State, opening: map<Tenant, int>, id: Id, failing: Step, a: Step, b: Step) returns (moves: seq<Move>)
    requires Inv(base, opening) && Pays(base, a, id) && Pays(base, b, id)
    requires Target(base, failing) == Some(id) && Fails(base, failing) && base.recharges[id].status != Failed
    ensures IsRun(Shared(base, map[]), moves)
    ensures var s, n, tx := After(Shared(base, map[]), moves).base, |base.ledger|, base.recharges[id];
      && |s.ledger| == n + 2 && s.ledger[n].recharge == s.ledger[n + 1].recharge == Some(id)
      && Balance(s, tx.tenant) == Balance(base, tx.tenant) + 2 * tx.amount
      && !Inv(s, opening)
  {
    var s0 := Shared(base, map[]);
    hide Inv;
    hide Broken;
    Then(s0, [], Start(0, failing));
    moves := [] + [Start(0, failing)];
    moves := Paying(s0, moves, opening, 1, a, id);
    var s1 := After(s0, moves);
    UntimelyWriteBreaks(s1, opening, WriteFailed(0));
    Then(s0, moves, WriteFailed(0));
    moves := moves + [WriteFailed(0)];
    assert After(s0, moves).base == MarkFailed(s1.base, id);
    moves := Paying(s0, moves, opening, 1, b, id);
    BrokenIsNotInv(After(s0, moves).base, opening);
  }
}
