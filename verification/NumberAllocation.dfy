/**
 Concurrent allocation of invoice and credit-note numbers: transactions that lock the counter row
 of their (financial year, series), create it when it is missing, take the next number, insert one
 document and commit or roll back, in any interleaving.

 A call that finds its document already there ends at once and never enters the model.  A row lock
 and an uncommitted row insert are both held to the end of the transaction.
 */
module NumberAllocation {
  import opened Options
  import opened InvoiceNumber

  type TxnId = nat

  datatype Key = Key(start: nat, series: Series)

  /** `ref` is what the idempotency check looks for: the shipment of an invoice, the invoice of a credit note; None for documents made without a check. */
  datatype Doc = Doc(key: Key, ref: Option<nat>, prefix: string, number: nat)

  /**
   Idle: past the idempotency check.  Missing: looked the counter up and found no row.
   Locked: holds the row, last_number as read.  Allocated: row incremented.  Failed: lost the insert race.
   */
  datatype Stage =
    | Idle
    | Missing(key: Key)
    | Locked(key: Key, last: nat)
    | Allocated(key: Key, number: nat)
    | Failed

  datatype Txn = Txn(series: Series, ref: Option<nat>, prefix: string, stage: Stage)

  /** `docs` lists the committed documents in commit order. */
  datatype State = State(counters: map<Key, nat>, docs: seq<Doc>, txns: map<TxnId, Txn>)

  datatype Step =
    | Begin(t: TxnId, series: Series, ref: Option<nat>, prefix: string)
    | Lookup(t: TxnId, start: nat)
    | InsertRow(t: TxnId)
    | Increment(t: TxnId)
    | Commit(t: TxnId)
    | Rollback(t: TxnId)

  predicate Holds(x: Txn, key: Key) {
    (x.stage.Locked? || x.stage.Allocated?) && x.stage.key == key
  }

  ghost predicate Free(s: State, key: Key) {
    forall t :: t in s.txns ==> !Holds(s.txns[t], key)
  }

  ghost predicate Exists(s: State, series: Series, ref: Option<nat>) {
    ref.Some? && exists i :: 0 <= i < |s.docs| && s.docs[i].key.series == series && s.docs[i].ref == ref
  }

  /** The prefix of a credit note is fixed. */
  predicate PrefixOk(series: Series, prefix: string) {
    series == CreditNoteSeries ==> prefix == Prefix(CreditNoteSeries, false, None)
  }

  /** When a step can be taken; a step that would wait for a lock is not enabled. */
  ghost predicate Enabled(s: State, step: Step) {
    match step
    case Begin(t, series, ref, prefix) => t !in s.txns && !Exists(s, series, ref) && PrefixOk(series, prefix)
    case Lookup(t, start) =>
      && t in s.txns && s.txns[t].stage == Idle
      && var key := Key(start, s.txns[t].series);
         key in s.counters ==> Free(s, key)
    case InsertRow(t) => t in s.txns && s.txns[t].stage.Missing? && Free(s, s.txns[t].stage.key)
    case Increment(t) => t in s.txns && s.txns[t].stage.Locked?
    case Commit(t) => t in s.txns && s.txns[t].stage.Allocated?
    case Rollback(t) => t in s.txns
  }

  function SetStage(s: State, t: TxnId, stage: Stage): State
    requires t in s.txns
  {
    s.(txns := s.txns[t := s.txns[t].(stage := stage)])
  }

  ghost function Next(s: State, step: Step): State
    requires Enabled(s, step)
  {
    match step
    case Begin(t, series, ref, prefix) => s.(txns := s.txns[t := Txn(series, ref, prefix, Idle)])
    case Lookup(t, start) =>
      var key := Key(start, s.txns[t].series);
      SetStage(s, t, if key in s.counters then Locked(key, s.counters[key]) else Missing(key))
    case InsertRow(t) =>
      var key := s.txns[t].stage.key;
      SetStage(s, t, if key in s.counters then Failed else Locked(key, 0))
    case Increment(t) =>
      var stage := s.txns[t].stage;
      SetStage(s, t, Allocated(stage.key, stage.last + 1))
    case Commit(t) =>
      var x := s.txns[t];
      State(
        s.counters[x.stage.key := x.stage.number],
        s.docs + [Doc(x.stage.key, x.ref, x.prefix, x.stage.number)],
        s.txns - {t})
    case Rollback(t) => s.(txns := s.txns - {t})
  }

  const EMPTY := State(map[], [], map[])

  ghost predicate IsRun(s: State, steps: seq<Step>)
    decreases |steps|
  {
    steps == [] || (Enabled(s, steps[0]) && IsRun(Next(s, steps[0]), steps[1..]))
  }

  ghost function After(s: State, steps: seq<Step>): State
    requires IsRun(s, steps)
    decreases |steps|
  {
    if steps == [] then s else After(Next(s, steps[0]), steps[1..])
  }

  /** Whoever inserts a counter row that is there by then has lost, and can do nothing but roll back. */
  lemma LostRaceOnlyRollsBack(s: State, t: TxnId, step: Step)
    requires Enabled(s, InsertRow(t)) && s.txns[t].stage.key in s.counters
    ensures var s' := Next(s, InsertRow(t));
      && s'.docs == s.docs && s'.counters == s.counters
      && (!step.Begin? && step.t == t ==> (Enabled(s', step) <==> step.Rollback?))
  {
  }

  // ---------- Gap-free numbers ----------

  function LastNumber(s: State, key: Key): nat {
    if key in s.counters then s.counters[key] else 0
  }

  /** The numbers of one counter among the documents, in their order. */
  function Numbers(docs: seq<Doc>, key: Key): seq<nat> {
    if docs == [] then []
    else
      var front, d := docs[..|docs| - 1], docs[|docs| - 1];
      if d.key == key then Numbers(front, key) + [d.number] else Numbers(front, key)
  }

  function OneTo(n: nat): seq<nat> {
    seq(n, i => i + 1)
  }

  ghost predicate TxnOk(s: State, t: TxnId)
    requires t in s.txns
  {
    var x := s.txns[t];
    && PrefixOk(x.series, x.prefix)
    && (x.stage.Locked? || x.stage.Allocated? || x.stage.Missing? ==> x.stage.key.series == x.series)
    && (x.stage.Locked? ==> x.stage.last == LastNumber(s, x.stage.key))
    && (x.stage.Allocated? ==> x.stage.number == LastNumber(s, x.stage.key) + 1)
  }

  ghost predicate Exclusive(s: State) {
    forall t, u, key ::
      t in s.txns && u in s.txns && Holds(s.txns[t], key) && Holds(s.txns[u], key) ==> t == u
  }

  ghost predicate Inv(s: State) {
    && (forall t :: t in s.txns ==> TxnOk(s, t))
    && Exclusive(s)
    && (forall i :: 0 <= i < |s.docs| ==> PrefixOk(s.docs[i].key.series, s.docs[i].prefix))
    && (forall key :: Numbers(s.docs, key) == OneTo(LastNumber(s, key)))
  }

  lemma CommitKeepsNumbers(s: State, t: TxnId, key: Key)
    requires Inv(s) && Enabled(s, Commit(t))
    ensures var s' := Next(s, Commit(t)); Numbers(s'.docs, key) == OneTo(LastNumber(s', key))
  {
  }

  lemma StepKeepsTxnOk(s: State, step: Step, t: TxnId)
    requires Inv(s) && Enabled(s, step) && t in Next(s, step).txns
    ensures TxnOk(Next(s, step), t)
  {
    if t in s.txns {
      assert TxnOk(s, t);
      if step.Commit? && (s.txns[t].stage.Locked? || s.txns[t].stage.Allocated?) {
        var key := s.txns[step.t].stage.key;
        assert Holds(s.txns[step.t], key);
        assert Holds(s.txns[t], key) ==> t == step.t;
      }
    }
  }

  lemma StepKeepsExclusive(s: State, step: Step)
    requires Inv(s) && Enabled(s, step)
    ensures Exclusive(Next(s, step))
  {
  }

  lemma StepKeepsInv(s: State, step: Step)
    requires Inv(s) && Enabled(s, step)
    ensures Inv(Next(s, step))
  {
    var s' := Next(s, step);
    forall t | t in s'.txns ensures TxnOk(s', t) {
      StepKeepsTxnOk(s, step, t);
    }
    StepKeepsExclusive(s, step);
    if step.Commit? {
      assert TxnOk(s, step.t);
    }
    forall key ensures Numbers(s'.docs, key) == OneTo(LastNumber(s', key)) {
      if step.Commit? {
        CommitKeepsNumbers(s, step.t, key);
      }
    }
  }

  lemma {:induction false} RunKeepsInv(s: State, steps: seq<Step>)
    requires Inv(s) && IsRun(s, steps)
    ensures Inv(After(s, steps))
    decreases |steps|
  {
    if steps != [] {
      StepKeepsInv(s, steps[0]);
      RunKeepsInv(Next(s, steps[0]), steps[1..]);
    }
  }

  /** Whatever the interleaving, rollbacks and lost races, each counter's committed numbers are 1 to last_number in commit order. */
  lemma NumbersAreGapFree(steps: seq<Step>, key: Key)
    requires IsRun(EMPTY, steps)
    ensures var s := After(EMPTY, steps); Numbers(s.docs, key) == OneTo(LastNumber(s, key))
  {
    RunKeepsInv(EMPTY, steps);
  }

  // ---------- No two printed numbers are equal ----------

  function Printed(d: Doc): string {
    Print(d.prefix, d.key.start, d.number)
  }

  lemma {:induction false} NumberHasPosition(docs: seq<Doc>, i: nat) returns (p: nat)
    requires i < |docs|
    ensures p < |Numbers(docs, docs[i].key)| && Numbers(docs, docs[i].key)[p] == docs[i].number
    ensures p == |Numbers(docs[..i], docs[i].key)|
    decreases |docs|
  {
    var front := docs[..|docs| - 1];
    if i == |docs| - 1 {
      p := |Numbers(front, docs[i].key)|;
    } else {
      p := NumberHasPosition(front, i);
      assert front[..i] == docs[..i];
    }
  }

  lemma {:induction false} NumbersGrow(docs: seq<Doc>, i: nat, key: Key)
    requires i <= |docs|
    ensures |Numbers(docs[..i], key)| <= |Numbers(docs, key)|
    decreases |docs|
  {
    if i < |docs| {
      NumbersGrow(docs[..|docs| - 1], i, key);
      assert docs[..|docs| - 1][..i] == docs[..i];
    } else {
      assert docs[..i] == docs;
    }
  }

  lemma DistinctInOneCounter(s: State, i: nat, j: nat)
    requires Inv(s) && i < j < |s.docs| && s.docs[i].key == s.docs[j].key
    ensures s.docs[i].number < s.docs[j].number
  {
    var key := s.docs[i].key;
    var p := NumberHasPosition(s.docs, i);
    var q := NumberHasPosition(s.docs, j);
    assert Numbers(s.docs, key) == OneTo(LastNumber(s, key));
    var upToI := s.docs[..i + 1];
    assert upToI[..i] == s.docs[..i];
    assert |Numbers(upToI, key)| == p + 1;
    NumbersGrow(s.docs[..j], i + 1, key);
    assert s.docs[..j][..i + 1] == upToI;
  }

  /** No two documents of a series print the same number; across the series two do exactly when an invoice has prefix CN and the year and counter agree. */
  lemma PrintedNumbersCollide(steps: seq<Step>, i: nat, j: nat)
    requires IsRun(EMPTY, steps)
    requires i < j < |After(EMPTY, steps).docs|
    ensures var docs := After(EMPTY, steps).docs;
      Printed(docs[i]) == Printed(docs[j]) <==>
        && docs[i].key.series != docs[j].key.series
        && docs[i].prefix == docs[j].prefix == "CN"
        && docs[i].key.start == docs[j].key.start && docs[i].number == docs[j].number
  {
    RunKeepsInv(EMPTY, steps);
    var s := After(EMPTY, steps);
    var a, b := s.docs[i], s.docs[j];
    PrintIsInjective(a.prefix, a.key.start, a.number, b.prefix, b.key.start, b.number);
    if a.key == b.key {
      DistinctInOneCounter(s, i, j);
    }
  }

  // ---------- One document per reference ----------

  /** Some open transaction is already past the check for the same reference. */
  ghost predicate Overlaps(s: State, step: Step) {
    step.Begin? && step.ref.Some? &&
    exists t :: t in s.txns && s.txns[t].series == step.series && s.txns[t].ref == step.ref
  }

  /** A run in which calls for one reference never overlap. */
  ghost predicate IsOrderlyRun(s: State, steps: seq<Step>)
    decreases |steps|
  {
    steps == [] || (Enabled(s, steps[0]) && !Overlaps(s, steps[0]) && IsOrderlyRun(Next(s, steps[0]), steps[1..]))
  }

  predicate SameRef(a: Doc, b: Doc) {
    a.ref.Some? && a.ref == b.ref && a.key.series == b.key.series
  }

  ghost predicate OnePerRef(docs: seq<Doc>) {
    forall i, j :: 0 <= i < j < |docs| ==> !SameRef(docs[i], docs[j])
  }

  predicate SameCall(x: Txn, y: Txn) {
    x.ref.Some? && x.ref == y.ref && x.series == y.series
  }

  /** An open transaction is alone with its reference, and no document has it yet. */
  ghost predicate OrderlyInv(s: State) {
    && OnePerRef(s.docs)
    && (forall t :: t in s.txns ==> !Exists(s, s.txns[t].series, s.txns[t].ref))
    && (forall t, u :: t in s.txns && u in s.txns && SameCall(s.txns[t], s.txns[u]) ==> t == u)
  }

  lemma OrderlyStep(s: State, step: Step)
    requires Inv(s) && OrderlyInv(s) && Enabled(s, step) && !Overlaps(s, step)
    ensures OrderlyInv(Next(s, step))
  {
  }

  lemma {:induction false} OrderlyRunKeeps(s: State, steps: seq<Step>)
    requires Inv(s) && OrderlyInv(s) && IsOrderlyRun(s, steps)
    ensures IsRun(s, steps) && OnePerRef(After(s, steps).docs)
    decreases |steps|
  {
    if steps != [] {
      StepKeepsInv(s, steps[0]);
      OrderlyStep(s, steps[0]);
      OrderlyRunKeeps(Next(s, steps[0]), steps[1..]);
    }
  }

  /** Calls for one reference that never overlap make at most one document for it. */
  lemma OrderlyRunsMakeOnePerRef(steps: seq<Step>)
    requires IsOrderlyRun(EMPTY, steps)
    ensures IsRun(EMPTY, steps) && OnePerRef(After(EMPTY, steps).docs)
  {
    OrderlyRunKeeps(EMPTY, steps);
  }

  /** Nothing is checked at the commit: it makes a second document for its reference exactly when one was committed since the check. */
  lemma CommitDuplicatesIff(s: State, t: TxnId)
    requires Inv(s) && OnePerRef(s.docs) && Enabled(s, Commit(t))
    ensures OnePerRef(Next(s, Commit(t)).docs) <==> !Exists(s, s.txns[t].series, s.txns[t].ref)
  {
    var docs, n := Next(s, Commit(t)).docs, |s.docs|;
    var x := s.txns[t];
    assert TxnOk(s, t);
    assert forall i :: 0 <= i < n ==> docs[i] == s.docs[i];
    if Exists(s, x.series, x.ref) {
      var i :| 0 <= i < n && s.docs[i].key.series == x.series && s.docs[i].ref == x.ref;
      assert SameRef(docs[i], docs[n]);
    } else {
      forall i, j | 0 <= i < j < |docs| ensures !SameRef(docs[i], docs[j]) {
        if j == n {
          assert docs[n].ref == x.ref && docs[i] == s.docs[i];
        }
      }
    }
  }

  /** Each commit of the run finds no document for its reference. */
  ghost predicate CommitsAreFirst(s: State, steps: seq<Step>)
    requires IsRun(s, steps)
    decreases |steps|
  {
    steps == [] ||
    ((steps[0].Commit? ==> !Exists(s, s.txns[steps[0].t].series, s.txns[steps[0].t].ref))
     && CommitsAreFirst(Next(s, steps[0]), steps[1..]))
  }

  /** Documents are never taken back. */
  lemma {:induction false} DuplicatesStay(s: State, steps: seq<Step>)
    requires IsRun(s, steps) && !OnePerRef(s.docs)
    ensures !OnePerRef(After(s, steps).docs)
    decreases |steps|
  {
    if steps != [] {
      var s' := Next(s, steps[0]);
      var i, j :| 0 <= i < j < |s.docs| && SameRef(s.docs[i], s.docs[j]);
      assert s'.docs[i] == s.docs[i] && s'.docs[j] == s.docs[j];
      DuplicatesStay(s', steps[1..]);
    }
  }

  /** Any run from a state with one document a reference ends in one exactly when each of its commits was the first for its reference. */
  lemma {:induction false} RunKeepsOnePerRefIff(s: State, steps: seq<Step>)
    requires Inv(s) && OnePerRef(s.docs) && IsRun(s, steps)
    ensures OnePerRef(After(s, steps).docs) <==> CommitsAreFirst(s, steps)
    decreases |steps|
  {
    if steps != [] {
      var s' := Next(s, steps[0]);
      StepKeepsInv(s, steps[0]);
      if steps[0].Commit? {
        CommitDuplicatesIff(s, steps[0].t);
      }
      if OnePerRef(s'.docs) {
        RunKeepsOnePerRefIff(s', steps[1..]);
      } else {
        DuplicatesStay(s', steps[1..]);
      }
    }
  }

  // ---------- Runs to the commit ----------

  /** The counter an open transaction works on: the one it looked up, or the one of `start` if it has looked up none. */
  function KeyOf(x: Txn, start: nat): Key {
    match x.stage
    case Missing(key) => key
    case Locked(key, _) => key
    case Allocated(key, _) => key
    case _ => Key(start, x.series)
  }

  /** A transaction that can reach its commit with no step of another one. */
  ghost predicate Live(s: State, t: TxnId, start: nat) {
    t in s.txns &&
    match s.txns[t].stage
    case Idle => Free(s, Key(start, s.txns[t].series))
    case Missing(key) => key !in s.counters && Free(s, key)
    case Failed => false
    case _ => true
  }

  /** The steps that take it there. */
  function Finish(s: State, t: TxnId, start: nat): seq<Step>
    requires t in s.txns
  {
    var last := [Increment(t)] + [Commit(t)];
    match s.txns[t].stage
    case Idle => [Lookup(t, start)] + if Key(start, s.txns[t].series) in s.counters then last else [InsertRow(t)] + last
    case Missing(_) => [InsertRow(t)] + last
    case Locked(_, _) => last
    case _ => [Commit(t)]
  }

  /** One more document with the next number of its counter. */
  function Finished(s: State, t: TxnId, start: nat): State
    requires t in s.txns
  {
    var x := s.txns[t];
    var n := LastNumber(s, KeyOf(x, start)) + 1;
    State(s.counters[KeyOf(x, start) := n], s.docs + [Doc(KeyOf(x, start), x.ref, x.prefix, n)], s.txns - {t})
  }

  lemma FirstStep(s: State, step: Step, rest: seq<Step>)
    requires Enabled(s, step) && IsRun(Next(s, step), rest)
    ensures IsRun(s, [step] + rest) && After(s, [step] + rest) == After(Next(s, step), rest)
  {
  }

  lemma CommitFinishes(s: State, t: TxnId, start: nat)
    requires t in s.txns && s.txns[t].stage.Allocated? && TxnOk(s, t)
    ensures IsRun(s, [Commit(t)]) && After(s, [Commit(t)]) == Finished(s, t, start)
  {
  }

  lemma LockedFinishes(s: State, t: TxnId, start: nat)
    requires t in s.txns && s.txns[t].stage.Locked? && TxnOk(s, t)
    ensures IsRun(s, [Increment(t)] + [Commit(t)]) && After(s, [Increment(t)] + [Commit(t)]) == Finished(s, t, start)
  {
    var s1 := Next(s, Increment(t));
    CommitFinishes(s1, t, start);
    assert s1.txns - {t} == s.txns - {t};
    FirstStep(s, Increment(t), [Commit(t)]);
  }

  lemma MissingFinishes(s: State, t: TxnId, start: nat)
    requires Live(s, t, start) && s.txns[t].stage.Missing? && TxnOk(s, t)
    ensures var steps := [InsertRow(t)] + ([Increment(t)] + [Commit(t)]);
      IsRun(s, steps) && After(s, steps) == Finished(s, t, start)
  {
    var s1 := Next(s, InsertRow(t));
    LockedFinishes(s1, t, start);
    assert s1.txns - {t} == s.txns - {t};
    FirstStep(s, InsertRow(t), [Increment(t)] + [Commit(t)]);
  }

  lemma FinishCommits(s: State, t: TxnId, start: nat)
    requires Live(s, t, start) && TxnOk(s, t)
    ensures IsRun(s, Finish(s, t, start)) && After(s, Finish(s, t, start)) == Finished(s, t, start)
    ensures var x, s', n := s.txns[t], After(s, Finish(s, t, start)), |s.docs|;
      && |s'.docs| == n + 1 && s'.docs[..n] == s.docs && s'.txns == s.txns - {t}
      && var d := s'.docs[n];
         && d.ref == x.ref && d.prefix == x.prefix && d.key.series == x.series && (x.stage == Idle ==> d.key.start == start)
         && d.number == (if d.key in s.counters then s.counters[d.key] + 1 else 1)
         && s'.counters == s.counters[d.key := d.number]
  {
    match s.txns[t].stage
    case Allocated(_, _) => CommitFinishes(s, t, start);
    case Locked(_, _) => LockedFinishes(s, t, start);
    case Missing(_) => MissingFinishes(s, t, start);
    case Idle =>
      var s1 := Next(s, Lookup(t, start));
      assert s1.txns - {t} == s.txns - {t};
      if Key(start, s.txns[t].series) in s.counters {
        LockedFinishes(s1, t, start);
        FirstStep(s, Lookup(t, start), [Increment(t)] + [Commit(t)]);
      } else {
        MissingFinishes(s1, t, start);
        FirstStep(s, Lookup(t, start), [InsertRow(t)] + ([Increment(t)] + [Commit(t)]));
      }
  }

  lemma {:induction false} RunsCompose(s: State, a: seq<Step>, b: seq<Step>)
    requires IsRun(s, a) && IsRun(After(s, a), b)
    ensures IsRun(s, a + b) && After(s, a + b) == After(After(s, a), b)
    decreases |a|
  {
    if a == [] {
      assert a + b == b;
    } else {
      assert (a + b)[0] == a[0] && (a + b)[1..] == a[1..] + b;
      RunsCompose(Next(s, a[0]), a[1..], b);
    }
  }

  /** Two open calls for one reference both commit if one can and the other can after it: the second document is then made. */
  lemma OverlapCanDuplicate(s: State, t: TxnId, u: TxnId, start: nat, start2: nat) returns (steps: seq<Step>)
    requires Inv(s) && t != u && Live(s, t, start) && Live(Finished(s, t, start), u, start2)
    requires SameCall(s.txns[t], s.txns[u])
    ensures IsRun(s, steps) && !OnePerRef(After(s, steps).docs)
  {
    assert TxnOk(s, t);
    FinishCommits(s, t, start);
    var s1 := Finished(s, t, start);
    RunKeepsInv(s, Finish(s, t, start));
    assert TxnOk(s1, u) && TxnOk(s, u);
    FinishCommits(s1, u, start2);
    RunsCompose(s, Finish(s, t, start), Finish(s1, u, start2));
    steps := Finish(s, t, start) + Finish(s1, u, start2);
    var s2, n := Finished(s1, u, start2), |s.docs|;
    assert SameRef(s2.docs[n], s2.docs[n + 1]);
  }

  lemma EmptyInv()
    ensures Inv(EMPTY)
  {
  }

  /** From nothing: two calls for one reference begin before either commits, and both make their document. */
  lemma TwoCallsDuplicate(series: Series, ref: nat, prefix: string, start: nat) returns (steps: seq<Step>)
    requires PrefixOk(series, prefix)
    ensures IsRun(EMPTY, steps) && !OnePerRef(After(EMPTY, steps).docs)
  {
    var a, b := Begin(0, series, Some(ref), prefix), Begin(1, series, Some(ref), prefix);
    EmptyInv();
    StepKeepsInv(EMPTY, a);
    var s1 := Next(EMPTY, a);
    StepKeepsInv(s1, b);
    var s2 := Next(s1, b);
    var rest := OverlapCanDuplicate(s2, 0, 1, start, start);
    FirstStep(s1, b, rest);
    FirstStep(EMPTY, a, [b] + rest);
    steps := [a] + ([b] + rest);
  }

  /** From nothing: a tenant with prefix CN, one invoice and one credit note, and the two print the same number. */
  lemma CreditNotePrefixCollides(invoiceRef: Option<nat>, noteRef: Option<nat>, start: nat) returns (steps: seq<Step>)
    ensures IsRun(EMPTY, steps)
    ensures var docs := After(EMPTY, steps).docs;
      && |docs| == 2 && docs[0].key.series != docs[1].key.series
      && Printed(docs[0]) == Printed(docs[1])
  {
    var a, b := Begin(0, InvoiceSeries, invoiceRef, "CN"), Begin(1, CreditNoteSeries, noteRef, "CN");
    var s1 := Next(EMPTY, a);
    FinishCommits(s1, 0, start);
    var s2 := Finished(s1, 0, start);
    var s3 := Next(s2, b);
    FinishCommits(s3, 1, start);
    FirstStep(s2, b, Finish(s3, 1, start));
    RunsCompose(s1, Finish(s1, 0, start), [b] + Finish(s3, 1, start));
    FirstStep(EMPTY, a, Finish(s1, 0, start) + ([b] + Finish(s3, 1, start)));
    steps := [a] + (Finish(s1, 0, start) + ([b] + Finish(s3, 1, start)));
  }
}
