/**
 The single-flight token refresh of the two axios clients.

 The front-end is modelled as a machine over atomic steps: the continuation of one awaited
 call runs to its next await, and the requests themselves live on the network. `Next` is what
 one step does to the whole state; class `ApiClient` does the same step by step, in the shape
 of the interceptor, and its methods are proved equal to `Next`.

 Tokens are numbered in the order they are issued, so token k is the one of the k-th refresh
 that succeeded; 0 is the token a request was first sent with.
 */
module TokenRefresh {
  import opened Options

  type Id = nat

  datatype Outcome = Success | Unauthorized | OtherError

  /** InFlight: on the network.  Queued: waiting in failedQueue.  Leading: its handler awaits the refresh call. */
  datatype Phase = InFlight | Queued | Leading | Settled(resolved: bool)

  /** `exempt` says the url is the login or the refresh url; `sends` and `settlements` count what happened so far. */
  datatype Request = Request(phase: Phase, retry: bool, exempt: bool, token: nat, sends: nat, settlements: nat)

  /**
   `refreshing` holds the requests whose handler has a refresh call outstanding.  The platform client
   also keeps the token in local storage (`keepsToken`); the tenant client does not.
   */
  datatype State = State(
    requests: map<Id, Request>,
    isRefreshing: bool,
    failedQueue: seq<Id>,
    refreshing: set<Id>,
    tokens: nat,
    keepsToken: bool,
    storage: Option<nat>)

  datatype Step = Respond(id: Id, outcome: Outcome) | RefreshOk(leader: Id) | RefreshFailed(leader: Id)

  function Settle(r: Request, resolved: bool): Request {
    r.(phase := Settled(resolved), settlements := r.settlements + 1)
  }

  function Resend(r: Request, token: nat): Request {
    r.(phase := InFlight, token := token, sends := r.sends + 1)
  }

  predicate Enabled(s: State, step: Step) {
    match step
    case Respond(id, _) => id in s.requests && s.requests[id].phase == InFlight
    case RefreshOk(l) => l in s.refreshing
    case RefreshFailed(l) => l in s.refreshing
  }

  predicate WantsRefresh(r: Request, outcome: Outcome) {
    outcome == Unauthorized && !r.retry && !r.exempt
  }

  /** What processQueue and the leader's own continuation do to each request. */
  function ReleaseAll(requests: map<Id, Request>, released: set<Id>, token: Option<nat>): map<Id, Request> {
    map id | id in requests ::
      if id !in released then requests[id]
      else if token.Some? then Resend(requests[id], token.value)
      else Settle(requests[id], false)
  }

  function Queue(s: State): set<Id> {
    set id | id in s.failedQueue
  }

  function Next(s: State, step: Step): State {
    match step
    case Respond(id, outcome) =>
      if id !in s.requests then s
      else
        var r := s.requests[id];
        if !WantsRefresh(r, outcome) then
          s.(requests := s.requests[id := Settle(r, outcome == Success)])
        else if s.isRefreshing then
          s.(requests := s.requests[id := r.(phase := Queued)], failedQueue := s.failedQueue + [id])
        else
          s.(requests := s.requests[id := r.(phase := Leading, retry := true)],
             isRefreshing := true,
             refreshing := s.refreshing + {id})
    case RefreshOk(l) =>
      s.(requests := ReleaseAll(s.requests, Queue(s) + {l}, Some(s.tokens + 1)),
         isRefreshing := false,
         failedQueue := [],
         refreshing := s.refreshing - {l},
         tokens := s.tokens + 1,
         storage := if s.keepsToken then Some(s.tokens + 1) else s.storage)
    case RefreshFailed(l) =>
      s.(requests := ReleaseAll(s.requests, Queue(s) + {l}, None),
         isRefreshing := false,
         failedQueue := [],
         refreshing := s.refreshing - {l},
         storage := if s.keepsToken then None else s.storage)
  }

  /** Finitely many requests on the network, none of them answered yet. */
  predicate Initial(s: State) {
    && !s.isRefreshing && s.failedQueue == [] && s.refreshing == {} && s.tokens == 0
    && s.storage in {None, Some(0)}
    && forall id :: id in s.requests ==>
         var r := s.requests[id];
         r.phase == InFlight && !r.retry && r.token == 0 && r.sends == 1 && r.settlements == 0
  }

  // ---------- What every step keeps ----------

  predicate RequestOk(s: State, id: Id)
    requires id in s.requests
  {
    var r := s.requests[id];
    && (r.phase == Leading <==> id in s.refreshing)
    && (r.phase == Queued <==> id in s.failedQueue)
    && (r.phase == Leading ==> r.retry && !r.exempt)
    && (r.phase == Queued ==> !r.retry && !r.exempt)
    && r.settlements == (if r.phase.Settled? then 1 else 0)
    && r.token <= s.tokens
    && r.sends <= r.token + 1
  }

  ghost predicate Inv(s: State) {
    && (s.isRefreshing <==> s.refreshing != {})
    && (forall a, b :: a in s.refreshing && b in s.refreshing ==> a == b)
    && (forall i, j :: 0 <= i < j < |s.failedQueue| ==> s.failedQueue[i] != s.failedQueue[j])
    && (forall id :: id in s.failedQueue ==> id in s.requests)
    && s.refreshing <= s.requests.Keys
    && (s.failedQueue != [] ==> s.isRefreshing)
    && (s.keepsToken && s.storage.Some? ==> s.storage.value == s.tokens)
    && (forall id :: id in s.requests ==> RequestOk(s, id))
  }

  lemma StepKeepsInv(s: State, step: Step)
    requires Inv(s) && Enabled(s, step)
    ensures Inv(Next(s, step))
  {
    var t := Next(s, step);
    if step.Respond? {
      assert RequestOk(s, step.id);
    }
    forall id | id in t.requests ensures RequestOk(t, id) {
      assert RequestOk(s, id);
    }
    forall id | id in t.failedQueue ensures id in t.requests {
      assert id in s.failedQueue || id == step.id;
    }
  }

  /** A waiter is always waiting for exactly one outstanding refresh. */
  lemma WaitersHaveOneRefresh(s: State)
    requires Inv(s) && s.failedQueue != []
    ensures s.isRefreshing
    ensures exists l :: s.refreshing == {l} && s.requests[l].phase == Leading
  {
  }

  /**
   A refresh that succeeds issues the next token, stores it where the client keeps tokens, and puts the
   leader and every waiter back on the network with it; nothing else changes.
   */
  lemma RefreshOkResendsAll(s: State, l: Id)
    requires Inv(s) && l in s.refreshing
    ensures var t := Next(s, RefreshOk(l));
      && !t.isRefreshing && t.failedQueue == [] && t.refreshing == {}
      && t.tokens == s.tokens + 1 && t.keepsToken == s.keepsToken
      && t.storage == (if s.keepsToken then Some(s.tokens + 1) else s.storage)
      && t.requests.Keys == s.requests.Keys
      && forall id :: id in s.requests ==>
           (t.requests[id] ==
             if id == l || id in s.failedQueue
             then s.requests[id].(phase := InFlight, token := s.tokens + 1, sends := s.requests[id].sends + 1)
             else s.requests[id])
  {
  }

  /** A refresh that fails clears the kept token and rejects the leader and every waiter; nothing else changes. */
  lemma RefreshFailedRejectsAll(s: State, l: Id)
    requires Inv(s) && l in s.refreshing
    ensures var t := Next(s, RefreshFailed(l));
      && !t.isRefreshing && t.failedQueue == [] && t.refreshing == {}
      && t.tokens == s.tokens && t.keepsToken == s.keepsToken
      && t.storage == (if s.keepsToken then None else s.storage)
      && t.requests.Keys == s.requests.Keys
      && forall id :: id in s.requests ==>
           (t.requests[id] ==
             if id == l || id in s.failedQueue
             then s.requests[id].(phase := Settled(false), settlements := 1)
             else s.requests[id])
  {
    assert forall id :: id in s.requests ==> RequestOk(s, id);
  }

  /** A 401 to a request that may still refresh leads a refresh if none is out and waits for it otherwise; any other answer settles its request. */
  lemma ResponseSettlesQueuesOrLeads(s: State, id: Id, outcome: Outcome)
    requires Inv(s) && Enabled(s, Respond(id, outcome))
    ensures var t, r := Next(s, Respond(id, outcome)), s.requests[id];
      && (forall x :: x in s.requests && x != id ==> x in t.requests && t.requests[x] == s.requests[x])
      && t.tokens == s.tokens && t.storage == s.storage && t.requests.Keys == s.requests.Keys
      && if outcome != Unauthorized || r.retry || r.exempt then
           && t.requests[id] == r.(phase := Settled(outcome == Success), settlements := 1)
           && t.isRefreshing == s.isRefreshing && t.failedQueue == s.failedQueue && t.refreshing == s.refreshing
         else if s.isRefreshing then
           && t.requests[id] == r.(phase := Queued)
           && t.isRefreshing && t.failedQueue == s.failedQueue + [id] && t.refreshing == s.refreshing
         else
           && t.requests[id] == r.(phase := Leading, retry := true)
           && t.isRefreshing && t.failedQueue == [] && t.refreshing == {id}
  {
    assert RequestOk(s, id);
  }

  // ---------- Progress and termination ----------

  predicate AllSettled(s: State) {
    forall id :: id in s.requests ==> s.requests[id].phase.Settled?
  }

  /** Some step is enabled exactly while some request is unsettled. */
  lemma EnabledIffUnsettled(s: State)
    requires Inv(s)
    ensures (exists step :: Enabled(s, step)) <==> !AllSettled(s)
  {
    if step :| Enabled(s, step) {
      var id := if step.Respond? then step.id else step.leader;
      assert RequestOk(s, id);
      assert !s.requests[id].phase.Settled?;
    }
    if !AllSettled(s) {
      var id :| id in s.requests && !s.requests[id].phase.Settled?;
      assert RequestOk(s, id);
      if s.requests[id].phase == InFlight {
        assert Enabled(s, Respond(id, Success));
      } else {
        var l :| l in s.refreshing;
        assert Enabled(s, RefreshOk(l));
      }
    }
  }

  function Unretried(s: State): set<Id> {
    set id | id in s.requests && !s.requests[id].retry
  }

  function Flying(s: State): set<Id> {
    set id | id in s.requests && s.requests[id].phase == InFlight
  }

  function RefreshBit(s: State): nat {
    if s.isRefreshing then 1 else 0
  }

  /** One refresh call goes out when the flag rises. */
  function Started(s: State, t: State): nat {
    if !s.isRefreshing && t.isRefreshing then 1 else 0
  }

  /** Requests that may still start a refresh, weighed above requests that may still be answered. */
  function Work(s: State): nat {
    Weighted(2 * |Unretried(s)| + RefreshBit(s), |s.requests| + 1, |Flying(s)|)
  }

  function Weighted(a: nat, n: nat, f: nat): nat {
    a * n + f
  }

  lemma SubsetCard<T>(a: set<T>, b: set<T>)
    requires a <= b
    ensures |a| <= |b|
  {
    if a != b {
      assert b == a + (b - a);
      assert |b| == |a| + |b - a|;
    }
  }

  /** The lexicographic descent of a step: unretried requests, then the refresh, then requests in flight. */
  ghost predicate Descends(s: State, t: State) {
    && t.requests.Keys == s.requests.Keys
    && |Unretried(t)| <= |Unretried(s)| && |Flying(t)| <= |t.requests|
    && ( || (|Unretried(t)| == |Unretried(s)| - 1 && !s.isRefreshing && t.isRefreshing)
         || (|Unretried(t)| == |Unretried(s)| && s.isRefreshing && !t.isRefreshing)
         || (|Unretried(t)| == |Unretried(s)| && s.isRefreshing == t.isRefreshing && |Flying(t)| == |Flying(s)| - 1))
    && t.tokens + RefreshBit(t) <= s.tokens + RefreshBit(s) + Started(s, t)
  }

  lemma RespondSets(s: State, id: Id, outcome: Outcome)
    requires Enabled(s, Respond(id, outcome))
    ensures var t := Next(s, Respond(id, outcome));
      && t.requests.Keys == s.requests.Keys
      && Flying(t) == Flying(s) - {id}
      && Unretried(t) == if Started(s, t) == 1 then Unretried(s) - {id} else Unretried(s)
    ensures id in Flying(s)
    ensures Started(s, Next(s, Respond(id, outcome))) == 1 ==> id in Unretried(s)
  {
  }

  lemma RespondDescends(s: State, id: Id, outcome: Outcome)
    requires Enabled(s, Respond(id, outcome))
    ensures Descends(s, Next(s, Respond(id, outcome)))
  {
    var t := Next(s, Respond(id, outcome));
    assert s.isRefreshing ==> t.isRefreshing;
    assert s.tokens == t.tokens;
    hide Next;
    hide Enabled;
    RespondSets(s, id, outcome);
    SubsetCard(Flying(t), t.requests.Keys);
    assert |Unretried(s) - {id}| == |Unretried(s)| - if id in Unretried(s) then 1 else 0;
  }

  lemma StepDescends(s: State, step: Step)
    requires Inv(s) && Enabled(s, step)
    ensures Descends(s, Next(s, step))
  {
    if step.Respond? {
      RespondDescends(s, step.id, step.outcome);
    } else {
      var t := Next(s, step);
      SubsetCard(Flying(t), t.requests.Keys);
      assert Unretried(t) == Unretried(s);
    }
  }

  lemma DescentReducesWork(s: State, t: State)
    requires Descends(s, t)
    ensures Work(t) < Work(s)
  {
    hide Weighted;
    assert |t.requests.Keys| == |t.requests| && |s.requests.Keys| == |s.requests|;
    var u, v := |Unretried(s)|, |Unretried(t)|;
    WeightedDescent(2 * u + RefreshBit(s), 2 * v + RefreshBit(t), |s.requests| + 1, |Flying(s)|, |Flying(t)|);
  }

  lemma WeightedDescent(a: nat, b: nat, n: nat, f: nat, g: nat)
    requires g < n
    requires b < a || (b == a && g < f)
    ensures Weighted(b, n, g) < Weighted(a, n, f)
  {
    if b < a {
      assert b * n <= (a - 1) * n == a * n - n;
    }
  }

  // ---------- Whole runs ----------

  ghost predicate IsRun(s: State, steps: seq<Step>)
    decreases |steps|
  {
    steps == [] || (Enabled(s, steps[0]) && IsRun(Next(s, steps[0]), steps[1..]))
  }

  function After(s: State, steps: seq<Step>): State
    decreases |steps|
  {
    if steps == [] then s else After(Next(s, steps[0]), steps[1..])
  }

  /** How many of the steps send a refresh call. */
  function RefreshCalls(s: State, steps: seq<Step>): nat
    decreases |steps|
  {
    if steps == [] then 0
    else
      var t := Next(s, steps[0]);
      Started(s, t) + RefreshCalls(t, steps[1..])
  }

  lemma {:induction false} RunKeepsInv(s: State, steps: seq<Step>)
    requires Inv(s) && IsRun(s, steps)
    ensures Inv(After(s, steps)) && After(s, steps).requests.Keys == s.requests.Keys
    ensures RefreshCalls(s, steps) <= |Unretried(s)| - |Unretried(After(s, steps))|
    ensures After(s, steps).tokens + RefreshBit(After(s, steps)) <= s.tokens + RefreshBit(s) + RefreshCalls(s, steps)
    ensures |steps| <= Work(s) - Work(After(s, steps))
    decreases |steps|
  {
    hide Next;
    hide Inv;
    hide Enabled;
    hide Work;
    if steps != [] {
      StepKeepsInv(s, steps[0]);
      StepDescends(s, steps[0]);
      DescentReducesWork(s, Next(s, steps[0]));
      RunKeepsInv(Next(s, steps[0]), steps[1..]);
    }
  }

  lemma InitialInv(s: State)
    requires Initial(s)
    ensures Inv(s) && Unretried(s) == s.requests.Keys && Flying(s) == s.requests.Keys
  {
  }

  /**
   For n requests, however the server answers: at most n refresh calls, each request is sent at
   most n + 1 times, and every run has at most 2n(n + 1) + n steps.
   */
  lemma RunsAreBounded(s: State, steps: seq<Step>)
    requires Initial(s) && IsRun(s, steps)
    ensures var n := |s.requests|;
      && RefreshCalls(s, steps) <= n
      && |steps| <= 2 * n * (n + 1) + n
      && (forall id :: id in After(s, steps).requests ==> After(s, steps).requests[id].sends <= n + 1)
  {
    InitialInv(s);
    RunKeepsInv(s, steps);
    assert |s.requests.Keys| == |s.requests|;
    assert Work(s) == 2 * |s.requests| * (|s.requests| + 1) + |s.requests|;
    var t := After(s, steps);
    forall id | id in t.requests ensures t.requests[id].sends <= |s.requests| + 1 {
      assert RequestOk(t, id);
    }
  }

  /** A new request goes out with the current token. */
  function Arrive(s: State, id: Id, exempt: bool): State {
    s.(requests := s.requests[id := Request(InFlight, false, exempt, s.tokens, 1, 0)])
  }

  /** Requests may come in at any moment; runs from there on are bounded by the work then at hand. */
  lemma ArrivalKeepsInv(s: State, id: Id, exempt: bool, steps: seq<Step>)
    requires Inv(s) && id !in s.requests && IsRun(Arrive(s, id, exempt), steps)
    ensures Inv(Arrive(s, id, exempt)) && |steps| <= Work(Arrive(s, id, exempt))
  {
    var t := Arrive(s, id, exempt);
    forall x | x in t.requests ensures RequestOk(t, x) {
      assert x != id ==> RequestOk(s, x);
    }
    RunKeepsInv(t, steps);
  }

  /** A run that cannot go on has settled every request, each exactly once, and left no waiter. */
  lemma StuckMeansDone(s: State, steps: seq<Step>)
    requires Inv(s) && IsRun(s, steps)
    requires forall step :: !Enabled(After(s, steps), step)
    ensures var t := After(s, steps);
      && t.requests.Keys == s.requests.Keys
      && t.failedQueue == [] && t.refreshing == {} && !t.isRefreshing
      && forall id :: id in t.requests ==> t.requests[id].phase.Settled? && t.requests[id].settlements == 1
  {
    RunKeepsInv(s, steps);
    var t := After(s, steps);
    EnabledIffUnsettled(t);
    forall id | id in t.requests ensures t.requests[id].phase.Settled? && t.requests[id].settlements == 1 {
      assert RequestOk(t, id);
    }
    if l :| l in t.refreshing {
      assert Enabled(t, RefreshOk(l));
    }
  }

  /** A settled request is never touched again. */
  lemma {:induction false} SettledStays(s: State, steps: seq<Step>, id: Id)
    requires Inv(s) && IsRun(s, steps)
    requires id in s.requests && s.requests[id].phase.Settled?
    ensures id in After(s, steps).requests && After(s, steps).requests[id] == s.requests[id]
    decreases |steps|
  {
    if steps != [] {
      StepKeepsInv(s, steps[0]);
      assert RequestOk(s, id);
      SettledStays(Next(s, steps[0]), steps[1..], id);
    }
  }

  /** A request ends up resolved exactly when some answer to it was a success. */
  lemma {:induction false} ResolvedIffAnswered(s: State, steps: seq<Step>, id: Id)
    requires Inv(s) && IsRun(s, steps)
    requires id in s.requests && !s.requests[id].phase.Settled?
    ensures id in After(s, steps).requests
    ensures After(s, steps).requests[id].phase == Settled(true) <==> Respond(id, Success) in steps
    decreases |steps|
  {
    if steps != [] {
      var t, rest := Next(s, steps[0]), steps[1..];
      StepKeepsInv(s, steps[0]);
      assert RequestOk(s, id);
      assert steps == [steps[0]] + rest;
      if t.requests[id].phase.Settled? {
        SettledStays(t, rest, id);
        SettledNotAnswered(t, rest, id);
      } else {
        ResolvedIffAnswered(t, rest, id);
      }
    }
  }

  lemma {:induction false} SettledNotAnswered(s: State, steps: seq<Step>, id: Id)
    requires Inv(s) && IsRun(s, steps)
    requires id in s.requests && s.requests[id].phase.Settled?
    ensures Respond(id, Success) !in steps
    decreases |steps|
  {
    if steps != [] {
      StepKeepsInv(s, steps[0]);
      SettledStays(s, [steps[0]], id);
      assert IsRun(s, [steps[0]]) && [steps[0]][1..] == [];
      assert steps == [steps[0]] + steps[1..];
      SettledNotAnswered(Next(s, steps[0]), steps[1..], id);
    }
  }

  /** Refreshes succeed, and the server turns down nothing but the token requests were first sent with. */
  predicate KindStep(s: State, step: Step) {
    match step
    case Respond(id, outcome) =>
      || outcome == Success
      || (outcome == Unauthorized && id in s.requests && s.requests[id].token == 0 && !s.requests[id].exempt)
    case RefreshOk(_) => true
    case RefreshFailed(_) => false
  }

  ghost predicate IsKindRun(s: State, steps: seq<Step>)
    decreases |steps|
  {
    steps == [] || (Enabled(s, steps[0]) && KindStep(s, steps[0]) && IsKindRun(Next(s, steps[0]), steps[1..]))
  }

  /** Nothing has been rejected, and a request in flight that has used its retry carries a refreshed token. */
  ghost predicate NoneRejected(s: State) {
    forall id :: id in s.requests ==>
      var r := s.requests[id];
      r.phase != Settled(false) && (r.phase == InFlight && r.retry ==> r.token > 0)
  }

  lemma {:induction false} KindRunRejectsNone(s: State, steps: seq<Step>)
    requires Inv(s) && NoneRejected(s) && IsKindRun(s, steps)
    ensures IsRun(s, steps) && NoneRejected(After(s, steps))
    decreases |steps|
  {
    if steps != [] {
      StepKeepsInv(s, steps[0]);
      KindRunRejectsNone(Next(s, steps[0]), steps[1..]);
    }
  }

  /** Under a kind server a run that cannot go on has resolved every request: refreshing loses none of them. */
  lemma KindServerResolvesAll(s: State, steps: seq<Step>)
    requires Initial(s) && IsKindRun(s, steps)
    requires forall step :: !Enabled(After(s, steps), step)
    ensures After(s, steps).requests.Keys == s.requests.Keys
    ensures forall id :: id in After(s, steps).requests ==> After(s, steps).requests[id].phase == Settled(true)
  {
    InitialInv(s);
    KindRunRejectsNone(s, steps);
    StuckMeansDone(s, steps);
  }

  // ---------- One refresh per token ----------

  /** A request whose answer 401 starts a refresh, or waits for one, carrying token k. */
  predicate Eligible(r: Request, k: nat) {
    r.phase == InFlight && !r.retry && !r.exempt && r.token == k
  }

  ghost predicate AnyEligible(s: State, k: nat) {
    exists id :: id in s.requests && Eligible(s.requests[id], k)
  }

  /** A step that starts a refresh led by a request with token k. */
  predicate StartsFor(s: State, step: Step, k: nat) {
    step.Respond? && Started(s, Next(s, step)) == 1 && step.id in s.requests && s.requests[step.id].token == k
  }

  function RefreshesFor(s: State, steps: seq<Step>, k: nat): nat
    decreases |steps|
  {
    if steps == [] then 0
    else (if StartsFor(s, steps[0], k) then 1 else 0) + RefreshesFor(Next(s, steps[0]), steps[1..], k)
  }

  /** The step ends a refresh while an eligible request with the leader's token is still in flight. */
  ghost predicate EndsTooSoon(s: State, step: Step) {
    !step.Respond? && step.leader in s.requests && AnyEligible(s, s.requests[step.leader].token)
  }

  ghost predicate Prompt(s: State, steps: seq<Step>)
    decreases |steps|
  {
    steps == [] || (!EndsTooSoon(s, steps[0]) && Prompt(Next(s, steps[0]), steps[1..]))
  }

  lemma NoneEligibleStep(s: State, step: Step, k: nat)
    requires Inv(s) && Enabled(s, step) && k <= s.tokens && !AnyEligible(s, k)
    ensures !StartsFor(s, step, k) && k <= Next(s, step).tokens && !AnyEligible(Next(s, step), k)
  {
  }

  /** A token that no eligible request carries any more starts no refresh. */
  lemma {:induction false} NoneEligibleNoRefresh(s: State, steps: seq<Step>, k: nat)
    requires Inv(s) && IsRun(s, steps) && k <= s.tokens && !AnyEligible(s, k)
    ensures RefreshesFor(s, steps, k) == 0
    decreases |steps|
  {
    if steps != [] {
      StepKeepsInv(s, steps[0]);
      NoneEligibleStep(s, steps[0], k);
      NoneEligibleNoRefresh(Next(s, steps[0]), steps[1..], k);
    }
  }

  /** A refresh led with token k is outstanding. */
  ghost predicate RefreshingFor(s: State, k: nat) {
    exists l :: l in s.refreshing && l in s.requests && s.requests[l].token == k
  }

  lemma RefreshingForStep(s: State, step: Step, k: nat)
    requires Inv(s) && Enabled(s, step) && RefreshingFor(s, k) && !EndsTooSoon(s, step)
    ensures !StartsFor(s, step, k)
    ensures RefreshingFor(Next(s, step), k) || (k <= Next(s, step).tokens && !AnyEligible(Next(s, step), k))
  {
  }

  lemma StartIsRefreshingFor(s: State, step: Step, k: nat)
    requires Inv(s) && Enabled(s, step) && StartsFor(s, step, k)
    ensures RefreshingFor(Next(s, step), k)
  {
  }

  /**
   If no refresh ends while an eligible request with its leader's token is in flight, each token is
   refreshed at most once, and no more once a refresh for it is outstanding.
   */
  lemma {:induction false} OneRefreshPerToken(s: State, steps: seq<Step>, k: nat)
    requires Inv(s) && IsRun(s, steps) && Prompt(s, steps)
    ensures RefreshesFor(s, steps, k) <= if RefreshingFor(s, k) then 0 else 1
    decreases |steps|
  {
    if steps != [] {
      var t, rest := Next(s, steps[0]), steps[1..];
      StepKeepsInv(s, steps[0]);
      OneRefreshPerToken(t, rest, k);
      if RefreshingFor(s, k) {
        RefreshingForStep(s, steps[0], k);
        if !RefreshingFor(t, k) {
          NoneEligibleNoRefresh(t, rest, k);
        }
      } else if StartsFor(s, steps[0], k) {
        StartIsRefreshingFor(s, steps[0], k);
      }
    }
  }

  lemma StartIsRun(s: State, step: Step, k: nat)
    requires Enabled(s, step) && StartsFor(s, step, k)
    ensures IsRun(s, [step]) && RefreshesFor(s, [step], k) == 1
  {
  }

  /** After a refresh has ended, its leader's token can be refreshed again exactly when an eligible request still carried it then. */
  lemma SecondRefreshIff(s: State, end: Step)
    requires Inv(s) && Enabled(s, end) && !end.Respond?
    ensures end.leader in s.requests
    ensures var t, k := Next(s, end), s.requests[end.leader].token;
      (exists rest :: IsRun(t, rest) && RefreshesFor(t, rest, k) > 0) <==> EndsTooSoon(s, end)
  {
    var t, k := Next(s, end), s.requests[end.leader].token;
    StepKeepsInv(s, end);
    assert RequestOk(s, end.leader);
    if EndsTooSoon(s, end) {
      var id :| id in s.requests && Eligible(s.requests[id], k);
      assert RequestOk(s, id) && t.requests[id] == s.requests[id];
      var again := Respond(id, Unauthorized);
      StartIsRun(t, again, k);
    } else {
      NoneEligibleStep(s, end, k);
      forall rest | IsRun(t, rest) ensures RefreshesFor(t, rest, k) == 0 {
        NoneEligibleNoRefresh(t, rest, k);
      }
    }
  }

  // Two requests sent with the same expired token; the first is answered, refreshed and sent again
  // before the second is answered.
  const UNTRIED := Request(InFlight, false, false, 0, 1, 0)
  const LATE_0 := State(map[0 := UNTRIED, 1 := UNTRIED], false, [], {}, 0, false, None)
  const LATE_1 := LATE_0.(
    requests := map[0 := UNTRIED.(phase := Leading, retry := true), 1 := UNTRIED],
    isRefreshing := true,
    refreshing := {0})
  const LATE_2 := LATE_0.(requests := map[0 := Request(InFlight, true, false, 1, 2, 0), 1 := UNTRIED], tokens := 1)

  lemma LateSteps()
    ensures Next(LATE_0, Respond(0, Unauthorized)) == LATE_1
    ensures Next(LATE_1, RefreshOk(0)) == LATE_2
    ensures Next(LATE_2, Respond(1, Unauthorized)).isRefreshing
  {
  }

  /**
   One refresh at a time is not one refresh per expired token: an answer that comes in after the
   refresh has ended starts another one.  The bound on the refresh calls is reached.
   */
  lemma LateAnswerRefreshesAgain()
    ensures exists s, steps ::
      Initial(s) && IsRun(s, steps) && |s.requests| == 2 && RefreshCalls(s, steps) == 2
  {
    hide Next;
    hide IsRun;
    hide RefreshCalls;
    LateSteps();
    ThreeSteps(LATE_0, LATE_1, LATE_2, Respond(0, Unauthorized), RefreshOk(0), Respond(1, Unauthorized));
    assert |LATE_0.requests| == 2 by {
      assert LATE_0.requests.Keys == {0, 1};
      assert |LATE_0.requests.Keys| == |LATE_0.requests|;
    }
  }

  lemma ThreeSteps(s: State, s1: State, s2: State, a: Step, b: Step, c: Step)
    requires Enabled(s, a) && Next(s, a) == s1
    requires Enabled(s1, b) && Next(s1, b) == s2
    requires Enabled(s2, c)
    ensures IsRun(s, [a, b, c])
    ensures RefreshCalls(s, [a, b, c]) == Started(s, s1) + Started(s1, s2) + Started(s2, Next(s2, c))
  {
    hide Next;
    hide Enabled;
    assert [c][1..] == [];
    assert [b, c][1..] == [c];
    assert [a, b, c][1..] == [b, c];
    assert IsRun(s2, [c]) && RefreshCalls(s2, [c]) == Started(s2, Next(s2, c));
    assert IsRun(s1, [b, c]);
  }

  // ---------- The interceptor ----------

  class ApiClient {
    var isRefreshing: bool
    var failedQueue: seq<Id>
    // The world around the module variables: requests, outstanding refresh calls, tokens issued.
    var requests: map<Id, Request>
    var refreshing: set<Id>
    var tokens: nat
    const keepsToken: bool
    var storage: Option<nat>

    ghost function Model(): State
      reads this
    {
      State(requests, isRefreshing, failedQueue, refreshing, tokens, keepsToken, storage)
    }

    ghost predicate Valid()
      reads this
    {
      Inv(Model())
    }

    constructor (initial: map<Id, Request>, keeps: bool, stored: Option<nat>)
      requires Initial(State(initial, false, [], {}, 0, keeps, stored))
      ensures Valid() && Initial(Model()) && requests == initial && keepsToken == keeps && storage == stored
    {
      keepsToken, storage := keeps, stored;
      isRefreshing, failedQueue := false, [];
      requests, refreshing, tokens := initial, {}, 0;
      new;
      InitialInv(Model());
    }

    /** The error handler and the success handler, from the answer to the first await. */
    method OnResponse(id: Id, outcome: Outcome)
      requires Valid() && Enabled(Model(), Respond(id, outcome))
      modifies this
      ensures Valid() && Model() == Next(old(Model()), Respond(id, outcome))
    {
      StepKeepsInv(Model(), Respond(id, outcome));
      var r := requests[id];
      if outcome == Unauthorized && !r.retry && !r.exempt {
        if isRefreshing {
          failedQueue := failedQueue + [id];
          requests := requests[id := r.(phase := Queued)];
          return;
        }
        requests := requests[id := r.(retry := true, phase := Leading)];
        isRefreshing := true;
        refreshing := refreshing + {id};
        return;
      }
      requests := requests[id := Settle(r, outcome == Success)];
    }

    /** Resolves or rejects every waiter in turn and empties the queue. */
    method ProcessQueue(token: Option<nat>)
      requires forall i, j :: 0 <= i < j < |failedQueue| ==> failedQueue[i] != failedQueue[j]
      requires forall id :: id in failedQueue ==> id in requests
      modifies this`requests, this`failedQueue
      ensures failedQueue == []
      ensures requests == ReleaseAll(old(requests), old(Queue(Model())), token)
    {
      var i := 0;
      while i < |failedQueue|
        invariant 0 <= i <= |failedQueue| && failedQueue == old(failedQueue)
        invariant requests == ReleaseAll(old(requests), (set id | id in failedQueue[..i]), token)
      {
        var id := failedQueue[i];
        assert id in failedQueue && id !in failedQueue[..i];
        var r := requests[id];
        requests := requests[id := if token.Some? then Resend(r, token.value) else Settle(r, false)];
        assert failedQueue[..i + 1] == failedQueue[..i] + [id];
        i := i + 1;
      }
      assert failedQueue[..i] == failedQueue;
      failedQueue := [];
    }

    method OnRefreshOk(leader: Id)
      requires Valid() && Enabled(Model(), RefreshOk(leader))
      modifies this
      ensures Valid() && Model() == Next(old(Model()), RefreshOk(leader))
    {
      ghost var s := Model();
      StepKeepsInv(s, RefreshOk(leader));
      assert RequestOk(s, leader);
      var token := tokens + 1;
      if keepsToken {
        storage := Some(token);
      }
      tokens := token;
      refreshing := refreshing - {leader};
      ProcessQueue(Some(token));
      requests := requests[leader := Resend(requests[leader], token)];
      isRefreshing := false;
      assert requests == ReleaseAll(s.requests, Queue(s) + {leader}, Some(token));
    }

    method OnRefreshFailed(leader: Id)
      requires Valid() && Enabled(Model(), RefreshFailed(leader))
      modifies this
      ensures Valid() && Model() == Next(old(Model()), RefreshFailed(leader))
    {
      ghost var s := Model();
      StepKeepsInv(s, RefreshFailed(leader));
      assert RequestOk(s, leader);
      refreshing := refreshing - {leader};
      ProcessQueue(None);
      if keepsToken {
        storage := None;
      }
      requests := requests[leader := Settle(requests[leader], false)];
      isRefreshing := false;
      assert requests == ReleaseAll(s.requests, Queue(s) + {leader}, None);
    }
  }
}
