/** The worker loop step by step, as functions of its state. */
module RunSteps {
  import opened Wrappers
  import opened LedgerModel
  import opened PendingInputs
  import opened RunProgress

  datatype Reply = Reply(code: Code, answers: Answers)

  /** What one pass of the loop meets: how many calls the rate limit lets it start, which calls have
      returned, in which order, and what the provider answered to each. */
  datatype Tick = Tick(sends: nat, landed: seq<nat>, reply: (nat, seq<Item>) -> Reply)

  datatype Limits = Limits(concurrency: int, requestsPerMinute: int, maxNewRequests: int, maxBatchInputs: int) {
    predicate Valid(spec: Spec) {
      1 <= concurrency <= 8 && 1 <= requestsPerMinute <= 600 && 1 <= maxNewRequests <= spec.MaxRequests()
    }
  }

  /** `Interrupted` is the process ending while the loop still had work; `Raised` an error leaving it. */
  datatype RunResult = Raised(error: Error) | Interrupted | SealedWith(report: Report) | Unfinished

  /** The loop's variables. */
  datatype Loop = Loop(retry: seq<Item>, inflight: map<nat, seq<Item>>, sent: nat, exhausted: bool, stopped: bool) {
    predicate Working() {
      inflight != map[] || (!exhausted && !stopped)
    }
  }

  /** The ledger, the suspended scan, the loop's variables, and the members given up for a later run. */
  datatype State = State(session: Session, cursor: nat, carry: Option<Item>, loop: Loop, deferred: set<Seqno>)

  ghost function ProgressOf(st: State): Progress {
    Progress(st.session, st.cursor, st.carry, st.loop.retry, st.loop.inflight, st.deferred)
  }

  // ---------- sending ----------

  /** Taking the head of the retry queue, or else the next batch of the scan. */
  ghost function TakeStep(env: Env, maxInputs: int, st: State): (Result<seq<Item>, Error>, State) {
    var retry := st.loop.retry;
    if retry != [] then
      (Success(retry[..1]), st.(loop := st.loop.(retry := retry[1..]), deferred := st.deferred + SeqnoSet(retry[..1])))
    else if !(1 <= maxInputs <= COUNT_LIMIT) then (Failure(InvalidBatchLimit), st)
    else
      var (batch, cursor, carry) := Resumed(st.session.store, env.pack.members, st.cursor, st.carry, maxInputs);
      (Success(batch), st.(cursor := cursor, carry := carry, deferred := st.deferred + SeqnoSet(batch)))
  }

  /** Reserving what was taken and putting it in flight; false when nothing was left to take. */
  ghost function SendStep(env: Env, maxInputs: int, st: State): (Result<bool, Error>, State) {
    var (taken, q) := TakeStep(env, maxInputs, st);
    if taken.Failure? then (Failure(taken.error), q)
    else if taken.value == [] then (Success(false), q)
    else
      var (session, id) := Reserve(env, q.session, taken.value);
      if id.Failure? then (Failure(id.error), q)
      else
        var loop := q.loop.(inflight := q.loop.inflight[id.value := taken.value], sent := q.loop.sent + 1);
        (Success(true), q.(session := session, loop := loop, deferred := q.deferred - SeqnoSet(taken.value)))
  }

  predicate MaySend(limits: Limits, loop: Loop) {
    !loop.stopped && !loop.exhausted && |loop.inflight| < limits.concurrency && loop.sent < limits.maxNewRequests
  }

  /** Sending while the loop and the rate limit allow it. */
  ghost function SendAll(env: Env, limits: Limits, st: State, left: nat): (Option<Error>, State)
    decreases left
  {
    if left == 0 || !MaySend(limits, st.loop) then (None, st)
    else
      var (sent, q) := SendStep(env, limits.maxBatchInputs, st);
      match sent
      case Failure(e) => (Some(e), q)
      case Success(false) => (None, q.(loop := q.loop.(exhausted := true)))
      case Success(true) => SendAll(env, limits, q, left - 1)
  }

  // ---------- answers ----------

  /** The loop after an answer that the ledger recorded. */
  ghost function LoopAfter(loop: Loop, batch: seq<Item>, code: Code): Loop {
    if code == Complete || (code == InputTooLong && |batch| <= 1) then loop
    else if code == InputTooLong then loop.(retry := loop.retry + batch, exhausted := false)
    else loop.(stopped := true)
  }

  /** Recording the answer to one call: what the ledger refuses to record raises. */
  ghost function LandStep(env: Env, st: State, a: nat, reply: Reply): (Option<Error>, State)
    requires a in st.loop.inflight
  {
    var batch := st.loop.inflight[a];
    var rest := st.loop.(inflight := st.loop.inflight - {a});
    var (session, error) :=
      if reply.code == Complete then Finish(env, st.session, a, batch, reply.answers)
      else Fail(st.session, a, reply.code);
    var kept := error.None? && reply.code in {Complete, InputTooLong};
    (error, st.(session := session, loop := if error.None? then LoopAfter(rest, batch, reply.code) else rest,
                deferred := if kept then st.deferred else st.deferred + SeqnoSet(batch)))
  }

  /** Recording the calls that have returned, from the i-th on. */
  ghost function LandAll(env: Env, st: State, tick: Tick, i: nat): (Option<Error>, State)
    decreases |tick.landed| - i
  {
    if i >= |tick.landed| then (None, st)
    else if tick.landed[i] !in st.loop.inflight then LandAll(env, st, tick, i + 1)
    else
      var a := tick.landed[i];
      var (error, q) := LandStep(env, st, a, tick.reply(a, st.loop.inflight[a]));
      if error.Some? then (error, q) else LandAll(env, q, tick, i + 1)
  }

  // ---------- passes ----------

  ghost function Capped(limits: Limits, st: State): State {
    if st.loop.sent >= limits.maxNewRequests then st.(loop := st.loop.(stopped := true)) else st
  }

  ghost function PassStep(env: Env, limits: Limits, st: State, tick: Tick): (Option<Error>, State) {
    var (error, q) := SendAll(env, limits, st, tick.sends);
    if error.Some? then (error, q) else LandAll(env, Capped(limits, q), tick, 0)
  }

  /** Passes from the k-th on, until one raises, the work is done, or the schedule ends. */
  ghost function Passes(env: Env, limits: Limits, st: State, schedule: seq<Tick>, k: nat): (Option<Error>, State)
    decreases |schedule| - k
  {
    if k >= |schedule| || !st.loop.Working() then (None, st)
    else
      var (error, q) := PassStep(env, limits, st, schedule[k]);
      if error.Some? then (error, q) else Passes(env, limits, q, schedule, k + 1)
  }

  ghost function Begun(s: Session): State {
    State(s, 0, None, Loop([], map[], 0, false, false), {})
  }

  /** How a run ends, and the state it leaves. */
  ghost function RunSpec(env: Env, limits: Limits, s: Session, schedule: seq<Tick>): (RunResult, State) {
    if !limits.Valid(env.spec) then (Raised(InvalidLimits), Begun(s))
    else
      var (error, st) := Passes(env, limits, Begun(s), schedule, 0);
      if error.Some? then (Raised(error.value), st)
      else if st.loop.Working() then (Interrupted, st)
      else if |st.session.store.completions| != env.spec.report.members then (Unfinished, st)
      else
        var (session, report) := Seal(env, st.session);
        (if report.Success? then SealedWith(report.value) else Raised(report.error), st.(session := session))
  }

  // ---------- why a run gives members up, and why it stops ----------

  /** An attempt of this run was answered with a failure that is no input limit. */
  ghost predicate FailedIn(start: Store, store: Store, id: nat) {
    && |start.attempts| < id <= |store.attempts| && id in store.outcomes
    && store.outcomes[id].IsFailure() && store.outcomes[id] != InputTooLong
  }

  ghost predicate SomeFailed(start: Store, store: Store) {
    exists id: nat :: FailedIn(start, store, id)
  }

  ghost predicate GivenUp(start: Store, store: Store, n: Seqno) {
    exists id: nat :: FailedIn(start, store, id) && n in store.attempts[id - 1].seqs
  }

  ghost predicate FlightsListed(start: Store, st: State) {
    forall a :: a in st.loop.inflight ==>
      && |start.attempts| < a <= |st.session.store.attempts|
      && st.session.store.attempts[a - 1].seqs == Seqs(st.loop.inflight[a])
  }

  /** Members are given up only for such a failure, and the loop stops only for one or at the call limit. */
  ghost predicate Explained(start: Store, limit: int, st: State) {
    && FlightsListed(start, st) && |st.session.store.attempts| == |start.attempts| + st.loop.sent
    && (forall n :: n in st.deferred ==> st.loop.stopped && GivenUp(start, st.session.store, n))
    && (st.loop.stopped ==> st.loop.sent >= limit || SomeFailed(start, st.session.store))
  }

  /** More attempts, more outcomes, and what was there unchanged. */
  ghost predicate Extends(store: Store, after: Store) {
    && store.attempts <= after.attempts
    && forall id :: id in store.outcomes ==> id in after.outcomes && after.outcomes[id] == store.outcomes[id]
  }

  lemma FailuresStay(start: Store, store: Store, after: Store)
    requires Extends(store, after)
    ensures SomeFailed(start, store) ==> SomeFailed(start, after)
    ensures forall n :: GivenUp(start, store, n) ==> GivenUp(start, after, n)
  {
    assert forall id: nat :: FailedIn(start, store, id) ==>
      FailedIn(start, after, id) && after.attempts[id - 1] == store.attempts[id - 1];
    forall n | GivenUp(start, store, n) ensures GivenUp(start, after, n) {
      var id: nat :| FailedIn(start, store, id) && n in store.attempts[id - 1].seqs;
      assert FailedIn(start, after, id) && n in after.attempts[id - 1].seqs;
    }
  }

  lemma TakeKeeps(env: Env, maxInputs: int, st: State)
    ensures var (taken, q) := TakeStep(env, maxInputs, st);
      && q.session == st.session && q.loop == st.loop.(retry := q.loop.retry)
      && q.deferred == (if taken.Success? then st.deferred + SeqnoSet(taken.value) else st.deferred)
  {
    hide Resumed;
  }

  lemma ReserveExtends(env: Env, s: Session, batch: seq<Item>)
    requires Reserve(env, s, batch).1.Success?
    ensures var (after, id) := Reserve(env, s, batch);
      && id.value == |s.store.attempts| + 1 == |after.store.attempts| && Extends(s.store, after.store)
      && after.store.attempts[id.value - 1].seqs == Seqs(batch)
  {
  }

  lemma SendExplained(env: Env, start: Store, limit: int, maxInputs: int, st: State)
    requires Explained(start, limit, st) && SendStep(env, maxInputs, st).0.Success? && !st.loop.stopped
    ensures Explained(start, limit, SendStep(env, maxInputs, st).1) && !SendStep(env, maxInputs, st).1.loop.stopped
  {
    var (taken, q) := TakeStep(env, maxInputs, st);
    TakeKeeps(env, maxInputs, st);
    hide TakeStep, Reserve;
    if taken.value != [] {
      ReserveExtends(env, q.session, taken.value);
    } else {
      assert SeqnoSet([]) == {};
    }
  }

  lemma {:induction false} SendAllExplained(env: Env, start: Store, limits: Limits, st: State, left: nat)
    requires Explained(start, limits.maxNewRequests, st) && SendAll(env, limits, st, left).0.None?
    ensures Explained(start, limits.maxNewRequests, SendAll(env, limits, st, left).1)
    decreases left
  {
    hide SendStep, Explained;
    if left > 0 && MaySend(limits, st.loop) {
      SendExplained(env, start, limits.maxNewRequests, limits.maxBatchInputs, st);
      var (sent, q) := SendStep(env, limits.maxBatchInputs, st);
      if sent.value {
        SendAllExplained(env, start, limits, q, left - 1);
      } else {
        ExhaustedExplained(start, limits.maxNewRequests, q);
      }
    }
  }

  lemma ExhaustedExplained(start: Store, limit: int, st: State)
    requires Explained(start, limit, st)
    ensures Explained(start, limit, st.(loop := st.loop.(exhausted := true)))
  {
    hide GivenUp, SomeFailed;
  }

  /** What a recorded answer writes. */
  lemma LandExtends(env: Env, st: State, a: nat, reply: Reply)
    requires a in st.loop.inflight && LandStep(env, st, a, reply).0.None?
    ensures var store, after := st.session.store, LandStep(env, st, a, reply).1.session.store;
      && after.attempts == store.attempts && Extends(store, after) && 1 <= a <= |store.attempts|
      && after.outcomes == store.outcomes[a := reply.code] && a !in store.outcomes
      && (reply.code == Complete || reply.code.IsFailure())
  {
    hide FirstInvalid, Inserted;
  }

  lemma LandExplained(env: Env, start: Store, limit: int, st: State, a: nat, reply: Reply)
    requires Explained(start, limit, st) && a in st.loop.inflight && LandStep(env, st, a, reply).0.None?
    ensures Explained(start, limit, LandStep(env, st, a, reply).1)
  {
    var next := LandStep(env, st, a, reply).1;
    LandExtends(env, st, a, reply);
    LandLoop(env, st, a, reply);
    hide LandStep;
    FailuresStay(start, st.session.store, next.session.store);
    if reply.code !in {Complete, InputTooLong} {
      assert FailedIn(start, next.session.store, a);
      assert next.session.store.attempts[a - 1].seqs == Seqs(st.loop.inflight[a]);
      forall n | n in Seqs(st.loop.inflight[a]) ensures GivenUp(start, next.session.store, n) {}
    }
  }

  lemma LandLoop(env: Env, st: State, a: nat, reply: Reply)
    requires a in st.loop.inflight && LandStep(env, st, a, reply).0.None?
    ensures var next, stops := LandStep(env, st, a, reply).1, reply.code !in {Complete, InputTooLong};
      && next.loop.inflight == st.loop.inflight - {a} && next.loop.sent == st.loop.sent
      && next.loop.stopped == (st.loop.stopped || stops)
      && next.deferred == if stops then st.deferred + SeqnoSet(st.loop.inflight[a]) else st.deferred
  {
    hide Finish, Fail;
  }

  lemma {:induction false} LandAllExplained(env: Env, start: Store, limit: int, st: State, tick: Tick, i: nat)
    requires Explained(start, limit, st) && LandAll(env, st, tick, i).0.None?
    ensures Explained(start, limit, LandAll(env, st, tick, i).1)
    decreases |tick.landed| - i
  {
    hide LandStep, Explained;
    if i < |tick.landed| {
      var a := tick.landed[i];
      if a in st.loop.inflight {
        var reply := tick.reply(a, st.loop.inflight[a]);
        LandExplained(env, start, limit, st, a, reply);
        LandAllExplained(env, start, limit, LandStep(env, st, a, reply).1, tick, i + 1);
      } else {
        LandAllExplained(env, start, limit, st, tick, i + 1);
      }
    }
  }

  lemma CappedExplained(start: Store, limits: Limits, st: State)
    requires Explained(start, limits.maxNewRequests, st)
    ensures Explained(start, limits.maxNewRequests, Capped(limits, st))
  {
    hide GivenUp, SomeFailed;
  }

  lemma {:induction false} PassesExplained(env: Env, start: Store, limits: Limits, st: State, schedule: seq<Tick>,
                                           k: nat)
    requires Explained(start, limits.maxNewRequests, st) && Passes(env, limits, st, schedule, k).0.None?
    ensures Explained(start, limits.maxNewRequests, Passes(env, limits, st, schedule, k).1)
    decreases |schedule| - k
  {
    hide SendAll, LandAll, Explained, Capped;
    if k < |schedule| && st.loop.Working() {
      SendAllExplained(env, start, limits, st, schedule[k].sends);
      var q := SendAll(env, limits, st, schedule[k].sends).1;
      CappedExplained(start, limits, q);
      LandAllExplained(env, start, limits.maxNewRequests, Capped(limits, q), schedule[k], 0);
      PassesExplained(env, start, limits, PassStep(env, limits, st, schedule[k]).1, schedule, k + 1);
    }
  }

  /** However a run ends without raising: members were given up only for failures that are no input limit, and the loop
      stopped only for such a failure or at the call limit. */
  lemma RunExplained(env: Env, limits: Limits, s: Session, schedule: seq<Tick>)
    requires !RunSpec(env, limits, s, schedule).0.Raised?
    ensures Explained(s.store, limits.maxNewRequests, RunSpec(env, limits, s, schedule).1)
  {
    BegunExplained(s, limits.maxNewRequests);
    PassesExplained(env, s.store, limits, Begun(s), schedule, 0);
    var st := Passes(env, limits, Begun(s), schedule, 0).1;
    hide Passes, Verify;
    SealedExplained(env, s.store, limits.maxNewRequests, st);
  }

  lemma BegunExplained(s: Session, limit: int)
    ensures Explained(s.store, limit, Begun(s))
  {
  }

  lemma SealedExplained(env: Env, start: Store, limit: int, st: State)
    requires Explained(start, limit, st)
    ensures Explained(start, limit, st.(session := Seal(env, st.session).0))
  {
    hide Verify;
    var after := Seal(env, st.session).0.store;
    FailuresStay(start, st.session.store, after);
  }
}
