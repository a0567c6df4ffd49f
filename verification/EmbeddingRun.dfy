/** The scheduler loop of scripts/embed_legacy_index_pack.py: it reserves batches, keeps calls in
    flight, records their answers and splits refused requests. */
module EmbeddingRun {
  import opened Wrappers
  import opened LedgerModel
  import opened LedgerHistory
  import opened LedgerBinding
  import opened EmbeddingLedger
  import opened PendingInputs
  import opened RunProgress
  import opened RunSteps

  /** The provider returns validated vectors or a failure code. */
  ghost predicate Honest(env: Env, tick: Tick) {
    forall a, batch {:trigger tick.reply(a, batch)} :: env.HoldsAll(batch) ==>
      var reply := tick.reply(a, batch);
      if reply.code == Complete then GoodAnswers(env, batch, reply.answers) else reply.code.IsFailure()
  }

  ghost predicate HonestThroughout(env: Env, schedule: seq<Tick>) {
    forall i :: 0 <= i < |schedule| ==> Honest(env, schedule[i])
  }

  /** A pass in which the rate limit lets a call start and every call in flight has returned. */
  ghost predicate Generous(tick: Tick, lastAttempt: nat) {
    1 <= tick.sends && forall a: nat :: 1 <= a <= lastAttempt ==> a in tick.landed
  }

  ghost function GenerousTicks(schedule: seq<Tick>, lastAttempt: nat): nat {
    if schedule == [] then 0
    else GenerousTicks(schedule[..|schedule| - 1], lastAttempt) + One(Generous(schedule[|schedule| - 1], lastAttempt))
  }

  const POLICY_REFUSALS: set<Error> := {InvalidInputs, BudgetExhausted, RetryLimit, InvalidBatchLimit}

  ghost function Now(ledger: Ledger, scan: PendingScan, loop: Loop, deferred: set<Seqno>): Progress
    reads ledger, scan
  {
    Progress(ledger.View(), scan.cursor, scan.carry, loop.retry, loop.inflight, deferred)
  }

  ghost function At(ledger: Ledger, scan: PendingScan, loop: Loop, deferred: set<Seqno>): State
    reads ledger, scan
  {
    State(ledger.View(), scan.cursor, scan.carry, loop, deferred)
  }

  /** Work the loop may still do; every pass that starts or ends something lowers it. */
  ghost function Potential(limit: nat, loop: Loop): int {
    4 * (limit - loop.sent) + 2 * |loop.inflight| + One(!loop.exhausted) + One(!loop.stopped)
  }

  lemma Landed(inflight: map<nat, seq<Item>>, a: nat)
    requires a in inflight
    ensures |inflight - {a}| == |inflight| - 1
  {
    assert (inflight - {a}).Keys == inflight.Keys - {a};
    assert |(inflight - {a}).Keys| == |inflight.Keys| - 1;
  }

  /** The next batch of the queue or else of the scan; empty when neither has any. */
  method Take(ledger: Ledger, scan: PendingScan, loop: Loop, ghost start: Store, ghost deferred: set<Seqno>)
      returns (r: Result<seq<Item>, Error>, loop': Loop, ghost deferred': set<Seqno>)
    requires scan.ledger == ledger && Conserved(ledger.env, start, Now(ledger, scan, loop, deferred))
    modifies scan
    ensures (r, At(ledger, scan, loop', deferred')) ==
            TakeStep(ledger.env, scan.maxInputs, old(At(ledger, scan, loop, deferred)))
    ensures Conserved(ledger.env, start, Now(ledger, scan, loop', deferred'))
    ensures loop' == loop.(retry := loop'.retry)
    ensures r.Failure? ==> r.error == InvalidBatchLimit
    ensures loop.retry != [] ==>
      r == Success([loop.retry[0]]) && loop'.retry == loop.retry[1..]
      && scan.cursor == old(scan.cursor) && scan.carry == old(scan.carry)
    ensures loop.retry == [] && r.Success? ==> |r.value| <= scan.maxInputs && loop'.retry == []
    ensures r == Success([]) ==> loop' == loop && Drained(ledger.env, Now(ledger, scan, loop', deferred'))
    ensures r.Success? && r.value != [] ==> InHand(ledger.env, start, Now(ledger, scan, loop', deferred'), r.value)
  {
    hide Conserved, InHand, ScanSound, Reachable, PackRows, Grows, Env.Valid, StillPending, Resumed;
    ghost var p := Now(ledger, scan, loop, deferred);
    ConservedFacts(ledger.env, start, p);
    assert scan.InRange() by { ScanInRange(ledger.env, p); }
    if loop.retry != [] {
      RetryMoves(ledger.env, start, p);
      assert loop.retry[..1] == [loop.retry[0]];
      return Success(loop.retry[..1]), loop.(retry := loop.retry[1..]), deferred + SeqnoSet(loop.retry[..1]);
    }
    loop', deferred' := loop, deferred;
    var next := scan.Next();
    if next.Failure? { return Failure(next.error), loop', deferred'; }
    ScanSoundNext(ledger.env, ledger.store, scan.cursor, scan.carry);
    ScanMoves(ledger.env, start, p, scan.cursor, scan.carry, |next.value|);
    FirstSizeWithin(old(scan.Remaining()), scan.maxInputs);
    deferred' := deferred + SeqnoSet(next.value);
    if next.value == [] { NothingPending(ledger.env, Now(ledger, scan, loop', deferred')); }
    r := next;
  }

  lemma FirstSizeWithin(items: seq<Item>, maxInputs: int)
    requires 1 <= maxInputs
    ensures FirstSize(items, maxInputs) <= maxInputs
  {
    if items != [] { GrowWithin(items, 1, maxInputs); }
  }

  /** Takes a batch, reserves it and puts it in flight: the head of the retry queue on its own, or else a batch of the
      scan. */
  method Send(ledger: Ledger, scan: PendingScan, loop: Loop, ghost start: Store, ghost deferred: set<Seqno>)
      returns (r: Result<bool, Error>, loop': Loop, ghost deferred': set<Seqno>)
    requires scan.ledger == ledger && Conserved(ledger.env, start, Now(ledger, scan, loop, deferred))
    modifies ledger, scan
    ensures (r, At(ledger, scan, loop', deferred')) ==
            SendStep(ledger.env, scan.maxInputs, old(At(ledger, scan, loop, deferred)))
    ensures Conserved(ledger.env, start, Now(ledger, scan, loop', deferred'))
    ensures r.Failure? ==> r.error in POLICY_REFUSALS && ledger.store.attempts == old(ledger.store.attempts)
    ensures r != Success(true) ==> loop' == loop.(retry := loop'.retry) && ledger.store == old(ledger.store)
    ensures r == Success(false) ==> loop' == loop && Drained(ledger.env, Now(ledger, scan, loop', deferred'))
    ensures r == Success(true) ==>
      && |ledger.store.attempts| == |old(ledger.store.attempts)| + 1
      && |loop'.inflight| == |loop.inflight| + 1
      && loop' == loop.(retry := loop'.retry, inflight := loop'.inflight, sent := loop.sent + 1)
    ensures r == Success(true) ==>
      |ledger.store.attempts| in loop'.inflight &&
      var batch := loop'.inflight[|ledger.store.attempts|];
      && loop'.inflight == loop.inflight[|ledger.store.attempts| := batch]
      && (loop.retry == [] ==> 1 <= |batch| <= scan.maxInputs && loop'.retry == [])
      && (loop.retry != [] ==>
           batch == [loop.retry[0]] && loop'.retry == loop.retry[1..] && scan.cursor == old(scan.cursor)
           && scan.carry == old(scan.carry))
  {
    hide Conserved, InHand, Drained, LedgerModel.Reserve, Ledger.Valid, Grows, TakeStep;
    var batch;
    batch, loop', deferred' := Take(ledger, scan, loop, start, deferred);
    if batch.Failure? { return Failure(batch.error), loop', deferred'; }
    if batch.value == [] { return Success(false), loop', deferred'; }
    ghost var q := Now(ledger, scan, loop', deferred');
    ReserveRefusals(ledger.env, start, q, batch.value);
    RefusalChangesNothing(ledger.env, q.session, batch.value);
    var id := ledger.Reserve(batch.value);
    if id.Failure? { return Failure(id.error), loop', deferred'; }
    ReserveMoves(ledger.env, start, q, batch.value, ledger.View(), id.value);
    loop' := loop'.(inflight := loop'.inflight[id.value := batch.value], sent := loop.sent + 1);
    deferred' := deferred' - SeqnoSet(batch.value);
    r := Success(true);
  }

  lemma RefusalChangesNothing(env: Env, s: Session, batch: seq<Item>)
    ensures LedgerModel.Reserve(env, s, batch).1.Failure? ==> LedgerModel.Reserve(env, s, batch).0 == s
  {
  }

  lemma ScanInRange(env: Env, p: Progress)
    requires ScanSound(env, p.session.store, p.cursor, p.carry)
    ensures p.cursor <= |env.pack.members|
  {
  }

  /** Records the answer to one call. */
  method Land(ledger: Ledger, scan: PendingScan, loop: Loop, a: nat, reply: Reply, ghost start: Store,
      ghost deferred: set<Seqno>)
      returns (r: Option<Error>, loop': Loop, ghost deferred': set<Seqno>)
    requires scan.ledger == ledger && Conserved(ledger.env, start, Now(ledger, scan, loop, deferred))
    requires a in loop.inflight
    modifies ledger
    ensures (r, At(ledger, scan, loop', deferred')) ==
            LandStep(ledger.env, old(At(ledger, scan, loop, deferred)), a, reply)
    ensures Conserved(ledger.env, start, Now(ledger, scan, loop', deferred'))
    ensures ledger.store.attempts == old(ledger.store.attempts) && loop'.sent == loop.sent
    ensures loop'.inflight == loop.inflight - {a} && |loop'.inflight| == |loop.inflight| - 1
    ensures loop.stopped ==> loop'.stopped
    ensures loop'.exhausted ==> loop.exhausted && loop'.retry == loop.retry
    ensures Grows(old(ledger.store), ledger.store)
    ensures r.None? ==>
      var batch := loop.inflight[a];
      && ledger.store.outcomes == old(ledger.store.outcomes)[a := reply.code]
      && loop'.stopped == (loop.stopped || reply.code !in {Complete, InputTooLong})
      && (if reply.code == InputTooLong && |batch| > 1 then loop'.retry == loop.retry + batch && !loop'.exhausted
          else loop'.retry == loop.retry && loop'.exhausted == loop.exhausted)
    ensures r.Some? ==>
      if reply.code == Complete then !GoodAnswers(ledger.env, loop.inflight[a], reply.answers)
        else !reply.code.IsFailure()
  {
    hide Conserved, LedgerModel.Finish, LedgerModel.Fail, Grows, Reachable, PackRows, Env.Valid, ScanSound, GoodAnswers;
    ghost var p := Now(ledger, scan, loop, deferred);
    ConservedFacts(ledger.env, start, p);
    var batch := loop.inflight[a];
    Landed(loop.inflight, a);
    loop' := loop.(inflight := loop.inflight - {a});
    deferred' := deferred;
    AbandonMoves(ledger.env, start, p, a);
    if reply.code == Complete {
      if GoodAnswers(ledger.env, batch, reply.answers) { FinishSucceeds(ledger.env, start, p, a, reply.answers); }
      AnswerEffects(ledger.env, p.session, a, batch, reply);
      r := ledger.Finish(a, batch, reply.answers);
      if r.None? {
        FinishMoves(ledger.env, start, p, a, reply.answers);
      } else {
        deferred' := deferred + SeqnoSet(batch);
      }
    } else {
      AnswerEffects(ledger.env, p.session, a, batch, reply);
      if reply.code.IsFailure() {
        FailSucceeds(ledger.env, start, p, a, reply.code);
        FailMoves(ledger.env, start, p, a, reply.code);
      }
      r := ledger.Fail(a, reply.code);
      if r.Some? {
        deferred' := deferred + SeqnoSet(batch);
      } else if reply.code == InputTooLong {
        if |batch| > 1 { loop' := loop'.(retry := loop.retry + batch, exhausted := false); }
      } else {
        deferred' := deferred + SeqnoSet(batch);
        loop' := loop'.(stopped := true);
      }
    }
  }

  lemma AnswerEffects(env: Env, s: Session, a: nat, batch: seq<Item>, reply: Reply)
    ensures LedgerModel.Finish(env, s, a, batch, reply.answers).0.store.attempts == s.store.attempts
    ensures LedgerModel.Finish(env, s, a, batch, reply.answers).1.Some? ==>
      LedgerModel.Finish(env, s, a, batch, reply.answers).0 == s
    ensures LedgerModel.Fail(s, a, reply.code).0.store.attempts == s.store.attempts
    ensures LedgerModel.Fail(s, a, reply.code).1.Some? ==> LedgerModel.Fail(s, a, reply.code).0 == s
    ensures !reply.code.IsFailure() ==> LedgerModel.Fail(s, a, reply.code).1.Some?
    ensures reply.code == Complete && LedgerModel.Finish(env, s, a, batch, reply.answers).1.None? ==>
      LedgerModel.Finish(env, s, a, batch, reply.answers).0.store.outcomes == s.store.outcomes[a := reply.code]
    ensures LedgerModel.Fail(s, a, reply.code).1.None? ==>
      LedgerModel.Fail(s, a, reply.code).0.store.outcomes == s.store.outcomes[a := reply.code]
  {
  }

  lemma GenerousForFewer(tick: Tick, last: nat, n: nat)
    requires Generous(tick, last) && n <= last
    ensures 1 <= tick.sends && Generous(tick, n)
  {
  }

  /** Starts calls as long as the pass may. */
  method SendPass(ledger: Ledger, scan: PendingScan, limits: Limits, loop: Loop, sends: nat, ghost start: Store,
      ghost deferred: set<Seqno>)
      returns (r: Option<Error>, loop': Loop, ghost deferred': set<Seqno>)
    requires scan.ledger == ledger && Conserved(ledger.env, start, Now(ledger, scan, loop, deferred))
    requires loop.sent <= limits.maxNewRequests && scan.maxInputs == limits.maxBatchInputs
    requires loop.exhausted ==> Drained(ledger.env, Now(ledger, scan, loop, deferred))
    requires |loop.inflight| <= limits.concurrency
    modifies ledger, scan
    ensures |loop'.inflight| <= limits.concurrency
    ensures (r, At(ledger, scan, loop', deferred')) ==
            SendAll(ledger.env, limits, old(At(ledger, scan, loop, deferred)), sends)
    ensures Conserved(ledger.env, start, Now(ledger, scan, loop', deferred'))
    ensures loop'.exhausted ==> Drained(ledger.env, Now(ledger, scan, loop', deferred'))
    ensures loop.sent <= loop'.sent <= limits.maxNewRequests && loop'.stopped == loop.stopped
    ensures |ledger.store.attempts| - loop'.sent == old(|ledger.store.attempts|) - loop.sent
    ensures r.Some? ==> r.value in POLICY_REFUSALS
    ensures loop' == loop || Potential(limits.maxNewRequests, loop') < Potential(limits.maxNewRequests, loop) || r.Some?
    ensures r.None? && 1 <= sends && !loop.stopped && !loop.exhausted
      && |loop.inflight| < limits.concurrency && loop.sent < limits.maxNewRequests
      ==> Potential(limits.maxNewRequests, loop') < Potential(limits.maxNewRequests, loop)
  {
    hide Conserved, Drained, SendStep;
    r, loop', deferred' := None, loop, deferred;
    var left := sends;
    while !loop'.stopped && !loop'.exhausted && |loop'.inflight| < limits.concurrency
       && loop'.sent < limits.maxNewRequests && 0 < left
      invariant Conserved(ledger.env, start, Now(ledger, scan, loop', deferred'))
      invariant loop'.exhausted ==> Drained(ledger.env, Now(ledger, scan, loop', deferred'))
      invariant loop.sent <= loop'.sent <= limits.maxNewRequests && loop'.stopped == loop.stopped
      invariant |loop'.inflight| <= limits.concurrency
      invariant |ledger.store.attempts| - loop'.sent == old(|ledger.store.attempts|) - loop.sent
      invariant SendAll(ledger.env, limits, At(ledger, scan, loop', deferred'), left) ==
                SendAll(ledger.env, limits, old(At(ledger, scan, loop, deferred)), sends)
      invariant (left == sends && loop' == loop) ||
        Potential(limits.maxNewRequests, loop') < Potential(limits.maxNewRequests, loop)
      decreases left, !loop'.exhausted
    {
      var sent;
      sent, loop', deferred' := Send(ledger, scan, loop', start, deferred');
      if sent.Failure? { r := Some(sent.error); return; }
      if sent.value {
        left := left - 1;
      } else {
        loop' := loop'.(exhausted := true);
      }
    }
  }

  /** Records one call that has returned. */
  method LandOne(ledger: Ledger, scan: PendingScan, loop: Loop, tick: Tick, a: nat, ghost limit: nat,
      ghost start: Store, ghost deferred: set<Seqno>)
      returns (r: Option<Error>, loop': Loop, ghost deferred': set<Seqno>)
    requires scan.ledger == ledger && Conserved(ledger.env, start, Now(ledger, scan, loop, deferred))
    requires a in loop.inflight && (loop.exhausted ==> Drained(ledger.env, Now(ledger, scan, loop, deferred)))
    modifies ledger
    ensures (r, At(ledger, scan, loop', deferred')) ==
            LandStep(ledger.env, old(At(ledger, scan, loop, deferred)), a, tick.reply(a, loop.inflight[a]))
    ensures Conserved(ledger.env, start, Now(ledger, scan, loop', deferred'))
    ensures loop'.exhausted ==> Drained(ledger.env, Now(ledger, scan, loop', deferred'))
    ensures ledger.store.attempts == old(ledger.store.attempts) && loop'.sent == loop.sent
    ensures loop'.inflight == loop.inflight - {a} && |loop'.inflight| == |loop.inflight| - 1
    ensures loop.stopped ==> loop'.stopped
    ensures r.Some? ==> !Honest(ledger.env, tick)
    ensures Potential(limit, loop') < Potential(limit, loop)
  {
    hide Conserved, Drained, Grows, Reachable, PackRows, Env.Valid, ScanSound, GoodAnswers, LandStep;
    ghost var p := Now(ledger, scan, loop, deferred);
    ConservedFacts(ledger.env, start, p);
    var reply := tick.reply(a, loop.inflight[a]);
    r, loop', deferred' := Land(ledger, scan, loop, a, reply, start, deferred);
    if loop'.exhausted { DrainedStays(ledger.env, p, Now(ledger, scan, loop', deferred')); }
  }

  lemma SomeLanded(tick: Tick, last: nat, a: nat, inflight: map<nat, seq<Item>>)
    requires Generous(tick, last) && 1 <= a <= last
    requires forall k :: 0 <= k < |tick.landed| ==> tick.landed[k] !in inflight
    ensures a !in inflight
  {
    assert a in tick.landed;
  }

  /** Records the answers of the calls that have returned. */
  method LandPass(ledger: Ledger, scan: PendingScan, loop: Loop, tick: Tick, ghost limit: nat, ghost start: Store,
      ghost deferred: set<Seqno>)
      returns (r: Option<Error>, loop': Loop, ghost deferred': set<Seqno>)
    requires scan.ledger == ledger && Conserved(ledger.env, start, Now(ledger, scan, loop, deferred))
    requires loop.exhausted ==> Drained(ledger.env, Now(ledger, scan, loop, deferred))
    modifies ledger
    ensures (r, At(ledger, scan, loop', deferred')) ==
            LandAll(ledger.env, old(At(ledger, scan, loop, deferred)), tick, 0)
    ensures Conserved(ledger.env, start, Now(ledger, scan, loop', deferred'))
    ensures loop'.exhausted ==> Drained(ledger.env, Now(ledger, scan, loop', deferred'))
    ensures ledger.store.attempts == old(ledger.store.attempts) && loop'.sent == loop.sent
    ensures |loop'.inflight| <= |loop.inflight| && (loop.stopped ==> loop'.stopped)
    ensures r.Some? ==> !Honest(ledger.env, tick)
    ensures Potential(limit, loop') <= Potential(limit, loop)
    ensures r.None? && Generous(tick, |ledger.store.attempts|) && loop.inflight != map[]
      ==> Potential(limit, loop') < Potential(limit, loop)
  {
    hide Conserved, Drained, Grows, Honest, Generous, Reachable, PackRows, Env.Valid, ScanSound, LandStep, LandAll,
      Potential;
    r, loop', deferred' := None, loop, deferred;
    ConservedFacts(ledger.env, start, Now(ledger, scan, loop, deferred));
    assert forall a :: a in loop.inflight ==> 1 <= a <= |ledger.store.attempts|;
    for i := 0 to |tick.landed|
      invariant r.None? && Conserved(ledger.env, start, Now(ledger, scan, loop', deferred'))
      invariant loop'.exhausted ==> Drained(ledger.env, Now(ledger, scan, loop', deferred'))
      invariant ledger.store.attempts == old(ledger.store.attempts) && loop'.sent == loop.sent
      invariant |loop'.inflight| <= |loop.inflight| && (loop.stopped ==> loop'.stopped)
      invariant Potential(limit, loop') <= Potential(limit, loop)
      invariant loop' == loop || Potential(limit, loop') < Potential(limit, loop)
      invariant forall k :: 0 <= k < i ==> tick.landed[k] !in loop'.inflight
      invariant LandAll(ledger.env, At(ledger, scan, loop', deferred'), tick, i) ==
                LandAll(ledger.env, old(At(ledger, scan, loop, deferred)), tick, 0)
    {
      var a := tick.landed[i];
      LandAllStep(ledger.env, At(ledger, scan, loop', deferred'), tick, i);
      if a in loop'.inflight {
        r, loop', deferred' := LandOne(ledger, scan, loop', tick, a, limit, start, deferred');
        if r.Some? { return; }
      }
    }
    LandAllStep(ledger.env, At(ledger, scan, loop', deferred'), tick, |tick.landed|);
    if Generous(tick, |ledger.store.attempts|) && loop.inflight != map[] {
      var a :| a in loop.inflight;
      SomeLanded(tick, |ledger.store.attempts|, a, loop'.inflight);
    }
  }

  lemma LandAllStep(env: Env, st: State, tick: Tick, i: nat)
    ensures i >= |tick.landed| ==> LandAll(env, st, tick, i) == (None, st)
    ensures i < |tick.landed| && tick.landed[i] !in st.loop.inflight ==>
      LandAll(env, st, tick, i) == LandAll(env, st, tick, i + 1)
    ensures i < |tick.landed| && tick.landed[i] in st.loop.inflight ==>
      var a := tick.landed[i];
      var (error, q) := LandStep(env, st, a, tick.reply(a, st.loop.inflight[a]));
      LandAll(env, st, tick, i) == if error.Some? then (error, q) else LandAll(env, q, tick, i + 1)
  {
    hide LandStep;
  }

  lemma PassesStep(env: Env, limits: Limits, st: State, schedule: seq<Tick>, k: nat)
    ensures k >= |schedule| || !st.loop.Working() ==> Passes(env, limits, st, schedule, k) == (None, st)
    ensures k < |schedule| && st.loop.Working() ==>
      var (error, q) := PassStep(env, limits, st, schedule[k]);
      Passes(env, limits, st, schedule, k) == if error.Some? then (error, q)
        else Passes(env, limits, q, schedule, k + 1)
  {
    hide PassStep;
  }

  lemma {:induction false} NothingLands(env: Env, st: State, tick: Tick, i: nat)
    ensures st.loop.inflight == map[] ==> LandAll(env, st, tick, i) == (None, st)
    decreases |tick.landed| - i
  {
    if i < |tick.landed| { NothingLands(env, st, tick, i + 1); }
  }

  /** One pass of the outer loop. */
  method Pass(ledger: Ledger, scan: PendingScan, limits: Limits, loop: Loop, tick: Tick, ghost last: nat,
              ghost start: Store, ghost deferred: set<Seqno>)
      returns (r: Option<Error>, loop': Loop, ghost deferred': set<Seqno>)
    requires scan.ledger == ledger && Conserved(ledger.env, start, Now(ledger, scan, loop, deferred))
    requires loop.exhausted ==> Drained(ledger.env, Now(ledger, scan, loop, deferred))
    requires 1 <= limits.concurrency && loop.sent <= limits.maxNewRequests && loop.Working()
    requires scan.maxInputs == limits.maxBatchInputs && |loop.inflight| <= limits.concurrency
    requires |ledger.store.attempts| - loop.sent + limits.maxNewRequests <= last
    modifies ledger, scan
    ensures |loop'.inflight| <= limits.concurrency
    ensures (r, At(ledger, scan, loop', deferred')) ==
            PassStep(ledger.env, limits, old(At(ledger, scan, loop, deferred)), tick)
    ensures Conserved(ledger.env, start, Now(ledger, scan, loop', deferred'))
    ensures loop'.exhausted ==> Drained(ledger.env, Now(ledger, scan, loop', deferred'))
    ensures loop.sent <= loop'.sent <= limits.maxNewRequests
    ensures |ledger.store.attempts| - loop'.sent == old(|ledger.store.attempts|) - loop.sent
    ensures r.Some? ==> r.value in POLICY_REFUSALS || !Honest(ledger.env, tick)
    ensures r.None? ==>
      Potential(limits.maxNewRequests, loop') + One(Generous(tick, last)) <= Potential(limits.maxNewRequests, loop)
  {
    hide Conserved, Drained, Honest, Generous, SendAll, LandAll, Potential;
    if Generous(tick, last) { GenerousForFewer(tick, last, last); }
    r, loop', deferred' := SendPass(ledger, scan, limits, loop, tick.sends, start, deferred);
    if r.Some? { return; }
    if Generous(tick, last) { GenerousForFewer(tick, last, |ledger.store.attempts|); }
    ghost var sent := loop';
    if loop'.sent >= limits.maxNewRequests { loop' := loop'.(stopped := true); }
    ghost var capped := loop';
    NothingLands(ledger.env, At(ledger, scan, loop', deferred'), tick, 0);
    if loop'.inflight != map[] {
      r, loop', deferred' := LandPass(ledger, scan, loop', tick, limits.maxNewRequests, start, deferred');
    }
    if r.None? { PassLowers(limits, loop, sent, capped, loop', Generous(tick, last)); }
  }

  lemma PassLowers(limits: Limits, loop: Loop, sent: Loop, capped: Loop, after: Loop, generous: bool)
    requires 1 <= limits.concurrency && loop.Working() && loop.sent <= sent.sent && sent.stopped == loop.stopped
    requires var limit := limits.maxNewRequests;
      && sent.sent <= limit && capped == (if sent.sent >= limit then sent.(stopped := true) else sent)
      && (sent == loop || Potential(limit, sent) < Potential(limit, loop))
      && (generous && !loop.stopped && !loop.exhausted && |loop.inflight| < limits.concurrency && loop.sent < limit ==>
           Potential(limit, sent) < Potential(limit, loop))
      && (if capped.inflight == map[] then after == capped
          else Potential(limit, after) <= Potential(limit, capped)
               && (generous ==> Potential(limit, after) < Potential(limit, capped)))
    ensures Potential(limits.maxNewRequests, after) + One(generous) <= Potential(limits.maxNewRequests, loop)
  {
  }

  /** Sealing succeeds exactly when all members are completed, and then the stored report verifies. */
  lemma SealOutcome(env: Env, s: Session)
    requires env.Valid() && Reachable(env, s) && PackRows(env, s.store)
    ensures env.spec.report.members == |env.pack.members|
    ensures var (after, r) := LedgerModel.Seal(env, s);
      && (r.Success? <==> |s.store.completions| == |env.pack.members|)
      && (r.Success? ==> after.sealed == Some(r.value) && LedgerModel.Verify(env, after.store) == Success(r.value)
                         && after.store.completions == s.store.completions)
      && after.store.attempts == s.store.attempts
  {
    SealsExactlyWhenComplete(env, s);
    SealKeeps(env, s);
  }

  /** Where nothing is left to send, in flight or given up, every member is completed or rejected. */
  lemma NothingLeft(env: Env, start: Store, p: Progress)
    requires Conserved(env, start, p) && Drained(env, p) && p.inflight == map[] && p.deferred == {}
    ensures forall n: Seqno :: n <= |env.pack.members| ==> Settled(p.session.store, n)
  {
    hide LedgerSound, ListsSound, ReservedAtMost;
    forall n: Seqno | n <= |env.pack.members| ensures Settled(p.session.store, n) {
      assert InPlace(env, start, p, n);
      assert Seqs([]) == [];
    }
  }

  /** The passes of a run. */
  method RunPasses(ledger: Ledger, scan: PendingScan, limits: Limits, schedule: seq<Tick>, ghost start: Store,
                   ghost begun: Session)
      returns (failed: Option<Error>, loop: Loop, ghost deferred: set<Seqno>)
    requires scan.ledger == ledger && scan.maxInputs == limits.maxBatchInputs && limits.Valid(ledger.env.spec)
    requires start == ledger.store && begun == ledger.View()
    requires At(ledger, scan, Loop([], map[], 0, false, false), {}) == Begun(begun)
    requires Conserved(ledger.env, start, ProgressOf(Begun(begun)))
    modifies ledger, scan
    ensures (failed, At(ledger, scan, loop, deferred)) == Passes(ledger.env, limits, Begun(begun), schedule, 0)
    ensures Conserved(ledger.env, start, Now(ledger, scan, loop, deferred))
    ensures loop.exhausted ==> Drained(ledger.env, Now(ledger, scan, loop, deferred))
    ensures 0 <= loop.sent <= limits.maxNewRequests && |ledger.store.attempts| == |start.attempts| + loop.sent
    ensures |loop.inflight| <= limits.concurrency
    ensures failed.Some? && HonestThroughout(ledger.env, schedule) ==> failed.value in POLICY_REFUSALS
    ensures failed.None? && loop.Working() ==>
      GenerousTicks(schedule, |start.attempts| + limits.maxNewRequests) + Potential(limits.maxNewRequests, loop)
      <= 4 * limits.maxNewRequests + 2
  {
    hide Conserved, Drained, Honest, Generous, PassStep, Passes;
    loop, deferred, failed := Loop([], map[], 0, false, false), {}, None;
    ghost var last := |ledger.store.attempts| + limits.maxNewRequests;
    var k := 0;
    while loop.Working() && k < |schedule|
      invariant failed.None? && k <= |schedule|
      invariant Conserved(ledger.env, start, Now(ledger, scan, loop, deferred))
      invariant loop.exhausted ==> Drained(ledger.env, Now(ledger, scan, loop, deferred))
      invariant 0 <= loop.sent <= limits.maxNewRequests && |ledger.store.attempts| == |start.attempts| + loop.sent
      invariant |loop.inflight| <= limits.concurrency
      invariant GenerousTicks(schedule[..k], last) + Potential(limits.maxNewRequests, loop)
                <= 4 * limits.maxNewRequests + 2
      invariant Passes(ledger.env, limits, At(ledger, scan, loop, deferred), schedule, k) ==
                Passes(ledger.env, limits, Begun(begun), schedule, 0)
      decreases |schedule| - k
    {
      TakeNext(schedule, k);
      PassesStep(ledger.env, limits, At(ledger, scan, loop, deferred), schedule, k);
      failed, loop, deferred := Pass(ledger, scan, limits, loop, schedule[k], last, start, deferred);
      if failed.Some? { return; }
      k := k + 1;
    }
    PassesStep(ledger.env, limits, At(ledger, scan, loop, deferred), schedule, k);
    if loop.Working() { assert schedule[..k] == schedule; }
  }

  /** One run of the worker over a schedule of passes. It is the specified run. Wherever it ends, every member is in
      exactly one place, no member was reserved more than twice, and no more than the allowed number of calls was
      started. With an honest provider only the caps, the try limit and the input limits can raise; duplicates never
      can. A schedule with more generous passes than four times the call limit and two is never exhausted. The run seals
      exactly when all members are completed; unfinished it has settled all members, or else stopped, and it stops only
      at the call limit or for a failure that is no input limit. */
  method Run(ledger: Ledger, limits: Limits, schedule: seq<Tick>)
      returns (r: RunResult, ghost end: State)
    requires ledger.Valid() && ledger.env.Valid() && PackRows(ledger.env, ledger.store)
    modifies ledger
    ensures (r, end) == RunSpec(ledger.env, limits, old(ledger.View()), schedule) && end.session == ledger.View()
    ensures Conserved(ledger.env, old(ledger.store), ProgressOf(end))
    ensures ledger.Valid() && PackRows(ledger.env, ledger.store) && Grows(old(ledger.store), ledger.store)
    ensures Disjoint(old(ledger.store)) ==> Disjoint(ledger.store)
    ensures limits.Valid(ledger.env.spec) ==>
      |ledger.store.attempts| <= old(|ledger.store.attempts|) + limits.maxNewRequests
    ensures limits.Valid(ledger.env.spec) ==> |end.loop.inflight| <= limits.concurrency
    ensures !limits.Valid(ledger.env.spec) ==> r == Raised(InvalidLimits) && ledger.store == old(ledger.store)
    ensures limits.Valid(ledger.env.spec) <==>
      && 1 <= limits.concurrency <= 8 && 1 <= limits.requestsPerMinute <= 600 && 1 <= limits.maxNewRequests
      && (limits.maxNewRequests <= 10 || limits.maxNewRequests <= |ledger.env.pack.members|)
    ensures limits.Valid(ledger.env.spec) && r.Raised? && HonestThroughout(ledger.env, schedule) ==>
      r.error in POLICY_REFUSALS
    ensures r.Interrupted? ==>
      GenerousTicks(schedule, old(|ledger.store.attempts|) + limits.maxNewRequests)
      + Potential(limits.maxNewRequests, end.loop) <= 4 * limits.maxNewRequests + 2
    ensures r.SealedWith? || r.Unfinished? ==>
      end.loop.inflight == map[] && (end.loop.stopped || Drained(ledger.env, ProgressOf(end)))
    ensures r.SealedWith? ==>
      && |ledger.store.completions| == |ledger.env.pack.members|
      && ledger.sealed == Some(r.report) && LedgerModel.Verify(ledger.env, ledger.store) == Success(r.report)
    ensures r.Unfinished? ==> |ledger.store.completions| != |ledger.env.pack.members|
    ensures r.Unfinished? && !end.loop.stopped ==>
      forall n: Seqno :: n <= |ledger.env.pack.members| ==> Settled(ledger.store, n)
    ensures r.Unfinished? && end.loop.stopped ==>
      |ledger.store.attempts| == old(|ledger.store.attempts|) + limits.maxNewRequests
      || SomeFailed(old(ledger.store), ledger.store)
    ensures !r.Raised? ==> forall n :: n in end.deferred ==> GivenUp(old(ledger.store), ledger.store, n)
  {
    hide Conserved, Drained, Grows, Reachable, PackRows, Env.Valid, ScanSound, LedgerModel.Seal, LedgerModel.Verify,
      HonestThroughout, GenerousTicks, Passes, Explained, Disjoint, Settled, SomeFailed, GivenUp;
    LimitsMean(ledger.env, limits);
    ghost var start := ledger.store;
    ghost var begun := ledger.View();
    var scan := new PendingScan(ledger, limits.maxBatchInputs);
    StartConserved(ledger.env, begun);
    end := Begun(begun);
    RunFacts(ledger.env, start, end);
    if !limits.Valid(ledger.env.spec) { return Raised(InvalidLimits), end; }
    var failed, loop;
    ghost var deferred;
    failed, loop, deferred := RunPasses(ledger, scan, limits, schedule, start, begun);
    end := At(ledger, scan, loop, deferred);
    RunFacts(ledger.env, start, end);
    if failed.Some? { return Raised(failed.value), end; }
    if loop.Working() {
      RunExplained(ledger.env, limits, begun, schedule);
      ExplainedFacts(start, limits.maxNewRequests, end);
      return Interrupted, end;
    }
    SealOutcome(ledger.env, ledger.View());
    SealMoves(ledger.env, start, ProgressOf(end));
    RunExplained(ledger.env, limits, begun, schedule);
    if |ledger.store.completions| == ledger.env.spec.report.members {
      ghost var unsealed := ProgressOf(end);
      var report := ledger.Seal();
      end := At(ledger, scan, loop, deferred);
      RunFacts(ledger.env, start, end);
      if loop.exhausted { DrainedStays(ledger.env, unsealed, ProgressOf(end)); }
      r := SealedWith(report.value);
    } else {
      r := Unfinished;
    }
    ExplainedFacts(start, limits.maxNewRequests, end);
    if r.Unfinished? && !loop.stopped { NothingLeft(ledger.env, start, ProgressOf(end)); }
  }

  lemma LimitsMean(env: Env, limits: Limits)
    requires env.Valid()
    ensures limits.Valid(env.spec) <==>
      && 1 <= limits.concurrency <= 8 && 1 <= limits.requestsPerMinute <= 600 && 1 <= limits.maxNewRequests
      && (limits.maxNewRequests <= 10 || limits.maxNewRequests <= |env.pack.members|)
  {
  }

  lemma RunFacts(env: Env, start: Store, st: State)
    requires Conserved(env, start, ProgressOf(st))
    ensures env.Valid() && Reachable(env, st.session) && PackRows(env, st.session.store)
    ensures Grows(start, st.session.store) && (Disjoint(start) ==> Disjoint(st.session.store))
  {
    hide Conserved, Reachable, PackRows, Grows, Disjoint;
    ConservedFacts(env, start, ProgressOf(st));
    ConservedDisjoint(env, start, ProgressOf(st));
  }

  ghost function EnvOf(pack: Pack, contract: Contract, packSha: string): Env {
    Env(pack, contract, Spec(packSha, pack.sealed.GetOr(PackReport(0, 0, 0, 0, false))))
  }

  /** A new ledger is in order and has no rows; opening the file of one in order gives that one back. */
  lemma OpensInOrder(env: Env, packSha: string, s: Session)
    requires env.spec == Spec(packSha, env.pack.sealed.GetOr(PackReport(0, 0, 0, 0, false)))
    requires LedgerModel.Open(env, packSha, None, true).Success?
    ensures var created := LedgerModel.Open(env, packSha, None, true).value;
            Reachable(env, created) && PackRows(env, created.store) && Disjoint(created.store)
    ensures Reachable(env, s) ==> LedgerModel.Open(env, packSha, Some(s.store), false) == Success(s)
  {
    ReopenRestores(env, packSha, []);
  }

  /** The worker started again and again on one file, whatever becomes of each run: no member is ever both completed
      and rejected. */
  method Runs(pack: Pack, contract: Contract, packSha: string, jobs: seq<(Limits, seq<Tick>)>)
      returns (r: Result<Ledger, Error>)
    requires EnvOf(pack, contract, packSha).Valid()
    ensures r.Success? <==> LedgerModel.Open(EnvOf(pack, contract, packSha), packSha, None, true).Success?
    ensures r.Success? ==> r.value.env == EnvOf(pack, contract, packSha) && fresh(r.value) && r.value.Valid()
    ensures r.Success? ==> PackRows(r.value.env, r.value.store) && Disjoint(r.value.store)
  {
    hide LedgerModel.Open, Reachable, PackRows, Disjoint, RunSpec, Conserved, Drained, HonestThroughout, SomeFailed,
      GivenUp, Settled;
    ghost var env := EnvOf(pack, contract, packSha);
    r := Ledger.Open(pack, contract, packSha, None, true);
    if r.Failure? { return; }
    OpensInOrder(env, packSha, r.value.View());
    for i := 0 to |jobs|
      invariant r.Success? && fresh(r.value) && r.value.env == env && r.value.Valid()
      invariant PackRows(env, r.value.store) && Disjoint(r.value.store)
    {
      OpensInOrder(env, packSha, r.value.View());
      r := Ledger.Open(pack, contract, packSha, Some(r.value.store), false);
      ghost var end;
      var outcome;
      outcome, end := Run(r.value, jobs[i].0, jobs[i].1);
    }
  }

  lemma ConservedDisjoint(env: Env, start: Store, p: Progress)
    requires Conserved(env, start, p)
    ensures Disjoint(start) ==> Disjoint(p.session.store)
  {
    hide Reachable, PackRows, Grows, Disjoint, ListsSound;
  }

  lemma ExplainedFacts(start: Store, limit: int, st: State)
    requires Explained(start, limit, st)
    ensures !st.loop.stopped ==> st.deferred == {}
    ensures st.loop.stopped ==> st.loop.sent >= limit || SomeFailed(start, st.session.store)
    ensures forall n :: n in st.deferred ==> GivenUp(start, st.session.store, n)
  {
    hide GivenUp, SomeFailed;
  }
}
