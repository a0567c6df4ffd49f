/** What every history of ledger operations, crashes and reopenings keeps. */
module LedgerHistory {
  import opened Wrappers
  import opened LedgerModel
  import opened Sequences

  /** One committed operation of a process, or a crash followed by a reopening of the file. A crash
      inside an operation leaves the file as it was before or as it is after the operation. */
  datatype Event =
    | EReserve(batch: seq<Item>)
    | EFinish(id: nat, items: seq<Item>, answers: Answers)
    | EFail(failed: nat, code: Code)
    | ESeal
    | EReopen

  ghost function After(env: Env, s: Session, e: Event): Session {
    match e
    case EReserve(batch) => Reserve(env, s, batch).0
    case EFinish(id, items, answers) => Finish(env, s, id, items, answers).0
    case EFail(id, code) => Fail(s, id, code).0
    case ESeal => Seal(env, s).0
    case EReopen => Session(s.store, Spent(s.store.attempts), s.store.report)
  }

  ghost function AfterAll(env: Env, s: Session, events: seq<Event>): Session {
    if events == [] then s else After(env, AfterAll(env, s, events[..|events| - 1]), events[|events| - 1])
  }

  // ---------- the invariant ----------

  ghost predicate AttemptsSound(spec: Spec, attempts: seq<Attempt>) {
    && WithinCaps(spec, Spent(attempts))
    && (forall i :: 0 <= i < |attempts| ==> Distinct(attempts[i].seqs))
  }

  /** The try counter of a member is the number of attempts that list it, at most three. */
  ghost predicate TriesSound(attempts: seq<Attempt>, tries: map<Seqno, nat>) {
    forall n: Seqno ::
      TimesTried(attempts, n) == (if n in tries then tries[n] else 0) <= MAX_TRIES && (n in tries ==> 1 <= tries[n])
  }

  ghost predicate OutcomeHonoured(attempts: seq<Attempt>, completions: map<Seqno, Completion>,
      rejections: map<Seqno, nat>, id: nat, code: Code)
  {
    && 1 <= id <= |attempts|
    && (code == Complete ==> forall n :: n in attempts[id - 1].seqs ==>
         n in completions && completions[n].attempt == id)
    && (code == InputTooLong && |attempts[id - 1].seqs| == 1 ==> attempts[id - 1].seqs[0] in rejections)
  }

  /** An attempt's one outcome is what the other tables show of it. */
  ghost predicate OutcomesSound(attempts: seq<Attempt>, outcomes: map<nat, Code>, completions: map<Seqno, Completion>,
                                rejections: map<Seqno, nat>)
  {
    forall id :: id in outcomes ==> OutcomeHonoured(attempts, completions, rejections, id, outcomes[id])
  }

  ghost predicate CompletedBy(attempts: seq<Attempt>, outcomes: map<nat, Code>, n: Seqno, id: nat) {
    1 <= id <= |attempts| && n in attempts[id - 1].seqs && id in outcomes && outcomes[id] == Complete
  }

  /** Every completion belongs to an attempt that lists the member and was completed. */
  ghost predicate CompletionsSound(attempts: seq<Attempt>, outcomes: map<nat, Code>,
      completions: map<Seqno, Completion>)
  {
    forall n :: n in completions ==> CompletedBy(attempts, outcomes, n, completions[n].attempt)
  }

  ghost predicate UniqueIds(completions: map<Seqno, Completion>) {
    forall m, n :: m in completions && n in completions && m != n ==> completions[m].id != completions[n].id
  }

  ghost predicate RejectedBy(attempts: seq<Attempt>, outcomes: map<nat, Code>, n: Seqno, id: nat) {
    1 <= id <= |attempts| && attempts[id - 1].seqs == [n] && id in outcomes && outcomes[id] == InputTooLong
  }

  /** Every rejection belongs to an attempt of that member alone that was answered as too long. */
  ghost predicate RejectionsSound(attempts: seq<Attempt>, outcomes: map<nat, Code>, rejections: map<Seqno, nat>) {
    forall n :: n in rejections ==> RejectedBy(attempts, outcomes, n, rejections[n])
  }

  /** The tables agree with each other. */
  ghost predicate TablesSound(spec: Spec, store: Store) {
    && AttemptsSound(spec, store.attempts)
    && TriesSound(store.attempts, store.tries)
    && OutcomesSound(store.attempts, store.outcomes, store.completions, store.rejections)
    && CompletionsSound(store.attempts, store.outcomes, store.completions)
    && UniqueIds(store.completions)
    && RejectionsSound(store.attempts, store.outcomes, store.rejections)
  }

  ghost predicate Sound(env: Env, store: Store) {
    && store.spec == Some(env.spec)
    && TablesSound(env.spec, store)
    && (store.report.Some? ==> Verify(env, store) == Success(store.report.value))
  }

  /** A process's own budget and seal are those of the file. */
  ghost predicate InStep(s: Session) {
    s.budget == Spent(s.store.attempts) && s.sealed == s.store.report
  }

  ghost predicate Reachable(env: Env, s: Session) {
    Sound(env, s.store) && InStep(s)
  }

  /** Rows are only ever added. */
  ghost predicate Grows(before: Store, after: Store) {
    && before.spec == after.spec
    && (before.report.Some? ==> after.report == before.report)
    && before.attempts <= after.attempts
    && (forall id :: id in before.outcomes ==> id in after.outcomes && after.outcomes[id] == before.outcomes[id])
    && (forall n :: n in before.completions ==> n in after.completions && after.completions[n] == before.completions[n])
    && (forall n :: n in before.rejections ==> n in after.rejections && after.rejections[n] == before.rejections[n])
  }

  // ---------- reserve ----------

  lemma SeqsFront(batch: seq<Item>)
    requires batch != []
    ensures Seqs(batch) == Seqs(batch[..|batch| - 1]) + [batch[|batch| - 1].seqno]
    ensures Distinct(Seqs(batch)) ==> Distinct(Seqs(batch[..|batch| - 1]))
    ensures Distinct(Seqs(batch)) ==> batch[|batch| - 1].seqno !in Seqs(batch[..|batch| - 1])
  {
    var k := |batch| - 1;
    var front := Seqs(batch[..k]);
    assert Seqs(batch) == front + [batch[k].seqno];
    assert forall i :: 0 <= i < |front| ==> front[i] == Seqs(batch)[i];
    assert Seqs(batch)[k] == batch[k].seqno;
  }

  lemma {:induction false} TriedCounts(tries: map<Seqno, nat>, batch: seq<Item>, n: Seqno)
    requires Distinct(Seqs(batch))
    ensures n in Tried(tries, batch) <==> n in tries || n in Seqs(batch)
    ensures n in Tried(tries, batch) ==>
      Tried(tries, batch)[n] == (if n in tries then tries[n] else 0) + (if n in Seqs(batch) then 1 else 0)
  {
    if batch != [] {
      SeqsFront(batch);
      TriedCounts(tries, batch[..|batch| - 1], n);
    }
  }

  ghost predicate MayTry(store: Store, n: Seqno) {
    n !in store.completions && TriesOf(store, n) < MAX_TRIES
  }

  lemma {:induction false} NoObstacle(store: Store, batch: seq<Item>)
    ensures FirstObstacle(store, batch).None? <==> forall n :: n in Seqs(batch) ==> MayTry(store, n)
  {
    if batch != [] {
      var front, last := batch[..|batch| - 1], batch[|batch| - 1].seqno;
      NoObstacle(store, front);
      SeqsFront(batch);
      assert forall n :: n in Seqs(batch) <==> n in Seqs(front) || n == last;
      assert FirstObstacle(store, batch).None? <==> FirstObstacle(store, front).None? && MayTry(store, last);
    } else {
      assert Seqs(batch) == [];
    }
  }

  lemma ReserveKeeps(env: Env, s: Session, batch: seq<Item>)
    requires Reachable(env, s) && Reserve(env, s, batch).1.Success?
    ensures Reachable(env, Reserve(env, s, batch).0) && Grows(s.store, Reserve(env, s, batch).0.store)
  {
    var store, after := s.store, Reserve(env, s, batch).0.store;
    var attempt := Attempt(Seqs(batch), Inputs(batch), Characters(batch), Tokens(batch));
    assert after.attempts == store.attempts + [attempt];
    assert after.attempts[..|store.attempts|] == store.attempts;
    NoObstacle(store, batch);
    TriesGrow(store, batch, attempt);
    AttemptsGrow(store, attempt);
  }

  lemma TriesGrow(store: Store, batch: seq<Item>, attempt: Attempt)
    requires TriesSound(store.attempts, store.tries) && attempt.seqs == Seqs(batch) && Distinct(Seqs(batch))
    requires forall n :: n in Seqs(batch) ==> MayTry(store, n)
    ensures TriesSound(store.attempts + [attempt], Tried(store.tries, batch))
  {
    var after := store.attempts + [attempt];
    assert after[..|store.attempts|] == store.attempts;
    forall n: Seqno
      ensures TimesTried(after, n) ==
        (if n in Tried(store.tries, batch) then Tried(store.tries, batch)[n] else 0) <= MAX_TRIES
      ensures n in Tried(store.tries, batch) ==> 1 <= Tried(store.tries, batch)[n]
    {
      TriedCounts(store.tries, batch, n);
      assert TimesTried(store.attempts, n) == TriesOf(store, n);
    }
  }

  lemma AttemptsGrow(store: Store, attempt: Attempt)
    ensures OutcomesSound(store.attempts, store.outcomes, store.completions, store.rejections) ==>
      OutcomesSound(store.attempts + [attempt], store.outcomes, store.completions, store.rejections)
    ensures CompletionsSound(store.attempts, store.outcomes, store.completions) ==>
      CompletionsSound(store.attempts + [attempt], store.outcomes, store.completions)
    ensures RejectionsSound(store.attempts, store.outcomes, store.rejections) ==>
      RejectionsSound(store.attempts + [attempt], store.outcomes, store.rejections)
  {
    var after := store.attempts + [attempt];
    assert forall i :: 0 <= i < |store.attempts| ==> after[i] == store.attempts[i];
    if OutcomesSound(store.attempts, store.outcomes, store.completions, store.rejections) {
      forall id | id in store.outcomes
        ensures OutcomeHonoured(after, store.completions, store.rejections, id, store.outcomes[id])
      {
        assert OutcomeHonoured(store.attempts, store.completions, store.rejections, id, store.outcomes[id]);
      }
    }
    if CompletionsSound(store.attempts, store.outcomes, store.completions) {
      forall n | n in store.completions ensures CompletedBy(after, store.outcomes, n, store.completions[n].attempt) {
        assert CompletedBy(store.attempts, store.outcomes, n, store.completions[n].attempt);
      }
    }
    if RejectionsSound(store.attempts, store.outcomes, store.rejections) {
      forall n | n in store.rejections ensures RejectedBy(after, store.outcomes, n, store.rejections[n]) {
        assert RejectedBy(store.attempts, store.outcomes, n, store.rejections[n]);
      }
    }
  }

  // ---------- finish ----------

  ghost predicate RowsAdded(c: Contract, id: nat, completions: map<Seqno, Completion>, batch: seq<Item>,
      answers: Answers,
                            rows: map<Seqno, Completion>)
    requires |batch| == |answers|
  {
    && (forall n: Seqno :: n in rows <==> n in completions || n in Seqs(batch))
    && (forall n :: n in completions ==> n !in Seqs(batch) && rows[n] == completions[n])
    && (forall i :: 0 <= i < |batch| ==>
         batch[i].seqno in rows && rows[batch[i].seqno] == CompletionOf(c, id, batch[i], answers[i]))
  }

  lemma {:induction false} InsertedRows(c: Contract, id: nat, completions: map<Seqno, Completion>, batch: seq<Item>,
      answers: Answers)
    requires |batch| == |answers| && Inserted(c, id, completions, batch, answers).Some?
    ensures RowsAdded(c, id, completions, batch, answers, Inserted(c, id, completions, batch, answers).value)
  {
    if batch != [] {
      var k := |batch| - 1;
      InsertedRows(c, id, completions, batch[..k], answers[..k]);
      SeqsFront(batch);
      RowAdded(c, id, completions, batch, answers, Inserted(c, id, completions, batch[..k], answers[..k]).value);
    }
  }

  lemma RowAdded(c: Contract, id: nat, completions: map<Seqno, Completion>, batch: seq<Item>, answers: Answers,
                 earlier: map<Seqno, Completion>)
    requires |batch| == |answers| > 0
    requires RowsAdded(c, id, completions, batch[..|batch| - 1], answers[..|batch| - 1], earlier)
    requires batch[|batch| - 1].seqno !in earlier
    ensures RowsAdded(c, id, completions, batch, answers,
                      earlier[batch[|batch| - 1].seqno := CompletionOf(c, id, batch[|batch| - 1],
                        answers[|batch| - 1])])
  {
    var k := |batch| - 1;
    SeqsFront(batch);
    assert forall n :: n in Seqs(batch) <==> n in Seqs(batch[..k]) || n == batch[k].seqno;
    forall i | 0 <= i < k
      ensures batch[i].seqno in earlier && earlier[batch[i].seqno] == CompletionOf(c, id, batch[i], answers[i])
    {
      assert batch[..k][i].seqno in earlier;
    }
  }

  lemma {:induction false} InsertedUnique(c: Contract, id: nat, completions: map<Seqno, Completion>, batch: seq<Item>,
      answers: Answers)
    requires |batch| == |answers| && Inserted(c, id, completions, batch, answers).Some? && UniqueIds(completions)
    ensures UniqueIds(Inserted(c, id, completions, batch, answers).value)
  {
    if batch != [] {
      var k := |batch| - 1;
      InsertedUnique(c, id, completions, batch[..k], answers[..k]);
    }
  }

  lemma FinishTables(c: Contract, store: Store, after: Store, id: nat, batch: seq<Item>, answers: Answers)
    requires 1 <= id <= |store.attempts| && id !in store.outcomes && |batch| == |answers|
    requires store.attempts[id - 1].seqs == Seqs(batch)
    requires RowsAdded(c, id, store.completions, batch, answers, after.completions)
    requires after.attempts == store.attempts && after.outcomes == store.outcomes[id := Complete]
    requires after.rejections == store.rejections
    requires OutcomesSound(store.attempts, store.outcomes, store.completions, store.rejections)
    requires CompletionsSound(store.attempts, store.outcomes, store.completions)
    requires RejectionsSound(store.attempts, store.outcomes, store.rejections)
    ensures OutcomesSound(after.attempts, after.outcomes, after.completions, after.rejections)
    ensures CompletionsSound(after.attempts, after.outcomes, after.completions)
    ensures RejectionsSound(after.attempts, after.outcomes, after.rejections)
  {
    forall n | n in Seqs(batch) ensures n in after.completions && after.completions[n].attempt == id {
      var i :| 0 <= i < |batch| && Seqs(batch)[i] == n;
      assert after.completions[batch[i].seqno] == CompletionOf(c, id, batch[i], answers[i]);
    }
    forall k | k in after.outcomes
      ensures OutcomeHonoured(after.attempts, after.completions, after.rejections, k, after.outcomes[k])
    {
      if k != id { assert OutcomeHonoured(store.attempts, store.completions, store.rejections, k, store.outcomes[k]); }
    }
    forall n | n in after.completions
      ensures CompletedBy(after.attempts, after.outcomes, n, after.completions[n].attempt)
    {
      if n in store.completions { assert CompletedBy(store.attempts, store.outcomes, n, store.completions[n].attempt); }
    }
    forall n | n in after.rejections ensures RejectedBy(after.attempts, after.outcomes, n, after.rejections[n]) {
      assert RejectedBy(store.attempts, store.outcomes, n, store.rejections[n]);
    }
  }

  lemma FinishKeeps(env: Env, s: Session, id: nat, batch: seq<Item>, answers: Answers)
    requires Reachable(env, s) && Finish(env, s, id, batch, answers).1.None?
    ensures Reachable(env, Finish(env, s, id, batch, answers).0)
    ensures Grows(s.store, Finish(env, s, id, batch, answers).0.store)
  {
    var store, after := s.store, Finish(env, s, id, batch, answers).0.store;
    InsertedRows(env.contract, id, store.completions, batch, answers);
    InsertedUnique(env.contract, id, store.completions, batch, answers);
    FinishTables(env.contract, store, after, id, batch, answers);
  }

  // ---------- fail ----------

  lemma FailKeeps(env: Env, s: Session, id: nat, code: Code)
    requires Reachable(env, s) && Fail(s, id, code).1.None?
    ensures Reachable(env, Fail(s, id, code).0) && Grows(s.store, Fail(s, id, code).0.store)
  {
    var store, after := s.store, Fail(s, id, code).0.store;
    FailTables(store, after, id, code);
    if store.report.Some? { VerifyFrozen(env, store, after); }
  }

  lemma FailTables(store: Store, after: Store, id: nat, code: Code)
    requires 1 <= id <= |store.attempts| && id !in store.outcomes && code != Complete
    requires var seqs := store.attempts[id - 1].seqs;
      if code == InputTooLong && |seqs| == 1
      then seqs[0] !in store.rejections &&
           after == store.(outcomes := store.outcomes[id := code], rejections := store.rejections[seqs[0] := id])
      else after == store.(outcomes := store.outcomes[id := code])
    requires OutcomesSound(store.attempts, store.outcomes, store.completions, store.rejections)
    requires CompletionsSound(store.attempts, store.outcomes, store.completions)
    requires RejectionsSound(store.attempts, store.outcomes, store.rejections)
    ensures OutcomesSound(after.attempts, after.outcomes, after.completions, after.rejections)
    ensures CompletionsSound(after.attempts, after.outcomes, after.completions)
    ensures RejectionsSound(after.attempts, after.outcomes, after.rejections)
  {
    FailOutcomes(store, after, id, code);
    forall n | n in after.completions
      ensures CompletedBy(after.attempts, after.outcomes, n, after.completions[n].attempt)
    {
      assert CompletedBy(store.attempts, store.outcomes, n, store.completions[n].attempt);
    }
    forall n | n in after.rejections ensures RejectedBy(after.attempts, after.outcomes, n, after.rejections[n]) {
      if n in store.rejections { assert RejectedBy(store.attempts, store.outcomes, n, store.rejections[n]); }
    }
  }

  lemma FailOutcomes(store: Store, after: Store, id: nat, code: Code)
    requires 1 <= id <= |store.attempts| && code != Complete
    requires after.attempts == store.attempts && after.completions == store.completions
    requires after.outcomes == store.outcomes[id := code]
    requires var seqs := store.attempts[id - 1].seqs;
      after.rejections == if code == InputTooLong && |seqs| == 1 then store.rejections[seqs[0] := id]
        else store.rejections
    requires OutcomesSound(store.attempts, store.outcomes, store.completions, store.rejections)
    ensures OutcomesSound(after.attempts, after.outcomes, after.completions, after.rejections)
  {
    forall k | k in after.outcomes
      ensures OutcomeHonoured(after.attempts, after.completions, after.rejections, k, after.outcomes[k])
    {
      if k != id { assert OutcomeHonoured(store.attempts, store.completions, store.rejections, k, store.outcomes[k]); }
    }
  }

  /** Verification reads only completions, their attempts and their attempts' outcomes. */
  lemma VerifyFrozen(env: Env, store: Store, after: Store)
    requires Grows(store, after) && store.completions == after.completions
    requires CompletionsSound(store.attempts, store.outcomes, store.completions)
    ensures Verify(env, after) == Verify(env, store)
  {
    var count := |store.completions|;
    RowErrorsFrozen(env, store, after, count);
    if FirstRowError(env, store, count).None? {
      NoRowError(env, store, count);
      ManifestFrozen(store, after, count);
    }
  }

  lemma {:induction false} RowErrorsFrozen(env: Env, store: Store, after: Store, count: nat)
    requires Grows(store, after) && store.completions == after.completions
    requires CompletionsSound(store.attempts, store.outcomes, store.completions)
    ensures FirstRowError(env, after, count) == FirstRowError(env, store, count)
  {
    if count > 0 {
      RowErrorsFrozen(env, store, after, count - 1);
      if count in store.completions {
        assert CompletedBy(store.attempts, store.outcomes, count, store.completions[count].attempt);
      }
      assert RowError(env, after, count) == RowError(env, store, count);
    }
  }

  lemma {:induction false} ManifestFrozen(store: Store, after: Store, count: nat)
    requires store.completions == after.completions
    requires forall n: Seqno :: n <= count ==> n in store.completions
    ensures Manifest(after, count) == Manifest(store, count)
  {
    if count > 0 { ManifestFrozen(store, after, count - 1); }
  }

  // ---------- seal ----------

  lemma SealKeeps(env: Env, s: Session)
    requires Reachable(env, s)
    ensures Reachable(env, Seal(env, s).0) && Grows(s.store, Seal(env, s).0.store)
    ensures Seal(env, s).1 == Verify(env, s.store)
  {
    var after := Seal(env, s).0.store;
    assert Grows(s.store, after);
    VerifyFrozen(env, s.store, after);
  }

  // ---------- histories ----------

  lemma EventKeeps(env: Env, s: Session, e: Event)
    requires Reachable(env, s)
    ensures Reachable(env, After(env, s, e)) && Grows(s.store, After(env, s, e).store)
  {
    assert Grows(s.store, s.store);
    match e
    case EReserve(batch) =>
      if Reserve(env, s, batch).1.Success? { ReserveKeeps(env, s, batch); } else { assert After(env, s, e) == s; }
    case EFinish(id, items, answers) =>
      if Finish(env, s, id, items, answers).1.None? { FinishKeeps(env, s, id, items, answers); } else {
        assert After(env, s, e) == s;
      }
    case EFail(id, code) =>
      if Fail(s, id, code).1.None? { FailKeeps(env, s, id, code); } else { assert After(env, s, e) == s; }
    case ESeal => SealKeeps(env, s);
    case EReopen => assert After(env, s, e) == s;
  }

  /** Every history keeps the invariant, and every row it has written stays as it was written. */
  lemma {:induction false} HistoryKeeps(env: Env, s: Session, events: seq<Event>)
    requires Reachable(env, s)
    ensures Reachable(env, AfterAll(env, s, events)) && Grows(s.store, AfterAll(env, s, events).store)
  {
    if events != [] {
      var front := events[..|events| - 1];
      HistoryKeeps(env, s, front);
      EventKeeps(env, AfterAll(env, s, front), events[|events| - 1]);
    }
  }

  /** A newly created ledger satisfies the invariant, and reopening the file of any later session
      gives back that very session: a crash loses and refunds nothing. */
  lemma {:induction false} ReopenRestores(env: Env, packSha: string, events: seq<Event>)
    requires env.spec == Spec(packSha, env.pack.sealed.GetOr(PackReport(0, 0, 0, 0, false)))
    requires Open(env, packSha, None, true).Success?
    ensures var s := AfterAll(env, Open(env, packSha, None, true).value, events);
      Reachable(env, s) && Open(env, packSha, Some(s.store), false) == Success(s)
  {
    var created := Open(env, packSha, None, true).value;
    HistoryKeeps(env, created, events);
  }

  /** Once sealed, every later history leaves verification returning the stored report. */
  lemma {:induction false} SealedForever(env: Env, s: Session, events: seq<Event>)
    requires Reachable(env, s) && s.sealed.Some?
    ensures var later := AfterAll(env, s, events);
      && later.sealed == s.sealed && later.store.report == s.sealed
      && later.store.completions == s.store.completions && later.store.attempts == s.store.attempts
      && later.budget == s.budget
      && Verify(env, later.store) == Success(s.sealed.value)
      && Seal(env, later) == (later, Success(s.sealed.value))
  {
    if events != [] {
      var front := events[..|events| - 1];
      SealedForever(env, s, front);
      HistoryKeeps(env, s, front);
      SealedStep(env, AfterAll(env, s, front), events[|events| - 1]);
    }
    HistoryKeeps(env, s, events);
    SealKeeps(env, AfterAll(env, s, events));
  }

  lemma SealedStep(env: Env, s: Session, e: Event)
    requires Reachable(env, s) && s.sealed.Some?
    ensures var later := After(env, s, e);
      && later.sealed == s.sealed && later.budget == s.budget
      && later.store.completions == s.store.completions && later.store.attempts == s.store.attempts
  {
    hide Verify, Sound, Inserted, FirstInvalid, FirstObstacle, InputsValid;
  }
}
