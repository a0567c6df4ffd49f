/** The ledger object of scripts/embed_legacy_index_pack.py. Its fields are the committed database
    content and the process's own budget and seal; each method commits at most once, at its end. */
module EmbeddingLedger {
  import opened Wrappers
  import opened LedgerModel
  import opened LedgerHistory
  import opened LedgerBinding
  import opened LedgerCost
  import opened Sequences

  lemma {:induction false} ObstacleStays(store: Store, batch: seq<Item>, i: nat)
    requires i <= |batch| && FirstObstacle(store, batch[..i]).Some?
    ensures FirstObstacle(store, batch) == FirstObstacle(store, batch[..i])
  {
    if i < |batch| {
      assert batch[..|batch| - 1][..i] == batch[..i];
      ObstacleStays(store, batch[..|batch| - 1], i);
    } else {
      assert batch[..i] == batch;
    }
  }

  lemma {:induction false} InvalidStays(c: Contract, batch: seq<Item>, answers: Answers, i: nat)
    requires i <= |batch| == |answers| && FirstInvalid(c, batch[..i], answers[..i]).Some?
    ensures FirstInvalid(c, batch, answers) == FirstInvalid(c, batch[..i], answers[..i])
  {
    var n := |batch| - 1;
    if i < |batch| {
      assert batch[..n][..i] == batch[..i] && answers[..n][..i] == answers[..i];
      InvalidStays(c, batch[..n], answers[..n], i);
    } else {
      assert batch[..i] == batch && answers[..i] == answers;
    }
  }

  lemma {:induction false} ConflictStays(c: Contract, id: nat, completions: map<Seqno, Completion>, batch: seq<Item>,
      answers: Answers, i: nat)
    requires i <= |batch| == |answers| && Inserted(c, id, completions, batch[..i], answers[..i]).None?
    ensures Inserted(c, id, completions, batch, answers).None?
  {
    var n := |batch| - 1;
    if i < |batch| {
      assert batch[..n][..i] == batch[..i] && answers[..n][..i] == answers[..i];
      ConflictStays(c, id, completions, batch[..n], answers[..n], i);
    } else {
      assert batch[..i] == batch && answers[..i] == answers;
    }
  }

  lemma {:induction false} RowErrorStays(env: Env, store: Store, i: nat, count: nat)
    requires i <= count && FirstRowError(env, store, i).Some?
    ensures FirstRowError(env, store, count) == FirstRowError(env, store, i)
  {
    if i < count { RowErrorStays(env, store, i, count - 1); }
  }

  lemma TakeNext<T>(s: seq<T>, i: nat)
    requires i < |s|
    ensures s[..i + 1][..i] == s[..i] && |s[..i + 1]| == i + 1 && s[..i + 1][i] == s[i]
  {
  }

  class Ledger {
    const env: Env
    var store: Store
    var budget: Budget
    var sealed: Option<Report>

    ghost function View(): Session
      reads this
    {
      Session(store, budget, sealed)
    }

    ghost predicate Valid()
      reads this
    {
      Reachable(env, View())
    }

    constructor (env: Env, store: Store, budget: Budget)
      ensures this.env == env && View() == Session(store, budget, store.report)
    {
      this.env, this.store, this.budget, this.sealed := env, store, budget, store.report;
    }

    /** Opening a file, new or left by an earlier process: the budget is recomputed from every attempt. */
    static method Open(pack: Pack, contract: Contract, packSha: string, file: Option<Store>, create: bool)
        returns (r: Result<Ledger, Error>)
      ensures var env := Env(pack, contract, Spec(packSha, pack.sealed.GetOr(PackReport(0, 0, 0, 0, false))));
        match LedgerModel.Open(env, packSha, file, create)
        case Failure(e) => r == Failure(e)
        case Success(s) => r.Success? && fresh(r.value) && r.value.env == env && r.value.View() == s
    {
      if !pack.readonly || pack.sealed.None? { return Failure(UnsealedPack); }
      if pack.fileSha != packSha { return Failure(PackHashMismatch); }
      var report := pack.sealed.value;
      if report.inadmissible != 0 || !report.coverageComplete { return Failure(IncompleteInventory); }
      var spec := Spec(packSha, report);
      var store;
      if create {
        if file.Some? { return Failure(FileExists); }
        store := Store(Some(spec), None, [], map[], map[], map[], map[]);
      } else {
        if file.None? { return Failure(FileMissing); }
        store := file.value;
      }
      if store.spec != Some(spec) { return Failure(SpecChanged); }
      var budget := Budget(0, 0, 0);
      for i := 0 to |store.attempts|
        invariant budget == Spent(store.attempts[..i])
      {
        TakeNext(store.attempts, i);
        var attempt := store.attempts[i];
        budget := Budget(budget.characters + attempt.characters, budget.localTokens + attempt.localTokens,
          budget.requests + 1);
      }
      assert store.attempts[..|store.attempts|] == store.attempts;
      var ledger := new Ledger(Env(pack, contract, spec), store, budget);
      r := Success(ledger);
    }

    /** The per-member pass of a reservation: the raised counters, or the first obstacle. */
    method CountTries(batch: seq<Item>) returns (r: Result<map<Seqno, nat>, Error>)
      requires Distinct(Seqs(batch))
      ensures r == match FirstObstacle(store, batch)
                   case Some(e) => Failure(e)
                   case None => Success(Tried(store.tries, batch))
    {
      var tries := store.tries;
      for i := 0 to |batch|
        invariant tries == Tried(store.tries, batch[..i])
        invariant FirstObstacle(store, batch[..i]).None?
      {
        TakeNext(batch, i);
        var n := batch[i].seqno;
        assert Seqs(batch[..i]) == Seqs(batch)[..i];
        TriedCounts(store.tries, batch[..i], n);
        assert n !in Seqs(batch[..i]) by { assert Seqs(batch)[i] == n; }
        if n in store.completions {
          ObstacleStays(store, batch, i + 1);
          return Failure(AlreadyCompleted);
        }
        var tried := if n in tries then tries[n] else 0;
        if tried >= MAX_TRIES {
          ObstacleStays(store, batch, i + 1);
          return Failure(RetryLimit);
        }
        tries := tries[n := tried + 1];
      }
      assert batch[..|batch|] == batch;
      r := Success(tries);
    }

    /** Charges a batch and records its attempt, before any provider call. */
    method Reserve(batch: seq<Item>) returns (r: Result<nat, Error>)
      modifies this
      ensures (View(), r) == LedgerModel.Reserve(env, old(View()), batch)
      ensures r.Success? ==>
        && budget.characters == old(budget).characters + |AllText(batch)|
        && budget.localTokens == old(budget).localTokens + |AllTokens(batch)|
        && budget.requests == old(budget).requests + 1
        && |store.attempts| == |old(store).attempts| + 1 == r.value
        && var attempt := store.attempts[r.value - 1];
          && attempt.characters == |AllText(batch)| && attempt.localTokens == |AllTokens(batch)|
          && |attempt.seqs| == |batch| && forall i :: 0 <= i < |batch| ==> attempt.seqs[i] == batch[i].seqno
      ensures old(Valid()) ==> Valid() && Grows(old(store), store)
    {
      BatchCost(batch);
      if old(Valid()) && LedgerModel.Reserve(env, View(), batch).1.Success? { ReserveKeeps(env, View(), batch); }
      if sealed.Some? { return Failure(Sealed); }
      if !InputsValid(env.contract, batch) { return Failure(InvalidInputs); }
      var charged := Charged(budget, batch);
      if !WithinCaps(env.spec, charged) { return Failure(BudgetExhausted); }
      if !Distinct(Seqs(batch)) { return Failure(DuplicateInput); }
      var tries := CountTries(batch);
      if tries.Failure? { return Failure(tries.error); }
      var attempt := Attempt(Seqs(batch), Inputs(batch), Characters(batch), Tokens(batch));
      store := store.(attempts := store.attempts + [attempt], tries := tries.value);
      budget := charged;
      r := Success(|store.attempts|);
    }

    /** The rows of an answered batch, or the first answer that does not hold up. */
    method CheckedRows(id: nat, batch: seq<Item>, answers: Answers) returns (r: Result<seq<Completion>, Error>)
      requires |batch| == |answers|
      ensures match FirstInvalid(env.contract, batch, answers)
        case Some(e) => r == Failure(e)
        case None =>
          && r.Success? && |r.value| == |batch|
          && forall k :: 0 <= k < |batch| ==> r.value[k] == CompletionOf(env.contract, id, batch[k], answers[k])
    {
      var rows: seq<Completion> := [];
      for i := 0 to |batch|
        invariant FirstInvalid(env.contract, batch[..i], answers[..i]).None?
        invariant |rows| == i && forall k :: 0 <= k < i ==>
          rows[k] == CompletionOf(env.contract, id, batch[k], answers[k])
      {
        TakeNext(batch, i);
        TakeNext(answers, i);
        var (vector, receipt) := answers[i];
        if !ValidProvenance(env.contract, receipt, batch[i].text, vector) {
          InvalidStays(env.contract, batch, answers, i + 1);
          return Failure(InvalidProvenance);
        }
        if receipt.localCount != batch[i].tokens {
          InvalidStays(env.contract, batch, answers, i + 1);
          return Failure(LocalCountMismatch);
        }
        rows := rows + [Completion(batch[i].id, batch[i].partition, env.contract.single(vector), receipt, id)];
      }
      assert batch[..|batch|] == batch && answers[..|answers|] == answers;
      r := Success(rows);
    }

    /** The completion table with the rows inserted one by one, unless a key is violated. */
    method InsertRows(id: nat, batch: seq<Item>, answers: Answers, rows: seq<Completion>)
        returns (r: Option<map<Seqno, Completion>>)
      requires |batch| == |answers| == |rows|
      requires forall k :: 0 <= k < |batch| ==> rows[k] == CompletionOf(env.contract, id, batch[k], answers[k])
      ensures r == Inserted(env.contract, id, store.completions, batch, answers)
    {
      var completions := store.completions;
      for i := 0 to |batch|
        invariant Inserted(env.contract, id, store.completions, batch[..i], answers[..i]) == Some(completions)
      {
        TakeNext(batch, i);
        TakeNext(answers, i);
        if Conflicts(completions, batch[i]) {
          ConflictStays(env.contract, id, store.completions, batch, answers, i + 1);
          return None;
        }
        completions := completions[batch[i].seqno := rows[i]];
      }
      assert batch[..|batch|] == batch && answers[..|answers|] == answers;
      r := Some(completions);
    }

    /** Records every vector of an answered attempt together with its outcome, or nothing. */
    method Finish(id: nat, batch: seq<Item>, answers: Answers) returns (r: Option<Error>)
      modifies this
      ensures (View(), r) == LedgerModel.Finish(env, old(View()), id, batch, answers)
      ensures old(Valid()) ==> Valid() && Grows(old(store), store)
    {
      if old(Valid()) && LedgerModel.Finish(env, View(), id, batch, answers).1.None? {
        FinishKeeps(env, View(), id, batch, answers);
      }
      if sealed.Some? { return Some(Sealed); }
      if !(1 <= id <= |store.attempts|) { return Some(NoSuchAttempt); }
      var attempt := store.attempts[id - 1];
      if attempt.seqs != Seqs(batch) || attempt.inputs != Inputs(batch) { return Some(BindingMismatch); }
      if |answers| != |batch| { return Some(CountMismatch); }
      var rows := CheckedRows(id, batch, answers);
      if rows.Failure? { return Some(rows.error); }
      var completions := InsertRows(id, batch, answers, rows.value);
      if completions.None? { return Some(IntegrityViolation); }
      if id in store.outcomes { return Some(IntegrityViolation); }
      store := store.(completions := completions.value, outcomes := store.outcomes[id := Complete]);
      r := None;
    }

    /** Records a failed attempt; an input refused on its own becomes a rejection. */
    method Fail(id: nat, code: Code) returns (r: Option<Error>)
      modifies this
      ensures (View(), r) == LedgerModel.Fail(old(View()), id, code)
      ensures old(Valid()) ==> Valid() && Grows(old(store), store)
    {
      if old(Valid()) && LedgerModel.Fail(View(), id, code).1.None? { FailKeeps(env, View(), id, code); }
      if !code.IsFailure() { return Some(InvalidCode); }
      if !(1 <= id <= |store.attempts|) || id in store.outcomes { return Some(IntegrityViolation); }
      var outcomes, rejections := store.outcomes[id := code], store.rejections;
      if code == InputTooLong {
        var attempt := store.attempts[id - 1];
        if |attempt.seqs| == 1 {
          if attempt.seqs[0] in rejections { return Some(IntegrityViolation); }
          rejections := rejections[attempt.seqs[0] := id];
        }
      }
      store := store.(outcomes := outcomes, rejections := rejections);
      r := None;
    }

    /** One pass over the completions in member order. */
    method Verify() returns (r: Result<Report, Error>)
      ensures r == LedgerModel.Verify(env, store)
    {
      var total := |store.completions|;
      var lines: seq<Line>, tokens := [], 0;
      for count := 0 to total
        invariant FirstRowError(env, store, count).None?
        invariant forall n: Seqno :: n <= count ==> n in store.completions
        invariant lines == Manifest(store, count) && tokens == ProviderTokens(lines)
      {
        var wrong := RowError(env, store, count + 1);
        if wrong.Some? {
          RowErrorStays(env, store, count + 1, total);
          return Failure(wrong.value);
        }
        var line := Line(count + 1, store.completions[count + 1]);
        assert (lines + [line])[..|lines|] == lines;
        lines, tokens := lines + [line], tokens + line.completion.receipt.providerTokens;
      }
      if total != env.spec.report.members { return Failure(Incomplete); }
      r := Success(Report(env.spec.packSha, total, lines, tokens));
    }

    /** Stores the report once; a sealed ledger only confirms it. */
    method Seal() returns (r: Result<Report, Error>)
      modifies this
      ensures (View(), r) == LedgerModel.Seal(env, old(View()))
      ensures old(Valid()) ==> Valid() && Grows(old(store), store)
    {
      if old(Valid()) { SealKeeps(env, View()); }
      r := Verify();
      if r.Failure? { return; }
      if sealed.Some? {
        if sealed.value != r.value { r := Failure(SealedChanged); }
      } else if store.report.Some? {
        r := Failure(IntegrityViolation);
      } else {
        store, sealed := store.(report := Some(r.value)), Some(r.value);
      }
    }
  }
}
