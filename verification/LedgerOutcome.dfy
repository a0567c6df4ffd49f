/** Exactly when an answer or a failure is recorded, and what is written then. */
module LedgerOutcome {
  import opened Wrappers
  import opened Sequences
  import opened LedgerModel
  import opened LedgerHistory

  /** A receipt for this input and vector: its fixed fields, both hashes, and both token counts. */
  ghost predicate ReceiptFor(c: Contract, item: Item, answer: (Vector, Receipt)) {
    var receipt := answer.1;
    && receipt.closed && receipt.localCount == item.tokens && 1 <= item.tokens <= 1536
    && 1 <= receipt.providerTokens <= 2048
    && c.textSha(item.text) == Some(receipt.contentSha) && c.vectorSha(answer.0) == Some(receipt.vectorSha)
  }

  lemma {:induction false} NoneInvalidExactlyWhen(c: Contract, batch: seq<Item>, answers: Answers)
    requires |batch| == |answers|
    ensures FirstInvalid(c, batch, answers).None? <==>
      forall i :: 0 <= i < |batch| ==> ReceiptFor(c, batch[i], answers[i])
  {
    if batch != [] {
      var n := |batch| - 1;
      NoneInvalidExactlyWhen(c, batch[..n], answers[..n]);
      assert forall i :: 0 <= i < n ==> batch[..n][i] == batch[i] && answers[..n][i] == answers[i];
      assert FirstInvalid(c, batch, answers).None? <==>
        FirstInvalid(c, batch[..n], answers[..n]).None? && ReceiptFor(c, batch[n], answers[n]);
    }
  }

  /** Members that are not yet completed, under numbers and ids that no two of them and no completion share. */
  ghost predicate NewRows(completions: map<Seqno, Completion>, batch: seq<Item>) {
    && (forall i :: 0 <= i < |batch| ==> batch[i].seqno !in completions)
    && (forall i, n :: 0 <= i < |batch| && n in completions ==> completions[n].id != batch[i].id)
    && (forall i, j :: 0 <= i < j < |batch| ==> batch[i].seqno != batch[j].seqno && batch[i].id != batch[j].id)
  }

  lemma {:induction false} InsertedExactlyWhen(c: Contract, id: nat, completions: map<Seqno, Completion>,
                                               batch: seq<Item>, answers: Answers)
    requires |batch| == |answers|
    ensures Inserted(c, id, completions, batch, answers).Some? <==> NewRows(completions, batch)
  {
    if batch != [] {
      var n := |batch| - 1;
      var earlier := Inserted(c, id, completions, batch[..n], answers[..n]);
      InsertedExactlyWhen(c, id, completions, batch[..n], answers[..n]);
      NewRowsFront(completions, batch);
      if earlier.Some? {
        InsertedRows(c, id, completions, batch[..n], answers[..n]);
        LastConflicts(c, id, completions, batch, answers, earlier.value);
      }
    }
  }

  lemma NewRowsFront(completions: map<Seqno, Completion>, batch: seq<Item>)
    requires batch != []
    ensures var n := |batch| - 1;
      NewRows(completions, batch) <==>
      && NewRows(completions, batch[..n]) && !Conflicts(completions, batch[n])
      && forall i :: 0 <= i < n ==> batch[i].seqno != batch[n].seqno && batch[i].id != batch[n].id
  {
    var n := |batch| - 1;
    assert forall i :: 0 <= i < n ==> batch[..n][i] == batch[i];
  }

  lemma LastConflicts(c: Contract, id: nat, completions: map<Seqno, Completion>, batch: seq<Item>, answers: Answers,
                      earlier: map<Seqno, Completion>)
    requires |batch| == |answers| > 0
    requires RowsAdded(c, id, completions, batch[..|batch| - 1], answers[..|batch| - 1], earlier)
    ensures var n := |batch| - 1;
      Conflicts(earlier, batch[n]) <==>
      Conflicts(completions, batch[n]) ||
      exists i :: 0 <= i < n && (batch[i].seqno == batch[n].seqno || batch[i].id == batch[n].id)
  {
    var n := |batch| - 1;
    var item := batch[n];
    forall i | 0 <= i < n ensures batch[i].seqno in earlier && earlier[batch[i].seqno].id == batch[i].id {
      assert batch[..n][i] == batch[i];
    }
    if Conflicts(earlier, item) && !Conflicts(completions, item) {
      var m :| m in earlier && (m == item.seqno || earlier[m].id == item.id);
      assert m in Seqs(batch[..n]);
      var i :| 0 <= i < n && Seqs(batch[..n])[i] == m;
      assert batch[..n][i] == batch[i];
    }
  }

  /** The attempt was reserved for exactly these inputs. */
  ghost predicate ReservedFor(attempt: Attempt, batch: seq<Item>) {
    && |attempt.seqs| == |batch| == |attempt.inputs|
    && forall i :: 0 <= i < |batch| ==>
      attempt.seqs[i] == batch[i].seqno && attempt.inputs[i] == (batch[i].id, batch[i].contentSha)
  }

  lemma ReservedForMeans(attempt: Attempt, batch: seq<Item>)
    ensures ReservedFor(attempt, batch) <==> attempt.seqs == Seqs(batch) && attempt.inputs == Inputs(batch)
  {
    if ReservedFor(attempt, batch) {
      assert forall i :: 0 <= i < |batch| ==>
             attempt.seqs[i] == Seqs(batch)[i] && attempt.inputs[i] == Inputs(batch)[i];
    }
  }

  /** Answers are recorded exactly when the ledger is unsealed, the attempt is open and was reserved for these inputs,
      every answer has its receipt and every row is new. */
  lemma FinishExactlyWhen(env: Env, s: Session, id: nat, batch: seq<Item>, answers: Answers)
    requires InStep(s)
    ensures Finish(env, s, id, batch, answers).1.None? <==>
      && s.store.report.None? && 1 <= id <= |s.store.attempts| && id !in s.store.outcomes
      && ReservedFor(s.store.attempts[id - 1], batch) && |answers| == |batch|
      && (forall i :: 0 <= i < |batch| ==> ReceiptFor(env.contract, batch[i], answers[i]))
      && NewRows(s.store.completions, batch)
  {
    if 1 <= id <= |s.store.attempts| { ReservedForMeans(s.store.attempts[id - 1], batch); }
    if |answers| == |batch| {
      NoneInvalidExactlyWhen(env.contract, batch, answers);
      InsertedExactlyWhen(env.contract, id, s.store.completions, batch, answers);
    }
    hide ReceiptFor, NewRows, ReservedFor, FirstInvalid, Inserted;
  }

  /** Then each member gets its row, with its vector in stored form, the attempt is complete, and nothing else changes;
      otherwise nothing changes at all. */
  lemma FinishWrites(env: Env, s: Session, id: nat, batch: seq<Item>, answers: Answers)
    ensures var (after, error) := Finish(env, s, id, batch, answers);
      && (error.Some? ==> after == s)
      && (error.None? ==>
          && |answers| == |batch| && after.budget == s.budget && after.sealed == s.sealed
          && after.store == s.store.(completions := after.store.completions, outcomes := after.store.outcomes)
          && after.store.outcomes == s.store.outcomes[id := Complete]
          && after.store.completions.Keys == s.store.completions.Keys + (set item | item in batch :: item.seqno)
          && (forall n :: n in s.store.completions ==> after.store.completions[n] == s.store.completions[n])
          && (forall i :: 0 <= i < |batch| ==>
               after.store.completions[batch[i].seqno] ==
               Completion(batch[i].id, batch[i].partition, env.contract.single(answers[i].0), answers[i].1, id)))
  {
    var (after, error) := Finish(env, s, id, batch, answers);
    if error.None? {
      InsertedRows(env.contract, id, s.store.completions, batch, answers);
      hide FirstInvalid, Inserted;
      assert forall i :: 0 <= i < |batch| ==> Seqs(batch)[i] == batch[i].seqno;
      assert forall n :: n in Seqs(batch) <==> n in set item | item in batch :: item.seqno;
    }
  }

  /** A failure is recorded exactly for an open attempt and one of the eleven codes, unless it would reject a rejected
      member again; the outcome is the code, a lone input that was too long is rejected, and nothing else changes. */
  lemma FailExactlyWhen(s: Session, id: nat, code: Code)
    ensures var (after, error) := Fail(s, id, code);
      var known := code in {InputTooLong, Throttled, ProviderFailure, ResponseInvalid, Http(400), Http(401), Http(403),
                            Http(404), Http(500), Http(503), Http(504)};
      && (error.None? <==>
          && known && 1 <= id <= |s.store.attempts| && id !in s.store.outcomes
          && !(code == InputTooLong && exists n :: s.store.attempts[id - 1].seqs == [n] && n in s.store.rejections))
      && (error.Some? ==> after == s)
      && (error.None? ==>
          && after.budget == s.budget && after.sealed == s.sealed
          && after.store == s.store.(outcomes := s.store.outcomes[id := code], rejections := after.store.rejections)
          && (forall n :: n in after.store.rejections <==>
               n in s.store.rejections || (code == InputTooLong && s.store.attempts[id - 1].seqs == [n]))
          && (forall n :: n in after.store.rejections ==>
               after.store.rejections[n] == if n in s.store.rejections then s.store.rejections[n] else id))
  {
    if 1 <= id <= |s.store.attempts| {
      var seqs := s.store.attempts[id - 1].seqs;
      if |seqs| == 1 { assert seqs == [seqs[0]]; }
    }
  }

  // ---------- the report ----------

  /** One mark for every token that the provider counted, laid end to end. */
  ghost function ProviderMarks(lines: seq<Line>): string
    requires forall i :: 0 <= i < |lines| ==> 0 <= lines[i].completion.receipt.providerTokens
  {
    Flatten(seq(|lines|, i requires 0 <= i < |lines| =>
      seq(lines[i].completion.receipt.providerTokens, _ => '|')))
  }

  lemma {:induction false} ProviderTokensAreMarks(lines: seq<Line>)
    requires forall i :: 0 <= i < |lines| ==> 0 <= lines[i].completion.receipt.providerTokens
    ensures ProviderTokens(lines) == |ProviderMarks(lines)|
  {
    if lines != [] {
      var n := |lines| - 1;
      ProviderTokensAreMarks(lines[..n]);
      var marks := seq(|lines|, i requires 0 <= i < |lines| =>
        seq(lines[i].completion.receipt.providerTokens, _ => '|'));
      assert marks[..n] == seq(n, i requires 0 <= i < n =>
        seq(lines[..n][i].completion.receipt.providerTokens, _ => '|'));
    }
  }

  lemma {:induction false} ManifestLine(store: Store, count: nat, k: Seqno)
    requires k <= count && forall n: Seqno :: n <= count ==> n in store.completions
    ensures Manifest(store, count)[k - 1] == Line(k, store.completions[k])
  {
    if k < count { ManifestLine(store, count - 1, k); }
  }

  lemma {:induction false} RowsAreRight(env: Env, store: Store, count: nat, k: Seqno)
    requires FirstRowError(env, store, count).None? && k <= count
    ensures RowError(env, store, k).None?
  {
    if k < count { RowsAreRight(env, store, count - 1, k); }
  }

  /** The report names the input pack, lists every member's completion in order, and counts the provider's tokens. */
  lemma ReportSays(env: Env, store: Store)
    requires Verify(env, store).Success?
    ensures var report := Verify(env, store).value;
      && report.packSha == env.spec.packSha && report.members == |report.manifest| == env.spec.report.members
      && (forall k: Seqno :: k <= report.members ==>
           k in store.completions && report.manifest[k - 1] == Line(k, store.completions[k]))
      && (forall i :: 0 <= i < |report.manifest| ==> 1 <= report.manifest[i].completion.receipt.providerTokens)
      && report.providerTokens == |ProviderMarks(report.manifest)|
  {
    var count, report := |store.completions|, Verify(env, store).value;
    NoRowError(env, store, count);
    forall k: Seqno | k <= count
      ensures k in store.completions && report.manifest[k - 1] == Line(k, store.completions[k])
      ensures 1 <= store.completions[k].receipt.providerTokens
    {
      ManifestLine(store, count, k);
      RowsAreRight(env, store, count, k);
    }
    forall i | 0 <= i < |report.manifest| ensures 1 <= report.manifest[i].completion.receipt.providerTokens {
      var k: Seqno := i + 1;
      assert report.manifest[k - 1] == Line(k, store.completions[k]);
    }
    ProviderTokensAreMarks(report.manifest);
  }

  // ---------- opening ----------

  /** One mark for every character that the attempts were charged, laid end to end, and one for every token. */
  ghost function CharacterMarks(attempts: seq<Attempt>): string {
    Flatten(seq(|attempts|, i requires 0 <= i < |attempts| => seq(attempts[i].characters, _ => '|')))
  }

  ghost function TokenMarks(attempts: seq<Attempt>): string {
    Flatten(seq(|attempts|, i requires 0 <= i < |attempts| => seq(attempts[i].localTokens, _ => '|')))
  }

  lemma {:induction false} SpentIsMarked(attempts: seq<Attempt>)
    ensures Spent(attempts) == Budget(|CharacterMarks(attempts)|, |TokenMarks(attempts)|, |attempts|)
  {
    if attempts != [] {
      var n := |attempts| - 1;
      SpentIsMarked(attempts[..n]);
      var characters := seq(|attempts|, i requires 0 <= i < |attempts| => seq(attempts[i].characters, _ => '|'));
      assert characters[..n] == seq(n, i requires 0 <= i < n => seq(attempts[..n][i].characters, _ => '|'));
      var tokens := seq(|attempts|, i requires 0 <= i < |attempts| => seq(attempts[i].localTokens, _ => '|'));
      assert tokens[..n] == seq(n, i requires 0 <= i < n => seq(attempts[..n][i].localTokens, _ => '|'));
    }
  }

  /** A ledger opens exactly over a sealed pack of the given hash with nothing missing or inadmissible, as a new file
      where there is none, or on a file of the same policy. The process starts with the budget of all attempts, each
      counted, and the file's own seal. */
  lemma OpensExactlyWhen(env: Env, packSha: string, file: Option<Store>, create: bool)
    ensures var opening := Open(env, packSha, file, create);
      && (opening.Success? <==>
          && env.pack.readonly && env.pack.sealed.Some? && env.pack.fileSha == packSha
          && env.pack.sealed.value.inadmissible == 0 && env.pack.sealed.value.coverageComplete
          && (if create then file.None?
               else file.Some? && file.value.spec == Some(Spec(packSha, env.pack.sealed.value))))
      && (opening.Success? ==>
          var s := opening.value;
          && s.store.spec == Some(Spec(packSha, env.pack.sealed.value)) && s.sealed == s.store.report
          && (create ==> s.store == Store(s.store.spec, None, [], map[], map[], map[], map[]))
          && (!create ==> s.store == file.value)
          && s.budget.characters == |CharacterMarks(s.store.attempts)|
          && s.budget.localTokens == |TokenMarks(s.store.attempts)| && s.budget.requests == |s.store.attempts|)
  {
    var r := Open(env, packSha, file, create);
    if r.Success? { SpentIsMarked(r.value.store.attempts); }
    hide Spent;
  }
}
