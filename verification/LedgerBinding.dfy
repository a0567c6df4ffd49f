/** Completions bound to the input pack's members, when verification succeeds, and when a member can be
    both rejected and completed. */
module LedgerBinding {
  import opened Wrappers
  import opened LedgerModel
  import opened LedgerHistory

  /** The row of a member: its id, partition and token count, and a receipt with every fixed field as it must be, the
      hash of its text, the hash of the stored vector, and token counts within the limits of the two counters. */
  ghost predicate RowBound(env: Env, row: Completion, n: Seqno) {
    && n <= |env.pack.members|
    && var item := env.pack.members[n - 1];
      && row.id == item.id && row.partition == item.partition && row.receipt.localCount == item.tokens
      && row.receipt.closed && env.contract.textSha(item.text) == Some(row.receipt.contentSha)
      && env.contract.vectorSha(row.vector) == Some(row.receipt.vectorSha)
      && 1 <= row.receipt.localCount <= 1536 && 1 <= row.receipt.providerTokens <= 2048
  }

  /** Every completion is the input pack's member of that number, with a receipt for its text and vector. */
  ghost predicate Bound(env: Env, completions: map<Seqno, Completion>) {
    forall n :: n in completions ==> RowBound(env, completions[n], n)
  }

  lemma {:induction false} NoneInvalid(c: Contract, batch: seq<Item>, answers: Answers, i: nat)
    requires |batch| == |answers| && FirstInvalid(c, batch, answers).None? && i < |batch|
    ensures ValidProvenance(c, answers[i].1, batch[i].text, answers[i].0) && answers[i].1.localCount == batch[i].tokens
  {
    var n := |batch| - 1;
    if i < n { NoneInvalid(c, batch[..n], answers[..n], i); }
  }

  lemma AddedRowBound(env: Env, id: nat, item: Item, answer: (Vector, Receipt))
    requires env.Valid() && env.Holds(item)
    requires ValidProvenance(env.contract, answer.1, item.text, answer.0) && answer.1.localCount == item.tokens
    ensures RowBound(env, CompletionOf(env.contract, id, item, answer), item.seqno)
  {
    assert env.contract.vectorSha(env.contract.single(answer.0)) == env.contract.vectorSha(answer.0);
  }

  lemma AddedRowsBound(env: Env, id: nat, completions: map<Seqno, Completion>, batch: seq<Item>, answers: Answers,
                       rows: map<Seqno, Completion>)
    requires env.Valid() && env.HoldsAll(batch) && Bound(env, completions)
    requires |batch| == |answers| && FirstInvalid(env.contract, batch, answers).None?
    requires RowsAdded(env.contract, id, completions, batch, answers, rows)
    ensures Bound(env, rows)
  {
    forall n | n in rows ensures RowBound(env, rows[n], n) {
      if n !in completions {
        var i :| 0 <= i < |batch| && Seqs(batch)[i] == n;
        NoneInvalid(env.contract, batch, answers, i);
        assert env.Holds(batch[i]);
        AddedRowBound(env, id, batch[i], answers[i]);
        assert rows[batch[i].seqno] == CompletionOf(env.contract, id, batch[i], answers[i]);
      }
    }
  }

  /** Finishing a batch of the input pack's own members keeps every completion bound. */
  lemma FinishBinds(env: Env, s: Session, id: nat, batch: seq<Item>, answers: Answers)
    requires env.Valid() && env.HoldsAll(batch) && Bound(env, s.store.completions)
    ensures Bound(env, Finish(env, s, id, batch, answers).0.store.completions)
  {
    if Finish(env, s, id, batch, answers).1.None? {
      InsertedRows(env.contract, id, s.store.completions, batch, answers);
      AddedRowsBound(env, id, s.store.completions, batch, answers,
        Finish(env, s, id, batch, answers).0.store.completions);
    }
  }

  /** Every row of the file is about members of the input pack. */
  ghost predicate PackRows(env: Env, store: Store) {
    && Bound(env, store.completions)
    && (forall i :: 0 <= i < |store.attempts| ==> forall n :: n in store.attempts[i].seqs ==> n <= |env.pack.members|)
  }

  lemma ReserveFits(env: Env, s: Session, batch: seq<Item>)
    requires env.HoldsAll(batch) && PackRows(env, s.store)
    ensures PackRows(env, Reserve(env, s, batch).0.store)
  {
    assert forall n :: n in Seqs(batch) ==> n <= |env.pack.members| by {
      forall n | n in Seqs(batch) ensures n <= |env.pack.members| {
        var i :| 0 <= i < |batch| && Seqs(batch)[i] == n;
        assert env.Holds(batch[i]);
      }
    }
  }

  /** A history whose batches come from the input pack. */
  ghost predicate FromPack(env: Env, e: Event) {
    match e
    case EReserve(batch) => env.HoldsAll(batch)
    case EFinish(_, items, _) => env.HoldsAll(items)
    case _ => true
  }

  /** Such a history only ever writes rows about the input pack's members, bound to their content. */
  lemma {:induction false} PackHistoryBinds(env: Env, s: Session, events: seq<Event>)
    requires env.Valid() && PackRows(env, s.store)
    requires forall i :: 0 <= i < |events| ==> FromPack(env, events[i])
    ensures PackRows(env, AfterAll(env, s, events).store)
  {
    hide Bound, Verify;
    if events != [] {
      var front, last := events[..|events| - 1], events[|events| - 1];
      PackHistoryBinds(env, s, front);
      assert FromPack(env, last);
      var before := AfterAll(env, s, front);
      match last
      case EReserve(batch) => ReserveFits(env, before, batch);
      case EFinish(id, items, answers) => FinishBinds(env, before, id, items, answers);
      case _ =>
    }
  }

  lemma {:induction false} FullRange(keys: set<Seqno>, n: nat)
    requires forall k :: k in keys ==> k <= n
    ensures |keys| <= n
    ensures |keys| == n ==> forall k: Seqno :: k <= n ==> k in keys
  {
    if n > 0 {
      FullRange(keys - {n}, n - 1);
    } else {
      assert keys == {};
    }
  }

  /** A successful verification covers exactly the members of the input pack, each with its own binding,
      a receipt for its text and stored vector, and a completed attempt that lists it. */
  lemma VerifiedIsComplete(env: Env, store: Store)
    requires env.Valid() && Verify(env, store).Success?
    ensures forall n: Seqno :: n in store.completions <==> n <= |env.pack.members|
    ensures Bound(env, store.completions) && CompletionsSound(store.attempts, store.outcomes, store.completions)
    ensures Verify(env, store).value.members == |env.pack.members|
  {
    var count := |store.completions|;
    NoRowError(env, store, count);
    var all := set n: Seqno | n in store.completions && n <= count;
    forall n: Seqno | n <= count ensures n in all { assert RowError(env, store, n).None?; }
    FullRange(all, count);
    RangeSize(all, count);
    assert all <= store.completions.Keys && |all| == |store.completions.Keys|;
    SameSize(all, store.completions.Keys);
    forall n | n in store.completions
      ensures RowBound(env, store.completions[n], n)
      ensures CompletedBy(store.attempts, store.outcomes, n, store.completions[n].attempt)
    {
      assert n in all;
      assert RowError(env, store, n).None?;
    }
  }

  lemma {:induction false} RangeSize(keys: set<Seqno>, n: nat)
    requires forall k: Seqno :: k in keys <==> k <= n
    ensures |keys| == n
  {
    if n > 0 {
      RangeSize(keys - {n}, n - 1);
    } else {
      assert keys == {};
    }
  }

  lemma SameSize<T>(a: set<T>, b: set<T>)
    requires a <= b && |a| == |b|
    ensures a == b
  {
    assert |b - a| == |b| - |a|;
    assert b - a == {};
    assert b == a + (b - a);
  }

  lemma SoundRow(env: Env, store: Store, n: Seqno)
    requires env.Valid() && Bound(env, store.completions) && n in store.completions
    requires CompletionsSound(store.attempts, store.outcomes, store.completions)
    ensures RowError(env, store, n).None?
  {
    assert RowBound(env, store.completions[n], n);
    assert CompletedBy(store.attempts, store.outcomes, n, store.completions[n].attempt);
  }

  /** On files that a history has produced, sealing succeeds exactly when every member is completed. */
  lemma SealsExactlyWhenComplete(env: Env, s: Session)
    requires env.Valid() && Reachable(env, s) && Bound(env, s.store.completions)
    ensures Seal(env, s).1.Success? <==> |s.store.completions| == env.spec.report.members
  {
    SealKeeps(env, s);
    VerifiesExactlyWhenComplete(env, s.store);
  }

  lemma VerifiesExactlyWhenComplete(env: Env, store: Store)
    requires env.Valid() && Bound(env, store.completions)
    requires CompletionsSound(store.attempts, store.outcomes, store.completions)
    ensures Verify(env, store).Success? <==> |store.completions| == env.spec.report.members
  {
    var count, keys := |store.completions|, store.completions.Keys;
    if count == env.spec.report.members {
      forall k | k in keys ensures k <= count { assert RowBound(env, store.completions[k], k); }
      FullRange(keys, count);
      forall n: Seqno | n <= count ensures RowError(env, store, n).None? { assert n in keys; SoundRow(env, store, n); }
      NoRowError(env, store, count);
    }
  }

  // ---------- what single operations write ----------

  /** What a successful reservation writes. */
  lemma ReservedTables(env: Env, before: Session, batch: seq<Item>, s: Session, id: nat)
    requires Reserve(env, before, batch) == (s, Success(id))
    ensures id == |before.store.attempts| + 1
    ensures s.store == before.store.(attempts := s.store.attempts, tries := s.store.tries)
    ensures s.store.attempts ==
      before.store.attempts + [Attempt(Seqs(batch), Inputs(batch), Characters(batch), Tokens(batch))]
  {
  }

  /** What finishing writes. */
  lemma FinishedTables(env: Env, s: Session, id: nat, batch: seq<Item>, answers: Answers)
    requires Finish(env, s, id, batch, answers).1.None?
    ensures var after := Finish(env, s, id, batch, answers).0.store;
      && after == s.store.(completions := after.completions, outcomes := s.store.outcomes[id := Complete])
      && forall n: Seqno :: n in after.completions <==> n in s.store.completions || n in Seqs(batch)
  {
    InsertedRows(env.contract, id, s.store.completions, batch, answers);
  }

  // ---------- rejected and completed ----------

  ghost predicate Disjoint(store: Store) {
    forall n :: n in store.rejections ==> n !in store.completions
  }

  /** An operation makes some member both rejected and completed exactly when it completes a
      rejected member or rejects a completed one; the ledger itself checks neither. */
  lemma DisjointExactlyWhen(env: Env, s: Session, e: Event)
    requires Reachable(env, s) && Disjoint(s.store)
    ensures Disjoint(After(env, s, e).store) <==>
      match e
      case EFinish(id, items, answers) =>
        Finish(env, s, id, items, answers).1.None? ==> forall n :: n in Seqs(items) ==> n !in s.store.rejections
      case EFail(id, code) =>
        Fail(s, id, code).1.None? && code == InputTooLong && |s.store.attempts[id - 1].seqs| == 1
        ==> s.store.attempts[id - 1].seqs[0] !in s.store.completions
      case _ => true
  {
    hide Reachable, Verify;
    match e
    case EFinish(id, items, answers) =>
      if Finish(env, s, id, items, answers).1.None? {
        InsertedRows(env.contract, id, s.store.completions, items, answers);
        var rows := After(env, s, e).store.completions;
        assert forall n: Seqno :: n in rows <==> n in s.store.completions || n in Seqs(items);
      }
    case EFail(id, code) =>
    case _ =>
  }

  /** Two reservations of one member, the first answered and the second refused as too long: the
      member ends up completed and rejected, although every call succeeded. */
  lemma CompletedAndRejected(env: Env, s: Session, item: Item, answer: (Vector, Receipt))
    requires Reachable(env, s) && item.seqno !in s.store.rejections
    requires Reserve(env, s, [item]).1.Success? && Reserve(env, Reserve(env, s, [item]).0, [item]).1.Success?
    requires FirstInvalid(env.contract, [item], [answer]).None? && !Conflicts(s.store.completions, item)
    ensures var s2 := Reserve(env, Reserve(env, s, [item]).0, [item]).0;
      var first := |s.store.attempts| + 1;
      var finished := Finish(env, s2, first, [item], [answer]);
      var failed := Fail(finished.0, first + 1, InputTooLong);
      && finished.1.None? && failed.1.None?
      && item.seqno in failed.0.store.completions && item.seqno in failed.0.store.rejections
  {
    var first := |s.store.attempts| + 1;
    var s1 := Reserve(env, s, [item]).0;
    var s2 := Reserve(env, s1, [item]).0;
    assert Seqs([item]) == [item.seqno];
    assert s2.store.attempts == s.store.attempts + [s1.store.attempts[first - 1]] + [s2.store.attempts[first]];
    assert forall id :: id in s.store.outcomes ==>
      OutcomeHonoured(s.store.attempts, s.store.completions, s.store.rejections, id, s.store.outcomes[id]);
    assert [item][..0] == [] && [answer][..0] == [];
    assert Inserted(env.contract, first, s2.store.completions, [item][..0], [answer][..0]) == Some(s.store.completions);
    assert Inserted(env.contract, first, s2.store.completions, [item], [answer]).Some?;
    var s3 := Finish(env, s2, first, [item], [answer]);
    assert s3.1.None?;
  }

  /** A one-member input pack whose member may be tried twice. */
  const ONE: Item := Item(1, "a", 0, "x", "x", 1)

  const ONE_REPORT: PackReport := PackReport(1, 1, 1, 0, true)

  function OneContract(): Contract { Contract(text => Some(text), vector => Some(""), vector => vector) }

  function OneEnv(): Env { Env(Pack(true, Some(ONE_REPORT), "p", [ONE]), OneContract(), Spec("p", ONE_REPORT)) }

  /** A new ledger of that pack meets every condition of the case above. */
  lemma CompletedAndRejectedHappens() returns (s: Session, answer: (Vector, Receipt))
    ensures OneEnv().Valid() && OneEnv().Holds(ONE)
    ensures Open(OneEnv(), "p", None, true) == Success(s) && Reachable(OneEnv(), s) && ONE.seqno !in s.store.rejections
    ensures Reserve(OneEnv(), s, [ONE]).1.Success?
    ensures Reserve(OneEnv(), Reserve(OneEnv(), s, [ONE]).0, [ONE]).1.Success?
    ensures FirstInvalid(OneEnv().contract, [ONE], [answer]).None? && !Conflicts(s.store.completions, ONE)
  {
    var env := OneEnv();
    s := Open(env, "p", None, true).value;
    answer := ([], Receipt(true, "x", "", 1, 1));
    ReopenRestores(env, "p", []);
    assert Seqs([ONE]) == [1] && [ONE][..0] == [] && [answer][..0] == [];
    assert Tokens([ONE]) == 1 && Characters([ONE]) == 1;
    assert FirstObstacle(s.store, [ONE]).None?;
    var s1 := Reserve(env, s, [ONE]).0;
    assert Tried(s.store.tries, [ONE]) == map[1 := 1];
    assert FirstObstacle(s1.store, [ONE]).None?;
  }

  // ---------- keeping them apart ----------

  /** The attempts a process awaits answers for: those it reserved itself and has not had answered. */
  ghost function LiveAfter(env: Env, s: Session, live: set<nat>, e: Event): set<nat> {
    match e
    case EReserve(batch) =>
      var r := Reserve(env, s, batch).1;
      if r.Success? then live + {r.value} else live
    case EFinish(id, items, answers) => if Finish(env, s, id, items, answers).1.None? then live - {id} else live
    case EFail(id, code) => if Fail(s, id, code).1.None? then live - {id} else live
    case ESeal => live
    case EReopen => {}
  }

  ghost function Live(env: Env, s: Session, events: seq<Event>): set<nat> {
    if events == [] then {}
    else
      var front := events[..|events| - 1];
      LiveAfter(env, AfterAll(env, s, front), Live(env, s, front), events[|events| - 1])
  }

  predicate Lists(store: Store, id: nat, n: Seqno) {
    1 <= id <= |store.attempts| && n in store.attempts[id - 1].seqs
  }

  ghost predicate AwaitedIn(store: Store, live: set<nat>, n: Seqno) {
    exists id :: id in live && Lists(store, id, n)
  }

  /** A process that reserves no rejected member and none it awaits an answer for, and answers only attempts of its
      own. */
  ghost predicate Careful(store: Store, live: set<nat>, e: Event) {
    match e
    case EReserve(batch) => forall n :: n in Seqs(batch) ==> n !in store.rejections && !AwaitedIn(store, live, n)
    case EFinish(id, _, _) => id in live
    case EFail(id, _) => id in live
    case _ => true
  }

  ghost predicate CarefulThroughout(env: Env, s: Session, events: seq<Event>) {
    forall k :: 0 <= k < |events| ==> Careful(AfterAll(env, s, events[..k]).store, Live(env, s, events[..k]), events[k])
  }

  /** An awaited attempt has no outcome, and its members are neither completed nor rejected. */
  ghost predicate Awaited(store: Store, id: nat) {
    && 1 <= id <= |store.attempts| && id !in store.outcomes
    && forall n :: Lists(store, id, n) ==> n !in store.completions && n !in store.rejections
  }

  /** Different awaited attempts list different members. */
  ghost predicate Apart(store: Store, live: set<nat>) {
    && Disjoint(store) && (forall id :: id in live ==> Awaited(store, id))
    && (forall a, b, n :: a in live && b in live && Lists(store, a, n) && Lists(store, b, n) ==> a == b)
  }

  lemma IdIsNew(env: Env, s: Session, id: nat)
    requires Reachable(env, s) && id > |s.store.attempts|
    ensures id !in s.store.outcomes
  {
    var store := s.store;
    assert id in store.outcomes ==>
           OutcomeHonoured(store.attempts, store.completions, store.rejections, id, store.outcomes[id]);
  }

  lemma ReserveApart(env: Env, s: Session, live: set<nat>, batch: seq<Item>)
    requires Reachable(env, s) && Apart(s.store, live) && Careful(s.store, live, EReserve(batch))
    requires Reserve(env, s, batch).1.Success?
    ensures Apart(Reserve(env, s, batch).0.store, live + {Reserve(env, s, batch).1.value})
  {
    var (after, r) := Reserve(env, s, batch);
    ReservedTables(env, s, batch, after, r.value);
    NoObstacle(s.store, batch);
    IdIsNew(env, s, r.value);
    hide Reserve, Reachable, FirstObstacle;
    NewAttemptApart(s.store, after.store, live, r.value, Seqs(batch));
  }

  lemma NewAttemptApart(store: Store, after: Store, live: set<nat>, id: nat, seqs: seq<Seqno>)
    requires Apart(store, live) && id == |store.attempts| + 1 == |after.attempts| && id !in store.outcomes
    requires after == store.(attempts := after.attempts, tries := after.tries) && store.attempts <= after.attempts
    requires after.attempts[id - 1].seqs == seqs
    requires forall n :: n in seqs ==> n !in store.completions && n !in store.rejections && !AwaitedIn(store, live, n)
    ensures Apart(after, live + {id})
  {
    assert forall a, n :: a in live ==> Awaited(store, a) && (Lists(after, a, n) <==> Lists(store, a, n));
    assert forall n :: Lists(after, id, n) <==> n in seqs;
  }

  /** An answered attempt leaves the others apart when only its own members change. */
  lemma AnsweredApart(store: Store, after: Store, live: set<nat>, id: nat)
    requires Apart(store, live) && id in live && after.attempts == store.attempts && Disjoint(after)
    requires forall a :: a in after.outcomes ==> a == id || a in store.outcomes
    requires forall n :: n in after.completions ==> n in store.completions || Lists(store, id, n)
    requires forall n :: n in after.rejections ==> n in store.rejections || Lists(store, id, n)
    ensures Apart(after, live - {id})
  {
    assert forall a, n :: Lists(after, a, n) <==> Lists(store, a, n);
    forall a | a in live - {id} ensures Awaited(after, a) { assert Awaited(store, a); }
  }

  lemma FinishApart(env: Env, s: Session, live: set<nat>, id: nat, items: seq<Item>, answers: Answers)
    requires Apart(s.store, live) && id in live && Finish(env, s, id, items, answers).1.None?
    ensures Apart(Finish(env, s, id, items, answers).0.store, live - {id})
  {
    FinishedTables(env, s, id, items, answers);
    assert s.store.attempts[id - 1].seqs == Seqs(items);
    hide Finish;
    var after := Finish(env, s, id, items, answers).0.store;
    assert Awaited(s.store, id);
    assert forall n :: n in Seqs(items) <==> Lists(s.store, id, n);
    AnsweredApart(s.store, after, live, id);
  }

  lemma FailApart(s: Session, live: set<nat>, id: nat, code: Code)
    requires Apart(s.store, live) && id in live && Fail(s, id, code).1.None?
    ensures Apart(Fail(s, id, code).0.store, live - {id})
  {
    FailedTables(s, id, code);
    hide Fail;
    var after := Fail(s, id, code).0.store;
    assert Awaited(s.store, id);
    AnsweredApart(s.store, after, live, id);
  }

  /** What failing writes. */
  lemma FailedTables(s: Session, id: nat, code: Code)
    requires Fail(s, id, code).1.None?
    ensures var after := Fail(s, id, code).0.store;
      && after == s.store.(rejections := after.rejections, outcomes := s.store.outcomes[id := code])
      && forall n :: n in after.rejections ==> n in s.store.rejections || Lists(s.store, id, n)
  {
  }

  lemma CarefulKeepsApart(env: Env, s: Session, live: set<nat>, e: Event)
    requires Reachable(env, s) && Apart(s.store, live) && Careful(s.store, live, e)
    ensures Apart(After(env, s, e).store, LiveAfter(env, s, live, e))
  {
    hide Reachable, Reserve, Finish, Fail, Apart, Careful;
    match e
    case EReserve(batch) =>
      if Reserve(env, s, batch).1.Success? { ReserveApart(env, s, live, batch); } else {
        RefusedReserve(env, s, batch);
      }
    case EFinish(id, items, answers) =>
      OwnAnswers(s.store, live, e);
      if Finish(env, s, id, items, answers).1.None? { FinishApart(env, s, live, id, items, answers); }
      else { RefusedFinish(env, s, id, items, answers); }
    case EFail(id, code) =>
      OwnAnswers(s.store, live, e);
      if Fail(s, id, code).1.None? { FailApart(s, live, id, code); } else { RefusedFail(s, id, code); }
    case ESeal => SealApart(env, s, live);
    case EReopen => NothingLive(s.store, live);
  }

  lemma OwnAnswers(store: Store, live: set<nat>, e: Event)
    requires Careful(store, live, e)
    ensures e.EFinish? ==> e.id in live
    ensures e.EFail? ==> e.failed in live
  {
  }

  lemma RefusedReserve(env: Env, s: Session, batch: seq<Item>)
    requires Reserve(env, s, batch).1.Failure?
    ensures Reserve(env, s, batch).0 == s
  {
  }

  lemma RefusedFinish(env: Env, s: Session, id: nat, items: seq<Item>, answers: Answers)
    requires Finish(env, s, id, items, answers).1.Some?
    ensures Finish(env, s, id, items, answers).0 == s
  {
  }

  lemma RefusedFail(s: Session, id: nat, code: Code)
    requires Fail(s, id, code).1.Some?
    ensures Fail(s, id, code).0 == s
  {
  }

  lemma SealApart(env: Env, s: Session, live: set<nat>)
    requires Apart(s.store, live)
    ensures Apart(Seal(env, s).0.store, live)
  {
    hide Verify;
    var after := Seal(env, s).0.store;
    assert forall a, n :: Lists(after, a, n) <==> Lists(s.store, a, n);
    forall a | a in live ensures Awaited(after, a) { assert Awaited(s.store, a); }
  }

  lemma NothingLive(store: Store, live: set<nat>)
    requires Apart(store, live)
    ensures Apart(store, {})
  {
  }

  /** Careful processes, crashes and reopenings between them included, never complete a rejected member nor reject a
      completed one. */
  lemma {:induction false} CarefulHistoryDisjoint(env: Env, s: Session, events: seq<Event>)
    requires Reachable(env, s) && Disjoint(s.store) && CarefulThroughout(env, s, events)
    ensures Apart(AfterAll(env, s, events).store, Live(env, s, events)) && Disjoint(AfterAll(env, s, events).store)
  {
    hide Reachable, Disjoint, Careful, After, LiveAfter;
    if events == [] {
      DisjointIsApart(s.store);
    } else {
      var k := |events| - 1;
      var front := events[..k];
      forall i | 0 <= i < k ensures Careful(AfterAll(env, s, front[..i]).store, Live(env, s, front[..i]), front[i]) {
        assert front[..i] == events[..i];
      }
      CarefulHistoryDisjoint(env, s, front);
      HistoryKeeps(env, s, front);
      CarefulKeepsApart(env, AfterAll(env, s, front), Live(env, s, front), events[k]);
    }
  }

  lemma DisjointIsApart(store: Store)
    requires Disjoint(store)
    ensures Apart(store, {})
  {
  }
}
