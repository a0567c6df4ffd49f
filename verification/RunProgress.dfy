/** Where each member of the input pack is while a run is under way. */
module RunProgress {
  import opened Wrappers
  import opened LedgerModel
  import opened LedgerHistory
  import opened LedgerBinding
  import opened PendingInputs
  import opened Sequences

  /** The ledger, the suspended scan, the queue of split retries, the calls in flight by attempt, and
      the members this run has given up for a later run. */
  datatype Progress = Progress(session: Session, cursor: nat, carry: Option<Item>, retry: seq<Item>,
                               inflight: map<nat, seq<Item>>, deferred: set<Seqno>)

  ghost predicate Settled(store: Store, n: Seqno) {
    n in store.completions || n in store.rejections
  }

  ghost predicate InFlight(inflight: map<nat, seq<Item>>, n: Seqno) {
    exists a :: a in inflight && n in Seqs(inflight[a])
  }

  ghost predicate Queued(retry: seq<Item>, n: Seqno) {
    n in Seqs(retry)
  }

  ghost predicate Unscanned(env: Env, store: Store, cursor: nat, carry: Option<Item>, n: Seqno) {
    (carry.Some? && carry.value.seqno == n) || (cursor < n <= |env.pack.members| && IsOpen(store, n))
  }

  function One(b: bool): nat {
    if b then 1 else 0
  }

  /** In how many places a member is. */
  ghost function Places(env: Env, p: Progress, n: Seqno): nat {
    One(Settled(p.session.store, n)) + One(InFlight(p.inflight, n)) + One(Queued(p.retry, n))
    + One(Unscanned(env, p.session.store, p.cursor, p.carry, n)) + One(n in p.deferred)
  }

  /** How often a member was reserved since `start`. */
  ghost function Reservations(start: Store, p: Progress, n: Seqno): int {
    TimesTried(p.session.store.attempts, n) - TimesTried(start.attempts, n)
  }

  ghost predicate FlightRecorded(env: Env, store: Store, a: nat, batch: seq<Item>) {
    && batch != [] && env.HoldsAll(batch) && Distinct(Seqs(batch))
    && 1 <= a <= |store.attempts| && a !in store.outcomes
    && store.attempts[a - 1].seqs == Seqs(batch) && store.attempts[a - 1].inputs == Inputs(batch)
  }

  ghost predicate FlightsSound(env: Env, store: Store, inflight: map<nat, seq<Item>>) {
    && (forall a :: a in inflight ==> FlightRecorded(env, store, a, inflight[a]))
    && (forall a, b, n :: a in inflight && b in inflight && n in Seqs(inflight[a]) && n in Seqs(inflight[b]) ==> a == b)
  }

  ghost predicate ScanSound(env: Env, store: Store, cursor: nat, carry: Option<Item>) {
    && cursor <= |env.pack.members|
    && (carry.Some? ==> env.Holds(carry.value) && carry.value.seqno <= cursor && IsOpen(store, carry.value.seqno))
  }

  /** How often this run may already have reserved a member, by where it is. */
  ghost predicate ReservedAtMost(env: Env, start: Store, p: Progress, n: Seqno) {
    && 0 <= Reservations(start, p, n) <= 2
    && (Unscanned(env, p.session.store, p.cursor, p.carry, n) ==> Reservations(start, p, n) == 0)
    && (Queued(p.retry, n) ==> Reservations(start, p, n) <= 1)
    && (forall a :: a in p.inflight && n in Seqs(p.inflight[a]) && |p.inflight[a]| > 1 ==>
         Reservations(start, p, n) <= 1)
  }

  /** The ledger as this run has left it so far. */
  ghost predicate LedgerSound(env: Env, start: Store, s: Session) {
    && env.Valid() && Reachable(env, s) && PackRows(env, s.store) && Grows(start, s.store)
    && (Disjoint(start) ==> Disjoint(s.store))
  }

  /** The run's own lists hold pack members and match the ledger's rows. */
  ghost predicate ListsSound(env: Env, start: Store, p: Progress) {
    && ScanSound(env, p.session.store, p.cursor, p.carry)
    && env.HoldsAll(p.retry) && Distinct(Seqs(p.retry))
    && FlightsSound(env, p.session.store, p.inflight)
    && (forall a :: a in p.inflight ==> |start.attempts| < a)
  }

  /** A member of the input pack is in exactly one place, any other number in none. */
  ghost predicate InPlace(env: Env, start: Store, p: Progress, n: Seqno) {
    Places(env, p, n) == One(n <= |env.pack.members|) && ReservedAtMost(env, start, p, n)
  }

  /** Every member is in exactly one place; what the ledger holds agrees with the run's own lists. */
  ghost predicate Conserved(env: Env, start: Store, p: Progress) {
    && LedgerSound(env, start, p.session)
    && ListsSound(env, start, p)
    && (forall n: Seqno :: InPlace(env, start, p, n))
  }

  // ---------- the scan ----------

  lemma EligibleCons(env: Env, store: Store, k: nat)
    requires env.Valid() && k < |env.pack.members|
    ensures var members := env.pack.members;
      var rest := Eligible(store, members[k + 1..]);
      && members[k].seqno == k + 1
      && Eligible(store, members[k..]) == (if IsOpen(store, k + 1) then [members[k]] + rest else rest)
      && Seqs(Eligible(store, members[k..])) == (if IsOpen(store, k + 1) then [k + 1] + Seqs(rest) else Seqs(rest))
  {
    assert env.pack.members[k..][1..] == env.pack.members[k + 1..];
  }

  lemma {:induction false} EligibleHeld(env: Env, store: Store, k: nat)
    requires env.Valid() && k <= |env.pack.members|
    ensures env.HoldsAll(Eligible(store, env.pack.members[k..]))
    decreases |env.pack.members| - k
  {
    if k < |env.pack.members| {
      EligibleHeld(env, store, k + 1);
      EligibleCons(env, store, k);
      var rest := Eligible(store, env.pack.members[k + 1..]);
      assert env.Holds(env.pack.members[k]);
      forall i | 0 <= i <= |rest| ensures env.Holds(([env.pack.members[k]] + rest)[i]) {
        if i > 0 { assert env.Holds(rest[i - 1]); }
      }
    }
  }

  lemma {:induction false} EligibleFrom(env: Env, store: Store, k: nat, n: Seqno)
    requires env.Valid() && k <= |env.pack.members|
    ensures n in Seqs(Eligible(store, env.pack.members[k..])) <==> k < n <= |env.pack.members| && IsOpen(store, n)
    decreases |env.pack.members| - k
  {
    if k < |env.pack.members| {
      EligibleFrom(env, store, k + 1, n);
      EligibleCons(env, store, k);
    } else {
      assert env.pack.members[k..] == [];
    }
  }

  lemma {:induction false} EligibleDistinct(env: Env, store: Store, k: nat)
    requires env.Valid() && k <= |env.pack.members|
    ensures Distinct(Seqs(Eligible(store, env.pack.members[k..])))
    decreases |env.pack.members| - k
  {
    if k < |env.pack.members| {
      EligibleDistinct(env, store, k + 1);
      EligibleFrom(env, store, k + 1, k + 1);
      EligibleCons(env, store, k);
      if IsOpen(store, k + 1) { DistinctCons(k + 1, Seqs(Eligible(store, env.pack.members[k + 1..]))); }
    }
  }

  lemma DistinctCons<T>(x: T, s: seq<T>)
    requires Distinct(s) && x !in s
    ensures Distinct([x] + s)
  {
  }

  lemma PendingFrom(env: Env, store: Store, cursor: nat, carry: Option<Item>)
    requires env.Valid() && ScanSound(env, store, cursor, carry)
    ensures var items := StillPending(store, env.pack.members, cursor, carry);
      && env.HoldsAll(items) && Distinct(Seqs(items))
      && (forall n: Seqno :: n in Seqs(items) <==> Unscanned(env, store, cursor, carry, n))
  {
    hide Eligible, IsOpen;
    EligibleHeld(env, store, cursor);
    EligibleDistinct(env, store, cursor);
    var rest := Eligible(store, env.pack.members[cursor..]);
    forall n: Seqno ensures n in Seqs(rest) <==> cursor < n <= |env.pack.members| && IsOpen(store, n) {
      EligibleFrom(env, store, cursor, n);
    }
    if carry.Some? { SeqsCons(env, carry.value, rest); }
  }

  lemma SeqsCons(env: Env, item: Item, rest: seq<Item>)
    requires env.Holds(item) && env.HoldsAll(rest) && Distinct(Seqs(rest)) && item.seqno !in Seqs(rest)
    ensures Seqs([item] + rest) == [item.seqno] + Seqs(rest)
    ensures env.HoldsAll([item] + rest) && Distinct(Seqs([item] + rest))
    ensures forall n :: n in Seqs([item] + rest) <==> n == item.seqno || n in Seqs(rest)
  {
    var items := [item] + rest;
    assert Seqs(items) == [item.seqno] + Seqs(rest);
    DistinctCons(item.seqno, Seqs(rest));
    forall i | 0 <= i < |items| ensures env.Holds(items[i]) { if i > 0 { assert env.Holds(rest[i - 1]); } }
  }

  lemma SeqsOfPrefix(items: seq<Item>, size: nat)
    requires size <= |items| && Distinct(Seqs(items))
    ensures Distinct(Seqs(items[..size])) && Distinct(Seqs(items[size..]))
    ensures forall n :: n in Seqs(items) <==> n in Seqs(items[..size]) || n in Seqs(items[size..])
    ensures forall n :: n in Seqs(items[..size]) ==> n !in Seqs(items[size..])
  {
    assert Seqs(items[..size]) == Seqs(items)[..size];
    assert Seqs(items[size..]) == Seqs(items)[size..];
    assert Seqs(items) == Seqs(items)[..size] + Seqs(items)[size..];
    forall i, j | 0 <= i < size && 0 <= j < |items| - size ensures Seqs(items[..size])[i] != Seqs(items[size..])[j] {
      assert Seqs(items[size..])[j] == Seqs(items)[size + j];
    }
  }

  ghost function SeqnoSet(batch: seq<Item>): set<Seqno> {
    set n | n in Seqs(batch)
  }

  /** A batch taken off the scan or the queue, about to be reserved. */
  ghost predicate InHand(env: Env, start: Store, p: Progress, batch: seq<Item>) {
    && batch != [] && env.HoldsAll(batch) && Distinct(Seqs(batch))
    && (forall n :: n in Seqs(batch) ==> n in p.deferred)
    && (forall n :: n in Seqs(batch) ==> Reservations(start, p, n) <= (if |batch| > 1 then 0 else 1))
  }

  /** One member's place when its batch leaves the scan. */
  lemma ScanPlace(env: Env, start: Store, p: Progress, q: Progress, batch: seq<Item>, n: Seqno)
    requires q == p.(cursor := q.cursor, carry := q.carry, deferred := p.deferred + SeqnoSet(batch))
    requires InPlace(env, start, p, n)
    requires Unscanned(env, p.session.store, p.cursor, p.carry, n)
      <==> n in Seqs(batch) || Unscanned(env, p.session.store, q.cursor, q.carry, n)
    requires n in Seqs(batch) ==> !Unscanned(env, p.session.store, q.cursor, q.carry, n)
    ensures InPlace(env, start, q, n)
    ensures n in Seqs(batch) ==> Reservations(start, p, n) == 0
  {
  }

  /** A scanned batch leaves the scan; until it is reserved it counts as deferred. */
  lemma ScanMoves(env: Env, start: Store, p: Progress, cursor: nat, carry: Option<Item>, size: nat)
    requires Conserved(env, start, p) && ScanSound(env, p.session.store, cursor, carry)
    requires size <= |StillPending(p.session.store, env.pack.members, p.cursor, p.carry)|
    requires StillPending(p.session.store, env.pack.members, cursor, carry)
          == StillPending(p.session.store, env.pack.members, p.cursor, p.carry)[size..]
    ensures var batch := StillPending(p.session.store, env.pack.members, p.cursor, p.carry)[..size];
      var q := p.(cursor := cursor, carry := carry, deferred := p.deferred + SeqnoSet(batch));
      Conserved(env, start, q) && (batch != [] ==> InHand(env, start, q, batch))
  {
    hide Reachable, PackRows, Grows;
    var store := p.session.store;
    PendingFrom(env, store, p.cursor, p.carry);
    PendingFrom(env, store, cursor, carry);
    var items := StillPending(store, env.pack.members, p.cursor, p.carry);
    var batch := items[..size];
    SeqsOfPrefix(items, size);
    var q := p.(cursor := cursor, carry := carry, deferred := p.deferred + SeqnoSet(batch));
    forall n: Seqno ensures InPlace(env, start, q, n) && (n in Seqs(batch) ==> Reservations(start, p, n) == 0) {
      assert InPlace(env, start, p, n);
      ScanPlace(env, start, p, q, batch, n);
    }
  }

  /** The head of the retry queue, likewise. */
  lemma RetryMoves(env: Env, start: Store, p: Progress)
    requires Conserved(env, start, p) && p.retry != []
    ensures var batch := p.retry[..1];
      var q := p.(retry := p.retry[1..], deferred := p.deferred + SeqnoSet(batch));
      Conserved(env, start, q) && InHand(env, start, q, batch)
  {
    hide LedgerSound;
    var batch := p.retry[..1];
    SeqsOfPrefix(p.retry, 1);
    var q := p.(retry := p.retry[1..], deferred := p.deferred + SeqnoSet(batch));
    forall n: Seqno ensures InPlace(env, start, q, n) && (n in Seqs(batch) ==> Reservations(start, p, n) <= 1) {
      assert InPlace(env, start, p, n);
    }
  }

  // ---------- reserving ----------

  /** Reserving a batch in hand can only be refused by a cap, a try limit or the input limits. */
  lemma ReserveRefusals(env: Env, start: Store, p: Progress, batch: seq<Item>)
    requires Conserved(env, start, p) && InHand(env, start, p, batch)
    ensures Reserve(env, p.session, batch).1.Failure? ==>
      Reserve(env, p.session, batch).1.error in {InvalidInputs, BudgetExhausted, RetryLimit}
  {
    hide Reserve, LedgerSound, ListsSound;
    assert Seqs(batch)[0] == batch[0].seqno;
    forall n | n in Seqs(batch) ensures !Settled(p.session.store, n) && n <= |env.pack.members| {
      assert InPlace(env, start, p, n);
    }
    NotSealedYet(env, start, p, batch[0].seqno);
    ObstacleIsRetryLimit(p.session.store, batch);
    RefusalsLeft(env, p.session, batch);
  }

  lemma RefusalsLeft(env: Env, s: Session, batch: seq<Item>)
    requires s.sealed.None? && Distinct(Seqs(batch))
    requires FirstObstacle(s.store, batch) == None || FirstObstacle(s.store, batch) == Some(RetryLimit)
    ensures Reserve(env, s, batch).1.Failure? ==>
      Reserve(env, s, batch).1.error in {InvalidInputs, BudgetExhausted, RetryLimit}
  {
    hide FirstObstacle, InputsValid, WithinCaps;
  }

  lemma {:induction false} ObstacleIsRetryLimit(store: Store, batch: seq<Item>)
    requires forall n :: n in Seqs(batch) ==> n !in store.completions
    ensures FirstObstacle(store, batch) == None || FirstObstacle(store, batch) == Some(RetryLimit)
  {
    if batch != [] {
      SeqsFront(batch);
      ObstacleIsRetryLimit(store, batch[..|batch| - 1]);
      assert Seqs(batch)[|batch| - 1] == batch[|batch| - 1].seqno;
    }
  }

  /** While some member is not settled the ledger is not sealed. */
  lemma NotSealedYet(env: Env, start: Store, p: Progress, n: Seqno)
    requires Conserved(env, start, p) && n <= |env.pack.members| && !Settled(p.session.store, n)
    ensures p.session.sealed.None?
  {
    if p.session.sealed.Some? { VerifiedIsComplete(env, p.session.store); }
  }

  lemma GrowsTransitive(a: Store, b: Store, c: Store)
    requires Grows(a, b) && Grows(b, c)
    ensures Grows(a, c)
  {
  }

  lemma FlightsSurvive(env: Env, store: Store, after: Store, inflight: map<nat, seq<Item>>)
    requires FlightsSound(env, store, inflight) && store.attempts <= after.attempts
    requires forall a :: a in inflight && a in after.outcomes ==> a in store.outcomes
    ensures FlightsSound(env, after, inflight)
  {
    forall a | a in inflight ensures FlightRecorded(env, after, a, inflight[a]) {
      assert FlightRecorded(env, store, a, inflight[a]);
      assert after.attempts[a - 1] == store.attempts[a - 1];
    }
  }

  lemma NewFlight(env: Env, store: Store, inflight: map<nat, seq<Item>>, id: nat, batch: seq<Item>)
    requires FlightsSound(env, store, inflight) && FlightRecorded(env, store, id, batch) && id !in inflight
    requires forall n :: n in Seqs(batch) ==> !InFlight(inflight, n)
    ensures FlightsSound(env, store, inflight[id := batch])
    ensures forall n: Seqno :: InFlight(inflight[id := batch], n) <==> InFlight(inflight, n) || n in Seqs(batch)
  {
    var after := inflight[id := batch];
    forall n: Seqno ensures InFlight(after, n) <==> InFlight(inflight, n) || n in Seqs(batch) {
      if InFlight(inflight, n) {
        var a :| a in inflight && n in Seqs(inflight[a]);
        assert a in after && after[a] == inflight[a];
      }
      if n in Seqs(batch) { assert id in after && after[id] == batch; }
    }
  }

  lemma LandedFlight(env: Env, store: Store, inflight: map<nat, seq<Item>>, id: nat)
    requires FlightsSound(env, store, inflight) && id in inflight
    ensures FlightsSound(env, store, inflight - {id})
    ensures forall n: Seqno :: InFlight(inflight - {id}, n) <==> InFlight(inflight, n) && n !in Seqs(inflight[id])
    ensures forall n :: n in Seqs(inflight[id]) ==> InFlight(inflight, n)
  {
    var after := inflight - {id};
    forall n: Seqno ensures InFlight(after, n) <==> InFlight(inflight, n) && n !in Seqs(inflight[id]) {
      if InFlight(inflight, n) && n !in Seqs(inflight[id]) {
        var a :| a in inflight && n in Seqs(inflight[a]);
        assert a in after && after[a] == inflight[a];
      }
    }
  }

  lemma ReservePlace(env: Env, start: Store, p: Progress, q: Progress, id: nat, batch: seq<Item>, n: Seqno)
    requires InPlace(env, start, p, n)
    requires q ==
      p.(session := q.session, inflight := p.inflight[id := batch], deferred := p.deferred - SeqnoSet(batch))
    requires id !in p.inflight && q.session.store.completions == p.session.store.completions
    requires q.session.store.rejections == p.session.store.rejections
    requires InFlight(q.inflight, n) <==> InFlight(p.inflight, n) || n in Seqs(batch)
    requires Reservations(start, q, n) == Reservations(start, p, n) + One(n in Seqs(batch))
    requires n in Seqs(batch) ==> n in p.deferred && Reservations(start, p, n) <= (if |batch| > 1 then 0 else 1)
    ensures InPlace(env, start, q, n)
  {
    if n in Seqs(batch) {
      assert !InFlight(p.inflight, n);
    }
  }

  /** The ledger and the flights after a successful reservation. */
  lemma ReservedLists(env: Env, start: Store, p: Progress, batch: seq<Item>, s: Session, id: nat)
    requires Conserved(env, start, p) && InHand(env, start, p, batch)
    requires Reserve(env, p.session, batch) == (s, Success(id))
    ensures id == |p.session.store.attempts| + 1 && id !in p.inflight && LedgerSound(env, start, s)
    ensures FlightsSound(env, s.store, p.inflight[id := batch])
    ensures forall n: Seqno :: InFlight(p.inflight[id := batch], n) <==> InFlight(p.inflight, n) || n in Seqs(batch)
    ensures s.store.completions == p.session.store.completions && s.store.rejections == p.session.store.rejections
    ensures s.store.attempts ==
      p.session.store.attempts + [Attempt(Seqs(batch), Inputs(batch), Characters(batch), Tokens(batch))]
  {
    hide Verify, Bound, Reachable, Places, Reserve;
    var store, after := p.session.store, s.store;
    ReservedTables(env, p.session, batch, s, id);
    ReservedLedger(env, start, p.session, batch);
    assert id !in p.inflight by { assert id in p.inflight ==> FlightRecorded(env, store, id, p.inflight[id]); }
    IdIsNew(env, p.session, id);
    FlightsSurvive(env, store, after, p.inflight);
    NotInFlightYet(env, start, p, batch);
    NewFlight(env, after, p.inflight, id, batch);
  }

  lemma ReservedLedger(env: Env, start: Store, before: Session, batch: seq<Item>)
    requires LedgerSound(env, start, before) && env.HoldsAll(batch) && Reserve(env, before, batch).1.Success?
    ensures LedgerSound(env, start, Reserve(env, before, batch).0)
  {
    hide Reachable, PackRows, Grows;
    ReserveKeeps(env, before, batch);
    ReserveFits(env, before, batch);
    GrowsTransitive(start, before.store, Reserve(env, before, batch).0.store);
  }

  lemma NotInFlightYet(env: Env, start: Store, p: Progress, batch: seq<Item>)
    requires Conserved(env, start, p) && InHand(env, start, p, batch)
    ensures forall n :: n in Seqs(batch) ==> !InFlight(p.inflight, n)
  {
    hide LedgerSound, ListsSound, InFlight, Unscanned;
    forall n | n in Seqs(batch) ensures !InFlight(p.inflight, n) { assert InPlace(env, start, p, n); }
  }

  lemma TriedOnceMore(store: Store, attempt: Attempt, n: Seqno)
    ensures TimesTried(store.attempts + [attempt], n) == TimesTried(store.attempts, n) + One(n in attempt.seqs)
  {
    assert (store.attempts + [attempt])[..|store.attempts|] == store.attempts;
  }

  lemma ReservedPlaces(env: Env, start: Store, p: Progress, q: Progress, batch: seq<Item>, id: nat, attempt: Attempt)
    requires Conserved(env, start, p) && InHand(env, start, p, batch) && id !in p.inflight
    requires q ==
      p.(session := q.session, inflight := p.inflight[id := batch], deferred := p.deferred - SeqnoSet(batch))
    requires q.session.store.completions == p.session.store.completions
    requires q.session.store.rejections == p.session.store.rejections
    requires q.session.store.attempts == p.session.store.attempts + [attempt] && attempt.seqs == Seqs(batch)
    requires forall n: Seqno :: InFlight(q.inflight, n) <==> InFlight(p.inflight, n) || n in Seqs(batch)
    ensures forall n: Seqno :: InPlace(env, start, q, n)
  {
    forall n: Seqno ensures InPlace(env, start, q, n) {
      assert InPlace(env, start, p, n);
      TriedOnceMore(p.session.store, attempt, n);
      ReservePlace(env, start, p, q, id, batch, n);
    }
  }

  /** A successful reservation puts the batch in flight. */
  lemma ReserveMoves(env: Env, start: Store, p: Progress, batch: seq<Item>, s: Session, id: nat)
    requires Conserved(env, start, p) && InHand(env, start, p, batch)
    requires Reserve(env, p.session, batch) == (s, Success(id))
    ensures id == |p.session.store.attempts| + 1 == |s.store.attempts| && id !in p.inflight
    ensures Conserved(env, start,
      p.(session := s, inflight := p.inflight[id := batch], deferred := p.deferred - SeqnoSet(batch)))
  {
    hide Reserve, Reachable, PackRows;
    ReservedLists(env, start, p, batch, s, id);
    var q := p.(session := s, inflight := p.inflight[id := batch], deferred := p.deferred - SeqnoSet(batch));
    ReservedPlaces(env, start, p, q, batch, id, s.store.attempts[id - 1]);
    assert Grows(start, p.session.store);
    assert ListsSound(env, start, p);
  }

  // ---------- answers ----------

  lemma {:induction false} InsertsWithoutConflict(c: Contract, id: nat, completions: map<Seqno, Completion>,
      batch: seq<Item>, answers: Answers)
    requires |batch| == |answers| && Distinct(Seqs(batch))
    requires forall i :: 0 <= i < |batch| ==> !Conflicts(completions, batch[i])
    requires forall i, j :: 0 <= i < j < |batch| ==> batch[i].id != batch[j].id
    ensures Inserted(c, id, completions, batch, answers).Some?
  {
    if batch != [] {
      var k := |batch| - 1;
      SeqsFront(batch);
      InsertsWithoutConflict(c, id, completions, batch[..k], answers[..k]);
      InsertedRows(c, id, completions, batch[..k], answers[..k]);
      var rows := Inserted(c, id, completions, batch[..k], answers[..k]).value;
      forall n | n in rows ensures rows[n].id != batch[k].id {
        if n !in completions {
          var i :| 0 <= i < k && Seqs(batch[..k])[i] == n;
          assert rows[batch[..k][i].seqno] == CompletionOf(c, id, batch[..k][i], answers[..k][i]);
        }
      }
    }
  }

  lemma NoConflict(env: Env, completions: map<Seqno, Completion>, item: Item)
    requires env.Valid() && Bound(env, completions) && env.Holds(item) && item.seqno !in completions
    ensures !Conflicts(completions, item)
  {
    forall n | n in completions ensures completions[n].id != item.id {
      assert RowBound(env, completions[n], n);
      var i, j := n - 1, item.seqno - 1;
      assert i != j && (i < j || j < i);
    }
  }

  lemma PackIdsDistinct(env: Env, batch: seq<Item>)
    requires env.Valid() && env.HoldsAll(batch) && Distinct(Seqs(batch))
    ensures forall i, j :: 0 <= i < j < |batch| ==> batch[i].id != batch[j].id
  {
    forall i, j | 0 <= i < j < |batch| ensures batch[i].id != batch[j].id {
      assert Seqs(batch)[i] != Seqs(batch)[j];
      assert env.Holds(batch[i]) && env.Holds(batch[j]);
      var a, b := batch[i].seqno - 1, batch[j].seqno - 1;
      assert a < b || b < a;
    }
  }

  ghost predicate GoodAnswers(env: Env, batch: seq<Item>, answers: Answers) {
    |answers| == |batch| && FirstInvalid(env.contract, batch, answers).None?
  }

  /** Members in flight are not settled, so finishing their attempt meets no duplicate. */
  lemma FinishSucceeds(env: Env, start: Store, p: Progress, id: nat, answers: Answers)
    requires Conserved(env, start, p) && id in p.inflight && GoodAnswers(env, p.inflight[id], answers)
    ensures Finish(env, p.session, id, p.inflight[id], answers).1.None?
  {
    hide Verify, Reachable;
    var batch := p.inflight[id];
    assert FlightRecorded(env, p.session.store, id, batch);
    LandedFlight(env, p.session.store, p.inflight, id);
    forall i | 0 <= i < |batch|
      ensures !Settled(p.session.store, batch[i].seqno) && batch[i].seqno <= |env.pack.members|
    {
      assert Seqs(batch)[i] == batch[i].seqno;
      assert InPlace(env, start, p, batch[i].seqno);
    }
    NotSealedYet(env, start, p, batch[0].seqno);
    forall i | 0 <= i < |batch| ensures !Conflicts(p.session.store.completions, batch[i]) {
      assert env.Holds(batch[i]);
      NoConflict(env, p.session.store.completions, batch[i]);
    }
    PackIdsDistinct(env, batch);
    InsertsWithoutConflict(env.contract, id, p.session.store.completions, batch, answers);
  }

  /** One member's place when its call is answered and its ledger rows change accordingly. */
  lemma LandPlace(env: Env, start: Store, p: Progress, q: Progress, id: nat, settle: bool, again: bool, n: Seqno)
    requires InPlace(env, start, p, n) && id in p.inflight && !(settle && again)
    requires q.cursor == p.cursor && q.carry == p.carry && q.inflight == p.inflight - {id}
    requires q.session.store.attempts == p.session.store.attempts
    requires Settled(q.session.store, n) <==> Settled(p.session.store, n) || (settle && n in Seqs(p.inflight[id]))
    requires q.retry == if again then p.retry + p.inflight[id] else p.retry
    requires q.deferred == if settle || again then p.deferred else p.deferred + SeqnoSet(p.inflight[id])
    requires InFlight(q.inflight, n) <==> InFlight(p.inflight, n) && n !in Seqs(p.inflight[id])
    requires n in Seqs(p.inflight[id]) ==> InFlight(p.inflight, n)
    requires again ==> |p.inflight[id]| > 1
    ensures InPlace(env, start, q, n)
  {
    assert Seqs(p.retry + p.inflight[id]) == Seqs(p.retry) + Seqs(p.inflight[id]);
    assert Queued(q.retry, n) <==> Queued(p.retry, n) || (again && n in Seqs(p.inflight[id]));
  }

  lemma CarryStaysOpen(env: Env, start: Store, p: Progress, after: Store, id: nat)
    requires Conserved(env, start, p) && id in p.inflight
    requires forall n :: Settled(after, n) ==> Settled(p.session.store, n) || n in Seqs(p.inflight[id])
    ensures ScanSound(env, after, p.cursor, p.carry)
  {
    if p.carry.Some? {
      var n := p.carry.value.seqno;
      LandedFlight(env, p.session.store, p.inflight, id);
      assert InPlace(env, start, p, n);
      assert Unscanned(env, p.session.store, p.cursor, p.carry, n);
    }
  }

  lemma FinishedLists(env: Env, start: Store, p: Progress, id: nat, answers: Answers)
    requires Conserved(env, start, p) && id in p.inflight
    requires Finish(env, p.session, id, p.inflight[id], answers).1.None?
    ensures var s := Finish(env, p.session, id, p.inflight[id], answers).0;
      && LedgerSound(env, start, s)
      && FlightsSound(env, s.store, p.inflight - {id})
      && s.store.attempts == p.session.store.attempts
      && (forall n: Seqno :: Settled(s.store, n) <==> Settled(p.session.store, n) || n in Seqs(p.inflight[id]))
  {
    hide Reachable, Verify, Bound, Grows, Finish, Places;
    var batch, store, after := p.inflight[id], p.session.store,
      Finish(env, p.session, id, p.inflight[id], answers).0.store;
    assert FlightRecorded(env, store, id, batch);
    FinishedTables(env, p.session, id, batch, answers);
    FinishKeeps(env, p.session, id, batch, answers);
    FinishBinds(env, p.session, id, batch, answers);
    GrowsTransitive(start, store, after);
    LandedFlight(env, store, p.inflight, id);
    FlightsSurvive(env, store, after, p.inflight - {id});
    NotRejectedInFlight(env, start, p, id);
  }

  lemma NotRejectedInFlight(env: Env, start: Store, p: Progress, id: nat)
    requires Conserved(env, start, p) && id in p.inflight
    ensures forall n :: n in Seqs(p.inflight[id]) ==> n !in p.session.store.rejections
  {
    hide LedgerSound, Unscanned;
    LandedFlight(env, p.session.store, p.inflight, id);
    forall n | n in Seqs(p.inflight[id]) ensures n !in p.session.store.rejections { assert InPlace(env, start, p, n); }
  }

  /** A completed call settles its batch. */
  lemma FinishMoves(env: Env, start: Store, p: Progress, id: nat, answers: Answers)
    requires Conserved(env, start, p) && id in p.inflight
    requires Finish(env, p.session, id, p.inflight[id], answers).1.None?
    ensures Conserved(env, start,
      p.(session := Finish(env, p.session, id, p.inflight[id], answers).0, inflight := p.inflight - {id}))
  {
    hide LedgerSound, Finish, Reachable, Verify;
    FinishedLists(env, start, p, id, answers);
    var q := p.(session := Finish(env, p.session, id, p.inflight[id], answers).0, inflight := p.inflight - {id});
    LandedFlight(env, p.session.store, p.inflight, id);
    forall n: Seqno ensures InPlace(env, start, q, n) {
      assert InPlace(env, start, p, n);
      LandPlace(env, start, p, q, id, true, false, n);
    }
    CarryStaysOpen(env, start, p, q.session.store, id);
  }

  /** A failed call rejects a lone oversized input, queues the members of an oversized batch one by
      one, and defers any other batch. */
  ghost function AfterFail(p: Progress, id: nat, code: Code): Progress
    requires id in p.inflight
  {
    var batch := p.inflight[id];
    var q := p.(session := Fail(p.session, id, code).0, inflight := p.inflight - {id});
    if code != InputTooLong then q.(deferred := p.deferred + SeqnoSet(batch))
    else if |batch| > 1 then q.(retry := p.retry + batch)
    else q
  }

  lemma FailSucceeds(env: Env, start: Store, p: Progress, id: nat, code: Code)
    requires Conserved(env, start, p) && id in p.inflight && code.IsFailure()
    ensures Fail(p.session, id, code).1.None?
  {
    hide Reachable, Verify, Bound, Grows;
    var batch := p.inflight[id];
    assert FlightRecorded(env, p.session.store, id, batch);
    LandedFlight(env, p.session.store, p.inflight, id);
    assert Seqs(batch)[0] in Seqs(batch);
    assert InPlace(env, start, p, Seqs(batch)[0]);
  }

  lemma FailedLists(env: Env, start: Store, p: Progress, id: nat, code: Code)
    requires Conserved(env, start, p) && id in p.inflight && code.IsFailure()
    ensures var after := Fail(p.session, id, code).0.store;
      && LedgerSound(env, start, Fail(p.session, id, code).0)
      && FlightsSound(env, after, p.inflight - {id})
      && after.attempts == p.session.store.attempts
      && (forall n: Seqno :: Settled(after, n) <==>
            Settled(p.session.store, n) || (code == InputTooLong && |p.inflight[id]| == 1 && n in Seqs(p.inflight[id])))
  {
    hide Reachable, Verify, Bound, Grows;
    FailSucceeds(env, start, p, id, code);
    var batch, store, after := p.inflight[id], p.session.store, Fail(p.session, id, code).0.store;
    assert FlightRecorded(env, store, id, batch);
    FailKeeps(env, p.session, id, code);
    GrowsTransitive(start, store, after);
    LandedFlight(env, store, p.inflight, id);
    FlightsSurvive(env, store, after, p.inflight - {id});
    forall n: Seqno
      ensures n in after.rejections <==>
        n in store.rejections || (code == InputTooLong && |batch| == 1 && n in Seqs(batch))
    {
    }
    forall n | n in Seqs(batch) ensures n !in store.completions { assert InPlace(env, start, p, n); }
  }

  lemma FailMoves(env: Env, start: Store, p: Progress, id: nat, code: Code)
    requires Conserved(env, start, p) && id in p.inflight && code.IsFailure()
    ensures Conserved(env, start, AfterFail(p, id, code))
  {
    hide LedgerSound, Fail, Reachable, Verify;
    var batch, q := p.inflight[id], AfterFail(p, id, code);
    var settle, again := code == InputTooLong && |batch| == 1, code == InputTooLong && |batch| > 1;
    assert FlightRecorded(env, p.session.store, id, batch);
    FailedLists(env, start, p, id, code);
    LandedFlight(env, p.session.store, p.inflight, id);
    forall n: Seqno ensures InPlace(env, start, q, n) {
      assert InPlace(env, start, p, n);
      LandPlace(env, start, p, q, id, settle, again, n);
    }
    CarryStaysOpen(env, start, p, q.session.store, id);
    forall n | n in Seqs(batch) ensures !Queued(p.retry, n) { assert InPlace(env, start, p, n); }
    if again { DistinctConcat(p.retry, batch); }
  }

  lemma DistinctConcat(a: seq<Item>, b: seq<Item>)
    requires Distinct(Seqs(a)) && Distinct(Seqs(b)) && forall n :: n in Seqs(b) ==> n !in Seqs(a)
    ensures Distinct(Seqs(a + b))
  {
    var s, t := Seqs(a), Seqs(b);
    assert Seqs(a + b) == s + t;
    forall i, j | 0 <= i < j < |s + t| ensures (s + t)[i] != (s + t)[j] {
      if i < |s| <= j {
        assert t[j - |s|] in t && s[i] in s;
      }
    }
  }

  /** A call whose answer could not be recorded leaves its batch to a later run. */
  lemma AbandonMoves(env: Env, start: Store, p: Progress, id: nat)
    requires Conserved(env, start, p) && id in p.inflight
    ensures Conserved(env, start, p.(inflight := p.inflight - {id}, deferred := p.deferred + SeqnoSet(p.inflight[id])))
  {
    var q := p.(inflight := p.inflight - {id}, deferred := p.deferred + SeqnoSet(p.inflight[id]));
    LandedFlight(env, p.session.store, p.inflight, id);
    forall n: Seqno ensures InPlace(env, start, q, n) {
      assert InPlace(env, start, p, n);
      LandPlace(env, start, p, q, id, false, false, n);
    }
  }

  /** Nothing is left to send: the queue is empty and the scan is over. */
  ghost predicate Drained(env: Env, p: Progress) {
    p.retry == [] && forall n: Seqno :: !Unscanned(env, p.session.store, p.cursor, p.carry, n)
  }

  lemma DrainedStays(env: Env, p: Progress, q: Progress)
    requires Drained(env, p) && q.retry == p.retry && q.cursor == p.cursor && q.carry == p.carry
    requires Grows(p.session.store, q.session.store)
    ensures Drained(env, q)
  {
    forall n: Seqno ensures !Unscanned(env, q.session.store, q.cursor, q.carry, n) {
      assert !Unscanned(env, p.session.store, p.cursor, p.carry, n);
    }
  }

  /** Before the first pass every member is settled or still to be scanned. */
  lemma StartConserved(env: Env, s: Session)
    requires env.Valid() && Reachable(env, s) && PackRows(env, s.store)
    ensures Conserved(env, s.store, Progress(s, 0, None, [], map[], {}))
  {
    var p, store := Progress(s, 0, None, [], map[], {}), s.store;
    forall n: Seqno ensures InPlace(env, store, p, n) {
      assert n in store.completions ==> RowBound(env, store.completions[n], n);
      if n in store.rejections {
        assert RejectedBy(store.attempts, store.outcomes, n, store.rejections[n]);
        assert n in store.attempts[store.rejections[n] - 1].seqs;
      }
    }
  }

  /** What the loop itself relies on. */
  lemma ConservedFacts(env: Env, start: Store, p: Progress)
    requires Conserved(env, start, p)
    ensures env.Valid() && Reachable(env, p.session) && PackRows(env, p.session.store) && Grows(start, p.session.store)
    ensures ScanSound(env, p.session.store, p.cursor, p.carry)
    ensures forall a :: a in p.inflight ==>
      1 <= a <= |p.session.store.attempts| && p.inflight[a] != [] && env.HoldsAll(p.inflight[a])
  {
    forall a | a in p.inflight
      ensures 1 <= a <= |p.session.store.attempts| && p.inflight[a] != [] && env.HoldsAll(p.inflight[a])
    {
      assert FlightRecorded(env, p.session.store, a, p.inflight[a]);
    }
  }

  lemma ScanSoundNext(env: Env, store: Store, cursor: nat, carry: Option<Item>)
    requires env.Valid() && cursor <= |env.pack.members|
    requires carry.Some? ==>
      0 < cursor && carry.value == env.pack.members[cursor - 1] && IsOpen(store, carry.value.seqno)
    ensures ScanSound(env, store, cursor, carry)
  {
  }

  lemma NothingPending(env: Env, p: Progress)
    requires env.Valid() && ScanSound(env, p.session.store, p.cursor, p.carry) && p.retry == []
    requires StillPending(p.session.store, env.pack.members, p.cursor, p.carry) == []
    ensures Drained(env, p)
  {
    PendingFrom(env, p.session.store, p.cursor, p.carry);
    assert Seqs([]) == [];
  }

  /** Sealing moves no member. */
  lemma SealMoves(env: Env, start: Store, p: Progress)
    requires Conserved(env, start, p)
    ensures Conserved(env, start, p.(session := Seal(env, p.session).0))
  {
    hide Seal, Reachable, PackRows, Grows;
    var q := p.(session := Seal(env, p.session).0);
    SealKeeps(env, p.session);
    SealedTables(env, p.session);
    GrowsTransitive(start, p.session.store, q.session.store);
    PackRowsStay(env, p.session.store, q.session.store);
    FlightsSurvive(env, p.session.store, q.session.store, p.inflight);
    forall n: Seqno ensures InPlace(env, start, q, n) {
      assert InPlace(env, start, p, n);
      SealPlace(env, start, p, q, n);
    }
  }

  /** Sealing writes nothing but the report. */
  lemma SealedTables(env: Env, s: Session)
    ensures Seal(env, s).0.store == s.store.(report := Seal(env, s).0.store.report)
  {
    hide Verify;
  }

  lemma PackRowsStay(env: Env, store: Store, after: Store)
    requires PackRows(env, store) && after.completions == store.completions && after.attempts == store.attempts
    ensures PackRows(env, after)
  {
  }

  lemma SealPlace(env: Env, start: Store, p: Progress, q: Progress, n: Seqno)
    requires InPlace(env, start, p, n) && q == p.(session := q.session)
    requires q.session.store == p.session.store.(report := q.session.store.report)
    ensures InPlace(env, start, q, n)
  {
  }
}
