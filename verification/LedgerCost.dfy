/** What reservations cost, and how little the five percent ceiling leaves for trying members again. */
module LedgerCost {
  import opened Wrappers
  import opened Sequences
  import opened LedgerModel
  import opened LedgerHistory
  import opened LedgerBinding

  // ---------- the cost of a batch ----------

  /** The texts of a batch laid end to end. */
  ghost function AllText(batch: seq<Item>): string {
    Flatten(seq(|batch|, i requires 0 <= i < |batch| => batch[i].text))
  }

  /** One mark for every token of every input, laid end to end. */
  ghost function AllTokens(batch: seq<Item>): string {
    Flatten(seq(|batch|, i requires 0 <= i < |batch| => seq(batch[i].tokens, _ => '|')))
  }

  /** A batch costs the characters of its texts and the tokens of its inputs, all of them. */
  lemma {:induction false} BatchCost(batch: seq<Item>)
    ensures Characters(batch) == |AllText(batch)| && Tokens(batch) == |AllTokens(batch)|
  {
    if batch != [] {
      var n := |batch| - 1;
      BatchCost(batch[..n]);
      var texts := seq(|batch|, i requires 0 <= i < |batch| => batch[i].text);
      assert texts[..n] == seq(|batch[..n]|, i requires 0 <= i < |batch[..n]| => batch[..n][i].text);
      var marks := seq(|batch|, i requires 0 <= i < |batch| => seq(batch[i].tokens, _ => '|'));
      assert marks[..n] == seq(|batch[..n]|, i requires 0 <= i < |batch[..n]| => seq(batch[..n][i].tokens, _ => '|'));
    }
  }

  ghost predicate InputsInOrder(env: Env, batch: seq<Item>) {
    && 1 <= |batch| <= 250 && |AllTokens(batch)| <= 14000
    && (forall i :: 0 <= i < |batch| ==> env.contract.textSha(batch[i].text).Some? && 1 <= batch[i].tokens <= 1536)
  }

  /** One more request with the batch's cost stays within five percent over the input pack, rounded up. */
  ghost predicate Affordable(env: Env, s: Session, batch: seq<Item>) {
    var report := env.spec.report;
    && 100 * (s.budget.characters + |AllText(batch)|) < 105 * report.inputCharacters + 100
    && 100 * (s.budget.localTokens + |AllTokens(batch)|) < 105 * report.localTokens + 100
    && (|s.store.attempts| < 10 || |s.store.attempts| < report.members)
  }

  ghost predicate TriedLessThanThrice(s: Session, n: Seqno) {
    n !in s.store.completions && TimesTried(s.store.attempts, n) < 3
  }

  lemma {:induction false} SpentRequests(attempts: seq<Attempt>)
    ensures Spent(attempts).requests == |attempts|
  {
    if attempts != [] { SpentRequests(attempts[..|attempts| - 1]); }
  }

  lemma CapsAreFivePercent(env: Env, s: Session, batch: seq<Item>)
    requires InStep(s)
    ensures WithinCaps(env.spec, Charged(s.budget, batch)) <==> Affordable(env, s, batch)
  {
    BatchCost(batch);
    SpentRequests(s.store.attempts);
  }

  /** A reservation succeeds exactly for a valid batch of different members of an unsealed ledger that stays within the
      five percent, each member neither completed nor tried three times. */
  lemma ReserveExactlyWhen(env: Env, s: Session, batch: seq<Item>)
    requires Reachable(env, s)
    ensures Reserve(env, s, batch).1.Success? <==>
      && s.store.report.None? && InputsInOrder(env, batch) && Affordable(env, s, batch)
      && (forall i, j :: 0 <= i < j < |batch| ==> batch[i].seqno != batch[j].seqno)
      && (forall i :: 0 <= i < |batch| ==> TriedLessThanThrice(s, batch[i].seqno))
  {
    BatchCost(batch);
    CapsAreFivePercent(env, s, batch);
    NoObstacle(s.store, batch);
    assert forall i :: 0 <= i < |batch| ==> Seqs(batch)[i] == batch[i].seqno;
    assert forall n :: MayTry(s.store, n) <==> TriedLessThanThrice(s, n);
    hide WithinCaps, Affordable, FirstObstacle, Tokens, AllTokens, AllText, Characters, Reachable;
    assert InputsInOrder(env, batch) <==> InputsValid(env.contract, batch);
    assert Distinct(Seqs(batch)) <==> forall i, j :: 0 <= i < j < |batch| ==> batch[i].seqno != batch[j].seqno;
    assert s.sealed == s.store.report;
  }

  // ---------- the cost of a history ----------

  ghost predicate Within(seqs: seq<Seqno>, count: nat) {
    forall i :: 0 <= i < |seqs| ==> seqs[i] <= count
  }

  ghost function MembersAt(env: Env, seqs: seq<Seqno>): seq<Item>
    requires Within(seqs, |env.pack.members|)
  {
    seq(|seqs|, i requires 0 <= i < |seqs| => env.pack.members[seqs[i] - 1])
  }

  /** An attempt on different pack members that records the characters and tokens of exactly those members. */
  ghost predicate Priced(env: Env, attempt: Attempt) {
    && Distinct(attempt.seqs) && Within(attempt.seqs, |env.pack.members|)
    && attempt.characters == |AllText(MembersAt(env, attempt.seqs))|
    && attempt.localTokens == |AllTokens(MembersAt(env, attempt.seqs))|
  }

  ghost predicate AllPriced(env: Env, attempts: seq<Attempt>) {
    forall i :: 0 <= i < |attempts| ==> Priced(env, attempts[i])
  }

  lemma HeldMembers(env: Env, batch: seq<Item>)
    requires env.HoldsAll(batch)
    ensures Within(Seqs(batch), |env.pack.members|) && MembersAt(env, Seqs(batch)) == batch
  {
    assert forall i :: 0 <= i < |batch| ==> env.Holds(batch[i]) && Seqs(batch)[i] == batch[i].seqno;
  }

  lemma ReservePriced(env: Env, s: Session, batch: seq<Item>)
    requires env.HoldsAll(batch) && AllPriced(env, s.store.attempts)
    ensures AllPriced(env, Reserve(env, s, batch).0.store.attempts)
  {
    hide AllText, AllTokens, Characters, Tokens, WithinCaps, FirstObstacle, Within, MembersAt, Distinct, InputsValid;
    BatchCost(batch);
    HeldMembers(env, batch);
    if Reserve(env, s, batch).1.Success? {
      assert Priced(env, Attempt(Seqs(batch), Inputs(batch), Characters(batch), Tokens(batch)));
    }
  }

  lemma OthersReserveNothing(env: Env, s: Session, e: Event)
    requires !e.EReserve?
    ensures After(env, s, e).store.attempts == s.store.attempts
  {
    hide FirstInvalid, Inserted, Verify;
  }

  /** Over every history with batches of the input pack, every attempt records what its members cost. */
  lemma {:induction false} HistoryPriced(env: Env, s: Session, events: seq<Event>)
    requires env.Valid() && AllPriced(env, s.store.attempts)
    requires forall i :: 0 <= i < |events| ==> FromPack(env, events[i])
    ensures AllPriced(env, AfterAll(env, s, events).store.attempts)
  {
    hide AllPriced, After;
    if events != [] {
      var front, last := events[..|events| - 1], events[|events| - 1];
      HistoryPriced(env, s, front);
      assert FromPack(env, last);
      var before := AfterAll(env, s, front);
      if last.EReserve? {
        ReserveEvent(env, before, last.batch);
        ReservePriced(env, before, last.batch);
      } else {
        OthersReserveNothing(env, before, last);
      }
    }
  }

  lemma ReserveEvent(env: Env, s: Session, batch: seq<Item>)
    ensures After(env, s, EReserve(batch)) == Reserve(env, s, batch).0
  {
  }

  // ---------- counting member by member ----------

  ghost function Lengths(items: seq<Item>): (r: seq<nat>)
    ensures |r| == |items|
  {
    seq(|items|, i requires 0 <= i < |items| => |items[i].text|)
  }

  ghost function TokenCounts(items: seq<Item>): (r: seq<nat>)
    ensures |r| == |items|
  {
    seq(|items|, i requires 0 <= i < |items| => items[i].tokens)
  }

  /** The costs of the members, each as often as it was reserved. */
  ghost function Repeated(attempts: seq<Attempt>, costs: seq<nat>): nat {
    if costs == [] then 0
    else
      var n := |costs|;
      Repeated(attempts, costs[..n - 1]) + TimesTried(attempts, n) * costs[n - 1]
  }

  ghost function Sum(costs: seq<nat>): nat {
    if costs == [] then 0 else Sum(costs[..|costs| - 1]) + costs[|costs| - 1]
  }

  /** The costs of the members of a list, found by going through all members. */
  ghost function Among(seqs: seq<Seqno>, costs: seq<nat>): nat {
    if costs == [] then 0
    else
      var n := |costs|;
      Among(seqs, costs[..n - 1]) + if n in seqs then costs[n - 1] else 0
  }

  /** The same costs, found by going through the list. */
  ghost function Along(seqs: seq<Seqno>, costs: seq<nat>): nat
    requires Within(seqs, |costs|)
  {
    if seqs == [] then 0 else Along(seqs[..|seqs| - 1], costs) + costs[seqs[|seqs| - 1] - 1]
  }

  lemma {:induction false} AmongNone(costs: seq<nat>)
    ensures Among([], costs) == 0
  {
    if costs != [] { AmongNone(costs[..|costs| - 1]); }
  }

  lemma {:induction false} AmongOneMore(seqs: seq<Seqno>, n: Seqno, costs: seq<nat>)
    requires n !in seqs
    ensures Among(seqs + [n], costs) == Among(seqs, costs) + if n <= |costs| then costs[n - 1] else 0
  {
    if costs != [] {
      AmongOneMore(seqs, n, costs[..|costs| - 1]);
    }
  }

  lemma FrontWithin(seqs: seq<Seqno>, count: nat)
    requires Distinct(seqs) && Within(seqs, count) && seqs != []
    ensures var k := |seqs| - 1;
      Distinct(seqs[..k]) && Within(seqs[..k], count) && seqs[k] <= count && seqs[k] !in seqs[..k]
  {
  }

  lemma {:induction false} AmongIsAlong(seqs: seq<Seqno>, costs: seq<nat>)
    requires Distinct(seqs) && Within(seqs, |costs|)
    ensures Among(seqs, costs) == Along(seqs, costs)
  {
    if seqs == [] {
      AmongNone(costs);
    } else {
      hide Among;
      var k := |seqs| - 1;
      var front, last := seqs[..k], seqs[k];
      FrontWithin(seqs, |costs|);
      AmongIsAlong(front, costs);
      AmongOneMore(front, last, costs);
      assert seqs == front + [last];
    }
  }

  lemma {:induction false} AlongTexts(env: Env, items: seq<Item>)
    requires env.HoldsAll(items) && Within(Seqs(items), |env.pack.members|)
    ensures Along(Seqs(items), Lengths(env.pack.members)) == Characters(items)
    ensures Along(Seqs(items), TokenCounts(env.pack.members)) == Tokens(items)
  {
    if items != [] {
      hide Within, Seqs, Along, Characters, Tokens, Env.HoldsAll;
      var k := |items| - 1;
      FrontHeld(env, items);
      AlongTexts(env, items[..k]);
      AlongLast(items, Lengths(env.pack.members));
      AlongLast(items, TokenCounts(env.pack.members));
      CostLast(items);
    }
  }

  lemma FrontHeld(env: Env, items: seq<Item>)
    requires env.HoldsAll(items) && Within(Seqs(items), |env.pack.members|) && items != []
    ensures var k := |items| - 1;
      env.HoldsAll(items[..k]) && Within(Seqs(items[..k]), |env.pack.members|) && env.Holds(items[k])
  {
    assert forall i :: 0 <= i < |items| - 1 ==> Seqs(items[..|items| - 1])[i] == Seqs(items)[i];
  }

  lemma AlongLast(items: seq<Item>, costs: seq<nat>)
    requires Within(Seqs(items), |costs|) && items != []
    ensures var k := |items| - 1;
      Within(Seqs(items[..k]), |costs|) && items[k].seqno <= |costs|
      && Along(Seqs(items), costs) == Along(Seqs(items[..k]), costs) + costs[items[k].seqno - 1]
  {
    assert Seqs(items)[..|items| - 1] == Seqs(items[..|items| - 1]);
    assert Seqs(items)[|items| - 1] == items[|items| - 1].seqno;
  }

  lemma CostLast(items: seq<Item>)
    requires items != []
    ensures var k := |items| - 1;
      Characters(items) == Characters(items[..k]) + |items[k].text| &&
        Tokens(items) == Tokens(items[..k]) + items[k].tokens
  {
  }

  lemma {:induction false} RepeatedOnce(attempts: seq<Attempt>, costs: seq<nat>)
    requires attempts != []
    ensures var k := |attempts| - 1;
      Repeated(attempts, costs) == Repeated(attempts[..k], costs) + Among(attempts[k].seqs, costs)
  {
    if costs != [] {
      var n := |costs|;
      RepeatedOnce(attempts, costs[..n - 1]);
      if n in attempts[|attempts| - 1].seqs {
        assert TimesTried(attempts, n) * costs[n - 1] ==
               TimesTried(attempts[..|attempts| - 1], n) * costs[n - 1] + costs[n - 1];
      }
    }
  }

  lemma {:induction false} RepeatedNever(costs: seq<nat>)
    ensures Repeated([], costs) == 0
  {
    if costs != [] { RepeatedNever(costs[..|costs| - 1]); }
  }

  lemma PricedAlong(env: Env, attempt: Attempt)
    requires env.Valid() && Priced(env, attempt)
    ensures attempt.characters == Among(attempt.seqs, Lengths(env.pack.members))
    ensures attempt.localTokens == Among(attempt.seqs, TokenCounts(env.pack.members))
  {
    var seqs := attempt.seqs;
    var items := MembersAt(env, seqs);
    assert Seqs(items) == seqs && env.HoldsAll(items);
    BatchCost(items);
    AlongTexts(env, items);
    AmongIsAlong(seqs, Lengths(env.pack.members));
    AmongIsAlong(seqs, TokenCounts(env.pack.members));
  }

  /** What all attempts were charged is what the members cost, each as often as it was reserved. */
  lemma {:induction false} SpentIsRepeated(env: Env, attempts: seq<Attempt>)
    requires env.Valid() && AllPriced(env, attempts)
    ensures Spent(attempts).characters == Repeated(attempts, Lengths(env.pack.members))
    ensures Spent(attempts).localTokens == Repeated(attempts, TokenCounts(env.pack.members))
  {
    if attempts == [] {
      RepeatedNever(Lengths(env.pack.members));
      RepeatedNever(TokenCounts(env.pack.members));
    } else {
      var k := |attempts| - 1;
      SpentIsRepeated(env, attempts[..k]);
      PricedAlong(env, attempts[k]);
      RepeatedOnce(attempts, Lengths(env.pack.members));
      RepeatedOnce(attempts, TokenCounts(env.pack.members));
    }
  }

  lemma Scaled(low: nat, high: nat, cost: nat, rest: nat)
    requires low <= high
    ensures low * (rest + cost) <= low * rest + high * cost
  {
    assert high * cost == low * cost + (high - low) * cost;
  }

  lemma {:induction false} RepeatedAtLeast(attempts: seq<Attempt>, costs: seq<nat>, times: nat)
    requires forall n: Seqno :: n <= |costs| ==> times <= TimesTried(attempts, n)
    ensures times * Sum(costs) <= Repeated(attempts, costs)
  {
    if costs != [] {
      var n := |costs|;
      RepeatedAtLeast(attempts, costs[..n - 1], times);
      Scaled(times, TimesTried(attempts, n), costs[n - 1], Sum(costs[..n - 1]));
    }
  }

  /** The report of the input pack counts the members' own characters and tokens. */
  ghost predicate ReportIsTrue(env: Env) {
    && env.spec.report.inputCharacters == |AllText(env.pack.members)|
    && env.spec.report.localTokens == |AllTokens(env.pack.members)|
  }

  lemma {:induction false} SumOfCosts(items: seq<Item>)
    ensures Sum(Lengths(items)) == |AllText(items)| && Sum(TokenCounts(items)) == |AllTokens(items)|
  {
    BatchCost(items);
    if items != [] {
      var n := |items| - 1;
      SumOfCosts(items[..n]);
      BatchCost(items[..n]);
      assert Lengths(items)[..n] == Lengths(items[..n]) && TokenCounts(items)[..n] == TokenCounts(items[..n]);
    }
  }

  /** A cost stays within five percent over the members' own, rounded up, when each was reserved `k` times. */
  ghost predicate CeilingHolds(cost: nat, repeated: nat, k: nat) {
    && k * cost <= repeated && 100 * repeated < 105 * cost + 100
    && (k == 1 ==> 100 * (repeated - cost) < 5 * cost + 100)
    && (2 <= k ==> cost <= 1)
  }

  lemma Ceiling(cost: nat, repeated: nat, k: nat)
    requires k * cost <= repeated <= (cost * 105 + 99) / 100
    ensures CeilingHolds(cost, repeated, k)
  {
    if 2 <= k { assert 2 * cost <= k * cost by { Scaled(2, k, cost, 0); } }
  }

  lemma SpendingBounded(env: Env, attempts: seq<Attempt>, k: nat)
    requires env.Valid() && ReportIsTrue(env) && AllPriced(env, attempts) && WithinCaps(env.spec, Spent(attempts))
    requires forall n: Seqno :: n <= |env.pack.members| ==> k <= TimesTried(attempts, n)
    ensures CeilingHolds(|AllText(env.pack.members)|, Repeated(attempts, Lengths(env.pack.members)), k)
    ensures CeilingHolds(|AllTokens(env.pack.members)|, Repeated(attempts, TokenCounts(env.pack.members)), k)
    ensures |attempts| <= 10 || |attempts| <= |env.pack.members|
  {
    hide AllText, AllTokens, Repeated, TimesTried, Spent, AllPriced, CeilingHolds, Sum;
    SpentIsRepeated(env, attempts);
    SpentRequests(attempts);
    SumOfCosts(env.pack.members);
    RepeatedAtLeast(attempts, Lengths(env.pack.members), k);
    RepeatedAtLeast(attempts, TokenCounts(env.pack.members), k);
    Ceiling(|AllText(env.pack.members)|, Repeated(attempts, Lengths(env.pack.members)), k);
    Ceiling(|AllTokens(env.pack.members)|, Repeated(attempts, TokenCounts(env.pack.members)), k);
  }

  /** Over every history of a new ledger, whatever failed, crashed or was tried again: the members' characters, each as
      often as it was reserved, stay within five percent over the input pack's own, rounded up; and so do the tokens.
      Once every member has been reserved, what was spent on second and third tries is at most those five percent. All
      members cannot have been reserved twice, unless the input pack has at most one character and one token. */
  lemma CeilingLimitsRetries(env: Env, packSha: string, events: seq<Event>, k: nat)
    requires env.Valid() && ReportIsTrue(env)
    requires env.spec == Spec(packSha, env.pack.sealed.GetOr(PackReport(0, 0, 0, 0, false)))
    requires Open(env, packSha, None, true).Success?
    requires forall i :: 0 <= i < |events| ==> FromPack(env, events[i])
    requires var attempts := AfterAll(env, Open(env, packSha, None, true).value, events).store.attempts;
      forall n: Seqno :: n <= |env.pack.members| ==> k <= TimesTried(attempts, n)
    ensures var attempts := AfterAll(env, Open(env, packSha, None, true).value, events).store.attempts;
      && CeilingHolds(|AllText(env.pack.members)|, Repeated(attempts, Lengths(env.pack.members)), k)
      && CeilingHolds(|AllTokens(env.pack.members)|, Repeated(attempts, TokenCounts(env.pack.members)), k)
      && (|attempts| <= 10 || |attempts| <= |env.pack.members|)
  {
    hide Reachable, AfterAll, Open, AllText, AllTokens, Repeated, TimesTried, Spent, AllPriced, CeilingHolds,
      WithinCaps, ReportIsTrue, Env.Valid, FromPack;
    var s := Open(env, packSha, None, true).value;
    NothingReserved(env, packSha);
    HistoryPriced(env, s, events);
    HistoryReachable(env, packSha, events);
    SpendingBounded(env, AfterAll(env, s, events).store.attempts, k);
  }

  lemma NothingReserved(env: Env, packSha: string)
    requires Open(env, packSha, None, true).Success?
    ensures AllPriced(env, Open(env, packSha, None, true).value.store.attempts)
  {
  }

  lemma HistoryReachable(env: Env, packSha: string, events: seq<Event>)
    requires env.spec == Spec(packSha, env.pack.sealed.GetOr(PackReport(0, 0, 0, 0, false)))
    requires Open(env, packSha, None, true).Success?
    ensures var s := AfterAll(env, Open(env, packSha, None, true).value, events);
      Reachable(env, s) && WithinCaps(env.spec, Spent(s.store.attempts))
  {
    ReopenRestores(env, packSha, events);
  }
}
