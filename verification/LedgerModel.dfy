/** The durable embedding ledger as values: tables, limits, and what each operation does to them.
    The class in Ledger.dfy performs these steps with the loops of the source. */
module LedgerModel {
  import opened Wrappers
  import opened Sequences

  type Seqno = n: int | 1 <= n witness 1

  /** One embedding input of the sealed pack, as the ledger rebuilds it from the input pack's tables. */
  datatype Item = Item(seqno: Seqno, id: string, partition: int, text: string, contentSha: string, tokens: nat)

  datatype PackReport = PackReport(members: nat, inputCharacters: nat, localTokens: nat,
                                   inadmissible: nat, coverageComplete: bool)

  /** The read-only input pack; its k-th member has sequence number k. */
  datatype Pack = Pack(readonly: bool, sealed: Option<PackReport>, fileSha: string, members: seq<Item>)

  type Vector = seq<real>

  /** A completion receipt. `closed` stands for the fields that no input determines: version,
      provider, model, task, limits and the untruncated-report flags all have their fixed values. */
  datatype Receipt = Receipt(closed: bool, contentSha: string, vectorSha: string, localCount: int, providerTokens: int)

  /** The embedding contract's hashes: `None` where it raises on an unusable text or vector.
      `single` is the binary32 form in which a vector is stored. */
  datatype Contract = Contract(textSha: string -> Option<string>, vectorSha: Vector -> Option<string>,
                               single: Vector -> Vector)
  {
    /** Vector hashes are taken on the binary32 form, so storing a vector keeps its hash. */
    ghost predicate Lawful() {
      forall v: Vector :: vectorSha(single(v)) == vectorSha(v)
    }
  }

  const INPUT_LIMIT: nat := 1536
  const REQUEST_LIMIT: nat := 14000
  const COUNT_LIMIT: nat := 250
  const PROVIDER_INPUT_LIMIT: nat := 2048
  const MAX_TRIES: nat := 3

  /** The policy a ledger file is bound to. */
  datatype Spec = Spec(packSha: string, report: PackReport) {
    function MaxCharacters(): nat { (report.inputCharacters * 105 + 99) / 100 }
    function MaxLocalTokens(): nat { (report.localTokens * 105 + 99) / 100 }
    function MaxRequests(): nat { if report.members < 10 then 10 else report.members }
  }

  datatype Env = Env(pack: Pack, contract: Contract, spec: Spec) {
    predicate Holds(item: Item) {
      item.seqno <= |pack.members| && pack.members[item.seqno - 1] == item
    }

    predicate HoldsAll(batch: seq<Item>) {
      forall i :: 0 <= i < |batch| ==> Holds(batch[i])
    }

    /** What sealing a pack establishes: consecutive sequence numbers, unique ids, a true member
        count; and the embedding contract's law. */
    ghost predicate Valid() {
      && contract.Lawful()
      && spec.report.members == |pack.members|
      && (forall i :: 0 <= i < |pack.members| ==> pack.members[i].seqno == i + 1)
      && (forall i, j :: 0 <= i < j < |pack.members| ==> pack.members[i].id != pack.members[j].id)
    }
  }

  /** Answer codes; `Other` is any code outside the ledger's failure list. */
  datatype Code =
    | Complete | InputTooLong | Throttled | ProviderFailure | ResponseInvalid
    | Http(status: int)
    | Other(name: string)
  {
    predicate IsFailure() {
      match this
      case InputTooLong | Throttled | ProviderFailure | ResponseInvalid => true
      case Http(status) => status in {400, 401, 403, 404, 500, 503, 504}
      case _ => false
    }
  }

  datatype Attempt = Attempt(seqs: seq<Seqno>, inputs: seq<(string, string)>, characters: nat, localTokens: nat)

  datatype Completion = Completion(id: string, partition: int, vector: Vector, receipt: Receipt, attempt: nat)

  /** A line of the completion manifest; the report keeps the manifest where the source keeps its hash. */
  datatype Line = Line(seqno: Seqno, completion: Completion)

  datatype Report = Report(packSha: string, members: nat, manifest: seq<Line>, providerTokens: int)

  /** The committed content of the database file. Attempt ids are 1, 2, ... in insertion order. */
  datatype Store = Store(spec: Option<Spec>, report: Option<Report>, attempts: seq<Attempt>, outcomes: map<nat, Code>,
                         tries: map<Seqno, nat>, completions: map<Seqno, Completion>, rejections: map<Seqno, nat>)

  datatype Budget = Budget(characters: nat, localTokens: nat, requests: nat)

  /** An open ledger: the file together with the process's own budget and seal. */
  datatype Session = Session(store: Store, budget: Budget, sealed: Option<Report>)

  datatype Error =
    | UnsealedPack | PackHashMismatch | IncompleteInventory | FileExists | FileMissing | SpecChanged
    | Sealed | InvalidInputs | BudgetExhausted | DuplicateInput | AlreadyCompleted | RetryLimit
    | NoSuchAttempt | BindingMismatch | CountMismatch | InvalidProvenance | LocalCountMismatch
    | InvalidCode | IntegrityViolation
    | Incomplete | NoSuchMember | ReceiptMismatch | AttemptNotCompleted | AttemptMemberMismatch | SealedChanged
    | InvalidLimits | InvalidBatchLimit

  // ---------- reading a store ----------

  function Seqs(batch: seq<Item>): (r: seq<Seqno>)
    ensures |r| == |batch|
  {
    seq(|batch|, i requires 0 <= i < |batch| => batch[i].seqno)
  }

  function Inputs(batch: seq<Item>): seq<(string, string)> {
    seq(|batch|, i requires 0 <= i < |batch| => (batch[i].id, batch[i].contentSha))
  }

  function Characters(batch: seq<Item>): nat {
    if batch == [] then 0 else Characters(batch[..|batch| - 1]) + |batch[|batch| - 1].text|
  }

  function Tokens(batch: seq<Item>): nat {
    if batch == [] then 0 else Tokens(batch[..|batch| - 1]) + batch[|batch| - 1].tokens
  }

  /** The budget a list of attempts has used. */
  function Spent(attempts: seq<Attempt>): Budget {
    if attempts == [] then Budget(0, 0, 0)
    else
      var last, rest := attempts[|attempts| - 1], Spent(attempts[..|attempts| - 1]);
      Budget(rest.characters + last.characters, rest.localTokens + last.localTokens, rest.requests + 1)
  }

  /** How many attempts list a member. */
  function TimesTried(attempts: seq<Attempt>, n: Seqno): nat {
    if attempts == [] then 0
    else TimesTried(attempts[..|attempts| - 1], n) + (if n in attempts[|attempts| - 1].seqs then 1 else 0)
  }

  function TriesOf(store: Store, n: Seqno): nat {
    if n in store.tries then store.tries[n] else 0
  }

  predicate WithinCaps(spec: Spec, b: Budget) {
    b.characters <= spec.MaxCharacters() && b.localTokens <= spec.MaxLocalTokens() && b.requests <= spec.MaxRequests()
  }

  predicate ValidProvenance(c: Contract, receipt: Receipt, text: string, vector: Vector) {
    && receipt.closed && 1 <= receipt.localCount <= INPUT_LIMIT && 1 <= receipt.providerTokens <= PROVIDER_INPUT_LIMIT
    && c.textSha(text) == Some(receipt.contentSha) && c.vectorSha(vector) == Some(receipt.vectorSha)
  }

  // ---------- opening ----------

  function Open(env: Env, packSha: string, file: Option<Store>, create: bool): Result<Session, Error> {
    if !env.pack.readonly || env.pack.sealed.None? then Failure(UnsealedPack)
    else if env.pack.fileSha != packSha then Failure(PackHashMismatch)
    else
      var report := env.pack.sealed.value;
      if report.inadmissible != 0 || !report.coverageComplete then Failure(IncompleteInventory)
      else if create && file.Some? then Failure(FileExists)
      else if !create && file.None? then Failure(FileMissing)
      else
        var spec := Spec(packSha, report);
        var store := if create then Store(Some(spec), None, [], map[], map[], map[], map[]) else file.value;
        if store.spec != Some(spec) then Failure(SpecChanged)
        else Success(Session(store, Spent(store.attempts), store.report))
  }

  // ---------- reserve ----------

  predicate InputsValid(c: Contract, batch: seq<Item>) {
    && 1 <= |batch| <= COUNT_LIMIT
    && (forall i :: 0 <= i < |batch| ==> c.textSha(batch[i].text).Some? && 1 <= batch[i].tokens <= INPUT_LIMIT)
    && Tokens(batch) <= REQUEST_LIMIT
  }

  function Charged(b: Budget, batch: seq<Item>): Budget {
    Budget(b.characters + Characters(batch), b.localTokens + Tokens(batch), b.requests + 1)
  }

  /** The first item that may not be tried again, if any. */
  function FirstObstacle(store: Store, batch: seq<Item>): Option<Error> {
    if batch == [] then None
    else
      var earlier, item := FirstObstacle(store, batch[..|batch| - 1]), batch[|batch| - 1];
      if earlier.Some? then earlier
      else if item.seqno in store.completions then Some(AlreadyCompleted)
      else if TriesOf(store, item.seqno) >= MAX_TRIES then Some(RetryLimit)
      else None
  }

  function Tried(tries: map<Seqno, nat>, batch: seq<Item>): map<Seqno, nat> {
    if batch == [] then tries
    else
      var earlier, n := Tried(tries, batch[..|batch| - 1]), batch[|batch| - 1].seqno;
      earlier[n := (if n in earlier then earlier[n] else 0) + 1]
  }

  function Reserve(env: Env, s: Session, batch: seq<Item>): (Session, Result<nat, Error>) {
    if s.sealed.Some? then (s, Failure(Sealed))
    else if !InputsValid(env.contract, batch) then (s, Failure(InvalidInputs))
    else if !WithinCaps(env.spec, Charged(s.budget, batch)) then (s, Failure(BudgetExhausted))
    else if !Distinct(Seqs(batch)) then (s, Failure(DuplicateInput))
    else if FirstObstacle(s.store, batch).Some? then (s, Failure(FirstObstacle(s.store, batch).value))
    else
      var attempt := Attempt(Seqs(batch), Inputs(batch), Characters(batch), Tokens(batch));
      (s.(store := s.store.(attempts := s.store.attempts + [attempt], tries := Tried(s.store.tries, batch)),
          budget := Charged(s.budget, batch)),
       Success(|s.store.attempts| + 1))
  }

  // ---------- finish ----------

  type Answers = seq<(Vector, Receipt)>

  function FirstInvalid(c: Contract, batch: seq<Item>, answers: Answers): Option<Error>
    requires |batch| == |answers|
  {
    if batch == [] then None
    else
      var n := |batch| - 1;
      var earlier := FirstInvalid(c, batch[..n], answers[..n]);
      if earlier.Some? then earlier
      else if !ValidProvenance(c, answers[n].1, batch[n].text, answers[n].0) then Some(InvalidProvenance)
      else if answers[n].1.localCount != batch[n].tokens then Some(LocalCountMismatch)
      else None
  }

  function CompletionOf(c: Contract, id: nat, item: Item, answer: (Vector, Receipt)): Completion {
    Completion(item.id, item.partition, c.single(answer.0), answer.1, id)
  }

  /** Inserting one row breaks the primary key or the unique member id. */
  predicate Conflicts(completions: map<Seqno, Completion>, item: Item) {
    item.seqno in completions || exists n :: n in completions && completions[n].id == item.id
  }

  /** The completion table after inserting the rows in order; `None` if some insert violates a key. */
  function Inserted(c: Contract, id: nat, completions: map<Seqno, Completion>, batch: seq<Item>, answers: Answers)
      : Option<map<Seqno, Completion>>
    requires |batch| == |answers|
  {
    if batch == [] then Some(completions)
    else
      var n := |batch| - 1;
      var earlier := Inserted(c, id, completions, batch[..n], answers[..n]);
      if earlier.None? || Conflicts(earlier.value, batch[n]) then None
      else Some(earlier.value[batch[n].seqno := CompletionOf(c, id, batch[n], answers[n])])
  }

  function Finish(env: Env, s: Session, id: nat, batch: seq<Item>, answers: Answers): (Session, Option<Error>) {
    if s.sealed.Some? then (s, Some(Sealed))
    else if !(1 <= id <= |s.store.attempts|) then (s, Some(NoSuchAttempt))
    else
      var attempt := s.store.attempts[id - 1];
      if attempt.seqs != Seqs(batch) || attempt.inputs != Inputs(batch) then (s, Some(BindingMismatch))
      else if |answers| != |batch| then (s, Some(CountMismatch))
      else if FirstInvalid(env.contract, batch, answers).Some? then (s, FirstInvalid(env.contract, batch, answers))
      else
        var rows := Inserted(env.contract, id, s.store.completions, batch, answers);
        if rows.None? || id in s.store.outcomes then (s, Some(IntegrityViolation))
        else (s.(store := s.store.(completions := rows.value, outcomes := s.store.outcomes[id := Complete])), None)
  }

  // ---------- fail ----------

  function Fail(s: Session, id: nat, code: Code): (Session, Option<Error>) {
    if !code.IsFailure() then (s, Some(InvalidCode))
    else if !(1 <= id <= |s.store.attempts|) || id in s.store.outcomes then (s, Some(IntegrityViolation))
    else
      var seqs := s.store.attempts[id - 1].seqs;
      var rejects := code == InputTooLong && |seqs| == 1;
      if rejects && seqs[0] in s.store.rejections then (s, Some(IntegrityViolation))
      else
        (s.(store := s.store.(outcomes := s.store.outcomes[id := code],
              rejections := if rejects then s.store.rejections[seqs[0] := id] else s.store.rejections)),
         None)
  }

  // ---------- verify and seal ----------

  /** What is wrong with completion row `n`, if anything. */
  function RowError(env: Env, store: Store, n: Seqno): Option<Error> {
    if n !in store.completions then Some(Incomplete)
    else if n > |env.pack.members| then Some(NoSuchMember)
    else
      var row, item := store.completions[n], env.pack.members[n - 1];
      if row.id != item.id || row.partition != item.partition ||
        row.receipt.localCount != item.tokens then Some(ReceiptMismatch)
      else if !ValidProvenance(env.contract, row.receipt, item.text, row.vector) then Some(InvalidProvenance)
      else if row.attempt !in store.outcomes || store.outcomes[row.attempt] != Complete then Some(AttemptNotCompleted)
      else if !(1 <= row.attempt <= |store.attempts|) then Some(NoSuchAttempt)
      else if n !in store.attempts[row.attempt - 1].seqs then Some(AttemptMemberMismatch)
      else None
  }

  function FirstRowError(env: Env, store: Store, count: nat): Option<Error> {
    if count == 0 then None
    else
      var earlier := FirstRowError(env, store, count - 1);
      if earlier.Some? then earlier else RowError(env, store, count)
  }

  function Manifest(store: Store, count: nat): (lines: seq<Line>)
    requires forall n: Seqno :: n <= count ==> n in store.completions
    ensures |lines| == count
  {
    if count == 0 then [] else Manifest(store, count - 1) + [Line(count, store.completions[count])]
  }

  function ProviderTokens(lines: seq<Line>): int {
    if lines == [] then 0
    else ProviderTokens(lines[..|lines| - 1]) + lines[|lines| - 1].completion.receipt.providerTokens
  }

  lemma {:induction false} NoRowError(env: Env, store: Store, count: nat)
    ensures FirstRowError(env, store, count).None? <==> forall n: Seqno :: n <= count ==> RowError(env, store, n).None?
    ensures FirstRowError(env, store, count).None? ==> forall n: Seqno :: n <= count ==> n in store.completions
  {
    if count > 0 { NoRowError(env, store, count - 1); }
  }

  function Verify(env: Env, store: Store): Result<Report, Error> {
    var count := |store.completions|;
    var wrong := FirstRowError(env, store, count);
    if wrong.Some? then Failure(wrong.value)
    else if count != env.spec.report.members then Failure(Incomplete)
    else
      NoRowError(env, store, count);
      var lines := Manifest(store, count);
      Success(Report(env.spec.packSha, count, lines, ProviderTokens(lines)))
  }

  function Seal(env: Env, s: Session): (Session, Result<Report, Error>) {
    match Verify(env, s.store)
    case Failure(e) => (s, Failure(e))
    case Success(report) =>
      if s.sealed.Some? then (s, if s.sealed.value == report then Success(report) else Failure(SealedChanged))
      else if s.store.report.Some? then (s, Failure(IntegrityViolation))
      else (s.(store := s.store.(report := Some(report)), sealed := Some(report)), Success(report))
  }
}
