/** Building a frontier in bounded slices over a sealed inventory. */
module FrontierBuild {
  import opened Wrappers
  import opened Sequences
  import opened Order
  import opened FrontierCheckpoint

  /** One paper of the inventory: its distinct sources and the digest of its revisions. */
  datatype Paper = Paper(id: string, sources: seq<string>, exclusions: string)

  ghost predicate Sealed(inv: seq<Paper>) {
    && (forall k :: 0 <= k < |inv| ==> inv[k].id != "" && Distinct(inv[k].sources))
    && (forall k, l :: 0 <= k < l < |inv| ==> TextLess(inv[k].id, inv[l].id))
  }

  /** The index of the first paper behind `after`, or the size of the inventory. */
  function NextPaper(inv: seq<Paper>, after: string): (k: nat)
    ensures k <= |inv| && (k < |inv| ==> TextLess(after, inv[k].id))
    ensures forall l :: 0 <= l < k ==> TextAtMost(inv[l].id, after)
  {
    if inv == [] || TextLess(after, inv[0].id) then 0 else 1 + NextPaper(inv[1..], after)
  }

  // ---------- the durable state ----------

  /** A source has its list, under the paper's own exclusions. */
  predicate SourceSaved(t: Tables, p: Paper, source: string) {
    (p.id, source) in t.origins && t.origins[(p.id, source)].exclusions == p.exclusions
  }

  predicate PaperSaved(t: Tables, p: Paper) {
    forall i :: 0 <= i < |p.sources| ==> SourceSaved(t, p, p.sources[i])
  }

  /** Everything up to the cursor is saved. */
  ghost predicate Covered(inv: seq<Paper>, t: Tables, cursor: string) {
    forall k :: 0 <= k < NextPaper(inv, cursor) ==> PaperSaved(t, inv[k])
  }

  ghost predicate Belongs(inv: seq<Paper>, t: Tables, key: Key) {
    exists k :: 0 <= k < |inv| && key.0 == inv[k].id && key.1 in inv[k].sources && SourceSaved(t, inv[k], key.1)
  }

  /** Every saved list is one of the inventory's. */
  ghost predicate Inventoried(inv: seq<Paper>, t: Tables) {
    forall key :: key in t.origins ==> Belongs(inv, t, key)
  }

  /** The query log: which source was asked for, and whether its answer was saved. */
  datatype Query = Query(key: Key, saved: bool)

  /** A source whose answer was saved is never asked for again, and those are exactly the saved sources. */
  ghost predicate AskedOnce(log: seq<Query>, t: Tables) {
    && (forall i, j :: 0 <= i < j < |log| && log[i].saved ==> log[j].key != log[i].key)
    && (forall i :: 0 <= i < |log| && log[i].saved ==> log[i].key in t.origins)
    && (forall key :: key in t.origins ==> exists i :: 0 <= i < |log| && log[i] == Query(key, true))
  }

  ghost predicate Consistent(inv: seq<Paper>, t: Tables, cursor: string, log: seq<Query>) {
    Sound(t) && Covered(inv, t, cursor) && Inventoried(inv, t) && AskedOnce(log, t)
  }

  // ---------- how much is left ----------

  function TotalSources(inv: seq<Paper>): nat {
    if inv == [] then 0 else TotalSources(inv[..|inv| - 1]) + |inv[|inv| - 1].sources|
  }

  function AllKeys(inv: seq<Paper>): set<Key> {
    if inv == [] then {} else AllKeys(inv[..|inv| - 1]) + KeysOf(inv[|inv| - 1].id, inv[|inv| - 1].sources)
  }

  function KeysOf(paper: string, sources: seq<string>): set<Key> {
    if sources == [] then {} else KeysOf(paper, sources[..|sources| - 1]) + {(paper, sources[|sources| - 1])}
  }

  /** Sources without a list, and papers behind the cursor. */
  function Left(inv: seq<Paper>, t: Tables, cursor: string): int {
    TotalSources(inv) - |t.origins| + |inv| - NextPaper(inv, cursor)
  }

  lemma {:induction false} KeysOfBound(paper: string, sources: seq<string>)
    ensures |KeysOf(paper, sources)| <= |sources|
    ensures forall i :: 0 <= i < |sources| ==> (paper, sources[i]) in KeysOf(paper, sources)
  {
    if sources != [] { KeysOfBound(paper, sources[..|sources| - 1]); }
  }

  lemma {:induction false} AllKeysBound(inv: seq<Paper>)
    ensures |AllKeys(inv)| <= TotalSources(inv)
    ensures forall k, i :: 0 <= k < |inv| && 0 <= i < |inv[k].sources| ==>
      (inv[k].id, inv[k].sources[i]) in AllKeys(inv)
  {
    if inv != [] {
      AllKeysBound(inv[..|inv| - 1]);
      KeysOfBound(inv[|inv| - 1].id, inv[|inv| - 1].sources);
    }
  }

  lemma SubsetSmaller(a: set<Key>, b: set<Key>)
    requires a <= b
    ensures |a| <= |b|
  {
    assert b == a + (b - a);
  }

  lemma LeftIsNatural(inv: seq<Paper>, t: Tables, cursor: string)
    requires Inventoried(inv, t)
    ensures Left(inv, t, cursor) >= 0
  {
    AllKeysBound(inv);
    forall key | key in t.origins ensures key in AllKeys(inv) {
      assert Belongs(inv, t, key);
      var k :| 0 <= k < |inv| && key.0 == inv[k].id && key.1 in inv[k].sources;
      assert key == (inv[k].id, key.1);
    }
    SubsetSmaller(t.origins.Keys, AllKeys(inv));
    assert |t.origins.Keys| == |t.origins|;
  }

  // ---------- steps ----------

  /** Saving a queried source keeps the durable state consistent. */
  lemma SaveStep(inv: seq<Paper>, t: Tables, cursor: string, log: seq<Query>, k: nat, source: string, hits: seq<Hit>)
    requires Sealed(inv) && Consistent(inv, t, cursor, log) && k < |inv| && source in inv[k].sources
    requires !SourceSaved(t, inv[k], source)
    requires Save(t, (inv[k].id, source), inv[k].exclusions, hits).Some?
    ensures var after := Save(t, (inv[k].id, source), inv[k].exclusions, hits).value;
      && Consistent(inv, after, cursor, log + [Query((inv[k].id, source), true)])
      && |after.origins| == |t.origins| + 1 && SourceSaved(after, inv[k], source)
      && (forall p: Paper, s: string :: SourceSaved(t, p, s) ==> SourceSaved(after, p, s))
  {
    var key := (inv[k].id, source);
    var after := Save(t, key, inv[k].exclusions, hits).value;
    NotYetSaved(inv, t, k, source);
    SaveKeeps(t, key, inv[k].exclusions, hits);
    SavedUnder(t, key, inv[k].exclusions, hits);
    hide Save, Sound;
    assert after.origins.Keys == t.origins.Keys + {key};
    assert |after.origins.Keys| == |after.origins| && |t.origins.Keys| == |t.origins|;
    StaysInventoried(inv, t, after, k, source);
    StaysAskedOnce(log, t, after, key);
  }

  lemma PapersDiffer(inv: seq<Paper>, k: nat, l: nat)
    requires Sealed(inv) && k < |inv| && l < |inv|
    ensures inv[k].id == inv[l].id ==> k == l
  {
    TextOrder(inv[k].id, inv[l].id);
  }

  /** In a consistent state a source without a list under the paper's exclusions has none at all. */
  lemma NotYetSaved(inv: seq<Paper>, t: Tables, k: nat, source: string)
    requires Sealed(inv) && Inventoried(inv, t) && k < |inv| && !SourceSaved(t, inv[k], source)
    ensures (inv[k].id, source) !in t.origins
  {
    var key := (inv[k].id, source);
    if key in t.origins {
      assert Belongs(inv, t, key);
      var l :| 0 <= l < |inv| && key.0 == inv[l].id && key.1 in inv[l].sources && SourceSaved(t, inv[l], key.1);
      PapersDiffer(inv, k, l);
    }
  }

  lemma SavedUnder(t: Tables, key: Key, exclusions: string, hits: seq<Hit>)
    requires Save(t, key, exclusions, hits).Some?
    ensures var after := Save(t, key, exclusions, hits).value;
            key in after.origins && after.origins[key].exclusions == exclusions
  {
    hide Bind;
  }

  lemma StaysInventoried(inv: seq<Paper>, t: Tables, after: Tables, k: nat, source: string)
    requires Inventoried(inv, t) && k < |inv| && source in inv[k].sources && SourceSaved(after, inv[k], source)
    requires after.origins.Keys == t.origins.Keys + {(inv[k].id, source)}
    requires forall other :: other in t.origins ==> after.origins[other] == t.origins[other]
    ensures Inventoried(inv, after)
  {
    forall key | key in after.origins ensures Belongs(inv, after, key) {
      if key in t.origins {
        assert Belongs(inv, t, key);
        var l :| 0 <= l < |inv| && key.0 == inv[l].id && key.1 in inv[l].sources && SourceSaved(t, inv[l], key.1);
        assert SourceSaved(after, inv[l], key.1);
      }
    }
  }

  lemma StaysAskedOnce(log: seq<Query>, t: Tables, after: Tables, key: Key)
    requires AskedOnce(log, t) && key !in t.origins && after.origins.Keys == t.origins.Keys + {key}
    ensures AskedOnce(log + [Query(key, true)], after)
  {
    var now := log + [Query(key, true)];
    forall k | k in after.origins ensures exists i :: 0 <= i < |now| && now[i] == Query(k, true) {
      if k == key {
        assert now[|log|] == Query(k, true);
      } else {
        var i :| 0 <= i < |log| && log[i] == Query(k, true);
        assert now[i] == Query(k, true);
      }
    }
  }

  /** A query whose answer is lost or refused only lengthens the log. */
  lemma LostStep(inv: seq<Paper>, t: Tables, cursor: string, log: seq<Query>, k: nat, source: string)
    requires Sealed(inv) && Consistent(inv, t, cursor, log) && k < |inv| && !SourceSaved(t, inv[k], source)
    ensures Consistent(inv, t, cursor, log + [Query((inv[k].id, source), false)])
  {
    hide Sound, Covered;
    NotYetSaved(inv, t, k, source);
    var now := log + [Query((inv[k].id, source), false)];
    forall key | key in t.origins ensures exists i :: 0 <= i < |now| && now[i] == Query(key, true) {
      var i :| 0 <= i < |log| && log[i] == Query(key, true);
      assert now[i] == Query(key, true);
    }
  }

  /** Moving the cursor to the next paper, once all its sources are saved. */
  lemma CursorStep(inv: seq<Paper>, t: Tables, cursor: string, log: seq<Query>)
    requires Sealed(inv) && Consistent(inv, t, cursor, log) && NextPaper(inv, cursor) < |inv|
    requires PaperSaved(t, inv[NextPaper(inv, cursor)])
    ensures var k := NextPaper(inv, cursor);
            NextPaper(inv, inv[k].id) == k + 1 && Consistent(inv, t, inv[k].id, log)
  {
    hide Sound, Inventoried, AskedOnce, PaperSaved;
    var k := NextPaper(inv, cursor);
    var m := NextPaper(inv, inv[k].id);
    TextOrder(inv[k].id, inv[k].id);
    if m < |inv| {
      if m < k { TextOrder(inv[m].id, inv[k].id); }
    }
    if m > k + 1 { TextOrder(inv[k].id, inv[k + 1].id); }
  }

  // ---------- the builder ----------

  /** For every paper of a slice, what each of its sources is answered. */
  type Answers = nat -> (string, string) -> Option<seq<Hit>>

  /** There is no answer, or the checkpoint refuses it. */
  predicate Lost(t: Tables, p: Paper, source: string, answer: Option<seq<Hit>>) {
    answer.None? || Save(t, (p.id, source), p.exclusions, answer.value).None?
  }

  ghost predicate FirstUnsaved(t: Tables, p: Paper, i: nat) {
    i < |p.sources| && !SourceSaved(t, p, p.sources[i]) && forall j :: 0 <= j < i ==> SourceSaved(t, p, p.sources[j])
  }

  /** The answer for the paper's first source without a list is lost. */
  ghost predicate QueryLost(t: Tables, p: Paper, answer: (string, string) -> Option<seq<Hit>>) {
    exists i: nat :: FirstUnsaved(t, p, i) && Lost(t, p, p.sources[i], answer(p.id, p.sources[i]))
  }

  /** The first `i` sources are saved; of the others none was saved in between. */
  ghost predicate SavedUpTo(before: Tables, after: Tables, p: Paper, i: nat) {
    && i <= |p.sources| && (forall j :: 0 <= j < i ==> SourceSaved(after, p, p.sources[j]))
    && (forall j :: i <= j < |p.sources| && SourceSaved(after, p, p.sources[j]) ==>
         SourceSaved(before, p, p.sources[j]))
  }

  /** The sources saved in between are the first ones that had no list. */
  ghost predicate InOrder(before: Tables, after: Tables, p: Paper) {
    exists i: nat :: SavedUpTo(before, after, p, i)
  }

  /** The list under a key reads as this answer. */
  ghost predicate ReadsAs(t: Tables, key: Key, answer: Option<seq<Hit>>) {
    && key in t.origins && answer.Some?
    && Find(t, key, t.origins[key].exclusions, WIDTH) == Hits(answer.value)
  }

  /** Lists that were there are unchanged; the others read as what the first `n` papers of the slice were answered. */
  ghost predicate FromAnswers(base: Tables, t: Tables, answers: Answers, n: nat) {
    && base.origins.Keys <= t.origins.Keys
    && (forall key :: key in base.origins ==> t.origins[key] == base.origins[key])
    && (forall key :: key in t.origins && key !in base.origins ==>
         exists m: nat :: m < n && ReadsAs(t, key, answers(m)(key.0, key.1)))
  }

  /** Every answer is a complete list with the catalogue's targets. */
  ghost predicate Honest(answers: Answers, catalogue: string -> Target) {
    forall m: nat, paper: string, source: string ::
      answers(m)(paper, source).Some? ==> Healthy(answers(m)(paper, source).value, catalogue)
  }

  /** A slice with permitted limits in which every query is answered, nothing crashes and the scope stays. */
  ghost predicate Undisturbed(answers: Answers, crash: nat -> bool, maxSources: nat, maxPapers: nat, scopeStays: bool) {
    && 1 <= maxSources <= 256 && 1 <= maxPapers <= 128 && scopeStays
    && (forall m: nat :: !crash(m))
    && (forall m: nat, paper: string, source: string :: answers(m)(paper, source).Some?)
  }

  ghost predicate HonestThroughout(answers: nat -> Answers, slices: nat, catalogue: string -> Target) {
    forall i: nat :: i < slices ==> Honest(answers(i), catalogue)
  }

  ghost function UndisturbedSlices(answers: nat -> Answers, crashes: nat -> nat -> bool, limits: nat -> (nat, nat),
                                   stays: nat -> bool, slices: nat): nat
  {
    if slices == 0 then 0
    else
      var i := slices - 1;
      UndisturbedSlices(answers, crashes, limits, stays, i)
      + if Undisturbed(answers(i), crashes(i), limits(i).0, limits(i).1, stays(i)) then 1 else 0
  }

  /** Agreement with the catalogue is kept where all answers agree with it. */
  ghost predicate KeepsAgreeing(before: Tables, after: Tables, answers: Answers, catalogue: string -> Target) {
    Honest(answers, catalogue) && Agrees(before.targets, catalogue) ==> Agrees(after.targets, catalogue)
  }

  lemma AgreesStill(t: Tables, answers: Answers, catalogue: string -> Target)
    ensures KeepsAgreeing(t, t, answers, catalogue)
  {
  }

  lemma AgreesThrough(a: Tables, b: Tables, c: Tables, answers: Answers, catalogue: string -> Target)
    requires KeepsAgreeing(a, b, answers, catalogue) && KeepsAgreeing(b, c, answers, catalogue)
    ensures KeepsAgreeing(a, c, answers, catalogue)
  {
    hide Agrees, Honest;
  }

  /** At the slice's next paper a query is lost, or the process dies before the cursor moves over it. */
  ghost predicate Broken(inv: seq<Paper>, start: string, t: Tables, cursor: string, answers: Answers,
                         crash: nat -> bool, maxPapers: nat)
  {
    var k, n := NextPaper(inv, cursor), NextPaper(inv, cursor) - NextPaper(inv, start);
    && k < |inv| && 0 <= n < maxPapers
    && (QueryLost(t, inv[k], answers(n)) || (crash(n) && PaperSaved(t, inv[k])))
  }

  lemma BrokenHere(inv: seq<Paper>, start: string, t: Tables, cursor: string, answers: Answers, crash: nat -> bool,
                   n: nat, maxPapers: nat)
    requires NextPaper(inv, cursor) == NextPaper(inv, start) + n && NextPaper(inv, cursor) < |inv| && n < maxPapers
    requires QueryLost(t, inv[NextPaper(inv, cursor)], answers(n)) ||
             (crash(n) && PaperSaved(t, inv[NextPaper(inv, cursor)]))
    ensures Broken(inv, start, t, cursor, answers, crash, maxPapers)
  {
    hide QueryLost, PaperSaved, NextPaper;
  }

  /** A limit is reached, or the inventory's end. */
  ghost predicate SliceOver(inv: seq<Paper>, base: Tables, start: string, t: Tables, cursor: string, maxSources: nat,
                            maxPapers: nat)
  {
    || |t.origins| == |base.origins| + maxSources
    || NextPaper(inv, cursor) == NextPaper(inv, start) + maxPapers
    || NextPaper(inv, cursor) == |inv|
  }

  lemma NothingFrom(t: Tables, answers: Answers, n: nat)
    ensures FromAnswers(t, t, answers, n)
  {
  }

  /** What a saved answer keeps. */
  lemma AnswerSaved(inv: seq<Paper>, base: Tables, t: Tables, k: nat, source: string,
                    answers: Answers, n: nat, bound: nat, catalogue: string -> Target)
    requires Sealed(inv) && Inventoried(inv, t) && Sound(t) && k < |inv| && !SourceSaved(t, inv[k], source)
    requires n < bound && FromAnswers(base, t, answers, bound)
    requires !Lost(t, inv[k], source, answers(n)(inv[k].id, source))
    ensures var hits := answers(n)(inv[k].id, source).value;
            var after := Save(t, (inv[k].id, source), inv[k].exclusions, hits).value;
            FromAnswers(base, after, answers, bound) && KeepsAgreeing(t, after, answers, catalogue)
  {
    hide Save, Find, Sound, Agrees, Healthy, Inventoried, Sealed;
    var key, exclusions, hits := (inv[k].id, source), inv[k].exclusions, answers(n)(inv[k].id, source).value;
    var after := Save(t, key, exclusions, hits).value;
    NotYetSaved(inv, t, k, source);
    SaveKeeps(t, key, exclusions, hits);
    SavedUnder(t, key, exclusions, hits);
    SavedReadsAs(t, key, exclusions, hits);
    forall other | other in after.origins && other !in base.origins
      ensures exists m: nat :: m < bound && ReadsAs(after, other, answers(m)(other.0, other.1))
    {
      if other == key {
        assert ReadsAs(after, key, answers(n)(key.0, key.1));
      } else {
        var m: nat :| m < bound && ReadsAs(t, other, answers(m)(other.0, other.1));
        FindGrown(t, after, other, t.origins[other].exclusions, WIDTH);
        assert ReadsAs(after, other, answers(m)(other.0, other.1));
      }
    }
    if Honest(answers, catalogue) && Agrees(t.targets, catalogue) { SaveHealthy(t, key, exclusions, hits, catalogue); }
  }

  lemma ConsistentFacts(inv: seq<Paper>, t: Tables, cursor: string, log: seq<Query>)
    requires Consistent(inv, t, cursor, log)
    ensures Sound(t) && Inventoried(inv, t)
  {
  }

  lemma SavedReadsAs(t: Tables, key: Key, exclusions: string, hits: seq<Hit>)
    requires Sound(t) && Save(t, key, exclusions, hits).Some?
    ensures Find(Save(t, key, exclusions, hits).value, key, exclusions, WIDTH) == Hits(hits)
  {
    hide Bind, Find, Sound;
    SaveThenFind(t, key, exclusions, hits, WIDTH);
    assert hits[..WIDTH] == hits;
  }

  /** Saving one source leaves the later ones of the paper as they were. */
  lemma OneMoreSaved(base: Tables, t: Tables, after: Tables, p: Paper, i: nat, answer: Option<seq<Hit>>)
    requires i < |p.sources| && Distinct(p.sources) && SavedUpTo(base, t, p, i) && !Lost(t, p, p.sources[i], answer)
    requires after == Save(t, (p.id, p.sources[i]), p.exclusions, answer.value).value
    ensures SavedUpTo(base, after, p, i + 1)
  {
    hide Bind;
  }

  /** Where answers agree with the tables, an undisturbed slice is not broken. */
  lemma UndisturbedNotBroken(inv: seq<Paper>, start: string, t: Tables, cursor: string, log: seq<Query>,
                             answers: Answers, crash: nat -> bool, maxSources: nat, maxPapers: nat, scopeStays: bool,
                             catalogue: string -> Target)
    requires Sealed(inv) && Consistent(inv, t, cursor, log) && Honest(answers, catalogue)
    requires Agrees(t.targets, catalogue) && Undisturbed(answers, crash, maxSources, maxPapers, scopeStays)
    ensures !Broken(inv, start, t, cursor, answers, crash, maxPapers)
  {
    hide Save, Agrees, Healthy, Covered, AskedOnce;
    forall k: nat, n: nat | k < |inv| ensures !QueryLost(t, inv[k], answers(n)) {
      var p := inv[k];
      forall i: nat | FirstUnsaved(t, p, i) ensures !Lost(t, p, p.sources[i], answers(n)(p.id, p.sources[i])) {
        NotYetSaved(inv, t, k, p.sources[i]);
        assert answers(n)(p.id, p.sources[i]).Some?;
        SaveHealthy(t, (p.id, p.sources[i]), p.exclusions, answers(n)(p.id, p.sources[i]).value, catalogue);
      }
    }
  }

  /** A slice that has saved this many sources and completed this many papers. */
  ghost predicate Underway(inv: seq<Paper>, base: Tables, start: string, t: Tables, cursor: string, answers: Answers,
                           crash: nat -> bool, catalogue: string -> Target, written: nat, papers: nat, maxPapers: nat)
  {
    && |t.origins| == |base.origins| + written && NextPaper(inv, cursor) == NextPaper(inv, start) + papers
    && FromAnswers(base, t, answers, maxPapers) && KeepsAgreeing(base, t, answers, catalogue)
    && forall m: nat :: m < papers ==> !crash(m)
  }

  lemma UnderwayStart(inv: seq<Paper>, t: Tables, cursor: string, answers: Answers, crash: nat -> bool,
                      maxPapers: nat, catalogue: string -> Target)
    ensures Underway(inv, t, cursor, t, cursor, answers, crash, catalogue, 0, 0, maxPapers)
    ensures FromAnswers(t, t, answers, maxPapers) && KeepsAgreeing(t, t, answers, catalogue)
    ensures Left(inv, t, cursor) <= Left(inv, t, cursor)
  {
    hide NextPaper;
    NothingFrom(t, answers, maxPapers);
    AgreesStill(t, answers, catalogue);
  }

  lemma UnderwayFacts(inv: seq<Paper>, base: Tables, start: string, t: Tables, cursor: string, answers: Answers,
                      crash: nat -> bool, catalogue: string -> Target, written: nat, papers: nat, maxPapers: nat)
    requires Underway(inv, base, start, t, cursor, answers, crash, catalogue, written, papers, maxPapers)
    ensures |t.origins| == |base.origins| + written && NextPaper(inv, cursor) == NextPaper(inv, start) + papers
    ensures FromAnswers(base, t, answers, maxPapers) && KeepsAgreeing(base, t, answers, catalogue)
    ensures forall m: nat :: m < papers ==> !crash(m)
    ensures Left(inv, t, cursor) <= Left(inv, base, start)
  {
    hide NextPaper, FromAnswers, KeepsAgreeing;
  }

  lemma UnderwayPaper(inv: seq<Paper>, base: Tables, start: string, t: Tables, after: Tables, cursor: string,
                      answers: Answers, crash: nat -> bool, catalogue: string -> Target, was: nat, written: nat,
                      papers: nat, maxPapers: nat)
    requires Underway(inv, base, start, t, cursor, answers, crash, catalogue, was, papers, maxPapers)
    requires was <= written && |after.origins| == |t.origins| + (written - was)
    requires FromAnswers(base, after, answers, maxPapers) && KeepsAgreeing(t, after, answers, catalogue)
    ensures Underway(inv, base, start, after, cursor, answers, crash, catalogue, written, papers, maxPapers)
  {
    hide NextPaper, FromAnswers, KeepsAgreeing;
    AgreesThrough(base, t, after, answers, catalogue);
  }

  lemma UnderwayCursor(inv: seq<Paper>, base: Tables, start: string, t: Tables, cursor: string, next: string,
                       answers: Answers, crash: nat -> bool, catalogue: string -> Target, written: nat, papers: nat,
                       maxPapers: nat)
    requires Underway(inv, base, start, t, cursor, answers, crash, catalogue, written, papers, maxPapers)
    requires NextPaper(inv, next) == NextPaper(inv, cursor) + 1 && !crash(papers)
    ensures Underway(inv, base, start, t, next, answers, crash, catalogue, written, papers + 1, maxPapers)
  {
    hide NextPaper, FromAnswers, KeepsAgreeing;
  }

  lemma OverHere(inv: seq<Paper>, base: Tables, start: string, t: Tables, cursor: string, maxSources: nat,
                 maxPapers: nat)
    requires |t.origins| == |base.origins| + maxSources || NextPaper(inv, cursor) == NextPaper(inv, start) + maxPapers
             || NextPaper(inv, cursor) == |inv|
    ensures SliceOver(inv, base, start, t, cursor, maxSources, maxPapers)
  {
    hide NextPaper;
  }

  /** How a slice ends: refused for its limits, stopped by an error or a crash, or done. */
  datatype Slice = Refused | Stopped | Done(written: nat, papers: nat, exhausted: bool)

  class Builder {
    var tables: Tables
    var cursor: string
    ghost var log: seq<Query>

    ghost predicate Valid(inv: seq<Paper>)
      reads this
    {
      Consistent(inv, tables, cursor, log)
    }

    constructor (ghost inv: seq<Paper>)
      requires Sealed(inv)
      ensures Valid(inv) && tables == NO_TABLES && cursor == "" && log == []
    {
      tables, cursor, log := NO_TABLES, "", [];
      new;
      assert NextPaper(inv, "") == 0;
    }

    /** Saves one list, entering its targets one by one; nothing is kept of a list that is refused. */
    method SaveList(key: Key, exclusions: string, hits: seq<Hit>) returns (ok: bool)
      modifies this`tables
      ensures ok == Save(old(tables), key, exclusions, hits).Some?
      ensures tables == if ok then Save(old(tables), key, exclusions, hits).value else old(tables)
    {
      hide Usable, WithTarget, SlotOf, TargetOf, Bind;
      BindNothing(tables.targets, hits);
      if |hits| != WIDTH { return false; }
      var targets, ranks := tables.targets, [];
      for n := 0 to |hits|
        invariant tables == old(tables) && Bind(tables.targets, hits, n) == Some((targets, ranks))
      {
        BindOneMore(tables.targets, hits, n);
        var hit := hits[n];
        if !Usable(hit, hits[..n]) {
          BindFails(tables.targets, hits, n + 1, |hits|);
          return false;
        }
        targets := WithTarget(targets, hit);
        var slot := SlotOf(targets, hit.vector);
        if !(slot < |targets| && targets[slot] == TargetOf(hit)) {
          BindFails(tables.targets, hits, n + 1, |hits|);
          return false;
        }
        ranks := ranks + [Rank(slot, hit.distance)];
      }
      var origin := Origin(exclusions, ranks);
      if key in tables.origins && tables.origins[key] != origin { return false; }
      tables := Tables(targets, tables.origins[key := origin]);
      ok := true;
    }

    /** One source without a list: it is queried and the answer, if there is one, saved. */
    method BuildSource(ghost inv: seq<Paper>, ghost k: nat, p: Paper, source: string, answer: Option<seq<Hit>>)
      returns (ok: bool)
      requires Sealed(inv) && Valid(inv) && k < |inv| && inv[k] == p && source in p.sources
      requires !SourceSaved(tables, p, source)
      modifies this`tables, this`log
      ensures Valid(inv) && log == old(log) + [Query((p.id, source), ok)]
      ensures ok <==> !Lost(old(tables), p, source, answer)
      ensures tables == if ok then Save(old(tables), (p.id, source), p.exclusions, answer.value).value else old(tables)
      ensures ok ==> SourceSaved(tables, p, source) && |tables.origins| == |old(tables).origins| + 1
      ensures forall q: Paper, s: string :: SourceSaved(old(tables), q, s) ==> SourceSaved(tables, q, s)
    {
      hide Save, Consistent;
      var key := (p.id, source);
      ok := false;
      if answer.Some? { ok := SaveList(key, p.exclusions, answer.value); }
      if ok {
        SaveStep(inv, old(tables), cursor, log, k, source, answer.value);
      } else {
        LostStep(inv, tables, cursor, log, k, source);
      }
      log := log + [Query(key, ok)];
    }

    /** The sources of one paper in order: those already saved are skipped, so a paper that a crash left saved behind
        the cursor is completed without a query. It fails only where the answer for the first source without a list is
        lost, and breaks off only at the limit. */
    method BuildPaper(ghost inv: seq<Paper>, ghost k: nat, p: Paper, answers: Answers, n: nat, written: nat,
                      maxSources: nat, ghost base: Tables, ghost bound: nat, ghost catalogue: string -> Target)
      returns (ok: bool, complete: bool, written': nat)
      requires Sealed(inv) && Valid(inv) && k < |inv| && inv[k] == p && written < maxSources && n < bound
      requires FromAnswers(base, tables, answers, bound)
      modifies this`tables, this`log
      ensures Valid(inv) && old(log) <= log && FromAnswers(base, tables, answers, bound)
      ensures written <= written' <= maxSources
      ensures |tables.origins| == |old(tables).origins| + (written' - written)
      ensures ok && complete ==> PaperSaved(tables, p)
      ensures ok && !complete ==> written' == maxSources && !PaperSaved(tables, p)
      ensures !ok ==> QueryLost(tables, p, answers(n))
      ensures InOrder(old(tables), tables, p)
      ensures PaperSaved(old(tables), p) ==> ok && complete && tables == old(tables) && log == old(log)
      ensures KeepsAgreeing(old(tables), tables, answers, catalogue)
    {
      hide Consistent, Find, FromAnswers, KeepsAgreeing, Save, SourceSaved, Lost;
      ok, complete, written' := true, true, written;
      AgreesStill(tables, answers, catalogue);
      for i := 0 to |p.sources|
        invariant Valid(inv) && old(log) <= log && ok && complete && FromAnswers(base, tables, answers, bound)
        invariant written <= written' <= maxSources
        invariant |tables.origins| == |old(tables).origins| + (written' - written)
        invariant SavedUpTo(old(tables), tables, p, i)
        invariant PaperSaved(old(tables), p) ==> tables == old(tables) && log == old(log)
        invariant KeepsAgreeing(old(tables), tables, answers, catalogue)
      {
        var source := p.sources[i];
        var found := Find(tables, (p.id, source), p.exclusions, WIDTH);
        FindMeans(inv, tables, cursor, log, p, source);
        if found.Miss? {
          assert FirstUnsaved(tables, p, i);
          if written' == maxSources {
            complete := false;
            break;
          }
          ghost var before := tables;
          ConsistentFacts(inv, tables, cursor, log);
          var built := BuildSource(inv, k, p, source, answers(n)(p.id, source));
          if !built {
            ok := false;
            break;
          }
          AnswerSaved(inv, base, before, k, source, answers, n, bound, catalogue);
          AgreesThrough(old(tables), before, tables, answers, catalogue);
          OneMoreSaved(old(tables), before, tables, p, i, answers(n)(p.id, source));
          written' := written' + 1;
        }
      }
    }

    /** One slice. An answer of `None` is a failed query or a crash before its answer is saved; `crash` says for which
        papers the process dies after the last save and before the cursor moves. What was saved stays. */
    method BuildSlice(inv: seq<Paper>, answers: Answers, crash: nat -> bool, maxSources: nat, maxPapers: nat,
                      scopeStays: bool, ghost catalogue: string -> Target)
      returns (r: Slice)
      requires Sealed(inv) && Valid(inv)
      modifies this
      ensures Valid(inv) && old(log) <= log && Left(inv, tables, cursor) <= Left(inv, old(tables), old(cursor))
      ensures FromAnswers(old(tables), tables, answers, maxPapers)
      ensures r.Refused? <==> !(1 <= maxSources <= 256 && 1 <= maxPapers <= 128)
      ensures r.Refused? ==> tables == old(tables) && cursor == old(cursor) && log == old(log)
      ensures r.Stopped? ==>
        || Broken(inv, old(cursor), tables, cursor, answers, crash, maxPapers)
        || (!scopeStays && SliceOver(inv, old(tables), old(cursor), tables, cursor, maxSources, maxPapers))
      ensures r.Done? ==> scopeStays && r.written <= maxSources && r.papers <= maxPapers
      ensures r.Done? ==> |tables.origins| == |old(tables).origins| + r.written
      ensures r.Done? ==> NextPaper(inv, cursor) == NextPaper(inv, old(cursor)) + r.papers
      ensures r.Done? ==> forall m: nat :: m < r.papers ==> !crash(m)
      ensures r.Done? && r.exhausted ==>
        NextPaper(inv, cursor) == |inv| && forall k :: 0 <= k < |inv| ==> PaperSaved(tables, inv[k])
      ensures r.Done? && !r.exhausted ==> r.papers == maxPapers || r.written == maxSources
      ensures KeepsAgreeing(old(tables), tables, answers, catalogue)
    {
      hide Consistent, PaperSaved, FromAnswers, KeepsAgreeing, QueryLost, InOrder, NextPaper, Broken, Left, Underway,
        SliceOver;
      UnderwayStart(inv, tables, cursor, answers, crash, maxPapers, catalogue);
      if !(1 <= maxSources <= 256 && 1 <= maxPapers <= 128) { return Refused; }
      var written, papers, exhausted, after := 0, 0, false, cursor;
      while papers < maxPapers && written < maxSources
        invariant Valid(inv) && old(log) <= log && after == cursor && written <= maxSources && papers <= maxPapers
        invariant Underway(inv, old(tables), old(cursor), tables, cursor, answers, crash, catalogue, written, papers,
                           maxPapers)
        decreases maxPapers - papers, maxSources - written
      {
        var k := NextPaper(inv, after);
        if k == |inv| {
          exhausted := true;
          break;
        }
        ghost var before, was := tables, written;
        UnderwayFacts(inv, old(tables), old(cursor), tables, cursor, answers, crash, catalogue, written, papers,
                      maxPapers);
        var ok, complete;
        ok, complete, written :=
          BuildPaper(inv, k, inv[k], answers, papers, written, maxSources, old(tables), maxPapers, catalogue);
        UnderwayPaper(inv, old(tables), old(cursor), before, tables, cursor, answers, crash, catalogue, was, written,
                      papers, maxPapers);
        if !ok || (complete && crash(papers)) {
          UnderwayFacts(inv, old(tables), old(cursor), tables, cursor, answers, crash, catalogue, written, papers,
                        maxPapers);
          BrokenHere(inv, old(cursor), tables, cursor, answers, crash, papers, maxPapers);
          return Stopped;
        }
        if complete {
          CursorStep(inv, tables, cursor, log);
          UnderwayCursor(inv, old(tables), old(cursor), tables, cursor, inv[k].id, answers, crash, catalogue, written,
                         papers, maxPapers);
          cursor := inv[k].id;
          after := cursor;
          papers := papers + 1;
        }
      }
      UnderwayFacts(inv, old(tables), old(cursor), tables, cursor, answers, crash, catalogue, written, papers,
                    maxPapers);
      if exhausted { AllCovered(inv, tables, cursor, log); }
      if !scopeStays {
        OverHere(inv, old(tables), old(cursor), tables, cursor, maxSources, maxPapers);
        return Stopped;
      }
      r := Done(written, papers, exhausted);
    }

    /** Slices run until one reports the inventory exhausted; each may stop or crash on the way. Where answers agree on
        their targets, the inventory is exhausted at the latest when more undisturbed slices have run than sources and
        papers were left. */
    method BuildAll(inv: seq<Paper>, answers: nat -> Answers, crashes: nat -> nat -> bool, limits: nat -> (nat, nat),
                    stays: nat -> bool, slices: nat, ghost catalogue: string -> Target)
      returns (exhausted: bool, finished: nat)
      requires Sealed(inv) && Valid(inv)
      modifies this
      ensures Valid(inv) && old(log) <= log
      ensures exhausted ==> forall k :: 0 <= k < |inv| ==> PaperSaved(tables, inv[k])
      ensures finished <= Left(inv, old(tables), old(cursor))
      ensures HonestThroughout(answers, slices, catalogue) && Agrees(old(tables).targets, catalogue) ==>
        exhausted || UndisturbedSlices(answers, crashes, limits, stays, slices) <= finished
      ensures HonestThroughout(answers, slices, catalogue) && Agrees(old(tables).targets, catalogue) ==>
        UndisturbedSlices(answers, crashes, limits, stays, slices) > Left(inv, old(tables), old(cursor)) ==> exhausted
    {
      hide Consistent, PaperSaved, Left, Undisturbed, Agrees, Honest, FromAnswers, Broken, SliceOver, KeepsAgreeing;
      exhausted, finished := false, 0;
      LeftIsNaturalHere(inv);
      ghost var honest := HonestThroughout(answers, slices, catalogue) && Agrees(tables.targets, catalogue);
      for i := 0 to slices
        invariant Valid(inv) && old(log) <= log && !exhausted
        invariant finished + Left(inv, tables, cursor) <= Left(inv, old(tables), old(cursor))
        invariant honest ==> Agrees(tables.targets, catalogue)
        invariant honest ==> UndisturbedSlices(answers, crashes, limits, stays, i) <= finished
      {
        ghost var t, c := tables, cursor;
        var r := BuildSlice(inv, answers(i), crashes(i), limits(i).0, limits(i).1, stays(i), catalogue);
        if honest { SliceOutcome(inv, t, c, answers(i), crashes(i), limits(i).0, limits(i).1, stays(i), r, catalogue); }
        if r.Done? && r.exhausted {
          exhausted := true;
          LeftIsNaturalHere(inv);
          return;
        }
        if r.Done? {
          LeftDrops(inv, t, c, tables, cursor, r.written, r.papers);
          finished := finished + 1;
        }
      }
      LeftIsNaturalHere(inv);
    }

    /** Among honest answers an undisturbed slice is done. */
    lemma SliceOutcome(inv: seq<Paper>, t: Tables, start: string, answers: Answers, crash: nat -> bool, maxSources: nat,
                       maxPapers: nat, scopeStays: bool, r: Slice, catalogue: string -> Target)
      requires Sealed(inv) && Valid(inv) && Honest(answers, catalogue) && Agrees(t.targets, catalogue)
      requires KeepsAgreeing(t, tables, answers, catalogue)
      requires r.Refused? <==> !(1 <= maxSources <= 256 && 1 <= maxPapers <= 128)
      requires r.Stopped? ==> Broken(inv, start, tables, cursor, answers, crash, maxPapers) || !scopeStays
      ensures Agrees(tables.targets, catalogue)
      ensures Undisturbed(answers, crash, maxSources, maxPapers, scopeStays) ==> r.Done?
    {
      hide Honest, Agrees, Broken, Consistent;
      if Undisturbed(answers, crash, maxSources, maxPapers, scopeStays) {
        UndisturbedNotBroken(inv, start, tables, cursor, log, answers, crash, maxSources, maxPapers, scopeStays,
                             catalogue);
      }
    }

    lemma LeftIsNaturalHere(inv: seq<Paper>)
      requires Valid(inv)
      ensures Left(inv, tables, cursor) >= 0
    {
      LeftIsNatural(inv, tables, cursor);
    }
  }

  lemma LeftDrops(inv: seq<Paper>, t: Tables, cursor: string, t': Tables, cursor': string, written: nat, papers: nat)
    requires |t'.origins| == |t.origins| + written && NextPaper(inv, cursor') == NextPaper(inv, cursor) + papers
    ensures Left(inv, t', cursor') == Left(inv, t, cursor) - written - papers
  {
  }

  lemma {:induction false} BindFails(targets: seq<Target>, hits: seq<Hit>, m: nat, n: nat)
    requires m <= n <= |hits| && Bind(targets, hits, m).None?
    ensures Bind(targets, hits, n).None?
  {
    if m < n { BindFails(targets, hits, m, n - 1); }
  }

  /** Reading tells whether a source is saved, and in a sound checkpoint finds no damage. */
  lemma FindMeans(inv: seq<Paper>, t: Tables, cursor: string, log: seq<Query>, p: Paper, source: string)
    requires Consistent(inv, t, cursor, log)
    ensures var found := Find(t, (p.id, source), p.exclusions, WIDTH);
            !found.Corrupt? && (found.Miss? <==> !SourceSaved(t, p, source))
  {
    var key := (p.id, source);
    if key in t.origins { assert t.origins[key].ranks[..WIDTH] == t.origins[key].ranks; }
  }

  lemma AllCovered(inv: seq<Paper>, t: Tables, cursor: string, log: seq<Query>)
    requires Consistent(inv, t, cursor, log) && NextPaper(inv, cursor) == |inv|
    ensures forall k :: 0 <= k < |inv| ==> PaperSaved(t, inv[k])
  {
    hide PaperSaved;
  }
}
