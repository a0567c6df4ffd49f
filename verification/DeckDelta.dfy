/** The rewritten deck with its ledger of changes, and what re-reading it gives. */
module DeckDelta {
  import opened Wrappers
  import opened DeckText
  import opened DeckGrammar
  import opened DeckRewrite

  // ---------- decks as text ----------

  predicate PlainLines(lines: seq<string>) {
    lines != [] && forall i :: 0 <= i < |lines| ==>
      lines[i] != "" && lines[i][|lines[i]| - 1] == '\n' && '\r' !in lines[i]
  }

  /** The deck a text holds under a table; `None` where the reader raises. */
  function ReadText(t: Table, text: string): Option<Deck> {
    var lines := SplitLines(text);
    if !PlainLines(lines) then None
    else
      match Read(t, lines, |lines|)
      case None => None
      case Some(d) => if Finished(t, d) then Some(d) else None
  }

  // ---------- what is returned ----------

  function Shown(fields: map<string, map<string, Entry>>): map<string, map<string, string>> {
    map g | g in fields :: Literals(fields[g])
  }

  /** A group's settings before the additions. */
  function Trimmed(w: Rewrite, g: string, fields: map<string, Entry>): map<string, string> {
    if g == CONTROL then (Literals(fields) - w.dropped) + w.replaced else Literals(fields)
  }

  /** The source settings without the removed groups and dropped fields, updated with the replacements and additions. */
  function Returned(w: Rewrite, d: Deck): map<string, map<string, string>> {
    map g | g in d.fields && g !in w.removed ::
      Trimmed(w, g, d.fields[g]) + AsMap(AddedTo(w, g))
  }

  /** The fields and groups that a rewrite touches are there, and those it adds are not. */
  ghost predicate Fits(w: Rewrite, t: Table, d: Deck) {
    && GoodRewrite(w, t) && NoClash(w, d)
    && CONTROL in d.fields && w.dropped <= d.fields[CONTROL].Keys && w.replaced.Keys <= d.fields[CONTROL].Keys
    && w.removed <= d.fields.Keys && w.added.Keys <= d.fields.Keys
  }

  lemma BaseIs(w: Rewrite, g: string, fields: map<string, Entry>)
    requires g == CONTROL ==> w.replaced.Keys <= fields.Keys && w.dropped !! w.replaced.Keys
    ensures Base(w, g, fields) == Trimmed(w, g, fields)
  {
  }

  lemma ReturnedIsBase(w: Rewrite, t: Table, d: Deck, e: Deck)
    requires Fits(w, t, d) && FieldsMirror(w, d, e) && d.group.None?
    ensures Shown(e.fields) == Returned(w, d)
  {
    hide AsMap, GoodFields, GoodField, NoClash, Literals, Base, Trimmed;
    forall g | g in e.fields ensures Literals(e.fields[g]) == Returned(w, d)[g] {
      assert Literals(e.fields[g]) == Target(w, d, g);
      BaseIs(w, g, d.fields[g]);
    }
  }

  /** Re-reading what is emitted for a deck gives the returned settings and the same cards, and every group and card
      the derived grammar asks for. */
  lemma Rereads(w: Rewrite, t: Table, lines: seq<string>, d: Deck) returns (e: Deck)
    requires Read(t, lines, |lines|) == Some(d) && Finished(t, d) && Fits(w, t, d)
    ensures var out := Output(w, t, lines, |lines|); Read(Extended(t, w), out, |out|) == Some(e)
    ensures Finished(Extended(t, w), e) && Shown(e.fields) == Returned(w, d) && Texts(e.cards) == Texts(d.cards)
  {
    hide Read, Returned, Shown, FieldsMirror, GoodRewrite, NoClash, Texts;
    e := Simulates(w, t, lines, |lines|);
    ReturnedIsBase(w, t, d, e);
  }

  // ---------- lines of the derived deck ----------

  lemma {:induction false} OutputLines(w: Rewrite, t: Table, lines: seq<string>, n: nat)
    requires n <= |lines| && Read(t, lines, n).Some? && GoodRewrite(w, t)
    requires forall i :: 0 <= i < |lines| ==> IsLine(lines[i])
    ensures forall i :: 0 <= i < |Output(w, t, lines, n)| ==> IsLine(Output(w, t, lines, n)[i])
  {
    hide KindOf, Apply, IsLine, GoodRewrite, EmittedFor;
    if n > 0 {
      var before, kind := LastLine(t, lines, n);
      OutputLines(w, t, lines, n - 1);
      EmittedLines(w, t, before.group, kind, lines[n - 1]);
    }
  }

  lemma EmittedLines(w: Rewrite, t: Table, group: Option<string>, kind: Kind, raw: string)
    requires GoodRewrite(w, t) && IsLine(raw)
    ensures forall i :: 0 <= i < |EmittedFor(w, group, kind, raw)| ==> IsLine(EmittedFor(w, group, kind, raw)[i])
  {
    hide IsLine, FieldLine, PlainKey, PlainLiteral, Lower;
    var inserts := InsertsBefore(w, kind);
    forall i | 0 <= i < |inserts| ensures IsLine(FieldLine(inserts[i].0, inserts[i].1)) {
      assert GoodField(t, inserts[i]);
      FieldLineIsLine(inserts[i].0, inserts[i].1);
    }
    if FateOf(w, group, kind).Write? {
      assert GoodField(t, (kind.key, w.replaced[kind.key]));
      FieldLineIsLine(kind.key, w.replaced[kind.key]);
    }
  }

  lemma LinesArePlain(lines: seq<string>)
    requires lines != [] && forall i :: 0 <= i < |lines| ==> IsLine(lines[i])
    ensures PlainLines(lines)
  {
    forall i | 0 <= i < |lines| ensures '\r' !in lines[i] { assert IsLine(lines[i]); }
  }

  /** Rewriting commutes with reading: for every text that reads as a deck, the derived text reads, under the extended
      grammar, as a deck with exactly the returned settings and the same cards. */
  lemma Commutes(w: Rewrite, t: Table, text: string, d: Deck) returns (e: Deck)
    requires ReadText(t, text) == Some(d) && Fits(w, t, d)
    ensures var lines := SplitLines(text);
            Read(t, lines, |lines|).Some? && ReadText(Extended(t, w), Join(Output(w, t, lines, |lines|))) == Some(e)
    ensures Shown(e.fields) == Returned(w, d) && Texts(e.cards) == Texts(d.cards) && e.cardOrder == d.cardOrder
  {
    hide Read, Returned, Shown, GoodRewrite, NoClash, Texts, Extended;
    var lines := SplitLines(text);
    JoinOfSplit(text);
    e := Rereads(w, t, lines, d);
    var out := Output(w, t, lines, |lines|);
    OutputLines(w, t, lines, |lines|);
    SplitOfJoin(out);
    if out == [] { EmptyIsUnfinished(Extended(t, w), e); }
    LinesArePlain(out);
  }

  lemma EmptyIsUnfinished(t: Table, e: Deck)
    requires Read(t, [], 0) == Some(e)
    ensures !Finished(t, e)
  {
  }

  // ---------- the rules ----------

  function Ruled(rules: map<nat, Option<string>>, line: nat): Fate {
    if line !in rules then Keep
    else
      match rules[line]
      case None => Drop
      case Some(text) => Write(text)
  }

  function DropIf(c: bool): Fate {
    if c then Drop else Keep
  }

  lemma OneMoreBlock(d: Deck, done: set<string>, g: string, line: nat)
    ensures InBlocks(d, done + {g}, line) <==> BlockOver(d, g, line) || InBlocks(d, done, line)
  {
    hide BlockOver;
    if BlockOver(d, g, line) { assert g in done + {g}; }
    if h :| h in done && BlockOver(d, h, line) { assert h in done + {g}; }
  }

  lemma OneMoreKey(d: Deck, done: set<string>, key: string, line: nat)
    ensures OnFields(d, done + {key}, line) <==> FieldOn(d, key, line) || OnFields(d, done, line)
  {
    hide FieldOn;
    if FieldOn(d, key, line) { assert key in done + {key}; }
    if k :| k in done && FieldOn(d, k, line) { assert k in done + {key}; }
  }

  method BlockRules(w: Rewrite, d: Deck) returns (rules: map<nat, Option<string>>)
    requires w.removed <= d.starts.Keys && w.removed <= d.ends.Keys && forall g :: g in w.removed ==>
      d.starts[g] < d.ends[g]
    ensures forall line: nat :: Ruled(rules, line) == DropIf(InBlocks(d, w.removed, line))
  {
    hide InBlocks;
    rules := map[];
    var todo := w.removed;
    assert w.removed - todo == {};
    assert forall line: nat :: !InBlocks(d, {}, line) by {
      forall line: nat ensures !InBlocks(d, {}, line) { NoBlocks(d, line); }
    }
    while todo != {}
      invariant todo <= w.removed
      invariant forall line: nat :: Ruled(rules, line) == DropIf(InBlocks(d, w.removed - todo, line))
    {
      var g :| g in todo;
      ghost var earlier, done := rules, w.removed - todo;
      for line := d.starts[g] to d.ends[g] + 1
        invariant forall l: nat :: Ruled(rules, l) == if d.starts[g] <= l < line then Drop else Ruled(earlier, l)
      {
        ghost var was := rules;
        rules := rules[line := None];
        assert forall l: nat :: Ruled(rules, l) == if l == line then Drop else Ruled(was, l);
      }
      todo := todo - {g};
      assert w.removed - todo == done + {g};
      forall l: nat ensures Ruled(rules, l) == DropIf(InBlocks(d, done + {g}, l)) { OneMoreBlock(d, done, g, l); }
    }
    assert w.removed - todo == w.removed;
  }

  lemma NoBlocks(d: Deck, line: nat)
    ensures !InBlocks(d, {}, line)
  {
  }

  lemma NoKeys(d: Deck, line: nat)
    ensures !OnFields(d, {}, line)
  {
  }

  method DropRules(w: Rewrite, d: Deck, blocks: map<nat, Option<string>>) returns (rules: map<nat, Option<string>>)
    requires CONTROL in d.fields && w.dropped <= d.fields[CONTROL].Keys
    requires forall line: nat :: Ruled(blocks, line) == DropIf(InBlocks(d, w.removed, line))
    ensures forall line: nat ::
      Ruled(rules, line) == DropIf(OnFields(d, w.dropped, line) || InBlocks(d, w.removed, line))
  {
    hide InBlocks, OnFields;
    rules := blocks;
    var todo := w.dropped;
    assert w.dropped - todo == {};
    forall line: nat ensures !OnFields(d, {}, line) { NoKeys(d, line); }
    while todo != {}
      invariant todo <= w.dropped
      invariant forall l: nat ::
        Ruled(rules, l) == DropIf(OnFields(d, w.dropped - todo, l) || InBlocks(d, w.removed, l))
    {
      var key :| key in todo;
      ghost var was, done := rules, w.dropped - todo;
      var line := d.fields[CONTROL][key].line;
      rules := rules[line := None];
      todo := todo - {key};
      assert w.dropped - todo == done + {key};
      forall l: nat ensures Ruled(rules, l) == DropIf(OnFields(d, done + {key}, l) || InBlocks(d, w.removed, l)) {
        OneMoreKey(d, done, key, l);
        assert Ruled(rules, l) == if l == line then Drop else Ruled(was, l);
      }
    }
    assert w.dropped - todo == w.dropped;
  }

  /** The rules: removed blocks, then dropped fields, then replacements. */
  method BuildRules(w: Rewrite, t: Table, d: Deck) returns (rules: map<nat, Option<string>>)
    requires Fits(w, t, d) && w.removed <= d.starts.Keys && w.removed <= d.ends.Keys
    requires forall g :: g in w.removed ==> d.starts[g] < d.ends[g]
    ensures forall line: nat :: RuleIs(w, d, line, Ruled(rules, line))
  {
    hide GoodRewrite, NoClash, FieldLine, InBlocks, OnFields;
    rules := BlockRules(w, d);
    rules := DropRules(w, d, rules);
    var todo := w.replaced.Keys;
    assert w.replaced.Keys - todo == {};
    forall line: nat ensures !OnFields(d, {}, line) { NoKeys(d, line); }
    while todo != {}
      invariant todo <= w.replaced.Keys
      invariant forall l: nat :: RuleSoFar(w, d, w.replaced.Keys - todo, l, Ruled(rules, l))
    {
      var key :| key in todo;
      ghost var was, done := rules, w.replaced.Keys - todo;
      var line := d.fields[CONTROL][key].line;
      rules := rules[line := Some(FieldLine(key, w.replaced[key]))];
      todo := todo - {key};
      assert w.replaced.Keys - todo == done + {key};
      forall l: nat ensures RuleSoFar(w, d, done + {key}, l, Ruled(rules, l)) {
        RuleStep(w, d, done, key, l, Ruled(was, l));
        assert Ruled(rules, l) == if l == line then Write(FieldLine(key, w.replaced[key])) else Ruled(was, l);
      }
    }
    assert w.replaced.Keys - todo == w.replaced.Keys;
  }

  ghost predicate RuleSoFar(w: Rewrite, d: Deck, written: set<string>, line: nat, fate: Fate)
    requires written <= w.replaced.Keys
  {
    if OnFields(d, written, line) then
      exists k :: k in written && FieldOn(d, k, line) && fate == Write(FieldLine(k, w.replaced[k]))
    else fate == DropIf(OnFields(d, w.dropped, line) || InBlocks(d, w.removed, line))
  }

  lemma RuleStep(w: Rewrite, d: Deck, written: set<string>, key: string, line: nat, fate: Fate)
    requires written + {key} <= w.replaced.Keys && RuleSoFar(w, d, written, line, fate)
    ensures FieldOn(d, key, line) ==> RuleSoFar(w, d, written + {key}, line, Write(FieldLine(key, w.replaced[key])))
    ensures !FieldOn(d, key, line) ==> RuleSoFar(w, d, written + {key}, line, fate)
  {
    hide FieldLine, FieldOn, InBlocks, OnFields;
    OneMoreKey(d, written, key, line);
    assert key in written + {key};
    if k :| k in written && FieldOn(d, k, line) && fate == Write(FieldLine(k, w.replaced[k])) {
      assert k in written + {key};
    }
  }

  function Inserted(inserts: map<nat, Fields>, line: nat): Fields {
    if line in inserts then inserts[line] else []
  }

  ghost predicate InsertSoFar(w: Rewrite, d: Deck, groups: set<string>, line: nat, fields: Fields)
    requires groups <= w.added.Keys
  {
    if exists g :: g in groups && EndsOn(d, g, line)
    then exists g :: g in groups && EndsOn(d, g, line) && fields == w.added[g]
    else fields == []
  }

  lemma InsertStep(w: Rewrite, d: Deck, groups: set<string>, g: string, line: nat, fields: Fields)
    requires groups + {g} <= w.added.Keys && InsertSoFar(w, d, groups, line, fields)
    ensures EndsOn(d, g, line) ==> InsertSoFar(w, d, groups + {g}, line, w.added[g])
    ensures !EndsOn(d, g, line) ==> InsertSoFar(w, d, groups + {g}, line, fields)
  {
    hide EndsOn;
    assert g in groups + {g};
    if h :| h in groups && EndsOn(d, h, line) && fields == w.added[h] { assert h in groups + {g}; }
  }

  /** The insertions, by the line that they come before. */
  method BuildInserts(w: Rewrite, d: Deck) returns (inserts: map<nat, Fields>)
    requires w.added.Keys <= d.ends.Keys
    ensures forall line: nat :: InsertIs(w, d, line, Inserted(inserts, line))
  {
    hide InsertSoFar;
    inserts := map[];
    var todo := w.added.Keys;
    assert w.added.Keys - todo == {};
    forall line: nat ensures InsertSoFar(w, d, {}, line, []) { NoInserts(w, d, line); }
    while todo != {}
      invariant todo <= w.added.Keys
      invariant forall l: nat :: InsertSoFar(w, d, w.added.Keys - todo, l, Inserted(inserts, l))
    {
      var g :| g in todo;
      ghost var was, done := inserts, w.added.Keys - todo;
      inserts := inserts[d.ends[g] := w.added[g]];
      todo := todo - {g};
      assert w.added.Keys - todo == done + {g};
      forall l: nat ensures InsertSoFar(w, d, done + {g}, l, Inserted(inserts, l)) {
        InsertStep(w, d, done, g, l, Inserted(was, l));
        assert Inserted(inserts, l) == if EndsOn(d, g, l) then w.added[g] else Inserted(was, l);
      }
    }
    assert w.added.Keys - todo == w.added.Keys;
    forall l: nat ensures InsertIs(w, d, l, Inserted(inserts, l)) { AllInserts(w, d, l, Inserted(inserts, l)); }
  }

  lemma NoInserts(w: Rewrite, d: Deck, line: nat)
    ensures InsertSoFar(w, d, {}, line, [])
  {
  }

  lemma AllInserts(w: Rewrite, d: Deck, line: nat, fields: Fields)
    requires InsertSoFar(w, d, w.added.Keys, line, fields)
    ensures InsertIs(w, d, line, fields)
  {
    hide EndsOn;
  }

  lemma PlusNothing(a: map<string, string>)
    ensures a + AsMap([]) == a
  {
  }

  method BuildSettings(w: Rewrite, t: Table, d: Deck) returns (settings: map<string, map<string, string>>)
    requires Fits(w, t, d)
    ensures settings == Returned(w, d)
  {
    hide GoodFields, GoodField, NoClash, Literals, AsMap;
    settings := Shown(d.fields) - w.removed;
    settings := settings[CONTROL := settings[CONTROL] - w.dropped];
    settings := settings[CONTROL := settings[CONTROL] + w.replaced];
    assert forall g :: g in settings ==> settings[g] == Trimmed(w, g, d.fields[g]);
    settings := AddSettings(w, settings);
    hide Trimmed;
    forall g | g in settings ensures settings[g] == Returned(w, d)[g] { PlusNothing(Trimmed(w, g, d.fields[g])); }
  }

  method AddSettings(w: Rewrite, trimmed: map<string, map<string, string>>)
      returns (settings: map<string, map<string, string>>)
    requires w.added.Keys <= trimmed.Keys
    ensures settings.Keys == trimmed.Keys
    ensures forall g :: g in settings ==>
      settings[g] == if g in w.added then trimmed[g] + AsMap(w.added[g]) else trimmed[g]
  {
    hide AsMap;
    settings := trimmed;
    var todo := w.added.Keys;
    while todo != {}
      invariant todo <= w.added.Keys && settings.Keys == trimmed.Keys
      invariant forall g :: g in settings ==>
        settings[g] == if g in w.added && g !in todo then trimmed[g] + AsMap(w.added[g]) else trimmed[g]
    {
      var g :| g in todo;
      settings := settings[g := settings[g] + AsMap(w.added[g])];
      todo := todo - {g};
    }
  }

  // ---------- the ledger ----------

  datatype Action = Insert | Delete | Retain | Replace

  /** One entry: an inserted line (`before` is absent, `anchor` is the source line it precedes) or the fate of a
      source line (`after` is absent when it is deleted). */
  datatype Change = Change(action: Action, sourceLine: Option<nat>, anchor: Option<nat>, derivedLine: Option<nat>,
                           before: Option<string>, after: Option<string>)

  type Listing = seq<(Option<nat>, string)>

  /** The source lines an entry list accounts for, numbered as it numbers them. */
  function Sources(ledger: seq<Change>): Listing {
    if ledger == [] then []
    else
      var last := ledger[|ledger| - 1];
      Sources(ledger[..|ledger| - 1]) + if last.before.Some? then [(last.sourceLine, last.before.value)] else []
  }

  function Deriveds(ledger: seq<Change>): Listing {
    if ledger == [] then []
    else
      var last := ledger[|ledger| - 1];
      Deriveds(ledger[..|ledger| - 1]) + if last.after.Some? then [(last.derivedLine, last.after.value)] else []
  }

  /** Every line once, in order, numbered from 1. */
  function Numbered(lines: seq<string>): Listing {
    seq(|lines|, i requires 0 <= i < |lines| => (Some(i + 1), lines[i]))
  }

  function Values(listing: Listing): seq<string> {
    seq(|listing|, i requires 0 <= i < |listing| => listing[i].1)
  }

  predicate Sensible(c: Change) {
    && (c.before.Some? || c.after.Some?)
    && c.action == (if c.before.None? then Insert
                    else if c.after.None? then Delete
                    else if c.after == c.before then Retain else Replace)
    && (c.sourceLine.Some? <==> c.before.Some?) && (c.derivedLine.Some? <==> c.after.Some?) &&
         (c.anchor.Some? <==> c.before.None?)
  }

  /** Every entry is sensible, and an insertion's anchor is the next source line. */
  predicate Anchored(ledger: seq<Change>) {
    ledger == [] ||
    (Anchored(ledger[..|ledger| - 1]) && Sensible(ledger[|ledger| - 1]) &&
     (ledger[|ledger| - 1].anchor.Some? ==> ledger[|ledger| - 1].anchor.value == |Sources(ledger[..|ledger| - 1])| + 1))
  }

  /** The ledger accounts for exactly these source and derived lines. */
  predicate Accounts(ledger: seq<Change>, lines: seq<string>, output: seq<string>) {
    Sources(ledger) == Numbered(lines) && Deriveds(ledger) == Numbered(output) && Anchored(ledger)
  }

  lemma NumberedSnoc(lines: seq<string>, line: string)
    ensures Numbered(lines + [line]) == Numbered(lines) + [(Some(|lines| + 1), line)]
  {
  }

  function InsertEntry(anchor: nat, derivedLine: nat, after: string): Change {
    Change(Insert, None, Some(anchor), Some(derivedLine), None, Some(after))
  }

  function LineEntry(line: nat, derived: nat, before: string, after: Option<string>): Change {
    Change(if after.None? then Delete else if after.value == before then Retain else Replace,
           Some(line), None, if after.Some? then Some(derived) else None, Some(before), after)
  }

  lemma Lengths(lines: seq<string>)
    ensures |Numbered(lines)| == |lines| && Values(Numbered(lines)) == lines
  {
  }

  lemma OneMoreEntry(ledger: seq<Change>, c: Change)
    ensures Sources(ledger + [c]) == Sources(ledger) + if c.before.Some? then [(c.sourceLine, c.before.value)] else []
    ensures Deriveds(ledger + [c]) == Deriveds(ledger) + if c.after.Some? then [(c.derivedLine, c.after.value)] else []
    ensures Anchored(ledger + [c]) <==>
            Anchored(ledger) && Sensible(c) && (c.anchor.Some? ==> c.anchor.value == |Sources(ledger)| + 1)
  {
    hide Sensible;
    assert (ledger + [c])[..|ledger|] == ledger;
  }

  lemma AccountInsert(ledger: seq<Change>, lines: seq<string>, output: seq<string>, after: string)
    requires Accounts(ledger, lines, output)
    ensures Accounts(ledger + [InsertEntry(|lines| + 1, |output| + 1, after)], lines, output + [after])
  {
    hide Numbered, Sources, Deriveds, Anchored;
    OneMoreEntry(ledger, InsertEntry(|lines| + 1, |output| + 1, after));
    NumberedSnoc(output, after);
    Lengths(lines);
    assert Sources(ledger) + [] == Sources(ledger);
  }

  lemma AccountLine(ledger: seq<Change>, lines: seq<string>, output: seq<string>, before: string, after: Option<string>)
    requires Accounts(ledger, lines, output)
    ensures Accounts(ledger + [LineEntry(|lines| + 1, |output| + |Present(after)|, before, after)],
                     lines + [before], output + Present(after))
  {
    hide Numbered, Sources, Deriveds, Anchored;
    OneMoreEntry(ledger, LineEntry(|lines| + 1, |output| + |Present(after)|, before, after));
    NumberedSnoc(lines, before);
    if after.Some? {
      NumberedSnoc(output, after.value);
    } else {
      assert output + [] == output && Deriveds(ledger) + [] == Deriveds(ledger);
    }
  }

  lemma NothingAccounted()
    ensures Accounts([], [], [])
  {
  }

  // ---------- the fate of every line ----------

  /** A field of the control group that is written on this line. */
  ghost predicate WrittenOn(d: Deck, keys: set<string>, line: nat) {
    exists key :: key in keys && KeyOn(d, key, line)
  }

  ghost predicate KeyOn(d: Deck, key: string, line: nat) {
    "CONTROL" in d.fields && key in d.fields["CONTROL"] && d.fields["CONTROL"][key].line == line
  }

  ghost predicate InRemoved(d: Deck, groups: set<string>, line: nat) {
    exists g :: g in groups && g in d.starts && g in d.ends && d.starts[g] <= line <= d.ends[g]
  }

  /** The line of a replaced field is written anew; otherwise the line of a dropped field and the lines of a removed
      group are gone; every other line stands as it was, character by character. */
  ghost predicate FateFits(w: Rewrite, d: Deck, line: nat, before: string, after: Option<string>) {
    if WrittenOn(d, w.replaced.Keys, line) then
      exists key ::
        key in w.replaced && KeyOn(d, key, line) && after == Some("  " + key + " = " + w.replaced[key] + ",\n")
    else if WrittenOn(d, w.dropped, line) || InRemoved(d, w.removed, line) then after == None
    else after == Some(before)
  }

  /** The entry of a source line has the line's text and its fate. */
  ghost predicate EntryFits(w: Rewrite, d: Deck, lines: seq<string>, c: Change) {
    c.sourceLine.Some? ==>
      && 1 <= c.sourceLine.value <= |lines| && c.before == Some(lines[c.sourceLine.value - 1])
      && FateFits(w, d, c.sourceLine.value, lines[c.sourceLine.value - 1], c.after)
  }

  /** The lines inserted before a source line, in order. */
  ghost function InsertedAt(ledger: seq<Change>, line: nat): seq<string> {
    if ledger == [] then []
    else
      var last := ledger[|ledger| - 1];
      InsertedAt(ledger[..|ledger| - 1], line) +
      if last.anchor == Some(line) && last.after.Some? then [last.after.value] else []
  }

  /** Before the last line of a group stand the fields added to it, before any other line nothing. */
  ghost predicate AdditionsFit(w: Rewrite, d: Deck, line: nat, inserted: seq<string>) {
    (if exists g :: g in w.added && EndsOn(d, g, line) then
      exists g :: g in w.added && EndsOn(d, g, line) && |inserted| == |w.added[g]| &&
        forall i :: 0 <= i < |inserted| ==>
          inserted[i] == "  " + w.added[g][i].0 + " = " + w.added[g][i].1 + ",\n"
     else inserted == [])
  }

  /** The ledger gives every line of the source its fate, and the additions their places. */
  ghost predicate Explains(ledger: seq<Change>, w: Rewrite, d: Deck, lines: seq<string>) {
    && (forall i :: 0 <= i < |ledger| ==> EntryFits(w, d, lines, ledger[i]))
    && (forall line :: 1 <= line <= |lines| ==> AdditionsFit(w, d, line, InsertedAt(ledger, line)))
  }

  /** The same for the entries up to a line: none is there yet for the lines behind it. */
  ghost predicate ExplainsTo(ledger: seq<Change>, w: Rewrite, d: Deck, lines: seq<string>, n: nat) {
    && (forall i :: 0 <= i < |ledger| ==> EntryFits(w, d, lines, ledger[i]))
    && (forall line :: 1 <= line <= n ==> AdditionsFit(w, d, line, InsertedAt(ledger, line)))
    && (forall line :: n < line ==> InsertedAt(ledger, line) == [])
  }

  lemma FateIs(w: Rewrite, d: Deck, line: nat, fate: Fate, before: string)
    requires RuleIs(w, d, line, fate)
    ensures FateFits(w, d, line, before, TextOf(fate, before))
  {
    forall key ensures KeyOn(d, key, line) <==> FieldOn(d, key, line) {}
    hide FieldOn, KeyOn;
    assert WrittenOn(d, w.replaced.Keys, line) <==> OnFields(d, w.replaced.Keys, line);
    assert WrittenOn(d, w.dropped, line) <==> OnFields(d, w.dropped, line);
    assert InRemoved(d, w.removed, line) <==> InBlocks(d, w.removed, line) by { RemovedIs(d, w.removed, line); }
    hide OnFields, InBlocks, WrittenOn, InRemoved;
    if OnFields(d, w.replaced.Keys, line) {
      var key :| key in w.replaced && FieldOn(d, key, line) && fate == Write(FieldLine(key, w.replaced[key]));
    }
  }

  lemma RemovedIs(d: Deck, groups: set<string>, line: nat)
    ensures InRemoved(d, groups, line) <==> InBlocks(d, groups, line)
  {
    if g :| g in groups && BlockOver(d, g, line) {}
    if g :| g in groups && g in d.starts && g in d.ends && d.starts[g] <= line <= d.ends[g] {
      assert BlockOver(d, g, line);
    }
  }

  lemma InsertedMore(ledger: seq<Change>, c: Change, line: nat)
    ensures InsertedAt(ledger + [c], line) ==
      InsertedAt(ledger, line) + if c.anchor == Some(line) && c.after.Some? then [c.after.value] else []
  {
    assert (ledger + [c])[..|ledger|] == ledger;
  }

  lemma AdditionsAre(w: Rewrite, d: Deck, line: nat, fields: Fields)
    requires InsertIs(w, d, line, fields)
    ensures AdditionsFit(w, d, line, FieldLines(fields))
  {
    hide EndsOn;
    if exists g :: g in w.added && EndsOn(d, g, line) {
      var g :| g in w.added && EndsOn(d, g, line) && fields == w.added[g];
      forall i | 0 <= i < |fields| ensures FieldLines(fields)[i] == "  " + fields[i].0 + " = " + fields[i].1 + ",\n" {}
    }
  }

  lemma NothingExplained(w: Rewrite, d: Deck, lines: seq<string>)
    ensures ExplainsTo([], w, d, lines, 0)
  {
  }

  /** One line more, with the additions before it. */
  lemma ExplainLine(ledger: seq<Change>, more: seq<Change>, c: Change, w: Rewrite, d: Deck, lines: seq<string>, n: nat,
                    fields: Fields, fate: Fate)
    requires ExplainsTo(ledger, w, d, lines, n) && n < |lines| && InsertIs(w, d, n + 1, fields)
    requires RuleIs(w, d, n + 1, fate)
    requires forall i :: 0 <= i < |more| ==> more[i].sourceLine.None?
    requires forall line ::
      InsertedAt(ledger + more, line) ==
      InsertedAt(ledger, line) + if line == n + 1 then FieldLines(fields) else []
    requires c.sourceLine == Some(n + 1) && c.anchor.None? && c.before == Some(lines[n])
    requires c.after == TextOf(fate, lines[n])
    ensures ExplainsTo(ledger + more + [c], w, d, lines, n + 1)
  {
    hide InsertedAt, FateFits, AdditionsFit, InsertIs, RuleIs, TextOf, FieldLines;
    var all := ledger + more + [c];
    FateIs(w, d, n + 1, fate, lines[n]);
    AdditionsAre(w, d, n + 1, fields);
    forall line
      ensures InsertedAt(all, line) == InsertedAt(ledger, line) + if line == n + 1 then FieldLines(fields) else []
    {
      InsertedMore(ledger + more, c, line);
    }
    forall line | 1 <= line <= n + 1 ensures AdditionsFit(w, d, line, InsertedAt(all, line)) {
      if line <= n {
        assert InsertedAt(all, line) == InsertedAt(ledger, line);
      } else {
        assert InsertedAt(all, line) == FieldLines(fields);
      }
    }
    forall i | 0 <= i < |all| ensures EntryFits(w, d, lines, all[i]) {
      if i < |ledger| {
        assert all[i] == ledger[i];
      } else if i < |ledger + more| {
        assert all[i] == more[i - |ledger|];
      }
    }
  }

  // ---------- the rewriting loop ----------

  datatype Derivation = Derivation(text: string, ledger: seq<Change>, settings: map<string, map<string, string>>)

  method InsertLines(ledger: seq<Change>, output: seq<string>, anchor: nat, fields: Fields, ghost lines: seq<string>)
    returns (ledger': seq<Change>, output': seq<string>)
    requires Accounts(ledger, lines, output) && anchor == |lines| + 1
    ensures Accounts(ledger', lines, output') && output' == output + FieldLines(fields)
    ensures ledger <= ledger' && forall i :: |ledger| <= i < |ledger'| ==> ledger'[i].sourceLine.None?
    ensures forall line ::
      InsertedAt(ledger', line) == InsertedAt(ledger, line) + if line == anchor then FieldLines(fields) else []
  {
    hide Accounts, FieldLine, InsertedAt;
    ledger', output' := ledger, output;
    for j := 0 to |fields|
      invariant Accounts(ledger', lines, output') && output' == output + FieldLines(fields[..j])
      invariant ledger <= ledger' && forall i :: |ledger| <= i < |ledger'| ==> ledger'[i].sourceLine.None?
      invariant forall line ::
        InsertedAt(ledger', line) == InsertedAt(ledger, line) + if line == anchor then FieldLines(fields[..j]) else []
    {
      var after := FieldLine(fields[j].0, fields[j].1);
      AccountInsert(ledger', lines, output', after);
      forall line
        ensures InsertedAt(ledger' + [InsertEntry(anchor, |output'| + 1, after)], line) ==
          InsertedAt(ledger', line) + if line == anchor then [after] else []
      {
        InsertedMore(ledger', InsertEntry(anchor, |output'| + 1, after), line);
      }
      assert fields[..j + 1] == fields[..j] + [fields[j]];
      output' := output' + [after];
      ledger' := ledger' + [InsertEntry(anchor, |output'|, after)];
    }
    assert fields[..|fields|] == fields;
  }

  function Present(text: Option<string>): seq<string> {
    if text.Some? then [text.value] else []
  }

  /** A fate as the replacement text: the line itself, another line, or none. */
  function TextOf(fate: Fate, raw: string): Option<string> {
    match fate
    case Keep => Some(raw)
    case Drop => None
    case Write(text) => Some(text)
  }

  lemma EmittedText(w: Rewrite, group: Option<string>, kind: Kind, raw: string, out: seq<string>)
    ensures out + EmittedFor(w, group, kind, raw) ==
      out + FieldLines(InsertsBefore(w, kind)) + Present(TextOf(FateOf(w, group, kind), raw))
  {
    hide FieldLines, FateOf, InsertsBefore;
  }

  lemma PrefixReads(t: Table, lines: seq<string>, i: nat)
    requires i <= |lines| && Read(t, lines, |lines|).Some?
    ensures Read(t, lines, i).Some?
  {
    if Read(t, lines, i).None? { ReadFails(t, lines, i, |lines|); }
  }

  lemma LineTraced(w: Rewrite, t: Table, lines: seq<string>, d: Deck, line: nat, fields: Fields, fate: Fate)
    returns (before: Deck, kind: Kind)
    requires 1 <= line <= |lines| && Read(t, lines, line).Some? && Traced(t, lines, |lines|, d)
    requires w.removed <= d.ends.Keys
    requires InsertIs(w, d, line, fields) && RuleIs(w, d, line, fate)
    ensures KindAt(t, lines, line) == Some(kind) && GroupBefore(t, lines, line) == before.group
    ensures fields == InsertsBefore(w, kind) && fate == FateOf(w, before.group, kind)
  {
    hide InsertIs, RuleIs, Traced, Apply, KindOf, KindAt, GroupBefore, InsertsBefore, FateOf;
    before, kind := LastLine(t, lines, line);
    InsertFromLine(w, t, lines, |lines|, d, line, fields);
    RuleFromLine(w, t, lines, |lines|, d, line, fate);
  }

  lemma EmittedIs(w: Rewrite, t: Table, lines: seq<string>, d: Deck, i: nat, fields: Fields, fate: Fate)
    requires i < |lines| && Read(t, lines, i).Some? && Read(t, lines, i + 1).Some?
    requires Traced(t, lines, |lines|, d) && w.removed <= d.ends.Keys && InsertIs(w, d, i + 1, fields)
    requires RuleIs(w, d, i + 1, fate)
    ensures Output(w, t, lines, i + 1) == Output(w, t, lines, i) + FieldLines(fields) + Present(TextOf(fate, lines[i]))
  {
    hide InsertIs, RuleIs, Traced, Apply, FieldLines, KindOf, KindAt, GroupBefore, Read, InsertsBefore, FateOf,
      TextOf, Present, EmittedFor;
    var before, kind := LineTraced(w, t, lines, d, i + 1, fields, fate);
    EmittedText(w, before.group, kind, lines[i], Output(w, t, lines, i));
  }

  /** In a finished deck every group has both its limits. */
  lemma BlockLimits(w: Rewrite, t: Table, lines: seq<string>, d: Deck)
    requires Traced(t, lines, |lines|, d) && Finished(t, d) && Fits(w, t, d)
    ensures d.ends.Keys == d.starts.Keys == d.fields.Keys
    ensures w.removed <= d.ends.Keys && w.added.Keys <= d.ends.Keys && forall g :: g in w.removed ==>
      d.starts[g] < d.ends[g]
  {
    hide KindAt, GoodRewrite, NoClash, FieldsRead, KindsRecorded, GroupsTraced;
  }

  lemma DerivedLines(w: Rewrite, t: Table, text: string, d: Deck)
    requires ReadText(t, text) == Some(d) && Fits(w, t, d)
    ensures Read(t, SplitLines(text), |SplitLines(text)|).Some?
    ensures var out := Output(w, t, SplitLines(text), |SplitLines(text)|); SplitLines(Join(out)) == out
  {
    hide Read, GoodRewrite, NoClash, Finished;
    JoinOfSplit(text);
    OutputLines(w, t, SplitLines(text), |SplitLines(text)|);
    SplitOfJoin(Output(w, t, SplitLines(text), |SplitLines(text)|));
  }

  lemma LineEntryIs(line: nat, derived: nat, before: string, after: Option<string>)
    ensures var c := LineEntry(line, derived, before, after);
      c.sourceLine == Some(line) && c.anchor.None? && c.before == Some(before) && c.after == after
  {
  }

  lemma AllExplained(ledger: seq<Change>, w: Rewrite, d: Deck, lines: seq<string>)
    requires ExplainsTo(ledger, w, d, lines, |lines|)
    ensures Explains(ledger, w, d, lines)
  {
    hide EntryFits, AdditionsFit, InsertedAt;
  }

  method RewriteLines(t: Table, lines: seq<string>, d: Deck, w: Rewrite, rules: map<nat, Option<string>>,
      inserts: map<nat, Fields>)
    returns (ledger: seq<Change>, output: seq<string>)
    requires Read(t, lines, |lines|) == Some(d) && Traced(t, lines, |lines|, d) && w.removed <= d.ends.Keys
    requires forall line: nat :: RuleIs(w, d, line, Ruled(rules, line)) && InsertIs(w, d, line, Inserted(inserts, line))
    ensures Accounts(ledger, lines, output) && output == Output(w, t, lines, |lines|)
    ensures Explains(ledger, w, d, lines)
  {
    hide Accounts, RuleIs, InsertIs, Ruled, Inserted, Traced, KindOf, KindAt, GroupBefore, EmittedFor, Present,
      TextOf, LineEntry, ExplainsTo, InsertedAt;
    ledger, output := [], [];
    NothingAccounted();
    NothingExplained(w, d, lines);
    assert lines[..0] == [];
    for i := 0 to |lines|
      invariant Read(t, lines, i).Some? && output == Output(w, t, lines, i) && Accounts(ledger, lines[..i], output)
      invariant ExplainsTo(ledger, w, d, lines, i)
    {
      hide Read, Output;
      ghost var was := ledger;
      var fields, fate := Inserted(inserts, i + 1), Ruled(rules, i + 1);
      assert RuleIs(w, d, i + 1, fate) && InsertIs(w, d, i + 1, fields);
      PrefixReads(t, lines, i + 1);
      EmittedIs(w, t, lines, d, i, fields, fate);
      ledger, output := InsertLines(ledger, output, i + 1, fields, lines[..i]);
      var after := TextOf(fate, lines[i]);
      AccountLine(ledger, lines[..i], output, lines[i], after);
      assert lines[..i + 1] == lines[..i] + [lines[i]];
      output := output + Present(after);
      ghost var more := ledger[|was|..];
      assert ledger == was + more;
      LineEntryIs(i + 1, |output|, lines[i], after);
      ExplainLine(was, more, LineEntry(i + 1, |output|, lines[i], after), w, d, lines, i, fields, fate);
      ledger := ledger + [LineEntry(i + 1, |output|, lines[i], after)];
    }
    assert lines[..|lines|] == lines;
    AllExplained(ledger, w, d, lines);
  }

  /** The rewriting of a text that was read as `d`. It cannot fail: the ledger always covers both decks. */
  method Derive(t: Table, text: string, d: Deck, w: Rewrite) returns (r: Option<Derivation>)
    requires ReadText(t, text) == Some(d) && Fits(w, t, d)
    ensures r.Some? && r.value.settings == Returned(w, d)
    ensures Accounts(r.value.ledger, SplitLines(text), SplitLines(r.value.text))
    ensures Explains(r.value.ledger, w, d, SplitLines(text))
    ensures Read(t, SplitLines(text), |SplitLines(text)|).Some?
    ensures r.value.text == Join(Output(w, t, SplitLines(text), |SplitLines(text)|))
  {
    hide Fits, Returned, Accounts, RuleIs, InsertIs, Ruled, Inserted, Finished, Traced, PlainLines, Read, Output,
      Explains;
    var lines := SplitLines(text);
    JoinOfSplit(text);
    TraceDeck(t, lines, |lines|);
    BlockLimits(w, t, lines, d);
    var rules := BuildRules(w, t, d);
    var inserts := BuildInserts(w, d);
    var ledger, output := RewriteLines(t, lines, d, w, rules, inserts);
    var derived := Join(output);
    DerivedLines(w, t, text, d);
    Covered(ledger, lines, output);
    if Join(Values(Sources(ledger))) != text || Join(Values(Deriveds(ledger))) != derived { return None; }
    var settings := BuildSettings(w, t, d);
    r := Some(Derivation(derived, ledger, settings));
  }

  /** A ledger determines the lines on both sides of it. */
  lemma Covered(ledger: seq<Change>, lines: seq<string>, output: seq<string>)
    requires Accounts(ledger, lines, output)
    ensures Values(Sources(ledger)) == lines && Values(Deriveds(ledger)) == output
  {
    hide Anchored, Sources, Deriveds;
    Lengths(lines);
    Lengths(output);
  }
}
