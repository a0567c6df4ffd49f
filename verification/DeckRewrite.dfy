/** Rewriting a deck line by line commutes with reading it. */
module DeckRewrite {
  import opened Wrappers
  import opened DeckText
  import opened DeckGrammar

  const CONTROL: string := "CONTROL"

  type Fields = seq<(string, string)>

  /** What a rewrite removes, drops, replaces and adds: whole groups, fields of CONTROL, literals of
      fields of CONTROL, and new fields at the end of a group. */
  datatype Rewrite = Rewrite(removed: set<string>, dropped: set<string>, replaced: map<string, string>,
      added: map<string, Fields>)

  datatype Fate = Keep | Drop | Write(text: string)

  function AddedTo(w: Rewrite, g: string): Fields {
    if g in w.added then w.added[g] else []
  }

  function AsMap(fields: Fields): map<string, string> {
    if fields == [] then map[]
    else AsMap(fields[..|fields| - 1])[fields[|fields| - 1].0 := fields[|fields| - 1].1]
  }

  function FieldLines(fields: Fields): (lines: seq<string>)
    ensures |lines| == |fields|
  {
    seq(|fields|, i requires 0 <= i < |fields| => FieldLine(fields[i].0, fields[i].1))
  }

  // ---------- the rules, looked up in the finished deck ----------

  predicate FieldOn(d: Deck, key: string, line: nat) {
    CONTROL in d.fields && key in d.fields[CONTROL] && d.fields[CONTROL][key].line == line
  }

  predicate BlockOver(d: Deck, g: string, line: nat) {
    g in d.starts && g in d.ends && d.starts[g] <= line <= d.ends[g]
  }

  predicate EndsOn(d: Deck, g: string, line: nat) {
    g in d.ends && d.ends[g] == line
  }

  ghost predicate OnFields(d: Deck, keys: set<string>, line: nat) {
    exists k :: k in keys && FieldOn(d, k, line)
  }

  ghost predicate InBlocks(d: Deck, groups: set<string>, line: nat) {
    exists g :: g in groups && BlockOver(d, g, line)
  }

  /** A line's rule: replacement lines win over dropped lines and removed blocks. */
  ghost predicate RuleIs(w: Rewrite, d: Deck, line: nat, fate: Fate) {
    if OnFields(d, w.replaced.Keys, line) then
      exists k :: k in w.replaced && FieldOn(d, k, line) && fate == Write(FieldLine(k, w.replaced[k]))
    else fate == if OnFields(d, w.dropped, line) || InBlocks(d, w.removed, line) then Drop else Keep
  }

  /** The fields inserted before a line: those added to the group that ends there. */
  ghost predicate InsertIs(w: Rewrite, d: Deck, line: nat, fields: Fields) {
    if exists g :: g in w.added && EndsOn(d, g, line)
    then exists g :: g in w.added && EndsOn(d, g, line) && fields == w.added[g]
    else fields == []
  }

  /** The same, read off the line itself. */
  function FateOf(w: Rewrite, group: Option<string>, kind: Kind): Fate {
    if kind.Assign? && kind.group == CONTROL && kind.key in w.replaced then
      Write(FieldLine(kind.key, w.replaced[kind.key]))
    else if kind.Assign? && kind.group == CONTROL && kind.key in w.dropped then Drop
    else if (kind.Open? && kind.group in w.removed) || (group.Some? && group.value in w.removed) then Drop
    else Keep
  }

  function InsertsBefore(w: Rewrite, kind: Kind): Fields {
    if kind.Close? then AddedTo(w, kind.group) else []
  }

  lemma FieldOfLine(t: Table, lines: seq<string>, n: nat, d: Deck, line: nat, kind: Kind, key: string)
    requires 1 <= line <= n <= |lines| && FieldsRead(t, lines, n, d) && KindAt(t, lines, line) == Some(kind)
    requires Records(d, kind, line)
    ensures FieldOn(d, key, line) <==> kind.Assign? && kind.group == CONTROL && kind.key == key
  {
    hide KindAt;
    if FieldOn(d, key, line) {
      assert KindAt(t, lines, d.fields[CONTROL][key].line) ==
             Some(Assign(CONTROL, key, d.fields[CONTROL][key].literal));
    }
  }

  lemma BlockOfLine(t: Table, lines: seq<string>, n: nat, d: Deck, line: nat, kind: Kind, group: Option<string>,
      g: string)
    requires 1 <= line <= n <= |lines| && LimitsRead(t, lines, n, d) && KindAt(t, lines, line) == Some(kind)
    requires Records(d, kind, line)
    requires g in d.ends && InsideLimits(d, line, group)
    ensures BlockOver(d, g, line) <==> kind == Open(g) || group == Some(g)
  {
    hide KindAt;
    assert KindAt(t, lines, d.starts[g]) == Some(Open(g));
  }

  lemma RuleFromLine(w: Rewrite, t: Table, lines: seq<string>, n: nat, d: Deck, line: nat, fate: Fate)
    requires 1 <= line <= n <= |lines| && Traced(t, lines, n, d)
    requires w.removed <= d.ends.Keys
    requires KindAt(t, lines, line).Some? && RuleIs(w, d, line, fate)
    ensures fate == FateOf(w, GroupBefore(t, lines, line), KindAt(t, lines, line).value)
  {
    hide KindAt, GroupBefore, FieldsRead, LimitsRead, FieldOn, BlockOver, Records, InsideLimits, FieldLine;
    var kind, group := KindAt(t, lines, line).value, GroupBefore(t, lines, line);
    assert Records(d, kind, line) && InsideLimits(d, line, group);
    forall k ensures FieldOn(d, k, line) <==> kind.Assign? && kind.group == CONTROL && kind.key == k {
      FieldOfLine(t, lines, n, d, line, kind, k);
    }
    forall g | g in w.removed ensures BlockOver(d, g, line) <==> kind == Open(g) || group == Some(g) {
      BlockOfLine(t, lines, n, d, line, kind, group, g);
    }
  }

  lemma InsertFromLine(w: Rewrite, t: Table, lines: seq<string>, n: nat, d: Deck, line: nat, fields: Fields)
    requires 1 <= line <= n <= |lines| && Traced(t, lines, n, d)
    requires KindAt(t, lines, line).Some? && InsertIs(w, d, line, fields)
    ensures fields == InsertsBefore(w, KindAt(t, lines, line).value)
  {
    hide KindAt, GroupBefore, FieldsRead, GroupsTraced;
    var kind := KindAt(t, lines, line).value;
    assert Records(d, kind, line);
    forall g ensures EndsOn(d, g, line) <==> kind == Close(g) {
      if EndsOn(d, g, line) { assert KindAt(t, lines, d.ends[g]) == Some(Close(g)); }
    }
  }

  // ---------- the output ----------

  /** What stands for a line in the derived deck. */
  function EmittedFor(w: Rewrite, group: Option<string>, kind: Kind, raw: string): seq<string> {
    FieldLines(InsertsBefore(w, kind)) +
    match FateOf(w, group, kind)
    case Keep => [raw]
    case Drop => []
    case Write(text) => [text]
  }

  ghost function Emitted(w: Rewrite, t: Table, lines: seq<string>, line: nat): seq<string>
    requires 1 <= line <= |lines| && KindAt(t, lines, line).Some?
  {
    EmittedFor(w, GroupBefore(t, lines, line), KindAt(t, lines, line).value, lines[line - 1])
  }

  ghost function Output(w: Rewrite, t: Table, lines: seq<string>, n: nat): seq<string>
    requires n <= |lines| && Read(t, lines, n).Some?
  {
    if n == 0 then [] else Output(w, t, lines, n - 1) + Emitted(w, t, lines, n)
  }

  // ---------- what the derived deck should say ----------

  function Literals(fields: map<string, Entry>): map<string, string> {
    map k | k in fields :: fields[k].literal
  }

  /** A group's source settings with the dropped fields gone and the replacements made. */
  function Base(w: Rewrite, g: string, fields: map<string, Entry>): map<string, string> {
    map k | k in fields && !(g == CONTROL && k in w.dropped) ::
      if g == CONTROL && k in w.replaced then w.replaced[k] else fields[k].literal
  }

  function RowTexts(rows: seq<Row>): seq<string> {
    seq(|rows|, i requires 0 <= i < |rows| => rows[i].text)
  }

  function Texts(cards: map<string, seq<Row>>): map<string, seq<string>> {
    map card | card in cards :: RowTexts(cards[card])
  }

  function Kept(w: Rewrite, order: seq<string>): seq<string> {
    if order == [] then []
    else Kept(w, order[..|order| - 1]) + (if order[|order| - 1] in w.removed then [] else [order[|order| - 1]])
  }

  /** The grammar of derived decks: the removed groups gone, the added fields allowed. */
  function Extended(t: Table, w: Rewrite): Table {
    t.(order := Kept(w, t.order),
       keys := map g | g in t.keys && g !in w.removed :: t.keys[g] + AsMap(AddedTo(w, g)).Keys)
  }

  ghost predicate GoodField(t: Table, field: (string, string)) {
    PlainKey(field.0) && PlainLiteral(field.1) && t.AcceptsLiteral(field.1)
  }

  ghost predicate GoodFields(t: Table, fields: Fields) {
    && (forall i :: 0 <= i < |fields| ==> GoodField(t, fields[i]))
    && (forall i, j :: 0 <= i < j < |fields| ==> fields[i].0 != fields[j].0)
  }

  ghost predicate GoodRewrite(w: Rewrite, t: Table) {
    && CONTROL !in w.removed && w.dropped !! w.replaced.Keys
    && (forall g :: g in w.added ==> g in t.keys && g !in w.removed && GoodFields(t, w.added[g]))
    && (forall k :: k in w.replaced ==> GoodField(t, (k, w.replaced[k])))
  }

  /** The added fields are not yet in the source. */
  ghost predicate NoClash(w: Rewrite, d: Deck) {
    forall g, i :: g in w.added && g in d.fields && 0 <= i < |w.added[g]| ==> w.added[g][i].0 !in d.fields[g]
  }

  // ---------- simulation ----------

  function VisibleGroup(w: Rewrite, group: Option<string>): Option<string> {
    if group.Some? && group.value in w.removed then None else group
  }

  /** What the derived reader must have recorded for a group: the additions come when it is closed. */
  ghost function Target(w: Rewrite, d: Deck, g: string): map<string, string>
    requires g in d.fields
  {
    if d.group == Some(g) then Base(w, g, d.fields[g]) else Base(w, g, d.fields[g]) + AsMap(AddedTo(w, g))
  }

  ghost predicate FieldsMirror(w: Rewrite, d: Deck, e: Deck) {
    && e.fields.Keys == d.fields.Keys - w.removed
    && (forall g :: g in e.fields ==> Literals(e.fields[g]) == Target(w, d, g))
  }

  /** The derived reader's state `e` shows what it should of the source reader's state `d`. */
  ghost predicate Mirrors(w: Rewrite, d: Deck, e: Deck) {
    && e.mode == d.mode && e.cardOrder == d.cardOrder && Texts(e.cards) == Texts(d.cards)
    && e.group == VisibleGroup(w, d.group) && e.order == Kept(w, d.order)
    && FieldsMirror(w, d, e)
  }

  ghost predicate Consistent(t: Table, d: Deck) {
    && (d.group.Some? ==> d.group.value in d.fields && d.group.value in t.keys)
    && (forall g :: g in d.fields ==> g in t.keys && d.fields[g].Keys <= t.keys[g])
  }

  ghost predicate Allowed(t: Table, kind: Kind) {
    && (kind.Assign? ==> kind.group in t.keys && kind.key in t.keys[kind.group])
    && (kind.Open? ==> kind.group in t.keys)
  }

  lemma KindAllowed(t: Table, d: Deck, raw: string)
    requires KindOf(t, d, raw).Some?
    ensures Allowed(t, KindOf(t, d, raw).value)
  {
    hide Strip, ParseAssign;
  }

  lemma ConsistentStep(t: Table, d: Deck, kind: Kind, raw: string, n: nat)
    requires Consistent(t, d) && Admits(d, kind) && Allowed(t, kind)
    ensures Consistent(t, Apply(d, kind, raw, n))
  {
    hide WithoutNewline;
  }

  lemma {:induction false} ReadConsistent(t: Table, lines: seq<string>, n: nat)
    requires n <= |lines| && Read(t, lines, n).Some?
    ensures Consistent(t, Read(t, lines, n).value)
  {
    if n > 0 {
      hide KindOf, Apply, Consistent, Allowed, Admits;
      var before, kind := LastLine(t, lines, n);
      ReadConsistent(t, lines, n - 1);
      KindAllowed(t, before, lines[n - 1]);
      ConsistentStep(t, before, kind, lines[n - 1], n);
    }
  }

  /** A kept line is the same kind of line to the derived reader. */
  lemma KeptKind(w: Rewrite, t: Table, d: Deck, e: Deck, raw: string, kind: Kind)
    requires Consistent(t, d) && Mirrors(w, d, e) && KindOf(t, d, raw) == Some(kind)
    requires FateOf(w, d.group, kind) == Keep && !kind.Close?
    ensures KindOf(Extended(t, w), e, raw) == Some(kind)
  {
    hide Strip, ParseAssign, Kept, AsMap;
    if kind.Assign? {
      var g := kind.group;
      assert Literals(e.fields[g]) == Base(w, g, d.fields[g]);
      assert kind.key !in Literals(e.fields[g]);
    }
    assert Texts(e.cards).Keys == e.cards.Keys && Texts(d.cards).Keys == d.cards.Keys;
  }

  lemma KeptClose(w: Rewrite, t: Table, d: Deck, e: Deck, raw: string, g: string)
    requires KindOf(t, d, raw) == Some(Close(g)) && e.group == Some(g)
    ensures KindOf(Extended(t, w), e, raw) == Some(Close(g))
  {
    hide Strip, ParseAssign, Kept, AsMap;
  }

  lemma TextsUpdate(cards: map<string, seq<Row>>, card: string, rows: seq<Row>)
    ensures Texts(cards[card := rows]) == Texts(cards)[card := RowTexts(rows)]
    ensures card in cards <==> card in Texts(cards)
    ensures card in cards ==> RowTexts(cards[card]) == Texts(cards)[card]
  {
  }

  lemma RowTextsAppend(rows: seq<Row>, row: Row)
    ensures RowTexts(rows + [row]) == RowTexts(rows) + [row.text]
  {
  }

  lemma TextsMirror(d: Deck, e: Deck, kind: Kind, raw: string, n: nat, m: nat)
    requires Texts(e.cards) == Texts(d.cards)
    ensures Texts(Apply(e, kind, raw, m).cards) == Texts(Apply(d, kind, raw, n).cards)
  {
    hide WithoutNewline, Texts, RowTexts;
    match kind
    case Head(card) =>
      TextsUpdate(d.cards, card, []);
      TextsUpdate(e.cards, card, []);
    case CardRow(card) =>
      var text := WithoutNewline(raw);
      var rows := if card in d.cards then d.cards[card] else [];
      var mirrored := if card in e.cards then e.cards[card] else [];
      TextsUpdate(d.cards, card, rows + [Row(n, text)]);
      TextsUpdate(e.cards, card, mirrored + [Row(m, text)]);
      RowTextsAppend(rows, Row(n, text));
      RowTextsAppend(mirrored, Row(m, text));
    case _ =>
  }

  lemma LiteralsUpdate(fields: map<string, Entry>, key: string, entry: Entry)
    ensures Literals(fields[key := entry]) == Literals(fields)[key := entry.literal]
  {
  }

  lemma BaseUpdate(w: Rewrite, g: string, fields: map<string, Entry>, key: string, entry: Entry)
    ensures Base(w, g, fields[key := entry]) ==
            if g == CONTROL && key in w.dropped then Base(w, g, fields)
            else Base(w, g, fields)[key := if g == CONTROL && key in w.replaced then w.replaced[key] else entry.literal]
  {
  }

  lemma NoFields(w: Rewrite, g: string)
    ensures Literals(map[]) == map[] && Base(w, g, map[]) == map[]
  {
  }

  /** An assignment to a visible field is recorded under the literal shown for it. */
  lemma AssignMirror(w: Rewrite, d: Deck, e: Deck, g: string, key: string, literal: string, shown: string,
      raw: string, raw': string, n: nat, m: nat)
    requires FieldsMirror(w, d, e) && Admits(d, Assign(g, key, literal)) && g !in w.removed
    requires !(g == CONTROL && key in w.dropped)
    requires shown == if g == CONTROL && key in w.replaced then w.replaced[key] else literal
    ensures FieldsMirror(w, Apply(d, Assign(g, key, literal), raw, n), Apply(e, Assign(g, key, shown), raw', m))
  {
    hide AsMap, Literals, Base;
    BaseUpdate(w, g, d.fields[g], key, Entry(literal, n));
    LiteralsUpdate(e.fields[g], key, Entry(shown, m));
  }

  lemma OpenMirror(w: Rewrite, d: Deck, e: Deck, g: string, raw: string, n: nat, m: nat)
    requires FieldsMirror(w, d, e) && Admits(d, Open(g)) && g !in w.removed
    ensures FieldsMirror(w, Apply(d, Open(g), raw, n), Apply(e, Open(g), raw, m))
  {
    hide AsMap, Literals, Base;
    NoFields(w, g);
  }

  lemma FieldsUntouched(w: Rewrite, d: Deck, e: Deck, d': Deck, e': Deck)
    requires FieldsMirror(w, d, e) && d'.fields == d.fields && d'.group == d.group && e'.fields == e.fields
    ensures FieldsMirror(w, d', e')
  {
    hide AsMap, Literals, Base;
  }

  lemma KeptMirror(w: Rewrite, d: Deck, e: Deck, raw: string, kind: Kind, n: nat, m: nat)
    requires Mirrors(w, d, e) && Admits(d, kind) && FateOf(w, d.group, kind) == Keep && !kind.Close?
    ensures Mirrors(w, Apply(d, kind, raw, n), Apply(e, kind, raw, m))
  {
    hide AsMap, WithoutNewline, Texts, FieldsMirror;
    TextsMirror(d, e, kind, raw, n, m);
    match kind
    case Assign(g, key, literal) => AssignMirror(w, d, e, g, key, literal, literal, raw, raw, n, m);
    case Open(g) =>
      OpenMirror(w, d, e, g, raw, n, m);
      assert (d.order + [g])[..|d.order|] == d.order;
    case Head(card) => FieldsUntouched(w, d, e, Apply(d, kind, raw, n), Apply(e, kind, raw, m));
    case CardRow(card) => FieldsUntouched(w, d, e, Apply(d, kind, raw, n), Apply(e, kind, raw, m));
    case Blank =>
  }

  /** A dropped line leaves nothing to show. */
  lemma DropMirror(w: Rewrite, d: Deck, e: Deck, raw: string, kind: Kind, n: nat)
    requires CONTROL !in w.removed && Mirrors(w, d, e) && Admits(d, kind) && FateOf(w, d.group, kind) == Drop
    ensures Mirrors(w, Apply(d, kind, raw, n), e)
  {
    hide AsMap, WithoutNewline, Texts, Literals, Base;
    match kind
    case Assign(g, key, literal) => BaseUpdate(w, g, d.fields[g], key, Entry(literal, n));
    case Open(g) => assert (d.order + [g])[..|d.order|] == d.order;
    case _ =>
  }

  // ---------- written lines ----------

  /** A line written for a field reads as that field. */
  lemma WrittenKind(t: Table, e: Deck, g: string, key: string, literal: string)
    requires e.group == Some(g) && g in t.keys && key in t.keys[g] && g in e.fields && key !in e.fields[g]
    requires GoodField(t, (key, literal))
    ensures KindOf(t, e, FieldLine(key, literal)) == Some(Assign(g, key, literal))
  {
    hide Strip, ParseAssign, FieldLine, PlainLiteral, PlainKey;
    StripOfFieldLine(key, literal);
    ParseOfFieldLine(key, literal);
    var text := key + " = " + literal + ",";
    assert text[|text| - 1] == ',';
  }

  /** The replacement of a field is recorded instead of the field. */
  lemma WriteMirror(w: Rewrite, t: Table, d: Deck, e: Deck, raw: string, key: string, literal: string, n: nat, m: nat)
    requires GoodRewrite(w, t) && Consistent(t, d) && Mirrors(w, d, e)
    requires Admits(d, Assign(CONTROL, key, literal)) && key in t.keys[CONTROL] && key in w.replaced
    ensures var text := FieldLine(key, w.replaced[key]);
            Step(Extended(t, w), e, text, m) == Some(Apply(e, Assign(CONTROL, key, w.replaced[key]), text, m)) &&
            Mirrors(w, Apply(d, Assign(CONTROL, key, literal), raw, n),
              Apply(e, Assign(CONTROL, key, w.replaced[key]), text, m))
  {
    hide AsMap, WithoutNewline, Texts, Kept, FieldLine, KindOf, PlainKey, PlainLiteral, Literals, Base, Lower;
    var text := FieldLine(key, w.replaced[key]);
    UnseenKey(w, d, e, CONTROL, key);
    WrittenKind(Extended(t, w), e, CONTROL, key, w.replaced[key]);
    AssignMirror(w, d, e, CONTROL, key, literal, w.replaced[key], raw, text, n, m);
  }

  /** What the source reader has not read in the open group, the derived reader has not either. */
  lemma UnseenKey(w: Rewrite, d: Deck, e: Deck, g: string, key: string)
    requires FieldsMirror(w, d, e) && d.group == Some(g) && g in d.fields && g !in w.removed && key !in d.fields[g]
    ensures g in e.fields && key !in e.fields[g] && Literals(e.fields[g]) == Base(w, g, d.fields[g])
  {
    hide AsMap;
    assert Literals(e.fields[g]) == Base(w, g, d.fields[g]);
    assert key !in Literals(e.fields[g]);
  }

  // ---------- added lines ----------

  lemma {:induction false} AsMapKeys(fields: Fields, key: string)
    ensures key in AsMap(fields) <==> exists i :: 0 <= i < |fields| && fields[i].0 == key
  {
    if fields != [] {
      var front := fields[..|fields| - 1];
      AsMapKeys(front, key);
      if i :| 0 <= i < |fields| && fields[i].0 == key {
        if i < |front| { assert front[i].0 == key; }
      }
    }
  }

  ghost predicate Unseen(t: Table, e: Deck, g: string, fields: Fields) {
    && e.group == Some(g) && g in t.keys && g in e.fields
    && forall i :: 0 <= i < |fields| ==> fields[i].0 in t.keys[g] && fields[i].0 !in e.fields[g]
  }

  /** Only the fields of `g` differ, and the literals of `g` are exactly these. */
  ghost predicate OnlyAdds(e: Deck, e': Deck, g: string, literals: map<string, string>) {
    g in e'.fields && e' == e.(fields := e.fields[g := e'.fields[g]]) && Literals(e'.fields[g]) == literals
  }

  lemma AddedLine(t: Table, lines: seq<string>, e: Deck, g: string, key: string, literal: string) returns (e': Deck)
    requires Read(t, lines, |lines|) == Some(e) && Unseen(t, e, g, [(key, literal)]) && GoodField(t, (key, literal))
    ensures Read(t, lines + [FieldLine(key, literal)], |lines| + 1) == Some(e')
    ensures OnlyAdds(e, e', g, Literals(e.fields[g])[key := literal])
  {
    hide KindOf, Read, FieldLine, GoodField, Literals;
    var text := FieldLine(key, literal);
    assert [(key, literal)][0].0 == key;
    WrittenKind(t, e, g, key, literal);
    ReadOneMore(t, lines, text, e);
    e' := Apply(e, Assign(g, key, literal), text, |lines| + 1);
    LiteralsUpdate(e.fields[g], key, Entry(literal, |lines| + 1));
  }

  /** Once the fields but the last are read, the last is still to be read. */
  lemma StillUnseen(t: Table, e: Deck, mid: Deck, g: string, fields: Fields)
    requires Unseen(t, e, g, fields) && GoodFields(t, fields) && fields != []
    requires OnlyAdds(e, mid, g, Literals(e.fields[g]) + AsMap(fields[..|fields| - 1]))
    ensures Unseen(t, mid, g, [(fields[|fields| - 1].0, fields[|fields| - 1].1)])
  {
    hide AsMap, GoodField;
    var front, key := fields[..|fields| - 1], fields[|fields| - 1].0;
    AsMapKeys(front, key);
    assert forall i :: 0 <= i < |front| ==> front[i] == fields[i];
    assert key !in Literals(mid.fields[g]);
  }

  lemma Nothing(e: Deck, g: string)
    requires g in e.fields
    ensures OnlyAdds(e, e, g, Literals(e.fields[g]) + AsMap([])) && FieldLines([]) == []
  {
    hide Literals;
  }

  lemma OneMoreField(lines: seq<string>, fields: Fields)
    requires fields != []
    ensures var last := fields[|fields| - 1];
            lines + FieldLines(fields[..|fields| - 1]) + [FieldLine(last.0, last.1)] == lines + FieldLines(fields)
  {
    hide FieldLine;
  }

  lemma AddsMore(e: Deck, mid: Deck, e': Deck, g: string, fields: Fields)
    requires g in e.fields && fields != []
    requires OnlyAdds(e, mid, g, Literals(e.fields[g]) + AsMap(fields[..|fields| - 1]))
    requires OnlyAdds(mid, e', g, Literals(mid.fields[g])[fields[|fields| - 1].0 := fields[|fields| - 1].1])
    ensures OnlyAdds(e, e', g, Literals(e.fields[g]) + AsMap(fields))
  {
    hide Literals, AsMap;
    var front, key, literal := fields[..|fields| - 1], fields[|fields| - 1].0, fields[|fields| - 1].1;
    LastField(fields);
    PlusUpdate(Literals(e.fields[g]), AsMap(front), key, literal);
    assert e'.fields == e.fields[g := e'.fields[g]];
  }

  lemma LastField(fields: Fields)
    requires fields != []
    ensures AsMap(fields) == AsMap(fields[..|fields| - 1])[fields[|fields| - 1].0 := fields[|fields| - 1].1]
  {
  }

  lemma PlusUpdate(a: map<string, string>, b: map<string, string>, key: string, value: string)
    ensures (a + b)[key := value] == a + b[key := value]
  {
  }

  /** Reading the added lines of a group adds exactly their literals. */
  lemma {:induction false} AddedLines(t: Table, lines: seq<string>, e: Deck, g: string, fields: Fields)
      returns (e': Deck)
    requires Read(t, lines, |lines|) == Some(e) && Unseen(t, e, g, fields) && GoodFields(t, fields)
    ensures var all := lines + FieldLines(fields); Read(t, all, |all|) == Some(e')
    ensures OnlyAdds(e, e', g, Literals(e.fields[g]) + AsMap(fields))
    decreases |fields|
  {
    hide KindOf, Read, FieldLine, GoodField, Literals, OnlyAdds, FieldLines;
    if fields == [] {
      Nothing(e, g);
      assert lines + FieldLines(fields) == lines;
      e' := e;
    } else {
      var front, last := fields[..|fields| - 1], fields[|fields| - 1];
      var mid := AddedLines(t, lines, e, g, front);
      var before := lines + FieldLines(front);
      OneMoreField(lines, fields);
      StillUnseen(t, e, mid, g, fields);
      e' := AddedLine(t, before, mid, g, last.0, last.1);
      AddsMore(e, mid, e', g, fields);
    }
  }

  lemma CloseMirror(w: Rewrite, d: Deck, e: Deck, e': Deck, g: string, raw: string, n: nat, m: nat)
    requires Mirrors(w, d, e) && Admits(d, Close(g)) && g !in w.removed && g in d.fields
    requires OnlyAdds(e, e', g, Base(w, g, d.fields[g]) + AsMap(AddedTo(w, g)))
    ensures Mirrors(w, Apply(d, Close(g), raw, n), Apply(e', Close(g), raw, m))
  {
    hide AsMap, Literals, Base, Texts;
  }

  // ---------- every step ----------

  /** The added fields of a group that is being closed are new to the derived reader. */
  lemma AdditionsUnseen(w: Rewrite, t: Table, d: Deck, e: Deck, g: string)
    requires GoodRewrite(w, t) && NoClash(w, d) && Consistent(t, d) && Mirrors(w, d, e) && d.group == Some(g)
    requires g !in w.removed
    ensures Unseen(Extended(t, w), e, g, AddedTo(w, g)) && GoodFields(Extended(t, w), AddedTo(w, g))
    ensures Literals(e.fields[g]) == Base(w, g, d.fields[g])
  {
    hide AsMap, Texts, Kept, Base, PlainKey, PlainLiteral, Lower;
    var fields := AddedTo(w, g);
    assert Literals(e.fields[g]) == Target(w, d, g);
    forall i | 0 <= i < |fields| ensures fields[i].0 in Extended(t, w).keys[g] && fields[i].0 !in e.fields[g] {
      AsMapKeys(fields, fields[i].0);
      UnseenKey(w, d, e, g, fields[i].0);
    }
  }

  /** One source line: what is emitted for it takes the derived reader to a mirroring state. */
  lemma EmitMirrors(w: Rewrite, t: Table, d: Deck, e: Deck, raw: string, kind: Kind, n: nat, out: seq<string>)
      returns (e': Deck)
    requires GoodRewrite(w, t) && NoClash(w, d) && Consistent(t, d) && Mirrors(w, d, e)
    requires KindOf(t, d, raw) == Some(kind) && Admits(d, kind) && Read(Extended(t, w), out, |out|) == Some(e)
    ensures var all := out + EmittedFor(w, d.group, kind, raw);
            Read(Extended(t, w), all, |all|) == Some(e') && Mirrors(w, Apply(d, kind, raw, n), e')
  {
    hide Read, KindOf, Consistent, GoodRewrite, NoClash, Mirrors, Apply, FieldLine, Extended, Base;
    var t' := Extended(t, w);
    var inserts, fate := FieldLines(InsertsBefore(w, kind)), FateOf(w, d.group, kind);
    match fate
    case Drop =>
      DropInserts(w, t, d, kind);
      assert out + EmittedFor(w, d.group, kind, raw) == out;
      DropMirrorGood(w, t, d, e, raw, kind, n);
      e' := e;
    case Write(text) =>
      assert out + EmittedFor(w, d.group, kind, raw) == out + [text];
      KindAllowed(t, d, raw);
      WriteMirror(w, t, d, e, raw, kind.key, kind.literal, n, |out| + 1);
      ReadOneMore(t', out, text, e);
      e' := Apply(e, Assign(CONTROL, kind.key, w.replaced[kind.key]), text, |out| + 1);
    case Keep =>
      if kind.Close? {
        e' := CloseEmits(w, t, d, e, raw, kind.group, n, out);
      } else {
        assert out + EmittedFor(w, d.group, kind, raw) == out + [raw];
        KeptKind(w, t, d, e, raw, kind);
        ReadOneMore(t', out, raw, e);
        KeptMirror(w, d, e, raw, kind, n, |out| + 1);
        e' := Apply(e, kind, raw, |out| + 1);
      }
  }

  lemma DropInserts(w: Rewrite, t: Table, d: Deck, kind: Kind)
    requires GoodRewrite(w, t) && Admits(d, kind) && FateOf(w, d.group, kind) == Drop
    ensures InsertsBefore(w, kind) == []
  {
    hide GoodFields, GoodField;
  }

  lemma DropMirrorGood(w: Rewrite, t: Table, d: Deck, e: Deck, raw: string, kind: Kind, n: nat)
    requires GoodRewrite(w, t) && Mirrors(w, d, e) && Admits(d, kind) && FateOf(w, d.group, kind) == Drop
    ensures Mirrors(w, Apply(d, kind, raw, n), e)
  {
    hide GoodFields, GoodField, Mirrors, Apply;
    DropMirror(w, d, e, raw, kind, n);
  }

  lemma CloseEmits(w: Rewrite, t: Table, d: Deck, e: Deck, raw: string, g: string, n: nat, out: seq<string>)
      returns (e': Deck)
    requires GoodRewrite(w, t) && NoClash(w, d) && Consistent(t, d) && Mirrors(w, d, e) && g !in w.removed
    requires KindOf(t, d, raw) == Some(Close(g)) && Admits(d, Close(g)) && Read(Extended(t, w), out, |out|) == Some(e)
    ensures var all := out + EmittedFor(w, d.group, Close(g), raw);
            Read(Extended(t, w), all, |all|) == Some(e') && Mirrors(w, Apply(d, Close(g), raw, n), e')
  {
    hide Read, KindOf, Apply, FieldLine, Extended, Base, GoodRewrite, NoClash, Texts, Literals, AsMap;
    var t', added := Extended(t, w), AddedTo(w, g);
    AdditionsUnseen(w, t, d, e, g);
    var mid := AddedLines(t', out, e, g, added);
    var before := out + FieldLines(added);
    assert out + EmittedFor(w, d.group, Close(g), raw) == before + [raw];
    KeptClose(w, t, d, mid, raw, g);
    ReadOneMore(t', before, raw, mid);
    e' := Apply(mid, Close(g), raw, |before| + 1);
    CloseMirror(w, d, e, mid, g, raw, n, |before| + 1);
  }

  lemma NoClashBefore(w: Rewrite, before: Deck, kind: Kind, raw: string, n: nat)
    requires NoClash(w, Apply(before, kind, raw, n)) && Admits(before, kind)
    ensures NoClash(w, before)
  {
  }

  /** After every prefix of the source, the derived reader has read what was emitted for it and mirrors the source
      reader. */
  lemma {:induction false} Simulates(w: Rewrite, t: Table, lines: seq<string>, n: nat) returns (e: Deck)
    requires n <= |lines| && Read(t, lines, n).Some? && GoodRewrite(w, t) && NoClash(w, Read(t, lines, n).value)
    ensures var out := Output(w, t, lines, n); Read(Extended(t, w), out, |out|) == Some(e)
    ensures Mirrors(w, Read(t, lines, n).value, e)
  {
    hide KindOf, Apply, GoodRewrite, NoClash, Extended, Consistent, Admits;
    if n == 0 {
      e := EMPTY;
      NothingYet(w);
    } else {
      hide Mirrors, EmittedFor;
      var before, kind := LastLine(t, lines, n);
      NoClashBefore(w, before, kind, lines[n - 1], n);
      e := Simulates(w, t, lines, n - 1);
      ReadConsistent(t, lines, n - 1);
      e := EmitMirrors(w, t, before, e, lines[n - 1], kind, n, Output(w, t, lines, n - 1));
    }
  }

  lemma NothingYet(w: Rewrite)
    ensures Mirrors(w, EMPTY, EMPTY)
  {
  }
}
