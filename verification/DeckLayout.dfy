/** Every text laid out as a deck reads: blocks of assignments for the groups in their order, then the cards. */
module DeckLayout {
  import opened Wrappers
  import opened Sequences
  import opened DeckText
  import opened DeckAssign
  import opened DeckGrammar
  import opened DeckReading
  import opened DeckDelta

  ghost predicate BlankLine(raw: string) { Strip(raw) == "" }

  /** A line that assigns an accepted literal to one of the group's keys. */
  ghost predicate FieldLineOf(t: Table, g: string, raw: string, key: string, literal: string) {
    g in t.keys && key in t.keys[g] && Sets(Strip(raw), key, literal) && t.AcceptsLiteral(literal)
  }

  ghost predicate BodyLine(t: Table, g: string, raw: string) {
    BlankLine(raw) || exists key, literal :: FieldLineOf(t, g, raw, key, literal)
  }

  /** No key is assigned on two of the lines. */
  ghost predicate KeysDiffer(t: Table, g: string, lines: seq<string>) {
    forall i, j, key, a, b :: 0 <= i < j < |lines| ==>
      !(FieldLineOf(t, g, lines[i], key, a) && FieldLineOf(t, g, lines[j], key, b))
  }

  ghost predicate GroupBlock(t: Table, g: string, lines: seq<string>) {
    && |lines| >= 2 && Strip(lines[0]) == "&" + g && Strip(lines[|lines| - 1]) == "/"
    && (forall i :: 0 < i < |lines| - 1 ==> BodyLine(t, g, lines[i]))
    && KeysDiffer(t, g, lines[1..|lines| - 1])
  }

  /** A row of a card, or a blank line among them. */
  ghost predicate RowLine(raw: string) {
    BlankLine(raw) || (Strip(raw)[0] != '&' && Strip(raw) !in CARDS)
  }

  ghost predicate CardBlock(card: string, lines: seq<string>) {
    lines != [] && Strip(lines[0]) == card && forall i :: 0 < i < |lines| ==> RowLine(lines[i])
  }

  ghost predicate AllBlank(lines: seq<string>) {
    forall i :: 0 <= i < |lines| ==> BlankLine(lines[i])
  }

  /** Blank lines, and then the block of the k-th group or card. */
  ghost predicate Section(t: Table, order: seq<string>, cards: seq<string>, k: nat, blanks: seq<string>,
                          block: seq<string>)
  {
    && AllBlank(blanks)
    && (if k < |order| then GroupBlock(t, order[k], block)
        else k - |order| < |cards| && CardBlock(cards[k - |order|], block))
  }

  /** The first `n` sections one after the other. */
  ghost function Laid(sections: seq<(seq<string>, seq<string>)>, n: nat): seq<string>
    requires n <= |sections|
  {
    if n == 0 then [] else Laid(sections, n - 1) + sections[n - 1].0 + sections[n - 1].1
  }

  ghost predicate IsDeck(t: Table, sections: seq<(seq<string>, seq<string>)>) {
    && |sections| == |t.order| + 3
    && AreSections(t, t.order, CARDS, sections)
  }

  ghost predicate AreSections(t: Table, order: seq<string>, cards: seq<string>,
                              sections: seq<(seq<string>, seq<string>)>)
  {
    forall k :: 0 <= k < |sections| ==> Section(t, order, cards, k, sections[k].0, sections[k].1)
  }

  // ---------- one line ----------

  lemma NoAssignment(key: string, literal: string)
    ensures !Sets("/", key, literal)
  {
    ParsesExactlyWhen("/", key, literal);
    assert SkipSpace("/", 0) == 0 && KeyEnd("/", 0).None?;
  }

  lemma BlankKind(t: Table, d: Deck, raw: string)
    requires BlankLine(raw)
    ensures KindOf(t, d, raw) == Some(Blank)
  {
  }

  lemma FieldKind(t: Table, d: Deck, raw: string, g: string, key: string, literal: string)
    requires FieldLineOf(t, g, raw, key, literal) && d.group == Some(g) && g in d.fields && key !in d.fields[g]
    ensures KindOf(t, d, raw) == Some(Assign(g, key, literal))
  {
    ParsesExactlyWhen(Strip(raw), key, literal);
    NoAssignment(key, literal);
    assert Strip(raw) != "" by {
      if Strip(raw) == "" { EmptyAssignsNothing(key, literal); }
    }
    hide Strip, ParseAssign, Sets, Table.AcceptsLiteral;
  }

  lemma EmptyAssignsNothing(key: string, literal: string)
    ensures !Sets("", key, literal)
  {
    ParsesExactlyWhen("", key, literal);
    assert SkipSpace("", 0) == 0 && KeyEnd("", 0).None?;
  }

  lemma OpenKind(t: Table, d: Deck, raw: string, g: string)
    requires Strip(raw) == "&" + g && d.group.None? && d.mode.None? && g in t.keys && g !in d.fields
    ensures KindOf(t, d, raw) == Some(Open(g))
  {
    hide Strip;
    assert Strip(raw)[0] == '&' && Strip(raw)[1..] == g;
  }

  lemma CloseKind(t: Table, d: Deck, raw: string, g: string)
    requires Strip(raw) == "/" && d.group == Some(g)
    ensures KindOf(t, d, raw) == Some(Close(g))
  {
    hide Strip, ParseAssign;
  }

  lemma CardNames(card: string)
    requires card in CARDS
    ensures card != "" && card[0] != '&'
  {
  }

  lemma HeadKind(t: Table, d: Deck, raw: string, card: string)
    requires Strip(raw) == card && card in CARDS && d.group.None? && card !in d.cards
    ensures KindOf(t, d, raw) == Some(Head(card))
  {
    hide Strip;
    CardNames(card);
  }

  lemma RowKind(t: Table, d: Deck, raw: string, card: string)
    requires RowLine(raw) && d.group.None? && d.mode == Some(card)
    ensures KindOf(t, d, raw) == Some(if BlankLine(raw) then Blank else CardRow(card))
  {
    hide Strip;
  }

  // ---------- blocks ----------

  lemma ReadMore(t: Table, lines: seq<string>, d: Deck, raw: string, kind: Kind)
    requires Read(t, lines, |lines|) == Some(d) && KindOf(t, d, raw) == Some(kind)
    ensures Read(t, lines + [raw], |lines| + 1) == Some(Apply(d, kind, raw, |lines| + 1))
    ensures |lines + [raw]| == |lines| + 1
  {
    hide KindOf, Apply;
    ReadOneMore(t, lines, raw, d);
  }

  lemma {:induction false} BlanksRead(t: Table, lines: seq<string>, d: Deck, blanks: seq<string>)
    requires Read(t, lines, |lines|) == Some(d) && AllBlank(blanks)
    ensures Read(t, lines + blanks, |lines + blanks|) == Some(d)
  {
    hide Read, KindOf, Strip;
    if blanks == [] {
      assert lines + blanks == lines;
    } else {
      var front, last := blanks[..|blanks| - 1], blanks[|blanks| - 1];
      BlanksRead(t, lines, d, front);
      BlankKind(t, d, last);
      ReadMore(t, lines + front, d, last, Blank);
      assert lines + front + [last] == lines + blanks;
    }
  }

  /** In the group, with only keys that the lines assign. */
  ghost predicate InGroup(t: Table, g: string, body: seq<string>, d: Deck, atOpen: Deck) {
    && d.group == Some(g) && d.mode == atOpen.mode && d.order == atOpen.order && d.fields.Keys == atOpen.fields.Keys
    && d.cardOrder == atOpen.cardOrder && d.cards == atOpen.cards && g in d.fields
    && forall key :: key in d.fields[g] ==> AssignedIn(t, g, body, key)
  }

  ghost predicate AssignedIn(t: Table, g: string, body: seq<string>, key: string) {
    exists i, literal :: 0 <= i < |body| && FieldLineOf(t, g, body[i], key, literal)
  }

  lemma AssignedMore(t: Table, g: string, body: seq<string>, raw: string, key: string)
    requires AssignedIn(t, g, body, key)
    ensures AssignedIn(t, g, body + [raw], key)
  {
    hide FieldLineOf;
    var i, literal :| 0 <= i < |body| && FieldLineOf(t, g, body[i], key, literal);
    assert (body + [raw])[i] == body[i];
  }

  lemma BodyStep(t: Table, lines: seq<string>, g: string, body: seq<string>, raw: string, d: Deck, atOpen: Deck)
      returns (after: Deck)
    requires Read(t, lines, |lines|) == Some(d) && InGroup(t, g, body, d, atOpen) && BodyLine(t, g, raw)
    requires KeysDiffer(t, g, body + [raw])
    ensures Read(t, lines + [raw], |lines| + 1) == Some(after) && InGroup(t, g, body + [raw], after, atOpen)
  {
    hide Read, KindOf, Strip, FieldLineOf, AssignedIn;
    if BlankLine(raw) {
      BlankKind(t, d, raw);
      ReadMore(t, lines, d, raw, Blank);
      after := d;
      forall key | key in d.fields[g] ensures AssignedIn(t, g, body + [raw], key) {
        AssignedMore(t, g, body, raw, key);
      }
    } else {
      var key, literal :| FieldLineOf(t, g, raw, key, literal);
      KeyIsNew(t, g, body, raw, key, literal);
      FieldKind(t, d, raw, g, key, literal);
      ReadMore(t, lines, d, raw, Assign(g, key, literal));
      after := Apply(d, Assign(g, key, literal), raw, |lines| + 1);
      forall other | other in after.fields[g] ensures AssignedIn(t, g, body + [raw], other) {
        if other == key { NewlyAssigned(t, g, body, raw, key, literal); } else { AssignedMore(t, g, body, raw, other); }
      }
    }
  }

  lemma NewlyAssigned(t: Table, g: string, body: seq<string>, raw: string, key: string, literal: string)
    requires FieldLineOf(t, g, raw, key, literal)
    ensures AssignedIn(t, g, body + [raw], key)
  {
    hide FieldLineOf;
    assert (body + [raw])[|body|] == raw;
  }

  lemma KeyIsNew(t: Table, g: string, body: seq<string>, raw: string, key: string, literal: string)
    requires KeysDiffer(t, g, body + [raw]) && FieldLineOf(t, g, raw, key, literal)
    ensures !AssignedIn(t, g, body, key)
  {
    hide FieldLineOf;
    var all := body + [raw];
    assert all[|body|] == raw;
    forall i, other | 0 <= i < |body| ensures !FieldLineOf(t, g, body[i], key, other) { assert all[i] == body[i]; }
  }

  lemma {:induction false} BodyReads(t: Table, lines: seq<string>, g: string, body: seq<string>, atOpen: Deck)
      returns (d: Deck)
    requires Read(t, lines, |lines|) == Some(atOpen) && InGroup(t, g, [], atOpen, atOpen)
    requires (forall i :: 0 <= i < |body| ==> BodyLine(t, g, body[i])) && KeysDiffer(t, g, body)
    ensures Read(t, lines + body, |lines + body|) == Some(d) && InGroup(t, g, body, d, atOpen)
  {
    hide Read, InGroup, BodyLine, KeysDiffer;
    if body == [] {
      d := atOpen;
      assert lines + body == lines;
    } else {
      var front, last := body[..|body| - 1], body[|body| - 1];
      assert body == front + [last];
      FewerDiffer(t, g, front, last);
      var before := BodyReads(t, lines, g, front, atOpen);
      d := BodyStep(t, lines + front, g, front, last, before, atOpen);
      assert lines + front + [last] == lines + body;
    }
  }

  lemma FewerDiffer(t: Table, g: string, front: seq<string>, last: string)
    requires KeysDiffer(t, g, front + [last])
    ensures KeysDiffer(t, g, front)
  {
    hide FieldLineOf;
    assert forall i :: 0 <= i < |front| ==> (front + [last])[i] == front[i];
  }

  /** What a block of a group does. */
  lemma GroupReads(t: Table, lines: seq<string>, g: string, block: seq<string>, d: Deck) returns (after: Deck)
    requires Read(t, lines, |lines|) == Some(d) && GroupBlock(t, g, block)
    requires d.group.None? && d.mode.None? && g in t.keys && g !in d.fields
    ensures Read(t, lines + block, |lines + block|) == Some(after)
    ensures after.group.None? && after.mode.None? && after.order == d.order + [g]
    ensures after.fields.Keys == d.fields.Keys + {g} && after.cards == d.cards && after.cardOrder == d.cardOrder
  {
    hide Read, KindOf, Strip, BodyLine, KeysDiffer;
    var body := block[1..|block| - 1];
    OpenKind(t, d, block[0], g);
    ReadMore(t, lines, d, block[0], Open(g));
    var atOpen := Apply(d, Open(g), block[0], |lines| + 1);
    var inside := BodyReads(t, lines + [block[0]], g, body, atOpen);
    CloseKind(t, inside, block[|block| - 1], g);
    ReadMore(t, lines + [block[0]] + body, inside, block[|block| - 1], Close(g));
    after := Apply(inside, Close(g), block[|block| - 1], |lines + [block[0]] + body| + 1);
    assert block == [block[0]] + body + [block[|block| - 1]];
    assert lines + [block[0]] + body + [block[|block| - 1]] == lines + block;
  }

  lemma {:induction false} RowsRead(t: Table, lines: seq<string>, card: string, rows: seq<string>, d: Deck)
      returns (after: Deck)
    requires Read(t, lines, |lines|) == Some(d) && d.group.None? && d.mode == Some(card) && card in d.cards
    requires forall i :: 0 <= i < |rows| ==> RowLine(rows[i])
    ensures Read(t, lines + rows, |lines + rows|) == Some(after)
    ensures after.group.None? && after.mode == d.mode && after.order == d.order && after.fields == d.fields
    ensures after.cards.Keys == d.cards.Keys && after.cardOrder == d.cardOrder
  {
    hide Read, KindOf, Strip, RowLine, WithoutNewline;
    if rows == [] {
      after := d;
      assert lines + rows == lines;
    } else {
      var front, last := rows[..|rows| - 1], rows[|rows| - 1];
      var before := RowsRead(t, lines, card, front, d);
      RowKind(t, before, last, card);
      var kind := if BlankLine(last) then Blank else CardRow(card);
      ReadMore(t, lines + front, before, last, kind);
      after := Apply(before, kind, last, |lines + front| + 1);
      assert lines + front + [last] == lines + rows;
    }
  }

  lemma CardReads(t: Table, lines: seq<string>, card: string, block: seq<string>, d: Deck) returns (after: Deck)
    requires Read(t, lines, |lines|) == Some(d) && CardBlock(card, block) && card in CARDS
    requires d.group.None? && card !in d.cards
    ensures Read(t, lines + block, |lines + block|) == Some(after)
    ensures after.group.None? && after.order == d.order && after.fields == d.fields
    ensures after.cards.Keys == d.cards.Keys + {card} && after.cardOrder == d.cardOrder + [card]
  {
    hide Read, KindOf, Strip, RowLine;
    HeadKind(t, d, block[0], card);
    ReadMore(t, lines, d, block[0], Head(card));
    var headed := Apply(d, Head(card), block[0], |lines| + 1);
    after := RowsRead(t, lines + [block[0]], card, block[1..], headed);
    assert lines + [block[0]] + block[1..] == lines + block;
  }

  // ---------- decks ----------

  ghost function Least(a: nat, b: nat): nat { if a <= b then a else b }

  /** After `k` sections: the groups and cards so far, in order. */
  ghost predicate After(t: Table, k: nat, d: Deck) {
    && k <= |t.order| + 3 && d.group.None? && (k <= |t.order| ==> d.mode.None?)
    && d.order == t.order[..Least(k, |t.order|)]
    && (forall g :: g in d.fields <==> g in t.order[..Least(k, |t.order|)])
    && d.cardOrder == CARDS[..k - Least(k, |t.order|)]
    && (forall c :: c in d.cards <==> c in CARDS[..k - Least(k, |t.order|)])
  }

  ghost predicate GoodTable(t: Table) {
    Distinct(t.order) && forall g :: g in t.order ==> g in t.keys
  }

  lemma GroupAdds(t: Table, k: nat, d: Deck, after: Deck)
    requires After(t, k, d) && k < |t.order|
    requires after.group.None? && after.mode.None? && after.order == d.order + [t.order[k]]
    requires after.fields.Keys == d.fields.Keys + {t.order[k]} && after.cards == d.cards
    requires after.cardOrder == d.cardOrder
    ensures After(t, k + 1, after)
  {
    assert t.order[..k + 1] == t.order[..k] + [t.order[k]];
  }

  lemma CardAdds(t: Table, k: nat, d: Deck, after: Deck)
    requires After(t, k, d) && |t.order| <= k < |t.order| + 3
    requires after.group.None? && after.order == d.order && after.fields == d.fields
    requires after.cards.Keys == d.cards.Keys + {CARDS[k - |t.order|]}
    requires after.cardOrder == d.cardOrder + [CARDS[k - |t.order|]]
    ensures After(t, k + 1, after)
  {
    var c := k - |t.order|;
    assert CARDS[..c + 1] == CARDS[..c] + [CARDS[c]];
  }

  lemma CardsDiffer(c: nat)
    requires c < 3
    ensures CARDS[c] in CARDS && CARDS[c] !in CARDS[..c]
  {
    assert CARDS[0][0] == 'A' && CARDS[1][0] == 'A' && CARDS[2][0] == 'K';
    assert |CARDS[0]| != |CARDS[1]|;
  }

  lemma GroupIsNew(t: Table, k: nat, d: Deck)
    requires GoodTable(t) && After(t, k, d) && k < |t.order|
    ensures t.order[k] in t.keys && t.order[k] !in d.fields && d.mode.None? && d.group.None?
  {
  }

  lemma NothingAfter(t: Table, sections: seq<(seq<string>, seq<string>)>)
    ensures Laid(sections, 0) == [] && Read(t, [], 0) == Some(EMPTY) && After(t, 0, EMPTY)
  {
  }

  lemma SectionAt(t: Table, sections: seq<(seq<string>, seq<string>)>, k: nat)
    requires IsDeck(t, sections) && k < |sections|
    ensures AllBlank(sections[k].0) && k < |t.order| + 3
    ensures k < |t.order| ==> GroupBlock(t, t.order[k], sections[k].1)
    ensures k >= |t.order| ==> k - |t.order| < |CARDS| && CardBlock(CARDS[k - |t.order|], sections[k].1)
  {
    hide AllBlank, GroupBlock, CardBlock;
    assert Section(t, t.order, CARDS, k, sections[k].0, sections[k].1);
  }

  lemma CardIsNew(t: Table, k: nat, d: Deck)
    requires After(t, k, d) && |t.order| <= k < |t.order| + 3
    ensures d.group.None? && k - |t.order| < |CARDS| && CARDS[k - |t.order|] in CARDS &&
      CARDS[k - |t.order|] !in d.cards
  {
    CardsDiffer(k - |t.order|);
  }

  lemma {:induction false} SectionsRead(t: Table, sections: seq<(seq<string>, seq<string>)>, n: nat) returns (d: Deck)
    requires GoodTable(t) && IsDeck(t, sections) && n <= |sections|
    ensures Read(t, Laid(sections, n), |Laid(sections, n)|) == Some(d) && After(t, n, d)
  {
    hide *;
    if n == 0 {
      NothingAfter(t, sections);
      d := EMPTY;
    } else {
      var before := SectionsRead(t, sections, n - 1);
      var (blanks, block) := sections[n - 1];
      var lines := Laid(sections, n - 1);
      LaidMore(sections, n);
      SectionAt(t, sections, n - 1);
      BlanksRead(t, lines, before, blanks);
      if n - 1 < |t.order| {
        GroupIsNew(t, n - 1, before);
        d := GroupReads(t, lines + blanks, t.order[n - 1], block, before);
        GroupAdds(t, n - 1, before, d);
      } else {
        CardIsNew(t, n - 1, before);
        d := CardReads(t, lines + blanks, CARDS[n - 1 - |t.order|], block, before);
        CardAdds(t, n - 1, before, d);
      }
    }
  }

  lemma LaidMore(sections: seq<(seq<string>, seq<string>)>, n: nat)
    requires 0 < n <= |sections|
    ensures Laid(sections, n) == Laid(sections, n - 1) + sections[n - 1].0 + sections[n - 1].1
  {
  }

  lemma AllRead(t: Table, d: Deck)
    requires After(t, |t.order| + 3, d)
    ensures Finished(t, d)
  {
    assert t.order[..|t.order|] == t.order && CARDS[..3] == CARDS;
  }

  /** Every text of proper lines that is laid out as a deck is read as one. */
  lemma LaidOutReads(t: Table, sections: seq<(seq<string>, seq<string>)>, text: string)
    requires GoodTable(t) && IsDeck(t, sections) && SplitLines(text) == Laid(sections, |sections|)
    requires PlainLines(SplitLines(text))
    ensures ReadText(t, text).Some?
  {
    hide IsDeck, GoodTable, Laid, SplitLines, PlainLines, Read;
    var d := SectionsRead(t, sections, |sections|);
    DeckHasSections(t, sections);
    AllRead(t, d);
  }

  lemma DeckHasSections(t: Table, sections: seq<(seq<string>, seq<string>)>)
    requires IsDeck(t, sections)
    ensures |sections| == |t.order| + 3
  {
  }

  // ---------- every deck that reads is laid out so ----------

  /** The lines so far: whole sections, then blank lines, then the block that is being read. */
  ghost predicate Laying(t: Table, lines: seq<string>, d: Deck, sections: seq<(seq<string>, seq<string>)>,
                         blanks: seq<string>, block: seq<string>)
  {
    && lines == Laid(sections, |sections|) + blanks + block && AllBlank(blanks)
    && AreSections(t, d.order, d.cardOrder, sections)
    && (if d.group.Some? then
          && d.mode.None? && d.cardOrder == [] && d.order != [] && d.order[|d.order| - 1] == d.group.value
          && |sections| == |d.order| - 1 && BeingRead(t, d, d.group.value, block)
        else if d.mode.None? then block == [] && |sections| == |d.order| && d.cardOrder == []
        else
          && d.cardOrder != [] && d.cardOrder[|d.cardOrder| - 1] == d.mode.value
          && |sections| == |d.order| + |d.cardOrder| - 1 && CardBlock(d.mode.value, block))
  }

  /** A block without its last line; the group's fields are those it assigns. */
  ghost predicate BeingRead(t: Table, d: Deck, g: string, block: seq<string>) {
    && block != [] && Strip(block[0]) == "&" + g && g in d.fields
    && (forall i :: 0 < i < |block| ==> BodyLine(t, g, block[i])) && KeysDiffer(t, g, block[1..])
    && forall key :: AssignedIn(t, g, block[1..], key) ==> key in d.fields[g]
  }

  lemma SectionsMore(t: Table, order: seq<string>, cards: seq<string>, sections: seq<(seq<string>, seq<string>)>,
                     blanks: seq<string>, block: seq<string>)
    requires AreSections(t, order, cards, sections) && Section(t, order, cards, |sections|, blanks, block)
    ensures AreSections(t, order, cards, sections + [(blanks, block)])
    ensures var all := sections + [(blanks, block)];
      Laid(all, |all|) == Laid(sections, |sections|) + blanks + block
  {
    hide Section;
    LaidPrefix(sections, [(blanks, block)], |sections|);
  }

  lemma {:induction false} LaidPrefix(sections: seq<(seq<string>, seq<string>)>,
                                      more: seq<(seq<string>, seq<string>)>, n: nat)
    requires n <= |sections|
    ensures Laid(sections + more, n) == Laid(sections, n)
  {
    if n > 0 { LaidPrefix(sections, more, n - 1); }
  }

  /** Sections stay what they are as groups and cards follow. */
  lemma SectionsStay(t: Table, order: seq<string>, cards: seq<string>, order': seq<string>, cards': seq<string>,
                     sections: seq<(seq<string>, seq<string>)>)
    requires AreSections(t, order, cards, sections)
    requires (order <= order' && cards == [] && cards' == []) || (order' == order && cards <= cards')
    ensures AreSections(t, order', cards', sections)
  {
    hide GroupBlock, CardBlock, AllBlank;
    forall k | 0 <= k < |sections| ensures Section(t, order', cards', k, sections[k].0, sections[k].1) {
      assert Section(t, order, cards, k, sections[k].0, sections[k].1);
    }
  }

  lemma FieldAdded(t: Table, g: string, body: seq<string>, raw: string, key: string, literal: string)
    requires KeysDiffer(t, g, body) && !AssignedIn(t, g, body, key) && FieldLineOf(t, g, raw, key, literal)
    ensures KeysDiffer(t, g, body + [raw])
    ensures forall other :: AssignedIn(t, g, body + [raw], other) ==> AssignedIn(t, g, body, other) || other == key
  {
    OneAssignment(t, g, raw, key, literal);
    hide FieldLineOf;
    var all := body + [raw];
    forall other | AssignedIn(t, g, all, other) ensures AssignedIn(t, g, body, other) || other == key {
      var i, a :| 0 <= i < |all| && FieldLineOf(t, g, all[i], other, a);
      if i < |body| { assert body[i] == all[i]; }
    }
    forall i, j, other, a, b | 0 <= i < j < |all|
      ensures !(FieldLineOf(t, g, all[i], other, a) && FieldLineOf(t, g, all[j], other, b))
    {
      assert all[i] == body[i];
      if j < |body| {
        assert all[j] == body[j];
      } else if FieldLineOf(t, g, all[i], other, a) {
        assert AssignedIn(t, g, body, other);
      }
    }
  }

  lemma OneAssignment(t: Table, g: string, raw: string, key: string, literal: string)
    requires FieldLineOf(t, g, raw, key, literal)
    ensures forall other, a :: FieldLineOf(t, g, raw, other, a) ==> other == key
  {
    forall other, a | FieldLineOf(t, g, raw, other, a) ensures other == key {
      ParsesExactlyWhen(Strip(raw), key, literal);
      ParsesExactlyWhen(Strip(raw), other, a);
    }
  }

  lemma BlankAdded(t: Table, g: string, body: seq<string>, raw: string)
    requires KeysDiffer(t, g, body) && BlankLine(raw)
    ensures KeysDiffer(t, g, body + [raw])
    ensures forall key :: AssignedIn(t, g, body + [raw], key) ==> AssignedIn(t, g, body, key)
  {
    BlankAssignsNothing(t, g, raw);
    hide FieldLineOf, BlankLine;
    var all := body + [raw];
    forall key | AssignedIn(t, g, all, key) ensures AssignedIn(t, g, body, key) {
      var i, a :| 0 <= i < |all| && FieldLineOf(t, g, all[i], key, a);
      assert i < |body| ==> body[i] == all[i];
    }
    forall i, j, key, a, b | 0 <= i < j < |all|
      ensures !(FieldLineOf(t, g, all[i], key, a) && FieldLineOf(t, g, all[j], key, b))
    {
      assert all[i] == body[i] && (j < |body| ==> all[j] == body[j]);
    }
  }

  lemma BlankAssignsNothing(t: Table, g: string, raw: string)
    requires BlankLine(raw)
    ensures forall key, literal :: !FieldLineOf(t, g, raw, key, literal)
  {
    forall key, literal ensures !FieldLineOf(t, g, raw, key, literal) { EmptyAssignsNothing(key, literal); }
  }

  /** One line more in the open group. */
  lemma BodyMore(t: Table, d: Deck, after: Deck, g: string, block: seq<string>, raw: string)
    requires BeingRead(t, d, g, block) && BodyLine(t, g, raw) && KeysDiffer(t, g, block[1..] + [raw]) &&
      g in after.fields
    requires forall key :: AssignedIn(t, g, block[1..] + [raw], key) ==> key in after.fields[g]
    ensures BeingRead(t, after, g, block + [raw])
  {
    hide BodyLine, KeysDiffer, AssignedIn;
    assert (block + [raw])[1..] == block[1..] + [raw];
  }

  lemma LayBlank(t: Table, lines: seq<string>, d: Deck, raw: string, sections: seq<(seq<string>, seq<string>)>,
                 blanks: seq<string>, block: seq<string>)
    returns (blanks': seq<string>, block': seq<string>)
    requires Laying(t, lines, d, sections, blanks, block) && BlankLine(raw)
    ensures Laying(t, lines + [raw], d, sections, blanks', block')
  {
    hide Strip, KeysDiffer, AssignedIn, FieldLineOf, AreSections, Laid;
    if d.group.None? && d.mode.None? {
      blanks', block' := blanks + [raw], [];
      assert lines + [raw] == Laid(sections, |sections|) + (blanks + [raw]) + [];
    } else {
      blanks', block' := blanks, block + [raw];
      assert lines + [raw] == Laid(sections, |sections|) + blanks + (block + [raw]);
      if d.group.Some? {
        BlankAdded(t, d.group.value, block[1..], raw);
        BodyMore(t, d, d, d.group.value, block, raw);
      }
    }
  }

  lemma LayField(t: Table, lines: seq<string>, d: Deck, raw: string, key: string, literal: string,
                 sections: seq<(seq<string>, seq<string>)>, blanks: seq<string>, block: seq<string>, n: nat)
    requires Laying(t, lines, d, sections, blanks, block) && d.group.Some?
    requires FieldLineOf(t, d.group.value, raw, key, literal) && d.group.value in d.fields
    requires key !in d.fields[d.group.value]
    ensures Laying(t, lines + [raw], Apply(d, Assign(d.group.value, key, literal), raw, n), sections, blanks,
                   block + [raw])
  {
    hide Strip, KeysDiffer, AssignedIn, FieldLineOf, AreSections, Laid;
    var g := d.group.value;
    var after := Apply(d, Assign(g, key, literal), raw, n);
    FieldAdded(t, g, block[1..], raw, key, literal);
    BodyMore(t, d, after, g, block, raw);
    assert lines + [raw] == Laid(sections, |sections|) + blanks + (block + [raw]);
  }

  lemma LayOpen(t: Table, lines: seq<string>, d: Deck, raw: string, g: string,
                sections: seq<(seq<string>, seq<string>)>, blanks: seq<string>, block: seq<string>, n: nat)
    requires Laying(t, lines, d, sections, blanks, block) && d.group.None? && d.mode.None? && Strip(raw) == "&" + g
    ensures Laying(t, lines + [raw], Apply(d, Open(g), raw, n), sections, blanks, [raw])
  {
    hide Strip, AreSections, Laid, FieldLineOf;
    SectionsStay(t, d.order, [], d.order + [g], [], sections);
    assert [raw][1..] == [];
    assert lines + [raw] == Laid(sections, |sections|) + blanks + [raw];
  }

  lemma LayClose(t: Table, lines: seq<string>, d: Deck, raw: string, sections: seq<(seq<string>, seq<string>)>,
                 blanks: seq<string>, block: seq<string>, n: nat)
    requires Laying(t, lines, d, sections, blanks, block) && d.group.Some? && Strip(raw) == "/"
    ensures Laying(t, lines + [raw], Apply(d, Close(d.group.value), raw, n), sections + [(blanks, block + [raw])], [],
                   [])
  {
    hide Strip, AreSections, Laid, FieldLineOf, KeysDiffer, BodyLine, AssignedIn;
    var whole := block + [raw];
    assert whole[1..|whole| - 1] == block[1..];
    assert Section(t, d.order, d.cardOrder, |sections|, blanks, whole);
    SectionsMore(t, d.order, d.cardOrder, sections, blanks, whole);
    var all := sections + [(blanks, whole)];
    assert lines + [raw] == Laid(all, |all|) + [] + [];
  }

  lemma LayHead(t: Table, lines: seq<string>, d: Deck, raw: string, card: string,
                sections: seq<(seq<string>, seq<string>)>, blanks: seq<string>, block: seq<string>, n: nat)
    returns (sections': seq<(seq<string>, seq<string>)>, blanks': seq<string>)
    requires Laying(t, lines, d, sections, blanks, block) && d.group.None? && Strip(raw) == card
    ensures Laying(t, lines + [raw], Apply(d, Head(card), raw, n), sections', blanks', [raw])
  {
    hide Strip, AreSections, Laid, FieldLineOf, RowLine;
    assert CardBlock(card, [raw]);
    if d.mode.None? {
      sections', blanks' := sections, blanks;
      SectionsStay(t, d.order, [], d.order, [card], sections);
      assert d.cardOrder + [card] == [card];
      assert lines + [raw] == Laid(sections, |sections|) + blanks + [raw];
    } else {
      sections', blanks' := sections + [(blanks, block)], [];
      assert Section(t, d.order, d.cardOrder, |sections|, blanks, block);
      SectionsMore(t, d.order, d.cardOrder, sections, blanks, block);
      SectionsStay(t, d.order, d.cardOrder, d.order, d.cardOrder + [card], sections');
      assert lines + [raw] == Laid(sections', |sections'|) + [] + [raw];
    }
  }

  lemma LayRow(t: Table, lines: seq<string>, d: Deck, raw: string, card: string,
               sections: seq<(seq<string>, seq<string>)>, blanks: seq<string>, block: seq<string>, n: nat)
    requires Laying(t, lines, d, sections, blanks, block) && d.group.None? && d.mode == Some(card) && RowLine(raw)
    ensures Laying(t, lines + [raw], Apply(d, CardRow(card), raw, n), sections, blanks, block + [raw])
  {
    hide Strip, AreSections, Laid, FieldLineOf, RowLine, WithoutNewline;
    assert lines + [raw] == Laid(sections, |sections|) + blanks + (block + [raw]);
  }

  lemma {:induction false} ReadIsLaying(t: Table, lines: seq<string>, n: nat)
      returns (d: Deck, sections: seq<(seq<string>, seq<string>)>, blanks: seq<string>, block: seq<string>)
    requires n <= |lines| && Read(t, lines, n).Some?
    ensures Read(t, lines, n) == Some(d) && Laying(t, lines[..n], d, sections, blanks, block)
  {
    hide KindOf, Apply, Laying;
    if n == 0 {
      d, sections, blanks, block := EMPTY, [], [], [];
      NothingLaid(t);
      assert lines[..0] == [];
    } else {
      var before, kind := LastLine(t, lines, n);
      HeadIsNew(t, lines, n, before, kind);
      d, sections, blanks, block := ReadIsLaying(t, lines, n - 1);
      var raw := lines[n - 1];
      KindMeans(t, before, raw, kind);
      assert lines[..n] == lines[..n - 1] + [raw];
      d := Apply(before, kind, raw, n);
      hide *;
      blanks, block, sections := LayLine(t, lines[..n - 1], before, raw, kind, sections, blanks, block, n);
    }
  }

  lemma NothingLaid(t: Table)
    ensures Laying(t, [], EMPTY, [], [], [])
  {
  }

  lemma LayLine(t: Table, lines: seq<string>, d: Deck, raw: string, kind: Kind,
                sections: seq<(seq<string>, seq<string>)>, blanks: seq<string>, block: seq<string>, n: nat)
      returns (blanks': seq<string>, block': seq<string>, sections': seq<(seq<string>, seq<string>)>)
    requires Laying(t, lines, d, sections, blanks, block) && KindOf(t, d, raw) == Some(kind) && Admits(d, kind)
    ensures Laying(t, lines + [raw], Apply(d, kind, raw, n), sections', blanks', block')
  {
    hide Laying, KindOf, Strip, Sets, Table.AcceptsLiteral, WithoutNewline;
    KindMeans(t, d, raw, kind);
    blanks', block', sections' := blanks, block + [raw], sections;
    match kind
    case Blank => blanks', block' := LayBlank(t, lines, d, raw, sections, blanks, block);
    case Assign(g, key, literal) => LayField(t, lines, d, raw, key, literal, sections, blanks, block, n);
    case Open(g) =>
      block' := [raw];
      LayOpen(t, lines, d, raw, g, sections, blanks, block, n);
    case Close(g) =>
      LayClose(t, lines, d, raw, sections, blanks, block, n);
      blanks', block', sections' := [], [], sections + [(blanks, block + [raw])];
    case Head(card) =>
      sections', blanks' := LayHead(t, lines, d, raw, card, sections, blanks, block, n);
      block' := [raw];
    case CardRow(card) => LayRow(t, lines, d, raw, card, sections, blanks, block, n);
  }

  lemma LastSection(t: Table, lines: seq<string>, d: Deck, sections: seq<(seq<string>, seq<string>)>,
                    blanks: seq<string>, block: seq<string>)
    requires Laying(t, lines, d, sections, blanks, block) && Finished(t, d)
    ensures var all := sections + [(blanks, block)]; IsDeck(t, all) && Laid(all, |all|) == lines
  {
    hide Strip, AreSections, Laid, CardBlock, GroupBlock;
    assert Section(t, d.order, d.cardOrder, |sections|, blanks, block);
    SectionsMore(t, d.order, d.cardOrder, sections, blanks, block);
  }

  /** A text reads as a deck if and only if its lines are proper and laid out as one. */
  lemma ReadsExactlyWhen(t: Table, text: string)
    requires GoodTable(t)
    ensures ReadText(t, text).Some? <==>
      PlainLines(SplitLines(text)) && exists sections ::
        IsDeck(t, sections) && Laid(sections, |sections|) == SplitLines(text)
  {
    hide IsDeck, GoodTable, Laid, SplitLines, PlainLines, Read, Laying, Finished;
    var lines := SplitLines(text);
    if ReadText(t, text).Some? {
      var d, sections, blanks, block := ReadIsLaying(t, lines, |lines|);
      assert lines[..|lines|] == lines;
      LastSection(t, lines, d, sections, blanks, block);
    }
    if PlainLines(lines) {
      if sections :| IsDeck(t, sections) && Laid(sections, |sections|) == lines { LaidOutReads(t, sections, text); }
    }
  }
}
