/** What the lines of a deck that reads are: nothing is skipped, and everything recorded stands on its line. */
module DeckReading {
  import opened Wrappers
  import opened Sequences
  import opened DeckText
  import opened DeckAssign
  import opened DeckGrammar

  /** A line that assigns the literal to the key, which it may write in any letter case. */
  ghost predicate Sets(text: string, key: string, literal: string) {
    exists raw :: Assigns(text, raw, literal) && Lower(raw) == key
  }

  /** The line between the limits of a group. */
  predicate Within(d: Deck, g: string, line: nat) {
    g in d.starts && g in d.ends && d.starts[g] < line < d.ends[g]
  }

  ghost predicate SetsField(t: Table, d: Deck, line: nat, text: string, g: string, key: string) {
    && g in d.fields && key in d.fields[g] && d.fields[g][key].line == line && Within(d, g, line)
    && g in t.keys && key in t.keys[g] && Sets(text, key, d.fields[g][key].literal)
    && t.AcceptsLiteral(d.fields[g][key].literal)
  }

  predicate IsRow(d: Deck, card: string, i: nat, line: nat, text: string) {
    card in d.cards && i < |d.cards[card]| && d.cards[card][i] == Row(line, text)
  }

  /** What a line of the deck is: blank; the start or the end of a group, a field that is recorded with its literal, in
      its group; or outside all groups the name of a card or a recorded row of one. */
  ghost predicate LineIs(t: Table, d: Deck, raw: string, line: nat) {
    var text := Strip(raw);
    || text == ""
    || (exists g :: g in d.starts && d.starts[g] == line && g in t.keys && text == "&" + g)
    || (exists g :: g in d.ends && d.ends[g] == line && text == "/")
    || (exists g, key :: SetsField(t, d, line, text, g, key))
    || (text in d.cards && text in CARDS && forall g :: !Within(d, g, line))
    || (exists card, i: nat :: IsRow(d, card, i, line, WithoutNewline(raw)) && forall g :: !Within(d, g, line))
  }

  /** What a line's kind says of its text. */
  lemma KindMeans(t: Table, d: Deck, raw: string, kind: Kind)
    requires KindOf(t, d, raw) == Some(kind)
    ensures var text := Strip(raw);
      match kind
      case Blank => text == ""
      case Close(g) => text == "/" && d.group == Some(g)
      case Assign(g, key, literal) =>
        d.group == Some(g) && g in t.keys && key in t.keys[g] && Sets(text, key, literal) && t.AcceptsLiteral(literal)
      case Open(g) => text == "&" + g && g in t.keys && d.group.None? && d.mode.None?
      case Head(card) => text == card && card in CARDS && card !in d.cards && d.group.None?
      case CardRow(card) =>
        d.mode == Some(card) && d.group.None? && text != "" && text[0] != '&' && text !in CARDS
  {
    hide Assigns, ParseAssign, Strip, Table.AcceptsLiteral;
    var text := Strip(raw);
    if kind.Assign? { ParsesExactlyWhen(text, kind.key, kind.literal); }
    if kind.Open? { assert text == text[..1] + text[1..]; }
  }

  /** Rows and cards stay as further lines are read. */
  lemma RowsStay(d: Deck, kind: Kind, raw: string, n: nat)
    requires kind.Head? ==> kind.card !in d.cards
    ensures var after := Apply(d, kind, raw, n);
      && d.cards.Keys <= after.cards.Keys
      && forall card :: card in d.cards ==> d.cards[card] <= after.cards[card]
  {
    hide WithoutNewline;
  }

  /** The row or the card of a line, if it is one, is recorded. */
  ghost predicate CardRecorded(d: Deck, kind: Kind, raw: string, line: nat) {
    && (kind.Head? ==> kind.card in d.cards)
    && (kind.CardRow? ==> exists i: nat :: IsRow(d, kind.card, i, line, WithoutNewline(raw)))
  }

  lemma RecordedStays(d: Deck, kind: Kind, raw: string, n: nat, earlier: Kind, other: string, line: nat)
    requires kind.Head? ==> kind.card !in d.cards
    requires CardRecorded(d, earlier, other, line)
    ensures CardRecorded(Apply(d, kind, raw, n), earlier, other, line)
  {
    hide Apply, WithoutNewline;
    RowsStay(d, kind, raw, n);
    if earlier.CardRow? {
      var i: nat :| IsRow(d, earlier.card, i, line, WithoutNewline(other));
      assert IsRow(Apply(d, kind, raw, n), earlier.card, i, line, WithoutNewline(other));
    }
  }

  lemma NewlyCarded(d: Deck, kind: Kind, raw: string, n: nat)
    ensures CardRecorded(Apply(d, kind, raw, n), kind, raw, n)
  {
    hide WithoutNewline;
    if kind.CardRow? {
      var rows := if kind.card in d.cards then d.cards[kind.card] else [];
      assert IsRow(Apply(d, kind, raw, n), kind.card, |rows|, n, WithoutNewline(raw));
    }
  }

  lemma {:induction false} CardsRecorded(t: Table, lines: seq<string>, n: nat, line: nat)
    requires 1 <= line <= n <= |lines| && Read(t, lines, n).Some? && KindAt(t, lines, line).Some?
    ensures CardRecorded(Read(t, lines, n).value, KindAt(t, lines, line).value, lines[line - 1], line)
  {
    hide CardRecorded, KindOf, KindAt, Apply;
    var before, kind := LastLine(t, lines, n);
    HeadIsNew(t, lines, n, before, kind);
    if line < n {
      CardsRecorded(t, lines, n - 1, line);
      RecordedStays(before, kind, lines[n - 1], n, KindAt(t, lines, line).value, lines[line - 1], line);
    } else {
      NewlyCarded(before, kind, lines[n - 1], n);
    }
  }

  lemma HeadIsNew(t: Table, lines: seq<string>, n: nat, before: Deck, kind: Kind)
    requires 0 < n <= |lines| && Read(t, lines, n - 1) == Some(before) && KindAt(t, lines, n) == Some(kind)
    ensures kind.Head? ==> kind.card !in before.cards
    ensures KindOf(t, before, lines[n - 1]) == Some(kind)
  {
    KindMeans(t, before, lines[n - 1], kind);
    hide KindOf;
  }

  lemma BeforeLine(t: Table, lines: seq<string>, n: nat, line: nat) returns (before: Deck, kind: Kind)
    requires 1 <= line <= n <= |lines| && Read(t, lines, n).Some?
    ensures KindAt(t, lines, line) == Some(kind) && GroupBefore(t, lines, line) == before.group
    ensures Read(t, lines, line - 1) == Some(before) && KindOf(t, before, lines[line - 1]) == Some(kind)
  {
    hide KindOf, Apply;
    if Read(t, lines, line).None? { ReadFails(t, lines, line, n); }
    before, kind := LastLine(t, lines, line);
    HeadIsNew(t, lines, line, before, kind);
  }

  lemma OutsideGroups(d: Deck, line: nat)
    requires InsideLimits(d, line, None)
    ensures forall g :: !Within(d, g, line)
  {
  }

  lemma EndOfGroup(t: Table, lines: seq<string>, d: Deck, g: string)
    requires LimitsRead(t, lines, |lines|, d) && g in d.ends
    ensures d.ends[g] <= |lines| && KindAt(t, lines, d.ends[g]) == Some(Close(g))
  {
    hide KindAt;
  }

  lemma InsideGroup(t: Table, lines: seq<string>, d: Deck, line: nat, g: string, kind: Kind)
    requires 1 <= line <= |lines| && InsideLimits(d, line, Some(g)) && d.ends.Keys == d.starts.Keys
    requires LimitsRead(t, lines, |lines|, d) && KindAt(t, lines, line) == Some(kind) && !kind.Close?
    ensures Within(d, g, line)
  {
    hide KindAt;
    EndOfGroup(t, lines, d, g);
  }

  /** Every line of a deck that reads is what it should be: none is skipped and none is misplaced. */
  lemma EveryLineIs(t: Table, lines: seq<string>, d: Deck, line: nat)
    requires Read(t, lines, |lines|) == Some(d) && Finished(t, d) && 1 <= line <= |lines|
    ensures LineIs(t, d, lines[line - 1], line)
  {
    hide *;
    var before, kind := BeforeLine(t, lines, |lines|, line);
    TraceDeck(t, lines, |lines|);
    TracedLine(t, lines, d, line, kind);
    KindMeans(t, before, lines[line - 1], kind);
    CardsRecorded(t, lines, |lines|, line);
    match kind
    case Assign(g, key, literal) =>
      InsideGroup(t, lines, d, line, g, kind);
      FieldLineIs(t, d, lines[line - 1], line, g, key, literal);
    case Head(card) =>
      OutsideGroups(d, line);
      CardLineIs(t, d, lines[line - 1], line, kind);
    case CardRow(card) =>
      OutsideGroups(d, line);
      CardLineIs(t, d, lines[line - 1], line, kind);
    case _ => OtherLineIs(t, d, lines[line - 1], line, kind);
  }

  lemma TracedLine(t: Table, lines: seq<string>, d: Deck, line: nat, kind: Kind)
    requires Traced(t, lines, |lines|, d) && Finished(t, d) && 1 <= line <= |lines|
    requires KindAt(t, lines, line) == Some(kind)
    ensures Records(d, kind, line) && InsideLimits(d, line, GroupBefore(t, lines, line))
    ensures LimitsRead(t, lines, |lines|, d) && d.ends.Keys == d.starts.Keys
  {
    hide KindAt, GroupBefore, FieldsRead, Records, InsideLimits;
  }

  lemma FieldLineIs(t: Table, d: Deck, raw: string, line: nat, g: string, key: string, literal: string)
    requires Records(d, Assign(g, key, literal), line) && Within(d, g, line) && g in t.keys && key in t.keys[g]
    requires Sets(Strip(raw), key, literal) && t.AcceptsLiteral(literal)
    ensures LineIs(t, d, raw, line)
  {
    hide Strip, Sets, Within, Table.AcceptsLiteral, WithoutNewline;
    assert SetsField(t, d, line, Strip(raw), g, key);
  }

  lemma CardLineIs(t: Table, d: Deck, raw: string, line: nat, kind: Kind)
    requires CardRecorded(d, kind, raw, line) && (kind.Head? || kind.CardRow?) && forall g :: !Within(d, g, line)
    requires kind.Head? ==> Strip(raw) == kind.card && kind.card in CARDS
    ensures LineIs(t, d, raw, line)
  {
    hide Strip, Within, WithoutNewline, IsRow, SetsField;
    if kind.CardRow? {
      var i: nat :| IsRow(d, kind.card, i, line, WithoutNewline(raw));
    }
  }

  lemma OtherLineIs(t: Table, d: Deck, raw: string, line: nat, kind: Kind)
    requires Records(d, kind, line) && (kind.Blank? || kind.Close? || kind.Open?)
    requires match kind
      case Blank => Strip(raw) == ""
      case Close(g) => Strip(raw) == "/"
      case Open(g) => Strip(raw) == "&" + g && g in t.keys
      case _ => true
    ensures LineIs(t, d, raw, line)
  {
    hide Strip, Within, WithoutNewline, IsRow, SetsField;
  }

  /** A row's text is its line without the line feed. */
  lemma RowTextIs(raw: string)
    requires IsLine(raw)
    ensures WithoutNewline(raw) + "\n" == raw
  {
    var front := raw[..|raw| - 1];
    assert raw == front + "\n";
    if front != "" {
      assert front[|front| - 1] == raw[|raw| - 2];
      assert !IsBreak(raw[|raw| - 2]);
    }
    assert WithoutNewline(front) == front;
  }
}
