/** The line grammar of historical input decks: namelist groups, then cards. */
module DeckGrammar {
  import opened Wrappers
  import opened DeckText

  /** Which groups a deck has, in order, and which fields each may hold. `bounded` is the magnitude
      check on numeric literals. */
  datatype Table = Table(order: seq<string>, keys: map<string, set<string>>, bounded: string -> bool) {
    predicate AcceptsLiteral(literal: string) {
      (literal != "" && literal[0] == '\'') || Lower(literal) in {".true.", ".false."} || bounded(literal)
    }
  }

  const CARDS: seq<string> := ["ATOMIC_SPECIES", "ATOMIC_POSITIONS crystal", "K_POINTS automatic"]

  datatype Entry = Entry(literal: string, line: nat)

  datatype Row = Row(line: nat, text: string)

  /** The reader's state: the open group, the current card, and everything read so far. */
  datatype Deck = Deck(group: Option<string>, mode: Option<string>, order: seq<string>,
                       fields: map<string, map<string, Entry>>, starts: map<string, nat>, ends: map<string, nat>,
                       cardOrder: seq<string>, cards: map<string, seq<Row>>)

  const EMPTY: Deck := Deck(None, None, [], map[], map[], map[], [], map[])

  /** What a line is, given what precedes it. */
  datatype Kind =
    | Blank
    | Close(group: string)
    | Assign(group: string, key: string, literal: string)
    | Open(group: string)
    | Head(card: string)
    | CardRow(card: string)

  /** `None` where the reader raises. */
  function KindOf(t: Table, d: Deck, raw: string): Option<Kind> {
    var text := Strip(raw);
    if text == "" then Some(Blank)
    else if d.group.Some? then
      var g := d.group.value;
      if text == "/" then Some(Close(g))
      else
        match ParseAssign(text)
        case None => None
        case Some((key, literal)) =>
          if g in t.keys && key in t.keys[g] && g in d.fields && key !in d.fields[g] && t.AcceptsLiteral(literal)
          then Some(Assign(g, key, literal)) else None
    else if text[0] == '&' then
      var g := text[1..];
      if d.mode.None? && g in t.keys && g !in d.fields then Some(Open(g)) else None
    else if text in CARDS then
      if text !in d.cards then Some(Head(text)) else None
    else if d.mode.Some? then Some(CardRow(d.mode.value))
    else None
  }

  function WithoutNewline(raw: string): string {
    if raw != "" && raw[|raw| - 1] == '\n' then WithoutNewline(raw[..|raw| - 1]) else raw
  }

  function Apply(d: Deck, kind: Kind, raw: string, line: nat): Deck {
    match kind
    case Blank => d
    case Close(g) => d.(group := None, ends := d.ends[g := line])
    case Assign(g, key, literal) =>
      var fields := if g in d.fields then d.fields[g] else map[];
      d.(fields := d.fields[g := fields[key := Entry(literal, line)]])
    case Open(g) => d.(group := Some(g), order := d.order + [g], fields := d.fields[g := map[]],
      starts := d.starts[g := line])
    case Head(card) => d.(mode := Some(card), cardOrder := d.cardOrder + [card], cards := d.cards[card := []])
    case CardRow(card) =>
      var rows := if card in d.cards then d.cards[card] else [];
      d.(cards := d.cards[card := rows + [Row(line, WithoutNewline(raw))]])
  }

  function Step(t: Table, d: Deck, raw: string, line: nat): Option<Deck> {
    match KindOf(t, d, raw)
    case None => None
    case Some(kind) => Some(Apply(d, kind, raw, line))
  }

  /** The state after the first `n` lines. */
  function Read(t: Table, lines: seq<string>, n: nat): Option<Deck>
    requires n <= |lines|
  {
    if n == 0 then Some(EMPTY)
    else
      match Read(t, lines, n - 1)
      case None => None
      case Some(d) => Step(t, d, lines[n - 1], n)
  }

  /** The closing checks: every group and every card, in order, and no group left open. */
  predicate Finished(t: Table, d: Deck) {
    d.group.None? && d.order == t.order && d.cardOrder == CARDS
  }

  /** The reading loop. */
  method ReadDeck(t: Table, lines: seq<string>) returns (r: Option<Deck>)
    ensures r == match Read(t, lines, |lines|)
                 case None => None
                 case Some(d) => if Finished(t, d) then Some(d) else None
  {
    hide Strip, ParseAssign, Apply;
    var d := EMPTY;
    for i := 0 to |lines|
      invariant Read(t, lines, i) == Some(d)
    {
      var kind := KindOf(t, d, lines[i]);
      if kind.None? {
        ReadFails(t, lines, i + 1, |lines|);
        return None;
      }
      d := Apply(d, kind.value, lines[i], i + 1);
    }
    if !Finished(t, d) { return None; }
    r := Some(d);
  }

  lemma {:induction false} ReadFails(t: Table, lines: seq<string>, m: nat, n: nat)
    requires m <= n <= |lines| && Read(t, lines, m).None?
    ensures Read(t, lines, n).None?
  {
    hide KindOf, Apply;
    if m < n { ReadFails(t, lines, m, n - 1); }
  }

  lemma {:induction false} ReadPrefix(t: Table, lines: seq<string>, more: seq<string>, n: nat)
    requires n <= |lines|
    ensures Read(t, lines + more, n) == Read(t, lines, n)
  {
    hide KindOf, Apply;
    if n > 0 { ReadPrefix(t, lines, more, n - 1); }
  }

  /** Only groups of the grammar are read. */
  lemma {:induction false} GroupsAreKnown(t: Table, lines: seq<string>, n: nat)
    requires n <= |lines| && Read(t, lines, n).Some?
    ensures Read(t, lines, n).value.fields.Keys <= t.keys.Keys
  {
    hide Strip, ParseAssign, Table.AcceptsLiteral;
    if n > 0 { GroupsAreKnown(t, lines, n - 1); }
  }

  /** Reading one line more. */
  lemma ReadOneMore(t: Table, lines: seq<string>, line: string, d: Deck)
    requires Read(t, lines, |lines|) == Some(d)
    ensures Read(t, lines + [line], |lines| + 1) == Step(t, d, line, |lines| + 1)
  {
    ReadPrefix(t, lines, [line], |lines|);
  }

  // ---------- where things were read ----------

  ghost function KindAt(t: Table, lines: seq<string>, line: nat): Option<Kind>
    requires line <= |lines|
  {
    if line == 0 || Read(t, lines, line - 1).None? then None
    else KindOf(t, Read(t, lines, line - 1).value, lines[line - 1])
  }

  ghost function GroupBefore(t: Table, lines: seq<string>, line: nat): Option<string>
    requires line <= |lines|
  {
    if line == 0 || Read(t, lines, line - 1).None? then None else Read(t, lines, line - 1).value.group
  }

  /** Every recorded field was read as an assignment on its line. */
  ghost predicate FieldsRead(t: Table, lines: seq<string>, n: nat, d: Deck)
    requires n <= |lines|
  {
    forall g, k :: g in d.fields && k in d.fields[g] ==>
      1 <= d.fields[g][k].line <= n &&
        KindAt(t, lines, d.fields[g][k].line) == Some(Assign(g, k, d.fields[g][k].literal))
  }

  ghost predicate Records(d: Deck, kind: Kind, line: nat) {
    match kind
    case Assign(g, key, literal) => g in d.fields && key in d.fields[g] && d.fields[g][key] == Entry(literal, line)
    case Open(g) => g in d.starts && d.starts[g] == line
    case Close(g) => g in d.ends && d.ends[g] == line
    case _ => true
  }

  /** Every assignment, opening and closing line is recorded with its number. */
  ghost predicate KindsRecorded(t: Table, lines: seq<string>, n: nat, d: Deck)
    requires n <= |lines|
  {
    forall line :: 1 <= line <= n && KindAt(t, lines, line).Some? ==> Records(d, KindAt(t, lines, line).value, line)
  }

  /** The recorded block limits were read as opening and closing lines. */
  ghost predicate LimitsRead(t: Table, lines: seq<string>, n: nat, d: Deck)
    requires n <= |lines|
  {
    && d.starts.Keys == d.fields.Keys && d.ends.Keys <= d.starts.Keys
    && (forall g :: g in d.starts ==> 1 <= d.starts[g] <= n && KindAt(t, lines, d.starts[g]) == Some(Open(g)))
    && (forall g :: g in d.ends ==> d.starts[g] < d.ends[g] <= n && KindAt(t, lines, d.ends[g]) == Some(Close(g)))
    && (forall g :: g in d.starts ==> (d.group == Some(g) <==> g !in d.ends))
    && (d.group.Some? ==> d.group.value in d.starts)
  }

  /** A group is the open one exactly between its limits. */
  ghost predicate InsideLimits(d: Deck, line: nat, group: Option<string>) {
    && (forall g :: g in d.starts ==> (group == Some(g) <==> d.starts[g] < line && (g in d.ends ==> line <= d.ends[g])))
    && (group.Some? ==> group.value in d.starts)
  }

  ghost predicate GroupsTraced(t: Table, lines: seq<string>, n: nat, d: Deck)
    requires n <= |lines|
  {
    forall line :: 1 <= line <= n ==> InsideLimits(d, line, GroupBefore(t, lines, line))
  }

  ghost predicate Traced(t: Table, lines: seq<string>, n: nat, d: Deck)
    requires n <= |lines|
  {
    FieldsRead(t, lines, n, d) && KindsRecorded(t, lines, n, d) && LimitsRead(t, lines, n, d) &&
      GroupsTraced(t, lines, n, d)
  }

  /** What a line's kind says about the state it was read in. */
  ghost predicate Admits(d: Deck, kind: Kind) {
    match kind
    case Close(g) => d.group == Some(g)
    case Assign(g, key, _) => d.group == Some(g) && g in d.fields && key !in d.fields[g]
    case Open(g) => d.group.None? && g !in d.fields
    case Head(_) => d.group.None?
    case CardRow(_) => d.group.None?
    case Blank => true
  }

  lemma KindAdmitted(t: Table, d: Deck, raw: string)
    requires KindOf(t, d, raw).Some?
    ensures Admits(d, KindOf(t, d, raw).value)
  {
    hide Strip, ParseAssign;
  }

  /** The last of `n` lines, read. */
  lemma LastLine(t: Table, lines: seq<string>, n: nat) returns (before: Deck, kind: Kind)
    requires 0 < n <= |lines| && Read(t, lines, n).Some?
    ensures Read(t, lines, n - 1) == Some(before) && KindAt(t, lines, n) == Some(kind)
    ensures GroupBefore(t, lines, n) == before.group
    ensures Admits(before, kind) && Read(t, lines, n) == Some(Apply(before, kind, lines[n - 1], n))
  {
    hide KindOf;
    before := Read(t, lines, n - 1).value;
    kind := KindOf(t, before, lines[n - 1]).value;
    KindAdmitted(t, before, lines[n - 1]);
  }

  lemma {:induction false} TraceDeck(t: Table, lines: seq<string>, n: nat)
    requires n <= |lines| && Read(t, lines, n).Some?
    ensures Traced(t, lines, n, Read(t, lines, n).value)
  {
    hide KindAt, KindOf, Step, GroupBefore;
    if n > 0 {
      hide FieldsRead, KindsRecorded, LimitsRead, GroupsTraced;
      var before, kind := LastLine(t, lines, n);
      TraceDeck(t, lines, n - 1);
      FieldsStep(t, lines, n, before, kind);
      KindsStep(t, lines, n, before, kind);
      LimitsStep(t, lines, n, before, kind);
      GroupsStep(t, lines, n, before, kind);
    }
  }

  lemma FieldsStep(t: Table, lines: seq<string>, n: nat, before: Deck, kind: Kind)
    requires 0 < n <= |lines| && FieldsRead(t, lines, n - 1, before)
    requires KindAt(t, lines, n) == Some(kind) && Admits(before, kind)
    ensures FieldsRead(t, lines, n, Apply(before, kind, lines[n - 1], n))
  {
    hide KindAt;
  }

  lemma RecordsStay(before: Deck, kind: Kind, raw: string, n: nat, earlier: Kind, line: nat)
    requires Records(before, earlier, line) && Admits(before, kind)
    requires before.starts.Keys == before.fields.Keys
    requires before.group.Some? ==> before.group.value !in before.ends
    ensures Records(Apply(before, kind, raw, n), earlier, line)
  {
  }

  lemma KindsStep(t: Table, lines: seq<string>, n: nat, before: Deck, kind: Kind)
    requires 0 < n <= |lines| && KindsRecorded(t, lines, n - 1, before) && LimitsRead(t, lines, n - 1, before)
    requires KindAt(t, lines, n) == Some(kind) && Admits(before, kind)
    ensures KindsRecorded(t, lines, n, Apply(before, kind, lines[n - 1], n))
  {
    hide KindAt, Apply, Records;
    forall line | 1 <= line <= n && KindAt(t, lines, line).Some?
      ensures Records(Apply(before, kind, lines[n - 1], n), KindAt(t, lines, line).value, line)
    {
      if line < n {
        RecordsStay(before, kind, lines[n - 1], n, KindAt(t, lines, line).value, line);
      } else {
        NewlyRecorded(before, kind, lines[n - 1], n);
      }
    }
  }

  lemma NewlyRecorded(before: Deck, kind: Kind, raw: string, n: nat)
    ensures Records(Apply(before, kind, raw, n), kind, n)
  {
  }

  /** What a line does to the open group and the recorded limits. */
  lemma AppliedLimits(before: Deck, kind: Kind, raw: string, n: nat)
    requires Admits(before, kind)
    ensures var after := Apply(before, kind, raw, n);
      match kind
      case Open(g) =>
        after.group == Some(g) && after.starts == before.starts[g := n] && after.ends == before.ends
        && after.fields.Keys == before.fields.Keys + {g}
      case Close(g) =>
        after.group == None && after.starts == before.starts && after.ends == before.ends[g := n]
        && after.fields.Keys == before.fields.Keys
      case _ =>
        after.group == before.group && after.starts == before.starts && after.ends == before.ends
        && after.fields.Keys == before.fields.Keys
  {
  }

  lemma LimitsOpened(t: Table, lines: seq<string>, n: nat, before: Deck, after: Deck, g: string)
    requires 0 < n <= |lines| && LimitsRead(t, lines, n - 1, before) && KindAt(t, lines, n) == Some(Open(g))
    requires before.group.None? && g !in before.fields && after.group == Some(g)
    requires after.starts == before.starts[g := n] && after.ends == before.ends
    requires after.fields.Keys == before.fields.Keys + {g}
    ensures LimitsRead(t, lines, n, after)
  {
    hide KindAt;
  }

  lemma LimitsClosed(t: Table, lines: seq<string>, n: nat, before: Deck, after: Deck, g: string)
    requires 0 < n <= |lines| && LimitsRead(t, lines, n - 1, before) && KindAt(t, lines, n) == Some(Close(g))
    requires before.group == Some(g) && after.group == None
    requires after.starts == before.starts && after.ends == before.ends[g := n]
    requires after.fields.Keys == before.fields.Keys
    ensures LimitsRead(t, lines, n, after)
  {
    hide KindAt;
  }

  lemma LimitsSame(t: Table, lines: seq<string>, n: nat, before: Deck, after: Deck)
    requires 0 < n <= |lines| && LimitsRead(t, lines, n - 1, before)
    requires after.group == before.group && after.starts == before.starts && after.ends == before.ends
    requires after.fields.Keys == before.fields.Keys
    ensures LimitsRead(t, lines, n, after)
  {
    hide KindAt;
  }

  lemma LimitsStep(t: Table, lines: seq<string>, n: nat, before: Deck, kind: Kind)
    requires 0 < n <= |lines| && LimitsRead(t, lines, n - 1, before)
    requires KindAt(t, lines, n) == Some(kind) && Admits(before, kind)
    ensures LimitsRead(t, lines, n, Apply(before, kind, lines[n - 1], n))
  {
    hide KindAt, Apply, LimitsRead;
    var after := Apply(before, kind, lines[n - 1], n);
    AppliedLimits(before, kind, lines[n - 1], n);
    match kind
    case Open(g) => LimitsOpened(t, lines, n, before, after, g);
    case Close(g) => LimitsClosed(t, lines, n, before, after, g);
    case _ => LimitsSame(t, lines, n, before, after);
  }

  lemma GroupsStep(t: Table, lines: seq<string>, n: nat, before: Deck, kind: Kind)
    requires 0 < n <= |lines| && LimitsRead(t, lines, n - 1, before) && GroupsTraced(t, lines, n - 1, before)
    requires GroupBefore(t, lines, n) == before.group && Admits(before, kind)
    ensures GroupsTraced(t, lines, n, Apply(before, kind, lines[n - 1], n))
  {
    hide KindAt, GroupBefore, Apply;
    forall line | 1 <= line <= n
      ensures InsideLimits(Apply(before, kind, lines[n - 1], n), line, GroupBefore(t, lines, line))
    {
      InsideStep(t, lines, n, before, kind, line, GroupBefore(t, lines, line));
    }
  }

  lemma InsideStep(t: Table, lines: seq<string>, n: nat, before: Deck, kind: Kind, line: nat, group: Option<string>)
    requires 1 <= line <= n <= |lines| && LimitsRead(t, lines, n - 1, before) && Admits(before, kind)
    requires if line < n then InsideLimits(before, line, group) else group == before.group
    ensures InsideLimits(Apply(before, kind, lines[n - 1], n), line, group)
  {
    hide KindAt;
  }
}
