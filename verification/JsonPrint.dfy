/** Printed JSON values, and the reader on printed arrays: what it must accept. */
module JsonPrint {
  import opened Wrappers
  import D = DeckText
  import opened JsonScan
  import opened Sequences
  import A = ArrayReader

  // ---------- written values ----------

  /** A character of a string as it is written: itself, a short escape, or four hexadecimal digits. */
  datatype Piece = Plain(c: char) | Short(letter: char) | Hex(digits: string)

  datatype Json =
    | Null
    | Boolean(b: bool)
    | Number(whole: string, fraction: string, power: string)
    | NotFinite(word: string)
    | Text(pieces: seq<Piece>)
    | List(open: string, items: seq<Item>)
    | Dict(open: string, members: seq<Member>)

  /** A value in a list: the blanks behind it, and those behind the comma if one follows. */
  datatype Item = Item(value: Json, before: string, after: string)

  /** A member of an object, with the blanks around its colon and comma. */
  datatype Member = Member(name: seq<Piece>, beforeColon: string, afterColon: string, item: Item)

  predicate AllIn(s: string, characters: string) {
    forall i :: 0 <= i < |s| ==> s[i] in characters
  }

  function PieceText(p: Piece): string {
    match p
    case Plain(c) => [c]
    case Short(letter) => ['\\', letter]
    case Hex(digits) => "\\u" + digits
  }

  function PiecesText(pieces: seq<Piece>): string {
    if pieces == [] then "" else PieceText(pieces[0]) + PiecesText(pieces[1..])
  }

  function Quote(pieces: seq<Piece>): string { "\"" + PiecesText(pieces) + "\"" }

  function Print(v: Json): string
    decreases v
  {
    match v
    case Null => "null"
    case Boolean(b) => if b then "true" else "false"
    case Number(whole, fraction, power) => whole + fraction + power
    case NotFinite(word) => word
    case Text(pieces) => Quote(pieces)
    case List(open, items) => "[" + (open + PrintItems(items)) + "]"
    case Dict(open, members) => "{" + (open + PrintMembers(members)) + "}"
  }

  function PrintItems(items: seq<Item>): string
    decreases items
  {
    if items == [] then ""
    else if |items| == 1 then Print(items[0].value) + items[0].before
    else Print(items[0].value) + (items[0].before + "," + items[0].after) + PrintItems(items[1..])
  }

  function PrintMember(m: Member): string
    decreases m
  {
    Quote(m.name) + (m.beforeColon + ":" + m.afterColon) + Print(m.item.value)
  }

  function PrintMembers(members: seq<Member>): string
    decreases members
  {
    if members == [] then ""
    else if |members| == 1 then PrintMember(members[0]) + members[0].item.before
    else PrintMember(members[0]) + (members[0].item.before + "," + members[0].item.after) + PrintMembers(members[1..])
  }

  // ---------- what may be written (sections 6 and 7 of RFC 8259) ----------

  predicate IsDigits(s: string) { s != "" && AllIn(s, "0123456789") }

  /** Zero, or digits without a leading zero, with or without a minus sign. */
  predicate IsInteger(s: string) {
    var digits := if s != "" && s[0] == '-' then s[1..] else s;
    IsDigits(digits) && (digits == "0" || digits[0] != '0')
  }

  predicate IsFraction(s: string) { s == "" || (s[0] == '.' && IsDigits(s[1..])) }

  predicate IsPower(s: string) {
    s == "" || (s[0] in "eE" && IsDigits(if |s| > 1 && s[1] in "+-" then s[2..] else s[1..]))
  }

  predicate Blank(gap: string) { AllIn(gap, " \t\n\r") }

  predicate ProperPiece(p: Piece) {
    match p
    case Plain(c) => c >= ' ' && c != '"' && c != '\\'
    case Short(letter) => letter in "\"\\/bfnrt"
    case Hex(digits) => |digits| == 4 && AllIn(digits, "0123456789abcdefABCDEF")
  }

  predicate ProperPieces(pieces: seq<Piece>) {
    forall i :: 0 <= i < |pieces| ==> ProperPiece(pieces[i])
  }

  predicate Proper(v: Json)
    decreases v
  {
    match v
    case Number(whole, fraction, power) => IsInteger(whole) && IsFraction(fraction) && IsPower(power)
    case NotFinite(word) => word == "NaN" || word == "Infinity" || word == "-Infinity"
    case Text(pieces) => ProperPieces(pieces)
    case List(open, items) => Blank(open) && forall i :: 0 <= i < |items| ==> ProperItem(items[i])
    case Dict(open, members) => Blank(open) && forall i :: 0 <= i < |members| ==> ProperMember(members[i])
    case _ => true
  }

  predicate ProperItem(item: Item)
    decreases item
  {
    Proper(item.value) && Blank(item.before) && Blank(item.after)
  }

  predicate ProperMember(m: Member)
    decreases m
  {
    ProperPieces(m.name) && Blank(m.beforeColon) && Blank(m.afterColon) && ProperItem(m.item)
  }

  // ---------- text at a position ----------

  /** What may follow a value. */
  predicate Closed(s: string, i: nat) {
    i <= |s| && (i < |s| ==> Ends(s[i]))
  }

  // ---------- strings ----------

  lemma {:induction false} PiecesStand(s: string, i: nat, pieces: seq<Piece>)
    requires ProperPieces(pieces) && Stands(s, i, PiecesText(pieces) + "\"")
    ensures i <= |s| && StringEnd(s, i) == Some(i + |PiecesText(pieces)| + 1)
    decreases |pieces|
  {
    hide Stands, PieceText, ProperPiece, StringEnd;
    if pieces == [] {
      NoPieces(s, i);
    } else {
      var first, rest := PieceText(pieces[0]), PiecesText(pieces[1..]);
      assert PiecesText(pieces) + "\"" == first + (rest + "\"");
      StandsParts(s, i, first, rest + "\"");
      PiecesStand(s, i + |first|, pieces[1..]);
      PieceStands(s, i, pieces[0]);
    }
  }

  lemma NoPieces(s: string, i: nat)
    requires Stands(s, i, PiecesText([]) + "\"")
    ensures i <= |s| && PiecesText([]) == "" && StringEnd(s, i) == Some(i + 1)
  {
    StandsChar(s, i, PiecesText([]) + "\"", 0);
  }

  lemma PieceStands(s: string, i: nat, p: Piece)
    requires ProperPiece(p) && Stands(s, i, PieceText(p))
    ensures i + |PieceText(p)| <= |s| && StringEnd(s, i) == StringEnd(s, i + |PieceText(p)|)
  {
    match p
    case Plain(c) => StandsChar(s, i, [c], 0); hide *; StringStep(s, i);
    case Short(letter) => ShortStands(s, i, letter);
    case Hex(digits) => HexStands(s, i, digits);
  }

  lemma ShortStands(s: string, i: nat, letter: char)
    requires letter in "\"\\/bfnrt" && Stands(s, i, ['\\', letter])
    ensures i + 2 <= |s| && StringEnd(s, i) == StringEnd(s, i + 2)
  {
    StandsChar(s, i, ['\\', letter], 0);
    StandsChar(s, i, ['\\', letter], 1);
    hide Stands, StringEnd;
    StringStep(s, i);
  }

  lemma HexStands(s: string, i: nat, digits: string)
    requires |digits| == 4 && AllIn(digits, "0123456789abcdefABCDEF") && Stands(s, i, "\\u" + digits)
    ensures i + 6 <= |s| && StringEnd(s, i) == StringEnd(s, i + 6)
  {
    hide StringEnd;
    StandsParts(s, i, "\\u", digits);
    StandsChar(s, i, "\\u", 0);
    StandsChar(s, i, "\\u", 1);
    HexDigitStands(s, i + 2, digits, 0);
    HexDigitStands(s, i + 2, digits, 1);
    HexDigitStands(s, i + 2, digits, 2);
    HexDigitStands(s, i + 2, digits, 3);
    hide Stands, IsHex, AllIn;
    StringStep(s, i);
  }

  lemma HexDigitStands(s: string, i: nat, digits: string, k: nat)
    requires AllIn(digits, "0123456789abcdefABCDEF") && Stands(s, i, digits) && k < |digits|
    ensures i + k < |s| && IsHex(s[i + k])
  {
    StandsChar(s, i, digits, k);
    HexIsHex(digits[k]);
  }

  lemma HexIsHex(c: char)
    requires c in "0123456789abcdefABCDEF"
    ensures IsHex(c)
  {
  }

  lemma StringStep(s: string, i: nat)
    requires i < |s| && s[i] != '"'
    ensures s[i] == '\\' && EscapeLength(s, i).Some? ==> StringEnd(s, i) == StringEnd(s, i + EscapeLength(s, i).value)
    ensures s[i] != '\\' && s[i] >= ' ' ==> StringEnd(s, i) == StringEnd(s, i + 1)
  {
    hide EscapeLength;
  }

  lemma QuoteStands(s: string, i: nat, pieces: seq<Piece>)
    requires ProperPieces(pieces) && Stands(s, i, Quote(pieces))
    ensures i < |s| && s[i] == '"' && StringEnd(s, i + 1) == Some(i + |Quote(pieces)|)
  {
    hide Stands, PiecesText, StringEnd, ProperPieces;
    assert Quote(pieces) == "\"" + (PiecesText(pieces) + "\"");
    StandsParts(s, i, "\"", PiecesText(pieces) + "\"");
    StandsChar(s, i, "\"", 0);
    PiecesStand(s, i + 1, pieces);
  }

  // ---------- numbers ----------

  /** Digits stand from `i` to the end of what stands there. */
  lemma DigitsStand(s: string, i: nat, text: string)
    requires IsDigits(text) && Stands(s, i, text)
    requires i + |text| < |s| ==> !D.IsDigit(s[i + |text|])
    ensures i + |text| <= |s| && D.IsDigit(s[i]) && forall k :: i <= k <= i + |text| ==>
      D.SkipDigits(s, k) == i + |text|
  {
    forall k | i <= k < i + |text| ensures D.IsDigit(s[k]) {
      StandsChar(s, i, text, k - i);
      assert text[k - i] in "0123456789";
    }
    forall k | i <= k <= i + |text| ensures D.SkipDigits(s, k) == i + |text| { DigitsUpTo(s, k, i + |text|); }
  }

  lemma IntegerParts(text: string) returns (minus: string, digits: string)
    requires IsInteger(text)
    ensures text == minus + digits && (minus == "" || minus == "-") && IsDigits(digits)
    ensures |text| == |minus| + |digits| && digits != "" && '0' <= digits[0] <= '9' &&
      (digits[0] == '0' ==> |digits| == 1)
  {
    minus, digits := if text[0] == '-' then "-" else "", if text[0] == '-' then text[1..] else text;
    DigitOf(digits[0]);
  }

  lemma DigitOf(c: char)
    ensures D.IsDigit(c) <==> '0' <= c <= '9'
    ensures D.IsDigit(c) <==> c in "0123456789"
  {
  }

  lemma WholeEnd(s: string, i: nat, k: nat, end: nat)
    requires i <= k < |s| && k == (if s[i] == '-' then i + 1 else i) && '0' <= s[k] <= '9'
    requires (s[k] == '0' ==> end == k + 1) && D.SkipDigits(s, k + 1) == end
    ensures IntegerEnd(s, i) == Some(end)
  {
    hide D.SkipDigits;
  }

  lemma IntegerStands(s: string, i: nat, text: string)
    requires IsInteger(text) && Stands(s, i, text)
    requires i + |text| < |s| ==> !D.IsDigit(s[i + |text|])
    ensures i < |s| && (s[i] == '-' || D.IsDigit(s[i])) && IntegerEnd(s, i) == Some(i + |text|)
  {
    hide *;
    var minus, digits := IntegerParts(text);
    StandsParts(s, i, minus, digits);
    if minus != "" { StandsChar(s, i, minus, 0); }
    StandsChar(s, i + |minus|, digits, 0);
    DigitsStand(s, i + |minus|, digits);
    DigitOf(digits[0]);
    WholeEnd(s, i, i + |minus|, i + |text|);
  }

  lemma FractionStands(s: string, i: nat, text: string)
    requires IsFraction(text) && Stands(s, i, text)
    requires i + |text| < |s| ==> !D.IsDigit(s[i + |text|]) && s[i + |text|] != '.'
    ensures i + |text| <= |s| && FractionEnd(s, i) == i + |text|
  {
    if text != "" {
      assert text == "." + text[1..];
      StandsParts(s, i, ".", text[1..]);
      StandsChar(s, i, ".", 0);
      DigitsStand(s, i + 1, text[1..]);
    }
    hide Stands, IsDigits, D.SkipDigits;
  }

  lemma PowerParts(text: string) returns (sign: nat)
    requires IsPower(text) && text != ""
    ensures 1 <= sign <= 2 && sign < |text| && (text[0] == 'e' || text[0] == 'E') && IsDigits(text[sign..])
    ensures (sign == 2 <==> text[1] == '+' || text[1] == '-') && text == text[..sign] + text[sign..]
    ensures D.IsDigit(text[sign])
  {
    sign := if |text| > 1 && text[1] in "+-" then 2 else 1;
    assert text[sign..][0] == text[sign] && text[sign] in "0123456789";
    assert sign == 1 ==> text[1] in "0123456789";
  }

  lemma NotPowerHere(s: string, i: nat)
    requires Closed(s, i)
    ensures PowerEnd(s, i) == i
  {
  }

  lemma ClosedIsNoDigit(s: string, i: nat)
    requires Closed(s, i)
    ensures i < |s| ==> !D.IsDigit(s[i]) && s[i] != '.'
  {
  }

  lemma PowerStands(s: string, i: nat, text: string)
    requires IsPower(text) && Stands(s, i, text) && Closed(s, i + |text|)
    ensures i + |text| <= |s| && PowerEnd(s, i) == i + |text|
  {
    hide Stands, IsDigits, D.SkipDigits, IsPower, IsBlank;
    if text != "" {
      var sign := PowerParts(text);
      StandsChar(s, i, text, 0);
      StandsChar(s, i, text, 1);
      StandsChar(s, i, text, sign);
      StandsParts(s, i, text[..sign], text[sign..]);
      ClosedIsNoDigit(s, i + |text|);
      DigitsStand(s, i + sign, text[sign..]);
    } else {
      NotPowerHere(s, i);
    }
  }

  lemma PartStarts(s: string, i: nat, text: string)
    requires Stands(s, i, text)
    ensures i + |text| <= |s| && (text != "" ==> i < |s| && s[i] == text[0])
  {
    if text != "" { StandsChar(s, i, text, 0); }
  }

  lemma PartLetters(fraction: string, power: string)
    requires IsFraction(fraction) && IsPower(power)
    ensures fraction != "" ==> fraction[0] == '.' && !D.IsDigit(fraction[0])
    ensures power != "" ==> power[0] != '.' && !D.IsDigit(power[0])
  {
    hide IsDigits;
    assert power != "" ==> power[0] == 'e' || power[0] == 'E';
  }

  /** What follows the whole part of a number, and what follows its fraction. */
  lemma NumberJoints(s: string, a: nat, fraction: string, power: string)
    requires IsFraction(fraction) && IsPower(power) && Stands(s, a, fraction) && Stands(s, a + |fraction|, power)
    requires Closed(s, a + |fraction| + |power|)
    ensures a < |s| ==> !D.IsDigit(s[a])
    ensures a + |fraction| < |s| ==> !D.IsDigit(s[a + |fraction|]) && s[a + |fraction|] != '.'
  {
    hide *;
    PartStarts(s, a, fraction);
    PartStarts(s, a + |fraction|, power);
    PartLetters(fraction, power);
    ClosedIsNoDigit(s, a + |fraction| + |power|);
  }

  lemma NumberStands(s: string, i: nat, v: Json)
    requires v.Number? && Proper(v) && Stands(s, i, v.whole + v.fraction + v.power)
    requires Closed(s, i + |v.whole| + |v.fraction| + |v.power|)
    ensures i < |s| && (s[i] == '-' || D.IsDigit(s[i]))
    ensures NumberEnd(s, i) == Some(i + |v.whole| + |v.fraction| + |v.power|)
  {
    hide Stands, IsDigits, IntegerEnd, FractionEnd, PowerEnd, IsInteger, IsFraction, IsPower, Closed;
    var a := i + |v.whole|;
    var b := a + |v.fraction|;
    StandsParts(s, i, v.whole + v.fraction, v.power);
    StandsParts(s, i, v.whole, v.fraction);
    NumberJoints(s, a, v.fraction, v.power);
    PowerStands(s, b, v.power);
    FractionStands(s, a, v.fraction);
    IntegerStands(s, i, v.whole);
  }

  lemma {:induction false} DigitsUpTo(s: string, i: nat, j: nat)
    requires i <= j <= |s| && (j < |s| ==> !D.IsDigit(s[j])) && forall k :: i <= k < j ==> D.IsDigit(s[k])
    ensures D.SkipDigits(s, i) == j
    decreases j - i
  {
    if i < j { DigitsUpTo(s, i + 1, j); }
  }

  // ---------- values ----------

  lemma SpellsFirst(s: string, i: nat, word: string)
    requires i <= |s| && word != "" && Spells(s, i, word)
    ensures i < |s| && s[i] == word[0]
  {
    assert s[i..i + |word|][0] == s[i];
  }

  lemma WordValue(s: string, i: nat)
    requires i < |s| && (s[i] in "ntfNI" || (s[i] == '-' && i + 1 < |s| && s[i + 1] == 'I'))
    ensures !IsBlank(s[i]) && Value(s, i) == WordEnd(s, i)
  {
    hide WordEnd;
  }

  predicate IsWord(word: string) {
    word == "null" || word == "true" || word == "false" || word == "NaN" || word == "Infinity" || word == "-Infinity"
  }

  lemma FirstLetters(word: string)
    requires IsWord(word)
    ensures word != "" && word[0] in "ntfNI-" && (word[0] == '-' ==> |word| > 1 && word[1] == 'I')
    ensures (word[0] == 'n' <==> word == "null") && (word[0] == 't' <==> word == "true")
    ensures (word[0] == 'f' <==> word == "false") && (word[0] == 'N' <==> word == "NaN")
    ensures (word[0] == 'I' <==> word == "Infinity") && (word[0] == '-' <==> word == "-Infinity")
  {
  }

  /** At most one of the words stands at a place. */
  lemma WordStands(s: string, i: nat, word: string)
    requires IsWord(word) && Stands(s, i, word)
    ensures i < |s| && !IsBlank(s[i]) && Value(s, i) == Some(i + |word|)
  {
    FirstLetters(word);
    StandsChar(s, i, word, 0);
    if |word| > 1 { StandsChar(s, i, word, 1); }
    assert Spells(s, i, word);
    WordValue(s, i);
    hide Spells, Value, IsWord, Stands;
    if Spells(s, i, "null") { SpellsFirst(s, i, "null"); }
    if Spells(s, i, "true") { SpellsFirst(s, i, "true"); }
    if Spells(s, i, "false") { SpellsFirst(s, i, "false"); }
    if Spells(s, i, "NaN") { SpellsFirst(s, i, "NaN"); }
    if Spells(s, i, "Infinity") { SpellsFirst(s, i, "Infinity"); }
  }

  lemma NoBlank(s: string, i: nat)
    requires i <= |s| && (i < |s| ==> !IsBlank(s[i]))
    ensures SkipBlank(s, i) == i
  {
  }

  /** A gap of blanks is skipped as far as what follows it. */
  lemma {:induction false} GapStands(s: string, i: nat, gap: string)
    requires Blank(gap) && Stands(s, i, gap)
    requires i + |gap| < |s| ==> !IsBlank(s[i + |gap|])
    ensures i + |gap| <= |s| && SkipBlank(s, i) == i + |gap|
    ensures gap != "" ==> i < |s| && IsBlank(s[i])
    decreases |gap|
  {
    if gap == "" {
      NoBlank(s, i);
    } else {
      StandsChar(s, i, gap, 0);
      assert gap == gap[..1] + gap[1..];
      StandsParts(s, i, gap[..1], gap[1..]);
      GapStands(s, i + 1, gap[1..]);
    }
  }

  lemma NumberValue(s: string, i: nat, v: Json, text: string)
    requires v.Number? && Proper(v) && text == v.whole + v.fraction + v.power
    requires Stands(s, i, text) && Closed(s, i + |text|)
    ensures i < |s| && !IsBlank(s[i]) && Value(s, i) == Some(i + |text|)
  {
    hide NumberEnd, Proper, Stands;
    NumberStands(s, i, v);
  }

  lemma QuoteValue(s: string, i: nat, pieces: seq<Piece>)
    requires ProperPieces(pieces) && Stands(s, i, Quote(pieces))
    ensures i < |s| && !IsBlank(s[i]) && Value(s, i) == Some(i + |Quote(pieces)|)
  {
    hide Stands, Quote, StringEnd, ProperPieces;
    QuoteStands(s, i, pieces);
  }

  lemma ListValue(s: string, i: nat, end: nat)
    requires i < |s| && s[i] == '[' && Array(s, i + 1) == Some(end)
    ensures Value(s, i) == Some(end)
  {
  }

  lemma DictValue(s: string, i: nat, end: nat)
    requires i < |s| && s[i] == '{' && Object(s, i + 1) == Some(end)
    ensures Value(s, i) == Some(end)
  {
  }

  lemma PrintParts(v: Json)
    ensures v.List? ==> Print(v) == "[" + (v.open + PrintItems(v.items)) + "]"
    ensures v.Dict? ==> Print(v) == "{" + (v.open + PrintMembers(v.members)) + "}"
  {
  }

  lemma ProperParts(v: Json)
    requires Proper(v)
    ensures v.List? ==> Blank(v.open) && forall k :: 0 <= k < |v.items| ==> ProperItem(v.items[k])
    ensures v.Dict? ==> Blank(v.open) && forall k :: 0 <= k < |v.members| ==> ProperMember(v.members[k])
    ensures v.Text? ==> ProperPieces(v.pieces)
    ensures v.NotFinite? ==> IsWord(v.word)
  {
    hide ProperPieces, Blank;
  }

  /** A written value is read to its end, wherever it stands. */
  lemma {:induction false} ValueStands(s: string, i: nat, v: Json)
    requires Proper(v) && Stands(s, i, Print(v)) && Closed(s, i + |Print(v)|)
    ensures i < |s| && !IsBlank(s[i]) && Value(s, i) == Some(i + |Print(v)|)
    decreases v
  {
    hide Stands, Proper, PrintItems, PrintMembers, ProperMember, ProperPieces, Value, Array, Object, Quote;
    ProperParts(v);
    if v.List? || v.Dict? {
      hide Print;
      PrintParts(v);
      if v.List? {
        BracketsStand(s, i, "[", v.open + PrintItems(v.items), "]");
        ItemsStand(s, i + 1, v.open, v.items);
        ListValue(s, i, i + |Print(v)|);
      } else {
        BracketsStand(s, i, "{", v.open + PrintMembers(v.members), "}");
        MembersStand(s, i + 1, v.open, v.members);
        DictValue(s, i, i + |Print(v)|);
      }
    } else {
      match v
      case Null => WordStands(s, i, "null");
      case Boolean(b) => WordStands(s, i, Print(v));
      case Number(_, _, _) => NumberValue(s, i, v, Print(v));
      case NotFinite(word) => WordStands(s, i, word);
      case Text(pieces) => QuoteValue(s, i, pieces);
    }
  }

  lemma BracketsStand(s: string, i: nat, open: string, inner: string, close: string)
    requires Stands(s, i, open + inner + close) && |open| == |close| == 1
    ensures i + |inner| + 2 <= |s| && s[i] == open[0] && Stands(s, i + 1, inner) && s[i + 1 + |inner|] == close[0]
  {
    StandsParts(s, i, open + inner, close);
    StandsParts(s, i, open, inner);
    StandsChar(s, i, open, 0);
    StandsChar(s, i + 1 + |inner|, close, 0);
  }

  /** Two texts with a mark and its gaps between them. */
  lemma MarkStands(s: string, i: nat, first: string, before: string, mark: string, after: string, rest: string)
    requires Stands(s, i, first + (before + mark + after) + rest) && |mark| == 1
    requires Blank(before) && Blank(after) && !IsBlank(mark[0])
    ensures var k := i + |first| + |before|;
      && k + 1 + |after| + |rest| <= |s| && Stands(s, i, first) && s[k] == mark[0]
      && SkipBlank(s, i + |first|) == k && Stands(s, k + 1, after) && Stands(s, k + 1 + |after|, rest)
      && (before != "" ==> IsBlank(s[i + |first|]))
  {
    hide *;
    var k := i + |first| + |before|;
    StandsParts(s, i, first + (before + mark + after), rest);
    StandsParts(s, i, first, before + mark + after);
    StandsParts(s, i + |first|, before + mark, after);
    StandsParts(s, i + |first|, before, mark);
    StandsChar(s, k, mark, 0);
    GapStands(s, i + |first|, before);
  }

  // ---------- lists ----------

  /** How the rest of a list is read behind a value. */
  lemma ElementThen(s: string, i: nat, e: nat)
    requires i < |s| && Value(s, i) == Some(e) && SkipBlank(s, e) < |s|
    ensures s[SkipBlank(s, e)] == ']' ==> Elements(s, i) == Some(SkipBlank(s, e) + 1)
    ensures s[SkipBlank(s, e)] == ',' ==> Elements(s, i) == Elements(s, SkipBlank(s, SkipBlank(s, e) + 1))
  {
    hide Value, SkipBlank;
  }

  lemma ArrayOpens(s: string, i: nat)
    requires i <= |s| && SkipBlank(s, i) < |s|
    ensures s[SkipBlank(s, i)] == ']' ==> Array(s, i) == Some(SkipBlank(s, i) + 1)
    ensures s[SkipBlank(s, i)] != ']' ==> Array(s, i) == Elements(s, SkipBlank(s, i))
  {
    hide Elements, SkipBlank;
  }

  /** No value starts with a closing bracket. */
  lemma NotClosing(s: string, i: nat)
    requires i < |s| && Value(s, i).Some?
    ensures s[i] != ']'
  {
    if s[i] == ']' {
      assert NumberEnd(s, i).None?;
      hide Spells, NumberEnd;
      if Spells(s, i, "null") { SpellsFirst(s, i, "null"); }
      if Spells(s, i, "true") { SpellsFirst(s, i, "true"); }
      if Spells(s, i, "false") { SpellsFirst(s, i, "false"); }
      if Spells(s, i, "NaN") { SpellsFirst(s, i, "NaN"); }
      if Spells(s, i, "Infinity") { SpellsFirst(s, i, "Infinity"); }
      if Spells(s, i, "-Infinity") { SpellsFirst(s, i, "-Infinity"); }
    }
  }

  lemma ItemsParts(items: seq<Item>)
    ensures items == [] ==> PrintItems(items) == ""
    ensures |items| == 1 ==> PrintItems(items) == Print(items[0].value) + items[0].before
    ensures |items| > 1 ==>
      PrintItems(items) ==
      Print(items[0].value) + (items[0].before + "," + items[0].after) + PrintItems(items[1..])
  {
    hide Print;
  }

  lemma ItemIsProper(item: Item)
    requires ProperItem(item)
    ensures Proper(item.value) && Blank(item.before) && Blank(item.after)
  {
  }

  lemma CloseStands(s: string, i: nat, first: string, gap: string, c: char)
    requires Stands(s, i, first + gap) && i + |first| + |gap| < |s| && s[i + |first| + |gap|] == c
    requires Blank(gap) && (c == ']' || c == '}')
    ensures Stands(s, i, first) && SkipBlank(s, i + |first|) == i + |first| + |gap| && Closed(s, i + |first|)
  {
    StandsParts(s, i, first, gap);
    GapStands(s, i + |first|, gap);
  }

  /** The items of a list, up to its bracket. */
  lemma {:induction false} ElementsStand(s: string, i: nat, items: seq<Item>)
    requires (forall k :: 0 <= k < |items| ==> ProperItem(items[k])) && Stands(s, i, PrintItems(items))
    requires items != [] && i + |PrintItems(items)| < |s| && s[i + |PrintItems(items)|] == ']'
    ensures i < |s| && !IsBlank(s[i]) && s[i] != ']' && Elements(s, i) == Some(i + |PrintItems(items)| + 1)
    decreases items, 0
  {
    hide *;
    ItemsParts(items);
    ItemIsProper(items[0]);
    var first, before, after := Print(items[0].value), items[0].before, items[0].after;
    var e := i + |first|;
    if |items| > 1 {
      MarkIsNoBlank();
      MarkStands(s, i, first, before, ",", after, PrintItems(items[1..]));
      ElementsStand(s, e + |before| + 1 + |after|, items[1..]);
      GapStands(s, e + |before| + 1, after);
      ClosedByMark(s, e, before);
    } else {
      CloseStands(s, i, first, before, ']');
    }
    ValueStands(s, i, items[0].value);
    ElementThen(s, i, e);
    NotClosing(s, i);
  }

  lemma MarkIsNoBlank()
    ensures !IsBlank(',') && !IsBlank(':') && !IsBlank('"')
  {
  }

  lemma ClosedByMark(s: string, e: nat, before: string)
    requires e + |before| < |s| && s[e + |before|] == ',' && (before != "" ==> IsBlank(s[e]))
    ensures Closed(s, e)
  {
  }

  lemma {:induction false} ItemsStand(s: string, i: nat, open: string, items: seq<Item>)
    requires Blank(open) && (forall k :: 0 <= k < |items| ==> ProperItem(items[k]))
    requires Stands(s, i, open + PrintItems(items))
    requires var end := i + |open + PrintItems(items)|; end < |s| && s[end] == ']'
    ensures Array(s, i) == Some(i + |open + PrintItems(items)| + 1)
    decreases items, 1
  {
    hide Stands, Print, ProperItem, PrintItems, Value, Array, Elements, SkipBlank, Blank;
    StandsParts(s, i, open, PrintItems(items));
    ItemsParts(items);
    if items != [] { ElementsStand(s, i + |open|, items); }
    GapStands(s, i, open);
    ArrayOpens(s, i);
  }

  // ---------- dictionaries ----------

  /** How the rest of an object is read behind a member. */
  lemma MemberThen(s: string, i: nat, e: nat)
    requires i <= |s| && MemberStart(s, i).Some? && Value(s, MemberStart(s, i).value) == Some(e)
    requires SkipBlank(s, e) < |s|
    ensures var next := SkipBlank(s, e);
      && (s[next] == '}' ==> Members(s, i) == Some(next + 1))
      && (s[next] == ',' && SkipBlank(s, next + 1) < |s| && s[SkipBlank(s, next + 1)] == '"' ==>
           Members(s, i) == Members(s, SkipBlank(s, next + 1) + 1))
  {
    hide Value, MemberStart, SkipBlank;
  }

  lemma ObjectOpens(s: string, i: nat)
    requires i <= |s| && SkipBlank(s, i) < |s|
    ensures s[SkipBlank(s, i)] == '}' ==> Object(s, i) == Some(SkipBlank(s, i) + 1)
    ensures s[SkipBlank(s, i)] == '"' ==> Object(s, i) == Members(s, SkipBlank(s, i) + 1)
  {
    hide Members, SkipBlank;
  }

  lemma MembersParts(members: seq<Member>)
    ensures members == [] ==> PrintMembers(members) == ""
    ensures |members| == 1 ==> PrintMembers(members) == PrintMember(members[0]) + members[0].item.before
    ensures |members| > 1 ==>
      PrintMembers(members) ==
      PrintMember(members[0]) + (members[0].item.before + "," + members[0].item.after) + PrintMembers(members[1..])
  {
    hide PrintMember;
  }

  lemma MemberIsProper(m: Member)
    requires ProperMember(m)
    ensures ProperPieces(m.name) && Blank(m.beforeColon) && Blank(m.afterColon) && ProperItem(m.item)
    ensures Proper(m.item.value) && Blank(m.item.before) && Blank(m.item.after)
  {
    hide ProperPieces, Blank;
  }

  /** The members of an object, from the first one's quote up to the brace. */
  lemma {:induction false} NamesStand(s: string, i: nat, members: seq<Member>)
    requires forall k :: 0 <= k < |members| ==> ProperMember(members[k])
    requires Stands(s, i, PrintMembers(members)) && members != []
    requires i + |PrintMembers(members)| < |s| && s[i + |PrintMembers(members)|] == '}'
    ensures i < |s| && s[i] == '"' && Members(s, i + 1) == Some(i + |PrintMembers(members)| + 1)
    decreases members, 0
  {
    hide *;
    MembersParts(members);
    MemberIsProper(members[0]);
    var first, before, after := PrintMember(members[0]), members[0].item.before, members[0].item.after;
    var e := i + |first|;
    if |members| > 1 {
      MarkIsNoBlank();
      MarkStands(s, i, first, before, ",", after, PrintMembers(members[1..]));
      NamesStand(s, e + |before| + 1 + |after|, members[1..]);
      GapStands(s, e + |before| + 1, after);
      ClosedByMark(s, e, before);
    } else {
      CloseStands(s, i, first, before, '}');
    }
    MemberStands(s, i, members[0]);
    MemberThen(s, i + 1, e);
  }

  lemma {:induction false} MembersStand(s: string, i: nat, open: string, members: seq<Member>)
    requires Blank(open) && forall k :: 0 <= k < |members| ==> ProperMember(members[k])
    requires Stands(s, i, open + PrintMembers(members))
    requires var end := i + |open + PrintMembers(members)|; end < |s| && s[end] == '}'
    ensures Object(s, i) == Some(i + |open + PrintMembers(members)| + 1)
    decreases members, 1
  {
    hide Stands, ProperMember, PrintMember, PrintMembers, Value, Object, Members, SkipBlank, Blank;
    StandsParts(s, i, open, PrintMembers(members));
    MembersParts(members);
    if members != [] {
      NamesStand(s, i + |open|, members);
      MarkIsNoBlank();
    }
    GapStands(s, i, open);
    ObjectOpens(s, i);
  }

  lemma MemberStartsAt(s: string, i: nat, k: nat)
    requires i <= |s| && StringEnd(s, i) == Some(k) && SkipBlank(s, k) < |s| && s[SkipBlank(s, k)] == ':'
    ensures MemberStart(s, i) == Some(SkipBlank(s, SkipBlank(s, k) + 1))
  {
    hide StringEnd, SkipBlank;
  }

  lemma {:induction false} MemberStands(s: string, i: nat, m: Member)
    requires ProperMember(m) && Stands(s, i, PrintMember(m)) && Closed(s, i + |PrintMember(m)|)
    ensures i < |s|
    ensures s[i] == '"' && MemberStart(s, i + 1).Some? &&
      Value(s, MemberStart(s, i + 1).value) == Some(i + |PrintMember(m)|)
    decreases m
  {
    hide Stands, Print, Quote, Value, Proper, ProperPieces, StringEnd, MemberStart, SkipBlank, Blank, ProperItem;
    MemberIsProper(m);
    var name, value := Quote(m.name), Print(m.item.value);
    MarkStands(s, i, name, m.beforeColon, ":", m.afterColon, value);
    QuoteStands(s, i, m.name);
    var colon := i + |name| + |m.beforeColon|;
    ValueStands(s, colon + 1 + |m.afterColon|, m.item.value);
    GapStands(s, colon + 1, m.afterColon);
    MemberStartsAt(s, i + 1, i + |name|);
  }

  // ---------- whole texts ----------

  /** Every written object is decoded to its end, whatever follows. */
  lemma ObjectDecodes(v: Json, rest: string)
    requires v.Dict? && Proper(v)
    ensures Decode(Print(v) + rest) == Some(|Print(v)|)
  {
    hide Print, Proper, Value;
    StandsAll(Print(v));
    ValueStands(Print(v), 0, v);
    StartsWithBrace(v);
    DecodeMore(Print(v), Print(v) + rest);
  }

  lemma StartsWithBrace(v: Json)
    requires v.Dict?
    ensures |Print(v)| >= 2 && Print(v)[0] == '{'
  {
  }

  function Prints(records: seq<Item>): seq<string> {
    if records == [] then [] else [Print(records[0].value)] + Prints(records[1..])
  }

  lemma DrainRecord(filler: string, v: Json, rest: string)
    requires v.Dict? && Proper(v) && forall i :: 0 <= i < |filler| ==> A.IsFiller(filler[i])
    ensures A.Drain(filler + Print(v) + rest) == A.Prepend([Print(v)], A.Drain(rest))
  {
    hide Print, Proper, Decode, A.Drain;
    var text := Print(v) + rest;
    assert filler + Print(v) + rest == filler + text;
    StartsWithBrace(v);
    StripsFiller(filler, text);
    ObjectDecodes(v, rest);
    A.DrainOnce(filler + text);
    assert text[..|Print(v)|] == Print(v) && text[|Print(v)|..] == rest;
  }

  lemma {:induction false} StripsFiller(filler: string, text: string)
    requires (forall i :: 0 <= i < |filler| ==> A.IsFiller(filler[i])) && text != "" && !A.IsFiller(text[0])
    ensures A.StripFiller(filler + text) == text
  {
    if filler == "" {
      assert filler + text == text;
    } else {
      assert (filler + text)[1..] == filler[1..] + text;
      StripsFiller(filler[1..], text);
    }
  }

  ghost predicate Filler(s: string) {
    forall i :: 0 <= i < |s| ==> A.IsFiller(s[i])
  }

  lemma GapIsFiller(before: string, after: string)
    requires Blank(before) && Blank(after)
    ensures Filler(before) && Filler(before + "," + after) && Filler("[" + before)
  {
  }

  lemma {:induction false} ItemsDrained(filler: string, items: seq<Item>)
    requires Filler(filler) && forall i :: 0 <= i < |items| ==> items[i].value.Dict? && ProperItem(items[i])
    ensures A.Drain(filler + PrintItems(items) + "]") == A.Stuck(Prints(items), "]")
    decreases items
  {
    hide Print, ProperItem, Proper, A.Drain, PrintItems;
    ItemsParts(items);
    if items == [] {
      assert filler + "" + "]" == filler + "]";
      NothingDrained(filler);
    } else {
      var first, before, after := items[0].value, items[0].before, items[0].after;
      ItemIsProper(items[0]);
      GapIsFiller(before, after);
      if |items| == 1 {
        assert filler + PrintItems(items) + "]" == filler + Print(first) + (before + "]");
        DrainRecord(filler, first, before + "]");
        NothingDrained(before);
      } else {
        var gap, rest := before + "," + after, PrintItems(items[1..]);
        assert filler + PrintItems(items) + "]" == filler + Print(first) + (gap + rest + "]");
        DrainRecord(filler, first, gap + rest + "]");
        ItemsDrained(gap, items[1..]);
      }
    }
  }

  lemma NothingDrained(filler: string)
    requires Filler(filler)
    ensures A.Drain(filler + "]") == A.Stuck([], "]")
  {
    hide Decode;
    StripsFiller(filler, "]");
  }

  /** An array of objects, written with any blanks, escapes and numbers, is read as exactly the texts of its objects, in
      order, with its closing bracket left. */
  lemma PrintedArrayIsRead(v: Json)
    requires v.List? && Proper(v) && forall i :: 0 <= i < |v.items| ==> v.items[i].value.Dict?
    ensures A.Drain(Print(v)) == A.Stuck(Prints(v.items), "]")
  {
    hide A.Drain;
    PrintParts(v);
    ProperParts(v);
    hide Print, Proper, PrintItems;
    GapIsFiller(v.open, v.open);
    assert Print(v) == ("[" + v.open) + PrintItems(v.items) + "]";
    ItemsDrained("[" + v.open, v.items);
  }
}
