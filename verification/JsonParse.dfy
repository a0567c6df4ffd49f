/** The scanner and the grammar of JSON texts (sections 2 to 7 of RFC 8259) decide the same: what the scanner reads to
    its end is the text of a value, and the text of every value is read to its end. */
module JsonParse {
  import opened Wrappers
  import D = DeckText
  import opened JsonScan
  import opened JsonPrint
  import opened Sequences
  import A = ArrayReader

  // ---------- what was skipped ----------

  lemma {:induction false} SkippedIsBlank(s: string, i: nat)
    requires i <= |s|
    ensures Blank(s[i..SkipBlank(s, i)])
    decreases |s| - i
  {
    if i < |s| && IsBlank(s[i]) {
      SkippedIsBlank(s, i + 1);
      assert s[i..SkipBlank(s, i)] == [s[i]] + s[i + 1..SkipBlank(s, i + 1)];
    }
  }

  lemma {:induction false} SkippedAreDigits(s: string, i: nat)
    requires i <= |s|
    ensures AllIn(s[i..D.SkipDigits(s, i)], "0123456789")
    decreases |s| - i
  {
    if i < |s| && D.IsDigit(s[i]) {
      SkippedAreDigits(s, i + 1);
      DigitOf(s[i]);
      assert s[i..D.SkipDigits(s, i)] == [s[i]] + s[i + 1..D.SkipDigits(s, i + 1)];
    }
  }

  // ---------- strings ----------

  lemma {:induction false} PiecesParse(s: string, i: nat) returns (pieces: seq<Piece>)
    requires i <= |s| && StringEnd(s, i).Some?
    ensures ProperPieces(pieces) && PiecesText(pieces) + "\"" == s[i..StringEnd(s, i).value]
    decreases |s| - i
  {
    var end := StringEnd(s, i).value;
    if s[i] == '"' {
      pieces := [];
    } else {
      var first, n := PieceParses(s, i);
      var rest := PiecesParse(s, i + n);
      pieces := [first] + rest;
      assert s[i..end] == s[i..i + n] + s[i + n..end];
      assert pieces[1..] == rest;
      hide ProperPiece, PieceText, StringEnd;
    }
  }

  lemma PieceParses(s: string, i: nat) returns (p: Piece, n: nat)
    requires i < |s| && s[i] != '"' && StringEnd(s, i).Some?
    ensures 1 <= n <= |s| - i && ProperPiece(p) && PieceText(p) == s[i..i + n] && StringEnd(s, i) == StringEnd(s, i + n)
  {
    if s[i] == '\\' {
      n := EscapeLength(s, i).value;
      if n == 2 {
        p := Short(s[i + 1]);
      } else {
        p := Hex(s[i + 2..i + 6]);
        HexDigits(s, i + 2);
        assert s[i..i + 6] == "\\u" + s[i + 2..i + 6];
      }
    } else {
      p, n := Plain(s[i]), 1;
    }
  }

  lemma HexDigits(s: string, i: nat)
    requires i + 4 <= |s| && IsHex(s[i]) && IsHex(s[i + 1]) && IsHex(s[i + 2]) && IsHex(s[i + 3])
    ensures AllIn(s[i..i + 4], "0123456789abcdefABCDEF")
  {
    hide IsHex;
    var letters := "0123456789abcdefABCDEF";
    IsHexDigit(s[i]);
    IsHexDigit(s[i + 1]);
    IsHexDigit(s[i + 2]);
    IsHexDigit(s[i + 3]);
    assert s[i..i + 4] == [s[i], s[i + 1], s[i + 2], s[i + 3]];
    FourIn(s[i], s[i + 1], s[i + 2], s[i + 3], letters);
  }

  lemma FourIn(a: char, b: char, c: char, d: char, letters: string)
    requires a in letters && b in letters && c in letters && d in letters
    ensures AllIn([a, b, c, d], letters)
  {
  }

  lemma IsHexDigit(c: char)
    requires IsHex(c)
    ensures c in "0123456789abcdefABCDEF"
  {
    var letters := "0123456789abcdefABCDEF";
    if c <= '9' {
      assert letters[c as int - '0' as int] == c;
    } else if c <= 'F' {
      assert letters[16 + c as int - 'A' as int] == c;
    } else {
      assert letters[10 + c as int - 'a' as int] == c;
    }
  }

  // ---------- numbers and words ----------

  lemma IntegerFrom(minus: string, digits: string)
    requires (minus == "" || minus == "-") && IsDigits(digits) && (digits[0] == '0' ==> |digits| == 1)
    requires digits[0] != '-'
    ensures IsInteger(minus + digits)
  {
    hide IsDigits;
    if minus == "-" { assert (minus + digits)[1..] == digits; } else { assert minus + digits == digits; }
  }

  lemma DigitsParse(s: string, k: nat, end: nat)
    requires k < |s| && D.IsDigit(s[k]) && (end == k + 1 || end == D.SkipDigits(s, k + 1))
    ensures IsDigits(s[k..end])
  {
    hide D.SkipDigits, D.IsDigit;
    DigitOf(s[k]);
    SkippedAreDigits(s, k + 1);
    assert s[k..end] == [s[k]] + s[k + 1..end];
  }

  lemma IntegerEndIs(s: string, i: nat) returns (k: nat)
    requires i < |s| && IntegerEnd(s, i).Some?
    ensures k == (if s[i] == '-' then i + 1 else i) && k < |s| && D.IsDigit(s[k])
    ensures var end := IntegerEnd(s, i).value;
      (end == k + 1 || end == D.SkipDigits(s, k + 1)) && (s[k] == '0' ==> end == k + 1)
  {
    hide D.SkipDigits;
    k := if s[i] == '-' then i + 1 else i;
  }

  lemma IntegerParses(s: string, i: nat)
    requires i < |s| && IntegerEnd(s, i).Some?
    ensures IsInteger(s[i..IntegerEnd(s, i).value])
  {
    hide *;
    var end := IntegerEnd(s, i).value;
    var k := IntegerEndIs(s, i);
    DigitsParse(s, k, end);
    DigitOf(s[k]);
    assert s[k..end][0] == s[k];
    assert s[i..k] == if k == i then "" else "-";
    IntegerFrom(s[i..k], s[k..end]);
    assert s[i..end] == s[i..k] + s[k..end];
  }

  lemma FractionParses(s: string, i: nat)
    requires i <= |s|
    ensures IsFraction(s[i..FractionEnd(s, i)])
  {
    hide IsDigits, D.SkipDigits;
    var end := FractionEnd(s, i);
    if end > i {
      DigitsParse(s, i + 1, end);
      assert s[i..end][1..] == s[i + 1..end];
    }
  }

  lemma PowerParses(s: string, i: nat)
    requires i <= |s|
    ensures IsPower(s[i..PowerEnd(s, i)])
  {
    hide IsDigits, D.SkipDigits;
    var end := PowerEnd(s, i);
    if end > i {
      var k := if s[i + 1] == '+' || s[i + 1] == '-' then i + 2 else i + 1;
      DigitsParse(s, k, end);
      DigitOf(s[k]);
      assert s[i..end][k - i..] == s[k..end];
    }
  }

  lemma NumberIs(whole: string, fraction: string, power: string)
    requires IsInteger(whole) && IsFraction(fraction) && IsPower(power)
    ensures Proper(Number(whole, fraction, power)) && Print(Number(whole, fraction, power)) == whole + fraction + power
  {
    hide IsInteger, IsFraction, IsPower;
  }

  lemma NumberEndIs(s: string, i: nat)
    requires i < |s| && NumberEnd(s, i).Some?
    ensures IntegerEnd(s, i).Some?
    ensures NumberEnd(s, i).value == PowerEnd(s, FractionEnd(s, IntegerEnd(s, i).value))
  {
    hide IntegerEnd, FractionEnd, PowerEnd;
  }

  lemma NumberParses(s: string, i: nat) returns (v: Json)
    requires i < |s| && NumberEnd(s, i).Some?
    ensures Proper(v) && Print(v) == s[i..NumberEnd(s, i).value]
  {
    hide *;
    NumberEndIs(s, i);
    var a := IntegerEnd(s, i).value;
    var b := FractionEnd(s, a);
    var c := PowerEnd(s, b);
    IntegerParses(s, i);
    FractionParses(s, a);
    PowerParses(s, b);
    v := Number(s[i..a], s[a..b], s[b..c]);
    NumberIs(s[i..a], s[a..b], s[b..c]);
    assert s[i..c] == s[i..a] + s[a..b] + s[b..c];
  }

  lemma WordParses(s: string, i: nat) returns (v: Json)
    requires i < |s| && WordEnd(s, i).Some?
    ensures Proper(v) && Print(v) == s[i..WordEnd(s, i).value]
  {
    if Spells(s, i, "null") { v := Null; }
    else if Spells(s, i, "true") { v := Boolean(true); }
    else if Spells(s, i, "false") { v := Boolean(false); }
    else if Spells(s, i, "NaN") { v := NotFinite("NaN"); }
    else if Spells(s, i, "Infinity") { v := NotFinite("Infinity"); }
    else { v := NotFinite("-Infinity"); }
  }

  // ---------- values ----------

  /** What the scanner reads is the text of a value. */
  lemma {:induction false} ValueParses(s: string, i: nat) returns (v: Json)
    requires i <= |s| && Value(s, i).Some?
    ensures Proper(v) && Print(v) == s[i..Value(s, i).value]
    decreases |s| - i, 1
  {
    hide StringEnd, NumberEnd, WordEnd, Object, Array, ProperPieces, PiecesText, ProperItem, ProperMember, PrintItems,
      PrintMembers, IsInteger, IsFraction, IsPower;
    var end := Value(s, i).value;
    if s[i] == '"' {
      var pieces := PiecesParse(s, i + 1);
      v := Text(pieces);
      assert s[i..end] == "\"" + s[i + 1..end];
    } else if s[i] == '{' {
      var open, members := ObjectParses(s, i + 1);
      v := Dict(open, members);
      assert s[i..end] == "{" + s[i + 1..end];
    } else if s[i] == '[' {
      var open, items := ArrayParses(s, i + 1);
      v := List(open, items);
      assert s[i..end] == "[" + s[i + 1..end];
    } else if NumberEnd(s, i).Some? {
      v := NumberParses(s, i);
    } else {
      v := WordParses(s, i);
    }
  }

  lemma {:induction false} ArrayParses(s: string, i: nat) returns (open: string, items: seq<Item>)
    requires i <= |s| && Array(s, i).Some?
    ensures Blank(open) && forall k :: 0 <= k < |items| ==> ProperItem(items[k])
    ensures open + PrintItems(items) + "]" == s[i..Array(s, i).value]
    decreases |s| - i, 3
  {
    hide SkipBlank, Elements, Blank, ProperItem, PrintItems;
    var k, end := SkipBlank(s, i), Array(s, i).value;
    SkippedIsBlank(s, i);
    open := s[i..k];
    if k < |s| && s[k] == ']' {
      items := [];
      ItemsParts(items);
      assert s[i..end] == open + "]";
    } else {
      items := ElementsParse(s, k);
      assert s[i..end] == open + s[k..end];
    }
  }

  /** A value and what follows it up to the next one, or to the closing mark. */
  lemma Slices(s: string, i: nat, e: nat, next: nat, q: nat, end: nat)
    requires i <= e <= next < q <= end <= |s|
    ensures s[i..end] == s[i..e] + (s[e..next] + [s[next]] + s[next + 1..q]) + s[q..end]
    ensures s[i..next + 1] == s[i..e] + s[e..next] + [s[next]]
  {
  }

  lemma {:induction false} ElementsParse(s: string, i: nat) returns (items: seq<Item>)
    requires i <= |s| && Elements(s, i).Some?
    ensures items != [] && forall k :: 0 <= k < |items| ==> ProperItem(items[k])
    ensures PrintItems(items) + "]" == s[i..Elements(s, i).value]
    decreases |s| - i, 2
  {
    hide SkipBlank, Value, Blank, Proper, PrintItems, Print;
    var e, end := Value(s, i).value, Elements(s, i).value;
    var value := ValueParses(s, i);
    var next := SkipBlank(s, e);
    SkippedIsBlank(s, e);
    if s[next] == ']' {
      EmptyIsBlank();
      items := [Item(value, s[e..next], "")];
      ItemsParts(items);
      Slices(s, i, e, next, end, end);
    } else {
      var q := SkipBlank(s, next + 1);
      SkippedIsBlank(s, next + 1);
      var rest := ElementsParse(s, q);
      items := [Item(value, s[e..next], s[next + 1..q])] + rest;
      ItemsParts(items);
      assert items[1..] == rest;
      Slices(s, i, e, next, q, end);
    }
  }

  lemma EmptyIsBlank()
    ensures Blank("")
  {
  }

  lemma {:induction false} ObjectParses(s: string, i: nat) returns (open: string, members: seq<Member>)
    requires i <= |s| && Object(s, i).Some?
    ensures Blank(open) && forall k :: 0 <= k < |members| ==> ProperMember(members[k])
    ensures open + PrintMembers(members) + "}" == s[i..Object(s, i).value]
    decreases |s| - i, 3
  {
    hide SkipBlank, Members, Blank, ProperMember, PrintMembers;
    var k, end := SkipBlank(s, i), Object(s, i).value;
    SkippedIsBlank(s, i);
    open := s[i..k];
    if s[k] == '}' {
      members := [];
      MembersParts(members);
      assert s[i..end] == open + "}";
    } else {
      members := MembersParse(s, k + 1);
      assert s[i..end] == open + s[k..end];
    }
  }

  /** The name of a member, with the blanks around its colon. */
  lemma NameParses(s: string, i: nat) returns (name: seq<Piece>, beforeColon: string, afterColon: string)
    requires 1 <= i <= |s| && s[i - 1] == '"' && MemberStart(s, i).Some?
    ensures ProperPieces(name) && Blank(beforeColon) && Blank(afterColon)
    ensures Quote(name) + (beforeColon + ":" + afterColon) == s[i - 1..MemberStart(s, i).value]
  {
    hide SkipBlank, Blank, ProperPieces, PiecesText, StringEnd;
    var k := StringEnd(s, i).value;
    var colon := SkipBlank(s, k);
    var v := SkipBlank(s, colon + 1);
    name := PiecesParse(s, i);
    SkippedIsBlank(s, k);
    SkippedIsBlank(s, colon + 1);
    beforeColon, afterColon := s[k..colon], s[colon + 1..v];
    assert s[i - 1..k] == "\"" + s[i..k];
    Slices(s, i - 1, k, colon, v, v);
  }

  lemma MemberIs(m: Member)
    requires ProperPieces(m.name) && Blank(m.beforeColon) && Blank(m.afterColon)
    requires Proper(m.item.value) && Blank(m.item.before) && Blank(m.item.after)
    ensures ProperMember(m)
    ensures PrintMember(m) == Quote(m.name) + (m.beforeColon + ":" + m.afterColon) + Print(m.item.value)
  {
    hide ProperPieces, Blank, Proper, Print, Quote;
  }

  lemma MembersEnd(s: string, i: nat)
    requires i <= |s| && Members(s, i).Some?
    ensures MemberStart(s, i).Some? && Value(s, MemberStart(s, i).value).Some?
    ensures var e := Value(s, MemberStart(s, i).value).value;
      var next := SkipBlank(s, e);
      && next < |s| && (s[next] == '}' || s[next] == ',')
      && (s[next] == '}' ==> Members(s, i) == Some(next + 1))
      && (s[next] == ',' ==>
           var q := SkipBlank(s, next + 1);
           q < |s| && s[q] == '"' && Members(s, i) == Members(s, q + 1))
  {
    hide Value, MemberStart, SkipBlank;
  }

  lemma LastMember(s: string, i: nat, e: nat, next: nat, m: Member)
    requires i <= e <= next < |s| && s[next] == '}' && PrintMember(m) == s[i..e] && m.item.before == s[e..next]
    ensures PrintMembers([m]) + "}" == s[i..next + 1]
  {
    hide *;
    MembersParts([m]);
    Slices(s, i, e, next, next + 1, next + 1);
  }

  lemma MoreMembersJoined(s: string, i: nat, e: nat, next: nat, q: nat, end: nat, m: Member, rest: seq<Member>)
    requires i <= e <= next < q <= end <= |s| && s[next] == ',' && PrintMember(m) == s[i..e]
    requires m.item.before == s[e..next] && m.item.after == s[next + 1..q]
    requires rest != [] && PrintMembers(rest) + "}" == s[q..end]
    ensures PrintMembers([m] + rest) + "}" == s[i..end]
  {
    hide *;
    MembersParts([m] + rest);
    assert ([m] + rest)[1..] == rest;
    Slices(s, i, e, next, q, end);
  }

  lemma {:induction false} MembersParse(s: string, i: nat) returns (members: seq<Member>)
    requires 1 <= i <= |s| && s[i - 1] == '"' && Members(s, i).Some?
    ensures members != [] && forall k :: 0 <= k < |members| ==> ProperMember(members[k])
    ensures PrintMembers(members) + "}" == s[i - 1..Members(s, i).value]
    decreases |s| - i, 2
  {
    hide *;
    MembersEnd(s, i);
    var v, end := MemberStart(s, i).value, Members(s, i).value;
    var e := Value(s, v).value;
    var name, beforeColon, afterColon := NameParses(s, i);
    var value := ValueParses(s, v);
    var next := SkipBlank(s, e);
    SkippedIsBlank(s, e);
    assert s[i - 1..e] == s[i - 1..v] + s[v..e];
    if s[next] == '}' {
      EmptyIsBlank();
      var m := Member(name, beforeColon, afterColon, Item(value, s[e..next], ""));
      MemberIs(m);
      members := [m];
      LastMember(s, i - 1, e, next, m);
    } else {
      var q := SkipBlank(s, next + 1);
      SkippedIsBlank(s, next + 1);
      var m := Member(name, beforeColon, afterColon, Item(value, s[e..next], s[next + 1..q]));
      MemberIs(m);
      var rest := MembersParse(s, q + 1);
      members := [m] + rest;
      MoreMembersJoined(s, i - 1, e, next, q, end, m, rest);
    }
  }

  lemma EndIsClosed(text: string)
    ensures Closed(text, |text|)
  {
  }

  /** A text is read as one value to its very end if and only if the grammar gives it. */
  lemma ReadsExactlyWhen(text: string)
    ensures Value(text, 0) == Some(|text|) <==> exists v :: Proper(v) && Print(v) == text
  {
    hide *;
    if Value(text, 0) == Some(|text|) {
      var v := ValueParses(text, 0);
      assert text[0..|text|] == text;
    }
    if v :| Proper(v) && Print(v) == text {
      StandsAll(text);
      EndIsClosed(text);
      ValueStands(text, 0, v);
    }
  }

  // ---------- records ----------

  lemma {:induction false} StrippedIs(s: string) returns (gap: string)
    ensures s == gap + A.StripFiller(s) && AllIn(gap, " \r\n\t[,")
  {
    if s != "" && A.IsFiller(s[0]) {
      var more := StrippedIs(s[1..]);
      gap := [s[0]] + more;
      var rest := A.StripFiller(s[1..]);
      assert A.StripFiller(s) == rest;
      FillerIs(s[0], more);
      hide *;
      assert s == [s[0]] + s[1..];
      assert [s[0]] + (more + rest) == [s[0]] + more + rest;
    } else {
      gap := "";
    }
  }

  lemma FillerIs(c: char, more: string)
    requires A.IsFiller(c) && AllIn(more, " \r\n\t[,")
    ensures AllIn([c] + more, " \r\n\t[,")
  {
  }

  ghost predicate IsObjectText(text: string) {
    exists v: Json :: v.Dict? && Proper(v) && Print(v) == text
  }

  /** The text is the records with blanks, commas and opening brackets before each, and then the rest. */
  ghost predicate Holds(text: string, gaps: seq<string>, records: seq<string>, rest: string) {
    && |gaps| == |records| + 1 && (forall i :: 0 <= i < |gaps| ==> AllIn(gaps[i], " \r\n\t[,"))
    && text == Woven(gaps, records) + rest
  }

  ghost function Woven(gaps: seq<string>, records: seq<string>): string
    requires |gaps| == |records| + 1
  {
    if records == [] then gaps[0] else gaps[0] + records[0] + Woven(gaps[1..], records[1..])
  }

  lemma ObjectRead(s: string, end: nat)
    requires s != "" && s[0] == '{' && Decode(s) == Some(end)
    ensures IsObjectText(s[..end])
  {
    hide Object, PrintMembers, PrintItems, Quote, Proper;
    var v := ValueParses(s, 0);
    assert s[0..end] == s[..end] && Print(v)[0] == '{';
    ObjectStarts(v);
  }

  lemma NumberStarts(v: Json)
    requires v.Number? && Proper(v)
    ensures Print(v) != "" && (Print(v)[0] == '-' || '0' <= Print(v)[0] <= '9')
  {
    hide IsDigits, IsInteger, IsFraction, IsPower;
    var minus, digits := IntegerParts(v.whole);
  }

  lemma ObjectStarts(v: Json)
    requires Proper(v) && Print(v) != "" && Print(v)[0] == '{'
    ensures v.Dict?
  {
    hide PrintMembers, PrintItems;
    if v.Number? { NumberStarts(v); }
  }

  lemma WovenMore(gap: string, record: string, gaps: seq<string>, records: seq<string>, tail: string, rest: string)
    requires Holds(tail, gaps, records, rest) && AllIn(gap, " \r\n\t[,")
    ensures Holds(gap + record + tail, [gap] + gaps, [record] + records, rest)
  {
    hide AllIn;
    assert ([gap] + gaps)[1..] == gaps && ([record] + records)[1..] == records;
    assert gap + record + (Woven(gaps, records) + rest) == gap + record + Woven(gaps, records) + rest;
  }

  lemma NothingWoven(gap: string, rest: string)
    requires AllIn(gap, " \r\n\t[,")
    ensures Holds(gap + rest, [gap], [], rest)
  {
    hide AllIn;
  }

  /** The reader loses nothing and invents nothing: its records, in order, are the objects of the text, with nothing but
      blanks, commas and opening brackets before each, and what it leaves is the end of the text. */
  lemma {:induction false} RecordsAreObjects(text: string) returns (gaps: seq<string>)
    requires A.Drain(text).Stuck?
    ensures var d := A.Drain(text);
      Holds(text, gaps, d.records, d.rest) && forall i :: 0 <= i < |d.records| ==> IsObjectText(d.records[i])
    decreases |text|
  {
    hide A.Drain, Decode, Holds, IsObjectText, AllIn;
    A.DrainOnce(text);
    var s := A.StripFiller(text);
    var gap := StrippedIs(text);
    if s == "" || s[0] == ']' || Decode(s).None? {
      gaps := [gap];
      NothingWoven(gap, s);
    } else {
      var end := Decode(s).value;
      ObjectRead(s, end);
      var d := A.Drain(s[end..]);
      var more := RecordsAreObjects(s[end..]);
      gaps := [gap] + more;
      WovenMore(gap, s[..end], more, d.records, s[end..], d.rest);
      assert text == gap + s[..end] + s[end..] by { assert s == s[..end] + s[end..]; }
    }
  }
}
