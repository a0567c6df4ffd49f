/** Where a JSON value ends (sections 2 to 7 of RFC 8259, with the decoder's NaN and infinities), and what happens to
    that when more text follows. */
module JsonScan {
  import opened Wrappers
  import opened DeckText

  predicate IsBlank(c: char) { c == ' ' || c == '\t' || c == '\n' || c == '\r' }

  predicate IsHex(c: char) { IsDigit(c) || 'a' <= c <= 'f' || 'A' <= c <= 'F' }

  function SkipBlank(s: string, i: nat): (j: nat)
    requires i <= |s|
    ensures i <= j <= |s|
    decreases |s| - i
  {
    if i < |s| && IsBlank(s[i]) then SkipBlank(s, i + 1) else i
  }

  /** The length of the escape sequence at `i`, where a backslash stands. */
  function EscapeLength(s: string, i: nat): (n: Option<nat>)
    requires i < |s|
    ensures n.Some? ==> 2 <= n.value <= |s| - i
  {
    if i + 1 < |s| && s[i + 1] in "\"\\/bfnrt" then Some(2)
    else if i + 6 <= |s| && s[i + 1] == 'u' && IsHex(s[i + 2]) && IsHex(s[i + 3]) && IsHex(s[i + 4]) &&
      IsHex(s[i + 5]) then Some(6)
    else None
  }

  /** The end of a string whose opening quote is before `i`; control characters are refused. */
  function StringEnd(s: string, i: nat): (j: Option<nat>)
    requires i <= |s|
    ensures j.Some? ==> i < j.value <= |s|
    decreases |s| - i
  {
    if i == |s| then None
    else if s[i] == '"' then Some(i + 1)
    else if s[i] == '\\' then
      match EscapeLength(s, i)
      case None => None
      case Some(n) => StringEnd(s, i + n)
    else if s[i] < ' ' then None
    else StringEnd(s, i + 1)
  }

  // ---------- numbers ----------

  function IntegerEnd(s: string, i: nat): (j: Option<nat>)
    requires i < |s|
    ensures j.Some? ==> i < j.value <= |s|
  {
    var k := if s[i] == '-' then i + 1 else i;
    if k < |s| && s[k] == '0' then Some(k + 1)
    else if k < |s| && '1' <= s[k] <= '9' then Some(SkipDigits(s, k + 1))
    else None
  }

  function FractionEnd(s: string, i: nat): (j: nat)
    requires i <= |s|
    ensures i <= j <= |s|
  {
    if i + 1 < |s| && s[i] == '.' && IsDigit(s[i + 1]) then SkipDigits(s, i + 2) else i
  }

  function PowerEnd(s: string, i: nat): (j: nat)
    requires i <= |s|
    ensures i <= j <= |s|
  {
    if i + 1 < |s| && (s[i] == 'e' || s[i] == 'E') then
      var k := if s[i + 1] == '+' || s[i + 1] == '-' then i + 2 else i + 1;
      if k < |s| && IsDigit(s[k]) then SkipDigits(s, k + 1) else i
    else i
  }

  function NumberEnd(s: string, i: nat): (j: Option<nat>)
    requires i < |s|
    ensures j.Some? ==> i < j.value <= |s|
  {
    match IntegerEnd(s, i)
    case None => None
    case Some(k) => Some(PowerEnd(s, FractionEnd(s, k)))
  }

  // ---------- values ----------

  predicate Spells(s: string, i: nat, word: string)
    requires i <= |s|
  {
    |word| <= |s| - i && s[i..i + |word|] == word
  }

  function WordEnd(s: string, i: nat): (j: Option<nat>)
    requires i < |s|
    ensures j.Some? ==> i < j.value <= |s|
  {
    if Spells(s, i, "null") || Spells(s, i, "true") then Some(i + 4)
    else if Spells(s, i, "false") then Some(i + 5)
    else if Spells(s, i, "NaN") then Some(i + 3)
    else if Spells(s, i, "Infinity") then Some(i + 8)
    else if Spells(s, i, "-Infinity") then Some(i + 9)
    else None
  }

  /** The end of the value at `i`; `None` where the decoder raises. */
  function Value(s: string, i: nat): (j: Option<nat>)
    requires i <= |s|
    ensures j.Some? ==> i < j.value <= |s|
    decreases |s| - i, 1
  {
    if i == |s| then None
    else if s[i] == '"' then StringEnd(s, i + 1)
    else if s[i] == '{' then Object(s, i + 1)
    else if s[i] == '[' then Array(s, i + 1)
    else if NumberEnd(s, i).Some? then NumberEnd(s, i)
    else WordEnd(s, i)
  }

  function Object(s: string, i: nat): (j: Option<nat>)
    requires i <= |s|
    ensures j.Some? ==> i < j.value <= |s|
    decreases |s| - i, 3
  {
    var k := SkipBlank(s, i);
    if k == |s| then None
    else if s[k] == '}' then Some(k + 1)
    else if s[k] == '"' then Members(s, k + 1)
    else None
  }

  /** Where the value of a member starts whose key's opening quote is before `i`. */
  function MemberStart(s: string, i: nat): (j: Option<nat>)
    requires i <= |s|
    ensures j.Some? ==> i < j.value <= |s|
  {
    match StringEnd(s, i)
    case None => None
    case Some(k) =>
      var colon := SkipBlank(s, k);
      if colon == |s| || s[colon] != ':' then None else Some(SkipBlank(s, colon + 1))
  }

  /** The rest of an object from a member whose opening quote is before `i`, ... */
  function Members(s: string, i: nat): (j: Option<nat>)
    requires i <= |s|
    ensures j.Some? ==> i < j.value <= |s|
    decreases |s| - i, 2
  {
    match MemberStart(s, i)
    case None => None
    case Some(v) =>
      match Value(s, v)
      case None => None
      case Some(e) => MoreMembers(s, e)
  }

  /** ... and from behind a member. */
  function MoreMembers(s: string, e: nat): (j: Option<nat>)
    requires e <= |s|
    ensures j.Some? ==> e < j.value <= |s|
    decreases |s| - e, 0
  {
    var next := SkipBlank(s, e);
    if next == |s| then None
    else if s[next] == '}' then Some(next + 1)
    else if s[next] != ',' then None
    else
      var q := SkipBlank(s, next + 1);
      if q < |s| && s[q] == '"' then Members(s, q + 1) else None
  }

  function Array(s: string, i: nat): (j: Option<nat>)
    requires i <= |s|
    ensures j.Some? ==> i < j.value <= |s|
    decreases |s| - i, 3
  {
    var k := SkipBlank(s, i);
    if k < |s| && s[k] == ']' then Some(k + 1) else Elements(s, k)
  }

  function Elements(s: string, i: nat): (j: Option<nat>)
    requires i <= |s|
    ensures j.Some? ==> i < j.value <= |s|
    decreases |s| - i, 2
  {
    match Value(s, i)
    case None => None
    case Some(e) => MoreElements(s, e)
  }

  function MoreElements(s: string, e: nat): (j: Option<nat>)
    requires e <= |s|
    ensures j.Some? ==> e < j.value <= |s|
    decreases |s| - e, 0
  {
    var next := SkipBlank(s, e);
    if next == |s| then None
    else if s[next] == ']' then Some(next + 1)
    else if s[next] == ',' then Elements(s, SkipBlank(s, next + 1))
    else None
  }

  // ---------- more text ----------

  lemma {:induction false} BlankStable(s: string, u: string, i: nat)
    requires s <= u && i <= |s|
    ensures SkipBlank(s, i) < |s| ==> SkipBlank(u, i) == SkipBlank(s, i)
    ensures SkipBlank(u, i) <= |s| ==> SkipBlank(s, i) == SkipBlank(u, i)
    decreases |s| - i
  {
    if i < |s| && IsBlank(s[i]) { BlankStable(s, u, i + 1); }
  }

  lemma {:induction false} DigitsStable(s: string, u: string, i: nat)
    requires s <= u && i <= |s|
    ensures SkipDigits(s, i) < |s| ==> SkipDigits(u, i) == SkipDigits(s, i)
    ensures SkipDigits(u, i) <= |s| ==> SkipDigits(s, i) == SkipDigits(u, i)
    decreases |s| - i
  {
    if i < |s| && IsDigit(s[i]) { DigitsStable(s, u, i + 1); }
  }

  lemma {:induction false} StringStable(s: string, u: string, i: nat)
    requires s <= u && i <= |s|
    ensures StringEnd(s, i).Some? ==> StringEnd(u, i) == StringEnd(s, i)
    ensures StringEnd(u, i).Some? && StringEnd(u, i).value <= |s| ==> StringEnd(s, i) == StringEnd(u, i)
    decreases |s| - i
  {
    if i < |s| && s[i] == '\\' {
      if EscapeLength(s, i).Some? { StringStable(s, u, i + EscapeLength(s, i).value); }
    } else if i < |s| && s[i] != '"' {
      StringStable(s, u, i + 1);
    }
  }

  /** A character that can follow a value inside an object or array. */
  predicate Ends(c: char) { IsBlank(c) || c == ',' || c == '}' || c == ']' }

  lemma IntegerStable(s: string, u: string, i: nat)
    requires s <= u && i < |s|
    ensures IntegerEnd(s, i).Some? ==> IntegerEnd(u, i).Some?
    ensures IntegerEnd(s, i).Some? && IntegerEnd(s, i).value < |s| ==> IntegerEnd(u, i) == IntegerEnd(s, i)
    ensures IntegerEnd(u, i).Some? && IntegerEnd(u, i).value <= |s| ==> IntegerEnd(s, i) == IntegerEnd(u, i)
  {
    var k := if s[i] == '-' then i + 1 else i;
    if k < |s| { DigitsStable(s, u, k + 1); }
  }

  lemma FractionStable(s: string, u: string, i: nat)
    requires s <= u && i <= |s|
    ensures FractionEnd(s, i) < |s| && s[FractionEnd(s, i)] != '.' ==> FractionEnd(u, i) == FractionEnd(s, i)
    ensures FractionEnd(u, i) <= |s| ==> FractionEnd(s, i) == FractionEnd(u, i)
  {
    if i + 2 <= |s| { DigitsStable(s, u, i + 2); }
  }

  lemma PowerStable(s: string, u: string, i: nat)
    requires s <= u && i <= |s|
    ensures PowerEnd(s, i) < |s| && s[PowerEnd(s, i)] != 'e' && s[PowerEnd(s, i)] != 'E' ==>
      PowerEnd(u, i) == PowerEnd(s, i)
    ensures PowerEnd(u, i) <= |s| ==> PowerEnd(s, i) == PowerEnd(u, i)
  {
    if i + 2 <= |s| { DigitsStable(s, u, i + 2); }
    if i + 3 <= |s| { DigitsStable(s, u, i + 3); }
  }

  lemma NumberStable(s: string, u: string, i: nat)
    requires s <= u && i < |s|
    ensures NumberEnd(s, i).Some? ==> NumberEnd(u, i).Some?
    ensures NumberEnd(s, i).Some? && NumberEnd(s, i).value < |s| && Ends(s[NumberEnd(s, i).value]) ==>
      NumberEnd(u, i) == NumberEnd(s, i)
    ensures NumberEnd(u, i).Some? && NumberEnd(u, i).value <= |s| ==> NumberEnd(s, i) == NumberEnd(u, i)
  {
    IntegerStable(s, u, i);
    if IntegerEnd(s, i).Some? {
      var k := IntegerEnd(s, i).value;
      FractionStable(s, u, k);
      PowerStable(s, u, FractionEnd(s, k));
    }
    hide IntegerEnd;
  }

  /** In the shorter text the value ends where it can be told to end. */
  predicate Settled(s: string, i: nat)
    requires i < |s|
  {
    Value(s, i).Some? &&
    (NumberEnd(s, i).Some? && s[i] != '"' && s[i] != '{' && s[i] != '[' ==>
      Value(s, i).value < |s| && Ends(s[Value(s, i).value]))
  }

  lemma {:induction false} ValueStable(s: string, u: string, i: nat)
    requires s <= u && i < |s| && Settled(s, i)
    ensures Value(u, i) == Value(s, i)
    decreases |s| - i, 1
  {
    hide StringEnd, NumberEnd;
    if s[i] == '"' { StringStable(s, u, i + 1); }
    else if s[i] == '{' { ObjectStable(s, u, i + 1); }
    else if s[i] == '[' { ArrayStable(s, u, i + 1); }
    else { NumberStable(s, u, i); WordStable(s, u, i); }
  }

  lemma SpellsStable(s: string, u: string, i: nat, word: string)
    requires s <= u && i <= |s|
    ensures Spells(s, i, word) ==> Spells(u, i, word)
    ensures Spells(u, i, word) && i + |word| <= |s| ==> Spells(s, i, word)
    ensures Spells(u, i, word) && word != "" ==> u[i] == word[0] && u[i..][..|word|] == word
  {
    if i + |word| <= |s| { assert s[i..i + |word|] == u[i..i + |word|]; }
  }

  lemma WordStable(s: string, u: string, i: nat)
    requires s <= u && i < |s|
    ensures WordEnd(s, i).Some? ==> NumberEnd(u, i).None? && WordEnd(u, i) == WordEnd(s, i)
    ensures WordEnd(u, i).Some? && WordEnd(u, i).value <= |s| ==>
      NumberEnd(s, i).None? && WordEnd(s, i) == WordEnd(u, i)
  {
    SpellsStable(s, u, i, "null");
    SpellsStable(s, u, i, "true");
    SpellsStable(s, u, i, "false");
    SpellsStable(s, u, i, "NaN");
    SpellsStable(s, u, i, "Infinity");
    SpellsStable(s, u, i, "-Infinity");
    assert Spells(s, i, "-Infinity") ==> s[i..i + 9][1] == 'I';
    assert Spells(u, i, "-Infinity") ==> u[i..i + 9][1] == 'I';
    hide Spells, SkipDigits, PowerEnd, FractionEnd;
  }

  lemma {:induction false} ObjectStable(s: string, u: string, i: nat)
    requires s <= u && i <= |s| && Object(s, i).Some?
    ensures Object(u, i) == Object(s, i)
    decreases |s| - i, 3
  {
    hide SkipBlank, Members, StringEnd;
    BlankStable(s, u, i);
    var k := SkipBlank(s, i);
    if s[k] == '"' { MembersStable(s, u, k + 1); }
  }

  lemma MemberStartStable(s: string, u: string, i: nat)
    requires s <= u && i <= |s|
    ensures MemberStart(s, i).Some? && MemberStart(s, i).value < |s| ==> MemberStart(u, i) == MemberStart(s, i)
    ensures MemberStart(u, i).Some? && MemberStart(u, i).value <= |s| ==> MemberStart(s, i) == MemberStart(u, i)
  {
    hide SkipBlank, StringEnd;
    StringStable(s, u, i);
    var end := if StringEnd(s, i).Some? then StringEnd(s, i) else StringEnd(u, i);
    if end.Some? && end.value <= |s| {
      BlankStable(s, u, end.value);
      if SkipBlank(s, end.value) < |s| { BlankStable(s, u, SkipBlank(s, end.value) + 1); }
    }
  }

  lemma {:induction false} MembersStable(s: string, u: string, i: nat)
    requires s <= u && i <= |s| && Members(s, i).Some?
    ensures Members(u, i) == Members(s, i)
    decreases |s| - i, 2
  {
    hide MemberStart, Value, MoreMembers;
    MemberStartStable(s, u, i);
    var v := MemberStart(s, i).value;
    var e := Value(s, v).value;
    MoreMembersStable(s, u, e);
    ValueStable(s, u, v);
  }

  lemma {:induction false} MoreMembersStable(s: string, u: string, e: nat)
    requires s <= u && e <= |s| && MoreMembers(s, e).Some?
    ensures MoreMembers(u, e) == MoreMembers(s, e) && e < |s| && Ends(s[e])
    decreases |s| - e, 0
  {
    hide SkipBlank, Members;
    BlankStable(s, u, e);
    AfterValue(s, e);
    var next := SkipBlank(s, e);
    if s[next] == ',' {
      BlankStable(s, u, next + 1);
      MembersStable(s, u, SkipBlank(s, next + 1) + 1);
    }
  }

  lemma AfterValue(s: string, e: nat)
    requires e <= |s| && SkipBlank(s, e) < |s| && s[SkipBlank(s, e)] in ",}]"
    ensures e < |s| && Ends(s[e])
  {
  }

  lemma {:induction false} ArrayStable(s: string, u: string, i: nat)
    requires s <= u && i <= |s| && Array(s, i).Some?
    ensures Array(u, i) == Array(s, i)
    decreases |s| - i, 3
  {
    hide SkipBlank, Elements, StringEnd;
    BlankStable(s, u, i);
    var k := SkipBlank(s, i);
    if !(k < |s| && s[k] == ']') { ElementsStable(s, u, k); }
  }

  lemma {:induction false} ElementsStable(s: string, u: string, i: nat)
    requires s <= u && i <= |s| && Elements(s, i).Some?
    ensures Elements(u, i) == Elements(s, i)
    decreases |s| - i, 2
  {
    hide Value, MoreElements;
    var e := Value(s, i).value;
    MoreElementsStable(s, u, e);
    ValueStable(s, u, i);
  }

  lemma {:induction false} MoreElementsStable(s: string, u: string, e: nat)
    requires s <= u && e <= |s| && MoreElements(s, e).Some?
    ensures MoreElements(u, e) == MoreElements(s, e) && e < |s| && Ends(s[e])
    decreases |s| - e, 0
  {
    hide SkipBlank, Elements;
    BlankStable(s, u, e);
    AfterValue(s, e);
    var next := SkipBlank(s, e);
    if s[next] == ',' {
      BlankStable(s, u, next + 1);
      ElementsStable(s, u, SkipBlank(s, next + 1));
    }
  }

  // ---------- less text ----------

  /** A value that ends within a prefix ends there when only the prefix is given. */
  lemma {:induction false} ValueWithin(s: string, u: string, i: nat)
    requires s <= u && i < |s| && Value(u, i).Some? && Value(u, i).value <= |s|
    ensures Value(s, i) == Value(u, i)
    decreases |s| - i, 1
  {
    hide StringEnd, NumberEnd;
    if s[i] == '"' { StringStable(s, u, i + 1); }
    else if s[i] == '{' { ObjectWithin(s, u, i + 1); }
    else if s[i] == '[' { ArrayWithin(s, u, i + 1); }
    else { NumberStable(s, u, i); WordStable(s, u, i); }
  }

  lemma {:induction false} ObjectWithin(s: string, u: string, i: nat)
    requires s <= u && i <= |s| && Object(u, i).Some? && Object(u, i).value <= |s|
    ensures Object(s, i) == Object(u, i)
    decreases |s| - i, 3
  {
    hide SkipBlank, Members, StringEnd;
    BlankStable(s, u, i);
    var k := SkipBlank(u, i);
    if u[k] == '"' { MembersWithin(s, u, k + 1); }
  }

  lemma {:induction false} MembersWithin(s: string, u: string, i: nat)
    requires s <= u && i <= |s| && Members(u, i).Some? && Members(u, i).value <= |s|
    ensures Members(s, i) == Members(u, i)
    decreases |s| - i, 2
  {
    hide MemberStart, Value, MoreMembers;
    MemberStartStable(s, u, i);
    var v := MemberStart(u, i).value;
    ValueWithin(s, u, v);
    MoreMembersWithin(s, u, Value(u, v).value);
  }

  lemma {:induction false} MoreMembersWithin(s: string, u: string, e: nat)
    requires s <= u && e <= |s| && MoreMembers(u, e).Some? && MoreMembers(u, e).value <= |s|
    ensures MoreMembers(s, e) == MoreMembers(u, e)
    decreases |s| - e, 0
  {
    hide SkipBlank, Members;
    BlankStable(s, u, e);
    var next := SkipBlank(u, e);
    if u[next] == ',' {
      BlankStable(s, u, next + 1);
      MembersWithin(s, u, SkipBlank(u, next + 1) + 1);
    }
  }

  lemma {:induction false} ArrayWithin(s: string, u: string, i: nat)
    requires s <= u && i <= |s| && Array(u, i).Some? && Array(u, i).value <= |s|
    ensures Array(s, i) == Array(u, i)
    decreases |s| - i, 3
  {
    hide SkipBlank, Elements, StringEnd;
    BlankStable(s, u, i);
    var k := SkipBlank(u, i);
    if u[k] != ']' { ElementsWithin(s, u, k); }
  }

  lemma {:induction false} ElementsWithin(s: string, u: string, i: nat)
    requires s <= u && i <= |s| && Elements(u, i).Some? && Elements(u, i).value <= |s|
    ensures Elements(s, i) == Elements(u, i)
    decreases |s| - i, 2
  {
    hide Value, MoreElements;
    ValueWithin(s, u, i);
    MoreElementsWithin(s, u, Value(u, i).value);
  }

  lemma {:induction false} MoreElementsWithin(s: string, u: string, e: nat)
    requires s <= u && e <= |s| && MoreElements(u, e).Some? && MoreElements(u, e).value <= |s|
    ensures MoreElements(s, e) == MoreElements(u, e)
    decreases |s| - e, 0
  {
    hide SkipBlank, Elements;
    BlankStable(s, u, e);
    var next := SkipBlank(u, e);
    if u[next] == ',' {
      BlankStable(s, u, next + 1);
      ElementsWithin(s, u, SkipBlank(u, next + 1));
    }
  }

  // ---------- whole texts ----------

  /** `raw_decode`: the end of the value a text starts with. */
  function Decode(s: string): (j: Option<nat>)
    ensures j.Some? ==> 0 < j.value <= |s|
  {
    Value(s, 0)
  }

  /** A decoded object is decoded the same when more text follows, and anything decoded still decodes. */
  lemma DecodeMore(s: string, u: string)
    requires s <= u && Decode(s).Some?
    ensures Decode(u).Some?
    ensures s[0] == '{' ==> Decode(u) == Decode(s)
  {
    hide StringEnd, NumberEnd;
    if Settled(s, 0) { ValueStable(s, u, 0); } else { NumberStable(s, u, 0); }
  }

  /** No proper prefix of an object's text is a complete value. */
  lemma NoEarlyObject(u: string, k: nat)
    requires u != "" && u[0] == '{' && Decode(u).Some? && k < Decode(u).value
    ensures Decode(u[..k]).None?
  {
    if k > 0 && Decode(u[..k]).Some? { DecodeMore(u[..k], u); }
  }

  /** A value whose end is inside the text is already decoded there. */
  lemma DecodeLess(s: string, u: string)
    requires s <= u && s != "" && Decode(u).Some? && Decode(u).value <= |s|
    ensures Decode(s) == Decode(u)
  {
    ValueWithin(s, u, 0);
  }
}
