/** Lines and assignments of a historical input deck, as text. */
module DeckText {
  import opened Wrappers

  // ---------- lines ----------

  /** The characters at which `str.splitlines` breaks. */
  predicate IsBreak(c: char) {
    c == '\n' || c == '\r' || 0xb <= c as int <= 0xc || 0x1c <= c as int <= 0x1e || c as int in {0x85, 0x2028, 0x2029}
  }

  /** The length of the first line, its line break included. */
  function LineLength(s: string): (n: nat)
    requires s != ""
    ensures 1 <= n <= |s|
  {
    if s[0] == '\r' && |s| > 1 && s[1] == '\n' then 2
    else if IsBreak(s[0]) || |s| == 1 then 1
    else 1 + LineLength(s[1..])
  }

  /** `splitlines(keepends=True)`. */
  function SplitLines(s: string): seq<string> {
    if s == "" then [] else [s[..LineLength(s)]] + SplitLines(s[LineLength(s)..])
  }

  function Join(lines: seq<string>): string {
    if lines == [] then "" else lines[0] + Join(lines[1..])
  }

  /** A line that ends in a line feed and has no other break. */
  predicate IsLine(line: string) {
    line != "" && line[|line| - 1] == '\n' && forall i :: 0 <= i < |line| - 1 ==> !IsBreak(line[i])
  }

  lemma {:induction false} FirstLine(line: string, rest: string)
    requires IsLine(line)
    ensures LineLength(line + rest) == |line|
  {
    assert (line + rest)[0] == line[0];
    if |line| > 1 {
      assert (line + rest)[1..] == line[1..] + rest;
      FirstLine(line[1..], rest);
    }
  }

  /** Joining proper lines and splitting again gives the lines back. */
  lemma {:induction false} SplitOfJoin(lines: seq<string>)
    requires forall i :: 0 <= i < |lines| ==> IsLine(lines[i])
    ensures SplitLines(Join(lines)) == lines
  {
    if lines != [] {
      FirstLine(lines[0], Join(lines[1..]));
      assert Join(lines)[|lines[0]|..] == Join(lines[1..]);
      SplitOfJoin(lines[1..]);
    }
  }

  lemma {:induction false} LineLengthMeaning(s: string)
    requires s != ""
    ensures s[LineLength(s) - 1] == '\n' && '\r' !in s[..LineLength(s)] ==> IsLine(s[..LineLength(s)])
    decreases |s|
  {
    var n := LineLength(s);
    if n > 1 && !(s[0] == '\r' && s[1] == '\n') {
      LineLengthMeaning(s[1..]);
      assert s[..n] == [s[0]] + s[1..][..n - 1];
      assert s[1..][..n - 1] == s[..n][1..];
    }
  }

  /** Splitting loses nothing, and lines that all end in a bare line feed are proper lines. */
  lemma {:induction false} JoinOfSplit(s: string)
    ensures Join(SplitLines(s)) == s
    ensures forall i :: 0 <= i < |SplitLines(s)| ==>
      SplitLines(s)[i] != "" &&
        (SplitLines(s)[i][|SplitLines(s)[i]| - 1] == '\n' && '\r' !in SplitLines(s)[i] ==> IsLine(SplitLines(s)[i]))
    decreases |s|
  {
    hide IsLine, LineLength;
    if s != "" {
      var n := LineLength(s);
      LineLengthMeaning(s);
      JoinOfSplit(s[n..]);
      assert SplitLines(s) == [s[..n]] + SplitLines(s[n..]);
      assert Join(SplitLines(s)) == s[..n] + Join(SplitLines(s[n..]));
      assert s == s[..n] + s[n..];
    }
  }

  // ---------- spaces ----------

  /** Python's whitespace, for `str.strip` and for `\s`. */
  predicate IsSpace(c: char) {
    var n := c as int;
    9 <= n <= 13 || 0x1c <= n <= 0x20 || n in {0x85, 0xa0, 0x1680, 0x2028, 0x2029, 0x202f, 0x205f, 0x3000} ||
      0x2000 <= n <= 0x200a
  }

  function SkipSpace(s: string, i: nat): (j: nat)
    requires i <= |s|
    ensures i <= j <= |s|
    decreases |s| - i
  {
    if i < |s| && IsSpace(s[i]) then SkipSpace(s, i + 1) else i
  }

  function DropTrailing(s: string): string {
    if s != "" && IsSpace(s[|s| - 1]) then DropTrailing(s[..|s| - 1]) else s
  }

  function Strip(s: string): string {
    DropTrailing(s[SkipSpace(s, 0)..])
  }

  predicate AllSpace(s: string) {
    forall c :: c in s ==> IsSpace(c)
  }

  lemma {:induction false} SkippedIsSpace(s: string, i: nat)
    requires i <= |s|
    ensures AllSpace(s[i..SkipSpace(s, i)])
    ensures SkipSpace(s, i) < |s| ==> !IsSpace(s[SkipSpace(s, i)])
    decreases |s| - i
  {
    if i < |s| && IsSpace(s[i]) {
      SkippedIsSpace(s, i + 1);
      assert s[i..SkipSpace(s, i)] == [s[i]] + s[i + 1..SkipSpace(s, i)];
    }
  }

  lemma {:induction false} DroppedIsSpace(s: string) returns (after: string)
    ensures s == DropTrailing(s) + after && AllSpace(after)
    ensures DropTrailing(s) != "" ==> !IsSpace(DropTrailing(s)[|DropTrailing(s)| - 1])
  {
    after := "";
    if s != "" && IsSpace(s[|s| - 1]) {
      after := DroppedIsSpace(s[..|s| - 1]);
      after := after + [s[|s| - 1]];
    }
  }

  /** Stripping takes whitespace off both ends, all of it and nothing else. */
  lemma StripMeans(s: string) returns (before: string, after: string)
    ensures s == before + Strip(s) + after && AllSpace(before) && AllSpace(after)
    ensures Strip(s) != "" ==> !IsSpace(Strip(s)[0]) && !IsSpace(Strip(s)[|Strip(s)| - 1])
  {
    hide SkipSpace, DropTrailing, IsSpace, AllSpace;
    var i := SkipSpace(s, 0);
    SkippedIsSpace(s, 0);
    before := s[..i];
    assert before == s[0..i];
    after := DroppedIsSpace(s[i..]);
    assert s == before + s[i..];
    assert s[i..] == Strip(s) + after;
    if Strip(s) != "" { assert Strip(s)[0] == s[i..][0]; }
  }

  // ---------- assignments ----------

  predicate IsDigit(c: char) { '0' <= c <= '9' }

  predicate IsLetter(c: char) { 'a' <= c <= 'z' || 'A' <= c <= 'Z' }

  predicate IsKeyChar(c: char) { IsLetter(c) || IsDigit(c) || c == '_' }

  function Lower(s: string): (r: string)
    ensures |r| == |s|
  {
    seq(|s|, i requires 0 <= i < |s| => if 'A' <= s[i] <= 'Z' then (s[i] as int + 32) as char else s[i])
  }

  function SkipDigits(s: string, i: nat): (j: nat)
    requires i <= |s|
    ensures i <= j <= |s|
    decreases |s| - i
  {
    if i < |s| && IsDigit(s[i]) then SkipDigits(s, i + 1) else i
  }

  function SkipKeyChars(s: string, i: nat): (j: nat)
    requires i <= |s|
    ensures i <= j <= |s|
    decreases |s| - i
  {
    if i < |s| && IsKeyChar(s[i]) then SkipKeyChars(s, i + 1) else i
  }

  /** The end of `[a-z_][a-z0-9_]*(\(\d+\))?` from `i`. */
  function KeyEnd(s: string, i: nat): (j: Option<nat>)
    requires i <= |s|
    ensures j.Some? ==> i < j.value <= |s|
  {
    if i == |s| || !(IsLetter(s[i]) || s[i] == '_') then None
    else
      var k := SkipKeyChars(s, i + 1);
      if k < |s| && s[k] == '(' then
        var d := SkipDigits(s, k + 1);
        if k + 1 < d < |s| && s[d] == ')' then Some(d + 1) else None
      else Some(k)
  }

  /** The end of the quoted text whose contents start at `i`; a doubled quote is part of it. */
  function QuoteEnd(s: string, i: nat): (j: Option<nat>)
    requires i <= |s|
    ensures j.Some? ==> i < j.value <= |s|
    decreases |s| - i
  {
    if i == |s| then None
    else if s[i] != '\'' then QuoteEnd(s, i + 1)
    else if i + 1 < |s| && s[i + 1] == '\'' then QuoteEnd(s, i + 2)
    else Some(i + 1)
  }

  /** The end of a number: sign, digits with an optional point, optional e or d exponent. */
  function NumberEnd(s: string, i: nat): (j: Option<nat>)
    requires i <= |s|
    ensures j.Some? ==> i < j.value <= |s|
  {
    var a := if i < |s| && (s[i] == '+' || s[i] == '-') then i + 1 else i;
    var b := SkipDigits(s, a);
    if a < b then
      Some(ExponentEnd(s, if b < |s| && s[b] == '.' then SkipDigits(s, b + 1) else b))
    else if a < |s| && s[a] == '.' && SkipDigits(s, a + 1) > a + 1 then
      Some(ExponentEnd(s, SkipDigits(s, a + 1)))
    else None
  }

  function ExponentEnd(s: string, i: nat): (j: nat)
    requires i <= |s|
    ensures i <= j <= |s|
  {
    if i < |s| && s[i] in {'e', 'E', 'd', 'D'} then
      var a := if i + 1 < |s| && (s[i + 1] == '+' || s[i + 1] == '-') then i + 2 else i + 1;
      var b := SkipDigits(s, a);
      if a < b then b else i
    else i
  }

  /** The end of `.TRUE.` or `.FALSE.`, in any letter case. */
  function LogicalEnd(s: string, i: nat): (j: Option<nat>)
    requires i <= |s|
    ensures j.Some? ==> i < j.value <= |s|
  {
    if i + 6 <= |s| && Lower(s[i..i + 6]) == ".true." then Some(i + 6)
    else if i + 7 <= |s| && Lower(s[i..i + 7]) == ".false." then Some(i + 7)
    else None
  }

  function LiteralEnd(s: string, i: nat): (j: Option<nat>)
    requires i <= |s|
    ensures j.Some? ==> i < j.value <= |s|
  {
    if i < |s| && s[i] == '\'' then QuoteEnd(s, i + 1)
    else if LogicalEnd(s, i).Some? then LogicalEnd(s, i)
    else NumberEnd(s, i)
  }

  /** Spaces, at most one comma, and spaces up to the end. */
  predicate OnlyComma(s: string, i: nat)
    requires i <= |s|
  {
    var j := SkipSpace(s, i);
    var k := if j < |s| && s[j] == ',' then j + 1 else j;
    SkipSpace(s, k) == |s|
  }

  /** `key = literal` with an optional trailing comma: the lower-cased key and the literal. */
  function ParseAssign(s: string): Option<(string, string)> {
    var i := SkipSpace(s, 0);
    var j := KeyEnd(s, i);
    if j.None? then None else
    var k := SkipSpace(s, j.value);
    if k == |s| || s[k] != '=' then None else
    var l := SkipSpace(s, k + 1);
    var m := LiteralEnd(s, l);
    if m.None? || !OnlyComma(s, m.value) then None
    else Some((Lower(s[i..j.value]), s[l..m.value]))
  }

  // ---------- written lines ----------

  /** The line that the rewriter writes for a field. */
  function FieldLine(key: string, literal: string): string {
    "  " + key + " = " + literal + ",\n"
  }

  /** A key as the rewriter writes it: lower-case, no subscript. */
  predicate PlainKey(key: string) {
    && key != "" && ('a' <= key[0] <= 'z' || key[0] == '_')
    && forall i :: 0 <= i < |key| ==> 'a' <= key[i] <= 'z' || IsDigit(key[i]) || key[i] == '_'
  }

  predicate Digits(s: string) {
    s != "" && forall i :: 0 <= i < |s| ==> IsDigit(s[i])
  }

  predicate Quoted(s: string) {
    |s| >= 2 && s[0] == s[|s| - 1] == '\'' && forall i :: 1 <= i < |s| - 1 ==> s[i] != '\'' && !IsBreak(s[i])
  }

  predicate PlainLiteral(s: string) {
    Digits(s) || Quoted(s) || s == ".FALSE."
  }

  lemma {:induction false} SkipsKey(s: string, i: nat, j: nat)
    requires i <= j < |s| && !IsKeyChar(s[j]) && forall k :: i <= k < j ==> IsKeyChar(s[k])
    ensures SkipKeyChars(s, i) == j
    decreases j - i
  {
    if i < j { SkipsKey(s, i + 1, j); }
  }

  lemma {:induction false} SkipsDigits(s: string, i: nat, j: nat)
    requires i <= j < |s| && !IsDigit(s[j]) && forall k :: i <= k < j ==> IsDigit(s[k])
    ensures SkipDigits(s, i) == j
    decreases j - i
  {
    if i < j { SkipsDigits(s, i + 1, j); }
  }

  lemma {:induction false} FindsQuote(s: string, i: nat, j: nat)
    requires i <= j < |s| - 1 && s[j] == '\'' && s[j + 1] != '\'' && forall k :: i <= k < j ==> s[k] != '\''
    ensures QuoteEnd(s, i) == Some(j + 1)
    decreases j - i
  {
    if i < j { FindsQuote(s, i + 1, j); }
  }

  lemma LowerOfPlain(key: string)
    requires PlainKey(key)
    ensures Lower(key) == key
  {
  }

  /** The literal of a written line ends at the comma. */
  lemma LiteralUpToComma(s: string, l: nat, literal: string)
    requires PlainLiteral(literal) && l + |literal| == |s| - 1 && s[l..|s| - 1] == literal && s[|s| - 1] == ','
    ensures LiteralEnd(s, l) == Some(|s| - 1)
  {
    var m := |s| - 1;
    assert forall k :: l <= k < m ==> s[k] == literal[k - l];
    if Digits(literal) {
      SkipsDigits(s, l, m);
      assert s[l] == literal[0];
      if l + 6 <= |s| { assert Lower(s[l..l + 6])[0] != '.'; }
      if l + 7 <= |s| { assert Lower(s[l..l + 7])[0] != '.'; }
    } else if Quoted(literal) {
      assert s[m - 1] == literal[|literal| - 1];
      FindsQuote(s, l + 1, m - 1);
    } else {
      assert s[l..l + 7] == ".FALSE.";
      assert Lower(".FALSE.") == ".false.";
      assert Lower(s[l..l + 6])[1] == 'f';
    }
  }

  /** A written line strips to its bare assignment, ... */
  lemma StripOfFieldLine(key: string, literal: string)
    requires PlainKey(key)
    ensures Strip(FieldLine(key, literal)) == key + " = " + literal + ","
  {
    var s, bare := FieldLine(key, literal), key + " = " + literal + ",";
    assert s == "  " + bare + "\n";
    assert s[0] == ' ' && s[1] == ' ' && s[2] == key[0];
    assert SkipSpace(s, 2) == 2 && SkipSpace(s, 1) == 2 && SkipSpace(s, 0) == 2;
    assert s[2..] == bare + "\n";
    var t := bare + "\n";
    assert t[|t| - 1] == '\n' && t[..|t| - 1] == bare && bare[|bare| - 1] == ',';
    assert DropTrailing(bare) == bare;
  }

  lemma FieldLayout(key: string, literal: string, s: string)
    requires PlainKey(key) && PlainLiteral(literal) && s == key + " = " + literal + ","
    ensures |s| == |key| + |literal| + 4
    ensures s[..|key|] == key && s[|key|..|key| + 3] == " = " && s[|key| + 3..|s| - 1] == literal && s[|s| - 1] == ','
    ensures s[|key|] == ' ' && s[|key| + 1] == '=' && s[|key| + 2] == ' '
    ensures s[0] == key[0] && s[|key| + 3] == literal[0]
  {
    assert s[|key|..|key| + 3][0] == ' ' && s[|key|..|key| + 3][1] == '=' && s[|key|..|key| + 3][2] == ' ';
  }

  lemma KeyUpToSpace(s: string, key: string)
    requires PlainKey(key) && |key| < |s| && s[..|key|] == key && s[|key|] == ' '
    ensures SkipSpace(s, 0) == 0 && KeyEnd(s, 0) == Some(|key|)
  {
    assert forall k :: 0 <= k < |key| ==> s[k] == key[k];
    SkipsKey(s, 1, |key|);
  }

  /** ... which parses to the key and the literal. */
  lemma ParseOfFieldLine(key: string, literal: string)
    requires PlainKey(key) && PlainLiteral(literal)
    ensures ParseAssign(key + " = " + literal + ",") == Some((key, literal))
  {
    hide KeyEnd, LiteralEnd, SkipKeyChars, Lower, PlainKey;
    var s := key + " = " + literal + ",";
    var j, m := |key|, |s| - 1;
    FieldLayout(key, literal, s);
    KeyUpToSpace(s, key);
    assert SkipSpace(s, j + 1) == j + 1;
    assert SkipSpace(s, j) == j + 1;
    assert !IsSpace(literal[0]) by { LiteralStart(literal); }
    assert SkipSpace(s, j + 3) == j + 3;
    assert SkipSpace(s, j + 2) == j + 3;
    LiteralUpToComma(s, j + 3, literal);
    assert SkipSpace(s, m) == m && SkipSpace(s, m + 1) == m + 1;
    LowerOfPlain(key);
    assert s[0..j] == key;
  }

  lemma LiteralStart(literal: string)
    requires PlainLiteral(literal)
    ensures literal != "" && !IsSpace(literal[0])
  {
  }

  lemma FieldLineIsLine(key: string, literal: string)
    requires PlainKey(key) && PlainLiteral(literal)
    ensures IsLine(FieldLine(key, literal))
  {
    var s := FieldLine(key, literal);
    assert s == "  " + key + " = " + literal + "," + "\n";
    forall i | 0 <= i < |s| - 1 ensures !IsBreak(s[i]) {
      if 2 <= i < 2 + |key| { assert s[i] == key[i - 2]; }
      if 5 + |key| <= i < 5 + |key| + |literal| { assert s[i] == literal[i - 5 - |key|]; }
    }
  }
}
