/** The assignments that the deck reader takes are those of its regular expression: a name with an optional subscript,
    an equals sign, a quoted text, a logical or a number, at most one comma, and whitespace between them. */
module DeckAssign {
  import opened Wrappers
  import opened Sequences
  import opened DeckText

  // ---------- the expression ----------

  predicate AllDigits(s: string) {
    forall i :: 0 <= i < |s| ==> '0' <= s[i] <= '9'
  }

  predicate IsName(s: string) {
    && s != "" && !('0' <= s[0] <= '9')
    && forall i :: 0 <= i < |s| ==>
      'a' <= s[i] <= 'z' || 'A' <= s[i] <= 'Z' || '0' <= s[i] <= '9' || s[i] == '_'
  }

  /** Nothing, or digits in parentheses. */
  ghost predicate IsSubscript(s: string) {
    s == "" || exists digits :: s == "(" + digits + ")" && digits != "" && AllDigits(digits)
  }

  ghost predicate IsKeyText(s: string) {
    exists name, subscript :: s == name + subscript && IsName(name) && IsSubscript(subscript)
  }

  /** No quote but doubled ones. */
  predicate Doubled(s: string) {
    s == "" || (s[0] != '\'' && Doubled(s[1..])) || (|s| >= 2 && s[0] == s[1] == '\'' && Doubled(s[2..]))
  }

  ghost predicate IsQuotedText(s: string) {
    exists body :: s == "'" + body + "'" && Doubled(body)
  }

  /** `.TRUE.` or `.FALSE.`, in any letter case. */
  predicate IsLogicalText(s: string) { Lower(s) == ".true." || Lower(s) == ".false." }

  predicate IsSign(s: string) { s == "" || s == "+" || s == "-" }

  /** Digits, with a point and digits behind it or not; or a point with digits behind it. */
  ghost predicate IsMantissa(s: string) {
    || (s != "" && AllDigits(s))
    || (exists before, after ::
         s == before + "." + after && AllDigits(before) && AllDigits(after) && before + after != "")
  }

  ghost predicate IsExponent(s: string) {
    s == "" || exists sign, digits ::
      s == [s[0]] + sign + digits && s[0] in "eEdD" && IsSign(sign) && digits != "" && AllDigits(digits)
  }

  ghost predicate IsNumberText(s: string) {
    exists sign, mantissa, exponent ::
      s == sign + mantissa + exponent && IsSign(sign) && IsMantissa(mantissa) && IsExponent(exponent)
  }

  ghost predicate IsLiteralText(s: string) {
    IsQuotedText(s) || IsLogicalText(s) || IsNumberText(s)
  }

  /** The whitespace and the comma around a key and its literal. */
  datatype Around = Around(first: string, beforeEquals: string, afterEquals: string, afterLiteral: string,
                           comma: string, last: string)
  {
    predicate Proper() {
      && AllSpace(first) && AllSpace(beforeEquals) && AllSpace(afterEquals) && AllSpace(afterLiteral) && AllSpace(last)
      && (comma == "" || comma == ",")
    }

    function Written(key: string, literal: string): string {
      first + (key + (beforeEquals + "=" + afterEquals) + (literal + (afterLiteral + comma + last)))
    }
  }

  /** The text is an assignment of the literal to the key as it is written. */
  ghost predicate Assigns(text: string, key: string, literal: string) {
    IsKeyText(key) && IsLiteralText(literal) &&
    exists around: Around :: around.Proper() && around.Written(key, literal) == text
  }

  // ---------- skipping ----------

  lemma {:induction false} SpaceStands(s: string, i: nat, gap: string)
    requires AllSpace(gap) && Stands(s, i, gap) && (i + |gap| < |s| ==> !IsSpace(s[i + |gap|]))
    ensures i + |gap| <= |s| && SkipSpace(s, i) == i + |gap|
    decreases |gap|
  {
    hide IsSpace;
    if gap != "" {
      StandsChar(s, i, gap, 0);
      assert gap[0] in gap;
      assert gap == gap[..1] + gap[1..];
      StandsParts(s, i, gap[..1], gap[1..]);
      SpaceStands(s, i + 1, gap[1..]);
    }
  }

  lemma {:induction false} NameStands(s: string, i: nat, name: string)
    requires (forall k :: 0 <= k < |name| ==> IsKeyChar(name[k])) && Stands(s, i, name)
    requires i + |name| < |s| ==> !IsKeyChar(s[i + |name|])
    ensures i + |name| <= |s| && SkipKeyChars(s, i) == i + |name|
    decreases |name|
  {
    if name != "" {
      StandsChar(s, i, name, 0);
      assert name == name[..1] + name[1..];
      StandsParts(s, i, name[..1], name[1..]);
      NameStands(s, i + 1, name[1..]);
    }
  }

  lemma {:induction false} DigitsStand(s: string, i: nat, digits: string)
    requires AllDigits(digits) && Stands(s, i, digits) && (i + |digits| < |s| ==> !IsDigit(s[i + |digits|]))
    ensures i + |digits| <= |s| && SkipDigits(s, i) == i + |digits|
    decreases |digits|
  {
    if digits != "" {
      StandsChar(s, i, digits, 0);
      assert digits == digits[..1] + digits[1..];
      StandsParts(s, i, digits[..1], digits[1..]);
      DigitsStand(s, i + 1, digits[1..]);
    }
  }

  lemma PartStarts(s: string, i: nat, t: string)
    requires Stands(s, i, t)
    ensures i + |t| <= |s| && (t != "" ==> i < |s| && s[i] == t[0])
  {
    if t != "" { StandsChar(s, i, t, 0); }
  }

  // ---------- keys ----------

  lemma NameCharacters(name: string)
    requires IsName(name)
    ensures forall k :: 0 <= k < |name| ==> IsKeyChar(name[k])
    ensures IsLetter(name[0]) || name[0] == '_'
  {
  }

  lemma KeyParts(key: string) returns (name: string, subscript: string)
    requires IsKeyText(key)
    ensures key == name + subscript && IsName(name) && IsSubscript(subscript)
  {
    hide IsName, IsSubscript;
    name, subscript :| key == name + subscript && IsName(name) && IsSubscript(subscript);
  }

  lemma SubscriptParts(subscript: string) returns (digits: string)
    requires IsSubscript(subscript) && subscript != ""
    ensures subscript == "(" + digits + ")" && digits != "" && AllDigits(digits)
  {
    hide AllDigits;
    digits :| subscript == "(" + digits + ")" && digits != "" && AllDigits(digits);
  }

  lemma NameOfKeyStands(s: string, i: nat, name: string)
    requires IsName(name) && Stands(s, i, name) && (i + |name| < |s| ==> !IsKeyChar(s[i + |name|]))
    ensures i < |s| && i + |name| <= |s| && (IsLetter(s[i]) || s[i] == '_')
    ensures SkipKeyChars(s, i + 1) == i + |name|
  {
    NameCharacters(name);
    hide *;
    StandsChar(s, i, name, 0);
    assert name == name[..1] + name[1..];
    StandsParts(s, i, name[..1], name[1..]);
    assert forall m :: 0 <= m < |name| - 1 ==> name[1..][m] == name[m + 1];
    NameStands(s, i + 1, name[1..]);
  }

  /** A key stands where whitespace or an equals sign follows it. */
  lemma KeyStands(s: string, i: nat, key: string)
    requires IsKeyText(key) && Stands(s, i, key) && i + |key| < |s|
    requires IsSpace(s[i + |key|]) || s[i + |key|] == '='
    ensures KeyEnd(s, i) == Some(i + |key|)
  {
    hide *;
    var name, subscript := KeyParts(key);
    StandsParts(s, i, name, subscript);
    var k := i + |name|;
    if subscript == "" {
      NotInKeys(s[k]);
      NameOfKeyStands(s, i, name);
      PlainKeyEnd(s, i, k);
    } else {
      var digits := SubscriptParts(subscript);
      StandsParts(s, k, "(" + digits, ")");
      StandsParts(s, k, "(", digits);
      StandsChar(s, k, "(", 0);
      StandsChar(s, k + 1 + |digits|, ")", 0);
      NotInKeys('(');
      NotInKeys(')');
      NameOfKeyStands(s, i, name);
      DigitsStand(s, k + 1, digits);
      SubscriptEnd(s, i, k, k + 1 + |digits|);
    }
  }

  lemma NotInKeys(c: char)
    ensures IsSpace(c) || c == '=' ==> !IsKeyChar(c) && c != '('
    ensures c == '(' || c == ')' ==> !IsKeyChar(c) && !IsDigit(c)
  {
  }

  lemma PlainKeyEnd(s: string, i: nat, k: nat)
    requires i < |s| && (IsLetter(s[i]) || s[i] == '_') && SkipKeyChars(s, i + 1) == k && (k < |s| ==> s[k] != '(')
    ensures KeyEnd(s, i) == Some(k)
  {
  }

  lemma SubscriptEnd(s: string, i: nat, k: nat, d: nat)
    requires i < |s| && (IsLetter(s[i]) || s[i] == '_') && SkipKeyChars(s, i + 1) == k && k < |s| && s[k] == '('
    requires k + 1 < d < |s| && SkipDigits(s, k + 1) == d && s[d] == ')'
    ensures KeyEnd(s, i) == Some(d + 1)
  {
  }

  // ---------- literals ----------

  /** What may follow a literal. */
  predicate Ended(s: string, i: nat) {
    i <= |s| && (i < |s| ==> IsSpace(s[i]) || s[i] == ',')
  }

  lemma EndedIs(s: string, i: nat)
    requires Ended(s, i)
    ensures i <= |s|
    ensures i < |s| ==>
      !IsDigit(s[i]) && s[i] != '\'' && s[i] != '.' && s[i] !in "eEdD" && s[i] !in {'e', 'E', 'd', 'D'}
  {
  }

  lemma {:induction false} DoubledStands(s: string, i: nat, body: string)
    requires Doubled(body) && Stands(s, i, body + "'")
    requires i + |body| + 1 < |s| ==> s[i + |body| + 1] != '\''
    ensures i <= |s| && QuoteEnd(s, i) == Some(i + |body| + 1)
    decreases |body|
  {
    hide Stands;
    StandsParts(s, i, body, "'");
    StandsChar(s, i + |body|, "'", 0);
    if body != "" {
      StandsChar(s, i, body, 0);
      var n := if body[0] != '\'' then 1 else 2;
      if n == 2 { StandsChar(s, i, body, 1); }
      assert body + "'" == body[..n] + (body[n..] + "'");
      StandsParts(s, i, body[..n], body[n..] + "'");
      DoubledStands(s, i + n, body[n..]);
    }
  }

  lemma QuotedStands(s: string, i: nat, literal: string)
    requires IsQuotedText(literal) && Stands(s, i, literal) && Ended(s, i + |literal|)
    ensures i < |s| && s[i] == '\'' && LiteralEnd(s, i) == Some(i + |literal|)
  {
    var body :| literal == "'" + body + "'" && Doubled(body);
    hide *;
    assert literal == "'" + (body + "'");
    StandsParts(s, i, "'", body + "'");
    StandsChar(s, i, "'", 0);
    EndedIs(s, i + |literal|);
    DoubledStands(s, i + 1, body);
    LiteralEndIs(s, i);
  }

  lemma LiteralEndIs(s: string, i: nat)
    requires i < |s|
    ensures s[i] == '\'' ==> LiteralEnd(s, i) == QuoteEnd(s, i + 1)
    ensures s[i] != '\'' && LogicalEnd(s, i).Some? ==> LiteralEnd(s, i) == LogicalEnd(s, i)
    ensures s[i] != '\'' && LogicalEnd(s, i).None? ==> LiteralEnd(s, i) == NumberEnd(s, i)
  {
    hide QuoteEnd, LogicalEnd, NumberEnd;
  }

  lemma LowerPrefix(s: string, n: nat)
    requires n <= |s|
    ensures Lower(s)[..n] == Lower(s[..n])
  {
  }

  lemma LogicalStands(s: string, i: nat, literal: string)
    requires IsLogicalText(literal) && Stands(s, i, literal)
    ensures i < |s| && s[i] != '\'' && LogicalEnd(s, i) == Some(i + |literal|)
  {
    assert s[i..i + |literal|] == literal;
    assert Lower(literal)[0] == '.';
    StandsChar(s, i, literal, 0);
    if |literal| == 7 {
      assert Lower(literal) == ".false.";
      assert s[i..i + 6] == literal[..6];
      LowerPrefix(literal, 6);
      assert Lower(literal[..6])[1] == 'f';
    }
  }

  /** Where a logical stands there is a point, and a letter behind it. */
  lemma LogicalStarts(s: string, i: nat)
    requires i <= |s| && LogicalEnd(s, i).Some?
    ensures i + 1 < |s| && s[i] == '.' && !IsDigit(s[i + 1])
  {
    var n := if i + 6 <= |s| && Lower(s[i..i + 6]) == ".true." then 6 else 7;
    var t := s[i..i + n];
    assert Lower(t)[0] == '.' && (Lower(t)[1] == 't' || Lower(t)[1] == 'f');
    assert t[0] == s[i] && t[1] == s[i + 1];
  }

  lemma ExponentParts(exponent: string) returns (mark: char, sign: string, digits: string)
    requires IsExponent(exponent) && exponent != ""
    ensures exponent == [mark] + sign + digits && mark in "eEdD" && IsSign(sign) && digits != "" && AllDigits(digits)
  {
    hide AllDigits, IsSign;
    mark := exponent[0];
    sign, digits :| exponent == [exponent[0]] + sign + digits && exponent[0] in "eEdD" && IsSign(sign) &&
                    digits != "" && AllDigits(digits);
  }

  lemma ExponentStands(s: string, i: nat, exponent: string)
    requires IsExponent(exponent) && Stands(s, i, exponent) && Ended(s, i + |exponent|)
    ensures i + |exponent| <= |s| && ExponentEnd(s, i) == i + |exponent|
  {
    hide *;
    if exponent == "" {
      EndedIs(s, i);
      NoExponent(s, i);
    } else {
      var mark, sign, digits := ExponentParts(exponent);
      StandsParts(s, i, [mark] + sign, digits);
      StandsParts(s, i, [mark], sign);
      StandsChar(s, i, [mark], 0);
      PartStarts(s, i + 1, sign);
      StandsChar(s, i + 1 + |sign|, digits, 0);
      FirstDigit(digits);
      EndedIs(s, i + |exponent|);
      DigitsStand(s, i + 1 + |sign|, digits);
      SignIs(sign);
      MarkIs(mark);
      ExponentEndIs(s, i, i + 1 + |sign|);
    }
  }

  lemma NoExponent(s: string, i: nat)
    requires i <= |s| && (i < |s| ==> s[i] !in {'e', 'E', 'd', 'D'})
    ensures ExponentEnd(s, i) == i
  {
  }

  lemma FirstDigit(digits: string)
    requires digits != "" && AllDigits(digits)
    ensures IsDigit(digits[0]) && digits[0] != '+' && digits[0] != '-' && digits[0] != '.' && digits[0] != '\''
  {
  }

  lemma SignIs(sign: string)
    requires IsSign(sign)
    ensures sign == "" || (|sign| == 1 && (sign[0] == '+' || sign[0] == '-'))
  {
  }

  lemma MarkIs(c: char)
    ensures c in "eEdD" <==> c in {'e', 'E', 'd', 'D'}
  {
    assert c in "eEdD" ==> c == 'e' || c == 'E' || c == 'd' || c == 'D';
    assert "eEdD"[0] == 'e' && "eEdD"[1] == 'E' && "eEdD"[2] == 'd' && "eEdD"[3] == 'D';
  }

  lemma ExponentEndIs(s: string, i: nat, a: nat)
    requires i + 1 < |s| && s[i] in {'e', 'E', 'd', 'D'}
    requires a == if s[i + 1] == '+' || s[i + 1] == '-' then i + 2 else i + 1
    requires a <= |s| && SkipDigits(s, a) > a
    ensures ExponentEnd(s, i) == SkipDigits(s, a)
  {
  }

  /** Where the mantissa ends, what follows is no digit and no point. */
  lemma ExponentStarts(s: string, i: nat, exponent: string)
    requires IsExponent(exponent) && Stands(s, i, exponent) && Ended(s, i + |exponent|)
    ensures i < |s| ==> !IsDigit(s[i]) && s[i] != '.'
  {
    PartStarts(s, i, exponent);
    if exponent == "" { EndedIs(s, i); } else { MarkIs(exponent[0]); }
  }

  lemma MantissaParts(mantissa: string) returns (before: string, after: string)
    requires IsMantissa(mantissa) && (mantissa == "" || !AllDigits(mantissa))
    ensures mantissa == before + "." + after && AllDigits(before) && AllDigits(after) && before + after != ""
  {
    hide AllDigits;
    before, after :| mantissa == before + "." + after && AllDigits(before) && AllDigits(after) && before + after != "";
  }

  lemma PointStands(s: string, i: nat, before: string, after: string)
    requires AllDigits(before) && AllDigits(after) && before + after != "" && Stands(s, i, before + "." + after)
    requires var end := i + |before| + 1 + |after|; end < |s| ==> !IsDigit(s[end])
    ensures i < |s| && (IsDigit(s[i]) || (s[i] == '.' && i + 1 < |s| && IsDigit(s[i + 1])))
    ensures MantissaEnd(s, i) == Some(i + |before| + 1 + |after|)
  {
    hide *;
    var b := i + |before|;
    NotInNumbers();
    StandsParts(s, i, before + ".", after);
    StandsParts(s, i, before, ".");
    StandsChar(s, b, ".", 0);
    PartStarts(s, i, before);
    PartStarts(s, b + 1, after);
    if before != "" { FirstDigit(before); }
    if after != "" { FirstDigit(after); }
    DigitsStand(s, i, before);
    DigitsStand(s, b + 1, after);
    PointMantissa(s, i, b, b + 1 + |after|);
  }

  lemma MantissaStands(s: string, i: nat, mantissa: string)
    requires IsMantissa(mantissa) && Stands(s, i, mantissa)
    requires i + |mantissa| < |s| ==> !IsDigit(s[i + |mantissa|]) && s[i + |mantissa|] != '.'
    ensures i < |s| && (IsDigit(s[i]) || (s[i] == '.' && i + 1 < |s| && IsDigit(s[i + 1])))
    ensures MantissaEnd(s, i) == Some(i + |mantissa|)
  {
    hide *;
    if mantissa != "" && AllDigits(mantissa) {
      FirstDigit(mantissa);
      StandsChar(s, i, mantissa, 0);
      DigitsStand(s, i, mantissa);
      WholeMantissa(s, i, i + |mantissa|);
    } else {
      var before, after := MantissaParts(mantissa);
      PointStands(s, i, before, after);
    }
  }

  lemma NotInNumbers()
    ensures !IsDigit('.')
  {
  }

  /** The end of a number's digits and point. */
  function MantissaEnd(s: string, a: nat): Option<nat>
    requires a <= |s|
  {
    var b := SkipDigits(s, a);
    if a < b then Some(if b < |s| && s[b] == '.' then SkipDigits(s, b + 1) else b)
    else if a < |s| && s[a] == '.' && SkipDigits(s, a + 1) > a + 1 then Some(SkipDigits(s, a + 1))
    else None
  }

  lemma WholeMantissa(s: string, i: nat, b: nat)
    requires i < b <= |s| && SkipDigits(s, i) == b && (b < |s| ==> s[b] != '.')
    ensures MantissaEnd(s, i) == Some(b)
  {
  }

  lemma PointMantissa(s: string, i: nat, b: nat, end: nat)
    requires i <= b < |s| && SkipDigits(s, i) == b && s[b] == '.' && SkipDigits(s, b + 1) == end
    requires i < b || b + 1 < end
    ensures MantissaEnd(s, i) == Some(end)
  {
  }

  lemma NumberEndIs(s: string, i: nat)
    requires i <= |s|
    ensures var a := if i < |s| && (s[i] == '+' || s[i] == '-') then i + 1 else i;
      NumberEnd(s, i) == match MantissaEnd(s, a)
                         case None => None
                         case Some(b) => if b <= |s| then Some(ExponentEnd(s, b)) else None
  {
    hide SkipDigits, ExponentEnd;
  }

  lemma NumberParts(literal: string) returns (sign: string, mantissa: string, exponent: string)
    requires IsNumberText(literal)
    ensures literal == sign + mantissa + exponent && IsSign(sign) && IsMantissa(mantissa) && IsExponent(exponent)
  {
    hide IsSign, IsMantissa, IsExponent;
    sign, mantissa, exponent :|
      literal == sign + mantissa + exponent && IsSign(sign) && IsMantissa(mantissa) && IsExponent(exponent);
  }

  lemma NumberStands(s: string, i: nat, literal: string)
    requires IsNumberText(literal) && Stands(s, i, literal) && Ended(s, i + |literal|)
    ensures i < |s| && s[i] != '\'' && LogicalEnd(s, i).None? && NumberEnd(s, i) == Some(i + |literal|)
  {
    hide *;
    var sign, mantissa, exponent := NumberParts(literal);
    var a := i + |sign|;
    var b := a + |mantissa|;
    StandsParts(s, i, sign + mantissa, exponent);
    StandsParts(s, i, sign, mantissa);
    PartStarts(s, i, sign);
    SignIs(sign);
    ExponentStarts(s, b, exponent);
    MantissaStands(s, a, mantissa);
    ExponentStands(s, b, exponent);
    DigitIs(s[a]);
    NumberEndIs(s, i);
    if LogicalEnd(s, i).Some? {
      LogicalStarts(s, i);
    }
  }

  lemma DigitIs(c: char)
    ensures IsDigit(c) || c == '.' ==> c != '+' && c != '-' && c != '\''
    ensures IsDigit(c) ==> c != '.'
  {
  }

  lemma LiteralStands(s: string, i: nat, literal: string)
    requires IsLiteralText(literal) && Stands(s, i, literal) && Ended(s, i + |literal|)
    ensures i < |s| && !IsSpace(s[i]) && LiteralEnd(s, i) == Some(i + |literal|)
  {
    hide IsQuotedText, IsLogicalText, IsNumberText, Stands, Ended, IsSpace, LiteralEnd, LogicalEnd, NumberEnd, QuoteEnd;
    if IsQuotedText(literal) {
      QuotedStands(s, i, literal);
      NoSpace('\'');
    } else if IsLogicalText(literal) {
      LogicalStands(s, i, literal);
      LiteralEndIs(s, i);
      LogicalStarts(s, i);
      NoSpace('.');
    } else {
      NumberStands(s, i, literal);
      LiteralEndIs(s, i);
      NumberStarts(s, i);
    }
  }

  lemma NoSpace(c: char)
    requires c == '\'' || c == '.' || c == '+' || c == '-' || c == ',' || c == '=' || c == '_' || IsLetter(c) ||
      IsDigit(c)
    ensures !IsSpace(c)
  {
  }

  lemma NumberStarts(s: string, i: nat)
    requires i < |s| && NumberEnd(s, i).Some?
    ensures !IsSpace(s[i])
  {
    if IsSpace(s[i]) { SpaceIs(s[i]); }
    hide IsSpace;
  }

  lemma SpaceIs(c: char)
    requires IsSpace(c)
    ensures c != '+' && c != '-' && c != '.' && !IsDigit(c)
  {
  }

  // ---------- assignments ----------

  lemma SpaceAround(around: Around)
    requires around.Proper()
    ensures AllSpace(around.first) && AllSpace(around.beforeEquals) && AllSpace(around.afterEquals)
    ensures AllSpace(around.afterLiteral) && AllSpace(around.last) && (around.comma == "" || around.comma == ",")
  {
    hide AllSpace;
  }

  lemma GapStarts(gap: string)
    requires AllSpace(gap)
    ensures gap != "" ==> IsSpace(gap[0])
  {
  }

  lemma CommaIsAll(s: string, i: nat, j: nat)
    requires i <= j <= |s| && SkipSpace(s, i) == j
    ensures j < |s| && s[j] == ',' && SkipSpace(s, j + 1) == |s| ==> OnlyComma(s, i)
    ensures j == |s| ==> OnlyComma(s, i)
  {
  }

  /** Behind the literal. */
  lemma TailStands(s: string, m: nat, around: Around)
    requires around.Proper() && Stands(s, m, around.afterLiteral + around.comma + around.last)
    requires m + |around.afterLiteral + around.comma + around.last| == |s|
    ensures Ended(s, m) && OnlyComma(s, m)
  {
    hide *;
    SpaceAround(around);
    var gap, last := around.afterLiteral, around.last;
    var j := m + |gap|;
    StandsParts(s, m, gap + around.comma, last);
    StandsParts(s, m, gap, around.comma);
    PartStarts(s, m, gap);
    GapStarts(gap);
    NoSpace(',');
    if around.comma == "," {
      PartStarts(s, j, ",");
      SpaceStands(s, m, gap);
      SpaceStands(s, j + 1, last);
    } else {
      SpacesJoin(gap, last);
      StandsTogether(s, m, gap, last);
      SpaceStands(s, m, gap + last);
      PartStarts(s, m, gap + last);
      GapStarts(gap + last);
    }
    CommaIsAll(s, m, SkipSpace(s, m));
    EndedHere(s, m);
  }

  lemma SpacesJoin(a: string, b: string)
    requires AllSpace(a) && AllSpace(b)
    ensures AllSpace(a + b)
  {
  }

  lemma StandsTogether(s: string, i: nat, a: string, b: string)
    requires Stands(s, i, a) && Stands(s, i + |a|, b)
    ensures Stands(s, i, a + b)
  {
    assert s[i..i + |a + b|] == s[i..i + |a|] + s[i + |a|..i + |a| + |b|];
  }

  lemma EndedHere(s: string, i: nat)
    requires i <= |s| && (i < |s| ==> IsSpace(s[i]) || s[i] == ',')
    ensures Ended(s, i)
  {
  }

  lemma ParseSteps(s: string, i: nat, j: nat, k: nat, l: nat, m: nat)
    requires SkipSpace(s, 0) == i && KeyEnd(s, i) == Some(j) && SkipSpace(s, j) == k && k < |s| && s[k] == '='
    requires SkipSpace(s, k + 1) == l && LiteralEnd(s, l) == Some(m) && OnlyComma(s, m)
    ensures ParseAssign(s) == Some((Lower(s[i..j]), s[l..m]))
  {
    hide SkipSpace, KeyEnd, LiteralEnd, OnlyComma, Lower;
  }

  lemma AroundOf(s: string, key: string, literal: string) returns (around: Around)
    requires Assigns(s, key, literal)
    ensures IsKeyText(key) && IsLiteralText(literal) && around.Proper() && around.Written(key, literal) == s
  {
    hide IsKeyText, IsLiteralText, Around.Proper, Around.Written;
    around :| around.Proper() && around.Written(key, literal) == s;
  }

  lemma HeadStands(s: string, around: Around, key: string)
    requires around.Proper() && IsKeyText(key)
    requires var i := |around.first|;
      var k := i + |key| + |around.beforeEquals|;
      && Stands(s, 0, around.first) && Stands(s, i, key) && Stands(s, i + |key|, around.beforeEquals)
      && Stands(s, k, "=")
    ensures var i := |around.first|;
      var k := i + |key| + |around.beforeEquals|;
      && SkipSpace(s, 0) == i && i <= |s| && KeyEnd(s, i) == Some(i + |key|) && i + |key| <= |s|
      && SkipSpace(s, i + |key|) == k && k < |s| && s[k] == '='
  {
    hide *;
    SpaceAround(around);
    var i := |around.first|;
    var j := i + |key|;
    var k := j + |around.beforeEquals|;
    KeyStarts(key);
    StandsChar(s, i, key, 0);
    StandsChar(s, k, "=", 0);
    PartStarts(s, j, around.beforeEquals);
    GapStarts(around.beforeEquals);
    NoSpace('=');
    SpaceStands(s, 0, around.first);
    KeyStands(s, i, key);
    SpaceStands(s, j, around.beforeEquals);
  }

  /** Every assignment is read as its key, in lower case, and its literal. */
  lemma AssignmentIsRead(s: string, key: string, literal: string)
    requires Assigns(s, key, literal)
    ensures ParseAssign(s) == Some((Lower(key), literal))
  {
    hide *;
    var around := AroundOf(s, key, literal);
    SpaceAround(around);
    var i := |around.first|;
    var k := i + |key| + |around.beforeEquals|;
    var l := k + 1 + |around.afterEquals|;
    var m := l + |literal|;
    WrittenParts(s, around, key, literal);
    HeadStands(s, around, key);
    TailStands(s, m, around);
    LiteralStands(s, l, literal);
    SpaceStands(s, k + 1, around.afterEquals);
    ParseSteps(s, i, i + |key|, k, l, m);
    StandsIs(s, i, key);
    StandsIs(s, l, literal);
  }

  lemma StandsIs(s: string, i: nat, t: string)
    requires Stands(s, i, t)
    ensures i + |t| <= |s| && s[i..i + |t|] == t
  {
  }

  lemma KeyStarts(key: string)
    requires IsKeyText(key)
    ensures key != "" && !IsSpace(key[0])
  {
    hide IsName, IsSubscript, IsSpace;
    var name, subscript := KeyParts(key);
    NameCharacters(name);
    assert key[0] == name[0] by { NameNotEmpty(name); }
    NoSpace(key[0]);
  }

  lemma NameNotEmpty(name: string)
    requires IsName(name)
    ensures name != ""
  {
  }

  lemma WrittenIs(around: Around, key: string, literal: string)
    ensures around.Written(key, literal) ==
      around.first + (key + (around.beforeEquals + "=" + around.afterEquals) +
                      (literal + (around.afterLiteral + around.comma + around.last)))
  {
    var middle, tail := around.beforeEquals + "=" + around.afterEquals,
      around.afterLiteral + around.comma + around.last;
    assert key + (middle + (literal + tail)) == key + middle + (literal + tail);
  }

  /** Where the parts of a written assignment stand. */
  lemma WrittenParts(s: string, around: Around, key: string, literal: string)
    requires around.Written(key, literal) == s
    ensures var i := |around.first|;
      var k := i + |key| + |around.beforeEquals|;
      var l := k + 1 + |around.afterEquals|;
      && Stands(s, 0, around.first) && Stands(s, i, key) && Stands(s, i + |key|, around.beforeEquals)
      && Stands(s, k, "=") && Stands(s, k + 1, around.afterEquals) && Stands(s, l, literal)
      && Stands(s, l + |literal|, around.afterLiteral + around.comma + around.last)
      && l + |literal| + |around.afterLiteral + around.comma + around.last| == |s|
  {
    hide *;
    WrittenIs(around, key, literal);
    var middle := around.beforeEquals + "=" + around.afterEquals;
    var tail := around.afterLiteral + around.comma + around.last;
    var i := |around.first|;
    StandsAll(s);
    StandsParts(s, 0, around.first, key + middle + (literal + tail));
    StandsParts(s, i, key + middle, literal + tail);
    StandsParts(s, i, key, middle);
    StandsParts(s, i + |key|, around.beforeEquals + "=", around.afterEquals);
    StandsParts(s, i + |key|, around.beforeEquals, "=");
    StandsParts(s, i + |key + middle|, literal, tail);
  }

  // ---------- what was read ----------

  lemma {:induction false} SkippedDigits(s: string, i: nat)
    requires i <= |s|
    ensures AllDigits(s[i..SkipDigits(s, i)])
    decreases |s| - i
  {
    if i < |s| && IsDigit(s[i]) {
      SkippedDigits(s, i + 1);
      assert s[i..SkipDigits(s, i)] == [s[i]] + s[i + 1..SkipDigits(s, i + 1)];
    }
  }

  lemma {:induction false} SkippedKeyChars(s: string, i: nat)
    requires i <= |s|
    ensures forall c :: c in s[i..SkipKeyChars(s, i)] ==> IsKeyChar(c)
    decreases |s| - i
  {
    if i < |s| && IsKeyChar(s[i]) {
      SkippedKeyChars(s, i + 1);
      assert s[i..SkipKeyChars(s, i)] == [s[i]] + s[i + 1..SkipKeyChars(s, i + 1)];
    }
  }

  lemma NameFrom(first: char, rest: string)
    requires (IsLetter(first) || first == '_') && forall c :: c in rest ==> IsKeyChar(c)
    ensures IsName([first] + rest)
  {
    var name := [first] + rest;
    forall i | 0 <= i < |name|
      ensures 'a' <= name[i] <= 'z' || 'A' <= name[i] <= 'Z' || '0' <= name[i] <= '9' || name[i] == '_'
    {
      if i > 0 { assert name[i] == rest[i - 1] && rest[i - 1] in rest; }
    }
  }

  lemma KeyTextFrom(name: string, subscript: string)
    requires IsName(name) && IsSubscript(subscript)
    ensures IsKeyText(name + subscript)
  {
    hide IsName, IsSubscript;
  }

  lemma SubscriptFrom(digits: string)
    requires digits != "" && AllDigits(digits)
    ensures IsSubscript("(" + digits + ")")
  {
    hide AllDigits;
  }

  lemma NoSubscript()
    ensures IsSubscript("")
  {
  }

  lemma KeyIsRead(s: string, i: nat)
    requires i <= |s| && KeyEnd(s, i).Some?
    ensures IsKeyText(s[i..KeyEnd(s, i).value])
  {
    hide IsKeyText, IsName, IsSubscript, SkipKeyChars, SkipDigits, AllDigits;
    var k, j := SkipKeyChars(s, i + 1), KeyEnd(s, i).value;
    SkippedKeyChars(s, i + 1);
    NameFrom(s[i], s[i + 1..k]);
    assert s[i..k] == [s[i]] + s[i + 1..k];
    if k < |s| && s[k] == '(' {
      SkippedDigits(s, k + 1);
      SubscriptFrom(s[k + 1..j - 1]);
      KeyTextFrom(s[i..k], "(" + s[k + 1..j - 1] + ")");
      assert s[k..j] == "(" + s[k + 1..j - 1] + ")";
      assert s[i..j] == s[i..k] + s[k..j];
    } else {
      NoSubscript();
      KeyTextFrom(s[i..k], "");
      assert s[i..k] + "" == s[i..k];
    }
  }

  lemma {:induction false} QuoteIsRead(s: string, i: nat)
    requires i <= |s| && QuoteEnd(s, i).Some?
    ensures var end := QuoteEnd(s, i).value;
      Doubled(s[i..end - 1]) && s[end - 1] == '\''
    decreases |s| - i
  {
    var end := QuoteEnd(s, i).value;
    if s[i] != '\'' {
      QuoteIsRead(s, i + 1);
      assert s[i..end - 1][1..] == s[i + 1..end - 1];
    } else if i + 1 < |s| && s[i + 1] == '\'' {
      QuoteIsRead(s, i + 2);
      assert s[i..end - 1][2..] == s[i + 2..end - 1];
    }
  }

  lemma QuotedFrom(body: string)
    requires Doubled(body)
    ensures IsQuotedText("'" + body + "'")
  {
    hide Doubled;
  }

  lemma MantissaIsRead(s: string, a: nat)
    requires a <= |s| && MantissaEnd(s, a).Some?
    ensures var b := MantissaEnd(s, a).value;
      a <= b <= |s| && IsMantissa(s[a..b])
  {
    var b, end := SkipDigits(s, a), MantissaEnd(s, a).value;
    SkippedDigits(s, a);
    if b < |s| && s[b] == '.' {
      SkippedDigits(s, b + 1);
      MantissaFrom(s[a..b], s[b + 1..end]);
      assert s[a..end] == s[a..b] + "." + s[b + 1..end];
    } else {
      WholeFrom(s[a..b]);
    }
    hide IsMantissa, SkipDigits;
  }

  lemma WholeFrom(digits: string)
    requires digits != "" && AllDigits(digits)
    ensures IsMantissa(digits)
  {
  }

  lemma MantissaFrom(before: string, after: string)
    requires AllDigits(before) && AllDigits(after) && before + after != ""
    ensures IsMantissa(before + "." + after)
  {
    hide AllDigits;
  }

  lemma ExponentFrom(mark: char, sign: string, digits: string)
    requires mark in "eEdD" && IsSign(sign) && digits != "" && AllDigits(digits)
    ensures IsExponent([mark] + sign + digits)
  {
    hide AllDigits, IsSign;
    assert ([mark] + sign + digits)[0] == mark;
  }

  /** The parts of an exponent, if there is one. */
  lemma ExponentSteps(s: string, i: nat) returns (a: nat)
    requires i <= |s| && ExponentEnd(s, i) > i
    ensures i + 1 <= a < ExponentEnd(s, i) <= |s| && s[i] in {'e', 'E', 'd', 'D'} &&
      SkipDigits(s, a) == ExponentEnd(s, i)
    ensures a == if i + 1 < |s| && (s[i + 1] == '+' || s[i + 1] == '-') then i + 2 else i + 1
  {
    hide SkipDigits;
    a := if i + 1 < |s| && (s[i + 1] == '+' || s[i + 1] == '-') then i + 2 else i + 1;
  }

  lemma CutRange(s: string, i: nat, j: nat, k: nat)
    requires i <= j <= k <= |s|
    ensures s[i..k] == s[i..j] + s[j..k] && (i < |s| ==> s[i..i + 1] == [s[i]])
  {
  }

  lemma NoExponentText(s: string, i: nat)
    requires i <= |s|
    ensures s[i..i] == "" && IsExponent("")
  {
  }

  lemma ExponentIsRead(s: string, i: nat)
    requires i <= |s|
    ensures IsExponent(s[i..ExponentEnd(s, i)])
  {
    hide *;
    var end := ExponentEnd(s, i);
    if end > i {
      var a := ExponentSteps(s, i);
      SkippedDigits(s, a);
      MarkIs(s[i]);
      SignFrom(s, i + 1, a);
      ExponentFrom(s[i], s[i + 1..a], s[a..end]);
      CutRange(s, i, i + 1, a);
      CutRange(s, i, a, end);
    } else {
      NoExponentText(s, i);
    }
  }

  lemma SignFrom(s: string, i: nat, a: nat)
    requires i <= |s| && a == if i < |s| && (s[i] == '+' || s[i] == '-') then i + 1 else i
    ensures IsSign(s[i..a])
  {
  }

  lemma NumberFrom(sign: string, mantissa: string, exponent: string)
    requires IsSign(sign) && IsMantissa(mantissa) && IsExponent(exponent)
    ensures IsNumberText(sign + mantissa + exponent)
  {
    hide IsSign, IsMantissa, IsExponent;
  }

  lemma NumberIsRead(s: string, i: nat)
    requires i <= |s| && NumberEnd(s, i).Some?
    ensures IsNumberText(s[i..NumberEnd(s, i).value])
  {
    hide *;
    var a := if i < |s| && (s[i] == '+' || s[i] == '-') then i + 1 else i;
    NumberEndIs(s, i);
    MantissaIsRead(s, a);
    var b := MantissaEnd(s, a).value;
    var end := ExponentEnd(s, b);
    SignFrom(s, i, a);
    ExponentIsRead(s, b);
    NumberFrom(s[i..a], s[a..b], s[b..end]);
    assert s[i..end] == s[i..a] + s[a..b] + s[b..end];
  }

  lemma LiteralIsRead(s: string, i: nat)
    requires i <= |s| && LiteralEnd(s, i).Some?
    ensures IsLiteralText(s[i..LiteralEnd(s, i).value])
  {
    hide IsQuotedText, IsNumberText, QuoteEnd, NumberEnd, Lower;
    var end := LiteralEnd(s, i).value;
    if i < |s| && s[i] == '\'' {
      QuoteIsRead(s, i + 1);
      QuotedFrom(s[i + 1..end - 1]);
      assert s[i..end] == "'" + s[i + 1..end - 1] + "'";
    } else if LogicalEnd(s, i).None? {
      NumberIsRead(s, i);
    }
  }

  lemma StepsOf(s: string) returns (i: nat, j: nat, k: nat, l: nat, m: nat)
    requires ParseAssign(s).Some?
    ensures SkipSpace(s, 0) == i && i <= |s| && KeyEnd(s, i) == Some(j) && j <= |s| && SkipSpace(s, j) == k
    ensures i <= j <= k < l <= m <= |s| && s[k] == '=' && SkipSpace(s, k + 1) == l && LiteralEnd(s, l) == Some(m)
    ensures OnlyComma(s, m) && ParseAssign(s) == Some((Lower(s[i..j]), s[l..m]))
  {
    hide SkipSpace, KeyEnd, LiteralEnd, OnlyComma, Lower;
    i := SkipSpace(s, 0);
    j := KeyEnd(s, i).value;
    k := SkipSpace(s, j);
    l := SkipSpace(s, k + 1);
    m := LiteralEnd(s, l).value;
  }

  lemma TailIsRead(s: string, m: nat) returns (afterLiteral: string, comma: string, last: string)
    requires m <= |s| && OnlyComma(s, m)
    ensures AllSpace(afterLiteral) && AllSpace(last) && (comma == "" || comma == ",")
    ensures s[m..] == afterLiteral + comma + last
  {
    hide SkipSpace, AllSpace;
    var j := SkipSpace(s, m);
    var k := if j < |s| && s[j] == ',' then j + 1 else j;
    SkippedIsSpace(s, m);
    SkippedIsSpace(s, k);
    afterLiteral, comma, last := s[m..j], s[j..k], s[k..|s|];
    assert s[m..] == s[m..j] + s[j..k] + s[k..|s|];
  }

  lemma AssignsFrom(s: string, key: string, literal: string, around: Around)
    requires IsKeyText(key) && IsLiteralText(literal) && around.Proper() && around.Written(key, literal) == s
    ensures Assigns(s, key, literal)
  {
    hide IsKeyText, IsLiteralText, Around.Proper, Around.Written;
  }

  lemma Grouped(a: string, b: string, c: string, e: string, d: string, l: string, tail: string)
    ensures a + (b + (c + e + d) + (l + tail)) == a + b + c + e + d + l + tail
  {
    assert b + (c + e + d) + (l + tail) == b + c + e + d + l + tail;
  }

  lemma Pieces(s: string, i: nat, j: nat, k: nat, l: nat, m: nat, tail: string)
    requires i <= j <= k < l <= m <= |s| && s[k] == '=' && s[m..] == tail
    ensures s == s[0..i] + (s[i..j] + (s[j..k] + "=" + s[k + 1..l]) + (s[l..m] + tail))
  {
    CutRange(s, 0, i, j);
    CutRange(s, 0, j, k);
    CutRange(s, 0, k, k + 1);
    CutRange(s, k, k, k + 1);
    CutRange(s, 0, k + 1, l);
    CutRange(s, 0, l, m);
    FrontAndRest(s, m);
    Grouped(s[0..i], s[i..j], s[j..k], "=", s[k + 1..l], s[l..m], tail);
  }

  lemma FrontAndRest(s: string, m: nat)
    requires m <= |s|
    ensures s == s[0..m] + s[m..]
  {
  }

  /** Whatever is read was an assignment. */
  lemma ReadIsAssignment(s: string) returns (key: string)
    requires ParseAssign(s).Some?
    ensures Assigns(s, key, ParseAssign(s).value.1) && ParseAssign(s).value.0 == Lower(key)
  {
    hide *;
    var i, j, k, l, m := StepsOf(s);
    SkippedIsSpace(s, 0);
    SkippedIsSpace(s, j);
    SkippedIsSpace(s, k + 1);
    KeyIsRead(s, i);
    LiteralIsRead(s, l);
    var afterLiteral, comma, last := TailIsRead(s, m);
    key := s[i..j];
    var around := Around(s[0..i], s[j..k], s[k + 1..l], afterLiteral, comma, last);
    Pieces(s, i, j, k, l, m, afterLiteral + comma + last);
    AroundFrom(around, key, s[l..m]);
    AssignsFrom(s, key, s[l..m], around);
  }

  lemma AroundFrom(a: Around, key: string, literal: string)
    requires AllSpace(a.first) && AllSpace(a.beforeEquals) && AllSpace(a.afterEquals) && AllSpace(a.afterLiteral)
    requires AllSpace(a.last) && (a.comma == "" || a.comma == ",")
    ensures a.Proper() && a.Written(key, literal) ==
      a.first + (key + (a.beforeEquals + "=" + a.afterEquals) + (literal + (a.afterLiteral + a.comma + a.last)))
  {
    hide AllSpace;
  }

  /** A line is read as a key and a literal if and only if it assigns the literal to the key, up to its letter case. */
  lemma ParsesExactlyWhen(s: string, key: string, literal: string)
    ensures ParseAssign(s) == Some((key, literal)) <==> exists raw :: Assigns(s, raw, literal) && Lower(raw) == key
  {
    hide *;
    if ParseAssign(s) == Some((key, literal)) {
      var raw := ReadIsAssignment(s);
    }
    if raw :| Assigns(s, raw, literal) && Lower(raw) == key {
      AssignmentIsRead(s, raw, literal);
    }
  }
}
