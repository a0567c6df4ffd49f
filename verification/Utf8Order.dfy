/** The byte order of UTF-8 texts (sections 1 and 3 of RFC 3629) and the strict order checks on exported rows. */
module Utf8Order {
  import opened Wrappers
  import opened Order
  import opened Sequences

  // ---------- the encoding ----------

  /** A Unicode scalar value. */
  predicate IsScalar(c: int) { 0 <= c < 0xD800 || 0xE000 <= c < 0x110000 }

  type Text = s: seq<int> | forall i :: 0 <= i < |s| ==> IsScalar(s[i])

  function Encode(c: int): (bytes: seq<int>)
    requires IsScalar(c)
    ensures 1 <= |bytes| <= 4 && forall i :: 0 <= i < |bytes| ==> 0 <= bytes[i] < 256
  {
    if c < 0x80 then [c]
    else if c < 0x800 then [0xC0 + c / 64, 0x80 + c % 64]
    else if c < 0x10000 then [0xE0 + c / 4096, 0x80 + c / 64 % 64, 0x80 + c % 64]
    else [0xF0 + c / 262144, 0x80 + c / 4096 % 64, 0x80 + c / 64 % 64, 0x80 + c % 64]
  }

  function Bytes(text: Text): seq<int> {
    if text == [] then [] else Encode(text[0]) + Bytes(text[1..])
  }

  predicate Continues(b: int) { 0x80 <= b <= 0xBF }

  /** The forms of section 3 of RFC 3629: the ranges of the bytes, and the six bits that each byte behind the first one
      carries give the character back. */
  lemma EncodingForms(c: int)
    requires IsScalar(c)
    ensures c <= 0x7F ==> Encode(c) == [c]
    ensures 0x80 <= c <= 0x7FF ==>
      var e := Encode(c); |e| == 2 && 0xC2 <= e[0] <= 0xDF && Continues(e[1]) && c == (e[0] - 0xC0) * 64 + (e[1] - 0x80)
    ensures 0x800 <= c <= 0xFFFF ==>
      var e := Encode(c);
      && |e| == 3 && 0xE0 <= e[0] <= 0xEF && Continues(e[1]) && Continues(e[2])
      && c == (e[0] - 0xE0) * 4096 + (e[1] - 0x80) * 64 + (e[2] - 0x80)
      && (e[0] == 0xE0 ==> e[1] >= 0xA0) && (e[0] == 0xED ==> e[1] <= 0x9F)
    ensures 0x10000 <= c ==>
      var e := Encode(c);
      && |e| == 4 && 0xF0 <= e[0] <= 0xF4 && Continues(e[1]) && Continues(e[2]) && Continues(e[3])
      && c == (e[0] - 0xF0) * 262144 + (e[1] - 0x80) * 4096 + (e[2] - 0x80) * 64 + (e[3] - 0x80)
      && (e[0] == 0xF0 ==> e[1] >= 0x90) && (e[0] == 0xF4 ==> e[1] <= 0x8F)
  {
    Nested(c);
  }

  // ---------- order of concatenations ----------

  lemma {:induction false} LexOfPrefixes(u: seq<int>, x: seq<int>, v: seq<int>, y: seq<int>)
    requires |u| == |v| && LexLess(u, v)
    ensures LexLess(u + x, v + y)
  {
    if u[0] == v[0] {
      LexOfPrefixes(u[1..], x, v[1..], y);
      assert (u + x)[1..] == u[1..] + x && (v + y)[1..] == v[1..] + y;
    }
  }

  lemma {:induction false} LexAfterSame(u: seq<int>, x: seq<int>, y: seq<int>)
    ensures LexLess(u + x, u + y) == LexLess(x, y)
  {
    if u == [] {
      assert u + x == x && u + y == y;
    } else {
      LexAfterSame(u[1..], x, y);
      assert (u + x)[1..] == u[1..] + x && (u + y)[1..] == u[1..] + y;
    }
  }

  // ---------- one character ----------

  lemma ShortBefore(a: int, b: int)
    requires IsScalar(a) && IsScalar(b) && a < b && |Encode(a)| < |Encode(b)|
    ensures Encode(a)[0] < Encode(b)[0]
  {
  }

  lemma TwoDigits(a: int, b: int)
    requires 0 <= a < b
    ensures a / 64 < b / 64 || (a / 64 == b / 64 && a % 64 < b % 64)
  {
  }

  lemma Nested(a: int)
    requires 0 <= a
    ensures a / 64 / 64 == a / 4096 && a / 64 / 64 / 64 == a / 262144
  {
  }

  lemma LexAt(u: seq<int>, v: seq<int>, k: nat)
    requires k < |u| == |v| && u[k] < v[k] && forall j :: 0 <= j < k ==> u[j] == v[j]
    ensures LexLess(u, v)
  {
    assert u[..k] == v[..k] && u == u[..k] + u[k..] && v == u[..k] + v[k..];
    LexAfterSame(u[..k], u[k..], v[k..]);
  }

  /** The digit, in base 64 and counted from the back, in which two numbers first differ. */
  lemma FirstDigit(a: int, b: int) returns (k: nat)
    requires 0 <= a < b < 0x110000
    ensures k <= 3
    ensures k == 0 ==> a / 64 == b / 64 && a / 4096 == b / 4096 && a / 262144 == b / 262144 && a % 64 < b % 64
    ensures k == 1 ==> a / 4096 == b / 4096 && a / 262144 == b / 262144 && a / 64 % 64 < b / 64 % 64
    ensures k == 2 ==> a / 4096 < b / 4096 && a / 262144 == b / 262144 && a / 4096 % 64 < b / 4096 % 64
    ensures k == 3 ==> a / 262144 < b / 262144
    ensures k == 1 ==> a / 64 < b / 64
  {
    Nested(a);
    Nested(b);
    TwoDigits(a, b);
    if a / 64 == b / 64 { return 0; }
    TwoDigits(a / 64, b / 64);
    if a / 4096 == b / 4096 { return 1; }
    TwoDigits(a / 4096, b / 4096);
    k := if a / 262144 == b / 262144 then 2 else 3;
  }

  lemma Ranges(c: int)
    requires IsScalar(c)
    ensures c / 64 < 0x11000 / 4 && (c < 0x800 ==> c / 4096 == 0 && c / 64 < 64)
    ensures (c < 0x10000 ==> c / 262144 == 0 && c / 4096 < 64)
  {
  }

  lemma SameLengthBefore(a: int, b: int)
    requires IsScalar(a) && IsScalar(b) && a < b && |Encode(a)| == |Encode(b)|
    ensures LexLess(Encode(a), Encode(b))
  {
    hide LexLess;
    Ranges(a);
    Ranges(b);
    var k := FirstDigit(a, b);
    if |Encode(a)| == 4 {
      LexAt(Encode(a), Encode(b), 3 - k);
    } else if |Encode(a)| == 3 {
      LexAt(Encode(a), Encode(b), if k <= 2 then 2 - k else 0);
    } else if |Encode(a)| == 2 {
      LexAt(Encode(a), Encode(b), if k == 0 then 1 else 0);
    } else {
      LexAt(Encode(a), Encode(b), 0);
    }
  }

  /** A smaller character is encoded before a larger one, whatever follows. */
  lemma CharacterOrder(a: int, b: int, x: seq<int>, y: seq<int>)
    requires IsScalar(a) && IsScalar(b) && a < b
    ensures LexLess(Encode(a) + x, Encode(b) + y)
  {
    if |Encode(a)| == |Encode(b)| {
      SameLengthBefore(a, b);
      LexOfPrefixes(Encode(a), x, Encode(b), y);
    } else {
      ShortBefore(a, b);
    }
  }

  // ---------- texts ----------

  lemma {:induction false} BytesKeepOrder(a: Text, b: Text)
    requires LexLess(a, b)
    ensures LexLess(Bytes(a), Bytes(b))
  {
    if a != [] {
      if a[0] == b[0] {
        BytesKeepOrder(a[1..], b[1..]);
        LexAfterSame(Encode(a[0]), Bytes(a[1..]), Bytes(b[1..]));
      } else {
        CharacterOrder(a[0], b[0], Bytes(a[1..]), Bytes(b[1..]));
      }
    }
  }

  /** Byte order is code-point order, and different texts have different bytes. */
  lemma ByteOrderIsTextOrder(a: Text, b: Text)
    ensures LexLess(Bytes(a), Bytes(b)) <==> LexLess(a, b)
    ensures Bytes(a) == Bytes(b) <==> a == b
  {
    LexTrichotomy(a, b);
    LexTrichotomy(Bytes(a), Bytes(b));
    if LexLess(a, b) { BytesKeepOrder(a, b); }
    if LexLess(b, a) { BytesKeepOrder(b, a); }
  }

  // ---------- rows ----------

  /** The order a query returns its rows in: no key's bytes before those of the key above it. */
  predicate OrderedByBytes(keys: seq<Text>) {
    forall i :: 0 < i < |keys| ==> !LexLess(Bytes(keys[i]), Bytes(keys[i - 1]))
  }

  predicate Ascending(keys: seq<Text>) {
    forall i, j :: 0 <= i < j < |keys| ==> LexLess(keys[i], keys[j])
  }

  /** The comparison that the writer and the verifier make on the keys of consecutive rows. */
  method CheckStrictOrder(keys: seq<Text>) returns (ok: bool)
    ensures ok <==> Ascending(keys)
  {
    var previous: Option<Text> := None;
    for i := 0 to |keys|
      invariant Ascending(keys[..i])
      invariant if i == 0 then previous == None else previous == Some(keys[i - 1])
    {
      if previous.Some? && (LexLess(keys[i], previous.value) || keys[i] == previous.value) {
        LexTrichotomy(keys[i], previous.value);
        return false;
      }
      AscendingSnoc(keys[..i], keys[i]);
      assert keys[..i + 1] == keys[..i] + [keys[i]];
      previous := Some(keys[i]);
    }
    assert keys[..|keys|] == keys;
    ok := true;
  }

  lemma AscendingSnoc(keys: seq<Text>, key: Text)
    requires Ascending(keys) && (keys != [] ==> !LexLess(key, keys[|keys| - 1]) && key != keys[|keys| - 1])
    ensures Ascending(keys + [key])
  {
    if keys != [] {
      var last := keys[|keys| - 1];
      LexTrichotomy(key, last);
      forall i | 0 <= i < |keys| ensures LexLess(keys[i], key) {
        if i < |keys| - 1 { LexTransitive(keys[i], last, key); }
      }
    }
  }

  /** Rows pass it exactly when they are in byte order and no key repeats. */
  lemma {:induction false} PassesExactlyWhenDistinct(keys: seq<Text>)
    ensures Ascending(keys) <==> OrderedByBytes(keys) && Distinct(keys)
  {
    forall i, j | 0 <= i < |keys| && 0 <= j < |keys|
      ensures LexLess(Bytes(keys[i]), Bytes(keys[j])) <==> LexLess(keys[i], keys[j])
    {
      ByteOrderIsTextOrder(keys[i], keys[j]);
    }
    forall i, j | 0 <= i < |keys| && 0 <= j < |keys|
      ensures !LexLess(keys[i], keys[i]) && (LexLess(keys[i], keys[j]) ==> !LexLess(keys[j], keys[i]))
    {
      LexTrichotomy(keys[i], keys[j]);
      LexTrichotomy(keys[i], keys[i]);
    }
    if OrderedByBytes(keys) && Distinct(keys) { AscendingFromNeighbours(keys); }
  }

  lemma {:induction false} AscendingFromNeighbours(keys: seq<Text>)
    requires forall i :: 0 < i < |keys| ==> !LexLess(keys[i], keys[i - 1]) && keys[i] != keys[i - 1]
    ensures Ascending(keys)
  {
    if keys != [] {
      var front := keys[..|keys| - 1];
      AscendingFromNeighbours(front);
      AscendingSnoc(front, keys[|keys| - 1]);
      assert keys == front + [keys[|keys| - 1]];
    }
  }
}
