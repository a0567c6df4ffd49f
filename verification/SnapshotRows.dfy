/** The JSON-lines files of a snapshot: the writer's loop and the verifier's. */
module SnapshotRows {
  import opened Wrappers
  import opened Order
  import opened Utf8Order
  import opened Sequences

  /** Serialised rows: `canon` writes one, `parse` reads a line as an object, `fields` are its keys and `key` its order
      key as text, absent when it is null. */
  datatype Codec<!P> = Codec(canon: P -> string, parse: string -> Option<P>, fields: P -> set<string>,
      key: P -> Option<Text>)

  /** Lines have no line feed inside, and reading one back gives the same line, fields and key. */
  ghost predicate Lawful<P(!new)>(c: Codec<P>) {
    forall p :: c.canon(p) != "" && '\n' !in c.canon(p) && ReadsBack(c, p)
  }

  predicate ReadsBack<P>(c: Codec<P>, p: P) {
    match c.parse(c.canon(p))
    case None => false
    case Some(q) => c.canon(q) == c.canon(p) && c.fields(q) == c.fields(p) && c.key(q) == c.key(p)
  }

  // ---------- lines of a file ----------

  function FileLineLength(s: string): (n: nat)
    requires s != ""
    ensures 1 <= n <= |s|
  {
    if s[0] == '\n' || |s| == 1 then 1 else 1 + FileLineLength(s[1..])
  }

  /** The lines that iterating over a file gives. */
  function FileLines(s: string): seq<string> {
    if s == "" then [] else [s[..FileLineLength(s)]] + FileLines(s[FileLineLength(s)..])
  }

  function Rendered<P>(c: Codec<P>, rows: seq<P>): string {
    if rows == [] then "" else c.canon(rows[0]) + "\n" + Rendered(c, rows[1..])
  }

  function RowLines<P>(c: Codec<P>, rows: seq<P>): (lines: seq<string>)
    ensures |lines| == |rows|
  {
    seq(|rows|, i requires 0 <= i < |rows| => c.canon(rows[i]) + "\n")
  }

  lemma {:induction false} FirstFileLine(body: string, rest: string)
    requires '\n' !in body
    ensures FileLineLength(body + "\n" + rest) == |body| + 1
  {
    var s := body + "\n" + rest;
    if body != "" {
      assert s[0] == body[0] && s[1..] == body[1..] + "\n" + rest;
      FirstFileLine(body[1..], rest);
    }
  }

  lemma {:induction false} LinesOfRendered<P(!new)>(c: Codec<P>, rows: seq<P>)
    requires Lawful(c)
    ensures FileLines(Rendered(c, rows)) == RowLines(c, rows)
  {
    if rows != [] {
      var body, rest := c.canon(rows[0]), Rendered(c, rows[1..]);
      FirstFileLine(body, rest);
      LinesOfRendered(c, rows[1..]);
      assert Rendered(c, rows) == body + "\n" + rest;
      assert (body + "\n" + rest)[..|body| + 1] == body + "\n" && (body + "\n" + rest)[|body| + 1..] == rest;
      assert RowLines(c, rows) == [body + "\n"] + RowLines(c, rows[1..]);
    }
  }

  // ---------- writing ----------

  predicate HasKeys<P>(c: Codec<P>, rows: seq<P>) {
    forall i :: 0 <= i < |rows| ==> c.key(rows[i]).Some?
  }

  function Keys<P>(c: Codec<P>, rows: seq<P>): seq<Text>
    requires HasKeys(c, rows)
  {
    seq(|rows|, i requires 0 <= i < |rows| => c.key(rows[i]).value)
  }

  predicate Writable<P>(c: Codec<P>, rows: seq<P>) {
    HasKeys(c, rows) && Ascending(Keys(c, rows))
  }

  /** Not after the key before it. */
  predicate OutOfOrder(previous: Option<Text>, key: Text) {
    previous.Some? && (LexLess(key, previous.value) || key == previous.value)
  }

  lemma KeyExtends(keys: seq<Text>, key: Text)
    requires Ascending(keys)
    ensures Ascending(keys + [key]) <==> !OutOfOrder(if keys == [] then None else Some(keys[|keys| - 1]), key)
  {
    if keys != [] {
      var last := keys[|keys| - 1];
      LexTrichotomy(key, last);
      if Ascending(keys + [key]) { assert LexLess((keys + [key])[|keys| - 1], (keys + [key])[|keys|]); }
      else if !LexLess(key, last) && key != last { AscendingSnoc(keys, key); }
    }
  }

  /** The writer: `None` where it raises. */
  method StreamRows<P(!new)>(c: Codec<P>, rows: seq<P>) returns (r: Option<(string, nat)>)
    ensures r == if Writable(c, rows) then Some((Rendered(c, rows), |rows|)) else None
  {
    var text, previous: Option<Text> := "", None;
    for i := 0 to |rows|
      invariant Writable(c, rows[..i]) && text == Rendered(c, rows[..i])
      invariant previous == if i == 0 then None else c.key(rows[i - 1])
    {
      var key := c.key(rows[i]);
      assert rows[..i + 1] == rows[..i] + [rows[i]];
      if key.None? { return None; }
      ghost var keys := Keys(c, rows[..i]);
      KeyExtends(keys, key.value);
      assert HasKeys(c, rows[..i + 1]) && Keys(c, rows[..i + 1]) == keys + [key.value];
      if OutOfOrder(previous, key.value) {
        if Writable(c, rows) { PrefixWritable(c, rows, i + 1); }
        return None;
      }
      previous := key;
      RenderedSnoc(c, rows[..i], rows[i]);
      text := text + (c.canon(rows[i]) + "\n");
    }
    assert rows[..|rows|] == rows;
    r := Some((text, |rows|));
  }

  lemma PrefixWritable<P>(c: Codec<P>, rows: seq<P>, n: nat)
    requires n <= |rows| && Writable(c, rows)
    ensures Writable(c, rows[..n])
  {
    assert HasKeys(c, rows[..n]);
    assert Keys(c, rows[..n]) == Keys(c, rows)[..n];
  }

  lemma {:induction false} RenderedSnoc<P>(c: Codec<P>, rows: seq<P>, row: P)
    ensures Rendered(c, rows + [row]) == Rendered(c, rows) + (c.canon(row) + "\n")
  {
    if rows == [] {
      assert Rendered(c, []) == "" && (rows + [row])[1..] == [];
    } else {
      assert (rows + [row])[1..] == rows[1..] + [row];
      RenderedSnoc(c, rows[1..], row);
    }
  }

  // ---------- verifying ----------

  /** The key of a line that meets the field contract and is canonical; `None` where the verifier raises. */
  function LineKey<P>(c: Codec<P>, expected: set<string>, line: string): Option<Text> {
    if line == "" || line[|line| - 1] != '\n' || |line| == 1 then None
    else
      match c.parse(line[..|line| - 1])
      case None => None
      case Some(row) => if c.fields(row) == expected && c.canon(row) == line[..|line| - 1] then c.key(row) else None
  }

  predicate LinesHaveKeys<P>(c: Codec<P>, expected: set<string>, lines: seq<string>) {
    forall i :: 0 <= i < |lines| ==> LineKey(c, expected, lines[i]).Some?
  }

  function LineKeys<P>(c: Codec<P>, expected: set<string>, lines: seq<string>): (keys: seq<Text>)
    requires LinesHaveKeys(c, expected, lines)
    ensures |keys| == |lines|
  {
    seq(|lines|, i requires 0 <= i < |lines| => LineKey(c, expected, lines[i]).value)
  }

  predicate Acceptable<P>(c: Codec<P>, expected: set<string>, lines: seq<string>) {
    LinesHaveKeys(c, expected, lines) && Ascending(LineKeys(c, expected, lines))
  }

  function RowCount<P>(c: Codec<P>, expected: set<string>, text: string): Option<nat> {
    if Acceptable(c, expected, FileLines(text)) then Some(|FileLines(text)|) else None
  }

  /** The verifier: the number of rows, or `None` where it raises. */
  method VerifyRows<P>(c: Codec<P>, expected: set<string>, text: string) returns (r: Option<nat>)
    ensures r == RowCount(c, expected, text)
  {
    hide LineKey, FileLines;
    var lines := FileLines(text);
    var previous: Option<Text>, rows := None, 0;
    while rows < |lines|
      invariant rows <= |lines| && Acceptable(c, expected, lines[..rows])
      invariant previous == if rows == 0 then None else LineKey(c, expected, lines[rows - 1])
    {
      var key := LineKey(c, expected, lines[rows]);
      if key.None? { return None; }
      ghost var keys := LineKeys(c, expected, lines[..rows]);
      KeyExtends(keys, key.value);
      assert LineKeys(c, expected, lines[..rows + 1]) == keys + [key.value];
      if OutOfOrder(previous, key.value) {
        if Acceptable(c, expected, lines) { PrefixAcceptable(c, expected, lines, rows + 1); }
        return None;
      }
      previous := key;
      rows := rows + 1;
    }
    assert lines[..|lines|] == lines;
    r := Some(rows);
  }

  lemma PrefixAcceptable<P>(c: Codec<P>, expected: set<string>, lines: seq<string>, n: nat)
    requires n <= |lines| && Acceptable(c, expected, lines)
    ensures Acceptable(c, expected, lines[..n])
  {
    hide LineKey;
    assert LineKeys(c, expected, lines[..n]) == LineKeys(c, expected, lines)[..n];
  }

  // ---------- agreement ----------

  predicate MeetContract<P>(c: Codec<P>, expected: set<string>, rows: seq<P>) {
    forall i :: 0 <= i < |rows| ==> c.fields(rows[i]) == expected
  }

  lemma KeyOfRowLine<P(!new)>(c: Codec<P>, expected: set<string>, row: P)
    requires Lawful(c)
    ensures LineKey(c, expected, c.canon(row) + "\n") == if c.fields(row) == expected then c.key(row) else None
  {
    var line := c.canon(row) + "\n";
    assert line[..|line| - 1] == c.canon(row);
    assert ReadsBack(c, row);
  }

  /** What the writer writes, the verifier accepts with the same number of rows, exactly when the rows meet the field
      contract. */
  lemma WrittenRowsVerify<P(!new)>(c: Codec<P>, expected: set<string>, rows: seq<P>)
    requires Lawful(c) && Writable(c, rows)
    ensures RowCount(c, expected, Rendered(c, rows)) == if MeetContract(c, expected, rows) then Some(|rows|) else None
  {
    hide LineKey, FileLines, Rendered;
    LinesOfRendered(c, rows);
    var lines := RowLines(c, rows);
    forall i | 0 <= i < |rows|
      ensures LineKey(c, expected, lines[i]) == if c.fields(rows[i]) == expected then c.key(rows[i]) else None
    {
      KeyOfRowLine(c, expected, rows[i]);
    }
    if MeetContract(c, expected, rows) {
      assert LineKeys(c, expected, lines) == Keys(c, rows);
    } else {
      var i :| 0 <= i < |rows| && c.fields(rows[i]) != expected;
      assert LineKey(c, expected, lines[i]).None?;
    }
  }

  /** A line with a key is the canonical line of a row with the fields expected. */
  lemma RowOfLine<P>(c: Codec<P>, expected: set<string>, line: string) returns (row: P)
    requires LineKey(c, expected, line).Some?
    ensures c.canon(row) + "\n" == line && c.fields(row) == expected && LineKey(c, expected, line) == c.key(row)
  {
    row := c.parse(line[..|line| - 1]).value;
  }

  lemma FirstOfLines(text: string) returns (line: string, rest: string)
    requires text != ""
    ensures text == line + rest && |rest| < |text| && FileLines(text) == [line] + FileLines(rest)
  {
    hide FileLineLength;
    line, rest := text[..FileLineLength(text)], text[FileLineLength(text)..];
  }

  lemma RowsCons<P>(c: Codec<P>, expected: set<string>, row: P, line: string, rows: seq<P>, lines: seq<string>)
    requires c.canon(row) + "\n" == line && LineKey(c, expected, line) == c.key(row) && c.key(row).Some?
    requires c.fields(row) == expected && MeetContract(c, expected, rows) && RowLines(c, rows) == lines
    requires LinesHaveKeys(c, expected, lines) && HasKeys(c, rows) && Keys(c, rows) == LineKeys(c, expected, lines)
    ensures MeetContract(c, expected, [row] + rows) && RowLines(c, [row] + rows) == [line] + lines
    ensures LinesHaveKeys(c, expected, [line] + lines) && HasKeys(c, [row] + rows)
    ensures Keys(c, [row] + rows) == LineKeys(c, expected, [line] + lines)
    ensures Rendered(c, [row] + rows) == line + Rendered(c, rows)
  {
    hide LineKey;
    assert ([row] + rows)[1..] == rows;
    assert forall i :: 0 <= i < |lines| ==> RowLines(c, rows)[i] == lines[i];
    var all, keys := Keys(c, [row] + rows), LineKeys(c, expected, [line] + lines);
    forall i | 0 <= i < |all| ensures all[i] == keys[i] {
      if i > 0 {
        assert all[i] == Keys(c, rows)[i - 1] && keys[i] == LineKeys(c, expected, lines)[i - 1];
      }
    }
  }

  /** The rows of the lines that have keys. */
  lemma {:induction false} RowsOfLines<P>(c: Codec<P>, expected: set<string>, text: string) returns (rows: seq<P>)
    requires LinesHaveKeys(c, expected, FileLines(text))
    ensures Rendered(c, rows) == text && RowLines(c, rows) == FileLines(text) && MeetContract(c, expected, rows)
    ensures HasKeys(c, rows) && Keys(c, rows) == LineKeys(c, expected, FileLines(text))
    decreases |text|
  {
    if text == "" {
      rows := [];
    } else {
      hide *;
      var line, rest := FirstOfLines(text);
      RestHasKeys(c, expected, line, FileLines(rest));
      var more := RowsOfLines(c, expected, rest);
      var row := RowOfLine(c, expected, line);
      rows := [row] + more;
      RowsCons(c, expected, row, line, more, FileLines(rest));
    }
  }

  lemma RestHasKeys<P>(c: Codec<P>, expected: set<string>, line: string, lines: seq<string>)
    requires LinesHaveKeys(c, expected, [line] + lines)
    ensures LineKey(c, expected, line).Some? && LinesHaveKeys(c, expected, lines)
  {
    hide LineKey;
    assert ([line] + lines)[0] == line;
    forall i | 0 <= i < |lines| ensures LineKey(c, expected, lines[i]).Some? {
      assert ([line] + lines)[i + 1] == lines[i];
    }
  }

  /** Rows with these fields and ascending keys, whose canonical lines are the text. */
  ghost predicate WrittenFrom<P>(c: Codec<P>, expected: set<string>, rows: seq<P>, text: string) {
    MeetContract(c, expected, rows) && Writable(c, rows) && Rendered(c, rows) == text
  }

  /** The verifier accepts exactly the texts that the writer may have written, and counts their rows. */
  lemma AcceptsExactlyWritten<P(!new)>(c: Codec<P>, expected: set<string>, text: string, n: nat)
    requires Lawful(c)
    ensures RowCount(c, expected, text) == Some(n) <==>
      exists rows :: |rows| == n && WrittenFrom(c, expected, rows, text)
  {
    hide LineKey, FileLines, Rendered, MeetContract, Lawful;
    if RowCount(c, expected, text) == Some(n) {
      var rows := RowsOfLines(c, expected, text);
      assert |rows| == n && WrittenFrom(c, expected, rows, text);
    }
    if rows :| |rows| == n && WrittenFrom(c, expected, rows, text) { WrittenRowsVerify(c, expected, rows); }
  }

  /** A file that the verifier accepts repeats no key. */
  lemma AcceptedKeysDiffer<P>(c: Codec<P>, expected: set<string>, text: string)
    requires RowCount(c, expected, text).Some?
    ensures Distinct(LineKeys(c, expected, FileLines(text)))
  {
    PassesExactlyWhenDistinct(LineKeys(c, expected, FileLines(text)));
  }
}
