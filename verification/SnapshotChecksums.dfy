/** The checksum file of a snapshot bundle: how it is written and how it is read. */
module SnapshotChecksums {
  import opened Wrappers
  import opened Order
  import opened Sorting
  import opened SnapshotFiles
  import T = DeckText

  predicate IsHexDigit(c: char) { '0' <= c <= '9' || 'a' <= c <= 'f' }

  predicate IsDigest(s: string) { |s| == 64 && forall i :: 0 <= i < |s| ==> IsHexDigit(s[i]) }

  /** A name that can stand in a line. */
  predicate IsLineName(name: string) {
    IsSafeName(name) && forall i :: 0 <= i < |name| ==> !T.IsBreak(name[i])
  }

  // ---------- writing ----------

  function ChecksumLine(name: string, digest: string): string { digest + "  " + name + "\n" }

  function ChecksumLines(names: seq<string>, digests: map<string, string>): (lines: seq<string>)
    requires forall i :: 0 <= i < |names| ==> names[i] in digests
    ensures |lines| == |names|
  {
    seq(|names|, i requires 0 <= i < |names| => ChecksumLine(names[i], digests[names[i]]))
  }

  /** Writing the lines by name. */
  method WriteChecksums(names: seq<string>, digests: map<string, string>) returns (text: string)
    requires forall i :: 0 <= i < |names| ==> names[i] in digests
    ensures forall i :: 0 <= i < |Sort(names, TextAtMost)| ==> Sort(names, TextAtMost)[i] in digests
    ensures text == T.Join(ChecksumLines(Sort(names, TextAtMost), digests))
  {
    var sorted := Sort(names, TextAtMost);
    SortedNames(names);
    var lines: seq<string> := [];
    for i := 0 to |sorted|
      invariant lines == ChecksumLines(sorted[..i], digests)
    {
      lines := lines + [ChecksumLine(sorted[i], digests[sorted[i]])];
    }
    assert sorted[..|sorted|] == sorted;
    text := T.Join(lines);
  }

  lemma SortedNames(names: seq<string>)
    ensures forall i :: 0 <= i < |Sort(names, TextAtMost)| ==> Sort(names, TextAtMost)[i] in names
    ensures forall n :: n in names <==> n in Sort(names, TextAtMost)
  {
    var sorted := Sort(names, TextAtMost);
    forall i | 0 <= i < |sorted| ensures sorted[i] in names { assert sorted[i] in multiset(sorted); }
    forall n | n in names ensures n in sorted { assert n in multiset(names); }
  }

  // ---------- reading ----------

  /** A line of the file without its line break. */
  function Body(line: string): string {
    if |line| >= 2 && line[|line| - 2] == '\r' && line[|line| - 1] == '\n' then line[..|line| - 2]
    else if line != "" && T.IsBreak(line[|line| - 1]) then line[..|line| - 1]
    else line
  }

  function ParseLine(line: string): Option<(string, string)> {
    var body := Body(line);
    if |body| > 66 && IsDigest(body[..64]) && body[64] == body[65] == ' ' && IsSafeName(body[66..])
    then Some((body[66..], body[..64])) else None
  }

  /** The entries of the first `n` lines; `None` for a malformed line or a repeated name. */
  function ParseLines(lines: seq<string>, n: nat): Option<map<string, string>>
    requires n <= |lines|
  {
    if n == 0 then Some(map[])
    else
      match (ParseLines(lines, n - 1), ParseLine(lines[n - 1]))
      case (Some(values), Some((name, digest))) => if name in values then None else Some(values[name := digest])
      case _ => None
  }

  /** The entries of a file with this content. */
  function ParseChecksums(content: string): Option<map<string, string>> {
    var lines := T.SplitLines(Translated(content));
    ParseLines(lines, |lines|)
  }

  method ReadChecksums(content: string) returns (r: Option<map<string, string>>)
    ensures r == ParseChecksums(content)
  {
    hide ParseLine;
    var lines := T.SplitLines(Translated(content));
    var values: map<string, string> := map[];
    for i := 0 to |lines|
      invariant ParseLines(lines, i) == Some(values)
    {
      var entry := ParseLine(lines[i]);
      if entry.None? || entry.value.0 in values {
        ParseFails(lines, i + 1, |lines|);
        return None;
      }
      values := values[entry.value.0 := entry.value.1];
    }
    r := Some(values);
  }

  lemma {:induction false} ParseFails(lines: seq<string>, m: nat, n: nat)
    requires m <= n <= |lines| && ParseLines(lines, m).None?
    ensures ParseLines(lines, n).None?
  {
    hide ParseLine;
    if m < n { ParseFails(lines, m, n - 1); }
  }

  // ---------- agreement ----------

  lemma LineReadsBack(name: string, digest: string)
    requires IsLineName(name) && IsDigest(digest)
    ensures T.IsLine(ChecksumLine(name, digest)) && ParseLine(ChecksumLine(name, digest)) == Some((name, digest))
  {
    var line := ChecksumLine(name, digest);
    var body := digest + "  " + name;
    assert line == body + "\n" && line[..|line| - 1] == body;
    assert body[..64] == digest && body[66..] == name && body[64] == ' ' && body[65] == ' ';
    assert line[|line| - 2] == name[|name| - 1];
    forall i | 0 <= i < |line| - 1 ensures !T.IsBreak(line[i]) {
      if i < 64 { assert line[i] == digest[i]; } else if i >= 66 { assert line[i] == name[i - 66]; }
    }
  }

  ghost predicate Writable(names: seq<string>, digests: map<string, string>) {
    && (forall i, j :: 0 <= i < j < |names| ==> names[i] != names[j])
    && (forall i :: 0 <= i < |names| ==> IsLineName(names[i]) && names[i] in digests && IsDigest(digests[names[i]]))
  }

  /** The digests of the named files. */
  function Only(digests: map<string, string>, names: seq<string>): map<string, string> {
    map k | k in digests && k in names :: digests[k]
  }

  lemma OnlySnoc(digests: map<string, string>, names: seq<string>, name: string)
    requires name in digests
    ensures Only(digests, names + [name]) == Only(digests, names)[name := digests[name]]
    ensures name in Only(digests, names) <==> name in names
  {
  }

  lemma OnlySame(digests: map<string, string>, names: seq<string>, others: seq<string>)
    requires forall n :: n in names <==> n in others
    ensures Only(digests, names) == Only(digests, others)
  {
  }

  lemma {:induction false} LinesReadBack(names: seq<string>, digests: map<string, string>, n: nat)
    requires Writable(names, digests) && n <= |names|
    ensures ParseLines(ChecksumLines(names, digests), n) == Some(Only(digests, names[..n]))
  {
    hide ParseLine, ChecksumLine, IsLineName, IsDigest;
    if n > 0 {
      LinesReadBack(names, digests, n - 1);
      LineReadsBack(names[n - 1], digests[names[n - 1]]);
      assert names[..n] == names[..n - 1] + [names[n - 1]];
      OnlySnoc(digests, names[..n - 1], names[n - 1]);
    } else {
      assert Only(digests, names[..0]) == map[];
    }
  }

  lemma StillWritable(names: seq<string>, digests: map<string, string>)
    requires Writable(names, digests)
    ensures Writable(Sort(names, TextAtMost), digests)
  {
    hide IsLineName, IsDigest;
    var sorted := Sort(names, TextAtMost);
    SortedNames(names);
    forall i, j | 0 <= i < j < |sorted| ensures sorted[i] != sorted[j] {
      OnceEach(names, sorted[i]);
      if sorted[i] == sorted[j] { Twice(sorted, i, j); }
    }
  }

  lemma {:induction false} OnceEach(names: seq<string>, name: string)
    requires forall i, j :: 0 <= i < j < |names| ==> names[i] != names[j]
    ensures multiset(names)[name] <= 1
  {
    if names != [] {
      var front := names[..|names| - 1];
      OnceEach(front, name);
      assert names == front + [names[|names| - 1]];
      if name == names[|names| - 1] { assert name !in front; }
    }
  }

  lemma Twice(s: seq<string>, i: nat, j: nat)
    requires i < j < |s| && s[i] == s[j]
    ensures multiset(s)[s[i]] >= 2
  {
    assert s == s[..j] + [s[j]] + s[j + 1..];
    assert s[i] in s[..j];
  }

  lemma {:induction false} JoinHasNoReturn(lines: seq<string>)
    requires forall i :: 0 <= i < |lines| ==> T.IsLine(lines[i])
    ensures '\r' !in T.Join(lines)
  {
    if lines != [] {
      LineHasNoReturn(lines[0]);
      JoinHasNoReturn(lines[1..]);
    }
  }

  lemma LineHasNoReturn(line: string)
    requires T.IsLine(line)
    ensures '\r' !in line
  {
    assert T.IsBreak('\r');
  }

  /** What is written is read back as exactly the digests of the named files. */
  lemma ChecksumsReadBack(names: seq<string>, digests: map<string, string>)
    requires Writable(names, digests)
    ensures forall i :: 0 <= i < |Sort(names, TextAtMost)| ==> Sort(names, TextAtMost)[i] in digests
    ensures ParseChecksums(T.Join(ChecksumLines(Sort(names, TextAtMost), digests))) == Some(Only(digests, names))
  {
    hide ParseLine, ChecksumLine, IsLineName, IsDigest, Sort;
    var sorted := Sort(names, TextAtMost);
    StillWritable(names, digests);
    SortedNames(names);
    var lines := ChecksumLines(sorted, digests);
    forall i | 0 <= i < |lines| ensures T.IsLine(lines[i]) { LineReadsBack(sorted[i], digests[sorted[i]]); }
    T.SplitOfJoin(lines);
    JoinHasNoReturn(lines);
    TranslatedSame(T.Join(lines));
    LinesReadBack(sorted, digests, |sorted|);
    assert sorted[..|sorted|] == sorted;
    SortedNames(names);
    OnlySame(digests, sorted, names);
  }

  // ---------- what is accepted ----------

  /** A line of the digest, two blanks and the name, with at most one line break behind it. */
  ghost predicate ListsFile(line: string, name: string, digest: string) {
    && |digest| == 64 && (forall c :: c in digest ==> '0' <= c <= '9' || 'a' <= c <= 'f') && IsSafeName(name)
    && exists end :: line == digest + "  " + name + end && IsLineEnd(end)
  }

  ghost predicate IsLineEnd(end: string) {
    end == "" || end == "\r\n" || (|end| == 1 && T.IsBreak(end[0]))
  }

  lemma DigestIs(s: string)
    ensures IsDigest(s) <==> |s| == 64 && forall c :: c in s ==> '0' <= c <= '9' || 'a' <= c <= 'f'
  {
    if IsDigest(s) {
      forall c | c in s ensures '0' <= c <= '9' || 'a' <= c <= 'f' {
        var i :| 0 <= i < |s| && s[i] == c;
        assert IsHexDigit(s[i]);
      }
    }
    if |s| == 64 && forall c :: c in s ==> '0' <= c <= '9' || 'a' <= c <= 'f' {
      forall i | 0 <= i < |s| ensures IsHexDigit(s[i]) { assert s[i] in s; }
    }
  }

  /** Every line that is read lists its file. */
  lemma LineIsListed(line: string)
    ensures ParseLine(line).Some? ==> ListsFile(line, ParseLine(line).value.0, ParseLine(line).value.1)
  {
    hide IsSafeName;
    if ParseLine(line).Some? {
      var body := Body(line);
      var end := line[|body|..];
      DigestIs(body[..64]);
      assert body == body[..64] + "  " + body[66..] by { assert body[64..66] == "  "; }
      assert line == body + end;
      hide ParseLine, Body, IsDigest;
      assert IsLineEnd(end);
    }
  }

  ghost predicate Gives(line: string, name: string, digest: string) {
    ParseLine(line) == Some((name, digest))
  }

  /** A name is given on one of the first lines. */
  ghost predicate GivenIn(lines: seq<string>, n: nat, name: string, digest: string)
    requires n <= |lines|
  {
    exists i :: 0 <= i < n && Gives(lines[i], name, digest)
  }

  lemma ParsedMore(lines: seq<string>, n: nat) returns (name: string, digest: string, values: map<string, string>)
    requires 0 < n <= |lines| && ParseLines(lines, n).Some?
    ensures ParseLines(lines, n - 1) == Some(values) && Gives(lines[n - 1], name, digest) && name !in values
    ensures ParseLines(lines, n) == Some(values[name := digest])
  {
    hide ParseLine;
    values := ParseLines(lines, n - 1).value;
    name, digest := ParseLine(lines[n - 1]).value.0, ParseLine(lines[n - 1]).value.1;
  }

  lemma {:induction false} NamesAreGiven(lines: seq<string>, n: nat)
    requires n <= |lines| && ParseLines(lines, n).Some?
    ensures var values := ParseLines(lines, n).value;
      |values| == n && forall name :: name in values ==> GivenIn(lines, n, name, values[name])
  {
    hide Gives;
    if n > 0 {
      var name, digest, values := ParsedMore(lines, n);
      NamesAreGiven(lines, n - 1);
      var all := values[name := digest];
      assert all.Keys == values.Keys + {name};
      forall other | other in all ensures GivenIn(lines, n, other, all[other]) {
        if other == name {
          assert Gives(lines[n - 1], other, digest);
        } else {
          assert GivenIn(lines, n - 1, other, values[other]);
        }
      }
    }
  }

  /** An accepted checksum file has one line for every file whose digest it gives, and no others. */
  lemma ChecksumsAreListed(content: string)
    requires ParseChecksums(content).Some?
    ensures var lines, values := T.SplitLines(Translated(content)), ParseChecksums(content).value;
      && |values| == |lines|
      && forall name :: name in values ==> exists i :: 0 <= i < |lines| && ListsFile(lines[i], name, values[name])
  {
    hide ParseLine, ListsFile;
    var lines, values := T.SplitLines(Translated(content)), ParseChecksums(content).value;
    NamesAreGiven(lines, |lines|);
    forall name | name in values ensures exists i :: 0 <= i < |lines| && ListsFile(lines[i], name, values[name]) {
      assert GivenIn(lines, |lines|, name, values[name]);
      var i :| 0 <= i < |lines| && Gives(lines[i], name, values[name]);
      LineIsListed(lines[i]);
    }
  }
}
