/** How the verifier of a snapshot bundle reads a text and a file name. */
module SnapshotFiles {
  import opened Wrappers

  // ---------- texts ----------

  /** What reading a file as text makes of its line ends: a carriage return, with the line feed behind it if there is
      one, becomes a line feed. */
  function Translated(s: string): string {
    if s == "" then ""
    else if s[0] != '\r' then [s[0]] + Translated(s[1..])
    else if |s| > 1 && s[1] == '\n' then "\n" + Translated(s[2..])
    else "\n" + Translated(s[1..])
  }

  lemma {:induction false} TranslatedSame(s: string)
    requires '\r' !in s
    ensures Translated(s) == s
  {
    if s != "" { TranslatedSame(s[1..]); }
  }

  lemma {:induction false} NothingToTranslate(s: string)
    ensures '\r' !in Translated(s)
  {
    if s == "" {
    } else if s[0] == '\r' && |s| > 1 && s[1] == '\n' {
      NothingToTranslate(s[2..]);
    } else {
      NothingToTranslate(s[1..]);
    }
  }

  /** Any of the three line ends may close a line. */
  lemma {:induction false} LineEndsAgree(line: string)
    requires '\r' !in line
    ensures Translated(line + "\r\n") == Translated(line + "\r") == Translated(line + "\n") == line + "\n"
  {
    if line == "" {
      assert Translated("\r\n"[2..]) == "" && Translated("\r"[1..]) == "" && Translated("\n"[1..]) == "";
      assert line + "\r\n" == "\r\n" && line + "\r" == "\r" && line + "\n" == "\n";
    } else {
      LineEndsAgree(line[1..]);
      assert (line + "\r\n")[1..] == line[1..] + "\r\n" && (line + "\r")[1..] == line[1..] + "\r";
      assert (line + "\n")[1..] == line[1..] + "\n" && [line[0]] + (line[1..] + "\n") == line + "\n";
    }
  }

  /** A text is translated line by line: each line end becomes a line feed, and all else stays. */
  lemma {:induction false} TranslatedByLine(line: string, rest: string)
    requires '\r' !in line
    ensures Translated(line + "\n" + rest) == Translated(line + "\r\n" + rest) == line + "\n" + Translated(rest)
    ensures rest == "" || rest[0] != '\n' ==> Translated(line + "\r" + rest) == line + "\n" + Translated(rest)
  {
    hide Translated;
    if line == "" {
      EndTranslated(rest);
      assert line + "\n" == "\n" && line + "\r\n" == "\r\n" && line + "\r" == "\r";
    } else {
      TranslatedByLine(line[1..], rest);
      OneMoreCharacter(line, "\n", rest);
      OneMoreCharacter(line, "\r\n", rest);
      OneMoreCharacter(line, "\r", rest);
      FirstCharacter(line, "\n", Translated(rest));
    }
  }

  lemma FirstCharacter(line: string, end: string, rest: string)
    requires line != ""
    ensures [line[0]] + (line[1..] + end + rest) == line + end + rest
  {
  }

  lemma EndTranslated(rest: string)
    ensures Translated("\n" + rest) == Translated("\r\n" + rest) == "\n" + Translated(rest)
    ensures rest == "" || rest[0] != '\n' ==> Translated("\r" + rest) == "\n" + Translated(rest)
  {
    assert ("\n" + rest)[1..] == rest && ("\r\n" + rest)[2..] == rest && ("\r" + rest)[1..] == rest;
  }

  lemma OneMoreCharacter(line: string, end: string, rest: string)
    requires line != "" && line[0] != '\r'
    ensures Translated(line + end + rest) == [line[0]] + Translated(line[1..] + end + rest)
  {
    assert (line + end + rest)[1..] == line[1..] + end + rest;
  }

  // ---------- file names ----------

  /** A plain relative file name. */
  predicate IsSafeName(name: string) { name != "" && '/' !in name && '\\' !in name && name != "." && name != ".." }

  function FirstSlash(path: string): (n: nat)
    ensures n <= |path| && '/' !in path[..n] && (n < |path| ==> path[n] == '/')
  {
    if path == "" || path[0] == '/' then 0 else 1 + FirstSlash(path[1..])
  }

  /** The parts of a relative path; empty ones and single dots are dropped. */
  function Parts(path: string): seq<string> {
    if path == "" then []
    else
      var n := FirstSlash(path);
      var rest := if n < |path| then Parts(path[n + 1..]) else [];
      if path[..n] == "" || path[..n] == "." then rest else [path[..n]] + rest
  }

  /** The file that a manifest path names; `None` where it is refused. */
  function ArtifactName(path: string): Option<string> {
    if path == "" || '\\' in path || path[0] == '/' then None
    else if |Parts(path)| == 1 && Parts(path)[0] != ".." then Some(Parts(path)[0])
    else None
  }

  lemma {:induction false} PartsArePlain(path: string)
    ensures forall i :: 0 <= i < |Parts(path)| ==>
      Parts(path)[i] !in {"", "."} && '/' !in Parts(path)[i] && ('\\' !in path ==> '\\' !in Parts(path)[i])
  {
    if path != "" {
      var n := FirstSlash(path);
      if n < |path| { PartsArePlain(path[n + 1..]); }
    }
  }

  /** Whatever a path names is a plain name: nothing outside the directory. */
  lemma NamesAreSafe(path: string)
    requires ArtifactName(path).Some?
    ensures IsSafeName(ArtifactName(path).value)
  {
    PartsArePlain(path);
  }

  /** A path without a slash names itself, or is refused. */
  lemma PlainNames(path: string)
    requires '/' !in path
    ensures ArtifactName(path) == if IsSafeName(path) then Some(path) else None
  {
    if path != "" {
      assert FirstSlash(path) == |path|;
      assert path[..|path|] == path;
    }
  }

  lemma {:induction false} PartsOfFolder(path: string)
    ensures Parts(path + "/") == Parts(path)
  {
    if path == "" {
      assert "" + "/" == "/" && FirstSlash("/") == 0 && Parts("/"[1..]) == [];
    } else {
      hide FirstSlash;
      var n := FirstSlash(path);
      SlashBehind(path);
      if n < |path| {
        PartsOfFolder(path[n + 1..]);
        assert (path + "/")[n + 1..] == path[n + 1..] + "/" && (path + "/")[..n] == path[..n];
      } else {
        assert (path + "/")[n + 1..] == "" && (path + "/")[..n] == path[..n];
      }
    }
  }

  lemma {:induction false} SlashBehind(path: string)
    ensures FirstSlash(path + "/") == FirstSlash(path)
  {
    if path != "" && path[0] != '/' {
      assert (path + "/")[1..] == path[1..] + "/";
      SlashBehind(path[1..]);
    }
  }

  /** Slashes behind a path and a leading "./" name the same file. */
  lemma SameFile(path: string)
    requires path != "" && path[0] != '/'
    ensures ArtifactName(path + "/") == ArtifactName(path) && ArtifactName("./" + path) == ArtifactName(path)
  {
    PartsOfFolder(path);
    var dotted := "./" + path;
    assert FirstSlash(dotted) == 1 by { assert dotted[1..][0] == '/'; }
    assert dotted[..1] == "." && dotted[2..] == path;
    assert '\\' in dotted <==> '\\' in path;
    assert '\\' in path + "/" <==> '\\' in path;
  }

  // ---------- which paths name a file ----------

  /** Components with a slash between each two. */
  function Slashed(components: seq<string>): string {
    if components == [] then ""
    else if |components| == 1 then components[0]
    else components[0] + "/" + Slashed(components[1..])
  }

  /** The components that are not empty and no single dot. */
  function Named(components: seq<string>): seq<string> {
    if components == [] then []
    else (if components[0] == "" || components[0] == "." then [] else [components[0]]) + Named(components[1..])
  }

  ghost predicate NoSlash(components: seq<string>) {
    forall i :: 0 <= i < |components| ==> '/' !in components[i]
  }

  lemma {:induction false} FirstSlashIs(first: string, rest: string)
    requires '/' !in first
    ensures FirstSlash(first) == |first| && FirstSlash(first + "/" + rest) == |first|
  {
    if first == "" {
      assert first + "/" + rest == "/" + rest;
    } else {
      assert (first + "/" + rest)[1..] == first[1..] + "/" + rest;
      FirstSlashIs(first[1..], rest);
    }
  }

  lemma {:induction false} PartsOfSlashed(components: seq<string>)
    requires NoSlash(components)
    ensures Parts(Slashed(components)) == Named(components)
  {
    if components != [] {
      hide FirstSlash;
      var first, path := components[0], Slashed(components);
      FirstSlashIs(first, Slashed(components[1..]));
      PartsOfSlashed(components[1..]);
      if |components| == 1 {
        assert components[1..] == [] && path[..|first|] == first;
      } else {
        assert path[..|first|] == first && path[|first| + 1..] == Slashed(components[1..]);
      }
    }
  }

  lemma {:induction false} ComponentsOf(path: string) returns (components: seq<string>)
    ensures components != [] && NoSlash(components) && Slashed(components) == path
  {
    var n := FirstSlash(path);
    if n == |path| {
      components := [path];
      assert path[..n] == path;
    } else {
      var rest := ComponentsOf(path[n + 1..]);
      components := [path[..n]] + rest;
      assert components[1..] == rest;
      assert path == path[..n] + "/" + path[n + 1..];
    }
  }

  /** The path is the name with empty components and single dots around it. */
  ghost predicate PathTo(components: seq<string>, path: string, name: string) {
    NoSlash(components) && Slashed(components) == path && Named(components) == [name]
  }

  /** A path names a file if and only if it is relative, has no backslash, and apart from empty components and single
      dots consists of the file's own name, which is not two dots. */
  lemma NameExactlyWhen(path: string, name: string)
    ensures ArtifactName(path) == Some(name) <==>
      && path != "" && path[0] != '/' && '\\' !in path && name != ".."
      && exists components :: PathTo(components, path, name)
  {
    hide Parts, FirstSlash;
    if ArtifactName(path) == Some(name) {
      var components := ComponentsOf(path);
      PartsOfSlashed(components);
      assert Parts(path) == [name];
      assert PathTo(components, path, name);
    }
    if components :| PathTo(components, path, name) { PartsOfSlashed(components); }
  }
}
