/** The local file name chosen for a search result: `sanitize_filename`
    in fetch_agents.py. All of it is string manipulation on `seq<char>`. */
module Naming {

  datatype Option<T> = None | Some(value: T)

  /** A path `dir / name` under the output directory. The directory is kept
      apart from the file name instead of being joined into one string. */
  datatype Path = Path(dir: string, name: string)

  /** `s.split(sep, 1)` unpacked into two parts: the text before the first
      `sep` and everything after it. Python raises when there is no `sep`
      (too few values to unpack); that case is `None` here. */
  function SplitFirst(s: string, sep: char): (r: Option<(string, string)>)
    ensures r.None? <==> sep !in s
    ensures r.Some? ==> s == r.value.0 + [sep] + r.value.1 && sep !in r.value.0
  {
    if s == [] then None
    else if s[0] == sep then Some(([], s[1..]))
    else match SplitFirst(s[1..], sep)
      case None => None
      case Some((front, back)) => Some(([s[0]] + front, back))
  }

  /** Splitting at the first separator recovers the two parts it joined,
      whenever the first part holds no separator. */
  lemma {:induction false} SplitFirstJoin(front: string, sep: char, back: string)
    requires sep !in front
    ensures SplitFirst(front + [sep] + back, sep) == Some((front, back))
  {
    if front != [] {
      var s := front + [sep] + back;
      assert s[0] == front[0] != sep;
      assert s[1..] == front[1..] + [sep] + back;
      SplitFirstJoin(front[1..], sep, back);
      assert [front[0]] + front[1..] == front;
    }
  }

  /** `s.lstrip(c)`. */
  function StripLeft(s: string, c: char): string
  {
    if s != [] && s[0] == c then StripLeft(s[1..], c) else s
  }

  /** `s.rstrip(c)`. */
  function StripRight(s: string, c: char): string
  {
    if s != [] && s[|s| - 1] == c then StripRight(s[..|s| - 1], c) else s
  }

  /** `s.strip(c)`. */
  function Strip(s: string, c: char): string
  {
    StripRight(StripLeft(s, c), c)
  }

  /** `s.replace(from, to)` for one-character strings. */
  function Replace(s: string, from: char, to: char): string
  {
    if s == [] then [] else [if s[0] == from then to else s[0]] + Replace(s[1..], from, to)
  }

  /** `lstrip` drops the leading run of `c` and nothing else: the result is a
      suffix, everything before it is `c`, and it does not start with `c`. */
  lemma {:induction false} StripLeftSpec(s: string, c: char)
    ensures var r := StripLeft(s, c);
      |r| <= |s| && r == s[|s| - |r|..]
      && (forall k | 0 <= k < |s| - |r| :: s[k] == c)
      && (r == [] || r[0] != c)
  {
    if s != [] && s[0] == c {
      var t := s[1..];
      StripLeftSpec(t, c);
      var r := StripLeft(t, c);
      assert s[|s| - |r|..] == t[|t| - |r|..];
      assert forall k | 1 <= k < |s| - |r| :: s[k] == t[k - 1];
    }
  }

  /** `rstrip` drops the trailing run of `c` and nothing else: the result is
      a prefix, everything after it is `c`, and it does not end with `c`. */
  lemma {:induction false} StripRightSpec(s: string, c: char)
    ensures var r := StripRight(s, c);
      |r| <= |s| && r == s[..|r|]
      && (forall k | |r| <= k < |s| :: s[k] == c)
      && (r == [] || r[|r| - 1] != c)
  {
    if s != [] && s[|s| - 1] == c {
      var t := s[..|s| - 1];
      StripRightSpec(t, c);
      var r := StripRight(t, c);
      assert s[..|r|] == t[..|r|];
      assert forall k | |r| <= k < |t| :: s[k] == t[k];
    }
  }

  /** `strip` drops both runs: the result neither starts nor ends with
      `c`, and a string without `c` is returned unchanged. */
  lemma StripSpec(s: string, c: char)
    ensures var r := Strip(s, c);
      |r| <= |s|
      && (r == [] || (r[0] != c && r[|r| - 1] != c))
      && (c !in s ==> r == s)
  {
    var left := StripLeft(s, c);
    StripLeftSpec(s, c);
    StripRightSpec(left, c);
    if c !in s && left != [] {
      assert s[0] != c;
    }
  }

  /** `replace` keeps the length, turns every `from` into `to` and leaves
      every other character where it is. */
  lemma {:induction false} ReplaceSpec(s: string, from: char, to: char)
    ensures var r := Replace(s, from, to);
      |r| == |s| && forall k | 0 <= k < |s| :: r[k] == (if s[k] == from then to else s[k])
  {
    if s != [] {
      ReplaceSpec(s[1..], from, to);
    }
  }

  /** The path part of the file name (fetch_agents.py:99). */
  function SanitizePath(path: string): string
  {
    Replace(Replace(Strip(path, '/'), '/', '_'), '\\', '_')
  }

  /** The sanitized path is the stripped path with both separators turned
      into underscores, so it holds neither separator. */
  lemma SanitizePathSpec(path: string)
    ensures var stripped := Strip(path, '/');
      var r := SanitizePath(path);
      |r| == |stripped|
      && (forall k | 0 <= k < |r| ::
            r[k] == (if stripped[k] == '/' || stripped[k] == '\\' then '_' else stripped[k]))
      && '/' !in r && '\\' !in r
  {
    var stripped := Strip(path, '/');
    var once := Replace(stripped, '/', '_');
    var r := Replace(once, '\\', '_');
    ReplaceSpec(stripped, '/', '_');
    ReplaceSpec(once, '\\', '_');
    assert forall k | 0 <= k < |r| :: r[k] != '/' && r[k] != '\\';
  }

  /** Sanitizing a sanitized path changes nothing. */
  lemma SanitizePathIdempotent(path: string)
    ensures SanitizePath(SanitizePath(path)) == SanitizePath(path)
  {
    var r := SanitizePath(path);
    SanitizePathSpec(path);
    StripSpec(r, '/');
    ReplaceAbsent(r, '/', '_');
    ReplaceAbsent(r, '\\', '_');
  }

  /** Replacing a character that does not occur is the identity. */
  lemma ReplaceAbsent(s: string, from: char, to: char)
    requires from !in s
    ensures Replace(s, from, to) == s
  {
    ReplaceSpec(s, from, to);
    assert forall k | 0 <= k < |s| :: Replace(s, from, to)[k] == s[k];
  }

  /** `sanitize_filename` (fetch_agents.py:97-100): `None` stands for the
      ValueError raised when the repository name holds no `/`. */
  function SanitizeFilename(repository: string, path: string, outputDir: string): (r: Option<Path>)
    ensures r.None? <==> '/' !in repository
    ensures r.Some? ==> r.value.dir == outputDir
  {
    match SplitFirst(repository, '/')
    case None => None
    case Some((owner, repo)) => Some(Path(outputDir, owner + "_" + repo + "_" + SanitizePath(path)))
  }

  /** For a repository named `owner/repo`, the file is
      `outputDir / owner_repo_<sanitized path>`. */
  lemma SanitizeFilenameOf(owner: string, repo: string, path: string, outputDir: string)
    requires '/' !in owner
    ensures SanitizeFilename(owner + "/" + repo, path, outputDir)
         == Some(Path(outputDir, owner + "_" + repo + "_" + SanitizePath(path)))
  {
    SplitFirstJoin(owner, '/', repo);
  }

  /** Different repositories and paths can be given the same file name:
      `a_b/c` with `x` and `a/b_c` with `x` both become `a_b_c_x`. */
  lemma FileNamesCollide(outputDir: string)
    ensures SanitizeFilename("a_b/c", "x", outputDir) == SanitizeFilename("a/b_c", "x", outputDir)
  {
    assert "a_b" + "/" + "c" == "a_b/c" && "a" + "/" + "b_c" == "a/b_c";
    SanitizeFilenameOf("a_b", "c", "x", outputDir);
    SanitizeFilenameOf("a", "b_c", "x", outputDir);
    assert SanitizePath("x") == "x" by {
      StripSpec("x", '/');
      ReplaceAbsent("x", '/', '_');
      ReplaceAbsent("x", '\\', '_');
    }
    assert "a_b" + "_" + "c" + "_" + "x" == "a" + "_" + "b_c" + "_" + "x";
  }
}
