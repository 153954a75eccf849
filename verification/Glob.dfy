/** Glob patterns: the regular expression a pattern is compiled to, and what it
    matches (data-mig/storagex/filter/glob.go). Patterns hold no "[". */
module Glob {
  import opened Options
  import opened Paths

  // ---- the regular expressions the compiler writes ----

  // The pieces the compiler writes: a quoted character, [^/], [^/]*, .*, .*/ and
  // (?:.*/)?.
  datatype Piece = Lit(c: char) | One | Star | Any | Dirs | OptDirs

  /** "." is every character but a newline. */
  predicate NoNewline(s: string) {
    '\n' !in s
  }

  /** The anchored expression made of the pieces matches all of s. */
  ghost predicate Matches(re: seq<Piece>, s: string)
    decreases |re|, 0
  {
    if re == [] then s == ""
    else
      var rest := re[1..];
      match re[0]
      case Lit(c) => s != "" && s[0] == c && Matches(rest, s[1..])
      case One => s != "" && s[0] != '/' && Matches(rest, s[1..])
      case Star => exists k :: 0 <= k <= |s| && '/' !in s[..k] && Matches(rest, s[k..])
      case Any => exists k :: 0 <= k <= |s| && NoNewline(s[..k]) && Matches(rest, s[k..])
      case Dirs => AfterDirs(rest, s)
      case OptDirs => Matches(rest, s) || AfterDirs(rest, s)
  }

  // .*/ and then the rest.
  ghost predicate AfterDirs(rest: seq<Piece>, s: string)
    decreases |rest|, 1
  {
    exists k :: 0 <= k < |s| && s[k] == '/' && NoNewline(s[..k]) && Matches(rest, s[k + 1..])
  }

  // ---- the compiler ----

  datatype Compiled = Compiled(re: seq<Piece>, dirOnly: bool)

  /** The pieces of the pattern from some index on; atStart says it is 0. */
  function Pieces(p: string, atStart: bool): seq<Piece> {
    if p == "" then []
    else if p[0] == '*' then
      if |p| > 1 && p[1] == '*' then
        if |p| > 2 && p[2] == '/' then [if atStart then OptDirs else Dirs] + Pieces(p[3..], false)
        else [Any] + Pieces(p[2..], false)
      else [Star] + Pieces(p[1..], false)
    else if p[0] == '?' then [One] + Pieces(p[1..], false)
    else [Lit(p[0])] + Pieces(p[1..], false)
  }

  /** The pattern without the slash that ends it. */
  function Undirected(pattern: string): string {
    if HasSuffix(pattern, '/') then pattern[..|pattern| - 1] else pattern
  }

  /** What of a pattern is compared with the path. */
  function Core(pattern: string): string {
    TrimPrefix(Undirected(pattern), "/")
  }

  predicate Anchored(pattern: string) {
    Rooted(Undirected(pattern))
  }

  function Compile(pattern: string): Option<Compiled> {
    if Core(pattern) == "" then None
    else Some(Compiled((if Anchored(pattern) then [] else [OptDirs]) + Pieces(Core(pattern), true), HasSuffix(pattern, '/')))
  }

  /** buildGlobRegexp. */
  method BuildGlobRegexp(pattern: string) returns (r: Option<Compiled>)
    ensures r == Compile(pattern)
  {
    var dirOnly := HasSuffix(pattern, '/');
    var p := if dirOnly then pattern[..|pattern| - 1] else pattern;
    var anchored := Rooted(p);
    p := TrimPrefix(p, "/");
    if p == "" {
      return None;
    }
    var b := WritePieces(p, if anchored then [] else [OptDirs]);
    r := Some(Compiled(b, dirOnly));
  }

  /** The loop of buildGlobRegexp over the pattern's characters. */
  method WritePieces(p: string, start: seq<Piece>) returns (b: seq<Piece>)
    ensures b == start + Pieces(p, true)
  {
    b := start;
    var i := 0;
    assert p[0..] == p;
    while i < |p|
      invariant 0 <= i <= |p|
      invariant b + Pieces(p[i..], i == 0) == start + Pieces(p, true)
    {
      var atStart := i == 0;
      var piece, n := Lit(p[i]), 1;
      if p[i] == '*' {
        if i + 1 < |p| && p[i + 1] == '*' {
          if i + 2 < |p| && p[i + 2] == '/' {
            piece, n := if atStart then OptDirs else Dirs, 3;
          } else {
            piece, n := Any, 2;
          }
        } else {
          piece := Star;
        }
      } else if p[i] == '?' {
        piece := One;
      }
      Regroup(b, piece, p[i..], n, atStart);
      assert p[i..][n..] == p[i + n..];
      b := b + [piece];
      i := i + n;
    }
    assert p[i..] == "" && b + [] == b;
  }

  lemma Regroup(b: seq<Piece>, piece: Piece, p: string, n: nat, atStart: bool)
    requires n <= |p| && Pieces(p, atStart) == [piece] + Pieces(p[n..], false)
    ensures b + Pieces(p, atStart) == (b + [piece]) + Pieces(p[n..], false)
  {
  }

  /** globMatch. */
  ghost predicate GlobMatch(pattern: string, path: string, isDir: bool) {
    var g := Compile(pattern);
    g.Some? && (g.value.dirOnly ==> isDir) && Matches(g.value.re, Trim(path))
  }

  // ---- a matcher that reads the pattern itself ----

  // Matches a pattern by stepping along it and the path: "*" takes no slash, "**"
  // takes anything, and "**/" takes whole directories: at least one, or none at
  // the start of the pattern.
  predicate Wild(p: string, atStart: bool, s: string)
    decreases |p|, |s|, 0
  {
    if p == "" then s == ""
    else if p[0] == '*' then
      if |p| > 1 && p[1] == '*' then
        if |p| > 2 && p[2] == '/' then (atStart && Wild(p[3..], false, s)) || WildDirs(p[3..], s)
        else Wild(p[2..], false, s) || (s != "" && s[0] != '\n' && Wild(p, atStart, s[1..]))
      else Wild(p[1..], false, s) || (s != "" && s[0] != '/' && Wild(p, atStart, s[1..]))
    else s != "" && (if p[0] == '?' then s[0] != '/' else s[0] == p[0]) && Wild(p[1..], false, s[1..])
  }

  /** Takes one or more directories, and then the pattern. */
  predicate WildDirs(p: string, s: string)
    decreases |p|, |s|, 1
  {
    s != "" && s[0] != '\n' && ((s[0] == '/' && Wild(p, false, s[1..])) || WildDirs(p, s[1..]))
  }

  /** A cut of s past its first character is a cut of the rest. */
  lemma CutPastFirst(s: string, k: nat)
    requires 0 < k <= |s|
    ensures s[..k] == [s[0]] + s[1..][..k - 1] && s[k..] == s[1..][k - 1..]
  {
  }

  lemma StarUnfolds(rest: seq<Piece>, s: string)
    ensures Matches([Star] + rest, s) <==> Matches(rest, s) || (s != "" && s[0] != '/' && Matches([Star] + rest, s[1..]))
  {
    assert ([Star] + rest)[1..] == rest;
    assert s[0..] == s;
    if k :| 0 <= k <= |s| && '/' !in s[..k] && Matches(rest, s[k..]) {
      if k > 0 {
        CutPastFirst(s, k);
        assert s[0] in s[..k];
      }
    }
    if Matches(rest, s) {
      assert '/' !in s[..0];
    }
    if s != "" && s[0] != '/' && Matches([Star] + rest, s[1..]) {
      var k :| 0 <= k <= |s[1..]| && '/' !in s[1..][..k] && Matches(rest, s[1..][k..]);
      CutPastFirst(s, k + 1);
    }
  }

  lemma AnyUnfolds(rest: seq<Piece>, s: string)
    ensures Matches([Any] + rest, s) <==> Matches(rest, s) || (s != "" && s[0] != '\n' && Matches([Any] + rest, s[1..]))
  {
    assert ([Any] + rest)[1..] == rest;
    assert s[0..] == s;
    if k :| 0 <= k <= |s| && NoNewline(s[..k]) && Matches(rest, s[k..]) {
      if k > 0 {
        CutPastFirst(s, k);
        assert s[0] in s[..k];
      }
    }
    if Matches(rest, s) {
      assert NoNewline(s[..0]);
    }
    if s != "" && s[0] != '\n' && Matches([Any] + rest, s[1..]) {
      var k :| 0 <= k <= |s[1..]| && NoNewline(s[1..][..k]) && Matches(rest, s[1..][k..]);
      CutPastFirst(s, k + 1);
    }
  }

  lemma DirsUnfolds(rest: seq<Piece>, s: string)
    ensures AfterDirs(rest, s) <==> s != "" && s[0] != '\n' && ((s[0] == '/' && Matches(rest, s[1..])) || AfterDirs(rest, s[1..]))
  {
    if k :| 0 <= k < |s| && s[k] == '/' && NoNewline(s[..k]) && Matches(rest, s[k + 1..]) {
      if k > 0 {
        CutPastFirst(s, k);
        CutPastFirst(s, k + 1);
        assert s[0] in s[..k] && s[1..][k - 1] == s[k];
      }
    }
    if s != "" && s[0] == '/' && Matches(rest, s[1..]) {
      assert NoNewline(s[..0]) && s[0 + 1..] == s[1..];
    }
    if s != "" && s[0] != '\n' && AfterDirs(rest, s[1..]) {
      DirsUnfoldBack(rest, s);
    }
  }

  lemma DirsUnfoldBack(rest: seq<Piece>, s: string)
    requires s != "" && s[0] != '\n' && AfterDirs(rest, s[1..])
    ensures AfterDirs(rest, s)
  {
    var k :| 0 <= k < |s[1..]| && s[1..][k] == '/' && NoNewline(s[1..][..k]) && Matches(rest, s[1..][k + 1..]);
    CutPastFirst(s, k + 1);
    CutPastFirst(s, k + 2);
    assert s[k + 1] == '/' && Matches(rest, s[k + 1 + 1..]);
  }

  /** The compiled expression matches what the pattern does, read directly. */
  lemma {:induction false} CompilerIsRight(p: string, atStart: bool, s: string)
    ensures Matches(Pieces(p, atStart), s) <==> Wild(p, atStart, s)
    decreases |p|, |s|, 0
  {
    if p == "" {
    } else if p[0] == '*' {
      if |p| > 1 && p[1] == '*' {
        if |p| > 2 && p[2] == '/' {
          var rest := Pieces(p[3..], false);
          assert Pieces(p, atStart)[1..] == rest;
          CompilerIsRight(p[3..], false, s);
          DirsAreRight(p[3..], s);
        } else {
          CompilerIsRight(p[2..], false, s);
          AnyUnfolds(Pieces(p[2..], false), s);
          if s != "" {
            CompilerIsRight(p, atStart, s[1..]);
          }
        }
      } else {
        CompilerIsRight(p[1..], false, s);
        StarUnfolds(Pieces(p[1..], false), s);
        if s != "" {
          CompilerIsRight(p, atStart, s[1..]);
        }
      }
    } else if s != "" {
      CompilerIsRight(p[1..], false, s[1..]);
      assert Pieces(p, atStart)[1..] == Pieces(p[1..], false);
    }
  }

  lemma {:induction false} DirsAreRight(p: string, s: string)
    ensures AfterDirs(Pieces(p, false), s) <==> WildDirs(p, s)
    decreases |p|, |s|, 1
  {
    DirsUnfolds(Pieces(p, false), s);
    if s != "" {
      CompilerIsRight(p, false, s[1..]);
      DirsAreRight(p, s[1..]);
    }
  }

  // ---- what the patterns of the documentation match ----

  /** s[k..] begins a segment, and "." gets over what is before it. */
  predicate SegmentStart(s: string, k: nat) {
    k <= |s| && (k == 0 || (s[k - 1] == '/' && NoNewline(s[..k - 1])))
  }

  /** An unanchored pattern matches a path iff it matches, read from its start,
      some tail of it that begins at a segment. */
  lemma UnanchoredMatchesTail(pattern: string, s: string)
    requires !Anchored(pattern) && Core(pattern) != ""
    ensures Matches(Compile(pattern).value.re, s) <==>
            exists k: nat :: SegmentStart(s, k) && Wild(Core(pattern), true, s[k..])
  {
    var rest := Pieces(Core(pattern), true);
    assert ([OptDirs] + rest)[1..] == rest;
    if Matches(rest, s) {
      CompilerIsRight(Core(pattern), true, s);
      assert SegmentStart(s, 0) && s[0..] == s;
    } else if k :| 0 <= k < |s| && s[k] == '/' && NoNewline(s[..k]) && Matches(rest, s[k + 1..]) {
      CompilerIsRight(Core(pattern), true, s[k + 1..]);
      assert SegmentStart(s, k + 1);
    }
    if k: nat :| SegmentStart(s, k) && Wild(Core(pattern), true, s[k..]) {
      CompilerIsRight(Core(pattern), true, s[k..]);
      if k == 0 {
        assert s[0..] == s;
      } else {
        assert s[k - 1] == '/' && NoNewline(s[..k - 1]) && Matches(rest, s[k - 1 + 1..]);
      }
    }
  }

  /** globMatch, as Go can evaluate it: by reading the pattern. */
  predicate GlobMatches(pattern: string, path: string, isDir: bool) {
    var core, s := Core(pattern), Trim(path);
    && core != "" && (HasSuffix(pattern, '/') ==> isDir)
    && if Anchored(pattern) then Wild(core, true, s)
       else exists k :: 0 <= k <= |s| && SegmentStart(s, k) && Wild(core, true, s[k..])
  }

  lemma GlobMatchesAsCompiled(pattern: string, path: string, isDir: bool)
    ensures GlobMatches(pattern, path, isDir) <==> GlobMatch(pattern, path, isDir)
  {
    var core, s := Core(pattern), Trim(path);
    if core != "" {
      if Anchored(pattern) {
        CompilerIsRight(core, true, s);
        assert [] + Pieces(core, true) == Pieces(core, true);
      } else {
        UnanchoredMatchesTail(pattern, s);
        if k: nat :| SegmentStart(s, k) && Wild(core, true, s[k..]) {
          assert 0 <= k <= |s|;
        }
      }
    }
  }

  // ---- slashes at the ends of a pattern ----

  /** A pattern's text between the slashes that may stand before and after it. */
  predicate Bare(p: string) {
    p != "" && !Rooted(p) && !HasSuffix(p, '/')
  }

  lemma BareParts(p: string)
    requires Bare(p)
    ensures Compile(p) == Some(Compiled([OptDirs] + Pieces(p, true), false))
    ensures Compile("/" + p) == Some(Compiled(Pieces(p, true), false))
    ensures Compile(p + "/") == Some(Compiled([OptDirs] + Pieces(p, true), true))
    ensures Compile("/" + p + "/") == Some(Compiled(Pieces(p, true), true))
  {
    var rooted := "/" + p;
    assert rooted[1..] == p && Undirected(rooted) == rooted;
    assert (p + "/")[..|p + "/"| - 1] == p;
    assert (rooted + "/")[..|rooted + "/"| - 1] == rooted;
    assert [] + Pieces(p, true) == Pieces(p, true);
  }

  /** With a slash before it, a pattern matches from the top of the tree only. */
  lemma AnchoredMatchesWhole(p: string, path: string, isDir: bool)
    requires Bare(p)
    ensures GlobMatch("/" + p, path, isDir) <==> Matches(Pieces(p, true), Trim(path))
  {
    BareParts(p);
  }

  /** Without one, it matches any tail of the path that begins at a segment. */
  lemma UnanchoredMatchesAnywhere(p: string, path: string, isDir: bool)
    requires Bare(p)
    ensures GlobMatch(p, path, isDir) <==>
            exists k: nat :: SegmentStart(Trim(path), k) && Matches(Pieces(p, true), Trim(path)[k..])
  {
    var s := Trim(path);
    BareParts(p);
    UnanchoredMatchesTail(p, s);
    assert Core(p) == p;
    if k: nat :| SegmentStart(s, k) && Wild(p, true, s[k..]) {
      CompilerIsRight(p, true, s[k..]);
    }
    if k: nat :| SegmentStart(s, k) && Matches(Pieces(p, true), s[k..]) {
      CompilerIsRight(p, true, s[k..]);
    }
  }

  /** With a slash after it, it matches what it would without, if that is a
      directory. */
  lemma SlashMeansDirectory(p: string, path: string, isDir: bool)
    requires Bare(p)
    ensures GlobMatch(p + "/", path, isDir) <==> isDir && GlobMatch(p, path, isDir)
    ensures GlobMatch("/" + p + "/", path, isDir) <==> isDir && GlobMatch("/" + p, path, isDir)
  {
    BareParts(p);
  }

  /** Slashes alone match nothing. */
  lemma SlashesMatchNothing(pattern: string, path: string, isDir: bool)
    requires pattern == "" || pattern == "/" || pattern == "//"
    ensures !GlobMatch(pattern, path, isDir)
  {
  }

  /** No slash, and no "**". */
  predicate OneSegment(p: string) {
    '/' !in p && forall i :: 0 <= i < |p| - 1 ==> !(p[i] == '*' && p[i + 1] == '*')
  }

  lemma {:induction false} SegmentTakesNoSlash(p: string, atStart: bool, s: string)
    requires OneSegment(p) && Wild(p, atStart, s)
    ensures '/' !in s
    decreases |p|, |s|
  {
    if p != "" {
      if p[0] == '*' {
        if Wild(p[1..], false, s) {
          SegmentTakesNoSlash(p[1..], false, s);
        } else {
          SegmentTakesNoSlash(p, atStart, s[1..]);
          assert s == [s[0]] + s[1..];
        }
      } else {
        SegmentTakesNoSlash(p[1..], false, s[1..]);
        assert s == [s[0]] + s[1..];
      }
    }
  }

  /** Only the last segment has no slash after its start. */
  lemma LastSegmentStart(s: string, k: nat)
    requires k <= |s| && (k == 0 || s[k - 1] == '/') && '/' !in s[k..]
    ensures k == LastStart(s)
  {
    NoSlashFrom(s, k, LastStart(s));
    NoSlashFrom(s, LastStart(s), k);
  }

  lemma NoSlashFrom(s: string, k: nat, next: nat)
    requires k <= |s| && '/' !in s[k..]
    ensures k < next <= |s| ==> s[next - 1] != '/'
  {
    if k < next <= |s| {
      assert s[next - 1] == s[k..][next - 1 - k];
    }
  }

  /** A pattern of one segment matches by the base name, at any depth: unless
      there is a newline in what is before it, which the compiled expression does
      not get over. */
  lemma SegmentMatchesBase(pattern: string, s: string)
    requires !Anchored(pattern) && Core(pattern) != "" && OneSegment(Core(pattern))
    ensures Matches(Compile(pattern).value.re, s) <==>
            Wild(Core(pattern), true, LastPart(s)) && NoNewline(s[..LastStart(s)])
  {
    UnanchoredMatchesTail(pattern, s);
    SegmentTails(Core(pattern), s);
  }

  lemma SegmentTails(p: string, s: string)
    requires OneSegment(p)
    ensures (exists k: nat :: SegmentStart(s, k) && Wild(p, true, s[k..])) <==> Wild(p, true, LastPart(s)) && NoNewline(s[..LastStart(s)])
  {
    var b := LastStart(s);
    if b > 0 {
      assert s[..b] == s[..b - 1] + ['/'];
    }
    if k: nat :| SegmentStart(s, k) && Wild(p, true, s[k..]) {
      SegmentTakesNoSlash(p, true, s[k..]);
      LastSegmentStart(s, k);
    }
    if Wild(p, true, LastPart(s)) && NoNewline(s[..b]) {
      assert SegmentStart(s, b);
    }
  }

  // "**/x" is no more than x: leading directories are optional for any pattern
  // that is not anchored.
  lemma LeadingDirsAreOptional(x: string, s: string)
    ensures Matches([OptDirs] + Pieces("**/" + x, true), s) <==> Matches([OptDirs] + Pieces(x, false), s)
  {
    assert ("**/" + x)[3..] == x;
    assert Pieces("**/" + x, true) == [OptDirs] + Pieces(x, false);
    OptDirsTwice(Pieces(x, false), s);
  }

  lemma OptDirsTwice(rest: seq<Piece>, s: string)
    ensures Matches([OptDirs] + ([OptDirs] + rest), s) <==> Matches([OptDirs] + rest, s)
  {
    assert ([OptDirs] + ([OptDirs] + rest))[1..] == [OptDirs] + rest && ([OptDirs] + rest)[1..] == rest;
    if k :| 0 <= k < |s| && s[k] == '/' && NoNewline(s[..k]) && Matches([OptDirs] + rest, s[k + 1..]) {
      DirsAfterDirs(rest, s, k);
    }
  }

  lemma CutTwice(s: string, k: nat, j: nat)
    requires k + 1 + j < |s| && s[k] == '/'
    ensures s[..k + 1 + j] == s[..k] + ['/'] + s[k + 1..][..j] && s[k + 1 + j + 1..] == s[k + 1..][j + 1..]
  {
  }

  // What .*/ leads to may begin with .*/ of its own.
  lemma DirsAfterDirs(rest: seq<Piece>, s: string, k: nat)
    requires k < |s| && s[k] == '/' && NoNewline(s[..k])
    requires Matches(rest, s[k + 1..]) || AfterDirs(rest, s[k + 1..])
    ensures AfterDirs(rest, s)
  {
    var t := s[k + 1..];
    if !Matches(rest, t) {
      var j :| 0 <= j < |t| && t[j] == '/' && NoNewline(t[..j]) && Matches(rest, t[j + 1..]);
      CutTwice(s, k, j);
      assert s[k + 1 + j] == '/' && Matches(rest, s[k + 1 + j + 1..]);
    }
  }

  /** No wildcards. */
  predicate Plain(a: string) {
    '*' !in a && '?' !in a
  }

  lemma {:induction false} PlainMatchesItself(a: string, p: string, s: string)
    requires Plain(a) && a != ""
    ensures Matches(Pieces(a + p, true), s) <==> a <= s && Matches(Pieces(p, false), s[|a|..])
    ensures Matches(Pieces(a + p, false), s) <==> a <= s && Matches(Pieces(p, false), s[|a|..])
  {
    var all := a + p;
    assert all[0] == a[0] && all[1..] == a[1..] + p;
    assert Pieces(all, true) == Pieces(all, false) == [Lit(a[0])] + Pieces(all[1..], false);
    assert ([Lit(a[0])] + Pieces(all[1..], false))[1..] == Pieces(all[1..], false);
    if s != "" && s[0] == a[0] {
      if |a| == 1 {
        assert a[1..] + p == p;
      } else {
        PlainMatchesItself(a[1..], p, s[1..]);
        assert a[1..] <= s[1..] <==> a <= s by {
          assert a == [a[0]] + a[1..] && s == [s[0]] + s[1..];
        }
        assert a <= s ==> s[1..][|a[1..]|..] == s[|a|..];
      }
    }
  }

  lemma TrimHasNoSlashes(path: string)
    ensures !Rooted(Trim(path)) && !HasSuffix(Trim(path), '/')
  {
  }

  /** One slash is taken off either end of a pattern, no more: with two, it asks for
      a slash that no trimmed path has. */
  lemma SecondSlashMatchesNothing(p: string, path: string, isDir: bool)
    ensures !GlobMatch("//" + p, path, isDir)
    ensures Plain(p) && Bare(p) ==> !GlobMatch(p + "//", path, isDir)
  {
    TrimHasNoSlashes(path);
    SecondSlashFirst(p, Trim(path));
    if Plain(p) && Bare(p) {
      SecondSlashLast(p, path, isDir);
    }
  }

  lemma SecondSlashFirst(p: string, s: string)
    requires !Rooted(s)
    ensures Anchored("//" + p)
    ensures Core("//" + p) != "" ==> !Matches(Pieces(Core("//" + p), true), s)
  {
    var core := Core("//" + p);
    if core != "" {
      assert core[0] == '/';
    }
  }

  lemma SecondSlashLast(p: string, path: string, isDir: bool)
    requires Plain(p) && Bare(p)
    ensures !GlobMatch(p + "//", path, isDir)
  {
    var pattern, core, s := p + "//", p + "/", Trim(path);
    TrimHasNoSlashes(path);
    assert pattern[..|pattern| - 1] == core;
    assert Core(pattern) == core && !Anchored(pattern);
    UnanchoredMatchesTail(pattern, s);
    if k: nat :| SegmentStart(s, k) && Wild(core, true, s[k..]) {
      CompilerIsRight(core, true, s[k..]);
      assert Pieces(core, true) == Pieces(core, false);
      PlainIsItself(core, s[k..]);
    }
  }

  /** The text a, where it may be empty, and then whatever p takes. */
  lemma PlainThen(a: string, p: string, s: string)
    requires Plain(a) && (a == "" ==> Pieces(p, true) == Pieces(p, false))
    ensures Matches(Pieces(a + p, true), s) <==> a <= s && Matches(Pieces(p, false), s[|a|..])
  {
    if a == "" {
      assert a + p == p && s[0..] == s;
    } else {
      PlainMatchesItself(a, p, s);
    }
  }

  lemma PlainEnds(b: string, s: string)
    requires Plain(b)
    ensures Matches(Pieces(b, false), s) <==> s == b
  {
    if b != "" {
      PlainIsItself(b, s);
    }
  }

  // "a?b" matches a and b with one character between them that is no slash.
  lemma QuestionIsOneCharacter(a: string, b: string, s: string)
    requires Plain(a) && Plain(b)
    ensures Matches(Pieces(a + ("?" + b), true), s) <==> exists c :: c != '/' && s == a + [c] + b
  {
    var p := "?" + b;
    assert p[1..] == b && Pieces(p, false) == [One] + Pieces(b, false);
    PlainThen(a, p, s);
    assert ([One] + Pieces(b, false))[1..] == Pieces(b, false);
    if a <= s {
      var t := s[|a|..];
      assert s == a + t;
      if t != "" {
        PlainEnds(b, t[1..]);
        assert t == [t[0]] + t[1..];
        assert t[1..] == b ==> s == a + [t[0]] + b;
      }
    }
    if c :| c != '/' && s == a + [c] + b {
      assert s[|a|..] == [c] + b && ([c] + b)[1..] == b;
    }
  }

  lemma StarWritten(b: string)
    requires Plain(b)
    ensures Pieces("*" + b, true) == Pieces("*" + b, false) == [Star] + Pieces(b, false)
  {
    var p := "*" + b;
    assert p[1..] == b && (b != "" ==> p[1] == b[0] && b[0] in b);
  }

  lemma StarsWritten(b: string)
    requires !Rooted(b)
    ensures Pieces("**" + b, true) == Pieces("**" + b, false) == [Any] + Pieces(b, false)
  {
    var p := "**" + b;
    assert p[2..] == b && (b != "" ==> p[2] == b[0]);
  }

  // "a*b" matches a and b with anything between them that has no slash.
  lemma StarIsSlashFree(a: string, b: string, s: string)
    requires Plain(a) && Plain(b)
    ensures Matches(Pieces(a + ("*" + b), true), s) <==> exists mid :: '/' !in mid && s == a + mid + b
  {
    var p := "*" + b;
    StarWritten(b);
    PlainThen(a, p, s);
    if a <= s {
      StarThen(b, s[|a|..]);
      if mid :| '/' !in mid && s[|a|..] == mid + b {
        assert s == a + mid + b;
      }
    }
    if mid :| '/' !in mid && s == a + mid + b {
      assert s[|a|..] == mid + b;
    }
  }

  lemma StarThen(b: string, t: string)
    requires Plain(b)
    ensures Matches([Star] + Pieces(b, false), t) <==> exists mid :: '/' !in mid && t == mid + b
  {
    assert ([Star] + Pieces(b, false))[1..] == Pieces(b, false);
    if k :| 0 <= k <= |t| && '/' !in t[..k] && Matches(Pieces(b, false), t[k..]) {
      PlainEnds(b, t[k..]);
      assert t == t[..k] + b;
    }
    if mid :| '/' !in mid && t == mid + b {
      assert t[..|mid|] == mid && t[|mid|..] == b;
      PlainEnds(b, b);
    }
  }

  // "a**b" matches a and b with anything between them that has no newline.
  lemma DoubleStarTakesSlashes(a: string, b: string, s: string)
    requires Plain(a) && Plain(b) && !Rooted(b)
    ensures Matches(Pieces(a + ("**" + b), true), s) <==> exists mid :: NoNewline(mid) && s == a + mid + b
  {
    var p := "**" + b;
    StarsWritten(b);
    PlainThen(a, p, s);
    if a <= s {
      AnyThen(b, s[|a|..]);
      if mid :| NoNewline(mid) && s[|a|..] == mid + b {
        assert s == a + mid + b;
      }
    }
    if mid :| NoNewline(mid) && s == a + mid + b {
      assert s[|a|..] == mid + b;
    }
  }

  lemma AnyThen(b: string, t: string)
    requires Plain(b)
    ensures Matches([Any] + Pieces(b, false), t) <==> exists mid :: NoNewline(mid) && t == mid + b
  {
    assert ([Any] + Pieces(b, false))[1..] == Pieces(b, false);
    if k :| 0 <= k <= |t| && NoNewline(t[..k]) && Matches(Pieces(b, false), t[k..]) {
      PlainEnds(b, t[k..]);
      assert t == t[..k] + b;
    }
    if mid :| NoNewline(mid) && t == mid + b {
      assert t[..|mid|] == mid && t[|mid|..] == b;
      PlainEnds(b, b);
    }
  }

  // "a/**/b" needs a directory between: it does not match "a/b".
  lemma InnerDirsAreNeeded(a: string, b: string, s: string)
    requires Plain(a) && Plain(b) && a != "" && b != ""
    ensures Matches(Pieces(a + "/" + "**/" + b, true), s) <==> exists mid :: NoNewline(mid) && s == a + "/" + mid + "/" + b
    ensures !Matches(Pieces(a + "/" + "**/" + b, true), a + "/" + b)
  {
    InnerDirs(a, b, s);
    InnerDirs(a, b, a + "/" + b);
  }

  lemma InnerDirs(a: string, b: string, s: string)
    requires Plain(a) && Plain(b) && a != "" && b != ""
    ensures Matches(Pieces(a + "/" + "**/" + b, true), s) <==> exists mid :: NoNewline(mid) && s == a + "/" + mid + "/" + b
  {
    var head, tail := a + "/", "**/" + b;
    assert a + "/" + "**/" + b == head + tail;
    PlainMatchesItself(head, tail, s);
    if head <= s {
      DirsThen(b, s[|head|..]);
      if mid :| NoNewline(mid) && s[|head|..] == mid + "/" + b {
        Grouped(head, mid, b, s);
      }
    }
    if mid :| NoNewline(mid) && s == head + mid + "/" + b {
      Grouped(head, mid, b, s);
    }
  }

  lemma Grouped(head: string, mid: string, b: string, s: string)
    ensures s == head + mid + "/" + b <==> head <= s && s[|head|..] == mid + "/" + b
  {
    assert head + mid + "/" + b == head + (mid + "/" + b);
    if head <= s {
      assert s == head + s[|head|..];
    }
  }

  lemma DirsThen(b: string, t: string)
    requires Plain(b) && b != ""
    ensures Matches(Pieces("**/" + b, false), t) <==> exists mid :: NoNewline(mid) && t == mid + "/" + b
  {
    var tail := "**/" + b;
    assert tail[3..] == b && Pieces(tail, false) == [Dirs] + Pieces(b, false);
    assert ([Dirs] + Pieces(b, false))[1..] == Pieces(b, false);
    DirsThenText(Pieces(b, false), b, t);
  }

  lemma DirsThenText(rest: seq<Piece>, b: string, t: string)
    requires rest == Pieces(b, false) && Plain(b) && b != ""
    ensures AfterDirs(rest, t) <==> exists mid :: NoNewline(mid) && t == mid + "/" + b
  {
    if k :| 0 <= k < |t| && t[k] == '/' && NoNewline(t[..k]) && Matches(rest, t[k + 1..]) {
      PlainIsItself(b, t[k + 1..]);
      assert t == t[..k] + "/" + b;
    }
    if mid :| NoNewline(mid) && t == mid + "/" + b {
      assert t[|mid|] == '/' && t[..|mid|] == mid && t[|mid| + 1..] == b;
      PlainIsItself(b, b);
    }
  }

  lemma PlainIsItself(b: string, s: string)
    requires Plain(b) && b != ""
    ensures Matches(Pieces(b, false), s) <==> s == b
  {
    assert b + "" == b;
    PlainMatchesItself(b, "", s);
  }

  // "a/**" is everything beneath a.
  lemma DoubleStarIsBeneath(a: string, s: string)
    requires Plain(a) && a != ""
    ensures Matches(Pieces(a + "/" + "**", true), s) <==> a + "/" <= s && NoNewline(s[|a| + 1..])
  {
    assert a + "/" + "**" == (a + "/") + "**";
    PlainMatchesItself(a + "/", "**", s);
    assert "**"[2..] == "" && Pieces("**", false) == [Any] + Pieces("", false) == [Any];
    if a + "/" <= s {
      var t := s[|a + "/"|..];
      assert t[..|t|] == t && t[|t|..] == "";
      assert [Any][1..] == [];
      if k :| 0 <= k <= |t| && NoNewline(t[..k]) && Matches([], t[k..]) {
        assert k == |t|;
      }
    }
  }
}
