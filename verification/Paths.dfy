/** Slash-separated paths as Go's strings and path packages treat them. */
module Paths {

  // ---- splitting and joining ----

  /** strings.Split(s, sep) for a one-character separator: never empty. */
  function Split(s: string, sep: char): (parts: seq<string>)
    ensures parts != []
    ensures forall i :: 0 <= i < |parts| ==> sep !in parts[i]
  {
    if s == "" then [""]
    else
      var rest := Split(s[1..], sep);
      if s[0] == sep then [""] + rest else [[s[0]] + rest[0]] + rest[1..]
  }

  /** strings.Join(parts, sep). */
  function Join(parts: seq<string>, sep: char): string {
    if parts == [] then "" else if |parts| == 1 then parts[0] else parts[0] + [sep] + Join(parts[1..], sep)
  }

  lemma {:induction false} SplitOne(s: string, sep: char)
    requires sep !in s
    ensures Split(s, sep) == [s]
  {
    if s != "" {
      SplitOne(s[1..], sep);
      assert [s[0]] + s[1..] == s;
    }
  }

  lemma FirstOf(a: seq<string>, b: seq<string>, c: char)
    requires a != []
    ensures [""] + (a + b) == ([""] + a) + b
    ensures [[c] + (a + b)[0]] + (a + b)[1..] == ([[c] + a[0]] + a[1..]) + b
  {
    assert (a + b)[1..] == a[1..] + b;
  }

  /** Splitting at a separator splits both sides. */
  lemma {:induction false} SplitAt(s: string, t: string, sep: char)
    ensures Split(s + [sep] + t, sep) == Split(s, sep) + Split(t, sep)
  {
    var whole := s + [sep] + t;
    if s == "" {
      assert whole[0] == sep && whole[1..] == t;
    } else {
      SplitAt(s[1..], t, sep);
      assert whole[0] == s[0] && whole[1..] == s[1..] + [sep] + t;
      var a, b := Split(s[1..], sep), Split(t, sep);
      FirstOf(a, b, s[0]);
    }
  }

  lemma {:induction false} SplitJoin(parts: seq<string>, sep: char)
    requires parts != []
    requires forall i :: 0 <= i < |parts| ==> sep !in parts[i]
    ensures Split(Join(parts, sep), sep) == parts
  {
    SplitOne(parts[0], sep);
    if |parts| > 1 {
      SplitJoin(parts[1..], sep);
      SplitAt(parts[0], Join(parts[1..], sep), sep);
      assert parts == [parts[0]] + parts[1..];
    } else {
      assert parts == [parts[0]];
    }
  }

  lemma {:induction false} JoinSplit(s: string, sep: char)
    ensures Join(Split(s, sep), sep) == s
  {
    if s != "" {
      var rest := Split(s[1..], sep);
      JoinSplit(s[1..], sep);
      var parts := Split(s, sep);
      if s[0] == sep {
        assert parts[1..] == rest;
        assert "" + [sep] + s[1..] == s;
      } else if |rest| == 1 {
        assert parts == [[s[0]] + rest[0]];
        assert [s[0]] + s[1..] == s;
      } else {
        assert parts[1..] == rest[1..];
        assert [s[0]] + s[1..] == s;
        assert [s[0]] + (rest[0] + [sep] + Join(rest[1..], sep)) == ([s[0]] + rest[0]) + [sep] + Join(rest[1..], sep);
      }
    }
  }

  lemma {:induction false} JoinAppend(a: seq<string>, b: seq<string>)
    requires a != [] && b != []
    ensures Join(a + b, '/') == Join(a, '/') + "/" + Join(b, '/')
  {
    if |a| == 1 {
      assert (a + b)[1..] == b;
    } else {
      assert (a + b)[1..] == a[1..] + b;
      JoinAppend(a[1..], b);
    }
  }

  // ---- cleaning ----

  /** path.Clean's segments: it drops empty ones and ".", and lets ".." take the
      segment before it. A ".." with nothing left to take stays, unless the path
      is rooted. done are the segments kept so far. */
  function CleanOnto(done: seq<string>, parts: seq<string>, rooted: bool): seq<string>
    decreases |parts|
  {
    if parts == [] then done
    else if parts[0] == "" || parts[0] == "." then CleanOnto(done, parts[1..], rooted)
    else if parts[0] == ".." then
      if done != [] && done[|done| - 1] != ".." then CleanOnto(done[..|done| - 1], parts[1..], rooted)
      else if rooted then CleanOnto(done, parts[1..], rooted)
      else CleanOnto(done + [".."], parts[1..], rooted)
    else CleanOnto(done + [parts[0]], parts[1..], rooted)
  }

  function Rooted(p: string): bool {
    p != "" && p[0] == '/'
  }

  function CleanParts(p: string): seq<string> {
    CleanOnto([], Split(p, '/'), Rooted(p))
  }

  /** Writes segments out as a path. */
  function Render(rooted: bool, parts: seq<string>): string {
    if rooted then "/" + Join(parts, '/') else if parts == [] then "." else Join(parts, '/')
  }

  /** path.Clean. */
  function Clean(p: string): string {
    Render(Rooted(p), CleanParts(p))
  }

  /** path.Join of two elements. */
  function JoinTwo(a: string, b: string): string {
    if a == "" && b == "" then "" else if a == "" then Clean(b) else if b == "" then Clean(a) else Clean(a + "/" + b)
  }

  /** A name a directory can hold. */
  predicate IsName(s: string) {
    s != "" && s != "." && s != ".." && '/' !in s
  }

  predicate AreNames(parts: seq<string>) {
    forall i :: 0 <= i < |parts| ==> IsName(parts[i])
  }

  /** A cleaned path that stays below where it starts. */
  predicate StaysBelow(parts: seq<string>) {
    parts == [] || parts[0] != ".."
  }

  /** A ".." left over stays at the front for good. */
  lemma {:induction false} EscapesForGood(done: seq<string>, parts: seq<string>)
    requires done != [] && done[0] == ".."
    ensures !StaysBelow(CleanOnto(done, parts, false))
    decreases |parts|
  {
    if parts != [] {
      if parts[0] == "" || parts[0] == "." {
        EscapesForGood(done, parts[1..]);
      } else if parts[0] == ".." {
        if done[|done| - 1] != ".." {
          EscapesForGood(done[..|done| - 1], parts[1..]);
        } else {
          EscapesForGood(done + [".."], parts[1..]);
        }
      } else {
        EscapesForGood(done + [parts[0]], parts[1..]);
      }
    }
  }

  /** A relative path that stays below where it starts means the same after
      anything: it is resolved among its own segments. */
  lemma {:induction false} CleanBelow(base: seq<string>, done: seq<string>, parts: seq<string>, rooted: bool)
    requires AreNames(done)
    requires forall i :: 0 <= i < |parts| ==> '/' !in parts[i]
    requires StaysBelow(CleanOnto(done, parts, false))
    ensures CleanOnto(base + done, parts, rooted) == base + CleanOnto(done, parts, false)
    ensures AreNames(CleanOnto(done, parts, false))
    decreases |parts|
  {
    if parts != [] {
      var all := base + done;
      if parts[0] == "" || parts[0] == "." {
        CleanBelow(base, done, parts[1..], rooted);
      } else if parts[0] == ".." {
        if done == [] {
          assert done + [".."] == [".."];
          EscapesForGood([".."], parts[1..]);
        } else {
          assert IsName(done[|done| - 1]) && all[|all| - 1] == done[|done| - 1];
          assert all[..|all| - 1] == base + done[..|done| - 1];
          CleanBelow(base, done[..|done| - 1], parts[1..], rooted);
        }
      } else {
        assert all + [parts[0]] == base + (done + [parts[0]]);
        CleanBelow(base, done + [parts[0]], parts[1..], rooted);
      }
    }
  }

  /** Names are clean already. */
  lemma {:induction false} CleanNames(base: seq<string>, parts: seq<string>, rooted: bool)
    requires AreNames(parts)
    ensures CleanOnto(base, parts, rooted) == base + parts
    decreases |parts|
  {
    if parts != [] {
      CleanNames(base + [parts[0]], parts[1..], rooted);
      assert base + [parts[0]] + parts[1..] == base + parts;
    } else {
      assert base + parts == base;
    }
  }

  lemma {:induction false} CleanAppend(done: seq<string>, a: seq<string>, b: seq<string>, rooted: bool)
    ensures CleanOnto(done, a + b, rooted) == CleanOnto(CleanOnto(done, a, rooted), b, rooted)
    decreases |a|
  {
    if a == [] {
      assert a + b == b;
    } else {
      assert (a + b)[0] == a[0] && (a + b)[1..] == a[1..] + b;
      if a[0] == "" || a[0] == "." {
        CleanAppend(done, a[1..], b, rooted);
      } else if a[0] == ".." {
        if done != [] && done[|done| - 1] != ".." {
          CleanAppend(done[..|done| - 1], a[1..], b, rooted);
        } else if rooted {
          CleanAppend(done, a[1..], b, rooted);
        } else {
          CleanAppend(done + [".."], a[1..], b, rooted);
        }
      } else {
        CleanAppend(done + [a[0]], a[1..], b, rooted);
      }
    }
  }

  // ---- the last segment ----

  /** strings.TrimLeft(s, "/"). */
  function TrimLeft(s: string): (r: string)
    ensures r == "" || r[0] != '/'
  {
    if s != "" && s[0] == '/' then TrimLeft(s[1..]) else s
  }

  function TrimRight(s: string): (r: string)
    ensures r == "" || r[|r| - 1] != '/'
    ensures r <= s
  {
    if s != "" && s[|s| - 1] == '/' then TrimRight(s[..|s| - 1]) else s
  }

  /** strings.Trim(s, "/"). */
  function Trim(s: string): string {
    TrimRight(TrimLeft(s))
  }

  /** strings.TrimPrefix. */
  function TrimPrefix(s: string, prefix: string): string {
    if prefix <= s then s[|prefix|..] else s
  }

  predicate HasSuffix(s: string, c: char) {
    s != "" && s[|s| - 1] == c
  }

  function LastPart(s: string): string {
    var parts := Split(s, '/');
    parts[|parts| - 1]
  }

  /** A path ends with a slash iff its last segment is empty. */
  lemma {:induction false} LastIsEmpty(s: string)
    ensures LastPart(s) == "" <==> s == "" || HasSuffix(s, '/')
  {
    if s != "" {
      LastIsEmpty(s[1..]);
    }
  }

  /** Slashes in front are empty segments: they change neither the cleaned path
      nor the last segment. */
  lemma {:induction false} TrimLeftCleans(s: string)
    ensures CleanOnto([], Split(TrimLeft(s), '/'), false) == CleanOnto([], Split(s, '/'), false)
    ensures LastPart(TrimLeft(s)) == LastPart(s)
  {
    if s != "" && s[0] == '/' {
      TrimLeftCleans(s[1..]);
      assert Split(s, '/')[1..] == Split(s[1..], '/');
    }
  }

  lemma {:induction false} LastPartEnds(s: string)
    ensures |LastPart(s)| <= |s| && '/' !in LastPart(s)
    ensures var k := |s| - |LastPart(s)|; s[k..] == LastPart(s) && (k == 0 || s[k - 1] == '/')
  {
    var parts := Split(s, '/');
    var n := |parts| - 1;
    JoinSplit(s, '/');
    if n > 0 {
      JoinLast(parts, '/');
      var up := Join(parts[..n], '/');
      assert s == (up + ['/']) + parts[n];
    } else {
      assert s[0..] == s;
    }
  }

  lemma {:induction false} JoinLast(parts: seq<string>, sep: char)
    requires |parts| > 1
    ensures Join(parts, sep) == Join(parts[..|parts| - 1], sep) + [sep] + parts[|parts| - 1]
  {
    if |parts| > 2 {
      JoinLast(parts[1..], sep);
      assert parts[..|parts| - 1][1..] == parts[1..][..|parts| - 2];
    }
  }

  /** Where the last segment begins. */
  function LastStart(s: string): (k: nat)
    ensures k <= |s| && s[k..] == LastPart(s) && (k == 0 || s[k - 1] == '/')
    ensures '/' !in s[k..]
  {
    LastPartEnds(s);
    |s| - |LastPart(s)|
  }

  /** path.Base. */
  function Base(p: string): string {
    if p == "" then "."
    else
      var t := TrimRight(p);
      if t == "" then "/" else LastPart(t)
  }

  /** path.Dir. */
  function Dir(p: string): string {
    var parts := Split(p, '/');
    var dir := Join(parts[..|parts| - 1], '/');
    if |parts| > 1 then Clean(dir + "/") else "."
  }

  // ---- lengths ----

  /** The length of the segments, with a separator each. */
  function Total(parts: seq<string>): nat {
    if parts == [] then 0 else |parts[0]| + 1 + Total(parts[1..])
  }

  lemma {:induction false} TotalAppend(a: seq<string>, b: seq<string>)
    ensures Total(a + b) == Total(a) + Total(b)
  {
    if a == [] {
      assert a + b == b;
    } else {
      TotalAppend(a[1..], b);
      assert (a + b)[1..] == a[1..] + b;
    }
  }

  lemma {:induction false} JoinLength(parts: seq<string>, sep: char)
    requires parts != []
    ensures |Join(parts, sep)| == Total(parts) - 1
  {
    if |parts| > 1 {
      JoinLength(parts[1..], sep);
    } else {
      assert parts[1..] == [];
    }
  }

  lemma {:induction false} CleanShrinks(done: seq<string>, parts: seq<string>, rooted: bool)
    ensures Total(CleanOnto(done, parts, rooted)) <= Total(done) + Total(parts)
    decreases |parts|
  {
    if parts != [] {
      if parts[0] == "" || parts[0] == "." {
        CleanShrinks(done, parts[1..], rooted);
      } else if parts[0] == ".." && done != [] && done[|done| - 1] != ".." {
        var n := |done| - 1;
        TotalAppend(done[..n], [done[n]]);
        assert done == done[..n] + [done[n]];
        CleanShrinks(done[..n], parts[1..], rooted);
      } else if parts[0] == ".." && rooted {
        CleanShrinks(done, parts[1..], rooted);
      } else {
        TotalAppend(done, [parts[0]]);
        assert [parts[0]][1..] == [];
        CleanShrinks(done + [parts[0]], parts[1..], rooted);
      }
    }
  }

  /** Nothing is above. */
  predicate Top(p: string) {
    p == "" || p == "." || p == "/"
  }

  /** path.Dir goes up: its result is shorter, until it is "." or "/". */
  lemma DirShrinks(p: string)
    requires !Top(p)
    ensures Top(Dir(p)) || |Dir(p)| < |p|
  {
    var parts := Split(p, '/');
    var n := |parts| - 1;
    JoinSplit(p, '/');
    JoinLength(parts, '/');
    if n > 0 {
      var up := parts[..n];
      assert parts == up + [parts[n]];
      TotalAppend(up, [parts[n]]);
      assert [parts[n]][1..] == [];
      JoinLength(up, '/');
      var dir := Join(up, '/');
      assert dir + "/" == dir + ['/'] + "";
      SplitAt(dir, "", '/');
      SplitJoin(up, '/');
      CleanAppend([], up, [""], Rooted(dir + "/"));
      assert [""][1..] == [];
      CleanShrinks([], up, Rooted(dir + "/"));
      var clean := CleanOnto([], up, Rooted(dir + "/"));
      if clean != [] {
        JoinLength(clean, '/');
      }
      if Rooted(dir + "/") {
        RootedFirst(up);
        CleanShrinks([], up[1..], true);
      }
    }
  }

  /** A rooted path's first segment is empty. */
  lemma RootedFirst(up: seq<string>)
    requires up != [] && (forall i :: 0 <= i < |up| ==> '/' !in up[i]) && Rooted(Join(up, '/') + "/")
    ensures up[0] == ""
  {
  }

  /** One level up from a joined list of names. */
  lemma NamesUp(parts: seq<string>)
    requires AreNames(parts) && parts != []
    ensures Dir(Join(parts, '/')) == if |parts| == 1 then "." else Join(parts[..|parts| - 1], '/')
  {
    SplitJoin(parts, '/');
    if |parts| > 1 {
      var up := parts[..|parts| - 1];
      NamesEnds(up);
      SplitJoin(up, '/');
      CleanSlash(Join(up, '/'));
      CleanNames([], up, false);
      assert [] + up == up;
    }
  }

  /** A slash at the end is cleaned away. */
  lemma CleanSlash(dir: string)
    requires dir != ""
    ensures Clean(dir + "/") == Clean(dir)
  {
    assert dir + "/" == dir + ['/'] + "";
    SplitAt(dir, "", '/');
    CleanAppend([], Split(dir, '/'), [""], Rooted(dir));
    assert [""][1..] == [];
  }

  lemma NamesAreTrim(parts: seq<string>)
    requires AreNames(parts) && parts != []
    ensures Trim(Join(parts, '/')) == Join(parts, '/') && !Top(Join(parts, '/'))
  {
    NamesEnds(parts);
    SplitJoin(parts, '/');
    SplitOne(".", '/');
  }

  lemma {:induction false} NamesEnds(parts: seq<string>)
    requires AreNames(parts) && parts != []
    ensures Join(parts, '/') != "" && !Rooted(Join(parts, '/')) && !HasSuffix(Join(parts, '/'), '/')
  {
    if |parts| > 1 {
      NamesEnds(parts[1..]);
    }
  }
}
