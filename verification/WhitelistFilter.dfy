/** What the traversal rule and the simple include and exclude lists come to
    (data-mig/storagex/filter/filter.go). */
module WhitelistFilter {
  import opened Options
  import opened Paths
  import opened Glob
  import opened Filter

  predicate AnyMatches(rules: seq<Rule>, item: Item) {
    exists i :: 0 <= i < |rules| && RuleMatches(rules[i], item)
  }

  /** Rules put below others are asked only about what those left undecided. */
  lemma {:induction false} RulesInTurn(a: seq<Rule>, b: seq<Rule>, item: Item)
    ensures MatchRules(a + b, item) <==> if AnyMatches(a, item) then MatchRules(a, item) else MatchRules(b, item)
  {
    if a == [] {
      assert a + b == b;
    } else {
      assert (a + b)[1..] == a[1..] + b;
      RulesInTurn(a[1..], b, item);
      if AnyMatches(a[1..], item) {
        var i :| 0 <= i < |a[1..]| && RuleMatches(a[1..][i], item);
        assert RuleMatches(a[i + 1], item);
      }
      if !RuleMatches(a[0], item) && AnyMatches(a, item) {
        var i :| 0 <= i < |a| && RuleMatches(a[i], item);
        assert RuleMatches(a[1..][i - 1], item);
      }
    }
  }

  predicate AnyGlob(patterns: seq<string>, path: string, isDir: bool) {
    exists i :: 0 <= i < |patterns| && GlobMatches(patterns[i], path, isDir)
  }

  lemma {:induction false} GlobsInTurn(keep: bool, patterns: seq<string>, rest: seq<Rule>, item: Item)
    ensures MatchRules(Globs(keep, patterns) + rest, item) <==>
            if AnyGlob(patterns, item.path, item.isDir) then keep else MatchRules(rest, item)
  {
    var rules := Globs(keep, patterns);
    if patterns == [] {
      assert rules + rest == rest;
    } else {
      assert (rules + rest)[1..] == Globs(keep, patterns[1..]) + rest;
      assert (rules + rest)[0] == Rule(keep, GlobMatcher(patterns[0]));
      GlobsInTurn(keep, patterns[1..], rest, item);
      if AnyGlob(patterns[1..], item.path, item.isDir) {
        var i :| 0 <= i < |patterns[1..]| && GlobMatches(patterns[1..][i], item.path, item.isDir);
        assert GlobMatches(patterns[i + 1], item.path, item.isDir);
      }
      if !GlobMatches(patterns[0], item.path, item.isDir) && AnyGlob(patterns, item.path, item.isDir) {
        var i :| 0 <= i < |patterns| && GlobMatches(patterns[i], item.path, item.isDir);
        assert GlobMatches(patterns[1..][i - 1], item.path, item.isDir);
      }
    }
  }

  // ---- the catch-alls ----

  lemma {:induction false} StarTakesSegment(s: string)
    ensures Wild("*", true, s) <==> '/' !in s
  {
    assert "*"[1..] == "";
    if s != "" {
      StarTakesSegment(s[1..]);
      assert s == [s[0]] + s[1..];
    }
  }

  lemma {:induction false} StarsTakeAll(s: string)
    ensures Wild("**", true, s) <==> NoNewline(s)
  {
    assert "**"[2..] == "";
    if s != "" {
      StarsTakeAll(s[1..]);
      assert s == [s[0]] + s[1..];
    }
  }

  lemma WildOneSegment(pattern: string, path: string, isDir: bool)
    requires !Anchored(pattern) && Core(pattern) != "" && OneSegment(Core(pattern))
    ensures GlobMatches(pattern, path, isDir) <==>
            (HasSuffix(pattern, '/') ==> isDir) && Wild(Core(pattern), true, LastPart(Trim(path))) && NoNewline(Trim(path)[..LastStart(Trim(path))])
  {
    GlobMatchesAsCompiled(pattern, path, isDir);
    SegmentMatchesBase(pattern, Trim(path));
  }

  // "*" matches every path but those with a newline in a directory's name.
  lemma StarMatches(path: string, isDir: bool)
    ensures GlobMatches("*", path, isDir) <==> NoNewline(Trim(path)[..LastStart(Trim(path))])
  {
    var s := Trim(path);
    WildOneSegment("*", path, isDir);
    StarTakesSegment(LastPart(s));
  }

  // "*/" matches every such directory, and nothing else.
  lemma TraverseMatches(path: string, isDir: bool)
    ensures GlobMatches("*/", path, isDir) <==> isDir && NoNewline(Trim(path)[..LastStart(Trim(path))])
  {
    var s := Trim(path);
    assert Undirected("*/") == "*" && "*"[0] != '/' && Core("*/") == "*";
    WildOneSegment("*/", path, isDir);
    StarTakesSegment(LastPart(s));
  }

  // "**" matches every path without a newline.
  lemma StarsMatch(path: string, isDir: bool)
    ensures GlobMatches("**", path, isDir) <==> NoNewline(Trim(path))
  {
    var s := Trim(path);
    if k :| 0 <= k <= |s| && SegmentStart(s, k) && Wild("**", true, s[k..]) {
      StarsTakeAll(s[k..]);
      if k > 0 {
        assert s == s[..k - 1] + ['/'] + s[k..];
      } else {
        assert s[0..] == s;
      }
    }
    if NoNewline(s) {
      assert s[0..] == s && SegmentStart(s, 0);
      StarsTakeAll(s);
    }
  }

  lemma CatchAllMatches(r: Rule, item: Item)
    requires IsCatchAllExclude(r) && NoNewline(Trim(item.path))
    ensures RuleMatches(r, item)
  {
    StarMatches(item.path, item.isDir);
    StarsMatch(item.path, item.isDir);
  }

  // ---- the traversal rule ----

  /** A rule that does not match an item may be anywhere. */
  lemma IdleRule(a: seq<Rule>, r: Rule, b: seq<Rule>, item: Item)
    requires !RuleMatches(r, item)
    ensures MatchRules(a + [r] + b, item) <==> MatchRules(a + b, item)
  {
    RulesInTurn(a, [r] + b, item);
    RulesInTurn(a, b, item);
    assert a + [r] + b == a + ([r] + b);
    assert ([r] + b)[1..] == b;
  }

  /** The traversal rule changes no file's verdict, whatever the rules. */
  lemma TraverseSparesFiles(rules: seq<Rule>, path: string, size: int)
    ensures MatchRules(WithDirPassSpec(rules), Item(path, size, false)) <==> MatchRules(rules, Item(path, size, false))
  {
    var k := FirstCatchAll(rules);
    TraverseMatches(path, false);
    IdleRule(rules[..k], Traverse(), rules[k..], Item(path, size, false));
    assert rules[..k] + rules[k..] == rules;
  }

  /** Where the traversal rule is put in, a directory is kept iff no rule above it
      had an opinion, or the first that had one keeps it. So it is never above an
      exclude of the user's own, short of the catch-all. */
  lemma TraverseReopensDirectories(rules: seq<Rule>, path: string)
    requires NoNewline(path) && HasInclude(rules) && FirstCatchAll(rules) < |rules|
    ensures var above := GlobRules(rules[..FirstCatchAll(rules)]);
            var dir := Item(path, 0, true);
            && (MatchRules(GlobRules(WithDirPassSpec(rules)), dir) <==> AnyMatches(above, dir) ==> MatchRules(above, dir))
            && (MatchRules(GlobRules(rules), dir) <==> AnyMatches(above, dir) && MatchRules(above, dir))
  {
    ReopensAt(rules, FirstCatchAll(rules), path);
  }

  lemma ReopensAt(rules: seq<Rule>, k: nat, path: string)
    requires NoNewline(path) && k < |rules| && IsCatchAllExclude(rules[k])
    ensures var above := GlobRules(rules[..k]);
            var dir := Item(path, 0, true);
            && (MatchRules(GlobRules(rules[..k] + [Traverse()] + rules[k..]), dir) <==> AnyMatches(above, dir) ==> MatchRules(above, dir))
            && (MatchRules(GlobRules(rules), dir) <==> AnyMatches(above, dir) && MatchRules(above, dir))
  {
    TraverseDecides(rules[..k], rules[k..], path);
    CatchAllDecides(rules[..k], rules[k..], path);
    assert rules[..k] + rules[k..] == rules;
  }

  /** A rule that keeps the item, put between others. */
  lemma KeeperDecides(above: seq<Rule>, r: Rule, below: seq<Rule>, item: Item)
    requires r.matcher.GlobMatcher? && RuleMatches(r, item) && r.keep
    ensures MatchRules(GlobRules(above + [r] + below), item) <==> AnyMatches(GlobRules(above), item) ==> MatchRules(GlobRules(above), item)
  {
    assert above + [r] + below == above + ([r] + below);
    DecidedBelow(above, [r] + below, item);
  }

  lemma TraverseMatchesDir(path: string)
    requires NoNewline(path)
    ensures RuleMatches(Traverse(), Item(path, 0, true))
  {
    TrimKeeps(path);
    TraverseMatches(path, true);
  }

  lemma TraverseDecides(above: seq<Rule>, below: seq<Rule>, path: string)
    requires NoNewline(path)
    ensures var dir := Item(path, 0, true);
            MatchRules(GlobRules(above + [Traverse()] + below), dir) <==> AnyMatches(GlobRules(above), dir) ==> MatchRules(GlobRules(above), dir)
  {
    TraverseMatchesDir(path);
    KeeperDecides(above, Traverse(), below, Item(path, 0, true));
  }

  lemma CatchAllDecides(above: seq<Rule>, below: seq<Rule>, path: string)
    requires NoNewline(path) && below != [] && IsCatchAllExclude(below[0])
    ensures var dir := Item(path, 0, true);
            MatchRules(GlobRules(above + below), dir) <==> AnyMatches(GlobRules(above), dir) && MatchRules(GlobRules(above), dir)
  {
    TrimKeeps(path);
    CatchAllMatches(below[0], Item(path, 0, true));
    DecidedBelow(above, below, Item(path, 0, true));
  }

  /** Where a glob rule that matches comes next, it decides what was left to it. */
  lemma DecidedBelow(above: seq<Rule>, below: seq<Rule>, item: Item)
    requires below != [] && below[0].matcher.GlobMatcher? && RuleMatches(below[0], item)
    ensures MatchRules(GlobRules(above + below), item) <==>
            if AnyMatches(GlobRules(above), item) then MatchRules(GlobRules(above), item) else below[0].keep
  {
    GlobRulesAppend(above, below);
    RulesInTurn(GlobRules(above), GlobRules(below), item);
    assert GlobRules(below)[0] == below[0];
  }

  lemma {:induction false} GlobRulesAppend(a: seq<Rule>, b: seq<Rule>)
    ensures GlobRules(a + b) == GlobRules(a) + GlobRules(b)
  {
    if a == [] {
      assert a + b == b;
    } else {
      var first := if a[0].matcher.GlobMatcher? then [a[0]] else [];
      GlobRulesAppend(a[1..], b);
      assert (a + b)[1..] == a[1..] + b;
      assert GlobRules(a + b) == first + (GlobRules(a[1..]) + GlobRules(b));
    }
  }

  lemma TrimKeeps(s: string)
    requires NoNewline(s)
    ensures NoNewline(Trim(s))
  {
    TrimLeftKeeps(s);
    TrimRightKeeps(TrimLeft(s));
  }

  lemma {:induction false} TrimLeftKeeps(s: string)
    requires NoNewline(s)
    ensures NoNewline(TrimLeft(s))
  {
    if Rooted(s) {
      TrimLeftKeeps(s[1..]);
    }
  }

  lemma {:induction false} TrimRightKeeps(s: string)
    requires NoNewline(s)
    ensures NoNewline(TrimRight(s))
  {
    if HasSuffix(s, '/') {
      TrimRightKeeps(s[..|s| - 1]);
    }
  }

  // ---- the simple form ----

  /** What the include and exclude lists are documented to mean for the file of
      these names. */
  predicate SimplyKept(includes: seq<string>, excludes: seq<string>, names: seq<string>) {
    && !AnyGlob(excludes, Join(names, '/'), false)
    && (forall k :: 0 < k < |names| ==> !AnyGlob(excludes, Join(names[..k], '/'), true))
    && (includes == [] || AnyGlob(includes, Join(names, '/'), false))
  }

  /** Every directory above is judged. */
  lemma {:induction false} EveryAncestorKept(rules: seq<Rule>, names: seq<string>)
    requires AreNames(names)
    ensures NamesKept(rules, names) <==>
            forall k :: 0 < k <= |names| ==> MatchRules(GlobRules(rules), Item(Join(names[..k], '/'), 0, true))
  {
    if names != [] {
      var up := names[..|names| - 1];
      NamesKeptUp(rules, names);
      EveryAncestorKept(rules, up);
      assert names[..|names|] == names;
      assert forall k :: 0 < k < |names| ==> up[..k] == names[..k];
      if NamesKept(rules, names) {
        forall k | 0 < k <= |names| ensures MatchRules(GlobRules(rules), Item(Join(names[..k], '/'), 0, true)) {
          if k < |names| {
            assert up[..k] == names[..k];
          }
        }
      }
    }
  }

  function CatchAll(): Rule {
    Rule(false, GlobMatcher("*"))
  }

  predicate IsStar(pattern: string) {
    pattern == "*" || pattern == "**"
  }

  /** The first exclude that is itself a catch-all, or the number of excludes. */
  function FirstStar(excludes: seq<string>): (e: nat)
    ensures e <= |excludes|
    ensures e < |excludes| ==> IsStar(excludes[e])
    ensures forall i :: 0 <= i < e ==> !IsStar(excludes[i])
  {
    if excludes == [] || IsStar(excludes[0]) then 0 else 1 + FirstStar(excludes[1..])
  }

  lemma StarsAreCatchAlls(keep: bool, pattern: string)
    ensures IsCatchAllExclude(Rule(keep, GlobMatcher(pattern))) <==> !keep && IsStar(pattern)
  {
  }

  lemma CatchAllIsAt(includes: seq<string>, excludes: seq<string>)
    requires includes != []
    ensures var e := FirstStar(excludes);
            FirstCatchAll(SimpleRules(includes, excludes)) == if e < |excludes| then e else |excludes| + |includes|
  {
    var rules, e := SimpleRules(includes, excludes), FirstStar(excludes);
    var p := if e < |excludes| then e else |excludes| + |includes|;
    CatchAllAt(includes, excludes, p);
    forall i | 0 <= i < p ensures !IsCatchAllExclude(rules[i]) {
      CatchAllAt(includes, excludes, i);
    }
  }

  lemma CatchAllAt(includes: seq<string>, excludes: seq<string>, i: nat)
    requires includes != [] && i <= |excludes| + |includes|
    ensures IsCatchAllExclude(SimpleRules(includes, excludes)[i]) <==>
            if i < |excludes| then IsStar(excludes[i]) else i == |excludes| + |includes|
  {
    StarsAreCatchAlls(i >= |excludes| && i < |excludes| + |includes|,
                      if i < |excludes| then excludes[i] else if i < |excludes| + |includes| then includes[i - |excludes|] else "*");
  }

  /** The simple form's rules: the traversal rule is above the catch-all that closes
      the whitelist, or above an exclude that is one. */
  function SimpleEffective(includes: seq<string>, excludes: seq<string>): seq<Rule> {
    var e := FirstStar(excludes);
    if includes == [] then Globs(false, excludes)
    else if e == |excludes| then Globs(false, excludes) + (Globs(true, includes) + [Traverse(), CatchAll()])
    else Globs(false, excludes[..e]) + ([Traverse()] + (Globs(false, excludes[e..]) + (Globs(true, includes) + [CatchAll()])))
  }

  lemma SimpleFormRules(includes: seq<string>, excludes: seq<string>)
    ensures EffectiveRules(FilterOption([], includes, excludes)) == SimpleEffective(includes, excludes)
  {
    var rules := SimpleRules(includes, excludes);
    if includes != [] {
      CatchAllIsAt(includes, excludes);
      assert rules[|excludes|].keep && HasInclude(rules);
      assert WithDirPassSpec(rules) == rules[..FirstCatchAll(rules)] + [Traverse()] + rules[FirstCatchAll(rules)..];
      if FirstStar(excludes) == |excludes| {
        ClosedAtEnd(includes, excludes);
      } else {
        ClosedAtStar(includes, excludes, FirstStar(excludes));
      }
    } else {
      NoIncludeNoTraverse(excludes);
    }
  }

  lemma NoIncludeNoTraverse(excludes: seq<string>)
    ensures WithDirPassSpec(SimpleRules([], excludes)) == Globs(false, excludes)
  {
    assert SimpleRules([], excludes) == Globs(false, excludes);
  }

  lemma ClosedAtEnd(includes: seq<string>, excludes: seq<string>)
    requires includes != []
    ensures var rules, p := SimpleRules(includes, excludes), |excludes| + |includes|;
            rules[..p] + [Traverse()] + rules[p..] == Globs(false, excludes) + (Globs(true, includes) + [Traverse(), CatchAll()])
  {
    var rules, p := SimpleRules(includes, excludes), |excludes| + |includes|;
    assert rules[..p] == Globs(false, excludes) + Globs(true, includes) && rules[p..] == [CatchAll()];
  }

  lemma ClosedAtStar(includes: seq<string>, excludes: seq<string>, e: nat)
    requires includes != [] && e <= |excludes|
    ensures var rules := SimpleRules(includes, excludes);
            rules[..e] + [Traverse()] + rules[e..] ==
            Globs(false, excludes[..e]) + ([Traverse()] + (Globs(false, excludes[e..]) + (Globs(true, includes) + [CatchAll()])))
  {
    var rules := SimpleRules(includes, excludes);
    assert rules[..e] == Globs(false, excludes[..e]);
    assert rules[e..] == Globs(false, excludes[e..]) + (Globs(true, includes) + [CatchAll()]);
  }

  /** Dropping the rules that are no globs changes nothing. */
  ghost predicate OnlyGlobs(rules: seq<Rule>) {
    GlobRules(rules) == rules
  }

  lemma {:induction false} GlobsAreGlobs(keep: bool, patterns: seq<string>)
    ensures OnlyGlobs(Globs(keep, patterns))
  {
    if patterns != [] {
      GlobsAreGlobs(keep, patterns[1..]);
      assert Globs(keep, patterns)[1..] == Globs(keep, patterns[1..]);
    }
  }

  lemma OnlyGlobsAppend(a: seq<Rule>, b: seq<Rule>)
    requires OnlyGlobs(a) && OnlyGlobs(b)
    ensures OnlyGlobs(a + b)
  {
    GlobRulesAppend(a, b);
  }

  lemma OneGlob(r: Rule)
    requires r.matcher.GlobMatcher?
    ensures OnlyGlobs([r])
  {
    assert [r][1..] == [];
  }

  lemma SimpleOnlyGlobs(includes: seq<string>, excludes: seq<string>)
    ensures OnlyGlobs(SimpleEffective(includes, excludes))
  {
    var e, last := FirstStar(excludes), [CatchAll()];
    GlobsAreGlobs(false, excludes);
    GlobsAreGlobs(false, excludes[..e]);
    GlobsAreGlobs(false, excludes[e..]);
    GlobsAreGlobs(true, includes);
    OneGlob(Traverse());
    OneGlob(CatchAll());
    OnlyGlobsAppend([Traverse()], last);
    OnlyGlobsAppend(Globs(true, includes), last);
    OnlyGlobsAppend(Globs(false, excludes[e..]), Globs(true, includes) + last);
    OnlyGlobsAppend([Traverse()], Globs(false, excludes[e..]) + (Globs(true, includes) + last));
    OnlyGlobsAppend(Globs(false, excludes[..e]), [Traverse()] + (Globs(false, excludes[e..]) + (Globs(true, includes) + last)));
    assert [Traverse()] + last == [Traverse(), CatchAll()];
    OnlyGlobsAppend(Globs(true, includes), [Traverse(), CatchAll()]);
    OnlyGlobsAppend(Globs(false, excludes), Globs(true, includes) + [Traverse(), CatchAll()]);
  }

  /** No newline is in what is above the path's last name. */
  predicate CleanAbove(path: string) {
    NoNewline(Trim(path)[..LastStart(Trim(path))])
  }

  /** What the simple form makes of a directory: the excludes drop it, but of them a
      catch-all and those after it only if a whitelist's traversal rule, which
      stands above, does not match it for a newline. A whitelist closes none. */
  predicate DirSimplyKept(includes: seq<string>, excludes: seq<string>, path: string) {
    var e := if includes == [] then |excludes| else FirstStar(excludes);
    !AnyGlob(excludes[..e], path, true) && (CleanAbove(path) || !AnyGlob(excludes[e..], path, true))
  }

  lemma SimpleFormDirectory(includes: seq<string>, excludes: seq<string>, path: string)
    ensures MatchRules(GlobRules(EffectiveRules(FilterOption([], includes, excludes))), Item(path, 0, true)) <==> DirSimplyKept(includes, excludes, path)
  {
    SimpleFormRules(includes, excludes);
    SimpleOnlyGlobs(includes, excludes);
    SimpleDirectory(includes, excludes, path);
  }

  lemma SimpleDirectory(includes: seq<string>, excludes: seq<string>, path: string)
    ensures MatchRules(SimpleEffective(includes, excludes), Item(path, 0, true)) <==> DirSimplyKept(includes, excludes, path)
  {
    var e := if includes == [] then |excludes| else FirstStar(excludes);
    if e < |excludes| {
      StarredDirectory(excludes[..e], excludes[e..], includes, path);
    } else {
      assert excludes[..e] == excludes && excludes[e..] == [];
      UnstarredDirectory(excludes, includes, path);
    }
  }

  lemma UnstarredDirectory(excludes: seq<string>, includes: seq<string>, path: string)
    ensures MatchRules(Globs(false, excludes) + (Globs(true, includes) + [Traverse(), CatchAll()]), Item(path, 0, true)) <==> !AnyGlob(excludes, path, true)
    ensures MatchRules(Globs(false, excludes), Item(path, 0, true)) <==> !AnyGlob(excludes, path, true)
  {
    var dir := Item(path, 0, true);
    GlobsInTurn(false, excludes, Globs(true, includes) + [Traverse(), CatchAll()], dir);
    GlobsInTurn(true, includes, [Traverse(), CatchAll()], dir);
    ClosingRulesKeepDirectories(path);
    GlobsInTurn(false, excludes, [], dir);
    assert Globs(false, excludes) + [] == Globs(false, excludes);
  }

  lemma StarredDirectory(above: seq<string>, below: seq<string>, includes: seq<string>, path: string)
    ensures MatchRules(Globs(false, above) + ([Traverse()] + (Globs(false, below) + (Globs(true, includes) + [CatchAll()]))), Item(path, 0, true)) <==>
            !AnyGlob(above, path, true) && (CleanAbove(path) || !AnyGlob(below, path, true))
  {
    var dir := Item(path, 0, true);
    var last := Globs(true, includes) + [CatchAll()];
    GlobsInTurn(false, above, [Traverse()] + (Globs(false, below) + last), dir);
    TraverseFirst(Globs(false, below) + last, path);
    GlobsInTurn(false, below, last, dir);
    GlobsInTurn(true, includes, [CatchAll()], dir);
    CatchAllAlone(path);
  }

  lemma TraverseFirst(rest: seq<Rule>, path: string)
    ensures MatchRules([Traverse()] + rest, Item(path, 0, true)) <==> CleanAbove(path) || MatchRules(rest, Item(path, 0, true))
  {
    TraverseMatches(path, true);
    assert ([Traverse()] + rest)[1..] == rest;
  }

  lemma CatchAllAlone(path: string)
    ensures MatchRules([CatchAll()], Item(path, 0, true)) <==> !CleanAbove(path)
  {
    StarMatches(path, true);
    assert [CatchAll()][1..] == [];
  }

  lemma ClosingRulesKeepDirectories(path: string)
    ensures MatchRules([Traverse(), CatchAll()], Item(path, 0, true))
  {
    TraverseFirst([CatchAll()], path);
    CatchAllAlone(path);
    assert [Traverse()] + [CatchAll()] == [Traverse(), CatchAll()];
  }

  lemma SimpleFormFile(includes: seq<string>, excludes: seq<string>, path: string, size: int)
    ensures MatchRules(EffectiveRules(FilterOption([], includes, excludes)), Item(path, size, false)) <==>
            !AnyGlob(excludes, path, false) && (includes == [] || AnyGlob(includes, path, false) || !CleanAbove(path))
  {
    var file := Item(path, size, false);
    var rest := if includes == [] then [] else Globs(true, includes) + [CatchAll()];
    TraverseSparesFiles(SimpleRules(includes, excludes), path, size);
    GlobsInTurn(false, excludes, rest, file);
    GlobsInTurn(true, includes, [CatchAll()], file);
    StarMatches(path, false);
    assert [CatchAll()][1..] == [];
  }

  /** A file is kept iff no exclude matches it, every directory above it is kept, and
      where there are includes one of them matches it; or the file is beneath a
      directory with a newline in its name, which the closing "*" does not match. */
  lemma SimpleFormExactly(includes: seq<string>, excludes: seq<string>, names: seq<string>, size: int)
    requires AreNames(names) && names != []
    ensures var path := Join(names, '/');
            PathKept(EffectiveRules(FilterOption([], includes, excludes)), path, size, false) <==>
            && !AnyGlob(excludes, path, false)
            && (includes == [] || AnyGlob(includes, path, false) || !CleanAbove(path))
            && forall k :: 0 < k < |names| ==> DirSimplyKept(includes, excludes, Join(names[..k], '/'))
  {
    var rules, path := EffectiveRules(FilterOption([], includes, excludes)), Join(names, '/');
    NamesAreTrim(names);
    PathKeptByNames(rules, names, size);
    SimpleFormFile(includes, excludes, path, size);
    SimpleFormAncestors(includes, excludes, names);
  }

  lemma SimpleFormAncestors(includes: seq<string>, excludes: seq<string>, names: seq<string>)
    requires AreNames(names) && names != []
    ensures NamesKept(EffectiveRules(FilterOption([], includes, excludes)), names[..|names| - 1]) <==>
            forall k :: 0 < k < |names| ==> DirSimplyKept(includes, excludes, Join(names[..k], '/'))
  {
    var rules, up := EffectiveRules(FilterOption([], includes, excludes)), names[..|names| - 1];
    EveryAncestorKept(rules, up);
    forall k | 0 < k < |names|
      ensures MatchRules(GlobRules(rules), Item(Join(up[..k], '/'), 0, true)) <==> DirSimplyKept(includes, excludes, Join(names[..k], '/'))
    {
      SimpleFormDirectory(includes, excludes, Join(names[..k], '/'));
      assert up[..k] == names[..k];
    }
  }

  lemma DirUnstarred(includes: seq<string>, excludes: seq<string>, path: string)
    requires FirstStar(excludes) == |excludes|
    ensures DirSimplyKept(includes, excludes, path) <==> !AnyGlob(excludes, path, true)
  {
    assert excludes[..|excludes|] == excludes && excludes[|excludes|..] == [];
  }

  /** Where no exclude is a catch-all, that is the documented meaning, but for the
      includes being put aside beneath a newline. */
  lemma SimpleFormUnstarred(includes: seq<string>, excludes: seq<string>, names: seq<string>, size: int)
    requires AreNames(names) && names != [] && FirstStar(excludes) == |excludes|
    ensures PathKept(EffectiveRules(FilterOption([], includes, excludes)), Join(names, '/'), size, false) <==>
            SimplyKept(if CleanAbove(Join(names, '/')) then includes else [], excludes, names)
  {
    SimpleFormExactly(includes, excludes, names, size);
    forall k | 0 < k < |names|
      ensures DirSimplyKept(includes, excludes, Join(names[..k], '/')) <==> !AnyGlob(excludes, Join(names[..k], '/'), true)
    {
      DirUnstarred(includes, excludes, Join(names[..k], '/'));
    }
  }

  /** So for every path without a newline, and all lists, the simple form means
      what it is documented to. */
  lemma SimpleFormMeaning(includes: seq<string>, excludes: seq<string>, names: seq<string>, size: int)
    requires AreNames(names) && names != [] && NoNewline(Join(names, '/'))
    ensures PathKept(EffectiveRules(FilterOption([], includes, excludes)), Join(names, '/'), size, false) <==>
            SimplyKept(includes, excludes, names)
  {
    var rules, path := EffectiveRules(FilterOption([], includes, excludes)), Join(names, '/');
    NamesAreTrim(names);
    if FirstStar(excludes) == |excludes| {
      assert CleanAbove(path);
      SimpleFormUnstarred(includes, excludes, names, size);
    } else {
      var i := FirstStar(excludes);
      CatchAllMatches(Rule(false, GlobMatcher(excludes[i])), Item(path, size, false));
      assert GlobMatches(excludes[i], path, false);
      SimpleFormFile(includes, excludes, path, size);
      PathKeptByNames(rules, names, size);
    }
  }

  /** Beneath a directory with a newline in its name a whitelist keeps every file,
      whatever is on it. */
  lemma NewlinePassesWhitelist(includes: seq<string>, names: seq<string>, size: int)
    requires AreNames(names) && names != [] && !CleanAbove(Join(names, '/'))
    ensures PathKept(EffectiveRules(FilterOption([], includes, [])), Join(names, '/'), size, false)
    ensures SimplyKept(includes, [], names) <==> includes == [] || AnyGlob(includes, Join(names, '/'), false)
  {
    SimpleFormUnstarred(includes, [], names, size);
  }

  /** So a whitelist of "*.go" keeps a file that is named b. */
  lemma GoWhitelistPassesNewline(names: seq<string>)
    requires names == ["a\n", "b"]
    ensures PathKept(EffectiveRules(FilterOption([], ["*.go"], [])), Join(names, '/'), 0, false)
    ensures !SimplyKept(["*.go"], [], names)
  {
    var path := Join(names, '/');
    JoinedNames(names);
    NamesAreTrim(names);
    NewlineStopsGlob(path);
    NewlinePassesWhitelist(["*.go"], names, 0);
  }

  lemma NewlineStopsGlob(path: string)
    requires path == "a\n/b" && Trim(path) == path
    ensures !CleanAbove(path) && !AnyGlob(["*.go"], path, false)
  {
    assert path[2] == '/' && LastStart(path) >= 2 && path[..LastStart(path)][1] == '\n';
    assert "*.go"[0] != '/' && Core("*.go") == "*.go" && OneSegment("*.go");
    WildOneSegment("*.go", path, false);
  }

  lemma JoinedNames(names: seq<string>)
    requires names == ["a\n", "b"]
    ensures Join(names, '/') == "a\n/b"
  {
    assert names[1..] == ["b"];
    assert Join(names[1..], '/') == "b";
    assert names[0] + ['/'] + "b" == "a\n/b";
  }
}
