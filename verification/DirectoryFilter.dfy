/** What the pipeline makes of a directory that is itself asked about, and of
    size rules among the globs (data-mig/storagex/filter/filter.go, as
    data-mig/storagex/inspect.go asks it about folders). */
module DirectoryFilter {
  import opened Options
  import opened Paths
  import opened Glob
  import opened Filter
  import opened WhitelistFilter

  // ---- size rules among globs ----

  /** The first glob rule that matches, or the number of rules. */
  function FirstGlob(rules: seq<Rule>, path: string, isDir: bool): (k: nat)
    ensures k <= |rules|
    ensures k < |rules| ==> rules[k].matcher.GlobMatcher?
  {
    if rules == [] || (rules[0].matcher.GlobMatcher? && GlobMatches(rules[0].matcher.pattern, path, isDir)) then 0
    else 1 + FirstGlob(rules[1..], path, isDir)
  }

  predicate DropsSize(rules: seq<Rule>, size: int) {
    exists i :: 0 <= i < |rules| && rules[i].matcher.SizeMatcher? && SizeMatches(rules[i].matcher.op, rules[i].matcher.value, size)
  }

  /** Globs, and size rules that drop what they match. */
  ghost predicate OnlyDrops(rules: seq<Rule>) {
    forall i :: 0 <= i < |rules| ==> rules[i].matcher.GlobMatcher? || (rules[i].matcher.SizeMatcher? && !rules[i].keep)
  }

  lemma GlobRulesFirst(rules: seq<Rule>, item: Item)
    requires rules != []
    ensures MatchRules(GlobRules(rules), item) <==>
            if rules[0].matcher.GlobMatcher? && RuleMatches(rules[0], item) then rules[0].keep else MatchRules(GlobRules(rules[1..]), item)
  {
    if rules[0].matcher.GlobMatcher? {
      assert GlobRules(rules)[1..] == GlobRules(rules[1..]);
    } else {
      assert GlobRules(rules) == GlobRules(rules[1..]);
    }
  }

  /** An item is kept iff its first glob rule keeps it and no size rule above
      drops it. */
  lemma {:induction false} MatchRulesByParts(rules: seq<Rule>, item: Item)
    requires OnlyDrops(rules)
    ensures var k := FirstGlob(rules, item.path, item.isDir);
            MatchRules(rules, item) <==> (k == |rules| || rules[k].keep) && !DropsSize(rules[..k], item.size)
  {
    var k := FirstGlob(rules, item.path, item.isDir);
    if rules != [] {
      var r := rules[0];
      if k > 0 {
        MatchRulesByParts(rules[1..], item);
        assert rules[..k] == [r] + rules[1..][..k - 1];
        DropsSizeSplit([r], rules[1..][..k - 1], item.size);
        if r.matcher.SizeMatcher? {
          assert DropsSize([r], item.size) <==> RuleMatches(r, item) by {
            assert [r][0] == r;
          }
        }
      }
    }
  }

  lemma DropsSizeSplit(a: seq<Rule>, b: seq<Rule>, size: int)
    ensures DropsSize(a + b, size) <==> DropsSize(a, size) || DropsSize(b, size)
  {
    if i :| 0 <= i < |a| && a[i].matcher.SizeMatcher? && SizeMatches(a[i].matcher.op, a[i].matcher.value, size) {
      assert (a + b)[i] == a[i];
    }
    if i :| 0 <= i < |b| && b[i].matcher.SizeMatcher? && SizeMatches(b[i].matcher.op, b[i].matcher.value, size) {
      assert (a + b)[|a| + i] == b[i];
    }
  }

  /** The glob rules alone are decided by the first of them that matches. */
  lemma {:induction false} GlobsByParts(rules: seq<Rule>, item: Item)
    ensures var k := FirstGlob(rules, item.path, item.isDir);
            MatchRules(GlobRules(rules), item) <==> k == |rules| || rules[k].keep
  {
    if rules != [] {
      GlobRulesFirst(rules, item);
      GlobsByParts(rules[1..], item);
    }
  }

  // ---- a directory's own verdict ----

  lemma DirKeptByNames(rules: seq<Rule>, names: seq<string>, size: int)
    requires AreNames(names) && names != []
    ensures PathKept(rules, Join(names, '/'), size, true) <==>
            MatchRules(rules, Item(Join(names, '/'), size, true)) && NamesKept(rules, names[..|names| - 1])
  {
    NamesUp(names);
    NamesAreTrim(names);
  }

  /** A directory is kept iff the walk enters it, unless a size rule above the first
      glob that matches it drops the size it is asked about with. */
  lemma DirectoryKeptExactly(rules: seq<Rule>, names: seq<string>, size: int)
    requires OnlyDrops(rules) && AreNames(names) && names != []
    ensures var path := Join(names, '/');
            PathKept(rules, path, size, true) <==>
            NamesKept(rules, names) && !DropsSize(rules[..FirstGlob(rules, path, true)], size)
  {
    var path := Join(names, '/');
    DirKeptByNames(rules, names, size);
    NamesKeptUp(rules, names);
    MatchRulesByParts(rules, Item(path, size, true));
    GlobsByParts(rules, Item(path, 0, true));
  }

  /** With globs only, the directories kept are those the walk enters. */
  lemma GlobDirectoryKept(rules: seq<Rule>, names: seq<string>, size: int)
    requires (forall r :: r in rules ==> r.matcher.GlobMatcher?) && AreNames(names) && names != []
    ensures PathKept(rules, Join(names, '/'), size, true) <==> NamesKept(rules, names)
  {
    DirectoryKeptExactly(rules, names, size);
  }

  /** In the simple form a directory is kept iff it is by its own name, and every
      directory above it. */
  lemma SimpleFormDirectoryExactly(includes: seq<string>, excludes: seq<string>, names: seq<string>, size: int)
    requires AreNames(names) && names != []
    ensures PathKept(EffectiveRules(FilterOption([], includes, excludes)), Join(names, '/'), size, true) <==>
            forall k :: 0 < k <= |names| ==> DirSimplyKept(includes, excludes, Join(names[..k], '/'))
  {
    var rules := EffectiveRules(FilterOption([], includes, excludes));
    SimpleFormRules(includes, excludes);
    SimpleAreGlobs(includes, excludes);
    GlobDirectoryKept(rules, names, size);
    EveryAncestorKept(rules, names);
    forall k | 0 < k <= |names|
      ensures MatchRules(GlobRules(rules), Item(Join(names[..k], '/'), 0, true)) <==> DirSimplyKept(includes, excludes, Join(names[..k], '/'))
    {
      SimpleFormDirectory(includes, excludes, Join(names[..k], '/'));
    }
  }

  lemma SimpleAreGlobs(includes: seq<string>, excludes: seq<string>)
    ensures forall r :: r in SimpleEffective(includes, excludes) ==> r.matcher.GlobMatcher?
  {
  }

  /** A folder is asked about with size 0: "drop what is smaller than value", put
      first, hides every folder of an inspection, also those whose files are kept,
      which the walk enters. */
  lemma SmallerThanHidesFolders(value: int, rest: seq<Rule>, names: seq<string>)
    requires value > 0 && AreNames(names) && names != []
    ensures var rules := [Rule(false, SizeMatcher(Lt, value))] + rest;
            && !PathKept(rules, Join(names, '/'), 0, true)
            && (NamesKept(rules, names) <==> NamesKept(rest, names))
  {
    var rules := [Rule(false, SizeMatcher(Lt, value))] + rest;
    DirKeptByNames(rules, names, 0);
    assert rules[1..] == rest && GlobRules(rules) == GlobRules(rest);
    EveryAncestorKept(rules, names);
    EveryAncestorKept(rest, names);
  }
}
