/** The filter pipeline: ordered rules of which the first that matches decides,
    the traversal rule put into a whitelist, and directories that take what is
    beneath them along (data-mig/storagex/filter/filter.go, size.go). */
module Filter {
  import opened Options
  import opened Paths
  import opened Glob

  /** What a matcher is asked about: the path relative to the transfer root. */
  datatype Item = Item(path: string, size: int, isDir: bool)

  datatype SizeOp = Gt | Ge | Lt | Le | Eq

  /** Custom stands for the types callers register. */
  datatype Matcher = GlobMatcher(pattern: string) | SizeMatcher(op: SizeOp, value: int) | Custom(accepts: Item -> bool) | NoMatcher

  datatype Rule = Rule(keep: bool, matcher: Matcher)

  /** sizeMatcher.Match. */
  predicate SizeMatches(op: SizeOp, value: int, size: int) {
    match op
    case Gt => size > value
    case Ge => size >= value
    case Lt => size < value
    case Le => size <= value
    case Eq => size == value
  }

  /** Of a size and a value, one is larger or they are equal. */
  lemma SizesCompare(value: int, size: int)
    ensures SizeMatches(Eq, value, size) <==> !SizeMatches(Lt, value, size) && !SizeMatches(Gt, value, size)
    ensures SizeMatches(Le, value, size) <==> !SizeMatches(Gt, value, size)
    ensures SizeMatches(Ge, value, size) <==> !SizeMatches(Lt, value, size)
  {
  }

  predicate RuleMatches(r: Rule, item: Item) {
    match r.matcher
    case GlobMatcher(pattern) => GlobMatches(pattern, item.path, item.isDir)
    case SizeMatcher(op, value) => SizeMatches(op, value, item.size)
    case Custom(accepts) => accepts(item)
    case NoMatcher => false
  }

  /** matchRules: the first rule that matches decides; an item none matches is
      kept. */
  predicate MatchRules(rules: seq<Rule>, item: Item) {
    rules == [] || (if RuleMatches(rules[0], item) then rules[0].keep else MatchRules(rules[1..], item))
  }

  // ---- the effective pipeline ----

  /** includes and excludes are the simple form, used when rules is empty. */
  datatype FilterOption = FilterOption(rules: seq<Rule>, includes: seq<string>, excludes: seq<string>)

  predicate HasInclude(rules: seq<Rule>) {
    exists i :: 0 <= i < |rules| && rules[i].keep
  }

  predicate IsCatchAllExclude(r: Rule) {
    !r.keep && r.matcher.GlobMatcher? && (r.matcher.pattern == "*" || r.matcher.pattern == "**")
  }

  function Traverse(): Rule {
    Rule(true, GlobMatcher("*/"))
  }

  /** Where the first catch-all exclude is, or the length. */
  function FirstCatchAll(rules: seq<Rule>): (k: nat)
    ensures k <= |rules|
    ensures k < |rules| ==> IsCatchAllExclude(rules[k])
    ensures forall i :: 0 <= i < k ==> !IsCatchAllExclude(rules[i])
  {
    if rules == [] || IsCatchAllExclude(rules[0]) then 0 else 1 + FirstCatchAll(rules[1..])
  }

  function WithDirPassSpec(rules: seq<Rule>): seq<Rule> {
    var k := FirstCatchAll(rules);
    if !HasInclude(rules) || k == |rules| then rules else rules[..k] + [Traverse()] + rules[k..]
  }

  /** withDirPass. */
  method WithDirPass(rules: seq<Rule>) returns (out: seq<Rule>)
    ensures out == WithDirPassSpec(rules)
  {
    if !HasInclude(rules) {
      return rules;
    }
    var i := 0;
    while i < |rules|
      invariant 0 <= i <= |rules|
      invariant forall j :: 0 <= j < i ==> !IsCatchAllExclude(rules[j])
    {
      if IsCatchAllExclude(rules[i]) {
        return rules[..i] + [Traverse()] + rules[i..];
      }
      i := i + 1;
    }
    return rules;
  }

  function Globs(keep: bool, patterns: seq<string>): (r: seq<Rule>)
    ensures |r| == |patterns| && forall i :: 0 <= i < |patterns| ==> r[i] == Rule(keep, GlobMatcher(patterns[i]))
  {
    seq(|patterns|, i requires 0 <= i < |patterns| => Rule(keep, GlobMatcher(patterns[i])))
  }

  /** The simple form, as rules: excludes first, and an include list closed by a
      catch-all. */
  function SimpleRules(includes: seq<string>, excludes: seq<string>): seq<Rule> {
    Globs(false, excludes) + if includes == [] then [] else Globs(true, includes) + [Rule(false, GlobMatcher("*"))]
  }

  function EffectiveRules(o: FilterOption): seq<Rule> {
    WithDirPassSpec(if o.rules != [] then o.rules else SimpleRules(o.includes, o.excludes))
  }

  /** buildEffective. */
  method BuildEffective(o: FilterOption) returns (out: seq<Rule>)
    ensures out == EffectiveRules(o)
  {
    if |o.rules| > 0 {
      out := WithDirPass(o.rules);
      return;
    }
    var rules: seq<Rule> := [];
    var i := 0;
    while i < |o.excludes|
      invariant 0 <= i <= |o.excludes| && rules == Globs(false, o.excludes[..i])
    {
      rules := rules + [Rule(false, GlobMatcher(o.excludes[i]))];
      i := i + 1;
    }
    assert o.excludes[..i] == o.excludes;
    if |o.includes| > 0 {
      i := 0;
      while i < |o.includes|
        invariant 0 <= i <= |o.includes| && rules == Globs(false, o.excludes) + Globs(true, o.includes[..i])
      {
        rules := rules + [Rule(true, GlobMatcher(o.includes[i]))];
        i := i + 1;
      }
      assert o.includes[..i] == o.includes;
      rules := rules + [Rule(false, GlobMatcher("*"))];
    }
    assert rules == SimpleRules(o.includes, o.excludes);
    out := WithDirPass(rules);
  }

  /** directoryRules: the rules a directory is judged by. */
  function GlobRules(rules: seq<Rule>): seq<Rule> {
    if rules == [] then [] else (if rules[0].matcher.GlobMatcher? then [rules[0]] else []) + GlobRules(rules[1..])
  }

  // ---- one path's verdict ----

  /** Every directory from dir up is kept. */
  predicate DirsKept(rules: seq<Rule>, dir: string)
    decreases if Top(dir) then 0 else |dir|
  {
    if Top(dir) then true
    else
      DirShrinks(dir);
      MatchRules(GlobRules(rules), Item(dir, 0, true)) && DirsKept(rules, Dir(dir))
  }

  /** MatchPath's verdict under the effective rules. */
  predicate PathKept(rules: seq<Rule>, rel: string, size: int, isDir: bool) {
    var p := Trim(rel);
    p == "" || (MatchRules(rules, Item(p, size, isDir)) && DirsKept(rules, Dir(p)))
  }

  /** MatchPath. A nil option keeps everything. */
  method MatchPath(o: Option<FilterOption>, rel: string, size: int, isDir: bool) returns (kept: bool)
    ensures kept <==> o.None? || PathKept(EffectiveRules(o.value), rel, size, isDir)
  {
    if o.None? {
      return true;
    }
    var p := Trim(rel);
    if p == "" {
      return true;
    }
    var rules := BuildEffective(o.value);
    if !MatchRules(rules, Item(p, size, isDir)) {
      return false;
    }
    var dir := Dir(p);
    while !Top(dir)
      invariant DirsKept(rules, Dir(p)) <==> DirsKept(rules, dir)
      decreases if Top(dir) then 0 else |dir|
    {
      if !MatchRules(GlobRules(rules), Item(dir, 0, true)) {
        return false;
      }
      DirShrinks(dir);
      dir := Dir(dir);
    }
    return true;
  }

  // ---- MatchPath is a walk that never enters a dropped directory ----

  /** A directory tree. */
  datatype Tree = FileNode(name: string, size: nat) | DirNode(name: string, children: seq<Tree>)

  /** A file, by its names from the transfer root down, and its size. */
  datatype Found = Found(names: seq<string>, size: nat)

  predicate Named(t: Tree) {
    IsName(t.name) && (t.DirNode? ==> forall c :: c in t.children ==> Named(c))
  }

  /** All the files below t. */
  function Files(above: seq<string>, t: Tree): seq<Found>
    decreases t, 0
  {
    match t
    case FileNode(name, size) => [Found(above + [name], size)]
    case DirNode(name, children) => FilesOf(above + [name], children)
  }

  function FilesOf(above: seq<string>, ts: seq<Tree>): seq<Found>
    decreases ts, 1
  {
    if ts == [] then [] else Files(above, ts[0]) + FilesOf(above, ts[1..])
  }

  /** What a top-down walk collects that judges every entry where it meets it, and
      leaves out a dropped directory with all that is beneath it. */
  function Walk(rules: seq<Rule>, above: seq<string>, t: Tree): seq<Found>
    decreases t, 0
  {
    var path := Join(above + [t.name], '/');
    match t
    case FileNode(name, size) => if MatchRules(rules, Item(path, size, false)) then [Found(above + [name], size)] else []
    case DirNode(name, children) => if MatchRules(GlobRules(rules), Item(path, 0, true)) then WalkOf(rules, above + [name], children) else []
  }

  function WalkOf(rules: seq<Rule>, above: seq<string>, ts: seq<Tree>): seq<Found>
    decreases ts, 1
  {
    if ts == [] then [] else Walk(rules, above, ts[0]) + WalkOf(rules, above, ts[1..])
  }

  function Select<T>(keep: T -> bool, xs: seq<T>): seq<T> {
    if xs == [] then [] else (if keep(xs[0]) then [xs[0]] else []) + Select(keep, xs[1..])
  }

  lemma {:induction false} SelectAppend<T>(keep: T -> bool, a: seq<T>, b: seq<T>)
    ensures Select(keep, a + b) == Select(keep, a) + Select(keep, b)
  {
    if a == [] {
      assert a + b == b;
    } else {
      SelectAppend(keep, a[1..], b);
      SelectFirst(keep, a + b, a[1..] + b);
    }
  }

  lemma SelectFirst<T>(keep: T -> bool, xs: seq<T>, rest: seq<T>)
    requires xs != [] && xs == [xs[0]] + rest
    ensures Select(keep, xs) == (if keep(xs[0]) then [xs[0]] else []) + Select(keep, rest)
  {
    assert xs[1..] == rest;
  }

  function Keeper(rules: seq<Rule>): Found -> bool {
    (f: Found) => PathKept(rules, Join(f.names, '/'), f.size, false)
  }

  /** The files of fs that MatchPath keeps, in order. */
  function Kept(rules: seq<Rule>, fs: seq<Found>): seq<Found> {
    Select(Keeper(rules), fs)
  }

  lemma KeptOne(rules: seq<Rule>, f: Found)
    ensures Kept(rules, [f]) == if PathKept(rules, Join(f.names, '/'), f.size, false) then [f] else []
  {
    SelectOne(Keeper(rules), f);
  }

  lemma SelectOne<T>(keep: T -> bool, x: T)
    ensures Select(keep, [x]) == if keep(x) then [x] else []
  {
    SelectFirst(keep, [x], []);
  }

  /** The directory made of these names, and all above it, are kept. */
  predicate NamesKept(rules: seq<Rule>, names: seq<string>) {
    names == [] || DirsKept(rules, Join(names, '/'))
  }

  lemma NamesKeptUp(rules: seq<Rule>, names: seq<string>)
    requires AreNames(names) && names != []
    ensures NamesKept(rules, names) <==>
            MatchRules(GlobRules(rules), Item(Join(names, '/'), 0, true)) && NamesKept(rules, names[..|names| - 1])
  {
    NamesUp(names);
    DirsKeptUp(rules, Join(names, '/'));
  }

  lemma DirsKeptUp(rules: seq<Rule>, dir: string)
    requires !Top(dir)
    ensures DirsKept(rules, dir) <==> MatchRules(GlobRules(rules), Item(dir, 0, true)) && DirsKept(rules, Dir(dir))
  {
    DirShrinks(dir);
  }

  lemma PathKeptByNames(rules: seq<Rule>, names: seq<string>, size: int)
    requires AreNames(names) && names != []
    ensures PathKept(rules, Join(names, '/'), size, false) <==>
            MatchRules(rules, Item(Join(names, '/'), size, false)) && NamesKept(rules, names[..|names| - 1])
  {
    NamesUp(names);
    NamesAreTrim(names);
  }

  /** Beneath a dropped directory nothing is kept. */
  lemma {:induction false} NothingBeneath(rules: seq<Rule>, above: seq<string>, t: Tree)
    requires AreNames(above) && Named(t) && !NamesKept(rules, above)
    ensures Kept(rules, Files(above, t)) == []
    decreases t, 0
  {
    var names := above + [t.name];
    match t
    case FileNode(name, size) =>
      assert names[..|names| - 1] == above;
      PathKeptByNames(rules, names, size);
      KeptOne(rules, Found(names, size));
    case DirNode(name, children) =>
      assert names[..|names| - 1] == above;
      NamesKeptUp(rules, names);
      NothingBeneathAll(rules, names, children);
  }

  lemma {:induction false} NothingBeneathAll(rules: seq<Rule>, above: seq<string>, ts: seq<Tree>)
    requires AreNames(above) && (forall t :: t in ts ==> Named(t)) && !NamesKept(rules, above)
    ensures Kept(rules, FilesOf(above, ts)) == []
    decreases ts, 1
  {
    if ts != [] {
      NothingBeneath(rules, above, ts[0]);
      NothingBeneathAll(rules, above, ts[1..]);
      SelectAppend(Keeper(rules), Files(above, ts[0]), FilesOf(above, ts[1..]));
    }
  }

  /** The files MatchPath keeps are, in order, the ones the walk collects. */
  lemma {:induction false} WalkIsMatchPath(rules: seq<Rule>, above: seq<string>, t: Tree)
    requires AreNames(above) && Named(t) && NamesKept(rules, above)
    ensures Walk(rules, above, t) == Kept(rules, Files(above, t))
    decreases t, 0
  {
    var names := above + [t.name];
    assert names[..|names| - 1] == above;
    match t
    case FileNode(name, size) =>
      PathKeptByNames(rules, names, size);
      KeptOne(rules, Found(names, size));
    case DirNode(name, children) =>
      NamesKeptUp(rules, names);
      if NamesKept(rules, names) {
        WalkOfIsMatchPath(rules, names, children);
      } else {
        NothingBeneathAll(rules, names, children);
      }
  }

  lemma {:induction false} WalkOfIsMatchPath(rules: seq<Rule>, above: seq<string>, ts: seq<Tree>)
    requires AreNames(above) && (forall t :: t in ts ==> Named(t)) && NamesKept(rules, above)
    ensures WalkOf(rules, above, ts) == Kept(rules, FilesOf(above, ts))
    decreases ts, 1
  {
    if ts != [] {
      WalkIsMatchPath(rules, above, ts[0]);
      WalkOfIsMatchPath(rules, above, ts[1..]);
      SelectAppend(Keeper(rules), Files(above, ts[0]), FilesOf(above, ts[1..]));
    }
  }

  // ---- slashes at the ends of a path ----

  lemma {:induction false} SlashesTrim(s: string)
    ensures Trim("/" + s) == Trim(s) == Trim(s + "/")
  {
    assert ("/" + s)[1..] == s;
    if s == "" {
      assert "/"[1..] == "" && s + "/" == "/";
    } else if Rooted(s) {
      SlashesTrim(s[1..]);
      assert (s + "/")[1..] == s[1..] + "/";
      assert TrimLeft(s + "/") == TrimLeft(s[1..] + "/");
    } else {
      assert TrimLeft(s + "/") == s + "/" && (s + "/")[..|s|] == s;
    }
  }

  /** Slashes around a path are no part of it, and the transfer root is always kept. */
  lemma SlashesDoNotMatter(rules: seq<Rule>, rel: string, size: int, isDir: bool)
    ensures PathKept(rules, rel, size, isDir) <==> PathKept(rules, "/" + rel, size, isDir)
    ensures PathKept(rules, rel, size, isDir) <==> PathKept(rules, rel + "/", size, isDir)
    ensures PathKept(rules, "", size, isDir)
  {
    SlashesTrim(rel);
  }
}
