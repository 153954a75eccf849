/** The filter pipeline handed to rsync (data-mig/storagex/executor-rsync.go,
    filter/size.go, filter/glob.go), and what rsync makes of it: include and
    exclude flags in order, and size gates that hold for the whole transfer. */
module Rsync {
  import opened Options
  import opened Paths
  import opened Glob
  import opened Filter
  import opened WhitelistFilter
  import opened DirectoryFilter

  datatype Flag = IncludeFlag(pattern: string) | ExcludeFlag(pattern: string) | MaxSize(bytes: int) | MinSize(bytes: int)

  // ---- the translation ----

  /** RsyncArgs of a rule's matcher; None is its error, or a matcher that has no
      translation. */
  function FlagOf(r: Rule): Option<Flag> {
    match r.matcher
    case GlobMatcher(pattern) => Some(if r.keep then IncludeFlag(pattern) else ExcludeFlag(pattern))
    case SizeMatcher(op, value) =>
      if r.keep then None
      else if op.Gt? then Some(MaxSize(value))
      else if op.Ge? then if value <= 0 then None else Some(MaxSize(value - 1))
      else if op.Lt? then Some(MinSize(value))
      else if op.Le? then Some(MinSize(value + 1))
      else None
    case Custom(_) => None
    case NoMatcher => None
  }

  /** The rules rsync is not given: those of other types; a size rule that keeps
      what it matches, or asks for one size; "at least 0 bytes", which is every
      file. */
  predicate HasNoFlag(r: Rule) {
    match r.matcher
    case GlobMatcher(_) => false
    case SizeMatcher(op, value) => r.keep || op == Eq || (op == Ge && value <= 0)
    case Custom(_) => true
    case NoMatcher => true
  }

  lemma RefusedExactly(r: Rule)
    ensures FlagOf(r).None? <==> HasNoFlag(r)
  {
  }

  lemma TranslatedHaveFlags(rules: seq<Rule>, flags: seq<Flag>)
    requires Translated(rules, flags)
    ensures forall r :: r in rules ==> !HasNoFlag(r)
  {
    forall r | r in rules ensures !HasNoFlag(r) {
      var i :| 0 <= i < |rules| && rules[i] == r;
      assert FlagOf(rules[i]) == Some(flags[i]);
      RefusedExactly(r);
    }
  }

  /** A glob rule's flag has its pattern and its verdict. */
  lemma GlobFlag(r: Rule, f: Flag)
    requires FlagOf(r) == Some(f) && r.matcher.GlobMatcher?
    ensures r.keep ==> f == IncludeFlag(r.matcher.pattern)
    ensures !r.keep ==> f == ExcludeFlag(r.matcher.pattern)
  {
  }

  ghost predicate Translated(rules: seq<Rule>, flags: seq<Flag>) {
    |flags| == |rules| && forall i :: 0 <= i < |rules| ==> FlagOf(rules[i]) == Some(flags[i])
  }

  /** rsyncFilterArgs. */
  method RsyncFilterArgs(o: Option<FilterOption>) returns (args: Option<seq<Flag>>)
    ensures o.None? ==> args == Some([])
    ensures o.Some? && args.Some? ==> Translated(EffectiveRules(o.value), args.value)
    ensures o.Some? ==> (args.None? <==> exists r :: r in EffectiveRules(o.value) && HasNoFlag(r))
  {
    if o.None? {
      return Some([]);
    }
    var rules := BuildEffective(o.value);
    var flags: seq<Flag> := [];
    var i := 0;
    while i < |rules|
      invariant 0 <= i <= |rules|
      invariant Translated(rules[..i], flags)
    {
      var a := FlagOf(rules[i]);
      RefusedExactly(rules[i]);
      if a.None? {
        assert rules[i] in rules;
        return None;
      }
      flags := flags + [a.value];
      i := i + 1;
    }
    assert rules[..i] == rules;
    TranslatedHaveFlags(rules, flags);
    return Some(flags);
  }

  // ---- how rsync reads its flags ----

  /** The first include or exclude flag whose pattern matches decides. */
  predicate Allows(flags: seq<Flag>, path: string, isDir: bool) {
    flags == [] ||
    match flags[0]
    case IncludeFlag(p) => GlobMatches(p, path, isDir) || Allows(flags[1..], path, isDir)
    case ExcludeFlag(p) => !GlobMatches(p, path, isDir) && Allows(flags[1..], path, isDir)
    case MaxSize(_) => Allows(flags[1..], path, isDir)
    case MinSize(_) => Allows(flags[1..], path, isDir)
  }

  /** The bound itself passes. */
  predicate Passes(f: Flag, size: int) {
    (f.MaxSize? ==> size <= f.bytes) && (f.MinSize? ==> size >= f.bytes)
  }

  /** Of a flag given again, the last one counts. */
  function LastMax(flags: seq<Flag>): (r: Option<int>)
    ensures r.Some? ==> MaxSize(r.value) in flags
    ensures r.None? ==> forall f :: f in flags ==> !f.MaxSize?
  {
    if flags == [] then None
    else if flags[|flags| - 1].MaxSize? then Some(flags[|flags| - 1].bytes)
    else LastMax(flags[..|flags| - 1])
  }

  function LastMin(flags: seq<Flag>): (r: Option<int>)
    ensures r.Some? ==> MinSize(r.value) in flags
    ensures r.None? ==> forall f :: f in flags ==> !f.MinSize?
  {
    if flags == [] then None
    else if flags[|flags| - 1].MinSize? then Some(flags[|flags| - 1].bytes)
    else LastMin(flags[..|flags| - 1])
  }

  predicate GatesPass(flags: seq<Flag>, size: int) {
    (LastMax(flags).Some? ==> size <= LastMax(flags).value) && (LastMin(flags).Some? ==> size >= LastMin(flags).value)
  }

  predicate Sends(flags: seq<Flag>, path: string, size: int) {
    Allows(flags, path, false) && GatesPass(flags, size)
  }

  /** The files rsync sends: it does not go into a directory it drops, and a gate
      drops files only. */
  function Sent(flags: seq<Flag>, above: seq<string>, t: Tree): seq<Found>
    decreases t, 0
  {
    var path := Join(above + [t.name], '/');
    match t
    case FileNode(name, size) => if Sends(flags, path, size) then [Found(above + [name], size)] else []
    case DirNode(name, children) => if Allows(flags, path, true) then SentOf(flags, above + [name], children) else []
  }

  function SentOf(flags: seq<Flag>, above: seq<string>, ts: seq<Tree>): seq<Found>
    decreases ts, 1
  {
    if ts == [] then [] else Sent(flags, above, ts[0]) + SentOf(flags, above, ts[1..])
  }

  // ---- one size rule ----

  /** A gate lets through exactly what its rule does not drop, the bound included:
      sizes are whole numbers, so one byte makes a strict gate of one that is not. */
  lemma GateIsRule(r: Rule, f: Flag, item: Item)
    requires r.matcher.SizeMatcher? && FlagOf(r) == Some(f)
    ensures Passes(f, item.size) <==> !RuleMatches(r, item)
    ensures !r.keep && (f.MaxSize? || f.MinSize?)
  {
  }

  /** A gate rsync takes, a bound below 0 being refused, that drops what the rule
      matches. */
  ghost predicate GateFor(f: Flag, op: SizeOp, value: int) {
    && (f.MaxSize? || f.MinSize?) && f.bytes >= 0
    && forall size: nat :: Passes(f, size) <==> !SizeMatches(op, value, size)
  }

  /** A gate for a rule exists unless it drops every file, or one size only that
      has smaller ones. The flag a rule is given is such a gate iff its bound is not
      below 0: only "at least" is checked for that, so "more than -1 byte", which
      drops as much as "at least 0 bytes", becomes a bound rsync refuses. */
  lemma GateExistsExactly(op: SizeOp, value: int)
    ensures (exists f :: GateFor(f, op, value)) <==>
            match op
            case Gt => value >= 0
            case Ge => value > 0
            case Lt => true
            case Le => true
            case Eq => value <= 0
    ensures var f := FlagOf(Rule(false, SizeMatcher(op, value)));
            f.Some? && GateFor(f.value, op, value) <==>
            match op
            case Gt => value >= 0
            case Ge => value > 0
            case Lt => value >= 0
            case Le => value >= -1
            case Eq => false
  {
    if f :| GateFor(f, op, value) {
      assert Passes(f, f.bytes);
      if op == Eq && value > 0 {
        assert Passes(f, value - 1) && !Passes(f, value) && Passes(f, value + 1);
      }
    }
    var gate := match op
      case Gt => MaxSize(value)
      case Ge => MaxSize(value - 1)
      case Lt => MinSize(if value < 0 then 0 else value)
      case Le => MinSize(if value < -1 then 0 else value + 1)
      case Eq => MinSize(value + 1);
    if match op case Gt => value >= 0 case Ge => value > 0 case Lt => true case Le => true case Eq => value == 0 {
      assert GateFor(gate, op, value);
    } else if op == Eq && value < 0 {
      assert GateFor(MinSize(0), op, value);
    }
  }

  /** No gate that is given again is looser than one before it, or the last ones
      leave no size between them. */
  predicate LastIsTightest(flags: seq<Flag>) {
    || (LastMax(flags).Some? && LastMin(flags).Some? && LastMax(flags).value < LastMin(flags).value)
    || ((forall f :: f in flags && f.MaxSize? ==> LastMax(flags).value <= f.bytes)
        && (forall f :: f in flags && f.MinSize? ==> f.bytes <= LastMin(flags).value))
  }

  ghost predicate AllPass(flags: seq<Flag>, size: int) {
    forall f :: f in flags ==> Passes(f, size)
  }

  /** The last upper and the last lower gate say what all of them together say, for
      every size, iff no earlier one was tighter. */
  lemma LastGateDecides(flags: seq<Flag>)
    requires forall f :: f in flags && (f.MaxSize? || f.MinSize?) ==> f.bytes >= 0
    ensures LastIsTightest(flags) <==> forall size: nat :: GatesPass(flags, size) <==> AllPass(flags, size)
  {
    if LastIsTightest(flags) {
      forall size: nat ensures GatesPass(flags, size) <==> AllPass(flags, size) {
        TightestDecides(flags, size);
      }
    } else {
      LooserIsSeen(flags);
    }
  }

  lemma TightestDecides(flags: seq<Flag>, size: int)
    requires LastIsTightest(flags)
    ensures GatesPass(flags, size) <==> AllPass(flags, size)
  {
    if AllPass(flags, size) {
      assert LastMax(flags).Some? ==> Passes(MaxSize(LastMax(flags).value), size);
      assert LastMin(flags).Some? ==> Passes(MinSize(LastMin(flags).value), size);
    }
  }

  /** A size that the last gates let through and an earlier one does not. */
  lemma LooserIsSeen(flags: seq<Flag>)
    requires forall f :: f in flags && (f.MaxSize? || f.MinSize?) ==> f.bytes >= 0
    requires !LastIsTightest(flags)
    ensures exists size: nat :: GatesPass(flags, size) && !AllPass(flags, size)
  {
    var upper := if f :| f in flags && f.MaxSize? && LastMax(flags).value > f.bytes then true else false;
    var size: nat := if upper then LastMax(flags).value else LastMin(flags).value;
    assert GatesPass(flags, size);
    var f :| f in flags && if upper then f.MaxSize? && LastMax(flags).value > f.bytes else f.MinSize? && f.bytes > LastMin(flags).value;
    assert !Passes(f, size);
  }

  // ---- one file ----

  /** rsync's first-match reading of the flags is the glob rules'. */
  lemma {:induction false} AllowsIsGlobRules(rules: seq<Rule>, flags: seq<Flag>, path: string, isDir: bool)
    requires Translated(rules, flags)
    ensures Allows(flags, path, isDir) <==> MatchRules(GlobRules(rules), Item(path, 0, isDir))
  {
    if rules != [] {
      assert FlagOf(rules[0]) == Some(flags[0]);
      AllowsIsGlobRules(rules[1..], flags[1..], path, isDir);
      GlobRulesFirst(rules, Item(path, 0, isDir));
      AllowsFirst(rules[0], flags, path, isDir);
    }
  }

  lemma AllowsFirst(r: Rule, flags: seq<Flag>, path: string, isDir: bool)
    requires flags != [] && FlagOf(r) == Some(flags[0])
    ensures Allows(flags, path, isDir) <==>
            if r.matcher.GlobMatcher? && GlobMatches(r.matcher.pattern, path, isDir) then r.keep else Allows(flags[1..], path, isDir)
  {
  }

  /** And it is what the first glob rule that matches says. */
  lemma {:induction false} AllowsIsFirstGlob(rules: seq<Rule>, flags: seq<Flag>, path: string, isDir: bool)
    requires Translated(rules, flags)
    ensures var k := FirstGlob(rules, path, isDir); Allows(flags, path, isDir) <==> k == |rules| || rules[k].keep
  {
    if rules != [] {
      assert FlagOf(rules[0]) == Some(flags[0]);
      AllowsIsFirstGlob(rules[1..], flags[1..], path, isDir);
    }
  }

  lemma TranslatedOnlyDrops(rules: seq<Rule>, flags: seq<Flag>)
    requires Translated(rules, flags)
    ensures OnlyDrops(rules)
  {
    forall i | 0 <= i < |rules| ensures rules[i].matcher.GlobMatcher? || (rules[i].matcher.SizeMatcher? && !rules[i].keep) {
      assert FlagOf(rules[i]) == Some(flags[i]);
    }
  }

  lemma AllPassIsNoDrop(rules: seq<Rule>, flags: seq<Flag>, size: int)
    requires Translated(rules, flags)
    ensures AllPass(flags, size) <==> !DropsSize(rules, size)
  {
    forall i | 0 <= i < |rules|
      ensures Passes(flags[i], size) <==> !(rules[i].matcher.SizeMatcher? && SizeMatches(rules[i].matcher.op, rules[i].matcher.value, size))
    {
      assert FlagOf(rules[i]) == Some(flags[i]);
      if rules[i].matcher.SizeMatcher? {
        GateIsRule(rules[i], flags[i], Item("", size, false));
      }
    }
    if f :| f in flags && !Passes(f, size) {
      var i :| 0 <= i < |flags| && flags[i] == f;
      assert DropsSize(rules, size);
    }
    if i :| 0 <= i < |rules| && rules[i].matcher.SizeMatcher? && SizeMatches(rules[i].matcher.op, rules[i].matcher.value, size) {
      assert flags[i] in flags;
    }
  }

  /** The rule that decides the file in Go is an include, and all the size rules
      that would drop the file are below it. */
  predicate IncludedFirst(rules: seq<Rule>, path: string, size: int) {
    var k := FirstGlob(rules, path, false);
    k < |rules| && rules[k].keep && !DropsSize(rules[..k], size) && DropsSize(rules[k..], size)
  }

  /** rsync and Go differ about a file exactly when the first glob rule that matches
      it keeps it, or none does, and the size rules above that one and the last
      gates say different things of its size. */
  lemma DifferExactly(rules: seq<Rule>, flags: seq<Flag>, path: string, size: int)
    requires Translated(rules, flags)
    ensures var k := FirstGlob(rules, path, false);
            MatchRules(rules, Item(path, size, false)) != Sends(flags, path, size) <==>
            (k == |rules| || rules[k].keep) && (DropsSize(rules[..k], size) <==> GatesPass(flags, size))
  {
    AllowsIsFirstGlob(rules, flags, path, false);
    TranslatedOnlyDrops(rules, flags);
    MatchRulesByParts(rules, Item(path, size, false));
  }

  /** Where no gate is looser than one before it, that is exactly when an include
      above the size rules decided the file: Go keeps it, and rsync's gate drops it.
      There rsync never sends what Go drops. */
  lemma DifferWhenTightest(rules: seq<Rule>, flags: seq<Flag>, path: string, size: int)
    requires Translated(rules, flags) && LastIsTightest(flags)
    ensures MatchRules(rules, Item(path, size, false)) != Sends(flags, path, size) <==> IncludedFirst(rules, path, size)
    ensures Sends(flags, path, size) ==> MatchRules(rules, Item(path, size, false))
  {
    var k := FirstGlob(rules, path, false);
    AllowsIsFirstGlob(rules, flags, path, false);
    TranslatedOnlyDrops(rules, flags);
    MatchRulesByParts(rules, Item(path, size, false));
    TightestDecides(flags, size);
    AllPassIsNoDrop(rules, flags, size);
    DropsSizeSplit(rules[..k], rules[k..], size);
    assert rules[..k] + rules[k..] == rules;
  }

  /** Two upper bounds, the tighter one first, with no include at all: rsync goes by
      the last, and sends what is between them, which Go drops. */
  lemma LooserGateSends(low: nat, high: nat, path: string, size: nat)
    requires low < size <= high
    ensures var rules := [Rule(false, SizeMatcher(Gt, low)), Rule(false, SizeMatcher(Gt, high))];
            var flags := [MaxSize(low), MaxSize(high)];
            && SizeRulesFirst(rules) && Translated(EffectiveRules(FilterOption(rules, [], [])), flags)
            && !MatchRules(rules, Item(path, size, false)) && Sends(flags, path, size)
  {
    var rules := [Rule(false, SizeMatcher(Gt, low)), Rule(false, SizeMatcher(Gt, high))];
    var flags := [MaxSize(low), MaxSize(high)];
    assert EffectiveRules(FilterOption(rules, [], [])) == rules;
    assert flags[1..] == [MaxSize(high)] && [MaxSize(high)][1..] == [] && Allows(flags, path, false);
    assert LastMax(flags) == Some(high) && flags[..1] == [MaxSize(low)] && LastMin(flags[..1]) == LastMin([]);
  }

  // ---- the transfer ----

  /** The documented rule: a size rule is above every include. */
  predicate SizeRulesFirst(rules: seq<Rule>) {
    forall i, j :: 0 <= i < j < |rules| ==> !(rules[i].keep && rules[j].matcher.SizeMatcher?)
  }

  /** An include that is first to match a file has no size rule below it. */
  lemma NoSizeBelow(rules: seq<Rule>, path: string, size: int)
    requires forall i, j :: 0 <= i < j < |rules| && rules[j].matcher.SizeMatcher? && rules[i].keep ==>
               rules[i].matcher.GlobMatcher? && !GlobMatches(rules[i].matcher.pattern, path, false)
    ensures !IncludedFirst(rules, path, size)
  {
    var k := FirstGlob(rules, path, false);
    if IncludedFirst(rules, path, size) {
      var i :| 0 <= i < |rules[k..]| && rules[k..][i].matcher.SizeMatcher?;
      assert rules[k + i].matcher.SizeMatcher?;
      FirstGlobMatches(rules, path);
    }
  }

  /** The traversal rule keeps no file, so it may be above a size rule. */
  lemma NeverIncludedFirst(rules: seq<Rule>, path: string, size: int)
    requires SizeRulesFirst(rules)
    ensures !IncludedFirst(WithDirPassSpec(rules), path, size)
  {
    var out, c := WithDirPassSpec(rules), FirstCatchAll(rules);
    TraverseMatches(path, false);
    if out != rules {
      assert forall x :: 0 <= x < |out| ==> out[x] == if x < c then rules[x] else if x == c then Traverse() else rules[x - 1];
    }
    NoSizeBelow(out, path, size);
  }

  lemma {:induction false} FirstGlobMatches(rules: seq<Rule>, path: string)
    ensures var k := FirstGlob(rules, path, false); k < |rules| ==> GlobMatches(rules[k].matcher.pattern, path, false)
  {
    if rules != [] && FirstGlob(rules, path, false) > 0 {
      FirstGlobMatches(rules[1..], path);
    }
  }

  /** Go and rsync reach the same verdict on every file. */
  ghost predicate AgreeOnFiles(rules: seq<Rule>, flags: seq<Flag>) {
    forall path, size: nat :: MatchRules(rules, Item(path, size, false)) == Sends(flags, path, size)
  }

  lemma {:induction false} WalksAgree(rules: seq<Rule>, flags: seq<Flag>, above: seq<string>, t: Tree)
    requires Translated(rules, flags)
    requires AgreeOnFiles(rules, flags)
    ensures Sent(flags, above, t) == Walk(rules, above, t)
    decreases t, 0
  {
    if t.DirNode? {
      AllowsIsGlobRules(rules, flags, Join(above + [t.name], '/'), true);
      AllWalksAgree(rules, flags, above + [t.name], t.children);
    }
  }

  lemma {:induction false} AllWalksAgree(rules: seq<Rule>, flags: seq<Flag>, above: seq<string>, ts: seq<Tree>)
    requires Translated(rules, flags)
    requires AgreeOnFiles(rules, flags)
    ensures SentOf(flags, above, ts) == WalkOf(rules, above, ts)
    decreases ts, 1
  {
    if ts != [] {
      WalksAgree(rules, flags, above, ts[0]);
      AllWalksAgree(rules, flags, above, ts[1..]);
    }
  }

  lemma FileVerdictsAgree(user: seq<Rule>, flags: seq<Flag>, path: string, size: int)
    requires Translated(WithDirPassSpec(user), flags)
    requires SizeRulesFirst(user) && LastIsTightest(flags)
    ensures MatchRules(WithDirPassSpec(user), Item(path, size, false)) == Sends(flags, path, size)
  {
    NeverIncludedFirst(user, path, size);
    DifferWhenTightest(WithDirPassSpec(user), flags, path, size);
  }

  /** One pipeline, read twice: for every tree, rsync under the flags sends exactly
      the files that MatchPath keeps. */
  lemma RsyncSendsWhatIsKept(o: FilterOption, flags: seq<Flag>, ts: seq<Tree>)
    requires Translated(EffectiveRules(o), flags)
    requires SizeRulesFirst(o.rules) && LastIsTightest(flags)
    requires forall t :: t in ts ==> Named(t)
    ensures SentOf(flags, [], ts) == Kept(EffectiveRules(o), FilesOf([], ts))
  {
    var user := if o.rules != [] then o.rules else SimpleRules(o.includes, o.excludes);
    AllFilesAgree(user, flags);
    AllWalksAgree(WithDirPassSpec(user), flags, [], ts);
    WalkOfIsMatchPath(WithDirPassSpec(user), [], ts);
  }

  lemma AllFilesAgree(user: seq<Rule>, flags: seq<Flag>)
    requires Translated(WithDirPassSpec(user), flags)
    requires SizeRulesFirst(user) && LastIsTightest(flags)
    ensures AgreeOnFiles(WithDirPassSpec(user), flags)
  {
    forall path, size: nat ensures MatchRules(WithDirPassSpec(user), Item(path, size, false)) == Sends(flags, path, size) {
      FileVerdictsAgree(user, flags, path, size);
    }
  }

  /** An include above a size rule: Go keeps a file that rsync does not send. */
  lemma IncludeAboveSizeDiffers(value: nat)
    ensures var rules := [Rule(true, GlobMatcher("*")), Rule(false, SizeMatcher(Gt, value))];
            && Translated(EffectiveRules(FilterOption(rules, [], [])), [IncludeFlag("*"), MaxSize(value)])
            && MatchRules(rules, Item("a", value + 1, false)) && !Sends([IncludeFlag("*"), MaxSize(value)], "a", value + 1)
  {
    var rules := [Rule(true, GlobMatcher("*")), Rule(false, SizeMatcher(Gt, value))];
    var flags := [IncludeFlag("*"), MaxSize(value)];
    assert rules[1..][0] == rules[1] && FirstCatchAll(rules) == |rules| && EffectiveRules(FilterOption(rules, [], [])) == rules;
    assert LastMax(flags) == Some(value);
    StarMatches("a", false);
    assert NoNewline(Trim("a"));
  }
}
