/** Object keys as local paths: which place a key takes below the destination,
    and whether a set of keys can become a directory tree at all
    (data-mig/storagex/objectpath.go). A place is the list of its segments below
    the destination root; the root itself is the empty list. */
module Placement {
  import opened Options
  import opened Paths

  type Place = seq<string>

  /** keyUnderPrefix. */
  predicate KeyUnderPrefix(prefix: string, key: string) {
    if prefix == "" || HasSuffix(prefix, '/') then prefix <= key
    else key == prefix || prefix + "/" <= key
  }

  datatype ObjectPath = ObjectPath(place: Place, folder: bool)

  /** objectLocalPath's three answers: not the location's, refused, or a place. */
  datatype Placed = Skipped | Escapes | At(path: ObjectPath)

  /** The part of key that is placed below the destination. */
  function Relative(prefix: string, key: string): string {
    if key == prefix && !HasSuffix(prefix, '/') then Base(key) else TrimLeft(TrimPrefix(key, prefix))
  }

  /** objectLocalPath. */
  function ObjectLocalPath(prefix: string, key: string): (r: Placed)
    ensures r.At? ==> AreNames(r.path.place)
  {
    if !KeyUnderPrefix(prefix, key) then Skipped
    else
      var rel := Relative(prefix, key);
      if rel == "" then At(ObjectPath([], true))
      else
        RelativeIsRelative(prefix, key);
        var clean := CleanParts(rel);
        if !StaysBelow(clean) then Escapes
        else
          CleanBelow([], [], Split(rel, '/'), false);
          At(ObjectPath(clean, HasSuffix(rel, '/')))
  }

  lemma RelativeIsRelative(prefix: string, key: string)
    ensures !Rooted(Relative(prefix, key))
  {
    if key == prefix && !HasSuffix(prefix, '/') && key != "" {
      assert TrimRight(key) == key;
      var parts := Split(key, '/');
      assert '/' !in parts[|parts| - 1];
    }
  }

  // ---- the same, segment by segment ----

  /** Only a text itself has its segments and no more. */
  lemma SplitApart(a: string, b: string)
    ensures Split(a, '/') <= Split(b, '/') && |Split(a, '/')| == |Split(b, '/')| ==> a == b
  {
    var xs, ys := Split(a, '/'), Split(b, '/');
    if xs <= ys && |xs| == |ys| {
      assert xs == ys;
      JoinSplit(a, '/');
      JoinSplit(b, '/');
    }
  }

  /** key belongs to the location prefix names. */
  predicate Belongs(prefix: string, key: string) {
    if prefix == "" || HasSuffix(prefix, '/') then prefix <= key else Split(prefix, '/') <= Split(key, '/')
  }

  /** The segments of key after those of prefix; for the object prefix itself its
      last. */
  function Rest(prefix: string, key: string): (parts: seq<string>)
    requires Belongs(prefix, key)
    ensures parts != []
  {
    if HasSuffix(prefix, '/') then Split(key[|prefix|..], '/')
    else if key == prefix then [LastPart(key)]
    else if prefix == "" then Split(key, '/')
    else
      SplitApart(prefix, key);
      Split(key, '/')[|Split(prefix, '/')|..]
  }

  /** The place of a key is what those segments clean to, and it is a folder iff
      the last of them is empty. */
  function Segmentwise(prefix: string, key: string): Placed {
    if !Belongs(prefix, key) then Skipped
    else
      var rest := Rest(prefix, key);
      var clean := CleanOnto([], rest, false);
      if !StaysBelow(clean) then Escapes else At(ObjectPath(clean, rest[|rest| - 1] == "" && key != ""))
  }

  lemma UnderIsBelongs(prefix: string, key: string)
    ensures KeyUnderPrefix(prefix, key) <==> Belongs(prefix, key)
    ensures Belongs(prefix, key) && key != prefix && prefix != "" && !HasSuffix(prefix, '/') ==>
            prefix + "/" <= key && Rest(prefix, key) == Split(key[|prefix| + 1..], '/')
  {
    if prefix != "" && !HasSuffix(prefix, '/') {
      JoinSplit(prefix, '/');
      JoinSplit(key, '/');
      if prefix + "/" <= key {
        assert key == prefix + ['/'] + key[|prefix| + 1..];
        SplitAt(prefix, key[|prefix| + 1..], '/');
      }
      if Belongs(prefix, key) && key != prefix {
        SplitApart(prefix, key);
        var a, b := Split(prefix, '/'), Split(key, '/')[|Split(prefix, '/')|..];
        assert Split(key, '/') == a + b;
        JoinAppend(a, b);
      }
    }
  }

  lemma ObjectPlace(key: string)
    requires key != "" && !HasSuffix(key, '/')
    ensures Base(key) == LastPart(key) && Split(Base(key), '/') == [LastPart(key)] && LastPart(key) != ""
  {
    assert TrimRight(key) == key;
    LastIsEmpty(key);
    SplitOne(LastPart(key), '/');
  }

  /** The key that is the prefix itself. */
  lemma ObjectIsRest(key: string)
    requires !HasSuffix(key, '/')
    ensures CleanOnto([], Split(Base(key), '/'), false) == CleanOnto([], [LastPart(key)], false)
    ensures key != "" ==> (LastPart(key) == "" <==> Base(key) == "" || HasSuffix(Base(key), '/'))
  {
    if key == "" {
      SplitOne(".", '/');
      assert [""][1..] == [] && ["."][1..] == [];
    } else {
      ObjectPlace(key);
      LastIsEmpty(Base(key));
    }
  }

  /** What objectLocalPath cuts off and trims comes to those segments. */
  lemma RelativeIsRest(prefix: string, key: string)
    requires Belongs(prefix, key)
    ensures var rel, rest := Relative(prefix, key), Rest(prefix, key);
            && CleanOnto([], Split(rel, '/'), false) == CleanOnto([], rest, false)
            && (key != "" ==> (rest[|rest| - 1] == "" <==> rel == "" || HasSuffix(rel, '/')))
  {
    UnderIsBelongs(prefix, key);
    var rel, rest := Relative(prefix, key), Rest(prefix, key);
    if key == prefix && !HasSuffix(prefix, '/') {
      ObjectIsRest(key);
    } else {
      var tail := TrimPrefix(key, prefix);
      TrimLeftCleans(tail);
      LastIsEmpty(rel);
      if prefix != "" && !HasSuffix(prefix, '/') {
        assert tail[0] == '/' && tail[1..] == key[|prefix| + 1..];
        assert Split(tail, '/')[1..] == rest;
      } else {
        assert prefix == "" ==> tail == key;
      }
    }
  }

  lemma PlacedBySegments(prefix: string, key: string)
    ensures ObjectLocalPath(prefix, key) == Segmentwise(prefix, key)
  {
    UnderIsBelongs(prefix, key);
    if Belongs(prefix, key) {
      RelativeIsRest(prefix, key);
      RelativeIsRelative(prefix, key);
    }
  }

  /** So a key is skipped exactly where the location's segments are not the key's
      first ones: "dirx/y" is not below "dir". A prefix that ends with a slash, or
      is empty, is compared as text. */
  lemma SkippedExactly(prefix: string, key: string)
    ensures prefix != "" && !HasSuffix(prefix, '/') ==>
              (!ObjectLocalPath(prefix, key).Skipped? <==> Split(prefix, '/') <= Split(key, '/'))
    ensures prefix == "" || HasSuffix(prefix, '/') ==> (!ObjectLocalPath(prefix, key).Skipped? <==> prefix <= key)
  {
    PlacedBySegments(prefix, key);
  }

  /** The text of the source's refusal: the cleaned path is "..", or starts with
      "../". */
  lemma EscapesAsText(parts: seq<string>)
    requires forall i :: 0 <= i < |parts| ==> '/' !in parts[i]
    ensures Render(false, parts) == ".." || "../" <= Render(false, parts) <==> !StaysBelow(parts)
  {
    if parts != [] {
      var text := Join(parts, '/');
      SplitJoin(parts, '/');
      if "../" <= text {
        assert text == ".." + "/" + text[3..];
        SplitAt("..", text[3..], '/');
        SplitOne("..", '/');
      }
      if text == ".." {
        SplitOne("..", '/');
      }
      if parts[0] == ".." && |parts| > 1 {
        assert text == ".." + ['/'] + Join(parts[1..], '/');
        assert text[..3] == "../";
      }
    }
  }

  // ---- the check over all keys ----

  /** What a key needs of the destination, or nothing where it was skipped. */
  type Jobs = seq<Option<ObjectPath>>

  datatype Problem =
    | LeadsOutside(key: string)
    | SameFile(key: string, other: string)
    | FileThere(key: string, other: string)
    | FileAbove(key: string, other: string)

  datatype Verdict = Accepted(jobs: Jobs) | Refused(problems: seq<Problem>)

  predicate IsFile(jobs: Jobs, i: nat) {
    i < |jobs| && jobs[i].Some? && !jobs[i].value.folder
  }

  predicate IsKept(jobs: Jobs, i: nat) {
    i < |jobs| && jobs[i].Some?
  }

  function PlaceOf(jobs: Jobs, i: nat): Place
    requires IsKept(jobs, i)
  {
    jobs[i].value.place
  }

  function JobOf(prefix: string, key: string): Option<ObjectPath> {
    match ObjectLocalPath(prefix, key)
    case At(p) => Some(p)
    case _ => None
  }

  function JobsOf(prefix: string, keys: seq<string>): (jobs: Jobs)
    ensures |jobs| == |keys|
    ensures forall i {:trigger JobOf(prefix, keys[i])} :: 0 <= i < |keys| ==> jobs[i] == JobOf(prefix, keys[i])
  {
    if keys == [] then []
    else
      var n := |keys| - 1;
      assert forall i :: 0 <= i < n ==> keys[..n][i] == keys[i];
      assert forall i {:trigger JobOf(prefix, keys[i])} :: 0 <= i < n ==> JobOf(prefix, keys[i]) == JobOf(prefix, keys[..n][i]);
      JobsOf(prefix, keys[..n]) + [JobOf(prefix, keys[n])]
  }

  /** None of the first k keys leads outside the destination. */
  ghost predicate NoneEscapes(prefix: string, keys: seq<string>, k: nat) {
    forall i :: 0 <= i < k <= |keys| ==> !ObjectLocalPath(prefix, keys[i]).Escapes?
  }

  /** No two files among the first k jobs share a place. */
  ghost predicate FilesApart(jobs: Jobs, k: nat) {
    forall i, j :: 0 <= i < j < k && IsFile(jobs, i) && IsFile(jobs, j) ==> PlaceOf(jobs, i) != PlaceOf(jobs, j)
  }

  /** job j needs place p to be a directory other than the root. */
  predicate NeedsDir(jobs: Jobs, j: nat, p: Place)
    requires IsKept(jobs, j)
  {
    p != [] && (p < PlaceOf(jobs, j) || (p == PlaceOf(jobs, j) && jobs[j].value.folder))
  }

  /** No file is where a directory is needed. */
  ghost predicate DirsClear(jobs: Jobs) {
    forall i, j :: IsFile(jobs, i) && IsKept(jobs, j) ==> !NeedsDir(jobs, j, PlaceOf(jobs, i))
  }

  // ---- what is wrong with a set of keys ----

  /** The file of key i and what key j needs are one place. */
  predicate Clash(keys: seq<string>, jobs: Jobs, q: Problem, i: nat, j: nat)
    requires |keys| == |jobs| && !q.LeadsOutside?
  {
    && IsFile(jobs, i) && IsKept(jobs, j) && keys[i] == q.other && keys[j] == q.key
    && match q
       case SameFile(_, _) => i < j && IsFile(jobs, j) && PlaceOf(jobs, i) == PlaceOf(jobs, j)
       case FileThere(_, _) => jobs[j].value.folder && PlaceOf(jobs, i) == PlaceOf(jobs, j) != []
       case FileAbove(_, _) => [] != PlaceOf(jobs, i) < PlaceOf(jobs, j)
  }

  /** The problem is one these keys have. */
  ghost predicate Real(prefix: string, keys: seq<string>, q: Problem) {
    if q.LeadsOutside? then q.key in keys && ObjectLocalPath(prefix, q.key).Escapes?
    else exists i, j :: Clash(keys, JobsOf(prefix, keys), q, i, j)
  }

  ghost predicate AllReal(prefix: string, keys: seq<string>, problems: seq<Problem>) {
    forall q :: q in problems ==> Real(prefix, keys, q)
  }

  predicate SharesPlace(jobs: Jobs, i: nat, j: nat) {
    i < j && IsFile(jobs, i) && IsFile(jobs, j) && PlaceOf(jobs, i) == PlaceOf(jobs, j)
  }

  /** Key j cannot be placed beside those before it. */
  ghost predicate CannotBePlaced(prefix: string, keys: seq<string>, j: nat)
    requires j < |keys|
  {
    ObjectLocalPath(prefix, keys[j]).Escapes? || exists i :: SharesPlace(JobsOf(prefix, keys), i, j)
  }

  ghost predicate Blocked(jobs: Jobs, j: nat) {
    IsKept(jobs, j) && !ClearFor(jobs, j)
  }

  ghost predicate Named(problems: seq<Problem>, key: string) {
    exists q :: q in problems && q.key == key
  }

  ghost predicate PlacingTold(prefix: string, keys: seq<string>, problems: seq<Problem>, k: nat) {
    forall j :: 0 <= j < k <= |keys| && CannotBePlaced(prefix, keys, j) ==> Named(problems, keys[j])
  }

  ghost predicate BlockingTold(keys: seq<string>, jobs: Jobs, problems: seq<Problem>, k: nat) {
    forall j :: 0 <= j < k <= |keys| && Blocked(jobs, j) ==> Named(problems, keys[j])
  }

  // ---- the owners of the places ----

  ghost predicate Owns(keys: seq<string>, jobs: Jobs, key: string, p: Place, i: nat) {
    i < |keys| && IsFile(jobs, i) && PlaceOf(jobs, i) == p && keys[i] == key
  }

  /** The files among the first k keys, by place. */
  ghost predicate OwnersOf(owner: map<Place, string>, keys: seq<string>, jobs: Jobs, k: nat) {
    && k <= |jobs| == |keys|
    && (forall p :: p in owner ==> exists i :: 0 <= i < k && Owns(keys, jobs, owner[p], p, i))
    && (forall i :: 0 <= i < k && IsFile(jobs, i) ==> PlaceOf(jobs, i) in owner)
  }

  /** The nearest directory above place that a file sits on. */
  method FileOnTheWay(place: Place, owner: map<Place, string>) returns (hit: Option<string>)
    ensures hit.Some? <==> exists k :: 0 < k < |place| && place[..k] in owner
    ensures Nearest(place, owner, hit)
  {
    hit := None;
    if place == [] {
      return;
    }
    var dir := place[..|place| - 1];
    while dir != []
      invariant |dir| < |place| && dir == place[..|dir|]
      invariant forall k :: |dir| < k < |place| ==> place[..k] !in owner
    {
      if dir in owner {
        hit := Some(owner[dir]);
        return;
      }
      assert dir[..|dir| - 1] == place[..|dir| - 1];
      dir := dir[..|dir| - 1];
    }
  }

  // ---- the first loop ----

  /** The first loop of objectLocalPaths: places every key, in order. */
  method PlaceKeys(prefix: string, keys: seq<string>) returns (jobs: Jobs, owner: map<Place, string>, problems: seq<Problem>)
    ensures jobs == JobsOf(prefix, keys)
    ensures OwnersOf(owner, keys, jobs, |keys|)
    ensures AllReal(prefix, keys, problems) && PlacingTold(prefix, keys, problems, |keys|)
  {
    ghost var all := JobsOf(prefix, keys);
    jobs, owner, problems := [], map[], [];
    var i := 0;
    while i < |keys|
      invariant 0 <= i <= |keys| && jobs == all[..i]
      invariant OwnersOf(owner, keys, all, i)
      invariant AllReal(prefix, keys, problems) && PlacingTold(prefix, keys, problems, i)
    {
      var key := keys[i];
      var placed := ObjectLocalPath(prefix, key);
      JobAt(prefix, keys, i);
      TellOfPlacing(prefix, keys, owner, problems, i, placed);
      OwnersGrow(owner, keys, all, i);
      var job;
      job, owner, problems := PlaceOne(key, placed, owner, problems);
      jobs := jobs + [job];
      i := i + 1;
      assert all[..i] == all[..i - 1] + [all[i - 1]];
    }
    assert all[..i] == all;
  }

  /** What one key adds to the problems. */
  function PlacingProblems(key: string, placed: Placed, owner: map<Place, string>): seq<Problem> {
    match placed
    case Skipped => []
    case Escapes => [LeadsOutside(key)]
    case At(p) => if !p.folder && p.place in owner then [SameFile(key, owner[p.place])] else []
  }

  /** One round of that loop. */
  method PlaceOne(key: string, placed: Placed, owner: map<Place, string>, problems: seq<Problem>)
    returns (job: Option<ObjectPath>, owner': map<Place, string>, problems': seq<Problem>)
    ensures job == if placed.At? then Some(placed.path) else None
    ensures owner' == if placed.At? && !placed.path.folder && placed.path.place !in owner then owner[placed.path.place := key] else owner
    ensures problems' == problems + PlacingProblems(key, placed, owner)
  {
    job, owner', problems' := None, owner, problems;
    match placed {
      case Escapes =>
        problems' := problems + [LeadsOutside(key)];
      case Skipped =>
      case At(p) =>
        job := Some(p);
        if !p.folder {
          if p.place in owner {
            problems' := problems + [SameFile(key, owner[p.place])];
          } else {
            owner' := owner[p.place := key];
          }
        }
    }
  }

  lemma JobAt(prefix: string, keys: seq<string>, i: nat)
    requires i < |keys|
    ensures JobsOf(prefix, keys)[i] == JobOf(prefix, keys[i])
  {
  }

  lemma TellOfPlacing(prefix: string, keys: seq<string>, owner: map<Place, string>, problems: seq<Problem>, i: nat, placed: Placed)
    requires i < |keys| && OwnersOf(owner, keys, JobsOf(prefix, keys), i) && placed == ObjectLocalPath(prefix, keys[i])
    requires AllReal(prefix, keys, problems) && PlacingTold(prefix, keys, problems, i)
    ensures var more := problems + PlacingProblems(keys[i], placed, owner);
            AllReal(prefix, keys, more) && PlacingTold(prefix, keys, more, i + 1)
  {
    var jobs, added := JobsOf(prefix, keys), PlacingProblems(keys[i], placed, owner);
    JobAt(prefix, keys, i);
    if placed.At? && added != [] {
      var p := placed.path.place;
      var first :| 0 <= first < i && Owns(keys, jobs, owner[p], p, first);
      assert Clash(keys, jobs, added[0], first, i);
    }
    assert CannotBePlaced(prefix, keys, i) ==> added != [];
    forall j | 0 <= j < i + 1 && CannotBePlaced(prefix, keys, j) ensures Named(problems + added, keys[j]) {
      if j == i {
        assert added[0] in problems + added;
      } else {
        var q :| q in problems && q.key == keys[j];
        assert q in problems + added;
      }
    }
  }

  lemma OwnersGrow(owner: map<Place, string>, keys: seq<string>, jobs: Jobs, i: nat)
    requires i < |jobs| && OwnersOf(owner, keys, jobs, i)
    ensures OwnersOf(if IsFile(jobs, i) && PlaceOf(jobs, i) !in owner then owner[PlaceOf(jobs, i) := keys[i]] else owner, keys, jobs, i + 1)
  {
    var after := if IsFile(jobs, i) && PlaceOf(jobs, i) !in owner then owner[PlaceOf(jobs, i) := keys[i]] else owner;
    forall p | p in after ensures exists j :: 0 <= j < i + 1 && Owns(keys, jobs, after[p], p, j) {
      if p in owner {
        var j :| 0 <= j < i && Owns(keys, jobs, owner[p], p, j);
      } else {
        assert Owns(keys, jobs, after[p], p, i);
      }
    }
  }

  // ---- the second loop ----

  /** hit is the file nearest above place. */
  ghost predicate Nearest(place: Place, owner: map<Place, string>, hit: Option<string>) {
    match hit
    case None => forall k :: 0 < k < |place| ==> place[..k] !in owner
    case Some(key) => exists k :: 0 < k < |place| && place[..k] in owner && key == owner[place[..k]]
                                  && forall m :: k < m < |place| ==> place[..m] !in owner
  }

  /** What one job adds to the problems. */
  function BlockingProblems(key: string, p: ObjectPath, owner: map<Place, string>, hit: Option<string>): seq<Problem> {
    (if p.folder && p.place in owner && p.place != [] then [FileThere(key, owner[p.place])] else [])
    + if hit.Some? then [FileAbove(key, hit.value)] else []
  }

  /** The second loop of objectLocalPaths: looks for files where directories are
      needed. */
  method CheckDirs(prefix: string, keys: seq<string>, jobs: Jobs, owner: map<Place, string>) returns (problems: seq<Problem>)
    requires jobs == JobsOf(prefix, keys) && OwnersOf(owner, keys, jobs, |jobs|)
    ensures AllReal(prefix, keys, problems) && BlockingTold(keys, jobs, problems, |keys|)
  {
    problems := [];
    var i := 0;
    while i < |keys|
      invariant 0 <= i <= |keys|
      invariant AllReal(prefix, keys, problems) && BlockingTold(keys, jobs, problems, i)
    {
      if jobs[i].Some? {
        var hit, more := CheckOne(keys[i], jobs[i].value, owner);
        TellOfBlocking(prefix, keys, jobs, owner, problems, i, hit);
        problems := problems + more;
      }
      i := i + 1;
    }
  }

  /** One round of that loop. */
  method CheckOne(key: string, p: ObjectPath, owner: map<Place, string>) returns (hit: Option<string>, problems: seq<Problem>)
    ensures Nearest(p.place, owner, hit) && problems == BlockingProblems(key, p, owner, hit)
  {
    problems := [];
    if p.folder && p.place in owner && p.place != [] {
      problems := problems + [FileThere(key, owner[p.place])];
    }
    hit := FileOnTheWay(p.place, owner);
    if hit.Some? {
      problems := problems + [FileAbove(key, hit.value)];
    }
  }

  /** No file is where job j needs a directory. */
  ghost predicate ClearFor(jobs: Jobs, j: nat)
    requires IsKept(jobs, j)
  {
    forall i :: IsFile(jobs, i) ==> !NeedsDir(jobs, j, PlaceOf(jobs, i))
  }

  /** What the second loop asks of the owners is whether the job's directories are
      clear. */
  lemma OwnersKnow(keys: seq<string>, jobs: Jobs, owner: map<Place, string>, j: nat, hit: Option<string>)
    requires IsKept(jobs, j) && OwnersOf(owner, keys, jobs, |jobs|) && Nearest(PlaceOf(jobs, j), owner, hit)
    ensures !ClearFor(jobs, j) ==> BlockingProblems(keys[j], jobs[j].value, owner, hit) != []
  {
    if !ClearFor(jobs, j) {
      var i :| IsFile(jobs, i) && NeedsDir(jobs, j, PlaceOf(jobs, i));
      var place, p := PlaceOf(jobs, j), PlaceOf(jobs, i);
      assert p in owner;
      if p < place {
        assert place[..|p|] == p;
      }
    }
  }

  lemma BlockingIsReal(prefix: string, keys: seq<string>, jobs: Jobs, owner: map<Place, string>, j: nat, hit: Option<string>)
    requires jobs == JobsOf(prefix, keys) && IsKept(jobs, j) && OwnersOf(owner, keys, jobs, |jobs|)
    requires Nearest(PlaceOf(jobs, j), owner, hit)
    ensures AllReal(prefix, keys, BlockingProblems(keys[j], jobs[j].value, owner, hit))
  {
    var place := PlaceOf(jobs, j);
    if jobs[j].value.folder && place in owner && place != [] {
      var i :| 0 <= i < |jobs| && Owns(keys, jobs, owner[place], place, i);
      assert Clash(keys, jobs, FileThere(keys[j], owner[place]), i, j);
    }
    if hit.Some? {
      var k :| 0 < k < |place| && place[..k] in owner && hit.value == owner[place[..k]];
      var i :| 0 <= i < |jobs| && Owns(keys, jobs, owner[place[..k]], place[..k], i);
      assert Clash(keys, jobs, FileAbove(keys[j], hit.value), i, j);
    }
  }

  lemma TellOfBlocking(prefix: string, keys: seq<string>, jobs: Jobs, owner: map<Place, string>, problems: seq<Problem>, j: nat, hit: Option<string>)
    requires jobs == JobsOf(prefix, keys) && IsKept(jobs, j) && OwnersOf(owner, keys, jobs, |jobs|)
    requires Nearest(PlaceOf(jobs, j), owner, hit)
    requires AllReal(prefix, keys, problems) && BlockingTold(keys, jobs, problems, j)
    ensures var more := problems + BlockingProblems(keys[j], jobs[j].value, owner, hit);
            AllReal(prefix, keys, more) && BlockingTold(keys, jobs, more, j + 1)
  {
    var added := BlockingProblems(keys[j], jobs[j].value, owner, hit);
    OwnersKnow(keys, jobs, owner, j, hit);
    BlockingIsReal(prefix, keys, jobs, owner, j, hit);
    forall i | 0 <= i < j + 1 && Blocked(jobs, i) ensures Named(problems + added, keys[i]) {
      if i == j {
        assert added[0] in problems + added;
      } else {
        var q :| q in problems && q.key == keys[i];
        assert q in problems + added;
      }
    }
  }

  // ---- the verdict ----

  /** No key leads outside, no two files share a place, and no file is where
      another key needs a directory below the root. */
  ghost predicate Placeable(prefix: string, keys: seq<string>) {
    NoneEscapes(prefix, keys, |keys|) && FilesApart(JobsOf(prefix, keys), |keys|) && DirsClear(JobsOf(prefix, keys))
  }

  lemma RealIsWrong(prefix: string, keys: seq<string>, q: Problem)
    requires Real(prefix, keys, q)
    ensures !Placeable(prefix, keys)
  {
    var jobs := JobsOf(prefix, keys);
    if q.LeadsOutside? {
      var j :| 0 <= j < |keys| && keys[j] == q.key;
      assert ObjectLocalPath(prefix, keys[j]).Escapes?;
    } else {
      var i, j :| Clash(keys, jobs, q, i, j);
      assert !q.SameFile? ==> NeedsDir(jobs, j, PlaceOf(jobs, i));
    }
  }

  lemma WrongIsTold(prefix: string, keys: seq<string>, placing: seq<Problem>, blocking: seq<Problem>)
    requires PlacingTold(prefix, keys, placing, |keys|) && BlockingTold(keys, JobsOf(prefix, keys), blocking, |keys|)
    requires placing == blocking == []
    ensures Placeable(prefix, keys)
  {
    var jobs := JobsOf(prefix, keys);
    forall i | 0 <= i < |keys| ensures !ObjectLocalPath(prefix, keys[i]).Escapes? {
      assert !CannotBePlaced(prefix, keys, i);
    }
    forall i, j | 0 <= i < j < |keys| && IsFile(jobs, i) && IsFile(jobs, j) ensures PlaceOf(jobs, i) != PlaceOf(jobs, j) {
      assert !CannotBePlaced(prefix, keys, j);
      assert !SharesPlace(jobs, i, j);
    }
    forall i, j | IsFile(jobs, i) && IsKept(jobs, j) ensures !NeedsDir(jobs, j, PlaceOf(jobs, i)) {
      assert !Blocked(jobs, j);
    }
  }

  /** objectLocalPaths: it accepts exactly the keys none of which leads outside,
      no two of which are one file, and no file of which is where another needs
      a directory below the root. Every problem it reports is one, and no key
      that has one goes unnamed. */
  method ObjectLocalPaths(prefix: string, keys: seq<string>) returns (r: Verdict)
    ensures r.Accepted? <==> Placeable(prefix, keys)
    ensures r.Accepted? ==> r.jobs == JobsOf(prefix, keys)
    ensures r.Accepted? ==> forall i :: 0 <= i < |keys| ==>
              !Segmentwise(prefix, keys[i]).Escapes?
              && r.jobs[i] == (if Segmentwise(prefix, keys[i]).At? then Some(Segmentwise(prefix, keys[i]).path) else None)
    ensures r.Refused? ==> r.problems != [] && AllReal(prefix, keys, r.problems)
    ensures r.Refused? ==> forall j :: 0 <= j < |keys| && (CannotBePlaced(prefix, keys, j) || Blocked(JobsOf(prefix, keys), j)) ==>
              Named(r.problems, keys[j])
  {
    var jobs, owner, problems := PlaceKeys(prefix, keys);
    var more := CheckDirs(prefix, keys, jobs, owner);
    r := if problems + more == [] then Accepted(jobs) else Refused(problems + more);
    if r.Accepted? {
      WrongIsTold(prefix, keys, problems, more);
      AcceptedBySegments(prefix, keys);
    } else {
      RealIsWrong(prefix, keys, (problems + more)[0]);
      ToldTogether(prefix, keys, problems, more);
    }
  }

  lemma AcceptedBySegments(prefix: string, keys: seq<string>)
    requires NoneEscapes(prefix, keys, |keys|)
    ensures forall i :: 0 <= i < |keys| ==>
              var placed := Segmentwise(prefix, keys[i]);
              !placed.Escapes? && JobsOf(prefix, keys)[i] == (if placed.At? then Some(placed.path) else None)
  {
    forall i | 0 <= i < |keys|
      ensures var placed := Segmentwise(prefix, keys[i]);
              !placed.Escapes? && JobsOf(prefix, keys)[i] == (if placed.At? then Some(placed.path) else None)
    {
      JobAt(prefix, keys, i);
      PlacedBySegments(prefix, keys[i]);
    }
  }

  lemma ToldTogether(prefix: string, keys: seq<string>, placing: seq<Problem>, blocking: seq<Problem>)
    requires PlacingTold(prefix, keys, placing, |keys|) && BlockingTold(keys, JobsOf(prefix, keys), blocking, |keys|)
    ensures forall j :: 0 <= j < |keys| && (CannotBePlaced(prefix, keys, j) || Blocked(JobsOf(prefix, keys), j)) ==>
              Named(placing + blocking, keys[j])
  {
    forall j | 0 <= j < |keys| && (CannotBePlaced(prefix, keys, j) || Blocked(JobsOf(prefix, keys), j))
      ensures Named(placing + blocking, keys[j])
    {
      if CannotBePlaced(prefix, keys, j) {
        var q :| q in placing && q.key == keys[j];
        assert q in placing + blocking;
      } else {
        var q :| q in blocking && q.key == keys[j];
        assert q in placing + blocking;
      }
    }
  }
}
