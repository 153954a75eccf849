/** The download workers against a file system: what accepting a set of keys
    promises, and that nothing more could be accepted
    (data-mig/storagex/executor-s3.go, lines 158-229). */
module Download {
  import opened Options
  import opened Paths
  import opened Placement

  /** What is at a place. A file is known by the key it was downloaded from. */
  datatype Node = Folder | File(job: nat)

  type Tree = map<Place, Node>

  predicate IsDir(t: Tree, p: Place) {
    p in t && t[p].Folder?
  }

  /** Everything below the root lies in a directory. */
  ghost predicate WellFormed(t: Tree) {
    IsDir(t, []) && forall p :: p in t && p != [] ==> IsDir(t, p[..|p| - 1])
  }

  /** Every key has what it stands for: a folder marker a directory, an object a
      file of its own. */
  ghost predicate Holds(t: Tree, jobs: Jobs) {
    forall i: nat :: IsKept(jobs, i) ==> PlaceOf(jobs, i) in t && t[PlaceOf(jobs, i)] == if jobs[i].value.folder then Folder else File(i)
  }

  /** Some directory tree holds all the keys. */
  ghost predicate Realizable(jobs: Jobs) {
    exists t: Tree :: WellFormed(t) && Holds(t, jobs)
  }

  /** No object is to be a file in place of the destination itself. */
  ghost predicate NoFileAtRoot(jobs: Jobs) {
    forall i :: IsFile(jobs, i) ==> PlaceOf(jobs, i) != []
  }

  // ---- which sets of keys are a tree ----

  /** Some key needs p to be a directory. */
  ghost predicate NeededDir(jobs: Jobs, p: Place) {
    p == [] || exists j :: IsKept(jobs, j) && NeedsDir(jobs, j, p)
  }

  lemma {:induction false} DirAbove(t: Tree, p: Place, q: Place)
    requires WellFormed(t) && p in t && q < p
    ensures IsDir(t, q)
    decreases |p|
  {
    var up := p[..|p| - 1];
    assert IsDir(t, up);
    if q != up {
      assert q < up;
      DirAbove(t, up, q);
    }
  }

  /** The places the keys take up. */
  ghost function PlacesUsed(jobs: Jobs): set<Place> {
    {[]} + set i, k | 0 <= i < |jobs| && jobs[i].Some? && 0 <= k <= |jobs[i].value.place| :: jobs[i].value.place[..k]
  }

  ghost function NodeAt(jobs: Jobs, p: Place): Node {
    if exists i: nat :: IsFile(jobs, i) && PlaceOf(jobs, i) == p then
      var i: nat :| IsFile(jobs, i) && PlaceOf(jobs, i) == p;
      File(i)
    else Folder
  }

  /** The tree the keys stand for. */
  ghost function TreeOf(jobs: Jobs): Tree {
    map p | p in PlacesUsed(jobs) :: NodeAt(jobs, p)
  }

  /** The keys can become a directory tree iff objectLocalPaths finds no two on
      one file and no file where a directory is needed, and none is to replace
      the destination itself. */
  lemma PlaceableIffRealizable(jobs: Jobs)
    ensures Realizable(jobs) <==> FilesApart(jobs, |jobs|) && DirsClear(jobs) && NoFileAtRoot(jobs)
  {
    if Realizable(jobs) {
      var t: Tree :| WellFormed(t) && Holds(t, jobs);
      forall i, j | IsFile(jobs, i) && IsKept(jobs, j) ensures !NeedsDir(jobs, j, PlaceOf(jobs, i)) {
        if NeedsDir(jobs, j, PlaceOf(jobs, i)) && PlaceOf(jobs, i) < PlaceOf(jobs, j) {
          DirAbove(t, PlaceOf(jobs, j), PlaceOf(jobs, i));
        }
      }
    }
    if FilesApart(jobs, |jobs|) && DirsClear(jobs) && NoFileAtRoot(jobs) {
      TreeOfHolds(jobs);
    }
  }

  /** objectLocalPaths refuses a set of keys only if it must, and accepts one it
      should not only where a key is to replace the destination itself. */
  lemma AcceptanceIsExact(prefix: string, keys: seq<string>)
    ensures var jobs := JobsOf(prefix, keys);
            && (NoneEscapes(prefix, keys, |keys|) && Realizable(jobs) <==> Placeable(prefix, keys) && NoFileAtRoot(jobs))
  {
    PlaceableIffRealizable(JobsOf(prefix, keys));
  }

  lemma TreeOfHolds(jobs: Jobs)
    requires FilesApart(jobs, |jobs|) && DirsClear(jobs) && NoFileAtRoot(jobs)
    ensures WellFormed(TreeOf(jobs)) && Holds(TreeOf(jobs), jobs)
  {
    var t := TreeOf(jobs);
    forall p | p in t && p != [] ensures IsDir(t, p[..|p| - 1]) {
      var i, k :| 0 <= i < |jobs| && jobs[i].Some? && 0 <= k <= |jobs[i].value.place| && jobs[i].value.place[..k] == p;
      var place := jobs[i].value.place;
      var up := p[..|p| - 1];
      assert up == place[..k - 1];
      assert up < place;
      forall x: nat | IsFile(jobs, x) ensures PlaceOf(jobs, x) != up {
        assert IsKept(jobs, i) && (up != [] ==> NeedsDir(jobs, i, up));
      }
      assert up in t && t[up] == NodeAt(jobs, up);
    }
    forall i: nat | IsKept(jobs, i)
      ensures PlaceOf(jobs, i) in t && t[PlaceOf(jobs, i)] == if jobs[i].value.folder then Folder else File(i)
    {
      var p := PlaceOf(jobs, i);
      assert p == p[..|p|];
      if x: nat :| IsFile(jobs, x) && PlaceOf(jobs, x) == p {
        if jobs[i].value.folder {
          assert NeedsDir(jobs, i, PlaceOf(jobs, x));
        } else {
          assert x == i;
        }
      }
    }
  }

  // ---- the workers ----

  /** How many directories the job's MkdirAll goes through, below the root. */
  function Dirs(job: ObjectPath): nat {
    if job.folder || job.place == [] then |job.place| else |job.place| - 1
  }

  /** Its steps: one for each directory, one more to create a file. */
  function Steps(job: ObjectPath): nat {
    Dirs(job) + if job.folder then 0 else 1
  }

  /** One directory of MkdirAll: it may be there already, but not as a file. */
  function Mkdir(t: Tree, p: Place): Option<Tree>
    requires p != []
  {
    if p in t then (if t[p].Folder? then Some(t) else None)
    else if IsDir(t, p[..|p| - 1]) then Some(t[p := Folder])
    else None
  }

  /** os.Create: a file, truncated if it is there, in a directory that is. */
  function Create(t: Tree, p: Place, i: nat): Option<Tree> {
    if IsDir(t, p) || p == [] || !IsDir(t, p[..|p| - 1]) then None else Some(t[p := File(i)])
  }

  /** done counts the steps each job has taken; broken says a step failed. */
  datatype Disk = Disk(tree: Tree, done: seq<nat>, broken: bool)

  /** The destination cleared and made anew. */
  function Cleared(jobs: Jobs): Disk {
    Disk(map[[] := Folder], seq(|jobs|, _ => 0), false)
  }

  predicate CanStep(jobs: Jobs, d: Disk, i: nat) {
    IsKept(jobs, i) && |d.done| == |jobs| && !d.broken && d.done[i] < Steps(jobs[i].value)
  }

  function Attempt(jobs: Jobs, d: Disk, i: nat): Option<Tree>
    requires CanStep(jobs, d, i)
  {
    var place := PlaceOf(jobs, i);
    if d.done[i] < Dirs(jobs[i].value) then Mkdir(d.tree, place[..d.done[i] + 1]) else Create(d.tree, place, i)
  }

  /** Job i's next step. */
  function Step(jobs: Jobs, d: Disk, i: nat): (e: Disk)
    requires CanStep(jobs, d, i)
    ensures |e.done| == |jobs|
  {
    match Attempt(jobs, d, i)
    case None => d.(broken := true)
    case Some(t) => d.(tree := t, done := d.done[i := d.done[i] + 1])
  }

  /** schedule says which job moves when. */
  predicate Legal(jobs: Jobs, d: Disk, schedule: seq<nat>)
    decreases |schedule|
  {
    schedule == [] || (CanStep(jobs, d, schedule[0]) && Legal(jobs, Step(jobs, d, schedule[0]), schedule[1..]))
  }

  function After(jobs: Jobs, d: Disk, schedule: seq<nat>): Disk
    requires Legal(jobs, d, schedule)
    decreases |schedule|
  {
    if schedule == [] then d else After(jobs, Step(jobs, d, schedule[0]), schedule[1..])
  }

  ghost predicate Finished(jobs: Jobs, d: Disk) {
    |d.done| == |jobs| && !d.broken && forall i: nat :: IsKept(jobs, i) ==> d.done[i] == Steps(jobs[i].value)
  }

  // ---- what every schedule keeps ----

  /** Nothing is on disk that no key asked for. */
  ghost predicate OnlyWanted(jobs: Jobs, t: Tree) {
    forall p :: p in t ==>
      match t[p]
      case Folder => NeededDir(jobs, p)
      case File(x) => IsFile(jobs, x) && PlaceOf(jobs, x) == p
  }

  /** What job i has done so far is there. */
  ghost predicate Done(job: ObjectPath, i: nat, n: nat, t: Tree) {
    && n <= Steps(job)
    && (forall k :: 0 <= k <= n && k <= Dirs(job) ==> IsDir(t, job.place[..k]))
    && (!job.folder && n == Steps(job) ==> job.place in t && t[job.place] == File(i))
  }

  ghost predicate AllDone(jobs: Jobs, d: Disk) {
    |d.done| == |jobs| && forall i: nat :: IsKept(jobs, i) ==> Done(jobs[i].value, i, d.done[i], d.tree)
  }

  ghost predicate Sound(jobs: Jobs) {
    FilesApart(jobs, |jobs|) && DirsClear(jobs) && NoFileAtRoot(jobs)
  }

  /** No file is where a directory is needed, the destination itself included; two
      files may share a place. */
  ghost predicate Clear(jobs: Jobs) {
    DirsClear(jobs) && NoFileAtRoot(jobs)
  }

  /** A place some key needs as a directory is no key's file. */
  lemma NeededIsNoFile(jobs: Jobs, p: Place, x: nat)
    requires Clear(jobs) && NeededDir(jobs, p) && IsFile(jobs, x)
    ensures PlaceOf(jobs, x) != p
  {
    if p != [] {
      var j: nat :| IsKept(jobs, j) && NeedsDir(jobs, j, p);
    }
  }

  /** What job i has done so far is there, be it under another's content. */
  ghost predicate InPlace(job: ObjectPath, n: nat, t: Tree) {
    && n <= Steps(job)
    && (forall k :: 0 <= k <= n && k <= Dirs(job) ==> IsDir(t, job.place[..k]))
    && (!job.folder && n == Steps(job) ==> job.place in t && t[job.place].File?)
  }

  ghost predicate AllInPlace(jobs: Jobs, d: Disk) {
    |d.done| == |jobs| && forall i: nat :: IsKept(jobs, i) ==> InPlace(jobs[i].value, d.done[i], d.tree)
  }

  /** No step fails, as long as the directories are clear of files. */
  lemma StepWorks(jobs: Jobs, d: Disk, i: nat)
    requires Clear(jobs) && CanStep(jobs, d, i)
    requires OnlyWanted(jobs, d.tree) && InPlace(jobs[i].value, d.done[i], d.tree)
    ensures var job, n := jobs[i].value, d.done[i];
            var p := if n < Dirs(job) then job.place[..n + 1] else job.place;
            && Attempt(jobs, d, i) == Some(d.tree[p := if n < Dirs(job) then Folder else File(i)])
            && p != [] && (p in d.tree ==> (d.tree[p].Folder? <==> n < Dirs(job)))
            && (n < Dirs(job) ==> NeededDir(jobs, p))
  {
    var job, n := jobs[i].value, d.done[i];
    var p := if n < Dirs(job) then job.place[..n + 1] else job.place;
    assert p[..|p| - 1] == job.place[..n];
    if n < Dirs(job) {
      assert NeedsDir(jobs, i, p);
      if p in d.tree && d.tree[p].File? {
        NeededIsNoFile(jobs, p, d.tree[p].job);
        assert false;
      }
      if p in d.tree {
        assert d.tree == d.tree[p := Folder];
      }
    } else {
      assert IsFile(jobs, i);
      if IsDir(d.tree, p) {
        NeededIsNoFile(jobs, p, i);
        assert false;
      }
    }
  }

  lemma StepKeeps(jobs: Jobs, d: Disk, i: nat)
    requires Sound(jobs) && CanStep(jobs, d, i)
    requires OnlyWanted(jobs, d.tree) && AllDone(jobs, d)
    ensures var e := Step(jobs, d, i); !e.broken && OnlyWanted(jobs, e.tree) && AllDone(jobs, e)
  {
    StepWorks(jobs, d, i);
    var job, n := jobs[i].value, d.done[i];
    var p := if n < Dirs(job) then job.place[..n + 1] else job.place;
    var e := Step(jobs, d, i);
    forall j: nat | IsKept(jobs, j) ensures Done(jobs[j].value, j, e.done[j], e.tree) {
      assert Done(jobs[j].value, j, d.done[j], d.tree);
      if j == i {
        StepDone(job, i, n, d.tree);
      } else {
        assert p == PlaceOf(jobs, j) && n >= Dirs(job) ==> IsFile(jobs, i) && !IsFile(jobs, j);
        StaysDone(jobs[j].value, j, d.done[j], d.tree, p, if n < Dirs(job) then Folder else File(i));
      }
    }
  }

  /** Where a step puts what it is for, its job has done one more. */
  lemma StepDone(job: ObjectPath, i: nat, n: nat, t: Tree)
    requires Done(job, i, n, t) && n < Steps(job)
    ensures var p := if n < Dirs(job) then job.place[..n + 1] else job.place;
            (n >= Dirs(job) ==> p !in t || t[p].File?) ==> Done(job, i, n + 1, t[p := if n < Dirs(job) then Folder else File(i)])
  {
  }

  /** Another job's step leaves alone what a job has done. */
  lemma StaysDone(job: ObjectPath, j: nat, n: nat, t: Tree, p: Place, node: Node)
    requires Done(job, j, n, t)
    requires p in t ==> t[p].Folder? == node.Folder?
    requires p == job.place && node.File? ==> job.folder
    ensures Done(job, j, n, t[p := node])
  {
  }

  lemma {:induction false} ScheduleKeeps(jobs: Jobs, d: Disk, schedule: seq<nat>)
    requires Sound(jobs) && Legal(jobs, d, schedule)
    requires !d.broken && OnlyWanted(jobs, d.tree) && AllDone(jobs, d)
    ensures var e := After(jobs, d, schedule); !e.broken && OnlyWanted(jobs, e.tree) && AllDone(jobs, e)
    decreases |schedule|
  {
    if schedule != [] {
      StepKeeps(jobs, d, schedule[0]);
      ScheduleKeeps(jobs, Step(jobs, d, schedule[0]), schedule[1..]);
    }
  }

  lemma StartsSound(jobs: Jobs)
    ensures var d := Cleared(jobs); OnlyWanted(jobs, d.tree) && AllDone(jobs, d) && WellFormed(d.tree)
  {
  }

  /** Keys that objectLocalPaths accepts, none of them for the destination itself,
      download in every interleaving of the workers: no step fails, nothing is
      ever on disk that no key asked for, and when all are through, the disk is
      exactly the tree the keys stand for. */
  lemma AcceptedDownloads(prefix: string, keys: seq<string>, schedule: seq<nat>)
    requires var jobs := JobsOf(prefix, keys);
             Placeable(prefix, keys) && NoFileAtRoot(jobs) && Legal(jobs, Cleared(jobs), schedule)
    ensures var jobs := JobsOf(prefix, keys);
            var d := After(jobs, Cleared(jobs), schedule);
            !d.broken && OnlyWanted(jobs, d.tree) && (Finished(jobs, d) ==> d.tree == TreeOf(jobs))
  {
    var jobs := JobsOf(prefix, keys);
    StartsSound(jobs);
    ScheduleKeeps(jobs, Cleared(jobs), schedule);
    RootStays(jobs, Cleared(jobs), schedule);
    var d := After(jobs, Cleared(jobs), schedule);
    if Finished(jobs, d) {
      FinishedIsTree(jobs, d);
    }
  }

  lemma UsedIsThere(jobs: Jobs, d: Disk, p: Place)
    requires Finished(jobs, d) && AllDone(jobs, d) && IsDir(d.tree, []) && p in PlacesUsed(jobs)
    ensures p in d.tree
  {
    if p != [] {
      var i, k :| 0 <= i < |jobs| && jobs[i].Some? && 0 <= k <= |jobs[i].value.place| && jobs[i].value.place[..k] == p;
      var job := jobs[i].value;
      assert IsKept(jobs, i) && Done(job, i, d.done[i], d.tree);
      if k <= Dirs(job) {
        assert IsDir(d.tree, job.place[..k]);
      } else {
        assert p == job.place;
      }
    }
  }

  lemma ThereIsUsed(jobs: Jobs, t: Tree, p: Place)
    requires Sound(jobs) && OnlyWanted(jobs, t) && p in t
    ensures p in PlacesUsed(jobs) && NodeAt(jobs, p) == t[p]
  {
    match t[p]
    case File(x) =>
      assert jobs[x].value.place[..|p|] == p;
      forall y: nat | IsFile(jobs, y) && PlaceOf(jobs, y) == p ensures y == x {
        assert IsFile(jobs, x);
      }
    case Folder =>
      forall x: nat | IsFile(jobs, x) ensures PlaceOf(jobs, x) != p {
        NeededIsNoFile(jobs, p, x);
      }
      if p != [] {
        var j: nat :| IsKept(jobs, j) && NeedsDir(jobs, j, p);
        assert jobs[j].value.place[..|p|] == p;
      }
  }

  lemma FinishedIsTree(jobs: Jobs, d: Disk)
    requires Sound(jobs) && Finished(jobs, d)
    requires OnlyWanted(jobs, d.tree) && AllDone(jobs, d) && IsDir(d.tree, [])
    ensures d.tree == TreeOf(jobs)
  {
    forall p | p in PlacesUsed(jobs) ensures p in d.tree {
      UsedIsThere(jobs, d, p);
    }
    forall p | p in d.tree ensures p in PlacesUsed(jobs) && NodeAt(jobs, p) == d.tree[p] {
      ThereIsUsed(jobs, d.tree, p);
    }
  }

  // ---- and nothing more could be accepted ----

  /** Whatever the keys, the disk stays a directory tree below its root. */
  lemma {:induction false} RootStays(jobs: Jobs, d: Disk, schedule: seq<nat>)
    requires Legal(jobs, d, schedule) && WellFormed(d.tree)
    ensures WellFormed(After(jobs, d, schedule).tree)
    decreases |schedule|
  {
    if schedule != [] {
      StepStaysTree(jobs, d, schedule[0]);
      RootStays(jobs, Step(jobs, d, schedule[0]), schedule[1..]);
    }
  }

  lemma StepStaysTree(jobs: Jobs, d: Disk, i: nat)
    requires CanStep(jobs, d, i) && WellFormed(d.tree)
    ensures WellFormed(Step(jobs, d, i).tree)
  {
    var job, n := jobs[i].value, d.done[i];
    if n < Dirs(job) {
      PutStaysTree(d.tree, job.place[..n + 1], Folder);
    } else {
      PutStaysTree(d.tree, job.place, File(i));
    }
  }

  lemma PutStaysTree(t: Tree, p: Place, node: Node)
    requires WellFormed(t)
    ensures p != [] && IsDir(t, p[..|p| - 1]) && (IsDir(t, p) ==> node.Folder?) ==> WellFormed(t[p := node])
  {
  }

  /** A step that does not fail puts one thing down, and never makes a file of a
      directory or a directory of a file. */
  lemma StepPuts(jobs: Jobs, d: Disk, i: nat) returns (p: Place, node: Node)
    requires CanStep(jobs, d, i) && Attempt(jobs, d, i).Some?
    ensures Attempt(jobs, d, i) == Some(d.tree[p := node])
    ensures p in d.tree ==> d.tree[p].Folder? == node.Folder?
    ensures var job, n := jobs[i].value, d.done[i];
            p == (if n < Dirs(job) then job.place[..n + 1] else job.place) && (node.Folder? <==> n < Dirs(job))
  {
    var job, n := jobs[i].value, d.done[i];
    p, node := if n < Dirs(job) then job.place[..n + 1] else job.place, if n < Dirs(job) then Folder else File(i);
    assert p in d.tree && d.tree[p] == node ==> d.tree[p := node] == d.tree;
  }

  lemma StepInPlace(job: ObjectPath, n: nat, t: Tree, p: Place, node: Node)
    requires InPlace(job, n, t) && n < Steps(job)
    requires p in t ==> t[p].Folder? == node.Folder?
    requires p == (if n < Dirs(job) then job.place[..n + 1] else job.place) && (node.Folder? <==> n < Dirs(job))
    ensures InPlace(job, n + 1, t[p := node])
  {
  }

  lemma StaysInPlace(job: ObjectPath, n: nat, t: Tree, p: Place, node: Node)
    requires InPlace(job, n, t)
    requires p in t ==> t[p].Folder? == node.Folder?
    ensures InPlace(job, n, t[p := node])
  {
  }

  lemma StepKeepsInPlace(jobs: Jobs, d: Disk, i: nat)
    requires CanStep(jobs, d, i) && AllInPlace(jobs, d)
    ensures AllInPlace(jobs, Step(jobs, d, i))
  {
    if Attempt(jobs, d, i).Some? {
      var p, node := StepPuts(jobs, d, i);
      StepInPlace(jobs[i].value, d.done[i], d.tree, p, node);
      forall j: nat | IsKept(jobs, j) && j != i ensures InPlace(jobs[j].value, d.done[j], d.tree[p := node]) {
        StaysInPlace(jobs[j].value, d.done[j], d.tree, p, node);
      }
    }
  }

  lemma {:induction false} ScheduleKeepsInPlace(jobs: Jobs, d: Disk, schedule: seq<nat>)
    requires Legal(jobs, d, schedule) && AllInPlace(jobs, d)
    ensures AllInPlace(jobs, After(jobs, d, schedule))
    decreases |schedule|
  {
    if schedule != [] {
      StepKeepsInPlace(jobs, d, schedule[0]);
      ScheduleKeepsInPlace(jobs, Step(jobs, d, schedule[0]), schedule[1..]);
    }
  }

  /** The schedule brings every job through. */
  ghost predicate BringsThrough(jobs: Jobs, schedule: seq<nat>) {
    Legal(jobs, Cleared(jobs), schedule) && Finished(jobs, After(jobs, Cleared(jobs), schedule))
  }

  /** If some schedule brings every job through, no file is where a directory is
      needed, and none in the destination's own place: so where one is, every
      schedule fails on the way. */
  lemma FinishedMeansClear(jobs: Jobs, schedule: seq<nat>)
    requires BringsThrough(jobs, schedule)
    ensures Clear(jobs)
  {
    var t := After(jobs, Cleared(jobs), schedule).tree;
    StartsSound(jobs);
    ScheduleKeepsInPlace(jobs, Cleared(jobs), schedule);
    RootStays(jobs, Cleared(jobs), schedule);
    forall i: nat | IsFile(jobs, i) ensures PlaceOf(jobs, i) in t && t[PlaceOf(jobs, i)].File? {
    }
    forall i: nat, j: nat | IsFile(jobs, i) && IsKept(jobs, j) ensures !NeedsDir(jobs, j, PlaceOf(jobs, i)) {
      NeededIsDir(jobs, j, t, PlaceOf(jobs, i));
    }
  }

  lemma StepKeepsClear(jobs: Jobs, d: Disk, i: nat)
    requires Clear(jobs) && CanStep(jobs, d, i) && OnlyWanted(jobs, d.tree) && AllInPlace(jobs, d)
    ensures var e := Step(jobs, d, i); !e.broken && OnlyWanted(jobs, e.tree) && AllInPlace(jobs, e)
  {
    StepWorks(jobs, d, i);
    StepKeepsInPlace(jobs, d, i);
  }

  lemma {:induction false} ScheduleKeepsClear(jobs: Jobs, d: Disk, schedule: seq<nat>)
    requires Clear(jobs) && !d.broken && OnlyWanted(jobs, d.tree) && AllInPlace(jobs, d) && Legal(jobs, d, schedule)
    ensures !After(jobs, d, schedule).broken
    decreases |schedule|
  {
    if schedule != [] {
      StepKeepsClear(jobs, d, schedule[0]);
      ScheduleKeepsClear(jobs, Step(jobs, d, schedule[0]), schedule[1..]);
    }
  }

  /** The steps that the first n jobs have left. */
  function Left(jobs: Jobs, done: seq<nat>, n: nat): int
    requires n <= |jobs| == |done|
  {
    if n == 0 then 0 else Left(jobs, done, n - 1) + if jobs[n - 1].Some? then Steps(jobs[n - 1].value) - done[n - 1] else 0
  }

  lemma {:induction false} LeftAlong(jobs: Jobs, done: seq<nat>, n: nat, i: nat)
    requires n <= |jobs| == |done| && IsKept(jobs, i)
    ensures Left(jobs, done[i := done[i] + 1], n) == Left(jobs, done, n) - if i < n then 1 else 0
  {
    if n > 0 {
      LeftAlong(jobs, done, n - 1, i);
    }
  }

  lemma {:induction false} LeftIsNat(jobs: Jobs, d: Disk, n: nat)
    requires n <= |jobs| && AllInPlace(jobs, d)
    ensures Left(jobs, d.done, n) >= 0
  {
    if n > 0 {
      LeftIsNat(jobs, d, n - 1);
      assert IsKept(jobs, n - 1) ==> InPlace(jobs[n - 1].value, d.done[n - 1], d.tree);
    }
  }

  /** From wherever the workers are, there is a way for all of them to the end. */
  lemma {:induction false} RunsOut(jobs: Jobs, d: Disk) returns (schedule: seq<nat>)
    requires Clear(jobs) && !d.broken && OnlyWanted(jobs, d.tree) && AllInPlace(jobs, d)
    ensures Legal(jobs, d, schedule) && Finished(jobs, After(jobs, d, schedule))
    decreases Left(jobs, d.done, |jobs|)
  {
    if Finished(jobs, d) {
      schedule := [];
    } else {
      var i: nat :| IsKept(jobs, i) && d.done[i] != Steps(jobs[i].value);
      assert InPlace(jobs[i].value, d.done[i], d.tree);
      StepKeepsClear(jobs, d, i);
      var e := Step(jobs, d, i);
      LeftAlong(jobs, d.done, |jobs|, i);
      LeftIsNat(jobs, e, |jobs|);
      var rest := RunsOut(jobs, e);
      schedule := [i] + rest;
      assert schedule[1..] == rest;
    }
  }

  /** Exactly when no file is where a directory is needed, nor in the destination's
      own place, can every job be brought through; and then no schedule fails. */
  lemma DownloadExactly(jobs: Jobs)
    ensures (exists schedule :: BringsThrough(jobs, schedule)) <==> DirsClear(jobs) && NoFileAtRoot(jobs)
    ensures DirsClear(jobs) && NoFileAtRoot(jobs) ==>
              forall schedule :: Legal(jobs, Cleared(jobs), schedule) ==> !After(jobs, Cleared(jobs), schedule).broken
  {
    StartsSound(jobs);
    if schedule :| BringsThrough(jobs, schedule) {
      FinishedMeansClear(jobs, schedule);
    }
    if Clear(jobs) {
      var schedule := RunsOut(jobs, Cleared(jobs));
      assert BringsThrough(jobs, schedule);
      forall schedule | Legal(jobs, Cleared(jobs), schedule) ensures !After(jobs, Cleared(jobs), schedule).broken {
        ScheduleKeepsClear(jobs, Cleared(jobs), schedule);
      }
    }
  }

  /** A directory that a job needs is there when the job is through. */
  lemma NeededIsDir(jobs: Jobs, j: nat, t: Tree, p: Place)
    requires IsKept(jobs, j) && InPlace(jobs[j].value, Steps(jobs[j].value), t)
    ensures NeedsDir(jobs, j, p) ==> IsDir(t, p)
  {
    var job := jobs[j].value;
    if NeedsDir(jobs, j, p) {
      assert p == job.place[..|p|] && |p| <= Dirs(job);
    }
  }

  /** Two files in one place go by unseen: every job may come through, and one
      object is written over another. What is there when all are through is what
      every key stands for iff no two share a place. */
  lemma FinishedHoldsAll(jobs: Jobs, schedule: seq<nat>)
    requires BringsThrough(jobs, schedule)
    ensures Holds(After(jobs, Cleared(jobs), schedule).tree, jobs) <==> FilesApart(jobs, |jobs|)
  {
    var d := After(jobs, Cleared(jobs), schedule);
    FinishedMeansClear(jobs, schedule);
    if FilesApart(jobs, |jobs|) {
      StartsSound(jobs);
      ScheduleKeeps(jobs, Cleared(jobs), schedule);
      forall i: nat | IsKept(jobs, i)
        ensures PlaceOf(jobs, i) in d.tree && d.tree[PlaceOf(jobs, i)] == if jobs[i].value.folder then Folder else File(i)
      {
        assert Done(jobs[i].value, i, d.done[i], d.tree);
        assert PlaceOf(jobs, i)[..|PlaceOf(jobs, i)|] == PlaceOf(jobs, i);
      }
    }
  }

  /** So with a shared place and nothing else in the way, all jobs come through and
      one of the objects is not there. */
  lemma SharedPlaceOverwrites(jobs: Jobs) returns (schedule: seq<nat>)
    requires DirsClear(jobs) && NoFileAtRoot(jobs) && !FilesApart(jobs, |jobs|)
    ensures BringsThrough(jobs, schedule) && !Holds(After(jobs, Cleared(jobs), schedule).tree, jobs)
  {
    StartsSound(jobs);
    schedule := RunsOut(jobs, Cleared(jobs));
    FinishedHoldsAll(jobs, schedule);
  }

  /** The one kind of key accepted that cannot be downloaded: an object whose
      path cleans to the destination itself fails as soon as its turn comes. */
  lemma {:induction false} FileAtRootFails(jobs: Jobs, d: Disk, schedule: seq<nat>, i: nat)
    requires Legal(jobs, d, schedule) && IsFile(jobs, i) && PlaceOf(jobs, i) == []
    requires WellFormed(d.tree) && i in schedule
    ensures After(jobs, d, schedule).broken
    decreases |schedule|
  {
    var e := Step(jobs, d, schedule[0]);
    RootStays(jobs, d, [schedule[0]]);
    assert [schedule[0]][1..] == [];
    assert After(jobs, d, [schedule[0]]) == After(jobs, e, []) == e;
    if schedule[0] == i {
      assert e.broken;
      BrokenStays(jobs, e, schedule[1..]);
    } else {
      FileAtRootFails(jobs, e, schedule[1..], i);
    }
  }

  lemma BrokenStays(jobs: Jobs, d: Disk, schedule: seq<nat>)
    requires Legal(jobs, d, schedule) && d.broken
    ensures After(jobs, d, schedule) == d
  {
  }

  /** Such a key is easily made: "data/." is accepted below "data/". */
  lemma DotKeyIsAccepted()
    ensures Placeable("data/", ["data/."])
    ensures var jobs := JobsOf("data/", ["data/."]); IsFile(jobs, 0) && PlaceOf(jobs, 0) == [] && !Realizable(jobs)
  {
    var key := "data/.";
    assert "data/" <= key && TrimPrefix(key, "data/") == ".";
    assert Split(".", '/') == ["."] by {
      SplitOne(".", '/');
    }
    assert Relative("data/", key) == ".";
    assert CleanParts(".") == [] by {
      assert ["."][1..] == [];
    }
    assert ObjectLocalPath("data/", key) == At(ObjectPath([], false));
    var jobs := JobsOf("data/", [key]);
    assert IsFile(jobs, 0) && PlaceOf(jobs, 0) == [];
    PlaceableIffRealizable(jobs);
  }
}
