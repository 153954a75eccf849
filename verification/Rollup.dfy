/** What an inspection of object storage tells of each folder and of all objects
    together (InspectObjectStorage, data-mig/storagex/inspect.go). */
module Rollup {
  import opened Options
  import opened Paths
  import opened Filter
  import Arithmetic
  import Order = WalkOrder

  datatype ObjectInfo = ObjectInfo(key: string, size: nat)

  /** A folder's own objects: how many, and their sizes together. */
  datatype Agg = Agg(count: nat, size: nat)

  function Nothing(): Agg {
    Agg(0, 0)
  }

  function Plus(a: Agg, b: Agg): Agg {
    Agg(a.count + b.count, a.size + b.size)
  }

  /** An object, by the folder it is directly in. */
  datatype Located = Located(folder: string, size: nat)

  function One(o: Located): Agg {
    Agg(1, o.size)
  }

  datatype Entry = Entry(key: string, own: Agg)

  datatype InspectResult = InspectResult(path: string, total: Agg, folders: seq<Entry>)

  // ---- the names of folders ----

  /** filter.Rel: path relative to root. */
  function Rel(root: string, path: string): string {
    var top, rel := Trim(root), Trim(path);
    if top == "" then rel
    else if rel == top then ""
    else if top + "/" <= rel then rel[|top| + 1..]
    else rel
  }

  /** Below the root, Rel is what comes after it. */
  lemma RelBelow(root: seq<string>, names: seq<string>)
    requires AreNames(root) && AreNames(names)
    ensures Rel(Join(root, '/'), Join(root + names, '/')) == Join(names, '/')
  {
    if names == [] {
      assert root + names == root;
    } else if root == [] {
      assert root + names == names;
      NamesAreTrim(names);
    } else {
      NamesAreTrim(root);
      NamesAreTrim(root + names);
      JoinAppend(root, names);
    }
  }

  /** A path is relative to the root by its names, and one that is not below it is
      left as it is, however its text begins. */
  lemma RelExactly(root: seq<string>, names: seq<string>)
    requires AreNames(root) && AreNames(names)
    ensures Rel(Join(root, '/'), Join(names, '/')) == Join(if root <= names then names[|root|..] else names, '/')
  {
    if root <= names {
      assert root + names[|root|..] == names;
      RelBelow(root, names[|root|..]);
    } else {
      NamesAreTrim(root);
      SplitJoin(root, '/');
      if names != [] {
        NamesAreTrim(names);
        SplitJoin(names, '/');
        NotBelow(Join(root, '/'), Join(names, '/'));
      }
    }
  }

  lemma NotBelow(top: string, rel: string)
    requires !(Split(top, '/') <= Split(rel, '/'))
    ensures rel != top && !(top + "/" <= rel)
  {
    if top + "/" <= rel {
      assert rel == top + ['/'] + rel[|top| + 1..];
      SplitAt(top, rel[|top| + 1..], '/');
    }
  }

  /** directPrefix. */
  function DirectPrefix(bucket: string, key: string): string {
    var k := Trim(key);
    var start := LastStart(k);
    if start > 0 then bucket + "/" + k[..start - 1] + "/" else bucket + "/"
  }

  function Folder(bucket: string, dirs: seq<string>): string {
    bucket + "/" + Join(dirs, '/') + "/"
  }

  /** The folders above one key. */
  function FoldersOf(bucket: string, key: string): set<string> {
    var parts := Split(Trim(key), '/');
    set i | 1 <= i < |parts| :: Folder(bucket, parts[..i])
  }

  /** extractFolderPrefixes, as a set. */
  function FolderPrefixes(bucket: string, objects: seq<ObjectInfo>): set<string> {
    if objects == [] then {}
    else FolderPrefixes(bucket, objects[..|objects| - 1]) + FoldersOf(bucket, objects[|objects| - 1].key)
  }

  function ScanRoot(bucket: string, prefix: string): string {
    if prefix == "" then bucket + "/"
    else bucket + "/" + (if HasSuffix(prefix, '/') then prefix[..|prefix| - 1] else prefix) + "/"
  }

  /** The scanned folder is named like any other, with a slash at the prefix's end
      or without. */
  lemma ScanRootIsFolder(bucket: string, names: seq<string>)
    requires AreNames(names)
    ensures names != [] ==> ScanRoot(bucket, Join(names, '/')) == ScanRoot(bucket, Join(names, '/') + "/") == Folder(bucket, names)
    ensures ScanRoot(bucket, "") == bucket + "/"
  {
    if names != [] {
      NamesEnds(names);
      var prefix := Join(names, '/');
      assert (prefix + "/")[..|prefix + "/"| - 1] == prefix;
    }
  }

  /** A folder is derived from a key iff the key goes on below it. */
  lemma FolderAboveExactly(bucket: string, key: string, dirs: seq<string>)
    requires dirs != [] && forall i :: 0 <= i < |dirs| ==> '/' !in dirs[i]
    ensures Folder(bucket, dirs) in FoldersOf(bucket, key) <==> Join(dirs, '/') + "/" <= Trim(key)
  {
    var k := Trim(key);
    if Join(dirs, '/') + "/" <= k {
      GoesOnBelow(k, dirs);
    }
    if Folder(bucket, dirs) in FoldersOf(bucket, key) {
      FolderGoesOn(bucket, key, dirs);
    }
  }

  lemma FolderGoesOn(bucket: string, key: string, dirs: seq<string>)
    requires Folder(bucket, dirs) in FoldersOf(bucket, key)
    ensures Join(dirs, '/') + "/" <= Trim(key)
  {
    var k := Trim(key);
    var i :| 1 <= i < |Split(k, '/')| && Folder(bucket, Split(k, '/')[..i]) == Folder(bucket, dirs);
    FolderText(bucket, Split(k, '/')[..i], dirs);
    SplitGoesOn(k, i);
  }

  lemma GoesOnBelow(k: string, dirs: seq<string>)
    requires dirs != [] && forall i :: 0 <= i < |dirs| ==> '/' !in dirs[i]
    requires Join(dirs, '/') + "/" <= k
    ensures |dirs| < |Split(k, '/')| && Split(k, '/')[..|dirs|] == dirs
  {
    var text := Join(dirs, '/');
    assert k == text + ['/'] + k[|text| + 1..];
    SplitAt(text, k[|text| + 1..], '/');
    SplitJoin(dirs, '/');
  }

  lemma SplitGoesOn(k: string, i: nat)
    requires 1 <= i < |Split(k, '/')|
    ensures Join(Split(k, '/')[..i], '/') + "/" <= k
  {
    var parts := Split(k, '/');
    JoinSplit(k, '/');
    JoinAppend(parts[..i], parts[i..]);
    assert parts == parts[..i] + parts[i..];
  }

  lemma FolderText(bucket: string, a: seq<string>, b: seq<string>)
    requires Folder(bucket, a) == Folder(bucket, b)
    ensures Join(a, '/') == Join(b, '/')
  {
    Between(bucket + "/", Join(a, '/'), "/");
    Between(bucket + "/", Join(b, '/'), "/");
  }

  lemma Between(top: string, x: string, end: string)
    ensures var s := top + x + end; |s| == |top| + |x| + |end| && s[|top|..|s| - |end|] == x
  {
  }

  // ---- the aggregates ----

  function Locate(bucket: string, objects: seq<ObjectInfo>): (at: seq<Located>)
    ensures |at| == |objects|
    ensures forall i :: 0 <= i < |objects| ==> at[i] == Located(DirectPrefix(bucket, objects[i].key), objects[i].size)
  {
    seq(|objects|, i requires 0 <= i < |objects| => Located(DirectPrefix(bucket, objects[i].key), objects[i].size))
  }

  /** The first n objects together. */
  function Total(at: seq<Located>, n: nat): Agg
    requires n <= |at|
  {
    if n == 0 then Nothing() else Plus(Total(at, n - 1), One(at[n - 1]))
  }

  function Sizes(objects: seq<ObjectInfo>): (r: seq<nat>)
    ensures |r| == |objects| && forall i :: 0 <= i < |r| ==> r[i] == objects[i].size
  {
    seq(|objects|, i requires 0 <= i < |objects| => objects[i].size)
  }

  lemma TotalIsSum(bucket: string, objects: seq<ObjectInfo>)
    ensures Total(Locate(bucket, objects), |objects|) == Agg(|objects|, Arithmetic.Sum(Sizes(objects)))
  {
    TotalAdds(Locate(bucket, objects), Sizes(objects));
  }

  lemma {:induction false} TotalAdds(at: seq<Located>, sizes: seq<nat>)
    requires |at| == |sizes| && forall i :: 0 <= i < |at| ==> at[i].size == sizes[i]
    ensures Total(at, |at|) == Agg(|at|, Arithmetic.Sum(sizes))
  {
    var n := |at|;
    if n > 0 {
      TotalAdds(at[..n - 1], sizes[..n - 1]);
      TotalOfFirst(at, n - 1);
    }
  }

  lemma {:induction false} TotalOfFirst(at: seq<Located>, n: nat)
    requires n < |at|
    ensures Total(at, n) == Total(at[..|at| - 1], n)
  {
    if n > 0 {
      TotalOfFirst(at, n - 1);
    }
  }

  /** What of the first n objects is directly in a folder. */
  function Direct(at: seq<Located>, n: nat, folder: string): Agg
    requires n <= |at|
  {
    if n == 0 then Nothing() else Plus(Direct(at, n - 1, folder), if at[n - 1].folder == folder then One(at[n - 1]) else Nothing())
  }

  predicate Shown(o: Option<FilterOption>, maxDepth: nat, bucket: string, scanRoot: string, folder: string) {
    && (o.None? || PathKept(EffectiveRules(o.value), Rel(scanRoot, folder), 0, true))
    && (o.Some? && maxDepth > 0 ==> Depth(bucket, folder) <= maxDepth)
  }

  /** How deep below the bucket a folder is. */
  function Depth(bucket: string, folder: string): nat {
    var below := TrimPrefix(folder, bucket + "/");
    var rel := if HasSuffix(below, '/') then below[..|below| - 1] else below;
    if rel == "" then 0 else |Split(rel, '/')|
  }

  /** A folder is as deep as it has names below the bucket, whatever was scanned. */
  lemma DepthIsNames(bucket: string, dirs: seq<string>)
    requires dirs != [] && dirs[0] != "" && forall i :: 0 <= i < |dirs| ==> '/' !in dirs[i]
    ensures Depth(bucket, Folder(bucket, dirs)) == |dirs|
    ensures Depth(bucket, bucket + "/") == 0
  {
    var folder, top := Folder(bucket, dirs), bucket + "/";
    assert folder == top + (Join(dirs, '/') + "/");
    assert folder[|top|..] == Join(dirs, '/') + "/";
    assert (Join(dirs, '/') + "/")[..|Join(dirs, '/')|] == Join(dirs, '/');
    assert top[|top|..] == "";
    SplitJoin(dirs, '/');
  }

  /** Of the folders the rules keep, those with more names than maxDepth are left
      out; a maxDepth of 0 leaves none out. */
  lemma ShownToDepth(o: FilterOption, maxDepth: nat, bucket: string, scanRoot: string, dirs: seq<string>)
    requires dirs != [] && dirs[0] != "" && forall i :: 0 <= i < |dirs| ==> '/' !in dirs[i]
    ensures var folder := Folder(bucket, dirs);
            Shown(Some(o), maxDepth, bucket, scanRoot, folder) <==>
            PathKept(EffectiveRules(o), Rel(scanRoot, folder), 0, true) && (maxDepth == 0 || |dirs| <= maxDepth)
  {
    DepthIsNames(bucket, dirs);
  }

  /** A folder below the scanned one is judged by its names from there on. */
  lemma ShownByNames(o: FilterOption, bucket: string, root: seq<string>, names: seq<string>)
    requires IsName(bucket) && AreNames(root) && AreNames(names) && names != []
    ensures Shown(Some(o), 0, bucket, ScanRoot(bucket, Join(root, '/')), Folder(bucket, root + names)) <==>
            PathKept(EffectiveRules(o), Join(names, '/'), 0, true)
  {
    RelOfFolder(bucket, root, names);
  }

  lemma RelOfFolder(bucket: string, root: seq<string>, names: seq<string>)
    requires IsName(bucket) && AreNames(root) && AreNames(names) && names != []
    ensures Rel(ScanRoot(bucket, Join(root, '/')), Folder(bucket, root + names)) == Join(names, '/')
  {
    var scan, folder := ScanRoot(bucket, Join(root, '/')), Folder(bucket, root + names);
    RootAsJoin(bucket, root);
    FolderBelow(bucket, root, names);
    NamesBelow(bucket, root);
    RelOfJoins([bucket] + root, names, scan, folder);
  }

  lemma NamesBelow(bucket: string, root: seq<string>)
    requires IsName(bucket) && AreNames(root)
    ensures AreNames([bucket] + root)
  {
  }

  lemma FolderBelow(bucket: string, root: seq<string>, names: seq<string>)
    requires names != []
    ensures Folder(bucket, root + names) == Join([bucket] + root + names, '/') + "/"
  {
    FolderAsJoin(bucket, root + names);
    assert [bucket] + root + names == [bucket] + (root + names);
  }

  lemma RelOfJoins(above: seq<string>, names: seq<string>, scan: string, folder: string)
    requires AreNames(above) && AreNames(names)
    requires scan == Join(above, '/') + "/" && folder == Join(above + names, '/') + "/"
    ensures Rel(scan, folder) == Join(names, '/')
  {
    RelTrims(Join(above, '/'), Join(above + names, '/'));
    RelBelow(above, names);
  }

  lemma RelTrims(root: string, path: string)
    ensures Rel(root + "/", path + "/") == Rel(root, path)
  {
    SlashesTrim(root);
    SlashesTrim(path);
  }

  lemma FolderAsJoin(bucket: string, names: seq<string>)
    requires names != []
    ensures Folder(bucket, names) == Join([bucket] + names, '/') + "/"
  {
    JoinAppend([bucket], names);
  }

  lemma RootAsJoin(bucket: string, root: seq<string>)
    requires AreNames(root)
    ensures ScanRoot(bucket, Join(root, '/')) == Join([bucket] + root, '/') + "/"
  {
    ScanRootIsFolder(bucket, root);
    if root != [] {
      FolderAsJoin(bucket, root);
    } else {
      assert [bucket] + root == [bucket];
    }
  }

  function Keys(folders: seq<Entry>): (keys: seq<string>)
    ensures |keys| == |folders| && forall i :: 0 <= i < |keys| ==> keys[i] == folders[i].key
  {
    seq(|folders|, i requires 0 <= i < |folders| => folders[i].key)
  }

  /** What the result holds: every folder there is and the filter shows, once and in
      order, each with its own objects; and the totals of all objects. */
  ghost predicate Holds(r: InspectResult, bucket: string, prefix: string, objects: seq<ObjectInfo>, o: Option<FilterOption>, maxDepth: nat) {
    && r.path == ScanRoot(bucket, prefix)
    && r.total == Total(Locate(bucket, objects), |objects|)
    && Ascends(Keys(r.folders))
    && (forall i :: 0 <= i < |r.folders| ==> r.folders[i].own == Direct(Locate(bucket, objects), |objects|, r.folders[i].key))
    && (forall f :: f in Keys(r.folders) <==> f in FolderPrefixes(bucket, objects) + {r.path} && Shown(o, maxDepth, bucket, r.path, f))
  }

  // ---- the loops ----

  /** The loops of extractFolderPrefixes. */
  method CollectFolders(bucket: string, objects: seq<ObjectInfo>) returns (seen: set<string>)
    ensures seen == FolderPrefixes(bucket, objects)
  {
    seen := {};
    var n := 0;
    while n < |objects|
      invariant 0 <= n <= |objects|
      invariant seen == FolderPrefixes(bucket, objects[..n])
    {
      assert objects[..n + 1][..n] == objects[..n];
      ghost var before := seen;
      var key := Trim(objects[n].key);
      var parts := Split(key, '/');
      if |parts| > 1 {
        var dirs := parts[..|parts| - 1];
        var i := 0;
        while i < |dirs|
          invariant 0 <= i <= |dirs|
          invariant seen == before + set k | 1 <= k <= i :: Folder(bucket, parts[..k])
        {
          assert dirs[..i + 1] == parts[..i + 1];
          seen := seen + {bucket + "/" + Join(dirs[..i + 1], '/') + "/"};
          i := i + 1;
        }
      }
      n := n + 1;
    }
    assert objects[..n] == objects;
  }

  function At(perPrefix: map<string, Agg>, folder: string): Agg {
    if folder in perPrefix then perPrefix[folder] else Nothing()
  }

  ghost predicate Agrees(perPrefix: map<string, Agg>, at: seq<Located>, n: nat)
    requires n <= |at|
  {
    forall f :: At(perPrefix, f) == Direct(at, n, f)
  }

  lemma PlusNothing(a: Agg)
    ensures Plus(a, Nothing()) == a
  {
  }

  lemma AgreesAlong(perPrefix: map<string, Agg>, at: seq<Located>, n: nat)
    requires n < |at| && Agrees(perPrefix, at, n)
    ensures Agrees(perPrefix[at[n].folder := Plus(At(perPrefix, at[n].folder), One(at[n]))], at, n + 1)
  {
    var next := perPrefix[at[n].folder := Plus(At(perPrefix, at[n].folder), One(at[n]))];
    forall f ensures At(next, f) == Direct(at, n + 1, f) {
      DirectAlong(at, n, f);
    }
  }

  lemma DirectAlong(at: seq<Located>, n: nat, folder: string)
    requires n < |at|
    ensures Direct(at, n + 1, folder) == if at[n].folder == folder then Plus(Direct(at, n, folder), One(at[n])) else Direct(at, n, folder)
  {
    PlusNothing(Direct(at, n, folder));
  }

  /** The pass over the objects: the totals, and what is directly in each folder. */
  method Aggregate(bucket: string, objects: seq<ObjectInfo>) returns (total: Agg, perPrefix: map<string, Agg>)
    ensures total == Total(Locate(bucket, objects), |objects|)
    ensures Agrees(perPrefix, Locate(bucket, objects), |objects|)
  {
    total, perPrefix := Nothing(), map[];
    ghost var at := Locate(bucket, objects);
    var n := 0;
    while n < |objects|
      invariant 0 <= n <= |objects|
      invariant total == Total(at, n)
      invariant Agrees(perPrefix, at, n)
    {
      var dp, size := DirectPrefix(bucket, objects[n].key), objects[n].size;
      assert at[n] == Located(dp, size);
      AgreesAlong(perPrefix, at, n);
      total := Agg(total.count + 1, total.size + size);
      perPrefix := perPrefix[dp := Agg(At(perPrefix, dp).count + 1, At(perPrefix, dp).size + size)];
      n := n + 1;
    }
  }

  // ---- sorting the folders ----

  ghost predicate Ascends(keys: seq<string>) {
    forall i, j :: 0 <= i < j < |keys| ==> Order.Less(keys[i], keys[j])
  }

  lemma AscendsAlong(keys: seq<string>, x: string)
    requires Ascends(keys) && forall f :: f in keys ==> Order.Less(f, x)
    ensures Ascends(keys + [x])
  {
  }

  lemma {:induction false} LessIsTotal(a: string, b: string)
    ensures Order.Less(a, b) || Order.Less(b, a) || a == b
  {
    if a != "" && b != "" && a[0] == b[0] {
      LessIsTotal(a[1..], b[1..]);
      assert a == [a[0]] + a[1..] && b == [b[0]] + b[1..];
    }
  }

  lemma {:induction false} LessIsStrict(a: string)
    ensures !Order.Less(a, a)
  {
    if a != "" {
      LessIsStrict(a[1..]);
    }
  }

  lemma {:induction false} LessIsTransitive(a: string, b: string, c: string)
    requires Order.Less(a, b) && Order.Less(b, c)
    ensures Order.Less(a, c)
  {
    if a != "" && a[0] == b[0] && b[0] == c[0] {
      LessIsTransitive(a[1..], b[1..], c[1..]);
    }
  }

  function PutIn(x: string, keys: seq<string>): (r: seq<string>)
    ensures forall y :: y in r <==> y == x || y in keys
  {
    if keys == [] || Order.Less(x, keys[0]) then [x] + keys else [keys[0]] + PutIn(x, keys[1..])
  }

  lemma {:induction false} PutInAscends(x: string, keys: seq<string>)
    requires Ascends(keys) && x !in keys
    ensures Ascends(PutIn(x, keys))
  {
    if keys != [] {
      if Order.Less(x, keys[0]) {
        forall j | 0 <= j < |keys| ensures Order.Less(x, keys[j]) {
          if j > 0 {
            LessIsTransitive(x, keys[0], keys[j]);
          }
        }
      } else {
        LessIsTotal(x, keys[0]);
        var rest := PutIn(x, keys[1..]);
        PutInAscends(x, keys[1..]);
        forall j | 0 <= j < |rest| ensures Order.Less(keys[0], rest[j]) {
          assert rest[j] in rest;
        }
      }
    }
  }

  /** sort.Strings of a set's elements. */
  method SortStrings(all: set<string>) returns (keys: seq<string>)
    ensures Ascends(keys) && forall x :: x in keys <==> x in all
  {
    keys := [];
    var rest := all;
    while rest != {}
      invariant rest <= all && Ascends(keys)
      invariant forall x :: x in keys <==> x in all - rest
      decreases |rest|
    {
      var x :| x in rest;
      PutInAscends(x, keys);
      keys := PutIn(x, keys);
      rest := rest - {x};
    }
  }

  /** extractFolderPrefixes: every folder above every key, once and in order. */
  method ExtractFolderPrefixes(bucket: string, objects: seq<ObjectInfo>) returns (prefixes: seq<string>)
    ensures Ascends(prefixes) && forall f :: f in prefixes <==> f in FolderPrefixes(bucket, objects)
  {
    var seen := CollectFolders(bucket, objects);
    prefixes := SortStrings(seen);
  }

  /** InspectObjectStorage, given what the listing returned. */
  method InspectObjectStorage(bucket: string, prefix: string, objects: seq<ObjectInfo>, o: Option<FilterOption>, maxDepth: nat) returns (r: InspectResult)
    ensures Holds(r, bucket, prefix, objects, o, maxDepth)
  {
    var scanRoot := ScanRoot(bucket, prefix);
    var prefixes := ExtractFolderPrefixes(bucket, objects);
    var all := SortStrings({scanRoot} + set p | p in prefixes);
    var total, perPrefix := Aggregate(bucket, objects);
    var folders := ListFolders(bucket, scanRoot, all, Locate(bucket, objects), perPrefix, o, maxDepth);
    return InspectResult(scanRoot, total, folders);
  }

  /** The loop over the folders. */
  method ListFolders(bucket: string, scanRoot: string, all: seq<string>, ghost at: seq<Located>, perPrefix: map<string, Agg>, o: Option<FilterOption>, maxDepth: nat) returns (folders: seq<Entry>)
    requires Ascends(all) && Agrees(perPrefix, at, |at|)
    ensures Ascends(Keys(folders))
    ensures forall k :: 0 <= k < |folders| ==> folders[k].own == Direct(at, |at|, folders[k].key)
    ensures forall f :: f in Keys(folders) <==> f in all && Shown(o, maxDepth, bucket, scanRoot, f)
  {
    folders := [];
    var i := 0;
    while i < |all|
      invariant 0 <= i <= |all|
      invariant Ascends(Keys(folders)) && forall f, k :: f in Keys(folders) && i <= k < |all| ==> Order.Less(f, all[k])
      invariant forall k :: 0 <= k < |folders| ==> folders[k].own == Direct(at, |at|, folders[k].key)
      invariant forall f :: f in Keys(folders) <==> f in all[..i] && Shown(o, maxDepth, bucket, scanRoot, f)
    {
      var fp := all[i];
      assert all[..i + 1] == all[..i] + [fp];
      var kept := MatchPath(o, Rel(scanRoot, fp), 0, true);
      if kept && (o.None? || maxDepth == 0 || Depth(bucket, fp) <= maxDepth) {
        assert Keys(folders + [Entry(fp, At(perPrefix, fp))]) == Keys(folders) + [fp];
        AscendsAlong(Keys(folders), fp);
        folders := folders + [Entry(fp, At(perPrefix, fp))];
      }
      i := i + 1;
    }
    assert all[..i] == all;
  }

  // ---- what the folders come to ----

  /** One of the first k keys. */
  predicate Has(keys: seq<string>, k: nat, folder: string)
    requires k <= |keys|
  {
    exists i :: 0 <= i < k && keys[i] == folder
  }

  function Share(o: Located, keys: seq<string>, k: nat): Agg
    requires k <= |keys|
  {
    if Has(keys, k, o.folder) then One(o) else Nothing()
  }

  /** The objects of the listed folders. */
  function TotalIn(at: seq<Located>, n: nat, keys: seq<string>): Agg
    requires n <= |at|
  {
    if n == 0 then Nothing() else Plus(TotalIn(at, n - 1, keys), Share(at[n - 1], keys, |keys|))
  }

  function SumDirect(at: seq<Located>, n: nat, keys: seq<string>, k: nat): Agg
    requires n <= |at| && k <= |keys|
  {
    if k == 0 then Nothing() else Plus(SumDirect(at, n, keys, k - 1), Direct(at, n, keys[k - 1]))
  }

  /** What the entries say, added up. */
  function Sum(folders: seq<Entry>, n: nat): Agg
    requires n <= |folders|
  {
    if n == 0 then Nothing() else Plus(Sum(folders, n - 1), folders[n - 1].own)
  }

  lemma PlusSwaps(a: Agg, b: Agg, c: Agg, d: Agg)
    ensures Plus(Plus(a, b), Plus(c, d)) == Plus(Plus(a, c), Plus(b, d))
  {
  }

  /** One object more is in one folder more, if its folder is listed: once. */
  lemma {:induction false} SumDirectAlong(at: seq<Located>, n: nat, keys: seq<string>, k: nat)
    requires Distinct(keys) && 0 < n <= |at| && k <= |keys|
    ensures SumDirect(at, n, keys, k) == Plus(SumDirect(at, n - 1, keys, k), Share(at[n - 1], keys, k))
  {
    if k > 0 {
      var last := if at[n - 1].folder == keys[k - 1] then One(at[n - 1]) else Nothing();
      SumDirectAlong(at, n, keys, k - 1);
      ShareAlong(at[n - 1], keys, k);
      assert Direct(at, n, keys[k - 1]) == Plus(Direct(at, n - 1, keys[k - 1]), last);
      PlusSwaps(SumDirect(at, n - 1, keys, k - 1), Share(at[n - 1], keys, k - 1), Direct(at, n - 1, keys[k - 1]), last);
    } else {
      assert Share(at[n - 1], keys, 0) == Nothing();
    }
  }

  ghost predicate Distinct(keys: seq<string>) {
    forall i, j :: 0 <= i < j < |keys| ==> keys[i] != keys[j]
  }

  lemma AscendsDistinct(keys: seq<string>)
    requires Ascends(keys)
    ensures Distinct(keys)
  {
    forall i, j | 0 <= i < j < |keys| ensures keys[i] != keys[j] {
      LessIsStrict(keys[i]);
    }
  }

  lemma ShareAlong(o: Located, keys: seq<string>, k: nat)
    requires Distinct(keys) && 0 < k <= |keys|
    ensures Share(o, keys, k) == Plus(Share(o, keys, k - 1), if o.folder == keys[k - 1] then One(o) else Nothing())
  {
    HasAlong(keys, k, o.folder);
    HasOnce(keys, k, o.folder);
  }

  lemma HasAlong(keys: seq<string>, k: nat, folder: string)
    requires 0 < k <= |keys|
    ensures Has(keys, k, folder) <==> Has(keys, k - 1, folder) || folder == keys[k - 1]
  {
    if Has(keys, k, folder) {
      var i :| 0 <= i < k && keys[i] == folder;
    }
  }

  lemma HasOnce(keys: seq<string>, k: nat, folder: string)
    requires Distinct(keys) && 0 < k <= |keys|
    ensures !(Has(keys, k - 1, folder) && folder == keys[k - 1])
  {
  }

  lemma {:induction false} SumDirectNone(at: seq<Located>, keys: seq<string>, k: nat)
    requires k <= |keys|
    ensures SumDirect(at, 0, keys, k) == Nothing()
  {
    if k > 0 {
      SumDirectNone(at, keys, k - 1);
    }
  }

  lemma {:induction false} SumDirectIsTotalIn(at: seq<Located>, n: nat, keys: seq<string>)
    requires Distinct(keys) && n <= |at|
    ensures SumDirect(at, n, keys, |keys|) == TotalIn(at, n, keys)
  {
    if n == 0 {
      SumDirectNone(at, keys, |keys|);
    } else {
      SumDirectAlong(at, n, keys, |keys|);
      SumDirectIsTotalIn(at, n - 1, keys);
    }
  }

  lemma {:induction false} SumIsSumDirect(at: seq<Located>, folders: seq<Entry>, k: nat)
    requires k <= |folders| && forall i :: 0 <= i < |folders| ==> folders[i].own == Direct(at, |at|, folders[i].key)
    ensures Sum(folders, k) == SumDirect(at, |at|, Keys(folders), k)
  {
    if k > 0 {
      SumIsSumDirect(at, folders, k - 1);
    }
  }

  ghost predicate AllListed(at: seq<Located>, n: nat, keys: seq<string>)
    requires n <= |at|
  {
    forall i :: 0 <= i < n ==> Has(keys, |keys|, at[i].folder)
  }

  /** What is in the listed folders is all there is iff no object's folder is
      missing. */
  lemma {:induction false} TotalInIsTotal(at: seq<Located>, n: nat, keys: seq<string>)
    requires n <= |at|
    ensures TotalIn(at, n, keys).count <= Total(at, n).count
    ensures TotalIn(at, n, keys).count == Total(at, n).count <==> AllListed(at, n, keys)
    ensures AllListed(at, n, keys) ==> TotalIn(at, n, keys) == Total(at, n)
  {
    if n > 0 {
      TotalInIsTotal(at, n - 1, keys);
      assert AllListed(at, n, keys) <==> AllListed(at, n - 1, keys) && Has(keys, |keys|, at[n - 1].folder);
    }
  }

  /** The folder of an object that has one above it is among those derived. */
  lemma DirectIsFolder(bucket: string, key: string)
    ensures LastStart(Trim(key)) > 0 ==> DirectPrefix(bucket, key) in FoldersOf(bucket, key)
    ensures LastStart(Trim(key)) == 0 ==> DirectPrefix(bucket, key) == bucket + "/"
  {
    var k := Trim(key);
    var parts := Split(k, '/');
    var n := |parts| - 1;
    JoinSplit(k, '/');
    if n > 0 {
      JoinAppend(parts[..n], parts[n..]);
      assert parts[..n] + parts[n..] == parts;
      assert parts[n..] == [parts[n]];
      assert k == Join(parts[..n], '/') + "/" + parts[n];
      assert k[..LastStart(k) - 1] == Join(parts[..n], '/');
      assert DirectPrefix(bucket, key) == Folder(bucket, parts[..n]);
    }
  }

  lemma {:induction false} FolderIsDerived(bucket: string, objects: seq<ObjectInfo>, i: nat)
    requires i < |objects|
    ensures FoldersOf(bucket, objects[i].key) <= FolderPrefixes(bucket, objects)
  {
    if i < |objects| - 1 {
      FolderIsDerived(bucket, objects[..|objects| - 1], i);
    }
  }

  /** The bucket itself is not among the derived folders. */
  lemma {:induction false} BucketIsNotDerived(bucket: string, objects: seq<ObjectInfo>)
    ensures bucket + "/" !in FolderPrefixes(bucket, objects)
  {
    if objects != [] {
      BucketIsNotDerived(bucket, objects[..|objects| - 1]);
      forall dirs: seq<string> ensures Folder(bucket, dirs) != bucket + "/" {
        assert |Folder(bucket, dirs)| >= |bucket| + 2;
      }
    }
  }

  lemma DirectIsListed(bucket: string, prefix: string, objects: seq<ObjectInfo>, i: nat)
    requires i < |objects|
    ensures DirectPrefix(bucket, objects[i].key) in FolderPrefixes(bucket, objects) + {ScanRoot(bucket, prefix)} <==>
            prefix == "" || LastStart(Trim(objects[i].key)) > 0
  {
    DirectIsFolder(bucket, objects[i].key);
    FolderIsDerived(bucket, objects, i);
    BucketIsNotDerived(bucket, objects);
    assert prefix != "" ==> |ScanRoot(bucket, prefix)| >= |bucket| + 2;
  }

  /** Every object is in exactly one folder: the listed folders' own counts and
      sizes sum to those of the objects whose folder is listed, and so to the totals
      iff none is filtered away. */
  lemma FoldersSumUp(r: InspectResult, bucket: string, prefix: string, objects: seq<ObjectInfo>, o: Option<FilterOption>, maxDepth: nat)
    requires Holds(r, bucket, prefix, objects, o, maxDepth)
    ensures Sum(r.folders, |r.folders|) == TotalIn(Locate(bucket, objects), |objects|, Keys(r.folders))
    ensures Sum(r.folders, |r.folders|).count <= r.total.count
    ensures Sum(r.folders, |r.folders|) == r.total <==> AllListed(Locate(bucket, objects), |objects|, Keys(r.folders))
  {
    var at := Locate(bucket, objects);
    AscendsDistinct(Keys(r.folders));
    SumIsSumDirect(at, r.folders, |r.folders|);
    SumDirectIsTotalIn(at, |at|, Keys(r.folders));
    TotalInIsTotal(at, |at|, Keys(r.folders));
  }

  /** Without a filter the folders sum to the totals iff the whole bucket was
      scanned, or no object is at the bucket's top: as the scanned folder's own
      marker is, where the folder is. */
  lemma RollupConserves(r: InspectResult, bucket: string, prefix: string, objects: seq<ObjectInfo>)
    requires Holds(r, bucket, prefix, objects, None, 0)
    ensures Sum(r.folders, |r.folders|) == r.total <==>
            prefix == "" || forall i :: 0 <= i < |objects| ==> LastStart(Trim(objects[i].key)) > 0
  {
    FoldersSumUp(r, bucket, prefix, objects, None, 0);
    NoneMissing(bucket, prefix, objects, Keys(r.folders));
  }

  lemma NoneMissing(bucket: string, prefix: string, objects: seq<ObjectInfo>, keys: seq<string>)
    requires forall f :: f in keys <==> f in FolderPrefixes(bucket, objects) + {ScanRoot(bucket, prefix)}
    ensures AllListed(Locate(bucket, objects), |objects|, keys) <==>
            prefix == "" || forall i :: 0 <= i < |objects| ==> LastStart(Trim(objects[i].key)) > 0
  {
    var at := Locate(bucket, objects);
    forall i | 0 <= i < |objects| ensures Has(keys, |keys|, at[i].folder) <==> prefix == "" || LastStart(Trim(objects[i].key)) > 0 {
      DirectIsListed(bucket, prefix, objects, i);
      assert at[i].folder in keys <==> Has(keys, |keys|, at[i].folder);
    }
  }

  /** A folder at the bucket's top that is scanned on its own, and that has a marker:
      the marker is counted in the totals, and in no folder. */
  lemma MarkerIsMissing(r: InspectResult, bucket: string, name: string, objects: seq<ObjectInfo>, i: nat)
    requires IsName(name) && i < |objects| && objects[i].key == name + "/"
    requires Holds(r, bucket, name + "/", objects, None, 0)
    ensures Sum(r.folders, |r.folders|) != r.total
  {
    MarkerIsAtTop(name);
    RollupConserves(r, bucket, name + "/", objects);
  }

  lemma MarkerIsAtTop(name: string)
    requires IsName(name)
    ensures LastStart(Trim(name + "/")) == 0
  {
    var key := name + "/";
    assert TrimLeft(key) == key && key[..|key| - 1] == name;
    assert TrimRight(key) == TrimRight(name) == name;
    TopHasNoFolder(name);
  }

  lemma TopHasNoFolder(name: string)
    requires '/' !in name
    ensures LastStart(name) == 0
  {
    SplitOne(name, '/');
  }
}
