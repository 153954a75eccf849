/** A whole set of objects: the keys a stream writes, and the keys the relay writes
    when it downloads the same objects and uploads what is then on disk
    (data-mig/storagex/executor-s3.go). */
module StreamRelay {
  import opened Options
  import opened Paths
  import opened Placement
  import opened Download
  import opened StreamKeys

  /** The keys that the files of a directory tree are uploaded to. */
  ghost function Uploaded(dstPrefix: string, t: Tree): set<string> {
    set p | p in t && t[p].File? :: UploadKey(dstPrefix, p)
  }

  /** The keys the stream writes the objects to that are no folder markers. */
  ghost function Streamed(srcPrefix: string, dstPrefix: string, keys: seq<string>): set<string> {
    set i | 0 <= i < |keys| && IsFile(JobsOf(srcPrefix, keys), i) :: StreamDstKey(srcPrefix, dstPrefix, keys[i])
  }

  /** One object goes to the same key either way. */
  predicate Agrees(srcPrefix: string, dstPrefix: string, key: string) {
    var r := ObjectLocalPath(srcPrefix, key);
    r.At? && StreamDstKey(srcPrefix, dstPrefix, key) == UploadKey(dstPrefix, r.path.place)
  }

  lemma FileIsAt(srcPrefix: string, keys: seq<string>, i: nat)
    requires i < |keys| && IsFile(JobsOf(srcPrefix, keys), i)
    ensures ObjectLocalPath(srcPrefix, keys[i]) == At(JobsOf(srcPrefix, keys)[i].value)
  {
    JobAt(srcPrefix, keys, i);
  }

  /** The files of the tree are the objects, each in its place. */
  lemma FilesOfTree(jobs: Jobs, p: Place)
    requires Sound(jobs)
    ensures p in TreeOf(jobs) && TreeOf(jobs)[p].File? <==> exists i: nat :: IsFile(jobs, i) && PlaceOf(jobs, i) == p
  {
    if i: nat :| IsFile(jobs, i) && PlaceOf(jobs, i) == p {
      assert jobs[i].value.place[..|p|] == p;
      assert p in PlacesUsed(jobs);
    }
  }

  /** Accepted keys: both ways write the same set of keys, if every object's own key
      is the same either way. */
  lemma StreamedIsUploaded(srcPrefix: string, dstPrefix: string, keys: seq<string>)
    requires Placeable(srcPrefix, keys) && NoFileAtRoot(JobsOf(srcPrefix, keys))
    requires forall i: nat :: i < |keys| && IsFile(JobsOf(srcPrefix, keys), i) ==> Agrees(srcPrefix, dstPrefix, keys[i])
    ensures Streamed(srcPrefix, dstPrefix, keys) == Uploaded(dstPrefix, TreeOf(JobsOf(srcPrefix, keys)))
  {
    var jobs := JobsOf(srcPrefix, keys);
    var t := TreeOf(jobs);
    forall k | k in Streamed(srcPrefix, dstPrefix, keys) ensures k in Uploaded(dstPrefix, t) {
      var i :| 0 <= i < |keys| && IsFile(jobs, i) && StreamDstKey(srcPrefix, dstPrefix, keys[i]) == k;
      FileIsAt(srcPrefix, keys, i);
      FilesOfTree(jobs, PlaceOf(jobs, i));
    }
    forall k | k in Uploaded(dstPrefix, t) ensures k in Streamed(srcPrefix, dstPrefix, keys) {
      var p :| p in t && t[p].File? && UploadKey(dstPrefix, p) == k;
      FilesOfTree(jobs, p);
      var i: nat :| IsFile(jobs, i) && PlaceOf(jobs, i) == p;
      FileIsAt(srcPrefix, keys, i);
    }
  }

  /** No two files end at one key: their places differ, and a place can be read off
      its key. */
  lemma UploadedApart(dstPrefix: string, p: Place, q: Place)
    requires AreNames(p) && AreNames(q) && p != [] && q != []
    requires NoBackslash(CleanParts(dstPrefix) + p) && NoBackslash(CleanParts(dstPrefix) + q)
    requires UploadKey(dstPrefix, p) == UploadKey(dstPrefix, q)
    ensures p == q
  {
    var base := CleanParts(dstPrefix);
    RelayKeepsText(dstPrefix, p);
    RelayKeepsText(dstPrefix, q);
    JoinedSegments(dstPrefix, p);
    JoinedSegments(dstPrefix, q);
    assert Join(base + p, '/') == Join(base + q, '/') by {
      assert Rooted(dstPrefix) ==> ("/" + Join(base + p, '/'))[1..] == ("/" + Join(base + q, '/'))[1..];
    }
    SegmentsHaveNoSlash(dstPrefix, p);
    SegmentsHaveNoSlash(dstPrefix, q);
    SplitJoin(base + p, '/');
    SplitJoin(base + q, '/');
    assert p == (base + p)[|base|..] && q == (base + q)[|base|..];
  }

  lemma SegmentsHaveNoSlash(dst: string, p: Place)
    requires AreNames(p)
    ensures forall i :: 0 <= i < |CleanParts(dst) + p| ==> '/' !in (CleanParts(dst) + p)[i]
  {
    CleanHasNoSlash([], Split(dst, '/'), Rooted(dst));
  }

  lemma {:induction false} CleanHasNoSlash(done: seq<string>, parts: seq<string>, rooted: bool)
    requires forall i :: 0 <= i < |done| ==> '/' !in done[i]
    requires forall i :: 0 <= i < |parts| ==> '/' !in parts[i]
    ensures forall i :: 0 <= i < |CleanOnto(done, parts, rooted)| ==> '/' !in CleanOnto(done, parts, rooted)[i]
    decreases |parts|
  {
    if parts != [] {
      CleanHasNoSlash(done, parts[1..], rooted);
      if done != [] {
        CleanHasNoSlash(done[..|done| - 1], parts[1..], rooted);
      }
      CleanHasNoSlash(done + [parts[0]], parts[1..], rooted);
    }
  }

  /** For keys and a destination prefix without backslashes, and a prefix that is
      there or keys that do not go on with a slash: the stream writes exactly the
      keys the relay does, object by object, no two objects to one key. */
  lemma StreamIsRelay(srcPrefix: string, dstPrefix: string, keys: seq<string>)
    requires Placeable(srcPrefix, keys) && NoFileAtRoot(JobsOf(srcPrefix, keys))
    requires '\\' !in dstPrefix && forall i :: 0 <= i < |keys| ==> '\\' !in keys[i]
    requires dstPrefix != "" || forall i :: 0 <= i < |keys| ==> !Rooted(Below(srcPrefix, keys[i]))
    ensures Streamed(srcPrefix, dstPrefix, keys) == Uploaded(dstPrefix, TreeOf(JobsOf(srcPrefix, keys)))
    ensures forall i: nat, j: nat :: i < j < |keys| && IsFile(JobsOf(srcPrefix, keys), i) && IsFile(JobsOf(srcPrefix, keys), j) ==>
              StreamDstKey(srcPrefix, dstPrefix, keys[i]) != StreamDstKey(srcPrefix, dstPrefix, keys[j])
  {
    var jobs := JobsOf(srcPrefix, keys);
    forall i: nat | i < |keys| && IsFile(jobs, i) ensures Agrees(srcPrefix, dstPrefix, keys[i]) {
      FileIsAt(srcPrefix, keys, i);
      PlainKeysAgree(srcPrefix, dstPrefix, keys[i]);
    }
    StreamedIsUploaded(srcPrefix, dstPrefix, keys);
    forall i: nat, j: nat | i < j < |keys| && IsFile(jobs, i) && IsFile(jobs, j)
      ensures StreamDstKey(srcPrefix, dstPrefix, keys[i]) != StreamDstKey(srcPrefix, dstPrefix, keys[j])
    {
      StreamedApart(srcPrefix, dstPrefix, keys, i, j);
    }
  }

  lemma StreamedApart(srcPrefix: string, dstPrefix: string, keys: seq<string>, i: nat, j: nat)
    requires Placeable(srcPrefix, keys) && NoFileAtRoot(JobsOf(srcPrefix, keys))
    requires i < j < |keys| && '\\' !in dstPrefix && '\\' !in keys[i] && '\\' !in keys[j]
    requires IsFile(JobsOf(srcPrefix, keys), i) && IsFile(JobsOf(srcPrefix, keys), j)
    requires Agrees(srcPrefix, dstPrefix, keys[i]) && Agrees(srcPrefix, dstPrefix, keys[j])
    ensures StreamDstKey(srcPrefix, dstPrefix, keys[i]) != StreamDstKey(srcPrefix, dstPrefix, keys[j])
  {
    FileIsAt(srcPrefix, keys, i);
    FileIsAt(srcPrefix, keys, j);
    PlainSegments(srcPrefix, dstPrefix, keys[i]);
    PlainSegments(srcPrefix, dstPrefix, keys[j]);
    var p, q := PlaceOf(JobsOf(srcPrefix, keys), i), PlaceOf(JobsOf(srcPrefix, keys), j);
    if UploadKey(dstPrefix, p) == UploadKey(dstPrefix, q) {
      UploadedApart(dstPrefix, p, q);
    }
  }
}
