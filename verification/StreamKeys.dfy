/** The key an object takes at the destination: streamed in one step, or
    downloaded and uploaded again (data-mig/storagex/executor-s3.go, lines 99-106
    and 515-530). */
module StreamKeys {
  import opened Paths
  import opened Placement

  /** streamDstKey. */
  function StreamDstKey(srcPrefix: string, dstPrefix: string, key: string): string {
    var below := TrimPrefix(TrimPrefix(key, srcPrefix), "/");
    var rel := if below == "" then Base(key) else below;
    JoinTwo(dstPrefix, rel) + if HasSuffix(rel, '/') then "/" else ""
  }

  /** strings.ReplaceAll(s, "\\", "/"). */
  function Slashed(s: string): (r: string)
    ensures |r| == |s|
    ensures r == s <==> '\\' !in s
  {
    if s == "" then ""
    else
      assert s == [s[0]] + s[1..];
      [if s[0] == '\\' then '/' else s[0]] + Slashed(s[1..])
  }

  /** The key upload gives the file at place below the staging directory. */
  function UploadKey(dstPrefix: string, place: Place): string {
    Slashed(JoinTwo(dstPrefix, Join(place, '/')))
  }

  /** TrimLeft drops slashes only. */
  lemma {:induction false} TrimLeftSlashes(s: string)
    ensures Split(s, '/') == EmptyParts(|s| - |TrimLeft(s)|) + Split(TrimLeft(s), '/')
    ensures |TrimLeft(s)| <= |s|
  {
    if Rooted(s) {
      TrimLeftSlashes(s[1..]);
    }
  }

  function EmptyParts(n: int): (r: seq<string>)
    ensures forall i :: 0 <= i < |r| ==> r[i] == ""
  {
    if n <= 0 then [] else [""] + EmptyParts(n - 1)
  }

  lemma {:induction false} CleanDropsEmpty(done: seq<string>, n: int, parts: seq<string>, rooted: bool)
    ensures CleanOnto(done, EmptyParts(n) + parts, rooted) == CleanOnto(done, parts, rooted)
    decreases n
  {
    if n <= 0 {
      assert EmptyParts(n) + parts == parts;
    } else {
      var all := EmptyParts(n) + parts;
      assert all[0] == "" && all[1..] == EmptyParts(n - 1) + parts;
      CleanDropsEmpty(done, n - 1, parts, rooted);
    }
  }

  /** A relative path joined below dst ends where its cleaned segments do. */
  lemma JoinedClean(dst: string, rel: string, place: Place)
    requires dst != "" && rel != "" && place != []
    requires StaysBelow(CleanParts(TrimLeft(rel))) && place == CleanParts(TrimLeft(rel))
    ensures JoinTwo(dst, rel) == JoinTwo(dst, Join(place, '/'))
  {
    var base := CleanOnto([], Split(dst, '/'), Rooted(dst));
    JoinedBelow(base, rel, Rooted(dst));
    JoinedParts(dst, rel);
    CleanBelow([], [], Split(TrimLeft(rel), '/'), false);
    NamesRender(place);
    SplitJoin(place, '/');
    CleanNames(base, place, Rooted(dst));
    JoinedParts(dst, Join(place, '/'));
  }

  lemma LeadingSlashesDrop(base: seq<string>, rel: string, rooted: bool)
    ensures CleanOnto(base, Split(rel, '/'), rooted) == CleanOnto(base, Split(TrimLeft(rel), '/'), rooted)
  {
    TrimLeftSlashes(rel);
    CleanDropsEmpty(base, |rel| - |TrimLeft(rel)|, Split(TrimLeft(rel), '/'), rooted);
  }

  lemma JoinedBelow(base: seq<string>, rel: string, rooted: bool)
    requires StaysBelow(CleanOnto([], Split(TrimLeft(rel), '/'), false))
    ensures CleanOnto(base, Split(rel, '/'), rooted) == base + CleanOnto([], Split(TrimLeft(rel), '/'), false)
  {
    LeadingSlashesDrop(base, rel, rooted);
    CleanBelow(base, [], Split(TrimLeft(rel), '/'), rooted);
    assert base + [] == base;
  }

  lemma JoinedParts(dst: string, rel: string)
    requires dst != "" && rel != ""
    ensures JoinTwo(dst, rel) == Render(Rooted(dst), CleanOnto(CleanOnto([], Split(dst, '/'), Rooted(dst)), Split(rel, '/'), Rooted(dst)))
  {
    assert dst + "/" + rel == dst + ['/'] + rel;
    SplitAt(dst, rel, '/');
    CleanAppend([], Split(dst, '/'), Split(rel, '/'), Rooted(dst));
  }

  lemma NamesRender(place: Place)
    requires AreNames(place) && place != []
    ensures Join(place, '/') != "" && !Rooted(Join(place, '/'))
  {
  }

  /** With no prefix at the destination. */
  lemma AloneClean(rel: string, place: Place)
    requires rel != "" && place != []
    requires StaysBelow(CleanParts(TrimLeft(rel))) && place == CleanParts(TrimLeft(rel))
    ensures JoinTwo("", Join(place, '/')) == Join(place, '/')
    ensures JoinTwo("", rel) == (if Rooted(rel) then "/" else "") + Join(place, '/')
  {
    JoinedBelow([], rel, Rooted(rel));
    assert [] + place == place;
    AloneRendered(rel, place);
    CleanBelow([], [], Split(TrimLeft(rel), '/'), false);
    AloneNames(place);
  }

  lemma AloneNames(place: Place)
    requires AreNames(place) && place != []
    ensures JoinTwo("", Join(place, '/')) == Join(place, '/')
  {
    NamesRender(place);
    SplitJoin(place, '/');
    CleanNames([], place, false);
    assert [] + place == place;
    AloneRendered(Join(place, '/'), place);
    assert "" + Join(place, '/') == Join(place, '/');
  }

  lemma AloneRendered(rel: string, place: Place)
    requires rel != "" && place != [] && CleanOnto([], Split(rel, '/'), Rooted(rel)) == place
    ensures JoinTwo("", rel) == (if Rooted(rel) then "/" else "") + Join(place, '/')
  {
    assert JoinTwo("", rel) == Clean(rel) == Render(Rooted(rel), place);
    assert "" + Join(place, '/') == Join(place, '/');
  }

  /** What the stream puts below dstPrefix is what is placed locally, but for
      slashes in front. */
  lemma SameRelative(srcPrefix: string, key: string)
    requires var r := ObjectLocalPath(srcPrefix, key); r.At? && !r.path.folder
    ensures var below := TrimPrefix(TrimPrefix(key, srcPrefix), "/");
            var rel := if below == "" then Base(key) else below;
            && rel != "" && !HasSuffix(rel, '/')
            && TrimLeft(rel) == Relative(srcPrefix, key)
  {
    RelativeIsRelative(srcPrefix, key);
    var tail := TrimPrefix(key, srcPrefix);
    if key == srcPrefix {
      assert tail == "";
    } else {
      TrimLeftKeepsEnd(tail);
      if Rooted(tail) {
        assert "/" <= tail && TrimPrefix(tail, "/") == tail[1..];
        TrimLeftKeepsEnd(tail[1..]);
      } else {
        assert !("/" <= tail);
      }
    }
  }

  lemma {:induction false} TrimLeftKeepsEnd(s: string)
    ensures TrimLeft(s) != "" ==> s != "" && HasSuffix(TrimLeft(s), '/') == HasSuffix(s, '/')
  {
    if Rooted(s) {
      TrimLeftKeepsEnd(s[1..]);
    }
  }

  /** No segment holds a backslash. */
  ghost predicate NoBackslash(parts: seq<string>) {
    forall i :: 0 <= i < |parts| ==> '\\' !in parts[i]
  }

  lemma {:induction false} JoinBackslash(parts: seq<string>)
    ensures '\\' !in Join(parts, '/') <==> NoBackslash(parts)
  {
    if |parts| > 1 {
      JoinBackslash(parts[1..]);
      assert parts == [parts[0]] + parts[1..];
      assert forall i :: 1 <= i < |parts| ==> parts[i] == parts[1..][i - 1];
    }
  }

  /** Where a file that is placed at place ends below a destination prefix. */
  lemma JoinedSegments(dst: string, place: Place)
    requires AreNames(place) && place != []
    ensures JoinTwo(dst, Join(place, '/')) == Render(Rooted(dst), CleanParts(dst) + place)
  {
    var text := Join(place, '/');
    NamesRender(place);
    SplitJoin(place, '/');
    if dst == "" {
      assert Split("", '/') == [""];
      CleanNames([], place, false);
      assert [] + place == place;
    } else {
      JoinedParts(dst, text);
      CleanNames(CleanParts(dst), place, Rooted(dst));
    }
  }

  lemma RelayKeepsText(dst: string, place: Place)
    requires AreNames(place) && place != []
    ensures UploadKey(dst, place) == JoinTwo(dst, Join(place, '/')) <==> NoBackslash(CleanParts(dst) + place)
  {
    JoinedSegments(dst, place);
    JoinBackslash(CleanParts(dst) + place);
  }

  /** What of the key the stream puts below the destination prefix. */
  function Below(srcPrefix: string, key: string): string {
    TrimPrefix(TrimPrefix(key, srcPrefix), "/")
  }

  /** Streaming an object that downloads as a file gives it the key the relay
      gives it, iff no segment of the destination prefix or of the file's place
      holds a backslash, which the relay's upload turns into a slash, and it is not
      both that the destination has no prefix and the key goes on with a slash,
      which only the stream keeps. */
  lemma StreamEqualsRelay(srcPrefix: string, dstPrefix: string, key: string)
    requires var r := ObjectLocalPath(srcPrefix, key); r.At? && !r.path.folder && r.path.place != []
    ensures var place := ObjectLocalPath(srcPrefix, key).path.place;
            StreamDstKey(srcPrefix, dstPrefix, key) == UploadKey(dstPrefix, place) <==>
            NoBackslash(CleanParts(dstPrefix) + place) && !(dstPrefix == "" && Rooted(Below(srcPrefix, key)))
  {
    var place := ObjectLocalPath(srcPrefix, key).path.place;
    var rel := if Below(srcPrefix, key) == "" then Base(key) else Below(srcPrefix, key);
    SameRelative(srcPrefix, key);
    assert StreamDstKey(srcPrefix, dstPrefix, key) == JoinTwo(dstPrefix, rel);
    RelayKeepsText(dstPrefix, place);
    if dstPrefix == "" {
      AloneClean(rel, place);
      if Below(srcPrefix, key) == "" {
        assert !Rooted(rel);
      }
    } else {
      JoinedClean(dstPrefix, rel, place);
    }
  }

  lemma MarkerRelative(srcPrefix: string, key: string)
    requires var r := ObjectLocalPath(srcPrefix, key); r.At? && r.path.folder && r.path.place != []
    ensures var below := Below(srcPrefix, key); below != "" && HasSuffix(below, '/') && TrimLeft(below) == Relative(srcPrefix, key)
  {
    RelativeIsRelative(srcPrefix, key);
    var tail := TrimPrefix(key, srcPrefix);
    if key == srcPrefix && !HasSuffix(srcPrefix, '/') {
      ObjectIsRest(key);
      if key != "" {
        ObjectPlace(key);
      }
    } else {
      TrimLeftKeepsEnd(tail);
      if Rooted(tail) {
        assert "/" <= tail && TrimPrefix(tail, "/") == tail[1..];
        TrimLeftKeepsEnd(tail[1..]);
      } else {
        assert !("/" <= tail);
      }
    }
  }

  /** The documented difference: the relay makes a folder marker a directory, and
      uploads none; the stream keeps it, at the key of that folder with its slash. */
  lemma MarkerKeepsSlash(srcPrefix: string, dstPrefix: string, key: string)
    requires var r := ObjectLocalPath(srcPrefix, key); r.At? && r.path.folder && r.path.place != []
    ensures var place := ObjectLocalPath(srcPrefix, key).path.place;
            StreamDstKey(srcPrefix, dstPrefix, key) ==
            (if dstPrefix == "" && Rooted(Below(srcPrefix, key)) then "/" else "") + JoinTwo(dstPrefix, Join(place, '/')) + "/"
  {
    var place, rel := ObjectLocalPath(srcPrefix, key).path.place, Below(srcPrefix, key);
    MarkerRelative(srcPrefix, key);
    if dstPrefix == "" {
      AloneClean(rel, place);
    } else {
      JoinedClean(dstPrefix, rel, place);
    }
  }

  // ---- what a caller can see beforehand ----

  lemma {:induction false} SplitBackslash(s: string)
    requires '\\' !in s
    ensures NoBackslash(Split(s, '/'))
  {
    if s != "" {
      SplitBackslash(s[1..]);
    }
  }

  lemma {:induction false} CleanBackslash(done: seq<string>, parts: seq<string>, rooted: bool)
    requires NoBackslash(done) && NoBackslash(parts)
    ensures NoBackslash(CleanOnto(done, parts, rooted))
    decreases |parts|
  {
    if parts != [] {
      CleanBackslash(done, parts[1..], rooted);
      if done != [] {
        CleanBackslash(done[..|done| - 1], parts[1..], rooted);
      }
      CleanBackslash(done + [parts[0]], parts[1..], rooted);
    }
  }

  lemma {:induction false} TrimLeftBackslash(s: string)
    requires '\\' !in s
    ensures '\\' !in TrimLeft(s)
  {
    if Rooted(s) {
      TrimLeftBackslash(s[1..]);
    }
  }

  lemma RelativeBackslash(srcPrefix: string, key: string)
    requires '\\' !in key
    ensures '\\' !in Relative(srcPrefix, key)
  {
    BaseBackslash(key);
    TrimLeftBackslash(TrimPrefix(key, srcPrefix));
  }

  lemma BaseBackslash(key: string)
    requires '\\' !in key
    ensures '\\' !in Base(key)
  {
    var t := TrimRight(key);
    assert t == key[..|t|];
    assert LastPart(t) == t[LastStart(t)..];
  }

  lemma PlainSegments(srcPrefix: string, dstPrefix: string, key: string)
    requires var r := ObjectLocalPath(srcPrefix, key); r.At? && r.path.place != []
    requires '\\' !in key && '\\' !in dstPrefix
    ensures NoBackslash(CleanParts(dstPrefix) + ObjectLocalPath(srcPrefix, key).path.place)
  {
    RelativeBackslash(srcPrefix, key);
    SplitBackslash(Relative(srcPrefix, key));
    SplitBackslash(dstPrefix);
    CleanBackslash([], Split(Relative(srcPrefix, key), '/'), false);
    CleanBackslash([], Split(dstPrefix, '/'), Rooted(dstPrefix));
  }

  /** Without a backslash in the key or in the destination prefix, only a slash in
      front of what an empty prefix leaves can make the two differ. */
  lemma PlainKeysAgree(srcPrefix: string, dstPrefix: string, key: string)
    requires var r := ObjectLocalPath(srcPrefix, key); r.At? && !r.path.folder && r.path.place != []
    requires '\\' !in key && '\\' !in dstPrefix
    ensures StreamDstKey(srcPrefix, dstPrefix, key) == UploadKey(dstPrefix, ObjectLocalPath(srcPrefix, key).path.place) <==>
            !(dstPrefix == "" && Rooted(Below(srcPrefix, key)))
  {
    StreamEqualsRelay(srcPrefix, dstPrefix, key);
    PlainSegments(srcPrefix, dstPrefix, key);
  }

  // ---- where the two do differ ----

  lemma NameIsPlaced(name: string)
    requires IsName(name)
    ensures ObjectLocalPath("", name) == At(ObjectPath([name], false))
  {
    SplitOne(name, '/');
    assert TrimLeft(name) == name && Relative("", name) == name;
    CleanNames([], [name], false);
    assert [] + [name] == [name];
  }

  /** A name with a backslash keeps it when it is streamed, and not on the relay. */
  lemma BackslashDiffers(name: string)
    requires IsName(name) && '\\' in name
    ensures StreamDstKey("", "", name) != UploadKey("", [name])
  {
    NameIsPlaced(name);
    assert (CleanParts("") + [name])[|CleanParts("")|] == name;
    StreamEqualsRelay("", "", name);
  }

  /** A slash in front of what is below the prefix stays in front when there is no
      prefix to put it under. */
  lemma LeadingSlashDiffers(prefix: string, name: string)
    requires prefix != "" && !HasSuffix(prefix, '/') && IsName(name)
    ensures var key := prefix + "/" + "/" + name;
            && ObjectLocalPath(prefix, key) == At(ObjectPath([name], false))
            && StreamDstKey(prefix, "", key) != UploadKey("", [name])
  {
    var key := prefix + "/" + "/" + name;
    SlashesArePlaced(prefix, name);
    assert TrimPrefix(key, prefix) == "/" + "/" + name;
    assert Below(prefix, key) == "/" + name;
    StreamEqualsRelay(prefix, "", key);
  }

  lemma SlashesArePlaced(prefix: string, name: string)
    requires prefix != "" && !HasSuffix(prefix, '/') && IsName(name)
    ensures ObjectLocalPath(prefix, prefix + "/" + "/" + name) == At(ObjectPath([name], false))
  {
    var key := prefix + "/" + "/" + name;
    assert key == prefix + ("/" + "/" + name) && prefix + "/" <= key && key != prefix;
    assert TrimPrefix(key, prefix) == "/" + "/" + name;
    assert ("/" + "/" + name)[1..] == "/" + name && ("/" + name)[1..] == name;
    assert TrimLeft("/" + "/" + name) == TrimLeft("/" + name) == TrimLeft(name) == name;
    NameIsPlaced(name);
  }
}
