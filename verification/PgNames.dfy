/** PostgreSQL object names: how they are written, how a name is read back, and
    which objects an exclude rule's name takes
    (data-mig/dbmsx/filter/object_name.go, data-mig/dbmsx/handle.go). */
module PgNames {
  import opened Options
  import opened Paths

  // ---- the strings package ----

  /** unicode.IsSpace. */
  predicate Space(c: char) {
    var n := c as int;
    9 <= n <= 13 || n == 32 || n == 0x85 || n == 0xA0 || n == 0x1680 || 0x2000 <= n <= 0x200A
    || n == 0x2028 || n == 0x2029 || n == 0x202F || n == 0x205F || n == 0x3000
  }

  function SkipSpace(s: string): string {
    if s != "" && Space(s[0]) then SkipSpace(s[1..]) else s
  }

  function DropSpace(s: string): string {
    if s != "" && Space(s[|s| - 1]) then DropSpace(s[..|s| - 1]) else s
  }

  /** strings.TrimSpace. */
  function TrimSpace(s: string): string {
    DropSpace(SkipSpace(s))
  }

  /** strings.TrimLeft(s, " "). */
  function SkipBlanks(s: string): string {
    if s != "" && s[0] == ' ' then SkipBlanks(s[1..]) else s
  }

  predicate HasPrefix(s: string, c: char) {
    s != "" && s[0] == c
  }

  /** Where c first is, or the length. */
  function IndexOf(s: string, c: char): (i: nat)
    ensures i <= |s| && c !in s[..i] && (i < |s| ==> s[i] == c)
  {
    if s == "" || s[0] == c then 0
    else
      var i := IndexOf(s[1..], c);
      assert s[..i + 1] == [s[0]] + s[1..][..i];
      1 + i
  }

  /** Where a dot or an opening parenthesis first is, or the length. */
  function NameEnd(s: string): (i: nat)
    ensures i <= |s|
    ensures forall k :: 0 <= k < i ==> s[k] != '.' && s[k] != '('
    ensures i < |s| ==> s[i] == '.' || s[i] == '('
  {
    if s == "" || s[0] == '.' || s[0] == '(' then 0 else 1 + NameEnd(s[1..])
  }

  // ---- writing a name ----

  /** strings.ReplaceAll(s, `"`, `""`). */
  function Doubled(s: string): string {
    if s == "" then "" else (if s[0] == '"' then "\"\"" else [s[0]]) + Doubled(s[1..])
  }

  /** pgQuoteIdent. */
  function Quote(name: string): string {
    "\"" + Doubled(name) + "\""
  }

  datatype Table = Table(schema: string, name: string)

  function Qualified(t: Table): string {
    if t.schema == "" then Quote(t.name) else Quote(t.schema) + "." + Quote(t.name)
  }

  /** qualifiedTableNames. */
  method QualifiedTableNames(tables: seq<Table>) returns (names: seq<string>)
    ensures |names| == |tables| && forall i :: 0 <= i < |tables| ==> names[i] == Qualified(tables[i])
  {
    names := [];
    var i := 0;
    while i < |tables|
      invariant 0 <= i <= |tables| && |names| == i
      invariant forall k :: 0 <= k < i ==> names[k] == Qualified(tables[k])
    {
      if tables[i].schema == "" {
        names := names + [Quote(tables[i].name)];
      } else {
        names := names + [Quote(tables[i].schema) + "." + Quote(tables[i].name)];
      }
      i := i + 1;
    }
  }

  // ---- reading a name ----

  /** The identifiers, unquoted, and the text between the parentheses. */
  datatype Name = Name(parts: seq<string>, args: Option<string>)

  datatype Read = Read(id: string, rest: string)

  /** The rest of a quoted identifier, after its opening quote. */
  function ReadQuoted(s: string): (r: Option<Read>)
    ensures r.Some? ==> |r.value.rest| < |s|
  {
    if s == "" then None
    else if s[0] != '"' then Before(s[0], ReadQuoted(s[1..]))
    else if HasPrefix(s[1..], '"') then Before('"', ReadQuoted(s[2..]))
    else Some(Read("", s[1..]))
  }

  function Before(c: char, r: Option<Read>): Option<Read> {
    if r.None? then None else Some(Read([c] + r.value.id, r.value.rest))
  }

  /** One identifier; None if it is empty, or its quote is never closed. */
  function ReadIdent(s: string): (r: Option<Read>)
    ensures r.Some? ==> |r.value.rest| < |s|
  {
    if HasPrefix(s, '"') then
      var q := ReadQuoted(s[1..]);
      if q.Some? && q.value.id != "" then q else None
    else
      var id := TrimSpace(s[..NameEnd(s)]);
      if id == "" then None else Some(Read(id, s[NameEnd(s)..]))
  }

  /** The identifiers from s on, after the ones already read, and the arguments. */
  function ReadName(parts: seq<string>, s: string): Option<Name>
    decreases |s|
  {
    var r := ReadIdent(s);
    if r.None? then None
    else
      SkipBlanksShrinks(r.value.rest);
      var all, rest := parts + [r.value.id], SkipBlanks(r.value.rest);
      if !HasPrefix(rest, '.') then ReadArgs(all, rest)
      else if |all| == 2 then None
      else
        SkipBlanksShrinks(rest[1..]);
        ReadName(all, SkipBlanks(rest[1..]))
  }

  function ReadArgs(parts: seq<string>, s: string): Option<Name> {
    if s == "" then Some(Name(parts, None))
    else if HasPrefix(s, '(') && HasSuffix(s, ')') then Some(Name(parts, Some(s[1..|s| - 1])))
    else None
  }

  lemma SkipBlanksShrinks(s: string)
    ensures |SkipBlanks(s)| <= |s|
  {
  }

  function SplitName(s: string): Option<Name> {
    ReadName([], TrimSpace(s))
  }

  /** splitPgName. */
  method SplitPgName(text: string) returns (name: Option<Name>)
    ensures name == SplitName(text)
  {
    var s := TrimSpace(text);
    var parts: seq<string> := [];
    while true
      invariant |parts| < 2
      invariant ReadName(parts, s) == SplitName(text)
      decreases |s|
    {
      var id := "";
      ghost var before := s;
      if HasPrefix(s, '"') {
        var closed, i;
        closed, id, i := ScanQuoted(s);
        if !closed {
          return None;
        }
        s := s[i..];
      } else {
        var end := NameEnd(s);
        id, s := TrimSpace(s[..end]), s[end..];
      }
      if id == "" {
        return None;
      }
      assert ReadIdent(before) == Some(Read(id, s));
      parts := parts + [id];
      SkipBlanksShrinks(s);
      s := SkipBlanks(s);
      if !HasPrefix(s, '.') {
        break;
      }
      if |parts| == 2 {
        return None;
      }
      SkipBlanksShrinks(s[1..]);
      s := SkipBlanks(s[1..]);
    }
    if s == "" {
      return Some(Name(parts, None));
    }
    if HasPrefix(s, '(') && HasSuffix(s, ')') {
      return Some(Name(parts, Some(s[1..|s| - 1])));
    }
    return None;
  }

  /** The scan of a quoted identifier: what it holds, and the index past it. */
  method ScanQuoted(s: string) returns (closed: bool, b: string, i: nat)
    requires HasPrefix(s, '"')
    ensures closed <==> ReadQuoted(s[1..]).Some?
    ensures closed ==> i <= |s| && ReadQuoted(s[1..]) == Some(Read(b, s[i..]))
  {
    b, i := "", 1;
    PrefixedNothing(ReadQuoted(s[1..]));
    while true
      invariant 1 <= i <= |s|
      invariant Prefixed(b, ReadQuoted(s[i..])) == ReadQuoted(s[1..])
      decreases |s| - i
    {
      var j := IndexOf(s[i..], '"');
      assert |s[i..]| == |s| - i && '"' !in s[i..][..j];
      UpToQuote(b, s, i, j);
      if i + j == |s| {
        return false, "", 0;
      }
      b, i := b + s[i..i + j], i + j + 1;
      AtQuote(b, s, i - 1);
      if !HasPrefix(s[i..], '"') {
        return true, b, i;
      }
      b := b + "\"";
      i := i + 1;
    }
  }

  lemma UpToQuote(b: string, s: string, i: nat, j: nat)
    requires i + j <= |s| && '"' !in s[i..][..j]
    ensures Prefixed(b, ReadQuoted(s[i..])) == Prefixed(b + s[i..i + j], ReadQuoted(s[i + j..]))
    ensures i + j == |s| ==> ReadQuoted(s[i..]).None?
  {
    ReadPlain(s[i..], j);
    assert s[i..][..j] == s[i..i + j] && s[i..][j..] == s[i + j..];
    PrefixedTwice(b, s[i..i + j], ReadQuoted(s[i + j..]));
  }

  lemma AtQuote(b: string, s: string, i: nat)
    requires i < |s| && s[i] == '"'
    ensures Prefixed(b, ReadQuoted(s[i..])) ==
            if HasPrefix(s[i + 1..], '"') then Prefixed(b + "\"", ReadQuoted(s[i + 2..])) else Some(Read(b, s[i + 1..]))
  {
    assert s[i..][1..] == s[i + 1..];
    if HasPrefix(s[i + 1..], '"') {
      assert s[i..][2..] == s[i + 2..];
      PrefixedTwice(b, "\"", ReadQuoted(s[i + 2..]));
    } else {
      assert b + "" == b;
    }
  }

  function Prefixed(b: string, r: Option<Read>): Option<Read> {
    if r.None? then None else Some(Read(b + r.value.id, r.value.rest))
  }

  lemma PrefixedNothing(r: Option<Read>)
    ensures Prefixed("", r) == r
  {
    if r.Some? {
      assert "" + r.value.id == r.value.id;
    }
  }

  lemma PrefixedTwice(a: string, b: string, r: Option<Read>)
    ensures Prefixed(a + b, r) == Prefixed(a, Prefixed(b, r))
  {
    if r.Some? {
      assert (a + b) + r.value.id == a + (b + r.value.id);
    }
  }

  /** Up to the first quote, a quoted identifier is taken as it is. */
  lemma {:induction false} ReadPlain(s: string, j: nat)
    requires j <= |s| && '"' !in s[..j]
    ensures ReadQuoted(s) == Prefixed(s[..j], ReadQuoted(s[j..]))
    ensures j == |s| ==> ReadQuoted(s).None?
  {
    if j == 0 {
      assert s[0..] == s && s[..0] == "";
      PrefixedNothing(ReadQuoted(s));
    } else {
      assert s[0] == s[..j][0] && s[1..][..j - 1] == s[..j][1..] && s[1..][j - 1..] == s[j..];
      ReadPlain(s[1..], j - 1);
      PrefixedTwice([s[0]], s[1..][..j - 1], ReadQuoted(s[j..]));
      assert s[..j] == [s[0]] + s[1..][..j - 1];
    }
  }

  // ---- a written name is read back ----

  /** An identifier as the inventories print it: quoted, or bare as quote_ident
      leaves a plain one. */
  datatype Ident = Ident(text: string, quoted: bool)

  /** What can be left unquoted. */
  predicate Bare(s: string) {
    s != "" && !Space(s[0]) && !Space(s[|s| - 1]) && s[0] != '"' && '.' !in s && '(' !in s
  }

  predicate Printable(i: Ident) {
    i.text != "" && (i.quoted || Bare(i.text))
  }

  function Show(i: Ident): string {
    if i.quoted then Quote(i.text) else i.text
  }

  /** A name as printed: schema, name and arguments, of which the first and last
      may be missing. */
  function ShowName(schema: Option<Ident>, name: Ident, args: Option<string>): string {
    (if schema.Some? then Show(schema.value) + "." else "") + Show(name) + if args.Some? then "(" + args.value + ")" else ""
  }

  lemma {:induction false} ReadDoubled(name: string, rest: string)
    requires !HasPrefix(rest, '"')
    ensures ReadQuoted(Doubled(name) + "\"" + rest) == Some(Read(name, rest))
  {
    if name == "" {
      assert ("" + "\"" + rest)[1..] == rest;
    } else {
      var next := Doubled(name[1..]) + "\"" + rest;
      ReadDoubled(name[1..], rest);
      ReadDoubledFirst(name[0], next);
      Regrouped(if name[0] == '"' then "\"\"" else [name[0]], Doubled(name[1..]), rest);
      assert name == [name[0]] + name[1..];
    }
  }

  lemma Regrouped(first: string, d: string, rest: string)
    ensures (first + d) + "\"" + rest == first + (d + "\"" + rest)
  {
  }

  lemma ReadDoubledFirst(c: char, next: string)
    ensures ReadQuoted((if c == '"' then "\"\"" else [c]) + next) == Before(c, ReadQuoted(next))
  {
    if c == '"' {
      var s := "\"\"" + next;
      assert s[2..] == next && s[1..][0] == '"';
    } else {
      assert ([c] + next)[1..] == next;
    }
  }

  /** What may come after an identifier. */
  predicate Ends(rest: string) {
    rest == "" || rest[0] == '.' || rest[0] == '('
  }

  lemma {:induction false} NameEndAt(id: string, rest: string)
    requires '.' !in id && '(' !in id && Ends(rest)
    ensures NameEnd(id + rest) == |id|
  {
    if id == "" {
      assert id + rest == rest;
    } else {
      assert (id + rest)[1..] == id[1..] + rest;
      NameEndAt(id[1..], rest);
    }
  }

  lemma ReadQuote(text: string, rest: string)
    requires text != "" && Ends(rest)
    ensures ReadIdent(Quote(text) + rest) == Some(Read(text, rest))
  {
    ReadDoubled(text, rest);
    InQuotes(Doubled(text), rest);
  }

  lemma InQuotes(d: string, rest: string)
    ensures var s := "\"" + d + "\"" + rest; HasPrefix(s, '"') && s[1..] == d + "\"" + rest
  {
    assert "\"" + d + "\"" + rest == "\"" + (d + "\"" + rest);
  }

  lemma ReadBare(text: string, rest: string)
    requires Bare(text) && Ends(rest)
    ensures ReadIdent(text + rest) == Some(Read(text, rest))
  {
    var s := text + rest;
    NameEndAt(text, rest);
    TrimKeepsEnds(text);
    assert s[0] == text[0];
    assert s[..|text|] == text && s[|text|..] == rest;
  }

  /** An identifier printed either way is read back. */
  lemma ReadShown(i: Ident, rest: string)
    requires Printable(i) && Ends(rest)
    ensures ReadIdent(Show(i) + rest) == Some(Read(i.text, rest))
  {
    if i.quoted {
      ReadQuote(i.text, rest);
    } else {
      ReadBare(i.text, rest);
    }
  }

  /** The end of a name: the last identifier and the arguments. */
  lemma ReadEnd(parts: seq<string>, name: Ident, args: Option<string>)
    requires Printable(name)
    ensures ReadName(parts, ShowName(None, name, args)) == Some(Name(parts + [name.text], args))
  {
    var rest := if args.Some? then "(" + args.value + ")" else "";
    assert ShowName(None, name, args) == Show(name) + rest;
    ReadShown(name, rest);
    if args.Some? {
      assert rest[1..|rest| - 1] == args.value;
    }
  }

  lemma ShowEnds(i: Ident)
    requires Printable(i)
    ensures Show(i) != "" && !Space(Show(i)[0]) && !Space(Show(i)[|Show(i)| - 1])
  {
  }

  lemma TrimKeepsEnds(s: string)
    requires s != "" && !Space(s[0]) && !Space(s[|s| - 1])
    ensures TrimSpace(s) == s
  {
  }

  lemma ShowNameTrims(schema: Option<Ident>, name: Ident, args: Option<string>)
    requires Printable(name) && (schema.Some? ==> Printable(schema.value))
    ensures TrimSpace(ShowName(schema, name, args)) == ShowName(schema, name, args)
  {
    var s := ShowName(schema, name, args);
    var first := if schema.Some? then Show(schema.value) else Show(name);
    ShowEnds(name);
    if schema.Some? {
      ShowEnds(schema.value);
    }
    assert first <= s && s[0] == first[0];
    assert s[|s| - 1] == if args.Some? then ')' else Show(name)[|Show(name)| - 1];
    TrimKeepsEnds(s);
  }

  lemma ReadBoth(schema: Ident, name: Ident, args: Option<string>)
    requires Printable(name) && Printable(schema)
    ensures ReadName([], ShowName(Some(schema), name, args)) == Some(Name([schema.text, name.text], args))
  {
    var tail := ShowName(None, name, args);
    ShowParts(schema, name, args);
    ReadSchema(schema, tail);
    ReadEnd([schema.text], name, args);
    assert [schema.text] + [name.text] == [schema.text, name.text];
  }

  lemma ShowParts(schema: Ident, name: Ident, args: Option<string>)
    requires Printable(name)
    ensures var tail := ShowName(None, name, args);
            ShowName(Some(schema), name, args) == Show(schema) + ("." + tail) && tail != "" && !Space(tail[0])
  {
    var rest := if args.Some? then "(" + args.value + ")" else "";
    ShowEnds(name);
    assert ShowName(None, name, args) == Show(name) + rest;
  }

  lemma ReadSchema(schema: Ident, tail: string)
    requires Printable(schema) && tail != "" && !Space(tail[0])
    ensures ReadName([], Show(schema) + ("." + tail)) == ReadName([schema.text], tail)
  {
    ReadShown(schema, "." + tail);
    assert ("." + tail)[1..] == tail;
    assert [] + [schema.text] == [schema.text];
    assert SkipBlanks("." + tail) == "." + tail && SkipBlanks(tail) == tail;
  }

  /** Splitting inverts printing: whatever the identifiers hold, quotes, dots and
      parentheses included, and whatever the arguments are. */
  lemma SplitInvertsShow(schema: Option<Ident>, name: Ident, args: Option<string>)
    requires Printable(name) && (schema.Some? ==> Printable(schema.value))
    ensures SplitName(ShowName(schema, name, args)) ==
            Some(Name(if schema.Some? then [schema.value.text, name.text] else [name.text], args))
  {
    ShowNameTrims(schema, name, args);
    if schema.Some? {
      ReadBoth(schema.value, name, args);
    } else {
      ReadEnd([], name, args);
      assert [] + [name.text] == [name.text];
    }
  }

  // ---- blanks, and names that are none ----

  predicate Blank(s: string) {
    forall i :: 0 <= i < |s| ==> s[i] == ' '
  }

  predicate AllSpace(s: string) {
    forall i :: 0 <= i < |s| ==> Space(s[i])
  }

  lemma {:induction false} BlanksSkipped(b: string, rest: string)
    requires Blank(b) && (rest == "" || rest[0] != ' ')
    ensures SkipBlanks(b + rest) == rest
  {
    if b == "" {
      assert b + rest == rest;
    } else {
      assert (b + rest)[1..] == b[1..] + rest;
      BlanksSkipped(b[1..], rest);
    }
  }

  lemma {:induction false} SpaceSkipped(l: string, s: string)
    requires AllSpace(l) && (s == "" || !Space(s[0]))
    ensures SkipSpace(l + s) == s
  {
    if l == "" {
      assert l + s == s;
    } else {
      assert (l + s)[1..] == l[1..] + s;
      SpaceSkipped(l[1..], s);
    }
  }

  lemma {:induction false} SpaceDropped(s: string, r: string)
    requires AllSpace(r) && (s == "" || !Space(s[|s| - 1]))
    ensures DropSpace(s + r) == s
  {
    if r == "" {
      assert s + r == s;
    } else {
      assert (s + r)[..|s + r| - 1] == s + r[..|r| - 1];
      SpaceDropped(s, r[..|r| - 1]);
    }
  }

  /** Space around a text is trimmed. */
  lemma SpaceTrims(l: string, s: string, r: string)
    requires AllSpace(l) && AllSpace(r) && s != "" && !Space(s[0]) && !Space(s[|s| - 1])
    ensures TrimSpace(l + s + r) == s
  {
    assert l + s + r == l + (s + r) && (s + r)[0] == s[0];
    SpaceSkipped(l, s + r);
    SpaceDropped(s, r);
  }

  /** An identifier and blanks, up to what ends it. */
  lemma ReadSpaced(i: Ident, b: string, rest: string)
    requires Printable(i) && Blank(b) && Ends(rest)
    ensures ReadIdent(Show(i) + (b + rest)).Some?
    ensures var r := ReadIdent(Show(i) + (b + rest)).value; r.id == i.text && SkipBlanks(r.rest) == rest
  {
    var s := Show(i) + (b + rest);
    BlanksSkipped(b, rest);
    if i.quoted {
      if b + rest == "" || Ends(b + rest) {
        ReadQuote(i.text, b + rest);
      } else {
        ReadDoubled(i.text, b + rest);
        InQuotes(Doubled(i.text), b + rest);
      }
    } else {
      var word := i.text + b;
      assert '.' !in b && '(' !in b;
      assert s == word + rest && s[0] == i.text[0];
      NameEndAt(word, rest);
      assert s[..|word|] == word && s[|word|..] == rest;
      SpaceTrims("", i.text, b);
      assert "" + i.text + b == word;
      BlanksSkipped("", rest);
      assert "" + rest == rest;
    }
  }

  /** A printed name with blanks before its dot and after it. */
  lemma SpacedDotReads(schema: Ident, a: string, b: string, name: Ident, args: Option<string>)
    requires Printable(schema) && Printable(name) && Blank(a) && Blank(b)
    ensures ReadName([], Show(schema) + (a + ("." + (b + ShowName(None, name, args))))) == Some(Name([schema.text, name.text], args))
  {
    var tail := ShowName(None, name, args);
    var rest := "." + (b + tail);
    ShowParts(schema, name, args);
    ReadSpaced(schema, a, rest);
    assert rest[1..] == b + tail;
    assert tail[0] != ' ';
    BlanksSkipped(b, tail);
    assert [] + [schema.text] == [schema.text];
    ReadEnd([schema.text], name, args);
    assert [schema.text] + [name.text] == [schema.text, name.text];
  }

  /** A printed name with blanks before its arguments. */
  lemma SpacedArgsRead(name: Ident, b: string, args: string)
    requires Printable(name) && Blank(b)
    ensures ReadName([], Show(name) + (b + ("(" + args + ")"))) == Some(Name([name.text], Some(args)))
  {
    var rest := "(" + args + ")";
    ReadSpaced(name, b, rest);
    assert rest[1..|rest| - 1] == args;
    assert [] + [name.text] == [name.text];
  }

  /** Blanks about the dot and before the arguments, and space around it all, are no
      part of a name. */
  lemma SplitSkipsBlanks(l: string, schema: Ident, a: string, b: string, name: Ident, args: string, r: string)
    requires AllSpace(l) && AllSpace(r) && Blank(a) && Blank(b) && Printable(schema) && Printable(name)
    ensures SplitName(l + (Show(schema) + (a + ("." + (b + ShowName(None, name, Some(args)))))) + r) == Some(Name([schema.text, name.text], Some(args)))
    ensures SplitName(l + (Show(name) + (b + ("(" + args + ")"))) + r) == Some(Name([name.text], Some(args)))
  {
    ShowEnds(schema);
    ShowEnds(name);
    var dotted, plain := Show(schema) + (a + ("." + (b + ShowName(None, name, Some(args))))), Show(name) + (b + ("(" + args + ")"));
    SpaceTrims(l, dotted, r);
    SpaceTrims(l, plain, r);
    SpacedDotReads(schema, a, b, name, Some(args));
    SpacedArgsRead(name, b, args);
  }

  /** No name has three parts; none goes on after its identifier with anything but a
      dot or arguments, and its arguments are closed. */
  lemma SplitRefuses(first: Ident, second: Ident, third: string, name: string, rest: string)
    requires Printable(first) && Printable(second) && name != ""
    requires rest != "" && rest[0] !in {'"', ' ', '.'} && (rest[0] == '(' ==> rest[|rest| - 1] != ')')
    ensures ReadName([], Show(first) + ("." + (Show(second) + ("." + third)))).None?
    ensures ReadName([], Quote(name) + rest).None?
  {
    ShowEnds(second);
    ReadSchema(first, Show(second) + ("." + third));
    ReadShown(second, "." + third);
    assert SkipBlanks("." + third) == "." + third;
    assert |[first.text] + [second.text]| == 2;
    ReadDoubled(name, rest);
    InQuotes(Doubled(name), rest);
  }

  lemma NothingQuoted()
    ensures ReadIdent("\"\"").None?
  {
    assert "\"\""[1..] == "\"";
  }

  /** A table's qualified name is read back, unless the table has no name. */
  lemma QualifiedReadsBack(t: Table)
    ensures SplitName(Qualified(t)) ==
            if t.name == "" then None else Some(Name(if t.schema == "" then [t.name] else [t.schema, t.name], None))
  {
    var name := Ident(t.name, true);
    var schema := if t.schema == "" then None else Some(Ident(t.schema, true));
    assert Qualified(t) == ShowName(schema, name, None);
    if t.name != "" {
      SplitInvertsShow(schema, name, None);
    } else {
      var s, none := Qualified(t), "\"\"";
      assert Quote("") == none;
      TrimKeepsEnds(s);
      NothingQuoted();
      if schema.Some? {
        NothingAfterSchema(schema.value);
        assert s == Show(schema.value) + ("." + none);
      }
    }
  }

  lemma NothingAfterSchema(schema: Ident)
    requires Printable(schema)
    ensures ReadName([], Show(schema) + ("." + "\"\"")).None?
  {
    NothingQuoted();
    ReadSchema(schema, "\"\"");
  }

  // ---- the arguments ----

  /** Where the first word ends. */
  function WordEnd(s: string): (n: nat)
    ensures n <= |s|
    ensures s != "" && !Space(s[0]) ==> n > 0
  {
    if s == "" || Space(s[0]) then 0 else 1 + WordEnd(s[1..])
  }

  /** strings.Fields. */
  function Fields(s: string): seq<string> {
    if s == "" then []
    else if Space(s[0]) then Fields(s[1..])
    else [s[..WordEnd(s)]] + Fields(s[WordEnd(s)..])
  }

  /** strings.EqualFold(s, "IN"). */
  predicate IsIn(s: string) {
    |s| == 2 && (s[0] == 'I' || s[0] == 'i') && (s[1] == 'N' || s[1] == 'n')
  }

  /** An argument's words, without the IN mode. */
  function ArgWords(arg: string): seq<string> {
    var fields := Fields(arg);
    if |fields| > 1 && IsIn(fields[0]) then fields[1..] else fields
  }

  /** What an argument list says: each argument's words. */
  function ArgList(args: seq<string>): (r: seq<seq<string>>)
    ensures |r| == |args| && forall i :: 0 <= i < |args| ==> r[i] == ArgWords(args[i])
  {
    if args == [] then [] else [ArgWords(args[0])] + ArgList(args[1..])
  }

  function Words(list: seq<seq<string>>): (r: seq<string>)
    ensures |r| == |list| && forall i :: 0 <= i < |list| ==> r[i] == Join(list[i], ' ')
  {
    if list == [] then [] else [Join(list[0], ' ')] + Words(list[1..])
  }

  /** strings.Join(list, ", "). */
  function CommaJoin(list: seq<string>): string {
    if list == [] then "" else if |list| == 1 then list[0] else list[0] + ", " + CommaJoin(list[1..])
  }

  function Normalize(args: string): string {
    CommaJoin(Words(ArgList(Split(args, ','))))
  }

  /** normalizePgArgs. */
  method NormalizePgArgs(args: string) returns (r: string)
    ensures r == Normalize(args)
  {
    var parts := Split(args, ',');
    var list := new string[|parts|](k requires 0 <= k < |parts| => parts[k]);
    var i := 0;
    while i < list.Length
      invariant 0 <= i <= list.Length
      invariant forall k :: 0 <= k < i ==> list[k] == Join(ArgWords(parts[k]), ' ')
      invariant forall k :: i <= k < list.Length ==> list[k] == parts[k]
    {
      var fields := Fields(list[i]);
      if |fields| > 1 && IsIn(fields[0]) {
        fields := fields[1..];
      }
      list[i] := Join(fields, ' ');
      i := i + 1;
    }
    assert list[..] == Words(ArgList(parts));
    if list.Length == 1 && list[0] == "" {
      return "";
    }
    r := CommaJoin(list[..]);
  }

  predicate IsWord(s: string) {
    s != "" && forall i :: 0 <= i < |s| ==> !Space(s[i]) && s[i] != ','
  }

  ghost predicate AreWords(fs: seq<string>) {
    forall f :: f in fs ==> IsWord(f)
  }

  lemma {:induction false} WordEndAt(word: string, rest: string)
    requires (forall i :: 0 <= i < |word| ==> !Space(word[i])) && (rest == "" || Space(rest[0]))
    ensures WordEnd(word + rest) == |word|
  {
    if word == "" {
      assert word + rest == rest;
    } else {
      assert (word + rest)[1..] == word[1..] + rest;
      WordEndAt(word[1..], rest);
    }
  }

  lemma {:induction false} FieldsOfJoin(fs: seq<string>)
    requires AreWords(fs)
    ensures Fields(Join(fs, ' ')) == fs
  {
    if fs != [] {
      assert fs[0] in fs;
      var rest := if |fs| == 1 then "" else " " + Join(fs[1..], ' ');
      var s := Join(fs, ' ');
      assert s == fs[0] + rest;
      WordEndAt(fs[0], rest);
      assert s[..|fs[0]|] == fs[0] && s[|fs[0]|..] == rest;
      assert forall f :: f in fs[1..] ==> f in fs;
      FieldsOfJoin(fs[1..]);
      assert rest != "" ==> rest[1..] == Join(fs[1..], ' ');
      assert fs == [fs[0]] + fs[1..];
    }
  }

  lemma {:induction false} FieldsAreWords(s: string)
    requires ',' !in s
    ensures AreWords(Fields(s))
  {
    if s != "" {
      if Space(s[0]) {
        FieldsAreWords(s[1..]);
      } else {
        var n := WordEnd(s);
        WordIsWord(s);
        assert forall i :: 0 <= i < n ==> s[i] != ',';
        FieldsAreWords(s[n..]);
      }
    }
  }

  lemma {:induction false} WordIsWord(s: string)
    ensures forall i :: 0 <= i < WordEnd(s) ==> !Space(s[i])
  {
    if s != "" && !Space(s[0]) {
      WordIsWord(s[1..]);
    }
  }

  lemma {:induction false} JoinHasNoComma(fs: seq<string>)
    requires AreWords(fs)
    ensures ',' !in Join(fs, ' ')
  {
    if fs != [] {
      assert fs[0] in fs && forall f :: f in fs[1..] ==> f in fs;
      JoinHasNoComma(fs[1..]);
    }
  }

  /** Reads a normalised list back: the words of each argument. */
  function ReadWords(parts: seq<string>): seq<seq<string>> {
    if parts == [] then [] else [Fields(parts[0])] + ReadWords(parts[1..])
  }

  lemma ReadBlankFirst(s: string)
    ensures ReadWords(Split(" " + s, ',')) == ReadWords(Split(s, ','))
  {
    var parts := Split(s, ',');
    assert (" " + s)[1..] == s;
    assert Split(" " + s, ',') == [" " + parts[0]] + parts[1..];
    assert (" " + parts[0])[1..] == parts[0];
    assert ([" " + parts[0]] + parts[1..])[1..] == parts[1..];
  }

  lemma {:induction false} CommaJoinReads(list: seq<seq<string>>)
    requires list != [] && forall fs :: fs in list ==> AreWords(fs)
    ensures ReadWords(Split(CommaJoin(Words(list)), ',')) == list
  {
    var first := Join(list[0], ' ');
    assert list[0] in list;
    FieldsOfJoin(list[0]);
    JoinHasNoComma(list[0]);
    SplitOne(first, ',');
    assert list == [list[0]] + list[1..];
    if |list| > 1 {
      assert forall fs :: fs in list[1..] ==> fs in list;
      CommaJoinReads(list[1..]);
      var rest := CommaJoin(Words(list[1..]));
      ReadBlankFirst(rest);
      CommaJoinAt(list);
      SplitAt(first, " " + rest, ',');
      ReadWordsFirst(first, Split(" " + rest, ','));
    } else {
      ReadWordsFirst(first, []);
      assert Words(list)[0] == first;
    }
  }

  lemma ReadWordsFirst(first: string, tail: seq<string>)
    ensures ReadWords([first] + tail) == [Fields(first)] + ReadWords(tail)
  {
    assert ([first] + tail)[1..] == tail;
  }

  lemma CommaJoinAt(list: seq<seq<string>>)
    requires |list| > 1
    ensures CommaJoin(Words(list)) == Join(list[0], ' ') + [','] + (" " + CommaJoin(Words(list[1..])))
  {
    assert Words(list)[1..] == Words(list[1..]);
    CommaJoinFirst(Words(list));
  }

  lemma CommaJoinFirst(list: seq<string>)
    requires |list| > 1
    ensures CommaJoin(list) == list[0] + [','] + (" " + CommaJoin(list[1..]))
  {
  }

  /** The normal form holds the words of every argument and nothing else. */
  lemma NormalizeReads(args: string)
    ensures ReadWords(Split(Normalize(args), ',')) == ArgList(Split(args, ','))
  {
    var parts := Split(args, ',');
    forall fs | fs in ArgList(parts) ensures AreWords(fs) {
      var i :| 0 <= i < |parts| && ArgList(parts)[i] == fs;
      FieldsAreWords(parts[i]);
      assert forall f :: f in fs ==> f in Fields(parts[i]);
    }
    CommaJoinReads(ArgList(parts));
  }

  /** Two argument lists have one normal form iff they agree word by word, argument
      by argument, the IN mode left out: spacing does not matter, and all else
      does. */
  lemma NormalizeCompares(a: string, b: string)
    ensures Normalize(a) == Normalize(b) <==> ArgList(Split(a, ',')) == ArgList(Split(b, ','))
  {
    NormalizeReads(a);
    NormalizeReads(b);
  }

  lemma FieldsAfterWord(m: string, fs: seq<string>)
    requires IsWord(m) && AreWords(fs) && fs != []
    ensures Fields(m + " " + Join(fs, ' ')) == [m] + fs
  {
    var all := [m] + fs;
    assert all[1..] == fs;
    assert Join(all, ' ') == m + [' '] + Join(fs, ' ');
    FieldsOfJoin(all);
  }

  /** A word before an argument's others makes no difference iff it is the IN mode,
      in any case of its letters. */
  lemma OnlyInIsDropped(m: string, fs: seq<string>)
    requires IsWord(m) && AreWords(fs) && fs != []
    requires |fs| > 1 ==> fs[0] !in {"IN", "In", "iN", "in"}
    ensures Normalize(m + " " + Join(fs, ' ')) == Normalize(Join(fs, ' ')) <==> m in {"IN", "In", "iN", "in"}
  {
    var a, b := m + " " + Join(fs, ' '), Join(fs, ' ');
    InByText(m);
    InByText(fs[0]);
    FieldsAfterWord(m, fs);
    FieldsOfJoin(fs);
    assert ([m] + fs)[1..] == fs;
    JoinHasNoComma([m] + fs);
    JoinHasNoComma(fs);
    NormalizeCompares(a, b);
    SplitOne(a, ',');
    SplitOne(b, ',');
    assert ArgList([a]) == [ArgWords(a)] && ArgList([b]) == [ArgWords(b)];
  }

  lemma InByText(s: string)
    ensures IsIn(s) <==> s in {"IN", "In", "iN", "in"}
  {
    if |s| == 2 {
      assert s == [s[0], s[1]];
    }
  }

  // ---- which objects a rule takes ----

  /** PgRoutineRuleMatches. */
  predicate RoutineRuleMatches(rule: string, schema: string, name: string, args: string) {
    || rule == name || rule == schema + "." + name
    || (var n := SplitName(rule);
        && n.Some?
        && (n.value.parts == [name] || n.value.parts == [schema, name])
        && (n.value.args.Some? ==> Normalize(n.value.args.value) == Normalize(args)))
  }

  /** ObjectNameMatches; routine says the rule is for functions or procedures. */
  predicate ObjectNameMatches(postgres: bool, routine: bool, rule: string, inventory: string) {
    || rule == inventory
    || (postgres
        && var n := SplitName(inventory);
        && n.Some?
        && if |n.value.parts| == 1 then rule == n.value.parts[0]
           else if |n.value.parts| != 2 then false
           else if routine then n.value.args.Some? && RoutineRuleMatches(rule, n.value.parts[0], n.value.parts[1], n.value.args.value)
           else n.value.args.None? && (rule == n.value.parts[1] || rule == n.value.parts[0] + "." + n.value.parts[1]))
  }

  /** A rule and a routine, by what they split into. */
  lemma RuleBySplit(rule: string, inventory: string, parts: seq<string>, rargs: Option<string>, s: string, n: string, args: string)
    requires SplitName(rule) == Some(Name(parts, rargs)) && SplitName(inventory) == Some(Name([s, n], Some(args)))
    ensures ObjectNameMatches(true, true, rule, inventory) <==>
            || rule == n || rule == s + "." + n
            || ((parts == [n] || parts == [s, n]) && (rargs.Some? ==> ArgList(Split(rargs.value, ',')) == ArgList(Split(args, ','))))
  {
    if rargs.Some? {
      NormalizeCompares(rargs.value, args);
    }
  }

  predicate SameName(rs: Option<Ident>, rn: Ident, s: Ident, n: Ident) {
    (rs.Some? ==> rs.value.text == s.text) && rn.text == n.text
  }

  /** A routine rule takes a routine of the inventory iff the identifiers are the
      same and, where the rule has a signature, the arguments agree; however either
      side is quoted, spaced and moded. Apart from that, a rule that is itself the
      bare text of the name, or of schema and name, takes every overload. */
  lemma RoutineRuleExactly(rs: Option<Ident>, rn: Ident, rargs: Option<string>, s: Ident, n: Ident, args: string)
    requires Printable(rn) && Printable(s) && Printable(n) && (rs.Some? ==> Printable(rs.value))
    ensures var rule := ShowName(rs, rn, rargs);
            ObjectNameMatches(true, true, rule, ShowName(Some(s), n, Some(args))) <==>
            || rule == n.text || rule == s.text + "." + n.text
            || (SameName(rs, rn, s, n) && (rargs.Some? ==> ArgList(Split(rargs.value, ',')) == ArgList(Split(args, ','))))
  {
    var rule, inventory := ShowName(rs, rn, rargs), ShowName(Some(s), n, Some(args));
    SplitInvertsShow(rs, rn, rargs);
    SplitInvertsShow(Some(s), n, Some(args));
    RuleBySplit(rule, inventory, if rs.Some? then [rs.value.text, rn.text] else [rn.text], rargs, s.text, n.text, args);
  }

  /** A rule for tables or views takes an object of the inventory iff it is the
      printed name, or the bare text of the name, or of schema and name; and never,
      by less than the printed name, what has a signature. */
  lemma TableRuleExactly(rule: string, s: Option<Ident>, n: Ident, args: Option<string>)
    requires Printable(n) && (s.Some? ==> Printable(s.value))
    ensures var inventory := ShowName(s, n, args);
            ObjectNameMatches(true, false, rule, inventory) <==>
            || rule == inventory
            || (s.None? && rule == n.text)
            || (s.Some? && args.None? && (rule == n.text || rule == s.value.text + "." + n.text))
  {
    SplitInvertsShow(s, n, args);
  }

  /** A routine rule takes no object without a signature by less than its printed
      name, unless that has no schema either. */
  lemma RoutineRuleNeedsSignature(rule: string, s: Option<Ident>, n: Ident)
    requires Printable(n) && (s.Some? ==> Printable(s.value))
    ensures var inventory := ShowName(s, n, None);
            ObjectNameMatches(true, true, rule, inventory) <==> rule == inventory || (s.None? && rule == n.text)
  {
    SplitInvertsShow(s, n, None);
  }

  /** Other databases' names are compared as they are. */
  lemma OthersCompareText(routine: bool, rule: string, inventory: string)
    ensures ObjectNameMatches(false, routine, rule, inventory) <==> rule == inventory
  {
  }

  /** Where the bare text is at fault: a routine whose name is spelt like another's
      signature is taken by that other's rule. */
  lemma BareTextTakesAnother(s: string)
    requires s != ""
    ensures ObjectNameMatches(true, true, "f(x)", ShowName(Some(Ident(s, true)), Ident("f(x)", true), Some("y")))
  {
    SplitInvertsShow(Some(Ident(s, true)), Ident("f(x)", true), Some("y"));
  }
}
