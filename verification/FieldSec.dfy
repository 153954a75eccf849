/** Encrypting chosen fields of a JSON document, and decrypting them again
    (data-mig/storagex/fieldsec). */
module FieldSec {
  import opened Options
  import opened Paths

  /** A decoded JSON value; Other is a number, a boolean, null or an array. */
  datatype Value = Text(text: string) | Object(fields: Fields) | Other(id: nat)

  type Fields = map<string, Value>

  // ---- one field (path.go) ----

  function Get(m: Fields, parts: seq<string>): Option<string>
    decreases |parts|
  {
    if parts == [] || parts[0] !in m then None
    else
      match m[parts[0]]
      case Text(text) => if |parts| == 1 then Some(text) else None
      case Object(fields) => Get(fields, parts[1..])
      case Other(_) => None
  }

  /** getFieldByPath. */
  method GetFieldByPath(m: Fields, path: string) returns (r: Option<string>)
    ensures r == Get(m, Split(path, '.'))
  {
    var parts := Split(path, '.');
    var current := Object(m);
    var i := 0;
    while i < |parts|
      invariant 0 <= i <= |parts|
      invariant i < |parts| ==> current.Object? || Get(m, parts) == None
      invariant i < |parts| && current.Object? ==> Get(current.fields, parts[i..]) == Get(m, parts)
      invariant i == |parts| ==> Get(m, parts) == if current.Text? then Some(current.text) else None
    {
      if !current.Object? || parts[i] !in current.fields {
        return None;
      }
      current := current.fields[parts[i]];
      assert parts[i..][1..] == parts[i + 1..];
      i := i + 1;
    }
    return if current.Text? then Some(current.text) else None;
  }

  /** setFieldByPath, on values: None where it returns false. */
  function Set(m: Fields, parts: seq<string>, text: string): Option<Fields>
    requires parts != []
    decreases |parts|
  {
    if parts[0] !in m then None
    else if |parts| == 1 then Some(m[parts[0] := Text(text)])
    else if !m[parts[0]].Object? then None
    else
      var inner := Set(m[parts[0]].fields, parts[1..], text);
      if inner.None? then None else Some(m[parts[0] := Object(inner.value)])
  }

  /** After a successful get, set succeeds; it changes that field, no other, and
      not the shape of the document. */
  lemma {:induction false} SetAfterGet(m: Fields, parts: seq<string>, text: string)
    requires parts != [] && Get(m, parts).Some?
    ensures Set(m, parts, text).Some?
    ensures forall q :: Get(Set(m, parts, text).value, q) == if q == parts then Some(text) else Get(m, q)
    ensures SameShape(Object(m), Object(Set(m, parts, text).value))
    decreases |parts|
  {
    var p := parts[0];
    if |parts| > 1 {
      var inner := m[p].fields;
      SetAfterGet(inner, parts[1..], text);
      var m' := Set(m, parts, text).value;
      forall q ensures Get(m', q) == if q == parts then Some(text) else Get(m, q) {
        if q != [] && q[0] == p {
          assert q == [p] + q[1..] && parts == [p] + parts[1..];
        }
      }
    }
    ShapeIsItself(Object(m));
    forall k | k in m ensures SameShape(m[k], m[k]) {
      ShapeIsItself(m[k]);
    }
  }

  // ---- the shape of a document ----

  /** The same but for the texts. */
  predicate SameShape(a: Value, b: Value) {
    match a
    case Text(_) => b.Text?
    case Other(_) => b == a
    case Object(fields) => b.Object? && b.fields.Keys == fields.Keys && forall k :: k in fields ==> SameShape(fields[k], b.fields[k])
  }

  lemma {:induction false} ShapeIsItself(a: Value)
    ensures SameShape(a, a)
  {
    if a.Object? {
      forall k | k in a.fields ensures SameShape(a.fields[k], a.fields[k]) {
        ShapeIsItself(a.fields[k]);
      }
    }
  }

  lemma {:induction false} ShapeOfShape(a: Value, b: Value, c: Value)
    requires SameShape(a, b) && SameShape(b, c)
    ensures SameShape(a, c)
  {
    if a.Object? {
      forall k | k in a.fields ensures SameShape(a.fields[k], c.fields[k]) {
        ShapeOfShape(a.fields[k], b.fields[k], c.fields[k]);
      }
    }
  }

  /** The shape and the texts are the document. */
  lemma {:induction false} ShapeAndTexts(a: Fields, b: Fields)
    requires SameShape(Object(a), Object(b))
    requires forall q :: Get(a, q) == Get(b, q)
    ensures a == b
    decreases Object(a)
  {
    forall k | k in a ensures a[k] == b[k] {
      assert SameShape(a[k], b[k]);
      match a[k]
      case Text(_) =>
        assert Get(a, [k]) == Get(b, [k]);
      case Other(_) =>
      case Object(inner) =>
        forall q ensures Get(inner, q) == Get(b[k].fields, q) {
          assert Get(a, [k] + q) == Get(b, [k] + q);
          assert ([k] + q)[1..] == q;
        }
        ShapeAndTexts(inner, b[k].fields);
    }
  }

  // ---- the field loops ----

  /** A cipher: enc's number tells one call from another, as a nonce does. Either
      may fail. */
  datatype Cipher = Cipher(enc: (string, nat) -> Option<string>, dec: string -> Option<string>)

  ghost predicate Inverse(c: Cipher) {
    forall text, i :: c.enc(text, i).Some? ==> c.enc(text, i).value != "" && c.dec(c.enc(text, i).value) == Some(text)
  }

  /** One pass of a loop: what the field becomes, where it is to be changed. */
  function Change(c: Cipher, encrypt: bool, text: string, i: nat): Option<string> {
    if encrypt then c.enc(text, i) else c.dec(text)
  }

  /** The loops of Encrypt and of Decrypt, from field i on. */
  function EachField(c: Cipher, encrypt: bool, m: Fields, fields: seq<string>, i: nat): Option<Fields>
    requires i <= |fields|
    decreases |fields| - i
  {
    if i == |fields| then Some(m)
    else
      var parts := Split(fields[i], '.');
      var text := Get(m, parts);
      if text.None? || text.value == "" then EachField(c, encrypt, m, fields, i + 1)
      else
        var changed := Change(c, encrypt, text.value, i);
        if changed.None? then None
        else
          var m' := Set(m, parts, changed.value);
          if m'.None? then None else EachField(c, encrypt, m'.value, fields, i + 1)
  }

  function EncryptSpec(c: Cipher, m: Fields, fields: seq<string>, keyID: string, keyIDField: string): Option<Fields> {
    EachField(c, true, if keyIDField != "" && keyID != "" then m[keyIDField := Text(keyID)] else m, fields, 0)
  }

  function DecryptSpec(c: Cipher, m: Fields, fields: seq<string>, keyIDField: string): Option<Fields> {
    EachField(c, false, if keyIDField != "" then m[keyIDField := Text("")] else m, fields, 0)
  }

  /** Encrypt, on the decoded document. */
  method Encrypt(c: Cipher, doc: Fields, fields: seq<string>, keyID: string, keyIDField: string) returns (r: Option<Fields>)
    ensures r == EncryptSpec(c, doc, fields, keyID, keyIDField)
  {
    var m := doc;
    if keyIDField != "" && keyID != "" {
      m := m[keyIDField := Text(keyID)];
    }
    var i := 0;
    while i < |fields|
      invariant 0 <= i <= |fields|
      invariant EachField(c, true, m, fields, i) == EncryptSpec(c, doc, fields, keyID, keyIDField)
    {
      var value := GetFieldByPath(m, fields[i]);
      if value.Some? && value.value != "" {
        var encrypted := c.enc(value.value, i);
        if encrypted.None? {
          return None;
        }
        var m' := Set(m, Split(fields[i], '.'), encrypted.value);
        if m'.None? {
          return None;
        }
        m := m'.value;
      }
      i := i + 1;
    }
    return Some(m);
  }

  /** Decrypt, on the decoded document. */
  method Decrypt(c: Cipher, doc: Fields, fields: seq<string>, keyIDField: string) returns (r: Option<Fields>)
    ensures r == DecryptSpec(c, doc, fields, keyIDField)
  {
    var m := doc;
    if keyIDField != "" {
      m := m[keyIDField := Text("")];
    }
    var i := 0;
    while i < |fields|
      invariant 0 <= i <= |fields|
      invariant EachField(c, false, m, fields, i) == DecryptSpec(c, doc, fields, keyIDField)
    {
      var value := GetFieldByPath(m, fields[i]);
      if value.Some? && value.value != "" {
        var decrypted := c.dec(value.value);
        if decrypted.None? {
          return None;
        }
        var m' := Set(m, Split(fields[i], '.'), decrypted.value);
        if m'.None? {
          return None;
        }
        m := m'.value;
      }
      i := i + 1;
    }
    return Some(m);
  }

  // ---- decrypting undoes encrypting ----

  /** w is text, encrypted so many times over. */
  predicate Wrapped(c: Cipher, text: string, w: string, times: nat)
    decreases times
  {
    if times == 0 then w == text
    else w != "" && c.dec(w).Some? && Wrapped(c, text, c.dec(w).value, times - 1)
  }

  /** How often the field is listed from i on, and before i. */
  function Times(fields: seq<string>, q: seq<string>): nat {
    if fields == [] then 0 else (if Split(fields[0], '.') == q then 1 else 0) + Times(fields[1..], q)
  }

  predicate WrappedField(c: Cipher, plain: Option<string>, now: Option<string>, times: nat) {
    if plain.None? then now.None?
    else now.Some? && if plain.value == "" then now.value == "" else Wrapped(c, plain.value, now.value, times)
  }

  /** now is doc with every field wrapped as often as times lists it. */
  ghost predicate WrappedAll(c: Cipher, doc: Fields, now: Fields, times: seq<string>) {
    && SameShape(Object(doc), Object(now))
    && forall q :: WrappedField(c, Get(doc, q), Get(now, q), Times(times, q))
  }

  lemma {:induction false} TimesAppend(fields: seq<string>, f: string, q: seq<string>)
    ensures Times(fields + [f], q) == Times(fields, q) + if Split(f, '.') == q then 1 else 0
  {
    if fields == [] {
      assert fields + [f] == [f];
    } else {
      assert (fields + [f])[1..] == fields[1..] + [f];
      TimesAppend(fields[1..], f, q);
    }
  }

  /** A field that is missing or empty was so before, so wrapping leaves it. */
  lemma EmptyIsPlain(c: Cipher, plain: Option<string>, now: Option<string>, times: nat)
    requires WrappedField(c, plain, now, times) && (now.None? || now.value == "")
    ensures now == plain
  {
  }

  /** One pass of the loop of Encrypt wraps its field once more. */
  lemma EncryptStep(c: Cipher, doc: Fields, now: Fields, done: seq<string>, field: string, i: nat)
    requires Inverse(c) && WrappedAll(c, doc, now, done)
    ensures var parts := Split(field, '.');
            var text := Get(now, parts);
            if text.None? || text.value == "" then WrappedAll(c, doc, now, done + [field])
            else c.enc(text.value, i).Some? ==>
              Set(now, parts, c.enc(text.value, i).value).Some? && WrappedAll(c, doc, Set(now, parts, c.enc(text.value, i).value).value, done + [field])
  {
    var parts := Split(field, '.');
    var text := Get(now, parts);
    forall q ensures Times(done + [field], q) == Times(done, q) + if parts == q then 1 else 0 {
      TimesAppend(done, field, q);
    }
    if text.None? || text.value == "" {
      forall q ensures WrappedField(c, Get(doc, q), Get(now, q), Times(done + [field], q)) {
        assert WrappedField(c, Get(doc, q), Get(now, q), Times(done, q));
        if q == parts {
          EmptyIsPlain(c, Get(doc, q), text, Times(done, q));
        }
      }
    } else if c.enc(text.value, i).Some? {
      WrapOnce(c, doc, now, done, done + [field], parts, c.enc(text.value, i).value);
    }
  }

  lemma WrapOnce(c: Cipher, doc: Fields, now: Fields, done: seq<string>, more: seq<string>, parts: seq<string>, w: string)
    requires parts != [] && WrappedAll(c, doc, now, done)
    requires forall q :: Times(more, q) == Times(done, q) + if parts == q then 1 else 0
    requires Get(now, parts).Some? && Get(now, parts).value != "" && w != "" && c.dec(w) == Get(now, parts)
    ensures Set(now, parts, w).Some? && WrappedAll(c, doc, Set(now, parts, w).value, more)
  {
    SetAfterGet(now, parts, w);
    var next := Set(now, parts, w).value;
    ShapeOfShape(Object(doc), Object(now), Object(next));
    forall q ensures WrappedField(c, Get(doc, q), Get(next, q), Times(more, q)) {
      assert WrappedField(c, Get(doc, q), Get(now, q), Times(done, q));
    }
  }

  lemma {:induction false} EncryptWraps(c: Cipher, doc: Fields, now: Fields, fields: seq<string>, i: nat)
    requires Inverse(c) && i <= |fields| && WrappedAll(c, doc, now, fields[..i])
    ensures var r := EachField(c, true, now, fields, i); r.Some? ==> WrappedAll(c, doc, r.value, fields)
    decreases |fields| - i
  {
    if i < |fields| {
      var parts := Split(fields[i], '.');
      var text := Get(now, parts);
      EncryptStep(c, doc, now, fields[..i], fields[i], i);
      assert fields[..i] + [fields[i]] == fields[..i + 1];
      if text.None? || text.value == "" {
        EncryptWraps(c, doc, now, fields, i + 1);
      } else if c.enc(text.value, i).Some? {
        EncryptWraps(c, doc, Set(now, parts, c.enc(text.value, i).value).value, fields, i + 1);
      }
    } else {
      assert fields[..i] == fields;
    }
  }

  /** One pass of the loop of Decrypt takes a wrap off its field, and cannot fail. */
  lemma DecryptStep(c: Cipher, doc: Fields, now: Fields, field: string, rest: seq<string>)
    requires WrappedAll(c, doc, now, [field] + rest)
    ensures var parts := Split(field, '.');
            var text := Get(now, parts);
            if text.None? || text.value == "" then WrappedAll(c, doc, now, rest)
            else c.dec(text.value).Some? && Set(now, parts, c.dec(text.value).value).Some?
                 && WrappedAll(c, doc, Set(now, parts, c.dec(text.value).value).value, rest)
  {
    var parts := Split(field, '.');
    var text := Get(now, parts);
    var all := [field] + rest;
    assert all[1..] == rest;
    assert forall q :: Times(all, q) == Times(rest, q) + if parts == q then 1 else 0;
    assert WrappedField(c, Get(doc, parts), text, Times(all, parts));
    if text.None? || text.value == "" {
      forall q ensures WrappedField(c, Get(doc, q), Get(now, q), Times(rest, q)) {
        assert WrappedField(c, Get(doc, q), Get(now, q), Times(all, q));
      }
    } else {
      var w := c.dec(text.value).value;
      SetAfterGet(now, parts, w);
      var next := Set(now, parts, w).value;
      ShapeOfShape(Object(doc), Object(now), Object(next));
      forall q ensures WrappedField(c, Get(doc, q), Get(next, q), Times(rest, q)) {
        assert WrappedField(c, Get(doc, q), Get(now, q), Times(all, q));
      }
    }
  }

  lemma {:induction false} DecryptUnwraps(c: Cipher, doc: Fields, now: Fields, fields: seq<string>, i: nat)
    requires i <= |fields| && WrappedAll(c, doc, now, fields[i..])
    ensures EachField(c, false, now, fields, i) == Some(doc)
    decreases |fields| - i
  {
    if i < |fields| {
      var parts := Split(fields[i], '.');
      var text := Get(now, parts);
      assert fields[i..] == [fields[i]] + fields[i + 1..];
      DecryptStep(c, doc, now, fields[i], fields[i + 1..]);
      if text.None? || text.value == "" {
        DecryptUnwraps(c, doc, now, fields, i + 1);
      } else {
        DecryptUnwraps(c, doc, Set(now, parts, c.dec(text.value).value).value, fields, i + 1);
      }
    } else {
      forall q ensures Get(doc, q) == Get(now, q) {
        assert WrappedField(c, Get(doc, q), Get(now, q), Times([], q));
      }
      ShapeAndTexts(doc, now);
    }
  }

  lemma NothingWrapped(c: Cipher, doc: Fields)
    ensures WrappedAll(c, doc, doc, [])
  {
    ShapeIsItself(Object(doc));
  }

  /** Setting a top-level entry alike on both sides leaves the rest wrapped. */
  lemma ClearedAlike(c: Cipher, doc: Fields, now: Fields, times: seq<string>, key: string)
    requires WrappedAll(c, doc, now, times)
    ensures WrappedAll(c, doc[key := Text("")], now[key := Text("")], times)
  {
    var a, b := doc[key := Text("")], now[key := Text("")];
    assert forall k :: k in a ==> SameShape(a[k], b[k]);
    assert a.Keys == b.Keys;
    assert SameShape(Object(a), Object(b));
    forall q ensures WrappedField(c, Get(a, q), Get(b, q), Times(times, q)) {
      assert WrappedField(c, Get(doc, q), Get(now, q), Times(times, q));
    }
  }

  /** What an encrypted document holds: its shape is the document's, every text is
      wrapped as often as its field is listed, and all others are as they were. The
      key id stands in its entry as it is, unless that is listed as a field. */
  lemma EncryptedHolds(c: Cipher, doc: Fields, fields: seq<string>, keyID: string, keyIDField: string)
    requires Inverse(c) && EncryptSpec(c, doc, fields, keyID, keyIDField).Some?
    ensures var keyed := if keyIDField != "" && keyID != "" then doc[keyIDField := Text(keyID)] else doc;
            var e := EncryptSpec(c, doc, fields, keyID, keyIDField).value;
            && SameShape(Object(keyed), Object(e))
            && (forall q :: WrappedField(c, Get(keyed, q), Get(e, q), Times(fields, q)))
            && (keyIDField != "" && keyID != "" && Times(fields, [keyIDField]) == 0 ==> Get(e, [keyIDField]) == Some(keyID))
  {
    var keyed := if keyIDField != "" && keyID != "" then doc[keyIDField := Text(keyID)] else doc;
    NothingWrapped(c, keyed);
    EncryptWraps(c, keyed, keyed, fields, 0);
    var e := EncryptSpec(c, doc, fields, keyID, keyIDField).value;
    assert WrappedField(c, Get(keyed, [keyIDField]), Get(e, [keyIDField]), Times(fields, [keyIDField]));
  }

  /** A cipher whose every call succeeds on a text that is not empty. */
  ghost predicate Dependable(c: Cipher, fields: seq<string>) {
    forall text, i :: text != "" && 0 <= i < |fields| ==> c.enc(text, i).Some?
  }

  /** Only the cipher makes an encryption fail: a field that is missing, empty or no
      text is passed over. */
  lemma {:induction false} OnlyCipherFails(c: Cipher, m: Fields, fields: seq<string>, i: nat)
    requires Dependable(c, fields) && i <= |fields|
    ensures EachField(c, true, m, fields, i).Some?
    decreases |fields| - i
  {
    if i < |fields| {
      var parts := Split(fields[i], '.');
      var text := Get(m, parts);
      if text.None? || text.value == "" {
        OnlyCipherFails(c, m, fields, i + 1);
      } else {
        var changed := c.enc(text.value, i).value;
        SetAfterGet(m, parts, changed);
        OnlyCipherFails(c, Set(m, parts, changed).value, fields, i + 1);
      }
    }
  }

  /** Decrypting what was encrypted gives the document back, but for the key-id
      entry, which it clears: for every list of fields, however often one is
      listed, in whatever order, and whichever lie within one another or name the
      key-id entry itself. */
  lemma DecryptUndoesEncrypt(c: Cipher, doc: Fields, fields: seq<string>, keyID: string, keyIDField: string)
    requires Inverse(c) && EncryptSpec(c, doc, fields, keyID, keyIDField).Some?
    ensures DecryptSpec(c, EncryptSpec(c, doc, fields, keyID, keyIDField).value, fields, keyIDField) ==
            Some(if keyIDField != "" then doc[keyIDField := Text("")] else doc)
  {
    var keyed := if keyIDField != "" && keyID != "" then doc[keyIDField := Text(keyID)] else doc;
    var e := EncryptSpec(c, doc, fields, keyID, keyIDField).value;
    NothingWrapped(c, keyed);
    EncryptWraps(c, keyed, keyed, fields, 0);
    assert fields[0..] == fields;
    if keyIDField != "" {
      ClearedAlike(c, keyed, e, fields, keyIDField);
      assert keyed[keyIDField := Text("")] == doc[keyIDField := Text("")];
      DecryptUnwraps(c, doc[keyIDField := Text("")], e[keyIDField := Text("")], fields, 0);
    } else {
      DecryptUnwraps(c, doc, e, fields, 0);
    }
  }
}
