/** The encrypted, token-named index over one shared bucket. */
module Stores {
  import opened Basics
  import opened Paths
  import opened Keys
  import opened Crypto
  import opened Tokens
  import opened Blobs
  import opened Rekeys

  /** A stored object: its bytes, and the sealed name kept in its metadata when
      that is there and readable. */
  datatype Object = Object(data: Bytes, mirror: Option<Bytes>)

  type Objects = map<Text, Object>

  datatype Info = Info(stored: Text, size: nat, mirror: Option<Bytes>)

  datatype Listed = Listed(key: Text, stored: Text, size: nat)

  // ---------------------------------------------------------------- each operation

  function StoredName(s: Suite, keys: Lists, key: Text): Result<Text, StoreError>
    requires ValidLists(keys)
  {
    if ValidKey(key) then Ok(TokenPath(s, keys.nameKeys[0].key, key)) else Err(InvalidKey)
  }

  function ReadObject(s: Suite, keys: Lists, objects: Objects, key: Text): Result<Bytes, StoreError>
    requires ValidLists(keys)
  {
    match StoredName(s, keys, key)
    case Err(e) => Err(e)
    case Ok(stored) =>
      if stored !in objects then Err(NotFound) else Open(s, keys.keks, key, objects[stored].data)
  }

  function WriteObject(s: Suite, keys: Lists, objects: Objects, key: Text, data: Bytes, d: Draw)
    : (Objects, Option<StoreError>)
    requires ValidLists(keys)
  {
    match StoredName(s, keys, key)
    case Err(e) => (objects, Some(e))
    case Ok(stored) =>
      match Seal(s, keys.keks[0].id, keys.keks[0].key, keys.nameKeys[0].key, stored, key, data, d)
      case Err(e) => (objects, Some(e))
      case Ok((blob, name)) => (objects[stored := Object(blob, Some(name))], None)
  }

  function DeleteObject(s: Suite, keys: Lists, objects: Objects, key: Text): (Objects, Option<StoreError>)
    requires ValidLists(keys)
  {
    match StoredName(s, keys, key)
    case Err(e) => (objects, Some(e))
    case Ok(stored) => (objects - {stored}, None)
  }

  function RekeyObject(s: Suite, keys: Lists, objects: Objects, key: Text, nonce: Bytes)
    : (Objects, Result<bool, StoreError>)
    requires ValidLists(keys)
  {
    match StoredName(s, keys, key)
    case Err(e) => (objects, Err(e))
    case Ok(stored) =>
      if stored !in objects then (objects, Err(NotFound))
      else match Rekey(s, keys.keks, objects[stored].data, nonce)
      case Err(e) => (objects, Err(e))
      case Ok(None) => (objects, Ok(false))
      case Ok(Some(up)) => (objects[stored := Object(up.data, Some(up.mirror))], Ok(true))
  }

  /** An entry's logical name: from the metadata mirror if that opens, otherwise
      from the object's own header. A header that does not parse is damage; one
      whose name does not open was written under other keys. */
  function LogicalName(s: Suite, nameKey: Bytes, stored: Text, o: Object): Result<Text, StoreError> {
    if o.mirror.Some? && OpenName(s, nameKey, stored, o.mirror.value).Some?
    then Ok(OpenName(s, nameKey, stored, o.mirror.value).value)
    else match ParseHeader(o.data[..HeadLen(o.data)])
    case Err(e) => Err(e)
    case Ok(h) =>
      match OpenName(s, nameKey, stored, h.sealedName)
      case None => Err(Foreign)
      case Some(name) => Ok(name)
  }

  /** An object whose own bytes give it no header within the first 1168 of them. */
  ghost predicate Headless(data: Bytes) { forall n :: !Heads(data[..Min(|data|, 1168)], n) }

  /** The three things that can be made of an object's name: its mirror's, when that opens;
      else its header's, when that does; else it is damaged when it has no header, and
      written under other keys when it has one. */
  lemma NamingIs(s: Suite, nameKey: Bytes, stored: Text, o: Object)
    ensures
      var name := LogicalName(s, nameKey, stored, o);
      var mirrored := o.mirror.Some? && OpenName(s, nameKey, stored, o.mirror.value).Some?;
      var head := o.data[..Min(|o.data|, 1168)];
      && (mirrored ==> name == Ok(OpenName(s, nameKey, stored, o.mirror.value).value))
      && (name == Err(Integrity) <==> !mirrored && Headless(o.data))
      && (forall n :: !mirrored && Heads(head, n) ==>
            name == match OpenName(s, nameKey, stored, head[75..75 + n]) { case Some(key) => Ok(key) case None => Err(Foreign) })
  {
    hide OpenName, ParseHeader;
    assert o.data[..HeadLen(o.data)] == o.data[..Min(|o.data|, 1168)];
    HeadsIff(o.data[..Min(|o.data|, 1168)]);
  }

  /** A rekey says whether it moved the object: exactly when its header did not already
      name the active key, and then it does. */
  lemma RekeyTells(s: Suite, keys: Lists, objects: Objects, key: Text, nonce: Bytes)
    requires ValidLists(keys) && RekeyObject(s, keys, objects, key, nonce).1.Ok?
    ensures ValidKey(key) && TokenPath(s, keys.nameKeys[0].key, key) in objects
    ensures
      var (objects', moved) := RekeyObject(s, keys, objects, key, nonce);
      var stored := TokenPath(s, keys.nameKeys[0].key, key);
      && |objects[stored].data| >= 75
      && (moved.value <==> objects[stored].data[5..13] != keys.keks[0].id)
      && (!moved.value ==> objects' == objects)
      && stored in objects' && |objects'[stored].data| >= 13 && objects'[stored].data[5..13] == keys.keks[0].id
  {
    hide ValidKey, TokenPath, ValidEntries, Unwrap, KnownFormat, SealedNameOf;
    var data := objects[TokenPath(s, keys.nameKeys[0].key, key)].data;
    assert |data| >= 75 && data[..HeadLen(data)][5..13] == data[5..13];
    if data[5..13] != keys.keks[0].id {
      var head := data[..HeadLen(data)];
      var prefix := RekeyPrefix(s, keys.keks, keys.keks[0].id, keys.keks[0].key, head, nonce).value;
      assert prefix[5..13] == keys.keks[0].id;
      assert Overlay(data, prefix)[5..13] == prefix[5..13];
    }
  }

  // ---------------------------------------------------------------- byte order

  predicate LexLe(a: Text, b: Text) {
    a == [] || (b != [] && (a[0] < b[0] || (a[0] == b[0] && LexLe(a[1..], b[1..]))))
  }

  lemma {:induction false} LexTotal(a: Text, b: Text)
    ensures LexLe(a, b) || LexLe(b, a)
    ensures LexLe(a, b) && LexLe(b, a) ==> a == b
  {
    if a != [] && b != [] {
      LexTotal(a[1..], b[1..]);
      assert a == [a[0]] + a[1..] && b == [b[0]] + b[1..];
    }
  }

  lemma {:induction false} LexTransitive(a: Text, b: Text, c: Text)
    requires LexLe(a, b) && LexLe(b, c)
    ensures LexLe(a, c)
  {
    if a != [] && a[0] == b[0] && b[0] == c[0] {
      LexTransitive(a[1..], b[1..], c[1..]);
    }
  }

  /** The first place where two texts differ, and how. */
  predicate DiffersAt(a: Text, b: Text, i: nat) { i < |a| && i < |b| && a[..i] == b[..i] && a[i] < b[i] }

  lemma DiffersLater(a: Text, b: Text, i: nat)
    requires a != [] && b != [] && a[0] == b[0]
    ensures DiffersAt(a[1..], b[1..], i) <==> DiffersAt(a, b, i + 1)
  {
    if i < |a[1..]| && i < |b[1..]| {
      assert a[..i + 1] == [a[0]] + a[1..][..i] && b[..i + 1] == [b[0]] + b[1..][..i];
      assert a[1..][..i] == a[..i + 1][1..] && b[1..][..i] == b[..i + 1][1..];
    }
  }

  /** Where the first bytes differ, nothing differs first later on. */
  lemma DiffersNow(a: Text, b: Text, i: nat)
    requires a != [] && b != [] && DiffersAt(a, b, i)
    ensures i > 0 ==> a[0] == b[0]
  {
    assert i > 0 ==> a[0] == a[..i][0] && b[0] == b[..i][0];
  }

  /** Byte order: a beginning comes first, and otherwise the first byte that differs
      decides. */
  lemma {:induction false} LexLeIff(a: Text, b: Text)
    ensures LexLe(a, b) <==> a <= b || exists i :: DiffersAt(a, b, i)
  {
    if a != [] && b != [] {
      if a[0] == b[0] {
        LexLeIff(a[1..], b[1..]);
        if i: nat :| DiffersAt(a[1..], b[1..], i) { DiffersLater(a, b, i); }
        if i: nat :| DiffersAt(a, b, i) { DiffersLater(a, b, i - 1); }
        assert a == [a[0]] + a[1..] && b == [b[0]] + b[1..];
      } else {
        assert a[0] < b[0] ==> DiffersAt(a, b, 0);
        if i: nat :| DiffersAt(a, b, i) { DiffersNow(a, b, i); }
      }
    }
  }

  ghost predicate SortedByKey(entries: seq<Listed>) {
    forall i, j :: 0 <= i < j < |entries| ==> LexLe(entries[i].key, entries[j].key)
  }

  lemma Placed(sorted: seq<Listed>, at: nat, e: Listed)
    requires SortedByKey(sorted) && at <= |sorted|
    requires at > 0 ==> LexLe(sorted[at - 1].key, e.key)
    requires at < |sorted| ==> LexLe(e.key, sorted[at].key)
    ensures SortedByKey(sorted[..at] + [e] + sorted[at..])
  {
    hide LexLe;
    forall i | 0 <= i < at
      ensures LexLe(sorted[i].key, e.key)
    {
      if i < at - 1 { LexTransitive(sorted[i].key, sorted[at - 1].key, e.key); }
    }
    forall i | at <= i < |sorted|
      ensures LexLe(e.key, sorted[i].key)
    {
      if i > at { LexTransitive(e.key, sorted[at].key, sorted[i].key); }
    }
    var r := sorted[..at] + [e] + sorted[at..];
    forall i, j | 0 <= i < j < |r|
      ensures LexLe(r[i].key, r[j].key)
    {
      assert r[i] == if i < at then sorted[i] else if i == at then e else sorted[i - 1];
      assert r[j] == if j < at then sorted[j] else if j == at then e else sorted[j - 1];
    }
  }

  lemma PlacedKeeps(sorted: seq<Listed>, at: nat, e: Listed)
    requires at <= |sorted|
    ensures multiset(sorted[..at] + [e] + sorted[at..]) == multiset(sorted) + multiset{e}
  {
    assert sorted == sorted[..at] + sorted[at..];
  }

  /** Put an entry into its place. */
  method Insert(sorted: seq<Listed>, e: Listed) returns (r: seq<Listed>)
    requires SortedByKey(sorted)
    ensures SortedByKey(r) && multiset(r) == multiset(sorted) + multiset{e}
  {
    hide LexLe, SortedByKey;
    var at := |sorted|;
    while at > 0 && !LexLe(sorted[at - 1].key, e.key)
      invariant 0 <= at <= |sorted|
      invariant at < |sorted| ==> LexLe(e.key, sorted[at].key)
    {
      at := at - 1;
      LexTotal(sorted[at].key, e.key);
    }
    Placed(sorted, at, e);
    PlacedKeeps(sorted, at, e);
    r := sorted[..at] + [e] + sorted[at..];
  }

  method Sort(entries: seq<Listed>) returns (r: seq<Listed>)
    ensures SortedByKey(r) && multiset(r) == multiset(entries)
  {
    r := [];
    for i := 0 to |entries|
      invariant SortedByKey(r) && multiset(r) == multiset(entries[..i])
    {
      assert entries[..i + 1] == entries[..i] + [entries[i]];
      r := Insert(r, entries[i]);
    }
    assert entries[..|entries|] == entries;
  }

  // ---------------------------------------------------------------- the bucket

  /** What a listing of a stored prefix returns: each object under it once. */
  ghost predicate IsListing(objects: Objects, prefix: Text, infos: seq<Info>) {
    && (forall i, j :: 0 <= i < j < |infos| ==> infos[i].stored != infos[j].stored)
    && (forall i :: 0 <= i < |infos| ==>
          && infos[i].stored in objects && prefix <= infos[i].stored
          && infos[i] == Info(infos[i].stored, |objects[infos[i].stored].data|, objects[infos[i].stored].mirror))
    && (forall stored :: stored in objects && prefix <= stored ==>
          exists i :: 0 <= i < |infos| && infos[i].stored == stored)
  }

  /** The provider's side: whole-object operations, each atomic. */
  class Bucket {
    var objects: Objects

    constructor ()
      ensures objects == map[]
    {
      objects := map[];
    }

    method Get(stored: Text) returns (o: Option<Object>)
      ensures o == if stored in objects then Some(objects[stored]) else None
    {
      o := if stored in objects then Some(objects[stored]) else None;
    }

    method Put(stored: Text, o: Object)
      modifies this
      ensures objects == old(objects)[stored := o]
    {
      objects := objects[stored := o];
    }

    method Delete(stored: Text)
      modifies this
      ensures objects == old(objects) - {stored}
    {
      objects := objects - {stored};
    }

    method List(prefix: Text) returns (infos: seq<Info>)
      ensures IsListing(objects, prefix, infos)
    {
      infos := [];
      var rest := objects.Keys;
      while rest != {}
        invariant rest <= objects.Keys
        invariant forall i, j :: 0 <= i < j < |infos| ==> infos[i].stored != infos[j].stored
        invariant forall i :: 0 <= i < |infos| ==>
          && infos[i].stored in objects && infos[i].stored !in rest && prefix <= infos[i].stored
          && infos[i] == Info(infos[i].stored, |objects[infos[i].stored].data|, objects[infos[i].stored].mirror)
        invariant forall stored :: stored in objects && stored !in rest && prefix <= stored ==>
          exists i :: 0 <= i < |infos| && infos[i].stored == stored
        decreases rest
      {
        var stored :| stored in rest;
        ghost var before := infos;
        if prefix <= stored {
          infos := infos + [Info(stored, |objects[stored].data|, objects[stored].mirror)];
          assert infos[|before|].stored == stored;
        }
        assert forall i :: 0 <= i < |before| ==> infos[i] == before[i];
        rest := rest - {stored};
      }
    }
  }

  // ---------------------------------------------------------------- the store

  /** An object a listing of this prefix shows, and the name it shows it under. */
  predicate Shows(s: Suite, nameKey: Bytes, objects: Objects, prefix: Text, stored: Text, key: Text) {
    && stored in objects && TokenPrefix(s, nameKey, prefix) <= stored
    && LogicalName(s, nameKey, stored, objects[stored]) == Ok(key) && prefix <= key
  }

  /** An object a listing of this prefix cannot name. */
  predicate Fails(s: Suite, nameKey: Bytes, objects: Objects, prefix: Text, stored: Text) {
    && stored in objects && TokenPrefix(s, nameKey, prefix) <= stored
    && LogicalName(s, nameKey, stored, objects[stored]).Err?
  }

  /** A listing's answer: sorted, every object shown once, and every object that
      could not be named reported. */
  ghost predicate ListsPrefix(s: Suite, nameKey: Bytes, objects: Objects, prefix: Text,
                              entries: seq<Listed>, failures: seq<Text>)
  {
    && SortedByKey(entries)
    && (forall i, j :: 0 <= i < j < |entries| ==> entries[i].stored != entries[j].stored)
    && (forall e :: e in entries ==> Shows(s, nameKey, objects, prefix, e.stored, e.key) && e.size == |objects[e.stored].data|)
    && (forall stored, key :: Shows(s, nameKey, objects, prefix, stored, key) ==>
          Listed(key, stored, |objects[stored].data|) in entries)
    && (forall stored :: stored in failures <==> Fails(s, nameKey, objects, prefix, stored))
  }

  class Store {
    const bucket: Bucket
    const suite: Suite
    const keys: Lists

    constructor (bucket: Bucket, suite: Suite, keys: Lists)
      ensures this.bucket == bucket && this.suite == suite && this.keys == keys
    {
      this.bucket, this.suite, this.keys := bucket, suite, keys;
    }

    /** There is no store over keys that are not usable. */
    static method New(bucket: Bucket, suite: Suite, keys: Lists) returns (store: Store?)
      ensures store != null <==> ValidLists(keys)
      ensures store != null ==> store.bucket == bucket && store.suite == suite && store.keys == keys
    {
      if !ValidLists(keys) { return null; }
      store := new Store(bucket, suite, keys);
    }

    method Read(key: Text) returns (r: Result<Bytes, StoreError>)
      requires ValidLists(keys)
      ensures r == ReadObject(suite, keys, bucket.objects, key)
    {
      var stored := StoredName(suite, keys, key);
      if stored.Err? { return Err(stored.error); }
      var o := bucket.Get(stored.value);
      if o.None? { return Err(NotFound); }
      r := Open(suite, keys.keks, key, o.value.data);
    }

    method Write(key: Text, data: Bytes, d: Draw) returns (failed: Option<StoreError>)
      requires ValidLists(keys)
      modifies bucket
      ensures (bucket.objects, failed) == WriteObject(suite, keys, old(bucket.objects), key, data, d)
    {
      var stored := StoredName(suite, keys, key);
      if stored.Err? { return Some(stored.error); }
      var kek := keys.keks[0];
      var sealedBlob := Seal(suite, kek.id, kek.key, keys.nameKeys[0].key, stored.value, key, data, d);
      if sealedBlob.Err? { return Some(sealedBlob.error); }
      bucket.Put(stored.value, Object(sealedBlob.value.0, Some(sealedBlob.value.1)));
      failed := None;
    }

    method Delete(key: Text) returns (failed: Option<StoreError>)
      requires ValidLists(keys)
      modifies bucket
      ensures (bucket.objects, failed) == DeleteObject(suite, keys, old(bucket.objects), key)
    {
      var stored := StoredName(suite, keys, key);
      if stored.Err? { return Some(stored.error); }
      bucket.Delete(stored.value);
      failed := None;
    }

    method Rekey(key: Text, nonce: Bytes) returns (r: Result<bool, StoreError>)
      requires ValidLists(keys) && SealsAndOpens(suite) && |nonce| == NONCE_LEN
      modifies bucket
      ensures (bucket.objects, r) == RekeyObject(suite, keys, old(bucket.objects), key, nonce)
    {
      var stored := StoredName(suite, keys, key);
      if stored.Err? { return Err(stored.error); }
      var o := bucket.Get(stored.value);
      if o.None? { return Err(NotFound); }
      var up := RekeyStream(suite, keys.keks, o.value.data, nonce);
      if up.Err? { return Err(up.error); }
      if up.value.None? { return Ok(false); }
      bucket.Put(stored.value, Object(up.value.value.data, Some(up.value.value.mirror)));
      r := Ok(true);
    }

    /** The keys under a prefix, sorted, and the stored names nothing could be
        made of. */
    method ListEntries(prefix: Text) returns (entries: seq<Listed>, failures: seq<Text>)
      requires ValidLists(keys)
      ensures ListsPrefix(suite, keys.nameKeys[0].key, bucket.objects, prefix, entries, failures)
    {
      hide LogicalName, TokenPrefix, LexLe;
      var nameKey := keys.nameKeys[0].key;
      var objects := bucket.objects;
      var infos := bucket.List(TokenPrefix(suite, nameKey, prefix));
      var found: seq<Listed> := [];
      failures := [];
      for i := 0 to |infos|
        invariant forall e :: e in found ==>
          Shows(suite, nameKey, objects, prefix, e.stored, e.key) && e.size == |objects[e.stored].data|
        invariant forall e :: e in found ==> exists j :: 0 <= j < i && infos[j].stored == e.stored
        invariant forall m, n :: 0 <= m < n < |found| ==> found[m].stored != found[n].stored
        invariant forall j, key :: 0 <= j < i && Shows(suite, nameKey, objects, prefix, infos[j].stored, key) ==>
          Listed(key, infos[j].stored, |objects[infos[j].stored].data|) in found
        invariant forall stored :: stored in failures ==> Fails(suite, nameKey, objects, prefix, stored)
        invariant forall j :: 0 <= j < i && Fails(suite, nameKey, objects, prefix, infos[j].stored) ==>
          infos[j].stored in failures
      {
        var stored := infos[i].stored;
        var name := LogicalName(suite, nameKey, stored, objects[stored]);
        if name.Err? {
          failures := failures + [stored];
        } else if prefix <= name.value {
          found := found + [Listed(name.value, stored, infos[i].size)];
        }
      }
      hide Shows, Fails, SortedByKey;
      entries := Sort(found);
      SameEntries(found, entries);
      StoredApart(found, entries);
    }
  }

  lemma SameEntries(a: seq<Listed>, b: seq<Listed>)
    requires multiset(a) == multiset(b)
    ensures forall e :: e in b <==> e in a
  {
    forall e
      ensures e in b <==> e in a
    {
      assert e in multiset(b) <==> e in multiset(a);
    }
  }

  /** Reordering keeps entries apart. */
  lemma StoredApart(a: seq<Listed>, b: seq<Listed>)
    requires multiset(a) == multiset(b)
    requires forall i, j :: 0 <= i < j < |a| ==> a[i].stored != a[j].stored
    ensures forall i, j :: 0 <= i < j < |b| ==> b[i].stored != b[j].stored
  {
    forall i, j | 0 <= i < j < |b|
      ensures b[i].stored != b[j].stored
    {
      OnceIsOnce(a, b[i]);
      OnceIsOnce(a, b[j]);
      if b[i] == b[j] { TwiceIsTwo(b, i, j); }
      assert b[i] in multiset(a) && b[j] in multiset(a);
    }
  }

  lemma {:induction false} OnceIsOnce(a: seq<Listed>, e: Listed)
    requires forall i, j :: 0 <= i < j < |a| ==> a[i].stored != a[j].stored
    ensures multiset(a)[e] <= 1
  {
    if a != [] {
      var init := a[..|a| - 1];
      assert a == init + [a[|a| - 1]];
      OnceIsOnce(init, e);
      if a[|a| - 1] == e {
        assert forall i :: 0 <= i < |init| ==> init[i] != e;
      }
    }
  }

  lemma TwiceIsTwo(b: seq<Listed>, i: nat, j: nat)
    requires i < j < |b| && b[i] == b[j]
    ensures multiset(b)[b[i]] >= 2
  {
    assert b == b[..j] + [b[j]] + b[j + 1..];
    assert b[i] == b[..j][i];
  }
}
