/** Several stores over one bucket are several maps: each operation of each store
    answers as its own map from logical keys to bytes would, and leaves every
    other store's map alone. */
module StoreRefines {
  import opened Basics
  import opened Paths
  import ScopeNames
  import opened Keys
  import MergeLaws
  import opened Crypto
  import opened Tokens
  import opened Blobs
  import opened Rekeys
  import opened Stores

  /** One key space: what its keys were last written with. */
  type Space = map<Text, Bytes>

  /** Key spaces, each known by its name key. */
  type Spaces = map<Bytes, Space>

  datatype Op =
    | Write(space: Bytes, key: Text, data: Bytes, draw: Draw)
    | Delete(space: Bytes, key: Text)
    | Read(space: Bytes, key: Text)
    | ListKeys(space: Bytes, prefix: Text)
    | Rewrap(space: Bytes, key: Text, nonce: Bytes)

  datatype Answer = Done | Value(data: Bytes) | Keys(keys: seq<Text>, clean: bool) | Failed(error: StoreError)

  // ---------------------------------------------------------------- plain maps

  function Apply(spaces: Spaces, op: Op): Spaces
    requires op.space in spaces
  {
    match op
    case Write(n, key, data, _) =>
      if ValidKey(key) && |data| <= MAX_PLAINTEXT then spaces[n := spaces[n][key := data]] else spaces
    case Delete(n, key) => if ValidKey(key) then spaces[n := spaces[n] - {key}] else spaces
    case _ => spaces
  }

  ghost predicate StrictlySorted(keys: seq<Text>) {
    forall i, j :: 0 <= i < j < |keys| ==> LexLe(keys[i], keys[j]) && keys[i] != keys[j]
  }

  predicate Alone(spaces: Spaces, n: Bytes) {
    forall other :: other in spaces && other != n ==> spaces[other] == map[]
  }

  /** The answer a map gives. A listing is clean unless the prefix has no complete
      segment to narrow it by and somebody else's objects are in the bucket. */
  ghost predicate Answers(spaces: Spaces, op: Op, a: Answer)
    requires op.space in spaces
  {
    match op
    case Write(n, key, data, _) =>
      a == if !ValidKey(key) then Failed(InvalidKey) else if |data| > MAX_PLAINTEXT then Failed(TooLarge) else Done
    case Delete(n, key) => a == if ValidKey(key) then Done else Failed(InvalidKey)
    case Read(n, key) =>
      a == if !ValidKey(key) then Failed(InvalidKey) else if key in spaces[n] then Value(spaces[n][key]) else Failed(NotFound)
    case Rewrap(n, key, _) =>
      a == if !ValidKey(key) then Failed(InvalidKey) else if key in spaces[n] then Done else Failed(NotFound)
    case ListKeys(n, prefix) =>
      && a.Keys? && StrictlySorted(a.keys)
      && (forall key :: key in a.keys <==> key in spaces[n] && prefix <= key)
      && (a.clean <==> Aligned(prefix) != [] || Alone(spaces, n))
  }

  // ---------------------------------------------------------------- what the bucket holds

  /** A sealed name made for this object under this name key. */
  ghost predicate Named(s: Suite, nameKey: Bytes, stored: Text, key: Text, name: Bytes) {
    && 44 <= |name| <= 1084 && |key| <= MAX_KEY_BYTES
    && name[NONCE_LEN..] == s.seal(NameCryptKey(s, nameKey, stored), name[..NONCE_LEN], PadName(key).value, stored)
  }

  ghost predicate Holds(s: Suite, keks: seq<Entry>, nameKey: Bytes, key: Text, data: Bytes, o: Object) {
    && Open(s, keks, key, o.data) == Ok(data)
    && ParseHeader(o.data).Ok? && o.mirror == Some(ParseHeader(o.data).value.sealedName)
    && Named(s, nameKey, TokenPath(s, nameKey, key), key, ParseHeader(o.data).value.sealedName)
  }

  ghost predicate At(s: Suite, spaces: Spaces, n: Bytes, key: Text, stored: Text) {
    n in spaces && key in spaces[n] && TokenPath(s, n, key) == stored
  }

  ghost predicate StoresOk(stores: map<Bytes, Lists>, spaces: Spaces) {
    spaces.Keys == stores.Keys && forall n :: n in stores ==> ValidLists(stores[n]) && stores[n].nameKeys[0].key == n
  }

  ghost predicate Kept(s: Suite, keks: seq<Entry>, objects: Objects, n: Bytes, key: Text, data: Bytes) {
    ValidKey(key) && TokenPath(s, n, key) in objects && Holds(s, keks, n, key, data, objects[TokenPath(s, n, key)])
  }

  ghost predicate AllKept(s: Suite, stores: map<Bytes, Lists>, spaces: Spaces, objects: Objects)
    requires spaces.Keys == stores.Keys
  {
    forall n, key :: n in spaces && key in spaces[n] ==> Kept(s, stores[n].keks, objects, n, key, spaces[n][key])
  }

  ghost predicate Covered(s: Suite, spaces: Spaces, objects: Objects) {
    forall stored :: stored in objects ==> exists n, key :: At(s, spaces, n, key, stored)
  }

  /** The bucket is exactly the spaces: each key at its own path, and nothing else. */
  ghost predicate Rel(s: Suite, stores: map<Bytes, Lists>, spaces: Spaces, objects: Objects) {
    StoresOk(stores, spaces) && AllKept(s, stores, spaces, objects) && Covered(s, spaces, objects)
  }

  lemma Length(stores: map<Bytes, Lists>, spaces: Spaces, n: Bytes)
    requires StoresOk(stores, spaces) && n in stores
    ensures |n| == KEY_BYTES
  {
    assert |stores[n].nameKeys[0].key| == KEY_LEN;
  }

  /** Two keys of these spaces share a path only if they are one key of one space. */
  lemma PathsApart(s: Suite, stores: map<Bytes, Lists>, spaces: Spaces, n: Bytes, key: Text, m: Bytes, other: Text)
    requires TokensAreNames(s) && StoresOk(stores, spaces) && n in stores && m in stores
    ensures TokenPath(s, n, key) == TokenPath(s, m, other) ==> n == m && key == other
  {
    hide TokenPath, StoresOk, TokensAreNames;
    Length(stores, spaces, n);
    Length(stores, spaces, m);
    if TokenPath(s, n, key) == TokenPath(s, m, other) {
      PathsAreInjective(s, n, key, m, other);
    }
  }

  /** A path is taken exactly when its own key space has the key. */
  lemma PathTakenIff(s: Suite, stores: map<Bytes, Lists>, spaces: Spaces, objects: Objects, n: Bytes, key: Text)
    requires Rel(s, stores, spaces, objects) && TokensAreNames(s) && n in stores
    ensures TokenPath(s, n, key) in objects <==> key in spaces[n]
  {
    hide TokenPath, Holds, StoresOk, TokensAreNames, ValidKey;
    assert spaces.Keys == stores.Keys by { SameSpaces(stores, spaces); }
    if TokenPath(s, n, key) in objects {
      var n', key' :| At(s, spaces, n', key', TokenPath(s, n, key));
      PathsApart(s, stores, spaces, n, key, n', key');
    }
    if key in spaces[n] {
      assert Kept(s, stores[n].keks, objects, n, key, spaces[n][key]);
    }
  }

  lemma SameSpaces(stores: map<Bytes, Lists>, spaces: Spaces)
    requires StoresOk(stores, spaces)
    ensures spaces.Keys == stores.Keys
  {
  }

  /** Every key but one is as it was when only that one's path changed. */
  lemma OthersKept(s: Suite, stores: map<Bytes, Lists>, spaces: Spaces, objects: Objects, n: Bytes, key: Text,
                   objects': Objects)
    requires Rel(s, stores, spaces, objects) && TokensAreNames(s) && n in stores
    requires forall p :: p in objects && p != TokenPath(s, n, key) ==> p in objects' && objects'[p] == objects[p]
    ensures forall m, other :: m in spaces && other in spaces[m] && (m, other) != (n, key) ==>
      Kept(s, stores[m].keks, objects', m, other, spaces[m][other])
  {
    hide TokenPath, Holds, TokensAreNames, ValidKey;
    forall m, other | m in spaces && other in spaces[m] && (m, other) != (n, key)
      ensures Kept(s, stores[m].keks, objects', m, other, spaces[m][other])
    {
      assert Kept(s, stores[m].keks, objects, m, other, spaces[m][other]);
      PathsApart(s, stores, spaces, n, key, m, other);
    }
  }

  lemma PutKeeps(s: Suite, stores: map<Bytes, Lists>, spaces: Spaces, objects: Objects, n: Bytes, key: Text, data: Bytes,
                 o: Object)
    requires Rel(s, stores, spaces, objects) && TokensAreNames(s) && n in stores && ValidKey(key)
    requires Holds(s, stores[n].keks, n, key, data, o)
    ensures AllKept(s, stores, spaces[n := spaces[n][key := data]], objects[TokenPath(s, n, key) := o])
  {
    hide TokenPath, Holds, TokensAreNames, ValidKey, ValidLists, StoresOk, AllKept, Covered;
    SameSpaces(stores, spaces);
    var spaces', objects' := spaces[n := spaces[n][key := data]], objects[TokenPath(s, n, key) := o];
    OthersKept(s, stores, spaces, objects, n, key, objects');
    assert Kept(s, stores[n].keks, objects', n, key, data);
    hide Kept;
    forall m, other | m in spaces' && other in spaces'[m]
      ensures Kept(s, stores[m].keks, objects', m, other, spaces'[m][other])
    {
      if m == n && other == key {
        assert spaces'[m][other] == data;
      } else {
        assert other in spaces[m] && spaces[m][other] == spaces'[m][other];
      }
    }
    KeptAll(s, stores, spaces', objects');
  }

  lemma KeptAll(s: Suite, stores: map<Bytes, Lists>, spaces: Spaces, objects: Objects)
    requires spaces.Keys == stores.Keys
    requires forall m, other :: m in spaces && other in spaces[m] ==> Kept(s, stores[m].keks, objects, m, other, spaces[m][other])
    ensures AllKept(s, stores, spaces, objects)
  {
  }

  /** One object put at its key's path. */
  lemma PutRefines(s: Suite, stores: map<Bytes, Lists>, spaces: Spaces, objects: Objects, n: Bytes, key: Text, data: Bytes,
                   o: Object)
    requires Rel(s, stores, spaces, objects) && TokensAreNames(s) && n in stores && ValidKey(key)
    requires Holds(s, stores[n].keks, n, key, data, o)
    ensures Rel(s, stores, spaces[n := spaces[n][key := data]], objects[TokenPath(s, n, key) := o])
  {
    hide TokenPath, Holds, TokensAreNames, ValidKey, ValidLists, AllKept, Covered;
    PutKeeps(s, stores, spaces, objects, n, key, data, o);
    PutCovers(s, spaces, objects, n, key, data, o);
  }

  lemma PutCovers(s: Suite, spaces: Spaces, objects: Objects, n: Bytes, key: Text, data: Bytes, o: Object)
    requires Covered(s, spaces, objects) && n in spaces
    ensures Covered(s, spaces[n := spaces[n][key := data]], objects[TokenPath(s, n, key) := o])
  {
    hide TokenPath;
    var path := TokenPath(s, n, key);
    var spaces', objects' := spaces[n := spaces[n][key := data]], objects[path := o];
    assert At(s, spaces', n, key, path);
    forall stored | stored in objects' && stored != path
      ensures exists m, other :: At(s, spaces', m, other, stored)
    {
      var m, other :| At(s, spaces, m, other, stored);
      assert At(s, spaces', m, other, stored);
    }
  }

  lemma DeleteRefines(s: Suite, stores: map<Bytes, Lists>, spaces: Spaces, objects: Objects, n: Bytes, key: Text)
    requires Rel(s, stores, spaces, objects) && TokensAreNames(s) && n in stores
    ensures Rel(s, stores, spaces[n := spaces[n] - {key}], objects - {TokenPath(s, n, key)})
  {
    hide TokenPath, Kept, TokensAreNames, ValidLists;
    var path := TokenPath(s, n, key);
    var spaces', objects' := spaces[n := spaces[n] - {key}], objects - {path};
    OthersKept(s, stores, spaces, objects, n, key, objects');
    forall stored | stored in objects'
      ensures exists m, other :: At(s, spaces', m, other, stored)
    {
      var m, other :| At(s, spaces, m, other, stored);
      assert At(s, spaces', m, other, stored);
    }
  }

  // ---------------------------------------------------------------- names in the bucket

  /** A write's object is held, and named for its key. */
  lemma SealHolds(s: Suite, keys: Lists, key: Text, data: Bytes, d: Draw)
    requires SealsAndOpens(s) && GoodDraw(d) && ValidLists(keys) && ValidKey(key) && |data| <= MAX_PLAINTEXT
    ensures
      var n := keys.nameKeys[0].key;
      var r := Seal(s, keys.keks[0].id, keys.keks[0].key, n, TokenPath(s, n, key), key, data, d);
      r.Ok? && Holds(s, keys.keks, n, key, data, Object(r.value.0, Some(r.value.1)))
  {
    var n, kek := keys.nameKeys[0].key, keys.keks[0];
    var stored := TokenPath(s, n, key);
    assert Lookup(keys.keks, kek.id) == Some(kek.key) && |kek.key| == KEY_BYTES;
    OpenInvertsSeal(s, keys.keks, kek.id, kek.key, n, stored, key, data, d);
    NameOpens(s, n, stored, key, d.nameNonce);
    var name := SealName(s, n, stored, key, d.nameNonce).value;
    assert name[..NONCE_LEN] == d.nameNonce;
    assert name[NONCE_LEN..] == s.seal(NameCryptKey(s, n, stored), d.nameNonce, PadName(key).value, stored);
  }

  /** A name opens under its own name key and no other. */
  lemma NamedOpensOnlyOwn(s: Suite, nameKeys: set<Bytes>, n: Bytes, m: Bytes, stored: Text, key: Text, name: Bytes)
    requires Ideal(s, nameKeys) && n in nameKeys && m in nameKeys && ValidKey(key)
    requires Named(s, n, stored, key, name)
    ensures OpenName(s, m, stored, name) == if m == n then Some(key) else None
  {
    PaddingIsCanonical(PadName(key).value, key);
    assert name == name[..NONCE_LEN] + name[NONCE_LEN..];
  }

  /** What a bounded read of the header shows is the header, when it parses. */
  lemma HeadName(data: Bytes)
    requires ParseHeader(data).Ok? && ParseHeader(data[..HeadLen(data)]).Ok?
    ensures ParseHeader(data[..HeadLen(data)]).value.sealedName == ParseHeader(data).value.sealedName
  {
    var head := data[..HeadLen(data)];
    assert head[73..75] == data[73..75];
    var n := Get16(data[73..75]);
    assert head[75..75 + n] == data[75..75 + n];
  }

  /** A store names its own objects, and refuses everybody else's. */
  lemma NamesOnlyOwn(s: Suite, nameKeys: set<Bytes>, keks: seq<Entry>, n: Bytes, m: Bytes, key: Text, data: Bytes, o: Object)
    requires Ideal(s, nameKeys) && n in nameKeys && m in nameKeys && ValidKey(key)
    requires Holds(s, keks, n, key, data, o)
    ensures m == n ==> LogicalName(s, m, TokenPath(s, n, key), o) == Ok(key)
    ensures m != n ==> LogicalName(s, m, TokenPath(s, n, key), o).Err?
  {
    hide Open, ParseHeader, OpenName, Named, Ideal, TokenPath, ValidKey;
    NamedOpensOnlyOwn(s, nameKeys, n, m, TokenPath(s, n, key), key, ParseHeader(o.data).value.sealedName);
    if ParseHeader(o.data[..HeadLen(o.data)]).Ok? {
      HeadName(o.data);
    }
  }

  /** When a bounded read of a buffered object's header parses. */
  lemma HeadParsesIff(blob: Bytes)
    requires ParseHeader(blob).Ok? && blob[4] == VERSION
    ensures ParseHeader(blob[..HeadLen(blob)]).Ok?
      <==> HeadLen(blob) >= HEADER_LEN + |ParseHeader(blob).value.sealedName| + NONCE_LEN + TAG_LEN
  {
    HeadIsData(blob);
    var head := blob[..HeadLen(blob)];
    assert head[73..75] == blob[73..75];
  }

  lemma LongNames(n: nat)
    ensures PaddedLen(2 + n) <= 1037 <==> n <= 1022
  {
  }

  lemma FallbackOf(s: Suite, nameKeys: set<Bytes>, n: Bytes, stored: Text, key: Text, blob: Bytes, size: nat)
    requires Ideal(s, nameKeys) && n in nameKeys && ValidKey(key)
    requires ParseHeader(blob).Ok? && blob[4] == VERSION
    requires Named(s, n, stored, key, ParseHeader(blob).value.sealedName)
    requires |ParseHeader(blob).value.sealedName| == 28 + PaddedLen(2 + |key|)
    requires |blob| == 75 + 28 + PaddedLen(2 + |key|) + 28 + size
    ensures LogicalName(s, n, stored, Object(blob, None)) == Ok(key) <==> |key| <= 1022
  {
    hide OpenName, Named, ValidKey, PaddedLen, Ideal;
    NamedOpensOnlyOwn(s, nameKeys, n, n, stored, key, ParseHeader(blob).value.sealedName);
    HeadParsesIff(blob);
    LongNames(|key|);
    if ParseHeader(blob[..HeadLen(blob)]).Ok? { HeadName(blob); }
    hide ParseHeader;
  }

  /** With the mirror lost, the header still gives the name, except that a name of
      1023 or 1024 bytes leaves too little of the body inside the bounded read. */
  lemma FallbackRecoversIff(s: Suite, nameKeys: set<Bytes>, keys: Lists, key: Text, data: Bytes, d: Draw)
    requires Ideal(s, nameKeys) && GoodDraw(d) && ValidLists(keys) && ValidKey(key) && |data| <= MAX_PLAINTEXT
    requires keys.nameKeys[0].key in nameKeys
    ensures
      var n := keys.nameKeys[0].key;
      var stored := TokenPath(s, n, key);
      var r := Seal(s, keys.keks[0].id, keys.keks[0].key, n, stored, key, data, d);
      r.Ok? && (LogicalName(s, n, stored, Object(r.value.0, None)) == Ok(key) <==> |key| <= 1022)
  {
    hide Seal, Open, OpenName, SealName, Named, TokenPath, ValidKey, PaddedLen, LogicalName, ParseHeader;
    var n := keys.nameKeys[0].key;
    SealHolds(s, keys, key, data, d);
    SealedSize(s, keys, key, data, d);
    hide ValidLists, Ideal;
    var r := Seal(s, keys.keks[0].id, keys.keks[0].key, n, TokenPath(s, n, key), key, data, d).value;
    FallbackOf(s, nameKeys, n, TokenPath(s, n, key), key, r.0, |data|);
  }

  function LongKey(): Text { seq(1023, _ => 97) }

  /** Such a name: one segment of 1023 letters, written under any usable keys, is
      not recovered once its mirror is lost. */
  lemma LongNameIsLost(s: Suite, nameKeys: set<Bytes>, keys: Lists, data: Bytes, d: Draw)
    requires Ideal(s, nameKeys) && GoodDraw(d) && ValidLists(keys) && |data| <= MAX_PLAINTEXT
    requires keys.nameKeys[0].key in nameKeys
    ensures ValidKey(LongKey())
    ensures
      var n := keys.nameKeys[0].key;
      var stored := TokenPath(s, n, LongKey());
      var r := Seal(s, keys.keks[0].id, keys.keks[0].key, n, stored, LongKey(), data, d);
      r.Ok? && LogicalName(s, n, stored, Object(r.value.0, None)) != Ok(LongKey())
  {
    hide Seal, LogicalName, TokenPath, Ideal;
    ScopeNames.AsciiIsUtf8(LongKey());
    SplitFree(LongKey(), SLASH);
    FallbackRecoversIff(s, nameKeys, keys, LongKey(), data, d);
  }

  lemma SealedSize(s: Suite, keys: Lists, key: Text, data: Bytes, d: Draw)
    requires SealsAndOpens(s) && GoodDraw(d) && ValidLists(keys) && ValidKey(key) && |data| <= MAX_PLAINTEXT
    ensures
      var n := keys.nameKeys[0].key;
      var r := Seal(s, keys.keks[0].id, keys.keks[0].key, n, TokenPath(s, n, key), key, data, d);
      && r.Ok? && r.value.1 == SealName(s, n, TokenPath(s, n, key), key, d.nameNonce).value
      && |r.value.1| == 28 + PaddedLen(2 + |key|)
      && |r.value.0| == 75 + |r.value.1| + 28 + |data|
      && r.value.0[4] == VERSION
  {
    hide ValidKey, TokenPath, ValidEntries, PaddedLen, SealName;
    SealHolds(s, keys, key, data, d);
    NameSize(s, keys.nameKeys[0].key, TokenPath(s, keys.nameKeys[0].key, key), key, d.nameNonce);
  }

  lemma NameSize(s: Suite, n: Bytes, stored: Text, key: Text, nonce: Bytes)
    requires SealsAndOpens(s) && |key| <= MAX_KEY_BYTES && |nonce| == NONCE_LEN
    ensures SealName(s, n, stored, key, nonce).Some?
    ensures |SealName(s, n, stored, key, nonce).value| == 28 + PaddedLen(2 + |key|)
  {
    PaddedSize(2 + |key|);
  }

  /** Re-wrapping a held object succeeds and leaves it held. */
  lemma RewrapHolds(s: Suite, keys: Lists, n: Bytes, key: Text, data: Bytes, o: Object, nonce: Bytes)
    requires SealsAndOpens(s) && ValidLists(keys) && |nonce| == NONCE_LEN
    requires Holds(s, keys.keks, n, key, data, o)
    ensures Rekey(s, keys.keks, o.data, nonce).Ok?
    ensures match Rekey(s, keys.keks, o.data, nonce).value
            case None => true
            case Some(up) => Holds(s, keys.keks, n, key, data, Object(up.data, Some(up.mirror)))
  {
    hide TokenPath, OpenBody, NameCryptKey, PadName, ValidEntries;
    var name := ParseHeader(o.data).value.sealedName;
    RewrapSucceeds(s, keys, key, o.data, nonce);
    match Rekey(s, keys.keks, o.data, nonce).value
    case None =>
    case Some(up) =>
      var active := keys.keks[0];
      assert Lookup(keys.keks, active.id) == Some(active.key);
      RekeyKeepsReading(s, keys.keks, o.data, nonce, keys.keks, key);
      hide Open, Named;
      RewrapNames(s, keys.keks, o.data, nonce);
  }

  lemma RewrapSucceeds(s: Suite, keys: Lists, key: Text, data: Bytes, nonce: Bytes)
    requires SealsAndOpens(s) && ValidLists(keys) && |nonce| == NONCE_LEN
    requires Open(s, keys.keks, key, data).Ok? && ParseHeader(data).Ok?
    requires |ParseHeader(data).value.sealedName| <= 1084
    ensures Rekey(s, keys.keks, data, nonce).Ok?
  {
    hide OpenBody, Lookup;
    HeadIsData(data);
    assert data[..HeadLen(data)][73..75] == data[73..75];
    assert |keys.keks[0].key| == KEY_BYTES;
  }

  lemma RewrapNames(s: Suite, keks: seq<Entry>, data: Bytes, nonce: Bytes)
    requires SealsAndOpens(s) && |nonce| == NONCE_LEN && ParseHeader(data).Ok?
    requires Rekey(s, keks, data, nonce).Ok? && Rekey(s, keks, data, nonce).value.Some?
    ensures var up := Rekey(s, keks, data, nonce).value.value;
      && ParseHeader(up.data).Ok?
      && ParseHeader(up.data).value.sealedName == up.mirror == ParseHeader(data).value.sealedName
  {
    hide RekeyPrefix, Rewrapped, Unwrap, SealsAndOpens;
    UploadIsSplice(s, keks, data, nonce);
    var active := keks[0];
    hide Rekey;
    var wrapped := s.seal(active.key, nonce, DekOf(s, keks, data).value, WrapAad(data[4], active.id));
    SpliceParses(data, active.id, nonce, wrapped);
    MirrorIsName(data);
  }

  /** The name lifted off the header buffer is the header's own. */
  lemma MirrorIsName(data: Bytes)
    requires ParseHeader(data).Ok? && SealedNameOf(data[..HeadLen(data)]).Some?
    ensures SealedNameOf(data[..HeadLen(data)]) == Some(ParseHeader(data).value.sealedName)
  {
    var head := data[..HeadLen(data)];
    assert head[73..75] == data[73..75];
    var m := Get16(data[73..75]);
    assert head[75..75 + m] == data[75..75 + m];
  }

  // ---------------------------------------------------------------- the operations

  function KeysOf(entries: seq<Listed>): seq<Text> {
    seq(|entries|, i requires 0 <= i < |entries| => entries[i].key)
  }

  predicate GoodOp(op: Op) {
    match op
    case Write(_, _, _, d) => GoodDraw(d)
    case Rewrap(_, _, nonce) => |nonce| == NONCE_LEN
    case _ => true
  }

  /** What a store does to the bucket, and answers. */
  ghost predicate Performs(s: Suite, keys: Lists, objects: Objects, op: Op, objects': Objects, a: Answer)
    requires ValidLists(keys)
  {
    match op
    case Write(_, key, data, d) =>
      var (o, failed) := WriteObject(s, keys, objects, key, data, d);
      objects' == o && a == if failed.Some? then Failed(failed.value) else Done
    case Delete(_, key) =>
      var (o, failed) := DeleteObject(s, keys, objects, key);
      objects' == o && a == if failed.Some? then Failed(failed.value) else Done
    case Read(_, key) =>
      var r := ReadObject(s, keys, objects, key);
      objects' == objects && a == if r.Ok? then Value(r.value) else Failed(r.error)
    case Rewrap(_, key, nonce) =>
      var (o, r) := RekeyObject(s, keys, objects, key, nonce);
      objects' == o && a == if r.Ok? then Done else Failed(r.error)
    case ListKeys(_, prefix) =>
      objects' == objects
      && exists entries, failures :: ListsPrefix(s, keys.nameKeys[0].key, objects, prefix, entries, failures)
           && a == Keys(KeysOf(entries), failures == [])
  }

  method Perform(store: Store, op: Op) returns (a: Answer)
    requires ValidLists(store.keys) && SealsAndOpens(store.suite) && GoodOp(op)
    modifies store.bucket
    ensures Performs(store.suite, store.keys, old(store.bucket.objects), op, store.bucket.objects, a)
  {
    hide ListsPrefix, WriteObject, DeleteObject, ReadObject, RekeyObject, ValidLists;
    match op
    case Write(_, key, data, d) =>
      var failed := store.Write(key, data, d);
      a := if failed.Some? then Failed(failed.value) else Done;
    case Delete(_, key) =>
      var failed := store.Delete(key);
      a := if failed.Some? then Failed(failed.value) else Done;
    case Read(_, key) =>
      var r := store.Read(key);
      a := if r.Ok? then Value(r.value) else Failed(r.error);
    case Rewrap(_, key, nonce) =>
      var r := store.Rekey(key, nonce);
      a := if r.Ok? then Done else Failed(r.error);
    case ListKeys(_, prefix) =>
      var entries, failures := store.ListEntries(prefix);
      a := Keys(KeysOf(entries), failures == []);
  }

  lemma WriteStep(s: Suite, stores: map<Bytes, Lists>, spaces: Spaces, objects: Objects, op: Op, objects': Objects, a: Answer)
    requires Ideal(s, stores.Keys) && Rel(s, stores, spaces, objects) && op.Write? && op.space in stores && GoodOp(op)
    requires ValidLists(stores[op.space])
    requires Performs(s, stores[op.space], objects, op, objects', a)
    ensures op.space in spaces && Rel(s, stores, Apply(spaces, op), objects') && Answers(spaces, op, a)
  {
    hide TokenPath, ValidKey, Rel, NamesSeparate, TokensAreNames, SealsAndOpens;
    RelParts(s, stores, spaces, objects);
    hide Seal, Holds, ValidLists;
    var n, key, data, d := op.space, op.key, op.data, op.draw;
    if ValidKey(key) && |data| <= MAX_PLAINTEXT {
      SealHolds(s, stores[n], key, data, d);
      var r := Seal(s, stores[n].keks[0].id, stores[n].keks[0].key, n, TokenPath(s, n, key), key, data, d);
      PutRefines(s, stores, spaces, objects, n, key, data, Object(r.value.0, Some(r.value.1)));
    } else if ValidKey(key) {
      SealRefuses(s, stores[n], key, data, d);
    }
  }

  lemma SealRefuses(s: Suite, keys: Lists, key: Text, data: Bytes, d: Draw)
    requires ValidLists(keys) && ValidKey(key) && |data| > MAX_PLAINTEXT
    ensures
      var n := keys.nameKeys[0].key;
      Seal(s, keys.keks[0].id, keys.keks[0].key, n, TokenPath(s, n, key), key, data, d) == Err(TooLarge)
  {
  }

  /** What a space has is held at its path; what it has not is not there. */
  lemma Found(s: Suite, stores: map<Bytes, Lists>, spaces: Spaces, objects: Objects, n: Bytes, key: Text)
    requires Rel(s, stores, spaces, objects) && TokensAreNames(s) && n in stores
    ensures n in spaces && (TokenPath(s, n, key) in objects <==> key in spaces[n])
    ensures key in spaces[n] ==>
      ValidKey(key) && Holds(s, stores[n].keks, n, key, spaces[n][key], objects[TokenPath(s, n, key)])
  {
    hide TokenPath, ValidKey, TokensAreNames, Holds, Covered;
    PathTakenIff(s, stores, spaces, objects, n, key);
    if key in spaces[n] {
      assert Kept(s, stores[n].keks, objects, n, key, spaces[n][key]);
    }
  }

  lemma RelParts(s: Suite, stores: map<Bytes, Lists>, spaces: Spaces, objects: Objects)
    requires Rel(s, stores, spaces, objects)
    ensures spaces.Keys == stores.Keys
    ensures forall n :: n in stores ==> ValidLists(stores[n]) && stores[n].nameKeys[0].key == n
    ensures forall n, key :: n in spaces && key in spaces[n] ==> Kept(s, stores[n].keks, objects, n, key, spaces[n][key])
    ensures Covered(s, spaces, objects)
  {
  }

  lemma DeleteStep(s: Suite, stores: map<Bytes, Lists>, spaces: Spaces, objects: Objects, op: Op, objects': Objects, a: Answer)
    requires Ideal(s, stores.Keys) && Rel(s, stores, spaces, objects) && op.Delete? && op.space in stores
    requires ValidLists(stores[op.space])
    requires Performs(s, stores[op.space], objects, op, objects', a)
    ensures op.space in spaces && Rel(s, stores, Apply(spaces, op), objects') && Answers(spaces, op, a)
  {
    hide TokenPath, ValidKey, Rel, NamesSeparate, TokensAreNames, SealsAndOpens;
    RelParts(s, stores, spaces, objects);
    hide ValidLists;
    if ValidKey(op.key) {
      DeleteRefines(s, stores, spaces, objects, op.space, op.key);
    }
  }

  lemma ReadStep(s: Suite, stores: map<Bytes, Lists>, spaces: Spaces, objects: Objects, op: Op, objects': Objects, a: Answer)
    requires Ideal(s, stores.Keys) && Rel(s, stores, spaces, objects) && op.Read? && op.space in stores
    requires ValidLists(stores[op.space]) && stores[op.space].nameKeys[0].key == op.space
    requires Performs(s, stores[op.space], objects, op, objects', a)
    ensures op.space in spaces && Rel(s, stores, Apply(spaces, op), objects') && Answers(spaces, op, a)
  {
    hide TokenPath, ValidKey, Rel, NamesSeparate, TokensAreNames, SealsAndOpens, Open, Named, ParseHeader, ValidLists;
    Found(s, stores, spaces, objects, op.space, op.key);
  }

  lemma RewrapStep(s: Suite, stores: map<Bytes, Lists>, spaces: Spaces, objects: Objects, op: Op, objects': Objects, a: Answer)
    requires Ideal(s, stores.Keys) && Rel(s, stores, spaces, objects) && op.Rewrap? && op.space in stores && GoodOp(op)
    requires ValidLists(stores[op.space]) && stores[op.space].nameKeys[0].key == op.space
    requires Performs(s, stores[op.space], objects, op, objects', a)
    ensures op.space in spaces && Rel(s, stores, Apply(spaces, op), objects') && Answers(spaces, op, a)
  {
    hide TokenPath, ValidKey, Rel, NamesSeparate, TokensAreNames, SealsAndOpens, Holds, Rekey, ValidLists;
    var n, key := op.space, op.key;
    Found(s, stores, spaces, objects, n, key);
    if key in spaces[n] {
      var o := objects[TokenPath(s, n, key)];
      RewrapHolds(s, stores[n], n, key, spaces[n][key], o, op.nonce);
      var r := Rekey(s, stores[n].keks, o.data, op.nonce).value;
      if r.Some? {
        PutRefines(s, stores, spaces, objects, n, key, spaces[n][key], Object(r.value.data, Some(r.value.mirror)));
        assert spaces[n][key := spaces[n][key]] == spaces[n];
        assert spaces[n := spaces[n]] == spaces;
      }
    }
  }

  // ---------------------------------------------------------------- listing

  /** What a listing shows is what the space has under the prefix. */
  lemma ShowsIff(s: Suite, stores: map<Bytes, Lists>, spaces: Spaces, objects: Objects, n: Bytes, prefix: Text,
                 stored: Text, key: Text)
    requires Ideal(s, stores.Keys) && Rel(s, stores, spaces, objects) && n in stores
    ensures n in spaces
    ensures Shows(s, n, objects, prefix, stored, key)
      <==> key in spaces[n] && prefix <= key && stored == TokenPath(s, n, key)
  {
    hide TokenPath, ValidKey, NamesSeparate, TokensAreNames, SealsAndOpens, Holds, LogicalName, TokenPrefix, ValidLists;
    Length(stores, spaces, n);
    if stored in objects {
      var m, other :| At(s, spaces, m, other, stored);
      Found(s, stores, spaces, objects, m, other);
      NamesOnlyOwn(s, stores.Keys, stores[m].keks, m, n, other, spaces[m][other], objects[stored]);
    }
    if key in spaces[n] {
      Found(s, stores, spaces, objects, n, key);
      NamesOnlyOwn(s, stores.Keys, stores[n].keks, n, n, key, spaces[n][key], objects[TokenPath(s, n, key)]);
      if prefix <= key { NothingIsMissed(s, n, prefix, key); }
    }
  }

  /** What a listing cannot name is somebody else's, and is met only when the
      prefix has no complete segment. */
  lemma FailsIff(s: Suite, stores: map<Bytes, Lists>, spaces: Spaces, objects: Objects, n: Bytes, prefix: Text,
                 stored: Text, m: Bytes, other: Text)
    requires Ideal(s, stores.Keys) && Rel(s, stores, spaces, objects) && n in stores
    requires stored in objects && At(s, spaces, m, other, stored)
    ensures Fails(s, n, objects, prefix, stored) <==> m != n && Aligned(prefix) == []
  {
    hide TokenPath, TokenPrefix, ValidKey, NamesSeparate, TokensAreNames, SealsAndOpens, Holds, LogicalName, ValidLists;
    hide AllKept, Covered;
    Length(stores, spaces, n);
    Length(stores, spaces, m);
    Found(s, stores, spaces, objects, m, other);
    NamesOnlyOwn(s, stores.Keys, stores[m].keks, m, n, other, spaces[m][other], objects[stored]);
    hide StoresOk;
    if Aligned(prefix) != [] {
      NarrowingIsExact(s, n, prefix, m, other);
    } else {
      NothingNarrows(s, n, prefix);
    }
  }

  lemma NothingNarrows(s: Suite, n: Bytes, prefix: Text)
    requires Aligned(prefix) == []
    ensures TokenPrefix(s, n, prefix) == []
  {
  }

  lemma NoFailuresIff(s: Suite, stores: map<Bytes, Lists>, spaces: Spaces, objects: Objects, n: Bytes, prefix: Text)
    requires Ideal(s, stores.Keys) && Rel(s, stores, spaces, objects) && n in stores
    ensures (forall stored :: !Fails(s, n, objects, prefix, stored)) <==> Aligned(prefix) != [] || Alone(spaces, n)
  {
    hide TokenPath, ValidKey, Ideal, Holds, Fails, StoresOk, Kept;
    SameSpacesOf(s, stores, spaces, objects);
    forall stored | stored in objects && (Aligned(prefix) != [] || Alone(spaces, n))
      ensures !Fails(s, n, objects, prefix, stored)
    {
      var m, other :| At(s, spaces, m, other, stored);
      FailsIff(s, stores, spaces, objects, n, prefix, stored, m, other);
    }
    NoObjectNoFailure(s, n, objects, prefix);
    if Aligned(prefix) == [] && !Alone(spaces, n) {
      var m :| m in spaces && m != n && spaces[m] != map[];
      var other :| other in spaces[m];
      TokensOf(s, stores);
      Found(s, stores, spaces, objects, m, other);
      FailsIff(s, stores, spaces, objects, n, prefix, TokenPath(s, m, other), m, other);
    }
  }

  lemma TokensOf(s: Suite, stores: map<Bytes, Lists>)
    requires Ideal(s, stores.Keys)
    ensures TokensAreNames(s)
  {
  }

  lemma SameSpacesOf(s: Suite, stores: map<Bytes, Lists>, spaces: Spaces, objects: Objects)
    requires Rel(s, stores, spaces, objects)
    ensures spaces.Keys == stores.Keys
  {
  }

  lemma NoObjectNoFailure(s: Suite, n: Bytes, objects: Objects, prefix: Text)
    ensures forall stored :: stored !in objects ==> !Fails(s, n, objects, prefix, stored)
  {
  }

  lemma ListStep(s: Suite, stores: map<Bytes, Lists>, spaces: Spaces, objects: Objects, op: Op, objects': Objects, a: Answer)
    requires Ideal(s, stores.Keys) && Rel(s, stores, spaces, objects) && op.ListKeys? && op.space in stores
    requires ValidLists(stores[op.space]) && stores[op.space].nameKeys[0].key == op.space
    requires Performs(s, stores[op.space], objects, op, objects', a)
    ensures op.space in spaces && Rel(s, stores, Apply(spaces, op), objects') && Answers(spaces, op, a)
  {
    hide TokenPath, ValidKey, Ideal, Rel, Shows, Fails, ValidLists, LexLe;
    SameSpacesOf(s, stores, spaces, objects);
    var n, prefix := op.space, op.prefix;
    var entries, failures :| ListsPrefix(s, n, objects, prefix, entries, failures)
                             && a == Keys(KeysOf(entries), failures == []);
    forall stored, key
      ensures Shows(s, n, objects, prefix, stored, key)
        <==> key in spaces[n] && prefix <= key && stored == TokenPath(s, n, key)
    {
      ShowsIff(s, stores, spaces, objects, n, prefix, stored, key);
    }
    NoFailuresIff(s, stores, spaces, objects, n, prefix);
    ListedKeys(s, n, spaces[n], objects, prefix, entries, failures);
    assert failures == [] <==> forall stored :: stored !in failures by { EmptyIff(failures); }
  }

  lemma EmptyIff(failures: seq<Text>)
    ensures failures == [] <==> forall stored :: stored !in failures
  {
    if failures != [] { assert failures[0] in failures; }
  }

  /** The listed keys are the space's keys with the prefix, in strict order. */
  lemma ListedKeys(s: Suite, n: Bytes, space: Space, objects: Objects, prefix: Text, entries: seq<Listed>, failures: seq<Text>)
    requires ListsPrefix(s, n, objects, prefix, entries, failures)
    requires forall stored, key ::
      Shows(s, n, objects, prefix, stored, key) <==> key in space && prefix <= key && stored == TokenPath(s, n, key)
    ensures StrictlySorted(KeysOf(entries))
    ensures forall key :: key in KeysOf(entries) <==> key in space && prefix <= key
  {
    hide TokenPath, Shows, Fails, LexLe;
    var keys := KeysOf(entries);
    forall i, j | 0 <= i < j < |keys|
      ensures keys[i] != keys[j]
    {
      assert entries[i] in entries && entries[j] in entries;
    }
    forall key | key in keys
      ensures key in space && prefix <= key
    {
      var i :| 0 <= i < |keys| && keys[i] == key;
      assert entries[i] in entries;
    }
    forall key | key in space && prefix <= key
      ensures key in keys
    {
      var stored := TokenPath(s, n, key);
      assert Shows(s, n, objects, prefix, stored, key);
      ShownIsThere(s, n, objects, prefix, stored, key);
      var e := Listed(key, stored, |objects[stored].data|);
      var i :| 0 <= i < |entries| && entries[i] == e;
      assert keys[i] == key;
    }
  }

  lemma ShownIsThere(s: Suite, n: Bytes, objects: Objects, prefix: Text, stored: Text, key: Text)
    requires Shows(s, n, objects, prefix, stored, key)
    ensures stored in objects
  {
  }

  // ---------------------------------------------------------------- refinement

  /** Each operation answers as the maps do and keeps the bucket in step. */
  lemma StepRefines(s: Suite, stores: map<Bytes, Lists>, spaces: Spaces, objects: Objects, op: Op, objects': Objects, a: Answer)
    requires Ideal(s, stores.Keys) && Rel(s, stores, spaces, objects) && op.space in stores && GoodOp(op)
    requires ValidLists(stores[op.space])
    requires Performs(s, stores[op.space], objects, op, objects', a)
    ensures op.space in spaces && Rel(s, stores, Apply(spaces, op), objects') && Answers(spaces, op, a)
  {
    hide Ideal, Performs, Apply, Answers, Kept, Covered, ValidLists;
    RelParts(s, stores, spaces, objects);
    match op
    case Write(_, _, _, _) => WriteStep(s, stores, spaces, objects, op, objects', a);
    case Delete(_, _) => DeleteStep(s, stores, spaces, objects, op, objects', a);
    case Read(_, _) => ReadStep(s, stores, spaces, objects, op, objects', a);
    case ListKeys(_, _) => ListStep(s, stores, spaces, objects, op, objects', a);
    case Rewrap(_, _, _) => RewrapStep(s, stores, spaces, objects, op, objects', a);
  }

  function After(spaces: Spaces, ops: seq<Op>): (r: Spaces)
    requires forall i :: 0 <= i < |ops| ==> ops[i].space in spaces
    ensures r.Keys == spaces.Keys
  {
    if ops == [] then spaces else Apply(After(spaces, ops[..|ops| - 1]), ops[|ops| - 1])
  }

  /** The stores that share a bucket, each known by its name key. */
  ghost predicate Sharing(bucket: Bucket, suite: Suite, stores: map<Bytes, Store>) {
    forall n :: n in stores ==>
      && stores[n].bucket == bucket && stores[n].suite == suite
      && ValidLists(stores[n].keys) && stores[n].keys.nameKeys[0].key == n
  }

  ghost function KeysHeld(stores: map<Bytes, Store>): map<Bytes, Lists> {
    map n | n in stores :: stores[n].keys
  }

  method Turn(bucket: Bucket, suite: Suite, stores: map<Bytes, Store>, ghost spaces: Spaces, op: Op) returns (a: Answer)
    requires Ideal(suite, stores.Keys) && Sharing(bucket, suite, stores)
    requires op.space in stores && GoodOp(op)
    requires Rel(suite, KeysHeld(stores), spaces, bucket.objects)
    modifies bucket
    ensures op.space in spaces && Rel(suite, KeysHeld(stores), Apply(spaces, op), bucket.objects)
    ensures Answers(spaces, op, a)
  {
    hide Performs, Rel, ValidLists, Apply, Answers;
    SealsOf(suite, stores.Keys);
    assert KeysHeld(stores).Keys == stores.Keys;
    ghost var before := bucket.objects;
    var store := stores[op.space];
    a := Perform(store, op);
    StepRefines(suite, KeysHeld(stores), spaces, before, op, bucket.objects, a);
  }

  /** Any run of operations by several stores over one bucket: every answer is the
      one plain maps would have given, one map for each key space. */
  method Run(bucket: Bucket, suite: Suite, stores: map<Bytes, Store>, ops: seq<Op>) returns (answers: seq<Answer>)
    requires bucket.objects == map[] && Ideal(suite, stores.Keys) && Sharing(bucket, suite, stores)
    requires forall i :: 0 <= i < |ops| ==> ops[i].space in stores && GoodOp(ops[i])
    modifies bucket
    ensures |answers| == |ops|
    ensures
      var empty: Spaces := map n | n in stores :: map[];
      forall i :: 0 <= i < |ops| ==> Answers(After(empty, ops[..i]), ops[i], answers[i])
  {
    hide Ideal, Answers, Rel, After, Apply, Sharing, KeysHeld, GoodOp;
    ghost var empty: Spaces := map n | n in stores :: map[];
    EmptyRel(bucket, suite, stores, empty);
    AfterNone(empty, ops);
    answers := [];
    for i := 0 to |ops|
      invariant |answers| == i
      invariant Rel(suite, KeysHeld(stores), After(empty, ops[..i]), bucket.objects)
      invariant forall j :: 0 <= j < i ==> Answers(After(empty, ops[..j]), ops[j], answers[j])
    {
      var a := Turn(bucket, suite, stores, After(empty, ops[..i]), ops[i]);
      AfterNext(empty, ops, i);
      answers := answers + [a];
    }
  }

  lemma AfterNone(spaces: Spaces, ops: seq<Op>)
    ensures After(spaces, ops[..0]) == spaces
  {
  }

  lemma AfterNext(spaces: Spaces, ops: seq<Op>, i: nat)
    requires i < |ops| && forall j :: 0 <= j < |ops| ==> ops[j].space in spaces
    ensures After(spaces, ops[..i + 1]) == Apply(After(spaces, ops[..i]), ops[i])
  {
    assert ops[..i + 1][..i] == ops[..i];
  }

  lemma SealsOf(s: Suite, names: set<Bytes>)
    requires Ideal(s, names)
    ensures SealsAndOpens(s)
  {
  }

  lemma EmptyRel(bucket: Bucket, s: Suite, stores: map<Bytes, Store>, spaces: Spaces)
    requires Sharing(bucket, s, stores)
    requires spaces.Keys == stores.Keys && forall n :: n in spaces ==> spaces[n] == map[]
    ensures Rel(s, KeysHeld(stores), spaces, map[])
  {
    hide ValidLists;
    assert KeysHeld(stores).Keys == stores.Keys;
  }

  // ---------------------------------------------------------------- other lists of keys

  /** Opening depends on the list of keys only through the one look-up it makes. */
  lemma OpenByLookup(s: Suite, a: seq<Entry>, b: seq<Entry>, key: Text, data: Bytes)
    requires ParseHeader(data).Ok? ==> Lookup(a, ParseHeader(data).value.id) == Lookup(b, ParseHeader(data).value.id)
    ensures Open(s, a, key, data) == Open(s, b, key, data)
  {
    hide ParseHeader, OpenBody;
  }

  /** Both lists answer the look-up this key's object needs, and answer it alike. */
  ghost predicate Agree(s: Suite, a: seq<Entry>, b: seq<Entry>, objects: Objects, n: Bytes, key: Text) {
    TokenPath(s, n, key) in objects && ParseHeader(objects[TokenPath(s, n, key)].data).Ok? ==>
      var id := ParseHeader(objects[TokenPath(s, n, key)].data).value.id;
      Lookup(a, id) == Lookup(b, id)
  }

  /** Stores over other lists serve the same spaces, as long as they find objects
      under the same name keys and agree on the ids objects are wrapped under. */
  lemma RelTransfers(s: Suite, stores: map<Bytes, Lists>, stores': map<Bytes, Lists>, spaces: Spaces, objects: Objects)
    requires Rel(s, stores, spaces, objects) && StoresOk(stores', spaces)
    requires forall n, key :: n in stores && n in stores' && n in spaces && key in spaces[n] ==>
      Agree(s, stores[n].keks, stores'[n].keks, objects, n, key)
    ensures Rel(s, stores', spaces, objects)
  {
    hide TokenPath, ValidKey, ValidLists, Covered, Open, ParseHeader, Named;
    forall n, key | n in spaces && key in spaces[n]
      ensures Kept(s, stores'[n].keks, objects, n, key, spaces[n][key])
    {
      assert Kept(s, stores[n].keks, objects, n, key, spaces[n][key]);
      assert Agree(s, stores[n].keks, stores'[n].keks, objects, n, key);
      OpenByLookup(s, stores[n].keks, stores'[n].keks, key, objects[TokenPath(s, n, key)].data);
    }
    hide Kept;
    KeptAll(s, stores', spaces, objects);
  }

  /** What opens found the key it is wrapped under. */
  lemma OpenedLooksUp(s: Suite, keks: seq<Entry>, key: Text, data: Bytes)
    requires Open(s, keks, key, data).Ok?
    ensures ParseHeader(data).Ok? && Lookup(keks, ParseHeader(data).value.id).Some?
  {
    hide ParseHeader, OpenBody;
  }

  lemma AgreeByGrowth(s: Suite, a: seq<Entry>, b: seq<Entry>, objects: Objects, n: Bytes, key: Text, data: Bytes)
    requires Kept(s, a, objects, n, key, data) && MergeLaws.Absorbs(b, a)
    ensures Agree(s, a, b, objects, n, key)
  {
    hide TokenPath, ValidKey, ParseHeader, Open, Named, Lookup;
    OpenedLooksUp(s, a, key, objects[TokenPath(s, n, key)].data);
  }

  /** So a rotation, an import or a choice of active keys changes nothing that is
      read: any lists under the same name keys that resolve every id the old ones
      did serve the same spaces. */
  lemma RelSurvivesGrowth(s: Suite, stores: map<Bytes, Lists>, stores': map<Bytes, Lists>, spaces: Spaces, objects: Objects)
    requires Rel(s, stores, spaces, objects) && StoresOk(stores', spaces)
    requires forall n :: n in stores && n in stores' ==> MergeLaws.Absorbs(stores'[n].keks, stores[n].keks)
    ensures Rel(s, stores', spaces, objects)
  {
    hide Open, Kept, Agree, Covered, ValidLists, MergeLaws.Absorbs;
    forall n, key | n in stores && n in stores' && n in spaces && key in spaces[n]
      ensures Agree(s, stores[n].keks, stores'[n].keks, objects, n, key)
    {
      assert Kept(s, stores[n].keks, objects, n, key, spaces[n][key]);
      AgreeByGrowth(s, stores[n].keks, stores'[n].keks, objects, n, key, spaces[n][key]);
    }
    RelTransfers(s, stores, stores', spaces, objects);
  }

  // ---------------------------------------------------------------- a complete sweep

  /** A key's object is wrapped under the active key. */
  predicate Moved(s: Suite, keys: Lists, n: Bytes, key: Text, objects: Objects) {
    && keys.keks != [] && TokenPath(s, n, key) in objects
    && ParseHeader(objects[TokenPath(s, n, key)].data).Ok?
    && ParseHeader(objects[TokenPath(s, n, key)].data).value.id == keys.keks[0].id
  }

  /** A key list with everything but the active key dropped. */
  function OnlyActive(keys: Lists): Lists
    requires keys.keks != []
  {
    keys.(keks := [keys.keks[0]])
  }

  lemma RewrapMoves(s: Suite, keks: seq<Entry>, data: Bytes, nonce: Bytes)
    requires SealsAndOpens(s) && |nonce| == NONCE_LEN && ParseHeader(data).Ok?
    requires Rekey(s, keks, data, nonce).Ok?
    ensures match Rekey(s, keks, data, nonce).value
            case None => ParseHeader(data).value.id == keks[0].id
            case Some(up) => ParseHeader(up.data).Ok? && ParseHeader(up.data).value.id == keks[0].id
  {
    HeadIsData(data);
    if Rekey(s, keks, data, nonce).value.Some? {
      UploadIsSplice(s, keks, data, nonce);
      var wrapped := s.seal(keks[0].key, nonce, DekOf(s, keks, data).value, WrapAad(data[4], keks[0].id));
      SpliceParses(data, keks[0].id, nonce, wrapped);
    }
  }

  lemma SweepStep(s: Suite, stores: map<Bytes, Lists>, spaces: Spaces, objects: Objects, n: Bytes, key: Text, nonce: Bytes)
    requires Ideal(s, stores.Keys) && Rel(s, stores, spaces, objects) && |nonce| == NONCE_LEN
    requires n in stores && n in spaces && key in spaces[n]
    requires ValidLists(stores[n]) && stores[n].nameKeys[0].key == n
    ensures
      var objects' := RekeyObject(s, stores[n], objects, key, nonce).0;
      && Rel(s, stores, spaces, objects')
      && Moved(s, stores[n], n, key, objects')
      && forall other :: Moved(s, stores[n], n, other, objects) ==> Moved(s, stores[n], n, other, objects')
  {
    hide TokenPath, ValidKey, Rel, NamesSeparate, TokensAreNames, SealsAndOpens, Rekey, ParseHeader, Open, Named;
    Found(s, stores, spaces, objects, n, key);
    var o := objects[TokenPath(s, n, key)];
    RewrapHolds(s, stores[n], n, key, spaces[n][key], o, nonce);
    RewrapMoves(s, stores[n].keks, o.data, nonce);
    hide ValidLists, Holds;
    var r := Rekey(s, stores[n].keks, o.data, nonce).value;
    if r.Some? {
      PutRefines(s, stores, spaces, objects, n, key, spaces[n][key], Object(r.value.data, Some(r.value.mirror)));
      assert spaces[n][key := spaces[n][key]] == spaces[n];
      assert spaces[n := spaces[n]] == spaces;
    }
  }

  /** An object wrapped under the active key needs no other. */
  lemma ActiveSuffices(s: Suite, keys: Lists, n: Bytes, key: Text, data: Bytes, o: Object)
    requires ValidLists(keys) && Holds(s, keys.keks, n, key, data, o)
    requires ParseHeader(o.data).value.id == keys.keks[0].id
    ensures Holds(s, OnlyActive(keys).keks, n, key, data, o)
  {
    hide ParseHeader, Named, OpenBody, TokenPath;
    assert Lookup(OnlyActive(keys).keks, keys.keks[0].id) == Some(keys.keks[0].key) == Lookup(keys.keks, keys.keks[0].id);
  }

  lemma OldKeysMayGo(s: Suite, stores: map<Bytes, Lists>, spaces: Spaces, objects: Objects, n: Bytes)
    requires Rel(s, stores, spaces, objects) && n in stores && ValidLists(stores[n])
    requires n in spaces && forall key :: key in spaces[n] ==> Moved(s, stores[n], n, key, objects)
    ensures Rel(s, stores[n := OnlyActive(stores[n])], spaces, objects)
  {
    hide TokenPath, ValidKey, Holds, At, ParseHeader;
    var stores' := stores[n := OnlyActive(stores[n])];
    assert stores'.Keys == stores.Keys;
    forall m, key | m in spaces && key in spaces[m]
      ensures Kept(s, stores'[m].keks, objects, m, key, spaces[m][key])
    {
      assert Kept(s, stores[m].keks, objects, m, key, spaces[m][key]);
      if m == n {
        ActiveSuffices(s, stores[n], n, key, spaces[n][key], objects[TokenPath(s, n, key)]);
      }
    }
    hide Kept;
    KeptAll(s, stores', spaces, objects);
  }

  /** After rekeying every key of a space, a store holding only the active key
      serves it exactly as before. */
  method Sweep(bucket: Bucket, suite: Suite, stores: map<Bytes, Store>, ghost spaces: Spaces, n: Bytes,
               keys: seq<Text>, nonces: seq<Bytes>)
    requires Ideal(suite, stores.Keys) && Sharing(bucket, suite, stores) && n in stores && n in spaces
    requires Rel(suite, KeysHeld(stores), spaces, bucket.objects)
    requires |nonces| == |keys| && forall i :: 0 <= i < |nonces| ==> |nonces[i]| == NONCE_LEN
    requires forall key :: key in keys <==> key in spaces[n]
    modifies bucket
    ensures ValidLists(stores[n].keys)
    ensures Rel(suite, KeysHeld(stores)[n := OnlyActive(stores[n].keys)], spaces, bucket.objects)
  {
    hide Ideal, Rel, Moved, RekeyObject, ValidLists;
    var store := stores[n];
    ghost var held := KeysHeld(stores);
    assert held.Keys == stores.Keys && held[n] == store.keys;
    SealsOf(suite, stores.Keys);
    for i := 0 to |keys|
      invariant Rel(suite, held, spaces, bucket.objects)
      invariant forall j :: 0 <= j < i ==> Moved(suite, store.keys, n, keys[j], bucket.objects)
    {
      ghost var before := bucket.objects;
      var moved := store.Rekey(keys[i], nonces[i]);
      SweepStep(suite, held, spaces, before, n, keys[i], nonces[i]);
    }
    OldKeysMayGo(suite, held, spaces, bucket.objects, n);
  }
}
