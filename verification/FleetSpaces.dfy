/** What a fleet's records of its writes promise about bytes: whoever the record is
    readable to reads the data back, and stores that open everything on record serve
    the same spaces. */
module FleetSpaces {
  import opened Basics
  import opened Examples
  import opened Paths
  import opened ScopeNames
  import opened Keys
  import opened Rotations
  import opened Growth
  import opened Crypto
  import opened Tokens
  import opened Blobs
  import opened Rekeys
  import opened Stores
  import F = Fleet
  import R = StoreRefines
  import V = VaultSpec

  // ---------------------------------------------------------------- what a record promises

  /** What a replica that owns the key reads right after a write: the data, if the
      record of the write is readable to it; a key it does not know, if it finds the
      object without holding the key it is wrapped under; otherwise, under another
      name key, whatever it would have read before. */
  lemma WriteThenRead(s: Suite, w: Scope, scopes: seq<Scope>, objects: Objects, key: Text, data: Bytes, d: Draw)
    requires SealsAndOpens(s) && TokensAreNames(s) && GoodDraw(d)
    requires ValidKey(key) && |data| <= MAX_PLAINTEXT && ValidLists(w.keys)
    requires ScopeOwning(scopes, key).Some? && ValidLists(ScopeOwning(scopes, key).value.keys)
    ensures
      var r := ScopeOwning(scopes, key).value;
      var (after, failed) := WriteObject(s, w.keys, objects, key, data, d);
      && failed == None
      && (F.Reads(scopes, F.Sealing(w, key)) ==> ReadObject(s, r.keys, after, key) == Ok(data))
      && (r.keys.nameKeys[0].key == w.keys.nameKeys[0].key && Lookup(r.keys.keks, w.keys.keks[0].id).None? ==>
            ReadObject(s, r.keys, after, key) == Err(UnknownKey))
      && (r.keys.nameKeys[0].key != w.keys.nameKeys[0].key ==>
            ReadObject(s, r.keys, after, key) == ReadObject(s, r.keys, objects, key))
  {
    hide TokenPath, ValidKey, ScopeOwning, TokensAreNames, SealsAndOpens, OpenBody, Seal;
    var r, n, kek := ScopeOwning(scopes, key).value, w.keys.nameKeys[0].key, w.keys.keks[0];
    var stored := TokenPath(s, n, key);
    assert Lookup(w.keys.keks, kek.id) == Some(kek.key);
    OpenInvertsSeal(s, w.keys.keks, kek.id, kek.key, n, stored, key, data, d);
    var blob := Seal(s, kek.id, kek.key, n, stored, key, data, d).value.0;
    if Lookup(r.keys.keks, kek.id) == Some(kek.key) {
      R.OpenByLookup(s, w.keys.keks, r.keys.keks, key, blob);
    }
    if r.keys.nameKeys[0].key != n && TokenPath(s, r.keys.nameKeys[0].key, key) == stored {
      PathsAreInjective(s, r.keys.nameKeys[0].key, key, n, key);
    }
  }

  /** A read in flight during a rotation can meet the second case: admitted under the
      key before, it does not know the one the object is by then wrapped under. */
  lemma RotationOvertakesRead(s: Suite, objects: Objects, data: Bytes, d: Draw)
    requires SealsAndOpens(s) && TokensAreNames(s) && GoodDraw(d) && |data| <= MAX_PLAINTEXT
    ensures
      var name, before, minted := ExampleEntry(1), ExampleEntry(2), ExampleEntry(3);
      var admitted, rotated := ExampleScope([name], [before]), ExampleScope([name], [minted, before]);
      && ValidScope(admitted) && CanRotate(admitted, minted) && rotated == Rotated(admitted, minted)
      && Owns(admitted.prefix, Ascii("a/x"))
      && ReadObject(s, admitted.keys, WriteObject(s, rotated.keys, objects, Ascii("a/x"), data, d).0, Ascii("a/x"))
         == Err(UnknownKey)
  {
    hide ReadObject, WriteObject, ValidScope;
    var name, before, minted := ExampleEntry(1), ExampleEntry(2), ExampleEntry(3);
    MarksDiffer(2, 3);
    ExampleIsValid([name], [before]);
    ExampleIsValid([name], [minted, before]);
    var admitted, rotated := ExampleScope([name], [before]), ExampleScope([name], [minted, before]);
    assert [minted] + [before] == [minted, before];
    ExampleKey();
    assert Owns(admitted.prefix, Ascii("a/x"));
    WriteThenRead(s, rotated, [admitted], objects, Ascii("a/x"), data, d);
  }

  lemma ExampleKey()
    ensures ValidKey(Ascii("a/x"))
  {
    assert Ascii("a/x") == Ascii("a") + [SLASH] + Ascii("x");
    SplitCons(Ascii("a"), Ascii("x"), SLASH);
    SplitFree(Ascii("x"), SLASH);
  }

  /** And right after a rekey that did not fail: what the rekeying side read before. */
  lemma RekeyThenRead(s: Suite, w: Scope, scopes: seq<Scope>, objects: Objects, key: Text, nonce: Bytes)
    requires SealsAndOpens(s) && |nonce| == NONCE_LEN && ValidLists(w.keys)
    requires ScopeOwning(scopes, key).Some? && ValidLists(ScopeOwning(scopes, key).value.keys)
    requires F.Reads(scopes, F.Sealing(w, key))
    requires RekeyObject(s, w.keys, objects, key, nonce).1.Ok?
    ensures
      ReadObject(s, ScopeOwning(scopes, key).value.keys, RekeyObject(s, w.keys, objects, key, nonce).0, key)
      == ReadObject(s, w.keys, objects, key)
  {
    hide TokenPath, ValidKey, ScopeOwning, SealsAndOpens, Open, Rekey, ValidEntries;
    var r := ScopeOwning(scopes, key).value;
    assert r.keys.nameKeys[0].key == w.keys.nameKeys[0].key;
    var stored := TokenPath(s, w.keys.nameKeys[0].key, key);
    OtherKeysMayGo(s, w.keys.keks, objects[stored].data, nonce, r.keys.keks, key);
  }

  // ---------------------------------------------------------------- whose keys a space has

  predicate Finds(t: Scope, n: Bytes) { t.keys.nameKeys != [] && t.keys.nameKeys[0].key == n }

  /** The scope that finds its objects under this name key. */
  function HolderOf(scopes: seq<Scope>, n: Bytes): (r: Option<Scope>)
    ensures r.Some? ==> r.value in scopes && Finds(r.value, n)
    ensures r.None? ==> forall t :: t in scopes ==> !Finds(t, n)
  {
    if scopes == [] then None
    else if Finds(scopes[0], n) then Some(scopes[0])
    else
      assert forall t :: t in scopes ==> t == scopes[0] || t in scopes[1..];
      HolderOf(scopes[1..], n)
  }

  function KeysFor(scopes: seq<Scope>, n: Bytes, otherwise: Lists): Lists {
    match HolderOf(scopes, n)
    case None => otherwise
    case Some(t) => t.keys
  }

  /** Keys for a space nobody has yet. */
  function Unheld(n: Bytes): Lists {
    var e := Entry(seq(8, _ => 0), 0, n);
    Lists([e], [e])
  }

  /** Each space under the operator's keys. */
  function StoresOf(scopes: seq<Scope>, names: set<Bytes>): map<Bytes, Lists> {
    map n | n in names :: KeysFor(scopes, n, Unheld(n))
  }

  /** The spaces as a replica sees them: under its own keys where it has them. */
  function SeenBy(held: seq<Scope>, scopes: seq<Scope>, names: set<Bytes>): map<Bytes, Lists> {
    map n | n in names :: KeysFor(held, n, KeysFor(scopes, n, Unheld(n)))
  }

  /** Every scope has a name key of its own, among those the cryptography keeps apart. */
  predicate Distinct(scopes: seq<Scope>, names: set<Bytes>) {
    && (forall i :: 0 <= i < |scopes| ==> scopes[i].keys.nameKeys != [] && scopes[i].keys.nameKeys[0].key in names)
    && (forall i, j :: 0 <= i < j < |scopes| ==> scopes[i].keys.nameKeys[0].key != scopes[j].keys.nameKeys[0].key)
  }

  lemma OnlyHolder(scopes: seq<Scope>, names: set<Bytes>, t: Scope)
    requires Distinct(scopes, names) && t in scopes
    ensures HolderOf(scopes, t.keys.nameKeys[0].key) == Some(t)
  {
    var u := HolderOf(scopes, t.keys.nameKeys[0].key).value;
    var i :| 0 <= i < |scopes| && scopes[i] == t;
    var j :| 0 <= j < |scopes| && scopes[j] == u;
  }

  lemma UnheldIsUsable(n: Bytes)
    requires |n| == KEY_BYTES
    ensures ValidLists(Unheld(n)) && Unheld(n).nameKeys[0].key == n
  {
  }

  lemma StoresAreOk(scopes: seq<Scope>, names: set<Bytes>, spaces: R.Spaces)
    requires spaces.Keys == names && (forall n :: n in names ==> |n| == KEY_BYTES)
    requires forall t :: t in scopes ==> ValidLists(t.keys)
    ensures R.StoresOk(StoresOf(scopes, names), spaces)
  {
    hide ValidLists;
    forall n | n in names { UnheldIsUsable(n); }
  }

  lemma SeenIsOk(held: seq<Scope>, scopes: seq<Scope>, names: set<Bytes>, spaces: R.Spaces)
    requires spaces.Keys == names && (forall n :: n in names ==> |n| == KEY_BYTES)
    requires forall t :: t in scopes || t in held ==> ValidLists(t.keys)
    ensures R.StoresOk(SeenBy(held, scopes, names), spaces)
  {
    hide ValidLists;
    forall n | n in names { UnheldIsUsable(n); }
  }

  // ---------------------------------------------------------------- records and bytes

  /** These stores can unwrap what this record says was written. */
  predicate Opens(stores: map<Bytes, Lists>, o: F.Stored) {
    o.nameKey in stores && Lookup(stores[o.nameKey].keks, o.kekId) == Some(o.kek)
  }

  lemma OperatorOpens(st: F.State, names: set<Bytes>, o: F.Stored)
    requires F.OperatorReads(st.operator, o) && ValidKeyring(st.operator) && Distinct(st.operator.scopes, names)
    ensures Opens(StoresOf(st.operator.scopes, names), o)
  {
    hide Lookup, ScopeOwning, ValidScope, Overlap, HolderOf, Distinct;
    OwnerIsUnique(st.operator.scopes, o.key);
    var t := ScopeOwning(st.operator.scopes, o.key).value;
    OnlyHolder(st.operator.scopes, names, t);
    assert t.keys.nameKeys[0].key in names by { NameIsAmong(st.operator.scopes, names, t); }
  }

  lemma NameIsAmong(scopes: seq<Scope>, names: set<Bytes>, t: Scope)
    requires Distinct(scopes, names) && t in scopes
    ensures t.keys.nameKeys != [] && t.keys.nameKeys[0].key in names
  {
  }

  /** A held scope and the operator's scope with its name key are the same scope. */
  lemma HeldIsOperators(v: V.VaultState, k: Keyring, names: set<Bytes>, t: Scope)
    requires F.ReplicaOk(v, k) && ValidKeyring(k) && Distinct(k.scopes, names) && t in v.scopes
    ensures t.keys.nameKeys != []
    ensures HolderOf(k.scopes, t.keys.nameKeys[0].key).Some?
    ensures ScopeGrows(t, HolderOf(k.scopes, t.keys.nameKeys[0].key).value)
  {
    hide Lookup, ValidScope, Overlap, HolderOf, Distinct, ScopeNamed;
    NamedIsUnique(v.scopes, t.name);
    assert GrowsAt(v.scopes, k.scopes, t.name);
    NamedIsUnique(k.scopes, t.name);
    OnlyHolder(k.scopes, names, ScopeNamed(k.scopes, t.name).value);
  }

  /** A replica's scopes have name keys of their own too. */
  lemma HeldDistinct(v: V.VaultState, k: Keyring, names: set<Bytes>)
    requires F.ReplicaOk(v, k) && ValidKeyring(k) && Distinct(k.scopes, names)
    ensures Distinct(v.scopes, names)
  {
    hide ValidScope, Overlap, HolderOf, F.ReplicaOk, ScopeGrows;
    assert Separate(v.scopes) by { HeldIsValid(v, k); }
    forall i | 0 <= i < |v.scopes|
      ensures v.scopes[i].keys.nameKeys != [] && v.scopes[i].keys.nameKeys[0].key in names
      ensures HolderOf(k.scopes, v.scopes[i].keys.nameKeys[0].key).Some?
      ensures HolderOf(k.scopes, v.scopes[i].keys.nameKeys[0].key).value.name == v.scopes[i].name
    {
      HeldIsOperators(v, k, names, v.scopes[i]);
      GrowsShares(v.scopes[i], HolderOf(k.scopes, v.scopes[i].keys.nameKeys[0].key).value);
      NameIsAmong(k.scopes, names, HolderOf(k.scopes, v.scopes[i].keys.nameKeys[0].key).value);
    }
  }

  lemma GrowsShares(a: Scope, b: Scope)
    requires ScopeGrows(a, b)
    ensures a.name == b.name && a.prefix == b.prefix
  {
  }

  lemma HeldIsValid(v: V.VaultState, k: Keyring)
    requires F.ReplicaOk(v, k)
    ensures ValidScopes(v.scopes)
  {
  }

  lemma ReplicaOpens(st: F.State, names: set<Bytes>, i: nat, o: F.Stored)
    requires F.Safe(st) && Distinct(st.operator.scopes, names) && i < |st.replicas| && o in st.objects
    ensures Opens(SeenBy(st.replicas[i].scopes, st.operator.scopes, names), o)
  {
    hide Lookup, ScopeOwning, ValidScope, Overlap, HolderOf, Distinct, F.Safe, F.ReplicaOk, F.AllReadable, Owns;
    F.SafeParts(st);
    var v, k := st.replicas[i], st.operator;
    OperatorOpens(st, names, o);
    assert F.ReplicaOk(v, k);
    match HolderOf(v.scopes, o.nameKey)
    case None =>
    case Some(t) =>
      HeldIsOperators(v, k, names, t);
      OwnerIsUnique(k.scopes, o.key);
      OnlyHolder(k.scopes, names, ScopeOwning(k.scopes, o.key).value);
      HeldIsValid(v, k);
      OwnerIsUnique(v.scopes, o.key);
      assert ScopeOwning(v.scopes, o.key) == Some(t);
      F.SafeReads(st);
      EveryReads(st, o, i);
  }

  lemma EveryReads(st: F.State, o: F.Stored, i: nat)
    requires F.AllReadable(st) && o in st.objects && i < |st.replicas|
    ensures F.Reads(st.replicas[i].scopes, o)
  {
  }

  /** This record is of the object at this key's path. */
  ghost predicate Recorded(s: Suite, objects: Objects, n: Bytes, key: Text, o: F.Stored) {
    && TokenPath(s, n, key) in objects && ParseHeader(objects[TokenPath(s, n, key)].data).Ok?
    && o.nameKey == n && o.key == key && o.kekId == ParseHeader(objects[TokenPath(s, n, key)].data).value.id
  }

  ghost predicate IsRecorded(s: Suite, objects: Objects, records: set<F.Stored>, n: Bytes, key: Text) {
    exists o :: o in records && Recorded(s, objects, n, key, o)
  }

  /** Everything the spaces hold is on record, under the key it is wrapped under. */
  ghost predicate Linked(s: Suite, spaces: R.Spaces, objects: Objects, records: set<F.Stored>) {
    forall n, key :: n in spaces && key in spaces[n] ==> IsRecorded(s, objects, records, n, key)
  }

  /** Stores that open everything on record serve the same spaces. */
  lemma RelByRecords(s: Suite, stores: map<Bytes, Lists>, stores': map<Bytes, Lists>, spaces: R.Spaces, objects: Objects,
                     records: set<F.Stored>)
    requires R.Rel(s, stores, spaces, objects) && R.StoresOk(stores', spaces) && Linked(s, spaces, objects, records)
    requires forall o :: o in records ==> Opens(stores, o) && Opens(stores', o)
    ensures R.Rel(s, stores', spaces, objects)
  {
    hide R.Rel, R.StoresOk, TokenPath, ParseHeader, Lookup;
    forall n, key | n in stores && n in stores' && n in spaces && key in spaces[n]
      ensures R.Agree(s, stores[n].keks, stores'[n].keks, objects, n, key)
    {
      assert IsRecorded(s, objects, records, n, key);
      var o :| o in records && Recorded(s, objects, n, key, o);
      assert Opens(stores, o) && Opens(stores', o);
    }
    R.RelTransfers(s, stores, stores', spaces, objects);
  }

  /** The operations that wrap a data key under the active key. */
  predicate Wraps(op: R.Op) { op.Write? || op.Rewrap? }

  /** An operation touches the path of its own key and no other, and nothing at all
      unless it succeeds. */
  lemma Touches(s: Suite, keys: Lists, objects: Objects, op: R.Op, objects': Objects, a: R.Answer)
    requires ValidLists(keys) && R.Performs(s, keys, objects, op, objects', a)
    ensures !Wraps(op) && !op.Delete? ==> objects' == objects
    ensures Wraps(op) && a != R.Done ==> objects' == objects
    ensures Wraps(op) || op.Delete? ==>
      forall p :: p in objects && p != TokenPath(s, keys.nameKeys[0].key, op.key) ==> p in objects' && objects'[p] == objects[p]
  {
    hide TokenPath, ValidKey, Seal, Rekey, Open, ListsPrefix;
  }

  /** What succeeds in wrapping wraps under the active key. */
  lemma WrapsUnderActive(s: Suite, stores: map<Bytes, Lists>, spaces: R.Spaces, objects: Objects, op: R.Op, objects': Objects,
                         a: R.Answer)
    requires Ideal(s, stores.Keys) && R.Rel(s, stores, spaces, objects) && op.space in stores && R.GoodOp(op)
    requires ValidLists(stores[op.space]) && stores[op.space].nameKeys[0].key == op.space
    requires R.Performs(s, stores[op.space], objects, op, objects', a) && Wraps(op) && a == R.Done
    requires op.space in spaces && R.Answers(spaces, op, a)
    ensures
      var path := TokenPath(s, op.space, op.key);
      && path in objects' && ParseHeader(objects'[path].data).Ok?
      && ParseHeader(objects'[path].data).value.id == stores[op.space].keks[0].id
  {
    hide TokenPath, ValidKey, R.Rel, TokensAreNames, NamesSeparate, Open, Seal, Rekey, ParseHeader, R.Holds;
    var keys, path := stores[op.space], TokenPath(s, op.space, op.key);
    assert Lookup(keys.keks, keys.keks[0].id) == Some(keys.keks[0].key);
    if op.Write? {
      OpenInvertsSeal(s, keys.keks, keys.keks[0].id, keys.keks[0].key, op.space, path, op.key, op.data, op.draw);
    } else {
      hide SealsAndOpens;
      R.Found(s, stores, spaces, objects, op.space, op.key);
      HeldParses(s, keys.keks, op.space, op.key, spaces[op.space][op.key], objects[path]);
      R.RewrapMoves(s, keys.keks, objects[path].data, op.nonce);
    }
  }

  lemma HeldParses(s: Suite, keks: seq<Entry>, n: Bytes, key: Text, data: Bytes, o: Object)
    requires R.Holds(s, keks, n, key, data, o)
    ensures ParseHeader(o.data).Ok?
  {
  }

  /** After an operation a key's object is as it was, unless it is the key written or
      rekeyed. */
  lemma OthersStay(s: Suite, stores: map<Bytes, Lists>, spaces: R.Spaces, objects: Objects, op: R.Op, objects': Objects,
                   a: R.Answer, m: Bytes, other: Text)
    requires Ideal(s, stores.Keys) && R.Rel(s, stores, spaces, objects) && op.space in stores
    requires ValidLists(stores[op.space]) && stores[op.space].nameKeys[0].key == op.space
    requires R.Performs(s, stores[op.space], objects, op, objects', a) && R.Answers(spaces, op, a)
    requires op.space in spaces && m in spaces && other in R.Apply(spaces, op)[m]
    requires !(Wraps(op) && a == R.Done && m == op.space && other == op.key)
    ensures other in spaces[m] && TokenPath(s, m, other) in objects && TokenPath(s, m, other) in objects'
    ensures objects'[TokenPath(s, m, other)] == objects[TokenPath(s, m, other)]
  {
    hide TokenPath, ValidKey, Ideal, R.Rel, R.Performs, R.Holds, ValidLists, R.StrictlySorted;
    Touches(s, stores[op.space], objects, op, objects', a);
    R.TokensOf(s, stores);
    R.RelParts(s, stores, spaces, objects);
    R.Found(s, stores, spaces, objects, m, other);
    if (Wraps(op) || op.Delete?) && (m, other) != (op.space, op.key) {
      RelStores(s, stores, spaces, objects);
      R.PathsApart(s, stores, spaces, op.space, op.key, m, other);
    }
  }

  lemma RelStores(s: Suite, stores: map<Bytes, Lists>, spaces: R.Spaces, objects: Objects)
    requires R.Rel(s, stores, spaces, objects)
    ensures R.StoresOk(stores, spaces)
  {
  }

  /** The record to keep of a write or a rekey that succeeded. */
  lemma StaysLinked(s: Suite, stores: map<Bytes, Lists>, spaces: R.Spaces, objects: Objects, op: R.Op, objects': Objects,
                    a: R.Answer, records: set<F.Stored>, records': set<F.Stored>)
    requires Ideal(s, stores.Keys) && R.Rel(s, stores, spaces, objects) && op.space in stores && R.GoodOp(op)
    requires ValidLists(stores[op.space]) && stores[op.space].nameKeys[0].key == op.space
    requires R.Performs(s, stores[op.space], objects, op, objects', a) && R.Answers(spaces, op, a)
    requires op.space in spaces && Linked(s, spaces, objects, records) && records <= records'
    requires Wraps(op) && a == R.Done ==>
      exists o :: o in records' && o.nameKey == op.space && o.key == op.key && o.kekId == stores[op.space].keks[0].id
    ensures Linked(s, R.Apply(spaces, op), objects', records')
  {
    hide TokenPath, ValidKey, Ideal, R.Rel, R.Performs, R.Answers, ParseHeader, ValidEntries, R.Apply;
    var spaces' := R.Apply(spaces, op);
    assert spaces'.Keys == spaces.Keys by { SameKeys(spaces, op); }
    if Wraps(op) && a == R.Done {
      WrapsUnderActive(s, stores, spaces, objects, op, objects', a);
    }
    forall m, other | m in spaces' && other in spaces'[m]
      ensures IsRecorded(s, objects', records', m, other)
    {
      if Wraps(op) && a == R.Done && m == op.space && other == op.key {
        var o :| o in records' && o.nameKey == op.space && o.key == op.key && o.kekId == stores[op.space].keks[0].id;
        assert Recorded(s, objects', m, other, o);
      } else {
        OthersStay(s, stores, spaces, objects, op, objects', a, m, other);
        assert IsRecorded(s, objects, records, m, other);
        var o :| o in records && Recorded(s, objects, m, other, o);
        assert Recorded(s, objects', m, other, o);
      }
    }
  }

  lemma SameKeys(spaces: R.Spaces, op: R.Op)
    requires op.space in spaces
    ensures R.Apply(spaces, op).Keys == spaces.Keys
  {
  }
}
