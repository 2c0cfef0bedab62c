/** Key entries, the lists that hold them, and scopes. The records are generic
    in what carries a key's material: a byte string where only its value
    matters, an array where it is shared and wiped in place. */
module Keys {
  import opened Basics
  import opened ScopeNames

  const KEY_LEN := 32

  type KeyId = s: Bytes | |s| == 8 witness [0, 0, 0, 0, 0, 0, 0, 0]

  datatype EntryOf<+M> = Entry(id: KeyId, created: int, key: M)

  /** Name keys decide where objects are found; key-encryption keys wrap their
      data keys. The first of each is the active one. */
  datatype ListsOf<+M> = Lists(nameKeys: seq<EntryOf<M>>, keks: seq<EntryOf<M>>)

  datatype ScopeOf<+M> = Scope(name: Text, prefix: Text, created: int, derivation: Text, keys: ListsOf<M>)

  datatype KeyringOf<+M> = Keyring(own: ListsOf<M>, scopes: seq<ScopeOf<M>>)

  type Entry = EntryOf<Bytes>
  type Lists = ListsOf<Bytes>
  type Scope = ScopeOf<Bytes>
  type Keyring = KeyringOf<Bytes>

  // ---------------------------------------------------------------- validity

  predicate DistinctIds<M>(entries: seq<EntryOf<M>>) {
    forall i, j :: 0 <= i < j < |entries| ==> entries[i].id != entries[j].id
  }

  predicate ValidEntries(entries: seq<Entry>) {
    && DistinctIds(entries)
    && forall i :: 0 <= i < |entries| ==> |entries[i].key| == KEY_LEN
  }

  predicate ValidLists(l: Lists) {
    l.nameKeys != [] && l.keks != [] && ValidEntries(l.nameKeys) && ValidEntries(l.keks)
  }

  predicate ValidScope(s: Scope) {
    ValidScopeName(s.name) && ValidScopePrefix(s.prefix) && ValidLists(s.keys)
  }

  /** No two scopes share a name, and no key lies inside two of them. */
  predicate Separate<M>(scopes: seq<ScopeOf<M>>) {
    forall i, j :: 0 <= i < j < |scopes| ==>
      scopes[i].name != scopes[j].name && !Overlap(scopes[i].prefix, scopes[j].prefix)
  }

  predicate ValidScopes(scopes: seq<Scope>) {
    && (forall i :: 0 <= i < |scopes| ==> ValidScope(scopes[i]))
    && Separate(scopes)
  }

  predicate ValidKeyring(k: Keyring) { ValidLists(k.own) && ValidScopes(k.scopes) }

  // ---------------------------------------------------------------- look-ups

  /** The key a blob's key id resolves to: the first entry carrying it. */
  function Lookup<M>(keks: seq<EntryOf<M>>, id: KeyId): (r: Option<M>)
    ensures r.Some? <==> exists i :: 0 <= i < |keks| && keks[i].id == id
  {
    if keks == [] then None
    else if keks[0].id == id then Some(keks[0].key)
    else
      assert forall i :: 1 <= i < |keks| ==> keks[i] == keks[1..][i - 1];
      assert forall i :: 0 <= i < |keks[1..]| ==> keks[1..][i] == keks[i + 1];
      Lookup(keks[1..], id)
  }

  /** Among distinct ids the look-up finds the entry wherever it stands. */
  lemma {:induction false} LookupFinds<M>(keks: seq<EntryOf<M>>, i: nat)
    requires DistinctIds(keks) && i < |keks|
    ensures Lookup(keks, keks[i].id) == Some(keks[i].key)
  {
    if i > 0 {
      assert forall j :: 0 <= j < |keks[1..]| ==> keks[1..][j] == keks[j + 1];
      LookupFinds(keks[1..], i - 1);
    }
  }

  lemma {:induction false} LookupComes<M>(keks: seq<EntryOf<M>>, id: KeyId)
    requires Lookup(keks, id).Some?
    ensures exists i :: 0 <= i < |keks| && keks[i].id == id && Some(keks[i].key) == Lookup(keks, id)
  {
    if keks[0].id == id {
      assert Some(keks[0].key) == Lookup(keks, id);
    } else {
      LookupComes(keks[1..], id);
      var i :| 0 <= i < |keks[1..]| && keks[1..][i].id == id && Some(keks[1..][i].key) == Lookup(keks[1..], id);
      assert keks[i + 1].id == id;
    }
  }

  /** A look-up survives any change that keeps the entry and the ids distinct. */
  lemma LookupWithin<M>(a: seq<EntryOf<M>>, b: seq<EntryOf<M>>, id: KeyId)
    requires DistinctIds(b)
    requires forall e :: e in a ==> e in b
    requires Lookup(a, id).Some?
    ensures Lookup(b, id) == Lookup(a, id)
  {
    LookupComes(a, id);
    var i :| 0 <= i < |a| && a[i].id == id && Some(a[i].key) == Lookup(a, id);
    assert a[i] in b;
    var j :| 0 <= j < |b| && b[j] == a[i];
    LookupFinds(b, j);
  }

  /** Two lists with distinct ids and the same entries answer every look-up
      alike, whatever their order. */
  lemma LookupIgnoresOrder<M>(a: seq<EntryOf<M>>, b: seq<EntryOf<M>>, id: KeyId)
    requires DistinctIds(a) && DistinctIds(b)
    requires forall e :: e in a <==> e in b
    ensures Lookup(a, id) == Lookup(b, id)
  {
    if Lookup(a, id).Some? { LookupWithin(a, b, id); }
    if Lookup(b, id).Some? { LookupWithin(b, a, id); }
  }

  /** The scope a logical key is routed to: the first whose prefix it starts with. */
  function ScopeOwning<M>(scopes: seq<ScopeOf<M>>, key: Text): Option<ScopeOf<M>> {
    if scopes == [] then None
    else if Owns(scopes[0].prefix, key) then Some(scopes[0])
    else ScopeOwning(scopes[1..], key)
  }

  function ScopeNamed<M>(scopes: seq<ScopeOf<M>>, name: Text): Option<ScopeOf<M>> {
    if scopes == [] then None
    else if scopes[0].name == name then Some(scopes[0])
    else ScopeNamed(scopes[1..], name)
  }

  /** Routing is unambiguous: the answer is the scope that owns the key, and
      there is at most one of them. */
  lemma {:induction false} OwnerIsUnique<M>(scopes: seq<ScopeOf<M>>, key: Text)
    requires Separate(scopes)
    ensures forall s :: s in scopes && Owns(s.prefix, key) ==> ScopeOwning(scopes, key) == Some(s)
    ensures match ScopeOwning(scopes, key)
            case Some(s) => s in scopes && Owns(s.prefix, key)
            case None => true
  {
    if scopes != [] {
      assert forall i :: 0 <= i < |scopes[1..]| ==> scopes[1..][i] == scopes[i + 1];
      OwnerIsUnique(scopes[1..], key);
      if Owns(scopes[0].prefix, key) {
        forall j | 1 <= j < |scopes|
          ensures !Owns(scopes[j].prefix, key)
        {
          OverlapIffCommonKey(scopes[0].prefix, scopes[j].prefix);
        }
      }
      forall s
        ensures s in scopes <==> s == scopes[0] || s in scopes[1..]
      {
        assert scopes == [scopes[0]] + scopes[1..];
      }
    }
  }

  lemma {:induction false} NamedIsUnique<M>(scopes: seq<ScopeOf<M>>, name: Text)
    requires Separate(scopes)
    ensures forall s :: s in scopes && s.name == name ==> ScopeNamed(scopes, name) == Some(s)
    ensures match ScopeNamed(scopes, name)
            case Some(s) => s in scopes && s.name == name
            case None => true
  {
    if scopes != [] {
      assert forall i :: 0 <= i < |scopes[1..]| ==> scopes[1..][i] == scopes[i + 1];
      NamedIsUnique(scopes[1..], name);
      forall s
        ensures s in scopes <==> s == scopes[0] || s in scopes[1..]
      {
        assert scopes == [scopes[0]] + scopes[1..];
      }
    }
  }

  /** Routing does not depend on the order in which scopes are held. */
  lemma RoutingIgnoresOrder<M>(a: seq<ScopeOf<M>>, b: seq<ScopeOf<M>>, key: Text)
    requires Separate(a) && Separate(b)
    requires forall s :: s in a <==> s in b
    ensures ScopeOwning(a, key) == ScopeOwning(b, key)
  {
    OwnerIsUnique(a, key);
    OwnerIsUnique(b, key);
    if ScopeOwning(a, key).Some? {
      var s := ScopeOwning(a, key).value;
      assert s in a && s in b;
    }
    if ScopeOwning(b, key).Some? {
      var s := ScopeOwning(b, key).value;
      assert s in b && s in a;
    }
  }
}
