/** Keyrings only ever grow: whatever routes to a scope, is found under its name
    key and unwraps under one of its keys still does after every operation. */
module Growth {
  import opened Basics
  import opened ScopeNames
  import opened Examples
  import opened Keys
  import opened Keyrings
  import opened Merging
  import opened MergeLaws
  import opened Rotations
  import opened RotationLaws

  predicate SameNameKey(a: Scope, b: Scope) {
    a.keys.nameKeys != [] && b.keys.nameKeys != [] && b.keys.nameKeys[0].key == a.keys.nameKeys[0].key
  }

  /** The same subtree and the same active name key, and every key id that
      resolved still resolves to the same key. */
  ghost predicate ScopeGrows(a: Scope, b: Scope) {
    && b.name == a.name && b.prefix == a.prefix
    && SameNameKey(a, b)
    && Absorbs(b.keys.keks, a.keys.keks)
  }

  ghost predicate Grows(a: seq<Scope>, b: seq<Scope>) {
    forall name :: ScopeNamed(a, name).Some? ==> GrowsAt(a, b, name)
  }

  ghost predicate GrowsAt(a: seq<Scope>, b: seq<Scope>, name: Text)
    requires ScopeNamed(a, name).Some?
  {
    ScopeNamed(b, name).Some? && ScopeGrows(ScopeNamed(a, name).value, ScopeNamed(b, name).value)
  }

  lemma GrowsTransitive(a: seq<Scope>, b: seq<Scope>, c: seq<Scope>)
    requires Grows(a, b) && Grows(b, c)
    ensures Grows(a, c)
  {
    hide ScopeNamed;
    forall name | ScopeNamed(a, name).Some?
      ensures GrowsAt(a, c, name)
    {
      assert GrowsAt(a, b, name);
      assert GrowsAt(b, c, name);
    }
  }

  /** Growing scope by scope is growing. */
  lemma PointwiseGrows(a: seq<Scope>, b: seq<Scope>)
    requires Separate(a) && Separate(b) && |a| <= |b|
    requires forall i :: 0 <= i < |a| ==> ScopeGrows(a[i], b[i])
    ensures Grows(a, b)
  {
    forall name | ScopeNamed(a, name).Some?
      ensures GrowsAt(a, b, name)
    {
      NamedIsAt(a, name);
      var i :| 0 <= i < |a| && a[i].name == name;
      NamedAt(a, i);
      NamedAt(b, i);
    }
  }

  lemma AddScopeGrows(k: Keyring, s: Scope)
    requires ValidKeyring(k) && AddScope(k, s).Some?
    ensures ValidKeyring(AddScope(k, s).value)
    ensures Grows(k.scopes, AddScope(k, s).value.scopes)
  {
    AddScopeIffStillValid(k, s);
    PointwiseGrows(k.scopes, k.scopes + [s]);
  }

  lemma PrependAbsorbs(keks: seq<Entry>, e: Entry)
    requires ValidEntries([e] + keks)
    ensures Absorbs([e] + keks, keks)
  {
    var all := [e] + keks;
    assert all[1..] == keks && all[0] == e;
    assert forall i :: 0 <= i < |keks| ==> all[i + 1] == keks[i] && all[i + 1].id != all[0].id;
  }

  lemma RotateGrows(k: Keyring, minted: seq<Entry>)
    requires ValidKeyring(k) && |minted| == |k.scopes| && Rotate(k, minted).Some?
    ensures ValidKeyring(Rotate(k, minted).value)
    ensures Grows(k.scopes, Rotate(k, minted).value.scopes)
  {
    hide Absorbs, Lookup, Overlap;
    RotationSucceedsIff(k, minted);
    var r := Rotate(k, minted).value;
    forall i | 0 <= i < |k.scopes|
      ensures ScopeGrows(k.scopes[i], r.scopes[i])
    {
      assert ValidScope(r.scopes[i]);
      PrependAbsorbs(k.scopes[i].keys.keks, minted[i]);
    }
    PointwiseGrows(k.scopes, r.scopes);
  }

  /** Choosing active keys neither gains nor loses anything. */
  lemma ActivationGrowsBothWays(k: Keyring, active: map<Text, KeyId>)
    requires ValidKeyring(k) && WithScopeActive(k, active).Some?
    ensures ValidKeyring(WithScopeActive(k, active).value)
    ensures Grows(k.scopes, WithScopeActive(k, active).value.scopes)
    ensures Grows(WithScopeActive(k, active).value.scopes, k.scopes)
  {
    hide WithScopeActive, Lookup, Overlap, Others;
    ActivationSucceedsIff(k, active);
    var r := WithScopeActive(k, active).value;
    forall i | 0 <= i < |k.scopes|
      ensures ScopeGrows(k.scopes[i], r.scopes[i]) && ScopeGrows(r.scopes[i], k.scopes[i])
    {
      assert Kept(k.scopes[i], r.scopes[i], active);
    }
    PointwiseGrows(k.scopes, r.scopes);
    PointwiseGrows(r.scopes, k.scopes);
  }

  lemma MergeGrows(k: Keyring, other: Keyring)
    requires ValidKeyring(k) && ValidKeyring(other) && Merge(k, other).Some?
    ensures ValidKeyring(Merge(k, other).value)
    ensures Grows(k.scopes, Merge(k, other).value.scopes)
  {
    hide Merge, MergeLists, Lookup, Overlap, ScopeNamed;
    MergeIsUnion(k, other);
    var r := Merge(k, other).value;
    forall name | ScopeNamed(k.scopes, name).Some?
      ensures GrowsAt(k.scopes, r.scopes, name)
    {
      assert NameMerged(r.scopes, k.scopes, other.scopes, name);
      NamedIsAt(k.scopes, name);
      NamedIsAt(other.scopes, name);
      if ScopeNamed(other.scopes, name).Some? {
        ListsMerge(ScopeNamed(k.scopes, name).value.keys, ScopeNamed(other.scopes, name).value.keys);
      }
    }
  }

  /** The incoming side keeps everything too, exactly where its active name key is
      the live side's: sharing an older one lets the merge through, but objects
      named under the incoming active key are then looked for elsewhere. */
  lemma IncomingGrowsIff(k: Keyring, other: Keyring, name: Text)
    requires ValidKeyring(k) && ValidKeyring(other) && Merge(k, other).Some?
    requires ScopeNamed(other.scopes, name).Some?
    ensures GrowsAt(other.scopes, Merge(k, other).value.scopes, name)
      <==> match ScopeNamed(k.scopes, name)
           case None => true
           case Some(a) => SameNameKey(a, ScopeNamed(other.scopes, name).value)
  {
    hide Merge, MergeLists, Lookup, ScopeNamed;
    MergeIsUnion(k, other);
    var r := Merge(k, other).value;
    assert NameMerged(r.scopes, k.scopes, other.scopes, name);
    NamedIsAt(k.scopes, name);
    NamedIsAt(other.scopes, name);
    match ScopeNamed(k.scopes, name)
    case None =>
    case Some(a) =>
      var b := ScopeNamed(other.scopes, name).value;
      var i :| 0 <= i < |k.scopes| && k.scopes[i] == a;
      var j :| 0 <= j < |other.scopes| && other.scopes[j] == b;
      assert ScopesCompatible(k.scopes[i], other.scopes[j]);
      ListsMerge(a.keys, b.keys);
  }

  /** It can fail: name keys 1 and 2 on the live side and 2 on the incoming side
      share an entry, so they merge, and what was named under 2 is looked for under
      1. No operation adds a name key, so only a keyring file written otherwise
      brings a scope with two of them. */
  lemma MergeCanHideIncoming()
    ensures
      var one, two, kek := ExampleEntry(1), ExampleEntry(2), ExampleEntry(3);
      var live, other := ExampleKeyring([one, two], [kek]), ExampleKeyring([two], [kek]);
      && ValidKeyring(live) && ValidKeyring(other) && Merge(live, other).Some?
      && ScopeNamed(other.scopes, Ascii("a")).Some?
      && !GrowsAt(other.scopes, Merge(live, other).value.scopes, Ascii("a"))
  {
    var one, two, kek := ExampleEntry(1), ExampleEntry(2), ExampleEntry(3);
    MarksDiffer(1, 2);
    ExampleIsValid([one, two], [kek]);
    ExampleIsValid([two], [kek]);
    var live, other := ExampleKeyring([one, two], [kek]), ExampleKeyring([two], [kek]);
    MergesInto(live, other, one, two, kek);
    IncomingGrowsIff(live, other, Ascii("a"));
  }

  lemma MergesInto(live: Keyring, other: Keyring, one: Entry, two: Entry, kek: Entry)
    requires live == ExampleKeyring([one, two], [kek]) && other == ExampleKeyring([two], [kek])
    requires ValidKeyring(live) && ValidKeyring(other) && one.id != two.id
    ensures Merge(live, other).Some?
  {
    hide Merge, MergeLists, MergeEntries, MergeScopes, ValidScope;
    MergeIsUnion(live, other);
    hide ScopesUnion, ListsUnion;
    assert [one, two][1..] == [two];
    var a, b := live.scopes[0], other.scopes[0];
    assert a.keys.nameKeys[1].id == b.keys.nameKeys[0].id;
    assert ShareAnEntry(a.keys.nameKeys, b.keys.nameKeys);
    assert ListsAgree(a.keys, b.keys);
  }

  /** What growth is for: a key is routed to the scope that owned it before, and
      an object stored under it is still found and still unwraps. */
  lemma GrowthKeepsReading(a: seq<Scope>, b: seq<Scope>, key: Text)
    requires Separate(a) && Separate(b) && Grows(a, b) && ScopeOwning(a, key).Some?
    ensures ScopeOwning(b, key).Some? && ScopeGrows(ScopeOwning(a, key).value, ScopeOwning(b, key).value)
  {
    var s := ScopeOwning(a, key).value;
    OwnerIsUnique(a, key);
    NamedIsUnique(a, s.name);
    assert GrowsAt(a, b, s.name);
    NamedIsUnique(b, s.name);
    OwnerIsUnique(b, key);
    assert ScopeNamed(b, s.name).value in b;
  }
}
