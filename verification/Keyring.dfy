/** The keyring's own checks and the operations that add to it. */
module Keyrings {
  import opened Basics
  import opened Paths
  import opened ScopeNames
  import opened Keys

  /** A scope that can be added beside these: its name and subtree are free. */
  predicate Fits(scopes: seq<Scope>, s: Scope) {
    forall i :: 0 <= i < |scopes| ==> scopes[i].name != s.name && !Overlap(scopes[i].prefix, s.prefix)
  }

  function AddScope(k: Keyring, s: Scope): Option<Keyring> {
    if ValidScope(s) && Fits(k.scopes, s) then Some(k.(scopes := k.scopes + [s])) else None
  }

  /** A list of keys as it must be: something in it, each key 32 bytes, under an id that
      no other has. */
  predicate GoodList(entries: seq<Entry>) {
    && entries != [] && (forall i :: 0 <= i < |entries| ==> |entries[i].key| == 32)
    && forall i, j :: 0 <= i < |entries| && 0 <= j < |entries| && entries[i].id == entries[j].id ==> i == j
  }

  /** A scope name as it must be: up to 63 lowercase letters, digits and dashes, a letter
      first. */
  predicate GoodName(name: Text) {
    && 1 <= |name| <= 63 && 97 <= name[0] <= 122
    && forall i :: 0 <= i < |name| ==> 97 <= name[i] <= 122 || 48 <= name[i] <= 57 || name[i] == 45
  }

  /** When a keyring is valid: its lists are, its scopes have names and subtrees, no two
      of them one name, and no logical key lies in two of them. */
  lemma ValidIff(k: Keyring)
    ensures ValidKeyring(k) <==>
      && GoodList(k.own.nameKeys) && GoodList(k.own.keks)
      && (forall i :: 0 <= i < |k.scopes| ==>
            var s := k.scopes[i];
            && GoodName(s.name) && GoodList(s.keys.nameKeys) && GoodList(s.keys.keks)
            && exists key :: ValidKey(key) && s.prefix == key + [47])
      && (forall i, j :: 0 <= i < j < |k.scopes| ==>
            k.scopes[i].name != k.scopes[j].name
            && !exists key :: Owns(k.scopes[i].prefix, key) && Owns(k.scopes[j].prefix, key))
  {
    hide ValidKey, Overlap, Owns, GoodName, GoodList, ValidEntries, ValidScopeName, ValidScopePrefix;
    ListsIff(k.own);
    forall i | 0 <= i < |k.scopes|
      ensures ValidLists(k.scopes[i].keys) <==> GoodList(k.scopes[i].keys.nameKeys) && GoodList(k.scopes[i].keys.keks)
      ensures ValidScopeName(k.scopes[i].name) <==> GoodName(k.scopes[i].name)
      ensures ValidScopePrefix(k.scopes[i].prefix) <==> exists key :: ValidKey(key) && k.scopes[i].prefix == key + [47]
    {
      ListsIff(k.scopes[i].keys);
      NameIff(k.scopes[i].name);
      PrefixIff(k.scopes[i].prefix);
    }
    hide ValidLists;
    forall i, j | 0 <= i < j < |k.scopes|
      ensures Overlap(k.scopes[i].prefix, k.scopes[j].prefix)
        <==> exists key :: Owns(k.scopes[i].prefix, key) && Owns(k.scopes[j].prefix, key)
    {
      OverlapIffCommonKey(k.scopes[i].prefix, k.scopes[j].prefix);
    }
  }

  lemma ListsIff(l: Lists)
    ensures ValidLists(l) <==> GoodList(l.nameKeys) && GoodList(l.keks)
  {
  }

  lemma NameIff(name: Text)
    ensures ValidScopeName(name) <==> GoodName(name)
  {
  }

  lemma PrefixIff(prefix: Text)
    ensures ValidScopePrefix(prefix) <==> exists key :: ValidKey(key) && prefix == key + [47]
  {
    hide ValidKey;
    if ValidScopePrefix(prefix) {
      assert prefix == prefix[..|prefix| - 1] + [47];
    }
    forall key | ValidKey(key) && prefix == key + [47]
      ensures ValidScopePrefix(prefix)
    {
      assert prefix[..|prefix| - 1] == key;
    }
  }

  /** A new key-encryption key goes first, so it wraps what is written next. */
  function AddKek(l: Lists, e: Entry): Lists { l.(keks := [e] + l.keks) }

  /** Adding a scope to a valid keyring is refused exactly when the keyring would
      stop being valid. */
  lemma AddScopeIffStillValid(k: Keyring, s: Scope)
    requires ValidKeyring(k)
    ensures AddScope(k, s).Some? <==> ValidKeyring(k.(scopes := k.scopes + [s]))
    ensures AddScope(k, s).Some? ==> AddScope(k, s).value == Keyring(k.own, k.scopes + [s])
  {
    var all := k.scopes + [s];
    assert all[|k.scopes|] == s && forall i :: 0 <= i < |k.scopes| ==> all[i] == k.scopes[i];
    if ValidScopes(all) {
      assert Fits(k.scopes, s);
    }
  }

  // ---------------------------------------------------------------- the checks

  method CheckEntries(entries: seq<Entry>) returns (ok: bool)
    ensures ok == ValidEntries(entries)
  {
    var seen: set<KeyId> := {};
    for i := 0 to |entries|
      invariant forall j :: 0 <= j < i ==> |entries[j].key| == KEY_LEN && entries[j].id in seen
      invariant forall id :: id in seen ==> exists j :: 0 <= j < i && entries[j].id == id
      invariant DistinctIds(entries[..i])
    {
      if |entries[i].key| != KEY_LEN || entries[i].id in seen { return false; }
      assert forall j :: 0 <= j < i ==> entries[..i][j] == entries[j];
      seen := seen + {entries[i].id};
    }
    assert entries[..|entries|] == entries;
    ok := true;
  }

  method CheckLists(l: Lists) returns (ok: bool)
    ensures ok == ValidLists(l)
  {
    if l.nameKeys == [] || l.keks == [] { return false; }
    ok := CheckEntries(l.nameKeys);
    if ok { ok := CheckEntries(l.keks); }
  }

  method CheckScope(s: Scope) returns (ok: bool)
    ensures ok == ValidScope(s)
  {
    ok := ValidScopeName(s.name) && ValidScopePrefix(s.prefix);
    if ok { ok := CheckLists(s.keys); }
  }

  method CheckNames(scopes: seq<Scope>) returns (ok: bool)
    ensures ok <==> (
      && (forall i :: 0 <= i < |scopes| ==> ValidScope(scopes[i]))
      && (forall i, j :: 0 <= i < j < |scopes| ==> scopes[i].name != scopes[j].name))
  {
    hide ValidScope;
    var seen: set<Text> := {};
    for i := 0 to |scopes|
      invariant forall j :: 0 <= j < i ==> ValidScope(scopes[j]) && scopes[j].name in seen
      invariant forall name :: name in seen ==> exists j :: 0 <= j < i && scopes[j].name == name
      invariant forall a, b :: 0 <= a < b < i ==> scopes[a].name != scopes[b].name
    {
      var valid := CheckScope(scopes[i]);
      if !valid || scopes[i].name in seen { return false; }
      seen := seen + {scopes[i].name};
    }
    ok := true;
  }

  method CheckPrefixes(scopes: seq<Scope>) returns (ok: bool)
    ensures ok <==> forall i, j :: 0 <= i < j < |scopes| ==> !Overlap(scopes[i].prefix, scopes[j].prefix)
  {
    hide Overlap;
    for i := 0 to |scopes|
      invariant forall a, b :: 0 <= a < i && a < b < |scopes| ==> !Overlap(scopes[a].prefix, scopes[b].prefix)
    {
      for j := i + 1 to |scopes|
        invariant forall b :: i < b < j ==> !Overlap(scopes[i].prefix, scopes[b].prefix)
      {
        if Overlap(scopes[i].prefix, scopes[j].prefix) { return false; }
      }
    }
    ok := true;
  }

  method CheckKeyring(k: Keyring) returns (ok: bool)
    ensures ok == ValidKeyring(k)
  {
    hide ValidScope, ValidLists;
    ok := CheckLists(k.own);
    if ok { ok := CheckNames(k.scopes); }
    if ok { ok := CheckPrefixes(k.scopes); }
  }

  method FindOwner(scopes: seq<Scope>, key: Text) returns (r: Option<Scope>)
    ensures r == ScopeOwning(scopes, key)
  {
    for i := 0 to |scopes|
      invariant ScopeOwning(scopes, key) == ScopeOwning(scopes[i..], key)
    {
      assert scopes[i..][1..] == scopes[i + 1..];
      if Owns(scopes[i].prefix, key) { return Some(scopes[i]); }
    }
    r := None;
  }

  method TryAddScope(k: Keyring, s: Scope) returns (r: Option<Keyring>)
    ensures r == AddScope(k, s)
  {
    hide ValidScope;
    var valid := CheckScope(s);
    if !valid { return None; }
    for i := 0 to |k.scopes|
      invariant Fits(k.scopes[..i], s)
    {
      assert forall j :: 0 <= j < i ==> k.scopes[..i][j] == k.scopes[j];
      if k.scopes[i].name == s.name || Overlap(k.scopes[i].prefix, s.prefix) { return None; }
    }
    assert k.scopes[..|k.scopes|] == k.scopes;
    r := Some(k.(scopes := k.scopes + [s]));
  }
}
