/** Rotating every scope's key-encryption key, and moving a key a scope already
    holds into and out of use. */
module Rotations {
  import opened Basics
  import opened Keys
  import opened Keyrings

  /** One scope whose wrapping key a rotation moved. */
  datatype Moved = Moved(scope: Text, previous: KeyId, active: KeyId)

  function Rotated(s: Scope, minted: Entry): Scope { s.(keys := AddKek(s.keys, minted)) }

  predicate CanRotate(s: Scope, minted: Entry) { s.keys.keks != [] && ValidScope(Rotated(s, minted)) }

  function Rotate(k: Keyring, minted: seq<Entry>): Option<Keyring>
    requires |minted| == |k.scopes|
  {
    if forall i :: 0 <= i < |minted| ==> CanRotate(k.scopes[i], minted[i])
    then Some(k.(scopes := seq(|minted|, i requires 0 <= i < |minted| => Rotated(k.scopes[i], minted[i]))))
    else None
  }

  /** Which key replaced which. */
  function Report(k: Keyring, minted: seq<Entry>): seq<Moved>
    requires |minted| == |k.scopes| && forall i :: 0 <= i < |minted| ==> k.scopes[i].keys.keks != []
  {
    seq(|minted|, i requires 0 <= i < |minted| =>
      Moved(k.scopes[i].name, k.scopes[i].keys.keks[0].id, minted[i].id))
  }

  method RotateScopeKeks(k: Keyring, minted: seq<Entry>) returns (r: Option<(Keyring, seq<Moved>)>)
    requires |minted| == |k.scopes|
    ensures r.Some? <==> Rotate(k, minted).Some?
    ensures r.Some? ==> r.value == (Rotate(k, minted).value, Report(k, minted))
  {
    hide ValidScope;
    if k.scopes == [] {
      assert Rotate(k, minted).value.scopes == k.scopes && Report(k, minted) == [];
      return Some((k, []));
    }
    var scopes, moved := [], [];
    for i := 0 to |k.scopes|
      invariant |scopes| == |moved| == i
      invariant forall j :: 0 <= j < i ==> CanRotate(k.scopes[j], minted[j])
      invariant forall j :: 0 <= j < i ==> scopes[j] == Rotated(k.scopes[j], minted[j])
      invariant forall j :: 0 <= j < i ==>
        moved[j] == Moved(k.scopes[j].name, k.scopes[j].keys.keks[0].id, minted[j].id)
    {
      var s := k.scopes[i];
      if s.keys.keks == [] { return None; }
      var next := Rotated(s, minted[i]);
      var valid := CheckScope(next);
      if !valid { return None; }
      scopes := scopes + [next];
      moved := moved + [Moved(s.name, s.keys.keks[0].id, minted[i].id)];
    }
    assert Rotate(k, minted).value.scopes == scopes;
    assert Report(k, minted) == moved;
    r := Some((k.(scopes := scopes), moved));
  }

  /** A rotation of a valid keyring fails only on a minted key of the wrong length
      or under an id its scope already holds; otherwise every key stays, the new
      one first, and the keyring is still valid. */
  lemma RotationSucceedsIff(k: Keyring, minted: seq<Entry>)
    requires ValidKeyring(k) && |minted| == |k.scopes|
    ensures Rotate(k, minted).Some?
      <==> forall i :: 0 <= i < |minted| ==>
             |minted[i].key| == KEY_LEN && Lookup(k.scopes[i].keys.keks, minted[i].id).None?
    ensures Rotate(k, minted).Some? ==> ValidKeyring(Rotate(k, minted).value)
  {
    forall i | 0 <= i < |minted|
      ensures CanRotate(k.scopes[i], minted[i])
        <==> |minted[i].key| == KEY_LEN && Lookup(k.scopes[i].keys.keks, minted[i].id).None?
    {
      Prepend(k.scopes[i].keys.keks, minted[i]);
    }
  }

  lemma Prepend(keks: seq<Entry>, e: Entry)
    requires ValidEntries(keks)
    ensures ValidEntries([e] + keks) <==> |e.key| == KEY_LEN && Lookup(keks, e.id).None?
  {
    var all := [e] + keks;
    hide Lookup;
    if DistinctIds(all) {
      forall i | 0 <= i < |keks|
        ensures keks[i].id != e.id
      {
        assert all[i + 1] == keks[i] && all[0] == e;
      }
    }
    if forall i :: 0 <= i < |keks| ==> keks[i].id != e.id {
      forall i, j | 0 <= i < j < |all|
        ensures all[i].id != all[j].id
      {
        assert all[j] == keks[j - 1] && all[i] == if i == 0 then e else keks[i - 1];
      }
    }
    forall i | 0 <= i < |all|
      ensures |all[i].key| == KEY_LEN <==> i > 0 || |e.key| == KEY_LEN
    {
      assert all[i] == if i == 0 then e else keks[i - 1];
    }
    assert all[0] == e;
  }

  // ---------------------------------------------------------------- choosing the active key

  /** The first entry carrying an id. */
  function IndexOf(keks: seq<Entry>, id: KeyId): (r: Option<nat>)
    ensures match r
            case None => forall i :: 0 <= i < |keks| ==> keks[i].id != id
            case Some(at) => at < |keks| && keks[at].id == id && forall i :: 0 <= i < at ==> keks[i].id != id
  {
    if keks == [] then None
    else if keks[0].id == id then Some(0)
    else
      match IndexOf(keks[1..], id)
      case None => assert forall i :: 1 <= i < |keks| ==> keks[i] == keks[1..][i - 1]; None
      case Some(at) => assert forall i :: 1 <= i < |keks| ==> keks[i] == keks[1..][i - 1]; Some(at + 1)
  }

  function MoveToFront(keks: seq<Entry>, at: nat): seq<Entry>
    requires at < |keks|
  {
    [keks[at]] + keks[..at] + keks[at + 1..]
  }

  function Activated(s: Scope, id: KeyId): Option<Scope> {
    match IndexOf(s.keys.keks, id)
    case None => None
    case Some(at) =>
      var next := s.(keys := s.keys.(keks := MoveToFront(s.keys.keks, at)));
      if ValidScope(next) then Some(next) else None
  }

  /** A name is spent on the first scope that bears it. */
  predicate Affected(scopes: seq<Scope>, active: map<Text, KeyId>, i: nat)
    requires i < |scopes|
  {
    scopes[i].name in active && forall j :: 0 <= j < i ==> scopes[j].name != scopes[i].name
  }

  function Reactivated(scopes: seq<Scope>, active: map<Text, KeyId>, i: nat): Option<Scope>
    requires i < |scopes|
  {
    if Affected(scopes, active, i) then Activated(scopes[i], active[scopes[i].name]) else Some(scopes[i])
  }

  predicate Named(scopes: seq<Scope>, name: Text) { exists i :: 0 <= i < |scopes| && scopes[i].name == name }

  function WithScopeActive(k: Keyring, active: map<Text, KeyId>): Option<Keyring> {
    if && (forall i :: 0 <= i < |k.scopes| ==> Reactivated(k.scopes, active, i).Some?)
       && (forall name :: name in active ==> Named(k.scopes, name))
    then Some(k.(scopes := seq(|k.scopes|, i requires 0 <= i < |k.scopes| => Reactivated(k.scopes, active, i).value)))
    else None
  }

  method ActivateOne(s: Scope, id: KeyId) returns (r: Option<Scope>)
    ensures r == Activated(s, id)
  {
    var keks := s.keys.keks;
    var at := 0;
    while at < |keks| && keks[at].id != id
      invariant at <= |keks|
      invariant forall j :: 0 <= j < at ==> keks[j].id != id
    {
      at := at + 1;
    }
    if at == |keks| { return None; }
    var next := s.(keys := s.keys.(keks := [keks[at]] + keks[..at] + keks[at + 1..]));
    var valid := CheckScope(next);
    r := if valid then Some(next) else None;
  }

  method SetScopeActive(k: Keyring, active: map<Text, KeyId>) returns (r: Option<Keyring>)
    ensures r == WithScopeActive(k, active)
  {
    hide Activated;
    var pending, scopes := active, [];
    for i := 0 to |k.scopes|
      invariant |scopes| == i
      invariant forall j :: 0 <= j < i ==> Reactivated(k.scopes, active, j) == Some(scopes[j])
      invariant forall name :: name in pending <==> name in active && !Named(k.scopes[..i], name)
      invariant forall name :: name in pending ==> pending[name] == active[name]
    {
      var s := k.scopes[i];
      forall name
        ensures Named(k.scopes[..i + 1], name) <==> Named(k.scopes[..i], name) || s.name == name
      {
        assert k.scopes[..i + 1] == k.scopes[..i] + [s];
        assert k.scopes[..i + 1][i] == s;
        assert forall j :: 0 <= j < i ==> k.scopes[..i + 1][j] == k.scopes[..i][j];
      }
      assert Named(k.scopes[..i], s.name) <==> exists j :: 0 <= j < i && k.scopes[j].name == s.name;
      if s.name !in pending {
        scopes := scopes + [s];
      } else {
        assert Reactivated(k.scopes, active, i) == Activated(s, active[s.name]);
        var next := ActivateOne(s, pending[s.name]);
        if next.None? { return None; }
        pending := pending - {s.name};
        scopes := scopes + [next.value];
      }
    }
    assert k.scopes[..|k.scopes|] == k.scopes;
    if pending != map[] {
      ghost var name :| name in pending;
      return None;
    }
    assert forall name :: name in active ==> Named(k.scopes, name);
    assert WithScopeActive(k, active).value.scopes == scopes;
    r := Some(k.(scopes := scopes));
  }
}
