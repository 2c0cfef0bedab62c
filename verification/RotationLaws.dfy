/** Why a rotated key can be handed out before it is used: holding it and making
    it active are both rearrangements that lose nothing, and together they give
    exactly the rotated keyring. */
module RotationLaws {
  import opened Basics
  import opened ScopeNames
  import opened Keys
  import opened Rotations

  /** A key list without one of its keys. */
  function Others(keks: seq<Entry>, id: KeyId): seq<Entry> {
    if keks == [] then []
    else (if keks[0].id == id then [] else [keks[0]]) + Others(keks[1..], id)
  }

  lemma {:induction false} OthersAppend(a: seq<Entry>, b: seq<Entry>, id: KeyId)
    ensures Others(a + b, id) == Others(a, id) + Others(b, id)
  {
    if a == [] {
      assert a + b == b;
    } else {
      assert (a + b)[1..] == a[1..] + b;
      OthersAppend(a[1..], b, id);
    }
  }

  /** The same keys, the chosen one first and the others in their own order. */
  ghost predicate Promotes(next: seq<Entry>, keks: seq<Entry>, id: KeyId) {
    && next != [] && next[0].id == id
    && multiset(next) == multiset(keks)
    && Others(next, id) == Others(keks, id)
    && forall other :: Lookup(next, other) == Lookup(keks, other)
  }

  lemma MoveKeepsOrder(keks: seq<Entry>, at: nat)
    requires at < |keks|
    ensures Others(MoveToFront(keks, at), keks[at].id) == Others(keks, keks[at].id)
  {
    hide Others;
    var a, e, b := keks[..at], keks[at], keks[at + 1..];
    assert keks == a + ([e] + b);
    assert MoveToFront(keks, at) == [e] + (a + b) by { Regroup([e], a, b); }
    OrderOfOthers(a, e, b);
  }

  lemma Regroup(a: seq<Entry>, b: seq<Entry>, c: seq<Entry>)
    ensures a + b + c == a + (b + c)
  {
  }

  lemma OrderOfOthers(a: seq<Entry>, e: Entry, b: seq<Entry>)
    ensures Others(a + ([e] + b), e.id) == Others(a, e.id) + Others(b, e.id) == Others([e] + (a + b), e.id)
  {
    assert ([e] + b)[1..] == b && ([e] + (a + b))[1..] == a + b;
    OthersAppend(a, [e] + b, e.id);
    OthersAppend(a, b, e.id);
  }

  lemma MoveKeepsKeys(keks: seq<Entry>, at: nat)
    requires at < |keks|
    ensures multiset(MoveToFront(keks, at)) == multiset(keks)
  {
    assert keks == keks[..at] + ([keks[at]] + keks[at + 1..]);
  }

  lemma MoveStaysValid(keks: seq<Entry>, at: nat)
    requires ValidEntries(keks) && at < |keks|
    ensures ValidEntries(MoveToFront(keks, at))
  {
    var next := MoveToFront(keks, at);
    assert forall i :: 0 <= i < |keks| ==> next[i] == keks[if i == 0 then at else if i <= at then i - 1 else i];
    forall i, j | 0 <= i < j < |next|
      ensures next[i].id != next[j].id
    {
      var x := if i == 0 then at else if i <= at then i - 1 else i;
      var y := if j <= at then j - 1 else j;
      assert keks[x].id != keks[y].id;
    }
  }

  lemma MovePromotes(keks: seq<Entry>, at: nat)
    requires ValidEntries(keks) && at < |keks|
    ensures ValidEntries(MoveToFront(keks, at))
    ensures Promotes(MoveToFront(keks, at), keks, keks[at].id)
  {
    hide Others, Lookup;
    var next := MoveToFront(keks, at);
    MoveKeepsOrder(keks, at);
    MoveKeepsKeys(keks, at);
    MoveStaysValid(keks, at);
    forall x
      ensures x in next <==> x in keks
    {
      assert x in next <==> x in multiset(next);
    }
    hide MoveToFront;
    forall other { LookupIgnoresOrder(next, keks, other); }
  }

  lemma ActivationPromotes(s: Scope, id: KeyId)
    requires ValidScope(s)
    ensures Activated(s, id).Some? <==> Lookup(s.keys.keks, id).Some?
    ensures match Activated(s, id)
            case None => true
            case Some(next) =>
              && ValidScope(next)
              && next == s.(keys := s.keys.(keks := next.keys.keks))
              && Promotes(next.keys.keks, s.keys.keks, id)
  {
    hide ValidScopeName, ValidScopePrefix, MoveToFront;
    match IndexOf(s.keys.keks, id)
    case None =>
    case Some(at) => MovePromotes(s.keys.keks, at);
  }

  /** Choosing active keys in a valid keyring is refused exactly when a scope, or
      the key a scope was to use, is not there; otherwise each named scope has
      its key moved to the front and everything else is as it was. */
  lemma ActivationSucceedsIff(k: Keyring, active: map<Text, KeyId>)
    requires ValidKeyring(k)
    ensures WithScopeActive(k, active).Some? <==> forall name :: name in active ==>
      match ScopeNamed(k.scopes, name)
      case None => false
      case Some(s) => Lookup(s.keys.keks, active[name]).Some?
    ensures match WithScopeActive(k, active)
            case None => true
            case Some(r) =>
              && ValidKeyring(r) && r.own == k.own && |r.scopes| == |k.scopes|
              && forall i :: 0 <= i < |k.scopes| ==> Kept(k.scopes[i], r.scopes[i], active)
  {
    hide WithScopeActive, Kept, Lookup, ScopeNamed, ValidKeyring;
    CanActivateIff(k, active);
    if WithScopeActive(k, active).Some? { ActivationKeeps(k, active); }
  }

  /** Each scope can be found and has the key it is to use. */
  predicate CanUse(k: Keyring, name: Text, id: KeyId) {
    match ScopeNamed(k.scopes, name)
    case None => false
    case Some(s) => Lookup(s.keys.keks, id).Some?
  }

  lemma CanActivateIff(k: Keyring, active: map<Text, KeyId>)
    requires ValidKeyring(k)
    ensures WithScopeActive(k, active).Some? <==> forall name :: name in active ==> CanUse(k, name, active[name])
  {
    hide Reactivated, Lookup, ScopeNamed, ValidKeyring, CanUse;
    forall i | 0 <= i < |k.scopes|
      ensures Reactivated(k.scopes, active, i).Some?
        <==> (k.scopes[i].name in active ==> CanUse(k, k.scopes[i].name, active[k.scopes[i].name]))
    {
      ReactivatedIff(k, active, i);
      UseAt(k, i, if k.scopes[i].name in active then active[k.scopes[i].name] else k.scopes[i].keys.keks[0].id);
    }
    forall name
      ensures Named(k.scopes, name) || forall id :: !CanUse(k, name, id)
    {
      UseNamed(k, name);
    }
  }

  lemma UseAt(k: Keyring, i: nat, id: KeyId)
    requires ValidKeyring(k) && i < |k.scopes|
    ensures CanUse(k, k.scopes[i].name, id) <==> Lookup(k.scopes[i].keys.keks, id).Some?
  {
    NamedIsUnique(k.scopes, k.scopes[i].name);
  }

  lemma UseNamed(k: Keyring, name: Text)
    requires ValidKeyring(k)
    ensures Named(k.scopes, name) || forall id :: !CanUse(k, name, id)
  {
    NamedIsUnique(k.scopes, name);
  }

  lemma ActivationKeeps(k: Keyring, active: map<Text, KeyId>)
    requires ValidKeyring(k) && WithScopeActive(k, active).Some?
    ensures
      var r := WithScopeActive(k, active).value;
      && ValidKeyring(r) && r.own == k.own && |r.scopes| == |k.scopes|
      && forall i :: 0 <= i < |k.scopes| ==> Kept(k.scopes[i], r.scopes[i], active)
  {
    hide Reactivated, Kept, Lookup, ScopeNamed, Overlap, ValidScope, Named, ValidLists;
    var r := WithScopeActive(k, active).value;
    forall i | 0 <= i < |k.scopes|
      ensures ValidScope(r.scopes[i]) && Kept(k.scopes[i], r.scopes[i], active)
      ensures r.scopes[i].name == k.scopes[i].name && r.scopes[i].prefix == k.scopes[i].prefix
    {
      ReactivatedIff(k, active, i);
    }
  }

  lemma ReactivatedIff(k: Keyring, active: map<Text, KeyId>, i: nat)
    requires ValidKeyring(k) && i < |k.scopes|
    ensures ScopeNamed(k.scopes, k.scopes[i].name) == Some(k.scopes[i])
    ensures Reactivated(k.scopes, active, i).Some?
      <==> (k.scopes[i].name in active ==> Lookup(k.scopes[i].keys.keks, active[k.scopes[i].name]).Some?)
    ensures match Reactivated(k.scopes, active, i)
            case None => true
            case Some(next) =>
              ValidScope(next) && Kept(k.scopes[i], next, active)
              && next.name == k.scopes[i].name && next.prefix == k.scopes[i].prefix
  {
    hide Activated, Promotes, Lookup, Overlap, ValidLists, ValidScopeName, ValidScopePrefix;
    NamedIsUnique(k.scopes, k.scopes[i].name);
    assert ValidScope(k.scopes[i]);
    if k.scopes[i].name in active {
      ActivationPromotes(k.scopes[i], active[k.scopes[i].name]);
    }
  }

  /** A scope after active keys were chosen. */
  ghost predicate Kept(s: Scope, next: Scope, active: map<Text, KeyId>) {
    if s.name in active then
      next == s.(keys := s.keys.(keks := next.keys.keks))
      && Promotes(next.keys.keks, s.keys.keks, active[s.name])
    else next == s
  }

  // ---------------------------------------------------------------- hold, then activate

  /** What a pusher hands the fleet first: each scope on the key it used before. */
  function PreviousOf(moved: seq<Moved>): map<Text, KeyId> {
    if moved == [] then map[]
    else PreviousOf(moved[..|moved| - 1])[moved[|moved| - 1].scope := moved[|moved| - 1].previous]
  }

  /** ... and then: each scope on the key it is to use from now on. */
  function ActiveOf(moved: seq<Moved>): map<Text, KeyId> {
    if moved == [] then map[]
    else ActiveOf(moved[..|moved| - 1])[moved[|moved| - 1].scope := moved[|moved| - 1].active]
  }

  lemma {:induction false} MovedMaps(moved: seq<Moved>)
    requires forall i, j :: 0 <= i < j < |moved| ==> moved[i].scope != moved[j].scope
    ensures forall i :: 0 <= i < |moved| ==>
      && moved[i].scope in PreviousOf(moved) && PreviousOf(moved)[moved[i].scope] == moved[i].previous
      && moved[i].scope in ActiveOf(moved) && ActiveOf(moved)[moved[i].scope] == moved[i].active
    ensures PreviousOf(moved).Keys == ActiveOf(moved).Keys == set m | m in moved :: m.scope
  {
    if moved != [] {
      var init := moved[..|moved| - 1];
      assert moved == init + [moved[|moved| - 1]];
      MovedMaps(init);
    }
  }

  /** A scope's rotated key held while the one it used before stays active. */
  function Holding(s: Scope, minted: Entry): Scope
    requires s.keys.keks != []
  {
    s.(keys := s.keys.(keks := [s.keys.keks[0], minted] + s.keys.keks[1..]))
  }

  lemma HoldOne(s: Scope, minted: Entry)
    requires ValidScope(s) && CanRotate(s, minted)
    ensures Activated(Rotated(s, minted), s.keys.keks[0].id) == Some(Holding(s, minted))
    ensures Activated(Holding(s, minted), minted.id) == Some(Rotated(s, minted))
  {
    hide ValidScopeName, ValidScopePrefix;
    var keks := s.keys.keks;
    var all, held := [minted] + keks, [keks[0], minted] + keks[1..];
    assert all[0] == minted && all[1] == keks[0];
    assert MoveToFront(all, 1) == held && MoveToFront(held, 1) == all;
    MoveStaysValid(all, 1);
    assert IndexOf(all, keks[0].id) == Some(1);
    assert IndexOf(held, minted.id) == Some(1);
  }

  lemma HoldStep(k: Keyring, minted: seq<Entry>)
    requires ValidKeyring(k) && |minted| == |k.scopes| && Rotate(k, minted).Some?
    ensures
      var held := WithScopeActive(Rotate(k, minted).value, PreviousOf(Report(k, minted)));
      && held.Some?
      && held.value.own == k.own && |held.value.scopes| == |k.scopes|
      && forall i :: 0 <= i < |k.scopes| ==> held.value.scopes[i] == Holding(k.scopes[i], minted[i])
  {
    hide Activated, Holding, ValidScope, Overlap, PreviousOf, ActiveOf;
    var rotated, moved := Rotate(k, minted).value, Report(k, minted);
    var previous := PreviousOf(moved);
    MovedMaps(moved);
    forall i | 0 <= i < |k.scopes|
      ensures Reactivated(rotated.scopes, previous, i) == Some(Holding(k.scopes[i], minted[i]))
    {
      assert moved[i].scope == k.scopes[i].name;
      HoldOne(k.scopes[i], minted[i]);
    }
    AllNamed(rotated.scopes, k.scopes, moved, previous);
  }

  lemma ActivateStep(k: Keyring, minted: seq<Entry>, held: Keyring)
    requires ValidKeyring(k) && |minted| == |k.scopes| && Rotate(k, minted).Some?
    requires held.own == k.own && |held.scopes| == |k.scopes|
    requires forall i :: 0 <= i < |k.scopes| ==> held.scopes[i] == Holding(k.scopes[i], minted[i])
    ensures WithScopeActive(held, ActiveOf(Report(k, minted))) == Rotate(k, minted)
  {
    hide Activated, ValidScope, Overlap, PreviousOf, ActiveOf;
    var rotated, moved := Rotate(k, minted).value, Report(k, minted);
    var active := ActiveOf(moved);
    MovedMaps(moved);
    forall i | 0 <= i < |k.scopes|
      ensures Reactivated(held.scopes, active, i) == Some(rotated.scopes[i])
    {
      assert moved[i].scope == k.scopes[i].name;
      HoldOne(k.scopes[i], minted[i]);
    }
    AllNamed(held.scopes, k.scopes, moved, active);
    assert WithScopeActive(held, active).value.scopes == rotated.scopes;
  }

  /** The round trip of a rotation: activating the reported previous keys gives
      every scope its old key first with the new one held behind it, and then
      activating the reported new keys gives back exactly the rotated keyring. */
  lemma HoldThenActivate(k: Keyring, minted: seq<Entry>)
    requires ValidKeyring(k) && |minted| == |k.scopes| && Rotate(k, minted).Some?
    ensures
      var moved := Report(k, minted);
      var held := WithScopeActive(Rotate(k, minted).value, PreviousOf(moved));
      && held.Some?
      && |held.value.scopes| == |k.scopes|
      && (forall i :: 0 <= i < |k.scopes| ==> held.value.scopes[i] == Holding(k.scopes[i], minted[i]))
      && WithScopeActive(held.value, ActiveOf(moved)) == Rotate(k, minted)
  {
    hide Holding, ValidKeyring, WithScopeActive, PreviousOf, ActiveOf;
    HoldStep(k, minted);
    ActivateStep(k, minted, WithScopeActive(Rotate(k, minted).value, PreviousOf(Report(k, minted))).value);
  }

  lemma AllNamed(now: seq<Scope>, scopes: seq<Scope>, moved: seq<Moved>, active: map<Text, KeyId>)
    requires |now| == |scopes| == |moved|
    requires forall i :: 0 <= i < |scopes| ==> now[i].name == scopes[i].name == moved[i].scope
    requires active.Keys == set m | m in moved :: m.scope
    ensures forall name :: name in active ==> Named(now, name)
  {
    forall name | name in active
      ensures Named(now, name)
    {
      var m :| m in moved && m.scope == name;
      var i :| 0 <= i < |moved| && moved[i] == m;
      assert now[i].name == name;
    }
  }
}
