/** Who holds which key bytes. A keyholder process is its vault, the bundles that
    have arrived and not yet been dropped, and the requests in flight, each over
    key arrays of its own: in any interleaving it behaves as if keys were values
    that nobody could wipe from under anybody else. */
module Ownership {
  import opened Basics
  import opened ScopeNames
  import opened Keys
  import opened Identities
  import opened KeyMaterial
  import opened Vaults
  import V = VaultSpec

  datatype Step =
    | Arrive(id: nat, bundle: V.BundleValue)
    | Push(id: nat, intent: Intent)
    | Wipe(id: nat)
    | Admit(id: nat, key: Text)
    | Use(id: nat)
    | End(id: nat)
    | SealVault(hold: bool, reason: Text)
    | ReleaseHold

  /** The process as if keys were values. */
  datatype View = View(vault: V.VaultState, requests: map<nat, Scope>, bundles: map<nat, V.BundleValue>)

  /** What one atomic step does to it. Steps naming a label that is not there, or
      one already taken, do nothing. */
  function Next(v: View, step: Step, now: int): View {
    match step
    case Arrive(i, b) => if i in v.bundles then v else v.(bundles := v.bundles[i := b])
    case Push(i, intent) =>
      if i !in v.bundles then v else v.(vault := V.Unseal(v.vault, Some(v.bundles[i]), intent, now).0)
    case Wipe(i) => if i !in v.bundles then v else v.(bundles := v.bundles[i := v.bundles[i].(scopes := [])])
    case Admit(i, key) =>
      if i in v.requests || V.ScopeFor(v.vault, key).Err? then v
      else v.(requests := v.requests[i := V.ScopeFor(v.vault, key).value])
    case Use(i) => v
    case End(i) => v.(requests := v.requests - {i})
    case SealVault(hold, reason) => v.(vault := V.Seal(v.vault, hold, reason, now))
    case ReleaseHold => v.(vault := V.ReleaseHold(v.vault, now))
  }

  /** What a step lets its caller see: the keys a request works with. */
  function Seen(v: View, step: Step): Option<Scope> {
    match step
    case Use(i) => if i in v.requests then Some(v.requests[i]) else None
    case _ => None
  }

  datatype Holder = TheVault | TheRequest(id: nat) | TheBundle(id: nat)

  /** What the handlers of a process have in hand: the scope each request in
      flight was given, and the bundle each push is delivering. */
  datatype Flight = Flight(requests: map<nat, HeldScope>, bundles: map<nat, Bundle>)

  /** The books kept beside it: every array in use with the one holder it has, and
      what each holder was given. */
  datatype Books = Books(owner: map<object, Holder>, admitted: map<nat, Scope>, arrived: map<nat, V.BundleValue>)

  ghost predicate Owns(owner: map<object, Holder>, h: Holder, arrays: set<array<byte>>) {
    forall a :: a in arrays ==> a in owner && owner[a] == h
  }

  ghost predicate VaultOwned(vault: Vault, k: Books)
    reads vault
  {
    vault !in k.owner && Owns(k.owner, TheVault, vault.Held())
  }

  /** A request in flight has its arrays to itself, and they hold exactly what it
      was admitted with. */
  ghost predicate RequestOwned(i: nat, s: HeldScope, k: Books)
    reads k.owner.Keys
  {
    i in k.admitted && Owns(k.owner, TheRequest(i), Arrays(s)) && ScopeValue(s) == k.admitted[i]
  }

  ghost predicate BundleOwned(i: nat, b: Bundle, k: Books)
    reads k.owner.Keys
  {
    && i in k.arrived
    && b in k.owner && k.owner[b] == TheBundle(i)
    && Owns(k.owner, TheBundle(i), b.Held()) && b.Value() == k.arrived[i]
  }

  /** Every holder but one is as the books say. */
  ghost predicate OthersOwned(f: Flight, k: Books, h: Holder)
    reads k.owner.Keys
  {
    && f.requests.Keys == k.admitted.Keys && f.bundles.Keys == k.arrived.Keys
    && (forall i :: i in f.requests && TheRequest(i) != h ==> RequestOwned(i, f.requests[i], k))
    && (forall i :: i in f.bundles && TheBundle(i) != h ==> BundleOwned(i, f.bundles[i], k))
  }

  ghost predicate Owned(vault: Vault, f: Flight, k: Books)
    reads vault, k.owner.Keys
  {
    VaultOwned(vault, k) && OthersOwned(f, k, TheVault)
  }

  ghost function Abstract(vault: Vault, k: Books): View
    reads vault, vault.Held()
  {
    View(vault.Value(), k.admitted, k.arrived)
  }

  // ---------------------------------------------------------------- neighbours

  datatype Holdings = Holdings(vault: Vault, flight: Flight, books: Books)

  /** What one holder does leaves its neighbours alone. */
  twostate lemma NeighboursKept(p: Holdings, new h: Holder)
    requires old(Owned(p.vault, p.flight, p.books))
    requires forall a :: a in p.books.owner && p.books.owner[a] != h ==> unchanged(a)
    requires h != TheVault ==> unchanged(p.vault)
    ensures OthersOwned(p.flight, p.books, h)
    ensures h != TheVault ==> VaultOwned(p.vault, p.books) && p.vault.Value() == old(p.vault.Value())
  {
    hide ScopeValue, ScopeValues, Arrays, AllArrays;
    var f, k := p.flight, p.books;
    forall i | i in f.requests && TheRequest(i) != h
      ensures RequestOwned(i, f.requests[i], k)
    {
      assert old(RequestOwned(i, f.requests[i], k));
    }
    forall i | i in f.bundles && TheBundle(i) != h
      ensures BundleOwned(i, f.bundles[i], k)
    {
      assert old(BundleOwned(i, f.bundles[i], k));
      assert unchanged(f.bundles[i]);
    }
  }

  /** The books may gain arrays; nothing changes hands. */
  lemma BooksGrow(f: Flight, k: Books, h: Holder, owner: map<object, Holder>)
    requires OthersOwned(f, k, h)
    requires forall a :: a in k.owner ==> a in owner && owner[a] == k.owner[a]
    ensures OthersOwned(f, k.(owner := owner), h)
  {
    hide ScopeValue, ScopeValues, Arrays, AllArrays;
    var grown := k.(owner := owner);
    forall i | i in f.requests && TheRequest(i) != h
      ensures RequestOwned(i, f.requests[i], grown)
    {
      assert RequestOwned(i, f.requests[i], k);
    }
    forall i | i in f.bundles && TheBundle(i) != h
      ensures BundleOwned(i, f.bundles[i], grown)
    {
      assert BundleOwned(i, f.bundles[i], k);
    }
  }

  /** A bundle can be entered, or entered again, once the rest is in order. */
  lemma EnterBundle(f: Flight, k: Books, h: Holder, id: nat, b: Bundle)
    requires OthersOwned(f, k, h) && (h == TheBundle(id) || h == TheVault)
    requires b in k.owner && k.owner[b] == TheBundle(id) && Owns(k.owner, TheBundle(id), b.Held())
    ensures OthersOwned(f.(bundles := f.bundles[id := b]), k.(arrived := k.arrived[id := b.Value()]), TheVault)
  {
    hide ScopeValue, ScopeValues, Arrays, AllArrays;
    var k' := k.(arrived := k.arrived[id := b.Value()]);
    forall i | i in f.requests
      ensures RequestOwned(i, f.requests[i], k')
    {
      assert RequestOwned(i, f.requests[i], k);
    }
    forall i | i in f.bundles && i != id
      ensures BundleOwned(i, f.bundles[i], k')
    {
      assert BundleOwned(i, f.bundles[i], k);
    }
  }

  /** A bundle that stays is entered at its new value. */
  lemma ReenterBundle(vault: Vault, f: Flight, k: Books, id: nat)
    requires VaultOwned(vault, k) && OthersOwned(f, k, TheBundle(id)) && id in f.bundles
    requires f.bundles[id] in k.owner && k.owner[f.bundles[id]] == TheBundle(id)
    requires Owns(k.owner, TheBundle(id), f.bundles[id].Held())
    ensures Owned(vault, f, k.(arrived := k.arrived[id := f.bundles[id].Value()]))
  {
    hide ScopeValue, ScopeValues, Arrays, AllArrays, OthersOwned;
    EnterBundle(f, k, TheBundle(id), id, f.bundles[id]);
    assert f.(bundles := f.bundles[id := f.bundles[id]]) == f;
  }

  lemma EnterRequest(f: Flight, k: Books, id: nat, s: HeldScope)
    requires OthersOwned(f, k, TheVault)
    requires Owns(k.owner, TheRequest(id), Arrays(s))
    ensures OthersOwned(f.(requests := f.requests[id := s]), k.(admitted := k.admitted[id := ScopeValue(s)]), TheVault)
  {
    hide ScopeValue, ScopeValues, Arrays, AllArrays;
    var k' := k.(admitted := k.admitted[id := ScopeValue(s)]);
    forall i | i in f.requests && i != id
      ensures RequestOwned(i, f.requests[i], k')
    {
      assert RequestOwned(i, f.requests[i], k);
    }
    forall i | i in f.bundles
      ensures BundleOwned(i, f.bundles[i], k')
    {
      assert BundleOwned(i, f.bundles[i], k);
    }
  }

  lemma DropRequest(f: Flight, k: Books, id: nat)
    requires OthersOwned(f, k, TheRequest(id))
    ensures OthersOwned(f.(requests := f.requests - {id}), k.(admitted := k.admitted - {id}), TheVault)
  {
    hide ScopeValue, ScopeValues, Arrays, AllArrays;
    var k' := k.(admitted := k.admitted - {id});
    forall i | i in f.requests && i != id
      ensures RequestOwned(i, f.requests[i], k')
    {
      assert RequestOwned(i, f.requests[i], k);
    }
    forall i | i in f.bundles
      ensures BundleOwned(i, f.bundles[i], k')
    {
      assert BundleOwned(i, f.bundles[i], k);
    }
  }

  // ---------------------------------------------------------------- claims

  /** Record arrays, and perhaps the object that carries them, as a holder's. */
  ghost function Claimed(owner: map<object, Holder>, h: Holder, claimed: set<object>): map<object, Holder> {
    owner + map o | o in claimed :: h
  }

  /** A bundle over arrays nobody had is entered. */
  lemma ClaimBundle(vault: Vault, f: Flight, k: Books, id: nat, b: Bundle)
    requires Owned(vault, f, k) && id !in f.bundles && b !in k.owner && forall a :: a in b.Held() ==> a !in k.owner
    ensures
      var owner := Claimed(k.owner, TheBundle(id), b.Held() + {b});
      Owned(vault, f.(bundles := f.bundles[id := b]), k.(owner := owner, arrived := k.arrived[id := b.Value()]))
  {
    hide AllArrays, ScopeValues, OthersOwned;
    var owner := Claimed(k.owner, TheBundle(id), b.Held() + {b});
    BooksGrow(f, k, TheVault, owner);
    EnterBundle(f, k.(owner := owner), TheVault, id, b);
  }

  /** And so is a request. */
  lemma ClaimRequest(vault: Vault, f: Flight, k: Books, id: nat, s: HeldScope)
    requires Owned(vault, f, k) && id !in f.requests && forall a :: a in Arrays(s) ==> a !in k.owner
    ensures
      var owner := Claimed(k.owner, TheRequest(id), Arrays(s));
      Owned(vault, f.(requests := f.requests[id := s]), k.(owner := owner, admitted := k.admitted[id := ScopeValue(s)]))
  {
    hide AllArrays, Arrays, ScopeValues, ScopeValue, OthersOwned;
    var owner := Claimed(k.owner, TheRequest(id), Arrays(s));
    BooksGrow(f, k, TheVault, owner);
    EnterRequest(f, k.(owner := owner), id, s);
  }

  /** The vault may come to hold arrays nobody had. */
  lemma ClaimVault(vault: Vault, f: Flight, k: Books)
    requires OthersOwned(f, k, TheVault) && vault !in k.owner
    requires forall a :: a in vault.Held() && a in k.owner ==> k.owner[a] == TheVault
    ensures Owned(vault, f, k.(owner := Claimed(k.owner, TheVault, vault.Held())))
  {
    hide AllArrays, ScopeValues, OthersOwned;
    BooksGrow(f, k, TheVault, Claimed(k.owner, TheVault, vault.Held()));
  }

  // ---------------------------------------------------------------- the steps

  /** A bundle is parsed off the wire: its bytes are new. */
  method ParseBundle(vault: Vault, f: Flight, ghost k: Books, id: nat, given: V.BundleValue)
    returns (f': Flight, ghost k': Books)
    requires Owned(vault, f, k) && id !in f.bundles
    ensures Owned(vault, f', k') && fresh(k'.owner.Keys - k.owner.Keys)
    ensures Abstract(vault, k') == Next(old(Abstract(vault, k)), Arrive(id, given), 0)
  {
    hide AllArrays, ScopeValues, RequestOwned, BundleOwned;
    Allocated(vault.scopes);
    var b := LoadBundle(given);
    assert Owned(vault, f, k) && vault.Value() == old(vault.Value());
    hide OthersOwned;
    f' := f.(bundles := f.bundles[id := b]);
    k' := k.(owner := Claimed(k.owner, TheBundle(id), b.Held() + {b}), arrived := k.arrived[id := given]);
    ClaimBundle(vault, f, k, id, b);
  }

  /** A request is admitted: it is handed its own copy of the scope's keys. */
  method AdmitRequest(vault: Vault, f: Flight, ghost k: Books, id: nat, key: Text)
    returns (f': Flight, ghost k': Books)
    requires Owned(vault, f, k) && id !in f.requests
    ensures Owned(vault, f', k') && fresh(k'.owner.Keys - k.owner.Keys)
    ensures Abstract(vault, k') == Next(old(Abstract(vault, k)), Admit(id, key), 0)
  {
    hide AllArrays, Arrays, ScopeValues, ScopeValue, RequestOwned, BundleOwned;
    Allocated(vault.scopes);
    var r := vault.Scope(key);
    assert Owned(vault, f, k) && vault.Value() == old(vault.Value());
    hide OthersOwned;
    f', k' := f, k;
    if r.Ok? {
      ClaimRequest(vault, f, k, id, r.value);
      f' := f.(requests := f.requests[id := r.value]);
      k' := k.(owner := Claimed(k.owner, TheRequest(id), Arrays(r.value)),
               admitted := k.admitted[id := ScopeValue(r.value)]);
    }
  }

  /** A bundle is pushed at the vault, which installs clones or refuses it. */
  method PushBundle(vault: Vault, f: Flight, ghost k: Books, id: nat, intent: Intent, now: int)
    returns (ghost k': Books)
    requires Owned(vault, f, k) && id in f.bundles
    modifies vault, vault.Held()
    ensures Owned(vault, f, k') && fresh(k'.owner.Keys - k.owner.Keys)
    ensures Abstract(vault, k') == Next(old(Abstract(vault, k)), Push(id, intent), now)
  {
    hide AllArrays, Arrays, ScopeValues, ScopeValue, RequestOwned, V.Unseal;
    assert f.bundles[id].Value() == k.arrived[id];
    var refusal := vault.Unseal(f.bundles[id], intent, now);
    hide BundleOwned;
    NeighboursKept(Holdings(vault, f, k), TheVault);
    hide OthersOwned;
    ClaimVault(vault, f, k);
    k' := k.(owner := Claimed(k.owner, TheVault, vault.Held()));
  }

  /** A push ends: its bundle is wiped. */
  method WipeBundle(vault: Vault, f: Flight, ghost k: Books, id: nat) returns (ghost k': Books)
    requires Owned(vault, f, k) && id in f.bundles
    modifies f.bundles[id], f.bundles[id].Held()
    ensures Owned(vault, f, k') && k'.owner == k.owner
    ensures Abstract(vault, k') == Next(old(Abstract(vault, k)), Wipe(id), 0)
    ensures forall a :: a in old(f.bundles[id].Held()) ==> Wiped(a)
  {
    hide Arrays, AllArrays, ScopeValue, ScopeValues, RequestOwned;
    assert BundleOwned(id, f.bundles[id], k);
    hide BundleOwned;
    f.bundles[id].Zero();
    NoArrays();
    NeighboursKept(Holdings(vault, f, k), TheBundle(id));
    hide OthersOwned;
    k' := k.(arrived := k.arrived[id := k.arrived[id].(scopes := [])]);
    ReenterBundle(vault, f, k, id);
  }

  /** A request ends: its copy is wiped. */
  method EndRequest(vault: Vault, f: Flight, ghost k: Books, id: nat) returns (f': Flight, ghost k': Books)
    requires Owned(vault, f, k) && id in f.requests
    modifies Arrays(f.requests[id])
    ensures Owned(vault, f', k') && k'.owner == k.owner
    ensures Abstract(vault, k') == Next(old(Abstract(vault, k)), End(id), 0)
    ensures forall a :: a in Arrays(f.requests[id]) ==> Wiped(a)
  {
    hide ScopeValue, ScopeValues, Arrays, AllArrays, BundleOwned;
    assert RequestOwned(id, f.requests[id], k);
    hide RequestOwned;
    Zero(f.requests[id]);
    NeighboursKept(Holdings(vault, f, k), TheRequest(id));
    f' := f.(requests := f.requests - {id});
    k' := k.(admitted := k.admitted - {id});
    DropRequest(f, k, id);
  }

  method Seal(vault: Vault, f: Flight, ghost k: Books, hold: bool, reason: Text, now: int)
    requires Owned(vault, f, k)
    modifies vault, vault.Held()
    ensures Owned(vault, f, k)
    ensures Abstract(vault, k) == Next(old(Abstract(vault, k)), SealVault(hold, reason), now)
    ensures forall a :: a in old(vault.Held()) ==> Wiped(a)
  {
    hide Arrays, ScopeValue, RequestOwned, BundleOwned, AllArrays, ScopeValues;
    vault.Seal(hold, reason, now);
    NeighboursKept(Holdings(vault, f, k), TheVault);
  }

  method Release(vault: Vault, f: Flight, ghost k: Books, now: int)
    requires Owned(vault, f, k)
    modifies vault
    ensures Owned(vault, f, k)
    ensures Abstract(vault, k) == Next(old(Abstract(vault, k)), ReleaseHold, now)
  {
    hide Arrays, ScopeValue, RequestOwned, BundleOwned, AllArrays, ScopeValues;
    vault.ReleaseHold(now);
    NeighboursKept(Holdings(vault, f, k), TheVault);
  }

  /** What a request sees when it uses its keys. */
  method UseRequest(vault: Vault, f: Flight, ghost k: Books, id: nat) returns (s: Scope)
    requires Owned(vault, f, k) && id in f.requests
    ensures Owned(vault, f, k) && Abstract(vault, k) == old(Abstract(vault, k))
    ensures Seen(Abstract(vault, k), Use(id)) == Some(s)
  {
    hide Arrays, AllArrays, ScopeValue, ScopeValues, BundleOwned;
    Allocated(vault.scopes);
    assert RequestOwned(id, f.requests[id], k);
    hide RequestOwned;
    s := Read(f.requests[id]);
  }

  method LoadBundle(given: V.BundleValue) returns (b: Bundle)
    ensures fresh(b) && b.Value() == given
    ensures forall a :: a in b.Held() ==> fresh(a)
  {
    hide AllArrays, ScopeValues;
    var scopes := NewScopes(given.scopes);
    Allocated(scopes);
    b := new Bundle(given.instance, given.generation, scopes);
  }

  method NewScopes(given: seq<Scope>) returns (scopes: seq<HeldScope>)
    ensures ScopeValues(scopes) == given
    ensures forall a :: a in AllArrays(scopes) ==> fresh(a)
  {
    hide ScopeValue, ScopeValues, Arrays, AllArrays;
    scopes := [];
    NoArrays();
    for n := 0 to |given|
      invariant ScopeValues(scopes) == given[..n]
      invariant forall a :: a in AllArrays(scopes) ==> fresh(a)
    {
      Allocated(scopes);
      var s := NewScope(given[n]);
      ArraysAppend(scopes, s);
      ValuesAppend(scopes, s);
      scopes := scopes + [s];
    }
    assert given[..|given|] == given;
  }

  method NewScope(given: Scope) returns (s: HeldScope)
    ensures ScopeValue(s) == given
    ensures forall a :: a in Arrays(s) ==> fresh(a)
  {
    var names := NewEntries(given.keys.nameKeys);
    var keks := NewEntries(given.keys.keks);
    s := ScopeOf.Scope(given.name, given.prefix, given.created, given.derivation, Lists(names, keks));
  }

  method NewEntries(given: seq<Entry>) returns (entries: seq<HeldEntry>)
    ensures EntryValues(entries) == given
    ensures forall a :: a in EntryArrays(entries) ==> fresh(a)
  {
    entries := [];
    for n := 0 to |given|
      invariant |entries| == n
      invariant forall j :: 0 <= j < n ==> fresh(entries[j].key) && entries[j].key[..] == given[j].key
      invariant forall j :: 0 <= j < n ==> entries[j].id == given[j].id && entries[j].created == given[j].created
    {
      var bytes := given[n].key;
      var key := new byte[|bytes|](i requires 0 <= i < |bytes| => bytes[i]);
      entries := entries + [Entry(given[n].id, given[n].created, key)];
    }
  }

  // ---------------------------------------------------------------- whole runs

  type Timed = (Step, int)

  function After(v: View, steps: seq<Timed>): View {
    if steps == [] then v
    else Next(After(v, steps[..|steps| - 1]), steps[|steps| - 1].0, steps[|steps| - 1].1)
  }

  function Log(v: View, steps: seq<Timed>): seq<Option<Scope>> {
    if steps == [] then []
    else Log(v, steps[..|steps| - 1]) + [Seen(After(v, steps[..|steps| - 1]), steps[|steps| - 1].0)]
  }

  method TakeStep(vault: Vault, f: Flight, ghost k: Books, step: Step, now: int)
    returns (f': Flight, ghost k': Books, seen: Option<Scope>)
    requires Owned(vault, f, k)
    modifies vault, k.owner.Keys
    ensures Owned(vault, f', k') && fresh(k'.owner.Keys - k.owner.Keys)
    ensures Abstract(vault, k') == Next(old(Abstract(vault, k)), step, now)
    ensures seen == Seen(old(Abstract(vault, k)), step)
  {
    hide RequestOwned, Arrays, AllArrays, ScopeValue, ScopeValues, V.Unseal, V.Seal, V.ReleaseHold, V.ScopeFor;
    f', k', seen := f, k, None;
    match step
    case Arrive(i, b) => if i !in f.bundles { f', k' := ParseBundle(vault, f, k, i, b); }
    case Push(i, intent) => if i in f.bundles { k' := PushBundle(vault, f, k, i, intent, now); }
    case Wipe(i) => if i in f.bundles {
      assert BundleOwned(i, f.bundles[i], k);
      k' := WipeBundle(vault, f, k, i);
    }
    case Admit(i, key) => if i !in f.requests { f', k' := AdmitRequest(vault, f, k, i, key); }
    case Use(i) => if i in f.requests {
      var s := UseRequest(vault, f, k, i);
      seen := Some(s);
    }
    case End(i) => if i in f.requests {
      RequestHolds(vault, f, k, i);
      f', k' := EndRequest(vault, f, k, i);
    }
    case SealVault(hold, reason) => Seal(vault, f, k, hold, reason, now);
    case ReleaseHold => Release(vault, f, k, now);
  }

  lemma RequestHolds(vault: Vault, f: Flight, k: Books, i: nat)
    requires Owned(vault, f, k) && i in f.requests
    ensures Owns(k.owner, TheRequest(i), Arrays(f.requests[i]))
  {
    assert RequestOwned(i, f.requests[i], k);
  }

  /** Over any interleaving from a fresh process, sharing, copying and wiping bytes
      cannot be told from handling keys as values. */
  method Run(instance: Text, start: int, steps: seq<Timed>)
    returns (vault: Vault, f: Flight, ghost k: Books, seen: seq<Option<Scope>>)
    ensures fresh(vault) && Owned(vault, f, k)
    ensures
      var v := View(V.Started(instance, start), map[], map[]);
      Abstract(vault, k) == After(v, steps) && seen == Log(v, steps)
  {
    hide Next, Seen, OthersOwned;
    vault := new Vault(instance, start);
    f, k, seen := Flight(map[], map[]), Books(map[], map[], map[]), [];
    NobodyOwns(vault, f, k);
    ghost var v := View(V.Started(instance, start), map[], map[]);
    for n := 0 to |steps|
      invariant fresh(vault) && fresh(k.owner.Keys) && Owned(vault, f, k)
      invariant Abstract(vault, k) == After(v, steps[..n]) && seen == Log(v, steps[..n])
    {
      assert steps[..n + 1][..n] == steps[..n];
      var one;
      f, k, one := TakeStep(vault, f, k, steps[n].0, steps[n].1);
      seen := seen + [one];
    }
    assert steps[..|steps|] == steps;
  }

  lemma NobodyOwns(vault: Vault, f: Flight, k: Books)
    requires f == Flight(map[], map[]) && k == Books(map[], map[], map[]) && vault.Held() == {}
    ensures Owned(vault, f, k)
  {
  }

  /** Two holders never have an array in common. */
  lemma HoldersAreDisjoint(vault: Vault, f: Flight, k: Books)
    requires Owned(vault, f, k)
    ensures forall i :: i in f.requests ==> Arrays(f.requests[i]) !! vault.Held()
    ensures forall i, j :: i in f.requests && j in f.requests && i != j ==> Arrays(f.requests[i]) !! Arrays(f.requests[j])
    ensures forall i :: i in f.bundles ==> f.bundles[i].Held() !! vault.Held()
    ensures forall i, j :: i in f.bundles && j in f.bundles && i != j ==> f.bundles[i].Held() !! f.bundles[j].Held()
    ensures forall i, j :: i in f.requests && j in f.bundles ==> Arrays(f.requests[i]) !! f.bundles[j].Held()
  {
    hide ScopeValue, ScopeValues, Arrays, AllArrays;
    assert forall i :: i in f.requests ==> RequestOwned(i, f.requests[i], k);
    assert forall i :: i in f.bundles ==> BundleOwned(i, f.bundles[i], k);
  }

  /** A request uses what it was admitted with until it ends, whatever the vault,
      other requests and bundles go through meanwhile. */
  lemma {:induction false} UsesWhatItWasAdmittedWith(v: View, steps: seq<Timed>, i: nat, key: Text, now: int)
    requires i !in v.requests && V.ScopeFor(v.vault, key).Ok?
    requires forall n :: 0 <= n < |steps| ==> steps[n].0 != End(i)
    ensures
      var w := After(Next(v, Admit(i, key), now), steps);
      Seen(w, Use(i)) == Some(V.ScopeFor(v.vault, key).value)
  {
    if steps != [] {
      UsesWhatItWasAdmittedWith(v, steps[..|steps| - 1], i, key, now);
    }
  }

  /** The life of a key: it arrives in a bundle, is pushed, and is handed to a request;
      the bundle is wiped and the vault sealed, and the request still uses what was
      delivered, until it ends and nobody has it any more. */
  lemma DeliveredIsUsed(v: View, b: V.BundleValue, i: nat, j: nat, key: Text, hold: bool, reason: Text, now: int)
    requires i !in v.bundles && j !in v.requests
    requires b.instance == v.vault.instance && v.vault.generation < b.generation && V.AllValid(b.scopes)
    requires ScopeOwning(b.scopes, key).Some?
    ensures
      var w := After(v, [(Arrive(i, b), now), (Push(i, OperatorUnseal), now), (Admit(j, key), now),
                         (Wipe(i), now), (SealVault(hold, reason), now)]);
      && Seen(w, Use(j)) == ScopeOwning(b.scopes, key)
      && w.vault == V.VaultState(b.instance, if hold then V.OperatorHold else V.RestartSealed, now, if hold then reason else [],
                                 b.generation, [])
      && w.bundles == v.bundles[i := b.(scopes := [])]
      && Seen(Next(w, End(j), now), Use(j)) == None
  {
    hide ScopeOwning, V.AllValid;
    var a, p, d, z := (Arrive(i, b), now), (Push(i, OperatorUnseal), now), (Admit(j, key), now), (Wipe(i), now);
    var c := (SealVault(hold, reason), now);
    Unrolled(v, a, p, d, z, c);
    hide After;
    var v2 := Next(Next(v, a.0, now), p.0, now);
    assert v2 == v.(bundles := v.bundles[i := b], vault := V.VaultState(b.instance, V.Unsealed, now, [], b.generation, b.scopes));
    var v4 := Next(Next(v2, d.0, now), z.0, now);
    assert v4.requests == v.requests[j := ScopeOwning(b.scopes, key).value];
  }

  lemma Unrolled(v: View, a: Timed, b: Timed, c: Timed, d: Timed, e: Timed)
    ensures After(v, [a, b, c, d, e]) == Next(Next(Next(Next(Next(v, a.0, a.1), b.0, b.1), c.0, c.1), d.0, d.1), e.0, e.1)
  {
    hide Next;
    assert [a, b, c, d, e][..4] == [a, b, c, d] && [a, b, c, d][..3] == [a, b, c] && [a, b, c][..2] == [a, b];
    assert [a, b][..1] == [a] && [a][..0] == [];
    assert After(v, [a]) == Next(v, a.0, a.1);
    assert After(v, [a, b]) == Next(After(v, [a]), b.0, b.1);
    assert After(v, [a, b, c]) == Next(After(v, [a, b]), c.0, c.1);
    assert After(v, [a, b, c, d]) == Next(After(v, [a, b, c]), d.0, d.1);
  }
}
