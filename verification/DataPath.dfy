/** The data surface: from a request to the scope it may reach, the store over that
    scope's keys, and the answer an application sees. */
module DataPath {
  import opened Basics
  import opened ScopeNames
  import opened Keys
  import opened Identities
  import opened KeyMaterial
  import opened Vaults
  import opened Crypto
  import opened Blobs
  import opened Stores
  import opened Wire
  import R = StoreRefines
  import V = VaultSpec

  /** A header carrying a logical key or prefix: absent, not decodable, or decoded. */
  datatype Header = Missing | Garbled | Decoded(text: Text)

  datatype Verb =
    | Read
    | Write(body: Option<Bytes>, draw: Draw)
    | Delete
    | List

  datatype Request = Request(verb: Verb, peer: Option<seq<Text>>, header: Header, declared: Text)

  datatype Response = NoContent | Body(data: Bytes) | Names(names: seq<Text>) | Failed(error: Error)

  datatype Resolved = Resolved(key: Text, id: Identity, scope: Scope)

  function AuthFault(e: AuthError): Fault {
    match e
    case NoIdentity => Fault.NoIdentity
    case NotAuthorized => Fault.NotAuthorized
  }

  /** The key a request names. Only a listing may leave its header out. */
  function KeyOf(r: Request): Result<Text, Fault> {
    match r.header
    case Missing => if r.verb.List? then Ok([]) else Err(InvalidKeyFault)
    case Garbled => Err(InvalidKeyFault)
    case Decoded(text) => Ok(text)
  }

  /** Identity, key, declared scope, the vault, what the role may reach, whether the
      caller and the keyholder mean the same scope: in this order. */
  function Resolve(v: V.VaultState, r: Request): Result<Resolved, Fault> {
    match IdentityFrom(r.peer, v.instance)
    case Err(e) => Err(AuthFault(e))
    case Ok(id) =>
      match KeyOf(r)
      case Err(f) => Err(f)
      case Ok(key) =>
        if r.declared == [] then Err(Fault.OutOfScope)
        else match V.ScopeFor(v, key)
        case Err(e) => Err(if e == V.Sealed then Fault.Sealed else Fault.OutOfScope)
        case Ok(scope) =>
          if !MayReach(id, scope.name) then Err(Fault.NotAuthorized)
          else if scope.name != r.declared then Err(Fault.OutOfScope)
          else if !ValidLists(scope.keys) then Err(KeyringInvalid)
          else Ok(Resolved(key, id, scope))
  }

  /** An application never creates or destroys a secret. */
  predicate RefusesSecret(id: Identity, scope: Scope, key: Text) {
    IsSecretsKey(scope.prefix, key) && id.role == App
  }

  /** What a request that was admitted, with its own copy of a scope's keys, does to
      the bucket as it finds it, and the answer to it. */
  ghost predicate Carries(s: Suite, to: Resolved, objects: Objects, verb: Verb, objects': Objects, a: Response)
    requires ValidLists(to.scope.keys)
  {
    match verb
    case Read =>
      objects' == objects
      && a == (match ReadObject(s, to.scope.keys, objects, to.key)
               case Err(e) => Failed([StoreFault(e)])
               case Ok(data) => Body(data))
    case Write(body, d) =>
      if RefusesSecret(to.id, to.scope, to.key) then objects' == objects && a == Failed([SecretsReadOnly])
      else if body.None? then objects' == objects && a == Failed([TooLargeFault])
      else
        var (o, failed) := WriteObject(s, to.scope.keys, objects, to.key, body.value, d);
        objects' == o && a == if failed.Some? then Failed([StoreFault(failed.value)]) else NoContent
    case Delete =>
      if RefusesSecret(to.id, to.scope, to.key) then objects' == objects && a == Failed([SecretsReadOnly])
      else
        var (o, failed) := DeleteObject(s, to.scope.keys, objects, to.key);
        objects' == o && a == if failed.Some? then Failed([StoreFault(failed.value)]) else NoContent
    case List =>
      objects' == objects
      && exists entries, failures ::
           ListsPrefix(s, to.scope.keys.nameKeys[0].key, objects, to.key, entries, failures)
           && a == if failures == [] then Names(R.KeysOf(entries))
                   else Failed(FaultsOf(s, to.scope.keys.nameKeys[0].key, objects, failures))
  }

  /** What a request does to the bucket, and the answer to it. */
  ghost predicate Handles(s: Suite, v: V.VaultState, objects: Objects, r: Request, objects': Objects, a: Response) {
    match Resolve(v, r)
    case Err(f) => objects' == objects && a == Failed([f])
    case Ok(to) => Carries(s, to, objects, r.verb, objects', a)
  }

  /** The conditions joined in a listing's error. */
  function FaultsOf(s: Suite, nameKey: Bytes, objects: Objects, failures: seq<Text>): (e: Error)
    ensures |e| == |failures|
  {
    if failures == [] then []
    else
      var last := failures[|failures| - 1];
      FaultsOf(s, nameKey, objects, failures[..|failures| - 1])
      + [if last !in objects then Unrecognized
         else match LogicalName(s, nameKey, last, objects[last])
         case Err(e) => StoreFault(e)
         case Ok(_) => Unrecognized]
  }

  // ---------------------------------------------------------------- the server

  /** The scope the vault hands a copy of to a request: once its caller, its key and
      a declared scope are there and the vault has the owner, whether or not the
      request then goes on. */
  function Handed(v: V.VaultState, r: Request): Option<Scope> {
    if IdentityFrom(r.peer, v.instance).Err? || KeyOf(r).Err? || r.declared == [] then None
    else match V.ScopeFor(v, KeyOf(r).value)
    case Err(_) => None
    case Ok(s) => Some(s)
  }

  /** The arrays of a request's own copy of its keys. */
  ghost function CopyArrays(copy: Option<HeldScope>): set<array<byte>> {
    match copy
    case None => {}
    case Some(s) => Arrays(s)
  }

  ghost predicate IsCopyOf(copy: Option<HeldScope>, handed: Option<Scope>) {
    match (copy, handed)
    case (None, None) => true
    case (Some(s), Some(worth)) => Shaped(s, worth)
    case _ => false
  }

  class Server {
    const vault: Vault
    const bucket: Bucket
    const suite: Suite

    constructor (vault: Vault, bucket: Bucket, suite: Suite)
      ensures this.vault == vault && this.bucket == bucket && this.suite == suite
    {
      this.vault, this.bucket, this.suite := vault, bucket, suite;
    }

    /** The caller's own copy of the scope it resolved to, and what it is worth. A
        refusal wipes the copy before it is returned. */
    method ResolveScope(r: Request) returns (to: Result<Resolved, Fault>, held: Option<HeldScope>, ghost copy: Option<HeldScope>)
      ensures to == Resolve(vault.Value(), r) && vault.Value() == old(vault.Value())
      ensures IsCopyOf(copy, Handed(vault.Value(), r)) && forall a :: a in CopyArrays(copy) ==> fresh(a)
      ensures to.Err? ==> held.None? && forall a :: a in CopyArrays(copy) ==> Wiped(a)
      ensures to.Ok? ==> held.Some? && held == copy && ScopeValue(held.value) == to.value.scope
      ensures to.Ok? ==> forall a :: a in Arrays(held.value) ==> fresh(a)
    {
      hide AllArrays, Arrays, ScopeValues, ScopeValue, ValidLists, Shaped;
      Allocated(vault.scopes);
      held, copy := None, None;
      var caller := IdentityFrom(r.peer, vault.instance);
      if caller.Err? { return Err(AuthFault(caller.error)), None, None; }
      var key := KeyOf(r);
      if key.Err? { return Err(key.error), None, None; }
      if r.declared == [] { return Err(Fault.OutOfScope), None, None; }
      var got := vault.Scope(key.value);
      assert vault.Value() == old(vault.Value());
      if got.Err? { return Err(if got.error == V.Sealed then Fault.Sealed else Fault.OutOfScope), None, None; }
      ghost var v := vault.Value();
      ghost var worth := ScopeValue(got.value);
      assert V.ScopeFor(v, key.value) == Ok(worth);
      copy := Some(got.value);
      WorthIsShape(got.value);
      AllocatedScope(got.value);
      var scope := KeyMaterial.Read(got.value);
      assert vault.Value() == v && scope == worth;
      var refused :=
        if !MayReach(caller.value, scope.name) then Some(Fault.NotAuthorized)
        else if scope.name != r.declared then Some(Fault.OutOfScope)
        else if !ValidLists(scope.keys) then Some(KeyringInvalid)
        else None;
      if refused.Some? {
        Zero(got.value);
        assert vault.Value() == v;
        return Err(refused.value), None, copy;
      }
      to, held := Ok(Resolved(key.value, caller.value, scope)), Some(got.value);
      assert CopyArrays(copy) == Arrays(got.value);
    }

    /** A read, and the wipe of the request's keys whatever came of it. */
    method ReadRoute(r: Request) returns (a: Response, ghost copy: Option<HeldScope>)
      requires r.verb.Read?
      ensures Handles(suite, vault.Value(), bucket.objects, r, bucket.objects, a)
      ensures vault.Value() == old(vault.Value())
      ensures IsCopyOf(copy, Handed(vault.Value(), r)) && forall x :: x in CopyArrays(copy) ==> fresh(x) && Wiped(x)
    {
      hide AllArrays, Arrays, ScopeValues, ScopeValue, ValidLists, Resolve, Handed, Shaped, ReadObject;
      Allocated(vault.scopes);
      var to, held;
      to, held, copy := ResolveScope(r);
      if to.Err? { return Failed([to.error]), copy; }
      UsableKeys(vault.Value(), r);
      var store := new Store(bucket, suite, to.value.scope.keys);
      var data := store.Read(to.value.key);
      Zero(held.value);
      assert vault.Value() == old(vault.Value());
      a := if data.Err? then Failed([StoreFault(data.error)]) else Body(data.value);
    }

    method WriteRoute(r: Request) returns (a: Response, ghost copy: Option<HeldScope>)
      requires r.verb.Write?
      modifies bucket
      ensures Handles(suite, vault.Value(), old(bucket.objects), r, bucket.objects, a)
      ensures vault.Value() == old(vault.Value())
      ensures IsCopyOf(copy, Handed(vault.Value(), r)) && forall x :: x in CopyArrays(copy) ==> fresh(x) && Wiped(x)
    {
      hide AllArrays, Arrays, ScopeValues, ScopeValue, ValidLists, Resolve, Handed, Shaped, WriteObject;
      Allocated(vault.scopes);
      var to, held;
      to, held, copy := ResolveScope(r);
      if to.Err? { return Failed([to.error]), copy; }
      UsableKeys(vault.Value(), r);
      if RefusesSecret(to.value.id, to.value.scope, to.value.key) {
        a := Failed([SecretsReadOnly]);
      } else if r.verb.body.None? {
        a := Failed([TooLargeFault]);
      } else {
        var store := new Store(bucket, suite, to.value.scope.keys);
        var failed := store.Write(to.value.key, r.verb.body.value, r.verb.draw);
        a := if failed.Some? then Failed([StoreFault(failed.value)]) else NoContent;
      }
      assert vault.Value() == old(vault.Value());
      Zero(held.value);
      assert vault.Value() == old(vault.Value());
    }

    method DeleteRoute(r: Request) returns (a: Response, ghost copy: Option<HeldScope>)
      requires r.verb.Delete?
      modifies bucket
      ensures Handles(suite, vault.Value(), old(bucket.objects), r, bucket.objects, a)
      ensures vault.Value() == old(vault.Value())
      ensures IsCopyOf(copy, Handed(vault.Value(), r)) && forall x :: x in CopyArrays(copy) ==> fresh(x) && Wiped(x)
    {
      hide AllArrays, Arrays, ScopeValues, ScopeValue, ValidLists, Resolve, Handed, Shaped, DeleteObject;
      Allocated(vault.scopes);
      var to, held;
      to, held, copy := ResolveScope(r);
      if to.Err? { return Failed([to.error]), copy; }
      UsableKeys(vault.Value(), r);
      if RefusesSecret(to.value.id, to.value.scope, to.value.key) {
        a := Failed([SecretsReadOnly]);
      } else {
        var store := new Store(bucket, suite, to.value.scope.keys);
        var failed := store.Delete(to.value.key);
        a := if failed.Some? then Failed([StoreFault(failed.value)]) else NoContent;
      }
      assert vault.Value() == old(vault.Value());
      Zero(held.value);
      assert vault.Value() == old(vault.Value());
    }

    method ListRoute(r: Request) returns (a: Response, ghost copy: Option<HeldScope>)
      requires r.verb.List?
      ensures Handles(suite, vault.Value(), bucket.objects, r, bucket.objects, a)
      ensures vault.Value() == old(vault.Value())
      ensures IsCopyOf(copy, Handed(vault.Value(), r)) && forall x :: x in CopyArrays(copy) ==> fresh(x) && Wiped(x)
    {
      hide AllArrays, Arrays, ScopeValues, ScopeValue, ValidLists, Resolve, Handed, Shaped, ListsPrefix, FaultsOf;
      Allocated(vault.scopes);
      var to, held;
      to, held, copy := ResolveScope(r);
      if to.Err? { return Failed([to.error]), copy; }
      UsableKeys(vault.Value(), r);
      var store := new Store(bucket, suite, to.value.scope.keys);
      var entries, failures := store.ListEntries(to.value.key);
      Zero(held.value);
      assert vault.Value() == old(vault.Value());
      a := if failures == [] then Names(R.KeysOf(entries))
           else Failed(FaultsOf(suite, to.value.scope.keys.nameKeys[0].key, bucket.objects, failures));
    }
  }

  /** What a request resolves to has keys to use. */
  lemma UsableKeys(v: V.VaultState, r: Request)
    requires Resolve(v, r).Ok?
    ensures ValidLists(Resolve(v, r).value.scope.keys)
    ensures Resolve(v, r).value.scope.keys.nameKeys != []
  {
  }
}
