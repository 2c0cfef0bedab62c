/** What an application can conclude from an answer, and what it can never touch. */
module DataSafety {
  import opened Basics
  import opened Paths
  import opened ScopeNames
  import opened Keys
  import opened Identities
  import opened Crypto
  import opened Tokens
  import opened Blobs
  import opened Stores
  import opened Wire
  import opened DataPath
  import R = StoreRefines
  import V = VaultSpec

  // ---------------------------------------------------------------- seals

  predicate WellFormedRequest(v: V.VaultState, r: Request) {
    IdentityFrom(r.peer, v.instance).Ok? && KeyOf(r).Ok? && r.declared != []
  }

  lemma {:induction false} ListingFaults(s: Suite, nameKey: Bytes, objects: Objects, failures: seq<Text>)
    ensures forall f :: f in FaultsOf(s, nameKey, objects, failures) ==> f == IntegrityFault || f == Unrecognized
  {
    hide OpenName;
    if failures != [] {
      ListingFaults(s, nameKey, objects, failures[..|failures| - 1]);
    }
  }

  /** One condition for each object that could not be named: damage, when neither its
      mirror opens nor its bytes begin with a header. */
  lemma {:induction false} FaultAt(s: Suite, nameKey: Bytes, objects: Objects, failures: seq<Text>, i: nat)
    requires i < |failures| && failures[i] in objects && LogicalName(s, nameKey, failures[i], objects[failures[i]]).Err?
    ensures FaultsOf(s, nameKey, objects, failures)[i]
         == if LogicalName(s, nameKey, failures[i], objects[failures[i]]) == Err(Integrity) then IntegrityFault else Unrecognized
  {
    NamingErrors(s, nameKey, failures[i], objects[failures[i]]);
    hide LogicalName;
    if i < |failures| - 1 { FaultAt(s, nameKey, objects, failures[..|failures| - 1], i); }
  }

  lemma NamingErrors(s: Suite, nameKey: Bytes, stored: Text, o: Object)
    ensures
      var n := LogicalName(s, nameKey, stored, o);
      n.Err? ==> n == Err(Integrity) || n == Err(Foreign)
  {
    hide OpenName, KnownFormat;
  }

  /** A listing, of any bucket: names are given when every object under the prefix could
      be named, and then they are those that begin with it; otherwise it fails, as damage
      exactly when some object there is damaged, and never as a seal or an absence. */
  lemma ListingIs(s: Suite, to: Resolved, objects: Objects, objects': Objects, a: Response)
    requires ValidLists(to.scope.keys) && Carries(s, to, objects, List, objects', a)
    ensures
      var n := to.scope.keys.nameKeys[0].key;
      var damaged := exists stored ::
        Fails(s, n, objects, to.key, stored) && Headless(objects[stored].data);
      && (a.Names? <==> forall stored :: !Fails(s, n, objects, to.key, stored))
      && (a.Names? ==> forall key :: key in a.names <==> exists stored :: Shows(s, n, objects, to.key, stored, key))
      && (!a.Names? ==> a.Failed?)
      && (a.Failed? ==> Seen(a.error) == (if damaged then AppIntegrity else StorageUnavailable))
  {
    hide FaultsOf, ValidEntries, LogicalName, TokenPrefix, Headless;
    var n := to.scope.keys.nameKeys[0].key;
    var entries, failures :|
      ListsPrefix(s, n, objects, to.key, entries, failures)
      && a == if failures == [] then Names(R.KeysOf(entries)) else Failed(FaultsOf(s, n, objects, failures));
    if failures == [] {
      assert forall stored :: stored !in failures;
      NamesShown(s, n, objects, to.key, entries, failures);
    } else {
      assert failures[0] in failures;
      ListingFaults(s, n, objects, failures);
      forall i | 0 <= i < |failures|
        ensures failures[i] in failures && Fails(s, n, objects, to.key, failures[i])
        ensures a.error[i]
             == if LogicalName(s, n, failures[i], objects[failures[i]]) == Err(Integrity) then IntegrityFault else Unrecognized
      {
        assert failures[i] in failures;
        FaultAt(s, n, objects, failures, i);
      }
      forall stored | Fails(s, n, objects, to.key, stored)
        ensures Headless(objects[stored].data) <==> LogicalName(s, n, stored, objects[stored]) == Err(Integrity)
      {
        NamingIs(s, n, stored, objects[stored]);
      }
      DamageSeen(a.error);
    }
  }

  lemma DamageSeen(e: Error)
    requires forall f :: f in e ==> f == IntegrityFault || f == Unrecognized
    ensures Seen(e) == if IntegrityFault in e then AppIntegrity else StorageUnavailable
  {
  }

  lemma NamesShown(s: Suite, n: Bytes, objects: Objects, prefix: Text, entries: seq<Listed>, failures: seq<Text>)
    requires ListsPrefix(s, n, objects, prefix, entries, failures)
    ensures forall key :: key in R.KeysOf(entries) <==> exists stored :: Shows(s, n, objects, prefix, stored, key)
  {
    hide Shows, Fails, SortedByKey;
    forall key
      ensures key in R.KeysOf(entries) <==> exists stored :: Shows(s, n, objects, prefix, stored, key)
    {
      if key in R.KeysOf(entries) {
        var i :| 0 <= i < |entries| && R.KeysOf(entries)[i] == key;
        assert entries[i] in entries;
      }
      if stored :| Shows(s, n, objects, prefix, stored, key) {
        assert stored in objects by { ShownIsThere(s, n, objects, prefix, stored, key); }
        var e := Listed(key, stored, |objects[stored].data|);
        var i :| 0 <= i < |entries| && entries[i] == e;
        assert R.KeysOf(entries)[i] == key;
      }
    }
  }

  lemma ShownIsThere(s: Suite, n: Bytes, objects: Objects, prefix: Text, stored: Text, key: Text)
    requires Shows(s, n, objects, prefix, stored, key)
    ensures stored in objects
  {
  }

  lemma SealedWhenSealed(v: V.VaultState, r: Request)
    requires WellFormedRequest(v, r)
    ensures Resolve(v, r) == Err(Fault.Sealed) <==> v.phase != V.Unsealed
  {
    hide KeyOf, MayReach, ValidLists, ScopeOwning;
  }

  /** Every well-formed request from an identified caller is told "sealed" exactly
      when the keyholder is sealed. */
  lemma SealIsSeen(s: Suite, v: V.VaultState, objects: Objects, r: Request, objects': Objects, a: Response)
    requires WellFormedRequest(v, r) && Handles(s, v, objects, r, objects', a)
    ensures a.Failed? && Seen(a.error) == StorageSealed <==> v.phase != V.Unsealed
  {
    hide Resolve, ReadObject, WriteObject, DeleteObject, ListsPrefix, FaultsOf, WellFormedRequest, RefusesSecret;
    SealedWhenSealed(v, r);
    if a.Failed? { DestructiveAnswers(a.error); }
    if Resolve(v, r).Ok? && r.verb.List? && a.Failed? {
      var to := Resolve(v, r).value;
      UsableKeys(v, r);
      var entries, failures :|
        ListsPrefix(s, to.scope.keys.nameKeys[0].key, objects, to.key, entries, failures)
        && a == if failures == [] then Names(R.KeysOf(entries))
                else Failed(FaultsOf(s, to.scope.keys.nameKeys[0].key, objects, failures));
      ListingFaults(s, to.scope.keys.nameKeys[0].key, objects, failures);
    }
  }

  // ---------------------------------------------------------------- answers

  /** The keyholder serves these spaces: each scope it holds is one of them. */
  ghost predicate Serves(s: Suite, stores: map<Bytes, Lists>, v: V.VaultState) {
    && Ideal(s, stores.Keys) && ValidScopes(v.scopes)
    && forall scope :: scope in v.scopes ==>
         scope.keys.nameKeys[0].key in stores && stores[scope.keys.nameKeys[0].key] == scope.keys
  }

  /** The operation a resolved request asks of its scope's store. */
  function OpOf(to: Resolved, verb: Verb): R.Op
    requires to.scope.keys.nameKeys != [] && (verb.Write? ==> verb.body.Some?)
  {
    var n := to.scope.keys.nameKeys[0].key;
    match verb
    case Read => R.Read(n, to.key)
    case Write(body, d) => R.Write(n, to.key, body.value, d)
    case Delete => R.Delete(n, to.key)
    case List => R.ListKeys(n, to.key)
  }

  /** A write or a delete, by an application, of a key strictly below its scope's
      secrets. */
  predicate TouchesSecret(to: Resolved, verb: Verb) {
    (verb.Write? || verb.Delete?) && to.id.role == App && to.scope.prefix + Ascii("secrets/") < to.key
  }

  /** What is turned away before the store is asked: besides that, a body too large
      to be taken in. */
  predicate Refused(to: Resolved, verb: Verb) { TouchesSecret(to, verb) || (verb.Write? && verb.body.None?) }

  lemma RefusesThese(to: Resolved, verb: Verb)
    requires verb.Write? || verb.Delete?
    ensures RefusesSecret(to.id, to.scope, to.key) <==> TouchesSecret(to, verb)
  {
    SecretsSubtree(to.scope.prefix, to.key);
    assert SecretsSegment() + [SLASH] == Ascii("secrets/");
    assert to.scope.prefix + SecretsSegment() + [SLASH] == to.scope.prefix + Ascii("secrets/");
  }

  /** Secrets are read-only to applications, and nothing else is refused as a secret:
      the operator and a device write them, and an application writes whatever is not
      strictly below the scope's secrets. */
  lemma SecretIsRefusedIff(s: Suite, to: Resolved, objects: Objects, verb: Verb, objects': Objects, a: Response)
    requires ValidLists(to.scope.keys) && Carries(s, to, objects, verb, objects', a)
    ensures a == Failed([SecretsReadOnly])
      <==> (verb.Write? || verb.Delete?) && to.id.role == App && to.scope.prefix + Ascii("secrets/") < to.key
    ensures a == Failed([SecretsReadOnly]) ==> objects' == objects
  {
    hide ReadObject, WriteObject, DeleteObject, ListsPrefix, FaultsOf, RefusesSecret, ValidEntries;
    match verb
    case Read =>
    case Write(_, _) => RefusesThese(to, verb);
    case Delete => RefusesThese(to, verb);
    case List =>
      var entries, failures :|
        ListsPrefix(s, to.scope.keys.nameKeys[0].key, objects, to.key, entries, failures)
        && a == if failures == [] then Names(R.KeysOf(entries))
                else Failed(FaultsOf(s, to.scope.keys.nameKeys[0].key, objects, failures));
      ListingFaults(s, to.scope.keys.nameKeys[0].key, objects, failures);
      assert SecretsReadOnly in [SecretsReadOnly];
  }

  /** The answer a plain map would give through this surface. */
  ghost predicate AsMap(spaces: R.Spaces, to: Resolved, verb: Verb, a: Response)
    requires to.scope.keys.nameKeys != [] && to.scope.keys.nameKeys[0].key in spaces
  {
    var space := spaces[to.scope.keys.nameKeys[0].key];
    match verb
    case Read =>
      a == if !ValidKey(to.key) then Failed([InvalidKeyFault])
           else if to.key in space then Body(space[to.key]) else Failed([ObjectNotFound])
    case Write(body, _) =>
      a == if body.None? then Failed([TooLargeFault])
           else if !ValidKey(to.key) then Failed([InvalidKeyFault])
           else if |body.value| > MAX_PLAINTEXT then Failed([TooLargeFault]) else NoContent
    case Delete => a == if ValidKey(to.key) then NoContent else Failed([InvalidKeyFault])
    case List =>
      a.Names? && R.StrictlySorted(a.names) && forall key :: key in a.names <==> key in space && to.key <= key
  }

  /** Who is served, from where: an operator or a device by any scope held, an
      application by the one its own names compose, nobody else; and only a key of the
      scope that the caller says it means, while the vault serves. */
  lemma ServedIff(v: V.VaultState, r: Request, to: Resolved)
    requires ValidScopes(v.scopes)
    ensures Resolve(v, r) == Ok(to) <==>
      && IdentityFrom(r.peer, v.instance) == Ok(to.id)
      && (r.header == Decoded(to.key) || (r.header == Missing && r.verb.List? && to.key == []))
      && v.phase == V.Unsealed
      && to.scope in v.scopes && to.scope.prefix <= to.key && to.scope.name == r.declared
      && (to.id.role == Operator || to.id.role == Device
          || (to.id.role == App && AppScopeName(to.id.namespace, to.id.name) == Some(r.declared)))
  {
    hide ValidScopeName, ValidScopePrefix, ValidEntries, AppScopeName, ScopeOwning, Overlap;
    OwnerIsUnique(v.scopes, to.key);
    if Resolve(v, r).Ok? { OwnerIsUnique(v.scopes, Resolve(v, r).value.key); }
    if to.scope in v.scopes {
      var i :| 0 <= i < |v.scopes| && v.scopes[i] == to.scope;
      assert ValidScope(v.scopes[i]);
      NamesAreThere(to.scope);
    }
  }

  lemma NamesAreThere(s: Scope)
    requires ValidScope(s)
    ensures s.name != []
  {
    hide ValidScopePrefix, ValidLists;
  }

  /** Who is turned away, and with which refusal. */
  lemma TurnedAwayIff(v: V.VaultState, r: Request)
    requires ValidScopes(v.scopes) && Resolve(v, r).Err?
    ensures
      var f, caller := Resolve(v, r).error, IdentityFrom(r.peer, v.instance);
      var named := r.header.Decoded? || (r.header.Missing? && r.verb.List?);
      && (f == Fault.NoIdentity <==> r.peer.None?)
      && (f == InvalidKeyFault <==> caller.Ok? && !named)
      && (f == Fault.Sealed <==> caller.Ok? && named && r.declared != [] && v.phase != V.Unsealed)
      && (f == Fault.NotAuthorized ==> r.peer.Some?)
      && (f == Fault.NotAuthorized && caller.Ok? ==>
            && named && v.phase == V.Unsealed
            && exists scope :: scope in v.scopes && Owns(scope.prefix, KeyOf(r).value) && !MayReach(caller.value, scope.name))
      && (f == Fault.OutOfScope ==>
            && caller.Ok? && named
            && (r.declared == []
                || forall scope :: scope in v.scopes && Owns(scope.prefix, KeyOf(r).value) ==> scope.name != r.declared))
      && f in {Fault.NoIdentity, Fault.NotAuthorized, InvalidKeyFault, Fault.Sealed, Fault.OutOfScope}
  {
    hide ValidScopeName, ValidScopePrefix, ValidEntries, MayReach, ScopeOwning, Overlap, IdentityFrom;
    IdentityErrors(r.peer, v.instance);
    if IdentityFrom(r.peer, v.instance).Ok? && KeyOf(r).Ok? { OwnerIsUnique(v.scopes, KeyOf(r).value); }
  }

  lemma IdentityErrors(peer: Option<seq<Text>>, instance: Text)
    ensures IdentityFrom(peer, instance) == Err(AuthError.NoIdentity) <==> peer.None?
  {
    hide ParseIdentity;
  }

  /** Where a request leads: a scope this vault holds, owning the key. */
  lemma ResolvesToOwner(v: V.VaultState, r: Request)
    requires ValidScopes(v.scopes) && Resolve(v, r).Ok?
    ensures v.phase == V.Unsealed
    ensures Resolve(v, r).value.scope in v.scopes
    ensures Owns(Resolve(v, r).value.scope.prefix, Resolve(v, r).value.key)
    ensures MayReach(Resolve(v, r).value.id, Resolve(v, r).value.scope.name)
    ensures IdentityFrom(r.peer, v.instance) == Ok(Resolve(v, r).value.id)
  {
    OwnerIsUnique(v.scopes, Resolve(v, r).value.key);
  }

  /** Whatever is served was let through by the listener. */
  lemma ServedWasAdmitted(v: V.VaultState, r: Request)
    requires Resolve(v, r).Ok?
    ensures Admitted(r.peer, v.instance)
  {
    hide Admitted, ValidLists, ScopeOwning, KeyOf, MayReach;
    AdmitsWhoeverIsServed(r.peer, v.instance);
    assert exists name :: MayReach(Resolve(v, r).value.id, name) by {
      assert MayReach(Resolve(v, r).value.id, Resolve(v, r).value.scope.name);
    }
  }

  /** A key inside a scope has a complete segment to narrow a listing by. */
  lemma OwnedNarrows(prefix: Text, key: Text)
    requires ValidScopePrefix(prefix) && Owns(prefix, key)
    ensures Aligned(key) != []
  {
    var last := |prefix| - 1;
    assert key[last] == SLASH && last > 0 && key[last] in key;
    var cut := LastSlash(key).value;
    forall i | cut < i < |key|
      ensures key[i] != SLASH
    {
      assert key[cut + 1..][i - cut - 1] == key[i];
    }
    assert cut >= last;
  }

  /** The whole path: a resolved request that is not refused answers exactly as the
      scope's own map would, and does to that map what it says. */
  lemma AnswersAsTheMap(s: Suite, stores: map<Bytes, Lists>, spaces: R.Spaces, v: V.VaultState, objects: Objects,
                        r: Request, objects': Objects, a: Response)
    requires Serves(s, stores, v) && R.Rel(s, stores, spaces, objects)
    requires Handles(s, v, objects, r, objects', a) && Resolve(v, r).Ok?
    requires r.verb.Write? ==> GoodDraw(r.verb.draw)
    requires !Refused(Resolve(v, r).value, r.verb)
    ensures
      var to := Resolve(v, r).value;
      && to.scope.keys.nameKeys != [] && to.scope.keys.nameKeys[0].key in spaces
      && R.Rel(s, stores, R.Apply(spaces, OpOf(to, r.verb)), objects')
      && AsMap(spaces, to, r.verb, a)
  {
    hide Resolve, ValidEntries, Ideal, R.Rel, Carries, R.Apply, R.Answers, AsMap, Same, RefusesSecret;
    var to := Resolve(v, r).value;
    UsableKeys(v, r);
    ResolvesToOwner(v, r);
    var n := to.scope.keys.nameKeys[0].key;
    var answer := Performed(s, to, objects, r.verb, objects', a);
    hide Handles, Carries;
    R.StepRefines(s, stores, spaces, objects, OpOf(to, r.verb), objects', answer);
    assert ValidScope(to.scope);
    AnswerIsTheMaps(spaces, to, r.verb, answer, a);
  }

  /** The response in terms of the store's own answer. */
  ghost predicate Same(a: Response, answer: R.Answer, verb: Verb) {
    match answer
    case Done => a == NoContent
    case Value(data) => a == Body(data)
    case Failed(e) => a == Response.Failed([StoreFault(e)])
    case Keys(keys, clean) => clean ==> a == Names(keys)
  }

  /** A request that is not refused is an operation of its scope's store. */
  lemma Performed(s: Suite, to: Resolved, objects: Objects, verb: Verb, objects': Objects, a: Response)
    returns (answer: R.Answer)
    requires ValidLists(to.scope.keys) && Carries(s, to, objects, verb, objects', a) && !Refused(to, verb)
    ensures R.Performs(s, to.scope.keys, objects, OpOf(to, verb), objects', answer)
    ensures Same(a, answer, verb)
  {
    hide ReadObject, WriteObject, DeleteObject, ListsPrefix, FaultsOf, RefusesSecret;
    var keys := to.scope.keys;
    if verb.Write? || verb.Delete? { RefusesThese(to, verb); }
    match verb
    case Read =>
      var data := ReadObject(s, keys, objects, to.key);
      answer := if data.Ok? then R.Value(data.value) else R.Failed(data.error);
    case Write(body, d) =>
      var (o, failed) := WriteObject(s, keys, objects, to.key, body.value, d);
      answer := if failed.Some? then R.Failed(failed.value) else R.Done;
    case Delete =>
      var (o, failed) := DeleteObject(s, keys, objects, to.key);
      answer := if failed.Some? then R.Failed(failed.value) else R.Done;
    case List =>
      var entries, failures :|
        ListsPrefix(s, keys.nameKeys[0].key, objects, to.key, entries, failures)
        && a == if failures == [] then Names(R.KeysOf(entries))
                else Failed(FaultsOf(s, keys.nameKeys[0].key, objects, failures));
      answer := R.Keys(R.KeysOf(entries), failures == []);
  }

  /** The store's answer, when it is the map's, is the map's through this surface. */
  lemma AnswerIsTheMaps(spaces: R.Spaces, to: Resolved, verb: Verb, answer: R.Answer, a: Response)
    requires ValidScope(to.scope) && Owns(to.scope.prefix, to.key) && !Refused(to, verb)
    requires to.scope.keys.nameKeys[0].key in spaces && R.Answers(spaces, OpOf(to, verb), answer) && Same(a, answer, verb)
    ensures AsMap(spaces, to, verb, a)
  {
    hide ValidLists, R.StrictlySorted, ValidKey;
    if verb.List? { OwnedNarrows(to.scope.prefix, to.key); }
  }

  // ---------------------------------------------------------------- absence

  predicate SaysAbsent(a: Response) { a.Failed? && Seen(a.error) == NoSuchObject }

  /** A refusal changes nothing and is not absence. */
  lemma RefusalIsNotAbsence(s: Suite, to: Resolved, objects: Objects, verb: Verb, objects': Objects, a: Response)
    requires ValidLists(to.scope.keys) && Carries(s, to, objects, verb, objects', a) && Refused(to, verb)
    ensures objects' == objects && !SaysAbsent(a)
    ensures a == Failed([if TouchesSecret(to, verb) then SecretsReadOnly else TooLargeFault])
  {
    hide WriteObject, DeleteObject, RefusesSecret;
    RefusesThese(to, verb);
    DestructiveAnswers(a.error);
  }

  lemma FaultIsNotAbsence(v: V.VaultState, r: Request)
    requires Resolve(v, r).Err?
    ensures !SaysAbsent(Failed([Resolve(v, r).error]))
  {
    DestructiveAnswers([Resolve(v, r).error]);
  }

  lemma MapAbsence(spaces: R.Spaces, to: Resolved, verb: Verb, a: Response)
    requires to.scope.keys.nameKeys != [] && to.scope.keys.nameKeys[0].key in spaces && AsMap(spaces, to, verb, a)
    ensures SaysAbsent(a) <==> verb.Read? && ValidKey(to.key) && Lacks(spaces, to)
  {
    hide ValidKey, R.StrictlySorted;
    if a.Failed? { DestructiveAnswers(a.error); }
  }

  /** "No such object" is said exactly when a read by an identified caller reached a
      scope that is served, owns the key, and has no such key. */
  lemma AbsenceIsReal(s: Suite, stores: map<Bytes, Lists>, spaces: R.Spaces, v: V.VaultState, objects: Objects,
                      r: Request, objects': Objects, a: Response)
    requires Serves(s, stores, v) && R.Rel(s, stores, spaces, objects)
    requires Handles(s, v, objects, r, objects', a)
    requires r.verb.Write? ==> GoodDraw(r.verb.draw)
    ensures SaysAbsent(a)
      <==> r.verb.Read? && Resolve(v, r).Ok? && ValidKey(Resolve(v, r).value.key) && Lacks(spaces, Resolve(v, r).value)
    ensures SaysAbsent(a) ==>
      v.phase == V.Unsealed && ScopeOwning(v.scopes, Resolve(v, r).value.key) == Some(Resolve(v, r).value.scope)
  {
    hide Resolve, ValidKey, Lacks, SaysAbsent, Serves, Carries, R.Rel, AsMap, ValidEntries;
    ResolvesByRouting(v, r);
    if Resolve(v, r).Ok? && !Refused(Resolve(v, r).value, r.verb) {
      AnswersAsTheMap(s, stores, spaces, v, objects, r, objects', a);
      MapAbsence(spaces, Resolve(v, r).value, r.verb, a);
    } else if Resolve(v, r).Ok? {
      UsableKeys(v, r);
      RefusalIsNotAbsence(s, Resolve(v, r).value, objects, r.verb, objects', a);
    } else {
      FaultIsNotAbsence(v, r);
    }
  }

  /** So it is over any bucket at all, damaged, foreign or written to behind the
      keyholder's back: "no such object" means that there is none at the key's path. */
  lemma AbsenceInAnyBucket(s: Suite, v: V.VaultState, objects: Objects, r: Request, objects': Objects, a: Response)
    requires Handles(s, v, objects, r, objects', a)
    ensures SaysAbsent(a) <==>
      && r.verb.Read? && Resolve(v, r).Ok?
      && var to := Resolve(v, r).value;
      ValidKey(to.key) && to.scope.keys.nameKeys != [] && TokenPath(s, to.scope.keys.nameKeys[0].key, to.key) !in objects
  {
    hide Resolve, ValidKey, TokenPath, ValidEntries, RefusesSecret, SaysAbsent, FaultsOf, ListsPrefix, Open, Seal;
    match Resolve(v, r)
    case Err(_) => FaultIsNotAbsence(v, r);
    case Ok(to) =>
      UsableKeys(v, r);
      match r.verb
      case List => ListingIsNotAbsence(s, to, objects, objects', a);
      case Read =>
        NotFoundIsAbsence(a);
        OpenNeverLacks(s, to.scope.keys.keks, to.key, objects);
      case Write(body, d) =>
        NotFoundIsAbsence(a);
        var stored := TokenPath(s, to.scope.keys.nameKeys[0].key, to.key);
        if body.Some? { SealNeverLacks(s, to.scope.keys, stored, to.key, body.value, d); }
      case Delete => NotFoundIsAbsence(a);
  }

  /** And what a read answers with over any bucket was sealed for the very key it names,
      under a data key that one of the scope's keys wraps: bytes moved from elsewhere,
      or made up, are not served. */
  lemma ServesOnlyWhatWasSealed(s: Suite, v: V.VaultState, objects: Objects, r: Request, objects': Objects, a: Response)
    requires SealsAndOpens(s) && Handles(s, v, objects, r, objects', a) && a.Body?
    ensures r.verb.Read? && Resolve(v, r).Ok?
    ensures
      var to := Resolve(v, r).value;
      && to.scope.keys.nameKeys != []
      && var stored := TokenPath(s, to.scope.keys.nameKeys[0].key, to.key);
      && stored in objects
      && var b := objects[stored].data;
      exists n, dek ::
        Heads(b, n) && WrapHolds(s, to.scope.keys.keks, b, dek) && BodyOf(s, b[4], dek, to.key, b[75 + n..], a.data)
  {
    hide Resolve, TokenPath, ValidEntries, WrapHolds, BodyOf, Open, SealsAndOpens, ValidKey, WriteObject, DeleteObject, ListsPrefix,
         FaultsOf, RefusesSecret;
    if Resolve(v, r).Ok? {
      UsableKeys(v, r);
      var to := Resolve(v, r).value;
      assert r.verb.Read?;
      var b := objects[TokenPath(s, to.scope.keys.nameKeys[0].key, to.key)].data;
      OpensIff(s, to.scope.keys.keks, to.key, b, a.data);
    }
  }

  lemma NotFoundIsAbsence(a: Response)
    ensures a.Failed? && |a.error| == 1 ==> (SaysAbsent(a) <==> a.error == [ObjectNotFound])
    ensures !a.Failed? ==> !SaysAbsent(a)
  {
  }

  lemma OpenNeverLacks(s: Suite, keks: seq<Entry>, key: Text, objects: Objects)
    ensures forall stored :: stored in objects ==> Open(s, keks, key, objects[stored].data) != Err(NotFound)
  {
    hide Lookup;
  }

  lemma SealNeverLacks(s: Suite, keys: Lists, stored: Text, key: Text, data: Bytes, d: Draw)
    requires ValidLists(keys)
    ensures Seal(s, keys.keks[0].id, keys.keks[0].key, keys.nameKeys[0].key, stored, key, data, d) != Err(NotFound)
  {
    hide ValidKey, ValidEntries, SealName, Layout;
  }

  lemma ListingIsNotAbsence(s: Suite, to: Resolved, objects: Objects, objects': Objects, a: Response)
    requires ValidLists(to.scope.keys) && Carries(s, to, objects, List, objects', a)
    ensures !SaysAbsent(a)
  {
    hide FaultsOf, ListsPrefix, ValidEntries;
    var entries, failures :|
      ListsPrefix(s, to.scope.keys.nameKeys[0].key, objects, to.key, entries, failures)
      && a == if failures == [] then Names(R.KeysOf(entries))
              else Failed(FaultsOf(s, to.scope.keys.nameKeys[0].key, objects, failures));
    ListingFaults(s, to.scope.keys.nameKeys[0].key, objects, failures);
    if a.Failed? { DestructiveAnswers(a.error); }
  }

  predicate Lacks(spaces: R.Spaces, to: Resolved) {
    to.scope.keys.nameKeys != [] && to.scope.keys.nameKeys[0].key in spaces
    && to.key !in spaces[to.scope.keys.nameKeys[0].key]
  }

  lemma ResolvesByRouting(v: V.VaultState, r: Request)
    ensures Resolve(v, r).Ok? ==>
      v.phase == V.Unsealed && ScopeOwning(v.scopes, Resolve(v, r).value.key) == Some(Resolve(v, r).value.scope)
  {
  }

  // ---------------------------------------------------------------- isolation

  /** Where this caller's writes and deletes can land: at a key that is not a secret,
      inside a scope this vault holds under the caller's own name. */
  ghost predicate MayTouch(s: Suite, v: V.VaultState, id: Identity, stored: Text) {
    exists scope, key ::
      && scope in v.scopes && scope.keys.nameKeys != []
      && AppScopeName(id.namespace, id.name) == Some(scope.name)
      && Owns(scope.prefix, key) && !IsSecretsKey(scope.prefix, key)
      && stored == TokenPath(s, scope.keys.nameKeys[0].key, key)
  }

  predicate Agree(a: Objects, b: Objects, stored: Text) {
    (stored in a <==> stored in b) && (stored in a && stored in b ==> a[stored] == b[stored])
  }

  /** An application's request changes nothing it may not touch. */
  lemma TouchesOnlyOwn(s: Suite, v: V.VaultState, objects: Objects, r: Request, objects': Objects, a: Response, id: Identity,
                       stored: Text)
    requires ValidScopes(v.scopes) && Handles(s, v, objects, r, objects', a)
    requires IdentityFrom(r.peer, v.instance) == Ok(id) && id.role == App
    requires !MayTouch(s, v, id, stored)
    ensures Agree(objects, objects', stored)
  {
    hide Resolve, ValidLists, Open, Seal, ListsPrefix, FaultsOf, TokenPath, ScopeOwning;
    if Resolve(v, r).Ok? {
      UsableKeys(v, r);
      ResolvesToOwner(v, r);
      var to := Resolve(v, r).value;
      if !IsSecretsKey(to.scope.prefix, to.key) {
        assert stored != TokenPath(s, to.scope.keys.nameKeys[0].key, to.key);
      }
    }
  }

  /** A run of requests: at each step the vault as it then was, the request, the
      bucket after it and the answer. */
  datatype Turn = Turn(vault: V.VaultState, request: Request, caller: Identity, objects: Objects, answer: Response)

  function Before(start: Objects, run: seq<Turn>, i: nat): Objects
    requires i < |run|
  {
    if i == 0 then start else run[i - 1].objects
  }

  ghost predicate IsRun(s: Suite, start: Objects, run: seq<Turn>) {
    forall i :: 0 <= i < |run| ==>
      && ValidScopes(run[i].vault.scopes)
      && Handles(s, run[i].vault, Before(start, run, i), run[i].request, run[i].objects, run[i].answer)
      && IdentityFrom(run[i].request.peer, run[i].vault.instance) == Ok(run[i].caller)
      && run[i].caller.role == App
  }

  function End(start: Objects, run: seq<Turn>): Objects { if run == [] then start else run[|run| - 1].objects }

  /** No run of application requests, through however many changes of the vault,
      changes an object none of them may touch. */
  lemma {:induction false} RunTouchesOnlyOwn(s: Suite, start: Objects, run: seq<Turn>, stored: Text)
    requires IsRun(s, start, run)
    requires forall i :: 0 <= i < |run| ==> !MayTouch(s, run[i].vault, run[i].caller, stored)
    ensures Agree(start, End(start, run), stored)
    decreases |run|
  {
    hide Handles, MayTouch;
    if run != [] {
      var init, last := run[..|run| - 1], run[|run| - 1];
      RunPrefix(s, start, run);
      RunTouchesOnlyOwn(s, start, init, stored);
      TouchesOnlyOwn(s, last.vault, End(start, init), last.request, last.objects, last.answer, last.caller, stored);
    }
  }

  lemma SameBefore(start: Objects, run: seq<Turn>, i: nat)
    requires i < |run|
    ensures i < |run| - 1 ==> run[..|run| - 1][i] == run[i] && Before(start, run[..|run| - 1], i) == Before(start, run, i)
    ensures i == |run| - 1 ==> Before(start, run, i) == End(start, run[..i])
  {
  }

  lemma RunPrefix(s: Suite, start: Objects, run: seq<Turn>)
    requires IsRun(s, start, run) && run != []
    ensures IsRun(s, start, run[..|run| - 1])
    ensures Before(start, run, |run| - 1) == End(start, run[..|run| - 1])
  {
    hide Handles, ValidScopes, IdentityFrom, Before;
    forall i | 0 <= i < |run| - 1 { SameBefore(start, run, i); }
    SameBefore(start, run, |run| - 1);
  }

  /** Every vault of a run that holds this name key holds it for this scope. */
  ghost predicate OwnsKey(run: seq<Turn>, nameKey: Bytes, name: Text, prefix: Text) {
    forall i, scope :: 0 <= i < |run| && scope in run[i].vault.scopes ==>
      scope.keys.nameKeys != [] && scope.keys.nameKeys[0].key == nameKey ==> scope.name == name && scope.prefix == prefix
  }

  ghost predicate KeysAreWhole(run: seq<Turn>) {
    forall i, scope :: 0 <= i < |run| && scope in run[i].vault.scopes && scope.keys.nameKeys != [] ==>
      |scope.keys.nameKeys[0].key| == KEY_BYTES
  }

  lemma ScopeKeysAreWhole(s: Suite, start: Objects, run: seq<Turn>)
    requires IsRun(s, start, run)
    ensures KeysAreWhole(run)
  {
    hide Handles;
    forall i, scope | 0 <= i < |run| && scope in run[i].vault.scopes && scope.keys.nameKeys != []
      ensures |scope.keys.nameKeys[0].key| == KEY_BYTES
    {
      assert ValidScope(scope);
    }
  }

  /** Secrets are read-only to applications, and a neighbour's objects are out of
      reach, over any run. */
  lemma SecretsAndNeighboursUntouched(s: Suite, start: Objects, run: seq<Turn>, nameKey: Bytes, name: Text, prefix: Text,
                                      key: Text)
    requires IsRun(s, start, run) && TokensAreNames(s) && |nameKey| == KEY_BYTES
    requires OwnsKey(run, nameKey, name, prefix)
    requires IsSecretsKey(prefix, key)
      || forall i :: 0 <= i < |run| ==> AppScopeName(run[i].caller.namespace, run[i].caller.name) != Some(name)
    ensures Agree(start, End(start, run), TokenPath(s, nameKey, key))
  {
    hide Handles, TokenPath, TokensAreNames, IsSecretsKey, AppScopeName;
    ScopeKeysAreWhole(s, start, run);
    var stored := TokenPath(s, nameKey, key);
    forall i | 0 <= i < |run|
      ensures !MayTouch(s, run[i].vault, run[i].caller, stored)
    {
      forall scope, other | scope in run[i].vault.scopes && scope.keys.nameKeys != []
                            && stored == TokenPath(s, scope.keys.nameKeys[0].key, other)
        ensures other == key && scope.name == name && scope.prefix == prefix
      {
        PathsAreInjective(s, nameKey, key, scope.keys.nameKeys[0].key, other);
      }
    }
    RunTouchesOnlyOwn(s, start, run, stored);
  }
}
