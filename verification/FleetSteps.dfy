/** What every event keeps: fleet, bucket, maps and requests in flight stay in step,
    and each reply is as it should be. */
module FleetSteps {
  import opened Basics
  import opened Paths
  import opened ScopeNames
  import opened Keys
  import opened Keyrings
  import opened Merging
  import opened Rotations
  import opened RotationLaws
  import opened Growth
  import opened Crypto
  import opened Tokens
  import opened Blobs
  import opened Stores
  import opened Wire
  import opened DataPath
  import opened FleetSpaces
  import opened FleetWorld
  import D = DataSafety
  import F = Fleet
  import R = StoreRefines
  import V = VaultSpec

  /** The bucket is what plain maps hold, under the operator's keys, and on record. */
  ghost predicate Settled(s: Suite, names: set<Bytes>, w: World) {
    && F.Safe(w.fleet) && Distinct(w.fleet.operator.scopes, names)
    && R.Rel(s, StoresOf(w.fleet.operator.scopes, names), w.spaces, w.bucket)
    && Linked(s, w.spaces, w.bucket, w.fleet.objects)
  }

  lemma OperatorOpensAll(st: F.State, names: set<Bytes>)
    requires F.Safe(st) && Distinct(st.operator.scopes, names)
    ensures forall o :: o in st.objects ==> Opens(StoresOf(st.operator.scopes, names), o)
  {
    hide F.Safe, F.OperatorReads, Opens, Distinct, ValidKeyring;
    F.SafeParts(st);
    forall o | o in st.objects { OperatorOpens(st, names, o); }
  }

  lemma OperatorStoresOk(s: Suite, names: set<Bytes>, k: Keyring, spaces: R.Spaces)
    requires Ideal(s, names) && ValidKeyring(k) && spaces.Keys == names
    ensures R.StoresOk(StoresOf(k.scopes, names), spaces)
  {
    hide ValidLists, R.StoresOk;
    NamesAreWhole(s, names);
    hide Ideal;
    forall t | t in k.scopes
      ensures ValidLists(t.keys)
    {
      var i :| 0 <= i < |k.scopes| && k.scopes[i] == t;
      assert ValidScope(k.scopes[i]);
    }
    StoresAreOk(k.scopes, names, spaces);
  }

  lemma NamesAreWhole(s: Suite, names: set<Bytes>)
    requires Ideal(s, names)
    ensures forall n :: n in names ==> |n| == KEY_BYTES
  {
  }

  /** One operation through any stores that open what is on record. */
  lemma Through(s: Suite, names: set<Bytes>, w: World, stores: map<Bytes, Lists>, op: R.Op, a: R.Answer, w': World)
    requires Ideal(s, names) && Settled(s, names, w) && stores.Keys == names
    requires R.StoresOk(stores, w.spaces) && op.space in names && R.GoodOp(op) && ValidLists(stores[op.space])
    requires R.Performs(s, stores[op.space], w.bucket, op, w'.bucket, a)
    requires F.Safe(w'.fleet) && w'.fleet.operator == w.fleet.operator && w.fleet.objects <= w'.fleet.objects
    requires forall o :: o in w'.fleet.objects ==> Opens(stores, o)
    requires Wraps(op) && a == R.Done ==>
      exists o :: o in w'.fleet.objects && o.nameKey == op.space && o.key == op.key && o.kekId == stores[op.space].keks[0].id
    requires w'.spaces == Applied(w.spaces, op)
    ensures op.space in w.spaces && R.Answers(w.spaces, op, a) && Settled(s, names, w')
  {
    hide Ideal, F.Safe, Distinct, R.Rel, Linked, Opens, R.StoresOk, R.Performs, R.Answers, R.GoodOp, ValidEntries, R.Apply;
    var mine := StoresOf(w.fleet.operator.scopes, names);
    OperatorOpensAll(w.fleet, names);
    OperatorOpensAll(w'.fleet, names);
    R.SameSpacesOf(s, mine, w.spaces, w.bucket);
    RelByRecords(s, mine, stores, w.spaces, w.bucket, w.fleet.objects);
    R.StepRefines(s, stores, w.spaces, w.bucket, op, w'.bucket, a);
    NameAt(stores, w.spaces, op.space);
    StaysLinked(s, stores, w.spaces, w.bucket, op, w'.bucket, a, w.fleet.objects, w'.fleet.objects);
    R.SameSpacesOf(s, stores, w'.spaces, w'.bucket);
    assert ValidKeyring(w.fleet.operator) by { F.SafeParts(w.fleet); }
    OperatorStoresOk(s, names, w.fleet.operator, w'.spaces);
    RelByRecords(s, stores, mine, w'.spaces, w'.bucket, w'.fleet.objects);
  }

  lemma NameAt(stores: map<Bytes, Lists>, spaces: R.Spaces, n: Bytes)
    requires R.StoresOk(stores, spaces) && n in stores
    ensures ValidLists(stores[n]) && stores[n].nameKeys[0].key == n
  {
  }

  /** A replica serves the spaces as it sees them. */

  /** A replica serves the spaces as it sees them. */
  lemma ReplicaServes(s: Suite, names: set<Bytes>, w: World, i: nat)
    requires Ideal(s, names) && Settled(s, names, w) && i < |w.fleet.replicas|
    ensures
      var stores := SeenBy(w.fleet.replicas[i].scopes, w.fleet.operator.scopes, names);
      && stores.Keys == names && R.StoresOk(stores, w.spaces)
      && D.Serves(s, stores, w.fleet.replicas[i]) && R.Rel(s, stores, w.spaces, w.bucket)
      && forall o :: o in w.fleet.objects ==> Opens(stores, o)
  {
    hide Ideal, F.Safe, R.Rel, Linked, Opens, ValidScope, Overlap, R.StoresOk, HolderOf;
    var v, k := w.fleet.replicas[i], w.fleet.operator;
    F.SafeParts(w.fleet);
    assert F.ReplicaOk(v, k);
    var mine, stores := StoresOf(k.scopes, names), SeenBy(v.scopes, k.scopes, names);
    HeldIsValid(v, k);
    HeldDistinct(v, k, names);
    forall t | t in v.scopes
      ensures ValidLists(t.keys) && t.keys.nameKeys[0].key in names
      ensures HolderOf(v.scopes, t.keys.nameKeys[0].key) == Some(t)
    {
      UsableIn(v.scopes, t);
      NameIsAmong(v.scopes, names, t);
      OnlyHolder(v.scopes, names, t);
    }
    forall t | t in k.scopes { UsableIn(k.scopes, t); }
    NamesAreWhole(s, names);
    R.SameSpacesOf(s, mine, w.spaces, w.bucket);
    SeenIsOk(v.scopes, k.scopes, names, w.spaces);
    forall o | o in w.fleet.objects { ReplicaOpens(w.fleet, names, i, o); }
    OperatorOpensAll(w.fleet, names);
    RelByRecords(s, mine, stores, w.spaces, w.bucket, w.fleet.objects);
  }

  lemma UsableIn(scopes: seq<Scope>, t: Scope)
    requires ValidScopes(scopes) && t in scopes
    ensures ValidLists(t.keys)
  {
    var i :| 0 <= i < |scopes| && scopes[i] == t;
    assert ValidScope(scopes[i]);
  }

  /** A request that resolves finds its objects in a space that is served. */
  lemma ResolvedName(s: Suite, stores: map<Bytes, Lists>, spaces: R.Spaces, v: V.VaultState, r: Request)
    requires D.Serves(s, stores, v) && R.StoresOk(stores, spaces) && Resolve(v, r).Ok?
    ensures
      var keys := Resolve(v, r).value.scope.keys;
      ValidLists(keys) && keys.nameKeys[0].key in stores && stores[keys.nameKeys[0].key] == keys
      && keys.nameKeys[0].key in spaces
  {
    hide Resolve, Ideal, ValidEntries;
    D.ResolvesToOwner(v, r);
    UsableKeys(v, r);
  }

  lemma SettledParts(s: Suite, names: set<Bytes>, w: World)
    requires Settled(s, names, w)
    ensures F.Safe(w.fleet) && Distinct(w.fleet.operator.scopes, names)
  {
  }

  // ---------------------------------------------------------------- the operator's machine

  /** Choosing active keys leaves every scope its name key. */
  lemma ChoiceKeepsNames(k: Keyring, active: map<Text, KeyId>, names: set<Bytes>)
    requires ValidKeyring(k) && Distinct(k.scopes, names) && WithScopeActive(k, active).Some?
    ensures Distinct(WithScopeActive(k, active).value.scopes, names)
  {
    hide WithScopeActive, Promotes, ValidKeyring;
    ActivationSucceedsIff(k, active);
    var next := WithScopeActive(k, active).value;
    forall i | 0 <= i < |k.scopes|
      ensures next.scopes[i].keys.nameKeys == k.scopes[i].keys.nameKeys
    {
      assert Kept(k.scopes[i], next.scopes[i], active);
    }
  }

  /** Under any choice of active keys the operator's machine opens what is on record. */
  lemma ChosenOpens(st: F.State, names: set<Bytes>, active: map<Text, KeyId>)
    requires F.Safe(st) && Distinct(st.operator.scopes, names) && WithScopeActive(st.operator, active).Some?
    ensures
      var k := WithScopeActive(st.operator, active).value;
      && ValidKeyring(k) && Distinct(k.scopes, names)
      && forall o :: o in st.objects ==> Opens(StoresOf(k.scopes, names), o)
  {
    hide F.Safe, WithScopeActive, Distinct, Opens, Grows, ValidKeyring;
    F.SafeParts(st);
    ActivationGrowsBothWays(st.operator, active);
    ChoiceKeepsNames(st.operator, active, names);
    var k := WithScopeActive(st.operator, active).value;
    F.KeyringGrows(st, k);
    OperatorOpensAll(st.(operator := k), names);
  }

  /** The scope the machine uses is its keyring's own. */
  lemma UsesItsOwn(st: F.State, active: map<Text, KeyId>, op: R.Op)
    requires ValidKeyring(st.operator) && OperatorUses(st, active, op).Some?
    ensures WithScopeActive(st.operator, active).Some?
    ensures OperatorUses(st, active, op).value in WithScopeActive(st.operator, active).value.scopes
  {
    hide WithScopeActive, ScopeOwning, F.KnownEverywhere, F.Usable, Grows;
    if WithScopeActive(st.operator, active).Some? {
      ActivationGrowsBothWays(st.operator, active);
      OwnerIsUnique(WithScopeActive(st.operator, active).value.scopes, OpKey(op));
    }
  }

  /** A write or rekey by the operator's machine goes on record. */
  lemma OperatorNoted(st: F.State, active: map<Text, KeyId>, op: R.Op)
    requires F.Safe(st) && Wraps(op) && OperatorUses(st, active, op).Some?
    ensures
      var st', t := F.Next(st, F.OperatorWrite(op.key, active)), OperatorUses(st, active, op).value;
      && F.Safe(st') && st'.operator == st.operator && st.objects <= st'.objects
      && t.keys.nameKeys != [] && t.keys.keks != []
      && exists o :: o in st'.objects && o.nameKey == t.keys.nameKeys[0].key && o.key == op.key && o.kekId == t.keys.keks[0].id
  {
    hide F.Safe, F.OperatorScope;
    F.OperatorWriteSafe(st, op.key, active);
    var t := OperatorUses(st, active, op).value;
    assert F.Sealing(t, op.key) in F.Next(st, F.OperatorWrite(op.key, active)).objects;
  }

  lemma OperateStep(s: Suite, names: set<Bytes>, w: World, active: map<Text, KeyId>, op: R.Op, w': World, a: R.Answer)
    requires Ideal(s, names) && Settled(s, names, w) && Operates(s, w, active, op, w', a)
    ensures Settled(s, names, w') && Answered(s, w, Operate(active, op), ToOperator(a))
  {
    hide Ideal, Settled, F.Safe, WithScopeActive, Distinct, Opens, R.StoresOk, R.Performs, OperatorUses, F.OperatorScope, R.Answers,
         Applied, F.Next, ValidKeyring, ValidEntries, HolderOf;
    SettledParts(s, names, w);
    F.SafeParts(w.fleet);
    var t := OperatorUses(w.fleet, active, op).value;
    UsesItsOwn(w.fleet, active, op);
    ChosenOpens(w.fleet, names, active);
    var k := WithScopeActive(w.fleet.operator, active).value;
    var stores := StoresOf(k.scopes, names);
    OnlyHolder(k.scopes, names, t);
    NameIsAmong(k.scopes, names, t);
    SettledSpaces(s, names, w);
    OperatorStoresOk(s, names, k, w.spaces);
    if Wraps(op) && a == R.Done {
      OperatorNoted(w.fleet, active, op);
      ChosenOpens(w'.fleet, names, active);
    }
    Through(s, names, w, stores, op, a, w');
  }

  lemma SettledSpaces(s: Suite, names: set<Bytes>, w: World)
    requires Settled(s, names, w)
    ensures w.spaces.Keys == names
  {
    hide Distinct, F.Safe, Linked;
    R.SameSpacesOf(s, StoresOf(w.fleet.operator.scopes, names), w.spaces, w.bucket);
  }

  /** A rotation gives no scope a new name key. */
  lemma RotationKeepsNames(k: Keyring, minted: seq<Entry>, names: set<Bytes>)
    requires Distinct(k.scopes, names) && |minted| == |k.scopes| && Rotate(k, minted).Some?
    ensures Distinct(Rotate(k, minted).value.scopes, names)
  {
    hide ValidScope;
  }

  /** Nothing else changes the operator's keyring, or what is on record. */
  lemma KeysOnlyStep(st: F.State, step: F.Step)
    requires KeysOnly(step)
    ensures F.Next(st, step).objects == st.objects && F.Next(st, step).pending == st.pending
    ensures !step.AddScope? && !step.Rotate? && !step.Import? ==> F.Next(st, step).operator == st.operator
  {
    hide WithScopeActive, Rotate, Merge, AddScope, F.Cleared, F.NotWithout, F.TookIt, ValidKeyring;
  }

  lemma ControlStep(s: Suite, names: set<Bytes>, w: World, step: F.Step, w': World)
    requires Ideal(s, names) && Settled(s, names, w) && Moves(s, names, w, Control(step), w', Nothing)
    ensures Settled(s, names, w')
  {
    hide Ideal, F.Safe, Distinct, Opens, R.Rel, Linked, R.StoresOk, ValidKeyring;
    F.NextSafe(w.fleet, step);
    KeysOnlyStep(w.fleet, step);
    if step.Rotate? && |step.minted| == |w.fleet.operator.scopes| && Rotate(w.fleet.operator, step.minted).Some? {
      RotationKeepsNames(w.fleet.operator, step.minted, names);
    }
    assert Distinct(w'.fleet.operator.scopes, names);
    hide F.Next;
    F.SafeParts(w'.fleet);
    OperatorOpensAll(w.fleet, names);
    OperatorOpensAll(w'.fleet, names);
    var mine, next := StoresOf(w.fleet.operator.scopes, names), StoresOf(w'.fleet.operator.scopes, names);
    R.SameSpacesOf(s, mine, w.spaces, w.bucket);
    OperatorStoresOk(s, names, w'.fleet.operator, w.spaces);
    RelByRecords(s, mine, next, w.spaces, w.bucket, w.fleet.objects);
  }

  // ---------------------------------------------------------------- requests in flight

  /** A request in flight keeps keys that the operator's keyring has outgrown, and a
      write that may go ahead is pending as it would be wrapped. */
  ghost predicate FlightOk(st: F.State, ticket: nat, fl: Flight) {
    var t := fl.to.scope;
    && ValidScope(t) && Owns(t.prefix, fl.to.key) && Grows([t], st.operator.scopes)
    && (fl.verb.Write? ==> GoodDraw(fl.verb.draw))
    && if fl.verb.Write? && !D.Refused(fl.to, fl.verb)
       then ticket in st.pending && st.pending[ticket] == F.Sealing(t, fl.to.key)
       else ticket !in st.pending
  }

  ghost predicate Flying(w: World) {
    && (forall ticket :: ticket in w.fleet.pending ==> ticket in w.flights)
    && (forall ticket :: ticket in w.flights ==> FlightOk(w.fleet, ticket, w.flights[ticket]))
  }

  ghost predicate Good(s: Suite, names: set<Bytes>, w: World) { Settled(s, names, w) && Flying(w) }

  /** The keyring may grow under requests in flight. */
  lemma FlyingOn(w: World, w': World)
    requires Flying(w) && w'.flights == w.flights && w'.fleet.pending == w.fleet.pending
    requires Grows(w.fleet.operator.scopes, w'.fleet.operator.scopes)
    ensures Flying(w')
  {
    hide Grows, ValidScope, D.Refused, Owns;
    forall ticket | ticket in w'.flights
      ensures FlightOk(w'.fleet, ticket, w'.flights[ticket])
    {
      assert FlightOk(w.fleet, ticket, w.flights[ticket]);
      GrowsTransitive([w.flights[ticket].to.scope], w.fleet.operator.scopes, w'.fleet.operator.scopes);
    }
  }

  /** One request leaves, however it ended. */
  lemma FlyingOff(w: World, ticket: nat, w': World)
    requires Flying(w) && w'.flights == w.flights - {ticket} && w'.fleet.pending == w.fleet.pending - {ticket}
    requires w'.fleet.operator == w.fleet.operator
    ensures Flying(w')
  {
    hide Grows, ValidScope, D.Refused, Owns;
    forall other | other in w'.flights
      ensures FlightOk(w'.fleet, other, w'.flights[other])
    {
      assert FlightOk(w.fleet, other, w.flights[other]);
    }
  }

  /** More on record, or a write no longer pending, unsettles nothing. */
  lemma SettledOn(s: Suite, names: set<Bytes>, w: World, w': World)
    requires Settled(s, names, w) && F.Safe(w'.fleet) && w'.fleet.operator == w.fleet.operator
    requires w.fleet.objects <= w'.fleet.objects && w'.bucket == w.bucket && w'.spaces == w.spaces
    ensures Settled(s, names, w')
  {
    hide F.Safe, Distinct, R.Rel, TokenPath, ParseHeader;
    forall n, key | n in w'.spaces && key in w'.spaces[n]
      ensures IsRecorded(s, w'.bucket, w'.fleet.objects, n, key)
    {
      assert IsRecorded(s, w.bucket, w.fleet.objects, n, key);
    }
  }

  /** What a write's end does to the record. */
  lemma Landing(st: F.State, ticket: nat, landed: bool)
    requires F.Safe(st)
    ensures
      var st' := F.Next(st, if landed then F.Land(ticket) else F.Drop(ticket));
      && F.Safe(st') && st'.operator == st.operator && st'.pending == st.pending - {ticket}
      && st.objects <= st'.objects && (landed && ticket in st.pending ==> st.pending[ticket] in st'.objects)
  {
    hide F.Safe;
    F.LandSafe(st, ticket);
  }

  /** The operator's scope, put on the key a request was given to write under, stands
      in for the request's own copy. */
  ghost predicate StandsIn(u: Scope, t: Scope) {
    && ValidScope(u) && ValidLists(t.keys)
    && u.name == t.name && u.prefix == t.prefix && u.keys.nameKeys[0].key == t.keys.nameKeys[0].key
    && u.keys.keks[0].id == t.keys.keks[0].id && u.keys.keks[0].key == t.keys.keks[0].key
    && forall id :: Lookup(t.keys.keks, id).Some? ==> Lookup(u.keys.keks, id) == Lookup(t.keys.keks, id)
  }

  function OwnKey(t: Scope): map<Text, KeyId>
    requires t.keys.keks != []
  {
    map[t.name := t.keys.keks[0].id]
  }

  lemma StandIn(k: Keyring, t: Scope) returns (u: Scope)
    requires ValidKeyring(k) && ValidScope(t) && Grows([t], k.scopes)
    ensures WithScopeActive(k, OwnKey(t)).Some? && u in WithScopeActive(k, OwnKey(t)).value.scopes
    ensures StandsIn(u, t)
  {
    hide WithScopeActive, Others, ValidScopeName, ValidScopePrefix, Overlap;
    NamedIsUnique([t], t.name);
    assert t in [t] && GrowsAt([t], k.scopes, t.name);
    var own := ScopeNamed(k.scopes, t.name).value;
    assert Lookup(t.keys.keks, t.keys.keks[0].id) == Some(t.keys.keks[0].key);
    ActivationSucceedsIff(k, OwnKey(t));
    NamedIsUnique(k.scopes, t.name);
    var i :| 0 <= i < |k.scopes| && k.scopes[i] == own;
    var next := WithScopeActive(k, OwnKey(t)).value;
    u := next.scopes[i];
    assert Kept(own, u, OwnKey(t)) && ValidScope(u);
    assert Lookup(u.keys.keks, u.keys.keks[0].id) == Some(u.keys.keks[0].key);
  }

  /** A request does the same over either set of keys, if it reads the same. */
  lemma CarriesAlike(s: Suite, to: Resolved, u: Scope, objects: Objects, verb: Verb, objects': Objects, a: Response)
    requires StandsIn(u, to.scope) && Carries(s, to, objects, verb, objects', a)
    requires verb.Read? ==> ReadObject(s, u.keys, objects, to.key) == ReadObject(s, to.scope.keys, objects, to.key)
    ensures Carries(s, to.(scope := u), objects, verb, objects', a)
    ensures D.Refused(to.(scope := u), verb) <==> D.Refused(to, verb)
  {
    hide TokenPath, ValidKey, Seal, Open, ValidEntries, ListsPrefix, FaultsOf;
  }

  /** Without the key it is wrapped under, an object that others open is reported as
      wrapped under an unknown one. */
  lemma UnknownIsSaid(s: Suite, a: seq<Entry>, b: seq<Entry>, key: Text, data: Bytes)
    requires Open(s, a, key, data).Ok? && ParseHeader(data).Ok? && Lookup(b, ParseHeader(data).value.id).None?
    ensures Open(s, b, key, data) == Err(UnknownKey)
  {
    hide ParseHeader, OpenBody;
  }

  /** What a request in flight reads: as the operator would, unless it is late. */
  lemma FlightReads(s: Suite, stores: map<Bytes, Lists>, w: World, fl: Flight)
    requires Ideal(s, stores.Keys) && R.Rel(s, stores, w.spaces, w.bucket)
    requires fl.verb.Read? && ValidLists(fl.to.scope.keys) && fl.to.scope.keys.nameKeys[0].key in stores
    requires
      var n := fl.to.scope.keys.nameKeys[0].key;
      && ValidLists(stores[n]) && stores[n].nameKeys[0].key == n
      && forall id :: Lookup(fl.to.scope.keys.keks, id).Some? ==>
           Lookup(stores[n].keks, id) == Lookup(fl.to.scope.keys.keks, id)
    ensures
      var n := fl.to.scope.keys.nameKeys[0].key;
      && n in w.spaces
      && if Late(s, w, fl)
         then ReadObject(s, fl.to.scope.keys, w.bucket, fl.to.key) == Err(UnknownKey) && fl.to.key in w.spaces[n]
         else ReadObject(s, stores[n], w.bucket, fl.to.key) == ReadObject(s, fl.to.scope.keys, w.bucket, fl.to.key)
  {
    hide TokenPath, ValidKey, Ideal, R.Rel, Open, ParseHeader, R.Named, ValidEntries, Lookup;
    var keys := fl.to.scope.keys;
    var n, key := keys.nameKeys[0].key, fl.to.key;
    R.TokensOf(s, stores);
    R.Found(s, stores, w.spaces, w.bucket, n, key);
    if ValidKey(key) && TokenPath(s, n, key) in w.bucket {
      var data := w.bucket[TokenPath(s, n, key)].data;
      R.OpenedLooksUp(s, stores[n].keks, key, data);
      if Late(s, w, fl) {
        UnknownIsSaid(s, stores[n].keks, keys.keks, key, data);
      } else {
        R.OpenByLookup(s, stores[n].keks, keys.keks, key, data);
      }
    }
  }

  // ---------------------------------------------------------------- admitting

  /** What a replica hands out, the operator's keyring has outgrown. */
  lemma HandedOut(v: V.VaultState, k: Keyring, r: Request)
    requires F.ReplicaOk(v, k) && Resolve(v, r).Ok?
    ensures
      var to := Resolve(v, r).value;
      && ValidScope(to.scope) && Owns(to.scope.prefix, to.key) && Grows([to.scope], k.scopes)
      && V.ScopeFor(v, to.key) == Ok(to.scope) && F.Usable(to.scope)
  {
    hide ValidEntries, Overlap, ScopeGrows, ScopeNamed, Owns;
    D.ResolvesToOwner(v, r);
    D.ResolvesByRouting(v, r);
    UsableKeys(v, r);
    var t := Resolve(v, r).value.scope;
    var n :| 0 <= n < |v.scopes| && v.scopes[n] == t;
    assert ValidScope(v.scopes[n]);
    NamedIsUnique(v.scopes, t.name);
    forall name | ScopeNamed([t], name).Some?
      ensures GrowsAt([t], k.scopes, name)
    {
      NamedIsUnique([t], name);
      assert GrowsAt(v.scopes, k.scopes, t.name);
    }
  }

  lemma Pending(st: F.State, ticket: nat, i: nat, to: Resolved, verb: Verb)
    requires F.Safe(st) && ticket !in st.pending && i < |st.replicas|
    requires V.ScopeFor(st.replicas[i], to.key) == Ok(to.scope) && F.Usable(to.scope)
    ensures
      var st' := Pended(st, ticket, i, to, verb);
      && F.Safe(st') && st'.operator == st.operator && st'.objects == st.objects
      && st'.pending == if verb.Write? && !D.Refused(to, verb) then st.pending[ticket := F.Sealing(to.scope, to.key)]
                        else st.pending
  {
    hide F.Safe, D.Refused, V.ScopeFor;
    F.AdmitSafe(st, ticket, i, to.key);
  }

  /** One request joins. */
  lemma FlyingUp(w: World, ticket: nat, fl: Flight, w': World)
    requires Flying(w) && ticket !in w.flights && w'.flights == w.flights[ticket := fl]
    requires w'.fleet.operator == w.fleet.operator && FlightOk(w'.fleet, ticket, fl)
    requires forall other :: other != ticket ==>
      (other in w'.fleet.pending <==> other in w.fleet.pending)
      && (other in w.fleet.pending ==> w'.fleet.pending[other] == w.fleet.pending[other])
    ensures Flying(w')
  {
    hide Grows, ValidScope, D.Refused, Owns;
    forall other | other in w'.flights
      ensures FlightOk(w'.fleet, other, w'.flights[other])
    {
      assert other != ticket ==> FlightOk(w.fleet, other, w.flights[other]);
    }
  }

  lemma AdmitStep(s: Suite, names: set<Bytes>, w: World, ticket: nat, i: nat, r: Request, w': World, a: Reply)
    requires Good(s, names, w) && Admits(w, ticket, i, r, w', a)
    ensures Good(s, names, w') && Answered(s, w, Admit(ticket, i, r), a)
  {
    hide Settled, Resolve, F.Safe, F.ReplicaOk, Grows, ValidScope, Pended, D.Refused, Owns, F.Usable, F.Sealing, Distinct,
         ValidKeyring, F.FactOk, F.ActiveKnown, F.OperatorReads, V.ScopeFor;
    SettledParts(s, names, w);
    if Resolve(w.fleet.replicas[i], r).Ok? {
      assert F.ReplicaOk(w.fleet.replicas[i], w.fleet.operator) by { F.SafeParts(w.fleet); }
      var to := Resolve(w.fleet.replicas[i], r).value;
      HandedOut(w.fleet.replicas[i], w.fleet.operator, r);
      Pending(w.fleet, ticket, i, to, r.verb);
      SettledOn(s, names, w, w');
      assert ticket !in w.fleet.pending;
      hide Flying;
      FlyingUp(w, ticket, Flight(r.verb, to), w');
    }
  }

  // ---------------------------------------------------------------- carrying out

  /** A refused request changes nothing. */
  lemma RefusedStep(s: Suite, names: set<Bytes>, w: World, ticket: nat, w': World, a: Response)
    requires Settled(s, names, w) && Carried(s, w, ticket, w', a)
    requires D.Refused(w.flights[ticket].to, w.flights[ticket].verb)
    ensures Settled(s, names, w') && !D.SaysAbsent(a) && !w.flights[ticket].verb.Read?
    ensures
      var fl := w.flights[ticket];
      && (D.TouchesSecret(fl.to, fl.verb) ==> a == Response.Failed([SecretsReadOnly]))
      && (!D.TouchesSecret(fl.to, fl.verb) && fl.to.scope.keys.nameKeys[0].key in w.spaces ==> D.AsMap(w.spaces, fl.to, fl.verb, a))
  {
    hide Settled, Carries, F.Safe, F.Next, RefusesSecret, ValidEntries;
    var fl := w.flights[ticket];
    D.RefusalIsNotAbsence(s, fl.to, w.bucket, fl.verb, w'.bucket, a);
    SettledParts(s, names, w);
    Landing(w.fleet, ticket, a == NoContent);
    SettledOn(s, names, w, w');
  }

  /** The space of a request in flight is one that is served. */
  lemma FlightSpace(s: Suite, names: set<Bytes>, w: World, t: Scope)
    requires Settled(s, names, w) && ValidScope(t) && Grows([t], w.fleet.operator.scopes)
    ensures t.keys.nameKeys[0].key in names && names == w.spaces.Keys
  {
    hide F.Safe, Linked, R.Rel, Overlap, ValidEntries, Distinct, ScopeNamed;
    SettledSpaces(s, names, w);
    F.SafeParts(w.fleet);
    var k := w.fleet.operator;
    NamedIsUnique([t], t.name);
    assert t in [t] && GrowsAt([t], k.scopes, t.name);
    NamedIsUnique(k.scopes, t.name);
    NameIsAmong(k.scopes, names, ScopeNamed(k.scopes, t.name).value);
  }

  /** The stores a request's keys stand for: the operator's, with its scope on the
      key the request writes under. */
  lemma StandInStores(s: Suite, names: set<Bytes>, w: World, st': F.State, t: Scope)
    returns (u: Scope, stores: map<Bytes, Lists>)
    requires Ideal(s, names) && Settled(s, names, w) && ValidScope(t) && Grows([t], w.fleet.operator.scopes)
    requires F.Safe(st') && st'.operator == w.fleet.operator
    ensures StandsIn(u, t) && stores.Keys == names && R.StoresOk(stores, w.spaces)
    ensures t.keys.nameKeys[0].key in names && stores[t.keys.nameKeys[0].key] == u.keys
    ensures R.Rel(s, stores, w.spaces, w.bucket)
    ensures forall o :: o in st'.objects ==> Opens(stores, o)
  {
    hide Ideal, F.Safe, WithScopeActive, Distinct, Opens, R.StoresOk, R.Rel, Linked, ValidEntries, HolderOf, Grows, Lookup;
    F.SafeParts(w.fleet);
    u := StandIn(w.fleet.operator, t);
    ChosenOpens(w.fleet, names, OwnKey(t));
    ChosenOpens(st', names, OwnKey(t));
    var k := WithScopeActive(w.fleet.operator, OwnKey(t)).value;
    stores := StoresOf(k.scopes, names);
    FlightSpace(s, names, w, t);
    OnlyHolder(k.scopes, names, u);
    OperatorStoresOk(s, names, k, w.spaces);
    OperatorOpensAll(w.fleet, names);
    RelByRecords(s, StoresOf(w.fleet.operator.scopes, names), stores, w.spaces, w.bucket, w.fleet.objects);
  }

  /** A late read is told that its key is unknown, and changes nothing. */
  lemma LateStep(s: Suite, names: set<Bytes>, w: World, ticket: nat, w': World, a: Response)
    requires Ideal(s, names) && Settled(s, names, w) && Flying(w) && Carried(s, w, ticket, w', a)
    requires Late(s, w, w.flights[ticket])
    ensures Settled(s, names, w') && a == Response.Failed([StoreFault(UnknownKey)])
    ensures !D.SaysAbsent(a) && !D.Lacks(w.spaces, w.flights[ticket].to)
  {
    hide Ideal, Settled, F.Safe, F.Next, R.Rel, R.StoresOk, Late, Opens, ReadObject, Grows, ValidEntries, ValidKey, Lookup,
         Owns, F.Sealing, Distinct;
    var fl := w.flights[ticket];
    assert fl.verb.Read? by { LateReads(s, w, fl); }
    assert FlightOk(w.fleet, ticket, fl);
    hide Flying, D.Refused;
    SettledParts(s, names, w);
    var u, stores := StandInStores(s, names, w, w.fleet, fl.to.scope);
    NameAt(stores, w.spaces, u.keys.nameKeys[0].key);
    FlightReads(s, stores, w, fl);
    Landing(w.fleet, ticket, a == NoContent);
    SettledOn(s, names, w, w');
    DestructiveAnswers(a.error);
  }

  lemma LateReads(s: Suite, w: World, fl: Flight)
    requires Late(s, w, fl)
    ensures fl.verb.Read?
  {
  }

  /** Any other request that may go ahead is an operation of a store that stands in
      for its own. */
  lemma OrdinaryStep(s: Suite, names: set<Bytes>, w: World, ticket: nat, w': World, a: Response)
    requires Ideal(s, names) && Settled(s, names, w) && Flying(w) && Carried(s, w, ticket, w', a)
    requires !D.Refused(w.flights[ticket].to, w.flights[ticket].verb) && !Late(s, w, w.flights[ticket])
    ensures Settled(s, names, w')
    ensures
      var to := w.flights[ticket].to;
      to.scope.keys.nameKeys[0].key in w.spaces && D.AsMap(w.spaces, to, w.flights[ticket].verb, a)
  {
    hide Ideal, Settled, F.Safe, F.Next, R.Rel, R.StoresOk, Late, Opens, ReadObject, Grows, ValidEntries, Carries, R.Performs,
         R.Answers, D.AsMap, D.Same, RefusesSecret, Owns, Lookup;
    var fl := w.flights[ticket];
    var to := fl.to;
    assert FlightOk(w.fleet, ticket, fl);
    SettledParts(s, names, w);
    Landing(w.fleet, ticket, a == NoContent);
    var u, stores := StandInStores(s, names, w, w'.fleet, to.scope);
    var n := to.scope.keys.nameKeys[0].key;
    SettledSpaces(s, names, w);
    NameAt(stores, w.spaces, n);
    if fl.verb.Read? { FlightReads(s, stores, w, fl); }
    CarriesAlike(s, to, u, w.bucket, fl.verb, w'.bucket, a);
    var standing := to.(scope := u);
    var answer := D.Performed(s, standing, w.bucket, fl.verb, w'.bucket, a);
    OpOfAlike(to, u, fl.verb, a, answer);
    Through(s, names, w, stores, D.OpOf(standing, fl.verb), answer, w');
    D.AnswerIsTheMaps(w.spaces, standing, fl.verb, answer, a);
    MapAlike(w.spaces, to, u, fl.verb, a);
  }

  lemma OpOfAlike(to: Resolved, u: Scope, verb: Verb, a: Response, answer: R.Answer)
    requires StandsIn(u, to.scope) && D.Same(a, answer, verb) && (verb.Write? ==> verb.body.Some? && GoodDraw(verb.draw))
    ensures
      var op := D.OpOf(to.(scope := u), verb);
      && op == D.OpOf(to, verb) && op.space == to.scope.keys.nameKeys[0].key && R.GoodOp(op)
      && (Wraps(op) <==> verb.Write?) && (Wraps(op) ==> op.key == to.key)
      && (answer == R.Done ==> a == NoContent)
  {
    hide ValidEntries, Lookup;
  }

  lemma MapAlike(spaces: R.Spaces, to: Resolved, u: Scope, verb: Verb, a: Response)
    requires StandsIn(u, to.scope) && to.scope.keys.nameKeys[0].key in spaces && D.AsMap(spaces, to.(scope := u), verb, a)
    ensures D.AsMap(spaces, to, verb, a)
  {
    hide ValidEntries, Lookup, R.StrictlySorted, ValidKey;
  }

  lemma CarryStep(s: Suite, names: set<Bytes>, w: World, ticket: nat, w': World, a: Response)
    requires Ideal(s, names) && Good(s, names, w) && Carried(s, w, ticket, w', a)
    ensures Good(s, names, w') && Answered(s, w, Carry(ticket), ToCaller(a))
  {
    hide Ideal, Settled, F.Safe, F.Next, Late, Grows, ValidEntries, Carries, D.AsMap, D.SaysAbsent, D.Lacks, D.TouchesSecret, ValidKey;
    var fl := w.flights[ticket];
    assert FlightOk(w.fleet, ticket, fl);
    SettledParts(s, names, w);
    Landing(w.fleet, ticket, a == NoContent);
    FlyingOff(w, ticket, w');
    FlightSpace(s, names, w, fl.to.scope);
    hide Flying;
    if D.Refused(fl.to, fl.verb) {
      RefusedStep(s, names, w, ticket, w', a);
      if Late(s, w, fl) { LateReads(s, w, fl); }
    } else if Late(s, w, fl) {
      LateStep(s, names, w, ticket, w', a);
    } else {
      OrdinaryStep(s, names, w, ticket, w', a);
      D.MapAbsence(w.spaces, fl.to, fl.verb, a);
    }
  }

  /** A request given up leaves what it had pending behind. */
  lemma GiveUpStep(s: Suite, names: set<Bytes>, w: World, ticket: nat, w': World)
    requires Good(s, names, w) && Moves(s, names, w, GiveUp(ticket), w', Nothing)
    ensures Good(s, names, w')
  {
    SettledParts(s, names, w);
    Landing(w.fleet, ticket, false);
    hide Settled, F.Safe, F.Next, Flying, Distinct;
    FlyingOff(w, ticket, w');
    SettledOn(s, names, w, w');
  }

  /** Every event gets the reply it should, and keeps fleet, bucket, maps and requests
      in flight in step. */
  lemma EventKeeps(s: Suite, names: set<Bytes>, w: World, e: Event, w': World, a: Reply)
    requires Ideal(s, names) && Good(s, names, w) && Moves(s, names, w, e, w', a)
    ensures Good(s, names, w') && Answered(s, w, e, a)
  {
    hide Ideal, Settled, Flying, Admits, Carried, Operates, F.Safe, Grows, F.Next;
    SettledParts(s, names, w);
    match e
    case Control(step) =>
      ControlStep(s, names, w, step, w');
      KeysOnlyStep(w.fleet, step);
      F.OperatorGrows(w.fleet, step);
      FlyingOn(w, w');
    case Admit(ticket, i, r) => AdmitStep(s, names, w, ticket, i, r, w', a);
    case Carry(ticket) => CarryStep(s, names, w, ticket, w', a.response);
    case GiveUp(ticket) => GiveUpStep(s, names, w, ticket, w');
    case Operate(active, op) =>
      OperateStep(s, names, w, active, op, w', a.answer);
      OperatesAlone(s, w, active, op, w', a.answer);
      FlyingOn(w, w');
  }

  /** The operator's machine leaves requests in flight alone. */
  lemma OperatesAlone(s: Suite, w: World, active: map<Text, KeyId>, op: R.Op, w': World, a: R.Answer)
    requires Operates(s, w, active, op, w', a) && F.Safe(w.fleet)
    ensures w'.flights == w.flights && w'.fleet.pending == w.fleet.pending
    ensures Grows(w.fleet.operator.scopes, w'.fleet.operator.scopes)
  {
    hide F.Safe, R.Performs, OperatorUses, F.OperatorScope, Grows, ValidEntries;
    F.SafeParts(w.fleet);
    F.PointwiseItself(w.fleet.operator);
  }

  /** A request is not late as long as some replica still holds the scope it was given. */
  lemma NotLateWhileHeld(s: Suite, names: set<Bytes>, w: World, fl: Flight, i: nat)
    requires Ideal(s, names) && Settled(s, names, w) && i < |w.fleet.replicas|
    requires fl.to.scope in w.fleet.replicas[i].scopes
    ensures !Late(s, w, fl)
  {
    hide Ideal, Settled, R.Rel, R.StoresOk, Opens, TokenPath, ValidKey, ParseHeader, Open, R.Named, ValidEntries, SeenBy;
    ReplicaServes(s, names, w, i);
    var stores := SeenBy(w.fleet.replicas[i].scopes, w.fleet.operator.scopes, names);
    if Late(s, w, fl) {
      var n := fl.to.scope.keys.nameKeys[0].key;
      R.TokensOf(s, stores);
      R.Found(s, stores, w.spaces, w.bucket, n, fl.to.key);
      R.OpenedLooksUp(s, stores[n].keks, fl.to.key, w.bucket[TokenPath(s, n, fl.to.key)].data);
    }
  }
}
