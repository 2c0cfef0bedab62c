/** A fleet over one bucket of bytes, over whole runs: every answer of every replica,
    through every rotation, import, push, re-seed, seal and restart, is the one plain
    maps would give. */
module FleetStore {
  import opened Basics
  import opened Examples
  import opened Paths
  import opened ScopeNames
  import opened Keys
  import opened Crypto
  import opened Blobs
  import opened Stores
  import opened Wire
  import opened DataPath
  import opened FleetSpaces
  import opened FleetWorld
  import opened FleetSteps
  import opened Growth
  import opened Rotations
  import D = DataSafety
  import F = Fleet
  import R = StoreRefines
  import V = VaultSpec

  // ---------------------------------------------------------------- whole runs

  /** What happened, how it was answered, and the world after it. */
  datatype Turn = Turn(event: Event, reply: Reply, world: World)

  function End(start: World, run: seq<Turn>): World { if run == [] then start else run[|run| - 1].world }

  ghost predicate IsRun(s: Suite, names: set<Bytes>, start: World, run: seq<Turn>) {
    forall i :: 0 <= i < |run| ==> Moves(s, names, End(start, run[..i]), run[i].event, run[i].world, run[i].reply)
  }

  /** A fleet just deployed over an empty bucket. */
  ghost predicate Begins(names: set<Bytes>, w: World) {
    && F.Deployed(w.fleet) && Distinct(w.fleet.operator.scopes, names)
    && w.bucket == map[] && w.spaces == (map n | n in names :: map[]) && w.flights == map[]
  }

  lemma BeginsGood(s: Suite, names: set<Bytes>, w: World)
    requires Ideal(s, names) && Begins(names, w)
    ensures Good(s, names, w)
  {
    hide Ideal, Distinct, R.StoresOk, StoresOf;
    assert F.Safe(w.fleet);
    OperatorStoresOk(s, names, w.fleet.operator, w.spaces);
  }

  lemma {:induction false} RunKeeps(s: Suite, names: set<Bytes>, start: World, run: seq<Turn>)
    requires Ideal(s, names) && Begins(names, start) && IsRun(s, names, start, run)
    ensures Good(s, names, End(start, run))
    ensures forall i :: 0 <= i < |run| ==> Answered(s, End(start, run[..i]), run[i].event, run[i].reply)
    decreases |run|
  {
    hide Ideal, Good, Moves, Answered, Begins;
    if run == [] {
      BeginsGood(s, names, start);
    } else {
      var last := |run| - 1;
      var init := run[..last];
      forall i | 0 <= i < last
        ensures init[i] == run[i] && init[..i] == run[..i]
      {
      }
      RunKeeps(s, names, start, init);
      EventKeeps(s, names, End(start, init), run[last].event, run[last].world, run[last].reply);
    }
  }

  /** From deployment, through every scope added, rotation, import, poll, push and
      re-seed under the discipline, seal, hold and restart, with requests admitted by
      any replica and carried out at any later time, and work by the operator's machine
      in between, every reply is the one plain maps would give; but a read that a
      rotation overtook is told that its key is unknown. */
  lemma FleetAnswersAsMaps(s: Suite, names: set<Bytes>, start: World, run: seq<Turn>, i: nat)
    requires Ideal(s, names) && Begins(names, start) && IsRun(s, names, start, run) && i < |run|
    ensures Answered(s, End(start, run[..i]), run[i].event, run[i].reply)
  {
    hide Ideal, Answered, Begins, IsRun, Good;
    RunKeeps(s, names, start, run);
  }

  /** A request is overtaken only once no replica holds the scope it was given. */
  lemma OnTimeWhileHeld(s: Suite, names: set<Bytes>, start: World, run: seq<Turn>, ticket: nat, i: nat)
    requires Ideal(s, names) && Begins(names, start) && IsRun(s, names, start, run)
    requires ticket in End(start, run).flights && i < |End(start, run).fleet.replicas|
    requires End(start, run).flights[ticket].to.scope in End(start, run).fleet.replicas[i].scopes
    ensures !Late(s, End(start, run), End(start, run).flights[ticket])
  {
    hide Ideal, Begins, IsRun, Settled, Flying, Late, Answered;
    RunKeeps(s, names, start, run);
    NotLateWhileHeld(s, names, End(start, run), End(start, run).flights[ticket], i);
  }

  /** And at the end of it, whichever replica holds the owning scope reads, under its
      own keys, exactly what was last written. */
  lemma FleetReadsWhatItWrote(s: Suite, names: set<Bytes>, start: World, run: seq<Turn>, i: nat, key: Text)
    requires Ideal(s, names) && Begins(names, start) && IsRun(s, names, start, run)
    requires i < |End(start, run).fleet.replicas| && ValidKey(key)
    requires ScopeOwning(End(start, run).fleet.replicas[i].scopes, key).Some?
    ensures
      var w := End(start, run);
      var t := ScopeOwning(w.fleet.replicas[i].scopes, key).value;
      && ValidLists(t.keys) && t.keys.nameKeys[0].key in w.spaces
      && var space := w.spaces[t.keys.nameKeys[0].key];
      ReadObject(s, t.keys, w.bucket, key) == if key in space then Ok(space[key]) else Err(NotFound)
  {
    hide Ideal, Begins, IsRun, Settled, Flying, ValidKey, R.Rel, Answered, Opens, R.StoresOk, D.Serves, R.StrictlySorted, ReadObject, F.Safe;
    RunKeeps(s, names, start, run);
    var w := End(start, run);
    var v := w.fleet.replicas[i];
    ReplicaServes(s, names, w, i);
    var stores := SeenBy(v.scopes, w.fleet.operator.scopes, names);
    var t := ScopeOwning(v.scopes, key).value;
    ServesOwner(s, stores, w.spaces, v, key);
    var op := R.Read(t.keys.nameKeys[0].key, key);
    var r := ReadObject(s, t.keys, w.bucket, key);
    R.StepRefines(s, stores, w.spaces, w.bucket, op, w.bucket, if r.Ok? then R.Value(r.value) else R.Failed(r.error));
  }

  lemma ServesOwner(s: Suite, stores: map<Bytes, Lists>, spaces: R.Spaces, v: V.VaultState, key: Text)
    requires D.Serves(s, stores, v) && R.StoresOk(stores, spaces) && ScopeOwning(v.scopes, key).Some?
    ensures
      var keys := ScopeOwning(v.scopes, key).value.keys;
      ValidLists(keys) && keys.nameKeys[0].key in stores && stores[keys.nameKeys[0].key] == keys
      && keys.nameKeys[0].key in spaces
  {
    hide Ideal, ValidEntries, ScopeOwning, Overlap;
    OwnerIsUnique(v.scopes, key);
    UsableIn(v.scopes, ScopeOwning(v.scopes, key).value);
  }

  // ---------------------------------------------------------------- there are such runs

  predicate AsksForList(w: World, e: Event) {
    match e
    case Carry(ticket) => ticket in w.flights && w.flights[ticket].verb.List?
    case Operate(_, op) => op.ListKeys?
    case _ => false
  }

  /** What can be asked for in this world, but for listings, whose answer is a
      method's to find. */
  ghost predicate CanAsk(names: set<Bytes>, w: World, e: Event) {
    match e
    case Control(step) =>
      KeysOnly(step) && (step.AddScope? || step.Import? ==> Distinct(F.Next(w.fleet, step).operator.scopes, names))
    case Admit(ticket, i, r) =>
      ticket !in w.flights && i < |w.fleet.replicas| && (r.verb.Write? ==> GoodDraw(r.verb.draw))
    case Carry(ticket) => ticket in w.flights && ValidLists(w.flights[ticket].to.scope.keys)
    case GiveUp(_) => true
    case Operate(active, op) =>
      && R.GoodOp(op) && OperatorUses(w.fleet, active, op).Some?
      && ValidLists(OperatorUses(w.fleet, active, op).value.keys)
      && op.space == OperatorUses(w.fleet, active, op).value.keys.nameKeys[0].key
  }

  /** What the operator's machine can work under, with a choice of active keys: the scope
      that owns the key, if there is one; and to write or rewrap there, one whose active
      key is known to be lacking nowhere. */
  lemma OperatorMayIff(st: F.State, active: map<Text, KeyId>, op: R.Op, t: Scope)
    requires F.Safe(st)
    ensures OperatorUses(st, active, op) == Some(t) <==>
      && WithScopeActive(st.operator, active).Some?
      && t in WithScopeActive(st.operator, active).value.scopes
      && t.prefix <= (if op.ListKeys? then op.prefix else op.key)
      && (op.Write? || op.Rewrap? ==> t.keys.keks != [] && F.KnownEverywhere(st, t.name, t.keys.keks[0].id))
  {
    hide F.Safe, WithScopeActive, ValidScope, Overlap, F.KnownEverywhere;
    F.SafeParts(st);
    if WithScopeActive(st.operator, active).Some? {
      ActivationGrowsBothWays(st.operator, active);
      var k := WithScopeActive(st.operator, active).value;
      OwnerIsUnique(k.scopes, OpKey(op));
      forall s | s in k.scopes
        ensures F.Usable(s)
      {
        var i :| 0 <= i < |k.scopes| && k.scopes[i] == s;
        UsableIn(k.scopes, s);
      }
    }
  }

  /** Whatever can be asked for happens, and is answered. */
  lemma NothingBlocks(s: Suite, names: set<Bytes>, w: World, e: Event) returns (w': World, a: Reply)
    requires CanAsk(names, w, e) && !AsksForList(w, e)
    ensures Moves(s, names, w, e, w', a)
  {
    hide Resolve, OperatorUses, F.Next, Pended, Asked, Applied, Distinct, ValidEntries, Carries, R.Performs;
    match e
    case Control(step) => w', a := w.(fleet := F.Next(w.fleet, step)), Nothing;
    case Admit(ticket, i, r) =>
      match Resolve(w.fleet.replicas[i], r) {
        case Err(f) => w', a := w, ToCaller(Response.Failed([f]));
        case Ok(to) =>
          a := Nothing;
          w' := w.(fleet := Pended(w.fleet, ticket, i, to, r.verb), flights := w.flights[ticket := Flight(r.verb, to)]);
      }
    case Carry(ticket) =>
      var fl := w.flights[ticket];
      var objects, response := RequestIsCarried(s, fl.to, w.bucket, fl.verb);
      w' := World(F.Next(w.fleet, if response == NoContent then F.Land(ticket) else F.Drop(ticket)), objects,
                  Asked(w.spaces, fl.to, fl.verb), w.flights - {ticket});
      a := ToCaller(response);
    case GiveUp(ticket) =>
      w', a := w.(fleet := F.Next(w.fleet, F.Drop(ticket)), flights := w.flights - {ticket}), Nothing;
    case Operate(active, op) =>
      var objects, answer := OpIsPerformed(s, OperatorUses(w.fleet, active, op).value.keys, w.bucket, op);
      w' := World(if Wraps(op) && answer == R.Done then F.Next(w.fleet, F.OperatorWrite(op.key, active)) else w.fleet,
                  objects, Applied(w.spaces, op), w.flights);
      a := ToOperator(answer);
  }

  lemma RequestIsCarried(s: Suite, to: Resolved, objects: Objects, verb: Verb) returns (objects': Objects, a: Response)
    requires ValidLists(to.scope.keys) && !verb.List?
    ensures Carries(s, to, objects, verb, objects', a)
  {
    hide ValidEntries, Open, Seal;
    objects' := objects;
    if verb.Write? || verb.Delete? { D.RefusesThese(to, verb); }
    hide RefusesSecret;
    if D.Refused(to, verb) {
      return objects, Failed([if D.TouchesSecret(to, verb) then SecretsReadOnly else TooLargeFault]);
    }
    match verb
    case Read =>
      a := match ReadObject(s, to.scope.keys, objects, to.key)
           case Err(f) => Failed([StoreFault(f)])
           case Ok(data) => Body(data);
    case Write(body, d) =>
      var (o, failed) := WriteObject(s, to.scope.keys, objects, to.key, body.value, d);
      objects', a := o, if failed.Some? then Failed([StoreFault(failed.value)]) else NoContent;
    case Delete =>
      var (o, failed) := DeleteObject(s, to.scope.keys, objects, to.key);
      objects', a := o, if failed.Some? then Failed([StoreFault(failed.value)]) else NoContent;
  }

  lemma OpIsPerformed(s: Suite, keys: Lists, objects: Objects, op: R.Op) returns (objects': Objects, a: R.Answer)
    requires ValidLists(keys) && !op.ListKeys?
    ensures R.Performs(s, keys, objects, op, objects', a)
  {
    hide ReadObject, WriteObject, DeleteObject, RekeyObject, ValidLists;
    match op
    case Write(_, key, data, d) =>
      var (o, failed) := WriteObject(s, keys, objects, key, data, d);
      objects', a := o, if failed.Some? then R.Failed(failed.value) else R.Done;
    case Delete(_, key) =>
      var (o, failed) := DeleteObject(s, keys, objects, key);
      objects', a := o, if failed.Some? then R.Failed(failed.value) else R.Done;
    case Read(_, key) =>
      var r := ReadObject(s, keys, objects, key);
      objects', a := objects, if r.Ok? then R.Value(r.value) else R.Failed(r.error);
    case Rewrap(_, key, nonce) =>
      var (o, r) := RekeyObject(s, keys, objects, key, nonce);
      objects', a := o, if r.Ok? then R.Done else R.Failed(r.error);
  }

  /** A deployment to begin with, and cryptography to run it on. */
  lemma DeploymentIsPossible(instance: Text, replicas: nat)
    ensures
      var a, b, kek := ExampleEntry(1), ExampleEntry(2), ExampleEntry(3);
      var names := {a.key, b.key};
      var fleet := F.State(ExampleKeyring([a], [kek]), seq(replicas, _ => V.Started(instance, 0)), {}, map[], {});
      Ideal(ToySuite(), names) && Begins(names, World(fleet, map[], map n | n in names :: map[], map[]))
  {
    hide Ideal;
    ExampleIsValid([ExampleEntry(1)], [ExampleEntry(3)]);
    IdealIsPossible(ExampleEntry(1).key, ExampleEntry(2).key);
  }
}
