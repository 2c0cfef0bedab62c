/** The keyholder's seal state as a value, and what each call does to it. */
module VaultSpec {
  import opened Basics
  import opened ScopeNames
  import opened Keys
  import opened Identities

  /** A replica that restarted, one that serves, one a person has stopped. */
  datatype Phase = RestartSealed | Unsealed | OperatorHold

  datatype VaultState = VaultState(
    instance: Text,
    phase: Phase,
    since: int,
    holdReason: Text,
    generation: nat,
    scopes: seq<Scope>)

  datatype BundleValue = BundleValue(instance: Text, generation: nat, scopes: seq<Scope>)

  datatype Refusal =
    | NilBundle
    | InstanceMismatch
    | NotServing
    | AlreadyServing
    | Held
    | GenerationTooOld
    | InvalidScope

  datatype AccessError = Sealed | OutOfScope

  predicate AllValid(scopes: seq<Scope>) { forall i :: 0 <= i < |scopes| ==> ValidScope(scopes[i]) }

  /** The refusals that come before any key is looked at, in order. */
  function Refuses(v: VaultState, b: BundleValue, intent: Intent): Option<Refusal> {
    if b.instance != v.instance then Some(InstanceMismatch)
    else if intent == HandOver && v.phase != Unsealed then Some(NotServing)
    else if intent == RestartReseed && v.phase == Unsealed then Some(AlreadyServing)
    else if v.phase == OperatorHold && intent != OperatorUnseal then Some(Held)
    else if b.generation < v.generation then Some(GenerationTooOld)
    else None
  }

  /** Pushing the generation already served again. */
  predicate Repeats(v: VaultState, b: BundleValue) { v.phase == Unsealed && b.generation == v.generation }

  function Installed(v: VaultState, b: BundleValue, now: int): VaultState {
    VaultState(v.instance, Unsealed, now, [], b.generation, b.scopes)
  }

  function Unseal(v: VaultState, b: Option<BundleValue>, intent: Intent, now: int): (VaultState, Option<Refusal>) {
    match b
    case None => (v, Some(NilBundle))
    case Some(bundle) =>
      if Refuses(v, bundle, intent).Some? then (v, Refuses(v, bundle, intent))
      else if Repeats(v, bundle) then (v, None)
      else if !AllValid(bundle.scopes) then (v, Some(InvalidScope))
      else (Installed(v, bundle, now), None)
  }

  function Seal(v: VaultState, hold: bool, reason: Text, now: int): VaultState {
    VaultState(v.instance, if hold then OperatorHold else RestartSealed, now, if hold then reason else [],
               v.generation, [])
  }

  function ReleaseHold(v: VaultState, now: int): VaultState {
    if v.phase == OperatorHold then v.(phase := RestartSealed, holdReason := [], since := now) else v
  }

  function ScopeFor(v: VaultState, key: Text): Result<Scope, AccessError> {
    if v.phase != Unsealed then Err(Sealed)
    else match ScopeOwning(v.scopes, key)
    case None => Err(OutOfScope)
    case Some(s) => Ok(s)
  }

  /** A process that has just started: it holds nothing and remembers nothing. */
  function Started(instance: Text, now: int): VaultState {
    VaultState(instance, RestartSealed, now, [], 0, [])
  }

  function Ids(keks: seq<Entry>): seq<KeyId> { seq(|keks|, i requires 0 <= i < |keks| => keks[i].id) }

  /** What a replica reports it holds: per scope, every key id, active first. */
  function KeysReported(scopes: seq<Scope>): map<Text, seq<KeyId>> {
    if scopes == [] then map[]
    else KeysReported(scopes[..|scopes| - 1])[scopes[|scopes| - 1].name := Ids(scopes[|scopes| - 1].keys.keks)]
  }

  lemma {:induction false} ReportHasEach(scopes: seq<Scope>, i: nat)
    requires Separate(scopes) && i < |scopes|
    ensures scopes[i].name in KeysReported(scopes)
    ensures KeysReported(scopes)[scopes[i].name] == Ids(scopes[i].keys.keks)
  {
    hide Ids, Overlap;
    var last := |scopes| - 1;
    if i < last {
      var init := scopes[..last];
      assert init[i] == scopes[i] && scopes[i].name != scopes[last].name;
      ReportHasEach(init, i);
    }
  }

  lemma {:induction false} ReportHasOnly(scopes: seq<Scope>, name: Text)
    requires name in KeysReported(scopes)
    ensures exists i :: 0 <= i < |scopes| && scopes[i].name == name
  {
    hide Ids;
    var last := |scopes| - 1;
    if name == scopes[last].name {
    } else {
      ReportHasOnly(scopes[..last], name);
      var i :| 0 <= i < last && scopes[..last][i].name == name;
      assert scopes[i].name == name;
    }
  }

  /** A report names exactly the scopes held, and gives for each exactly the ids its
      keys resolve by, the active one first. */
  lemma ReportTells(scopes: seq<Scope>, name: Text)
    requires Separate(scopes)
    ensures match ScopeNamed(scopes, name)
            case None => name !in KeysReported(scopes)
            case Some(s) =>
              && name in KeysReported(scopes)
              && (forall id :: id in KeysReported(scopes)[name] <==> Lookup(s.keys.keks, id).Some?)
              && |KeysReported(scopes)[name]| == |s.keys.keks|
              && (s.keys.keks != [] ==> KeysReported(scopes)[name][0] == s.keys.keks[0].id)
  {
    hide KeysReported, Overlap;
    NamedIsUnique(scopes, name);
    if name in KeysReported(scopes) { ReportHasOnly(scopes, name); }
    match ScopeNamed(scopes, name)
    case None => NobodyNamed(scopes, name);
    case Some(s) =>
      var i :| 0 <= i < |scopes| && scopes[i] == s;
      ReportHasEach(scopes, i);
      forall id
        ensures id in Ids(s.keys.keks) <==> Lookup(s.keys.keks, id).Some?
      {
        assert forall n :: 0 <= n < |s.keys.keks| ==> Ids(s.keys.keks)[n] == s.keys.keks[n].id;
      }
  }

  lemma {:induction false} NobodyNamed(scopes: seq<Scope>, name: Text)
    requires ScopeNamed(scopes, name).None?
    ensures forall i :: 0 <= i < |scopes| ==> scopes[i].name != name
  {
    if scopes != [] {
      NobodyNamed(scopes[1..], name);
      assert forall i :: 1 <= i < |scopes| ==> scopes[i] == scopes[1..][i - 1];
    }
  }
}
