/** A fleet of keyholder replicas fed from one operator keyring. A key comes into
    use on a replica only after every replica is known to hold it, so whatever one
    replica writes every other can read, through restarts, seals and rotations. */
module Fleet {
  import opened Basics
  import opened Examples
  import opened ScopeNames
  import opened Keys
  import opened Keyrings
  import opened Merging
  import opened Rotations
  import opened MergeLaws
  import opened Growth
  import opened Identities
  import V = VaultSpec

  /** An object at rest: where it was put and what its data key is wrapped under. */
  datatype Stored = Stored(key: Text, scope: Text, nameKey: Bytes, kekId: KeyId, kek: Bytes)

  /** A replica was seen not to be without a key: sealed, or not holding the scope,
      or listing the key among those it reports. */
  datatype Fact = Fact(replica: nat, scope: Text, id: KeyId)

  datatype State = State(
    operator: Keyring,
    replicas: seq<V.VaultState>,
    objects: set<Stored>,
    pending: map<nat, Stored>,
    known: set<Fact>)

  datatype Step =
    | AddScope(scope: Scope)
    | Rotate(minted: seq<Entry>)
    | Import(other: Keyring)
    | Poll(replica: nat, name: Text, id: KeyId)
    | Push(replica: nat, active: map<Text, KeyId>, intent: Intent, generation: nat, now: int)
    | Reseed(replica: nat, bundle: V.BundleValue, now: int)
    | Admit(ticket: nat, replica: nat, key: Text)
    | Land(ticket: nat)
    | Drop(ticket: nat)
    | OperatorWrite(key: Text, active: map<Text, KeyId>)
    | Rekey(object: Stored, active: map<Text, KeyId>)
    | Restart(replica: nat, now: int)
    | Seal(replica: nat, hold: bool, reason: Text, now: int)
    | ReleaseHold(replica: nat, now: int)

  function HoldsKey(scopes: seq<Scope>, name: Text, id: KeyId): bool {
    match ScopeNamed(scopes, name)
    case None => false
    case Some(s) => Lookup(s.keys.keks, id).Some?
  }

  /** What a poll of a replica shows: sealed, or reporting no such scope, or
      reporting the key among those the scope holds. */
  predicate NotWithout(v: V.VaultState, name: Text, id: KeyId) {
    v.phase != V.Unsealed || name !in V.KeysReported(v.scopes) || id in V.KeysReported(v.scopes)[name]
  }

  /** A report is to be believed: what it shows is what the replica can unwrap. */
  lemma ReportShows(v: V.VaultState, name: Text, id: KeyId)
    requires Separate(v.scopes)
    ensures NotWithout(v, name, id)
      <==> v.phase != V.Unsealed || ScopeNamed(v.scopes, name).None? || HoldsKey(v.scopes, name, id)
  {
    hide V.KeysReported;
    V.ReportTells(v.scopes, name);
  }

  predicate KnownEverywhere(st: State, name: Text, id: KeyId) {
    forall j :: 0 <= j < |st.replicas| ==> Fact(j, name, id) in st.known
  }

  predicate KnownElsewhere(st: State, i: nat, name: Text, id: KeyId) {
    forall j :: 0 <= j < |st.replicas| && j != i ==> Fact(j, name, id) in st.known
  }

  /** The discipline of a push: no scope in it is active on a key that another
      replica might lack. */
  predicate Cleared(st: State, i: nat, scopes: seq<Scope>) {
    forall n :: 0 <= n < |scopes| && scopes[n].keys.keks != [] ==>
      KnownElsewhere(st, i, scopes[n].name, scopes[n].keys.keks[0].id)
  }

  function Reported(i: nat, report: map<Text, seq<KeyId>>): set<Fact> {
    set name, n | name in report && 0 <= n < |report[name]| :: Fact(i, name, report[name][n])
  }

  /** Every object at rest, and every one a write in flight may still put there. */
  function Promised(st: State): set<Stored> { st.objects + st.pending.Values }

  /** What is no longer so of a replica that came back with other keys. */
  function Forgotten(known: set<Fact>, i: nat, report: map<Text, seq<KeyId>>): set<Fact> {
    set f | f in known && f.replica == i && f.scope in report && f.id !in report[f.scope]
  }

  /** The report of a replica holding these scopes lists every key, of a scope it
      has, that something promised is wrapped under or another replica writes under. */
  predicate Covers(st: State, i: nat, scopes: seq<Scope>) {
    var report := V.KeysReported(scopes);
    && (forall o :: o in Promised(st) && o.scope in report ==> o.kekId in report[o.scope])
    && (forall j, s :: 0 <= j < |st.replicas| && j != i && s in st.replicas[j].scopes ==>
          (s.keys.keks != [] && s.name in report ==> s.keys.keks[0].id in report[s.name]))
  }

  /** Nobody can hold a scope that was minted a moment ago. */
  function Unheard(replicas: nat, s: Scope): set<Fact> {
    set j, m | 0 <= j < replicas && 0 <= m < |s.keys.keks| :: Fact(j, s.name, s.keys.keks[m].id)
  }

  function Sealing(s: Scope, key: Text): Stored
    requires s.keys.nameKeys != [] && s.keys.keks != []
  {
    Stored(key, s.name, s.keys.nameKeys[0].key, s.keys.keks[0].id, s.keys.keks[0].key)
  }

  predicate Usable(s: Scope) { s.keys.nameKeys != [] && s.keys.keks != [] }

  /** The scope the operator's own machine writes a key under, with each named scope
      put on a key of its choice: the key it was using before, while a rotated one is
      only held. It writes only under a key every replica is known to hold. */
  function OperatorScope(st: State, key: Text, active: map<Text, KeyId>): (r: Option<Scope>)
    ensures r.Some? ==> Usable(r.value) && KnownEverywhere(st, r.value.name, r.value.keys.keks[0].id)
  {
    match WithScopeActive(st.operator, active)
    case None => None
    case Some(k) =>
      match ScopeOwning(k.scopes, key)
      case None => None
      case Some(s) => if Usable(s) && KnownEverywhere(st, s.name, s.keys.keks[0].id) then Some(s) else None
  }

  ghost function Next(st: State, step: Step): State {
    match step
    case AddScope(s) =>
      (match Keyrings.AddScope(st.operator, s)
       case None => st
       case Some(k) => st.(operator := k, known := st.known + Unheard(|st.replicas|, s)))
    case Rotate(minted) =>
      if |minted| != |st.operator.scopes| || Rotations.Rotate(st.operator, minted).None? then st
      else st.(operator := Rotations.Rotate(st.operator, minted).value)
    case Import(other) =>
      if !ValidKeyring(other) || Merge(st.operator, other).None? then st
      else st.(operator := Merge(st.operator, other).value)
    case Poll(i, name, id) =>
      if i < |st.replicas| && HoldsKey(st.operator.scopes, name, id) && NotWithout(st.replicas[i], name, id)
      then st.(known := st.known + {Fact(i, name, id)}) else st
    case Push(i, active, intent, generation, now) => PushStep(st, i, active, intent, generation, now)
    case Reseed(i, b, now) => ReseedStep(st, i, b, now)
    case Admit(ticket, i, key) =>
      if ticket in st.pending || i >= |st.replicas| then st
      else (match V.ScopeFor(st.replicas[i], key)
            case Err(_) => st
            case Ok(s) => if Usable(s) then st.(pending := st.pending[ticket := Sealing(s, key)]) else st)
    case Land(ticket) =>
      if ticket !in st.pending then st
      else st.(objects := st.objects + {st.pending[ticket]}, pending := st.pending - {ticket})
    case Drop(ticket) => st.(pending := st.pending - {ticket})
    case OperatorWrite(key, active) =>
      (match OperatorScope(st, key, active)
       case None => st
       case Some(s) => st.(objects := st.objects + {Sealing(s, key)}))
    case Rekey(o, active) =>
      if o !in st.objects then st
      else (match OperatorScope(st, o.key, active)
            case None => st
            case Some(s) =>
              st.(objects := st.objects - {o} + {o.(kekId := s.keys.keks[0].id, kek := s.keys.keks[0].key)}))
    case Restart(i, now) =>
      if i >= |st.replicas| then st
      else st.(replicas := st.replicas[i := V.Started(st.replicas[i].instance, now)])
    case Seal(i, hold, reason, now) =>
      if i >= |st.replicas| then st
      else st.(replicas := st.replicas[i := V.Seal(st.replicas[i], hold, reason, now)])
    case ReleaseHold(i, now) =>
      if i >= |st.replicas| then st
      else st.(replicas := st.replicas[i := V.ReleaseHold(st.replicas[i], now)])
  }

  /** Proof, not a status: a push was taken if the replica then reports exactly the
      keys it was sent. */
  predicate TookIt(v: V.VaultState, scopes: seq<Scope>) {
    v.phase == V.Unsealed && V.KeysReported(v.scopes) == V.KeysReported(scopes)
  }

  /** A push from the operator keyring, with each named scope put on a key of the
      pusher's choice. A replica that takes it says what it then holds. */
  function PushStep(st: State, i: nat, active: map<Text, KeyId>, intent: Intent, generation: nat, now: int): State {
    if i >= |st.replicas| then st
    else match WithScopeActive(st.operator, active)
    case None => st
    case Some(k) =>
      if !Cleared(st, i, k.scopes) then st
      else
        var b := V.BundleValue(st.replicas[i].instance, generation, k.scopes);
        var v := V.Unseal(st.replicas[i], Some(b), intent, now).0;
        st.(replicas := st.replicas[i := v],
            known := st.known + if TookIt(v, k.scopes) then Reported(i, V.KeysReported(v.scopes)) else {})
  }

  /** A replica after a keeper's push was taken, and what is then known of it. */
  function Reseeded(st: State, i: nat, b: V.BundleValue, now: int): State
    requires i < |st.replicas|
  {
    var v := V.Unseal(st.replicas[i], Some(b), RestartReseed, now).0;
    var report := V.KeysReported(b.scopes);
    st.(replicas := st.replicas[i := v],
        known := st.known - Forgotten(st.known, i, report) + Reported(i, report))
  }

  /** A keeper's push to a replica that came back sealed, of any bundle whose keys
      the operator's keyring still has, however old: nothing in it is active that
      another replica might lack, and it lacks nothing in use. */
  ghost function ReseedStep(st: State, i: nat, b: V.BundleValue, now: int): State {
    if i >= |st.replicas| || !ValidScopes(b.scopes) || !Grows(b.scopes, st.operator.scopes) then st
    else if V.Unseal(st.replicas[i], Some(b), RestartReseed, now).1.Some? then st
    else if Cleared(st, i, b.scopes) && Covers(st, i, b.scopes) then Reseeded(st, i, b, now)
    else st
  }

  ghost function After(st: State, run: seq<Step>): State {
    if run == [] then st else Next(After(st, run[..|run| - 1]), run[|run| - 1])
  }

  // ---------------------------------------------------------------- what is read

  /** Any of these scopes that owns the object's key finds it and unwraps it. */
  predicate Reads(scopes: seq<Scope>, o: Stored) {
    match ScopeOwning(scopes, o.key)
    case None => true
    case Some(s) =>
      s.keys.nameKeys != [] && s.keys.nameKeys[0].key == o.nameKey && Lookup(s.keys.keks, o.kekId) == Some(o.kek)
  }

  ghost predicate AllReadable(st: State) {
    forall o, j :: o in st.objects && 0 <= j < |st.replicas| ==> Reads(st.replicas[j].scopes, o)
  }

  // ---------------------------------------------------------------- the invariant

  /** The operator's own keyring opens every object. */
  ghost predicate OperatorReads(k: Keyring, o: Stored) {
    match ScopeOwning(k.scopes, o.key)
    case None => false
    case Some(s) => s.name == o.scope && Reads(k.scopes, o)
  }

  /** A replica holds nothing unless it serves, and only what the operator holds. */
  ghost predicate ReplicaOk(v: V.VaultState, k: Keyring) {
    (v.phase != V.Unsealed ==> v.scopes == []) && ValidScopes(v.scopes) && Grows(v.scopes, k.scopes)
  }

  ghost predicate FactOk(st: State, f: Fact) {
    HoldsKey(st.operator.scopes, f.scope, f.id)
    && (f.replica < |st.replicas| ==> NotWithout(st.replicas[f.replica], f.scope, f.id))
  }

  /** What a replica writes under, every replica is known to hold. */
  ghost predicate ActiveKnown(st: State, i: nat)
    requires i < |st.replicas|
  {
    forall s :: s in st.replicas[i].scopes && s.keys.keks != [] ==> KnownEverywhere(st, s.name, s.keys.keks[0].id)
  }

  ghost predicate Safe(st: State) {
    && ValidKeyring(st.operator)
    && (forall i :: 0 <= i < |st.replicas| ==> ReplicaOk(st.replicas[i], st.operator) && ActiveKnown(st, i))
    && (forall f :: f in st.known ==> FactOk(st, f))
    && (forall o :: o in Promised(st) ==> OperatorReads(st.operator, o) && KnownEverywhere(st, o.scope, o.kekId))
  }

  /** In a safe state every serving replica reads every object of its scopes. */
  lemma SafeReads(st: State)
    requires Safe(st)
    ensures AllReadable(st)
  {
    hide ScopeOwning, ScopeNamed, Lookup, ValidScope, Overlap;
    forall o, j | o in st.objects && 0 <= j < |st.replicas|
      ensures Reads(st.replicas[j].scopes, o)
    {
      var scopes := st.replicas[j].scopes;
      assert OperatorReads(st.operator, o) && ReplicaOk(st.replicas[j], st.operator);
      assert Fact(j, o.scope, o.kekId) in st.known;
      assert FactOk(st, Fact(j, o.scope, o.kekId));
      if ScopeOwning(scopes, o.key).Some? {
        var s := ScopeOwning(scopes, o.key).value;
        GrowthKeepsReading(scopes, st.operator.scopes, o.key);
        OwnerIsUnique(scopes, o.key);
        NamedIsUnique(scopes, s.name);
        ReportShows(st.replicas[j], o.scope, o.kekId);
      }
    }
  }

  // ---------------------------------------------------------------- what keeps it

  lemma KeyringGrows(st: State, k: Keyring)
    requires Safe(st) && ValidKeyring(k) && Grows(st.operator.scopes, k.scopes)
    ensures Safe(st.(operator := k))
  {
    hide ScopeOwning, ScopeNamed, Lookup, ValidScope, Overlap;
    forall i | 0 <= i < |st.replicas|
      ensures ReplicaOk(st.replicas[i], k)
    {
      GrowsTransitive(st.replicas[i].scopes, st.operator.scopes, k.scopes);
    }
    var next := st.(operator := k);
    assert forall i :: 0 <= i < |st.replicas| ==> ActiveKnown(st, i) ==> ActiveKnown(next, i);
    forall f | f in st.known
      ensures FactOk(next, f)
    {
      assert FactOk(st, f);
      assert GrowsAt(st.operator.scopes, k.scopes, f.scope);
    }
    forall o | o in Promised(st)
      ensures OperatorReads(k, o) && KnownEverywhere(next, o.scope, o.kekId)
    {
      assert OperatorReads(st.operator, o) && KnownEverywhere(st, o.scope, o.kekId);
      GrowthKeepsReading(st.operator.scopes, k.scopes, o.key);
    }
  }

  lemma MoreIsKnown(st: State, facts: set<Fact>)
    requires Safe(st) && forall f :: f in facts ==> FactOk(st, f)
    ensures Safe(st.(known := st.known + facts))
  {
    hide ReplicaOk, OperatorReads, HoldsKey, NotWithout;
    var next := st.(known := st.known + facts);
    forall i | 0 <= i < |st.replicas|
      ensures ActiveKnown(next, i)
    {
      assert ActiveKnown(st, i);
    }
    assert forall f :: FactOk(st, f) ==> FactOk(next, f);
    assert forall name, id :: KnownEverywhere(st, name, id) ==> KnownEverywhere(next, name, id);
  }

  /** One replica changes, together with what is known of it. */
  lemma ReplicaChanges(st: State, i: nat, v: V.VaultState, facts: set<Fact>)
    requires Safe(st) && i < |st.replicas| && ReplicaOk(v, st.operator)
    requires forall f :: f in st.known && f.replica == i ==> NotWithout(v, f.scope, f.id)
    requires forall f :: f in facts ==>
      f.replica == i && HoldsKey(st.operator.scopes, f.scope, f.id) && NotWithout(v, f.scope, f.id)
    requires forall s :: s in v.scopes && s.keys.keks != [] ==>
      forall j :: 0 <= j < |st.replicas| ==> Fact(j, s.name, s.keys.keks[0].id) in st.known + facts
    ensures Safe(st.(replicas := st.replicas[i := v], known := st.known + facts))
  {
    hide ReplicaOk, OperatorReads, HoldsKey, NotWithout;
    var next := st.(replicas := st.replicas[i := v], known := st.known + facts);
    forall j | 0 <= j < |next.replicas|
      ensures ReplicaOk(next.replicas[j], st.operator) && ActiveKnown(next, j)
    {
      assert ActiveKnown(st, j);
    }
    forall f | f in next.known
      ensures FactOk(next, f)
    {
      assert f in st.known ==> FactOk(st, f);
    }
    assert forall name, id :: KnownEverywhere(st, name, id) ==> KnownEverywhere(next, name, id);
  }

  /** What is promised changes; anything new is as good as the rest. */
  lemma PromisesChange(st: State, objects: set<Stored>, pending: map<nat, Stored>)
    requires Safe(st)
    requires forall o :: o in objects + pending.Values && o !in Promised(st) ==>
      OperatorReads(st.operator, o) && KnownEverywhere(st, o.scope, o.kekId)
    ensures Safe(st.(objects := objects, pending := pending))
  {
    hide ReplicaOk, OperatorReads, HoldsKey, NotWithout;
    var next := st.(objects := objects, pending := pending);
    assert forall i :: 0 <= i < |st.replicas| ==> ActiveKnown(st, i) ==> ActiveKnown(next, i);
    assert forall f :: FactOk(st, f) ==> FactOk(next, f);
    assert forall name, id :: KnownEverywhere(st, name, id) ==> KnownEverywhere(next, name, id);
  }

  // ---------------------------------------------------------------- the steps

  lemma AddScopeSafe(st: State, s: Scope)
    requires Safe(st)
    ensures Safe(Next(st, Step.AddScope(s)))
  {
    hide Safe, ValidScope, Overlap;
    assert ValidKeyring(st.operator) by { SafeParts(st); }
    match Keyrings.AddScope(st.operator, s)
    case None =>
    case Some(k) =>
      AddScopeGrows(st.operator, s);
      KeyringGrows(st, k);
      var next := st.(operator := k);
      forall f | f in Unheard(|st.replicas|, s)
        ensures FactOk(next, f)
      {
        NamedIsUnique(st.operator.scopes, s.name);
        NamedIsUnique(k.scopes, s.name);
        assert s == k.scopes[|st.operator.scopes|];
        SafeParts(st);
        NotHeldYet(st.replicas[f.replica], st.operator, s.name);
        ReportShows(st.replicas[f.replica], f.scope, f.id);
      }
      MoreIsKnown(next, Unheard(|st.replicas|, s));
  }

  lemma NotHeldYet(v: V.VaultState, k: Keyring, name: Text)
    requires ReplicaOk(v, k) && ScopeNamed(k.scopes, name).None?
    ensures ScopeNamed(v.scopes, name).None?
  {
  }

  lemma SafeParts(st: State)
    requires Safe(st)
    ensures ValidKeyring(st.operator)
    ensures forall i :: 0 <= i < |st.replicas| ==> ReplicaOk(st.replicas[i], st.operator) && ActiveKnown(st, i)
    ensures forall f :: f in st.known ==> FactOk(st, f)
    ensures forall o :: o in Promised(st) ==> OperatorReads(st.operator, o) && KnownEverywhere(st, o.scope, o.kekId)
  {
  }

  /** Every key the operator holds is in what a push delivers. */
  lemma DeliversEverything(k: Keyring, delivered: Keyring, name: Text, id: KeyId)
    requires Grows(k.scopes, delivered.scopes) && HoldsKey(k.scopes, name, id)
    ensures HoldsKey(delivered.scopes, name, id)
  {
    assert GrowsAt(k.scopes, delivered.scopes, name);
  }

  lemma PushSafe(st: State, i: nat, active: map<Text, KeyId>, intent: Intent, generation: nat, now: int)
    requires Safe(st)
    ensures Safe(PushStep(st, i, active, intent, generation, now))
  {
    hide Safe, WithScopeActive, ValidScope, Overlap, ScopeNamed, Lookup, V.Refuses;
    SafeParts(st);
    if i < |st.replicas| && WithScopeActive(st.operator, active).Some? {
      var k := WithScopeActive(st.operator, active).value;
      ActivationGrowsBothWays(st.operator, active);
      var v0 := st.replicas[i];
      var b := V.BundleValue(v0.instance, generation, k.scopes);
      var v := V.Unseal(v0, Some(b), intent, now).0;
      if Cleared(st, i, k.scopes) {
        var facts := if TookIt(v, k.scopes) then Reported(i, V.KeysReported(v.scopes)) else {};
        assert v == v0 || v == V.Installed(v0, b, now);
        PushedReplica(st, i, k, v, facts);
        ReplicaChanges(st, i, v, facts);
      }
    }
  }

  lemma PushedReplica(st: State, i: nat, k: Keyring, v: V.VaultState, facts: set<Fact>)
    requires Safe(st) && i < |st.replicas| && ValidKeyring(k)
    requires Grows(st.operator.scopes, k.scopes) && Grows(k.scopes, st.operator.scopes)
    requires v == st.replicas[i] || (v.phase == V.Unsealed && v.scopes == k.scopes)
    requires facts == if TookIt(v, k.scopes) then Reported(i, V.KeysReported(v.scopes)) else {}
    requires Cleared(st, i, k.scopes)
    ensures ReplicaOk(v, st.operator)
    ensures forall f :: f in st.known && f.replica == i ==> NotWithout(v, f.scope, f.id)
    ensures forall f :: f in facts ==>
      f.replica == i && HoldsKey(st.operator.scopes, f.scope, f.id) && NotWithout(v, f.scope, f.id)
    ensures forall s :: s in v.scopes && s.keys.keks != [] ==>
      forall j :: 0 <= j < |st.replicas| ==> Fact(j, s.name, s.keys.keks[0].id) in st.known + facts
  {
    hide ValidScope, Overlap, Lookup, V.KeysReported, Safe;
    SafeParts(st);
    assert ReplicaOk(st.replicas[i], st.operator) && ActiveKnown(st, i);
    forall f | f in facts
      ensures f.replica == i && HoldsKey(st.operator.scopes, f.scope, f.id) && NotWithout(v, f.scope, f.id)
    {
      var name, n :| name in V.KeysReported(v.scopes) && 0 <= n < |V.KeysReported(v.scopes)[name]|
                     && f == Fact(i, name, V.KeysReported(v.scopes)[name][n]);
      V.ReportTells(k.scopes, name);
      DeliversEverything(k, st.operator, f.scope, f.id);
    }
    forall f | f in st.known && f.replica == i
      ensures NotWithout(v, f.scope, f.id)
    {
      assert FactOk(st, f);
      DeliversEverything(st.operator, k, f.scope, f.id);
      ReportShows(v, f.scope, f.id);
    }
    forall n | 0 <= n < |v.scopes| && v.scopes[n].keys.keks != []
      ensures v != st.replicas[i] ==> Fact(i, v.scopes[n].name, v.scopes[n].keys.keks[0].id) in facts
    {
      ActiveIsReported(v.scopes, i, n);
    }
  }

  /** The active key of every scope held is in the report. */
  lemma ActiveIsReported(scopes: seq<Scope>, i: nat, n: nat)
    requires Separate(scopes) && n < |scopes| && scopes[n].keys.keks != []
    ensures Fact(i, scopes[n].name, scopes[n].keys.keks[0].id) in Reported(i, V.KeysReported(scopes))
  {
    hide V.KeysReported;
    NamedAt(scopes, n);
    V.ReportTells(scopes, scopes[n].name);
    assert V.KeysReported(scopes)[scopes[n].name][0] == scopes[n].keys.keks[0].id;
  }

  lemma AdmitSafe(st: State, ticket: nat, i: nat, key: Text)
    requires Safe(st)
    ensures Safe(Next(st, Admit(ticket, i, key)))
  {
    hide Safe, ValidScope, Overlap, ScopeNamed, OperatorReads;
    SafeParts(st);
    if ticket !in st.pending && i < |st.replicas| && V.ScopeFor(st.replicas[i], key).Ok? && Usable(V.ScopeFor(st.replicas[i], key).value) {
      var scopes := st.replicas[i].scopes;
      var s := V.ScopeFor(st.replicas[i], key).value;
      var o := Sealing(s, key);
      assert ReplicaOk(st.replicas[i], st.operator) && ActiveKnown(st, i);
      OwnerIsUnique(scopes, key);
      SealingReads(scopes, st.operator, s, key);
      PromisesChange(st, st.objects, st.pending[ticket := o]);
    }
  }

  /** What is written under keys the operator's keyring has outgrown, it reads. */
  lemma SealingReads(scopes: seq<Scope>, k: Keyring, s: Scope, key: Text)
    requires ValidScopes(scopes) && ValidKeyring(k) && Grows(scopes, k.scopes)
    requires ScopeOwning(scopes, key) == Some(s) && Usable(s)
    ensures OperatorReads(k, Sealing(s, key))
  {
    hide ValidScope, Overlap, ScopeNamed;
    GrowthKeepsReading(scopes, k.scopes, key);
    assert Lookup(s.keys.keks, s.keys.keks[0].id) == Some(s.keys.keks[0].key);
  }

  lemma LandSafe(st: State, ticket: nat)
    requires Safe(st)
    ensures Safe(Next(st, Land(ticket))) && Safe(Next(st, Drop(ticket)))
  {
    hide Safe, OperatorReads, KnownEverywhere;
    PromisesChange(st, st.objects, st.pending - {ticket});
    if ticket in st.pending {
      assert st.pending[ticket] in Promised(st);
      PromisesChange(st, st.objects + {st.pending[ticket]}, st.pending - {ticket});
    }
  }

  /** What the operator's machine writes, its keyring reads. */
  lemma OperatorSealing(st: State, key: Text, active: map<Text, KeyId>)
    requires Safe(st) && OperatorScope(st, key, active).Some?
    ensures OperatorReads(st.operator, Sealing(OperatorScope(st, key, active).value, key))
  {
    hide Safe, ValidScope, Overlap, ScopeNamed, WithScopeActive, KnownEverywhere, OperatorReads;
    SafeParts(st);
    ActivationGrowsBothWays(st.operator, active);
    var k := WithScopeActive(st.operator, active).value;
    SealingReads(k.scopes, st.operator, OperatorScope(st, key, active).value, key);
  }

  lemma OperatorWriteSafe(st: State, key: Text, active: map<Text, KeyId>)
    requires Safe(st)
    ensures Safe(Next(st, OperatorWrite(key, active)))
  {
    hide Safe, OperatorScope, OperatorReads;
    if OperatorScope(st, key, active).Some? {
      OperatorSealing(st, key, active);
      PromisesChange(st, st.objects + {Sealing(OperatorScope(st, key, active).value, key)}, st.pending);
    }
  }

  lemma RekeySafe(st: State, o: Stored, active: map<Text, KeyId>)
    requires Safe(st)
    ensures Safe(Next(st, Rekey(o, active)))
  {
    hide Safe, ValidScope, Overlap, ScopeNamed, OperatorScope, ScopeOwning;
    SafeParts(st);
    if o in st.objects && OperatorScope(st, o.key, active).Some? {
      var s := OperatorScope(st, o.key, active).value;
      assert o in Promised(st) && OperatorReads(st.operator, o);
      OperatorSealing(st, o.key, active);
      assert o.(kekId := s.keys.keks[0].id, kek := s.keys.keks[0].key) == Sealing(s, o.key);
      PromisesChange(st, st.objects - {o} + {Sealing(s, o.key)}, st.pending);
    }
  }

  /** A replica that loses its keys, or merely its hold, cannot hurt. */
  lemma EmptiedSafe(st: State, i: nat, v: V.VaultState)
    requires Safe(st) && i < |st.replicas|
    requires v.scopes == [] || (v.scopes == st.replicas[i].scopes && v.phase == st.replicas[i].phase)
    requires v.phase == V.Unsealed ==> st.replicas[i].phase == V.Unsealed && v.scopes == st.replicas[i].scopes
    ensures Safe(st.(replicas := st.replicas[i := v]))
  {
    hide ValidScope, Overlap, Lookup;
    SafeParts(st);
    assert ReplicaOk(st.replicas[i], st.operator) && ActiveKnown(st, i);
    forall f | f in st.known && f.replica == i
      ensures NotWithout(v, f.scope, f.id)
    {
      assert FactOk(st, f);
    }
    ReplicaChanges(st, i, v, {});
    assert st.known + {} == st.known;
  }

  // ---------------------------------------------------------------- re-seeding

  /** What a re-seed that is taken leaves known. */
  lemma ReseedKnows(st: State, i: nat, b: V.BundleValue, now: int, f: Fact)
    requires i < |st.replicas|
    ensures
      var report := V.KeysReported(b.scopes);
      f in Reseeded(st, i, b, now).known
      <==> if f.replica != i then f in st.known
           else if f.scope in report then f.id in report[f.scope]
           else f in st.known
  {
    hide V.KeysReported;
    var report := V.KeysReported(b.scopes);
    if f.replica == i && f.scope in report && f.id in report[f.scope] {
      var n :| 0 <= n < |report[f.scope]| && report[f.scope][n] == f.id;
      assert f == Fact(i, f.scope, report[f.scope][n]);
    }
  }

  lemma ReseedKnowsEverywhere(st: State, i: nat, b: V.BundleValue, now: int, name: Text, id: KeyId)
    requires i < |st.replicas|
    ensures
      var report := V.KeysReported(b.scopes);
      KnownEverywhere(Reseeded(st, i, b, now), name, id)
      <==> KnownElsewhere(st, i, name, id) && if name in report then id in report[name] else Fact(i, name, id) in st.known
  {
    hide V.KeysReported;
    var next, report := Reseeded(st, i, b, now), V.KeysReported(b.scopes);
    assert |next.replicas| == |st.replicas|;
    hide Reseeded;
    ReseedKnows(st, i, b, now, Fact(i, name, id));
    forall j | 0 <= j < |st.replicas| && j != i
      ensures Fact(j, name, id) in next.known <==> Fact(j, name, id) in st.known
    {
      ReseedKnows(st, i, b, now, Fact(j, name, id));
    }
    if KnownElsewhere(st, i, name, id) && Fact(i, name, id) in next.known {
      forall j | 0 <= j < |st.replicas|
        ensures Fact(j, name, id) in next.known
      {
        assert j != i ==> Fact(j, name, id) in st.known;
      }
    }
    if KnownEverywhere(next, name, id) {
      forall j | 0 <= j < |st.replicas| && j != i
        ensures Fact(j, name, id) in st.known
      {
        assert Fact(j, name, id) in next.known;
      }
      assert Fact(i, name, id) in next.known;
    }
  }

  /** A re-seed that is taken installs the bundle, in one replica. */
  lemma ReseedTaken(st: State, i: nat, b: V.BundleValue, now: int)
    requires i < |st.replicas| && V.Unseal(st.replicas[i], Some(b), RestartReseed, now).1.None?
    ensures
      var next := Reseeded(st, i, b, now);
      && next.operator == st.operator && next.objects == st.objects && next.pending == st.pending
      && next.replicas == st.replicas[i := V.Installed(st.replicas[i], b, now)]
  {
  }

  /** Exactly when a bundle the operator's keyring has outgrown can be put back into
      a restarted replica without harm, now or later: nothing in it is active that
      another replica might lack, and it lacks nothing in use. */
  lemma ReseedSafeIff(st: State, i: nat, b: V.BundleValue, now: int)
    requires Safe(st) && i < |st.replicas| && ValidScopes(b.scopes) && Grows(b.scopes, st.operator.scopes)
    requires V.Unseal(st.replicas[i], Some(b), RestartReseed, now).1.None?
    ensures Safe(Reseeded(st, i, b, now)) <==> Cleared(st, i, b.scopes) && Covers(st, i, b.scopes)
  {
    hide Safe;
    if Cleared(st, i, b.scopes) && Covers(st, i, b.scopes) { ReseedIsSafe(st, i, b, now); }
    if Safe(Reseeded(st, i, b, now)) { SafeReseedCovers(st, i, b, now); }
  }

  lemma ReseedIsSafe(st: State, i: nat, b: V.BundleValue, now: int)
    requires Safe(st) && i < |st.replicas| && ValidScopes(b.scopes) && Grows(b.scopes, st.operator.scopes)
    requires V.Unseal(st.replicas[i], Some(b), RestartReseed, now).1.None?
    requires Cleared(st, i, b.scopes) && Covers(st, i, b.scopes)
    ensures Safe(Reseeded(st, i, b, now))
  {
    hide Grows, ValidScope, Overlap, V.KeysReported, V.Unseal, Reseeded, OperatorReads, HoldsKey;
    var next := Reseeded(st, i, b, now);
    ReseedTaken(st, i, b, now);
    forall f | f in next.known
      ensures FactOk(next, f)
    {
      ReseedKnows(st, i, b, now, f);
      if f.replica == i && f.scope in V.KeysReported(b.scopes) {
        ReportedIsHeld(b.scopes, st.operator, f.scope, f.id);
      } else {
        assert FactOk(st, f);
      }
    }
    forall j, s | 0 <= j < |st.replicas| && s in next.replicas[j].scopes && s.keys.keks != []
      ensures KnownEverywhere(next, s.name, s.keys.keks[0].id)
    {
      ReseedKnowsEverywhere(st, i, b, now, s.name, s.keys.keks[0].id);
      if j == i {
        ActiveInReport(b.scopes, s);
      } else {
        assert ActiveKnown(st, j);
      }
    }
    forall o | o in Promised(st)
      ensures KnownEverywhere(next, o.scope, o.kekId)
    {
      ReseedKnowsEverywhere(st, i, b, now, o.scope, o.kekId);
    }
    hide KnownEverywhere;
    forall j | 0 <= j < |st.replicas|
      ensures ReplicaOk(next.replicas[j], st.operator) && ActiveKnown(next, j)
    {
      assert j != i ==> ReplicaOk(st.replicas[j], st.operator);
    }
  }

  /** What a report lists of outgrown scopes, the operator's keyring holds. */
  lemma ReportedIsHeld(scopes: seq<Scope>, k: Keyring, name: Text, id: KeyId)
    requires Separate(scopes) && Grows(scopes, k.scopes)
    requires name in V.KeysReported(scopes) && id in V.KeysReported(scopes)[name]
    ensures HoldsKey(k.scopes, name, id)
  {
    hide V.KeysReported;
    V.ReportTells(scopes, name);
    assert GrowsAt(scopes, k.scopes, name);
  }

  lemma ActiveInReport(scopes: seq<Scope>, s: Scope)
    requires Separate(scopes) && s in scopes && s.keys.keks != []
    ensures s.name in V.KeysReported(scopes) && s.keys.keks[0].id in V.KeysReported(scopes)[s.name]
  {
    hide V.KeysReported, Overlap;
    NamedIsUnique(scopes, s.name);
    V.ReportTells(scopes, s.name);
  }

  lemma SafeReseedCovers(st: State, i: nat, b: V.BundleValue, now: int)
    requires Safe(st) && i < |st.replicas| && ValidScopes(b.scopes) && Grows(b.scopes, st.operator.scopes)
    requires V.Unseal(st.replicas[i], Some(b), RestartReseed, now).1.None?
    requires Safe(Reseeded(st, i, b, now))
    ensures Cleared(st, i, b.scopes) && Covers(st, i, b.scopes)
  {
    hide Grows, ValidScope, Overlap, V.KeysReported, V.Unseal, Reseeded, OperatorReads, FactOk;
    var next, report := Reseeded(st, i, b, now), V.KeysReported(b.scopes);
    ReseedTaken(st, i, b, now);
    forall j, s | 0 <= j < |st.replicas| && s in next.replicas[j].scopes && s.keys.keks != []
      ensures KnownElsewhere(st, i, s.name, s.keys.keks[0].id)
      ensures s.name in report ==> s.keys.keks[0].id in report[s.name]
    {
      assert ActiveKnown(next, j);
      ReseedKnowsEverywhere(st, i, b, now, s.name, s.keys.keks[0].id);
    }
    forall o | o in Promised(st)
      ensures o.scope in report ==> o.kekId in report[o.scope]
    {
      assert o in Promised(next);
      ReseedKnowsEverywhere(st, i, b, now, o.scope, o.kekId);
    }
    assert next.replicas[i].scopes == b.scopes;
    forall j, s | 0 <= j < |st.replicas| && j != i && s in st.replicas[j].scopes && s.keys.keks != []
      ensures s.name in report ==> s.keys.keks[0].id in report[s.name]
    {
      assert s in next.replicas[j].scopes;
    }
  }

  /** Short of that, exactly when such a bundle leaves everything readable for now:
      of each scope it has it holds every key something at rest is wrapped under. */
  lemma ReseedReadsIff(st: State, i: nat, b: V.BundleValue, now: int)
    requires Safe(st) && i < |st.replicas| && ValidScopes(b.scopes) && Grows(b.scopes, st.operator.scopes)
    requires V.Unseal(st.replicas[i], Some(b), RestartReseed, now).1.None?
    ensures AllReadable(Reseeded(st, i, b, now))
      <==> forall o :: o in st.objects && ScopeOwning(b.scopes, o.key).Some? ==> HoldsKey(b.scopes, o.scope, o.kekId)
  {
    hide Safe, Grows, ValidScope, Overlap, V.Unseal, Reseeded, HoldsKey, Reads;
    var next := Reseeded(st, i, b, now);
    ReseedTaken(st, i, b, now);
    SafeReads(st);
    SafeParts(st);
    forall o | o in st.objects
      ensures Reads(b.scopes, o) <==> ScopeOwning(b.scopes, o.key).Some? ==> HoldsKey(b.scopes, o.scope, o.kekId)
    {
      assert o in Promised(st);
      ReadsIffHeld(b.scopes, st.operator, o);
    }
    if AllReadable(next) {
      assert forall o :: o in st.objects ==> Reads(next.replicas[i].scopes, o);
    }
  }

  /** Outgrown scopes read an object exactly when they do not own its key or hold
      the key it is wrapped under. */
  lemma ReadsIffHeld(scopes: seq<Scope>, k: Keyring, o: Stored)
    requires ValidScopes(scopes) && ValidKeyring(k) && Grows(scopes, k.scopes) && OperatorReads(k, o)
    ensures Reads(scopes, o) <==> ScopeOwning(scopes, o.key).Some? ==> HoldsKey(scopes, o.scope, o.kekId)
  {
    hide ValidScope, Overlap, Lookup;
    if ScopeOwning(scopes, o.key).Some? {
      GrowthKeepsReading(scopes, k.scopes, o.key);
      OwnerIsUnique(scopes, o.key);
      NamedIsUnique(scopes, ScopeOwning(scopes, o.key).value.name);
    }
  }

  /** And exactly when it leaves all that is known of the replica true, which its
      report alone decides. */
  lemma ReseedKeepsKnowledgeIff(st: State, i: nat, b: V.BundleValue, now: int)
    requires Safe(st) && i < |st.replicas| && ValidScopes(b.scopes) && Grows(b.scopes, st.operator.scopes)
    requires V.Unseal(st.replicas[i], Some(b), RestartReseed, now).1.None?
    ensures
      var report := V.KeysReported(b.scopes);
      Safe(st.(replicas := st.replicas[i := V.Installed(st.replicas[i], b, now)]))
      <==> && (forall f :: f in st.known && f.replica == i && f.scope in report ==> f.id in report[f.scope])
           && (forall s :: s in b.scopes && s.keys.keks != [] ==> KnownEverywhere(st, s.name, s.keys.keks[0].id))
  {
    hide Grows, ValidScope, Overlap, V.KeysReported, V.Unseal, OperatorReads, HoldsKey;
    var v, report := V.Installed(st.replicas[i], b, now), V.KeysReported(b.scopes);
    var next := st.(replicas := st.replicas[i := v]);
    if (forall f :: f in st.known && f.replica == i && f.scope in report ==> f.id in report[f.scope])
       && (forall s :: s in b.scopes && s.keys.keks != [] ==> KnownEverywhere(st, s.name, s.keys.keks[0].id)) {
      ReplicaChanges(st, i, v, {});
      assert st.known + {} == st.known;
    }
    if Safe(next) {
      assert next.replicas[i] == v && ActiveKnown(next, i);
      forall f | f in st.known && f.replica == i && f.scope in report
        ensures f.id in report[f.scope]
      {
        assert FactOk(next, f);
      }
    }
  }

  lemma ReseedSafe(st: State, i: nat, b: V.BundleValue, now: int)
    requires Safe(st)
    ensures Safe(ReseedStep(st, i, b, now))
  {
    hide Safe, Grows, ValidScope, Overlap, Cleared, Covers, Reseeded, V.Unseal;
    if ReseedStep(st, i, b, now) != st { ReseedIsSafe(st, i, b, now); }
  }

  lemma PollSafe(st: State, i: nat, name: Text, id: KeyId)
    requires Safe(st) && i < |st.replicas| && HoldsKey(st.operator.scopes, name, id) && NotWithout(st.replicas[i], name, id)
    ensures Safe(st.(known := st.known + {Fact(i, name, id)}))
  {
    hide Safe, HoldsKey, NotWithout;
    MoreIsKnown(st, {Fact(i, name, id)});
  }

  lemma ReleaseSafe(st: State, i: nat, now: int)
    requires Safe(st) && i < |st.replicas|
    ensures Safe(st.(replicas := st.replicas[i := V.ReleaseHold(st.replicas[i], now)]))
  {
    hide Safe;
    SafeParts(st);
    assert ReplicaOk(st.replicas[i], st.operator);
    EmptiedSafe(st, i, V.ReleaseHold(st.replicas[i], now));
  }

  lemma NextSafe(st: State, step: Step)
    requires Safe(st)
    ensures Safe(Next(st, step))
  {
    hide Safe, PushStep, ReseedStep, Grows, Keyrings.AddScope, Rotations.Rotate, Merge, V.ScopeFor, ScopeOwning,
         OperatorScope, HoldsKey, NotWithout, Unheard, Sealing, ActiveKnown, ReplicaOk, FactOk;
    SafeParts(st);
    match step
    case AddScope(s) => AddScopeSafe(st, s);
    case Rotate(minted) =>
      if |minted| == |st.operator.scopes| && Rotations.Rotate(st.operator, minted).Some? {
        RotateGrows(st.operator, minted);
        KeyringGrows(st, Rotations.Rotate(st.operator, minted).value);
      }
    case Import(other) =>
      if ValidKeyring(other) && Merge(st.operator, other).Some? {
        MergeGrows(st.operator, other);
        KeyringGrows(st, Merge(st.operator, other).value);
      }
    case Poll(i, name, id) =>
      if Next(st, step) != st { PollSafe(st, i, name, id); }
    case Push(i, active, intent, generation, now) => PushSafe(st, i, active, intent, generation, now);
    case Reseed(i, b, now) => ReseedSafe(st, i, b, now);
    case Admit(ticket, i, key) => AdmitSafe(st, ticket, i, key);
    case Land(ticket) => LandSafe(st, ticket);
    case Drop(ticket) => LandSafe(st, ticket);
    case OperatorWrite(key, active) => OperatorWriteSafe(st, key, active);
    case Rekey(o, active) => RekeySafe(st, o, active);
    case Restart(i, now) =>
      if i < |st.replicas| { EmptiedSafe(st, i, V.Started(st.replicas[i].instance, now)); }
    case Seal(i, hold, reason, now) =>
      if i < |st.replicas| { EmptiedSafe(st, i, V.Seal(st.replicas[i], hold, reason, now)); }
    case ReleaseHold(i, now) =>
      if i < |st.replicas| { ReleaseSafe(st, i, now); }
  }

  /** A scope that may join the operator's keyring joins it, and needs no asking: it was
      minted a moment ago, and no replica holds an older copy that could lack its keys. */
  lemma ScopeJoins(st: State, s: Scope)
    requires Safe(st) && ValidKeyring(Keyring(st.operator.own, st.operator.scopes + [s]))
    ensures Next(st, Step.AddScope(s)).operator == Keyring(st.operator.own, st.operator.scopes + [s])
    ensures forall m :: 0 <= m < |s.keys.keks| ==> KnownEverywhere(Next(st, Step.AddScope(s)), s.name, s.keys.keks[m].id)
  {
    hide Safe, ValidKeyring;
    SafeParts(st);
    AddScopeIffStillValid(st.operator, s);
    hide Keyrings.AddScope;
  }

  /** An import that contradicts nothing brings every scope of the other keyring, and
      keeps everything there was. */
  lemma ImportBrings(st: State, other: Keyring, name: Text)
    requires Safe(st) && ValidKeyring(other) && Merge(st.operator, other).Some?
    ensures Grows(st.operator.scopes, Next(st, Import(other)).operator.scopes)
    ensures ScopeNamed(other.scopes, name).Some? ==> ScopeNamed(Next(st, Import(other)).operator.scopes, name).Some?
  {
    hide Safe, Merge, Grows, ScopeNamed, ValidKeyring;
    SafeParts(st);
    MergeGrows(st.operator, other);
    MergeIsUnion(st.operator, other);
    assert NameMerged(Merge(st.operator, other).value.scopes, st.operator.scopes, other.scopes, name);
  }

  /** A restart, a seal and a release leave their replica in the state they should. */
  lemma ReplicaStops(st: State, i: nat, hold: bool, reason: Text, now: int)
    requires i < |st.replicas|
    ensures Next(st, Restart(i, now)).replicas[i] == V.VaultState(st.replicas[i].instance, V.RestartSealed, now, [], 0, [])
    ensures Next(st, Step.Seal(i, hold, reason, now)).replicas[i]
         == V.VaultState(st.replicas[i].instance, if hold then V.OperatorHold else V.RestartSealed, now,
                         if hold then reason else [], st.replicas[i].generation, [])
    ensures st.replicas[i].phase == V.OperatorHold ==> Next(st, Step.ReleaseHold(i, now)).replicas[i].phase == V.RestartSealed
  {
  }

  // ---------------------------------------------------------------- whole runs

  /** A fleet just deployed: every replica sealed, nothing stored, nothing known. */
  predicate Deployed(st: State) {
    && ValidKeyring(st.operator)
    && (forall i :: 0 <= i < |st.replicas| ==> st.replicas[i].phase == V.RestartSealed && st.replicas[i].scopes == [])
    && st.objects == {} && st.pending == map[] && st.known == {}
  }

  lemma {:induction false} RunSafe(st: State, run: seq<Step>)
    requires Safe(st)
    ensures Safe(After(st, run))
  {
    hide Safe, Next;
    if run != [] {
      RunSafe(st, run[..|run| - 1]);
      NextSafe(After(st, run[..|run| - 1]), run[|run| - 1]);
    }
  }

  /** Over every run of scopes added, rotations, imports, polls, pushes and re-seeds
      under the discipline, writes admitted by any replica and landing at any later
      time, rekeys, restarts, seals and releases, every replica finds and unwraps
      everything ever written in the scopes it serves. */
  lemma RecordsStayReadable(st: State, run: seq<Step>)
    requires Deployed(st)
    ensures AllReadable(After(st, run))
  {
    hide Next, AllReadable;
    assert Safe(st);
    RunSafe(st, run);
    SafeReads(After(st, run));
  }

  lemma OperatorGrows(st: State, step: Step)
    requires Safe(st)
    ensures Grows(st.operator.scopes, Next(st, step).operator.scopes)
  {
    hide Safe, PushStep, ReseedStep, Keyrings.AddScope, Rotations.Rotate, Merge, V.ScopeFor, ScopeOwning, OperatorScope, Grows;
    SafeParts(st);
    PointwiseItself(st.operator);
    match step
    case AddScope(s) => if Keyrings.AddScope(st.operator, s).Some? { AddScopeGrows(st.operator, s); }
    case Rotate(minted) =>
      if |minted| == |st.operator.scopes| && Rotations.Rotate(st.operator, minted).Some? { RotateGrows(st.operator, minted); }
    case Import(other) =>
      if ValidKeyring(other) && Merge(st.operator, other).Some? { MergeGrows(st.operator, other); }
    case Push(i, active, intent, generation, now) => PushKeepsOperator(st, i, active, intent, generation, now);
    case Reseed(i, b, now) => ReseedKeepsOperator(st, i, b, now);
    case _ =>
  }

  lemma PointwiseItself(k: Keyring)
    requires ValidKeyring(k)
    ensures Grows(k.scopes, k.scopes)
  {
    hide Overlap;
    forall i | 0 <= i < |k.scopes|
      ensures ScopeGrows(k.scopes[i], k.scopes[i])
    {
      assert ValidScope(k.scopes[i]);
    }
    PointwiseGrows(k.scopes, k.scopes);
  }

  lemma PushKeepsOperator(st: State, i: nat, active: map<Text, KeyId>, intent: Intent, generation: nat, now: int)
    ensures PushStep(st, i, active, intent, generation, now).operator == st.operator
  {
    hide WithScopeActive, Cleared, V.Unseal, TookIt;
  }

  lemma ReseedKeepsOperator(st: State, i: nat, b: V.BundleValue, now: int)
    ensures ReseedStep(st, i, b, now).operator == st.operator
  {
    hide Grows, ValidScopes, Cleared, Covers, V.Unseal;
  }

  /** Whatever was put into a bundle at some point of a run, under any choice of
      active keys, the operator's keyring has outgrown ever after. */
  lemma {:induction false} EnrolledIsOutgrown(st: State, run: seq<Step>, m: nat, active: map<Text, KeyId>)
    requires Safe(st) && m <= |run| && WithScopeActive(After(st, run[..m]).operator, active).Some?
    ensures
      var scopes := WithScopeActive(After(st, run[..m]).operator, active).value.scopes;
      ValidScopes(scopes) && Grows(scopes, After(st, run).operator.scopes)
    decreases |run|
  {
    hide Safe, Next, WithScopeActive, Grows;
    if m == |run| {
      assert run[..m] == run;
      RunSafe(st, run);
      SafeParts(After(st, run));
      ActivationGrowsBothWays(After(st, run).operator, active);
    } else {
      var init := run[..|run| - 1];
      assert init[..m] == run[..m];
      EnrolledIsOutgrown(st, init, m, active);
      RunSafe(st, init);
      OperatorGrows(After(st, init), run[|run| - 1]);
      GrowsTransitive(WithScopeActive(After(st, run[..m]).operator, active).value.scopes,
                      After(st, init).operator.scopes, After(st, run).operator.scopes);
    }
  }

  // ---------------------------------------------------------------- a rotation can finish

  /** The facts a round of polls about these scopes' active keys would establish. */
  function ActiveFacts(replicas: nat, scopes: seq<Scope>): set<Fact> {
    set j, n | 0 <= j < replicas && 0 <= n < |scopes| && scopes[n].keys.keks != [] ::
      Fact(j, scopes[n].name, scopes[n].keys.keks[0].id)
  }

  /** The discipline asks no more than holding: once every replica that serves holds
      what the operator holds, a round of polls establishes every fact that a push
      of any choice of active keys needs. */
  lemma HoldingClears(st: State, i: nat, active: map<Text, KeyId>)
    requires Safe(st) && WithScopeActive(st.operator, active).Some?
    requires forall j :: 0 <= j < |st.replicas| ==>
      st.replicas[j].phase != V.Unsealed || Grows(st.operator.scopes, st.replicas[j].scopes)
    ensures
      var k := WithScopeActive(st.operator, active).value;
      var facts := ActiveFacts(|st.replicas|, k.scopes);
      && (forall f :: f in facts ==> f in Next(st, Poll(f.replica, f.scope, f.id)).known)
      && Cleared(st.(known := st.known + facts), i, k.scopes)
  {
    hide ScopeNamed, Lookup, ValidScope, Overlap, WithScopeActive;
    ActivationGrowsBothWays(st.operator, active);
    var k := WithScopeActive(st.operator, active).value;
    forall f | f in ActiveFacts(|st.replicas|, k.scopes)
      ensures f in Next(st, Poll(f.replica, f.scope, f.id)).known
    {
      var n :| 0 <= n < |k.scopes| && k.scopes[n].keys.keks != [] && k.scopes[n].name == f.scope
               && k.scopes[n].keys.keks[0].id == f.id;
      ActiveIsHeld(k.scopes, n);
      DeliversEverything(k, st.operator, f.scope, f.id);
      if st.replicas[f.replica].phase == V.Unsealed {
        assert GrowsAt(st.operator.scopes, st.replicas[f.replica].scopes, f.scope);
      }
      ReportShows(st.replicas[f.replica], f.scope, f.id);
    }
  }

  lemma ActiveIsHeld(scopes: seq<Scope>, n: nat)
    requires Separate(scopes) && n < |scopes| && scopes[n].keys.keks != []
    ensures HoldsKey(scopes, scopes[n].name, scopes[n].keys.keks[0].id)
  {
    NamedAt(scopes, n);
  }

  // ---------------------------------------------------------------- a stale keeper

  function DemoStart(k: Keyring): State { State(k, [V.Started([], 0)], {}, map[], {}) }

  function DemoRun(): seq<Step> {
    [Push(0, map[], OperatorUnseal, 2, 0), Admit(0, 0, Ascii("a/x")), Land(0), Restart(0, 0)]
  }

  /** Outside the condition it goes wrong. With no replica serving to check against, a
      bundle from before a rotation is accepted by a restarted replica, which then
      cannot read what it wrote. */
  lemma StaleReseedSplits()
    ensures
      var before := ExampleKeyring([ExampleEntry(1)], [ExampleEntry(2)]);
      var st0 := DemoStart(ExampleKeyring([ExampleEntry(1)], [ExampleEntry(3), ExampleEntry(2)]));
      var st := After(st0, DemoRun());
      && ValidKeyring(before)
      && Rotations.Rotate(before, [ExampleEntry(3)]).Some?
      && Rotations.Rotate(before, [ExampleEntry(3)]).value.scopes == st0.operator.scopes
      && Deployed(st0)
      && |st.replicas| == 1
      && var (v, refusal) := V.Unseal(st.replicas[0], Some(V.BundleValue([], 1, before.scopes)), RestartReseed, 0);
      && refusal == None
      && !AllReadable(st.(replicas := [v]))
  {
    var before, k := ExampleKeyring([ExampleEntry(1)], [ExampleEntry(2)]), ExampleKeyring([ExampleEntry(1)], [ExampleEntry(3), ExampleEntry(2)]);
    MarksDiffer(2, 3);
    ExampleIsValid([ExampleEntry(1)], [ExampleEntry(2)]);
    ExampleIsValid([ExampleEntry(1)], [ExampleEntry(3), ExampleEntry(2)]);
    DemoRotates();
    DemoRunWrites(k);
    hide ValidKeyring, After, DemoRun, Rotations.Rotate;
    var o := Sealing(k.scopes[0], Ascii("a/x"));
    var st := After(DemoStart(k), DemoRun());
    var (v, refusal) := V.Unseal(st.replicas[0], Some(V.BundleValue([], 1, before.scopes)), RestartReseed, 0);
    assert ValidScope(before.scopes[0]);
    assert v.scopes == before.scopes;
    assert Owns(Ascii("a/"), Ascii("a/x"));
    assert !Reads(v.scopes, o);
    assert st.(replicas := [v]).replicas[0] == v && o in st.(replicas := [v]).objects;
  }

  lemma DemoRotates()
    requires ValidKeyring(ExampleKeyring([ExampleEntry(1)], [ExampleEntry(3), ExampleEntry(2)]))
    ensures Rotations.Rotate(ExampleKeyring([ExampleEntry(1)], [ExampleEntry(2)]), [ExampleEntry(3)]).Some?
    ensures Rotations.Rotate(ExampleKeyring([ExampleEntry(1)], [ExampleEntry(2)]), [ExampleEntry(3)]).value.scopes
         == ExampleKeyring([ExampleEntry(1)], [ExampleEntry(3), ExampleEntry(2)]).scopes
  {
    hide ValidScope;
    var before, k := ExampleKeyring([ExampleEntry(1)], [ExampleEntry(2)]), ExampleKeyring([ExampleEntry(1)], [ExampleEntry(3), ExampleEntry(2)]);
    assert [ExampleEntry(3)] + [ExampleEntry(2)] == [ExampleEntry(3), ExampleEntry(2)];
    assert Rotated(before.scopes[0], ExampleEntry(3)) == k.scopes[0];
    assert CanRotate(before.scopes[0], ExampleEntry(3));
    assert Rotations.Rotate(before, [ExampleEntry(3)]).value.scopes == k.scopes;
  }

  lemma DemoRunWrites(k: Keyring)
    requires ValidKeyring(k) && k == ExampleKeyring([ExampleEntry(1)], [ExampleEntry(3), ExampleEntry(2)])
    ensures After(DemoStart(k), DemoRun()).replicas == [V.Started([], 0)] && k.scopes != []
    ensures After(DemoStart(k), DemoRun()).objects == {Sealing(k.scopes[0], Ascii("a/x"))}
  {
    assert k.scopes != [];
    hide ValidKeyring, ExampleKeyring, WithScopeActive, PushStep, V.ScopeFor, Sealing;
    var st0 := DemoStart(k);
    var p, w, l, r := Push(0, map[], OperatorUnseal, 2, 0), Admit(0, 0, Ascii("a/x")), Land(0), Restart(0, 0);
    DemoPush(k);
    DemoAdmit(Next(st0, p), k);
    DemoLand(Next(Next(st0, p), w), k);
    DemoUnroll(st0, p, w, l, r);
  }

  predicate DemoServes(st: State, k: Keyring) {
    st.replicas == [V.VaultState([], V.Unsealed, 0, [], 2, k.scopes)] && st.objects == {}
  }

  lemma DemoPush(k: Keyring)
    requires ValidKeyring(k) && k == ExampleKeyring([ExampleEntry(1)], [ExampleEntry(3), ExampleEntry(2)])
    ensures
      var st := Next(DemoStart(k), Push(0, map[], OperatorUnseal, 2, 0));
      DemoServes(st, k) && st.pending == map[]
  {
    hide ValidScope, ExampleEntry, Reported, TookIt, KnownElsewhere;
    assert WithScopeActive(k, map[]).value.scopes == k.scopes;
    forall n | 0 <= n < |k.scopes|
      ensures ValidScope(k.scopes[n])
    {
    }
    forall name, id
      ensures KnownElsewhere(DemoStart(k), 0, name, id)
    {
      NobodyElse(DemoStart(k), name, id);
    }
  }

  lemma NobodyElse(st: State, name: Text, id: KeyId)
    requires |st.replicas| == 1
    ensures KnownElsewhere(st, 0, name, id)
  {
  }

  lemma DemoAdmit(st: State, k: Keyring)
    requires k == ExampleKeyring([ExampleEntry(1)], [ExampleEntry(3), ExampleEntry(2)]) && k.scopes != []
    requires DemoServes(st, k) && st.pending == map[]
    ensures
      var next := Next(st, Admit(0, 0, Ascii("a/x")));
      && DemoServes(next, k) && k.scopes != [] && Usable(k.scopes[0])
      && next.pending == map[0 := Sealing(k.scopes[0], Ascii("a/x"))]
  {
    hide ExampleEntry;
    assert Owns(Ascii("a/"), Ascii("a/x"));
    assert V.ScopeFor(st.replicas[0], Ascii("a/x")) == Ok(k.scopes[0]);
  }

  lemma DemoLand(st: State, k: Keyring)
    requires DemoServes(st, k) && k.scopes != [] && Usable(k.scopes[0])
    requires st.pending == map[0 := Sealing(k.scopes[0], Ascii("a/x"))]
    ensures
      var next := Next(Next(st, Land(0)), Restart(0, 0));
      next.replicas == [V.Started([], 0)] && next.objects == {Sealing(k.scopes[0], Ascii("a/x"))}
  {
    hide Usable, Sealing;
  }

  lemma DemoUnroll(st: State, p: Step, w: Step, l: Step, r: Step)
    ensures After(st, [p, w, l, r]) == Next(Next(Next(Next(st, p), w), l), r)
  {
    hide Next;
    assert [p, w, l, r][..3] == [p, w, l] && [p, w, l][..2] == [p, w] && [p, w][..1] == [p] && [p][..0] == [];
    assert After(st, [p]) == Next(st, p);
    assert After(st, [p, w]) == Next(After(st, [p]), w);
    assert After(st, [p, w, l]) == Next(After(st, [p, w]), l);
  }
}
