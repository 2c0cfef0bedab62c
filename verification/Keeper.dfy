/** The keeper: an unattended device with a bundle, and what it checks of the whole
    fleet before it puts that bundle back into a replica that restarted. */
module Keepers {
  import opened Basics
  import opened ScopeNames
  import opened Keys
  import opened Growth
  import opened Identities
  import opened Fleet
  import V = VaultSpec

  datatype Action = Nothing | Reseeds | Hold | Budget | Stale | Unknown | Unchecked

  // ---------------------------------------------------------------- the check

  function CreatedOf(keks: seq<Entry>, id: KeyId): int
    requires Lookup(keks, id).Some?
  {
    if keks[0].id == id then keks[0].created else CreatedOf(keks[1..], id)
  }

  /** The bundle and a serving replica agree on a scope: the bundle holds every key
      the replica reports, writes under one of them, and not under an older one than
      the replica does. */
  predicate AgreesOn(mine: seq<Scope>, name: Text, theirs: seq<KeyId>) {
    match ScopeNamed(mine, name)
    case None => false
    case Some(s) =>
      var keks := s.keys.keks;
      && (forall id :: id in theirs ==> Lookup(keks, id).Some?)
      && keks != [] && keks[0].id in theirs
      && (theirs[0] == keks[0].id || CreatedOf(keks, theirs[0]) <= keks[0].created)
  }

  /** What a replica answers about itself. */
  datatype Report = Report(phase: V.Phase, generation: nat, keys: map<Text, seq<KeyId>>)

  function ReportOf(v: V.VaultState): Report { Report(v.phase, v.generation, V.KeysReported(v.scopes)) }

  predicate Agrees(mine: seq<Scope>, r: Report) {
    r.phase == V.Unsealed ==> forall name :: name in r.keys ==> AgreesOn(mine, name, r.keys[name])
  }

  /** A bundle's keys of one scope, by id. */
  ghost predicate Indexes(ids: map<KeyId, Entry>, keks: seq<Entry>) {
    && (forall id :: id in ids <==> Lookup(keks, id).Some?)
    && (forall id :: id in ids ==> ids[id].created == CreatedOf(keks, id))
  }

  method IndexKeys(keks: seq<Entry>) returns (ids: map<KeyId, Entry>)
    requires DistinctIds(keks)
    ensures Indexes(ids, keks)
  {
    ids := map[];
    for i := 0 to |keks|
      invariant forall id :: id in ids <==> exists j :: 0 <= j < i && keks[j].id == id
      invariant forall j :: 0 <= j < i ==> ids[keks[j].id] == keks[j]
    {
      ids := ids[keks[i].id := keks[i]];
    }
    forall i | 0 <= i < |keks| { CreatedAt(keks, i); }
  }

  lemma {:induction false} CreatedAt(keks: seq<Entry>, i: nat)
    requires DistinctIds(keks) && i < |keks|
    ensures Lookup(keks, keks[i].id).Some? && CreatedOf(keks, keks[i].id) == keks[i].created
  {
    if i > 0 {
      assert forall j :: 0 <= j < |keks[1..]| ==> keks[1..][j] == keks[j + 1];
      CreatedAt(keks[1..], i - 1);
    }
  }

  /** The maps the check looks keys up in: by scope, and each scope's active key. */
  ghost predicate Tabulates(held: map<Text, map<KeyId, Entry>>, active: map<Text, KeyId>, mine: seq<Scope>) {
    forall name ::
      match ScopeNamed(mine, name)
      case None => name !in held
      case Some(s) =>
        name in held && Indexes(held[name], s.keys.keks)
        && if s.keys.keks == [] then name !in active else name in active && active[name] == s.keys.keks[0].id
  }

  ghost predicate Entered(held: map<Text, map<KeyId, Entry>>, active: map<Text, KeyId>, s: Scope) {
    && s.keys.keks != [] && s.name in held && Indexes(held[s.name], s.keys.keks)
    && s.name in active && active[s.name] == s.keys.keks[0].id
  }

  lemma EnteredTabulates(held: map<Text, map<KeyId, Entry>>, active: map<Text, KeyId>, mine: seq<Scope>)
    requires Separate(mine) && forall s :: s in mine ==> Entered(held, active, s)
    requires forall name :: name in held ==> exists s :: s in mine && s.name == name
    ensures Tabulates(held, active, mine)
  {
    hide Indexes;
    forall name
      ensures match ScopeNamed(mine, name)
              case None => name !in held
              case Some(s) => Entered(held, active, s) && s.name == name
    {
      NamedIsUnique(mine, name);
    }
  }

  /** The tables after the first scopes of a bundle. */
  ghost predicate TabulatedTo(held: map<Text, map<KeyId, Entry>>, active: map<Text, KeyId>, mine: seq<Scope>, n: nat)
    requires n <= |mine|
  {
    && (forall j :: 0 <= j < n ==> Entered(held, active, mine[j]))
    && (forall name :: name in held ==> exists j :: 0 <= j < n && mine[j].name == name)
  }

  lemma TabulateNext(held: map<Text, map<KeyId, Entry>>, active: map<Text, KeyId>, mine: seq<Scope>, n: nat,
                     ids: map<KeyId, Entry>)
    requires n < |mine| && Separate(mine) && TabulatedTo(held, active, mine, n)
    requires mine[n].keys.keks != [] && Indexes(ids, mine[n].keys.keks)
    ensures TabulatedTo(held[mine[n].name := ids], active[mine[n].name := mine[n].keys.keks[0].id], mine, n + 1)
  {
    hide Indexes, Overlap;
    var s := mine[n];
    var held', active' := held[s.name := ids], active[s.name := s.keys.keks[0].id];
    forall j | 0 <= j < n + 1
      ensures Entered(held', active', mine[j])
    {
      assert j < n ==> Entered(held, active, mine[j]) && mine[j].name != s.name;
    }
    forall name | name in held'
      ensures exists j :: 0 <= j < n + 1 && mine[j].name == name
    {
      if name == s.name {
        assert mine[n].name == name;
      } else {
        var j :| 0 <= j < n && mine[j].name == name;
      }
    }
  }

  method Tabulate(mine: seq<Scope>) returns (held: map<Text, map<KeyId, Entry>>, active: map<Text, KeyId>)
    requires ValidScopes(mine)
    ensures Tabulates(held, active, mine)
  {
    hide Indexes, Tabulates, Entered, Separate;
    held, active := map[], map[];
    for i := 0 to |mine|
      invariant TabulatedTo(held, active, mine, i)
    {
      var s := mine[i];
      assert ValidScope(s);
      var ids := IndexKeys(s.keys.keks);
      TabulateNext(held, active, mine, i, ids);
      held, active := held[s.name := ids], active[s.name := s.keys.keks[0].id];
    }
    EnteredTabulates(held, active, mine);
  }

  /** The check of one scope against the tables. */
  method CheckScopeKeys(held: map<Text, map<KeyId, Entry>>, active: map<Text, KeyId>, ghost mine: seq<Scope>,
                        name: Text, theirs: seq<KeyId>)
    returns (ok: bool)
    requires Tabulates(held, active, mine)
    ensures ok == AgreesOn(mine, name, theirs)
  {
    assert match ScopeNamed(mine, name)
           case None => name !in held
           case Some(s) => name in held && Indexes(held[name], s.keys.keks);
    if name !in held { return false; }
    var ids := held[name];
    for n := 0 to |theirs|
      invariant forall j :: 0 <= j < n ==> theirs[j] in ids
    {
      if theirs[n] !in ids { return false; }
    }
    if name !in active || active[name] !in theirs { return false; }
    ok := theirs[0] == active[name] || ids[theirs[0]].created <= ids[active[name]].created;
  }

  /** The first replica that serves and disagrees with the bundle. */
  method Mismatch(mine: seq<Scope>, reports: seq<Option<Report>>) returns (first: Option<nat>)
    requires ValidScopes(mine)
    ensures match first
            case None => forall j :: 0 <= j < |reports| && reports[j].Some? ==> Agrees(mine, reports[j].value)
            case Some(i) =>
              && i < |reports| && reports[i].Some? && !Agrees(mine, reports[i].value)
              && forall j :: 0 <= j < i && reports[j].Some? ==> Agrees(mine, reports[j].value)
  {
    hide AgreesOn, Tabulates, ValidScopes;
    var held, active := Tabulate(mine);
    for i := 0 to |reports|
      invariant forall j :: 0 <= j < i && reports[j].Some? ==> Agrees(mine, reports[j].value)
    {
      if reports[i].Some? && reports[i].value.phase == V.Unsealed {
        var keys := reports[i].value.keys;
        var rest := keys.Keys;
        while rest != {}
          invariant rest <= keys.Keys
          invariant forall name :: name in keys && name !in rest ==> AgreesOn(mine, name, keys[name])
          decreases rest
        {
          var name :| name in rest;
          var ok := CheckScopeKeys(held, active, mine, name, keys[name]);
          if !ok { return Some(i); }
          rest := rest - {name};
        }
      }
    }
    first := None;
  }

  /** A bundle's scope beside one a replica serves: it has every key the replica has,
      writes under one the replica has, and that one is not older than the one the
      replica writes under. */
  predicate Supersedes(mine: Scope, theirs: Scope) {
    && (forall i :: 0 <= i < |theirs.keys.keks| ==> HasEntry(mine.keys.keks, theirs.keys.keks[i].id))
    && mine.keys.keks != [] && theirs.keys.keks != []
    && HasEntry(theirs.keys.keks, mine.keys.keks[0].id)
    && exists i :: 0 <= i < |mine.keys.keks| && mine.keys.keks[i].id == theirs.keys.keks[0].id
                   && mine.keys.keks[i].created <= mine.keys.keks[0].created
  }

  predicate HasEntry(keks: seq<Entry>, id: KeyId) { exists i :: 0 <= i < |keks| && keks[i].id == id }

  /** What the check of a report decides, in terms of what is held on both sides: every
      scope the replica serves is in the bundle too, under its name, and the bundle's
      supersedes it. */
  lemma AgreesIff(mine: seq<Scope>, v: V.VaultState)
    requires ValidScopes(mine) && ValidScopes(v.scopes)
    ensures Agrees(mine, ReportOf(v)) <==>
      v.phase == V.Unsealed ==>
        forall t :: t in v.scopes ==> exists m :: m in mine && m.name == t.name && Supersedes(m, t)
  {
    hide V.KeysReported, AgreesOn, Supersedes, ValidScope;
    if v.phase == V.Unsealed {
      forall t | t in v.scopes
        ensures t.name in V.KeysReported(v.scopes)
        ensures AgreesOn(mine, t.name, V.KeysReported(v.scopes)[t.name])
          <==> exists m :: m in mine && m.name == t.name && Supersedes(m, t)
      {
        AgreesOnIff(mine, v.scopes, t);
      }
      forall name | name in V.KeysReported(v.scopes)
        ensures exists t :: t in v.scopes && t.name == name
      {
        V.ReportHasOnly(v.scopes, name);
      }
    }
  }

  lemma AgreesOnIff(mine: seq<Scope>, scopes: seq<Scope>, t: Scope)
    requires ValidScopes(mine) && ValidScopes(scopes) && t in scopes
    ensures t.name in V.KeysReported(scopes)
    ensures AgreesOn(mine, t.name, V.KeysReported(scopes)[t.name])
      <==> exists m :: m in mine && m.name == t.name && Supersedes(m, t)
  {
    hide V.KeysReported, ValidScope, AgreesOn, Supersedes;
    NamedIsUnique(mine, t.name);
    NamedIsUnique(scopes, t.name);
    V.ReportTells(scopes, t.name);
    UsableScope(scopes, t);
    if ScopeNamed(mine, t.name).Some? {
      var m := ScopeNamed(mine, t.name).value;
      var i :| 0 <= i < |mine| && mine[i] == m;
      assert DistinctIds(m.keys.keks) && m.keys.keks != [] by { assert ValidScope(mine[i]); KeysOf(mine[i]); }
      SupersedesIff(mine, m, t, V.KeysReported(scopes)[t.name]);
    } else {
      NobodyAgrees(mine, t.name, V.KeysReported(scopes)[t.name]);
    }
  }

  lemma KeysOf(s: Scope)
    requires ValidScope(s)
    ensures DistinctIds(s.keys.keks) && s.keys.keks != []
  {
  }

  lemma NobodyAgrees(mine: seq<Scope>, name: Text, theirs: seq<KeyId>)
    requires ScopeNamed(mine, name).None?
    ensures !AgreesOn(mine, name, theirs)
  {
  }

  lemma SupersedesIff(mine: seq<Scope>, m: Scope, t: Scope, theirs: seq<KeyId>)
    requires ScopeNamed(mine, t.name) == Some(m) && DistinctIds(m.keys.keks) && m.keys.keks != [] && t.keys.keks != []
    requires |theirs| == |t.keys.keks| && theirs[0] == t.keys.keks[0].id
    requires forall id :: id in theirs <==> Lookup(t.keys.keks, id).Some?
    ensures AgreesOn(mine, t.name, theirs) <==> Supersedes(m, t)
  {
    hide ScopeNamed;
    forall i | 0 <= i < |m.keys.keks| { CreatedAt(m.keys.keks, i); }
    assert forall i :: 0 <= i < |t.keys.keks| ==> t.keys.keks[i].id in theirs;
    assert theirs[0] in theirs;
    assert forall id :: HasEntry(t.keys.keks, id) <==> Lookup(t.keys.keks, id).Some?;
    assert forall id :: HasEntry(m.keys.keks, id) <==> Lookup(m.keys.keks, id).Some?;
  }

  /** What to do about one replica: every reason not to re-seed comes first. */
  function Decide(answer: Option<Report>, mine: nat, allowed: bool, mismatch: bool, unchecked: bool): Action {
    match answer
    case None => Unknown
    case Some(r) =>
      if r.phase == V.Unsealed then Nothing
      else if r.phase == V.OperatorHold then Hold
      else if r.generation > mine || mismatch then Stale
      else if unchecked then Unchecked
      else if !allowed then Budget
      else Reseeds
  }

  /** What the keeper does, and when: it re-seeds exactly a replica that answered that it
      restarted, is not ahead of the bundle, and stands beside no replica that disagrees
      or has not been asked, when it may. */
  lemma DecidesIff(answer: Option<Report>, mine: nat, allowed: bool, mismatch: bool, unchecked: bool)
    ensures
      var d := Decide(answer, mine, allowed, mismatch, unchecked);
      var restarted := answer.Some? && answer.value.phase == V.RestartSealed;
      && (d == Unknown <==> answer.None?)
      && (d == Nothing <==> answer.Some? && answer.value.phase == V.Unsealed)
      && (d == Hold <==> answer.Some? && answer.value.phase == V.OperatorHold)
      && (d == Stale <==> restarted && (answer.value.generation > mine || mismatch))
      && (d == Unchecked <==> restarted && answer.value.generation <= mine && !mismatch && unchecked)
      && (d == Budget <==> restarted && answer.value.generation <= mine && !mismatch && !unchecked && !allowed)
      && (d == Reseeds <==> restarted && answer.value.generation <= mine && !mismatch && !unchecked && allowed)
  {
  }

  // ---------------------------------------------------------------- why the check is enough

  /** The keys a bundle writes under are known not to be lacking anywhere: what asking
      every replica showed. */
  ghost predicate Asked(st: State, scopes: seq<Scope>) {
    forall s :: s in scopes && s.keys.keks != [] ==> KnownEverywhere(st, s.name, s.keys.keks[0].id)
  }

  /** Some replica serves this scope. */
  ghost predicate Served(st: State, name: Text) {
    exists j :: 0 <= j < |st.replicas| && st.replicas[j].phase == V.Unsealed && name in V.KeysReported(st.replicas[j].scopes)
  }

  /** A bundle that has passed the check of every replica, each scope of it being
      served by one of them. */
  ghost predicate Passed(st: State, b: V.BundleValue) {
    && ValidScopes(b.scopes) && Grows(b.scopes, st.operator.scopes)
    && (forall j :: 0 <= j < |st.replicas| ==> Agrees(b.scopes, ReportOf(st.replicas[j])))
    && (forall s :: s in b.scopes ==> Served(st, s.name))
  }

  /** Asking shows it: a replica is sealed, does not serve the scope, or has the key. */
  lemma AskingShows(st: State, b: V.BundleValue, j: nat, s: Scope)
    requires Safe(st) && Passed(st, b) && j < |st.replicas| && s in b.scopes
    ensures
      var f := Fact(j, s.name, s.keys.keks[0].id);
      s.keys.keks != [] && f in Next(st, Poll(j, s.name, s.keys.keks[0].id)).known
  {
    hide Safe, V.KeysReported, Agrees, ValidScope, Grows, HoldsKey, Served;
    UsableScope(b.scopes, s);
    ActiveInReport(b.scopes, s);
    ReportedIsHeld(b.scopes, st.operator, s.name, s.keys.keks[0].id);
    assert Agrees(b.scopes, ReportOf(st.replicas[j]));
    NotLackedThere(b.scopes, st.replicas[j], s);
  }

  lemma NotLackedThere(scopes: seq<Scope>, v: V.VaultState, s: Scope)
    requires ValidScopes(scopes) && Agrees(scopes, ReportOf(v)) && s in scopes && s.keys.keks != []
    ensures NotWithout(v, s.name, s.keys.keks[0].id)
  {
    hide V.KeysReported, Lookup, ValidScope;
    NamedIsUnique(scopes, s.name);
    if v.phase == V.Unsealed && s.name in V.KeysReported(v.scopes) {
      assert AgreesOn(scopes, s.name, V.KeysReported(v.scopes)[s.name]);
    }
  }

  lemma UsableScope(scopes: seq<Scope>, s: Scope)
    requires ValidScopes(scopes) && s in scopes
    ensures s.keys.keks != [] && Lookup(s.keys.keks, s.keys.keks[0].id).Some?
  {
    var i :| 0 <= i < |scopes| && scopes[i] == s;
    assert ValidScope(scopes[i]);
  }

  /** What a serving replica that agrees reports, the bundle holds. */
  lemma AgreedIsHeld(scopes: seq<Scope>, r: Report, name: Text, id: KeyId)
    requires ValidScopes(scopes) && Agrees(scopes, r) && r.phase == V.Unsealed
    requires name in r.keys && id in r.keys[name]
    ensures name in V.KeysReported(scopes) && id in V.KeysReported(scopes)[name]
  {
    hide V.KeysReported, Lookup, ValidScope;
    assert AgreesOn(scopes, name, r.keys[name]);
    V.ReportTells(scopes, name);
  }

  /** A bundle that passed lacks nothing in use. */
  lemma PassedCovers(st: State, i: nat, b: V.BundleValue)
    requires Safe(st) && Passed(st, b)
    ensures Covers(st, i, b.scopes)
  {
    hide Safe, V.KeysReported, Agrees, OperatorReads, Grows, ValidScope;
    SafeParts(st);
    var report := V.KeysReported(b.scopes);
    forall o | o in Promised(st) && o.scope in report
      ensures o.kekId in report[o.scope]
    {
      V.ReportTells(b.scopes, o.scope);
      NamedIsUnique(b.scopes, o.scope);
      assert Served(st, o.scope);
      var j :| 0 <= j < |st.replicas| && st.replicas[j].phase == V.Unsealed && o.scope in V.KeysReported(st.replicas[j].scopes);
      assert Fact(j, o.scope, o.kekId) in st.known;
      assert FactOk(st, Fact(j, o.scope, o.kekId));
      AgreedIsHeld(b.scopes, ReportOf(st.replicas[j]), o.scope, o.kekId);
    }
    forall j, s | 0 <= j < |st.replicas| && j != i && s in st.replicas[j].scopes && s.keys.keks != [] && s.name in report
      ensures s.keys.keks[0].id in report[s.name]
    {
      assert ReplicaOk(st.replicas[j], st.operator);
      ActiveInReport(st.replicas[j].scopes, s);
      AgreedIsHeld(b.scopes, ReportOf(st.replicas[j]), s.name, s.keys.keks[0].id);
    }
  }

  /** The whole fleet answered, the bundle passed, and a replica came back sealed: the
      keeper's push is taken, keeps the fleet safe, and the next replica can be decided
      from the same answers. */
  lemma KeeperReseeds(st: State, i: nat, b: V.BundleValue, allowed: bool, now: int)
    requires Safe(st) && Passed(st, b) && Asked(st, b.scopes) && i < |st.replicas|
    requires b.instance == st.replicas[i].instance
    requires Decide(Some(ReportOf(st.replicas[i])), b.generation, allowed, false, false) == Reseeds
    ensures
      var next := Next(st, Reseed(i, b, now));
      && next.replicas == st.replicas[i := V.Installed(st.replicas[i], b, now)]
      && Safe(next) && AllReadable(next) && Passed(next, b) && Asked(next, b.scopes)
  {
    hide Safe, V.KeysReported, Agrees, Grows, ValidScope, AllReadable, Covers, Reseeded;
    var next := Next(st, Reseed(i, b, now));
    PassedCovers(st, i, b);
    assert Cleared(st, i, b.scopes);
    assert V.Unseal(st.replicas[i], Some(b), RestartReseed, now).1.None? by {
      forall n | 0 <= n < |b.scopes|
        ensures ValidScope(b.scopes[n])
      {
      }
    }
    assert next == Reseeded(st, i, b, now);
    ReseedTaken(st, i, b, now);
    ReseedIsSafe(st, i, b, now);
    SafeReads(next);
    hide Next, V.Unseal;
    AgreesWithItself(b.scopes, V.Installed(st.replicas[i], b, now));
    forall s | s in b.scopes
      ensures s.keys.keks != [] ==> KnownEverywhere(next, s.name, s.keys.keks[0].id)
      ensures Served(next, s.name)
    {
      UsableScope(b.scopes, s);
      ActiveInReport(b.scopes, s);
      ReseedKnowsEverywhere(st, i, b, now, s.name, s.keys.keks[0].id);
      assert next.replicas[i] == V.Installed(st.replicas[i], b, now);
    }
  }

  lemma AgreesWithItself(scopes: seq<Scope>, v: V.VaultState)
    requires ValidScopes(scopes) && v.scopes == scopes
    ensures Agrees(scopes, ReportOf(v))
  {
    hide V.KeysReported;
    forall name | name in V.KeysReported(scopes)
      ensures AgreesOn(scopes, name, V.KeysReported(scopes)[name])
    {
      V.ReportTells(scopes, name);
      NamedIsUnique(scopes, name);
      UsableScope(scopes, ScopeNamed(scopes, name).value);
    }
  }

  /** One pass over the replicas, each decided from the answers taken at its start. */
  ghost function PassFrom(st: State, answers: seq<Report>, b: V.BundleValue, allowed: seq<bool>, now: int, i: nat): State
    requires i <= |answers| == |allowed|
    decreases |answers| - i
  {
    if i == |answers| then st
    else
      var decided := Decide(Some(answers[i]), b.generation, allowed[i], false, false);
      PassFrom(if decided == Reseeds then Next(st, Reseed(i, b, now)) else st, answers, b, allowed, now, i + 1)
  }

  /** A keeper's pass is harmless and does what it decided: every replica it chose to
      re-seed serves the bundle at the end, and everything is readable throughout. */
  lemma {:induction false} KeeperPass(st: State, answers: seq<Report>, b: V.BundleValue, allowed: seq<bool>, now: int, i: nat)
    requires Safe(st) && Passed(st, b) && Asked(st, b.scopes)
    requires i <= |answers| == |allowed| == |st.replicas|
    requires forall j :: i <= j < |answers| ==> answers[j] == ReportOf(st.replicas[j])
    requires forall j :: 0 <= j < |answers| ==> st.replicas[j].instance == b.instance
    ensures
      var end := PassFrom(st, answers, b, allowed, now, i);
      && Safe(end) && AllReadable(end) && |end.replicas| == |st.replicas|
      && forall j :: 0 <= j < |answers| ==>
           end.replicas[j] ==
           if j >= i && Decide(Some(answers[j]), b.generation, allowed[j], false, false) == Reseeds
           then V.Installed(st.replicas[j], b, now) else st.replicas[j]
    decreases |answers| - i
  {
    hide Safe, Passed, Asked, AllReadable, Next, Decide, V.KeysReported;
    if i == |answers| {
      SafeReads(st);
    } else if Decide(Some(answers[i]), b.generation, allowed[i], false, false) == Reseeds {
      KeeperReseeds(st, i, b, allowed[i], now);
      KeeperPass(Next(st, Reseed(i, b, now)), answers, b, allowed, now, i + 1);
    } else {
      KeeperPass(st, answers, b, allowed, now, i + 1);
    }
  }
}
