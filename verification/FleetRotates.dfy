/** The rotation discipline is not only safe: there is always a way to finish a
    rotation, and then a sweep leaves nothing that needs the old keys. */
module FleetRotates {
  import opened Basics
  import opened Keys
  import opened Rotations
  import opened RotationLaws
  import opened Growth
  import opened Identities
  import opened Fleet
  import V = VaultSpec

  // ---------------------------------------------------------------- runs

  lemma {:induction false} AfterAppend(st: State, a: seq<Step>, b: seq<Step>)
    ensures After(st, a + b) == After(After(st, a), b)
    decreases |b|
  {
    hide Next;
    if b == [] {
      assert a + b == a;
    } else {
      var init := b[..|b| - 1];
      assert (a + b)[..|a + b| - 1] == a + init;
      AfterAppend(st, a, init);
    }
  }

  lemma AfterOne(st: State, step: Step)
    ensures After(st, [step]) == Next(st, step)
  {
    hide Next;
    assert [step][..0] == [];
  }

  /** What an operator's machine does to bring a rotation in: it asks and it pushes. */
  predicate AsksAndPushes(run: seq<Step>) { forall i :: 0 <= i < |run| ==> run[i].Poll? || run[i].Push? }

  // ---------------------------------------------------------------- pushing to everyone

  /** The replica takes what it is sent. */
  function Sent(v: V.VaultState, scopes: seq<Scope>, generation: nat, now: int): V.VaultState {
    V.VaultState(v.instance, V.Unsealed, now, [], generation, scopes)
  }

  /** Every key these scopes write under is known to be lacking nowhere. */
  ghost predicate ActiveEverywhere(st: State, scopes: seq<Scope>) {
    forall n :: 0 <= n < |scopes| && scopes[n].keys.keks != [] ==>
      KnownEverywhere(st, scopes[n].name, scopes[n].keys.keks[0].id)
  }

  /** Only the replicas and what is known of them have changed. */
  ghost predicate OnlyReplicas(st: State, st': State) {
    && st'.operator == st.operator && st'.objects == st.objects && st'.pending == st.pending
    && st.known <= st'.known && |st'.replicas| == |st.replicas|
  }

  /** A push that the discipline lets through is taken, whatever the replica was doing,
      and the replica is then known to hold every key it was sent. */
  lemma PushOne(st: State, i: nat, active: map<Text, KeyId>, generation: nat, now: int)
    requires Safe(st) && i < |st.replicas| && WithScopeActive(st.operator, active).Some?
    requires ActiveEverywhere(st, WithScopeActive(st.operator, active).value.scopes)
    requires st.replicas[i].generation < generation
    ensures
      var scopes := WithScopeActive(st.operator, active).value.scopes;
      var next := Next(st, Push(i, active, OperatorUnseal, generation, now));
      && next.replicas == st.replicas[i := Sent(st.replicas[i], scopes, generation, now)]
      && OnlyReplicas(st, next) && Safe(next)
      && (forall n, m :: 0 <= n < |scopes| && 0 <= m < |scopes[n].keys.keks| ==>
            Fact(i, scopes[n].name, scopes[n].keys.keks[m].id) in next.known)
  {
    hide Safe, WithScopeActive, ValidScope, Reported, KnownEverywhere, Grows, V.KeysReported;
    NextSafe(st, Push(i, active, OperatorUnseal, generation, now));
    SafeParts(st);
    ActivationGrowsBothWays(st.operator, active);
    var k := WithScopeActive(st.operator, active).value;
    assert Cleared(st, i, k.scopes) by { ClearedEverywhere(st, i, k.scopes); }
    hide Cleared;
    assert V.AllValid(k.scopes);
    forall n, m | 0 <= n < |k.scopes| && 0 <= m < |k.scopes[n].keys.keks|
      ensures Fact(i, k.scopes[n].name, k.scopes[n].keys.keks[m].id) in Reported(i, V.KeysReported(k.scopes))
    {
      KeyIsReported(k.scopes, i, n, m);
    }
  }

  /** Every key of every scope held is in the report. */
  lemma KeyIsReported(scopes: seq<Scope>, i: nat, n: nat, m: nat)
    requires Separate(scopes) && n < |scopes| && m < |scopes[n].keys.keks|
    ensures Fact(i, scopes[n].name, scopes[n].keys.keks[m].id) in Reported(i, V.KeysReported(scopes))
  {
    hide V.KeysReported;
    V.ReportHasEach(scopes, n);
    assert V.KeysReported(scopes)[scopes[n].name][m] == scopes[n].keys.keks[m].id;
  }

  lemma ClearedEverywhere(st: State, i: nat, scopes: seq<Scope>)
    requires ActiveEverywhere(st, scopes)
    ensures Cleared(st, i, scopes)
  {
  }

  lemma StillEverywhere(st: State, st': State, scopes: seq<Scope>)
    requires st.known <= st'.known && |st'.replicas| == |st.replicas| && ActiveEverywhere(st, scopes)
    ensures ActiveEverywhere(st', scopes)
  {
  }

  /** One push to each of the first n replicas. */
  lemma {:induction false} PushToAll(st: State, n: nat, active: map<Text, KeyId>, generation: nat, now: int)
    returns (run: seq<Step>)
    requires Safe(st) && n <= |st.replicas| && WithScopeActive(st.operator, active).Some?
    requires ActiveEverywhere(st, WithScopeActive(st.operator, active).value.scopes)
    requires forall i :: 0 <= i < |st.replicas| ==> st.replicas[i].generation < generation
    ensures AsksAndPushes(run) && OnlyReplicas(st, After(st, run)) && Safe(After(st, run))
    ensures
      var scopes, end := WithScopeActive(st.operator, active).value.scopes, After(st, run);
      forall i :: 0 <= i < |st.replicas| ==>
        end.replicas[i] == if i < n then Sent(st.replicas[i], scopes, generation, now) else st.replicas[i]
  {
    hide Safe, WithScopeActive, Next, Sent;
    if n == 0 {
      run := [];
    } else {
      var scopes := WithScopeActive(st.operator, active).value.scopes;
      var before := PushToAll(st, n - 1, active, generation, now);
      var mid := After(st, before);
      var step := Push(n - 1, active, OperatorUnseal, generation, now);
      StillEverywhere(st, mid, scopes);
      PushOne(mid, n - 1, active, generation, now);
      run := before + [step];
      AfterAppend(st, before, [step]);
      AfterOne(mid, step);
      hide After;
    }
  }

  // ---------------------------------------------------------------- asking everyone

  /** What a poll of these facts would show, now and after any other poll. */
  ghost predicate Shown(st: State, facts: seq<Fact>) {
    forall i :: 0 <= i < |facts| ==>
      && facts[i].replica < |st.replicas| && HoldsKey(st.operator.scopes, facts[i].scope, facts[i].id)
      && NotWithout(st.replicas[facts[i].replica], facts[i].scope, facts[i].id)
  }

  lemma {:induction false} PollAll(st: State, facts: seq<Fact>) returns (run: seq<Step>)
    requires Safe(st) && Shown(st, facts)
    ensures AsksAndPushes(run)
    ensures After(st, run) == st.(known := st.known + (set f | f in facts)) && Safe(After(st, run))
  {
    hide Safe, HoldsKey, NotWithout;
    if facts == [] {
      run := [];
      assert st.known + (set f | f in facts) == st.known;
    } else {
      var init, f := facts[..|facts| - 1], facts[|facts| - 1];
      var before := PollAll(st, init);
      var mid, step := After(st, before), Poll(f.replica, f.scope, f.id);
      NextSafe(mid, step);
      run := before + [step];
      AfterAppend(st, before, [step]);
      AfterOne(mid, step);
      hide After;
      assert facts == init + [f];
      assert st.known + (set g | g in init) + {f} == st.known + (set g | g in facts);
    }
  }

  lemma {:induction false} Listed(facts: set<Fact>) returns (list: seq<Fact>)
    ensures (set f | f in list) == facts
    decreases facts
  {
    if facts == {} {
      list := [];
    } else {
      var f :| f in facts;
      var rest := Listed(facts - {f});
      list := rest + [f];
      assert (set g | g in list) == (set g | g in rest) + {f};
    }
  }

  /** Once every serving replica holds what the operator holds, asking is enough for a
      push of any choice of active keys. */
  lemma AskForAll(st: State, active: map<Text, KeyId>) returns (run: seq<Step>)
    requires Safe(st) && WithScopeActive(st.operator, active).Some?
    requires forall j :: 0 <= j < |st.replicas| ==>
      st.replicas[j].phase != V.Unsealed || Grows(st.operator.scopes, st.replicas[j].scopes)
    ensures AsksAndPushes(run) && OnlyReplicas(st, After(st, run)) && Safe(After(st, run))
    ensures After(st, run).replicas == st.replicas
    ensures ActiveEverywhere(After(st, run), WithScopeActive(st.operator, active).value.scopes)
  {
    hide Safe, WithScopeActive, Grows, HoldsKey, NotWithout, After;
    var k := WithScopeActive(st.operator, active).value;
    var facts := ActiveFacts(|st.replicas|, k.scopes);
    HoldingClears(st, 0, active);
    var list := Listed(facts);
    forall i | 0 <= i < |list|
      ensures
        && list[i].replica < |st.replicas| && HoldsKey(st.operator.scopes, list[i].scope, list[i].id)
        && NotWithout(st.replicas[list[i].replica], list[i].scope, list[i].id)
    {
      assert list[i] in (set f | f in list);
      PollShows(st, list[i], k.scopes);
    }
    run := PollAll(st, list);
    hide Next;
    forall n | 0 <= n < |k.scopes| && k.scopes[n].keys.keks != []
      ensures KnownEverywhere(After(st, run), k.scopes[n].name, k.scopes[n].keys.keks[0].id)
    {
      forall j | 0 <= j < |st.replicas|
        ensures Fact(j, k.scopes[n].name, k.scopes[n].keys.keks[0].id) in facts
      {
      }
    }
  }

  lemma PollShows(st: State, f: Fact, scopes: seq<Scope>)
    requires Safe(st) && f in ActiveFacts(|st.replicas|, scopes)
    requires f in Next(st, Poll(f.replica, f.scope, f.id)).known
    ensures f.replica < |st.replicas| && HoldsKey(st.operator.scopes, f.scope, f.id)
    ensures NotWithout(st.replicas[f.replica], f.scope, f.id)
  {
    hide HoldsKey, NotWithout;
    if f in st.known { assert FactOk(st, f); }
  }

  // ---------------------------------------------------------------- a rotation finishes

  /** Every replica has taken these scopes, whatever it was before. */
  ghost predicate AllServe(now': State, before: seq<V.VaultState>, scopes: seq<Scope>, generation: nat, now: int) {
    && |now'.replicas| == |before|
    && forall i :: 0 <= i < |before| ==> now'.replicas[i] == Sent(before[i], scopes, generation, now)
  }

  /** The keys the scopes of a rotated keyring used before. */
  ghost function Before(k: Keyring, minted: seq<Entry>): map<Text, KeyId>
    requires ValidKeyring(k) && |minted| == |k.scopes|
  {
    PreviousOf(Report(k, minted))
  }

  /** With the new keys held and the old ones in use, nothing is written under a key
      that was not known before. */
  lemma HeldIsKnown(st: State, minted: seq<Entry>, rotated: State)
    requires ValidKeyring(st.operator) && |minted| == |st.operator.scopes| && Rotations.Rotate(st.operator, minted).Some?
    requires rotated == st.(operator := Rotations.Rotate(st.operator, minted).value)
    requires ActiveEverywhere(st, st.operator.scopes)
    ensures WithScopeActive(rotated.operator, Before(st.operator, minted)).Some?
    ensures ActiveEverywhere(rotated, WithScopeActive(rotated.operator, Before(st.operator, minted)).value.scopes)
  {
    hide WithScopeActive, Rotations.Rotate, PreviousOf, KnownEverywhere, ValidKeyring;
    HoldThenActivate(st.operator, minted);
    var held := WithScopeActive(rotated.operator, Before(st.operator, minted)).value.scopes;
    forall n | 0 <= n < |held| && held[n].keys.keks != []
      ensures KnownEverywhere(rotated, held[n].name, held[n].keys.keks[0].id)
    {
      UsableAt(st.operator, n);
      assert held[n] == Holding(st.operator.scopes[n], minted[n]);
      assert KnownEverywhere(st, held[n].name, held[n].keys.keks[0].id);
      KnownAlike(st, rotated, held[n].name, held[n].keys.keks[0].id);
    }
  }

  lemma KnownAlike(st: State, st': State, name: Text, id: KeyId)
    requires st'.known == st.known && st'.replicas == st.replicas && KnownEverywhere(st, name, id)
    ensures KnownEverywhere(st', name, id)
  {
  }

  /** First the new keys go out to be held. */
  lemma HoldNew(st: State, minted: seq<Entry>, generation: nat, now: int) returns (run: seq<Step>)
    requires Safe(st) && |minted| == |st.operator.scopes| && Rotations.Rotate(st.operator, minted).Some?
    requires ActiveEverywhere(st, st.operator.scopes)
    requires forall i :: 0 <= i < |st.replicas| ==> st.replicas[i].generation < generation
    ensures AsksAndPushes(run) && ValidKeyring(st.operator)
    ensures
      var rotated := Next(st, Step.Rotate(minted));
      var held, end := WithScopeActive(rotated.operator, Before(st.operator, minted)), After(rotated, run);
      && rotated == st.(operator := Rotations.Rotate(st.operator, minted).value)
      && held.Some? && OnlyReplicas(rotated, end) && Safe(end)
      && AllServe(end, st.replicas, held.value.scopes, generation, now)
      && Grows(end.operator.scopes, held.value.scopes)
  {
    hide Safe, WithScopeActive, Rotations.Rotate, Grows, ActiveEverywhere, Sent, After, ValidKeyring, Before;
    var rotated := Next(st, Step.Rotate(minted));
    NextSafe(st, Step.Rotate(minted));
    assert rotated == st.(operator := Rotations.Rotate(st.operator, minted).value);
    hide Next;
    SafeParts(st);
    SafeParts(rotated);
    HeldIsKnown(st, minted, rotated);
    ActivationGrowsBothWays(rotated.operator, Before(st.operator, minted));
    run := PushToAll(rotated, |st.replicas|, Before(st.operator, minted), generation, now);
  }

  lemma NothingNamed(k: Keyring)
    ensures WithScopeActive(k, map[]).Some? && WithScopeActive(k, map[]).value.scopes == k.scopes
  {
  }

  /** From any safe state whose active keys no replica lacks, a rotation can be brought
      in with nothing but questions and pushes: first the new keys, held behind the old
      ones, then the new keys in use. At the end every replica, whatever it was doing
      before, serves exactly the rotated keyring, everything is still readable, and no
      replica lacks an active key. */
  lemma RotationFinishes(st: State, minted: seq<Entry>, generation: nat, now: int) returns (run: seq<Step>)
    requires Safe(st) && |minted| == |st.operator.scopes| && Rotations.Rotate(st.operator, minted).Some?
    requires ActiveEverywhere(st, st.operator.scopes)
    requires forall i :: 0 <= i < |st.replicas| ==> st.replicas[i].generation < generation
    ensures AsksAndPushes(run)
    ensures
      var end := After(Next(st, Step.Rotate(minted)), run);
      && end.operator == Rotations.Rotate(st.operator, minted).value
      && end.objects == st.objects && end.pending == st.pending
      && AllServe(end, st.replicas, end.operator.scopes, generation + 1, now)
      && Safe(end) && AllReadable(end) && ActiveEverywhere(end, end.operator.scopes)
  {
    hide Safe, WithScopeActive, Rotations.Rotate, Grows, AllReadable, ActiveEverywhere, After, ValidKeyring, Before, Next;
    var rotated := Next(st, Step.Rotate(minted));
    var first := HoldNew(st, minted, generation, now);
    var held := After(rotated, first);
    NothingNamed(held.operator);
    var ask := AskForAll(held, map[]);
    var asked := After(held, ask);
    var second := PushToAll(asked, |st.replicas|, map[], generation + 1, now);
    var end := After(asked, second);
    run := first + ask + second;
    AfterAppend(rotated, first, ask);
    AfterAppend(rotated, first + ask, second);
    SafeReads(end);
    StillEverywhere(asked, end, asked.operator.scopes);
  }

  // ---------------------------------------------------------------- and the old keys may go

  /** An object re-wrapped under its scope's active key. */
  function Current(scopes: seq<Scope>, o: Stored): Stored {
    match ScopeOwning(scopes, o.key)
    case None => o
    case Some(s) => if s.keys.keks == [] then o else o.(kekId := s.keys.keks[0].id, kek := s.keys.keks[0].key)
  }

  lemma RekeyOne(st: State, o: Stored)
    requires Safe(st) && ActiveEverywhere(st, st.operator.scopes) && o in st.objects
    ensures Safe(Next(st, Rekey(o, map[])))
    ensures Next(st, Rekey(o, map[])) == st.(objects := st.objects - {o} + {Current(st.operator.scopes, o)})
  {
    hide Safe, WithScopeActive, ValidScope, KnownEverywhere, ScopeOwning, Reads;
    NextSafe(st, Rekey(o, map[]));
    NothingNamed(st.operator);
    SafeParts(st);
    assert o in Promised(st) && OperatorReads(st.operator, o);
    var s := ScopeOwning(st.operator.scopes, o.key).value;
    OwnerIsUnique(st.operator.scopes, o.key);
    var n :| 0 <= n < |st.operator.scopes| && st.operator.scopes[n] == s;
    assert Usable(s) by { assert ValidScope(st.operator.scopes[n]); UsableAt(st.operator, n); }
    assert KnownEverywhere(st, s.name, s.keys.keks[0].id);
  }

  lemma UsableAt(k: Keyring, n: nat)
    requires ValidKeyring(k) && n < |k.scopes|
    ensures Usable(k.scopes[n])
  {
    assert ValidScope(k.scopes[n]);
  }

  /** Re-wrapping twice is re-wrapping once. */
  lemma CurrentTwice(scopes: seq<Scope>, o: Stored)
    ensures Current(scopes, Current(scopes, o)) == Current(scopes, o)
  {
    hide ScopeOwning;
  }

  /** What a sweep has come to: re-wrapped so far, and the rest as it was. */
  ghost predicate SweptTo(st: State, end: State, list: seq<Stored>) {
    && end == st.(objects := end.objects)
    && (forall o :: o in end.objects ==>
          o in st.objects || exists i :: 0 <= i < |list| && o == Current(st.operator.scopes, list[i]))
    && (forall o :: o in end.objects && o in list ==> o == Current(st.operator.scopes, o))
    && (forall o :: o in st.objects ==> o in end.objects || o in list)
    && (forall i :: 0 <= i < |list| ==> Current(st.operator.scopes, list[i]) in end.objects)
  }

  lemma SweepOne(st: State, end: State, list: seq<Stored>, o: Stored, end': State)
    requires SweptTo(st, end, list) && o in st.objects
    requires end' == if o in end.objects then end.(objects := end.objects - {o} + {Current(st.operator.scopes, o)}) else end
    ensures SweptTo(st, end', list + [o])
  {
    hide Current;
    var scopes, longer := st.operator.scopes, list + [o];
    CurrentTwice(scopes, o);
    assert longer[|list|] == o && forall i :: 0 <= i < |list| ==> longer[i] == list[i];
    if o !in end.objects {
      var i :| 0 <= i < |list| && list[i] == o;
    }
    forall i | 0 <= i < |list|
      ensures Current(scopes, list[i]) in end'.objects
    {
      CurrentTwice(scopes, list[i]);
    }
    forall p | p in end'.objects
      ensures p in st.objects || exists i :: 0 <= i < |longer| && p == Current(scopes, longer[i])
    {
      if p in end.objects && p !in st.objects {
        var i :| 0 <= i < |list| && p == Current(scopes, list[i]);
        assert p == Current(scopes, longer[i]);
      }
    }
  }

  lemma {:induction false} Sweep(st: State, list: seq<Stored>) returns (run: seq<Step>)
    requires Safe(st) && ActiveEverywhere(st, st.operator.scopes) && forall o :: o in list ==> o in st.objects
    ensures forall i :: 0 <= i < |run| ==> run[i].Rekey?
    ensures SweptTo(st, After(st, run), list) && Safe(After(st, run))
  {
    hide Safe, ActiveEverywhere, Current, Next;
    if list == [] {
      run := [];
    } else {
      var init, o := list[..|list| - 1], list[|list| - 1];
      assert list == init + [o];
      var before := Sweep(st, init);
      var mid, step := After(st, before), Rekey(o, map[]);
      StillEverywhere(st, mid, st.operator.scopes);
      run := before + [step];
      AfterAppend(st, before, [step]);
      AfterOne(mid, step);
      if o in mid.objects { RekeyOne(mid, o); } else { NothingToRekey(mid, o); }
      hide After;
      SweepOne(st, mid, init, o, Next(mid, step));
    }
  }

  lemma NothingToRekey(st: State, o: Stored)
    requires o !in st.objects
    ensures Next(st, Rekey(o, map[])) == st
  {
  }

  lemma {:induction false} ListedObjects(objects: set<Stored>) returns (list: seq<Stored>)
    ensures forall o :: o in list <==> o in objects
    decreases objects
  {
    if objects == {} {
      list := [];
    } else {
      var o :| o in objects;
      var rest := ListedObjects(objects - {o});
      list := rest + [o];
    }
  }

  /** A scope with nothing but its active key. */
  function ActiveOnly(s: Scope): Scope {
    if s.keys.keks == [] then s else s.(keys := s.keys.(keks := [s.keys.keks[0]]))
  }

  function AllActiveOnly(scopes: seq<Scope>): seq<Scope> {
    if scopes == [] then [] else [ActiveOnly(scopes[0])] + AllActiveOnly(scopes[1..])
  }

  lemma {:induction false} OwningActiveOnly(scopes: seq<Scope>, key: Text)
    ensures match ScopeOwning(scopes, key)
            case None => ScopeOwning(AllActiveOnly(scopes), key).None?
            case Some(s) => ScopeOwning(AllActiveOnly(scopes), key) == Some(ActiveOnly(s))
  {
    if scopes != [] { OwningActiveOnly(scopes[1..], key); }
  }

  /** Then a sweep leaves every object under its scope's active key, in a safe fleet as
      it was otherwise, and whoever holds the active keys alone reads everything. */
  lemma SweepRetires(st: State) returns (run: seq<Step>)
    requires Safe(st) && ActiveEverywhere(st, st.operator.scopes)
    ensures forall i :: 0 <= i < |run| ==> run[i].Rekey?
    ensures
      var end := After(st, run);
      && end == st.(objects := end.objects) && Safe(end)
      && (forall o :: o in end.objects <==> exists p :: p in st.objects && o == Current(st.operator.scopes, p))
      && (forall o :: o in end.objects ==> Reads(AllActiveOnly(st.operator.scopes), o))
  {
    hide Safe, ActiveEverywhere, Current, Next, After, Reads, AllActiveOnly;
    var list := ListedObjects(st.objects);
    run := Sweep(st, list);
    var end := After(st, run);
    forall o
      ensures o in end.objects <==> exists p :: p in st.objects && o == Current(st.operator.scopes, p)
    {
      if o in end.objects && o in st.objects { assert o == Current(st.operator.scopes, o); }
      if p :| p in st.objects && o == Current(st.operator.scopes, p) {
        var i :| 0 <= i < |list| && list[i] == p;
      }
    }
    forall o | o in end.objects
      ensures Reads(AllActiveOnly(st.operator.scopes), o)
    {
      var p :| p in st.objects && o == Current(st.operator.scopes, p);
      SafeParts(st);
      CurrentReads(st.operator, p);
    }
  }

  lemma CurrentReads(k: Keyring, p: Stored)
    requires ValidKeyring(k) && OperatorReads(k, p)
    ensures Reads(AllActiveOnly(k.scopes), Current(k.scopes, p))
  {
    hide AllActiveOnly, ValidScope, Separate;
    OwningActiveOnly(k.scopes, p.key);
    OwnerIsUnique(k.scopes, p.key);
    var s := ScopeOwning(k.scopes, p.key).value;
    var n :| 0 <= n < |k.scopes| && k.scopes[n] == s;
    UsableAt(k, n);
  }
}
