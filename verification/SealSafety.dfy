/** What no sequence of control requests, from whomever, can do to a keyholder. */
module SealSafety {
  import opened Basics
  import opened Keys
  import opened Identities
  import opened Bundles
  import opened Control
  import V = VaultSpec

  /** The state after a run of control requests. */
  function After(v: V.VaultState, run: seq<Request>): V.VaultState {
    if run == [] then v else Handle(After(v, run[..|run| - 1]), run[|run| - 1]).0
  }

  /** The state before the n-th request of a run. */
  function At(v: V.VaultState, run: seq<Request>, n: nat): V.VaultState
    requires n <= |run|
  {
    After(v, run[..n])
  }

  /** A vault that is not serving holds no keys; one that is can route every key;
      and a reason for a hold is kept only while there is one. */
  predicate Sound(v: V.VaultState) {
    && (v.phase != V.Unsealed ==> v.scopes == [])
    && ValidScopes(v.scopes)
    && (v.phase != V.OperatorHold ==> v.holdReason == [])
  }

  predicate FromOperator(r: Request, instance: Text) {
    IdentityFrom(r.peer, instance).Ok? && IdentityFrom(r.peer, instance).value.role == Operator
  }

  predicate FromKeeper(r: Request, instance: Text) {
    IdentityFrom(r.peer, instance).Ok? && IdentityFrom(r.peer, instance).value.role == Keeper
  }

  /** This request installed the keys it delivered. */
  predicate Installs(v: V.VaultState, r: Request) {
    && r.route.Unseal? && r.route.body.Fields?
    && Handle(v, r) == (V.Installed(v, r.route.body.bundle, r.now), Done)
    && !V.Repeats(v, r.route.body.bundle)
  }

  // ---------------------------------------------------------------- one request

  lemma StepKeeps(v: V.VaultState, r: Request)
    ensures Handle(v, r).0.instance == v.instance
    ensures Handle(v, r).0.generation >= v.generation
    ensures Sound(v) ==> Sound(Handle(v, r).0)
  {
    hide ControlCaller, ValidScope, ReadIntent, Blank;
  }

  /** A request that fails changes nothing. */
  lemma FailureChangesNothing(v: V.VaultState, r: Request)
    ensures Handle(v, r).1.Failed? ==> Handle(v, r).0 == v
  {
    hide ControlCaller, ValidBundle, ReadIntent;
  }

  /** Keys enter only by a push the caller's role may make, of a usable bundle for
      this instance at a generation not behind; and every key a request leaves
      serving was serving already or came that way. */
  lemma KeysEnterByPush(v: V.VaultState, r: Request)
    ensures Handle(v, r).0.scopes != v.scopes && Handle(v, r).0.scopes != [] ==> Installs(v, r)
    ensures Handle(v, r).0.phase == V.Unsealed && v.phase != V.Unsealed ==> Installs(v, r)
    ensures Installs(v, r) ==>
      var b := r.route.body.bundle;
      && ControlCaller(r.peer, v.instance).Ok?
      && ReadIntent(r.route.intent).Some?
      && MayPush(ControlCaller(r.peer, v.instance).value, ReadIntent(r.route.intent).value)
      && ValidBundle(b) && b.instance == v.instance && b.generation >= v.generation
      && (v.phase == V.Unsealed ==> b.generation > v.generation)
  {
    hide ControlCaller, ValidBundle, ReadIntent;
  }

  /** What a pusher writes for a person's claim, for a restart's, and for a hand-over;
      saying nothing claims a restart. */
  predicate ClaimsPerson(raw: Text) { raw == Ascii("operator-unseal") }

  predicate ClaimsRestart(raw: Text) { raw == Ascii("restart-reseed") || raw == [] }

  predicate ClaimsHandOver(raw: Text) { raw == Ascii("hand-over") }

  lemma ClaimsApart(raw: Text)
    ensures ReadIntent(raw) == Some(OperatorUnseal) <==> ClaimsPerson(raw)
    ensures ReadIntent(raw) == Some(RestartReseed) <==> ClaimsRestart(raw)
    ensures ReadIntent(raw) == Some(HandOver) <==> ClaimsHandOver(raw)
    ensures ReadIntent(raw) == None <==> !ClaimsPerson(raw) && !ClaimsRestart(raw) && !ClaimsHandOver(raw)
  {
    assert |Ascii("operator-unseal")| == 15 && |Ascii("restart-reseed")| == 14 && |Ascii("hand-over")| == 9;
  }

  /** What the caller claims is its to claim. */
  predicate MayClaim(r: Request, instance: Text)
    requires r.route.Unseal?
  {
    || (FromOperator(r, instance)
        && (ClaimsPerson(r.route.intent) || ClaimsRestart(r.route.intent) || ClaimsHandOver(r.route.intent)))
    || (FromKeeper(r, instance) && ClaimsRestart(r.route.intent))
  }

  /** And it delivers a bundle that can be read. */
  predicate Delivers(r: Request) {
    r.route.Unseal? && r.route.sealedType && r.route.body.Fields? && ValidBundle(r.route.body.bundle)
  }

  /** A claim fits the phase it is made in: a person's any, a restart's one who
      restarted, a hand-over's one who serves. */
  predicate ClaimFits(raw: Text, phase: V.Phase) {
    match phase
    case RestartSealed => !ClaimsHandOver(raw)
    case Unsealed => !ClaimsRestart(raw)
    case OperatorHold => ClaimsPerson(raw)
  }

  /** Exactly which requests put keys in, and what they leave behind. */
  lemma InstallsIff(v: V.VaultState, r: Request)
    ensures Installs(v, r) <==>
      && Delivers(r) && MayClaim(r, v.instance) && ClaimFits(r.route.intent, v.phase)
      && var b := r.route.body.bundle;
      && b.instance == v.instance
      && b.generation >= v.generation && (v.phase == V.Unsealed ==> b.generation > v.generation)
    ensures Installs(v, r) ==>
      var b := r.route.body.bundle;
      Handle(v, r) == (V.VaultState(v.instance, V.Unsealed, r.now, [], b.generation, b.scopes), Done)
  {
    hide ValidScope, Separate, Blank, ClaimsPerson, ClaimsRestart, ClaimsHandOver, ReadIntent, Ascii, IdentityFrom;
    if r.route.Unseal? {
      ClaimsApart(r.route.intent);
      ClaimsDiffer(r.route.intent);
    }
  }

  lemma ClaimsDiffer(raw: Text)
    ensures !(ClaimsPerson(raw) && ClaimsRestart(raw)) && !(ClaimsPerson(raw) && ClaimsHandOver(raw))
    ensures !(ClaimsRestart(raw) && ClaimsHandOver(raw))
  {
    assert |Ascii("operator-unseal")| == 15 && |Ascii("restart-reseed")| == 14 && |Ascii("hand-over")| == 9;
  }

  /** An operator's seal does what it says, from whatever state: it stops the vault,
      drops its keys and keeps its generation, and it is a hold, with its reason, when
      it asks for one and otherwise leaves the vault as one that restarted. */
  lemma OperatorSeals(v: V.VaultState, r: Request)
    requires FromOperator(r, v.instance) && r.route.Seal?
    ensures Handle(v, r).1 == Done
    ensures
      var w := Handle(v, r).0;
      && w.phase == (if r.route.hold then V.OperatorHold else V.RestartSealed)
      && w.holdReason == (if r.route.hold then r.route.reason else [])
      && w.scopes == [] && w.generation == v.generation && w.instance == v.instance && w.since == r.now
  {
    hide IdentityFrom;
  }

  /** And its release turns a hold, and only a hold, into a restart's seal. */
  lemma OperatorReleases(v: V.VaultState, r: Request)
    requires FromOperator(r, v.instance) && r.route.ReleaseHold?
    ensures Handle(v, r).1 == Done
    ensures v.phase != V.OperatorHold ==> Handle(v, r).0 == v
    ensures v.phase == V.OperatorHold ==>
      Handle(v, r).0 == V.VaultState(v.instance, V.RestartSealed, r.now, [], v.generation, v.scopes)
  {
    hide IdentityFrom;
  }

  /** Nobody else seals or releases anything. */
  lemma OthersMayNot(v: V.VaultState, r: Request)
    requires !FromOperator(r, v.instance) && !r.route.Unseal?
    ensures Handle(v, r).0 == v && Handle(v, r).1.Failed? && Handle(v, r).1.failure.Auth?
  {
    hide IdentityFrom;
  }

  /** Why a push of a readable bundle by a caller who may make it is refused; and
      that pushing what is being served again is no refusal. */
  lemma PushRefusedWhy(v: V.VaultState, r: Request)
    requires Delivers(r) && MayClaim(r, v.instance)
    ensures
      var b, raw, outcome := r.route.body.bundle, r.route.intent, Handle(v, r).1;
      var ours := b.instance == v.instance;
      && (outcome == Failed(Refused(V.InstanceMismatch)) <==> !ours)
      && (outcome == Failed(Refused(V.NotServing)) <==> ours && ClaimsHandOver(raw) && v.phase != V.Unsealed)
      && (outcome == Failed(Refused(V.AlreadyServing)) <==> ours && ClaimsRestart(raw) && v.phase == V.Unsealed)
      && (outcome == Failed(Refused(V.Held)) <==> ours && ClaimsRestart(raw) && v.phase == V.OperatorHold)
      && (outcome == Failed(Refused(V.GenerationTooOld)) <==> ours && ClaimFits(raw, v.phase) && b.generation < v.generation)
      && (outcome == Done <==> ours && ClaimFits(raw, v.phase) && b.generation >= v.generation)
      && (outcome == Done && v.phase == V.Unsealed && b.generation == v.generation ==> Handle(v, r).0 == v)
  {
    hide ValidScope, Separate, Blank, ClaimsPerson, ClaimsRestart, ClaimsHandOver, ReadIntent, Ascii, IdentityFrom;
    ClaimsApart(r.route.intent);
    ClaimsDiffer(r.route.intent);
  }

  /** Why any other push is turned away, before the vault is asked. */
  lemma PushTurnedAwayWhy(v: V.VaultState, r: Request)
    requires r.route.Unseal? && !(Delivers(r) && MayClaim(r, v.instance))
    ensures
      var raw, body, outcome := r.route.intent, r.route.body, Handle(v, r).1;
      var may := MayClaim(r, v.instance);
      var caller := FromOperator(r, v.instance) || FromKeeper(r, v.instance);
      var claims := ClaimsPerson(raw) || ClaimsRestart(raw) || ClaimsHandOver(raw);
      && (outcome == Failed(Auth(NoIdentity)) <==> r.peer.None?)
      && (outcome == Failed(Auth(NotAuthorized)) <==> r.peer.Some? && (!caller || (claims && !may)))
      && (outcome == Failed(UnknownIntent) <==> caller && !claims)
      && (outcome == Failed(BadContentType) <==> may && !r.route.sealedType)
      && (outcome == Failed(BadBody) <==> may && r.route.sealedType && body.Unreadable?)
      && (outcome == Failed(EnvelopeRefused) <==> may && r.route.sealedType && body.NotOpened?)
      && (outcome == Failed(BundleInvalid) <==> may && r.route.sealedType && (body.NotParsed? || body.Fields?))
      && Handle(v, r).0 == v
  {
    hide ValidBundle, ClaimsPerson, ClaimsRestart, ClaimsHandOver, ReadIntent, Ascii, IdentityFrom, V.Unseal;
    ClaimsApart(r.route.intent);
    ClaimsDiffer(r.route.intent);
    CallerErrors(r.peer, v.instance);
  }

  lemma CallerErrors(peer: Option<seq<Text>>, instance: Text)
    ensures peer.None? ==> IdentityFrom(peer, instance) == Err(NoIdentity)
    ensures peer.Some? && IdentityFrom(peer, instance).Err? ==> IdentityFrom(peer, instance) == Err(NotAuthorized)
  {
    hide ParseIdentity;
  }

  /** Only an operator's request leaves a hold. */
  lemma HoldIsTheOperators(v: V.VaultState, r: Request)
    requires v.phase == V.OperatorHold && !FromOperator(r, v.instance)
    ensures Handle(v, r).0 == v
  {
    hide ValidBundle, ReadIntent;
  }

  /** And an operator leaves it only by saying so: a seal, a release, or an unseal
      claimed as a person's. A conservative claim does not. */
  lemma HoldIsLeftDeliberately(v: V.VaultState, r: Request)
    requires v.phase == V.OperatorHold && Handle(v, r).0 != v
    ensures FromOperator(r, v.instance)
    ensures r.route.Unseal? ==> ReadIntent(r.route.intent) == Some(OperatorUnseal) && Installs(v, r)
    ensures r.route.ReleaseHold? ==>
      Handle(v, r).0 == v.(phase := V.RestartSealed, holdReason := [], since := r.now)
  {
    hide ValidBundle, ReadIntent;
  }

  /** And only an operator's request places one. */
  lemma HoldIsPlacedByTheOperator(v: V.VaultState, r: Request)
    requires v.phase != V.OperatorHold && Handle(v, r).0.phase == V.OperatorHold
    ensures FromOperator(r, v.instance) && r.route.Seal? && r.route.hold
  {
    hide ValidBundle, ReadIntent;
  }

  /** A keeper's request does nothing but restore keys to a replica that restarted. */
  lemma KeeperOnlyRestores(v: V.VaultState, r: Request)
    requires FromKeeper(r, v.instance) && Handle(v, r).0 != v
    ensures v.phase == V.RestartSealed && Installs(v, r)
    ensures ReadIntent(r.route.intent) == Some(RestartReseed)
  {
    hide ValidBundle, ReadIntent;
  }

  /** A hand-over reaches only a replica that serves, and leaves it serving. */
  lemma HandOverNeverUnseals(v: V.VaultState, r: Request)
    requires r.route.Unseal? && ReadIntent(r.route.intent) == Some(HandOver)
    requires Handle(v, r).0 != v
    ensures v.phase == V.Unsealed && Handle(v, r).0.phase == V.Unsealed
  {
    hide ValidBundle, ReadIntent, ControlCaller;
  }

  // ---------------------------------------------------------------- whole runs

  lemma AtNext(v: V.VaultState, run: seq<Request>, n: nat)
    requires n < |run|
    ensures At(v, run, n + 1) == Handle(At(v, run, n), run[n]).0
  {
    assert run[..n + 1][..n] == run[..n];
  }

  /** Over any run the generation never goes back, the instance never changes, and
      a vault that does not serve holds nothing. */
  lemma {:induction false} RunKeeps(v: V.VaultState, run: seq<Request>, m: nat, n: nat)
    requires Sound(v) && m <= n <= |run|
    ensures Sound(At(v, run, n))
    ensures At(v, run, m).instance == At(v, run, n).instance == v.instance
    ensures v.generation <= At(v, run, m).generation <= At(v, run, n).generation
  {
    hide Handle, Sound;
    if n > 0 {
      AtNext(v, run, n - 1);
      StepKeeps(At(v, run, n - 1), run[n - 1]);
      RunKeeps(v, run, if m == n then m - 1 else m, n - 1);
    }
  }

  /** A hold outlives everything but the operator: through any run in which no
      request comes from an operator's leaf, the vault stays exactly as held. */
  lemma {:induction false} HoldSurvives(v: V.VaultState, run: seq<Request>)
    requires v.phase == V.OperatorHold
    requires forall n :: 0 <= n < |run| ==> !FromOperator(run[n], v.instance)
    ensures After(v, run) == v
  {
    if run != [] {
      HoldSurvives(v, run[..|run| - 1]);
      HoldIsTheOperators(v, run[|run| - 1]);
    }
  }

  /** A hold that is asked for is placed, and from then on nothing serves, whatever
      comes from anybody but an operator: whoever asks finds the vault held, for the
      reason that was given. */
  lemma HoldHolds(v: V.VaultState, r: Request, run: seq<Request>)
    requires FromOperator(r, v.instance) && r.route.Seal? && r.route.hold
    requires forall n :: 0 <= n < |run| ==> !FromOperator(run[n], v.instance)
    ensures
      After(Handle(v, r).0, run)
      == V.VaultState(v.instance, V.OperatorHold, r.now, r.route.reason, v.generation, [])
  {
    OperatorSeals(v, r);
    hide FromOperator;
    HoldSurvives(Handle(v, r).0, run);
  }

  /** If a hold has gone by the end of a run, an operator's request ended it. */
  lemma HoldEndsByOperator(v: V.VaultState, run: seq<Request>)
    requires v.phase == V.OperatorHold && After(v, run).phase != V.OperatorHold
    ensures exists n :: 0 <= n < |run| && FromOperator(run[n], v.instance)
  {
    if forall n :: 0 <= n < |run| ==> !FromOperator(run[n], v.instance) {
      HoldSurvives(v, run);
      assert false;
    }
  }

  /** Whatever serves at the end of a run was delivered by a push of that run and
      untouched since, unless it was there from the start. */
  lemma {:induction false} ServedKeysWereDelivered(v: V.VaultState, run: seq<Request>)
    requires Sound(v) && After(v, run).phase == V.Unsealed
    ensures (v.phase == V.Unsealed && After(v, run) == v)
      || exists n :: 0 <= n < |run| && Installs(At(v, run, n), run[n])
           && After(v, run) == V.Installed(At(v, run, n), run[n].route.body.bundle, run[n].now)
  {
    if run != [] {
      hide Handle, Sound;
      var last := |run| - 1;
      var init := run[..last];
      var before := After(v, init);
      assert run[..last] == init;
      RunKeeps(v, init, 0, |init|);
      assert init[..|init|] == init;
      ServingStep(before, run[last]);
      if Installs(before, run[last]) {
        assert At(v, run, last) == before;
      } else {
        ServedKeysWereDelivered(v, init);
        if n :| 0 <= n < |init| && Installs(At(v, init, n), init[n])
                && before == V.Installed(At(v, init, n), init[n].route.body.bundle, init[n].now) {
          assert init[..n] == run[..n];
          assert Installs(At(v, run, n), run[n]);
        }
      }
    }
  }

  /** A process that has just started serves nothing until it is given something, and
      remembers nothing that could refuse it. */
  lemma StartsWithNothing(instance: Text, now: int, run: seq<Request>, r: Request)
    ensures After(V.Started(instance, now), run).phase == V.Unsealed ==>
      exists n :: 0 <= n < |run| && Installs(At(V.Started(instance, now), run, n), run[n])
    ensures Delivers(r) && r.route.body.bundle.instance == instance && MayClaim(r, instance) && !ClaimsHandOver(r.route.intent)
      ==> Installs(V.Started(instance, now), r)
  {
    hide Handle, Installs, MayClaim, ClaimsHandOver, ValidBundle;
    var v := V.Started(instance, now);
    InstallsIff(v, r);
    if After(v, run).phase == V.Unsealed { ServedKeysWereDelivered(v, run); }
  }

  /** A step that ends serving either installs or leaves alone. */
  lemma ServingStep(v: V.VaultState, r: Request)
    requires Handle(v, r).0.phase == V.Unsealed
    ensures Installs(v, r) || (Handle(v, r).0 == v && v.phase == V.Unsealed)
    ensures Installs(v, r) ==> Handle(v, r).0 == V.Installed(v, r.route.body.bundle, r.now)
  {
    hide ControlCaller, ValidBundle, ReadIntent;
  }

  /** No replay puts retired keys back into service: of two pushes that installed
      keys in one run, the later one is not of an older generation, and is of a
      newer one if the vault was serving in between. */
  lemma LaterPushIsNewer(v: V.VaultState, run: seq<Request>, m: nat, n: nat)
    requires Sound(v) && m < n < |run|
    requires Installs(At(v, run, m), run[m]) && Installs(At(v, run, n), run[n])
    ensures run[m].route.body.bundle.generation <= run[n].route.body.bundle.generation
    ensures At(v, run, n).phase == V.Unsealed ==>
      run[m].route.body.bundle.generation < run[n].route.body.bundle.generation
  {
    hide Handle, Sound;
    AtNext(v, run, m);
    RunKeeps(v, run, m + 1, n);
    KeysEnterByPush(At(v, run, n), run[n]);
  }
}
