/** The control surface: who may ask for what, and what a request does to the
    vault. A request is one atomic step. */
module Control {
  import opened Basics
  import opened Identities
  import opened Bundles
  import opened Vaults
  import opened KeyMaterial
  import opened Ownership
  import V = VaultSpec

  /** What a push's body turned out to be: unreadable, not an envelope this process
      can open, not a bundle, or a bundle's fields. */
  datatype Body = Unreadable | NotOpened | NotParsed | Fields(bundle: V.BundleValue)

  datatype Route =
    | Unseal(intent: Text, sealedType: bool, body: Body)
    | Seal(hold: bool, reason: Text)
    | ReleaseHold

  /** A request: the URIs on the caller's leaf, if it has one, and what it asks. */
  datatype Request = Request(peer: Option<seq<Text>>, route: Route, now: int)

  datatype Failure =
    | Auth(error: AuthError)
    | UnknownIntent
    | BadContentType
    | BadBody
    | EnvelopeRefused
    | BundleInvalid
    | Refused(refusal: V.Refusal)

  datatype Outcome = Done | Failed(failure: Failure)

  function ControlCaller(peer: Option<seq<Text>>, instance: Text): Result<Identity, AuthError> {
    match IdentityFrom(peer, instance)
    case Err(e) => Err(e)
    case Ok(id) => if id.role == Operator || id.role == Keeper then Ok(id) else Err(NotAuthorized)
  }

  function MayChangeSeal(peer: Option<seq<Text>>, instance: Text): Option<AuthError> {
    match ControlCaller(peer, instance)
    case Err(e) => Some(e)
    case Ok(id) => if MaySeal(id) then None else Some(NotAuthorized)
  }

  /** An absent intent is the conservative one. */
  function ReadIntent(raw: Text): Option<Intent> {
    if raw == Ascii("operator-unseal") then Some(OperatorUnseal)
    else if raw == Ascii("restart-reseed") || raw == [] then Some(RestartReseed)
    else if raw == Ascii("hand-over") then Some(HandOver)
    else None
  }

  function Handle(v: V.VaultState, r: Request): (V.VaultState, Outcome) {
    match r.route
    case Unseal(raw, sealedType, body) => HandlePush(v, r.peer, raw, sealedType, body, r.now)
    case Seal(hold, reason) =>
      (match MayChangeSeal(r.peer, v.instance)
       case Some(e) => (v, Failed(Auth(e)))
       case None => (V.Seal(v, hold, reason, r.now), Done))
    case ReleaseHold =>
      (match MayChangeSeal(r.peer, v.instance)
       case Some(e) => (v, Failed(Auth(e)))
       case None => (V.ReleaseHold(v, r.now), Done))
  }

  function HandlePush(v: V.VaultState, peer: Option<seq<Text>>, raw: Text, sealedType: bool, body: Body, now: int)
    : (V.VaultState, Outcome)
  {
    match ControlCaller(peer, v.instance)
    case Err(e) => (v, Failed(Auth(e)))
    case Ok(id) =>
      match ReadIntent(raw)
      case None => (v, Failed(UnknownIntent))
      case Some(intent) =>
        if !MayPush(id, intent) then (v, Failed(Auth(NotAuthorized)))
        else if !sealedType then (v, Failed(BadContentType))
        else match body
        case Unreadable => (v, Failed(BadBody))
        case NotOpened => (v, Failed(EnvelopeRefused))
        case NotParsed => (v, Failed(BundleInvalid))
        case Fields(bundle) =>
          if !ValidBundle(bundle) then (v, Failed(BundleInvalid))
          else
            var (w, refusal) := V.Unseal(v, Some(bundle), intent, now);
            match refusal
            case None => (w, Done)
            case Some(why) => (w, Failed(Refused(why)))
  }

  /** The push route gets as far as having a bundle in hand. */
  predicate InHand(instance: Text, peer: Option<seq<Text>>, raw: Text, sealedType: bool, body: Body) {
    && ControlCaller(peer, instance).Ok? && ReadIntent(raw).Some?
    && MayPush(ControlCaller(peer, instance).value, ReadIntent(raw).value)
    && sealedType && body.Fields? && ValidBundle(body.bundle)
  }

  class Server {
    const vault: Vault

    constructor (vault: Vault)
      ensures this.vault == vault
    {
      this.vault := vault;
    }

    /** The push route. The bundle it parses is its own, and whatever comes of it
        every array it was parsed into is zeros when the route returns. */
    method Push(peer: Option<seq<Text>>, raw: Text, sealedType: bool, body: Body, now: int)
      returns (outcome: Outcome, ghost used: seq<HeldScope>)
      modifies vault, vault.Held()
      ensures (vault.Value(), outcome) == HandlePush(old(vault.Value()), peer, raw, sealedType, body, now)
      ensures AllShaped(used, if InHand(vault.instance, peer, raw, sealedType, body) then body.bundle.scopes else [])
      ensures forall a :: a in AllArrays(used) ==> fresh(a) && Wiped(a)
    {
      hide AllArrays, Shaped, Blank, V.Unseal;
      used := [];
      Allocated(vault.scopes);
      NoArrays();
      var caller := ControlCaller(peer, vault.instance);
      if caller.Err? { return Failed(Auth(caller.error)), []; }
      var intent := ReadIntent(raw);
      if intent.None? { return Failed(UnknownIntent), []; }
      if !MayPush(caller.value, intent.value) { return Failed(Auth(NotAuthorized)), []; }
      if !sealedType { return Failed(BadContentType), []; }
      match body
      case Unreadable => outcome := Failed(BadBody);
      case NotOpened => outcome := Failed(EnvelopeRefused);
      case NotParsed => outcome := Failed(BundleInvalid);
      case Fields(given) =>
        var parsed := Assemble(given.instance, given.generation, given.scopes);
        if parsed.None? { return Failed(BundleInvalid), []; }
        outcome, used := Deliver(parsed.value, intent.value, now);
    }

    method Deliver(given: V.BundleValue, intent: Intent, now: int) returns (outcome: Outcome, ghost used: seq<HeldScope>)
      modifies vault, vault.Held()
      ensures var (w, refusal) := V.Unseal(old(vault.Value()), Some(given), intent, now);
        vault.Value() == w
        && outcome == if refusal.None? then Done else Failed(Refused(refusal.value))
      ensures AllShaped(used, given.scopes)
      ensures forall a :: a in AllArrays(used) ==> fresh(a) && Wiped(a)
    {
      hide AllArrays, ScopeValues, Shaped, V.Unseal;
      Allocated(vault.scopes);
      var b := LoadBundle(given);
      used := b.scopes;
      WorthsAreShapes(used);
      Allocated(b.scopes);
      var refusal := vault.Unseal(b, intent, now);
      Allocated(vault.scopes);
      ghost var w := vault.Value();
      b.Zero();
      assert vault.Value() == w;
      outcome := if refusal.None? then Done else Failed(Refused(refusal.value));
    }

    method Seal(peer: Option<seq<Text>>, hold: bool, reason: Text, now: int) returns (outcome: Outcome)
      modifies vault, vault.Held()
      ensures (vault.Value(), outcome) == Handle(old(vault.Value()), Request(peer, Route.Seal(hold, reason), now))
    {
      var refused := MayChangeSeal(peer, vault.instance);
      if refused.Some? { return Failed(Auth(refused.value)); }
      vault.Seal(hold, reason, now);
      outcome := Done;
    }

    method ReleaseHold(peer: Option<seq<Text>>, now: int) returns (outcome: Outcome)
      modifies vault
      ensures (vault.Value(), outcome) == Handle(old(vault.Value()), Request(peer, Route.ReleaseHold, now))
    {
      var refused := MayChangeSeal(peer, vault.instance);
      if refused.Some? { return Failed(Auth(refused.value)); }
      vault.ReleaseHold(now);
      outcome := Done;
    }
  }
}
