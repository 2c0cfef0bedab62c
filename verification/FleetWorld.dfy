/** A fleet over one bucket of bytes: what can happen, and what it should answer. */
module FleetWorld {
  import opened Basics
  import opened Paths
  import opened Keys
  import opened Rotations
  import opened Crypto
  import opened Tokens
  import opened Blobs
  import opened Stores
  import opened Wire
  import opened DataPath
  import opened FleetSpaces
  import D = DataSafety
  import F = Fleet
  import R = StoreRefines

  /** A request that was admitted: what it asks, and the copy of its scope's keys it
      was given, which it keeps whatever becomes of the replica. */
  datatype Flight = Flight(verb: Verb, to: Resolved)

  /** The fleet, the bucket it shares, what plain maps would hold by now, and the
      requests in flight. */
  datatype World = World(fleet: F.State, bucket: Objects, spaces: R.Spaces, flights: map<nat, Flight>)

  /** A step of the keyring, a replica, a pusher or a keeper; a request admitted by a
      replica, and later carried out or given up; or an operation by the operator's
      own machine under a choice of active keys. */
  datatype Event =
    | Control(step: F.Step)
    | Admit(ticket: nat, replica: nat, request: Request)
    | Carry(ticket: nat)
    | GiveUp(ticket: nat)
    | Operate(active: map<Text, KeyId>, op: R.Op)

  datatype Reply = Nothing | ToCaller(response: Response) | ToOperator(answer: R.Answer)

  function OpKey(op: R.Op): Text { if op.ListKeys? then op.prefix else op.key }

  /** The scope the operator's machine works under. What wraps needs a key every
      replica is known to hold. */
  function OperatorUses(st: F.State, active: map<Text, KeyId>, op: R.Op): Option<Scope> {
    if Wraps(op) then F.OperatorScope(st, op.key, active)
    else match WithScopeActive(st.operator, active)
    case None => None
    case Some(k) => ScopeOwning(k.scopes, OpKey(op))
  }

  function Applied(spaces: R.Spaces, op: R.Op): R.Spaces {
    if op.space in spaces then R.Apply(spaces, op) else spaces
  }

  /** What a request does to plain maps. */
  function Asked(spaces: R.Spaces, to: Resolved, verb: Verb): R.Spaces {
    if D.Refused(to, verb) || to.scope.keys.nameKeys == [] then spaces else Applied(spaces, D.OpOf(to, verb))
  }

  /** A write that may go ahead is pending from when it is admitted. */
  ghost function Pended(st: F.State, ticket: nat, i: nat, to: Resolved, verb: Verb): F.State {
    if verb.Write? && !D.Refused(to, verb) then F.Next(st, F.Admit(ticket, i, to.key)) else st
  }

  ghost predicate Admits(w: World, ticket: nat, i: nat, r: Request, w': World, a: Reply) {
    && ticket !in w.flights && i < |w.fleet.replicas| && (r.verb.Write? ==> GoodDraw(r.verb.draw))
    && match Resolve(w.fleet.replicas[i], r)
       case Err(f) => w' == w && a == ToCaller(Response.Failed([f]))
       case Ok(to) =>
         && a == Nothing
         && w' == w.(fleet := Pended(w.fleet, ticket, i, to, r.verb), flights := w.flights[ticket := Flight(r.verb, to)])
  }

  ghost predicate Carried(s: Suite, w: World, ticket: nat, w': World, a: Response) {
    && ticket in w.flights && w'.flights == w.flights - {ticket}
    && var fl := w.flights[ticket];
    && ValidLists(fl.to.scope.keys) && Carries(s, fl.to, w.bucket, fl.verb, w'.bucket, a)
    && w'.fleet == F.Next(w.fleet, if a == NoContent then F.Land(ticket) else F.Drop(ticket))
    && w'.spaces == Asked(w.spaces, fl.to, fl.verb)
  }

  ghost predicate Operates(s: Suite, w: World, active: map<Text, KeyId>, op: R.Op, w': World, a: R.Answer) {
    && R.GoodOp(op) && OperatorUses(w.fleet, active, op).Some?
    && var t := OperatorUses(w.fleet, active, op).value;
    && ValidLists(t.keys) && op.space == t.keys.nameKeys[0].key
    && R.Performs(s, t.keys, w.bucket, op, w'.bucket, a)
    && w'.fleet == (if Wraps(op) && a == R.Done then F.Next(w.fleet, F.OperatorWrite(op.key, active)) else w.fleet)
    && w'.spaces == Applied(w.spaces, op) && w'.flights == w.flights
  }

  /** The steps of the fleet that are not about bytes. */
  predicate KeysOnly(step: F.Step) {
    !step.Admit? && !step.Land? && !step.Drop? && !step.OperatorWrite? && !step.Rekey?
  }

  /** One event. A scope that joins the keyring brings a name key of its own: it is
      freshly drawn, and the cryptography keeps it apart from the others. */
  ghost predicate Moves(s: Suite, names: set<Bytes>, w: World, e: Event, w': World, a: Reply) {
    match e
    case Control(step) =>
      && KeysOnly(step) && a == Nothing && w' == w.(fleet := F.Next(w.fleet, step))
      && (step.AddScope? || step.Import? ==> Distinct(w'.fleet.operator.scopes, names))
    case Admit(ticket, i, r) => Admits(w, ticket, i, r, w', a)
    case Carry(ticket) => a.ToCaller? && Carried(s, w, ticket, w', a.response)
    case GiveUp(ticket) =>
      a == Nothing && w' == w.(fleet := F.Next(w.fleet, F.Drop(ticket)), flights := w.flights - {ticket})
    case Operate(active, op) => a.ToOperator? && Operates(s, w, active, op, w', a.answer)
  }

  // ---------------------------------------------------------------- the replies

  /** The one request plain maps do not speak for: a read of an object that was
      wrapped, since the read was admitted, under a key it was not given. */
  ghost predicate Late(s: Suite, w: World, fl: Flight) {
    && fl.verb.Read? && ValidKey(fl.to.key)
    && fl.to.scope.keys.nameKeys != []
    && var path := TokenPath(s, fl.to.scope.keys.nameKeys[0].key, fl.to.key);
    && path in w.bucket && ParseHeader(w.bucket[path].data).Ok?
    && Lookup(fl.to.scope.keys.keks, ParseHeader(w.bucket[path].data).value.id).None?
  }

  /** The reply is the one plain maps would give, a late read says that it does not
      know the key, and absence is said exactly when it is so. */
  ghost predicate Answered(s: Suite, w: World, e: Event, a: Reply) {
    match e
    case Control(_) => true
    case GiveUp(_) => true
    case Admit(_, i, r) =>
      i < |w.fleet.replicas|
      && (match Resolve(w.fleet.replicas[i], r)
          case Err(f) => a == ToCaller(Response.Failed([f]))
          case Ok(_) => a == Nothing)
    case Carry(ticket) =>
      && a.ToCaller? && ticket in w.flights
      && var to, verb := w.flights[ticket].to, w.flights[ticket].verb;
      && to.scope.keys.nameKeys != [] && to.scope.keys.nameKeys[0].key in w.spaces
      && (Late(s, w, w.flights[ticket]) ==> a.response == Response.Failed([StoreFault(UnknownKey)]))
      && (D.TouchesSecret(to, verb) ==> a.response == Response.Failed([SecretsReadOnly]))
      && (!D.TouchesSecret(to, verb) && !Late(s, w, w.flights[ticket]) ==> D.AsMap(w.spaces, to, verb, a.response))
      && (D.SaysAbsent(a.response) <==> verb.Read? && ValidKey(to.key) && D.Lacks(w.spaces, to))
    case Operate(_, op) => a.ToOperator? && op.space in w.spaces && R.Answers(w.spaces, op, a.answer)
  }
}
