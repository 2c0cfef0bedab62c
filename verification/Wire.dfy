/** How a refusal crosses the wire: the keyholder's code for an error, and the
    error an application makes of the code. */
module Wire {
  import opened Blobs

  /** Conditions an error can carry. */
  datatype Fault =
    | Sealed
    | OutOfScope
    | SecretsReadOnly
    | NotAuthorized
    | NoIdentity
    | ObjectNotFound
    | IntegrityFault
    | UnknownKeyFault
    | InvalidKeyFault
    | TooLargeFault
    | OperatorHold
    | GenerationTooOld
    | InstanceMismatch
    | NotServing
    | AlreadyServing
    | EnvelopeInvalid
    | BundleInvalid
    | KeyringInvalid
    | Unrecognized

  /** An error is the conditions joined in it; none is success. */
  type Error = seq<Fault>

  datatype Code =
    | NoCode
    | CodeSealed
    | CodeNotFound
    | CodeIntegrity
    | CodeInvalidKey
    | CodeTooLarge
    | CodePermission
    | CodeOperatorHold
    | CodeGenerationOld
    | CodeInstanceMismatch
    | CodeBadRequest
    | CodeNotServing
    | CodeAlreadyServing

  /** One ordered case analysis. Anything unrecognized is an internal error with no
      code, never a guess. */
  function Classify(e: Error): (int, Code) {
    if e == [] then (200, NoCode)
    else if Sealed in e then (503, CodeSealed)
    else if OutOfScope in e || SecretsReadOnly in e || NotAuthorized in e || NoIdentity in e then (403, CodePermission)
    else if ObjectNotFound in e then (404, CodeNotFound)
    else if IntegrityFault in e || UnknownKeyFault in e then (502, CodeIntegrity)
    else if InvalidKeyFault in e then (400, CodeInvalidKey)
    else if TooLargeFault in e then (413, CodeTooLarge)
    else if OperatorHold in e then (409, CodeOperatorHold)
    else if GenerationTooOld in e then (409, CodeGenerationOld)
    else if InstanceMismatch in e then (409, CodeInstanceMismatch)
    else if NotServing in e then (409, CodeNotServing)
    else if AlreadyServing in e then (409, CodeAlreadyServing)
    else if EnvelopeInvalid in e then (403, CodeBadRequest)
    else if BundleInvalid in e || KeyringInvalid in e then (400, CodeBadRequest)
    else (500, NoCode)
  }

  /** What an application branches on. */
  datatype AppError =
    | StorageSealed
    | NoSuchObject
    | AppIntegrity
    | AppInvalidKey
    | AppTooLarge
    | Permission
    | StorageUnavailable

  const CODES: map<Code, AppError> := map[
    CodeSealed := StorageSealed,
    CodeNotFound := NoSuchObject,
    CodeIntegrity := AppIntegrity,
    CodeInvalidKey := AppInvalidKey,
    CodeTooLarge := AppTooLarge,
    CodePermission := Permission]

  /** Total: a code the application does not know is never absence. */
  function StorageError(code: Code): AppError { if code in CODES then CODES[code] else StorageUnavailable }

  /** The conditions the storage contract has an answer for. */
  predicate StorageFault(f: Fault) {
    f.Sealed? || f.OutOfScope? || f.SecretsReadOnly? || f.NotAuthorized? || f.NoIdentity? || f.ObjectNotFound?
    || f.IntegrityFault? || f.UnknownKeyFault? || f.InvalidKeyFault? || f.TooLargeFault?
  }

  function Seen(e: Error): AppError { StorageError(Classify(e).1) }

  function StoreFault(e: StoreError): Fault {
    match e
    case InvalidKey => InvalidKeyFault
    case TooLarge => TooLargeFault
    case Integrity => IntegrityFault
    case UnknownKey => UnknownKeyFault
    case NotFound => ObjectNotFound
    case NoKeys => KeyringInvalid
    case BadKeyLength => Unrecognized
    case Foreign => Unrecognized
  }

  /** The two answers an application acts on destructively are given for exactly
      one condition each: a seal outranks everything, and absence is reported only
      when nothing that outranks it is also wrong. Conditions of the control surface
      and unrecognized ones never look like either. */
  lemma DestructiveAnswers(e: Error)
    ensures Seen(e) == StorageSealed <==> Sealed in e
    ensures Seen(e) == NoSuchObject
      <==> ObjectNotFound in e && Sealed !in e && OutOfScope !in e && SecretsReadOnly !in e
           && NotAuthorized !in e && NoIdentity !in e
    ensures Seen(e) == StorageUnavailable
      <==> forall f :: f in e ==> !StorageFault(f)
  {
  }

  /** How grave a condition is to an application: the lower, the graver. */
  function Rank(f: Fault): nat {
    match f
    case Sealed => 0
    case OutOfScope | SecretsReadOnly | NotAuthorized | NoIdentity => 1
    case ObjectNotFound => 2
    case IntegrityFault | UnknownKeyFault => 3
    case InvalidKeyFault => 4
    case TooLargeFault => 5
    case _ => 6
  }

  predicate Gravest(f: Fault, e: Error) { f in e && forall other :: other in e ==> Rank(f) <= Rank(other) }

  /** Each answer says what the gravest condition of the error is, and nothing else:
      an application tells a seal, a refusal, an absence, damage, a bad key and too
      large a body apart, whatever else is wrong as well. */
  lemma SaysTheGravest(e: Error, f: Fault)
    requires Gravest(f, e)
    ensures Seen(e) == StorageSealed <==> f == Sealed
    ensures Seen(e) == Permission <==> f in {OutOfScope, SecretsReadOnly, NotAuthorized, Fault.NoIdentity}
    ensures Seen(e) == NoSuchObject <==> f == ObjectNotFound
    ensures Seen(e) == AppIntegrity <==> f in {IntegrityFault, UnknownKeyFault}
    ensures Seen(e) == AppInvalidKey <==> f == InvalidKeyFault
    ensures Seen(e) == AppTooLarge <==> f == TooLargeFault
    ensures Seen(e) == StorageUnavailable <==> !StorageFault(f)
  {
  }

  /** The status line agrees with the code: success is told from failure by it alone,
      and a client that knows no codes still tells a seal, a refusal, an absence and a
      request of its own making apart. */
  lemma StatusTellsToo(e: Error)
    ensures Classify(e).0 == 200 <==> e == []
    ensures Classify(e).0 == 503 <==> Seen(e) == StorageSealed
    ensures Classify(e).0 == 404 <==> Seen(e) == NoSuchObject
    ensures Classify(e).0 == 502 <==> Seen(e) == AppIntegrity
    ensures Classify(e).0 == 413 <==> Seen(e) == AppTooLarge
    ensures Seen(e) == Permission ==> Classify(e).0 == 403
    ensures Seen(e) == AppInvalidKey ==> Classify(e).0 == 400
    ensures e != [] && Seen(e) == StorageUnavailable ==> Classify(e).0 in {400, 403, 409, 500}
    ensures Classify(e).0 == 500 <==> e != [] && forall f :: f in e ==> f == Unrecognized
  {
  }

  /** What the keyholder's control surface refuses with, one condition at a time. */
  lemma ControlAnswers(f: Fault)
    ensures Classify([f]) == (409, CodeOperatorHold) <==> f == OperatorHold
    ensures Classify([f]) == (409, CodeGenerationOld) <==> f == GenerationTooOld
    ensures Classify([f]) == (409, CodeInstanceMismatch) <==> f == InstanceMismatch
    ensures Classify([f]) == (409, CodeNotServing) <==> f == NotServing
    ensures Classify([f]) == (409, CodeAlreadyServing) <==> f == AlreadyServing
    ensures Classify([f]) == (403, CodeBadRequest) <==> f == EnvelopeInvalid
    ensures Classify([f]) == (400, CodeBadRequest) <==> f == BundleInvalid || f == KeyringInvalid
  {
  }

  /** What an application learns of each way a store can fail. */
  lemma StoreErrorsSeen(e: StoreError)
    ensures Seen([StoreFault(e)]) == NoSuchObject <==> e == NotFound
    ensures Seen([StoreFault(e)]) == AppIntegrity <==> e == Integrity || e == UnknownKey
    ensures Seen([StoreFault(e)]) == AppInvalidKey <==> e == InvalidKey
    ensures Seen([StoreFault(e)]) == AppTooLarge <==> e == TooLarge
    ensures Seen([StoreFault(e)]) != StorageSealed && Seen([StoreFault(e)]) != Permission
  {
  }
}
