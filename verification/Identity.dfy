/** Who a client leaf says it belongs to, and what that role may do. */
module Identities {
  import opened Basics
  import opened Paths
  import opened ScopeNames
  import opened Keys

  datatype Role = Operator | Keeper | Device | App

  datatype Identity = Identity(role: Role, instance: Text, name: Text, namespace: Text)

  /** What a pusher says it is doing when it delivers a bundle. */
  datatype Intent = OperatorUnseal | RestartReseed | HandOver

  function RoleName(role: Role): Text {
    match role
    case Operator => Ascii("operator")
    case Keeper => Ascii("keeper")
    case Device => Ascii("device")
    case App => Ascii("app")
  }

  function UriRoot(instance: Text): Text { Ascii("farcast://") + instance + [SLASH] }

  function ParseIdentity(uri: Text, instance: Text): Option<Identity> {
    match CutPrefix(uri, UriRoot(instance))
    case None => None
    case Some(rest) =>
      if instance == [] then None else
      var parts := Split(rest, SLASH);
      if rest == RoleName(Operator) then Some(Identity(Operator, instance, [], []))
      else if |parts| == 2 && parts[0] == RoleName(Keeper) && parts[1] != [] then
        Some(Identity(Keeper, instance, parts[1], []))
      else if |parts| == 2 && parts[0] == RoleName(Device) && parts[1] != [] then
        Some(Identity(Device, instance, parts[1], []))
      else if |parts| == 3 && parts[0] == RoleName(App) && parts[1] != [] && parts[2] != [] then
        Some(Identity(App, instance, parts[2], parts[1]))
      else None
  }

  /** The identities a leaf can carry: every principal is named, and no name
      reaches into another segment. */
  predicate WellFormed(id: Identity) {
    && id.instance != []
    && (id.role == Operator <==> id.name == [])
    && (id.role == App <==> id.namespace != [])
    && Free(id.name, SLASH) && Free(id.namespace, SLASH)
  }

  function Segments(id: Identity): seq<Text> {
    match id.role
    case Operator => [RoleName(Operator)]
    case App => [RoleName(App), id.namespace, id.name]
    case _ => [RoleName(id.role), id.name]
  }

  function UriOf(id: Identity): Text { UriRoot(id.instance) + Join(Segments(id), SLASH) }

  lemma JoinedAfter(root: Text, a: Text, b: Text, mid: Text)
    requires mid == [SLASH] + a + [SLASH]
    ensures root + [SLASH] + Join([a, b], SLASH) == root + mid + b
    ensures forall c: Text :: root + [SLASH] + Join([a, b, c], SLASH) == root + mid + b + [SLASH] + c
  {
    assert [a, b][1..] == [b];
    assert Join([a, b], SLASH) == a + [SLASH] + b;
    forall c: Text
      ensures root + [SLASH] + Join([a, b, c], SLASH) == root + mid + b + [SLASH] + c
    {
      assert [a, b, c][1..] == [b, c] && [b, c][1..] == [c];
      assert Join([b, c], SLASH) == b + [SLASH] + c;
      assert Join([a, b, c], SLASH) == a + [SLASH] + (b + [SLASH] + c);
    }
  }

  /** The URIs a leaf carries, as they are written. */
  lemma UrisAreSpelled(instance: Text, ns: Text, name: Text)
    ensures UriOf(Identity(Operator, instance, [], [])) == Ascii("farcast://") + instance + Ascii("/operator")
    ensures UriOf(Identity(Keeper, instance, name, [])) == Ascii("farcast://") + instance + Ascii("/keeper/") + name
    ensures UriOf(Identity(Device, instance, name, [])) == Ascii("farcast://") + instance + Ascii("/device/") + name
    ensures UriOf(Identity(App, instance, name, ns)) == Ascii("farcast://") + instance + Ascii("/app/") + ns + Ascii("/") + name
  {
    assert Ascii("/operator") == [SLASH] + Ascii("operator") && Ascii("/keeper/") == [SLASH] + Ascii("keeper") + [SLASH];
    assert Ascii("/device/") == [SLASH] + Ascii("device") + [SLASH] && Ascii("/app/") == [SLASH] + Ascii("app") + [SLASH];
    assert Ascii("/") == [SLASH];
    hide Ascii, Join;
    var root := Ascii("farcast://") + instance;
    JoinedAfter(root, Ascii("keeper"), name, Ascii("/keeper/"));
    JoinedAfter(root, Ascii("device"), name, Ascii("/device/"));
    JoinedAfter(root, Ascii("app"), ns, Ascii("/app/"));
    OneSegment(Ascii("operator"));
    assert root + [SLASH] + Ascii("operator") == root + Ascii("/operator");
  }

  lemma OneSegment(a: Text)
    ensures Join([a], SLASH) == a
  {
  }

  lemma RoleNames(r: Role, s: Role)
    ensures Free(RoleName(r), SLASH) && RoleName(r) != []
    ensures RoleName(r) == RoleName(s) <==> r == s
  {
    assert RoleName(Operator)[0] == 111 && RoleName(Keeper)[0] == 107;
    assert RoleName(Device)[0] == 100 && RoleName(App)[0] == 97;
  }

  /** Parsing a leaf's URI accepts exactly the URIs of well-formed identities of
      this instance, and reads each back as what it was written from. */
  lemma ParseInvertsUri(uri: Text, instance: Text, id: Identity)
    ensures ParseIdentity(uri, instance) == Some(id)
      <==> WellFormed(id) && id.instance == instance && uri == UriOf(id)
  {
    RoleNames(Operator, id.role);
    RoleNames(Keeper, id.role);
    RoleNames(Device, id.role);
    RoleNames(App, id.role);
    if ParseIdentity(uri, instance) == Some(id) {
      ParsedIsWritten(uri, instance, id);
    }
    if WellFormed(id) && id.instance == instance && uri == UriOf(id) {
      var rest := Join(Segments(id), SLASH);
      assert uri[|UriRoot(instance)|..] == rest;
      SplitJoin(Segments(id), SLASH);
      if rest == RoleName(Operator) {
        SplitFree(rest, SLASH);
        assert Segments(id) == [rest];
      }
    }
  }

  lemma ParsedIsWritten(uri: Text, instance: Text, id: Identity)
    requires ParseIdentity(uri, instance) == Some(id)
    ensures WellFormed(id) && id.instance == instance && uri == UriOf(id)
  {
    var rest := uri[|UriRoot(instance)|..];
    assert uri == UriRoot(instance) + rest;
    var parts := Split(rest, SLASH);
    JoinSplit(rest, SLASH);
    RoleNames(Operator, App);
    if id.role != Operator {
      assert parts == Segments(id);
    }
  }

  /** A URI is an identity for at most one instance whose name is one segment. */
  lemma OneInstance(uri: Text, i: Text, j: Text)
    requires Free(i, SLASH) && Free(j, SLASH)
    requires ParseIdentity(uri, i).Some? && ParseIdentity(uri, j).Some?
    ensures i == j
  {
    var x := AfterInstance(uri, i);
    var y := AfterInstance(uri, j);
    hide ParseIdentity, Ascii;
    FirstSegment(i, x, j, y);
  }

  /** What comes after the scheme begins with the instance. */
  lemma AfterInstance(uri: Text, i: Text) returns (x: Text)
    requires ParseIdentity(uri, i).Some?
    ensures |uri| >= |Ascii("farcast://")| && uri[|Ascii("farcast://")|..] == i + [SLASH] + x
  {
    var root := Ascii("farcast://");
    hide Ascii;
    assert UriRoot(i) == root + (i + [SLASH]);
    x := uri[|UriRoot(i)|..];
    assert uri == UriRoot(i) + x;
    assert uri == root + (i + [SLASH] + x);
  }

  datatype AuthError = NoIdentity | NotAuthorized

  /** The caller's identity: the first of its leaf's URIs that is one for this
      instance. No leaf at all is a different refusal from a leaf of no use. */
  function IdentityFrom(peer: Option<seq<Text>>, instance: Text): Result<Identity, AuthError> {
    match peer
    case None => Err(NoIdentity)
    case Some(uris) => FirstIdentity(uris, instance)
  }

  function FirstIdentity(uris: seq<Text>, instance: Text): (r: Result<Identity, AuthError>)
    ensures match r
            case Err(e) => e == NotAuthorized && forall i :: 0 <= i < |uris| ==> ParseIdentity(uris[i], instance).None?
            case Ok(id) => exists i :: 0 <= i < |uris| && ParseIdentity(uris[i], instance) == Some(id)
                                       && forall j :: 0 <= j < i ==> ParseIdentity(uris[j], instance).None?
  {
    if uris == [] then Err(NotAuthorized)
    else match ParseIdentity(uris[0], instance)
    case Some(id) => Ok(id)
    case None =>
      assert forall i :: 0 < i < |uris| ==> uris[i] == uris[1..][i - 1];
      assert forall i :: 0 <= i < |uris[1..]| ==> uris[1..][i] == uris[i + 1];
      FirstIdentity(uris[1..], instance)
  }

  // ---------------------------------------------------------------- authority

  /** Which leaves the data listener admits at all. */
  predicate AllowData(uri: Text, instance: Text) {
    match ParseIdentity(uri, instance)
    case None => false
    case Some(id) => id.role != Keeper
  }

  /** A connection is let through when some URI of its leaf is admitted. */
  ghost predicate Admitted(peer: Option<seq<Text>>, instance: Text) {
    peer.Some? && exists i :: 0 <= i < |peer.value| && AllowData(peer.value[i], instance)
  }

  predicate MayReach(id: Identity, scopeName: Text) {
    match id.role
    case Operator => true
    case Device => true
    case App => AppScopeName(id.namespace, id.name) == Some(scopeName)
    case Keeper => false
  }

  /** The listener turns away nobody a scope would be served to. It is exact for a
      leaf with one URI; with more, one of them may let a keeper through, and the
      keeper then reaches nothing. */
  lemma AdmitsWhoeverIsServed(peer: Option<seq<Text>>, instance: Text)
    ensures match IdentityFrom(peer, instance)
            case Err(_) => !Admitted(peer, instance)
            case Ok(id) =>
              && (id.role != Keeper ==> Admitted(peer, instance))
              && (|peer.value| == 1 ==> (Admitted(peer, instance) <==> id.role != Keeper))
              && ((exists name :: MayReach(id, name)) ==> Admitted(peer, instance))
  {
    hide ParseIdentity, AppScopeName;
    match IdentityFrom(peer, instance)
    case Err(_) =>
    case Ok(id) =>
      var i :| 0 <= i < |peer.value| && ParseIdentity(peer.value[i], instance) == Some(id);
      assert AllowData(peer.value[i], instance) <==> id.role != Keeper;
  }

  predicate MayPush(id: Identity, intent: Intent) {
    match id.role
    case Operator => true
    case Keeper => intent == RestartReseed
    case _ => false
  }

  predicate MaySeal(id: Identity) { id.role == Operator }

  /** Of the scopes held together, an application reaches at most one. */
  lemma ReachesOneScope<M>(id: Identity, scopes: seq<ScopeOf<M>>, i: nat, j: nat)
    requires id.role == App && Separate(scopes) && i < |scopes| && j < |scopes|
    requires MayReach(id, scopes[i].name) && MayReach(id, scopes[j].name)
    ensures i == j && AppScopeName(id.namespace, id.name) == Some(scopes[i].name)
  {
    assert Some(scopes[i].name) == Some(scopes[j].name);
  }

  /** The leaf opens the scope minted for another application. */
  ghost predicate ReachesAnother(id: Identity) {
    exists ns, app ::
      CanMint(ns, app) && MayReach(id, AppScopeName(ns, app).value) && (ns, app) != (id.namespace, id.name)
  }

  /** The name check alone binds an application to its own scope exactly when its
      scope name can be split in only one place, or there is none and it reaches
      nothing. */
  lemma ReachIsOwnIffNoInnerDash(id: Identity)
    requires WellFormed(id) && id.role == App
    ensures !ReachesAnother(id)
      <==> AppScopeName(id.namespace, id.name).None? || !InnerDash(id.namespace, id.name)
  {
    if AppScopeName(id.namespace, id.name).Some? {
      CanMintIff(id.namespace, id.name);
      NameIsOwnIffNoInnerDash(id.namespace, id.name);
      if !NameIsOwn(id.namespace, id.name) {
        var ns, app :| CanMint(ns, app) && AppScopeName(ns, app) == AppScopeName(id.namespace, id.name)
                       && (ns, app) != (id.namespace, id.name);
        assert MayReach(id, AppScopeName(ns, app).value);
      }
    }
  }

  /** Two applications whose leaves reach each other's scope. */
  lemma DashedNeighboursReachEachOther(instance: Text)
    requires instance != []
    ensures
      var a := Identity(App, instance, Ascii("c"), Ascii("a-b"));
      var b := Identity(App, instance, Ascii("b-c"), Ascii("a"));
      && WellFormed(a) && WellFormed(b) && a != b
      && ReachesAnother(a) && ReachesAnother(b)
  {
    hide CanMint, AppScopeName;
    DashedNamesCollide();
    CanMintIff(Ascii("a-b"), Ascii("c"));
    CanMintIff(Ascii("a"), Ascii("b-c"));
    var ab, a_, bc, c := Ascii("a-b"), Ascii("a"), Ascii("b-c"), Ascii("c");
    assert ab == [97, DASH, 98] && a_ == [97] && bc == [98, DASH, 99] && c == [99];
    hide Ascii;
    var a, b := Identity(App, instance, c, ab), Identity(App, instance, bc, a_);
    assert |a.name| != |b.name|;
    assert MayReach(a, AppScopeName(b.namespace, b.name).value);
    assert MayReach(b, AppScopeName(a.namespace, a.name).value);
  }
}
