/** Where an application's storage lives and what its scope is called: the
    layout the keyring, the keyholder and the deployer must agree on. */
module ScopeNames {
  import opened Basics
  import opened Paths

  const MAX_SCOPE_NAME := 63

  function Root(): Text { Ascii("app") }

  function SecretsSegment(): Text { Ascii("secrets") }

  function AppScopePrefix(namespace: Text, app: Text): Text {
    Root() + [SLASH] + namespace + [SLASH] + app + [SLASH]
  }

  predicate NameByte(b: byte) {
    97 <= b <= 122 || 48 <= b <= 57 || b == DASH
  }

  /** Non-empty, at most 63 bytes, lowercase letters, digits and dashes, starting
      with a letter. */
  predicate ValidScopeName(name: Text) {
    && 0 < |name| <= MAX_SCOPE_NAME
    && 97 <= name[0] <= 122
    && forall i :: 0 <= i < |name| ==> NameByte(name[i])
  }

  /** A whole subtree: a logical key followed by a separator. */
  predicate ValidScopePrefix(prefix: Text) {
    HasSuffixByte(prefix, SLASH) && ValidKey(prefix[..|prefix| - 1])
  }

  function ComposedName(namespace: Text, app: Text): Text {
    Root() + [DASH] + namespace + [DASH] + app
  }

  function AppScopeName(namespace: Text, app: Text): Option<Text> {
    var name := ComposedName(namespace, app);
    if ValidScopeName(name) then Some(name) else None
  }

  function ParseAppScopePrefix(prefix: Text): Option<(Text, Text)> {
    match CutPrefix(prefix, Root() + [SLASH])
    case None => None
    case Some(rest) =>
      var parts := Split(TrimSuffix(rest, SLASH), SLASH);
      if |parts| != 2 || parts[0] == [] || parts[1] == [] then None
      else Some((parts[0], parts[1]))
  }

  /** The layout other components must agree on, as it is written. */
  lemma LayoutIsSpelled(ns: Text, app: Text, name: Text)
    ensures AppScopePrefix(ns, app) == Ascii("app/") + ns + Ascii("/") + app + Ascii("/")
    ensures AppScopeName(ns, app) == Some(name) <==>
      && name == Ascii("app-") + ns + Ascii("-") + app && |name| <= 63
      && forall i :: 0 <= i < |name| ==> 97 <= name[i] <= 122 || 48 <= name[i] <= 57 || name[i] == 45
  {
    assert Ascii("app") == [97, 112, 112] && Ascii("app/") == [97, 112, 112, 47] && Ascii("/") == [47];
    assert Ascii("app-") == [97, 112, 112, 45] && Ascii("-") == [45];
    assert Ascii("app-") + ns + Ascii("-") + app == ComposedName(ns, app);
    assert ComposedName(ns, app)[0] == 97;
  }

  /** A name that can be one segment of a path. */
  predicate Segment(s: Text) { s != [] && Free(s, SLASH) }

  /** Parsing inverts composing, and accepts nothing else: a prefix parses to a
      pair exactly when it is that pair's prefix, with or without the final
      separator, and both are single segments. */
  lemma ParseInvertsCompose(prefix: Text, namespace: Text, app: Text)
    ensures ParseAppScopePrefix(prefix) == Some((namespace, app))
      <==> Segment(namespace) && Segment(app)
           && (prefix == AppScopePrefix(namespace, app) || prefix + [SLASH] == AppScopePrefix(namespace, app))
  {
    if ParseAppScopePrefix(prefix) == Some((namespace, app)) {
      ParsedIsComposed(prefix, namespace, app);
    }
    if Segment(namespace) && Segment(app) {
      if prefix == AppScopePrefix(namespace, app) {
        ComposedParses(prefix, namespace, app, true);
      }
      if prefix + [SLASH] == AppScopePrefix(namespace, app) {
        assert prefix == (prefix + [SLASH])[..|prefix|];
        assert prefix == Root() + [SLASH] + namespace + [SLASH] + app;
        ComposedParses(prefix, namespace, app, false);
      }
    }
  }

  lemma ParsedIsComposed(prefix: Text, namespace: Text, app: Text)
    requires ParseAppScopePrefix(prefix) == Some((namespace, app))
    ensures Segment(namespace) && Segment(app)
    ensures prefix == AppScopePrefix(namespace, app) || prefix + [SLASH] == AppScopePrefix(namespace, app)
  {
    hide Split, Join;
    var rest := prefix[|Root() + [SLASH]|..];
    var body := TrimSuffix(rest, SLASH);
    var parts := Split(body, SLASH);
    TwoParts(body, namespace, app);
    assert prefix == Root() + [SLASH] + rest;
    if HasSuffixByte(rest, SLASH) {
      assert rest == body + [SLASH];
    }
  }

  /** What splits into two parts is them with a separator between, and they have none. */
  lemma TwoParts(body: Text, namespace: Text, app: Text)
    requires |Split(body, SLASH)| == 2 && Split(body, SLASH)[0] == namespace && Split(body, SLASH)[1] == app
    ensures body == namespace + [SLASH] + app && Free(namespace, SLASH) && Free(app, SLASH)
  {
    hide Split;
    JoinSplit(body, SLASH);
    var parts := Split(body, SLASH);
    assert parts == [namespace, app] && parts[1..] == [app];
  }

  lemma ComposedParses(prefix: Text, namespace: Text, app: Text, terminated: bool)
    requires Segment(namespace) && Segment(app)
    requires prefix == Root() + [SLASH] + namespace + [SLASH] + app + (if terminated then [SLASH] else [])
    ensures ParseAppScopePrefix(prefix) == Some((namespace, app))
  {
    hide Split;
    var body := namespace + [SLASH] + app;
    var rest := body + (if terminated then [SLASH] else []);
    SplitCons(namespace, app, SLASH);
    SplitFree(app, SLASH);
    assert prefix == Root() + [SLASH] + rest;
    assert prefix[|Root() + [SLASH]|..] == rest;
    LastByte(namespace, app);
    assert TrimSuffix(rest, SLASH) == body;
  }

  lemma LastByte(namespace: Text, app: Text)
    requires Segment(app)
    ensures
      var body := namespace + [SLASH] + app;
      !HasSuffixByte(body, SLASH) && TrimSuffix(body + [SLASH], SLASH) == body
  {
    var body := namespace + [SLASH] + app;
    assert app[|app| - 1] in app && body[|body| - 1] == app[|app| - 1];
    assert (body + [SLASH])[..|body|] == body;
  }

  // ---------------------------------------------------------------- overlap

  /** Two prefixes claim a common key. */
  predicate Overlap(a: Text, b: Text) { a <= b || b <= a }

  predicate Owns(prefix: Text, key: Text) { HasPrefix(key, prefix) }

  /** Overlap is exactly a key in common. */
  lemma OverlapIffCommonKey(a: Text, b: Text)
    ensures Overlap(a, b) <==> exists key :: Owns(a, key) && Owns(b, key)
  {
    if Overlap(a, b) {
      var longer := if a <= b then b else a;
      assert Owns(a, longer) && Owns(b, longer);
    }
    forall key | Owns(a, key) && Owns(b, key)
      ensures Overlap(a, b)
    {
      PrefixesNest(a, b, key);
    }
  }

  /** A string up to its first separator is determined by the string. */
  lemma FirstSegment(a: Text, x: Text, b: Text, y: Text)
    requires Free(a, SLASH) && Free(b, SLASH)
    requires a + [SLASH] + x <= b + [SLASH] + y
    ensures a == b && x <= y
  {
    var s, t := a + [SLASH] + x, b + [SLASH] + y;
    assert forall i :: 0 <= i < |s| ==> s[i] == t[i];
    assert forall i :: 0 <= i < |a| ==> s[i] == a[i] && a[i] in a;
    assert forall i :: 0 <= i < |b| ==> t[i] == b[i] && b[i] in b;
    assert s[|a|] == SLASH && t[|b|] == SLASH;
    assert |b| <= |a|;
    assert |a| <= |b|;
    assert forall i :: 0 <= i < |a| ==> a[i] == s[i] == t[i] == b[i];
    assert forall i :: 0 <= i < |x| ==> x[i] == s[|a| + 1 + i] == t[|b| + 1 + i] == y[i];
  }

  /** Applications whose names are single segments overlap only with themselves. */
  lemma AppPrefixesDisjoint(ns: Text, app: Text, ns': Text, app': Text)
    requires Free(ns, SLASH) && Free(app, SLASH) && Free(ns', SLASH) && Free(app', SLASH)
    ensures Overlap(AppScopePrefix(ns, app), AppScopePrefix(ns', app')) <==> (ns, app) == (ns', app')
  {
    if AppScopePrefix(ns, app) <= AppScopePrefix(ns', app') {
      PrefixDetermines(ns, app, ns', app');
    }
    if AppScopePrefix(ns', app') <= AppScopePrefix(ns, app) {
      PrefixDetermines(ns', app', ns, app);
    }
  }

  lemma PrefixDetermines(ns: Text, app: Text, ns': Text, app': Text)
    requires Free(ns, SLASH) && Free(app, SLASH) && Free(ns', SLASH) && Free(app', SLASH)
    requires AppScopePrefix(ns, app) <= AppScopePrefix(ns', app')
    ensures ns == ns' && app == app'
  {
    assert Free(Root(), SLASH);
    var x, x' := ns + [SLASH] + app + [SLASH], ns' + [SLASH] + app' + [SLASH];
    assert AppScopePrefix(ns, app) == Root() + [SLASH] + x;
    assert AppScopePrefix(ns', app') == Root() + [SLASH] + x';
    FirstSegment(Root(), x, Root(), x');
    assert x == ns + [SLASH] + (app + [SLASH]) && x' == ns' + [SLASH] + (app' + [SLASH]);
    FirstSegment(ns, app + [SLASH], ns', app' + [SLASH]);
    assert app + [SLASH] + [] == app + [SLASH] && app' + [SLASH] + [] == app' + [SLASH];
    FirstSegment(app, [], app', []);
  }

  // ---------------------------------------------------------------- names

  /** A scope can be minted for this application: both its name and its prefix are
      valid. */
  predicate CanMint(ns: Text, app: Text) {
    AppScopeName(ns, app).Some? && ValidScopePrefix(AppScopePrefix(ns, app))
  }

  lemma {:induction false} AsciiIsUtf8(s: Text)
    requires forall i :: 0 <= i < |s| ==> s[i] < 128
    ensures ValidUtf8(s)
  {
    if s != [] { AsciiIsUtf8(s[1..]); }
  }

  lemma HalvesOfName(ns: Text, app: Text)
    requires AppScopeName(ns, app).Some?
    ensures forall i :: 0 <= i < |ns| ==> NameByte(ns[i])
    ensures forall i :: 0 <= i < |app| ==> NameByte(app[i])
    ensures |ns| + |app| <= 58
  {
    var name := ComposedName(ns, app);
    assert forall i :: 0 <= i < |ns| ==> ns[i] == name[4 + i];
    assert forall i :: 0 <= i < |app| ==> app[i] == name[5 + |ns| + i];
  }

  /** An application has a scope exactly when its name composes and neither half of
      it is empty. */
  lemma CanMintIff(ns: Text, app: Text)
    ensures CanMint(ns, app) <==> AppScopeName(ns, app).Some? && Segment(ns) && Segment(app)
  {
    if AppScopeName(ns, app).Some? {
      HalvesOfName(ns, app);
      var prefix := AppScopePrefix(ns, app);
      var base := Root() + [SLASH] + ns + [SLASH] + app;
      assert prefix == base + [SLASH] && prefix[..|prefix| - 1] == base;
      var parts := [Root(), ns, app];
      assert Join(parts, SLASH) == base by {
        assert parts[1..] == [ns, app] && parts[1..][1..] == [app];
        assert Join([ns, app], SLASH) == ns + [SLASH] + Join([app], SLASH) by { assert [ns, app][1..] == [app]; }
        assert base == Root() + [SLASH] + (ns + [SLASH] + app);
      }
      SplitJoin(parts, SLASH);
      AsciiIsUtf8(base);
      assert parts[1] == ns && parts[2] == app && parts[0] == Root();
      assert app != [] ==> base[|base| - 1] == app[|app| - 1];
    }
  }

  /** Nobody else's scope bears this application's scope name. */
  ghost predicate NameIsOwn(ns: Text, app: Text) {
    forall ns', app' ::
      CanMint(ns', app') && AppScopeName(ns', app') == AppScopeName(ns, app) ==> (ns', app') == (ns, app)
  }

  /** Some dash in the composed name, other than the joining one, has something on
      both sides of it. */
  predicate InnerDash(ns: Text, app: Text)
    requires ns != [] && app != []
  {
    DASH in ns[1..] || DASH in app[..|app| - 1]
  }

  /** A scope's name is a label: among the applications that can have a scope it
      singles out one exactly when it can be split in only one place. */
  lemma NameIsOwnIffNoInnerDash(ns: Text, app: Text)
    requires CanMint(ns, app)
    ensures ns != [] && app != [] && (NameIsOwn(ns, app) <==> !InnerDash(ns, app))
  {
    CanMintIff(ns, app);
    if !InnerDash(ns, app) {
      forall ns', app' | CanMint(ns', app') && AppScopeName(ns', app') == AppScopeName(ns, app)
        ensures (ns', app') == (ns, app)
      {
        CanMintIff(ns', app');
        OneSplit(ns, app, ns', app');
      }
    } else if DASH in ns[1..] {
      var j :| 0 <= j < |ns[1..]| && ns[1..][j] == DASH;
      var i := j + 1;
      var ns', app' := ns[..i], ns[i + 1..] + [DASH] + app;
      assert ns == ns[..i] + [DASH] + ns[i + 1..];
      assert ComposedName(ns', app') == ComposedName(ns, app);
      NotOwn(ns, app, ns', app');
    } else {
      var i :| 0 <= i < |app[..|app| - 1]| && app[..|app| - 1][i] == DASH;
      var ns', app' := ns + [DASH] + app[..i], app[i + 1..];
      assert app == app[..i] + [DASH] + app[i + 1..];
      assert ComposedName(ns', app') == ComposedName(ns, app);
      NotOwn(ns, app, ns', app');
    }
  }

  lemma NotOwn(ns: Text, app: Text, ns': Text, app': Text)
    requires CanMint(ns, app) && ns' != [] && app' != []
    requires ComposedName(ns', app') == ComposedName(ns, app)
    requires |ns'| != |ns|
    ensures !NameIsOwn(ns, app)
  {
    assert AppScopeName(ns', app') == AppScopeName(ns, app);
    HalvesOfName(ns', app');
    CanMintIff(ns', app');
  }

  lemma OneSplit(ns: Text, app: Text, ns': Text, app': Text)
    requires ns != [] && app != [] && ns' != [] && app' != [] && !InnerDash(ns, app)
    requires ComposedName(ns', app') == ComposedName(ns, app)
    ensures ns' == ns && app' == app
  {
    var s, t := ns + [DASH] + app, ns' + [DASH] + app';
    assert ComposedName(ns, app) == (Root() + [DASH]) + s;
    assert ComposedName(ns', app') == (Root() + [DASH]) + t;
    assert s == ComposedName(ns, app)[|Root() + [DASH]|..];
    assert t == ComposedName(ns', app')[|Root() + [DASH]|..];
    assert s == t;
    assert t[|ns'|] == DASH && 0 < |ns'| < |t| - 1;
    forall i | 0 < i < |s| - 1 && i != |ns|
      ensures s[i] != DASH
    {
      if i < |ns| {
        assert s[i] == ns[1..][i - 1] && ns[1..][i - 1] in ns[1..];
      } else {
        var init := app[..|app| - 1];
        assert s[i] == init[i - |ns| - 1] && init[i - |ns| - 1] in init;
      }
    }
    assert |ns'| == |ns|;
    assert ns' == t[..|ns|] && ns == s[..|ns|];
    assert app' == t[|ns| + 1..] && app == s[|ns| + 1..];
  }

  /** Short halves of lowercase letters, digits and dashes compose a name. */
  lemma PlainNamesMint(ns: Text, app: Text)
    requires ns != [] && app != [] && |ns| + |app| <= 58
    requires forall i :: 0 <= i < |ns| ==> NameByte(ns[i])
    requires forall i :: 0 <= i < |app| ==> NameByte(app[i])
    ensures CanMint(ns, app)
  {
    hide CanMint;
    var name := ComposedName(ns, app);
    assert Root() == [97, 112, 112] && |name| == 5 + |ns| + |app|;
    forall i | 0 <= i < |name|
      ensures NameByte(name[i])
    {
      assert name[i] == if i < 3 then Root()[i] else if i == 3 then DASH else if i < 4 + |ns| then ns[i - 4]
                        else if i == 4 + |ns| then DASH else app[i - |ns| - 5];
    }
    CanMintIff(ns, app);
  }

  /** Two applications, each with a scope of its own, under one name. */
  lemma DashedNamesCollide()
    ensures CanMint(Ascii("a-b"), Ascii("c")) && CanMint(Ascii("a"), Ascii("b-c"))
    ensures AppScopeName(Ascii("a-b"), Ascii("c")) == AppScopeName(Ascii("a"), Ascii("b-c"))
    ensures !Overlap(AppScopePrefix(Ascii("a-b"), Ascii("c")), AppScopePrefix(Ascii("a"), Ascii("b-c")))
  {
    hide CanMint, Overlap, AppScopePrefix;
    var ab, a, bc, c := Ascii("a-b"), Ascii("a"), Ascii("b-c"), Ascii("c");
    assert ab == [97, DASH, 98] && a == [97] && bc == [98, DASH, 99] && c == [99];
    hide Ascii;
    PlainNamesMint(ab, c);
    PlainNamesMint(a, bc);
    assert [DASH] + ab + [DASH] + c == [DASH] + a + [DASH] + bc;
    assert ComposedName(ab, c) == Root() + ([DASH] + ab + [DASH] + c);
    assert ComposedName(a, bc) == Root() + ([DASH] + a + [DASH] + bc);
    hide ComposedName;
    AppPrefixesDisjoint(ab, c, a, bc);
  }

  // ---------------------------------------------------------------- secrets

  function IsSecretsKey(scopePrefix: Text, key: Text): bool {
    match CutPrefix(key, scopePrefix)
    case None => false
    case Some(rest) =>
      match CutPrefix(rest, SecretsSegment() + [SLASH])
      case None => false
      case Some(after) => after != []
  }

  /** A secret is anything strictly below <scope prefix>secrets/. */
  lemma SecretsSubtree(scopePrefix: Text, key: Text)
    ensures IsSecretsKey(scopePrefix, key)
      <==> HasPrefix(key, scopePrefix + SecretsSegment() + [SLASH])
           && key != scopePrefix + SecretsSegment() + [SLASH]
  {
    var root := scopePrefix + SecretsSegment() + [SLASH];
    if IsSecretsKey(scopePrefix, key) {
      var rest := key[|scopePrefix|..];
      assert key == scopePrefix + rest;
      assert rest == SecretsSegment() + [SLASH] + rest[|SecretsSegment()| + 1..];
      assert key == root + rest[|SecretsSegment()| + 1..];
    }
    if root <= key && key != root {
      assert key == root + key[|root|..];
      assert key[|scopePrefix|..] == SecretsSegment() + [SLASH] + key[|root|..];
      assert scopePrefix == key[..|scopePrefix|];
    }
  }
}
