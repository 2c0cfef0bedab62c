/** What a merge means: when it succeeds, what it holds, and that everything
    readable before is readable after. */
module MergeLaws {
  import opened Basics
  import opened ScopeNames
  import opened Keys
  import opened Merging

  function OrElse<T>(a: Option<T>, b: Option<T>): Option<T> { if a.Some? then a else b }

  // ---------------------------------------------------------------- entry lists

  /** Wherever both lists know an id, they know it by the same key. */
  ghost predicate Agree(a: seq<Entry>, b: seq<Entry>) {
    forall id :: Lookup(a, id).Some? && Lookup(b, id).Some? ==> Lookup(a, id) == Lookup(b, id)
  }

  lemma {:induction false} LookupAppend(a: seq<Entry>, e: Entry, id: KeyId)
    ensures Lookup(a + [e], id) == OrElse(Lookup(a, id), if e.id == id then Some(e.key) else None)
  {
    if a != [] {
      assert (a + [e])[1..] == a[1..] + [e];
      LookupAppend(a[1..], e, id);
    }
  }

  lemma LastIsFirst(entries: seq<Entry>, id: KeyId)
    requires DistinctIds(entries)
    ensures Lookup(entries, id) == match LastWith(entries, id) case None => None case Some(e) => Some(e.key)
  {
    match LastWith(entries, id)
    case Some(e) =>
      var i :| 0 <= i < |entries| && entries[i] == e;
      LookupFinds(entries, i);
    case None =>
  }

  /** Exactly the union: the live list first and unmoved, every id of either side
      under its own key, and nothing else. */
  ghost predicate IsUnion(out: seq<Entry>, live: seq<Entry>, incoming: seq<Entry>) {
    && ValidEntries(out)
    && live <= out
    && forall id :: Lookup(out, id) == OrElse(Lookup(live, id), Lookup(incoming, id))
  }

  /** Taking one more entry in, agreement comes down to that entry. */
  lemma AgreeAppend(live: seq<Entry>, init: seq<Entry>, e: Entry)
    requires Lookup(init, e.id) == None
    ensures Agree(live, init + [e]) <==> Agree(live, init) && (Lookup(live, e.id).Some? ==> Lookup(live, e.id) == Some(e.key))
  {
    hide Lookup;
    forall id
      ensures Lookup(init + [e], id) == OrElse(Lookup(init, id), if e.id == id then Some(e.key) else None)
    {
      LookupAppend(init, e, id);
    }
    if !Agree(live, init) {
      var id :| Lookup(live, id).Some? && Lookup(init, id).Some? && Lookup(live, id) != Lookup(init, id);
      assert Lookup(init + [e], id) == Lookup(init, id);
    }
    assert Lookup(init + [e], e.id) == Some(e.key);
  }

  /** And the union goes on: by the entry when its id is new, as it was otherwise. */
  lemma UnionAppend(out: seq<Entry>, live: seq<Entry>, init: seq<Entry>, e: Entry)
    requires IsUnion(out, live, init) && Lookup(init, e.id) == None && |e.key| == KEY_LEN
    ensures match LastWith(out, e.id)
            case None => Lookup(live, e.id).None? && IsUnion(out + [e], live, init + [e])
            case Some(held) =>
              && Lookup(live, e.id) == Some(held.key)
              && (held.key == e.key ==> IsUnion(out, live, init + [e]))
  {
    hide Lookup, LastWith;
    LastIsFirst(out, e.id);
    forall id
      ensures Lookup(init + [e], id) == OrElse(Lookup(init, id), if e.id == id then Some(e.key) else None)
      ensures Lookup(out + [e], id) == OrElse(Lookup(out, id), if e.id == id then Some(e.key) else None)
    {
      LookupAppend(init, e, id);
      LookupAppend(out, e, id);
    }
  }

  lemma LastIsNew(init: seq<Entry>, e: Entry)
    requires ValidEntries(init + [e])
    ensures ValidEntries(init) && Lookup(init, e.id) == None && |e.key| == KEY_LEN
  {
    var all := init + [e];
    assert all[|init|] == e && forall i :: 0 <= i < |init| ==> all[i] == init[i];
  }

  lemma {:induction false} EntriesMerge(live: seq<Entry>, incoming: seq<Entry>)
    requires ValidEntries(live) && ValidEntries(incoming)
    ensures MergeEntries(live, incoming).Some? <==> Agree(live, incoming)
    ensures MergeEntries(live, incoming).Some? ==> IsUnion(MergeEntries(live, incoming).value, live, incoming)
    decreases |incoming|
  {
    if incoming != [] {
      var init, e := incoming[..|incoming| - 1], incoming[|incoming| - 1];
      assert incoming == init + [e];
      hide Agree, IsUnion, Lookup, LastWith, ValidEntries;
      LastIsNew(init, e);
      EntriesMerge(live, init);
      AgreeAppend(live, init, e);
      if Agree(live, init) { UnionAppend(MergeEntries(live, init).value, live, init, e); }
    }
  }

  ghost predicate ListsAgree(a: Lists, b: Lists) { Agree(a.nameKeys, b.nameKeys) && Agree(a.keks, b.keks) }

  ghost predicate ListsUnion(out: Lists, live: Lists, incoming: Lists) {
    IsUnion(out.nameKeys, live.nameKeys, incoming.nameKeys) && IsUnion(out.keks, live.keks, incoming.keks)
  }

  lemma ListsMerge(a: Lists, b: Lists)
    requires ValidLists(a) && ValidLists(b)
    ensures MergeLists(a, b).Some? <==> ListsAgree(a, b)
    ensures MergeLists(a, b).Some? ==> ListsUnion(MergeLists(a, b).value, a, b) && ValidLists(MergeLists(a, b).value)
  {
    EntriesMerge(a.nameKeys, b.nameKeys);
    EntriesMerge(a.keks, b.keks);
  }

  // ---------------------------------------------------------------- scopes

  /** Two scopes that can live in one keyring: the same scope under the same
      prefix with agreeing keys and a name key in common, or two apart. */
  ghost predicate ScopesCompatible(a: Scope, b: Scope) {
    if a.name == b.name then
      a.prefix == b.prefix && ShareAnEntry(a.keys.nameKeys, b.keys.nameKeys) && ListsAgree(a.keys, b.keys)
    else !Overlap(a.prefix, b.prefix)
  }

  ghost predicate Compatible(a: seq<Scope>, b: seq<Scope>) {
    forall i, j :: 0 <= i < |a| && 0 <= j < |b| ==> ScopesCompatible(a[i], b[j])
  }

  /** What a name stands for after a merge. */
  ghost predicate NameMerged(out: seq<Scope>, live: seq<Scope>, incoming: seq<Scope>, name: Text) {
    match (ScopeNamed(live, name), ScopeNamed(incoming, name))
    case (Some(a), Some(b)) =>
      MergeLists(a.keys, b.keys).Some?
      && ScopeNamed(out, name) == Some(a.(keys := MergeLists(a.keys, b.keys).value))
    case (a, b) => ScopeNamed(out, name) == OrElse(a, b)
  }

  /** The live scopes first, in their order, each under its own name and prefix. */
  ghost predicate KeepsOrder(out: seq<Scope>, live: seq<Scope>) {
    |live| <= |out| && forall i :: 0 <= i < |live| ==> out[i].name == live[i].name && out[i].prefix == live[i].prefix
  }

  ghost predicate ScopesUnion(out: seq<Scope>, live: seq<Scope>, incoming: seq<Scope>) {
    ValidScopes(out) && KeepsOrder(out, live) && forall name :: NameMerged(out, live, incoming, name)
  }

  lemma {:induction false} NamedAppend(a: seq<Scope>, s: Scope, name: Text)
    ensures ScopeNamed(a + [s], name) == OrElse(ScopeNamed(a, name), if s.name == name then Some(s) else None)
  {
    if a != [] {
      assert (a + [s])[1..] == a[1..] + [s];
      NamedAppend(a[1..], s, name);
    }
  }

  lemma {:induction false} NamedUpdate(a: seq<Scope>, i: nat, s: Scope, name: Text)
    requires i < |a| && a[i].name == s.name && Separate(a)
    ensures ScopeNamed(a[i := s], name) == if s.name == name then Some(s) else ScopeNamed(a, name)
  {
    if i > 0 {
      assert a[i := s][1..] == a[1..][i - 1 := s];
      NamedUpdate(a[1..], i - 1, s, name);
    } else {
      assert a[0 := s][1..] == a[1..];
    }
  }

  lemma {:induction false} NamedAt(a: seq<Scope>, i: nat)
    requires i < |a| && Separate(a)
    ensures ScopeNamed(a, a[i].name) == Some(a[i])
  {
    if i > 0 {
      assert forall j :: 0 <= j < |a[1..]| ==> a[1..][j] == a[j + 1];
      NamedAt(a[1..], i - 1);
    }
  }

  lemma {:induction false} NamedIsAt(a: seq<Scope>, name: Text)
    ensures match ScopeNamed(a, name)
            case Some(s) => s.name == name && exists i :: 0 <= i < |a| && a[i] == s
            case None => forall i :: 0 <= i < |a| ==> a[i].name != name
  {
    if a != [] {
      assert forall j :: 0 <= j < |a[1..]| ==> a[1..][j] == a[j + 1];
      NamedIsAt(a[1..], name);
    }
  }

  /** What stands in a partial merge is a live scope's subtree or an incoming
      scope's own. */
  lemma Provenance(out: seq<Scope>, live: seq<Scope>, init: seq<Scope>, i: nat)
    requires Separate(out) && ScopesUnion(out, live, init) && i < |out|
    ensures (i < |live| && out[i].prefix == live[i].prefix) || out[i] in init
  {
    if i >= |live| {
      NamedAt(out, i);
      NamedIsAt(live, out[i].name);
      assert forall j :: 0 <= j < |live| ==> live[j].name == out[j].name;
      assert ScopeNamed(live, out[i].name) == None;
      assert NameMerged(out, live, init, out[i].name);
      NamedIsAt(init, out[i].name);
    }
  }

  lemma NewSucceeds(out: seq<Scope>, live: seq<Scope>, init: seq<Scope>, s: Scope)
    requires ValidScopes(live) && ValidScopes(init + [s])
    requires ScopesUnion(out, live, init) && LastNamed(out, s.name).None?
    ensures ScopeNamed(live, s.name) == None
    ensures !OverlapsAny(out, s.prefix) <==> forall j :: 0 <= j < |live| ==> ScopesCompatible(live[j], s)
  {
    hide ValidScope, NameMerged, Overlap, LastNamed, ScopeNamed;
    var all := init + [s];
    assert forall j :: 0 <= j < |init| ==> init[j] == all[j];
    assert s == all[|init|];
    assert forall j :: 0 <= j < |live| ==> live[j].name == out[j].name != s.name;
    NamedIsAt(live, s.name);
    forall i | 0 <= i < |out|
      ensures Overlap(out[i].prefix, s.prefix) ==> exists j :: 0 <= j < |live| && Overlap(live[j].prefix, s.prefix)
    {
      Provenance(out, live, init, i);
    }
    assert forall j :: 0 <= j < |live| ==> live[j].prefix == out[j].prefix;
  }

  /** A scope already there is the live one: nothing has merged into it yet. */
  lemma OldIsLive(out: seq<Scope>, live: seq<Scope>, init: seq<Scope>, s: Scope)
    requires ValidScopes(live) && ValidScopes(init + [s])
    requires ScopesUnion(out, live, init) && LastNamed(out, s.name).Some?
    ensures ScopeNamed(live, s.name) == Some(out[LastNamed(out, s.name).value])
    ensures ScopeNamed(init, s.name) == None
  {
    hide ValidScope, LastNamed, ScopeNamed;
    var k := LastNamed(out, s.name).value;
    NamedAt(out, k);
    assert NameMerged(out, live, init, s.name);
    var all := init + [s];
    assert forall j :: 0 <= j < |init| ==> init[j] == all[j];
    assert s == all[|init|];
    NamedIsAt(init, s.name);
  }

  lemma OldSucceeds(a: Scope, live: seq<Scope>, s: Scope)
    requires ValidScopes(live) && ValidScope(s) && ScopeNamed(live, s.name) == Some(a)
    ensures a.prefix == s.prefix && ShareAnEntry(a.keys.nameKeys, s.keys.nameKeys) && MergeLists(a.keys, s.keys).Some?
      <==> forall j :: 0 <= j < |live| ==> ScopesCompatible(live[j], s)
  {
    hide MergeLists, ListsAgree, ListsUnion, ShareAnEntry, ValidLists, ScopeNamed, ValidScopeName, ValidScopePrefix;
    NamedIsAt(live, s.name);
    var j :| 0 <= j < |live| && live[j] == a;
    assert ValidScope(live[j]);
    ListsMerge(a.keys, s.keys);
    assert a.prefix == s.prefix ==> forall m :: 0 <= m < |live| && m != j ==> ScopesCompatible(live[m], s);
  }

  /** A scope merges into what is already there exactly when it is compatible
      with every live scope. */
  lemma StepSucceeds(out: seq<Scope>, live: seq<Scope>, init: seq<Scope>, s: Scope)
    requires ValidScopes(live) && ValidScopes(init + [s])
    requires ScopesUnion(out, live, init)
    ensures MergeScope(out, s).Some? <==> forall j :: 0 <= j < |live| ==> ScopesCompatible(live[j], s)
  {
    hide LastNamed, ScopeNamed, ScopesUnion, ScopesCompatible, ShareAnEntry, MergeLists, OverlapsAny, ValidScope;
    match LastNamed(out, s.name)
    case None =>
      NewSucceeds(out, live, init, s);
    case Some(k) =>
      OldIsLive(out, live, init, s);
      assert s == (init + [s])[|init|];
      OldSucceeds(out[k], live, s);
  }

  lemma NewUnion(out: seq<Scope>, live: seq<Scope>, init: seq<Scope>, s: Scope)
    requires ValidScopes(live) && ValidScopes(init + [s])
    requires ScopesUnion(out, live, init) && LastNamed(out, s.name).None? && !OverlapsAny(out, s.prefix)
    ensures ScopesUnion(out + [s], live, init + [s])
  {
    hide ValidScope, LastNamed, ScopeNamed, MergeLists;
    var out', all := out + [s], init + [s];
    assert s == all[|init|];
    NamedIsAt(out, s.name);
    NewSucceeds(out, live, init, s);
    forall name
      ensures NameMerged(out', live, all, name)
    {
      NamedAppend(out, s, name);
      NamedAppend(init, s, name);
      assert NameMerged(out, live, init, name);
    }
  }

  lemma OldUnion(out: seq<Scope>, live: seq<Scope>, init: seq<Scope>, s: Scope, k: nat, keys: Lists)
    requires ValidScopes(live) && ValidScopes(init + [s])
    requires ScopesUnion(out, live, init) && LastNamed(out, s.name) == Some(k)
    requires out[k].prefix == s.prefix && MergeLists(out[k].keys, s.keys) == Some(keys)
    ensures ScopesUnion(out[k := out[k].(keys := keys)], live, init + [s])
  {
    hide LastNamed, ScopeNamed, MergeLists, ValidLists, Overlap, ListsUnion;
    var merged := out[k].(keys := keys);
    var out', all := out[k := merged], init + [s];
    assert s == all[|init|];
    OldIsLive(out, live, init, s);
    ListsMerge(out[k].keys, s.keys);
    forall name
      ensures NameMerged(out', live, all, name)
    {
      NamedUpdate(out, k, merged, name);
      NamedAppend(init, s, name);
      assert NameMerged(out, live, init, name);
    }
  }

  lemma StepUnion(out: seq<Scope>, live: seq<Scope>, init: seq<Scope>, s: Scope)
    requires ValidScopes(live) && ValidScopes(init + [s])
    requires ScopesUnion(out, live, init) && MergeScope(out, s).Some?
    ensures ScopesUnion(MergeScope(out, s).value, live, init + [s])
  {
    hide LastNamed, ScopeNamed, ScopesUnion, ShareAnEntry, MergeLists, OverlapsAny, ValidScopes;
    match LastNamed(out, s.name)
    case None =>
      NewUnion(out, live, init, s);
    case Some(k) =>
      OldUnion(out, live, init, s, k, MergeLists(out[k].keys, s.keys).value);
  }

  lemma {:induction false} ScopesMerge(live: seq<Scope>, incoming: seq<Scope>)
    requires ValidScopes(live) && ValidScopes(incoming)
    ensures MergeScopes(live, incoming).Some? <==> Compatible(live, incoming)
    ensures MergeScopes(live, incoming).Some? ==> ScopesUnion(MergeScopes(live, incoming).value, live, incoming)
    decreases |incoming|
  {
    if incoming == [] {
      forall name
        ensures NameMerged(live, live, [], name)
      {
        NamedIsAt(live, name);
      }
    } else {
      hide MergeScope, ScopesUnion, ScopesCompatible;
      var init, s := incoming[..|incoming| - 1], incoming[|incoming| - 1];
      assert incoming == init + [s];
      ScopesMerge(live, init);
      if MergeScopes(live, init).Some? {
        var out := MergeScopes(live, init).value;
        StepSucceeds(out, live, init, s);
        if MergeScope(out, s).Some? {
          StepUnion(out, live, init, s);
        }
      }
    }
  }

  // ---------------------------------------------------------------- keyrings

  ghost predicate KeyringsCompatible(a: Keyring, b: Keyring) {
    ListsAgree(a.own, b.own) && Compatible(a.scopes, b.scopes)
  }

  /** A merge succeeds exactly when nothing in the two keyrings contradicts, and
      then holds exactly their union with every live list as a prefix. */
  lemma MergeIsUnion(k: Keyring, other: Keyring)
    requires ValidKeyring(k) && ValidKeyring(other)
    ensures Merge(k, other).Some? <==> KeyringsCompatible(k, other)
    ensures Merge(k, other).Some? ==>
      var r := Merge(k, other).value;
      && ValidKeyring(r)
      && ListsUnion(r.own, k.own, other.own)
      && ScopesUnion(r.scopes, k.scopes, other.scopes)
  {
    hide ListsAgree, Compatible, ListsUnion, MergeLists, ValidLists, MergeScopes;
    ListsMerge(k.own, other.own);
    ScopesMerge(k.scopes, other.scopes);
  }

  lemma CompatibleSymmetric(a: Scope, b: Scope)
    ensures ScopesCompatible(a, b) <==> ScopesCompatible(b, a)
  {
    assert ShareAnEntry(a.keys.nameKeys, b.keys.nameKeys) <==> ShareAnEntry(b.keys.nameKeys, a.keys.nameKeys);
  }

  /** Whichever keyring is taken as the live one, the answer is the same. */
  lemma MergeSucceedsBothWays(a: Keyring, b: Keyring)
    requires ValidKeyring(a) && ValidKeyring(b)
    ensures Merge(a, b).Some? <==> Merge(b, a).Some?
  {
    hide ValidKeyring, ScopesCompatible, ScopesUnion, ListsUnion, Merge;
    MergeIsUnion(a, b);
    MergeIsUnion(b, a);
    forall x, y
      ensures ScopesCompatible(x, y) <==> ScopesCompatible(y, x)
    {
      CompatibleSymmetric(x, y);
    }
  }

  // ---------------------------------------------------------------- idempotence

  /** Everything the incoming list knows, the live one knows alike. */
  ghost predicate Absorbs(live: seq<Entry>, incoming: seq<Entry>) {
    forall id :: Lookup(incoming, id).Some? ==> Lookup(live, id) == Lookup(incoming, id)
  }

  ghost predicate ScopeAbsorbed(live: seq<Scope>, s: Scope) {
    match ScopeNamed(live, s.name)
    case None => false
    case Some(a) =>
      && a.prefix == s.prefix && ShareAnEntry(a.keys.nameKeys, s.keys.nameKeys)
      && Absorbs(a.keys.nameKeys, s.keys.nameKeys) && Absorbs(a.keys.keks, s.keys.keks)
  }

  lemma {:induction false} AbsorbedEntries(live: seq<Entry>, incoming: seq<Entry>)
    requires DistinctIds(live) && DistinctIds(incoming) && Absorbs(live, incoming)
    ensures MergeEntries(live, incoming) == Some(live)
    decreases |incoming|
  {
    if incoming != [] {
      var init, e := incoming[..|incoming| - 1], incoming[|incoming| - 1];
      assert incoming == init + [e];
      forall id
        ensures Lookup(incoming, id) == OrElse(Lookup(init, id), if e.id == id then Some(e.key) else None)
      {
        LookupAppend(init, e, id);
      }
      AbsorbedEntries(live, init);
      assert Lookup(init, e.id) == None;
      LastIsFirst(live, e.id);
    }
  }

  lemma {:induction false} AbsorbedScopes(live: seq<Scope>, incoming: seq<Scope>)
    requires ValidScopes(live) && ValidScopes(incoming)
    requires forall i :: 0 <= i < |incoming| ==> ScopeAbsorbed(live, incoming[i])
    ensures MergeScopes(live, incoming) == Some(live)
    decreases |incoming|
  {
    if incoming != [] {
      var init, s := incoming[..|incoming| - 1], incoming[|incoming| - 1];
      AbsorbedScopes(live, init);
      assert ScopeAbsorbed(live, s);
      NamedIsAt(live, s.name);
      var k := LastNamed(live, s.name).value;
      NamedAt(live, k);
      AbsorbedEntries(live[k].keys.nameKeys, s.keys.nameKeys);
      AbsorbedEntries(live[k].keys.keks, s.keys.keks);
      assert live[k := live[k].(keys := live[k].keys)] == live;
    }
  }

  lemma {:induction false} NamedAbsorbs(out: seq<Scope>, live: seq<Scope>, incoming: seq<Scope>, i: nat)
    requires ValidScopes(live) && ValidScopes(incoming) && i < |incoming|
    requires ScopesUnion(out, live, incoming) && Compatible(live, incoming)
    ensures ScopeAbsorbed(out, incoming[i])
  {
    hide MergeLists, MergeEntries, Lookup, Overlap;
    var s := incoming[i];
    NamedAt(incoming, i);
    assert NameMerged(out, live, incoming, s.name);
    match ScopeNamed(live, s.name)
    case None =>
      assert s.keys.nameKeys[0].id == s.keys.nameKeys[0].id;
    case Some(a) =>
      NamedIsAt(live, s.name);
      var j :| 0 <= j < |live| && live[j] == a;
      assert ScopesCompatible(live[j], incoming[i]);
      assert ValidScope(live[j]) && ValidScope(incoming[i]);
      MergedListsAbsorb(a.keys, s.keys);
  }

  /** Two lists merged still share an entry with the incoming one, and absorb it. */
  lemma MergedListsAbsorb(a: Lists, b: Lists)
    requires ValidLists(a) && ValidLists(b) && ListsAgree(a, b) && ShareAnEntry(a.nameKeys, b.nameKeys)
    ensures MergeLists(a, b).Some?
    ensures
      var out := MergeLists(a, b).value;
      ShareAnEntry(out.nameKeys, b.nameKeys) && Absorbs(out.nameKeys, b.nameKeys) && Absorbs(out.keks, b.keks)
  {
    hide MergeLists, Lookup, ValidEntries;
    ListsMerge(a, b);
    var x, y :| 0 <= x < |a.nameKeys| && 0 <= y < |b.nameKeys| && a.nameKeys[x].id == b.nameKeys[y].id;
    assert MergeLists(a, b).value.nameKeys[x].id == b.nameKeys[y].id;
  }

  /** Importing the same keyring a second time changes nothing. */
  lemma MergeTwiceIsOnce(k: Keyring, other: Keyring)
    requires ValidKeyring(k) && ValidKeyring(other) && Merge(k, other).Some?
    ensures Merge(Merge(k, other).value, other) == Merge(k, other)
  {
    hide MergeLists, MergeScopes, ScopeAbsorbed, Lookup, ValidScope;
    MergeIsUnion(k, other);
    var r := Merge(k, other).value;
    assert Absorbs(r.own.nameKeys, other.own.nameKeys);
    assert Absorbs(r.own.keks, other.own.keks);
    AbsorbedLists(r.own, other.own);
    forall i | 0 <= i < |other.scopes|
      ensures ScopeAbsorbed(r.scopes, other.scopes[i])
    {
      NamedAbsorbs(r.scopes, k.scopes, other.scopes, i);
    }
    AbsorbedScopes(r.scopes, other.scopes);
  }

  lemma AbsorbedLists(a: Lists, b: Lists)
    requires ValidLists(a) && ValidLists(b)
    requires Absorbs(a.nameKeys, b.nameKeys) && Absorbs(a.keks, b.keks)
    ensures MergeLists(a, b) == Some(a)
  {
    AbsorbedEntries(a.nameKeys, b.nameKeys);
    AbsorbedEntries(a.keks, b.keks);
  }

  /** Merging a keyring into itself gives it back. */
  lemma MergeWithItself(k: Keyring)
    requires ValidKeyring(k)
    ensures Merge(k, k) == Some(k)
  {
    hide MergeLists, MergeScopes, Lookup;
    AbsorbedLists(k.own, k.own);
    forall i | 0 <= i < |k.scopes|
      ensures ScopeAbsorbed(k.scopes, k.scopes[i])
    {
      NamedAt(k.scopes, i);
      assert k.scopes[i].keys.nameKeys[0].id == k.scopes[i].keys.nameKeys[0].id;
    }
    AbsorbedScopes(k.scopes, k.scopes);
  }
}
