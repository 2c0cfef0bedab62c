/** Merging a second keyring into a live one: entries the live side lacks are
    added, nothing it holds is changed, and two keyrings that contradict each
    other are refused. */
module Merging {
  import opened Basics
  import opened ScopeNames
  import opened Keys

  /** The last entry carrying an id: what a map built by going through the list
      in order holds for it. */
  function LastWith(entries: seq<Entry>, id: KeyId): (r: Option<Entry>)
    ensures r.Some? ==> r.value.id == id && r.value in entries
    ensures r.None? ==> forall i :: 0 <= i < |entries| ==> entries[i].id != id
  {
    if entries == [] then None
    else if entries[|entries| - 1].id == id then Some(entries[|entries| - 1])
    else LastWith(entries[..|entries| - 1], id)
  }

  function MergeEntries(live: seq<Entry>, incoming: seq<Entry>): Option<seq<Entry>> {
    if incoming == [] then Some(live) else
    match MergeEntries(live, incoming[..|incoming| - 1])
    case None => None
    case Some(out) =>
      var e := incoming[|incoming| - 1];
      match LastWith(out, e.id)
      case None => Some(out + [e])
      case Some(held) => if held.key == e.key then Some(out) else None
  }

  function MergeLists(a: Lists, b: Lists): Option<Lists> {
    match MergeEntries(a.nameKeys, b.nameKeys)
    case None => None
    case Some(names) =>
      match MergeEntries(a.keks, b.keks)
      case None => None
      case Some(keks) => Some(Lists(names, keks))
  }

  predicate ShareAnEntry(a: seq<Entry>, b: seq<Entry>) {
    exists i, j :: 0 <= i < |a| && 0 <= j < |b| && a[i].id == b[j].id
  }

  /** The last scope with a name. */
  function LastNamed(scopes: seq<Scope>, name: Text): (r: Option<nat>)
    ensures r.Some? ==> r.value < |scopes| && scopes[r.value].name == name
    ensures r.None? ==> forall i :: 0 <= i < |scopes| ==> scopes[i].name != name
  {
    if scopes == [] then None
    else if scopes[|scopes| - 1].name == name then Some(|scopes| - 1)
    else LastNamed(scopes[..|scopes| - 1], name)
  }

  predicate OverlapsAny(scopes: seq<Scope>, prefix: Text) {
    exists i :: 0 <= i < |scopes| && Overlap(scopes[i].prefix, prefix)
  }

  function MergeScope(out: seq<Scope>, s: Scope): Option<seq<Scope>> {
    match LastNamed(out, s.name)
    case None => if OverlapsAny(out, s.prefix) then None else Some(out + [s])
    case Some(i) =>
      if out[i].prefix != s.prefix then None
      else if !ShareAnEntry(out[i].keys.nameKeys, s.keys.nameKeys) then None
      else match MergeLists(out[i].keys, s.keys)
      case None => None
      case Some(keys) => Some(out[i := out[i].(keys := keys)])
  }

  function MergeScopes(live: seq<Scope>, incoming: seq<Scope>): Option<seq<Scope>> {
    if incoming == [] then Some(live) else
    match MergeScopes(live, incoming[..|incoming| - 1])
    case None => None
    case Some(out) => MergeScope(out, incoming[|incoming| - 1])
  }

  function Merge(k: Keyring, other: Keyring): Option<Keyring> {
    match MergeLists(k.own, other.own)
    case None => None
    case Some(own) =>
      match MergeScopes(k.scopes, other.scopes)
      case None => None
      case Some(scopes) => Some(Keyring(own, scopes))
  }

  // ---------------------------------------------------------------- the loops

  lemma LastWithAppend(entries: seq<Entry>, e: Entry, id: KeyId)
    ensures LastWith(entries + [e], id) == if e.id == id then Some(e) else LastWith(entries, id)
  {
    assert (entries + [e])[..|entries|] == entries;
  }

  lemma LastNamedAppend(scopes: seq<Scope>, s: Scope, name: Text)
    ensures LastNamed(scopes + [s], name) == if s.name == name then Some(|scopes|) else LastNamed(scopes, name)
  {
    assert (scopes + [s])[..|scopes|] == scopes;
  }

  /** Replacing a scope under its own name moves no name. */
  lemma {:induction false} LastNamedUpdate(scopes: seq<Scope>, i: nat, s: Scope, name: Text)
    requires i < |scopes| && s.name == scopes[i].name
    ensures LastNamed(scopes[i := s], name) == LastNamed(scopes, name)
  {
    var last := |scopes| - 1;
    if i < last {
      assert scopes[i := s][..last] == scopes[..last][i := s];
      LastNamedUpdate(scopes[..last], i, s, name);
    } else {
      assert scopes[i := s][..last] == scopes[..last];
    }
  }

  /** A look-up table that answers as a scan from the end would. */
  ghost predicate Indexes(held: map<KeyId, Entry>, entries: seq<Entry>) {
    forall id :: LastWith(entries, id) == if id in held then Some(held[id]) else None
  }

  ghost predicate IndexesNames(at: map<Text, nat>, scopes: seq<Scope>) {
    forall name :: LastNamed(scopes, name) == if name in at then Some(at[name]) else None
  }

  method MergeEntryLists(live: seq<Entry>, incoming: seq<Entry>) returns (r: Option<seq<Entry>>)
    ensures r == MergeEntries(live, incoming)
  {
    var held: map<KeyId, Entry> := map[];
    for i := 0 to |live|
      invariant Indexes(held, live[..i])
    {
      assert live[..i + 1] == live[..i] + [live[i]];
      forall id { LastWithAppend(live[..i], live[i], id); }
      held := held[live[i].id := live[i]];
    }
    assert live[..|live|] == live;
    var out := live;
    for i := 0 to |incoming|
      invariant Indexes(held, out)
      invariant MergeEntries(live, incoming[..i]) == Some(out)
    {
      var e := incoming[i];
      assert incoming[..i + 1][..i] == incoming[..i];
      if e.id !in held {
        forall id { LastWithAppend(out, e, id); }
        held := held[e.id := e];
        out := out + [e];
      } else if held[e.id].key != e.key {
        Refused(live, incoming, i + 1);
        return None;
      }
    }
    assert incoming[..|incoming|] == incoming;
    r := Some(out);
  }

  /** A refusal part of the way through is a refusal. */
  lemma {:induction false} Refused(live: seq<Entry>, incoming: seq<Entry>, n: nat)
    requires n <= |incoming| && MergeEntries(live, incoming[..n]) == None
    ensures MergeEntries(live, incoming) == None
    decreases |incoming|
  {
    if n < |incoming| {
      var init := incoming[..|incoming| - 1];
      assert init[..n] == incoming[..n];
      Refused(live, init, n);
    } else {
      assert incoming[..n] == incoming;
    }
  }

  lemma {:induction false} RefusedScopes(live: seq<Scope>, incoming: seq<Scope>, n: nat)
    requires n <= |incoming| && MergeScopes(live, incoming[..n]) == None
    ensures MergeScopes(live, incoming) == None
    decreases |incoming|
  {
    if n < |incoming| {
      var init := incoming[..|incoming| - 1];
      assert init[..n] == incoming[..n];
      RefusedScopes(live, init, n);
    } else {
      assert incoming[..n] == incoming;
    }
  }

  method SharesAnEntry(a: seq<Entry>, b: seq<Entry>) returns (shared: bool)
    ensures shared == ShareAnEntry(a, b)
  {
    for i := 0 to |a|
      invariant !ShareAnEntry(a[..i], b)
    {
      for j := 0 to |b|
        invariant !ShareAnEntry(a[..i], b)
        invariant forall m :: 0 <= m < j ==> a[i].id != b[m].id
      {
        if a[i].id == b[j].id { return true; }
      }
      assert forall m :: 0 <= m < i ==> a[..i][m] == a[m];
    }
    assert a[..|a|] == a;
    shared := false;
  }

  method MergeKeyLists(a: Lists, b: Lists) returns (r: Option<Lists>)
    ensures r == MergeLists(a, b)
  {
    var names := MergeEntryLists(a.nameKeys, b.nameKeys);
    if names.None? { return None; }
    var keks := MergeEntryLists(a.keks, b.keks);
    if keks.None? { return None; }
    r := Some(Lists(names.value, keks.value));
  }

  method HasOverlap(scopes: seq<Scope>, prefix: Text) returns (found: bool)
    ensures found == OverlapsAny(scopes, prefix)
  {
    for i := 0 to |scopes|
      invariant forall m :: 0 <= m < i ==> !Overlap(scopes[m].prefix, prefix)
    {
      if Overlap(scopes[i].prefix, prefix) { return true; }
    }
    found := false;
  }

  method MergeOneScope(out: seq<Scope>, at: map<Text, nat>, s: Scope)
    returns (r: Option<seq<Scope>>, at': map<Text, nat>)
    requires IndexesNames(at, out)
    ensures r == MergeScope(out, s)
    ensures r.Some? ==> IndexesNames(at', r.value)
  {
    at' := at;
    assert LastNamed(out, s.name) == if s.name in at then Some(at[s.name]) else None;
    if s.name !in at {
      var overlaps := HasOverlap(out, s.prefix);
      if overlaps { return None, at; }
      forall name { LastNamedAppend(out, s, name); }
      return Some(out + [s]), at[s.name := |out|];
    }
    var i := at[s.name];
    if out[i].prefix != s.prefix { return None, at; }
    var shared := SharesAnEntry(out[i].keys.nameKeys, s.keys.nameKeys);
    if !shared { return None, at; }
    var merged := MergeKeyLists(out[i].keys, s.keys);
    if merged.None? { return None, at; }
    forall name { LastNamedUpdate(out, i, out[i].(keys := merged.value), name); }
    r := Some(out[i := out[i].(keys := merged.value)]);
  }

  method MergeScopeLists(live: seq<Scope>, incoming: seq<Scope>) returns (r: Option<seq<Scope>>)
    ensures r == MergeScopes(live, incoming)
  {
    var at: map<Text, nat> := map[];
    for i := 0 to |live|
      invariant IndexesNames(at, live[..i])
    {
      assert live[..i + 1] == live[..i] + [live[i]];
      forall name { LastNamedAppend(live[..i], live[i], name); }
      at := at[live[i].name := i];
    }
    assert live[..|live|] == live;
    var out := live;
    for n := 0 to |incoming|
      invariant IndexesNames(at, out)
      invariant MergeScopes(live, incoming[..n]) == Some(out)
    {
      hide MergeScope, IndexesNames;
      assert incoming[..n + 1][..n] == incoming[..n];
      var merged, at' := MergeOneScope(out, at, incoming[n]);
      if merged.None? {
        RefusedScopes(live, incoming, n + 1);
        return None;
      }
      out, at := merged.value, at';
    }
    assert incoming[..|incoming|] == incoming;
    r := Some(out);
  }

  method MergeKeyrings(k: Keyring, other: Keyring) returns (r: Option<Keyring>)
    ensures r == Merge(k, other)
  {
    var own := MergeKeyLists(k.own, other.own);
    if own.None? { return None; }
    var scopes := MergeScopeLists(k.scopes, other.scopes);
    if scopes.None? { return None; }
    r := Some(Keyring(own.value, scopes.value));
  }
}
