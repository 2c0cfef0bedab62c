/** Key bytes on the heap. Copying an entry or a scope shares its bytes; only
    cloning copies them, and zeroing is seen by everyone who shares them. */
module KeyMaterial {
  import opened Basics
  import opened Keys

  type HeldEntry = EntryOf<array<byte>>
  type HeldScope = ScopeOf<array<byte>>

  // ---------------------------------------------------------------- what is held

  ghost function EntryArrays(entries: seq<HeldEntry>): set<array<byte>> {
    set i | 0 <= i < |entries| :: entries[i].key
  }

  ghost function Arrays(s: HeldScope): set<array<byte>> {
    EntryArrays(s.keys.nameKeys) + EntryArrays(s.keys.keks)
  }

  ghost function AllArrays(scopes: seq<HeldScope>): set<array<byte>> {
    set i, a | 0 <= i < |scopes| && a in Arrays(scopes[i]) :: a
  }

  // ---------------------------------------------------------------- what it is worth

  ghost function EntryValues(entries: seq<HeldEntry>): (r: seq<Entry>)
    reads EntryArrays(entries)
    ensures |r| == |entries|
    ensures forall i :: 0 <= i < |entries| ==> r[i] == Entry(entries[i].id, entries[i].created, entries[i].key[..])
  {
    if entries == [] then []
    else
      var last := |entries| - 1;
      assert EntryArrays(entries[..last]) <= EntryArrays(entries);
      assert entries[last].key in EntryArrays(entries);
      EntryValues(entries[..last]) + [Entry(entries[last].id, entries[last].created, entries[last].key[..])]
  }

  ghost function ScopeValue(s: HeldScope): Scope
    reads Arrays(s)
  {
    Scope(s.name, s.prefix, s.created, s.derivation, Lists(EntryValues(s.keys.nameKeys), EntryValues(s.keys.keks)))
  }

  ghost function ScopeValues(scopes: seq<HeldScope>): (r: seq<Scope>)
    reads AllArrays(scopes)
    ensures |r| == |scopes|
    ensures forall i :: 0 <= i < |scopes| ==> r[i] == ScopeValue(scopes[i])
  {
    if scopes == [] then []
    else
      var last := |scopes| - 1;
      assert AllArrays(scopes[..last]) <= AllArrays(scopes);
      assert Arrays(scopes[last]) <= AllArrays(scopes);
      ScopeValues(scopes[..last]) + [ScopeValue(scopes[last])]
  }

  /** Key arrays are as allocated as the records that mention them. */
  lemma Allocated(scopes: seq<HeldScope>)
    ensures forall a :: a in AllArrays(scopes) ==> allocated(a)
  {
  }

  lemma AllocatedScope(s: HeldScope)
    ensures forall a :: a in Arrays(s) ==> allocated(a)
  {
  }

  lemma NoArrays()
    ensures AllArrays([]) == {} && ScopeValues([]) == []
  {
  }

  lemma ArraysAppend(scopes: seq<HeldScope>, s: HeldScope)
    ensures AllArrays(scopes + [s]) == AllArrays(scopes) + Arrays(s)
  {
    var all := scopes + [s];
    assert forall i :: 0 <= i < |scopes| ==> all[i] == scopes[i];
    assert all[|scopes|] == s;
  }

  lemma ValuesAppend(scopes: seq<HeldScope>, s: HeldScope)
    ensures ScopeValues(scopes + [s]) == ScopeValues(scopes) + [ScopeValue(s)]
  {
    assert (scopes + [s])[..|scopes|] == scopes;
  }

  ghost predicate Wiped(a: array<byte>)
    reads a
  {
    forall i :: 0 <= i < a.Length ==> a[i] == 0
  }

  // ---------------------------------------------------------------- which arrays are whose

  ghost predicate EntriesShaped(entries: seq<HeldEntry>, worth: seq<Entry>) {
    |entries| == |worth|
    && forall i :: 0 <= i < |entries| ==>
         && entries[i].id == worth[i].id && entries[i].created == worth[i].created
         && entries[i].key.Length == |worth[i].key|
  }

  /** A record that carries this scope: the same entries, in arrays of their size,
      whatever those hold by now. */
  ghost predicate Shaped(s: HeldScope, worth: Scope) {
    && (s.name, s.prefix, s.created, s.derivation) == (worth.name, worth.prefix, worth.created, worth.derivation)
    && EntriesShaped(s.keys.nameKeys, worth.keys.nameKeys)
    && EntriesShaped(s.keys.keks, worth.keys.keks)
  }

  ghost predicate AllShaped(scopes: seq<HeldScope>, worth: seq<Scope>) {
    |scopes| == |worth| && forall i :: 0 <= i < |scopes| ==> Shaped(scopes[i], worth[i])
  }

  lemma WorthIsShape(s: HeldScope)
    ensures Shaped(s, ScopeValue(s))
  {
  }

  lemma WorthsAreShapes(scopes: seq<HeldScope>)
    ensures AllShaped(scopes, ScopeValues(scopes))
  {
    hide ScopeValue, Shaped;
    forall i | 0 <= i < |scopes|
      ensures Shaped(scopes[i], ScopeValues(scopes)[i])
    {
      WorthIsShape(scopes[i]);
    }
  }

  // ---------------------------------------------------------------- reading

  method ReadEntries(entries: seq<HeldEntry>) returns (r: seq<Entry>)
    ensures r == EntryValues(entries)
  {
    r := [];
    for i := 0 to |entries|
      invariant |r| == i
      invariant forall j :: 0 <= j < i ==> r[j] == Entry(entries[j].id, entries[j].created, entries[j].key[..])
    {
      r := r + [Entry(entries[i].id, entries[i].created, entries[i].key[..])];
    }
  }

  /** What a holder of the scope sees when it uses the keys. */
  method Read(s: HeldScope) returns (r: Scope)
    ensures r == ScopeValue(s)
  {
    var names := ReadEntries(s.keys.nameKeys);
    var keks := ReadEntries(s.keys.keks);
    r := Scope(s.name, s.prefix, s.created, s.derivation, Lists(names, keks));
  }

  // ---------------------------------------------------------------- wiping

  method Clear(a: array<byte>)
    modifies a
    ensures Wiped(a)
  {
    for i := 0 to a.Length
      invariant forall j :: 0 <= j < i ==> a[j] == 0
    {
      a[i] := 0;
    }
  }

  method ZeroEntries(entries: seq<HeldEntry>)
    modifies EntryArrays(entries)
    ensures forall a :: a in EntryArrays(entries) ==> Wiped(a)
  {
    for i := 0 to |entries|
      invariant forall j :: 0 <= j < i ==> Wiped(entries[j].key)
    {
      Clear(entries[i].key);
    }
  }

  /** Overwrite a scope's key material in place. */
  method Zero(s: HeldScope)
    modifies Arrays(s)
    ensures forall a :: a in Arrays(s) ==> Wiped(a)
  {
    ZeroEntries(s.keys.nameKeys);
    label Named:
    ZeroEntries(s.keys.keks);
    forall a | a in EntryArrays(s.keys.nameKeys)
      ensures Wiped(a)
    {
      assert a !in EntryArrays(s.keys.keks) ==> unchanged@Named(a);
    }
  }

  method ZeroAll(scopes: seq<HeldScope>)
    modifies AllArrays(scopes)
    ensures forall a :: a in AllArrays(scopes) ==> Wiped(a)
  {
    for i := 0 to |scopes|
      invariant forall j, a :: 0 <= j < i && a in Arrays(scopes[j]) ==> Wiped(a)
    {
      label Before:
      Zero(scopes[i]);
      forall j, a | 0 <= j <= i && a in Arrays(scopes[j])
        ensures Wiped(a)
      {
        assert a !in Arrays(scopes[i]) ==> unchanged@Before(a);
      }
    }
  }

  /** Whether the material has been wiped: every key present and all zeros. */
  method Zeroed(s: HeldScope) returns (zeroed: bool)
    ensures zeroed <==> forall a :: a in Arrays(s) ==> a.Length > 0 && Wiped(a)
  {
    zeroed := EntriesZeroed(s.keys.nameKeys);
    if zeroed { zeroed := EntriesZeroed(s.keys.keks); }
  }

  method EntriesZeroed(entries: seq<HeldEntry>) returns (zeroed: bool)
    ensures zeroed <==> forall a :: a in EntryArrays(entries) ==> a.Length > 0 && Wiped(a)
  {
    for i := 0 to |entries|
      invariant forall j :: 0 <= j < i ==> entries[j].key.Length > 0 && Wiped(entries[j].key)
    {
      var a := entries[i].key;
      assert a in EntryArrays(entries);
      if a.Length == 0 { return false; }
      for n := 0 to a.Length
        invariant forall m :: 0 <= m < n ==> a[m] == 0
      {
        if a[n] != 0 { return false; }
      }
    }
    zeroed := true;
  }

  // ---------------------------------------------------------------- cloning

  method CopyOf(a: array<byte>) returns (b: array<byte>)
    ensures fresh(b) && b[..] == a[..]
  {
    b := new byte[a.Length](i requires 0 <= i < a.Length reads a => a[i]);
  }

  /** The same entries over bytes of their own. */
  method CloneEntries(entries: seq<HeldEntry>) returns (out: seq<HeldEntry>)
    ensures EntryValues(out) == EntryValues(entries)
    ensures forall a :: a in EntryArrays(out) ==> fresh(a)
  {
    out := [];
    for i := 0 to |entries|
      invariant |out| == i
      invariant forall j :: 0 <= j < i ==> fresh(out[j].key) && out[j].key[..] == entries[j].key[..]
      invariant forall j :: 0 <= j < i ==> out[j].id == entries[j].id && out[j].created == entries[j].created
    {
      var key := CopyOf(entries[i].key);
      out := out + [Entry(entries[i].id, entries[i].created, key)];
    }
  }

  method Clone(s: HeldScope) returns (out: HeldScope)
    ensures ScopeValue(out) == ScopeValue(s)
    ensures forall a :: a in Arrays(out) ==> fresh(a)
  {
    var names := CloneEntries(s.keys.nameKeys);
    var keks := CloneEntries(s.keys.keks);
    out := s.(keys := Lists(names, keks));
  }
}
