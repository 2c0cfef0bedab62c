/** The in-cluster process's key material and its seal state. Each method is one
    critical section of the source's lock. */
module Vaults {
  import opened Basics
  import opened ScopeNames
  import opened Keys
  import opened Identities
  import opened Keyrings
  import opened KeyMaterial
  import V = VaultSpec

  /** The keys an operator hands over. Its scopes share their bytes with whatever
      they were built from. */
  class Bundle {
    const instance: Text
    const generation: nat
    var scopes: seq<HeldScope>
    var zeroed: bool

    constructor (instance: Text, generation: nat, scopes: seq<HeldScope>)
      ensures this.instance == instance && this.generation == generation && this.scopes == scopes && !zeroed
    {
      this.instance, this.generation, this.scopes, zeroed := instance, generation, scopes, false;
    }

    ghost function Held(): set<array<byte>>
      reads this
    {
      AllArrays(scopes)
    }

    ghost function Value(): V.BundleValue
      reads this, Held()
    {
      V.BundleValue(instance, generation, ScopeValues(scopes))
    }

    /** Wipe the material wherever it is shared, and forget it. */
    method Zero()
      modifies this, Held()
      ensures zeroed && scopes == []
      ensures forall a :: a in old(Held()) ==> Wiped(a)
    {
      ZeroAll(scopes);
      scopes, zeroed := [], true;
    }
  }

  class Vault {
    const instance: Text
    var phase: V.Phase
    var since: int
    var holdReason: Text
    var generation: nat
    var scopes: seq<HeldScope>

    constructor (instance: Text, now: int)
      ensures Held() == {} && Value() == V.Started(instance, now)
    {
      this.instance, phase, since, holdReason, generation, scopes := instance, V.RestartSealed, now, [], 0, [];
    }

    ghost function Held(): set<array<byte>>
      reads this
    {
      AllArrays(scopes)
    }

    ghost function Value(): V.VaultState
      reads this, Held()
    {
      V.VaultState(instance, phase, since, holdReason, generation, ScopeValues(scopes))
    }

    /** Forget the key material. */
    method Drop()
      modifies this`scopes, Held()
      ensures scopes == []
      ensures forall a :: a in old(Held()) ==> Wiped(a)
    {
      ZeroAll(scopes);
      scopes := [];
    }

    /** Clones of a bundle's scopes, unless one of them is unusable. */
    method CloneScopes(given: seq<HeldScope>) returns (r: Option<seq<HeldScope>>)
      ensures r.Some? <==> V.AllValid(ScopeValues(given))
      ensures r.Some? ==> ScopeValues(r.value) == ScopeValues(given)
      ensures r.Some? ==> forall a :: a in AllArrays(r.value) ==> fresh(a)
    {
      hide ValidScope, ScopeValue, ScopeValues, Arrays, AllArrays;
      Allocated(given);
      ghost var values := ScopeValues(given);
      var out: seq<HeldScope> := [];
      NoArrays();
      assert ScopeValues(out) == values[..0];
      for i := 0 to |given|
        invariant |out| == i
        invariant forall j :: 0 <= j < i ==> ValidScope(values[j])
        invariant ScopeValues(out) == values[..i]
        invariant forall a :: a in AllArrays(out) ==> fresh(a)
        invariant ScopeValues(given) == values
      {
        Allocated(out);
        var value := Read(given[i]);
        var valid := CheckScope(value);
        if !valid { return None; }
        var own := Clone(given[i]);
        assert ScopeValues(out) == values[..i];
        ArraysAppend(out, own);
        ValuesAppend(out, own);
        assert ScopeValues(given)[i] == ScopeValue(given[i]);
        assert ScopeValues(out + [own]) == values[..i + 1];
        out := out + [own];
      }
      r := Some(out);
    }

    /** Install a bundle's scopes. The new set is built whole, over bytes of its
        own, before the old one is dropped; a refusal leaves everything alone. */
    method Unseal(b: Bundle?, intent: Intent, now: int) returns (refusal: Option<V.Refusal>)
      modifies this, Held()
      ensures (Value(), refusal)
           == V.Unseal(old(Value()), if b == null then None else Some(old(b.Value())), intent, now)
      ensures b == null || refusal.Some? || old(V.Repeats(Value(), b.Value())) ==> unchanged(this)
      ensures !(b == null || refusal.Some? || old(V.Repeats(Value(), b.Value()))) ==> forall a :: a in Held() ==> fresh(a)
      ensures !(b == null || refusal.Some? || old(V.Repeats(Value(), b.Value()))) ==> forall a :: a in old(Held()) ==> Wiped(a)
    {
      hide ScopeValues, ScopeValue, ValidScope, AllArrays, Arrays, V.AllValid, Wiped;
      Allocated(scopes);
      if b != null { Allocated(b.scopes); }
      if b == null { return Some(V.NilBundle); }
      if b.instance != instance { return Some(V.InstanceMismatch); }
      if intent == HandOver && phase != V.Unsealed { return Some(V.NotServing); }
      if intent == RestartReseed && phase == V.Unsealed { return Some(V.AlreadyServing); }
      if phase == V.OperatorHold && intent != OperatorUnseal { return Some(V.Held); }
      if b.generation < generation { return Some(V.GenerationTooOld); }
      if phase == V.Unsealed && b.generation == generation { return None; }
      var cloned := CloneScopes(b.scopes);
      if cloned.None? { return Some(V.InvalidScope); }
      Allocated(cloned.value);
      ghost var values := ScopeValues(cloned.value);
      Drop();
      assert ScopeValues(cloned.value) == values;
      scopes := cloned.value;
      generation := b.generation;
      phase := V.Unsealed;
      holdReason := [];
      since := now;
      refusal := None;
    }

    /** Drop the key material, by a person's decision or not. */
    method Seal(hold: bool, reason: Text, now: int)
      modifies this, Held()
      ensures Value() == V.Seal(old(Value()), hold, reason, now)
      ensures Held() == {} && forall a :: a in old(Held()) ==> Wiped(a)
    {
      Drop();
      if hold {
        phase := V.OperatorHold;
        holdReason := reason;
      } else {
        phase := V.RestartSealed;
        holdReason := [];
      }
      since := now;
    }

    method ReleaseHold(now: int)
      modifies this`phase, this`holdReason, this`since
      ensures Value() == V.ReleaseHold(old(Value()), now)
      ensures scopes == old(scopes)
    {
      Allocated(scopes);
      hide ScopeValues, AllArrays;
      if phase == V.OperatorHold {
        phase := V.RestartSealed;
        holdReason := [];
        since := now;
      }
    }

    /** The scope owning a logical key, as the caller's own copy. */
    method Scope(key: Text) returns (r: Result<HeldScope, V.AccessError>)
      ensures match r
              case Err(e) => V.ScopeFor(Value(), key) == Err(e)
              case Ok(s) => V.ScopeFor(Value(), key) == Ok(ScopeValue(s)) && forall a :: a in Arrays(s) ==> fresh(a)
    {
      if phase != V.Unsealed { return Err(V.Sealed); }
      ghost var values := ScopeValues(scopes);
      for i := 0 to |scopes|
        invariant ScopeOwning(values, key) == ScopeOwning(values[i..], key)
      {
        assert values[i..][1..] == values[i + 1..];
        if Owns(scopes[i].prefix, key) {
          assert ScopeOwning(values, key) == Some(values[i]);
          Allocated(scopes);
          var own := Clone(scopes[i]);
          return Ok(own);
        }
      }
      r := Err(V.OutOfScope);
    }

    method ReportKeys() returns (keys: map<Text, seq<KeyId>>)
      ensures keys == V.KeysReported(Value().scopes)
    {
      hide ScopeValues, EntryValues, AllArrays, V.Ids;
      Allocated(scopes);
      keys := map[];
      ghost var values := ScopeValues(scopes);
      for i := 0 to |scopes|
        invariant keys == V.KeysReported(values[..i]) && ScopeValues(scopes) == values
      {
        var ids := ReportIds(scopes[i].keys.keks);
        assert ScopeValues(scopes)[i] == ScopeValue(scopes[i]);
        assert values[..i + 1][..i] == values[..i];
        keys := keys[scopes[i].name := ids];
      }
      assert values[..|scopes|] == values;
    }

    static method ReportIds(entries: seq<HeldEntry>) returns (ids: seq<KeyId>)
      ensures ids == V.Ids(EntryValues(entries))
    {
      ids := [];
      for i := 0 to |entries|
        invariant |ids| == i && forall j :: 0 <= j < i ==> ids[j] == entries[j].id
      {
        ids := ids + [entries[i].id];
      }
    }
  }
}
