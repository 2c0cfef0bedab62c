/** Which scopes may travel together to a keyholder. */
module Bundles {
  import opened Basics
  import opened Paths
  import opened ScopeNames
  import opened Keys
  import opened Keyrings
  import V = VaultSpec

  /** The length of the white-space character a string starts with, or zero. */
  function SpaceAt(s: Text): (n: nat)
    ensures n <= |s|
  {
    if s == [] then 0
    else if 9 <= s[0] <= 13 || s[0] == 32 then 1
    else if |s| >= 2 && s[0] == 0xC2 && (s[1] == 0x85 || s[1] == 0xA0) then 2
    else if |s| >= 3 && s[0] == 0xE1 && s[1] == 0x9A && s[2] == 0x80 then 3
    else if |s| >= 3 && s[0] == 0xE2 && s[1] == 0x80
            && (0x80 <= s[2] <= 0x8A || s[2] == 0xA8 || s[2] == 0xA9 || s[2] == 0xAF) then 3
    else if |s| >= 3 && s[0] == 0xE2 && s[1] == 0x81 && s[2] == 0x9F then 3
    else if |s| >= 3 && s[0] == 0xE3 && s[1] == 0x80 && s[2] == 0x80 then 3
    else 0
  }

  /** Nothing but white space. */
  predicate Blank(s: Text) {
    s == [] || (SpaceAt(s) > 0 && Blank(s[SpaceAt(s)..]))
  }

  /** The characters that count as white space. */
  predicate IsSpace(r: nat) {
    9 <= r <= 13 || r == 0x20 || r == 0x85 || r == 0xA0 || r == 0x1680 || 0x2000 <= r <= 0x200A
    || r == 0x2028 || r == 0x2029 || r == 0x202F || r == 0x205F || r == 0x3000
  }

  lemma SpaceStarts(s: Text) returns (r: nat)
    requires SpaceAt(s) > 0
    ensures IsSpace(r) && Scalar(r) && s[..SpaceAt(s)] == Encoded(r)
  {
    r := if SpaceAt(s) == 1 then s[0] as nat
         else if SpaceAt(s) == 2 then s[1] as nat
         else if s[0] == 0xE1 then 0x1680
         else if s[0] == 0xE2 then (s[1] as nat - 0x80) * 64 + s[2] as nat - 0x80 + 0x2000
         else 0x3000;
  }

  lemma SpaceIsFound(r: nat, rest: Text)
    requires IsSpace(r) && Scalar(r)
    ensures SpaceAt(Encoded(r) + rest) == |Encoded(r)| > 0
  {
  }

  predicate Spaces(rs: seq<nat>) { forall i :: 0 <= i < |rs| ==> Scalar(rs[i]) && IsSpace(rs[i]) }

  lemma {:induction false} BlankSpaces(s: Text) returns (rs: seq<nat>)
    requires Blank(s)
    ensures Spaces(rs) && AllEncoded(rs) == s
    decreases |s|
  {
    hide SpaceAt, Encoded;
    if s == [] {
      rs := [];
    } else {
      var r := SpaceStarts(s);
      var tail := BlankSpaces(s[SpaceAt(s)..]);
      rs := [r] + tail;
      assert rs[1..] == tail;
      assert s == s[..SpaceAt(s)] + s[SpaceAt(s)..];
    }
  }

  lemma {:induction false} SpacesBlank(rs: seq<nat>)
    requires Spaces(rs)
    ensures Blank(AllEncoded(rs))
  {
    if rs != [] {
      SpacesBlank(rs[1..]);
      SpaceIsFound(rs[0], AllEncoded(rs[1..]));
      hide Encoded, SpaceAt;
      var s := AllEncoded(rs);
      assert s[|Encoded(rs[0])|..] == AllEncoded(rs[1..]);
    }
  }

  /** A name is blank exactly when it is nothing but white space, in valid text. */
  lemma BlankIff(s: Text)
    ensures Blank(s) <==> exists rs :: Spaces(rs) && AllEncoded(rs) == s
  {
    hide Blank, AllEncoded;
    if Blank(s) { var rs := BlankSpaces(s); }
    forall rs | Spaces(rs) && AllEncoded(rs) == s
      ensures Blank(s)
    {
      SpacesBlank(rs);
    }
  }

  /** What may travel together: usable scopes, no two of one name and no key inside two,
      to an instance with a name. */
  lemma BundledIff(instance: Text, generation: nat, scopes: seq<Scope>)
    ensures NewBundle(instance, generation, scopes).Some? <==>
      && (forall rs :: Spaces(rs) ==> AllEncoded(rs) != instance)
      && (forall i :: 0 <= i < |scopes| ==>
            ValidScopeName(scopes[i].name) && ValidScopePrefix(scopes[i].prefix) && ValidLists(scopes[i].keys))
      && (forall i, j :: 0 <= i < j < |scopes| ==>
            scopes[i].name != scopes[j].name && !exists key :: Owns(scopes[i].prefix, key) && Owns(scopes[j].prefix, key))
    ensures NewBundle(instance, generation, scopes).Some? ==>
      NewBundle(instance, generation, scopes).value == V.BundleValue(instance, generation, scopes)
  {
    hide ValidScopeName, ValidScopePrefix, ValidLists, Blank, Spaces, AllEncoded, Overlap, Owns;
    BlankIff(instance);
    forall i, j | 0 <= i < j < |scopes|
      ensures Overlap(scopes[i].prefix, scopes[j].prefix)
        <==> exists key :: Owns(scopes[i].prefix, key) && Owns(scopes[j].prefix, key)
    {
      OverlapIffCommonKey(scopes[i].prefix, scopes[j].prefix);
    }
  }

  predicate ValidBundle(b: V.BundleValue) { !Blank(b.instance) && ValidScopes(b.scopes) }

  function NewBundle(instance: Text, generation: nat, scopes: seq<Scope>): Option<V.BundleValue> {
    var b := V.BundleValue(instance, generation, scopes);
    if ValidBundle(b) then Some(b) else None
  }

  /** Take scopes in one by one, refusing a name or a subtree already taken. */
  method Assemble(instance: Text, generation: nat, scopes: seq<Scope>) returns (r: Option<V.BundleValue>)
    ensures r == NewBundle(instance, generation, scopes)
  {
    hide ValidScope, Overlap, Blank;
    if Blank(instance) { return None; }
    var out: seq<Scope> := [];
    for i := 0 to |scopes|
      invariant out == scopes[..i] && ValidScopes(out)
    {
      var s := scopes[i];
      var valid := CheckScope(s);
      if !valid { return None; }
      for j := 0 to |out|
        invariant forall n :: 0 <= n < j ==> scopes[n].name != s.name && !Overlap(scopes[n].prefix, s.prefix)
      {
        if out[j].name == s.name || Overlap(out[j].prefix, s.prefix) { return None; }
      }
      out := out + [s];
    }
    assert scopes[..|scopes|] == scopes;
    r := Some(V.BundleValue(instance, generation, out));
  }
}
