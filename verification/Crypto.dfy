/** The cryptography as an interface: four functions and the laws an ideal
    instance obeys. Nothing here is about any particular algorithm. */
module Crypto {
  import opened Basics

  const KEY_BYTES := 32
  const NONCE_LEN := 12
  const TAG_LEN := 16

  datatype Suite = Suite(
    /** Authenticated encryption (section 2 of RFC 5116): key, nonce, plaintext, associated data. */
    seal: (Bytes, Bytes, Bytes, Bytes) -> Bytes,
    open: (Bytes, Bytes, Bytes, Bytes) -> Option<Bytes>,
    /** Key derivation (section 2 of RFC 5869): secret and info. */
    derive: (Bytes, Bytes) -> Bytes,
    /** The name of a path under a token key. */
    token: (Bytes, Bytes) -> Text,
    /** The frames of a streamed body: data key, logical key, body. */
    frames: (Bytes, Text, Bytes) -> Option<Bytes>)

  function TokenInfo(): Bytes { Ascii("farcast/datasphere/v1/name-token") }

  function NameInfo(): Bytes { Ascii("farcast/datasphere/v1/name-crypt/") }

  function Token(s: Suite, nameKey: Bytes, path: Text): Text { s.token(s.derive(nameKey, TokenInfo()), path) }

  /** The key an object's name is sealed under: one per stored path. */
  function NameCryptKey(s: Suite, nameKey: Bytes, path: Text): Bytes { s.derive(nameKey, NameInfo() + path) }

  /** Opening inverts sealing, and nothing opens that was not sealed so. */
  ghost predicate SealsAndOpens(s: Suite) {
    && (forall k, n, p, a :: s.open(k, n, s.seal(k, n, p, a), a) == Some(p))
    && (forall k, n, c, a, p :: s.open(k, n, c, a) == Some(p) ==> c == s.seal(k, n, p, a))
    && (forall k, n, p, a :: |s.seal(k, n, p, a)| == |p| + TAG_LEN)
    && (forall k, i :: |s.derive(k, i)| == KEY_BYTES)
  }

  /** A token is a path segment, and belongs to one path under one name key. */
  ghost predicate TokensAreNames(s: Suite) {
    && (forall k, p :: Token(s, k, p) != [] && 47 !in Token(s, k, p))
    && (forall k, p, k', p' :: |k| == KEY_BYTES && |k'| == KEY_BYTES && Token(s, k, p) == Token(s, k', p')
          ==> k == k' && p == p')
  }

  /** Among these name keys, a name sealed under one does not open under another. */
  ghost predicate NamesSeparate(s: Suite, nameKeys: set<Bytes>) {
    forall k, k', path, n, p :: k in nameKeys && k' in nameKeys && k != k' ==>
      s.open(NameCryptKey(s, k', path), n, s.seal(NameCryptKey(s, k, path), n, p, path), path) == None
  }

  ghost predicate Ideal(s: Suite, nameKeys: set<Bytes>) {
    && SealsAndOpens(s) && TokensAreNames(s) && NamesSeparate(s, nameKeys)
    && forall k :: k in nameKeys ==> |k| == KEY_BYTES
  }

  // ---------------------------------------------------------------- the laws are not empty

  function ToyTag(k: Bytes): Bytes { seq(TAG_LEN, i requires 0 <= i < TAG_LEN => if i < |k| then k[i] else 0) }

  function ToyOpen(k: Bytes, n: Bytes, c: Bytes, a: Bytes): Option<Bytes> {
    if |c| >= TAG_LEN && c[|c| - TAG_LEN..] == ToyTag(k) then Some(c[..|c| - TAG_LEN]) else None
  }

  function ToyDerive(k: Bytes, i: Bytes): Bytes { if |k| == KEY_BYTES then k else seq(KEY_BYTES, _ => 0) }

  /** Bytes written two to a byte, so that no separator can occur. */
  function ToyName(b: Bytes): Text {
    if b == [] then [3]
    else [if b[0] == 47 then 1 else 2, if b[0] == 47 then 0 else b[0]] + ToyName(b[1..])
  }

  function ToySuite(): Suite {
    Suite((k, n, p, a) => p + ToyTag(k), ToyOpen, ToyDerive, (k, p) => ToyName(k + p), (d, k, b) => None)
  }

  lemma {:induction false} ToyNameIsSegment(b: Bytes)
    ensures ToyName(b) != [] && 47 !in ToyName(b)
  {
    if b != [] { ToyNameIsSegment(b[1..]); }
  }

  lemma {:induction false} ToyNameInjective(b: Bytes, c: Bytes)
    requires ToyName(b) == ToyName(c)
    ensures b == c
  {
    assert b != [] ==> ToyName(b)[0] != 3 && ToyName(b)[2..] == ToyName(b[1..]);
    assert c != [] ==> ToyName(c)[0] != 3 && ToyName(c)[2..] == ToyName(c[1..]);
    if b != [] && c != [] {
      assert ToyName(b)[0] == ToyName(c)[0] && ToyName(b)[1] == ToyName(c)[1];
      ToyNameInjective(b[1..], c[1..]);
      assert b == [b[0]] + b[1..] && c == [c[0]] + c[1..];
    }
  }

  lemma ToySeals()
    ensures SealsAndOpens(ToySuite())
  {
    var s := ToySuite();
    forall k, n, p, x
      ensures s.open(k, n, s.seal(k, n, p, x), x) == Some(p)
    {
      assert s.seal(k, n, p, x) == p + ToyTag(k);
      assert (p + ToyTag(k))[|p|..] == ToyTag(k) && (p + ToyTag(k))[..|p|] == p;
    }
    forall k, n, c, x, p | s.open(k, n, c, x) == Some(p)
      ensures c == s.seal(k, n, p, x)
    {
      assert c == c[..|c| - TAG_LEN] + c[|c| - TAG_LEN..];
    }
  }

  lemma ToyTokens()
    ensures TokensAreNames(ToySuite())
  {
    hide ToyName;
    var s := ToySuite();
    forall k, p
      ensures Token(s, k, p) != [] && 47 !in Token(s, k, p)
    {
      ToyNameIsSegment(ToyDerive(k, TokenInfo()) + p);
    }
    forall k, p, k', p' | |k| == KEY_BYTES && |k'| == KEY_BYTES && Token(s, k, p) == Token(s, k', p')
      ensures k == k' && p == p'
    {
      ToyNameInjective(k + p, k' + p');
      assert (k + p)[..KEY_BYTES] == k && (k' + p')[..KEY_BYTES] == k';
      assert (k + p)[KEY_BYTES..] == p && (k' + p')[KEY_BYTES..] == p';
    }
  }

  lemma ToySeparates(a: Bytes, b: Bytes)
    requires |a| == |b| == KEY_BYTES && a[0] != b[0]
    ensures NamesSeparate(ToySuite(), {a, b})
  {
    var s := ToySuite();
    assert ToyTag(a)[0] == a[0] && ToyTag(b)[0] == b[0];
    forall k, k', path, n, p | k in {a, b} && k' in {a, b} && k != k'
      ensures s.open(NameCryptKey(s, k', path), n, s.seal(NameCryptKey(s, k, path), n, p, path), path) == None
    {
      assert (p + ToyTag(k))[|p|..] == ToyTag(k);
    }
  }

  /** Some suite obeys all the laws, with two key spaces to keep apart. */
  lemma IdealIsPossible(a: Bytes, b: Bytes)
    requires |a| == |b| == KEY_BYTES && a[0] != b[0]
    ensures Ideal(ToySuite(), {a, b})
  {
    hide ToySuite, SealsAndOpens, TokensAreNames, NamesSeparate;
    ToySeals();
    ToyTokens();
    ToySeparates(a, b);
  }
}
