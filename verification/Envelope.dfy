/** The envelope a bundle travels in: a challenge that one process issues, that
    one push may answer, once, before it expires. */
module Envelopes {
  import opened Basics
  import opened Crypto

  const SESSION_LEN := 8
  const CHALLENGE_LEN := 32
  const PUB_LEN := 32
  const MAX_OUTSTANDING := 64
  /** Two minutes, in nanoseconds. */
  const CHALLENGE_TTL := 120_000_000_000
  const OFF_CIPHERTEXT := 57
  const ENVELOPE_VERSION: byte := 1

  function Magic(): Bytes { Ascii("FCUS") }

  function Info(): Bytes { Ascii("farcast/datasphere/v1/unseal") }

  datatype Challenge = Challenge(session: Bytes, nonce: Bytes, publicKey: Bytes)

  /** Key agreement (section 6.1 of RFC 7748): a public half for each private one,
      and a secret both sides compute, or nothing for a degenerate peer. */
  datatype Agreement = Agreement(public: Bytes -> Bytes, shared: (Bytes, Bytes) -> Option<Bytes>)

  ghost predicate Agrees(g: Agreement) {
    && (forall a, b :: g.shared(a, g.public(b)) == g.shared(b, g.public(a)))
    && (forall a :: |g.public(a)| == PUB_LEN)
  }

  /** The low bytes of a number, most significant first. */
  function BigEndian(n: nat, width: nat): (b: Bytes)
    ensures |b| == width
  {
    if width == 0 then [] else BigEndian(n / 256, width - 1) + [(n % 256) as byte]
  }

  function Put64(n: nat): Bytes { BigEndian(n, 8) }

  function EnvelopeAad(instance: Text, session: Bytes, challenge: Bytes): Bytes
    requires |instance| < 0x1_0000_0000_0000_0000
  {
    Magic() + [ENVELOPE_VERSION] + Put64(|instance|) + instance + session + challenge
  }

  function EnvelopeKey(s: Suite, shared: Bytes, recipient: Bytes, sender: Bytes, challenge: Bytes): Bytes {
    s.derive(shared, Info() + recipient + sender + challenge)
  }

  function SealBundle(s: Suite, g: Agreement, plaintext: Bytes, instance: Text, ch: Challenge, sender: Bytes, nonce: Bytes)
    : Option<Bytes>
    requires |instance| < 0x1_0000_0000_0000_0000
  {
    if |ch.session| != SESSION_LEN || |ch.nonce| != CHALLENGE_LEN || |ch.publicKey| != PUB_LEN then None
    else match g.shared(sender, ch.publicKey)
    case None => None
    case Some(shared) =>
      var key := EnvelopeKey(s, shared, ch.publicKey, g.public(sender), ch.nonce);
      Some(Magic() + [ENVELOPE_VERSION] + ch.session + g.public(sender) + nonce
           + s.seal(key, nonce, plaintext, EnvelopeAad(instance, ch.session, ch.nonce)))
  }

  // ---------------------------------------------------------------- the process, as a value

  datatype State = State(priv: Bytes, outstanding: map<Bytes, int>, nonces: map<Bytes, Bytes>)

  predicate Sound(st: State) { st.outstanding.Keys == st.nonces.Keys && |st.outstanding| <= MAX_OUTSTANDING }

  /** Challenges past their deadline are dropped. */
  function Expire(st: State, now: int): State {
    var live := map id | id in st.outstanding && now <= st.outstanding[id] :: st.outstanding[id];
    State(st.priv, live, map id | id in st.nonces && (id !in st.outstanding || now <= st.outstanding[id]) :: st.nonces[id])
  }

  /** Issue a challenge over freshly drawn values; the clock is read twice. */
  function Issue(st: State, g: Agreement, session: Bytes, nonce: Bytes, checked: int, now: int): (State, Option<Challenge>) {
    var live := Expire(st, checked);
    if |live.outstanding| >= MAX_OUTSTANDING then (live, None)
    else
      (State(live.priv, live.outstanding[session := now + CHALLENGE_TTL], live.nonces[session := nonce]),
       Some(Challenge(session, nonce, g.public(live.priv))))
  }

  predicate LooksLikeEnvelope(envelope: Bytes) {
    |envelope| >= OFF_CIPHERTEXT + TAG_LEN && envelope[..4] == Magic() && envelope[4] == ENVELOPE_VERSION
  }

  function SessionOf(envelope: Bytes): Bytes
    requires LooksLikeEnvelope(envelope)
  {
    envelope[5..13]
  }

  /** Open an envelope. Whatever answers a session consumes its challenge. */
  function Open(st: State, s: Suite, g: Agreement, envelope: Bytes, instance: Text, checked: int, now: int)
    : (State, Option<Bytes>)
    requires |instance| < 0x1_0000_0000_0000_0000
  {
    if !LooksLikeEnvelope(envelope) then (st, None)
    else
      var session := SessionOf(envelope);
      var live := Expire(st, checked);
      var rest := State(live.priv, live.outstanding - {session}, live.nonces - {session});
      if session !in live.outstanding || session !in live.nonces || now > live.outstanding[session] then (rest, None)
      else (rest, Decrypt(s, g, live.priv, envelope, instance, live.nonces[session]))
  }

  function Decrypt(s: Suite, g: Agreement, priv: Bytes, envelope: Bytes, instance: Text, challenge: Bytes): Option<Bytes>
    requires LooksLikeEnvelope(envelope) && |instance| < 0x1_0000_0000_0000_0000
  {
    var sender := envelope[13..45];
    match g.shared(priv, sender)
    case None => None
    case Some(shared) =>
      s.open(EnvelopeKey(s, shared, g.public(priv), sender, challenge), envelope[45..57], envelope[57..],
             EnvelopeAad(instance, SessionOf(envelope), challenge))
  }

  /** What is left of a map when every challenge but these has been looked at. */
  ghost predicate Thinned<V>(m: map<Bytes, V>, from: map<Bytes, V>, deadlines: map<Bytes, int>, left: set<Bytes>, now: int) {
    && (forall id :: id in m <==> id in from && (id in left || (id in deadlines && now <= deadlines[id])))
    && (forall id :: id in m ==> m[id] == from[id])
  }

  lemma ThinnedBy<V>(m: map<Bytes, V>, from: map<Bytes, V>, deadlines: map<Bytes, int>, left: set<Bytes>, now: int, id: Bytes)
    requires Thinned(m, from, deadlines, left, now) && id in left && id in deadlines
    ensures Thinned(if now > deadlines[id] then m - {id} else m, from, deadlines, left - {id}, now)
  {
  }

  lemma ThinnedOut<V>(m: map<Bytes, V>, from: map<Bytes, V>, deadlines: map<Bytes, int>, now: int)
    requires Thinned(m, from, deadlines, {}, now) && from.Keys == deadlines.Keys
    ensures m == map id | id in from && now <= deadlines[id] :: from[id]
    ensures m.Keys <= from.Keys
  {
  }

  // ---------------------------------------------------------------- the process itself

  /** Issues challenges and opens the envelopes that answer them. */
  class Challenger {
    const priv: Bytes
    const suite: Suite
    const agreement: Agreement
    var outstanding: map<Bytes, int>
    var nonces: map<Bytes, Bytes>

    constructor (priv: Bytes, suite: Suite, agreement: Agreement)
      ensures Value() == State(priv, map[], map[]) && this.suite == suite && this.agreement == agreement
    {
      this.priv, this.suite, this.agreement, outstanding, nonces := priv, suite, agreement, map[], map[];
    }

    ghost function Value(): State
      reads this
    {
      State(priv, outstanding, nonces)
    }

    ghost predicate Valid()
      reads this
    {
      Sound(Value())
    }

    method ExpireAll(now: int)
      requires Valid()
      modifies this
      ensures Valid() && Value() == Expire(old(Value()), now)
    {
      var left := outstanding.Keys;
      while left != {}
        invariant left <= old(outstanding).Keys
        invariant Thinned(outstanding, old(outstanding), old(outstanding), left, now)
        invariant Thinned(nonces, old(nonces), old(outstanding), left, now)
        decreases left
      {
        var id :| id in left;
        ThinnedBy(outstanding, old(outstanding), old(outstanding), left, now, id);
        ThinnedBy(nonces, old(nonces), old(outstanding), left, now, id);
        if now > outstanding[id] {
          outstanding := outstanding - {id};
          nonces := nonces - {id};
        }
        left := left - {id};
      }
      ThinnedOut(outstanding, old(outstanding), old(outstanding), now);
      ThinnedOut(nonces, old(nonces), old(outstanding), now);
      hide Thinned;
      Fewer(outstanding.Keys, old(outstanding).Keys);
    }

    method IssueChallenge(session: Bytes, nonce: Bytes, checked: int, now: int) returns (ch: Option<Challenge>)
      requires Valid()
      modifies this
      ensures Valid()
      ensures (Value(), ch) == Issue(old(Value()), agreement, session, nonce, checked, now)
    {
      ExpireAll(checked);
      if |outstanding| >= MAX_OUTSTANDING { return None; }
      Larger(outstanding, session, now + CHALLENGE_TTL);
      outstanding := outstanding[session := now + CHALLENGE_TTL];
      nonces := nonces[session := nonce];
      ch := Some(Challenge(session, nonce, agreement.public(priv)));
    }

    method OpenEnvelope(envelope: Bytes, instance: Text, checked: int, now: int) returns (plaintext: Option<Bytes>)
      requires Valid() && |instance| < 0x1_0000_0000_0000_0000
      modifies this
      ensures Valid()
      ensures (Value(), plaintext) == Open(old(Value()), suite, agreement, envelope, instance, checked, now)
    {
      hide Decrypt, Expire, Magic;
      if |envelope| < OFF_CIPHERTEXT + TAG_LEN { return None; }
      if envelope[..4] != Magic() || envelope[4] != ENVELOPE_VERSION { return None; }
      var session := envelope[5..13];
      ExpireAll(checked);
      var known := session in outstanding;
      var deadline := if known then outstanding[session] else 0;
      var nonce := if known then nonces[session] else [];
      Fewer(outstanding.Keys - {session}, outstanding.Keys);
      outstanding := outstanding - {session};
      nonces := nonces - {session};
      if !known || now > deadline { return None; }
      plaintext := Decrypt(suite, agreement, priv, envelope, instance, nonce);
    }
  }

  lemma {:induction false} Fewer<T>(a: set<T>, b: set<T>)
    requires a <= b
    ensures |a| <= |b|
    decreases b
  {
    if x :| x in b {
      Fewer(a - {x}, b - {x});
    }
  }

  lemma Larger(m: map<Bytes, int>, k: Bytes, v: int)
    ensures |m[k := v]| <= |m| + 1
  {
    assert m[k := v].Keys == m.Keys + {k};
    if k in m {
      assert m[k := v].Keys == m.Keys;
    }
  }
}
