/** What the envelope guarantees: it carries a bundle to the process that asked for
    it, once, in time, and for the instance it names. */
module EnvelopeLaws {
  import opened Basics
  import opened Crypto
  import opened Envelopes

  // ---------------------------------------------------------------- round trip

  lemma Fields(magic: Bytes, version: byte, session: Bytes, sender: Bytes, nonce: Bytes, c: Bytes)
    requires |magic| == 4 && |session| == SESSION_LEN && |sender| == PUB_LEN && |nonce| == NONCE_LEN
    ensures var e := magic + [version] + session + sender + nonce + c;
      && |e| == OFF_CIPHERTEXT + |c|
      && e[..4] == magic && e[4] == version && e[5..13] == session && e[13..45] == sender
      && e[45..57] == nonce && e[57..] == c
  {
    var p0 := magic + [version];
    var p1 := p0 + session;
    var p2 := p1 + sender;
    var p3 := p2 + nonce;
    var e := p3 + c;
    assert e[..13] == p1 && e[..45] == p2 && e[..57] == p3;
    assert e[5..13] == e[..13][5..] && e[13..45] == e[..45][13..] && e[45..57] == e[..57][45..];
  }

  /** A challenge in time, answered for the same instance, gives the bundle back. */
  lemma OpenInvertsSeal(s: Suite, g: Agreement, st: State, plaintext: Bytes, instance: Text, ch: Challenge,
                        sender: Bytes, nonce: Bytes, checked: int, now: int)
    requires SealsAndOpens(s) && Agrees(g) && |nonce| == NONCE_LEN && |instance| < 0x1_0000_0000_0000_0000
    requires |ch.session| == SESSION_LEN && |ch.nonce| == CHALLENGE_LEN && ch.publicKey == g.public(st.priv)
    requires g.shared(sender, ch.publicKey).Some?
    requires ch.session in st.outstanding && ch.session in st.nonces && st.nonces[ch.session] == ch.nonce
    requires checked <= st.outstanding[ch.session] && now <= st.outstanding[ch.session]
    ensures SealBundle(s, g, plaintext, instance, ch, sender, nonce).Some?
    ensures Open(st, s, g, SealBundle(s, g, plaintext, instance, ch, sender, nonce).value, instance, checked, now).1
         == Some(plaintext)
  {
    hide EnvelopeAad, Info;
    var shared := g.shared(sender, ch.publicKey).value;
    var key := EnvelopeKey(s, shared, ch.publicKey, g.public(sender), ch.nonce);
    var c := s.seal(key, nonce, plaintext, EnvelopeAad(instance, ch.session, ch.nonce));
    Fields(Magic(), ENVELOPE_VERSION, ch.session, g.public(sender), nonce, c);
    assert g.shared(st.priv, g.public(sender)) == Some(shared);
  }

  // ---------------------------------------------------------------- associated data

  /** A number this wide at most. */
  predicate Within(n: nat, width: nat) { if width == 0 then n == 0 else Within(n / 256, width - 1) }

  lemma {:induction false} BigEndianInjective(m: nat, n: nat, width: nat)
    requires Within(m, width) && Within(n, width) && BigEndian(m, width) == BigEndian(n, width)
    ensures m == n
  {
    if width > 0 {
      var x, y := BigEndian(m / 256, width - 1), BigEndian(n / 256, width - 1);
      assert BigEndian(m, width)[..width - 1] == x && BigEndian(n, width)[..width - 1] == y;
      assert BigEndian(m, width)[width - 1] == (m % 256) as byte && BigEndian(n, width)[width - 1] == (n % 256) as byte;
      BigEndianInjective(m / 256, n / 256, width - 1);
    }
  }

  /** A number read most significant byte first. */
  function Value(b: Bytes): nat { if b == [] then 0 else Value(b[..|b| - 1]) * 256 + b[|b| - 1] as nat }

  lemma {:induction false} BigEndianReadsBack(n: nat, width: nat)
    requires Within(n, width)
    ensures Value(BigEndian(n, width)) == n
  {
    if width > 0 {
      var init := BigEndian(n / 256, width - 1);
      assert BigEndian(n, width)[..width - 1] == init;
      BigEndianReadsBack(n / 256, width - 1);
    }
  }

  lemma Within64(n: nat)
    requires n < 0x1_0000_0000_0000_0000
    ensures Within(n, 8)
  {
    var n1 := n / 256;
    var n2 := n1 / 256;
    var n3 := n2 / 256;
    var n4 := n3 / 256;
    var n5 := n4 / 256;
    var n6 := n5 / 256;
    var n7 := n6 / 256;
    assert n7 / 256 == 0;
    assert Within(n7 / 256, 0) && Within(n7, 1) && Within(n6, 2) && Within(n5, 3) && Within(n4, 4);
    assert Within(n3, 5) && Within(n2, 6) && Within(n1, 7);
  }

  lemma Put64Injective(m: nat, n: nat)
    requires m < 0x1_0000_0000_0000_0000 && n < 0x1_0000_0000_0000_0000 && Put64(m) == Put64(n)
    ensures m == n
  {
    Within64(m);
    Within64(n);
    BigEndianInjective(m, n, 8);
  }

  /** No two of instance, session and challenge share their associated data. */
  lemma AadIsInjective(i: Text, session: Bytes, ch: Bytes, i': Text, session': Bytes, ch': Bytes)
    requires |i| < 0x1_0000_0000_0000_0000 && |i'| < 0x1_0000_0000_0000_0000
    requires |session| == |session'| == SESSION_LEN
    requires EnvelopeAad(i, session, ch) == EnvelopeAad(i', session', ch')
    ensures i == i' && session == session' && ch == ch'
  {
    hide BigEndian;
    var p := Magic() + [ENVELOPE_VERSION];
    var x, y := EnvelopeAad(i, session, ch), EnvelopeAad(i', session', ch');
    assert x == p + Put64(|i|) + i + session + ch && y == p + Put64(|i'|) + i' + session' + ch';
    assert x[5..13] == Put64(|i|) && y[5..13] == Put64(|i'|);
    Put64Injective(|i|, |i'|);
    var n := 13 + |i|;
    assert x[13..n] == i && y[13..n] == i';
    assert x[n..n + 8] == session && y[n..n + 8] == session';
    assert x[n + 8..] == ch && y[n + 8..] == ch';
  }

  /** The associated data: the magic, the version, the instance with its length before
      it, the session and the challenge. */
  ghost predicate BindsTo(aad: Bytes, instance: Text, session: Bytes, challenge: Bytes) {
    exists length: Bytes ::
      |length| == 8 && Value(length) == |instance|
      && aad == Ascii("FCUS") + [1] + length + instance + session + challenge
  }

  lemma AadBinds(instance: Text, session: Bytes, challenge: Bytes)
    requires |instance| < 0x1_0000_0000_0000_0000
    ensures BindsTo(EnvelopeAad(instance, session, challenge), instance, session, challenge)
  {
    hide Value, BigEndian;
    Within64(|instance|);
    BigEndianReadsBack(|instance|, 8);
    var length := Put64(|instance|);
    assert EnvelopeAad(instance, session, challenge) == Ascii("FCUS") + [1] + length + instance + session + challenge;
  }

  /** Nothing opens but what was sealed for this instance, to the challenge this process
      issued in the session, under the key it shares with the sender the envelope names;
      and the whole envelope is that. */
  lemma OpensOnlyWhatWasSealed(s: Suite, g: Agreement, st: State, envelope: Bytes, instance: Text, checked: int, now: int,
                               plaintext: Bytes)
    requires SealsAndOpens(s) && |instance| < 0x1_0000_0000_0000_0000
    requires Open(st, s, g, envelope, instance, checked, now).1 == Some(plaintext)
    ensures exists session, sender, nonce, aad ::
      && |session| == 8 && |sender| == 32 && |nonce| == 12
      && session in st.nonces && session in st.outstanding && now <= st.outstanding[session]
      && g.shared(st.priv, sender).Some? && BindsTo(aad, instance, session, st.nonces[session])
      && var key := s.derive(g.shared(st.priv, sender).value,
                             Ascii("farcast/datasphere/v1/unseal") + g.public(st.priv) + sender + st.nonces[session]);
      envelope == Ascii("FCUS") + [1] + session + sender + nonce + s.seal(key, nonce, plaintext, aad)
  {
    hide EnvelopeAad, BindsTo, Ascii;
    var session, sender, nonce := envelope[5..13], envelope[13..45], envelope[45..57];
    var challenge := st.nonces[session];
    var aad := EnvelopeAad(instance, session, challenge);
    AadBinds(instance, session, challenge);
    var key := EnvelopeKey(s, g.shared(st.priv, sender).value, g.public(st.priv), sender, challenge);
    assert envelope[57..] == s.seal(key, nonce, plaintext, aad);
    Pieces(envelope);
  }

  lemma Pieces(e: Bytes)
    requires |e| >= 57 && e[..4] == Magic() && e[4] == ENVELOPE_VERSION
    ensures e == Magic() + [1] + e[5..13] + e[13..45] + e[45..57] + e[57..]
  {
    hide Magic;
    assert e[..5] == e[..4] + [e[4]];
    assert e[..13] == e[..5] + e[5..13];
    assert e[..45] == e[..13] + e[13..45];
    assert e[..57] == e[..45] + e[45..57];
    assert e == e[..57] + e[57..];
  }

  // ---------------------------------------------------------------- runs

  datatype Event =
    | Ask(session: Bytes, nonce: Bytes, checked: int, now: int)
    | Answer(envelope: Bytes, instance: Text, checked: int, now: int)

  predicate Fits(e: Event) { e.Answer? ==> |e.instance| < 0x1_0000_0000_0000_0000 }

  type Run = r: seq<Event> | forall i :: 0 <= i < |r| ==> Fits(r[i]) witness []

  function Next(st: State, s: Suite, g: Agreement, e: Event): State
    requires Fits(e)
  {
    match e
    case Ask(session, nonce, checked, now) => Issue(st, g, session, nonce, checked, now).0
    case Answer(envelope, instance, checked, now) => Open(st, s, g, envelope, instance, checked, now).0
  }

  /** The state after the first n events of a run of a process just started. */
  function After(priv: Bytes, s: Suite, g: Agreement, run: Run, n: nat): State
    requires n <= |run|
  {
    if n == 0 then State(priv, map[], map[]) else Next(After(priv, s, g, run, n - 1), s, g, run[n - 1])
  }

  /** This event opened an envelope. */
  predicate Opens(priv: Bytes, s: Suite, g: Agreement, run: Run, n: nat)
    requires n < |run|
  {
    run[n].Answer?
    && Open(After(priv, s, g, run, n), s, g, run[n].envelope, run[n].instance, run[n].checked, run[n].now).1.Some?
  }

  /** This event issued a session's challenge. */
  predicate Issues(priv: Bytes, s: Suite, g: Agreement, run: Run, n: nat, session: Bytes)
    requires n < |run|
  {
    run[n].Ask? && run[n].session == session
    && Issue(After(priv, s, g, run, n), g, session, run[n].nonce, run[n].checked, run[n].now).1.Some?
  }

  /** This event answers a session, well or badly. */
  predicate Answers(e: Event, session: Bytes) {
    e.Answer? && LooksLikeEnvelope(e.envelope) && SessionOf(e.envelope) == session
  }

  lemma {:induction false} StaysSound(priv: Bytes, s: Suite, g: Agreement, run: Run, n: nat)
    requires n <= |run|
    ensures Sound(After(priv, s, g, run, n))
  {
    if n > 0 {
      StaysSound(priv, s, g, run, n - 1);
      NextSound(After(priv, s, g, run, n - 1), s, g, run[n - 1]);
    }
  }

  lemma ExpireSound(st: State, now: int)
    requires Sound(st)
    ensures Sound(Expire(st, now))
  {
    Fewer(Expire(st, now).outstanding.Keys, st.outstanding.Keys);
  }

  lemma IssueSound(st: State, g: Agreement, session: Bytes, nonce: Bytes, checked: int, now: int)
    requires Sound(st)
    ensures Sound(Issue(st, g, session, nonce, checked, now).0)
  {
    ExpireSound(st, checked);
    hide Expire;
    Larger(Expire(st, checked).outstanding, session, now + CHALLENGE_TTL);
  }

  lemma OpenSound(st: State, s: Suite, g: Agreement, envelope: Bytes, instance: Text, checked: int, now: int)
    requires Sound(st) && |instance| < 0x1_0000_0000_0000_0000
    ensures Sound(Open(st, s, g, envelope, instance, checked, now).0)
  {
    hide LooksLikeEnvelope, Decrypt;
    if LooksLikeEnvelope(envelope) {
      ExpireSound(st, checked);
      hide Expire;
      var live, session := Expire(st, checked), SessionOf(envelope);
      Fewer(live.outstanding.Keys - {session}, live.outstanding.Keys);
      assert (live.outstanding - {session}).Keys == live.outstanding.Keys - {session};
    }
  }

  lemma NextSound(st: State, s: Suite, g: Agreement, e: Event)
    requires Sound(st) && Fits(e)
    ensures Sound(Next(st, s, g, e))
  {
    hide Issue, Open, Sound;
    match e
    case Ask(session, nonce, checked, now) => IssueSound(st, g, session, nonce, checked, now);
    case Answer(envelope, instance, checked, now) => OpenSound(st, s, g, envelope, instance, checked, now);
  }

  /** An outstanding challenge was issued in this run at i, with no answer and no
      second issue since. */
  ghost predicate LiveSince(priv: Bytes, s: Suite, g: Agreement, run: Run, i: nat, n: nat, session: Bytes)
    requires i < n <= |run|
  {
    && Issues(priv, s, g, run, i, session)
    && forall j :: i < j < n ==> !Issues(priv, s, g, run, j, session) && !Answers(run[j], session)
  }

  lemma StepOutstanding(st: State, s: Suite, g: Agreement, e: Event, session: Bytes)
    requires Fits(e) && session in Next(st, s, g, e).outstanding
    ensures
      if e.Ask? && e.session == session && Issue(st, g, session, e.nonce, e.checked, e.now).1.Some?
      then Next(st, s, g, e).outstanding[session] == e.now + CHALLENGE_TTL
      else session in st.outstanding && Next(st, s, g, e).outstanding[session] == st.outstanding[session]
           && !Answers(e, session)
  {
    hide LooksLikeEnvelope, Decrypt;
  }

  lemma EventOutstanding(priv: Bytes, s: Suite, g: Agreement, run: Run, n: nat, session: Bytes)
    requires n < |run| && session in After(priv, s, g, run, n + 1).outstanding
    ensures
      if Issues(priv, s, g, run, n, session)
      then After(priv, s, g, run, n + 1).outstanding[session] == run[n].now + CHALLENGE_TTL
      else session in After(priv, s, g, run, n).outstanding && !Answers(run[n], session)
           && After(priv, s, g, run, n + 1).outstanding[session] == After(priv, s, g, run, n).outstanding[session]
  {
    hide Next, Issue, Answers;
    StepOutstanding(After(priv, s, g, run, n), s, g, run[n], session);
  }

  /** Where an outstanding challenge comes from. */
  ghost predicate Source(priv: Bytes, s: Suite, g: Agreement, run: Run, i: nat, n: nat, session: Bytes)
    requires i < n <= |run|
  {
    LiveSince(priv, s, g, run, i, n, session)
    && session in After(priv, s, g, run, n).outstanding
    && After(priv, s, g, run, n).outstanding[session] == run[i].now + CHALLENGE_TTL
  }

  lemma SourceOn(priv: Bytes, s: Suite, g: Agreement, run: Run, i: nat, n: nat, session: Bytes)
    requires i <= n < |run| && session in After(priv, s, g, run, n + 1).outstanding
    requires if i == n then Issues(priv, s, g, run, n, session)
             else Source(priv, s, g, run, i, n, session) && !Issues(priv, s, g, run, n, session)
    ensures Source(priv, s, g, run, i, n + 1, session)
  {
    hide Issues, Answers, After;
    EventOutstanding(priv, s, g, run, n, session);
  }

  lemma {:induction false} OutstandingWasIssued(priv: Bytes, s: Suite, g: Agreement, run: Run, n: nat, session: Bytes)
    returns (i: nat)
    requires n <= |run| && session in After(priv, s, g, run, n).outstanding
    ensures i < n && Source(priv, s, g, run, i, n, session)
  {
    hide Next, Issues, Answers, Source;
    assert n > 0;
    hide After;
    EventOutstanding(priv, s, g, run, n - 1, session);
    i := n - 1;
    if !Issues(priv, s, g, run, n - 1, session) {
      i := OutstandingWasIssued(priv, s, g, run, n - 1, session);
    }
    SourceOn(priv, s, g, run, i, n - 1, session);
  }

  /** Single use: whatever this process opens answers a challenge it issued itself,
      in time, with no other answer to that challenge before it. */
  lemma OpensOnceInTime(priv: Bytes, s: Suite, g: Agreement, run: Run, n: nat)
    requires n < |run| && Opens(priv, s, g, run, n)
    ensures LooksLikeEnvelope(run[n].envelope)
    ensures exists i :: 0 <= i < n && LiveSince(priv, s, g, run, i, n, SessionOf(run[n].envelope))
                        && run[n].now <= run[i].now + CHALLENGE_TTL
  {
    hide Decrypt;
    var session := SessionOf(run[n].envelope);
    var i := OutstandingWasIssued(priv, s, g, run, n, session);
    assert run[n].now <= run[i].now + CHALLENGE_TTL;
  }

  /** So two opens in one session have a fresh issue of it between them. */
  lemma NoReplay(priv: Bytes, s: Suite, g: Agreement, run: Run, m: nat, n: nat)
    requires m < n < |run| && Opens(priv, s, g, run, m) && Opens(priv, s, g, run, n)
    requires SessionOf(run[m].envelope) == SessionOf(run[n].envelope)
    ensures exists i :: m < i < n && Issues(priv, s, g, run, i, SessionOf(run[n].envelope))
  {
    OpensOnceInTime(priv, s, g, run, n);
    var session := SessionOf(run[n].envelope);
    var i :| 0 <= i < n && LiveSince(priv, s, g, run, i, n, session);
    assert Answers(run[m], session);
    assert i != m;
    assert !(i < m);
  }

  // ---------------------------------------------------------------- what is asked for is delivered

  /** The challenges that are not past their deadline. */
  function LiveAt(st: State, now: int): set<Bytes> { set id | id in st.outstanding && now <= st.outstanding[id] }

  /** A challenge is issued exactly while fewer than 64 are still live, over the values
      drawn for it and the key of the process. */
  lemma IssuedIff(st: State, g: Agreement, session: Bytes, nonce: Bytes, checked: int, now: int)
    ensures Issue(st, g, session, nonce, checked, now).1
         == if |LiveAt(st, checked)| < 64 then Some(Challenge(session, nonce, g.public(st.priv))) else None
  {
    assert Expire(st, checked).outstanding.Keys == LiveAt(st, checked);
  }

  /** The challenge of this session is there to be answered until this instant. */
  predicate Awaits(st: State, session: Bytes, nonce: Bytes, deadline: int) {
    && session in st.outstanding && st.outstanding[session] == deadline
    && session in st.nonces && st.nonces[session] == nonce
  }

  lemma IssuedAwaits(st: State, g: Agreement, session: Bytes, nonce: Bytes, checked: int, now: int)
    requires |LiveAt(st, checked)| < 64
    ensures Awaits(Issue(st, g, session, nonce, checked, now).0, session, nonce, now + 120_000_000_000)
    ensures Issue(st, g, session, nonce, checked, now).0.priv == st.priv
  {
    IssuedIff(st, g, session, nonce, checked, now);
  }

  /** Whatever else is asked for or answered leaves it there. */
  lemma StillAwaits(st: State, s: Suite, g: Agreement, e: Event, session: Bytes, nonce: Bytes, deadline: int)
    requires Fits(e) && Awaits(st, session, nonce, deadline) && e.checked <= deadline
    requires !Answers(e, session) && !(e.Ask? && e.session == session)
    ensures Awaits(Next(st, s, g, e), session, nonce, deadline) && Next(st, s, g, e).priv == st.priv
  {
    hide LooksLikeEnvelope, Decrypt;
  }

  /** A challenge that is there is answered by any envelope sealed to it in time, for
      the instance it was sealed for. */
  lemma AwaitedOpens(s: Suite, g: Agreement, st: State, session: Bytes, challenge: Bytes, deadline: int, plaintext: Bytes,
                     instance: Text, sender: Bytes, nonce: Bytes, checked: int, now: int)
    requires SealsAndOpens(s) && Agrees(g) && |instance| < 0x1_0000_0000_0000_0000 && |nonce| == 12
    requires |session| == 8 && |challenge| == 32 && g.shared(sender, g.public(st.priv)).Some?
    requires Awaits(st, session, challenge, deadline) && checked <= deadline && now <= deadline
    ensures
      var envelope := SealBundle(s, g, plaintext, instance, Challenge(session, challenge, g.public(st.priv)), sender, nonce);
      envelope.Some? && Open(st, s, g, envelope.value, instance, checked, now).1 == Some(plaintext)
  {
    OpenInvertsSeal(s, g, st, plaintext, instance, Challenge(session, challenge, g.public(st.priv)), sender, nonce, checked, now);
  }

  /** Delivery: what a process hands out when it is asked, with fewer than 64 live
      challenges, is a challenge that a bundle can be sealed to, and for two minutes the
      state it is left in opens the envelope. */
  lemma IssuedOpens(s: Suite, g: Agreement, st: State, session: Bytes, challenge: Bytes, asked: int, issued: int,
                    plaintext: Bytes, instance: Text, sender: Bytes, nonce: Bytes, checked: int, now: int)
    requires SealsAndOpens(s) && Agrees(g) && |instance| < 0x1_0000_0000_0000_0000 && |nonce| == 12
    requires |session| == 8 && |challenge| == 32 && g.shared(sender, g.public(st.priv)).Some?
    requires |LiveAt(st, asked)| < 64
    requires checked <= issued + 120_000_000_000 && now <= issued + 120_000_000_000
    ensures
      var (st', ch) := Issue(st, g, session, challenge, asked, issued);
      && ch.Some?
      && var envelope := SealBundle(s, g, plaintext, instance, ch.value, sender, nonce);
      envelope.Some? && Open(st', s, g, envelope.value, instance, checked, now).1 == Some(plaintext)
  {
    hide Issue, SealBundle, Open, LiveAt;
    IssuedIff(st, g, session, challenge, asked, issued);
    IssuedAwaits(st, g, session, challenge, asked, issued);
    var st' := Issue(st, g, session, challenge, asked, issued).0;
    AwaitedOpens(s, g, st', session, challenge, issued + 120_000_000_000, plaintext, instance, sender, nonce, checked, now);
  }

  /** Nobody answers this session, or asks for it again, between two events of a run;
      and the clock, as the events between read it, does not pass this instant. */
  ghost predicate Undisturbed(run: Run, i: nat, n: nat, session: Bytes, deadline: int)
    requires i < n <= |run|
  {
    forall j :: i < j < n ==>
      !Answers(run[j], session) && !(run[j].Ask? && run[j].session == session) && run[j].checked <= deadline
  }

  lemma {:induction false} RunAwaits(priv: Bytes, s: Suite, g: Agreement, run: Run, i: nat, n: nat)
    requires i < n <= |run| && run[i].Ask? && Issues(priv, s, g, run, i, run[i].session)
    requires Undisturbed(run, i, n, run[i].session, run[i].now + 120_000_000_000)
    ensures Awaits(After(priv, s, g, run, n), run[i].session, run[i].nonce, run[i].now + 120_000_000_000)
  {
    hide Next, Answers;
    if n == i + 1 {
      AsksAwaits(priv, s, g, run, i);
    } else {
      RunAwaits(priv, s, g, run, i, n - 1);
      StillAwaits(After(priv, s, g, run, n - 1), s, g, run[n - 1], run[i].session, run[i].nonce, run[i].now + 120_000_000_000);
    }
  }

  lemma AsksAwaits(priv: Bytes, s: Suite, g: Agreement, run: Run, i: nat)
    requires i < |run| && run[i].Ask? && Issues(priv, s, g, run, i, run[i].session)
    ensures Awaits(After(priv, s, g, run, i + 1), run[i].session, run[i].nonce, run[i].now + 120_000_000_000)
  {
    hide Issue, LiveAt, Awaits;
    var st, e := After(priv, s, g, run, i), run[i];
    IssuedIff(st, g, e.session, e.nonce, e.checked, e.now);
    IssuedAwaits(st, g, e.session, e.nonce, e.checked, e.now);
  }

  lemma {:induction false} SamePriv(priv: Bytes, s: Suite, g: Agreement, run: Run, n: nat)
    requires n <= |run|
    ensures After(priv, s, g, run, n).priv == priv
  {
    hide LooksLikeEnvelope, Decrypt;
    if n > 0 { SamePriv(priv, s, g, run, n - 1); }
  }

  /** Delivery over runs: through any asks and answers of other sessions, the challenge
      that was handed out opens what was sealed to it, until its two minutes are over. */
  lemma DeliveredOverRuns(priv: Bytes, s: Suite, g: Agreement, run: Run, i: nat, n: nat, plaintext: Bytes, instance: Text,
                          sender: Bytes, nonce: Bytes, checked: int, now: int)
    requires SealsAndOpens(s) && Agrees(g) && |instance| < 0x1_0000_0000_0000_0000 && |nonce| == 12
    requires i < n <= |run| && run[i].Ask? && |run[i].session| == 8 && |run[i].nonce| == 32
    requires Issues(priv, s, g, run, i, run[i].session) && g.shared(sender, g.public(priv)).Some?
    requires Undisturbed(run, i, n, run[i].session, run[i].now + 120_000_000_000)
    requires checked <= run[i].now + 120_000_000_000 && now <= run[i].now + 120_000_000_000
    ensures
      var ch := Issue(After(priv, s, g, run, i), g, run[i].session, run[i].nonce, run[i].checked, run[i].now).1;
      && ch.Some?
      && var envelope := SealBundle(s, g, plaintext, instance, ch.value, sender, nonce);
      && envelope.Some?
      && Open(After(priv, s, g, run, n), s, g, envelope.value, instance, checked, now).1 == Some(plaintext)
  {
    hide Issue, SealBundle, Open, LiveAt, After, Awaits, Undisturbed;
    var e := run[i];
    IssuedIff(After(priv, s, g, run, i), g, e.session, e.nonce, e.checked, e.now);
    SamePriv(priv, s, g, run, i);
    SamePriv(priv, s, g, run, n);
    RunAwaits(priv, s, g, run, i, n);
    AwaitedOpens(s, g, After(priv, s, g, run, n), e.session, e.nonce, e.now + 120_000_000_000, plaintext, instance, sender, nonce,
                 checked, now);
  }
}
