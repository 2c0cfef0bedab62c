/** The bytes a cloud holds: the blob's layout, sealing and opening it, and
    rewriting the fields that wrap its data key. */
module Blobs {
  import opened Basics
  import opened Paths
  import opened Keys
  import opened Crypto

  datatype StoreError =
    | InvalidKey
    | TooLarge
    | Integrity
    | UnknownKey
    | BadKeyLength
    | NotFound
    | Foreign
    | NoKeys

  const VERSION: byte := 1
  const VERSION2: byte := 2
  const HEADER_LEN := 75
  const MAX_HEADER_LEN := 1168
  const MAX_PLAINTEXT := 0x400_0000
  const NAME_PAD_UNIT := 32

  function Magic(): Bytes { [70, 67, 68, 83] }

  /** The randomness one write draws. */
  datatype Draw = Draw(dek: Bytes, wrapNonce: Bytes, nameNonce: Bytes, dataNonce: Bytes)

  predicate GoodDraw(d: Draw) {
    |d.dek| == KEY_BYTES && |d.wrapNonce| == |d.nameNonce| == |d.dataNonce| == NONCE_LEN
  }

  function Put16(n: nat): (b: Bytes)
    requires n < 0x1_0000
    ensures |b| == 2 && Get16(b) == n
  {
    [(n / 256) as byte, (n % 256) as byte]
  }

  function Get16(b: Bytes): (n: nat)
    requires |b| == 2
    ensures n < 0x1_0000
  {
    b[0] as nat * 256 + b[1] as nat
  }

  function DataAad(key: Text): Bytes { Magic() + [VERSION] + key }

  function WrapAad(version: byte, id: KeyId): Bytes { Magic() + [version] + id }

  // ---------------------------------------------------------------- names

  function PaddedLen(n: nat): nat { (n + 31) / 32 * 32 }

  predicate AllZero(b: Bytes) { forall i :: 0 <= i < |b| ==> b[i] == 0 }

  /** Length, name, and zeros to a multiple of 32 bytes. */
  function PadName(key: Text): Option<Bytes> {
    if |key| > MAX_KEY_BYTES then None
    else Some(Put16(|key|) + key + seq(PaddedLen(2 + |key|) - (2 + |key|), _ => 0))
  }

  function UnpadName(p: Bytes): Option<Text> {
    if |p| < 2 || |p| % NAME_PAD_UNIT != 0 then None
    else
      var n := Get16(p[..2]);
      if 2 + n > |p| || PaddedLen(2 + n) != |p| then None
      else if !AllZero(p[2 + n..]) then None
      else if !ValidUtf8(p[2..2 + n]) then None
      else Some(p[2..2 + n])
  }

  lemma PaddedSize(n: nat)
    ensures n <= PaddedLen(n) && PaddedLen(n) % 32 == 0
  {
  }

  lemma PadReads(key: Text)
    requires |key| <= MAX_KEY_BYTES && ValidUtf8(key)
    ensures UnpadName(PadName(key).value) == Some(key)
  {
    hide ValidUtf8, PaddedLen;
    var n, p := |key|, PadName(key).value;
    PaddedSize(2 + n);
    assert p[..2] == Put16(n);
    assert p[2..2 + n] == key;
    assert AllZero(p[2 + n..]);
  }

  lemma ReadPads(p: Bytes, key: Text)
    requires UnpadName(p) == Some(key) && |key| <= MAX_KEY_BYTES
    ensures PadName(key) == Some(p)
  {
    hide ValidUtf8, PaddedLen;
    var n := |key|;
    PaddedSize(2 + n);
    Same16(p[..2], n);
    var zeros: Bytes := seq(PaddedLen(2 + n) - (2 + n), _ => 0);
    assert p[2 + n..] == zeros;
    assert p == p[..2] + p[2..2 + n] + p[2 + n..];
  }

  /** The padding is canonical: a plaintext reads as a name exactly when it is
      that name's one encoding. */
  lemma PaddingIsCanonical(p: Bytes, key: Text)
    requires |key| <= MAX_KEY_BYTES && ValidUtf8(key)
    ensures UnpadName(p) == Some(key) <==> PadName(key) == Some(p)
  {
    PadReads(key);
    hide UnpadName, PadName;
    if UnpadName(p) == Some(key) { ReadPads(p, key); }
  }

  lemma Same16(b: Bytes, n: nat)
    requires |b| == 2 && n < 0x1_0000 && Get16(b) == n
    ensures b == Put16(n)
  {
    assert b[0] as nat == n / 256 && b[1] as nat == n % 256;
  }

  function SealName(s: Suite, nameKey: Bytes, stored: Text, key: Text, nonce: Bytes): Option<Bytes> {
    match PadName(key)
    case None => None
    case Some(p) => Some(nonce + s.seal(NameCryptKey(s, nameKey, stored), nonce, p, stored))
  }

  function OpenName(s: Suite, nameKey: Bytes, stored: Text, sealedName: Bytes): Option<Text> {
    if |sealedName| < NONCE_LEN + TAG_LEN then None
    else match s.open(NameCryptKey(s, nameKey, stored), sealedName[..NONCE_LEN], sealedName[NONCE_LEN..], stored)
    case None => None
    case Some(p) => UnpadName(p)
  }

  lemma PadSize(key: Text)
    requires |key| <= MAX_KEY_BYTES
    ensures 32 <= |PadName(key).value| <= 1056
  {
    PaddedSize(2 + |key|);
  }

  /** A sealed name opens to the name it seals. */
  lemma NameOpens(s: Suite, nameKey: Bytes, stored: Text, key: Text, nonce: Bytes)
    requires SealsAndOpens(s) && |key| <= MAX_KEY_BYTES && ValidUtf8(key) && |nonce| == NONCE_LEN
    ensures SealName(s, nameKey, stored, key, nonce).Some?
    ensures OpenName(s, nameKey, stored, SealName(s, nameKey, stored, key, nonce).value) == Some(key)
    ensures 44 <= |SealName(s, nameKey, stored, key, nonce).value| <= 1084
  {
    var p := PadName(key).value;
    PadSize(key);
    PaddingIsCanonical(p, key);
    hide PadName, UnpadName, ValidUtf8;
    var c := s.seal(NameCryptKey(s, nameKey, stored), nonce, p, stored);
    var n := nonce + c;
    assert n[..NONCE_LEN] == nonce && n[NONCE_LEN..] == c;
  }

  // ---------------------------------------------------------------- layout

  datatype Header = Header(version: byte, id: KeyId, wrapNonce: Bytes, wrapped: Bytes, sealedName: Bytes, body: Bytes)

  predicate KnownFormat(b: Bytes)
    requires |b| >= HEADER_LEN
  {
    b[..4] == Magic() && (b[4] == VERSION || b[4] == VERSION2)
  }

  function ParseHeader(b: Bytes): Result<Header, StoreError> {
    if |b| < HEADER_LEN || !KnownFormat(b) then Err(Integrity)
    else
      var nameLen := Get16(b[73..75]);
      if nameLen < NONCE_LEN + TAG_LEN || |b| < HEADER_LEN + nameLen then Err(Integrity)
      else if b[4] == VERSION && |b| - (HEADER_LEN + nameLen) < NONCE_LEN + TAG_LEN then Err(Integrity)
      else Ok(Header(b[4], b[5..13], b[13..25], b[25..73], b[75..75 + nameLen], b[75 + nameLen..]))
  }

  function Unwrap(s: Suite, keks: seq<Entry>, version: byte, id: KeyId, nonce: Bytes, wrapped: Bytes)
    : Result<Bytes, StoreError>
  {
    match Lookup(keks, id)
    case None => Err(UnknownKey)
    case Some(kek) =>
      if |kek| != KEY_BYTES then Err(BadKeyLength)
      else match s.open(kek, nonce, wrapped, WrapAad(version, id))
      case None => Err(Integrity)
      case Some(dek) => Ok(dek)
  }

  /** What opening gives: the whole authenticated plaintext, or an error. */
  function Open(s: Suite, keks: seq<Entry>, key: Text, b: Bytes): Result<Bytes, StoreError> {
    match ParseHeader(b)
    case Err(e) => Err(e)
    case Ok(h) =>
      if h.version == VERSION2 && (|h.body| < 9 || h.body[8] < 16 || h.body[8] > 26) then Err(Integrity)
      else match Unwrap(s, keks, h.version, h.id, h.wrapNonce, h.wrapped)
      case Err(e) => Err(e)
      case Ok(dek) =>
        if |dek| != KEY_BYTES then Err(BadKeyLength)
        else OpenBody(s, h.version, dek, key, h.body)
  }

  function OpenBody(s: Suite, version: byte, dek: Bytes, key: Text, body: Bytes): Result<Bytes, StoreError> {
    if version == VERSION2 then
      (match s.frames(dek, key, body)
       case None => Err(Integrity)
       case Some(data) => if |data| > MAX_PLAINTEXT then Err(TooLarge) else Ok(data))
    else if |body| < NONCE_LEN + TAG_LEN then Err(Integrity)
    else match s.open(dek, body[..NONCE_LEN], body[NONCE_LEN..], DataAad(key))
    case None => Err(Integrity)
    case Some(data) => Ok(data)
  }

  function Layout(version: byte, id: KeyId, wrapNonce: Bytes, wrapped: Bytes, sealedName: Bytes, body: Bytes): Bytes
    requires |sealedName| < 0x1_0000
  {
    Magic() + [version] + id + wrapNonce + wrapped + Put16(|sealedName|) + sealedName + body
  }

  /** A blob and the sealed name that is also kept beside it. */
  function Seal(s: Suite, kekId: KeyId, kek: Bytes, nameKey: Bytes, stored: Text, key: Text, data: Bytes, d: Draw)
    : Result<(Bytes, Bytes), StoreError>
  {
    if !ValidKey(key) then Err(InvalidKey)
    else if |data| > MAX_PLAINTEXT then Err(TooLarge)
    else if |kek| != KEY_BYTES then Err(BadKeyLength)
    else match SealName(s, nameKey, stored, key, d.nameNonce)
    case None => Err(InvalidKey)
    case Some(sealedName) =>
      if |sealedName| >= 0x1_0000 then Err(InvalidKey)
      else
        var wrapped := s.seal(kek, d.wrapNonce, d.dek, WrapAad(VERSION, kekId));
        var body := d.dataNonce + s.seal(d.dek, d.dataNonce, data, DataAad(key));
        Ok((Layout(VERSION, kekId, d.wrapNonce, wrapped, sealedName, body), sealedName))
  }

  /** Parsing reads back every field of a laid-out blob. */
  lemma LayoutParses(version: byte, id: KeyId, wrapNonce: Bytes, wrapped: Bytes, sealedName: Bytes, body: Bytes)
    requires version == VERSION || version == VERSION2
    requires |wrapNonce| == NONCE_LEN && |wrapped| == KEY_BYTES + TAG_LEN
    requires NONCE_LEN + TAG_LEN <= |sealedName| < 0x1_0000
    requires version == VERSION ==> |body| >= NONCE_LEN + TAG_LEN
    ensures ParseHeader(Layout(version, id, wrapNonce, wrapped, sealedName, body))
         == Ok(Header(version, id, wrapNonce, wrapped, sealedName, body))
  {
    var p0 := Magic() + [version];
    var p1 := p0 + id;
    var p2 := p1 + wrapNonce;
    var p3 := p2 + wrapped;
    var p4 := p3 + Put16(|sealedName|);
    var p5 := p4 + sealedName;
    var n := 75 + |sealedName|;
    var b := Layout(version, id, wrapNonce, wrapped, sealedName, body);
    assert b == p5 + body;
    hide Layout;
    assert b[..4] == Magic() && b[4] == version;
    Middle(b, p0, id, 5, 13);
    Middle(b, p1, wrapNonce, 13, 25);
    Middle(b, p2, wrapped, 25, 73);
    Middle(b, p3, Put16(|sealedName|), 73, 75);
    Middle(b, p4, sealedName, 75, n);
    assert b[n..] == body;
  }

  lemma Middle(b: Bytes, before: Bytes, x: Bytes, lo: nat, hi: nat)
    requires |before| == lo && |x| == hi - lo && before + x <= b
    ensures b[lo..hi] == x
  {
    assert b[..hi] == before + x;
    assert b[lo..hi] == b[..hi][lo..];
  }

  /** Opening inverts sealing for whoever holds the wrapping key, and the name
      kept with the blob is the one in its header. */
  lemma OpenInvertsSeal(s: Suite, keks: seq<Entry>, kekId: KeyId, kek: Bytes, nameKey: Bytes, stored: Text, key: Text,
                        data: Bytes, d: Draw)
    requires SealsAndOpens(s) && GoodDraw(d)
    requires ValidKey(key) && |data| <= MAX_PLAINTEXT && |kek| == KEY_BYTES && Lookup(keks, kekId) == Some(kek)
    ensures Seal(s, kekId, kek, nameKey, stored, key, data, d).Ok?
    ensures
      var (blob, sealedName) := Seal(s, kekId, kek, nameKey, stored, key, data, d).value;
      && Open(s, keks, key, blob) == Ok(data)
      && ParseHeader(blob).Ok? && ParseHeader(blob).value.sealedName == sealedName
      && ParseHeader(blob).value.id == kekId
      && OpenName(s, nameKey, stored, sealedName) == Some(key)
  {
    NameOpens(s, nameKey, stored, key, d.nameNonce);
    var sealedName := SealName(s, nameKey, stored, key, d.nameNonce).value;
    var wrapped := s.seal(kek, d.wrapNonce, d.dek, WrapAad(VERSION, kekId));
    var c := s.seal(d.dek, d.dataNonce, data, DataAad(key));
    var body := d.dataNonce + c;
    assert body[..NONCE_LEN] == d.dataNonce && body[NONCE_LEN..] == c;
    hide SealName, OpenName, Layout, ParseHeader, ValidKey;
    LayoutParses(VERSION, kekId, d.wrapNonce, wrapped, sealedName, body);
  }

  // ---------------------------------------------------------------- what the bytes are

  lemma MagicIsSpelled()
    ensures Magic() == Ascii("FCDS")
  {
    assert Ascii("FCDS") == [70, 67, 68, 83];
  }

  /** A header as it stands at the start of some bytes: the magic, a version, the id of
      the wrapping key, the wrapped data key and its nonce, the length of the name, most
      significant byte first, and the name; what is left is the body. */
  predicate Heads(b: Bytes, nameLen: nat) {
    && |b| >= 75 && b[..4] == Ascii("FCDS") && (b[4] == 1 || b[4] == 2)
    && nameLen == b[73] as nat * 256 + b[74] as nat
    && 28 <= nameLen && 75 + nameLen <= |b|
    && (b[4] == 1 ==> 75 + nameLen + 28 <= |b|)
  }

  lemma HeadsIff(b: Bytes)
    ensures ParseHeader(b).Ok? <==> exists n :: Heads(b, n)
    ensures forall n :: Heads(b, n) ==>
      ParseHeader(b) == Ok(Header(b[4], b[5..13], b[13..25], b[25..73], b[75..75 + n], b[75 + n..]))
    ensures ParseHeader(b).Err? ==> ParseHeader(b) == Err(Integrity)
  {
    MagicIsSpelled();
    hide Magic, Ascii;
    if |b| >= 75 {
      assert Get16(b[73..75]) == b[73] as nat * 256 + b[74] as nat;
      assert ParseHeader(b).Ok? ==> Heads(b, b[73] as nat * 256 + b[74] as nat);
    }
  }

  /** The body of a buffered object: a nonce, and the data sealed under the data key
      for this logical key. */
  predicate BodyHolds(s: Suite, dek: Bytes, key: Text, body: Bytes, data: Bytes) {
    |body| >= 28 && body[12..] == s.seal(dek, body[..12], data, Ascii("FCDS") + [1] + key)
  }

  /** The data key in the header is what was wrapped, for this version and key id, under
      the wrapping key the id stands for. */
  predicate WrapHolds(s: Suite, keks: seq<Entry>, b: Bytes, dek: Bytes)
    requires |b| >= 75
  {
    && |dek| == 32 && Lookup(keks, b[5..13]).Some? && |Lookup(keks, b[5..13]).value| == 32
    && b[25..73] == s.seal(Lookup(keks, b[5..13]).value, b[13..25], dek, Ascii("FCDS") + [b[4]] + b[5..13])
  }

  lemma UnwrapsIff(s: Suite, keks: seq<Entry>, b: Bytes, dek: Bytes)
    requires SealsAndOpens(s) && |b| >= 75
    ensures Unwrap(s, keks, b[4], b[5..13], b[13..25], b[25..73]) == Ok(dek) && |dek| == 32 <==> WrapHolds(s, keks, b, dek)
  {
    MagicIsSpelled();
    hide Magic, Ascii, Lookup;
    assert WrapAad(b[4], b[5..13]) == Ascii("FCDS") + [b[4]] + b[5..13];
  }

  lemma BodyOpensIff(s: Suite, dek: Bytes, key: Text, body: Bytes, data: Bytes)
    requires SealsAndOpens(s)
    ensures OpenBody(s, 1, dek, key, body) == Ok(data) <==> BodyHolds(s, dek, key, body, data)
  {
    MagicIsSpelled();
    hide Magic, Ascii;
    assert DataAad(key) == Ascii("FCDS") + [1] + key;
  }

  /** A body that opens, as its version has it. */
  predicate BodyOf(s: Suite, version: byte, dek: Bytes, key: Text, body: Bytes, data: Bytes) {
    if version == 1 then BodyHolds(s, dek, key, body, data)
    else |body| >= 9 && 16 <= body[8] <= 26 && s.frames(dek, key, body) == Some(data) && |data| <= 67_108_864
  }

  lemma OpensUnder(s: Suite, keks: seq<Entry>, key: Text, b: Bytes, n: nat, dek: Bytes, data: Bytes)
    requires SealsAndOpens(s) && Heads(b, n) && WrapHolds(s, keks, b, dek)
    ensures Open(s, keks, key, b) == Ok(data) <==> BodyOf(s, b[4], dek, key, b[75 + n..], data)
  {
    hide ParseHeader, Unwrap, Lookup, BodyHolds, WrapHolds;
    HeadsIff(b);
    UnwrapsIff(s, keks, b, dek);
    BodyOpensIff(s, dek, key, b[75 + n..], data);
  }

  lemma OpensByKey(s: Suite, keks: seq<Entry>, key: Text, b: Bytes) returns (n: nat, dek: Bytes)
    requires SealsAndOpens(s) && Open(s, keks, key, b).Ok?
    ensures Heads(b, n) && WrapHolds(s, keks, b, dek)
  {
    hide ParseHeader, Unwrap, Lookup, WrapHolds, Heads, OpenBody;
    HeadsIff(b);
    n :| Heads(b, n);
    HeadsFit(b, n);
    dek := Unwrap(s, keks, b[4], b[5..13], b[13..25], b[25..73]).value;
    UnwrapsIff(s, keks, b, dek);
  }

  /** Exactly which bytes open, to what: whatever a cloud returns, a buffered object opens
      only as data that was sealed for this logical key under a data key that was wrapped
      for it; a streamed one, as its frames say, and no longer than a buffered one may be. */
  lemma OpensIff(s: Suite, keks: seq<Entry>, key: Text, b: Bytes, data: Bytes)
    requires SealsAndOpens(s)
    ensures Open(s, keks, key, b) == Ok(data) <==>
      exists n, dek :: Heads(b, n) && WrapHolds(s, keks, b, dek) && BodyOf(s, b[4], dek, key, b[75 + n..], data)
  {
    hide Open, WrapHolds, BodyOf, Lookup;
    if Open(s, keks, key, b) == Ok(data) {
      var n, dek := OpensByKey(s, keks, key, b);
      OpensUnder(s, keks, key, b, n, dek, data);
    }
    forall n: nat, dek | Heads(b, n) && WrapHolds(s, keks, b, dek)
      ensures BodyOf(s, b[4], dek, key, b[75 + n..], data) ==> Open(s, keks, key, b) == Ok(data)
    {
      OpensUnder(s, keks, key, b, n, dek, data);
    }
  }

  lemma HeadsFit(b: Bytes, n: nat)
    requires Heads(b, n)
    ensures |b| >= 75 + n && (b[4] == 1 || b[4] == 2)
  {
  }

  lemma HeadIsOne(b: Bytes, n: nat)
    requires Heads(b, n)
    ensures forall m :: Heads(b, m) ==> m == n
  {
  }

  /** A wrapping key that is not held is told from damage, exactly when there is a header
      to name it. */
  lemma UnknownIff(s: Suite, keks: seq<Entry>, key: Text, b: Bytes)
    ensures Open(s, keks, key, b) == Err(UnknownKey) <==>
      exists n ::
        && Heads(b, n) && Lookup(keks, b[5..13]).None?
        && (b[4] == 2 ==> |b[75 + n..]| >= 9 && 16 <= b[75 + n..][8] <= 26)
  {
    hide Heads, ParseHeader, Lookup;
    HeadsIff(b);
    if ParseHeader(b).Ok? {
      var n: nat :| Heads(b, n);
      HeadsFit(b, n);
      HeadIsOne(b, n);
    }
  }

  /** What a name is sealed as: its length in two bytes, the name, and zeros up to the
      next multiple of 32. */
  predicate Padded(p: Bytes, key: Text) {
    && |p| % 32 == 0 && 2 + |key| <= |p| < 2 + |key| + 32
    && p[0] as nat * 256 + p[1] as nat == |key|
    && p[2..2 + |key|] == key && forall i :: 2 + |key| <= i < |p| ==> p[i] == 0
  }

  lemma UnpadsIff(p: Bytes, key: Text)
    ensures UnpadName(p) == Some(key) <==> Padded(p, key) && ValidUtf8(key)
  {
    hide ValidUtf8;
    if |p| >= 2 {
      assert Get16(p[..2]) == p[0] as nat * 256 + p[1] as nat;
      if Padded(p, key) { assert p[2 + |key|..] == seq(|p| - 2 - |key|, i => 0); }
      if UnpadName(p) == Some(key) {
        assert forall i :: 2 + |key| <= i < |p| ==> p[i] == p[2 + |key|..][i - 2 - |key|];
      }
    }
  }

  /** Exactly which sealed names open, to what, whoever made them: what was sealed for
      this stored path under the key derived for it, padded as a name is. */
  lemma NameOpensIff(s: Suite, nameKey: Bytes, stored: Text, sealedName: Bytes, key: Text)
    requires SealsAndOpens(s)
    ensures OpenName(s, nameKey, stored, sealedName) == Some(key) <==>
      && |sealedName| >= 28 && ValidUtf8(key)
      && exists p :: Padded(p, key)
           && sealedName[12..]
              == s.seal(s.derive(nameKey, Ascii("farcast/datasphere/v1/name-crypt/") + stored), sealedName[..12], p, stored)
  {
    hide UnpadName, Padded, ValidUtf8, Ascii;
    forall p
      ensures UnpadName(p) == Some(key) <==> Padded(p, key) && ValidUtf8(key)
    {
      UnpadsIff(p, key);
    }
  }

  lemma PaddedIs(key: Text)
    requires |key| <= 1024
    ensures PadName(key).Some? && Padded(PadName(key).value, key)
  {
    PaddedSize(2 + |key|);
  }

  /** What a write stores, byte for byte. */
  lemma WrittenIs(s: Suite, kekId: KeyId, kek: Bytes, nameKey: Bytes, stored: Text, key: Text, data: Bytes, d: Draw)
    requires SealsAndOpens(s) && GoodDraw(d) && ValidKey(key) && |data| <= 67_108_864 && |kek| == 32
    ensures Seal(s, kekId, kek, nameKey, stored, key, data, d).Ok?
    ensures exists name, hi, lo ::
      && Padded(name, key)
      && var nameCrypt := s.derive(nameKey, Ascii("farcast/datasphere/v1/name-crypt/") + stored);
      var sealedName := d.nameNonce + s.seal(nameCrypt, d.nameNonce, name, stored);
      && hi as nat * 256 + lo as nat == |sealedName|
      && var blob := Ascii("FCDS") + [1] + kekId + d.wrapNonce
                     + s.seal(kek, d.wrapNonce, d.dek, Ascii("FCDS") + [1] + kekId) + [hi, lo] + sealedName
                     + (d.dataNonce + s.seal(d.dek, d.dataNonce, data, Ascii("FCDS") + [1] + key));
      Seal(s, kekId, kek, nameKey, stored, key, data, d).value == (blob, sealedName)
  {
    hide ValidUtf8, PadName, Padded, PaddedLen;
    assert |key| <= 1024 && ValidUtf8(key);
    PaddedIs(key);
    NameOpens(s, nameKey, stored, key, d.nameNonce);
    MagicIsSpelled();
    hide ValidKey, Magic, Ascii, OpenName;
    var name := PadName(key).value;
    var sealedName := SealName(s, nameKey, stored, key, d.nameNonce).value;
    var n := Put16(|sealedName|);
    assert n == [n[0], n[1]];
    assert Padded(name, key) && n[0] as nat * 256 + n[1] as nat == |sealedName|;
  }

  // ---------------------------------------------------------------- re-wrapping

  function RekeyPrefix(s: Suite, keks: seq<Entry>, newId: KeyId, newKek: Bytes, prefix: Bytes, nonce: Bytes)
    : Result<Bytes, StoreError>
  {
    if |prefix| < HEADER_LEN || !KnownFormat(prefix) then Err(Integrity)
    else if |newKek| != KEY_BYTES then Err(BadKeyLength)
    else match Unwrap(s, keks, prefix[4], prefix[5..13], prefix[13..25], prefix[25..73])
    case Err(e) => Err(e)
    case Ok(dek) =>
      Ok(Rewrapped(prefix[..HEADER_LEN], newId, nonce, s.seal(newKek, nonce, dek, WrapAad(prefix[4], newId))))
  }

  /** The same bytes but for the fields at 5 to 72. */
  function Rewrapped(b: Bytes, id: KeyId, nonce: Bytes, wrapped: Bytes): Bytes
    requires |b| >= 73
  {
    b[..5] + id + nonce + wrapped + b[73..]
  }
}
