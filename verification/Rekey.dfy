/** Moving an object onto the active key-encryption key: a header buffer is read
    off the stream, overwritten in place and spliced before what is left. */
module Rekeys {
  import opened Basics
  import opened Keys
  import opened Crypto
  import opened Blobs

  /** What a rekey uploads: the object's new bytes and the mirror it declares. */
  datatype Upload = Upload(data: Bytes, mirror: Bytes)

  function HeadLen(data: Bytes): nat { if |data| < MAX_HEADER_LEN then |data| else MAX_HEADER_LEN }

  /** The sealed name inside the bytes read so far. */
  function SealedNameOf(head: Bytes): Option<Bytes>
    requires |head| >= HEADER_LEN
  {
    var n := Get16(head[73..75]);
    if n < NONCE_LEN + TAG_LEN || HEADER_LEN + n > |head| then None else Some(head[75..75 + n])
  }

  /** Bytes with their start overwritten, as far as they reach. */
  function Overlay(b: Bytes, prefix: Bytes): Bytes {
    if |prefix| <= |b| then prefix + b[|prefix|..] else prefix[..|b|]
  }

  /** Nothing to do, an upload, or a refusal. */
  function Rekey(s: Suite, keks: seq<Entry>, data: Bytes, nonce: Bytes): Result<Option<Upload>, StoreError> {
    if keks == [] then Err(NoKeys)
    else if |data| < HEADER_LEN then Err(Integrity)
    else
      var active, head := keks[0], data[..HeadLen(data)];
      if head[5..13] == active.id then Ok(None)
      else match RekeyPrefix(s, keks, active.id, active.key, head, nonce)
      case Err(e) => Err(e)
      case Ok(prefix) =>
        match SealedNameOf(head)
        case None => Err(Integrity)
        case Some(name) => Ok(Some(Upload(Overlay(data, prefix), name)))
  }

  /** Overwrite the start of a buffer. */
  method CopyInto(head: array<byte>, prefix: Bytes)
    requires |prefix| <= head.Length
    modifies head
    ensures head[..] == prefix + old(head[..])[|prefix|..]
  {
    for i := 0 to |prefix|
      invariant forall j :: 0 <= j < i ==> head[j] == prefix[j]
      invariant forall j :: i <= j < head.Length ==> head[j] == old(head[j])
    {
      head[i] := prefix[i];
    }
  }

  /** Read up to a full header's worth of a stream. */
  method ReadHead(data: Bytes) returns (head: array<byte>)
    ensures fresh(head) && head[..] == data[..HeadLen(data)]
  {
    var n := HeadLen(data);
    head := new byte[n](i requires 0 <= i < n => data[i]);
  }

  method RekeyStream(s: Suite, keks: seq<Entry>, data: Bytes, nonce: Bytes) returns (r: Result<Option<Upload>, StoreError>)
    requires SealsAndOpens(s) && |nonce| == NONCE_LEN
    ensures r == Rekey(s, keks, data, nonce)
  {
    if keks == [] { return Err(NoKeys); }
    var head := ReadHead(data);
    if head.Length < HEADER_LEN { return Err(Integrity); }
    if head[5..13] == keks[0].id { return Ok(None); }
    var prefix := RekeyPrefix(s, keks, keks[0].id, keks[0].key, head[..], nonce);
    if prefix.Err? { return Err(prefix.error); }
    var name := SealedNameOf(head[..]);
    if name.None? { return Err(Integrity); }
    PrefixIsSplice(s, keks, keks[0].id, keks[0].key, head[..], nonce);
    CopyInto(head, prefix.value);
    assert prefix.value + data[|prefix.value|..] == head[..] + data[head.Length..];
    r := Ok(Some(Upload(head[..] + data[head.Length..], name.value)));
  }

  /** A rewritten prefix is the old one but for the wrap fields. */
  lemma PrefixIsSplice(s: Suite, keks: seq<Entry>, id: KeyId, kek: Bytes, head: Bytes, nonce: Bytes)
    requires SealsAndOpens(s) && |nonce| == NONCE_LEN
    requires RekeyPrefix(s, keks, id, kek, head, nonce).Ok?
    ensures Unwrap(s, keks, head[4], head[5..13], head[13..25], head[25..73]).Ok?
    ensures
      var dek := Unwrap(s, keks, head[4], head[5..13], head[13..25], head[25..73]).value;
      var wrapped := s.seal(kek, nonce, dek, WrapAad(head[4], id));
      && |dek| == KEY_BYTES && |wrapped| == 48
      && |RekeyPrefix(s, keks, id, kek, head, nonce).value| == HEADER_LEN
      && RekeyPrefix(s, keks, id, kek, head, nonce).value == Rewrapped(head[..HEADER_LEN], id, nonce, wrapped)
  {
    var dek := Unwrap(s, keks, head[4], head[5..13], head[13..25], head[25..73]).value;
    var was := Lookup(keks, head[5..13]).value;
    assert head[25..73] == s.seal(was, head[13..25], dek, WrapAad(head[4], head[5..13]));
  }

  /** The header buffer shows the object's own fields. */
  lemma HeadIsData(data: Bytes)
    requires |data| >= HEADER_LEN
    ensures var head := data[..HeadLen(data)];
      && |head| >= HEADER_LEN
      && head[..4] == data[..4] && head[4] == data[4] && head[5..13] == data[5..13]
      && head[13..25] == data[13..25] && head[25..73] == data[25..73]
  {
  }

  /** The data key an object's header wraps. */
  function DekOf(s: Suite, keks: seq<Entry>, data: Bytes): Result<Bytes, StoreError>
    requires |data| >= HEADER_LEN
  {
    Unwrap(s, keks, data[4], data[5..13], data[13..25], data[25..73])
  }

  /** The upload is the original but for bytes 5 to 72, whether the object is
      shorter or longer than the header buffer, and those bytes wrap the same
      data key under the active key. */
  lemma UploadIsSplice(s: Suite, keks: seq<Entry>, data: Bytes, nonce: Bytes)
    requires SealsAndOpens(s) && |nonce| == NONCE_LEN
    requires Rekey(s, keks, data, nonce).Ok? && Rekey(s, keks, data, nonce).value.Some?
    ensures DekOf(s, keks, data).Ok?
    ensures
      var up, active := Rekey(s, keks, data, nonce).value.value, keks[0];
      var wrapped := s.seal(active.key, nonce, DekOf(s, keks, data).value, WrapAad(data[4], active.id));
      && |active.key| == KEY_BYTES && |wrapped| == 48 && KnownFormat(data)
      && up.data == Rewrapped(data, active.id, nonce, wrapped)
      && SealedNameOf(data[..HeadLen(data)]) == Some(up.mirror)
  {
    var head := data[..HeadLen(data)];
    HeadIsData(data);
    PrefixIsSplice(s, keks, keks[0].id, keks[0].key, head, nonce);
    var prefix := RekeyPrefix(s, keks, keks[0].id, keks[0].key, head, nonce).value;
    assert head[..HEADER_LEN][..5] == data[..5];
    assert head[..HEADER_LEN][73..] + data[75..] == data[73..];
  }

  /** Bytes outside the wrap fields are where they were. */
  lemma SpliceParts(data: Bytes, id: KeyId, nonce: Bytes, wrapped: Bytes)
    requires |data| >= HEADER_LEN && |nonce| == NONCE_LEN && |wrapped| == 48
    ensures |Rewrapped(data, id, nonce, wrapped)| == |data|
    ensures var out := Rewrapped(data, id, nonce, wrapped);
      && out[..5] == data[..5] && out[73..] == data[73..]
      && out[5..13] == id && out[13..25] == nonce && out[25..73] == wrapped
  {
    var p0 := data[..5];
    var p1 := p0 + id;
    var p2 := p1 + nonce;
    var out := p2 + wrapped + data[73..];
    Middle(out, p0, id, 5, 13);
    Middle(out, p1, nonce, 13, 25);
    Middle(out, p2, wrapped, 25, 73);
    assert out[..5] == p0 && out[73..] == data[73..];
  }

  lemma SpliceParses(data: Bytes, id: KeyId, nonce: Bytes, wrapped: Bytes)
    requires |data| >= HEADER_LEN && |nonce| == NONCE_LEN && |wrapped| == 48
    ensures match ParseHeader(data)
            case Err(e) => ParseHeader(Rewrapped(data, id, nonce, wrapped)) == Err(e)
            case Ok(h) =>
              ParseHeader(Rewrapped(data, id, nonce, wrapped)) == Ok(h.(id := id, wrapNonce := nonce, wrapped := wrapped))
  {
    var out := Rewrapped(data, id, nonce, wrapped);
    SpliceParts(data, id, nonce, wrapped);
    hide Rewrapped;
    assert out[..4] == out[..5][..4] && data[..4] == data[..5][..4];
    assert out[4] == out[..5][4] && data[4] == data[..5][4];
    assert out[73..75] == out[73..][..2] && data[73..75] == data[73..][..2];
    forall n | 75 <= n <= |data|
      ensures out[75..n] == data[75..n] && out[n..] == data[n..]
    {
      assert out[75..n] == out[73..][2..n - 73] && data[75..n] == data[73..][2..n - 73];
      assert out[n..] == out[73..][n - 73..] && data[n..] == data[73..][n - 73..];
    }
  }

  /** Re-wrapping keeps every reading: whoever holds the active key gets from the
      upload exactly what the old keys gave from the original, plaintext or error. */
  lemma RekeyKeepsReading(s: Suite, keks: seq<Entry>, data: Bytes, nonce: Bytes, later: seq<Entry>, key: Text)
    requires SealsAndOpens(s) && |nonce| == NONCE_LEN
    requires Rekey(s, keks, data, nonce).Ok? && Rekey(s, keks, data, nonce).value.Some?
    requires Lookup(later, keks[0].id) == Some(keks[0].key)
    ensures Open(s, later, key, Rekey(s, keks, data, nonce).value.value.data) == Open(s, keks, key, data)
  {
    UploadIsSplice(s, keks, data, nonce);
    var active := keks[0];
    var dek := DekOf(s, keks, data).value;
    var wrapped := s.seal(active.key, nonce, dek, WrapAad(data[4], active.id));
    SpliceParses(data, active.id, nonce, wrapped);
    assert Unwrap(s, later, data[4], active.id, nonce, wrapped) == Ok(dek);
    hide Rekey, Rewrapped, WrapAad, OpenBody;
  }

  /** A second rekey finds nothing to do. */
  lemma RekeyIsIdempotent(s: Suite, keks: seq<Entry>, data: Bytes, nonce: Bytes, again: Bytes)
    requires SealsAndOpens(s) && |nonce| == NONCE_LEN
    requires Rekey(s, keks, data, nonce).Ok? && Rekey(s, keks, data, nonce).value.Some?
    ensures Rekey(s, keks, Rekey(s, keks, data, nonce).value.value.data, again) == Ok(None)
  {
    UploadIsSplice(s, keks, data, nonce);
    var up := Rekey(s, keks, data, nonce).value.value;
    var wrapped := s.seal(keks[0].key, nonce, DekOf(s, keks, data).value, WrapAad(data[4], keks[0].id));
    SpliceParts(data, keks[0].id, nonce, wrapped);
    HeadIsData(up.data);
  }

  /** After a rekey that did not fail, moved or not, the active key is the only one
      still needed. */
  lemma OtherKeysMayGo(s: Suite, keks: seq<Entry>, data: Bytes, nonce: Bytes, later: seq<Entry>, key: Text)
    requires SealsAndOpens(s) && |nonce| == NONCE_LEN && Rekey(s, keks, data, nonce).Ok?
    requires Lookup(later, keks[0].id) == Some(keks[0].key)
    ensures
      var now := match Rekey(s, keks, data, nonce).value case None => data case Some(up) => up.data;
      Open(s, later, key, now) == Open(s, keks, key, data)
  {
    if Rekey(s, keks, data, nonce).value.Some? {
      RekeyKeepsReading(s, keks, data, nonce, later, key);
    } else {
      HeadIsData(data);
      assert Lookup(keks, keks[0].id) == Some(keks[0].key);
      hide OpenBody;
    }
  }
}
