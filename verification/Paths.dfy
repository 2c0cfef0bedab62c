/** Go's string operations on "/"-separated paths, over byte strings. */
module Paths {
  import opened Basics

  const SLASH: byte := 47
  const DASH: byte := 45

  predicate HasPrefix(s: Text, prefix: Text) { prefix <= s }

  predicate HasSuffixByte(s: Text, b: byte) { s != [] && s[|s| - 1] == b }

  function CutPrefix(s: Text, prefix: Text): Option<Text> {
    if prefix <= s then Some(s[|prefix|..]) else None
  }

  /** Drop one trailing separator, if there is one. */
  function TrimSuffix(s: Text, b: byte): Text {
    if HasSuffixByte(s, b) then s[..|s| - 1] else s
  }

  function Split(s: Text, sep: byte): (parts: seq<Text>)
    ensures |parts| >= 1
  {
    if s == [] then [[]]
    else
      var rest := Split(s[1..], sep);
      if s[0] == sep then [[]] + rest
      else [[s[0]] + rest[0]] + rest[1..]
  }

  function Join(parts: seq<Text>, sep: byte): Text {
    if parts == [] then []
    else if |parts| == 1 then parts[0]
    else parts[0] + [sep] + Join(parts[1..], sep)
  }

  predicate Free(s: Text, sep: byte) { sep !in s }

  predicate AllFree(parts: seq<Text>, sep: byte) { forall i :: 0 <= i < |parts| ==> Free(parts[i], sep) }

  /** Splitting loses nothing, and yields parts without the separator. */
  lemma {:induction false} JoinSplit(s: Text, sep: byte)
    ensures Join(Split(s, sep), sep) == s
    ensures AllFree(Split(s, sep), sep)
  {
    if s != [] {
      var rest := Split(s[1..], sep);
      JoinSplit(s[1..], sep);
      var parts := Split(s, sep);
      if s[0] == sep {
        assert parts[1..] == rest;
      } else if |rest| > 1 {
        assert parts[1..] == rest[1..];
      }
    }
  }

  /** A part without the separator is split off whole. */
  lemma {:induction false} SplitFree(s: Text, sep: byte)
    requires Free(s, sep)
    ensures Split(s, sep) == [s]
  {
    if s != [] {
      SplitFree(s[1..], sep);
      assert [s[0]] + s[1..] == s;
    }
  }

  lemma {:induction false} SplitCons(head: Text, tail: Text, sep: byte)
    requires Free(head, sep)
    ensures Split(head + [sep] + tail, sep) == [head] + Split(tail, sep)
  {
    var s := head + [sep] + tail;
    if head == [] {
      assert s[1..] == tail;
    } else {
      assert s[1..] == head[1..] + [sep] + tail;
      SplitCons(head[1..], tail, sep);
      assert [head[0]] + head[1..] == head;
    }
  }

  /** Joining parts without the separator loses nothing either. */
  lemma {:induction false} SplitJoin(parts: seq<Text>, sep: byte)
    requires parts != [] && AllFree(parts, sep)
    ensures Split(Join(parts, sep), sep) == parts
  {
    if |parts| == 1 {
      SplitFree(parts[0], sep);
    } else {
      SplitCons(parts[0], Join(parts[1..], sep), sep);
      SplitJoin(parts[1..], sep);
      assert parts == [parts[0]] + parts[1..];
    }
  }

  /** Two strings that a third begins with are prefixes one of the other. */
  lemma PrefixesNest(a: Text, b: Text, s: Text)
    requires a <= s && b <= s
    ensures a <= b || b <= a
  {
    if |a| <= |b| {
      assert a == s[..|a|] && b == s[..|b|];
      assert a == b[..|a|];
    } else {
      assert a == s[..|a|] && b == s[..|b|];
      assert b == a[..|b|];
    }
  }

  // ---------------------------------------------------------------- logical keys

  const MAX_KEY_BYTES := 1024
  const MAX_KEY_SEGMENTS := 30

  predicate Continuation(b: byte) { 0x80 <= b < 0xC0 }

  /** Well-formed UTF-8 (section 4 of RFC 3629). */
  predicate ValidUtf8(s: Text) {
    s == []
    || (s[0] < 0x80 && ValidUtf8(s[1..]))
    || (|s| >= 2 && 0xC2 <= s[0] < 0xE0 && Continuation(s[1]) && ValidUtf8(s[2..]))
    || (|s| >= 3 && 0xE0 <= s[0] < 0xF0 && Continuation(s[1]) && Continuation(s[2])
        && (s[0] == 0xE0 ==> s[1] >= 0xA0) && (s[0] == 0xED ==> s[1] < 0xA0)
        && ValidUtf8(s[3..]))
    || (|s| >= 4 && 0xF0 <= s[0] < 0xF5 && Continuation(s[1]) && Continuation(s[2]) && Continuation(s[3])
        && (s[0] == 0xF0 ==> s[1] >= 0x90) && (s[0] == 0xF4 ==> s[1] < 0x90)
        && ValidUtf8(s[4..]))
  }

  predicate ValidKey(key: Text) {
    && key != []
    && ValidUtf8(key)
    && |key| <= MAX_KEY_BYTES
    && !HasSuffixByte(key, SLASH)
    && |Split(key, SLASH)| <= MAX_KEY_SEGMENTS
    && forall i :: 0 <= i < |Split(key, SLASH)| ==> Split(key, SLASH)[i] != []
  }

  // ---------------------------------------------------------------- what a key is

  /** The characters there are (section 3 of RFC 3629). */
  predicate Scalar(r: nat) { r < 0x11_0000 && !(0xD800 <= r < 0xE000) }

  /** A character's bytes. */
  function Encoded(r: nat): Text
    requires Scalar(r)
  {
    if r < 0x80 then [r as byte]
    else if r < 0x800 then [(0xC0 + r / 64) as byte, (0x80 + r % 64) as byte]
    else if r < 0x1_0000 then [(0xE0 + r / 4096) as byte, (0x80 + r / 64 % 64) as byte, (0x80 + r % 64) as byte]
    else [(0xF0 + r / 26_2144) as byte, (0x80 + r / 4096 % 64) as byte, (0x80 + r / 64 % 64) as byte, (0x80 + r % 64) as byte]
  }

  function AllEncoded(rs: seq<nat>): Text
    requires forall i :: 0 <= i < |rs| ==> Scalar(rs[i])
  {
    if rs == [] then [] else Encoded(rs[0]) + AllEncoded(rs[1..])
  }

  lemma EncodedIsValid(r: nat, rest: Text)
    requires Scalar(r) && ValidUtf8(rest)
    ensures ValidUtf8(Encoded(r) + rest)
  {
    var s := Encoded(r) + rest;
    assert s[|Encoded(r)|..] == rest;
  }

  lemma {:induction false} AllEncodedIsValid(rs: seq<nat>)
    requires forall i :: 0 <= i < |rs| ==> Scalar(rs[i])
    ensures ValidUtf8(AllEncoded(rs))
  {
    if rs != [] {
      AllEncodedIsValid(rs[1..]);
      EncodedIsValid(rs[0], AllEncoded(rs[1..]));
    }
  }

  lemma OneByte(a: byte) returns (r: nat)
    requires a < 0x80
    ensures Scalar(r) && Encoded(r) == [a]
  {
    r := a as nat;
  }

  lemma TwoBytes(a: byte, b: byte) returns (r: nat)
    requires 0xC2 <= a < 0xE0 && Continuation(b)
    ensures Scalar(r) && Encoded(r) == [a, b]
  {
    r := (a as nat - 0xC0) * 64 + (b as nat - 0x80);
    assert r / 64 == a as nat - 0xC0 && r % 64 == b as nat - 0x80;
  }

  lemma ThreeBytes(a: byte, b: byte, c: byte) returns (r: nat)
    requires 0xE0 <= a < 0xF0 && Continuation(b) && Continuation(c)
    requires (a == 0xE0 ==> b >= 0xA0) && (a == 0xED ==> b < 0xA0)
    ensures Scalar(r) && Encoded(r) == [a, b, c]
  {
    var x, y, z := a as nat - 0xE0, b as nat - 0x80, c as nat - 0x80;
    r := x * 4096 + y * 64 + z;
    assert r / 64 == x * 64 + y && r % 64 == z;
    assert r / 4096 == x && r / 64 % 64 == y;
  }

  lemma FourBytes(a: byte, b: byte, c: byte, d: byte) returns (r: nat)
    requires 0xF0 <= a < 0xF5 && Continuation(b) && Continuation(c) && Continuation(d)
    requires (a == 0xF0 ==> b >= 0x90) && (a == 0xF4 ==> b < 0x90)
    ensures Scalar(r) && Encoded(r) == [a, b, c, d]
  {
    var w, x, y, z := a as nat - 0xF0, b as nat - 0x80, c as nat - 0x80, d as nat - 0x80;
    r := w * 26_2144 + x * 4096 + y * 64 + z;
    assert r / 64 == w * 4096 + x * 64 + y && r % 64 == z;
    assert r / 4096 == w * 64 + x && r / 64 % 64 == y;
    assert r / 26_2144 == w && r / 4096 % 64 == x;
  }

  /** The first character of a valid text. */
  lemma FirstCharacter(s: Text) returns (r: nat, rest: Text)
    requires s != [] && ValidUtf8(s)
    ensures Scalar(r) && s == Encoded(r) + rest && ValidUtf8(rest) && |rest| < |s|
  {
    hide Encoded, Scalar;
    if s[0] < 0x80 {
      r := OneByte(s[0]);
      rest := s[1..];
      assert s == [s[0]] + rest;
    } else if s[0] < 0xE0 {
      r := TwoBytes(s[0], s[1]);
      rest := s[2..];
      assert s == [s[0], s[1]] + rest;
    } else if s[0] < 0xF0 {
      r := ThreeBytes(s[0], s[1], s[2]);
      rest := s[3..];
      assert s == [s[0], s[1], s[2]] + rest;
    } else {
      r := FourBytes(s[0], s[1], s[2], s[3]);
      rest := s[4..];
      assert s == [s[0], s[1], s[2], s[3]] + rest;
    }
  }

  /** A text is valid UTF-8 exactly when it is some characters, each written in its own
      bytes. */
  lemma {:induction false} Utf8Iff(s: Text)
    ensures ValidUtf8(s)
      <==> exists rs: seq<nat> :: (forall i :: 0 <= i < |rs| ==> Scalar(rs[i])) && AllEncoded(rs) == s
  {
    if ValidUtf8(s) {
      var rs := Characters(s);
    }
    forall rs: seq<nat> | (forall i :: 0 <= i < |rs| ==> Scalar(rs[i])) && AllEncoded(rs) == s
      ensures ValidUtf8(s)
    {
      AllEncodedIsValid(rs);
    }
  }

  lemma {:induction false} Characters(s: Text) returns (rs: seq<nat>)
    requires ValidUtf8(s)
    ensures (forall i :: 0 <= i < |rs| ==> Scalar(rs[i])) && AllEncoded(rs) == s
    decreases |s|
  {
    hide ValidUtf8, Encoded;
    if s == [] {
      rs := [];
    } else {
      var r, rest := FirstCharacter(s);
      var tail := Characters(rest);
      rs := [r] + tail;
      assert rs[1..] == tail;
    }
  }

  /** A logical key is one to thirty names with a separator between each two, valid text
      of at most 1024 bytes: no name is empty, and none has a separator. */
  lemma KeyIsNames(key: Text)
    ensures ValidKey(key) <==>
      && ValidUtf8(key) && |key| <= 1024
      && exists names: seq<Text> ::
           && 1 <= |names| <= 30 && key == Join(names, SLASH)
           && forall i :: 0 <= i < |names| ==> names[i] != [] && SLASH !in names[i]
  {
    hide ValidUtf8, Split, Join;
    JoinSplit(key, SLASH);
    forall names: seq<Text> | 1 <= |names| <= 30 && key == Join(names, SLASH)
                              && forall i :: 0 <= i < |names| ==> names[i] != [] && SLASH !in names[i]
      ensures Split(key, SLASH) == names && key != [] && !HasSuffixByte(key, SLASH)
    {
      SplitJoin(names, SLASH);
      JoinEnds(names, SLASH);
    }
    if ValidKey(key) {
      var names := Split(key, SLASH);
      assert forall i :: 0 <= i < |names| ==> names[i] != [] && SLASH !in names[i];
    }
  }

  /** Joined names end as the last of them does. */
  lemma {:induction false} JoinEnds(names: seq<Text>, sep: byte)
    requires names != [] && forall i :: 0 <= i < |names| ==> names[i] != [] && sep !in names[i]
    ensures Join(names, sep) != [] && !HasSuffixByte(Join(names, sep), sep)
  {
    if |names| == 1 {
      assert names[0][|names[0]| - 1] in names[0];
    } else {
      JoinEnds(names[1..], sep);
    }
  }
}
