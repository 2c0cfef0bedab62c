/** The opaque path an object is stored under: one token per segment, each over
    the whole logical path up to it. */
module Tokens {
  import opened Basics
  import opened Paths
  import opened ScopeNames
  import opened Crypto

  function TokenList(s: Suite, nameKey: Bytes, segments: seq<Text>): (tokens: seq<Text>)
    ensures |tokens| == |segments|
  {
    seq(|segments|, i requires 0 <= i < |segments| => Token(s, nameKey, Join(segments[..i + 1], SLASH)))
  }

  function TokenPath(s: Suite, nameKey: Bytes, key: Text): Text {
    Join(TokenList(s, nameKey, Split(key, SLASH)), SLASH)
  }

  /** Where the last separator stands. */
  function LastSlash(t: Text): (r: Option<nat>)
    ensures match r
            case None => SLASH !in t
            case Some(cut) => cut < |t| && t[cut] == SLASH && SLASH !in t[cut + 1..]
  {
    if t == [] then None
    else if t[|t| - 1] == SLASH then Some(|t| - 1)
    else
      match LastSlash(t[..|t| - 1])
      case None => None
      case Some(cut) =>
        assert t[cut + 1..] == t[..|t| - 1][cut + 1..] + [t[|t| - 1]];
        Some(cut)
  }

  /** What a listing of a logical prefix asks the bucket for: the tokens of its
      complete segments, or everything when it has none. */
  function TokenPrefix(s: Suite, nameKey: Bytes, prefix: Text): Text {
    match LastSlash(prefix)
    case None => []
    case Some(cut) => if cut == 0 then [] else TokenPath(s, nameKey, prefix[..cut]) + [SLASH]
  }

  // ---------------------------------------------------------------- the loop

  lemma {:induction false} JoinAppend(parts: seq<Text>, last: Text, sep: byte)
    ensures Join(parts + [last], sep) == if parts == [] then last else Join(parts, sep) + [sep] + last
  {
    if |parts| > 1 {
      assert (parts + [last])[1..] == parts[1..] + [last];
      JoinAppend(parts[1..], last, sep);
      var rest := Join(parts[1..], sep);
      hide Join;
      assert parts[0] + [sep] + (rest + [sep] + last) == parts[0] + [sep] + rest + [sep] + last;
    } else if |parts| == 1 {
      assert (parts + [last])[1..] == [last];
    }
  }

  lemma {:induction false} JoinTakes(parts: seq<Text>, n: nat, sep: byte)
    requires 0 < n <= |parts|
    ensures Join(parts[..n], sep) <= Join(parts, sep)
    ensures n < |parts| ==> Join(parts[..n], sep) + [sep] <= Join(parts, sep)
    decreases |parts|
  {
    if n < |parts| {
      var init := parts[..|parts| - 1];
      assert parts == init + [parts[|parts| - 1]] && init[..n] == parts[..n];
      JoinAppend(init, parts[|parts| - 1], sep);
      JoinTakes(init, n, sep);
    } else {
      assert parts[..n] == parts;
    }
  }

  /** A path up to a segment is the path before it, a separator unless it is the
      first, and the segment. */
  lemma NextSegment(segments: seq<Text>, i: nat)
    requires i < |segments|
    ensures
      var end := |Join(segments[..i], SLASH)| + (if i > 0 then 1 else 0) + |segments[i]|;
      end <= |Join(segments, SLASH)| && Join(segments, SLASH)[..end] == Join(segments[..i + 1], SLASH)
      && |Join(segments[..i + 1], SLASH)| == end
  {
    assert segments[..i + 1] == segments[..i] + [segments[i]];
    JoinAppend(segments[..i], segments[i], SLASH);
    JoinTakes(segments, i + 1, SLASH);
  }

  /** One pass over the segments, never rebuilding the path. */
  method ComputeTokenPath(s: Suite, nameKey: Bytes, key: Text) returns (path: Text)
    ensures path == TokenPath(s, nameKey, key)
  {
    hide Split;
    var tokenKey := s.derive(nameKey, TokenInfo());
    var segments := Split(key, SLASH);
    JoinSplit(key, SLASH);
    var tokens: seq<Text> := [];
    var end := 0;
    assert segments[..0] == [];
    hide Join;
    for i := 0 to |segments|
      invariant |tokens| == i
      invariant end == |Join(segments[..i], SLASH)|
      invariant forall j :: 0 <= j < i ==> tokens[j] == Token(s, nameKey, Join(segments[..j + 1], SLASH))
    {
      NextSegment(segments, i);
      if i > 0 { end := end + 1; }
      end := end + |segments[i]|;
      tokens := tokens + [s.token(tokenKey, key[..end])];
    }
    assert tokens == TokenList(s, nameKey, segments);
    path := Join(tokens, SLASH);
  }

  /** The stored path of a logical key: for each name, the token of the path down to it,
      under a key derived for nothing else. */
  lemma PathIsTokens(s: Suite, nameKey: Bytes, names: seq<Text>, tokens: seq<Text>)
    requires names != [] && AllFree(names, SLASH) && |tokens| == |names|
    requires forall i :: 0 <= i < |names| ==>
      tokens[i] == s.token(s.derive(nameKey, Ascii("farcast/datasphere/v1/name-token")), Join(names[..i + 1], SLASH))
    ensures TokenPath(s, nameKey, Join(names, SLASH)) == Join(tokens, SLASH)
  {
    hide Join, Split;
    SplitJoin(names, SLASH);
    assert TokenList(s, nameKey, names) == tokens;
  }

  /** No object's name is sealed under the key that makes tokens. */
  lemma InfosApart(path: Text)
    ensures TokenInfo() != NameInfo() + path
  {
    assert TokenInfo()[27] != NameInfo()[27];
  }

  // ---------------------------------------------------------------- what tokens reveal

  /** A joined list continues another exactly when the list does. */
  lemma {:induction false} JoinPrefix(a: seq<Text>, b: seq<Text>)
    requires a != [] && b != [] && AllFree(a, SLASH) && AllFree(b, SLASH)
    ensures Join(a, SLASH) + [SLASH] <= Join(b, SLASH) <==> |a| < |b| && a == b[..|a|]
  {
    if |a| < |b| && a == b[..|a|] {
      JoinTakes(b, |a|, SLASH);
    }
    if Join(a, SLASH) + [SLASH] <= Join(b, SLASH) {
      JoinPrefixParts(a, b);
    }
  }

  lemma {:induction false} JoinPrefixParts(a: seq<Text>, b: seq<Text>)
    requires a != [] && b != [] && AllFree(a, SLASH) && AllFree(b, SLASH)
    requires Join(a, SLASH) + [SLASH] <= Join(b, SLASH)
    ensures |a| < |b| && a == b[..|a|]
  {
    var tail := if |a| == 1 then [] else Join(a[1..], SLASH) + [SLASH];
    assert Join(a, SLASH) + [SLASH] == a[0] + [SLASH] + tail;
    var t := Join(b, SLASH);
    assert t[|a[0]|] == (a[0] + [SLASH] + tail)[|a[0]|] == SLASH;
    assert |b| != 1;
    assert t == b[0] + [SLASH] + Join(b[1..], SLASH);
    FirstSegment(a[0], tail, b[0], Join(b[1..], SLASH));
    if |a| > 1 {
      JoinPrefixParts(a[1..], b[1..]);
    }
    assert a == [a[0]] + a[1..] && b[..|a|] == [b[0]] + b[1..][..|a| - 1];
  }

  lemma TokensFree(s: Suite, nameKey: Bytes, segments: seq<Text>)
    requires TokensAreNames(s)
    ensures AllFree(TokenList(s, nameKey, segments), SLASH)
  {
  }

  lemma TokenAt(s: Suite, nameKey: Bytes, segments: seq<Text>, n: nat)
    requires 0 < n <= |segments|
    ensures TokenList(s, nameKey, segments)[n - 1] == Token(s, nameKey, Join(segments[..n], SLASH))
  {
    hide Join, Token;
  }

  /** The last token is of the whole path. */
  lemma LastToken(s: Suite, nameKey: Bytes, segments: seq<Text>)
    requires segments != []
    ensures TokenList(s, nameKey, segments)[|segments| - 1] == Token(s, nameKey, Join(segments, SLASH))
  {
    hide Join, Token, TokenList;
    assert segments[..|segments|] == segments;
    TokenAt(s, nameKey, segments, |segments|);
  }

  lemma TokenInjective(s: Suite, a: Bytes, p: Bytes, b: Bytes, q: Bytes)
    requires TokensAreNames(s) && |a| == |b| == KEY_BYTES && Token(s, a, p) == Token(s, b, q)
    ensures a == b && p == q
  {
  }

  /** Different logical keys, or different name keys, never meet at one path. */
  lemma PathsAreInjective(s: Suite, a: Bytes, key: Text, b: Bytes, key': Text)
    requires TokensAreNames(s) && |a| == |b| == KEY_BYTES
    requires TokenPath(s, a, key) == TokenPath(s, b, key')
    ensures a == b && key == key'
  {
    hide Token, TokensAreNames, Join, Split, TokenList, AllFree;
    var x, y := Split(key, SLASH), Split(key', SLASH);
    TokensFree(s, a, x);
    TokensFree(s, b, y);
    SplitJoin(TokenList(s, a, x), SLASH);
    SplitJoin(TokenList(s, b, y), SLASH);
    JoinSplit(key, SLASH);
    JoinSplit(key', SLASH);
    LastToken(s, a, x);
    LastToken(s, b, y);
    TokenInjective(s, a, key, b, key');
  }

  /** The part of a prefix a listing can be narrowed by. */
  function Aligned(prefix: Text): Text {
    match LastSlash(prefix)
    case None => []
    case Some(cut) => prefix[..cut]
  }

  /** Segment by segment, a path begins with an aligned prefix exactly when its
      segments do. */
  lemma SegmentsPrefix(aligned: Text, key: Text)
    ensures aligned + [SLASH] <= key
      <==> |Split(aligned, SLASH)| < |Split(key, SLASH)| && Split(aligned, SLASH) == Split(key, SLASH)[..|Split(aligned, SLASH)|]
  {
    JoinSplit(aligned, SLASH);
    JoinSplit(key, SLASH);
    JoinPrefix(Split(aligned, SLASH), Split(key, SLASH));
  }

  /** A narrowed listing covers exactly this key space's keys under the aligned
      part of the prefix. */
  lemma NarrowingIsExact(s: Suite, a: Bytes, prefix: Text, b: Bytes, key: Text)
    requires TokensAreNames(s) && |a| == |b| == KEY_BYTES && Aligned(prefix) != []
    ensures TokenPrefix(s, a, prefix) <= TokenPath(s, b, key) <==> a == b && Aligned(prefix) + [SLASH] <= key
  {
    var aligned := Aligned(prefix);
    var x, y := Split(aligned, SLASH), Split(key, SLASH);
    var tx, ty := TokenList(s, a, x), TokenList(s, b, y);
    TokensFree(s, a, x);
    TokensFree(s, b, y);
    JoinPrefix(tx, ty);
    SegmentsPrefix(aligned, key);
    JoinSplit(aligned, SLASH);
    JoinSplit(key, SLASH);
    hide TokenList, Join, Split, TokensAreNames, Aligned;
    if |x| < |y| && tx == ty[..|x|] { TokensShareSegments(s, a, x, b, y); }
    if a == b && |x| < |y| && x == y[..|x|] { SegmentsShareTokens(s, a, x, y); }
  }

  /** Tokens that begin other tokens are of segments under the same name key. */
  lemma TokensShareSegments(s: Suite, a: Bytes, x: seq<Text>, b: Bytes, y: seq<Text>)
    requires TokensAreNames(s) && |a| == |b| == KEY_BYTES && 0 < |x| < |y|
    requires TokenList(s, a, x) == TokenList(s, b, y)[..|x|]
    ensures a == b && Join(x, SLASH) + [SLASH] <= Join(y, SLASH)
  {
    hide TokensAreNames, Token, Join, TokenList;
    LastToken(s, a, x);
    TokenAt(s, b, y, |x|);
    TokenInjective(s, a, Join(x, SLASH), b, Join(y[..|x|], SLASH));
    JoinTakes(y, |x|, SLASH);
  }

  lemma SegmentsShareTokens(s: Suite, a: Bytes, x: seq<Text>, y: seq<Text>)
    requires |x| < |y| && x == y[..|x|]
    ensures TokenList(s, a, x) == TokenList(s, a, y)[..|x|]
  {
    hide Token, Join;
    forall i | 0 <= i < |x|
      ensures TokenList(s, a, x)[i] == TokenList(s, a, y)[i]
    {
      assert x[..i + 1] == y[..i + 1];
    }
  }

  /** No key with the prefix is missed by the listing. */
  lemma NothingIsMissed(s: Suite, nameKey: Bytes, prefix: Text, key: Text)
    requires TokensAreNames(s) && |nameKey| == KEY_BYTES && prefix <= key
    ensures TokenPrefix(s, nameKey, prefix) <= TokenPath(s, nameKey, key)
  {
    if Aligned(prefix) != [] {
      NarrowingIsExact(s, nameKey, prefix, nameKey, key);
      var cut := LastSlash(prefix).value;
      assert Aligned(prefix) + [SLASH] == prefix[..cut + 1];
    }
  }
}
