/** Percent-encoding of request paths (uriEncodePath in internal/r2/sigv4.go). A Go string is its bytes. */
module UriPath {
  import opened Text

  type Byte = c: char | c as int < 256 witness 'a'

  /** Unreserved characters of section 2.3 of RFC 3986, and the slash. */
  predicate IsUnreservedOrSlash(c: char) {
    'A' <= c <= 'Z' || 'a' <= c <= 'z' || '0' <= c <= '9'
    || c == '-' || c == '_' || c == '.' || c == '~' || c == '/'
  }

  const UPPER_HEX := "0123456789ABCDEF"

  predicate IsUpperHex(c: char) {
    '0' <= c <= '9' || 'A' <= c <= 'F'
  }

  function HexValue(c: char): (d: nat)
    requires IsUpperHex(c)
    ensures d < 16
  {
    if c <= '9' then (c - '0') as nat else (c - 'A') as nat + 10
  }

  lemma HexDigit(d: nat)
    requires d < 16
    ensures IsUpperHex(UPPER_HEX[d]) && HexValue(UPPER_HEX[d]) == d
  {
  }

  function EncodeByte(c: Byte): string {
    if IsUnreservedOrSlash(c) then [c]
    else ['%', UPPER_HEX[c as int / 16], UPPER_HEX[c as int % 16]]
  }

  /** The bytes sent bare are letters, digits, '-', '.', '/', '_' and '~', by their codes. */
  lemma BareIff(c: Byte)
    ensures var n := c as int;
      EncodeByte(c) == [c] <==> 65 <= n <= 90 || 97 <= n <= 122 || 48 <= n <= 57 || n in {45, 46, 47, 95, 126}
  {
    assert EncodeByte(c) == [c] <==> IsUnreservedOrSlash(c);
  }

  function EncodeAll(path: seq<Byte>): string {
    if path == [] then [] else EncodeByte(path[0]) + EncodeAll(path[1..])
  }

  /** The canonical URI of a path; an empty path is the root. */
  function CanonicalUri(path: seq<Byte>): string {
    if path == [] then "/" else EncodeAll(path)
  }

  /** Text made of unreserved characters, slashes and upper-case percent triplets (section 2.1 of RFC 3986). */
  predicate WellEncoded(s: string) {
    s == [] ||
    (if s[0] == '%' then |s| >= 3 && IsUpperHex(s[1]) && IsUpperHex(s[2]) && WellEncoded(s[3..])
     else IsUnreservedOrSlash(s[0]) && WellEncoded(s[1..]))
  }

  /** Percent-decoding of well-encoded text. */
  function Decode(s: string): seq<Byte>
    requires WellEncoded(s)
  {
    if s == [] then []
    else if s[0] == '%' then [(16 * HexValue(s[1]) + HexValue(s[2])) as char] + Decode(s[3..])
    else [s[0]] + Decode(s[1..])
  }

  lemma EncodeByteDecodes(c: Byte, rest: string)
    requires WellEncoded(rest)
    ensures WellEncoded(EncodeByte(c) + rest) && Decode(EncodeByte(c) + rest) == [c] + Decode(rest)
  {
    var s := EncodeByte(c) + rest;
    if IsUnreservedOrSlash(c) {
      assert s[1..] == rest;
    } else {
      HexDigit(c as int / 16);
      HexDigit(c as int % 16);
      assert s[3..] == rest;
    }
  }

  /** The encoding is well formed and percent-decoding inverts it, for every path. */
  lemma {:induction false} EncodeDecodes(path: seq<Byte>)
    ensures WellEncoded(EncodeAll(path)) && Decode(EncodeAll(path)) == path
  {
    if path != [] {
      EncodeDecodes(path[1..]);
      EncodeByteDecodes(path[0], EncodeAll(path[1..]));
    }
  }

  /** Two paths share a canonical URI exactly when they are equal or are the two spellings of the root. */
  lemma CanonicalUriInjective(p: seq<Byte>, q: seq<Byte>)
    ensures CanonicalUri(p) == CanonicalUri(q) <==> p == q || (p in {[], "/"} && q in {[], "/"})
  {
    EncodeDecodes(p);
    EncodeDecodes(q);
  }

  lemma {:induction false} EncodedNoBreak(s: string)
    requires WellEncoded(s)
    ensures NoBreak(s)
  {
    if s != [] {
      if s[0] == '%' {
        EncodedNoBreak(s[3..]);
        assert forall i | 3 <= i < |s| :: s[i] == s[3..][i - 3];
      } else {
        EncodedNoBreak(s[1..]);
        assert forall i | 1 <= i < |s| :: s[i] == s[1..][i - 1];
      }
    }
  }

  lemma CanonicalUriNoBreak(path: seq<Byte>)
    ensures NoBreak(CanonicalUri(path))
  {
    EncodeDecodes(path);
    EncodedNoBreak(EncodeAll(path));
  }

  /** The fast path: safe text encodes to itself. */
  lemma {:induction false} SafeEncodesToItself(path: seq<Byte>)
    requires forall i | 0 <= i < |path| :: IsUnreservedOrSlash(path[i])
    ensures EncodeAll(path) == path
  {
    if path != [] {
      SafeEncodesToItself(path[1..]);
    }
  }

  lemma {:induction false} EncodeAllSnoc(path: seq<Byte>, c: Byte)
    ensures EncodeAll(path + [c]) == EncodeAll(path) + EncodeByte(c)
  {
    if path == [] {
      assert EncodeAll([c]) == EncodeByte(c) + EncodeAll([]);
    } else {
      EncodeAllSnoc(path[1..], c);
      assert (path + [c])[1..] == path[1..] + [c];
      assert EncodeAll(path + [c]) == EncodeByte(path[0]) + EncodeAll(path[1..] + [c]);
    }
  }

  /** The scan of the fast path. */
  method NeedsEncoding(path: seq<Byte>) returns (needs: bool)
    ensures !needs <==> forall k | 0 <= k < |path| :: IsUnreservedOrSlash(path[k])
  {
    needs := false;
    var i := 0;
    while i < |path|
      invariant 0 <= i <= |path|
      invariant !needs && forall k | 0 <= k < i :: IsUnreservedOrSlash(path[k])
    {
      if !IsUnreservedOrSlash(path[i]) {
        needs := true;
        break;
      }
      i := i + 1;
    }
  }

  /** The slow path, byte by byte. */
  method EncodeBytes(path: seq<Byte>) returns (b: string)
    ensures b == EncodeAll(path)
  {
    b := "";
    var i := 0;
    assert path[..0] == [];
    while i < |path|
      invariant 0 <= i <= |path| && b == EncodeAll(path[..i])
    {
      var ch := path[i];
      EncodeAllSnoc(path[..i], ch);
      assert path[..i + 1] == path[..i] + [ch];
      if IsUnreservedOrSlash(ch) {
        b := b + [ch];
      } else {
        b := b + ['%'];
        b := b + [UPPER_HEX[ch as int / 16]];
        b := b + [UPPER_HEX[ch as int % 16]];
      }
      i := i + 1;
    }
    assert path[..i] == path;
  }

  /** Both ways through the code give the canonical URI. */
  method UriEncodePath(path: seq<Byte>) returns (encoded: string)
    ensures encoded == CanonicalUri(path)
  {
    if path == [] {
      return "/";
    }
    var needsEncoding := NeedsEncoding(path);
    if !needsEncoding {
      SafeEncodesToItself(path);
      return path;
    }
    encoded := EncodeBytes(path);
  }
}
