/** What a signature covers: the layout the protocol asks of the canonical request, and every field of a request. */
module Signatures {
  import opened Text
  import opened UriPath
  import opened Signing

  // ---- the canonical request, header by header ----

  /** a comes before b in the order of their characters. */
  predicate Precedes(a: string, b: string) {
    exists m :: 0 <= m <= |a| && m < |b| && a[..m] == b[..m] && (m < |a| ==> a[m] < b[m])
  }

  /** One line "name:value" a header, and what follows. */
  function HeaderBlock(headers: seq<(string, string)>, rest: string): string {
    if headers == [] then rest else (headers[0].0 + ":") + Line(headers[0].1, HeaderBlock(headers[1..], rest))
  }

  /** The names, separated by semicolons. */
  function NameList(headers: seq<(string, string)>): string {
    if headers == [] then "" else if |headers| == 1 then headers[0].0
    else headers[0].0 + (";" + NameList(headers[1..]))
  }

  lemma HeaderNames()
    ensures Precedes("host", "x-amz-content-sha256") && Precedes("x-amz-content-sha256", "x-amz-date")
    ensures "host" + (";" + ("x-amz-content-sha256" + (";" + "x-amz-date"))) == SIGNED_HEADERS
  {
    assert "host"[..0] == "x-amz-content-sha256"[..0];
    assert "x-amz-content-sha256"[..6] == "x-amz-date"[..6];
    var names := "host" + (";" + ("x-amz-content-sha256" + (";" + "x-amz-date")));
    assert |names| == |SIGNED_HEADERS|;
    forall i | 0 <= i < |names| ensures names[i] == SIGNED_HEADERS[i] {
    }
  }

  lemma Unrolled(a: (string, string), b: (string, string), c: (string, string), rest: string)
    ensures HeaderBlock([a, b, c], rest)
      == (a.0 + ":") + Line(a.1, (b.0 + ":") + Line(b.1, (c.0 + ":") + Line(c.1, rest)))
    ensures NameList([a, b, c]) == a.0 + (";" + (b.0 + (";" + c.0)))
  {
    assert [a, b, c][1..] == [b, c] && [b, c][1..] == [c] && [c][1..] == [];
    assert HeaderBlock([c], rest) == (c.0 + ":") + Line(c.1, rest);
    assert NameList([c]) == c.0 && NameList([b, c]) == b.0 + (";" + NameList([c]));
    assert HeaderBlock([b, c], rest) == (b.0 + ":") + Line(b.1, HeaderBlock([c], rest));
  }

  lemma Labels()
    ensures "host" + ":" == "host:" && "x-amz-date" + ":" == "x-amz-date:"
    ensures "x-amz-content-sha256" + ":" == "x-amz-content-sha256:"
  {
  }

  /** Method, URI, query, the headers by name in order, the list of their names, the payload hash. */
  lemma CanonicalLayout(verb: string, path: seq<Byte>, query: string, host: string, hash: string, amzDate: string)
    ensures Precedes("host", "x-amz-content-sha256") && Precedes("x-amz-content-sha256", "x-amz-date")
    ensures var headers := [("host", host), ("x-amz-content-sha256", hash), ("x-amz-date", amzDate)];
      CanonicalRequest(verb, path, query, host, hash, amzDate)
      == Line(verb, Line(CanonicalUri(path), Line(query,
           HeaderBlock(headers, Line("", Line(NameList(headers), hash))))))
  {
    var a, b, c := ("host", host), ("x-amz-content-sha256", hash), ("x-amz-date", amzDate);
    HeaderNames();
    Labels();
    Unrolled(a, b, c, Line("", Line(NameList([a, b, c]), hash)));
  }

  // ---- what equal signatures mean ----

  lemma FrontCancels(a: string, x: string, b: string, y: string)
    requires |a| == |b| && a + x == b + y
    ensures a == b && x == y
  {
    assert (a + x)[..|a|] == a && (b + y)[..|b|] == b;
    PrefixCancels(a, x, y);
  }

  lemma SameHeader(id: Identity, day1: string, sig1: string, day2: string, sig2: string)
    requires |day1| == |day2|
    requires Authorization(id, day1, sig1) == Authorization(id, day2, sig2)
    ensures day1 == day2 && sig1 == sig2
  {
    var s1, s2 := Scope(id, day1), Scope(id, day2);
    var z1, z2 := SIGNED_HEADERS + (", Signature=" + sig1), SIGNED_HEADERS + (", Signature=" + sig2);
    var y1, y2 := s1 + (", SignedHeaders=" + z1), s2 + (", SignedHeaders=" + z2);
    var x1, x2 := id.accessKey + ("/" + y1), id.accessKey + ("/" + y2);
    PrefixCancels(ALGORITHM, " Credential=" + x1, " Credential=" + x2);
    PrefixCancels(" Credential=", x1, x2);
    PrefixCancels(id.accessKey, "/" + y1, "/" + y2);
    PrefixCancels("/", y1, y2);
    FrontCancels(s1, ", SignedHeaders=" + z1, s2, ", SignedHeaders=" + z2);
    FrontCancels(day1, "/" + (id.region + "/s3/aws4_request"), day2, "/" + (id.region + "/s3/aws4_request"));
    PrefixCancels(", SignedHeaders=", z1, z2);
    PrefixCancels(SIGNED_HEADERS, ", Signature=" + sig1, ", Signature=" + sig2);
    PrefixCancels(", Signature=", sig1, sig2);
  }

  /** These texts share no digest and no signature under this key: in particular if the primitives are injective. */
  predicate NoCollision(c: Crypto, key: Bytes, canonical1: string, canonical2: string, sts1: string, sts2: string) {
    && ((c.hex)((c.sha256)(canonical1)) == (c.hex)((c.sha256)(canonical2)) ==> canonical1 == canonical2)
    && ((c.hex)((c.hmac)(key, sts1)) == (c.hex)((c.hmac)(key, sts2)) ==> sts1 == sts2)
  }

  lemma SameText(c: Crypto, id: Identity, r1: Request, hash1: string, date1: string,
                 r2: Request, hash2: string, date2: string)
    requires |date1| >= 8 && |date2| >= 8 && date1[..8] == date2[..8] && NoBreak(date1) && NoBreak(date2)
    requires StringToSign(c, id, r1, hash1, date1) == StringToSign(c, id, r2, hash2, date2)
    ensures (c.hex)((c.sha256)(Canonical(r1, hash1, date1))) == (c.hex)((c.sha256)(Canonical(r2, hash2, date2)))
  {
    var scope := Scope(id, date1[..8]);
    var digest1 := (c.hex)((c.sha256)(Canonical(r1, hash1, date1)));
    var digest2 := (c.hex)((c.sha256)(Canonical(r2, hash2, date2)));
    LineInjective(ALGORITHM, Line(date1, Line(scope, digest1)), ALGORITHM, Line(date2, Line(scope, digest2)));
    LineInjective(date1, Line(scope, digest1), date2, Line(scope, digest2));
    PrefixCancels(scope, "\n" + digest1, "\n" + digest2);
    PrefixCancels("\n", digest1, digest2);
  }

  /** The two requests agree in all that is signed. */
  predicate SameSigned(r1: Request, hash1: string, date1: string, r2: Request, hash2: string, date2: string) {
    && r1.verb == r2.verb && r1.query == r2.query && r1.SignedHost() == r2.SignedHost()
    && hash1 == hash2 && date1 == date2
    && (r1.path == r2.path || (r1.path in {[], "/"} && r2.path in {[], "/"}))
  }

  /**
   Under one identity two requests get the same Authorization header exactly when method, path, query, host,
   payload hash and time are the same, the two spellings of the root path apart.
   */
  lemma AuthorizationIff(c: Crypto, id: Identity, r1: Request, hash1: string, date1: string,
                         r2: Request, hash2: string, date2: string)
    requires |date1| >= 8 && |date2| >= 8
    requires Fields(r1.verb, r1.query, r1.SignedHost(), hash1, date1)
    requires Fields(r2.verb, r2.query, r2.SignedHost(), hash2, date2)
    requires NoCollision(c, DeriveKey(c, id, date1[..8]), Canonical(r1, hash1, date1), Canonical(r2, hash2, date2),
                         StringToSign(c, id, r1, hash1, date1), StringToSign(c, id, r2, hash2, date2))
    ensures ReferenceSign(c, id, r1, hash1, date1).authorization == ReferenceSign(c, id, r2, hash2, date2).authorization
      <==> SameSigned(r1, hash1, date1, r2, hash2, date2)
  {
    var s1, s2 := ReferenceSign(c, id, r1, hash1, date1), ReferenceSign(c, id, r2, hash2, date2);
    CanonicalRequestIff(r1.verb, r1.path, r1.query, r1.SignedHost(), hash1, date1,
                        r2.verb, r2.path, r2.query, r2.SignedHost(), hash2, date2);
    if s1.authorization == s2.authorization {
      var sts1, sts2 := StringToSign(c, id, r1, hash1, date1), StringToSign(c, id, r2, hash2, date2);
      SameHeader(id, date1[..8], (c.hex)((c.hmac)(DeriveKey(c, id, date1[..8]), sts1)),
                 date2[..8], (c.hex)((c.hmac)(DeriveKey(c, id, date2[..8]), sts2)));
      SameText(c, id, r1, hash1, date1, r2, hash2, date2);
    }
  }

  /** The two pairs of key and data do not share an HMAC. */
  predicate Apart(c: Crypto, key1: Bytes, data1: string, key2: Bytes, data2: string) {
    (c.hmac)(key1, data1) == (c.hmac)(key2, data2) ==> key1 == key2 && data1 == data2
  }

  /** Signing keys are the same exactly when day, region and secret are. */
  lemma KeyIff(c: Crypto, id1: Identity, day1: string, id2: Identity, day2: string)
    requires var k1, k2 := ['A', 'W', 'S', '4'] + id1.secretKey, ['A', 'W', 'S', '4'] + id2.secretKey;
      var d1, d2 := (c.hmac)(k1, day1), (c.hmac)(k2, day2);
      var r1, r2 := (c.hmac)(d1, id1.region), (c.hmac)(d2, id2.region);
      var s1, s2 := (c.hmac)(r1, "s3"), (c.hmac)(r2, "s3");
      && Apart(c, k1, day1, k2, day2) && Apart(c, d1, id1.region, d2, id2.region)
      && Apart(c, r1, "s3", r2, "s3") && Apart(c, s1, "aws4_request", s2, "aws4_request")
    ensures DeriveKey(c, id1, day1) == DeriveKey(c, id2, day2)
      <==> day1 == day2 && id1.region == id2.region && id1.secretKey == id2.secretKey
  {
    var prefix: Bytes := ['A', 'W', 'S', '4'];
    if DeriveKey(c, id1, day1) == DeriveKey(c, id2, day2) {
      assert (prefix + id1.secretKey)[4..] == id1.secretKey && (prefix + id2.secretKey)[4..] == id2.secretKey;
    }
  }
}
