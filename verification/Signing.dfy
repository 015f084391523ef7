/**
 Request signing (internal/r2/sigv4.go). The hash functions are parameters: nothing below depends
 on what HMAC-SHA256, SHA-256 or hex encoding compute.
 */
module Signing {
  import opened Text
  import opened UriPath

  const ALGORITHM := "AWS4-HMAC-SHA256"
  const SIGNED_HEADERS := "host;x-amz-content-sha256;x-amz-date"

  // ---- canonical requests ----

  /** The header part of the canonical request. */
  function HeaderLines(host: string, hash: string, amzDate: string): string {
    "host:" + Line(host, "x-amz-content-sha256:" + Line(hash, "x-amz-date:" + Line(amzDate,
      Line("", Line(SIGNED_HEADERS, hash)))))
  }

  function CanonicalRequest(verb: string, path: seq<Byte>, query: string, host: string,
                            hash: string, amzDate: string): string
  {
    Line(verb, Line(CanonicalUri(path), Line(query, HeaderLines(host, hash, amzDate))))
  }

  /** Fields a header or request line can carry: no line feed. */
  predicate Fields(verb: string, query: string, host: string, hash: string, amzDate: string) {
    NoBreak(verb) && NoBreak(query) && NoBreak(host) && NoBreak(hash) && NoBreak(amzDate)
  }

  lemma HeadersInjective(host1: string, hash1: string, date1: string, host2: string, hash2: string, date2: string)
    requires NoBreak(host1) && NoBreak(hash1) && NoBreak(date1)
    requires NoBreak(host2) && NoBreak(hash2) && NoBreak(date2)
    requires HeaderLines(host1, hash1, date1) == HeaderLines(host2, hash2, date2)
    ensures host1 == host2 && hash1 == hash2 && date1 == date2
  {
    var t1, t2 := Line("", Line(SIGNED_HEADERS, hash1)), Line("", Line(SIGNED_HEADERS, hash2));
    var d1, d2 := "x-amz-date:" + Line(date1, t1), "x-amz-date:" + Line(date2, t2);
    var c1, c2 := "x-amz-content-sha256:" + Line(hash1, d1), "x-amz-content-sha256:" + Line(hash2, d2);
    LabelledInjective("host:", host1, c1, host2, c2);
    LabelledInjective("x-amz-content-sha256:", hash1, d1, hash2, d2);
    LabelledInjective("x-amz-date:", date1, t1, date2, t2);
  }

  /**
   A canonical request determines its fields, whatever the bytes of the path; only the empty path and
   "/" are not told apart.
   */
  lemma CanonicalRequestIff(
    verb1: string, path1: seq<Byte>, query1: string, host1: string, hash1: string, date1: string,
    verb2: string, path2: seq<Byte>, query2: string, host2: string, hash2: string, date2: string)
    requires Fields(verb1, query1, host1, hash1, date1) && Fields(verb2, query2, host2, hash2, date2)
    ensures (CanonicalRequest(verb1, path1, query1, host1, hash1, date1)
             == CanonicalRequest(verb2, path2, query2, host2, hash2, date2))
      <==> (&& verb1 == verb2 && query1 == query2 && host1 == host2 && hash1 == hash2 && date1 == date2
            && (path1 == path2 || (path1 in {[], "/"} && path2 in {[], "/"})))
  {
    CanonicalUriInjective(path1, path2);
    if CanonicalRequest(verb1, path1, query1, host1, hash1, date1)
    == CanonicalRequest(verb2, path2, query2, host2, hash2, date2) {
      CanonicalUriNoBreak(path1);
      CanonicalUriNoBreak(path2);
      var h1, h2 := HeaderLines(host1, hash1, date1), HeaderLines(host2, hash2, date2);
      LineInjective(verb1, Line(CanonicalUri(path1), Line(query1, h1)),
                    verb2, Line(CanonicalUri(path2), Line(query2, h2)));
      LineInjective(CanonicalUri(path1), Line(query1, h1), CanonicalUri(path2), Line(query2, h2));
      LineInjective(query1, h1, query2, h2);
      HeadersInjective(host1, hash1, date1, host2, hash2, date2);
    }
  }

  // ---- keys and signatures ----

  type Bytes = seq<Byte>

  /** The primitives: HMAC-SHA256 of key and data, SHA-256 and hex encoding. */
  datatype Crypto = Crypto(hmac: (Bytes, string) -> Bytes, sha256: string -> Bytes, hex: Bytes -> string)

  datatype Identity = Identity(accessKey: string, secretKey: Bytes, region: string)

  /** The signing key of a day, derived from scratch. */
  function DeriveKey(c: Crypto, id: Identity, dateStamp: string): Bytes {
    var kDate := (c.hmac)(['A', 'W', 'S', '4'] + id.secretKey, dateStamp);
    (c.hmac)((c.hmac)((c.hmac)(kDate, id.region), "s3"), "aws4_request")
  }

  function Scope(id: Identity, dateStamp: string): string {
    dateStamp + ("/" + (id.region + "/s3/aws4_request"))
  }

  datatype Request = Request(verb: string, host: string, urlHost: string, path: seq<Byte>, query: string) {
    /** req.Host, or the URL's host when that is empty. */
    function SignedHost(): string {
      if host == "" then urlHost else host
    }
  }

  /** The three headers Sign sets. */
  datatype Signed = Signed(amzDate: string, contentSha256: string, authorization: string)

  function Canonical(r: Request, hash: string, amzDate: string): string {
    CanonicalRequest(r.verb, r.path, r.query, r.SignedHost(), hash, amzDate)
  }

  function StringToSign(c: Crypto, id: Identity, r: Request, hash: string, amzDate: string): string
    requires |amzDate| >= 8
  {
    Line(ALGORITHM, Line(amzDate, Line(Scope(id, amzDate[..8]), (c.hex)((c.sha256)(Canonical(r, hash, amzDate))))))
  }

  function Authorization(id: Identity, dateStamp: string, signature: string): string {
    ALGORITHM + (" Credential=" + (id.accessKey + ("/" + (Scope(id, dateStamp)
      + (", SignedHeaders=" + (SIGNED_HEADERS + (", Signature=" + signature)))))))
  }

  /** What Sign sets, given the key it obtained. */
  function SignWith(c: Crypto, id: Identity, r: Request, hash: string, amzDate: string, key: Bytes): Signed
    requires |amzDate| >= 8
  {
    Signed(amzDate, hash,
           Authorization(id, amzDate[..8], (c.hex)((c.hmac)(key, StringToSign(c, id, r, hash, amzDate)))))
  }

  /** The signature of a request with a key derived for it alone: no cache. */
  function ReferenceSign(c: Crypto, id: Identity, r: Request, hash: string, amzDate: string): Signed
    requires |amzDate| >= 8
  {
    SignWith(c, id, r, hash, amzDate, DeriveKey(c, id, amzDate[..8]))
  }

  class Signer {
    const c: Crypto
    const id: Identity
    var cachedDate: string
    var cachedKey: Bytes

    /** A filled cache holds the key of its date. */
    ghost predicate Valid()
      reads this
    {
      cachedDate == "" || cachedKey == DeriveKey(c, id, cachedDate)
    }

    constructor (c: Crypto, id: Identity)
      ensures Valid() && this.c == c && this.id == id
    {
      this.c, this.id := c, id;
      cachedDate, cachedKey := "", [];
    }

    method SigningKey(dateStamp: string) returns (key: Bytes)
      requires Valid() && dateStamp != ""
      modifies this`cachedDate, this`cachedKey
      ensures Valid() && key == DeriveKey(c, id, dateStamp)
    {
      if cachedDate == dateStamp {
        return cachedKey;
      }
      var kDate := (c.hmac)(['A', 'W', 'S', '4'] + id.secretKey, dateStamp);
      var kRegion := (c.hmac)(kDate, id.region);
      var kService := (c.hmac)(kRegion, "s3");
      cachedKey := (c.hmac)(kService, "aws4_request");
      cachedDate := dateStamp;
      return cachedKey;
    }

    /** Whatever was signed before, the headers are those of the uncached reference. */
    method Sign(r: Request, hash: string, amzDate: string) returns (s: Signed)
      requires Valid() && |amzDate| >= 8
      modifies this`cachedDate, this`cachedKey
      ensures Valid() && s == ReferenceSign(c, id, r, hash, amzDate)
    {
      var dateStamp := amzDate[..8];
      var host := r.host;
      if host == "" {
        host := r.urlHost;
      }
      var uri := UriEncodePath(r.path);
      var cr := BuildCanonical(r.verb, r.path, uri, r.query, host, hash, amzDate);
      var crHash := (c.sha256)(cr);
      var scope := dateStamp + ("/" + (id.region + "/s3/aws4_request"));
      var sts := BuildStringToSign(amzDate, scope, (c.hex)(crHash));
      var key := SigningKey(dateStamp);
      var signature := (c.hex)((c.hmac)(key, sts));
      var auth := BuildAuthorization(id, dateStamp, scope, signature);
      s := Signed(amzDate, hash, auth);
    }
  }

  /** One write to a string builder; `rest` is what is still to be written. */
  method Write(cr: string, piece: string, ghost rest: string) returns (out: string)
    ensures out == cr + piece && out + rest == cr + (piece + rest)
  {
    out := cr + piece;
  }

  method WriteLine(cr: string, piece: string, ghost rest: string) returns (out: string)
    ensures out + rest == cr + Line(piece, rest)
  {
    out := Write(cr, piece, "\n" + rest);
    out := Write(out, "\n", rest);
  }

  method BuildStringToSign(amzDate: string, scope: string, hashed: string) returns (sts: string)
    ensures sts == Line(ALGORITHM, Line(amzDate, Line(scope, hashed)))
  {
    sts := WriteLine("", ALGORITHM, Line(amzDate, Line(scope, hashed)));
    sts := WriteLine(sts, amzDate, Line(scope, hashed));
    sts := WriteLine(sts, scope, hashed);
    sts := sts + hashed;
  }

  method BuildAuthorization(id: Identity, ghost dateStamp: string, scope: string, signature: string)
    returns (auth: string)
    requires scope == Scope(id, dateStamp)
    ensures auth == Authorization(id, dateStamp, signature)
  {
    ghost var sig := ", Signature=" + signature;
    ghost var headers := ", SignedHeaders=" + (SIGNED_HEADERS + sig);
    auth := Write(ALGORITHM, " Credential=", id.accessKey + ("/" + (scope + headers)));
    auth := Write(auth, id.accessKey, "/" + (scope + headers));
    auth := Write(auth, "/", scope + headers);
    auth := Write(auth, scope, headers);
    auth := Write(auth, ", SignedHeaders=", SIGNED_HEADERS + sig);
    auth := Write(auth, SIGNED_HEADERS, sig);
    auth := Write(auth, ", Signature=", signature);
    auth := auth + signature;
  }

  method WriteHeaders(start: string, host: string, hash: string, amzDate: string) returns (cr: string)
    ensures cr == start + HeaderLines(host, hash, amzDate)
  {
    ghost var tail := Line("", Line(SIGNED_HEADERS, hash));
    ghost var date := "x-amz-date:" + Line(amzDate, tail);
    ghost var content := "x-amz-content-sha256:" + Line(hash, date);
    cr := Write(start, "host:", Line(host, content));
    cr := WriteLine(cr, host, content);
    cr := Write(cr, "x-amz-content-sha256:", Line(hash, date));
    cr := WriteLine(cr, hash, date);
    cr := Write(cr, "x-amz-date:", Line(amzDate, tail));
    cr := WriteLine(cr, amzDate, tail);
    cr := WriteLine(cr, "", Line(SIGNED_HEADERS, hash));
    cr := WriteLine(cr, SIGNED_HEADERS, hash);
    cr := cr + hash;
  }

  /** The string builder of Sign, piece by piece. */
  method BuildCanonical(verb: string, ghost path: seq<Byte>, uri: string, query: string, host: string,
                        hash: string, amzDate: string) returns (cr: string)
    requires uri == CanonicalUri(path)
    ensures cr == CanonicalRequest(verb, path, query, host, hash, amzDate)
  {
    ghost var headers := HeaderLines(host, hash, amzDate);
    cr := WriteLine("", verb, Line(uri, Line(query, headers)));
    cr := WriteLine(cr, uri, Line(query, headers));
    cr := WriteLine(cr, query, headers);
    cr := WriteHeaders(cr, host, hash, amzDate);
  }
}
