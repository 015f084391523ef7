/** The paths of the harness's own objects: with unreserved prefixes they are sent as they are. */
module Paths {
  import opened Naming
  import opened UriPath

  predicate Bare(s: string) {
    forall i | 0 <= i < |s| :: IsUnreservedOrSlash(s[i])
  }

  lemma BareJoin(a: string, b: string)
    requires Bare(a) && Bare(b)
    ensures Bare(a + b)
  {
  }

  lemma BareDigits(n: nat, w: nat)
    ensures Bare(Padded(n, w))
  {
    var p := Padded(n, w);
    forall i | 0 <= i < |p| ensures IsUnreservedOrSlash(p[i]) {
      assert IsDigit(p[i]);
    }
  }

  function PathOf(bucket: string, key: string): string {
    "/" + (bucket + ("/" + key))
  }

  /** Bare text is its own canonical URI. */
  lemma SentBare(path: string)
    requires Bare(path) && path != ""
    ensures forall c | c in path :: c as int < 256
    ensures var bytes: seq<Byte> := path;
      CanonicalUri(bytes) == path
  {
    var bytes: seq<Byte> := path;
    SafeEncodesToItself(bytes);
  }

  /** Objects and sentinels of every layout with unreserved prefixes take the fast path unchanged. */
  lemma NamesSentBare(n: Layout, b: nat, k: nat, key: string)
    requires Bare(n.bucketPrefix) && Bare(n.keyPrefix)
    requires key == n.ObjectKey(k) || key == n.SentinelKey()
    ensures var path := PathOf(n.BucketName(b), key);
      && (forall c | c in path :: c as int < 256)
      && var bytes: seq<Byte> := path; CanonicalUri(bytes) == path
  {
    BareDigits(b, 2);
    BareDigits(k, 8);
    assert Bare("_seed_complete") && Bare("/");
    BareJoin(n.bucketPrefix, Padded(b, 2));
    BareJoin("/", key);
    BareJoin(n.BucketName(b), "/" + key);
    BareJoin("/", n.BucketName(b) + ("/" + key));
    SentBare(PathOf(n.BucketName(b), key));
  }
}
