/** Abstract X.509 certificates: what internal/certs generates and how it verifies.
    A key pair is a number, a signature is the number of the signing key, and time is counted in nanoseconds. */
module Certs {
  import opened Prelude

  type Time = int
  type Key = nat

  const SECOND: Time := 1_000_000_000
  const HOUR: Time := 3600 * SECOND
  const DAY: Time := 24 * HOUR

  const CA_CERT_EXPIRATION: Time := 10 * 365 * DAY
  const SERVER_CERT_EXPIRATION: Time := 365 * DAY
  const CERT_LOOKAHEAD: Time := 60 * DAY
  const TICKER_DURATION: Time := 12 * HOUR

  datatype Certificate = Certificate(
    key: Key, signer: Key, notBefore: Time, notAfter: Time, dnsName: string, isCA: bool)

  /** X.509 stores validity bounds in whole seconds. */
  function WholeSeconds(t: Time): (r: Time)
    ensures r <= t < r + SECOND
  {
    t - t % SECOND
  }

  /** Both ends of the validity window are inclusive (section 4.1.2.5 of RFC 5280). */
  predicate WithinWindow(c: Certificate, t: Time) {
    c.notBefore <= t <= c.notAfter
  }

  /** A chain of one (the certificate is itself trusted), or of two with a root valid at the same instant. */
  predicate ChainsTo(c: Certificate, root: Certificate, t: Time) {
    || c == root
    || (c.signer == root.key && root.isCA && WithinWindow(root, t))
  }

  /** `key` is absent when the caller passes a nil private key. */
  predicate VerifyCert(c: Certificate, key: Option<Key>, pool: seq<Certificate>, dnsName: string, at: Time) {
    && (key.Some? ==> key.value == c.key)
    && WithinWindow(c, at)
    && (dnsName == "" || c.dnsName == dnsName)
    && exists root :: root in pool && ChainsTo(c, root, at)
  }

  /** The CA is verified against a pool holding only itself, so neither its signature nor its CA flag is examined. */
  predicate VerifyCA(c: Certificate, key: Option<Key>, at: Time)
    ensures VerifyCA(c, key, at) <==> (key.Some? ==> key.value == c.key) && c.notBefore <= at <= c.notAfter
  {
    assert c in [c] && ChainsTo(c, c, at);
    VerifyCert(c, key, [c], "", at)
  }

  /** A self-signed CA certificate naming no host, which is what GenerateCA produces. */
  predicate IsRoot(c: Certificate) {
    c.isCA && c.signer == c.key && c.dnsName == ""
  }

  function GenerateCA(key: Key, notBefore: Time, notAfter: Time): (ca: Certificate)
    ensures IsRoot(ca) && ca.key == key
    ensures ca.notBefore <= notBefore && notAfter < ca.notAfter + SECOND
    ensures forall t :: notBefore <= t <= notAfter - SECOND ==> VerifyCA(ca, Some(key), t)
  {
    Certificate(key, key, WholeSeconds(notBefore), WholeSeconds(notAfter), "", true)
  }

  /** No other certificate chains to this one, at any time. */
  ghost predicate VouchesForNothing(root: Certificate) {
    forall c, t :: c != root ==> !ChainsTo(c, root, t)
  }

  /** Fails when the private key does not belong to the CA certificate. */
  function GenerateCert(ca: Certificate, caKey: Key, notBefore: Time, notAfter: Time, dnsName: string, key: Key)
    : (r: Option<Certificate>)
    ensures r.Some? <==> caKey == ca.key
    ensures r.Some? ==>
              && r.value.key == key && r.value.signer == ca.key && r.value.dnsName == dnsName
              && r.value.notBefore <= notBefore && notAfter < r.value.notAfter + SECOND
    ensures r.Some? ==> forall t :: notBefore <= t <= notAfter - SECOND && ca.isCA && WithinWindow(ca, t) ==>
                                      VerifyCert(r.value, Some(key), [ca], dnsName, t)
    // It vouches for nothing but itself.
    ensures r.Some? ==> VouchesForNothing(r.value)
  {
    if caKey != ca.key then None else
      var c := Certificate(key, caKey, WholeSeconds(notBefore), WholeSeconds(notAfter), dnsName, false);
      assert forall t :: ca in [ca] && (ca.isCA && WithinWindow(ca, t) ==> ChainsTo(c, ca, t));
      Some(c)
  }

  /** The text before the first dot is the service, and what follows it belongs to the namespace. */
  function DNSName(serviceName: string, namespace: string): (r: string)
    ensures |serviceName| < |r| && r[..|serviceName|] == serviceName && r[|serviceName|] == '.'
  {
    serviceName + "." + namespace + ".svc"
  }

  lemma LongerHoldsDot(s1: string, n1: string, s2: string, n2: string)
    requires DNSName(s1, n1) == DNSName(s2, n2)
    ensures |s1| < |s2| ==> '.' in s2
  {
    if |s1| < |s2| { assert DNSName(s2, n2)[|s1|] == s2[|s1|]; }
  }

  /** Services are told apart by their DNS names: within a namespace always, and otherwise if they hold no dot. */
  lemma DNSNamesDiffer(s1: string, n1: string, s2: string, n2: string)
    ensures DNSName(s1, n1) == DNSName(s2, n1) <==> s1 == s2
    ensures '.' !in s1 && '.' !in s2 ==> (DNSName(s1, n1) == DNSName(s2, n2) <==> s1 == s2 && n1 == n2)
  {
    var tail := "." + n1 + ".svc";
    assert DNSName(s1, n1) == s1 + tail && DNSName(s2, n1) == s2 + tail;
    if s1 + tail == s2 + tail {
      assert |s1| == |s2|;
      assert s1 == (s1 + tail)[..|s1|] == s2;
    }
    if '.' !in s1 && '.' !in s2 && DNSName(s1, n1) == DNSName(s2, n2) {
      var d := DNSName(s1, n1);
      LongerHoldsDot(s1, n1, s2, n2);
      LongerHoldsDot(s2, n2, s1, n1);
      assert |s1| == |s2|;
      assert n1 == d[|s1| + 1..|d| - 4] == n2;
    }
  }
}
