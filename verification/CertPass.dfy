/** What a single pass of the certificate controller keeps between its writes, as facts about the states in between. */
module CertPass {
  import opened Prelude
  import opened Certs
  import opened CertWorld
  import opened CertRuns

  /** The hook with every CA bundle replaced. */
  function Patched(h: Hook, bundle: seq<Certificate>): (r: Hook)
    ensures r.labelled == h.labelled && |r.bundles| == |h.bundles|
    ensures forall i :: 0 <= i < |r.bundles| ==> r.bundles[i] == bundle
  {
    h.(bundles := seq(|h.bundles|, i => bundle))
  }

  /** Every labelled hook patched, the others left alone. */
  function PatchedHooks(hooks: map<HookId, Hook>, bundle: seq<Certificate>): map<HookId, Hook> {
    map id | id in hooks :: if hooks[id].labelled then Patched(hooks[id], bundle) else hooks[id]
  }

  /** Every bundle of every labelled hook holds `c`. */
  ghost predicate AllBundles(w: World, c: Certificate) {
    forall id, i :: id in w.hooks && w.hooks[id].labelled && 0 <= i < |w.hooks[id].bundles| ==>
                      c in w.hooks[id].bundles[i]
  }

  /** `w` differs from `w0` by the passing of time only. */
  ghost predicate Later(w0: World, w: World) {
    w0.now <= w.now && w == w0.(now := w.now)
  }

  ghost predicate HookMoved(h0: Hook, h: Hook, bundle: seq<Certificate>) {
    h == h0 || (h0.labelled && h == Patched(h0, bundle))
  }

  /** `w` differs from `w0` by time and by some labelled hooks having been patched with `bundle`. */
  ghost predicate HooksMoved(w0: World, w: World, bundle: seq<Certificate>) {
    && w0.now <= w.now && w == w0.(now := w.now, hooks := w.hooks)
    && w.hooks.Keys == w0.hooks.Keys
    && forall id :: id in w.hooks ==> HookMoved(w0.hooks[id], w.hooks[id], bundle)
  }

  ghost predicate Reissued(w0: World, s: ServerSecret)
    requires HasCA(w0.ca)
  {
    HasCert(s) && s.cert.value.signer == w0.ca.cert.value.key
  }

  /** `w` differs from `w0` by time and by some server certificates having been reissued by the current CA. */
  ghost predicate ServersMoved(w0: World, w: World) {
    && HasCA(w0.ca)
    && w0.now <= w.now && w0.nextKey <= w.nextKey
    && w == w0.(now := w.now, servers := w.servers, nextKey := w.nextKey)
    && w.servers.Keys == w0.servers.Keys
    && forall id :: id in w.servers ==> w.servers[id] == w0.servers[id] || Reissued(w0, w.servers[id])
  }

  /** `first` is the CA the pass started from. Every server certificate was issued by it or, once servers are being
      reissued, by the current CA; and the bundles hold whichever of the two is still needed. */
  ghost predicate Guarded(w: World, first: Certificate, reissuing: bool) {
    && HasCA(w.ca)
    && IsRoot(w.ca.cert.value) && w.ca.cert.value.key < w.nextKey && w.ca.cert.value.notBefore <= w.now
    && IsRoot(first) && first.key < w.nextKey && first.notBefore <= w.now
    && (w.ca.cert.value != first ==>
          && w.ca.cert.value.key != first.key
          && (w.ca.oldCert == Some(first) || first.notAfter < w.now))
    && (w.ca.oldCert.Some? ==>
          && IsRoot(w.ca.oldCert.value)
          && w.ca.oldCert.value.key != w.ca.cert.value.key
          && (w.ca.oldCert.value != first ==> w.ca.oldCert.value.key != first.key))
    && (AllBundles(w, first) || first.notAfter < w.now)
    && (reissuing ==> AllBundles(w, w.ca.cert.value))
    && forall id :: id in w.servers && w.servers[id].cert.Some? ==>
                      || w.servers[id].cert.value.signer == first.key
                      || (reissuing && w.servers[id].cert.value.signer == w.ca.cert.value.key)
  }

  /** Every labelled bundle holds the current CA and every server certificate is signed by it. */
  ghost predicate Steady(w: World) {
    && HasCA(w.ca)
    && IsRoot(w.ca.cert.value) && w.ca.cert.value.key < w.nextKey && w.ca.cert.value.notBefore <= w.now
    && (w.ca.oldCert.Some? ==> IsRoot(w.ca.oldCert.value) && w.ca.oldCert.value.key != w.ca.cert.value.key)
    && AllBundles(w, w.ca.cert.value)
    && forall id :: id in w.servers && w.servers[id].cert.Some? ==>
                      w.servers[id].cert.value.signer == w.ca.cert.value.key
  }

  /** Any server certificate that verifies now, under a root in the secret or under `first`, verifies under every
      labelled bundle. */
  ghost predicate BundleSafe(w: World, first: Certificate) {
    forall id, h, i ::
      && id in w.servers && h in w.hooks && w.hooks[h].labelled && 0 <= i < |w.hooks[h].bundles|
      && ServerVerifies(w.cfg, id, w.servers[id], Roots(w.ca) + [first], w.now) ==>
        ServerVerifies(w.cfg, id, w.servers[id], w.hooks[h].bundles[i], w.now)
  }

  /** Any server certificate that verifies now under a root in the secret verifies under every labelled bundle. */
  ghost predicate Accepted(w: World) {
    forall id, h, i ::
      && id in w.servers && h in w.hooks && w.hooks[h].labelled && 0 <= i < |w.hooks[h].bundles|
      && ServerVerifies(w.cfg, id, w.servers[id], Roots(w.ca), w.now) ==>
        ServerVerifies(w.cfg, id, w.servers[id], w.hooks[h].bundles[i], w.now)
  }

  lemma SafeIsAccepted(w: World, first: Certificate)
    requires BundleSafe(w, first)
    ensures Accepted(w)
  {
    forall id | id in w.servers && ServerVerifies(w.cfg, id, w.servers[id], Roots(w.ca), w.now)
      ensures ServerVerifies(w.cfg, id, w.servers[id], Roots(w.ca) + [first], w.now)
    {
      var root :| root in Roots(w.ca) && ChainsTo(w.servers[id].cert.value, root, w.now);
      assert root in Roots(w.ca) + [first];
    }
  }

  lemma SteadyIsGuarded(w: World)
    requires Steady(w)
    ensures Guarded(w, w.ca.cert.value, true)
  {
  }

  lemma GuardedIsSafe(w: World, first: Certificate, reissuing: bool)
    requires Guarded(w, first, reissuing)
    ensures BundleSafe(w, first)
  {
    forall id, h, i |
      && id in w.servers && h in w.hooks && w.hooks[h].labelled && 0 <= i < |w.hooks[h].bundles|
      && ServerVerifies(w.cfg, id, w.servers[id], Roots(w.ca) + [first], w.now)
      ensures ServerVerifies(w.cfg, id, w.servers[id], w.hooks[h].bundles[i], w.now)
    {
      var c := w.servers[id].cert.value;
      var root :| root in Roots(w.ca) + [first] && ChainsTo(c, root, w.now);
      assert IsRoot(root) && c.signer == root.key;
      assert root in w.hooks[h].bundles[i];
    }
  }

  lemma SteadyIsAccepted(w: World)
    requires Steady(w)
    ensures Accepted(w)
  {
    SteadyIsGuarded(w);
    GuardedIsSafe(w, w.ca.cert.value, true);
    SafeIsAccepted(w, w.ca.cert.value);
  }

  /** The passing of time, a new server, and one gone keep the steady state. */
  lemma SteadyNext(w: World, e: Event, w': World)
    requires Steady(w) && Next(w, e, w')
    requires e.Advance? || e.IssueCert? || e.DeleteServer? || e.DeleteHook?
    ensures Steady(w')
  {
  }

  lemma GuardedLater(w0: World, w: World, first: Certificate, reissuing: bool)
    requires Guarded(w0, first, reissuing) && Later(w0, w)
    ensures Guarded(w, first, reissuing)
  {
  }

  lemma GuardedRotated(w: World)
    requires HasCA(w.ca) && Guarded(w, w.ca.cert.value, true)
    ensures Guarded(w.(ca := RotatedCA(w), nextKey := w.nextKey + 1), w.ca.cert.value, false)
  {
  }

  lemma GuardedDropped(w: World, first: Certificate)
    requires Guarded(w, first, true) && w.ca.oldCert.Some? && !OldVerifies(w.ca.oldCert.value, w.now)
    ensures Guarded(w.(ca := w.ca.(oldCert := None)), first, true)
  {
  }

  /** Patching keeps the bundles good if the new bundle holds what they must hold. */
  lemma GuardedHooks(w0: World, w: World, bundle: seq<Certificate>, first: Certificate, reissuing: bool)
    requires Guarded(w0, first, reissuing) && HooksMoved(w0, w, bundle)
    requires first in bundle || first.notAfter < w0.now
    requires reissuing ==> w0.ca.cert.value in bundle
    ensures Guarded(w, first, reissuing)
  {
  }

  lemma GuardedServers(w0: World, w: World, first: Certificate)
    requires Guarded(w0, first, true) && ServersMoved(w0, w)
    ensures Guarded(w, first, true)
  {
  }

  lemma SettledIsSteady(w: World, first: Certificate, start: Time)
    requires Guarded(w, first, true) && Settled(w, start)
    ensures Steady(w)
  {
  }

  /** After an error-free pass, a bundle that misses the current CA is useless for every server: nothing it holds
      can vouch for their certificates, at any time. */
  lemma StrandedBundle(w: World, start: Time, bundle: seq<Certificate>, id: Server, t: Time)
    requires Settled(w, start) && IsRoot(w.ca.cert.value) && id in w.servers
    requires forall c :: c in bundle ==> IsRoot(c) && c.key != w.ca.cert.value.key
    ensures !ServerVerifies(w.cfg, id, w.servers[id], bundle, t)
  {
  }

  predicate ServerVerifiesAhead(w: World, id: Server)
    requires HasCA(w.ca) && id in w.servers
  {
    ServerVerifies(w.cfg, id, w.servers[id], [w.ca.cert.value], w.now + CERT_LOOKAHEAD)
  }

  /** Nothing to do at this instant: the CA and every server certificate verify ahead, and no dead CA is kept. */
  ghost predicate SettledNow(w: World) {
    && HasCA(w.ca)
    && CAVerifiesAhead(w.ca, w.now)
    && (w.ca.oldCert.Some? ==> OldVerifies(w.ca.oldCert.value, w.now))
    && forall id :: id in w.servers ==> ServerVerifiesAhead(w, id)
  }

  /** Whether the certificate of `id` can verify under the stored CA at all. */
  predicate CanVerify(w: World, id: Server)
    requires HasCA(w.ca) && id in w.servers
  {
    w.ca.cert.value.isCA || w.servers[id].cert == w.ca.cert
  }

  /** The roots in the secret are told apart by their keys. */
  ghost predicate ProperRoots(ca: CASecret) {
    && HasCA(ca) && IsRoot(ca.cert.value)
    && (ca.oldCert.Some? ==> IsRoot(ca.oldCert.value) && ca.oldCert.value.key != ca.cert.value.key)
  }

  /** A policy's webhook is written with the current CA alone. Of the servers whose certificate verifies under the roots
      in the secret, it accepts exactly those whose certificate the current CA has signed. */
  lemma WebhookAcceptsExactly(w: World, w': World, h: HookId, hook: Hook, i: nat, id: Server)
    requires ProperRoots(w.ca) && Next(w, WriteHook(h, hook), w')
    requires i < |hook.bundles| && hook.bundles[i] == [w.ca.cert.value]
    requires id in w.servers && ServerVerifies(w.cfg, id, w.servers[id], Roots(w.ca), w.now)
    ensures ServerVerifies(w'.cfg, id, w'.servers[id], w'.hooks[h].bundles[i], w'.now)
       <==> w.servers[id].cert.value.signer == w.ca.cert.value.key
  {
    var c, ca := w.servers[id].cert.value, w.ca.cert.value;
    var root :| root in Roots(w.ca) && ChainsTo(c, root, w.now);
    assert IsRoot(root) && c.signer == root.key;
    assert ca in [ca];
  }

  /** So right after a rotation it accepts no server, though all that verified still do under the stored roots. */
  lemma WebhookWrittenMidRotation(w: World, w1: World, w2: World, h: HookId, hook: Hook, i: nat, id: Server)
    requires Steady(w) && Next(w, RotateCA, w1) && Next(w1, WriteHook(h, hook), w2)
    requires i < |hook.bundles| && hook.bundles[i] == [w1.ca.cert.value]
    requires id in w.servers && ServerVerifies(w.cfg, id, w.servers[id], [w.ca.cert.value], w.now)
    ensures id in w2.servers && ServerVerifies(w2.cfg, id, w2.servers[id], Roots(w2.ca), w2.now)
    ensures !ServerVerifies(w2.cfg, id, w2.servers[id], w2.hooks[h].bundles[i], w2.now)
  {
    assert w.ca.cert.value in Roots(w1.ca);
    WebhookAcceptsExactly(w1, w2, h, hook, i, id);
  }
}
