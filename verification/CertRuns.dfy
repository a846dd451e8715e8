/** What holds in every run of certificate rotation, wherever API calls fail and however the controllers interleave. */
module CertRuns {
  import opened Prelude
  import opened Certs
  import opened CertWorld

  /** The roots the CA secret vouches for: the current CA and, while kept, the retired one. */
  function Roots(ca: CASecret): seq<Certificate> {
    (if ca.cert.Some? then [ca.cert.value] else []) + (if ca.oldCert.Some? then [ca.oldCert.value] else [])
  }

  /** Nothing stored starts in the future. */
  ghost predicate Sane(w: World) {
    && (w.ca.cert.Some? ==> w.ca.cert.value.notBefore <= w.now)
    && (w.ca.oldCert.Some? ==> w.ca.oldCert.value.notBefore <= w.now)
    && forall id :: id in w.servers && w.servers[id].cert.Some? ==> w.servers[id].cert.value.notBefore <= w.now
  }

  /** The last error-free pass started at most the lookahead ago. */
  ghost predicate Timely(w: World) {
    w.completed.Some? ==> w.now <= w.completed.value + CERT_LOOKAHEAD
  }

  /** From now until the lookahead of the last error-free pass runs out, every server certificate verifies. */
  ghost predicate Secure(w: World) {
    w.completed.Some? ==>
      forall id, t :: id in w.servers && w.now <= t <= w.completed.value + CERT_LOOKAHEAD ==>
                        ServerVerifies(w.cfg, id, w.servers[id], Roots(w.ca), t)
  }

  /** `root` is valid from now until `bound`. */
  ghost predicate RootCovers(root: Certificate, now: Time, bound: Time) {
    root.notBefore <= now && bound <= root.notAfter
  }

  /** The certificate of `id` lasts until `bound` and so does a root that issued it. Only a CA that replaced the
      issuer after `start` can leave a server depending on the retired one. */
  ghost predicate ServerCovered(w: World, id: Server, start: Time)
    requires HasCA(w.ca) && id in w.servers
  {
    var s, bound := w.servers[id], start + CERT_LOOKAHEAD;
    && HasCert(s)
    && s.key.value == s.cert.value.key
    && s.cert.value.dnsName == Dns(w.cfg, id)
    && s.cert.value.notBefore <= w.now
    && bound <= s.cert.value.notAfter
    && (|| IssuedBy(s.cert.value, w.ca.cert.value)
        || (&& w.ca.oldCert.Some? && IssuedBy(s.cert.value, w.ca.oldCert.value)
            && RootCovers(w.ca.oldCert.value, w.now, bound)
            && start + CA_CERT_EXPIRATION < w.ca.cert.value.notAfter + SECOND))
  }

  ghost predicate Covered(w: World) {
    w.completed.Some? ==>
      && HasCA(w.ca)
      && w.ca.key.value == w.ca.cert.value.key
      && w.completed.value <= w.now
      && RootCovers(w.ca.cert.value, w.now, w.completed.value + CERT_LOOKAHEAD)
      && forall id :: id in w.servers ==> ServerCovered(w, id, w.completed.value)
  }

  lemma SaneNext(w: World, e: Event, w': World)
    requires Sane(w) && Next(w, e, w')
    ensures Sane(w')
  {
  }

  /** The only delicate steps are the two that take a root away. A rotation drops the retired CA, and a cleanup
      drops it too; in both cases no server can still depend on it while passes are timely. */
  lemma CoveredNext(w: World, e: Event, w': World)
    requires Sane(w) && Timely(w) && Covered(w) && Next(w, e, w')
    ensures Covered(w')
  {
    if w'.completed.Some? {
      var start := w'.completed.value;
      forall id | id in w'.servers
        ensures ServerCovered(w', id, start)
      {
        if e.RotateCA? || e.DropOldCA? {
          assert ServerCovered(w, id, start);
        } else if id in w.servers && w.servers[id] == w'.servers[id] {
          assert e.CompletePass? ==> ServerSettled(w, id, start);
          assert !e.CompletePass? ==> ServerCovered(w, id, start);
        }
      }
    }
  }

  /** A stored root vouches for the certificate of `id`: it is that certificate, or it signed it, is a CA certificate
      and is valid. */
  ghost predicate Vouched(w: World, id: Server, t: Time)
    requires id in w.servers && HasCert(w.servers[id])
  {
    exists root :: root in Roots(w.ca) && ChainsTo(w.servers[id].cert.value, root, t)
  }

  /** From now until the lookahead of the last error-free pass runs out, a server certificate fails to verify only for
      want of a root that vouches for it: never for its dates, its key or its name. */
  ghost predicate Answered(w: World) {
    w.completed.Some? ==>
      forall id, t :: id in w.servers && w.now <= t <= w.completed.value + CERT_LOOKAHEAD ==>
                        && HasCert(w.servers[id])
                        && (ServerVerifies(w.cfg, id, w.servers[id], Roots(w.ca), t) <==> Vouched(w, id, t))
  }

  /** A stored root is the certificate of `id`, or signed it and is a CA certificate. */
  ghost predicate Flagged(w: World, id: Server)
    requires id in w.servers && HasCert(w.servers[id])
  {
    var c := w.servers[id].cert.value;
    exists root :: root in Roots(w.ca) && (c == root || (c.signer == root.key && root.isCA))
  }

  /** In that time a server certificate verifies exactly if the CA flag is where it should be. */
  ghost predicate DecidedByFlag(w: World) {
    w.completed.Some? ==>
      forall id, t :: id in w.servers && w.now <= t <= w.completed.value + CERT_LOOKAHEAD ==>
                        && HasCert(w.servers[id])
                        && (ServerVerifies(w.cfg, id, w.servers[id], Roots(w.ca), t) <==> Flagged(w, id))
  }

  /** Stored roots have keys that were drawn before, and different ones. */
  ghost predicate FreshKeys(w: World) {
    && (w.ca.cert.Some? ==> w.ca.cert.value.key < w.nextKey)
    && (w.ca.oldCert.Some? ==> w.ca.cert.Some? && w.ca.oldCert.value.key < w.nextKey
                               && w.ca.oldCert.value.key != w.ca.cert.value.key)
  }

  /** The stored roots are CA certificates. */
  ghost predicate RootsFlagged(w: World) {
    (w.ca.cert.Some? ==> w.ca.cert.value.isCA) && (w.ca.oldCert.Some? ==> w.ca.oldCert.value.isCA)
  }

  lemma CoveredIsAnswered(w: World)
    requires Covered(w)
    ensures Answered(w)
  {
    if w.completed.Some? {
      forall id | id in w.servers
        ensures ServerCovered(w, id, w.completed.value)
      {
      }
    }
  }

  /** A root that covers a certificate is one of the stored roots, issued it, and is valid for the lookahead. */
  lemma CoveringRoot(w: World, id: Server) returns (root: Certificate)
    requires Covered(w) && w.completed.Some? && id in w.servers
    ensures HasCert(w.servers[id]) && root in Roots(w.ca) && IssuedBy(w.servers[id].cert.value, root)
    ensures RootCovers(root, w.now, w.completed.value + CERT_LOOKAHEAD)
  {
    assert ServerCovered(w, id, w.completed.value);
    root := if IssuedBy(w.servers[id].cert.value, w.ca.cert.value) then w.ca.cert.value else w.ca.oldCert.value;
  }

  lemma CoveredIsDecided(w: World)
    requires Covered(w) && FreshKeys(w)
    ensures DecidedByFlag(w)
  {
    CoveredIsAnswered(w);
    if w.completed.Some? {
      forall id, t | id in w.servers && w.now <= t <= w.completed.value + CERT_LOOKAHEAD
        ensures HasCert(w.servers[id]) && (Vouched(w, id, t) <==> Flagged(w, id))
      {
        var c := w.servers[id].cert.value;
        var root := CoveringRoot(w, id);
        if Flagged(w, id) {
          var other :| other in Roots(w.ca) && (c == other || (c.signer == other.key && other.isCA));
          assert ChainsTo(c, if c == other then other else root, t);
        }
      }
    }
  }

  lemma CoveredIsSecure(w: World)
    requires Covered(w) && RootsFlagged(w)
    ensures Secure(w)
  {
    CoveredIsAnswered(w);
    if w.completed.Some? {
      forall id, t | id in w.servers && w.now <= t <= w.completed.value + CERT_LOOKAHEAD
        ensures ServerVerifies(w.cfg, id, w.servers[id], Roots(w.ca), t)
      {
        var root := CoveringRoot(w, id);
        assert ChainsTo(w.servers[id].cert.value, root, t);
      }
    }
  }

  lemma {:induction false} CoveredThroughout(ws: seq<World>, es: seq<Event>, i: nat)
    requires IsRun(ws, es) && i < |ws|
    requires Sane(ws[0]) && ws[0].completed.None?
    requires forall j :: 0 <= j < i ==> Timely(ws[j])
    ensures Sane(ws[i]) && Covered(ws[i])
  {
    if i > 0 {
      CoveredThroughout(ws, es, i - 1);
      SaneNext(ws[i - 1], es[i - 1], ws[i]);
      CoveredNext(ws[i - 1], es[i - 1], ws[i]);
    }
  }

  lemma {:induction false} RootsThroughout(ws: seq<World>, es: seq<Event>, i: nat)
    requires IsRun(ws, es) && i < |ws|
    ensures FreshKeys(ws[0]) ==> FreshKeys(ws[i])
    ensures RootsFlagged(ws[0]) ==> RootsFlagged(ws[i])
  {
    if i > 0 {
      RootsThroughout(ws, es, i - 1);
      assert Next(ws[i - 1], es[i - 1], ws[i]);
    }
  }

  /** Whatever calls fail in between, if error-free passes are never more than the lookahead apart then, at every moment
      after the first one, a managed server certificate verifies under the current or the retired CA exactly if one of
      them vouches for it; and if the keys found at the start are different ones, exactly if the one that signed it is
      a CA certificate, or it is itself the root. */
  lemma ServersVerifyExactly(ws: seq<World>, es: seq<Event>)
    requires IsRun(ws, es)
    requires Sane(ws[0]) && ws[0].completed.None?
    requires forall j :: 0 <= j < |ws| ==> Timely(ws[j])
    ensures forall i :: 0 <= i < |ws| ==> Answered(ws[i])
    ensures FreshKeys(ws[0]) ==> forall i :: 0 <= i < |ws| ==> DecidedByFlag(ws[i])
  {
    forall i | 0 <= i < |ws|
      ensures Answered(ws[i]) && (FreshKeys(ws[0]) ==> DecidedByFlag(ws[i]))
    {
      CoveredThroughout(ws, es, i);
      CoveredIsAnswered(ws[i]);
      RootsThroughout(ws, es, i);
      if FreshKeys(ws[0]) { CoveredIsDecided(ws[i]); }
    }
  }

  /** In particular, with CA certificates at the start, every managed server certificate verifies at every moment after
      the first error-free pass. */
  lemma ServerCertificatesAlwaysVerify(ws: seq<World>, es: seq<Event>)
    requires IsRun(ws, es)
    requires Sane(ws[0]) && RootsFlagged(ws[0]) && ws[0].completed.None?
    requires forall j :: 0 <= j < |ws| ==> Timely(ws[j])
    ensures forall i :: 0 <= i < |ws| ==> Secure(ws[i])
    ensures forall i, id :: 0 <= i < |ws| && ws[i].completed.Some? && id in ws[i].servers ==>
                              ServerVerifies(ws[i].cfg, id, ws[i].servers[id], Roots(ws[i].ca), ws[i].now)
  {
    forall i | 0 <= i < |ws|
      ensures Secure(ws[i])
    {
      CoveredThroughout(ws, es, i);
      RootsThroughout(ws, es, i);
      CoveredIsSecure(ws[i]);
    }
  }

  /** A stored CA that is no CA certificate is accepted and never replaced for it, though nothing it signs verifies: a
      run with one error-free pass. */
  lemma UnflaggedCAFails() returns (ws: seq<World>, es: seq<Event>)
    ensures IsRun(ws, es) && Sane(ws[0]) && ws[0].completed.None? && FreshKeys(ws[0])
    ensures |ws| == 2 && ws[1].completed == Some(ws[1].now) && WebhookServer in ws[1].servers
    ensures HasCA(ws[1].ca) && CAVerifiesAhead(ws[1].ca, ws[1].now)
    ensures !ServerVerifies(ws[1].cfg, WebhookServer, ws[1].servers[WebhookServer], Roots(ws[1].ca), ws[1].now)
  {
    var cfg := Config("", "");
    var ca := Certificate(0, 0, 0, CA_CERT_EXPIRATION, "", false);
    var c := Certificate(1, 0, 0, SERVER_CERT_EXPIRATION, Dns(cfg, WebhookServer), false);
    var w0 := World(
      cfg, 0, CASecret(Some(ca), Some(0), None), map[WebhookServer := ServerSecret(Some(c), Some(1))], map[], 2, None);
    var w1 := w0.(completed := Some(0));
    ws, es := [w0, w1], [CompletePass(0)];
    assert Next(w0, CompletePass(0), w1);
  }

  /** One nanosecond more between error-free passes is too much: a run in which the last one started just over the
      lookahead ago, and a server certificate no longer verifies. */
  lemma LookaheadIsTight() returns (ws: seq<World>, es: seq<Event>)
    ensures IsRun(ws, es) && Sane(ws[0]) && ws[0].completed.None?
    ensures |ws| == 3 && ws[2].completed == Some(ws[0].now) && ws[2].now == ws[0].now + CERT_LOOKAHEAD + 1
    ensures WebhookServer in ws[2].servers
    ensures !ServerVerifies(ws[2].cfg, WebhookServer, ws[2].servers[WebhookServer], Roots(ws[2].ca), ws[2].now)
  {
    var cfg := Config("", "");
    var ca := GenerateCA(0, 0, CA_CERT_EXPIRATION);
    var c := Certificate(1, 0, 0, CERT_LOOKAHEAD, Dns(cfg, WebhookServer), false);
    var w0 := World(
      cfg, 0, CASecret(Some(ca), Some(0), None), map[WebhookServer := ServerSecret(Some(c), Some(1))], map[], 2, None);
    var w1 := w0.(completed := Some(0));
    var w2 := w1.(now := CERT_LOOKAHEAD + 1);
    ws, es := [w0, w1, w2], [CompletePass(0), Advance(w2.now)];
    assert Next(w0, CompletePass(0), w1) && Next(w1, Advance(w2.now), w2);
  }

  /** A CA generated at `t` is due for rotation exactly from 3590 days later on, less the fraction of a second
      that X.509 cuts off. */
  lemma RotationDue(key: Key, t: Time, later: Time)
    requires t <= later
    ensures !VerifyCA(GenerateCA(key, t, t + CA_CERT_EXPIRATION), Some(key), later + CERT_LOOKAHEAD) <==>
            t + 3590 * DAY - t % SECOND < later
  {
  }

  /** A run whose two rotations are less than 3590 days apart: the bound of RotationsFarApart needs its second. */
  lemma RotationsCanBeCloser() returns (ws: seq<World>, es: seq<Event>)
    ensures IsRun(ws, es) && |es| == 3 && es[0].RotateCA? && es[2].RotateCA?
    ensures ws[2].now < ws[0].now + 3590 * DAY
  {
    var expired := Certificate(0, 0, 0, 0, "", true);
    var w0 := World(Config("", ""), SECOND - 1, CASecret(Some(expired), Some(0), None), map[], map[], 1, None);
    var w1 := w0.(ca := RotatedCA(w0), nextKey := 2);
    var w2 := w1.(now := 3590 * DAY + 1);
    RotationDue(1, w0.now, w2.now);
    var w3 := w2.(ca := RotatedCA(w2), nextKey := 3);
    ws, es := [w0, w1, w2, w3], [RotateCA, Advance(w2.now), RotateCA];
    assert Next(w0, RotateCA, w1) && Next(w1, Advance(w2.now), w2) && Next(w2, RotateCA, w3);
  }

  /** From a rotation at `t` on, the CA in the secret was generated at `t` or by a later rotation. */
  ghost predicate RotatedSince(w: World, t: Time) {
    && t <= w.now
    && HasCA(w.ca)
    && w.ca.key.value == w.ca.cert.value.key
    && w.ca.cert.value.notBefore <= w.now
    && t + CA_CERT_EXPIRATION < w.ca.cert.value.notAfter + SECOND
  }

  lemma {:induction false} RotatedSinceThroughout(ws: seq<World>, es: seq<Event>, i: nat, j: nat)
    requires IsRun(ws, es) && i < j < |ws| && es[i].RotateCA?
    ensures RotatedSince(ws[j], ws[i].now)
    decreases j
  {
    assert Next(ws[i], es[i], ws[i + 1]);
    if j > i + 1 {
      RotatedSinceThroughout(ws, es, i, j - 1);
      assert Next(ws[j - 1], es[j - 1], ws[j]);
    }
  }

  /** Any two rotations in a run are more than 3590 days, less one second, apart. */
  lemma RotationsFarApart(ws: seq<World>, es: seq<Event>, i: nat, j: nat)
    requires IsRun(ws, es) && i < j < |es| && es[i].RotateCA? && es[j].RotateCA?
    ensures ws[i].now + 3590 * DAY - SECOND < ws[j].now
  {
    RotatedSinceThroughout(ws, es, i, j);
    assert Next(ws[j], es[j], ws[j + 1]);
  }

  /** The CA does not verify ahead because of its key, or because it starts after the lookahead. */
  predicate Rejected(w: World) {
    HasCA(w.ca)
    && (w.ca.key.value != w.ca.cert.value.key || w.now + CERT_LOOKAHEAD < w.ca.cert.value.notBefore)
  }

  /** A retired CA in the secret expired, or will, long before the CA that replaced it is due for rotation. */
  ghost predicate RetiredTrails(w: World) {
    && !Rejected(w)
    && (w.ca.oldCert.Some? ==>
          HasCA(w.ca) && w.ca.oldCert.value.notAfter + 3590 * DAY - SECOND < w.ca.cert.value.notAfter)
  }

  lemma {:induction false} RetiredTrailsThroughout(ws: seq<World>, es: seq<Event>, i: nat)
    requires IsRun(ws, es) && i < |ws| && RetiredTrails(ws[0])
    ensures RetiredTrails(ws[i])
  {
    if i > 0 {
      RetiredTrailsThroughout(ws, es, i - 1);
      assert Next(ws[i - 1], es[i - 1], ws[i]);
    }
  }

  /** Starting with no retired CA, and with a CA that fits its key and starts within the lookahead: a rotation retires a
      CA that expires within the lookahead, and the retired CA it overwrites, if one is left, expired at least ten years
      less 180 days earlier. */
  lemma RetiredSlotNeverOverwrittenWhileValid(ws: seq<World>, es: seq<Event>, i: nat)
    requires IsRun(ws, es) && i < |es| && es[i].RotateCA?
    requires !Rejected(ws[0]) && ws[0].ca.oldCert.None?
    ensures HasCA(ws[i].ca) && ws[i + 1].ca.oldCert == ws[i].ca.cert
    ensures ws[i].ca.cert.value.notAfter < ws[i].now + CERT_LOOKAHEAD
    ensures ws[i].ca.oldCert.Some? ==> ws[i].ca.oldCert.value.notAfter < ws[i].now - 3470 * DAY
  {
    RetiredTrailsThroughout(ws, es, i);
    assert Next(ws[i], es[i], ws[i + 1]);
  }

  /** Whatever a run starts with, a rotation retires a CA that outlasts the lookahead only if that CA was there from the
      start, and its key is foreign or it starts after the lookahead. */
  lemma RetiresLastingCA(ws: seq<World>, es: seq<Event>, i: nat)
    requires IsRun(ws, es) && i < |es| && es[i].RotateCA?
    ensures var ca, ahead := ws[i].ca, ws[i].now + CERT_LOOKAHEAD;
            HasCA(ca) && (ahead <= ca.cert.value.notAfter ==>
              && (ca.key.value != ca.cert.value.key || ahead < ca.cert.value.notBefore)
              && forall j :: 0 <= j < i ==> !es[j].RotateCA?)
  {
    assert Next(ws[i], es[i], ws[i + 1]);
    forall j | 0 <= j < i && es[j].RotateCA?
      ensures ws[i].ca.cert.value.notAfter < ws[i].now + CERT_LOOKAHEAD
    {
      RotatedSinceThroughout(ws, es, j, i);
    }
  }

  lemma {:induction false} UnrotatedThroughout(ws: seq<World>, es: seq<Event>, i: nat)
    requires IsRun(ws, es) && i < |ws| && forall j :: 0 <= j < i ==> !es[j].RotateCA?
    ensures ws[0].now <= ws[i].now && ws[i].ca.cert == ws[0].ca.cert && ws[i].ca.key == ws[0].ca.key
    ensures ws[0].ca.oldCert.None? ==> ws[i].ca.oldCert.None?
  {
    if i > 0 {
      UnrotatedThroughout(ws, es, i - 1);
      assert Next(ws[i - 1], es[i - 1], ws[i]);
    }
  }

  /** Rotation `i` of a run from `w`. */
  ghost predicate RotationFrom(w: World, ws: seq<World>, es: seq<Event>, i: nat) {
    IsRun(ws, es) && ws[0] == w && i < |es| && es[i].RotateCA? && HasCA(ws[i].ca)
  }

  /** Every rotation of every run from `w` retires a CA that expires within the lookahead. */
  ghost predicate RetiresOnlyExpiring(w: World) {
    forall ws: seq<World>, es: seq<Event>, i: nat :: RotationFrom(w, ws, es, i) ==>
      ws[i].ca.cert.value.notAfter < ws[i].now + CERT_LOOKAHEAD
  }

  lemma OneRotation(w: World) returns (ws: seq<World>, es: seq<Event>)
    requires Rejected(w)
    ensures IsRun(ws, es) && es == [RotateCA] && ws[0] == w && ws[1] == w.(ca := RotatedCA(w), nextKey := w.nextKey + 1)
  {
    var w' := w.(ca := RotatedCA(w), nextKey := w.nextKey + 1);
    ws, es := [w, w'], [RotateCA];
    assert Next(w, RotateCA, w');
  }

  /** No rotation retires a CA that lasts longer, exactly if the CA at the start expires within the lookahead or is not
      rejected. */
  lemma RetiresOnlyExpiringExactly(w: World)
    ensures RetiresOnlyExpiring(w) <==> (Rejected(w) ==> w.ca.cert.value.notAfter < w.now + CERT_LOOKAHEAD)
  {
    if Rejected(w) && w.now + CERT_LOOKAHEAD <= w.ca.cert.value.notAfter {
      var ws, es := OneRotation(w);
      assert RotationFrom(w, ws, es, 0);
    } else {
      forall ws: seq<World>, es: seq<Event>, i: nat | RotationFrom(w, ws, es, i)
        ensures ws[i].ca.cert.value.notAfter < ws[i].now + CERT_LOOKAHEAD
      {
        RetiresLastingCA(ws, es, i);
        if ws[i].now + CERT_LOOKAHEAD <= ws[i].ca.cert.value.notAfter { UnrotatedThroughout(ws, es, i); }
      }
    }
  }

  /** A CA with a foreign key is retired while still valid, for as long as one likes. */
  lemma ForeignKeyRetiresLastingCA(days: nat) returns (ws: seq<World>, es: seq<Event>)
    ensures IsRun(ws, es) && |es| == 1 && es[0].RotateCA? && ws[0].ca.oldCert.None?
    ensures ws[1].ca.oldCert.Some? && ws[1].now + days * DAY == ws[1].ca.oldCert.value.notAfter
  {
    var ca := Certificate(0, 0, 0, days * DAY, "", true);
    ws, es := OneRotation(World(Config("", ""), 0, CASecret(Some(ca), Some(1), None), map[], map[], 2, None));
  }

  /** Every rotation of every run from `w` overwrites only a retired CA that has expired. */
  ghost predicate OverwritesOnlyExpired(w: World) {
    forall ws: seq<World>, es: seq<Event>, i: nat :: RotationFrom(w, ws, es, i) ==>
      (ws[i].ca.oldCert.Some? ==> ws[i].ca.oldCert.value.notAfter < ws[i].now)
  }

  /** The retired CA expires before the current one is due. */
  ghost predicate ExpiresBeforeDue(w0: World, w: World) {
    && w0.now <= w.now
    && (|| (w.ca.cert == w0.ca.cert && w.ca.key == w0.ca.key && w.ca.oldCert.None?)
        || (&& HasCA(w.ca) && w.ca.key.value == w.ca.cert.value.key && w.ca.cert.value.notBefore <= w.now
            && (w.ca.oldCert.Some? ==> w.ca.oldCert.value.notAfter <= w.ca.cert.value.notAfter - CERT_LOOKAHEAD)))
  }

  /** When the CA generated now is due, to the second. */
  function DueTime(now: Time): Time {
    WholeSeconds(now) + 3590 * DAY
  }

  lemma GeneratedUntilDue(key: Key, now: Time)
    ensures GenerateCA(key, now, now + CA_CERT_EXPIRATION).notAfter == DueTime(now) + CERT_LOOKAHEAD
  {
  }

  lemma DueTimeGrows(t: Time, u: Time)
    requires t <= u
    ensures DueTime(t) <= DueTime(u)
  {
  }

  /** The CA at the start is rejected though it outlasts the one that would replace it. */
  predicate OutlastsReplacement(w: World) {
    Rejected(w) && DueTime(w.now) < w.ca.cert.value.notAfter
  }

  lemma {:induction false} ExpiresBeforeDueThroughout(ws: seq<World>, es: seq<Event>, i: nat)
    requires IsRun(ws, es) && i < |ws| && ws[0].ca.oldCert.None? && !OutlastsReplacement(ws[0])
    ensures ExpiresBeforeDue(ws[0], ws[i])
  {
    if i > 0 {
      ExpiresBeforeDueThroughout(ws, es, i - 1);
      var w, e, w' := ws[i - 1], es[i - 1], ws[i];
      assert Next(w, e, w');
      if e.RotateCA? {
        GeneratedUntilDue(w.nextKey, w.now);
        DueTimeGrows(ws[0].now, w.now);
      }
    }
  }

  /** The second rotation comes as soon as the first one's CA is due, and overwrites a CA that is still valid. */
  lemma TwoRotations(w: World) returns (ws: seq<World>, es: seq<Event>)
    requires OutlastsReplacement(w)
    ensures IsRun(ws, es) && |es| == 3 && ws[0] == w && es[2].RotateCA? && HasCA(ws[2].ca)
    ensures ws[2].ca.oldCert.Some? && ws[2].now <= ws[2].ca.oldCert.value.notAfter
  {
    var w1 := w.(ca := RotatedCA(w), nextKey := w.nextKey + 1);
    var w2 := w1.(now := DueTime(w.now) + 1);
    GeneratedUntilDue(w.nextKey, w.now);
    var w3 := w2.(ca := RotatedCA(w2), nextKey := w2.nextKey + 1);
    ws, es := [w, w1, w2, w3], [RotateCA, Advance(w2.now), RotateCA];
    assert Next(w, RotateCA, w1) && Next(w1, Advance(w2.now), w2) && Next(w2, RotateCA, w3);
  }

  /** Starting with an empty slot, no rotation overwrites a valid CA, exactly if the CA at the start is not rejected
      while it outlasts the one that would replace it. */
  lemma OverwritesOnlyExpiredExactly(w: World)
    requires w.ca.oldCert.None?
    ensures OverwritesOnlyExpired(w) <==> !OutlastsReplacement(w)
  {
    if OutlastsReplacement(w) {
      var ws, es := TwoRotations(w);
      assert RotationFrom(w, ws, es, 2);
    } else {
      forall ws: seq<World>, es: seq<Event>, i: nat | RotationFrom(w, ws, es, i) && ws[i].ca.oldCert.Some?
        ensures ws[i].ca.oldCert.value.notAfter < ws[i].now
      {
        ExpiresBeforeDueThroughout(ws, es, i);
        assert Next(ws[i], es[i], ws[i + 1]);
      }
    }
  }

  /** Every stored certificate belongs to the private key stored beside it. */
  ghost predicate KeysMatch(w: World) {
    && (HasCA(w.ca) ==> w.ca.key.value == w.ca.cert.value.key)
    && forall id :: id in w.servers && HasCert(w.servers[id]) ==>
                      w.servers[id].key.value == w.servers[id].cert.value.key
  }

  lemma {:induction false} KeysMatchThroughout(ws: seq<World>, es: seq<Event>, i: nat)
    requires IsRun(ws, es) && i < |ws| && KeysMatch(ws[0])
    ensures KeysMatch(ws[i])
  {
    if i > 0 {
      KeysMatchThroughout(ws, es, i - 1);
      assert Next(ws[i - 1], es[i - 1], ws[i]);
    }
  }

  /** A certificate issued at `t` is due again exactly from 305 days later on, less the fraction of a second that X.509
      cuts off, as long as the CA that signed it verifies ahead. */
  lemma ReissueDue(w: World, id: Server, later: Time)
    requires HasCA(w.ca) && w.ca.cert.value.isCA && SignedSecret(w, id).Some? && w.now <= later
    requires WithinWindow(w.ca.cert.value, later + CERT_LOOKAHEAD)
    ensures var s := SignedSecret(w, id).value;
            !ServerVerifies(w.cfg, id, s, [w.ca.cert.value], later + CERT_LOOKAHEAD)
            <==> w.now + 305 * DAY - w.now % SECOND < later
  {
    var s, ca := SignedSecret(w, id).value, w.ca.cert.value;
    assert ca in [ca] && ChainsTo(s.cert.value, ca, later + CERT_LOOKAHEAD);
    assert s.cert.value.notAfter == WholeSeconds(w.now + SERVER_CERT_EXPIRATION);
    assert WholeSeconds(w.now + SERVER_CERT_EXPIRATION) == w.now + SERVER_CERT_EXPIRATION - w.now % SECOND by {
      assert SERVER_CERT_EXPIRATION == 31_536_000 * SECOND;
    }
  }

  /** Policy servers have different DNS names, and one shares the name of the controller's webhook server exactly if it
      is called like its service. */
  lemma ServersAreTold(cfg: Config, a: string, b: string)
    ensures Dns(cfg, PolicyServerSecret(a)) == Dns(cfg, PolicyServerSecret(b)) <==> a == b
    ensures Dns(cfg, PolicyServerSecret(a)) == Dns(cfg, WebhookServer) <==> a == cfg.webhookService
  {
    DNSNamesDiffer(a, cfg.namespace, b, cfg.namespace);
    DNSNamesDiffer(a, cfg.namespace, cfg.webhookService, cfg.namespace);
  }

  /** No secret serves two servers of different DNS names. */
  lemma OneServerEach(cfg: Config, a: Server, b: Server, s: ServerSecret, pool: seq<Certificate>, t: Time, u: Time)
    requires Dns(cfg, a) != Dns(cfg, b)
    ensures !(ServerVerifies(cfg, a, s, pool, t) && ServerVerifies(cfg, b, s, pool, u))
  {
  }

  /** The server certificate in `w` that `e` issues, if it issues one. */
  ghost predicate Issues(e: Event, id: Server) {
    e == ReissueCert(id) || e == IssueCert(id)
  }

  /** Stored keys keep matching wherever a pass stops, and every certificate issued along the run is signed by a CA
      that the secret already held. */
  lemma IssuedUnderStoredCA(ws: seq<World>, es: seq<Event>, i: nat, id: Server)
    requires IsRun(ws, es) && KeysMatch(ws[0]) && i < |es| && Issues(es[i], id)
    ensures KeysMatch(ws[i]) && KeysMatch(ws[i + 1])
    ensures HasCA(ws[i].ca) && id in ws[i + 1].servers && HasCert(ws[i + 1].servers[id])
    ensures ws[i + 1].servers[id].cert.value.signer == ws[i].ca.cert.value.key
    ensures ws[i + 1].ca == ws[i].ca
    ensures VouchesForNothing(ws[i + 1].servers[id].cert.value)
  {
    KeysMatchThroughout(ws, es, i);
    KeysMatchThroughout(ws, es, i + 1);
    assert Next(ws[i], es[i], ws[i + 1]);
  }
}
