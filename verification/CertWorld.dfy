/** The objects certificate rotation works on, and every atomic change they can undergo. */
module CertWorld {
  import opened Prelude
  import opened Certs

  /** The CA root secret: ca.crt, ca.key and old-ca.crt, each possibly missing. */
  datatype CASecret = CASecret(cert: Option<Certificate>, key: Option<Key>, oldCert: Option<Certificate>)

  /** A server secret: tls.crt and tls.key. */
  datatype ServerSecret = ServerSecret(cert: Option<Certificate>, key: Option<Key>)

  /** The webhook server of the controller, or the secret of a policy server. */
  datatype Server = WebhookServer | PolicyServerSecret(name: string)

  datatype HookKind = Validating | Mutating
  datatype HookId = HookId(kind: HookKind, name: string)

  /** A webhook configuration: whether it carries the part-of label, and the CA bundle of each of its webhooks. */
  datatype Hook = Hook(labelled: bool, bundles: seq<seq<Certificate>>)

  datatype Config = Config(namespace: string, webhookService: string)

  /** `nextKey` is the next unused key pair; `completed` is when the last error-free pass started. */
  datatype World = World(
    cfg: Config, now: Time, ca: CASecret, servers: map<Server, ServerSecret>, hooks: map<HookId, Hook>,
    nextKey: Key, completed: Option<Time>)

  datatype Event =
    | Advance(to: Time)
    | RotateCA
    | DropOldCA
    | WriteHook(id: HookId, hook: Hook)
    | DeleteHook(id: HookId)
    | ReissueCert(server: Server)
    | IssueCert(server: Server)
    | DeleteServer(server: Server)
    | CompletePass(start: Time)

  predicate IsWrite(e: Event) {
    !e.Advance? && !e.CompletePass?
  }

  function Dns(cfg: Config, s: Server): (r: string)
    ensures r != ""
  {
    match s
    case WebhookServer => DNSName(cfg.webhookService, cfg.namespace)
    case PolicyServerSecret(name) => DNSName(name, cfg.namespace)
  }

  /** ExtractCARootFromSecret succeeds. */
  predicate HasCA(ca: CASecret) {
    ca.cert.Some? && ca.key.Some?
  }

  /** ExtractServerCertFromSecret succeeds. */
  predicate HasCert(s: ServerSecret) {
    s.cert.Some? && s.key.Some?
  }

  predicate CAVerifiesAhead(ca: CASecret, now: Time)
    requires HasCA(ca)
  {
    VerifyCA(ca.cert.value, ca.key, now + CERT_LOOKAHEAD)
  }

  predicate OldVerifies(oldCert: Certificate, now: Time) {
    VerifyCA(oldCert, None, now)
  }

  predicate ServerVerifies(cfg: Config, id: Server, s: ServerSecret, pool: seq<Certificate>, t: Time) {
    HasCert(s) && VerifyCert(s.cert.value, s.key, pool, Dns(cfg, id), t)
  }

  function RotatedCA(w: World): (ca: CASecret)
    requires HasCA(w.ca)
  {
    CASecret(Some(GenerateCA(w.nextKey, w.now, w.now + CA_CERT_EXPIRATION)), Some(w.nextKey), w.ca.cert)
  }

  /** The secret holding a certificate freshly signed by the current CA, if the CA can sign. */
  function SignedSecret(w: World, id: Server): (r: Option<ServerSecret>)
    requires HasCA(w.ca)
  {
    match GenerateCert(
            w.ca.cert.value, w.ca.key.value, w.now, w.now + SERVER_CERT_EXPIRATION, Dns(w.cfg, id), w.nextKey)
    case None => None
    case Some(c) => Some(ServerSecret(Some(c), Some(w.nextKey)))
  }

  function WithServer(w: World, id: Server, s: ServerSecret): World {
    w.(servers := w.servers[id := s], nextKey := w.nextKey + 1)
  }

  predicate IssuedBy(c: Certificate, root: Certificate) {
    c == root || c.signer == root.key
  }

  ghost predicate ServerSettled(w: World, id: Server, start: Time)
    requires HasCA(w.ca) && id in w.servers
  {
    var s := w.servers[id];
    && HasCert(s)
    && s.key.value == s.cert.value.key
    && s.cert.value.dnsName == Dns(w.cfg, id)
    && start + CERT_LOOKAHEAD <= s.cert.value.notAfter
    && IssuedBy(s.cert.value, w.ca.cert.value)
  }

  /** The state in which a pass that started at `start` may end without error. */
  ghost predicate Settled(w: World, start: Time) {
    && HasCA(w.ca)
    && w.ca.key.value == w.ca.cert.value.key
    && start + CERT_LOOKAHEAD <= w.ca.cert.value.notAfter
    && forall id :: id in w.servers ==> ServerSettled(w, id, start)
  }

  /** One atomic change of the API server's objects, by any controller. */
  ghost predicate Next(w: World, e: Event, w': World) {
    match e
    case Advance(to) => w.now <= to && w' == w.(now := to)
    case RotateCA =>
      && HasCA(w.ca) && !CAVerifiesAhead(w.ca, w.now)
      && w' == w.(ca := RotatedCA(w), nextKey := w.nextKey + 1)
    case DropOldCA =>
      && HasCA(w.ca) && w.ca.oldCert.Some? && !OldVerifies(w.ca.oldCert.value, w.now)
      && w' == w.(ca := w.ca.(oldCert := None))
    case WriteHook(id, hook) => w' == w.(hooks := w.hooks[id := hook])
    case DeleteHook(id) => w' == w.(hooks := w.hooks - {id})
    case ReissueCert(id) =>
      && HasCA(w.ca) && id in w.servers && HasCert(w.servers[id])
      && !ServerVerifies(w.cfg, id, w.servers[id], [w.ca.cert.value], w.now + CERT_LOOKAHEAD)
      && SignedSecret(w, id).Some?
      && w' == WithServer(w, id, SignedSecret(w, id).value)
    case IssueCert(id) =>
      && HasCA(w.ca) && id.PolicyServerSecret? && (id in w.servers ==> !HasCert(w.servers[id]))
      && SignedSecret(w, id).Some?
      && w' == WithServer(w, id, SignedSecret(w, id).value)
    case DeleteServer(id) => w' == w.(servers := w.servers - {id})
    case CompletePass(start) =>
      && start <= w.now && Settled(w, start)
      && w' == w.(completed := Some(start))
  }

  /** `ws[i + 1]` follows from `ws[i]` by `es[i]`. */
  ghost predicate IsRun(ws: seq<World>, es: seq<Event>) {
    && |ws| == |es| + 1
    && forall i :: 0 <= i < |es| ==> Next(ws[i], es[i], ws[i + 1])
  }
}
