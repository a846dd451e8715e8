/** The policy controller's pass over a live policy, while everything it reads may change between two reads. (What it
    does with a policy that is being deleted is in LifecycleController.) */
module PolicyController {
  import opened Prelude
  import opened UniqueNames
  import opened PolicyConfig
  import opened Certs
  import opened CertWorld
  import opened Reachability
  import opened PolicyStatus

  datatype PolicySpec = PolicySpec(server: string, uniqueName: string, mutating: bool)

  /** The objects of one policy server. */
  datatype Cluster = Cluster(
    hasServer: bool, deployment: Option<Deployment>, configMap: Option<ConfigMap>,
    replicaSets: seq<ReplicaSet>, pods: seq<Pod>, caCert: Option<string>)

  /** What each API call would see, and whether it fails. */
  datatype Environment = Environment(seen: nat -> Cluster, fails: nat -> bool)

  datatype Webhook = Webhook(service: string, path: string, bundle: string)

  /** The path is the same for both kinds of webhook. */
  function WebhookFor(p: PolicySpec, bundle: string): Webhook {
    Webhook(NameWithPrefix(p.server), "/validate/" + p.uniqueName, bundle)
  }

  /** Webhooks lead to the same service exactly for the same policy server, and to the same path exactly for the same
      unique name; and the service's certificate is made out to its name in the given namespace. */
  lemma WebhookLeadsToPolicy(p: PolicySpec, q: PolicySpec, b: string, c: string, cfg: Config)
    ensures WebhookFor(p, b).service == WebhookFor(q, c).service <==> p.server == q.server
    ensures WebhookFor(p, b).path == WebhookFor(q, c).path <==> p.uniqueName == q.uniqueName
    ensures var w := WebhookFor(p, b);
            Dns(cfg, PolicyServerSecret(NameWithPrefix(p.server))) == DNSName(w.service, cfg.namespace)
  {
    var pre, path := "policy-server-", "/validate/";
    assert p.server == (pre + p.server)[|pre|..] && q.server == (pre + q.server)[|pre|..];
    assert p.uniqueName == (path + p.uniqueName)[|path|..] && q.uniqueName == (path + q.uniqueName)[|path|..];
  }

  datatype Result = Finished | Requeue | RequeueAfter | Failed

  /** The policy is uniquely reachable according to the three reads that start at call `t`. */
  ghost predicate ReachedAt(e: Environment, d: Deployment, name: string, t: nat) {
    !e.fails(t) && !e.fails(t + 1) && !e.fails(t + 2) && e.seen(t).configMap.Some?
    && UniquelyReachable(d, e.seen(t).configMap.value, e.seen(t + 1).replicaSets, e.seen(t + 2).pods, name)
  }

  ghost function WebhookStageAt(e: Environment, t: nat): Stage {
    if e.fails(t) || e.seen(t).caCert.None? then NoSecret else if e.fails(t + 1) then NoWebhook else Done
  }

  ghost function ScheduledStageAt(e: Environment, p: PolicySpec, t: nat): Stage {
    if e.fails(t) then DeploymentError
    else if e.seen(t).deployment.None? then NoDeployment
    else if !ReachedAt(e, e.seen(t).deployment.value, p.uniqueName, t + 1) then NotReached
    else WebhookStageAt(e, t + 4)
  }

  /** The ConfigMap seen at call `t` contains the policy, and all pods seen two calls later, at least one, are ready and
      belong to a ReplicaSet seen in between, of the deployment's revision and the ConfigMap's version. */
  ghost predicate SeenServing(e: Environment, d: Deployment, name: string, t: nat) {
    && e.seen(t).configMap.Some?
    && e.seen(t).configMap.value.policies.Some? && name in e.seen(t).configMap.value.policies.value
    && PodsRunVersion(e.seen(t + 1).replicaSets, e.seen(t + 2).pods, d.revision,
                      e.seen(t).configMap.value.resourceVersion)
  }

  lemma ReachedMeans(e: Environment, d: Deployment, name: string, t: nat)
    requires ReachedAt(e, d, name, t)
    ensures SeenServing(e, d, name, t)
  {
    OnlyRunningMeans(d, e.seen(t).configMap.value.resourceVersion, e.seen(t + 1).replicaSets, e.seen(t + 2).pods);
  }

  /** How far a pass gets whose first API call has number `t`. */
  ghost function StageAt(e: Environment, p: PolicySpec, t: nat): Stage {
    if p.server == "" then NoServerNamed
    else if e.fails(t) || !e.seen(t).hasServer then NoServer
    else ScheduledStageAt(e, p, t + 1)
  }

  ghost function ModeAt(e: Environment, p: PolicySpec, t: nat): ModeRead {
    if e.fails(t) then ModeFailed
    else if e.seen(t).deployment.None? then ModeSkipped
    else if e.fails(t + 1) || e.seen(t + 1).configMap.None? then ModeFailed
    else
      var cm := e.seen(t + 1).configMap.value;
      ModeFound(ModeIn(cm, p.uniqueName), VersionReason(e.seen(t).deployment.value, cm))
  }

  function ResultOf(s: Stage): Result {
    match s
    case NoServerNamed => Finished
    case NoServer => Finished
    case NoDeployment => Requeue
    case NotReached => RequeueAfter
    case Done => Finished
    case _ => Failed
  }

  /** A pass whose outcome is not stored fails. */
  function ResultOfPass(p: Pass): Result {
    if Persists(p) then ResultOf(p.stage) else Failed
  }

  /** `stored` is the policy's persisted status; `webhooks` its webhooks, by whether they are mutating. */
  class ApiServer {
    const env: Environment
    var calls: nat
    var stored: Status
    var webhooks: map<bool, Webhook>

    constructor (env: Environment, stored: Status, webhooks: map<bool, Webhook>)
      ensures this.env == env && calls == 0 && this.stored == stored && this.webhooks == webhooks
    {
      this.env, calls, this.stored, this.webhooks := env, 0, stored, webhooks;
    }

    method Read() returns (ok: bool, c: Cluster)
      modifies `calls
      ensures calls == old(calls) + 1 && ok == !env.fails(old(calls)) && c == env.seen(old(calls))
    {
      ok, c, calls := !env.fails(calls), env.seen(calls), calls + 1;
    }

    method WriteWebhook(mutating: bool, w: Webhook) returns (ok: bool)
      modifies `calls, `webhooks
      ensures calls == old(calls) + 1 && ok == !env.fails(old(calls))
      ensures webhooks == if ok then old(webhooks)[mutating := w] else old(webhooks)
    {
      ok, calls := !env.fails(calls), calls + 1;
      if ok { webhooks := webhooks[mutating := w]; }
    }

    method UpdateStatus(s: Status) returns (ok: bool)
      modifies `calls, `stored
      ensures calls == old(calls) + 1 && ok == !env.fails(old(calls))
      ensures stored == if ok then s else old(stored)
    {
      ok, calls := !env.fails(calls), calls + 1;
      if ok { stored := s; }
    }
  }

  /** The policy as the controller holds it in memory. */
  class PolicyObject {
    const spec: PolicySpec
    var status: Status

    constructor (spec: PolicySpec, status: Status)
      ensures this.spec == spec && this.status == status
    {
      this.spec, this.status := spec, status;
    }

    method SetStatusCondition(c: Condition)
      modifies this
      ensures status == old(status).(conditions := SetCondition(old(status).conditions, c))
    {
      status := status.(conditions := SetCondition(status.conditions, c));
    }

    method SetStatus(k: StatusKind)
      modifies this
      ensures status == old(status).(kind := k)
    {
      status := status.(kind := k);
    }

    method SetPendingUnlessActive()
      modifies this
      ensures status == old(status).(kind := PendingUnlessActive(old(status).kind))
    {
      if status.kind != Active {
        SetStatus(Pending);
      }
    }

    method SetModeStatus(m: string)
      modifies this
      ensures status == old(status).(mode := m)
    {
      status := status.(mode := m);
    }
  }

  lemma RunningExactly(d: Deployment, version: string, rss: seq<ReplicaSet>, pods: seq<Pod>, i: int)
    requires FirstLatest(rss, d, version, i) && rss[i].hash != ""
    ensures OnlyVersionRunning(d, version, rss, pods) <==> AllServe(pods, rss[i].hash)
  {
  }

  /** Reads the ReplicaSets and then the pods. */
  method IsOnlyVersionRunning(api: ApiServer, d: Deployment, version: string) returns (running: bool)
    modifies api`calls
    ensures var t := old(api.calls);
            running == (!api.env.fails(t) && !api.env.fails(t + 1)
                        && OnlyVersionRunning(d, version, api.env.seen(t).replicaSets, api.env.seen(t + 1).pods))
    ensures old(api.calls) < api.calls <= old(api.calls) + 2 && (running ==> api.calls == old(api.calls) + 2)
  {
    running := false;
    var ok, c := api.Read();
    if ok {
      ghost var rss := c.replicaSets;
      var hash, i := LatestTemplate(c.replicaSets, d, version);
      if hash != "" {
        ok, c := api.Read();
        if ok {
          running := PodsServe(c.pods, hash);
          RunningExactly(d, version, rss, c.pods, i);
        }
      }
    }
  }

  /** Reads the ConfigMap, the ReplicaSets and the pods one after the other, and stops as soon as the answer is no. */
  method IsPolicyUniquelyReachable(api: ApiServer, d: Deployment, name: string) returns (reachable: bool)
    modifies api`calls
    ensures reachable == ReachedAt(api.env, d, name, old(api.calls))
    ensures old(api.calls) < api.calls && (reachable ==> api.calls == old(api.calls) + 3)
    // In terms of what was seen: the ConfigMap has the policy, and all pods run that very version of it.
    ensures reachable ==> SeenServing(api.env, d, name, old(api.calls))
    ensures api.calls <= old(api.calls) + 3
  {
    reachable := false;
    var ok, c := api.Read();
    if ok && c.configMap.Some? && IsPolicyInConfigMap(c.configMap.value, name) {
      reachable := IsOnlyVersionRunning(api, d, c.configMap.value.resourceVersion);
    }
    if reachable { ReachedMeans(api.env, d, name, old(api.calls)); }
  }

  method SetPolicyAsActive(policy: PolicyObject)
    modifies policy
    ensures policy.status == AsActive(old(policy.status))
  {
    policy.SetStatus(Active);
    policy.SetStatusCondition(ACTIVATED);
  }

  /** The last part of a pass: the CA is read and the webhook of the policy's kind is written with it. */
  method ReconcileWebhook(api: ApiServer, policy: PolicyObject) returns (result: Result, ghost stage: Stage)
    modifies api`calls, api`webhooks, policy
    ensures stage == WebhookStageAt(api.env, old(api.calls)) && result == ResultOf(stage)
    ensures old(api.calls) <= api.calls <= old(api.calls) + 2
    ensures stage != Done ==> policy.status == old(policy.status) && api.webhooks == old(api.webhooks)
    ensures stage == Done ==>
              && policy.status == AsActive(old(policy.status))
              && api.webhooks == old(api.webhooks)[policy.spec.mutating :=
                   WebhookFor(policy.spec, api.env.seen(old(api.calls)).caCert.value)]
  {
    result, stage := Failed, NoSecret;
    var ok, c := api.Read();
    if ok && c.caCert.Some? {
      ok := api.WriteWebhook(policy.spec.mutating, WebhookFor(policy.spec, c.caCert.value));
      if ok {
        SetPolicyAsActive(policy);
        result, stage := Finished, Done;
      } else {
        stage := NoWebhook;
      }
    }
  }

  /** The rest of a pass, once the policy server is known to exist. */
  method ReconcileScheduled(api: ApiServer, policy: PolicyObject) returns (result: Result, ghost stage: Stage)
    modifies api`calls, api`webhooks, policy
    ensures stage == ScheduledStageAt(api.env, policy.spec, old(api.calls)) && result == ResultOf(stage)
    ensures policy.status == Proceed(old(policy.status), stage)
    ensures old(api.calls) <= api.calls <= old(api.calls) + 6
    ensures stage != Done ==> api.webhooks == old(api.webhooks)
    ensures stage == Done ==>
              api.webhooks == old(api.webhooks)[policy.spec.mutating :=
                WebhookFor(policy.spec, api.env.seen(old(api.calls) + 4).caCert.value)]
  {
    var ok, c := api.Read();
    if !ok {
      result, stage := Failed, DeploymentError;
    } else if c.deployment.None? {
      result, stage := Requeue, NoDeployment;
    } else {
      var reachable := IsPolicyUniquelyReachable(api, c.deployment.value, policy.spec.uniqueName);
      if !reachable {
        policy.SetStatusCondition(UNREACHABLE);
        result, stage := RequeueAfter, NotReached;
      } else {
        policy.SetStatusCondition(REACHABLE);
        result, stage := ReconcileWebhook(api, policy);
      }
    }
  }

  method ReconcilePolicy(api: ApiServer, policy: PolicyObject) returns (result: Result, ghost stage: Stage)
    modifies api`calls, api`webhooks, policy
    ensures stage == StageAt(api.env, policy.spec, old(api.calls)) && result == ResultOf(stage)
    ensures policy.status == AfterStage(old(policy.status), stage)
    ensures old(api.calls) <= api.calls <= old(api.calls) + 7
    ensures stage != Done ==> api.webhooks == old(api.webhooks)
    ensures stage == Done ==>
              api.webhooks == old(api.webhooks)[policy.spec.mutating :=
                WebhookFor(policy.spec, api.env.seen(old(api.calls) + 5).caCert.value)]
  {
    policy.SetStatusCondition(INACTIVE);
    if policy.spec.server == "" {
      policy.SetStatus(Unscheduled);
      result, stage := Finished, NoServerNamed;
    } else {
      var ok, c := api.Read();
      if !ok || !c.hasServer {
        policy.SetStatus(Scheduled);
        result, stage := Finished, NoServer;
      } else {
        policy.SetPendingUnlessActive();
        result, stage := ReconcileScheduled(api, policy);
      }
    }
  }

  /** The ConfigMap has the name of the deployment. */
  method SetPolicyModeStatus(api: ApiServer, policy: PolicyObject) returns (ok: bool, ghost m: ModeRead)
    modifies api`calls, policy
    ensures m == ModeAt(api.env, policy.spec, old(api.calls)) && ok == !m.ModeFailed?
    ensures policy.status == AfterMode(old(policy.status), m)
    ensures old(api.calls) <= api.calls && (ok ==> api.calls == old(api.calls) + if m.ModeSkipped? then 1 else 2)
  {
    var found, c := api.Read();
    if !found { return false, ModeFailed; }
    if c.deployment.None? { return true, ModeSkipped; }
    var d := c.deployment.value;
    found, c := api.Read();
    if !found || c.configMap.None? { return false, ModeFailed; }
    var cm := c.configMap.value;
    policy.SetModeStatus(ModeIn(cm, policy.spec.uniqueName));
    policy.SetStatusCondition(UpToDate(VersionReason(d, cm)));
    return true, ModeFound(ModeIn(cm, policy.spec.uniqueName), VersionReason(d, cm));
  }

  /** The status update follows the reads of the mode, which begin at call `u`. */
  ghost predicate SavedAt(e: Environment, m: ModeRead, u: nat) {
    match m
    case ModeFailed => false
    case ModeSkipped => !e.fails(u + 1)
    case ModeFound(_, _) => !e.fails(u + 2)
  }

  /** The pass that `p` describes took place from call `t` on. */
  ghost predicate TookPlace(e: Environment, spec: PolicySpec, t: nat, p: Pass) {
    p.stage == StageAt(e, spec, t)
    && exists u :: t <= u <= t + 7 && p.mode == ModeAt(e, spec, u) && p.saved == SavedAt(e, p.mode, u)
  }

  /** One whole pass, starting from the stored status. */
  method Reconcile(api: ApiServer, spec: PolicySpec) returns (result: Result, ghost pass: Pass)
    modifies api
    ensures TookPlace(api.env, spec, old(api.calls), pass)
    ensures api.stored == Persisted(old(api.stored), pass)
    ensures old(api.calls) <= api.calls
    ensures result == ResultOfPass(pass)
    ensures pass.stage != Done ==> api.webhooks == old(api.webhooks)
    ensures pass.stage == Done ==>
              api.webhooks == old(api.webhooks)[spec.mutating :=
                WebhookFor(spec, api.env.seen(old(api.calls) + 5).caCert.value)]
  {
    var policy := new PolicyObject(spec, api.stored);
    ghost var stage, mode;
    result, stage := ReconcilePolicy(api, policy);
    var ok;
    ok, mode := SetPolicyModeStatus(api, policy);
    if !ok { return Failed, Pass(stage, mode, false); }
    ok := api.UpdateStatus(policy.status);
    pass := Pass(stage, mode, ok);
    if !ok { result := Failed; }
  }

  /** At call `t` a pass began that went all the way: what it saw, read by read. */
  ghost predicate ActivatedAt(e: Environment, p: PolicySpec, t: nat) {
    && e.seen(t).hasServer
    && e.seen(t + 1).deployment.Some?
    && e.seen(t + 2).configMap.Some?
    && UniquelyReachable(e.seen(t + 1).deployment.value, e.seen(t + 2).configMap.value,
                         e.seen(t + 3).replicaSets, e.seen(t + 4).pods, p.uniqueName)
    && SeenServing(e, e.seen(t + 1).deployment.value, p.uniqueName, t + 2)
    && e.seen(t + 5).caCert.Some?
  }

  /** The webhook of the policy's kind leads to the policy, with whatever CA. */
  ghost predicate HasWebhook(webhooks: map<bool, Webhook>, p: PolicySpec) {
    p.mutating in webhooks && webhooks[p.mutating] == WebhookFor(p, webhooks[p.mutating].bundle)
  }

  /** Pass `j` is the last one before status `i` that persisted anything, and it went all the way. */
  ghost predicate ActivatedBy(e: Environment, p: PolicySpec, ps: seq<Pass>, starts: seq<nat>, i: nat, j: nat)
    requires |starts| == |ps| && i <= |ps|
  {
    && j < i && Persists(ps[j]) && ps[j].stage == Done && ActivatedAt(e, p, starts[j])
    && forall k :: j < k < i ==> !Persists(ps[k])
  }

  ghost predicate AnyDone(ps: seq<Pass>) {
    exists j :: 0 <= j < |ps| && ps[j].stage == Done
  }

  ghost predicate AllTookPlace(e: Environment, spec: PolicySpec, starts: seq<nat>, ps: seq<Pass>) {
    |ps| == |starts| && forall j :: 0 <= j < |ps| ==> TookPlace(e, spec, starts[j], ps[j])
  }

  lemma OneMorePass(
    e: Environment, spec: PolicySpec, ss: seq<Status>, ps: seq<Pass>, starts: seq<nat>, t: nat, p: Pass)
    requires IsHistory(ss, ps) && AllTookPlace(e, spec, starts, ps) && TookPlace(e, spec, t, p)
    ensures IsHistory(ss + [Persisted(ss[|ps|], p)], ps + [p])
    ensures AllTookPlace(e, spec, starts + [t], ps + [p])
    ensures AnyDone(ps + [p]) ==> AnyDone(ps) || p.stage == Done
  {
  }

  lemma DoneMeansActivated(e: Environment, spec: PolicySpec, t: nat)
    requires StageAt(e, spec, t) == Done
    ensures ActivatedAt(e, spec, t)
  {
    ReachedMeans(e, e.seen(t + 1).deployment.value, spec.uniqueName, t + 2);
  }

  lemma DonePass(ss: seq<Status>, ps: seq<Pass>, n: nat) returns (j: nat)
    requires IsHistory(ss, ps) && n <= |ps| && LastPassDone(ss, ps, n) && !IsTrue(ss[0].conditions, PolicyActive)
    ensures j < n && ps[j].stage == Done && Persists(ps[j]) && forall k :: j < k < n ==> !Persists(ps[k])
  {
    if Persists(ps[n - 1]) { j := n - 1; } else { j := DonePass(ss, ps, n - 1); }
  }

  lemma HistoryIsSound(e: Environment, spec: PolicySpec, ss: seq<Status>, ps: seq<Pass>, starts: seq<nat>)
    requires IsHistory(ss, ps) && AllTookPlace(e, spec, starts, ps)
    requires Sound(ss[0]) && !IsTrue(ss[0].conditions, PolicyActive)
    ensures forall i :: 0 <= i < |ss| ==> Sound(ss[i])
    ensures forall i :: 0 <= i < |ss| && IsTrue(ss[i].conditions, PolicyActive) ==>
                          exists j: nat :: ActivatedBy(e, spec, ps, starts, i, j)
    ensures IsTrue(ss[|ps|].conditions, PolicyActive) ==> AnyDone(ps)
    ensures ss[0].kind != Active ==> forall i :: 0 <= i < |ss| && ss[i].kind == Active ==>
                                       exists j :: 0 <= j < i && ActivatedAt(e, spec, starts[j])
  {
    forall i | 0 <= i < |ss| && ss[0].kind != Active && ss[i].kind == Active
      ensures exists j :: 0 <= j < i && ActivatedAt(e, spec, starts[j])
    {
      var j := ActiveSince(ss, ps, i);
      assert TookPlace(e, spec, starts[j], ps[j]);
      DoneMeansActivated(e, spec, starts[j]);
    }
    forall i | 0 <= i < |ss|
      ensures Sound(ss[i])
      ensures IsTrue(ss[i].conditions, PolicyActive) ==> exists j: nat :: ActivatedBy(e, spec, ps, starts, i, j)
    {
      StatusesAlwaysSound(ss, ps, i);
      if LastPassDone(ss, ps, i) {
        var j := DonePass(ss, ps, i);
        assert TookPlace(e, spec, starts[j], ps[j]);
        DoneMeansActivated(e, spec, starts[j]);
        assert ActivatedBy(e, spec, ps, starts, i, j);
      }
    }
  }

  /** Any number of passes, whatever changes between their reads and whichever calls fail: a persisted status says
      PolicyActive only if the last pass that persisted anything found the policy uniquely reachable and then wrote its
      webhook. */
  method ReconcileRepeatedly(api: ApiServer, spec: PolicySpec, n: nat)
    returns (ghost ss: seq<Status>, ghost ps: seq<Pass>, ghost starts: seq<nat>)
    requires Sound(api.stored) && !IsTrue(api.stored.conditions, PolicyActive)
    modifies api
    ensures IsHistory(ss, ps) && |ps| == |starts| == n && ss[0] == old(api.stored) && ss[n] == api.stored
    ensures AllTookPlace(api.env, spec, starts, ps)
    ensures forall i :: 0 <= i <= n ==> Sound(ss[i])
    ensures forall i :: 0 <= i <= n && IsTrue(ss[i].conditions, PolicyActive) ==>
                          exists j: nat :: ActivatedBy(api.env, spec, ps, starts, i, j)
    ensures IsTrue(api.stored.conditions, PolicyActive) ==> HasWebhook(api.webhooks, spec)
    // A policy that was not active to begin with becomes so by such a pass only.
    ensures ss[0].kind != Active ==> forall i :: 0 <= i <= n && ss[i].kind == Active ==>
                                       exists j :: 0 <= j < i && ActivatedAt(api.env, spec, starts[j])
  {
    ss, ps, starts := [api.stored], [], [];
    for i := 0 to n
      invariant IsHistory(ss, ps) && |ps| == |starts| == i && ss[0] == old(api.stored) && ss[i] == api.stored
      invariant AllTookPlace(api.env, spec, starts, ps)
      invariant AnyDone(ps) ==> HasWebhook(api.webhooks, spec)
    {
      ghost var t := api.calls;
      var _, p := Reconcile(api, spec);
      OneMorePass(api.env, spec, ss, ps, starts, t, p);
      starts, ps, ss := starts + [t], ps + [p], ss + [api.stored];
    }
    HistoryIsSound(api.env, spec, ss, ps, starts);
  }

  /** All calls after the one for the policy server go through, and show the policy uniquely reachable. */
  ghost predicate GoesThrough(e: Environment, p: PolicySpec, t: nat) {
    && !e.fails(t + 1) && e.seen(t + 1).deployment.Some?
    && ReachedAt(e, e.seen(t + 1).deployment.value, p.uniqueName, t + 2)
    && !e.fails(t + 5) && e.seen(t + 5).caCert.Some? && !e.fails(t + 6)
  }

  /** The status that a persisting pass leaves, by what its calls saw: unscheduled without a named server, scheduled if
      that was not found, active if it was and either the policy was active before or everything went through, and
      pending otherwise. */
  lemma KindByCalls(e: Environment, p: PolicySpec, t: nat, s: Status, pass: Pass)
    requires TookPlace(e, p, t, pass) && Persists(pass)
    ensures var k, found := Persisted(s, pass).kind, p.server != "" && !e.fails(t) && e.seen(t).hasServer;
            && (k == Unscheduled <==> p.server == "")
            && (k == Scheduled <==> p.server != "" && !found)
            && (k == Active <==> found && (s.kind == Active || GoesThrough(e, p, t)))
            && (k == Pending <==> found && s.kind != Active && !GoesThrough(e, p, t))
  {
    KindExactly(s, pass);
  }

  /** A pass is not retried exactly if it persists and either found no server or went through: an activation that did
      not come about always is. */
  lemma NotRetriedExactly(e: Environment, p: PolicySpec, t: nat, pass: Pass)
    requires TookPlace(e, p, t, pass)
    ensures ResultOfPass(pass) == Finished <==>
              Persists(pass) && (p.server == "" || e.fails(t) || !e.seen(t).hasServer || GoesThrough(e, p, t))
  {
  }

  /** The mode stored by a persisting pass that reads a configuration built from all the server's policies is the
      policy's own, if that configuration is readable, and unknown otherwise. */
  lemma ModeStored(
    e: Environment, p: PolicySpec, u: nat, s: Status, pass: Pass, ps: seq<Policy>, i: nat, version: string)
    requires Persists(pass) && pass.mode == ModeAt(e, p, u) && e.seen(u).deployment.Some?
    requires e.seen(u + 1).configMap == Some(Stored(version, Some(MarshalMap(PoliciesMap(ps)))))
    requires i < |ps| && LastOfItsName(ps, i) && p.uniqueName == UniqueName(ps[i].Id())
    ensures var readable := forall j :: 0 <= j < |ps| && LastOfItsName(ps, j) ==> Readable(ps[j]);
            Persisted(s, pass).mode == if readable then ModeOf(ps[i]) else MODE_UNKNOWN
  {
    ModeExactly(s, pass);
    ModeReported(ps, version, i);
  }

  /** A pass that persists leaves an active policy active without the PolicyActive condition exactly if it finds the
      policy's server and then a call fails or shows the policy not to be reachable. */
  lemma ActiveSurvivesByCalls(e: Environment, p: PolicySpec, t: nat, s: Status, pass: Pass)
    requires TookPlace(e, p, t, pass) && Persists(pass) && Sound(s) && s.kind == Active
    ensures var s' := Persisted(s, pass);
            s'.kind == Active && !IsTrue(s'.conditions, PolicyActive)
            <==> p.server != "" && !e.fails(t) && e.seen(t).hasServer && !GoesThrough(e, p, t)
  {
    ActiveSurvivesExactly(s, pass);
    assert StageAt(e, p, t) == Done <==> p.server != "" && !e.fails(t) && e.seen(t).hasServer && GoesThrough(e, p, t);
  }

  /** The cluster at one moment has the policy uniquely reachable. */
  ghost predicate ReachableNow(c: Cluster, name: string) {
    c.deployment.Some? && c.configMap.Some?
    && UniquelyReachable(c.deployment.value, c.configMap.value, c.replicaSets, c.pods, name)
  }

  /** The template hash of the first latest ReplicaSet, at one moment. */
  ghost predicate LatestHash(c: Cluster, hash: string)
    requires c.deployment.Some? && c.configMap.Some?
  {
    exists k :: FirstLatest(c.replicaSets, c.deployment.value, c.configMap.value.resourceVersion, k)
                && c.replicaSets[k].hash == hash
  }

  /** A pass that activates a policy does so while the policy is uniquely reachable in the cluster, at the moment the
      pods are listed, exactly if at that moment the ConfigMap contains the policy and the first latest ReplicaSet is of
      the template that the pass has seen. */
  lemma ReachableExactly(e: Environment, p: PolicySpec, t: nat, i: int)
    requires ActivatedAt(e, p, t)
    requires FirstLatest(e.seen(t + 3).replicaSets, e.seen(t + 1).deployment.value,
                         e.seen(t + 2).configMap.value.resourceVersion, i)
    ensures var c := e.seen(t + 4);
            ReachableNow(c, p.uniqueName) <==>
              && c.deployment.Some? && c.configMap.Some?
              && IsPolicyInConfigMap(c.configMap.value, p.uniqueName)
              && LatestHash(c, e.seen(t + 3).replicaSets[i].hash)
  {
    var c, hash := e.seen(t + 4), e.seen(t + 3).replicaSets[i].hash;
    var d, v := e.seen(t + 1).deployment.value, e.seen(t + 2).configMap.value.resourceVersion;
    var i' :| FirstLatest(e.seen(t + 3).replicaSets, d, v, i') && e.seen(t + 3).replicaSets[i'].hash != ""
              && AllServe(c.pods, e.seen(t + 3).replicaSets[i'].hash);
    assert i' == i && AllServe(c.pods, hash);
    if ReachableNow(c, p.uniqueName) {
      var k :| FirstLatest(c.replicaSets, c.deployment.value, c.configMap.value.resourceVersion, k)
               && AllServe(c.pods, c.replicaSets[k].hash);
      assert c.pods[0] in c.pods;
    }
  }

  /** A resource version names one content of the ConfigMap. */
  ghost predicate VersionsIdentify(e: Environment) {
    forall s: nat, t: nat ::
      e.seen(s).configMap.Some? && e.seen(t).configMap.Some?
      && e.seen(s).configMap.value.resourceVersion == e.seen(t).configMap.value.resourceVersion
      ==> e.seen(s).configMap == e.seen(t).configMap
  }

  /** The policy is uniquely reachable at that moment in particular if the ConfigMap's version, the deployment's
      revision and the ReplicaSets have not moved on. */
  lemma ReachableAtPodList(e: Environment, p: PolicySpec, t: nat)
    requires ActivatedAt(e, p, t) && VersionsIdentify(e)
    requires var c := e.seen(t + 4);
             c.configMap.Some? && c.deployment.Some?
             && c.configMap.value.resourceVersion == e.seen(t + 2).configMap.value.resourceVersion
             && c.deployment.value.revision == e.seen(t + 1).deployment.value.revision
             && c.replicaSets == e.seen(t + 3).replicaSets
    ensures ReachableNow(e.seen(t + 4), p.uniqueName)
  {
    var c := e.seen(t + 4);
    var d, v := e.seen(t + 1).deployment.value, c.configMap.value.resourceVersion;
    assert c.configMap == e.seen(t + 2).configMap;
    var i :| FirstLatest(c.replicaSets, d, v, i);
    assert FirstLatest(c.replicaSets, c.deployment.value, v, i);
    ReachableExactly(e, p, t, i);
  }

  /** The condition on the ConfigMap matters: a policy that leaves the configuration between two reads of a pass is
      still activated by that pass, though at no moment from the pod list on is it reachable. */
  lemma StaleConfigMapActivates(p: PolicySpec) returns (e: Environment)
    requires p.server != ""
    ensures VersionsIdentify(e) && (forall t :: !e.fails(t)) && StageAt(e, p, 0) == Done
    ensures forall t: nat :: t >= 4 ==> !ReachableNow(e.seen(t), p.uniqueName)
  {
    var entry := Entry("", "", "module", "protect", false, [], JNull, map[], "", "");
    var pod := Pod("hash", [PodCondition("Ready", "True")]);
    var rs := ReplicaSet("1", "v1", "hash");
    var config := ConfigMap("v1", Some(map[p.uniqueName := entry]));
    var before := Cluster(true, Some(Deployment("1", Some("v1"))), Some(config), [rs], [pod], Some("ca"));
    var after := before.(configMap := Some(ConfigMap("v2", Some(map[]))));
    e := Environment(t => if t < 3 then before else after, t => false);
    assert e.seen(1) == before && e.seen(2) == before && e.seen(3) == after && e.seen(4) == after;
    assert FirstReady(pod.conditions, 0);
    assert FirstLatest([rs], before.deployment.value, "v1", 0);
    assert OnlyVersionRunning(before.deployment.value, "v1", [rs], [pod]);
    assert ReachedAt(e, before.deployment.value, p.uniqueName, 2);
  }
}
