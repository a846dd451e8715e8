/** When a policy is uniquely reachable: every pod of its policy server runs the configuration that contains it. */
module Reachability {
  import opened Prelude
  import opened UniqueNames
  import opened PolicyConfig

  /** `policies` is what the policies entry of the data decodes to, if it can be decoded (see Stored). */
  datatype ConfigMap = ConfigMap(resourceVersion: string, policies: Option<map<string, Entry>>)

  /** Data without a policies entry counts as having no policies. */
  function GetPolicyMap(policies: Option<Json>): Option<map<string, Entry>> {
    if policies.None? then Some(map[]) else UnmarshalMap(policies.value)
  }

  /** A ConfigMap from its stored data; `policies` is the policies entry, if there is one. */
  function Stored(resourceVersion: string, policies: Option<Json>): ConfigMap {
    ConfigMap(resourceVersion, GetPolicyMap(policies))
  }

  /** Absent labels and annotations are empty strings, except where the program tells them apart. */
  datatype Deployment = Deployment(revision: string, configVersion: Option<string>)

  datatype ReplicaSet = ReplicaSet(revision: string, configVersion: string, hash: string)

  datatype PodCondition = PodCondition(kind: string, status: string)

  datatype Pod = Pod(hash: string, conditions: seq<PodCondition>)

  predicate IsPolicyInConfigMap(cm: ConfigMap, name: string) {
    cm.policies.Some? && name in cm.policies.value
  }

  predicate IsLatestReplicaSet(rs: ReplicaSet, d: Deployment, version: string) {
    rs.revision == d.revision && rs.configVersion == version
  }

  ghost predicate FirstReady(cs: seq<PodCondition>, i: int) {
    0 <= i < |cs| && cs[i].kind == "Ready" && forall j :: 0 <= j < i ==> cs[j].kind != "Ready"
  }

  /** The first Ready condition says so. */
  ghost predicate PodReady(p: Pod) {
    exists i :: FirstReady(p.conditions, i) && p.conditions[i].status == "True"
  }

  ghost predicate FirstLatest(rss: seq<ReplicaSet>, d: Deployment, version: string, i: int) {
    && 0 <= i < |rss| && rss[i].revision == d.revision && rss[i].configVersion == version
    && forall j :: 0 <= j < i ==> rss[j].revision != d.revision || rss[j].configVersion != version
  }

  /** There are pods, and all of them are ready and come from the same template. */
  ghost predicate AllServe(pods: seq<Pod>, hash: string) {
    pods != [] && forall p :: p in pods ==> p.hash == hash && PodReady(p)
  }

  /** Some pod template of the deployment's current revision runs this version of the configuration, and nothing else
      is running. */
  ghost predicate OnlyVersionRunning(d: Deployment, version: string, rss: seq<ReplicaSet>, pods: seq<Pod>) {
    exists i :: FirstLatest(rss, d, version, i) && rss[i].hash != "" && AllServe(pods, rss[i].hash)
  }

  /** The pods, at least one, are all ready and belong to a ReplicaSet of the given revision that runs the given version
      of the configuration. */
  ghost predicate PodsRunVersion(rss: seq<ReplicaSet>, pods: seq<Pod>, revision: string, version: string) {
    exists rs :: rs in rss && rs.revision == revision && rs.configVersion == version
                 && pods != [] && forall p :: p in pods ==> p.hash == rs.hash && PodReady(p)
  }

  lemma OnlyRunningMeans(d: Deployment, version: string, rss: seq<ReplicaSet>, pods: seq<Pod>)
    requires OnlyVersionRunning(d, version, rss, pods)
    ensures PodsRunVersion(rss, pods, d.revision, version)
  {
    var i :| FirstLatest(rss, d, version, i) && AllServe(pods, rss[i].hash);
    assert rss[i] in rss;
  }

  ghost predicate UniquelyReachable(
    d: Deployment, cm: ConfigMap, rss: seq<ReplicaSet>, pods: seq<Pod>, name: string)
  {
    IsPolicyInConfigMap(cm, name) && OnlyVersionRunning(d, cm.resourceVersion, rss, pods)
  }

  /** While no ReplicaSet of the deployment's revision runs the ConfigMap's version, because the rollout has not
      started, no policy is uniquely reachable, whatever is running. */
  lemma RolloutNotStarted(d: Deployment, cm: ConfigMap, rss: seq<ReplicaSet>, pods: seq<Pod>, name: string)
    requires forall rs :: rs in rss && rs.revision == d.revision ==> rs.configVersion != cm.resourceVersion
    ensures !UniquelyReachable(d, cm, rss, pods, name)
  {
  }

  method IsPodReady(p: Pod) returns (ready: bool)
    ensures ready == PodReady(p)
  {
    var n := |p.conditions|;
    var i := 0;
    while i < n
      invariant 0 <= i <= n
      invariant forall j :: 0 <= j < i ==> p.conditions[j].kind != "Ready"
    {
      if p.conditions[i].kind == "Ready" {
        assert FirstReady(p.conditions, i);
        return p.conditions[i].status == "True";
      }
      i := i + 1;
    }
    return false;
  }

  method LatestTemplate(rss: seq<ReplicaSet>, d: Deployment, version: string) returns (hash: string, ghost i: int)
    ensures hash != "" ==> FirstLatest(rss, d, version, i) && rss[i].hash == hash
    ensures hash == "" ==> forall k :: FirstLatest(rss, d, version, k) ==> rss[k].hash == ""
  {
    hash, i := "", 0;
    var k := 0;
    while k < |rss|
      invariant 0 <= k <= |rss|
      invariant forall j :: 0 <= j < k ==> !IsLatestReplicaSet(rss[j], d, version)
    {
      if IsLatestReplicaSet(rss[k], d, version) {
        assert FirstLatest(rss, d, version, k);
        return rss[k].hash, k;
      }
      k := k + 1;
    }
  }

  method PodsServe(pods: seq<Pod>, hash: string) returns (ok: bool)
    ensures ok == AllServe(pods, hash)
  {
    if |pods| == 0 { return false; }
    for k := 0 to |pods|
      invariant forall j :: 0 <= j < k ==> pods[j].hash == hash && PodReady(pods[j])
    {
      var ready := IsPodReady(pods[k]);
      if pods[k].hash != hash || !ready {
        assert pods[k] in pods;
        return false;
      }
    }
    return true;
  }

  /** One policy that cannot be read back takes every policy of its server out of reach; otherwise the configuration
      built from a list of policies contains exactly those. */
  lemma ContainsExactly(ps: seq<Policy>, version: string, name: string)
    ensures IsPolicyInConfigMap(Stored(version, Some(MarshalMap(PoliciesMap(ps)))), name)
       <==> (forall i :: 0 <= i < |ps| && LastOfItsName(ps, i) ==> Readable(ps[i]))
            && exists i :: 0 <= i < |ps| && UniqueName(ps[i].Id()) == name
  {
    ConfigReadsBackExactly(ps);
    LastPolicyWins(ps);
  }
}
