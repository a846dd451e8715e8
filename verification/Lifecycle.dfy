/** How policies, their webhooks and policy servers come and go: a finalizer protocol between two controllers.
    Reconcile passes are atomic steps here; each may stop where one of its API calls fails. */
module Lifecycle {
  import opened UniqueNames

  const KUBEWARDEN_FINALIZER := "kubewarden.io/finalizer"
  const KUBEWARDEN_FINALIZER_PRE_114 := "kubewarden"

  const GUARDS: set<string> := {KUBEWARDEN_FINALIZER, KUBEWARDEN_FINALIZER_PRE_114}

  /** `deleting` tells that the deletion timestamp is set. */
  datatype Policy = Policy(server: string, mutating: bool, deleting: bool, finalizers: set<string>)

  datatype PolicyServer = PolicyServer(deleting: bool, finalizers: set<string>)

  /** Mutating and validating webhook configurations are separate objects, named by the unique name. */
  datatype HookKey = HookKey(mutating: bool, name: string)

  /** The policy that last wrote the webhook, and the policy server its service reference names. */
  datatype Hook = Hook(writer: PolicyId, service: string)

  datatype Cluster = Cluster(
    policies: map<PolicyId, Policy>, servers: map<string, PolicyServer>, hooks: map<HookKey, Hook>)

  /** How listing the policies of one kind went. */
  datatype ListOutcome = Listed | ListNotFound | ListFailed

  datatype Lists = Lists(
    clusterPolicies: ListOutcome, policies: ListOutcome, groups: ListOutcome, clusterGroups: ListOutcome)
  {
    function Of(k: Kind): ListOutcome {
      match k
      case ClusterPolicy => clusterPolicies
      case NamespacedPolicy => policies
      case NamespacedGroup => groups
      case ClusterGroup => clusterGroups
    }

    /** getPolicies gives up only on NotFound. */
    predicate Usable() {
      forall k: Kind :: Of(k) != ListNotFound
    }
  }

  const ALL_LISTED := Lists(Listed, Listed, Listed, Listed)

  predicate HasGuard(finalizers: set<string>) {
    KUBEWARDEN_FINALIZER in finalizers || KUBEWARDEN_FINALIZER_PRE_114 in finalizers
  }

  function Key(id: PolicyId, p: Policy): HookKey {
    HookKey(p.mutating, UniqueName(id))
  }

  /** The API server removes a deleting object once its last finalizer is gone. */
  function StorePolicy(c: Cluster, id: PolicyId, p: Policy): Cluster {
    c.(policies := if p.deleting && p.finalizers == {} then c.policies - {id} else c.policies[id := p])
  }

  function StoreServer(c: Cluster, name: string, s: PolicyServer): Cluster {
    c.(servers := if s.deleting && s.finalizers == {} then c.servers - {name} else c.servers[name := s])
  }

  /** API deletion of several policies. */
  function MarkDeleted(policies: map<PolicyId, Policy>, ids: set<PolicyId>): map<PolicyId, Policy> {
    map id | id in policies && !(id in ids && policies[id].finalizers == {}) ::
      if id in ids then policies[id].(deleting := true) else policies[id]
  }

  function Bound(c: Cluster, server: string): set<PolicyId> {
    set id | id in c.policies && c.policies[id].server == server
  }

  function Live(c: Cluster, server: string): set<PolicyId> {
    set id | id in c.policies && c.policies[id].server == server && !c.policies[id].deleting
  }

  /** Policies being deleted whose webhook may still exist. */
  function Leaving(c: Cluster, server: string): set<PolicyId> {
    set id | id in c.policies && c.policies[id].server == server && c.policies[id].deleting
             && HasGuard(c.policies[id].finalizers)
  }

  /** What getPolicies returns: kinds whose list failed are silently missing. */
  function ListedPolicies(c: Cluster, server: string, lists: Lists): set<PolicyId> {
    set id | id in c.policies && c.policies[id].server == server && lists.Of(id.kind).Listed?
  }

  datatype Event =
    | CreatePolicy(id: PolicyId, policy: Policy)
    | UpdatePolicy(id: PolicyId, policy: Policy)
    | DeletePolicy(id: PolicyId)
    | WriteHook(id: PolicyId)
    | DropHook(id: PolicyId)
    | FinishPolicy(id: PolicyId)
    | MissHook(id: PolicyId)
    | DeleteHook(key: HookKey)
    | CreateServer(name: string, finalizers: set<string>)
    | UpdateServer(name: string, finalizers: set<string>)
    | DeleteServer(name: string)
    | DeleteBound(name: string, lists: Lists, deleted: set<PolicyId>)
    | ReleaseServer(name: string, lists: Lists)

  /** An update keeps the policy server and, while the object is live, has the finalizer put back by the defaulting
      webhook. On a deleting object finalizers can only go, and nobody strips the controller's own. */
  predicate UpdateAdmitted(p: Policy, p': Policy) {
    && p'.server == p.server && p'.deleting == p.deleting
    && if p.deleting then p'.finalizers <= p.finalizers && p.finalizers * GUARDS <= p'.finalizers
       else KUBEWARDEN_FINALIZER in p'.finalizers
  }

  predicate ServerUpdateAdmitted(s: PolicyServer, finalizers: set<string>) {
    if s.deleting then finalizers <= s.finalizers && s.finalizers * GUARDS <= finalizers
    else KUBEWARDEN_FINALIZER in finalizers
  }

  function UnguardedPolicy(c: Cluster, id: PolicyId): Cluster
    requires id in c.policies
  {
    var p := c.policies[id];
    StorePolicy(c, id, p.(finalizers := p.finalizers - GUARDS))
  }

  function FinishedPolicy(c: Cluster, id: PolicyId): Cluster
    requires id in c.policies
  {
    UnguardedPolicy(c.(hooks := c.hooks - {Key(id, c.policies[id])}), id)
  }

  function ReleasedServer(c: Cluster, name: string): Cluster
    requires name in c.servers
  {
    StoreServer(c, name, c.servers[name].(finalizers := c.servers[name].finalizers - GUARDS))
  }

  ghost predicate Next(c: Cluster, e: Event, c': Cluster) {
    match e
    // Users and the API server.
    case CreatePolicy(id, p) =>
      && id !in c.policies && !p.deleting && KUBEWARDEN_FINALIZER in p.finalizers
      && c' == c.(policies := c.policies[id := p])
    case UpdatePolicy(id, p) =>
      && id in c.policies && UpdateAdmitted(c.policies[id], p)
      && c' == StorePolicy(c, id, p)
    case DeletePolicy(id) =>
      && id in c.policies
      && c' == StorePolicy(c, id, c.policies[id].(deleting := true))
    case DeleteHook(key) => c' == c.(hooks := c.hooks - {key})
    case CreateServer(name, finalizers) =>
      && name !in c.servers && KUBEWARDEN_FINALIZER in finalizers
      && c' == c.(servers := c.servers[name := PolicyServer(false, finalizers)])
    case UpdateServer(name, finalizers) =>
      && name in c.servers && ServerUpdateAdmitted(c.servers[name], finalizers)
      && c' == StoreServer(c, name, c.servers[name].(finalizers := finalizers))
    case DeleteServer(name) =>
      && name in c.servers
      && c' == StoreServer(c, name, c.servers[name].(deleting := true))
    // A pass over a live policy that gets as far as its webhook.
    case WriteHook(id) =>
      && id in c.policies && !c.policies[id].deleting && c.policies[id].server in c.servers
      && c' == c.(hooks := c.hooks[Key(id, c.policies[id]) := Hook(id, c.policies[id].server)])
    // A pass over a deleting policy: stopped after the webhook, or complete.
    case DropHook(id) =>
      && id in c.policies && c.policies[id].deleting
      && c' == c.(hooks := c.hooks - {Key(id, c.policies[id])})
    case FinishPolicy(id) =>
      && id in c.policies && c.policies[id].deleting
      && c' == FinishedPolicy(c, id)
    // The same, but told that there is no webhook.
    case MissHook(id) =>
      && id in c.policies && c.policies[id].deleting
      && c' == UnguardedPolicy(c, id)
    // A pass over a deleting policy server: policies are still listed, or none are.
    case DeleteBound(name, lists, deleted) =>
      && name in c.servers && c.servers[name].deleting && lists.Usable()
      && ListedPolicies(c, name, lists) != {}
      && deleted <= ListedPolicies(c, name, lists) * Live(c, name)
      && c' == c.(policies := MarkDeleted(c.policies, deleted))
    case ReleaseServer(name, lists) =>
      && name in c.servers && c.servers[name].deleting && lists.Usable()
      && ListedPolicies(c, name, lists) == {}
      && c' == ReleasedServer(c, name)
  }

  ghost predicate IsRun(cs: seq<Cluster>, es: seq<Event>) {
    && |cs| == |es| + 1
    && forall i :: 0 <= i < |es| ==> Next(cs[i], es[i], cs[i + 1])
  }

  /** An existing webhook: the policy that last wrote it is still there, guarded by a finalizer, and the policy server
      it sends requests to is still there. */
  ghost predicate HookSound(c: Cluster, k: HookKey)
    requires k in c.hooks
  {
    var h := c.hooks[k];
    && h.writer in c.policies && HasGuard(c.policies[h.writer].finalizers)
    && k.name == UniqueName(h.writer) && h.service == c.policies[h.writer].server
    && h.service in c.servers
  }

  /** Live objects are guarded, and deleting ones are there only for their finalizers. */
  ghost predicate WellKept(c: Cluster) {
    && (forall id :: id in c.policies ==> if c.policies[id].deleting then c.policies[id].finalizers != {}
                                          else HasGuard(c.policies[id].finalizers))
    && (forall n :: n in c.servers ==> if c.servers[n].deleting then c.servers[n].finalizers != {}
                                       else HasGuard(c.servers[n].finalizers))
  }

  ghost predicate Sound(c: Cluster) {
    && WellKept(c)
    && forall k :: k in c.hooks ==> HookSound(c, k)
  }

  ghost predicate NoHookOf(c: Cluster, server: string) {
    forall k :: k in c.hooks ==> c.hooks[k].service != server
  }

  /** The steps that keep webhooks sound, told from the state before: finishing a policy must not leave behind a
      webhook of the other kind, nor one that the controller is told is not there, and a policy server must not vanish
      under a webhook. */
  ghost predicate Benign(c: Cluster, e: Event) {
    match e
    case FinishPolicy(id) =>
      id in c.policies ==> forall k :: k in c.hooks && c.hooks[k].writer == id ==> k == Key(id, c.policies[id])
    case MissHook(id) => forall k :: k in c.hooks ==> c.hooks[k].writer != id
    case UpdateServer(name, finalizers) =>
      name in c.servers && c.servers[name].deleting && finalizers == {} ==> NoHookOf(c, name)
    case ReleaseServer(name, lists) =>
      name in c.servers && c.servers[name].finalizers <= GUARDS ==> NoHookOf(c, name)
    case _ => true
  }

  lemma WellKeptNext(c: Cluster, e: Event, c': Cluster)
    requires WellKept(c) && Next(c, e, c')
    ensures WellKept(c')
  {
  }

  /** An admitted update keeps guarded objects guarded, and a release takes nothing but the guards. */
  lemma GuardsKept(c: Cluster, e: Event)
    ensures e.UpdatePolicy? && e.id in c.policies && UpdateAdmitted(c.policies[e.id], e.policy) ==>
              (HasGuard(c.policies[e.id].finalizers) ==> HasGuard(e.policy.finalizers))
    ensures e.ReleaseServer? && e.name in c.servers && c.servers[e.name].finalizers - GUARDS == {} ==>
              c.servers[e.name].finalizers <= GUARDS
  {
  }

  lemma UnsoundNext(c: Cluster, e: Event, c': Cluster)
    requires Sound(c) && Next(c, e, c') && !Benign(c, e)
    ensures !Sound(c')
  {
    match e
    case FinishPolicy(id) =>
      var k :| k in c.hooks && c.hooks[k].writer == id && k != Key(id, c.policies[id]);
      assert k in c'.hooks && !HookSound(c', k);
    case MissHook(id) =>
      var k :| k in c.hooks && c.hooks[k].writer == id;
      assert k in c'.hooks && !HookSound(c', k);
    case UpdateServer(name, finalizers) =>
      var k :| k in c.hooks && c.hooks[k].service == name;
      assert k in c'.hooks && !HookSound(c', k);
    case ReleaseServer(name, lists) =>
      var k :| k in c.hooks && c.hooks[k].service == name;
      assert c.servers[name].finalizers - GUARDS == {};
      assert k in c'.hooks && !HookSound(c', k);
    case _ =>
  }

  /** A step from a sound state leads to a sound state exactly if it is benign. */
  lemma SoundNextExactly(c: Cluster, e: Event, c': Cluster)
    requires Sound(c) && Next(c, e, c')
    ensures Sound(c') <==> Benign(c, e)
  {
    WellKeptNext(c, e, c');
    if Benign(c, e) {
      forall k | k in c'.hooks
        ensures HookSound(c', k)
      {
        if k in c.hooks {
          assert HookSound(c, k);
          GuardsKept(c, e);
        }
      }
    } else {
      UnsoundNext(c, e, c');
    }
  }

  /** Steps under which webhooks stay sound without further ado: mutating flags are fixed, lists do not fail, existing
      webhooks are found, and policy servers carry no finalizers but the controller's. */
  ghost predicate Disciplined(c: Cluster, e: Event) {
    match e
    case UpdatePolicy(id, p) => id in c.policies ==> p.mutating == c.policies[id].mutating
    case MissHook(id) => id in c.policies ==> Key(id, c.policies[id]) !in c.hooks
    case CreateServer(_, finalizers) => finalizers <= GUARDS
    case UpdateServer(_, finalizers) => finalizers <= GUARDS
    case DeleteBound(_, lists, _) => lists == ALL_LISTED
    case ReleaseServer(_, lists) => lists == ALL_LISTED
    case _ => true
  }

  ghost predicate Strong(c: Cluster) {
    && Sound(c)
    && (forall k :: k in c.hooks ==>
          c.hooks[k].writer in c.policies && k.mutating == c.policies[c.hooks[k].writer].mutating)
    && (forall n :: n in c.servers ==> c.servers[n].finalizers <= GUARDS)
  }

  lemma DisciplinedIsBenign(c: Cluster, e: Event, c': Cluster)
    requires Strong(c) && Disciplined(c, e) && Next(c, e, c')
    ensures Benign(c, e)
  {
    match e
    case FinishPolicy(id) =>
      forall k | k in c.hooks && c.hooks[k].writer == id
        ensures k == Key(id, c.policies[id])
      {
        assert HookSound(c, k);
      }
    case MissHook(id) =>
      forall k | k in c.hooks
        ensures c.hooks[k].writer != id
      {
        assert HookSound(c, k);
      }
    case UpdateServer(name, finalizers) =>
      assert c.servers[name].finalizers * GUARDS == c.servers[name].finalizers;
    case ReleaseServer(name, lists) =>
      forall k | k in c.hooks
        ensures c.hooks[k].service != name
      {
        assert HookSound(c, k);
        assert c.hooks[k].writer !in ListedPolicies(c, name, lists);
      }
    case _ =>
  }

  lemma StrongNext(c: Cluster, e: Event, c': Cluster)
    requires Strong(c) && Disciplined(c, e) && Next(c, e, c')
    ensures Strong(c')
  {
    DisciplinedIsBenign(c, e, c');
    SoundNextExactly(c, e, c');
    forall k | k in c'.hooks
      ensures k.mutating == c'.policies[c'.hooks[k].writer].mutating
    {
      assert HookSound(c', k);
      if k in c.hooks { assert HookSound(c, k); }
    }
  }

  /** In every reachable state of a disciplined run, each policy webhook has its policy, finalizer and all, and its
      policy server. */
  lemma {:induction false} WebhooksStaySound(cs: seq<Cluster>, es: seq<Event>, i: nat)
    requires IsRun(cs, es) && i < |cs| && Strong(cs[0])
    requires forall j :: 0 <= j < |es| ==> Disciplined(cs[j], es[j])
    ensures Strong(cs[i])
    ensures forall k :: k in cs[i].hooks ==> HookSound(cs[i], k)
  {
    if i > 0 {
      WebhooksStaySound(cs, es, i - 1);
      StrongNext(cs[i - 1], es[i - 1], cs[i]);
    }
  }

  /** Along any run from a sound state, all states are sound exactly if all steps are benign. */
  lemma {:induction false} SoundExactlyWhileBenign(cs: seq<Cluster>, es: seq<Event>)
    requires IsRun(cs, es) && Sound(cs[0])
    ensures (forall i :: 0 <= i < |cs| ==> Sound(cs[i])) <==> (forall i :: 0 <= i < |es| ==> Benign(cs[i], es[i]))
  {
    if |es| > 0 {
      var m := |es| - 1;
      SoundExactlyWhileBenign(cs[..m + 1], es[..m]);
      assert Next(cs[m], es[m], cs[m + 1]);
      if Sound(cs[m]) { SoundNextExactly(cs[m], es[m], cs[m + 1]); }
      assert forall i :: 0 <= i < |cs| ==> i == m + 1 || cs[i] == cs[..m + 1][i];
      assert forall i :: 0 <= i < |es| ==> i == m || (es[i] == es[..m][i] && cs[i] == cs[..m + 1][i]);
      assert forall i :: 0 <= i < m + 1 ==> cs[..m + 1][i] == cs[i];
      assert forall i :: 0 <= i < m ==> es[..m][i] == es[i];
    }
  }

  // The four disciplines are all needed: in each of the runs below one of them is broken once.

  const P := PolicyId(ClusterPolicy, "", "p")
  const KW: set<string> := {KUBEWARDEN_FINALIZER}

  /** A policy that stops being mutating leaves its mutating webhook behind when it is deleted. */
  lemma FlippedPolicyOrphansWebhook() returns (cs: seq<Cluster>, es: seq<Event>)
    ensures IsRun(cs, es) && Strong(cs[0]) && |es| == 4
    ensures es[1].UpdatePolicy? && forall i :: 0 <= i < 4 && i != 1 ==> Disciplined(cs[i], es[i])
    ensures P !in cs[4].policies && exists k :: k in cs[4].hooks && cs[4].hooks[k].writer == P
  {
    var p := Policy("s", true, false, KW);
    var c0 := Cluster(map[P := p], map["s" := PolicyServer(false, KW)], map[]);
    var k, h := Key(P, p), Hook(P, "s");
    var c1 := c0.(hooks := map[k := h]);
    var c2 := c1.(policies := map[P := p.(mutating := false)]);
    var c3 := c2.(policies := map[P := p.(mutating := false, deleting := true)]);
    var c4 := c3.(policies := map[]);
    cs := [c0, c1, c2, c3, c4];
    es := [WriteHook(P), UpdatePolicy(P, p.(mutating := false)), DeletePolicy(P), FinishPolicy(P)];
    assert Next(c0, es[0], c1) && Next(c1, es[1], c2) && Next(c2, es[2], c3);
    assert Next(c3, es[3], c4) by {
      assert KW - GUARDS == {};
      assert c3.hooks - {Key(P, c3.policies[P])} == c3.hooks;
      assert c3.policies - {P} == map[];
    }
    assert k in c4.hooks && c4.hooks[k].writer == P;
  }

  /** If listing the cluster policies fails with anything but NotFound, the policy server takes its leave while a
      policy is still bound to it. */
  lemma FailedListStrandsWebhook() returns (c: Cluster, e: Event, c': Cluster)
    ensures Strong(c) && Next(c, e, c') && e.ReleaseServer? && e.lists == ALL_LISTED.(clusterPolicies := ListFailed)
    ensures !Sound(c') && exists k :: k in c'.hooks && c'.hooks[k].service !in c'.servers
  {
    var p := Policy("s", false, false, KW);
    var k := Key(P, p);
    c := Cluster(map[P := p], map["s" := PolicyServer(true, KW)], map[k := Hook(P, "s")]);
    e := ReleaseServer("s", ALL_LISTED.(clusterPolicies := ListFailed));
    c' := c.(servers := map[]);
    assert KW - GUARDS == {} && KW <= GUARDS;
    assert c.servers - {"s"} == map[];
    assert HookSound(c, k);
    assert k in c'.hooks && !HookSound(c', k);
  }

  /** If the controller is told that an existing webhook is not there, it lets go of the policy alone. */
  lemma MissedWebhookOrphaned() returns (c: Cluster, e: Event, c': Cluster)
    ensures Strong(c) && Next(c, e, c') && e == MissHook(P)
    ensures P !in c'.policies && exists k :: k in c'.hooks && c'.hooks[k].writer == P
  {
    var p := Policy("s", false, true, KW);
    var k := Key(P, p);
    c := Cluster(map[P := p], map["s" := PolicyServer(false, KW)], map[k := Hook(P, "s")]);
    e := MissHook(P);
    c' := c.(policies := map[]);
    assert KW - GUARDS == {} && c.policies - {P} == map[];
    assert HookSound(c, k);
    assert k in c'.hooks && c'.hooks[k].writer == P;
  }

  /** A policy server kept by a foreign finalizer only can still attract a policy, and vanish under its webhook. */
  lemma ForeignFinalizerStrandsWebhook() returns (cs: seq<Cluster>, es: seq<Event>)
    ensures IsRun(cs, es) && Sound(cs[0]) && |es| == 3
    ensures forall i :: 0 <= i < 3 ==> Disciplined(cs[i], es[i])
    ensures !Sound(cs[3])
  {
    var p := Policy("s", false, false, KW);
    var c0 := Cluster(map[], map["s" := PolicyServer(true, {"foreign"})], map[]);
    var c1 := c0.(policies := map[P := p]);
    var k := Key(P, p);
    var c2 := c1.(hooks := map[k := Hook(P, "s")]);
    var c3 := c2.(servers := map[]);
    cs, es := [c0, c1, c2, c3], [CreatePolicy(P, p), WriteHook(P), UpdateServer("s", {})];
    assert Next(c0, es[0], c1) && Next(c1, es[1], c2);
    assert Next(c2, es[2], c3) by {
      assert {"foreign"} * GUARDS == {};
      assert c2.servers - {"s"} == map[];
    }
    assert k in c3.hooks && !HookSound(c3, k);
  }

  function PolicyMeasure(c: Cluster, name: string): nat {
    2 * |Live(c, name)| + |Leaving(c, name)|
  }

  /** How much is left to do before the policy server may go: two passes per live policy, one per leaving policy, and
      one for the server itself. */
  function Measure(c: Cluster, name: string): nat {
    PolicyMeasure(c, name) + if name in c.servers && HasGuard(c.servers[name].finalizers) then 1 else 0
  }

  /** The passes that take part in deleting the policy server `name`. */
  ghost predicate TakesPart(c: Cluster, e: Event, name: string) {
    match e
    case FinishPolicy(id) => id in c.policies && c.policies[id].server == name
    case MissHook(id) => id in c.policies && c.policies[id].server == name
    case DeleteBound(n, _, _) => n == name
    case ReleaseServer(n, _) => n == name
    case _ => false
  }

  /** The policies bound to `name` after some of them have been deleted through the API. */
  lemma DeletedBound(c: Cluster, deleted: set<PolicyId>, name: string)
    requires WellKept(c) && forall id :: id in deleted ==> id in c.policies && !c.policies[id].deleting
    ensures var c' := c.(policies := MarkDeleted(c.policies, deleted));
            && Live(c', name) == Live(c, name) - deleted
            && Leaving(c', name) == Leaving(c, name) + deleted * Live(c, name)
            && (deleted == {} ==> c'.policies == c.policies)
  {
  }

  /** The policies bound to `name` after one of them has lost the controller's finalizers. */
  lemma UnguardedBound(c: Cluster, id: PolicyId, name: string)
    requires WellKept(c) && id in c.policies && c.policies[id].deleting
    ensures var c' := UnguardedPolicy(c, id);
            && Live(c', name) == Live(c, name)
            && Leaving(c', name) == Leaving(c, name) - {id}
            && (!HasGuard(c.policies[id].finalizers) ==> c'.policies == c.policies)
  {
    var f := c.policies[id].finalizers;
    assert !HasGuard(f - GUARDS);
    if !HasGuard(f) { assert f - GUARDS == f; }
  }

  lemma BoundKept(c: Cluster, c': Cluster, name: string)
    requires forall id :: id in c.policies && c.policies[id].server == name ==>
                            id in c'.policies && c'.policies[id] == c.policies[id]
    requires forall id :: id in c'.policies && c'.policies[id].server == name ==> id in c.policies
    requires forall id :: id in c'.policies && id in c.policies ==> c'.policies[id] == c.policies[id]
    ensures Live(c', name) == Live(c, name) && Leaving(c', name) == Leaving(c, name)
  {
  }

  lemma FinishedBound(c: Cluster, id: PolicyId, name: string)
    requires WellKept(c) && id in c.policies && c.policies[id].deleting
    ensures var c' := FinishedPolicy(c, id);
            && Live(c', name) == Live(c, name)
            && Leaving(c', name) == Leaving(c, name) - {id}
            && (!HasGuard(c.policies[id].finalizers) ==> c'.policies == c.policies)
  {
    var d := c.(hooks := c.hooks - {Key(id, c.policies[id])});
    UnguardedBound(d, id, name);
    BoundKept(c, d, name);
  }

  lemma Released(c: Cluster, name: string)
    requires WellKept(c) && name in c.servers && c.servers[name].deleting
    ensures var c' := ReleasedServer(c, name);
            && (name in c'.servers ==> !HasGuard(c'.servers[name].finalizers))
            && (!HasGuard(c.servers[name].finalizers) ==> c'.servers == c.servers)
  {
    var f := c.servers[name].finalizers;
    assert !HasGuard(f - GUARDS);
    if !HasGuard(f) { assert f - GUARDS == f; }
  }

  lemma MovedToLeaving(c: Cluster, deleted: set<PolicyId>, name: string)
    requires deleted <= Live(c, name)
    ensures |Live(c, name) - deleted| == |Live(c, name)| - |deleted|
    ensures |Leaving(c, name) + deleted| == |Leaving(c, name)| + |deleted|
  {
  }

  lemma DeletionLowersMeasure(c: Cluster, deleted: set<PolicyId>, name: string)
    requires WellKept(c) && deleted <= Live(c, name)
    ensures var c' := c.(policies := MarkDeleted(c.policies, deleted));
            c'.policies == c.policies || PolicyMeasure(c', name) < PolicyMeasure(c, name)
  {
    DeletedBound(c, deleted, name);
    MovedToLeaving(c, deleted, name);
    assert deleted * Live(c, name) == deleted;
  }

  /** Every such pass that changes a policy or a policy server lowers the measure. */
  lemma PassLowersMeasure(c: Cluster, e: Event, c': Cluster, name: string)
    requires WellKept(c) && Next(c, e, c') && TakesPart(c, e, name)
    requires c'.policies != c.policies || c'.servers != c.servers
    ensures Measure(c', name) < Measure(c, name)
  {
    match e
    case FinishPolicy(id) => FinishedBound(c, id, name);
    case MissHook(id) => UnguardedBound(c, id, name);
    case DeleteBound(_, _, deleted) => DeletionLowersMeasure(c, deleted, name);
    case ReleaseServer(_, _) =>
      Released(c, name);
      BoundKept(c, c', name);
    case _ =>
  }

  /** The policy server is being deleted, or gone already. */
  ghost predicate Going(c: Cluster, name: string) {
    name in c.servers ==> c.servers[name].deleting
  }

  /** Nothing new is made for the policy server to wait for. */
  ghost predicate AddsNothing(e: Event, name: string) {
    !(e.CreatePolicy? && e.policy.server == name) && !(e.CreateServer? && e.name == name)
  }

  lemma ServerPartKept(c: Cluster, e: Event, c': Cluster, name: string)
    requires WellKept(c) && Next(c, e, c') && Going(c, name) && AddsNothing(e, name)
    ensures name in c'.servers && HasGuard(c'.servers[name].finalizers) ==>
              name in c.servers && HasGuard(c.servers[name].finalizers)
  {
  }

  lemma DeletedSomeBound(c: Cluster, n: string, deleted: set<PolicyId>, name: string)
    requires WellKept(c) && deleted <= Live(c, n)
    ensures PolicyMeasure(c.(policies := MarkDeleted(c.policies, deleted)), name) <= PolicyMeasure(c, name)
  {
    DeletedBound(c, deleted, name);
    var d := if n == name then deleted else {};
    assert Live(c, name) - deleted == Live(c, name) - d && deleted * Live(c, name) == d;
    MovedToLeaving(c, d, name);
  }

  lemma Smaller<T>(a: set<T>, b: set<T>)
    requires a <= b
    ensures |a| <= |b|
  {
    assert b == a + (b - a);
  }

  lemma UpdatedBound(c: Cluster, id: PolicyId, p: Policy, name: string)
    requires WellKept(c) && id in c.policies && UpdateAdmitted(c.policies[id], p)
    ensures var c' := StorePolicy(c, id, p);
            Live(c', name) == Live(c, name) && |Leaving(c', name)| <= |Leaving(c, name)|
  {
    var c' := StorePolicy(c, id, p);
    assert Leaving(c', name) <= Leaving(c, name);
    Smaller(Leaving(c', name), Leaving(c, name));
  }

  lemma DeletedOneBound(c: Cluster, id: PolicyId, name: string)
    requires WellKept(c) && id in c.policies
    ensures var c' := StorePolicy(c, id, c.policies[id].(deleting := true));
            2 * |Live(c', name)| + |Leaving(c', name)| <= 2 * |Live(c, name)| + |Leaving(c, name)|
  {
    var c' := StorePolicy(c, id, c.policies[id].(deleting := true));
    var d := {id} * Live(c, name);
    assert Live(c', name) == Live(c, name) - d;
    assert Leaving(c', name) == Leaving(c, name) + d;
    MovedToLeaving(c, d, name);
  }

  lemma PolicyPartKept(c: Cluster, e: Event, c': Cluster, name: string)
    requires WellKept(c) && Next(c, e, c') && c'.policies != c.policies
    requires !(e.CreatePolicy? && e.policy.server == name)
    ensures PolicyMeasure(c', name) <= PolicyMeasure(c, name) && c'.servers == c.servers
  {
    match e
    case CreatePolicy(id, p) => BoundKept(c, c', name);
    case UpdatePolicy(id, p) => UpdatedBound(c, id, p, name);
    case DeletePolicy(id) => DeletedOneBound(c, id, name);
    case FinishPolicy(id) => FinishedBound(c, id, name);
    case MissHook(id) => UnguardedBound(c, id, name);
    case DeleteBound(n, _, deleted) => DeletedSomeBound(c, n, deleted, name);
    case _ =>
  }

  /** While the policy server is being deleted, nothing raises the measure but binding a new policy to it. */
  lemma OthersKeepMeasure(c: Cluster, e: Event, c': Cluster, name: string)
    requires WellKept(c) && Next(c, e, c') && Going(c, name) && AddsNothing(e, name)
    ensures Measure(c', name) <= Measure(c, name) && Going(c', name)
  {
    if c'.policies == c.policies {
      BoundKept(c, c', name);
      ServerPartKept(c, e, c', name);
    } else {
      PolicyPartKept(c, e, c', name);
    }
  }

  /** How many of the first `n` steps are passes over the policy server or its policies that change any of these. */
  ghost function Progress(cs: seq<Cluster>, es: seq<Event>, name: string, n: nat): nat
    requires IsRun(cs, es) && n <= |es|
  {
    if n == 0 then 0 else
      Progress(cs, es, name, n - 1)
      + if TakesPart(cs[n - 1], es[n - 1], name)
           && (cs[n].policies != cs[n - 1].policies || cs[n].servers != cs[n - 1].servers) then 1 else 0
  }

  /** In every run in which the server is being deleted and nothing is newly bound to it, no more passes change anything
      than the measure says at the start, whatever fails and whatever else happens. */
  lemma {:induction false} ProgressIsBounded(cs: seq<Cluster>, es: seq<Event>, name: string, n: nat)
    requires IsRun(cs, es) && n <= |es| && WellKept(cs[0]) && Going(cs[0], name)
    requires forall i :: 0 <= i < |es| ==> AddsNothing(es[i], name)
    ensures Progress(cs, es, name, n) + Measure(cs[n], name) <= Measure(cs[0], name)
    ensures WellKept(cs[n]) && Going(cs[n], name)
  {
    if n > 0 {
      ProgressIsBounded(cs, es, name, n - 1);
      var c, e, c' := cs[n - 1], es[n - 1], cs[n];
      assert Next(c, e, c');
      WellKeptNext(c, e, c');
      OthersKeepMeasure(c, e, c', name);
      if TakesPart(c, e, name) && (c'.policies != c.policies || c'.servers != c.servers) {
        PassLowersMeasure(c, e, c', name);
      }
    }
  }

  /** An error-free pass over the deleting policy server. */
  function ServerPass(c: Cluster, name: string): Cluster
    requires name in c.servers
  {
    if Bound(c, name) != {} then c.(policies := MarkDeleted(c.policies, Live(c, name))) else ReleasedServer(c, name)
  }

  function ServerPassEvent(c: Cluster, name: string): Event {
    if Bound(c, name) != {} then DeleteBound(name, ALL_LISTED, Live(c, name)) else ReleaseServer(name, ALL_LISTED)
  }

  lemma ServerPassIsStep(c: Cluster, name: string)
    requires name in c.servers && c.servers[name].deleting
    ensures var e := ServerPassEvent(c, name);
            Next(c, e, ServerPass(c, name)) && TakesPart(c, e, name)
  {
  }

  /** No error-free pass changes a policy or a policy server any more. */
  ghost predicate Stuck(c: Cluster, name: string)
    requires name in c.servers
  {
    && ServerPass(c, name).policies == c.policies && ServerPass(c, name).servers == c.servers
    && forall id :: id in Bound(c, name) && c.policies[id].deleting ==>
                      FinishedPolicy(c, id).policies == c.policies
  }

  /** Deletion of a policy server gets stuck exactly when nothing is left to delete and either the server has lost its
      own finalizers, or foreign finalizers alone keep some bound policies. */
  lemma StuckExactly(c: Cluster, name: string)
    requires Sound(c) && name in c.servers && c.servers[name].deleting
    ensures Stuck(c, name) <==>
              && Live(c, name) == {} && Leaving(c, name) == {}
              && (Bound(c, name) != {} || !HasGuard(c.servers[name].finalizers))
  {
    var live, leaving := Live(c, name), Leaving(c, name);
    forall id | id in live
      ensures ServerPass(c, name).policies != c.policies
    {
      assert id in Bound(c, name) && MarkDeleted(c.policies, live)[id].deleting;
    }
    forall id | id in leaving
      ensures id in Bound(c, name) && FinishedPolicy(c, id).policies != c.policies
    {
      FinishedBound(c, id, name);
    }
    Released(c, name);
    if live == {} && leaving == {} && (Bound(c, name) != {} || !HasGuard(c.servers[name].finalizers)) {
      if Bound(c, name) != {} {
        assert MarkDeleted(c.policies, {}) == c.policies;
      } else {
        assert c.servers[name].finalizers - GUARDS == c.servers[name].finalizers;
      }
      forall id | id in Bound(c, name) && c.policies[id].deleting
        ensures FinishedPolicy(c, id).policies == c.policies
      {
        assert id !in leaving;
        assert c.policies[id].finalizers - GUARDS == c.policies[id].finalizers;
      }
    }
  }

  /** Without foreign finalizers on the bound policies, the only stuck state is the one where the server's Kubewarden
      finalizers are gone. */
  lemma StuckMeansReleased(c: Cluster, name: string)
    requires Sound(c) && name in c.servers && c.servers[name].deleting
    requires forall id :: id in Bound(c, name) ==> c.policies[id].finalizers <= GUARDS
    ensures Stuck(c, name) <==> Bound(c, name) == {} && !HasGuard(c.servers[name].finalizers)
  {
    StuckExactly(c, name);
    forall id | id in Bound(c, name)
      ensures id in Live(c, name) + Leaving(c, name)
    {
      var f := c.policies[id].finalizers;
      if c.policies[id].deleting {
        var x :| x in f;
        assert x in GUARDS;
      }
    }
    if Bound(c, name) == {} {
      assert forall id :: id in Live(c, name) + Leaving(c, name) ==> id in Bound(c, name);
      assert Live(c, name) == {} && Leaving(c, name) == {};
    }
  }
}
