/** The deletion passes of the policy and policy server controllers, as they call the API server. */
module LifecycleController {
  import opened Prelude
  import opened UniqueNames
  import opened Lifecycle

  /** How an API call may go wrong. */
  datatype Failure = NoFailure | NotFoundError | ConflictError | OtherError

  datatype Lookup = Found | NotFound | Failed

  class ApiServer {
    var cluster: Cluster
    var calls: nat
    const failure: nat -> Failure

    constructor (cluster: Cluster, failure: nat -> Failure)
      ensures this.cluster == cluster && this.failure == failure && calls == 0
    {
      this.cluster, this.failure, calls := cluster, failure, 0;
    }

    /** No call since call number `n` failed. */
    ghost predicate ErrorFree(n: nat)
      reads this
    {
      forall k :: n <= k < calls ==> failure(k) == NoFailure
    }

    method Call() returns (f: Failure)
      modifies `calls
      ensures calls == old(calls) + 1 && f == failure(old(calls))
    {
      f := failure(calls);
      calls := calls + 1;
    }

    /** No call since call number `n` went wrong with NotFound. */
    ghost predicate Honest(n: nat)
      reads this
    {
      forall k :: n <= k < calls ==> failure(k) != NotFoundError
    }

    /** Calls since call number `n` went wrong with NotFound if at all. */
    ghost predicate OnlyNotFound(n: nat)
      reads this
    {
      forall k :: n <= k < calls ==> failure(k) in {NoFailure, NotFoundError}
    }

    /** Getting or deleting one object. */
    method CallOn(present: bool) returns (r: Lookup)
      modifies `calls
      ensures calls == old(calls) + 1
      ensures r == match failure(old(calls))
                   case NoFailure => if present then Found else NotFound
                   case NotFoundError => NotFound
                   case _ => Failed
    {
      var f := Call();
      match f
      case NoFailure => r := if present then Found else NotFound;
      case NotFoundError => r := NotFound;
      case _ => r := Failed;
    }
  }

  function Outcome(f: Failure): ListOutcome {
    match f
    case NoFailure => Listed
    case NotFoundError => ListNotFound
    case _ => ListFailed
  }

  ghost function Elements(s: seq<PolicyId>): set<PolicyId> {
    set id | id in s
  }

  function OfKind(c: Cluster, server: string, kind: Kind): set<PolicyId> {
    set id | id in c.policies && c.policies[id].server == server && id.kind == kind
  }

  /** One list of policies by the policy server index; a failed list yields no items. */
  method ListKind(api: ApiServer, server: string, kind: Kind) returns (outcome: ListOutcome, items: seq<PolicyId>)
    modifies api`calls
    ensures api.calls == old(api.calls) + 1 && outcome == Outcome(api.failure(old(api.calls)))
    ensures Distinct(items)
    ensures Elements(items) == if outcome == Listed then OfKind(api.cluster, server, kind) else {}
  {
    var f := api.Call();
    outcome, items := Outcome(f), [];
    if outcome == Listed {
      var rest := OfKind(api.cluster, server, kind);
      while rest != {}
        invariant Distinct(items) && Elements(items) !! rest
        invariant Elements(items) + rest == OfKind(api.cluster, server, kind)
      {
        var id :| id in rest;
        assert id !in Elements(items);
        assert Elements(items + [id]) == Elements(items) + {id};
        items, rest := items + [id], rest - {id};
      }
    }
  }

  /** Items of one more kind are appended. */
  lemma AppendKind(before: seq<PolicyId>, kinds: set<Kind>, items: seq<PolicyId>, kind: Kind)
    requires Distinct(before) && Distinct(items) && kind !in kinds
    requires forall id :: id in before ==> id.kind in kinds
    requires forall id :: id in items ==> id.kind == kind
    ensures Distinct(before + items) && Elements(before + items) == Elements(before) + Elements(items)
    ensures forall id :: id in before + items ==> id.kind in kinds + {kind}
  {
  }

  ghost predicate Items(c: Cluster, server: string, lists: Lists, kind: Kind, items: seq<PolicyId>) {
    Distinct(items) && Elements(items) == if lists.Of(kind) == Listed then OfKind(c, server, kind) else {}
  }

  lemma KindOfItems(c: Cluster, server: string, lists: Lists, kind: Kind, items: seq<PolicyId>)
    requires Items(c, server, lists, kind, items)
    ensures forall id :: id in items ==> id.kind == kind
  {
    assert forall id :: id in items ==> id in Elements(items);
  }

  lemma FourKinds(c: Cluster, server: string, lists: Lists,
                  a: seq<PolicyId>, b: seq<PolicyId>, g: seq<PolicyId>, h: seq<PolicyId>)
    requires Items(c, server, lists, ClusterPolicy, a) && Items(c, server, lists, NamespacedPolicy, b)
    requires Items(c, server, lists, NamespacedGroup, g) && Items(c, server, lists, ClusterGroup, h)
    ensures Distinct(a + b + g + h) && Elements(a + b + g + h) == ListedPolicies(c, server, lists)
  {
    KindOfItems(c, server, lists, ClusterPolicy, a);
    KindOfItems(c, server, lists, NamespacedPolicy, b);
    KindOfItems(c, server, lists, NamespacedGroup, g);
    KindOfItems(c, server, lists, ClusterGroup, h);
    AppendKind(a, {ClusterPolicy}, b, NamespacedPolicy);
    AppendKind(a + b, {ClusterPolicy, NamespacedPolicy}, g, NamespacedGroup);
    AppendKind(a + b + g, {ClusterPolicy, NamespacedPolicy, NamespacedGroup}, h, ClusterGroup);
    forall id
      ensures id in Elements(a + b + g + h) <==> id in ListedPolicies(c, server, lists)
    {
      match id.kind
      case ClusterPolicy =>
      case NamespacedPolicy =>
      case NamespacedGroup =>
      case ClusterGroup =>
    }
  }

  /** All policies bound to the server, of the four kinds in turn. Only a NotFound error is reported; the kinds whose
      list fails otherwise are left out. */
  method GetPolicies(api: ApiServer, server: string) returns (ok: bool, policies: seq<PolicyId>, ghost lists: Lists)
    modifies api`calls
    ensures ok <==> lists.Usable()
    ensures ok <==> api.Honest(old(api.calls))
    ensures ok ==>
              var f, c := api.failure, old(api.calls);
              && api.calls == c + 4
              && lists == Lists(Outcome(f(c)), Outcome(f(c + 1)), Outcome(f(c + 2)), Outcome(f(c + 3)))
    ensures ok ==> Distinct(policies) && Elements(policies) == ListedPolicies(api.cluster, server, lists)
    ensures old(api.calls) <= api.calls && (api.ErrorFree(old(api.calls)) ==> lists == ALL_LISTED)
  {
    lists, policies, ok := ALL_LISTED, [], false;
    var outcome, clusterPolicies := ListKind(api, server, ClusterPolicy);
    lists := lists.(clusterPolicies := outcome);
    if outcome == ListNotFound { assert lists.Of(ClusterPolicy) == ListNotFound; return; }
    var namespaced;
    outcome, namespaced := ListKind(api, server, NamespacedPolicy);
    lists := lists.(policies := outcome);
    if outcome == ListNotFound { assert lists.Of(NamespacedPolicy) == ListNotFound; return; }
    var groups;
    outcome, groups := ListKind(api, server, NamespacedGroup);
    lists := lists.(groups := outcome);
    if outcome == ListNotFound { assert lists.Of(NamespacedGroup) == ListNotFound; return; }
    var clusterGroups;
    outcome, clusterGroups := ListKind(api, server, ClusterGroup);
    lists := lists.(clusterGroups := outcome);
    if outcome == ListNotFound { assert lists.Of(ClusterGroup) == ListNotFound; return; }
    ok := true;
    FourKinds(api.cluster, server, lists, clusterPolicies, namespaced, groups, clusterGroups);
    policies := clusterPolicies + namespaced + groups + clusterGroups;
  }

  lemma MarkDeletedOneMore(policies: map<PolicyId, Policy>, deleted: set<PolicyId>, id: PolicyId)
    ensures MarkDeleted(MarkDeleted(policies, deleted), {id}) == MarkDeleted(policies, deleted + {id})
  {
  }

  /** Every listed policy not yet being deleted is deleted; errors are collected, not returned at once. A policy that is
      not found counts as deleted: these are `missed`. */
  method DeletePoliciesAndRequeue(api: ApiServer, policies: seq<PolicyId>)
    returns (requeue: bool, ghost deleted: set<PolicyId>, ghost missed: set<PolicyId>)
    requires forall id :: id in policies ==> id in api.cluster.policies
    modifies api
    ensures api.cluster == old(api.cluster).(policies := MarkDeleted(old(api.cluster).policies, deleted))
    ensures forall id :: id in deleted ==> id in policies && !old(api.cluster).policies[id].deleting
    ensures requeue ==>
              forall id :: id in policies && !old(api.cluster).policies[id].deleting ==> id in deleted || id in missed
    ensures api.Honest(old(api.calls)) ==> missed == {}
    ensures old(api.calls) <= api.calls && (requeue <==> api.OnlyNotFound(old(api.calls)))
  {
    var copies := api.cluster.policies;
    var errors := 0;
    deleted, missed := {}, {};
    assert MarkDeleted(copies, {}) == copies;
    for i := 0 to |policies|
      invariant api.cluster == old(api.cluster).(policies := MarkDeleted(copies, deleted))
      invariant forall id :: id in deleted ==> id in policies && !copies[id].deleting
      invariant errors == 0 ==> forall j :: 0 <= j < i && !copies[policies[j]].deleting ==>
                                              policies[j] in deleted || policies[j] in missed
      invariant api.Honest(old(api.calls)) ==> missed == {}
      invariant old(api.calls) <= api.calls && (errors == 0 <==> api.OnlyNotFound(old(api.calls)))
    {
      var id := policies[i];
      if copies[id].deleting { continue; }
      var r := api.CallOn(true);
      match r
      case Found =>
        MarkDeletedOneMore(copies, deleted, id);
        api.cluster := api.cluster.(policies := MarkDeleted(api.cluster.policies, {id}));
        deleted := deleted + {id};
      case NotFound => missed := missed + {id};
      case Failed => errors := errors + 1;
    }
    requeue := errors == 0;
  }

  datatype Result = Done | Requeue | Error

  /** Policies first; the server's finalizers go only when no policy is listed. A conflict means that the server is
      already gone. */
  method ReconcileDeletion(api: ApiServer, name: string, policies: seq<PolicyId>, ghost lists: Lists)
    returns (r: Result, ghost e: Event)
    requires name in api.cluster.servers && api.cluster.servers[name].deleting && lists.Usable()
    requires Elements(policies) == ListedPolicies(api.cluster, name, lists)
    modifies api
    ensures api.cluster == old(api.cluster) || Next(old(api.cluster), e, api.cluster)
    ensures TakesPart(old(api.cluster), e, name)
    ensures old(api.calls) <= api.calls
    ensures policies != [] ==>
              && r != Done && e.DeleteBound? && e.name == name && e.lists == lists
              && (r == Requeue && api.Honest(old(api.calls)) ==>
                    e.deleted == Live(old(api.cluster), name) * Elements(policies))
              && Next(old(api.cluster), e, api.cluster)
    // It asks to be called again exactly if deleting the policies went well.
    ensures policies != [] ==> (r == Requeue <==> api.OnlyNotFound(old(api.calls)))
    // Without policies, everything depends on the update of the server.
    ensures policies == [] ==>
              && api.calls == old(api.calls) + 1
              && r == (if api.failure(old(api.calls)) in {NoFailure, ConflictError} then Done else Error)
              && api.cluster == (if api.failure(old(api.calls)) == NoFailure then ReleasedServer(old(api.cluster), name)
                                 else old(api.cluster))
  {
    if |policies| != 0 {
      assert forall id :: id in policies ==> id in Elements(policies);
      var requeue;
      ghost var deleted, missed;
      requeue, deleted, missed := DeletePoliciesAndRequeue(api, policies);
      e := DeleteBound(name, lists, deleted);
      r := if requeue then Requeue else Error;
      assert policies[0] in ListedPolicies(old(api.cluster), name, lists);
      return;
    }
    e := ReleaseServer(name, lists);
    var s := api.cluster.servers[name];
    s := s.(finalizers := s.finalizers - {KUBEWARDEN_FINALIZER_PRE_114});
    s := s.(finalizers := s.finalizers - {KUBEWARDEN_FINALIZER});
    assert s.finalizers == api.cluster.servers[name].finalizers - GUARDS;
    var f := api.Call();
    match f
    case NoFailure =>
      api.cluster := StoreServer(api.cluster, name, s);
      r := Done;
    case ConflictError => r := Done;
    case _ => r := Error;
  }

  /** A pass over a policy server, as far as deletion is concerned. */
  method ReconcileServer(api: ApiServer, name: string) returns (r: Result, ghost e: Event)
    modifies api
    ensures api.cluster == old(api.cluster)
            || (Next(old(api.cluster), e, api.cluster) && TakesPart(old(api.cluster), e, name))
    ensures old(api.calls) <= api.calls
    ensures name in old(api.cluster).servers && old(api.cluster).servers[name].deleting
            && api.ErrorFree(old(api.calls)) ==>
              r != Error && api.cluster == ServerPass(old(api.cluster), name)
    // A pass over a deleting server is done only if its finalizers are gone, or it is told that the server is.
    ensures name in old(api.cluster).servers && old(api.cluster).servers[name].deleting && r == Done ==>
              || (name in api.cluster.servers ==> !HasGuard(api.cluster.servers[name].finalizers))
              || api.failure(old(api.calls)) == NotFoundError
              || api.failure(old(api.calls) + 5) == ConflictError
  {
    e := DeleteServer(name);
    var found := api.CallOn(name in api.cluster.servers);
    if found != Found {
      r := if found == NotFound then Done else Error;
      return;
    }
    var ok, policies;
    ghost var lists;
    ok, policies, lists := GetPolicies(api, name);
    if !ok { return Error, e; }
    if !api.cluster.servers[name].deleting { return Done, e; }
    assert lists == ALL_LISTED ==> ListedPolicies(api.cluster, name, lists) == Bound(api.cluster, name);
    assert policies == [] <==> Elements(policies) == {} by {
      if policies != [] { assert policies[0] in Elements(policies); }
    }
    r, e := ReconcileDeletion(api, name, policies, lists);
    assert Live(old(api.cluster), name) * Bound(old(api.cluster), name) == Live(old(api.cluster), name);
  }

  /** A webhook is looked up and deleted. */
  method ReconcileWebhookDeletion(api: ApiServer, key: HookKey) returns (ok: bool, ghost missed: bool)
    modifies api
    ensures api.cluster == if ok && !missed then old(api.cluster).(hooks := old(api.cluster).hooks - {key})
                           else old(api.cluster)
    ensures missed ==> key in old(api.cluster).hooks && !api.Honest(old(api.calls))
    ensures old(api.calls) <= api.calls && (api.ErrorFree(old(api.calls)) ==> ok && !missed)
  {
    var r := api.CallOn(key in api.cluster.hooks);
    if r == Found {
      r := api.CallOn(true);
      if r == Found {
        api.cluster := api.cluster.(hooks := api.cluster.hooks - {key});
      }
    }
    ok, missed := r != Failed, r == NotFound && key in api.cluster.hooks;
    assert key !in old(api.cluster).hooks ==> old(api.cluster).hooks - {key} == old(api.cluster).hooks;
  }

  /** A pass over a policy being deleted: its webhook of the current kind, then its finalizers. A webhook that is not
      found counts as gone; `missed` tells that it was there nevertheless. */
  method ReconcilePolicyDeletion(api: ApiServer, id: PolicyId) returns (ok: bool, ghost missed: bool)
    requires id in api.cluster.policies && api.cluster.policies[id].deleting
    modifies api
    ensures ok ==> Next(old(api.cluster), if missed then MissHook(id) else FinishPolicy(id), api.cluster)
    ensures !ok ==> api.cluster == old(api.cluster) || Next(old(api.cluster), DropHook(id), api.cluster)
    ensures missed ==> Key(id, old(api.cluster).policies[id]) in old(api.cluster).hooks && !api.Honest(old(api.calls))
    ensures old(api.calls) <= api.calls && (api.ErrorFree(old(api.calls)) ==> ok && !missed)
  {
    var p := api.cluster.policies[id];
    var deleted;
    deleted, missed := ReconcileWebhookDeletion(api, HookKey(p.mutating, UniqueName(id)));
    ok := false;
    if deleted {
      p := p.(finalizers := p.finalizers - {KUBEWARDEN_FINALIZER_PRE_114});
      p := p.(finalizers := p.finalizers - {KUBEWARDEN_FINALIZER});
      assert p.finalizers == old(api.cluster).policies[id].finalizers - GUARDS;
      var f := api.Call();
      if f == NoFailure {
        api.cluster := StorePolicy(api.cluster, id, p);
        ok := true;
      }
    }
  }

  /** The webhook of a live policy is created or patched. */
  method ReconcileWebhook(api: ApiServer, id: PolicyId) returns (ok: bool)
    requires id in api.cluster.policies && !api.cluster.policies[id].deleting
    requires api.cluster.policies[id].server in api.cluster.servers
    modifies api
    ensures if ok then Next(old(api.cluster), WriteHook(id), api.cluster) else api.cluster == old(api.cluster)
    ensures old(api.calls) <= api.calls && (api.ErrorFree(old(api.calls)) ==> ok)
  {
    var p := api.cluster.policies[id];
    var key := HookKey(p.mutating, UniqueName(id));
    var present := key in api.cluster.hooks;
    var r := api.CallOn(present);
    if r == Failed { return false; }
    var f := api.Call();
    // Creating a webhook that is there after all fails.
    ok := f == NoFailure && (r == Found) == present;
    if ok {
      api.cluster := api.cluster.(hooks := api.cluster.hooks[key := Hook(id, p.server)]);
    }
  }

  /** A run whose states are all strong, so that webhooks are sound throughout. */
  ghost predicate StrongRun(cs: seq<Cluster>, es: seq<Event>) {
    IsRun(cs, es) && forall i :: 0 <= i < |cs| ==> Strong(cs[i])
  }

  lemma StrongRunExtended(cs: seq<Cluster>, es: seq<Event>, e: Event, c: Cluster)
    requires StrongRun(cs, es) && Next(cs[|es|], e, c) && Strong(c)
    ensures StrongRun(cs + [c], es + [e])
  {
  }

  lemma FinishStep(c: Cluster, c': Cluster, id: PolicyId, name: string)
    requires Strong(c) && Next(c, FinishPolicy(id), c') && id in Leaving(c, name)
    requires forall k :: k in Bound(c, name) ==> c.policies[k].finalizers <= GUARDS
    ensures Strong(c') && c'.servers == c.servers && Measure(c', name) < Measure(c, name)
    ensures forall k :: k in Bound(c', name) ==> c'.policies[k].finalizers <= GUARDS
  {
    StrongNext(c, FinishPolicy(id), c');
    FinishedBound(c, id, name);
    assert id !in Leaving(c', name);
    PassLowersMeasure(c, FinishPolicy(id), c', name);
  }

  lemma BoundIsLiveOrLeaving(c: Cluster, name: string, id: PolicyId)
    requires Sound(c) && id in Bound(c, name) && c.policies[id].finalizers <= GUARDS
    ensures id in Live(c, name) || id in Leaving(c, name)
  {
  }

  lemma DrainStep(c: Cluster, name: string)
    requires Strong(c) && name in c.servers && c.servers[name].deleting
    requires forall id :: id in Bound(c, name) ==> c.policies[id].finalizers <= GUARDS
    requires Live(c, name) != {} || Leaving(c, name) == {}
    ensures var c' := ServerPass(c, name);
            && Strong(c')
            && (forall id :: id in Bound(c', name) ==> c'.policies[id].finalizers <= GUARDS)
            && Measure(c', name) < Measure(c, name)
            && (name in c'.servers ==> c'.servers[name].deleting)
            && (name !in c'.servers ==> Bound(c', name) == {})
  {
    var c' := ServerPass(c, name);
    ServerPassIsStep(c, name);
    var e := ServerPassEvent(c, name);
    StrongNext(c, e, c');
    forall id | id in Bound(c', name)
      ensures c'.policies[id].finalizers <= GUARDS
    {
      assert id in Bound(c, name);
    }
    StuckMeansReleased(c, name);
    if Bound(c, name) == {} {
      var f := c.servers[name].finalizers;
      var x :| x in f;
      assert x in GUARDS && HasGuard(f);
      assert f - GUARDS == {};
      assert Bound(c', name) == {};
      assert name !in c'.servers;
    } else {
      var id :| id in Bound(c, name);
      BoundIsLiveOrLeaving(c, name, id);
      var live :| live in Live(c, name);
      assert c'.policies[live].deleting;
    }
    PassLowersMeasure(c, e, c', name);
  }

  /** Once calls stop failing and no new policy is bound, any schedule of error-free passes that always picks one with
      work to do ends with the policies gone and the server released. `policyFirst` is the scheduler's choice. */
  method Drain(api: ApiServer, name: string, policyFirst: nat -> bool)
    returns (ghost cs: seq<Cluster>, ghost es: seq<Event>)
    requires Strong(api.cluster) && name in api.cluster.servers && api.cluster.servers[name].deleting
    requires forall id :: id in Bound(api.cluster, name) ==> api.cluster.policies[id].finalizers <= GUARDS
    requires forall n: nat :: api.failure(n) == NoFailure
    modifies api
    ensures StrongRun(cs, es) && cs[0] == old(api.cluster) && cs[|es|] == api.cluster
    ensures name !in api.cluster.servers && Bound(api.cluster, name) == {}
    ensures |es| <= Measure(old(api.cluster), name)
  {
    cs, es := [api.cluster], [];
    while name in api.cluster.servers
      invariant StrongRun(cs, es) && cs[0] == old(api.cluster) && cs[|es|] == api.cluster
      invariant |es| + Measure(api.cluster, name) <= Measure(old(api.cluster), name)
      invariant name in api.cluster.servers ==> api.cluster.servers[name].deleting
      invariant forall id :: id in Bound(api.cluster, name) ==> api.cluster.policies[id].finalizers <= GUARDS
      invariant name !in api.cluster.servers ==> Bound(api.cluster, name) == {}
      decreases Measure(api.cluster, name), if name in api.cluster.servers then 1 else 0
    {
      ghost var c := api.cluster;
      var leaving := Leaving(api.cluster, name);
      if leaving != {} && (policyFirst(api.calls) || Live(api.cluster, name) == {}) {
        var id :| id in leaving;
        var _, _ := ReconcilePolicyDeletion(api, id);
        FinishStep(c, api.cluster, id, name);
        StrongRunExtended(cs, es, FinishPolicy(id), api.cluster);
        cs, es := cs + [api.cluster], es + [FinishPolicy(id)];
      } else {
        var _, _ := ReconcileServer(api, name);
        DrainStep(c, name);
        ServerPassIsStep(c, name);
        StrongRunExtended(cs, es, ServerPassEvent(c, name), api.cluster);
        cs, es := cs + [api.cluster], es + [ServerPassEvent(c, name)];
      }
    }
  }
}
