/** The names under which policies appear as webhooks and as keys of the policy server configuration. */
module UniqueNames {
  datatype Kind = ClusterPolicy | NamespacedPolicy | NamespacedGroup | ClusterGroup

  /** Cluster-wide kinds have no namespace; it is kept empty for them. */
  datatype PolicyId = PolicyId(kind: Kind, namespace: string, name: string)

  function UniqueName(id: PolicyId): string {
    match id.kind
    case ClusterPolicy => "clusterwide-" + id.name
    case NamespacedPolicy => "namespaced-" + id.namespace + "-" + id.name
    case NamespacedGroup => "namespaced-group-" + id.namespace + "-" + id.name
    case ClusterGroup => "clusterwide-group-" + id.name
  }

  predicate IsCluster(id: PolicyId) {
    id.kind.ClusterPolicy? || id.kind.ClusterGroup?
  }

  /** One namespace extends the other by a dash and some text, by which the names are shifted. */
  ghost predicate Shifted(ns1: string, n1: string, ns2: string, n2: string) {
    exists k: string :: ns2 == ns1 + "-" + k && n1 == k + "-" + n2
  }

  /** Two namespaced names of one kind collide. */
  ghost predicate SameText(ns1: string, n1: string, ns2: string, n2: string) {
    (ns1 == ns2 && n1 == n2) || Shifted(ns1, n1, ns2, n2) || Shifted(ns2, n2, ns1, n1)
  }

  /** A plain policy collides with a group. */
  ghost predicate LooksLikeGroup(ns1: string, n1: string, ns2: string, n2: string) {
    || (ns1 == "group" && n1 == ns2 + "-" + n2)
    || exists ns: string :: ns1 == "group-" + ns && SameText(ns, n1, ns2, n2)
  }

  /** Exactly when two policies get the same unique name. */
  ghost predicate Collide(a: PolicyId, b: PolicyId) {
    match (a.kind, b.kind)
    case (ClusterPolicy, ClusterPolicy) => a.name == b.name
    case (ClusterGroup, ClusterGroup) => a.name == b.name
    case (ClusterPolicy, ClusterGroup) => a.name == "group-" + b.name
    case (ClusterGroup, ClusterPolicy) => b.name == "group-" + a.name
    case (NamespacedPolicy, NamespacedPolicy) => SameText(a.namespace, a.name, b.namespace, b.name)
    case (NamespacedGroup, NamespacedGroup) => SameText(a.namespace, a.name, b.namespace, b.name)
    case (NamespacedPolicy, NamespacedGroup) => LooksLikeGroup(a.namespace, a.name, b.namespace, b.name)
    case (NamespacedGroup, NamespacedPolicy) => LooksLikeGroup(b.namespace, b.name, a.namespace, a.name)
    case _ => false
  }

  lemma Cancel(p: string, s: string, t: string)
    ensures p + s == p + t <==> s == t
  {
    if p + s == p + t {
      assert (p + s)[|p|..] == s && (p + t)[|p|..] == t;
    }
  }

  lemma ShiftedText(ns1: string, n1: string, ns2: string, n2: string)
    requires Shifted(ns1, n1, ns2, n2)
    ensures ns1 + "-" + n1 == ns2 + "-" + n2
  {
  }

  /** The shorter namespace is a prefix of the longer one, and what follows it there is the shift. */
  lemma TextShifted(ns1: string, n1: string, ns2: string, n2: string)
    requires ns1 + "-" + n1 == ns2 + "-" + n2 && |ns1| < |ns2|
    ensures Shifted(ns1, n1, ns2, n2)
  {
    var t := ns1 + "-" + n1;
    var k := ns2[|ns1| + 1..];
    assert ns2 == t[..|ns2|];
    assert ns2[..|ns1|] == ns1 == t[..|ns1|] && ns2[|ns1|] == t[|ns1|] == '-';
    assert ns2 == ns1 + "-" + k;
    assert n1 == t[|ns1| + 1..] && n2 == t[|ns2| + 1..];
    assert n1 == t[|ns1| + 1..|ns2|] + t[|ns2|..|ns2| + 1] + t[|ns2| + 1..];
    assert n1 == k + "-" + n2;
  }

  lemma SameTextExactly(ns1: string, n1: string, ns2: string, n2: string)
    ensures ns1 + "-" + n1 == ns2 + "-" + n2 <==> SameText(ns1, n1, ns2, n2)
  {
    if ns1 + "-" + n1 == ns2 + "-" + n2 {
      if |ns1| < |ns2| {
        TextShifted(ns1, n1, ns2, n2);
      } else if |ns2| < |ns1| {
        TextShifted(ns2, n2, ns1, n1);
      } else {
        var t := ns1 + "-" + n1;
        assert ns1 == t[..|ns1|] == ns2;
        Cancel(ns1 + "-", n1, n2);
      }
    }
    if Shifted(ns1, n1, ns2, n2) { ShiftedText(ns1, n1, ns2, n2); }
    if Shifted(ns2, n2, ns1, n1) { ShiftedText(ns2, n2, ns1, n1); }
  }

  lemma GroupPrefix(ns1: string, n1: string, ns: string)
    requires ns1 == "group-" + ns
    ensures ns1 + "-" + n1 == "group-" + (ns + "-" + n1)
  {
  }

  lemma LooksLikeGroupExactly(ns1: string, n1: string, ns2: string, n2: string)
    ensures ns1 + "-" + n1 == "group-" + ns2 + "-" + n2 <==> LooksLikeGroup(ns1, n1, ns2, n2)
  {
    var rest := ns2 + "-" + n2;
    assert "group-" + ns2 + "-" + n2 == "group-" + rest;
    if ns1 + "-" + n1 == "group-" + rest {
      var t := ns1 + "-" + n1;
      assert t[..6] == "group-" && t[|ns1|] == '-';
      assert "group-"[0] == 'g' && "group-"[1] == 'r' && "group-"[2] == 'o' && "group-"[3] == 'u' && "group-"[4] == 'p';
      assert forall i :: 0 <= i < 5 ==> t[i] == "group-"[i];
      assert |ns1| >= 5;
      if |ns1| == 5 {
        assert ns1 == t[..5] == "group";
        assert n1 == t[6..] == rest;
      } else {
        var ns := ns1[6..];
        assert ns1[..6] == t[..6] == "group-" && ns1 == "group-" + ns;
        GroupPrefix(ns1, n1, ns);
        Cancel("group-", ns + "-" + n1, rest);
        SameTextExactly(ns, n1, ns2, n2);
      }
    }
    if LooksLikeGroup(ns1, n1, ns2, n2) {
      if ns1 == "group" && n1 == rest {
        assert "group" + "-" == "group-";
      } else {
        var ns: string :| ns1 == "group-" + ns && SameText(ns, n1, ns2, n2);
        SameTextExactly(ns, n1, ns2, n2);
        GroupPrefix(ns1, n1, ns);
      }
    }
  }

  /** The text after the scope prefix. */
  function Tail(id: PolicyId): string {
    match id.kind
    case ClusterPolicy => id.name
    case ClusterGroup => "group-" + id.name
    case NamespacedPolicy => id.namespace + "-" + id.name
    case NamespacedGroup => "group-" + id.namespace + "-" + id.name
  }

  lemma NameIsScopeAndTail(id: PolicyId)
    ensures UniqueName(id) == (if IsCluster(id) then "clusterwide-" else "namespaced-") + Tail(id)
  {
  }

  lemma ScopesDiffer(a: string, b: string)
    ensures "clusterwide-" + a != "namespaced-" + b
  {
    assert ("clusterwide-" + a)[0] == 'c' && ("namespaced-" + b)[0] == 'n';
  }

  lemma TailsExactly(a: PolicyId, b: PolicyId)
    requires IsCluster(a) == IsCluster(b)
    ensures Tail(a) == Tail(b) <==> Collide(a, b)
  {
    if IsCluster(a) {
      Cancel("group-", a.name, b.name);
    } else {
      SameTextExactly(a.namespace, a.name, b.namespace, b.name);
      LooksLikeGroupExactly(a.namespace, a.name, b.namespace, b.name);
      LooksLikeGroupExactly(b.namespace, b.name, a.namespace, a.name);
      Cancel("group-", a.namespace + "-" + a.name, b.namespace + "-" + b.name);
      assert "group-" + a.namespace + "-" + a.name == "group-" + (a.namespace + "-" + a.name);
      assert "group-" + b.namespace + "-" + b.name == "group-" + (b.namespace + "-" + b.name);
    }
  }

  /** Unique names collide in exactly the cases listed by Collide; in particular never across scopes. */
  lemma CollisionsExactly(a: PolicyId, b: PolicyId)
    ensures UniqueName(a) == UniqueName(b) <==> Collide(a, b)
  {
    NameIsScopeAndTail(a);
    NameIsScopeAndTail(b);
    if IsCluster(a) != IsCluster(b) {
      ScopesDiffer(Tail(a), Tail(b));
      ScopesDiffer(Tail(b), Tail(a));
    } else {
      Cancel(if IsCluster(a) then "clusterwide-" else "namespaced-", Tail(a), Tail(b));
      TailsExactly(a, b);
    }
  }

  lemma ShiftNeedsDash(ns1: string, n1: string, ns2: string, n2: string)
    ensures Shifted(ns1, n1, ns2, n2) ==> '-' in ns2
  {
  }

  /** Within one kind, names are injective as long as namespaces hold no dash. */
  lemma InjectiveWithoutDashes(a: PolicyId, b: PolicyId)
    requires a.kind == b.kind && UniqueName(a) == UniqueName(b)
    requires IsCluster(a) ==> a.namespace == "" && b.namespace == ""
    requires '-' !in a.namespace && '-' !in b.namespace
    ensures a == b
  {
    CollisionsExactly(a, b);
    ShiftNeedsDash(a.namespace, a.name, b.namespace, b.name);
    ShiftNeedsDash(b.namespace, b.name, a.namespace, a.name);
  }
}
