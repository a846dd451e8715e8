/** Which namespaces the webhook of a policy looks at. */
module Selectors {
  import opened Prelude

  datatype Operator = In | NotIn | Exists | DoesNotExist

  datatype Requirement = Requirement(key: string, operator: Operator, values: seq<string>)

  datatype Selector = Selector(matchLabels: map<string, string>, matchExpressions: seq<Requirement>)

  type Labels = map<string, string>

  /** `user` is the selector of the policy's specification; only cluster-wide policies have one. */
  datatype Policy =
    | ClusterAdmissionPolicy(user: Option<Selector>)
    | ClusterAdmissionPolicyGroup(user: Option<Selector>)
    | AdmissionPolicy(namespace: string)
    | AdmissionPolicyGroup(namespace: string)

  const NAME_LABEL := "kubernetes.io/metadata.name"

  // What a selector means (Kubernetes label selectors).

  predicate Satisfies(labels: Labels, r: Requirement) {
    match r.operator
    case In => r.key in labels && labels[r.key] in r.values
    case NotIn => r.key !in labels || labels[r.key] !in r.values
    case Exists => r.key in labels
    case DoesNotExist => r.key !in labels
  }

  ghost predicate SatisfiesAll(labels: Labels, rs: seq<Requirement>) {
    forall i :: 0 <= i < |rs| ==> Satisfies(labels, rs[i])
  }

  ghost predicate HasLabels(labels: Labels, wanted: map<string, string>) {
    forall k :: k in wanted ==> k in labels && labels[k] == wanted[k]
  }

  /** No selector at all matches everything. */
  ghost predicate Matches(s: Option<Selector>, labels: Labels) {
    s.Some? ==> HasLabels(labels, s.value.matchLabels) && SatisfiesAll(labels, s.value.matchExpressions)
  }

  // What the controller builds.

  function GetNamespaceSelector(p: Policy): Option<Selector> {
    match p
    case ClusterAdmissionPolicy(user) => user
    case ClusterAdmissionPolicyGroup(user) => user
    case AdmissionPolicy(ns) => Some(Selector(map[NAME_LABEL := ns], []))
    case AdmissionPolicyGroup(ns) => Some(Selector(map[NAME_LABEL := ns], []))
  }

  predicate IsCluster(p: Policy) {
    p.ClusterAdmissionPolicy? || p.ClusterAdmissionPolicyGroup?
  }

  function NotNamed(ns: string): Requirement {
    Requirement(NAME_LABEL, NotIn, [ns])
  }

  function NamespaceSelector(p: Policy, deploymentsNamespace: string): Option<Selector> {
    var given := GetNamespaceSelector(p);
    if IsCluster(p) then
      var extra := if given.Some? then given.value.matchExpressions else [];
      Some(Selector(map[], [NotNamed(deploymentsNamespace)] + extra))
    else
      given
  }

  ghost predicate IsNamed(labels: Labels, ns: string) {
    NAME_LABEL in labels && labels[NAME_LABEL] == ns
  }

  /** A cluster-wide policy's webhook looks at a namespace exactly if it is not the controller's own and satisfies all
      the expressions the user gave; a namespaced policy's webhook looks at exactly its own namespace. */
  lemma SelectorMatchesExactly(p: Policy, own: string, labels: Labels)
    ensures IsCluster(p) ==>
              (Matches(NamespaceSelector(p, own), labels)
               <==> !IsNamed(labels, own) && (p.user.Some? ==> SatisfiesAll(labels, p.user.value.matchExpressions)))
    ensures !IsCluster(p) ==> (Matches(NamespaceSelector(p, own), labels) <==> IsNamed(labels, p.namespace))
  {
    if IsCluster(p) {
      var extra := if p.user.Some? then p.user.value.matchExpressions else [];
      var all := [NotNamed(own)] + extra;
      assert Satisfies(labels, all[0]) <==> !IsNamed(labels, own);
      assert forall i :: 0 <= i < |extra| ==> all[i + 1] == extra[i];
      assert SatisfiesAll(labels, all) <==> Satisfies(labels, all[0]) && SatisfiesAll(labels, extra) by {
        if SatisfiesAll(labels, all) {
          forall i | 0 <= i < |extra| ensures Satisfies(labels, extra[i]) {
            assert Satisfies(labels, all[i + 1]);
          }
        }
      }
    } else {
      assert HasLabels(labels, map[NAME_LABEL := p.namespace]) <==> IsNamed(labels, p.namespace);
    }
  }

  /** What a cluster-wide policy's author asked for: the namespaces of the given selector, except the controller's. */
  ghost predicate Wanted(user: Option<Selector>, own: string, labels: Labels) {
    !IsNamed(labels, own) && Matches(user, labels)
  }

  /** The webhook looks at everything that was asked for. It agrees with the request on a namespace exactly if that
      namespace has the labels asked for, or was excluded for another reason: the labels themselves are not looked
      at. */
  lemma MatchLabelsIgnoredExactly(user: Selector, own: string, labels: Labels)
    ensures var p := ClusterAdmissionPolicy(Some(user));
            && (Wanted(p.user, own, labels) ==> Matches(NamespaceSelector(p, own), labels))
            && ((Matches(NamespaceSelector(p, own), labels) <==> Wanted(p.user, own, labels))
                <==> HasLabels(labels, user.matchLabels) || IsNamed(labels, own)
                     || !SatisfiesAll(labels, user.matchExpressions))
  {
    SelectorMatchesExactly(ClusterAdmissionPolicy(Some(user)), own, labels);
  }

  /** A selector made of labels alone is honoured on every namespace exactly if it asks for no label at all. */
  lemma LabelsAloneExactly(wanted: map<string, string>, own: string)
    ensures var p := ClusterAdmissionPolicy(Some(Selector(wanted, [])));
            (forall labels :: Matches(NamespaceSelector(p, own), labels) <==> Wanted(p.user, own, labels))
            <==> wanted == map[]
  {
    var user := Selector(wanted, []);
    var p := ClusterAdmissionPolicy(Some(user));
    forall labels
      ensures (Matches(NamespaceSelector(p, own), labels) <==> Wanted(p.user, own, labels))
              <==> HasLabels(labels, wanted) || IsNamed(labels, own)
    {
      MatchLabelsIgnoredExactly(user, own, labels);
    }
    if wanted != map[] {
      var k :| k in wanted;
      var bare: Labels := map[];
      assert !HasLabels(bare, wanted) && !IsNamed(bare, own);
    }
  }
}
