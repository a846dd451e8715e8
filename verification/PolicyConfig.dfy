/** The configuration a policy server reads: how the bound policies are laid out in its ConfigMap, and how the
    controller reads that back. JSON is modelled as a value, not as text. */
module PolicyConfig {
  import opened Prelude
  import opened UniqueNames
  import opened KeyedMaps

  /** The field names of the encoded structures. */
  datatype FieldName =
    | ApiVersion | Kind_ | ModuleField | Settings | ContextAwareResources | NamespaceField | NameField
    | NamespacedName | PolicyMode | AllowedToMutate | Policies | Expression | Message

  /** A JSON object is a JStruct where the program has a structure, and a JDict where it has a map. */
  datatype Json =
    | JNull
    | JBool(b: bool)
    | JString(s: string)
    | JArray(items: seq<Json>)
    | JStruct(fields: map<FieldName, Json>)
    | JDict(entries: map<string, Json>)

  datatype Resource = Resource(apiVersion: string, kind: string)

  /** `settings` is null when the raw extension is nil. */
  datatype Member = Member(module_: string, settings: Json, resources: seq<Resource>)

  datatype Plain = Plain(module_: string, mode: string, mutating: bool, settings: Json, resources: seq<Resource>)

  datatype Group = Group(mode: string, members: map<string, Member>, expression: string, message: string)

  datatype Policy =
    | ClusterAdmissionPolicy(name: string, plain: Plain)
    | AdmissionPolicy(namespace: string, name: string, plain: Plain)
    | AdmissionPolicyGroup(namespace: string, name: string, group: Group)
    | ClusterAdmissionPolicyGroup(name: string, group: Group)
  {
    function Id(): PolicyId {
      match this
      case ClusterAdmissionPolicy(n, _) => PolicyId(ClusterPolicy, "", n)
      case AdmissionPolicy(ns, n, _) => PolicyId(NamespacedPolicy, ns, n)
      case AdmissionPolicyGroup(ns, n, _) => PolicyId(NamespacedGroup, ns, n)
      case ClusterAdmissionPolicyGroup(n, _) => PolicyId(ClusterGroup, "", n)
    }

    predicate IsGroup() {
      AdmissionPolicyGroup? || ClusterAdmissionPolicyGroup?
    }
  }

  /** One entry of the configuration; the last three fields are used by groups only. */
  datatype Entry = Entry(
    namespace: string, name: string, module_: string, policyMode: string, allowedToMutate: bool,
    resources: seq<Resource>, settings: Json,
    members: map<string, Member>, expression: string, message: string)

  /** Namespaced policies have no access to context-aware resources. */
  function BuildEntry(p: Policy): Entry {
    var id := p.Id();
    match p
    case ClusterAdmissionPolicy(_, s) =>
      Entry(id.namespace, id.name, s.module_, s.mode, s.mutating, s.resources, s.settings, map[], "", "")
    case AdmissionPolicy(_, _, s) =>
      Entry(id.namespace, id.name, s.module_, s.mode, s.mutating, [], s.settings, map[], "", "")
    case AdmissionPolicyGroup(_, _, g) =>
      Entry(id.namespace, id.name, "", g.mode, false, [], JNull,
            map n | n in g.members :: g.members[n].(resources := []), g.expression, g.message)
    case ClusterAdmissionPolicyGroup(_, g) =>
      Entry(id.namespace, id.name, "", g.mode, false, [], JNull, g.members, g.expression, g.message)
  }

  /** The policy an entry stands for, given its kind. */
  function PolicyOf(e: Entry, kind: Kind): Policy {
    var plain := Plain(e.module_, e.policyMode, e.allowedToMutate, e.settings, e.resources);
    var group := Group(e.policyMode, e.members, e.expression, e.message);
    match kind
    case ClusterPolicy => ClusterAdmissionPolicy(e.name, plain)
    case NamespacedPolicy => AdmissionPolicy(e.namespace, e.name, plain)
    case NamespacedGroup => AdmissionPolicyGroup(e.namespace, e.name, group)
    case ClusterGroup => ClusterAdmissionPolicyGroup(e.name, group)
  }

  /** A policy without what its kind has no right to. */
  function Permitted(p: Policy): Policy {
    match p
    case AdmissionPolicy(_, _, s) => p.(plain := s.(resources := []))
    case AdmissionPolicyGroup(_, _, g) =>
      p.(group := g.(members := map n | n in g.members :: g.members[n].(resources := [])))
    case _ => p
  }

  /** An entry loses nothing of a policy but the context-aware resources of a namespaced one. */
  lemma EntryLosesNothing(p: Policy)
    ensures PolicyOf(BuildEntry(p), p.Id().kind) == Permitted(p)
  {
  }

  function MarshalResources(rs: seq<Resource>): Json {
    JArray(seq(|rs|, i requires 0 <= i < |rs| =>
      JStruct(map[ApiVersion := JString(rs[i].apiVersion), Kind_ := JString(rs[i].kind)])))
  }

  /** An empty list is omitted. */
  function WithResources(fields: map<FieldName, Json>, rs: seq<Resource>): map<FieldName, Json> {
    if rs == [] then fields else fields[ContextAwareResources := MarshalResources(rs)]
  }

  function MarshalMember(m: Member): Json {
    JStruct(WithResources(map[ModuleField := JString(m.module_), Settings := m.settings], m.resources))
  }

  function MarshalName(namespace: string, name: string): Json {
    JStruct(map[NamespaceField := JString(namespace), NameField := JString(name)])
  }

  function MarshalMembers(ms: map<string, Member>): Json {
    JDict(MapValues(ms, MarshalMember))
  }

  function GroupFields(e: Entry): map<FieldName, Json> {
    map[
      NamespacedName := MarshalName(e.namespace, e.name),
      PolicyMode := JString(e.policyMode),
      Policies := MarshalMembers(e.members),
      Expression := JString(e.expression),
      Message := JString(e.message)]
  }

  function PlainFields(e: Entry): map<FieldName, Json> {
    map[
      NamespacedName := MarshalName(e.namespace, e.name),
      ModuleField := JString(e.module_),
      PolicyMode := JString(e.policyMode),
      AllowedToMutate := JBool(e.allowedToMutate),
      Settings := e.settings]
  }

  function MarshalEntry(e: Entry): Json {
    if |e.members| > 0 then JStruct(GroupFields(e)) else JStruct(WithResources(PlainFields(e), e.resources))
  }

  function MarshalMap(m: map<string, Entry>): Json {
    JDict(MapValues(m, MarshalEntry))
  }

  // Decoding: an absent or null field keeps its zero value; a field of the wrong type is an error.

  function Field(fields: map<FieldName, Json>, key: FieldName): Json {
    if key in fields then fields[key] else JNull
  }

  function AsString(j: Json): Option<string> {
    match j
    case JNull => Some("")
    case JString(s) => Some(s)
    case _ => None
  }

  function AsBool(j: Json): Option<bool> {
    match j
    case JNull => Some(false)
    case JBool(b) => Some(b)
    case _ => None
  }

  function AsFields(j: Json): Option<map<FieldName, Json>> {
    match j
    case JNull => Some(map[])
    case JStruct(f) => Some(f)
    case _ => None
  }

  function AsDict(j: Json): Option<map<string, Json>> {
    match j
    case JNull => Some(map[])
    case JDict(f) => Some(f)
    case _ => None
  }

  function AsResource(j: Json): Option<Resource> {
    var f := AsFields(j);
    if f.None? then None else
      var v, k := AsString(Field(f.value, ApiVersion)), AsString(Field(f.value, Kind_));
      if v.Some? && k.Some? then Some(Resource(v.value, k.value)) else None
  }

  function AsResources(j: Json): Option<seq<Resource>> {
    match j
    case JNull => Some([])
    case JArray(items) =>
      if forall i :: 0 <= i < |items| ==> AsResource(items[i]).Some? then
        Some(seq(|items|, i requires 0 <= i < |items| => AsResource(items[i]).value))
      else None
    case _ => None
  }

  function AsMember(j: Json): Option<Member> {
    var f := AsFields(j);
    if f.None? then None else
      var m, rs := AsString(Field(f.value, ModuleField)), AsResources(Field(f.value, ContextAwareResources));
      if m.Some? && rs.Some? then Some(Member(m.value, Field(f.value, Settings), rs.value)) else None
  }

  function AsMembers(j: Json): Option<map<string, Member>> {
    var f := AsDict(j);
    if f.None? then None else DecodeValues(f.value, AsMember)
  }

  function AsName(j: Json): Option<(string, string)> {
    var f := AsFields(j);
    if f.None? then None else
      var ns, n := AsString(Field(f.value, NamespaceField)), AsString(Field(f.value, NameField));
      if ns.Some? && n.Some? then Some((ns.value, n.value)) else None
  }

  /** The decoded fields of an entry, before they are checked. */
  datatype Parts = Parts(
    name: Option<(string, string)>, module_: Option<string>, mode: Option<string>, mutate: Option<bool>,
    resources: Option<seq<Resource>>, settings: Json, members: Option<map<string, Member>>,
    expression: Option<string>, message: Option<string>)

  function Decode(f: map<FieldName, Json>): Parts {
    Parts(AsName(Field(f, NamespacedName)), AsString(Field(f, ModuleField)), AsString(Field(f, PolicyMode)),
          AsBool(Field(f, AllowedToMutate)), AsResources(Field(f, ContextAwareResources)), Field(f, Settings),
          AsMembers(Field(f, Policies)), AsString(Field(f, Expression)), AsString(Field(f, Message)))
  }

  /** Exactly one of module and members must be there. */
  function Check(p: Parts): Option<Entry> {
    if p.name.None? || p.module_.None? || p.mode.None? || p.mutate.None? || p.resources.None? || p.members.None?
       || p.expression.None? || p.message.None? then None
    else if |p.members.value| == 0 && |p.module_.value| == 0 then None
    else if |p.members.value| != 0 && |p.module_.value| != 0 then None
    else
      Some(Entry(p.name.value.0, p.name.value.1, p.module_.value, p.mode.value, p.mutate.value, p.resources.value,
                 p.settings, p.members.value, p.expression.value, p.message.value))
  }

  /** Decoded fields make an entry exactly if none is of the wrong type and there is a module or there are members, but
      not both. */
  lemma CheckedExactly(p: Parts)
    requires p.module_.Some? && p.members.Some?
    ensures Check(p).Some? <==>
              && p.name.Some? && p.mode.Some? && p.mutate.Some? && p.resources.Some?
              && p.expression.Some? && p.message.Some?
              && (p.module_.value == "" <==> p.members.value != map[])
  {
    assert |p.members.value| == 0 <==> p.members.value == map[];
  }

  /** The fields are filled in first and checked afterwards. */
  function UnmarshalEntry(j: Json): Option<Entry> {
    var f := AsFields(j);
    if f.None? then None else Check(Decode(f.value))
  }

  /** One bad entry makes the whole map unreadable. */
  function UnmarshalMap(j: Json): Option<map<string, Entry>> {
    var f := AsDict(j);
    if f.None? then None else DecodeValues(f.value, UnmarshalEntry)
  }

  // Round trips.

  lemma ResourcesRoundTrip(rs: seq<Resource>)
    ensures AsResources(MarshalResources(rs)) == Some(rs)
  {
    var items := MarshalResources(rs).items;
    forall i | 0 <= i < |rs|
      ensures AsResource(items[i]) == Some(rs[i])
    {
    }
    assert AsResources(JArray(items)).value == rs;
  }

  lemma WithResourcesRoundTrip(fields: map<FieldName, Json>, rs: seq<Resource>)
    requires ContextAwareResources !in fields
    ensures AsResources(Field(WithResources(fields, rs), ContextAwareResources)) == Some(rs)
    ensures forall k :: k != ContextAwareResources ==> Field(WithResources(fields, rs), k) == Field(fields, k)
  {
    ResourcesRoundTrip(rs);
  }

  lemma MemberRoundTrip(m: Member)
    ensures AsMember(MarshalMember(m)) == Some(m)
  {
    var fields := map[ModuleField := JString(m.module_), Settings := m.settings];
    WithResourcesRoundTrip(fields, m.resources);
    var f := WithResources(fields, m.resources);
    assert Field(f, ModuleField) == Field(fields, ModuleField) && Field(f, Settings) == Field(fields, Settings);
  }

  lemma MembersRoundTrip(ms: map<string, Member>)
    ensures AsMembers(MarshalMembers(ms)) == Some(ms)
  {
    forall n | n in ms
      ensures AsMember(MarshalMember(ms[n])) == Some(ms[n])
    {
      MemberRoundTrip(ms[n]);
    }
    DecodeEncoded(ms, MarshalMember, AsMember);
  }

  /** Nothing is set that the chosen layout leaves out. */
  predicate FitsLayout(e: Entry) {
    if |e.members| > 0 then e.module_ == "" && !e.allowedToMutate && e.resources == [] && e.settings == JNull
    else e.expression == "" && e.message == ""
  }

  /** What decoding an encoded entry gives. */
  function PartsOf(e: Entry): Parts {
    Parts(Some((e.namespace, e.name)), Some(e.module_), Some(e.policyMode), Some(e.allowedToMutate), Some(e.resources),
          e.settings, Some(e.members), Some(e.expression), Some(e.message))
  }

  lemma NameRoundTrip(namespace: string, name: string)
    ensures AsName(MarshalName(namespace, name)) == Some((namespace, name))
  {
  }

  lemma PlainLookup(e: Entry)
    ensures var f := PlainFields(e);
            && Field(f, NamespacedName) == MarshalName(e.namespace, e.name)
            && Field(f, ModuleField) == JString(e.module_)
            && Field(f, PolicyMode) == JString(e.policyMode)
            && Field(f, AllowedToMutate) == JBool(e.allowedToMutate)
            && Field(f, Settings) == e.settings
            && Field(f, Policies) == JNull
            && Field(f, Expression) == JNull
            && Field(f, Message) == JNull
            && ContextAwareResources !in f
  {
  }

  lemma PlainDecodes(e: Entry)
    requires FitsLayout(e) && |e.members| == 0
    ensures Decode(WithResources(PlainFields(e), e.resources)) == PartsOf(e)
  {
    PlainLookup(e);
    WithResourcesRoundTrip(PlainFields(e), e.resources);
    NameRoundTrip(e.namespace, e.name);
    assert e.members == map[];
  }

  lemma GroupLookup(e: Entry)
    ensures var f := GroupFields(e);
            && Field(f, NamespacedName) == MarshalName(e.namespace, e.name)
            && Field(f, PolicyMode) == JString(e.policyMode)
            && Field(f, Policies) == MarshalMembers(e.members)
            && Field(f, Expression) == JString(e.expression)
            && Field(f, Message) == JString(e.message)
            && Field(f, ModuleField) == JNull
            && Field(f, AllowedToMutate) == JNull
            && Field(f, ContextAwareResources) == JNull
            && Field(f, Settings) == JNull
  {
  }

  lemma GroupDecodes(e: Entry)
    requires FitsLayout(e) && |e.members| > 0
    ensures Decode(GroupFields(e)) == PartsOf(e)
  {
    GroupLookup(e);
    NameRoundTrip(e.namespace, e.name);
    MembersRoundTrip(e.members);
  }

  /** What the server can be given: a plain policy with a module, or a group with members. */
  predicate Readable(p: Policy) {
    match p
    case ClusterAdmissionPolicy(_, s) => s.module_ != ""
    case AdmissionPolicy(_, _, s) => s.module_ != ""
    case AdmissionPolicyGroup(_, _, g) => g.members != map[]
    case ClusterAdmissionPolicyGroup(_, g) => g.members != map[]
  }

  /** Encoding and decoding again. */
  function ReadBack(e: Entry): Option<Entry> {
    UnmarshalEntry(MarshalEntry(e))
  }

  lemma GroupIsChecked(e: Entry)
    requires FitsLayout(e) && |e.members| > 0
    ensures ReadBack(e) == Check(PartsOf(e))
  {
    GroupDecodes(e);
  }

  lemma PlainIsChecked(e: Entry)
    requires FitsLayout(e) && |e.members| == 0
    ensures ReadBack(e) == Check(PartsOf(e))
  {
    PlainDecodes(e);
  }

  lemma PartsCheck(e: Entry)
    requires FitsLayout(e)
    ensures Check(PartsOf(e)) == if e.module_ == "" && e.members == map[] then None else Some(e)
  {
  }

  /** An entry with nothing outside its layout reads back as itself, unless it has neither module nor members. */
  lemma FittingReadsBack(e: Entry)
    requires FitsLayout(e)
    ensures ReadBack(e) == if e.module_ == "" && e.members == map[] then None else Some(e)
  {
    PartsCheck(e);
    if |e.members| > 0 {
      GroupIsChecked(e);
    } else {
      PlainIsChecked(e);
    }
  }

  /** An entry with neither module nor members does not read back, whatever else it says. */
  lemma EmptyIsUnreadable(e: Entry)
    requires e.members == map[] && e.module_ == ""
    ensures ReadBack(e) == None
  {
    var fitting := e.(expression := "", message := "");
    FittingReadsBack(fitting);
    assert PlainFields(fitting) == PlainFields(e);
  }

  /** The entry of a policy reads back unchanged exactly if the policy is readable, and not at all otherwise. */
  lemma EntryRoundTrip(p: Policy)
    ensures ReadBack(BuildEntry(p)) == if Readable(p) then Some(BuildEntry(p)) else None
  {
    var e := BuildEntry(p);
    if p.IsGroup() {
      assert e.members.Keys == p.group.members.Keys;
      assert e.members == map[] <==> e.members.Keys == {};
    }
    if p.IsGroup() && e.members == map[] {
      EmptyIsUnreadable(e);
    } else {
      FittingReadsBack(e);
    }
  }

  // The map of all bound policies.

  function KeyedEntry(p: Policy): Keyed<Entry> {
    Keyed(UniqueName(p.Id()), BuildEntry(p))
  }

  function KeyedEntries(ps: seq<Policy>): seq<Keyed<Entry>> {
    seq(|ps|, i requires 0 <= i < |ps| => KeyedEntry(ps[i]))
  }

  function PoliciesMap(ps: seq<Policy>): map<string, Entry> {
    MapOf(KeyedEntries(ps))
  }

  method BuildPoliciesMap(ps: seq<Policy>) returns (m: map<string, Entry>)
    ensures m == PoliciesMap(ps)
  {
    m := map[];
    ghost var ks := KeyedEntries(ps);
    for i := 0 to |ps|
      invariant m == MapOf(ks[..i])
    {
      assert ks[..i + 1][..i] == ks[..i];
      var k := KeyedEntry(ps[i]);
      m := m[k.key := k.value];
    }
    assert ks[..|ps|] == ks;
  }

  /** Policy `i` is the last of its unique name. */
  ghost predicate LastOfItsName(ps: seq<Policy>, i: nat)
    requires i < |ps|
  {
    forall j :: i < j < |ps| ==> UniqueName(ps[j].Id()) != UniqueName(ps[i].Id())
  }

  lemma SurvivesIsLast(ps: seq<Policy>)
    ensures forall i :: 0 <= i < |ps| ==> (Survives(KeyedEntries(ps), i) <==> LastOfItsName(ps, i))
  {
    var ks := KeyedEntries(ps);
    assert forall j :: 0 <= j < |ks| ==> ks[j].key == UniqueName(ps[j].Id());
  }

  /** The map has exactly the unique names as keys, and the last policy of each name is its entry. */
  lemma LastPolicyWins(ps: seq<Policy>)
    ensures forall i :: 0 <= i < |ps| ==> UniqueName(ps[i].Id()) in PoliciesMap(ps)
    ensures forall k :: k in PoliciesMap(ps) ==> exists i :: 0 <= i < |ps| && UniqueName(ps[i].Id()) == k
    ensures forall i :: 0 <= i < |ps| && LastOfItsName(ps, i) ==>
                          PoliciesMap(ps)[UniqueName(ps[i].Id())] == BuildEntry(ps[i])
  {
    var ks := KeyedEntries(ps);
    assert forall i :: 0 <= i < |ps| ==> UniqueName(ps[i].Id()) == ks[i].key && BuildEntry(ps[i]) == ks[i].value;
    forall i | 0 <= i < |ps|
      ensures UniqueName(ps[i].Id()) in PoliciesMap(ps)
      ensures LastOfItsName(ps, i) ==> PoliciesMap(ps)[UniqueName(ps[i].Id())] == BuildEntry(ps[i])
    {
      SurvivesIsLast(ps);
      KeyHeld(ks, i);
    }
    forall k | k in PoliciesMap(ps)
      ensures exists i :: 0 <= i < |ps| && UniqueName(ps[i].Id()) == k
    {
      var i := SourceOf(ks, k);
      assert UniqueName(ps[i].Id()) == k;
    }
  }

  predicate Decodes(e: Entry) {
    ReadBack(e).Some?
  }

  /** Decoding what was encoded gives the entry itself or nothing. */
  predicate Faithful(e: Entry) {
    ReadBack(e) == Some(e) || ReadBack(e) == None
  }

  lemma DecodedMapReadsBack(m: map<string, Entry>)
    requires forall k :: k in m ==> ReadBack(m[k]) == Some(m[k])
    ensures UnmarshalMap(MarshalMap(m)) == Some(m)
  {
    DecodeEncoded(m, MarshalEntry, UnmarshalEntry);
  }

  lemma OneBadEntry(m: map<string, Entry>, k: string)
    requires k in m && ReadBack(m[k]) == None
    ensures UnmarshalMap(MarshalMap(m)) == None
  {
    DecodeFails(m, MarshalEntry, UnmarshalEntry, k);
  }

  lemma FaithfulMapReadsBack(m: map<string, Entry>)
    requires forall k :: k in m ==> Faithful(m[k])
    ensures UnmarshalMap(MarshalMap(m)) == if forall k :: k in m ==> Decodes(m[k]) then Some(m) else None
  {
    if forall k :: k in m ==> Decodes(m[k]) {
      DecodedMapReadsBack(m);
    } else {
      var k :| k in m && !Decodes(m[k]);
      OneBadEntry(m, k);
    }
  }

  lemma KeyedEntryDecodes(ps: seq<Policy>, i: nat)
    requires i < |ps|
    ensures Faithful(KeyedEntries(ps)[i].value)
    ensures Decodes(KeyedEntries(ps)[i].value) <==> Readable(ps[i])
  {
    EntryRoundTrip(ps[i]);
  }

  /** The policies entry written to the ConfigMap reads back as the map it was built from, exactly if the last policy
      of every name is readable; otherwise it does not read back at all. */
  lemma ConfigReadsBackExactly(ps: seq<Policy>)
    ensures var readable := forall i :: 0 <= i < |ps| && LastOfItsName(ps, i) ==> Readable(ps[i]);
            UnmarshalMap(MarshalMap(PoliciesMap(ps))) == if readable then Some(PoliciesMap(ps)) else None
  {
    var ks := KeyedEntries(ps);
    forall i | 0 <= i < |ks|
      ensures Faithful(ks[i].value) && (Decodes(ks[i].value) <==> Readable(ps[i]))
    {
      KeyedEntryDecodes(ps, i);
    }
    SurvivesIsLast(ps);
    AllValues(ks, Faithful);
    AllValues(ks, Decodes);
    FaithfulMapReadsBack(MapOf(ks));
  }

  /** From the bound policies into the ConfigMap and back: if it can be read, every policy that is the last of its name
      comes back as it went in, without what its kind has no right to. */
  lemma ConfigRestoresPolicies(ps: seq<Policy>, i: nat)
    requires i < |ps| && LastOfItsName(ps, i)
    requires UnmarshalMap(MarshalMap(PoliciesMap(ps))).Some?
    ensures var m := UnmarshalMap(MarshalMap(PoliciesMap(ps))).value;
            var name := UniqueName(ps[i].Id());
            name in m && PolicyOf(m[name], ps[i].Id().kind) == Permitted(ps[i])
  {
    ConfigReadsBackExactly(ps);
    LastPolicyWins(ps);
    EntryLosesNothing(ps[i]);
  }

  // Reconcile requests.

  datatype Request = Request(namespace: string, name: string)

  function RequestOf(e: Entry): Request {
    Request(e.namespace, e.name)
  }

  ghost function RequestsFor(es: seq<Entry>): seq<Request> {
    Mapped(es, RequestOf)
  }

  /** The requests are those of the entries of one scope. */
  ghost predicate RequestsScope(res: seq<Request>, m: map<string, Entry>, cluster: bool) {
    && (forall k :: k in m && (m[k].namespace == "") == cluster ==> RequestOf(m[k]) in res)
    && (forall r :: r in res ==> exists k :: k in m && (m[k].namespace == "") == cluster && RequestOf(m[k]) == r)
  }

  /** The entries of one scope, in whatever order the map is walked; `keys` tells that order. */
  method ToReconcileRequests(m: map<string, Entry>, cluster: bool) returns (res: seq<Request>, ghost keys: seq<string>)
    ensures Distinct(keys)
    ensures forall k :: k in keys <==> k in m && (m[k].namespace == "") == cluster
    ensures res == RequestsFor(ValuesAt(m, keys)) && RequestsScope(res, m, cluster)
  {
    res, keys := [], [];
    var rest := m.Keys;
    while rest != {}
      invariant rest <= m.Keys && Distinct(keys)
      invariant forall k :: k in keys <==> k in m && k !in rest && (m[k].namespace == "") == cluster
      invariant res == RequestsFor(ValuesAt(m, keys))
    {
      var k :| k in rest;
      rest := rest - {k};
      if (m[k].namespace == "") == cluster {
        res, keys := res + [RequestOf(m[k])], keys + [k];
      }
    }
    assert forall i :: 0 <= i < |keys| ==> keys[i] in keys && res[i] == RequestOf(m[keys[i]]);
  }

  lemma ScopedRequests(m: map<string, Entry>, keys: seq<string>, cluster: bool)
    requires forall k :: k in keys ==> k in m && (m[k].namespace == "") == cluster
    ensures forall r :: r in RequestsFor(ValuesAt(m, keys)) ==> (r.namespace == "") == cluster
  {
    var rs := RequestsFor(ValuesAt(m, keys));
    forall r | r in rs
      ensures (r.namespace == "") == cluster
    {
      var i :| 0 <= i < |rs| && rs[i] == r;
      assert keys[i] in keys && r == RequestOf(m[keys[i]]);
    }
  }

  method ToAdmissionPolicyReconcileRequests(m: map<string, Entry>) returns (res: seq<Request>, ghost keys: seq<string>)
    ensures Distinct(keys) && forall k :: k in keys <==> k in m && m[k].namespace != ""
    ensures res == RequestsFor(ValuesAt(m, keys)) && RequestsScope(res, m, false)
  {
    res, keys := ToReconcileRequests(m, false);
  }

  method ToClusterAdmissionPolicyReconcileRequests(m: map<string, Entry>)
    returns (res: seq<Request>, ghost keys: seq<string>)
    ensures Distinct(keys) && forall k :: k in keys <==> k in m && m[k].namespace == ""
    ensures res == RequestsFor(ValuesAt(m, keys)) && RequestsScope(res, m, true)
  {
    res, keys := ToReconcileRequests(m, true);
  }

  ghost predicate DistinctNames(ps: seq<Policy>) {
    forall i, j :: 0 <= i < j < |ps| ==> UniqueName(ps[i].Id()) != UniqueName(ps[j].Id())
  }

  /** The requests that reconcile the given policies, one each. */
  ghost function Requests(ps: seq<Policy>): seq<Request> {
    seq(|ps|, i requires 0 <= i < |ps| => Request(ps[i].Id().namespace, ps[i].Id().name))
  }

  lemma KeyedRequests(ps: seq<Policy>)
    requires DistinctNames(ps)
    ensures Requests(ps) == RequestsFor(Values(KeyedEntries(ps))) && DistinctKeys(KeyedEntries(ps))
  {
    var ks := KeyedEntries(ps);
    assert forall j :: 0 <= j < |ks| ==> ks[j].key == UniqueName(ps[j].Id());
    assert forall j :: 0 <= j < |ks| ==> RequestOf(Values(ks)[j]) == Requests(ps)[j];
  }

  lemma KeysOfBoth(m: map<string, Entry>, a: seq<string>, b: seq<string>)
    requires forall k :: k in a ==> k in m
    requires forall k :: k in b ==> k in m
    ensures forall k :: k in a + b <==> k in a || k in b
    ensures ValuesAt(m, a + b) == ValuesAt(m, a) + ValuesAt(m, b)
  {
  }

  /** The entries of the two scopes are all entries. */
  lemma BothScopes(ks: seq<Keyed<Entry>>, m: map<string, Entry>, nk: seq<string>, ck: seq<string>)
    requires m == MapOf(ks) && DistinctKeys(ks) && Distinct(nk) && Distinct(ck)
    requires forall k :: k in nk <==> k in m && m[k].namespace != ""
    requires forall k :: k in ck <==> k in m && m[k].namespace == ""
    ensures multiset(ValuesAt(m, nk) + ValuesAt(m, ck)) == multiset(Values(ks))
  {
    DistinctKeysSurvive(ks);
    DistinctAppend(nk, ck);
    KeysOfBoth(m, nk, ck);
    AllVisited(ks, m, nk + ck);
  }

  lemma ScopesRequestAll(ps: seq<Policy>, nk: seq<string>, ck: seq<string>)
    requires DistinctNames(ps) && Distinct(nk) && Distinct(ck)
    requires forall k :: k in nk <==> k in PoliciesMap(ps) && PoliciesMap(ps)[k].namespace != ""
    requires forall k :: k in ck <==> k in PoliciesMap(ps) && PoliciesMap(ps)[k].namespace == ""
    ensures var m := PoliciesMap(ps);
            multiset(RequestsFor(ValuesAt(m, nk)) + RequestsFor(ValuesAt(m, ck))) == multiset(Requests(ps))
  {
    var m, ks := PoliciesMap(ps), KeyedEntries(ps);
    KeyedRequests(ps);
    BothScopes(ks, m, nk, ck);
    MappedAlike(ValuesAt(m, nk) + ValuesAt(m, ck), Values(ks), RequestOf);
    assert RequestsFor(ValuesAt(m, nk) + ValuesAt(m, ck))
        == RequestsFor(ValuesAt(m, nk)) + RequestsFor(ValuesAt(m, ck));
  }

  /** From the bound policies to the two lists of reconcile requests: with distinct unique names, together they name
      every policy exactly once. */
  method RequestEveryPolicy(ps: seq<Policy>) returns (namespaced: seq<Request>, cluster: seq<Request>)
    requires DistinctNames(ps)
    ensures multiset(namespaced) + multiset(cluster) == multiset(Requests(ps))
    ensures forall r :: r in namespaced ==> r.namespace != ""
    ensures forall r :: r in cluster ==> r.namespace == ""
  {
    var m := BuildPoliciesMap(ps);
    ghost var nk, ck;
    namespaced, nk := ToAdmissionPolicyReconcileRequests(m);
    cluster, ck := ToClusterAdmissionPolicyReconcileRequests(m);
    ScopesRequestAll(ps, nk, ck);
    assert multiset(namespaced + cluster) == multiset(namespaced) + multiset(cluster);
    ScopedRequests(m, nk, false);
    ScopedRequests(m, ck, true);
  }
}
