/** The status of a policy: what one reconcile pass writes to it, and what holds of every status that is persisted. */
module PolicyStatus {
  import opened Prelude
  import opened UniqueNames
  import opened PolicyConfig
  import opened Reachability

  datatype ConditionType =
    | PolicyActive
    | PolicyUniquelyReachable
    | PolicyServerConfigurationUpToDate
    | OtherCondition(name: string)

  datatype Reason =
    | WebhookMissing | WebhookCreated
    | NotUniquelyReachable | IsUniquelyReachable
    | VersionMatch | VersionMismatch | VersionUnknown
    | OtherReason(text: string)

  datatype Condition = Condition(kind: ConditionType, status: bool, reason: Reason)

  const INACTIVE := Condition(PolicyActive, false, WebhookMissing)
  const ACTIVATED := Condition(PolicyActive, true, WebhookCreated)
  const UNREACHABLE := Condition(PolicyUniquelyReachable, false, NotUniquelyReachable)
  const REACHABLE := Condition(PolicyUniquelyReachable, true, IsUniquelyReachable)

  /** Replaces the first condition of that type, or appends. */
  function SetCondition(cs: seq<Condition>, c: Condition): seq<Condition> {
    if cs == [] then [c]
    else if cs[0].kind == c.kind then [c] + cs[1..]
    else [cs[0]] + SetCondition(cs[1..], c)
  }

  function Lookup(cs: seq<Condition>, k: ConditionType): Option<Condition> {
    if cs == [] then None else if cs[0].kind == k then Some(cs[0]) else Lookup(cs[1..], k)
  }

  predicate IsTrue(cs: seq<Condition>, k: ConditionType) {
    Lookup(cs, k).Some? && Lookup(cs, k).value.status
  }

  ghost predicate UniqueTypes(cs: seq<Condition>) {
    forall i, j :: 0 <= i < j < |cs| ==> cs[i].kind != cs[j].kind
  }

  /** Setting a condition changes what is found under its type, and nothing else. */
  lemma {:induction false} SetThenLookup(cs: seq<Condition>, c: Condition, k: ConditionType)
    ensures Lookup(SetCondition(cs, c), k) == if k == c.kind then Some(c) else Lookup(cs, k)
  {
    if cs != [] && cs[0].kind != c.kind {
      SetThenLookup(cs[1..], c, k);
    }
  }

  lemma {:induction false} SetKeepsTypes(cs: seq<Condition>, c: Condition)
    ensures forall x :: x in SetCondition(cs, c) ==> x == c || x in cs
  {
    if cs != [] && cs[0].kind != c.kind {
      SetKeepsTypes(cs[1..], c);
    }
  }

  lemma {:induction false} SetKeepsUniqueTypes(cs: seq<Condition>, c: Condition)
    requires UniqueTypes(cs)
    ensures UniqueTypes(SetCondition(cs, c))
  {
    if cs != [] && cs[0].kind != c.kind {
      var rest := SetCondition(cs[1..], c);
      SetKeepsUniqueTypes(cs[1..], c);
      SetKeepsTypes(cs[1..], c);
      forall j | 0 <= j < |rest|
        ensures rest[j].kind != cs[0].kind
      {
        assert rest[j] in rest;
        if rest[j] != c {
          var k :| 1 <= k < |cs| && cs[k] == rest[j];
        }
      }
    }
  }

  datatype StatusKind = Unset | Unscheduled | Scheduled | Pending | Active

  datatype Status = Status(kind: StatusKind, mode: string, conditions: seq<Condition>)

  const MODE_UNKNOWN := "unknown"

  /** How far a pass got. */
  datatype Stage = NoServerNamed | NoServer | NoDeployment | DeploymentError | NotReached | NoSecret | NoWebhook | Done

  function PendingUnlessActive(k: StatusKind): StatusKind {
    if k == Active then Active else Pending
  }

  function AsActive(s: Status): Status {
    Status(Active, s.mode, SetCondition(s.conditions, ACTIVATED))
  }

  /** What the stages after the policy server has been found add to the status. */
  function Proceed(s: Status, stage: Stage): Status {
    match stage
    case NotReached => s.(conditions := SetCondition(s.conditions, UNREACHABLE))
    case NoSecret => s.(conditions := SetCondition(s.conditions, REACHABLE))
    case NoWebhook => s.(conditions := SetCondition(s.conditions, REACHABLE))
    case Done => AsActive(s.(conditions := SetCondition(s.conditions, REACHABLE)))
    case _ => s
  }

  /** The status after the main part of a pass. */
  function AfterStage(s: Status, stage: Stage): Status {
    var cs := SetCondition(s.conditions, INACTIVE);
    match stage
    case NoServerNamed => Status(Unscheduled, s.mode, cs)
    case NoServer => Status(Scheduled, s.mode, cs)
    case _ => Proceed(Status(PendingUnlessActive(s.kind), s.mode, cs), stage)
  }

  /** What the second part of a pass finds out about the configuration. */
  datatype ModeRead =
    | ModeFailed
    | ModeSkipped
    | ModeFound(mode: string, version: Reason)

  function ModeIn(cm: ConfigMap, name: string): string {
    if IsPolicyInConfigMap(cm, name) then cm.policies.value[name].policyMode else MODE_UNKNOWN
  }

  function ModeOf(p: Policy): string {
    if p.IsGroup() then p.group.mode else p.plain.mode
  }

  lemma ModeInStored(version: string, j: Json, name: string)
    ensures var m := UnmarshalMap(j);
            ModeIn(Stored(version, Some(j)), name)
            == if m.Some? && name in m.value then m.value[name].policyMode else MODE_UNKNOWN
  {
  }

  lemma EntryMode(p: Policy)
    ensures BuildEntry(p).policyMode == ModeOf(p)
  {
  }

  /** The mode a policy is reported to have is its own, if it is the last of its name and the configuration built from
      all the server's policies can be read; if that cannot be read, the mode of every policy is unknown. */
  lemma ModeReported(ps: seq<Policy>, version: string, i: nat)
    requires i < |ps| && LastOfItsName(ps, i)
    ensures var readable := forall j :: 0 <= j < |ps| && LastOfItsName(ps, j) ==> Readable(ps[j]);
            var cm := Stored(version, Some(MarshalMap(PoliciesMap(ps))));
            ModeIn(cm, UniqueName(ps[i].Id())) == if readable then ModeOf(ps[i]) else MODE_UNKNOWN
  {
    ConfigReadsBackExactly(ps);
    LastPolicyWins(ps);
    EntryMode(ps[i]);
    ModeInStored(version, MarshalMap(PoliciesMap(ps)), UniqueName(ps[i].Id()));
  }

  function VersionReason(d: Deployment, cm: ConfigMap): Reason {
    if d.configVersion.None? then VersionUnknown
    else if d.configVersion.value == cm.resourceVersion then VersionMatch
    else VersionMismatch
  }

  function UpToDate(r: Reason): Condition {
    Condition(PolicyServerConfigurationUpToDate, r == VersionMatch, r)
  }

  function AfterMode(s: Status, m: ModeRead): Status {
    match m
    case ModeFound(mode, r) => Status(s.kind, mode, SetCondition(s.conditions, UpToDate(r)))
    case _ => s
  }

  /** `saved` says whether the status update went through. */
  datatype Pass = Pass(stage: Stage, mode: ModeRead, saved: bool)

  /** Failing to read the mode, or failing to save, leaves the stored status as it was. */
  function Persisted(s: Status, p: Pass): Status {
    if p.mode.ModeFailed? || !p.saved then s else AfterMode(AfterStage(s, p.stage), p.mode)
  }

  predicate Persists(p: Pass) {
    !p.mode.ModeFailed? && p.saved
  }

  /** What every persisted status promises. */
  ghost predicate Sound(s: Status) {
    UniqueTypes(s.conditions)
    && (IsTrue(s.conditions, PolicyActive) ==> s.kind == Active && IsTrue(s.conditions, PolicyUniquelyReachable))
  }

  lemma StageConditions(s: Status, stage: Stage)
    ensures var cs := AfterStage(s, stage).conditions;
            && (IsTrue(cs, PolicyActive) <==> stage == Done)
            && (IsTrue(cs, PolicyUniquelyReachable)
                <==> if stage in {NoServerNamed, NoServer, NoDeployment, DeploymentError}
                     then IsTrue(s.conditions, PolicyUniquelyReachable) else stage != NotReached)
    ensures UniqueTypes(s.conditions) ==> UniqueTypes(AfterStage(s, stage).conditions)
  {
    var cs0 := SetCondition(s.conditions, INACTIVE);
    SetThenLookup(s.conditions, INACTIVE, PolicyActive);
    SetThenLookup(s.conditions, INACTIVE, PolicyUniquelyReachable);
    SetThenLookup(cs0, UNREACHABLE, PolicyActive);
    SetThenLookup(cs0, UNREACHABLE, PolicyUniquelyReachable);
    SetThenLookup(cs0, REACHABLE, PolicyActive);
    SetThenLookup(cs0, REACHABLE, PolicyUniquelyReachable);
    var cs1 := SetCondition(cs0, REACHABLE);
    SetThenLookup(cs1, ACTIVATED, PolicyActive);
    SetThenLookup(cs1, ACTIVATED, PolicyUniquelyReachable);
    if UniqueTypes(s.conditions) {
      SetKeepsUniqueTypes(s.conditions, INACTIVE);
      SetKeepsUniqueTypes(cs0, REACHABLE);
      SetKeepsUniqueTypes(cs0, UNREACHABLE);
      SetKeepsUniqueTypes(cs1, ACTIVATED);
    }
  }

  lemma ModeConditions(s: Status, m: ModeRead)
    ensures var s' := AfterMode(s, m);
            && s'.kind == s.kind
            && (IsTrue(s'.conditions, PolicyActive) <==> IsTrue(s.conditions, PolicyActive))
            && (IsTrue(s'.conditions, PolicyUniquelyReachable) <==> IsTrue(s.conditions, PolicyUniquelyReachable))
            && (UniqueTypes(s.conditions) ==> UniqueTypes(s'.conditions))
  {
    if m.ModeFound? {
      SetThenLookup(s.conditions, UpToDate(m.version), PolicyActive);
      SetThenLookup(s.conditions, UpToDate(m.version), PolicyUniquelyReachable);
      if UniqueTypes(s.conditions) {
        SetKeepsUniqueTypes(s.conditions, UpToDate(m.version));
      }
    }
  }

  /** A policy is reported up to date exactly if the deployment was annotated with the ConfigMap's version; otherwise
      the reason tells a missing annotation from another version. */
  lemma UpToDateExactly(s: Status, mode: string, d: Deployment, cm: ConfigMap)
    ensures var cs := AfterMode(s, ModeFound(mode, VersionReason(d, cm))).conditions;
            var c := Lookup(cs, PolicyServerConfigurationUpToDate);
            && (IsTrue(cs, PolicyServerConfigurationUpToDate) <==> d.configVersion == Some(cm.resourceVersion))
            && c.Some? && (c.value.reason == VersionUnknown <==> d.configVersion == None)
            && (c.value.reason == VersionMatch <==> c.value.status)
  {
    SetThenLookup(s.conditions, UpToDate(VersionReason(d, cm)), PolicyServerConfigurationUpToDate);
  }

  lemma SoundPersisted(s: Status, p: Pass)
    requires Sound(s)
    ensures Sound(Persisted(s, p))
    ensures Persists(p) ==> (IsTrue(Persisted(s, p).conditions, PolicyActive) <==> p.stage == Done)
  {
    StageConditions(s, p.stage);
    ModeConditions(AfterStage(s, p.stage), p.mode);
  }

  /** What becomes of the status in a pass that persists: active exactly if the pass wrote the webhook or the policy was
      active and its server found, and otherwise as far as the pass got. */
  lemma KindExactly(s: Status, p: Pass)
    requires Persists(p)
    ensures var k, found := Persisted(s, p).kind, p.stage !in {NoServerNamed, NoServer};
            && (k == Unscheduled <==> p.stage == NoServerNamed)
            && (k == Scheduled <==> p.stage == NoServer)
            && (k == Active <==> p.stage == Done || (found && s.kind == Active))
            && (k == Pending <==> found && p.stage != Done && s.kind != Active)
  {
  }

  /** The mode found is the mode stored; a pass that finds none, or does not persist, leaves it as it was. */
  lemma ModeExactly(s: Status, p: Pass)
    ensures Persisted(s, p).mode == if Persists(p) && p.mode.ModeFound? then p.mode.mode else s.mode
  {
  }

  // Whole histories.

  ghost predicate IsHistory(ss: seq<Status>, ps: seq<Pass>) {
    |ss| == |ps| + 1 && forall i :: 0 <= i < |ps| ==> ss[i + 1] == Persisted(ss[i], ps[i])
  }

  /** The last persisted pass before status `n`, if any, reached the end. */
  ghost predicate LastPassDone(ss: seq<Status>, ps: seq<Pass>, n: nat)
    requires IsHistory(ss, ps) && n <= |ps|
  {
    if n == 0 then IsTrue(ss[0].conditions, PolicyActive)
    else if Persists(ps[n - 1]) then ps[n - 1].stage == Done
    else LastPassDone(ss, ps, n - 1)
  }

  /** Every persisted status is sound, and says PolicyActive exactly if the last pass that persisted anything wrote the
      policy's webhook. */
  lemma {:induction false} StatusesAlwaysSound(ss: seq<Status>, ps: seq<Pass>, n: nat)
    requires IsHistory(ss, ps) && n <= |ps| && Sound(ss[0])
    ensures Sound(ss[n])
    ensures IsTrue(ss[n].conditions, PolicyActive) <==> LastPassDone(ss, ps, n)
  {
    if n > 0 {
      StatusesAlwaysSound(ss, ps, n - 1);
      SoundPersisted(ss[n - 1], ps[n - 1]);
      assert ss[n - 1 + 1] == Persisted(ss[n - 1], ps[n - 1]);
    }
  }

  /** A policy that has become active owes it to a pass that persisted after it wrote the webhook, and has been active
      since. */
  lemma {:induction false} ActiveSince(ss: seq<Status>, ps: seq<Pass>, n: nat) returns (j: nat)
    requires IsHistory(ss, ps) && n <= |ps| && ss[0].kind != Active && ss[n].kind == Active
    ensures j < n && Persists(ps[j]) && ps[j].stage == Done
    ensures forall i :: j < i <= n ==> ss[i].kind == Active
  {
    var p := ps[n - 1];
    assert ss[n - 1 + 1] == Persisted(ss[n - 1], p);
    if Persists(p) { KindExactly(ss[n - 1], p); }
    if Persists(p) && p.stage == Done {
      j := n - 1;
    } else {
      j := ActiveSince(ss, ps, n - 1);
    }
  }

  /** The moves a persisted pass can make. */
  predicate CanMove(a: StatusKind, b: StatusKind) {
    b != Unset && (a == Active ==> b != Pending)
  }

  /** A pass that persists can take the status exactly along these moves: never back from active to pending. */
  lemma StatusMovesExactly(a: Status, k: StatusKind)
    ensures (exists p :: Persists(p) && Persisted(a, p).kind == k) <==> CanMove(a.kind, k)
  {
    var stage := match k
      case Unscheduled => NoServerNamed
      case Scheduled => NoServer
      case Pending => NoDeployment
      case _ => Done;
    var p := Pass(stage, ModeSkipped, true);
    assert CanMove(a.kind, k) ==> Persists(p) && Persisted(a, p).kind == k;
  }

  /** An active policy keeps that status through a pass that takes PolicyActive away, exactly if the pass found the
      policy server but did not reach the end. */
  lemma ActiveSurvivesExactly(s: Status, p: Pass)
    requires Sound(s) && s.kind == Active && Persists(p)
    ensures var s' := Persisted(s, p);
            s'.kind == Active && !IsTrue(s'.conditions, PolicyActive)
            <==> p.stage !in {NoServerNamed, NoServer, Done}
  {
    SoundPersisted(s, p);
  }
}
