/** Admission of the policies themselves: match conditions, and what accepted updates can and cannot change. */
module Validation {
  import Lifecycle

  // Match conditions.

  datatype MatchCondition = MatchCondition(name: string, expression: string)

  datatype FieldError =
    | TooMany(count: nat)
    | ExpressionRequired(index: nat)
    | ExpressionInvalid(index: nat)
    | NameRequired(index: nat)
    | NameInvalid(index: nat, message: string)
    | DuplicateName(index: nat, name: string)

  const MAX_MATCH_CONDITIONS := 64

  /** The libraries the checks rest on: which characters are white space, whether an expression compiles, and what is
      wrong with a name. */
  datatype Rules = Rules(isSpace: char -> bool, compiles: string -> bool, nameProblems: string -> seq<string>)

  function TrimLeft(r: Rules, s: string): string {
    if s != "" && r.isSpace(s[0]) then TrimLeft(r, s[1..]) else s
  }

  function TrimRight(r: Rules, s: string): string {
    if s != "" && r.isSpace(s[|s| - 1]) then TrimRight(r, s[..|s| - 1]) else s
  }

  function TrimSpace(r: Rules, s: string): string {
    TrimRight(r, TrimLeft(r, s))
  }

  ghost predicate Blank(r: Rules, s: string) {
    forall i :: 0 <= i < |s| ==> r.isSpace(s[i])
  }

  lemma {:induction false} TrimLeftBlank(r: Rules, s: string)
    ensures TrimLeft(r, s) == "" <==> Blank(r, s)
    ensures TrimLeft(r, s) != "" ==> !r.isSpace(TrimLeft(r, s)[0])
  {
    if s != "" && r.isSpace(s[0]) {
      TrimLeftBlank(r, s[1..]);
      assert forall i :: 1 <= i < |s| ==> s[i] == s[1..][i - 1];
    }
  }

  lemma {:induction false} TrimRightBlank(r: Rules, s: string)
    ensures TrimRight(r, s) == "" <==> Blank(r, s)
  {
    if s != "" && r.isSpace(s[|s| - 1]) {
      TrimRightBlank(r, s[..|s| - 1]);
    }
  }

  /** Trimming leaves nothing exactly of blank text. */
  lemma TrimmedExactly(r: Rules, s: string)
    ensures TrimSpace(r, s) == "" <==> Blank(r, s)
  {
    TrimLeftBlank(r, s);
    TrimRightBlank(r, TrimLeft(r, s));
  }

  function NameErrors(messages: seq<string>, i: nat): seq<FieldError> {
    seq(|messages|, k requires 0 <= k < |messages| => NameInvalid(i, messages[k]))
  }

  function ValidateMatchCondition(r: Rules, m: MatchCondition, i: nat): seq<FieldError> {
    var e := TrimSpace(r, m.expression);
    (if e == "" then [ExpressionRequired(i)] else if !r.compiles(e) then [ExpressionInvalid(i)] else [])
    + (if m.name == "" then [NameRequired(i)] else NameErrors(r.nameProblems(m.name), i))
  }

  ghost predicate GoodCondition(r: Rules, m: MatchCondition) {
    !Blank(r, m.expression) && r.compiles(TrimSpace(r, m.expression)) && m.name != "" && r.nameProblems(m.name) == []
  }

  /** Each fault gets its own error. */
  lemma ErrorForEachFault(r: Rules, m: MatchCondition, i: nat)
    ensures var es := ValidateMatchCondition(r, m, i);
            && (ExpressionRequired(i) in es <==> Blank(r, m.expression))
            && (ExpressionInvalid(i) in es <==> !Blank(r, m.expression) && !r.compiles(TrimSpace(r, m.expression)))
            && (NameRequired(i) in es <==> m.name == "")
            && forall msg :: NameInvalid(i, msg) in es <==> m.name != "" && msg in r.nameProblems(m.name)
  {
    TrimmedExactly(r, m.expression);
    var es, ne := ValidateMatchCondition(r, m, i), NameErrors(r.nameProblems(m.name), i);
    forall msg | msg in r.nameProblems(m.name) && m.name != ""
      ensures NameInvalid(i, msg) in es
    {
      var k :| 0 <= k < |ne| && r.nameProblems(m.name)[k] == msg;
      assert ne[k] in ne;
    }
  }

  lemma ConditionErrorsExactly(r: Rules, m: MatchCondition, i: nat)
    ensures ValidateMatchCondition(r, m, i) == [] <==> GoodCondition(r, m)
    ensures forall e :: e in ValidateMatchCondition(r, m, i) ==> !e.DuplicateName?
  {
    TrimmedExactly(r, m.expression);
  }

  // Error lists, put together from the errors at each index.

  ghost function Gather(c: seq<seq<FieldError>>, n: nat): seq<FieldError>
    requires n <= |c|
  {
    if n == 0 then [] else Gather(c, n - 1) + c[n - 1]
  }

  lemma {:induction false} GatherEmpty(c: seq<seq<FieldError>>, n: nat)
    requires n <= |c|
    ensures Gather(c, n) == [] <==> forall i :: 0 <= i < n ==> c[i] == []
  {
    if n > 0 {
      GatherEmpty(c, n - 1);
    }
  }

  ghost function DuplicateErrors(es: seq<FieldError>): seq<FieldError> {
    if es == [] then [] else
      var last := es[|es| - 1];
      DuplicateErrors(es[..|es| - 1]) + if last.DuplicateName? then [last] else []
  }

  lemma {:induction false} DuplicateErrorsAppend(a: seq<FieldError>, b: seq<FieldError>)
    ensures DuplicateErrors(a + b) == DuplicateErrors(a) + DuplicateErrors(b)
  {
    if b == [] {
      assert a + b == a;
    } else {
      assert (a + b)[..|a + b| - 1] == a + b[..|b| - 1];
      DuplicateErrorsAppend(a, b[..|b| - 1]);
    }
  }

  lemma {:induction false} NoDuplicateErrors(es: seq<FieldError>)
    requires forall e :: e in es ==> !e.DuplicateName?
    ensures DuplicateErrors(es) == []
  {
    if es != [] {
      NoDuplicateErrors(es[..|es| - 1]);
    }
  }

  lemma GatherOneMore(c: seq<seq<FieldError>>, d: seq<seq<FieldError>>, n: nat)
    requires 0 < n <= |c| == |d| && DuplicateErrors(c[n - 1]) == d[n - 1]
    requires DuplicateErrors(Gather(c, n - 1)) == Gather(d, n - 1)
    ensures DuplicateErrors(Gather(c, n)) == Gather(d, n)
  {
    DuplicateErrorsAppend(Gather(c, n - 1), c[n - 1]);
  }

  lemma {:induction false} GatherDuplicates(c: seq<seq<FieldError>>, d: seq<seq<FieldError>>, n: nat)
    requires n <= |c| == |d| && forall i :: 0 <= i < |c| ==> DuplicateErrors(c[i]) == d[i]
    ensures DuplicateErrors(Gather(c, n)) == Gather(d, n)
  {
    if n > 0 {
      GatherDuplicates(c, d, n - 1);
      GatherOneMore(c, d, n);
    }
  }

  // Names.

  /** The names of the first `n` conditions, as far as they have one. */
  ghost function NamesUsed(ms: seq<MatchCondition>, n: nat): set<string>
    requires n <= |ms|
  {
    if n == 0 then {} else
      NamesUsed(ms, n - 1) + if ms[n - 1].name != "" then {ms[n - 1].name} else {}
  }

  lemma {:induction false} NamesUsedExactly(ms: seq<MatchCondition>, n: nat, name: string)
    requires n <= |ms|
    ensures name in NamesUsed(ms, n) <==> name != "" && exists j :: 0 <= j < n && ms[j].name == name
  {
    if n > 0 {
      NamesUsedExactly(ms, n - 1, name);
      if ms[n - 1].name == name != "" { assert name in NamesUsed(ms, n); }
    }
  }

  ghost function NamedConditions(ms: seq<MatchCondition>, n: nat): nat
    requires n <= |ms|
  {
    if n == 0 then 0 else NamedConditions(ms, n - 1) + if ms[n - 1].name != "" then 1 else 0
  }

  /** The duplicate error of condition `i`: its name is used by an earlier one. */
  ghost function DuplicateAt(ms: seq<MatchCondition>, i: nat): seq<FieldError>
    requires i < |ms|
  {
    if ms[i].name in NamesUsed(ms, i) then [DuplicateName(i, ms[i].name)] else []
  }

  ghost function DuplicateLists(ms: seq<MatchCondition>): seq<seq<FieldError>> {
    seq(|ms|, i requires 0 <= i < |ms| => DuplicateAt(ms, i))
  }

  /** There are as many duplicates as there are names, less the different ones. */
  lemma {:induction false} DuplicatesCounted(ms: seq<MatchCondition>, n: nat)
    requires n <= |ms|
    ensures |Gather(DuplicateLists(ms), n)| == NamedConditions(ms, n) - |NamesUsed(ms, n)|
  {
    if n > 0 {
      DuplicatesCounted(ms, n - 1);
      NamesUsedExactly(ms, n - 1, "");
      var used, name := NamesUsed(ms, n - 1), ms[n - 1].name;
      assert name in used ==> used + {name} == used;
    }
  }

  ghost predicate AllDifferent(ms: seq<MatchCondition>) {
    forall i, j :: 0 <= i < j < |ms| ==> ms[i].name != ms[j].name
  }

  ghost predicate NoDuplicates(ms: seq<MatchCondition>) {
    forall i :: 0 <= i < |ms| ==> DuplicateAt(ms, i) == []
  }

  /** No duplicates among named conditions means that the names are pairwise different. */
  lemma NoDuplicatesExactly(ms: seq<MatchCondition>)
    requires forall i :: 0 <= i < |ms| ==> ms[i].name != ""
    ensures NoDuplicates(ms) <==> AllDifferent(ms)
  {
    if NoDuplicates(ms) {
      forall i, j | 0 <= i < j < |ms|
        ensures ms[i].name != ms[j].name
      {
        NamesUsedExactly(ms, j, ms[j].name);
        assert DuplicateAt(ms, j) == [];
      }
    } else {
      var j :| 0 <= j < |ms| && DuplicateAt(ms, j) != [];
      NamesUsedExactly(ms, j, ms[j].name);
    }
  }

  // The whole check.

  ghost function ErrorsAt(r: Rules, ms: seq<MatchCondition>, i: nat): seq<FieldError>
    requires i < |ms|
  {
    ValidateMatchCondition(r, ms[i], i) + DuplicateAt(ms, i)
  }

  ghost function ErrorLists(r: Rules, ms: seq<MatchCondition>): seq<seq<FieldError>> {
    seq(|ms|, i requires 0 <= i < |ms| => ErrorsAt(r, ms, i))
  }

  lemma ErrorsAtExactly(r: Rules, ms: seq<MatchCondition>, i: nat)
    requires i < |ms|
    ensures ErrorsAt(r, ms, i) == [] <==> GoodCondition(r, ms[i]) && DuplicateAt(ms, i) == []
    ensures DuplicateErrors(ErrorsAt(r, ms, i)) == DuplicateAt(ms, i)
  {
    ConditionErrorsExactly(r, ms[i], i);
    NoDuplicateErrors(ValidateMatchCondition(r, ms[i], i));
    DuplicateErrorsAppend(ValidateMatchCondition(r, ms[i], i), DuplicateAt(ms, i));
  }

  ghost predicate AllGood(r: Rules, ms: seq<MatchCondition>) {
    forall i :: 0 <= i < |ms| ==> GoodCondition(r, ms[i])
  }

  ghost predicate NoErrors(r: Rules, ms: seq<MatchCondition>) {
    forall i :: 0 <= i < |ms| ==> ErrorsAt(r, ms, i) == []
  }

  ghost predicate Acceptable(r: Rules, ms: seq<MatchCondition>) {
    |ms| <= MAX_MATCH_CONDITIONS && AllGood(r, ms) && AllDifferent(ms)
  }

  lemma NoErrorsExactly(r: Rules, ms: seq<MatchCondition>)
    ensures NoErrors(r, ms) <==> AllGood(r, ms) && NoDuplicates(ms)
  {
    forall i | 0 <= i < |ms|
      ensures ErrorsAt(r, ms, i) == [] <==> GoodCondition(r, ms[i]) && DuplicateAt(ms, i) == []
    {
      ErrorsAtExactly(r, ms, i);
    }
    if NoErrors(r, ms) {
      forall i | 0 <= i < |ms|
        ensures GoodCondition(r, ms[i]) && DuplicateAt(ms, i) == []
      {
        assert ErrorsAt(r, ms, i) == [];
      }
    }
  }

  lemma GatheredExactly(r: Rules, ms: seq<MatchCondition>)
    ensures NoErrors(r, ms) <==> Gather(ErrorLists(r, ms), |ms|) == []
  {
    var c := ErrorLists(r, ms);
    GatherEmpty(c, |ms|);
    assert forall i :: 0 <= i < |ms| ==> c[i] == ErrorsAt(r, ms, i);
  }

  lemma AllNamed(r: Rules, ms: seq<MatchCondition>)
    requires AllGood(r, ms)
    ensures forall i :: 0 <= i < |ms| ==> ms[i].name != ""
  {
  }

  lemma AcceptableExactly(r: Rules, ms: seq<MatchCondition>)
    ensures Acceptable(r, ms) <==> |ms| <= MAX_MATCH_CONDITIONS && Gather(ErrorLists(r, ms), |ms|) == []
  {
    GatheredExactly(r, ms);
    NoErrorsExactly(r, ms);
    if AllGood(r, ms) {
      AllNamed(r, ms);
      NoDuplicatesExactly(ms);
    }
  }

  lemma DuplicatesAsExpected(r: Rules, ms: seq<MatchCondition>)
    ensures DuplicateErrors(Gather(ErrorLists(r, ms), |ms|)) == Gather(DuplicateLists(ms), |ms|)
  {
    var c, d := ErrorLists(r, ms), DuplicateLists(ms);
    forall i | 0 <= i < |ms|
      ensures DuplicateErrors(c[i]) == d[i]
    {
      ErrorsAtExactly(r, ms, i);
    }
    GatherDuplicates(c, d, |ms|);
  }

  method ValidateNext(r: Rules, ms: seq<MatchCondition>, i: nat, names: set<string>)
    returns (errors: seq<FieldError>, names': set<string>)
    requires i < |ms| && names == NamesUsed(ms, i)
    ensures errors == ErrorsAt(r, ms, i) && names' == NamesUsed(ms, i + 1)
  {
    NamesUsedExactly(ms, i, "");
    errors, names' := ValidateMatchCondition(r, ms[i], i), names;
    if ms[i].name != "" {
      if ms[i].name in names {
        errors := errors + [DuplicateName(i, ms[i].name)];
      } else {
        names' := names + {ms[i].name};
      }
    }
  }

  method ValidateEach(r: Rules, ms: seq<MatchCondition>) returns (errors: seq<FieldError>)
    ensures errors == Gather(ErrorLists(r, ms), |ms|)
  {
    errors := [];
    var names: set<string> := {};
    for i := 0 to |ms|
      invariant names == NamesUsed(ms, i)
      invariant errors == Gather(ErrorLists(r, ms), i)
    {
      var more;
      more, names := ValidateNext(r, ms, i, names);
      errors := errors + more;
    }
  }

  /** No errors exactly for acceptable conditions; and one duplicate error, in order, for each repeated name. */
  method ValidateMatchConditions(r: Rules, ms: seq<MatchCondition>) returns (errors: seq<FieldError>)
    ensures errors == [] <==> Acceptable(r, ms)
    ensures |ms| > 64 ==> errors != [] && errors[0] == TooMany(|ms|)
    ensures errors == (if |ms| > MAX_MATCH_CONDITIONS then [TooMany(|ms|)] else []) + Gather(ErrorLists(r, ms), |ms|)
    ensures DuplicateErrors(errors) == Gather(DuplicateLists(ms), |ms|)
    ensures |DuplicateErrors(errors)| == NamedConditions(ms, |ms|) - |NamesUsed(ms, |ms|)|
  {
    errors := [];
    if |ms| > MAX_MATCH_CONDITIONS { errors := [TooMany(|ms|)]; }
    NoDuplicateErrors(errors);
    var each := ValidateEach(r, ms);
    DuplicateErrorsAppend(errors, each);
    errors := errors + each;
    DuplicatesAsExpected(r, ms);
    AcceptableExactly(r, ms);
    DuplicatesCounted(ms, |ms|);
  }

  // Histories of accepted creates and updates.

  const DEFAULT_POLICY_SERVER := "default"

  /** The fields of a policy that admission looks after; `valid` tells that its rules and match conditions pass. */
  datatype Policy = Policy(server: string, mode: string, finalizers: seq<string>, deleting: bool, valid: bool)

  function Defaulted(p: Policy): (d: Policy)
    ensures (!d.deleting ==> Lifecycle.KUBEWARDEN_FINALIZER in d.finalizers)
    ensures d.mode == p.mode && d.deleting == p.deleting && d.valid == p.valid && p.finalizers <= d.finalizers
    ensures d.server == if p.server == "" then DEFAULT_POLICY_SERVER else p.server
    ensures p.deleting || Lifecycle.KUBEWARDEN_FINALIZER in p.finalizers ==> d.finalizers == p.finalizers
  {
    var server := if p.server == "" then DEFAULT_POLICY_SERVER else p.server;
    var missing := !p.deleting && Lifecycle.KUBEWARDEN_FINALIZER !in p.finalizers;
    var finalizers := p.finalizers + if missing then [Lifecycle.KUBEWARDEN_FINALIZER] else [];
    p.(server := server, finalizers := finalizers)
  }

  class PolicyObject {
    var policy: Policy

    constructor (policy: Policy)
      ensures this.policy == policy
    {
      this.policy := policy;
    }

    method Default()
      modifies this
      ensures policy == Defaulted(old(policy))
    {
      if policy.server == "" {
        policy := policy.(server := DEFAULT_POLICY_SERVER);
      }
      if !policy.deleting && Lifecycle.KUBEWARDEN_FINALIZER !in policy.finalizers {
        policy := policy.(finalizers := policy.finalizers + [Lifecycle.KUBEWARDEN_FINALIZER]);
      }
    }
  }

  predicate AcceptsUpdate(p: Policy, q: Policy) {
    q.valid && p.server == q.server && !(p.mode == "protect" && q.mode == "monitor")
  }

  /** The objects that come out of defaulting are those it leaves alone. */
  lemma DefaultedExactly(q: Policy)
    ensures (exists request :: q == Defaulted(request)) <==> Defaulted(q) == q
  {
  }

  /** An update request is defaulted before it is validated; the deletion mark is not the user's to change. */
  predicate Updates(p: Policy, q: Policy) {
    q.deleting == p.deleting && Defaulted(q) == q && AcceptsUpdate(p, q)
  }

  predicate Creates(p: Policy) {
    !p.deleting && Defaulted(p) == p && p.valid
  }

  predicate Follows(p: Policy, q: Policy) {
    Updates(p, q) || q == p.(deleting := true)
  }

  lemma FollowsKeeps(p: Policy, q: Policy)
    requires Follows(p, q)
    ensures q.server == p.server && (p.deleting ==> q.deleting) && !(p.mode == "protect" && q.mode == "monitor")
    ensures !q.deleting ==> Lifecycle.KUBEWARDEN_FINALIZER in q.finalizers
  {
  }

  ghost predicate StepAt(ps: seq<Policy>, i: int)
    requires 0 < i < |ps|
  {
    Follows(ps[i - 1], ps[i])
  }

  /** The states of one policy, from its creation on: accepted updates, and at some point possibly its deletion. */
  ghost predicate IsHistory(ps: seq<Policy>) {
    ps != [] && Creates(ps[0]) && forall i :: 0 < i < |ps| ==> StepAt(ps, i)
  }

  /** The server is never empty and never changes; the finalizer is there until deletion starts, and deletion cannot be
      taken back. */
  lemma {:induction false} ServerAndFinalizerKept(ps: seq<Policy>, n: nat)
    requires IsHistory(ps) && n < |ps|
    ensures ps[n].server == ps[0].server && ps[n].server != ""
    ensures !ps[n].deleting ==> Lifecycle.KUBEWARDEN_FINALIZER in ps[n].finalizers
    ensures forall i :: 0 <= i <= n && ps[i].deleting ==> ps[n].deleting
  {
    if n > 0 {
      ServerAndFinalizerKept(ps, n - 1);
      assert StepAt(ps, n);
      FollowsKeeps(ps[n - 1], ps[n]);
    }
  }

  /** Which requests are accepted, told from the state and the request: valid ones that keep the server, or leave it out
      where it is the default one, and do not go from protect to monitor. */
  lemma AcceptedExactly(p: Policy, request: Policy)
    requires p.server != "" && request.deleting == p.deleting
    ensures Updates(p, Defaulted(request)) <==>
              && request.valid
              && (request.server == p.server || (request.server == "" && p.server == DEFAULT_POLICY_SERVER))
              && (p.mode == "protect" ==> request.mode != "monitor")
  {
  }

  /** Every history goes on with every such request; in particular, a valid policy can always be put from monitor to
      protect, and left as it is. */
  lemma HistoryGoesOn(ps: seq<Policy>, request: Policy)
    requires IsHistory(ps)
    requires var p := ps[|ps| - 1];
             && request.valid && request.deleting == p.deleting && request.server == p.server
             && (p.mode == "protect" ==> request.mode != "monitor")
    ensures IsHistory(ps + [Defaulted(request)])
  {
    var p, next := ps[|ps| - 1], ps + [Defaulted(request)];
    ServerAndFinalizerKept(ps, |ps| - 1);
    AcceptedExactly(p, request);
    assert forall i :: 0 < i < |ps| ==> StepAt(ps, i) ==> StepAt(next, i);
  }

  predicate ProperMode(m: string) {
    m == "protect" || m == "monitor"
  }

  /** A policy gets from protect back to monitor only by way of a mode that is neither. */
  lemma {:induction false} ProtectIsKept(ps: seq<Policy>, i: nat, j: nat)
    requires IsHistory(ps) && i <= j < |ps| && ps[i].mode == "protect"
    requires forall k :: i <= k <= j ==> ProperMode(ps[k].mode)
    ensures ps[j].mode == "protect"
  {
    if i < j {
      ProtectIsKept(ps, i, j - 1);
      assert StepAt(ps, j);
      FollowsKeeps(ps[j - 1], ps[j]);
    }
  }

  /** How often the mode has changed by state `n`. */
  ghost function ModeChanges(ps: seq<Policy>, n: nat): nat
    requires n < |ps|
  {
    if n == 0 then 0 else ModeChanges(ps, n - 1) + if ps[n].mode != ps[n - 1].mode then 1 else 0
  }

  /** With the two modes the schema allows, the mode changes at most once, and only from monitor to protect. */
  lemma {:induction false} ModeChangesOnce(ps: seq<Policy>, n: nat)
    requires IsHistory(ps) && n < |ps| && forall i :: 0 <= i < |ps| ==> ProperMode(ps[i].mode)
    ensures ModeChanges(ps, n) == if ps[0].mode == ps[n].mode then 0 else 1
    ensures ps[0].mode == "protect" ==> ps[n].mode == "protect"
  {
    if n > 0 {
      ModeChangesOnce(ps, n - 1);
      if ps[n - 1].mode == "protect" { ProtectIsKept(ps, n - 1, n); }
    }
  }

  /** The schema is needed for that: by way of any third mode a policy can go from protect to monitor. */
  lemma ThirdModeEscapes(mode: string) returns (ps: seq<Policy>)
    requires !ProperMode(mode)
    ensures IsHistory(ps) && ps[0].mode == "protect" && ps[|ps| - 1].mode == "monitor"
    ensures forall p :: p in ps ==> p.mode in {"protect", mode, "monitor"}
  {
    var p := Defaulted(Policy("", "protect", [], false, true));
    ps := [p, p.(mode := mode), p.(mode := "monitor")];
    assert StepAt(ps, 1) && StepAt(ps, 2);
  }
}
