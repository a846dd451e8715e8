/** The OpenTelemetry settings of the controller are copied into the policy server's container. */
module EnvVars {
  datatype EnvVar = EnvVar(name: string, value: string)

  /** The first variable of that name, or -1. */
  function IndexOf(env: seq<EnvVar>, name: string): (i: int)
    ensures -1 <= i < |env|
    ensures i >= 0 ==> env[i].name == name && forall j :: 0 <= j < i ==> env[j].name != name
    ensures i < 0 ==> forall j :: 0 <= j < |env| ==> env[j].name != name
  {
    if env == [] then -1
    else if env[0].name == name then 0
    else
      var i := IndexOf(env[1..], name);
      assert forall j :: 1 <= j < |env| ==> env[j] == env[1..][j - 1];
      if i < 0 then -1 else i + 1
  }

  method EnvVarsContainVariable(env: seq<EnvVar>, name: string) returns (i: int)
    ensures i == IndexOf(env, name)
  {
    for k := 0 to |env|
      invariant forall j :: 0 <= j < k ==> env[j].name != name
    {
      if env[k].name == name { return k; }
    }
    return -1;
  }

  function Upsert(env: seq<EnvVar>, v: EnvVar): seq<EnvVar> {
    var i := IndexOf(env, v.name);
    if i >= 0 then env[i := v] else env + [v]
  }

  /** The environment after the listed names have been handled in order; empty values are skipped. */
  function Replicated(env: seq<EnvVar>, names: seq<string>, getenv: string -> string): seq<EnvVar> {
    if names == [] then env else
      var n := names[|names| - 1];
      var before := Replicated(env, names[..|names| - 1], getenv);
      if getenv(n) != "" then Upsert(before, EnvVar(n, getenv(n))) else before
  }

  const OTEL_NAMES: seq<string> := [
    "OTEL_EXPORTER_OTLP_CERTIFICATE",
    "OTEL_EXPORTER_OTLP_CLIENT_CERTIFICATE",
    "OTEL_EXPORTER_OTLP_CLIENT_KEY",
    "OTEL_EXPORTER_OTLP_COMPRESSION",
    "OTEL_EXPORTER_OTLP_ENDPOINT",
    "OTEL_EXPORTER_OTLP_HEADERS",
    "OTEL_EXPORTER_OTLP_INSECURE",
    "OTEL_EXPORTER_OTLP_METRICS_CERTIFICATE",
    "OTEL_EXPORTER_OTLP_METRICS_CLIENT_CERTIFICATE",
    "OTEL_EXPORTER_OTLP_METRICS_CLIENT_KEY",
    "OTEL_EXPORTER_OTLP_METRICS_COMPRESSION",
    "OTEL_EXPORTER_OTLP_METRICS_DEFAULT_HISTOGRAM_AGGREGATION",
    "OTEL_EXPORTER_OTLP_METRICS_ENDPOINT",
    "OTEL_EXPORTER_OTLP_METRICS_HEADERS",
    "OTEL_EXPORTER_OTLP_METRICS_INSECURE",
    "OTEL_EXPORTER_OTLP_METRICS_TEMPORALITY_PREFERENCE",
    "OTEL_EXPORTER_OTLP_METRICS_TIMEOUT",
    "OTEL_EXPORTER_OTLP_TIMEOUT",
    "OTEL_EXPORTER_OTLP_TRACES_CERTIFICATE",
    "OTEL_EXPORTER_OTLP_TRACES_CLIENT_CERTIFICATE",
    "OTEL_EXPORTER_OTLP_TRACES_CLIENT_KEY",
    "OTEL_EXPORTER_OTLP_TRACES_COMPRESSION",
    "OTEL_EXPORTER_OTLP_TRACES_ENDPOINT",
    "OTEL_EXPORTER_OTLP_TRACES_HEADERS",
    "OTEL_EXPORTER_OTLP_TRACES_INSECURE",
    "OTEL_EXPORTER_OTLP_TRACES_TIMEOUT"]

  class Container {
    var env: seq<EnvVar>

    constructor (env: seq<EnvVar>)
      ensures this.env == env
    {
      this.env := env;
    }

    method ReplicateEnvVars(names: seq<string>, getenv: string -> string)
      modifies this
      ensures env == Replicated(old(env), names, getenv)
    {
      for i := 0 to |names|
        invariant env == Replicated(old(env), names[..i], getenv)
      {
        assert names[..i + 1][..i] == names[..i];
        var value := getenv(names[i]);
        if value != "" {
          var index := EnvVarsContainVariable(env, names[i]);
          if index >= 0 {
            env := env[index := EnvVar(names[i], value)];
          } else {
            env := env + [EnvVar(names[i], value)];
          }
        }
      }
      assert names[..|names|] == names;
    }

    method ReplicateOtelEnvVars(getenv: string -> string)
      modifies this
      ensures env == Replicated(old(env), OTEL_NAMES, getenv)
    {
      ReplicateEnvVars(OTEL_NAMES, getenv);
    }
  }

  /** A name that is on the list and has a value to copy. */
  predicate Listed(names: seq<string>, getenv: string -> string, n: string) {
    n in names && getenv(n) != ""
  }

  lemma IndexIs(env: seq<EnvVar>, n: string, i: int)
    requires 0 <= i < |env| && env[i].name == n && forall j :: 0 <= j < i ==> env[j].name != n
    ensures IndexOf(env, n) == i
  {
  }

  lemma SameNamesSameIndex(a: seq<EnvVar>, b: seq<EnvVar>, n: string)
    requires |a| <= |b| && forall j :: 0 <= j < |a| ==> a[j].name == b[j].name
    ensures IndexOf(a, n) >= 0 ==> IndexOf(b, n) == IndexOf(a, n)
    ensures IndexOf(a, n) < 0 ==> IndexOf(b, n) < 0 || IndexOf(b, n) >= |a|
  {
    if IndexOf(a, n) >= 0 { IndexIs(b, n, IndexOf(a, n)); }
  }

  /** Where the first variable of each name is, afterwards. */
  lemma IndexAfterUpsert(env: seq<EnvVar>, v: EnvVar, n: string)
    ensures IndexOf(Upsert(env, v), n) == if n == v.name && IndexOf(env, n) < 0 then |env| else IndexOf(env, n)
  {
    var r := Upsert(env, v);
    assert forall j :: 0 <= j < |env| ==> r[j].name == env[j].name;
    SameNamesSameIndex(env, r, n);
    if n == v.name && IndexOf(env, n) < 0 { IndexIs(r, n, |env|); }
  }

  ghost function Missing(env: seq<EnvVar>, names: seq<string>, getenv: string -> string): set<string> {
    set n | n in names && Listed(names, getenv, n) && IndexOf(env, n) < 0
  }

  /** The old variables keep their places and names. Exactly the first one of each listed name takes the controller's
      value; all others keep theirs. */
  ghost predicate OldInPlace(env: seq<EnvVar>, names: seq<string>, getenv: string -> string, r: seq<EnvVar>)
    requires |r| >= |env|
  {
    forall j :: 0 <= j < |env| ==>
      r[j] == if Listed(names, getenv, env[j].name) && IndexOf(env, env[j].name) == j
              then EnvVar(env[j].name, getenv(env[j].name)) else env[j]
  }

  /** What comes after them is new: listed names that were missing, each once, with the controller's value. */
  ghost predicate NewAtEnd(env: seq<EnvVar>, names: seq<string>, getenv: string -> string, r: seq<EnvVar>)
    requires |r| >= |env|
  {
    forall j :: |env| <= j < |r| ==>
      Listed(names, getenv, r[j].name) && IndexOf(env, r[j].name) < 0 && IndexOf(r, r[j].name) == j
      && r[j].value == getenv(r[j].name)
  }

  ghost predicate Replicates(env: seq<EnvVar>, names: seq<string>, getenv: string -> string, r: seq<EnvVar>) {
    && |r| >= |env|
    && OldInPlace(env, names, getenv, r)
    && NewAtEnd(env, names, getenv, r)
    && (forall n :: Listed(names, getenv, n) ==> IndexOf(r, n) >= 0)
    && |r| - |env| == |Missing(env, names, getenv)|
  }

  lemma NothingNew(
    env: seq<EnvVar>, names: seq<string>, init: seq<string>, getenv: string -> string, r: seq<EnvVar>)
    requires Replicates(env, init, getenv, r)
    requires forall x :: Listed(names, getenv, x) <==> Listed(init, getenv, x)
    ensures Replicates(env, names, getenv, r)
  {
    assert Missing(env, names, getenv) == Missing(env, init, getenv);
  }

  lemma AlreadySet(env: seq<EnvVar>, names: seq<string>, getenv: string -> string, r: seq<EnvVar>, n: string)
    requires Replicates(env, names, getenv, r) && Listed(names, getenv, n)
    ensures Upsert(r, EnvVar(n, getenv(n))) == r
  {
  }

  lemma ReplacedNew(
    env: seq<EnvVar>, names: seq<string>, init: seq<string>, getenv: string -> string,
    before: seq<EnvVar>, r: seq<EnvVar>, v: EnvVar)
    requires |env| <= |before| && NewAtEnd(env, init, getenv, before)
    requires forall x :: x in init ==> x in names
    requires 0 <= IndexOf(before, v.name) < |env| && r == Upsert(before, v)
    ensures NewAtEnd(env, names, getenv, r)
  {
  }

  lemma ReplacedOld(
    env: seq<EnvVar>, names: seq<string>, init: seq<string>, getenv: string -> string, before: seq<EnvVar>, n: string)
    requires |env| <= |before| && OldInPlace(env, init, getenv, before) && getenv(n) != "" && n !in init
    requires forall x :: x in names <==> x in init || x == n
    requires IndexOf(env, n) >= 0
    ensures OldInPlace(env, names, getenv, before[IndexOf(env, n) := EnvVar(n, getenv(n))])
  {
  }

  lemma OneReplaced(
    env: seq<EnvVar>, names: seq<string>, init: seq<string>, getenv: string -> string, before: seq<EnvVar>, n: string)
    requires Replicates(env, init, getenv, before) && getenv(n) != "" && n !in init
    requires forall x :: x in names <==> x in init || x == n
    requires IndexOf(env, n) >= 0 && IndexOf(before, n) == IndexOf(env, n)
    ensures Replicates(env, names, getenv, Upsert(before, EnvVar(n, getenv(n))))
  {
    var v, i := EnvVar(n, getenv(n)), IndexOf(env, n);
    var r := before[i := v];
    assert Upsert(before, v) == r;
    ReplacedOld(env, names, init, getenv, before, n);
    ReplacedNew(env, names, init, getenv, before, r, v);
    forall x | Listed(names, getenv, x)
      ensures IndexOf(r, x) >= 0
    {
      IndexAfterUpsert(before, v, x);
    }
    assert Missing(env, names, getenv) == Missing(env, init, getenv);
  }

  lemma NotYetThere(env: seq<EnvVar>, names: seq<string>, getenv: string -> string, r: seq<EnvVar>, n: string)
    requires Replicates(env, names, getenv, r) && !Listed(names, getenv, n) && IndexOf(env, n) < 0
    ensures IndexOf(r, n) < 0
  {
  }

  lemma AppendedOld(
    env: seq<EnvVar>, names: seq<string>, init: seq<string>, getenv: string -> string,
    before: seq<EnvVar>, r: seq<EnvVar>, n: string)
    requires |env| <= |before| <= |r| && before == r[..|before|] && OldInPlace(env, init, getenv, before)
    requires forall x :: x in names <==> x in init || x == n
    requires IndexOf(env, n) < 0
    ensures OldInPlace(env, names, getenv, r)
  {
  }

  lemma AppendedNew(
    env: seq<EnvVar>, names: seq<string>, init: seq<string>, getenv: string -> string,
    before: seq<EnvVar>, r: seq<EnvVar>, n: string)
    requires |env| <= |before| && NewAtEnd(env, init, getenv, before)
    requires getenv(n) != "" && r == before + [EnvVar(n, getenv(n))]
    requires forall x :: x in names <==> x in init || x == n
    requires IndexOf(env, n) < 0 && IndexOf(before, n) < 0
    ensures NewAtEnd(env, names, getenv, r)
  {
    forall j | |env| <= j < |r|
      ensures Listed(names, getenv, r[j].name) && IndexOf(env, r[j].name) < 0 && IndexOf(r, r[j].name) == j
              && r[j].value == getenv(r[j].name)
    {
      IndexAfterUpsert(before, EnvVar(n, getenv(n)), r[j].name);
      assert j < |before| ==> r[j] == before[j];
    }
  }

  lemma OneAppended(
    env: seq<EnvVar>, names: seq<string>, init: seq<string>, getenv: string -> string, before: seq<EnvVar>, n: string)
    requires Replicates(env, init, getenv, before) && getenv(n) != "" && n !in init
    requires forall x :: x in names <==> x in init || x == n
    requires IndexOf(env, n) < 0 && IndexOf(before, n) < 0
    ensures Replicates(env, names, getenv, Upsert(before, EnvVar(n, getenv(n))))
  {
    var r := before + [EnvVar(n, getenv(n))];
    assert Upsert(before, EnvVar(n, getenv(n))) == r;
    AppendedOld(env, names, init, getenv, before, r, n);
    AppendedNew(env, names, init, getenv, before, r, n);
    assert Missing(env, names, getenv) == Missing(env, init, getenv) + {n};
    forall x | Listed(names, getenv, x)
      ensures IndexOf(r, x) >= 0
    {
      IndexAfterUpsert(before, EnvVar(n, getenv(n)), x);
    }
  }

  lemma {:induction false} ReplicatedReplicates(env: seq<EnvVar>, names: seq<string>, getenv: string -> string)
    ensures Replicates(env, names, getenv, Replicated(env, names, getenv))
  {
    if names == [] {
      assert Missing(env, names, getenv) == {};
    } else {
      var n, init := names[|names| - 1], names[..|names| - 1];
      var before := Replicated(env, init, getenv);
      ReplicatedReplicates(env, init, getenv);
      assert forall j :: 0 <= j < |env| ==> env[j].name == before[j].name;
      SameNamesSameIndex(env, before, n);
      assert forall x :: x in names <==> x in init || x == n;
      if getenv(n) == "" || Listed(init, getenv, n) {
        NothingNew(env, names, init, getenv, before);
        if getenv(n) != "" { AlreadySet(env, init, getenv, before, n); }
      } else if IndexOf(env, n) >= 0 {
        OneReplaced(env, names, init, getenv, before, n);
      } else {
        NotYetThere(env, init, getenv, before, n);
        OneAppended(env, names, init, getenv, before, n);
      }
    }
  }

  lemma {:induction false} SteadyOnPrefix(
    env: seq<EnvVar>, names: seq<string>, getenv: string -> string, r: seq<EnvVar>, k: nat)
    requires Replicates(env, names, getenv, r) && k <= |names|
    ensures Replicated(r, names[..k], getenv) == r
  {
    if k > 0 {
      SteadyOnPrefix(env, names, getenv, r, k - 1);
      assert names[..k][..k - 1] == names[..k - 1];
      if getenv(names[k - 1]) != "" { AlreadySet(env, names, getenv, r, names[k - 1]); }
    }
  }

  /** Doing it again changes nothing. */
  lemma ReplicatedTwice(env: seq<EnvVar>, names: seq<string>, getenv: string -> string)
    ensures var r := Replicated(env, names, getenv); Replicated(r, names, getenv) == r
  {
    var r := Replicated(env, names, getenv);
    ReplicatedReplicates(env, names, getenv);
    SteadyOnPrefix(env, names, getenv, r, |names|);
    assert names[..|names|] == names;
  }
}
