/** The certificate controller as it runs: calls that can fail, a clock that moves, and objects updated in place. */
module CertController {
  import opened Prelude
  import opened Certs
  import opened CertWorld
  import opened CertRuns
  import opened CertPass

  /** Which API calls fail and how long the controller takes before each of them. */
  datatype Environment = Environment(fails: nat -> bool, delay: nat -> nat)
  {
    /** No pass takes any time. */
    ghost predicate Instant() {
      forall k :: delay(k) == 0
    }

    /** The call after call `c` fails, and `c` itself does not. */
    ghost predicate FailsAfter(c: nat) {
      !fails(c) && fails(c + 1)
    }
  }

  /** Every server secret holds a certificate and a key. */
  ghost predicate AllPresent(w: World) {
    forall id :: id in w.servers ==> HasCert(w.servers[id])
  }

  /** Nothing the pass needs is missing from the secrets. */
  ghost predicate Complete(w: World) {
    HasCA(w.ca) && WebhookServer in w.servers && AllPresent(w)
  }

  /** The API server. It remembers, for specification only, every state it has been in and what led from one to the
      next. */
  class ApiServer {
    var world: World
    var calls: nat
    const env: Environment
    ghost var worlds: seq<World>
    ghost var events: seq<Event>
    ghost var tick: Time

    constructor (world: World, env: Environment)
      ensures Valid() && this.world == world && this.env == env && worlds == [world] && events == []
      ensures tick == world.now && calls == 0
    {
      this.world, this.env, calls := world, env, 0;
      worlds, events, tick := [world], [], world.now;
    }

    /** `tick` is the time up to which somebody waited; beyond that only delays move the clock. */
    ghost predicate Valid()
      reads this
    {
      IsRun(worlds, events) && worlds[|events|] == world && (env.Instant() ==> world.now == tick)
    }

    /** The recorded history extends an earlier one. */
    ghost predicate Extends(ws: seq<World>, es: seq<Event>)
      reads this
    {
      ws <= worlds && es <= events
    }

    /** No call since call number `n` failed. */
    ghost predicate NoFailure(n: nat)
      reads this
    {
      forall k :: n <= k < calls ==> !env.fails(k)
    }

    /** The calls since call number `n` stopped at the first one that failed; if there was none, `ok` may be true. */
    ghost predicate StoppedAtFailure(n: nat, ok: bool)
      reads this
    {
      forall k :: n <= k < calls && (ok || k != calls - 1) ==> !env.fails(k)
    }

    /** Nothing was written since event number `n`. */
    ghost predicate NoWrite(n: nat)
      reads this
    {
      forall i :: n <= i < |events| ==> !IsWrite(events[i])
    }

    /** A Get or List: it fails or it does not, and changes nothing. */
    method Call() returns (ok: bool)
      modifies `calls
      ensures calls == old(calls) + 1 && ok == !env.fails(old(calls))
    {
      ok := !env.fails(calls);
      calls := calls + 1;
    }

    /** Time passes. */
    method Sleep()
      requires Valid()
      modifies `world, `calls, `worlds, `events
      ensures Valid() && Extends(old(worlds), old(events)) && calls == old(calls)
      ensures Later(old(world), world)
      ensures worlds == old(worlds) + [world] && NoWrite(|old(events)|)
    {
      world := world.(now := world.now + env.delay(calls));
      worlds, events := worlds + [world], events + [Advance(world.now)];
    }

    /** Time passes until `t`, if that is still to come. */
    method SleepUntil(t: Time)
      requires Valid()
      modifies this
      ensures Valid() && Extends(old(worlds), old(events)) && calls == old(calls)
      ensures Later(old(world), world) && world.now == if old(world).now < t then t else old(world).now
      ensures worlds == old(worlds) + [world] && NoWrite(|old(events)|)
    {
      world := world.(now := if world.now < t then t else world.now);
      worlds, events, tick := worlds + [world], events + [Advance(world.now)], world.now;
    }

    /** An Update, Patch or Create: all or nothing. */
    method Write(ghost e: Event, w: World) returns (ok: bool)
      requires Valid() && IsWrite(e) && Next(world, e, w)
      modifies `world, `calls, `worlds, `events
      ensures Valid() && calls == old(calls) + 1 && ok == !env.fails(old(calls))
      ensures ok ==> world == w && worlds == old(worlds) + [w] && events == old(events) + [e]
      ensures !ok ==> world == old(world) && worlds == old(worlds) && events == old(events)
    {
      ok := Call();
      if ok {
        world := w;
        worlds, events := worlds + [w], events + [e];
      }
    }

    /** An error-free pass ends. */
    method Complete(start: Time)
      requires Valid() && start <= world.now && Settled(world, start)
      modifies `world, `calls, `worlds, `events
      ensures Valid() && calls == old(calls) && world == old(world).(completed := Some(start))
      ensures worlds == old(worlds) + [world] && events == old(events) + [CompletePass(start)]
    {
      world := world.(completed := Some(start));
      worlds, events := worlds + [world], events + [CompletePass(start)];
    }
  }

  lemma ExtendsTwice(
    ws0: seq<World>, ws1: seq<World>, ws2: seq<World>, es0: seq<Event>, es1: seq<Event>, es2: seq<Event>)
    requires ws0 <= ws1 <= ws2 && es0 <= es1 <= es2
    ensures ws0 <= ws2 && es0 <= es2
  {
  }

  /** The loop over the webhooks of one configuration. */
  method SetBundles(h: Hook, bundle: seq<Certificate>) returns (r: Hook)
    ensures r == Patched(h, bundle)
  {
    r := h;
    for i := 0 to |h.bundles|
      invariant r.labelled == h.labelled && |r.bundles| == |h.bundles|
      invariant forall k :: 0 <= k < i ==> r.bundles[k] == bundle
    {
      r := r.(bundles := r.bundles[i := bundle]);
    }
    assert r.bundles == Patched(h, bundle).bundles;
  }

  /** One configuration is patched. */
  method PatchHook(api: ApiServer, id: HookId, bundle: seq<Certificate>) returns (ok: bool)
    requires api.Valid() && id in api.world.hooks && api.world.hooks[id].labelled
    modifies api`world, api`calls, api`worlds, api`events
    ensures api.Valid() && api.Extends(old(api.worlds), old(api.events)) && api.calls == old(api.calls) + 1
    ensures Later(old(api.world), api.world.(hooks := old(api.world).hooks))
    ensures api.world.hooks ==
            if ok then old(api.world).hooks[id := Patched(old(api.world).hooks[id], bundle)] else old(api.world).hooks
    ensures forall i :: |old(api.worlds)| <= i < |api.worlds| ==> HooksMoved(old(api.world), api.worlds[i], bundle)
    ensures ok == !api.env.fails(old(api.calls))
  {
    api.Sleep();
    var hook := SetBundles(api.world.hooks[id], bundle);
    ok := api.Write(WriteHook(id, hook), api.world.(hooks := api.world.hooks[id := hook]));
  }

  /** The hooks after those in `listed` but not in `todo` have been patched. */
  ghost function PatchedSome(hooks: map<HookId, Hook>, listed: set<HookId>, todo: set<HookId>, bundle: seq<Certificate>)
    : map<HookId, Hook>
  {
    map id | id in hooks :: if id in listed && id !in todo then Patched(hooks[id], bundle) else hooks[id]
  }

  ghost function LabelledOfKind(hooks: map<HookId, Hook>, kind: HookKind): set<HookId> {
    set id | id in hooks && id.kind == kind && hooks[id].labelled
  }

  lemma PatchedOneMore(
    hooks: map<HookId, Hook>, listed: set<HookId>, todo: set<HookId>, id: HookId, bundle: seq<Certificate>)
    requires id in hooks && id in listed && id in todo
    ensures var some := PatchedSome(hooks, listed, todo, bundle);
            PatchedSome(hooks, listed, todo - {id}, bundle) == some[id := Patched(some[id], bundle)]
  {
  }

  /** States reached from `w` by patching are reached from `w0` by patching. */
  lemma PatchedSomeMoved(
    w0: World, w: World, ws: seq<World>, n: nat, m: nat, listed: set<HookId>, todo: set<HookId>,
    bundle: seq<Certificate>)
    requires Later(w0, w.(hooks := w0.hooks)) && w.hooks == PatchedSome(w0.hooks, listed, todo, bundle)
    requires forall id :: id in listed ==> id in w0.hooks && w0.hooks[id].labelled
    requires forall i :: n <= i < |ws| && i < m ==> HooksMoved(w0, ws[i], bundle)
    requires forall i :: m <= i < |ws| ==> HooksMoved(w, ws[i], bundle)
    ensures forall i :: n <= i < |ws| ==> HooksMoved(w0, ws[i], bundle)
  {
  }

  /** The loop over the listed configurations. */
  method PatchListed(api: ApiServer, listed: set<HookId>, bundle: seq<Certificate>) returns (ok: bool)
    requires api.Valid() && forall id :: id in listed ==> id in api.world.hooks && api.world.hooks[id].labelled
    modifies api`world, api`calls, api`worlds, api`events
    ensures api.Valid() && api.Extends(old(api.worlds), old(api.events)) && old(api.calls) <= api.calls
    ensures api.StoppedAtFailure(old(api.calls), ok)
    ensures HooksMoved(old(api.world), api.world, bundle)
    ensures forall i :: |old(api.worlds)| <= i < |api.worlds| ==> HooksMoved(old(api.world), api.worlds[i], bundle)
    ensures ok ==> api.world.hooks == PatchedSome(old(api.world).hooks, listed, {}, bundle)
    ensures api.NoFailure(old(api.calls)) ==> ok
    ensures listed != {} && api.env.fails(old(api.calls)) ==>
              !ok && Later(old(api.world), api.world) && api.calls == old(api.calls) + 1
  {
    ghost var w0, n := api.world, |api.worlds|;
    var todo := listed;
    ok := true;
    while ok && todo != {}
      invariant api.Valid() && api.Extends(old(api.worlds), old(api.events)) && old(api.calls) <= api.calls
      invariant api.StoppedAtFailure(old(api.calls), ok)
      invariant todo <= listed
      invariant Later(w0, api.world.(hooks := w0.hooks))
      invariant api.world.hooks == PatchedSome(w0.hooks, listed, todo, bundle)
      invariant forall i :: n <= i < |api.worlds| ==> HooksMoved(w0, api.worlds[i], bundle)
      invariant !ok ==> old(api.calls) < api.calls && api.env.fails(api.calls - 1)
      invariant todo != listed ==> !api.env.fails(old(api.calls))
      decreases ok, todo
    {
      ghost var w, m := api.world, |api.worlds|;
      var id :| id in todo;
      ok := PatchHook(api, id, bundle);
      PatchedSomeMoved(w0, w, api.worlds, n, m, listed, todo, bundle);
      if ok {
        PatchedOneMore(w0.hooks, listed, todo, id, bundle);
        todo := todo - {id};
      }
    }
  }

  /** The labelled configurations of one kind are listed, then patched one by one. */
  method PatchKind(api: ApiServer, kind: HookKind, bundle: seq<Certificate>) returns (ok: bool)
    requires api.Valid()
    modifies api`world, api`calls, api`worlds, api`events
    ensures api.Valid() && api.Extends(old(api.worlds), old(api.events)) && old(api.calls) <= api.calls
    ensures api.StoppedAtFailure(old(api.calls), ok)
    ensures HooksMoved(old(api.world), api.world, bundle)
    ensures forall i :: |old(api.worlds)| <= i < |api.worlds| ==> HooksMoved(old(api.world), api.worlds[i], bundle)
    ensures ok ==> api.world.hooks ==
                   PatchedSome(old(api.world).hooks, LabelledOfKind(old(api.world).hooks, kind), {}, bundle)
    ensures api.NoFailure(old(api.calls)) ==> ok
    ensures LabelledOfKind(old(api.world).hooks, kind) != {} && api.env.FailsAfter(old(api.calls)) ==>
              !ok && Later(old(api.world), api.world) && api.calls == old(api.calls) + 2
  {
    ok := api.Call();
    if ok {
      var listed := set id | id in api.world.hooks && id.kind == kind && api.world.hooks[id].labelled;
      ok := PatchListed(api, listed, bundle);
    }
  }

  lemma BothKindsPatched(hooks: map<HookId, Hook>, bundle: seq<Certificate>)
    ensures var mid := PatchedSome(hooks, LabelledOfKind(hooks, Validating), {}, bundle);
            PatchedSome(mid, LabelledOfKind(mid, Mutating), {}, bundle) == PatchedHooks(hooks, bundle)
  {
  }

  lemma HooksMovedTwice(w0: World, w1: World, w2: World, bundle: seq<Certificate>)
    requires HooksMoved(w0, w1, bundle) && HooksMoved(w1, w2, bundle)
    ensures HooksMoved(w0, w2, bundle)
  {
  }

  /** Validating configurations first, then mutating ones. */
  method ReconcileWebhookConfigurations(api: ApiServer, bundle: seq<Certificate>) returns (ok: bool)
    requires api.Valid()
    modifies api`world, api`calls, api`worlds, api`events
    ensures api.Valid() && api.Extends(old(api.worlds), old(api.events)) && old(api.calls) <= api.calls
    ensures api.StoppedAtFailure(old(api.calls), ok)
    ensures HooksMoved(old(api.world), api.world, bundle)
    ensures forall i :: |old(api.worlds)| <= i < |api.worlds| ==> HooksMoved(old(api.world), api.worlds[i], bundle)
    ensures ok ==> api.world.hooks == PatchedHooks(old(api.world).hooks, bundle)
    ensures api.NoFailure(old(api.calls)) ==> ok
    // If the first patch fails, no webhook is patched.
    ensures LabelledOfKind(old(api.world).hooks, Validating) != {} && api.env.FailsAfter(old(api.calls)) ==>
              !ok && Later(old(api.world), api.world) && api.calls == old(api.calls) + 2
  {
    ok := PatchKind(api, Validating, bundle);
    if ok {
      ghost var mid, n := api.world, |api.worlds|;
      ok := PatchKind(api, Mutating, bundle);
      forall i | |old(api.worlds)| <= i < |api.worlds|
        ensures HooksMoved(old(api.world), api.worlds[i], bundle)
      {
        if n <= i { HooksMovedTwice(old(api.world), mid, api.worlds[i], bundle); }
      }
      HooksMovedTwice(old(api.world), mid, api.world, bundle);
      BothKindsPatched(old(api.world).hooks, bundle);
    }
  }

  ghost function Rotated(w0: World, at: Time): World
    requires HasCA(w0.ca)
  {
    var w := w0.(now := at);
    w.(ca := RotatedCA(w), nextKey := w.nextKey + 1)
  }

  /** The states a pass goes through around the CA root: only time passes until `at`, when the CA is rotated; then
      the webhooks are patched with both CAs. */
  ghost predicate AroundRotation(w0: World, at: Time, w: World) {
    || Later(w0, w)
    || (HasCA(w0.ca) && w0.now <= at && HooksMoved(Rotated(w0, at), w, Roots(Rotated(w0, at).ca)))
  }

  /** The outcome of the first stage: a CA that did not verify ahead at `at` was rotated and all webhooks patched. */
  ghost predicate RootStage(w0: World, at: Time, w: World, rotated: bool) {
    && HasCA(w0.ca) && w0.now <= at <= w.now
    && (rotated <==> !CAVerifiesAhead(w0.ca, at))
    && if rotated then
         && HooksMoved(Rotated(w0, at), w, Roots(Rotated(w0, at).ca))
         && w.hooks == PatchedHooks(w0.hooks, Roots(w.ca))
       else Later(w0, w)
  }

  /** The update of the CA secret, call `c`, goes through, and so does listing the webhooks; the first patch fails. */
  ghost predicate FirstPatchFails(env: Environment, c: nat, w: World) {
    HasCA(w.ca) && LabelledOfKind(w.hooks, Validating) != {} && !env.fails(c) && env.FailsAfter(c + 1)
  }

  /** A CA that does not verify ahead is replaced, and only then are the webhooks told. */
  method RotateCARoot(api: ApiServer, secret: CASecret) returns (ok: bool, rotated: bool, updated: CASecret)
    requires api.Valid() && secret == api.world.ca && HasCA(secret) && !CAVerifiesAhead(secret, api.world.now)
    modifies api`world, api`calls, api`worlds, api`events
    ensures api.Valid() && api.Extends(old(api.worlds), old(api.events)) && old(api.calls) <= api.calls
    ensures api.StoppedAtFailure(old(api.calls), ok)
    ensures if !rotated then
              api.world == old(api.world) && api.worlds == old(api.worlds) && api.events == old(api.events)
            else updated == RotatedCA(old(api.world)) && forall i :: |old(api.worlds)| <= i < |api.worlds| ==>
                   HooksMoved(Rotated(old(api.world), old(api.world).now), api.worlds[i], Roots(updated))
    ensures rotated ==> HooksMoved(Rotated(old(api.world), old(api.world).now), api.world, Roots(updated))
    ensures ok ==> rotated && api.world.hooks == PatchedHooks(old(api.world).hooks, Roots(updated))
    ensures api.NoFailure(old(api.calls)) ==> ok
    ensures FirstPatchFails(api.env, old(api.calls), old(api.world)) ==>
              && !ok && rotated && api.calls == old(api.calls) + 3
              && Later(Rotated(old(api.world), old(api.world).now), api.world)
  {
    rotated, updated := false, secret;
    var oldCert := secret.cert.value;
    var newKey := api.world.nextKey;
    var newCert := GenerateCA(newKey, api.world.now, api.world.now + CA_CERT_EXPIRATION);
    updated := updated.(cert := Some(newCert));
    updated := updated.(key := Some(newKey));
    updated := updated.(oldCert := Some(oldCert));
    ok := api.Write(RotateCA, api.world.(ca := updated, nextKey := newKey + 1));
    if ok {
      rotated := true;
      assert api.world == Rotated(old(api.world), old(api.world).now) && Roots(updated) == [newCert] + [oldCert];
      ok := ReconcileWebhookConfigurations(api, [newCert] + [oldCert]);
    }
  }

  /** Around a rotation, every state keeps the bundles good for the certificates in use. */
  lemma RotationGuarded(w0: World, at: Time, w: World)
    requires Steady(w0) && AroundRotation(w0, at, w)
    ensures Guarded(w, w0.ca.cert.value, false) && BundleSafe(w, w0.ca.cert.value)
    ensures Later(w0, w) ==> Guarded(w, w0.ca.cert.value, true)
  {
    var first := w0.ca.cert.value;
    SteadyIsGuarded(w0);
    if Later(w0, w) {
      GuardedLater(w0, w, first, true);
      GuardedLater(w0, w, first, false);
    } else {
      var w1 := w0.(now := at);
      GuardedLater(w0, w1, first, true);
      GuardedRotated(w1);
      GuardedHooks(Rotated(w0, at), w, Roots(Rotated(w0, at).ca), first, false);
    }
    GuardedIsSafe(w, first, false);
  }

  lemma RotationTraceSafe(w0: World, at: Time, ws: seq<World>, n: nat)
    requires forall i :: n <= i < |ws| ==> AroundRotation(w0, at, ws[i])
    ensures Steady(w0) ==> forall i :: n <= i < |ws| ==> BundleSafe(ws[i], w0.ca.cert.value)
  {
    forall i | n <= i < |ws| && Steady(w0)
      ensures BundleSafe(ws[i], w0.ca.cert.value)
    {
      RotationGuarded(w0, at, ws[i]);
    }
  }

  /** `secret` is the copy read at the start of the pass and `updated` the copy handed on. */
  method ReconcileCARoot(api: ApiServer, secret: CASecret)
    returns (ok: bool, rotated: bool, updated: CASecret, ghost at: Time)
    requires api.Valid() && secret == api.world.ca
    modifies api`world, api`calls, api`worlds, api`events
    ensures api.Valid() && api.Extends(old(api.worlds), old(api.events)) && old(api.calls) <= api.calls
    ensures api.StoppedAtFailure(old(api.calls), ok)
    ensures old(api.world).now <= at <= api.world.now
    ensures forall i :: |old(api.worlds)| <= i < |api.worlds| ==> AroundRotation(old(api.world), at, api.worlds[i])
    ensures AroundRotation(old(api.world), at, api.world)
    ensures Steady(old(api.world)) ==>
              forall i :: |old(api.worlds)| <= i < |api.worlds| ==>
                            BundleSafe(api.worlds[i], old(api.world).ca.cert.value)
    ensures !rotated ==> Later(old(api.world), api.world) && api.NoWrite(|old(api.events)|)
    ensures rotated ==> HasCA(secret) && !CAVerifiesAhead(secret, at)
    ensures ok ==> updated == api.world.ca && RootStage(old(api.world), at, api.world, rotated)
    ensures api.NoFailure(old(api.calls)) && HasCA(secret) ==> ok
    ensures FirstPatchFails(api.env, old(api.calls), old(api.world)) && !CAVerifiesAhead(secret, at) ==>
              !ok && rotated && Later(Rotated(old(api.world), at), api.world) && api.calls == old(api.calls) + 3
  {
    ok, rotated, updated := false, false, secret;
    api.Sleep();
    at := api.world.now;
    if secret.cert.Some? && secret.key.Some? {
      if VerifyCA(secret.cert.value, secret.key, api.world.now + CERT_LOOKAHEAD) {
        ok := true;
      } else {
        ghost var ws, es := api.worlds, api.events;
        ok, rotated, updated := RotateCARoot(api, secret);
        ExtendsTwice(old(api.worlds), ws, api.worlds, old(api.events), es, api.events);
      }
    }
    RotationTraceSafe(old(api.world), at, api.worlds, |old(api.worlds)|);
  }

  ghost function Dropped(w0: World, at: Time): World {
    w0.(now := at, ca := w0.ca.(oldCert := None))
  }

  /** The states around the removal of the retired CA. */
  ghost predicate AroundDrop(w0: World, at: Time, w: World) {
    || Later(w0, w)
    || (&& HasCA(w0.ca) && w0.now <= at && w0.ca.oldCert.Some? && !OldVerifies(w0.ca.oldCert.value, at)
        && HooksMoved(Dropped(w0, at), w, Roots(Dropped(w0, at).ca)))
  }

  /** The outcome of the second stage: a retired CA that did not verify at `at` is gone, from the bundles too. */
  ghost predicate DropStage(w0: World, at: Time, w: World, dropped: bool) {
    && w0.now <= at <= w.now
    && (dropped <==> w0.ca.oldCert.Some? && !OldVerifies(w0.ca.oldCert.value, at))
    && if dropped then
         && HooksMoved(Dropped(w0, at), w, Roots(Dropped(w0, at).ca))
         && w.hooks == PatchedHooks(w0.hooks, Roots(w.ca))
       else Later(w0, w)
  }

  method ReconcileOldCARoot(api: ApiServer, secret: CASecret)
    returns (ok: bool, dropped: bool, updated: CASecret, ghost at: Time)
    requires api.Valid() && secret == api.world.ca
    modifies api`world, api`calls, api`worlds, api`events
    ensures api.Valid() && api.Extends(old(api.worlds), old(api.events)) && old(api.calls) <= api.calls
    ensures api.StoppedAtFailure(old(api.calls), ok)
    ensures old(api.world).now <= at <= api.world.now
    ensures forall i :: |old(api.worlds)| <= i < |api.worlds| ==> AroundDrop(old(api.world), at, api.worlds[i])
    ensures AroundDrop(old(api.world), at, api.world)
    ensures !dropped ==> Later(old(api.world), api.world) && api.NoWrite(|old(api.events)|)
    ensures dropped ==> secret.oldCert.Some? && !OldVerifies(secret.oldCert.value, at)
    ensures ok ==> updated == api.world.ca && DropStage(old(api.world), at, api.world, dropped)
    ensures api.NoFailure(old(api.calls)) && HasCA(secret) ==> ok
  {
    ok, dropped, updated := true, false, secret;
    api.Sleep();
    at := api.world.now;
    if secret.oldCert.None? { return; }
    if VerifyCA(secret.oldCert.value, None, api.world.now) { return; }
    ok := secret.cert.Some? && secret.key.Some?;
    if !ok { return; }
    updated := updated.(oldCert := None);
    ok := api.Write(DropOldCA, api.world.(ca := updated));
    if !ok { return; }
    dropped := true;
    assert api.world == Dropped(old(api.world), at) && Roots(api.world.ca) == [secret.cert.value];
    ok := ReconcileWebhookConfigurations(api, [secret.cert.value]);
  }

  /** The certificate of `id` is good for the lookahead; if no time passed since `w0`, it even verifies that far
      ahead, exactly if the stored CA is able to vouch for it, and always if no certificate was issued. */
  ghost predicate ServerDone(w0: World, w: World, id: Server)
    requires HasCA(w0.ca) && HasCA(w.ca) && id in w.servers
  {
    && ServerSettled(w, id, w0.now)
    && (w.now == w0.now && CAVerifiesAhead(w0.ca, w0.now) ==> (ServerVerifiesAhead(w, id) <==> CanVerify(w, id)))
    && (w.now == w0.now && w.nextKey == w0.nextKey ==> ServerVerifiesAhead(w, id))
  }

  ghost predicate AllVerifyAhead(w: World) {
    HasCA(w.ca) && forall id :: id in w.servers ==> ServerVerifiesAhead(w, id)
  }

  lemma ServersMovedTwice(w0: World, w1: World, w2: World)
    requires ServersMoved(w0, w1) && ServersMoved(w1, w2)
    ensures ServersMoved(w0, w2)
    ensures AllPresent(w0) ==> AllPresent(w1)
  {
  }

  /** A certificate that verifies ahead needs no work. */
  lemma VerifiedDone(w0: World, w: World, id: Server)
    requires HasCA(w0.ca) && Later(w0, w) && id in w.servers && ServerVerifiesAhead(w, id)
    ensures ServersMoved(w0, w) && ServerDone(w0, w, id)
  {
  }

  /** A certificate issued in place of one that does not verify ahead. */
  lemma ReissuedDone(w0: World, w: World, id: Server)
    requires HasCA(w0.ca) && Later(w0, w) && id in w.servers && SignedSecret(w, id).Some?
    ensures var w' := WithServer(w, id, SignedSecret(w, id).value);
            ServersMoved(w0, w') && ServerDone(w0, w', id)
  {
  }

  ghost predicate MovedSince(w0: World, ws: seq<World>, n: nat) {
    forall i :: n <= i < |ws| ==> ServersMoved(w0, ws[i])
  }

  /** One server certificate is checked against the current CA, and replaced if it does not verify ahead. */
  method ReconcileServerCert(api: ApiServer, id: Server, secret: CASecret) returns (ok: bool)
    requires api.Valid() && secret == api.world.ca && HasCA(secret) && id in api.world.servers
    modifies api`world, api`calls, api`worlds, api`events
    ensures api.Valid() && api.Extends(old(api.worlds), old(api.events)) && old(api.calls) <= api.calls
    ensures api.StoppedAtFailure(old(api.calls), ok)
    ensures MovedSince(old(api.world), api.worlds, |old(api.worlds)|)
    ensures ServersMoved(old(api.world), api.world)
    ensures forall k :: k in api.world.servers && k != id ==> api.world.servers[k] == old(api.world).servers[k]
    ensures ok ==> ServerDone(old(api.world), api.world, id)
    ensures !ok ==> Later(old(api.world), api.world)
    ensures ServerVerifiesAhead(old(api.world).(now := api.world.now), id) ==>
              Later(old(api.world), api.world) && api.NoWrite(|old(api.events)|)
    ensures HasCert(old(api.world).servers[id]) && secret.key.value == secret.cert.value.key ==>
              (api.NoFailure(old(api.calls)) ==> ok)
  {
    api.Sleep();
    ghost var w0, w := old(api.world), api.world;
    var s := api.world.servers[id];
    ok := s.cert.Some? && s.key.Some?;
    if ok {
      var ca, dns := secret.cert.value, Dns(api.world.cfg, id);
      if VerifyCert(s.cert.value, s.key, [ca], dns, api.world.now + CERT_LOOKAHEAD) {
        VerifiedDone(w0, w, id);
      } else {
        var newKey := api.world.nextKey;
        var newCert := GenerateCert(
          ca, secret.key.value, api.world.now, api.world.now + SERVER_CERT_EXPIRATION, dns, newKey);
        ok := newCert.Some?;
        if ok {
          s := s.(cert := newCert);
          s := s.(key := Some(newKey));
          ReissuedDone(w0, w, id);
          ok := api.Write(ReissueCert(id), WithServer(api.world, id, s));
        }
      }
    }
  }

  /** The servers in `listed` but not in `todo` are done; the others are as in `w0`. */
  ghost predicate Progress(w0: World, w: World, listed: set<Server>, todo: set<Server>) {
    && ServersMoved(w0, w) && todo <= listed <= w.servers.Keys
    && (forall k :: k in w.servers && (k in todo || k !in listed) ==> w.servers[k] == w0.servers[k])
    && (forall k :: k in listed && k !in todo ==> ServerDone(w0, w, k))
  }

  lemma ServersDone(w0: World, w: World, w': World, id: Server, done: set<Server>)
    requires ServersMoved(w0, w) && ServersMoved(w, w') && id in w'.servers && done <= w.servers.Keys
    requires forall k :: k in done ==> w'.servers[k] == w.servers[k] && ServerDone(w0, w, k)
    requires ServerDone(w, w', id)
    ensures ServerDone(w0, w', id) && forall k :: k in done ==> ServerDone(w0, w', k)
  {
  }

  lemma ProgressStep(w0: World, w: World, w': World, listed: set<Server>, todo: set<Server>, id: Server, ok: bool)
    requires Progress(w0, w, listed, todo) && id in todo && ServersMoved(w, w')
    requires forall k :: k in w'.servers && k != id ==> w'.servers[k] == w.servers[k]
    requires if ok then ServerDone(w, w', id) else Later(w, w')
    ensures Progress(w0, w', listed, if ok then todo - {id} else todo)
    ensures AllPresent(w0) ==> AllPresent(w)
  {
    ServersMovedTwice(w0, w, w');
    forall k | k in listed && k !in todo
      ensures ServerDone(w0, w', k)
    {
      assert ServerDone(w0, w, k) && ServerSettled(w, k, w0.now);
    }
    if ok { ServersDone(w0, w, w', id, {}); }
  }

  lemma ServersMovedTrace(w0: World, w: World, ws0: seq<World>, ws: seq<World>, n: nat)
    requires ServersMoved(w0, w) && ws0 <= ws && MovedSince(w0, ws0, n) && MovedSince(w, ws, |ws0|)
    ensures MovedSince(w0, ws, n)
  {
  }

  /** The loop over the listed secrets. */
  method ReconcileListedCerts(api: ApiServer, secret: CASecret, listed: set<Server>) returns (ok: bool)
    requires api.Valid() && secret == api.world.ca && HasCA(secret) && secret.key.value == secret.cert.value.key
    requires listed <= api.world.servers.Keys
    modifies api`world, api`calls, api`worlds, api`events
    ensures api.Valid() && api.Extends(old(api.worlds), old(api.events)) && old(api.calls) <= api.calls
    ensures api.StoppedAtFailure(old(api.calls), ok)
    ensures MovedSince(old(api.world), api.worlds, |old(api.worlds)|)
    ensures ServersMoved(old(api.world), api.world)
    ensures forall k :: k in api.world.servers && k !in listed ==> api.world.servers[k] == old(api.world).servers[k]
    ensures ok ==> forall id :: id in listed ==> ServerDone(old(api.world), api.world, id)
    ensures api.world.now == old(api.world).now && AllVerifyAhead(old(api.world)) ==>
              api.world == old(api.world) && api.NoWrite(|old(api.events)|)
    ensures AllPresent(old(api.world)) ==> (api.NoFailure(old(api.calls)) ==> ok)
  {
    ghost var w0 := api.world;
    var todo := listed;
    ok := true;
    while ok && todo != {}
      invariant api.Valid() && api.Extends(old(api.worlds), old(api.events)) && old(api.calls) <= api.calls
      invariant api.StoppedAtFailure(old(api.calls), ok)
      invariant Progress(w0, api.world, listed, todo)
      invariant MovedSince(w0, api.worlds, |old(api.worlds)|)
      invariant api.world.now == w0.now && AllVerifyAhead(w0) ==> api.world == w0 && api.NoWrite(|old(api.events)|)
      invariant AllPresent(w0) ==> (api.NoFailure(old(api.calls)) ==> ok)
      decreases ok, todo
    {
      ghost var w, ws, es := api.world, api.worlds, api.events;
      var id :| id in todo;
      ok := ReconcileServerCert(api, id, secret);
      ExtendsTwice(old(api.worlds), ws, api.worlds, old(api.events), es, api.events);
      ServersMovedTrace(w0, w, ws, api.worlds, |old(api.worlds)|);
      ProgressStep(w0, w, api.world, listed, todo, id, ok);
      if ok { todo := todo - {id}; }
    }
  }

  lemma WebhookAndListedDone(w0: World, w: World, w': World)
    requires ServersMoved(w0, w) && ServersMoved(w, w') && WebhookServer in w.servers
    requires ServerDone(w0, w, WebhookServer) && w'.servers[WebhookServer] == w.servers[WebhookServer]
    requires forall id :: id in w.servers && id.PolicyServerSecret? ==> ServerDone(w, w', id)
    ensures forall id :: id in w'.servers ==> ServerDone(w0, w', id)
  {
    forall id | id in w'.servers
      ensures ServerDone(w0, w', id)
    {
      if id.PolicyServerSecret? {
        ServersDone(w0, w, w', id, {});
      } else {
        assert id == WebhookServer && ServerSettled(w, id, w0.now);
      }
    }
  }

  /** The secrets of the policy servers are listed and checked. */
  method ReconcilePolicyServerCerts(api: ApiServer, secret: CASecret) returns (ok: bool)
    requires api.Valid() && secret == api.world.ca && HasCA(secret) && secret.key.value == secret.cert.value.key
    modifies api`world, api`calls, api`worlds, api`events
    ensures api.Valid() && api.Extends(old(api.worlds), old(api.events)) && old(api.calls) <= api.calls
    ensures api.StoppedAtFailure(old(api.calls), ok)
    ensures MovedSince(old(api.world), api.worlds, |old(api.worlds)|)
    ensures ServersMoved(old(api.world), api.world)
    ensures WebhookServer in api.world.servers ==>
              api.world.servers[WebhookServer] == old(api.world).servers[WebhookServer]
    ensures ok ==> forall id :: id in api.world.servers && id.PolicyServerSecret? ==>
                                  ServerDone(old(api.world), api.world, id)
    ensures api.world.now == old(api.world).now && AllVerifyAhead(old(api.world)) ==>
              api.world == old(api.world) && api.NoWrite(|old(api.events)|)
    ensures AllPresent(old(api.world)) ==> (api.NoFailure(old(api.calls)) ==> ok)
  {
    ok := api.Call();
    if ok {
      ok := ReconcileListedCerts(api, secret, set id | id in api.world.servers && id.PolicyServerSecret?);
    }
  }

  /** The secret of the controller's own webhook server is read and checked. */
  method ReconcileWebhookServerCert(api: ApiServer, secret: CASecret) returns (ok: bool)
    requires api.Valid() && secret == api.world.ca && HasCA(secret) && secret.key.value == secret.cert.value.key
    modifies api`world, api`calls, api`worlds, api`events
    ensures api.Valid() && api.Extends(old(api.worlds), old(api.events)) && old(api.calls) <= api.calls
    ensures api.StoppedAtFailure(old(api.calls), ok)
    ensures MovedSince(old(api.world), api.worlds, |old(api.worlds)|) && ServersMoved(old(api.world), api.world)
    ensures ok ==> WebhookServer in api.world.servers && ServerDone(old(api.world), api.world, WebhookServer)
    ensures api.world.now == old(api.world).now && AllVerifyAhead(old(api.world)) ==>
              api.world == old(api.world) && api.NoWrite(|old(api.events)|)
    ensures WebhookServer in old(api.world).servers && AllPresent(old(api.world)) ==>
              (api.NoFailure(old(api.calls)) ==> ok)
  {
    ok := api.Call();
    ok := ok && WebhookServer in api.world.servers;
    if ok {
      ok := ReconcileServerCert(api, WebhookServer, secret);
    }
  }

  /** The webhook server first, then every policy server listed. */
  method ReconcileServerCerts(api: ApiServer, secret: CASecret) returns (ok: bool)
    requires api.Valid() && secret == api.world.ca && HasCA(secret) && secret.key.value == secret.cert.value.key
    modifies api`world, api`calls, api`worlds, api`events
    ensures api.Valid() && api.Extends(old(api.worlds), old(api.events)) && old(api.calls) <= api.calls
    ensures api.StoppedAtFailure(old(api.calls), ok)
    ensures MovedSince(old(api.world), api.worlds, |old(api.worlds)|)
    ensures ServersMoved(old(api.world), api.world)
    ensures ok ==> WebhookServer in api.world.servers
    ensures ok ==> forall id :: id in api.world.servers ==> ServerDone(old(api.world), api.world, id)
    ensures api.world.now == old(api.world).now && AllVerifyAhead(old(api.world)) ==>
              api.world == old(api.world) && api.NoWrite(|old(api.events)|)
    ensures WebhookServer in old(api.world).servers && AllPresent(old(api.world)) ==>
              (api.NoFailure(old(api.calls)) ==> ok)
  {
    ok := ReconcileWebhookServerCert(api, secret);
    if ok {
      ghost var w, ws, es := api.world, api.worlds, api.events;
      ok := ReconcilePolicyServerCerts(api, secret);
      ExtendsTwice(old(api.worlds), ws, api.worlds, old(api.events), es, api.events);
      ServersMovedTrace(old(api.world), w, ws, api.worlds, |old(api.worlds)|);
      ServersMovedTwice(old(api.world), w, api.world);
      if ok { WebhookAndListedDone(old(api.world), w, api.world); }
    }
  }

  /** Around the removal of the retired CA, too, every state keeps the bundles good. */
  lemma DropGuarded(w0: World, at: Time, w: World, first: Certificate)
    requires Guarded(w0, first, true) && AroundDrop(w0, at, w)
    ensures Guarded(w, first, true) && BundleSafe(w, first)
  {
    if Later(w0, w) {
      GuardedLater(w0, w, first, true);
    } else {
      var w1 := w0.(now := at);
      GuardedLater(w0, w1, first, true);
      GuardedDropped(w1, first);
      assert Dropped(w0, at) == w1.(ca := w1.ca.(oldCert := None));
      GuardedHooks(Dropped(w0, at), w, Roots(Dropped(w0, at).ca), first, true);
    }
    GuardedIsSafe(w, first, true);
  }

  lemma ServersGuarded(w0: World, w: World, first: Certificate)
    requires Guarded(w0, first, true) && ServersMoved(w0, w)
    ensures Guarded(w, first, true) && BundleSafe(w, first)
  {
    GuardedServers(w0, w, first);
    GuardedIsSafe(w, first, true);
  }

  lemma DropTraceSafe(w0: World, at: Time, ws: seq<World>, n: nat, first: Certificate)
    requires forall i :: n <= i < |ws| ==> AroundDrop(w0, at, ws[i])
    ensures Guarded(w0, first, true) ==> forall i :: n <= i < |ws| ==> BundleSafe(ws[i], first)
  {
    forall i | n <= i < |ws| && Guarded(w0, first, true)
      ensures BundleSafe(ws[i], first)
    {
      DropGuarded(w0, at, ws[i], first);
    }
  }

  /** The first stage ends in a state from which servers may be reissued. */
  lemma RootStageGuarded(w0: World, at: Time, w1: World, rotated: bool)
    requires Steady(w0) && RootStage(w0, at, w1, rotated)
    ensures Guarded(w1, w0.ca.cert.value, true)
  {
  }

  /** The third stage: every server certificate is good. */
  ghost predicate ServerStage(w0: World, w: World) {
    && ServersMoved(w0, w)
    && forall id :: id in w.servers ==> ServerDone(w0, w, id)
  }

  /** The guard of the first stage: a pass that reads the clock at `at` rotates the CA. */
  predicate Rotates(w: World, at: Time)
    requires HasCA(w.ca)
  {
    !CAVerifiesAhead(w.ca, at)
  }

  /** The retired CA that the second stage finds. */
  function RetiredBy(w: World, at: Time): Option<Certificate>
    requires HasCA(w.ca)
  {
    if Rotates(w, at) then w.ca.cert else w.ca.oldCert
  }

  /** The guard of the second stage, which reads the clock at `at2`. */
  predicate Drops(w: World, at1: Time, at2: Time)
    requires HasCA(w.ca)
  {
    RetiredBy(w, at1).Some? && !OldVerifies(RetiredBy(w, at1).value, at2)
  }

  /** What an error-free pass from `w0` to `w` achieves, which reads the clock for the two roots at `at1` and `at2`. */
  ghost predicate Passed(w0: World, w: World, at1: Time, at2: Time) {
    && HasCA(w0.ca) && w0.now <= at1 <= at2 <= w.now
    // Everything is good for the lookahead, counted from the start of the pass.
    && w.servers.Keys == w0.servers.Keys && Settled(w, w0.now)
    // The CA is replaced if it was due, and the retired one is kept exactly while it verifies.
    && (if Rotates(w0, at1) then w.ca.cert == Rotated(w0, at1).ca.cert else w.ca.cert == w0.ca.cert)
    && w.ca.oldCert == (if Drops(w0, at1, at2) then None else RetiredBy(w0, at1))
    // The labelled bundles are exactly the stored roots if the roots changed, and untouched otherwise.
    && w.hooks == (if Rotates(w0, at1) || Drops(w0, at1, at2) then PatchedHooks(w0.hooks, Roots(w.ca)) else w0.hooks)
    // The steady state is reached again.
    && (Steady(w0) ==> Steady(w))
    // If no time passed, everything verifies ahead that the stored CA is able to vouch for.
    && (w.now == w0.now ==>
          && CAVerifiesAhead(w.ca, w.now)
          && (w.ca.oldCert.Some? ==> OldVerifies(w.ca.oldCert.value, w.now))
          && (forall id :: id in w.servers ==> (ServerVerifiesAhead(w, id) <==> CanVerify(w, id)))
          && (w.nextKey == w0.nextKey ==> AllVerifyAhead(w)))
  }

  lemma StagesCA(w0: World, at1: Time, w1: World, rotated: bool, at2: Time, w2: World, dropped: bool)
    requires RootStage(w0, at1, w1, rotated) && DropStage(w1, at2, w2, dropped)
    ensures HasCA(w2.ca) && w2.ca.key.value == w2.ca.cert.value.key
    ensures w0.now <= w1.now <= w2.now && w0.now + CERT_LOOKAHEAD <= w2.ca.cert.value.notAfter
    ensures HasCA(w0.ca) && w0.now <= at1 <= at2 <= w2.now
    ensures (rotated <==> Rotates(w0, at1)) && (dropped <==> Drops(w0, at1, at2))
    ensures if rotated then w2.ca.cert == Rotated(w0, at1).ca.cert else w2.ca.cert == w0.ca.cert
    ensures w2.ca.oldCert == if dropped then None else RetiredBy(w0, at1)
    ensures w2.servers == w0.servers && w2.completed == w0.completed && w2.cfg == w0.cfg && w0.nextKey <= w2.nextKey
    ensures w2.now == w0.now ==> CAVerifiesAhead(w2.ca, w2.now)
    ensures w2.now == w0.now && w2.ca.oldCert.Some? ==> OldVerifies(w2.ca.oldCert.value, w2.now)
    ensures w2.hooks == if rotated || dropped then PatchedHooks(w0.hooks, Roots(w2.ca)) else w0.hooks
  {
  }

  lemma StagesSteady(w0: World, at1: Time, w1: World, rotated: bool, at2: Time, w2: World, dropped: bool, w: World)
    requires RootStage(w0, at1, w1, rotated) && DropStage(w1, at2, w2, dropped) && ServersMoved(w2, w)
    requires Settled(w, w0.now) && Steady(w0)
    ensures Steady(w)
  {
    RootStageGuarded(w0, at1, w1, rotated);
    DropGuarded(w1, at2, w2, w0.ca.cert.value);
    ServersGuarded(w2, w, w0.ca.cert.value);
    SettledIsSteady(w, w0.ca.cert.value, w0.now);
  }

  lemma StagesPass(w0: World, at1: Time, w1: World, rotated: bool, at2: Time, w2: World, dropped: bool, w: World)
    requires RootStage(w0, at1, w1, rotated) && DropStage(w1, at2, w2, dropped) && ServerStage(w2, w)
    ensures Passed(w0, w.(completed := Some(w0.now)), at1, at2)
  {
    StagesCA(w0, at1, w1, rotated, at2, w2, dropped);
    var w' := w.(completed := Some(w0.now));
    forall id | id in w.servers
      ensures ServerSettled(w, id, w0.now) && ServerSettled(w', id, w0.now)
    {
      assert ServerDone(w2, w, id);
    }
    if Steady(w0) {
      StagesSteady(w0, at1, w1, rotated, at2, w2, dropped, w);
      assert AllBundles(w', w'.ca.cert.value) by { assert AllBundles(w, w.ca.cert.value); }
    }
  }

  /** How a pass went, as its log lines tell. */
  datatype Report = Report(ok: bool, rotated: bool, dropped: bool)

  /** The CA ends within the lookahead. */
  ghost predicate Overdue(w: World) {
    HasCA(w.ca) && w.ca.cert.value.notAfter < w.now + CERT_LOOKAHEAD
  }

  /** The two stages that deal with the CA secret. */
  method ReconcileRoots(api: ApiServer)
    returns (
      ok: bool, rotated: bool, dropped: bool, secret: CASecret, ghost at1: Time, ghost w1: World, ghost at2: Time)
    requires api.Valid()
    modifies api`world, api`calls, api`worlds, api`events
    ensures api.Valid() && api.Extends(old(api.worlds), old(api.events)) && old(api.calls) <= api.calls
    ensures api.StoppedAtFailure(old(api.calls), ok)
    ensures ok ==> RootStage(old(api.world), at1, w1, rotated) && DropStage(w1, at2, api.world, dropped)
    ensures ok ==> secret == api.world.ca
    ensures api.world.completed == old(api.world).completed && old(api.world).now <= api.world.now
    ensures api.world.servers == old(api.world).servers && (HasCA(old(api.world).ca) ==> HasCA(api.world.ca))
    ensures forall i :: |old(api.worlds)| <= i < |api.worlds| ==> api.worlds[i].completed == old(api.world).completed
    ensures Steady(old(api.world)) ==>
              forall i :: |old(api.worlds)| <= i < |api.worlds| ==>
                            BundleSafe(api.worlds[i], old(api.world).ca.cert.value)
    ensures api.world.now == old(api.world).now && SettledNow(old(api.world)) ==>
              api.world == old(api.world) && api.NoWrite(|old(api.events)|)
    ensures HasCA(old(api.world).ca) ==> (api.NoFailure(old(api.calls)) ==> ok)
    ensures FirstPatchFails(api.env, old(api.calls), old(api.world)) && Overdue(old(api.world)) ==>
              && !ok && rotated && api.calls == old(api.calls) + 3
              && old(api.world).now <= at1 && Later(Rotated(old(api.world), at1), api.world)
  {
    ghost var w0, ws0, es0 := api.world, api.worlds, api.events;
    secret := api.world.ca;
    at2, dropped := api.world.now, false;
    ok, rotated, secret, at1 := ReconcileCARoot(api, secret);
    w1 := api.world;
    ghost var ws1, es1 := api.worlds, api.events;
    if ok {
      ok, dropped, secret, at2 := ReconcileOldCARoot(api, secret);
      ExtendsTwice(ws0, ws1, api.worlds, es0, es1, api.events);
      if Steady(w0) {
        RootStageGuarded(w0, at1, w1, rotated);
        DropTraceSafe(w1, at2, api.worlds, |ws1|, w0.ca.cert.value);
      }
    }
  }

  /** Servers are reissued, and a pass completed, in states that keep the bundles safe. */
  lemma ServerStageSafe(
    w0: World, at1: Time, w1: World, rotated: bool, at2: Time, w2: World, dropped: bool, ws: seq<World>, n: nat, m: nat)
    requires RootStage(w0, at1, w1, rotated) && DropStage(w1, at2, w2, dropped) && Steady(w0) && n <= m <= |ws|
    requires forall i :: n <= i < m ==> BundleSafe(ws[i], w0.ca.cert.value)
    requires forall i :: m <= i < |ws| ==> ServersMoved(w2, ws[i].(completed := w2.completed))
    ensures forall i :: n <= i < |ws| ==> BundleSafe(ws[i], w0.ca.cert.value)
  {
    RootStageGuarded(w0, at1, w1, rotated);
    DropGuarded(w1, at2, w2, w0.ca.cert.value);
    forall i | m <= i < |ws|
      ensures BundleSafe(ws[i], w0.ca.cert.value)
    {
      var w := ws[i].(completed := w2.completed);
      ServersGuarded(w2, w, w0.ca.cert.value);
      assert w.hooks == ws[i].hooks && w.servers == ws[i].servers;
    }
  }

  lemma ServerStageSettled(w0: World, w: World, start: Time)
    requires ServerStage(w0, w) && start <= w0.now && HasCA(w0.ca) && w0.ca.key.value == w0.ca.cert.value.key
    requires start + CERT_LOOKAHEAD <= w0.ca.cert.value.notAfter
    ensures Settled(w, start)
  {
    forall id | id in w.servers
      ensures ServerSettled(w, id, start)
    {
      assert ServerDone(w0, w, id);
    }
  }

  /** The third stage and the end of the pass. */
  method ReconcileServers(api: ApiServer, start: Time, secret: CASecret) returns (ok: bool)
    requires api.Valid() && secret == api.world.ca && HasCA(secret) && secret.key.value == secret.cert.value.key
    requires start <= api.world.now && start + CERT_LOOKAHEAD <= secret.cert.value.notAfter
    modifies api`world, api`calls, api`worlds, api`events
    ensures api.Valid() && api.Extends(old(api.worlds), old(api.events)) && old(api.calls) <= api.calls
    ensures api.StoppedAtFailure(old(api.calls), ok)
    ensures ok ==> ServerStage(old(api.world), api.world.(completed := old(api.world).completed))
    ensures api.world.completed == if ok then Some(start) else old(api.world).completed
    ensures forall i :: |old(api.worlds)| <= i < |api.worlds| ==>
                          && ServersMoved(old(api.world), api.worlds[i].(completed := old(api.world).completed))
                          && api.worlds[i].completed in {old(api.world).completed, Some(start)}
    ensures old(api.world).now <= api.world.now
    ensures Complete(old(api.world)) ==> Complete(api.world)
    ensures api.world.now == old(api.world).now && AllVerifyAhead(old(api.world)) ==>
              && api.world == old(api.world).(completed := api.world.completed)
              && api.NoWrite(|old(api.events)|)
    ensures Complete(old(api.world)) ==> (api.NoFailure(old(api.calls)) ==> ok)
  {
    ghost var w := api.world;
    ok := ReconcileServerCerts(api, secret);
    if ok {
      ghost var w' := api.world;
      ServerStageSettled(w, w', start);
      api.Complete(start);
      assert api.world.(completed := w.completed) == w';
    }
  }

  /** One pass: CA root, retired CA root, server certificates; it stops at the first error. */
  method Reconcile(api: ApiServer) returns (r: Report, ghost at1: Time, ghost at2: Time)
    requires api.Valid()
    modifies api`world, api`calls, api`worlds, api`events
    ensures api.Valid() && api.Extends(old(api.worlds), old(api.events)) && old(api.calls) <= api.calls
    ensures api.StoppedAtFailure(old(api.calls), r.ok)
    ensures r.ok ==>
              && Passed(old(api.world), api.world, at1, at2)
              && r.rotated == Rotates(old(api.world), at1) && r.dropped == Drops(old(api.world), at1, at2)
    ensures api.world.completed == if r.ok then Some(old(api.world).now) else old(api.world).completed
    ensures forall i :: |old(api.worlds)| <= i < |api.worlds| ==>
                          api.worlds[i].completed in {old(api.world).completed, Some(old(api.world).now)}
    // At every moment of the pass, failed or not, certificates in use verify under every labelled bundle.
    ensures Steady(old(api.world)) ==>
              forall i :: |old(api.worlds)| <= i < |api.worlds| ==>
                            BundleSafe(api.worlds[i], old(api.world).ca.cert.value)
    // A settled state is left alone at the same instant.
    ensures api.world.now == old(api.world).now && SettledNow(old(api.world)) ==>
              && api.world == old(api.world).(completed := api.world.completed)
              && api.NoWrite(|old(api.events)|)
    // A pass never makes anything go missing; and without failing calls and missing secrets it succeeds.
    ensures Complete(old(api.world)) ==> Complete(api.world)
    ensures Complete(old(api.world)) ==> (api.NoFailure(old(api.calls)) ==> r.ok)
    // If a CA that is due has been replaced and the first webhook cannot be patched, all webhooks stay as they are.
    ensures !api.env.fails(old(api.calls)) && FirstPatchFails(api.env, old(api.calls) + 1, old(api.world))
            && Overdue(old(api.world)) ==>
              && !r.ok && r.rotated && api.calls == old(api.calls) + 4
              && old(api.world).now <= at1 && Later(Rotated(old(api.world), at1), api.world)
  {
    ghost var w0, ws0, es0 := api.world, api.worlds, api.events;
    var start := api.world.now;
    r, at1, at2 := Report(false, false, false), start, start;
    var ok := api.Call();
    if ok {
      var rotated, dropped, secret;
      ghost var w1;
      ok, rotated, dropped, secret, at1, w1, at2 := ReconcileRoots(api);
      r := Report(false, rotated, dropped);
      if ok {
        ghost var w2, ws2, es2 := api.world, api.worlds, api.events;
        StagesCA(w0, at1, w1, rotated, at2, w2, dropped);
        ok := ReconcileServers(api, start, secret);
        r := r.(ok := ok);
        if ok { StagesPass(w0, at1, w1, rotated, at2, w2, dropped, api.world.(completed := w0.completed)); }
        ExtendsTwice(ws0, ws2, api.worlds, es0, es2, api.events);
        if Steady(w0) { ServerStageSafe(w0, at1, w1, rotated, at2, w2, dropped, api.worlds, |ws0|, |ws2|); }
      }
    }
  }

  /** Without a write, only the clock and the time of the last pass change. */
  lemma {:induction false} RunWithoutWrite(ws: seq<World>, es: seq<Event>, i: nat, j: nat)
    requires IsRun(ws, es) && i <= j < |ws| && forall k :: i <= k < j ==> !IsWrite(es[k])
    ensures ws[j] == ws[i].(now := ws[j].now, completed := ws[j].completed)
    decreases j
  {
    if i < j {
      RunWithoutWrite(ws, es, i, j - 1);
      assert Next(ws[j - 1], es[j - 1], ws[j]);
    }
  }

  /** The stored CA is able to vouch for every server. */
  ghost predicate AllCanVerify(w: World) {
    HasCA(w.ca) && forall id :: id in w.servers ==> CanVerify(w, id)
  }

  /** The clock never goes back along a run. */
  lemma {:induction false} RunNow(ws: seq<World>, es: seq<Event>, i: nat, j: nat)
    requires IsRun(ws, es) && i <= j < |ws|
    ensures ws[i].now <= ws[j].now
    decreases j
  {
    if i < j {
      RunNow(ws, es, i, j - 1);
      assert Next(ws[j - 1], es[j - 1], ws[j]);
    }
  }

  /** After an error-free pass, a second one at the same instant writes nothing if the stored CA is able to vouch for
      every server; an error-free one writes nothing exactly then. */
  method ReconcileTwice(api: ApiServer) returns (first: Report, second: Report, ghost between: nat)
    requires api.Valid()
    modifies api`world, api`calls, api`worlds, api`events
    ensures api.Valid() && api.Extends(old(api.worlds), old(api.events)) && |old(api.events)| <= between <= |api.events|
    ensures first.ok && api.world.now == old(api.world).now && AllCanVerify(api.worlds[between]) ==>
              && api.NoWrite(between)
              && api.world == api.worlds[between].(completed := api.world.completed)
              && SettledNow(api.world)
    ensures first.ok && second.ok && api.world.now == old(api.world).now ==>
              (api.NoWrite(between) <==> AllCanVerify(api.worlds[between]))
  {
    ghost var at1, at2;
    first, at1, at2 := Reconcile(api);
    between := |api.events|;
    ghost var w, ws, es := api.world, api.worlds, api.events;
    second, at1, at2 := Reconcile(api);
    ExtendsTwice(old(api.worlds), ws, api.worlds, old(api.events), es, api.events);
    assert api.worlds[between] == w;
    if first.ok && api.world.now == old(api.world).now {
      RunNow(api.worlds, api.events, |old(api.events)|, between);
      RunNow(api.worlds, api.events, between, |api.events|);
      if AllCanVerify(w) { assert SettledNow(w); }
      if second.ok && api.NoWrite(between) { RunWithoutWrite(api.worlds, api.events, between, |api.events|); }
    }
  }

  /** The labelled bundles hold the current CA after an error-free pass exactly if the CA was due, or a retired CA no
      longer verified, or they held it before: a patch that failed in an earlier pass is not made up for. The guards
      are read at `at1` and `at2`, which is the start if the pass takes no time. */
  lemma BundlesRepairedExactly(w0: World, w: World, at1: Time, at2: Time)
    requires Passed(w0, w, at1, at2)
    ensures AllBundles(w, w.ca.cert.value) <==>
              || !CAVerifiesAhead(w0.ca, at1)
              || (w0.ca.oldCert.Some? && !OldVerifies(w0.ca.oldCert.value, at2))
              || AllBundles(w0, w0.ca.cert.value)
    ensures w.now == w0.now ==> at1 == at2 == w0.now
  {
  }

  /** A labelled webhook whose bundles hold the given CA alone. */
  ghost predicate Trusts(w: World, h: HookId, ca: Certificate) {
    h in w.hooks && w.hooks[h].labelled && w.hooks[h].bundles != []
    && forall i :: 0 <= i < |w.hooks[h].bundles| ==> w.hooks[h].bundles[i] == [ca]
  }

  /** From a steady state the CA is rotated at `at` and no webhook patched. The next error-free pass repairs the bundles
      exactly if it finds the new CA due again or the retired CA expired. Otherwise it leaves them as they are, and
      reissues the certificates: under a webhook that trusts the retired CA alone, no server verifies at any time. */
  lemma FailedPatchRepairedExactly(w: World, at: Time, w0: World, w1: World, at1: Time, at2: Time, h: HookId)
    requires Steady(w) && Trusts(w, h, w.ca.cert.value) && w.now <= at && Rotates(w, at)
    requires Later(Rotated(w, at), w0) && Passed(w0, w1, at1, at2)
    ensures AllBundles(w1, w1.ca.cert.value) <==> DueTime(at) < at1 || w.ca.cert.value.notAfter < at2
    ensures at1 <= DueTime(at) && at2 <= w.ca.cert.value.notAfter ==>
              && Trusts(w1, h, w.ca.cert.value)
              && forall id, t :: id in w1.servers ==>
                   !ServerVerifies(w1.cfg, id, w1.servers[id], [w.ca.cert.value], t)
  {
    GeneratedUntilDue(w.nextKey, at);
    assert Rotates(w0, at1) <==> DueTime(at) < at1;
    BundlesRepairedExactly(w0, w1, at1, at2);
    assert !AllBundles(w0, w0.ca.cert.value) by {
      assert w0.ca.cert.value !in w0.hooks[h].bundles[0];
    }
    forall id, t | id in w1.servers && at1 <= DueTime(at) && at2 <= w.ca.cert.value.notAfter
      ensures !ServerVerifies(w1.cfg, id, w1.servers[id], [w.ca.cert.value], t)
    {
      StrandedBundle(w1, w0.now, [w.ca.cert.value], id, t);
    }
  }

  /** Two passes, of which the first cannot patch its first webhook after rotating the CA and the second is error-free:
      unless the retired CA has expired meanwhile, the second leaves behind a webhook that accepts no server. */
  method FailedPatchStrands(api: ApiServer, ghost h: HookId)
    returns (first: Report, second: Report, ghost between: World, ghost at: Time, ghost at1: Time, ghost at2: Time)
    requires api.Valid() && Steady(api.world) && Complete(api.world) && Overdue(api.world)
    requires Trusts(api.world, h, api.world.ca.cert.value) && h.kind == Validating
    requires forall k :: api.calls <= k ==> (api.env.fails(k) <==> k == api.calls + 3)
    modifies api`world, api`calls, api`worlds, api`events
    ensures api.Valid() && !first.ok && first.rotated && second.ok
    ensures old(api.world).now <= at && Later(Rotated(old(api.world), at), between)
    ensures Passed(between, api.world, at1, at2)
    ensures api.world.now <= old(api.world).ca.cert.value.notAfter ==>
              && Trusts(api.world, h, old(api.world).ca.cert.value)
              && forall id, t :: id in api.world.servers ==>
                   !ServerVerifies(api.world.cfg, id, api.world.servers[id], [old(api.world).ca.cert.value], t)
  {
    ghost var w := api.world;
    assert h in LabelledOfKind(w.hooks, Validating);
    first, at, at2 := Reconcile(api);
    between := api.world;
    second, at1, at2 := Reconcile(api);
    if api.world.now <= w.ca.cert.value.notAfter {
      FailedPatchRepairedExactly(w, at, between, api.world, at1, at2, h);
    }
  }

  /** Such a run: one validating webhook, one server, and no time passing. */
  method StrandedRun() returns (api: ApiServer, ghost h: HookId)
    ensures api.Valid() && HasCA(api.world.ca) && WebhookServer in api.world.servers
    ensures ServerVerifiesAhead(api.world, WebhookServer)
    ensures h in api.world.hooks && api.world.hooks[h].labelled && api.world.hooks[h].bundles != []
    ensures forall t :: !ServerVerifies(
              api.world.cfg, WebhookServer, api.world.servers[WebhookServer], api.world.hooks[h].bundles[0], t)
  {
    var cfg := Config("", "");
    h := HookId(Validating, "");
    var ca := Certificate(0, 0, 0, DAY, "", true);
    var cert := Certificate(1, 0, 0, DAY, Dns(cfg, WebhookServer), false);
    var w := World(
      cfg, 0, CASecret(Some(ca), Some(0), None), map[WebhookServer := ServerSecret(Some(cert), Some(1))],
      map[HookId(Validating, "") := Hook(true, [[ca]])], 2, None);
    var env := Environment(k => k == 3, k => 0);
    api := new ApiServer(w, env);
    assert Steady(w) && Trusts(w, h, ca) && Complete(w);
    var _, _, between, at, at1, at2 := FailedPatchStrands(api, h);
    assert CanVerify(api.world, WebhookServer);
  }

  /** A certificate for a secret without one. */
  method IssueServerCert(api: ApiServer, id: Server, ca: CASecret) returns (ok: bool)
    requires api.Valid() && ca == api.world.ca && id.PolicyServerSecret?
    requires id in api.world.servers ==> !HasCert(api.world.servers[id])
    modifies api`world, api`calls, api`worlds, api`events
    ensures api.Valid() && api.Extends(old(api.worlds), old(api.events)) && old(api.calls) <= api.calls
    ensures if !ok then api.world == old(api.world) else
              && HasCA(ca) && SignedSecret(old(api.world), id).Some?
              && api.world == WithServer(old(api.world), id, SignedSecret(old(api.world), id).value)
    ensures forall i :: |old(api.worlds)| <= i < |api.worlds| ==> api.worlds[i].completed == old(api.world).completed
    ensures Steady(old(api.world)) ==>
              Steady(api.world) && forall i :: |old(api.worlds)| <= i < |api.worlds| ==> Steady(api.worlds[i])
    ensures HasCA(ca) && ca.key.value == ca.cert.value.key ==> (api.NoFailure(old(api.calls)) ==> ok)
  {
    ok := false;
    if ca.cert.Some? && ca.key.Some? {
      var w := api.world;
      var cert := GenerateCert(
        ca.cert.value, ca.key.value, w.now, w.now + SERVER_CERT_EXPIRATION, Dns(w.cfg, id), w.nextKey);
      if cert.Some? {
        var w' := WithServer(w, id, ServerSecret(cert, Some(w.nextKey)));
        if Steady(w) { SteadyNext(w, IssueCert(id), w'); }
        ok := api.Write(IssueCert(id), w');
      }
    }
  }

  /** The policy server controller signs a certificate for a policy server whose secret lacks one. */
  method ReconcilePolicyServerCertSecret(api: ApiServer, policyServer: string) returns (ok: bool)
    requires api.Valid()
    modifies api`world, api`calls, api`worlds, api`events
    ensures api.Valid() && api.Extends(old(api.worlds), old(api.events)) && old(api.calls) <= api.calls
    ensures var id := PolicyServerSecret(NameWithPrefix(policyServer));
            var w0 := old(api.world).(now := api.world.now);
            && old(api.world).now <= api.world.now
            && (ok ==> id in api.world.servers && HasCert(api.world.servers[id]))
            && (if !ok || (id in w0.servers && HasCert(w0.servers[id])) then api.world == w0 else
                  && HasCA(w0.ca) && SignedSecret(w0, id).Some?
                  && api.world == WithServer(w0, id, SignedSecret(w0, id).value))
    ensures forall i :: |old(api.worlds)| <= i < |api.worlds| ==> api.worlds[i].completed == old(api.world).completed
    ensures Steady(old(api.world)) ==>
              Steady(api.world) && forall i :: |old(api.worlds)| <= i < |api.worlds| ==> Steady(api.worlds[i])
    ensures HasCA(old(api.world).ca) && old(api.world).ca.key.value == old(api.world).ca.cert.value.key ==>
              (api.NoFailure(old(api.calls)) ==> ok)
  {
    api.Sleep();
    var id := PolicyServerSecret(NameWithPrefix(policyServer));
    ok := api.Call();
    if ok {
      var ca := api.world.ca;
      ok := api.Call();
      if ok {
        if id in api.world.servers && HasCert(api.world.servers[id]) {
          ok := api.Call();
        } else {
          ok := IssueServerCert(api, id, ca);
        }
      }
    }
  }

  /** When tick number `k` comes. */
  ghost function TickTime(t0: Time, k: nat): Time {
    t0 + (k + 1) * TICKER_DURATION
  }

  /** Every tick strictly between the two given ones failed. */
  ghost predicate AllFailed(reports: seq<Report>, after: int, before: nat) {
    forall m :: 0 <= m < |reports| && after < m < before ==> !reports[m].ok
  }

  /** Every tick comes at most `n` ticks after the last error-free one, if there was one. */
  ghost predicate SpacedOut(reports: seq<Report>, n: nat) {
    forall j, k :: 0 <= j < k < |reports| && reports[j].ok && AllFailed(reports, j, k) ==> k - j <= n
  }

  /** The tick of the last error-free pass. */
  ghost predicate LastOk(reports: seq<Report>, last: Option<nat>) {
    match last
    case None => AllFailed(reports, -1, |reports|)
    case Some(j) => j < |reports| && reports[j].ok && AllFailed(reports, j, |reports|)
  }

  /** The last completed pass started at its tick or later. */
  ghost predicate CompletedAt(w: World, t0: Time, last: Option<nat>) {
    match last
    case None => w.completed.None?
    case Some(j) => w.completed.Some? && TickTime(t0, j) <= w.completed.value
  }

  lemma SpacedOutPrefix(reports: seq<Report>, r: Report, n: nat, last: Option<nat>)
    requires SpacedOut(reports + [r], n) && LastOk(reports, last)
    ensures SpacedOut(reports, n)
    ensures last.Some? ==> |reports| - last.value <= n
  {
    var rs := reports + [r];
    forall j: nat, k: nat | j < k < |reports| && reports[j].ok && AllFailed(reports, j, k)
      ensures k - j <= n
    {
      assert rs[j].ok && AllFailed(rs, j, k);
    }
    if last.Some? {
      assert rs[last.value].ok && AllFailed(rs, last.value, |reports|);
    }
  }

  /** A state during tick `k` is timely if the last error-free tick was at most `n` ticks ago. */
  lemma TickIsTimely(w: World, t0: Time, k: nat, n: nat, d: Time, last: Option<nat>)
    requires TickTime(t0, k) <= w.now <= TickTime(t0, k) + d && n * TICKER_DURATION + d <= CERT_LOOKAHEAD
    requires last.Some? ==> last.value < k && k - last.value <= n
    requires CompletedAt(w, t0, last) || (w.completed.Some? && TickTime(t0, k) <= w.completed.value)
    ensures Timely(w)
  {
  }

  ghost predicate AllAccepted(ws: seq<World>, n: nat) {
    forall i :: n <= i < |ws| ==> Accepted(ws[i])
  }

  lemma SteadyLater(w0: World, w: World)
    requires Steady(w0) && Later(w0, w)
    ensures Steady(w)
  {
  }

  /** The states of a tick: waiting and a new server, which are steady, and then those of a pass. */
  lemma TickAccepted(ws: seq<World>, n: nat, m: nat, first: Certificate)
    requires n <= m <= |ws|
    requires forall i :: n <= i < m ==> Steady(ws[i])
    requires forall i :: m <= i < |ws| ==> BundleSafe(ws[i], first)
    ensures AllAccepted(ws, n)
  {
    forall i | n <= i < |ws|
      ensures Accepted(ws[i])
    {
      if i < m { SteadyIsAccepted(ws[i]); } else { SafeIsAccepted(ws[i], first); }
    }
  }

  /** The server has a certificate. */
  ghost predicate Served(w: World, id: Server) {
    id in w.servers && HasCert(w.servers[id])
  }

  /** The time until the tick, and perhaps a policy server that gets its certificate. */
  method Wait(api: ApiServer, at: Time, arrival: Option<string>)
    requires api.Valid()
    modifies api
    ensures api.Valid() && api.Extends(old(api.worlds), old(api.events))
    ensures api.world.completed == old(api.world).completed && at <= api.world.now
    ensures |old(api.worlds)| < |api.worlds| && at <= api.worlds[|old(api.worlds)|].now
    ensures forall i :: |old(api.worlds)| <= i < |api.worlds| ==> api.worlds[i].completed == old(api.world).completed
    ensures Steady(old(api.world)) ==>
              Steady(api.world) && forall i :: |old(api.worlds)| <= i < |api.worlds| ==> Steady(api.worlds[i])
    ensures old(api.calls) <= api.calls
    // If no call fails, a new policy server has its certificate.
    ensures arrival.Some? && HasCA(old(api.world).ca) && KeysMatch(old(api.world)) && api.NoFailure(old(api.calls)) ==>
              Served(api.world, PolicyServerSecret(NameWithPrefix(arrival.value)))
    ensures Complete(old(api.world)) ==> Complete(api.world)
  {
    ghost var w0 := api.world;
    api.SleepUntil(at);
    if Steady(w0) { SteadyLater(w0, api.world); }
    if arrival.Some? {
      ghost var ws, es := api.worlds, api.events;
      var _ := ReconcilePolicyServerCertSecret(api, arrival.value);
      ExtendsTwice(old(api.worlds), ws, api.worlds, old(api.events), es, api.events);
    }
  }

  /** The states of a tick, which comes at `at` and whose pass ends at `end`. */
  ghost predicate DuringTick(ws: seq<World>, n: nat, at: Time, end: Time, before: Option<Time>) {
    forall i :: n <= i < |ws| ==>
      && at <= ws[i].now <= end
      && (ws[i].completed == before || (ws[i].completed.Some? && at <= ws[i].completed.value))
  }

  /** One tick: perhaps a policy server gets its certificate first, then a pass runs; its error is only logged. */
  method Tick(api: ApiServer, at: Time, arrival: Option<string>) returns (r: Report)
    requires api.Valid()
    modifies api
    ensures api.Valid() && api.Extends(old(api.worlds), old(api.events))
    ensures api.world.completed in {old(api.world).completed} || r.ok
    ensures r.ok ==> api.world.completed.Some? && at <= api.world.completed.value
    ensures DuringTick(api.worlds, |old(api.worlds)|, at, api.world.now, old(api.world).completed)
    ensures Steady(old(api.world)) ==> AllAccepted(api.worlds, |old(api.worlds)|) && (r.ok ==> Steady(api.world))
    // A pass really takes place: with nothing missing from the secrets it fails only if a call does.
    ensures old(api.calls) <= api.calls
    ensures Complete(old(api.world)) ==> Complete(api.world) && (r.ok || !api.NoFailure(old(api.calls)))
    ensures arrival.Some? && r.ok && KeysMatch(old(api.world)) && api.NoFailure(old(api.calls)) ==>
              HasCA(old(api.world).ca) ==> Served(api.world, PolicyServerSecret(NameWithPrefix(arrival.value)))
  {
    ghost var w0, n0 := api.world, |api.worlds|;
    Wait(api, at, arrival);
    ghost var w, ws, es := api.world, api.worlds, api.events;
    ghost var at1, at2;
    r, at1, at2 := Reconcile(api);
    ExtendsTwice(old(api.worlds), ws, api.worlds, old(api.events), es, api.events);
    forall i | |old(api.worlds)| <= i < |api.worlds|
      ensures at <= api.worlds[i].now <= api.world.now
    {
      RunNow(api.worlds, api.events, |old(api.worlds)|, i);
      RunNow(api.worlds, api.events, i, |api.events|);
    }
    if Steady(w0) { TickAccepted(api.worlds, n0, |ws|, w.ca.cert.value); }
  }

  ghost predicate AllTimely(ws: seq<World>) {
    forall i :: 0 <= i < |ws| ==> Timely(ws[i])
  }

  ghost predicate AllSecure(ws: seq<World>) {
    forall i :: 0 <= i < |ws| ==> Secure(ws[i])
  }

  ghost predicate AllAnswered(ws: seq<World>) {
    forall i :: 0 <= i < |ws| ==> Answered(ws[i])
  }

  /** At every moment after the first error-free pass, every server verifies under every labelled bundle. */
  ghost predicate AllServed(ws: seq<World>) {
    forall n, id, h, i ::
      0 <= n < |ws| && ws[n].completed.Some? && id in ws[n].servers && h in ws[n].hooks && ws[n].hooks[h].labelled
      && 0 <= i < |ws[n].hooks[h].bundles| ==>
        ServerVerifies(ws[n].cfg, id, ws[n].servers[id], ws[n].hooks[h].bundles[i], ws[n].now)
  }

  lemma SecureAndAcceptedIsServed(ws: seq<World>)
    requires AllTimely(ws) && AllSecure(ws) && AllAccepted(ws, 0)
    ensures AllServed(ws)
  {
    forall n, id, h, i |
      0 <= n < |ws| && ws[n].completed.Some? && id in ws[n].servers && h in ws[n].hooks && ws[n].hooks[h].labelled
      && 0 <= i < |ws[n].hooks[h].bundles|
      ensures ServerVerifies(ws[n].cfg, id, ws[n].servers[id], ws[n].hooks[h].bundles[i], ws[n].now)
    {
      assert Timely(ws[n]) && Secure(ws[n]) && Accepted(ws[n]);
    }
  }

  /** What holds of a recorded history, as far as passes are timely. */
  lemma HistoryAnswered(ws: seq<World>, es: seq<Event>)
    requires IsRun(ws, es) && Sane(ws[0]) && ws[0].completed.None? && AllTimely(ws)
    ensures AllAnswered(ws) && (RootsFlagged(ws[0]) ==> AllSecure(ws))
    ensures Steady(ws[0]) && AllAccepted(ws, 0) ==> AllServed(ws)
  {
    ServersVerifyExactly(ws, es);
    if RootsFlagged(ws[0]) {
      ServerCertificatesAlwaysVerify(ws, es);
      if AllAccepted(ws, 0) { SecureAndAcceptedIsServed(ws); }
    }
  }

  /** Every report but perhaps the last is of an error-free pass. */
  ghost predicate OkUntilLast(reports: seq<Report>) {
    forall k :: 0 <= k < |reports| - 1 ==> reports[k].ok
  }

  ghost predicate AllOk(reports: seq<Report>) {
    forall k :: 0 <= k < |reports| ==> reports[k].ok
  }

  /** Pass number `k` ends at most `d` after its tick. */
  ghost predicate Punctual(ends: seq<Time>, t0: Time, d: Time) {
    forall k :: 0 <= k < |ends| ==> ends[k] <= TickTime(t0, k) + d
  }

  lemma TickKeepsTimely(
    w0: World, ws: seq<World>, n0: nat, t0: Time, n: nat, d: Time, reports: seq<Report>, r: Report, last: Option<nat>,
    end: Time)
    requires LastOk(reports, last) && SpacedOut(reports + [r], n) && n * TICKER_DURATION + d <= CERT_LOOKAHEAD
    requires n0 <= |ws| && (SpacedOut(reports, n) ==> AllTimely(ws[..n0]))
    requires end <= TickTime(t0, |reports|) + d
    requires CompletedAt(w0, t0, last) && DuringTick(ws, n0, TickTime(t0, |reports|), end, w0.completed)
    ensures AllTimely(ws)
  {
    SpacedOutPrefix(reports, r, n, last);
    forall i | 0 <= i < |ws|
      ensures Timely(ws[i])
    {
      if i < n0 {
        assert Timely(ws[..n0][i]);
      } else {
        TickIsTimely(ws[i], t0, |reports|, n, d, last);
      }
    }
  }

  /** After some ticks, the last error-free one is known, and as far as ticks were spaced and punctual all states are
      timely. */
  ghost predicate OnTime(
    w: World, ws: seq<World>, reports: seq<Report>, ends: seq<Time>, t0: Time, n: nat, d: Time, last: Option<nat>)
  {
    && |reports| == |ends| && LastOk(reports, last) && CompletedAt(w, t0, last)
    && (SpacedOut(reports, n) && Punctual(ends, t0, d) ==> AllTimely(ws))
  }

  lemma OnTimeStep(
    w0: World, ws0: seq<World>, w: World, ws: seq<World>, reports: seq<Report>, ends: seq<Time>, r: Report,
    t0: Time, n: nat, d: Time, last: Option<nat>)
    requires OnTime(w0, ws0, reports, ends, t0, n, d, last) && n * TICKER_DURATION + d <= CERT_LOOKAHEAD
    requires ws0 <= ws && DuringTick(ws, |ws0|, TickTime(t0, |reports|), w.now, w0.completed)
    requires if r.ok then w.completed.Some? && TickTime(t0, |reports|) <= w.completed.value
             else w.completed == w0.completed
    ensures OnTime(w, ws, reports + [r], ends + [w.now], t0, n, d, if r.ok then Some(|reports|) else last)
  {
    var k, es := |reports|, ends + [w.now];
    if SpacedOut(reports + [r], n) && Punctual(es, t0, d) {
      assert es[k] <= TickTime(t0, k) + d;
      assert forall i :: 0 <= i < k ==> ends[i] == es[i];
      SpacedOutPrefix(reports, r, n, last);
      assert ws[..|ws0|] == ws0;
      TickKeepsTimely(w0, ws, |ws0|, t0, n, d, reports, r, last, w.now);
    }
  }

  /** The states of one more tick are added to those before. */
  lemma AcceptedExtended(ws: seq<World>, n: nat)
    requires n <= |ws| && AllAccepted(ws[..n], 0) && AllAccepted(ws, n)
    ensures AllAccepted(ws, 0)
  {
    forall i | 0 <= i < |ws|
      ensures Accepted(ws[i])
    {
      if i < n { assert Accepted(ws[..n][i]); }
    }
  }

  lemma OkReports(rs: seq<Report>, r: Report)
    ensures OkUntilLast(rs + [r]) <==> AllOk(rs)
    ensures AllOk(rs + [r]) <==> AllOk(rs) && r.ok
    ensures AllOk(rs) ==> OkUntilLast(rs)
  {
    var all := rs + [r];
    assert forall k :: 0 <= k < |rs| ==> all[k] == rs[k];
    assert all[|rs|] == r;
    if OkUntilLast(all) {
      forall k | 0 <= k < |rs| ensures rs[k].ok { assert all[k].ok; }
    }
    if AllOk(all) {
      assert all[|rs|].ok;
      forall k | 0 <= k < |rs| ensures rs[k].ok { assert all[k].ok; }
    }
  }

  ghost predicate SomeCallFails(env: Environment, m: nat, n: nat) {
    exists c: nat :: m <= c < n && env.fails(c)
  }

  /** Every tick that failed had a failing call. */
  ghost predicate FailsOnlyByCalls(env: Environment, reports: seq<Report>, marks: seq<nat>)
    requires |marks| == |reports| + 1
  {
    forall k :: 0 <= k < |reports| && !reports[k].ok ==> SomeCallFails(env, marks[k], marks[k + 1])
  }

  lemma OneMoreTick(env: Environment, reports: seq<Report>, marks: seq<nat>, r: Report, calls: nat)
    requires |marks| == |reports| + 1 && FailsOnlyByCalls(env, reports, marks)
    requires r.ok || SomeCallFails(env, marks[|reports|], calls)
    ensures FailsOnlyByCalls(env, reports + [r], marks + [calls])
  {
    var rs, ms := reports + [r], marks + [calls];
    forall k | 0 <= k < |rs| && !rs[k].ok
      ensures SomeCallFails(env, ms[k], ms[k + 1])
    {
      if k < |reports| { assert rs[k] == reports[k]; }
    }
  }

  /** If no call fails from number `n` on, every tick from there on is a pass without error. */
  lemma RecoversAfterFailures(env: Environment, reports: seq<Report>, marks: seq<nat>, n: nat, k: nat)
    requires |marks| == |reports| + 1 && FailsOnlyByCalls(env, reports, marks)
    requires (forall c: nat :: n <= c ==> !env.fails(c)) && k < |reports| && n <= marks[k]
    ensures reports[k].ok
  {
    assert !SomeCallFails(env, marks[k], marks[k + 1]);
  }

  /** The lookahead is 120 ticks long. */
  lemma TicksInLookahead(n: nat)
    ensures n * TICKER_DURATION <= CERT_LOOKAHEAD <==> n <= 120
  {
    assert CERT_LOOKAHEAD == 120 * TICKER_DURATION;
    assert (120 - n) * TICKER_DURATION >= 0 <==> n <= 120;
  }

  /** From a steady state: accepted until the first failed pass, and steady until then. */
  ghost predicate InUse(w0: World, w: World, ws: seq<World>, reports: seq<Report>) {
    Steady(w0) ==> (OkUntilLast(reports) ==> AllAccepted(ws, 0)) && (AllOk(reports) ==> Steady(w))
  }

  lemma InUseStep(w0: World, w1: World, ws1: seq<World>, w: World, ws: seq<World>, reports: seq<Report>, r: Report)
    requires InUse(w0, w1, ws1, reports) && ws1 <= ws
    requires Steady(w1) ==> AllAccepted(ws, |ws1|) && (r.ok ==> Steady(w))
    ensures InUse(w0, w, ws, reports + [r])
  {
    OkReports(reports, r);
    assert ws[..|ws1|] == ws1;
    if Steady(w0) && AllOk(reports) { AcceptedExtended(ws, |ws1|); }
  }

  /** The ticker loop itself. */
  method RunTicks(api: ApiServer, arrivals: seq<Option<string>>, ghost n: nat, ghost d: Time)
    returns (reports: seq<Report>, ghost ends: seq<Time>, ghost marks: seq<nat>)
    requires api.Valid() && api.world.completed.None? && api.worlds == [api.world]
    requires n * TICKER_DURATION + d <= CERT_LOOKAHEAD
    modifies api
    ensures api.Valid() && |reports| == |ends| == |arrivals| && api.worlds[0] == old(api.world)
    ensures SpacedOut(reports, n) && Punctual(ends, old(api.world).now, d) ==> AllTimely(api.worlds)
    ensures InUse(old(api.world), api.world, api.worlds, reports)
    ensures |marks| == |reports| + 1 && marks[0] == old(api.calls) && marks[|reports|] == api.calls
    ensures Complete(old(api.world)) ==> FailsOnlyByCalls(api.env, reports, marks)
    ensures reports != [] && reports[|reports| - 1].ok ==>
              api.world.completed.Some? && TickTime(old(api.world).now, |reports| - 1) <= api.world.completed.value
  {
    reports, ends, marks := [], [], [api.calls];
    var t0 := api.world.now;
    ghost var last: Option<nat> := None;
    if Steady(api.world) { SteadyIsAccepted(api.world); }
    for k := 0 to |arrivals|
      invariant api.Valid() && |reports| == |ends| == k && api.worlds[0] == old(api.world)
      invariant OnTime(api.world, api.worlds, reports, ends, t0, n, d, last)
      invariant InUse(old(api.world), api.world, api.worlds, reports)
      invariant |marks| == k + 1 && marks[0] == old(api.calls) && marks[k] == api.calls
      invariant Complete(old(api.world)) ==> Complete(api.world) && FailsOnlyByCalls(api.env, reports, marks)
      invariant k > 0 && reports[k - 1].ok ==> last == Some(k - 1)
    {
      ghost var w, ws := api.world, api.worlds;
      var r := Tick(api, t0 + (k + 1) * TICKER_DURATION, arrivals[k]);
      OnTimeStep(w, ws, api.world, api.worlds, reports, ends, r, t0, n, d, last);
      InUseStep(old(api.world), w, ws, api.world, api.worlds, reports, r);
      if Complete(old(api.world)) { OneMoreTick(api.env, reports, marks, r, api.calls); }
      reports, ends, marks := reports + [r], ends + [api.world.now], marks + [api.calls];
      last := if r.ok then Some(k) else last;
    }
  }

  /** The ticker loop, for as many ticks as `arrivals` is long; each may be preceded by the arrival of a policy server.
      The bounds `n` and `d` only serve the clause about spacing: with instantaneous passes (`d` zero) `n` may be 120,
      so that 119 consecutive ticks may fail. */
  method Start(api: ApiServer, arrivals: seq<Option<string>>, ghost n: nat, ghost d: Time)
    returns (reports: seq<Report>, ghost ends: seq<Time>, ghost marks: seq<nat>)
    requires api.Valid() && Sane(api.world) && api.world.completed.None? && api.worlds == [api.world]
    requires n * TICKER_DURATION + d <= CERT_LOOKAHEAD
    modifies api
    ensures api.Valid() && |reports| == |ends| == |arrivals|
    // Passes are timely if each ends soon after its tick and error-free ones are at most `n` ticks apart.
    ensures SpacedOut(reports, n) && Punctual(ends, old(api.world).now, d) ==> AllTimely(api.worlds)
    // Whatever fails and however long it takes: as long as passes are timely, a certificate fails to verify only for
    // want of a root that vouches for it, and so never if the CAs at the start are CA certificates.
    ensures AllTimely(api.worlds) ==>
              AllAnswered(api.worlds) && (RootsFlagged(old(api.world)) ==> AllSecure(api.worlds))
    // From a steady state and up to the end of the first pass that fails, certificates in use are accepted by every
    // labelled webhook; if passes are timely as well, those of all servers are.
    ensures Steady(old(api.world)) && OkUntilLast(reports) ==>
              AllAccepted(api.worlds, 0) && (AllTimely(api.worlds) ==> AllServed(api.worlds))
    // Tick `k` makes the calls from `marks[k]` to `marks[k + 1]`. With nothing missing from the secrets, it is a pass
    // without error unless one of these fails; the last such pass started at its tick or later.
    ensures |marks| == |reports| + 1 && marks[0] == old(api.calls) && marks[|reports|] == api.calls
    ensures Complete(old(api.world)) ==> FailsOnlyByCalls(api.env, reports, marks)
    ensures reports != [] && reports[|reports| - 1].ok ==>
              api.world.completed.Some? && TickTime(old(api.world).now, |reports| - 1) <= api.world.completed.value
  {
    reports, ends, marks := RunTicks(api, arrivals, n, d);
    if AllTimely(api.worlds) {
      HistoryAnswered(api.worlds, api.events);
    }
  }
}
