# Kubewarden controller: a verified model

Kubewarden's controller is a set of Kubernetes reconcilers that work on one shared API-server state. This project models
the ones whose correctness rests on whole histories rather than on single calls, and proves what those histories keep:

- **Certificate rotation** (`Certs`, `CertWorld`, `CertRuns`, `CertPass`, `CertController`). A CA secret, the server
  certificate secrets and the CA bundles of webhooks, changed by a pass every twelve hours. `CertWorld.Next` is every
  atomic change any controller can make; `CertRuns` proves what holds along every run of such changes, `CertPass` what
  holds between the writes of one pass, and `CertController` is the controller itself, as methods over an API server
  whose calls may fail and whose clock moves. Every method proves that what it did is a run of `CertWorld.Next`, so the
  theorems about runs apply to it.
- **Finalizers** (`Lifecycle`, `LifecycleController`). Policies, policy servers and webhooks under two controllers: safety
  of webhooks (exactly when it holds), and a measure that makes deletion of a policy server terminate.
- **Policy status** (`Reachability`, `PolicyStatus`, `PolicyController`). When a policy is uniquely reachable, and what
  every persisted status says about that, while the cluster changes between any two reads.
- **Policy server configuration** (`UniqueNames`, `KeyedMaps`, `PolicyConfig`). The map of policies, its JSON form and
  back, the reconcile requests read from it, and the exact collisions of its keys.
- **Admission and details** (`Validation`, `Selectors`, `EnvVars`). Accepted updates, match conditions, namespace
  selectors, and copied environment variables.

## Reading the model

- Time is counted in nanoseconds. X.509 keeps whole seconds, which `Certs.WholeSeconds` makes explicit; for this reason
  the distance between CA rotations is 3590 days less one second, and `CertRuns.RotationsCanBeCloser` shows that the
  second is needed.
- A key pair is a number, and generating one takes the next unused number. A certificate keeps its key, the key that
  signed it, its validity window, its DNS name and whether it is a CA certificate. A missing entry of a secret is
  `None`, and so is an empty one of the current CA or a server; all others decode. (The policy server controller alone
  tells missing from empty: it keeps an empty entry, where the model has it signed anew.)
- An API call either fails and changes nothing or takes effect at once; which calls fail is an arbitrary function of the
  call's number. The clock is read once for each check together with the write that follows from it, and may move by any
  amount between these.
- Passes of different controllers do not interleave inside the methods of `CertController` and `LifecycleController`; the
  run theorems of `CertRuns` and `Lifecycle` allow any order of their atomic writes. `PolicyController` lets everything
  it reads change between two reads.
- Where the code falls short of a stronger claim, the model keeps the code and states the exact condition:
  - a webhook patch that fails during a rotation is repaired only by a pass that rotates again or drops the retired CA
    (`CertController.BundlesRepairedExactly`, `CertController.FailedPatchRepairedExactly`), and a policy webhook written
    before all servers are reissued accepts only those that are (`CertPass.WebhookAcceptsExactly`);
  - a stored CA that is no CA certificate is never replaced for it (`CertRuns.ServersVerifyExactly`,
    `CertRuns.UnflaggedCAFails`), and one whose key is foreign can be retired, and even overwritten, while valid
    (`CertRuns.RetiresOnlyExpiringExactly`, `CertRuns.OverwritesOnlyExpiredExactly`);
  - webhooks outlive their policy or policy server after a flip of `mutating`, a failed list, a wrong NotFound answer or
    a foreign finalizer (`Lifecycle.SoundNextExactly` and the four counterexamples beside it);
  - a policy keeps the status `active` through a pass that takes the PolicyActive condition away
    (`PolicyStatus.ActiveSurvivesExactly`), and can be activated on a ConfigMap that has just been replaced
    (`PolicyController.ReachableExactly`, `PolicyController.StaleConfigMapActivates`);
  - one unreadable policy makes all policies of its server unreachable (`Reachability.ContainsExactly`);
  - the labels of a cluster-wide policy's namespace selector are ignored (`Selectors.MatchLabelsIgnoredExactly`), although
    the field's documentation describes a full label selector.

## Model

| member | source | states |
|---|---|---|
| `Certs.WholeSeconds` | internal/certs/certs.go:42-43 | validity bounds lose less than a second |
| `Certs.VerifyCA` | internal/certs/certs.go:195-206 | succeeds exactly if the key, when given, belongs to the certificate and the instant lies in its window, both ends included |
| `Certs.GenerateCA` | internal/certs/certs.go:25-71 | a self-signed CA certificate that verifies with its key from notBefore until one second before notAfter |
| `Certs.GenerateCert` | internal/certs/certs.go:75-137 | fails exactly for a foreign CA key; otherwise the certificate verifies under the CA for its DNS name while both are valid, and vouches for no certificate but itself |
| `Certs.DNSName` | internal/certs/certs.go:238-240 | the text before the first dot is the service |
| `Certs.DNSNamesDiffer` | internal/certs/certs.go:238-240 | services of a namespace, and services without dots anywhere, have different DNS names |
| `CertRuns.SaneNext` | internal/controller/cert_controller.go:90-276 | no change by any controller stores a certificate from the future |
| `CertRuns.CoveredNext` | internal/controller/cert_controller.go:90-276 | every single change keeps each server certificate covered by a stored root for the lookahead of the last error-free pass |
| `CertRuns.CoveredIsAnswered` | internal/certs/certs.go:208-236 | a covered certificate fails to verify only for want of a root that is it, or signed it, is a CA certificate and is valid |
| `CertRuns.CoveredIsDecided` | internal/certs/certs.go:208-236 | with roots of different keys, a covered certificate verifies exactly if the root that signed it is a CA certificate, or it is a root itself |
| `CertRuns.CoveredIsSecure` | internal/certs/certs.go:208-236 | under CA certificates, covered certificates verify now and until the lookahead ends |
| `CertRuns.CoveredThroughout` | internal/controller/cert_controller.go:68-276 | coverage along whole runs |
| `CertRuns.ServersVerifyExactly` | internal/controller/cert_controller.go:68-276 | in every run, whatever fails, if error-free passes are never more than 60 days apart, then at every moment after the first a managed server certificate verifies exactly if a stored root vouches for it; dates, keys and names never fail |
| `CertRuns.ServerCertificatesAlwaysVerify` | internal/controller/cert_controller.go:68-276 | so with CA certificates at the start every one verifies at every such moment |
| `CertRuns.UnflaggedCAFails` | internal/certs/certs.go:195-206 | a run in which a stored CA without the CA flag passes its check, an error-free pass completes and a server does not verify |
| `CertRuns.LookaheadIsTight` | internal/constants/constants.go:81-83 | a run with one nanosecond more between passes in which a certificate has expired |
| `CertRuns.RotationDue` | internal/controller/cert_controller.go:96-108 | a generated CA is due for rotation exactly after 3590 days less a fraction of a second |
| `CertRuns.RotationsFarApart` | internal/controller/cert_controller.go:96-108 | any two rotations of a run are more than 3590 days less one second apart |
| `CertRuns.RotationsCanBeCloser` | internal/controller/cert_controller.go:96-108 | a run with two rotations less than 3590 days apart |
| `CertRuns.ReissueDue` | internal/controller/cert_controller.go:255-270 | a certificate issued is due again exactly after 305 days less a fraction of a second, while its CA lasts |
| `CertRuns.ServersAreTold` | internal/controller/cert_controller.go:206-237 | policy servers have different DNS names, and the webhook server another one unless a policy server is called like its service |
| `CertRuns.OneServerEach` | internal/certs/certs.go:208-236 | no secret verifies for two DNS names |
| `CertRuns.RetiredTrailsThroughout` | internal/controller/cert_controller.go:105-110 | along every run the retired CA expires 3590 days (less a second) before the current one |
| `CertRuns.RetiresOnlyExpiringExactly` | internal/controller/cert_controller.go:96-108 | all rotations of all runs from a state retire CAs that expire within 60 days, exactly if its CA expires within 60 days, or fits its key and starts within 60 days |
| `CertRuns.OverwritesOnlyExpiredExactly` | internal/controller/cert_controller.go:96-108 | with an empty slot, all rotations of all runs overwrite only expired CAs, exactly if the CA at the start is not one that is rejected for its key or its start and lasts beyond the due time of its replacement |
| `CertRuns.TwoRotations` | internal/controller/cert_controller.go:96-108 | from every other state, a run of two rotations that overwrites a valid CA |
| `CertRuns.RetiredSlotNeverOverwrittenWhileValid` | internal/controller/cert_controller.go:96-108 | from an empty slot and a CA that fits its key and starts within 60 days, the overwritten CA even expired more than 3470 days ago |
| `CertRuns.RetiresLastingCA` | internal/controller/cert_controller.go:96-108 | from any start, a rotation retires a CA that lasts longer than 60 days only if it was there from the start and has a foreign key or starts more than 60 days later |
| `CertRuns.ForeignKeyRetiresLastingCA` | internal/controller/cert_controller.go:96-108 | a run in which a CA with a foreign key is retired while valid for as long as one likes |
| `CertRuns.KeysMatchThroughout` | internal/controller/cert_controller.go:105-110 | stored certificates match the stored keys in every reachable state |
| `CertRuns.IssuedUnderStoredCA` | internal/controller/cert_controller.go:240-270 | every certificate issued along a run is signed by the CA that the secret already held, and vouches for no other |
| `CertPass.GuardedIsSafe` | internal/controller/cert_controller.go:90-121 | in every guarded state, a server certificate that verifies under the stored roots verifies under every labelled bundle |
| `CertPass.GuardedRotated` | internal/controller/cert_controller.go:105-110 | writing the new CA before the webhooks keeps the bundles good for certificates in use |
| `CertPass.GuardedDropped` | internal/controller/cert_controller.go:125-154 | dropping an expired retired CA keeps them good |
| `CertPass.GuardedHooks` | internal/controller/cert_controller.go:159-203 | so does each single webhook patch |
| `CertPass.GuardedServers` | internal/controller/cert_controller.go:206-237 | so does each reissued server certificate |
| `CertPass.SettledIsSteady` | internal/controller/cert_controller.go:68-85 | at the end of a pass bundles and certificates are all on the current CA again |
| `CertPass.SteadyNext` | internal/controller/policyserver_controller_cert_secret.go:37-77 | time, new servers and deletions keep that state |
| `CertPass.SteadyIsAccepted` | internal/controller/cert_controller.go:68-85 | in that state every labelled bundle accepts every server that verifies under the stored roots |
| `CertPass.StrandedBundle` | internal/controller/cert_controller.go:112-115 | after an error-free pass a bundle without the current CA verifies no server, ever |
| `CertPass.WebhookAcceptsExactly` | internal/controller/policy_subreconciler_webhook.go:64 | in every state with proper roots, a webhook written with the current CA alone accepts, of the servers that verify under the stored roots, exactly those whose certificate the current CA signed |
| `CertPass.WebhookWrittenMidRotation` | internal/controller/policy_subreconciler_webhook.go:64 | so one written right after a rotation rejects every server, though all still verify under the stored roots |
| `CertController.ApiServer.Write` | internal/controller/cert_controller.go:108-110 | all or nothing, recorded in the history |
| `CertController.SetBundles` | internal/controller/cert_controller.go:169-171 | the loop sets the bundle of every webhook of one configuration |
| `CertController.PatchListed` | internal/controller/cert_controller.go:167-179 | patches exactly the listed configurations, or stops at a failure with some of them patched |
| `CertController.PatchKind` | internal/controller/cert_controller.go:159-179 | the same for the labelled configurations of one kind |
| `CertController.ReconcileWebhookConfigurations` | internal/controller/cert_controller.go:159-203 | all labelled configurations of both kinds hold the bundle, or it reports failure |
| `CertController.RotateCARoot` | internal/controller/cert_controller.go:99-118 | the new CA is stored before any webhook is patched, with both CAs; if the first patch fails none is |
| `CertController.ReconcileCARoot` | internal/controller/cert_controller.go:90-121 | rotates exactly a CA that does not verify 60 days ahead, keeps it as the retired one, and patches the webhooks with both |
| `CertController.ReconcileOldCARoot` | internal/controller/cert_controller.go:125-154 | drops exactly a retired CA that no longer verifies, then patches the webhooks with the current one |
| `CertController.ReconcileServerCert` | internal/controller/cert_controller.go:240-276 | the certificate is good for the lookahead afterwards, is replaced only if it was not, and nothing else changes |
| `CertController.ReconcileListedCerts` | internal/controller/cert_controller.go:229-234 | the same for every listed server, in any order |
| `CertController.ReconcileWebhookServerCert` | internal/controller/cert_controller.go:207-215 | the same for the webhook server, whose secret must be there |
| `CertController.ReconcileServerCerts` | internal/controller/cert_controller.go:206-237 | the same for the webhook server and all policy servers |
| `CertController.Reconcile` | internal/controller/cert_controller.go:68-85 | an error-free pass settles everything, replaces and drops exactly the roots whose guards say so, and returns to the steady state; a pass stops at its first failing call, and without one succeeds unless something is missing; at every moment of any pass certificates in use verify under every labelled bundle; a settled state is not written to |
| `CertController.ReconcileTwice` | internal/controller/cert_controller.go:68-154 | after an error-free pass, a second one at the same instant writes nothing if the stored CA is a CA certificate or the server certificate itself for every server, and an error-free one exactly then |
| `CertController.BundlesRepairedExactly` | internal/controller/cert_controller.go:96-133 | after an error-free pass the bundles hold the current CA exactly if the CA did not verify ahead, or the retired CA did not verify, when the pass read the clock for them, or the bundles held it before |
| `CertController.FailedPatchRepairedExactly` | internal/controller/cert_controller.go:112-133 | after a rotation without any patch, the next error-free pass repairs the bundles exactly if it finds the new CA due again or the retired CA expired; otherwise it leaves a webhook under which no server verifies |
| `CertController.FailedPatchStrands` | internal/controller/cert_controller.go:112-115 | two passes, the first of which fails at its first patch: while the retired CA is valid, the second succeeds and leaves such a webhook |
| `CertController.StrandedRun` | internal/controller/cert_controller.go:112-115 | a concrete such run, in which the reissued certificate verifies 60 days ahead and the webhook rejects it |
| `CertController.ReconcilePolicyServerCertSecret` | internal/controller/policyserver_controller_cert_secret.go:22-93 | an existing certificate is kept; a missing one is signed by the stored CA |
| `CertController.TickIsTimely` | internal/controller/cert_controller.go:34-51 | ticks at most n after an error-free one stay within the lookahead |
| `CertController.Wait` | internal/controller/policyserver_controller.go:96-99 | a policy server that arrives before the tick has its certificate, unless a call fails |
| `CertController.Tick` | internal/controller/cert_controller.go:39-49 | each tick makes a pass, which with nothing missing from the secrets fails only if a call does; from the steady state, certificates in use are accepted by every labelled webhook throughout, and an error-free tick ends in it |
| `CertController.RecoversAfterFailures` | internal/controller/cert_controller.go:44-49 | once calls stop failing, every later tick is a pass without error |
| `CertController.TicksInLookahead` | internal/controller/cert_controller.go:34-51 | the lookahead is 120 ticks |
| `CertController.RunTicks` | internal/controller/cert_controller.go:39-49 | the loop makes one tick after the other, each at its time |
| `CertController.Start` | internal/controller/cert_controller.go:34-51 | over any number of ticks, with any failures: while passes are timely, which n ticks between error-free ones guarantee (120, if passes take no time), a certificate fails to verify only for want of a root that vouches for it, never under CA certificates; from the steady state and until the first failed pass, every server verifies under every labelled bundle; with nothing missing from the secrets, each tick is an error-free pass unless one of its calls fails |
| `Lifecycle.WellKeptNext` | internal/controller/policyserver_controller.go:353-375 | live objects stay guarded by a finalizer and deleting ones exist only for theirs |
| `Lifecycle.SoundNextExactly` | internal/controller/policy_subreconciler.go:147-168 | a step keeps every webhook backed by its policy, finalizer and policy server exactly if it is benign |
| `Lifecycle.SoundExactlyWhileBenign` | internal/controller/policy_subreconciler.go:72-168 | the same along every run |
| `Lifecycle.DisciplinedIsBenign` | internal/controller/policyserver_controller.go:353-395 | fixed mutating flags, complete lists, true NotFound answers and no foreign server finalizers make every step benign |
| `Lifecycle.StrongNext` | internal/controller/policyserver_controller.go:353-395 | and this is kept by every step |
| `Lifecycle.WebhooksStaySound` | internal/controller/policy_subreconciler.go:72-168 | in every reachable state of such a run each webhook has its policy with its finalizer, and its policy server |
| `Lifecycle.FlippedPolicyOrphansWebhook` | internal/controller/policy_subreconciler.go:148-156 | a run in which a changed mutating flag leaves a webhook without its policy |
| `Lifecycle.FailedListStrandsWebhook` | internal/controller/policyserver_controller.go:309-351 | a step in which an ignored list error lets a policy server go while a webhook points to it |
| `Lifecycle.MissedWebhookOrphaned` | internal/controller/policy_subreconciler_webhook.go:93-105 | a step in which a NotFound answer for an existing webhook lets the policy go without it |
| `Lifecycle.ForeignFinalizerStrandsWebhook` | internal/controller/policyserver_controller.go:353-375 | a run in which a policy is bound to a released server that a foreign finalizer still keeps |
| `Lifecycle.PassLowersMeasure` | internal/controller/policyserver_controller.go:353-395 | every pass that changes a policy or server lowers the measure |
| `Lifecycle.OthersKeepMeasure` | internal/controller/policyserver_controller.go:353-395 | nothing raises it but binding a new policy or creating the server anew |
| `Lifecycle.ProgressIsBounded` | internal/controller/policyserver_controller.go:353-395 | in every run with the server being deleted and nothing newly bound, at most as many of its passes change anything as the measure says at the start |
| `Lifecycle.ServerPassIsStep` | internal/controller/policyserver_controller.go:353-395 | an error-free pass is one of the steps |
| `Lifecycle.StuckExactly` | internal/controller/policyserver_controller.go:353-395 | deletion is stuck exactly if nothing is left to delete and the server lost its finalizers or foreign finalizers keep bound policies |
| `Lifecycle.StuckMeansReleased` | internal/controller/policyserver_controller.go:353-375 | without foreign finalizers the only stuck state is the one where the server's own finalizers are gone |
| `LifecycleController.ListKind` | internal/controller/policyserver_controller.go:309-318 | each bound policy of one kind once, or none if the list fails |
| `LifecycleController.GetPolicies` | internal/controller/policyserver_controller.go:309-351 | each bound policy once; it gives up exactly if a list is answered NotFound, and kinds whose list fails otherwise are missing |
| `LifecycleController.DeletePoliciesAndRequeue` | internal/controller/policyserver_controller.go:377-395 | requeues exactly if no delete went wrong but by NotFound, and then every listed live policy was deleted or not found; no other is touched |
| `LifecycleController.ReconcileDeletion` | internal/controller/policyserver_controller.go:353-375 | policies first; the finalizers go only when none is listed, and then it is done exactly if the update went through or met a conflict |
| `LifecycleController.ReconcileServer` | internal/controller/policyserver_controller.go:83-164 | a pass is a step of the protocol, and the error-free one if nothing fails; over a deleting server it is done only if the finalizers are gone, or the server was not found or its update met a conflict |
| `LifecycleController.ReconcilePolicyDeletion` | internal/controller/policy_subreconciler.go:147-168 | the webhook goes before the finalizers; stopped in between, only the webhook is gone; a webhook that is not found is not waited for |
| `LifecycleController.ReconcileWebhookDeletion` | internal/controller/policy_subreconciler_webhook.go:93-105 | the webhook is gone, or was not found, or an error is reported |
| `LifecycleController.ReconcileWebhook` | internal/controller/policy_subreconciler_webhook.go:22-91 | writing a webhook is a step of the protocol, or nothing |
| `LifecycleController.Drain` | internal/controller/policyserver_controller.go:353-395 | every schedule of error-free passes ends, after at most as many as the measure says, with the policies and the server gone, along a run whose every state has its webhooks sound |
| `UniqueNames.SameTextExactly` | api/policies/v1/admissionpolicygroup_types.go:176-178 | namespace-and-name texts agree exactly if one namespace extends the other by a dash and a shift of the names |
| `UniqueNames.LooksLikeGroupExactly` | api/policies/v1/admissionpolicy_types.go:152-154 | exactly when a plain policy's text is that of a group |
| `UniqueNames.CollisionsExactly` | api/policies/v1/clusteradmissionpolicy_types.go:203-205 | unique names of all four kinds are equal exactly in the listed cases, never across scopes |
| `UniqueNames.InjectiveWithoutDashes` | api/policies/v1/admissionpolicy_types.go:152-154 | within a kind, names are injective for namespaces without dashes |
| `KeyedMaps.SourceOf` | internal/controller/policyserver_controller_configmap.go:189-213 | every key of the map comes from the last element of the list with that key |
| `KeyedMaps.KeyHeld` | internal/controller/policyserver_controller_configmap.go:189-213 | every key of the list is in the map, with the value of its last occurrence |
| `KeyedMaps.AllVisited` | internal/controller/policyserver_controller_configmap.go:239-268 | walking the keys of the map in any order visits exactly the listed values |
| `PolicyConfig.MembersRoundTrip` | internal/controller/policyserver_controller_configmap.go:177-187 | group members, with settings and context-aware resources, come back from JSON |
| `PolicyConfig.CheckedExactly` | internal/controller/policyserver_controller_configmap.go:49-62 | decoded fields make an entry exactly if all are of the right type and there is a module or there are members, but not both |
| `PolicyConfig.FittingReadsBack` | internal/controller/policyserver_controller_configmap.go:49-96 | an entry that sets nothing outside its layout comes back unchanged, unless it has neither module nor members |
| `PolicyConfig.EntryRoundTrip` | internal/controller/policyserver_controller_configmap.go:49-96 | the entry of a policy comes back unchanged exactly if a plain policy has a module and a group has members, and not at all otherwise |
| `PolicyConfig.BuildPoliciesMap` | internal/controller/policyserver_controller_configmap.go:189-213 | the loop builds the map of the listed policies |
| `PolicyConfig.LastPolicyWins` | internal/controller/policyserver_controller_configmap.go:189-213 | the keys are exactly the unique names, and the last policy of each name is its entry |
| `PolicyConfig.ConfigReadsBackExactly` | internal/controller/policyserver_controller_configmap.go:130-156 | for every list of policies the policies entry reads back as the map it was built from exactly if every surviving policy is readable, and not at all otherwise |
| `PolicyConfig.EntryLosesNothing` | internal/controller/policyserver_controller_configmap.go:189-213 | an entry determines its policy, up to the context-aware resources that namespaced policies are not given |
| `PolicyConfig.ConfigRestoresPolicies` | internal/controller/policyserver_controller_configmap.go:189-213 | what is read back from the ConfigMap determines every surviving policy, up to the same |
| `PolicyConfig.ToAdmissionPolicyReconcileRequests` | internal/controller/policyserver_controller_configmap.go:239-253 | one request for each namespaced entry |
| `PolicyConfig.ToClusterAdmissionPolicyReconcileRequests` | internal/controller/policyserver_controller_configmap.go:255-268 | one request for each cluster-wide entry |
| `PolicyConfig.RequestEveryPolicy` | internal/controller/policyserver_controller_configmap.go:189-268 | with distinct unique names, the two lists of requests together name every bound policy exactly once |
| `Reachability.IsPodReady` | internal/controller/policy_subreconciler.go:274-281 | the first Ready condition is True |
| `Reachability.LatestTemplate` | internal/controller/policy_subreconciler.go:232-241 | the hash of the first ReplicaSet of the deployment's revision and the ConfigMap's version |
| `Reachability.OnlyRunningMeans` | internal/controller/policy_subreconciler.go:257-260 | then all pods, at least one, are ready and belong to a ReplicaSet of the deployment's revision and the ConfigMap's version |
| `Reachability.RolloutNotStarted` | internal/controller/policy_subreconciler.go:232-241 | while no ReplicaSet of the revision has the ConfigMap's version, nothing is uniquely reachable |
| `Reachability.PodsServe` | internal/controller/policy_subreconciler.go:243-254 | there are pods, and all of them are ready and of that hash |
| `Reachability.ContainsExactly` | internal/controller/policy_subreconciler.go:262-272 | a ConfigMap built from policies contains a name exactly if it is one of theirs and every surviving policy is readable |
| `PolicyStatus.SetThenLookup` | internal/controller/policy_subreconciler.go:373-384 | setting a condition changes what is found under its type and nothing else |
| `PolicyStatus.SetKeepsUniqueTypes` | internal/controller/policy_subreconciler.go:373-384 | at most one condition per type |
| `PolicyStatus.ModeReported` | internal/controller/policy_subreconciler.go:170-203 | the reported mode is the policy's own if the server's configuration is readable, and unknown otherwise |
| `PolicyStatus.StageConditions` | internal/controller/policy_subreconciler.go:72-145 | what each way a pass can end does to the two conditions |
| `PolicyStatus.ModeConditions` | internal/controller/policy_subreconciler.go:386-420 | the mode part of a pass leaves those conditions and the status alone |
| `PolicyStatus.UpToDateExactly` | internal/controller/policy_subreconciler.go:386-420 | up to date exactly if the deployment's annotation is the ConfigMap's version; otherwise the reason tells a missing annotation from another version |
| `PolicyStatus.KindExactly` | internal/controller/policy_subreconciler.go:83-95 | which status a persisting pass leaves, for each way it can end: active exactly if it wrote the webhook or the policy was active and its server found |
| `PolicyStatus.ModeExactly` | internal/controller/policy_subreconciler.go:185-198 | the mode found is the mode stored, and otherwise it stays |
| `PolicyStatus.ActiveSince` | internal/controller/policy_subreconciler.go:373-384 | in every history a policy that became active owes it to a persisted pass that wrote the webhook, and has been active since |
| `PolicyStatus.StatusesAlwaysSound` | internal/controller/policy_subreconciler.go:49-145 | in every persisted status of every history PolicyActive implies active and uniquely reachable, types are unique, and PolicyActive holds exactly if the last persisting pass wrote the webhook |
| `PolicyStatus.StatusMovesExactly` | internal/controller/policy_subreconciler.go:84-95 | the moves between statuses a persisting pass can make: all but active to pending |
| `PolicyStatus.ActiveSurvivesExactly` | internal/controller/policy_subreconciler.go:93-95 | an active policy stays active without the PolicyActive condition exactly if the pass found its server and did not finish |
| `PolicyController.IsPolicyUniquelyReachable` | internal/controller/policy_subreconciler.go:213-255 | true exactly if the three reads succeed and show the policy in the ConfigMap and only pods of its version, all ready; what that means is said of the fields seen |
| `PolicyController.ReconcilePolicy` | internal/controller/policy_subreconciler.go:72-145 | how far it gets is determined by its reads, and with it the status, the result and the webhook |
| `PolicyController.ReconcileScheduled` | internal/controller/policy_subreconciler.go:97-145 | the same from the deployment read on |
| `PolicyController.ReconcileWebhook` | internal/controller/policy_subreconciler.go:127-144 | the webhook is written with the CA just read, and only then is the policy active |
| `PolicyController.SetPolicyModeStatus` | internal/controller/policy_subreconciler.go:170-203 | mode and version condition follow the two reads; a failed read is an error |
| `PolicyController.Reconcile` | internal/controller/policy_subreconciler.go:49-70 | the stored status changes as one pass of the status history, or not at all if the mode or the update fails |
| `PolicyController.ReconcileRepeatedly` | internal/controller/policy_subreconciler.go:49-145 | over any passes and any changes between reads, a persisted PolicyActive has behind it the last pass that persisted anything, and that pass saw the policy uniquely reachable and wrote its webhook; and a policy became active only by such a pass |
| `PolicyController.ActiveSurvivesByCalls` | internal/controller/policy_subreconciler.go:84-142 | the same by the calls of the pass: the server is named and found, and a later call fails or shows the policy not to be reachable |
| `PolicyController.KindByCalls` | internal/controller/policy_subreconciler.go:83-145 | the status a persisting pass leaves, told by what its calls saw |
| `PolicyController.NotRetriedExactly` | internal/controller/policy_subreconciler.go:83-145 | a pass is not retried exactly if it persists and found no server or went through |
| `PolicyController.ModeStored` | internal/controller/policy_subreconciler.go:170-203 | the mode stored is the policy's own, if the configuration read is readable, and unknown otherwise |
| `PolicyController.WebhookLeadsToPolicy` | internal/controller/policy_subreconciler_webhook.go:34-42 | webhooks share a service exactly for one policy server and a path exactly for one unique name; the service is the one the server's certificate is made out to |
| `PolicyController.ReachableExactly` | internal/controller/policy_subreconciler.go:213-260 | a policy that a pass activates is uniquely reachable in the cluster at the moment the pods are listed exactly if then the ConfigMap contains it and the first latest ReplicaSet has the template hash that the pass saw |
| `PolicyController.ReachableAtPodList` | internal/controller/policy_subreconciler.go:213-260 | in particular if ConfigMap version, revision and ReplicaSets have not moved on |
| `PolicyController.StaleConfigMapActivates` | internal/controller/policy_subreconciler.go:105-142 | otherwise a policy can be activated that is not reachable any more |
| `Validation.TrimmedExactly` | api/policies/v1/policy_validation.go:262-264 | an expression trims to nothing exactly if it is blank |
| `Validation.ErrorForEachFault` | api/policies/v1/policy_validation.go:260-276 | each fault of a condition gets its own error |
| `Validation.ConditionErrorsExactly` | api/policies/v1/policy_validation.go:260-276 | one condition has no errors exactly if its expression is not blank and compiles and its name is qualified |
| `Validation.DuplicatesCounted` | api/policies/v1/policy_validation.go:249-255 | as many duplicates as names less different names |
| `Validation.AcceptableExactly` | api/policies/v1/policy_validation.go:241-258 | no errors exactly for at most 64 good conditions with different names |
| `Validation.ValidateMatchConditions` | api/policies/v1/policy_validation.go:241-258 | the same of the loop, with one duplicate error, in order, for each repeated name |
| `Validation.Defaulted` | api/policies/v1/admissionpolicy_webhook.go:60-74 | a server, and a finalizer unless deleting; everything else is kept |
| `Validation.DefaultedExactly` | api/policies/v1/admissionpolicy_webhook.go:60-74 | the objects defaulting can produce are exactly those it leaves alone |
| `Validation.AcceptedExactly` | api/policies/v1/policy_validation.go:86-99 | an update is accepted exactly if it is valid, keeps the server or leaves out the default one, and does not go from protect to monitor |
| `Validation.HistoryGoesOn` | api/policies/v1/policy_validation.go:86-99 | every history goes on with every such request |
| `Validation.PolicyObject.Default` | api/policies/v1/admissionpolicy_webhook.go:60-74 | the same in place |
| `Validation.ServerAndFinalizerKept` | api/policies/v1/policy_validation.go:216-222 | along every history of accepted requests the server is never empty and never changes, and the finalizer is there until deletion |
| `Validation.ProtectIsKept` | api/policies/v1/policy_validation.go:224-230 | protect is left only by way of a third mode |
| `Validation.ModeChangesOnce` | api/policies/v1/policy_validation.go:86-99 | with the two modes of the schema the mode changes at most once |
| `Validation.ThirdModeEscapes` | api/policies/v1/policy_validation.go:224-230 | any third mode would make the way from protect to monitor possible |
| `Selectors.SelectorMatchesExactly` | internal/controller/policy_subreconciler_webhook.go:193-215 | for every label map, which namespaces the webhook of each kind of policy looks at |
| `Selectors.MatchLabelsIgnoredExactly` | internal/controller/policy_subreconciler_webhook.go:206-208 | on which namespaces the webhook agrees with the selector that was asked for |
| `Selectors.LabelsAloneExactly` | internal/controller/policy_subreconciler_webhook.go:206-208 | a selector of labels alone is honoured everywhere exactly if it has none |
| `EnvVars.IndexOf` | internal/controller/policyserver_controller_deployment.go:520-527 | the first variable of a name, or -1 if there is none |
| `EnvVars.EnvVarsContainVariable` | internal/controller/policyserver_controller_deployment.go:520-527 | the same of the loop |
| `EnvVars.Container.ReplicateEnvVars` | internal/controller/policyserver_controller_deployment.go:508-517 | the loop handles the listed names in order |
| `EnvVars.Container.ReplicateOtelEnvVars` | internal/controller/policyserver_controller_deployment.go:478-518 | the same for the OpenTelemetry names |
| `EnvVars.ReplicatedReplicates` | internal/controller/policyserver_controller_deployment.go:508-517 | the first variable of each listed name takes the controller's value, all others keep value and place, and the list grows by exactly the missing names |
| `EnvVars.ReplicatedTwice` | internal/controller/policyserver_controller_deployment.go:478-518 | doing it again changes nothing |

## Left out

- Entries of a secret that are there but do not decode: the code rotates or reissues on a certificate that does not parse,
  and has no answer to text that is not PEM at all.
- Cryptography, PEM and X.509 encoding: signatures and keys are abstract, and the random choice of keys is a counter.
- The text of JSON: objects, field names and omitted fields are modelled, not characters; nil and empty lists are the same.
- CEL compilation, qualified-name syntax and the set of white-space characters are parameters of the match-condition check.
- `validateRulesField` and its wildcard and sensitive-resource checks: single-rule scans; accepted histories take their
  verdict as a flag of the request.
- The sources entry of the ConfigMap, the Service, the PodDisruptionBudget and the pod template of the policy server:
  literal data without a history.
- controller-runtime (caches, queues, leader election, backoff, event-to-request mapping), metrics and feature gates.
- Certificate passes interleaved with another controller's write between the read of a secret and its update: the API
  server's conflict detection, which makes the update fail, is not modelled.
- Removing Kubewarden's finalizers by hand from deleting objects: assumed not to happen.
- Labels other than the one that selects webhooks, and the webhook's rules, side effects and timeouts.
- Times of condition transitions, condition messages, and the conditions of the PolicyServer object.
- CertController.ReconcilePolicyServerCertSecret: does not keep an entry that is there but empty, as the code does; an empty
  entry counts as missing.
