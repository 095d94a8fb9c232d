# A verified model of the oidc-apps controller

oidc-apps puts an authentication proxy (oauth2-proxy) and an authorization proxy
(kube-rbac-proxy) beside the containers of the workloads it is configured for. This project
models the parts of it whose correctness is a matter of state that changes over time, and
proves what they are meant to keep. Every `.dfy` file is one or two modules; `dafny verify
dfyconfig.toml` checks them all.

## What is modelled

**Webhook certificates.** `Bundles` has CA bundles as lists of decoded blocks, the two edits
(publish, clean up) on one bundle and on a whole webhook configuration, and sync passes.
`CertProtocol` has any number of replicas, each with its own CA and TLS certificate, that
rotate them on tickers and publish their CAs into one shared, versioned configuration by
reading a version, editing it and writing it back with a version check. Reads may be stale,
steps of different replicas interleave freely, replicas start, stop and crash, and somebody
else may overwrite the bundles. Time is an integer; dates are cut to seconds as section
4.1.2.5 of RFC 5280 has them, and serial numbers identify certificates as in section 4.1.2.2.
`CertManager` has the loops of one replica, proved against the functions the protocol uses;
every tick is proved to be a run of steps of a replica of the protocol.
Assumptions: signing succeeds, ticks come at most ten minutes apart, serial numbers are
distinct, handlers of one replica do not interleave, and replicas start without certificates
on disk.

**Pod admission.** `Configuration` resolves the configuration of a workload, `SidecarPlan`
says what it decides about an admission, `PodMutation` is the admission as a function, and
`PodWebhook` the code that edits the pod in place. A nil dereference in the volume scan is an
outcome of its own. `PodAdmission` proves when a second admission changes nothing.
`RedirectArgs` is the loop that deletes from an argument slice while ranging over its old view.
`Hosts` has the names and hosts that the webhook and the reconcilers compute separately.

**Owned resources.** `OwnedResources` has a dependency reconcile as a list of writes that an
error or a nil dereference cuts short, `OwnedRuns` runs of such passes and of prunings under
changing configurations and what the sidecars can mount afterwards, `OwnedReconciler` the code,
any of whose calls to the API server may fail.

**Registry secret.** `Registry` has the source secret with its finalizer, the labelled copies
and the workloads as a state machine whose steps are whole reconciles, API failures included,
and whatever users do in between; `RegistryReconcilers` has the code. A run is careful when the
source is not deleted before its first image pull reconcile and nobody else puts a finalizer
on it. `StepOrphans` says of every run exactly which steps leave a copy without a source, the
lemmas ending in `Leaks` when copies are left behind otherwise.

**Watcher and renderer.** `Watcher` interleaves the monitor, the signal handler and the child's
own death in small steps under the lock; `WatcherProcess` has the code. `HashCalc` is the hash
of the watched directory. `OAuth2Config` renders the proxy configuration and reads it back.

Digests are functions handed in as parameters: SHA-256 in hexadecimal, of which names use the
first six characters. `GoStrings` has the string and number functions of Go that are needed.

## Where the code differs from what one might expect

* An existing sidecar volume that is not projected is left as it is, and a source that is
  already there is not replaced: both edits go to a copy (pkg/webhook/modifiers.go:143-212).
* Admission is not idempotent for a target port that only a sidecar declares, or that an old
  sidecar shadows (`NotAlwaysIdempotent`, `ShadowedPort`, and in general `TargetIdempotent`).
* Of two `--redirect-url` extra arguments side by side the second one survives (`DeletesAll`).
* Without a dot in the host, the redirect host and the route's host name differ (`HostsAgree`).
* A sync pass publishes for unmanaged webhooks, too, and never settles while one of them lacks
  the CA (`QuietPass`, `NeverSettles`).
* The checksum annotation of a pod is not that of its secret when a client secret reference is
  configured (`ChecksumAgrees`), and an owner with a suffix annotation of its own mounts secrets
  that nobody writes (`MountsComplete`).
* A Deployment target without a label selector panics after the oauth2 secret has been written,
  and so does any target, later on, when a selected autoscaler has no resource policy
  (`DeploymentDone`, `StatefulSetDone`).
* Pruning leaves the other secrets of a workload that is no longer a target behind, and all that
  belongs to the pods of a StatefulSet (`PruningLeaves`, `StatefulSetPruningLeaves`).
* A Deployment and a StatefulSet of one name and namespace write one and the same secret, and the
  last to be reconciled decides on its configuration (`NamesakesShare`, in general `SharedConfig`).
* The cleanup of the registry secret deletes a secret of the same name that the controller did not
  make (`CleanupTakesOther`); targets deleted together, or removed outright, leave the copy
  (`LastTargetsLeak`, `RemovedOutright`, in general `CopyOutlives`).
* A signal before the child's first start does not prevent it (`EarlySignal`).

## Model

| member | source | states |
|---|---|---|
| `Bundles.PemDecode` | pkg/certificates/manager.go:332-338 | decoding skips text before a block, shortens its input, and gives the input back exactly when no block is left |
| `Bundles.CertsOfEncode` | pkg/certificates/manager.go:366-374 | what is written for a list of certificates decodes to the same list and always parses |
| `Bundles.ApplyMember` | pkg/certificates/manager.go:352-364 | exactly which certificates an edit leaves: a publication the unexpired ones and the own CA, a cleanup the ones with other serials |
| `Bundles.FoundIsMembership` | pkg/certificates/manager.go:507-532 | on a bundle that parses, the search is membership by serial number |
| `Bundles.EditEntriesAt` | pkg/certificates/manager.go:219-233 | what the edit of a whole configuration makes of each webhook, with the stop at the first bundle that does not parse |
| `Bundles.EditEntriesFrame` | pkg/certificates/manager.go:411-427 | an edit keeps managed bundles parsable and leaves webhooks it does not manage alone |
| `Bundles.EditKeeps` | pkg/certificates/manager.go:219-233 | a certificate in every managed bundle survives every edit that has no reason to drop it, parsable bundles or not |
| `Bundles.PublishPuts` | pkg/certificates/manager.go:363-364 | a publication puts the CA into every managed bundle |
| `Bundles.EditAddsOnly` | pkg/certificates/manager.go:352-364 | an edit brings in no certificate but the published CA |
| `Bundles.CleanupAfterPublications` | pkg/certificates/manager.go:429-471 | a cleanup after any series of publications leaves, in order, the original certificates and the CAs published under other serials, less what had expired at the last publication |
| `Bundles.CleanupUndoesUpdates` | pkg/certificates/manager.go:324-387 | a cleanup after k publications of one CA leaves exactly the foreign unexpired certificates, duplicates of the CA notwithstanding |
| `Bundles.SyncPassPuts` | pkg/certificates/manager.go:473-505 | after a sync pass the CA is in every managed bundle |
| `Bundles.Repair` | pkg/certificates/manager.go:488-498 | after any parsable overwrite, one undisturbed pass of each live replica, in any order, puts every live CA back into every managed webhook |
| `Bundles.NeverSettles` | pkg/certificates/manager.go:488-498 | a webhook that is not managed and lacks the CA lacks it after any number of passes, so no pass is ever quiet |
| `Bundles.QuietPass` | pkg/certificates/manager.go:488-498 | a pass writes nothing if and only if every webhook, the unmanaged ones included, holds the CA; otherwise every managed bundle grows by the number of webhooks that lack it |
| `Rotation.NewCaSpan` | pkg/certificates/generate.go:52-64 | encoded CA validity spans exactly 168 hours although dates are cut to seconds |
| `Rotation.Successor` | pkg/certificates/manager.go:289-302 | a CA that replaces a due one begins at least 158 hours after it |
| `CertProtocol.CaTickInv` | pkg/certificates/manager.go:291-306 | swapping the CA keeps spacing, margins and the signer that is still in use |
| `CertProtocol.WriterInv` | pkg/certificates/manager.go:211-239 | after a successful write the own CA is in every managed bundle of the new version, and the signer still is |
| `CertProtocol.OtherInv` | pkg/certificates/manager.go:211-239 | the write of one replica keeps CA and signer of every other one in every managed bundle |
| `CertProtocol.StepInv` | pkg/certificates/manager.go:278-322 | every step of every replica, crash, stale read and conflict included, keeps the protocol invariant |
| `CertProtocol.RunInv` | pkg/certificates/manager.go:132-160 | so does every run of any number of replicas, however their steps interleave |
| `CertProtocol.NoTrustGap` | pkg/certificates/manager.go:299-315 | at every instant of every run, inside handlers too, a serving replica's TLS certificate verifies against every managed bundle unless its signer's publication failed or was overwritten since |
| `CertProtocol.Margins` | pkg/certificates/manager.go:26-32 | at every instant the CA has more than 9h50m left, the TLS certificate more than 50min, and between handlers the current CA has issued it |
| `CertProtocol.Boots` | pkg/certificates/manager.go:96-121 | a replica can always boot: four undisturbed steps make it serve with its CA published |
| `CertProtocol.TrustAfterRotation` | pkg/certificates/manager.go:308-315 | after a rotation has signed, the new TLS certificate is trusted if and only if the new CA reached every managed bundle |
| `CertProtocol.AlwaysTrusted` | pkg/certificates/manager.go:278-322 | in runs in which no rotation of this replica gives up and nobody overwrites, it is trusted at every instant at which it serves, whatever fails at the others |
| `CertProtocol.PublishedStays` | pkg/certificates/manager.go:352-364 | a certificate in every managed bundle stays there until it expires or its serial is cleaned up |
| `CertProtocol.OnlyOwnCleanup` | pkg/certificates/manager.go:451-454 | the cleanups of other replicas never drop a serial that is not theirs |
| `CertProtocol.PublishedCaStays` | pkg/certificates/manager.go:128-130 | a published CA stays in every managed bundle until it expires or its own replica shuts down, whatever other replicas do |
| `CertProtocol.RepairInterleaved` | pkg/certificates/manager.go:473-505 | after any overwrite, at the end of every run the CA of each live replica is in every managed bundle if one of its sync ticks read a version no older than the overwritten one and found nothing missing, or one of its publications of that CA went through, whatever steps lie before, between and after |
| `CertProtocol.AtMostTwoValid` | pkg/certificates/manager.go:291-306 | successive CAs of a replica begin at least 158h apart and at most two are unexpired at any time |
| `CertProtocol.AtMostTwoPublished` | pkg/certificates/manager.go:352-364 | right after a publication every managed bundle holds at most two distinct CAs of each replica, however long the run |
| `CertManager.CaBundleFound` | pkg/certificates/manager.go:507-532 | the search loop over the shrinking bundle, against the recursive search |
| `CertManager.EncodeAll` | pkg/certificates/manager.go:366-382 | the loop that appends encoded blocks |
| `CertManager.Manager.DropExpired` | pkg/certificates/manager.go:352-362 | the loop that skips expired certificates |
| `CertManager.Manager.UpdateCABundles` | pkg/certificates/manager.go:324-387 | fails exactly on bundles that do not parse, otherwise the unexpired certificates in order and the own CA last |
| `CertManager.Manager.RemoveCABundle` | pkg/certificates/manager.go:429-471 | fails exactly on bundles that do not parse, otherwise everything but the own serial, which is not found in the result |
| `CertManager.Manager.EditWebhooks` | pkg/certificates/manager.go:219-233 | the in-place loop over the webhooks with its early break |
| `CertManager.Manager.Attempt` | pkg/certificates/manager.go:214-238 | read, edit at an instant of its own, version-checked write: the steps of a replica of the protocol, conflict and failure included |
| `CertManager.Manager.WriteBack` | pkg/certificates/manager.go:211-239 | the attempts, again after a conflict, five at most: on success the newest version is the edit, at the instant of the last attempt, of the one it replaced, and this replica made no other write; meanwhile a replica of the protocol takes the steps that commit or abandon its task |
| `CertManager.Manager.RotateTLSTick` | pkg/certificates/manager.go:254-269 | one tick of the TLS loop is that step of the protocol; a valid certificate stays valid |
| `CertManager.Manager.RotateCATick` | pkg/certificates/manager.go:291-315 | one tick of the CA loop: swap, publish at a later instant, sign at one later still: a run of the protocol that ends in a replica with the fields of the manager; the new CA is in every managed bundle of the newest version if it was published, and issues the TLS certificate either way |
| `CertManager.Manager.SyncOne` | pkg/certificates/manager.go:491-493 | one publication of a sync pass, whose failure lets the pass go on |
| `CertManager.Manager.SyncTick` | pkg/certificates/manager.go:482-498 | one publication is tried for each webhook of the version read that lacks the CA, none if none does; if one went through, some version that came after the tick began has the CA in every managed bundle; the tick is a run of the protocol |
| `CertManager.CommitWrites` | pkg/certificates/manager.go:211-239 | a successful write of the protocol appends what WriteBack appends for a manager with the same fields |
| `OAuth2Config.ReplaceValue` | pkg/configuration/oauth2-proxy-template.go:52-81 | the switch over the known keys |
| `OAuth2Config.Parse` | pkg/configuration/oauth2-proxy-template.go:37-92 | the loop over scanned lines renders every template as specified |
| `OAuth2Config.AssignmentReads` | pkg/configuration/oauth2-proxy-template.go:54-56 | a written assignment reads back as its key and exactly its value, equals signs and quotes inside it included |
| `OAuth2Config.ReadBack` | pkg/configuration/oauth2-proxy-template.go:37-92 | for every template, a known key reads back if and only if the template mentions it and the options do not switch it off, and then as exactly its value |
| `OAuth2Config.RenderTwice` | pkg/configuration/oauth2-proxy-template.go:37-92 | rendering the output again with the same options changes nothing |
| `OAuth2Config.TemplateReadBack` | pkg/configuration/oauth2-proxy-template.go:37-92 | both for every template of comments and aligned assignments |
| `OAuth2Config.ShippedReadBack` | pkg/configuration/oauth2-proxy-template.go:13-14 | both for the shipped template and every known key |
| `OAuth2Config.OneClientSecret` | pkg/configuration/oauth2-proxy-template.go:57-69 | exactly one of client_secret and client_secret_file is in the shipped configuration, the first if and only if a client secret is configured |
| `Configuration.CallbackTrims` | pkg/configuration/oauth2.go:124-135 | cutting scheme and path off the default redirect URL gives the host back, whatever it consists of |
| `RedirectArgs.DeletesAll` | pkg/webhook/pod-webhook.go:161-166 | the deletion loop removes all --redirect-url arguments if and only if no two of them stand side by side |
| `RedirectArgs.OthersOfSurvivors` | pkg/webhook/pod-webhook.go:161-166 | in any case every other argument stays, in order |
| `RedirectArgs.OneRedirect` | pkg/webhook/pod-webhook.go:161-170 | with the new argument appended it is the only one, last, under the same condition |
| `RedirectArgs.DeleteAt` | pkg/webhook/pod-webhook.go:164 | slices.Delete on the shared backing array, with the cleared tail |
| `RedirectArgs.DeleteRedirects` | pkg/webhook/pod-webhook.go:162-166 | the loop that ranges over the old slice while deleting never leaves its bounds |
| `PodMutation.AddSourceSettles` | pkg/webhook/modifiers.go:143-212 | adding a secret source a second time changes nothing |
| `PodMutation.AddSourceKeepsSettled` | pkg/webhook/modifiers.go:143-212 | adding another one, to the same volume or not, does not change that |
| `PodMutation.VolumesTwice` | pkg/webhook/pod-webhook.go:75-123 | a pod that did not make admission panic does not the second time, and its volumes stay |
| `PodMutation.NoPanic` | pkg/webhook/modifiers.go:189-200 | sidecar volumes with secret sources only never make admission panic |
| `PodMutation.SecretCarried` | pkg/webhook/modifiers.go:143-212 | a secret ends up in the volume of its name if and only if the pod did not come with a volume of that name and another kind |
| `PodMutation.OtherVolumesKept` | pkg/webhook/modifiers.go:143-212 | all other volumes keep content and order |
| `PodMutation.AddProxyMoves` | pkg/webhook/modifiers.go:214-225 | replacing a sidecar that occurs at most once takes it out and puts it last, the rest in order |
| `PodMutation.SidecarsLast` | pkg/webhook/pod-webhook.go:125-129 | the other containers in order, then the two sidecars |
| `PodMutation.RequestsKept` | pkg/webhook/modifiers.go:398-415 | a rebuilt sidecar gets the resource requests it was given before, default or more than 100Mi |
| `PodAdmission.UpstreamAgain` | pkg/webhook/modifiers.go:265-294 | the upstream URL is the same after admission if and only if the port is stable |
| `PodAdmission.AdmissionIdempotent` | pkg/webhook/pod-webhook.go:34-177 | a second admission never panics, and it changes nothing if and only if the upstream port is stable |
| `PodAdmission.OrdinaryPortStable` | pkg/webhook/modifiers.go:279-293 | numbers are stable, and names that are neither of the sidecars' own nor declared by a sidecar already there |
| `PodAdmission.NotAlwaysIdempotent` | pkg/webhook/modifiers.go:284-293 | a target port named after a sidecar's own, on any pod that does not declare it, makes the second admission differ |
| `PodAdmission.NewPodStable` | pkg/webhook/modifiers.go:284-293 | for pods that come without sidecars a port is unstable if and only if it is a sidecar's own and the pod does not declare it |
| `PodAdmission.ShadowedPort` | pkg/webhook/modifiers.go:284-293 | when an old sidecar is the first to declare the port, admission is idempotent if and only if the other containers declare the same number first |
| `PodAdmission.ShadowingSidecar` | pkg/webhook/modifiers.go:284-293 | such a pod: an old sidecar that declares the application's port name with another number |
| `PodAdmission.AdmissionFrame` | pkg/webhook/pod-webhook.go:34-177 | all containers but the sidecars and all volumes but theirs keep content and order, each sidecar occurs exactly once |
| `PodAdmission.MetadataFrame` | pkg/webhook/modifiers.go:40-53 | a suffix annotation that is there stays, and so do all annotations and labels that are not written |
| `PodAdmission.OneRedirectURL` | pkg/webhook/pod-webhook.go:157-173 | the sidecar of a StatefulSet pod has one redirect URL, last, if and only if its rendered arguments hold no two side by side |
| `SidecarPlan.UpstreamReadsBack` | pkg/configuration/general.go:34-52 | the protocol and port tuple reads back, whatever characters the port name consists of |
| `SidecarPlan.NeighboursAreExtra` | pkg/webhook/modifiers.go:457-469 | two redirect arguments side by side can only come from the valid extra arguments |
| `PodWebhook.GetOAuth2Args` | pkg/webhook/modifiers.go:424-469 | the loop that appends the extra arguments of the expected form and skips the others |
| `PodWebhook.Pod.AddProjectedSecretSourceVolume` | pkg/webhook/modifiers.go:143-212 | the two scanning loops, the panic included |
| `PodWebhook.Pod.AddSecrets` | pkg/webhook/pod-webhook.go:75-123 | all secret sources in turn, ended by a panic, add what the configuration asks for |
| `PodWebhook.Pod.AddOAuth2Secrets` | pkg/webhook/pod-webhook.go:75-98 | the oauth2-proxy volume gets its own, the CA and the client secret, each under its guard |
| `PodWebhook.Pod.AddKubeRbacSecrets` | pkg/webhook/pod-webhook.go:100-123 | the kube-rbac-proxy volume gets the resource attributes, the kubeconfig and the CA, each under its guard |
| `PodWebhook.Pod.AddProxyContainer` | pkg/webhook/modifiers.go:214-225 | the search loop, the deletion and the append |
| `PodWebhook.Pod.AddImagePullSecret` | pkg/webhook/modifiers.go:116-141 | the pull secret is there afterwards and was appended only if it was missing |
| `PodWebhook.Pod.BuildUpstreamURL` | pkg/webhook/modifiers.go:265-294 | the nested loops over containers and ports find the first port of the name |
| `PodWebhook.Pod.GetSidecarRequests` | pkg/webhook/modifiers.go:405-415 | the loop over the containers keeps the last large request |
| `PodWebhook.Pod.GetTokenMounts` | pkg/webhook/modifiers.go:311-327 | one mount for each volume with a service account token |
| `PodWebhook.Pod.GetOIDCProxyContainer` | pkg/webhook/modifiers.go:383-472 | the oauth2-proxy sidecar for the pod as it is |
| `PodWebhook.Pod.GetKubeRbacProxyContainer` | pkg/webhook/modifiers.go:296-381 | the kube-rbac-proxy sidecar for the pod as it is |
| `PodWebhook.Pod.AddSidecars` | pkg/webhook/pod-webhook.go:125-129 | both sidecars, the second one built after the first was put in |
| `PodWebhook.Pod.SetRedirectURL` | pkg/webhook/pod-webhook.go:142-174 | the redirect URL of a StatefulSet pod, by editing the argument slice in place |
| `PodWebhook.Pod.Mutate` | pkg/webhook/pod-webhook.go:52-176 | every field of the pod after the edits in their order |
| `PodWebhook.Pod.Default` | pkg/webhook/pod-webhook.go:34-177 | the in-place mutation ends in exactly the admitted pod, or in the panic, and leaves other pods alone |
| `PodWebhook.TargetIdempotent` | pkg/webhook/pod-webhook.go:34-177 | for every configuration and owner, admitting an admitted pod changes nothing if and only if the configured target port is stable |
| `PodWebhook.TargetFrame` | pkg/webhook/pod-webhook.go:34-177 | for every configuration, everything but the sidecars and their volumes keeps content and order |
| `PodWebhook.TargetRedirect` | pkg/webhook/pod-webhook.go:142-174 | for every configuration, a single redirect URL with the pod's own host if and only if no two valid extra arguments side by side set one |
| `PodWebhook.TargetMounts` | pkg/webhook/pod-webhook.go:75-129 | every secret of the configuration is in the volume its sidecar mounts, unless the pod came with another kind of volume of that name |
| `PodWebhook.TargetUpstream` | pkg/webhook/modifiers.go:265-294 | numeric target ports go into the URL as they are, names become the first port that declares them or no URL |
| `PodWebhook.TargetServed` | pkg/webhook/pod-webhook.go:142-170 | for every StatefulSet pod whose target sets no redirect URL, the redirect URL in the admitted arguments names the host that the reconciler computes for the pod's route if and only if the configured host contains a dot |
| `GoStrings.ParseOfItoa` | pkg/controllers/modifiers.go:390-393 | canonical decimals below 2^31 parse to themselves, larger ones are refused |
| `Hosts.HostsAgree` | pkg/webhook/pod-webhook.go:142-155 | the host in a StatefulSet pod's default redirect URL is the one its route serves if and only if the host contains a dot |
| `Hosts.AnnotationIsHost` | pkg/webhook/pod-webhook.go:61-66 | admission writes the host that the route starts from |
| `Hosts.BackendIsService` | pkg/controllers/oidc-apps-httproutes.go:29-58 | a Deployment route's backend is the Deployment's Service if and only if its labels give no index |
| `Hosts.StrIndexOf` | pkg/controllers/oidc-apps-services.go:43-52 | the ordinal is what follows the last dash of the pod name, whatever precedes it |
| `Hosts.OptionalIndexOf` | pkg/controllers/modifiers.go:380-396 | ordinals below 2^31 go into names, larger ones are dropped |
| `Hosts.OrdinalsApart` | pkg/controllers/oidc-apps-services.go:17-25 | two ordinals share a Service or route name if and only if both are 2^31 or more and the name hashes collide |
| `Hosts.HostsApart` | pkg/webhook/pod-webhook.go:151-155 | different ordinals get different redirect hosts if and only if the host contains a dot |
| `OwnedResources.WriteSettles` | pkg/controllers/modifiers.go:26-47 | repeating a write changes nothing, the owner references included |
| `OwnedResources.PassTwice` | pkg/controllers/modifiers.go:137-211 | a pass over distinct objects leaves nothing to do for a second pass |
| `OwnedResources.DeploymentDistinct` | pkg/controllers/modifiers.go:137-211 | a Deployment's pass writes no object twice |
| `OwnedResources.StatefulSetDistinct` | pkg/controllers/modifiers.go:248-348 | nor does a StatefulSet's, if its pods do not share names |
| `OwnedRuns.PassAgain` | pkg/controllers/modifiers.go:26-47 | a second pass, with its own random string, changes nothing if and only if the first has left a cookie or randomness fails again |
| `OwnedRuns.DeploymentAgain` | pkg/controllers/modifiers.go:137-211 | the same for every Deployment, configuration and store, passes that fail or panic included |
| `OwnedRuns.StatefulSetAgain` | pkg/controllers/modifiers.go:248-348 | the same for every StatefulSet whose pods do not share names |
| `OwnedRuns.OrdinalsAreApart` | pkg/controllers/oidc-apps-services.go:17-25 | pods with different ordinals below 2^31 do not share names, whatever their hashes |
| `OwnedRuns.CookieKept` | pkg/controllers/oidc-apps-secrets.go:56-72 | over every run of passes and prunings of any workloads under changing configurations, with the API failing anywhere, the first non-empty cookie is never replaced while its secret is not pruned |
| `OwnedRuns.CookieAfterPruning` | pkg/controllers/owned.go:30-46 | a pass after a pruning keeps the cookie if and only if the pruning did not take the secret |
| `OwnedRuns.PruningLeaves` | pkg/controllers/modifiers.go:103-129 | of the objects a Deployment's pass has written, pruning takes the oauth2 secret, the Service and, unless configured labels hide it, the route; the other secrets stay |
| `OwnedRuns.StatefulSetPruningLeaves` | pkg/controllers/owned.go:30-75 | of those of a StatefulSet's pass it takes the oauth2 secret alone: the Services and routes belong to the pods and stay, unless the StatefulSet owned them before |
| `OwnedRuns.ConfigFollows` | pkg/controllers/oidc-apps-secrets.go:29-75 | over every run of passes and prunings of any workloads the configuration under a key is that of the latest pass that wrote the key; the secret is there if and only if no pruning has taken it since, and without such a pass it is the one from before the run |
| `OwnedRuns.SharedKey` | pkg/controllers/oidc-apps-secrets.go:20-27 | two workloads write one secret if and only if their namespaces and name hashes agree, whatever their kinds |
| `OwnedRuns.SharedConfig` | pkg/controllers/oidc-apps-secrets.go:20-75 | after passes of two workloads the secret of the first one holds its own configuration if and only if it is not shared or both configurations are the same |
| `OwnedRuns.NamesakesShare` | pkg/controllers/oidc-apps-secrets.go:20-27 | such a pair: a Deployment and a StatefulSet of one name and namespace, after any run |
| `OwnedRuns.DeploymentDone` | pkg/controllers/modifiers.go:154-188 | a Deployment's pass gets to its end if and only if the target has a label selector, its kubeconfig can be read and, where autoscalers are registered, every selected one has a resource policy |
| `OwnedRuns.StatefulSetDone` | pkg/controllers/modifiers.go:248-348 | a StatefulSet's pass does if and only if its kubeconfig can be read and, where autoscalers are registered, the target has a label selector and every selected one a resource policy |
| `OwnedRuns.MountsComplete` | pkg/webhook/modifiers.go:227-263 | every secret in the sidecar volumes is written by the owner's pass or named in the configuration if and only if the owner's suffix is the hash of its name |
| `OwnedRuns.DeploymentProvides` | pkg/controllers/modifiers.go:137-211 | after a Deployment's pass that gets to its end those secrets are there |
| `OwnedRuns.StatefulSetProvides` | pkg/controllers/modifiers.go:248-348 | after a StatefulSet's pass that gets to its end those secrets are there |
| `OwnedRuns.ClientSecretMounted` | pkg/controllers/oidc-apps-secrets.go:43-50 | the configuration reads the client secret from the mounted file if and only if a reference is configured, and the referenced secret is then in the volume mounted there |
| `OwnedRuns.ChecksumAgrees` | pkg/webhook/modifiers.go:55-84 | the configuration whose checksum the webhook writes is the one in the secret if and only if no client secret reference is configured |
| `OwnedReconciler.CarriedIsPass` | pkg/controllers/modifiers.go:26-47 | whichever call fails, what the code leaves is a pass of the runs, cut short there |
| `OwnedReconciler.Cluster.ReconcileOwnedResource` | pkg/controllers/modifiers.go:26-47 | create, update or leave alone come to the same store; a failing call leaves it as it was |
| `OwnedReconciler.Cluster.ReconcileOAuth2Secret` | pkg/controllers/oidc-apps-secrets.go:29-75 | the first step of every pass, or an error and nothing |
| `OwnedReconciler.Cluster.ReconcileSecrets` | pkg/controllers/modifiers.go:166-200 | the three further secrets, ended by an unreadable kubeconfig or a failing call |
| `OwnedReconciler.Cluster.ReconcileRoute` | pkg/controllers/modifiers.go:213-228 | a route if the target asks for one, or an error |
| `OwnedReconciler.Cluster.ReconcileService` | pkg/controllers/modifiers.go:154-164 | the Service, or the panic on a missing label selector |
| `OwnedReconciler.Cluster.PatchVpa` | pkg/controllers/modifiers.go:350-378 | the loops over autoscalers and policies write nothing and panic exactly where something is missing, unless a call fails before |
| `OwnedReconciler.Cluster.ReconcileDeploymentDependencies` | pkg/controllers/modifiers.go:137-211 | the sequenced calls with their early returns carry out the pass, outcome included, or its first steps and then fail |
| `OwnedReconciler.Cluster.ReconcileStatefulSetDependencies` | pkg/controllers/modifiers.go:248-348 | the same for StatefulSets |
| `OwnedReconciler.Cluster.ReconcilePods` | pkg/controllers/modifiers.go:273-305 | the loop over the listed pods, ended by the first failing call |
| `OwnedReconciler.Cluster.ReconcilePod` | pkg/controllers/modifiers.go:276-304 | Service and route of one admitted pod, nothing for others |
| `Registry.ImagePullKeeps` | pkg/controllers/image-pull-secret-reconciler.go:32-110 | an image pull reconcile, failing anywhere, keeps the invariant; dropping the finalizer leaves no copy behind |
| `Registry.ReconciledKeeps` | pkg/controllers/deployment-reconciler.go:29-101 | so does every reconcile of a Deployment or StatefulSet |
| `Registry.NoOrphans` | pkg/controllers/image-pull-secret-reconciler.go:46-68 | in every careful run a missing source means no labelled copy outside its namespace, and every copy holds a config the source once held |
| `Registry.DeleteSourceOrphans` | pkg/controllers/image-pull-secret-reconciler.go:44-49 | deleting the source leaves no orphan if and only if the finalizer is on it or there is no copy |
| `Registry.DropForeignOrphans` | pkg/controllers/image-pull-secret-reconciler.go:46-62 | taking off the last finalizer of somebody else leaves no orphan if and only if the source is not marked, still held by the controller, or has no copy |
| `Registry.StepOrphans` | pkg/controllers/image-pull-secret-reconciler.go:46-68 | of all steps, careful or not, exactly those two leave an orphan, and only when a copy is there |
| `Registry.OrphansComeFrom` | pkg/controllers/image-pull-secret-reconciler.go:46-68 | over every run, careful or not, there is no orphan unless such a step was taken |
| `Registry.ImagePullSyncs` | pkg/controllers/image-pull-secret-reconciler.go:70-109 | after an image pull reconcile all copies equal the source if and only if all their updates took effect; the finalizer is on |
| `Registry.SyncedStays` | pkg/controllers/registry-secret.go:25-62 | until the source changes nothing brings a copy out of step again |
| `Registry.CopiesFollow` | pkg/controllers/image-pull-secret-reconciler.go:70-109 | over every careful run, from a reconcile that reached every copy each copy equals the source for as long as the source is there and unchanged |
| `Registry.CopyStaysThroughout` | pkg/controllers/registry-secret.go:68-132 | over every careful run, a copy stays while a matched target stays in its namespace and the source is not marked |
| `Registry.TargetHasCopy` | pkg/controllers/registry-secret.go:25-62 | over every careful run, once a target with injected pods has been reconciled its namespace has the copy for as long as the target stays and the source is not marked |
| `Registry.CopyStays` | pkg/controllers/registry-secret.go:97-132 | no workload reconcile touches the copy of a namespace in which a matched target stays |
| `Registry.CopyGoes` | pkg/controllers/registry-secret.go:68-93 | the secret of the configured name goes if and only if the reconciled workload is the last to leave and no finalizer holds it; a held one is marked, any other stays as it is |
| `Registry.HomeStays` | pkg/controllers/image-pull-secret-reconciler.go:136-139 | the reconcilers delete nothing in the controller's namespace but the marked source itself |
| `Registry.ForeignFinalizerLeaks` | pkg/controllers/image-pull-secret-reconciler.go:46-62 | a run that leaves an orphan: a finalizer of somebody else outlives the controller's, and a copy is made in between |
| `Registry.LastTargetsLeak` | pkg/controllers/registry-secret.go:97-132 | when two workloads leave one after the other the secret stays if and only if each finds a match besides itself; with no third one, if and only if both match |
| `Registry.CopyOutlives` | pkg/controllers/registry-secret.go:68-93 | over every run in which the source is not marked and nobody else touches it, the secret of a namespace stays throughout if and only if no workload was reconciled as the last to leave; that all have gone is not enough |
| `Registry.RemovedOutright` | pkg/controllers/deployment-reconciler.go:37-42 | so it stays in a namespace whose workloads were removed outright, without a reconcile that saw them leave |
| `Registry.CleanupTakesOther` | pkg/controllers/registry-secret.go:85-88 | a secret of that name that the controller did not make is deleted if and only if the reconciled workload is the last to leave |
| `Registry.SplitEnsureLeaks` | pkg/controllers/registry-secret.go:43-57 | a copy created from a source read before an image pull reconcile is an orphan if and only if the source was marked and held by the controller's finalizer alone |
| `RegistryReconcilers.Controller.ImagePullReconcile` | pkg/controllers/image-pull-secret-reconciler.go:32-110 | the reconcile with any call failing does one image pull step |
| `RegistryReconcilers.Controller.Rotate` | pkg/controllers/image-pull-secret-reconciler.go:88-107 | the update loop in any order, failures skipped |
| `RegistryReconcilers.Controller.DeletePropagatedSecrets` | pkg/controllers/image-pull-secret-reconciler.go:114-151 | the deletion loop: all copies and nothing in the source's namespace, or some of them and an error |
| `RegistryReconcilers.Controller.EnsureRegistrySecret` | pkg/controllers/registry-secret.go:25-62 | the early returns of the propagation |
| `RegistryReconcilers.Controller.HasMatchedTargetInNamespace` | pkg/controllers/registry-secret.go:97-132 | true if and only if another matched workload of either kind is in the namespace |
| `RegistryReconcilers.Controller.MatchedOfKind` | pkg/controllers/registry-secret.go:104-113 | the reading loop over one kind |
| `RegistryReconcilers.Controller.CleanupRegistrySecretIfLastTarget` | pkg/controllers/registry-secret.go:68-93 | the cleanup with its early returns |
| `RegistryReconcilers.Controller.Reconcile` | pkg/controllers/deployment-reconciler.go:29-101 | the branches of a workload reconcile do one workload step |
| `Watcher.RunInv` | cmd/watcher/main.go:125-165 | the invariant of child, lock, monitor and handler holds in every interleaving |
| `Watcher.AtMostOneAlive` | cmd/watcher/main.go:148-165 | in every interleaving at most one child is alive |
| `Watcher.HandlerEnds` | cmd/watcher/main.go:94-110 | when the handler's Stop comes back, restarts are over if and only if its child was started and is reaped, which it is unless it was never started or its kill was refused |
| `Watcher.StoppedStays` | cmd/watcher/main.go:125-165 | one further step starts nothing and leaves nothing alive |
| `Watcher.NoRestart` | cmd/watcher/main.go:125-165 | over every run, once the handler has reaped a started child no hash change starts another and none is alive |
| `Watcher.EarlySignal` | cmd/watcher/main.go:73-84 | a signal before the first start is the exception: a run in which the child outlives the watcher |
| `WatcherProcess.StopRuns` | pkg/watcher/process/process.go:49-88 | whatever the small steps of a Stop and the child do in whatever order, Waits left over from earlier Stops included, the outcome is one of the listed ones |
| `WatcherProcess.Process.Start` | pkg/watcher/process/process.go:38-46 | a process starts at most once |
| `WatcherProcess.Process.Stop` | pkg/watcher/process/process.go:49-88 | the code of Stop, with timeout, kill and a child that dies or is reaped in between, has such an outcome |
| `WatcherProcess.Supervisor.RestartProcess` | cmd/watcher/main.go:148-165 | of all processes there have been only the current one can be alive; a reaped one is not replaced |
| `WatcherProcess.Supervisor.MonitorHashChanges` | cmd/watcher/main.go:125-146 | without a changed hash nothing is touched, and a reaped process is never replaced |
| `HashCalc.SortSorts` | pkg/watcher/hashcalc/hashcalc.go:84 | sorting sorts and permutes |
| `HashCalc.SortedUnique` | pkg/watcher/hashcalc/hashcalc.go:84 | a multiset has one sorted sequence |
| `HashCalc.ConcatInjective` | pkg/watcher/hashcalc/hashcalc.go:86 | pieces of one length can be told apart in their concatenation |
| `HashCalc.CanonicalInput` | pkg/watcher/hashcalc/hashcalc.go:84-86 | the digest input is the same if and only if the multisets of hashes are |
| `HashCalc.OrderIrrelevant` | pkg/watcher/hashcalc/hashcalc.go:64-84 | the order in which the file hashes arrive does not matter |
| `HashCalc.SameInput` | pkg/watcher/hashcalc/hashcalc.go:53-89 | two directories give the same digest input if and only if the same file hashes occur in them equally often |
| `HashCalc.HashFiles` | pkg/watcher/hashcalc/hashcalc.go:64-75 | exactly the readable files are in the shared map |
| `HashCalc.GetTotalHash` | pkg/watcher/hashcalc/hashcalc.go:53-89 | the total is the one of any order whatsoever |

## Left out

- Cryptography, key generation, PEM and DER bytes, and certificates found on disk at start.
- CertManager.Manager.RotateCATick: the check, the key generation and the swap are one instant, and so is one edit of all webhooks; only the calls to the API server take time.
- Bundles.Repair: its passes are undisturbed; `CertProtocol.RepairInterleaved` has the interleaved form.
- Digit separators in numbers: `ParseInt32` does not accept underscores, which Go's base-0 parsing does.
- Scanner limits: template lines longer than 64 KiB, and templates with carriage returns in them.
- The owner lookup and the selector matching that decide whether a pod or workload is a target: their answer is a parameter.
- Pod and container fields that no modelled code reads; security contexts and pull policies of the sidecars are one constant.
- Parent references, gateways and the default path redirect of routes, the resource attributes template, and fields that the API server fills in.
- What the empty VPA patch sets off, and the VPA webhook.
- Aliasing between the configured annotation map and the one of a route.
- Stale caches of the registry and dependency reconciles: each call sees the current state.
- Finalizers that others put on the copies of the registry secret during a run (`Registry.CopyGoes` says what becomes of a held one), and copies that users label themselves.
- Wait delays, exit codes and signals other than the first of the watcher; file system errors are files without a hash.
- Logging, metrics, health checks, charts and flag parsing.
