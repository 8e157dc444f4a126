# heliop, verified

A Dafny model of heliop, the Kubernetes operator that runs Authelia. Two reconcilers share the state of
a cluster: one gives every OAuth client a secret and its PBKDF2 digest, the other compiles the clients,
the Ingress annotations and the Authelia resource into one configuration and rolls it out. The model
follows `internal/controller`, and its methods are proved against functions whose properties are proved
in turn.

`dafny verify dfyconfig.toml` checks everything.

## What is modelled

* **The two reconcilers as a concurrent system** (`Cluster`). A step is a user edit, one client
  reconcile, one API call of an Authelia reconcile, a failure at any such call, or something that
  happens to the work queue: dirty-while-processing, retries after a delay, a restart of the operator.
  List calls return the objects in any order. `ClusterInvariant` and `ClusterSteps` show that every step
  keeps one inductive invariant; `Convergence`, `ClusterSafety`, `AnyOrder` and `FixedPoint` say what
  follows for whole runs. Client Secrets enqueue nothing, so the heart of the invariant is that a digest
  once read stays the current one, and a digest not found makes the Authelia due again.
* **The reconcilers as code** (`Reconcilers`). The two Reconcile methods, call by call, on a mutable API
  server. Each does nothing but steps of the concurrent system, also when a call fails, and the Authelia
  reconcile ends in exactly the state that its outcome says.
* **The access-rule compiler** (`AccessRules`, `Ordering`, `FirstMatch`, `RuleMeaning`): from annotations
  to a sorted rule list, and what that list means under first-match evaluation for an arbitrary match
  predicate.
* **The renderer** (`Clients`, `Render`, `RenderHeap`): the nested maps on the heap, edited in place
  through the references childMap returns, refine pure path updates on a JSON tree.
* **Pod wiring and names** (`PodWiring`, `VolumeNames`, `CoreSecret`, `ClientSecret`, `Digest`):
  environment, mounts and volumes, following a path through them to a Secret key, the volume-name
  sanitiser, and the digest string.
* **End to end** (`EndToEnd`, `RuleMeaning`): the promises from what users write to what is in the
  cluster, in the plain names and values of both.

## What the proofs found

* Clients that share an ID and differ otherwise make the rendered order, hence the ConfigMap and the
  checksum, depend on list order and on an unstable sort; the reconcile then has no fixed point.
  `Clients.RenderingDeterminedIff` and `FixedPoint.PassIsFixedIff` give the exact condition,
  `Clients.SharedIDIsUndetermined` two such clients.
* A Secret that holds a digest without a secret keeps the stale digest beside a newly generated secret
  (`ClientSecret.StaleDigestSurvives`). Pairs stay paired exactly under the condition of
  `ClientSecret.ReconciledPairIff`; in every run that starts without stale digests they do
  (`ClusterSafety.SecretsAlwaysPaired`).
* Volume names can clash, which makes a pod that the API server rejects. `PodWiring.VolumesDistinctIff`
  says exactly when they do not. Two variables clash as `VolumeNames.VolumeNamesClashIff` says, for
  instance when they differ in case only (`VolumeNames.CaseClashes`); a variable clashes with one of the
  operator's own volumes as `VolumeNames.BuiltInClashIff` says, for instance
  `VolumeNames.LongNameClashesWithBuiltIn`. Plain file variables, of upper-case letters, digits and
  underscores, with at most 63 characters never clash.
* An entry of settings.secrets named like a core variable takes its place in the container
  (`PodWiring.FileVariableResolves`).
* When no client is rendered, clients that additionalConfig lists itself are in the configuration and not
  in the status. `Operator.StatusMatchesConfigIff` says exactly when the two agree.
* `api/v1alpha1/authelia_types.go:60-64` says an LDAP password is removed from additionalConfig. It is
  not: `Render.LdapPasswordKept`.

## What is assumed

* A client reconcile is one step; its own reads are not stale. The reads of an Authelia reconcile happen
  at their own steps, so they may be outdated by the time of its writes.
* An event reaches the queue at the step that causes it, for the old and for the new object, and the
  List calls inside the map functions succeed. Events of owned objects, and those of the Authelia's own
  status, are covered by an Enqueue step that is always possible.
* A client's Secret is deleted only while the client does not exist. Nobody else writes Secrets,
  ConfigMaps, Deployments or claims while the operator runs.
* The API server lets no slash into namespaces, names and hosts of Ingresses, and no empty Authelia name.
* `sort.Slice` is not stable: for clients any sorted permutation is possible. For rules the comparator
  separates all rules, which is proved, so that sorted permutation is unique.
* Hashing is a parameter: `Kdf` for PBKDF2 and `Checksum` for the checksum of a configuration. Random
  values are parameters too; a generator returns an error or some non-empty value.
* Strings are sequences of characters, compared by code point; `ByteLen` counts UTF-8 bytes where the
  operator counts bytes.
* In `Reconcilers` the Deployment and the status are computed before the first write, as they depend on
  nothing that is written.

## Model

| member | source | states |
|---|---|---|
| `Reconcilers.Reconcile` | internal/controller/authelia_controller.go:59-113 | for a queued Authelia on an API server with any objects, whichever calls fail: the server ends in exactly the state of a possible outcome, that state is reached by steps of the concurrent system, it requeues iff a digest was missing, and it completes when nothing fails |
| `Reconcilers.Read` | internal/controller/authelia_controller.go:65-78 | what is going to be written is what the concurrent system writes for the snapshot just read, the sort of the clients being some sorted permutation |
| `Reconcilers.Prepare` | internal/controller/authelia_controller.go:65-104 | configuration, Deployment, status and number of missing digests are those of the snapshot; an unreadable client Secret yields nothing |
| `Reconcilers.Finish` | internal/controller/authelia_controller.go:82-112 | the writing half leaves the server in the state of its outcome and completes when no call fails and the core Secret can be filled |
| `Reconcilers.WriteSnapshot` | internal/controller/authelia_controller.go:82-106 | after the first `made` writing calls the server shows the snapshot written up to that call and nothing else changed |
| `Reconcilers.WriteAll` | internal/controller/authelia_controller.go:82-106 | which objects the writing calls have changed when the first one fails: those before it, in order, and no later one |
| `Reconcilers.WriteFirst` | internal/controller/authelia_controller.go:82-90 | core Secret, ConfigMap and Service of this Authelia, in this order until one fails, and no other object |
| `Reconcilers.WriteRest` | internal/controller/authelia_controller.go:91-106 | claim, Deployment and status of this Authelia, in this order until one fails, and no other object |
| `Reconcilers.GivenUpShows` | internal/controller/authelia_controller.go:62-78 | a missing Authelia or a failed read leaves every object as it was |
| `Reconcilers.RenderCollected` | internal/controller/authelia_controller.go:80-83 | the rendering of collected rules and clients spells out the tree of the pure renderer, for some sorted permutation of the clients |
| `Reconcilers.ReportIDs` | internal/controller/authelia_controller.go:99-103 | the IDs reported are all client IDs, sorted |
| `Reconcilers.ApiServer.ReconcileCoreSecret` | internal/controller/authelia_controller.go:189-208 | a failed fill persists nothing although the Secret in memory has changed; a user-supplied Secret makes it a no-op |
| `Reconcilers.ApiServer.ReconcileDataPVC` | internal/controller/authelia_controller.go:213-226 | the claim is created once and never updated |
| `Reconcilers.ApiServer.ReconcileClient` | internal/controller/autheliaoauthclient_controller.go:48-107 | exactly which Secret and which status a client reconcile writes: nothing on a missing client or a failed generation, no status when its update fails |
| `Reconcilers.ClientStepWrites` | internal/controller/autheliaoauthclient_controller.go:48-107 | the step of the concurrent system writes the same Secret and status, and no other object |
| `Reconcilers.ReconcileAsStep` | internal/controller/autheliaoauthclient_controller.go:48-107 | the method leaves the server in the state that step leads to, also when a draw or the status update fails |
| `Reconcilers.ReconcileOAuthClient` | internal/controller/autheliaoauthclient_controller.go:48-107 | so a client reconcile does one step of the concurrent system and nothing else |
| `Reconcilers.SecretObject.MutateClientSecret` | internal/controller/autheliaoauthclient_controller.go:61-94 | editing the data in place, key by key, yields the filled data, or fails when a draw fails |
| `Reconcilers.SecretObject.Generate` | internal/controller/secrets.go:108-133 | filling the data in place, key by key, yields the filled data, or fails when a generator fails |
| `Reconcilers.Marshal` | internal/controller/render.go:145-149 | what is printed is the tree the nodes on the heap spell out |
| `Reconcilers.OutcomeObjects` | internal/controller/authelia_controller.go:59-113 | up to the work queue, an outcome leaves the objects of the calls made before it |
| `ClusterSteps.PutClientKeepsInv` | internal/controller/authelia_controller.go:334-349 | creating or editing a client keeps the invariant: whoever it affects is enqueued |
| `ClusterSteps.DeleteClientKeepsInv` | internal/controller/authelia_controller.go:334-349 | deleting a client keeps the invariant |
| `ClusterSteps.PutIngressKeepsInv` | internal/controller/authelia_controller.go:315-331 | creating or editing an Ingress keeps the invariant |
| `ClusterSteps.DeleteIngressKeepsInv` | internal/controller/authelia_controller.go:315-331 | deleting an Ingress keeps the invariant |
| `ClusterSteps.AutheliaEditKeepsInv` | internal/controller/authelia_controller.go:300-311 | creating, editing or deleting an Authelia keeps the invariant |
| `ClusterSteps.DropClientSecretKeepsInv` | internal/controller/authelia_controller.go:159-172 | deleting the Secret of a client that does not exist keeps the invariant |
| `ClusterSteps.DigestsKept` | internal/controller/autheliaoauthclient_controller.go:79-92 | a client reconcile never changes a digest that some confidential client has |
| `ClusterSteps.ReconcileClientKeepsInv` | internal/controller/autheliaoauthclient_controller.go:48-107 | a client reconcile keeps the invariant although its Secret enqueues nothing |
| `ClusterSteps.RestartKeepsInv` | internal/controller/authelia_controller.go:300-311 | a restart of the operator, which forgets runs and retries and enqueues every Authelia, keeps the invariant |
| `ClusterSteps.ListClientsKeepsInv` | internal/controller/authelia_controller.go:118-131 | listing the clients, in any order, keeps the invariant |
| `ClusterSteps.ReadDigestKeepsInv` | internal/controller/authelia_controller.go:139-153 | reading one digest keeps the invariant: a reading that was non-empty stays current |
| `ClusterSteps.ListIngressesKeepsInv` | internal/controller/authelia_controller.go:276-280 | listing the Ingresses, in any order, keeps the invariant |
| `ClusterSteps.FailKeepsInv` | internal/controller/authelia_controller.go:65-106 | failing at any call keeps the invariant |
| `ClusterSteps.WriteCoreSecretKeepsInv` | internal/controller/authelia_controller.go:189-208 | writing, skipping or failing to fill the core Secret keeps the invariant |
| `ClusterSteps.WriteConfigMapKeepsInv` | internal/controller/authelia_controller.go:228-237 | writing the ConfigMap keeps the invariant |
| `ClusterSteps.WriteServiceKeepsInv` | internal/controller/authelia_controller.go:239-250 | writing the Service keeps the invariant |
| `ClusterSteps.WriteDataPVCKeepsInv` | internal/controller/authelia_controller.go:213-226 | creating the claim keeps the invariant |
| `ClusterSteps.WriteDeploymentKeepsInv` | internal/controller/authelia_controller.go:252-264 | writing the Deployment keeps the invariant |
| `ClusterSteps.WriteStatusKeepsInv` | internal/controller/authelia_controller.go:99-113 | writing the status keeps the invariant: nothing is left to do, or the Authelia is due again |
| `ClusterSteps.StepKeepsInv` | internal/controller/authelia_controller.go:59-113 | every step of every kind keeps the invariant |
| `ClusterSteps.ExecutionKeepsInv` | internal/controller/authelia_controller.go:59-113 | every execution keeps the invariant |
| `ClusterSteps.ReachableHasInv` | internal/controller/authelia_controller.go:59-113 | every reachable state has the invariant |
| `ClusterInvariant.EditKeepsInv` | internal/controller/authelia_controller.go:300-349 | an edit keeps the invariant when it enqueues every Authelia whose inputs it changes |
| `ClusterInvariant.StaysUpToDate` | internal/controller/authelia_controller.go:108-112 | an Authelia stays up to date through digests that appear, thanks to the retry for missing ones |
| `ClusterInvariant.RunStepKeepsInv` | internal/controller/authelia_controller.go:82-97 | what the run of one Authelia writes is no other Authelia's concern |
| `ClusterInvariant.NamesInjective` | internal/controller/resources.go:31-33 | names of ConfigMaps, claims, core and client Secrets do not clash across resources |
| `Convergence.IdleImpliesConverged` | internal/controller/authelia_controller.go:59-113 | in every reachable state, an Authelia neither queued, running nor due has a ConfigMap that renders the current clients, digests, Ingresses and spec, a Deployment with its checksum and OIDC flag, a status to match, its core Secret, Service and claim, and no targeting confidential client lacks a digest |
| `Convergence.IdleConfigIsDetermined` | internal/controller/authelia_controller.go:59-113 | that ConfigMap is one particular tree when clients sharing an ID render alike |
| `Convergence.RenderedNow` | internal/controller/authelia_controller.go:118-155 | clients read one at a time during a run are those a fresh read would give, if none was missing |
| `Convergence.IdleDecision` | internal/controller/render.go:116-125 | in every reachable state, the stored ConfigMap of an idle Authelia gives every request the policy of the winning rule of the current Ingresses, else what additionalConfig decides |
| `Convergence.IdleNonInterference` | internal/controller/authelia_controller.go:276-297 | two reachable states in which an Authelia with one additionalConfig is idle decide a request alike when the Ingresses that differ have no rule that matches it |
| `Convergence.IdlePathsLeadHome` | internal/controller/resources.go:270-300 | the files an idle Authelia names, in its environment and in the ConfigMap stored now, lead through the Deployment stored now to the Secrets and keys of its spec |
| `Watches.ClientPutReaches` | internal/controller/authelia_controller.go:334-349 | creating or editing a client enqueues an Authelia iff the client targets it before or after |
| `Watches.ClientDeletionReaches` | internal/controller/authelia_controller.go:334-349 | deleting a client enqueues an Authelia iff the client targeted it |
| `Watches.IngressPutReaches` | internal/controller/authelia_controller.go:315-331 | creating or editing an Ingress enqueues every Authelia there is iff it has a rule annotation before or after |
| `Watches.IngressDeletionReaches` | internal/controller/authelia_controller.go:315-331 | deleting one, iff it had one |
| `Watches.SilentIngressPut` | internal/controller/authelia_controller.go:315-331 | an Ingress edit that leaves some Authelia out of the queue does not change the generated rules |
| `Watches.SilentIngressDeletion` | internal/controller/authelia_controller.go:315-331 | nor does such a deletion |
| `AnyOrder.FinishedIsFixed` | internal/controller/autheliaoauthclient_controller.go:61-104 | reconciling a finished client again changes nothing, whatever is drawn |
| `AnyOrder.WaitingNeverGrows` | internal/controller/authelia_controller.go:108-112 | no step other than an edit adds a confidential client without a digest |
| `AnyOrder.WaitingNeverGrowsOverRuns` | internal/controller/authelia_controller.go:108-112 | nor does any run without edits |
| `AnyOrder.ClientsFinishInAnyOrder` | internal/controller/autheliaoauthclient_controller.go:48-107 | once every client has been reconciled, in any order and any number of times, amid any other steps but edits, all are finished and none waits for a digest |
| `AutheliaPass.PassRuns` | internal/controller/authelia_controller.go:59-113 | the calls of one reconcile lead from the queue to the state in which all is written |
| `AutheliaPass.OutcomeIsExecution` | internal/controller/authelia_controller.go:59-113 | so do those of a reconcile that fails at any call, to the state of its outcome |
| `FixedPoint.PassIsFixedIff` | internal/controller/authelia_controller.go:59-113 | after a completed reconcile any further one changes no object iff the rendered clients that share an ID render alike |
| `FixedPoint.AgreeingPassIsFixed` | internal/controller/render.go:127-143 | the if half: whatever the list orders, the sort and the generators do |
| `FixedPoint.DisagreeingPassIsNotFixed` | internal/controller/render.go:127-143 | the only-if half: some sort changes the ConfigMap |
| `FixedPoint.ConvergenceInAnyOrder` | internal/controller/authelia_controller.go:59-113 | from every reachable state, without further edits: reconciling all clients in any order and then the Authelia leads to a state both reconcilers leave unchanged, iff clients sharing an ID render alike; nothing is due for a retry because of it |
| `FixedPoint.IdleIsFixedIff` | internal/controller/authelia_controller.go:59-113 | in every reachable state, whatever was interleaved before: the reconcile of an idle Authelia changes no object iff clients sharing an ID render alike |
| `FixedPoint.RestIsFixed` | internal/controller/authelia_controller.go:59-113 | without further edits, once all clients have been reconciled amid any interleaving, an Authelia that has come to rest is at a fixed point of the client reconciles, and of its own iff clients sharing an ID render alike |
| `ClusterSafety.ReferencesExist` | internal/controller/authelia_controller.go:82-97 | in every reachable state an existing Deployment is the one built from a recorded snapshot, checksum and OIDC flag alike, and its ConfigMap, filled core Secret and claim exist |
| `ClusterSafety.RecordedWasHeld` | internal/controller/authelia_controller.go:85-87 | a recorded snapshot's configuration is one the ConfigMap has held during the run |
| `ClusterSafety.CorePathsLeadToSecrets` | internal/controller/secrets.go:108-133 | in every reachable state a core path of an existing Deployment leads to a key of the core Secret, which is filled when it is managed |
| `ClusterSafety.VariablesLeadToSecrets` | internal/controller/resources.go:270-300 | in every reachable state every _FILE variable of an existing Deployment, as a container sees it, leads to the Secret and key of the last entry of that name, else to its core key, which is filled when the operator manages it |
| `ClusterSafety.UsersPathLeadsToSecret` | internal/controller/render.go:165-171 | in every reachable state the path rendered from the snapshot of a Deployment leads through that Deployment to the users Secret |
| `ClusterSafety.SecretsAlwaysPaired` | internal/controller/autheliaoauthclient_controller.go:70-92 | in every reachable state a stored digest verifies against the stored secret |
| `ClusterSafety.StepKeepsClientSecret` | internal/controller/autheliaoauthclient_controller.go:79-92 | no step changes a secret or digest of a client that is confidential |
| `ClusterSafety.NeverRotated` | internal/controller/autheliaoauthclient_controller.go:77-92 | while a client stays confidential, over any run, neither its secret nor its digest changes once set |
| `ClusterSafety.StepWritesOnce` | internal/controller/secrets.go:108-133 | no step changes a non-empty core value, drops a key, or touches an existing claim |
| `ClusterSafety.WrittenOnce` | internal/controller/authelia_controller.go:189-226 | nor does any run, whatever edits and failures it contains |
| `ClusterSafety.NewClaimIsTemplate` | internal/controller/authelia_controller.go:213-226 | a claim appears only as the one of the reconciled Authelia, with the spec of its template |
| `EndToEnd.VolumesExist` | internal/controller/resources.go:188-204 | in every reachable state the ConfigMaps and claims that the volumes of an existing Deployment name exist under these names |
| `EndToEnd.MountsLead` | internal/controller/resources.go:188-210 | in every reachable state the mounts of an existing Deployment lead to the ConfigMap the operator writes, to the core Secret, its four keys filled when managed, and to a claim exactly when its spec has a template |
| `EndToEnd.IdleEntries` | internal/controller/authelia_controller.go:118-155 | in every reachable state the stored ConfigMap of an idle Authelia lists one entry for each client that targets it and no other, by ascending ID; each has the fields of the spec, the ID or else the name, and for a confidential client the digest in its Secret, which verifies the secret beside it; the status lists the same IDs |
| `EndToEnd.EntryHasSpecFields` | internal/controller/render.go:46-92 | every field of an entry by name and value, present exactly when it is set |
| `EndToEnd.IdleFirstRankDecides` | internal/controller/ingress.go:151-165 | the stored ConfigMap of an idle Authelia decides a request by the policy of the matching rule that outranks all others |
| `EndToEnd.IdleDefaultCookie` | internal/controller/render.go:176-187 | and holds the default cookie when the spec has a hostname and no cookies |
| `EndToEnd.IdleDeploymentFits` | internal/controller/authelia_controller.go:94-97 | the Deployment of an idle Authelia carries the checksum of the stored ConfigMap and the OIDC variables exactly when a client targets it |
| `ClientSecret.ReconciledPairIff` | internal/controller/autheliaoauthclient_controller.go:79-92 | after a reconcile both values are there, and they match iff they matched before or there was no secret and the old digest fits the new one |
| `ClientSecret.StaleDigestSurvives` | internal/controller/autheliaoauthclient_controller.go:86-92 | a digest without a secret is kept beside a new secret it does not verify against |
| `ClientSecret.ConfidentialValuesKept` | internal/controller/autheliaoauthclient_controller.go:77-92 | values present are kept |
| `ClientSecret.ReconcileTwice` | internal/controller/autheliaoauthclient_controller.go:70-92 | a second reconcile, whatever it draws, changes nothing |
| `ClientSecret.PairedAfterReconcile` | internal/controller/autheliaoauthclient_controller.go:71-92 | matching values match after a reconcile, also across changes between public and confidential |
| `ClientSecret.FilledData` | internal/controller/autheliaoauthclient_controller.go:70-92 | key by key what a reconcile leaves in the Secret, kept values, fresh values and the digest of which secret, and exactly when it fails |
| `CoreSecret.FillKeepsAndFills` | internal/controller/secrets.go:108-133 | all keys are filled, non-empty values and other keys survive |
| `CoreSecret.FilledStays` | internal/controller/secrets.go:115-130 | filled data is left alone, whatever the generators would do |
| `CoreSecret.FilledByGenerators` | internal/controller/secrets.go:108-133 | a missing key gets the value of its own generator; the fill fails iff the generator of some missing key does |
| `CoreSecret.FourKeysFilled` | internal/controller/secrets.go:34-39 | the four keys by name: kept if there, generated if not |
| `CoreSecret.FailedPrefix` | internal/controller/secrets.go:120-123 | one failing generator fails the whole fill |
| `CoreSecret.SecretNamesDisjoint` | internal/controller/secrets.go:69-74 | no managed core Secret is a client Secret |
| `CoreSecret.SecretNamesInjective` | internal/controller/secrets.go:69-74 | different resources have different Secrets |
| `Digest.Base64RoundTrip` | internal/controller/secrets.go:48 | decoding undoes encoding for every byte string, with this alphabet and without padding |
| `Digest.EncodedLength` | internal/controller/secrets.go:48 | the length of the encoding, 22 and 86 characters for 16 and 64 bytes, and no dollar sign in it |
| `Digest.EncodeGroup` | internal/controller/secrets.go:48 | each three bytes are one number, most significant byte first, cut into four digits |
| `Digest.EncodeTail` | internal/controller/secrets.go:48 | one or two bytes left over are filled up with zero bits |
| `Digest.DigitSpelled` | internal/controller/secrets.go:48 | the digits are the characters of the alphabet |
| `Digest.AlphabetIsDigits` | internal/controller/secrets.go:48 | the alphabet is the 64 digits, each read back as itself |
| `Digest.DecimalRoundTrip` | internal/controller/secrets.go:64 | the iteration count is read back |
| `Digest.DigestRoundTrip` | internal/controller/secrets.go:64 | splitting at the dollar signs recovers iterations, salt and key |
| `Digest.HashVerifies` | internal/controller/secrets.go:55-65 | the digest verifies against its secret, for every key derivation and salt |
| `Digest.HashSpelled` | internal/controller/secrets.go:55-65 | the digest is $pbkdf2-sha512$310000$, the salt, a dollar sign and the key derived with 310000 iterations |
| `Digest.VerifiesIff` | internal/controller/secrets.go:55-65 | a digest verifies exactly the secrets from which its own salt and iterations derive its key |
| `AccessRules.IngressDomains` | internal/controller/ingress.go:113-132 | strictly increasing, and exactly the non-empty rule and TLS hosts |
| `AccessRules.AddHosts` | internal/controller/ingress.go:116-123 | the list holds each host seen once |
| `AccessRules.ComputeResourceLen` | internal/controller/ingress.go:136-149 | the byte length of the longest string pattern, 0 when there is none |
| `AccessRules.LongestString` | internal/controller/ingress.go:140-146 | an upper bound that is attained |
| `AccessRules.RuleAnnotationKeys` | internal/controller/ingress.go:75-81 | every rule annotation once, in whatever order the map yields them |
| `AccessRules.AnnotationRule` | internal/controller/ingress.go:85-108 | the rule of one annotation, none when it is malformed or its policy invalid |
| `AccessRules.RulesForKeys` | internal/controller/ingress.go:84-109 | the rules of the annotations, in key order |
| `AccessRules.IngressAccessRules` | internal/controller/ingress.go:68-110 | the rules that RuleMeaning.OneRuleEach describes, whatever the order of the annotation map |
| `AccessRules.HasWildcard` | internal/controller/ingress.go:96-102 | whether some domain starts with an asterisk |
| `AccessRules.SortAccessRules` | internal/controller/ingress.go:154-165 | in place, to the sequence that RuleMeaning.CompiledOrder describes |
| `AccessRules.GatherRules` | internal/controller/authelia_controller.go:282-285 | the rules of all Ingresses |
| `AccessRules.ReportDomains` | internal/controller/authelia_controller.go:288-295 | the domains of the rules, in the order of the rules |
| `AccessRules.CollectIngressRules` | internal/controller/authelia_controller.go:276-297 | the compiled rules, and for the status the concatenation of their domains |
| `AccessRules.RulesAreForced` | internal/controller/ingress.go:85-108 | whatever its JSON says, a rule carries exactly the hosts of its Ingress, keeps its other fields, and has a valid policy |
| `AccessRules.CollectedIsForced` | internal/controller/authelia_controller.go:288-295 | every collected rule reports exactly the hosts of some listed Ingress |
| `AccessRules.SortKeyInjective` | internal/controller/ingress.go:105 | the sort key determines domain, namespace, name and annotation |
| `AccessRules.PrecedesIsOrder` | internal/controller/ingress.go:154-165 | the comparator is a strict weak order |
| `AccessRules.PrecedesSeparates` | internal/controller/ingress.go:154-165 | it separates any two collected rules |
| `AccessRules.CompileIgnoresListOrder` | internal/controller/authelia_controller.go:276-297 | the compiled rules do not depend on the order of the Ingress list |
| `AccessRules.OptedOutHasNoRules` | internal/controller/ingress.go:56-63 | an Ingress the watch ignores has no rules |
| `AccessRules.CompileDependsOnOptedIn` | internal/controller/ingress.go:56-80 | only Ingresses that opt in matter |
| `RuleMeaning.OneRuleEach` | internal/controller/ingress.go:68-110 | an Ingress with a host yields exactly one rule for each annotation named heliop/rule or heliop/rule-..., whose value is an object with one of the four policies, and no other; the rule has the hosts under "domain", ascending, every other field as in the annotation, and a key of first host, namespace, name and annotation |
| `RuleMeaning.CollectedSplits` | internal/controller/authelia_controller.go:282-285 | the rules of every listed Ingress are collected |
| `RuleMeaning.CompiledIsPermutation` | internal/controller/authelia_controller.go:286 | sorting loses and adds none |
| `RuleMeaning.ReportedDomains` | internal/controller/authelia_controller.go:290-294 | what the status gets of a rule are the strings under its "domain" |
| `RuleMeaning.LengthInBytes` | internal/controller/ingress.go:141-142 | for ASCII the length of a pattern is its number of characters |
| `RuleMeaning.CharacterInBytes` | internal/controller/ingress.go:141-142 | the bytes of any other character |
| `RuleMeaning.LengthAdds` | internal/controller/ingress.go:141-142 | lengths add up |
| `RuleMeaning.MetadataOf` | internal/controller/ingress.go:95-107 | what the sort looks at is what the rendered rule holds: the longest string under "resources", a single string counting itself, and a host that starts with a star |
| `RuleMeaning.CompiledOrder` | internal/controller/ingress.go:151-165 | for any two places of the compiled list: the longest pattern of the first is at least as long; at equal length no star before none; at equal length and kind the keys ascend |
| `RuleMeaning.PrecedesIffOutranks` | internal/controller/ingress.go:151-165 | the comparator is the ranking by the rendered JSON: a pattern longer than all of the other, else no star against a star, else the lexicographically smaller key |
| `RuleMeaning.FirstRankDecides` | internal/controller/render.go:116-125 | a matching rule that outranks every other matching one, by pattern length, star and key read off the rendered JSON, decides the request with its own policy |
| `RuleMeaning.LongestPatternDecides` | internal/controller/ingress.go:151-165 | in particular one with a pattern longer than all patterns of every other matching rule |
| `RuleMeaning.RenderedRuleList` | internal/controller/render.go:116-125 | the list at access_control.rules: the compiled rules as they are, then what additionalConfig lists there |
| `RuleMeaning.DefaultPolicyKept` | internal/controller/render.go:116-125 | access_control.default_policy is that of additionalConfig |
| `Ordering.SortInPlace` | internal/controller/ingress.go:155 | the array holds the sorted sequence |
| `Ordering.InsertInPlace` | internal/controller/ingress.go:155 | one round of it |
| `Ordering.SortIsSortedPermutation` | internal/controller/ingress.go:155 | sorted and a permutation, for every strict weak order |
| `Ordering.SortedUnique` | internal/controller/ingress.go:151-165 | two sorted permutations agree when the comparator separates the elements |
| `Ordering.SortIgnoresOrder` | internal/controller/ingress.go:151-165 | so the sorted form does not depend on the order before |
| `Ordering.StringLessIff` | internal/controller/ingress.go:163 | strings are compared lexicographically: a proper prefix first, else by the first character that differs |
| `Ordering.FilterSort` | internal/controller/ingress.go:154-165 | sorting and dropping elements commute |
| `Ordering.SortHead` | internal/controller/ingress.go:154-165 | the element that precedes all others, or comes first among equals, ends up first |
| `Ordering.AscendingIsIncreasing` | internal/controller/ingress.go:130 | a set in ascending order, without repeats |
| `FirstMatch.FirstMatchingCompiled` | internal/controller/render.go:116-125 | the first matching compiled rule is the head of the matching collected rules, sorted on their own |
| `FirstMatch.WinnerIsFirstMatch` | internal/controller/render.go:116-125 | for every match predicate, first match over generated and static rules is the matching generated rule least in the order |
| `FirstMatch.WinnerExists` | internal/controller/ingress.go:154-165 | there is such a rule iff any collected rule matches |
| `FirstMatch.NoWinnerFallsThrough` | internal/controller/render.go:116-125 | otherwise the static rules decide |
| `FirstMatch.NonInterference` | internal/controller/authelia_controller.go:276-297 | replacing a stretch of the Ingress list none of whose rules match a request leaves its first match unchanged, despite the global sort |
| `FirstMatch.SilentChangesDoNotShow` | internal/controller/authelia_controller.go:276-297 | for two states of a cluster and any listings of each: creating, editing and deleting Ingresses none of whose old or new rules match a request leaves its first match unchanged |
| `Clients.RoutedIffTargeted` | internal/controller/authelia_controller.go:174-183 | the watch routes a client to the Authelia it targets and to no other |
| `Clients.CollectClients` | internal/controller/authelia_controller.go:118-155 | the rendered clients, whose entries EndToEnd.IdleEntries describes, and the number missing, or failure iff a digest that is needed cannot be read |
| `Clients.ClientsConserved` | internal/controller/authelia_controller.go:118-155 | every listed client is exactly one of: untargeted, counted missing, rendered once |
| `Clients.ClientRoundTrip` | internal/controller/render.go:46-92 | no field of a client is lost or mixed up in its entry |
| `Clients.SortClients` | internal/controller/render.go:128-133 | a sorted permutation |
| `Clients.ReportedIDsAreRendered` | internal/controller/authelia_controller.go:99-103 | the reported IDs are those of the rendered clients, in the order rendered |
| `Clients.SameEntries` | internal/controller/render.go:127-143 | any two sorts give the same entries when clients sharing an ID render alike |
| `Clients.RenderingDeterminedIff` | internal/controller/render.go:128-133 | the rendered entries do not depend on list order and sort iff clients sharing an ID render alike |
| `Clients.SharedIDIsUndetermined` | internal/controller/render.go:128-133 | two clients of one ID with different names: the rendering is not determined |
| `Clients.NameShows` | internal/controller/render.go:50-52 | the client name shows in the entry |
| `Operator.StatusInOrder` | internal/controller/authelia_controller.go:99-104 | the status lists the IDs in the order in which the clients are rendered |
| `Operator.ConfiguredIDs` | internal/controller/render.go:127-143 | the client_id fields in the rendered tree are those of the rendered clients, or those additionalConfig lists when none is rendered |
| `Operator.StatusMatchesConfigIff` | internal/controller/authelia_controller.go:99-104 | status and rendered tree list the same IDs, one by one, iff a client is rendered or additionalConfig lists none |
| `Operator.OrderDoesNotShow` | internal/controller/authelia_controller.go:276-297 | two snapshots of the same objects in different orders give the same status, and the same configuration and Deployment when clients sharing an ID render alike |
| `Operator.EntriesShow` | internal/controller/render.go:140-142 | different client entries give different configurations |
| `JsonTree.LookupPut` | internal/controller/render.go:154-161 | what is set at a path is found there |
| `JsonTree.LookupPutApart` | internal/controller/render.go:154-161 | a path apart from it reads as before |
| `JsonTree.LookupAbove` | internal/controller/render.go:154-161 | a path above one that leads somewhere leads to an object |
| `JsonTree.PutSame` | internal/controller/render.go:154-161 | setting what is there changes nothing |
| `JsonTree.PutSwap` | internal/controller/render.go:154-161 | settings at paths apart commute |
| `JsonTree.PutLast` | internal/controller/render.go:154-161 | a setting may be made after others at paths apart from it |
| `JsonTree.PutAllIgnoresOrder` | internal/controller/render.go:154-161 | any number of settings at paths pairwise apart may be made in any order |
| `Render.IndexOfDot` | internal/controller/render.go:193 | the first dot |
| `Render.RenderIsPutFour` | internal/controller/render.go:113-143 | the rendering sets at most four paths and does nothing else |
| `Render.RenderInAnyOrder` | internal/controller/render.go:113-143 | the operator's settings, made in any order, give the rendering |
| `Render.LdapPasswordKept` | internal/controller/render.go:113-143 | an LDAP password of additionalConfig is in the rendered configuration, whatever the settings |
| `Render.OtherPathsUnchanged` | internal/controller/render.go:113-143 | every path apart from those reads as in additionalConfig |
| `Render.SetPathsHold` | internal/controller/render.go:113-143 | those that are set hold what the operator puts there, the others what additionalConfig has |
| `Render.AboveSetPaths` | internal/controller/render.go:154-161 | whatever stood on the way to a set path, an object stands there now |
| `Render.WithoutFirstLabel` | internal/controller/render.go:189-197 | what follows the first dot; the hostname itself without a dot, or when nothing follows it |
| `Render.DefaultCookieRendered` | internal/controller/render.go:176-187 | with a hostname and no cookies, session.cookies is one object of exactly two keys: authelia_url is https:// and the hostname, domain the hostname without its first label |
| `Render.CookiesLeftAlone` | internal/controller/render.go:176-187 | cookies of additionalConfig, or the lack of a hostname, leave session.cookies as it was |
| `Render.UsersFileRendered` | internal/controller/render.go:165-171 | authentication_backend.file.path is /authelia/file-backend/ and the key, or as it was without a users Secret |
| `Render.ClientListRendered` | internal/controller/render.go:127-143 | identity_providers.oidc.clients lists the entries of the rendered clients in order, or is as it was without any |
| `Render.RulesAndDefaultPolicy` | internal/controller/render.go:116-125 | the rule list is the generated rules followed by the static ones; the default policy is untouched |
| `Render.RenderTwice` | internal/controller/render.go:105-143 | rendering a rendered tree repeats the generated rules and changes nothing else |
| `Render.RenderTwiceDecidesAlike` | internal/controller/render.go:113-143 | and decides every request as before |
| `Render.RenderedDecision` | internal/controller/render.go:116-125 | every request gets the policy of the least matching generated rule, else what additionalConfig decides: its static rules, then its default policy |
| `Render.RenderedNonInterference` | internal/controller/authelia_controller.go:276-297 | the decision for a request does not depend on a stretch of the Ingress list none of whose rules match it |
| `Render.RenderedSilentChanges` | internal/controller/authelia_controller.go:276-297 | the same between two states of a cluster with any listings, whatever else differs but additionalConfig |
| `RenderHeap.MapNode.Set` | internal/controller/render.go:170 | assigning a value keeps the node a tree without sharing and changes this key only |
| `RenderHeap.Attach` | internal/controller/render.go:158-160 | hanging a separate tree below a node gives a tree without sharing |
| `RenderHeap.ChildMap` | internal/controller/render.go:154-161 | the nested map at a key, new when there was none; the parent reads as if it had been there |
| `RenderHeap.SetAt` | internal/controller/render.go:154-161 | childMap along a path and an assignment through the last reference is the pure path update of the whole tree, which stays unshared |
| `RenderHeap.SetBelow` | internal/controller/render.go:154-161 | a change below one child shows in the parent under that key and nowhere else |
| `RenderHeap.ReadBelow` | internal/controller/render.go:118-119 | reading through childMap leaves an empty map at most |
| `RenderHeap.ApplyFileBackend` | internal/controller/render.go:165-171 | refines the pure update |
| `RenderHeap.ApplySession` | internal/controller/render.go:176-187 | refines the pure update that Render.DefaultCookieRendered describes, also when cookies are there already |
| `RenderHeap.PrependRules` | internal/controller/render.go:116-125 | refines the pure update; a value that is no list is dropped |
| `RenderHeap.ClientMaps` | internal/controller/render.go:135-138 | one entry per client in order |
| `RenderHeap.InjectClients` | internal/controller/render.go:127-143 | refines the pure update for some sorted permutation |
| `RenderHeap.Load` | internal/controller/render.go:106-111 | the decoded configuration as a tree of new nodes |
| `RenderHeap.RenderConfig` | internal/controller/render.go:105-150 | the heap edits, all together, yield the tree of the pure renderer, without sharing |
| `VolumeNames.SecretVolumeName` | internal/controller/resources.go:64-78 | the loop over the characters computes the sanitised, trimmed and cut name |
| `VolumeNames.VolumeNameIsDnsLabelIff` | internal/controller/resources.go:64-78 | a DNS label (section 2.1 of RFC 1123, at most 63 octets by section 2.3.4 of RFC 1035) iff some character survives sanitising |
| `VolumeNames.FileSecretHasDnsLabel` | internal/controller/resources.go:61-78 | so for every name ending in _FILE |
| `VolumeNames.VolumeNameFixedPoint` | internal/controller/resources.go:64-78 | naming a volume name changes nothing |
| `VolumeNames.VolumeNameOfSignificant` | internal/controller/resources.go:64-78 | trimming before the cut and after it is cutting once: the volume name is the sanitised significant part |
| `VolumeNames.SanitiseSpelled` | internal/controller/resources.go:64-73 | letters in lower case, digits kept, dashes for the rest of ASCII |
| `VolumeNames.CutAt63` | internal/controller/resources.go:74-77 | at most 63 characters; shorter names are not cut |
| `VolumeNames.VolumeNamesClashIff` | internal/controller/resources.go:64-78 | for all names: two share a volume name iff their significant parts, from the first to the last surviving character among 63, are equal up to case and to which characters do not survive |
| `VolumeNames.ShortNamesClashIff` | internal/controller/resources.go:64-78 | file variables of at most 63 characters clash iff they are alike as a whole, leading dashes aside |
| `VolumeNames.CaseClashes` | internal/controller/resources.go:64-78 | two short file variables that clash |
| `VolumeNames.BuiltInClashIff` | internal/controller/resources.go:200-220 | a variable takes the name of a given built-in volume iff its significant part is like that name |
| `VolumeNames.PlainNamesClashIff` | internal/controller/resources.go:64-78 | plain names clash iff their first 63 characters, trailing underscores aside, are equal |
| `VolumeNames.PlainBuiltInClashIff` | internal/controller/resources.go:200-220 | a plain name takes the name of a built-in volume iff its significant part is CONFIG, AUTHELIA_SECRET, DATA or FILE_BACKEND |
| `VolumeNames.ShortVolumeNamesDistinct` | internal/controller/resources.go:64-78 | two different plain file variables of at most 63 characters never clash |
| `VolumeNames.ShortVolumeNamesAvoidBuiltIn` | internal/controller/resources.go:200-220 | no file variable of at most 63 characters takes the name of a built-in volume |
| `VolumeNames.LongNameClashesWithBuiltIn` | internal/controller/resources.go:64-78 | one variable that does; which ones do is PlainBuiltInClashIff and BuiltInClashIff |
| `PodWiring.AutheliaFileEnv` | internal/controller/resources.go:270-300 | the environment, variable by variable |
| `PodWiring.SecretVariables` | internal/controller/resources.go:284-298 | one variable per entry with a Secret: a file path or a reference |
| `PodWiring.MountSecrets` | internal/controller/resources.go:212-220 | one mount and one volume per mounted variable |
| `PodWiring.BuildDeployment` | internal/controller/resources.go:188-262 | mounts, volumes, environment and checksum of the Deployment, which OwnMounts, VolumeSources, CoreVariablesSeen and LastEntryIsSeen describe |
| `PodWiring.DeepestCovers` | internal/controller/resources.go:195-220 | a path lies in the deepest mount above it |
| `PodWiring.ResolveBelow` | internal/controller/resources.go:195-220 | a path below a mounted Secret leads to that key of that Secret, whatever else is mounted |
| `PodWiring.MountPathsAreDistinct` | internal/controller/resources.go:80-82 | different names are mounted at different paths, apart from the operator's own |
| `PodWiring.ConfiguredPathResolves` | internal/controller/resources.go:284-297 | the variable of a mounted entry holds a path that ends at the Secret and key of the entry |
| `PodWiring.EffectiveConfigured` | internal/controller/resources.go:284-298 | the last entry of a name is the one a container sees |
| `PodWiring.EffectiveCore` | internal/controller/resources.go:270-282 | the core variables, with OIDC and without |
| `PodWiring.FileVariableResolves` | internal/controller/resources.go:270-300 | for every _FILE name: what a container sees leads to the last entry of that name, which hides a core variable, else to the core key, else there is no such variable |
| `PodWiring.EveryFileVariableResolves` | internal/controller/resources.go:270-300 | every _FILE variable of the environment, hidden or not, leads to its core key or to an entry of its name |
| `PodWiring.UsersPathResolves` | internal/controller/resources.go:55-57 | following the users path ends at the users Secret and key |
| `PodWiring.CorePathResolves` | internal/controller/resources.go:270-282 | following a core path ends at that key of the core Secret, whatever is mounted besides |
| `PodWiring.CoreFileServed` | internal/controller/secrets.go:69-74 | /secrets/ and a core key lead to that key of the Secret the user brings, else of the managed one |
| `PodWiring.CoreVariablesSeen` | internal/controller/resources.go:270-282 | the core variables by name and file, the OIDC ones exactly when OIDC is enabled; no other _FILE variable but those of entries |
| `PodWiring.LastEntryIsSeen` | internal/controller/resources.go:284-298 | the last entry of a name is what a container sees: a path below /authelia/secrets for a _FILE name, else a reference to the Secret and key of the entry |
| `PodWiring.OwnMounts` | internal/controller/resources.go:188-210 | what is mounted where: /configuration.yaml is the configuration.yaml of the ConfigMap, /secrets the core Secret, /data the claim exactly when there is a template, /authelia/file-backend the users Secret |
| `PodWiring.VolumeSources` | internal/controller/resources.go:188-220 | every volume refers to the ConfigMap or claim of this Authelia or to a Secret its spec names |
| `PodWiring.VolumesDistinctIff` | internal/controller/resources.go:200-220 | no two volumes of the pod have one name iff the significant parts of the mounted entries are pairwise unlike, counting repeated entries, and unlike the operator's own volumes |
| `PodWiring.WellNamedVolumesDistinct` | internal/controller/resources.go:200-220 | distinct plain names of at most 63 characters are enough |

## Left out

- Parsing and printing: an annotation is malformed or a parsed object, additionalConfig is a parsed
  object, and the ConfigMap holds the rendered tree, of which the YAML is a function. Number formats are
  not modelled. An additionalConfig that is no JSON object fails the reconcile before it writes, which
  the concurrent system has as a failure after the last read.
- SHA-256, PBKDF2, RSA and PEM, and randomness: parameters of which nothing is assumed, or that they are
  non-empty. `generateSecret` and `generateAlphanumeric` are such parameters.
- Authelia's own matching of domains, resources, subjects and networks: an arbitrary predicate over the
  rule.
- Ordering.InsertInPlace: is one round of an insertion sort, because Go's own sorting algorithms are not
  part of this model; for the rules any sort gives the same result (Ordering.SortedUnique), for the
  clients any sorted permutation is allowed for.
- Watch-cache staleness. A client reconcile that reads a stale Secret could overwrite a digest, and the
  convergence result would not hold.
- Garbage collection of owned objects, and deletion of the Secret of a client that exists: nothing
  enqueues the Authelia then.
- Labels, owner references, probes, images, resource limits, replicas, ReadyReplicas and the contents of
  the Service: constants, or copied.
- `cmd`, RBAC, CRDs, generated deep copies and the Makefile.
- Reconcilers.Marshal: states which tree is printed, not the text, because YAML is taken as a function of the tree.
- FirstMatch.NonInterference: keeps the order of the Ingresses left alone, so that it needs nothing of them; FirstMatch.SilentChangesDoNotShow is about any two listings.
- Render.RenderedNonInterference: likewise; Render.RenderedSilentChanges is about any two listings.
- ClusterSafety.UsersPathLeadsToSecret: is about the configuration of the Deployment's own snapshot, because between two calls of a reconcile the ConfigMap may be ahead of the Deployment; Convergence.IdlePathsLeadHome is about the ConfigMap there is now.
- ClusterSafety.VariablesLeadToSecrets: asks for distinct volume names and keys without a slash, because a pod with clashing volumes is rejected and Secret keys have no slash; PodWiring.VolumesDistinctIff says when the names are distinct.
- FixedPoint.ConvergenceInAnyOrder: has its last reconcile run without interruption, to say where it leads; FixedPoint.RestIsFixed is about any interleaving.
