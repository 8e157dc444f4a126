/**
 * Safety over whole runs: what a Deployment refers to exists, secrets are paired and never rotated,
 * core secrets and claims are written once.
 */
module ClusterSafety {
  import opened JsonTree
  import opened Objects
  import opened Settings
  import opened AccessRules
  import opened FirstMatch
  import opened Clients
  import opened Render
  import opened Digest
  import opened ClientSecret
  import opened CoreSecret
  import opened VolumeNames
  import opened PodWiring
  import opened Cluster
  import opened ClusterInvariant
  import opened ClusterSteps
  import opened Operator

  // ------------------------------------------------------ who writes what

  /** The three outcomes of the core Secret call. */
  lemma CoreWriteSkipped(s: State, a: Key, snap: Snapshot, g: Generators)
    requires snap.spec.existingSecret != ""
    ensures WriteCoreSecretStep(s, a, snap, g) == WithRun(s, a, Writing(snap, AtConfigMap))
  {
  }

  lemma CoreWriteFailed(s: State, a: Key, snap: Snapshot, g: Generators)
    requires snap.spec.existingSecret == "" && FillCoreSecret(Stored(s.secrets, ManagedSecretKey(a)), g).None?
    ensures WriteCoreSecretStep(s, a, snap, g) == Failed(s, a)
  {
  }

  lemma CoreWriteDone(s: State, a: Key, snap: Snapshot, g: Generators, data: SecretData)
    requires snap.spec.existingSecret == "" && FillCoreSecret(Stored(s.secrets, ManagedSecretKey(a)), g) == Some(data)
    ensures WriteCoreSecretStep(s, a, snap, g) == WithCore(s, a, snap, data)
  {
  }

  lemma CoreWriteTouches(s: State, t: State, a: Key, snap: Snapshot, g: Generators)
    requires t == WriteCoreSecretStep(s, a, snap, g) && GoodGenerators(g)
    ensures t.pvcs == s.pvcs && t.written == s.written && t.clients == s.clients
    ensures forall k :: k != ManagedSecretKey(a) ==> Stored(t.secrets, k) == Stored(s.secrets, k)
    ensures Survives(Stored(s.secrets, ManagedSecretKey(a)), Stored(t.secrets, ManagedSecretKey(a)))
  {
    var before := Stored(s.secrets, ManagedSecretKey(a));
    var filled := FillCoreSecret(before, g);
    if snap.spec.existingSecret != "" {
      CoreWriteSkipped(s, a, snap, g);
    } else if filled.None? {
      CoreWriteFailed(s, a, snap, g);
    } else {
      CoreWriteDone(s, a, snap, g, filled.value);
      FillKeepsAndFills(before, CORE_KEYS, g);
    }
  }

  predicate IsConfidential(s: State, k: Key) {
    k in s.clients && !s.clients[k].spec.public
  }

  /** Non-empty values of these keys are the same afterwards. */
  predicate ValuesKept(before: SecretData, after: SecretData) {
    && (DataAt(before, SECRET_KEY) != "" ==> DataAt(after, SECRET_KEY) == DataAt(before, SECRET_KEY))
    && (DataAt(before, DIGEST_KEY) != "" ==> DataAt(after, DIGEST_KEY) == DataAt(before, DIGEST_KEY))
  }

  /** Values once set, and every key that was there, survive. */
  ghost predicate Survives(before: SecretData, after: SecretData) {
    && (forall k :: DataAt(before, k) != "" ==> DataAt(after, k) == DataAt(before, k))
    && (forall k :: k in before ==> k in after)
  }

  function FilledFor(w: World, s: State, k: Key, draw: Draw): Option<SecretData>
    requires k in s.clients
  {
    FillClientSecret(w.hash, Stored(s.secrets, ClientSecretKey(k)), EffectiveID(Object(k, s.clients[k])),
      s.clients[k].spec.public, draw)
  }

  lemma ClientWriteFailed(w: World, s: State, k: Key, draw: Draw, statusSaved: bool)
    requires k !in s.clients || FilledFor(w, s, k, draw).None?
    ensures ReconcileClientStep(w, s, k, draw, statusSaved) == s
  {
  }

  lemma ClientWriteDone(w: World, s: State, k: Key, draw: Draw, statusSaved: bool)
    requires k in s.clients && FilledFor(w, s, k, draw).Some?
    ensures var t := ReconcileClientStep(w, s, k, draw, statusSaved);
      t == s.(secrets := s.secrets[ClientSecretKey(k) := FilledFor(w, s, k, draw).value], clients := t.clients, dirty := t.dirty)
  {
  }

  lemma ClientWriteTouches(w: World, s: State, t: State, k: Key, draw: Draw, statusSaved: bool)
    requires t == ReconcileClientStep(w, s, k, draw, statusSaved)
    ensures t.pvcs == s.pvcs && t.written == s.written
    ensures forall j :: j != ClientSecretKey(k) ==> Stored(t.secrets, j) == Stored(s.secrets, j)
    ensures IsConfidential(s, k) ==> ValuesKept(Stored(s.secrets, ClientSecretKey(k)), Stored(t.secrets, ClientSecretKey(k)))
  {
    if k !in s.clients || FilledFor(w, s, k, draw).None? {
      ClientWriteFailed(w, s, k, draw, statusSaved);
    } else {
      ClientWriteDone(w, s, k, draw, statusSaved);
      if IsConfidential(s, k) {
        ConfidentialValuesKept(w.hash, Stored(s.secrets, ClientSecretKey(k)), EffectiveID(Object(k, s.clients[k])), draw);
      }
    }
  }

  lemma ObjectEditsLeaveAlone(w: World, s: State, act: Action)
    requires Enabled(s, act) && IsObjectEdit(act)
    ensures var t := Apply(w, s, act); t.secrets == s.secrets && t.pvcs == s.pvcs && t.written == s.written
  {
  }

  lemma QueueStepsLeaveAlone(w: World, s: State, act: Action)
    requires Enabled(s, act) && IsQueueStep(act)
    ensures var t := Apply(w, s, act); t.secrets == s.secrets && t.pvcs == s.pvcs && t.written == s.written && t.clients == s.clients
  {
  }

  lemma ReadStepsLeaveAlone(w: World, s: State, act: Action)
    requires Enabled(s, act) && IsReadStep(act)
    ensures var t := Apply(w, s, act); t.secrets == s.secrets && t.pvcs == s.pvcs && t.written == s.written && t.clients == s.clients
  {
  }

  lemma WriteStepsLeaveAlone(w: World, s: State, act: Action)
    requires Enabled(s, act)
    requires act.WriteConfigMap? || act.WriteService? || act.WriteDataPVC? || act.WriteDeployment? || act.WriteStatus?
    ensures Apply(w, s, act).secrets == s.secrets && Apply(w, s, act).clients == s.clients
    ensures !act.WriteDataPVC? ==> Apply(w, s, act).pvcs == s.pvcs
    ensures !act.WriteConfigMap? ==> Apply(w, s, act).written == s.written
  {
  }

  /** Beyond these two kinds, Secrets are only ever dropped; one kind writes claims, one records a snapshot. */
  lemma OthersLeaveAlone(w: World, s: State, act: Action)
    requires Enabled(s, act) && !act.ReconcileClient? && !act.WriteCoreSecret?
    ensures !act.DropClientSecret? ==> Apply(w, s, act).secrets == s.secrets
    ensures !act.WriteDataPVC? ==> Apply(w, s, act).pvcs == s.pvcs
    ensures !act.WriteConfigMap? ==> Apply(w, s, act).written == s.written
    ensures !IsObjectEdit(act) ==> Apply(w, s, act).clients == s.clients
  {
    if IsObjectEdit(act) {
      ObjectEditsLeaveAlone(w, s, act);
    } else if IsQueueStep(act) {
      QueueStepsLeaveAlone(w, s, act);
    } else if IsReadStep(act) {
      ReadStepsLeaveAlone(w, s, act);
    } else if !act.DropClientSecret? {
      WriteStepsLeaveAlone(w, s, act);
    }
  }

  // ------------------------------------------------- references before use

  /**
   * In every reachable state, also between the calls of a reconcile and after failures: a Deployment
   * was built from one snapshot, whose configuration its checksum and its OIDC variables are of; its
   * ConfigMap exists, and so do the core Secret with all four keys and the claim the operator manages.
   */
  lemma ReferencesExist(kdf: Kdf, sha: Checksum, s: State, a: Key) returns (snap: Snapshot)
    requires Reachable(OperatorWorld(kdf, sha), s) && a in s.deployments
    ensures snap in History(s, a)
    ensures s.deployments[a] == DeploymentOf(a, snap.spec, Rendered(a, snap.readings) != [], sha(ConfigOf(snap)))
    ensures ConfigMapKey(a) in s.configMaps
    ensures snap.spec.existingSecret == "" ==> CoreFilled(Stored(s.secrets, ManagedSecretKey(a)))
    ensures snap.spec.volumeClaimTemplate.Some? ==> PVCKey(a) in s.pvcs
  {
    var w := OperatorWorld(kdf, sha);
    HashVerifies(kdf);
    ReachableHasInv(w, s);
    snap :| BuiltFrom(w, s, a, snap);
    assert HistorySound(w, s, a);
  }

  /** A core path of an existing Deployment leads to a key that is in the store and not empty. */
  lemma CorePathsLeadToSecrets(kdf: Kdf, sha: Checksum, s: State, a: Key, key: string) returns (snap: Snapshot)
    requires Reachable(OperatorWorld(kdf, sha), s) && a in s.deployments && key in CORE_KEYS
    ensures snap in History(s, a)
    ensures VolumesDistinct(Volumes(a, snap.spec)) ==>
      Resolve(s.deployments[a], CorePath(key)) == Some(SecretKeyRef(CoreSecretName(a, snap.spec), key))
    ensures snap.spec.existingSecret == "" ==>
      DataAt(Stored(s.secrets, Key(a.ns, CoreSecretName(a, snap.spec))), key) != ""
  {
    snap := ReferencesExist(kdf, sha, s, a);
    if VolumesDistinct(Volumes(a, snap.spec)) {
      CorePathResolves(a, snap.spec, Rendered(a, snap.readings) != [], sha(ConfigOf(snap)), key);
    }
  }

  /**
   * Across rendering, pod wiring and secret generation, in every reachable state: every `_FILE` variable
   * of an existing Deployment, as its containers see it, leads to the Secret and key of the entry of that
   * name or else to its core key, which is filled when the operator manages the core Secret.
   */
  lemma VariablesLeadToSecrets(kdf: Kdf, sha: Checksum, s: State, a: Key, name: string) returns (snap: Snapshot)
    requires Reachable(OperatorWorld(kdf, sha), s) && a in s.deployments && IsFileSecret(name)
    ensures snap in History(s, a)
    ensures var oidcEnabled := Rendered(a, snap.readings) != [];
      && (KeysAreFiles(snap.spec.settings.secrets) && VolumesDistinct(Volumes(a, snap.spec)) ==>
            LeadsHome(s.deployments[a], a, snap.spec, oidcEnabled, name))
      && (snap.spec.existingSecret == "" && CoreKeyOf(name, oidcEnabled).Some? ==>
            DataAt(Stored(s.secrets, Key(a.ns, CoreSecretName(a, snap.spec))), CoreKeyOf(name, oidcEnabled).value) != "")
  {
    snap := ReferencesExist(kdf, sha, s, a);
    var oidcEnabled := Rendered(a, snap.readings) != [];
    if KeysAreFiles(snap.spec.settings.secrets) && VolumesDistinct(Volumes(a, snap.spec)) {
      FileVariableResolves(a, snap.spec, oidcEnabled, sha(ConfigOf(snap)), name);
    }
    EffectiveCore(oidcEnabled, name);
  }

  /**
   * The path rendered into authentication_backend.file.path leads, in the Deployment built from the
   * same snapshot, to the configured users Secret and key.
   */
  lemma UsersPathLeadsToSecret(kdf: Kdf, sha: Checksum, s: State, a: Key) returns (snap: Snapshot)
    requires Reachable(OperatorWorld(kdf, sha), s) && a in s.deployments
    ensures snap in History(s, a)
    ensures var ref := snap.spec.settings.fileUsersSecret;
      ref.Some? && '/' !in ref.value.key && VolumesDistinct(Volumes(a, snap.spec)) ==>
      exists path :: Lookup(ConfigOf(snap), FILE_PATH) == Some(JStr(path)) && Resolve(s.deployments[a], path) == ref
  {
    snap := ReferencesExist(kdf, sha, s, a);
    var ref := snap.spec.settings.fileUsersSecret;
    if ref.Some? && '/' !in ref.value.key && VolumesDistinct(Volumes(a, snap.spec)) {
      UsersPathResolves(a, snap.spec, Rendered(a, snap.readings) != [], sha(ConfigOf(snap)));
      UsersPathRendered(snap);
    }
  }

  lemma UsersPathRendered(snap: Snapshot)
    requires snap.spec.settings.fileUsersSecret.Some?
    ensures Lookup(ConfigOf(snap), FILE_PATH) == Some(JStr(FileUsersPath(snap.spec.settings.fileUsersSecret.value)))
  {
    SetPathsHold(snap.spec.settings, snap.ordered, RuleJsons(Compile(snap.ings)), snap.spec.hostname, 0);
  }

  /** A ConfigMap of `a` has this content at some point of an execution. */
  ghost predicate HeldDuring(w: World, s: State, acts: seq<Action>, a: Key, config: JsonObject)
    decreases |acts|
  {
    (ConfigMapKey(a) in s.configMaps && s.configMaps[ConfigMapKey(a)] == config) ||
    (acts != [] && Enabled(s, acts[0]) && HeldDuring(w, Apply(w, s, acts[0]), acts[1..], a, config))
  }

  lemma WrittenKept(w: World, s: State, act: Action)
    requires Enabled(s, act) && !act.WriteConfigMap?
    ensures Apply(w, s, act).written == s.written
  {
    match act
    case WriteCoreSecret(a, g) => CoreWriteTouches(s, Apply(w, s, act), a, s.runs[a].snap, g);
    case ReconcileClient(k, draw, saved) => ClientWriteTouches(w, s, Apply(w, s, act), k, draw, saved);
    case _ => OthersLeaveAlone(w, s, act);
  }

  lemma NewlyRecordedIsHeld(w: World, s: State, act: Action, a: Key, snap: Snapshot)
    requires Enabled(s, act) && snap !in History(s, a) && snap in History(Apply(w, s, act), a)
    ensures ConfigMapKey(a) in Apply(w, s, act).configMaps
    ensures Apply(w, s, act).configMaps[ConfigMapKey(a)] == w.config(snap)
  {
    assert act.WriteConfigMap? by {
      if !act.WriteConfigMap? {
        WrittenKept(w, s, act);
      }
    }
  }

  /** The record of written snapshots is what the ConfigMap has held. */
  lemma {:induction false} RecordedWasHeld(w: World, s: State, acts: seq<Action>, t: State, a: Key, snap: Snapshot)
    requires Execution(w, s, acts, t) && snap in History(t, a) && snap !in History(s, a)
    ensures HeldDuring(w, s, acts, a, w.config(snap))
    decreases |acts|
  {
    var s' := Apply(w, s, acts[0]);
    if snap in History(s', a) {
      NewlyRecordedIsHeld(w, s, acts[0], a, snap);
      assert HeldDuring(w, s', acts[1..], a, w.config(snap));
    } else {
      RecordedWasHeld(w, s', acts[1..], t, a, snap);
    }
  }

  // ----------------------------------------------------------- client secrets

  /** In every reachable state a stored digest comes with the secret it verifies. */
  lemma SecretsAlwaysPaired(kdf: Kdf, sha: Checksum, s: State, k: Key)
    requires Reachable(OperatorWorld(kdf, sha), s)
    ensures Paired(KdfVerifier(kdf), Stored(s.secrets, ClientSecretKey(k)))
  {
    HashVerifies(kdf);
    ReachableHasInv(OperatorWorld(kdf, sha), s);
  }

  /** The client is there and confidential in every state of the execution. */
  ghost predicate StaysConfidential(w: World, s: State, acts: seq<Action>, k: Key)
    decreases |acts|
  {
    IsConfidential(s, k) && (acts != [] && Enabled(s, acts[0]) ==> StaysConfidential(w, Apply(w, s, acts[0]), acts[1..], k))
  }

  lemma StepKeepsClientSecret(w: World, s: State, act: Action, k: Key)
    requires Enabled(s, act) && IsConfidential(s, k)
    ensures ValuesKept(Stored(s.secrets, ClientSecretKey(k)), Stored(Apply(w, s, act).secrets, ClientSecretKey(k)))
  {
    if act.WriteCoreSecret? {
      CoreWriteTouches(s, Apply(w, s, act), act.k, s.runs[act.k].snap, act.g);
      NamesInjective(act.k, k);
    } else if act.ReconcileClient? {
      ClientWriteTouches(w, s, Apply(w, s, act), act.k, act.draw, act.statusSaved);
      NamesInjective(act.k, k);
    } else {
      OthersLeaveAlone(w, s, act);
      if act.DropClientSecret? {
        NamesInjective(act.k, k);
      }
    }
  }

  /** While a client stays confidential, its secret and digest never change once set. */
  lemma {:induction false} NeverRotated(w: World, s: State, acts: seq<Action>, t: State, k: Key)
    requires Execution(w, s, acts, t) && StaysConfidential(w, s, acts, k)
    ensures ValuesKept(Stored(s.secrets, ClientSecretKey(k)), Stored(t.secrets, ClientSecretKey(k)))
    decreases |acts|
  {
    if acts != [] {
      StepKeepsClientSecret(w, s, acts[0], k);
      NeverRotated(w, Apply(w, s, acts[0]), acts[1..], t, k);
    }
  }

  // --------------------------------------------------- core secrets and claims

  ghost predicate ClaimsKept(before: map<Key, string>, after: map<Key, string>) {
    forall k :: k in before ==> k in after && after[k] == before[k]
  }

  lemma StepWritesOnce(w: World, s: State, act: Action, a: Key)
    requires Enabled(s, act)
    ensures Survives(Stored(s.secrets, ManagedSecretKey(a)), Stored(Apply(w, s, act).secrets, ManagedSecretKey(a)))
    ensures ClaimsKept(s.pvcs, Apply(w, s, act).pvcs)
  {
    if act.WriteCoreSecret? {
      CoreWriteTouches(s, Apply(w, s, act), act.k, s.runs[act.k].snap, act.g);
      NamesInjective(act.k, a);
    } else if act.ReconcileClient? {
      ClientWriteTouches(w, s, Apply(w, s, act), act.k, act.draw, act.statusSaved);
      NamesInjective(a, act.k);
    } else {
      OthersLeaveAlone(w, s, act);
      if act.DropClientSecret? {
        NamesInjective(a, act.k);
      }
    }
  }

  /**
   * Over every run, with whatever edits, failing generators and restarts: a managed core key that holds
   * something never changes, keys of other kinds survive, and a claim keeps the spec it was created with.
   */
  lemma {:induction false} WrittenOnce(w: World, s: State, acts: seq<Action>, t: State, a: Key)
    requires Execution(w, s, acts, t)
    ensures Survives(Stored(s.secrets, ManagedSecretKey(a)), Stored(t.secrets, ManagedSecretKey(a)))
    ensures ClaimsKept(s.pvcs, t.pvcs)
    decreases |acts|
  {
    if acts != [] {
      StepWritesOnce(w, s, acts[0], a);
      WrittenOnce(w, Apply(w, s, acts[0]), acts[1..], t, a);
    }
  }

  /** A new claim is the one of the Authelia whose reconcile creates it, with the spec of its template. */
  lemma NewClaimIsTemplate(w: World, s: State, act: Action, k: Key)
    requires Enabled(s, act) && k !in s.pvcs && k in Apply(w, s, act).pvcs
    ensures act.WriteDataPVC? && k == Key(act.k.ns, act.k.name + "-data")
    ensures s.runs[act.k].snap.spec.volumeClaimTemplate == Some(Apply(w, s, act).pvcs[k])
  {
    assert act.WriteDataPVC? by {
      if !act.WriteDataPVC? {
        ClaimsOnlyFromOneStep(w, s, act);
      }
    }
  }

  lemma ClaimsOnlyFromOneStep(w: World, s: State, act: Action)
    requires Enabled(s, act) && !act.WriteDataPVC?
    ensures Apply(w, s, act).pvcs == s.pvcs
  {
    match act
    case WriteCoreSecret(a, g) => CoreWriteTouches(s, Apply(w, s, act), a, s.runs[a].snap, g);
    case ReconcileClient(k, draw, saved) => ClientWriteTouches(w, s, Apply(w, s, act), k, draw, saved);
    case _ => OthersLeaveAlone(w, s, act);
  }
}
