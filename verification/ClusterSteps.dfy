/** Every step keeps the invariant, one lemma per step. */
module ClusterSteps {
  import opened Sequences
  import opened Ordering
  import opened JsonTree
  import opened Objects
  import opened AccessRules
  import opened Clients
  import opened Digest
  import opened ClientSecret
  import opened CoreSecret
  import opened Cluster
  import opened ClusterInvariant

  // --------------------------------------------------------------- user edits

  /** Changing one client leaves alone every Authelia that neither version of it targets. */
  lemma TargetingUnchanged(s: State, t: State, k: Key, a: Key)
    requires forall j :: j != k ==> (j in s.clients <==> j in t.clients)
    requires forall j :: j != k && j in s.clients ==> t.clients[j] == s.clients[j]
    requires k in s.clients ==> !Targets(Object(k, s.clients[k]), a)
    requires k in t.clients ==> !Targets(Object(k, t.clients[k]), a)
    ensures Targeting(t, a) == Targeting(s, a)
  {
    forall c ensures c in Targeting(t, a) <==> c in Targeting(s, a) {
      ObjectsMember(s.clients, c);
      ObjectsMember(t.clients, c);
    }
  }

  lemma OptedInUnchanged(s: State, t: State, k: Key)
    requires forall j :: j != k ==> (j in s.ingresses <==> j in t.ingresses)
    requires forall j :: j != k && j in s.ingresses ==> t.ingresses[j] == s.ingresses[j]
    requires k in s.ingresses ==> !OptsIn(Object(k, s.ingresses[k]))
    requires k in t.ingresses ==> !OptsIn(Object(k, t.ingresses[k]))
    ensures OptedIn(t) == OptedIn(s)
  {
    forall ing ensures ing in OptedIn(t) <==> ing in OptedIn(s) {
      ObjectsMember(s.ingresses, ing);
      ObjectsMember(t.ingresses, ing);
    }
  }

  lemma PutClientKeepsInv(w: World, s: State, k: Key, spec: ClientSpec)
    requires Inv(w, s)
    ensures Inv(w, PutClientStep(s, k, spec))
  {
    var t := PutClientStep(s, k, spec);
    forall a | a in t.authelias && a !in t.dirty ensures SameInputs(s, t, a) {
      if k in s.clients {
        RoutedIffTargeted(Object(k, s.clients[k]), a);
      }
      RoutedIffTargeted(Object(k, t.clients[k]), a);
      TargetingUnchanged(s, t, k, a);
    }
    EditKeepsInv(w, s, t);
  }

  lemma DeleteClientKeepsInv(w: World, s: State, k: Key)
    requires Inv(w, s) && k in s.clients
    ensures Inv(w, DeleteClientStep(s, k))
  {
    var t := DeleteClientStep(s, k);
    forall a | a in t.authelias && a !in t.dirty ensures SameInputs(s, t, a) {
      RoutedIffTargeted(Object(k, s.clients[k]), a);
      TargetingUnchanged(s, t, k, a);
    }
    EditKeepsInv(w, s, t);
  }

  lemma PutIngressKeepsInv(w: World, s: State, k: Key, body: IngressBody)
    requires Inv(w, s) && Admissible(Object(k, body))
    ensures Inv(w, PutIngressStep(s, k, body))
  {
    var t := PutIngressStep(s, k, body);
    forall a | a in t.authelias && a !in t.dirty ensures SameInputs(s, t, a) {
      OptedInUnchanged(s, t, k);
    }
    EditKeepsInv(w, s, t);
  }

  lemma DeleteIngressKeepsInv(w: World, s: State, k: Key)
    requires Inv(w, s) && k in s.ingresses
    ensures Inv(w, DeleteIngressStep(s, k))
  {
    var t := DeleteIngressStep(s, k);
    forall a | a in t.authelias && a !in t.dirty ensures SameInputs(s, t, a) {
      OptedInUnchanged(s, t, k);
    }
    EditKeepsInv(w, s, t);
  }

  lemma AutheliaEditKeepsInv(w: World, s: State, t: State, k: Key)
    requires Inv(w, s) && t == Enqueued(s.(authelias := t.authelias), {k})
    requires forall a :: a != k && a in t.authelias ==> a in s.authelias && t.authelias[a] == s.authelias[a]
    requires k in t.authelias ==> k.name != ""
    ensures Inv(w, t)
  {
    EditKeepsInv(w, s, t);
  }

  lemma DropKeepsSecrets(w: World, s: State, t: State, k: Key)
    requires SecretsPaired(w, s) && t.secrets == s.secrets - {ClientSecretKey(k)}
    ensures SecretsPaired(w, t)
    ensures forall a :: Stored(t.secrets, ManagedSecretKey(a)) == Stored(s.secrets, ManagedSecretKey(a))
  {
    forall a ensures Stored(t.secrets, ManagedSecretKey(a)) == Stored(s.secrets, ManagedSecretKey(a)) {
      NamesInjective(a, k);
    }
    forall j ensures Paired(w.verify, Stored(t.secrets, ClientSecretKey(j))) {
      assert Paired(w.verify, Stored(s.secrets, ClientSecretKey(j)));
    }
  }

  lemma DropKeepsInputs(s: State, t: State, k: Key, a: Key)
    requires WellFormed(s) && k !in s.clients && t == s.(secrets := s.secrets - {ClientSecretKey(k)}) && a in s.authelias
    ensures SameInputs(s, t, a)
  {
    forall c | c in Targeting(s, a) ensures DigestOf(t.secrets, c) == DigestOf(s.secrets, c) {
      NamesInjective(c.key, k);
      assert SecretKeyOf(c) == ClientSecretKey(c.key);
    }
  }

  /** Deleting the Secret of a client that is gone. */
  lemma DropClientSecretKeepsInv(w: World, s: State, k: Key)
    requires Inv(w, s) && k !in s.clients
    ensures Inv(w, s.(secrets := s.secrets - {ClientSecretKey(k)}))
  {
    var t := s.(secrets := s.secrets - {ClientSecretKey(k)});
    DropKeepsSecrets(w, s, t, k);
    forall a | a in t.authelias && a !in t.dirty ensures SameInputs(s, t, a) {
      DropKeepsInputs(s, t, k, a);
    }
    EditKeepsInv(w, s, t);
  }

  // --------------------------------------------------------- client reconcile

  /** Writing a client's Secret never changes a digest that an Authelia may have read. */
  lemma DigestsKept(w: World, s: State, k: Key, draw: Draw, data: SecretData, c: Client)
    requires Inv(w, s) && k in s.clients && GoodDraw(draw)
    requires FillClientSecret(w.hash, Stored(s.secrets, ClientSecretKey(k)), EffectiveID(Object(k, s.clients[k])),
               s.clients[k].spec.public, draw) == Some(data)
    requires c.key in s.clients && s.clients[c.key] == c.body && Confidential(c) && DigestOf(s.secrets, c) != ""
    ensures DigestOf(s.secrets[ClientSecretKey(k) := data], c) == DigestOf(s.secrets, c)
  {
    NamesInjective(c.key, k);
    assert SecretKeyOf(c) == ClientSecretKey(c.key);
    if c.key == k {
      ConfidentialValuesKept(w.hash, Stored(s.secrets, ClientSecretKey(k)), EffectiveID(Object(k, s.clients[k])), draw);
    }
  }

  lemma ClientSecretWriteKeepsSecrets(w: World, s: State, t: State, k: Key, data: SecretData)
    requires SecretsPaired(w, s) && Paired(w.verify, data) && t.secrets == s.secrets[ClientSecretKey(k) := data]
    ensures SecretsPaired(w, t)
    ensures forall a :: Stored(t.secrets, ManagedSecretKey(a)) == Stored(s.secrets, ManagedSecretKey(a))
  {
    forall a ensures Stored(t.secrets, ManagedSecretKey(a)) == Stored(s.secrets, ManagedSecretKey(a)) {
      NamesInjective(a, k);
    }
    forall j ensures Paired(w.verify, Stored(t.secrets, ClientSecretKey(j))) {
      assert Paired(w.verify, Stored(s.secrets, ClientSecretKey(j)));
    }
  }

  lemma ClientReconcileKeepsInputs(w: World, s: State, t: State, k: Key, draw: Draw, data: SecretData, a: Key)
    requires Inv(w, s) && k in s.clients && GoodDraw(draw)
    requires FillClientSecret(w.hash, Stored(s.secrets, ClientSecretKey(k)), EffectiveID(Object(k, s.clients[k])),
               s.clients[k].spec.public, draw) == Some(data)
    requires t.secrets == s.secrets[ClientSecretKey(k) := data]
    requires t.authelias == s.authelias && t.ingresses == s.ingresses && a in s.authelias
    requires Targeting(t, a) == Targeting(s, a)
    ensures SameInputs(s, t, a)
  {
    forall d | d in Targeting(s, a) && Confidential(d) && DigestOf(s.secrets, d) != ""
      ensures DigestOf(t.secrets, d) == DigestOf(s.secrets, d)
    {
      ObjectsMember(s.clients, d);
      DigestsKept(w, s, k, draw, data, d);
    }
  }

  lemma ReconcileClientKeepsInv(w: World, s: State, k: Key, draw: Draw, statusSaved: bool)
    requires Inv(w, s) && GoodDraw(draw)
    ensures Inv(w, ReconcileClientStep(w, s, k, draw, statusSaved))
  {
    var t := ReconcileClientStep(w, s, k, draw, statusSaved);
    if k !in s.clients {
      return;
    }
    var c := Object(k, s.clients[k]);
    var before := Stored(s.secrets, ClientSecretKey(k));
    var filled := FillClientSecret(w.hash, before, EffectiveID(c), c.body.spec.public, draw);
    if filled.None? {
      return;
    }
    assert Paired(w.verify, before);
    PairedAfterReconcile(w.hash, w.verify, before, EffectiveID(c), c.body.spec.public, draw);
    ClientSecretWriteKeepsSecrets(w, s, t, k, filled.value);
    forall a | a in t.authelias && a !in t.dirty ensures SameInputs(s, t, a) {
      if t.clients != s.clients {
        RoutedIffTargeted(c, a);
        TargetingUnchanged(s, t, k, a);
      }
      ClientReconcileKeepsInputs(w, s, t, k, draw, filled.value, a);
    }
    EditKeepsInv(w, s, t);
  }

  // --------------------------------------------------------------- work queue

  lemma RestartKeepsInv(w: World, s: State)
    requires Inv(w, s)
    ensures Inv(w, s.(runs := map[], delayed := {}, dirty := s.authelias.Keys))
  {
    OutputsKept(w, s, s.(runs := map[], delayed := {}, dirty := s.authelias.Keys));
  }

  lemma EnqueueKeepsInv(w: World, s: State, t: State, k: Key)
    requires Inv(w, s) && (t == Enqueued(s, {k}) || t == Enqueued(s.(delayed := s.delayed - {k}), {k}))
    ensures Inv(w, t)
  {
    EditKeepsInv(w, s, t);
  }

  // ------------------------------------------------------- Authelia reconcile

  /** A step that only moves the run of `a` on. */
  lemma RunMovesKeepsInv(w: World, s: State, t: State, a: Key)
    requires Inv(w, s) && t == s.(runs := t.runs, dirty := t.dirty, delayed := t.delayed)
    requires forall b :: b != a ==> (b in t.runs <==> b in s.runs) && (b in s.runs ==> t.runs[b] == s.runs[b])
    requires forall b :: b != a ==> (b in t.dirty <==> b in s.dirty) && (b in t.delayed <==> b in s.delayed)
    requires a in t.runs ==> RunSound(w, t, a, t.runs[a])
    requires a in t.authelias && a !in t.dirty ==> UpToDate(w, t, a)
    ensures Inv(w, t)
  {
    forall b | b != a ensures SameWritten(s, t, b) {
    }
    assert HistorySound(w, s, a);
    if a in s.deployments {
      var snap :| BuiltFrom(w, s, a, snap);
      assert BuiltFrom(w, t, a, snap);
    }
    RunStepKeepsInv(w, s, t, a);
  }

  lemma DequeueKeepsInv(w: World, s: State, a: Key)
    requires Inv(w, s) && a in s.dirty && a !in s.runs
    ensures Inv(w, WithRun(s.(dirty := s.dirty - {a}), a, Popped))
  {
    RunMovesKeepsInv(w, s, WithRun(s.(dirty := s.dirty - {a}), a, Popped), a);
  }

  lemma FetchKeepsInv(w: World, s: State, a: Key)
    requires Inv(w, s) && a in s.runs && s.runs[a].Popped?
    ensures Inv(w, FetchStep(s, a))
  {
    RunMovesKeepsInv(w, s, FetchStep(s, a), a);
  }

  lemma FailKeepsInv(w: World, s: State, a: Key)
    requires Inv(w, s)
    ensures Inv(w, Failed(s, a))
  {
    RunMovesKeepsInv(w, s, Failed(s, a), a);
  }

  lemma ListClientsKeepsInv(w: World, s: State, a: Key, list: seq<Client>)
    requires Inv(w, s) && a in s.runs && s.runs[a].Fetched? && IsListing(list, s.clients)
    ensures Inv(w, WithRun(s, a, Collecting(s.runs[a].spec, [], list)))
  {
    var t := WithRun(s, a, Collecting(s.runs[a].spec, [], list));
    if a in s.authelias && a !in s.dirty {
      assert UpToDate(w, s, a);
      assert Map(ClientOf, []) + list == list;
      FilterOfSet(TargetsOf(a), list, ObjectsOf(s.clients));
      assert Targeting(s, a) == set c | c in ObjectsOf(s.clients) && TargetsOf(a)(c);
    }
    RunMovesKeepsInv(w, s, t, a);
  }

  lemma ReadDigestKeepsInv(w: World, s: State, a: Key)
    requires Inv(w, s) && a in s.runs && s.runs[a].Collecting? && s.runs[a].rest != []
    ensures Inv(w, ReadDigestStep(s, a, s.runs[a]))
  {
    var t := ReadDigestStep(s, a, s.runs[a]);
    var done, rest := s.runs[a].done, s.runs[a].rest;
    var r := Observe(a, s.secrets)(rest[0]);
    if a in s.authelias && a !in s.dirty {
      assert UpToDate(w, s, a);
      MapAppend(ClientOf, done, r);
      assert Map(ClientOf, done + [r]) + rest[1..] == Map(ClientOf, done) + rest;
      assert ReadingsCurrent(t, a, done + [r], rest[1..]);
    }
    RunMovesKeepsInv(w, s, t, a);
  }

  lemma ListIngressesKeepsInv(w: World, s: State, a: Key, ings: seq<Ingress>, ordered: seq<OidcClient>)
    requires Inv(w, s) && a in s.runs && s.runs[a].Collecting? && s.runs[a].rest == [] && IsListing(ings, s.ingresses)
    requires SortedPermutation(IDLess, ordered, Rendered(a, s.runs[a].done))
    ensures Inv(w, WithRun(s, a, Writing(Snapshot(s.runs[a].spec, s.runs[a].done, ordered, ings), AtCoreSecret)))
  {
    var snap := Snapshot(s.runs[a].spec, s.runs[a].done, ordered, ings);
    var t := WithRun(s, a, Writing(snap, AtCoreSecret));
    ListedIsSound(w, s, a, snap);
    if a in s.authelias && a !in s.dirty {
      assert UpToDate(w, s, a);
      ListedIsCurrent(s, t, a, snap);
    }
    RunMovesKeepsInv(w, s, t, a);
  }

  lemma ListedIsSound(w: World, s: State, a: Key, snap: Snapshot)
    requires Inv(w, s) && IsListing(snap.ings, s.ingresses)
    requires SortedPermutation(IDLess, snap.ordered, Rendered(a, snap.readings))
    ensures SnapshotSound(a, snap)
  {
    ListingUniqueKeys(snap.ings, s.ingresses);
    forall ing | ing in snap.ings ensures Admissible(ing) {
      ListingMember(snap.ings, s.ingresses, ing);
    }
  }

  lemma ListedIsCurrent(s: State, t: State, a: Key, snap: Snapshot)
    requires IsListing(snap.ings, s.ingresses) && a in s.authelias && s.authelias[a] == snap.spec
    requires ReadingsCurrent(s, a, snap.readings, [])
    requires t == WithRun(s, a, Writing(snap, AtCoreSecret))
    ensures SnapshotCurrent(t, a, snap)
  {
    FilterOfSet(OptsIn, snap.ings, ObjectsOf(s.ingresses));
    assert OptedIn(s) == set ing | ing in ObjectsOf(s.ingresses) && OptsIn(ing);
  }

  /** A write by the run of `a` leaves what it has read current. */
  lemma StillCurrent(w: World, s: State, t: State, a: Key, stage: Stage)
    requires Inv(w, s) && NextCall(s, a, stage) && OnlyTouches(s, t, a)
    ensures a in s.authelias && a !in s.dirty ==> SnapshotCurrent(t, a, s.runs[a].snap)
  {
    if a in s.authelias && a !in s.dirty {
      assert UpToDate(w, s, a);
      InputsUntouched(s, t, a, a);
      SnapshotStaysCurrent(s, t, a, s.runs[a].snap);
    }
  }

  /** An earlier Deployment of `a` stays sound through a write by the run of `a`. */
  lemma EarlierDeploymentSound(w: World, s: State, t: State, a: Key)
    requires Inv(w, s) && OnlyTouches(s, t, a) && History(s, a) <= History(t, a)
    requires (a in t.deployments <==> a in s.deployments) && (a in s.deployments ==> t.deployments[a] == s.deployments[a])
    ensures a in t.deployments ==> exists snap :: BuiltFrom(w, t, a, snap)
  {
    if a in s.deployments {
      var built :| BuiltFrom(w, s, a, built);
      CoreStaysFilled(s, t, a, a, built.spec);
      assert BuiltFrom(w, t, a, built);
    }
  }

  /** What is left to show for a write that leads to the next call. */
  lemma WriteKeepsInv(w: World, s: State, t: State, a: Key, stage: Stage, next: Stage)
    requires Inv(w, s) && NextCall(s, a, stage) && OnlyTouches(s, t, a)
    requires t.dirty == s.dirty && t.runs == s.runs[a := Writing(s.runs[a].snap, next)]
    requires RunSound(w, t, a, t.runs[a]) && HistorySound(w, t, a)
    requires a in t.deployments ==> exists snap :: BuiltFrom(w, t, a, snap)
    ensures Inv(w, t)
  {
    StillCurrent(w, s, t, a, stage);
    RunStepKeepsInv(w, s, t, a);
  }

  function WithCore(s: State, a: Key, snap: Snapshot, data: SecretData): State {
    WithRun(s.(secrets := s.secrets[ManagedSecretKey(a) := data]), a, Writing(snap, AtConfigMap))
  }

  lemma FilledCoreTouches(s: State, a: Key, snap: Snapshot, data: SecretData)
    requires Keeps(Stored(s.secrets, ManagedSecretKey(a)), data, CORE_KEYS)
    ensures OnlyTouches(s, WithCore(s, a, snap, data), a)
  {
    var t := WithCore(s, a, snap, data);
    assert Stored(t.secrets, ManagedSecretKey(a)) == data;
    forall b | b != a ensures SameWritten(s, t, b) {
    }
  }

  lemma FilledCoreKeepsInv(w: World, s: State, a: Key, data: SecretData)
    requires Inv(w, s) && NextCall(s, a, AtCoreSecret)
    requires Keeps(Stored(s.secrets, ManagedSecretKey(a)), data, CORE_KEYS) && CoreFilled(data)
    ensures Inv(w, WithCore(s, a, s.runs[a].snap, data))
  {
    var snap := s.runs[a].snap;
    var t := WithCore(s, a, snap, data);
    assert RunSound(w, s, a, s.runs[a]) && HistorySound(w, s, a);
    FilledCoreTouches(s, a, snap, data);
    EarlierDeploymentSound(w, s, t, a);
    WriteKeepsInv(w, s, t, a, AtCoreSecret, AtConfigMap);
  }

  lemma SkippedCoreKeepsInv(w: World, s: State, a: Key)
    requires Inv(w, s) && NextCall(s, a, AtCoreSecret) && s.runs[a].snap.spec.existingSecret != ""
    ensures Inv(w, WithRun(s, a, Writing(s.runs[a].snap, AtConfigMap)))
  {
    var snap := s.runs[a].snap;
    var t := WithRun(s, a, Writing(snap, AtConfigMap));
    assert RunSound(w, s, a, s.runs[a]) && HistorySound(w, s, a);
    SkippedCoreTouches(s, a, snap);
    EarlierDeploymentSound(w, s, t, a);
    WriteKeepsInv(w, s, t, a, AtCoreSecret, AtConfigMap);
  }

  lemma WriteCoreSecretKeepsInv(w: World, s: State, a: Key, g: Generators)
    requires Inv(w, s) && NextCall(s, a, AtCoreSecret) && GoodGenerators(g)
    ensures Inv(w, WriteCoreSecretStep(s, a, s.runs[a].snap, g))
  {
    var before := Stored(s.secrets, ManagedSecretKey(a));
    if s.runs[a].snap.spec.existingSecret != "" {
      SkippedCoreKeepsInv(w, s, a);
    } else {
      match FillCoreSecret(before, g)
      case None => FailKeepsInv(w, s, a);
      case Some(data) =>
        FillKeepsAndFills(before, CORE_KEYS, g);
        FilledCoreKeepsInv(w, s, a, data);
    }
  }

  lemma SkippedCoreTouches(s: State, a: Key, snap: Snapshot)
    ensures OnlyTouches(s, WithRun(s, a, Writing(snap, AtConfigMap)), a)
  {
  }

  lemma ConfigMapTouches(w: World, s: State, a: Key, snap: Snapshot)
    ensures OnlyTouches(s, WriteConfigMapStep(w, s, a, snap), a)
  {
    var t := WriteConfigMapStep(w, s, a, snap);
    forall b | b != a ensures SameWritten(s, t, b) {
      assert History(t, b) == History(s, b);
    }
  }

  lemma WrittenHistorySound(w: World, s: State, t: State, a: Key, snap: Snapshot)
    requires HistorySound(w, s, a) && SnapshotSound(a, snap) && t == WriteConfigMapStep(w, s, a, snap)
    ensures HistorySound(w, t, a) && Holds(t, a, snap) && History(s, a) <= History(t, a)
  {
    assert History(t, a) == History(s, a) + [snap];
  }

  lemma WriteConfigMapKeepsInv(w: World, s: State, a: Key)
    requires Inv(w, s) && NextCall(s, a, AtConfigMap)
    ensures Inv(w, WriteConfigMapStep(w, s, a, s.runs[a].snap))
  {
    var t := WriteConfigMapStep(w, s, a, s.runs[a].snap);
    assert RunSound(w, s, a, s.runs[a]) && HistorySound(w, s, a);
    WrittenHistorySound(w, s, t, a, s.runs[a].snap);
    ConfigMapTouches(w, s, a, s.runs[a].snap);
    EarlierDeploymentSound(w, s, t, a);
    WriteKeepsInv(w, s, t, a, AtConfigMap, AtService);
  }

  lemma ServiceTouches(s: State, a: Key, snap: Snapshot)
    ensures OnlyTouches(s, WriteServiceStep(s, a, snap), a)
  {
  }

  lemma WriteServiceKeepsInv(w: World, s: State, a: Key)
    requires Inv(w, s) && NextCall(s, a, AtService)
    ensures Inv(w, WriteServiceStep(s, a, s.runs[a].snap))
  {
    var t := WriteServiceStep(s, a, s.runs[a].snap);
    assert RunSound(w, s, a, s.runs[a]) && HistorySound(w, s, a);
    ServiceTouches(s, a, s.runs[a].snap);
    EarlierDeploymentSound(w, s, t, a);
    WriteKeepsInv(w, s, t, a, AtService, AtDataPVC);
  }

  lemma DataPVCTouches(s: State, a: Key, snap: Snapshot)
    ensures OnlyTouches(s, WriteDataPVCStep(s, a, snap), a) && PVCReady(WriteDataPVCStep(s, a, snap), a, snap.spec)
  {
    var t := WriteDataPVCStep(s, a, snap);
    ClaimTouches(s, t.pvcs, a, Writing(snap, AtDeployment));
  }

  lemma ClaimTouches(s: State, pvcs: map<Key, string>, a: Key, run: Run)
    requires s.pvcs.Keys <= pvcs.Keys
    ensures OnlyTouches(s, WithRun(s.(pvcs := pvcs), a, run), a)
  {
  }

  lemma WriteDataPVCKeepsInv(w: World, s: State, a: Key)
    requires Inv(w, s) && NextCall(s, a, AtDataPVC)
    ensures Inv(w, WriteDataPVCStep(s, a, s.runs[a].snap))
  {
    var t := WriteDataPVCStep(s, a, s.runs[a].snap);
    assert RunSound(w, s, a, s.runs[a]) && HistorySound(w, s, a);
    DataPVCTouches(s, a, s.runs[a].snap);
    EarlierDeploymentSound(w, s, t, a);
    WriteKeepsInv(w, s, t, a, AtDataPVC, AtDeployment);
  }

  lemma DeploymentTouches(w: World, s: State, a: Key, snap: Snapshot)
    ensures OnlyTouches(s, WriteDeploymentStep(w, s, a, snap), a)
  {
  }

  lemma WriteDeploymentKeepsInv(w: World, s: State, a: Key)
    requires Inv(w, s) && NextCall(s, a, AtDeployment)
    ensures Inv(w, WriteDeploymentStep(w, s, a, s.runs[a].snap))
  {
    var snap := s.runs[a].snap;
    var t := WriteDeploymentStep(w, s, a, snap);
    assert RunSound(w, s, a, s.runs[a]) && HistorySound(w, s, a);
    DeploymentTouches(w, s, a, snap);
    assert BuiltFrom(w, t, a, snap);
    WriteKeepsInv(w, s, t, a, AtDeployment, AtStatus);
  }

  lemma StatusTouches(w: World, s: State, a: Key, snap: Snapshot)
    ensures OnlyTouches(s, WriteStatusStep(w, s, a, snap), a)
  {
  }

  lemma WriteStatusKeepsInv(w: World, s: State, a: Key)
    requires Inv(w, s) && NextCall(s, a, AtStatus)
    ensures Inv(w, WriteStatusStep(w, s, a, s.runs[a].snap))
  {
    var snap := s.runs[a].snap;
    var t := WriteStatusStep(w, s, a, snap);
    StatusTouches(w, s, a, snap);
    EarlierDeploymentSound(w, s, t, a);
    if a in s.authelias && a !in s.dirty {
      BeforeStatus(w, s, a);
      StillCurrent(w, s, t, a, AtStatus);
      WrittenStatusSettles(w, s, t, a, snap);
    }
    assert HistorySound(w, t, a) by {
      assert HistorySound(w, s, a);
    }
    RunEndKeepsInv(w, s, t, a);
  }

  lemma RunEndKeepsInv(w: World, s: State, t: State, a: Key)
    requires Inv(w, s) && OnlyTouches(s, t, a) && a !in t.runs && HistorySound(w, t, a)
    requires a in t.deployments ==> exists snap :: BuiltFrom(w, t, a, snap)
    requires a in t.authelias && a !in t.dirty ==> UpToDate(w, t, a)
    ensures Inv(w, t)
  {
    RunStepKeepsInv(w, s, t, a);
  }

  lemma BeforeStatus(w: World, s: State, a: Key)
    requires Inv(w, s) && NextCall(s, a, AtStatus)
    ensures var snap := s.runs[a].snap; Holds(s, a, snap) && Provided(s, a, snap.spec) && Deployed(w, s, a, snap)
  {
    assert RunSound(w, s, a, s.runs[a]);
  }

  lemma WrittenStatusSettles(w: World, s: State, t: State, a: Key, snap: Snapshot)
    requires t == WriteStatusStep(w, s, a, snap) && SnapshotCurrent(t, a, snap)
    requires Holds(s, a, snap) && Provided(s, a, snap.spec) && Deployed(w, s, a, snap)
    ensures UpToDate(w, t, a)
  {
    assert Missing(a, snap.readings) == 0 ==> SettledBy(w, t, a, snap);
  }

  // -------------------------------------------------------------------- runs

  lemma ObjectEditKeepsInv(w: World, s: State, act: Action)
    requires Inv(w, s) && Enabled(s, act) && IsObjectEdit(act)
    ensures Inv(w, Apply(w, s, act))
  {
    match act
    case PutClient(k, spec) => PutClientKeepsInv(w, s, k, spec);
    case DeleteClient(k) => DeleteClientKeepsInv(w, s, k);
    case PutIngress(k, body) => PutIngressKeepsInv(w, s, k, body);
    case DeleteIngress(k) => DeleteIngressKeepsInv(w, s, k);
    case PutAuthelia(k, spec) => AutheliaEditKeepsInv(w, s, PutAutheliaStep(s, k, spec), k);
    case DeleteAuthelia(k) => AutheliaEditKeepsInv(w, s, DeleteAutheliaStep(s, k), k);
  }

  lemma QueueStepKeepsInv(w: World, s: State, act: Action)
    requires Inv(w, s) && Enabled(s, act) && IsQueueStep(act)
    ensures Inv(w, Apply(w, s, act))
  {
    match act
    case Enqueue(k) => EnqueueKeepsInv(w, s, Enqueued(s, {k}), k);
    case TimerFires(k) => EnqueueKeepsInv(w, s, Enqueued(s.(delayed := s.delayed - {k}), {k}), k);
    case Restart => RestartKeepsInv(w, s);
    case Dequeue(a) => DequeueKeepsInv(w, s, a);
    case Fail(a) => FailKeepsInv(w, s, a);
  }

  lemma ReadStepKeepsInv(w: World, s: State, act: Action)
    requires Inv(w, s) && Enabled(s, act) && IsReadStep(act)
    ensures Inv(w, Apply(w, s, act))
  {
    match act
    case Fetch(a) => FetchKeepsInv(w, s, a);
    case ListClients(a, list) => ListClientsKeepsInv(w, s, a, list);
    case ReadDigest(a) => ReadDigestKeepsInv(w, s, a);
    case ListIngresses(a, ings, ordered) => ListIngressesKeepsInv(w, s, a, ings, ordered);
  }

  lemma WriteStepKeepsInv(w: World, s: State, act: Action)
    requires Inv(w, s) && Enabled(s, act) && !IsObjectEdit(act) && !IsQueueStep(act) && !IsReadStep(act)
    ensures Inv(w, Apply(w, s, act))
  {
    match act
    case DropClientSecret(k) => DropClientSecretKeepsInv(w, s, k);
    case ReconcileClient(k, draw, saved) => ReconcileClientKeepsInv(w, s, k, draw, saved);
    case WriteCoreSecret(a, g) => WriteCoreSecretKeepsInv(w, s, a, g);
    case WriteConfigMap(a) => WriteConfigMapKeepsInv(w, s, a);
    case WriteService(a) => WriteServiceKeepsInv(w, s, a);
    case WriteDataPVC(a) => WriteDataPVCKeepsInv(w, s, a);
    case WriteDeployment(a) => WriteDeploymentKeepsInv(w, s, a);
    case WriteStatus(a) => WriteStatusKeepsInv(w, s, a);
  }

  lemma StepKeepsInv(w: World, s: State, act: Action)
    requires Inv(w, s) && Enabled(s, act)
    ensures Inv(w, Apply(w, s, act))
  {
    if IsObjectEdit(act) {
      ObjectEditKeepsInv(w, s, act);
    } else if IsQueueStep(act) {
      QueueStepKeepsInv(w, s, act);
    } else if IsReadStep(act) {
      ReadStepKeepsInv(w, s, act);
    } else {
      WriteStepKeepsInv(w, s, act);
    }
  }

  lemma InitHasInv(w: World, s: State)
    requires HashFits(w.hash, w.verify) && Init(w, s)
    ensures Inv(w, s)
  {
  }

  lemma {:induction false} ExecutionKeepsInv(w: World, s: State, acts: seq<Action>, t: State)
    requires Inv(w, s) && Execution(w, s, acts, t)
    ensures Inv(w, t)
    decreases |acts|
  {
    if acts != [] {
      StepKeepsInv(w, s, acts[0]);
      ExecutionKeepsInv(w, Apply(w, s, acts[0]), acts[1..], t);
    }
  }

  lemma ReachableHasInv(w: World, s: State)
    requires HashFits(w.hash, w.verify) && Reachable(w, s)
    ensures Inv(w, s)
  {
    var s0, acts :| Init(w, s0) && Execution(w, s0, acts, s);
    InitHasInv(w, s0);
    ExecutionKeepsInv(w, s0, acts, s);
  }
}
