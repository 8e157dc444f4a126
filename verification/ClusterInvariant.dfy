/**
 * The invariant of the cluster: every step keeps it. Its core is that what an Authelia reconcile has
 * read stays current until the Authelia is dirty, and that an Authelia nobody will look at again is
 * settled. Client Secrets do not enqueue an Authelia; for them it is the write-once digest and the
 * delayed retry of an Authelia with missing digests that carry the invariant.
 */
module ClusterInvariant {
  import opened Sequences
  import opened Ordering
  import opened Objects
  import opened Settings
  import opened AccessRules
  import opened Clients
  import opened Digest
  import opened ClientSecret
  import opened CoreSecret
  import opened PodWiring
  import opened Cluster

  // ------------------------------------------------------- objects are well formed

  ghost predicate WellFormed(s: State) {
    && (forall k :: k in s.clients ==> s.clients[k].secretName in {"", OAuthSecretName(k.name)})
    && (forall k :: k in s.ingresses ==> Admissible(Object(k, s.ingresses[k])))
    && (forall a :: a in s.authelias ==> a.name != "")
  }

  ghost predicate SecretsPaired(w: World, s: State) {
    forall k :: Paired(w.verify, Stored(s.secrets, ClientSecretKey(k)))
  }

  // ------------------------------------------------------------- what is written

  ghost predicate SnapshotSound(a: Key, snap: Snapshot) {
    && SortedPermutation(IDLess, snap.ordered, Rendered(a, snap.readings))
    && UniqueKeys(snap.ings)
    && forall ing :: ing in snap.ings ==> Admissible(ing)
  }

  ghost predicate CoreReady(s: State, a: Key, spec: AutheliaSpec) {
    spec.existingSecret == "" ==> CoreFilled(Stored(s.secrets, ManagedSecretKey(a)))
  }

  ghost predicate PVCReady(s: State, a: Key, spec: AutheliaSpec) {
    spec.volumeClaimTemplate.Some? ==> PVCKey(a) in s.pvcs
  }

  /** The ConfigMap holds the configuration of this snapshot. */
  ghost predicate Holds(s: State, a: Key, snap: Snapshot) {
    History(s, a) != [] && History(s, a)[|History(s, a)| - 1] == snap
  }

  ghost predicate Deployed(w: World, s: State, a: Key, snap: Snapshot) {
    a in s.deployments && s.deployments[a] == w.deployment(a, snap)
  }

  /** What a Deployment needs besides its ConfigMap is there. */
  ghost predicate Provided(s: State, a: Key, spec: AutheliaSpec) {
    CoreReady(s, a, spec) && a in s.services && PVCReady(s, a, spec)
  }

  /** A reconcile has done what comes before its next call. */
  ghost predicate RunSound(w: World, s: State, a: Key, run: Run) {
    run.Writing? ==>
      && SnapshotSound(a, run.snap)
      && (Rank(run.stage) > Rank(AtCoreSecret) ==> CoreReady(s, a, run.snap.spec))
      && (Rank(run.stage) > Rank(AtConfigMap) ==> Holds(s, a, run.snap))
      && (Rank(run.stage) > Rank(AtService) ==> a in s.services)
      && (Rank(run.stage) > Rank(AtDataPVC) ==> PVCReady(s, a, run.snap.spec))
      && (Rank(run.stage) > Rank(AtDeployment) ==> Deployed(w, s, a, run.snap))
  }

  ghost predicate RunsSound(w: World, s: State) {
    forall a :: a in s.runs ==> RunSound(w, s, a, s.runs[a])
  }

  ghost predicate HistorySound(w: World, s: State, a: Key) {
    && (forall snap :: snap in History(s, a) ==> SnapshotSound(a, snap))
    && (History(s, a) != [] ==>
          ConfigMapKey(a) in s.configMaps &&
          s.configMaps[ConfigMapKey(a)] == w.config(History(s, a)[|History(s, a)| - 1]))
  }

  ghost predicate HistoriesSound(w: World, s: State) {
    forall a :: HistorySound(w, s, a)
  }

  /** A Deployment was built from a snapshot whose configuration the ConfigMap has held, and what it refers to exists. */
  ghost predicate BuiltFrom(w: World, s: State, a: Key, snap: Snapshot) {
    snap in History(s, a) && Deployed(w, s, a, snap) && CoreReady(s, a, snap.spec) && PVCReady(s, a, snap.spec)
  }

  ghost predicate DeploymentsSound(w: World, s: State) {
    forall a :: a in s.deployments ==> exists snap :: BuiltFrom(w, s, a, snap)
  }

  // ------------------------------------------------------------- what is current

  function TargetsOf(a: Key): Client -> bool { c => Targets(c, a) }

  function ClientOf(r: Reading): Client { r.client }

  ghost function Targeting(s: State, a: Key): set<Client> {
    set c | c in ObjectsOf(s.clients) && Targets(c, a)
  }

  ghost function OptedIn(s: State): set<Ingress> {
    set ing | ing in ObjectsOf(s.ingresses) && OptsIn(ing)
  }

  /**
   * The clients read and still to be read are those that target `a` now, and a digest that was found
   * is still the one to be found. A digest that was missing may have been written since.
   */
  ghost predicate ReadingsCurrent(s: State, a: Key, done: seq<Reading>, rest: seq<Client>) {
    && multiset(Filter(TargetsOf(a), Map(ClientOf, done) + rest)) == multiset(Targeting(s, a))
    && forall r :: r in done && NeedsDigest(r.client, a) && r.digest != "" ==> r.digest == DigestOf(s.secrets, r.client)
  }

  ghost predicate SnapshotCurrent(s: State, a: Key, snap: Snapshot) {
    && a in s.authelias && s.authelias[a] == snap.spec
    && ReadingsCurrent(s, a, snap.readings, [])
    && multiset(Filter(OptsIn, snap.ings)) == multiset(OptedIn(s))
  }

  ghost predicate RunCurrent(s: State, a: Key, run: Run) {
    match run
    case Popped => true
    case Fetched(spec) => a in s.authelias && s.authelias[a] == spec
    case Collecting(spec, done, rest) => a in s.authelias && s.authelias[a] == spec && ReadingsCurrent(s, a, done, rest)
    case Writing(snap, _) => SnapshotCurrent(s, a, snap)
  }

  /** Nothing is left to do for `a`. */
  ghost predicate SettledBy(w: World, s: State, a: Key, snap: Snapshot) {
    && Holds(s, a, snap)
    && SnapshotCurrent(s, a, snap)
    && Missing(a, snap.readings) == 0
    && Provided(s, a, snap.spec)
    && Deployed(w, s, a, snap)
    && a in s.statuses && s.statuses[a] == w.status(a, snap)
  }

  ghost predicate UpToDate(w: World, s: State, a: Key) {
    if a in s.runs then RunCurrent(s, a, s.runs[a])
    else a in s.delayed || exists snap :: SettledBy(w, s, a, snap)
  }

  ghost predicate AllUpToDate(w: World, s: State) {
    forall a :: a in s.authelias && a !in s.dirty ==> UpToDate(w, s, a)
  }

  ghost predicate Outputs(w: World, s: State) {
    RunsSound(w, s) && HistoriesSound(w, s) && DeploymentsSound(w, s)
  }

  ghost predicate Inv(w: World, s: State) {
    HashFits(w.hash, w.verify) && WellFormed(s) && SecretsPaired(w, s) && Outputs(w, s) && AllUpToDate(w, s)
  }

  // ------------------------------------------------ edits leave outputs alone

  lemma NamesInjective(a: Key, b: Key)
    ensures ConfigMapKey(a) == ConfigMapKey(b) ==> a == b
    ensures PVCKey(a) == PVCKey(b) ==> a == b
    ensures ManagedSecretKey(a) == ManagedSecretKey(b) ==> a == b
    ensures ClientSecretKey(a) == ClientSecretKey(b) ==> a == b
    ensures ManagedSecretKey(a) != ClientSecretKey(b)
  {
    assert ConfigMapName(a)[..|a.name|] == a.name && ConfigMapName(b)[..|b.name|] == b.name;
    assert DataPVCName(a)[..|a.name|] == a.name && DataPVCName(b)[..|b.name|] == b.name;
    SecretNamesInjective(a.name, b.name);
    SecretNamesDisjoint(a.name, b.name);
  }

  /** `t` has the outputs of `s`, and no more runs. */
  ghost predicate SameOutputs(s: State, t: State) {
    && t.configMaps == s.configMaps && t.written == s.written && t.deployments == s.deployments
    && t.services == s.services && t.pvcs == s.pvcs && t.statuses == s.statuses
    && (forall a :: a in t.runs ==> a in s.runs && t.runs[a] == s.runs[a])
    && (forall a :: Stored(t.secrets, ManagedSecretKey(a)) == Stored(s.secrets, ManagedSecretKey(a)))
  }

  lemma OutputsKept(w: World, s: State, t: State)
    requires Outputs(w, s) && SameOutputs(s, t)
    ensures Outputs(w, t)
  {
    assert forall a :: History(t, a) == History(s, a);
    forall a | a in t.runs ensures RunSound(w, t, a, t.runs[a]) {
      assert RunSound(w, s, a, s.runs[a]);
    }
    forall a ensures HistorySound(w, t, a) {
      assert HistorySound(w, s, a);
    }
    forall a | a in t.deployments ensures exists snap :: BuiltFrom(w, t, a, snap) {
      var snap :| BuiltFrom(w, s, a, snap);
      assert BuiltFrom(w, t, a, snap);
    }
  }

  /** Nothing an Authelia reconcile of `a` reads has changed, but for digests that were missing. */
  ghost predicate SameInputs(s: State, t: State, a: Key) {
    && a in s.authelias && a in t.authelias && t.authelias[a] == s.authelias[a]
    && Targeting(t, a) == Targeting(s, a)
    && OptedIn(t) == OptedIn(s)
    && forall c :: c in Targeting(s, a) && Confidential(c) && DigestOf(s.secrets, c) != "" ==>
         DigestOf(t.secrets, c) == DigestOf(s.secrets, c)
  }

  lemma ReadingsStayCurrent(s: State, t: State, a: Key, done: seq<Reading>, rest: seq<Client>)
    requires SameInputs(s, t, a) && ReadingsCurrent(s, a, done, rest)
    ensures ReadingsCurrent(t, a, done, rest)
  {
    forall r | r in done && NeedsDigest(r.client, a) && r.digest != "" ensures r.digest == DigestOf(t.secrets, r.client) {
      var list := Map(ClientOf, done) + rest;
      var i :| 0 <= i < |done| && done[i] == r;
      assert list[i] == r.client && r.client in list;
      FilterMember(TargetsOf(a), list, r.client);
      assert r.client in multiset(Targeting(s, a));
    }
  }

  /** What has been written for `a` is as before. */
  ghost predicate SameWritten(s: State, t: State, a: Key) {
    && History(t, a) == History(s, a)
    && (a in t.deployments <==> a in s.deployments) && (a in s.deployments ==> t.deployments[a] == s.deployments[a])
    && (a in t.statuses <==> a in s.statuses) && (a in s.statuses ==> t.statuses[a] == s.statuses[a])
    && (a in t.runs <==> a in s.runs) && (a in s.runs ==> t.runs[a] == s.runs[a])
  }

  /** Nothing that `a` needs has gone away. */
  ghost predicate NothingLost(s: State, t: State, a: Key) {
    && (CoreFilled(Stored(s.secrets, ManagedSecretKey(a))) ==> CoreFilled(Stored(t.secrets, ManagedSecretKey(a))))
    && (a in s.services ==> a in t.services)
    && (PVCKey(a) in s.pvcs ==> PVCKey(a) in t.pvcs)
  }

  lemma SnapshotStaysCurrent(s: State, t: State, a: Key, snap: Snapshot)
    requires SameInputs(s, t, a) && SnapshotCurrent(s, a, snap)
    ensures SnapshotCurrent(t, a, snap)
  {
    ReadingsStayCurrent(s, t, a, snap.readings, []);
  }

  lemma StaysUpToDate(w: World, s: State, t: State, a: Key)
    requires SameInputs(s, t, a) && SameWritten(s, t, a) && NothingLost(s, t, a) && UpToDate(w, s, a)
    requires a in s.delayed ==> a in t.delayed
    ensures UpToDate(w, t, a)
  {
    if a in s.runs {
      match s.runs[a]
      case Popped =>
      case Fetched(_) =>
      case Collecting(_, done, rest) => ReadingsStayCurrent(s, t, a, done, rest);
      case Writing(snap, _) => SnapshotStaysCurrent(s, t, a, snap);
    } else if a !in s.delayed {
      var snap :| SettledBy(w, s, a, snap);
      SnapshotStaysCurrent(s, t, a, snap);
      assert SettledBy(w, t, a, snap);
    }
  }

  // ---------------------------------------------------------- two kinds of steps

  /** An edit keeps the invariant if it enqueues every Authelia whose inputs it changes. */
  lemma EditKeepsInv(w: World, s: State, t: State)
    requires Inv(w, s) && SameOutputs(s, t) && t.runs == s.runs
    requires WellFormed(t) && SecretsPaired(w, t)
    requires s.dirty <= t.dirty && s.delayed <= t.delayed + t.dirty
    requires forall a :: a in t.authelias && a !in t.dirty ==> SameInputs(s, t, a)
    ensures Inv(w, t)
  {
    OutputsKept(w, s, t);
    forall a | a in t.authelias && a !in t.dirty ensures UpToDate(w, t, a) {
      assert UpToDate(w, s, a);
      StaysUpToDate(w, s, t, a);
    }
  }

  /** A step of the reconcile of `a`: it may add a core Secret, a ConfigMap and a claim of its own. */
  ghost predicate OnlyTouches(s: State, t: State, a: Key) {
    && t.clients == s.clients && t.ingresses == s.ingresses && t.authelias == s.authelias
    && (forall k :: k != ManagedSecretKey(a) ==> Stored(t.secrets, k) == Stored(s.secrets, k))
    && Keeps(Stored(s.secrets, ManagedSecretKey(a)), Stored(t.secrets, ManagedSecretKey(a)), CORE_KEYS)
    && (forall k :: k != ConfigMapKey(a) && k in s.configMaps ==> k in t.configMaps && t.configMaps[k] == s.configMaps[k])
    && s.services <= t.services && s.pvcs.Keys <= t.pvcs.Keys
    && (forall b :: b != a ==> SameWritten(s, t, b) && (b in s.dirty ==> b in t.dirty) && (b in s.delayed ==> b in t.delayed))
  }

  ghost predicate OwnInv(w: World, s: State, a: Key) {
    && (a in s.runs ==> RunSound(w, s, a, s.runs[a]))
    && HistorySound(w, s, a)
    && (a in s.deployments ==> exists snap :: BuiltFrom(w, s, a, snap))
    && (a in s.authelias && a !in s.dirty ==> UpToDate(w, s, a))
  }

  lemma NothingIsLost(s: State, t: State, a: Key, b: Key)
    requires OnlyTouches(s, t, a)
    ensures NothingLost(s, t, b)
  {
    var before, after := Stored(s.secrets, ManagedSecretKey(b)), Stored(t.secrets, ManagedSecretKey(b));
    if CoreFilled(before) && ManagedSecretKey(b) == ManagedSecretKey(a) {
      forall k | k in CORE_KEYS ensures DataAt(after, k) != "" {
        assert DataAt(before, k) != "";
      }
    }
  }

  lemma CoreStaysFilled(s: State, t: State, a: Key, b: Key, spec: AutheliaSpec)
    requires OnlyTouches(s, t, a) && CoreReady(s, b, spec)
    ensures CoreReady(t, b, spec)
  {
    NothingIsLost(s, t, a, b);
  }

  lemma InputsUntouched(s: State, t: State, a: Key, b: Key)
    requires OnlyTouches(s, t, a) && WellFormed(s) && b in s.authelias
    ensures SameInputs(s, t, b)
  {
    forall c | c in Targeting(s, b) ensures DigestOf(t.secrets, c) == DigestOf(s.secrets, c) {
      NamesInjective(a, c.key);
      assert SecretKeyOf(c) == ClientSecretKey(c.key);
    }
  }

  lemma OtherDeploymentKept(w: World, s: State, t: State, a: Key, b: Key)
    requires Inv(w, s) && OnlyTouches(s, t, a) && b != a
    ensures b in t.deployments ==> exists snap :: BuiltFrom(w, t, b, snap)
  {
    NamesInjective(a, b);
    assert SameWritten(s, t, b);
    if b in s.deployments {
      var snap :| BuiltFrom(w, s, b, snap);
      CoreStaysFilled(s, t, a, b, snap.spec);
      assert BuiltFrom(w, t, b, snap);
    }
  }

  lemma OtherRunKept(w: World, s: State, t: State, a: Key, b: Key)
    requires OnlyTouches(s, t, a) && b != a && b in s.runs && RunSound(w, s, b, s.runs[b])
    ensures b in t.runs && RunSound(w, t, b, t.runs[b])
  {
    NothingIsLost(s, t, a, b);
    assert SameWritten(s, t, b);
  }

  lemma OthersKept(w: World, s: State, t: State, a: Key, b: Key)
    requires Inv(w, s) && OnlyTouches(s, t, a) && b != a
    ensures OwnInv(w, t, b)
  {
    NamesInjective(a, b);
    assert SameWritten(s, t, b) && HistorySound(w, s, b);
    if b in s.runs {
      assert RunSound(w, s, b, s.runs[b]);
      OtherRunKept(w, s, t, a, b);
    }
    OtherDeploymentKept(w, s, t, a, b);
    if b in t.authelias && b !in t.dirty {
      InputsUntouched(s, t, a, b);
      NothingIsLost(s, t, a, b);
      assert UpToDate(w, s, b);
      StaysUpToDate(w, s, t, b);
    }
  }

  lemma RunStepKeepsInv(w: World, s: State, t: State, a: Key)
    requires Inv(w, s) && OnlyTouches(s, t, a) && OwnInv(w, t, a)
    ensures Inv(w, t)
  {
    forall b ensures OwnInv(w, t, b) {
      if b != a {
        OthersKept(w, s, t, a, b);
      }
    }
    OwnInvsSuffice(w, t);
    forall k ensures Paired(w.verify, Stored(t.secrets, ClientSecretKey(k))) {
      NamesInjective(a, k);
      assert Paired(w.verify, Stored(s.secrets, ClientSecretKey(k)));
    }
  }

  lemma OwnInvsSuffice(w: World, t: State)
    requires forall b :: OwnInv(w, t, b)
    ensures Outputs(w, t) && AllUpToDate(w, t)
  {
    forall b | b in t.runs ensures RunSound(w, t, b, t.runs[b]) { assert OwnInv(w, t, b); }
    forall b ensures HistorySound(w, t, b) { assert OwnInv(w, t, b); }
    forall b | b in t.deployments ensures exists snap :: BuiltFrom(w, t, b, snap) { assert OwnInv(w, t, b); }
    forall b | b in t.authelias && b !in t.dirty ensures UpToDate(w, t, b) { assert OwnInv(w, t, b); }
  }
}
