/**
 * What the invariant means: an idle Authelia has converged on the current objects, whatever order
 * they are listed in.
 */
module Convergence {
  import opened Sequences
  import opened Ordering
  import opened JsonTree
  import opened Objects
  import opened AccessRules
  import opened FirstMatch
  import opened Clients
  import opened Render
  import opened Digest
  import opened VolumeNames
  import opened PodWiring
  import opened Cluster
  import opened ClusterInvariant
  import opened ClusterSteps
  import opened Operator

  /** Neither queued nor dirty, under way, or due for a retry. */
  predicate Idle(s: State, a: Key) {
    a !in s.dirty && a !in s.runs && a !in s.delayed
  }

  /** The listed clients with the digests found now. */
  function ReadNow(s: State, a: Key, list: seq<Client>): seq<Reading> {
    Map(Observe(a, s.secrets), list)
  }

  function EntryNow(s: State, a: Key): Client -> seq<OidcClient> {
    c => Entry(a)(Observe(a, s.secrets)(c))
  }

  lemma ReadingIsEntryNow(s: State, a: Key, r: Reading)
    requires NeedsDigest(r.client, a) && r.digest != "" ==> r.digest == DigestOf(s.secrets, r.client)
    requires !IsPending(r, a)
    ensures Entry(a)(r) == EntryNow(s, a)(r.client)
  {
    var now := Observe(a, s.secrets)(r.client);
    assert now.client == r.client && EntryNow(s, a)(r.client) == Entry(a)(now);
    assert IsReady(r, a) ==> IsReady(now, a) && OidcClientOf(now) == OidcClientOf(r);
    assert !IsReady(r, a) ==> !IsReady(now, a);
  }

  lemma ForeignEntryNow(s: State, a: Key, c: Client)
    requires !Targets(c, a)
    ensures EntryNow(s, a)(c) == []
  {
    var now := Observe(a, s.secrets)(c);
    assert now.client == c && !IsReady(now, a) && EntryNow(s, a)(c) == Entry(a)(now);
  }

  lemma NoneMissing(a: Key, readings: seq<Reading>, r: Reading)
    requires Missing(a, readings) == 0 && r in readings
    ensures !IsPending(r, a)
  {
    FilterMember(Pending(a), readings, r);
  }

  /** With no digest missing, what was read is what would be read now, up to order. */
  lemma RenderedNow(s: State, a: Key, readings: seq<Reading>, list: seq<Client>)
    requires ReadingsCurrent(s, a, readings, []) && Missing(a, readings) == 0 && IsListing(list, s.clients)
    ensures multiset(Rendered(a, readings)) == multiset(Rendered(a, ReadNow(s, a, list)))
  {
    var read := Map(ClientOf, readings);
    ReadEntries(s, a, readings);
    ListedEntries(s, a, list);
    TargetedEntries(s, a, read);
    TargetedEntries(s, a, list);
    TargetingListed(s, a, list);
    assert read + [] == read;
    FlatMapPermutation(EntryNow(s, a), Filter(TargetsOf(a), read), Filter(TargetsOf(a), list));
  }

  lemma ReadEntries(s: State, a: Key, readings: seq<Reading>)
    requires ReadingsCurrent(s, a, readings, []) && Missing(a, readings) == 0
    ensures Rendered(a, readings) == FlatMap(EntryNow(s, a), Map(ClientOf, readings))
  {
    forall r | r in readings ensures Entry(a)(r) == EntryNow(s, a)(ClientOf(r)) {
      NoneMissing(a, readings, r);
      ReadingIsEntryNow(s, a, r);
    }
    FlatMapOfMap(ClientOf, EntryNow(s, a), Entry(a), readings);
  }

  lemma ListedEntries(s: State, a: Key, list: seq<Client>)
    ensures Rendered(a, ReadNow(s, a, list)) == FlatMap(EntryNow(s, a), list)
  {
    FlatMapOfMap(Observe(a, s.secrets), Entry(a), EntryNow(s, a), list);
  }

  lemma TargetingListed(s: State, a: Key, list: seq<Client>)
    requires IsListing(list, s.clients)
    ensures multiset(Filter(TargetsOf(a), list)) == multiset(Targeting(s, a))
  {
    FilterOfSet(TargetsOf(a), list, ObjectsOf(s.clients));
    assert Targeting(s, a) == set c | c in ObjectsOf(s.clients) && TargetsOf(a)(c);
  }

  lemma OptedInListed(s: State, ings: seq<Ingress>)
    requires IsListing(ings, s.ingresses)
    ensures multiset(Filter(OptsIn, ings)) == multiset(OptedIn(s))
  {
    FilterOfSet(OptsIn, ings, ObjectsOf(s.ingresses));
    assert OptedIn(s) == set ing | ing in ObjectsOf(s.ingresses) && OptsIn(ing);
  }

  lemma TargetedEntries(s: State, a: Key, list: seq<Client>)
    ensures FlatMap(EntryNow(s, a), Filter(TargetsOf(a), list)) == FlatMap(EntryNow(s, a), list)
  {
    forall c | c in list && !TargetsOf(a)(c) ensures EntryNow(s, a)(c) == [] {
      ForeignEntryNow(s, a, c);
    }
    FlatMapFilter(EntryNow(s, a), TargetsOf(a), list);
  }

  lemma NoneMissingNow(s: State, a: Key, readings: seq<Reading>, c: Client)
    requires ReadingsCurrent(s, a, readings, []) && Missing(a, readings) == 0
    requires c in ObjectsOf(s.clients) && NeedsDigest(c, a)
    ensures DigestOf(s.secrets, c) != ""
  {
    var read := Map(ClientOf, readings);
    assert read + [] == read;
    assert c in Targeting(s, a) && c in multiset(Targeting(s, a));
    FilterMember(TargetsOf(a), read, c);
    assert c in Filter(TargetsOf(a), read);
    var i :| 0 <= i < |read| && read[i] == c;
    assert readings[i] in readings && readings[i].client == c;
    NoneMissing(a, readings, readings[i]);
  }

  /** The configuration of `a` for the objects there are now; `ordered` is one outcome of its sort. */
  ghost function ConfigNow(s: State, a: Key, ordered: seq<OidcClient>, ings: seq<Ingress>): JsonObject
    requires a in s.authelias
  {
    RenderTree(s.authelias[a].settings, ordered, RuleJsons(Compile(ings)), s.authelias[a].hostname)
  }

  /**
   * Everything the operator keeps for `a` fits the objects there are now: ConfigMap, Deployment and
   * status are theirs, core Secret, Service and claim are there, and no digest is missing.
   */
  ghost predicate Converged(sha: Checksum, s: State, a: Key, list: seq<Client>, ings: seq<Ingress>, ordered: seq<OidcClient>) {
    && a in s.authelias
    && SortedPermutation(IDLess, ordered, Rendered(a, ReadNow(s, a, list)))
    && ConfigMapKey(a) in s.configMaps && s.configMaps[ConfigMapKey(a)] == ConfigNow(s, a, ordered, ings)
    && a in s.deployments && s.deployments[a] ==
         DeploymentOf(a, s.authelias[a], ordered != [], sha(s.configMaps[ConfigMapKey(a)]))
    && a in s.statuses && s.statuses[a] == Status(Map(IDOf, ordered), FlatMap(RuleDomains, Compile(ings)))
    && Provided(s, a, s.authelias[a])
    && forall c :: c in list && NeedsDigest(c, a) ==> DigestOf(s.secrets, c) != ""
  }

  lemma SettledConverged(kdf: Kdf, sha: Checksum, s: State, a: Key, snap: Snapshot, list: seq<Client>, ings: seq<Ingress>)
    requires Inv(OperatorWorld(kdf, sha), s) && SettledBy(OperatorWorld(kdf, sha), s, a, snap)
    requires IsListing(list, s.clients) && IsListing(ings, s.ingresses)
    ensures Converged(sha, s, a, list, ings, snap.ordered)
  {
    SettledHolds(OperatorWorld(kdf, sha), s, a, snap);
    SettledOrder(s, a, snap, list);
    OptedInListed(s, ings);
    SnapshotFits(sha, s, a, snap, ings);
    NoneMissingListed(s, a, snap.readings, list);
  }

  lemma SettledHolds(w: World, s: State, a: Key, snap: Snapshot)
    requires Inv(w, s) && SettledBy(w, s, a, snap)
    ensures SnapshotSound(a, snap)
    ensures ConfigMapKey(a) in s.configMaps && s.configMaps[ConfigMapKey(a)] == w.config(snap)
  {
    assert HistorySound(w, s, a);
  }

  lemma SettledOrder(s: State, a: Key, snap: Snapshot, list: seq<Client>)
    requires SnapshotSound(a, snap) && ReadingsCurrent(s, a, snap.readings, []) && Missing(a, snap.readings) == 0
    requires IsListing(list, s.clients)
    ensures SortedPermutation(IDLess, snap.ordered, Rendered(a, ReadNow(s, a, list)))
  {
    RenderedNow(s, a, snap.readings, list);
  }

  lemma NoneMissingListed(s: State, a: Key, readings: seq<Reading>, list: seq<Client>)
    requires ReadingsCurrent(s, a, readings, []) && Missing(a, readings) == 0 && IsListing(list, s.clients)
    ensures forall c :: c in list && NeedsDigest(c, a) ==> DigestOf(s.secrets, c) != ""
  {
    forall c | c in list && NeedsDigest(c, a) ensures DigestOf(s.secrets, c) != "" {
      ListingMember(list, s.clients, c);
      ObjectsMember(s.clients, c);
      NoneMissingNow(s, a, readings, c);
    }
  }

  lemma SomeOrdered(a: Key, snap: Snapshot)
    requires SnapshotSound(a, snap)
    ensures snap.ordered != [] <==> Rendered(a, snap.readings) != []
  {
    PermutationMember(snap.ordered, Rendered(a, snap.readings));
  }

  /** What was written for a snapshot, said in terms of the Ingresses there are now. */
  lemma SnapshotFits(sha: Checksum, s: State, a: Key, snap: Snapshot, ings: seq<Ingress>)
    requires SnapshotSound(a, snap) && a in s.authelias && s.authelias[a] == snap.spec
    requires multiset(Filter(OptsIn, snap.ings)) == multiset(Filter(OptsIn, ings))
    ensures ConfigOf(snap) == ConfigNow(s, a, snap.ordered, ings)
    ensures DeploymentFor(sha, a, snap) ==
      DeploymentOf(a, s.authelias[a], snap.ordered != [], sha(ConfigNow(s, a, snap.ordered, ings)))
    ensures StatusFor(a, snap) == Status(Map(IDOf, snap.ordered), FlatMap(RuleDomains, Compile(ings)))
  {
    CompileDependsOnOptedIn(snap.ings, ings);
    StatusInOrder(a, snap);
    SomeOrdered(a, snap);
  }

  /**
   * Idle implies converged, over every interleaving: the ConfigMap is the rendering of the current
   * spec, clients, digests and Ingresses, the Deployment carries its checksum, the status agrees with
   * it, and no client lacks a digest.
   */
  lemma IdleImpliesConverged(kdf: Kdf, sha: Checksum, s: State, a: Key, list: seq<Client>, ings: seq<Ingress>)
    returns (ordered: seq<OidcClient>)
    requires Reachable(OperatorWorld(kdf, sha), s) && a in s.authelias && Idle(s, a)
    requires IsListing(list, s.clients) && IsListing(ings, s.ingresses)
    ensures Converged(sha, s, a, list, ings, ordered)
  {
    var w := OperatorWorld(kdf, sha);
    HashVerifies(kdf);
    ReachableHasInv(w, s);
    assert UpToDate(w, s, a);
    var snap :| SettledBy(w, s, a, snap);
    SettledConverged(kdf, sha, s, a, snap, list, ings);
    ordered := snap.ordered;
  }

  /** If no two clients of an ID render differently, the ConfigMap is one function of the current objects. */
  lemma IdleConfigIsDetermined(kdf: Kdf, sha: Checksum, s: State, a: Key, list: seq<Client>, ings: seq<Ingress>)
    requires Reachable(OperatorWorld(kdf, sha), s) && a in s.authelias && Idle(s, a)
    requires IsListing(list, s.clients) && IsListing(ings, s.ingresses)
    requires EntriesAgreeOnIDs(Rendered(a, ReadNow(s, a, list)))
    ensures ConfigMapKey(a) in s.configMaps
    ensures s.configMaps[ConfigMapKey(a)] == ConfigNow(s, a, Sort(IDLess, Rendered(a, ReadNow(s, a, list))), ings)
  {
    var ordered := IdleImpliesConverged(kdf, sha, s, a, list, ings);
    var clients := Rendered(a, ReadNow(s, a, list));
    IDLessIsOrder();
    SortIsSortedPermutation(IDLess, clients);
    SameEntries(clients, ordered, Sort(IDLess, clients));
    RenderDependsOnEntries(s.authelias[a].settings, ordered, Sort(IDLess, clients), RuleJsons(Compile(ings)), s.authelias[a].hostname);
  }

  // -------------------------------------------------- end to end, when idle

  /**
   * What an idle Authelia decides for a request: the policy of the winning rule among those of the
   * Ingresses there are now, else what its additionalConfig decides.
   */
  lemma IdleDecision(kdf: Kdf, sha: Checksum, s: State, a: Key, ings: seq<Ingress>, p: Matcher)
    requires Reachable(OperatorWorld(kdf, sha), s) && a in s.authelias && Idle(s, a) && IsListing(ings, s.ingresses)
    ensures ConfigMapKey(a) in s.configMaps
    ensures var d := Decide(s.configMaps[ConfigMapKey(a)], p);
      && (forall i :: Wins(p, Collected(ings), i) ==> d == ByRule(PolicyOf(RuleJson(Collected(ings)[i]))))
      && ((forall i :: !Wins(p, Collected(ings), i)) ==> d == Decide(s.authelias[a].settings.additionalConfig, p))
  {
    var list := SomeListing(s.clients);
    var ordered := IdleImpliesConverged(kdf, sha, s, a, list, ings);
    var spec := s.authelias[a];
    RenderedDecision(p, spec.settings, ordered, ings, spec.hostname);
  }

  /**
   * Two reachable states in which an Authelia with one additionalConfig is idle decide a request alike
   * when the Ingresses that differ have no rule that matches it.
   */
  lemma IdleNonInterference(kdf: Kdf, sha: Checksum, s: State, t: State, a: Key, p: Matcher)
    requires Reachable(OperatorWorld(kdf, sha), s) && a in s.authelias && Idle(s, a)
    requires Reachable(OperatorWorld(kdf, sha), t) && a in t.authelias && Idle(t, a)
    requires s.authelias[a].settings.additionalConfig == t.authelias[a].settings.additionalConfig
    requires DifferSilently(p, s.ingresses, t.ingresses)
    ensures ConfigMapKey(a) in s.configMaps && ConfigMapKey(a) in t.configMaps
    ensures Decide(s.configMaps[ConfigMapKey(a)], p) == Decide(t.configMaps[ConfigMapKey(a)], p)
  {
    var w := OperatorWorld(kdf, sha);
    HashVerifies(kdf);
    ReachableHasInv(w, s);
    var ings, ings' := SomeListing(s.ingresses), SomeListing(t.ingresses);
    var x := IdleImpliesConverged(kdf, sha, s, a, SomeListing(s.clients), ings);
    var y := IdleImpliesConverged(kdf, sha, t, a, SomeListing(t.clients), ings');
    RenderedSilentChanges(p, s.authelias[a].settings, s.authelias[a].hostname, x,
      t.authelias[a].settings, t.authelias[a].hostname, y, s.ingresses, ings, t.ingresses, ings');
  }

  /**
   * The files an idle Authelia names, in its environment and in the ConfigMap there is now, lead through
   * the Deployment there is now to the Secrets and keys of its spec.
   */
  lemma IdlePathsLeadHome(kdf: Kdf, sha: Checksum, s: State, a: Key, list: seq<Client>, name: string)
    requires Reachable(OperatorWorld(kdf, sha), s) && a in s.authelias && Idle(s, a) && IsListing(list, s.clients)
    requires IsFileSecret(name)
    requires var spec := s.authelias[a]; VolumesDistinct(Volumes(a, spec)) && KeysAreFiles(spec.settings.secrets)
    ensures a in s.deployments && ConfigMapKey(a) in s.configMaps
    ensures LeadsHome(s.deployments[a], a, s.authelias[a], Rendered(a, ReadNow(s, a, list)) != [], name)
    ensures var ref := s.authelias[a].settings.fileUsersSecret;
      ref.Some? && '/' !in ref.value.key ==>
        exists path :: Lookup(s.configMaps[ConfigMapKey(a)], FILE_PATH) == Some(JStr(path)) && Resolve(s.deployments[a], path) == ref
  {
    var spec, ings := s.authelias[a], SomeListing(s.ingresses);
    var ordered := IdleImpliesConverged(kdf, sha, s, a, list, ings);
    PermutationMember(ordered, Rendered(a, ReadNow(s, a, list)));
    var checksum := sha(s.configMaps[ConfigMapKey(a)]);
    FileVariableResolves(a, spec, ordered != [], checksum, name);
    var ref := spec.settings.fileUsersSecret;
    if ref.Some? && '/' !in ref.value.key {
      UsersPathResolves(a, spec, ordered != [], checksum);
      SetPathsHold(spec.settings, ordered, RuleJsons(Compile(ings)), spec.hostname, 0);
    }
  }
}
