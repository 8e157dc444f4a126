/**
 * The fixed point: after every client has been reconciled and then the Authelia, both reconcilers
 * leave everything as it is, exactly if clients that share an ID render alike.
 */
module FixedPoint {
  import opened Sequences
  import opened Ordering
  import opened JsonTree
  import opened Objects
  import opened Settings
  import opened AccessRules
  import opened Clients
  import opened Digest
  import opened CoreSecret
  import opened Cluster
  import opened ClusterInvariant
  import opened ClusterSteps
  import opened Operator
  import opened Convergence
  import opened AnyOrder
  import opened AutheliaPass

  lemma SecretsAfterApart(s: State, a: Key, snap: Snapshot, g: Generators, k: Key)
    ensures Stored(SecretsAfter(s, a, snap, g), ClientSecretKey(k)) == Stored(s.secrets, ClientSecretKey(k))
  {
    NamesInjective(a, k);
  }

  /** Writing the core Secret does not change what is read of the clients. */
  lemma ReadSame(w: World, s: State, a: Key, ch: Choice, list: seq<Client>)
    requires WellFormed(s) && a in s.authelias && IsListing(list, s.clients)
    ensures ReadNow(PassState(w, s, a, ch), a, list) == ReadNow(s, a, list)
  {
    var t := PassState(w, s, a, ch);
    forall i | 0 <= i < |list| ensures Observe(a, t.secrets)(list[i]) == Observe(a, s.secrets)(list[i]) {
      var c := list[i];
      ListingMember(list, s.clients, c);
      assert SecretKeyOf(c) == ClientSecretKey(c.key);
      SecretsAfterApart(s, a, SnapshotNow(s, a, ch), ch.g, c.key);
    }
  }

  lemma RenderedIgnoresListing(s: State, a: Key, list: seq<Client>, list': seq<Client>)
    requires IsListing(list, s.clients) && IsListing(list', s.clients)
    ensures multiset(Rendered(a, ReadNow(s, a, list))) == multiset(Rendered(a, ReadNow(s, a, list')))
  {
    MapPermutation(Observe(a, s.secrets), list, list');
    FlatMapPermutation(Entry(a), ReadNow(s, a, list), ReadNow(s, a, list'));
  }

  lemma SnapshotsAgree(s: State, a: Key, ch: Choice, ch': Choice)
    requires WellFormed(s) && GoodChoice(s, a, ch) && GoodChoice(s, a, ch')
    ensures SameContents(a, SnapshotNow(s, a, ch), SnapshotNow(s, a, ch'))
  {
    RenderedIgnoresListing(s, a, ch.list, ch'.list);
    FilterPermutation(OptsIn, ch.ings, ch'.ings);
    ListingUniqueKeys(ch.ings, s.ingresses);
    forall ing | ing in ch.ings ensures Admissible(ing) {
      ListingMember(ch.ings, s.ingresses, ing);
    }
  }

  lemma CoreFilledOnce(s: State, a: Key, snap: Snapshot, g: Generators, t: State, g': Generators)
    requires GoodGenerators(g) && t.secrets == SecretsAfter(s, a, snap, g)
    requires CoreFillable(s, a, snap.spec, g)
    ensures SecretsAfter(t, a, snap, g') == t.secrets
    ensures CoreFillable(t, a, snap.spec, g')
  {
    if snap.spec.existingSecret == "" {
      var before := Stored(s.secrets, ManagedSecretKey(a));
      var data := FillCoreSecret(before, g).value;
      FillKeepsAndFills(before, CORE_KEYS, g);
      assert Stored(t.secrets, ManagedSecretKey(a)) == data;
      FilledStays(data, CORE_KEYS, g');
    }
  }

  /** A choice that is good after the reconcile was good before it, but for the generators. */
  lemma ChoiceCarriesOver(w: World, s: State, a: Key, ch: Choice, ch': Choice)
    requires WellFormed(s) && GoodChoice(s, a, ch) && GoodGenerators(ch'.g)
    ensures GoodChoice(PassState(w, s, a, ch), a, ch') <==> GoodChoice(s, a, ch'.(g := ch.g))
  {
    var t := PassState(w, s, a, ch);
    CoreFilledOnce(s, a, SnapshotNow(s, a, ch), ch.g, t, ch'.g);
    if IsListing(ch'.list, s.clients) {
      ReadSame(w, s, a, ch, ch'.list);
    }
  }

  /** The second reconcile writes what its snapshot determines, and nothing else can differ. */
  lemma SecondPass(w: World, s: State, a: Key, ch: Choice, ch': Choice)
    requires WellFormed(s) && GoodChoice(s, a, ch) && GoodChoice(PassState(w, s, a, ch), a, ch')
    ensures var t := PassState(w, s, a, ch); var u := PassState(w, t, a, ch');
      var x, y := SnapshotNow(s, a, ch), SnapshotNow(t, a, ch');
      && y == SnapshotNow(s, a, ch'.(g := ch.g))
      && (SameObjects(t, u) <==>
            w.config(x) == w.config(y) && w.deployment(a, x) == w.deployment(a, y) && w.status(a, x) == w.status(a, y))
  {
    var t := PassState(w, s, a, ch);
    var u := PassState(w, t, a, ch');
    var x, y := SnapshotNow(s, a, ch), SnapshotNow(t, a, ch');
    ReadSame(w, s, a, ch, ch'.list);
    CoreFilledOnce(s, a, x, ch.g, t, ch'.g);
    WritesCompared(w, t, u, a, x, y);
  }

  lemma WritesCompared(w: World, t: State, u: State, a: Key, x: Snapshot, y: Snapshot)
    requires u == t.(dirty := u.dirty, delayed := u.delayed, written := u.written, services := t.services + {a},
      configMaps := t.configMaps[ConfigMapKey(a) := w.config(y)],
      deployments := t.deployments[a := w.deployment(a, y)],
      statuses := t.statuses[a := w.status(a, y)])
    requires ConfigMapKey(a) in t.configMaps && t.configMaps[ConfigMapKey(a)] == w.config(x)
    requires a in t.deployments && t.deployments[a] == w.deployment(a, x)
    requires a in t.statuses && t.statuses[a] == w.status(a, x) && a in t.services
    ensures SameObjects(t, u) <==>
      w.config(x) == w.config(y) && w.deployment(a, x) == w.deployment(a, y) && w.status(a, x) == w.status(a, y)
  {
    if w.config(x) == w.config(y) && w.deployment(a, x) == w.deployment(a, y) && w.status(a, x) == w.status(a, y) {
      assert t.configMaps[ConfigMapKey(a) := w.config(y)] == t.configMaps;
      assert t.deployments[a := w.deployment(a, y)] == t.deployments;
      assert t.statuses[a := w.status(a, y)] == t.statuses;
      assert t.services + {a} == t.services;
    } else {
      assert u.configMaps[ConfigMapKey(a)] == w.config(y);
      assert u.deployments[a] == w.deployment(a, y);
      assert u.statuses[a] == w.status(a, y);
    }
  }

  /** A further reconcile changes no object, whatever order it finds things in. */
  ghost predicate IsFixed(w: World, t: State, a: Key) {
    forall ch :: GoodChoice(t, a, ch) ==> SameObjects(t, PassState(w, t, a, ch))
  }

  lemma AgreeingPassIsFixed(kdf: Kdf, sha: Checksum, s: State, a: Key, ch: Choice)
    requires WellFormed(s) && GoodChoice(s, a, ch) && EntriesAgreeOnIDs(Rendered(a, ReadNow(s, a, ch.list)))
    ensures IsFixed(OperatorWorld(kdf, sha), PassState(OperatorWorld(kdf, sha), s, a, ch), a)
  {
    var w := OperatorWorld(kdf, sha);
    var t := PassState(w, s, a, ch);
    forall ch' | GoodChoice(t, a, ch') ensures SameObjects(t, PassState(w, t, a, ch')) {
      ChoiceCarriesOver(w, s, a, ch, ch');
      SecondPass(w, s, a, ch, ch');
      SnapshotsAgree(s, a, ch, ch'.(g := ch.g));
      OrderDoesNotShow(sha, a, SnapshotNow(s, a, ch), SnapshotNow(t, a, ch'));
    }
  }

  lemma DisagreeingPassIsNotFixed(kdf: Kdf, sha: Checksum, s: State, a: Key, ch: Choice)
    requires WellFormed(s) && GoodChoice(s, a, ch) && !EntriesAgreeOnIDs(Rendered(a, ReadNow(s, a, ch.list)))
    ensures !IsFixed(OperatorWorld(kdf, sha), PassState(OperatorWorld(kdf, sha), s, a, ch), a)
  {
    var w := OperatorWorld(kdf, sha);
    var t := PassState(w, s, a, ch);
    var clients := Rendered(a, ReadNow(s, a, ch.list));
    var x, y :| x in clients && y in clients && x.spec.clientID == y.spec.clientID && ClientJson(x) != ClientJson(y);
    var q, r := DisagreementShows(ClientJson, clients, x, y);
    var other := if Map(ClientJson, q) != Map(ClientJson, ch.ordered) then q else r;
    var ch' := ch.(ordered := other);
    ChoiceCarriesOver(w, s, a, ch, ch');
    SecondPass(w, s, a, ch, ch');
    PermutationMember(other, clients);
    PermutationMember(ch.ordered, clients);
    EntriesShow(SnapshotNow(s, a, ch), SnapshotNow(t, a, ch'));
  }

  /** Reconciling the Authelia again changes nothing, exactly if clients that share an ID render alike. */
  lemma PassIsFixedIff(kdf: Kdf, sha: Checksum, s: State, a: Key, ch: Choice)
    requires WellFormed(s) && GoodChoice(s, a, ch)
    ensures IsFixed(OperatorWorld(kdf, sha), PassState(OperatorWorld(kdf, sha), s, a, ch), a) <==>
            EntriesAgreeOnIDs(Rendered(a, ReadNow(s, a, ch.list)))
  {
    if EntriesAgreeOnIDs(Rendered(a, ReadNow(s, a, ch.list))) {
      AgreeingPassIsFixed(kdf, sha, s, a, ch);
    } else {
      DisagreeingPassIsNotFixed(kdf, sha, s, a, ch);
    }
  }

  lemma ListedIsNotPending(s: State, a: Key, list: seq<Client>, i: int)
    requires Waiting(s) == {} && IsListing(list, s.clients) && 0 <= i < |list|
    ensures !IsPending(ReadNow(s, a, list)[i], a)
  {
    var c := list[i];
    ListingMember(list, s.clients, c);
    assert c == Object(c.key, s.clients[c.key]) && c.key !in Waiting(s);
  }

  lemma NothingMissing(s: State, a: Key, list: seq<Client>)
    requires Waiting(s) == {} && IsListing(list, s.clients)
    ensures Missing(a, ReadNow(s, a, list)) == 0
  {
    var pending := Filter(Pending(a), ReadNow(s, a, list));
    if pending != [] {
      FilterMember(Pending(a), ReadNow(s, a, list), pending[0]);
      var i :| 0 <= i < |list| && ReadNow(s, a, list)[i] == pending[0];
      ListedIsNotPending(s, a, list, i);
    }
  }

  lemma FinishedAfterPass(w: World, s: State, a: Key, ch: Choice, k: Key)
    requires Finished(s, k) && a in s.authelias
    ensures Finished(PassState(w, s, a, ch), k)
  {
    SecretsAfterApart(s, a, SnapshotNow(s, a, ch), ch.g, k);
  }

  lemma PassConverges(w: World, s0: State, acts: seq<Action>, s: State, a: Key, ch: Choice)
    requires Inv(w, s0) && HashFits(w.hash, w.verify) && Execution(w, s0, acts, s)
    requires NoEdits(acts) && CoversClients(s0, acts, s0.clients.Keys)
    requires a in s.dirty && a !in s.runs && GoodChoice(s, a, ch)
    ensures var t := PassState(w, s, a, ch);
      && LeadsTo(w, s, t)
      && a !in t.dirty && a !in t.runs && t.delayed == s.delayed
      && (forall k, draw, saved :: k in t.clients ==> ReconcileClientStep(w, t, k, draw, saved) == t)
  {
    var t := PassState(w, s, a, ch);
    ClientsFinishInAnyOrder(w, s0, acts, s);
    OutcomeIsExecution(w, s, a, ch, Completed);
    NothingMissing(s, a, ch.list);
    forall k, draw, saved | k in t.clients ensures ReconcileClientStep(w, t, k, draw, saved) == t {
      FinishedAfterPass(w, s, a, ch, k);
      FinishedIsFixed(w, t, k, draw, saved);
    }
  }

  /**
   * Convergence in any order: from any reachable state, when there are no more edits and every client
   * has been reconciled, in any order and among whatever else happens, one reconcile of the Authelia
   * leaves no digest missing, asks for no retry, and reaches a state that every client reconcile leaves
   * exactly as it is; a further Authelia reconcile changes no object exactly if clients sharing an ID
   * render alike.
   */
  lemma ConvergenceInAnyOrder(kdf: Kdf, sha: Checksum, s0: State, acts: seq<Action>, s: State, a: Key, ch: Choice)
    requires Reachable(OperatorWorld(kdf, sha), s0) && Execution(OperatorWorld(kdf, sha), s0, acts, s)
    requires NoEdits(acts) && CoversClients(s0, acts, s0.clients.Keys)
    requires a in s.dirty && a !in s.runs && GoodChoice(s, a, ch)
    ensures var w := OperatorWorld(kdf, sha); var t := PassState(w, s, a, ch);
      && LeadsTo(w, s, t)
      && a !in t.dirty && a !in t.runs && t.delayed == s.delayed
      && (forall k, draw, saved :: k in t.clients ==> ReconcileClientStep(w, t, k, draw, saved) == t)
      && (IsFixed(w, t, a) <==> EntriesAgreeOnIDs(Rendered(a, ReadNow(s, a, ch.list))))
  {
    var w := OperatorWorld(kdf, sha);
    HashVerifies(kdf);
    ReachableHasInv(w, s0);
    ExecutionKeepsInv(w, s0, acts, s);
    PassConverges(w, s0, acts, s, a, ch);
    PassIsFixedIff(kdf, sha, s, a, ch);
  }

  // ------------------------------------------------ whatever the interleaving

  /** A reconcile of a settled Authelia writes nothing but ConfigMap, Deployment and status anew. */
  lemma SettledRewrites(w: World, s: State, a: Key, snap: Snapshot, ch: Choice)
    requires Inv(w, s) && SettledBy(w, s, a, snap) && GoodChoice(s, a, ch)
    ensures var y := SnapshotNow(s, a, ch);
      SameObjects(s, PassState(w, s, a, ch)) <==>
        w.config(snap) == w.config(y) && w.deployment(a, snap) == w.deployment(a, y) && w.status(a, snap) == w.status(a, y)
  {
    var y := SnapshotNow(s, a, ch);
    SettledHolds(w, s, a, snap);
    SettledSecrets(s, a, y.spec, ch.g);
    WritesCompared(w, s, PassState(w, s, a, ch), a, snap, y);
  }

  lemma SettledSecrets(s: State, a: Key, spec: AutheliaSpec, g: Generators)
    requires Provided(s, a, spec)
    ensures FilledSecrets(s.secrets, a, spec, g) == s.secrets && WithClaim(s.pvcs, a, spec) == s.pvcs
    ensures CoreFillable(s, a, spec, g)
  {
    if spec.existingSecret == "" {
      FilledStays(Stored(s.secrets, ManagedSecretKey(a)), CORE_KEYS, g);
      StoredAgain(s.secrets, ManagedSecretKey(a));
    }
  }

  lemma StoredAgain(secrets: map<Key, SecretData>, k: Key)
    requires Stored(secrets, k) != map[]
    ensures secrets[k := Stored(secrets, k)] == secrets
  {
  }

  /** The snapshot an Authelia is settled by, and any snapshot of the objects there are now. */
  lemma SettledSameContents(w: World, s: State, a: Key, snap: Snapshot, ch: Choice)
    requires Inv(w, s) && SettledBy(w, s, a, snap) && GoodRead(s, a, ch)
    ensures SameContents(a, snap, SnapshotNow(s, a, ch))
  {
    SettledHolds(w, s, a, snap);
    RenderedNow(s, a, snap.readings, ch.list);
    OptedInListed(s, ch.ings);
  }

  lemma SameMembersAgree(x: seq<OidcClient>, y: seq<OidcClient>)
    requires multiset(x) == multiset(y)
    ensures EntriesAgreeOnIDs(x) <==> EntriesAgreeOnIDs(y)
  {
    PermutationMember(x, y);
  }

  lemma AgreeingIsFixed(kdf: Kdf, sha: Checksum, s: State, a: Key, snap: Snapshot)
    requires Inv(OperatorWorld(kdf, sha), s) && SettledBy(OperatorWorld(kdf, sha), s, a, snap)
    requires EntriesAgreeOnIDs(Rendered(a, snap.readings))
    ensures IsFixed(OperatorWorld(kdf, sha), s, a)
  {
    var w := OperatorWorld(kdf, sha);
    forall ch | GoodChoice(s, a, ch) ensures SameObjects(s, PassState(w, s, a, ch)) {
      SettledRewrites(w, s, a, snap, ch);
      SettledSameContents(w, s, a, snap, ch);
      OrderDoesNotShow(sha, a, snap, SnapshotNow(s, a, ch));
    }
  }

  /** Some outcome of the sort differs from the one the ConfigMap holds. */
  lemma OtherOrder(clients: seq<OidcClient>, ordered: seq<OidcClient>) returns (other: seq<OidcClient>)
    requires !EntriesAgreeOnIDs(clients) && SortedPermutation(IDLess, ordered, clients)
    ensures SortedPermutation(IDLess, other, clients) && |other| == |ordered| && Map(ClientJson, other) != Map(ClientJson, ordered)
  {
    var x, y :| x in clients && y in clients && x.spec.clientID == y.spec.clientID && ClientJson(x) != ClientJson(y);
    var q, r := DisagreementShows(ClientJson, clients, x, y);
    other := if Map(ClientJson, q) != Map(ClientJson, ordered) then q else r;
    PermutationMember(other, clients);
    PermutationMember(ordered, clients);
  }

  /** What a reconcile reads when it finds the clients in this order. */
  lemma OrderIsGoodChoice(s: State, a: Key, list: seq<Client>, ordered: seq<OidcClient>) returns (ch: Choice)
    requires a in s.authelias && Provided(s, a, s.authelias[a]) && IsListing(list, s.clients)
    requires SortedPermutation(IDLess, ordered, Rendered(a, ReadNow(s, a, list)))
    ensures GoodChoice(s, a, ch) && ch.ordered == ordered
  {
    ch := Choice(list, SomeListing(s.ingresses), ordered, _ => None);
    SettledSecrets(s, a, s.authelias[a], ch.g);
  }

  lemma DisagreeingIsNotFixed(kdf: Kdf, sha: Checksum, s: State, a: Key, snap: Snapshot, list: seq<Client>)
    requires Inv(OperatorWorld(kdf, sha), s) && SettledBy(OperatorWorld(kdf, sha), s, a, snap) && IsListing(list, s.clients)
    requires !EntriesAgreeOnIDs(Rendered(a, ReadNow(s, a, list)))
    ensures !IsFixed(OperatorWorld(kdf, sha), s, a)
  {
    var w := OperatorWorld(kdf, sha);
    SettledHolds(w, s, a, snap);
    SettledOrder(s, a, snap, list);
    var other := OtherOrder(Rendered(a, ReadNow(s, a, list)), snap.ordered);
    var ch := OrderIsGoodChoice(s, a, list, other);
    SettledRewrites(w, s, a, snap, ch);
    EntriesShow(snap, SnapshotNow(s, a, ch));
  }

  /**
   * In every reachable state, whatever has happened in between: an idle Authelia's reconcile changes no
   * object exactly if clients that share an ID render alike.
   */
  lemma IdleIsFixedIff(kdf: Kdf, sha: Checksum, s: State, a: Key, list: seq<Client>)
    requires Reachable(OperatorWorld(kdf, sha), s) && a in s.authelias && Idle(s, a) && IsListing(list, s.clients)
    ensures IsFixed(OperatorWorld(kdf, sha), s, a) <==> EntriesAgreeOnIDs(Rendered(a, ReadNow(s, a, list)))
  {
    var w := OperatorWorld(kdf, sha);
    HashVerifies(kdf);
    ReachableHasInv(w, s);
    assert UpToDate(w, s, a);
    var snap :| SettledBy(w, s, a, snap);
    if EntriesAgreeOnIDs(Rendered(a, ReadNow(s, a, list))) {
      RenderedNow(s, a, snap.readings, list);
      SameMembersAgree(Rendered(a, snap.readings), Rendered(a, ReadNow(s, a, list)));
      AgreeingIsFixed(kdf, sha, s, a, snap);
    } else {
      DisagreeingIsNotFixed(kdf, sha, s, a, snap, list);
    }
  }

  /**
   * So once there are no more edits and every client has been reconciled, amid any interleaving of the
   * calls of any reconciles, an Authelia that has come to rest is at a fixed point of both reconcilers,
   * the second exactly if clients sharing an ID render alike.
   */
  lemma RestIsFixed(kdf: Kdf, sha: Checksum, s0: State, acts: seq<Action>, s: State, a: Key, list: seq<Client>)
    requires Reachable(OperatorWorld(kdf, sha), s0) && Execution(OperatorWorld(kdf, sha), s0, acts, s)
    requires NoEdits(acts) && CoversClients(s0, acts, s0.clients.Keys)
    requires a in s.authelias && Idle(s, a) && IsListing(list, s.clients)
    ensures var w := OperatorWorld(kdf, sha);
      && (forall k, draw, saved :: k in s.clients ==> ReconcileClientStep(w, s, k, draw, saved) == s)
      && (IsFixed(w, s, a) <==> EntriesAgreeOnIDs(Rendered(a, ReadNow(s, a, list))))
  {
    var w := OperatorWorld(kdf, sha);
    HashVerifies(kdf);
    ReachableHasInv(w, s0);
    ClientsFinishInAnyOrder(w, s0, acts, s);
    forall k, draw, saved | k in s.clients ensures ReconcileClientStep(w, s, k, draw, saved) == s {
      FinishedIsFixed(w, s, k, draw, saved);
    }
    ReachableOnwards(w, s0, acts, s);
    IdleIsFixedIff(kdf, sha, s, a, list);
  }

  lemma {:induction false} ExecutionsCompose(w: World, r: State, before: seq<Action>, s: State, acts: seq<Action>, t: State)
    requires Execution(w, r, before, s) && Execution(w, s, acts, t)
    ensures Execution(w, r, before + acts, t)
    decreases |before|
  {
    if before == [] {
      assert before + acts == acts;
    } else {
      ExecutionsCompose(w, Apply(w, r, before[0]), before[1..], s, acts, t);
      assert (before + acts)[1..] == before[1..] + acts;
    }
  }

  lemma ReachableOnwards(w: World, s: State, acts: seq<Action>, t: State)
    requires Reachable(w, s) && Execution(w, s, acts, t)
    ensures Reachable(w, t)
  {
    var r, before :| Init(w, r) && Execution(w, r, before, s);
    ExecutionsCompose(w, r, before, s, acts, t);
  }
}
