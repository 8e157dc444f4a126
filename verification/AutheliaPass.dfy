/**
 * One Authelia reconcile on its own, from the queue to the status update: where it leads, that its
 * steps lead there, and that doing it again changes nothing.
 */
module AutheliaPass {
  import opened Ordering
  import opened Objects
  import opened Settings
  import opened AccessRules
  import opened Clients
  import opened CoreSecret
  import opened Cluster
  import opened Convergence

  /** What a reconcile does not determine itself: list orders, the outcome of its sort, fresh values. */
  datatype Choice = Choice(list: seq<Client>, ings: seq<Ingress>, ordered: seq<OidcClient>, g: Generators)

  function SnapshotNow(s: State, a: Key, ch: Choice): Snapshot
    requires a in s.authelias
  {
    Snapshot(s.authelias[a], ReadNow(s, a, ch.list), ch.ordered, ch.ings)
  }

  /** The core Secret needs no filling, or can be filled. */
  predicate Fillable(secrets: map<Key, SecretData>, a: Key, spec: AutheliaSpec, g: Generators) {
    spec.existingSecret == "" ==> FillCoreSecret(Stored(secrets, ManagedSecretKey(a)), g).Some?
  }

  predicate CoreFillable(s: State, a: Key, spec: AutheliaSpec, g: Generators) {
    Fillable(s.secrets, a, spec, g)
  }

  ghost predicate GoodRead(s: State, a: Key, ch: Choice) {
    && a in s.authelias
    && IsListing(ch.list, s.clients) && IsListing(ch.ings, s.ingresses)
    && SortedPermutation(IDLess, ch.ordered, Rendered(a, ReadNow(s, a, ch.list)))
  }

  ghost predicate GoodChoice(s: State, a: Key, ch: Choice) {
    GoodRead(s, a, ch) && GoodGenerators(ch.g) && CoreFillable(s, a, s.authelias[a], ch.g)
  }

  /** The Secrets once the core Secret has been dealt with; as before if it cannot be filled. */
  function FilledSecrets(secrets: map<Key, SecretData>, a: Key, spec: AutheliaSpec, g: Generators): map<Key, SecretData> {
    var filled := FillCoreSecret(Stored(secrets, ManagedSecretKey(a)), g);
    if spec.existingSecret == "" && filled.Some? then secrets[ManagedSecretKey(a) := filled.value] else secrets
  }

  function SecretsAfter(s: State, a: Key, snap: Snapshot, g: Generators): map<Key, SecretData> {
    FilledSecrets(s.secrets, a, snap.spec, g)
  }

  function WithClaim(pvcs: map<Key, string>, a: Key, spec: AutheliaSpec): map<Key, string> {
    if spec.volumeClaimTemplate.Some? && PVCKey(a) !in pvcs then pvcs[PVCKey(a) := spec.volumeClaimTemplate.value] else pvcs
  }

  function ClaimsAfter(s: State, a: Key, snap: Snapshot): map<Key, string> {
    WithClaim(s.pvcs, a, snap.spec)
  }

  /** Everything is written as the snapshot says, and `a` is done with. */
  function Written(w: World, s: State, a: Key, snap: Snapshot, g: Generators): State {
    s.(dirty := s.dirty - {a},
       secrets := SecretsAfter(s, a, snap, g),
       configMaps := s.configMaps[ConfigMapKey(a) := w.config(snap)],
       written := s.written[a := History(s, a) + [snap]],
       services := s.services + {a},
       pvcs := ClaimsAfter(s, a, snap),
       deployments := s.deployments[a := w.deployment(a, snap)],
       statuses := s.statuses[a := w.status(a, snap)],
       delayed := if Missing(a, snap.readings) > 0 then s.delayed + {a} else s.delayed)
  }

  /** Where the reconcile leads. */
  function PassState(w: World, s: State, a: Key, ch: Choice): State
    requires a in s.authelias
  {
    Written(w, s, a, SnapshotNow(s, a, ch), ch.g)
  }

  /** Nothing but the work queue, and the record kept for the proofs, differs. */
  ghost predicate SameObjects(s: State, t: State) {
    t == s.(dirty := t.dirty, delayed := t.delayed, runs := t.runs, written := t.written)
  }

  // ------------------------------------------------------ its steps lead there

  /** A set of states that steps do not lead out of. */
  ghost predicate Closed(w: World, from: iset<State>) {
    forall s, act :: s in from && Enabled(s, act) ==> Apply(w, s, act) in from
  }

  ghost predicate LeadsTo(w: World, s: State, t: State) {
    exists acts :: Execution(w, s, acts, t)
  }

  ghost function ReachableFrom(w: World, s: State): iset<State> {
    iset t | LeadsTo(w, s, t)
  }

  lemma {:induction false} OneMore(w: World, s0: State, acts: seq<Action>, s: State, act: Action)
    requires Execution(w, s0, acts, s) && Enabled(s, act)
    ensures Execution(w, s0, acts + [act], Apply(w, s, act))
    decreases |acts|
  {
    if acts == [] {
      assert [act][1..] == [];
    } else {
      OneMore(w, Apply(w, s0, acts[0]), acts[1..], s, act);
      assert (acts + [act])[1..] == acts[1..] + [act];
    }
  }

  lemma ReachableIsClosed(w: World, s0: State)
    ensures s0 in ReachableFrom(w, s0) && Closed(w, ReachableFrom(w, s0))
  {
    assert Execution(w, s0, [], s0);
    forall s, act | s in ReachableFrom(w, s0) && Enabled(s, act) ensures Apply(w, s, act) in ReachableFrom(w, s0) {
      var acts :| Execution(w, s0, acts, s);
      OneMore(w, s0, acts, s, act);
    }
  }

  /** `a` has been taken from the queue and is this far. */
  function In(s: State, a: Key, run: Run): State {
    s.(dirty := s.dirty - {a}, runs := s.runs[a := run])
  }

  lemma InNext(s: State, a: Key, run: Run, next: Run)
    ensures WithRun(In(s, a, run), a, next) == In(s, a, next)
  {
    assert s.runs[a := run][a := next] == s.runs[a := next];
  }

  lemma Step(w: World, from: iset<State>, s: State, act: Action, t: State)
    requires Closed(w, from) && s in from && Enabled(s, act) && t == Apply(w, s, act)
    ensures t in from
  {
  }

  lemma DequeueRuns(w: World, from: iset<State>, s: State, a: Key)
    requires Closed(w, from) && s in from && a in s.dirty && a !in s.runs
    ensures In(s, a, Popped) in from
  {
    Step(w, from, s, Dequeue(a), In(s, a, Popped));
  }

  /** The Authelia is gone: nothing to do. */
  lemma GoneRuns(w: World, from: iset<State>, s: State, a: Key)
    requires Closed(w, from) && s in from && a in s.dirty && a !in s.runs && a !in s.authelias
    ensures s.(dirty := s.dirty - {a}) in from
  {
    DequeueRuns(w, from, s, a);
    assert s.runs[a := Popped] - {a} == s.runs;
    Step(w, from, In(s, a, Popped), Fetch(a), s.(dirty := s.dirty - {a}));
  }

  /** A failing call ends the reconcile; it is retried after a delay. */
  lemma FailRuns(w: World, from: iset<State>, s: State, a: Key, run: Run) returns (t: State)
    requires Closed(w, from) && In(s, a, run) in from && a !in s.runs
    ensures t == s.(dirty := s.dirty - {a}, delayed := s.delayed + {a}) && t in from
  {
    t := s.(dirty := s.dirty - {a}, delayed := s.delayed + {a});
    assert s.runs[a := run] - {a} == s.runs;
    Step(w, from, In(s, a, run), Fail(a), t);
  }

  lemma FetchRuns(w: World, from: iset<State>, s: State, a: Key)
    requires Closed(w, from) && In(s, a, Popped) in from && a in s.authelias
    ensures In(s, a, Fetched(s.authelias[a])) in from
  {
    InNext(s, a, Popped, Fetched(s.authelias[a]));
    Step(w, from, In(s, a, Popped), Fetch(a), In(s, a, Fetched(s.authelias[a])));
  }

  lemma ListClientsRuns(w: World, from: iset<State>, s: State, a: Key, spec: AutheliaSpec, list: seq<Client>)
    requires Closed(w, from) && In(s, a, Fetched(spec)) in from && IsListing(list, s.clients)
    ensures In(s, a, Collecting(spec, [], list)) in from
  {
    InNext(s, a, Fetched(spec), Collecting(spec, [], list));
    Step(w, from, In(s, a, Fetched(spec)), ListClients(a, list), In(s, a, Collecting(spec, [], list)));
  }

  lemma ReadDigestRuns(w: World, from: iset<State>, s: State, a: Key, spec: AutheliaSpec, done: seq<Reading>, rest: seq<Client>)
    requires Closed(w, from) && rest != [] && In(s, a, Collecting(spec, done, rest)) in from
    ensures In(s, a, Collecting(spec, done + [Observe(a, s.secrets)(rest[0])], rest[1..])) in from
  {
    var next := Collecting(spec, done + [Observe(a, s.secrets)(rest[0])], rest[1..]);
    InNext(s, a, Collecting(spec, done, rest), next);
    Step(w, from, In(s, a, Collecting(spec, done, rest)), ReadDigest(a), In(s, a, next));
  }

  lemma ReadNowFirst(s: State, a: Key, done: seq<Reading>, rest: seq<Client>)
    requires rest != []
    ensures done + ReadNow(s, a, rest) == done + [Observe(a, s.secrets)(rest[0])] + ReadNow(s, a, rest[1..])
  {
    assert ReadNow(s, a, rest) == [Observe(a, s.secrets)(rest[0])] + ReadNow(s, a, rest[1..]);
  }

  lemma {:induction false} ReadAllRuns(w: World, from: iset<State>, s: State, a: Key, spec: AutheliaSpec,
      done: seq<Reading>, rest: seq<Client>)
    requires Closed(w, from) && In(s, a, Collecting(spec, done, rest)) in from
    ensures In(s, a, Collecting(spec, done + ReadNow(s, a, rest), [])) in from
    decreases |rest|
  {
    if rest == [] {
      assert done + [] == done;
    } else {
      ReadDigestRuns(w, from, s, a, spec, done, rest);
      ReadAllRuns(w, from, s, a, spec, done + [Observe(a, s.secrets)(rest[0])], rest[1..]);
      ReadNowFirst(s, a, done, rest);
    }
  }

  lemma ListIngressesRuns(w: World, from: iset<State>, s: State, a: Key, snap: Snapshot)
    requires Closed(w, from) && In(s, a, Collecting(snap.spec, snap.readings, [])) in from
    requires IsListing(snap.ings, s.ingresses) && SortedPermutation(IDLess, snap.ordered, Rendered(a, snap.readings))
    ensures In(s, a, Writing(snap, AtCoreSecret)) in from
  {
    InNext(s, a, Collecting(snap.spec, snap.readings, []), Writing(snap, AtCoreSecret));
    Step(w, from, In(s, a, Collecting(snap.spec, snap.readings, [])), ListIngresses(a, snap.ings, snap.ordered),
      In(s, a, Writing(snap, AtCoreSecret)));
  }

  /** Everything read: the reading half of a reconcile. */
  lemma ReadingRuns(w: World, from: iset<State>, s: State, a: Key, ch: Choice)
    requires Closed(w, from) && s in from && a in s.dirty && a !in s.runs && GoodRead(s, a, ch)
    ensures In(s, a, Writing(SnapshotNow(s, a, ch), AtCoreSecret)) in from
  {
    DequeueRuns(w, from, s, a);
    FetchRuns(w, from, s, a);
    ListClientsRuns(w, from, s, a, s.authelias[a], ch.list);
    ReadAllRuns(w, from, s, a, s.authelias[a], [], ch.list);
    assert [] + ReadNow(s, a, ch.list) == ReadNow(s, a, ch.list);
    ListIngressesRuns(w, from, s, a, SnapshotNow(s, a, ch));
  }

  lemma CoreRuns(w: World, from: iset<State>, s: State, a: Key, snap: Snapshot, g: Generators) returns (t: State)
    requires Closed(w, from) && In(s, a, Writing(snap, AtCoreSecret)) in from
    requires GoodGenerators(g) && CoreFillable(s, a, snap.spec, g)
    ensures t == s.(secrets := SecretsAfter(s, a, snap, g)) && In(t, a, Writing(snap, AtConfigMap)) in from
  {
    t := s.(secrets := SecretsAfter(s, a, snap, g));
    InNext(t, a, Writing(snap, AtCoreSecret), Writing(snap, AtConfigMap));
    Step(w, from, In(s, a, Writing(snap, AtCoreSecret)), WriteCoreSecret(a, g), In(t, a, Writing(snap, AtConfigMap)));
  }

  lemma ConfigMapRuns(w: World, from: iset<State>, s: State, a: Key, snap: Snapshot) returns (t: State)
    requires Closed(w, from) && In(s, a, Writing(snap, AtConfigMap)) in from
    ensures t == s.(configMaps := s.configMaps[ConfigMapKey(a) := w.config(snap)], written := s.written[a := History(s, a) + [snap]])
    ensures In(t, a, Writing(snap, AtService)) in from
  {
    t := s.(configMaps := s.configMaps[ConfigMapKey(a) := w.config(snap)], written := s.written[a := History(s, a) + [snap]]);
    InNext(t, a, Writing(snap, AtConfigMap), Writing(snap, AtService));
    Step(w, from, In(s, a, Writing(snap, AtConfigMap)), WriteConfigMap(a), In(t, a, Writing(snap, AtService)));
  }

  lemma ServiceRuns(w: World, from: iset<State>, s: State, a: Key, snap: Snapshot) returns (t: State)
    requires Closed(w, from) && In(s, a, Writing(snap, AtService)) in from
    ensures t == s.(services := s.services + {a}) && In(t, a, Writing(snap, AtDataPVC)) in from
  {
    t := s.(services := s.services + {a});
    InNext(t, a, Writing(snap, AtService), Writing(snap, AtDataPVC));
    Step(w, from, In(s, a, Writing(snap, AtService)), WriteService(a), In(t, a, Writing(snap, AtDataPVC)));
  }

  lemma ClaimRuns(w: World, from: iset<State>, s: State, a: Key, snap: Snapshot) returns (t: State)
    requires Closed(w, from) && In(s, a, Writing(snap, AtDataPVC)) in from
    ensures t == s.(pvcs := ClaimsAfter(s, a, snap)) && In(t, a, Writing(snap, AtDeployment)) in from
  {
    t := s.(pvcs := ClaimsAfter(s, a, snap));
    InNext(t, a, Writing(snap, AtDataPVC), Writing(snap, AtDeployment));
    Step(w, from, In(s, a, Writing(snap, AtDataPVC)), WriteDataPVC(a), In(t, a, Writing(snap, AtDeployment)));
  }

  lemma DeploymentRuns(w: World, from: iset<State>, s: State, a: Key, snap: Snapshot) returns (t: State)
    requires Closed(w, from) && In(s, a, Writing(snap, AtDeployment)) in from
    ensures t == s.(deployments := s.deployments[a := w.deployment(a, snap)]) && In(t, a, Writing(snap, AtStatus)) in from
  {
    t := s.(deployments := s.deployments[a := w.deployment(a, snap)]);
    InNext(t, a, Writing(snap, AtDeployment), Writing(snap, AtStatus));
    Step(w, from, In(s, a, Writing(snap, AtDeployment)), WriteDeployment(a), In(t, a, Writing(snap, AtStatus)));
  }

  lemma StatusRuns(w: World, from: iset<State>, s: State, a: Key, snap: Snapshot) returns (t: State)
    requires Closed(w, from) && In(s, a, Writing(snap, AtStatus)) in from && a in s.authelias && a !in s.runs
    ensures t == s.(dirty := s.dirty - {a}, statuses := s.statuses[a := w.status(a, snap)],
      delayed := if Missing(a, snap.readings) > 0 then s.delayed + {a} else s.delayed)
    ensures t in from
  {
    t := s.(dirty := s.dirty - {a}, statuses := s.statuses[a := w.status(a, snap)],
      delayed := if Missing(a, snap.readings) > 0 then s.delayed + {a} else s.delayed);
    assert s.runs[a := Writing(snap, AtStatus)] - {a} == s.runs;
    Step(w, from, In(s, a, Writing(snap, AtStatus)), WriteStatus(a), t);
  }

  // ---------------------------------------------------- however far it gets

  /** The first `n` writing calls have been made. */
  function Wrote(w: World, s: State, a: Key, snap: Snapshot, g: Generators, n: nat): State {
    s.(secrets := if n > 0 then SecretsAfter(s, a, snap, g) else s.secrets,
       configMaps := if n > 1 then s.configMaps[ConfigMapKey(a) := w.config(snap)] else s.configMaps,
       written := if n > 1 then s.written[a := History(s, a) + [snap]] else s.written,
       services := if n > 2 then s.services + {a} else s.services,
       pvcs := if n > 3 then ClaimsAfter(s, a, snap) else s.pvcs,
       deployments := if n > 4 then s.deployments[a := w.deployment(a, snap)] else s.deployments,
       statuses := if n > 5 then s.statuses[a := w.status(a, snap)] else s.statuses)
  }

  /** How a reconcile ends: nothing to do, a failed read, a failed write, or all calls made. */
  datatype Outcome = Gone | Unread | Stopped(stage: Stage) | Completed

  function GivenUp(s: State, a: Key): State {
    s.(dirty := s.dirty - {a}, delayed := s.delayed + {a})
  }

  function OutcomeState(w: World, s: State, a: Key, ch: Choice, o: Outcome): State
    requires o.Stopped? || o.Completed? ==> a in s.authelias
  {
    match o
    case Gone => s.(dirty := s.dirty - {a})
    case Unread => GivenUp(s, a)
    case Stopped(stage) => GivenUp(Wrote(w, s, a, SnapshotNow(s, a, ch), ch.g, Rank(stage)), a)
    case Completed => PassState(w, s, a, ch)
  }

  ghost predicate Possible(s: State, a: Key, ch: Choice, o: Outcome) {
    && (o.Gone? <==> a !in s.authelias)
    && (o.Stopped? || o.Completed? ==> GoodRead(s, a, ch))
    && (o.Completed? || (o.Stopped? && o.stage != AtCoreSecret) ==> GoodChoice(s, a, ch))
  }

  lemma WroteRuns(w: World, from: iset<State>, s: State, a: Key, snap: Snapshot, g: Generators, stage: Stage)
    requires Closed(w, from) && In(s, a, Writing(snap, AtCoreSecret)) in from
    requires stage != AtCoreSecret ==> GoodGenerators(g) && CoreFillable(s, a, snap.spec, g)
    ensures In(Wrote(w, s, a, snap, g, Rank(stage)), a, Writing(snap, stage)) in from
    decreases Rank(stage)
  {
    match stage
    case AtCoreSecret =>
    case AtConfigMap =>
      var _ := CoreRuns(w, from, s, a, snap, g);
    case AtService =>
      WroteRuns(w, from, s, a, snap, g, AtConfigMap);
      var _ := ConfigMapRuns(w, from, Wrote(w, s, a, snap, g, 1), a, snap);
    case AtDataPVC =>
      WroteRuns(w, from, s, a, snap, g, AtService);
      var _ := ServiceRuns(w, from, Wrote(w, s, a, snap, g, 2), a, snap);
    case AtDeployment =>
      WroteRuns(w, from, s, a, snap, g, AtDataPVC);
      var _ := ClaimRuns(w, from, Wrote(w, s, a, snap, g, 3), a, snap);
    case AtStatus =>
      WroteRuns(w, from, s, a, snap, g, AtDeployment);
      var _ := DeploymentRuns(w, from, Wrote(w, s, a, snap, g, 4), a, snap);
  }

  lemma PassRuns(w: World, from: iset<State>, s: State, a: Key, ch: Choice)
    requires Closed(w, from) && s in from && a in s.dirty && a !in s.runs && GoodChoice(s, a, ch)
    ensures PassState(w, s, a, ch) in from
  {
    var snap := SnapshotNow(s, a, ch);
    ReadingRuns(w, from, s, a, ch);
    WroteRuns(w, from, s, a, snap, ch.g, AtStatus);
    var _ := StatusRuns(w, from, Wrote(w, s, a, snap, ch.g, 5), a, snap);
  }

  /** However a reconcile ends, its calls are steps of the concurrent system. */
  lemma OutcomeIsExecution(w: World, s: State, a: Key, ch: Choice, o: Outcome)
    requires a in s.dirty && a !in s.runs && Possible(s, a, ch, o)
    ensures LeadsTo(w, s, OutcomeState(w, s, a, ch, o))
  {
    var from := ReachableFrom(w, s);
    ReachableIsClosed(w, s);
    match o
    case Gone => GoneRuns(w, from, s, a);
    case Unread =>
      DequeueRuns(w, from, s, a);
      FetchRuns(w, from, s, a);
      var _ := FailRuns(w, from, s, a, Fetched(s.authelias[a]));
    case Stopped(stage) =>
      var snap := SnapshotNow(s, a, ch);
      ReadingRuns(w, from, s, a, ch);
      WroteRuns(w, from, s, a, snap, ch.g, stage);
      var _ := FailRuns(w, from, Wrote(w, s, a, snap, ch.g, Rank(stage)), a, Writing(snap, stage));
    case Completed => PassRuns(w, from, s, a, ch);
  }
}
