/**
 * The two reconcilers as a step-wise concurrent system over the state of the cluster.
 *
 * A step is a user edit, one client reconcile, one API call of an Authelia reconcile, or something
 * that happens to the work queue. Every watch event acts at the step that causes it, on the old and on
 * the new object. One reconcile at most is under way per Authelia; an Authelia that is enqueued
 * meanwhile becomes dirty and is taken up again later. A reconcile may fail at any call, which has it
 * retried after a delay.
 */
module Cluster {
  import opened Ordering
  import opened JsonTree
  import opened Objects
  import opened Settings
  import opened AccessRules
  import opened Clients
  import opened Digest
  import opened ClientSecret
  import opened CoreSecret
  import opened PodWiring

  datatype Status = Status(oidcClients: seq<string>, accessControlRules: seq<string>)

  /**
   * What one Authelia reconcile has read: the spec, the clients with their digests, and the Ingresses.
   * `ordered` is how its sort has left the clients to be rendered.
   */
  datatype Snapshot = Snapshot(spec: AutheliaSpec, readings: seq<Reading>, ordered: seq<OidcClient>, ings: seq<Ingress>)

  /** The API call an Authelia reconcile makes next, once it has read everything. */
  datatype Stage = AtCoreSecret | AtConfigMap | AtService | AtDataPVC | AtDeployment | AtStatus

  function Rank(stage: Stage): nat {
    match stage
    case AtCoreSecret => 0
    case AtConfigMap => 1
    case AtService => 2
    case AtDataPVC => 3
    case AtDeployment => 4
    case AtStatus => 5
  }

  /** An Authelia reconcile under way. */
  datatype Run =
    | Popped
    | Fetched(spec: AutheliaSpec)
    | Collecting(spec: AutheliaSpec, done: seq<Reading>, rest: seq<Client>)
    | Writing(snap: Snapshot, stage: Stage)

  /** `written` records, for the proofs only, the snapshots whose configuration a ConfigMap has held. */
  datatype State = State(
    clients: map<Key, ClientBody>,
    ingresses: map<Key, IngressBody>,
    authelias: map<Key, AutheliaSpec>,
    statuses: map<Key, Status>,
    secrets: map<Key, SecretData>,
    configMaps: map<Key, JsonObject>,
    services: set<Key>,
    pvcs: map<Key, string>,
    deployments: map<Key, Deployment>,
    dirty: set<Key>,
    delayed: set<Key>,
    runs: map<Key, Run>,
    written: map<Key, seq<Snapshot>>
  )

  /**
   * What the steps compute is a parameter here: hashing of secrets, and what a snapshot determines of
   * the ConfigMap, the Deployment and the status. Module Operator says what they are.
   */
  datatype World = World(
    hash: Hash,
    verify: Verifier,
    config: Snapshot -> JsonObject,
    deployment: (Key, Snapshot) -> Deployment,
    status: (Key, Snapshot) -> Status
  )

  // -------------------------------------------------------------------- names

  function ClientSecretKey(k: Key): Key { Key(k.ns, OAuthSecretName(k.name)) }

  function ManagedSecretKey(a: Key): Key { Key(a.ns, ManagedSecretName(a.name)) }

  function ConfigMapKey(a: Key): Key { Key(a.ns, ConfigMapName(a)) }

  function PVCKey(a: Key): Key { Key(a.ns, DataPVCName(a)) }

  // ------------------------------------------------------------------- events

  function Enqueued(s: State, keys: set<Key>): State {
    s.(dirty := s.dirty + keys)
  }

  /** The client watch. */
  function ClientEvent(c: Client): set<Key> {
    match RouteOf(c)
    case Some(a) => {a}
    case None => {}
  }

  /** The Ingress watch: every Authelia there is, if the Ingress opts in. */
  function IngressEvent(s: State, ing: Ingress): set<Key> {
    if OptsIn(ing) then s.authelias.Keys else {}
  }

  // --------------------------------------------------------------- user edits

  function PutClientStep(s: State, k: Key, spec: ClientSpec): State {
    var body := ClientBody(spec, if k in s.clients then s.clients[k].secretName else "");
    var old' := if k in s.clients then ClientEvent(Object(k, s.clients[k])) else {};
    Enqueued(s.(clients := s.clients[k := body]), old' + ClientEvent(Object(k, body)))
  }

  function DeleteClientStep(s: State, k: Key): State
    requires k in s.clients
  {
    Enqueued(s.(clients := s.clients - {k}), ClientEvent(Object(k, s.clients[k])))
  }

  function PutIngressStep(s: State, k: Key, body: IngressBody): State {
    var old' := if k in s.ingresses then IngressEvent(s, Object(k, s.ingresses[k])) else {};
    Enqueued(s.(ingresses := s.ingresses[k := body]), old' + IngressEvent(s, Object(k, body)))
  }

  function DeleteIngressStep(s: State, k: Key): State
    requires k in s.ingresses
  {
    Enqueued(s.(ingresses := s.ingresses - {k}), IngressEvent(s, Object(k, s.ingresses[k])))
  }

  function PutAutheliaStep(s: State, a: Key, spec: AutheliaSpec): State {
    Enqueued(s.(authelias := s.authelias[a := spec]), {a})
  }

  function DeleteAutheliaStep(s: State, a: Key): State {
    Enqueued(s.(authelias := s.authelias - {a}), {a})
  }

  // --------------------------------------------------------- client reconcile

  /**
   * One client reconcile: the Secret, then the status, whose update is an event on the client.
   * `statusSaved` is false when that update fails.
   */
  function ReconcileClientStep(w: World, s: State, k: Key, draw: Draw, statusSaved: bool): State {
    if k !in s.clients then s
    else
      var c := Object(k, s.clients[k]);
      var sk := ClientSecretKey(k);
      var filled := FillClientSecret(w.hash, Stored(s.secrets, sk), EffectiveID(c), c.body.spec.public, draw);
      var updates := filled.Some? && statusSaved && c.body.secretName != sk.name;
      s.(secrets := if filled.Some? then s.secrets[sk := filled.value] else s.secrets,
         clients := if updates then s.clients[k := c.body.(secretName := sk.name)] else s.clients,
         dirty := if updates then s.dirty + ClientEvent(c) else s.dirty)
  }

  // ------------------------------------------------------- Authelia reconcile

  function WithRun(s: State, a: Key, run: Run): State {
    s.(runs := s.runs[a := run])
  }

  function Failed(s: State, a: Key): State {
    s.(runs := s.runs - {a}, delayed := s.delayed + {a})
  }

  function FetchStep(s: State, a: Key): State {
    s.(runs := if a in s.authelias then s.runs[a := Fetched(s.authelias[a])] else s.runs - {a})
  }

  function ReadDigestStep(s: State, a: Key, run: Run): State
    requires run.Collecting? && run.rest != []
  {
    WithRun(s, a, Collecting(run.spec, run.done + [Observe(a, s.secrets)(run.rest[0])], run.rest[1..]))
  }

  /** Skipped when the user brings a Secret; a failing generator fails the reconcile and writes nothing. */
  function WriteCoreSecretStep(s: State, a: Key, snap: Snapshot, g: Generators): State {
    var managed := snap.spec.existingSecret == "";
    var filled := FillCoreSecret(Stored(s.secrets, ManagedSecretKey(a)), g);
    s.(secrets := if managed && filled.Some? then s.secrets[ManagedSecretKey(a) := filled.value] else s.secrets,
       runs := if managed && filled.None? then s.runs - {a} else s.runs[a := Writing(snap, AtConfigMap)],
       delayed := if managed && filled.None? then s.delayed + {a} else s.delayed)
  }

  function History(s: State, a: Key): seq<Snapshot> {
    if a in s.written then s.written[a] else []
  }

  function WriteConfigMapStep(w: World, s: State, a: Key, snap: Snapshot): State {
    WithRun(
      s.(configMaps := s.configMaps[ConfigMapKey(a) := w.config(snap)], written := s.written[a := History(s, a) + [snap]]),
      a, Writing(snap, AtService))
  }

  function WriteServiceStep(s: State, a: Key, snap: Snapshot): State {
    WithRun(s.(services := s.services + {a}), a, Writing(snap, AtDataPVC))
  }

  function WriteDataPVCStep(s: State, a: Key, snap: Snapshot): State {
    var creates := snap.spec.volumeClaimTemplate.Some? && PVCKey(a) !in s.pvcs;
    WithRun(s.(pvcs := if creates then s.pvcs[PVCKey(a) := snap.spec.volumeClaimTemplate.value] else s.pvcs),
      a, Writing(snap, AtDeployment))
  }

  function WriteDeploymentStep(w: World, s: State, a: Key, snap: Snapshot): State {
    WithRun(s.(deployments := s.deployments[a := w.deployment(a, snap)]), a, Writing(snap, AtStatus))
  }

  function WriteStatusStep(w: World, s: State, a: Key, snap: Snapshot): State {
    s.(statuses := s.statuses[a := w.status(a, snap)], runs := s.runs - {a},
       delayed := if Missing(a, snap.readings) > 0 then s.delayed + {a} else s.delayed)
  }

  // ------------------------------------------------------------------ actions

  datatype Action =
    | PutClient(k: Key, clientSpec: ClientSpec)
    | DeleteClient(k: Key)
    | DropClientSecret(k: Key)
    | PutIngress(k: Key, body: IngressBody)
    | DeleteIngress(k: Key)
    | PutAuthelia(k: Key, spec: AutheliaSpec)
    | DeleteAuthelia(k: Key)
    | ReconcileClient(k: Key, draw: Draw, statusSaved: bool)
    | Enqueue(k: Key)
    | TimerFires(k: Key)
    | Restart
    | Dequeue(k: Key)
    | Fetch(k: Key)
    | ListClients(k: Key, list: seq<Client>)
    | ReadDigest(k: Key)
    | ListIngresses(k: Key, ings: seq<Ingress>, ordered: seq<OidcClient>)
    | WriteCoreSecret(k: Key, g: Generators)
    | WriteConfigMap(k: Key)
    | WriteService(k: Key)
    | WriteDataPVC(k: Key)
    | WriteDeployment(k: Key)
    | WriteStatus(k: Key)
    | Fail(k: Key)

  predicate IsObjectEdit(act: Action) {
    act.PutClient? || act.DeleteClient? || act.PutIngress? || act.DeleteIngress? || act.PutAuthelia? || act.DeleteAuthelia?
  }

  predicate IsQueueStep(act: Action) {
    act.Enqueue? || act.TimerFires? || act.Restart? || act.Dequeue? || act.Fail?
  }

  predicate IsReadStep(act: Action) {
    act.Fetch? || act.ListClients? || act.ReadDigest? || act.ListIngresses?
  }

  predicate NextCall(s: State, a: Key, stage: Stage) {
    a in s.runs && s.runs[a].Writing? && s.runs[a].stage == stage
  }

  /** When a step can happen. Edits pass the API server's validation first. */
  ghost predicate Enabled(s: State, act: Action) {
    match act
    case PutClient(_, _) => true
    case DeleteClient(k) => k in s.clients
    case DropClientSecret(k) => k !in s.clients
    case PutIngress(k, body) => Admissible(Object(k, body))
    case DeleteIngress(k) => k in s.ingresses
    case PutAuthelia(k, _) => k.name != ""
    case DeleteAuthelia(_) => true
    case ReconcileClient(_, draw, _) => GoodDraw(draw)
    case Enqueue(_) => true
    case TimerFires(k) => k in s.delayed
    case Restart => true
    case Dequeue(a) => a in s.dirty && a !in s.runs
    case Fetch(a) => a in s.runs && s.runs[a].Popped?
    case ListClients(a, list) => a in s.runs && s.runs[a].Fetched? && IsListing(list, s.clients)
    case ReadDigest(a) => a in s.runs && s.runs[a].Collecting? && s.runs[a].rest != []
    case ListIngresses(a, ings, ordered) =>
      a in s.runs && s.runs[a].Collecting? && s.runs[a].rest == [] && IsListing(ings, s.ingresses) &&
      SortedPermutation(IDLess, ordered, Rendered(a, s.runs[a].done))
    case WriteCoreSecret(a, g) => NextCall(s, a, AtCoreSecret) && GoodGenerators(g)
    case WriteConfigMap(a) => NextCall(s, a, AtConfigMap)
    case WriteService(a) => NextCall(s, a, AtService)
    case WriteDataPVC(a) => NextCall(s, a, AtDataPVC)
    case WriteDeployment(a) => NextCall(s, a, AtDeployment)
    case WriteStatus(a) => NextCall(s, a, AtStatus) && a in s.authelias
    case Fail(a) => a in s.runs
  }

  ghost function Apply(w: World, s: State, act: Action): State
    requires Enabled(s, act)
  {
    match act
    case PutClient(k, spec) => PutClientStep(s, k, spec)
    case DeleteClient(k) => DeleteClientStep(s, k)
    case DropClientSecret(k) => s.(secrets := s.secrets - {ClientSecretKey(k)})
    case PutIngress(k, body) => PutIngressStep(s, k, body)
    case DeleteIngress(k) => DeleteIngressStep(s, k)
    case PutAuthelia(k, spec) => PutAutheliaStep(s, k, spec)
    case DeleteAuthelia(k) => DeleteAutheliaStep(s, k)
    case ReconcileClient(k, draw, statusSaved) => ReconcileClientStep(w, s, k, draw, statusSaved)
    case Enqueue(k) => Enqueued(s, {k})
    case TimerFires(k) => Enqueued(s.(delayed := s.delayed - {k}), {k})
    case Restart => s.(runs := map[], delayed := {}, dirty := s.authelias.Keys)
    case Dequeue(a) => WithRun(s.(dirty := s.dirty - {a}), a, Popped)
    case Fetch(a) => FetchStep(s, a)
    case ListClients(a, list) => WithRun(s, a, Collecting(s.runs[a].spec, [], list))
    case ReadDigest(a) => ReadDigestStep(s, a, s.runs[a])
    case ListIngresses(a, ings, ordered) =>
      WithRun(s, a, Writing(Snapshot(s.runs[a].spec, s.runs[a].done, ordered, ings), AtCoreSecret))
    case WriteCoreSecret(a, g) => WriteCoreSecretStep(s, a, s.runs[a].snap, g)
    case WriteConfigMap(a) => WriteConfigMapStep(w, s, a, s.runs[a].snap)
    case WriteService(a) => WriteServiceStep(s, a, s.runs[a].snap)
    case WriteDataPVC(a) => WriteDataPVCStep(s, a, s.runs[a].snap)
    case WriteDeployment(a) => WriteDeploymentStep(w, s, a, s.runs[a].snap)
    case WriteStatus(a) => WriteStatusStep(w, s, a, s.runs[a].snap)
    case Fail(a) => Failed(s, a)
  }

  // --------------------------------------------------------------------- runs

  /**
   * The start: no resource of either kind yet. Secrets and claims may be there already; a client's
   * Secret holds no digest without the secret it verifies.
   */
  ghost predicate Init(w: World, s: State) {
    && s.clients == map[] && s.ingresses == map[] && s.authelias == map[] && s.statuses == map[]
    && s.configMaps == map[] && s.services == {} && s.deployments == map[]
    && s.dirty == {} && s.delayed == {} && s.runs == map[] && s.written == map[]
    && forall k :: Paired(w.verify, Stored(s.secrets, ClientSecretKey(k)))
  }

  /** `acts` lead from `s` to `t`. */
  ghost predicate Execution(w: World, s: State, acts: seq<Action>, t: State)
    decreases |acts|
  {
    if acts == [] then s == t
    else Enabled(s, acts[0]) && Execution(w, Apply(w, s, acts[0]), acts[1..], t)
  }

  ghost predicate Reachable(w: World, s: State) {
    exists s0, acts :: Init(w, s0) && Execution(w, s0, acts, s)
  }
}
