/**
 * The two Reconcile methods as they run, call by call, on an API server that anyone may have written
 * to before. Each is proved to do nothing but steps of the concurrent system in module Cluster, also
 * when a call fails, and the Authelia reconcile to reach `PassState` when none does.
 */
module Reconcilers {
  import opened Sequences
  import opened Ordering
  import opened JsonTree
  import opened Objects
  import opened Settings
  import opened AccessRules
  import opened FirstMatch
  import opened Clients
  import opened Render
  import opened RenderHeap
  import opened Digest
  import opened ClientSecret
  import opened CoreSecret
  import opened PodWiring
  import opened Cluster
  import opened Operator
  import opened Convergence
  import opened AutheliaPass

  /** A Secret in memory, whose data is edited in place. */
  class SecretObject {
    var data: SecretData

    constructor (data: SecretData)
      ensures this.data == data
    {
      this.data := data;
    }

    method MutateClientSecret(hash: Hash, clientID: string, public: bool, draw: Draw) returns (ok: bool)
      modifies this
      ensures var filled := FillClientSecret(hash, old(data), clientID, public, draw);
        ok == filled.Some? && (ok ==> data == filled.value)
    {
      data := data[ID_KEY := clientID];
      if public {
        data := data - {SECRET_KEY};
        data := data - {DIGEST_KEY};
        return true;
      }
      if DataAt(data, SECRET_KEY) == "" {
        if draw.secret.None? {
          return false;
        }
        data := data[SECRET_KEY := draw.secret.value];
      }
      if DataAt(data, DIGEST_KEY) == "" {
        if draw.salt.None? {
          return false;
        }
        data := data[DIGEST_KEY := hash(data[SECRET_KEY], draw.salt.value)];
      }
      return true;
    }

    /** Fills the data key by key; a failing generator leaves it half filled and reports so. */
    method Generate(keys: seq<string>, g: Generators) returns (ok: bool)
      modifies this
      ensures ok == FillKeys(old(data), keys, g).Some?
      ensures ok ==> data == FillKeys(old(data), keys, g).value
    {
      for i := 0 to |keys|
        invariant FillKeys(old(data), keys[..i], g) == Some(data)
      {
        assert keys[..i + 1][..i] == keys[..i];
        if DataAt(data, keys[i]) != "" {
          continue;
        }
        if g(keys[i]).None? {
          FailedPrefix(old(data), keys, i + 1, g);
          return false;
        }
        data := data[keys[i] := g(keys[i]).value];
      }
      assert keys[..|keys|] == keys;
      return true;
    }
  }

  /** The calls of an Authelia reconcile that may fail. */
  datatype Call = ReadingClients | ReadingIngresses | Making(stage: Stage)

  class ApiServer {
    var clients: map<Key, ClientBody>
    var ingresses: map<Key, IngressBody>
    var authelias: map<Key, AutheliaSpec>
    var statuses: map<Key, Status>
    var secrets: map<Key, SecretData>
    var configMaps: map<Key, JsonObject>
    var services: set<Key>
    var pvcs: map<Key, string>
    var deployments: map<Key, Deployment>

    /** The server holds the objects of `s`. */
    ghost predicate Shows(s: State)
      reads this
    {
      && clients == s.clients && ingresses == s.ingresses && authelias == s.authelias && statuses == s.statuses
      && secrets == s.secrets && configMaps == s.configMaps && services == s.services && pvcs == s.pvcs
      && deployments == s.deployments
    }

    // -------------------------------------------------------- client reconcile

    /** `statusSaved` is whether the status update at the end goes through. */
    method ReconcileClient(hash: Hash, k: Key, draw: Draw, statusSaved: bool)
      modifies this`secrets, this`clients
      ensures k !in old(clients) ==> unchanged(this)
      ensures k in old(clients) ==>
        var c := Object(k, old(clients)[k]);
        var filled := FillClientSecret(hash, Stored(old(secrets), ClientSecretKey(k)), EffectiveID(c), c.body.spec.public, draw);
        && secrets == (if filled.Some? then old(secrets)[ClientSecretKey(k) := filled.value] else old(secrets))
        && clients == if filled.Some? && statusSaved then old(clients)[k := c.body.(secretName := OAuthSecretName(k.name))]
                      else old(clients)
    {
      if k !in clients {
        return;
      }
      var c := Object(k, clients[k]);
      var secretName := OAuthSecretName(k.name);
      var secret := new SecretObject(Stored(secrets, Key(k.ns, secretName)));
      var ok := secret.MutateClientSecret(hash, EffectiveID(c), c.body.spec.public, draw);
      if !ok {
        return;
      }
      secrets := secrets[Key(k.ns, secretName) := secret.data];
      if c.body.secretName != secretName && statusSaved {
        clients := clients[k := c.body.(secretName := secretName)];
      } else if statusSaved {
        assert c.body == c.body.(secretName := secretName);
        assert clients == clients[k := c.body];
      }
    }

    // ------------------------------------------- calls of an Authelia reconcile

    /** CreateOrUpdate: a failed fill persists nothing, although the object in memory has changed. */
    method ReconcileCoreSecret(a: Key, spec: AutheliaSpec, g: Generators) returns (ok: bool)
      modifies this`secrets
      ensures ok == Fillable(old(secrets), a, spec, g)
      ensures secrets == FilledSecrets(old(secrets), a, spec, g)
    {
      if spec.existingSecret != "" {
        return true;
      }
      var secret := new SecretObject(Stored(secrets, ManagedSecretKey(a)));
      ok := secret.Generate(CORE_KEYS, g);
      if ok {
        secrets := secrets[ManagedSecretKey(a) := secret.data];
      }
    }

    method ReconcileConfigMap(a: Key, rendered: JsonObject)
      modifies this`configMaps
      ensures configMaps == old(configMaps)[ConfigMapKey(a) := rendered]
    {
      configMaps := configMaps[ConfigMapKey(a) := rendered];
    }

    method ReconcileService(a: Key)
      modifies this`services
      ensures services == old(services) + {a}
    {
      services := services + {a};
    }

    /** The claim is created once and never updated. */
    method ReconcileDataPVC(a: Key, spec: AutheliaSpec)
      modifies this`pvcs
      ensures pvcs == WithClaim(old(pvcs), a, spec)
    {
      if spec.volumeClaimTemplate.None? || PVCKey(a) in pvcs {
        return;
      }
      pvcs := pvcs[PVCKey(a) := spec.volumeClaimTemplate.value];
    }

    method ReconcileDeployment(a: Key, desired: Deployment)
      modifies this`deployments
      ensures deployments == old(deployments)[a := desired]
    {
      deployments := deployments[a := desired];
    }

    method UpdateStatus(a: Key, status: Status)
      modifies this`statuses
      ensures statuses == old(statuses)[a := status]
    {
      statuses := statuses[a := status];
    }
  }

  /** Printing the rendered maps: what comes out is the tree they spell out. */
  method Marshal(node: MapNode) returns (t: JsonObject)
    requires node.Valid()
    ensures t == node.Tree()
    decreases node.repr
  {
    t := map[];
    var rest := node.fields.Keys;
    while rest != {}
      invariant rest <= node.fields.Keys
      invariant t == node.Tree() - rest
      decreases |rest|
    {
      var k: string :| k in rest;
      match node.fields[k] {
        case Plain(j) => t := t[k := j];
        case Nested(child) =>
          var below := Marshal(child);
          t := t[k := JObj(below)];
      }
      DomainOneLess(node.Tree(), rest, k);
      rest := rest - {k};
    }
    assert t == node.Tree();
  }

  /** The rendering of one reconcile, from the rules and clients it has collected. */
  method RenderCollected(spec: AutheliaSpec, clients: seq<OidcClient>, rules: seq<AccessRule>)
    returns (rendered: JsonObject, ghost ordered: seq<OidcClient>)
    ensures SortedPermutation(IDLess, ordered, clients)
    ensures rendered == RenderTree(spec.settings, ordered, RuleJsons(rules), spec.hostname)
  {
    var jsons := [];
    for i := 0 to |rules|
      invariant jsons == RuleJsons(rules[..i])
    {
      PrefixOneMore(rules, i);
      MapAppend(RuleJson, rules[..i], rules[i]);
      jsons := jsons + [RuleJson(rules[i])];
    }
    assert rules[..|rules|] == rules;
    var root;
    root, ordered := RenderConfig(spec.settings, clients, jsons, spec.hostname);
    rendered := Marshal(root);
  }

  /** The step of the concurrent system, object by object. */
  lemma ClientStepWrites(w: World, s: State, k: Key, draw: Draw, statusSaved: bool)
    requires k in s.clients
    ensures var t := ReconcileClientStep(w, s, k, draw, statusSaved);
      var c := Object(k, s.clients[k]);
      var filled := FillClientSecret(w.hash, Stored(s.secrets, ClientSecretKey(k)), EffectiveID(c), c.body.spec.public, draw);
      && SameObjects(t, s.(secrets := t.secrets, clients := t.clients))
      && t.secrets == (if filled.Some? then s.secrets[ClientSecretKey(k) := filled.value] else s.secrets)
      && t.clients == if filled.Some? && statusSaved then s.clients[k := c.body.(secretName := OAuthSecretName(k.name))]
                      else s.clients
  {
    var c := Object(k, s.clients[k]);
    if c.body.secretName == OAuthSecretName(k.name) {
      assert c.body == c.body.(secretName := OAuthSecretName(k.name));
      assert s.clients == s.clients[k := c.body];
    }
  }

  lemma ClientStepLeads(w: World, s: State, k: Key, draw: Draw, statusSaved: bool)
    requires GoodDraw(draw)
    ensures LeadsTo(w, s, ReconcileClientStep(w, s, k, draw, statusSaved))
  {
    ReachableIsClosed(w, s);
    Step(w, ReachableFrom(w, s), s, Action.ReconcileClient(k, draw, statusSaved), ReconcileClientStep(w, s, k, draw, statusSaved));
  }

  method ReconcileAsStep(server: ApiServer, ghost w: World, hash: Hash, ghost s: State, k: Key, draw: Draw, statusSaved: bool)
    requires server.Shows(s) && hash == w.hash
    modifies server
    ensures server.Shows(ReconcileClientStep(w, s, k, draw, statusSaved))
  {
    server.ReconcileClient(hash, k, draw, statusSaved);
    if k in s.clients {
      ClientStepWrites(w, s, k, draw, statusSaved);
    }
  }

  /** Reconcile of an OAuth client is one step of the concurrent system, also when it fails. */
  method ReconcileOAuthClient(server: ApiServer, ghost w: World, hash: Hash, ghost s: State, k: Key, draw: Draw, statusSaved: bool)
    requires server.Shows(s) && hash == w.hash && GoodDraw(draw)
    modifies server
    ensures server.Shows(ReconcileClientStep(w, s, k, draw, statusSaved))
    ensures LeadsTo(w, s, ReconcileClientStep(w, s, k, draw, statusSaved))
  {
    ReconcileAsStep(server, w, hash, s, k, draw, statusSaved);
    ClientStepLeads(w, s, k, draw, statusSaved);
  }

  method ReportIDs(clients: seq<OidcClient>) returns (clientIDs: seq<string>)
    ensures clientIDs == Sort(StringLess, Map(IDOf, clients))
  {
    clientIDs := [];
    for i := 0 to |clients|
      invariant clientIDs == Map(IDOf, clients[..i])
    {
      PrefixOneMore(clients, i);
      MapAppend(IDOf, clients[..i], clients[i]);
      clientIDs := clientIDs + [IDOf(clients[i])];
    }
    assert clients[..|clients|] == clients;
    clientIDs := SortStrings(clientIDs);
  }

  /** What an Authelia reconcile makes of what it has read, before it writes. */
  datatype Desired = Desired(config: JsonObject, deployment: Deployment, status: Status, missing: nat)

  ghost predicate Agrees(w: World, a: Key, snap: Snapshot, d: Desired) {
    d == Desired(w.config(snap), w.deployment(a, snap), w.status(a, snap), Missing(a, snap.readings))
  }

  /** Reads, renders and builds. Nothing comes of it if a client's Secret cannot be read. */
  method Prepare(server: ApiServer, ghost kdf: Kdf, sha: Checksum, a: Key, spec: AutheliaSpec, list: seq<Client>,
      ings: seq<Ingress>, unreadable: set<Key>)
    returns (d: Option<Desired>, ghost ordered: seq<OidcClient>)
    ensures unreadable == {} ==> d.Some?
    ensures d.Some? ==>
      var snap := Snapshot(spec, Map(Observe(a, server.secrets), list), ordered, ings);
      SortedPermutation(IDLess, ordered, Rendered(a, snap.readings)) && Agrees(OperatorWorld(kdf, sha), a, snap, d.value)
  {
    d, ordered := None, [];
    var clients, missing, readable := CollectClients(a, list, server.secrets, unreadable);
    if readable {
      var rules, domains := CollectIngressRules(ings);
      var rendered;
      rendered, ordered := RenderCollected(spec, clients, rules);
      var deployment := BuildDeployment(a, spec, clients != [], sha(rendered));
      var clientIDs := ReportIDs(clients);
      d := Some(Desired(rendered, deployment, Status(clientIDs, domains), missing));
    }
  }

  function CallsMade(o: Outcome): nat {
    match o
    case Stopped(stage) => Rank(stage)
    case Completed => 6
    case _ => 0
  }

  function OutcomeAfter(made: nat): (o: Outcome)
    requires made <= 6
    ensures CallsMade(o) == made && (o.Completed? || o.Stopped?)
  {
    if made == 6 then Completed
    else Stopped([AtCoreSecret, AtConfigMap, AtService, AtDataPVC, AtDeployment, AtStatus][made])
  }

  /** The writing calls up to the Service, until one fails; `made` counts those that have gone through. */
  method WriteFirst(server: ApiServer, a: Key, spec: AutheliaSpec, d: Desired, g: Generators, failing: set<Call>)
    returns (made: nat)
    modifies server`secrets, server`configMaps, server`services
    ensures made <= 3
    ensures server.secrets == if made > 0 then FilledSecrets(old(server.secrets), a, spec, g) else old(server.secrets)
    ensures server.configMaps == if made > 1 then old(server.configMaps)[ConfigMapKey(a) := d.config] else old(server.configMaps)
    ensures server.services == if made > 2 then old(server.services) + {a} else old(server.services)
    ensures made > 0 ==> Fillable(old(server.secrets), a, spec, g)
    ensures failing == {} && Fillable(old(server.secrets), a, spec, g) ==> made == 3
  {
    if Making(AtCoreSecret) in failing { return 0; }
    var ok := server.ReconcileCoreSecret(a, spec, g);
    if !ok { return 0; }
    if Making(AtConfigMap) in failing { return 1; }
    server.ReconcileConfigMap(a, d.config);
    if Making(AtService) in failing { return 2; }
    server.ReconcileService(a);
    return 3;
  }

  /** The writing calls from the data claim on. */
  method WriteRest(server: ApiServer, a: Key, spec: AutheliaSpec, d: Desired, failing: set<Call>) returns (made: nat)
    modifies server`pvcs, server`deployments, server`statuses
    ensures 3 <= made <= 6 && (failing == {} ==> made == 6)
    ensures server.pvcs == if made > 3 then WithClaim(old(server.pvcs), a, spec) else old(server.pvcs)
    ensures server.deployments == if made > 4 then old(server.deployments)[a := d.deployment] else old(server.deployments)
    ensures server.statuses == if made > 5 then old(server.statuses)[a := d.status] else old(server.statuses)
  {
    if Making(AtDataPVC) in failing { return 3; }
    server.ReconcileDataPVC(a, spec);
    if Making(AtDeployment) in failing { return 4; }
    server.ReconcileDeployment(a, d.deployment);
    if Making(AtStatus) in failing { return 5; }
    server.UpdateStatus(a, d.status);
    return 6;
  }

  /** The writing calls of one reconcile. */
  method WriteAll(server: ApiServer, a: Key, spec: AutheliaSpec, d: Desired, g: Generators, failing: set<Call>)
    returns (made: nat)
    modifies server`secrets, server`configMaps, server`services, server`pvcs, server`deployments, server`statuses
    ensures made <= 6
    ensures server.secrets == if made > 0 then FilledSecrets(old(server.secrets), a, spec, g) else old(server.secrets)
    ensures server.configMaps == if made > 1 then old(server.configMaps)[ConfigMapKey(a) := d.config] else old(server.configMaps)
    ensures server.services == if made > 2 then old(server.services) + {a} else old(server.services)
    ensures server.pvcs == if made > 3 then WithClaim(old(server.pvcs), a, spec) else old(server.pvcs)
    ensures server.deployments == if made > 4 then old(server.deployments)[a := d.deployment] else old(server.deployments)
    ensures server.statuses == if made > 5 then old(server.statuses)[a := d.status] else old(server.statuses)
    ensures made > 0 ==> Fillable(old(server.secrets), a, spec, g)
    ensures failing == {} && Fillable(old(server.secrets), a, spec, g) ==> made == 6
  {
    made := WriteFirst(server, a, spec, d, g, failing);
    if made == 3 {
      made := WriteRest(server, a, spec, d, failing);
    }
  }

  method WriteSnapshot(server: ApiServer, ghost w: World, ghost s: State, a: Key, ghost snap: Snapshot, spec: AutheliaSpec,
      d: Desired, g: Generators, failing: set<Call>)
    returns (made: nat)
    requires server.Shows(s) && spec == snap.spec && Agrees(w, a, snap, d)
    modifies server
    ensures made <= 6 && server.Shows(Wrote(w, s, a, snap, g, made))
    ensures made > 0 ==> Fillable(s.secrets, a, spec, g)
    ensures failing == {} && Fillable(s.secrets, a, spec, g) ==> made == 6
  {
    made := WriteAll(server, a, spec, d, g, failing);
  }

  lemma OutcomeObjects(w: World, s: State, a: Key, ch: Choice, o: Outcome)
    requires o.Completed? || o.Stopped? ==> a in s.authelias
    ensures SameObjects(OutcomeState(w, s, a, ch, o),
      if o.Completed? || o.Stopped? then Wrote(w, s, a, SnapshotNow(s, a, ch), ch.g, CallsMade(o)) else s)
  {
  }

  /** The reading half of a reconcile; `d` is what it is going to write, if it gets that far. */
  method Read(server: ApiServer, ghost kdf: Kdf, sha: Checksum, a: Key, list: seq<Client>, ings: seq<Ingress>,
      unreadable: set<Key>, failing: set<Call>)
    returns (d: Option<Desired>, ghost ordered: seq<OidcClient>)
    ensures d.Some? ==> a in server.authelias
    ensures d.Some? ==>
      var snap := Snapshot(server.authelias[a], Map(Observe(a, server.secrets), list), ordered, ings);
      SortedPermutation(IDLess, ordered, Rendered(a, snap.readings)) && Agrees(OperatorWorld(kdf, sha), a, snap, d.value)
    ensures a in server.authelias && unreadable == {} && failing == {} ==> d.Some?
  {
    d, ordered := None, [];
    if a in server.authelias && ReadingClients !in failing && ReadingIngresses !in failing {
      d, ordered := Prepare(server, kdf, sha, a, server.authelias[a], list, ings, unreadable);
    }
  }

  /** The writing half, when everything has been read. */
  method Finish(server: ApiServer, ghost w: World, ghost s: State, a: Key, ghost ch: Choice, spec: AutheliaSpec,
      d: Desired, g: Generators, failing: set<Call>)
    returns (completed: bool, ghost o: Outcome)
    requires server.Shows(s) && GoodRead(s, a, ch) && spec == s.authelias[a] && g == ch.g && GoodGenerators(g)
    requires Agrees(w, a, SnapshotNow(s, a, ch), d)
    modifies server
    ensures Possible(s, a, ch, o) && server.Shows(OutcomeState(w, s, a, ch, o))
    ensures completed == o.Completed?
    ensures failing == {} && CoreFillable(s, a, spec, g) ==> completed
  {
    var made := WriteSnapshot(server, w, s, a, SnapshotNow(s, a, ch), spec, d, g, failing);
    completed, o := made == 6, OutcomeAfter(made);
    OutcomeObjects(w, s, a, ch, o);
  }

  /** Nothing is written when there is no Authelia or a read has failed. */
  lemma GivenUpShows(server: ApiServer, w: World, s: State, a: Key, ch: Choice) returns (o: Outcome)
    requires server.Shows(s)
    ensures Possible(s, a, ch, o) && server.Shows(OutcomeState(w, s, a, ch, o)) && !o.Completed?
  {
    o := if a in s.authelias then Unread else Gone;
    OutcomeObjects(w, s, a, ch, o);
  }

  /**
   * Reconcile of an Authelia. `list` and `ings` are what the List calls return, `unreadable` the clients
   * whose Secret cannot be read, and `failing` the calls that fail. The server ends up in the state of a
   * possible outcome `o`, which the steps of the concurrent system lead to.
   */
  method Reconcile(server: ApiServer, ghost kdf: Kdf, sha: Checksum, ghost s: State, a: Key,
      list: seq<Client>, ings: seq<Ingress>, g: Generators, unreadable: set<Key>, failing: set<Call>)
    returns (requeue: bool, ghost ch: Choice, ghost o: Outcome)
    requires server.Shows(s) && a in s.dirty && a !in s.runs && GoodGenerators(g)
    requires IsListing(list, s.clients) && IsListing(ings, s.ingresses)
    modifies server
    ensures ch.list == list && ch.ings == ings && ch.g == g && Possible(s, a, ch, o)
    ensures server.Shows(OutcomeState(OperatorWorld(kdf, sha), s, a, ch, o))
    ensures LeadsTo(OperatorWorld(kdf, sha), s, OutcomeState(OperatorWorld(kdf, sha), s, a, ch, o))
    ensures o.Completed? ==> requeue == (Missing(a, ReadNow(s, a, list)) > 0)
    ensures failing == {} && unreadable == {} && a in s.authelias && CoreFillable(s, a, s.authelias[a], g) ==> o.Completed?
  {
    var d, completed;
    ghost var ordered;
    d, ordered := Read(server, kdf, sha, a, list, ings, unreadable, failing);
    ch := Choice(list, ings, ordered, g);
    if d.None? {
      requeue := false;
      o := GivenUpShows(server, OperatorWorld(kdf, sha), s, a, ch);
    } else {
      completed, o := Finish(server, OperatorWorld(kdf, sha), s, a, ch, server.authelias[a], d.value, g, failing);
      requeue := completed && d.value.missing > 0;
    }
    OutcomeIsExecution(OperatorWorld(kdf, sha), s, a, ch, o);
  }
}
