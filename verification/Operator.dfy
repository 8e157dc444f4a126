/** What the operator makes of a snapshot, and how little of the snapshot's accidental order shows in it. */
module Operator {
  import opened Sequences
  import opened Ordering
  import opened JsonTree
  import opened Objects
  import opened Settings
  import opened AccessRules
  import opened FirstMatch
  import opened Clients
  import opened Render
  import opened Digest
  import opened PodWiring
  import opened Cluster

  /** The checksum of a configuration, of which nothing is assumed. */
  type Checksum = JsonObject -> string

  ghost function ConfigOf(snap: Snapshot): JsonObject {
    RenderTree(snap.spec.settings, snap.ordered, RuleJsons(Compile(snap.ings)), snap.spec.hostname)
  }

  ghost function DeploymentFor(sha: Checksum, a: Key, snap: Snapshot): Deployment {
    DeploymentOf(a, snap.spec, Rendered(a, snap.readings) != [], sha(ConfigOf(snap)))
  }

  ghost function StatusFor(a: Key, snap: Snapshot): Status {
    Status(Sort(StringLess, Map(IDOf, Rendered(a, snap.readings))), FlatMap(RuleDomains, Compile(snap.ings)))
  }

  ghost function OperatorWorld(kdf: Kdf, sha: Checksum): World {
    World(KdfHash(kdf), KdfVerifier(kdf), snap => ConfigOf(snap), (a, snap) => DeploymentFor(sha, a, snap), (a, snap) => StatusFor(a, snap))
  }

  // --------------------------------------------------------- order does not show

  lemma RenderDependsOnEntries(settings: AutheliaSettings, r: seq<OidcClient>, t: seq<OidcClient>, rules: seq<Json>, hostname: string)
    requires Map(ClientJson, r) == Map(ClientJson, t)
    ensures RenderTree(settings, r, rules, hostname) == RenderTree(settings, t, rules, hostname)
  {
    assert |r| == |Map(ClientJson, r)| == |t|;
    assert ClientsValue(r) == ClientsValue(t);
  }

  /** The reported IDs are those of the clients in the order in which they are rendered. */
  lemma StatusInOrder(a: Key, snap: Snapshot)
    requires SortedPermutation(IDLess, snap.ordered, Rendered(a, snap.readings))
    ensures StatusFor(a, snap).oidcClients == Map(IDOf, snap.ordered)
  {
    ReportedIDsAreRendered(Rendered(a, snap.readings), snap.ordered);
  }

  function EntryID(entry: Json): string {
    if entry.JObj? then StringOf(FieldAt(entry.fields, "client_id")) else ""
  }

  /** The IDs in the client list of a configuration. */
  function ClientIDs(config: JsonObject): seq<string> {
    match Lookup(config, CLIENTS_PATH)
    case Some(JArr(items)) => Map(EntryID, items)
    case _ => []
  }

  lemma EntryHasID(c: OidcClient)
    ensures EntryID(ClientJson(c)) == c.spec.clientID
  {
    EntryHolds(c, 0);
    assert ClientFields(c)[0].name == "client_id";
  }

  /** The client list of a configuration: the rendered clients, else what additionalConfig lists. */
  lemma ConfiguredIDs(snap: Snapshot)
    ensures ClientIDs(ConfigOf(snap)) ==
      if snap.ordered != [] then Map(IDOf, snap.ordered) else ClientIDs(snap.spec.settings.additionalConfig)
  {
    SetPathsHold(snap.spec.settings, snap.ordered, RuleJsons(Compile(snap.ings)), snap.spec.hostname, 3);
    assert SET_PATHS[3] == CLIENTS_PATH;
    if snap.ordered != [] {
      var entries := Map(ClientJson, snap.ordered);
      forall i | 0 <= i < |entries| ensures EntryID(entries[i]) == IDOf(snap.ordered[i]) {
        EntryHasID(snap.ordered[i]);
      }
      assert Map(EntryID, entries) == Map(IDOf, snap.ordered);
    }
  }

  /**
   * The status lists the client IDs of the configuration, one by one, unless no client is rendered and
   * additionalConfig lists clients of its own: those are in the configuration and not in the status.
   */
  lemma StatusMatchesConfigIff(a: Key, snap: Snapshot)
    requires SortedPermutation(IDLess, snap.ordered, Rendered(a, snap.readings))
    ensures StatusFor(a, snap).oidcClients == ClientIDs(ConfigOf(snap)) <==>
      (snap.ordered != [] || ClientIDs(snap.spec.settings.additionalConfig) == [])
  {
    StatusInOrder(a, snap);
    ConfiguredIDs(snap);
  }

  /** Two snapshots of the same objects, taken in different orders. */
  ghost predicate SameContents(a: Key, x: Snapshot, y: Snapshot) {
    && x.spec == y.spec
    && multiset(Rendered(a, x.readings)) == multiset(Rendered(a, y.readings))
    && SortedPermutation(IDLess, x.ordered, Rendered(a, x.readings))
    && SortedPermutation(IDLess, y.ordered, Rendered(a, y.readings))
    && multiset(Filter(OptsIn, x.ings)) == multiset(Filter(OptsIn, y.ings))
    && UniqueKeys(x.ings) && forall ing :: ing in x.ings ==> Admissible(ing)
  }

  lemma OrderDoesNotShow(sha: Checksum, a: Key, x: Snapshot, y: Snapshot)
    requires SameContents(a, x, y)
    ensures StatusFor(a, x) == StatusFor(a, y)
    ensures EntriesAgreeOnIDs(Rendered(a, x.readings)) ==>
      ConfigOf(x) == ConfigOf(y) && DeploymentFor(sha, a, x) == DeploymentFor(sha, a, y)
  {
    var rx, ry := Rendered(a, x.readings), Rendered(a, y.readings);
    CompileDependsOnOptedIn(x.ings, y.ings);
    MapPermutation(IDOf, rx, ry);
    StringLessIsOrder();
    StringsSeparated(Map(IDOf, rx));
    SortIgnoresOrder(StringLess, Map(IDOf, rx), Map(IDOf, ry));
    if EntriesAgreeOnIDs(rx) {
      SameEntries(rx, x.ordered, y.ordered);
      RenderDependsOnEntries(x.spec.settings, x.ordered, y.ordered, RuleJsons(Compile(x.ings)), x.spec.hostname);
      assert |rx| == |multiset(rx)| == |ry|;
    }
  }

  /** Different client entries show in the configuration. */
  lemma EntriesShow(x: Snapshot, y: Snapshot)
    requires Map(ClientJson, x.ordered) != Map(ClientJson, y.ordered) && |x.ordered| == |y.ordered|
    ensures ConfigOf(x) != ConfigOf(y)
  {
    SetPathsHold(x.spec.settings, x.ordered, RuleJsons(Compile(x.ings)), x.spec.hostname, 3);
    SetPathsHold(y.spec.settings, y.ordered, RuleJsons(Compile(y.ings)), y.spec.hostname, 3);
    assert x.ordered != [] && y.ordered != [];
    assert ClientsValue(x.ordered) != ClientsValue(y.ordered);
  }
}
