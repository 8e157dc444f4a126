/**
 * OAuth clients: which Authelia they belong to, which of them are ready to be rendered, and the
 * entry each gets in the configuration (collectClients, clientToMap and the client watch).
 */
module Clients {
  import opened Sequences
  import opened Ordering
  import opened JsonTree
  import opened Objects

  datatype AutheliaReference = AutheliaReference(name: string, ns: string)

  datatype ClientSpec = ClientSpec(
    autheliaRef: AutheliaReference,
    clientID: string,
    clientName: string,
    public: bool,
    authorizationPolicy: string,
    consentMode: string,
    claimsPolicy: string,
    lifespan: string,
    redirectURIs: seq<string>,
    scopes: seq<string>,
    grantTypes: seq<string>,
    responseTypes: seq<string>,
    tokenEndpointAuthMethod: string,
    userinfoSignedResponseAlg: string
  )

  /** The spec and the Secret name the client controller has put into the status. */
  datatype ClientBody = ClientBody(spec: ClientSpec, secretName: string)

  type Client = Object<ClientBody>
  type SecretData = map<string, string>

  datatype OidcClient = OidcClient(spec: ClientSpec, secretDigest: string)

  const DIGEST_KEY: string := "client_secret_digest"
  const SECRET_KEY: string := "client_secret"
  const ID_KEY: string := "client_id"

  function DataAt(data: SecretData, k: string): string {
    if k in data then data[k] else ""
  }

  /** The data of a stored Secret, empty when there is none. */
  function Stored(secrets: map<Key, SecretData>, k: Key): SecretData {
    if k in secrets then secrets[k] else map[]
  }

  function OAuthSecretName(clientName: string): string {
    clientName + "-oauth-secret"
  }

  function EffectiveID(c: Client): string {
    if c.body.spec.clientID == "" then c.key.name else c.body.spec.clientID
  }

  // ------------------------------------------------------ targets and routing

  predicate Targets(c: Client, a: Key) {
    && c.body.spec.autheliaRef.name == a.name
    && (if c.body.spec.autheliaRef.ns == "" then c.key.ns else c.body.spec.autheliaRef.ns) == a.ns
  }

  /** The Authelia an event on `c` enqueues. */
  function RouteOf(c: Client): Option<Key> {
    var ns := if c.body.spec.autheliaRef.ns == "" then c.key.ns else c.body.spec.autheliaRef.ns;
    if c.body.spec.autheliaRef.name == "" then None else Some(Key(ns, c.body.spec.autheliaRef.name))
  }

  /** Watch and collection agree: an event on `c` enqueues exactly the Authelia that collects `c`. */
  lemma RoutedIffTargeted(c: Client, a: Key)
    requires a.name != ""
    ensures RouteOf(c) == Some(a) <==> Targets(c, a)
  {
  }

  // ---------------------------------------------------------------- collecting

  /** One listed client together with the digest read for it, "" when there is none yet. */
  datatype Reading = Reading(client: Client, digest: string)

  predicate Confidential(c: Client) {
    !c.body.spec.public
  }

  predicate IsPending(r: Reading, a: Key) {
    Targets(r.client, a) && Confidential(r.client) && r.digest == ""
  }

  predicate IsReady(r: Reading, a: Key) {
    Targets(r.client, a) && (Confidential(r.client) ==> r.digest != "")
  }

  function Pending(a: Key): Reading -> bool { r => IsPending(r, a) }

  function Ready(a: Key): Reading -> bool { r => IsReady(r, a) }

  function Foreign(a: Key): Reading -> bool { (r: Reading) => !Targets(r.client, a) }

  function OidcClientOf(r: Reading): OidcClient {
    OidcClient(r.client.body.spec.(clientID := EffectiveID(r.client)), if Confidential(r.client) then r.digest else "")
  }

  function Entry(a: Key): Reading -> seq<OidcClient> {
    r => if IsReady(r, a) then [OidcClientOf(r)] else []
  }

  function Rendered(a: Key, readings: seq<Reading>): seq<OidcClient> {
    FlatMap(Entry(a), readings)
  }

  function Missing(a: Key, readings: seq<Reading>): nat {
    |Filter(Pending(a), readings)|
  }

  function SecretKeyOf(c: Client): Key {
    Key(c.key.ns, if c.body.secretName == "" then OAuthSecretName(c.key.name) else c.body.secretName)
  }

  function DigestOf(secrets: map<Key, SecretData>, c: Client): string {
    DataAt(Stored(secrets, SecretKeyOf(c)), DIGEST_KEY)
  }

  predicate NeedsDigest(c: Client, a: Key) {
    Targets(c, a) && Confidential(c)
  }

  function Observe(a: Key, secrets: map<Key, SecretData>): Client -> Reading {
    c => Reading(c, if NeedsDigest(c, a) then DigestOf(secrets, c) else "")
  }

  lemma ReadOneMore(a: Key, observe: Client -> Reading, list: seq<Client>, c: Client)
    ensures Rendered(a, Map(observe, list + [c])) == Rendered(a, Map(observe, list)) + Entry(a)(observe(c))
    ensures Missing(a, Map(observe, list + [c])) == Missing(a, Map(observe, list)) + if Pending(a)(observe(c)) then 1 else 0
  {
    MapAppend(observe, list, c);
    FlatMapAppend(Entry(a), Map(observe, list), observe(c));
    FilterAppend(Pending(a), Map(observe, list), observe(c));
  }

  /** `failing` are the clients whose Secret cannot be read, other than for not being there. */
  method CollectClients(a: Key, list: seq<Client>, secrets: map<Key, SecretData>, failing: set<Key>)
    returns (clients: seq<OidcClient>, missing: nat, ok: bool)
    ensures ok <==> forall c :: c in list && NeedsDigest(c, a) ==> c.key !in failing
    ensures ok ==> clients == Rendered(a, Map(Observe(a, secrets), list))
    ensures ok ==> missing == Missing(a, Map(Observe(a, secrets), list))
  {
    clients, missing, ok := [], 0, true;
    ghost var observe := Observe(a, secrets);
    for i := 0 to |list|
      invariant ok && forall c :: c in list[..i] && NeedsDigest(c, a) ==> c.key !in failing
      invariant clients == Rendered(a, Map(observe, list[..i]))
      invariant missing == Missing(a, Map(observe, list[..i]))
    {
      var c := list[i];
      PrefixOneMore(list, i);
      ReadOneMore(a, observe, list[..i], c);
      if !Targets(c, a) {
        continue;
      }
      var spec := c.body.spec.(clientID := EffectiveID(c));
      if c.body.spec.public {
        clients := clients + [OidcClient(spec, "")];
        continue;
      }
      if c.key in failing {
        return [], 0, false;
      }
      var digest := DigestOf(secrets, c);
      if digest == "" {
        missing := missing + 1;
        continue;
      }
      clients := clients + [OidcClient(spec, digest)];
    }
    assert list[..|list|] == list;
  }

  /** Every listed client is one of: not this Authelia's, counted as missing, or rendered once. */
  lemma ClientsConserved(a: Key, readings: seq<Reading>)
    ensures multiset(readings) ==
      multiset(Filter(Foreign(a), readings)) + multiset(Filter(Pending(a), readings)) + multiset(Filter(Ready(a), readings))
    ensures Rendered(a, readings) == Map(OidcClientOf, Filter(Ready(a), readings))
  {
    FilterPartition(Foreign(a), Pending(a), Ready(a), readings);
    FlatMapOfFiltered(OidcClientOf, Entry(a), Ready(a), readings);
  }

  // ------------------------------------------------------- the rendered entry

  /** A key of an entry and the value it is set to, if any. */
  datatype Field = Field(name: string, value: Option<Json>)

  function NonEmpty(s: string): Option<Json> {
    if s == "" then None else Some(JStr(s))
  }

  function NonEmptyList(ss: seq<string>): Option<Json> {
    if ss == [] then None else Some(JArr(Strings(ss)))
  }

  /** The assignments that build an entry, in order. */
  function ClientFields(c: OidcClient): seq<Field> {
    [
      Field("client_id", Some(JStr(c.spec.clientID))),
      Field("client_name", NonEmpty(c.spec.clientName)),
      Field("public", if c.spec.public then Some(JBool(true)) else None),
      Field("client_secret", if c.spec.public then None else Some(JStr(c.secretDigest))),
      Field("authorization_policy", NonEmpty(c.spec.authorizationPolicy)),
      Field("consent_mode", NonEmpty(c.spec.consentMode)),
      Field("claims_policy", NonEmpty(c.spec.claimsPolicy)),
      Field("lifespan", NonEmpty(c.spec.lifespan)),
      Field("redirect_uris", NonEmptyList(c.spec.redirectURIs)),
      Field("scopes", NonEmptyList(c.spec.scopes)),
      Field("grant_types", NonEmptyList(c.spec.grantTypes)),
      Field("response_types", NonEmptyList(c.spec.responseTypes)),
      Field("token_endpoint_auth_method", NonEmpty(c.spec.tokenEndpointAuthMethod)),
      Field("userinfo_signed_response_alg", NonEmpty(c.spec.userinfoSignedResponseAlg))
    ]
  }

  function Assign(fields: seq<Field>): JsonObject {
    if fields == [] then map[]
    else
      var m := Assign(fields[..|fields| - 1]);
      var f := fields[|fields| - 1];
      if f.value.Some? then m[f.name := f.value.value] else m
  }

  function ClientToMap(c: OidcClient): JsonObject {
    Assign(ClientFields(c))
  }

  function ClientJson(c: OidcClient): Json {
    JObj(ClientToMap(c))
  }

  function FieldAt(m: JsonObject, k: string): Option<Json> {
    if k in m then Some(m[k]) else None
  }

  function StringOf(v: Option<Json>): string {
    if v.Some? && v.value.JStr? then v.value.s else ""
  }

  function ListOf(v: Option<Json>): seq<string> {
    if v.Some? && v.value.JArr? then
      Map((j: Json) => if j.JStr? then j.s else "", v.value.items)
    else []
  }

  /** Reads a rendered entry back. */
  function ClientFromMap(ref: AutheliaReference, m: JsonObject): OidcClient {
    OidcClient(
      ClientSpec(ref, StringOf(FieldAt(m, "client_id")), StringOf(FieldAt(m, "client_name")), FieldAt(m, "public") == Some(JBool(true)),
        StringOf(FieldAt(m, "authorization_policy")), StringOf(FieldAt(m, "consent_mode")), StringOf(FieldAt(m, "claims_policy")),
        StringOf(FieldAt(m, "lifespan")), ListOf(FieldAt(m, "redirect_uris")), ListOf(FieldAt(m, "scopes")), ListOf(FieldAt(m, "grant_types")),
        ListOf(FieldAt(m, "response_types")), StringOf(FieldAt(m, "token_endpoint_auth_method")),
        StringOf(FieldAt(m, "userinfo_signed_response_alg"))),
      StringOf(FieldAt(m, "client_secret")))
  }

  ghost predicate DistinctNames(fields: seq<Field>) {
    forall i, j :: 0 <= i < j < |fields| ==> fields[i].name != fields[j].name
  }

  lemma {:induction false} AssignedAt(fields: seq<Field>, i: nat)
    requires i < |fields| && DistinctNames(fields)
    ensures FieldAt(Assign(fields), fields[i].name) == fields[i].value
    decreases |fields|
  {
    var n := |fields| - 1;
    if i < n {
      AssignedAt(fields[..n], i);
      assert fields[i].name != fields[n].name;
    } else {
      NotAssigned(fields[..n], fields[n].name);
    }
  }

  lemma {:induction false} NotAssigned(fields: seq<Field>, k: string)
    requires forall i :: 0 <= i < |fields| ==> fields[i].name != k
    ensures k !in Assign(fields)
    decreases |fields|
  {
    if fields != [] {
      NotAssigned(fields[..|fields| - 1], k);
    }
  }

  lemma FieldNamesDistinct(c: OidcClient)
    ensures DistinctNames(ClientFields(c))
  {
    var f := ClientFields(c);
    assert f[1].name[0] != f[10].name[0];
    assert f[2].name[0] != f[9].name[0];
    assert f[3].name[2] != f[6].name[2];
    assert f[3].name[0] != f[8].name[0] && f[6].name[0] != f[8].name[0];
    forall i, j | 0 <= i < j < |f| ensures f[i].name != f[j].name {
      assert |f[i].name| != |f[j].name| || (i == 1 && j == 10) || (i == 2 && j == 9) || (i in {3, 6} && j in {6, 8});
    }
  }

  lemma ListRoundTrip(ss: seq<string>)
    ensures ListOf(NonEmptyList(ss)) == ss
  {
  }

  ghost predicate HoldsField(m: JsonObject, f: Field) {
    FieldAt(m, f.name) == f.value
  }

  lemma EntryHolds(c: OidcClient, i: nat)
    requires i < |ClientFields(c)|
    ensures HoldsField(ClientToMap(c), ClientFields(c)[i])
  {
    FieldNamesDistinct(c);
    AssignedAt(ClientFields(c), i);
  }

  /** An entry that holds the fields of a client is read back as the client. */
  lemma ReadBack(c: OidcClient, m: JsonObject)
    requires c.spec.public ==> c.secretDigest == ""
    requires forall i :: 0 <= i < |ClientFields(c)| ==> HoldsField(m, ClientFields(c)[i])
    ensures ClientFromMap(c.spec.autheliaRef, m) == c
  {
    var f := ClientFields(c);
    assert HoldsField(m, f[0]) && HoldsField(m, f[1]) && HoldsField(m, f[2]) && HoldsField(m, f[3]) && HoldsField(m, f[4]);
    assert HoldsField(m, f[5]) && HoldsField(m, f[6]) && HoldsField(m, f[7]) && HoldsField(m, f[8]) && HoldsField(m, f[9]);
    assert HoldsField(m, f[10]) && HoldsField(m, f[11]) && HoldsField(m, f[12]) && HoldsField(m, f[13]);
    ListRoundTrip(c.spec.redirectURIs);
    ListRoundTrip(c.spec.scopes);
    ListRoundTrip(c.spec.grantTypes);
    ListRoundTrip(c.spec.responseTypes);
  }

  /** Nothing of a client is lost or mixed up in its entry. */
  lemma ClientRoundTrip(c: OidcClient)
    requires c.spec.public ==> c.secretDigest == ""
    ensures ClientFromMap(c.spec.autheliaRef, ClientToMap(c)) == c
  {
    forall i | 0 <= i < |ClientFields(c)| ensures HoldsField(ClientToMap(c), ClientFields(c)[i]) {
      EntryHolds(c, i);
    }
    ReadBack(c, ClientToMap(c));
  }

  // ------------------------------------------------------- order of the entries

  predicate IDLess(x: OidcClient, y: OidcClient) {
    StringLess(x.spec.clientID, y.spec.clientID)
  }

  function IDOf(c: OidcClient): string {
    c.spec.clientID
  }

  lemma IDLessIsOrder()
    ensures StrictWeakOrder(IDLess)
  {
    StringLessIsOrder();
    forall x, y, z | IDLess(x, z) ensures IDLess(x, y) || IDLess(y, z) {
      assert StringLess(x.spec.clientID, y.spec.clientID) || StringLess(y.spec.clientID, z.spec.clientID);
    }
    forall x, y | IDLess(x, y) ensures !IDLess(y, x) {
      assert !StringLess(y.spec.clientID, x.spec.clientID);
    }
  }

  /**
   * The clients in the order of their IDs. The sort is not stable, so callers know no more than that
   * the result is a sorted permutation.
   */
  method SortClients(clients: seq<OidcClient>) returns (sorted: seq<OidcClient>)
    ensures SortedPermutation(IDLess, sorted, clients)
  {
    var a := new OidcClient[|clients|](i requires 0 <= i < |clients| => clients[i]);
    assert a[..] == clients;
    SortInPlace(a, IDLess);
    IDLessIsOrder();
    SortIsSortedPermutation(IDLess, clients);
    sorted := a[..];
  }

  /** The IDs reported in the status are those of the rendered entries, in the order of the entries. */
  lemma ReportedIDsAreRendered(clients: seq<OidcClient>, ordered: seq<OidcClient>)
    requires SortedPermutation(IDLess, ordered, clients)
    ensures Sort(StringLess, Map(IDOf, clients)) == Map(IDOf, ordered)
  {
    var ids, sorted := Map(IDOf, clients), Map(IDOf, ordered);
    MapPermutation(IDOf, ordered, clients);
    StringLessIsOrder();
    SortIsSortedPermutation(StringLess, ids);
    forall i, j | 0 <= i < j < |sorted| ensures !StringLess(sorted[j], sorted[i]) {
      assert !IDLess(ordered[j], ordered[i]);
    }
    StringsSeparated(sorted);
    SortedUnique(StringLess, sorted, Sort(StringLess, ids));
  }

  lemma StringsSeparated(s: seq<string>)
    ensures Separates(StringLess, s)
  {
    forall x, y | x in s && y in s && x != y ensures StringLess(x, y) || StringLess(y, x) {
      StringLessTotal(x, y);
    }
  }

  /** No two clients share an ID unless they render to the same entry. */
  ghost predicate EntriesAgreeOnIDs(clients: seq<OidcClient>) {
    forall x, y :: x in clients && y in clients && x.spec.clientID == y.spec.clientID ==> ClientJson(x) == ClientJson(y)
  }

  ghost predicate RenderingIsDetermined(clients: seq<OidcClient>) {
    forall r, s :: SortedPermutation(IDLess, r, clients) && SortedPermutation(IDLess, s, clients) ==>
      Map(ClientJson, r) == Map(ClientJson, s)
  }

  lemma SameEntries(clients: seq<OidcClient>, r: seq<OidcClient>, s: seq<OidcClient>)
    requires EntriesAgreeOnIDs(clients)
    requires SortedPermutation(IDLess, r, clients) && SortedPermutation(IDLess, s, clients)
    ensures Map(ClientJson, r) == Map(ClientJson, s)
  {
    ReportedIDsAreRendered(clients, r);
    ReportedIDsAreRendered(clients, s);
    PermutationMember(r, clients);
    PermutationMember(s, clients);
    forall i | 0 <= i < |r| ensures ClientJson(r[i]) == ClientJson(s[i]) {
      assert Map(IDOf, r)[i] == Map(IDOf, s)[i];
      assert r[i] in r && s[i] in s;
    }
  }

  lemma SwapEqualIDs(r: seq<OidcClient>, i: nat, j: nat, clients: seq<OidcClient>)
    requires i < j < |r| && SortedPermutation(IDLess, r, clients) && r[i].spec.clientID == r[j].spec.clientID
    ensures SortedPermutation(IDLess, r[i := r[j]][j := r[i]], clients)
  {
    var s := r[i := r[j]][j := r[i]];
    forall k, l | 0 <= k < l < |s| ensures !IDLess(s[l], s[k]) {
      assert !IDLess(r[l], r[k]);
    }
  }

  lemma DisagreementShows(f: OidcClient -> Json, clients: seq<OidcClient>, x: OidcClient, y: OidcClient)
    returns (r: seq<OidcClient>, s: seq<OidcClient>)
    requires x in clients && y in clients && x.spec.clientID == y.spec.clientID && f(x) != f(y)
    ensures SortedPermutation(IDLess, r, clients) && SortedPermutation(IDLess, s, clients)
    ensures Map(f, r) != Map(f, s)
  {
    IDLessIsOrder();
    r := Sort(IDLess, clients);
    SortIsSortedPermutation(IDLess, clients);
    PermutationMember(r, clients);
    var i :| 0 <= i < |r| && r[i] == x;
    var j :| 0 <= j < |r| && r[j] == y;
    var lo, hi := if i < j then i else j, if i < j then j else i;
    SwapEqualIDs(r, lo, hi, clients);
    s := r[lo := r[hi]][hi := r[lo]];
    assert Map(f, r)[lo] != Map(f, s)[lo];
  }

  /**
   * The rendered client list is the same for every list order and every outcome of the unstable
   * sort if and only if clients sharing an ID render alike.
   */
  lemma RenderingDeterminedIff(clients: seq<OidcClient>)
    ensures RenderingIsDetermined(clients) <==> EntriesAgreeOnIDs(clients)
  {
    if EntriesAgreeOnIDs(clients) {
      forall r, s | SortedPermutation(IDLess, r, clients) && SortedPermutation(IDLess, s, clients)
        ensures Map(ClientJson, r) == Map(ClientJson, s)
      {
        SameEntries(clients, r, s);
      }
    } else {
      var x, y :| x in clients && y in clients && x.spec.clientID == y.spec.clientID && ClientJson(x) != ClientJson(y);
      var r, s := DisagreementShows(ClientJson, clients, x, y);
    }
  }

  /** Two clients of one ID and different names are enough for the rendering to depend on luck. */
  lemma SharedIDIsUndetermined(spec: ClientSpec)
    ensures var x := OidcClient(spec.(clientID := "app", clientName := "one"), "");
      var y := OidcClient(spec.(clientID := "app", clientName := "two"), "");
      !RenderingIsDetermined([x, y])
  {
    var x' := OidcClient(spec.(clientID := "app", clientName := "one"), "");
    var y' := OidcClient(spec.(clientID := "app", clientName := "two"), "");
    NameShows(x', "one");
    NameShows(y', "two");
    RenderingDeterminedIff([x', y']);
    assert ClientJson(x') != ClientJson(y');
    assert x' in [x', y'] && y' in [x', y'];
  }

  lemma NameShows(c: OidcClient, name: string)
    requires c.spec.clientName == name
    ensures StringOf(FieldAt(ClientToMap(c), "client_name")) == name
  {
    var f := ClientFields(c);
    FieldNamesDistinct(c);
    AssignedAt(f, 1);
    assert f[1] == Field("client_name", NonEmpty(name));
  }
}
