/**
 * The promises to the user, from the objects that users write to the objects in the cluster, in the
 * plain names and values of both: no function of the model stands between the two.
 */
module EndToEnd {
  import opened Sequences
  import opened Ordering
  import opened JsonTree
  import opened Objects
  import opened Settings
  import opened AccessRules
  import opened FirstMatch
  import opened Clients
  import opened Render
  import opened RuleMeaning
  import opened Digest
  import opened ClientSecret
  import opened CoreSecret
  import opened VolumeNames
  import opened PodWiring
  import opened Cluster
  import opened ClusterInvariant
  import opened ClusterSteps
  import opened ClusterSafety
  import opened Watches
  import opened Operator
  import opened Convergence

  // ------------------------------------------------------------ a client's entry

  predicate TextAt(m: JsonObject, key: string, value: string) {
    if value == "" then key !in m else key in m && m[key] == JStr(value)
  }

  predicate TextsAt(m: JsonObject, key: string, values: seq<string>) {
    if values == [] then key !in m
    else
      && key in m && m[key].JArr? && |m[key].items| == |values|
      && forall i :: 0 <= i < |values| ==> m[key].items[i] == JStr(values[i])
  }

  /** The fields of an entry that come from the spec, and no others. */
  ghost predicate SpecFields(spec: ClientSpec, m: JsonObject) {
    && m.Keys <= {"client_id", "client_name", "public", "client_secret", "authorization_policy", "consent_mode",
         "claims_policy", "lifespan", "redirect_uris", "scopes", "grant_types", "response_types",
         "token_endpoint_auth_method", "userinfo_signed_response_alg"}
    && TextAt(m, "client_name", spec.clientName)
    && (if spec.public then "public" in m && m["public"] == JBool(true) else "public" !in m)
    && TextAt(m, "authorization_policy", spec.authorizationPolicy)
    && TextAt(m, "consent_mode", spec.consentMode)
    && TextAt(m, "claims_policy", spec.claimsPolicy)
    && TextAt(m, "lifespan", spec.lifespan)
    && TextsAt(m, "redirect_uris", spec.redirectURIs)
    && TextsAt(m, "scopes", spec.scopes)
    && TextsAt(m, "grant_types", spec.grantTypes)
    && TextsAt(m, "response_types", spec.responseTypes)
    && TextAt(m, "token_endpoint_auth_method", spec.tokenEndpointAuthMethod)
    && TextAt(m, "userinfo_signed_response_alg", spec.userinfoSignedResponseAlg)
  }

  lemma EntryText(c: OidcClient, i: nat, value: string)
    requires i < |ClientFields(c)| && ClientFields(c)[i].value == NonEmpty(value)
    ensures TextAt(ClientToMap(c), ClientFields(c)[i].name, value)
  {
    EntryHolds(c, i);
  }

  lemma EntryTexts(c: OidcClient, i: nat, values: seq<string>)
    requires i < |ClientFields(c)| && ClientFields(c)[i].value == NonEmptyList(values)
    ensures TextsAt(ClientToMap(c), ClientFields(c)[i].name, values)
  {
    EntryHolds(c, i);
  }

  lemma EntryKeys(c: OidcClient)
    ensures forall k :: k in ClientToMap(c) ==> exists i :: 0 <= i < |ClientFields(c)| && ClientFields(c)[i].name == k
  {
    forall k | k in ClientToMap(c) ensures exists i :: 0 <= i < |ClientFields(c)| && ClientFields(c)[i].name == k {
      if forall i :: 0 <= i < |ClientFields(c)| ==> ClientFields(c)[i].name != k {
        NotAssigned(ClientFields(c), k);
      }
    }
  }

  lemma EntryTextFields(c: OidcClient)
    ensures var m, spec := ClientToMap(c), c.spec;
      && TextAt(m, "client_name", spec.clientName)
      && TextAt(m, "authorization_policy", spec.authorizationPolicy)
      && TextAt(m, "consent_mode", spec.consentMode)
      && TextAt(m, "claims_policy", spec.claimsPolicy)
  {
    EntryText(c, 1, c.spec.clientName);
    EntryText(c, 4, c.spec.authorizationPolicy);
    EntryText(c, 5, c.spec.consentMode);
    EntryText(c, 6, c.spec.claimsPolicy);
  }

  lemma EntryLateTextFields(c: OidcClient)
    ensures var m, spec := ClientToMap(c), c.spec;
      && TextAt(m, "lifespan", spec.lifespan)
      && TextAt(m, "token_endpoint_auth_method", spec.tokenEndpointAuthMethod)
      && TextAt(m, "userinfo_signed_response_alg", spec.userinfoSignedResponseAlg)
  {
    EntryText(c, 7, c.spec.lifespan);
    EntryText(c, 12, c.spec.tokenEndpointAuthMethod);
    EntryText(c, 13, c.spec.userinfoSignedResponseAlg);
  }

  lemma EntryListFields(c: OidcClient)
    ensures var m, spec := ClientToMap(c), c.spec;
      && TextsAt(m, "redirect_uris", spec.redirectURIs)
      && TextsAt(m, "scopes", spec.scopes)
      && TextsAt(m, "grant_types", spec.grantTypes)
      && TextsAt(m, "response_types", spec.responseTypes)
  {
    EntryTexts(c, 8, c.spec.redirectURIs);
    EntryTexts(c, 9, c.spec.scopes);
    EntryTexts(c, 10, c.spec.grantTypes);
    EntryTexts(c, 11, c.spec.responseTypes);
  }

  lemma EntryIdentity(c: OidcClient)
    ensures var m := ClientToMap(c);
      && "client_id" in m && m["client_id"] == JStr(c.spec.clientID)
      && (if c.spec.public then "public" in m && m["public"] == JBool(true) else "public" !in m)
      && (if c.spec.public then "client_secret" !in m else "client_secret" in m && m["client_secret"] == JStr(c.secretDigest))
  {
    EntryHolds(c, 0);
    EntryHolds(c, 2);
    EntryHolds(c, 3);
    var f := ClientFields(c);
    assert f[0].name == "client_id" && f[2].name == "public" && f[3].name == "client_secret";
  }

  lemma EntryHasSpecFields(c: OidcClient)
    ensures SpecFields(c.spec, ClientToMap(c))
  {
    EntryTextFields(c);
    EntryLateTextFields(c);
    EntryListFields(c);
    EntryIdentity(c);
    EntryKeys(c);
  }

  /**
   * The entry of the client `k`: its ID, and for a confidential client the digest that stands in its Secret
   * beside the secret it verifies.
   */
  ghost predicate IsEntryOf(kdf: Kdf, s: State, k: Key, entry: Json)
    requires k in s.clients
  {
    var spec, secret := s.clients[k].spec, Key(k.ns, k.name + "-oauth-secret");
    && entry.JObj? && SpecFields(spec, entry.fields)
    && "client_id" in entry.fields
    && entry.fields["client_id"] == JStr(if spec.clientID == "" then k.name else spec.clientID)
    && if spec.public then "client_secret" !in entry.fields
       else
         && "client_secret" in entry.fields && secret in s.secrets
         && "client_secret" in s.secrets[secret] && "client_secret_digest" in s.secrets[secret]
         && entry.fields["client_secret"] == JStr(s.secrets[secret]["client_secret_digest"])
         && s.secrets[secret]["client_secret_digest"] != ""
         && Verify(kdf, s.secrets[secret]["client_secret"], s.secrets[secret]["client_secret_digest"])
  }

  lemma ClientEntry(kdf: Kdf, s: State, a: Key, k: Key)
    requires WellFormed(s) && k in s.clients && TargetedBy(s, k, a)
    requires Paired(KdfVerifier(kdf), Stored(s.secrets, ClientSecretKey(k)))
    requires NeedsDigest(Object(k, s.clients[k]), a) ==> DigestOf(s.secrets, Object(k, s.clients[k])) != ""
    ensures IsEntryOf(kdf, s, k, ClientJson(OidcClientOf(Observe(a, s.secrets)(Object(k, s.clients[k])))))
  {
    var c := Object(k, s.clients[k]);
    var o := OidcClientOf(Observe(a, s.secrets)(c));
    assert SecretKeyOf(c) == Key(k.ns, k.name + "-oauth-secret");
    EntryHasSpecFields(o);
    EntryIdentity(o);
    assert ClientJson(o) == JObj(ClientToMap(o));
  }

  // --------------------------------------------------- the clients of an Authelia

  ghost function TargetingKeys(s: State, a: Key): set<Key> {
    set k | k in s.clients && TargetedBy(s, k, a)
  }

  function RenderedNowAs(s: State, a: Key): Client -> OidcClient {
    c => OidcClientOf(Observe(a, s.secrets)(c))
  }

  function KeyOfClient(c: Client): Key { c.key }

  lemma TargetingIsTargeted(s: State, a: Key, c: Client)
    requires c in Targeting(s, a)
    ensures c.key in s.clients && c == Object(c.key, s.clients[c.key]) && TargetedBy(s, c.key, a)
  {
    ObjectsMember(s.clients, c);
  }

  lemma TargetedIsTargeting(s: State, a: Key, k: Key)
    requires TargetedBy(s, k, a)
    ensures Object(k, s.clients[k]) in Targeting(s, a)
  {
    ObjectsMember(s.clients, Object(k, s.clients[k]));
  }

  lemma TargetingByKey(s: State, a: Key)
    ensures Image(KeyOfClient, Targeting(s, a)) == TargetingKeys(s, a)
    ensures forall c, d :: c in Targeting(s, a) && d in Targeting(s, a) && KeyOfClient(c) == KeyOfClient(d) ==> c == d
  {
    forall c | c in Targeting(s, a) ensures c.key in s.clients && c == Object(c.key, s.clients[c.key]) && TargetedBy(s, c.key, a) {
      TargetingIsTargeted(s, a, c);
    }
    forall k | k in TargetingKeys(s, a) ensures k in Image(KeyOfClient, Targeting(s, a)) {
      TargetedIsTargeting(s, a, k);
      assert KeyOfClient(Object(k, s.clients[k])) == k;
    }
  }

  lemma KeysOfTargeting(s: State, a: Key, list: seq<Client>)
    requires multiset(list) == multiset(Targeting(s, a))
    ensures multiset(Map(KeyOfClient, list)) == multiset(TargetingKeys(s, a))
    ensures forall c :: c in list ==> c in Targeting(s, a)
  {
    TargetingByKey(s, a);
    MapOfSet(KeyOfClient, list, Targeting(s, a));
    forall c | c in list ensures c in Targeting(s, a) {
      assert c in multiset(list);
    }
  }

  lemma AllTargetedRendered(s: State, a: Key, list: seq<Client>)
    requires forall c :: c in list && NeedsDigest(c, a) ==> DigestOf(s.secrets, c) != ""
    ensures Rendered(a, ReadNow(s, a, list)) == Map(RenderedNowAs(s, a), Filter(TargetsOf(a), list))
  {
    ListedEntries(s, a, list);
    forall c | c in list ensures EntryNow(s, a)(c) == if TargetsOf(a)(c) then [RenderedNowAs(s, a)(c)] else [] {
      if !TargetsOf(a)(c) {
        ForeignEntryNow(s, a, c);
      }
    }
    FlatMapOfFiltered(RenderedNowAs(s, a), EntryNow(s, a), TargetsOf(a), list);
  }

  /** The clients in the order in which they are rendered. */
  lemma RenderedClients(s: State, a: Key, list: seq<Client>, ordered: seq<OidcClient>) returns (clients: seq<Client>)
    requires IsListing(list, s.clients)
    requires forall c :: c in list && NeedsDigest(c, a) ==> DigestOf(s.secrets, c) != ""
    requires SortedPermutation(IDLess, ordered, Rendered(a, ReadNow(s, a, list)))
    ensures multiset(clients) == multiset(Targeting(s, a)) && ordered == Map(RenderedNowAs(s, a), clients)
  {
    AllTargetedRendered(s, a, list);
    clients := ArgumentsPermuted(RenderedNowAs(s, a), Filter(TargetsOf(a), list), ordered);
    TargetingListed(s, a, list);
  }

  lemma EntriesAre(kdf: Kdf, s: State, a: Key, clients: seq<Client>, ordered: seq<OidcClient>)
    requires WellFormed(s) && ordered == Map(RenderedNowAs(s, a), clients)
    requires forall k :: Paired(KdfVerifier(kdf), Stored(s.secrets, ClientSecretKey(k)))
    requires forall c :: c in clients ==> c in Targeting(s, a) && (NeedsDigest(c, a) ==> DigestOf(s.secrets, c) != "")
    ensures forall i :: 0 <= i < |clients| ==>
      clients[i].key in s.clients && IsEntryOf(kdf, s, clients[i].key, ClientJson(ordered[i]))
  {
    forall i | 0 <= i < |clients|
      ensures clients[i].key in s.clients && IsEntryOf(kdf, s, clients[i].key, ClientJson(ordered[i]))
    {
      var c := clients[i];
      assert c in clients;
      TargetingIsTargeted(s, a, c);
      ClientEntry(kdf, s, a, c.key);
      assert ordered[i] == RenderedNowAs(s, a)(c);
    }
  }

  function IDOfKey(s: State, k: Key): string
    requires k in s.clients
  {
    if s.clients[k].spec.clientID == "" then k.name else s.clients[k].spec.clientID
  }

  /** The list holds one entry for each of the clients, in ascending order of their IDs. */
  ghost predicate ListsEntries(kdf: Kdf, s: State, keys: seq<Key>, list: Option<Json>) {
    && list.Some? && list.value.JArr? && |list.value.items| == |keys|
    && (forall i :: 0 <= i < |keys| ==> keys[i] in s.clients && IsEntryOf(kdf, s, keys[i], list.value.items[i]))
    && forall i, j :: 0 <= i < j < |keys| ==>
         !Lexicographic(list.value.items[j].fields["client_id"].s, list.value.items[i].fields["client_id"].s)
  }

  lemma OrderedListed(kdf: Kdf, s: State, keys: seq<Key>, ordered: seq<OidcClient>, items: seq<Json>)
    requires |items| == |ordered| == |keys| && Sorted(IDLess, ordered)
    requires forall i :: 0 <= i < |ordered| ==> items[i] == ClientJson(ordered[i])
    requires forall i :: 0 <= i < |keys| ==> keys[i] in s.clients && IsEntryOf(kdf, s, keys[i], ClientJson(ordered[i]))
    ensures ListsEntries(kdf, s, keys, Some(JArr(items)))
  {
    forall i | 0 <= i < |items| ensures items[i].JObj? && "client_id" in items[i].fields && items[i].fields["client_id"] == JStr(IDOf(ordered[i])) {
      EntryIdentity(ordered[i]);
    }
    forall i, j | 0 <= i < j < |items|
      ensures !Lexicographic(items[j].fields["client_id"].s, items[i].fields["client_id"].s)
    {
      assert !IDLess(ordered[j], ordered[i]);
      StringLessIff(IDOf(ordered[j]), IDOf(ordered[i]));
    }
  }

  /** What the rendered list holds once no digest is missing. */
  lemma RenderedEntries(kdf: Kdf, s: State, keys: seq<Key>, settings: AutheliaSettings, ordered: seq<OidcClient>,
      rules: seq<Json>, hostname: string)
    requires |keys| == |ordered| && Sorted(IDLess, ordered)
    requires forall i :: 0 <= i < |keys| ==> keys[i] in s.clients && IsEntryOf(kdf, s, keys[i], ClientJson(ordered[i]))
    ensures var list := Lookup(RenderTree(settings, ordered, rules, hostname), ["identity_providers", "oidc", "clients"]);
      if keys == [] then list == Lookup(settings.additionalConfig, ["identity_providers", "oidc", "clients"])
      else ListsEntries(kdf, s, keys, list)
  {
    ClientListRendered(settings, ordered, rules, hostname);
    if keys != [] {
      var list := Lookup(RenderTree(settings, ordered, rules, hostname), ["identity_providers", "oidc", "clients"]);
      OrderedListed(kdf, s, keys, ordered, list.value.items);
    }
  }

  /**
   * The stored ConfigMap of an idle Authelia lists one entry for each client that targets it, and no
   * other; when there is none, it lists what additionalConfig does. The status lists their IDs.
   */
  lemma IdleEntries(kdf: Kdf, sha: Checksum, s: State, a: Key) returns (keys: seq<Key>)
    requires Reachable(OperatorWorld(kdf, sha), s) && a in s.authelias && Idle(s, a)
    ensures multiset(keys) == multiset(TargetingKeys(s, a))
    ensures Key(a.ns, a.name + "-config") in s.configMaps
    ensures var list := Lookup(s.configMaps[Key(a.ns, a.name + "-config")], ["identity_providers", "oidc", "clients"]);
      if keys == [] then list == Lookup(s.authelias[a].settings.additionalConfig, ["identity_providers", "oidc", "clients"])
      else ListsEntries(kdf, s, keys, list)
    ensures a in s.statuses && |s.statuses[a].oidcClients| == |keys|
    ensures forall i :: 0 <= i < |keys| ==> keys[i] in s.clients && s.statuses[a].oidcClients[i] == IDOfKey(s, keys[i])
  {
    var list, ings := SomeListing(s.clients), SomeListing(s.ingresses);
    var ordered := IdleImpliesConverged(kdf, sha, s, a, list, ings);
    keys := EntryKeysOf(kdf, sha, s, a, list, ordered);
    RenderedEntries(kdf, s, keys, s.authelias[a].settings, ordered, RuleJsons(Compile(ings)), s.authelias[a].hostname);
  }

  lemma EntryKeysOf(kdf: Kdf, sha: Checksum, s: State, a: Key, list: seq<Client>, ordered: seq<OidcClient>) returns (keys: seq<Key>)
    requires Reachable(OperatorWorld(kdf, sha), s) && IsListing(list, s.clients)
    requires forall c :: c in list && NeedsDigest(c, a) ==> DigestOf(s.secrets, c) != ""
    requires SortedPermutation(IDLess, ordered, Rendered(a, ReadNow(s, a, list)))
    ensures multiset(keys) == multiset(TargetingKeys(s, a)) && |keys| == |ordered|
    ensures forall i :: 0 <= i < |keys| ==> keys[i] in s.clients && IsEntryOf(kdf, s, keys[i], ClientJson(ordered[i]))
    ensures forall i :: 0 <= i < |keys| ==> keys[i] in s.clients && IDOf(ordered[i]) == IDOfKey(s, keys[i])
  {
    var clients := RenderedClients(s, a, list, ordered);
    keys := Map(KeyOfClient, clients);
    KeysOfTargeting(s, a, clients);
    IdleFacts(kdf, sha, s, a, list, clients);
    EntriesAre(kdf, s, a, clients, ordered);
    forall i | 0 <= i < |keys| ensures keys[i] in s.clients && IDOf(ordered[i]) == IDOfKey(s, keys[i]) {
      EntryIDIs(kdf, s, keys[i], ordered[i]);
    }
  }

  lemma EntryIDIs(kdf: Kdf, s: State, k: Key, c: OidcClient)
    requires k in s.clients && IsEntryOf(kdf, s, k, ClientJson(c))
    ensures IDOf(c) == IDOfKey(s, k)
  {
    EntryIdentity(c);
  }

  lemma IdleFacts(kdf: Kdf, sha: Checksum, s: State, a: Key, list: seq<Client>, clients: seq<Client>)
    requires Reachable(OperatorWorld(kdf, sha), s) && IsListing(list, s.clients)
    requires forall c :: c in list && NeedsDigest(c, a) ==> DigestOf(s.secrets, c) != ""
    requires forall c :: c in clients ==> c in Targeting(s, a)
    ensures WellFormed(s) && forall k :: Paired(KdfVerifier(kdf), Stored(s.secrets, ClientSecretKey(k)))
    ensures forall c :: c in clients && NeedsDigest(c, a) ==> DigestOf(s.secrets, c) != ""
  {
    HashVerifies(kdf);
    ReachableHasInv(OperatorWorld(kdf, sha), s);
    forall c | c in clients && NeedsDigest(c, a) ensures DigestOf(s.secrets, c) != "" {
      TargetingIsTargeted(s, a, c);
      ListingMember(list, s.clients, c);
    }
  }

  // -------------------------------------------------------------- idle: the rest

  /** A matching rule that outranks all others decides, with its own policy, in the stored ConfigMap. */
  lemma IdleFirstRankDecides(kdf: Kdf, sha: Checksum, s: State, a: Key, ings: seq<Ingress>, p: Matcher, i: nat)
    requires Reachable(OperatorWorld(kdf, sha), s) && a in s.authelias && Idle(s, a) && IsListing(ings, s.ingresses)
    requires RanksFirst(p, Collected(ings), i)
    ensures Key(a.ns, a.name + "-config") in s.configMaps && "policy" in Collected(ings)[i].rule
    ensures Decide(s.configMaps[Key(a.ns, a.name + "-config")], p) == ByRule(Some(Collected(ings)[i].rule["policy"]))
  {
    var ordered := IdleImpliesConverged(kdf, sha, s, a, SomeListing(s.clients), ings);
    FirstRankDecides(p, s.authelias[a].settings, ordered, ings, s.authelias[a].hostname, i);
  }

  /** The default cookie stands in the stored ConfigMap when the spec has a hostname and no cookies. */
  lemma IdleDefaultCookie(kdf: Kdf, sha: Checksum, s: State, a: Key) returns (domain: string)
    requires Reachable(OperatorWorld(kdf, sha), s) && a in s.authelias && Idle(s, a)
    requires s.authelias[a].hostname != "" && Lookup(s.authelias[a].settings.additionalConfig, ["session", "cookies"]).None?
    ensures var hostname := s.authelias[a].hostname;
      && Key(a.ns, a.name + "-config") in s.configMaps
      && Lookup(s.configMaps[Key(a.ns, a.name + "-config")], ["session", "cookies"]) ==
           Some(JArr([JObj(map["domain" := JStr(domain), "authelia_url" := JStr("https://" + hostname)])]))
      && (forall x, y :: hostname == x + "." + y && '.' !in x ==> domain == if y != "" then y else hostname)
      && ('.' !in hostname ==> domain == hostname)
  {
    var ings := SomeListing(s.ingresses);
    var ordered := IdleImpliesConverged(kdf, sha, s, a, SomeListing(s.clients), ings);
    domain := DefaultCookieRendered(s.authelias[a].settings, ordered, RuleJsons(Compile(ings)), s.authelias[a].hostname);
  }

  /**
   * The Deployment of an idle Authelia carries the checksum of the stored ConfigMap, and refers to the
   * OIDC secrets exactly when a client targets it.
   */
  lemma IdleDeploymentFits(kdf: Kdf, sha: Checksum, s: State, a: Key)
    requires Reachable(OperatorWorld(kdf, sha), s) && a in s.authelias && Idle(s, a)
    ensures a in s.deployments && Key(a.ns, a.name + "-config") in s.configMaps
    ensures s.deployments[a].checksum == sha(s.configMaps[Key(a.ns, a.name + "-config")])
    ensures var name := "AUTHELIA_IDENTITY_PROVIDERS_OIDC_HMAC_SECRET_FILE";
      (forall t :: t in s.authelias[a].settings.secrets && t.secret.Some? ==> t.name != name) ==>
        Effective(s.deployments[a].env, name) == if TargetingKeys(s, a) != {} then Some(Text("/secrets/OIDC_HMAC_SECRET")) else None
  {
    var list, ings := SomeListing(s.clients), SomeListing(s.ingresses);
    var ordered := IdleImpliesConverged(kdf, sha, s, a, list, ings);
    var clients := RenderedClients(s, a, list, ordered);
    KeysOfTargeting(s, a, clients);
    SomeTargets(s, a, clients);
    var name := "AUTHELIA_IDENTITY_PROVIDERS_OIDC_HMAC_SECRET_FILE";
    var settings := s.authelias[a].settings;
    if forall t :: t in settings.secrets && t.secret.Some? ==> t.name != name {
      CoreVariablesSeen(settings, ordered != [], name);
    }
  }

  lemma SomeTargets(s: State, a: Key, clients: seq<Client>)
    requires multiset(Map(KeyOfClient, clients)) == multiset(TargetingKeys(s, a))
    ensures clients != [] <==> TargetingKeys(s, a) != {}
  {
    assert |clients| == |multiset(TargetingKeys(s, a))|;
  }

  // --------------------------------------------------------- in every reachable state

  /** What the volumes of an existing Deployment refer to is there, by the name under which it is there. */
  lemma VolumesExist(kdf: Kdf, sha: Checksum, s: State, a: Key, v: Volume)
    requires Reachable(OperatorWorld(kdf, sha), s) && a in s.deployments && v in s.deployments[a].volumes
    ensures v.source.ConfigMapVolume? ==> Key(a.ns, v.source.configMapName) in s.configMaps
    ensures v.source.ClaimVolume? ==> Key(a.ns, v.source.claimName) in s.pvcs
  {
    var snap := ReferencesExist(kdf, sha, s, a);
    VolumeSources(a, snap.spec, v);
  }

  /**
   * The mounts of an existing Deployment: the configuration comes from the ConfigMap the operator writes,
   * the core files from a Secret whose four keys are filled when the operator manages it, and the data from
   * a claim exactly when the spec it was built from has a template.
   */
  lemma MountsLead(kdf: Kdf, sha: Checksum, s: State, a: Key) returns (snap: Snapshot)
    requires Reachable(OperatorWorld(kdf, sha), s) && a in s.deployments && VolumesDistinct(s.deployments[a].volumes)
    ensures snap in History(s, a)
    ensures var d := s.deployments[a];
      && MountHolds(d, "/configuration.yaml", "configuration.yaml", ConfigMapVolume(a.name + "-config"))
      && Key(a.ns, a.name + "-config") in s.configMaps
      && MountHolds(d, "/data", "", if snap.spec.volumeClaimTemplate.Some? then ClaimVolume(a.name + "-data") else EmptyDir)
      && (snap.spec.volumeClaimTemplate.Some? ==> Key(a.ns, a.name + "-data") in s.pvcs)
      && MountHolds(d, "/secrets", "",
           SecretVolume(if snap.spec.existingSecret != "" then snap.spec.existingSecret else a.name + "-secrets"))
    ensures snap.spec.existingSecret == "" ==> CoreKeysFilled(s, Key(a.ns, a.name + "-secrets"))
  {
    snap := ReferencesExist(kdf, sha, s, a);
    OwnMounts(a, snap.spec, Rendered(a, snap.readings) != [], sha(ConfigOf(snap)));
    if snap.spec.existingSecret == "" {
      FilledByName(s, a);
    }
  }

  ghost predicate CoreKeysFilled(s: State, secret: Key) {
    secret in s.secrets &&
    forall k :: k in {"SESSION_ENCRYPTION_KEY", "STORAGE_ENCRYPTION_KEY", "OIDC_HMAC_SECRET", "OIDC_PRIVATE_KEY"} ==>
      k in s.secrets[secret] && s.secrets[secret][k] != ""
  }

  lemma FilledByName(s: State, a: Key)
    requires CoreFilled(Stored(s.secrets, ManagedSecretKey(a)))
    ensures CoreKeysFilled(s, Key(a.ns, a.name + "-secrets"))
  {
    var secret := ManagedSecretKey(a);
    assert secret == Key(a.ns, a.name + "-secrets");
    forall k | k in {"SESSION_ENCRYPTION_KEY", "STORAGE_ENCRYPTION_KEY", "OIDC_HMAC_SECRET", "OIDC_PRIVATE_KEY"}
      ensures secret in s.secrets && k in s.secrets[secret] && s.secrets[secret][k] != ""
    {
      FourKeys(k);
      assert DataAt(Stored(s.secrets, secret), k) != "";
    }
    FourKeys("SESSION_ENCRYPTION_KEY");
    assert DataAt(Stored(s.secrets, secret), "SESSION_ENCRYPTION_KEY") != "";
  }
}
