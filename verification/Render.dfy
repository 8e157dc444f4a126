/**
 * The rendered configuration as a function of its inputs: a sequence of settings at fixed paths of
 * additionalConfig (renderConfig and its helpers), and what that means for every path, for rendering
 * twice, and for the decision on a request.
 */
module Render {
  import opened Sequences
  import opened JsonTree
  import opened Objects
  import opened Settings
  import opened AccessRules
  import opened FirstMatch
  import opened Clients

  const FILE_PATH: Path := ["authentication_backend", "file", "path"]
  const COOKIES_PATH: Path := ["session", "cookies"]
  const CLIENTS_PATH: Path := ["identity_providers", "oidc", "clients"]

  /** The hostname without its first label, unless there is nothing to strip or nothing left. */
  function ParentDomain(hostname: string): string {
    var i := IndexOfDot(hostname);
    if i < |hostname| - 1 then hostname[i + 1..] else hostname
  }

  /** The position of the first dot, the length when there is none. */
  function IndexOfDot(s: string): (i: nat)
    ensures i <= |s|
    ensures '.' !in s[..i]
    ensures i < |s| ==> s[i] == '.'
  {
    if s == "" || s[0] == '.' then 0
    else
      var i := 1 + IndexOfDot(s[1..]);
      assert s[..i] == [s[0]] + s[1..][..i - 1];
      i
  }

  function DefaultCookies(hostname: string): Json {
    JArr([JObj(map["domain" := JStr(ParentDomain(hostname)), "authelia_url" := JStr("https://" + hostname)])])
  }

  /** Sets the value at `p` if there is one to set. */
  function PutSome(t: JsonObject, p: Path, v: Option<Json>): JsonObject {
    if v.Some? then Put(t, p, v.value) else t
  }

  /** authentication_backend.file.path, when a users Secret is configured. */
  function FileValue(settings: AutheliaSettings): Option<Json> {
    if settings.fileUsersSecret.None? then None else Some(JStr(FileUsersPath(settings.fileUsersSecret.value)))
  }

  /** The default cookie list, when there is a hostname and no list yet. */
  function CookiesValue(existing: Option<Json>, hostname: string): Option<Json> {
    if hostname == "" || existing.Some? then None else Some(DefaultCookies(hostname))
  }

  /** Generated rules go in front of the existing ones. */
  function RulesValue(existing: seq<Json>, rules: seq<Json>): Option<Json> {
    if rules == [] then None else Some(JArr(rules + existing))
  }

  function ClientsValue(ordered: seq<OidcClient>): Option<Json> {
    if ordered == [] then None else Some(JArr(Map(ClientJson, ordered)))
  }

  function WithFileBackend(t: JsonObject, settings: AutheliaSettings): JsonObject {
    PutSome(t, FILE_PATH, FileValue(settings))
  }

  function WithSession(t: JsonObject, hostname: string): JsonObject {
    PutSome(t, COOKIES_PATH, CookiesValue(Lookup(t, COOKIES_PATH), hostname))
  }

  function WithRules(t: JsonObject, rules: seq<Json>): JsonObject {
    PutSome(t, RULES_PATH, RulesValue(RuleList(t), rules))
  }

  function WithClients(t: JsonObject, ordered: seq<OidcClient>): JsonObject {
    PutSome(t, CLIENTS_PATH, ClientsValue(ordered))
  }

  /** `ordered` are the clients as the sort by ID has left them. */
  function RenderTree(settings: AutheliaSettings, ordered: seq<OidcClient>, rules: seq<Json>, hostname: string): JsonObject {
    WithClients(WithRules(WithSession(WithFileBackend(settings.additionalConfig, settings), hostname), rules), ordered)
  }

  // ---------------------------------------------- settings do not interfere

  lemma LookupPutSome(t: JsonObject, p: Path, v: Option<Json>, q: Path)
    ensures p == q ==> Lookup(PutSome(t, p, v), q) == if v.Some? then v else Lookup(t, q)
    ensures Apart(p, q) || v.None? ==> Lookup(PutSome(t, p, v), q) == Lookup(t, q)
  {
    if v.Some? {
      LookupPut(t, p, v.value);
      if Apart(p, q) {
        LookupPutApart(t, p, v.value, q);
      }
    }
  }

  /** Four optional settings in a row. */
  function PutFour(t: JsonObject, p: seq<Path>, v: seq<Option<Json>>): JsonObject
    requires |p| == |v| == 4
  {
    PutSome(PutSome(PutSome(PutSome(t, p[0], v[0]), p[1], v[1]), p[2], v[2]), p[3], v[3])
  }

  ghost predicate PairwiseApart(p: seq<Path>) {
    forall i, j :: 0 <= i < |p| && 0 <= j < |p| && i != j ==> Apart(p[i], p[j])
  }

  lemma LookupPutFour(t: JsonObject, p: seq<Path>, v: seq<Option<Json>>, q: Path)
    requires |p| == |v| == 4 && PairwiseApart(p)
    ensures forall i :: 0 <= i < 4 && q == p[i] ==> Lookup(PutFour(t, p, v), q) == if v[i].Some? then v[i] else Lookup(t, q)
    ensures (forall i :: 0 <= i < 4 && v[i].Some? ==> Apart(p[i], q)) ==> Lookup(PutFour(t, p, v), q) == Lookup(t, q)
  {
    var t0 := PutSome(t, p[0], v[0]);
    var t1 := PutSome(t0, p[1], v[1]);
    var t2 := PutSome(t1, p[2], v[2]);
    LookupPutSome(t, p[0], v[0], q);
    LookupPutSome(t0, p[1], v[1], q);
    LookupPutSome(t1, p[2], v[2], q);
    LookupPutSome(t2, p[3], v[3], q);
  }

  const SET_PATHS: seq<Path> := [FILE_PATH, COOKIES_PATH, RULES_PATH, CLIENTS_PATH]

  /** What the operator sets, read off additionalConfig alone. */
  function SetValues(settings: AutheliaSettings, ordered: seq<OidcClient>, rules: seq<Json>, hostname: string): seq<Option<Json>> {
    [ FileValue(settings),
      CookiesValue(Lookup(settings.additionalConfig, COOKIES_PATH), hostname),
      RulesValue(RuleList(settings.additionalConfig), rules),
      ClientsValue(ordered) ]
  }

  lemma PathsApart()
    ensures PairwiseApart(SET_PATHS)
    ensures forall i :: 0 <= i < 4 ==> Apart(SET_PATHS[i], DEFAULT_POLICY_PATH)
  {
    assert FILE_PATH[0][1] != COOKIES_PATH[0][1] && FILE_PATH[0][1] != RULES_PATH[0][1] && FILE_PATH[0][1] != CLIENTS_PATH[0][1];
    assert COOKIES_PATH[0][0] != RULES_PATH[0][0] && COOKIES_PATH[0][0] != CLIENTS_PATH[0][0];
    assert RULES_PATH[0][0] != CLIENTS_PATH[0][0];
    assert DEFAULT_POLICY_PATH[0] == RULES_PATH[0];
    assert RULES_PATH[1][0] != DEFAULT_POLICY_PATH[1][0];
  }

  /** The operator's settings do not interfere, so each can be read off additionalConfig alone. */
  lemma RenderIsPutFour(settings: AutheliaSettings, ordered: seq<OidcClient>, rules: seq<Json>, hostname: string)
    ensures RenderTree(settings, ordered, rules, hostname) ==
            PutFour(settings.additionalConfig, SET_PATHS, SetValues(settings, ordered, rules, hostname))
  {
    var base := settings.additionalConfig;
    var t0 := WithFileBackend(base, settings);
    PathsApart();
    assert Apart(SET_PATHS[0], SET_PATHS[1]) && Apart(SET_PATHS[0], SET_PATHS[2]) && Apart(SET_PATHS[1], SET_PATHS[2]);
    LookupPutSome(base, FILE_PATH, FileValue(settings), COOKIES_PATH);
    LookupPutSome(base, FILE_PATH, FileValue(settings), RULES_PATH);
    LookupPutSome(t0, COOKIES_PATH, CookiesValue(Lookup(t0, COOKIES_PATH), hostname), RULES_PATH);
  }

  function Made(p: Path, v: Option<Json>): seq<Setting> {
    if v.Some? then [Setting(p, v.value)] else []
  }

  /** The settings the operator makes. */
  function MadeSettings(p: seq<Path>, v: seq<Option<Json>>): seq<Setting>
    requires |p| == |v| == 4
  {
    Made(p[0], v[0]) + Made(p[1], v[1]) + Made(p[2], v[2]) + Made(p[3], v[3])
  }

  lemma PutMade(t: JsonObject, before: seq<Setting>, p: Path, v: Option<Json>)
    ensures PutAll(t, before + Made(p, v)) == PutSome(PutAll(t, before), p, v)
  {
    if v.Some? {
      PutAllAppend(t, before, Setting(p, v.value));
    } else {
      assert before + Made(p, v) == before;
    }
  }

  lemma PutFourIsPutAll(t: JsonObject, p: seq<Path>, v: seq<Option<Json>>)
    requires |p| == |v| == 4
    ensures PutFour(t, p, v) == PutAll(t, MadeSettings(p, v))
  {
    var m0 := Made(p[0], v[0]);
    var m1 := m0 + Made(p[1], v[1]);
    PutMade(t, [], p[0], v[0]);
    assert [] + m0 == m0;
    PutMade(t, m0, p[1], v[1]);
    PutMade(t, m1, p[2], v[2]);
    PutMade(t, m1 + Made(p[2], v[2]), p[3], v[3]);
  }

  lemma MadeApart(before: seq<Setting>, q: seq<Path>, p: Path, v: Option<Json>)
    requires SettingsApart(before) && (forall s :: s in before ==> s.path in q) && forall r :: r in q ==> Apart(r, p)
    ensures SettingsApart(before + Made(p, v)) && forall s :: s in before + Made(p, v) ==> s.path in q + [p]
  {
  }

  lemma MadeSettingsApart(v: seq<Option<Json>>)
    requires |v| == 4
    ensures SettingsApart(MadeSettings(SET_PATHS, v))
  {
    PathsApart();
    var p := SET_PATHS;
    assert Apart(p[0], p[1]) && Apart(p[0], p[2]) && Apart(p[0], p[3]);
    assert Apart(p[1], p[2]) && Apart(p[1], p[3]) && Apart(p[2], p[3]);
    var m0 := [] + Made(p[0], v[0]);
    MadeApart([], [], p[0], v[0]);
    MadeApart(m0, [p[0]], p[1], v[1]);
    MadeApart(m0 + Made(p[1], v[1]), [p[0], p[1]], p[2], v[2]);
    MadeApart(m0 + Made(p[1], v[1]) + Made(p[2], v[2]), [p[0], p[1], p[2]], p[3], v[3]);
    assert m0 == Made(p[0], v[0]);
  }

  /** The operator may make its settings in any order. */
  lemma RenderInAnyOrder(settings: AutheliaSettings, ordered: seq<OidcClient>, rules: seq<Json>, hostname: string,
      order: seq<Setting>)
    requires multiset(order) == multiset(MadeSettings(SET_PATHS, SetValues(settings, ordered, rules, hostname)))
    ensures PutAll(settings.additionalConfig, order) == RenderTree(settings, ordered, rules, hostname)
  {
    var v := SetValues(settings, ordered, rules, hostname);
    RenderIsPutFour(settings, ordered, rules, hostname);
    PutFourIsPutAll(settings.additionalConfig, SET_PATHS, v);
    MadeSettingsApart(v);
    PutAllIgnoresOrder(settings.additionalConfig, MadeSettings(SET_PATHS, v), order);
  }

  // ------------------------------------------------------ every path accounted

  ghost predicate Untouched(settings: AutheliaSettings, ordered: seq<OidcClient>, rules: seq<Json>, hostname: string, q: Path) {
    var v := SetValues(settings, ordered, rules, hostname);
    forall i :: 0 <= i < 4 && v[i].Some? ==> Apart(SET_PATHS[i], q)
  }

  /**
   * Every path apart from the ones the operator sets reads as in additionalConfig, even where
   * something that was not an object had to make way.
   */
  lemma OtherPathsUnchanged(settings: AutheliaSettings, ordered: seq<OidcClient>, rules: seq<Json>, hostname: string, q: Path)
    requires Untouched(settings, ordered, rules, hostname, q)
    ensures Lookup(RenderTree(settings, ordered, rules, hostname), q) == Lookup(settings.additionalConfig, q)
  {
    RenderIsPutFour(settings, ordered, rules, hostname);
    PathsApart();
    LookupPutFour(settings.additionalConfig, SET_PATHS, SetValues(settings, ordered, rules, hostname), q);
  }

  const LDAP_PASSWORD_PATH: Path := ["authentication_backend", "ldap", "password"]

  /** A password in additionalConfig stays in the rendered configuration, and none is added. */
  lemma LdapPasswordKept(settings: AutheliaSettings, ordered: seq<OidcClient>, rules: seq<Json>, hostname: string)
    ensures Lookup(RenderTree(settings, ordered, rules, hostname), LDAP_PASSWORD_PATH) ==
            Lookup(settings.additionalConfig, LDAP_PASSWORD_PATH)
  {
    var q := LDAP_PASSWORD_PATH;
    assert FILE_PATH[1][0] != q[1][0];
    assert COOKIES_PATH[0][0] != q[0][0] && RULES_PATH[0][1] != q[0][1] && CLIENTS_PATH[0][0] != q[0][0];
    OtherPathsUnchanged(settings, ordered, rules, hostname, q);
  }

  /** The value at each of the four paths the operator may set. */
  lemma SetPathsHold(settings: AutheliaSettings, ordered: seq<OidcClient>, rules: seq<Json>, hostname: string, i: int)
    requires 0 <= i < 4
    ensures var v := SetValues(settings, ordered, rules, hostname)[i];
            Lookup(RenderTree(settings, ordered, rules, hostname), SET_PATHS[i]) ==
            if v.Some? then v else Lookup(settings.additionalConfig, SET_PATHS[i])
  {
    RenderIsPutFour(settings, ordered, rules, hostname);
    PathsApart();
    LookupPutFour(settings.additionalConfig, SET_PATHS, SetValues(settings, ordered, rules, hostname), SET_PATHS[i]);
  }

  /** Whatever stood above a path that is set has become, or stayed, an object. */
  lemma AboveSetPaths(settings: AutheliaSettings, ordered: seq<OidcClient>, rules: seq<Json>, hostname: string, i: int, q: Path)
    requires 0 <= i < 4 && SetValues(settings, ordered, rules, hostname)[i].Some? && q < SET_PATHS[i]
    ensures var above := Lookup(RenderTree(settings, ordered, rules, hostname), q); above.Some? && above.value.JObj?
  {
    SetPathsHold(settings, ordered, rules, hostname, i);
    LookupAbove(RenderTree(settings, ordered, rules, hostname), SET_PATHS[i], q);
  }

  // ------------------------------------------------- what is set, in plain values

  lemma {:induction false} FirstDot(x: string, y: string)
    requires '.' !in x
    ensures IndexOfDot(x + "." + y) == |x|
  {
    if x != "" {
      FirstDot(x[1..], y);
      assert (x + "." + y)[1..] == x[1..] + "." + y;
    }
  }

  /** What follows the first dot, unless nothing does or there is no dot. */
  lemma WithoutFirstLabel(hostname: string)
    ensures forall x, y :: hostname == x + "." + y && '.' !in x ==> ParentDomain(hostname) == if y != "" then y else hostname
    ensures '.' !in hostname ==> ParentDomain(hostname) == hostname
  {
    forall x, y | hostname == x + "." + y && '.' !in x
      ensures ParentDomain(hostname) == if y != "" then y else hostname
    {
      FirstDot(x, y);
      assert hostname[|x| + 1..] == y;
    }
  }

  /** The default cookie: its URL is that of the portal, its domain the portal's without the first label. */
  lemma DefaultCookieRendered(settings: AutheliaSettings, ordered: seq<OidcClient>, rules: seq<Json>, hostname: string)
    returns (domain: string)
    requires hostname != "" && Lookup(settings.additionalConfig, ["session", "cookies"]).None?
    ensures Lookup(RenderTree(settings, ordered, rules, hostname), ["session", "cookies"]) ==
            Some(JArr([JObj(map["domain" := JStr(domain), "authelia_url" := JStr("https://" + hostname)])]))
    ensures forall x, y :: hostname == x + "." + y && '.' !in x ==> domain == if y != "" then y else hostname
    ensures '.' !in hostname ==> domain == hostname
  {
    domain := ParentDomain(hostname);
    WithoutFirstLabel(hostname);
    SetPathsHold(settings, ordered, rules, hostname, 1);
    assert SET_PATHS[1] == ["session", "cookies"];
  }

  /** Cookies that are there stay as they are, and without a hostname none are added. */
  lemma CookiesLeftAlone(settings: AutheliaSettings, ordered: seq<OidcClient>, rules: seq<Json>, hostname: string)
    requires hostname == "" || Lookup(settings.additionalConfig, ["session", "cookies"]).Some?
    ensures Lookup(RenderTree(settings, ordered, rules, hostname), ["session", "cookies"]) ==
            Lookup(settings.additionalConfig, ["session", "cookies"])
  {
    SetPathsHold(settings, ordered, rules, hostname, 1);
    assert SET_PATHS[1] == ["session", "cookies"];
  }

  lemma UsersFileRendered(settings: AutheliaSettings, ordered: seq<OidcClient>, rules: seq<Json>, hostname: string)
    ensures Lookup(RenderTree(settings, ordered, rules, hostname), ["authentication_backend", "file", "path"]) ==
      match settings.fileUsersSecret
      case Some(ref) => Some(JStr("/authelia/file-backend/" + ref.key))
      case None => Lookup(settings.additionalConfig, ["authentication_backend", "file", "path"])
  {
    SetPathsHold(settings, ordered, rules, hostname, 0);
    assert SET_PATHS[0] == ["authentication_backend", "file", "path"];
    if settings.fileUsersSecret.Some? {
      assert FILE_BACKEND_MOUNT_PATH + "/" == "/authelia/file-backend/";
    }
  }

  lemma ClientListRendered(settings: AutheliaSettings, ordered: seq<OidcClient>, rules: seq<Json>, hostname: string)
    ensures var list := Lookup(RenderTree(settings, ordered, rules, hostname), ["identity_providers", "oidc", "clients"]);
      if ordered == [] then list == Lookup(settings.additionalConfig, ["identity_providers", "oidc", "clients"])
      else
        && list.Some? && list.value.JArr? && |list.value.items| == |ordered|
        && forall i :: 0 <= i < |ordered| ==> list.value.items[i] == JObj(ClientToMap(ordered[i]))
  {
    SetPathsHold(settings, ordered, rules, hostname, 3);
    assert SET_PATHS[3] == ["identity_providers", "oidc", "clients"];
  }

  lemma RulesAndDefaultPolicy(settings: AutheliaSettings, ordered: seq<OidcClient>, rules: seq<Json>, hostname: string)
    ensures var t := RenderTree(settings, ordered, rules, hostname);
      && RuleList(t) == rules + RuleList(settings.additionalConfig)
      && Lookup(t, DEFAULT_POLICY_PATH) == Lookup(settings.additionalConfig, DEFAULT_POLICY_PATH)
  {
    SetPathsHold(settings, ordered, rules, hostname, 2);
    PathsApart();
    OtherPathsUnchanged(settings, ordered, rules, hostname, DEFAULT_POLICY_PATH);
    assert SET_PATHS[2] == RULES_PATH;
    assert rules == [] ==> rules + RuleList(settings.additionalConfig) == RuleList(settings.additionalConfig);
  }

  // -------------------------------------------------- rendering its own output

  /** Rendering a rendered tree again puts the generated rules in a second time and changes nothing else. */
  lemma RenderTwice(settings: AutheliaSettings, ordered: seq<OidcClient>, rules: seq<Json>, hostname: string)
    ensures var once := RenderTree(settings, ordered, rules, hostname);
            var twice := RenderTree(settings.(additionalConfig := once), ordered, rules, hostname);
            twice == if rules == [] then once
                     else Put(once, RULES_PATH, JArr(rules + (rules + RuleList(settings.additionalConfig))))
  {
    var once := RenderTree(settings, ordered, rules, hostname);
    SetPathsHold(settings, ordered, rules, hostname, 0);
    SetPathsHold(settings, ordered, rules, hostname, 1);
    SetPathsHold(settings, ordered, rules, hostname, 3);
    RulesAndDefaultPolicy(settings, ordered, rules, hostname);
    PutSomeAgain(once, FILE_PATH, FileValue(settings));
    assert WithSession(once, hostname) == once;
    var v := RulesValue(RuleList(once), rules);
    PathsApart();
    assert Apart(SET_PATHS[2], SET_PATHS[3]);
    LookupPutSome(once, RULES_PATH, v, CLIENTS_PATH);
    PutSomeAgain(PutSome(once, RULES_PATH, v), CLIENTS_PATH, ClientsValue(ordered));
  }

  lemma PutSomeAgain(t: JsonObject, p: Path, v: Option<Json>)
    requires v.None? || Lookup(t, p) == v
    ensures PutSome(t, p, v) == t
  {
    if v.Some? {
      PutSame(t, p, v.value);
    }
  }

  lemma RepeatedRulesDecideAlike(p: Matcher, rules: seq<Json>, fixed: seq<Json>)
    ensures FirstMatching(p, rules + (rules + fixed)) == FirstMatching(p, rules + fixed)
  {
    FirstMatchingConcat(p, rules, rules + fixed);
    FirstMatchingConcat(p, rules, fixed);
  }

  /** Rendering a rendered tree again leaves the decision on every request as it was. */
  lemma RenderTwiceDecidesAlike(p: Matcher, settings: AutheliaSettings, ordered: seq<OidcClient>, rules: seq<Json>, hostname: string)
    ensures var once := RenderTree(settings, ordered, rules, hostname);
            Decide(RenderTree(settings.(additionalConfig := once), ordered, rules, hostname), p) == Decide(once, p)
  {
    var once := RenderTree(settings, ordered, rules, hostname);
    RulesAndDefaultPolicy(settings, ordered, rules, hostname);
    RulesAndDefaultPolicy(settings.(additionalConfig := once), ordered, rules, hostname);
    RepeatedRulesDecideAlike(p, rules, RuleList(settings.additionalConfig));
  }

  // ------------------------------------------------------- decisions on requests

  function PolicyOf(rule: Json): Option<Json> {
    if rule.JObj? then Lookup(rule.fields, ["policy"]) else None
  }

  /** The decision of the rendered configuration: the winning generated rule, else additionalConfig. */
  lemma RenderedDecision(p: Matcher, settings: AutheliaSettings, ordered: seq<OidcClient>, ings: seq<Ingress>, hostname: string)
    ensures var collected := Collected(ings);
            var d := Decide(RenderTree(settings, ordered, RuleJsons(Compile(ings)), hostname), p);
      && (forall i :: Wins(p, collected, i) ==> d == ByRule(PolicyOf(RuleJson(collected[i]))))
      && ((forall i :: !Wins(p, collected, i)) ==> d == Decide(settings.additionalConfig, p))
  {
    var collected, fixed := Collected(ings), RuleList(settings.additionalConfig);
    RulesAndDefaultPolicy(settings, ordered, RuleJsons(Compile(ings)), hostname);
    forall i | Wins(p, collected, i)
      ensures FirstMatching(p, RuleJsons(Compile(ings)) + fixed) == Some(RuleJson(collected[i]))
    {
      WinnerIsFirstMatch(p, ings, i, fixed);
    }
    WinnerExists(p, collected);
    if forall i :: !Wins(p, collected, i) {
      NoWinnerFallsThrough(p, ings, fixed);
    }
  }

  /** Non-interference, for the whole rendered configuration. */
  lemma RenderedNonInterference(p: Matcher, settings: AutheliaSettings, ordered: seq<OidcClient>,
      u: seq<Ingress>, m: seq<Ingress>, m': seq<Ingress>, v: seq<Ingress>, hostname: string)
    requires forall r :: r in Collected(m) || r in Collected(m') ==> !p(RuleJson(r))
    ensures Decide(RenderTree(settings, ordered, RuleJsons(Compile(u + m + v)), hostname), p) ==
            Decide(RenderTree(settings, ordered, RuleJsons(Compile(u + m' + v)), hostname), p)
  {
    RulesAndDefaultPolicy(settings, ordered, RuleJsons(Compile(u + m + v)), hostname);
    RulesAndDefaultPolicy(settings, ordered, RuleJsons(Compile(u + m' + v)), hostname);
    NonInterference(p, u, m, m', v, RuleList(settings.additionalConfig));
  }

  /** And between two states of a cluster: only additionalConfig and the matching rules bear on a decision. */
  lemma RenderedSilentChanges(p: Matcher, settings: AutheliaSettings, hostname: string, ordered: seq<OidcClient>,
      settings': AutheliaSettings, hostname': string, ordered': seq<OidcClient>,
      m: map<Key, IngressBody>, ings: seq<Ingress>, m': map<Key, IngressBody>, ings': seq<Ingress>)
    requires settings.additionalConfig == settings'.additionalConfig
    requires IsListing(ings, m) && IsListing(ings', m') && AllAdmissible(m) && DifferSilently(p, m, m')
    ensures Decide(RenderTree(settings, ordered, RuleJsons(Compile(ings)), hostname), p) ==
            Decide(RenderTree(settings', ordered', RuleJsons(Compile(ings')), hostname'), p)
  {
    RulesAndDefaultPolicy(settings, ordered, RuleJsons(Compile(ings)), hostname);
    RulesAndDefaultPolicy(settings', ordered', RuleJsons(Compile(ings')), hostname');
    SilentChangesDoNotShow(p, m, m', ings, ings', RuleList(settings.additionalConfig));
  }
}
