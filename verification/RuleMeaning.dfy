/**
 * What the compiled rules mean, said of annotations, hosts and rendered JSON alone: which annotations
 * yield a rule and what it holds, in which order the rules stand, and which of them decides.
 */
module RuleMeaning {
  import opened Sequences
  import opened Ordering
  import opened JsonTree
  import opened Objects
  import opened Settings
  import opened AccessRules
  import opened FirstMatch
  import opened Clients
  import opened Render

  // ------------------------------------------------- which annotations yield a rule

  ghost predicate IsHost(body: IngressBody, h: string) {
    h != "" && (h in body.ruleHosts || exists hosts :: hosts in body.tlsHosts && h in hosts)
  }

  ghost predicate HasHost(body: IngressBody) {
    exists h :: IsHost(body, h)
  }

  /** The annotation is a rule annotation whose value is an object with one of the four policies. */
  predicate Declares(body: IngressBody, k: string) {
    && k in body.annotations && (k == "heliop/rule" || "heliop/rule-" <= k)
    && body.annotations[k].Parsed? && "policy" in body.annotations[k].fields
    && body.annotations[k].fields["policy"] in {JStr("bypass"), JStr("one_factor"), JStr("two_factor"), JStr("deny")}
  }

  ghost function DeclaredKeys(body: IngressBody): set<string> {
    set k | k in body.annotations && Declares(body, k)
  }

  /** The hosts, each once, in ascending order. */
  ghost predicate ListsHosts(body: IngressBody, v: Json) {
    && v.JArr? && (forall j :: j in v.items ==> j.JStr?)
    && (forall h :: JStr(h) in v.items <==> IsHost(body, h))
    && forall i, j :: 0 <= i < j < |v.items| ==> Lexicographic(v.items[i].s, v.items[j].s)
  }

  /** `r` is the rule of the annotation `k`: its fields, but for the hosts, which are forced. */
  ghost predicate IsRuleOf(ing: Ingress, k: string, r: AccessRule)
    requires Declares(ing.body, k)
  {
    var fields := ing.body.annotations[k].fields;
    && RuleJson(r) == JObj(r.rule)
    && r.rule.Keys == fields.Keys + {"domain"}
    && (forall x :: x in fields && x != "domain" ==> r.rule[x] == fields[x])
    && ListsHosts(ing.body, r.rule["domain"])
    && r.rule["domain"].items != []
    && r.key == r.rule["domain"].items[0].s + "/" + ing.key.ns + "/" + ing.key.name + "/" + k
  }

  lemma HostsAreDomains(body: IngressBody)
    ensures forall h :: h in Domains(body) <==> IsHost(body, h)
  {
    AscendingIsIncreasing(HostSet(body));
    forall h ensures h in Domains(body) <==> IsHost(body, h) {
      FlatMapMember((hosts: seq<string>) => hosts, body.tlsHosts, h);
    }
  }

  lemma DomainsListHosts(body: IngressBody)
    ensures ListsHosts(body, JArr(Strings(Domains(body))))
  {
    HostsAreDomains(body);
    var domains, items := Domains(body), Strings(Domains(body));
    AscendingIsIncreasing(HostSet(body));
    forall h ensures JStr(h) in items <==> IsHost(body, h) {
      if h in domains {
        var i :| 0 <= i < |domains| && domains[i] == h;
        assert items[i] == JStr(h);
      }
    }
    forall i, j | 0 <= i < j < |items| ensures Lexicographic(items[i].s, items[j].s) {
      StringLessIff(domains[i], domains[j]);
    }
  }

  lemma DeclaredIffRule(ing: Ingress, k: string)
    requires Domains(ing.body) != [] && k in RuleKeys(ing.body)
    ensures var rules := RuleFor(ing, Domains(ing.body))(k);
      if Declares(ing.body, k) then |rules| == 1 && IsRuleOf(ing, k, rules[0]) else rules == []
  {
    DomainsListHosts(ing.body);
    var value := ing.body.annotations[k];
    assert value.Parsed? ==> (HasValidPolicy(value.fields) <==> Declares(ing.body, k));
  }

  ghost function OnlyRule(ing: Ingress): string -> AccessRule
    requires Domains(ing.body) != []
  {
    k => var rules := RuleFor(ing, Domains(ing.body))(k); if |rules| == 1 then rules[0] else AccessRule(0, false, "", map[])
  }

  ghost function Declaring(body: IngressBody): string -> bool {
    k => Declares(body, k)
  }

  /** The declaring annotations, in the order in which they are visited. */
  ghost function VisitedKeys(body: IngressBody): seq<string> {
    Filter(Declaring(body), Ascending(RuleKeys(body)))
  }

  lemma VisitedKeysMember(body: IngressBody, k: string)
    ensures k in VisitedKeys(body) <==> Declares(body, k)
    ensures k in Ascending(RuleKeys(body)) <==> k in RuleKeys(body)
  {
    AscendingIsIncreasing(RuleKeys(body));
    FilterMember(Declaring(body), Ascending(RuleKeys(body)), k);
  }

  lemma EachVisitedOnce(body: IngressBody)
    ensures multiset(VisitedKeys(body)) == multiset(DeclaredKeys(body))
  {
    AscendingListing(RuleKeys(body));
    FilterOfSet(Declaring(body), Ascending(RuleKeys(body)), RuleKeys(body));
    DeclaredAreKeys(body);
  }

  lemma DeclaredAreKeys(body: IngressBody)
    ensures (set k | k in RuleKeys(body) && Declaring(body)(k)) == DeclaredKeys(body)
  {
  }

  lemma AscendingListing(s: set<string>)
    ensures multiset(Ascending(s)) == multiset(s)
  {
    SortMultiset(StringLess, Enumerate(s));
  }

  lemma RulesOfVisited(ing: Ingress)
    requires Domains(ing.body) != []
    ensures RulesOf(ing) == Map(OnlyRule(ing), VisitedKeys(ing.body))
  {
    var all := Ascending(RuleKeys(ing.body));
    forall k | k in all
      ensures RuleFor(ing, Domains(ing.body))(k) == if Declaring(ing.body)(k) then [OnlyRule(ing)(k)] else []
    {
      VisitedKeysMember(ing.body, k);
      DeclaredIffRule(ing, k);
    }
    FlatMapOfFiltered(OnlyRule(ing), RuleFor(ing, Domains(ing.body)), Declaring(ing.body), all);
  }

  lemma VisitedRules(ing: Ingress)
    requires Domains(ing.body) != []
    ensures var keys := VisitedKeys(ing.body);
      && |RulesOf(ing)| == |keys|
      && forall i :: 0 <= i < |keys| ==> Declares(ing.body, keys[i]) && IsRuleOf(ing, keys[i], RulesOf(ing)[i])
  {
    var keys := VisitedKeys(ing.body);
    RulesOfVisited(ing);
    forall i | 0 <= i < |keys| ensures Declares(ing.body, keys[i]) && IsRuleOf(ing, keys[i], RulesOf(ing)[i]) {
      VisitedKeysMember(ing.body, keys[i]);
      DeclaredIffRule(ing, keys[i]);
      assert RulesOf(ing)[i] == OnlyRule(ing)(keys[i]);
    }
  }

  lemma HostsIffDomains(body: IngressBody)
    ensures HasHost(body) <==> Domains(body) != []
  {
    HostsAreDomains(body);
    if Domains(body) != [] {
      assert Domains(body)[0] in Domains(body);
    }
  }

  /**
   * An Ingress with a host yields exactly one rule for each annotation that declares one, and no other;
   * without a host it yields none.
   */
  lemma OneRuleEach(ing: Ingress) returns (keys: seq<string>)
    ensures multiset(keys) == if HasHost(ing.body) then multiset(DeclaredKeys(ing.body)) else multiset{}
    ensures |RulesOf(ing)| == |keys|
    ensures forall i :: 0 <= i < |keys| ==> Declares(ing.body, keys[i]) && IsRuleOf(ing, keys[i], RulesOf(ing)[i])
  {
    HostsIffDomains(ing.body);
    if Domains(ing.body) == [] {
      keys := [];
    } else {
      keys := VisitedKeys(ing.body);
      EachVisitedOnce(ing.body);
      VisitedRules(ing);
    }
  }

  /** The rules of every listed Ingress are collected, in the order of the list. */
  lemma CollectedSplits(u: seq<Ingress>, ing: Ingress, v: seq<Ingress>)
    ensures Collected(u + [ing] + v) == Collected(u) + RulesOf(ing) + Collected(v) && Collected([]) == []
  {
    FlatMapConcat(RulesOf, u + [ing], v);
    FlatMapAppend(RulesOf, u, ing);
  }

  /** Sorting loses no rule and adds none. */
  lemma CompiledIsPermutation(ings: seq<Ingress>)
    ensures multiset(Compile(ings)) == multiset(Collected(ings))
  {
    SortMultiset(Precedes, Collected(ings));
  }

  /** What is reported of a rule are the hosts under "domain", in their order. */
  lemma ReportedDomains(ings: seq<Ingress>, r: AccessRule)
    requires r in Collected(ings)
    ensures "domain" in r.rule && r.rule["domain"].JArr? && |RuleDomains(r)| == |r.rule["domain"].items|
    ensures forall i :: 0 <= i < |RuleDomains(r)| ==> r.rule["domain"].items[i] == JStr(RuleDomains(r)[i])
  {
    var ing := CollectedIsForced(ings, r);
    var _ := RulesAreForced(ing, r);
  }

  // ------------------------------------------------------- the order of the rules

  /** `q` is one of the patterns under "resources", or the single one there. */
  predicate HasPattern(rule: JsonObject, q: string) {
    "resources" in rule &&
    (rule["resources"] == JStr(q) || (rule["resources"].JArr? && JStr(q) in rule["resources"].items))
  }

  /** `n` is the length of the longest pattern in bytes, 0 when there is none. */
  ghost predicate LongestPattern(rule: JsonObject, n: nat) {
    (forall q :: HasPattern(rule, q) ==> ByteLen(q) <= n) && (n == 0 || exists q :: HasPattern(rule, q) && ByteLen(q) == n)
  }

  ghost predicate HasStar(rule: JsonObject) {
    "domain" in rule && rule["domain"].JArr? && exists h :: JStr(h) in rule["domain"].items && h != "" && h[0] == '*'
  }

  /** For ASCII the length in bytes is the number of characters; each further byte is a range of characters. */
  lemma {:induction false} LengthInBytes(s: string)
    ensures (forall c :: c in s ==> c as int < 128) ==> ByteLen(s) == |s|
    ensures |s| <= ByteLen(s) <= 4 * |s|
  {
    if s != "" {
      assert s[0] in s && forall c :: c in s[1..] ==> c in s;
      LengthInBytes(s[1..]);
    }
  }

  lemma CharacterInBytes(c: char)
    ensures ByteLen([c]) ==
      if c as int <= 127 then 1 else if c as int <= 2047 then 2 else if c as int <= 65535 then 3 else 4
  {
    assert [c][1..] == "";
  }

  lemma {:induction false} LengthAdds(s: string, t: string)
    ensures ByteLen(s + t) == ByteLen(s) + ByteLen(t)
  {
    if s == "" {
      assert s + t == t;
    } else {
      assert (s + t)[1..] == s[1..] + t;
      LengthAdds(s[1..], t);
    }
  }

  lemma LengthIsLongest(rule: JsonObject)
    ensures LongestPattern(rule, ResourceLen(rule))
  {
    if "resources" in rule && rule["resources"].JArr? && ResourceLen(rule) != 0 {
      var j :| j in rule["resources"].items && j.JStr? && ByteLen(j.s) == ResourceLen(rule);
      assert HasPattern(rule, j.s);
    } else if "resources" in rule && rule["resources"].JStr? {
      assert HasPattern(rule, rule["resources"].s);
    }
  }

  lemma StarIsWildcard(domains: seq<string>, rule: JsonObject)
    requires "domain" in rule && rule["domain"] == JArr(Strings(domains))
    ensures AnyWildcard(domains) <==> HasStar(rule)
  {
    var items := Strings(domains);
    if d :| d in domains && "*" <= d {
      var i :| 0 <= i < |domains| && domains[i] == d;
      assert items[i] == JStr(d) && d[0] == '*';
    }
    if h :| JStr(h) in items && h != "" && h[0] == '*' {
      var i :| 0 <= i < |items| && items[i] == JStr(h);
      assert h in domains && h[..1] == "*";
    }
  }

  /** What the sort looks at is what the rendered rule holds. */
  lemma MetadataOf(ings: seq<Ingress>, r: AccessRule)
    requires r in Collected(ings)
    ensures LongestPattern(r.rule, r.resourceLen) && (r.wildcard <==> HasStar(r.rule))
  {
    var ing := CollectedIsForced(ings, r);
    var k := RulesAreForced(ing, r);
    var domains := Domains(ing.body);
    assert r in RuleFor(ing, domains)(k);
    DeclaredRule(ing, domains, k, r);
    LengthIsLongest(r.rule);
    StarIsWildcard(domains, r.rule);
  }

  /**
   * The order in which Authelia sees the rules: never a shorter longest pattern before a longer one; at
   * equal length no host with a star before one without; at equal length and kind the keys ascend.
   */
  lemma CompiledOrder(ings: seq<Ingress>, i: nat, j: nat) returns (n: nat, m: nat)
    requires i < j < |Compile(ings)|
    ensures var a, b := Compile(ings)[i], Compile(ings)[j];
      && LongestPattern(a.rule, n) && LongestPattern(b.rule, m) && n >= m
      && (n == m && HasStar(a.rule) ==> HasStar(b.rule))
      && (n == m && (HasStar(a.rule) <==> HasStar(b.rule)) ==> a.key == b.key || Lexicographic(a.key, b.key))
  {
    var a, b := Compile(ings)[i], Compile(ings)[j];
    PrecedesIsOrder();
    SortIsSortedPermutation(Precedes, Collected(ings));
    PermutationMember(Compile(ings), Collected(ings));
    assert a in Collected(ings) && b in Collected(ings) && !Precedes(b, a);
    MetadataOf(ings, a);
    MetadataOf(ings, b);
    n, m := a.resourceLen, b.resourceLen;
    StringLessTotal(a.key, b.key);
    StringLessIff(a.key, b.key);
  }

  // ----------------------------------------------------------- which rule decides

  /** `a` has a non-empty pattern longer than every pattern of `b`. */
  ghost predicate ReachesFurther(a: JsonObject, b: JsonObject) {
    exists q :: HasPattern(a, q) && q != "" && forall x :: HasPattern(b, x) ==> ByteLen(x) < ByteLen(q)
  }

  /** Longer patterns, else no star against a star, else the smaller key. */
  ghost predicate Outranks(a: AccessRule, b: AccessRule) {
    || ReachesFurther(a.rule, b.rule)
    || (!ReachesFurther(b.rule, a.rule) &&
         ((!HasStar(a.rule) && HasStar(b.rule)) || ((HasStar(a.rule) <==> HasStar(b.rule)) && Lexicographic(a.key, b.key))))
  }

  lemma FurtherIffLonger(a: JsonObject, b: JsonObject, n: nat, m: nat)
    requires LongestPattern(a, n) && LongestPattern(b, m)
    ensures ReachesFurther(a, b) <==> n > m
  {
    if n > m {
      var q :| HasPattern(a, q) && ByteLen(q) == n;
      assert q != "" && forall x :: HasPattern(b, x) ==> ByteLen(x) < ByteLen(q);
    }
    if ReachesFurther(a, b) {
      var q :| HasPattern(a, q) && q != "" && forall x :: HasPattern(b, x) ==> ByteLen(x) < ByteLen(q);
      LengthInBytes(q);
    }
  }

  lemma PrecedesIffOutranks(ings: seq<Ingress>, a: AccessRule, b: AccessRule)
    requires a in Collected(ings) && b in Collected(ings)
    ensures Precedes(a, b) <==> Outranks(a, b)
  {
    MetadataOf(ings, a);
    MetadataOf(ings, b);
    FurtherIffLonger(a.rule, b.rule, a.resourceLen, b.resourceLen);
    FurtherIffLonger(b.rule, a.rule, b.resourceLen, a.resourceLen);
    StringLessIff(a.key, b.key);
  }

  /** A matching rule that outranks every other matching rule. */
  ghost predicate RanksFirst(p: Matcher, rules: seq<AccessRule>, i: nat) {
    && i < |rules| && p(JObj(rules[i].rule))
    && forall j :: 0 <= j < |rules| && j != i && p(JObj(rules[j].rule)) ==> Outranks(rules[i], rules[j])
  }

  lemma FirstRankWins(p: Matcher, ings: seq<Ingress>, i: nat)
    requires RanksFirst(p, Collected(ings), i)
    ensures Wins(p, Collected(ings), i)
  {
    var rules := Collected(ings);
    PrecedesIsOrder();
    forall j | 0 <= j < |rules| && j != i && p(RuleJson(rules[j])) ensures Precedes(rules[i], rules[j]) && !Precedes(rules[j], rules[i]) {
      PrecedesIffOutranks(ings, rules[i], rules[j]);
    }
  }

  lemma PolicyIsValid(ings: seq<Ingress>, r: AccessRule)
    requires r in Collected(ings)
    ensures "policy" in r.rule && r.rule["policy"] in {JStr("bypass"), JStr("one_factor"), JStr("two_factor"), JStr("deny")}
    ensures PolicyOf(RuleJson(r)) == Some(r.rule["policy"])
  {
    var ing := CollectedIsForced(ings, r);
    var _ := RulesAreForced(ing, r);
    ValidPolicies(r.rule);
  }

  lemma ValidPolicies(rule: JsonObject)
    requires HasValidPolicy(rule)
    ensures "policy" in rule && rule["policy"] in {JStr("bypass"), JStr("one_factor"), JStr("two_factor"), JStr("deny")}
    ensures PolicyOf(JObj(rule)) == Some(rule["policy"])
  {
  }

  /** It decides the request, by its own policy. */
  lemma FirstRankDecides(p: Matcher, settings: AutheliaSettings, ordered: seq<OidcClient>, ings: seq<Ingress>, hostname: string, i: nat)
    requires RanksFirst(p, Collected(ings), i)
    ensures var rule := Collected(ings)[i].rule;
      && "policy" in rule && rule["policy"] in {JStr("bypass"), JStr("one_factor"), JStr("two_factor"), JStr("deny")}
      && Decide(RenderTree(settings, ordered, RuleJsons(Compile(ings)), hostname), p) == ByRule(Some(rule["policy"]))
  {
    FirstRankWins(p, ings, i);
    PolicyIsValid(ings, Collected(ings)[i]);
    RenderedDecision(p, settings, ordered, ings, hostname);
  }

  /** In particular a matching rule whose patterns reach further than those of any other matching rule. */
  lemma LongestPatternDecides(p: Matcher, settings: AutheliaSettings, ordered: seq<OidcClient>, ings: seq<Ingress>, hostname: string, i: nat)
    requires i < |Collected(ings)| && p(JObj(Collected(ings)[i].rule))
    requires forall j :: 0 <= j < |Collected(ings)| && j != i && p(JObj(Collected(ings)[j].rule)) ==>
      ReachesFurther(Collected(ings)[i].rule, Collected(ings)[j].rule)
    ensures "policy" in Collected(ings)[i].rule
    ensures Decide(RenderTree(settings, ordered, RuleJsons(Compile(ings)), hostname), p) ==
            ByRule(Some(Collected(ings)[i].rule["policy"]))
  {
    FirstRankDecides(p, settings, ordered, ings, hostname, i);
  }

  lemma DefaultPolicyKept(settings: AutheliaSettings, ordered: seq<OidcClient>, rules: seq<Json>, hostname: string)
    ensures Lookup(RenderTree(settings, ordered, rules, hostname), ["access_control", "default_policy"]) ==
            Lookup(settings.additionalConfig, ["access_control", "default_policy"])
  {
    RulesAndDefaultPolicy(settings, ordered, rules, hostname);
    assert DEFAULT_POLICY_PATH == ["access_control", "default_policy"];
  }

  /** The rendered list: the compiled rules as JSON objects, then what additionalConfig lists. */
  lemma RenderedRuleList(settings: AutheliaSettings, ordered: seq<OidcClient>, ings: seq<Ingress>, hostname: string)
    ensures var t := RenderTree(settings, ordered, RuleJsons(Compile(ings)), hostname);
      var fixed := Lookup(settings.additionalConfig, ["access_control", "rules"]);
      if Compile(ings) == [] then Lookup(t, ["access_control", "rules"]) == fixed
      else
        var list := Lookup(t, ["access_control", "rules"]);
        && list.Some? && list.value.JArr? && |list.value.items| >= |Compile(ings)|
        && (forall i :: 0 <= i < |Compile(ings)| ==> list.value.items[i] == JObj(Compile(ings)[i].rule))
        && list.value.items[|Compile(ings)|..] == if fixed.Some? && fixed.value.JArr? then fixed.value.items else []
  {
    SetPathsHold(settings, ordered, RuleJsons(Compile(ings)), hostname, 2);
    assert SET_PATHS[2] == RULES_PATH;
  }
}
