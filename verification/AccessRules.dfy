/**
 * The access-rule compiler: from annotated Ingresses to one globally sorted list of Authelia
 * access_control rules (internal/controller/ingress.go and collectIngressRules).
 */
module AccessRules {
  import opened Sequences
  import opened Ordering
  import opened JsonTree
  import opened Objects

  const RULE_ANNOTATION: string := "heliop/rule"
  const VALID_POLICIES: set<string> := {"bypass", "one_factor", "two_factor", "deny"}

  /** An annotation value after JSON decoding into an object; `null` decodes to no fields. */
  datatype Annotation = Malformed | Parsed(fields: JsonObject)

  datatype IngressBody = IngressBody(
    annotations: map<string, Annotation>,
    ruleHosts: seq<string>,
    tlsHosts: seq<seq<string>>
  )

  type Ingress = Object<IngressBody>

  datatype AccessRule = AccessRule(resourceLen: nat, wildcard: bool, key: string, rule: JsonObject)

  predicate IsRuleAnnotation(k: string) {
    k == RULE_ANNOTATION || RULE_ANNOTATION + "-" <= k
  }

  predicate HasRuleAnnotations(body: IngressBody) {
    exists k :: k in body.annotations && IsRuleAnnotation(k)
  }

  // ------------------------------------------------------------------ domains

  function AllHosts(body: IngressBody): seq<string> {
    body.ruleHosts + FlatMap((hosts: seq<string>) => hosts, body.tlsHosts)
  }

  /** The hosts an Ingress names in its rules or its TLS section. */
  ghost function HostSet(body: IngressBody): set<string> {
    set h | h in AllHosts(body) && h != ""
  }

  ghost function Domains(body: IngressBody): seq<string> {
    Ascending(HostSet(body))
  }

  method SortStrings(s: seq<string>) returns (r: seq<string>)
    ensures r == Sort(StringLess, s)
  {
    var a := new string[|s|](i requires 0 <= i < |s| => s[i]);
    assert a[..] == s;
    SortInPlace(a, StringLess);
    r := a[..];
  }

  method AddHosts(hosts: seq<string>, seen: set<string>, domains: seq<string>) returns (seen': set<string>, domains': seq<string>)
    requires multiset(domains) == multiset(seen)
    ensures multiset(domains') == multiset(seen')
    ensures seen' == seen + set h | h in hosts && h != ""
  {
    seen', domains' := seen, domains;
    for i := 0 to |hosts|
      invariant multiset(domains') == multiset(seen')
      invariant seen' == seen + set h | h in hosts[..i] && h != ""
    {
      var h := hosts[i];
      assert hosts[..i + 1] == hosts[..i] + [h];
      if h != "" && h !in seen' {
        seen' := seen' + {h};
        domains' := domains' + [h];
      }
    }
    assert hosts[..|hosts|] == hosts;
  }

  /** Rule and TLS hosts without repetitions and empty names, sorted. */
  method IngressDomains(body: IngressBody) returns (domains: seq<string>)
    ensures domains == Domains(body)
    ensures StrictlyIncreasing(domains)
    ensures forall h :: h in domains <==> h in AllHosts(body) && h != ""
  {
    var seen: set<string>, found := AddHosts(body.ruleHosts, {}, []);
    ghost var flat := (hosts: seq<string>) => hosts;
    for i := 0 to |body.tlsHosts|
      invariant multiset(found) == multiset(seen)
      invariant seen == set h | h in body.ruleHosts + FlatMap(flat, body.tlsHosts[..i]) && h != ""
    {
      PrefixOneMore(body.tlsHosts, i);
      FlatMapAppend(flat, body.tlsHosts[..i], body.tlsHosts[i]);
      seen, found := AddHosts(body.tlsHosts[i], seen, found);
    }
    assert body.tlsHosts[..|body.tlsHosts|] == body.tlsHosts;
    assert seen == HostSet(body);
    domains := SortStrings(found);
    AscendingUnique(seen, found);
    AscendingIsIncreasing(seen);
  }

  // ---------------------------------------------------------- rule metadata

  /** Go's `len` of a string: the bytes of its UTF-8 encoding. */
  function ByteLen(s: string): nat {
    if s == "" then 0
    else
      var c := s[0] as int;
      (if c < 0x80 then 1 else if c < 0x800 then 2 else if c < 0x1_0000 then 3 else 4) + ByteLen(s[1..])
  }

  /** `n` is the byte length of the longest string among the items, 0 when there is none. */
  ghost predicate IsLongest(items: seq<Json>, n: nat) {
    && (forall j :: j in items && j.JStr? ==> ByteLen(j.s) <= n)
    && (n == 0 || exists j :: j in items && j.JStr? && ByteLen(j.s) == n)
  }

  function LongestString(items: seq<Json>): (n: nat)
    ensures IsLongest(items, n)
  {
    if items == [] then 0
    else
      var last := items[|items| - 1];
      var rest := LongestString(items[..|items| - 1]);
      assert items == items[..|items| - 1] + [last];
      if last.JStr? && ByteLen(last.s) > rest then ByteLen(last.s) else rest
  }

  lemma LongestOneMore(items: seq<Json>, last: Json)
    ensures LongestString(items + [last]) ==
      if last.JStr? && ByteLen(last.s) > LongestString(items) then ByteLen(last.s) else LongestString(items)
  {
    assert (items + [last])[..|items|] == items;
  }

  /** A list of resource patterns counts its longest string, a single pattern itself. */
  function ResourceLen(rule: JsonObject): nat {
    if "resources" !in rule then 0
    else match rule["resources"]
      case JArr(items) => LongestString(items)
      case JStr(s) => ByteLen(s)
      case _ => 0
  }

  method ComputeResourceLen(rule: JsonObject) returns (max: nat)
    ensures max == ResourceLen(rule)
    ensures "resources" in rule && rule["resources"].JArr? ==> IsLongest(rule["resources"].items, max)
  {
    max := 0;
    if "resources" in rule {
      match rule["resources"]
      case JArr(items) =>
        for i := 0 to |items|
          invariant max == LongestString(items[..i])
        {
          LongestOneMore(items[..i], items[i]);
          PrefixOneMore(items, i);
          if items[i].JStr? && ByteLen(items[i].s) > max {
            max := ByteLen(items[i].s);
          }
        }
        assert items[..|items|] == items;
      case JStr(s) => max := ByteLen(s);
      case _ =>
    }
  }

  predicate AnyWildcard(domains: seq<string>) {
    exists d :: d in domains && "*" <= d
  }

  predicate HasValidPolicy(fields: JsonObject) {
    "policy" in fields && fields["policy"].JStr? && fields["policy"].s in VALID_POLICIES
  }

  // ------------------------------------------------------- rules of one Ingress

  function SortKey(key: Key, domain: string, annotation: string): string {
    domain + "/" + key.ns + "/" + key.name + "/" + annotation
  }

  /** The rule an annotation declares, with its domain forced to `domains`; none when it is invalid. */
  function RuleFor(ing: Ingress, domains: seq<string>): string -> seq<AccessRule>
    requires domains != []
  {
    k =>
      if k in ing.body.annotations && ing.body.annotations[k].Parsed? && HasValidPolicy(ing.body.annotations[k].fields) then
        var m := ing.body.annotations[k].fields["domain" := JArr(Strings(domains))];
        [AccessRule(ResourceLen(m), AnyWildcard(domains), SortKey(ing.key, domains[0], k), m)]
      else
        []
  }

  ghost function RuleKeys(body: IngressBody): set<string> {
    set k | k in body.annotations && IsRuleAnnotation(k)
  }

  ghost function RulesOf(ing: Ingress): seq<AccessRule> {
    var domains := Domains(ing.body);
    if domains == [] then [] else FlatMap(RuleFor(ing, domains), Ascending(RuleKeys(ing.body)))
  }

  /** The keys are visited in whatever order the annotation map yields them. */
  method RuleAnnotationKeys(body: IngressBody) returns (keys: seq<string>)
    ensures multiset(keys) == multiset(RuleKeys(body))
  {
    keys := [];
    var rest := body.annotations.Keys;
    while rest != {}
      invariant rest <= body.annotations.Keys
      invariant multiset(keys) == multiset(RuleKeys(body) - rest)
      decreases |rest|
    {
      var k: string :| k in rest;
      if IsRuleAnnotation(k) {
        keys := keys + [k];
        assert RuleKeys(body) - (rest - {k}) == (RuleKeys(body) - rest) + {k};
      } else {
        assert RuleKeys(body) - (rest - {k}) == RuleKeys(body) - rest;
      }
      rest := rest - {k};
    }
    assert RuleKeys(body) - {} == RuleKeys(body);
  }

  method HasWildcard(domains: seq<string>) returns (wildcard: bool)
    ensures wildcard == AnyWildcard(domains)
  {
    wildcard := false;
    for j := 0 to |domains|
      invariant !AnyWildcard(domains[..j])
    {
      assert domains[..j + 1] == domains[..j] + [domains[j]];
      if "*" <= domains[j] {
        assert domains[j] in domains;
        return true;
      }
    }
    assert domains[..|domains|] == domains;
  }

  /** One round of the loop over annotations: nothing for an invalid one. */
  method AnnotationRule(ing: Ingress, domains: seq<string>, k: string) returns (rules: seq<AccessRule>)
    requires domains != [] && k in ing.body.annotations
    ensures rules == RuleFor(ing, domains)(k)
  {
    rules := [];
    var value := ing.body.annotations[k];
    if value.Malformed? || !HasValidPolicy(value.fields) {
      return;
    }
    var m := value.fields["domain" := JArr(Strings(domains))];
    var wildcard := HasWildcard(domains);
    var len := ComputeResourceLen(m);
    rules := [AccessRule(len, wildcard, SortKey(ing.key, domains[0], k), m)];
  }

  method RulesForKeys(ing: Ingress, domains: seq<string>, keys: seq<string>) returns (rules: seq<AccessRule>)
    requires domains != [] && forall k :: k in keys ==> k in ing.body.annotations
    ensures rules == FlatMap(RuleFor(ing, domains), keys)
  {
    rules := [];
    ghost var ruleFor := RuleFor(ing, domains);
    for i := 0 to |keys|
      invariant rules == FlatMap(ruleFor, keys[..i])
    {
      FlatMapAppend(ruleFor, keys[..i], keys[i]);
      PrefixOneMore(keys, i);
      var declared := AnnotationRule(ing, domains, keys[i]);
      rules := rules + declared;
    }
    assert keys[..|keys|] == keys;
  }

  method IngressAccessRules(ing: Ingress) returns (rules: seq<AccessRule>)
    ensures rules == RulesOf(ing)
  {
    var domains := IngressDomains(ing.body);
    if domains == [] {
      return [];
    }
    var found := RuleAnnotationKeys(ing.body);
    var keys := SortStrings(found);
    AscendingUnique(RuleKeys(ing.body), found);
    AscendingIsIncreasing(RuleKeys(ing.body));
    rules := RulesForKeys(ing, domains, keys);
  }

  // ---------------------------------------------------------- the global order

  /** Longer resource patterns first, then exact hosts before wildcards, then the key. */
  predicate Precedes(a: AccessRule, b: AccessRule) {
    if a.resourceLen != b.resourceLen then a.resourceLen > b.resourceLen
    else if a.wildcard != b.wildcard then !a.wildcard
    else StringLess(a.key, b.key)
  }

  lemma PrecedesIsOrder()
    ensures StrictWeakOrder(Precedes)
  {
    StringLessIsOrder();
    forall a, b, c | Precedes(a, c) ensures Precedes(a, b) || Precedes(b, c) {
      assert StringLess(a.key, c.key) ==> StringLess(a.key, b.key) || StringLess(b.key, c.key);
    }
    forall a, b | Precedes(a, b) ensures !Precedes(b, a) {
      assert StringLess(a.key, b.key) ==> !StringLess(b.key, a.key);
    }
  }

  ghost function Collected(ings: seq<Ingress>): seq<AccessRule> {
    FlatMap(RulesOf, ings)
  }

  /** All generated rules of the cluster, most specific first. */
  ghost function Compile(ings: seq<Ingress>): seq<AccessRule> {
    Sort(Precedes, Collected(ings))
  }

  function RuleJson(r: AccessRule): Json {
    JObj(r.rule)
  }

  /** The domains a generated rule carries. */
  function RuleDomains(r: AccessRule): seq<string> {
    if "domain" in r.rule && r.rule["domain"].JArr? then
      FlatMap((j: Json) => if j.JStr? then [j.s] else [], r.rule["domain"].items)
    else []
  }

  ghost predicate ForcedDomain(ing: Ingress, r: AccessRule) {
    "domain" in r.rule && r.rule["domain"] == JArr(Strings(Domains(ing.body)))
  }

  lemma DeclaredRule(ing: Ingress, domains: seq<string>, k: string, r: AccessRule)
    requires domains != [] && r in RuleFor(ing, domains)(k)
    ensures k in ing.body.annotations && ing.body.annotations[k].Parsed?
    ensures r.rule == ing.body.annotations[k].fields["domain" := JArr(Strings(domains))] && HasValidPolicy(r.rule)
    ensures [r] == RuleFor(ing, domains)(k)
  {
  }

  /**
   * Whatever the annotation says, a rule carries exactly the hosts of its Ingress; the rest of the
   * rule is the annotation's, and its policy is a valid one.
   */
  lemma RulesAreForced(ing: Ingress, r: AccessRule) returns (k: string)
    requires r in RulesOf(ing)
    ensures ForcedDomain(ing, r) && HasValidPolicy(r.rule)
    ensures k in RuleKeys(ing.body) && ing.body.annotations[k].Parsed?
    ensures forall f :: f != "domain" ==>
      (f in r.rule <==> f in ing.body.annotations[k].fields) &&
      (f in r.rule ==> r.rule[f] == ing.body.annotations[k].fields[f])
    ensures Domains(ing.body) != [] && [r] == RuleFor(ing, Domains(ing.body))(k)
  {
    var f := RuleFor(ing, Domains(ing.body));
    FlatMapMember(f, Ascending(RuleKeys(ing.body)), r);
    k :| k in Ascending(RuleKeys(ing.body)) && r in f(k);
    AscendingIsIncreasing(RuleKeys(ing.body));
    DeclaredRule(ing, Domains(ing.body), k, r);
  }

  lemma {:induction false} StringsOfStrings(ss: seq<string>)
    ensures FlatMap((j: Json) => if j.JStr? then [j.s] else [], Strings(ss)) == ss
  {
    if ss != [] {
      var n := |ss| - 1;
      StringsOfStrings(ss[..n]);
      assert Strings(ss)[..n] == Strings(ss[..n]);
    }
  }

  lemma CollectedIsForced(ings: seq<Ingress>, r: AccessRule) returns (ing: Ingress)
    requires r in Collected(ings)
    ensures ing in ings && r in RulesOf(ing)
    ensures RuleDomains(r) == Domains(ing.body)
  {
    FlatMapMember(RulesOf, ings, r);
    ing :| ing in ings && r in RulesOf(ing);
    var _ := RulesAreForced(ing, r);
    StringsOfStrings(Domains(ing.body));
  }

  method SortAccessRules(rules: array<AccessRule>)
    modifies rules
    ensures rules[..] == Sort(Precedes, old(rules[..]))
  {
    SortInPlace(rules, Precedes);
  }

  lemma CollectedOneMore(ings: seq<Ingress>, ing: Ingress)
    ensures Collected(ings + [ing]) == Collected(ings) + RulesOf(ing)
  {
    FlatMapAppend(RulesOf, ings, ing);
  }

  method GatherRules(list: seq<Ingress>) returns (found: seq<AccessRule>)
    ensures found == Collected(list)
  {
    found := [];
    for i := 0 to |list|
      invariant found == Collected(list[..i])
    {
      PrefixOneMore(list, i);
      CollectedOneMore(list[..i], list[i]);
      var more := IngressAccessRules(list[i]);
      found := found + more;
    }
    assert list[..|list|] == list;
  }

  method ReportDomains(rules: seq<AccessRule>) returns (domains: seq<string>)
    ensures domains == FlatMap(RuleDomains, rules)
  {
    domains := [];
    for i := 0 to |rules|
      invariant domains == FlatMap(RuleDomains, rules[..i])
    {
      PrefixOneMore(rules, i);
      FlatMapAppend(RuleDomains, rules[..i], rules[i]);
      domains := domains + RuleDomains(rules[i]);
    }
    assert rules[..|rules|] == rules;
  }

  /** Gathers, sorts, and reports the domains of the rules in the order of the rules. */
  method CollectIngressRules(list: seq<Ingress>) returns (rules: seq<AccessRule>, domains: seq<string>)
    ensures rules == Compile(list)
    ensures domains == FlatMap(RuleDomains, rules)
  {
    var found := GatherRules(list);
    var a := new AccessRule[|found|](i requires 0 <= i < |found| => found[i]);
    assert a[..] == found;
    SortAccessRules(a);
    rules := a[..];
    domains := ReportDomains(rules);
  }

  // ------------------------------------------------------------- determinism

  predicate SlashFree(s: string) {
    '/' !in s
  }

  /** What the API server guarantees of an Ingress: no slash in its namespace, name or hosts. */
  ghost predicate Admissible(ing: Ingress) {
    && SlashFree(ing.key.ns) && SlashFree(ing.key.name)
    && forall h :: h in AllHosts(ing.body) ==> SlashFree(h)
  }

  lemma SplitAtSlash(a: string, b: string, a': string, b': string)
    requires SlashFree(a) && SlashFree(a') && a + "/" + b == a' + "/" + b'
    ensures a == a' && b == b'
  {
    var s, s' := a + "/" + b, a' + "/" + b';
    assert forall i :: 0 <= i < |a| ==> s[i] == a[i] != '/';
    assert forall i :: 0 <= i < |a'| ==> s'[i] == a'[i] != '/';
    assert s[|a|] == '/' && s'[|a'|] == '/';
    assert |a| == |a'|;
    assert a == s[..|a|] && a' == s'[..|a|];
    assert b == s[|a| + 1..] && b' == s'[|a| + 1..];
  }

  /** The key names the Ingress and the annotation a rule came from. */
  lemma SortKeyInjective(key: Key, domain: string, annotation: string, key': Key, domain': string, annotation': string)
    requires SlashFree(domain) && SlashFree(key.ns) && SlashFree(key.name)
    requires SlashFree(domain') && SlashFree(key'.ns) && SlashFree(key'.name)
    requires SortKey(key, domain, annotation) == SortKey(key', domain', annotation')
    ensures domain == domain' && key == key' && annotation == annotation'
  {
    var tail, tail' := key.name + "/" + annotation, key'.name + "/" + annotation';
    assert SortKey(key, domain, annotation) == domain + "/" + (key.ns + "/" + tail);
    assert SortKey(key', domain', annotation') == domain' + "/" + (key'.ns + "/" + tail');
    SplitAtSlash(domain, key.ns + "/" + tail, domain', key'.ns + "/" + tail');
    SplitAtSlash(key.ns, tail, key'.ns, tail');
    SplitAtSlash(key.name, annotation, key'.name, annotation');
  }

  lemma RuleHasSortKey(ing: Ingress, r: AccessRule) returns (domain: string, k: string)
    requires Admissible(ing) && r in RulesOf(ing)
    ensures SlashFree(domain) && r.key == SortKey(ing.key, domain, k)
    ensures Domains(ing.body) != [] && [r] == RuleFor(ing, Domains(ing.body))(k)
  {
    k := RulesAreForced(ing, r);
    domain := Domains(ing.body)[0];
    AscendingIsIncreasing(HostSet(ing.body));
    assert domain in HostSet(ing.body);
  }

  lemma SameKeySameRule(i: Ingress, x: AccessRule, j: Ingress, y: AccessRule)
    requires Admissible(i) && Admissible(j) && (i.key == j.key ==> i == j)
    requires x in RulesOf(i) && y in RulesOf(j) && x.key == y.key
    ensures x == y
  {
    var d, k := RuleHasSortKey(i, x);
    var e, l := RuleHasSortKey(j, y);
    SortKeyInjective(i.key, d, k, j.key, e, l);
    assert x == [x][0] && y == [y][0];
  }

  /** The comparator is a strict total order on the rules of distinct Ingresses. */
  lemma PrecedesSeparates(ings: seq<Ingress>)
    requires UniqueKeys(ings) && forall ing :: ing in ings ==> Admissible(ing)
    ensures Separates(Precedes, Collected(ings))
  {
    forall x, y | x in Collected(ings) && y in Collected(ings) && x != y
      ensures Precedes(x, y) || Precedes(y, x)
    {
      var i := CollectedIsForced(ings, x);
      var j := CollectedIsForced(ings, y);
      assert x.key != y.key by {
        if x.key == y.key {
          SameKeySameRule(i, x, j, y);
        }
      }
      StringLessTotal(x.key, y.key);
    }
  }

  /** The compiled rules do not depend on the order in which the Ingresses are listed. */
  lemma CompileIgnoresListOrder(ings: seq<Ingress>, ings': seq<Ingress>)
    requires multiset(ings) == multiset(ings')
    requires UniqueKeys(ings) && forall ing :: ing in ings ==> Admissible(ing)
    ensures Compile(ings) == Compile(ings')
  {
    FlatMapPermutation(RulesOf, ings, ings');
    PrecedesIsOrder();
    PrecedesSeparates(ings);
    SortIgnoresOrder(Precedes, Collected(ings), Collected(ings'));
  }

  // -------------------------------------------------------- watch completeness

  predicate OptsIn(ing: Ingress) {
    HasRuleAnnotations(ing.body)
  }

  /** An Ingress whose events enqueue nothing contributes no rule. */
  lemma OptedOutHasNoRules(ing: Ingress)
    requires !OptsIn(ing)
    ensures RulesOf(ing) == []
  {
    assert RuleKeys(ing.body) == {};
    assert Ascending(RuleKeys(ing.body)) == [];
  }

  lemma CollectedFromOptedIn(ings: seq<Ingress>)
    ensures Collected(Filter(OptsIn, ings)) == Collected(ings)
  {
    forall ing | ing in ings && !OptsIn(ing) ensures RulesOf(ing) == [] {
      OptedOutHasNoRules(ing);
    }
    FlatMapFilter(RulesOf, OptsIn, ings);
  }

  /** Two Ingress lists with the same opted-in Ingresses compile to the same rules. */
  lemma CompileDependsOnOptedIn(ings: seq<Ingress>, ings': seq<Ingress>)
    requires multiset(Filter(OptsIn, ings)) == multiset(Filter(OptsIn, ings'))
    requires UniqueKeys(ings) && forall ing :: ing in ings ==> Admissible(ing)
    ensures Compile(ings) == Compile(ings')
  {
    var f, f' := Filter(OptsIn, ings), Filter(OptsIn, ings');
    forall x | x in f ensures x in ings { FilterMember(OptsIn, ings, x); }
    CompileIgnoresListOrder(f, f');
    CollectedFromOptedIn(ings);
    CollectedFromOptedIn(ings');
  }
}
