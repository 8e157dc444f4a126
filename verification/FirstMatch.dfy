/**
 * Authelia takes the first access_control rule that matches a request. Matching itself is an
 * arbitrary predicate on rules here; what a request is decided by follows from the order alone.
 */
module FirstMatch {
  import opened Sequences
  import opened Ordering
  import opened JsonTree
  import opened Objects
  import opened AccessRules

  const RULES_PATH: Path := ["access_control", "rules"]
  const DEFAULT_POLICY_PATH: Path := ["access_control", "default_policy"]

  type Matcher = Json -> bool

  datatype Decision = ByRule(policy: Option<Json>) | ByDefault(policy: Option<Json>)

  function FirstMatching(p: Matcher, rules: seq<Json>): Option<Json> {
    if rules == [] then None
    else if p(rules[0]) then Some(rules[0])
    else FirstMatching(p, rules[1..])
  }

  function RuleList(root: JsonObject): seq<Json> {
    match Lookup(root, RULES_PATH)
    case Some(JArr(items)) => items
    case _ => []
  }

  /** What Authelia decides for a request, given the whole configuration. */
  function Decide(root: JsonObject, p: Matcher): Decision {
    match FirstMatching(p, RuleList(root))
    case Some(rule) => ByRule(if rule.JObj? then Lookup(rule.fields, ["policy"]) else None)
    case None => ByDefault(Lookup(root, DEFAULT_POLICY_PATH))
  }

  function Matching(p: Matcher): AccessRule -> bool {
    r => p(RuleJson(r))
  }

  function RuleJsons(rules: seq<AccessRule>): seq<Json> {
    Map(RuleJson, rules)
  }

  lemma {:induction false} FirstMatchingConcat(p: Matcher, s: seq<Json>, t: seq<Json>)
    ensures FirstMatching(p, s + t) == if FirstMatching(p, s).Some? then FirstMatching(p, s) else FirstMatching(p, t)
  {
    if s == [] {
      assert s + t == t;
    } else {
      assert (s + t)[1..] == s[1..] + t;
      FirstMatchingConcat(p, s[1..], t);
    }
  }

  lemma {:induction false} FirstMatchingIsHead(p: Matcher, rules: seq<AccessRule>)
    ensures var f := Filter(Matching(p), rules);
            FirstMatching(p, RuleJsons(rules)) == if f == [] then None else Some(RuleJson(f[0]))
  {
    if rules != [] {
      var n := |rules| - 1;
      var q := Matching(p);
      FirstMatchingIsHead(p, rules[..n]);
      FirstMatchingConcat(p, RuleJsons(rules[..n]), [RuleJson(rules[n])]);
      assert FirstMatching(p, [RuleJson(rules[n])]) ==
        if q(rules[n]) then Some(RuleJson(rules[n])) else FirstMatching(p, [RuleJson(rules[n])][1..]);
      assert Filter(q, rules) == if q(rules[n]) then Filter(q, rules[..n]) + [rules[n]] else Filter(q, rules[..n]);
    }
  }

  /** The first match among the compiled rules is the head of the matching rules, sorted alone. */
  lemma FirstMatchingCompiled(p: Matcher, ings: seq<Ingress>)
    ensures var f := Sort(Precedes, Filter(Matching(p), Collected(ings)));
            FirstMatching(p, RuleJsons(Compile(ings))) == if f == [] then None else Some(RuleJson(f[0]))
  {
    PrecedesIsOrder();
    FilterSort(Precedes, Matching(p), Collected(ings));
    FirstMatchingIsHead(p, Compile(ings));
  }

  /**
   * Rule `i` of the collected rules wins for a request: it matches, no other matching rule precedes
   * it, and among those it does not precede it was collected first.
   */
  ghost predicate Wins(p: Matcher, rules: seq<AccessRule>, i: int) {
    && 0 <= i < |rules| && p(RuleJson(rules[i]))
    && (forall j :: 0 <= j < i && p(RuleJson(rules[j])) ==> Precedes(rules[i], rules[j]))
    && (forall j :: i < j < |rules| && p(RuleJson(rules[j])) ==> !Precedes(rules[j], rules[i]))
  }

  lemma WinnerLeads(p: Matcher, rules: seq<AccessRule>, i: int) returns (k: int)
    requires Wins(p, rules, i)
    ensures var f := Filter(Matching(p), rules); Leads(Precedes, f, k) && f[k] == rules[i]
  {
    var q := Matching(p);
    var u, x, v := rules[..i], rules[i], rules[i + 1..];
    assert rules == (u + [x]) + v;
    FilterAppend(q, u, x);
    FilterConcat(q, u + [x], v);
    forall y | y in Filter(q, u) ensures Precedes(x, y) {
      FilterMember(q, u, y);
      var m :| 0 <= m < i && rules[m] == y;
    }
    forall y | y in Filter(q, v) ensures !Precedes(y, x) {
      FilterMember(q, v, y);
      var m :| i < m < |rules| && rules[m] == y;
    }
    k := |Filter(q, u)|;
    LeadsBetween(Precedes, Filter(q, u), x, Filter(q, v));
  }

  /** The winning rule decides, wherever the sort has put it; static rules come after all of them. */
  lemma WinnerIsFirstMatch(p: Matcher, ings: seq<Ingress>, i: int, fixed: seq<Json>)
    requires Wins(p, Collected(ings), i)
    ensures FirstMatching(p, RuleJsons(Compile(ings)) + fixed) == Some(RuleJson(Collected(ings)[i]))
  {
    var f := Filter(Matching(p), Collected(ings));
    var k := WinnerLeads(p, Collected(ings), i);
    SortHead(Precedes, f, k);
    FirstMatchingCompiled(p, ings);
    FirstMatchingConcat(p, RuleJsons(Compile(ings)), fixed);
  }

  lemma PrecedesBeyond(a: AccessRule, b: AccessRule, c: AccessRule)
    requires Precedes(a, b) && !Precedes(c, b)
    ensures Precedes(a, c)
  {
    PrecedesIsOrder();
  }

  /** Whenever a collected rule matches, one of them wins. */
  lemma WinnerExists(p: Matcher, rules: seq<AccessRule>)
    ensures (exists i :: Wins(p, rules, i)) <==> (exists r :: r in rules && p(RuleJson(r)))
    decreases |rules|
  {
    if exists r :: r in rules && p(RuleJson(r)) {
      var n := |rules| - 1;
      assert rules == rules[..n] + [rules[n]];
      PrecedesIsOrder();
      if exists r :: r in rules[..n] && p(RuleJson(r)) {
        WinnerExists(p, rules[..n]);
        var i :| Wins(p, rules[..n], i);
        if p(RuleJson(rules[n])) && Precedes(rules[n], rules[i]) {
          forall j | 0 <= j < n && p(RuleJson(rules[j])) ensures Precedes(rules[n], rules[j]) {
            assert rules[..n][j] == rules[j];
            if j != i {
              PrecedesBeyond(rules[n], rules[i], rules[j]);
            }
          }
          assert Wins(p, rules, n);
        } else {
          assert Wins(p, rules, i);
        }
      } else {
        assert Wins(p, rules, n);
      }
    }
  }

  lemma NoWinnerFallsThrough(p: Matcher, ings: seq<Ingress>, fixed: seq<Json>)
    requires forall r :: r in Collected(ings) ==> !p(RuleJson(r))
    ensures FirstMatching(p, RuleJsons(Compile(ings)) + fixed) == FirstMatching(p, fixed)
  {
    NoneMatch(p, Collected(ings));
    FirstMatchingCompiled(p, ings);
    FirstMatchingConcat(p, RuleJsons(Compile(ings)), fixed);
  }

  /**
   * Non-interference: replacing some Ingresses (`m` by `m'`, either possibly empty) none of whose
   * rules match a request does not change what the request matches first, although the rules of all
   * Ingresses are interleaved by one sort.
   */
  lemma NonInterference(p: Matcher, u: seq<Ingress>, m: seq<Ingress>, m': seq<Ingress>, v: seq<Ingress>, fixed: seq<Json>)
    requires forall r :: r in Collected(m) || r in Collected(m') ==> !p(RuleJson(r))
    ensures FirstMatching(p, RuleJsons(Compile(u + m + v)) + fixed) ==
            FirstMatching(p, RuleJsons(Compile(u + m' + v)) + fixed)
  {
    MatchingAround(p, u, m, v);
    MatchingAround(p, u, m', v);
    FirstMatchingCompiled(p, u + m + v);
    FirstMatchingCompiled(p, u + m' + v);
    FirstMatchingConcat(p, RuleJsons(Compile(u + m + v)), fixed);
    FirstMatchingConcat(p, RuleJsons(Compile(u + m' + v)), fixed);
  }

  lemma MatchingAround(p: Matcher, u: seq<Ingress>, m: seq<Ingress>, v: seq<Ingress>)
    requires forall r :: r in Collected(m) ==> !p(RuleJson(r))
    ensures var q := Matching(p);
            Filter(q, Collected(u + m + v)) == Filter(q, Collected(u)) + Filter(q, Collected(v))
  {
    NoneMatch(p, Collected(m));
    FlatMapConcat(RulesOf, u + m, v);
    FlatMapConcat(RulesOf, u, m);
    FilterAround(Matching(p), Collected(u), Collected(m), Collected(v));
  }

  lemma NoneMatch(p: Matcher, rules: seq<AccessRule>)
    requires forall r :: r in rules ==> !p(RuleJson(r))
    ensures Filter(Matching(p), rules) == []
  {
    var f := Filter(Matching(p), rules);
    if f != [] {
      FilterMember(Matching(p), rules, f[0]);
    }
  }

  // ------------------------------------------------ two states of a cluster

  ghost predicate IsLoud(p: Matcher, ing: Ingress) {
    exists r :: r in RulesOf(ing) && p(RuleJson(r))
  }

  /** Some rule of the Ingress matches. */
  ghost function Loud(p: Matcher): Ingress -> bool {
    ing => IsLoud(p, ing)
  }

  ghost function MatchingRules(p: Matcher): Ingress -> seq<AccessRule> {
    ing => Filter(Matching(p), RulesOf(ing))
  }

  /** The matching rules come from the Ingresses that have any. */
  lemma MatchingOfLoud(p: Matcher, ings: seq<Ingress>)
    ensures Filter(Matching(p), Collected(ings)) == FlatMap(MatchingRules(p), Filter(Loud(p), ings))
  {
    FilterOfFlatMap(Matching(p), RulesOf, MatchingRules(p), ings);
    forall ing | ing in ings && !Loud(p)(ing) ensures MatchingRules(p)(ing) == [] {
      NoneMatch(p, RulesOf(ing));
    }
    FlatMapFilter(MatchingRules(p), Loud(p), ings);
  }

  /** Every Ingress that is not the same in both has no rule that matches. */
  ghost predicate DifferSilently(p: Matcher, m: map<Key, IngressBody>, m': map<Key, IngressBody>) {
    && (forall k :: k in m && !(k in m' && m'[k] == m[k]) ==> !IsLoud(p, Object(k, m[k])))
    && (forall k :: k in m' && !(k in m && m[k] == m'[k]) ==> !IsLoud(p, Object(k, m'[k])))
  }

  ghost predicate AllAdmissible(m: map<Key, IngressBody>) {
    forall k :: k in m ==> Admissible(Object(k, m[k]))
  }

  lemma LoudShared(p: Matcher, m: map<Key, IngressBody>, m': map<Key, IngressBody>)
    requires DifferSilently(p, m, m')
    ensures forall ing :: ing in ObjectsOf(m) && Loud(p)(ing) ==> ing in ObjectsOf(m')
  {
    forall ing | ing in ObjectsOf(m) && IsLoud(p, ing) ensures ing in ObjectsOf(m') {
      ObjectsMember(m, ing);
      assert ing == Object(ing.key, m[ing.key]);
      ObjectsMember(m', ing);
    }
  }

  ghost function LoudOnes(p: Matcher, m: map<Key, IngressBody>): set<Ingress> {
    set ing | ing in ObjectsOf(m) && Loud(p)(ing)
  }

  lemma ListedLoud(p: Matcher, m: map<Key, IngressBody>, ings: seq<Ingress>)
    requires IsListing(ings, m)
    ensures multiset(Filter(Loud(p), ings)) == multiset(LoudOnes(p, m))
  {
    FilterOfSet(Loud(p), ings, ObjectsOf(m));
  }

  lemma SameLoud(p: Matcher, m: map<Key, IngressBody>, m': map<Key, IngressBody>)
    requires DifferSilently(p, m, m')
    ensures LoudOnes(p, m) == LoudOnes(p, m')
  {
    LoudShared(p, m, m');
    LoudShared(p, m', m);
  }

  lemma ListingSeparates(p: Matcher, m: map<Key, IngressBody>, ings: seq<Ingress>)
    requires IsListing(ings, m) && AllAdmissible(m)
    ensures Separates(Precedes, Filter(Matching(p), Collected(ings)))
  {
    ListingUniqueKeys(ings, m);
    forall ing | ing in ings ensures Admissible(ing) {
      ListingMember(ings, m, ing);
    }
    PrecedesSeparates(ings);
    forall r | r in Filter(Matching(p), Collected(ings)) ensures r in Collected(ings) {
      FilterMember(Matching(p), Collected(ings), r);
    }
  }

  /**
   * Non-interference between two states of a cluster, however their Ingresses are listed: creating,
   * editing and deleting Ingresses none of whose rules, old or new, match a request does not change
   * what the request matches first.
   */
  lemma SilentChangesDoNotShow(p: Matcher, m: map<Key, IngressBody>, m': map<Key, IngressBody>,
      ings: seq<Ingress>, ings': seq<Ingress>, fixed: seq<Json>)
    requires IsListing(ings, m) && IsListing(ings', m') && AllAdmissible(m) && DifferSilently(p, m, m')
    ensures FirstMatching(p, RuleJsons(Compile(ings)) + fixed) == FirstMatching(p, RuleJsons(Compile(ings')) + fixed)
  {
    var f, f' := Filter(Matching(p), Collected(ings)), Filter(Matching(p), Collected(ings'));
    MatchingOfLoud(p, ings);
    MatchingOfLoud(p, ings');
    ListedLoud(p, m, ings);
    ListedLoud(p, m', ings');
    SameLoud(p, m, m');
    FlatMapPermutation(MatchingRules(p), Filter(Loud(p), ings), Filter(Loud(p), ings'));
    ListingSeparates(p, m, ings);
    PrecedesIsOrder();
    SortIgnoresOrder(Precedes, f, f');
    FirstMatchingCompiled(p, ings);
    FirstMatchingCompiled(p, ings');
    FirstMatchingConcat(p, RuleJsons(Compile(ings)), fixed);
    FirstMatchingConcat(p, RuleJsons(Compile(ings')), fixed);
  }
}
