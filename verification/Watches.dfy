/** The watches: an event reaches every Authelia it can matter to, and a client event no other. */
module Watches {
  import opened Objects
  import opened AccessRules
  import opened Clients
  import opened Cluster
  import opened ClusterInvariant
  import opened ClusterSteps
  import opened Convergence

  /** The client names the Authelia, in its own namespace unless it names another. */
  ghost predicate TargetedBy(s: State, k: Key, a: Key) {
    k in s.clients &&
    var ref := s.clients[k].spec.autheliaRef; ref.name == a.name && (if ref.ns == "" then k.ns else ref.ns) == a.ns
  }

  ghost predicate IsAnnotated(body: IngressBody) {
    exists x :: x in body.annotations && (x == "heliop/rule" || "heliop/rule-" <= x)
  }

  lemma AnnotatedIffOptsIn(ing: Ingress)
    ensures OptsIn(ing) <==> IsAnnotated(ing.body)
  {
    if OptsIn(ing) {
      var x :| x in ing.body.annotations && IsRuleAnnotation(x);
      assert x == "heliop/rule" || "heliop/rule-" <= x;
    }
    if x :| x in ing.body.annotations && (x == "heliop/rule" || "heliop/rule-" <= x) {
      assert IsRuleAnnotation(x);
    }
  }

  /** An Ingress event enqueues the Authelias there are exactly when the Ingress is annotated before or after. */
  lemma IngressPutReaches(s: State, k: Key, body: IngressBody, a: Key)
    ensures a in PutIngressStep(s, k, body).dirty <==>
      a in s.dirty || (a in s.authelias && (IsAnnotated(body) || (k in s.ingresses && IsAnnotated(s.ingresses[k]))))
  {
    AnnotatedIffOptsIn(Object(k, body));
    if k in s.ingresses {
      AnnotatedIffOptsIn(Object(k, s.ingresses[k]));
    }
  }

  lemma IngressDeletionReaches(s: State, k: Key, a: Key)
    requires k in s.ingresses
    ensures a in DeleteIngressStep(s, k).dirty <==> a in s.dirty || (a in s.authelias && IsAnnotated(s.ingresses[k]))
  {
    AnnotatedIffOptsIn(Object(k, s.ingresses[k]));
  }

  /** A client event enqueues an Authelia exactly when the client targets it before or after. */
  lemma ClientPutReaches(s: State, k: Key, spec: ClientSpec, a: Key)
    requires a.name != ""
    ensures var t := PutClientStep(s, k, spec);
      a in t.dirty <==> a in s.dirty || TargetedBy(s, k, a) || TargetedBy(t, k, a)
  {
    if k in s.clients {
      RoutedIffTargeted(Object(k, s.clients[k]), a);
    }
    var t := PutClientStep(s, k, spec);
    RoutedIffTargeted(Object(k, t.clients[k]), a);
  }

  lemma ClientDeletionReaches(s: State, k: Key, a: Key)
    requires a.name != "" && k in s.clients
    ensures a in DeleteClientStep(s, k).dirty <==> a in s.dirty || TargetedBy(s, k, a)
  {
    RoutedIffTargeted(Object(k, s.clients[k]), a);
  }

  /** Only Ingresses that opt in show in the generated rules. */
  lemma OptedInDetermines(s: State, t: State, ings: seq<Ingress>, ings': seq<Ingress>)
    requires OptedIn(t) == OptedIn(s) && IsListing(ings, s.ingresses) && IsListing(ings', t.ingresses)
    requires forall j :: j in s.ingresses ==> Admissible(Object(j, s.ingresses[j]))
    ensures Compile(ings') == Compile(ings)
  {
    OptedInListed(s, ings);
    OptedInListed(t, ings');
    ListingUniqueKeys(ings, s.ingresses);
    forall ing | ing in ings ensures Admissible(ing) {
      ListingMember(ings, s.ingresses, ing);
    }
    CompileDependsOnOptedIn(ings, ings');
  }

  /** An Ingress edit that leaves some Authelia out of the queue does not change the generated rules. */
  lemma SilentIngressPut(s: State, k: Key, body: IngressBody, a: Key, ings: seq<Ingress>, ings': seq<Ingress>)
    requires var t := PutIngressStep(s, k, body); a in t.authelias && a !in t.dirty && IsListing(ings', t.ingresses)
    requires IsListing(ings, s.ingresses)
    requires forall j :: j in s.ingresses ==> Admissible(Object(j, s.ingresses[j]))
    ensures Compile(ings') == Compile(ings)
  {
    var t := PutIngressStep(s, k, body);
    OptedInUnchanged(s, t, k);
    OptedInDetermines(s, t, ings, ings');
  }

  lemma SilentIngressDeletion(s: State, k: Key, a: Key, ings: seq<Ingress>, ings': seq<Ingress>)
    requires k in s.ingresses
    requires var t := DeleteIngressStep(s, k); a in t.authelias && a !in t.dirty && IsListing(ings', t.ingresses)
    requires IsListing(ings, s.ingresses)
    requires forall j :: j in s.ingresses ==> Admissible(Object(j, s.ingresses[j]))
    ensures Compile(ings') == Compile(ings)
  {
    var t := DeleteIngressStep(s, k);
    OptedInUnchanged(s, t, k);
    OptedInDetermines(s, t, ings, ings');
  }
}
