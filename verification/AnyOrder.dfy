/**
 * Convergence in any order: once the objects stop changing, reconciling every client successfully at
 * some point and the Authelia once after that reaches a state that both reconcilers leave as it is.
 */
module AnyOrder {
  import opened JsonTree
  import opened Objects
  import opened Clients
  import opened Digest
  import opened ClientSecret
  import opened Cluster
  import opened ClusterInvariant
  import opened ClusterSteps
  import opened ClusterSafety

  // ------------------------------------------------- clients without a digest

  /** The confidential clients whose digest is not there yet. */
  ghost function Waiting(s: State): set<Key> {
    set k | k in s.clients && !s.clients[k].spec.public && DigestOf(s.secrets, Object(k, s.clients[k])) == ""
  }

  /** The Secret and the status are what a successful reconcile of `k` makes of them. */
  ghost predicate Finished(s: State, k: Key) {
    var data := Stored(s.secrets, ClientSecretKey(k));
    && k in s.clients
    && s.clients[k].secretName == OAuthSecretName(k.name)
    && ID_KEY in data && data[ID_KEY] == EffectiveID(Object(k, s.clients[k]))
    && if s.clients[k].spec.public then SECRET_KEY !in data && DIGEST_KEY !in data
       else DataAt(data, SECRET_KEY) != "" && DataAt(data, DIGEST_KEY) != ""
  }

  /** The client reconcile leaves a finished client as it is, whatever it draws. */
  lemma FinishedIsFixed(w: World, s: State, k: Key, draw: Draw, statusSaved: bool)
    requires Finished(s, k)
    ensures ReconcileClientStep(w, s, k, draw, statusSaved) == s
  {
    KeysDistinct();
    var data := Stored(s.secrets, ClientSecretKey(k));
    assert data[ID_KEY := EffectiveID(Object(k, s.clients[k]))] == data;
    assert s.clients[k].spec.public ==> data - {SECRET_KEY, DIGEST_KEY} == data;
    assert FilledFor(w, s, k, draw) == Some(data);
    assert s.secrets[ClientSecretKey(k) := data] == s.secrets;
  }

  predicate Succeeds(act: Action, k: Key) {
    act.ReconcileClient? && act.k == k && act.statusSaved && act.draw.secret.Some? && act.draw.salt.Some?
  }

  lemma SuccessfulFill(hash: Hash, verify: Verifier, data: SecretData, id: string, public: bool, draw: Draw)
    requires HashFits(hash, verify) && GoodDraw(draw) && draw.secret.Some? && draw.salt.Some?
    ensures var filled := FillClientSecret(hash, data, id, public, draw);
      && filled.Some? && ID_KEY in filled.value && filled.value[ID_KEY] == id
      && (public ==> SECRET_KEY !in filled.value && DIGEST_KEY !in filled.value)
      && (!public ==> DataAt(filled.value, SECRET_KEY) != "" && DataAt(filled.value, DIGEST_KEY) != "")
  {
    KeysDistinct();
    if !public {
      ReconciledPairIff(hash, verify, data, id, draw);
    }
  }

  lemma SuccessFinishes(w: World, s: State, k: Key, draw: Draw)
    requires HashFits(w.hash, w.verify)
    requires GoodDraw(draw) && draw.secret.Some? && draw.salt.Some? && k in s.clients
    ensures Finished(ReconcileClientStep(w, s, k, draw, true), k)
  {
    var t := ReconcileClientStep(w, s, k, draw, true);
    SuccessfulFill(w.hash, w.verify, Stored(s.secrets, ClientSecretKey(k)), EffectiveID(Object(k, s.clients[k])),
      s.clients[k].spec.public, draw);
    ClientWriteDone(w, s, k, draw, true);
    assert Stored(t.secrets, ClientSecretKey(k)) == FilledFor(w, s, k, draw).value;
    assert k in t.clients && t.clients[k].spec == s.clients[k].spec;
    assert t.clients[k].secretName == OAuthSecretName(k.name);
  }

  /** Any other step leaves the Secret, spec and status of a client alone. */
  lemma StepsLeaveClient(w: World, s: State, act: Action, k: Key)
    requires Enabled(s, act) && !IsObjectEdit(act) && k in s.clients && !(act.ReconcileClient? && act.k == k)
    ensures var t := Apply(w, s, act);
      && k in t.clients && t.clients[k] == s.clients[k]
      && Stored(t.secrets, ClientSecretKey(k)) == Stored(s.secrets, ClientSecretKey(k))
  {
    if act.WriteCoreSecret? {
      CoreWriteTouches(s, Apply(w, s, act), act.k, s.runs[act.k].snap, act.g);
      NamesInjective(act.k, k);
    } else if act.ReconcileClient? {
      ClientWriteTouches(w, s, Apply(w, s, act), act.k, act.draw, act.statusSaved);
      NamesInjective(act.k, k);
    } else {
      OthersLeaveAlone(w, s, act);
      if act.DropClientSecret? {
        NamesInjective(act.k, k);
      }
    }
  }

  lemma FinishedStays(w: World, s: State, act: Action, k: Key)
    requires Enabled(s, act) && !IsObjectEdit(act) && Finished(s, k)
    ensures Finished(Apply(w, s, act), k)
  {
    if act.ReconcileClient? && act.k == k {
      FinishedIsFixed(w, s, k, act.draw, act.statusSaved);
    } else {
      StepsLeaveClient(w, s, act, k);
    }
  }

  lemma FinishedHasDigest(s: State, k: Key)
    requires Finished(s, k)
    ensures k !in Waiting(s)
  {
  }

  /** No edit, no rise: other steps never add to the clients without a digest. */
  lemma WaitingNeverGrows(w: World, s: State, act: Action)
    requires Inv(w, s) && Enabled(s, act) && !IsObjectEdit(act)
    ensures Waiting(Apply(w, s, act)) <= Waiting(s)
  {
    var t := Apply(w, s, act);
    StepKeepsInv(w, s, act);
    forall k | k in Waiting(t) ensures k in Waiting(s) {
      ClientsOnlyGainStatus(w, s, act, k);
      StepKeepsClientSecret(w, s, act, k);
      assert SecretKeyOf(Object(k, s.clients[k])) == ClientSecretKey(k) == SecretKeyOf(Object(k, t.clients[k]));
    }
  }

  lemma ClientsOnlyGainStatus(w: World, s: State, act: Action, k: Key)
    requires Enabled(s, act) && !IsObjectEdit(act) && k in Apply(w, s, act).clients
    ensures k in s.clients && Apply(w, s, act).clients[k].spec == s.clients[k].spec
  {
    if act.WriteCoreSecret? {
      CoreWriteTouches(s, Apply(w, s, act), act.k, s.runs[act.k].snap, act.g);
    } else if !act.ReconcileClient? {
      OthersLeaveAlone(w, s, act);
    }
  }

  ghost predicate NoEdits(acts: seq<Action>) {
    forall act :: act in acts ==> !IsObjectEdit(act)
  }

  /** Every client of `s` is reconciled successfully at some point. */
  ghost predicate CoversClients(s: State, acts: seq<Action>, from: set<Key>) {
    forall k :: k in from ==> exists i :: 0 <= i < |acts| && Succeeds(acts[i], k)
  }

  lemma {:induction false} AllFinish(w: World, s: State, acts: seq<Action>, t: State, k: Key)
    requires Inv(w, s) && Execution(w, s, acts, t) && NoEdits(acts) && k in s.clients
    requires Finished(s, k) || exists i :: 0 <= i < |acts| && Succeeds(acts[i], k)
    ensures Finished(t, k)
    decreases |acts|
  {
    if acts != [] {
      var act, s' := acts[0], Apply(w, s, acts[0]);
      assert act in acts && forall x :: x in acts[1..] ==> x in acts;
      StepKeepsInv(w, s, act);
      if Finished(s, k) {
        FinishedStays(w, s, act, k);
      } else if Succeeds(act, k) {
        SuccessFinishes(w, s, k, act.draw);
      } else {
        var i :| 0 <= i < |acts| && Succeeds(acts[i], k);
        assert acts[1..][i - 1] == acts[i];
        ClientStays(w, s, act, k);
      }
      AllFinish(w, s', acts[1..], t, k);
    }
  }

  lemma ClientStays(w: World, s: State, act: Action, k: Key)
    requires Enabled(s, act) && !IsObjectEdit(act) && k in s.clients
    ensures k in Apply(w, s, act).clients
  {
    if !(act.ReconcileClient? && act.k == k) {
      StepsLeaveClient(w, s, act, k);
    }
  }

  lemma {:induction false} NoNewClients(w: World, s: State, acts: seq<Action>, t: State, k: Key)
    requires Execution(w, s, acts, t) && NoEdits(acts) && k in t.clients
    ensures k in s.clients
    decreases |acts|
  {
    if acts != [] {
      assert acts[0] in acts && forall x :: x in acts[1..] ==> x in acts;
      NoNewClients(w, Apply(w, s, acts[0]), acts[1..], t, k);
      ClientsOnlyGainStatus(w, s, acts[0], k);
    }
  }

  lemma {:induction false} WaitingNeverGrowsOverRuns(w: World, s: State, acts: seq<Action>, t: State)
    requires Inv(w, s) && Execution(w, s, acts, t) && NoEdits(acts)
    ensures Waiting(t) <= Waiting(s)
    decreases |acts|
  {
    if acts != [] {
      assert acts[0] in acts && forall x :: x in acts[1..] ==> x in acts;
      WaitingNeverGrows(w, s, acts[0]);
      StepKeepsInv(w, s, acts[0]);
      WaitingNeverGrowsOverRuns(w, Apply(w, s, acts[0]), acts[1..], t);
    }
  }

  /**
   * Without further edits the clients lacking a digest only get fewer, and there are none once every
   * client has been reconciled, in whatever order and interleaved with whatever else.
   */
  lemma ClientsFinishInAnyOrder(w: World, s: State, acts: seq<Action>, t: State)
    requires Inv(w, s) && Execution(w, s, acts, t) && NoEdits(acts) && CoversClients(s, acts, s.clients.Keys)
    ensures forall k :: k in t.clients ==> Finished(t, k)
    ensures Waiting(t) == {}
  {
    forall k | k in t.clients ensures Finished(t, k) {
      NoNewClients(w, s, acts, t, k);
      AllFinish(w, s, acts, t, k);
    }
    forall k | k in Waiting(t) ensures false {
      FinishedHasDigest(t, k);
    }
  }
}
