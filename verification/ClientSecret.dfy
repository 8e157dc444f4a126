/**
 * The Secret of an OAuth client: what one reconcile makes of its data, and what every sequence of
 * reconciles and spec edits keeps (the CreateOrUpdate mutation in autheliaoauthclient_controller.go).
 */
module ClientSecret {
  import opened JsonTree
  import opened Clients
  import opened Digest

  /** What the random source yields when it is asked: a fresh secret and a salt, or an error. */
  datatype Draw = Draw(secret: Option<string>, salt: Option<seq<Byte>>)

  ghost predicate GoodDraw(d: Draw) {
    d.secret.Some? ==> d.secret.value != ""
  }

  /** The data a reconcile writes; nothing when the random source fails. */
  function FillClientSecret(hash: Hash, data: SecretData, clientID: string, public: bool, draw: Draw): Option<SecretData> {
    var d0 := data[ID_KEY := clientID];
    if public then Some(d0 - {SECRET_KEY, DIGEST_KEY})
    else if DataAt(d0, SECRET_KEY) == "" && draw.secret.None? then None
    else
      var d1 := if DataAt(d0, SECRET_KEY) == "" then d0[SECRET_KEY := draw.secret.value] else d0;
      if DataAt(d1, DIGEST_KEY) != "" then Some(d1)
      else if draw.salt.None? then None
      else Some(d1[DIGEST_KEY := hash(d1[SECRET_KEY], draw.salt.value)])
  }

  // ------------------------------------------------------------- pairing

  /** A stored digest comes with a stored secret it verifies. */
  predicate Paired(verify: Verifier, data: SecretData) {
    DataAt(data, DIGEST_KEY) != "" ==>
      DataAt(data, SECRET_KEY) != "" && verify(DataAt(data, SECRET_KEY), DataAt(data, DIGEST_KEY))
  }

  lemma KeysDistinct()
    ensures ID_KEY != SECRET_KEY && ID_KEY != DIGEST_KEY && SECRET_KEY != DIGEST_KEY
  {
    assert |ID_KEY| < |SECRET_KEY| < |DIGEST_KEY|;
  }

  /**
   * After a successful reconcile of a confidential client, secret and digest are there and match
   * exactly when they matched before, or when a digest stood there without a secret and the newly
   * drawn secret happens to fit it.
   */
  lemma ReconciledPairIff(hash: Hash, verify: Verifier, data: SecretData, clientID: string, draw: Draw)
    requires HashFits(hash, verify)
    requires GoodDraw(draw) && FillClientSecret(hash, data, clientID, false, draw).Some?
    ensures var d := FillClientSecret(hash, data, clientID, false, draw).value;
      && DataAt(d, SECRET_KEY) != "" && DataAt(d, DIGEST_KEY) != "" && DataAt(d, ID_KEY) == clientID
      && (Paired(verify, d) <==>
            Paired(verify, data) ||
            (DataAt(data, SECRET_KEY) == "" && verify(draw.secret.value, DataAt(data, DIGEST_KEY))))
  {
    KeysDistinct();
    var d0 := data[ID_KEY := clientID];
    if DataAt(data, DIGEST_KEY) == "" {
      var secret := if DataAt(d0, SECRET_KEY) == "" then draw.secret.value else d0[SECRET_KEY];
      assert verify(secret, hash(secret, draw.salt.value));
    }
  }

  /** A digest left behind without its secret is kept, and no longer verifies. */
  lemma StaleDigestSurvives(hash: Hash, verify: Verifier, stale: string, draw: Draw)
    requires HashFits(hash, verify)
    requires GoodDraw(draw) && draw.secret.Some? && stale != "" && !verify(draw.secret.value, stale)
    ensures var filled := FillClientSecret(hash, map[DIGEST_KEY := stale], "id", false, draw);
      filled.Some? && !Paired(verify, filled.value)
  {
    KeysDistinct();
    ReconciledPairIff(hash, verify, map[DIGEST_KEY := stale], "id", draw);
  }

  /** Values once set are never rotated while the client is confidential. */
  lemma ConfidentialValuesKept(hash: Hash, data: SecretData, clientID: string, draw: Draw)
    requires FillClientSecret(hash, data, clientID, false, draw).Some?
    ensures var d := FillClientSecret(hash, data, clientID, false, draw).value;
      && (DataAt(data, SECRET_KEY) != "" ==> DataAt(d, SECRET_KEY) == DataAt(data, SECRET_KEY))
      && (DataAt(data, DIGEST_KEY) != "" ==> DataAt(d, DIGEST_KEY) == DataAt(data, DIGEST_KEY))
  {
    KeysDistinct();
  }

  /** Reconciling again changes nothing, whatever the random source would yield. */
  lemma ReconcileTwice(hash: Hash, verify: Verifier, data: SecretData, clientID: string, public: bool, draw: Draw, again: Draw)
    requires HashFits(hash, verify)
    requires GoodDraw(draw) && FillClientSecret(hash, data, clientID, public, draw).Some?
    ensures var d := FillClientSecret(hash, data, clientID, public, draw);
      FillClientSecret(hash, d.value, clientID, public, again) == d
  {
    KeysDistinct();
    var d := FillClientSecret(hash, data, clientID, public, draw).value;
    if public {
      assert d[ID_KEY := clientID] == d;
      assert d - {SECRET_KEY, DIGEST_KEY} == d;
    } else {
      ReconciledPairIff(hash, verify, data, clientID, draw);
      assert d[ID_KEY := clientID] == d;
    }
  }

  lemma PairedAfterReconcile(hash: Hash, verify: Verifier, data: SecretData, clientID: string, public: bool, draw: Draw)
    requires HashFits(hash, verify)
    requires GoodDraw(draw) && Paired(verify, data) && FillClientSecret(hash, data, clientID, public, draw).Some?
    ensures Paired(verify, FillClientSecret(hash, data, clientID, public, draw).value)
  {
    if !public {
      ReconciledPairIff(hash, verify, data, clientID, draw);
    }
  }

  // ------------------------------------------------------------ in plain values

  predicate Has(data: SecretData, k: string) {
    k in data && data[k] != ""
  }

  /** What a reconcile leaves in the Secret, key by key, and when it fails. */
  lemma FilledData(hash: Hash, data: SecretData, clientID: string, public: bool, draw: Draw)
    ensures var filled := FillClientSecret(hash, data, clientID, public, draw);
      && (filled.None? <==> !public && ((!Has(data, "client_secret") && draw.secret.None?) ||
                                        (!Has(data, "client_secret_digest") && draw.salt.None?)))
      && (filled.Some? ==>
            var d := filled.value;
            && "client_id" in d && d["client_id"] == clientID
            && ("client_secret" in d <==> !public) && ("client_secret_digest" in d <==> !public)
            && (!public ==>
                  && d["client_secret"] == (if Has(data, "client_secret") then data["client_secret"] else draw.secret.value)
                  && d["client_secret_digest"] ==
                       if Has(data, "client_secret_digest") then data["client_secret_digest"]
                       else hash(d["client_secret"], draw.salt.value))
            && forall k :: k !in {"client_id", "client_secret", "client_secret_digest"} ==>
                 (k in d <==> k in data) && (k in d ==> d[k] == data[k]))
  {
    KeysDistinct();
  }
}
