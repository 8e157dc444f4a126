/**
 * The operator-managed core Secret: missing keys are generated once and never changed
 * (generatedCoreSecretData and coreSecretName in internal/controller/secrets.go).
 */
module CoreSecret {
  import opened JsonTree
  import opened Objects
  import opened Settings
  import opened Clients

  const SESSION_ENCRYPTION_KEY: string := "SESSION_ENCRYPTION_KEY"
  const STORAGE_ENCRYPTION_KEY: string := "STORAGE_ENCRYPTION_KEY"
  const OIDC_HMAC_SECRET: string := "OIDC_HMAC_SECRET"
  const OIDC_PRIVATE_KEY: string := "OIDC_PRIVATE_KEY"

  /** The order in which missing keys are generated; the private key comes last. */
  const CORE_KEYS: seq<string> :=
    [SESSION_ENCRYPTION_KEY, STORAGE_ENCRYPTION_KEY, OIDC_HMAC_SECRET, OIDC_PRIVATE_KEY]

  /** What each generator yields when it is asked for a key: a value or an error. */
  type Generators = string -> Option<string>

  ghost predicate GoodGenerators(g: Generators) {
    forall k :: g(k).Some? ==> g(k).value != ""
  }

  /** Fills the missing ones of `keys`, in order; nothing when a generator fails. */
  function FillKeys(data: SecretData, keys: seq<string>, g: Generators): Option<SecretData>
    decreases |keys|, data
  {
    if keys == [] then Some(data)
    else
      var n := |keys| - 1;
      match FillKeys(data, keys[..n], g)
      case None => None
      case Some(d) =>
        if DataAt(d, keys[n]) != "" then Some(d)
        else if g(keys[n]).Some? then Some(d[keys[n] := g(keys[n]).value])
        else None
  }

  function FillCoreSecret(data: SecretData, g: Generators): Option<SecretData> {
    FillKeys(data, CORE_KEYS, g)
  }

  lemma {:induction false} FailedPrefix(data: SecretData, keys: seq<string>, i: nat, g: Generators)
    requires i <= |keys| && FillKeys(data, keys[..i], g).None?
    ensures FillKeys(data, keys, g).None?
    decreases |keys|
  {
    if i < |keys| {
      var n := |keys| - 1;
      assert keys[..n][..i] == keys[..i];
      FailedPrefix(data, keys[..n], i, g);
    } else {
      assert keys[..i] == keys;
    }
  }

  /** All four core keys are there and hold something. */
  ghost predicate CoreFilled(data: SecretData) {
    forall k :: k in CORE_KEYS ==> DataAt(data, k) != ""
  }

  /** What was there survives: non-empty values, and every other key. */
  ghost predicate Keeps(before: SecretData, after: SecretData, keys: seq<string>) {
    && (forall k :: DataAt(before, k) != "" ==> DataAt(after, k) == DataAt(before, k))
    && (forall k :: k in before ==> k in after)
    && (forall k :: k !in keys ==> (k in after <==> k in before) && DataAt(after, k) == DataAt(before, k))
  }

  lemma {:induction false} FillKeepsAndFills(data: SecretData, keys: seq<string>, g: Generators)
    requires GoodGenerators(g) && FillKeys(data, keys, g).Some?
    ensures Keeps(data, FillKeys(data, keys, g).value, keys)
    ensures forall k :: k in keys ==> DataAt(FillKeys(data, keys, g).value, k) != ""
  {
    if keys != [] {
      var n := |keys| - 1;
      FillKeepsAndFills(data, keys[..n], g);
      var d, last := FillKeys(data, keys[..n], g).value, keys[n];
      assert forall k :: k in keys <==> k in keys[..n] || k == last by {
        assert keys == keys[..n] + [last];
      }
      assert FillKeys(data, keys, g).value == if DataAt(d, last) != "" then d else d[last := g(last).value];
    }
  }

  lemma {:induction false} FilledStays(data: SecretData, keys: seq<string>, g: Generators)
    requires forall k :: k in keys ==> DataAt(data, k) != ""
    ensures FillKeys(data, keys, g) == Some(data)
  {
    if keys != [] {
      var n := |keys| - 1;
      assert keys == keys[..n] + [keys[n]];
      FilledStays(data, keys[..n], g);
    }
  }

  /** A key that was missing has what its generator yields; a fill fails if one of those generators does. */
  lemma {:induction false} FilledByGenerators(data: SecretData, keys: seq<string>, g: Generators)
    ensures FillKeys(data, keys, g).None? <==> exists k :: k in keys && DataAt(data, k) == "" && g(k).None?
    ensures FillKeys(data, keys, g).Some? ==>
      forall k :: DataAt(FillKeys(data, keys, g).value, k) ==
        if DataAt(data, k) == "" && k in keys then g(k).value else DataAt(data, k)
  {
    if keys != [] {
      var n := |keys| - 1;
      var last := keys[n];
      FilledByGenerators(data, keys[..n], g);
      assert forall k :: k in keys <==> k in keys[..n] || k == last by {
        assert keys == keys[..n] + [last];
      }
    }
  }

  /** The four core keys by name: all are filled, each by its own generator if it was missing. */
  lemma FourKeysFilled(data: SecretData, g: Generators, k: string)
    requires FillCoreSecret(data, g).Some?
    requires k in {"SESSION_ENCRYPTION_KEY", "STORAGE_ENCRYPTION_KEY", "OIDC_HMAC_SECRET", "OIDC_PRIVATE_KEY"}
    ensures var filled := DataAt(FillCoreSecret(data, g).value, k);
      if k in data && data[k] != "" then filled == data[k] else g(k) == Some(filled)
  {
    FilledByGenerators(data, CORE_KEYS, g);
    FourKeys(k);
  }

  lemma FourKeys(k: string)
    ensures k in CORE_KEYS <==>
      k in {"SESSION_ENCRYPTION_KEY", "STORAGE_ENCRYPTION_KEY", "OIDC_HMAC_SECRET", "OIDC_PRIVATE_KEY"}
  {
  }

  // -------------------------------------------------------------------- names

  function ManagedSecretName(autheliaName: string): string {
    autheliaName + "-secrets"
  }

  function CoreSecretName(a: Key, spec: AutheliaSpec): string {
    if spec.existingSecret != "" then spec.existingSecret else ManagedSecretName(a.name)
  }

  /** No managed core Secret is ever a client Secret. */
  lemma SecretNamesDisjoint(autheliaName: string, clientName: string)
    ensures ManagedSecretName(autheliaName) != OAuthSecretName(clientName)
  {
    var s, t := ManagedSecretName(autheliaName), OAuthSecretName(clientName);
    assert s[|s| - 1] == 's' && t[|t| - 1] == 't';
  }

  lemma SecretNamesInjective(x: string, y: string)
    ensures ManagedSecretName(x) == ManagedSecretName(y) ==> x == y
    ensures OAuthSecretName(x) == OAuthSecretName(y) ==> x == y
  {
    assert ManagedSecretName(x)[..|x|] == x && ManagedSecretName(y)[..|y|] == y;
    assert OAuthSecretName(x)[..|x|] == x && OAuthSecretName(y)[..|y|] == y;
  }
}
