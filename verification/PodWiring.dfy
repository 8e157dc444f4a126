/**
 * The pod of an Authelia: environment, mounts and volumes (buildDeployment and autheliaFileEnv), and
 * where a file path leads through them. Probes, image, resources and labels are not part of it.
 */
module PodWiring {
  import opened Sequences
  import opened JsonTree
  import opened Objects
  import opened Settings
  import opened CoreSecret
  import opened VolumeNames

  datatype VolumeSource =
    | SecretVolume(secretName: string)
    | ConfigMapVolume(configMapName: string)
    | ClaimVolume(claimName: string)
    | EmptyDir

  datatype Volume = Volume(name: string, source: VolumeSource)

  datatype Mount = Mount(name: string, mountPath: string, subPath: string)

  datatype EnvValue = Text(value: string) | FromSecret(ref: SecretKeyRef)

  datatype EnvVar = EnvVar(name: string, value: EnvValue)

  datatype Deployment = Deployment(env: seq<EnvVar>, mounts: seq<Mount>, volumes: seq<Volume>, checksum: string)

  const SECRETS_MOUNT_BASE: string := "/authelia/secrets"
  const CORE_MOUNT_PATH: string := "/secrets"

  function ConfigMapName(a: Key): string { a.name + "-config" }

  function DataPVCName(a: Key): string { a.name + "-data" }

  function SecretMountPath(envName: string): string {
    SECRETS_MOUNT_BASE + "/" + VolumeName(envName)
  }

  predicate IsMounted(s: AutheliaSecret) {
    s.secret.Some? && IsFileSecret(s.name)
  }

  // -------------------------------------------------------------- volumes

  function BaseMounts(): seq<Mount> {
    [ Mount("config", "/configuration.yaml", "configuration.yaml"),
      Mount("authelia-secret", CORE_MOUNT_PATH, ""),
      Mount("data", "/data", "") ]
  }

  function BaseVolumes(a: Key, spec: AutheliaSpec): seq<Volume> {
    [ Volume("authelia-secret", SecretVolume(CoreSecretName(a, spec))),
      Volume("config", ConfigMapVolume(ConfigMapName(a))),
      Volume("data", if spec.volumeClaimTemplate.Some? then ClaimVolume(DataPVCName(a)) else EmptyDir) ]
  }

  function FileBackendMounts(settings: AutheliaSettings): seq<Mount> {
    if settings.fileUsersSecret.None? then [] else [Mount("file-backend", FILE_BACKEND_MOUNT_PATH, "")]
  }

  function FileBackendVolumes(settings: AutheliaSettings): seq<Volume> {
    match settings.fileUsersSecret
    case None => []
    case Some(ref) => [Volume("file-backend", SecretVolume(ref.name))]
  }

  function SecretMounts(s: AutheliaSecret): seq<Mount> {
    if IsMounted(s) then [Mount(VolumeName(s.name), SecretMountPath(s.name), "")] else []
  }

  function SecretVolumes(s: AutheliaSecret): seq<Volume> {
    if IsMounted(s) then [Volume(VolumeName(s.name), SecretVolume(s.secret.value.name))] else []
  }

  function Mounts(settings: AutheliaSettings): seq<Mount> {
    BaseMounts() + FileBackendMounts(settings) + FlatMap(SecretMounts, settings.secrets)
  }

  function Volumes(a: Key, spec: AutheliaSpec): seq<Volume> {
    BaseVolumes(a, spec) + FileBackendVolumes(spec.settings) + FlatMap(SecretVolumes, spec.settings.secrets)
  }

  // ---------------------------------------------------------- environment

  function CorePath(key: string): string {
    CORE_MOUNT_PATH + "/" + key
  }

  function BaseEnv(): seq<EnvVar> {
    [ EnvVar("AUTHELIA_SERVER_DISABLE_HEALTHCHECK", Text("true")),
      EnvVar("AUTHELIA_SESSION_SECRET_FILE", Text(CorePath(SESSION_ENCRYPTION_KEY))),
      EnvVar("AUTHELIA_STORAGE_ENCRYPTION_KEY_FILE", Text(CorePath(STORAGE_ENCRYPTION_KEY))) ]
  }

  function OidcEnv(oidcEnabled: bool): seq<EnvVar> {
    if !oidcEnabled then []
    else [ EnvVar("AUTHELIA_IDENTITY_PROVIDERS_OIDC_HMAC_SECRET_FILE", Text(CorePath(OIDC_HMAC_SECRET))),
           EnvVar("AUTHELIA_IDENTITY_PROVIDERS_OIDC_ISSUER_PRIVATE_KEY_FILE", Text(CorePath(OIDC_PRIVATE_KEY))) ]
  }

  function SecretEnv(s: AutheliaSecret): seq<EnvVar> {
    match s.secret
    case None => []
    case Some(ref) =>
      if IsFileSecret(s.name) then [EnvVar(s.name, Text(SecretMountPath(s.name) + "/" + ref.key))]
      else [EnvVar(s.name, FromSecret(ref))]
  }

  function Env(settings: AutheliaSettings, oidcEnabled: bool): seq<EnvVar> {
    BaseEnv() + OidcEnv(oidcEnabled) + FlatMap(SecretEnv, settings.secrets)
  }

  function DeploymentOf(a: Key, spec: AutheliaSpec, oidcEnabled: bool, checksum: string): Deployment {
    Deployment(Env(spec.settings, oidcEnabled), Mounts(spec.settings), Volumes(a, spec), checksum)
  }

  /** The variables that settings.secrets adds. */
  method SecretVariables(secrets: seq<AutheliaSecret>) returns (env: seq<EnvVar>)
    ensures env == FlatMap(SecretEnv, secrets)
  {
    env := [];
    for i := 0 to |secrets|
      invariant env == FlatMap(SecretEnv, secrets[..i])
    {
      var s := secrets[i];
      FlatMapOneMore(SecretEnv, secrets, i);
      if s.secret.None? {
        continue;
      }
      if IsFileSecret(s.name) {
        env := env + [EnvVar(s.name, Text(SecretMountPath(s.name) + "/" + s.secret.value.key))];
      } else {
        env := env + [EnvVar(s.name, FromSecret(s.secret.value))];
      }
    }
    assert secrets[..|secrets|] == secrets;
  }

  method AutheliaFileEnv(settings: AutheliaSettings, oidcEnabled: bool) returns (env: seq<EnvVar>)
    ensures env == Env(settings, oidcEnabled)
  {
    env := BaseEnv();
    if oidcEnabled {
      env := env + OidcEnv(true);
    }
    var own := SecretVariables(settings.secrets);
    env := env + own;
  }

  /** The mounts and volumes the variables bring along. */
  method MountSecrets(secrets: seq<AutheliaSecret>) returns (mounts: seq<Mount>, volumes: seq<Volume>)
    ensures mounts == FlatMap(SecretMounts, secrets) && volumes == FlatMap(SecretVolumes, secrets)
  {
    mounts, volumes := [], [];
    for i := 0 to |secrets|
      invariant mounts == FlatMap(SecretMounts, secrets[..i])
      invariant volumes == FlatMap(SecretVolumes, secrets[..i])
    {
      var s := secrets[i];
      FlatMapOneMore(SecretMounts, secrets, i);
      FlatMapOneMore(SecretVolumes, secrets, i);
      if IsMounted(s) {
        var name := SecretVolumeName(s.name);
        volumes := volumes + [Volume(name, SecretVolume(s.secret.value.name))];
        mounts := mounts + [Mount(name, SecretMountPath(s.name), "")];
      }
    }
    assert secrets[..|secrets|] == secrets;
  }

  method BuildDeployment(a: Key, spec: AutheliaSpec, oidcEnabled: bool, checksum: string) returns (d: Deployment)
    ensures d == DeploymentOf(a, spec, oidcEnabled, checksum)
  {
    var settings := spec.settings;
    var mounts, volumes := BaseMounts(), BaseVolumes(a, spec);
    if settings.fileUsersSecret.Some? {
      volumes := volumes + [Volume("file-backend", SecretVolume(settings.fileUsersSecret.value.name))];
      mounts := mounts + [Mount("file-backend", FILE_BACKEND_MOUNT_PATH, "")];
    }
    var own, ownVolumes := MountSecrets(settings.secrets);
    mounts, volumes := mounts + own, volumes + ownVolumes;
    var env := AutheliaFileEnv(settings, oidcEnabled);
    d := Deployment(env, mounts, volumes, checksum);
  }

  // ---------------------------------------------------- following a file path

  /** The mounted directory lies above the path. */
  predicate Covers(m: Mount, path: string) {
    m.subPath == "" && m.mountPath + "/" <= path
  }

  /** The mount a path lies in: the deepest one above it. */
  function Deepest(mounts: seq<Mount>, path: string): Option<Mount> {
    if mounts == [] then None
    else
      var m := mounts[|mounts| - 1];
      var rest := Deepest(mounts[..|mounts| - 1], path);
      if Covers(m, path) && (rest.None? || |m.mountPath| >= |rest.value.mountPath|) then Some(m) else rest
  }

  function VolumeNamed(volumes: seq<Volume>, name: string): Option<Volume> {
    if volumes == [] then None
    else if volumes[|volumes| - 1].name == name then Some(volumes[|volumes| - 1])
    else VolumeNamed(volumes[..|volumes| - 1], name)
  }

  /** The Secret and key a container reads at `path`, if it is a file of a mounted Secret. */
  function Resolve(d: Deployment, path: string): Option<SecretKeyRef> {
    DeepestCovers(d.mounts, path);
    match Deepest(d.mounts, path)
    case None => None
    case Some(m) =>
      var file := path[|m.mountPath| + 1..];
      match VolumeNamed(d.volumes, m.name)
      case Some(Volume(_, SecretVolume(secretName))) => if '/' in file then None else Some(SecretKeyRef(secretName, file))
      case _ => None
  }

  /** No two volumes have one name, as the API server demands of a pod. */
  ghost predicate VolumesDistinct(volumes: seq<Volume>) {
    forall i, j :: 0 <= i < j < |volumes| ==> volumes[i].name != volumes[j].name
  }

  ghost predicate MountPathsDistinct(mounts: seq<Mount>) {
    forall m, n :: m in mounts && n in mounts && m.mountPath == n.mountPath ==> m == n
  }

  lemma {:induction false} DeepestCovers(mounts: seq<Mount>, path: string)
    ensures Deepest(mounts, path).None? ==> forall m :: m in mounts ==> !Covers(m, path)
    ensures Deepest(mounts, path).Some? ==> var deepest := Deepest(mounts, path).value;
      deepest in mounts && Covers(deepest, path) &&
      forall m :: m in mounts && Covers(m, path) ==> |m.mountPath| <= |deepest.mountPath|
  {
    if mounts != [] {
      var n := |mounts| - 1;
      assert mounts == mounts[..n] + [mounts[n]];
      DeepestCovers(mounts[..n], path);
    }
  }

  lemma {:induction false} VolumeNamedFinds(volumes: seq<Volume>, v: Volume)
    requires v in volumes && VolumesDistinct(volumes)
    ensures VolumeNamed(volumes, v.name) == Some(v)
  {
    var n := |volumes| - 1;
    assert volumes == volumes[..n] + [volumes[n]];
    if volumes[n].name != v.name {
      VolumeNamedFinds(volumes[..n], v);
    }
  }

  /** A file directly below a mounted Secret is that Secret's key, provided keys contain no slash. */
  lemma ResolveBelow(d: Deployment, m: Mount, v: Volume, key: string)
    requires VolumesDistinct(d.volumes) && MountPathsDistinct(d.mounts)
    requires m in d.mounts && v in d.volumes && m.name == v.name && m.subPath == "" && v.source.SecretVolume?
    requires '/' !in key
    ensures Resolve(d, m.mountPath + "/" + key) == Some(SecretKeyRef(v.source.secretName, key))
  {
    var path := m.mountPath + "/" + key;
    assert Covers(m, path);
    DeepestCovers(d.mounts, path);
    var deepest := Deepest(d.mounts, path).value;
    assert deepest == m by {
      var n := |deepest.mountPath|;
      assert path[n] == (deepest.mountPath + "/")[n] == '/';
      assert forall i :: |m.mountPath| < i < |path| ==> path[i] == key[i - |m.mountPath| - 1] && path[i] != '/';
      assert n == |m.mountPath|;
      assert deepest.mountPath == path[..n] == m.mountPath;
    }
    VolumeNamedFinds(d.volumes, v);
    assert path[|m.mountPath| + 1..] == key;
  }

  lemma SecretMountsMember(settings: AutheliaSettings, m: Mount)
    requires m in FlatMap(SecretMounts, settings.secrets)
    ensures m == Mount(m.name, SECRETS_MOUNT_BASE + "/" + m.name, "")
  {
    FlatMapMember(SecretMounts, settings.secrets, m);
  }

  lemma SecretPathIsOwn(name: string)
    ensures (SECRETS_MOUNT_BASE + "/" + name) !in
      {"/configuration.yaml", CORE_MOUNT_PATH, "/data", FILE_BACKEND_MOUNT_PATH}
  {
    var p := SECRETS_MOUNT_BASE + "/" + name;
    assert p[1] == 'a' && p[10] == 's';
    assert FILE_BACKEND_MOUNT_PATH[10] == 'f';
  }

  lemma MountPathsAreDistinct(settings: AutheliaSettings)
    ensures MountPathsDistinct(Mounts(settings))
  {
    var own, user := BaseMounts() + FileBackendMounts(settings), FlatMap(SecretMounts, settings.secrets);
    assert FILE_BACKEND_MOUNT_PATH[1] == 'a';
    forall m, n | m in Mounts(settings) && n in Mounts(settings) && m.mountPath == n.mountPath ensures m == n {
      if m in user {
        SecretMountsMember(settings, m);
        SecretPathIsOwn(m.name);
      }
      if n in user {
        SecretMountsMember(settings, n);
        SecretPathIsOwn(n.name);
      }
      if m in user && n in user {
        var k := |SECRETS_MOUNT_BASE| + 1;
        assert m.name == m.mountPath[k..] && n.name == n.mountPath[k..];
      }
    }
  }

  /** The variable of a mounted Secret leads to the configured Secret and key. */
  lemma ConfiguredPathResolves(a: Key, spec: AutheliaSpec, oidcEnabled: bool, checksum: string, s: AutheliaSecret)
    requires s in spec.settings.secrets && IsMounted(s) && '/' !in s.secret.value.key
    requires VolumesDistinct(Volumes(a, spec))
    ensures var path := SecretMountPath(s.name) + "/" + s.secret.value.key;
      SecretEnv(s) == [EnvVar(s.name, Text(path))] && Resolve(DeploymentOf(a, spec, oidcEnabled, checksum), path) == s.secret
  {
    var m := Mount(VolumeName(s.name), SecretMountPath(s.name), "");
    var v := Volume(VolumeName(s.name), SecretVolume(s.secret.value.name));
    FlatMapMember(SecretMounts, spec.settings.secrets, m);
    FlatMapMember(SecretVolumes, spec.settings.secrets, v);
    assert m in SecretMounts(s) && v in SecretVolumes(s);
    MountPathsAreDistinct(spec.settings);
    ResolveBelow(DeploymentOf(a, spec, oidcEnabled, checksum), m, v, s.secret.value.key);
  }

  /** authentication_backend.file.path leads to the configured users Secret and key. */
  lemma UsersPathResolves(a: Key, spec: AutheliaSpec, oidcEnabled: bool, checksum: string)
    requires spec.settings.fileUsersSecret.Some? && '/' !in spec.settings.fileUsersSecret.value.key
    requires VolumesDistinct(Volumes(a, spec))
    ensures Resolve(DeploymentOf(a, spec, oidcEnabled, checksum), FileUsersPath(spec.settings.fileUsersSecret.value)) ==
            spec.settings.fileUsersSecret
  {
    var ref := spec.settings.fileUsersSecret.value;
    var m := Mount("file-backend", FILE_BACKEND_MOUNT_PATH, "");
    var v := Volume("file-backend", SecretVolume(ref.name));
    assert m in FileBackendMounts(spec.settings) && v in FileBackendVolumes(spec.settings);
    MountPathsAreDistinct(spec.settings);
    ResolveBelow(DeploymentOf(a, spec, oidcEnabled, checksum), m, v, ref.key);
  }

  /** The core variables lead to the core Secret, each to one of the four generated keys. */
  lemma CorePathResolves(a: Key, spec: AutheliaSpec, oidcEnabled: bool, checksum: string, key: string)
    requires key in CORE_KEYS && VolumesDistinct(Volumes(a, spec))
    ensures Resolve(DeploymentOf(a, spec, oidcEnabled, checksum), CorePath(key)) ==
            Some(SecretKeyRef(CoreSecretName(a, spec), key))
  {
    var m := Mount("authelia-secret", CORE_MOUNT_PATH, "");
    var v := Volume("authelia-secret", SecretVolume(CoreSecretName(a, spec)));
    assert m == BaseMounts()[1] && m in BaseMounts() && v == BaseVolumes(a, spec)[0] && v in BaseVolumes(a, spec);
    MountPathsAreDistinct(spec.settings);
    ResolveBelow(DeploymentOf(a, spec, oidcEnabled, checksum), m, v, key);
  }

  // ------------------------------------------------------------ every variable

  /** The value a container sees: a later variable of the same name wins. */
  function Effective(env: seq<EnvVar>, name: string): Option<EnvValue> {
    if env == [] then None
    else if env[|env| - 1].name == name then Some(env[|env| - 1].value)
    else Effective(env[..|env| - 1], name)
  }

  /** The last entry of that name that has a Secret. */
  function Configured(secrets: seq<AutheliaSecret>, name: string): Option<AutheliaSecret> {
    if secrets == [] then None
    else
      var s := secrets[|secrets| - 1];
      if s.name == name && s.secret.Some? then Some(s) else Configured(secrets[..|secrets| - 1], name)
  }

  /** The core key that the operator's own variable of that name stands for. */
  function CoreKeyOf(name: string, oidcEnabled: bool): Option<string> {
    match name
    case "AUTHELIA_SESSION_SECRET_FILE" => Some(SESSION_ENCRYPTION_KEY)
    case "AUTHELIA_STORAGE_ENCRYPTION_KEY_FILE" => Some(STORAGE_ENCRYPTION_KEY)
    case "AUTHELIA_IDENTITY_PROVIDERS_OIDC_HMAC_SECRET_FILE" => if oidcEnabled then Some(OIDC_HMAC_SECRET) else None
    case "AUTHELIA_IDENTITY_PROVIDERS_OIDC_ISSUER_PRIVATE_KEY_FILE" => if oidcEnabled then Some(OIDC_PRIVATE_KEY) else None
    case _ => None
  }

  lemma {:induction false} EffectiveConcat(u: seq<EnvVar>, v: seq<EnvVar>, name: string)
    ensures Effective(u + v, name) == if Effective(v, name).Some? then Effective(v, name) else Effective(u, name)
  {
    if v == [] {
      assert u + v == u;
    } else {
      var n := |v| - 1;
      EffectiveConcat(u, v[..n], name);
      assert (u + v)[..|u| + n] == u + v[..n];
    }
  }

  lemma {:induction false} EffectiveConfigured(secrets: seq<AutheliaSecret>, name: string)
    ensures match Configured(secrets, name)
      case None => Effective(FlatMap(SecretEnv, secrets), name) == None
      case Some(s) =>
        && s in secrets && s.name == name && s.secret.Some? && |SecretEnv(s)| == 1
        && Effective(FlatMap(SecretEnv, secrets), name) == Some(SecretEnv(s)[0].value)
  {
    if secrets != [] {
      var n := |secrets| - 1;
      EffectiveConfigured(secrets[..n], name);
      EffectiveConcat(FlatMap(SecretEnv, secrets[..n]), SecretEnv(secrets[n]), name);
    }
  }

  lemma EffectiveLast(env: seq<EnvVar>, e: EnvVar, name: string)
    ensures Effective(env + [e], name) == if e.name == name then Some(e.value) else Effective(env, name)
  {
    assert (env + [e])[..|env|] == env;
  }

  lemma EffectiveBase(name: string)
    requires IsFileSecret(name)
    ensures Effective(BaseEnv(), name) ==
      match CoreKeyOf(name, false) case Some(key) => Some(Text(CorePath(key))) case None => None
  {
    var b := BaseEnv();
    assert b[0].name[|b[0].name| - 1] == 'K' && name[|name| - 5..][4] == name[|name| - 1] == 'E';
    EffectiveLast([], b[0], name);
    EffectiveLast([b[0]], b[1], name);
    EffectiveLast([b[0], b[1]], b[2], name);
    assert [] + [b[0]] == [b[0]] && [b[0]] + [b[1]] == [b[0], b[1]] && [b[0], b[1]] + [b[2]] == b;
  }

  lemma EffectiveCore(oidcEnabled: bool, name: string)
    requires IsFileSecret(name)
    ensures Effective(BaseEnv() + OidcEnv(oidcEnabled), name) ==
      match CoreKeyOf(name, oidcEnabled) case Some(key) => Some(Text(CorePath(key))) case None => None
    ensures CoreKeyOf(name, oidcEnabled).Some? ==> CoreKeyOf(name, oidcEnabled).value in CORE_KEYS
  {
    EffectiveBase(name);
    var b, o := BaseEnv(), OidcEnv(oidcEnabled);
    if oidcEnabled {
      EffectiveLast(b, o[0], name);
      EffectiveLast(b + [o[0]], o[1], name);
      assert b + [o[0]] + [o[1]] == b + o;
    } else {
      assert b + o == b;
    }
  }

  /** No key of a mounted Secret has a slash in it. */
  predicate KeysAreFiles(secrets: seq<AutheliaSecret>) {
    forall s :: s in secrets && IsMounted(s) ==> '/' !in s.secret.value.key
  }

  /**
   * What any `_FILE` variable leads to, as a container sees it: the Secret and key of the last entry of
   * that name, which takes the place of a core variable; else, for a core variable, its core key.
   */
  ghost predicate LeadsHome(d: Deployment, a: Key, spec: AutheliaSpec, oidcEnabled: bool, name: string) {
    match Effective(d.env, name)
    case None => Configured(spec.settings.secrets, name).None? && CoreKeyOf(name, oidcEnabled).None?
    case Some(FromSecret(_)) => false
    case Some(Text(path)) =>
      var s, key := Configured(spec.settings.secrets, name), CoreKeyOf(name, oidcEnabled);
      if s.Some? then Resolve(d, path) == s.value.secret
      else key.Some? && Resolve(d, path) == Some(SecretKeyRef(CoreSecretName(a, spec), key.value))
  }

  lemma FileVariableResolves(a: Key, spec: AutheliaSpec, oidcEnabled: bool, checksum: string, name: string)
    requires IsFileSecret(name) && KeysAreFiles(spec.settings.secrets) && VolumesDistinct(Volumes(a, spec))
    ensures LeadsHome(DeploymentOf(a, spec, oidcEnabled, checksum), a, spec, oidcEnabled, name)
  {
    var secrets := spec.settings.secrets;
    EffectiveConfigured(secrets, name);
    EffectiveConcat(BaseEnv() + OidcEnv(oidcEnabled), FlatMap(SecretEnv, secrets), name);
    EffectiveCore(oidcEnabled, name);
    match Configured(secrets, name)
    case Some(s) => ConfiguredPathResolves(a, spec, oidcEnabled, checksum, s);
    case None =>
      match CoreKeyOf(name, oidcEnabled)
      case Some(key) => CorePathResolves(a, spec, oidcEnabled, checksum, key);
      case None =>
  }

  /** So does every single variable, also one that another of its name hides. */
  lemma EveryFileVariableResolves(a: Key, spec: AutheliaSpec, oidcEnabled: bool, checksum: string, e: EnvVar)
    requires e in Env(spec.settings, oidcEnabled) && IsFileSecret(e.name)
    requires KeysAreFiles(spec.settings.secrets) && VolumesDistinct(Volumes(a, spec))
    ensures e.value.Text?
    ensures var found := Resolve(DeploymentOf(a, spec, oidcEnabled, checksum), e.value.value);
      || (CoreKeyOf(e.name, oidcEnabled).Some? &&
          found == Some(SecretKeyRef(CoreSecretName(a, spec), CoreKeyOf(e.name, oidcEnabled).value)))
      || exists s :: s in spec.settings.secrets && s.name == e.name && s.secret.Some? && found == s.secret
  {
    if e in FlatMap(SecretEnv, spec.settings.secrets) {
      FlatMapMember(SecretEnv, spec.settings.secrets, e);
      var s :| s in spec.settings.secrets && e in SecretEnv(s);
      ConfiguredPathResolves(a, spec, oidcEnabled, checksum, s);
    } else {
      var key := OwnVariable(oidcEnabled, e);
      CorePathResolves(a, spec, oidcEnabled, checksum, key);
    }
  }

  lemma OwnVariable(oidcEnabled: bool, e: EnvVar) returns (key: string)
    requires e in BaseEnv() + OidcEnv(oidcEnabled) && IsFileSecret(e.name)
    ensures CoreKeyOf(e.name, oidcEnabled) == Some(key) && key in CORE_KEYS && e.value == Text(CorePath(key))
  {
    key := if e == BaseEnv()[1] then SESSION_ENCRYPTION_KEY
      else if e == BaseEnv()[2] then STORAGE_ENCRYPTION_KEY
      else if e == OidcEnv(true)[0] then OIDC_HMAC_SECRET
      else OIDC_PRIVATE_KEY;
  }

  // ----------------------------------------------------- the pod in plain values

  /** A core file is a key of the Secret the user brings, else of the one the operator manages. */
  lemma CoreFileServed(a: Key, spec: AutheliaSpec, oidcEnabled: bool, checksum: string, key: string)
    requires VolumesDistinct(Volumes(a, spec))
    requires key in {"SESSION_ENCRYPTION_KEY", "STORAGE_ENCRYPTION_KEY", "OIDC_HMAC_SECRET", "OIDC_PRIVATE_KEY"}
    ensures Resolve(DeploymentOf(a, spec, oidcEnabled, checksum), "/secrets/" + key) ==
            Some(SecretKeyRef(if spec.existingSecret != "" then spec.existingSecret else a.name + "-secrets", key))
  {
    FourKeys(key);
    CorePathResolves(a, spec, oidcEnabled, checksum, key);
    assert CORE_MOUNT_PATH + "/" == "/secrets/";
  }

  /** What is mounted at `path` is `source`, under `subPath` of it. */
  ghost predicate MountHolds(d: Deployment, path: string, subPath: string, source: VolumeSource) {
    && (exists m :: m in d.mounts && m.mountPath == path)
    && forall m :: m in d.mounts && m.mountPath == path ==>
         m.subPath == subPath && VolumeNamed(d.volumes, m.name) == Some(Volume(m.name, source))
  }

  lemma MountOf(a: Key, spec: AutheliaSpec, oidcEnabled: bool, checksum: string, m: Mount, source: VolumeSource)
    requires VolumesDistinct(Volumes(a, spec))
    requires m in Mounts(spec.settings) && Volume(m.name, source) in Volumes(a, spec)
    ensures MountHolds(DeploymentOf(a, spec, oidcEnabled, checksum), m.mountPath, m.subPath, source)
  {
    MountPathsAreDistinct(spec.settings);
    VolumeNamedFinds(Volumes(a, spec), Volume(m.name, source));
  }

  /** The operator's own mounts: configuration, core Secret, data and users file. */
  lemma OwnMounts(a: Key, spec: AutheliaSpec, oidcEnabled: bool, checksum: string)
    requires VolumesDistinct(Volumes(a, spec))
    ensures var d := DeploymentOf(a, spec, oidcEnabled, checksum);
      && MountHolds(d, "/configuration.yaml", "configuration.yaml", ConfigMapVolume(a.name + "-config"))
      && MountHolds(d, "/secrets", "", SecretVolume(if spec.existingSecret != "" then spec.existingSecret else a.name + "-secrets"))
      && MountHolds(d, "/data", "", if spec.volumeClaimTemplate.Some? then ClaimVolume(a.name + "-data") else EmptyDir)
      && (spec.settings.fileUsersSecret.Some? ==>
            MountHolds(d, "/authelia/file-backend", "", SecretVolume(spec.settings.fileUsersSecret.value.name)))
  {
    var m, v := BaseMounts(), BaseVolumes(a, spec);
    assert m[0] in m && m[1] in m && m[2] in m && v[0] in v && v[1] in v && v[2] in v;
    MountOf(a, spec, oidcEnabled, checksum, m[0], v[1].source);
    MountOf(a, spec, oidcEnabled, checksum, m[1], v[0].source);
    MountOf(a, spec, oidcEnabled, checksum, m[2], v[2].source);
    if spec.settings.fileUsersSecret.Some? {
      var m', v' := FileBackendMounts(spec.settings), FileBackendVolumes(spec.settings);
      assert m'[0] in m' && v'[0] in v';
      MountOf(a, spec, oidcEnabled, checksum, m'[0], v'[0].source);
    }
  }

  /** Every volume refers to the operator's ConfigMap, its claim, or a Secret of the spec. */
  lemma VolumeSources(a: Key, spec: AutheliaSpec, v: Volume)
    requires v in Volumes(a, spec)
    ensures match v.source
      case ConfigMapVolume(name) => name == a.name + "-config"
      case ClaimVolume(name) => name == a.name + "-data" && spec.volumeClaimTemplate.Some?
      case EmptyDir => spec.volumeClaimTemplate.None?
      case SecretVolume(name) =>
        || name == (if spec.existingSecret != "" then spec.existingSecret else a.name + "-secrets")
        || (spec.settings.fileUsersSecret.Some? && name == spec.settings.fileUsersSecret.value.name)
        || exists s :: s in spec.settings.secrets && s.secret.Some? && name == s.secret.value.name
  {
    if v in FlatMap(SecretVolumes, spec.settings.secrets) {
      SecretVolumesMember(spec.settings.secrets, v);
    }
  }

  lemma SecretVolumesMember(secrets: seq<AutheliaSecret>, v: Volume)
    requires v in FlatMap(SecretVolumes, secrets)
    ensures exists s :: s in secrets && s.secret.Some? && v.source == SecretVolume(s.secret.value.name)
  {
    FlatMapMember(SecretVolumes, secrets, v);
  }

  /** The last entry of its name is the one a container sees: the value for a plain name, a path for a file. */
  lemma LastEntryIsSeen(u: seq<AutheliaSecret>, s: AutheliaSecret, v: seq<AutheliaSecret>, settings: AutheliaSettings, oidcEnabled: bool)
    requires settings.secrets == u + [s] + v && s.secret.Some?
    requires forall t :: t in v && t.secret.Some? ==> t.name != s.name
    ensures Effective(Env(settings, oidcEnabled), s.name) ==
      Some(if |s.name| >= 5 && s.name[|s.name| - 5..] == "_FILE"
           then Text("/authelia/secrets/" + VolumeName(s.name) + "/" + s.secret.value.key)
           else FromSecret(SecretKeyRef(s.secret.value.name, s.secret.value.key)))
  {
    EffectiveConcat(BaseEnv() + OidcEnv(oidcEnabled), FlatMap(SecretEnv, settings.secrets), s.name);
    EffectiveConfigured(settings.secrets, s.name);
    LastConfigured(u, s, v);
    assert SECRETS_MOUNT_BASE + "/" == "/authelia/secrets/";
  }

  lemma {:induction false} LastConfigured(u: seq<AutheliaSecret>, s: AutheliaSecret, v: seq<AutheliaSecret>)
    requires s.secret.Some? && forall t :: t in v && t.secret.Some? ==> t.name != s.name
    ensures Configured(u + [s] + v, s.name) == Some(s)
    decreases |v|
  {
    if v == [] {
      assert u + [s] + v == u + [s];
    } else {
      var n := |v| - 1;
      assert v[n] in v && forall t :: t in v[..n] ==> t in v;
      LastConfigured(u, s, v[..n]);
      assert (u + [s] + v)[..|u| + 1 + n] == u + [s] + v[..n];
    }
  }

  lemma NoneConfigured(secrets: seq<AutheliaSecret>, name: string)
    requires forall t :: t in secrets && t.secret.Some? ==> t.name != name
    ensures Configured(secrets, name) == None
  {
    EffectiveConfigured(secrets, name);
  }

  /** The file a core variable names. */
  function CoreFile(name: string, oidcEnabled: bool): Option<string> {
    if name == "AUTHELIA_SESSION_SECRET_FILE" then Some("/secrets/SESSION_ENCRYPTION_KEY")
    else if name == "AUTHELIA_STORAGE_ENCRYPTION_KEY_FILE" then Some("/secrets/STORAGE_ENCRYPTION_KEY")
    else if name == "AUTHELIA_IDENTITY_PROVIDERS_OIDC_HMAC_SECRET_FILE" && oidcEnabled then Some("/secrets/OIDC_HMAC_SECRET")
    else if name == "AUTHELIA_IDENTITY_PROVIDERS_OIDC_ISSUER_PRIVATE_KEY_FILE" && oidcEnabled then Some("/secrets/OIDC_PRIVATE_KEY")
    else None
  }

  lemma CoreFileIsCorePath(name: string, oidcEnabled: bool)
    ensures CoreFile(name, oidcEnabled) ==
      match CoreKeyOf(name, oidcEnabled) case Some(key) => Some(CorePath(key)) case None => None
  {
    CorePathsSpelled();
  }

  /** The `_FILE` variables a container sees, but for those of the entries: the core variables and no other. */
  lemma CoreVariablesSeen(settings: AutheliaSettings, oidcEnabled: bool, name: string)
    requires |name| >= 5 && name[|name| - 5..] == "_FILE"
    requires forall t :: t in settings.secrets && t.secret.Some? ==> t.name != name
    ensures Effective(Env(settings, oidcEnabled), name) ==
      match CoreFile(name, oidcEnabled) case Some(path) => Some(Text(path)) case None => None
  {
    EffectiveConcat(BaseEnv() + OidcEnv(oidcEnabled), FlatMap(SecretEnv, settings.secrets), name);
    EffectiveConfigured(settings.secrets, name);
    NoneConfigured(settings.secrets, name);
    EffectiveCore(oidcEnabled, name);
    CoreFileIsCorePath(name, oidcEnabled);
  }

  lemma CorePathsSpelled()
    ensures CorePath(SESSION_ENCRYPTION_KEY) == "/secrets/SESSION_ENCRYPTION_KEY"
    ensures CorePath(STORAGE_ENCRYPTION_KEY) == "/secrets/STORAGE_ENCRYPTION_KEY"
    ensures CorePath(OIDC_HMAC_SECRET) == "/secrets/OIDC_HMAC_SECRET"
    ensures CorePath(OIDC_PRIVATE_KEY) == "/secrets/OIDC_PRIVATE_KEY"
  {
  }

  // -------------------------------------------------------- volumes are distinct

  ghost function NamesOf(volumes: seq<Volume>): set<string> {
    set v | v in volumes :: v.name
  }

  lemma DistinctConcat(u: seq<Volume>, v: seq<Volume>)
    ensures VolumesDistinct(u + v) <==> VolumesDistinct(u) && VolumesDistinct(v) && NamesOf(u) !! NamesOf(v)
  {
    var w := u + v;
    if VolumesDistinct(w) {
      forall x, y | x in u && y in v ensures x.name != y.name {
        var i :| 0 <= i < |u| && u[i] == x;
        var j :| 0 <= j < |v| && v[j] == y;
        assert w[i].name != w[|u| + j].name;
      }
      forall i, j | 0 <= i < j < |v| ensures v[i].name != v[j].name {
        assert w[|u| + i].name != w[|u| + j].name;
      }
      forall i, j | 0 <= i < j < |u| ensures u[i].name != u[j].name {
        assert w[i].name != w[j].name;
      }
    }
    if VolumesDistinct(u) && VolumesDistinct(v) && NamesOf(u) !! NamesOf(v) {
      forall i, j | 0 <= i < j < |w| ensures w[i].name != w[j].name {
        if i < |u| <= j {
          assert w[i] in u && w[j] in v && w[i].name in NamesOf(u) && w[j].name in NamesOf(v);
        }
      }
    }
  }

  /** Mounted entries whose volume names differ, by position: an entry given twice is a clash. */
  ghost predicate EntriesApart(secrets: seq<AutheliaSecret>) {
    forall i, j :: 0 <= i < j < |secrets| && IsMounted(secrets[i]) && IsMounted(secrets[j]) ==>
      !Alike(Significant(secrets[i].name), Significant(secrets[j].name))
  }

  function OwnVolumeNames(settings: AutheliaSettings): set<string> {
    {"authelia-secret", "config", "data"} + if settings.fileUsersSecret.Some? then {"file-backend"} else {}
  }

  ghost predicate ApartFromOwn(settings: AutheliaSettings) {
    forall s, own :: s in settings.secrets && IsMounted(s) && own in OwnVolumeNames(settings) ==>
      !Alike(Significant(s.name), own)
  }

  ghost function MountedNames(secrets: seq<AutheliaSecret>): set<string> {
    set s | s in secrets && IsMounted(s) :: VolumeName(s.name)
  }

  lemma NamesOfOne(s: AutheliaSecret)
    ensures VolumesDistinct(SecretVolumes(s))
    ensures NamesOf(SecretVolumes(s)) == if IsMounted(s) then {VolumeName(s.name)} else {}
  {
  }

  lemma {:induction false} NamesOfSecretVolumes(secrets: seq<AutheliaSecret>)
    ensures NamesOf(FlatMap(SecretVolumes, secrets)) == MountedNames(secrets)
  {
    if secrets != [] {
      var n := |secrets| - 1;
      var last := secrets[n];
      assert secrets == secrets[..n] + [last];
      NamesOfSecretVolumes(secrets[..n]);
      var own := if IsMounted(last) then {VolumeName(last.name)} else {};
      NamesOfOne(last);
      assert NamesOf(FlatMap(SecretVolumes, secrets)) == NamesOf(FlatMap(SecretVolumes, secrets[..n])) + own;
      assert MountedNames(secrets) == MountedNames(secrets[..n]) + own;
    }
  }

  lemma MountedNamesMember(secrets: seq<AutheliaSecret>, name: string)
    ensures VolumeName(name) !in MountedNames(secrets) <==>
      forall s :: s in secrets && IsMounted(s) ==> !Alike(Significant(s.name), Significant(name))
  {
    forall s | s in secrets ensures VolumeName(s.name) == VolumeName(name) <==> Alike(Significant(s.name), Significant(name)) {
      VolumeNamesClashIff(s.name, name);
    }
  }

  lemma ApartOneMore(secrets: seq<AutheliaSecret>, last: AutheliaSecret)
    ensures EntriesApart(secrets + [last]) <==>
      (EntriesApart(secrets) && (IsMounted(last) ==> VolumeName(last.name) !in MountedNames(secrets)))
  {
    var all, n := secrets + [last], |secrets|;
    MountedNamesMember(secrets, last.name);
    if EntriesApart(all) {
      forall i, j | 0 <= i < j < n && IsMounted(secrets[i]) && IsMounted(secrets[j])
        ensures !Alike(Significant(secrets[i].name), Significant(secrets[j].name))
      {
        assert !Alike(Significant(all[i].name), Significant(all[j].name));
      }
      forall s | s in secrets && IsMounted(s) && IsMounted(last) ensures !Alike(Significant(s.name), Significant(last.name)) {
        var i :| 0 <= i < n && secrets[i] == s;
        assert !Alike(Significant(all[i].name), Significant(all[n].name));
      }
    }
  }

  lemma {:induction false} EntriesApartIff(secrets: seq<AutheliaSecret>)
    ensures VolumesDistinct(FlatMap(SecretVolumes, secrets)) <==> EntriesApart(secrets)
  {
    if secrets != [] {
      var n := |secrets| - 1;
      var init, last := secrets[..n], secrets[n];
      assert secrets == init + [last];
      EntriesApartIff(init);
      ApartOneMore(init, last);
      DistinctConcat(FlatMap(SecretVolumes, init), SecretVolumes(last));
      NamesOfSecretVolumes(init);
      NamesOfOne(last);
    }
  }

  lemma OwnVolumes(a: Key, spec: AutheliaSpec)
    ensures var own := BaseVolumes(a, spec) + FileBackendVolumes(spec.settings);
      VolumesDistinct(own) && NamesOf(own) == OwnVolumeNames(spec.settings)
  {
    var own := BaseVolumes(a, spec) + FileBackendVolumes(spec.settings);
    assert "config"[0] != "data"[0] && |"authelia-secret"| == 15 && |"file-backend"| == 12;
    assert own[0] in own && own[1] in own && own[2] in own;
    assert spec.settings.fileUsersSecret.Some? ==> own[3] in own && own[3].name == "file-backend";
  }

  lemma ApartFromOwnIff(settings: AutheliaSettings)
    ensures OwnVolumeNames(settings) !! MountedNames(settings.secrets) <==> ApartFromOwn(settings)
  {
    forall s, own | s in settings.secrets && own in OwnVolumeNames(settings)
      ensures VolumeName(s.name) == own <==> Alike(Significant(s.name), own)
    {
      BuiltInClashIff(s.name, own);
    }
    if !ApartFromOwn(settings) {
      var s, own :| s in settings.secrets && IsMounted(s) && own in OwnVolumeNames(settings) && Alike(Significant(s.name), own);
      assert own in MountedNames(settings.secrets);
    }
  }

  /**
   * The pod's volume names are distinct exactly when the significant parts of the mounted variables
   * are pairwise unlike, and unlike the names of the operator's own volumes.
   */
  lemma VolumesDistinctIff(a: Key, spec: AutheliaSpec)
    ensures VolumesDistinct(Volumes(a, spec)) <==> (EntriesApart(spec.settings.secrets) && ApartFromOwn(spec.settings))
  {
    var own, user := BaseVolumes(a, spec) + FileBackendVolumes(spec.settings), FlatMap(SecretVolumes, spec.settings.secrets);
    OwnVolumes(a, spec);
    NamesOfSecretVolumes(spec.settings.secrets);
    EntriesApartIff(spec.settings.secrets);
    ApartFromOwnIff(spec.settings);
    DistinctConcat(own, user);
  }

  /** The mounted variables have plain names of at most 63 characters, all different. */
  ghost predicate WellNamed(secrets: seq<AutheliaSecret>) {
    && (forall i, j :: 0 <= i < j < |secrets| && IsMounted(secrets[i]) && IsMounted(secrets[j]) ==>
         secrets[i].name != secrets[j].name)
    && (forall s :: s in secrets && IsMounted(s) ==> IsPlainName(s.name) && |s.name| <= MAX_LABEL)
  }

  /** That is enough. */
  lemma WellNamedVolumesDistinct(a: Key, spec: AutheliaSpec)
    requires WellNamed(spec.settings.secrets)
    ensures VolumesDistinct(Volumes(a, spec))
  {
    var secrets := spec.settings.secrets;
    forall i, j | 0 <= i < j < |secrets| && IsMounted(secrets[i]) && IsMounted(secrets[j])
      ensures !Alike(Significant(secrets[i].name), Significant(secrets[j].name))
    {
      assert secrets[i] in secrets && secrets[j] in secrets;
      ShortVolumeNamesDistinct(secrets[i].name, secrets[j].name);
      VolumeNamesClashIff(secrets[i].name, secrets[j].name);
    }
    forall s, own | s in secrets && IsMounted(s) && own in OwnVolumeNames(spec.settings)
      ensures !Alike(Significant(s.name), own)
    {
      ShortVolumeNamesAvoidBuiltIn(s.name);
      BuiltInClashIff(s.name, own);
    }
    VolumesDistinctIff(a, spec);
  }
}
