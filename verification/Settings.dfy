/** The spec of an Authelia resource, as far as the operator acts on it. */
module Settings {
  import opened JsonTree

  datatype SecretKeyRef = SecretKeyRef(name: string, key: string)

  datatype AutheliaSecret = AutheliaSecret(name: string, secret: Option<SecretKeyRef>)

  datatype AutheliaSettings = AutheliaSettings(
    additionalConfig: JsonObject,
    fileUsersSecret: Option<SecretKeyRef>,
    secrets: seq<AutheliaSecret>
  )

  /** `volumeClaimTemplate` is the claim's spec, of which nothing is looked at. */
  datatype AutheliaSpec = AutheliaSpec(
    hostname: string,
    existingSecret: string,
    volumeClaimTemplate: Option<string>,
    settings: AutheliaSettings
  )

  const FILE_BACKEND_MOUNT_PATH: string := "/authelia/file-backend"

  function FileUsersPath(ref: SecretKeyRef): string {
    FILE_BACKEND_MOUNT_PATH + "/" + ref.key
  }
}
