/** The fixed names the tool writes into its files: descriptor keys, secret names and
    default values. The names are the values of the `EnvVarNames`, `VPSKeys` and
    `CoolifyKeys` enumerations of utils/enums.py; the default settings are
    `DEFAULT_LINODE_VPS_CONFIG` of utils/globals.py. */
module Keys {
  import opened Documents

  // Secrets file names
  const VpsApiTokenEnvVar := "VPS_API_TOKEN"
  const VpsRootPasswordEnvVar := "VPS_ROOT_PASSWORD"

  // Top-level descriptor keys
  const ProjectNameKey := "project_name"
  const CreatedAtKey := "created_at"
  const ProviderKey := "provider"
  const VpsConfigsKey := "vps_configs"
  const CoolifyConfigsKey := "coolify_configs"

  // Keys inside `vps_configs`
  const ImageKey := "image"
  const RegionKey := "region"
  const TypeKey := "type"
  const LabelKey := "label"
  const LinodeIdKey := "linode_id"
  const PublicIpKey := "public_ip"

  // Keys inside `coolify_configs`
  const ProjectsKey := "projects"
  const NameKey := "name"
  const DescriptionKey := "description"
  const UuidKey := "uuid"

  /** Prefix of every instance label. Its literal is not part of this model; any fixed
      string serves, since the model only relies on it being a fixed prefix. */
  const LinodeInstancePrefix := "saasFactory-"

  /** Value of the `provider` key written by the Linode adapter. */
  const LinodeProviderName := "linode"

  /** The default instance configuration offered by `vps synth`. */
  const DefaultLinodeVpsConfig: map<string, Value> :=
    map[ImageKey := Leaf("linode/ubuntu24.04"),
        RegionKey := Leaf("us-central"),
        TypeKey := Leaf("g6-standard-1")]

  // Defaults of the deployment-platform client. Their literals are not part of this
  // model either; each is a fixed string.
  const DefaultCoolifyProjectName := "saasFactory-project-"
  const DefaultCoolifyProjectDescription := "saasFactory project"
  const DefaultCoolifyEnvironmentName := "production"
  const DefaultDeployKeyPrefix := "saasFactory-deploy-key-"
  const DefaultNewGithubRepoName := "saasFactory-app-"

  /** The premade repositories offered when connecting a deployment, in menu order. */
  const GitHubRepoUrls: seq<string> :=
    ["https://github.com/nextjs/saas-starter.git",
     "https://github.com/nextjsfd/saas-starter.git",
     "https://github.com/ddnextjs/saas-starter.git"]
}
