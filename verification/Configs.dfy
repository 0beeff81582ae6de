/** Istio's `model.Config`: a typed, named resource with a spec. */
module Configs {

  datatype Kind = ServiceRole | ServiceRoleBinding | ClusterRbacConfig | AuthorizationPolicy

  /** `Config.Key()`: type, namespace and name. */
  datatype Key = Key(kind: Kind, namespace: string, name: string)

  datatype Meta = Meta(key: Key, resourceVersion: nat, annotations: map<string, string>)

  datatype Config<+S> = Config(meta: Meta, spec: S)

  /** `common.NewConfig`: a config that has not been stored yet. */
  function NewConfig<S>(kind: Kind, namespace: string, name: string, spec: S): Config<S> {
    Config(Meta(Key(kind, namespace, name), 0, map[]), spec)
  }
}
