/** Cargo and vm specifications, as sent by clients and as read back from the store. */
module Specs {
  import opened Options

  datatype Json = JStr(text: string) | JObj(fields: map<string, Json>) | JRaw(text: string)

  /** Docker settings the daemon never looks into are kept as one opaque text. */
  datatype HostConfig = HostConfig(binds: Option<seq<string>>, rest: string)

  const DEFAULT_HOST: HostConfig := HostConfig(None, "")

  datatype Config = Config(
    image: Option<string>,
    cmd: Option<seq<string>>,
    env: Option<seq<string>>,
    hostConfig: Option<HostConfig>,
    rest: string)

  datatype CargoSpecPartial = CargoSpecPartial(
    name: string,
    container: Config,
    initContainer: Option<Config>,
    replication: Option<string>,
    secrets: Option<seq<string>>,
    metadata: Option<Json>,
    imagePullSecret: Option<string>,
    imagePullPolicy: Option<string>)

  datatype CargoSpecUpdate = CargoSpecUpdate(
    container: Option<Config>,
    initContainer: Option<Config>,
    replication: Option<string>,
    secrets: Option<seq<string>>,
    metadata: Option<Json>,
    imagePullSecret: Option<string>,
    imagePullPolicy: Option<string>)

  /** The virtual hardware of a vm; `VM_DEFAULTS` is what an absent one is read as. */
  datatype VmHostConfig = VmHostConfig(cpu: nat, memory: nat, rest: string)

  const VM_DEFAULTS: VmHostConfig := VmHostConfig(1, 512, "")

  datatype VmSpecPartial = VmSpecPartial(
    name: string,
    disk: string,
    hostConfig: Option<VmHostConfig>,
    metadata: Option<Json>,
    rest: string)

  function OrElse<T>(a: Option<T>, b: Option<T>): Option<T> {
    if a.Some? then a else b
  }

  function GetOr<T>(a: Option<T>, default: T): T {
    if a.Some? then a.value else default
  }
}
