/** The configuration the flasher reads from its environment (flash.js, ensureEnv and missingEnv). */
module Config {
  import opened Wrappers

  /** The four required settings, named after their environment variables. */
  datatype Setting = IpAddress | DeviceId | FirmwareUrl | Sha256

  /** The raw environment: each variable is either unset or some string. */
  datatype Env = Env(ip: Option<string>, deviceId: Option<string>, firmwareUrl: Option<string>, sha256: Option<string>)

  /** The settings once every one of them is known to be present. */
  datatype Settings = Settings(ip: string, deviceId: string, firmwareUrl: string, sha256: string)

  /** Whether the check stopped at a missing setting or resolved all four. */
  datatype Resolution = Missing(setting: Setting) | Resolved(settings: Settings)

  /** The exit status `missingEnv` passes to `process.exit`. */
  const MissingExitCode: int := 1

  function Lookup(env: Env, s: Setting): Option<string> {
    match s
    case IpAddress => env.ip
    case DeviceId => env.deviceId
    case FirmwareUrl => env.firmwareUrl
    case Sha256 => env.sha256
  }

  /** JavaScript truthiness of an environment value: unset and the empty string are falsy. */
  predicate Present(v: Option<string>) {
    v.Some? && v.value != ""
  }

  /** The position of a setting in the order `ensureEnv` checks them. */
  function Rank(s: Setting): nat {
    match s
    case IpAddress => 0
    case DeviceId => 1
    case FirmwareUrl => 2
    case Sha256 => 3
  }

  /** The setting whose check terminates the process, if any: the first missing one. */
  function FirstMissing(env: Env): (r: Option<Setting>)
    ensures r.None? <==> forall s :: Present(Lookup(env, s))
    ensures r.Some? ==> !Present(Lookup(env, r.value))
    ensures r.Some? ==> forall s :: Rank(s) < Rank(r.value) ==> Present(Lookup(env, s))
  {
    if !Present(Lookup(env, IpAddress)) then Some(IpAddress)
    else if !Present(Lookup(env, DeviceId)) then Some(DeviceId)
    else if !Present(Lookup(env, FirmwareUrl)) then Some(FirmwareUrl)
    else if !Present(Lookup(env, Sha256)) then Some(Sha256)
    else None
  }

  /** The outcome of the configuration check, together with the values the rest of the run uses. */
  function Resolve(env: Env): (r: Resolution)
    ensures r.Missing? <==> FirstMissing(env).Some?
    ensures r.Missing? ==> r.setting == FirstMissing(env).value
    ensures r.Resolved? ==> env == Env(Some(r.settings.ip), Some(r.settings.deviceId), Some(r.settings.firmwareUrl), Some(r.settings.sha256))
    ensures r.Resolved? ==> r.settings.ip != "" && r.settings.deviceId != "" && r.settings.firmwareUrl != "" && r.settings.sha256 != ""
  {
    match FirstMissing(env)
    case Some(m) => Missing(m)
    case None => Resolved(Settings(env.ip.value, env.deviceId.value, env.firmwareUrl.value, env.sha256.value))
  }
}
