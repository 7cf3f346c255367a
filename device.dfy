/**
 * The device's local control API as `call` uses it (flash.js:111-121): the request it
 * posts and the responses the workflow inspects. The HTTP transport and the JSON
 * decoding of the nested `data` string are not modelled; responses are inputs.
 */
module Device {
  import opened Wrappers

  /** The commands the workflow sends, i.e. the `zeroconf/<path>` endpoints it posts to. */
  datatype Command = SignalStrength | Info | OtaUnlock | OtaFlash

  function Path(c: Command): string {
    match c
    case SignalStrength => "signal_strength"
    case Info => "info"
    case OtaUnlock => "ota_unlock"
    case OtaFlash => "ota_flash"
  }

  /** The `data` member of a request body: `{}` (the default) or the flash parameters. */
  datatype Payload = NoData | FlashData(downloadUrl: string, sha256sum: string)

  /** The request body `{deviceid, data}`. */
  datatype Body = Body(deviceid: string, data: Payload)

  /** One POST to the device. */
  datatype Request = Request(ip: string, command: Command, body: Body)

  /** Distinct commands are posted to distinct endpoints. */
  lemma PathsDistinct(a: Command, b: Command)
    ensures Path(a) == Path(b) <==> a == b
  {
    if a != b {
      assert |Path(a)| != |Path(b)|;
    }
  }

  const DevicePort: string := "8081"

  /** The URL the request is posted to. */
  function Url(r: Request): string {
    "http://" + r.ip + ":" + DevicePort + "/zeroconf/" + Path(r.command)
  }

  /** What a device call resolves to: the promise rejects (transport or HTTP error) or yields a body. */
  datatype Reply<+T> = Rejected | Replied(body: T)

  /** A response body whose only field of interest is the `error` code (absent or a number). */
  datatype StatusBody = StatusBody(error: Option<int>)

  /** The decoded `data` of an `info` response; `otaUnlock` may be absent. */
  datatype InfoData = InfoData(otaUnlock: Option<bool>)

  /** JavaScript truthiness of the `error` field: absent and 0 are falsy. */
  predicate ErrorTruthy(e: Option<int>) {
    e.Some? && e.value != 0
  }

  /**
   * The connectivity verdict of `testConnection`: the test fails when the body is
   * falsy (`None`) or carries a truthy `error`.
   */
  predicate ConnectionFails(test: Option<StatusBody>) {
    test.None? || ErrorTruthy(test.value.error)
  }

  /** The unlock decision of `unlockOTA`: an `ota_unlock` is needed unless `otaUnlock` is truthy. */
  predicate NeedsUnlock(data: InfoData) {
    data.otaUnlock != Some(true)
  }
}
