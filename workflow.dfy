/**
 * The flashing workflow as a function of its inputs (flash.js:8-131): each step of
 * `run` yields the events it produces, in order, and whether the run goes on, exits
 * or throws. The class in FlashScript performs the same steps imperatively and is
 * proved against these functions.
 */
module Workflow {
  import opened Wrappers
  import opened Config
  import opened Device
  import opened Firmware

  /** What reaches the top-level `catch`: the thrown strings and the error objects. */
  datatype Failure =
    | ConnectionFailed             // the string thrown by testConnection
    | BadHeader(error: HeaderError) // a string re-thrown by testFirmwareUrl
    | CallRejected(command: Command) // a rejected device call, propagated unhandled
    | MalformedInfo                // the TypeError of reading `otaUnlock` from a missing `data`

  /** Strings are thrown on purpose; the other failures are error objects. */
  predicate IsThrownString(f: Failure) {
    f.ConnectionFailed? || f.BadHeader?
  }

  /** The kinds of console message the script prints. */
  datatype Message =
    | PleasePass(setting: Setting)
    | Connected(ip: string)
    | AlreadyUnlocked
    | Unlocked
    | FirmwarePassed
    | FirmwareUnverified(url: string)
    | HttpError(status: int, statusText: string)
    | Flashing
    | Waiting(seconds: int)
    | Flashed
    | Caught(failure: Failure)

  /** Everything the outside world observes, in order. */
  datatype Event =
    | Post(request: Request)   // a device call
    | Get(url: string)         // the firmware download check
    | Log(message: Message)    // a console message

  /** How a step ends: normally, by `process.exit`, or by throwing. */
  datatype Status = Continue | Exit(code: int, missing: Setting) | Throw(failure: Failure)

  datatype Step = Step(events: seq<Event>, status: Status)

  /** How the whole script ends. */
  datatype Outcome = Completed | Exited(code: int, missing: Setting) | Failed(failure: Failure)

  datatype Session = Session(events: seq<Event>, outcome: Outcome)

  /** The device's and the firmware host's answers, one per request the script can make. */
  datatype Network = Network(
    signal: Reply<Option<StatusBody>>,
    info: Reply<Option<InfoData>>,
    unlock: Reply<StatusBody>,
    firmware: FetchOutcome,
    flash: Reply<StatusBody>)

  /** The countdown's starting value (flash.js:88). */
  const CountdownStart: nat := 30

  /** The event of `call(command, data)`: a POST carrying the device id and the payload. */
  function CallEvent(cfg: Settings, command: Command, data: Payload): Event {
    Post(Request(cfg.ip, command, Body(cfg.deviceId, data)))
  }

  /** ensureEnv: print the remediation for the first missing setting and exit. */
  function EnsureEnv(env: Env): Step {
    match FirstMissing(env)
    case Some(m) => Step([Log(PleasePass(m))], Exit(MissingExitCode, m))
    case None => Step([], Continue)
  }

  /** testConnection: one `signal_strength` call, failing on a falsy body or a truthy error. */
  function TestConnection(cfg: Settings, signal: Reply<Option<StatusBody>>): Step {
    var call := CallEvent(cfg, SignalStrength, NoData);
    match signal
    case Rejected => Step([call], Throw(CallRejected(SignalStrength)))
    case Replied(test) =>
      if ConnectionFails(test) then Step([call], Throw(ConnectionFailed))
      else Step([call, Log(Connected(cfg.ip))], Continue)
  }

  /** unlockOTA: read `info`, and send `ota_unlock` only when `otaUnlock` is falsy. */
  function UnlockOta(cfg: Settings, info: Reply<Option<InfoData>>, unlock: Reply<StatusBody>): Step {
    var ask := CallEvent(cfg, Info, NoData);
    var send := CallEvent(cfg, OtaUnlock, NoData);
    match info
    case Rejected => Step([ask], Throw(CallRejected(Info)))
    case Replied(None) => Step([ask], Throw(MalformedInfo))
    case Replied(Some(data)) =>
      if !NeedsUnlock(data) then Step([ask, Log(AlreadyUnlocked)], Continue)
      else
        match unlock
        case Rejected => Step([ask, send], Throw(CallRejected(OtaUnlock)))
        case Replied(_) => Step([ask, send, Log(Unlocked)], Continue)
  }

  /**
   * testFirmwareUrl: GET the firmware URL and check two headers. The header errors are
   * strings and are re-thrown; a rejected GET is an error object, only logged.
   */
  function TestFirmwareUrl(cfg: Settings, fetch: FetchOutcome): Step {
    var get := Get(cfg.firmwareUrl);
    match fetch
    case Fetched(contentType, acceptRanges) =>
      (match CheckHeaders(contentType, acceptRanges)
       case Some(e) => Step([get], Throw(BadHeader(e)))
       case None => Step([get, Log(FirmwarePassed)], Continue))
    case TransportFailure(response) =>
      var unverified := Log(FirmwareUnverified(cfg.firmwareUrl));
      match response
      case Some(r) => Step([get, unverified, Log(HttpError(r.status, r.statusText))], Continue)
      case None => Step([get, unverified], Continue)
  }

  /** The waiting messages from `hi` down to `lo + 1`, in the order they are printed. */
  function Waits(hi: nat, lo: nat): seq<Event>
    requires lo <= hi
  {
    seq(hi - lo, i => Log(Waiting(hi - i)))
  }

  /**
   * The messages of the interval callback: one per tick, with `s` going from 30 down
   * to 1, then the success message when `s` reaches zero and the timer is cleared.
   */
  function Countdown(): seq<Event> {
    Waits(CountdownStart, 0) + [Log(Flashed)]
  }

  /**
   * updateFirmware: announce, send `ota_flash` with the URL and checksum, and arm the
   * countdown timer. It returns as soon as the timer is armed; the ticks come later
   * (see Launch).
   */
  function UpdateFirmware(cfg: Settings, flash: Reply<StatusBody>): Step {
    var sent := [Log(Flashing), CallEvent(cfg, OtaFlash, FlashData(cfg.firmwareUrl, cfg.sha256))];
    match flash
    case Rejected => Step(sent, Throw(CallRejected(OtaFlash)))
    case Replied(_) => Step(sent, Continue)
  }

  /**
   * The awaited steps of `run` after ensureEnv, in order: each step's events follow the
   * previous step's, and the first step that does not continue ends the run.
   */
  function Cascade(connect: Step, unlock: Step, check: Step, flash: Step): Step {
    if !connect.status.Continue? then connect
    else if !unlock.status.Continue? then Step(connect.events + unlock.events, unlock.status)
    else if !check.status.Continue? then Step(connect.events + unlock.events + check.events, check.status)
    else Step(connect.events + unlock.events + check.events + flash.events, flash.status)
  }

  /** run: ensureEnv, then the four network steps in order. */
  function Run(env: Env, net: Network): Step {
    match Resolve(env)
    case Missing(_) => EnsureEnv(env)
    case Resolved(cfg) => Proceed(cfg, net)
  }

  /** The awaited network steps of `run`, once the configuration is complete. */
  function Proceed(cfg: Settings, net: Network): Step {
    Cascade(TestConnection(cfg, net.signal), UnlockOta(cfg, net.info, net.unlock),
      TestFirmwareUrl(cfg, net.firmware), UpdateFirmware(cfg, net.flash))
  }

  /**
   * What follows `run` once it has settled: the top-level `catch` logs whatever was
   * thrown, and a run that returned normally has armed the countdown timer, whose ticks
   * come after everything `run` did.
   */
  function Conclude(r: Step): Session {
    match r.status
    case Continue => Session(r.events + Countdown(), Completed)
    case Exit(code, m) => Session(r.events, Exited(code, m))
    case Throw(f) => Session(r.events + [Log(Caught(f))], Failed(f))
  }

  /** The top-level async function: run, then the catch or the countdown. */
  function Launch(env: Env, net: Network): Session {
    Conclude(Run(env, net))
  }
}
