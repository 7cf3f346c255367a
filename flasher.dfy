/**
 * The script as it runs: each function of flash.js becomes a method of `Flasher` that
 * appends what it does to `log` (the device calls, the firmware GET and the console
 * messages, in order) and reports how it ended. `s` is the script's global countdown
 * counter. Every method is proved to produce exactly the step the Workflow module
 * describes, so the properties proved there hold of these methods.
 */
module FlashScript {
  import opened Wrappers
  import opened Config
  import opened Device
  import opened Firmware
  import opened Workflow

  class Flasher {
    /** The environment variables read at start-up (flash.js:3-6). */
    const env: Env
    /** The answers of the device and of the firmware host. */
    const net: Network
    /** What the outside world has observed so far. */
    var log: seq<Event>
    /** The countdown counter, a global assigned by updateFirmware. */
    var s: int
    /** Whether the interval timer set by updateFirmware is still running. */
    var timerArmed: bool

    /** A running timer has between 1 and 30 ticks left. */
    ghost predicate Valid()
      reads this
    {
      timerArmed ==> 0 < s <= CountdownStart
    }

    constructor (env: Env, net: Network)
      ensures this.env == env && this.net == net
      ensures log == [] && !timerArmed && Valid()
    {
      this.env := env;
      this.net := net;
      log := [];
      s := 0;
      timerArmed := false;
    }

    /** call(path, data): post `{deviceid, data}`; the caller reads the reply from `net`. */
    method Call(cfg: Settings, command: Command, data: Payload)
      modifies this`log
      ensures log == old(log) + [CallEvent(cfg, command, data)]
    {
      var body := Body(cfg.deviceId, data);
      log := log + [Post(Request(cfg.ip, command, body))];
    }

    /** missingEnv: print the remediation and terminate with status 1. */
    method MissingEnv(setting: Setting) returns (st: Status)
      modifies this`log
      ensures log == old(log) + [Log(PleasePass(setting))]
      ensures st == Exit(MissingExitCode, setting)
    {
      log := log + [Log(PleasePass(setting))];
      st := Exit(MissingExitCode, setting);
    }

    /** ensureEnv: check the four settings in order; the first missing one ends the process. */
    method EnsureEnv() returns (st: Status)
      modifies this`log
      ensures log == old(log) + Workflow.EnsureEnv(env).events
      ensures st == Workflow.EnsureEnv(env).status
      ensures st.Continue? ==> log == old(log)
    {
      if !Present(env.ip) {
        st := MissingEnv(IpAddress);
        return;
      }
      if !Present(env.deviceId) {
        st := MissingEnv(DeviceId);
        return;
      }
      if !Present(env.firmwareUrl) {
        st := MissingEnv(FirmwareUrl);
        return;
      }
      if !Present(env.sha256) {
        st := MissingEnv(Sha256);
        return;
      }
      st := Continue;
    }

    /** testConnection */
    method TestConnection(cfg: Settings) returns (st: Status)
      modifies this`log
      ensures log == old(log) + Workflow.TestConnection(cfg, net.signal).events
      ensures st == Workflow.TestConnection(cfg, net.signal).status
    {
      Call(cfg, SignalStrength, NoData);
      match net.signal {
        case Rejected =>
          st := Throw(CallRejected(SignalStrength));
        case Replied(test) =>
          if ConnectionFails(test) {
            st := Throw(ConnectionFailed);
          } else {
            log := log + [Log(Connected(cfg.ip))];
            st := Continue;
          }
      }
    }

    /** unlockOTA */
    method UnlockOta(cfg: Settings) returns (st: Status)
      modifies this`log
      ensures log == old(log) + Workflow.UnlockOta(cfg, net.info, net.unlock).events
      ensures st == Workflow.UnlockOta(cfg, net.info, net.unlock).status
    {
      Call(cfg, Info, NoData);
      if net.info.Rejected? {
        st := Throw(CallRejected(Info));
        return;
      }
      var info := net.info.body;
      if info.None? {
        st := Throw(MalformedInfo);
        return;
      }
      if !NeedsUnlock(info.value) {
        log := log + [Log(AlreadyUnlocked)];
        st := Continue;
        return;
      }
      Call(cfg, OtaUnlock, NoData);
      if net.unlock.Rejected? {
        st := Throw(CallRejected(OtaUnlock));
        return;
      }
      log := log + [Log(Unlocked)];
      st := Continue;
    }

    /** testFirmwareUrl, with its catch: strings are re-thrown, error objects only logged. */
    method TestFirmwareUrl(cfg: Settings) returns (st: Status)
      modifies this`log
      ensures log == old(log) + Workflow.TestFirmwareUrl(cfg, net.firmware).events
      ensures st == Workflow.TestFirmwareUrl(cfg, net.firmware).status
    {
      log := log + [Get(cfg.firmwareUrl)];
      match net.firmware {
        case Fetched(contentType, acceptRanges) =>
          if !HeaderIs(contentType, OctetStream) {
            st := Throw(BadHeader(ContentTypeInvalid));
            return;
          }
          if !HeaderIs(acceptRanges, Bytes) {
            st := Throw(BadHeader(RangesUnsupported));
            return;
          }
          log := log + [Log(FirmwarePassed)];
          st := Continue;
        case TransportFailure(response) =>
          log := log + [Log(FirmwareUnverified(cfg.firmwareUrl))];
          if response.Some? {
            log := log + [Log(HttpError(response.value.status, response.value.statusText))];
          }
          st := Continue;
      }
    }

    /** updateFirmware: send `ota_flash`, then set `s` to 30 and arm the interval timer. */
    method UpdateFirmware(cfg: Settings) returns (st: Status)
      modifies this`log, this`s, this`timerArmed
      ensures log == old(log) + Workflow.UpdateFirmware(cfg, net.flash).events
      ensures st == Workflow.UpdateFirmware(cfg, net.flash).status
      ensures st.Continue? ==> timerArmed && s == CountdownStart
      ensures !st.Continue? ==> timerArmed == old(timerArmed) && s == old(s)
    {
      log := log + [Log(Flashing)];
      Call(cfg, OtaFlash, FlashData(cfg.firmwareUrl, cfg.sha256));
      if net.flash.Rejected? {
        st := Throw(CallRejected(OtaFlash));
        return;
      }
      s := CountdownStart;
      timerArmed := true;
      st := Continue;
    }

    /**
     * The interval callback: print the waiting message for `s`, decrement it, and on
     * reaching zero print the success message and clear the timer.
     */
    method Tick()
      requires Valid() && timerArmed
      modifies this`log, this`s, this`timerArmed
      ensures Valid()
      ensures s == old(s) - 1 && timerArmed == (s != 0)
      ensures log == old(log) + [Log(Waiting(old(s)))] + (if s == 0 then [Log(Flashed)] else [])
    {
      log := log + [Log(Waiting(s))];
      s := s - 1;
      if s == 0 {
        log := log + [Log(Flashed)];
        timerArmed := false;
      }
    }

    /** The event loop: the interval keeps firing until its callback clears it. */
    method RunTimer()
      requires Valid()
      modifies this`log, this`s, this`timerArmed
      ensures Valid() && !timerArmed
      ensures log == old(log) + (if old(timerArmed) then Waits(old(s), 0) + [Log(Flashed)] else [])
      ensures s == (if old(timerArmed) then 0 else old(s))
    {
      ghost var start, from := log, s;
      while timerArmed
        invariant Valid()
        invariant old(timerArmed) ==> 0 <= s <= from && (timerArmed <==> s != 0)
        invariant old(timerArmed) ==> log == start + Waits(from, s) + (if timerArmed then [] else [Log(Flashed)])
        invariant !old(timerArmed) ==> log == start && !timerArmed && s == from
        decreases s
      {
        Tick();
      }
    }

    /** run: ensureEnv, then the awaited network steps. */
    method Run() returns (st: Status)
      requires Valid() && !timerArmed
      modifies this`log, this`s, this`timerArmed
      ensures var r := Workflow.Run(env, net); log == old(log) + r.events && st == r.status
      ensures Valid() && timerArmed == st.Continue?
      ensures s == (if timerArmed then CountdownStart else old(s))
    {
      st := EnsureEnv();
      if !st.Continue? {
        return;
      }
      st := Proceed(Resolve(env).settings);
    }

    /** The four awaited steps of run, each only after the previous one continued. */
    method Proceed(cfg: Settings) returns (st: Status)
      requires Valid() && !timerArmed
      modifies this`log, this`s, this`timerArmed
      ensures var r := Workflow.Proceed(cfg, net); log == old(log) + r.events && st == r.status
      ensures Valid() && timerArmed == st.Continue?
      ensures s == (if timerArmed then CountdownStart else old(s))
    {
      st := TestConnection(cfg);
      if !st.Continue? {
        return;
      }
      st := UnlockOta(cfg);
      if !st.Continue? {
        return;
      }
      st := TestFirmwareUrl(cfg);
      if !st.Continue? {
        return;
      }
      st := UpdateFirmware(cfg);
    }

    /**
     * The top-level async function: run, and log what reaches the catch; then the
     * interval timer, if `run` armed it, fires until it clears itself.
     */
    method Launch() returns (outcome: Outcome)
      requires Valid() && !timerArmed
      modifies this`log, this`s, this`timerArmed
      ensures log == old(log) + Workflow.Launch(env, net).events
      ensures outcome == Workflow.Launch(env, net).outcome
      ensures Valid() && !timerArmed
      ensures s == (if outcome.Completed? then 0 else old(s))
    {
      var st := Run();
      match st {
        case Continue =>
          outcome := Completed;
        case Exit(code, m) =>
          outcome := Exited(code, m);
        case Throw(f) =>
          log := log + [Log(Caught(f))];
          outcome := Failed(f);
      }
      RunTimer();
    }
  }
}
