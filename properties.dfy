/**
 * What the workflow guarantees, stated over everything the outside world observes
 * (`Launch(env, net).events`): which requests reach the device and the firmware host
 * and in what order, what they carry, which failures stop the run, and what the
 * countdown prints.
 */
module Properties {
  import opened Wrappers
  import opened Config
  import opened Device
  import opened Firmware
  import opened Workflow

  /** Whom a request went to: the device (with the command) or the firmware host. */
  datatype Contact = DeviceCall(command: Command) | FirmwareHost

  function ContactOf(e: Event): seq<Contact> {
    match e
    case Post(r) => [DeviceCall(r.command)]
    case Get(_) => [FirmwareHost]
    case Log(_) => []
  }

  /** The network requests among the events, in order. */
  function Contacts(events: seq<Event>): seq<Contact> {
    if events == [] then [] else ContactOf(events[0]) + Contacts(events[1..])
  }

  function SecondsOf(e: Event): seq<int> {
    if e.Log? && e.message.Waiting? then [e.message.seconds] else []
  }

  /** The seconds shown by the waiting messages among the events, in order. */
  function Waitings(events: seq<Event>): seq<int> {
    if events == [] then [] else SecondsOf(events[0]) + Waitings(events[1..])
  }

  // The conditions on the inputs under which each step lets the run go on.

  /** The connectivity test passes. */
  predicate Connects(net: Network) {
    net.signal.Replied? && !ConnectionFails(net.signal.body)
  }

  /** `info` answered with a `data` object. */
  predicate InfoReadable(net: Network) {
    net.info.Replied? && net.info.body.Some?
  }

  /** `info` reported the device as not unlocked. */
  predicate Locked(net: Network) {
    InfoReadable(net) && NeedsUnlock(net.info.body.value)
  }

  /** The unlock step completes: `info` is readable, and `ota_unlock` answered if it was needed. */
  predicate Unlocks(net: Network) {
    InfoReadable(net) && (Locked(net) ==> net.unlock.Replied?)
  }

  /** The firmware check does not throw: either the headers are right or the GET itself failed. */
  predicate FirmwareAdmits(fetch: FetchOutcome) {
    match fetch
    case Fetched(contentType, acceptRanges) => CheckHeaders(contentType, acceptRanges).None?
    case TransportFailure(_) => true
  }

  /** Every step before the flash lets the run go on. */
  predicate ReachesFlash(env: Env, net: Network) {
    Resolve(env).Resolved? && Connects(net) && Unlocks(net) && FirmwareAdmits(net.firmware)
  }

  /** The requests a run makes, as a cascade of the conditions above. */
  function ExpectedContacts(env: Env, net: Network): seq<Contact> {
    if Resolve(env).Missing? then [] else
    [DeviceCall(SignalStrength)] + (if !Connects(net) then [] else
    [DeviceCall(Info)] + (if Locked(net) then [DeviceCall(OtaUnlock)] else []) + (if !Unlocks(net) then [] else
    [FirmwareHost] + (if !FirmwareAdmits(net.firmware) then [] else
    [DeviceCall(OtaFlash)])))
  }

  /** The request a device call for `command` carries when the settings are `cfg`. */
  function RequestFor(cfg: Settings, command: Command): Request {
    var data := if command == OtaFlash then FlashData(cfg.firmwareUrl, cfg.sha256) else NoData;
    Request(cfg.ip, command, Body(cfg.deviceId, data))
  }

  // Projections distribute over concatenation.

  lemma {:induction false} ContactsAppend(a: seq<Event>, b: seq<Event>)
    ensures Contacts(a + b) == Contacts(a) + Contacts(b)
  {
    if a == [] {
      assert a + b == b;
    } else {
      assert (a + b)[1..] == a[1..] + b;
      ContactsAppend(a[1..], b);
    }
  }

  lemma {:induction false} WaitingsAppend(a: seq<Event>, b: seq<Event>)
    ensures Waitings(a + b) == Waitings(a) + Waitings(b)
  {
    if a == [] {
      assert a + b == b;
    } else {
      assert (a + b)[1..] == a[1..] + b;
      WaitingsAppend(a[1..], b);
    }
  }

  /** Console messages are not requests. */
  lemma {:induction false} ContactsOfLogs(s: seq<Event>)
    requires forall i :: 0 <= i < |s| ==> s[i].Log?
    ensures Contacts(s) == []
  {
    if s != [] {
      ContactsOfLogs(s[1..]);
    }
  }

  /** The waiting messages from `hi` down to `lo + 1` show exactly those seconds. */
  lemma {:induction false} WaitingsOfWaits(hi: nat, lo: nat)
    requires lo <= hi
    ensures Waitings(Waits(hi, lo)) == Descending(hi, lo)
    decreases hi - lo
  {
    if lo < hi {
      assert Waits(hi, lo)[1..] == Waits(hi - 1, lo);
      WaitingsOfWaits(hi - 1, lo);
    }
  }

  /** hi, hi - 1, ..., lo + 1. */
  function Descending(hi: int, lo: int): (r: seq<int>)
    requires lo <= hi
    ensures |r| == hi - lo
    ensures forall i :: 0 <= i < |r| ==> r[i] == hi - i
    decreases hi - lo
  {
    if lo == hi then [] else [hi] + Descending(hi - 1, lo)
  }

  lemma ContactsOne(e: Event)
    ensures Contacts([e]) == ContactOf(e)
  {
    assert [e][1..] == [];
  }

  lemma ContactsTwo(e: Event, f: Event)
    ensures Contacts([e, f]) == ContactOf(e) + ContactOf(f)
  {
    assert [e, f] == [e] + [f];
    ContactsAppend([e], [f]);
    ContactsOne(e);
    ContactsOne(f);
  }

  lemma ContactsThree(e: Event, f: Event, g: Event)
    ensures Contacts([e, f, g]) == ContactOf(e) + ContactOf(f) + ContactOf(g)
  {
    assert [e, f, g] == [e, f] + [g];
    ContactsAppend([e, f], [g]);
    ContactsTwo(e, f);
    ContactsOne(g);
  }

  /** testConnection makes one request, `signal_strength`. */
  lemma ConnectContacts(cfg: Settings, net: Network)
    ensures Contacts(TestConnection(cfg, net.signal).events) == [DeviceCall(SignalStrength)]
  {
    var call := CallEvent(cfg, SignalStrength, NoData);
    ContactsOne(call);
    ContactsTwo(call, Log(Connected(cfg.ip)));
  }

  /** unlockOTA asks `info`, and sends `ota_unlock` only to a locked device. */
  lemma UnlockContacts(cfg: Settings, net: Network)
    ensures Contacts(UnlockOta(cfg, net.info, net.unlock).events)
         == [DeviceCall(Info)] + (if Locked(net) then [DeviceCall(OtaUnlock)] else [])
  {
    var info := CallEvent(cfg, Info, NoData);
    var unlock := CallEvent(cfg, OtaUnlock, NoData);
    ContactsOne(info);
    ContactsTwo(info, Log(AlreadyUnlocked));
    ContactsTwo(info, unlock);
    ContactsThree(info, unlock, Log(Unlocked));
  }

  /** testFirmwareUrl makes one request, the GET on the firmware URL. */
  lemma FirmwareContacts(cfg: Settings, net: Network)
    ensures Contacts(TestFirmwareUrl(cfg, net.firmware).events) == [FirmwareHost]
  {
    var get := Get(cfg.firmwareUrl);
    ContactsOne(get);
    ContactsTwo(get, Log(FirmwarePassed));
    ContactsTwo(get, Log(FirmwareUnverified(cfg.firmwareUrl)));
    if net.firmware.TransportFailure? && net.firmware.response.Some? {
      var r := net.firmware.response.value;
      ContactsThree(get, Log(FirmwareUnverified(cfg.firmwareUrl)), Log(HttpError(r.status, r.statusText)));
    }
  }

  /** updateFirmware makes one request, `ota_flash`. */
  lemma FlashContacts(cfg: Settings, net: Network)
    ensures Contacts(UpdateFirmware(cfg, net.flash).events) == [DeviceCall(OtaFlash)]
  {
    ContactsTwo(Log(Flashing), CallEvent(cfg, OtaFlash, FlashData(cfg.firmwareUrl, cfg.sha256)));
  }

  /** What follows `run`'s own events is console output only. */
  lemma ConcludeTail(r: Step)
    ensures Conclude(r).events[..|r.events|] == r.events
    ensures forall i :: |r.events| <= i < |Conclude(r).events| ==> Conclude(r).events[i].Log?
  {
  }

  /** The requests of a session are those of its run. */
  lemma ConcludeContacts(r: Step)
    ensures Contacts(Conclude(r).events) == Contacts(r.events)
  {
    var events := Conclude(r).events;
    ConcludeTail(r);
    assert events == r.events + events[|r.events|..];
    ContactsAppend(r.events, events[|r.events|..]);
    ContactsOfLogs(events[|r.events|..]);
  }

  /** The requests of the cascade are those of each step reached, in order. */
  lemma CascadeContacts(connect: Step, unlock: Step, check: Step, flash: Step)
    ensures Contacts(Cascade(connect, unlock, check, flash).events)
         == Contacts(connect.events) + (if !connect.status.Continue? then [] else
            Contacts(unlock.events) + (if !unlock.status.Continue? then [] else
            Contacts(check.events) + (if !check.status.Continue? then [] else
            Contacts(flash.events))))
  {
    var c, u, k, f := connect.events, unlock.events, check.events, flash.events;
    if !connect.status.Continue? {
    } else if !unlock.status.Continue? {
      ContactsAppend(c, u);
    } else if !check.status.Continue? {
      ContactsAppend(c, u);
      ContactsAppend(c + u, k);
    } else {
      ContactsAppend(c, u);
      ContactsAppend(c + u, k);
      ContactsAppend(c + u + k, f);
    }
  }

  /** Each step continues exactly under its condition. */
  lemma StepsContinue(cfg: Settings, net: Network)
    ensures TestConnection(cfg, net.signal).status.Continue? <==> Connects(net)
    ensures UnlockOta(cfg, net.info, net.unlock).status.Continue? <==> Unlocks(net)
    ensures TestFirmwareUrl(cfg, net.firmware).status.Continue? <==> FirmwareAdmits(net.firmware)
    ensures UpdateFirmware(cfg, net.flash).status.Continue? <==> net.flash.Replied?
  {
  }

  /** The requests `run` makes are exactly the expected cascade. */
  lemma RunContacts(env: Env, net: Network)
    ensures Contacts(Run(env, net).events) == ExpectedContacts(env, net)
  {
    match Resolve(env)
    case Missing(m) =>
      ContactsOne(Log(PleasePass(m)));
    case Resolved(cfg) =>
      CascadeContacts(TestConnection(cfg, net.signal), UnlockOta(cfg, net.info, net.unlock),
        TestFirmwareUrl(cfg, net.firmware), UpdateFirmware(cfg, net.flash));
      StepsContinue(cfg, net);
      ConnectContacts(cfg, net);
      UnlockContacts(cfg, net);
      FirmwareContacts(cfg, net);
      FlashContacts(cfg, net);
  }

  /** The requests of a whole session are the expected cascade. */
  lemma LaunchContacts(env: Env, net: Network)
    ensures Contacts(Launch(env, net).events) == ExpectedContacts(env, net)
  {
    ConcludeContacts(Run(env, net));
    RunContacts(env, net);
  }

  /** The countdown's messages: a waiting message or the success message. */
  predicate TimerMessage(e: Event) {
    e.Log? && (e.message.Waiting? || e.message.Flashed?)
  }

  /** `run` itself prints no countdown message: those come from the timer alone. */
  predicate NoTimerMessages(events: seq<Event>) {
    forall e :: e in events ==> !TimerMessage(e)
  }

  /** Every device call among the events carries the request the settings prescribe. */
  predicate PostsCarry(cfg: Settings, events: seq<Event>) {
    forall e :: e in events && e.Post? ==> e.request == RequestFor(cfg, e.request.command)
  }

  lemma {:induction false} WaitingsNone(s: seq<Event>)
    requires NoTimerMessages(s)
    ensures Waitings(s) == []
  {
    if s != [] {
      assert s[0] in s;
      assert forall e :: e in s[1..] ==> e in s;
      WaitingsNone(s[1..]);
    }
  }

  lemma WaitingsOne(e: Event)
    ensures Waitings([e]) == SecondsOf(e)
  {
    assert [e][1..] == [];
  }

  /** The cascade's events are those of its steps. */
  lemma CascadeEvents(connect: Step, unlock: Step, check: Step, flash: Step, e: Event)
    requires e in Cascade(connect, unlock, check, flash).events
    ensures e in connect.events || e in unlock.events || e in check.events || e in flash.events
  {
  }

  /** `run` only prints its own messages, and each device call carries the settings. */
  lemma RunEvents(env: Env, net: Network)
    ensures NoTimerMessages(Run(env, net).events)
    ensures Resolve(env).Resolved? ==> PostsCarry(Resolve(env).settings, Run(env, net).events)
    ensures Resolve(env).Missing? ==> Run(env, net).events == [Log(PleasePass(Resolve(env).setting))]
  {
    match Resolve(env)
    case Missing(m) =>
    case Resolved(cfg) =>
      var connect, unlock := TestConnection(cfg, net.signal), UnlockOta(cfg, net.info, net.unlock);
      var check, flash := TestFirmwareUrl(cfg, net.firmware), UpdateFirmware(cfg, net.flash);
      forall e | e in Run(env, net).events
        ensures !TimerMessage(e)
        ensures e.Post? ==> e.request == RequestFor(cfg, e.request.command)
      {
        CascadeEvents(connect, unlock, check, flash, e);
      }
  }

  /** `run` returns normally exactly when every step lets it go on and `ota_flash` answered. */
  lemma RunContinues(env: Env, net: Network)
    ensures Run(env, net).status.Continue? <==> ReachesFlash(env, net) && net.flash.Replied?
  {
    if Resolve(env).Resolved? {
      StepsContinue(Resolve(env).settings, net);
    }
  }

  /**
   * The configuration gate: the run exits with status 1 exactly when a setting is unset
   * or empty, names the first such in the order IP_ADDRESS, DEVICE_ID, FIRMWARE_URL,
   * SHA_256, prints one message and contacts nothing.
   */
  lemma ConfigurationGate(env: Env, net: Network)
    ensures Launch(env, net).outcome.Exited? <==> exists s :: !Present(Lookup(env, s))
    ensures var session := Launch(env, net);
      session.outcome.Exited? ==>
        var m := session.outcome.missing;
        && session.outcome.code == 1
        && !Present(Lookup(env, m))
        && (forall s :: Rank(s) < Rank(m) ==> Present(Lookup(env, s)))
        && session.events == [Log(PleasePass(m))]
        && Contacts(session.events) == []
  {
    RunEvents(env, net);
    if Resolve(env).Missing? {
      ContactsOne(Log(PleasePass(Resolve(env).setting)));
    }
  }

  /** A failed connectivity test throws after the one `signal_strength` call: nothing else is asked. */
  lemma ConnectivityFailureHalts(env: Env, net: Network)
    requires Resolve(env).Resolved?
    requires net.signal.Replied? && ConnectionFails(net.signal.body)
    ensures Launch(env, net).outcome == Failed(ConnectionFailed)
    ensures Contacts(Launch(env, net).events) == [DeviceCall(SignalStrength)]
    ensures Launch(env, net).events[|Launch(env, net).events| - 1] == Log(Caught(ConnectionFailed))
  {
    LaunchContacts(env, net);
  }

  /** `ota_unlock` is sent once when `info` reports the device locked, and never otherwise. */
  lemma UnlockSentOnce(env: Env, net: Network)
    ensures multiset(Contacts(Launch(env, net).events))[DeviceCall(OtaUnlock)]
         == if Resolve(env).Resolved? && Connects(net) && Locked(net) then 1 else 0
  {
    LaunchContacts(env, net);
  }

  /** What `ota_unlock` answers does not matter, only that it answers. */
  lemma UnlockReplyIgnored(env: Env, net: Network, a: StatusBody, b: StatusBody)
    ensures Launch(env, net.(unlock := Replied(a))) == Launch(env, net.(unlock := Replied(b)))
  {
  }

  /** What `ota_flash` answers does not matter, only that it answers. */
  lemma FlashReplyIgnored(env: Env, net: Network, a: StatusBody, b: StatusBody)
    ensures Launch(env, net.(flash := Replied(a))) == Launch(env, net.(flash := Replied(b)))
  {
  }

  /** `ota_flash` is sent exactly when every earlier step let the run go on. */
  lemma FlashGate(env: Env, net: Network)
    ensures DeviceCall(OtaFlash) in Contacts(Launch(env, net).events) <==> ReachesFlash(env, net)
  {
    LaunchContacts(env, net);
  }

  /** The requests of a run that reaches the flash, in order. */
  lemma CallOrder(env: Env, net: Network)
    requires ReachesFlash(env, net)
    ensures Contacts(Launch(env, net).events)
         == [DeviceCall(SignalStrength), DeviceCall(Info)]
          + (if Locked(net) then [DeviceCall(OtaUnlock)] else [])
          + [FirmwareHost, DeviceCall(OtaFlash)]
  {
    LaunchContacts(env, net);
  }

  /** A header check that fails is thrown as a string: the run stops and nothing is flashed. */
  lemma HeaderFailureHalts(env: Env, net: Network)
    requires Resolve(env).Resolved? && Connects(net) && Unlocks(net)
    requires net.firmware.Fetched?
    requires CheckHeaders(net.firmware.contentType, net.firmware.acceptRanges).Some?
    ensures var e := CheckHeaders(net.firmware.contentType, net.firmware.acceptRanges).value;
      Launch(env, net).outcome == Failed(BadHeader(e)) && IsThrownString(BadHeader(e))
    ensures DeviceCall(OtaFlash) !in Contacts(Launch(env, net).events)
  {
    StepsContinue(Resolve(env).settings, net);
    FlashGate(env, net);
  }

  /** A firmware GET that fails without a header verdict is only reported: the flash still goes out. */
  lemma TransportFailureTolerated(env: Env, net: Network)
    requires Resolve(env).Resolved? && Connects(net) && Unlocks(net)
    requires net.firmware.TransportFailure?
    ensures Log(FirmwareUnverified(Resolve(env).settings.firmwareUrl)) in Launch(env, net).events
    ensures DeviceCall(OtaFlash) in Contacts(Launch(env, net).events)
    ensures Launch(env, net).outcome.Completed? <==> net.flash.Replied?
  {
    var cfg := Resolve(env).settings;
    StepsContinue(cfg, net);
    FlashGate(env, net);
    RunContinues(env, net);
    var check := TestFirmwareUrl(cfg, net.firmware);
    assert Log(FirmwareUnverified(cfg.firmwareUrl)) in check.events;
  }

  /**
   * Every device call goes to the configured device with the configured id; `ota_flash`
   * carries the firmware URL and checksum and every other call an empty `data`.
   */
  lemma RequestsCarryConfiguration(env: Env, net: Network)
    ensures forall e :: e in Launch(env, net).events && e.Post? ==>
      Resolve(env).Resolved? && e.request == RequestFor(Resolve(env).settings, e.request.command)
  {
    RunEvents(env, net);
    ConcludePosts(Run(env, net));
  }

  /**
   * In any session, the `ota_flash` request goes to `zeroconf/ota_flash` on port 8081 of
   * the configured device and carries the device id, the firmware URL and the checksum;
   * every other device call's `data` is empty.
   */
  lemma FlashRequest(env: Env, net: Network)
    ensures forall e :: e in Launch(env, net).events && e.Post? && e.request.command == OtaFlash ==>
      var cfg := Resolve(env).settings;
      Url(e.request) == "http://" + cfg.ip + ":8081/zeroconf/ota_flash" &&
      e.request.body == Body(cfg.deviceId, FlashData(cfg.firmwareUrl, cfg.sha256))
    ensures forall e :: e in Launch(env, net).events && e.Post? && e.request.command != OtaFlash ==>
      e.request.body == Body(Resolve(env).settings.deviceId, NoData)
  {
    RequestsCarryConfiguration(env, net);
    if Resolve(env).Resolved? {
      var cfg := Resolve(env).settings;
      var prefix := "http://" + cfg.ip + ":";
      assert prefix + DevicePort + "/zeroconf/" + "ota_flash" == prefix + "8081/zeroconf/ota_flash";
      assert "http://" + cfg.ip + ":8081/zeroconf/ota_flash" == prefix + "8081/zeroconf/ota_flash";
    }
  }

  /** Two device calls of a session with different commands go to different endpoints. */
  lemma EndpointsDistinct(env: Env, net: Network)
    ensures forall d, e :: d in Launch(env, net).events && d.Post? && e in Launch(env, net).events && e.Post? ==>
      (Url(d.request) == Url(e.request) <==> d.request.command == e.request.command)
  {
    RequestsCarryConfiguration(env, net);
    forall d, e | d in Launch(env, net).events && d.Post? && e in Launch(env, net).events && e.Post?
      ensures Url(d.request) == Url(e.request) <==> d.request.command == e.request.command
    {
      var host := "http://" + d.request.ip + ":" + DevicePort + "/zeroconf/";
      assert d.request.ip == e.request.ip;
      if Url(d.request) == Url(e.request) {
        assert (host + Path(d.request.command))[|host|..] == Path(d.request.command);
        assert (host + Path(e.request.command))[|host|..] == Path(e.request.command);
        PathsDistinct(d.request.command, e.request.command);
      }
    }
  }

  /** The device calls of a session are those of its run. */
  lemma ConcludePosts(r: Step)
    ensures forall e :: e in Conclude(r).events && e.Post? ==> e in r.events
  {
    forall e | e in Conclude(r).events && e.Post?
      ensures e in r.events
    {
      ConcludeTail(r);
      var i :| 0 <= i < |Conclude(r).events| && Conclude(r).events[i] == e;
      assert e == r.events[i];
    }
  }

  /**
   * The countdown: a session that completes prints the waiting messages for 30 down to 1
   * and then the success message, which is its last event; any other session prints
   * none of them.
   */
  lemma CountdownMessages(env: Env, net: Network)
    ensures Launch(env, net).outcome.Completed? <==> ReachesFlash(env, net) && net.flash.Replied?
    ensures Waitings(Launch(env, net).events)
         == if Launch(env, net).outcome.Completed? then Descending(CountdownStart, 0) else []
    ensures var events := Launch(env, net).events;
      Launch(env, net).outcome.Completed? ==>
        events[|events| - 1] == Log(Flashed) && forall i :: 0 <= i < |events| - 1 ==> events[i] != Log(Flashed)
    ensures !Launch(env, net).outcome.Completed? ==> Log(Flashed) !in Launch(env, net).events
  {
    RunContinues(env, net);
    RunEvents(env, net);
    ConcludeCountdown(Run(env, net));
  }

  /** The countdown's messages in a session whose run printed none of its own. */
  lemma ConcludeCountdown(r: Step)
    requires NoTimerMessages(r.events)
    ensures Waitings(Conclude(r).events) == if r.status.Continue? then Descending(CountdownStart, 0) else []
    ensures var events := Conclude(r).events;
      r.status.Continue? ==>
        events[|events| - 1] == Log(Flashed) && forall i :: 0 <= i < |events| - 1 ==> events[i] != Log(Flashed)
    ensures !r.status.Continue? ==> Log(Flashed) !in Conclude(r).events
  {
    WaitingsNone(r.events);
    match r.status
    case Continue =>
      assert Conclude(r).events == r.events + (Waits(CountdownStart, 0) + [Log(Flashed)]);
      TimerTail(r.events, CountdownStart);
    case Exit(_, _) =>
      assert Conclude(r).events == r.events;
    case Throw(f) =>
      assert Conclude(r).events == r.events + [Log(Caught(f))];
      WaitingsAppend(r.events, [Log(Caught(f))]);
      WaitingsOne(Log(Caught(f)));
  }

  /** A timer of `n` ticks after a quiet prefix: `n` down to 1, then the success message, last. */
  lemma TimerTail(prefix: seq<Event>, n: nat)
    requires NoTimerMessages(prefix)
    ensures Waitings(prefix + (Waits(n, 0) + [Log(Flashed)])) == Descending(n, 0)
    ensures var events := prefix + (Waits(n, 0) + [Log(Flashed)]);
      forall i :: 0 <= i < |events| - 1 ==> events[i] != Log(Flashed)
  {
    WaitingsNone(prefix);
    WaitingsAppend(prefix, Waits(n, 0) + [Log(Flashed)]);
    WaitingsAppend(Waits(n, 0), [Log(Flashed)]);
    WaitingsOne(Log(Flashed));
    WaitingsOfWaits(n, 0);
    var events := prefix + (Waits(n, 0) + [Log(Flashed)]);
    forall i | 0 <= i < |events| - 1
      ensures events[i] != Log(Flashed)
    {
      if i < |prefix| {
        assert events[i] == prefix[i];
        assert prefix[i] in prefix;
      } else {
        assert events[i] == Waits(n, 0)[i - |prefix|];
      }
    }
  }
}
