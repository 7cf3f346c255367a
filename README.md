# sonoff-flash: the flashing workflow, modelled in Dafny

`flash.js` flashes custom firmware onto a Sonoff device in DIY mode. It goes
through the device's local `zeroconf` HTTP API in five steps. Each step runs
only if the previous one did not exit or throw. A firmware GET that fails in
transport or with an HTTP error status is only logged, and the run goes on:

1. check the four settings `IP_ADDRESS`, `DEVICE_ID`, `FIRMWARE_URL` and `SHA_256`;
2. test the connection with `signal_strength`;
3. read `info` and send `ota_unlock` if the device is not yet unlocked;
4. check the firmware URL's `content-type` and `accept-ranges` headers;
5. send `ota_flash`, then count down for 30 seconds.

The model treats the network as an input. The device's answers and the outcome
of the firmware GET are a `Network` value. What the outside world observes is
a trace of events:

- each device call, as the request `call` posts;
- the firmware GET;
- each console message, as its kind and parameters.

Modules:

- `Config`: the settings. It gives JavaScript truthiness of the environment
  values (`Present`), finds the first missing setting (`FirstMissing`) and
  turns a complete environment into `Settings` (`Resolve`).
- `Device`: the commands and their endpoint paths. It also holds the request
  `{deviceid, data}` that `call` posts, the reply shapes, and the two
  decisions taken on replies:
  - `ConnectionFails` is `!test || test.error`;
  - `NeedsUnlock` is `!info.data.otaUnlock`.
- `Firmware`: the header check `CheckHeaders` and the outcome of the GET.
- `Workflow`: each function of `flash.js` as a pure function. It returns the
  events that step produces and whether the run goes on, exits or throws.
  - `Run` chains the steps.
  - `Conclude` adds what happens after `run` settles: the top-level `catch`
    logs a thrown error, and a run that returned normally lets its countdown
    timer fire.
  - `Launch` is the whole script.
- `FlashScript`: the script as a class `Flasher`. The class has:
  - the observable `log`;
  - the global counter `s`;
  - whether the interval timer is armed.

  Its methods are the source functions written step by step. Each one is
  proved to append exactly the events of its `Workflow` counterpart. `Tick` is
  the interval callback; `RunTimer` is the event loop that keeps firing it
  until the callback clears the timer.
- `Properties`: what the whole session guarantees. It covers:
  - which requests are made, and in what order;
  - what the requests carry;
  - which failures stop the run and which do not;
  - what the countdown prints.

  Two projections of the event trace are used: `Contacts`, the network
  requests, and `Waitings`, the seconds shown by the waiting messages.

Every device call can also be rejected: a transport error, an HTTP error
status, or a `data` string that does not parse. The rejection propagates out
of `run` to the top-level `catch`, so the model has a `Rejected` reply for
each call. Reading `data.otaUnlock` from an `info` reply without `data` raises
a `TypeError`. The model records this as the failure `MalformedInfo`, which
also ends in the `catch`.

## Model

| member | source | states |
|---|---|---|
| Config.FirstMissing | flash.js:8-24 | no setting is reported exactly when all four are set and non-empty; a reported setting is unset or empty, and every setting checked before it is present |
| Config.Resolve | flash.js:3-24 | the check stops exactly when a setting is missing, at the first missing one; otherwise the four values are the environment's, all non-empty |
| Device.PathsDistinct | flash.js:111-113 | two commands are posted to the same `zeroconf` path only if they are the same command |
| Firmware.CheckHeaders | flash.js:57-65 | passes iff content-type is `application/octet-stream` and accept-ranges is `bytes`; content-type is checked first, so a wrong content-type is reported whatever accept-ranges is |
| FlashScript.Flasher.constructor | flash.js:3-6 | the script starts with the environment and the network answers fixed, an empty trace and no timer |
| FlashScript.Flasher.Call | flash.js:111-113 | a device call appends one POST carrying the settings' IP address, the command, the device id and the payload |
| FlashScript.Flasher.MissingEnv | flash.js:26-29 | prints the remediation for the setting and ends the process with status 1 |
| FlashScript.Flasher.EnsureEnv | flash.js:8-24 | checks the settings in order and appends exactly the events of `Workflow.EnsureEnv`: the message for the first missing setting and exit 1, or nothing |
| FlashScript.Flasher.TestConnection | flash.js:31-39 | appends exactly the events of `Workflow.TestConnection` and returns its status: one `signal_strength` call, then a throw on a falsy body or a truthy `error`, otherwise the success message |
| FlashScript.Flasher.UnlockOta | flash.js:41-51 | appends exactly the events of `Workflow.UnlockOta`: the `info` call, and `ota_unlock` only when `otaUnlock` is not true |
| FlashScript.Flasher.TestFirmwareUrl | flash.js:53-77 | appends exactly the events of `Workflow.TestFirmwareUrl`: the GET, then a re-thrown header error, or the logged transport or HTTP error and carry on |
| FlashScript.Flasher.UpdateFirmware | flash.js:79-89 | appends the announcement and the `ota_flash` call; on a reply, sets `s` to 30 and arms the timer, which is left untouched when the call is rejected |
| FlashScript.Flasher.Tick | flash.js:89-96 | prints the waiting message for `s` and decrements `s`; at zero, prints the success message and clears the timer |
| FlashScript.Flasher.RunTimer | flash.js:89-96 | an armed timer runs until it clears itself, appending the waiting messages from `s` down to 1 and then the success message, and leaves `s` at 0; an unarmed one appends nothing and leaves `s` as it was |
| FlashScript.Flasher.Run | flash.js:99-109 | the configuration check, then the network steps only if it passed; the trace and the status are those of `Workflow.Run`, and the timer is armed exactly when `run` returns normally, with `s` at 30; otherwise `s` is unchanged |
| FlashScript.Flasher.Proceed | flash.js:102-108 | the four awaited steps in order, stopping at the first that throws; the trace and the status are those of `Workflow.Proceed`, and the timer is armed exactly when the last step returns normally, with `s` at 30; otherwise `s` is unchanged |
| FlashScript.Flasher.Launch | flash.js:123-131 | `run`, then the `catch` that logs a thrown failure, then the timer's ticks; the trace and the outcome are those of `Workflow.Launch`; the timer ends cleared, with `s` at 0 after a completed session and unchanged otherwise |
| Properties.ConfigurationGate | flash.js:8-29 | the session exits iff some setting is unset or empty; it then exits with status 1, names the first missing setting in the order IP_ADDRESS, DEVICE_ID, FIRMWARE_URL, SHA_256, prints one message and makes no request |
| Properties.ConnectivityFailureHalts | flash.js:31-36 | a falsy `signal_strength` body or a truthy `error` fails the session with the connection error after that one request, which the `catch` logs last |
| Properties.UnlockSentOnce | flash.js:41-51 | `ota_unlock` is requested once when the run reaches `info` and `otaUnlock` is not true, and never otherwise |
| Properties.UnlockReplyIgnored | flash.js:49-50 | any two `ota_unlock` replies lead to the same session |
| Properties.HeaderFailureHalts | flash.js:57-70 | a failed header check is thrown as a string, fails the session with that header error and no `ota_flash` is sent |
| Properties.TransportFailureTolerated | flash.js:67-76 | a firmware GET that fails in transport is reported and the run still sends `ota_flash`, completing iff the device answers it |
| Properties.FlashGate | flash.js:99-109 | `ota_flash` is requested iff the configuration is complete, the connection test passes, the unlock step completes and the firmware check does not throw |
| Properties.CallOrder | flash.js:99-109 | a run that reaches the flash requests `signal_strength`, `info`, `ota_unlock` only if locked, the firmware GET, then `ota_flash`, and nothing else |
| Properties.LaunchContacts | flash.js:99-131 | the requests of any session are exactly the cascade `ExpectedContacts` of the step conditions |
| Properties.RunContacts | flash.js:99-109 | the requests `run` makes are exactly the cascade `ExpectedContacts` |
| Properties.FlashRequest | flash.js:83-86 | in any session, an `ota_flash` request is posted to `http://<ip>:8081/zeroconf/ota_flash` of the configured device with body `{deviceid, data: {downloadUrl, sha256sum}}` from the settings; every other device call's `data` is empty |
| Properties.EndpointsDistinct | flash.js:111-113 | two device calls of a session go to the same URL exactly when they carry the same command |
| Properties.RequestsCarryConfiguration | flash.js:111-113 | every device call in a session carries the configured IP address and device id, and the payload its command prescribes |
| Properties.FlashReplyIgnored | flash.js:83-88 | any two `ota_flash` replies lead to the same session |
| Properties.CountdownMessages | flash.js:88-96 | a session completes iff it reaches the flash and `ota_flash` answers; it then shows the waiting messages 30 down to 1, and the success message comes last and only once; any other session shows none of them |
| Properties.ConcludeCountdown | flash.js:88-96 | after a run that printed no countdown message, the waiting messages are 30 down to 1 and the success message comes last, exactly when the run returned normally |
| Properties.TimerTail | flash.js:89-96 | a timer of `n` ticks after other output shows the seconds `n` down to 1, and its success message appears only at the end |
| Properties.RunContinues | flash.js:99-109 | `run` returns normally iff every step before the flash continues and `ota_flash` answers |
| Properties.StepsContinue | flash.js:31-86 | each step continues exactly under its condition: connection passes, unlock completes, headers pass or the GET failed in transport, `ota_flash` answers |
| Properties.RunEvents | flash.js:99-109 | `run` itself prints no countdown message; every device call it makes carries the settings; with a missing setting it only prints that setting's message |
| Properties.ConcludeContacts | flash.js:123-131 | the `catch` and the timer add console output only, no request |
| Properties.ConcludePosts | flash.js:123-131 | every device call of a session is one that `run` made |
| Properties.ConnectContacts | flash.js:31-39 | `testConnection` makes the one request `signal_strength` |
| Properties.UnlockContacts | flash.js:41-51 | `unlockOTA` requests `info`, then `ota_unlock` only for a locked device |
| Properties.FirmwareContacts | flash.js:53-77 | `testFirmwareUrl` makes one request, the GET on the firmware URL |
| Properties.FlashContacts | flash.js:79-86 | `updateFirmware` makes one request, `ota_flash` |
| Properties.CascadeContacts | flash.js:99-109 | the requests of the chained steps are those of each step reached, in order |
| Properties.WaitingsOfWaits | flash.js:89-91 | the waiting messages from `hi` down to `lo + 1` show exactly those seconds |

## Left out

- The axios transport is not modelled (flash.js:113-120), because it is a foreign library. Each reply or rejection is an input.
- The JSON decoding of the nested `data` string is not modelled either. A `data` that does not parse makes the call reject, so it is covered by `Rejected`.
- `process.env` is an input, `Env`. `process.exit(1)` becomes the `Exit` status, which ends the run.
- Console text is not modelled. Messages are recorded as their kind and parameters.
- The exit status after the top-level `catch` has logged an error is not modelled. Node leaves it at 0, and the model's `Failed` outcome carries no status.
- The 1000 ms interval is not modelled, because wall-clock time is outside Dafny. Instead, the timer's ticks come after everything `run` and the `catch` did. This is the order in which they happen: `run` returns as soon as the timer is armed.
- Loose `!=` coercion on headers is not modelled. Headers are optional strings compared by equality.
- `error` is modelled as absent or a number, so string, boolean and object values are not covered.
- `otaUnlock` is modelled as absent or a boolean, so other truthy values such as `1` or `"yes"` are not covered.
- A truthy non-object `signal_strength` body is not covered.
- A request that never settles is not modelled. The axios calls (flash.js:32, 42, 49, 55, 83) have no timeout, but in the model every device call and the firmware GET either answers or rejects, so every session ends.
