# Avnet Azure Sphere starter-kit agent, modelled in Dafny

This project models the decision logic of the Avnet Azure Sphere starter-kit
reference agent. The agent is a device program that keeps a set of board GPIO
lines (five LEDs and two click-board relays) in step with the desired
properties of an Azure IoT device twin. It reports each applied change back,
answers two direct methods, sends button-press telemetry and reports its
network configuration. The model is split into modules that follow the
program's files:

- `DeviceTwin` (`device_twin.dfy`) covers `device_twin.c`. It holds the
  registry `twinArray` and its value slots, the eight `snprintf` templates of
  `checkAndUpdateDeviceTwin` in the plain and the acknowledgement (IoT
  Central) dialect, and `deviceTwinChangedHandler`. The handler is a class
  method with a loop; `Reconcile` is the function that specifies it.
- `DirectMethods` (`direct_method.dfy`) covers `DirectMethodCall` and
  `SetupHeapMessage` from `main.c`. Replies carry the HTTP status codes 200,
  400 and 404 (sections 15.3.1, 15.5.1 and 15.5.5 of RFC 9110).
- `Buttons` (`buttons.dfy`) covers `ButtonTimerEventHandler` from `main.c`:
  edge detection on two active-low buttons.
- `Agent` (`main_loop.dfy`) covers the rest of `main.c` that is in scope:
  - the twin GPIO-open loop of `InitPeripheralsAndHandlers`;
  - the bssid text;
  - the "report the network configuration when it changes, the version
    string once" rule of `main`'s loop.
- `AzureIoT` (`azure_iot.dfy`) covers the adapter in
  `azure_iot_utilities.c`:
  - the client handle and the callback slots;
  - the decisions of the SDK callbacks;
  - the sticky reason string;
  - the throttled log line;
  - the null-handle guards.
- `Platform`, `Json` and `Base` hold the collaborators and helpers:
  - GPIO, timer and process-flag objects, whose outcomes are given as
    oracles;
  - an abstract parsed JSON value, with parson's accessors as their
    documented results;
  - decimal rendering and parsing of integers.

SDK calls are not executed. What the SDK would receive is recorded in the
`Client` fields `handedReports` and `handedMessages`. The build switch
`IOT_CENTRAL_APPLICATION` is a parameter (`iotCentralBuild`), and so is the
switch that compiles the cloud code in `main` (`cloudBuild`).

Where the source and its design description disagree, the model follows the
source:

- Oversized payloads. The description says a payload that *exceeds* 32 bytes
  is refused. The code refuses 32 bytes or more (`payloadSize < 32`).
- Reports after a failed write. The description says a report is sent after
  a *successful* apply. The code reports a boolean key even when its GPIO
  write failed. It sets the termination flag and carries on.
- Oversized reports. The description says such a report is dropped. The code
  hands over the truncated buffer with the untruncated length (see Findings).
  `CheckAndUpdateAsWritten` models the code, and every report the handler and
  `main` make goes through it. `CheckAndUpdateDeviceTwin` is the corrected
  encoder, which drops the report as described. `CorrectedAgreesWhenFitting`
  proves the two hand over the same bytes whenever the report fits. For the
  handler, `TwinArrayReportsAllFit` shows every report fits for the agent's
  own registry and a C `int` version.
- Choice of dialect. The description calls the dialect a start-up choice. In
  the code, the handler always asks for the acknowledgement format, and only
  an IoT Central build honours it. `main` always asks for the plain format.

The stateful model (`TwinState`, `MainLoop` and the functions that specify
them) runs the code as written, including the two defects listed under
Findings. The corrected definitions stand beside it, and lemmas state where
the two agree and where they differ.

## Model

| member | source | states |
|---|---|---|
| DeviceTwin.TwinArray | AvnetStarterKitReferenceDesign/device_twin.c:64-71 | seven entries with distinct keys, all boolean and GPIO-bound; the five LEDs are active-low and the two relays active-high |
| DeviceTwin.InitialSlots | AvnetStarterKitReferenceDesign/device_twin.c:25-31 | one initial value per registry entry, of that entry's kind |
| DeviceTwin.ReportDialect | AvnetStarterKitReferenceDesign/device_twin.c:94-100 | the acknowledgement template is used exactly when the build is an IoT Central build and the caller asks for it |
| DeviceTwin.CheckAndUpdateAsWritten | AvnetStarterKitReferenceDesign/device_twin.c:79-138 | as written: nothing for a NULL property; otherwise the buffer holds the template cut to at most 127 characters, and the size handed over is the full template length; the size equals the buffer length iff the template fits |
| DeviceTwin.OversizedReportOverreads | AvnetStarterKitReferenceDesign/device_twin.c:132-135 | for any version string of 107 characters or more the buffer is the first 127 characters of the template and the size is 21 plus the string length; from 108 characters the size exceeds the 128-byte allocation |
| DeviceTwin.CheckAndUpdateDeviceTwin | AvnetStarterKitReferenceDesign/device_twin.c:79-138 | corrected encoder: a report exists iff the property is non-NULL and the whole template fits with its NUL; it is then exactly the template and non-empty |
| DeviceTwin.CorrectedAgreesWhenFitting | AvnetStarterKitReferenceDesign/device_twin.c:132-135 | whenever the corrected encoder reports, the as-written one hands over the same bytes and the same size |
| DeviceTwin.AppLedExample | AvnetStarterKitReferenceDesign/device_twin.c:46-100 | the plain boolean template renders `{"appLed": false}` |
| DeviceTwin.ValueToken | AvnetStarterKitReferenceDesign/device_twin.c:44-51 | a boolean or integer prints the same token in both dialects, and that token parses back to the value |
| DeviceTwin.DecodeTemplate | AvnetStarterKitReferenceDesign/device_twin.c:44-52 | round trip: a boolean or integer report reads back as its key, its value and, in the acknowledgement dialect, the desired version |
| DeviceTwin.TwinArrayReportsFit | AvnetStarterKitReferenceDesign/device_twin.c:64-71 | every registry key's boolean report fits the 128-byte buffer in both dialects when the version is a C `int` |
| DeviceTwin.NextVersion | AvnetStarterKitReferenceDesign/device_twin.c:149-152 | `$version` is stored, truncated, only when present; otherwise the old version is kept |
| DeviceTwin.StaleVersionOverwrites | AvnetStarterKitReferenceDesign/device_twin.c:149-152 | no ordering check: any sent `$version` replaces the stored one, an older one included |
| DeviceTwin.ReadBool | AvnetStarterKitReferenceDesign/device_twin.c:161-201 | the plain dialect reads the key's boolean, the acknowledgement dialect the `"value"` inside the key's object; anything that is not a boolean reads as true (parson's -1 cast to bool) |
| DeviceTwin.ReadInt | AvnetStarterKitReferenceDesign/device_twin.c:182-218 | the number at the key (plain) or at its nested `"value"` (acknowledgement), truncated to int; 0 when it is not a number |
| DeviceTwin.Polarity | AvnetStarterKitReferenceDesign/device_twin.c:202 | the line is driven high iff the logical value equals the entry's active-high flag |
| DeviceTwin.ProcessedSlots | AvnetStarterKitReferenceDesign/device_twin.c:194-227 | each processed slot holds its own entry's effect; unprocessed slots are untouched |
| DeviceTwin.ReconcileSlots | AvnetStarterKitReferenceDesign/device_twin.c:194-227 | a present boolean key's slot takes the document's boolean and a present integer key's slot its truncated number; absent keys and text entries keep their slot; slot kinds are kept |
| DeviceTwin.ProcessedFailed | AvnetStarterKitReferenceDesign/device_twin.c:204-208 | the handler escalates iff some present boolean key's descriptor refused its write |
| DeviceTwin.ProcessedWrites | AvnetStarterKitReferenceDesign/device_twin.c:200-202 | the GPIO writes are one per present boolean key, in array order, to that entry's descriptor at the polarity-rule level |
| DeviceTwin.ProcessedReports | AvnetStarterKitReferenceDesign/device_twin.c:194-227 | when keys are quote-free and reports fit: exactly one report per present boolean or integer key, in array order; each is handed over with its size equal to its buffer length and reads back as key, new value and version; none for absent keys or text entries |
| DeviceTwin.TwinArrayReportsAllFit | AvnetStarterKitReferenceDesign/device_twin.c:64-71 | for the agent's registry and a C `int` version, the preconditions of ProcessedReports hold for every document and dialect |
| DeviceTwin.ProcessedIgnoresOldSlots | AvnetStarterKitReferenceDesign/device_twin.c:194-227 | the writes, reports and escalation do not depend on the slots' previous values |
| DeviceTwin.ReconcileIdempotent | AvnetStarterKitReferenceDesign/device_twin.c:144-230 | applying the same document twice keeps the version and the slots, and repeats the same writes and reports |
| DeviceTwin.TwinState.ChangedHandler | AvnetStarterKitReferenceDesign/device_twin.c:144-230 | the new version is NextVersion; the slots, GPIO log, handed reports and termination flag are those Reconcile gives |
| DeviceTwin.TwinState.ApplyAll | AvnetStarterKitReferenceDesign/device_twin.c:194-227 | the loop over the registry, in array order, ends in the state Processed gives for all entries |
| DeviceTwin.TwinState.ApplyOne | AvnetStarterKitReferenceDesign/device_twin.c:196-225 | one pass of the loop changes slot i, the GPIO log, the reports and the flag as ApplyEntry says, and nothing else |
| DeviceTwin.TwinState.Report | AvnetStarterKitReferenceDesign/device_twin.c:132-135 | when the client handle exists, the as-written buffer is handed over with snprintf's untruncated length as its size, oversized or not |
| DeviceTwin.LoopStateStep | AvnetStarterKitReferenceDesign/device_twin.c:194-227 | applying entry i to the loop state for [0, i) gives the loop state for [0, i + 1) |
| DirectMethods.SetupHeapMessage | AvnetStarterKitReferenceDesign/main.c:122-133 | the message is the formatted text cut to at most maxLength - 1 characters; it is whole when shorter than maxLength |
| DirectMethods.CStringLength | AvnetStarterKitReferenceDesign/main.c:182 | strlen: the characters before the first NUL, all of them when there is none |
| DirectMethods.RequestedPollTime | AvnetStarterKitReferenceDesign/main.c:208-223 | no poll time when the payload did not parse or is not an object; otherwise `pollTime` truncated to int, 0 when missing |
| DirectMethods.Dispatch | AvnetStarterKitReferenceDesign/main.c:147-290 | 400 iff the payload has 32 bytes or more or is a bad poll-time request; 404 iff the name is unknown and the payload small; 200 otherwise; halts iff haltApplication; re-arms the timer iff a valid poll time; each reply's size is its strlen |
| DirectMethods.HaltResponseWhole | AvnetStarterKitReferenceDesign/main.c:176-182 | the halt response is sent whole and its size is its length |
| DirectMethods.PayloadErrorResponseWhole | AvnetStarterKitReferenceDesign/main.c:277-288 | the payload-error response is sent whole and its size is its length |
| DirectMethods.NotFoundNamesMethod | AvnetStarterKitReferenceDesign/main.c:252-259 | the 404 response names the method in full |
| DirectMethods.PollTimeEchoes | AvnetStarterKitReferenceDesign/main.c:232-240 | the 200 response echoes the poll time, which parses back to n |
| DirectMethods.Int32PollTimeFits | AvnetStarterKitReferenceDesign/main.c:233-236 | the buffer bound always leaves room for any C `int` poll time |
| DirectMethods.LargePayloadBeatsUnknownName | AvnetStarterKitReferenceDesign/main.c:153 | an unknown method with a 32-byte payload gets 400, not 404 |
| DirectMethods.DirectMethodCall | AvnetStarterKitReferenceDesign/main.c:147-290 | the reply and the termination flag are those Dispatch gives, whatever the timer does; the accelerometer timer takes the new period when Dispatch gives one and the re-arm succeeds, and keeps its old period otherwise (the result of `SetTimerFdToPeriod` is ignored) |
| Buttons.PressMessages | AvnetStarterKitReferenceDesign/main.c:102 | the press telemetry is `{"buttonA":"0"}` or `{"buttonB":"0"}`, and the two differ |
| Buttons.PressMessage | AvnetStarterKitReferenceDesign/main.c:319-329 | a button sends a message iff it went from High to Low |
| Buttons.ButtonTick | AvnetStarterKitReferenceDesign/main.c:297-383 | a timer or read failure escalates and sends nothing; button A's state is stored before B is read; otherwise A's press message then B's |
| Buttons.PressLostOnBFailure | AvnetStarterKitReferenceDesign/main.c:310-339 | whatever B's levels, a failed read of B loses a press of A found in the same poll: nothing is sent, A is stored Low, and the next poll that reads A Low sends no press of A |
| Buttons.RunEndsAtLastReadings | AvnetStarterKitReferenceDesign/main.c:327-351 | after a run of successful polls the stored states are the last readings |
| Buttons.RunCountsPresses | AvnetStarterKitReferenceDesign/main.c:319-377 | over a run of successful polls each button sends exactly one message per High-to-Low change |
| Buttons.ButtonPoller.TimerEvent | AvnetStarterKitReferenceDesign/main.c:297-383 | the stored states, the messages handed to the SDK and the termination flag are those ButtonTick gives |
| Agent.InactiveLevel | AvnetStarterKitReferenceDesign/main.c:417 | a line opens at the level that means "off": Low iff active-high |
| Agent.FirstOpenFailure | AvnetStarterKitReferenceDesign/main.c:409-424 | the first entry whose open fails, with no failure before it; the registry length when none fails |
| Agent.OpensAreInactive | AvnetStarterKitReferenceDesign/main.c:409-424 | every open is of a GPIO-bound entry, at its inactive level |
| Agent.TwinArrayOpens | AvnetStarterKitReferenceDesign/main.c:409-424 | for the agent's registry: LEDs open High, relays open Low, in array order |
| Agent.InitTwinGpios | AvnetStarterKitReferenceDesign/main.c:409-424 | returns 0 iff no open fails and -1 otherwise; opens entries up to and including the first failure, in order; stores each opened descriptor and leaves later ones alone |
| Agent.OpenTwinGpios | AvnetStarterKitReferenceDesign/main.c:409-424 | the loop itself: status, opens and descriptors as InitTwinGpios states them |
| Agent.ParseHex2OfHex2 | AvnetStarterKitReferenceDesign/main.c:528-530 | `%02x` of a byte reads back as the byte |
| Agent.ParsePairsOfHexPairs | AvnetStarterKitReferenceDesign/main.c:528-530 | colon-joined byte pairs read back as the bytes |
| Agent.BssidRoundTrip | AvnetStarterKitReferenceDesign/main.c:528-530 | the 17-character bssid text reads back as the six bytes |
| Agent.StrncmpMissesPrefixes | AvnetStarterKitReferenceDesign/main.c:532 | strncmp never reports a change that did not happen, and it misses exactly a new SSID that is a proper prefix of the stored one |
| Agent.PrefixSsidChangeMissed | AvnetStarterKitReferenceDesign/main.c:532 | "HomeNet2" to "HomeNet" is a change that strncmp does not see |
| Agent.NetworkStepAsWritten | AvnetStarterKitReferenceDesign/main.c:521-547 | as written: frequency and bssid always refreshed; the SSID is stored and reported iff strncmp finds a difference or nothing was sent yet, otherwise the old SSID is kept |
| Agent.NetworkStep | AvnetStarterKitReferenceDesign/main.c:521-547 | corrected step: frequency and bssid always refreshed; the SSID is stored and reported iff it changed or nothing was sent yet |
| Agent.AsWrittenStepAgrees | AvnetStarterKitReferenceDesign/main.c:532 | the as-written and corrected steps differ exactly when a configuration was sent and the new SSID is a proper prefix of the stored one |
| Agent.RoamToPrefixUnreported | AvnetStarterKitReferenceDesign/main.c:532-546 | the as-written step does not report the roam to a prefix SSID; the corrected one does |
| Agent.SameNetworkIsQuiet | AvnetStarterKitReferenceDesign/main.c:532-546 | a second pass on the same network reports nothing and changes nothing, with the corrected test and with strncmp |
| Agent.Iterate | AvnetStarterKitReferenceDesign/main.c:519-555 | one pass as written: the network state is the strncmp step's, versionStringSent becomes true once a cloud build is connected, and the pass hands over three network reports on a change plus one version report the first time |
| Agent.NetworkReportsReadBack | AvnetStarterKitReferenceDesign/main.c:544-546 | the three network reports are ssid, freq and bssid, in that order; the freq report reads back as the frequency, the bssid report's value parses back as the six bssid bytes, and for an SSID of at most 32 bytes the ssid report carries the SSID; each is handed over whole |
| Agent.ChangedPassReports | AvnetStarterKitReferenceDesign/main.c:532-547 | on a pass whose strncmp step reports, in a cloud build, the first three reports handed over are the network reports, reading back as the new network's SSID, frequency and bssid |
| Agent.IterateKeepsVersionSent | AvnetStarterKitReferenceDesign/main.c:551-555 | versionStringSent only goes from false to true |
| Agent.VersionReportedOnce | AvnetStarterKitReferenceDesign/main.c:551-555 | the version string is reported at most once in any run, and exactly once in a cloud build that is ever connected |
| Agent.MainLoop.Iteration | AvnetStarterKitReferenceDesign/main.c:519-559 | the new loop state and the reports handed to the SDK are those Iterate gives; in a cloud build the pass ends with AzureIoT_DoPeriodicTasks, so the throttle's time and log record follow PeriodicStep with a 5-second period, and otherwise they are untouched |
| Agent.MainLoop.UpdateNetwork | AvnetStarterKitReferenceDesign/main.c:521-547 | the state and the "changed" result are those NetworkStepAsWritten gives (the strncmp test); in a cloud build a change hands over ssid, freq and bssid |
| Agent.MainLoop.ReportVersion | AvnetStarterKitReferenceDesign/main.c:551-555 | the version string is reported iff this is a cloud build, the client exists and it was not sent before; the report is the as-written hand-over, so a long version string goes with an oversized size |
| Agent.ReportNetwork | AvnetStarterKitReferenceDesign/main.c:544-546 | hands over the ssid, freq and bssid reports, in that order |
| Agent.Report | AvnetStarterKitReferenceDesign/main.c:544-553 | `checkAndUpdateDeviceTwin(..., false)` from `main`: with a client, the plain template's as-written buffer goes to the SDK with the untruncated length as its size |
| AzureIoT.ReasonName | AvnetStarterKitReferenceDesign/azure_iot_utilities.c:178-205 | the seven listed reasons have names other than "unknown reason"; other reasons have none |
| AzureIoT.ReasonUnknownUntilListed | AvnetStarterKitReferenceDesign/azure_iot_utilities.c:178-205 | "unknown reason" is returned while no listed reason has been seen |
| AzureIoT.ReasonIsSticky | AvnetStarterKitReferenceDesign/azure_iot_utilities.c:178-205 | after unlisted reasons, the name of the last listed reason is returned |
| AzureIoT.Client.GetReasonString | AvnetStarterKitReferenceDesign/azure_iot_utilities.c:178-205 | the static is reassigned for a listed reason and returned unchanged for an unlisted one |
| AzureIoT.SelectDesired | AvnetStarterKitReferenceDesign/azure_iot_utilities.c:600-604 | the root's `desired` object when there is one, else the root object |
| AzureIoT.Client.TwinCallback | AvnetStarterKitReferenceDesign/azure_iot_utilities.c:593-608 | an unparseable payload calls nothing; otherwise the registered handler gets SelectDesired of the root |
| AzureIoT.Client.DirectMethodCallback | AvnetStarterKitReferenceDesign/azure_iot_utilities.c:543-573 | a registered handler's reply passes through; without one the reply is 404 with `"No method found"`, size 17 and no NUL |
| AzureIoT.SetupOutcome | AvnetStarterKitReferenceDesign/azure_iot_utilities.c:239-284 | true without work when a handle exists; otherwise the handle is the created one and the result is true iff every option call succeeded |
| AzureIoT.SetupFailureIsNotRetried | AvnetStarterKitReferenceDesign/azure_iot_utilities.c:241-256 | after an option failure the handle stays set, and the next call returns true without retrying |
| AzureIoT.Client.SetupClient | AvnetStarterKitReferenceDesign/azure_iot_utilities.c:239-284 | the handle and the result are those SetupOutcome gives |
| AzureIoT.PeriodicStep | AvnetStarterKitReferenceDesign/azure_iot_utilities.c:304-321 | logs iff the clock read succeeds and now > last + period, strictly; the last time moves only then |
| AzureIoT.LogTimesSpaced | AvnetStarterKitReferenceDesign/azure_iot_utilities.c:304-321 | over any run of calls, each logged time is more than period after the previous one and after the start |
| AzureIoT.Client.PeriodicLogVarArgs | AvnetStarterKitReferenceDesign/azure_iot_utilities.c:304-321 | the log and the last time change as PeriodicStep says |
| AzureIoT.Client.DoPeriodicTasks | AvnetStarterKitReferenceDesign/azure_iot_utilities.c:331-339 | the throttled line with a 5-second period: the last-logged time follows PeriodicStep, and the log record gains exactly `now` when it logs and is unchanged otherwise |
| AzureIoT.Client.SendMessage | AvnetStarterKitReferenceDesign/azure_iot_utilities.c:346-351 | nothing reaches the SDK without a client handle |
| AzureIoT.Client.TwinReportStateJson | AvnetStarterKitReferenceDesign/azure_iot_utilities.c:674-698 | a NULL handle or a NULL string hands nothing over; otherwise the string goes with the size given |
| AzureIoT.Client.ReportStatusCallback | AvnetStarterKitReferenceDesign/azure_iot_utilities.c:384-390 | the status is forwarded unchanged iff a callback is set |
| AzureIoT.Client.SendMessageCallback | AvnetStarterKitReferenceDesign/azure_iot_utilities.c:472-478 | forwards `result == OK` iff a callback is set |
| AzureIoT.Client.HubConnectionStatusCallback | AvnetStarterKitReferenceDesign/azure_iot_utilities.c:632-646 | forwards `status == AUTHENTICATED` iff a callback is set; the reason text is the sticky one |
| AzureIoT.Client.ReceiveMessageCallback | AvnetStarterKitReferenceDesign/azure_iot_utilities.c:488-517 | a byte-array failure rejects and calls nothing; otherwise accepts, and a registered callback gets an exact copy followed by a NUL |
| AzureIoT.Client.SetDirectMethodCallback | AvnetStarterKitReferenceDesign/azure_iot_utilities.c:524-527 | the slot holds the given handler |

## Left out

- Azure IoT SDK calls (`IoTHubDeviceClient_LL_*`, `IoTHubMessage_*`, `IoTHub_Init`, `DoWork`) are not modelled. Their outcomes are parameters, and what they would receive is recorded in `Client` fields.
- The parson library is not part of this model. A document is an abstract JSON value. `json_object_get_number`, `get_boolean` and `dotget_object` are modelled by their documented results. `json_object_dotget_object` is taken as a plain member lookup, so a key with a '.' in it is not split.
- Float paths (`TYPE_FLOAT`, `%.2f`) are left out. They need floating-point formatting, and no registry entry uses them. The twin state's invariant excludes float entries.
- Certificates, the connection string, epoll and timerfd, the signal handler, I2C, `WifiConfig_GetCurrentNetwork`, `ClosePeripheralsAndHandlers` and the GPIO, timer and clock syscalls are left out. Their results are parameters (timer events, button reads, the clock, the current network) or oracle fields: `Gpio.fdOf` and `Gpio.failingFds` for opens and writes, and `Timer.refusesSet` for re-arming the accelerometer timer.
- A failed malloc is not modelled. The code either aborts or uses a NULL buffer (undefined behaviour). `strlen` of an unterminated payload and the VLA null check are also not modelled. The payload is taken as its bytes.
- `AzureIoT_TwinReportState` is left out. It is parson serialisation that the modelled code does not use.
- `AzureIoT_Initialize` and `AzureIoT_Deinitialize` are left out. They only call the SDK.
- The callback setters other than `SetDirectMethodCallback` record only whether a callback is registered, not the callback itself.
- The loop in `main` is modelled one pass at a time, after the event dispatch, ending with the call to `AzureIoT_DoPeriodicTasks` at main.c:559. The `break` taken when `AzureIoT_SetupClient` fails ends the loop, and it is not part of `Iteration`.
- SSIDs are taken to hold no NUL. The 128-byte `ssid` buffer and the 20-byte `bssid` buffer are not modelled as arrays: the bssid text is always 17 characters, and SSIDs are at most 32 bytes.
- Agent.InitTwinGpios: the descriptors are gathered in a local sequence and stored when the loop ends. The code writes each `*twinFd` as it goes. Nothing observes the descriptors in between, so the final state is the same.
- DeviceTwin.TwinState.ApplyOne: a slot and a descriptor are the entry's index into sequences. The `twinVar` and `twinFd` pointers, and their aliasing with the program's globals, are not modelled.
- DeviceTwin.ProcessedReports: the read-back property is proved for boolean and integer values only. Text values are never reported by the handler, and `main`'s text reports are not read back.
- DirectMethods.Dispatch: a payload's size is taken as its length, and `strlen(payload)` in the poll-time bound is taken as the same length.
- Agent.MainLoop.ReportVersion: the version string is the program's first argument, taken as present. `main` never checks `argc`, so without an argument `argv[1]` is NULL and is formatted with `%s` at main.c:553, which is undefined behaviour; the model's `string` cannot express that case.
- Integer widths are not modelled. `$version`, `pollTime` and `frequency` are unbounded integers. `(int)` casts of doubles truncate toward zero without the C overflow cases. `main`'s `frequency` is a `uint32_t` printed through `*(int*)`, so a frequency of 2^31 MHz or more would print negative; the model prints the unbounded value. IsInt32 is a precondition only where a buffer bound or a read-back depends on it.

## Findings

| source | as written | input that shows it | evidently intended | confidence | as-written member | corrected member |
|---|---|---|---|---|---|---|
| AvnetStarterKitReferenceDesign/device_twin.c:132-135 | the size handed to the SDK is `snprintf`'s return value, the untruncated length, with a 128-byte buffer | `main` reporting `versionString` with a 120-character first argument: size 141, buffer of 127 characters (any argument of 108 characters or more overruns) | hand over a report only when it fits whole; never a size beyond the buffer | not executed | DeviceTwin.CheckAndUpdateAsWritten, DeviceTwin.OversizedReportOverreads, Agent.MainLoop.ReportVersion | DeviceTwin.CheckAndUpdateDeviceTwin, DeviceTwin.CorrectedAgreesWhenFitting |
| AvnetStarterKitReferenceDesign/main.c:532 | `strncmp(ssid, network.ssid, network.ssidLength)` compares only the new SSID's length | stored "HomeNet2", then a connection to "HomeNet": no report | re-report whenever the SSID differs | not executed | Agent.StrncmpDiffers, Agent.NetworkStepAsWritten, Agent.PrefixSsidChangeMissed, Agent.RoamToPrefixUnreported, Agent.MainLoop.UpdateNetwork | Agent.NetworkStep, Agent.StrncmpMissesPrefixes, Agent.AsWrittenStepAgrees |
