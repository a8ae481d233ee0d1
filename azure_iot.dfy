/** The adapter between the agent and the Azure IoT device SDK
    (azure_iot_utilities.c): the client handle, the user callback slots, the
    decisions taken in the SDK callbacks, the sticky connection-reason text and
    the throttled periodic log line. SDK calls are not modelled; what the SDK
    would receive is recorded in `handedReports` and `handedMessages`, and the
    outcomes of SDK calls are passed in as parameters. */
module AzureIoT {
  import opened Base
  import opened Json

  /** A non-NULL IOTHUB_DEVICE_CLIENT_LL_HANDLE. */
  datatype Handle = Handle(id: nat)

  /** IOTHUB_CLIENT_CONNECTION_STATUS_REASON: the seven values the adapter names,
      and every other value of the SDK's enumeration. */
  datatype Reason =
    | ExpiredSasToken
    | DeviceDisabled
    | BadCredential
    | RetryExpired
    | NoNetwork
    | CommunicationError
    | ConnectionOk
    | OtherReason(code: int)

  /** IOTHUB_CLIENT_CONNECTION_STATUS. */
  datatype ConnectionStatus = Authenticated | Unauthenticated

  /** IOTHUB_CLIENT_CONFIRMATION_RESULT. */
  datatype ConfirmationResult = ConfirmationOk | ConfirmationBecauseDestroy | ConfirmationMessageTimeout | ConfirmationError

  /** IOTHUBMESSAGE_DISPOSITION_RESULT values this adapter returns. */
  datatype Disposition = Accepted | Rejected

  /** A reported-state document handed to IoTHubDeviceClient_LL_SendReportedState:
      the bytes and the size passed with them. */
  datatype ReportedState = ReportedState(text: string, size: nat)

  /** A direct-method result: HTTP status, response bytes and the size handed to the SDK. */
  datatype MethodReply = MethodReply(status: int, response: string, size: nat)

  /** The user's direct-method handler: (method name, payload bytes) to reply. */
  type DirectMethodFn = (string, string) -> MethodReply

  /** What twinCallback does with an update: no user call, or a call with a
      (possibly NULL) desired-properties object. */
  datatype TwinDelivery = NotInvoked | Invoked(desired: Option<Object>)

  /** What receiveMessageCallback returns and what the user callback gets. */
  datatype Received = Received(disposition: Disposition, delivered: Option<string>)

  /** Outcomes of the SDK calls made by AzureIoT_SetupClient, in call order. */
  datatype SetupOracle = SetupOracle(
    created: Option<Handle>,
    trustedCertsOk: bool,
    keepAliveOk: bool,
    statusCallbackOk: bool,
    retryPolicyOk: bool)

  const UnknownReason: string := "unknown reason"

  /** The static response used when no direct-method handler is registered. */
  const MethodNotFound: string := "\"No method found\""

  /** The period of the "calls in progress" log line in AzureIoT_DoPeriodicTasks. */
  const DoPeriodicTasksLogPeriod: int := 5

  /** The names getReasonString gives; None for a reason it does not list. */
  function ReasonName(reason: Reason): (r: Option<string>)
    ensures r.None? <==> reason.OtherReason?
    ensures r.Some? ==> r.value != UnknownReason
  {
    match reason
    case ExpiredSasToken => Some("IOTHUB_CLIENT_CONNECTION_EXPIRED_SAS_TOKEN")
    case DeviceDisabled => Some("IOTHUB_CLIENT_CONNECTION_DEVICE_DISABLED")
    case BadCredential => Some("IOTHUB_CLIENT_CONNECTION_BAD_CREDENTIAL")
    case RetryExpired => Some("IOTHUB_CLIENT_CONNECTION_RETRY_EXPIRED")
    case NoNetwork => Some("IOTHUB_CLIENT_CONNECTION_NO_NETWORK")
    case CommunicationError => Some("IOTHUB_CLIENT_CONNECTION_COMMUNICATION_ERROR")
    case ConnectionOk => Some("IOTHUB_CLIENT_CONNECTION_OK")
    case OtherReason(_) => None
  }

  /** The new value of getReasonString's static after one call. */
  function NextReasonString(previous: string, reason: Reason): string
  {
    match ReasonName(reason)
    case Some(name) => name
    case None => previous
  }

  /** The static after a whole history of calls, starting from its initialiser. */
  function ReasonAfter(history: seq<Reason>): string
  {
    if |history| == 0 then UnknownReason
    else NextReasonString(ReasonAfter(history[..|history| - 1]), history[|history| - 1])
  }

  /** getReasonString answers "unknown reason" while no listed reason has
      been seen. */
  lemma {:induction false} ReasonUnknownUntilListed(history: seq<Reason>)
    requires forall i :: 0 <= i < |history| ==> history[i].OtherReason?
    ensures ReasonAfter(history) == UnknownReason
  {
    if |history| > 0 {
      var prefix := history[..|history| - 1];
      assert forall i :: 0 <= i < |prefix| ==> prefix[i] == history[i];
      ReasonUnknownUntilListed(prefix);
    }
  }

  /** getReasonString is sticky: it returns the name of the last listed
      reason, whatever unlisted reasons came after it. */
  lemma {:induction false} ReasonIsSticky(history: seq<Reason>, k: nat)
    requires k < |history| && !history[k].OtherReason?
    requires forall j :: k < j < |history| ==> history[j].OtherReason?
    ensures ReasonAfter(history) == ReasonName(history[k]).value
  {
    var last := |history| - 1;
    if k < last {
      var prefix := history[..last];
      assert prefix[k] == history[k];
      assert forall j :: k < j < |prefix| ==> prefix[j] == history[j];
      ReasonIsSticky(prefix, k);
    }
  }

  /** The twin document's `desired` object when the root has one, else the root
      object itself (NULL when the root is not an object). */
  function SelectDesired(root: Json): (r: Option<Object>)
    ensures GetObject(AsObject(root), "desired").Some? ==> r == GetObject(AsObject(root), "desired")
    ensures GetObject(AsObject(root), "desired").None? ==> r == AsObject(root)
  {
    var rootObject := AsObject(root);
    var desired := GetObject(rootObject, "desired");
    if desired.None? then rootObject else desired
  }

  /** One step of PeriodicLogVarArgs: whether it logs, and the new last-invoked time.
      `now` is None when timespec_get fails. */
  function PeriodicStep(last: int, period: int, now: Option<int>): (r: (bool, int))
    ensures r.0 <==> now.Some? && now.value > last + period
    ensures r.1 == (if r.0 then now.value else last)
  {
    if now.Some? && now.value > last + period then (true, now.value) else (false, last)
  }

  /** The times at which a series of PeriodicLogVarArgs calls logs. */
  function LogTimes(last: int, period: int, clock: seq<Option<int>>): seq<int>
    decreases |clock|
  {
    if |clock| == 0 then []
    else
      var step := PeriodicStep(last, period, clock[0]);
      (if step.0 then [clock[0].value] else []) + LogTimes(step.1, period, clock[1..])
  }

  /** The throttle: each logged line is strictly more than `period` seconds after
      the previous one (and after the starting time). */
  lemma {:induction false} LogTimesSpaced(last: int, period: int, clock: seq<Option<int>>)
    requires period >= 0
    decreases |clock|
    ensures forall i :: 0 <= i < |LogTimes(last, period, clock)| ==>
              LogTimes(last, period, clock)[i] > last + period
    ensures forall i :: 0 < i < |LogTimes(last, period, clock)| ==>
              LogTimes(last, period, clock)[i] > LogTimes(last, period, clock)[i - 1] + period
  {
    if |clock| > 0 {
      var step := PeriodicStep(last, period, clock[0]);
      LogTimesSpaced(step.1, period, clock[1..]);
      var rest := LogTimes(step.1, period, clock[1..]);
      if step.0 {
        assert LogTimes(last, period, clock) == [clock[0].value] + rest;
      } else {
        assert LogTimes(last, period, clock) == rest;
      }
    }
  }

  /** The result of AzureIoT_SetupClient: the new handle and the return value. */
  function SetupOutcome(handle: Option<Handle>, sdk: SetupOracle): (r: (Option<Handle>, bool))
    ensures handle.Some? ==> r == (handle, true)
    ensures handle.None? ==> r.0 == sdk.created
    ensures handle.None? ==>
              (r.1 <==> sdk.created.Some? && sdk.trustedCertsOk && sdk.keepAliveOk &&
                        sdk.statusCallbackOk && sdk.retryPolicyOk)
  {
    if handle.Some? then (handle, true)
    else if sdk.created.None? then (None, false)
    else if !sdk.trustedCertsOk || !sdk.keepAliveOk then (sdk.created, false)
    else if !sdk.statusCallbackOk || !sdk.retryPolicyOk then (sdk.created, false)
    else (sdk.created, true)
  }

  /** A setup that created the client but failed on an option leaves the handle
      set, so every later call reports success without retrying the options. */
  lemma SetupFailureIsNotRetried(sdk: SetupOracle, later: SetupOracle)
    requires sdk.created.Some?
    requires !(sdk.trustedCertsOk && sdk.keepAliveOk && sdk.statusCallbackOk && sdk.retryPolicyOk)
    ensures !SetupOutcome(None, sdk).1
    ensures SetupOutcome(SetupOutcome(None, sdk).0, later) == (sdk.created, true)
  {
  }

  class Client {
    var handle: Option<Handle>
    var reasonString: string
    var lastTimeLogged: int
    var periodicLogs: seq<int>
    var twinUpdateCbSet: bool
    var directMethodCb: Option<DirectMethodFn>
    var messageReceivedCbSet: bool
    var messageConfirmationCbSet: bool
    var twinConfirmationCbSet: bool
    var connectionStatusCbSet: bool
    var handedReports: seq<ReportedState>
    var handedMessages: seq<string>

    /** The adapter's statics as the program starts. */
    constructor ()
      ensures handle.None? && reasonString == UnknownReason && lastTimeLogged == 0
      ensures !twinUpdateCbSet && directMethodCb.None? && !messageReceivedCbSet
      ensures !messageConfirmationCbSet && !twinConfirmationCbSet && !connectionStatusCbSet
      ensures periodicLogs == [] && handedReports == [] && handedMessages == []
    {
      handle := None;
      reasonString := UnknownReason;
      lastTimeLogged := 0;
      periodicLogs := [];
      twinUpdateCbSet := false;
      directMethodCb := None;
      messageReceivedCbSet := false;
      messageConfirmationCbSet := false;
      twinConfirmationCbSet := false;
      connectionStatusCbSet := false;
      handedReports := [];
      handedMessages := [];
    }

    method SetDeviceTwinUpdateCallback(registered: bool)
      modifies this`twinUpdateCbSet
      ensures twinUpdateCbSet == registered
    {
      twinUpdateCbSet := registered;
    }

    method SetDirectMethodCallback(cb: Option<DirectMethodFn>)
      modifies this`directMethodCb
      ensures directMethodCb == cb
    {
      directMethodCb := cb;
    }

    method SetMessageReceivedCallback(registered: bool)
      modifies this`messageReceivedCbSet
      ensures messageReceivedCbSet == registered
    {
      messageReceivedCbSet := registered;
    }

    method SetMessageConfirmationCallback(registered: bool)
      modifies this`messageConfirmationCbSet
      ensures messageConfirmationCbSet == registered
    {
      messageConfirmationCbSet := registered;
    }

    method SetDeviceTwinDeliveryConfirmationCallback(registered: bool)
      modifies this`twinConfirmationCbSet
      ensures twinConfirmationCbSet == registered
    {
      twinConfirmationCbSet := registered;
    }

    method SetConnectionStatusCallback(registered: bool)
      modifies this`connectionStatusCbSet
      ensures connectionStatusCbSet == registered
    {
      connectionStatusCbSet := registered;
    }

    /** getReasonString: the static is reassigned for a listed reason and returned
        unchanged otherwise. */
    method GetReasonString(reason: Reason) returns (s: string)
      modifies this`reasonString
      ensures reasonString == NextReasonString(old(reasonString), reason)
      ensures s == reasonString
      ensures reason.OtherReason? ==> s == old(reasonString)
    {
      match reason {
        case ExpiredSasToken => reasonString := "IOTHUB_CLIENT_CONNECTION_EXPIRED_SAS_TOKEN";
        case DeviceDisabled => reasonString := "IOTHUB_CLIENT_CONNECTION_DEVICE_DISABLED";
        case BadCredential => reasonString := "IOTHUB_CLIENT_CONNECTION_BAD_CREDENTIAL";
        case RetryExpired => reasonString := "IOTHUB_CLIENT_CONNECTION_RETRY_EXPIRED";
        case NoNetwork => reasonString := "IOTHUB_CLIENT_CONNECTION_NO_NETWORK";
        case CommunicationError => reasonString := "IOTHUB_CLIENT_CONNECTION_COMMUNICATION_ERROR";
        case ConnectionOk => reasonString := "IOTHUB_CLIENT_CONNECTION_OK";
        case OtherReason(_) =>
      }
      s := reasonString;
    }

    /** AzureIoT_SetupClient, handle state only: a no-op returning true once a
        handle exists; otherwise the handle is stored before any option is set. */
    method SetupClient(sdk: SetupOracle) returns (ok: bool)
      modifies this`handle
      ensures (handle, ok) == SetupOutcome(old(handle), sdk)
    {
      if handle.Some? {
        return true;
      }
      handle := sdk.created;
      if handle.None? {
        return false;
      }
      if !sdk.trustedCertsOk {
        return false;
      }
      if !sdk.keepAliveOk {
        return false;
      }
      if !sdk.statusCallbackOk {
        return false;
      }
      if !sdk.retryPolicyOk {
        return false;
      }
      return true;
    }

    /** AzureIoT_DestroyClient. */
    method DestroyClient()
      modifies this`handle
      ensures handle.None?
    {
      handle := None;
    }

    /** PeriodicLogVarArgs with `*lastInvokedTime` being `lastTimeLogged`: logs and
        records the time only when the clock read succeeds and the time is
        strictly past the last time plus the period. */
    method PeriodicLogVarArgs(now: Option<int>, period: int) returns (logged: bool)
      modifies this`lastTimeLogged, this`periodicLogs
      ensures (logged, lastTimeLogged) == PeriodicStep(old(lastTimeLogged), period, now)
      ensures periodicLogs == old(periodicLogs) + (if logged then [now.value] else [])
    {
      logged := false;
      if now.None? {
        return;
      }
      if now.value > lastTimeLogged + period {
        periodicLogs := periodicLogs + [now.value];
        lastTimeLogged := now.value;
        logged := true;
      }
    }

    /** AzureIoT_DoPeriodicTasks: the throttled log line every 5 seconds; the
        SDK's DoWork is outside the model. */
    method DoPeriodicTasks(now: Option<int>)
      modifies this`lastTimeLogged, this`periodicLogs
      ensures (|periodicLogs| > |old(periodicLogs)|, lastTimeLogged) ==
                PeriodicStep(old(lastTimeLogged), DoPeriodicTasksLogPeriod, now)
      ensures periodicLogs == old(periodicLogs) +
                (if PeriodicStep(old(lastTimeLogged), DoPeriodicTasksLogPeriod, now).0 then [now.value] else [])
    {
      var _ := PeriodicLogVarArgs(now, DoPeriodicTasksLogPeriod);
    }

    /** AzureIoT_SendMessage: nothing reaches the SDK without a client handle. */
    method SendMessage(payload: string)
      modifies this`handedMessages
      ensures handedMessages == old(handedMessages) + (if handle.Some? then [payload] else [])
    {
      if handle.None? {
        return;
      }
      handedMessages := handedMessages + [payload];
    }

    /** AzureIoT_TwinReportStateJson: a NULL handle or a NULL string hands nothing
        to the SDK; otherwise the string goes with the size given. */
    method TwinReportStateJson(text: Option<string>, size: nat)
      modifies this`handedReports
      ensures handedReports == old(handedReports) +
                (if handle.Some? && text.Some? then [ReportedState(text.value, size)] else [])
    {
      if handle.None? {
      } else {
        if text.Some? {
          handedReports := handedReports + [ReportedState(text.value, size)];
        }
      }
    }

    /** reportStatusCallback: the HTTP status goes to the user callback, if any. */
    function ReportStatusCallback(result: int): (forwarded: Option<int>)
      reads this
      ensures forwarded.Some? <==> twinConfirmationCbSet
      ensures forwarded.Some? ==> forwarded.value == result
    {
      if twinConfirmationCbSet then Some(result) else None
    }

    /** sendMessageCallback: the user callback, if any, gets whether the result is OK. */
    function SendMessageCallback(result: ConfirmationResult): (forwarded: Option<bool>)
      reads this
      ensures forwarded.Some? <==> messageConfirmationCbSet
      ensures forwarded.Some? ==> (forwarded.value <==> result == ConfirmationOk)
    {
      if messageConfirmationCbSet then Some(result == ConfirmationOk) else None
    }

    /** hubConnectionStatusCallback: the user callback, if any, gets whether the
        client is authenticated; the reason text comes from getReasonString. */
    method HubConnectionStatusCallback(status: ConnectionStatus, reason: Reason)
      returns (forwarded: Option<bool>, reasonText: string)
      modifies this`reasonString
      ensures forwarded.Some? <==> connectionStatusCbSet
      ensures forwarded.Some? ==> (forwarded.value <==> status == Authenticated)
      ensures reasonString == NextReasonString(old(reasonString), reason) && reasonText == reasonString
    {
      forwarded := if connectionStatusCbSet then Some(status == Authenticated) else None;
      reasonText := GetReasonString(reason);
    }

    /** twinCallback: an unparseable payload (None) calls nothing; otherwise the
        registered handler, if any, gets the `desired` object or the root object. */
    function TwinCallback(parsed: Option<Json>): (r: TwinDelivery)
      reads this
      ensures parsed.None? ==> r == NotInvoked
      ensures parsed.Some? ==> (r.Invoked? <==> twinUpdateCbSet)
      ensures r.Invoked? ==> r.desired == SelectDesired(parsed.value)
    {
      if parsed.None? then NotInvoked
      else if twinUpdateCbSet then Invoked(SelectDesired(parsed.value))
      else NotInvoked
    }

    /** directMethodCallback: a registered handler's status, response and size pass
        through unchanged; without one the reply is 404 with the 17 bytes of
        "No method found" in quotes, with no NUL terminator. */
    function DirectMethodCallback(name: string, payload: string): (r: MethodReply)
      reads this
      ensures directMethodCb.Some? ==> r == directMethodCb.value(name, payload)
      ensures directMethodCb.None? ==> r.status == 404 && r.response == MethodNotFound
      ensures directMethodCb.None? ==> r.size == 17 && |r.response| == r.size && Nul !in r.response
    {
      if directMethodCb.Some? then directMethodCb.value(name, payload)
      else MethodReply(404, MethodNotFound, |MethodNotFound|)
    }

    /** receiveMessageCallback: `buffer` is None when IoTHubMessage_GetByteArray
        fails. Otherwise the message is accepted and the registered callback, if
        any, gets an exact copy of the bytes followed by a NUL. */
    function ReceiveMessageCallback(buffer: Option<string>): (r: Received)
      reads this
      ensures buffer.None? ==> r == Received(Rejected, None)
      ensures buffer.Some? ==> r.disposition == Accepted
      ensures buffer.Some? ==> (r.delivered.Some? <==> messageReceivedCbSet)
      ensures r.delivered.Some? ==>
                |r.delivered.value| == |buffer.value| + 1 &&
                r.delivered.value[..|buffer.value|] == buffer.value &&
                r.delivered.value[|buffer.value|] == Nul
    {
      if buffer.None? then Received(Rejected, None)
      else
        var copy := buffer.value + [Nul];
        Received(Accepted, if messageReceivedCbSet then Some(copy) else None)
    }
  }
}
