/** The direct-method dispatcher of main.c: `DirectMethodCall` and the
    `SetupHeapMessage` helper that formats its responses. A call is answered
    with an HTTP status (200, 400 or 404, sections 15.3.1, 15.5.1 and 15.5.5 of
    RFC 9110) and a heap response; it may also set the termination flag and
    re-arm the sensor timer. */
module DirectMethods {
  import opened Base
  import opened Json
  import opened Platform
  import AzureIoT

  /** Payloads of this many bytes or more are refused before the name is looked at. */
  const MaxPayloadSize: nat := 32

  const HaltName: string := "haltApplication"
  const PollTimeName: string := "setSensorPollTime"

  /** resetOkResponse. */
  const HaltResponse: string := "{ \"success\" : true, " + "\"message\" : " + "\"Halting Application\" }"

  /** newPollTimeResponse is PollTimeHead + "%d" + PollTimeTail. */
  const PollTimeHead: string := "{ \"success\" : true, \"message\" : \"New Sensor Poll Time "
  const PollTimeTail: string := " seconds\" }"

  /** noMethodFound is NotFoundHead + "%s" + NotFoundTail. */
  const NotFoundHead: string := "\"method not found '"
  const NotFoundTail: string := "'\""

  /** noPayloadResponse. */
  const NoPayloadResponse: string :=
    "{ \"success\" : false, " + "\"message\" : " + "\"request does not " + "contain an identifiable " + "payload\" }"

  /** `sizeof` of a character array initialised from a literal: its NUL included. */
  function SizeOf(literal: string): nat { |literal| + 1 }

  /** strlen: the characters before the first NUL (all of them when there is none). */
  function CStringLength(s: string): (n: nat)
    ensures n <= |s| && Nul !in s[..n]
    ensures n < |s| ==> s[n] == Nul
    ensures Nul !in s ==> n == |s|
  {
    IndexOf(s, Nul)
  }

  /** SetupHeapMessage: vsnprintf into a buffer of maxLength + 1 bytes with the
      size argument maxLength, so at most maxLength - 1 characters of the
      formatted text are kept. `formatted` is the text the format and its
      arguments expand to. A failed malloc aborts the program and is not modelled. */
  function SetupHeapMessage(formatted: string, maxLength: nat): (m: string)
    requires maxLength >= 1
    ensures |m| < maxLength && |m| <= |formatted|
    ensures m == formatted[..|m|]
    ensures |formatted| < maxLength ==> m == formatted
    ensures |formatted| >= maxLength ==> |m| == maxLength - 1
  {
    if |formatted| < maxLength then formatted else formatted[..maxLength - 1]
  }

  /** A reply whose size is the strlen of its response. */
  function Reply(status: int, response: string): (r: AzureIoT.MethodReply)
    ensures r.status == status && r.response == response && r.size == CStringLength(response)
  {
    AzureIoT.MethodReply(status, response, CStringLength(response))
  }

  function HaltReply(): AzureIoT.MethodReply
  {
    Reply(200, SetupHeapMessage(HaltResponse, SizeOf(HaltResponse)))
  }

  function PayloadErrorReply(): AzureIoT.MethodReply
  {
    Reply(400, SetupHeapMessage(NoPayloadResponse, SizeOf(NoPayloadResponse)))
  }

  /** The buffer bound counts the payload's strlen (taken as its length). */
  function PollTimeReply(n: int, payload: string): AzureIoT.MethodReply
  {
    Reply(200, SetupHeapMessage(PollTimeHead + IntToString(n) + PollTimeTail,
                                SizeOf(PollTimeHead + "%d" + PollTimeTail) + |payload|))
  }

  function NotFoundReply(name: string): AzureIoT.MethodReply
  {
    Reply(404, SetupHeapMessage(NotFoundHead + name + NotFoundTail, SizeOf(NotFoundHead + "%s" + NotFoundTail) + |name|))
  }

  /** The poll time a parsed payload asks for: None when it did not parse or is
      not an object; otherwise `pollTime` cast to int, 0 when missing or not a number. */
  function RequestedPollTime(parsed: Option<Json>): (r: Option<int>)
    ensures r.None? <==> parsed.None? || !parsed.value.JObject?
    ensures r.Some? ==> r.value == TruncateToInt(GetNumber(Some(parsed.value.members), "pollTime"))
  {
    match parsed
    case None => None
    case Some(root) =>
      match AsObject(root)
      case None => None
      case Some(obj) => Some(TruncateToInt(GetNumber(Some(obj), "pollTime")))
  }

  /** What a call does: the reply, whether it halts the application and the new
      accelerometer timer period, if any. */
  datatype Effect = Effect(reply: AzureIoT.MethodReply, halt: bool, period: Option<Timespec>)

  /** A poll-time request the dispatcher accepts. */
  predicate ValidPollTime(parsed: Option<Json>)
  {
    RequestedPollTime(parsed).Some? && RequestedPollTime(parsed).value >= 1
  }

  /** DirectMethodCall as a function of (name, payload, parsed payload). */
  function Dispatch(name: string, payload: string, parsed: Option<Json>): (e: Effect)
    ensures e.reply.status == 400 <==>
              |payload| >= MaxPayloadSize || (name == PollTimeName && !ValidPollTime(parsed))
    ensures e.reply.status == 404 <==> |payload| < MaxPayloadSize && name != HaltName && name != PollTimeName
    ensures e.reply.status == 200 <==>
              |payload| < MaxPayloadSize && (name == HaltName || (name == PollTimeName && ValidPollTime(parsed)))
    ensures e.halt <==> |payload| < MaxPayloadSize && name == HaltName
    ensures e.period.Some? <==> |payload| < MaxPayloadSize && name == PollTimeName && ValidPollTime(parsed)
    ensures e.period.Some? ==> e.period.value == Timespec(RequestedPollTime(parsed).value, 0)
    ensures e.reply.status == 400 ==> e.reply == PayloadErrorReply()
    ensures e.reply.status == 404 ==> e.reply == NotFoundReply(name)
    ensures e.halt ==> e.reply == HaltReply()
    ensures e.period.Some? ==> e.reply == PollTimeReply(e.period.value.sec, payload)
    ensures e.reply.size == CStringLength(e.reply.response)
  {
    if |payload| >= MaxPayloadSize then Effect(PayloadErrorReply(), false, None)
    else if name == HaltName then Effect(HaltReply(), true, None)
    else if name == PollTimeName then
      match RequestedPollTime(parsed)
      case None => Effect(PayloadErrorReply(), false, None)
      case Some(n) =>
        if n < 1 then Effect(PayloadErrorReply(), false, None)
        else Effect(PollTimeReply(n, payload), false, Some(Timespec(n, 0)))
    else Effect(NotFoundReply(name), false, None)
  }

  /** The halt response fits its buffer whole, and its size is its length. */
  lemma HaltResponseWhole()
    ensures HaltReply().response == HaltResponse && HaltReply().size == |HaltResponse|
  {
    assert Nul !in "{ \"success\" : true, " && Nul !in "\"message\" : " && Nul !in "\"Halting Application\" }";
  }

  /** The payload-error response fits its buffer whole, and its size is its length. */
  lemma PayloadErrorResponseWhole()
    ensures PayloadErrorReply().response == NoPayloadResponse && PayloadErrorReply().size == |NoPayloadResponse|
  {
    assert Nul !in "{ \"success\" : false, " && Nul !in "\"message\" : " && Nul !in "\"request does not ";
    assert Nul !in "contain an identifiable " && Nul !in "payload\" }";
  }

  /** The 404 response names the method in full, and its size is its length
      (a method name is a C string, without NUL). */
  lemma NotFoundNamesMethod(name: string)
    requires Nul !in name
    ensures NotFoundReply(name).response == NotFoundHead + name + NotFoundTail
    ensures NotFoundReply(name).size == |NotFoundHead| + |name| + |NotFoundTail|
  {
    var text := NotFoundHead + name + NotFoundTail;
    assert Nul !in text by {
      forall k | 0 <= k < |text|
        ensures text[k] != Nul
      {
        if k < |NotFoundHead| {
          assert text[k] == NotFoundHead[k];
        } else if k < |NotFoundHead| + |name| {
          assert text[k] == name[k - |NotFoundHead|];
        } else {
          assert text[k] == NotFoundTail[k - |NotFoundHead| - |name|];
        }
      }
    }
  }

  /** The poll-time response keeps the whole decimal rendering of n as long as
      that rendering is at most two characters longer than the payload (it is
      for every payload that carries a C `int` pollTime, since such a payload
      is at least `{"pollTime":1}`), and the number reads back as n. */
  lemma PollTimeEchoes(n: int, payload: string)
    requires |IntToString(n)| <= |payload| + 2
    ensures var r := PollTimeReply(n, payload).response;
            && r == PollTimeHead + IntToString(n) + PollTimeTail
            && ParseInt(r[|PollTimeHead|..|r| - |PollTimeTail|]) == Some(n)
  {
    var r := PollTimeHead + IntToString(n) + PollTimeTail;
    assert r[|PollTimeHead|..|r| - |PollTimeTail|] == IntToString(n);
    ParseIntToString(n);
  }

  /** Any C `int` fits a payload that holds a `pollTime` member. */
  lemma Int32PollTimeFits(n: int, payload: string)
    requires IsInt32(n) && |payload| >= |"{\"pollTime\":1}"|
    ensures |IntToString(n)| <= |payload| + 2
  {
    Int32StringLength(n);
  }

  /** An unknown method with a large payload is answered 400, not 404. */
  lemma LargePayloadBeatsUnknownName()
    ensures Dispatch("reboot", seq(32, _ => ' '), None).reply.status == 400
  {
  }

  /** DirectMethodCall: the reply, the termination flag and the accelerometer
      timer, as Dispatch describes them. The result of re-arming the timer is
      ignored: a refused re-arm keeps the old period, and the reply and the
      flag are the same whether it succeeds or not. */
  method DirectMethodCall(name: string, payload: string, parsed: Option<Json>, process: Process, accelTimer: Timer)
    returns (reply: AzureIoT.MethodReply)
    modifies process, accelTimer
    ensures var e := Dispatch(name, payload, parsed);
            && reply == e.reply
            && process.terminationRequired == (old(process.terminationRequired) || e.halt)
            && accelTimer.period == (if e.period.Some? && !accelTimer.refusesSet then e.period.value else old(accelTimer.period))
  {
    if |payload| < MaxPayloadSize {
      if name == HaltName {
        var response := SetupHeapMessage(HaltResponse, SizeOf(HaltResponse));
        reply := AzureIoT.MethodReply(200, response, CStringLength(response));
        process.terminationRequired := true;
        return;
      } else if name == PollTimeName {
        var obj := if parsed.Some? then AsObject(parsed.value) else None;
        if obj.Some? {
          var newPollTime := TruncateToInt(GetNumber(obj, "pollTime"));
          if newPollTime >= 1 {
            var response := SetupHeapMessage(PollTimeHead + IntToString(newPollTime) + PollTimeTail,
                                             SizeOf(PollTimeHead + "%d" + PollTimeTail) + |payload|);
            reply := AzureIoT.MethodReply(200, response, CStringLength(response));
            var _ := accelTimer.SetPeriod(Timespec(newPollTime, 0));
            return;
          }
        }
      } else {
        var response := SetupHeapMessage(NotFoundHead + name + NotFoundTail,
                                         SizeOf(NotFoundHead + "%s" + NotFoundTail) + |name|);
        reply := AzureIoT.MethodReply(404, response, CStringLength(response));
        return;
      }
    }
    // payloadError
    var response := SetupHeapMessage(NoPayloadResponse, SizeOf(NoPayloadResponse));
    reply := AzureIoT.MethodReply(400, response, CStringLength(response));
  }
}
