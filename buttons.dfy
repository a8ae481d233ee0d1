/** Button edge detection (ButtonTimerEventHandler in main.c). Every tick of
    the button timer reads button A and then button B; a button reads Low while
    pressed. A High-to-Low change sends a telemetry message; a release or no
    change sends nothing. */
module Buttons {
  import opened Base
  import opened Platform
  import AzureIoT

  /** cstrButtonTelemetryJson, `{"%s":"%d"}`, filled with a button name and the
      numeric level. */
  function Telemetry(button: string, level: Level): string
  {
    "{\"" + button + "\":\"" + IntToString(LevelValue(level)) + "\"}"
  }

  /** The two messages the handler can send: a press is always reported at level 0. */
  const PressA: string := "{\"" + "buttonA" + "\":\"0\"}"
  const PressB: string := "{\"" + "buttonB" + "\":\"0\"}"

  lemma PressMessages()
    ensures Telemetry("buttonA", Low) == PressA && Telemetry("buttonB", Low) == PressB
    ensures PressA != PressB
  {
    assert IntToString(LevelValue(Low)) == "0" by { assert DigitChar(0) == '0'; }
    assert PressA[8] == 'A' && PressB[8] == 'B';
  }

  /** One poll of both buttons: the stored states afterwards, the messages
      sent in order, and whether termination was requested. */
  datatype TickResult = TickResult(a: Level, b: Level, messages: seq<string>, failed: bool)

  /** The message a button contributes on a poll: only a High-to-Low change sends one. */
  function PressMessage(previous: Level, current: Level, press: string): (m: seq<string>)
    ensures |m| <= 1
    ensures m == [press] <==> previous.High? && current.Low?
    ensures m == [] <==> !(previous.High? && current.Low?)
  {
    if previous != current && current.Low? then [press] else []
  }

  /** The handler as a function of the stored states and what the timer and
      the two reads return (None for a failed read). */
  function ButtonTick(a: Level, b: Level, timerOk: bool, readA: Option<Level>, readB: Option<Level>): (r: TickResult)
    ensures r.failed <==> !timerOk || readA.None? || readB.None?
    ensures r.failed ==> r.messages == []
    ensures !timerOk || readA.None? ==> r.a == a && r.b == b
    ensures timerOk && readA.Some? ==> r.a == readA.value
    ensures timerOk && readA.Some? ==> r.b == (if readB.Some? then readB.value else b)
    ensures !r.failed ==> r.messages == PressMessage(a, readA.value, PressA) + PressMessage(b, readB.value, PressB)
  {
    if !timerOk then TickResult(a, b, [], true)
    else match readA
      case None => TickResult(a, b, [], true)
      case Some(newA) =>
        match readB
        case None => TickResult(newA, b, [], true)
        case Some(newB) =>
          TickResult(newA, newB, PressMessage(a, newA, PressA) + PressMessage(b, newB, PressB), false)
  }

  /** A read failure on button B loses a press of button A detected in the same
      poll: A's state has moved to Low, so the next poll that still reads A as
      Low sends no press of A either. */
  lemma PressLostOnBFailure(b: Level, nextB: Level)
    ensures var r := ButtonTick(High, b, true, Some(Low), None);
            && r.failed && r.messages == [] && r.a == Low && r.b == b
            && PressA !in ButtonTick(r.a, r.b, true, Some(Low), Some(nextB)).messages
  {
    PressMessages();
  }

  /** The outcome of a run of polls in which every read succeeds. */
  function Run(a: Level, b: Level, polls: seq<(Level, Level)>): TickResult
    decreases |polls|
  {
    if |polls| == 0 then TickResult(a, b, [], false)
    else
      var t := ButtonTick(a, b, true, Some(polls[0].0), Some(polls[0].1));
      var rest := Run(t.a, t.b, polls[1..]);
      TickResult(rest.a, rest.b, t.messages + rest.messages, false)
  }

  /** The number of presses, High-to-Low changes, in a sequence of readings
      that follows the reading `previous`. */
  function Presses(previous: Level, levels: seq<Level>): nat
    decreases |levels|
  {
    if |levels| == 0 then 0
    else (if previous.High? && levels[0].Low? then 1 else 0) + Presses(levels[0], levels[1..])
  }

  function Count(messages: seq<string>, m: string): nat
    decreases |messages|
  {
    if |messages| == 0 then 0 else (if messages[0] == m then 1 else 0) + Count(messages[1..], m)
  }

  lemma {:induction false} CountAppend(x: seq<string>, y: seq<string>, m: string)
    ensures Count(x + y, m) == Count(x, m) + Count(y, m)
    decreases |x|
  {
    if |x| > 0 {
      CountAppend(x[1..], y, m);
      assert (x + y)[0] == x[0];
      assert (x + y)[1..] == x[1..] + y;
    } else {
      assert x + y == y;
    }
  }

  function LevelsOfA(polls: seq<(Level, Level)>): seq<Level>
  {
    seq(|polls|, i requires 0 <= i < |polls| => polls[i].0)
  }

  function LevelsOfB(polls: seq<(Level, Level)>): seq<Level>
  {
    seq(|polls|, i requires 0 <= i < |polls| => polls[i].1)
  }

  /** After a run of successful polls the stored states are the last readings. */
  lemma {:induction false} RunEndsAtLastReadings(a: Level, b: Level, polls: seq<(Level, Level)>)
    requires |polls| > 0
    ensures Run(a, b, polls).a == polls[|polls| - 1].0 && Run(a, b, polls).b == polls[|polls| - 1].1
    decreases |polls|
  {
    if |polls| > 1 {
      RunEndsAtLastReadings(polls[0].0, polls[0].1, polls[1..]);
      assert polls[1..][|polls| - 2] == polls[|polls| - 1];
    }
  }

  /** One successful poll, then the rest of the run. */
  lemma RunHead(a: Level, b: Level, polls: seq<(Level, Level)>)
    requires |polls| > 0
    ensures Run(a, b, polls).messages ==
              (PressMessage(a, polls[0].0, PressA) + PressMessage(b, polls[0].1, PressB))
              + Run(polls[0].0, polls[0].1, polls[1..]).messages
  {
  }

  lemma PressesHead(a: Level, b: Level, polls: seq<(Level, Level)>)
    requires |polls| > 0
    ensures Presses(a, LevelsOfA(polls)) ==
              (if a.High? && polls[0].0.Low? then 1 else 0) + Presses(polls[0].0, LevelsOfA(polls[1..]))
    ensures Presses(b, LevelsOfB(polls)) ==
              (if b.High? && polls[0].1.Low? then 1 else 0) + Presses(polls[0].1, LevelsOfB(polls[1..]))
  {
    assert LevelsOfA(polls)[1..] == LevelsOfA(polls[1..]);
    assert LevelsOfB(polls)[1..] == LevelsOfB(polls[1..]);
  }

  lemma CountPressMessage(previous: Level, current: Level, press: string, m: string)
    ensures Count(PressMessage(previous, current, press), m) ==
              if previous.High? && current.Low? && press == m then 1 else 0
  {
  }

  /** Over a run of successful polls each button sends exactly one message per
      press. */
  lemma {:induction false} RunCountsPresses(a: Level, b: Level, polls: seq<(Level, Level)>)
    ensures var r := Run(a, b, polls);
            && Count(r.messages, PressA) == Presses(a, LevelsOfA(polls))
            && Count(r.messages, PressB) == Presses(b, LevelsOfB(polls))
            && |r.messages| == Presses(a, LevelsOfA(polls)) + Presses(b, LevelsOfB(polls))
    decreases |polls|
  {
    if |polls| > 0 {
      var x, y := polls[0].0, polls[0].1;
      var ma, mb := PressMessage(a, x, PressA), PressMessage(b, y, PressB);
      var rest := Run(x, y, polls[1..]).messages;
      RunHead(a, b, polls);
      PressesHead(a, b, polls);
      RunCountsPresses(x, y, polls[1..]);
      PressMessages();
      CountAppend(ma + mb, rest, PressA);
      CountAppend(ma + mb, rest, PressB);
      CountAppend(ma, mb, PressA);
      CountAppend(ma, mb, PressB);
      CountPressMessage(a, x, PressA, PressA);
      CountPressMessage(a, x, PressA, PressB);
      CountPressMessage(b, y, PressB, PressA);
      CountPressMessage(b, y, PressB, PressB);
    }
  }

  /** The handler's statics: both buttons start released (High). */
  class ButtonPoller {
    var buttonAState: Level
    var buttonBState: Level

    constructor ()
      ensures buttonAState == High && buttonBState == High
    {
      buttonAState := High;
      buttonBState := High;
    }

    /** ButtonTimerEventHandler. `timerOk` is the result of consuming the
        timer event; `readA`/`readB` what GPIO_GetValue gives (None on failure). */
    method TimerEvent(timerOk: bool, readA: Option<Level>, readB: Option<Level>,
                      client: AzureIoT.Client, process: Process)
      modifies this, client`handedMessages, process
      ensures var r := ButtonTick(old(buttonAState), old(buttonBState), timerOk, readA, readB);
              && buttonAState == r.a && buttonBState == r.b
              && client.handedMessages == old(client.handedMessages) + (if client.handle.Some? then r.messages else [])
              && process.terminationRequired == (old(process.terminationRequired) || r.failed)
    {
      var sendA := false;
      var sendB := false;
      if !timerOk {
        process.terminationRequired := true;
        return;
      }
      if readA.None? {
        process.terminationRequired := true;
        return;
      }
      var newA := readA.value;
      if newA != buttonAState {
        if newA == Low {
          sendA := true;
        }
        buttonAState := newA;
      }
      if readB.None? {
        process.terminationRequired := true;
        return;
      }
      var newB := readB.value;
      if newB != buttonBState {
        if newB == Low {
          sendB := true;
        }
        buttonBState := newB;
      }
      if sendA {
        client.SendMessage(Telemetry("buttonA", newA));
      }
      if sendB {
        client.SendMessage(Telemetry("buttonB", newB));
      }
      PressMessages();
    }
  }
}
