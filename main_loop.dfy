/** The start-up and main-loop logic of main.c: opening the twin GPIOs at
    their inactive levels (InitPeripheralsAndHandlers), and the rule that
    re-reports the network configuration when it changes and the version
    string once. */
module Agent {
  import opened Base
  import opened Platform
  import opened DeviceTwin
  import AzureIoT

  // ---------------------------------------------------------------------------
  // Opening the twin GPIOs
  // ---------------------------------------------------------------------------

  /** The level a line starts at: the one that means "off" for its polarity. */
  function InactiveLevel(t: Twin): (l: Level)
    ensures l == Polarity(t.activeHigh, false)
    ensures l.Low? <==> t.activeHigh
  {
    if t.activeHigh then Low else High
  }

  /** An entry bound to a GPIO whose open fails. */
  predicate OpenFails(t: Twin, gpio: Gpio)
  {
    t.gpio != NoGpioAssociatedWithTwin && gpio.OpenResult(t.gpio) < 0
  }

  /** The index of the first entry whose open fails, |reg| when none does. */
  function FirstOpenFailure(reg: seq<Twin>, gpio: Gpio): (i: nat)
    ensures i <= |reg|
    ensures i < |reg| ==> OpenFails(reg[i], gpio)
    ensures forall k :: 0 <= k < i ==> !OpenFails(reg[k], gpio)
  {
    FirstOpenFailureFrom(reg, gpio, 0)
  }

  function FirstOpenFailureFrom(reg: seq<Twin>, gpio: Gpio, j: nat): (i: nat)
    requires j <= |reg|
    ensures j <= i <= |reg|
    ensures i < |reg| ==> OpenFails(reg[i], gpio)
    ensures forall k :: j <= k < i ==> !OpenFails(reg[k], gpio)
    decreases |reg| - j
  {
    if j == |reg| then j else if OpenFails(reg[j], gpio) then j else FirstOpenFailureFrom(reg, gpio, j + 1)
  }

  /** The open the loop makes for one entry: none for an entry without a GPIO. */
  function EntryOpen(t: Twin): seq<GpioOpen>
  {
    if t.gpio != NoGpioAssociatedWithTwin then [GpioOpen(t.gpio, InactiveLevel(t))] else []
  }

  /** The opens the loop makes for entries [0, n): one per GPIO-bound entry,
      in order, at its inactive level. */
  function OpensFor(reg: seq<Twin>, n: nat): seq<GpioOpen>
    requires n <= |reg|
  {
    if n == 0 then [] else OpensFor(reg, n - 1) + EntryOpen(reg[n - 1])
  }

  /** The entries the loop reaches: up to and including the first failure. */
  function Reached(reg: seq<Twin>, gpio: Gpio): (n: nat)
    ensures n <= |reg|
  {
    var f := FirstOpenFailure(reg, gpio);
    if f < |reg| then f + 1 else |reg|
  }

  /** Every open is of a GPIO-bound entry, at the level that means "off". */
  lemma {:induction false} OpensAreInactive(reg: seq<Twin>, n: nat)
    requires n <= |reg|
    ensures forall o :: o in OpensFor(reg, n) ==>
              exists k :: 0 <= k < n && reg[k].gpio == o.gpio && reg[k].gpio != NoGpioAssociatedWithTwin &&
                          o.initial == Polarity(reg[k].activeHigh, false)
  {
    if n > 0 {
      OpensAreInactive(reg, n - 1);
      forall o | o in OpensFor(reg, n)
        ensures exists k :: 0 <= k < n && reg[k].gpio == o.gpio && reg[k].gpio != NoGpioAssociatedWithTwin &&
                            o.initial == Polarity(reg[k].activeHigh, false)
      {
        if o in OpensFor(reg, n - 1) {
          var k :| 0 <= k < n - 1 && reg[k].gpio == o.gpio && reg[k].gpio != NoGpioAssociatedWithTwin &&
                   o.initial == Polarity(reg[k].activeHigh, false);
          assert 0 <= k < n;
        } else {
          assert o in EntryOpen(reg[n - 1]);
        }
      }
    }
  }

  /** For the agent's registry, when every open succeeds: seven opens, the LEDs
      starting High (off, being active-low) and the relays starting Low. */
  lemma TwinArrayOpens()
    ensures OpensFor(TwinArray(), 7) ==
              [ GpioOpen(8, High), GpioOpen(9, High), GpioOpen(10, High), GpioOpen(4, High), GpioOpen(5, High),
                GpioOpen(34, Low), GpioOpen(0, Low) ]
  {
    var reg := TwinArray();
    assert OpensFor(reg, 3) == [GpioOpen(8, High), GpioOpen(9, High), GpioOpen(10, High)];
    assert OpensFor(reg, 5) == [GpioOpen(8, High), GpioOpen(9, High), GpioOpen(10, High), GpioOpen(4, High), GpioOpen(5, High)];
  }

  /** The twin loop of InitPeripheralsAndHandlers: every GPIO-bound entry's
      descriptor is reset to -1 and then set to the result of opening its GPIO
      as an output at the inactive level; the first failed open returns -1 and
      leaves the later entries alone. The descriptors are gathered in a local
      copy and stored when the loop ends; nothing observes them in between. */
  method InitTwinGpios(twin: TwinState, gpio: Gpio) returns (status: int)
    requires twin.Valid()
    modifies twin`fds, gpio`opens
    ensures twin.Valid()
    ensures status == 0 <==> FirstOpenFailure(twin.registry, gpio) == |twin.registry|
    ensures status == -1 <==> FirstOpenFailure(twin.registry, gpio) < |twin.registry|
    ensures gpio.opens == old(gpio.opens) + OpensFor(twin.registry, Reached(twin.registry, gpio))
    ensures forall k :: 0 <= k < |twin.registry| ==>
              twin.fds[k] == (if k < Reached(twin.registry, gpio) && twin.registry[k].gpio != NoGpioAssociatedWithTwin
                              then gpio.OpenResult(twin.registry[k].gpio) else old(twin.fds[k]))
  {
    var fds;
    status, fds := OpenTwinGpios(twin.registry, twin.fds, gpio);
    twin.fds := fds;
  }

  /** The loop itself, over the registry and the descriptors it starts from. */
  method OpenTwinGpios(reg: seq<Twin>, fds0: seq<int>, gpio: Gpio) returns (status: int, fds: seq<int>)
    requires |fds0| == |reg|
    modifies gpio`opens
    ensures status == 0 <==> FirstOpenFailure(reg, gpio) == |reg|
    ensures status == -1 <==> FirstOpenFailure(reg, gpio) < |reg|
    ensures gpio.opens == old(gpio.opens) + OpensFor(reg, Reached(reg, gpio))
    ensures fds == OpenedFds(reg, fds0, gpio, Reached(reg, gpio))
  {
    fds := fds0;
    ghost var opens0 := gpio.opens;
    var i := 0;
    while i < |reg|
      invariant InitLoop(reg, gpio, opens0, fds0, i, gpio.opens, fds)
    {
      if OpenFails(reg[i], gpio) {
        InitFails(reg, gpio, opens0, fds0, i, gpio.opens, fds);
      } else {
        InitAdvances(reg, gpio, opens0, fds0, i, gpio.opens, fds);
      }
      if reg[i].gpio != NoGpioAssociatedWithTwin {
        fds := fds[i := -1];
        var fd := gpio.OpenAsOutput(reg[i].gpio, InactiveLevel(reg[i]));
        fds := fds[i := fd];
        if fd < 0 {
          return -1, fds;
        }
      }
      i := i + 1;
    }
    InitDone(reg, gpio, opens0, fds0, gpio.opens, fds);
    return 0, fds;
  }

  /** The loop has opened entries [0, i), none of which failed. */
  ghost predicate InitLoop(reg: seq<Twin>, gpio: Gpio, opens0: seq<GpioOpen>, fds0: seq<int>,
                           i: nat, opens: seq<GpioOpen>, fds: seq<int>)
  {
    && i <= FirstOpenFailure(reg, gpio) && |fds0| == |reg|
    && opens == opens0 + OpensFor(reg, i)
    && fds == OpenedFds(reg, fds0, gpio, i)
  }

  /** The descriptors once entry i has been opened. */
  ghost function StepFds(reg: seq<Twin>, gpio: Gpio, i: nat, fds: seq<int>): seq<int>
    requires i < |reg| == |fds|
  {
    if reg[i].gpio != NoGpioAssociatedWithTwin then fds[i := gpio.OpenResult(reg[i].gpio)] else fds
  }

  /** Opening entry i fails: the loop ends at the first failure. */
  lemma InitFails(reg: seq<Twin>, gpio: Gpio, opens0: seq<GpioOpen>, fds0: seq<int>,
                  i: nat, opens: seq<GpioOpen>, fds: seq<int>)
    requires i < |reg| && InitLoop(reg, gpio, opens0, fds0, i, opens, fds) && OpenFails(reg[i], gpio)
    ensures FirstOpenFailure(reg, gpio) < |reg| && Reached(reg, gpio) == i + 1
    ensures opens + EntryOpen(reg[i]) == opens0 + OpensFor(reg, Reached(reg, gpio))
    ensures StepFds(reg, gpio, i, fds) == OpenedFds(reg, fds0, gpio, Reached(reg, gpio))
  {
    StopsAt(reg, gpio, i);
    OpenedFdsStep(reg, fds0, gpio, i);
    OpensAppend(reg, opens0, i);
  }

  lemma StopsAt(reg: seq<Twin>, gpio: Gpio, i: nat)
    requires i < |reg| && i <= FirstOpenFailure(reg, gpio) && OpenFails(reg[i], gpio)
    ensures FirstOpenFailure(reg, gpio) == i && Reached(reg, gpio) == i + 1
  {
  }

  lemma OpensAppend(reg: seq<Twin>, opens0: seq<GpioOpen>, i: nat)
    requires i < |reg|
    ensures opens0 + OpensFor(reg, i) + EntryOpen(reg[i]) == opens0 + OpensFor(reg, i + 1)
  {
    assert OpensFor(reg, i + 1) == OpensFor(reg, i) + EntryOpen(reg[i]);
  }

  /** Opening entry i succeeds (or there is nothing to open): the loop moves on. */
  lemma InitAdvances(reg: seq<Twin>, gpio: Gpio, opens0: seq<GpioOpen>, fds0: seq<int>,
                     i: nat, opens: seq<GpioOpen>, fds: seq<int>)
    requires i < |reg| && InitLoop(reg, gpio, opens0, fds0, i, opens, fds) && !OpenFails(reg[i], gpio)
    ensures InitLoop(reg, gpio, opens0, fds0, i + 1, opens + EntryOpen(reg[i]), StepFds(reg, gpio, i, fds))
  {
    OpenedFdsStep(reg, fds0, gpio, i);
    OpensAppend(reg, opens0, i);
  }

  /** When the loop runs to the end, no open failed. */
  lemma InitDone(reg: seq<Twin>, gpio: Gpio, opens0: seq<GpioOpen>, fds0: seq<int>, opens: seq<GpioOpen>, fds: seq<int>)
    requires InitLoop(reg, gpio, opens0, fds0, |reg|, opens, fds)
    ensures FirstOpenFailure(reg, gpio) == |reg| == Reached(reg, gpio)
    ensures opens == opens0 + OpensFor(reg, Reached(reg, gpio))
    ensures fds == OpenedFds(reg, fds0, gpio, Reached(reg, gpio))
  {
  }

  /** The descriptors after the loop has opened entries [0, n). */
  ghost function OpenedFds(reg: seq<Twin>, fds0: seq<int>, gpio: Gpio, n: nat): (fds: seq<int>)
    requires |fds0| == |reg|
    ensures |fds| == |reg|
  {
    seq(|reg|, k requires 0 <= k < |reg| =>
      if k < n && reg[k].gpio != NoGpioAssociatedWithTwin then gpio.OpenResult(reg[k].gpio) else fds0[k])
  }

  lemma OpenedFdsStep(reg: seq<Twin>, fds0: seq<int>, gpio: Gpio, i: nat)
    requires |fds0| == |reg| && i < |reg|
    ensures OpenedFds(reg, fds0, gpio, i + 1) ==
              if reg[i].gpio != NoGpioAssociatedWithTwin then OpenedFds(reg, fds0, gpio, i)[i := gpio.OpenResult(reg[i].gpio)]
              else OpenedFds(reg, fds0, gpio, i)
  {
  }

  // ---------------------------------------------------------------------------
  // Network configuration and version reports
  // ---------------------------------------------------------------------------

  /** uint8_t. */
  type Byte = x: int | 0 <= x < 256

  /** A BSSID: the six bytes of the access point's MAC address. */
  type Mac = b: seq<Byte> | |b| == 6 witness [0, 0, 0, 0, 0, 0]

  /** What WifiConfig_GetCurrentNetwork returns when connected. SSIDs are taken
      to hold no NUL. */
  datatype Network = Network(ssid: string, frequencyMHz: int, bssid: Mac)

  function HexDigit(d: nat): (c: char)
    requires d < 16
  {
    "0123456789abcdef"[d]
  }

  function HexValue(c: char): Option<nat>
  {
    if '0' <= c <= '9' then Some(c as int - '0' as int)
    else if 'a' <= c <= 'f' then Some(c as int - 'a' as int + 10)
    else None
  }

  lemma HexDigitValue(d: nat)
    requires d < 16
    ensures HexValue(HexDigit(d)) == Some(d)
  {
  }

  /** `%02x` of a byte. */
  function Hex2(b: Byte): (s: string)
    ensures |s| == 2
  {
    [HexDigit(b / 16), HexDigit(b % 16)]
  }

  function ParseHex2(s: string): Option<Byte>
    requires |s| == 2
  {
    match (HexValue(s[0]), HexValue(s[1]))
    case (Some(h), Some(l)) => if h < 16 && l < 16 then Some(16 * h + l) else None
    case _ => None
  }

  lemma ParseHex2OfHex2(b: Byte)
    ensures ParseHex2(Hex2(b)) == Some(b)
  {
    HexDigitValue(b / 16);
    HexDigitValue(b % 16);
  }

  /** Bytes as `%02x` pairs joined by ':'. */
  function HexPairs(bytes: seq<Byte>): (s: string)
    requires |bytes| >= 1
    ensures |s| == 3 * |bytes| - 1
  {
    if |bytes| == 1 then Hex2(bytes[0]) else Hex2(bytes[0]) + ":" + HexPairs(bytes[1..])
  }

  /** Reads `n` ':'-joined pairs back. */
  function ParsePairs(s: string, n: nat): (r: Option<seq<Byte>>)
    requires n >= 1
    ensures r.Some? ==> |r.value| == n
  {
    if n == 1 then
      if |s| != 2 then None
      else match ParseHex2(s) case Some(b) => Some([b]) case None => None
    else if |s| < 3 || s[2] != ':' then None
    else
      match (ParseHex2(s[..2]), ParsePairs(s[3..], n - 1))
      case (Some(b), Some(rest)) => Some([b] + rest)
      case _ => None
  }

  lemma {:induction false} ParsePairsOfHexPairs(bytes: seq<Byte>)
    requires |bytes| >= 1
    ensures ParsePairs(HexPairs(bytes), |bytes|) == Some(bytes)
    decreases |bytes|
  {
    if |bytes| > 1 {
      ParsePairsOfHexPairs(bytes[1..]);
      ParsePairsCons(bytes[0], HexPairs(bytes[1..]), |bytes|, bytes[1..]);
      assert [bytes[0]] + bytes[1..] == bytes;
    } else {
      ParseHex2OfHex2(bytes[0]);
      assert [bytes[0]] == bytes;
    }
  }

  /** One more pair in front of a text that reads back. */
  lemma ParsePairsCons(b: Byte, rest: string, n: nat, tail: seq<Byte>)
    requires n >= 2 && ParsePairs(rest, n - 1) == Some(tail)
    ensures ParsePairs(Hex2(b) + ":" + rest, n) == Some([b] + tail)
  {
    ParseHex2OfHex2(b);
    PairSlices(b, rest);
  }

  lemma PairSlices(b: Byte, rest: string)
    ensures var s := Hex2(b) + ":" + rest;
            s[..2] == Hex2(b) && s[2] == ':' && s[3..] == rest
  {
  }

  /** The bssid text: `%02x:%02x:%02x:%02x:%02x:%02x`. */
  function BssidText(m: Mac): (s: string)
    ensures |s| == 17
  {
    HexPairs(m)
  }

  /** Reads a bssid text back. */
  function ParseBssid(s: string): Option<Mac>
  {
    match ParsePairs(s, 6)
    case Some(bytes) => Some(bytes)
    case None => None
  }

  /** The bssid text loses nothing: it reads back as the six bytes. */
  lemma BssidRoundTrip(m: Mac)
    ensures ParseBssid(BssidText(m)) == Some(m)
  {
    ParsePairsOfHexPairs(m);
  }

  /** `strncmp(ssid, network.ssid, ssidLength) != 0` AS WRITTEN, for a stored
      C string and an SSID without NUL: the comparison stops after the new
      SSID's length, so it finds no difference when the new SSID is a prefix
      of the stored one. */
  predicate StrncmpDiffers(stored: string, ssid: string)
  {
    !(|stored| >= |ssid| && stored[..|ssid|] == ssid)
  }

  /** The intended test: the SSID changed. */
  predicate SsidChanged(stored: string, ssid: string)
  {
    stored != ssid
  }

  /** strncmp never reports a change that did not happen, and it misses
      exactly the changes to a proper prefix of the stored SSID. */
  lemma StrncmpMissesPrefixes(stored: string, ssid: string)
    ensures StrncmpDiffers(stored, ssid) ==> SsidChanged(stored, ssid)
    ensures (SsidChanged(stored, ssid) && !StrncmpDiffers(stored, ssid)) <==>
              (|ssid| < |stored| && stored[..|ssid|] == ssid)
  {
    if stored == ssid {
      assert stored[..|ssid|] == stored;
    }
  }

  /** Roaming from "HomeNet2" to "HomeNet" goes unreported as written. */
  lemma PrefixSsidChangeMissed()
    ensures SsidChanged("HomeNet2", "HomeNet") && !StrncmpDiffers("HomeNet2", "HomeNet")
  {
    assert "HomeNet2"[..7] == "HomeNet";
  }

  /** The loop's locals: the stored SSID, frequency and bssid text, and the
      two "already sent" flags. */
  datatype NetState = NetState(ssid: string, frequency: int, bssid: string,
                               networkConfigSent: bool, versionStringSent: bool)

  /** The state main starts with: the SSID buffer cleared, nothing sent. */
  function InitialNetState(): NetState
  {
    NetState("", 0, "", false, false)
  }

  /** A report main makes: always the plain template, since it passes `false`
      for the acknowledgement format (the desired version is then unused), and
      handed over as checkAndUpdateDeviceTwin is written. */
  function MainReport(key: string, v: Value): seq<Handover>
  {
    OptionToSeq(CheckAndUpdateAsWritten(Some(key), v, Plain, 0))
  }

  /** The network report: ssid, freq and bssid, in that order. */
  function NetworkReports(n: Network): seq<Handover>
  {
    MainReport("ssid", TextValue(n.ssid)) + MainReport("freq", IntValue(n.frequencyMHz)) +
    MainReport("bssid", TextValue(BssidText(n.bssid)))
  }

  /** The network part of an iteration, with the comparison AS WRITTEN: the
      frequency and bssid are always refreshed; the SSID is stored and the
      configuration reported on the first connection and whenever strncmp
      finds a difference. */
  function NetworkStepAsWritten(st: NetState, network: Option<Network>): (r: (NetState, bool))
    ensures network.None? ==> r == (st, false)
    ensures network.Some? ==> r.1 == (StrncmpDiffers(st.ssid, network.value.ssid) || !st.networkConfigSent)
    ensures network.Some? ==> r.0.networkConfigSent && r.0.ssid == (if r.1 then network.value.ssid else st.ssid)
    ensures network.Some? ==> r.0.frequency == network.value.frequencyMHz && r.0.bssid == BssidText(network.value.bssid)
    ensures r.0.versionStringSent == st.versionStringSent
  {
    match network
    case None => (st, false)
    case Some(n) =>
      var changed := StrncmpDiffers(st.ssid, n.ssid) || !st.networkConfigSent;
      var st' := st.(frequency := n.frequencyMHz, bssid := BssidText(n.bssid));
      if changed then (st'.(ssid := n.ssid, networkConfigSent := true), true) else (st', false)
  }

  /** The network part of an iteration: the frequency and bssid are always
      refreshed; the SSID is stored and the configuration reported on the
      first connection and whenever the SSID changed. */
  function NetworkStep(st: NetState, network: Option<Network>): (r: (NetState, bool))
    ensures network.None? ==> r == (st, false)
    ensures network.Some? ==> r.1 == (SsidChanged(st.ssid, network.value.ssid) || !st.networkConfigSent)
    ensures network.Some? ==> r.0.networkConfigSent && r.0.ssid == network.value.ssid
    ensures network.Some? ==> r.0.frequency == network.value.frequencyMHz && r.0.bssid == BssidText(network.value.bssid)
    ensures r.0.versionStringSent == st.versionStringSent
  {
    match network
    case None => (st, false)
    case Some(n) =>
      var changed := SsidChanged(st.ssid, n.ssid) || !st.networkConfigSent;
      var st' := st.(frequency := n.frequencyMHz, bssid := BssidText(n.bssid));
      if changed then (st'.(ssid := n.ssid, networkConfigSent := true), true) else (st', false)
  }

  /** With the comparison as written, the roam from "HomeNet2" to "HomeNet"
      after a first report is not reported; the corrected step reports it. */
  lemma RoamToPrefixUnreported(n: Network)
    requires n.ssid == "HomeNet"
    ensures var st := NetState("HomeNet2", 2412, "", true, false);
            !NetworkStepAsWritten(st, Some(n)).1 && NetworkStep(st, Some(n)).1
  {
    PrefixSsidChangeMissed();
  }

  /** One pass of main's loop after the event dispatch: the new state, and the
      reports in the order they are made. In a build without a cloud
      connection the reports and the version rule are compiled out. */
  function Iterate(st: NetState, network: Option<Network>, connected: bool, cloudBuild: bool, version: string):
    (r: (NetState, seq<Handover>))
    ensures r.0.versionStringSent == (st.versionStringSent || (cloudBuild && connected))
    ensures r.0.(versionStringSent := st.versionStringSent) == NetworkStepAsWritten(st, network).0
    ensures |r.1| == (if cloudBuild && NetworkStepAsWritten(st, network).1 then 3 else 0) +
                     (if cloudBuild && connected && !st.versionStringSent then 1 else 0)
  {
    var (st1, changed) := NetworkStepAsWritten(st, network);
    var netReports := if cloudBuild && changed then NetworkReports(network.value) else [];
    if cloudBuild && connected && !st1.versionStringSent then
      (st1.(versionStringSent := true), netReports + MainReport("versionString", TextValue(version)))
    else (st1, netReports)
  }

  /** A pass is its network step followed by the version rule: an unfolding of
      Iterate used as the proof step of MainLoop.Iteration, not a property. */
  lemma IterateParts(st: NetState, network: Option<Network>, connected: bool, cloudBuild: bool, version: string)
    ensures var (st1, changed) := NetworkStepAsWritten(st, network);
            var reported := cloudBuild && connected && !st.versionStringSent;
            Iterate(st, network, connected, cloudBuild, version) ==
              (st1.(versionStringSent := st.versionStringSent || reported),
               (if cloudBuild && changed then NetworkReports(network.value) else []) +
               (if reported then MainReport("versionString", TextValue(version)) else []))
  {
    var netReports := if cloudBuild && NetworkStepAsWritten(st, network).1 then NetworkReports(network.value) else [];
    assert netReports + [] == netReports;
  }

  /** A text report from main that fits the buffer is handed over whole, and
      its key reads back in front of the quoted text. */
  lemma TextReportWhole(key: string, s: string)
    requires '"' !in key && |key| + |s| < JsonBufferSize - 8
    ensures var t := Template(key, TextValue(s), Plain, 0);
            && MainReport(key, TextValue(s)) == [Handover(t, |t|)]
            && SplitKey(t) == Some((key, "\": \"" + s + "\"}"))
  {
    var rest := "\": \"" + s + "\"}";
    var t := Template(key, TextValue(s), Plain, 0);
    TextAfterKey(s);
    assert t == "{\"" + (key + rest);
    WholeReport(key, TextValue(s));
    SplitKeyOf(key, rest);
  }

  lemma TextAfterKey(s: string)
    ensures AfterKey(TextValue(s), Plain, 0) == "\": \"" + s + "\"}"
    ensures |AfterKey(TextValue(s), Plain, 0)| == |s| + 6
  {
  }

  /** A report from main whose template fits is handed over whole. */
  lemma WholeReport(key: string, v: Value)
    requires |Template(key, v, Plain, 0)| < JsonBufferSize
    ensures var t := Template(key, v, Plain, 0);
            MainReport(key, v) == [Handover(t, |t|)]
  {
    CorrectedAgreesWhenFitting(Some(key), v, Plain, 0);
  }

  /** A report handed over whole whose key is `ssid` and whose quoted value is `s`. */
  predicate SsidReadsBack(h: Handover, s: string)
  {
    h.size == |h.buffer| && SplitKey(h.buffer) == Some(("ssid", "\": \"" + s + "\"}"))
  }

  /** A report handed over whole that reads back as key `freq` and the integer `f`. */
  predicate FreqReadsBack(h: Handover, f: int)
  {
    h.size == |h.buffer| && DecodeReport(h.buffer, Plain) == Some(Decoded("freq", IntValue(f), None))
  }

  /** A report handed over whole whose key is `bssid` and whose quoted value
      parses back as the bytes `m`. */
  predicate BssidReadsBack(h: Handover, m: Mac)
  {
    && h.size == |h.buffer|
    && match SplitKey(h.buffer)
       case None => false
       case Some((key, rest)) => key == "bssid" && |rest| >= 21 && ParseBssid(rest[4..21]) == Some(m)
  }

  lemma BssidReportReadsBack(m: Mac)
    ensures var h := MainReport("bssid", TextValue(BssidText(m)));
            |h| == 1 && BssidReadsBack(h[0], m)
  {
    TextReportWhole("bssid", BssidText(m));
    var rest := "\": \"" + BssidText(m) + "\"}";
    assert rest[4..21] == BssidText(m);
    BssidRoundTrip(m);
  }

  lemma FreqReportReadsBack(f: int)
    requires IsInt32(f)
    ensures var h := MainReport("freq", IntValue(f));
            |h| == 1 && FreqReadsBack(h[0], f)
  {
    Int32StringLength(f);
    CorrectedAgreesWhenFitting(Some("freq"), IntValue(f), Plain, 0);
    DecodeTemplate("freq", IntValue(f), Plain, 0);
  }

  lemma SsidReportReadsBack(s: string)
    requires |s| <= 32
    ensures var h := MainReport("ssid", TextValue(s));
            |h| == 1 && SsidReadsBack(h[0], s)
  {
    assert '"' !in "ssid" && |"ssid"| == 4;
    TextReportWhole("ssid", s);
  }

  /** The three network reports, ssid, freq and bssid in that order, read
      back: the freq report as the frequency, the bssid report as the bssid
      bytes, and the ssid report (for any SSID of at most 32 bytes, the 802.11
      limit) as the SSID. */
  lemma NetworkReportsReadBack(n: Network)
    requires IsInt32(n.frequencyMHz)
    ensures var r := NetworkReports(n);
            && |r| == 3
            && FreqReadsBack(r[1], n.frequencyMHz)
            && BssidReadsBack(r[2], n.bssid)
            && (|n.ssid| <= 32 ==> SsidReadsBack(r[0], n.ssid))
  {
    NetworkReportsLayout(n);
    FreqReportReadsBack(n.frequencyMHz);
    BssidReportReadsBack(n.bssid);
    if |n.ssid| <= 32 {
      SsidReportReadsBack(n.ssid);
    }
  }

  lemma NetworkReportsLayout(n: Network)
    ensures var a, b, c := MainReport("ssid", TextValue(n.ssid)), MainReport("freq", IntValue(n.frequencyMHz)),
                           MainReport("bssid", TextValue(BssidText(n.bssid)));
            |a| == |b| == |c| == 1 && NetworkReports(n) == [a[0], b[0], c[0]]
  {
  }

  /** On a pass whose network step reports, in a cloud build, the pass's
      first three reports are the network reports: ssid, freq and bssid, in
      that order, reading back as the new network's SSID, frequency and bssid. */
  lemma ChangedPassReports(st: NetState, n: Network, connected: bool, version: string)
    requires NetworkStepAsWritten(st, Some(n)).1 && IsInt32(n.frequencyMHz)
    ensures var r := Iterate(st, Some(n), connected, true, version).1;
            && |r| >= 3 && r[..3] == NetworkReports(n)
            && FreqReadsBack(r[1], n.frequencyMHz)
            && BssidReadsBack(r[2], n.bssid)
            && (|n.ssid| <= 32 ==> SsidReadsBack(r[0], n.ssid))
  {
    var r := Iterate(st, Some(n), connected, true, version).1;
    IterateParts(st, Some(n), connected, true, version);
    NetworkReportsLayout(n);
    assert r[..3] == NetworkReports(n);
    assert r[0] == NetworkReports(n)[0] && r[1] == NetworkReports(n)[1] && r[2] == NetworkReports(n)[2];
    NetworkReportsReadBack(n);
  }

  /** Whether an iteration reports the version string. */
  function ReportsVersion(st: NetState, connected: bool, cloudBuild: bool): bool
  {
    cloudBuild && connected && !st.versionStringSent
  }

  /** A second pass with the same network reports no network configuration,
      with the corrected test and with strncmp alike. */
  lemma SameNetworkIsQuiet(st: NetState, n: Network)
    ensures var st1 := NetworkStep(st, Some(n)).0;
            !NetworkStep(st1, Some(n)).1 && NetworkStep(st1, Some(n)).0 == st1
    ensures var st1 := NetworkStepAsWritten(st, Some(n)).0;
            !NetworkStepAsWritten(st1, Some(n)).1 && NetworkStepAsWritten(st1, Some(n)).0 == st1
  {
    var st1 := NetworkStepAsWritten(st, Some(n)).0;
    assert st1.ssid[..|n.ssid|] == n.ssid;
  }

  /** The as-written step and the corrected one differ only when a
      configuration has been sent and the new SSID is a proper prefix of the
      stored one. */
  lemma AsWrittenStepAgrees(st: NetState, network: Option<Network>)
    ensures NetworkStepAsWritten(st, network) != NetworkStep(st, network) <==>
              && network.Some? && st.networkConfigSent
              && |network.value.ssid| < |st.ssid| && st.ssid[..|network.value.ssid|] == network.value.ssid
  {
    if network.Some? {
      StrncmpMissesPrefixes(st.ssid, network.value.ssid);
    }
  }

  /** The versionStringSent flag only goes from false to true. */
  lemma IterateKeepsVersionSent(st: NetState, network: Option<Network>, connected: bool, cloudBuild: bool, version: string)
    ensures var st' := Iterate(st, network, connected, cloudBuild, version).0;
            st'.versionStringSent == (st.versionStringSent || ReportsVersion(st, connected, cloudBuild))
  {
  }

  /** How many passes of a run report the version string. */
  function VersionReports(st: NetState, inputs: seq<(Option<Network>, bool)>, cloudBuild: bool, version: string): nat
    decreases |inputs|
  {
    if |inputs| == 0 then 0
    else
      (if ReportsVersion(st, inputs[0].1, cloudBuild) then 1 else 0) +
      VersionReports(Iterate(st, inputs[0].0, inputs[0].1, cloudBuild, version).0, inputs[1..], cloudBuild, version)
  }

  /** The version string is reported at most once in any run, and exactly once
      in a cloud build that connects at least once, starting from a state that
      has not sent it. */
  lemma {:induction false} VersionReportedOnce(st: NetState, inputs: seq<(Option<Network>, bool)>, cloudBuild: bool, version: string)
    ensures st.versionStringSent ==> VersionReports(st, inputs, cloudBuild, version) == 0
    ensures VersionReports(st, inputs, cloudBuild, version) <= 1
    ensures !st.versionStringSent && cloudBuild ==>
              (VersionReports(st, inputs, cloudBuild, version) == 1 <==> exists k :: 0 <= k < |inputs| && inputs[k].1)
    decreases |inputs|
  {
    if |inputs| > 0 {
      var st1 := Iterate(st, inputs[0].0, inputs[0].1, cloudBuild, version).0;
      IterateKeepsVersionSent(st, inputs[0].0, inputs[0].1, cloudBuild, version);
      VersionReportedOnce(st1, inputs[1..], cloudBuild, version);
      if !st.versionStringSent && cloudBuild {
        if inputs[0].1 {
        } else {
          assert (exists k :: 0 <= k < |inputs| && inputs[k].1) <==> (exists k :: 0 <= k < |inputs[1..]| && inputs[1..][k].1) by {
            forall k | 0 <= k < |inputs| && inputs[k].1
              ensures k >= 1 && inputs[1..][k - 1].1
            {
            }
          }
        }
      }
    }
  }

  /** main's locals as a loop state. */
  class MainLoop {
    var ssid: string
    var frequency: int
    var bssid: string
    var networkConfigSent: bool
    var versionStringSent: bool

    function State(): NetState
      reads this
    {
      NetState(ssid, frequency, bssid, networkConfigSent, versionStringSent)
    }

    constructor ()
      ensures State() == InitialNetState()
    {
      ssid := "";
      frequency := 0;
      bssid := "";
      networkConfigSent := false;
      versionStringSent := false;
    }

    /** One pass of the loop after the event dispatch and the client set-up.
        `network` is what WifiConfig_GetCurrentNetwork returned (None when not
        connected to Wi-Fi); `version` is the program's first argument; `now` is
        the clock reading AzureIoT_DoPeriodicTasks takes at the end of the pass. */
    method Iteration(network: Option<Network>, cloudBuild: bool, version: string, now: Option<int>, client: AzureIoT.Client)
      modifies this, client`handedReports, client`lastTimeLogged, client`periodicLogs
      ensures State() == Iterate(old(State()), network, client.handle.Some?, cloudBuild, version).0
      ensures client.handedReports == old(client.handedReports) +
                (if client.handle.Some? then Handed(Iterate(old(State()), network, client.handle.Some?, cloudBuild, version).1) else [])
      ensures var step := AzureIoT.PeriodicStep(old(client.lastTimeLogged), AzureIoT.DoPeriodicTasksLogPeriod, now);
              if cloudBuild then
                client.lastTimeLogged == step.1 &&
                client.periodicLogs == old(client.periodicLogs) + (if step.0 then [now.value] else [])
              else
                client.lastTimeLogged == old(client.lastTimeLogged) && client.periodicLogs == old(client.periodicLogs)
    {
      ghost var st0 := State();
      ghost var handed0 := client.handedReports;
      var changed := UpdateNetwork(network, cloudBuild, client);
      ghost var netReports := if cloudBuild && changed then NetworkReports(network.value) else [];
      ghost var handed1 := client.handedReports;
      var reported := ReportVersion(cloudBuild, version, client);
      ghost var versionReports := if reported then MainReport("versionString", TextValue(version)) else [];
      IterateParts(st0, network, client.handle.Some?, cloudBuild, version);
      assert Iterate(st0, network, client.handle.Some?, cloudBuild, version).1 == netReports + versionReports;
      HandedChain(handed0, handed1, client.handedReports, netReports, versionReports, client.handle.Some?);
      if cloudBuild {
        client.DoPeriodicTasks(now);
      }
    }

    /** The version part of a pass: the version string is reported once, on the
        first pass with a connected client. */
    method ReportVersion(cloudBuild: bool, version: string, client: AzureIoT.Client) returns (reported: bool)
      modifies this`versionStringSent, client`handedReports
      ensures reported == (cloudBuild && client.handle.Some? && !old(versionStringSent))
      ensures versionStringSent == (old(versionStringSent) || reported)
      ensures client.handedReports == old(client.handedReports) +
                (if reported then Handed(MainReport("versionString", TextValue(version))) else [])
    {
      reported := cloudBuild && client.handle.Some? && !versionStringSent;
      if reported {
        Report("versionString", TextValue(version), client);
        versionStringSent := true;
      }
    }

    /** The Wi-Fi part of a pass: refresh, compare, store and report. */
    method UpdateNetwork(network: Option<Network>, cloudBuild: bool, client: AzureIoT.Client) returns (changed: bool)
      modifies this, client`handedReports
      ensures (State(), changed) == NetworkStepAsWritten(old(State()), network)
      ensures client.handedReports == old(client.handedReports) +
                (if client.handle.Some? && cloudBuild && changed then Handed(NetworkReports(network.value)) else [])
    {
      changed := false;
      if network.Some? {
        var n := network.value;
        frequency := n.frequencyMHz;
        bssid := BssidText(n.bssid);
        if StrncmpDiffers(ssid, n.ssid) || !networkConfigSent {
          changed := true;
          ssid := n.ssid;
          networkConfigSent := true;
          if cloudBuild {
            ReportNetwork(n.ssid, frequency, bssid, client);
          }
        }
      }
    }
  }

  /** The three network reports, ssid, freq and bssid, in that order. */
  method ReportNetwork(ssid: string, frequency: int, bssid: string, client: AzureIoT.Client)
    modifies client`handedReports
    ensures client.handedReports == old(client.handedReports) +
              (if client.handle.Some? then Handed(MainReport("ssid", TextValue(ssid)) + MainReport("freq", IntValue(frequency)) +
                                                  MainReport("bssid", TextValue(bssid)))
               else [])
  {
    ghost var a, b, c := MainReport("ssid", TextValue(ssid)), MainReport("freq", IntValue(frequency)),
                         MainReport("bssid", TextValue(bssid));
    ghost var h0 := client.handedReports;
    Report("ssid", TextValue(ssid), client);
    ghost var h1 := client.handedReports;
    Report("freq", IntValue(frequency), client);
    ghost var h2 := client.handedReports;
    HandedChain(h0, h1, h2, a, b, client.handle.Some?);
    Report("bssid", TextValue(bssid), client);
    HandedChain(h0, h2, client.handedReports, a + b, c, client.handle.Some?);
  }

  /** checkAndUpdateDeviceTwin(key, value, kind, false) from main: the buffer
      goes to the SDK with snprintf's return value as its size. */
  method Report(key: string, v: Value, client: AzureIoT.Client)
    modifies client`handedReports
    ensures client.handedReports == old(client.handedReports) + (if client.handle.Some? then Handed(MainReport(key, v)) else [])
  {
    var h := CheckAndUpdateAsWritten(Some(key), v, Plain, 0).value;
    client.TwinReportStateJson(Some(h.buffer), h.size);
  }
}
