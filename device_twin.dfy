/** The device twin (device_twin.c, deviceTwin.h): the registry of synchronised
    properties, the reported-state encoder with its eight printf templates, and
    the handler that applies a desired-properties document to the value slots
    and the GPIO lines and reports each change back. */
module DeviceTwin {
  import opened Base
  import opened Json
  import opened Platform
  import AzureIoT

  /** JSON_BUFFER_SIZE: the heap buffer a report is formatted into. */
  const JsonBufferSize: nat := 128

  /** NO_GPIO_ASSOCIATED_WITH_TWIN. */
  const NoGpioAssociatedWithTwin: int := -1

  /** data_type_t. */
  datatype Kind = TypeInt | TypeFloat | TypeBool | TypeString

  /** The contents of a value slot, tagged with its type (floats are not modelled). */
  datatype Value = IntValue(i: int) | BoolValue(b: bool) | TextValue(s: string)

  function KindOf(v: Value): Kind
  {
    match v
    case IntValue(_) => TypeInt
    case BoolValue(_) => TypeBool
    case TextValue(_) => TypeString
  }

  /** twin_t: the slot and the descriptor it points to are the entry's index in
      the registry (`slots[i]`, `fds[i]`). */
  datatype Twin = Twin(key: string, gpio: int, kind: Kind, activeHigh: bool)

  /** twinArray: five active-low LEDs and two active-high relays, all booleans.
      GPIO ids: LED1 red/green/blue on GPIO 8/9/10, the app and Wi-Fi LEDs on
      GPIO 4/5, the click-socket-1 relays on GPIO 34 (CS) and GPIO 0 (PWM). */
  function TwinArray(): (reg: seq<Twin>)
    ensures |reg| == 7
    ensures forall i, j :: 0 <= i < j < |reg| ==> reg[i].key != reg[j].key
    ensures forall i :: 0 <= i < |reg| ==> reg[i].kind == TypeBool && reg[i].gpio != NoGpioAssociatedWithTwin
    ensures forall i :: 0 <= i < 5 ==> !reg[i].activeHigh
    ensures reg[5].activeHigh && reg[6].activeHigh
  {
    [ Twin("userLedRed", 8, TypeBool, false),
      Twin("userLedGreen", 9, TypeBool, false),
      Twin("userLedBlue", 10, TypeBool, false),
      Twin("appLed", 4, TypeBool, false),
      Twin("wifiLed", 5, TypeBool, false),
      Twin("clickBoardRelay1", 34, TypeBool, true),
      Twin("clickBoardRelay2", 0, TypeBool, true) ]
  }

  /** The initial values of the slot variables: LEDs off, relays on. */
  function InitialSlots(): (slots: seq<Value>)
    ensures |slots| == |TwinArray()|
    ensures forall i :: 0 <= i < |slots| ==> KindOf(slots[i]) == TwinArray()[i].kind
  {
    [ BoolValue(false), BoolValue(false), BoolValue(false), BoolValue(false), BoolValue(false),
      BoolValue(true), BoolValue(true) ]
  }

  /** Wire dialect of a report. */
  datatype Dialect = Plain | IoTCentral

  /** The acknowledgement templates exist only in an IoT Central build, and a
      caller picks them by passing `ioTCentralFormat`. */
  function ReportDialect(iotCentralBuild: bool, ioTCentralFormat: bool): (d: Dialect)
    ensures d == IoTCentral <==> iotCentralBuild && ioTCentralFormat
  {
    if iotCentralBuild && ioTCentralFormat then IoTCentral else Plain
  }

  // ---------------------------------------------------------------------------
  // Reported-state encoder
  // ---------------------------------------------------------------------------

  /** The pieces of the acknowledgement templates around the key, the value and
      the version. */
  const IotcOpen: string := "\"" + ": {\"value\": "
  const IotcMiddle: string := "," + " \"status\" : \"completed\" , \"desiredVersion\" : "
  const IotcClose: string := " }}"

  /** The `%s` argument for a boolean. */
  function BoolText(b: bool): string
  {
    if b then "true" else "false"
  }

  /** The value as the plain templates print it: a string is quoted. */
  function PlainValueText(v: Value): string
  {
    match v
    case IntValue(i) => IntToString(i)
    case BoolValue(b) => BoolText(b)
    case TextValue(s) => "\"" + s + "\""
  }

  /** The value as the acknowledgement templates print it: a string is not quoted. */
  function IotcValueText(v: Value): string
  {
    match v
    case IntValue(i) => IntToString(i)
    case BoolValue(b) => BoolText(b)
    case TextValue(s) => s
  }

  /** The complete text snprintf would produce for a report, before any
      truncation to the buffer. */
  function Template(key: string, v: Value, d: Dialect, version: int): string
  {
    "{\"" + (key + AfterKey(v, d, version))
  }

  /** The part of a report after the key: `": <value>}` in the plain dialect,
      the value wrapped in the acknowledgement in the other. */
  function AfterKey(v: Value, d: Dialect, version: int): string
  {
    match d
    case Plain => "\": " + PlainValueText(v) + "}"
    case IoTCentral => IotcOpen + (IotcValueText(v) + (IotcMiddle + IntToString(version))) + IotcClose
  }

  /** What checkAndUpdateDeviceTwin hands over AS WRITTEN: the buffer holds at
      most 127 characters, but the size passed along is snprintf's return value,
      the length of the untruncated text. */
  datatype Handover = Handover(buffer: string, size: nat)

  function CheckAndUpdateAsWritten(property: Option<string>, v: Value, d: Dialect, version: int): (r: Option<Handover>)
    ensures r.Some? <==> property.Some?
    ensures r.Some? ==> |r.value.buffer| < JsonBufferSize
    ensures r.Some? ==> r.value.size == |Template(property.value, v, d, version)|
    ensures r.Some? ==> var text := Template(property.value, v, d, version);
                        r.value.buffer == text[..if |text| < JsonBufferSize then |text| else JsonBufferSize - 1]
    ensures r.Some? ==> (r.value.size == |r.value.buffer| <==> r.value.size < JsonBufferSize)
  {
    if property.None? then None
    else
      var text := Template(property.value, v, d, version);
      var written := if |text| < JsonBufferSize then |text| else JsonBufferSize - 1;
      Some(Handover(text[..written], |text|))
  }

  /** A long text value makes the as-written encoder hand over a size larger
      than the text in the buffer: from 107 characters on the buffer holds only
      the first 127 characters, and from 108 on the size also exceeds the
      128-byte allocation, so the SDK would read past its end. The version
      string reported from `main` is such a value (it is the program's first
      argument, of any length). */
  lemma OversizedReportOverreads(version: string)
    requires |version| >= 107
    ensures var h := CheckAndUpdateAsWritten(Some("versionString"), TextValue(version), Plain, 0);
            && h.Some? && h.value.size == 21 + |version| && |h.value.buffer| == JsonBufferSize - 1
            && h.value.buffer == Template("versionString", TextValue(version), Plain, 0)[..JsonBufferSize - 1]
            && h.value.size > |h.value.buffer|
            && (|version| > 107 ==> h.value.size > JsonBufferSize)
  {
    assert |PlainValueText(TextValue(version))| == |version| + 2;
    assert |AfterKey(TextValue(version), Plain, 0)| == |version| + 6;
  }

  /** checkAndUpdateDeviceTwin as intended: a NULL property name produces
      nothing, and a report is produced only when its whole text fits in the
      buffer together with its NUL; a report is never partial. */
  function CheckAndUpdateDeviceTwin(property: Option<string>, v: Value, d: Dialect, version: int): (r: Option<string>)
    ensures r.Some? <==> property.Some? && |Template(property.value, v, d, version)| < JsonBufferSize
    ensures r.Some? ==> r.value == Template(property.value, v, d, version) && 0 < |r.value| < JsonBufferSize
  {
    if property.None? then None
    else
      var text := Template(property.value, v, d, version);
      if |text| < JsonBufferSize then Some(text) else None
  }

  /** Whenever the intended encoder reports, the as-written one hands over the
      same bytes with the same size: the two differ only on oversized reports. */
  lemma CorrectedAgreesWhenFitting(property: Option<string>, v: Value, d: Dialect, version: int)
    requires CheckAndUpdateDeviceTwin(property, v, d, version).Some?
    ensures var h := CheckAndUpdateAsWritten(property, v, d, version).value;
            var t := CheckAndUpdateDeviceTwin(property, v, d, version).value;
            h.buffer == t && h.size == |t|
  {
  }

  /** The report of the example: `{"appLed": false}` in the plain dialect. */
  lemma AppLedExample()
    ensures CheckAndUpdateDeviceTwin(Some("appLed"), BoolValue(false), Plain, 3) == Some("{\"appLed\": false}")
  {
    var t := Template("appLed", BoolValue(false), Plain, 3);
    assert t == "{\"" + "appLed" + "\": " + "false" + "}";
    assert t == "{\"appLed\": false}";
    assert |t| == 17;
  }

  // ---------------------------------------------------------------------------
  // Reading a report back
  // ---------------------------------------------------------------------------

  /** A report read back: key, value and, for the acknowledgement dialect, the
      desired version it carries. */
  datatype Decoded = Decoded(key: string, value: Value, version: Option<int>)

  /** A boolean or integer value token. */
  function ParseToken(tok: string): Option<Value>
  {
    if tok == "true" then Some(BoolValue(true))
    else if tok == "false" then Some(BoolValue(false))
    else match ParseInt(tok)
      case Some(i) => Some(IntValue(i))
      case None => None
  }

  /** Splits `{"<key>...` at the quote that closes the key. */
  function SplitKey(text: string): Option<(string, string)>
  {
    if |text| < 2 || text[..2] != "{\"" then None
    else
      var body := text[2..];
      var q := IndexOf(body, '"');
      Some((body[..q], body[q..]))
  }

  /** Reads `, "status" : "completed" , "desiredVersion" : <n>` after a value token. */
  function DecodeAck(middle: string): Option<(Value, int)>
  {
    var c := IndexOf(middle, ',');
    var tail := middle[c..];
    if |tail| >= |IotcMiddle| && tail[..|IotcMiddle|] == IotcMiddle then
      match (ParseToken(middle[..c]), ParseInt(tail[|IotcMiddle|..]))
      case (Some(v), Some(version)) => Some((v, version))
      case _ => None
    else None
  }

  /** Reads what follows the key: the value, and for an acknowledgement the version. */
  function DecodeValuePart(rest: string, d: Dialect): Option<(Value, Option<int>)>
  {
    match d
    case Plain =>
      if |rest| >= 4 && rest[..3] == "\": " && rest[|rest| - 1] == '}' then
        match ParseToken(rest[3..|rest| - 1])
        case Some(v) => Some((v, None))
        case None => None
      else None
    case IoTCentral =>
      if |rest| >= |IotcOpen| + |IotcClose| && rest[..|IotcOpen|] == IotcOpen &&
         rest[|rest| - |IotcClose|..] == IotcClose then
        match DecodeAck(rest[|IotcOpen|..|rest| - |IotcClose|])
        case Some((v, version)) => Some((v, Some(version)))
        case None => None
      else None
  }

  /** Reads a boolean or integer report of the given dialect. */
  function DecodeReport(text: string, d: Dialect): Option<Decoded>
  {
    match SplitKey(text)
    case None => None
    case Some((key, rest)) =>
      match DecodeValuePart(rest, d)
      case Some((v, version)) => Some(Decoded(key, v, version))
      case None => None
  }

  /** Values a report of the reconciler can carry. */
  predicate Reportable(v: Value) { !v.TextValue? }

  /** The token a template prints for a boolean or integer value. */
  lemma ValueToken(v: Value)
    requires Reportable(v)
    ensures PlainValueText(v) == IotcValueText(v)
    ensures ParseToken(PlainValueText(v)) == Some(v)
    ensures ',' !in PlainValueText(v) && |PlainValueText(v)| > 0
  {
    if v.IntValue? {
      var t := IntToString(v.i);
      ParseIntToString(v.i);
      if v.i < 0 {
        NatToStringDigits(-v.i);
        assert t[0] == '-' && t[1..] == NatToString(-v.i);
      } else {
        NatToStringDigits(v.i);
      }
      assert t != "true" && t != "false" by {
        assert t[0] == '-' || IsDigit(t[0]);
      }
      assert forall k :: 0 <= k < |t| ==> t[k] == '-' || IsDigit(t[k]);
    }
  }

  lemma SplitKeyOf(key: string, rest: string)
    requires '"' !in key && |rest| > 0 && rest[0] == '"'
    ensures SplitKey("{\"" + (key + rest)) == Some((key, rest))
  {
    var text := "{\"" + (key + rest);
    assert text[..2] == "{\"" && text[2..] == key + rest;
    IndexOfAfter(key, rest, '"');
    assert (key + rest)[..|key|] == key && (key + rest)[|key|..] == rest;
  }

  lemma DecodeAckOf(v: Value, version: int)
    requires Reportable(v)
    ensures DecodeAck(PlainValueText(v) + (IotcMiddle + IntToString(version))) == Some((v, version))
  {
    var tok := PlainValueText(v);
    var ver := IntToString(version);
    ValueToken(v);
    ParseIntToString(version);
    var middle := tok + (IotcMiddle + ver);
    assert (IotcMiddle + ver)[0] == ',';
    IndexOfAfter(tok, IotcMiddle + ver, ',');
    var tail := middle[|tok|..];
    assert middle[..|tok|] == tok && tail == IotcMiddle + ver;
    assert tail[..|IotcMiddle|] == IotcMiddle && tail[|IotcMiddle|..] == ver;
  }

  lemma DecodeValuePartOf(v: Value, d: Dialect, version: int)
    requires Reportable(v)
    ensures var rest := match d
              case Plain => "\": " + PlainValueText(v) + "}"
              case IoTCentral => IotcOpen + (PlainValueText(v) + (IotcMiddle + IntToString(version))) + IotcClose;
            DecodeValuePart(rest, d) == Some((v, if d == IoTCentral then Some(version) else None))
  {
    var tok := PlainValueText(v);
    ValueToken(v);
    if d == Plain {
      var rest := "\": " + tok + "}";
      assert rest[..3] == "\": " && rest[3..|rest| - 1] == tok;
    } else {
      var middle := tok + (IotcMiddle + IntToString(version));
      var rest := IotcOpen + middle + IotcClose;
      assert rest[..|IotcOpen|] == IotcOpen;
      assert rest[|rest| - |IotcClose|..] == IotcClose;
      assert rest[|IotcOpen|..|rest| - |IotcClose|] == middle;
      DecodeAckOf(v, version);
    }
  }

  /** Round trip: a boolean or integer report reads back as the key, the value
      and (acknowledgement dialect) the desired version it was made from. */
  lemma DecodeTemplate(key: string, v: Value, d: Dialect, version: int)
    requires '"' !in key && Reportable(v)
    ensures DecodeReport(Template(key, v, d, version), d) ==
              Some(Decoded(key, v, if d == IoTCentral then Some(version) else None))
  {
    var tok := PlainValueText(v);
    assert IotcValueText(v) == tok;
    var rest := AfterKey(v, d, version);
    assert rest[0] == '"';
    SplitKeyOf(key, rest);
    DecodeValuePartOf(v, d, version);
  }

  /** Every registry entry's boolean report fits the buffer in both dialects as
      long as the desired version is a C `int`. */
  lemma TwinArrayReportsFit(k: nat, b: bool, d: Dialect, version: int)
    requires k < |TwinArray()| && IsInt32(version)
    ensures |Template(TwinArray()[k].key, BoolValue(b), d, version)| < JsonBufferSize
    ensures CheckAndUpdateDeviceTwin(Some(TwinArray()[k].key), BoolValue(b), d, version).Some?
  {
    Int32StringLength(version);
    assert |TwinArray()[k].key| <= 16;
    assert |IotcOpen| == 13 && |IotcMiddle| == 46 && |IotcClose| == 3;
  }

  // ---------------------------------------------------------------------------
  // Reconciling a desired-properties document
  // ---------------------------------------------------------------------------

  /** The `$version` rule: stored, truncated to an integer, whenever the
      document has it; kept otherwise. No ordering check is made. */
  function NextVersion(version: int, doc: Option<Object>): (v: int)
    ensures HasValue(doc, "$version") ==> v == TruncateToInt(GetNumber(doc, "$version"))
    ensures !HasValue(doc, "$version") ==> v == version
  {
    if HasValue(doc, "$version") then TruncateToInt(GetNumber(doc, "$version")) else version
  }

  /** A document's `$version` replaces the stored one whatever their order: an
      older version overwrites a newer one. */
  lemma StaleVersionOverwrites(stored: int, sent: int)
    ensures NextVersion(stored, Some(map["$version" := JNumber(sent as real)])) == sent
  {
    var r := sent as real;
    if r < 0.0 {
      assert (-r).Floor == -sent;
    }
  }

  /** The boolean a key's desired value is read as. The plain dialect reads the
      key's value; the acknowledgement dialect reads its nested "value". A
      value that is not a boolean reads as true (parson's -1 cast to bool). */
  function ReadBool(doc: Option<Object>, key: string, d: Dialect): (b: bool)
    ensures d == Plain && HasValue(doc, key) && doc.value[key].JBool? ==> b == doc.value[key].b
    ensures d == Plain && !(HasValue(doc, key) && doc.value[key].JBool?) ==> b
    ensures d == IoTCentral ==>
              var inner := GetObject(doc, key);
              && (HasValue(inner, "value") && inner.value["value"].JBool? ==> b == inner.value["value"].b)
              && (!(HasValue(inner, "value") && inner.value["value"].JBool?) ==> b)
  {
    match d
    case Plain => IntToBool(GetBoolean(doc, key))
    case IoTCentral => IntToBool(GetBoolean(GetObject(doc, key), "value"))
  }

  /** The integer a key's desired value is read as (0 when not a number). */
  function ReadInt(doc: Option<Object>, key: string, d: Dialect): (i: int)
    ensures d == Plain && HasValue(doc, key) && doc.value[key].JNumber? ==> i == TruncateToInt(doc.value[key].r)
    ensures d == Plain && !(HasValue(doc, key) && doc.value[key].JNumber?) ==> i == 0
    ensures d == IoTCentral ==>
              var inner := GetObject(doc, key);
              && (HasValue(inner, "value") && inner.value["value"].JNumber? ==> i == TruncateToInt(inner.value["value"].r))
              && (!(HasValue(inner, "value") && inner.value["value"].JNumber?) ==> i == 0)
  {
    match d
    case Plain => TruncateToInt(GetNumber(doc, key))
    case IoTCentral => TruncateToInt(GetNumber(GetObject(doc, key), "value"))
  }

  /** The polarity rule: the line level for a logical value. An active-high line
      is driven high for true; an active-low line is driven low for true. */
  function Polarity(activeHigh: bool, b: bool): (l: Level)
    ensures l.High? <==> (b == activeHigh)
  {
    LevelOf(if activeHigh then b else !b)
  }

  /** No registry entry is a float: the float paths are not modelled. */
  predicate NoFloats(reg: seq<Twin>)
  {
    forall i :: 0 <= i < |reg| ==> reg[i].kind != TypeFloat
  }

  /** What the handler does for one registry entry. */
  datatype EntryEffect = EntryEffect(slot: Value, write: Option<GpioWrite>, report: Option<Handover>, failed: bool)

  function ApplyEntry(t: Twin, slot: Value, fd: int, failing: set<int>, doc: Option<Object>, d: Dialect, version: int): (e: EntryEffect)
    requires t.kind != TypeFloat
  {
    if !HasValue(doc, t.key) then EntryEffect(slot, None, None, false)
    else
      match t.kind
      case TypeBool =>
        var b := ReadBool(doc, t.key, d);
        EntryEffect(BoolValue(b), Some(GpioWrite(fd, Polarity(t.activeHigh, b))),
                    CheckAndUpdateAsWritten(Some(t.key), BoolValue(b), d, version), fd in failing)
      case TypeInt =>
        var i := ReadInt(doc, t.key, d);
        EntryEffect(IntValue(i), None, CheckAndUpdateAsWritten(Some(t.key), IntValue(i), d, version), false)
      case TypeString =>
        EntryEffect(slot, None, None, false)
  }

  function OptionToSeq<T>(o: Option<T>): seq<T>
  {
    if o.Some? then [o.value] else []
  }

  /** The combined effect of the handler's loop. */
  datatype Outcome = Outcome(slots: seq<Value>, writes: seq<GpioWrite>, reports: seq<Handover>, failed: bool)

  /** What each registry entry does on its own, in array order. */
  function Effects(reg: seq<Twin>, slots: seq<Value>, fds: seq<int>, failing: set<int>,
                   doc: Option<Object>, d: Dialect, version: int): (es: seq<EntryEffect>)
    requires |slots| == |reg| && |fds| == |reg| && NoFloats(reg)
    ensures |es| == |reg|
  {
    seq(|reg|, k requires 0 <= k < |reg| => ApplyEntry(reg[k], slots[k], fds[k], failing, doc, d, version))
  }

  /** The effects of entries [0, n) combined in array order, starting from `slots`. */
  function Fold(slots: seq<Value>, es: seq<EntryEffect>, n: nat): (o: Outcome)
    requires n <= |es| == |slots|
    ensures |o.slots| == |slots|
    decreases n
  {
    if n == 0 then Outcome(slots, [], [], false)
    else
      var o := Fold(slots, es, n - 1);
      var e := es[n - 1];
      Outcome(o.slots[n - 1 := e.slot], o.writes + OptionToSeq(e.write),
              o.reports + OptionToSeq(e.report), o.failed || e.failed)
  }

  /** The effect of processing entries [0, n) of the registry in array order. */
  function Processed(reg: seq<Twin>, slots: seq<Value>, fds: seq<int>, failing: set<int>,
                     doc: Option<Object>, d: Dialect, version: int, n: nat): (o: Outcome)
    requires n <= |reg| && |slots| == |reg| && |fds| == |reg| && NoFloats(reg)
    ensures |o.slots| == |reg|
  {
    Fold(slots, Effects(reg, slots, fds, failing, doc, d, version), n)
  }

  lemma {:induction false} FoldSlots(slots: seq<Value>, es: seq<EntryEffect>, n: nat)
    requires n <= |es| == |slots|
    ensures forall k :: 0 <= k < n ==> Fold(slots, es, n).slots[k] == es[k].slot
    ensures forall k :: n <= k < |slots| ==> Fold(slots, es, n).slots[k] == slots[k]
    decreases n
  {
    if n > 0 {
      FoldSlots(slots, es, n - 1);
    }
  }

  lemma {:induction false} FoldFailed(slots: seq<Value>, es: seq<EntryEffect>, n: nat)
    requires n <= |es| == |slots|
    ensures Fold(slots, es, n).failed <==> exists k :: 0 <= k < n && es[k].failed
    decreases n
  {
    if n > 0 {
      FoldFailed(slots, es, n - 1);
      if Fold(slots, es, n - 1).failed {
        var k :| 0 <= k < n - 1 && es[k].failed;
        assert 0 <= k < n;
      }
    }
  }

  /** Two folds whose effects agree on everything but the slots agree on the
      writes, the reports and the escalation. */
  lemma {:induction false} FoldIgnoresSlots(slots: seq<Value>, slots': seq<Value>,
                                            es: seq<EntryEffect>, es': seq<EntryEffect>, n: nat)
    requires n <= |es| == |slots| && |es'| == |slots'| == |es|
    requires forall k :: 0 <= k < n ==>
               es[k].write == es'[k].write && es[k].report == es'[k].report && es[k].failed == es'[k].failed
    ensures var o, o' := Fold(slots, es, n), Fold(slots', es', n);
            o.writes == o'.writes && o.reports == o'.reports && o.failed == o'.failed
    decreases n
  {
    if n > 0 {
      FoldIgnoresSlots(slots, slots', es, es', n - 1);
    }
  }

  /** The effect of the whole loop. */
  function Reconcile(reg: seq<Twin>, slots: seq<Value>, fds: seq<int>, failing: set<int>,
                     doc: Option<Object>, d: Dialect, version: int): Outcome
    requires |slots| == |reg| && |fds| == |reg| && NoFloats(reg)
  {
    Processed(reg, slots, fds, failing, doc, d, version, |reg|)
  }

  /** Each slot is decided by its own entry alone: processed entries hold the
      entry's effect, the others are untouched. */
  lemma ProcessedSlots(reg: seq<Twin>, slots: seq<Value>, fds: seq<int>, failing: set<int>,
                        doc: Option<Object>, d: Dialect, version: int, n: nat)
    requires n <= |reg| && |slots| == |reg| && |fds| == |reg| && NoFloats(reg)
    ensures forall k :: 0 <= k < n ==>
              Processed(reg, slots, fds, failing, doc, d, version, n).slots[k] ==
              ApplyEntry(reg[k], slots[k], fds[k], failing, doc, d, version).slot
    ensures forall k :: n <= k < |reg| ==> Processed(reg, slots, fds, failing, doc, d, version, n).slots[k] == slots[k]
  {
    FoldSlots(slots, Effects(reg, slots, fds, failing, doc, d, version), n);
  }

  /** The slot rule: a present boolean key's slot takes the document's value, a
      present integer key's slot its truncated number; absent keys and text
      entries keep their slot. The slot kinds are preserved. */
  lemma ReconcileSlots(reg: seq<Twin>, slots: seq<Value>, fds: seq<int>, failing: set<int>,
                       doc: Option<Object>, d: Dialect, version: int, k: nat)
    requires |slots| == |reg| && |fds| == |reg| && NoFloats(reg) && k < |reg|
    requires KindOf(slots[k]) == reg[k].kind
    ensures var s := Reconcile(reg, slots, fds, failing, doc, d, version).slots[k];
            && KindOf(s) == reg[k].kind
            && (!HasValue(doc, reg[k].key) || reg[k].kind == TypeString ==> s == slots[k])
            && (HasValue(doc, reg[k].key) && reg[k].kind == TypeBool ==> s == BoolValue(ReadBool(doc, reg[k].key, d)))
            && (HasValue(doc, reg[k].key) && reg[k].kind == TypeInt ==> s == IntValue(ReadInt(doc, reg[k].key, d)))
  {
    ProcessedSlots(reg, slots, fds, failing, doc, d, version, |reg|);
  }

  /** Entry k is a present boolean key whose descriptor refuses writes. */
  predicate FailingWrite(reg: seq<Twin>, fds: seq<int>, failing: set<int>, doc: Option<Object>, k: nat)
    requires k < |reg| && |fds| == |reg|
  {
    HasValue(doc, reg[k].key) && reg[k].kind == TypeBool && fds[k] in failing
  }

  /** The handler escalates exactly when some GPIO write it made failed. */
  lemma ProcessedFailed(reg: seq<Twin>, slots: seq<Value>, fds: seq<int>, failing: set<int>,
                        doc: Option<Object>, d: Dialect, version: int, n: nat)
    requires n <= |reg| && |slots| == |reg| && |fds| == |reg| && NoFloats(reg)
    ensures Processed(reg, slots, fds, failing, doc, d, version, n).failed <==>
              exists k :: 0 <= k < n && FailingWrite(reg, fds, failing, doc, k)
  {
    var es := Effects(reg, slots, fds, failing, doc, d, version);
    FoldFailed(slots, es, n);
    forall k | 0 <= k < n
      ensures es[k].failed <==> FailingWrite(reg, fds, failing, doc, k)
    {
    }
  }

  /** The GPIO write an entry calls for: present boolean keys only, at the
      level given by the polarity rule. */
  function EntryWrite(t: Twin, fd: int, doc: Option<Object>, d: Dialect): seq<GpioWrite>
  {
    if HasValue(doc, t.key) && t.kind == TypeBool
    then [GpioWrite(fd, Polarity(t.activeHigh, ReadBool(doc, t.key, d)))] else []
  }

  /** The report an entry calls for, as read back: present boolean and integer
      keys only, carrying the key, the new value and (acknowledgement dialect)
      the version. */
  function EntryReport(t: Twin, doc: Option<Object>, d: Dialect, version: int): seq<Decoded>
  {
    var ver := if d == IoTCentral then Some(version) else None;
    if !HasValue(doc, t.key) then []
    else match t.kind
      case TypeBool => [Decoded(t.key, BoolValue(ReadBool(doc, t.key, d)), ver)]
      case TypeInt => [Decoded(t.key, IntValue(ReadInt(doc, t.key, d)), ver)]
      case _ => []
  }

  /** The entry's report, if it has one, fits the buffer. */
  predicate EntryFits(t: Twin, doc: Option<Object>, d: Dialect, version: int)
  {
    HasValue(doc, t.key) ==>
      (t.kind == TypeBool ==> |Template(t.key, BoolValue(ReadBool(doc, t.key, d)), d, version)| < JsonBufferSize) &&
      (t.kind == TypeInt ==> |Template(t.key, IntValue(ReadInt(doc, t.key, d)), d, version)| < JsonBufferSize)
  }

  predicate ReportsFit(reg: seq<Twin>, doc: Option<Object>, d: Dialect, version: int)
  {
    forall k :: 0 <= k < |reg| ==> EntryFits(reg[k], doc, d, version)
  }

  predicate QuoteFreeKeys(reg: seq<Twin>)
  {
    forall k :: 0 <= k < |reg| ==> '"' !in reg[k].key
  }

  /** A handed-over report read back as the SDK reads it: `size` bytes of the
      buffer. A size that is not the buffer's length reads past the text (and,
      once it exceeds the allocation, past the buffer), so nothing is read back. */
  function ReadBack(h: Handover, d: Dialect): Option<Decoded>
  {
    if h.size == |h.buffer| then DecodeReport(h.buffer, d) else None
  }

  /** Every report read back. */
  function DecodeAll(reports: seq<Handover>, d: Dialect): (r: seq<Option<Decoded>>)
    ensures |r| == |reports|
  {
    seq(|reports|, j requires 0 <= j < |reports| => ReadBack(reports[j], d))
  }

  function Somes(xs: seq<Decoded>): (r: seq<Option<Decoded>>)
    ensures |r| == |xs|
  {
    seq(|xs|, j requires 0 <= j < |xs| => Some(xs[j]))
  }

  /** The reports read back, one by one, as the expected decoded reports. */
  predicate ReadsBackAs(reports: seq<Handover>, expected: seq<Decoded>, d: Dialect)
  {
    DecodeAll(reports, d) == Somes(expected)
  }

  lemma ReadsBackAsElementwise(reports: seq<Handover>, expected: seq<Decoded>, d: Dialect)
    ensures ReadsBackAs(reports, expected, d) <==>
              |reports| == |expected| && forall j :: 0 <= j < |reports| ==> ReadBack(reports[j], d) == Some(expected[j])
  {
    if ReadsBackAs(reports, expected, d) {
      forall j | 0 <= j < |reports|
        ensures ReadBack(reports[j], d) == Some(expected[j])
      {
        assert DecodeAll(reports, d)[j] == Somes(expected)[j];
      }
    }
    if |reports| == |expected| && forall j :: 0 <= j < |reports| ==> ReadBack(reports[j], d) == Some(expected[j]) {
      assert DecodeAll(reports, d) == Somes(expected);
    }
  }

  lemma ReadsBackAppend(a: seq<Handover>, x: seq<Decoded>, b: seq<Handover>, y: seq<Decoded>, d: Dialect)
    requires ReadsBackAs(a, x, d) && ReadsBackAs(b, y, d)
    ensures ReadsBackAs(a + b, x + y, d)
  {
    ReadsBackAsElementwise(a, x, d);
    ReadsBackAsElementwise(b, y, d);
    forall j | 0 <= j < |a + b|
      ensures ReadBack((a + b)[j], d) == Some((x + y)[j])
    {
      if j < |a| {
        assert (a + b)[j] == a[j] && (x + y)[j] == x[j];
      } else {
        assert (a + b)[j] == b[j - |a|] && (x + y)[j] == y[j - |a|];
      }
    }
    ReadsBackAsElementwise(a + b, x + y, d);
  }

  /** One entry's GPIO write is the one the entry calls for. */
  lemma ApplyEntryWrite(t: Twin, slot: Value, fd: int, failing: set<int>, doc: Option<Object>, d: Dialect, version: int)
    requires t.kind != TypeFloat
    ensures OptionToSeq(ApplyEntry(t, slot, fd, failing, doc, d, version).write) == EntryWrite(t, fd, doc, d)
  {
  }

  /** One entry's report reads back as the one the entry calls for. */
  lemma ApplyEntryReport(t: Twin, slot: Value, fd: int, failing: set<int>, doc: Option<Object>, d: Dialect, version: int)
    requires t.kind != TypeFloat && '"' !in t.key && EntryFits(t, doc, d, version)
    ensures ReadsBackAs(OptionToSeq(ApplyEntry(t, slot, fd, failing, doc, d, version).report),
                        EntryReport(t, doc, d, version), d)
  {
    var r := OptionToSeq(ApplyEntry(t, slot, fd, failing, doc, d, version).report);
    var x := EntryReport(t, doc, d, version);
    if HasValue(doc, t.key) && t.kind == TypeBool {
      var v := BoolValue(ReadBool(doc, t.key, d));
      CorrectedAgreesWhenFitting(Some(t.key), v, d, version);
      DecodeTemplate(t.key, v, d, version);
    } else if HasValue(doc, t.key) && t.kind == TypeInt {
      var v := IntValue(ReadInt(doc, t.key, d));
      CorrectedAgreesWhenFitting(Some(t.key), v, d, version);
      DecodeTemplate(t.key, v, d, version);
    }
    ReadsBackAsElementwise(r, x, d);
  }

  /** The writes: one per present boolean key, in array order. */
  function ExpectedWrites(reg: seq<Twin>, fds: seq<int>, doc: Option<Object>, d: Dialect, n: nat): seq<GpioWrite>
    requires n <= |reg| && |fds| == |reg|
    decreases n
  {
    if n == 0 then [] else ExpectedWrites(reg, fds, doc, d, n - 1) + EntryWrite(reg[n - 1], fds[n - 1], doc, d)
  }

  /** The reports read back: one per present boolean or integer key, in array order. */
  function ExpectedReports(reg: seq<Twin>, doc: Option<Object>, d: Dialect, version: int, n: nat): seq<Decoded>
    requires n <= |reg|
    decreases n
  {
    if n == 0 then [] else ExpectedReports(reg, doc, d, version, n - 1) + EntryReport(reg[n - 1], doc, d, version)
  }

  lemma {:induction false} FoldWrites(reg: seq<Twin>, fds: seq<int>, doc: Option<Object>, d: Dialect,
                                      slots: seq<Value>, es: seq<EntryEffect>, n: nat)
    requires n <= |es| == |slots| == |reg| == |fds|
    requires forall k :: 0 <= k < |es| ==> OptionToSeq(es[k].write) == EntryWrite(reg[k], fds[k], doc, d)
    ensures Fold(slots, es, n).writes == ExpectedWrites(reg, fds, doc, d, n)
    decreases n
  {
    if n > 0 {
      FoldWrites(reg, fds, doc, d, slots, es, n - 1);
    }
  }

  lemma {:induction false} FoldReports(reg: seq<Twin>, doc: Option<Object>, d: Dialect, version: int,
                                       slots: seq<Value>, es: seq<EntryEffect>, n: nat)
    requires n <= |es| == |slots| == |reg|
    requires forall k :: 0 <= k < |es| ==> ReadsBackAs(OptionToSeq(es[k].report), EntryReport(reg[k], doc, d, version), d)
    ensures ReadsBackAs(Fold(slots, es, n).reports, ExpectedReports(reg, doc, d, version, n), d)
    decreases n
  {
    if n > 0 {
      FoldReports(reg, doc, d, version, slots, es, n - 1);
      ReadsBackAppend(Fold(slots, es, n - 1).reports, ExpectedReports(reg, doc, d, version, n - 1),
                      OptionToSeq(es[n - 1].report), EntryReport(reg[n - 1], doc, d, version), d);
    } else {
      assert ReadsBackAs([], [], d);
    }
  }

  /** The GPIO writes of the loop: one per present boolean key, in array order,
      to that entry's descriptor at the level the polarity rule gives. */
  lemma ProcessedWrites(reg: seq<Twin>, slots: seq<Value>, fds: seq<int>, failing: set<int>,
                        doc: Option<Object>, d: Dialect, version: int, n: nat)
    requires n <= |reg| && |slots| == |reg| && |fds| == |reg| && NoFloats(reg)
    ensures Processed(reg, slots, fds, failing, doc, d, version, n).writes == ExpectedWrites(reg, fds, doc, d, n)
  {
    var es := Effects(reg, slots, fds, failing, doc, d, version);
    forall k | 0 <= k < |es|
      ensures OptionToSeq(es[k].write) == EntryWrite(reg[k], fds[k], doc, d)
    {
      ApplyEntryWrite(reg[k], slots[k], fds[k], failing, doc, d, version);
    }
    FoldWrites(reg, fds, doc, d, slots, es, n);
  }

  /** When every report fits: exactly one report per present boolean or integer
      key, in array order, each reading back as that key, its new value and the
      version. */
  lemma ProcessedReports(reg: seq<Twin>, slots: seq<Value>, fds: seq<int>, failing: set<int>,
                         doc: Option<Object>, d: Dialect, version: int, n: nat)
    requires n <= |reg| && |slots| == |reg| && |fds| == |reg| && NoFloats(reg)
    requires QuoteFreeKeys(reg) && ReportsFit(reg, doc, d, version)
    ensures var o := Processed(reg, slots, fds, failing, doc, d, version, n);
            var x := ExpectedReports(reg, doc, d, version, n);
            && |o.reports| == |x|
            && forall j :: 0 <= j < |o.reports| ==>
                 o.reports[j].size == |o.reports[j].buffer| && DecodeReport(o.reports[j].buffer, d) == Some(x[j])
  {
    var es := Effects(reg, slots, fds, failing, doc, d, version);
    forall k | 0 <= k < |es|
      ensures ReadsBackAs(OptionToSeq(es[k].report), EntryReport(reg[k], doc, d, version), d)
    {
      ApplyEntryReport(reg[k], slots[k], fds[k], failing, doc, d, version);
    }
    FoldReports(reg, doc, d, version, slots, es, n);
    ReadsBackAsElementwise(Fold(slots, es, n).reports, ExpectedReports(reg, doc, d, version, n), d);
  }

  /** For the agent's own registry and a C `int` version, every present key is
      reported, whatever the dialect and the document. */
  lemma TwinArrayReportsAllFit(doc: Option<Object>, d: Dialect, version: int)
    requires IsInt32(version)
    ensures NoFloats(TwinArray()) && QuoteFreeKeys(TwinArray()) && ReportsFit(TwinArray(), doc, d, version)
  {
    var reg := TwinArray();
    forall k | 0 <= k < |reg|
      ensures EntryFits(reg[k], doc, d, version)
    {
      TwinArrayReportsFit(k, ReadBool(doc, reg[k].key, d), d, version);
    }
    TwinArrayKeysQuoteFree();
  }

  lemma TwinArrayKeysQuoteFree()
    ensures QuoteFreeKeys(TwinArray())
  {
    assert '"' !in "userLedRed" && '"' !in "userLedGreen" && '"' !in "userLedBlue";
    assert '"' !in "appLed" && '"' !in "wifiLed";
    assert '"' !in "clickBoardRelay1" && '"' !in "clickBoardRelay2";
  }

  /** The writes, reports and escalation do not depend on the slots' old values. */
  lemma ProcessedIgnoresOldSlots(reg: seq<Twin>, slots: seq<Value>, slots': seq<Value>, fds: seq<int>,
                                  failing: set<int>, doc: Option<Object>, d: Dialect, version: int, n: nat)
    requires n <= |reg| && |slots| == |reg| && |slots'| == |reg| && |fds| == |reg| && NoFloats(reg)
    ensures var o := Processed(reg, slots, fds, failing, doc, d, version, n);
            var o' := Processed(reg, slots', fds, failing, doc, d, version, n);
            o.writes == o'.writes && o.reports == o'.reports && o.failed == o'.failed
  {
    var es, es' := Effects(reg, slots, fds, failing, doc, d, version), Effects(reg, slots', fds, failing, doc, d, version);
    forall k | 0 <= k < n
      ensures es[k].write == es'[k].write && es[k].report == es'[k].report && es[k].failed == es'[k].failed
    {
    }
    FoldIgnoresSlots(slots, slots', es, es', n);
  }

  /** Idempotence: applying the same document a second time keeps the version
      and the slots, repeats the same GPIO writes (so the lines end at the same
      levels) and sends the same reports. */
  lemma ReconcileIdempotent(reg: seq<Twin>, slots: seq<Value>, fds: seq<int>, failing: set<int>,
                            doc: Option<Object>, d: Dialect, version: int)
    requires |slots| == |reg| && |fds| == |reg| && NoFloats(reg)
    ensures NextVersion(NextVersion(version, doc), doc) == NextVersion(version, doc)
    ensures var v := NextVersion(version, doc);
            var first := Reconcile(reg, slots, fds, failing, doc, d, v);
            var second := Reconcile(reg, first.slots, fds, failing, doc, d, v);
            second.slots == first.slots && second.writes == first.writes &&
            second.reports == first.reports && second.failed == first.failed
  {
    var v := NextVersion(version, doc);
    var first := Reconcile(reg, slots, fds, failing, doc, d, v);
    var second := Reconcile(reg, first.slots, fds, failing, doc, d, v);
    ProcessedSlots(reg, slots, fds, failing, doc, d, v, |reg|);
    ProcessedSlots(reg, first.slots, fds, failing, doc, d, v, |reg|);
    ProcessedIgnoresOldSlots(reg, slots, first.slots, fds, failing, doc, d, v, |reg|);
    assert forall k :: 0 <= k < |reg| ==> second.slots[k] == first.slots[k];
  }

  /** The handler's state: the value slots and GPIO descriptors of the registry
      entries, and the static desired version. */
  class TwinState {
    const registry: seq<Twin>
    var slots: seq<Value>
    var fds: seq<int>
    var desiredVersion: int

    ghost predicate Valid()
      reads this
    {
      && |slots| == |registry|
      && |fds| == |registry|
      && NoFloats(registry)
      && forall i :: 0 <= i < |registry| ==> KindOf(slots[i]) == registry[i].kind
    }

    /** The program's globals at start-up: twinArray, the slot initialisers, the
        descriptors at -1 and desiredVersion 0. */
    constructor ()
      ensures Valid()
      ensures registry == TwinArray() && slots == InitialSlots()
      ensures fds == seq(|TwinArray()|, _ => -1) && desiredVersion == 0
    {
      registry := TwinArray();
      slots := InitialSlots();
      fds := seq(|TwinArray()|, _ => -1);
      desiredVersion := 0;
    }

    /** deviceTwinChangedHandler. `iotCentralBuild` is the build switch; the
        handler always asks for the acknowledgement format, which only an IoT
        Central build honours. */
    method ChangedHandler(doc: Option<Object>, iotCentralBuild: bool, gpio: Gpio, client: AzureIoT.Client, process: Process)
      requires Valid()
      modifies this`slots, this`desiredVersion, gpio`writes, client`handedReports, process`terminationRequired
      ensures Valid()
      ensures desiredVersion == NextVersion(old(desiredVersion), doc)
      ensures var o := Reconcile(registry, old(slots), fds, gpio.failingFds, doc,
                                 ReportDialect(iotCentralBuild, true), desiredVersion);
              && slots == o.slots
              && gpio.writes == old(gpio.writes) + o.writes
              && client.handedReports == old(client.handedReports) +
                   (if client.handle.Some? then Handed(o.reports) else [])
              && process.terminationRequired == (old(process.terminationRequired) || o.failed)
    {
      var d := ReportDialect(iotCentralBuild, true);
      desiredVersion := NextVersion(desiredVersion, doc);
      ApplyAll(doc, d, gpio, client, process);
    }

    /** The handler's loop over the registry, in array order. */
    method ApplyAll(doc: Option<Object>, d: Dialect, gpio: Gpio, client: AzureIoT.Client, process: Process)
      requires Valid()
      modifies this`slots, gpio`writes, client`handedReports, process`terminationRequired
      ensures Valid()
      ensures LoopState(registry, old(slots), fds, gpio.failingFds, doc, d, desiredVersion, client.handle.Some?,
                        old(gpio.writes), old(client.handedReports), old(process.terminationRequired),
                        |registry|, slots, gpio.writes, client.handedReports, process.terminationRequired)
    {
      ghost var slots0, writes0, reports0, failed0 := slots, gpio.writes, client.handedReports, process.terminationRequired;
      var i := 0;
      while i < |registry|
        invariant Valid()
        invariant LoopState(registry, slots0, fds, gpio.failingFds, doc, d, desiredVersion, client.handle.Some?,
                            writes0, reports0, failed0, i, slots, gpio.writes, client.handedReports, process.terminationRequired)
      {
        LoopStateStep(registry, slots0, fds, gpio.failingFds, doc, d, desiredVersion, client.handle.Some?,
                      writes0, reports0, failed0, i, slots, gpio.writes, client.handedReports, process.terminationRequired);
        ApplyOne(i, doc, d, gpio, client, process);
        i := i + 1;
      }
    }

    /** One pass of the handler's loop: entry `i` of the registry. */
    method ApplyOne(i: nat, doc: Option<Object>, d: Dialect, gpio: Gpio, client: AzureIoT.Client, process: Process)
      requires Valid() && i < |registry|
      modifies this`slots, gpio`writes, client`handedReports, process`terminationRequired
      ensures Valid()
      ensures var e := ApplyEntry(registry[i], old(slots[i]), fds[i], gpio.failingFds, doc, d, desiredVersion);
              && slots == old(slots)[i := e.slot]
              && gpio.writes == old(gpio.writes) + OptionToSeq(e.write)
              && client.handedReports == old(client.handedReports) +
                   (if client.handle.Some? then Handed(OptionToSeq(e.report)) else [])
              && process.terminationRequired == (old(process.terminationRequired) || e.failed)
    {
      var t := registry[i];
      if HasValue(doc, t.key) {
        match t.kind {
          case TypeBool =>
            var b := ReadBool(doc, t.key, d);
            slots := slots[i := BoolValue(b)];
            var ok := gpio.SetValue(fds[i], Polarity(t.activeHigh, b));
            if !ok {
              process.terminationRequired := true;
            }
            Report(t.key, BoolValue(b), d, client);
          case TypeInt =>
            var n := ReadInt(doc, t.key, d);
            slots := slots[i := IntValue(n)];
            Report(t.key, IntValue(n), d, client);
          case TypeString =>
            // "TYPE_STRING case not implemented": a diagnostic only.
        }
      }
    }

    /** checkAndUpdateDeviceTwin followed by AzureIoT_TwinReportStateJson: the
        buffer is handed over with snprintf's return value as its size. */
    method Report(key: string, v: Value, d: Dialect, client: AzureIoT.Client)
      modifies client`handedReports
      ensures client.handedReports == old(client.handedReports) +
                (if client.handle.Some? then Handed(OptionToSeq(CheckAndUpdateAsWritten(Some(key), v, d, desiredVersion))) else [])
    {
      var h := CheckAndUpdateAsWritten(Some(key), v, d, desiredVersion).value;
      client.TwinReportStateJson(Some(h.buffer), h.size);
    }
  }

  /** The handler's loop has processed entries [0, i): the slots, the GPIO
      log, the SDK's report log and the termination flag are those `Processed`
      gives for the state the loop started from. */
  ghost predicate LoopState(reg: seq<Twin>, slots0: seq<Value>, fds: seq<int>, failing: set<int>,
                            doc: Option<Object>, d: Dialect, version: int, connected: bool,
                            writes0: seq<GpioWrite>, reports0: seq<AzureIoT.ReportedState>, failed0: bool,
                            i: nat, slots: seq<Value>, writes: seq<GpioWrite>,
                            reports: seq<AzureIoT.ReportedState>, failed: bool)
  {
    && i <= |reg| && |slots0| == |reg| && |fds| == |reg| && NoFloats(reg)
    && var o := Processed(reg, slots0, fds, failing, doc, d, version, i);
    && slots == o.slots
    && writes == writes0 + o.writes
    && reports == reports0 + (if connected then Handed(o.reports) else [])
    && failed == (failed0 || o.failed)
  }

  /** Applying entry i to the current slot advances the loop state by one entry. */
  lemma LoopStateStep(reg: seq<Twin>, slots0: seq<Value>, fds: seq<int>, failing: set<int>,
                      doc: Option<Object>, d: Dialect, version: int, connected: bool,
                      writes0: seq<GpioWrite>, reports0: seq<AzureIoT.ReportedState>, failed0: bool,
                      i: nat, slots: seq<Value>, writes: seq<GpioWrite>,
                      reports: seq<AzureIoT.ReportedState>, failed: bool)
    requires i < |reg|
    requires LoopState(reg, slots0, fds, failing, doc, d, version, connected, writes0, reports0, failed0,
                       i, slots, writes, reports, failed)
    ensures var e := ApplyEntry(reg[i], slots[i], fds[i], failing, doc, d, version);
            LoopState(reg, slots0, fds, failing, doc, d, version, connected, writes0, reports0, failed0,
                      i + 1, slots[i := e.slot], writes + OptionToSeq(e.write),
                      reports + (if connected then Handed(OptionToSeq(e.report)) else []), failed || e.failed)
  {
    var o := Processed(reg, slots0, fds, failing, doc, d, version, i);
    ProcessedSlots(reg, slots0, fds, failing, doc, d, version, i);
    assert slots[i] == slots0[i];
    var e := ApplyEntry(reg[i], slots0[i], fds[i], failing, doc, d, version);
    var w, r := OptionToSeq(e.write), OptionToSeq(e.report);
    var o1 := Processed(reg, slots0, fds, failing, doc, d, version, i + 1);
    assert o1 == Outcome(o.slots[i := e.slot], o.writes + w, o.reports + r, o.failed || e.failed);
    assert writes + w == writes0 + (o.writes + w);
    HandedChain(reports0, reports, reports + (if connected then Handed(r) else []), o.reports, r, connected);
  }

  /** Two runs of reports handed over one after the other. */
  lemma HandedChain(h0: seq<AzureIoT.ReportedState>, h1: seq<AzureIoT.ReportedState>, h2: seq<AzureIoT.ReportedState>,
                    a: seq<Handover>, b: seq<Handover>, connected: bool)
    requires h1 == h0 + (if connected then Handed(a) else [])
    requires h2 == h1 + (if connected then Handed(b) else [])
    ensures h2 == h0 + (if connected then Handed(a + b) else [])
  {
    HandedAppend(a, b);
    if !connected {
      assert h1 == h0 && h2 == h1;
    }
  }

  /** The documents as the SDK receives them: each buffer with the size
      checkAndUpdateDeviceTwin passed along. */
  function Handed(reports: seq<Handover>): (h: seq<AzureIoT.ReportedState>)
    ensures |h| == |reports|
    ensures forall j :: 0 <= j < |h| ==> h[j] == AzureIoT.ReportedState(reports[j].buffer, reports[j].size)
  {
    seq(|reports|, j requires 0 <= j < |reports| => AzureIoT.ReportedState(reports[j].buffer, reports[j].size))
  }

  lemma HandedAppend(a: seq<Handover>, b: seq<Handover>)
    ensures Handed(a + b) == Handed(a) + Handed(b)
  {
    assert |Handed(a + b)| == |Handed(a) + Handed(b)|;
    forall j | 0 <= j < |a + b|
      ensures Handed(a + b)[j] == (Handed(a) + Handed(b))[j]
    {
      if j < |a| {
        assert (a + b)[j] == a[j];
      } else {
        assert (a + b)[j] == b[j - |a|];
      }
    }
  }
}
