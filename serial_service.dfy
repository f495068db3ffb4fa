/**
 * SerialCommunicationService: owns the serial port, frames the received
 * text into lines, classifies each line and hands readings to the storage
 * sink. The serial library, the JSON library and the sink are parameters:
 * `found` and `openSucceeds` stand for getCommPort and openPort, a
 * JsonReader for the JSON parser, and a `sink` predicate for
 * saveCrowdData (false where it throws).
 */
module SerialService {
  import opened Wrappers
  import opened Strings
  import opened Framing
  import opened Decoding
  import CrowdDataDto

  /** What getPortName reports when there is no port object. */
  const NotConnected: string := "Not connected"

  /** SerialPortConfig.Port, the only configuration the service reads. */
  datatype PortConfig = PortConfig(name: string, baudrate: int)


  datatype PortIdentity = PortIdentity(systemPortName: string, descriptivePortName: string)

  datatype StopBits = OneStopBit | OnePointFiveStopBits | TwoStopBits
  datatype Parity = NoParity | OddParity | EvenParity | MarkParity | SpaceParity
  datatype TimeoutMode = NonBlocking | ReadSemiBlocking | ReadBlocking

  datatype PortSettings = PortSettings(
    baudRate: int,
    dataBits: int,
    stopBits: StopBits,
    parity: Parity,
    timeoutMode: TimeoutMode,
    readTimeout: int,
    writeTimeout: int)

  /** The settings init applies before opening: 8 data bits, 1 stop bit, no parity, semi-blocking reads. */
  function ConfiguredSettings(config: PortConfig): PortSettings
  {
    PortSettings(config.baudrate, 8, OneStopBit, NoParity, ReadSemiBlocking, 0, 0)
  }

  /** A port object as the service sees it: who it is, how it is set up, and its open and listener state. */
  datatype SerialPort = SerialPort(
    identity: PortIdentity,
    settings: PortSettings,
    isOpen: bool,
    listening: bool)

  datatype SerialPortEvent = DataReceived(receivedData: string) | OtherEvent(eventType: int)

  /** What processSerialData does with one line, as its log records it. */
  datatype LineOutcome =
    | DeviceErrorLogged(message: string)
    | FailureLogged(line: string)
    | Saved(reading: Reading)
    | SaveFailed(reading: Reading)

  /** The outcome of one line: device errors and malformed lines are logged, readings are saved. */
  function Outcome<N>(line: string, json: JsonReader<N>, sink: Reading -> bool): (o: LineOutcome)
    ensures o.DeviceErrorLogged? ==> Contains(line, ErrorMarker)
    ensures o.DeviceErrorLogged? <==> Decode(line, json).DeviceError?
    ensures Decode(line, json).DeviceError? ==> o == DeviceErrorLogged(Decode(line, json).message)
    ensures o.FailureLogged? <==> Decode(line, json).Malformed?
    ensures o.FailureLogged? ==> o.line == line
    ensures o.Saved? || o.SaveFailed? <==> Decode(line, json).Parsed?
    ensures o.Saved? || o.SaveFailed? ==>
      && !Contains(line, ErrorMarker)
      && o.reading == Decode(line, json).reading
      && (o.Saved? <==> sink(o.reading))
  {
    match Decode(line, json)
    case DeviceError(message) => DeviceErrorLogged(message)
    case Malformed => FailureLogged(line)
    case Parsed(reading) => if sink(reading) then Saved(reading) else SaveFailed(reading)
  }

  /**
   * The outcomes of a sequence of lines: one per line, in order, so a
   * failure on one line never keeps the next from being processed.
   */
  function Outcomes<N>(lines: seq<string>, json: JsonReader<N>, sink: Reading -> bool): (os: seq<LineOutcome>)
    ensures |os| == |lines|
  {
    if lines == [] then [] else [Outcome(lines[0], json, sink)] + Outcomes(lines[1..], json, sink)
  }

  /**
   * The k-th outcome is the outcome of the k-th line, which depends on
   * that line and the sink's answer for its reading, whatever the others were.
   */
  lemma {:induction false} OutcomesPointwise<N>(lines: seq<string>, json: JsonReader<N>, sink: Reading -> bool)
    ensures forall k | 0 <= k < |lines| :: Outcomes(lines, json, sink)[k] == Outcome(lines[k], json, sink)
    decreases |lines|
  {
    if lines != [] {
      OutcomesPointwise(lines[1..], json, sink);
      var os := Outcomes(lines, json, sink);
      forall k | 1 <= k < |lines| ensures os[k] == Outcome(lines[k], json, sink) {
        assert os[k] == Outcomes(lines[1..], json, sink)[k - 1];
        assert lines[k] == lines[1..][k - 1];
      }
    }
  }

  lemma OutcomesSingleton<N>(line: string, json: JsonReader<N>, sink: Reading -> bool)
    ensures Outcomes([line], json, sink) == [Outcome(line, json, sink)]
  {
    assert [line][1..] == [];
  }

  lemma OutcomesAppend<N>(a: seq<string>, b: seq<string>, json: JsonReader<N>, sink: Reading -> bool)
    ensures Outcomes(a + b, json, sink) == Outcomes(a, json, sink) + Outcomes(b, json, sink)
  {
    var l, r := Outcomes(a + b, json, sink), Outcomes(a, json, sink) + Outcomes(b, json, sink);
    OutcomesPointwise(a + b, json, sink);
    OutcomesPointwise(a, json, sink);
    OutcomesPointwise(b, json, sink);
    assert |l| == |r|;
    forall k | 0 <= k < |l| ensures l[k] == r[k] {
      if k >= |a| {
        assert (a + b)[k] == b[k - |a|];
      }
    }
  }

  /** One round of the framing loop adds the outcomes of one segment. */
  lemma OutcomesStep<N>(cut: seq<string>, segment: string, json: JsonReader<N>, sink: Reading -> bool)
    ensures Outcomes(DispatchedLines(cut + [segment]), json, sink) ==
      Outcomes(DispatchedLines(cut), json, sink) + Outcomes(Dispatch(segment), json, sink)
  {
    DispatchedLinesAppend(cut, [segment]);
    DispatchedLinesSingleton(segment);
    OutcomesAppend(DispatchedLines(cut), Dispatch(segment), json, sink);
  }

  lemma ConcatAssociative<T>(a: seq<T>, b: seq<T>, c: seq<T>)
    ensures a + b + c == a + (b + c)
  {
  }

  /** The readings handed to saveCrowdData, in call order. */
  function SinkCalls(log: seq<LineOutcome>): (calls: seq<Reading>)
    ensures |calls| <= |log|
  {
    if log == [] then []
    else
      (match log[0]
       case Saved(r) => [r]
       case SaveFailed(r) => [r]
       case _ => [])
      + SinkCalls(log[1..])
  }

  /** The readings the lines decode to, in order. */
  function DecodedReadings<N>(lines: seq<string>, json: JsonReader<N>): seq<Reading>
  {
    if lines == [] then []
    else
      (match Decode(lines[0], json)
       case Parsed(r) => [r]
       case _ => [])
      + DecodedReadings(lines[1..], json)
  }

  /**
   * saveCrowdData is called exactly once for each line that decodes to a
   * reading, in order, whether earlier saves succeeded or failed.
   */
  lemma {:induction false} SinkCallsAreDecodedReadings<N>(lines: seq<string>, json: JsonReader<N>, sink: Reading -> bool)
    ensures SinkCalls(Outcomes(lines, json, sink)) == DecodedReadings(lines, json)
    decreases |lines|
  {
    if lines != [] {
      var os := Outcomes(lines, json, sink);
      assert os[1..] == Outcomes(lines[1..], json, sink);
      SinkCallsAreDecodedReadings(lines[1..], json, sink);
    }
  }

  /** The number of lines that carry the device-error marker. */
  function MarkedLines(lines: seq<string>): nat
  {
    if lines == [] then 0
    else (if Contains(lines[0], ErrorMarker) then 1 else 0) + MarkedLines(lines[1..])
  }

  /**
   * Each line leads to at most one save, and a line with the marker to
   * none: the saves number at most the lines without the marker.
   */
  lemma SinkCallBound<N>(lines: seq<string>, json: JsonReader<N>, sink: Reading -> bool)
    ensures |SinkCalls(Outcomes(lines, json, sink))| + MarkedLines(lines) <= |lines|
  {
    SinkCallsAreDecodedReadings(lines, json, sink);
    DecodedReadingsBound(lines, json);
  }

  lemma {:induction false} DecodedReadingsBound<N>(lines: seq<string>, json: JsonReader<N>)
    ensures |DecodedReadings(lines, json)| + MarkedLines(lines) <= |lines|
    decreases |lines|
  {
    if lines != [] {
      DecodedReadingsBound(lines[1..], json);
      if Contains(lines[0], ErrorMarker) {
        ErrorLineNeverParsed(lines[0], json);
      }
    }
  }

  /**
   * The serial path saves what it decodes without validating it: a line
   * whose count decodes negative still reaches saveCrowdData, although a
   * DTO with those values breaks its constraints.
   */
  lemma SerialPathSkipsValidation<N>(line: string, json: JsonReader<N>, sink: Reading -> bool)
    requires Decode(line, json).Parsed? && Decode(line, json).reading.totalPeopleCount < 0
    ensures SinkCalls([Outcome(line, json, sink)]) == [Decode(line, json).reading]
    ensures var r := Decode(line, json).reading;
      !CrowdDataDto.ConstraintsHold(Some(r.temperatureCelsius), Some(r.totalPeopleCount))
  {
    var r := Decode(line, json).reading;
    CrowdDataDto.ConstraintsHoldIff(Some(r.temperatureCelsius), Some(r.totalPeopleCount));
    assert [Outcome(line, json, sink)][1..] == [];
  }

  /** The text getAvailablePorts shows for one port. */
  function PortLabel(port: PortIdentity): string
  {
    port.systemPortName + " - " + port.descriptivePortName
  }

  class SerialCommunicationService<!N> {
    const portConfig: PortConfig
    const json: JsonReader<N>
    var comPort: Option<SerialPort>
    var dataBuffer: string
    /** What the logger has recorded about processed lines, oldest first. */
    var log: seq<LineOutcome>

    /**
     * Between events the buffer holds at most one partial line; a port
     * object carries the configured settings, and it has the data
     * listener exactly while it is open.
     */
    ghost predicate Valid()
      reads this
    {
      NoNewline(dataBuffer) && PortValid()
    }

    /** The port half of Valid, which depends on comPort alone. */
    ghost predicate PortValid()
      reads this`comPort
    {
      comPort.Some? ==>
        comPort.value.settings == ConfiguredSettings(portConfig) &&
        (comPort.value.listening <==> comPort.value.isOpen)
    }

    constructor (portConfig: PortConfig, json: JsonReader<N>)
      ensures Valid()
      ensures this.portConfig == portConfig && this.json == json
      ensures comPort == None && dataBuffer == [] && log == []
    {
      this.portConfig := portConfig;
      this.json := json;
      comPort := None;
      dataBuffer := [];
      log := [];
    }

    /** Connected only with a port object that is open, and, in a valid state, listening. */
    function IsConnected(): (connected: bool)
      reads this
      ensures connected ==> comPort.Some? && comPort.value.isOpen
      ensures connected && PortValid() ==> comPort.value.listening
      ensures comPort.Some? && comPort.value.isOpen ==> connected
    {
      comPort.Some? && comPort.value.isOpen
    }

    /** The port object's system name, open or not; "Not connected" without a port object. */
    function GetPortName(): (name: string)
      reads this
      ensures comPort.None? ==> name == NotConnected && !IsConnected()
      ensures comPort.Some? ==> name == comPort.value.identity.systemPortName
      ensures IsConnected() ==> name == comPort.value.identity.systemPortName
    {
      if comPort.Some? then comPort.value.identity.systemPortName else NotConnected
    }

    /**
     * Looks up the configured port (`found`), configures it and tries to
     * open it (`openSucceeds`); the listener is attached only when the
     * open succeeds. A port that fails to open stays as comPort, closed.
     * The buffer is left as it is.
     */
    method Init(found: Option<PortIdentity>, openSucceeds: bool)
      requires Valid()
      modifies this`comPort
      ensures Valid()
      ensures found.None? ==> comPort == None
      ensures found.Some? ==>
        comPort == Some(SerialPort(found.value, ConfiguredSettings(portConfig), openSucceeds, openSucceeds))
      ensures IsConnected() <==> found.Some? && openSucceeds
      ensures GetPortName() == if found.Some? then found.value.systemPortName else NotConnected
    {
      comPort := if found.Some? then Some(SerialPort(found.value, ConfiguredSettings(portConfig), false, false)) else None;
      if comPort.None? {
        return;
      }
      if openSucceeds {
        comPort := Some(comPort.value.(isOpen := true));
        StartListening();
      }
    }

    method StartListening()
      requires comPort.Some?
      modifies this`comPort
      ensures comPort == Some(old(comPort).value.(listening := true))
    {
      comPort := Some(comPort.value.(listening := true));
    }

    /** Removes the listener from and closes an open port; otherwise does nothing. */
    method Cleanup()
      requires Valid()
      modifies this`comPort
      ensures Valid()
      ensures old(IsConnected()) ==> comPort == Some(old(comPort).value.(isOpen := false, listening := false))
      ensures !old(IsConnected()) ==> comPort == old(comPort)
      ensures !IsConnected() && GetPortName() == old(GetPortName())
    {
      if comPort.Some? && comPort.value.isOpen {
        comPort := Some(comPort.value.(listening := false));
        comPort := Some(comPort.value.(isOpen := false));
      }
    }

    /**
     * Cleanup followed by Init; the result is isConnected() afterwards.
     * A partial line in the buffer survives the reconnect.
     */
    method Reconnect(found: Option<PortIdentity>, openSucceeds: bool) returns (connected: bool)
      requires Valid()
      modifies this`comPort
      ensures Valid()
      ensures connected == IsConnected()
      ensures connected <==> found.Some? && openSucceeds
      ensures GetPortName() == if found.Some? then found.value.systemPortName else NotConnected
      ensures dataBuffer == old(dataBuffer) && log == old(log)
    {
      Cleanup();
      Init(found, openSucceeds);
      connected := IsConnected();
    }

    /**
     * The data listener: appends the received text to the buffer, cuts
     * off and processes every complete line, and keeps the unterminated
     * rest. Equivalently: the old buffer and the new text are the cut
     * segments, each followed by '\n', and then the new buffer.
     */
    method SerialEvent(event: SerialPortEvent, sink: Reading -> bool)
      requires Valid()
      requires comPort.Some? && comPort.value.listening
      modifies this`dataBuffer, this`log
      ensures Valid()
      ensures !event.DataReceived? ==> dataBuffer == old(dataBuffer) && log == old(log)
      ensures event.DataReceived? ==>
        var framed := Frame(old(dataBuffer) + event.receivedData);
        && dataBuffer == framed.rest
        && log == old(log) + Outcomes(DispatchedLines(framed.segments), json, sink)
        && old(dataBuffer) + event.receivedData == JoinLines(framed.segments) + dataBuffer
    {
      if !event.DataReceived? {
        return;
      }
      dataBuffer := dataBuffer + event.receivedData;
      var bufferContent := dataBuffer;
      ghost var whole, cut := bufferContent, [];
      var newlineIndex := IndexOf(bufferContent, Newline);
      while newlineIndex != -1
        invariant newlineIndex == IndexOf(bufferContent, Newline)
        invariant whole == JoinLines(cut) + bufferContent && AllNoNewline(cut)
        invariant log == old(log) + Outcomes(DispatchedLines(cut), json, sink)
        invariant PortValid()
        decreases |bufferContent|
      {
        ghost var segment := bufferContent[..newlineIndex];
        assert whole == JoinLines(cut + [segment]) + bufferContent[newlineIndex + 1..]
            && AllNoNewline(cut + [segment]) by {
          CutStep(whole, cut, bufferContent, newlineIndex);
        }
        ghost var logged, earlier := log, Outcomes(DispatchedLines(cut), json, sink);
        DispatchSegment(bufferContent[..newlineIndex], sink);
        bufferContent := bufferContent[newlineIndex + 1..];
        ghost var added := Outcomes(Dispatch(segment), json, sink);
        assert log == logged + added;
        assert log == old(log) + Outcomes(DispatchedLines(cut + [segment]), json, sink) by {
          OutcomesStep(cut, segment, json, sink);
          ConcatAssociative(old(log), earlier, added);
        }
        cut := cut + [segment];
        newlineIndex := IndexOf(bufferContent, Newline);
      }
      assert Frame(whole) == Framed(cut, bufferContent) by {
        FrameUnique(whole, cut, bufferContent);
      }
      dataBuffer := bufferContent;
    }

    /** One cut-off segment: trimmed, and processed unless nothing is left. */
    method DispatchSegment(segment: string, sink: Reading -> bool)
      modifies this`log
      ensures log == old(log) + Outcomes(Dispatch(segment), json, sink)
    {
      var completeLine := Trim(segment);
      if completeLine != [] {
        ProcessSerialData(completeLine, sink);
        OutcomesSingleton(completeLine, json, sink);
      }
    }

    /** Classifies one line and logs it; a reading is passed to the sink exactly once. */
    method ProcessSerialData(jsonData: string, sink: Reading -> bool)
      modifies this`log
      ensures log == old(log) + [Outcome(jsonData, json, sink)]
    {
      if Contains(jsonData, ErrorMarker) {
        var errorNode := json.readTree(jsonData);
        if errorNode.None? || ErrorKey !in errorNode.value {
          log := log + [FailureLogged(jsonData)];
          return;
        }
        log := log + [DeviceErrorLogged(json.asText(errorNode.value[ErrorKey]))];
        return;
      }
      var rootNode := json.readTree(jsonData);
      if rootNode.None? || TemperatureKey !in rootNode.value || PeopleCountKey !in rootNode.value {
        log := log + [FailureLogged(jsonData)];
        return;
      }
      var temperatureCelsius := json.asDouble(rootNode.value[TemperatureKey]);
      var totalPeopleCount := json.asInt(rootNode.value[PeopleCountKey]);
      var crowdDataDTO := new CrowdDataDto.CrowdDataDTO.WithValues(Some(temperatureCelsius), Some(totalPeopleCount));
      var reading := Reading(crowdDataDTO.GetTemperatureCelsius().value, crowdDataDTO.GetTotalPeopleCount().value);
      if sink(reading) {
        log := log + [Saved(reading)];
      } else {
        log := log + [SaveFailed(reading)];
      }
    }

    /** One "name - description" entry per port the system lists, in its order. */
    method GetAvailablePorts(ports: seq<PortIdentity>) returns (portNames: array<string>)
      ensures portNames.Length == |ports|
      ensures forall i | 0 <= i < |ports| :: portNames[i] == PortLabel(ports[i])
    {
      portNames := new string[|ports|];
      for i := 0 to |ports|
        invariant forall j | 0 <= j < i :: portNames[j] == PortLabel(ports[j])
      {
        portNames[i] := PortLabel(ports[i]);
      }
    }
  }

  /**
   * getPortName reports "Not connected" exactly when there is no port
   * object, provided no system port is itself called "Not connected"; a
   * port that failed to open is still reported by name.
   */
  lemma PortNameReportsPortObject<N>(service: SerialCommunicationService<N>)
    requires service.comPort.Some? ==> service.comPort.value.identity.systemPortName != NotConnected
    ensures service.GetPortName() == NotConnected <==> service.comPort.None?
    ensures service.comPort.Some? && !service.comPort.value.isOpen ==>
      !service.IsConnected() && service.GetPortName() == service.comPort.value.identity.systemPortName
  {
  }
}
