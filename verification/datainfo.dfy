/**
 * The binary sensor-record formats of `datainfo.py`: the three layered records
 * (27, 46 and 50 bytes, little-endian), the tagged `SensorFrame`, and the frame
 * file written by `save_frames` and read back by `load_frames`.
 */
module DataInfo {
  import opened Wrappers
  import opened LittleEndian
  import opened PyText

  /** SENSORLOCATION. */
  datatype Location = TopLeft | BottomLeft | TopRight | BottomRight | NoLocation {
    function Value(): (v: nat)
      ensures v <= 4
    {
      match this
      case TopLeft => 0
      case BottomLeft => 1
      case TopRight => 2
      case BottomRight => 3
      case NoLocation => 4
    }

    /** The enum member's `.name`. */
    function Name(): string {
      match this
      case TopLeft => "TOP_LEFT"
      case BottomLeft => "BOTTOM_LEFT"
      case TopRight => "TOP_RIGHT"
      case BottomRight => "BOTTOM_RIGHT"
      case NoLocation => "NONE"
    }
  }

  /** `SENSORLOCATION.get_sensor_location(value)`; None where `SENSORLOCATION(value)` raises ValueError. */
  function LocationOf(value: int): (r: Option<Location>)
    ensures r.Some? <==> 0 <= value <= 4
    ensures r.Some? ==> r.value.Value() == value
  {
    if value == 0 then Some(TopLeft)
    else if value == 1 then Some(BottomLeft)
    else if value == 2 then Some(TopRight)
    else if value == 3 then Some(BottomRight)
    else if value == 4 then Some(NoLocation)
    else None
  }

  /** The fields of `SensorData`; the timestamp is in whole seconds. */
  datatype SensorFields = SensorFields(
    timestamp: int,
    serialPort: string,
    location: Location,
    distance: int,
    intensity: int,
    temperature: int)

  /** `SensorData` and its subclasses `ExperimentData` and `AlgorithmData`. */
  datatype Sensor =
    | SensorData(fields: SensorFields)
    | ExperimentData(fields: SensorFields, weights: seq<int>, isExperiment: bool)
    | AlgorithmData(fields: SensorFields, weights: seq<int>, isExperiment: bool, predictedWeight: int, error: int)

  /** `struct.error` raised by `pack`: a value does not fit its field, or the weight count is not 9. */
  datatype PackError = StructRangeError

  /** What `unpack` and `SensorFrame.unpack` raise. */
  datatype DecodeError =
    | StructSizeError
    | UnicodeError
    | UnknownLocation(value: int)
    | TruncatedTimestamp
    | MissingTag
    | UnknownTag(tag: int)
    | TruncatedSensor

  const SENSOR_DATA_SIZE: nat := 27
  const EXPERIMENT_DATA_SIZE: nat := 46
  const ALGORITHM_DATA_SIZE: nat := 50
  const PORT_WIDTH: nat := 16
  const WEIGHT_COUNT: nat := 9
  /** `SensorFrame.unpack` always reads this many sensors. */
  const SENSORS_PER_FRAME: nat := 4

  predicate InU16(n: int) {
    0 <= n < U16_LIMIT
  }

  predicate AllU16(ws: seq<int>) {
    forall i :: 0 <= i < |ws| ==> InU16(ws[i])
  }

  /** The key of DATA_TYPE_MAP / REVERSE_TYPE_MAP for a sensor's class. */
  function TypeTag(s: Sensor): (t: nat)
    ensures t <= 2
  {
    match s
    case SensorData(_) => 0
    case ExperimentData(_, _, _) => 1
    case AlgorithmData(_, _, _, _, _) => 2
  }

  /** `DATA_TYPE_MAP.get(tag).get_total_size()`; None for a tag the map does not hold. */
  function TagSize(tag: int): (r: Option<nat>)
    ensures r.Some? <==> 0 <= tag <= 2
  {
    if tag == 0 then Some(SENSOR_DATA_SIZE)
    else if tag == 1 then Some(EXPERIMENT_DATA_SIZE)
    else if tag == 2 then Some(ALGORITHM_DATA_SIZE)
    else None
  }

  predicate FieldsPackable(f: SensorFields) {
    0 <= f.timestamp < U32_LIMIT && InU16(f.distance) && InU16(f.intensity) && InU16(f.temperature)
  }

  /** `SensorData.pack`: `<I 16s B H H H`. */
  function PackFields(f: SensorFields): (r: Result<seq<Byte>, PackError>)
    ensures r.Ok? <==> FieldsPackable(f)
    ensures r.Ok? ==> |r.value| == SENSOR_DATA_SIZE
  {
    if !FieldsPackable(f) then Err(StructRangeError)
    else
      Ok(U32(f.timestamp) + FixedField(Utf8Encode(f.serialPort), PORT_WIDTH) + [f.location.Value()]
         + U16(f.distance) + U16(f.intensity) + U16(f.temperature))
  }

  function U16s(ws: seq<int>): (b: seq<Byte>)
    requires AllU16(ws)
    ensures |b| == 2 * |ws|
  {
    if ws == [] then [] else U16(ws[0]) + U16s(ws[1..])
  }

  function ReadU16s(b: seq<Byte>): (ws: seq<int>)
    requires |b| % 2 == 0
    ensures |ws| == |b| / 2
  {
    if b == [] then [] else [ReadU16(b[..2])] + ReadU16s(b[2..])
  }

  /** `ExperimentData.pack`: the parent's 27 bytes, nine `<H` weights and a `?` flag. */
  function PackExperiment(f: SensorFields, ws: seq<int>, isEx: bool): (r: Result<seq<Byte>, PackError>)
    ensures r.Ok? ==> |r.value| == EXPERIMENT_DATA_SIZE
  {
    var base :- PackFields(f);
    if |ws| != WEIGHT_COUNT || !AllU16(ws) then Err(StructRangeError)
    else Ok(base + U16s(ws) + [if isEx then 1 else 0])
  }

  /** `pack` of each class: the subclass encoding appends to its parent's. */
  function PackSensor(s: Sensor): (r: Result<seq<Byte>, PackError>)
    ensures r.Ok? ==> |r.value| == TagSize(TypeTag(s)).value
  {
    match s
    case SensorData(f) => PackFields(f)
    case ExperimentData(f, ws, isEx) => PackExperiment(f, ws, isEx)
    case AlgorithmData(f, ws, isEx, p, e) =>
      var base :- PackExperiment(f, ws, isEx);
      if !InU16(p) || !InU16(e) then Err(StructRangeError)
      else Ok(base + U16(p) + U16(e))
  }

  /** `SensorData.unpack`: exactly 27 bytes, trailing NULs of the port name stripped. */
  function UnpackFields(data: seq<Byte>): (r: Result<SensorFields, DecodeError>)
    ensures r.Ok? ==> |data| == SENSOR_DATA_SIZE
  {
    if |data| != SENSOR_DATA_SIZE then Err(StructSizeError)
    else
      var port :- Utf8DecodeAscii(data[4..20]).ToResult(UnicodeError);
      var loc :- LocationOf(data[20]).ToResult(UnknownLocation(data[20]));
      Ok(SensorFields(ReadU32(data[..4]), RStripChar(port, '\0'), loc,
                      ReadU16(data[21..23]), ReadU16(data[23..25]), ReadU16(data[25..27])))
  }

  /** `cls.unpack(data)` for the class that `tag` names. */
  function UnpackSensor(tag: int, data: seq<Byte>): (r: Result<Sensor, DecodeError>)
    requires 0 <= tag <= 2
    ensures r.Ok? ==> TypeTag(r.value) == tag && |data| == TagSize(tag).value
  {
    if tag == 0 then
      var f :- UnpackFields(data);
      Ok(SensorData(f))
    else if tag == 1 then
      var f :- UnpackFields(data[..if |data| < SENSOR_DATA_SIZE then |data| else SENSOR_DATA_SIZE]);
      if |data| != EXPERIMENT_DATA_SIZE then Err(StructSizeError)
      else Ok(ExperimentData(f, ReadU16s(data[27..45]), data[45] != 0))
    else
      var base :- UnpackSensor(1, data[..if |data| < EXPERIMENT_DATA_SIZE then |data| else EXPERIMENT_DATA_SIZE]);
      if |data| != ALGORITHM_DATA_SIZE then Err(StructSizeError)
      else Ok(AlgorithmData(base.fields, base.weights, base.isExperiment, ReadU16(data[46..48]), ReadU16(data[48..50])))
  }

  /** What survives an encode/decode cycle: every field fits, and the port name is
      ASCII, at most 16 bytes, and does not end in NUL. */
  predicate FieldsEncodable(f: SensorFields) {
    && FieldsPackable(f)
    && IsAscii(f.serialPort) && |f.serialPort| <= PORT_WIDTH
    && (f.serialPort == [] || f.serialPort[|f.serialPort| - 1] != '\0')
  }

  predicate Encodable(s: Sensor) {
    && FieldsEncodable(s.fields)
    && (!s.SensorData? ==> |s.weights| == WEIGHT_COUNT && AllU16(s.weights))
    && (s.AlgorithmData? ==> InU16(s.predictedWeight) && InU16(s.error))
  }

  lemma {:induction false} U16sRoundTrip(ws: seq<int>)
    requires AllU16(ws)
    ensures ReadU16s(U16s(ws)) == ws
  {
    if ws != [] {
      var b := U16s(ws);
      assert b[..2] == U16(ws[0]) && b[2..] == U16s(ws[1..]);
      U16RoundTrip(ws[0]);
      U16sRoundTrip(ws[1..]);
    }
  }

  lemma PaddedPortRoundTrip(port: string)
    requires IsAscii(port) && |port| <= PORT_WIDTH
    requires port == [] || port[|port| - 1] != '\0'
    ensures Utf8DecodeAscii(FixedField(Utf8Encode(port), PORT_WIDTH)).Some?
    ensures RStripChar(Utf8DecodeAscii(FixedField(Utf8Encode(port), PORT_WIDTH)).value, '\0') == port
  {
    RStripPadding(port, PORT_WIDTH - |port|);
    PaddedAsciiRoundTrip(port, PORT_WIDTH);
  }

  lemma {:induction false} RStripPadding(s: string, n: nat)
    requires s == [] || s[|s| - 1] != '\0'
    ensures RStripChar(s + Nuls(n), '\0') == s
  {
    if n > 0 {
      var t := s + Nuls(n);
      assert t[..|t| - 1] == s + Nuls(n - 1);
      RStripPadding(s, n - 1);
    } else {
      assert s + Nuls(0) == s;
    }
  }

  /** Where each field of `<I 16s B H H H` lies in a packed record. */
  lemma PackFieldsLayout(f: SensorFields)
    requires FieldsPackable(f)
    ensures PackFields(f).value[..4] == U32(f.timestamp)
    ensures PackFields(f).value[4..20] == FixedField(Utf8Encode(f.serialPort), PORT_WIDTH)
    ensures PackFields(f).value[20] == f.location.Value()
    ensures PackFields(f).value[21..23] == U16(f.distance)
    ensures PackFields(f).value[23..25] == U16(f.intensity)
    ensures PackFields(f).value[25..27] == U16(f.temperature)
  {
  }

  /** `SensorData.unpack` on 27 bytes whose port decodes and whose location byte is known. */
  lemma UnpackFieldsOk(data: seq<Byte>, port: string, loc: Location)
    requires |data| == SENSOR_DATA_SIZE
    requires Utf8DecodeAscii(data[4..20]) == Some(port) && LocationOf(data[20]) == Some(loc)
    ensures UnpackFields(data) == Ok(SensorFields(ReadU32(data[..4]), RStripChar(port, '\0'), loc,
                                                  ReadU16(data[21..23]), ReadU16(data[23..25]), ReadU16(data[25..27])))
  {
  }

  /** `SensorData.unpack(pack(s)) == s` for an encodable record. */
  lemma FieldsRoundTrip(f: SensorFields)
    requires FieldsEncodable(f)
    ensures PackFields(f).Ok? && UnpackFields(PackFields(f).value) == Ok(f)
  {
    var b := PackFields(f).value;
    PackFieldsLayout(f);
    PaddedPortRoundTrip(f.serialPort);
    var port := Utf8DecodeAscii(b[4..20]).value;
    UnpackFieldsOk(b, port, f.location);
    U32RoundTrip(f.timestamp);
    U16RoundTrip(f.distance);
    U16RoundTrip(f.intensity);
    U16RoundTrip(f.temperature);
  }

  /** `ExperimentData.unpack(pack(s)) == s`. */
  lemma ExperimentRoundTrip(f: SensorFields, ws: seq<int>, isEx: bool)
    requires FieldsEncodable(f) && |ws| == WEIGHT_COUNT && AllU16(ws)
    ensures PackExperiment(f, ws, isEx).Ok?
    ensures UnpackSensor(1, PackExperiment(f, ws, isEx).value) == Ok(ExperimentData(f, ws, isEx))
  {
    FieldsRoundTrip(f);
    var base := PackFields(f).value;
    var flag: Byte := if isEx then 1 else 0;
    var b := base + U16s(ws) + [flag];
    assert PackExperiment(f, ws, isEx) == Ok(b);
    assert b[..SENSOR_DATA_SIZE] == base;
    assert b[27..45] == U16s(ws);
    assert b[45] == flag;
    U16sRoundTrip(ws);
  }

  /** `AlgorithmData.unpack(pack(s)) == s`. */
  lemma AlgorithmRoundTrip(f: SensorFields, ws: seq<int>, isEx: bool, p: int, e: int)
    requires FieldsEncodable(f) && |ws| == WEIGHT_COUNT && AllU16(ws) && InU16(p) && InU16(e)
    ensures PackSensor(AlgorithmData(f, ws, isEx, p, e)).Ok?
    ensures UnpackSensor(2, PackSensor(AlgorithmData(f, ws, isEx, p, e)).value) == Ok(AlgorithmData(f, ws, isEx, p, e))
  {
    ExperimentRoundTrip(f, ws, isEx);
    var ex := PackExperiment(f, ws, isEx).value;
    var b := ex + U16(p) + U16(e);
    assert PackSensor(AlgorithmData(f, ws, isEx, p, e)) == Ok(b);
    assert b[..EXPERIMENT_DATA_SIZE] == ex;
    assert b[46..48] == U16(p) && b[48..50] == U16(e);
    U16RoundTrip(p);
    U16RoundTrip(e);
  }

  /** `unpack(pack(s)) == s` for every encodable record of each of the three classes. */
  lemma SensorRoundTrip(s: Sensor)
    requires Encodable(s)
    ensures PackSensor(s).Ok?
    ensures UnpackSensor(TypeTag(s), PackSensor(s).value) == Ok(s)
  {
    match s
    case SensorData(f) => FieldsRoundTrip(f);
    case ExperimentData(f, ws, isEx) => ExperimentRoundTrip(f, ws, isEx);
    case AlgorithmData(f, ws, isEx, p, e) => AlgorithmRoundTrip(f, ws, isEx, p, e);
  }

  /** Each subclass encoding starts with its parent's encoding. */
  lemma PackPrefix(s: Sensor)
    requires PackSensor(s).Ok?
    ensures PackFields(s.fields).Ok? && PackSensor(s).value[..SENSOR_DATA_SIZE] == PackFields(s.fields).value
    ensures s.AlgorithmData? ==>
      var ex := PackSensor(ExperimentData(s.fields, s.weights, s.isExperiment));
      ex.Ok? && PackSensor(s).value[..EXPERIMENT_DATA_SIZE] == ex.value
    decreases if s.AlgorithmData? then 1 else 0
  {
    if s.AlgorithmData? {
      var ex := ExperimentData(s.fields, s.weights, s.isExperiment);
      PackPrefix(ex);
      assert PackSensor(s).value[..EXPERIMENT_DATA_SIZE] == PackSensor(ex).value;
    }
  }

  /** A location byte outside 0..4 makes decoding fail. */
  lemma BadLocationRejected(data: seq<Byte>)
    requires |data| == SENSOR_DATA_SIZE && data[20] > 4
    ensures UnpackFields(data).Err?
  {
  }

  /** SensorFrame. */
  datatype Frame = Frame(timestamp: int, sensors: seq<Sensor>)

  /** One sensor inside a frame: its type tag byte, then its record. */
  function Tagged(s: Sensor): (r: Result<seq<Byte>, PackError>)
    ensures r.Ok? ==> |r.value| == 1 + TagSize(TypeTag(s)).value && r.value[0] == TypeTag(s)
  {
    var p :- PackSensor(s);
    Ok([TypeTag(s) as Byte] + p)
  }

  /** The concatenation of `pack(x)` over `xs`, failing at the first item that cannot be packed. */
  function JoinPacked<T>(xs: seq<T>, pack: T -> Result<seq<Byte>, PackError>): (r: Result<seq<Byte>, PackError>)
  {
    if xs == [] then Ok([])
    else
      var head :- pack(xs[0]);
      var tail :- JoinPacked(xs[1..], pack);
      Ok(head + tail)
  }

  /** Packing one more item extends the concatenation, or fails. */
  lemma {:induction false} JoinPackedSnoc<T>(xs: seq<T>, x: T, pack: T -> Result<seq<Byte>, PackError>)
    ensures JoinPacked(xs + [x], pack).Ok? <==> JoinPacked(xs, pack).Ok? && pack(x).Ok?
    ensures JoinPacked(xs + [x], pack).Ok? ==>
      JoinPacked(xs + [x], pack).value == JoinPacked(xs, pack).value + pack(x).value
    ensures JoinPacked(xs, pack).Ok? && pack(x).Err? ==> JoinPacked(xs + [x], pack) == Err(pack(x).error)
    ensures JoinPacked(xs, pack).Err? ==> JoinPacked(xs + [x], pack) == JoinPacked(xs, pack)
  {
    var t := xs + [x];
    if xs == [] {
      assert t[1..] == [];
      if pack(x).Ok? {
        assert JoinPacked(t, pack).value == pack(x).value + [];
      }
    } else {
      assert t[0] == xs[0] && t[1..] == xs[1..] + [x];
      JoinPackedSnoc(xs[1..], x, pack);
      if JoinPacked(t, pack).Ok? {
        var h := pack(xs[0]).value;
        var m := JoinPacked(xs[1..], pack).value;
        assert JoinPacked(t, pack).value == h + (m + pack(x).value);
        assert JoinPacked(xs, pack).value == h + m;
      }
    }
  }

  /** A failure among the first `k` items is a failure of the whole concatenation. */
  lemma {:induction false} JoinPackedPrefixErr<T>(xs: seq<T>, k: nat, pack: T -> Result<seq<Byte>, PackError>)
    requires k <= |xs| && JoinPacked(xs[..k], pack).Err?
    ensures JoinPacked(xs, pack) == JoinPacked(xs[..k], pack)
    decreases |xs| - k
  {
    if k < |xs| {
      JoinPackedSnoc(xs[..k], xs[k], pack);
      assert xs[..k + 1] == xs[..k] + [xs[k]];
      JoinPackedPrefixErr(xs, k + 1, pack);
    } else {
      assert xs[..k] == xs;
    }
  }

  /** The tagged sensor records of a frame, in order. */
  function EncodeSensors(ss: seq<Sensor>): (r: Result<seq<Byte>, PackError>)
  {
    JoinPacked(ss, Tagged)
  }

  /** `SensorFrame.pack`: a `<I` timestamp, then every tagged sensor in order. */
  function EncodeFrame(f: Frame): (r: Result<seq<Byte>, PackError>)
  {
    if !(0 <= f.timestamp < U32_LIMIT) then Err(StructRangeError)
    else
      var body :- EncodeSensors(f.sensors);
      Ok(U32(f.timestamp) + body)
  }

  /** `SensorFrame.pack`: the timestamp, then the loop over the sensors. */
  method PackFrame(f: Frame) returns (r: Result<seq<Byte>, PackError>)
    ensures r == EncodeFrame(f)
  {
    if !(0 <= f.timestamp < U32_LIMIT) {
      return Err(StructRangeError);
    }
    var body := PackEach(f.sensors, Tagged);
    if body.Err? {
      return Err(body.error);
    }
    r := Ok(U32(f.timestamp) + body.value);
  }

  /**
   * The loop of `SensorFrame.pack`: append `pack(x)` for each item in order; the first
   * item that raises ends the loop with its error.
   */
  method PackEach<T>(xs: seq<T>, pack: T -> Result<seq<Byte>, PackError>) returns (r: Result<seq<Byte>, PackError>)
    ensures r == JoinPacked(xs, pack)
  {
    var packed := [];
    var i := 0;
    while i < |xs|
      invariant 0 <= i <= |xs|
      invariant JoinPacked(xs[..i], pack) == Ok(packed)
    {
      var data := pack(xs[i]);
      JoinPackedSnoc(xs[..i], xs[i], pack);
      assert xs[..i + 1] == xs[..i] + [xs[i]];
      if data.Err? {
        JoinPackedPrefixErr(xs, i + 1, pack);
        return Err(data.error);
      }
      packed := packed + data.value;
      i := i + 1;
    }
    assert xs[..i] == xs;
    r := Ok(packed);
  }

  /** Reading `k` tagged sensors from the front of `s`; also returns the unread rest. */
  function DecodeSensors(s: seq<Byte>, k: nat): (r: (Result<seq<Sensor>, DecodeError>, seq<Byte>))
    ensures |r.1| <= |s|
    ensures r.0.Ok? ==> |r.0.value| == k
  {
    if k == 0 then (Ok([]), s)
    else
      match ReadSensor(s)
      case Err(e) => (Err(e), s)
      case Ok(read) => PrependSensors([read.0], DecodeSensors(s[read.1..], k - 1))
  }

  /**
   * One tagged record from the front of `s`: the tag byte, then `calcsize` bytes of the
   * class it names. Returns the sensor and the number of bytes used.
   */
  function ReadSensor(s: seq<Byte>): (r: Result<(Sensor, nat), DecodeError>)
    ensures r.Ok? ==> s != [] && TagSize(s[0]).Some? && r.value.1 == 1 + TagSize(s[0]).value <= |s|
    ensures r.Ok? ==> TypeTag(r.value.0) == s[0]
  {
    if s == [] then Err(MissingTag)
    else
      match TagSize(s[0])
      case None => Err(UnknownTag(s[0]))
      case Some(n) =>
        if |s| - 1 < n then Err(TruncatedSensor)
        else
          var x :- UnpackSensor(s[0], s[1..1 + n]);
          Ok((x, 1 + n))
  }

  /** A decoding result with `prefix` put in front of the sensors read. */
  function PrependSensors(prefix: seq<Sensor>, r: (Result<seq<Sensor>, DecodeError>, seq<Byte>))
    : (Result<seq<Sensor>, DecodeError>, seq<Byte>)
  {
    match r.0
    case Err(e) => (Err(e), r.1)
    case Ok(xs) => (Ok(prefix + xs), r.1)
  }

  /** One step of `DecodeSensors` after a record was read. */
  lemma DecodeSensorsOk(s: seq<Byte>, k: nat, x: Sensor, n: nat, after: seq<Byte>, k': nat)
    requires k > 0 && ReadSensor(s) == Ok((x, n))
    requires n <= |s| && after == s[n..] && k' == k - 1
    ensures DecodeSensors(s, k) == PrependSensors([x], DecodeSensors(after, k'))
  {
  }

  lemma PrependSensorsAssoc(a: seq<Sensor>, b: seq<Sensor>, r: (Result<seq<Sensor>, DecodeError>, seq<Byte>))
    ensures PrependSensors(a, PrependSensors(b, r)) == PrependSensors(a + b, r)
  {
    match r.0
    case Err(e) =>
    case Ok(xs) => assert a + (b + xs) == a + b + xs;
  }

  lemma PrependNoSensors(r: (Result<seq<Sensor>, DecodeError>, seq<Byte>))
    ensures PrependSensors([], r) == r
  {
    match r.0
    case Err(e) =>
    case Ok(xs) => assert [] + xs == xs;
  }

  /**
   * `SensorFrame.unpack` on the unread bytes `s`: None at end of file, an error for
   * 1-3 bytes or a bad sensor, otherwise a frame of exactly four sensors.
   */
  function DecodeFrame(s: seq<Byte>): (r: (Result<Option<Frame>, DecodeError>, seq<Byte>))
    ensures |r.1| <= |s|
    ensures r.0.Ok? && r.0.value.Some? ==> |r.1| < |s| && |r.0.value.value.sensors| == SENSORS_PER_FRAME
    ensures r.0 == Ok(None) <==> s == []
  {
    if s == [] then (Ok(None), s)
    else if |s| < 4 then (Err(TruncatedTimestamp), s)
    else
      var (sensors, rest) := DecodeSensors(s[4..], SENSORS_PER_FRAME);
      match sensors
      case Err(e) => (Err(e), rest)
      case Ok(xs) => (Ok(Some(Frame(ReadU32(s[..4]), xs))), rest)
  }

  /** `load_frames` on the file contents `s`. */
  function DecodeFrames(s: seq<Byte>): (r: Result<seq<Frame>, DecodeError>)
    ensures r.Ok? ==> forall i :: 0 <= i < |r.value| ==> |r.value[i].sensors| == SENSORS_PER_FRAME
    decreases |s|
  {
    var (frame, rest) := DecodeFrame(s);
    match frame
    case Err(e) => Err(e)
    case Ok(None) => Ok([])
    case Ok(Some(f)) => PrependFrames([f], DecodeFrames(rest))
  }

  lemma PrependNoFrames(r: Result<seq<Frame>, DecodeError>)
    ensures PrependFrames([], r) == r
  {
    match r
    case Err(e) =>
    case Ok(fs) => assert [] + fs == fs;
  }

  lemma PrependFramesAssoc(a: seq<Frame>, b: seq<Frame>, r: Result<seq<Frame>, DecodeError>)
    ensures PrependFrames(a, PrependFrames(b, r)) == PrependFrames(a + b, r)
  {
    match r
    case Err(e) =>
    case Ok(fs) => assert a + (b + fs) == a + b + fs;
  }

  function PrependFrames(prefix: seq<Frame>, r: Result<seq<Frame>, DecodeError>): Result<seq<Frame>, DecodeError>
  {
    match r
    case Err(e) => Err(e)
    case Ok(fs) => Ok(prefix + fs)
  }

  /** `SensorFrame.unpack(f)` on a file read from offset `pos`, as the loop the source runs. */
  method UnpackFrame(data: seq<Byte>, pos: nat) returns (r: Result<Option<Frame>, DecodeError>, next: nat)
    requires pos <= |data|
    ensures pos <= next <= |data|
    ensures r == DecodeFrame(data[pos..]).0
    ensures r.Ok? ==> data[next..] == DecodeFrame(data[pos..]).1
  {
    var s := data[pos..];
    if |s| == 0 {
      return Ok(None), pos;
    }
    if |s| < 4 {
      return Err(TruncatedTimestamp), |data|;
    }
    var timestamp := ReadU32(s[..4]);
    var sensors: seq<Sensor> := [];
    var at := pos + 4;
    assert data[at..] == s[4..];
    PrependNoSensors(DecodeSensors(s[4..], SENSORS_PER_FRAME));
    var left := SENSORS_PER_FRAME;
    while left > 0
      invariant pos + 4 <= at <= |data|
      invariant |sensors| + left == SENSORS_PER_FRAME
      invariant DecodeSensors(s[4..], SENSORS_PER_FRAME) == PrependSensors(sensors, DecodeSensors(data[at..], left))
    {
      var sensor, next := ReadTaggedSensor(data, at);
      if sensor.Err? {
        return Err(sensor.error), next;
      }
      ghost var before, was, prior := sensors, at, left;
      sensors := sensors + [sensor.value];
      at := next;
      left := left - 1;
      DecodeSensorsOk(data[was..], prior, sensor.value, at - was, data[at..], left);
      PrependSensorsAssoc(before, [sensor.value], DecodeSensors(data[at..], left));
    }
    assert sensors + [] == sensors;
    r, next := Ok(Some(Frame(timestamp, sensors))), at;
  }

  /**
   * One pass of the loop in `SensorFrame.unpack`: read the type tag, look up its class,
   * read `get_total_size()` bytes and unpack them. `next` is the file position afterwards.
   */
  method ReadTaggedSensor(data: seq<Byte>, at: nat) returns (r: Result<Sensor, DecodeError>, next: nat)
    requires at <= |data|
    ensures at <= next <= |data|
    ensures r.Err? ==> ReadSensor(data[at..]).Err? && r.error == ReadSensor(data[at..]).error
    ensures r.Ok? ==> ReadSensor(data[at..]) == Ok((r.value, next - at))
  {
    var rest := data[at..];
    if |rest| == 0 {
      return Err(MissingTag), at;
    }
    var tag := rest[0];
    var size := TagSize(tag);
    if size.None? {
      return Err(UnknownTag(tag)), at + 1;
    }
    if |rest| - 1 < size.value {
      return Err(TruncatedSensor), |data|;
    }
    var sensor := UnpackSensor(tag, rest[1..1 + size.value]);
    if sensor.Err? {
      return Err(sensor.error), at + 1 + size.value;
    }
    return Ok(sensor.value), at + 1 + size.value;
  }

  /** `load_frames`: frames in file order until end of file; the first error aborts. */
  method LoadFrames(data: seq<Byte>) returns (r: Result<seq<Frame>, DecodeError>)
    ensures r == DecodeFrames(data)
  {
    var frames: seq<Frame> := [];
    var pos := 0;
    assert data[pos..] == data;
    PrependNoFrames(DecodeFrames(data));
    while true
      invariant pos <= |data|
      invariant DecodeFrames(data) == PrependFrames(frames, DecodeFrames(data[pos..]))
      decreases |data| - pos
    {
      var frame, next := UnpackFrame(data, pos);
      if frame.Err? {
        return Err(frame.error);
      }
      if frame.value.None? {
        assert frames + [] == frames;
        return Ok(frames);
      }
      ghost var before, was := frames, pos;
      frames := frames + [frame.value.value];
      pos := next;
      DecodeFramesStep(data[was..], frame.value.value, data[pos..]);
      PrependFramesAssoc(before, [frame.value.value], DecodeFrames(data[pos..]));
    }
  }

  /** The concatenation of `pack(x)` over items that all pack. */
  function ConcatPacked<T>(xs: seq<T>, pack: T -> Result<seq<Byte>, PackError>): seq<Byte>
    requires forall i :: 0 <= i < |xs| ==> pack(xs[i]).Ok?
  {
    if xs == [] then [] else pack(xs[0]).value + ConcatPacked(xs[1..], pack)
  }

  lemma {:induction false} ConcatPackedSnoc<T>(xs: seq<T>, x: T, pack: T -> Result<seq<Byte>, PackError>)
    requires forall i :: 0 <= i < |xs| ==> pack(xs[i]).Ok?
    requires pack(x).Ok?
    ensures ConcatPacked(xs + [x], pack) == ConcatPacked(xs, pack) + pack(x).value
  {
    if xs == [] {
      assert [] + [x] == [x];
    } else {
      assert (xs + [x])[1..] == xs[1..] + [x];
      ConcatPackedSnoc(xs[1..], x, pack);
    }
  }

  /** The bytes of a file holding `fs`, all of which can be packed. */
  function EncodeAll(fs: seq<Frame>): seq<Byte>
    requires forall i :: 0 <= i < |fs| ==> EncodeFrame(fs[i]).Ok?
  {
    ConcatPacked(fs, EncodeFrame)
  }

  /**
   * `save_frames`: the file is truncated, then each frame's packing is written; a frame
   * that cannot be packed raises and leaves the frames before it in the file.
   */
  method SaveFrames(frames: seq<Frame>) returns (file: seq<Byte>, err: Option<PackError>, written: nat)
    ensures written <= |frames|
    ensures forall i :: 0 <= i < written ==> EncodeFrame(frames[i]).Ok?
    ensures file == EncodeAll(frames[..written])
    ensures err.None? <==> written == |frames|
    ensures err.Some? ==> EncodeFrame(frames[written]).Err?
  {
    file, err, written := WriteEach(frames, EncodeFrame);
  }

  /**
   * The loop of `save_frames`: write `pack(x)` for each item in order until one raises.
   * `written` counts the items whose bytes reached the file.
   */
  method WriteEach<T>(xs: seq<T>, pack: T -> Result<seq<Byte>, PackError>)
    returns (file: seq<Byte>, err: Option<PackError>, written: nat)
    ensures written <= |xs|
    ensures forall i :: 0 <= i < written ==> pack(xs[i]).Ok?
    ensures file == ConcatPacked(xs[..written], pack)
    ensures err.None? <==> written == |xs|
    ensures err.Some? ==> pack(xs[written]).Err? && err.value == pack(xs[written]).error
  {
    file := [];
    var i := 0;
    while i < |xs|
      invariant i <= |xs|
      invariant forall j :: 0 <= j < i ==> pack(xs[j]).Ok?
      invariant file == ConcatPacked(xs[..i], pack)
    {
      var packed := pack(xs[i]);
      if packed.Err? {
        return file, Some(packed.error), i;
      }
      ConcatPackedSnoc(xs[..i], xs[i], pack);
      assert xs[..i + 1] == xs[..i] + [xs[i]];
      file := file + packed.value;
      i := i + 1;
    }
    written := i;
    err := None;
  }

  /** A frame that survives the file round trip: a 32-bit timestamp and four encodable sensors. */
  predicate FrameEncodable(f: Frame) {
    && 0 <= f.timestamp < U32_LIMIT
    && |f.sensors| == SENSORS_PER_FRAME
    && forall i :: 0 <= i < |f.sensors| ==> Encodable(f.sensors[i])
  }

  /** A tagged, encodable record is read back whole, whatever follows it. */
  lemma ReadTagged(x: Sensor, s: seq<Byte>, after: seq<Byte>)
    requires Encodable(x)
    requires PackSensor(x).Ok? && s == [TypeTag(x) as Byte] + PackSensor(x).value + after
    ensures ReadSensor(s) == Ok((x, 1 + |PackSensor(x).value|))
    ensures s[1 + |PackSensor(x).value|..] == after
  {
    SensorRoundTrip(x);
    var p := PackSensor(x).value;
    var n := |p|;
    assert s[0] == TypeTag(x) as Byte;
    assert s[1..1 + n] == p;
    assert s[1 + n..] == after;
  }

  /** Decoding a tagged, encodable record reads it back and stops right after it. */
  lemma DecodeTagged(x: Sensor, s: seq<Byte>, after: seq<Byte>, k: nat, k': nat)
    requires Encodable(x) && k > 0 && k' == k - 1
    requires PackSensor(x).Ok? && s == [TypeTag(x) as Byte] + PackSensor(x).value + after
    ensures DecodeSensors(s, k) == PrependSensors([x], DecodeSensors(after, k'))
  {
    ReadTagged(x, s, after);
    DecodeSensorsOk(s, k, x, 1 + |PackSensor(x).value|, after, k');
  }

  lemma EncodableOk(x: Sensor)
    requires Encodable(x)
    ensures PackSensor(x).Ok?
  {
    SensorRoundTrip(x);
  }

  /** The encoding of a non-empty list, followed by `rest`, split at its first record. */
  lemma EncodeSensorsCons(ss: seq<Sensor>, rest: seq<Byte>)
    requires ss != [] && PackSensor(ss[0]).Ok? && EncodeSensors(ss[1..]).Ok?
    ensures EncodeSensors(ss).Ok?
    ensures EncodeSensors(ss).value + rest
         == [TypeTag(ss[0]) as Byte] + PackSensor(ss[0]).value + (EncodeSensors(ss[1..]).value + rest)
  {
    assert Tagged(ss[0]).value == [TypeTag(ss[0]) as Byte] + PackSensor(ss[0]).value;
  }

  lemma {:induction false} DecodeEncodedSensors(ss: seq<Sensor>, rest: seq<Byte>)
    requires forall i :: 0 <= i < |ss| ==> Encodable(ss[i])
    ensures EncodeSensors(ss).Ok?
    ensures DecodeSensors(EncodeSensors(ss).value + rest, |ss|) == (Ok(ss), rest)
  {
    if ss == [] {
      assert EncodeSensors(ss).value + rest == rest;
    } else {
      var x, tail := ss[0], ss[1..];
      DecodeEncodedSensors(tail, rest);
      EncodableOk(x);
      EncodeSensorsCons(ss, rest);
      var after := EncodeSensors(tail).value + rest;
      DecodeTagged(x, EncodeSensors(ss).value + rest, after, |ss|, |tail|);
      assert [x] + tail == ss;
    }
  }

  /** `SensorFrame.unpack` once the four records after the 4-byte timestamp `h` decode. */
  lemma DecodeFrameOk(h: seq<Byte>, t: seq<Byte>, xs: seq<Sensor>, rest: seq<Byte>)
    requires |h| == 4 && DecodeSensors(t, SENSORS_PER_FRAME) == (Ok(xs), rest)
    ensures DecodeFrame(h + t) == (Ok(Some(Frame(ReadU32(h), xs))), rest)
  {
    assert (h + t)[..4] == h && (h + t)[4..] == t;
  }

  lemma EncodeFrameOk(f: Frame)
    requires 0 <= f.timestamp < U32_LIMIT && EncodeSensors(f.sensors).Ok?
    ensures EncodeFrame(f) == Ok(U32(f.timestamp) + EncodeSensors(f.sensors).value)
  {
  }

  /** `SensorFrame.unpack` reads back a packed frame of four encodable sensors and stops right after it. */
  lemma FrameRoundTrip(f: Frame, rest: seq<Byte>)
    requires FrameEncodable(f)
    ensures EncodeFrame(f).Ok?
    ensures DecodeFrame(EncodeFrame(f).value + rest) == (Ok(Some(f)), rest)
  {
    DecodeEncodedSensors(f.sensors, rest);
    var body := EncodeSensors(f.sensors).value;
    var h := U32(f.timestamp);
    EncodeFrameOk(f);
    var enc := EncodeFrame(f).value;
    assert enc + rest == h + (body + rest);
    U32RoundTrip(f.timestamp);
    DecodeFrameOk(h, body + rest, f.sensors, rest);
    assert Frame(ReadU32(h), f.sensors) == f;
  }

  lemma DecodeFramesStep(s: seq<Byte>, f: Frame, rest: seq<Byte>)
    requires DecodeFrame(s) == (Ok(Some(f)), rest)
    ensures DecodeFrames(s) == PrependFrames([f], DecodeFrames(rest))
  {
  }

  /** `load_frames(save_frames(fs)) == fs` when every frame holds four encodable sensors. */
  lemma {:induction false} SaveLoadRoundTrip(fs: seq<Frame>)
    requires forall i :: 0 <= i < |fs| ==> FrameEncodable(fs[i])
    ensures forall i :: 0 <= i < |fs| ==> EncodeFrame(fs[i]).Ok?
    ensures DecodeFrames(EncodeAll(fs)) == Ok(fs)
  {
    forall i | 0 <= i < |fs| ensures EncodeFrame(fs[i]).Ok? {
      FrameRoundTrip(fs[i], []);
    }
    if fs != [] {
      SaveLoadRoundTrip(fs[1..]);
      var tail := EncodeAll(fs[1..]);
      FrameRoundTrip(fs[0], tail);
      assert EncodeAll(fs) == EncodeFrame(fs[0]).value + tail;
      DecodeFramesStep(EncodeAll(fs), fs[0], tail);
      assert [fs[0]] + fs[1..] == fs;
    } else {
      assert DecodeFrame([]) == (Ok(None), []);
    }
  }

  /** A frame whose sensor count is not four never comes back from the file unchanged. */
  lemma OtherSizesDoNotRoundTrip(fs: seq<Frame>, k: nat)
    requires forall i :: 0 <= i < |fs| ==> EncodeFrame(fs[i]).Ok?
    requires k < |fs| && |fs[k].sensors| != SENSORS_PER_FRAME
    ensures DecodeFrames(EncodeAll(fs)) != Ok(fs)
  {
  }
}
