/**
 * `log/tool/file_converter.py`: the converter window. Two format choices (txt, bin,
 * json) pick one of six converters; each walks its input in order and writes the other
 * format. The text and binary outputs are written as the loop goes, the JSON outputs
 * only after it, so an exception leaves a partial text or binary file and no JSON file.
 */
module FileConverter {
  import opened Wrappers
  import opened LittleEndian
  import opened PyText
  import opened LogRecord
  import TxtToBinScript

  datatype Format = Txt | Bin | Json

  datatype Conversion = TxtToBin | BinToJson | JsonToTxt | BinToTxt | JsonToBin | TxtToJson

  function Source(c: Conversion): Format {
    match c
    case TxtToBin => Txt
    case BinToJson => Bin
    case JsonToTxt => Json
    case BinToTxt => Bin
    case JsonToBin => Json
    case TxtToJson => Txt
  }

  function Target(c: Conversion): Format {
    match c
    case TxtToBin => Bin
    case BinToJson => Json
    case JsonToTxt => Txt
    case BinToTxt => Txt
    case JsonToBin => Bin
    case TxtToJson => Json
  }

  /** What `convert_file` does for a choice of formats. */
  datatype Action = SameFormatWarning | Run(conversion: Conversion) | UnsupportedWarning

  /**
   * The if-chain of `convert_file`: equal formats only warn; every pair of distinct
   * formats runs the one converter between them, so the "not supported" branch is never
   * taken.
   */
  function Dispatch(input: Format, output: Format): (a: Action)
    ensures a == SameFormatWarning <==> input == output
    ensures a.Run? <==> input != output
    ensures a.Run? ==> Source(a.conversion) == input && Target(a.conversion) == output
  {
    assert input.Txt? || input.Bin? || input.Json?;
    if input == output then SameFormatWarning
    else if input == Txt && output == Bin then Run(TxtToBin)
    else if input == Bin && output == Json then Run(BinToJson)
    else if input == Json && output == Txt then Run(JsonToTxt)
    else if input == Bin && output == Txt then Run(BinToTxt)
    else if input == Json && output == Bin then Run(JsonToBin)
    else if input == Txt && output == Json then Run(TxtToJson)
    else assert false; UnsupportedWarning
  }

  /** Each converter is run for its own pair of formats and for no other. */
  lemma DispatchExactlyOne(c: Conversion, input: Format, output: Format)
    ensures Dispatch(input, output) == Run(c) <==> input == Source(c) && output == Target(c)
  {
  }

  // ---- txt -> bin ----------------------------------------------------------------

  /** The state byte: the eighth field, encoded, when there is one, else `b't'`. */
  function StateOf(parts: seq<string>): seq<Byte> {
    if |parts| > 7 then Utf8Encode(parts[7]) else TxtToBinScript.STATE_T
  }

  /** One line of `txt_to_bin`: at least seven tab-separated fields are needed. */
  function TxtToBinLine(codec: FloatCodec, line: string): Step<seq<Byte>> {
    TxtToBinParts(codec, Split(Strip(line), '\t'))
  }

  function TxtToBinParts(codec: FloatCodec, parts: seq<string>): Step<seq<Byte>> {
    if |parts| < 7 then Skip else PackParts(codec, parts, StateOf(parts))
  }

  function TxtToBinLines(codec: FloatCodec): string -> Step<seq<Byte>> {
    line => TxtToBinLine(codec, line)
  }

  /**
   * Which fields are skipped: fewer than seven, or a timestamp and weights that parse but
   * do not hold nine weights. A packed record has the state byte of `StateOf` and the
   * timestamp and weights of its fields.
   */
  lemma TxtToBinFields(codec: FloatCodec, parts: seq<string>)
    ensures TxtToBinParts(codec, parts).Skip? <==>
      |parts| < 7
      || (&& ParseInt(RemoveChar(parts[0], '_')).Some?
          && ParseIntList(parts[1]).Some?
          && |ParseIntList(parts[1]).value| != WEIGHT_COUNT)
    ensures TxtToBinParts(codec, parts).Emit? ==>
      var b := TxtToBinParts(codec, parts).item;
      && |parts| >= 7 && |b| == RECORD_SIZE
      && ParseInt(RemoveChar(parts[0], '_')) == Some(ReadU32(b[..4]))
      && ParseIntList(parts[1]) == Some(ReadI16s(b[4..22]))
      && b[23..39] == FixedField(Utf8Encode(parts[3]), NAME_WIDTH)
      && b[51..52] == FixedField(StateOf(parts), 1)
  {
    if |parts| >= 7 {
      var s := PackParts(codec, parts, StateOf(parts));
      assert TxtToBinParts(codec, parts) == s;
    }
  }

  /**
   * The window's `txt_to_bin` and the script's agree on lines of exactly seven fields;
   * a line of more fields, which the script skips, is packed here with the first byte of
   * its eighth field as the state.
   */
  lemma TxtToBinAgainstScript(codec: FloatCodec, line: string)
    ensures var parts := Split(Strip(line), '\t');
      && (|parts| == 7 ==> TxtToBinLine(codec, line) == TxtToBinScript.LineStep(codec, line))
      && (|parts| > 7 ==> TxtToBinScript.LineStep(codec, line).Skip?
                          && TxtToBinLine(codec, line) == PackParts(codec, parts, Utf8Encode(parts[7])))
  {
    var parts := Split(Strip(line), '\t');
    assert TxtToBinLine(codec, line) == TxtToBinParts(codec, parts);
    if |parts| == 7 {
      assert StateOf(parts) == TxtToBinScript.STATE_T;
    }
  }

  /** `txt_to_bin`: the records written, in order, and the exception that ended the loop. */
  method ConvertTxtToBin(lines: seq<string>, codec: FloatCodec) returns (out: seq<Byte>, err: Option<ConvertError>)
    ensures err == Collect(lines, TxtToBinLines(codec)).1
    ensures out == Concat(Collect(lines, TxtToBinLines(codec)).0)
    ensures Chunks(out) == Collect(lines, TxtToBinLines(codec)).0
  {
    var records;
    records, err := ForEach(lines, TxtToBinLines(codec));
    out := Concat(records);
    RecordsFull(lines, codec);
    ChunksConcat(records);
  }

  /** Every record the loop emits is 52 bytes long. */
  lemma RecordsFull(lines: seq<string>, codec: FloatCodec)
    ensures forall k :: 0 <= k < |Collect(lines, TxtToBinLines(codec)).0| ==> |Collect(lines, TxtToBinLines(codec)).0[k]| == RECORD_SIZE
  {
    var records := Collect(lines, TxtToBinLines(codec)).0;
    CollectFrom(lines, TxtToBinLines(codec));
    var idx :| Ordered(lines, TxtToBinLines(codec), records, idx);
    forall k | 0 <= k < |records|
      ensures |records[k]| == RECORD_SIZE
    {
      assert TxtToBinLines(codec)(lines[idx[k]]) == Emit(records[k]);
      assert TxtToBinLine(codec, lines[idx[k]]).Emit?;
    }
  }

  // ---- text lines of a record ------------------------------------------------------

  /** A line of the text log: the fields joined by tabs, then a newline. */
  function TabLine(fields: seq<string>): string {
    Join(fields, '\t') + "\n"
  }

  /** The eight fields `json_to_txt` prints for a record. */
  function JsonFields(codec: FloatCodec, r: JsonRecord): (fields: seq<string>)
    ensures |fields| == 8
  {
    [r.timestamp, ListRepr(r.weights), r.direction, r.name,
     codec.show(r.value1), codec.show(r.value2), codec.show(r.value3), r.state]
  }

  /** The line `json_to_txt` writes for a record. */
  function JsonLine(codec: FloatCodec, r: JsonRecord): string {
    TabLine(JsonFields(codec, r))
  }

  function JsonLines(codec: FloatCodec): JsonRecord -> string {
    r => JsonLine(codec, r)
  }

  /** One chunk of `bin_to_txt`: the decoded fields printed as a line, or the decoding error. */
  function ChunkToTxt(codec: FloatCodec, chunk: Chunk): Step<string> {
    match Unpack(chunk)
    case Err(e) => Fail(e)
    case Ok(d) =>
      Emit(TabLine([NatToString(d.timestamp), ListRepr(d.weights), d.direction, d.name,
                    codec.show(codec.unpack(d.value1)), codec.show(codec.unpack(d.value2)),
                    codec.show(codec.unpack(d.value3)), d.state]))
  }

  function ChunkToTxtSteps(codec: FloatCodec): Chunk -> Step<string> {
    (chunk: Chunk) => ChunkToTxt(codec, chunk)
  }

  /** `json_to_txt`: one line per record, in order; nothing in the loop can raise. */
  method ConvertJsonToTxt(data: seq<JsonRecord>, codec: FloatCodec) returns (lines: seq<string>)
    ensures lines == MapSeq(data, JsonLines(codec))
  {
    lines := MapEach(data, JsonLines(codec));
  }

  /** `bin_to_txt`: the lines written, in file order, and the exception that ended the loop. */
  method ConvertBinToTxt(data: seq<Byte>, codec: FloatCodec) returns (lines: seq<string>, err: Option<ConvertError>)
    ensures (lines, err) == Collect(Chunks(data), ChunkToTxtSteps(codec))
  {
    lines, err := ForEachChunk(data, ChunkToTxtSteps(codec));
  }

  /**
   * `bin_to_txt` writes exactly the lines `json_to_txt` writes for the records
   * `bin_to_json` reads from the same file, and stops at the same exception; but where
   * `bin_to_json` then writes nothing, `bin_to_txt` has already written the lines before it.
   */
  lemma BinToTxtIsJsonToTxt(data: seq<Byte>, codec: FloatCodec)
    ensures var txt, json := Collect(Chunks(data), ChunkToTxtSteps(codec)), Collect(Chunks(data), ChunkToJsonSteps(codec));
      txt.1 == json.1 && txt.0 == MapSeq(json.0, JsonLines(codec))
  {
    var cs := Chunks(data);
    forall i | 0 <= i < |cs|
      ensures ChunkToTxtSteps(codec)(cs[i]) == MapStep(ChunkToJsonSteps(codec)(cs[i]), JsonLines(codec))
    {
      ChunkLineIsJsonLine(codec, cs[i]);
    }
    CollectMap(cs, ChunkToJsonSteps(codec), ChunkToTxtSteps(codec), JsonLines(codec));
  }

  /** The line `bin_to_txt` prints for a chunk is the `json_to_txt` line of the record `bin_to_json` reads from it. */
  lemma ChunkLineIsJsonLine(codec: FloatCodec, chunk: Chunk)
    ensures ChunkToTxt(codec, chunk) == MapStep(ChunkToJson(codec, chunk), JsonLines(codec))
  {
    match Unpack(chunk)
    case Err(e) =>
    case Ok(d) =>
      var r := ToJson(codec, d);
      assert JsonFields(codec, r) == [NatToString(d.timestamp), ListRepr(d.weights), d.direction, d.name,
                  codec.show(codec.unpack(d.value1)), codec.show(codec.unpack(d.value2)),
                  codec.show(codec.unpack(d.value3)), d.state];
  }

  // ---- json -> bin -----------------------------------------------------------------

  /**
   * One item of `json_to_bin`: `int` of the timestamp text, then the packing, with the
   * weights list passed as it is and the state's encoding as the state byte.
   */
  function JsonToBinItem(codec: FloatCodec, r: JsonRecord): (s: Step<seq<Byte>>)
    ensures s.Emit? ==>
      && |s.item| == RECORD_SIZE
      && ParseInt(r.timestamp) == Some(ReadU32(s.item[..4]))
      && ReadI16s(s.item[4..22]) == r.weights
  {
    match ParseInt(r.timestamp)
    case None => Fail(ValueError)
    case Some(ts) =>
      match PackValues(codec, ts, r.weights, r.direction, r.name, r.value1, r.value2, r.value3, Utf8Encode(r.state))
      case Err(e) => Fail(e)
      case Ok(b) => Emit(b)
  }

  function JsonToBinItems(codec: FloatCodec): JsonRecord -> Step<seq<Byte>> {
    r => JsonToBinItem(codec, r)
  }

  /**
   * `json_to_bin` does not check the number of weights itself: a record whose timestamp
   * parses but whose weights are not nine ends the loop with struct.error.
   */
  lemma JsonToBinWeightCount(codec: FloatCodec, r: JsonRecord)
    requires ParseInt(r.timestamp).Some? && |r.weights| != WEIGHT_COUNT
    ensures JsonToBinItem(codec, r) == Fail(StructError)
  {
  }

  /** `json_to_bin`: the records written, in order, and the exception that ended the loop. */
  method ConvertJsonToBin(data: seq<JsonRecord>, codec: FloatCodec) returns (out: seq<Byte>, err: Option<ConvertError>)
    ensures err == Collect(data, JsonToBinItems(codec)).1
    ensures out == Concat(Collect(data, JsonToBinItems(codec)).0)
    ensures |out| == RECORD_SIZE * |Collect(data, JsonToBinItems(codec)).0|
  {
    var records;
    records, err := ForEach(data, JsonToBinItems(codec));
    out := Concat(records);
    ItemsFull(data, codec);
    ConcatLength(records, RECORD_SIZE);
  }

  /** Every record the loop emits is 52 bytes long. */
  lemma ItemsFull(data: seq<JsonRecord>, codec: FloatCodec)
    ensures forall k :: 0 <= k < |Collect(data, JsonToBinItems(codec)).0| ==> |Collect(data, JsonToBinItems(codec)).0[k]| == RECORD_SIZE
  {
    var records := Collect(data, JsonToBinItems(codec)).0;
    CollectFrom(data, JsonToBinItems(codec));
    var idx :| Ordered(data, JsonToBinItems(codec), records, idx);
    forall k | 0 <= k < |records|
      ensures |records[k]| == RECORD_SIZE
    {
      assert JsonToBinItems(codec)(data[idx[k]]) == Emit(records[k]);
    }
  }

  // ---- txt -> json -----------------------------------------------------------------

  /**
   * One line of `txt_to_json`: at least seven fields; the timestamp stays text with `_`
   * removed, the weights list is kept whatever its length, the state is the eighth field
   * or `t`.
   */
  function TxtToJsonLine(codec: FloatCodec, line: string): Step<JsonRecord> {
    TxtToJsonParts(codec, Split(Strip(line), '\t'))
  }

  function TxtToJsonParts(codec: FloatCodec, parts: seq<string>): (s: Step<JsonRecord>)
    ensures s.Skip? <==> |parts| < 7
    ensures s.Emit? ==> && s.item.timestamp == RemoveChar(parts[0], '_')
                        && ParseIntList(parts[1]) == Some(s.item.weights)
                        && s.item.direction == parts[2] && s.item.name == parts[3]
                        && s.item.state == (if |parts| > 7 then parts[7] else "t")
  {
    if |parts| < 7 then Skip
    else
      match ParseIntList(parts[1])
      case None => Fail(ValueError)
      case Some(weights) =>
        match ParseFloats(codec, parts[4], parts[5], parts[6])
        case None => Fail(ValueError)
        case Some(vs) =>
          Emit(JsonRecord(RemoveChar(parts[0], '_'), weights, parts[2], parts[3], vs.0, vs.1, vs.2,
                          if |parts| > 7 then parts[7] else "t"))
  }

  function TxtToJsonLines(codec: FloatCodec): string -> Step<JsonRecord> {
    line => TxtToJsonLine(codec, line)
  }

  /**
   * Fields that `txt_to_bin` skips for not holding nine weights are still converted by
   * `txt_to_json`, which never looks at the count.
   */
  lemma TxtToJsonKeepsWeightCount(codec: FloatCodec, parts: seq<string>)
    requires TxtToBinParts(codec, parts).Skip? && |parts| >= 7
    requires ParseFloats(codec, parts[4], parts[5], parts[6]).Some?
    ensures TxtToJsonParts(codec, parts).Emit?
    ensures |TxtToJsonParts(codec, parts).item.weights| != WEIGHT_COUNT
  {
    TxtToBinFields(codec, parts);
  }

  /** A record the text log can carry through a line: no tab or newline inside a field, no outer whitespace. */
  predicate LineSafe(codec: FloatCodec, r: JsonRecord) {
    && TextSafe(r.timestamp) && TextSafe(r.direction) && TextSafe(r.name) && TextSafe(r.state)
    && TextSafe(codec.show(r.value1)) && TextSafe(codec.show(r.value2)) && TextSafe(codec.show(r.value3))
    && r.timestamp != [] && !IsSpace(r.timestamp[0]) && '_' !in r.timestamp
    && r.state != [] && !IsSpace(r.state[|r.state| - 1])
  }

  predicate TextSafe(s: string) {
    '\t' !in s && '\n' !in s
  }

  /** The fields of a safe record's line come back from `strip().split('\t')`. */
  lemma JsonLineParts(codec: FloatCodec, r: JsonRecord)
    requires LineSafe(codec, r)
    ensures Split(Strip(JsonLine(codec, r)), '\t') == JsonFields(codec, r)
  {
    var fields := JsonFields(codec, r);
    ListReprSafe(r.weights);
    assert forall k :: 0 <= k < |fields| ==> '\t' !in fields[k];
    var j := Join(fields, '\t');
    JoinFirst(fields, '\t');
    JoinLast(fields, '\t');
    assert j[0] == r.timestamp[0];
    assert j[|j| - 1] == r.state[|r.state| - 1];
    StripLine(j);
    JoinSplit(fields, '\t');
  }

  /**
   * `json_to_txt` then `txt_to_json` gives the record back, when the record is safe for a
   * text line and `float(str(v)) == v` for its three values.
   */
  lemma JsonTxtJson(codec: FloatCodec, r: JsonRecord)
    requires LineSafe(codec, r)
    requires codec.parse(codec.show(r.value1)) == Some(r.value1)
    requires codec.parse(codec.show(r.value2)) == Some(r.value2)
    requires codec.parse(codec.show(r.value3)) == Some(r.value3)
    ensures TxtToJsonLine(codec, JsonLine(codec, r)) == Emit(r)
  {
    JsonLineParts(codec, r);
    var parts := JsonFields(codec, r);
    RemoveAbsent(r.timestamp, '_');
    ListReprParses(r.weights);
    assert TxtToJsonParts(codec, parts) == Emit(r);
  }

  // ---- the window ------------------------------------------------------------------

  /** The file the open dialog picked, as each reader sees it: text lines, bytes, and `json.load` (None when it raises). */
  datatype SourceFile = SourceFile(lines: seq<string>, bytes: seq<Byte>, json: Option<seq<JsonRecord>>)

  /**
   * What the two file dialogs of a converter return: the open dialog cancelled (the save
   * dialog is then never shown), the save dialog cancelled, or both paths picked.
   */
  datatype Picks = OpenCancelled | SaveCancelled | Picked(src: SourceFile)

  datatype Output = TextOut(lines: seq<string>) | BinOut(bytes: seq<Byte>) | JsonOut(records: seq<JsonRecord>)

  /**
   * How `convert_file` ends: a warning, a dialog cancelled (nothing opened, nothing
   * shown), a finished conversion and what it wrote, or the exception shown in the error
   * box and what was left in the output file (None when the output file was never opened).
   */
  datatype Outcome = Warning | Cancelled | Written(output: Output) | Failed(error: ConvertError, left: Option<Output>)

  /** The outcome of a loop: what it wrote, given whether the output is written as it goes. */
  function Finish(out: Output, err: Option<ConvertError>, incremental: bool): Outcome {
    match err
    case None => Written(out)
    case Some(e) => Failed(e, if incremental then Some(out) else None)
  }

  /** The outcome each converter reaches on a source file. */
  function Expected(c: Conversion, src: SourceFile, codec: FloatCodec): (o: Outcome)
    ensures o != Warning && o != Cancelled
    ensures o.Written? ==> (o.output.TextOut? <==> Target(c) == Txt) && (o.output.BinOut? <==> Target(c) == Bin)
    ensures o.Failed? ==> (o.left.None? <==> Target(c) == Json)
  {
    match c
    case TxtToBin =>
      var r := Collect(src.lines, TxtToBinLines(codec));
      Finish(BinOut(Concat(r.0)), r.1, true)
    case BinToJson =>
      var r := Collect(Chunks(src.bytes), ChunkToJsonSteps(codec));
      Finish(JsonOut(r.0), r.1, false)
    case JsonToTxt =>
      if src.json.None? then Failed(JsonDecodeError, Some(TextOut([])))
      else Written(TextOut(MapSeq(src.json.value, JsonLines(codec))))
    case BinToTxt =>
      var r := Collect(Chunks(src.bytes), ChunkToTxtSteps(codec));
      Finish(TextOut(r.0), r.1, true)
    case JsonToBin =>
      if src.json.None? then Failed(JsonDecodeError, Some(BinOut([])))
      else
        var r := Collect(src.json.value, JsonToBinItems(codec));
        Finish(BinOut(Concat(r.0)), r.1, true)
    case TxtToJson =>
      var r := Collect(src.lines, TxtToJsonLines(codec));
      Finish(JsonOut(r.0), r.1, false)
  }

  /**
   * `convert_file`: warns on equal formats, otherwise runs the chosen converter, which
   * returns quietly when either of its dialogs is cancelled; an exception from it is
   * caught and reported.
   */
  method ConvertFile(input: Format, output: Format, picks: Picks, codec: FloatCodec) returns (o: Outcome)
    ensures o == Warning <==> input == output
    ensures o == Cancelled <==> input != output && !picks.Picked?
    ensures input != output && picks.Picked? ==> o == Expected(Dispatch(input, output).conversion, picks.src, codec)
  {
    var action := Dispatch(input, output);
    if action == SameFormatWarning {
      return Warning;
    }
    if !picks.Picked? {
      return Cancelled;
    }
    var src := picks.src;
    match action.conversion {
      case TxtToBin =>
        var out, err := ConvertTxtToBin(src.lines, codec);
        o := Finish(BinOut(out), err, true);
      case BinToJson =>
        var records, err := ForEachChunk(src.bytes, ChunkToJsonSteps(codec));
        o := Finish(JsonOut(records), err, false);
      case JsonToTxt =>
        if src.json.None? {
          o := Failed(JsonDecodeError, Some(TextOut([])));
        } else {
          var lines := ConvertJsonToTxt(src.json.value, codec);
          o := Written(TextOut(lines));
        }
      case BinToTxt =>
        var lines, err := ConvertBinToTxt(src.bytes, codec);
        o := Finish(TextOut(lines), err, true);
      case JsonToBin =>
        if src.json.None? {
          o := Failed(JsonDecodeError, Some(BinOut([])));
        } else {
          var out, err := ConvertJsonToBin(src.json.value, codec);
          o := Finish(BinOut(out), err, true);
        }
      case TxtToJson =>
        var records, err := ForEach(src.lines, TxtToJsonLines(codec));
        o := Finish(JsonOut(records), err, false);
    }
  }
}
