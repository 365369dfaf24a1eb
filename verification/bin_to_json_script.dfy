/**
 * `log/utils/bin_to_json.py`: reads a binary log 52 bytes at a time and writes its
 * records as a JSON list.
 */
module BinToJsonScript {
  import opened Wrappers
  import opened LittleEndian
  import opened PyText
  import opened LogRecord
  import TxtToBinScript

  /**
   * `bin_to_json`, with `file` the contents of the binary log (None when it does not
   * exist): the records written to the JSON file (None when nothing is written) and the
   * exception that ended the read loop. The JSON file is written only after the whole log
   * was read, so an exception leaves it unwritten.
   */
  method BinToJson(file: Option<seq<Byte>>, codec: FloatCodec) returns (written: Option<seq<JsonRecord>>, err: Option<ConvertError>)
    ensures file.None? ==> written.None? && err.None?
    ensures file.Some? ==> err == Collect(Chunks(file.value), ChunkToJsonSteps(codec)).1
    ensures file.Some? && err.None? ==> written == Some(Collect(Chunks(file.value), ChunkToJsonSteps(codec)).0)
    ensures err.Some? ==> written.None?
  {
    if file.None? {
      return None, None;
    }
    var records;
    records, err := ForEachChunk(file.value, ChunkToJsonSteps(codec));
    if err.None? {
      written := Some(records);
    } else {
      written := None;
    }
  }

  /** Text fields the readers can decode: ASCII, and a NUL-free name. */
  predicate Decodable(direction: string, name: string) {
    IsAscii(direction) && |direction| == 1 && IsAscii(name) && '\0' !in name
  }

  /**
   * A record packed from the seven fields of a text line, read back by `bin_to_json`:
   * the timestamp text parses as the line's timestamp, the weights are the line's, the
   * direction is the line's, the name is its first 16 characters and the state is `t`.
   */
  lemma FieldsThenJson(codec: FloatCodec, parts: seq<string>, b: seq<Byte>)
    requires |parts| == 7 && |b| == RECORD_SIZE && Decodable(parts[2], parts[3])
    requires ParseInt(RemoveChar(parts[0], '_')) == Some(ReadU32(b[..4]))
    requires ParseIntList(parts[1]) == Some(ReadI16s(b[4..22]))
    requires b[22..23] == FixedField(Utf8Encode(parts[2]), 1)
    requires b[23..39] == FixedField(Utf8Encode(parts[3]), NAME_WIDTH)
    requires b[51] == 't' as int
    ensures ChunkToJson(codec, b).Emit?
    ensures var r := ChunkToJson(codec, b).item;
      && ParseInt(r.timestamp) == ParseInt(RemoveChar(parts[0], '_'))
      && ParseIntList(parts[1]) == Some(r.weights)
      && r.direction == parts[2] && r.name == Take(parts[3], NAME_WIDTH) && r.state == "t"
  {
    DecodeFields(b, parts[2], parts[3]);
    var d := Unpack(b).value;
    assert ChunkToJson(codec, b) == Emit(ToJson(codec, d));
  }

  /** The text fields of a packed record decode as the direction, the cut name and `t`. */
  lemma DecodeFields(b: seq<Byte>, direction: string, name: string)
    requires |b| == RECORD_SIZE && Decodable(direction, name)
    requires b[22..23] == FixedField(Utf8Encode(direction), 1)
    requires b[23..39] == FixedField(Utf8Encode(name), NAME_WIDTH)
    requires b[51] == 't' as int
    ensures Unpack(b) == Ok(Decoded(ReadU32(b[..4]), ReadI16s(b[4..22]), direction, Take(name, NAME_WIDTH),
                                    b[39..43], b[43..47], b[47..51], "t"))
  {
    TextFieldsRoundTrip(direction, name, "t");
    AsciiEncode("t");
    assert b[51..52] == FixedField(Utf8Encode("t"), 1);
    UnpackOk(b, direction, Take(name, NAME_WIDTH), "t");
  }

  /** When every chunk decodes, the JSON holds one record per full chunk, in order. */
  lemma AllChunksDecoded(data: seq<Byte>, codec: FloatCodec)
    requires forall k :: 0 <= k < |data| / RECORD_SIZE ==> Unpack(data[RECORD_SIZE * k..RECORD_SIZE * (k + 1)]).Ok?
    ensures Collect(Chunks(data), ChunkToJsonSteps(codec)).1 == None
    ensures |Collect(Chunks(data), ChunkToJsonSteps(codec)).0| == |data| / RECORD_SIZE
    ensures forall k :: 0 <= k < |data| / RECORD_SIZE ==>
      Collect(Chunks(data), ChunkToJsonSteps(codec)).0[k] == ToJson(codec, Unpack(data[RECORD_SIZE * k..RECORD_SIZE * (k + 1)]).value)
  {
    var cs := Chunks(data);
    forall k | 0 <= k < |cs|
      ensures ChunkToJsonSteps(codec)(cs[k]) == Emit(ToJson(codec, Unpack(cs[k]).value))
    {
    }
    CollectAll(cs, ChunkToJsonSteps(codec));
  }

  /**
   * Converting a text log to binary and the binary to JSON: when the direction and name
   * of every packed line decode, the JSON holds exactly the packed records, each read
   * back as the record of its line.
   */
  lemma TextThenJson(lines: seq<string>, codec: FloatCodec)
    requires forall i :: 0 <= i < |lines| && TxtToBinScript.LineStep(codec, lines[i]).Emit? ==>
      var parts := Split(Strip(lines[i]), '\t'); |parts| == 7 ==> Decodable(parts[2], parts[3])
    ensures var records := Collect(lines, TxtToBinScript.LineSteps(codec)).0;
      var json := Collect(Chunks(Concat(records)), ChunkToJsonSteps(codec));
      && json.1 == None && |json.0| == |records|
      && forall k :: 0 <= k < |records| ==> |records[k]| == RECORD_SIZE && ChunkToJson(codec, records[k]) == Emit(json.0[k])
  {
    var records := Collect(lines, TxtToBinScript.LineSteps(codec)).0;
    TxtToBinScript.RecordsFull(lines, codec);
    var idx :| Ordered(lines, TxtToBinScript.LineSteps(codec), records, idx);
    ChunksConcat(records);
    var cs := Chunks(Concat(records));
    forall k | 0 <= k < |cs|
      ensures ChunkToJsonSteps(codec)(cs[k]).Emit?
    {
      assert TxtToBinScript.LineStep(codec, lines[idx[k]]) == Emit(records[k]);
      TxtToBinScript.LineStepFields(codec, lines[idx[k]]);
      FieldsThenJson(codec, Split(Strip(lines[idx[k]]), '\t'), records[k]);
    }
    CollectAll(cs, ChunkToJsonSteps(codec));
  }
}
