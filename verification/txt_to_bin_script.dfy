/**
 * `log/utils/txt_to_bin.py`: converts a text log, one tab-separated record per line, into
 * the 52-byte binary records of `LogRecord`.
 */
module TxtToBinScript {
  import opened Wrappers
  import opened LittleEndian
  import opened PyText
  import opened LogRecord

  /** One line of the loop: stripped and split at tabs, then converted. */
  function LineStep(codec: FloatCodec, line: string): (s: Step<seq<Byte>>)
    ensures s.Emit? ==> |s.item| == RECORD_SIZE
  {
    var parts := Split(Strip(line), '\t');
    if |parts| != 7 then Skip else PackParts(codec, parts, STATE_T)
  }

  /**
   * Which lines are skipped: those without exactly seven fields, and those whose
   * timestamp and weights parse but do not hold nine weights.
   */
  lemma LineStepSkips(codec: FloatCodec, line: string)
    ensures var parts := Split(Strip(line), '\t');
      LineStep(codec, line).Skip? <==>
        |parts| != 7
        || (&& ParseInt(RemoveChar(parts[0], '_')).Some?
            && ParseIntList(parts[1]).Some?
            && |ParseIntList(parts[1]).value| != WEIGHT_COUNT)
  {
  }

  /**
   * A packed line has seven fields and reads back as its own timestamp and weights, its
   * direction and name fields, and the state byte `t`: the eighth-field branch of the
   * source is unreachable.
   */
  lemma LineStepFields(codec: FloatCodec, line: string)
    requires LineStep(codec, line).Emit?
    ensures var parts, b := Split(Strip(line), '\t'), LineStep(codec, line).item;
      && |parts| == 7
      && ParseInt(RemoveChar(parts[0], '_')) == Some(ReadU32(b[..4]))
      && ParseIntList(parts[1]) == Some(ReadI16s(b[4..22]))
      && b[22..23] == FixedField(Utf8Encode(parts[2]), 1)
      && b[23..39] == FixedField(Utf8Encode(parts[3]), NAME_WIDTH)
      && b[51] == 't' as int
  {
    var parts := Split(Strip(line), '\t');
    var s := PackParts(codec, parts, STATE_T);
    assert LineStep(codec, line) == s;
    var b := s.item;
    FixedFieldContents(STATE_T, 1);
    assert b[51] == b[51..52][0];
  }

  /** `b't'`. */
  const STATE_T: seq<Byte> := ['t' as int]

  function LineSteps(codec: FloatCodec): string -> Step<seq<Byte>> {
    line => LineStep(codec, line)
  }

  /**
   * `txt_to_bin`: the bytes written to the output file, one record after the other, and
   * the exception that ended the loop early, if any (what was written before it stays).
   */
  method TxtToBin(lines: seq<string>, codec: FloatCodec) returns (out: seq<Byte>, err: Option<ConvertError>)
    ensures err == Collect(lines, LineSteps(codec)).1
    ensures out == Concat(Collect(lines, LineSteps(codec)).0)
    ensures |out| == RECORD_SIZE * |Collect(lines, LineSteps(codec)).0|
    ensures Chunks(out) == Collect(lines, LineSteps(codec)).0
    ensures exists idx: seq<nat> :: Ordered(lines, LineSteps(codec), Chunks(out), idx)
  {
    var records;
    records, err := ForEach(lines, LineSteps(codec));
    out := Concat(records);
    RecordsFull(lines, codec);
    ConcatLength(records, RECORD_SIZE);
    ChunksConcat(records);
  }

  /** Every record the loop emits is 52 bytes long, and records keep the order of their lines. */
  lemma RecordsFull(lines: seq<string>, codec: FloatCodec)
    ensures forall k :: 0 <= k < |Collect(lines, LineSteps(codec)).0| ==> |Collect(lines, LineSteps(codec)).0[k]| == RECORD_SIZE
    ensures exists idx: seq<nat> :: Ordered(lines, LineSteps(codec), Collect(lines, LineSteps(codec)).0, idx)
  {
    var records := Collect(lines, LineSteps(codec)).0;
    CollectFrom(lines, LineSteps(codec));
    var idx :| Ordered(lines, LineSteps(codec), records, idx);
    forall k | 0 <= k < |records|
      ensures |records[k]| == RECORD_SIZE
    {
      assert LineSteps(codec)(lines[idx[k]]) == Emit(records[k]);
    }
  }
}
