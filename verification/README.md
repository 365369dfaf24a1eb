# NeuraLoad_Tool core, modelled in Dafny

NeuraLoad_Tool is a bench for load-position experiments. Four laser distance sensors
sit under a plate, and a 3×3 grid of known weights is put on it. Arduino boards stream
readings over serial ports. The Python tools synchronise, label and log these readings
and feed them to estimation algorithms. The C++ tools frame the serial lines and
append them to hourly log files.

This project models the sequential core of those tools and proves properties of the
model:

- **Binary record codecs.**
  - `datainfo.py` sensor records and frames: modules `DataInfo` and `LittleEndian`.
  - The 52-byte log record `<I9h1s16sfff1s` and its tools: modules `LogRecord`,
    `TxtToBinScript`, `BinToJsonScript`, `BinViewer` and `FileConverter`.
- **The approximate-time synchroniser** of `arduino_manager.py`: module `ArduinoManager`.
- **Serial line framing and the log sinks.**
  - `SerialComm.cpp`: module `SerialComm`, with `Disk` as the file system.
  - `read_arduino.cpp`: module `ReadArduino`.
- **Small state machines and aggregations.**
  - `analytics_data_organize.py`: module `AnalyticsDataOrganize`.
  - `Algorithm/RefValueGenerator*.py`: modules `RefValueGenerator` and `RefValueGeneratorCog`.
  - The load grids of `experiment.py` and `weight_table.py`: modules `Experiment`,
    `WeightTable` and the shared `WeightGrid`.
  - `algorithm_multiproc_v2.py` and `algorithm_multiproc.py`: modules
    `AlgorithmMultiProcV2` and `AlgorithmMultiProc`.
  - `dataCheckTool.cpp`: module `DataCheckTool`.

Shared modules model the pieces of the languages' libraries the core relies on:

- `Wrappers`: Option and Result.
- `PyText`: Python `str` operations and `int()`/`str()`.
- `PyList`: `sum`, and a list of n copies of one value.
- `LittleEndian`: `struct` integer fields and ASCII/UTF-8 bytes.
- `WallClock`: a caller-supplied broken-down time and the `strftime` fields the tools print.

Conventions:

- Files are byte sequences or sequences of lines, and a directory tree is a map from path to contents.
- Clocks, serial ports and the operator's input are parameters.
- An exception the source raises is an `Err`/`None` result or a `raised` flag. Any output
  already written when it is raised is kept.
- Objects whose fields the source updates in place are classes. Their operations are methods
  proved against specification functions.

## Model

| member | source | states |
|---|---|---|
| `DataInfo.LocationOf` | datainfo.py:7-16 | `get_sensor_location` succeeds exactly for 0..4, and the member returned has that value |
| `DataInfo.TypeTag` | datainfo.py:126-131 | the tag of a record's class is 0, 1 or 2 (SensorData, ExperimentData, AlgorithmData) |
| `DataInfo.TagSize` | datainfo.py:53-55 | a tag has a class (and so a record size) exactly when it is 0..2 |
| `DataInfo.PackFields` | datainfo.py:28-39 | `SensorData.pack` succeeds exactly when every field fits its struct slot, and then yields 27 bytes |
| `DataInfo.PackFieldsLayout` | datainfo.py:28-39 | where each field lies in the 27 bytes: `<I` seconds, the 16-byte NUL-padded port, the location byte, three `<H` |
| `DataInfo.PackExperiment` | datainfo.py:64-67 | a successful `ExperimentData.pack` is 46 bytes |
| `DataInfo.PackSensor` | datainfo.py:66-67 | a successful `pack` of any record has its class's `get_total_size()` |
| `DataInfo.PackPrefix` | datainfo.py:66-67 | each subclass's encoding starts with the encoding of its parent class (27 / 46 bytes) |
| `DataInfo.UnpackFields` | datainfo.py:41-51 | `SensorData.unpack` only succeeds on exactly 27 bytes |
| `DataInfo.UnpackFieldsOk` | datainfo.py:41-51 | on 27 bytes with a decodable port and a known location it returns the fields read from their offsets, port right-stripped of NULs |
| `DataInfo.BadLocationRejected` | datainfo.py:14-16 | a location byte above 4 makes `SensorData.unpack` fail |
| `DataInfo.UnpackSensor` | datainfo.py:69-85 | a decoded record has the class the tag names and the data had that class's size |
| `DataInfo.U16sRoundTrip` | datainfo.py:64-75 | nine `<H` weights read back as written |
| `DataInfo.RStripPadding` | datainfo.py:46 | stripping NULs from a name padded with NULs gives the name back when it does not end in NUL |
| `DataInfo.PaddedPortRoundTrip` | datainfo.py:34-46 | an ASCII port of at most 16 bytes that does not end in NUL is recovered from its padded field |
| `DataInfo.FieldsRoundTrip` | datainfo.py:30-51 | `SensorData.unpack(pack(s)) == s` for every encodable record |
| `DataInfo.ExperimentRoundTrip` | datainfo.py:66-85 | `ExperimentData.unpack(pack(s)) == s` with nine 16-bit weights |
| `DataInfo.AlgorithmRoundTrip` | datainfo.py:100-119 | `AlgorithmData.unpack(pack(s)) == s` when the prediction and the error also fit 16 bits |
| `DataInfo.SensorRoundTrip` | datainfo.py:30-119 | the three round trips, for any encodable record, decoding by its own tag |
| `DataInfo.Tagged` | datainfo.py:142-147 | a tagged record is its tag byte followed by its encoding, one byte longer than the record |
| `DataInfo.JoinPackedSnoc` | datainfo.py:141-147 | packing one more sensor appends its bytes, or fails with that sensor's error, or keeps an earlier failure |
| `DataInfo.JoinPackedPrefixErr` | datainfo.py:141-147 | a failure among the first sensors is the failure of the whole packing |
| `DataInfo.PackEach` | datainfo.py:141-147 | the loop of `SensorFrame.pack` computes the concatenation of the tagged records, stopping at the first that raises |
| `DataInfo.PackFrame` | datainfo.py:139-148 | `SensorFrame.pack` is the `<I` timestamp followed by the tagged records in order |
| `DataInfo.EncodeFrameOk` | datainfo.py:139-148 | a frame with a 32-bit timestamp and packable sensors encodes as `U32(timestamp)` followed by the records |
| `DataInfo.ReadSensor` | datainfo.py:162-176 | reading one tagged record needs a tag byte with a class and that class's full size; the sensor has the tag read |
| `DataInfo.ReadTaggedSensor` | datainfo.py:162-176 | one pass of the unpack loop reads what `ReadSensor` says, or fails with its error, and advances the file position by the bytes used |
| `DataInfo.DecodeSensors` | datainfo.py:160-176 | reading k tagged records yields k sensors and never grows the unread rest |
| `DataInfo.DecodeFrame` | datainfo.py:150-178 | `SensorFrame.unpack`: None exactly at end of file; a frame always has four sensors and consumes bytes |
| `DataInfo.UnpackFrame` | datainfo.py:150-178 | the unpack loop over a file position returns `DecodeFrame` of the unread bytes and leaves the position after the frame |
| `DataInfo.DecodeFrames` | datainfo.py:189-197 | every frame `load_frames` returns has exactly four sensors |
| `DataInfo.LoadFrames` | datainfo.py:189-197 | the `load_frames` loop returns `DecodeFrames` of the file: frames in file order, the first error aborting |
| `DataInfo.WriteEach` | datainfo.py:184-187 | the `save_frames` loop writes the frames in order until one raises; the file holds exactly the frames before it |
| `DataInfo.SaveFrames` | datainfo.py:184-187 | `save_frames` truncates the file and writes each frame's packing; on a failure, the frames before it stay written |
| `DataInfo.ReadTagged` | datainfo.py:162-176 | a tagged, encodable record is read back whole, whatever follows it |
| `DataInfo.DecodeEncodedSensors` | datainfo.py:141-176 | decoding the tagged records of encodable sensors gives the sensors back and stops right after them |
| `DataInfo.DecodeFrameOk` | datainfo.py:152-178 | after a 4-byte timestamp, four decodable records make a frame with that timestamp |
| `DataInfo.FrameRoundTrip` | datainfo.py:139-178 | `SensorFrame.unpack` reads back a packed frame of four encodable sensors and stops right after it |
| `DataInfo.SaveLoadRoundTrip` | datainfo.py:184-197 | `load_frames(save_frames(fs)) == fs` when every frame holds four encodable sensors |
| `DataInfo.OtherSizesDoNotRoundTrip` | datainfo.py:161 | a frame whose sensor count is not four never comes back from the file unchanged |
| `LittleEndian.BytesRoundTrip` | datainfo.py:28-43 | reading back `width` little-endian bytes gives the value, for every value that fits |
| `LittleEndian.U16RoundTrip` | datainfo.py:64-75 | an `<H` field reads back as written |
| `LittleEndian.I16RoundTrip` | log/utils/bin_to_json.py:22 | an `<h` field (two's complement) reads back as written |
| `LittleEndian.U32RoundTrip` | datainfo.py:140-158 | an `<I` field reads back as written |
| `LittleEndian.FixedField` | log/utils/txt_to_bin.py:19 | a `16s`-style field is exactly `w` bytes long |
| `LittleEndian.FixedFieldContents` | log/utils/txt_to_bin.py:19 | the field keeps the bytes that fit, in order, and is NUL after them |
| `LittleEndian.Utf8Char` | datainfo.py:34 | a character encodes to 1-4 bytes (RFC 3629, section 3), one byte exactly when it is below 0x80 |
| `LittleEndian.AsciiEncode` | datainfo.py:34 | ASCII text encodes to one byte per character, each its code |
| `LittleEndian.AsciiDecode` | datainfo.py:46 | decoding succeeds exactly on bytes below 0x80 and maps each to the character with that code |
| `LittleEndian.AsciiRoundTrip` | datainfo.py:34-46 | decoding undoes encoding on ASCII text |
| `LittleEndian.PaddedAsciiRoundTrip` | datainfo.py:34-46 | ASCII text padded into a `w`-byte field decodes to the text followed by NULs |
| `PyList.Filled` | experiment.py:21 | `[v] * n` has n entries, each `v` |
| `WallClock.MicrosOfDay` | arduino_manager.py:216-227 | the time of day in microseconds is below one day |
| `WallClock.Pad` | SerialComm.cpp:76-97 | a `%0wd` field is all digits and at least `w` long |
| `WallClock.PadValue` | SerialComm.cpp:76-97 | a value below 10^w pads to exactly `w` digits that read back as the value |
| `WallClock.LeadingZeros` | SerialComm.cpp:76-97 | leading zeros do not change a decimal value |
| `LogRecord.ReadI16sAt` | log/utils/bin_to_json.py:22 | weight i is the little-endian `h` at bytes 2i and 2i+1 |
| `LogRecord.I16sRoundTrip` | log/utils/bin_to_json.py:22 | nine `<h` weights read back as packed |
| `LogRecord.Pack` | log/utils/txt_to_bin.py:25-35 | `struct.pack('<I9h1s16sfff1s')` succeeds exactly when the values fit, and then gives 52 bytes |
| `LogRecord.PackLayout` | log/utils/txt_to_bin.py:25-35 | where each field sits in the 52 bytes |
| `LogRecord.BeforeNul` | log/utils/bin_to_json.py:24 | `split(b'\x00', 1)[0]` is the NUL-free prefix up to the first NUL |
| `LogRecord.BeforeNulField` | log/utils/bin_to_json.py:24 | a NUL-free name padded or cut to 16 bytes reads back as its first 16 bytes |
| `LogRecord.Unpack` | log/utils/bin_to_json.py:19-26 | a decoded chunk has nine weights, a 32-bit timestamp, one-character direction and state and a name of at most 16 characters |
| `LogRecord.UnpackOk` | log/utils/bin_to_json.py:19-26 | the fields decoded from their offsets, when the text fields decode |
| `LogRecord.TextFieldsRoundTrip` | log/utils/bin_to_json.py:23-26 | direction and state read back, and the name as its first 16 characters |
| `LogRecord.PackUnpack` | log/utils/bin_to_json.py:19-26 | unpacking a packed record recovers every field, the name cut to 16 characters |
| `LogRecord.Collect` | log/utils/txt_to_bin.py:6-37 | the records a convert loop emits: never more than its entries |
| `LogRecord.ForEach` | log/utils/txt_to_bin.py:6-37 | the `for` loop over entries computes `Collect`: entries converted in order, stopping at the first exception |
| `LogRecord.CollectMap` | log/tool/file_converter.py:176-188 | a loop whose steps are another's mapped by `f` emits that loop's items mapped by `f`, and fails alike |
| `LogRecord.CollectAll` | log/tool/file_converter.py:176-188 | with no skip and no failure the loop maps every entry, in order |
| `LogRecord.CollectFrom` | log/utils/txt_to_bin.py:6-37 | every emitted item comes from an entry, and items keep their entries' order |
| `LogRecord.ConcatLength` | log/utils/txt_to_bin.py:37 | records of 52 bytes written one after the other make 52 times as many bytes |
| `LogRecord.Chunks` | log/utils/bin_to_json.py:13-17 | `f.read(52)` until a short read yields floor(size/52) chunks, chunk k being bytes 52k..52k+52 |
| `LogRecord.ForEachChunk` | log/utils/bin_to_json.py:13-37 | the `while True` chunk loop computes `Collect` over `Chunks` |
| `LogRecord.CollectChunk` | log/utils/bin_to_json.py:13-37 | one turn of the chunk loop: skip, emit or stop with the exception |
| `LogRecord.PackValues` | log/utils/txt_to_bin.py:18-35 | the packing fails with struct.error exactly when the timestamp or the nine weights do not fit; on success every field reads back |
| `LogRecord.PackParts` | log/utils/txt_to_bin.py:11-35 | a line is skipped exactly when the timestamp and weights parse but there are not nine weights; a packed line reads back as its timestamp, weights, direction and name |
| `LogRecord.ParseFloats` | log/utils/txt_to_bin.py:20-22 | the three `float()` calls succeed together or raise |
| `LogRecord.ToJson` | log/utils/bin_to_json.py:19-37 | the JSON record's timestamp text parses as the timestamp, and its other fields are the decoded ones |
| `LogRecord.ChunksConcat` | log/utils/bin_to_json.py:13-17 | the chunks of 52-byte records written one after the other are those records |
| `LogRecord.ChunksIgnoreTail` | log/utils/bin_to_json.py:15-17 | bytes after the last full chunk are never read |
| `TxtToBinScript.LineStep` | log/utils/txt_to_bin.py:6-37 | a packed line is 52 bytes |
| `TxtToBinScript.LineStepSkips` | log/utils/txt_to_bin.py:7-16 | a line is skipped exactly when it does not have seven tab fields, or its weights parse to a list that is not nine long |
| `TxtToBinScript.LineStepFields` | log/utils/txt_to_bin.py:7-35 | a packed line has seven fields and reads back as its timestamp (`_` removed), weights, direction, name, and state `t` |
| `TxtToBinScript.TxtToBin` | log/utils/txt_to_bin.py:4-37 | the output is the packed records in line order, 52 bytes each, with the exception that ended the loop |
| `TxtToBinScript.RecordsFull` | log/utils/txt_to_bin.py:25-37 | every record is 52 bytes, in the order of its line |
| `BinToJsonScript.BinToJson` | log/utils/bin_to_json.py:5-40 | a missing file writes nothing; otherwise the JSON is written, after the whole file was read, only when no chunk raised |
| `BinToJsonScript.FieldsThenJson` | log/utils/bin_to_json.py:19-37 | a record packed from a seven-field line reads back as the line's timestamp, weights, direction, first 16 name characters and `t` |
| `BinToJsonScript.DecodeFields` | log/utils/bin_to_json.py:23-26 | the text fields of a packed record decode as the direction, the cut name and `t` |
| `BinToJsonScript.AllChunksDecoded` | log/utils/bin_to_json.py:13-37 | when every chunk decodes, the JSON holds one record per full chunk, in order |
| `BinToJsonScript.TextThenJson` | log/utils/bin_to_json.py:5-40 | text to binary to JSON: the JSON holds exactly the packed records, each read back as its line's record |
| `FileConverter.Dispatch` | log/tool/file_converter.py:47-65 | equal formats only warn; each pair of distinct formats runs the one converter between them, so the "not supported" branch is never taken |
| `FileConverter.DispatchExactlyOne` | log/tool/file_converter.py:52-63 | each converter runs for its own pair of formats and for no other |
| `FileConverter.TxtToBinFields` | log/tool/file_converter.py:79-105 | a line is skipped exactly when it has fewer than seven fields or its parsed weights are not nine; a packed record carries its line's timestamp, weights and name, and the eighth field (else `t`) as state |
| `FileConverter.TxtToBinAgainstScript` | log/tool/file_converter.py:79-92 | the window and the script agree on seven-field lines; a line with an eighth field, which the script skips, is packed here with that field as its state |
| `FileConverter.ConvertTxtToBin` | log/tool/file_converter.py:77-105 | the records written, in line order, and the exception that ended the loop |
| `FileConverter.RecordsFull` | log/tool/file_converter.py:94-105 | every record the window's `txt_to_bin` writes is 52 bytes |
| `FileConverter.ConvertJsonToTxt` | log/tool/file_converter.py:157-161 | one line per JSON record, in order; nothing in the loop raises |
| `FileConverter.ConvertBinToTxt` | log/tool/file_converter.py:174-188 | the lines written, in file order, and the exception that ended the loop |
| `FileConverter.BinToTxtIsJsonToTxt` | log/tool/file_converter.py:117-188 | `bin_to_txt` writes the lines `json_to_txt` writes for the records `bin_to_json` reads, and stops at the same exception |
| `FileConverter.ChunkLineIsJsonLine` | log/tool/file_converter.py:176-188 | the line `bin_to_txt` prints for a chunk is the `json_to_txt` line of the record `bin_to_json` decodes from it, and a chunk that fails fails in both |
| `FileConverter.JsonToBinItem` | log/tool/file_converter.py:202-223 | a packed item is 52 bytes and reads back as the item's timestamp and weights |
| `FileConverter.JsonToBinWeightCount` | log/tool/file_converter.py:203-222 | `json_to_bin` does not check the weight count: a record without nine weights ends the loop with struct.error |
| `FileConverter.ConvertJsonToBin` | log/tool/file_converter.py:200-223 | the records written, in order, 52 bytes each, and the exception that ended the loop |
| `FileConverter.ItemsFull` | log/tool/file_converter.py:212-223 | every record `json_to_bin` writes is 52 bytes |
| `FileConverter.TxtToJsonParts` | log/tool/file_converter.py:238-259 | a line is skipped exactly when it has fewer than seven fields; otherwise the timestamp stays text without `_`, the weights are kept whatever their count, the state is the eighth field or `t` |
| `FileConverter.TxtToJsonKeepsWeightCount` | log/tool/file_converter.py:239-242 | a line `txt_to_bin` skips for not holding nine weights is still converted by `txt_to_json` |
| `FileConverter.JsonLineParts` | log/tool/file_converter.py:160 | the fields of a safe record's line come back from `strip().split('\t')` |
| `FileConverter.JsonTxtJson` | log/tool/file_converter.py:238-259 | `json_to_txt` then `txt_to_json` gives the record back when its fields are line-safe and its values print and parse back |
| `FileConverter.Expected` | log/tool/file_converter.py:69-264 | the outcome of each converter once both paths are picked: never a warning or a cancel; a text, binary or JSON output as the target says; JSON output is lost on an exception, text and binary output keep what was written |
| `FileConverter.ConvertFile` | log/tool/file_converter.py:43-75 | `convert_file` warns exactly on equal formats; otherwise it ends quietly exactly when a file dialog is cancelled (the converters return at lines 71, 74, 111, 114, 151, 154, 167, 170, 194, 197, 229 and 232), and else reaches the chosen converter's outcome, an exception being caught and reported |
| `BinViewer.Row` | log/tool/bin_viewer.py:30 | a record row has eight values: timestamp, name, weights, direction, three values, state |
| `BinViewer.ReadBinFile` | log/tool/bin_viewer.py:9-32 | a missing file yields no rows; otherwise one eight-value row per full chunk until a short read, and the decoding error that ends the loop |
| `BinViewer.RowsFull` | log/tool/bin_viewer.py:30 | every row has eight values |
| `BinViewer.RowsMatchJson` | log/tool/bin_viewer.py:17-31 | the viewer and `bin_to_json` decode the same chunks and stop at the same error; the timestamp shown is the text `bin_to_json` writes |
| `BinViewer.Table.constructor` | log/tool/bin_viewer.py:48 | a new table has no rows, columns, headers or items |
| `BinViewer.Table.Clear` | log/tool/bin_viewer.py:70 | `clear()` removes every item and label and keeps the size |
| `BinViewer.Table.SetRowCount` | log/tool/bin_viewer.py:71 | rows from n on lose their items |
| `BinViewer.Table.SetColumnCount` | log/tool/bin_viewer.py:72 | columns from n on lose their items and labels |
| `BinViewer.Table.SetHeaderLabels` | log/tool/bin_viewer.py:73 | the labels name the existing columns |
| `BinViewer.Table.SetItem` | log/tool/bin_viewer.py:78 | an item inside the table is set; one outside is ignored |
| `BinViewer.Viewer.constructor` | log/tool/bin_viewer.py:35-49 | the viewer starts with an empty table |
| `BinViewer.Viewer.FillRow` | log/tool/bin_viewer.py:76-78 | the inner loop sets the eight cells of one row and keeps the rows before it |
| `BinViewer.Viewer.PopulateTable` | log/tool/bin_viewer.py:68-78 | afterwards the table has one row per record, eight columns, the eight headers, cell (r, c) showing value c of record r, and nothing else |
| `BinViewer.Viewer.OpenFileDialog` | log/tool/bin_viewer.py:51-66 | a cancelled dialog does nothing; no rows warn and leave the table; a decoding error propagates; otherwise the table is populated |
| `ArduinoManager.DigitsParse` | arduino_manager.py:87-89 | `int()` of a text that `isdigit()` accepts is its digit value |
| `ArduinoManager.AcceptLineSpec` | arduino_manager.py:72-91 | a line yields a reading exactly when it is non-empty after stripping, has three or more comma fields and a stripped first field of digits; the value is `int` of that field and the two sub-fields come stripped |
| `ArduinoManager.ParseClock` | arduino_manager.py:222-224 | a time of day `strptime` accepts is below one day |
| `ArduinoManager.ClockValue` | arduino_manager.py:223-224 | hours, minutes, seconds and the `%f` digits give a time below one day |
| `ArduinoManager.ReformatDigits` | arduino_manager.py:217-221 | a stamp of four `_` fields becomes `HH:MM:SS.mmm` field by field |
| `ArduinoManager.ParseClockDigits` | arduino_manager.py:223-224 | `strptime` accepts `H:M:S.f` with fields in range and reads the time of day from them |
| `ArduinoManager.ClockValueMillis` | arduino_manager.py:223-224 | three `%f` digits are milliseconds |
| `ArduinoManager.ClockStampReformats` | arduino_manager.py:217-221 | the stamp a reading carries is reformatted into `%H:%M:%S.%f` layout |
| `ArduinoManager.MillisParse` | arduino_manager.py:223-224 | two-digit hours, minutes, seconds and three-digit milliseconds parse to their time of day |
| `ArduinoManager.ClockStampParses` | arduino_manager.py:216-224 | a reading's stamp, reformatted and parsed, gives back its time of day to the millisecond |
| `ArduinoManager.MakeRecord` | arduino_manager.py:208-227 | a record keeps its stamp and port, and its time falls on the given day |
| `ArduinoManager.InsertByTime` | arduino_manager.py:230-231 | append-then-stable-sort adds exactly one record |
| `ArduinoManager.InsertShape` | arduino_manager.py:230-231 | the record is inserted at `InsertIndex`, the rest kept around it in order |
| `ArduinoManager.InsertIndexSplits` | arduino_manager.py:231 | records before the insertion point are not later than the new one, records after it are later |
| `ArduinoManager.InsertByTimeSpec` | arduino_manager.py:229-231 | insertion keeps a buffer sorted and puts the record after every record not later than it |
| `ArduinoManager.MinHead` | arduino_manager.py:248 | `min(times)` is at most every head time and is one of them |
| `ArduinoManager.MaxHead` | arduino_manager.py:249 | `max(times)` is at least every head time and is one of them |
| `ArduinoManager.Oldest` | arduino_manager.py:261 | `min(ports, key=head time)` picks an oldest head, the first such in port order |
| `ArduinoManager.PopEachSpec` | arduino_manager.py:253-254 | popping each port once takes the head of each listed port and leaves the rest |
| `ArduinoManager.TotalPop` | arduino_manager.py:262 | popping a non-empty buffer removes exactly one record |
| `ArduinoManager.TotalPopEach` | arduino_manager.py:253-254 | popping every port removes one record per port |
| `ArduinoManager.PopSorted` | arduino_manager.py:262 | popping keeps buffers sorted |
| `ArduinoManager.PopEachSorted` | arduino_manager.py:253-254 | popping every head keeps buffers sorted |
| `ArduinoManager.SyncKeepsBuffers` | arduino_manager.py:237-262 | `try_sync` keeps one sorted buffer per port |
| `ArduinoManager.SyncProgress` | arduino_manager.py:243-262 | nothing changes unless every buffer is non-empty; otherwise a group removes one record per port, a drop exactly one, so the total strictly falls |
| `ArduinoManager.HeadsPopped` | arduino_manager.py:246-254 | each buffer is its head followed by what popping leaves |
| `ArduinoManager.SyncedGroup` | arduino_manager.py:246-254 | a group holds each port's head, all within `slop` of each other, and each buffer loses exactly its head |
| `ArduinoManager.PopSpec` | arduino_manager.py:262 | popping takes off the head and leaves every other buffer alone |
| `ArduinoManager.SpreadPair` | arduino_manager.py:247-251 | a spread above `slop` means some pair of heads lies further apart than `slop` |
| `ArduinoManager.DroppedOldest` | arduino_manager.py:260-262 | when the heads spread further than `slop`, only the oldest head goes, from the first port holding one that old; every other buffer is unchanged |
| `ArduinoManager.GroupQueue.constructor` | arduino_manager.py:171 | a new algorithm queue is empty |
| `ArduinoManager.GroupQueue.Put` | arduino_manager.py:258 | `put` appends one group |
| `ArduinoManager.WithoutSpec` | arduino_manager.py:180-181 | removing from a duplicate-free list is set deletion and keeps the order of the rest |
| `ArduinoManager.SerialManager.constructor` | arduino_manager.py:158-171 | an empty buffer per port, no group and no registered queue |
| `ArduinoManager.SerialManager.AddBuffer` | arduino_manager.py:173-176 | a queue is registered unless it already is, so no duplicate is created |
| `ArduinoManager.SerialManager.RemoveBuffer` | arduino_manager.py:178-181 | a registered queue is removed, and afterwards the queues are the old ones except it |
| `ArduinoManager.SerialManager.GetCandidate` | arduino_manager.py:265-267 | the last group is returned exactly when it holds four ports |
| `ArduinoManager.SerialManager.TrySync` | arduino_manager.py:237-262 | buffers change as `Sync` says; a group becomes `candidate_window` and one copy of it goes into every registered queue; a drop changes neither |
| `ArduinoManager.SerialManager.DropOldest` | arduino_manager.py:260-262 | the port with the first oldest head loses its head |
| `ArduinoManager.SerialManager.EmitGroup` | arduino_manager.py:251-258 | the heads become the group and `candidate_window`, every buffer loses its head, and each queue gets the group |
| `ArduinoManager.SerialManager.PopHeads` | arduino_manager.py:253-254 | the loop pops each port's head |
| `ArduinoManager.SerialManager.DeliverGroup` | arduino_manager.py:257-258 | each registered queue receives one copy of the group |
| `ArduinoManager.SerialManager.Receive` | arduino_manager.py:206-232 | a record whose stamp does not parse is skipped and nothing changes; otherwise it is inserted in time order and `try_sync` runs |
| `SerialComm.Receive` | SerialComm.cpp:44-62 | the text the read loop keeps never holds NUL or newline, and the loop uses no more values than it is given |
| `SerialComm.ReceiveStep` | SerialComm.cpp:46-60 | -1 or a newline ends the loop (saving on the newline); a NUL is skipped; any other byte is appended |
| `SerialComm.FirstStop` | SerialComm.cpp:47-56 | the first value that ends the loop, with none before it |
| `SerialComm.ReceiveSpec` | SerialComm.cpp:40-64 | the result is the bytes before the first -1 or newline with NULs removed, in order; the loop reads up to and including that value and saves exactly when it was a newline |
| `SerialComm.PathSlices` | SerialComm.cpp:76-90 | where year, month, day and hour sit in a `YYYY-MM-DD/YYYYMMDD_HH.yaml` path |
| `SerialComm.SameLayoutSameFields` | SerialComm.cpp:76-90 | two such paths are equal only when their fields are |
| `SerialComm.SameFields` | SerialComm.cpp:77-82 | the printed year, month, day and hour determine their values |
| `SerialComm.PathDeterminesHour` | SerialComm.cpp:76-90 | instants with one log path fall in the same hour of the same day |
| `SerialComm.SamePathIffSameHour` | SerialComm.cpp:73-90 | two instants share a log path exactly when they fall in the same hour of the same day |
| `SerialComm.SerialComm.constructor` | SerialComm.cpp:12-13 | `fd` starts at -1 and `time` at 0 |
| `SerialComm.SerialComm.Destroy` | SerialComm.cpp:15-20 | the destructor closes the descriptor exactly when `fd >= 0` |
| `SerialComm.SerialComm.Setup` | SerialComm.cpp:22-36 | `fd` takes what `serialOpen` returns; the result is false when the device cannot be opened or wiringPi fails |
| `SerialComm.SerialComm.SaveToFile` | SerialComm.cpp:70-107 | a missing day folder whose creation throws `filesystem_error`, or a file that cannot be opened, writes nothing; otherwise exactly one record line is appended to the hour file of the day folder |
| `SerialComm.SerialComm.ReadUntilStop` | SerialComm.cpp:44-62 | the loop computes `Receive` and consumes the values it used |
| `SerialComm.SerialComm.ReceiveLine` | SerialComm.cpp:40-64 | `saveToFile` runs, with port number 1 and `Receive`'s text, exactly when a newline was read; the text is returned unless the folder creation threw, which propagates instead; the directories and files afterwards are those of the save, or unchanged without one |
| `Disk.Disk.constructor` | SerialComm.cpp:85-103 | a file system of directories, files and unwritable paths |
| `Disk.Disk.CreateDirectory` | SerialComm.cpp:86 | creating a missing directory throws exactly when its path is unwritable, and otherwise adds it |
| `Disk.Disk.Append` | SerialComm.cpp:99-106 | opening for append adds the text to the end of the file unless the path is unwritable |
| `ReadArduino.FirstNewline` | read_arduino.cpp:98-100 | the position of the first newline, none exactly when there is none |
| `ReadArduino.LineReader.constructor` | read_arduino.cpp:96 | the static buffer starts empty and nothing has been read |
| `ReadArduino.LineReader.Arrive` | read_arduino.cpp:98 | bytes arriving at the device wait there and touch nothing else |
| `ReadArduino.LineReader.ReadLine` | read_arduino.cpp:95-107 | at a newline the buffer plus the bytes through it are returned and the buffer empties; without one "" is returned and the bytes stay buffered; the returned lines followed by the buffer are always every byte read, NULs included |
| `ReadArduino.ReadBytes` | read_arduino.cpp:98-105 | the loop reads through the first newline, or everything when there is none |
| `ReadArduino.FlattenSnoc` | read_arduino.cpp:99-103 | joining one more line appends its bytes |
| `ReadArduino.LineComplete` | read_arduino.cpp:99-103 | a newline-free buffer plus the bytes through the first newline is one complete line |
| `ReadArduino.RecordEndsWithBlankLine` | read_arduino.cpp:145-150 | a record is `<ts>, <line>` and ends in two newlines, so an empty line follows each record |
| `ReadArduino.ExitCode` | read_arduino.cpp:119-157 | `main` returns, always with -1, exactly when it does not reach the logging loop |
| `ReadArduino.Start` | read_arduino.cpp:121-142 | no port, an unconfigurable port or an unopenable file each stop `main`; otherwise it logs on the configured port |
| `ReadArduino.LogStep` | read_arduino.cpp:144-151 | a non-empty line is a complete line and is appended with its timestamp; an empty read writes nothing |
| `SerialComm.TimestampMillis` | SerialComm.cpp:92-97 | the record's time is the date and time to the second, a `.`, then digits that read back as the milliseconds; they are not zero-padded, so three digits appear only from 100 ms on |
| `WallClock.ClockTextFields` | read_arduino.cpp:110-117 | `%Y-%m-%d %H:%M:%S` reads back: after the year come `-`, two digits for the month, `-`, two for the day, a space, then two digits each for hour, minute and second separated by `:` |
| `WallClock.IsoDateFields` | SerialComm.cpp:76-78 | the day folder `%Y-%m-%d` reads back as its year, month and day |
| `WallClock.IsoTimeFields` | SerialComm.cpp:92-94 | `%H:%M:%S` is eight characters that read back as the hour, minute and second |
| `WallClock.NatToStringAtLeast` | SerialComm.cpp:96 | a value of at least 10^w prints with more than w digits |
| `AnalyticsDataOrganize.KeepMeaning` | analytics_data_organize.py:54 | a reading is kept exactly when the frame's weights sum to 0 or every selected position is loaded; the filter raises IndexError exactly when it meets a position outside the weights before it meets an unloaded one |
| `AnalyticsDataOrganize.AllLoadedMeaning` | analytics_data_organize.py:54 | `all(...)` is true exactly when every selected position is loaded, and it raises exactly when an out-of-range position comes before the first unloaded one |
| `AnalyticsDataOrganize.IntToStringNoUnderscore` | analytics_data_organize.py:65 | `str(count)` holds no `_` |
| `AnalyticsDataOrganize.KeyInjective` | analytics_data_organize.py:65 | two queue names are equal only for the same location and the same file count |
| `AnalyticsDataOrganize.SuffixNotLonger` | analytics_data_organize.py:65 | the `_` before the count cannot fall inside a count that holds none |
| `AnalyticsDataOrganize.PutAllQueues` | analytics_data_organize.py:60-70 | each queue keeps what it held, followed by the pairs for it in arrival order; a queue exists exactly when it existed or a pair was put into it |
| `AnalyticsDataOrganize.PutAllAppend` | analytics_data_organize.py:67-70 | putting two runs of entries is putting the first, then the second |
| `AnalyticsDataOrganize.Entries` | analytics_data_organize.py:44-58 | a kept frame queues one entry per sensor, in order, under the sensor's location and the file count, holding the total weight and the distance |
| `AnalyticsDataOrganize.FramesEntriesKeys` | analytics_data_organize.py:42-65 | every queue name a file produces ends in that file's count |
| `AnalyticsDataOrganize.Group` | analytics_data_organize.py:75-78 | every weight in the grouped map has at least one distance, the weight of the last pair is present, and an empty queue gives no entry |
| `AnalyticsDataOrganize.GroupValues` | analytics_data_organize.py:73-78 | per weight, `data[loc]` lists exactly the distances recorded with that weight, in queue order, and has an entry exactly for the weights the queue holds |
| `AnalyticsDataOrganize.GroupSnoc` | analytics_data_organize.py:77-78 | draining one more pair appends its distance to its weight's list, creating the list when missing |
| `AnalyticsDataOrganize.FirstIndex` | analytics_data_organize.py:83-84 | the position of the first occurrence of a value in the list |
| `AnalyticsDataOrganize.Leader` | analytics_data_organize.py:83-84 | the value the counter's scan keeps is a value of the list |
| `AnalyticsDataOrganize.MostCommon` | analytics_data_organize.py:84 | `most_common(1)[0][0]` is a value of the list |
| `AnalyticsDataOrganize.LeaderIsMode` | analytics_data_organize.py:83-84 | the scan, started from a running leader, ends with a mode |
| `AnalyticsDataOrganize.MostCommonIsMode` | analytics_data_organize.py:82-85 | the recorded distance has maximal frequency among those recorded with its weight, the earliest-appearing one on ties, and it is the only such distance |
| `AnalyticsDataOrganize.FileResultKeys` | analytics_data_organize.py:72-85 | every queue a file's result names ends in that file's count |
| `AnalyticsDataOrganize.FilesDoNotMix` | analytics_data_organize.py:32-40 | one file's queues never mix with another's: every mode the n-th file produces reaches the final `total_common` unchanged |
| `AnalyticsDataOrganize.Organizer.constructor` | analytics_data_organize.py:14-29 | a single position becomes a one-element list; after `open_file`, an IndexError is raised exactly when `Organize` fails, and otherwise `total_common` is `Organize`'s result |
| `AnalyticsDataOrganize.Organizer.OpenFile` | analytics_data_organize.py:32-40 | from an empty `total_common`, the loop raises exactly when `Organize` fails and otherwise leaves `Organize`'s result |
| `AnalyticsDataOrganize.Organizer.DataSelect` | analytics_data_organize.py:42-58 | the buffer grows by the entries the filter keeps, in frame and sensor order, unless the filter raises |
| `AnalyticsDataOrganize.Organizer.SelectFrame` | analytics_data_organize.py:44-58 | one frame's sensors are queued in order unless the filter raises |
| `AnalyticsDataOrganize.Organizer.GroupByPort` | analytics_data_organize.py:60-70 | the pair joins the back of the queue named after the location and the file count |
| `AnalyticsDataOrganize.Organizer.FindMode` | analytics_data_organize.py:72-85 | every queue ends empty and `total_common` gains the modes of every non-empty queue |
| `AnalyticsDataOrganize.Organizer.RecordModes` | analytics_data_organize.py:80-85 | `total_common[loc]` is set to the modes of every grouped queue |
| `AnalyticsDataOrganize.Organizer.DrainAll` | analytics_data_organize.py:75-78 | every queue is drained into its per-weight lists and ends empty |
| `AnalyticsDataOrganize.Organizer.Drain` | analytics_data_organize.py:76-78 | popping a queue until it is empty groups its pairs as `Group` says and leaves the queue empty |
| `AnalyticsDataOrganize.ModesOfGroup` | analytics_data_organize.py:82-85 | the dictionary stored as `total_common[loc]` maps each weight to the mode of its distances |
| `AnalyticsDataOrganize.OrganizeStopsAt` | analytics_data_organize.py:34-38 | a file whose selection raises ends the whole run with that error |
| `RefValueGenerator.Generator.constructor` | Algorithm/RefValueGenerator.py:7-8 | the reference value starts as nine zeros |
| `RefValueGenerator.Generator.CalRefValue` | Algorithm/RefValueGenerator.py:10-11 | the base `calRefValue` leaves the reference value as it was |
| `RefValueGenerator.Generator.GetRefValue` | Algorithm/RefValueGenerator.py:13-14 | returns the stored value and changes nothing |
| `RefValueGeneratorCog.Deltas` | Algorithm/RefValueGenerator_COG.py:20 | `zip` stops at the shorter list, and each entry is the baseline distance minus the current one |
| `RefValueGeneratorCog.DeltasOfBaseline` | Algorithm/RefValueGenerator_COG.py:20 | a reading equal to the baseline gives all zeros |
| `RefValueGeneratorCog.RunBaseline` | Algorithm/RefValueGenerator_COG.py:10-21 | over any run of readings the baseline is the first complete one and never changes once set; every call until then returns zeros of the reading's length, and every later call returns the baseline minus the reading |
| `RefValueGeneratorCog.FirstCompleteKept` | Algorithm/RefValueGenerator_COG.py:12-14 | once some first readings hold a complete one, no later reading changes the baseline |
| `RefValueGeneratorCog.CogGenerator.constructor` | Algorithm/RefValueGenerator_COG.py:6-8 | the reference value starts as nine zeros and no baseline exists |
| `RefValueGeneratorCog.CogGenerator.ComputeDeltas` | Algorithm/RefValueGenerator_COG.py:10-21 | the baseline and the returned list follow `Step`, and the reference value is untouched |
| `RefValueGeneratorCog.Corners` | Algorithm/RefValueGenerator_COG.py:25-30 | four values are read: top-left, bottom-left, top-right, bottom-right |
| `RefValueGeneratorCog.CogGenerator.CalRefValue` | Algorithm/RefValueGenerator_COG.py:23-36 | the deltas of the four corners are stored as the reference value and returned |
| `RefValueGeneratorCog.CogGenerator.GetRefValue` | Algorithm/RefValueGenerator.py:13-14 | the inherited getter returns the stored value and changes nothing |
| `PyText.StripNoSpace` | weight_table.py:51 | a text with no whitespace at either end is its own `strip()` |
| `PyText.Split` | log/utils/txt_to_bin.py:7 | `split(sep)` always yields at least one part |
| `PyText.SplitJoin` | log/utils/txt_to_bin.py:7 | joining the parts of a split with its separator gives the text back |
| `PyText.SplitPartsSepFree` | log/utils/txt_to_bin.py:7 | no part of a split holds the separator |
| `PyText.JoinSplit` | log/utils/txt_to_bin.py:7 | splitting a join of separator-free parts gives the parts back |
| `PyText.IntToStringParses` | weight_table.py:56 | `int(str(n)) == n` for every integer |
| `PyText.IntToStringStripped` | weight_table.py:51-56 | `str(n)` has no surrounding whitespace, and its sign and digits read back as `n` |
| `PyText.IntToStringChars` | log/utils/txt_to_bin.py:14 | `str(n)` holds no comma and does not start with whitespace |
| `PyText.SpacePrefixParses` | log/utils/txt_to_bin.py:14 | `int` ignores a leading space |
| `PyText.StripLine` | log/utils/txt_to_bin.py:7 | `strip()` of a line read from a file drops its newline and nothing else when it has no other outer whitespace |
| `PyText.ParseBracketed` | log/utils/txt_to_bin.py:14 | `literal_eval` of a bracketed text is the empty list when only whitespace is inside, otherwise the list of its comma-separated items with a blank last item after a trailing comma dropped |
| `PyText.ParseLiteralInt` | log/utils/txt_to_bin.py:14 | an item `literal_eval` reads as an integer is read the same way by `int`, and every item `int` reads without a superfluous leading 0 is read too |
| `PyText.LeadingZeroRejected` | log/utils/txt_to_bin.py:14 | a single item with a superfluous leading 0, such as `[01]`, makes `literal_eval` fail |
| `PyText.TrailingCommaAllowed` | log/utils/txt_to_bin.py:14 | one trailing comma after a non-blank last item changes nothing: `[1, 2,]` reads as `[1, 2]` |
| `PyText.IntToStringLiteral` | log/utils/txt_to_bin.py:14 | `str(n)` is a Python integer literal denoting `n` |
| `PyText.IntToStringNoLeadingZeros` | log/utils/txt_to_bin.py:14 | the digits of `str(n)` never start with a 0 that other digits follow |
| `PyText.SpacedItemLiteral` | log/utils/txt_to_bin.py:14 | an item of `str(list)` after the first, a space and `str(n)`, is a literal denoting `n` |
| `PyText.ListInner` | log/utils/txt_to_bin.py:14 | the text between the brackets of `str(list)` splits back into its items |
| `PyText.ListReprParses` | log/utils/txt_to_bin.py:14 | `ast.literal_eval(str(xs)) == xs` for every list of integers |
| `PyText.ListReprChars` | log/utils/txt_to_bin.py:14 | `str(list)` holds only brackets, commas, spaces, minus signs and digits |
| `PyText.ListReprSafe` | log/utils/txt_to_bin.py:7 | `str(list)` of integers holds no tab and no newline, so it survives the tab split of a log line |
| `PyText.RemoveAbsent` | datainfo.py:46 | removing a character the text does not hold changes nothing |
| `PyText.LStrip` | arduino_manager.py:223-224 | `lstrip()` removes a whitespace-only prefix and leaves a text that is empty or starts with non-whitespace |
| `PyText.RStrip` | weight_table.py:51 | `rstrip()` removes a whitespace-only suffix and leaves a text that is empty or ends with non-whitespace |
| `PyText.Strip` | weight_table.py:51 | `strip()` leaves a text that is empty or has non-whitespace at both ends |
| `PyText.RemoveChar` | log/utils/txt_to_bin.py:11 | `replace(c, '')` leaves no `c` and never lengthens the text |
| `PyText.RStripChar` | datainfo.py:46 | `rstrip('\x00')` removes a suffix made only of that character and leaves a text that does not end in it |
| `SerialComm.DropNul` | SerialComm.cpp:58-60 | dropping NULs never lengthens the bytes |
| `WeightGrid.GridCells` | weight_table.py:24-25 | the layout visits exactly the nine cells of the 3×3 table |
| `WeightGrid.IndexInjective` | weight_table.py:52 | `row * 3 + col` maps every cell to one of the nine entries, and no two cells to the same one |
| `WeightGrid.IndexOnto` | weight_table.py:52 | every entry i is shown, in cell (i / 3, i % 3) |
| `WeightGrid.Rendered` | weight_table.py:24-29 | the rendered table has a text exactly for the cells of the grid |
| `WeightGrid.LaidShape` | weight_table.py:24-29 | after k items the table has the cells it had plus the first k grid cells, each showing its entry |
| `WeightGrid.LaidStep` | weight_table.py:26-29 | placing the item of cell (row, col) is step 3·row + col of the layout |
| `WeightGrid.LaidAll` | weight_table.py:24-29 | once the nine items are placed, the table shows `str` of each weight in its cell |
| `WeightGrid.LayOut` | weight_table.py:24-29 | the nested loops produce the layout `Laid` describes, and `count` ends at 9 |
| `WeightGrid.ReadsBackUpdate` | weight_table.py:54-60 | writing into one cell a text that reads as the value stored for it keeps every cell reading back |
| `WeightGrid.ReadsBackAt` | weight_table.py:75-76 | a table in step with the weights reads each cell as its entry |
| `WeightGrid.RenderedSynced` | weight_table.py:24-29 | a freshly rendered table reads back, with `int`, as its weights |
| `WeightGrid.ParseIntStrip` | weight_table.py:51-56 | stripping before `int` reads the same number, as `int` strips by itself |
| `WeightGrid.EditCellAccepted` | weight_table.py:45-57 | typing a text `int` reads stores it as the cell's entry and changes nothing else |
| `WeightGrid.EditCellRejected` | weight_table.py:58-60 | typing a text `int` rejects puts the cell back to its entry's text and keeps the weights |
| `WeightGrid.EditCellSynced` | weight_table.py:45-64 | whatever is typed into a cell, the table afterwards still reads back as the weights |
| `WeightGrid.ReadBackStays` | weight_table.py:54-57 | a cell whose text reads as its entry changes neither the weights nor the texts |
| `WeightGrid.RerenderIsNoOp` | weight_table.py:58-60 | the `cellChanged` that `setText(str(prev_value))` raises again changes nothing |
| `WeightGrid.Adjust` | experiment.py:473-483 | a cell whose text `int` reads yields nine weights and the same cells; None where it raises |
| `WeightGrid.AdjustAll` | experiment.py:469-505 | skipping unreadable cells keeps nine weights and the same cells |
| `WeightGrid.Adjusted` | experiment.py:469-505 | `f` applied to the entries at the chosen indices, the others unchanged |
| `WeightGrid.IndicesSnoc` | experiment.py:470-479 | each of distinct selected cells names an entry not named before |
| `WeightGrid.AdjustAllSynced` | experiment.py:469-505 | on a table that shows its weights, the buttons apply `f` once to every selected entry, leave the others alone, and the table still shows the weights |
| `WeightGrid.AdjustSynced` | experiment.py:473-481 | on a table that shows its weights, one button step reads a cell's entry from its text, then stores and shows `f` of it |
| `WeightGrid.AdjustStep` | experiment.py:472-481 | one more distinct selected cell extends the adjusted entries by its own |
| `WeightTable.RaiseMeaning` | weight_table.py:83-87 | a first `+` on an unset entry gives 20, the same as `+` on an entry of 0 |
| `WeightTable.LowerMeaning` | weight_table.py:89-93 | `-` never takes an entry below 0, and it lowers by exactly 20 from 20 upwards |
| `WeightTable.UpdateAll` | weight_table.py:71-94 | the loop keeps nine weights and the same cells |
| `WeightTable.UpdateAllStops` | weight_table.py:74-76 | once `int` raises ValueError, the cells selected after it are not visited |
| `WeightTable.UpdateAllSynced` | weight_table.py:71-94 | on a table that shows its weights nothing is raised, and the result is that of the skipping loop `AdjustAll` |
| `WeightTable.UpdateCells` | weight_table.py:74-94 | the loop computes `UpdateAll`, stopping at the first unreadable cell |
| `WeightTable.WeightTable.constructor` | weight_table.py:5-29 | nine entries of -1, each shown in its cell, and `count` at 9 |
| `WeightTable.WeightTable.OnCellChanged` | weight_table.py:45-69 | the weights and the table change as `CellChanged` says; `count` is untouched |
| `WeightTable.WeightTable.EditCell` | weight_table.py:45-64 | a number typed into a cell is stored at entry 3·row + col; other text is put back to the entry; the table still shows the weights |
| `WeightTable.WeightTable.WeightUpdate` | weight_table.py:71-94 | the weights and the table change as `UpdateAll` says; on a table that shows the weights nothing is raised, each selected entry is stepped once by `Raise` or `Lower`, and the others stay |
| `Experiment.TrackTotal` | experiment.py:382-391 | after the calls, `weight_total` is the last grid total seen, or 0 before any call |
| `Experiment.TrackSteady` | experiment.py:383-390 | while no call has seen the total change, the direction stays `-` |
| `Experiment.TrackLatest` | experiment.py:383-390 | the direction is that of the latest call whose total changed: `U` for a rise, `D` for a fall |
| `Experiment.RespondMeaning` | experiment.py:400-416 | a reading gives a log line exactly when there are at least two points and the last has four items whose value items `float` reads, and the line is that point's; fewer than two points, or a last point of fewer than two items, is skipped without raising |
| `Experiment.LogLineReadsBack` | experiment.py:414 | a log line ends in a newline, splits on tabs into its eight fields, and its grid field is a list literal of the grid, provided the free-text fields hold no tab |
| `Experiment.MinusMeaning` | experiment.py:497-501 | `weightM` zeroes only shown values below 4, so a value from 4 to 19 goes negative, exactly 20 becomes 0, and only 0 is left as it is |
| `Experiment.Experiment.constructor` | experiment.py:14-34 | nine zeros shown in the table, total 0, direction `-`, not paused, the raw-data log open with nothing written to it by this window, and the zero grid broadcast once per laid-out cell before anyone subscribes |
| `Experiment.Experiment.OnCellChanged` | experiment.py:446-467 | the grid and table change as `CellChanged` says, and the grid is broadcast exactly once for any cell of the grid: straight after a number is stored, or by the nested activation that the put-back text raises |
| `Experiment.Experiment.EditCell` | experiment.py:446-464 | typing the text a cell already shows changes nothing; a new number is stored at entry 3·row + col and broadcast once; other text is put back to the entry and the unchanged grid broadcast once; the table still shows the grid |
| `Experiment.Experiment.WeightP` | experiment.py:469-483 | every selected entry goes up by 20, the others stay, the table still shows the grid, and the grid is broadcast once per selected cell, the k-th time with the first k + 1 selected entries raised |
| `Experiment.Experiment.WeightM` | experiment.py:485-505 | every selected entry below 4 becomes 0 and every other selected entry goes down by 20; the others stay, the table still shows the grid, and the grid is broadcast once for each selected cell whose text changes, as `Changes` lists |
| `Experiment.Experiment.WeightZ` | experiment.py:507-515 | the grid is back to nine zeros, laid out afresh in the table, and the zero grid is broadcast nine times, once per `setItem` |
| `Experiment.Experiment.Revert` | experiment.py:459-461 | a rejected text is replaced by the entry's number, and the `cellChanged` that raises stores the entry unchanged and broadcasts the grid once |
| `Experiment.Experiment.MarkOutside` | experiment.py:462-464 | a cell outside the weights is set to -1, and the nested activation changes nothing more and broadcasts nothing |
| `Experiment.Experiment.ShowEntry` | experiment.py:479-481 | the cell shows its entry, and the grid is broadcast exactly when that text differs from the one it showed |
| `Experiment.Experiment.AdjustCell` | experiment.py:473-483 | one selected cell changes as `Adjust` says, skipped when `int` rejects its text, with one broadcast exactly when its text changes |
| `Experiment.Experiment.Buttons` | experiment.py:471-483 | the loop over the selected cells computes `AdjustAll`, and the broadcasts are those `Echoes` lists |
| `Experiment.Experiment.SetItem` | experiment.py:153-157 | a new item showing the entry of its cell leaves the weights as they were and broadcasts the grid once |
| `Experiment.Experiment.LayEntry` | experiment.py:152-157 | one pass of the layout loop: the next cell of the layout shows its entry, `count` moves on, and the grid is broadcast once |
| `Experiment.Experiment.LayOutGrid` | experiment.py:152-157 | the nested loops lay out the table as `Laid` describes, `count` ends at 9, and the grid is broadcast nine times |
| `Experiment.EchoesSynced` | experiment.py:469-505 | on a table that shows the grid, with distinct selected cells, the buttons broadcast after exactly the cells whose text `f` changes, each time the grid with the cells so far adjusted |
| `Experiment.ChangedEntryChangesText` | experiment.py:481 | a cell showing its entry gets a different text whenever the button changes the entry |
| `Experiment.PlusBroadcastsEach` | experiment.py:469-483 | `+` broadcasts once per selected cell, the k-th time with the first k + 1 selected entries raised |
| `Experiment.PlusChangesCount` | experiment.py:469-483 | under `+`, one broadcast per selected cell |
| `Experiment.PlusChangesAt` | experiment.py:469-483 | under `+`, the k-th broadcast carries the first k + 1 selected entries raised |
| `Experiment.PlusChangesLast` | experiment.py:479-481 | the last selected cell always adds a broadcast under `+` |
| `Experiment.Experiment.HandleSerialData` | experiment.py:377-417 | a port without a column changes nothing; otherwise the total and direction move on first, whatever the reading, and the reading is answered as `Respond` says; a log line is appended while the log is open |
| `Experiment.Experiment.Close` | experiment.py:687-693 | the raw-data log is closed, and the grid, table and log are kept |
| `AlgorithmMultiProcV2.SplitFirst` | algorithm_multiproc_v2.py:227 | the first part of a split starts with a separator-free prefix and is otherwise unaffected by it |
| `AlgorithmMultiProcV2.StripPadded` | algorithm_multiproc_v2.py:227 | a stripped, non-empty name padded by the combo text's spaces strips back to itself |
| `AlgorithmMultiProcV2.StripSpaceSuffix` | algorithm_multiproc_v2.py:227 | a stripped, non-empty name followed by one space strips back to itself |
| `AlgorithmMultiProcV2.ScenarioNameRecovers` | algorithm_multiproc_v2.py:218-227 | the scenario name read back from a combo text is the scenario's name, for a key and a name without `:` and a stripped name without `(` |
| `AlgorithmMultiProcV2.FileNameParts` | algorithm_multiproc_v2.py:274-278 | a generated name is `_`, the parts joined by `_`, then `.bin`; with no `_` in the label, scenario and date, splitting the middle gives the parts back, and the label part is present exactly when the label is not empty |
| `AlgorithmMultiProcV2.DateStamp` | algorithm_multiproc_v2.py:234 | the `%Y%m%d` stamp is all digits, holds no `_`, and ends in the month and the day as two digits each |
| `AlgorithmMultiProcV2.RegisteredMeaning` | algorithm_multiproc_v2.py:303-307 | after registration the handlers are the old ones plus one per checked algorithm; a checked algorithm's handler is a fresh one writing to its name followed by the file name, replacing any earlier one; the others are untouched |
| `AlgorithmMultiProcV2.Each` | algorithm_multiproc_v2.py:329-337 | a loop over the handlers keeps the same names |
| `AlgorithmMultiProcV2.StartIdleMeaning` | algorithm_multiproc_v2.py:329-331 | `startExperiment` starts exactly the idle handlers, with the metadata; a running handler is left as it is; afterwards every handler runs |
| `AlgorithmMultiProcV2.MeasureOnMeaning` | algorithm_multiproc_v2.py:252-254 | marking the measurement started changes nothing else in any handler |
| `AlgorithmMultiProcV2.StartedMeaning` | algorithm_multiproc_v2.py:241-254 | after the start of a measurement, a checked algorithm's handler is a fresh one for its name followed by the file name, running with the metadata and measuring once confirmed; every other handler is the old one, started with the metadata if it was idle |
| `AlgorithmMultiProcV2.EachHandler` | algorithm_multiproc_v2.py:329-337 | the loop computes `Each` |
| `AlgorithmMultiProcV2.Register` | algorithm_multiproc_v2.py:304-307 | the registration loop computes `Registered` |
| `AlgorithmMultiProcV2.AlgorithmMultiProcV2.constructor` | algorithm_multiproc_v2.py:15-34 | no experiment, count 0, no metadata, no handlers |
| `AlgorithmMultiProcV2.AlgorithmMultiProcV2.SetFileHandle` | algorithm_multiproc_v2.py:301-311 | on start, one handler per checked algorithm is added as `Registered` says; on finish, every handler is dropped |
| `AlgorithmMultiProcV2.AlgorithmMultiProcV2.StartExperiment` | algorithm_multiproc_v2.py:317-332 | the experiment is marked started with its metadata, and the idle handlers are started |
| `AlgorithmMultiProcV2.AlgorithmMultiProcV2.StopExperiment` | algorithm_multiproc_v2.py:335-338 | every handler is told the experiment and the measurement stopped, and the experiment is marked stopped |
| `AlgorithmMultiProcV2.AlgorithmMultiProcV2.OnStartMeasure` | algorithm_multiproc_v2.py:222-272 | the count goes up by one and is shown; a combo text without `:` raises and changes nothing else, the countdown included; otherwise the list gets a line, the file name is generated, the handlers are `Started` of the old ones (a fresh running handler per checked algorithm writing to its name followed by the file name, measuring once the dialog is confirmed), and the countdown starts at 5 |
| `AlgorithmMultiProcV2.AlgorithmMultiProcV2.BeginMeasure` | algorithm_multiproc_v2.py:229-272 | the part of `on_start_measure` after the scenario name is read, with the same outcome: the list, file name, metadata, countdown, and handlers equal to `Started` of the old ones |
| `AlgorithmMultiProcV2.AlgorithmMultiProcV2.UpdateCountdown` | algorithm_multiproc_v2.py:280-288 | one tick down; at zero the timer stops and so does the experiment; the count, its text, the experiment list, the file name and the metadata stay |
| `AlgorithmMultiProcV2.AlgorithmMultiProcV2.OnFinishMeasure` | algorithm_multiproc_v2.py:291-298 | the count is 0, the list empty, every handler dropped, no metadata, not started |
| `AlgorithmMultiProcV2.AlgorithmMultiProcV2.UpdateAlgorithmFile` | algorithm_multiproc_v2.py:187-195 | while an experiment runs and some handler exists, the frame goes to the handler of that name, and a missing name raises KeyError; otherwise the frame is dropped |
| `AlgorithmMultiProc.PositionsMeaning` | algorithm_multiproc.py:172 | every actual position is the 1-based index of a nonzero entry, and the positions strictly ascend |
| `AlgorithmMultiProc.PositionsComplete` | algorithm_multiproc.py:172 | every nonzero entry's 1-based index is among the positions |
| `AlgorithmMultiProc.SumAtPrefix` | algorithm_multiproc.py:171-172 | positions within a prefix pick the same entries from the whole grid |
| `AlgorithmMultiProc.SumAtPositions` | algorithm_multiproc.py:171-172 | summing the grid at the actual positions gives the actual weight: the load sits on the loaded cells alone |
| `AlgorithmMultiProc.ErrorRateMeaning` | algorithm_multiproc.py:177 | an estimate of the right magnitude has error 0; an estimate of 0 has error 100 for a positive weight; for a positive weight the error is positive exactly when the estimate is too small |
| `AlgorithmMultiProc.ResultPathDays` | algorithm_multiproc.py:182-183 | results of one algorithm on one day share a file, and a shared file means the same month and day |
| `AlgorithmMultiProc.AlgorithmMultiProc.constructor` | algorithm_multiproc.py:11-23 | no actual weight or positions yet, rate 0, no result files |
| `AlgorithmMultiProc.AlgorithmMultiProc.SetWeight` | algorithm_multiproc.py:170-172 | the actual weight is the grid's sum and the actual positions are exactly the ascending 1-based indices of its loaded cells, which carry the whole weight |
| `AlgorithmMultiProc.AlgorithmMultiProc.ErrorRateCal` | algorithm_multiproc.py:175-177 | the rate is recomputed exactly when the actual weight is set and nonzero, and otherwise kept |
| `AlgorithmMultiProc.AlgorithmMultiProc.DataSave` | algorithm_multiproc.py:180-197 | the day's result file of the algorithm exists afterwards; one line, with the clock, weights, positions and rate, is appended exactly when the actual weight is set and nonzero |
| `AlgorithmMultiProc.PyFilesMeaning` | algorithm_multiproc.py:205-208 | the files are the old ones plus every `.py` entry of the listing, each mapped to its path in the folder; other entries are ignored |
| `AlgorithmMultiProc.AlgorithmFileManager.constructor` | algorithm_multiproc.py:200-201 | the file table starts empty |
| `AlgorithmMultiProc.AlgorithmFileManager.LoadAlgorithmFromFile` | algorithm_multiproc.py:203-209 | each `.py` entry of the `Algorithm` folder under the working directory is mapped to its path, the other entries are kept, and the table is returned |
| `DataCheckTool.LinesSnoc` | dataCheckTool.cpp:105-107 | writing one more item adds its line at the end |
| `DataCheckTool.LinesSplit` | dataCheckTool.cpp:105-107 | newline-free items, written after a prefix, split back at the newlines into each prefixed item, then an empty last part |
| `DataCheckTool.SavedReadBack` | dataCheckTool.cpp:101-113 | the saved text, read back line by line, is the list followed by the empty last line |
| `DataCheckTool.YamlReadBack` | dataCheckTool.cpp:115-128 | the YAML text, read back line by line, is the header, then one `  - ` entry per item in list order, then the empty last line |
| `DataCheckTool.LoadLabelMeaning` | dataCheckTool.cpp:71-78 | the item starts with `Load Label: ` and a non-empty text can be read back after it; an empty box gives the same item as a box holding `(Nan)` |
| `DataCheckTool.Untag` | dataCheckTool.cpp:133-134 | an item cut down from a tagged one gives that tagged item back when the tag is appended again |
| `DataCheckTool.UntagAll` | dataCheckTool.cpp:131-136 | a list with the tag cut off each item keeps the number of items |
| `DataCheckTool.TagAllAt` | dataCheckTool.cpp:131-136 | each item of the tracked list is the item at the same place with ` [Updated]` appended |
| `DataCheckTool.UntagTag` | dataCheckTool.cpp:133-134 | the appended tag is cut off again exactly, leaving the item it was added to |
| `DataCheckTool.UntagTagAll` | dataCheckTool.cpp:131-136 | cutting the tag off every item of a tracked list gives the list before tracking back |
| `DataCheckTool.TrackAgainGrows` | dataCheckTool.cpp:130-137 | tracking does not settle: tracking a non-empty list again tags every item once more, so the list changes on every call |
| `DataCheckTool.Lines` | dataCheckTool.cpp:105-107 | no items give the empty text |
| `DataCheckTool.DataCheckWindow.constructor` | dataCheckTool.cpp:15-16 | the window opens with an empty list, not updating, its timer stopped and unconnected |
| `DataCheckTool.DataCheckWindow.ApplyLoadLabel` | dataCheckTool.cpp:71-78 | exactly one item, `LoadLabel` of the text, is added at the end |
| `DataCheckTool.DataCheckWindow.StartRealTimeData` | dataCheckTool.cpp:80-89 | when the timer runs nothing changes; otherwise one more handler is connected, the timer starts and the window is updating |
| `DataCheckTool.DataCheckWindow.StopOrResumeUpdates` | dataCheckTool.cpp:91-99 | the update flag flips and the timer follows it |
| `DataCheckTool.DataCheckWindow.Tick` | dataCheckTool.cpp:82-85 | on a timeout every connected handler appends its text, in order; a stopped timer adds nothing |
| `DataCheckTool.DataCheckWindow.SaveDataToFile` | dataCheckTool.cpp:101-113 | when `output.txt` opens it holds every item followed by a newline; otherwise no file changes |
| `DataCheckTool.DataCheckWindow.ExtractToYaml` | dataCheckTool.cpp:115-128 | when `output.yaml` opens it holds the header line and one list entry per item; otherwise no file changes |
| `DataCheckTool.DataCheckWindow.TrackDataChanges` | dataCheckTool.cpp:130-137 | the new list is `TagAll` of the old one: every item gets ` [Updated]` appended at its own place |

## Left out

- Threads, processes and locks are not modelled: the polling loop of `SerialThread.run`, the `poll_sensors` loop with its `Lock`, the Qt timers and threads, and the multiprocess launchers. Only the sequential bodies they call are modelled, one call at a time.
- Device, OS and network I/O are parameters: serial port detection (`detectArduinoPort`), `termios` set-up, `serialOpen`/wiringPi, the Bluetooth and mock loggers. A read is a byte sequence that may end in an error value; opening a device or a file is a boolean input.
- Local-time conversion (`localtime`, `strftime`, `datetime.now`) is left out: the clock is a caller-supplied broken-down time, already valid.
- Floating point is left out. The three binary32 fields of the 52-byte record are opaque 4-byte words. `float()` and `str(float)` are caller-supplied functions bundled in `LogRecord.FloatCodec`.
- AlgorithmMultiProc.ErrorRateMeaning: the rate is exact real arithmetic, not binary64, so rounding is not modelled.
- The estimators are not modelled: the COG mass estimators, the random-forest and MLP predictors, and the MAE/RMSE graphs.
- Pure UI files are not modelled, nor are the layout, plotting and message-box code inside the modelled files. A message box appears only as an `ok` result or as an outcome value.
- DataCheckTool.DataCheckWindow.Tick: the serial reads of the timer handlers are the `incoming` parameter. The signal connections of `applyLoadLabel` and `startRealTimeData` are not modelled, and neither is Qt's newline handling in text mode.
- JSON text serialisation is not modelled: a JSON document is the sequence of its record values.
- `ast.literal_eval` is modelled only for the list-of-integers text the log lines hold: decimal items with an optional sign, a superfluous leading 0 rejected, one trailing comma allowed. Any other literal is a parse error. Hexadecimal, octal and binary items, a unary sign set apart by whitespace (`[- 1]`), nested or non-integer items and non-ASCII whitespace are parsed as errors, though Python accepts some of them; around items the model skips the whitespace `strip()` skips, a wider set than Python's tokenizer skips.
- Text is ASCII. UTF-8 (RFC 3629) multi-byte characters, and a name cut inside one at byte 16, are out of scope.
- The analytics graph display is not modelled.
- AnalyticsDataOrganize.Organizer.DataSelect reads each frame as an `ExperimentFrame`, the grid weights with the sensors. As written, `data.experiment.weights` raises AttributeError on the first sensor of any frame, since the `SensorFrame` that `load_frames` returns holds only a timestamp and its sensors. The model reads the weights the code evidently means.
- AnalyticsDataOrganize.Organizer.SelectFrame rests on the same `ExperimentFrame`. As written, it raises AttributeError on a frame with a sensor.
- AnalyticsDataOrganize.Organizer.OpenFile rests on the same `ExperimentFrame`. As written, it raises AttributeError for any file holding a frame with a sensor.
- AnalyticsDataOrganize.Organizer.constructor opens its file through `open_file`, so as written it raises AttributeError for any file holding a frame with a sensor.
- AnalyticsDataOrganize.FramesEntriesKeys is stated over `ExperimentFrame`, so it holds for the intended reading of the weights; the code as written raises AttributeError instead.
- AnalyticsDataOrganize.FileResultKeys is stated over `ExperimentFrame`, so it holds for the intended reading of the weights; the code as written raises AttributeError instead.
- AnalyticsDataOrganize.FilesDoNotMix is stated over `ExperimentFrame`, so it holds for the intended reading of the weights; the code as written raises AttributeError instead.
- AnalyticsDataOrganize.OrganizeStopsAt propagates the filter's IndexError. As written, the AttributeError at `data.experiment` comes first on any frame with a sensor.
- RefValueGeneratorCog.CogGenerator.CalRefValue takes the distance of each corner as a function of its location. As written, `input.get_sensor_data(...)` raises AttributeError before anything is stored, since `SensorFrame` has no such method.
- RefValueGeneratorCog.Corners reads the four corners through that same function, and so describes the intended lookup, not the failing call.
- AlgorithmMultiProcV2.AlgorithmMultiProcV2.constructor: as written, `algorithm_multiproc_v2.py` cannot be imported, since `datainfo.py` defines neither `SCENARIO_TYPE_MAP` nor `AlgorithmFileHandler`. If it could, `__init__` would raise AttributeError at `ALGORITHM_TYPE.list_all()`, which `Algorithm/algorithmtype.py` does not define. The model sets up the state `__init__` evidently means, without the algorithm list and the widgets.
- AlgorithmMultiProcV2.AlgorithmMultiProcV2.UpdateAlgorithmFile: as written, `ALGORITHM_TYPE.from_name` raises AttributeError whenever an experiment runs and a handler exists, before the handler is looked up. The model leaves that call out and looks the handler up by name.
- The algorithm file handler of `algorithm_multiproc_v2.py` is the `AlgorithmMultiProcV2.Handler` record. Its file writing and auto-save thread are left out. The `SensorFrame` metadata is the `AlgorithmMultiProcV2.Meta` record.
- AlgorithmMultiProcV2.AlgorithmMultiProcV2.UpdateCountdown: the countdown timer is a field and a flag, not a Qt timer.
- AlgorithmMultiProcV2.AlgorithmMultiProcV2.SetFileHandle: a handler replaced under the same name is dropped without being stopped, as in the source. Its thread is not modelled.
- AlgorithmMultiProc.ResultPathDays: a `bname` holding `%` would be read by `strftime` as a directive. The model takes `bname` as literal text.
- The result file opened by `data_save` is never closed in the source. The model keeps appending to the same path.
- WeightTable.WeightTable.EditCell: `broadcast_weight` raises AttributeError in `weight_table.py`. The exception is caught and logged, so the stored weight stays and nothing is broadcast. The catch-all log line is not modelled.
- WeightTable.WeightTable.OnCellChanged does not re-enter itself for the `cellChanged` that a put-back text raises. WeightGrid.RerenderIsNoOp proves that the nested activation changes neither the weights nor the texts, and its `broadcast_weight` fails as above. The `Experiment` window does model the re-entry.
- WeightTable.WeightTable.EditCell does not re-enter `OnCellChanged` either, for the same reason.
- WeightTable.WeightTable.WeightUpdate does not re-enter `OnCellChanged` either, for the same reason.
- Experiment.Experiment.constructor: as written, building the window raises TypeError twice over. `main.py` passes `serial_manager=`, which `Experiment.__init__` does not take. With `DEBUG_MODE` on, the ports are `VCOM1`..`VCOM4`, and `startSerialThread` calls `SerialThreadVirtual(port, self.ports)` on a class whose `__init__` takes one port. The model builds the window these calls evidently mean, and leaves out the serial and GUI threads it would start.
- Experiment.Experiment.HandleSerialData: `port_location` is fixed when the window is built. `save_port_location` belongs to the UI.
- Experiment.RespondMeaning: the guard of `handle_serial_data` accepts a last item of two or three entries but reads its fourth entry. The IndexError this raises is modelled as a rejected reading after the direction update.
- Broken and stub files are not modelled: `weight_action.py`, `analytics_data_graph.py`, `change_data_format.py`, `experiment_v2.py`, `file_manager.py`, `AlgorithmInterface.py` and `algorithm_base.py`. `SerialComm.h` declares methods that `SerialComm.cpp` does not define, and those are not modelled. `dataCheckTool.h` declares neither the slots `stopOrResumeUpdates`, `saveDataToFile`, `extractToYaml` and `trackDataChanges` nor the members `isUpdating`, `serialComm`, `dataUpdateTimer` and the four buttons that `dataCheckTool.cpp` defines and uses, so that pair does not compile as given. The model follows the definitions in `dataCheckTool.cpp`.
- SerialComm.SerialComm.ReceiveLine requires the pending bytes to hold a stop, an error value -1 or a newline. Without one, `str_receiveData` polls forever. That non-termination is not modelled.
- SerialComm.SerialComm.ReadUntilStop has the same requirement, for the same reason.
- ArduinoManager: times are integer microseconds from a caller-supplied day number, and `slop` is in microseconds. Float seconds are not modelled.
