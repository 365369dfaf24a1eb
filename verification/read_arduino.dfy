/**
 * `read_arduino.cpp`: a logger that reads an Arduino's serial output line by line and
 * appends each line, prefixed with the local time, to `arduino_data.csv`.
 */
module ReadArduino {
  import opened Wrappers
  import opened PyText
  import opened WallClock
  import opened Disk

  /** A complete line: it ends in its only newline. */
  predicate IsLine(s: string) {
    |s| > 0 && s[|s| - 1] == '\n' && '\n' !in s[..|s| - 1]
  }

  /** The lines in order, joined back into the bytes they came from. */
  function Flatten(lines: seq<string>): string {
    if lines == [] then "" else Flatten(lines[..|lines| - 1]) + lines[|lines| - 1]
  }

  /** The position of the first newline of `s`. */
  function FirstNewline(s: string): (r: Option<nat>)
    ensures r.None? <==> '\n' !in s
    ensures r.Some? ==> r.value < |s| && s[r.value] == '\n' && forall i :: 0 <= i < r.value ==> s[i] != '\n'
  {
    if s == [] then None
    else if s[0] == '\n' then Some(0)
    else
      match FirstNewline(s[1..])
      case None => None
      case Some(k) => Some(k + 1)
  }

  /** `readFromSerialPort` with its function-static `buffer`, reading from the device's pending bytes. */
  class LineReader {
    /** The static partial line. */
    var buffer: string
    /** The bytes `read` can return before it reports that nothing is available. */
    var incoming: string
    /** The lines returned so far. */
    ghost var delivered: seq<string>
    /** Every byte read so far. */
    ghost var consumed: string

    /**
     * Every returned line is complete, the buffer holds no newline, and no byte is lost:
     * the returned lines followed by the buffer are exactly the bytes read.
     */
    ghost predicate Valid()
      reads this
    {
      && '\n' !in buffer
      && (forall i :: 0 <= i < |delivered| ==> IsLine(delivered[i]))
      && Flatten(delivered) + buffer == consumed
    }

    constructor()
      ensures Valid()
      ensures buffer == "" && incoming == "" && delivered == [] && consumed == ""
    {
      buffer := "";
      incoming := "";
      delivered := [];
      consumed := "";
    }

    /** Bytes arriving at the device. */
    method Arrive(bytes: string)
      modifies this
      ensures incoming == old(incoming) + bytes
      ensures buffer == old(buffer) && delivered == old(delivered) && consumed == old(consumed)
    {
      incoming := incoming + bytes;
    }

    /**
     * `readFromSerialPort`: reads byte by byte into the buffer; at a newline returns the
     * buffer, newline included, and empties it; when the device has nothing more, returns
     * "" and keeps the partial line for the next call.
     */
    method ReadLine() returns (line: string)
      requires Valid()
      modifies this
      ensures Valid()
      ensures line == "" || IsLine(line)
      ensures match FirstNewline(old(incoming))
        case Some(k) =>
          && line == old(buffer) + old(incoming)[..k + 1]
          && buffer == "" && incoming == old(incoming)[k + 1..]
          && consumed == old(consumed) + old(incoming)[..k + 1]
          && delivered == old(delivered) + [line]
        case None =>
          && line == "" && buffer == old(buffer) + old(incoming) && incoming == ""
          && consumed == old(consumed) + old(incoming)
          && delivered == old(delivered)
    {
      var read, found := ReadBytes(incoming);
      incoming := incoming[|read|..];
      ghost var before := Flatten(delivered);
      assert before + (buffer + read) == consumed + read;
      consumed := consumed + read;
      if found {
        line := buffer + read;
        buffer := "";
        LineComplete(old(buffer), read);
        FlattenSnoc(delivered, line);
        delivered := delivered + [line];
        assert Flatten(delivered) + buffer == before + line;
      } else {
        line := "";
        buffer := buffer + read;
      }
    }
  }

  /**
   * The `read` loop of `readFromSerialPort` over the available bytes: the bytes it reads,
   * up to and including the first newline, and whether it met one.
   */
  method ReadBytes(available: string) returns (read: string, found: bool)
    ensures found <==> FirstNewline(available).Some?
    ensures found ==> read == available[..FirstNewline(available).value + 1]
    ensures !found ==> read == available
  {
    var rest := available;
    read := "";
    found := false;
    while |rest| > 0 && !found
      invariant |read| <= |available| && read == available[..|read|] && rest == available[|read|..]
      invariant !found ==> '\n' !in read
      invariant found ==> read != [] && FirstNewline(available) == Some(|read| - 1)
    {
      var ch := rest[0];
      rest := rest[1..];
      read := read + [ch];
      if ch == '\n' {
        found := true;
      }
    }
    if !found {
      assert read == available;
    }
  }

  lemma FlattenSnoc(lines: seq<string>, line: string)
    ensures Flatten(lines + [line]) == Flatten(lines) + line
  {
    assert (lines + [line])[..|lines|] == lines;
  }

  /** The buffer plus the bytes up to the first newline form one complete line. */
  lemma LineComplete(buf0: string, read: string)
    requires '\n' !in buf0 && read != [] && read[|read| - 1] == '\n'
    requires forall i :: 0 <= i < |read| - 1 ==> read[i] != '\n'
    ensures IsLine(buf0 + read)
  {
    var line := buf0 + read;
    assert line[..|line| - 1] == buf0 + read[..|read| - 1];
  }

  /** The text `outFile << timestamp << ", " << data << std::endl` appends. */
  function RecordText(timestamp: string, data: string): string {
    timestamp + ", " + data + "\n"
  }

  const OUTPUT_FILE: string := "arduino_data.csv"

  /**
   * A returned line keeps its newline and `endl` adds another, so every record is
   * followed by an empty line.
   */
  lemma RecordEndsWithBlankLine(timestamp: string, line: string)
    requires IsLine(line)
    ensures var r := RecordText(timestamp, line);
      |r| >= 2 && r[|r| - 2..] == "\n\n" && r[..|r| - 1] == timestamp + ", " + line
  {
  }

  /** How `main` ends before its endless read loop, or that it reached it. */
  datatype Startup = NoPort | PortFailed | FileFailed | Logging(port: int)

  /** The exit code `main` returns; the read loop never returns. */
  function ExitCode(s: Startup): (r: Option<int>)
    ensures r.Some? <==> !s.Logging?
    ensures r.Some? ==> r.value == -1
  {
    if s.Logging? then None else Some(-1)
  }

  /**
   * The start of `main`, with `portName` what `detectArduinoPort` found and `handle` what
   * `initializeSerialPort` returned.
   */
  method Start(portName: string, handle: int, disk: Disk) returns (s: Startup)
    ensures s == NoPort <==> portName == ""
    ensures s == PortFailed <==> portName != "" && handle == -1
    ensures s == FileFailed <==> portName != "" && handle != -1 && OUTPUT_FILE in disk.unwritable
    ensures s.Logging? <==> portName != "" && handle != -1 && OUTPUT_FILE !in disk.unwritable
    ensures s.Logging? ==> s.port == handle
  {
    if portName == "" {
      return NoPort;
    }
    if handle == -1 {
      return PortFailed;
    }
    if OUTPUT_FILE in disk.unwritable {
      return FileFailed;
    }
    return Logging(handle);
  }

  /** One turn of the `while (true)` loop of `main`, at local time `now`. */
  method LogStep(reader: LineReader, now: DateTime, disk: Disk) returns (data: string)
    requires reader.Valid() && OUTPUT_FILE !in disk.unwritable
    modifies reader, disk
    ensures reader.Valid()
    ensures data == "" || IsLine(data)
    ensures reader.delivered == old(reader.delivered) + (if data == "" then [] else [data])
    ensures disk.files == if data == "" then old(disk.files)
      else old(disk.files)[OUTPUT_FILE := old(disk.Contents(OUTPUT_FILE)) + RecordText(ClockText(now), data)]
    ensures disk.dirs == old(disk.dirs)
  {
    data := reader.ReadLine();
    if data != "" {
      var timestamp := ClockText(now);
      var ok := disk.Append(OUTPUT_FILE, RecordText(timestamp, data));
    }
  }
}
