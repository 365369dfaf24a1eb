/**
 * `SerialComm.cpp`: the serial-device wrapper of the Raspberry Pi logger. A call of
 * `str_receiveData` collects the characters of one line, dropping NULs, and on the
 * newline appends a record to the hour's log file under the day's folder.
 */
module SerialComm {
  import opened Wrappers
  import opened PyText
  import opened WallClock
  import opened Disk

  const NEWLINE: int := 10

  /** What `serialGetchar` can return: a byte, or -1 on error or timeout. */
  predicate IsGetchar(d: int) {
    -1 <= d < 256
  }

  predicate Getchars(ds: seq<int>) {
    forall i :: 0 <= i < |ds| ==> IsGetchar(ds[i])
  }

  /** A value that ends the read loop. */
  predicate IsStop(d: int) {
    d == -1 || d == NEWLINE
  }

  /** The device eventually returns -1 or a newline, so the read loop ends. */
  predicate HasStop(ds: seq<int>) {
    exists i :: 0 <= i < |ds| && IsStop(ds[i])
  }

  /** One call of the read loop: the text kept, whether a newline ended it, and how many values it read. */
  datatype Received = Received(text: string, newline: bool, used: nat)

  /** The read loop of `str_receiveData` over the values the device returns. */
  function Receive(ds: seq<int>): (r: Received)
    requires Getchars(ds)
    ensures '\0' !in r.text && '\n' !in r.text
    ensures r.used <= |ds|
  {
    if ds == [] then Received("", false, 0)
    else if ds[0] == -1 then Received("", false, 1)
    else if ds[0] == NEWLINE then Received("", true, 1)
    else
      var rest := Receive(ds[1..]);
      var kept := if ds[0] != 0 then [ds[0] as char] + rest.text else rest.text;
      Received(kept, rest.newline, rest.used + 1)
  }

  /** One step of the loop: a value that does not end it is kept unless it is NUL. */
  lemma ReceiveStep(ds: seq<int>)
    requires Getchars(ds) && ds != []
    ensures IsStop(ds[0]) ==> Receive(ds) == Received("", ds[0] == NEWLINE, 1)
    ensures !IsStop(ds[0]) ==> Receive(ds) == Received(
      (if ds[0] != 0 then [ds[0] as char] else "") + Receive(ds[1..]).text,
      Receive(ds[1..]).newline, Receive(ds[1..]).used + 1)
  {
  }

  /** The bytes of `ds` as characters, NULs left out. */
  function DropNul(ds: seq<int>): (s: string)
    requires forall i :: 0 <= i < |ds| ==> 0 <= ds[i] < 256
    ensures |s| <= |ds|
  {
    if ds == [] then ""
    else (if ds[0] != 0 then [ds[0] as char] else "") + DropNul(ds[1..])
  }

  /** The position of the first value that ends the loop. */
  function FirstStop(ds: seq<int>): (k: nat)
    requires HasStop(ds)
    ensures k < |ds| && IsStop(ds[k])
    ensures forall i :: 0 <= i < k ==> !IsStop(ds[i])
  {
    if IsStop(ds[0]) then 0
    else
      var i :| 0 <= i < |ds| && IsStop(ds[i]);
      assert 0 <= i - 1 < |ds[1..]| && IsStop(ds[1..][i - 1]);
      1 + FirstStop(ds[1..])
  }

  /**
   * The loop keeps exactly the bytes before the first -1 or newline, NULs removed and in
   * order, reads up to and including that value, and saves iff it was a newline.
   */
  lemma {:induction false} ReceiveSpec(ds: seq<int>)
    requires Getchars(ds) && HasStop(ds)
    ensures forall i :: 0 <= i < FirstStop(ds) ==> 0 <= ds[i] < 256
    ensures Receive(ds) == Received(DropNul(ds[..FirstStop(ds)]), ds[FirstStop(ds)] == NEWLINE, FirstStop(ds) + 1)
  {
    if !IsStop(ds[0]) {
      var k := FirstStop(ds);
      ReceiveSpec(ds[1..]);
      assert ds[..k][1..] == ds[1..][..k - 1];
    }
  }

  /** `%Y-%m-%d`: the folder of the day. */
  function DayFolder(t: DateTime): string {
    IsoDate(t)
  }

  /** `%Y%m%d_%H` then `.yaml`: the file of the hour. */
  function HourFile(t: DateTime): string {
    CompactDate(t) + "_" + Pad(t.hour, 2) + ".yaml"
  }

  function LogPath(t: DateTime): string {
    DayFolder(t) + "/" + HourFile(t)
  }

  /** `%Y-%m-%d %H:%M:%S` then `.` and the milliseconds without padding. */
  function Timestamp(t: DateTime): string {
    ClockText(t) + "." + NatToString(t.millis)
  }

  /**
   * The record's time is the date and time to the second, a `.`, and the milliseconds
   * read back from what follows. They are not zero-padded: three digits appear only
   * from 100 ms on.
   */
  lemma TimestampMillis(t: DateTime)
    requires t.Valid()
    ensures var s := Timestamp(t); var n := |ClockText(t)|;
      && |s| > n + 1 && s[..n] == ClockText(t) && s[n] == '.'
      && DecimalAt(s, n + 1, |s|) == Some(t.millis)
      && (|s| == n + 4 <==> t.millis >= 100) && |s| <= n + 4
  {
    var c := ClockText(t);
    var m := NatToString(t.millis);
    var s := Timestamp(t);
    DecimalAtPrepend(c + ".", m, 0, |m|, |c| + 1, |s|);
    assert m[0..|m|] == m;
    assert Pow10(3) == 1000 by {
      assert Pow10(2) == 100 by {
        assert Pow10(1) == 10;
      }
    }
    NatToStringLength(t.millis, 3);
    if t.millis >= 100 {
      NatToStringAtLeast(t.millis, 2);
    } else {
      NatToStringLength(t.millis, 2);
    }
  }

  /** The line `saveToFile` appends, `endl` included. */
  function RecordLine(t: DateTime, port: int, data: string): string {
    "timestamp: \"" + Timestamp(t) + "\", laser_data_port_" + IntToString(port) + ": \"" + data + "\"\n"
  }

  /** Where year, month, day and hour sit in a path laid out as the log path is. */
  lemma PathSlices(p: string, yr: string, mm: string, dd: string, hh: string)
    requires |mm| == 2 && |dd| == 2 && |hh| == 2
    requires p == yr + "-" + mm + "-" + dd + "/" + yr + mm + dd + "_" + hh + ".yaml"
    ensures var y := |yr|;
      && |p| == 2 * y + 19
      && p[..y] == yr
      && p[y + 1..y + 3] == mm
      && p[y + 4..y + 6] == dd
      && p[2 * y + 12..2 * y + 14] == hh
  {
    var y := |yr|;
    var front := yr + "-" + mm + "-" + dd + "/" + yr + mm + dd + "_";
    assert p == front + hh + ".yaml";
    assert |front| == 2 * y + 12;
    assert p[2 * y + 12..2 * y + 14] == hh;
    var folder := yr + "-" + mm + "-" + dd;
    assert p[..y + 6] == folder;
    assert folder[..y] == yr && folder[y + 1..y + 3] == mm && folder[y + 4..y + 6] == dd;
  }

  /** Two paths laid out as the log path is are equal only when their fields are. */
  lemma SameLayoutSameFields(p: string, yr1: string, mm1: string, dd1: string, hh1: string,
                             yr2: string, mm2: string, dd2: string, hh2: string)
    requires |mm1| == 2 && |dd1| == 2 && |hh1| == 2 && |mm2| == 2 && |dd2| == 2 && |hh2| == 2
    requires p == yr1 + "-" + mm1 + "-" + dd1 + "/" + yr1 + mm1 + dd1 + "_" + hh1 + ".yaml"
    requires p == yr2 + "-" + mm2 + "-" + dd2 + "/" + yr2 + mm2 + dd2 + "_" + hh2 + ".yaml"
    ensures yr1 == yr2 && mm1 == mm2 && dd1 == dd2 && hh1 == hh2
  {
    PathSlices(p, yr1, mm1, dd1, hh1);
    PathSlices(p, yr2, mm2, dd2, hh2);
  }

  /**
   * Two valid instants share a log path exactly when they fall in the same hour of the
   * same day: the folder and the file name come from one instant.
   */
  lemma SamePathIffSameHour(t1: DateTime, t2: DateTime)
    requires t1.Valid() && t2.Valid()
    ensures LogPath(t1) == LogPath(t2) <==>
      t1.year == t2.year && t1.month == t2.month && t1.day == t2.day && t1.hour == t2.hour
  {
    if LogPath(t1) == LogPath(t2) {
      PathDeterminesHour(t1, t2);
    }
  }

  /** The log path with its folder and file name written out as one concatenation. */
  lemma FlatPath(yr: string, mm: string, dd: string, hh: string)
    ensures (yr + "-" + mm + "-" + dd) + "/" + (yr + mm + dd + "_" + hh + ".yaml")
         == yr + "-" + mm + "-" + dd + "/" + yr + mm + dd + "_" + hh + ".yaml"
  {
    var folder := yr + "-" + mm + "-" + dd + "/";
    assert folder + (yr + mm + dd + "_" + hh + ".yaml") == folder + (yr + mm + dd + "_" + hh) + ".yaml";
    assert folder + (yr + mm + dd + "_" + hh) == folder + (yr + mm + dd + "_") + hh;
    assert folder + (yr + mm + dd + "_") == folder + (yr + mm + dd) + "_";
    assert folder + (yr + mm + dd) == folder + (yr + mm) + dd;
    assert folder + (yr + mm) == folder + yr + mm;
  }

  lemma PathDeterminesHour(t1: DateTime, t2: DateTime)
    requires t1.Valid() && t2.Valid() && LogPath(t1) == LogPath(t2)
    ensures t1.year == t2.year && t1.month == t2.month && t1.day == t2.day && t1.hour == t2.hour
  {
    PadValue(t1.month, 2);
    PadValue(t2.month, 2);
    PadValue(t1.day, 2);
    PadValue(t2.day, 2);
    PadValue(t1.hour, 2);
    PadValue(t2.hour, 2);
    FlatPath(Year(t1), Pad(t1.month, 2), Pad(t1.day, 2), Pad(t1.hour, 2));
    FlatPath(Year(t2), Pad(t2.month, 2), Pad(t2.day, 2), Pad(t2.hour, 2));
    SameLayoutSameFields(LogPath(t1),
      Year(t1), Pad(t1.month, 2), Pad(t1.day, 2), Pad(t1.hour, 2),
      Year(t2), Pad(t2.month, 2), Pad(t2.day, 2), Pad(t2.hour, 2));
    SameFields(t1, t2);
  }

  /** The printed year, month, day and hour determine their values. */
  lemma SameFields(t1: DateTime, t2: DateTime)
    requires t1.Valid() && t2.Valid()
    requires Year(t1) == Year(t2) && Pad(t1.month, 2) == Pad(t2.month, 2)
    requires Pad(t1.day, 2) == Pad(t2.day, 2) && Pad(t1.hour, 2) == Pad(t2.hour, 2)
    ensures t1.year == t2.year && t1.month == t2.month && t1.day == t2.day && t1.hour == t2.hour
  {
    PadValue(t1.month, 2);
    PadValue(t2.month, 2);
    PadValue(t1.day, 2);
    PadValue(t2.day, 2);
    PadValue(t1.hour, 2);
    PadValue(t2.hour, 2);
  }

  /** How one `saveToFile` call ended. */
  datatype SaveOutcome =
    | Saved
    /**
     * The day folder was missing and `create_directory` threw `filesystem_error`. Nothing
     * catches it, so it propagates out of `saveToFile` and out of `str_receiveData`.
     */
    | FolderThrew
    /** The hour file could not be opened. */
    | OpenFailed

  class SerialComm {
    const device: string
    const baud: nat
    /** The descriptor `serialOpen` returned; -1 before `setup`. */
    var fd: int
    var time: nat
    /** What `serialGetchar` returns from here on. */
    var incoming: seq<int>

    constructor(device: string, baud: nat, incoming: seq<int>)
      ensures this.device == device && this.baud == baud && this.incoming == incoming
      ensures fd == -1 && time == 0
    {
      this.device := device;
      this.baud := baud;
      this.incoming := incoming;
      fd := -1;
      time := 0;
    }

    /** The destructor: the descriptor `serialClose` is called on, only when one was opened. */
    method Destroy() returns (closed: Option<int>)
      ensures closed.Some? <==> fd >= 0
      ensures closed.Some? ==> closed.value == fd
    {
      if fd >= 0 {
        closed := Some(fd);
      } else {
        closed := None;
      }
    }

    /**
     * `setup`, with `handle` what `serialOpen` returns and `wiring` what `wiringPiSetup`
     * returns: false when the device cannot be opened or wiringPi fails.
     */
    method Setup(handle: int, wiring: int) returns (ok: bool)
      modifies this
      ensures fd == handle
      ensures ok <==> handle >= 0 && wiring != -1
      ensures incoming == old(incoming) && time == old(time)
    {
      fd := handle;
      if fd < 0 {
        return false;
      }
      if wiring == -1 {
        return false;
      }
      return true;
    }

    /**
     * `saveToFile(data, portNumber)` at the instant `now`: makes the day folder when it is
     * missing, then appends one record line to the hour file.
     */
    method SaveToFile(data: string, portNumber: int, now: DateTime, disk: Disk) returns (outcome: SaveOutcome)
      modifies disk
      ensures outcome == FolderThrew <==> DayFolder(now) !in old(disk.dirs) && DayFolder(now) in disk.unwritable
      ensures outcome == OpenFailed <==> outcome != FolderThrew && LogPath(now) in disk.unwritable
      ensures outcome == Saved ==>
        disk.files == old(disk.files)[LogPath(now) := old(disk.Contents(LogPath(now))) + RecordLine(now, portNumber, data)]
      ensures outcome != Saved ==> disk.files == old(disk.files)
      ensures disk.dirs == if DayFolder(now) in disk.unwritable then old(disk.dirs) else old(disk.dirs) + {DayFolder(now)}
    {
      var folder := DayFolder(now);
      var fileName := HourFile(now);
      if folder !in disk.dirs {
        var threw := disk.CreateDirectory(folder);
        if threw {
          return FolderThrew;
        }
      }
      var path := folder + "/" + fileName;
      var timestamp := Timestamp(now);
      var ok := disk.Append(path, RecordLine(now, portNumber, data));
      if !ok {
        return OpenFailed;
      }
      return Saved;
    }

    /**
     * `str_receiveData` at the instant `now`: reads until -1 or a newline, keeping the
     * non-NUL bytes; on the newline saves them under port number 1. The text is returned
     * unless the save threw, in which case the exception leaves the call instead.
     */
    method ReceiveLine(now: DateTime, disk: Disk) returns (line: Option<string>, saved: Option<SaveOutcome>)
      requires Getchars(incoming) && HasStop(incoming)
      modifies this, disk
      ensures incoming == old(incoming)[Receive(old(incoming)).used..]
      ensures saved.Some? <==> Receive(old(incoming)).newline
      ensures line.None? <==> saved == Some(FolderThrew)
      ensures line.Some? ==> line.value == Receive(old(incoming)).text
      ensures saved == Some(FolderThrew) <==>
        Receive(old(incoming)).newline && DayFolder(now) !in old(disk.dirs) && DayFolder(now) in disk.unwritable
      ensures saved == Some(OpenFailed) <==>
        Receive(old(incoming)).newline && saved != Some(FolderThrew) && LogPath(now) in disk.unwritable
      ensures saved.None? ==> disk.files == old(disk.files) && disk.dirs == old(disk.dirs)
      ensures saved.Some? ==>
        disk.dirs == if DayFolder(now) in disk.unwritable then old(disk.dirs) else old(disk.dirs) + {DayFolder(now)}
      ensures saved == Some(Saved) ==>
        disk.files == old(disk.files)[LogPath(now) := old(disk.Contents(LogPath(now))) + RecordLine(now, 1, Receive(old(incoming)).text)]
      ensures saved != Some(Saved) ==> disk.files == old(disk.files)
      ensures fd == old(fd) && time == old(time)
    {
      var portNumber := 1;
      var text, newline := ReadUntilStop();
      saved := None;
      if newline {
        var outcome := SaveToFile(text, portNumber, now, disk);
        saved := Some(outcome);
        if outcome == FolderThrew {
          return None, saved;
        }
      }
      line := Some(text);
    }

    /** The `while(true)` loop of `str_receiveData`, up to the value that breaks it. */
    method ReadUntilStop() returns (line: string, newline: bool)
      requires Getchars(incoming) && HasStop(incoming)
      modifies this`incoming
      ensures line == Receive(old(incoming)).text && newline == Receive(old(incoming)).newline
      ensures incoming == old(incoming)[Receive(old(incoming)).used..]
      ensures fd == old(fd) && time == old(time)
    {
      ghost var all := incoming;
      ghost var pos := 0;
      var rest := incoming;
      line := "";
      newline := false;
      while true
        invariant Getchars(rest) && HasStop(rest)
        invariant pos <= |all| && rest == all[pos..]
        invariant Receive(all) == Received(line + Receive(rest).text, Receive(rest).newline, pos + Receive(rest).used)
        decreases |rest|
      {
        var data := rest[0];
        ReceiveStep(rest);
        assert HasStop(rest[1..]) || IsStop(data);
        assert all[pos + 1..] == rest[1..];
        rest := rest[1..];
        pos := pos + 1;
        if data == -1 {
          break;
        } else if data == NEWLINE {
          newline := true;
          break;
        } else if data != 0 {
          assert line + ([data as char] + Receive(rest).text) == line + [data as char] + Receive(rest).text;
          line := line + [data as char];
        } else {
          assert "" + Receive(rest).text == Receive(rest).text;
        }
      }
      incoming := rest;
    }
  }
}
