/**
 * `arduino_manager.py`: the line filter of `SerialThread.run`, the timestamp
 * handling of `poll_sensors`, and the approximate-time synchroniser
 * `SerialManager` (`try_sync`, `add_buffer`, `remove_buffer`).
 *
 * Times are integer microseconds: a record's time is the caller-supplied day
 * number times one day, plus the time of day parsed from its stamp; `slop` is
 * in microseconds too.
 */
module ArduinoManager {
  import opened Wrappers
  import opened PyText
  import opened WallClock

  /** What `SerialThread.run` makes of one received line: `int(main_part)`, `sub_part1`, `sub_part2`. */
  datatype Reading = Reading(value: int, sub1: string, sub2: string)

  /**
   * The filter of `SerialThread.run` on a line already decoded as text: strip it, split it
   * at commas, and keep it only when it has three fields or more and the stripped first
   * field is all digits.
   */
  function AcceptLine(line: string): (r: Option<Reading>)
  {
    var data := Strip(line);
    if data == [] then None
    else
      var parts := Split(data, ',');
      if |parts| < 3 then None
      else
        var main := Strip(parts[0]);
        if !IsDigits(main) then None
        else Some(Reading(DigitsValue(main), Strip(parts[1]), Strip(parts[2])))
  }

  /** `int(text)` agrees with the digit value on a text that `isdigit()` accepts. */
  lemma DigitsParse(t: string)
    requires IsDigits(t)
    ensures ParseInt(t) == Some(DigitsValue(t))
  {
    assert !IsSpace(t[0]) && !IsSpace(t[|t| - 1]);
    StripNoSpace(t);
    assert IsIntBody(t);
  }

  /**
   * A line yields a reading exactly when it is non-empty after stripping, has at least three
   * comma-separated fields and a stripped first field of digits; the value is then `int` of
   * that field and the other two fields come stripped.
   */
  lemma AcceptLineSpec(line: string)
    ensures AcceptLine(line).Some? <==>
      && Strip(line) != []
      && |Split(Strip(line), ',')| >= 3
      && IsDigits(Strip(Split(Strip(line), ',')[0]))
    ensures AcceptLine(line).Some? ==>
      var parts := Split(Strip(line), ',');
      && ParseInt(Strip(parts[0])) == Some(AcceptLine(line).value.value)
      && AcceptLine(line).value.value >= 0
      && AcceptLine(line).value.sub1 == Strip(parts[1])
      && AcceptLine(line).value.sub2 == Strip(parts[2])
  {
    if AcceptLine(line).Some? {
      DigitsParse(Strip(Split(Strip(line), ',')[0]));
    }
  }

  /** The `record` dictionary of `poll_sensors`, with `timestamp_dt` as `time`. */
  datatype Record = Record(stamp: string, value: int, sub1: string, sub2: string, port: string, time: int)

  /** `strftime("%H_%M_%S_%f")[:-3]` in `SerialThread.run`: the stamp a reading carries. */
  function ClockStamp(t: DateTime): string {
    Pad(t.hour, 2) + "_" + Pad(t.minute, 2) + "_" + Pad(t.second, 2) + "_" + Pad(t.millis, 3)
  }

  /** `HH_MM_SS_mmm` becomes `HH:MM:SS.mmm` when the stamp has exactly four `_` fields. */
  function Reformat(stamp: string): (r: string)
  {
    var parts := Split(stamp, '_');
    if |parts| == 4 then parts[0] + ":" + parts[1] + ":" + parts[2] + "." + parts[3] else stamp
  }

  /** An `%H`, `%M` or `%S` field: one digit, or two digits below `limit`. */
  predicate ClockField(x: string, limit: nat) {
    1 <= |x| <= 2 && AllDigits(x) && DigitsValue(x) < limit
  }

  /**
   * The time of day `strptime(today + " " + s, "%Y-%m-%d %H:%M:%S.%f")` reads from `s`,
   * in microseconds; None where it raises ValueError. The space of the format matches any
   * whitespace run, so leading whitespace of `s` is accepted.
   */
  function ParseClock(s: string): (r: Option<nat>)
    ensures r.Some? ==> r.value < 24 * 3600 * 1_000_000
  {
    var hms := Split(LStrip(s), ':');
    if |hms| != 3 then None
    else
      var sf := Split(hms[2], '.');
      if |sf| != 2 then None
      else
        var h, m, sec, frac := hms[0], hms[1], sf[0], sf[1];
        if !ClockField(h, 24) || !ClockField(m, 60) || !ClockField(sec, 60) then None
        else if !(1 <= |frac| <= 6 && AllDigits(frac)) then None
        else
          Some(ClockValue(DigitsValue(h), DigitsValue(m), DigitsValue(sec), frac))
  }

  /** Hours, minutes, seconds and the `%f` digits (a fraction of a second) in microseconds. */
  function ClockValue(h: nat, m: nat, s: nat, frac: string): (us: nat)
    requires h < 24 && m < 60 && s < 60 && 1 <= |frac| <= 6 && AllDigits(frac)
    ensures us < 24 * 3600 * 1_000_000
  {
    FracBound(frac);
    ((h * 60 + m) * 60 + s) * 1_000_000 + DigitsValue(frac) * Pow10(6 - |frac|)
  }

  lemma FracBound(frac: string)
    requires 1 <= |frac| <= 6 && AllDigits(frac)
    ensures DigitsValue(frac) * Pow10(6 - |frac|) < 1_000_000
  {
    var v, a, b := DigitsValue(frac), Pow10(|frac|), Pow10(6 - |frac|);
    DigitsBound(frac);
    Pow10Add(|frac|, 6 - |frac|);
    assert a * b == 1_000_000;
    MulLess(v, a, b);
  }

  lemma MulLess(v: nat, a: nat, b: nat)
    requires v < a && b >= 1
    ensures v * b < a * b
  {
  }

  lemma {:induction false} DigitsBound(t: string)
    requires AllDigits(t)
    ensures DigitsValue(t) < Pow10(|t|)
  {
    if t != [] {
      DigitsBound(t[..|t| - 1]);
    }
  }

  lemma {:induction false} Pow10Add(a: nat, b: nat)
    ensures Pow10(a) * Pow10(b) == Pow10(a + b)
  {
    if a > 0 {
      Pow10Add(a - 1, b);
    }
  }

  /** A stamp of four digit fields is reformatted field by field. */
  lemma ReformatDigits(h: string, m: string, s: string, ms: string)
    requires AllDigits(h) && AllDigits(m) && AllDigits(s) && AllDigits(ms)
    ensures Reformat(h + "_" + m + "_" + s + "_" + ms) == h + ":" + m + ":" + s + "." + ms
  {
    assert '_' !in h && '_' !in m && '_' !in s && '_' !in ms;
    SplitFour(h, m, s, ms, '_');
  }

  /** `ParseClock` succeeds once its input is known to split into in-range fields. */
  lemma ParseClockOk(text: string, h: string, m: string, last: string, s: string, f: string)
    requires Split(LStrip(text), ':') == [h, m, last] && Split(last, '.') == [s, f]
    requires ClockField(h, 24) && ClockField(m, 60) && ClockField(s, 60)
    requires 1 <= |f| <= 6 && AllDigits(f)
    ensures ParseClock(text) == Some(ClockValue(DigitsValue(h), DigitsValue(m), DigitsValue(s), f))
  {
  }

  /** `H:M:S.f` splits into its fields when no field holds a separator or starts with whitespace. */
  lemma SplitClockText(text: string, h: string, m: string, last: string, s: string, f: string)
    requires AllDigits(h) && AllDigits(m) && AllDigits(s) && AllDigits(f) && h != []
    requires last == s + "." + f && text == h + ":" + m + ":" + last
    ensures Split(LStrip(text), ':') == [h, m, last] && Split(last, '.') == [s, f]
  {
    assert ':' !in h && ':' !in m && ':' !in last;
    SplitThree(h, m, last, ':');
    assert !IsSpace(text[0]);
    assert '.' !in s && '.' !in f;
    SplitTwo(s, f, '.');
  }

  /** `strptime` accepts `H:M:S.f` with fields in range and reads the time of day from them. */
  lemma ParseClockDigits(h: string, m: string, s: string, f: string)
    requires ClockField(h, 24) && ClockField(m, 60) && ClockField(s, 60)
    requires 1 <= |f| <= 6 && AllDigits(f)
    ensures ParseClock(h + ":" + m + ":" + s + "." + f) == Some(ClockValue(DigitsValue(h), DigitsValue(m), DigitsValue(s), f))
  {
    var last := s + "." + f;
    var text := h + ":" + m + ":" + last;
    assert text == h + ":" + m + ":" + s + "." + f;
    SplitClockText(text, h, m, last, s, f);
    ParseClockOk(text, h, m, last, s, f);
  }

  /** Three digits of `%f` are milliseconds. */
  lemma ClockValueMillis(h: nat, m: nat, s: nat, ms: string, millis: nat)
    requires h < 24 && m < 60 && s < 60 && |ms| == 3 && AllDigits(ms) && DigitsValue(ms) == millis
    ensures ClockValue(h, m, s, ms) == ((h * 60 + m) * 60 + s) * 1_000_000 + millis * 1000
  {
    assert Pow10(6 - |ms|) == 1000;
  }

  /** The stamp a reading carries is reformatted into `strptime`'s `%H:%M:%S.%f` layout. */
  lemma ClockStampReformats(t: DateTime)
    ensures Reformat(ClockStamp(t)) == IsoTime(t) + "." + Pad(t.millis, 3)
  {
    ReformatDigits(Pad(t.hour, 2), Pad(t.minute, 2), Pad(t.second, 2), Pad(t.millis, 3));
  }

  /** Two-digit hours, minutes and seconds and three-digit milliseconds parse to their time of day. */
  lemma MillisParse(h: string, m: string, s: string, ms: string, t: DateTime)
    requires t.Valid()
    requires |h| == 2 && AllDigits(h) && DigitsValue(h) == t.hour
    requires |m| == 2 && AllDigits(m) && DigitsValue(m) == t.minute
    requires |s| == 2 && AllDigits(s) && DigitsValue(s) == t.second
    requires |ms| == 3 && AllDigits(ms) && DigitsValue(ms) == t.millis
    ensures ParseClock(h + ":" + m + ":" + s + "." + ms) == Some(t.MicrosOfDay())
  {
    ParseClockDigits(h, m, s, ms);
    ClockValueMillis(t.hour, t.minute, t.second, ms, t.millis);
    var text := h + ":" + m + ":" + s + "." + ms;
    var v := ClockValue(DigitsValue(h), DigitsValue(m), DigitsValue(s), ms);
    assert ParseClock(text) == Some(v);
    assert v == t.MicrosOfDay();
  }

  /** The stamp a reading carries is reformatted and parsed back to its time of day, to the millisecond. */
  lemma ClockStampParses(t: DateTime)
    requires t.Valid()
    ensures ParseClock(Reformat(ClockStamp(t))) == Some(t.MicrosOfDay())
  {
    PadValue(t.hour, 2);
    PadValue(t.minute, 2);
    PadValue(t.second, 2);
    PadValue(t.millis, 3);
    ClockStampReformats(t);
    MillisParse(Pad(t.hour, 2), Pad(t.minute, 2), Pad(t.second, 2), Pad(t.millis, 3), t);
  }

  const DAY_MICROS: int := 24 * 3600 * 1_000_000

  /**
   * The record `poll_sensors` builds for a reading received on `port`, with `today` the
   * caller-supplied day number; None where the stamp does not parse.
   */
  function MakeRecord(stamp: string, reading: Reading, port: string, today: nat): (r: Option<Record>)
    ensures r.Some? ==> r.value.time / DAY_MICROS == today && r.value.stamp == stamp && r.value.port == port
  {
    match ParseClock(Reformat(stamp))
    case None => None
    case Some(us) => Some(Record(stamp, reading.value, reading.sub1, reading.sub2, port, today * DAY_MICROS + us))
  }

  predicate SortedByTime(buf: seq<Record>) {
    forall i, j :: 0 <= i < j < |buf| ==> buf[i].time <= buf[j].time
  }

  /**
   * `buf.append(r); buf.sort(key=time)` on a sorted buffer: the sort is stable, so `r` lands
   * after every record whose time is not later than its own.
   */
  function InsertByTime(buf: seq<Record>, r: Record): (res: seq<Record>)
    ensures |res| == |buf| + 1
  {
    if buf == [] || buf[|buf| - 1].time <= r.time then buf + [r]
    else InsertByTime(buf[..|buf| - 1], r) + [buf[|buf| - 1]]
  }

  /** Where `InsertByTime` puts `r`: after the last record not later than it. */
  function InsertIndex(buf: seq<Record>, r: Record): (k: nat)
    ensures k <= |buf|
  {
    if buf == [] || buf[|buf| - 1].time <= r.time then |buf|
    else InsertIndex(buf[..|buf| - 1], r)
  }

  /** `res` is `buf` with `r` at position `k`, after the records not later than `r` and before the later ones. */
  predicate InsertedAt(buf: seq<Record>, r: Record, k: int, res: seq<Record>) {
    && 0 <= k <= |buf| && res == buf[..k] + [r] + buf[k..]
    && (forall i :: 0 <= i < k ==> buf[i].time <= r.time)
    && (forall i :: k <= i < |buf| ==> buf[i].time > r.time)
  }

  lemma {:induction false} InsertShape(buf: seq<Record>, r: Record)
    ensures InsertByTime(buf, r) == buf[..InsertIndex(buf, r)] + [r] + buf[InsertIndex(buf, r)..]
  {
    if buf == [] || buf[|buf| - 1].time <= r.time {
      assert buf[..|buf|] == buf && buf[|buf|..] == [];
    } else {
      var front, last := buf[..|buf| - 1], buf[|buf| - 1];
      var k := InsertIndex(front, r);
      InsertShape(front, r);
      assert buf[..k] == front[..k];
      assert buf[k..] == front[k..] + [last];
    }
  }

  lemma {:induction false} InsertIndexSplits(buf: seq<Record>, r: Record)
    requires SortedByTime(buf)
    ensures forall i :: 0 <= i < InsertIndex(buf, r) ==> buf[i].time <= r.time
    ensures forall i :: InsertIndex(buf, r) <= i < |buf| ==> buf[i].time > r.time
  {
    if buf == [] || buf[|buf| - 1].time <= r.time {
      assert forall i :: 0 <= i < |buf| ==> buf[i].time <= buf[|buf| - 1].time;
    } else {
      var front := buf[..|buf| - 1];
      InsertIndexSplits(front, r);
      assert forall i :: 0 <= i < |front| ==> front[i] == buf[i];
    }
  }

  lemma SortedInsertedAt(buf: seq<Record>, r: Record, k: nat, res: seq<Record>)
    requires SortedByTime(buf) && InsertedAt(buf, r, k, res)
    ensures SortedByTime(res)
  {
    assert forall i :: 0 <= i < k ==> res[i] == buf[i];
    assert res[k] == r;
    assert forall i :: k < i < |res| ==> res[i] == buf[i - 1];
  }

  /**
   * Insertion keeps a buffer sorted, and puts `r` between the records not later than it
   * and the records later than it, both in their old order.
   */
  lemma InsertByTimeSpec(buf: seq<Record>, r: Record)
    requires SortedByTime(buf)
    ensures SortedByTime(InsertByTime(buf, r))
    ensures InsertedAt(buf, r, InsertIndex(buf, r), InsertByTime(buf, r))
  {
    InsertShape(buf, r);
    InsertIndexSplits(buf, r);
    SortedInsertedAt(buf, r, InsertIndex(buf, r), InsertByTime(buf, r));
  }

  /** The synchronised group: each port's oldest record, keyed by port. */
  type Group = map<string, Record>

  type Buffers = map<string, seq<Record>>

  /** The buffers hold one list per port and nothing else. */
  ghost predicate Keyed(ports: seq<string>, buffers: Buffers) {
    forall p :: p in buffers <==> p in ports
  }

  predicate Distinct(ports: seq<string>) {
    forall i, j :: 0 <= i < j < |ports| ==> ports[i] != ports[j]
  }

  /** `all(self.buffers[port] for port in self.ports)`. */
  predicate Ready(ports: seq<string>, buffers: Buffers)
    requires Keyed(ports, buffers)
  {
    forall p | p in ports :: buffers[p] != []
  }

  /** The time of the oldest record of `p`. */
  function HeadTime(buffers: Buffers, p: string): int
    requires p in buffers && buffers[p] != []
  {
    buffers[p][0].time
  }

  /** `min(times)` over the heads of `ports`. */
  function MinHead(ports: seq<string>, buffers: Buffers): (t: int)
    requires ports != [] && forall p | p in ports :: p in buffers && buffers[p] != []
    ensures forall p | p in ports :: t <= HeadTime(buffers, p)
    ensures exists p | p in ports :: t == HeadTime(buffers, p)
  {
    var last := ports[|ports| - 1];
    if |ports| == 1 then HeadTime(buffers, last)
    else
      var m := MinHead(ports[..|ports| - 1], buffers);
      assert forall p | p in ports :: p in ports[..|ports| - 1] || p == last;
      if HeadTime(buffers, last) < m then HeadTime(buffers, last) else m
  }

  /** `max(times)` over the heads of `ports`. */
  function MaxHead(ports: seq<string>, buffers: Buffers): (t: int)
    requires ports != [] && forall p | p in ports :: p in buffers && buffers[p] != []
    ensures forall p | p in ports :: HeadTime(buffers, p) <= t
    ensures exists p | p in ports :: t == HeadTime(buffers, p)
  {
    var last := ports[|ports| - 1];
    if |ports| == 1 then HeadTime(buffers, last)
    else
      var m := MaxHead(ports[..|ports| - 1], buffers);
      assert forall p | p in ports :: p in ports[..|ports| - 1] || p == last;
      if HeadTime(buffers, last) > m then HeadTime(buffers, last) else m
  }

  /**
   * `min(self.ports, key=head time)`: the index of a port whose head is oldest, the first
   * such in port order (Python's `min` keeps the first of equal keys).
   */
  function Oldest(ports: seq<string>, buffers: Buffers): (i: nat)
    requires ports != [] && forall p | p in ports :: p in buffers && buffers[p] != []
    ensures i < |ports|
    ensures forall j :: 0 <= j < |ports| ==> HeadTime(buffers, ports[i]) <= HeadTime(buffers, ports[j])
    ensures forall j :: 0 <= j < i ==> HeadTime(buffers, ports[i]) < HeadTime(buffers, ports[j])
  {
    if |ports| == 1 then 0
    else
      var k := Oldest(ports[..|ports| - 1], buffers);
      var last := |ports| - 1;
      assert ports[k] == ports[..last][k];
      assert forall j :: 0 <= j < last ==> ports[j] == ports[..last][j];
      if HeadTime(buffers, ports[last]) < HeadTime(buffers, ports[k]) then last else k
  }

  /** What one call of `try_sync` did. */
  datatype SyncOutcome = NotReady | Synced(group: Group) | Dropped(port: string)

  /** The heads of all ports, `{port: self.buffers[port][0] for port in self.ports}`. */
  function Heads(ports: seq<string>, buffers: Buffers): (g: Group)
    requires Keyed(ports, buffers) && Ready(ports, buffers)
  {
    map p | p in ports :: buffers[p][0]
  }

  /** A list without its first record, `pop(0)`. */
  function Tail(buf: seq<Record>): seq<Record> {
    if buf == [] then [] else buf[1..]
  }

  /** `self.buffers[p].pop(0)`. */
  function Pop(buffers: Buffers, p: string): (b: Buffers)
    requires p in buffers
    ensures b.Keys == buffers.Keys
  {
    buffers[p := Tail(buffers[p])]
  }

  /** `for port in ports: self.buffers[port].pop(0)`. */
  function PopEach(ports: seq<string>, buffers: Buffers): (b: Buffers)
    requires forall p | p in ports :: p in buffers
    ensures b.Keys == buffers.Keys
  {
    if ports == [] then buffers else PopEach(ports[1..], Pop(buffers, ports[0]))
  }

  /** Over distinct ports, the loop pops the head of each listed port once and leaves the rest. */
  lemma {:induction false} PopEachSpec(ports: seq<string>, buffers: Buffers)
    requires Distinct(ports) && forall p | p in ports :: p in buffers
    ensures forall p | p in buffers :: PopEach(ports, buffers)[p] == if p in ports then Tail(buffers[p]) else buffers[p]
  {
    if ports != [] {
      var b' := Pop(buffers, ports[0]);
      PopEachSpec(ports[1..], b');
      assert ports[0] !in ports[1..];
      forall p | p in buffers
        ensures PopEach(ports, buffers)[p] == if p in ports then Tail(buffers[p]) else buffers[p]
      {
        assert p in ports <==> p == ports[0] || p in ports[1..];
      }
    }
  }

  /**
   * `try_sync` on the buffers: its outcome and the buffers it leaves. With no ports at all,
   * `min(times)` would raise ValueError on the empty list; the configured port lists are
   * never empty, so that case does not arise, and it is modelled as NotReady.
   */
  function Sync(ports: seq<string>, slop: int, buffers: Buffers): (r: (SyncOutcome, Buffers))
    requires Keyed(ports, buffers)
  {
    if ports == [] || !Ready(ports, buffers) then (NotReady, buffers)
    else if MaxHead(ports, buffers) - MinHead(ports, buffers) <= slop then
      (Synced(Heads(ports, buffers)), PopEach(ports, buffers))
    else
      var p := ports[Oldest(ports, buffers)];
      (Dropped(p), Pop(buffers, p))
  }

  /** The number of buffered records. */
  function Total(ports: seq<string>, buffers: Buffers): nat
    requires forall p | p in ports :: p in buffers
  {
    if ports == [] then 0 else |buffers[ports[0]]| + Total(ports[1..], buffers)
  }

  lemma {:induction false} TotalSame(ports: seq<string>, a: Buffers, b: Buffers)
    requires forall q | q in ports :: q in a && q in b && |a[q]| == |b[q]|
    ensures Total(ports, a) == Total(ports, b)
  {
    if ports != [] {
      TotalSame(ports[1..], a, b);
    }
  }

  /** Popping one non-empty buffer removes exactly one record from the total. */
  lemma {:induction false} TotalPop(ports: seq<string>, buffers: Buffers, p: string)
    requires Distinct(ports) && forall q | q in ports :: q in buffers
    requires p in ports && buffers[p] != []
    ensures Total(ports, Pop(buffers, p)) == Total(ports, buffers) - 1
  {
    var b' := Pop(buffers, p);
    if ports[0] == p {
      assert p !in ports[1..];
      TotalSame(ports[1..], buffers, b');
    } else {
      assert p in ports[1..];
      TotalPop(ports[1..], buffers, p);
    }
  }

  /** Popping each of `qs`, all non-empty, removes one record per port of `qs`. */
  lemma {:induction false} TotalPopEach(qs: seq<string>, ports: seq<string>, buffers: Buffers)
    requires Distinct(ports) && Distinct(qs) && forall q | q in ports :: q in buffers
    requires forall q | q in qs :: q in ports && buffers[q] != []
    ensures Total(ports, PopEach(qs, buffers)) == Total(ports, buffers) - |qs|
  {
    if qs != [] {
      var b' := Pop(buffers, qs[0]);
      TotalPop(ports, buffers, qs[0]);
      assert qs[0] !in qs[1..];
      TotalPopEach(qs[1..], ports, b');
    }
  }

  /** Buffers are kept sorted, each under its own port. */
  predicate SortedBuffers(buffers: Buffers) {
    forall p | p in buffers :: SortedByTime(buffers[p])
  }

  lemma PopSorted(buffers: Buffers, p: string)
    requires p in buffers && SortedBuffers(buffers)
    ensures SortedBuffers(Pop(buffers, p))
  {
    assert SortedByTime(buffers[p]);
  }

  lemma {:induction false} PopEachSorted(ports: seq<string>, buffers: Buffers)
    requires SortedBuffers(buffers) && forall p | p in ports :: p in buffers
    ensures SortedBuffers(PopEach(ports, buffers))
  {
    if ports != [] {
      PopSorted(buffers, ports[0]);
      PopEachSorted(ports[1..], Pop(buffers, ports[0]));
    }
  }

  /** `try_sync` keeps one sorted buffer per port. */
  lemma SyncKeepsBuffers(ports: seq<string>, slop: int, buffers: Buffers)
    requires Keyed(ports, buffers) && SortedBuffers(buffers)
    ensures Keyed(ports, Sync(ports, slop, buffers).1) && SortedBuffers(Sync(ports, slop, buffers).1)
  {
    if ports != [] && Ready(ports, buffers) {
      PopEachSorted(ports, buffers);
      PopSorted(buffers, ports[Oldest(ports, buffers)]);
    }
  }

  /**
   * `try_sync` changes nothing unless every buffer holds a record. Otherwise it makes
   * progress: a group takes one record from each port, a failed sync drops exactly one.
   */
  lemma SyncProgress(ports: seq<string>, slop: int, buffers: Buffers)
    requires Keyed(ports, buffers) && Distinct(ports)
    ensures Sync(ports, slop, buffers).0.NotReady? <==> ports == [] || !Ready(ports, buffers)
    ensures Sync(ports, slop, buffers).0.NotReady? ==> Sync(ports, slop, buffers).1 == buffers
    ensures Sync(ports, slop, buffers).0.Synced? ==>
      Total(ports, Sync(ports, slop, buffers).1) == Total(ports, buffers) - |ports|
    ensures Sync(ports, slop, buffers).0.Dropped? ==>
      Total(ports, Sync(ports, slop, buffers).1) == Total(ports, buffers) - 1
    ensures !Sync(ports, slop, buffers).0.NotReady? ==> Total(ports, Sync(ports, slop, buffers).1) < Total(ports, buffers)
  {
    var out := Sync(ports, slop, buffers).0;
    if out.Synced? {
      TotalPopEach(ports, ports, buffers);
    } else if out.Dropped? {
      TotalPop(ports, buffers, out.port);
    }
  }

  /** Each port's buffer is its head followed by what `PopEach` leaves of it. */
  lemma HeadsPopped(ports: seq<string>, buffers: Buffers)
    requires Keyed(ports, buffers) && Distinct(ports) && Ready(ports, buffers)
    ensures forall p | p in ports :: [Heads(ports, buffers)[p]] + PopEach(ports, buffers)[p] == buffers[p]
  {
    PopEachSpec(ports, buffers);
    forall p | p in ports ensures [Heads(ports, buffers)[p]] + PopEach(ports, buffers)[p] == buffers[p] {
      assert buffers[p] == [buffers[p][0]] + buffers[p][1..];
    }
  }

  /**
   * A group is emitted only when all heads lie within `slop` of each other; it holds each
   * port's head, and each buffer loses exactly its head.
   */
  lemma SyncedGroup(ports: seq<string>, slop: int, buffers: Buffers)
    requires Keyed(ports, buffers) && Distinct(ports)
    requires Sync(ports, slop, buffers).0.Synced?
    ensures Ready(ports, buffers)
    ensures forall p :: p in Sync(ports, slop, buffers).0.group <==> p in ports
    ensures forall p | p in ports ::
      [Sync(ports, slop, buffers).0.group[p]] + Sync(ports, slop, buffers).1[p] == buffers[p]
    ensures forall p, q | p in ports && q in ports ::
      Sync(ports, slop, buffers).0.group[p].time - Sync(ports, slop, buffers).0.group[q].time <= slop
  {
    HeadsPopped(ports, buffers);
  }

  /** Popping a non-empty buffer takes off its head and leaves every other buffer alone. */
  lemma PopSpec(buffers: Buffers, p: string)
    requires p in buffers && buffers[p] != []
    ensures [buffers[p][0]] + Pop(buffers, p)[p] == buffers[p]
    ensures forall q | q in buffers && q != p :: Pop(buffers, p)[q] == buffers[q]
  {
    assert buffers[p] == [buffers[p][0]] + buffers[p][1..];
  }

  /** Heads spreading further than `slop` means some pair of them does. */
  lemma SpreadPair(ports: seq<string>, slop: int, buffers: Buffers)
    requires ports != [] && forall p | p in ports :: p in buffers && buffers[p] != []
    requires MaxHead(ports, buffers) - MinHead(ports, buffers) > slop
    ensures exists p, q | p in ports && q in ports :: HeadTime(buffers, p) - HeadTime(buffers, q) > slop
  {
    var hi :| hi in ports && MaxHead(ports, buffers) == HeadTime(buffers, hi);
    var lo :| lo in ports && MinHead(ports, buffers) == HeadTime(buffers, lo);
    assert HeadTime(buffers, hi) - HeadTime(buffers, lo) > slop;
  }

  /** Port `k` holds the oldest head, and no earlier port holds one as old. */
  predicate FirstOldest(ports: seq<string>, buffers: Buffers, k: int)
    requires forall p | p in ports :: p in buffers && buffers[p] != []
  {
    && 0 <= k < |ports|
    && (forall j :: 0 <= j < |ports| ==> HeadTime(buffers, ports[k]) <= HeadTime(buffers, ports[j]))
    && (forall j :: 0 <= j < k ==> HeadTime(buffers, ports[k]) < HeadTime(buffers, ports[j]))
  }

  /**
   * When the heads spread further than `slop`, only the oldest head is dropped, from the
   * first port holding one that old; every other buffer is unchanged.
   */
  lemma DroppedOldest(ports: seq<string>, slop: int, buffers: Buffers)
    requires Keyed(ports, buffers)
    requires Sync(ports, slop, buffers).0.Dropped?
    ensures Ready(ports, buffers)
    ensures exists p, q | p in ports && q in ports :: HeadTime(buffers, p) - HeadTime(buffers, q) > slop
    ensures exists k :: FirstOldest(ports, buffers, k) && ports[k] == Sync(ports, slop, buffers).0.port
    ensures var p := Sync(ports, slop, buffers).0.port;
      [buffers[p][0]] + Sync(ports, slop, buffers).1[p] == buffers[p]
    ensures forall q | q in buffers && q != Sync(ports, slop, buffers).0.port ::
      Sync(ports, slop, buffers).1[q] == buffers[q]
  {
    var k := Oldest(ports, buffers);
    assert Sync(ports, slop, buffers) == (Dropped(ports[k]), Pop(buffers, ports[k]));
    assert FirstOldest(ports, buffers, k);
    PopSpec(buffers, ports[k]);
    SpreadPair(ports, slop, buffers);
  }

  /** One of the `Queue` objects algorithms register to receive groups. */
  class GroupQueue {
    var items: seq<Group>

    constructor()
      ensures items == []
    {
      items := [];
    }

    /** `Queue.put`. */
    method Put(g: Group)
      modifies this
      ensures items == old(items) + [g]
    {
      items := items + [g];
    }
  }

  predicate DistinctQueues(qs: seq<GroupQueue>) {
    forall i, j :: 0 <= i < j < |qs| ==> qs[i] != qs[j]
  }

  /** `list.remove(q)` when `q` is present: its first occurrence removed. */
  function Without(qs: seq<GroupQueue>, q: GroupQueue): (r: seq<GroupQueue>)
    ensures |r| <= |qs|
  {
    if qs == [] then []
    else if qs[0] == q then qs[1..]
    else [qs[0]] + Without(qs[1..], q)
  }

  /** On a list without duplicates, removal is set deletion and keeps the order of the rest. */
  lemma {:induction false} WithoutSpec(qs: seq<GroupQueue>, q: GroupQueue)
    requires DistinctQueues(qs)
    ensures forall x :: x in Without(qs, q) <==> x in qs && x != q
    ensures DistinctQueues(Without(qs, q))
    ensures q !in qs ==> Without(qs, q) == qs
  {
    if qs != [] {
      WithoutSpec(qs[1..], q);
      if qs[0] == q {
        assert q !in qs[1..];
      } else {
        var w := Without(qs[1..], q);
        assert qs[0] !in qs[1..];
        assert qs[0] !in w;
        assert q !in qs ==> [qs[0]] + qs[1..] == qs;
      }
    }
  }

  class SerialManager {
    const ports: seq<string>
    /** Largest spread of head times, in microseconds, that still forms a group. */
    const slop: int
    var buffers: Buffers
    var candidateWindow: Group
    var algoBuffers: seq<GroupQueue>

    ghost predicate Valid()
      reads this
    {
      && Distinct(ports)
      && Keyed(ports, buffers)
      && SortedBuffers(buffers)
      && DistinctQueues(algoBuffers)
    }

    /** `__init__`: an empty buffer per port, no group yet and no registered queue. */
    constructor(ports: seq<string>, slop: int)
      requires Distinct(ports)
      ensures Valid()
      ensures this.ports == ports && this.slop == slop
      ensures buffers == (map p | p in ports :: []) && candidateWindow == map[] && algoBuffers == []
    {
      this.ports := ports;
      this.slop := slop;
      buffers := map p | p in ports :: [];
      candidateWindow := map[];
      algoBuffers := [];
    }

    /** `add_buffer`: registers `q` unless it is registered already. */
    method AddBuffer(q: GroupQueue)
      requires Valid()
      modifies this
      ensures Valid()
      ensures algoBuffers == if q in old(algoBuffers) then old(algoBuffers) else old(algoBuffers) + [q]
      ensures buffers == old(buffers) && candidateWindow == old(candidateWindow)
    {
      if q !in algoBuffers {
        algoBuffers := algoBuffers + [q];
      }
    }

    /** `remove_buffer`: unregisters `q` if it is registered. */
    method RemoveBuffer(q: GroupQueue)
      requires Valid()
      modifies this
      ensures Valid()
      ensures algoBuffers == Without(old(algoBuffers), q)
      ensures forall x :: x in algoBuffers <==> x in old(algoBuffers) && x != q
      ensures buffers == old(buffers) && candidateWindow == old(candidateWindow)
    {
      WithoutSpec(algoBuffers, q);
      if q in algoBuffers {
        algoBuffers := Without(algoBuffers, q);
      }
    }

    /** `getCandidate`: the last group, once it holds four ports. */
    function GetCandidate(): (r: Option<Group>)
      reads this
      ensures r.Some? <==> |candidateWindow| == 4
      ensures r.Some? ==> r.value == candidateWindow
    {
      if |candidateWindow| == 4 then Some(candidateWindow) else None
    }

    /**
     * `try_sync`: emits the heads as a group when they lie within `slop`, otherwise drops
     * the oldest head. A group becomes `candidate_window` and one copy of it is put into
     * every registered queue.
     */
    method TrySync() returns (out: SyncOutcome)
      requires Valid()
      modifies this, algoBuffers
      ensures Valid()
      ensures (out, buffers) == Sync(ports, slop, old(buffers))
      ensures algoBuffers == old(algoBuffers)
      ensures candidateWindow == if out.Synced? then out.group else old(candidateWindow)
      ensures forall i :: 0 <= i < |algoBuffers| ==>
        algoBuffers[i].items == if out.Synced? then old(algoBuffers[i].items) + [out.group] else old(algoBuffers[i].items)
    {
      SyncKeepsBuffers(ports, slop, buffers);
      if ports == [] || !Ready(ports, buffers) {
        return NotReady;
      }
      if MaxHead(ports, buffers) - MinHead(ports, buffers) <= slop {
        var group := EmitGroup();
        out := Synced(group);
      } else {
        var p := DropOldest();
        out := Dropped(p);
      }
    }

    /** The other branch of `try_sync`: drop the oldest head. */
    method DropOldest() returns (p: string)
      requires ports != [] && Keyed(ports, buffers) && Ready(ports, buffers)
      modifies this
      ensures p == ports[Oldest(ports, old(buffers))]
      ensures buffers == Pop(old(buffers), p)
      ensures candidateWindow == old(candidateWindow) && algoBuffers == old(algoBuffers)
    {
      p := ports[Oldest(ports, buffers)];
      buffers := Pop(buffers, p);
    }

    /** The synchronised branch of `try_sync`: record, pop and deliver the heads. */
    method EmitGroup() returns (group: Group)
      requires Keyed(ports, buffers) && Ready(ports, buffers) && DistinctQueues(algoBuffers)
      modifies this, algoBuffers
      ensures group == Heads(ports, old(buffers))
      ensures buffers == PopEach(ports, old(buffers))
      ensures candidateWindow == group && algoBuffers == old(algoBuffers)
      ensures forall i :: 0 <= i < |algoBuffers| ==> algoBuffers[i].items == old(algoBuffers[i].items) + [group]
    {
      group := Heads(ports, buffers);
      candidateWindow := group;
      PopHeads();
      DeliverGroup(group);
    }

    /** `for port in self.ports: self.buffers[port].pop(0)`. */
    method PopHeads()
      requires forall p | p in ports :: p in buffers
      modifies this
      ensures buffers == PopEach(ports, old(buffers))
      ensures candidateWindow == old(candidateWindow) && algoBuffers == old(algoBuffers)
    {
      var i := 0;
      while i < |ports|
        invariant 0 <= i <= |ports|
        invariant buffers.Keys == old(buffers).Keys
        invariant PopEach(ports[i..], buffers) == PopEach(ports, old(buffers))
        invariant candidateWindow == old(candidateWindow) && algoBuffers == old(algoBuffers)
      {
        ghost var rest := ports[i..];
        assert rest[0] == ports[i] && rest[1..] == ports[i + 1..];
        buffers := Pop(buffers, ports[i]);
        i := i + 1;
      }
    }

    /** `for buf in self.algo_buffers: buf.put(candidate.copy())`. */
    method DeliverGroup(g: Group)
      requires DistinctQueues(algoBuffers)
      modifies algoBuffers
      ensures forall i :: 0 <= i < |algoBuffers| ==> algoBuffers[i].items == old(algoBuffers[i].items) + [g]
    {
      var i := 0;
      while i < |algoBuffers|
        invariant 0 <= i <= |algoBuffers|
        invariant forall j :: 0 <= j < i ==> algoBuffers[j].items == old(algoBuffers[j].items) + [g]
        invariant forall j :: i <= j < |algoBuffers| ==> algoBuffers[j].items == old(algoBuffers[j].items)
      {
        algoBuffers[i].Put(g);
        i := i + 1;
      }
    }

    /**
     * The body of `poll_sensors` for one message of `port`: build the record, skip it when
     * its stamp does not parse, otherwise insert it in time order and call `try_sync`.
     */
    method Receive(stamp: string, reading: Reading, port: string, today: nat) returns (out: Option<SyncOutcome>)
      requires Valid() && port in ports
      modifies this, algoBuffers
      ensures Valid()
      ensures algoBuffers == old(algoBuffers)
      ensures MakeRecord(stamp, reading, port, today).None? ==>
        && out.None? && buffers == old(buffers) && candidateWindow == old(candidateWindow)
        && forall i :: 0 <= i < |algoBuffers| ==> algoBuffers[i].items == old(algoBuffers[i].items)
      ensures MakeRecord(stamp, reading, port, today).Some? ==>
        var r := MakeRecord(stamp, reading, port, today).value;
        out.Some? && (out.value, buffers) == Sync(ports, slop, old(buffers)[port := InsertByTime(old(buffers)[port], r)])
      ensures MakeRecord(stamp, reading, port, today).Some? ==>
        && out.Some?
        && candidateWindow == (if out.value.Synced? then out.value.group else old(candidateWindow))
        && forall i :: 0 <= i < |algoBuffers| ==>
          algoBuffers[i].items == if out.value.Synced? then old(algoBuffers[i].items) + [out.value.group] else old(algoBuffers[i].items)
    {
      var record := MakeRecord(stamp, reading, port, today);
      if record.None? {
        return None;
      }
      InsertByTimeSpec(buffers[port], record.value);
      buffers := buffers[port := InsertByTime(buffers[port], record.value)];
      var synced := TrySync();
      out := Some(synced);
    }
  }
}
