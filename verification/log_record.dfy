/**
 * The 52-byte log record `<I9h1s16sfff1s` shared by the log tools, and the loop shape
 * they all have: walk the input (text lines, JSON items or 52-byte chunks) in order,
 * skip some entries, convert the others, and stop at the first exception.
 */
module LogRecord {
  import opened Wrappers
  import opened LittleEndian
  import opened PyText

  const RECORD_SIZE: nat := 52
  const NAME_WIDTH: nat := 16
  const WEIGHT_COUNT: nat := 9

  /** A `struct` 'f' field: the four bytes of an IEEE 754 binary32 value, kept opaque. */
  type Word = w: seq<Byte> | |w| == 4 witness [0, 0, 0, 0]

  /** A Python float, as the eight bytes of its IEEE 754 binary64 value, kept opaque. */
  type Float = seq<Byte>

  /**
   * The float conversions, supplied by the caller: `float(text)` (None on ValueError),
   * packing as 'f' (None on OverflowError), unpacking 'f', and `str` formatting.
   */
  datatype FloatCodec = FloatCodec(
    parse: string -> Option<Float>,
    pack: Float -> Option<Word>,
    unpack: Word -> Float,
    show: Float -> string)

  /** The exceptions that end a conversion. */
  datatype ConvertError = ValueError | StructError | OverflowError | UnicodeError | JsonDecodeError

  /** The values handed to `struct.pack('<I9h1s16sfff1s', ...)`, the text fields already encoded. */
  datatype PackArgs = PackArgs(
    timestamp: int,
    weights: seq<int>,
    direction: seq<Byte>,
    name: seq<Byte>,
    value1: Word,
    value2: Word,
    value3: Word,
    state: seq<Byte>)

  predicate InI16(n: int) {
    -0x8000 <= n < 0x8000
  }

  predicate AllI16(ws: seq<int>) {
    forall i :: 0 <= i < |ws| ==> InI16(ws[i])
  }

  /** `struct.pack` accepts the values: the timestamp fits `I`, and there are nine weights that fit `h`. */
  predicate Packable(a: PackArgs) {
    0 <= a.timestamp < U32_LIMIT && |a.weights| == WEIGHT_COUNT && AllI16(a.weights)
  }

  function I16s(ws: seq<int>): (b: seq<Byte>)
    requires AllI16(ws)
    ensures |b| == 2 * |ws|
  {
    if ws == [] then [] else I16(ws[0]) + I16s(ws[1..])
  }

  function ReadI16s(b: seq<Byte>): (ws: seq<int>)
    requires |b| % 2 == 0
    ensures |ws| == |b| / 2 && AllI16(ws)
  {
    if b == [] then [] else [ReadI16(b[..2])] + ReadI16s(b[2..])
  }

  /** Weight `i` is the little-endian `h` at bytes `2i` and `2i + 1`. */
  lemma {:induction false} ReadI16sAt(b: seq<Byte>)
    requires |b| % 2 == 0
    ensures forall i :: 0 <= i < |b| / 2 ==> ReadI16s(b)[i] == ReadI16(b[2 * i..2 * i + 2])
  {
    if b != [] {
      ReadI16sAt(b[2..]);
      forall i | 1 <= i < |b| / 2
        ensures ReadI16s(b)[i] == ReadI16(b[2 * i..2 * i + 2])
      {
        var j := 2 * (i - 1);
        assert j + 4 <= |b|;
        var x, y := b[2..][j..j + 2], b[j + 2..j + 4];
        assert |x| == |y| == 2 && x[0] == y[0] && x[1] == y[1];
        assert x == y;
      }
    }
  }

  lemma {:induction false} I16sRoundTrip(ws: seq<int>)
    requires AllI16(ws)
    ensures ReadI16s(I16s(ws)) == ws
  {
    if ws != [] {
      I16sRoundTrip(ws[1..]);
      I16RoundTrip(ws[0]);
      var b := I16s(ws);
      assert b[..2] == I16(ws[0]) && b[2..] == I16s(ws[1..]);
    }
  }

  /** `struct.pack('<I9h1s16sfff1s', ...)`; struct.error when a value does not fit or the count is not nine. */
  function Pack(a: PackArgs): (r: Result<seq<Byte>, ConvertError>)
    ensures r.Ok? <==> Packable(a)
    ensures r.Ok? ==> |r.value| == RECORD_SIZE
  {
    if !Packable(a) then Err(StructError)
    else
      Ok(U32(a.timestamp) + I16s(a.weights) + FixedField(a.direction, 1) + FixedField(a.name, NAME_WIDTH)
         + a.value1 + a.value2 + a.value3 + FixedField(a.state, 1))
  }

  /** Where each field sits in a packed record. */
  lemma PackLayout(a: PackArgs)
    requires Packable(a)
    ensures var b := Pack(a).value;
      && b[..4] == U32(a.timestamp) && b[4..22] == I16s(a.weights)
      && b[22..23] == FixedField(a.direction, 1) && b[23..39] == FixedField(a.name, NAME_WIDTH)
      && b[39..43] == a.value1 && b[43..47] == a.value2 && b[47..51] == a.value3
      && b[51..52] == FixedField(a.state, 1)
  {
    var b := Pack(a).value;
    var p1 := U32(a.timestamp) + I16s(a.weights);
    var p2 := p1 + FixedField(a.direction, 1);
    var p3 := p2 + FixedField(a.name, NAME_WIDTH);
    var p4 := p3 + a.value1;
    var p5 := p4 + a.value2;
    var p6 := p5 + a.value3;
    assert b == p6 + FixedField(a.state, 1);
    assert b[..51] == p6 && p6[..47] == p5 && p5[..43] == p4 && p4[..39] == p3 && p3[..23] == p2 && p2[..22] == p1;
  }

  /** A 52-byte chunk as the readers see it. */
  datatype Decoded = Decoded(
    timestamp: nat,
    weights: seq<int>,
    direction: string,
    name: string,
    value1: Word,
    value2: Word,
    value3: Word,
    state: string)

  /** `b.split(b'\x00', 1)[0]`: the bytes before the first NUL. */
  function BeforeNul(b: seq<Byte>): (r: seq<Byte>)
    ensures |r| <= |b| && r == b[..|r|] && 0 !in r
    ensures |r| < |b| ==> b[|r|] == 0
  {
    if b == [] || b[0] == 0 then []
    else
      var rest := BeforeNul(b[1..]);
      assert b[1..][..|rest|] == b[1..|rest| + 1];
      [b[0]] + rest
  }

  /**
   * The decoding the three readers share: `<I`, `<9h`, the direction byte, the name cut at
   * its first NUL, three `f` words and the state byte; UnicodeDecodeError where a text
   * field is not ASCII.
   */
  function Unpack(chunk: seq<Byte>): (r: Result<Decoded, ConvertError>)
    requires |chunk| == RECORD_SIZE
    ensures r.Ok? ==> |r.value.weights| == WEIGHT_COUNT && 0 <= r.value.timestamp < U32_LIMIT
    ensures r.Ok? ==> |r.value.direction| == 1 && |r.value.state| == 1 && |r.value.name| <= NAME_WIDTH
  {
    var direction :- Utf8DecodeAscii(chunk[22..23]).ToResult(UnicodeError);
    var name :- Utf8DecodeAscii(BeforeNul(chunk[23..39])).ToResult(UnicodeError);
    var state :- Utf8DecodeAscii(chunk[51..52]).ToResult(UnicodeError);
    Ok(Decoded(ReadU32(chunk[..4]), ReadI16s(chunk[4..22]), direction, name,
               chunk[39..43], chunk[43..47], chunk[47..51], state))
  }

  /** The first `n` characters of `s`, or all of it. */
  function Take(s: string, n: nat): (r: string)
    ensures |r| <= n
  {
    if |s| <= n then s else s[..n]
  }

  /** A NUL-free field padded or cut to `w` bytes reads back, up to its first NUL, as its first `w` bytes. */
  lemma BeforeNulField(e: seq<Byte>, w: nat)
    requires 0 !in e
    ensures BeforeNul(FixedField(e, w)) == if |e| <= w then e else e[..w]
  {
    var f := FixedField(e, w);
    var k := if |e| <= w then |e| else w;
    assert f[..k] == e[..k];
    BeforeNulAt(f, k);
    assert e[..|e|] == e;
  }

  /** The bytes before the first NUL, when the first NUL (if any) is at `k`. */
  lemma {:induction false} BeforeNulAt(b: seq<Byte>, k: nat)
    requires k <= |b| && (forall i :: 0 <= i < k ==> b[i] != 0) && (k < |b| ==> b[k] == 0)
    ensures BeforeNul(b) == b[..k]
  {
    if k > 0 {
      BeforeNulAt(b[1..], k - 1);
      assert [b[0]] + b[1..][..k - 1] == b[..k];
    }
  }

  /** ASCII text without NUL encodes to bytes without NUL. */
  lemma AsciiNoNul(s: string)
    requires IsAscii(s) && '\0' !in s
    ensures 0 !in Utf8Encode(s)
  {
    AsciiEncode(s);
    var e := Utf8Encode(s);
    assert forall i :: 0 <= i < |e| ==> e[i] == s[i] as int && s[i] != '\0';
  }

  /** The text fields of an encoded record read back: the name cut to 16 characters. */
  lemma TextFieldsRoundTrip(dir: string, name: string, state: string)
    requires IsAscii(dir) && |dir| == 1 && IsAscii(state) && |state| == 1
    requires IsAscii(name) && '\0' !in name
    ensures Utf8DecodeAscii(FixedField(Utf8Encode(dir), 1)) == Some(dir)
    ensures Utf8DecodeAscii(FixedField(Utf8Encode(state), 1)) == Some(state)
    ensures Utf8DecodeAscii(BeforeNul(FixedField(Utf8Encode(name), NAME_WIDTH))) == Some(Take(name, NAME_WIDTH))
  {
    AsciiEncode(dir);
    AsciiEncode(state);
    AsciiEncode(name);
    assert FixedField(Utf8Encode(dir), 1) == Utf8Encode(dir);
    assert FixedField(Utf8Encode(state), 1) == Utf8Encode(state);
    AsciiRoundTrip(dir);
    AsciiRoundTrip(state);
    AsciiNoNul(name);
    BeforeNulField(Utf8Encode(name), NAME_WIDTH);
    var t := Take(name, NAME_WIDTH);
    assert IsAscii(t);
    assert Utf8Encode(t) == if |Utf8Encode(name)| <= NAME_WIDTH then Utf8Encode(name) else Utf8Encode(name)[..NAME_WIDTH] by {
      AsciiEncode(t);
    }
    AsciiRoundTrip(t);
  }

  /** `Unpack` on a chunk whose text fields are known to decode. */
  lemma UnpackOk(chunk: seq<Byte>, dir: string, name: string, state: string)
    requires |chunk| == RECORD_SIZE
    requires Utf8DecodeAscii(chunk[22..23]) == Some(dir)
    requires Utf8DecodeAscii(BeforeNul(chunk[23..39])) == Some(name)
    requires Utf8DecodeAscii(chunk[51..52]) == Some(state)
    ensures Unpack(chunk) == Ok(Decoded(ReadU32(chunk[..4]), ReadI16s(chunk[4..22]), dir, name,
                                        chunk[39..43], chunk[43..47], chunk[47..51], state))
  {
  }

  /**
   * Reading back a packed record recovers the timestamp, the weights, the three words, a
   * one-character direction and state, and the first 16 characters of a NUL-free name.
   */
  lemma PackUnpack(a: PackArgs, dir: string, name: string, state: string)
    requires Packable(a)
    requires a.direction == Utf8Encode(dir) && a.name == Utf8Encode(name) && a.state == Utf8Encode(state)
    requires IsAscii(dir) && |dir| == 1 && IsAscii(state) && |state| == 1
    requires IsAscii(name) && '\0' !in name
    ensures Unpack(Pack(a).value) == Ok(Decoded(a.timestamp, a.weights, dir, Take(name, NAME_WIDTH),
                                                a.value1, a.value2, a.value3, state))
  {
    var b := Pack(a).value;
    PackLayout(a);
    TextFieldsRoundTrip(dir, name, state);
    UnpackOk(b, dir, Take(name, NAME_WIDTH), state);
    U32RoundTrip(a.timestamp);
    I16sRoundTrip(a.weights);
  }

  /** What one input entry turns into: nothing, one output item, or an exception that ends the loop. */
  datatype Step<T> = Skip | Emit(item: T) | Fail(error: ConvertError)

  /** Runs `step` over `xs` in order: the items emitted before the first exception, and that exception. */
  function Collect<X, T>(xs: seq<X>, step: X -> Step<T>): (r: (seq<T>, Option<ConvertError>))
    ensures |r.0| <= |xs|
  {
    if xs == [] then ([], None)
    else
      match step(xs[0])
      case Skip => Collect(xs[1..], step)
      case Emit(t) => var rest := Collect(xs[1..], step); ([t] + rest.0, rest.1)
      case Fail(e) => ([], Some(e))
  }

  function Prepend<T>(items: seq<T>, r: (seq<T>, Option<ConvertError>)): (seq<T>, Option<ConvertError>) {
    (items + r.0, r.1)
  }

  lemma CollectStep<X, T>(xs: seq<X>, step: X -> Step<T>, items: seq<T>, i: nat, t: T)
    requires i < |xs| && step(xs[i]) == Emit(t)
    ensures Prepend(items, Collect(xs[i..], step)) == Prepend(items + [t], Collect(xs[i + 1..], step))
  {
    assert xs[i..][1..] == xs[i + 1..];
    var rest := Collect(xs[i + 1..], step).0;
    assert items + ([t] + rest) == items + [t] + rest;
  }

  lemma CollectSkip<X, T>(xs: seq<X>, step: X -> Step<T>, i: nat)
    requires i < |xs| && step(xs[i]).Skip?
    ensures Collect(xs[i..], step) == Collect(xs[i + 1..], step)
  {
    assert xs[i..][1..] == xs[i + 1..];
  }

  /** The `for` loop over the entries: convert each in order, stop at the first exception. */
  method ForEach<X, T>(xs: seq<X>, step: X -> Step<T>) returns (items: seq<T>, err: Option<ConvertError>)
    ensures (items, err) == Collect(xs, step)
  {
    items, err := [], None;
    var i := 0;
    assert xs[0..] == xs && [] + Collect(xs, step).0 == Collect(xs, step).0;
    while i < |xs|
      invariant 0 <= i <= |xs|
      invariant Collect(xs, step) == Prepend(items, Collect(xs[i..], step))
    {
      match step(xs[i]) {
        case Skip =>
          CollectSkip(xs, step, i);
        case Emit(t) =>
          CollectStep(xs, step, items, i, t);
          items := items + [t];
        case Fail(e) =>
          assert items + [] == items;
          return items, Some(e);
      }
      i := i + 1;
    }
    assert items + [] == items;
  }

  /** `f` applied to every element, in order. */
  function MapSeq<T, U>(xs: seq<T>, f: T -> U): (ys: seq<U>)
    ensures |ys| == |xs| && forall i :: 0 <= i < |xs| ==> ys[i] == f(xs[i])
  {
    if xs == [] then [] else [f(xs[0])] + MapSeq(xs[1..], f)
  }

  lemma MapSeqSnoc<T, U>(xs: seq<T>, x: T, f: T -> U)
    ensures MapSeq(xs + [x], f) == MapSeq(xs, f) + [f(x)]
  {
  }

  /** A loop that writes `f` of each item, in order; nothing in it can raise. */
  method MapEach<T, U>(xs: seq<T>, f: T -> U) returns (ys: seq<U>)
    ensures ys == MapSeq(xs, f)
  {
    ys := [];
    for i := 0 to |xs|
      invariant ys == MapSeq(xs[..i], f)
    {
      MapSeqSnoc(xs[..i], xs[i], f);
      assert xs[..i + 1] == xs[..i] + [xs[i]];
      ys := ys + [f(xs[i])];
    }
    assert xs[..|xs|] == xs;
  }

  /** A step whose item is `f` of another step's item. */
  function MapStep<T, U>(s: Step<T>, f: T -> U): Step<U> {
    match s
    case Skip => Skip
    case Emit(t) => Emit(f(t))
    case Fail(e) => Fail(e)
  }

  /** A loop whose steps are another loop's mapped by `f` emits that loop's items mapped by `f`, and fails alike. */
  lemma {:induction false} CollectMap<X, T, U>(xs: seq<X>, s1: X -> Step<T>, s2: X -> Step<U>, f: T -> U)
    requires forall i :: 0 <= i < |xs| ==> s2(xs[i]) == MapStep(s1(xs[i]), f)
    ensures Collect(xs, s2) == (MapSeq(Collect(xs, s1).0, f), Collect(xs, s1).1)
  {
    if xs != [] {
      assert forall i :: 1 <= i < |xs| ==> xs[1..][i - 1] == xs[i];
      CollectMap(xs[1..], s1, s2, f);
    }
  }

  /** When nothing is skipped and nothing fails, the loop maps every entry, in order. */
  lemma {:induction false} CollectAll<X, T>(xs: seq<X>, step: X -> Step<T>)
    requires forall i :: 0 <= i < |xs| ==> step(xs[i]).Emit?
    ensures Collect(xs, step).1 == None
    ensures |Collect(xs, step).0| == |xs|
    ensures forall i :: 0 <= i < |xs| ==> Collect(xs, step).0[i] == step(xs[i]).item
  {
    if xs != [] {
      CollectAll(xs[1..], step);
      assert forall i :: 1 <= i < |xs| ==> xs[1..][i - 1] == xs[i];
    }
  }

  /** Every item emitted comes from some entry, and items keep the order of their entries. */
  lemma {:induction false} CollectFrom<X, T>(xs: seq<X>, step: X -> Step<T>)
    ensures exists idx: seq<nat> :: Ordered(xs, step, Collect(xs, step).0, idx)
  {
    if xs == [] || step(xs[0]).Fail? {
      assert Ordered(xs, step, Collect(xs, step).0, []);
    } else {
      CollectFrom(xs[1..], step);
      var rest := Collect(xs[1..], step).0;
      var idx :| Ordered(xs[1..], step, rest, idx);
      OrderedShift(xs, step, rest, idx);
      if step(xs[0]).Skip? {
        assert Collect(xs, step).0 == rest;
        assert Ordered(xs, step, Collect(xs, step).0, Shift(idx));
      } else {
        assert Collect(xs, step).0 == [step(xs[0]).item] + rest;
        assert Ordered(xs, step, Collect(xs, step).0, [0] + Shift(idx));
      }
    }
  }

  function Shift(idx: seq<nat>): (r: seq<nat>)
    ensures |r| == |idx| && forall k :: 0 <= k < |idx| ==> r[k] == idx[k] + 1
  {
    seq(|idx|, k requires 0 <= k < |idx| => idx[k] + 1)
  }

  /** Positions in the tail, shifted by one, are positions in the whole; an emitting head goes in front. */
  lemma OrderedShift<X, T>(xs: seq<X>, step: X -> Step<T>, rest: seq<T>, idx: seq<nat>)
    requires xs != [] && Ordered(xs[1..], step, rest, idx)
    ensures Ordered(xs, step, rest, Shift(idx))
    ensures step(xs[0]).Emit? ==> Ordered(xs, step, [step(xs[0]).item] + rest, [0] + Shift(idx))
  {
    var shifted := Shift(idx);
    forall k | 0 <= k < |idx|
      ensures shifted[k] < |xs| && step(xs[shifted[k]]) == Emit(rest[k])
    {
      assert xs[shifted[k]] == xs[1..][idx[k]];
    }
    if step(xs[0]).Emit? {
      var items := [step(xs[0]).item] + rest;
      var idx' := [0] + shifted;
      forall k | 1 <= k < |idx'|
        ensures idx'[k] < |xs| && step(xs[idx'[k]]) == Emit(items[k])
      {
        assert idx'[k] == shifted[k - 1] && items[k] == rest[k - 1];
      }
    }
  }

  /** `items[k]` is what entry `idx[k]` emitted, with the positions strictly increasing. */
  ghost predicate Ordered<X, T>(xs: seq<X>, step: X -> Step<T>, items: seq<T>, idx: seq<nat>) {
    && |idx| == |items|
    && (forall k :: 0 <= k < |idx| ==> idx[k] < |xs| && step(xs[idx[k]]) == Emit(items[k]))
    && (forall k, l :: 0 <= k < l < |idx| ==> idx[k] < idx[l])
  }

  /** The output file: the written pieces one after the other. */
  function Concat<T>(pieces: seq<seq<T>>): seq<T> {
    if pieces == [] then [] else pieces[0] + Concat(pieces[1..])
  }

  lemma {:induction false} ConcatLength<T>(pieces: seq<seq<T>>, n: nat)
    requires forall i :: 0 <= i < |pieces| ==> |pieces[i]| == n
    ensures |Concat(pieces)| == n * |pieces|
  {
    if pieces != [] {
      ConcatLength(pieces[1..], n);
    }
  }

  /** A full 52-byte chunk of a binary log. */
  type Chunk = c: seq<Byte> | |c| == RECORD_SIZE witness Zeros(RECORD_SIZE)

  /** `f.read(52)` until a read comes back short: the full chunks, a trailing partial one ignored. */
  function Chunks(data: seq<Byte>): (cs: seq<Chunk>)
    ensures |cs| == |data| / RECORD_SIZE
    ensures forall k :: 0 <= k < |cs| ==> cs[k] == data[RECORD_SIZE * k..RECORD_SIZE * (k + 1)]
  {
    if |data| < RECORD_SIZE then []
    else
      var rest := Chunks(data[RECORD_SIZE..]);
      assert forall k :: 0 <= k < |rest| ==>
        data[RECORD_SIZE..][RECORD_SIZE * k..RECORD_SIZE * (k + 1)] == data[RECORD_SIZE * (k + 1)..RECORD_SIZE * (k + 2)];
      [data[..RECORD_SIZE]] + rest
  }

  /** The `while True` loop of the readers: one chunk per turn, until a short read or an exception. */
  method ForEachChunk<T>(data: seq<Byte>, step: Chunk -> Step<T>) returns (items: seq<T>, err: Option<ConvertError>)
    ensures (items, err) == Collect(Chunks(data), step)
  {
    items, err := [], None;
    var pos := 0;
    assert data[0..] == data && [] + Collect(Chunks(data), step).0 == Collect(Chunks(data), step).0;
    while true
      invariant 0 <= pos <= |data|
      invariant Collect(Chunks(data), step) == Prepend(items, Collect(Chunks(data[pos..]), step))
      decreases |data| - pos
    {
      var chunk := data[pos..if pos + RECORD_SIZE <= |data| then pos + RECORD_SIZE else |data|];
      if |chunk| < RECORD_SIZE {
        break;
      }
      var rest := data[pos..];
      assert Chunks(rest) == [chunk] + Chunks(data[pos + RECORD_SIZE..]) by {
        assert rest[RECORD_SIZE..] == data[pos + RECORD_SIZE..] && rest[..RECORD_SIZE] == chunk;
      }
      CollectChunk(Chunks(rest), step, items);
      match step(chunk) {
        case Skip =>
        case Emit(t) =>
          items := items + [t];
        case Fail(e) =>
          return items, Some(e);
      }
      pos := pos + RECORD_SIZE;
    }
    assert Chunks(data[pos..]) == [];
    assert items + [] == items;
  }

  lemma CollectChunk<T>(cs: seq<Chunk>, step: Chunk -> Step<T>, items: seq<T>)
    requires cs != []
    ensures step(cs[0]).Skip? ==> Prepend(items, Collect(cs, step)) == Prepend(items, Collect(cs[1..], step))
    ensures step(cs[0]).Emit? ==> Prepend(items, Collect(cs, step)) == Prepend(items + [step(cs[0]).item], Collect(cs[1..], step))
    ensures step(cs[0]).Fail? ==> Prepend(items, Collect(cs, step)) == (items, Some(step(cs[0]).error))
  {
    assert items + [] == items;
    var rest := Collect(cs[1..], step).0;
    assert step(cs[0]).Emit? ==> items + ([step(cs[0]).item] + rest) == items + [step(cs[0]).item] + rest;
  }

  /** A chunk as `bin_to_json` stores it: the timestamp as decimal text, the words as floats. */
  datatype JsonRecord = JsonRecord(
    timestamp: string,
    weights: seq<int>,
    direction: string,
    name: string,
    value1: Float,
    value2: Float,
    value3: Float,
    state: string)

  /**
   * `struct.pack('<I9h1s16sfff1s', ts, *weights, direction.encode(), name, v1, v2, v3,
   * state)`, where `name` is the encoded name cut or NUL-padded to 16 bytes; `16s` does
   * that same cutting and padding, so the encoded name is passed as it is. struct.error
   * when a value does not fit its format, OverflowError when a float is too large for `f`.
   * A packed record reads back field by field as the values it was given.
   */
  function PackValues(codec: FloatCodec, ts: int, weights: seq<int>, direction: string, name: string,
                      v1: Float, v2: Float, v3: Float, state: seq<Byte>): (r: Result<seq<Byte>, ConvertError>)
    ensures r == Err(StructError) <==> !(0 <= ts < U32_LIMIT && |weights| == WEIGHT_COUNT && AllI16(weights))
    ensures r.Ok? <==> && 0 <= ts < U32_LIMIT && |weights| == WEIGHT_COUNT && AllI16(weights)
                       && codec.pack(v1).Some? && codec.pack(v2).Some? && codec.pack(v3).Some?
    ensures r.Ok? ==>
      && |r.value| == RECORD_SIZE
      && ReadU32(r.value[..4]) == ts && ReadI16s(r.value[4..22]) == weights
      && r.value[22..23] == FixedField(Utf8Encode(direction), 1)
      && r.value[23..39] == FixedField(Utf8Encode(name), NAME_WIDTH)
      && r.value[39..43] == codec.pack(v1).value && r.value[43..47] == codec.pack(v2).value
      && r.value[47..51] == codec.pack(v3).value
      && r.value[51..52] == FixedField(state, 1)
  {
    var a := PackArgs(ts, weights, Utf8Encode(direction), Utf8Encode(name), [0, 0, 0, 0], [0, 0, 0, 0], [0, 0, 0, 0], state);
    if !Packable(a) then Err(StructError)
    else
      var w1 :- codec.pack(v1).ToResult(OverflowError);
      var w2 :- codec.pack(v2).ToResult(OverflowError);
      var w3 :- codec.pack(v3).ToResult(OverflowError);
      var a' := a.(value1 := w1, value2 := w2, value3 := w3);
      PackLayout(a');
      U32RoundTrip(ts);
      I16sRoundTrip(weights);
      Pack(a')
  }

  /**
   * The conversion of a text line already split into at least seven tab-separated fields:
   * `int` of the first field without `_`, `ast.literal_eval` of the second (skipped unless
   * it holds nine weights), `float` of fields five to seven, then the packing. Any
   * exception ends the loop. A packed record carries the line's own values: the
   * timestamp, the nine weights, and the name cut or NUL-padded to 16 bytes.
   */
  function PackParts(codec: FloatCodec, parts: seq<string>, state: seq<Byte>): (s: Step<seq<Byte>>)
    requires |parts| >= 7
    ensures s.Skip? <==> && ParseInt(RemoveChar(parts[0], '_')).Some?
                         && ParseIntList(parts[1]).Some?
                         && |ParseIntList(parts[1]).value| != WEIGHT_COUNT
    ensures s.Emit? ==>
      && |s.item| == RECORD_SIZE
      && ParseInt(RemoveChar(parts[0], '_')) == Some(ReadU32(s.item[..4]))
      && ParseIntList(parts[1]) == Some(ReadI16s(s.item[4..22]))
      && s.item[22..23] == FixedField(Utf8Encode(parts[2]), 1)
      && s.item[23..39] == FixedField(Utf8Encode(parts[3]), NAME_WIDTH)
      && s.item[51..52] == FixedField(state, 1)
  {
    match ParseInt(RemoveChar(parts[0], '_'))
    case None => Fail(ValueError)
    case Some(ts) =>
      match ParseIntList(parts[1])
      case None => Fail(ValueError)
      case Some(weights) =>
        if |weights| != WEIGHT_COUNT then Skip
        else
          match ParseFloats(codec, parts[4], parts[5], parts[6])
          case None => Fail(ValueError)
          case Some(vs) =>
            match PackValues(codec, ts, weights, parts[2], parts[3], vs.0, vs.1, vs.2, state)
            case Err(e) => Fail(e)
            case Ok(b) => Emit(b)
  }

  /** `float()` of three texts: None where one of them raises ValueError. */
  function ParseFloats(codec: FloatCodec, t1: string, t2: string, t3: string): (r: Option<(Float, Float, Float)>)
    ensures r.Some? <==> codec.parse(t1).Some? && codec.parse(t2).Some? && codec.parse(t3).Some?
    ensures r.Some? ==> r.value == (codec.parse(t1).value, codec.parse(t2).value, codec.parse(t3).value)
  {
    var v1 :- codec.parse(t1);
    var v2 :- codec.parse(t2);
    var v3 :- codec.parse(t3);
    Some((v1, v2, v3))
  }

  /** The record `bin_to_json` builds for a decoded chunk. */
  function ToJson(codec: FloatCodec, d: Decoded): (r: JsonRecord)
    ensures ParseInt(r.timestamp) == Some(d.timestamp)
    ensures r.weights == d.weights && r.direction == d.direction && r.name == d.name && r.state == d.state
  {
    IntToStringParses(d.timestamp);
    JsonRecord(NatToString(d.timestamp), d.weights, d.direction, d.name,
               codec.unpack(d.value1), codec.unpack(d.value2), codec.unpack(d.value3), d.state)
  }

  /** One turn of the chunk loop of `bin_to_json`: decode, or end with UnicodeDecodeError. */
  function ChunkToJson(codec: FloatCodec, chunk: Chunk): Step<JsonRecord> {
    match Unpack(chunk)
    case Err(e) => Fail(e)
    case Ok(d) => Emit(ToJson(codec, d))
  }

  function ChunkToJsonSteps(codec: FloatCodec): Chunk -> Step<JsonRecord> {
    (chunk: Chunk) => ChunkToJson(codec, chunk)
  }

  /** The chunks of records written one after the other are those records. */
  lemma {:induction false} ChunksConcat(items: seq<seq<Byte>>)
    requires forall i :: 0 <= i < |items| ==> |items[i]| == RECORD_SIZE
    ensures Chunks(Concat(items)) == items
  {
    if items != [] {
      ChunksConcat(items[1..]);
      var c := Concat(items);
      assert c == items[0] + Concat(items[1..]);
      assert c[..RECORD_SIZE] == items[0];
      assert c[RECORD_SIZE..] == Concat(items[1..]);
    }
  }

  /** Bytes after the last full chunk are never read. */
  lemma {:induction false} ChunksIgnoreTail(data: seq<Byte>, tail: seq<Byte>)
    requires |data| % RECORD_SIZE == 0 && |tail| < RECORD_SIZE
    ensures Chunks(data + tail) == Chunks(data)
  {
    if |data| > 0 {
      ChunksIgnoreTail(data[RECORD_SIZE..], tail);
      assert (data + tail)[RECORD_SIZE..] == data[RECORD_SIZE..] + tail;
      assert (data + tail)[..RECORD_SIZE] == data[..RECORD_SIZE];
    }
  }
}
