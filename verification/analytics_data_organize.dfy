/**
 * `analytics_data_organize.py`: reads frame files one after another, keeps the sensor
 * readings of the frames whose load pattern matches the selected positions, queues them
 * per location and file, and records, per queue and per total weight, the distance seen
 * most often.
 */
module AnalyticsDataOrganize {
  import opened Wrappers
  import opened PyText
  import opened DataInfo
  import opened PyList

  /** The constructor's `loc`: one position or a list of positions. */
  datatype LocArg = One(index: int) | Many(indices: seq<int>)

  /** A frame as `data_select` reads it: the experiment's weights and the sensor records. */
  datatype ExperimentFrame = ExperimentFrame(weights: seq<int>, sensors: seq<Sensor>)

  /** The IndexError `weight[i]` raises for a position outside the weights. */
  datatype IndexError = IndexError

  /** A queued reading: (total weight, distance). */
  type Pair = (int, int)

  /** `weights[i]`, negative positions counting from the end; None where Python raises IndexError. */
  function At(ws: seq<int>, i: int): Option<int> {
    if 0 <= i < |ws| then Some(ws[i])
    else if -|ws| <= i < 0 then Some(ws[|ws| + i])
    else None
  }

  /** A position whose weight exists and is not zero. */
  predicate Loaded(ws: seq<int>, i: int) {
    At(ws, i).Some? && At(ws, i).value != 0
  }

  /** `all(weight[i] != 0 for i in loc)`: the generator stops at the first zero weight. */
  function AllLoaded(ws: seq<int>, loc: seq<int>): Result<bool, IndexError> {
    if loc == [] then Ok(true)
    else match At(ws, loc[0])
      case None => Err(IndexError)
      case Some(w) => if w == 0 then Ok(false) else AllLoaded(ws, loc[1..])
  }

  /** The filter of `data_select`: `sum(weight) == 0 or all(...)`, short-circuited. */
  function Keep(ws: seq<int>, loc: seq<int>): Result<bool, IndexError> {
    if Sum(ws) == 0 then Ok(true) else AllLoaded(ws, loc)
  }

  /**
   * A reading is kept exactly when the frame carries no weight or every selected position
   * is loaded; the filter fails exactly when, before any unloaded position, it meets one
   * outside the weights.
   */
  lemma KeepMeaning(ws: seq<int>, loc: seq<int>)
    ensures Keep(ws, loc) == Ok(true) <==> Sum(ws) == 0 || forall j :: 0 <= j < |loc| ==> Loaded(ws, loc[j])
    ensures Keep(ws, loc).Err? <==>
      && Sum(ws) != 0
      && exists j :: 0 <= j < |loc| && At(ws, loc[j]).None? && forall i :: 0 <= i < j ==> Loaded(ws, loc[i])
  {
    if Sum(ws) != 0 {
      AllLoadedMeaning(ws, loc);
    }
  }

  lemma {:induction false} AllLoadedMeaning(ws: seq<int>, loc: seq<int>)
    ensures AllLoaded(ws, loc) == Ok(true) <==> forall j :: 0 <= j < |loc| ==> Loaded(ws, loc[j])
    ensures AllLoaded(ws, loc).Err? <==>
      exists j :: 0 <= j < |loc| && At(ws, loc[j]).None? && forall i :: 0 <= i < j ==> Loaded(ws, loc[i])
    decreases |loc|
  {
    if loc != [] {
      AllLoadedMeaning(ws, loc[1..]);
      if AllLoaded(ws, loc).Err? && At(ws, loc[0]).Some? {
        var j :| 0 <= j < |loc| - 1 && At(ws, loc[1..][j]).None? && forall i :: 0 <= i < j ==> Loaded(ws, loc[1..][i]);
        assert forall i :: 0 <= i < j + 1 ==> Loaded(ws, loc[i]) by {
          forall i | 0 <= i < j + 1 ensures Loaded(ws, loc[i]) {
            if i > 0 {
              assert loc[i] == loc[1..][i - 1];
            }
          }
        }
      }
      if exists j :: 0 <= j < |loc| && At(ws, loc[j]).None? && forall i :: 0 <= i < j ==> Loaded(ws, loc[i]) {
        var j :| 0 <= j < |loc| && At(ws, loc[j]).None? && forall i :: 0 <= i < j ==> Loaded(ws, loc[i]);
        if j > 0 {
          assert loc[1..][j - 1] == loc[j];
          assert forall i :: 0 <= i < j - 1 ==> Loaded(ws, loc[1..][i]) by {
            forall i | 0 <= i < j - 1 ensures Loaded(ws, loc[1..][i]) {
              assert loc[1..][i] == loc[i + 1];
            }
          }
        }
      }
      if forall j :: 0 <= j < |loc| ==> Loaded(ws, loc[j]) {
        assert forall j :: 0 <= j < |loc| - 1 ==> Loaded(ws, loc[1..][j]) by {
          forall j | 0 <= j < |loc| - 1 ensures Loaded(ws, loc[1..][j]) {
            assert loc[1..][j] == loc[j + 1];
          }
        }
      }
    }
  }

  /** The `buffer_name` of `group_by_port`: the location name, `_`, and the file count. */
  function Key(location: string, count: int): string {
    location + "_" + IntToString(count)
  }

  /** `str(n)` has no `_`. */
  lemma IntToStringNoUnderscore(n: int)
    ensures '_' !in IntToString(n)
  {
    var d := NatToString(if n < 0 then -n else n);
    assert forall i :: 0 <= i < |d| ==> IsDigit(d[i]);
    if n < 0 {
      assert IntToString(n) == "-" + d;
    }
  }

  /**
   * The file count follows the last `_` of a queue name, so two queue names are equal only
   * for the same location and the same file: files never share a queue.
   */
  lemma KeyInjective(a: string, n: int, b: string, m: int)
    requires Key(a, n) == Key(b, m)
    ensures a == b && n == m
  {
    var s, t := IntToString(n), IntToString(m);
    IntToStringNoUnderscore(n);
    IntToStringNoUnderscore(m);
    SuffixNotLonger(a, s, b, t);
    SuffixNotLonger(b, t, a, s);
    var k := Key(a, n);
    assert s == k[|k| - |s|..] == t;
    assert a == k[..|a|] == b;
    IntToStringStripped(n);
    IntToStringStripped(m);
  }

  /** In `a_s == b_t` with no `_` in `t`, the `_` before `s` cannot fall inside `t`. */
  lemma SuffixNotLonger(a: string, s: string, b: string, t: string)
    requires '_' !in t && a + "_" + s == b + "_" + t
    ensures |t| <= |s|
  {
    var k := a + "_" + s;
    forall i | |b| < i < |k| ensures k[i] != '_' {
      assert k[i] == (b + "_" + t)[i] == t[i - |b| - 1];
    }
    assert k[|a|] == '_';
  }

  /** The queue under `key`, empty when there is none. */
  function QueueAt(buf: map<string, seq<Pair>>, key: string): seq<Pair> {
    if key in buf then buf[key] else []
  }

  /** `group_by_port`'s `put`: the pair joins the back of its queue, created when missing. */
  function Put(buf: map<string, seq<Pair>>, key: string, p: Pair): map<string, seq<Pair>> {
    buf[key := QueueAt(buf, key) + [p]]
  }

  /** The queued entries, one after another. */
  function PutAll(buf: map<string, seq<Pair>>, es: seq<(string, Pair)>): map<string, seq<Pair>> {
    if es == [] then buf else Put(PutAll(buf, es[..|es| - 1]), es[|es| - 1].0, es[|es| - 1].1)
  }

  /** The pairs of the entries for `key`, in order. */
  function PairsFor(es: seq<(string, Pair)>, key: string): seq<Pair> {
    if es == [] then []
    else PairsFor(es[..|es| - 1], key) + (if es[|es| - 1].0 == key then [es[|es| - 1].1] else [])
  }

  /** Each queue is FIFO: it holds what it held, then the new pairs for it in arrival order. */
  lemma PutAllQueues(buf: map<string, seq<Pair>>, es: seq<(string, Pair)>, key: string)
    ensures QueueAt(PutAll(buf, es), key) == QueueAt(buf, key) + PairsFor(es, key)
    ensures key in PutAll(buf, es) <==> key in buf || exists i :: 0 <= i < |es| && es[i].0 == key
  {
    PutAllQueue(buf, es, key);
    PutAllKeys(buf, es, key);
  }

  lemma {:induction false} PutAllQueue(buf: map<string, seq<Pair>>, es: seq<(string, Pair)>, key: string)
    ensures QueueAt(PutAll(buf, es), key) == QueueAt(buf, key) + PairsFor(es, key)
  {
    if es != [] {
      var init := es[..|es| - 1];
      PutAllQueue(buf, init, key);
      assert QueueAt(buf, key) + PairsFor(init, key) + (if es[|es| - 1].0 == key then [es[|es| - 1].1] else [])
        == QueueAt(buf, key) + (PairsFor(init, key) + (if es[|es| - 1].0 == key then [es[|es| - 1].1] else []));
    }
  }

  lemma {:induction false} PutAllKeys(buf: map<string, seq<Pair>>, es: seq<(string, Pair)>, key: string)
    ensures key in PutAll(buf, es) <==> key in buf || exists i :: 0 <= i < |es| && es[i].0 == key
  {
    if es != [] {
      var init := es[..|es| - 1];
      PutAllKeys(buf, init, key);
      if exists i :: 0 <= i < |es| && es[i].0 == key {
        var i :| 0 <= i < |es| && es[i].0 == key;
        if i < |es| - 1 {
          assert init[i].0 == key;
        }
      }
      if exists i :: 0 <= i < |init| && init[i].0 == key {
        var i :| 0 <= i < |init| && init[i].0 == key;
        assert es[i].0 == key;
      }
    }
  }

  lemma {:induction false} PutAllAppend(buf: map<string, seq<Pair>>, a: seq<(string, Pair)>, b: seq<(string, Pair)>)
    ensures PutAll(buf, a + b) == PutAll(PutAll(buf, a), b)
    decreases |b|
  {
    if b != [] {
      assert (a + b)[..|a + b| - 1] == a + b[..|b| - 1];
      PutAllAppend(buf, a, b[..|b| - 1]);
    } else {
      assert a + b == a;
    }
  }

  /** The pair a sensor reading is queued as, with the name of its queue. */
  function Entry(s: Sensor, total: int, count: int): (string, Pair) {
    (Key(s.fields.location.Name(), count), (total, s.fields.distance))
  }

  /** The entries a kept frame queues: one per sensor, in order, under the sensor's location. */
  function Entries(ss: seq<Sensor>, total: int, count: int): (es: seq<(string, Pair)>)
    ensures |es| == |ss|
    ensures forall i :: 0 <= i < |ss| ==>
      es[i] == Entry(ss[i], total, count)
  {
    if ss == [] then []
    else
      var s := ss[|ss| - 1];
      Entries(ss[..|ss| - 1], total, count) + [Entry(s, total, count)]
  }

  /** What `data_select` queues for one frame, or the IndexError its filter raises. */
  function FrameEntries(f: ExperimentFrame, loc: seq<int>, count: int): Result<seq<(string, Pair)>, IndexError> {
    if f.sensors == [] then Ok([])
    else match Keep(f.weights, loc)
      case Err(e) => Err(e)
      case Ok(keep) => Ok(if keep then Entries(f.sensors, Sum(f.weights), count) else [])
  }

  /** What `data_select` queues for a file's frames, in order, or the first IndexError. */
  function FramesEntries(fs: seq<ExperimentFrame>, loc: seq<int>, count: int): Result<seq<(string, Pair)>, IndexError> {
    if fs == [] then Ok([])
    else match FramesEntries(fs[..|fs| - 1], loc, count)
      case Err(e) => Err(e)
      case Ok(es) =>
        match FrameEntries(fs[|fs| - 1], loc, count)
        case Err(e) => Err(e)
        case Ok(more) => Ok(es + more)
  }

  /** Every queue name a file produces ends in that file's count. */
  lemma {:induction false} FramesEntriesKeys(fs: seq<ExperimentFrame>, loc: seq<int>, count: int)
    requires FramesEntries(fs, loc, count).Ok?
    ensures forall e :: e in FramesEntries(fs, loc, count).value ==> exists l :: e.0 == Key(l, count)
  {
    if fs != [] {
      FramesEntriesKeys(fs[..|fs| - 1], loc, count);
      var f := fs[|fs| - 1];
      if f.sensors != [] && Keep(f.weights, loc) == Ok(true) {
        var es := Entries(f.sensors, Sum(f.weights), count);
        forall e | e in es ensures exists l :: e.0 == Key(l, count) {
          var i :| 0 <= i < |es| && es[i] == e;
          assert e.0 == Key(f.sensors[i].fields.location.Name(), count);
        }
      }
    }
  }

  /** The distances recorded with weight `w`, in queue order. */
  function ValuesOf(q: seq<Pair>, w: int): seq<int> {
    if q == [] then []
    else ValuesOf(q[..|q| - 1], w) + (if q[|q| - 1].0 == w then [q[|q| - 1].1] else [])
  }

  /** `data[loc]` after draining one queue: each pair's distance appended under its weight. */
  function Group(q: seq<Pair>): (g: map<int, seq<int>>)
    ensures forall w :: w in g ==> |g[w]| > 0
    ensures q != [] ==> q[|q| - 1].0 in g
    ensures q == [] ==> g == map[]
  {
    if q == [] then map[] else Appended(Group(q[..|q| - 1]), q[|q| - 1].0, q[|q| - 1].1)
  }

  /**
   * Per weight, `data[loc]` lists exactly the distances recorded with that weight, in
   * queue order, and it has an entry exactly for the weights the queue holds.
   */
  lemma {:induction false} GroupValues(q: seq<Pair>, w: int)
    ensures w in Group(q) <==> exists i :: 0 <= i < |q| && q[i].0 == w
    ensures (if w in Group(q) then Group(q)[w] else []) == ValuesOf(q, w)
  {
    if q != [] {
      var init := q[..|q| - 1];
      GroupValues(init, w);
      if exists i :: 0 <= i < |init| && init[i].0 == w {
        var i :| 0 <= i < |init| && init[i].0 == w;
        assert q[i].0 == w;
      }
      if exists i :: 0 <= i < |q| - 1 && q[i].0 == w {
        var i :| 0 <= i < |q| - 1 && q[i].0 == w;
        assert init[i].0 == w;
      }
    }
  }

  /** Draining one more pair appends its distance to its weight's list. */
  lemma GroupSnoc(q: seq<Pair>, p: Pair)
    ensures Group(q + [p]) == Appended(Group(q), p.0, p.1)
  {
    assert (q + [p])[..|q|] == q;
  }

  /** `data[loc][weight].append(value)`, the list created when missing. */
  function Appended(g: map<int, seq<int>>, w: int, v: int): map<int, seq<int>> {
    g[w := (if w in g then g[w] else []) + [v]]
  }

  /** How often `x` occurs. */
  function Count(vs: seq<int>, x: int): nat {
    multiset(vs)[x]
  }

  /** The position of the first `x`. */
  function FirstIndex(vs: seq<int>, x: int): (i: nat)
    requires x in vs
    ensures i < |vs| && vs[i] == x && forall j :: 0 <= j < i ==> vs[j] != x
  {
    if vs[0] == x then 0 else 1 + FirstIndex(vs[1..], x)
  }

  /**
   * The scan `Counter(values).most_common(1)` performs: the counter lists the values in
   * order of first appearance and `max` keeps the first one with the highest count.
   */
  function Leader(vs: seq<int>, i: nat, best: int): (r: int)
    requires i <= |vs| && best in vs
    ensures r in vs
    decreases |vs| - i
  {
    if i == |vs| then best
    else Leader(vs, i + 1, if Count(vs, vs[i]) > Count(vs, best) then vs[i] else best)
  }

  /** `Counter(values).most_common(1)[0][0]`. */
  function MostCommon(vs: seq<int>): (r: int)
    requires |vs| > 0
    ensures r in vs
  {
    Leader(vs, 1, vs[0])
  }

  /** No value is more frequent than the leader, and an equally frequent one appears later. */
  predicate IsMode(vs: seq<int>, m: int) {
    && m in vs
    && (forall x :: x in vs ==> Count(vs, x) <= Count(vs, m))
    && (forall x :: x in vs && Count(vs, x) == Count(vs, m) ==> FirstIndex(vs, m) <= FirstIndex(vs, x))
  }

  lemma {:induction false} LeaderIsMode(vs: seq<int>, i: nat, best: int)
    requires 1 <= i <= |vs| && best in vs[..i]
    requires forall j :: 0 <= j < i ==> Count(vs, vs[j]) <= Count(vs, best)
    requires forall j :: 0 <= j < i && Count(vs, vs[j]) == Count(vs, best) ==> FirstIndex(vs, best) <= j
    ensures IsMode(vs, Leader(vs, i, best))
    decreases |vs| - i
  {
    if i == |vs| {
      ScannedIsMode(vs, best);
    } else {
      LeaderStep(vs, i, best);
      LeaderIsMode(vs, i + 1, if Count(vs, vs[i]) > Count(vs, best) then vs[i] else best);
    }
  }

  /** A value that beats, or ties and precedes, every value of the whole list is its mode. */
  lemma ScannedIsMode(vs: seq<int>, best: int)
    requires best in vs
    requires forall j :: 0 <= j < |vs| ==> Count(vs, vs[j]) <= Count(vs, best)
    requires forall j :: 0 <= j < |vs| && Count(vs, vs[j]) == Count(vs, best) ==> FirstIndex(vs, best) <= j
    ensures IsMode(vs, best)
  {
    forall x | x in vs && Count(vs, x) == Count(vs, best) ensures FirstIndex(vs, best) <= FirstIndex(vs, x) {
      var j := FirstIndex(vs, x);
    }
    forall x | x in vs ensures Count(vs, x) <= Count(vs, best) {
      var j := FirstIndex(vs, x);
    }
  }

  /** One more turn of the scan keeps the leader ahead of every value seen so far. */
  lemma LeaderStep(vs: seq<int>, i: nat, best: int)
    requires 1 <= i < |vs| && best in vs[..i]
    requires forall j :: 0 <= j < i ==> Count(vs, vs[j]) <= Count(vs, best)
    requires forall j :: 0 <= j < i && Count(vs, vs[j]) == Count(vs, best) ==> FirstIndex(vs, best) <= j
    ensures var next := if Count(vs, vs[i]) > Count(vs, best) then vs[i] else best;
      && next in vs[..i + 1]
      && (forall j :: 0 <= j < i + 1 ==> Count(vs, vs[j]) <= Count(vs, next))
      && (forall j :: 0 <= j < i + 1 && Count(vs, vs[j]) == Count(vs, next) ==> FirstIndex(vs, next) <= j)
  {
    assert vs[..i + 1] == vs[..i] + [vs[i]];
    if Count(vs, vs[i]) <= Count(vs, best) {
      assert FirstIndex(vs, best) < i by {
        var j :| 0 <= j < i && vs[j] == best;
      }
    }
  }

  /**
   * `total_common[key][w]` is a distance of maximal frequency among those recorded with
   * weight `w`, the earliest recorded one on ties, and it is the only such distance.
   */
  lemma MostCommonIsMode(vs: seq<int>)
    requires |vs| > 0
    ensures IsMode(vs, MostCommon(vs))
    ensures forall m :: IsMode(vs, m) ==> m == MostCommon(vs)
  {
    LeaderIsMode(vs, 1, vs[0]);
    forall m | IsMode(vs, m) ensures m == MostCommon(vs) {
      var r := MostCommon(vs);
      assert FirstIndex(vs, r) == FirstIndex(vs, m);
    }
  }

  /** The modes of one drained queue: `total_common[loc]`. */
  function Modes(g: map<int, seq<int>>): map<int, int>
    requires forall w :: w in g ==> |g[w]| > 0
  {
    map w | w in g :: MostCommon(g[w])
  }

  /** The queues of a file that hold something, drained and grouped: `data` in `find_mode`. */
  function Grouped(buf: map<string, seq<Pair>>, keys: set<string>): map<string, map<int, seq<int>>> {
    map k | k in keys && k in buf && buf[k] != [] :: Group(buf[k])
  }

  /** The modes of the grouped queues named in `keys`. */
  function DataModes(data: map<string, map<int, seq<int>>>, keys: set<string>): map<string, map<int, int>>
    requires forall k, w :: k in data && w in data[k] ==> |data[k][w]| > 0
  {
    map k | k in keys && k in data :: Modes(data[k])
  }

  /** What `find_mode` adds to `total_common` for a file's queues. */
  function FileModes(buf: map<string, seq<Pair>>): map<string, map<int, int>> {
    map k | k in buf && buf[k] != [] :: Modes(Group(buf[k]))
  }

  /** What one file contributes to `total_common`, or the IndexError that ends the run. */
  function FileResult(fs: seq<ExperimentFrame>, loc: seq<int>, count: int): Result<map<string, map<int, int>>, IndexError> {
    match FramesEntries(fs, loc, count)
    case Err(e) => Err(e)
    case Ok(es) => Ok(FileModes(PutAll(map[], es)))
  }

  /** `open_file` over the frames of each file in turn, the n-th file counted as n. */
  function Organize(files: seq<seq<ExperimentFrame>>, loc: seq<int>): Result<map<string, map<int, int>>, IndexError> {
    if files == [] then Ok(map[])
    else match Organize(files[..|files| - 1], loc)
      case Err(e) => Err(e)
      case Ok(tc) =>
        match FileResult(files[|files| - 1], loc, |files|)
        case Err(e) => Err(e)
        case Ok(m) => Ok(tc + m)
  }

  /** Every queue a file's result names ends in that file's count. */
  lemma FileResultKeys(fs: seq<ExperimentFrame>, loc: seq<int>, count: int)
    requires FileResult(fs, loc, count).Ok?
    ensures forall k :: k in FileResult(fs, loc, count).value ==> exists l :: k == Key(l, count)
  {
    var es := FramesEntries(fs, loc, count).value;
    FramesEntriesKeys(fs, loc, count);
    forall k | k in FileResult(fs, loc, count).value ensures exists l :: k == Key(l, count) {
      PutAllQueues(map[], es, k);
      var i :| 0 <= i < |es| && es[i].0 == k;
      assert es[i] in es;
    }
  }

  /**
   * One file's queues never mix with another's: every mode the n-th file produces is
   * in the final `total_common` unchanged.
   */
  lemma {:induction false} FilesDoNotMix(files: seq<seq<ExperimentFrame>>, loc: seq<int>, n: nat)
    requires Organize(files, loc).Ok? && 1 <= n <= |files|
    ensures FileResult(files[n - 1], loc, n).Ok?
    ensures var m := FileResult(files[n - 1], loc, n).value;
      forall k :: k in m ==> k in Organize(files, loc).value && Organize(files, loc).value[k] == m[k]
  {
    var init := files[..|files| - 1];
    var last := FileResult(files[|files| - 1], loc, |files|).value;
    if n < |files| {
      assert init[n - 1] == files[n - 1];
      FilesDoNotMix(init, loc, n);
      var m := FileResult(files[n - 1], loc, n).value;
      FileResultKeys(files[n - 1], loc, n);
      FileResultKeys(files[|files| - 1], loc, |files|);
      forall k | k in m ensures k !in last {
        if k in last {
          var l :| k == Key(l, n);
          var l' :| k == Key(l', |files|);
          KeyInjective(l, n, l', |files|);
        }
      }
    }
  }

  /** The state of `AnalyticsDataOrganize` that its methods update. */
  class Organizer {
    const path: string
    const x: int
    const y: int
    /** `self.loc`, always a list. */
    const loc: seq<int>
    /** `self.buffer`: queue name to FIFO queue of (total weight, distance). */
    var buffer: map<string, seq<Pair>>
    /** `self.total_common`: queue name to weight to modal distance. */
    var totalCommon: map<string, map<int, int>>
    /** The IndexError that escapes `__init__`; the caller then gets no object. */
    var raised: Option<IndexError>

    /**
     * `__init__` followed by `open_file`, with `files` the frames `load_frames` returns
     * for each entry of `file_name`, in order.
     */
    constructor(path: string, x: int, y: int, files: seq<seq<ExperimentFrame>>, loc: LocArg)
      ensures this.loc == (if loc.One? then [loc.index] else loc.indices)
      ensures raised.Some? <==> Organize(files, this.loc).Err?
      ensures raised.None? ==> totalCommon == Organize(files, this.loc).value
    {
      this.path := path;
      this.x := x;
      this.y := y;
      this.loc := if loc.One? then [loc.index] else loc.indices;
      buffer := map[];
      totalCommon := map[];
      raised := None;
      new;
      OpenFile(files);
    }

    /** `open_file`: per file, clear the buffer, select its readings, then take the modes. */
    method OpenFile(files: seq<seq<ExperimentFrame>>)
      requires totalCommon == map[] && raised.None?
      modifies this
      ensures raised.Some? <==> Organize(files, loc).Err?
      ensures raised.None? ==> totalCommon == Organize(files, loc).value
    {
      var i := 0;
      while i < |files|
        invariant 0 <= i <= |files| && raised.None?
        invariant Organize(files[..i], loc).Ok? && totalCommon == Organize(files[..i], loc).value
      {
        assert files[..i + 1][..i] == files[..i];
        buffer := map[];
        var err := DataSelect(files[i], i + 1);
        if err.Some? {
          raised := err;
          OrganizeStopsAt(files, loc, i + 1);
          return;
        }
        FindMode();
        i := i + 1;
      }
      assert files[..i] == files;
    }

    /** `data_select`: queues the readings the filter keeps, in frame and sensor order. */
    method DataSelect(frames: seq<ExperimentFrame>, count: int) returns (err: Option<IndexError>)
      modifies this
      ensures totalCommon == old(totalCommon) && raised == old(raised)
      ensures err.Some? <==> FramesEntries(frames, loc, count).Err?
      ensures err.None? ==> buffer == PutAll(old(buffer), FramesEntries(frames, loc, count).value)
    {
      var i := 0;
      while i < |frames|
        invariant 0 <= i <= |frames|
        invariant totalCommon == old(totalCommon) && raised == old(raised)
        invariant FramesEntries(frames[..i], loc, count).Ok?
        invariant buffer == PutAll(old(buffer), FramesEntries(frames[..i], loc, count).value)
      {
        ghost var done := FramesEntries(frames[..i], loc, count).value;
        assert frames[..i + 1][..i] == frames[..i];
        err := SelectFrame(frames[i], count);
        if err.Some? {
          FramesPrefixErr(frames, loc, count, i + 1);
          return;
        }
        PutAllAppend(old(buffer), done, FrameEntries(frames[i], loc, count).value);
        i := i + 1;
      }
      assert frames[..i] == frames;
      return None;
    }

    /** The inner loop of `data_select`: the sensors of one frame, the filter evaluated for each. */
    method SelectFrame(f: ExperimentFrame, count: int) returns (err: Option<IndexError>)
      modifies this
      ensures totalCommon == old(totalCommon) && raised == old(raised)
      ensures err.Some? <==> FrameEntries(f, loc, count).Err?
      ensures err.None? ==> buffer == PutAll(old(buffer), FrameEntries(f, loc, count).value)
    {
      var j := 0;
      while j < |f.sensors|
        invariant 0 <= j <= |f.sensors|
        invariant totalCommon == old(totalCommon) && raised == old(raised)
        invariant j > 0 ==> Keep(f.weights, loc).Ok?
        invariant buffer == PutAll(old(buffer),
          if j > 0 && Keep(f.weights, loc) == Ok(true) then Entries(f.sensors[..j], Sum(f.weights), count) else [])
      {
        var keep := Keep(f.weights, loc);
        if keep.Err? {
          return Some(keep.error);
        }
        var s := f.sensors[j];
        if keep.value {
          GroupByPort(s.fields.location.Name(), Sum(f.weights), s.fields.distance, count);
          EntriesPrefix(f.sensors, Sum(f.weights), count, j);
          PutAllSnoc(old(buffer), Entries(f.sensors[..j], Sum(f.weights), count),
            Entry(s, Sum(f.weights), count));
        }
        j := j + 1;
      }
      assert f.sensors[..j] == f.sensors;
      return None;
    }

    /** `group_by_port`: the pair joins the queue named after the location and the file. */
    method GroupByPort(location: string, weight: int, value: int, count: int)
      modifies this
      ensures buffer == Put(old(buffer), Key(location, count), (weight, value))
      ensures totalCommon == old(totalCommon) && raised == old(raised)
    {
      var name := location + "_" + IntToString(count);
      if name !in buffer {
        buffer := buffer[name := []];
      }
      buffer := buffer[name := buffer[name] + [(weight, value)]];
    }

    /** `find_mode`: drains every queue and records the modes of each non-empty one. */
    method FindMode()
      modifies this
      ensures totalCommon == old(totalCommon) + FileModes(old(buffer))
      ensures buffer.Keys == old(buffer).Keys && forall k :: k in buffer ==> buffer[k] == []
      ensures raised == old(raised)
    {
      var data := DrainAll();
      GroupedNonEmpty(old(buffer), data);
      RecordModes(data);
      FileModesOfData(old(buffer), data, data.Keys);
    }

    /** The second loop of `find_mode`: `total_common[loc]` for every drained queue. */
    method RecordModes(data: map<string, map<int, seq<int>>>)
      requires forall k, w :: k in data && w in data[k] ==> |data[k][w]| > 0
      modifies this
      ensures totalCommon == old(totalCommon) + DataModes(data, data.Keys)
      ensures buffer == old(buffer) && raised == old(raised)
    {
      ghost var done: set<string> := {};
      var locs := data.Keys;
      while locs != {}
        invariant locs !! done && locs + done == data.Keys
        invariant totalCommon == old(totalCommon) + DataModes(data, done)
        invariant buffer == old(buffer) && raised == old(raised)
        decreases |locs|
      {
        var k := Choose(locs);
        var modes := ModesOfGroup(data[k]);
        totalCommon := totalCommon[k := modes];
        DataModesAdd(old(totalCommon), data, done, k);
        done := done + {k};
        locs := locs - {k};
      }
    }

    /** The first loop of `find_mode`: every queue drained into its per-weight lists. */
    method DrainAll() returns (data: map<string, map<int, seq<int>>>)
      modifies this
      ensures data == Grouped(old(buffer), old(buffer).Keys)
      ensures buffer.Keys == old(buffer).Keys && forall k :: k in buffer ==> buffer[k] == []
      ensures totalCommon == old(totalCommon) && raised == old(raised)
    {
      ghost var buf := buffer;
      ghost var done: set<string> := {};
      data := map[];
      var keys := buffer.Keys;
      while keys != {}
        invariant keys !! done && keys + done == buf.Keys
        invariant buffer == Drained(buf, done)
        invariant data == Grouped(buf, done)
        invariant totalCommon == old(totalCommon) && raised == old(raised)
        decreases |keys|
      {
        var k := Choose(keys);
        var groups := Drain(k);
        GroupedAdd(buf, done, k);
        DrainedAdd(buf, done, k);
        if groups != map[] {
          data := data[k := groups];
        }
        done := done + {k};
        keys := keys - {k};
      }
      DrainedAll(buf, done);
    }

    /** The inner loop of `find_mode`'s first loop: pops the queue until it is empty. */
    method Drain(key: string) returns (groups: map<int, seq<int>>)
      requires key in buffer
      modifies this
      ensures groups == Group(old(buffer)[key])
      ensures buffer == old(buffer)[key := []]
      ensures totalCommon == old(totalCommon) && raised == old(raised)
    {
      var q := buffer[key];
      groups := map[];
      ghost var popped: seq<Pair> := [];
      while q != []
        invariant old(buffer)[key] == popped + q
        invariant groups == Group(popped)
        invariant buffer == old(buffer) && totalCommon == old(totalCommon) && raised == old(raised)
        decreases |q|
      {
        var p := q[0];
        q := q[1..];
        GroupSnoc(popped, p);
        groups := groups[p.0 := (if p.0 in groups then groups[p.0] else []) + [p.1]];
        popped := popped + [p];
      }
      assert popped == old(buffer)[key];
      buffer := buffer[key := []];
    }

  }

  /**
   * The inner loop of `find_mode`'s second loop: `most_common(1)` of each weight's
   * distances, filling the dictionary stored as `total_common[loc]`.
   */
  method ModesOfGroup(g: map<int, seq<int>>) returns (modes: map<int, int>)
    requires forall w :: w in g ==> |g[w]| > 0
    ensures modes == Modes(g)
  {
    modes := map[];
    ghost var done: set<int> := {};
    var ws := g.Keys;
    while ws != {}
      invariant ws !! done && ws + done == g.Keys
      invariant modes == ModesOn(g, done)
      decreases |ws|
    {
      var weight := Choose(ws);
      modes := modes[weight := MostCommon(g[weight])];
      ModesOnAdd(g, done, weight);
      done := done + {weight};
      ws := ws - {weight};
    }
    ModesOnAll(g, done);
  }

  lemma PutAllSnoc(buf: map<string, seq<Pair>>, es: seq<(string, Pair)>, e: (string, Pair))
    ensures PutAll(buf, es + [e]) == Put(PutAll(buf, es), e.0, e.1)
  {
    assert (es + [e])[..|es|] == es;
  }

  lemma GroupedAdd(buf: map<string, seq<Pair>>, ks: set<string>, k: string)
    requires k in buf
    ensures Grouped(buf, ks + {k}) == if buf[k] != [] then Grouped(buf, ks)[k := Group(buf[k])] else Grouped(buf, ks)
  {
  }

  lemma DataModesAdd(tc: map<string, map<int, int>>, data: map<string, map<int, seq<int>>>, ks: set<string>, k: string)
    requires forall k, w :: k in data && w in data[k] ==> |data[k][w]| > 0
    requires k in data
    ensures (tc + DataModes(data, ks))[k := Modes(data[k])] == tc + DataModes(data, ks + {k})
  {
  }

  /** The next key a dictionary loop visits: some element of a non-empty set. */
  method Choose<T>(s: set<T>) returns (x: T)
    requires s != {}
    ensures x in s
  {
    x :| x in s;
  }

  /** The buffer while `find_mode` drains it: the queues named in `done` are empty. */
  function Drained(buf: map<string, seq<Pair>>, done: set<string>): map<string, seq<Pair>> {
    map k | k in buf :: if k in done then [] else buf[k]
  }

  lemma DrainedAdd(buf: map<string, seq<Pair>>, done: set<string>, k: string)
    requires k in buf
    ensures Drained(buf, done)[k := []] == Drained(buf, done + {k})
  {
  }

  lemma DrainedAll(buf: map<string, seq<Pair>>, done: set<string>)
    requires done == buf.Keys
    ensures Drained(buf, done).Keys == buf.Keys
    ensures forall k :: k in Drained(buf, done) ==> Drained(buf, done)[k] == []
  {
  }

  /** The modes recorded so far for the weights in `done`. */
  function ModesOn(g: map<int, seq<int>>, done: set<int>): map<int, int>
    requires forall w :: w in g ==> |g[w]| > 0
  {
    map w | w in done && w in g :: MostCommon(g[w])
  }

  lemma ModesOnAdd(g: map<int, seq<int>>, done: set<int>, w: int)
    requires forall w :: w in g ==> |g[w]| > 0
    requires w in g
    ensures ModesOn(g, done)[w := MostCommon(g[w])] == ModesOn(g, done + {w})
  {
  }

  lemma ModesOnAll(g: map<int, seq<int>>, done: set<int>)
    requires forall w :: w in g ==> |g[w]| > 0
    requires done == g.Keys
    ensures ModesOn(g, done) == Modes(g)
  {
  }

  lemma GroupedNonEmpty(buf: map<string, seq<Pair>>, data: map<string, map<int, seq<int>>>)
    requires data == Grouped(buf, buf.Keys)
    ensures forall k, w :: k in data && w in data[k] ==> |data[k][w]| > 0
  {
  }

  lemma FileModesOfData(buf: map<string, seq<Pair>>, data: map<string, map<int, seq<int>>>, done: set<string>)
    requires data == Grouped(buf, buf.Keys) && done == data.Keys
    ensures forall k, w :: k in data && w in data[k] ==> |data[k][w]| > 0
    ensures DataModes(data, done) == FileModes(buf)
  {
  }

  lemma {:induction false} FramesPrefixErr(frames: seq<ExperimentFrame>, loc: seq<int>, count: int, n: nat)
    requires n <= |frames| && FramesEntries(frames[..n], loc, count).Err?
    ensures FramesEntries(frames, loc, count).Err?
    decreases |frames| - n
  {
    if n < |frames| {
      assert frames[..n + 1][..n] == frames[..n];
      FramesPrefixErr(frames, loc, count, n + 1);
    } else {
      assert frames[..n] == frames;
    }
  }

  /** A file whose selection raises ends the whole run with that error. */
  lemma OrganizeStopsAt(files: seq<seq<ExperimentFrame>>, loc: seq<int>, n: nat)
    requires 1 <= n <= |files| && Organize(files[..n - 1], loc).Ok?
    requires FramesEntries(files[n - 1], loc, n).Err?
    ensures Organize(files, loc).Err?
  {
    assert files[..n][..n - 1] == files[..n - 1];
    OrganizePrefixErr(files, loc, n);
  }

  lemma {:induction false} OrganizePrefixErr(files: seq<seq<ExperimentFrame>>, loc: seq<int>, n: nat)
    requires n <= |files| && Organize(files[..n], loc).Err?
    ensures Organize(files, loc).Err?
    decreases |files| - n
  {
    if n < |files| {
      assert files[..n + 1][..n] == files[..n];
      OrganizePrefixErr(files, loc, n + 1);
    } else {
      assert files[..n] == files;
    }
  }

  lemma EntriesPrefix(ss: seq<Sensor>, total: int, count: int, j: nat)
    requires j < |ss|
    ensures Entries(ss[..j + 1], total, count) == Entries(ss[..j], total, count)
      + [Entry(ss[j], total, count)]
  {
    assert ss[..j + 1][..j] == ss[..j];
  }
}
