/**
 * The result bookkeeping of the algorithm window: the actual weight and load positions
 * taken from the grid, the error rate of an algorithm's estimate against them, the
 * result lines saved per algorithm and day, and the listing of algorithm files.
 */
module AlgorithmMultiProc {
  import opened Wrappers
  import opened PyList
  import opened WallClock

  /** `[i + 1 for i, val in enumerate(ws) if val != 0]`: the 1-based positions of the loaded cells. */
  function Positions(ws: seq<int>): seq<int> {
    if ws == [] then []
    else Positions(ws[..|ws| - 1]) + if ws[|ws| - 1] != 0 then [|ws|] else []
  }

  /** The positions are 1-based indices of nonzero entries, strictly ascending. */
  lemma {:induction false} PositionsMeaning(ws: seq<int>)
    ensures forall i :: 0 <= i < |Positions(ws)| ==> 1 <= Positions(ws)[i] <= |ws| && ws[Positions(ws)[i] - 1] != 0
    ensures forall i, j :: 0 <= i < j < |Positions(ws)| ==> Positions(ws)[i] < Positions(ws)[j]
  {
    if ws != [] {
      var init := ws[..|ws| - 1];
      PositionsMeaning(init);
      var ps, qs := Positions(ws), Positions(init);
      assert ps[..|qs|] == qs;
      forall i | 0 <= i < |ps|
        ensures 1 <= ps[i] <= |ws| && ws[ps[i] - 1] != 0
      {
        if i < |qs| {
          assert ps[i] == qs[i] && init[qs[i] - 1] == ws[qs[i] - 1];
        }
      }
      forall i, j | 0 <= i < j < |ps|
        ensures ps[i] < ps[j]
      {
        assert ps[i] == qs[i];
        if j < |qs| {
          assert ps[j] == qs[j];
        }
      }
    }
  }

  /** Every nonzero entry's 1-based index is among the positions. */
  lemma {:induction false} PositionsComplete(ws: seq<int>)
    ensures forall p :: 1 <= p <= |ws| && ws[p - 1] != 0 ==> p in Positions(ws)
  {
    if ws != [] {
      var init := ws[..|ws| - 1];
      PositionsComplete(init);
      forall p | 1 <= p <= |ws| && ws[p - 1] != 0
        ensures p in Positions(ws)
      {
        if p <= |init| {
          assert init[p - 1] == ws[p - 1];
          assert p in Positions(init);
        }
      }
    }
  }

  /** The entries of `ws` at the 1-based positions `ps`, added up. */
  function SumAt(ws: seq<int>, ps: seq<int>): int
    requires forall i :: 0 <= i < |ps| ==> 1 <= ps[i] <= |ws|
  {
    if ps == [] then 0 else SumAt(ws, ps[..|ps| - 1]) + ws[ps[|ps| - 1] - 1]
  }

  /** Positions within a prefix pick the same entries from the whole. */
  lemma {:induction false} SumAtPrefix(vs: seq<int>, ws: seq<int>, ps: seq<int>)
    requires vs <= ws && forall i :: 0 <= i < |ps| ==> 1 <= ps[i] <= |vs|
    ensures SumAt(ws, ps) == SumAt(vs, ps)
  {
    if ps != [] {
      SumAtPrefix(vs, ws, ps[..|ps| - 1]);
    }
  }

  /** The actual weight is carried by the loaded cells alone: summing at the positions gives the grid's sum. */
  lemma {:induction false} SumAtPositions(ws: seq<int>)
    ensures forall i :: 0 <= i < |Positions(ws)| ==> 1 <= Positions(ws)[i] <= |ws|
    ensures SumAt(ws, Positions(ws)) == Sum(ws)
  {
    PositionsMeaning(ws);
    if ws != [] {
      var init := ws[..|ws| - 1];
      SumAtPositions(init);
      PositionsMeaning(init);
      SumAtPrefix(init, ws, Positions(init));
      var ps := Positions(ws);
      assert ps[..|Positions(init)|] == Positions(init);
      if ws[|ws| - 1] != 0 {
        assert ps[..|ps| - 1] == Positions(init);
      } else {
        assert ps == Positions(init);
      }
    }
  }

  /** `abs` on reals. */
  function Abs(x: real): real {
    if x < 0.0 then -x else x
  }

  /** `((abs(real) - abs(algo)) / real) * 100`, the error rate in percent, in exact arithmetic. */
  function ErrorRate(realWeight: int, algoWeight: real): real
    requires realWeight != 0
  {
    (Abs(realWeight as real) - Abs(algoWeight)) / (realWeight as real) * 100.0
  }

  /** An estimate of the right magnitude has error 0; an estimate of 0 has error 100 for a positive weight. */
  lemma ErrorRateMeaning(realWeight: int, algoWeight: real)
    requires realWeight != 0
    ensures Abs(algoWeight) == Abs(realWeight as real) ==> ErrorRate(realWeight, algoWeight) == 0.0
    ensures realWeight > 0 && algoWeight == 0.0 ==> ErrorRate(realWeight, algoWeight) == 100.0
    ensures realWeight > 0 ==> (ErrorRate(realWeight, algoWeight) > 0.0 <==> Abs(algoWeight) < realWeight as real)
  {
    var r := realWeight as real;
    var d := Abs(r) - Abs(algoWeight);
    var q := d / r;
    assert q * r == d;
    assert ErrorRate(realWeight, algoWeight) == q * 100.0;
    if realWeight > 0 {
      if algoWeight == 0.0 {
        assert d == r && q == 1.0;
      }
      assert q > 0.0 <==> d > 0.0;
    }
  }

  /** A saved line: time, actual weight, actual positions, estimate, estimated position, error rate. */
  datatype ResultLine = ResultLine(timestamp: string, realWeight: int, realPosition: seq<int>,
                                   algoWeight: real, algoPosition: int, rate: real)

  /** `bname + '_%y%m%d.txt'` in the `algorithms_result` folder. */
  function ResultPath(bname: string, t: DateTime): string {
    "algorithms_result/" + bname + "_" + Pad(t.year % 100, 2) + Pad(t.month, 2) + Pad(t.day, 2) + ".txt"
  }

  /** `%H%M%S`. */
  function ClockStamp(t: DateTime): string {
    Pad(t.hour, 2) + Pad(t.minute, 2) + Pad(t.second, 2)
  }

  /** Results of the same algorithm on the same day go to the same file; other days to other files. */
  lemma ResultPathDays(bname: string, t: DateTime, u: DateTime)
    requires t.Valid() && u.Valid()
    ensures t.year % 100 == u.year % 100 && t.month == u.month && t.day == u.day ==> ResultPath(bname, t) == ResultPath(bname, u)
    ensures ResultPath(bname, t) == ResultPath(bname, u) ==> t.month == u.month && t.day == u.day
  {
    PadValue(t.month, 2);
    PadValue(u.month, 2);
    PadValue(t.day, 2);
    PadValue(u.day, 2);
    PadValue(t.year % 100, 2);
    PadValue(u.year % 100, 2);
    var p, q := ResultPath(bname, t), ResultPath(bname, u);
    if p == q {
      var n := |p|;
      assert p[n - 8..n - 6] == Pad(t.month, 2) && q[n - 8..n - 6] == Pad(u.month, 2);
      assert p[n - 6..n - 4] == Pad(t.day, 2) && q[n - 6..n - 4] == Pad(u.day, 2);
    }
  }

  /** `AlgorithmMultiProc`, the window, with the actual load, the error rate and the saved results. */
  class AlgorithmMultiProc {
    /** `real_weight`, None until the grid is set. */
    var realWeight: Option<int>
    /** `real_position`, None until the grid is set. */
    var realPosition: Option<seq<int>>
    /** `rate`. */
    var rate: real
    /** The result files under `algorithms_result`, by path, with their lines. */
    var results: map<string, seq<ResultLine>>

    /** Weight and positions are set together. */
    ghost predicate Valid()
      reads this
    {
      realWeight.Some? <==> realPosition.Some?
    }

    /** A new window: no actual load yet, rate 0, no result files. */
    constructor()
      ensures Valid() && realWeight == None && realPosition == None && rate == 0.0 && results == map[]
    {
      realWeight, realPosition, rate, results := None, None, 0.0, map[];
    }

    /**
     * `set_weight(weight_a)`: the actual weight is the grid's sum, and the actual positions
     * the 1-based indices of its loaded cells, ascending.
     */
    method SetWeight(ws: seq<int>)
      modifies this`realWeight, this`realPosition
      ensures Valid()
      ensures realWeight == Some(Sum(ws)) && realPosition == Some(Positions(ws))
      ensures forall i :: 0 <= i < |realPosition.value| ==> 1 <= realPosition.value[i] <= |ws| && ws[realPosition.value[i] - 1] != 0
      ensures SumAt(ws, realPosition.value) == realWeight.value
      ensures forall i, j :: 0 <= i < j < |realPosition.value| ==> realPosition.value[i] < realPosition.value[j]
      ensures forall p :: 1 <= p <= |ws| && ws[p - 1] != 0 ==> p in realPosition.value
    {
      realWeight := Some(Sum(ws));
      realPosition := Some(Positions(ws));
      SumAtPositions(ws);
      PositionsMeaning(ws);
      PositionsComplete(ws);
    }

    /** `error_rate_cal(algo_weight)`: the rate is recomputed only when the actual weight is set and nonzero. */
    method ErrorRateCal(algoWeight: real)
      modifies this`rate
      ensures realWeight.Some? && realWeight.value != 0 ==> rate == ErrorRate(realWeight.value, algoWeight)
      ensures !(realWeight.Some? && realWeight.value != 0) ==> rate == old(rate)
    {
      if realWeight.Some? && realWeight.value != 0 {
        rate := (Abs(realWeight.value as real) - Abs(algoWeight)) / (realWeight.value as real) * 100.0;
      }
    }

    /**
     * `data_save(bname, data)`: the day's result file of the algorithm is opened for
     * appending (created empty if missing), the rate updated, and the line written only when
     * the actual weight is set and nonzero.
     */
    method DataSave(bname: string, algoPosition: int, algoWeight: real, now: DateTime)
      requires Valid()
      modifies this`rate, this`results
      ensures Valid()
      ensures realWeight.Some? && realWeight.value != 0 ==> rate == ErrorRate(realWeight.value, algoWeight)
      ensures !(realWeight.Some? && realWeight.value != 0) ==> rate == old(rate)
      ensures var path := ResultPath(bname, now);
        && var before := if path in old(results) then old(results)[path] else [];
        && results == old(results)[path := before + if realWeight.Some? && realWeight.value != 0
            then [ResultLine(ClockStamp(now), realWeight.value, realPosition.value, algoWeight, algoPosition, rate)]
            else []]
    {
      var path := ResultPath(bname, now);
      var before := if path in results then results[path] else [];
      var timestamp := ClockStamp(now);
      ErrorRateCal(algoWeight);
      var written := [];
      if realWeight.Some? && realWeight.value != 0 {
        written := [ResultLine(timestamp, realWeight.value, realPosition.value, algoWeight, algoPosition, rate)];
      }
      results := results[path := before + written];
    }
  }

  /** Does the name end in `.py`? */
  predicate IsPython(name: string) {
    |name| >= 3 && name[|name| - 3..] == ".py"
  }

  /** `os.path.join(folder, name)` for a relative name. */
  function PathJoin(folder: string, name: string): string {
    if folder != [] && folder[|folder| - 1] == '/' then folder + name else folder + "/" + name
  }

  /** The `.py` entries of a listing added to `files`, each mapped to its path in the folder. */
  function PyFiles(files: map<string, string>, folder: string, listing: seq<string>): map<string, string> {
    if listing == [] then files
    else
      var before := PyFiles(files, folder, listing[..|listing| - 1]);
      var name := listing[|listing| - 1];
      if IsPython(name) then before[name := PathJoin(folder, name)] else before
  }

  /**
   * After the listing, the files are the old ones plus every `.py` entry, each mapped to its
   * path in the folder; other entries are ignored and the old ones otherwise kept.
   */
  lemma {:induction false} PyFilesMeaning(files: map<string, string>, folder: string, listing: seq<string>)
    ensures forall k :: k in PyFiles(files, folder, listing) <==> k in files || (k in listing && IsPython(k))
    ensures forall k :: k in PyFiles(files, folder, listing) ==>
      PyFiles(files, folder, listing)[k] == if k in listing && IsPython(k) then PathJoin(folder, k) else files[k]
  {
    if listing != [] {
      var init := listing[..|listing| - 1];
      PyFilesMeaning(files, folder, init);
      assert listing == init + [listing[|listing| - 1]];
      assert forall k :: k in listing <==> k in init || k == listing[|listing| - 1];
    }
  }

  /** `AlgorithmFileManager`, the table of algorithm files by name. */
  class AlgorithmFileManager {
    /** `files`. */
    var files: map<string, string>

    constructor()
      ensures files == map[]
    {
      files := map[];
    }

    /**
     * `loadAlgorithmFromFile()`: each `.py` entry of the `Algorithm` folder under the
     * working directory is mapped to its path; the table is returned.
     */
    method LoadAlgorithmFromFile(cwd: string, listing: seq<string>) returns (r: map<string, string>)
      modifies this`files
      ensures files == PyFiles(old(files), PathJoin(cwd, "Algorithm"), listing) && r == files
      ensures forall k :: k in r <==> k in old(files) || (k in listing && IsPython(k))
      ensures forall k :: k in listing && IsPython(k) ==> r[k] == PathJoin(PathJoin(cwd, "Algorithm"), k)
    {
      var folder := PathJoin(cwd, "Algorithm");
      for i := 0 to |listing|
        invariant files == PyFiles(old(files), folder, listing[..i])
      {
        assert listing[..i + 1][..i] == listing[..i];
        var name := listing[i];
        if IsPython(name) {
          files := files[name := PathJoin(folder, name)];
        }
      }
      assert listing[..|listing|] == listing;
      PyFilesMeaning(old(files), folder, listing);
      r := files;
    }
  }
}
