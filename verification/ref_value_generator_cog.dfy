/**
 * `Algorithm/RefValueGenerator_COG.py`: a reference-value generator that captures the
 * first complete laser reading as its baseline and afterwards reports, per sensor, how far
 * the distance has dropped below it.
 */
module RefValueGeneratorCog {
  import opened Wrappers
  import opened DataInfo
  import opened RefValueGenerator
  import opened PyList

  /** `all(v not in [-1, 0] for v in values)`: no sensor reports -1 or 0. */
  predicate Complete(values: seq<int>) {
    forall i :: 0 <= i < |values| ==> values[i] != -1 && values[i] != 0
  }

  /** `[init - curr for curr, init in zip(current, baseline)]`: `zip` stops at the shorter list. */
  function Deltas(baseline: seq<int>, current: seq<int>): (d: seq<int>)
    ensures |d| == if |current| < |baseline| then |current| else |baseline|
    ensures forall i :: 0 <= i < |d| ==> d[i] == baseline[i] - current[i]
  {
    seq(if |current| < |baseline| then |current| else |baseline|, i requires 0 <= i < |current| && i < |baseline| => baseline[i] - current[i])
  }

  /** A reading equal to the baseline yields all zeros. */
  lemma DeltasOfBaseline(baseline: seq<int>)
    ensures Deltas(baseline, baseline) == Filled(0, |baseline|)
  {
  }

  /**
   * One call of `compute_deltas` given the baseline so far (None while the attribute
   * `initial_laser_values` does not exist): the baseline afterwards and the deltas returned.
   */
  function Step(baseline: Option<seq<int>>, current: seq<int>): (Option<seq<int>>, seq<int>) {
    if baseline.None? then (if Complete(current) then Some(current) else None, Filled(0, |current|))
    else (baseline, Deltas(baseline.value, current))
  }

  /** The first complete reading, if any. */
  function FirstComplete(readings: seq<seq<int>>): Option<seq<int>> {
    if readings == [] then None
    else match FirstComplete(readings[..|readings| - 1])
      case Some(b) => Some(b)
      case None => if Complete(readings[|readings| - 1]) then Some(readings[|readings| - 1]) else None
  }

  /** Successive calls from a fresh generator: the final baseline and every returned list. */
  function Run(readings: seq<seq<int>>): (Option<seq<int>>, seq<seq<int>>) {
    if readings == [] then (None, [])
    else
      var before := Run(readings[..|readings| - 1]);
      var step := Step(before.0, readings[|readings| - 1]);
      (step.0, before.1 + [step.1])
  }

  /**
   * Over any sequence of readings the baseline is the first complete one and, once set,
   * never changes; every call until it is set returns zeros of the reading's length, and
   * every later call returns `baseline[i] - current[i]`.
   */
  lemma {:induction false} RunBaseline(readings: seq<seq<int>>)
    ensures Run(readings).0 == FirstComplete(readings)
    ensures |Run(readings).1| == |readings|
    ensures forall i :: 0 <= i < |readings| ==>
      Run(readings).1[i] == match FirstComplete(readings[..i])
        case None => Filled(0, |readings[i]|)
        case Some(b) => Deltas(b, readings[i])
    ensures forall i :: 0 <= i <= |readings| && FirstComplete(readings[..i]).Some? ==>
      FirstComplete(readings) == FirstComplete(readings[..i])
  {
    if readings != [] {
      var init := readings[..|readings| - 1];
      RunBaseline(init);
      var run := Run(readings);
      forall i | 0 <= i < |readings|
        ensures run.1[i] == match FirstComplete(readings[..i])
          case None => Filled(0, |readings[i]|)
          case Some(b) => Deltas(b, readings[i])
      {
        if i < |init| {
          assert readings[..i] == init[..i];
        } else {
          assert readings[..i] == init;
        }
      }
      forall i | 0 <= i <= |readings| && FirstComplete(readings[..i]).Some?
        ensures FirstComplete(readings) == FirstComplete(readings[..i])
      {
        FirstCompleteKept(readings, i);
      }
    }
  }

  /** A baseline found among the first readings stays the baseline of all of them. */
  lemma {:induction false} FirstCompleteKept(readings: seq<seq<int>>, i: nat)
    requires i <= |readings| && FirstComplete(readings[..i]).Some?
    ensures FirstComplete(readings) == FirstComplete(readings[..i])
  {
    if i < |readings| {
      var init := readings[..|readings| - 1];
      assert init[..i] == readings[..i];
      FirstCompleteKept(init, i);
    } else {
      assert readings[..i] == readings;
    }
  }

  /** `COGRefValGenerator`. */
  class CogGenerator {
    /** `_refValue`, inherited from `RefValueGenerator`. */
    var refValue: seq<int>
    /** `initial_laser_values`; None while the attribute does not exist. */
    var baseline: Option<seq<int>>

    constructor()
      ensures refValue == Filled(0, REF_SIZE) && baseline.None?
    {
      refValue := Filled(0, REF_SIZE);
      baseline := None;
    }

    /**
     * `compute_deltas`: zeros of the reading's length until a complete reading is seen,
     * which becomes the baseline; afterwards the drop of each distance below it.
     */
    method ComputeDeltas(current: seq<int>) returns (deltas: seq<int>)
      modifies this
      ensures (baseline, deltas) == Step(old(baseline), current)
      ensures refValue == old(refValue)
    {
      if baseline.None? {
        if Complete(current) {
          baseline := Some(current);
          return Filled(0, |current|);
        } else {
          return Filled(0, |current|);
        }
      }
      deltas := Deltas(baseline.value, current);
    }

    /**
     * `calRefValue`, with `distanceAt` the distance the frame reports for a location:
     * reads the four corners in the order top-left, bottom-left, top-right, bottom-right,
     * stores the deltas as the reference value and returns them.
     */
    method CalRefValue(distanceAt: Location -> int) returns (r: seq<int>)
      modifies this
      ensures r == refValue
      ensures (baseline, r) == Step(old(baseline), Corners(distanceAt))
    {
      var laserValues := [distanceAt(TopLeft), distanceAt(BottomLeft), distanceAt(TopRight), distanceAt(BottomRight)];
      var deltas := ComputeDeltas(laserValues);
      refValue := deltas;
      return refValue;
    }

    /** `getRefValue`, inherited: the stored value, with no effect on the generator. */
    method GetRefValue() returns (r: seq<int>)
      ensures r == refValue
    {
      r := refValue;
    }
  }

  /** The laser values `calRefValue` reads, in its order. */
  function Corners(distanceAt: Location -> int): (vs: seq<int>)
    ensures |vs| == 4
  {
    [distanceAt(TopLeft), distanceAt(BottomLeft), distanceAt(TopRight), distanceAt(BottomRight)]
  }
}
