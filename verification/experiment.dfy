/**
 * `experiment.py`: the experiment window. It keeps the 3×3 load grid (nine zeros at the
 * start), lets the operator edit it by hand or with the +20 / -20 / zero buttons, tracks
 * whether the total load went up or down between two sensor readings, and writes one
 * tab-separated line per accepted reading to the raw-data log.
 */
module Experiment {
  import opened Wrappers
  import opened PyText
  import opened PyList
  import opened WeightGrid

  /** One synchronised sensor point, `(timestamp, value, sub1, sub2)`, each item as `str()` shows it. */
  type Point = seq<string>

  /** What `handle_serial_data` does with one reading. */
  datatype Outcome =
    | UnknownPort       // the port has no column: nothing happens
    | ShortData         // fewer than two points
    | BadPoint          // the last point has fewer than two items
    | Raised            // IndexError or ValueError while reading the last point
    | Line(text: string)

  /** The load direction for a grid total against the previous one: up, down, or as before. */
  function Direction(total: int, previous: int, last: char): char {
    if total > previous then 'U'
    else if total < previous then 'D'
    else last
  }

  /** One call's update of (`weight_total`, `last_direction`) for the grid total `total`. */
  function TrackStep(state: (int, char), total: int): (int, char) {
    (total, Direction(total, state.0, state.1))
  }

  /** (`weight_total`, `last_direction`) after calls that saw the grid totals in turn. */
  function Track(totals: seq<int>): (int, char) {
    if totals == [] then (0, '-')
    else TrackStep(Track(totals[..|totals| - 1]), totals[|totals| - 1])
  }

  /** The total the i-th call compares against: the one before it, or the initial 0. */
  function Previous(totals: seq<int>, i: nat): int
    requires i < |totals|
  {
    if i == 0 then 0 else totals[i - 1]
  }

  /** The i-th call saw the total change. */
  predicate Changed(totals: seq<int>, i: nat)
    requires i < |totals|
  {
    totals[i] != Previous(totals, i)
  }

  /** After the calls, the previous total is the last total seen, or 0 before any call. */
  lemma {:induction false} TrackTotal(totals: seq<int>)
    ensures Track(totals).0 == if totals == [] then 0 else totals[|totals| - 1]
  {
  }

  /** While no call has seen the total change, the direction stays `-`. */
  lemma {:induction false} TrackSteady(totals: seq<int>)
    requires forall i :: 0 <= i < |totals| ==> !Changed(totals, i)
    ensures Track(totals).1 == '-'
  {
    if totals != [] {
      var init := totals[..|totals| - 1];
      forall i | 0 <= i < |init| ensures !Changed(init, i) {
        assert !Changed(totals, i);
        assert init[i] == totals[i] && Previous(init, i) == Previous(totals, i);
      }
      TrackSteady(init);
      TrackTotal(init);
      assert !Changed(totals, |totals| - 1);
    }
  }

  /**
   * The direction is that of the most recent call whose total changed: `U` for a rise, `D`
   * for a fall.
   */
  lemma {:induction false} TrackLatest(totals: seq<int>, j: nat)
    requires j < |totals| && Changed(totals, j)
    requires forall i :: j < i < |totals| ==> !Changed(totals, i)
    ensures Track(totals).1 == if totals[j] > Previous(totals, j) then 'U' else 'D'
  {
    var init := totals[..|totals| - 1];
    TrackTotal(init);
    if j < |totals| - 1 {
      assert init[j] == totals[j] && Previous(init, j) == Previous(totals, j);
      forall i | j < i < |init| ensures !Changed(init, i) {
        assert !Changed(totals, i);
        assert init[i] == totals[i] && Previous(init, i) == Previous(totals, i);
      }
      TrackLatest(init, j);
      assert !Changed(totals, |totals| - 1);
    }
  }

  /** The raw-data log line: eight tab-separated fields and a newline. */
  function LogLine(timestamp: string, ws: seq<int>, direction: char, name: string,
                   v1: string, v2: string, v3: string, flag: char): string {
    Join(LogFields(timestamp, ws, direction, name, v1, v2, v3, flag), '\t') + "\n"
  }

  /** The fields of a log line: time, `str(weight_a)`, direction, sensor name, three readings, pause flag. */
  function LogFields(timestamp: string, ws: seq<int>, direction: char, name: string,
                     v1: string, v2: string, v3: string, flag: char): seq<string> {
    [timestamp, ListRepr(ws), [direction], name, v1, v2, v3, [flag]]
  }

  /**
   * The reading part of `handle_serial_data`, after the direction update: fewer than two
   * points or a last point of fewer than two items is skipped; items 1 to 3 of the last point
   * go through `float`, which raises IndexError for a point of two or three items and
   * ValueError for text it cannot read (`floatText` gives the text a float prints as, None
   * where `float` raises).
   */
  function Respond(ws: seq<int>, direction: char, name: string, flag: char, data: seq<Point>,
                   floatText: string -> Option<string>): Outcome {
    if |data| < 2 then ShortData
    else
      var last := data[|data| - 1];
      if |last| < 2 then BadPoint
      else if |last| < 4 then Raised
      else match (floatText(last[1]), floatText(last[2]), floatText(last[3]))
        case (Some(v1), Some(v2), Some(v3)) => Line(LogLine(last[0], ws, direction, name, v1, v2, v3, flag))
        case _ => Raised
  }

  /**
   * A reading gives a log line exactly when there are at least two points and the last one
   * has four items whose value items `float` reads; the line is that point's.
   */
  lemma RespondMeaning(ws: seq<int>, direction: char, name: string, flag: char, data: seq<Point>,
                       floatText: string -> Option<string>)
    ensures var o := Respond(ws, direction, name, flag, data, floatText);
      && (o.Line? <==>
            && |data| >= 2 && |data[|data| - 1]| >= 4
            && floatText(data[|data| - 1][1]).Some? && floatText(data[|data| - 1][2]).Some?
            && floatText(data[|data| - 1][3]).Some?)
      && (o.Line? ==> var p := data[|data| - 1];
            o.text == LogLine(p[0], ws, direction, name, floatText(p[1]).value, floatText(p[2]).value,
                              floatText(p[3]).value, flag))
      && (o == ShortData <==> |data| < 2)
      && (o == BadPoint <==> |data| >= 2 && |data[|data| - 1]| < 2)
  {
  }

  /**
   * A log line reads back: without its newline it splits on tabs into its eight fields, and
   * the grid field is a list literal of the grid, provided the free-text fields hold no tab.
   */
  lemma LogLineReadsBack(timestamp: string, ws: seq<int>, direction: char, name: string,
                         v1: string, v2: string, v3: string, flag: char)
    requires '\t' !in timestamp && '\t' !in name && '\t' !in v1 && '\t' !in v2 && '\t' !in v3
    requires direction != '\t' && flag != '\t'
    ensures var line := LogLine(timestamp, ws, direction, name, v1, v2, v3, flag);
      && line[|line| - 1] == '\n'
      && Split(line[..|line| - 1], '\t') == LogFields(timestamp, ws, direction, name, v1, v2, v3, flag)
      && ParseIntList(Split(line[..|line| - 1], '\t')[1]) == Some(ws)
  {
    var fields := LogFields(timestamp, ws, direction, name, v1, v2, v3, flag);
    var line := LogLine(timestamp, ws, direction, name, v1, v2, v3, flag);
    ListReprSafe(ws);
    assert line[..|line| - 1] == Join(fields, '\t');
    JoinSplit(fields, '\t');
    ListReprParses(ws);
  }

  /** `weightP`: a selected entry becomes the value its cell shows plus 20. */
  function Plus(entry: int, shown: int): int {
    shown + 20
  }

  /** `weightM`: a selected entry becomes 0 when its cell shows less than 4, else that value minus 20. */
  function Minus(entry: int, shown: int): int {
    if shown < 4 then 0 else shown - 20
  }

  /**
   * `weightM` only zeroes values below 4, so a value from 4 to 19 goes negative; and it
   * leaves exactly the value 0 as it is.
   */
  lemma MinusMeaning(v: int)
    ensures Minus(v, v) < 0 <==> 4 <= v < 20
    ensures Minus(v, v) == 0 <==> v < 4 || v == 20
    ensures Minus(v, v) == v <==> v == 0
  {
  }

  /**
   * The grids the buttons' loop broadcasts: after each selected cell whose text `int` reads
   * and whose new text differs from the one it showed, the grid as it then stands. (Qt
   * raises `cellChanged` only for a changed text, and that activation of `onCellChanged`
   * broadcasts.)
   */
  function Echoes(ws: seq<int>, cells: map<Cell, string>, sel: seq<Cell>, f: (int, int) -> int): seq<seq<int>>
    requires |ws| == WEIGHT_COUNT && forall c :: InGrid(c) ==> c in cells
    requires forall i :: 0 <= i < |sel| ==> InGrid(sel[i])
  {
    if sel == [] then []
    else
      var init, c := sel[..|sel| - 1], sel[|sel| - 1];
      var before := AdjustAll(ws, cells, init, f);
      Echoes(ws, cells, init, f) + Echo(before.0, before.1, c, f)
  }

  /** The grid broadcast by the buttons' pass over cell `c`, if any. */
  function Echo(ws: seq<int>, cells: map<Cell, string>, c: Cell, f: (int, int) -> int): seq<seq<int>>
    requires |ws| == WEIGHT_COUNT && InGrid(c) && c in cells
  {
    match Adjust(ws, cells, c, f)
    case None => []
    case Some(after) => if after.1[c] != cells[c] then [after.0] else []
  }

  /** `Adjust` and `Echo` of one cell, spelled out for the cell's text. */
  lemma EchoOf(ws: seq<int>, cells: map<Cell, string>, c: Cell, f: (int, int) -> int)
    requires |ws| == WEIGHT_COUNT && InGrid(c) && c in cells
    ensures ParseInt(cells[c]).None? ==> Adjust(ws, cells, c, f).None? && Echo(ws, cells, c, f) == []
    ensures ParseInt(cells[c]).Some? ==>
      var w := f(ws[Index(c)], ParseInt(cells[c]).value);
      && Adjust(ws, cells, c, f) == Some((ws[Index(c) := w], cells[c := IntToString(w)]))
      && Echo(ws, cells, c, f) == if IntToString(w) != cells[c] then [ws[Index(c) := w]] else []
  {
  }

  /**
   * What the broadcasts come to on a table that shows the grid: one for each selected
   * cell whose text `str(f(entry, entry))` differs from the text it shows, carrying the
   * weights with `f` applied to the entries of the cells up to it.
   */
  function Changes(ws: seq<int>, cells: map<Cell, string>, sel: seq<Cell>, f: (int, int) -> int): seq<seq<int>>
    requires |ws| == WEIGHT_COUNT && forall c :: InGrid(c) ==> c in cells
    requires forall i :: 0 <= i < |sel| ==> InGrid(sel[i])
  {
    if sel == [] then []
    else
      var c := sel[|sel| - 1];
      assert InGrid(c);
      var v := ws[Index(c)];
      Changes(ws, cells, sel[..|sel| - 1], f) + if IntToString(f(v, v)) != cells[c] then [Adjusted(ws, Indices(sel), f)] else []
  }

  /** A cell showing its entry gets a different text whenever `f` changes the entry. */
  lemma ChangedEntryChangesText(v: int, shown: string, w: int)
    requires ParseInt(shown) == Some(v) && w != v
    ensures IntToString(w) != shown
  {
    IntToStringParses(w);
  }

  /** On a table that shows the grid, with distinct selected cells, the broadcasts are `Changes`. */
  lemma {:induction false} EchoesSynced(ws: seq<int>, cells: map<Cell, string>, sel: seq<Cell>, f: (int, int) -> int)
    requires Synced(ws, cells) && Distinct(sel)
    requires forall i :: 0 <= i < |sel| ==> InGrid(sel[i])
    ensures Echoes(ws, cells, sel, f) == Changes(ws, cells, sel, f)
  {
    if sel != [] {
      var init, c := sel[..|sel| - 1], sel[|sel| - 1];
      assert Distinct(init);
      EchoesSynced(ws, cells, init, f);
      AdjustAllSynced(ws, cells, init, f);
      var before := AdjustAll(ws, cells, init, f);
      IndicesSnoc(sel);
      AdjustStep(ws, before.0, before.1, Indices(init), c, f);
      UntouchedCell(ws, cells, init, c, f);
    }
  }

  /** The loop leaves the text of a cell it has not visited as it was. */
  lemma {:induction false} UntouchedCell(ws: seq<int>, cells: map<Cell, string>, sel: seq<Cell>, c: Cell, f: (int, int) -> int)
    requires |ws| == WEIGHT_COUNT && forall d :: InGrid(d) ==> d in cells
    requires forall i :: 0 <= i < |sel| ==> InGrid(sel[i])
    requires InGrid(c) && c !in sel
    ensures AdjustAll(ws, cells, sel, f).1[c] == cells[c]
  {
    if sel != [] {
      UntouchedCell(ws, cells, sel[..|sel| - 1], c, f);
    }
  }

  /** One more selected cell: the loop's state and broadcasts after it, from those before it. */
  lemma ButtonStep(ws: seq<int>, cells: map<Cell, string>, sel: seq<Cell>, i: nat, f: (int, int) -> int)
    requires |ws| == WEIGHT_COUNT && forall c :: InGrid(c) ==> c in cells
    requires forall j :: 0 <= j < |sel| ==> InGrid(sel[j])
    requires i < |sel|
    ensures var before := AdjustAll(ws, cells, sel[..i], f);
      && AdjustAll(ws, cells, sel[..i + 1], f) == (match Adjust(before.0, before.1, sel[i], f)
        case None => before
        case Some(after) => after)
      && Echoes(ws, cells, sel[..i + 1], f) == Echoes(ws, cells, sel[..i], f) + Echo(before.0, before.1, sel[i], f)
  {
    assert sel[..i + 1][..i] == sel[..i];
  }

  /** Joining sequences does not depend on grouping. */
  lemma AppendAssoc<T>(a: seq<T>, b: seq<T>, c: seq<T>)
    ensures (a + b) + c == a + (b + c)
  {
  }

  /**
   * `+` always shows a new number, so on a table that shows the grid it broadcasts once
   * per selected cell, the k-th time with the first k + 1 selected entries raised.
   */
  lemma PlusBroadcastsEach(ws: seq<int>, cells: map<Cell, string>, sel: seq<Cell>)
    requires Synced(ws, cells)
    requires forall i :: 0 <= i < |sel| ==> InGrid(sel[i])
    ensures |Changes(ws, cells, sel, Plus)| == |sel|
    ensures forall k :: 0 <= k < |sel| ==> Changes(ws, cells, sel, Plus)[k] == Adjusted(ws, Indices(sel[..k + 1]), Plus)
  {
    PlusChangesCount(ws, cells, sel);
    forall k | 0 <= k < |sel|
      ensures Changes(ws, cells, sel, Plus)[k] == Adjusted(ws, Indices(sel[..k + 1]), Plus)
    {
      PlusChangesAt(ws, cells, sel, k);
    }
  }

  /** Under `+`, one broadcast per selected cell. */
  lemma {:induction false} PlusChangesCount(ws: seq<int>, cells: map<Cell, string>, sel: seq<Cell>)
    requires Synced(ws, cells)
    requires forall i :: 0 <= i < |sel| ==> InGrid(sel[i])
    ensures |Changes(ws, cells, sel, Plus)| == |sel|
  {
    if sel != [] {
      PlusChangesCount(ws, cells, sel[..|sel| - 1]);
      PlusChangesLast(ws, cells, sel);
    }
  }

  /** Under `+`, the k-th broadcast carries the first k + 1 selected entries raised. */
  lemma {:induction false} PlusChangesAt(ws: seq<int>, cells: map<Cell, string>, sel: seq<Cell>, k: nat)
    requires Synced(ws, cells) && k < |sel|
    requires forall i :: 0 <= i < |sel| ==> InGrid(sel[i])
    ensures k < |Changes(ws, cells, sel, Plus)|
    ensures Changes(ws, cells, sel, Plus)[k] == Adjusted(ws, Indices(sel[..k + 1]), Plus)
  {
    var init := sel[..|sel| - 1];
    PlusChangesLast(ws, cells, sel);
    PlusChangesCount(ws, cells, init);
    if k == |sel| - 1 {
      assert sel[..k + 1] == sel;
    } else {
      PlusChangesAt(ws, cells, init, k);
      assert init[..k + 1] == sel[..k + 1];
    }
  }


  /** The last selected cell always adds a broadcast under `+`. */
  lemma PlusChangesLast(ws: seq<int>, cells: map<Cell, string>, sel: seq<Cell>)
    requires Synced(ws, cells) && sel != []
    requires forall i :: 0 <= i < |sel| ==> InGrid(sel[i])
    ensures Changes(ws, cells, sel, Plus) == Changes(ws, cells, sel[..|sel| - 1], Plus) + [Adjusted(ws, Indices(sel), Plus)]
  {
    var c := sel[|sel| - 1];
    var v := ws[Index(c)];
    ReadsBackAt(ParseInt, ws, cells, c);
    ChangedEntryChangesText(v, cells[c], Plus(v, v));
  }


  /** `Experiment`, the experiment window, with the state its grid and reading handlers keep. */
  class Experiment {
    /** `weight_a`. */
    var weightA: seq<int>
    /** The texts of the 3×3 `weight_table`. */
    var cells: map<Cell, string>
    /** `count`, the layout counter. */
    var count: int
    /** `weight_total`, the grid total at the previous reading. */
    var weightTotal: int
    /** `last_direction`. */
    var lastDirection: char
    /** `is_paused_global`, which nothing sets. */
    const isPausedGlobal: bool
    /** The ports of `port_index`, one sensor column each. */
    const ports: seq<string>
    /** `port_location`, the display name of a port. */
    const portLocation: map<string, string>
    /** The raw-data log is open. */
    var logOpen: bool
    /**
     * The lines this window has written to the raw-data log. The file is opened for
     * appending, so lines from earlier runs of the same day come before them.
     */
    var log: seq<string>
    /** The grids handed to the subscribers by `broadcast_weight`, in order. */
    var broadcasts: seq<seq<int>>

    /** The table shows the grid. */
    ghost predicate Valid()
      reads this
    {
      Synced(weightA, cells)
    }

    /**
     * A new window: nine zeros shown in the table, total 0, direction `-`, not paused, the
     * raw-data log open with nothing written to it yet by this window. `setupUI` connects
     * `cellChanged` before laying out the table, so each of the nine `setItem` calls
     * broadcasts the zero grid, to a subscriber list that is still empty.
     */
    constructor(ports: seq<string>, portLocation: map<string, string>)
      ensures Valid()
      ensures weightA == Filled(0, WEIGHT_COUNT) && cells == Rendered(weightA) && count == WEIGHT_COUNT
      ensures weightTotal == 0 && lastDirection == '-' && !isPausedGlobal
      ensures this.ports == ports && this.portLocation == portLocation
      ensures logOpen && log == [] && broadcasts == Filled(weightA, WEIGHT_COUNT)
    {
      weightA, cells, count := Filled(0, WEIGHT_COUNT), map[], 0;
      weightTotal, lastDirection, isPausedGlobal := 0, '-', false;
      this.ports, this.portLocation := ports, portLocation;
      logOpen, log, broadcasts := true, [], [];
      new;
      LayOutGrid();
      LaidAll(weightA, map[]);
      RenderedSynced(weightA);
    }

    /** `port_location.get(port, port)`. */
    function Name(port: string): string {
      if port in portLocation then portLocation[port] else port
    }

    /**
     * A bound on the activations of `onCellChanged` that cell c can still set off: none once
     * the cell shows its entry's number, or -1 outside the weights, since the handler then
     * writes no new text and Qt raises no further `cellChanged`.
     */
    function Rewrites(c: Cell): nat
      reads this
    {
      if c !in cells then 0
      else if 0 <= Index(c) < |weightA| then (if cells[c] == IntToString(weightA[Index(c)]) then 0 else 1)
      else if cells[c] != "-1" then 1 else 0
    }

    /**
     * `onCellChanged(row, col)`, with the activations it sets off: the grid and table change
     * as `CellChanged` says, and the grid is broadcast once for any cell of the grid. A
     * number is stored and broadcast. Other text is replaced by the entry's number (`Revert`),
     * and a cell outside the weights is set to -1 (`MarkOutside`).
     */
    method OnCellChanged(row: int, col: int)
      modifies this
      ensures (weightA, cells) == CellChanged(old(weightA), old(cells), (row, col))
      ensures var c := (row, col);
        broadcasts == old(broadcasts) + if c in old(cells) && 0 <= Index(c) < |old(weightA)| then [weightA] else []
      ensures count == old(count) && weightTotal == old(weightTotal) && lastDirection == old(lastDirection)
      ensures logOpen == old(logOpen) && log == old(log)
      decreases Rewrites((row, col)), 1
    {
      var c := (row, col);
      if c !in cells {
        return;
      }
      var index := row * 3 + col;
      if 0 <= index < |weightA| {
        match ParseInt(cells[c]) {
          case Some(v) =>
            weightA := weightA[index := v];
            broadcasts := broadcasts + [weightA];
          case None =>
            IntToStringParses(weightA[index]);
            Revert(c);
        }
      } else if cells[c] != "-1" {
        MarkOutside(c);
      } else {
        assert cells[c := "-1"] == cells;
      }
    }

    /**
     * `item.setText(str(prev_value))` for a cell whose text `int` rejects: the text changes,
     * so Qt raises `cellChanged` again, and the nested activation reads the number back,
     * stores it unchanged and broadcasts the grid.
     */
    method Revert(c: Cell)
      requires c in cells && 0 <= Index(c) < |weightA| && cells[c] != IntToString(weightA[Index(c)])
      modifies this
      ensures weightA == old(weightA) && cells == old(cells)[c := IntToString(weightA[Index(c)])]
      ensures broadcasts == old(broadcasts) + [weightA]
      ensures count == old(count) && weightTotal == old(weightTotal) && lastDirection == old(lastDirection)
      ensures logOpen == old(logOpen) && log == old(log)
      decreases Rewrites(c), 0
    {
      var prev := weightA[Index(c)];
      IntToStringParses(prev);
      ReadBackStays(weightA, cells, c, IntToString(prev));
      cells := cells[c := IntToString(prev)];
      OnCellChanged(c.0, c.1);
    }

    /**
     * `item.setText(str(-1))` for a cell outside the weights that shows other text: Qt raises
     * `cellChanged` again, and the nested activation finds -1 already shown, so its own
     * `setText` changes nothing and raises nothing.
     */
    method MarkOutside(c: Cell)
      requires c in cells && !(0 <= Index(c) < |weightA|) && cells[c] != "-1"
      modifies this
      ensures weightA == old(weightA) && cells == old(cells)[c := "-1"] && broadcasts == old(broadcasts)
      ensures count == old(count) && weightTotal == old(weightTotal) && lastDirection == old(lastDirection)
      ensures logOpen == old(logOpen) && log == old(log)
      decreases Rewrites(c), 0
    {
      cells := cells[c := "-1"];
      assert cells[c := "-1"] == cells;
      OnCellChanged(c.0, c.1);
    }

    /**
     * The operator types `text` into cell (row, col). Qt raises `cellChanged` only when the
     * text differs from the cell's: then a number is stored at entry 3·row + col, other text
     * is put back to the entry, and either way the grid is broadcast once. The table still
     * shows the grid.
     */
    method EditCell(row: int, col: int, text: string)
      requires Valid() && InGrid((row, col))
      modifies this
      ensures Valid()
      ensures text == old(cells)[(row, col)] ==>
        weightA == old(weightA) && cells == old(cells) && broadcasts == old(broadcasts)
      ensures text != old(cells)[(row, col)] && ParseInt(text).Some? ==>
        && weightA == old(weightA)[Index((row, col)) := ParseInt(text).value]
        && cells == old(cells)[(row, col) := text] && broadcasts == old(broadcasts) + [weightA]
      ensures text != old(cells)[(row, col)] && ParseInt(text).None? ==>
        && weightA == old(weightA)
        && cells == old(cells)[(row, col) := IntToString(weightA[Index((row, col))])]
        && broadcasts == old(broadcasts) + [weightA]
      ensures count == old(count) && weightTotal == old(weightTotal) && lastDirection == old(lastDirection)
      ensures logOpen == old(logOpen) && log == old(log)
    {
      if text == cells[(row, col)] {
        return;
      }
      ghost var ws, cs := weightA, cells;
      cells := cells[(row, col) := text];
      OnCellChanged(row, col);
      EditCellSynced(ws, cs, (row, col), text);
      match ParseInt(text) {
        case Some(v) => EditCellAccepted(ws, cs, (row, col), text, v);
        case None => EditCellRejected(ws, cs, (row, col), text);
      }
    }

    /**
     * `item.setText(str(weight_a[index]))` for the cell of entry `index`: the cell shows the
     * entry. Qt raises `cellChanged` when the text changes, and that activation reads the
     * number back, keeps it and broadcasts the grid.
     */
    method ShowEntry(c: Cell)
      requires |weightA| == WEIGHT_COUNT && InGrid(c) && c in cells
      modifies this
      ensures weightA == old(weightA) && cells == old(cells)[c := IntToString(weightA[Index(c)])]
      ensures broadcasts == old(broadcasts) + if IntToString(weightA[Index(c)]) != old(cells)[c] then [weightA] else []
      ensures count == old(count) && weightTotal == old(weightTotal) && lastDirection == old(lastDirection)
      ensures logOpen == old(logOpen) && log == old(log)
    {
      var text := IntToString(weightA[Index(c)]);
      if text != cells[c] {
        IntToStringParses(weightA[Index(c)]);
        ReadBackStays(weightA, cells, c, text);
        cells := cells[c := text];
        OnCellChanged(c.0, c.1);
      }
    }

    /**
     * One pass of the loop of `weightP` and `weightM` for cell `c`: a cell whose text `int`
     * reads has its entry set to `f(entry, value)` and the new number shown, as `Adjust`
     * says, and a cell it cannot read is skipped. Showing a different text makes Qt raise
     * `cellChanged`, and that activation broadcasts the grid as it then stands.
     */
    method AdjustCell(c: Cell, f: (int, int) -> int)
      requires |weightA| == WEIGHT_COUNT && InGrid(c) && c in cells
      modifies this
      ensures (weightA, cells) == match Adjust(old(weightA), old(cells), c, f)
        case None => (old(weightA), old(cells))
        case Some(after) => after
      ensures broadcasts == old(broadcasts) + Echo(old(weightA), old(cells), c, f)
      ensures count == old(count) && weightTotal == old(weightTotal) && lastDirection == old(lastDirection)
      ensures logOpen == old(logOpen) && log == old(log)
    {
      var read := ParseInt(cells[c]);
      EchoOf(weightA, cells, c, f);
      if read.Some? {
        var index := Index(c);
        weightA := weightA[index := f(weightA[index], read.value)];
        ShowEntry(c);
      }
    }

    /** The loop of `weightP` and `weightM` over the selected cells, one `AdjustCell` each. */
    method Buttons(sel: seq<Cell>, f: (int, int) -> int)
      requires |weightA| == WEIGHT_COUNT && forall c :: InGrid(c) ==> c in cells
      requires forall i :: 0 <= i < |sel| ==> InGrid(sel[i])
      modifies this
      ensures (weightA, cells) == AdjustAll(old(weightA), old(cells), sel, f)
      ensures broadcasts == old(broadcasts) + Echoes(old(weightA), old(cells), sel, f)
      ensures count == old(count) && weightTotal == old(weightTotal) && lastDirection == old(lastDirection)
      ensures logOpen == old(logOpen) && log == old(log)
    {
      ghost var ws, cs, bs := weightA, cells, broadcasts;
      ghost var echoes: seq<seq<int>> := [];
      for i := 0 to |sel|
        invariant weightA == AdjustAll(ws, cs, sel[..i], f).0 && cells == AdjustAll(ws, cs, sel[..i], f).1
        invariant |weightA| == WEIGHT_COUNT && cells.Keys == cs.Keys
        invariant broadcasts == bs + echoes && echoes == Echoes(ws, cs, sel[..i], f)
        invariant count == old(count) && weightTotal == old(weightTotal) && lastDirection == old(lastDirection)
        invariant logOpen == old(logOpen) && log == old(log)
      {
        ButtonStep(ws, cs, sel, i, f);
        ghost var echo := Echo(weightA, cells, sel[i], f);
        AdjustCell(sel[i], f);
        AppendAssoc(bs, echoes, echo);
        echoes := echoes + echo;
      }
      assert sel[..|sel|] == sel;
    }

    /**
     * `weightP`: every selected entry goes up by 20, the others stay, and the table shows the
     * grid. Each selected cell is re-rendered with a new number, so the grid is broadcast once
     * per selected cell, the k-th time as it stands after the first k cells.
     */
    method WeightP(sel: seq<Cell>)
      requires Valid() && Distinct(sel) && forall i :: 0 <= i < |sel| ==> InGrid(sel[i])
      modifies this
      ensures Valid() && |weightA| == WEIGHT_COUNT
      ensures forall i :: 0 <= i < WEIGHT_COUNT ==> weightA[i] == if i in Indices(sel) then old(weightA)[i] + 20 else old(weightA)[i]
      ensures broadcasts == old(broadcasts) + Changes(old(weightA), old(cells), sel, Plus)
      ensures |broadcasts| == |old(broadcasts)| + |sel|
      ensures forall k :: |old(broadcasts)| <= k < |broadcasts| ==>
        broadcasts[k] == Adjusted(old(weightA), Indices(sel[..k - |old(broadcasts)| + 1]), Plus)
      ensures count == old(count) && weightTotal == old(weightTotal) && lastDirection == old(lastDirection)
      ensures logOpen == old(logOpen) && log == old(log)
    {
      AdjustAllSynced(weightA, cells, sel, Plus);
      EchoesSynced(weightA, cells, sel, Plus);
      PlusBroadcastsEach(weightA, cells, sel);
      Buttons(sel, Plus);
    }

    /**
     * `weightM`: every selected entry below 4 becomes 0 and every other selected entry goes
     * down by 20; the others stay, and the table shows the grid. The grid is broadcast once
     * for each selected cell whose text the button changes, as `Changes` lists.
     */
    method WeightM(sel: seq<Cell>)
      requires Valid() && Distinct(sel) && forall i :: 0 <= i < |sel| ==> InGrid(sel[i])
      modifies this
      ensures Valid() && |weightA| == WEIGHT_COUNT
      ensures forall i :: 0 <= i < WEIGHT_COUNT ==>
        weightA[i] == if i !in Indices(sel) then old(weightA)[i] else if old(weightA)[i] < 4 then 0 else old(weightA)[i] - 20
      ensures broadcasts == old(broadcasts) + Changes(old(weightA), old(cells), sel, Minus)
      ensures count == old(count) && weightTotal == old(weightTotal) && lastDirection == old(lastDirection)
      ensures logOpen == old(logOpen) && log == old(log)
    {
      AdjustAllSynced(weightA, cells, sel, Minus);
      EchoesSynced(weightA, cells, sel, Minus);
      Buttons(sel, Minus);
    }

    /**
     * `weight_table.setItem(row, col, QTableWidgetItem(str(weight_a[3·row + col])))`: the
     * cell gets a new item showing its entry, which always makes Qt raise `cellChanged`; the
     * activation reads the entry back unchanged and broadcasts the grid.
     */
    method SetItem(row: int, col: int)
      requires 0 <= Index((row, col)) < |weightA|
      modifies this
      ensures weightA == old(weightA) && cells == old(cells)[(row, col) := IntToString(weightA[Index((row, col))])]
      ensures broadcasts == old(broadcasts) + [weightA]
      ensures count == old(count) && weightTotal == old(weightTotal) && lastDirection == old(lastDirection)
      ensures logOpen == old(logOpen) && log == old(log)
    {
      var c := (row, col);
      var text := IntToString(weightA[Index(c)]);
      IntToStringParses(weightA[Index(c)]);
      ReadBackStays(weightA, cells, c, text);
      cells := cells[c := text];
      OnCellChanged(row, col);
    }

    /**
     * `weightZ`: the grid back to nine zeros, laid out afresh in the table. Each `setItem`
     * makes Qt raise `cellChanged`, and each activation stores 0 and broadcasts, so the
     * zero grid is broadcast nine times.
     */
    method WeightZ()
      requires Valid()
      modifies this
      ensures Valid() && weightA == Filled(0, WEIGHT_COUNT) && cells == Rendered(weightA) && count == WEIGHT_COUNT
      ensures broadcasts == old(broadcasts) + Filled(weightA, WEIGHT_COUNT)
      ensures weightTotal == old(weightTotal) && lastDirection == old(lastDirection)
      ensures logOpen == old(logOpen) && log == old(log)
    {
      weightA := Filled(0, WEIGHT_COUNT);
      count := 0;
      ghost var before := cells;
      LayOutGrid();
      LaidAll(weightA, before);
      RenderedSynced(weightA);
    }

    /**
     * The nested loops that put a new item showing `str(weight_a[count])` into each cell,
     * row by row, `count` going up from 0. Every `setItem` makes Qt raise `cellChanged`, whose
     * activation reads the entry back unchanged and broadcasts the grid: nine broadcasts.
     */
    method LayOutGrid()
      requires |weightA| == WEIGHT_COUNT && count == 0
      modifies this
      ensures weightA == old(weightA) && cells == Laid(weightA, old(cells), WEIGHT_COUNT, IntToString)
      ensures count == WEIGHT_COUNT && broadcasts == old(broadcasts) + Filled(weightA, WEIGHT_COUNT)
      ensures weightTotal == old(weightTotal) && lastDirection == old(lastDirection)
      ensures logOpen == old(logOpen) && log == old(log)
    {
      ghost var ws, before := weightA, cells;
      for row := 0 to 3
        invariant count == 3 * row && weightA == ws
        invariant cells == Laid(ws, before, count, IntToString)
        invariant broadcasts == old(broadcasts) + Filled(ws, count)
        invariant weightTotal == old(weightTotal) && lastDirection == old(lastDirection)
        invariant logOpen == old(logOpen) && log == old(log)
      {
        for col := 0 to 3
          invariant count == 3 * row + col && weightA == ws
          invariant cells == Laid(ws, before, count, IntToString)
          invariant broadcasts == old(broadcasts) + Filled(ws, count)
          invariant weightTotal == old(weightTotal) && lastDirection == old(lastDirection)
          invariant logOpen == old(logOpen) && log == old(log)
        {
          AppendAssoc(old(broadcasts), Filled(ws, count), [ws]);
          FilledSnoc(ws, count);
          LayEntry(before, row, col);
        }
      }
    }

    /**
     * One pass of the inner loop: a new item showing `str(weight_a[count])` goes into cell
     * (row, col) and `count` moves on. Qt raises `cellChanged`, and its activation reads the
     * entry back unchanged and broadcasts the grid.
     */
    method LayEntry(ghost before: map<Cell, string>, row: int, col: int)
      requires 0 <= row < 3 && 0 <= col < 3 && |weightA| == WEIGHT_COUNT
      requires count == 3 * row + col && cells == Laid(weightA, before, count, IntToString)
      modifies this
      ensures weightA == old(weightA) && count == old(count) + 1 && cells == Laid(weightA, before, count, IntToString)
      ensures broadcasts == old(broadcasts) + [weightA]
      ensures weightTotal == old(weightTotal) && lastDirection == old(lastDirection)
      ensures logOpen == old(logOpen) && log == old(log)
    {
      LaidStep(weightA, before, count, row, col, IntToString);
      assert Index((row, col)) == count;
      SetItem(row, col);
      count := count + 1;
    }

    /**
     * `handle_serial_data(port, data)`: a port without a column changes nothing. Otherwise the
     * total and direction move on first, whatever the reading turns out to be, and then the
     * reading is answered as `Respond` says; a log line goes to the raw-data log while it is open.
     */
    method HandleSerialData(port: string, data: seq<Point>, floatText: string -> Option<string>) returns (outcome: Outcome)
      modifies this
      ensures port !in ports ==>
        && outcome == UnknownPort
        && weightTotal == old(weightTotal) && lastDirection == old(lastDirection)
      ensures port in ports ==>
        && (weightTotal, lastDirection) == TrackStep((old(weightTotal), old(lastDirection)), Sum(weightA))
        && outcome == Respond(weightA, lastDirection, Name(port), if isPausedGlobal then 't' else 'f', data, floatText)
      ensures log == old(log) + if outcome.Line? && logOpen then [outcome.text] else []
      ensures weightA == old(weightA) && cells == old(cells) && count == old(count)
      ensures logOpen == old(logOpen) && broadcasts == old(broadcasts)
    {
      if port !in ports {
        return UnknownPort;
      }
      var total := Sum(weightA);
      var direction;
      if total > weightTotal {
        direction := 'U';
        lastDirection := direction;
      } else if total < weightTotal {
        direction := 'D';
        lastDirection := direction;
      } else {
        direction := lastDirection;
      }
      weightTotal := total;
      var stateFlag := if isPausedGlobal then 't' else 'f';
      var name := Name(port);
      outcome := Respond(weightA, direction, name, stateFlag, data, floatText);
      if outcome.Line? && logOpen {
        log := log + [outcome.text];
      }
    }

    /** `closeEvent`: the raw-data log is closed; later readings write nothing. */
    method Close()
      modifies this
      ensures !logOpen
      ensures weightA == old(weightA) && cells == old(cells) && count == old(count)
      ensures weightTotal == old(weightTotal) && lastDirection == old(lastDirection)
      ensures log == old(log) && broadcasts == old(broadcasts)
    {
      logOpen := false;
    }
  }
}
