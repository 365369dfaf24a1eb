/**
 * The stand-alone load-grid widget: nine entries that start at -1, the text of each
 * cell of its 3×3 table, and the + and − buttons that step the selected cells.
 */
module WeightTable {
  import opened Wrappers
  import opened PyText
  import opened PyList
  import opened WeightGrid

  /** `weight_update(True)`: an entry still at -1 becomes the shown value plus 21, any other the shown value plus 20. */
  function Raise(entry: int, shown: int): int {
    if entry == -1 then shown + 21 else shown + 20
  }

  /** `weight_update(False)`: the shown value minus 20, or 0 when it shows less than 20. */
  function Lower(entry: int, shown: int): int {
    if shown < 20 then 0 else shown - 20
  }

  /** A first `+` on an unset entry gives 20, like a `+` on an entry of 0. */
  lemma RaiseMeaning(v: int)
    ensures Raise(v, v) == if v == -1 then 20 else v + 20
    ensures Raise(-1, -1) == Raise(0, 0)
  {
  }

  /** `−` never takes an entry below 0, and it lowers by exactly 20 from 20 upwards. */
  lemma LowerMeaning(v: int)
    ensures Lower(v, v) >= 0
    ensures Lower(v, v) == 0 <==> v <= 20
    ensures v >= 20 ==> v - Lower(v, v) == 20
  {
  }

  /**
   * `weight_update` over the selected cells in turn. `int` of a cell's text is not guarded
   * here, so the first unreadable cell raises ValueError out of the loop: the flag is set and
   * the cells before it keep their new values.
   */
  function UpdateAll(ws: seq<int>, cells: map<Cell, string>, sel: seq<Cell>, f: (int, int) -> int): (r: (seq<int>, map<Cell, string>, bool))
    requires |ws| == WEIGHT_COUNT && forall c :: InGrid(c) ==> c in cells
    requires forall i :: 0 <= i < |sel| ==> InGrid(sel[i])
    ensures |r.0| == WEIGHT_COUNT && r.1.Keys == cells.Keys
  {
    if sel == [] then (ws, cells, false)
    else
      var before := UpdateAll(ws, cells, sel[..|sel| - 1], f);
      if before.2 then before
      else
        match Adjust(before.0, before.1, sel[|sel| - 1], f)
        case None => (before.0, before.1, true)
        case Some(after) => (after.0, after.1, false)
  }

  /** Once the ValueError is raised, the cells selected after it are not visited. */
  lemma {:induction false} UpdateAllStops(ws: seq<int>, cells: map<Cell, string>, sel: seq<Cell>, f: (int, int) -> int, k: nat)
    requires |ws| == WEIGHT_COUNT && forall c :: InGrid(c) ==> c in cells
    requires forall i :: 0 <= i < |sel| ==> InGrid(sel[i])
    requires k <= |sel| && UpdateAll(ws, cells, sel[..k], f).2
    ensures UpdateAll(ws, cells, sel, f) == UpdateAll(ws, cells, sel[..k], f)
  {
    if k < |sel| {
      var init := sel[..|sel| - 1];
      assert init[..k] == sel[..k];
      UpdateAllStops(ws, cells, init, f, k);
    } else {
      assert sel[..k] == sel;
    }
  }

  /**
   * On a table that shows its weights, nothing is raised, and the buttons do what the
   * skipping loop of `AdjustAll` does: each selected entry stepped once, the others kept,
   * and the table still showing the weights.
   */
  lemma {:induction false} UpdateAllSynced(ws: seq<int>, cells: map<Cell, string>, sel: seq<Cell>, f: (int, int) -> int)
    requires Synced(ws, cells) && Distinct(sel)
    requires forall i :: 0 <= i < |sel| ==> InGrid(sel[i])
    ensures !UpdateAll(ws, cells, sel, f).2
    ensures UpdateAll(ws, cells, sel, f).0 == AdjustAll(ws, cells, sel, f).0
    ensures UpdateAll(ws, cells, sel, f).1 == AdjustAll(ws, cells, sel, f).1
  {
    if sel != [] {
      var init := sel[..|sel| - 1];
      assert Distinct(init);
      UpdateAllSynced(ws, cells, init, f);
      AdjustAllSynced(ws, cells, init, f);
      var before := AdjustAll(ws, cells, init, f);
      AdjustSynced(before.0, before.1, sel[|sel| - 1], f);
    }
  }

  /** The loop of `weight_update` on the weights and the table's texts; `raised` when `int` fails. */
  method UpdateCells(ws: seq<int>, cells: map<Cell, string>, sel: seq<Cell>, f: (int, int) -> int)
    returns (ws': seq<int>, cells': map<Cell, string>, raised: bool)
    requires |ws| == WEIGHT_COUNT && forall c :: InGrid(c) ==> c in cells
    requires forall i :: 0 <= i < |sel| ==> InGrid(sel[i])
    ensures (ws', cells', raised) == UpdateAll(ws, cells, sel, f)
  {
    ws', cells', raised := ws, cells, false;
    var i := 0;
    while i < |sel| && !raised
      invariant 0 <= i <= |sel|
      invariant (ws', cells', raised) == UpdateAll(ws, cells, sel[..i], f)
    {
      assert sel[..i + 1][..i] == sel[..i];
      var c := sel[i];
      match ParseInt(cells'[c]) {
        case None =>
          raised := true;
        case Some(v) =>
          var w := f(ws'[Index(c)], v);
          ws' := ws'[Index(c) := w];
          cells' := cells'[c := IntToString(w)];
      }
      i := i + 1;
    }
    if raised {
      UpdateAllStops(ws, cells, sel, f, i);
    } else {
      assert sel[..i] == sel;
    }
  }

  /** `WeightTable`, the widget with its grid, its table and its layout counter. */
  class WeightTable {
    /** `weight_a`. */
    var weightA: seq<int>
    /** The texts of the 3×3 `weight_table`. */
    var cells: map<Cell, string>
    /** `count`, the layout counter. */
    var count: int

    /** The table shows the grid. */
    ghost predicate Valid()
      reads this
    {
      Synced(weightA, cells)
    }

    /** A new widget: nine entries of -1, each shown in its cell. */
    constructor()
      ensures Valid()
      ensures weightA == Filled(-1, WEIGHT_COUNT) && cells == Rendered(weightA) && count == WEIGHT_COUNT
    {
      weightA := Filled(-1, WEIGHT_COUNT);
      new;
      cells, count := LayOut(weightA, map[]);
      LaidAll(weightA, map[]);
      RenderedSynced(weightA);
    }

    /** `onCellChanged(row, col)`: the grid and the table change as `CellChanged` says. */
    method OnCellChanged(row: int, col: int)
      modifies this
      ensures (weightA, cells) == CellChanged(old(weightA), old(cells), (row, col))
      ensures count == old(count)
    {
      var c := (row, col);
      if c !in cells {
        return;
      }
      var index := row * 3 + col;
      if 0 <= index < |weightA| {
        match ParseInt(cells[c]) {
          case Some(v) =>
            weightA := weightA[index := v];
          case None =>
            cells := cells[c := IntToString(weightA[index])];
        }
      } else {
        cells := cells[c := "-1"];
      }
    }

    /**
     * The operator types `text` into cell (row, col) and Qt raises `cellChanged`: a number is
     * stored at entry 3·row + col, other text is put back to the entry; the table still
     * shows the grid.
     */
    method EditCell(row: int, col: int, text: string)
      requires Valid() && InGrid((row, col))
      modifies this
      ensures Valid() && count == old(count)
      ensures ParseInt(text).Some? ==>
        && weightA == old(weightA)[Index((row, col)) := ParseInt(text).value]
        && cells == old(cells)[(row, col) := text]
      ensures ParseInt(text).None? ==>
        && weightA == old(weightA)
        && cells == old(cells)[(row, col) := IntToString(weightA[Index((row, col))])]
    {
      ghost var ws, cs := weightA, cells;
      cells := cells[(row, col) := text];
      OnCellChanged(row, col);
      EditCellSynced(ws, cs, (row, col), text);
      match ParseInt(text) {
        case Some(v) =>
          EditCellAccepted(ws, cs, (row, col), text, v);
        case None =>
          EditCellRejected(ws, cs, (row, col), text);
      }
    }

    /**
     * `weight_update(tf)` on the selected cells: the grid and table change as `UpdateAll`
     * says, `raised` when an unreadable cell ends the loop. On a table that shows the grid,
     * nothing is raised, each selected entry is stepped by `Raise` (`+`) or `Lower` (`−`) once,
     * the others stay, and the table still shows the grid.
     */
    method WeightUpdate(tf: bool, sel: seq<Cell>) returns (raised: bool)
      requires |weightA| == WEIGHT_COUNT && forall c :: InGrid(c) ==> c in cells
      requires forall i :: 0 <= i < |sel| ==> InGrid(sel[i])
      modifies this
      ensures (weightA, cells, raised) == UpdateAll(old(weightA), old(cells), sel, if tf then Raise else Lower)
      ensures count == old(count)
      ensures old(Valid()) && Distinct(sel) ==>
        && Valid() && !raised
        && forall i :: 0 <= i < WEIGHT_COUNT ==>
          weightA[i] == if i in Indices(sel) then (if tf then Raise else Lower)(old(weightA)[i], old(weightA)[i]) else old(weightA)[i]
    {
      var f := if tf then Raise else Lower;
      if Valid() && Distinct(sel) {
        UpdateAllSynced(weightA, cells, sel, f);
        AdjustAllSynced(weightA, cells, sel, f);
      }
      weightA, cells, raised := UpdateCells(weightA, cells, sel, f);
    }
  }
}
