/**
 * The 3×3 load grid that `experiment.py` and `weight_table.py` both keep: nine weights
 * `weight_a`, shown in a 3×3 table whose cell (r, c) holds entry 3r + c, edited by hand
 * or by the +/- buttons on the selected cells.
 */
module WeightGrid {
  import opened Wrappers
  import opened PyText

  /** A table cell (row, column). */
  type Cell = (int, int)

  /** The cells of the 3×3 table. */
  const GRID: set<Cell> := {(0, 0), (0, 1), (0, 2), (1, 0), (1, 1), (1, 2), (2, 0), (2, 1), (2, 2)}

  /** The number of grid entries. */
  const WEIGHT_COUNT: nat := 9

  /** `row * 3 + col`. */
  function Index(c: Cell): int {
    c.0 * 3 + c.1
  }

  /** A cell inside the 3×3 table. */
  predicate InGrid(c: Cell) {
    0 <= c.0 < 3 && 0 <= c.1 < 3
  }

  /** GRID holds exactly the cells inside the table. */
  lemma GridCells()
    ensures forall c :: c in GRID <==> InGrid(c)
  {
  }

  /** Every cell of the table holds one of the nine entries, and no two cells the same one. */
  lemma IndexInjective()
    ensures forall c :: InGrid(c) ==> 0 <= Index(c) < WEIGHT_COUNT
    ensures forall c, d :: InGrid(c) && InGrid(d) && Index(c) == Index(d) ==> c == d
  {
  }

  /** Every entry i is shown, in cell (i / 3, i % 3). */
  lemma IndexOnto(i: int)
    requires 0 <= i < WEIGHT_COUNT
    ensures InGrid((i / 3, i % 3)) && Index((i / 3, i % 3)) == i
  {
  }

  /** The table texts for the weights: `str(weight_a[3r + c])` in cell (r, c). */
  function Rendered(ws: seq<int>): (cells: map<Cell, string>)
    requires |ws| == WEIGHT_COUNT
    ensures forall c :: c in cells <==> InGrid(c)
  {
    map c | c in GRID :: IntToString(ws[Index(c)])
  }

  /**
   * The table after the layout loops have placed their first k items: row by row, cell
   * (k / 3, k % 3) gets the text `show` gives entry k.
   */
  function Laid(ws: seq<int>, cells: map<Cell, string>, k: nat, show: int -> string): map<Cell, string>
    requires k <= |ws|
  {
    if k == 0 then cells else Laid(ws, cells, k - 1, show)[((k - 1) / 3, (k - 1) % 3) := show(ws[k - 1])]
  }

  /** After k items the table has the cells it had and the first k grid cells, each showing its entry. */
  lemma {:induction false} LaidShape(ws: seq<int>, cells: map<Cell, string>, k: nat, show: int -> string)
    requires k <= |ws| == WEIGHT_COUNT
    ensures forall c :: c in Laid(ws, cells, k, show) <==> c in cells || (InGrid(c) && Index(c) < k)
    ensures forall c :: InGrid(c) && Index(c) < k ==> Laid(ws, cells, k, show)[c] == show(ws[Index(c)])
  {
    if k > 0 {
      LaidShape(ws, cells, k - 1, show);
      IndexOnto(k - 1);
      IndexInjective();
    }
  }

  /** Placing the item of cell (row, col) is the next step of the layout. */
  lemma LaidStep(ws: seq<int>, cells: map<Cell, string>, k: nat, row: int, col: int, show: int -> string)
    requires |ws| == WEIGHT_COUNT && 0 <= row < 3 && 0 <= col < 3 && k == 3 * row + col
    ensures Laid(ws, cells, k + 1, show) == Laid(ws, cells, k, show)[(row, col) := show(ws[k])]
  {
    assert k / 3 == row && k % 3 == col;
  }


  /** Once all nine items are placed over a table with no cells outside the grid, it shows the weights. */
  lemma LaidAll(ws: seq<int>, cells: map<Cell, string>)
    requires |ws| == WEIGHT_COUNT && forall c :: c in cells ==> InGrid(c)
    ensures Laid(ws, cells, WEIGHT_COUNT, IntToString) == Rendered(ws)
  {
    LaidShape(ws, cells, WEIGHT_COUNT, IntToString);
    GridCells();
    IndexInjective();
  }

  /**
   * The nested layout loops of both windows: row by row, cell (row, col) gets a fresh item
   * showing `str(weight_a[count])`, and `count` goes up by one per cell.
   */
  method LayOut(ws: seq<int>, cells: map<Cell, string>) returns (laid: map<Cell, string>, count: int)
    requires |ws| == WEIGHT_COUNT
    ensures laid == Laid(ws, cells, WEIGHT_COUNT, IntToString) && count == WEIGHT_COUNT
  {
    laid, count := cells, 0;
    for row := 0 to 3
      invariant count == 3 * row
      invariant laid == Laid(ws, cells, count, IntToString)
    {
      for col := 0 to 3
        invariant count == 3 * row + col
        invariant laid == Laid(ws, cells, count, IntToString)
      {
        LaidStep(ws, cells, count, row, col, IntToString);
        laid := laid[(row, col) := IntToString(ws[count])];
        count := count + 1;
      }
    }
  }

  /** The table has exactly the nine cells, and `read` reads every cell's text as its entry. */
  ghost predicate ReadsBack(read: string -> Option<int>, ws: seq<int>, cells: map<Cell, string>) {
    && |ws| == WEIGHT_COUNT
    && (forall c :: c in cells <==> InGrid(c))
    && forall c {:trigger read(cells[c])} :: c in cells ==> read(cells[c]) == Some(ws[Index(c)])
  }

  /** Every cell's text reads back, with `int`, as its entry. */
  ghost predicate Synced(ws: seq<int>, cells: map<Cell, string>) {
    ReadsBack(ParseInt, ws, cells)
  }

  /** Writing into one cell a text that reads as the value then stored for it keeps every cell reading back. */
  lemma ReadsBackUpdate(read: string -> Option<int>, ws: seq<int>, cells: map<Cell, string>, c: Cell, v: int, text: string)
    requires ReadsBack(read, ws, cells) && InGrid(c) && read(text) == Some(v)
    ensures ReadsBack(read, ws[Index(c) := v], cells[c := text])
  {
  }

  /** The reading of one cell. */
  lemma ReadsBackAt(read: string -> Option<int>, ws: seq<int>, cells: map<Cell, string>, c: Cell)
    requires ReadsBack(read, ws, cells) && c in cells
    ensures read(cells[c]) == Some(ws[Index(c)])
  {
  }

  /** A freshly rendered table shows its weights. */
  lemma RenderedSynced(ws: seq<int>)
    requires |ws| == WEIGHT_COUNT
    ensures Synced(ws, Rendered(ws))
  {
    forall c | InGrid(c) ensures ParseInt(Rendered(ws)[c]) == Some(ws[Index(c)]) {
      IntToStringParses(ws[Index(c)]);
    }
  }

  /** `int` strips its argument itself, so stripping first reads the same number. */
  lemma ParseIntStrip(t: string)
    ensures ParseInt(Strip(t)) == ParseInt(t)
  {
    StripNoSpace(Strip(t));
  }

  /**
   * `onCellChanged(row, col)` for cell c = (row, col): nothing for a missing item; text that
   * `int` reads is stored at entry 3·row + col; other text is replaced by the entry's text; a
   * cell whose index is outside the weights is set to -1. The handler strips the text before
   * `int`, which strips it again (ParseIntStrip), so the text is read as it stands.
   */
  function CellChanged(ws: seq<int>, cells: map<Cell, string>, c: Cell): (seq<int>, map<Cell, string>) {
    if c !in cells then (ws, cells)
    else
      var index := Index(c);
      if 0 <= index < |ws| then
        match ParseInt(cells[c])
        case Some(v) => (ws[index := v], cells)
        case None => (ws, cells[c := IntToString(ws[index])])
      else (ws, cells[c := "-1"])
  }

  /** Typing into a cell a text that `int` reads stores it as the cell's entry; nothing else changes. */
  lemma EditCellAccepted(ws: seq<int>, cells: map<Cell, string>, c: Cell, text: string, v: int)
    requires |ws| == WEIGHT_COUNT && InGrid(c) && ParseInt(text) == Some(v)
    ensures CellChanged(ws, cells[c := text], c) == (ws[Index(c) := v], cells[c := text])
  {
  }

  /** Typing into a cell a text that `int` rejects puts the cell back to its entry's text; the weights stay as they were. */
  lemma EditCellRejected(ws: seq<int>, cells: map<Cell, string>, c: Cell, text: string)
    requires |ws| == WEIGHT_COUNT && InGrid(c) && ParseInt(text).None?
    ensures CellChanged(ws, cells[c := text], c) == (ws, cells[c := IntToString(ws[Index(c)])])
  {
    var t := IntToString(ws[Index(c)]);
    assert cells[c := text][c := t] == cells[c := t];
  }

  /** Whatever is typed into a cell, the table afterwards still shows the weights. */
  lemma EditCellSynced(ws: seq<int>, cells: map<Cell, string>, c: Cell, text: string)
    requires Synced(ws, cells) && InGrid(c)
    ensures Synced(CellChanged(ws, cells[c := text], c).0, CellChanged(ws, cells[c := text], c).1)
  {
    match ParseInt(text)
    case Some(v) =>
      EditCellAccepted(ws, cells, c, text, v);
      ReadsBackUpdate(ParseInt, ws, cells, c, v, text);
    case None =>
      EditCellRejected(ws, cells, c, text);
      IntToStringParses(ws[Index(c)]);
      ReadsBackUpdate(ParseInt, ws, cells, c, ws[Index(c)], IntToString(ws[Index(c)]));
      assert ws[Index(c) := ws[Index(c)]] == ws;
  }

  /** A cell whose text `int` reads as its entry leaves the weights and the texts as they are. */
  lemma ReadBackStays(ws: seq<int>, cells: map<Cell, string>, c: Cell, text: string)
    requires 0 <= Index(c) < |ws| && ParseInt(text) == Some(ws[Index(c)])
    ensures CellChanged(ws, cells[c := text], c) == (ws, cells[c := text])
  {
    assert ws[Index(c) := ws[Index(c)]] == ws;
  }

  /**
   * Rendering an entry back into its cell, as `setText(str(...))` does, raises
   * `cellChanged` again; that second call changes nothing.
   */
  lemma RerenderIsNoOp(ws: seq<int>, cells: map<Cell, string>, c: Cell)
    requires |ws| == WEIGHT_COUNT && InGrid(c)
    ensures var cells' := cells[c := IntToString(ws[Index(c)])];
      CellChanged(ws, cells', c) == (ws, cells')
  {
    var w := ws[Index(c)];
    IntToStringParses(w);
    ReadBackStays(ws, cells, c, IntToString(w));
  }

  /**
   * The +/- buttons on one selected cell: `int(text)` of the cell, then entry 3r + c set to
   * `f(entry, value)` and the cell re-rendered; None where `int` raises ValueError.
   */
  function Adjust(ws: seq<int>, cells: map<Cell, string>, c: Cell, f: (int, int) -> int): (r: Option<(seq<int>, map<Cell, string>)>)
    requires |ws| == WEIGHT_COUNT && InGrid(c) && c in cells
    ensures r.Some? ==> |r.value.0| == WEIGHT_COUNT && r.value.1.Keys == cells.Keys
  {
    match ParseInt(cells[c])
    case None => None
    case Some(v) =>
      var w := f(ws[Index(c)], v);
      Some((ws[Index(c) := w], cells[c := IntToString(w)]))
  }

  /** The selected cells in turn, each unreadable cell skipped (`except ValueError: continue`). */
  function AdjustAll(ws: seq<int>, cells: map<Cell, string>, sel: seq<Cell>, f: (int, int) -> int): (r: (seq<int>, map<Cell, string>))
    requires |ws| == WEIGHT_COUNT && forall c :: InGrid(c) ==> c in cells
    requires forall i :: 0 <= i < |sel| ==> InGrid(sel[i])
    ensures |r.0| == WEIGHT_COUNT && r.1.Keys == cells.Keys
  {
    if sel == [] then (ws, cells)
    else
      var before := AdjustAll(ws, cells, sel[..|sel| - 1], f);
      match Adjust(before.0, before.1, sel[|sel| - 1], f)
      case None => before
      case Some(after) => after
  }

  /** The entries of the selected cells. */
  function Indices(sel: seq<Cell>): set<int> {
    set i | 0 <= i < |sel| :: Index(sel[i])
  }

  /** The weights after applying `f` to the entries at `idx`. */
  function Adjusted(ws: seq<int>, idx: set<int>, f: (int, int) -> int): (r: seq<int>)
    ensures |r| == |ws|
    ensures forall i :: 0 <= i < |ws| ==> r[i] == if i in idx then f(ws[i], ws[i]) else ws[i]
  {
    seq(|ws|, i requires 0 <= i < |ws| => if i in idx then f(ws[i], ws[i]) else ws[i])
  }

  /** The last of distinct cells in the grid adds a new entry to those of the cells before it. */
  lemma IndicesSnoc(sel: seq<Cell>)
    requires sel != [] && Distinct(sel) && forall i :: 0 <= i < |sel| ==> InGrid(sel[i])
    ensures Index(sel[|sel| - 1]) !in Indices(sel[..|sel| - 1])
    ensures Indices(sel) == Indices(sel[..|sel| - 1]) + {Index(sel[|sel| - 1])}
  {
    var init, c := sel[..|sel| - 1], sel[|sel| - 1];
    IndexInjective();
    forall i | 0 <= i < |init| ensures Index(init[i]) != Index(c) {
      assert init[i] == sel[i] && sel[i] != c;
    }
    forall i | 0 <= i < |init| ensures Index(init[i]) == Index(sel[i]) {
    }
  }

  /** Distinct cells, as `selectedItems()` returns them. */
  predicate Distinct(sel: seq<Cell>) {
    forall i, j :: 0 <= i < j < |sel| ==> sel[i] != sel[j]
  }

  /**
   * On a table that shows its weights, the buttons apply `f` to the entry of every
   * selected cell, once, leave the other entries alone, and the table still shows the
   * weights.
   */
  lemma {:induction false} AdjustAllSynced(ws: seq<int>, cells: map<Cell, string>, sel: seq<Cell>, f: (int, int) -> int)
    requires Synced(ws, cells) && Distinct(sel)
    requires forall i :: 0 <= i < |sel| ==> InGrid(sel[i])
    ensures Synced(AdjustAll(ws, cells, sel, f).0, AdjustAll(ws, cells, sel, f).1)
    ensures AdjustAll(ws, cells, sel, f).0 == Adjusted(ws, Indices(sel), f)
  {
    if sel == [] {
      assert Adjusted(ws, {}, f) == ws;
    } else {
      var init := sel[..|sel| - 1];
      var c := sel[|sel| - 1];
      AdjustAllSynced(ws, cells, init, f);
      var before := AdjustAll(ws, cells, init, f);
      IndicesSnoc(sel);
      AdjustStep(ws, before.0, before.1, Indices(init), c, f);
    }
  }

  /** On a table that shows its weights, a button reads a cell's entry from its text and stores and shows `f` of it. */
  lemma AdjustSynced(ws: seq<int>, cells: map<Cell, string>, c: Cell, f: (int, int) -> int)
    requires Synced(ws, cells) && InGrid(c)
    ensures var w := f(ws[Index(c)], ws[Index(c)]);
      && Adjust(ws, cells, c, f) == Some((ws[Index(c) := w], cells[c := IntToString(w)]))
      && Synced(ws[Index(c) := w], cells[c := IntToString(w)])
  {
    var w := f(ws[Index(c)], ws[Index(c)]);
    ReadsBackAt(ParseInt, ws, cells, c);
    IntToStringParses(w);
    ReadsBackUpdate(ParseInt, ws, cells, c, w, IntToString(w));
  }

  /** One more selected cell, not yet adjusted, on a table in step with partially adjusted weights. */
  lemma AdjustStep(ws: seq<int>, cur: seq<int>, cells: map<Cell, string>, idx: set<int>, c: Cell, f: (int, int) -> int)
    requires Synced(cur, cells) && InGrid(c) && |ws| == WEIGHT_COUNT
    requires cur == Adjusted(ws, idx, f) && Index(c) !in idx
    ensures Adjust(cur, cells, c, f).Some?
    ensures Synced(Adjust(cur, cells, c, f).value.0, Adjust(cur, cells, c, f).value.1)
    ensures Adjust(cur, cells, c, f).value.0 == Adjusted(ws, idx + {Index(c)}, f)
  {
    assert cur[Index(c)] == ws[Index(c)];
    AdjustSynced(cur, cells, c, f);
  }
}
