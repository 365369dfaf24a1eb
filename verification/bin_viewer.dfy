/**
 * `log/tool/bin_viewer.py`: reads a binary log into rows of eight values and shows them
 * in a table, one row per 52-byte record.
 */
module BinViewer {
  import opened Wrappers
  import opened LittleEndian
  import opened PyText
  import opened LogRecord

  /** One value of a row: the timestamp, a text field, the weights list or a float. */
  datatype Cell = IntCell(n: int) | TextCell(text: string) | ListCell(ints: seq<int>) | FloatCell(f: Float)

  const COLUMN_COUNT: nat := 8

  /** `[timestamp, name, weights, direction, v1, v2, v3, state]` of a decoded chunk. */
  function Row(codec: FloatCodec, d: Decoded): (row: seq<Cell>)
    ensures |row| == COLUMN_COUNT
    ensures row[0] == IntCell(d.timestamp) && row[1] == TextCell(d.name) && row[2] == ListCell(d.weights)
    ensures row[3] == TextCell(d.direction) && row[7] == TextCell(d.state)
  {
    [IntCell(d.timestamp), TextCell(d.name), ListCell(d.weights), TextCell(d.direction),
     FloatCell(codec.unpack(d.value1)), FloatCell(codec.unpack(d.value2)), FloatCell(codec.unpack(d.value3)),
     TextCell(d.state)]
  }

  /** One chunk of the `read_bin_file` loop: the decoded record, or the decoding error. */
  function ChunkToRow(codec: FloatCodec, chunk: Chunk): Step<seq<Cell>> {
    match Unpack(chunk)
    case Err(e) => Fail(e)
    case Ok(d) => Emit(Row(codec, d))
  }

  function RowSteps(codec: FloatCodec): Chunk -> Step<seq<Cell>> {
    (chunk: Chunk) => ChunkToRow(codec, chunk)
  }

  /**
   * `read_bin_file`, with `file` the contents (None when the file does not exist): no
   * rows for a missing file; otherwise one row per full chunk until a short read, and the
   * decoding error that ends the loop and propagates out of the function.
   */
  method ReadBinFile(file: Option<seq<Byte>>, codec: FloatCodec) returns (rows: seq<seq<Cell>>, err: Option<ConvertError>)
    ensures file.None? ==> rows == [] && err.None?
    ensures file.Some? ==> (rows, err) == Collect(Chunks(file.value), RowSteps(codec))
    ensures forall k :: 0 <= k < |rows| ==> |rows[k]| == COLUMN_COUNT
  {
    if file.None? {
      return [], None;
    }
    rows, err := ForEachChunk(file.value, RowSteps(codec));
    RowsFull(file.value, codec);
  }

  lemma RowsFull(data: seq<Byte>, codec: FloatCodec)
    ensures forall k :: 0 <= k < |Collect(Chunks(data), RowSteps(codec)).0| ==> |Collect(Chunks(data), RowSteps(codec)).0[k]| == COLUMN_COUNT
  {
    var cs := Chunks(data);
    var rows := Collect(cs, RowSteps(codec)).0;
    CollectFrom(cs, RowSteps(codec));
    var idx :| Ordered(cs, RowSteps(codec), rows, idx);
    forall k | 0 <= k < |rows|
      ensures |rows[k]| == COLUMN_COUNT
    {
      assert RowSteps(codec)(cs[idx[k]]) == Emit(rows[k]);
    }
  }

  /** `str(value)` for each kind of cell. */
  function CellText(codec: FloatCodec, c: Cell): string {
    match c
    case IntCell(n) => IntToString(n)
    case TextCell(t) => t
    case ListCell(ws) => ListRepr(ws)
    case FloatCell(f) => codec.show(f)
  }

  /** One chunk decoded and nothing more: the view the viewer and `bin_to_json` share. */
  function DecodeSteps(): Chunk -> Step<Decoded> {
    (chunk: Chunk) => match Unpack(chunk) case Err(e) => Fail(e) case Ok(d) => Emit(d)
  }

  /**
   * The viewer and `bin_to_json` read the same records from a file and stop at the same
   * error: row `k` and JSON record `k` come from the same decoded chunk, and the
   * timestamp the table shows is the text `bin_to_json` writes.
   */
  lemma RowsMatchJson(data: seq<Byte>, codec: FloatCodec)
    ensures var dec := Collect(Chunks(data), DecodeSteps());
      && Collect(Chunks(data), RowSteps(codec)) == (MapSeq(dec.0, (d: Decoded) => Row(codec, d)), dec.1)
      && Collect(Chunks(data), ChunkToJsonSteps(codec)) == (MapSeq(dec.0, (d: Decoded) => ToJson(codec, d)), dec.1)
    ensures forall d: Decoded :: CellText(codec, Row(codec, d)[0]) == ToJson(codec, d).timestamp
  {
    var cs := Chunks(data);
    CollectMap(cs, DecodeSteps(), RowSteps(codec), (d: Decoded) => Row(codec, d));
    CollectMap(cs, DecodeSteps(), ChunkToJsonSteps(codec), (d: Decoded) => ToJson(codec, d));
  }

  const HEADERS: seq<string> := ["Timestamp", "Name", "Weights [W1~W9]", "Dir", "Val1", "Val2", "Val3", "State"]

  /** The part of a `QTableWidget` the viewer uses: its size, header labels and cell texts. */
  class Table {
    var rowCount: nat
    var columnCount: nat
    var headers: seq<string>
    var items: map<(nat, nat), string>

    /** Every item lies inside the table. */
    ghost predicate Valid()
      reads this
    {
      forall k :: k in items ==> k.0 < rowCount && k.1 < columnCount
    }

    constructor()
      ensures Valid()
      ensures rowCount == 0 && columnCount == 0 && headers == [] && items == map[]
    {
      rowCount, columnCount, headers, items := 0, 0, [], map[];
    }

    /** `clear()`: removes every item and the header labels, keeps the size. */
    method Clear()
      modifies this
      ensures Valid()
      ensures items == map[] && headers == []
      ensures rowCount == old(rowCount) && columnCount == old(columnCount)
    {
      items, headers := map[], [];
    }

    /** `setRowCount(n)`: rows from `n` on are removed with their items. */
    method SetRowCount(n: nat)
      requires Valid()
      modifies this
      ensures Valid()
      ensures rowCount == n && columnCount == old(columnCount) && headers == old(headers)
      ensures items == map k | k in old(items) && k.0 < n :: old(items)[k]
    {
      items := map k | k in items && k.0 < n :: items[k];
      rowCount := n;
    }

    /** `setColumnCount(n)`: columns from `n` on are removed with their items and labels. */
    method SetColumnCount(n: nat)
      requires Valid()
      modifies this
      ensures Valid()
      ensures columnCount == n && rowCount == old(rowCount)
      ensures headers == if |old(headers)| <= n then old(headers) else old(headers)[..n]
      ensures items == map k | k in old(items) && k.1 < n :: old(items)[k]
    {
      items := map k | k in items && k.1 < n :: items[k];
      if |headers| > n {
        headers := headers[..n];
      }
      columnCount := n;
    }

    /** `setHorizontalHeaderLabels(labels)`: labels the existing columns. */
    method SetHeaderLabels(labels: seq<string>)
      modifies this
      ensures headers == if |labels| <= columnCount then labels else labels[..columnCount]
      ensures rowCount == old(rowCount) && columnCount == old(columnCount) && items == old(items)
    {
      headers := if |labels| <= columnCount then labels else labels[..columnCount];
    }

    /** `setItem(row, column, item)`: ignored outside the table. */
    method SetItem(row: nat, column: nat, text: string)
      requires Valid()
      modifies this
      ensures Valid()
      ensures items == if row < rowCount && column < columnCount then old(items)[(row, column) := text] else old(items)
      ensures rowCount == old(rowCount) && columnCount == old(columnCount) && headers == old(headers)
    {
      if row < rowCount && column < columnCount {
        items := items[(row, column) := text];
      }
    }
  }

  /** The window: a button and the table. */
  class Viewer {
    const table: Table
    var warned: bool

    constructor()
      ensures fresh(table) && table.Valid() && table.items == map[] && !warned
    {
      table := new Table();
      warned := false;
    }

    /**
     * `populate_table`: after it the table has one row per record and eight columns,
     * the eight headers, and in cell `(r, c)` the text of value `c` of record `r`, and
     * nothing else.
     */
    method PopulateTable(rows: seq<seq<Cell>>, codec: FloatCodec)
      requires table.Valid()
      requires forall k :: 0 <= k < |rows| ==> |rows[k]| == COLUMN_COUNT
      modifies table
      ensures table.Valid()
      ensures table.rowCount == |rows| && table.columnCount == COLUMN_COUNT && table.headers == HEADERS
      ensures forall r, c :: 0 <= r < |rows| && 0 <= c < COLUMN_COUNT ==>
        (r, c) in table.items && table.items[(r, c)] == CellText(codec, rows[r][c])
      ensures forall k :: k in table.items ==> k.0 < |rows| && k.1 < COLUMN_COUNT
    {
      table.Clear();
      table.SetRowCount(|rows|);
      table.SetColumnCount(|HEADERS|);
      table.SetHeaderLabels(HEADERS);
      var r := 0;
      while r < |rows|
        invariant 0 <= r <= |rows|
        invariant table.Valid() && table.rowCount == |rows| && table.columnCount == COLUMN_COUNT && table.headers == HEADERS
        invariant forall i, c :: 0 <= i < r && 0 <= c < COLUMN_COUNT ==>
          (i, c) in table.items && table.items[(i, c)] == CellText(codec, rows[i][c])
        invariant forall k :: k in table.items ==> k.0 < r
      {
        FillRow(r, rows[r], codec);
        r := r + 1;
      }
    }

    /** The inner loop of `populate_table`: the cells of row `r`, one per value. */
    method FillRow(r: nat, row: seq<Cell>, codec: FloatCodec)
      requires table.Valid() && r < table.rowCount && |row| == COLUMN_COUNT == table.columnCount
      requires forall k :: k in table.items ==> k.0 < r
      modifies table
      ensures table.Valid()
      ensures table.rowCount == old(table.rowCount) && table.columnCount == old(table.columnCount)
      ensures table.headers == old(table.headers)
      ensures forall k :: k in old(table.items) ==> k in table.items && table.items[k] == old(table.items)[k]
      ensures forall c :: 0 <= c < COLUMN_COUNT ==> (r, c) in table.items && table.items[(r, c)] == CellText(codec, row[c])
      ensures forall k :: k in table.items ==> k.0 <= r
    {
      var c := 0;
      while c < |row|
        invariant 0 <= c <= COLUMN_COUNT
        invariant table.Valid() && table.rowCount == old(table.rowCount) && table.columnCount == old(table.columnCount)
        invariant table.headers == old(table.headers)
        invariant forall k :: k in old(table.items) ==> k in table.items && table.items[k] == old(table.items)[k]
        invariant forall j :: 0 <= j < c ==> (r, j) in table.items && table.items[(r, j)] == CellText(codec, row[j])
        invariant forall k :: k in table.items ==> k.0 < r || (k.0 == r && k.1 < c)
      {
        table.SetItem(r, c, CellText(codec, row[c]));
        c := c + 1;
      }
    }

    /**
     * `open_file_dialog`, with `picked` the contents of the chosen file (None when the
     * dialog was cancelled, `Some(None)` when the file does not exist). No rows means a
     * warning and an untouched table; a decoding error propagates and leaves the table
     * untouched too.
     */
    method OpenFileDialog(picked: Option<Option<seq<Byte>>>, codec: FloatCodec) returns (err: Option<ConvertError>)
      requires table.Valid()
      modifies this, table
      ensures table.Valid()
      ensures picked.None? ==> err.None? && warned == old(warned) && unchanged(table)
      ensures picked.Some? && picked.value.None? ==> err.None? && warned && unchanged(table)
      ensures picked.Some? && picked.value.Some? ==>
        var r := Collect(Chunks(picked.value.value), RowSteps(codec));
        && err == r.1
        && (forall k :: 0 <= k < |r.0| ==> |r.0[k]| == COLUMN_COUNT)
        && (r.1.Some? ==> warned == old(warned) && unchanged(table))
        && (r.1.None? && r.0 == [] ==> warned && unchanged(table))
        && (r.1.None? && r.0 != [] ==>
              && warned == old(warned)
              && table.rowCount == |r.0| && table.columnCount == COLUMN_COUNT && table.headers == HEADERS
              && (forall i, c :: 0 <= i < |r.0| && 0 <= c < COLUMN_COUNT ==>
                    (i, c) in table.items && table.items[(i, c)] == CellText(codec, r.0[i][c])))
    {
      err := None;
      if picked.None? {
        return;
      }
      var rows;
      rows, err := ReadBinFile(picked.value, codec);
      if err.Some? {
        return;
      }
      if rows == [] {
        warned := true;
        return;
      }
      PopulateTable(rows, codec);
    }
  }
}
