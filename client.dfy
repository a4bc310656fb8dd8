/**
 * The client's table reshaping (clienteTA4.go): turning the CSV records into an identifier
 * column and a feature matrix, and building the result rows. ParseFloat and the "%.2f"
 * formatting are the parameters `parse` and `format`.
 */
module Client {
  import opened Optional
  import opened Decimal

  /** What readDataset returns on success: one feature row and one identifier per data record. */
  datatype Dataset = Dataset(data: seq<seq<real>>, ids: seq<string>)

  /** readDataset's outcome: the dataset, or the failure to parse the cell records[row][col]. */
  datatype ReadResult = Read(dataset: Dataset) | ParseError(row: nat, col: nat)

  /** The feature cells of the records before row `rows` (the header row 0 and column 0 excluded) all parse. */
  predicate RowsParse(records: seq<seq<string>>, parse: string -> Option<real>, rows: nat)
    requires rows <= |records|
  {
    forall i, j :: 1 <= i < rows && 1 <= j < |records[i]| ==> parse(records[i][j]).Some?
  }

  /** The feature cells before records[row][col], in reading order, all parse. */
  predicate CellsBeforeParse(records: seq<seq<string>>, parse: string -> Option<real>, row: nat, col: nat)
    requires row < |records| && col <= |records[row]|
  {
    RowsParse(records, parse, row) && forall j :: 1 <= j < col ==> parse(records[row][j]).Some?
  }

  /**
   * The reshaping loop of readDataset, after ReadAll. Row 0 is the header and is skipped; for
   * every later record, field 0 is the identifier and fields 1.. are the features. The first
   * field that does not parse ends the call with an error and no data.
   */
  method ReadDataset(records: seq<seq<string>>, parse: string -> Option<real>) returns (res: ReadResult)
    requires |records| >= 1
    requires forall i :: 1 <= i < |records| ==> |records[i]| >= 1
    ensures res.Read? <==> RowsParse(records, parse, |records|)
    ensures res.Read? ==>
      && |res.dataset.data| == |records| - 1
      && |res.dataset.ids| == |records| - 1
      && (forall i :: 0 <= i < |res.dataset.ids| ==> res.dataset.ids[i] == records[i + 1][0])
      && (forall i :: 0 <= i < |res.dataset.data| ==> |res.dataset.data[i]| == |records[i + 1]| - 1)
      && (forall i, j :: 0 <= i < |res.dataset.data| && 0 <= j < |res.dataset.data[i]| ==>
            parse(records[i + 1][j + 1]) == Some(res.dataset.data[i][j]))
    ensures res.ParseError? ==>
      && 1 <= res.row < |records| && 1 <= res.col < |records[res.row]|
      && parse(records[res.row][res.col]).None?
      && CellsBeforeParse(records, parse, res.row, res.col)
  {
    var n := |records| - 1;
    var data := new seq<real>[n];
    var ids := new string[n];
    var i := 1;
    while i < |records|
      invariant 1 <= i <= |records|
      invariant RowsParse(records, parse, i)
      invariant forall r :: 0 <= r < i - 1 ==> ids[r] == records[r + 1][0]
      invariant forall r :: 0 <= r < i - 1 ==> |data[r]| == |records[r + 1]| - 1
      invariant forall r, c :: 0 <= r < i - 1 && 0 <= c < |data[r]| ==> parse(records[r + 1][c + 1]) == Some(data[r][c])
    {
      var record := records[i];
      var row := new real[|record| - 1];
      ids[i - 1] := record[0];
      var j := 1;
      while j < |record|
        invariant 1 <= j <= |record|
        invariant CellsBeforeParse(records, parse, i, j)
        invariant forall c :: 0 <= c < j - 1 ==> parse(record[c + 1]) == Some(row[c])
        invariant forall r :: 0 <= r < i ==> ids[r] == records[r + 1][0]
        invariant forall r :: 0 <= r < i - 1 ==> |data[r]| == |records[r + 1]| - 1
        invariant forall r, c :: 0 <= r < i - 1 && 0 <= c < |data[r]| ==> parse(records[r + 1][c + 1]) == Some(data[r][c])
      {
        var cell := parse(record[j]);
        if cell.None? {
          return ParseError(i, j);
        }
        row[j - 1] := cell.value;
        j := j + 1;
      }
      data[i - 1] := row[..];
      i := i + 1;
    }
    return Read(Dataset(data[..], ids[..]));
  }

  /** The fixed header saveResults writes first. */
  const Header: seq<string> := ["ID", "Frecuencia", "GastoT", "DiasSinCompra", "VariedadDeProductos", "Cluster"]

  /** Row i + 1 of the output: the identifier, the formatted features and the label in decimal. */
  predicate IsResultRow(row: seq<string>, id: string, features: seq<real>, cluster: int, format: real -> string)
  {
    && |row| == |features| + 2
    && row[0] == id
    && (forall j :: 0 <= j < |features| ==> row[j + 1] == format(features[j]))
    && row[|features| + 1] == DecimalString(cluster)
  }

  function Min(a: int, b: int): int
  {
    if a <= b then a else b
  }

  /**
   * The rows saveResults hands to the CSV writer, in order: the header, then per identifier
   * the identifier, its formatted features and its cluster label in decimal. When `data` or
   * `assignments` is shorter than `ids`, the source fails with an index out of range at the
   * first missing row; `ok` is then false and `rows` holds what was written before, which the
   * deferred Flush still sends to the file.
   */
  method SaveResults(ids: seq<string>, data: seq<seq<real>>, assignments: seq<int>, format: real -> string)
    returns (rows: seq<seq<string>>, ok: bool)
    ensures ok <==> |data| >= |ids| && |assignments| >= |ids|
    ensures |rows| == 1 + Min(|ids|, Min(|data|, |assignments|))
    ensures rows[0] == Header
    ensures forall i :: 0 <= i < |rows| - 1 ==>
      i < |ids| && i < |data| && i < |assignments| &&
      IsResultRow(rows[i + 1], ids[i], data[i], assignments[i], format)
  {
    rows := [Header];
    ok := true;
    var i := 0;
    while i < |ids|
      invariant 0 <= i <= |ids| && i <= |data| && i <= |assignments|
      invariant |rows| == i + 1 && rows[0] == Header
      invariant forall r :: 0 <= r < i ==> IsResultRow(rows[r + 1], ids[r], data[r], assignments[r], format)
    {
      if i >= |data| {
        ok := false;
        return;
      }
      var record := new string[|data[i]| + 2];
      record[0] := ids[i];
      var j := 0;
      while j < |data[i]|
        invariant 0 <= j <= |data[i]|
        invariant record[0] == ids[i]
        invariant forall c :: 0 <= c < j ==> record[c + 1] == format(data[i][c])
      {
        record[j + 1] := format(data[i][j]);
        j := j + 1;
      }
      if i >= |assignments| {
        ok := false;
        return;
      }
      record[|data[i]| + 1] := DecimalString(assignments[i]);
      rows := rows + [record[..]];
      i := i + 1;
    }
  }
}
