/**
 * The catalogue as read from the Google Sheets "Catalog" tab: every row
 * after the header becomes one bike record, field by field by column
 * position, with up to seven colours taken from columns I to O.
 */
module Catalog {
  import opened Wrappers
  import opened Text

  /** One spreadsheet row as the Sheets API returns it: the cells up to
      the last non-empty one, so a short row has no cell at the end. */
  type Row = seq<string>

  /** A bike record; a field is None (`undefined`) when its cell is past
      the end of the row. */
  datatype Bike = Bike(
    bikeId: Option<string>,
    vehicleName: Option<string>,
    variant: Option<string>,
    exShowroomPrice: Option<string>,
    tax: Option<string>,
    insurance: Option<string>,
    ew: Option<string>,
    onRoadPrice: Option<string>,
    colors: seq<string>)

  /** What the Sheets API call produced: a failure (authentication,
      network), or a response whose `values` may be missing. */
  datatype SheetsReply = Failed | Reply(values: Option<seq<Row>>)

  /** Column index of the first and one past the last colour column (I..O). */
  const FirstColorColumn: nat := 8
  const EndColorColumn: nat := 15

  /** `row[i]` */
  function Cell(row: Row, i: nat): Option<string> {
    if i < |row| then Some(row[i]) else None
  }

  /** `row.slice(8, 15)` */
  function ColorCells(row: Row): (cells: seq<string>)
    ensures |cells| <= EndColorColumn - FirstColorColumn
    ensures forall i :: 0 <= i < |cells| ==> Cell(row, FirstColorColumn + i) == Some(cells[i])
    ensures FirstColorColumn + |cells| < EndColorColumn ==> Cell(row, FirstColorColumn + |cells|) == None
  {
    if |row| <= FirstColorColumn then []
    else if |row| < EndColorColumn then row[FirstColorColumn..]
    else row[FirstColorColumn..EndColorColumn]
  }

  /** `cells.filter((color) => color && color.trim())`: the cells that are
      not blank, in order and untrimmed. */
  function NonBlank(cells: seq<string>): (kept: seq<string>)
    ensures |kept| <= |cells|
    ensures forall c :: c in kept <==> c in cells && !IsBlank(c)
  {
    if cells == [] then []
    else if IsBlank(cells[0]) then NonBlank(cells[1..])
    else [cells[0]] + NonBlank(cells[1..])
  }

  /** Filtering commutes with concatenation, so the kept colours stay in
      column order. */
  lemma {:induction false} NonBlankAppend(a: seq<string>, b: seq<string>)
    ensures NonBlank(a + b) == NonBlank(a) + NonBlank(b)
  {
    if a == [] {
      assert a + b == b;
    } else {
      assert (a + b)[0] == a[0] && (a + b)[1..] == a[1..] + b;
      NonBlankAppend(a[1..], b);
    }
  }

  /** The record for one data row. */
  function MapRow(row: Row): (bike: Bike)
    ensures bike.bikeId == Cell(row, 0) && bike.vehicleName == Cell(row, 1)
    ensures bike.variant == Cell(row, 2) && bike.exShowroomPrice == Cell(row, 3)
    ensures bike.tax == Cell(row, 4) && bike.insurance == Cell(row, 5)
    ensures bike.ew == Cell(row, 6) && bike.onRoadPrice == Cell(row, 7)
    ensures |bike.colors| <= 7
    ensures forall c :: c in bike.colors ==>
              !IsBlank(c) && exists i :: FirstColorColumn <= i < EndColorColumn && Cell(row, i) == Some(c)
  {
    Bike(Cell(row, 0), Cell(row, 1), Cell(row, 2), Cell(row, 3),
         Cell(row, 4), Cell(row, 5), Cell(row, 6), Cell(row, 7),
         NonBlank(ColorCells(row)))
  }

  /** `rows.slice(1).map(...)`: one record per row after the header, in
      row order. */
  function MapRows(rows: seq<Row>): (bikes: seq<Bike>)
    ensures |bikes| == if rows == [] then 0 else |rows| - 1
    ensures forall i :: 0 <= i < |bikes| ==> bikes[i] == MapRow(rows[i + 1])
  {
    if rows == [] then [] else seq(|rows| - 1, i requires 0 <= i < |rows| - 1 => MapRow(rows[i + 1]))
  }

  /** The private key as `getAuth` passes it on: one pair of surrounding
      double quotes (left by dotenv) is removed when the key both starts
      and ends with one; otherwise the key is unchanged. A key missing
      from the environment makes `getAuth` throw. */
  function PrivateKey(env: Option<string>): (key: Option<string>)
    ensures key.None? <==> env.None?
    ensures key.Some? ==> |key.value| <= |env.value|
  {
    match env
    case None => None
    case Some(k) =>
      if |k| >= 1 && k[0] == '"' && k[|k| - 1] == '"' then
        Some(if |k| >= 2 then k[1..|k| - 1] else "")
      else Some(k)
  }

  /** Quoting a key and reading it back gives the key. */
  lemma PrivateKeyUnquotes(k: string)
    ensures PrivateKey(Some("\"" + k + "\"")) == Some(k)
  {
    var q := "\"" + k + "\"";
    assert q[1..|q| - 1] == k;
  }

  /** A key that does not start with a quote, or does not end with one, is
      left as it is. */
  lemma PrivateKeyUnquotedUnchanged(k: string)
    requires k == [] || k[0] != '"' || k[|k| - 1] != '"'
    ensures PrivateKey(Some(k)) == Some(k)
  {
  }

  /** Only one pair of quotes is removed: a doubly quoted key comes out
      still quoted once. */
  lemma PrivateKeyStripsOneLayer(k: string)
    ensures PrivateKey(Some("\"\"" + k + "\"\"")) == Some("\"" + k + "\"")
  {
    assert "\"\"" + k + "\"\"" == "\"" + ("\"" + k + "\"") + "\"";
    PrivateKeyUnquotes("\"" + k + "\"");
  }

  /** A key made of a single double quote both starts and ends with it, so
      `slice(1, -1)` leaves the empty key. */
  lemma PrivateKeySingleQuote()
    ensures PrivateKey(Some("\"")) == Some("")
  {
  }

  /** `getBikes()`: the records of every data row, or the empty list when
      anything fails (a missing private key, the API call). */
  function GetBikes(privateKeyEnv: Option<string>, reply: SheetsReply): (bikes: seq<Bike>)
    ensures privateKeyEnv.None? || reply.Failed? ==> bikes == []
    ensures reply.Reply? && reply.values.None? ==> bikes == []
    ensures privateKeyEnv.Some? && reply.Reply? && reply.values.Some? ==>
              bikes == MapRows(reply.values.value)
  {
    if PrivateKey(privateKeyEnv).None? then []
    else match reply
      case Failed => []
      case Reply(values) => MapRows(values.GetOr([]))
  }

  /** The row a spreadsheet holds for a record whose cells are all present:
      the eight fields, then the colours. */
  function RowOf(bike: Bike): (row: Row)
    requires bike.bikeId.Some? && bike.vehicleName.Some? && bike.variant.Some?
    requires bike.exShowroomPrice.Some? && bike.tax.Some? && bike.insurance.Some?
    requires bike.ew.Some? && bike.onRoadPrice.Some?
    ensures |row| == 8 + |bike.colors|
  {
    [bike.bikeId.value, bike.vehicleName.value, bike.variant.value, bike.exShowroomPrice.value,
     bike.tax.value, bike.insurance.value, bike.ew.value, bike.onRoadPrice.value] + bike.colors
  }

  /** Reading back a written row gives the record, provided it has at
      most seven colours and none of them is blank. */
  lemma {:induction false} MapRowOfRowOf(bike: Bike)
    requires bike.bikeId.Some? && bike.vehicleName.Some? && bike.variant.Some?
    requires bike.exShowroomPrice.Some? && bike.tax.Some? && bike.insurance.Some?
    requires bike.ew.Some? && bike.onRoadPrice.Some?
    requires |bike.colors| <= 7 && forall c :: c in bike.colors ==> !IsBlank(c)
    ensures MapRow(RowOf(bike)) == bike
  {
    var row := RowOf(bike);
    assert ColorCells(row) == bike.colors;
    NonBlankKeepsAll(bike.colors);
  }

  lemma {:induction false} NonBlankKeepsAll(cells: seq<string>)
    requires forall c :: c in cells ==> !IsBlank(c)
    ensures NonBlank(cells) == cells
  {
    if cells != [] {
      NonBlankKeepsAll(cells[1..]);
    }
  }
}
