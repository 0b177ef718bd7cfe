/** The slice of pandas' DataFrame the predictor relies on.

    A table is an ordered list of column names and an ordered list of rows;
    each row maps every column name to a cell. Column assignment
    (`df[name] = values`) and column selection (`df[cols]`) are the only
    operations the pipeline applies to whole tables. */
module Frames {
  import opened Outcomes

  /** A cell as read from a CSV file: text, a number, or an empty cell (NaN). */
  datatype Value = Text(text: string) | Number(number: real) | Missing

  type Row = map<string, Value>

  datatype Table = Table(columns: seq<string>, rows: seq<Row>)

  /** Rectangular: every row has a cell for exactly the table's columns. */
  predicate WellFormed(t: Table)
  {
    forall i :: 0 <= i < |t.rows| ==> t.rows[i].Keys == set c | c in t.columns
  }

  /** Wrap reals as numeric cells. */
  function Numbers(xs: seq<real>): (r: seq<Value>)
    ensures |r| == |xs|
    ensures forall i :: 0 <= i < |xs| ==> r[i] == Number(xs[i])
  {
    seq(|xs|, i requires 0 <= i < |xs| => Number(xs[i]))
  }

  /** The cells of one column, top to bottom (`df[name]`). */
  function Column(t: Table, name: string): (r: seq<Value>)
    requires WellFormed(t) && name in t.columns
    ensures |r| == |t.rows|
    ensures forall i :: 0 <= i < |t.rows| ==> r[i] == t.rows[i][name]
  {
    seq(|t.rows|, i requires 0 <= i < |t.rows| => t.rows[i][name])
  }

  /** `df[name] = values`: overwrite the column if it exists, otherwise append
      it as the last column. */
  function SetColumn(t: Table, name: string, values: seq<Value>): (r: Table)
    requires WellFormed(t) && |values| == |t.rows|
    ensures WellFormed(r)
    ensures name in r.columns
    ensures name in t.columns ==> r.columns == t.columns
    ensures name !in t.columns ==> r.columns == t.columns + [name]
    ensures |r.rows| == |t.rows|
    ensures forall i :: 0 <= i < |r.rows| ==> r.rows[i][name] == values[i]
    ensures forall i, c :: 0 <= i < |r.rows| && c in t.columns && c != name ==>
              r.rows[i][c] == t.rows[i][c]
  {
    var columns := if name in t.columns then t.columns else t.columns + [name];
    var rows := seq(|t.rows|, i requires 0 <= i < |t.rows| => t.rows[i][name := values[i]]);
    assert forall i :: 0 <= i < |rows| ==> rows[i].Keys == set c | c in columns;
    Table(columns, rows)
  }

  /** No name occurs twice. */
  predicate Distinct(names: seq<string>)
  {
    forall j, k :: 0 <= j < k < |names| ==> names[j] != names[k]
  }

  /** The names not among `cols`, in their order. */
  function Unlisted(names: seq<string>, cols: seq<string>): (r: seq<string>)
    ensures forall c :: c in r <==> c in names && c !in cols
    ensures (forall c :: c in names ==> c !in cols) ==> r == names
  {
    if |names| == 0 then []
    else if names[0] in cols then Unlisted(names[1..], cols)
    else [names[0]] + Unlisted(names[1..], cols)
  }

  /** The column list after assigning distinct `names` in turn: each new
      name is appended at the end, an existing one stays where it is. */
  function AddNames(cols: seq<string>, names: seq<string>): (r: seq<string>)
    ensures forall c :: c in r <==> c in cols || c in names
    ensures (forall c :: c in names ==> c !in cols) ==> r == cols + names
  {
    cols + Unlisted(names, cols)
  }

  /** The position of a listed name. */
  function IndexOf(names: seq<string>, c: string): (k: nat)
    requires c in names
    ensures k < |names| && names[k] == c
  {
    if names[0] == c then 0 else 1 + IndexOf(names[1..], c)
  }

  /** A row after assigning `cells[j]` to the distinct names `names[j]`. */
  function SetCells(row: Row, names: seq<string>, cells: seq<Value>): (r: Row)
    requires |names| == |cells| && Distinct(names)
    ensures r.Keys == row.Keys + set c | c in names
    ensures forall j :: 0 <= j < |names| ==> r[names[j]] == cells[j]
    ensures forall c :: c in row && c !in names ==> r[c] == row[c]
  {
    var r := map c | c in row.Keys + (set n | n in names) :: if c in names then cells[IndexOf(names, c)] else row[c];
    forall j | 0 <= j < |names| ensures r[names[j]] == cells[j] {
      assert IndexOf(names, names[j]) == j;
    }
    r
  }

  /** `df[names] = values`: assign several columns at once, `names[j]`
      receiving `values[j]`; new names are appended in order. */
  function SetColumns(t: Table, names: seq<string>, values: seq<seq<Value>>): (r: Table)
    requires WellFormed(t) && |names| == |values| && Distinct(names)
    requires forall j :: 0 <= j < |values| ==> |values[j]| == |t.rows|
    ensures WellFormed(r) && |r.rows| == |t.rows|
    ensures forall c :: c in r.columns <==> c in t.columns || c in names
    ensures (forall c :: c in names ==> c !in t.columns) ==> r.columns == t.columns + names
    ensures forall i, j :: 0 <= i < |t.rows| && 0 <= j < |names| ==> r.rows[i][names[j]] == values[j][i]
    ensures forall i, c :: 0 <= i < |t.rows| && c in t.columns && c !in names ==> r.rows[i][c] == t.rows[i][c]
  {
    var columns := AddNames(t.columns, names);
    var rows := seq(|t.rows|, i requires 0 <= i < |t.rows| =>
                  SetCells(t.rows[i], names, seq(|names|, j requires 0 <= j < |names| => values[j][i])));
    assert forall i :: 0 <= i < |rows| ==> rows[i].Keys == set c | c in columns;
    Table(columns, rows)
  }

  /** The first of `wanted` that is not among `columns`, if any. */
  function FirstMissing(wanted: seq<string>, columns: seq<string>): (r: Option<string>)
    ensures r.None? <==> forall c :: c in wanted ==> c in columns
    ensures r.Some? ==> r.value in wanted && r.value !in columns
  {
    if |wanted| == 0 then None
    else if wanted[0] !in columns then Some(wanted[0])
    else FirstMissing(wanted[1..], columns)
  }

  /** `df[cols]`: the listed columns in the listed order, or pandas'
      `KeyError` when one of them is absent. */
  function Project(t: Table, cols: seq<string>): (r: Result<Table>)
    requires WellFormed(t)
    ensures r.Err? <==> exists c :: c in cols && c !in t.columns
    ensures r.Err? ==> r.error.MissingColumn? && r.error.column in cols && r.error.column !in t.columns
    ensures r.Ok? ==> WellFormed(r.value) && r.value.columns == cols && |r.value.rows| == |t.rows|
    ensures r.Ok? ==> forall i, c :: 0 <= i < |t.rows| && c in cols ==> r.value.rows[i][c] == t.rows[i][c]
  {
    match FirstMissing(cols, t.columns)
    case Some(c) => Err(MissingColumn(c))
    case None =>
      var rows := seq(|t.rows|, i requires 0 <= i < |t.rows| => map c | c in cols :: t.rows[i][c]);
      Ok(Table(cols, rows))
  }
}
