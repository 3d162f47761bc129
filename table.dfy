// The HTML table writer: a table whose column list is fixed by the first row
// written (an explicit list of names, or the first row's own property names),
// a header line written once, and one line per row with a cell per column.
module Table {
  import opened Wrappers
  import opened Modes

  /**
   * A value stored in a row property. Num stands for a JavaScript number that
   * is not NaN; Click is a ClickableValue, a value paired with the mode its
   * button leads to.
   */
  datatype Value =
    | Undef
    | Str(s: string)
    | Num(x: real)
    | NaN
    | Click(shown: Value, next: Mode)

  /** `!!val` is false: undefined, the empty string, 0 and NaN. Every object is truthy. */
  predicate Falsy(v: Value)
  {
    v.Undef? || v == Str("") || v == Num(0.0) || v.NaN?
  }

  /** A `<td>`: empty, holding the text of a value, or holding a button. */
  datatype Cell = Blank | Text(v: Value) | Button(caption: Value, target: Mode)

  /**
   * A row object: its properties in the order they were first assigned. A
   * JavaScript object has one property per name; every row the reports build
   * has distinct names (for the daily report, Daily.DayNames), so a row is
   * read with Property, which takes the first field of a name.
   */
  datatype Field = Field(name: string, value: Value)
  type Row = seq<Field>

  /** Object.getOwnPropertyNames(row) */
  function Names(row: Row): (names: seq<string>)
    ensures |names| == |row|
    ensures forall i :: 0 <= i < |row| ==> names[i] == row[i].name
  {
    seq(|row|, i requires 0 <= i < |row| => row[i].name)
  }

  /** row[name]: the value of the property of that name, undefined when there is none. */
  function Property(row: Row, name: string): (v: Value)
    ensures (forall i :: 0 <= i < |row| ==> row[i].name != name) ==> v == Undef
    ensures forall i :: 0 <= i < |row| && row[i].name == name && (forall j :: 0 <= j < i ==> row[j].name != name) ==> v == row[i].value
  {
    if row == [] then Undef
    else if row[0].name == name then row[0].value
    else
      var v := Property(row[1..], name);
      assert forall i :: 1 <= i < |row| ==> row[i] == row[1..][i - 1];
      v
  }

  /**
   * The cell of one value: a falsy value gives an empty cell; a value that
   * carries a target (a ClickableValue, never falsy) gives a button showing
   * the wrapped value; anything else gives its text.
   */
  function CellOf(v: Value): (c: Cell)
    ensures c.Blank? <==> Falsy(v)
    ensures c.Button? <==> v.Click?
    ensures c.Button? ==> c.caption == v.shown && c.target == v.next
    ensures c.Text? ==> c.v == v
  {
    if Falsy(v) then Blank
    else if v.Click? then Button(v.shown, v.next)
    else Text(v)
  }

  /** The header line: the text of each column name, in order. */
  function Header(cols: seq<string>): seq<Cell>
  {
    seq(|cols|, i requires 0 <= i < |cols| => Text(Str(cols[i])))
  }

  /** The line of one row: one cell per column, in column order. */
  function RowCells(cols: seq<string>, row: Row): seq<Cell>
  {
    seq(|cols|, i requires 0 <= i < |cols| => CellOf(Property(row, cols[i])))
  }

  /** The column list after rows were written: the explicit list, else the first row's names. */
  function Schema(explicit: Option<seq<string>>, rows: seq<Row>): Option<seq<string>>
  {
    if explicit.Some? then explicit
    else if rows == [] then None
    else Some(Names(rows[0]))
  }

  /** The lines of the table after rows were written under cols: nothing, or the header and a line per row. */
  function Rendered(cols: seq<string>, rows: seq<Row>): seq<seq<Cell>>
  {
    if rows == [] then []
    else [Header(cols)] + seq(|rows|, i requires 0 <= i < |rows| => RowCells(cols, rows[i]))
  }

  function Output(explicit: Option<seq<string>>, rows: seq<Row>): seq<seq<Cell>>
  {
    match Schema(explicit, rows)
    case None => []
    case Some(cols) => Rendered(cols, rows)
  }

  /** Once a row has been written, further rows never change the column list. */
  lemma SchemaFixed(explicit: Option<seq<string>>, rows: seq<Row>, more: seq<Row>)
    requires rows != []
    ensures Schema(explicit, rows + more) == Schema(explicit, rows)
    ensures Schema(explicit, rows).Some?
  {
    assert (rows + more)[0] == rows[0];
  }

  /** Appending a row appends exactly its line, under the same columns. */
  lemma RenderedSnoc(cols: seq<string>, rows: seq<Row>, row: Row)
    requires rows != []
    ensures Rendered(cols, rows + [row]) == Rendered(cols, rows) + [RowCells(cols, row)]
  {
    var rs := rows + [row];
    assert forall i :: 0 <= i < |rows| ==> rs[i] == rows[i];
  }

  /**
   * The shape of a written table: the header first and only there, then one
   * line per row, in order, each as wide as the column list.
   */
  lemma RenderedShape(cols: seq<string>, rows: seq<Row>)
    requires rows != []
    ensures |Rendered(cols, rows)| == |rows| + 1
    ensures Rendered(cols, rows)[0] == Header(cols)
    ensures forall i :: 0 <= i < |rows| ==> Rendered(cols, rows)[i + 1] == RowCells(cols, rows[i])
    ensures forall i :: 0 <= i < |rows| + 1 ==> |Rendered(cols, rows)[i]| == |cols|
  {
  }

  /** The header `<tr>`: a text cell per column name. */
  method HeaderLine(cols: seq<string>) returns (tr: seq<Cell>)
    ensures tr == Header(cols)
  {
    tr := [];
    var i := 0;
    while i < |cols|
      invariant 0 <= i <= |cols|
      invariant tr == Header(cols)[..i]
    {
      tr := tr + [Text(Str(cols[i]))];
      i := i + 1;
    }
  }

  /** The `<tr>` of one row: for each column, the cell of the row's value under that name. */
  method RowLine(cols: seq<string>, row: Row) returns (tr: seq<Cell>)
    ensures tr == RowCells(cols, row)
  {
    tr := [];
    var i := 0;
    while i < |cols|
      invariant 0 <= i <= |cols|
      invariant tr == RowCells(cols, row)[..i]
    {
      var val := Property(row, cols[i]);
      var td := Blank;
      if !Falsy(val) {
        if val.Click? {
          td := Button(val.shown, val.next);
        } else {
          td := Text(val);
        }
      }
      tr := tr + [td];
      i := i + 1;
    }
  }

  /** A TableWriter: the columns, the number of rows written and the lines of the table. */
  class TableWriter {
    const explicit: Option<seq<string>>
    var columns: Option<seq<string>>
    var count: nat
    var table: seq<seq<Cell>>
    ghost var written: seq<Row>

    ghost predicate Valid()
      reads this
    {
      count == |written|
      && columns == Schema(explicit, written)
      && table == Output(explicit, written)
    }

    constructor(columnNames: Option<seq<string>>)
      ensures explicit == columnNames && written == []
      ensures columns == columnNames && count == 0 && table == []
      ensures Valid()
    {
      explicit := columnNames;
      columns := columnNames;
      count := 0;
      table := [];
      written := [];
    }

    /** writeRow: the header before the first row, then the row's line. */
    method WriteRow(row: Row)
      requires Valid()
      modifies this
      ensures Valid()
      ensures written == old(written) + [row]
      ensures count == old(count) + 1
      ensures columns.Some?
      ensures old(count) > 0 ==> columns == old(columns)
      ensures old(count) == 0 ==> columns == if explicit.Some? then explicit else Some(Names(row))
      ensures table == old(table) + (if old(count) == 0 then [Header(columns.value)] else [])
                                 + [RowCells(columns.value, row)]
    {
      if count == 0 {
        if columns.None? {
          columns := Some(Names(row));
        }
        var header := HeaderLine(columns.value);
        table := [header];
      } else {
        SchemaFixed(explicit, written, [row]);
      }
      var cols := columns.value;
      var tr := RowLine(cols, row);
      if count > 0 {
        RenderedSnoc(cols, written, row);
      } else {
        assert Rendered(cols, [row]) == [Header(cols)] + [RowCells(cols, row)];
      }
      table := table + [tr];
      count := count + 1;
      written := written + [row];
    }
  }
}
