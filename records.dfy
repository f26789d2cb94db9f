/** The tables the validation engine passes between its stages, as
    sequences of records. A missing number (NaN or None in a DataFrame) is
    `None`. */
module Records {
  import opened Wrappers

  /** A key of an attribute mapping: the configured computed column, which
      the configuration may leave out (`None`). */
  type ColumnKey = Option<string>

  /** One row of a calculated table: its feature id, its `classname` (surface
      tables only) and its numeric columns. A column the row has no entry
      for reads as missing. */
  datatype CalcRow = CalcRow(featureId: int, classname: Option<string>, values: map<string, Option<real>>)
  {
    function Value(column: string): Option<real> {
      if column in values then values[column] else None
    }
  }

  /** A calculated table: its column names and its rows. */
  datatype CalcTable = CalcTable(columns: set<string>, rows: seq<CalcRow>)

  /** One row of a thematic (reference) table: `feature_id`,
      `attribute_name`, `thematic_value`. */
  datatype ThematicRow = ThematicRow(featureId: int, attributeName: Option<string>, value: Option<real>)

  /** One row of a validation result. Building results carry no classname. */
  datatype ValidationRecord = ValidationRecord(
    featureId: int,
    classname: Option<string>,
    attributeName: string,
    calculated: Option<real>,
    thematic: Option<real>,
    difference: Option<real>,
    percentError: Option<real>)

  /** `calc - ref` on columns: missing when either side is missing. */
  function Difference(calculated: Option<real>, reference: Option<real>): (r: Option<real>)
    ensures r.Some? <==> calculated.Some? && reference.Some?
  {
    if calculated.Some? && reference.Some? then Some(calculated.value - reference.value) else None
  }

  /** The rows of a result for one attribute, in order. */
  function RowsFor(rows: seq<ValidationRecord>, attribute: string): (r: seq<ValidationRecord>)
    ensures |r| <= |rows|
    ensures forall v :: v in r <==> v in rows && v.attributeName == attribute
  {
    if rows == [] then []
    else
      var rest := RowsFor(rows[1..], attribute);
      assert forall v :: v in rows <==> v == rows[0] || v in rows[1..] by {
        assert rows == [rows[0]] + rows[1..];
      }
      if rows[0].attributeName == attribute then [rows[0]] + rest else rest
  }

  lemma {:induction false} RowsForAppend(xs: seq<ValidationRecord>, ys: seq<ValidationRecord>, attribute: string)
    ensures RowsFor(xs + ys, attribute) == RowsFor(xs, attribute) + RowsFor(ys, attribute)
  {
    if xs == [] {
      assert xs + ys == ys;
    } else {
      assert (xs + ys)[1..] == xs[1..] + ys;
      RowsForAppend(xs[1..], ys, attribute);
    }
  }

  /** The calculated and reference pairs of a table. */
  function Pairs(rows: seq<ValidationRecord>): (r: seq<(Option<real>, Option<real>)>)
    ensures |r| == |rows|
  {
    seq(|rows|, i requires 0 <= i < |rows| => (rows[i].calculated, rows[i].thematic))
  }

  function References(rows: seq<ValidationRecord>): (r: seq<Option<real>>)
    ensures |r| == |rows|
  {
    seq(|rows|, i requires 0 <= i < |rows| => rows[i].thematic)
  }
}
