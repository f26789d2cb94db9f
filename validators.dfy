/** Comparing calculated attributes with reference (thematic) values:
    building validation, surface validation and the per-attribute summary. */
module Validators {
  import opened Wrappers
  import opened Text
  import opened Dicts
  import opened Stats
  import opened Records

  /** `percent_error`: `difference / reference * 100` where the reference
      is present and non-zero, missing otherwise. */
  function PercentError(difference: Option<real>, reference: Option<real>): (r: Option<real>)
    ensures r.Some? <==> difference.Some? && reference.Some? && reference.value != 0.0
  {
    if difference.Some? && reference.Some? && reference.value != 0.0
    then Some(difference.value / reference.value * 100.0)
    else None
  }

  /** The result row for calculated row `c` and reference row `t` on
      `column`; surface results keep the classname. */
  function Pairing(c: CalcRow, t: ThematicRow, column: string, withClass: bool): (v: ValidationRecord)
    ensures v.featureId == c.featureId && v.attributeName == column
    ensures v.calculated == c.Value(column) && v.thematic == t.value
    ensures v.difference == Difference(v.calculated, v.thematic)
    ensures v.percentError == PercentError(v.difference, v.thematic)
  {
    var d := Difference(c.Value(column), t.value);
    ValidationRecord(c.featureId, if withClass then c.classname else None, column,
      c.Value(column), t.value, d, PercentError(d, t.value))
  }

  /** The reference rows of `column` that share `c`'s feature id, paired
      with `c`, in reference order. */
  function Matches(c: CalcRow, thematic: seq<ThematicRow>, column: string, withClass: bool): seq<ValidationRecord> {
    if thematic == [] then []
    else
      (if thematic[0].attributeName == Some(column) && thematic[0].featureId == c.featureId
       then [Pairing(c, thematic[0], column, withClass)] else [])
      + Matches(c, thematic[1..], column, withClass)
  }

  /** The inner merge on feature id of the calculated rows with the
      reference rows of `column`, in calculated-row order. */
  function InnerJoin(table: seq<CalcRow>, thematic: seq<ThematicRow>, column: string, withClass: bool): seq<ValidationRecord> {
    if table == [] then []
    else Matches(table[0], thematic, column, withClass) + InnerJoin(table[1..], thematic, column, withClass)
  }

  /** Calculated row `c` and reference row `t` join on `column`. */
  predicate Joins(c: CalcRow, t: ThematicRow, column: string) {
    t.attributeName == Some(column) && t.featureId == c.featureId
  }

  lemma {:induction false} MatchesMembership(c: CalcRow, thematic: seq<ThematicRow>, column: string, withClass: bool, v: ValidationRecord)
    ensures v in Matches(c, thematic, column, withClass) <==>
      exists j :: 0 <= j < |thematic| && Joins(c, thematic[j], column) && v == Pairing(c, thematic[j], column, withClass)
  {
    if thematic != [] {
      MatchesMembership(c, thematic[1..], column, withClass, v);
      if exists j :: 0 <= j < |thematic| && Joins(c, thematic[j], column) && v == Pairing(c, thematic[j], column, withClass) {
        var j :| 0 <= j < |thematic| && Joins(c, thematic[j], column) && v == Pairing(c, thematic[j], column, withClass);
        if j > 0 {
          assert thematic[1..][j - 1] == thematic[j];
        }
      }
      if v in Matches(c, thematic[1..], column, withClass) {
        var j :| 0 <= j < |thematic[1..]| && Joins(c, thematic[1..][j], column)
          && v == Pairing(c, thematic[1..][j], column, withClass);
        assert thematic[j + 1] == thematic[1..][j];
      }
    }
  }

  /** A row is in the join exactly when it pairs a calculated row and a
      reference row of `column` with the same feature id. */
  lemma {:induction false} InnerJoinMembership(table: seq<CalcRow>, thematic: seq<ThematicRow>, column: string, withClass: bool, v: ValidationRecord)
    ensures v in InnerJoin(table, thematic, column, withClass) <==> JoinedFrom(table, thematic, column, withClass, v)
  {
    if table != [] {
      InnerJoinMembership(table[1..], thematic, column, withClass, v);
      MatchesMembership(table[0], thematic, column, withClass, v);
      JoinedFromCons(table, thematic, column, withClass, v);
    }
  }

  /** `v` pairs some calculated row with some reference row it joins. */
  ghost predicate JoinedFrom(table: seq<CalcRow>, thematic: seq<ThematicRow>, column: string, withClass: bool, v: ValidationRecord) {
    exists i, j :: 0 <= i < |table| && 0 <= j < |thematic| && Joins(table[i], thematic[j], column)
      && v == Pairing(table[i], thematic[j], column, withClass)
  }

  lemma JoinedFromCons(table: seq<CalcRow>, thematic: seq<ThematicRow>, column: string, withClass: bool, v: ValidationRecord)
    requires table != []
    ensures JoinedFrom(table, thematic, column, withClass, v) <==>
      (exists j :: 0 <= j < |thematic| && Joins(table[0], thematic[j], column) && v == Pairing(table[0], thematic[j], column, withClass))
      || JoinedFrom(table[1..], thematic, column, withClass, v)
  {
    if JoinedFrom(table, thematic, column, withClass, v) {
      var i, j :| 0 <= i < |table| && 0 <= j < |thematic| && Joins(table[i], thematic[j], column)
        && v == Pairing(table[i], thematic[j], column, withClass);
      if i > 0 {
        assert table[1..][i - 1] == table[i];
      }
    }
    if JoinedFrom(table[1..], thematic, column, withClass, v) {
      var i, j :| 0 <= i < |table[1..]| && 0 <= j < |thematic| && Joins(table[1..][i], thematic[j], column)
        && v == Pairing(table[1..][i], thematic[j], column, withClass);
      assert table[i + 1] == table[1..][i];
    }
  }

  /** The index pairs of calculated row `i` and the first `n` reference rows
      that join on `column`. */
  ghost function RowPairs(table: seq<CalcRow>, thematic: seq<ThematicRow>, column: string, i: int, n: int): set<(int, int)>
    requires 0 <= i < |table| && 0 <= n <= |thematic|
  {
    set j | 0 <= j < n && Joins(table[i], thematic[j], column) :: (i, j)
  }

  /** The index pairs of the first `m` calculated rows and any reference row
      that join on `column`. */
  ghost function JoinPairs(table: seq<CalcRow>, thematic: seq<ThematicRow>, column: string, m: int): set<(int, int)>
    requires 0 <= m <= |table|
  {
    set i, j | 0 <= i < m && 0 <= j < |thematic| && Joins(table[i], thematic[j], column) :: (i, j)
  }

  lemma {:induction false} MatchesAppend(c: CalcRow, a: seq<ThematicRow>, b: seq<ThematicRow>, column: string, withClass: bool)
    ensures Matches(c, a + b, column, withClass) == Matches(c, a, column, withClass) + Matches(c, b, column, withClass)
  {
    if a != [] {
      assert (a + b)[1..] == a[1..] + b;
      MatchesAppend(c, a[1..], b, column, withClass);
    } else {
      assert a + b == b;
    }
  }

  lemma {:induction false} InnerJoinAppend(a: seq<CalcRow>, b: seq<CalcRow>, thematic: seq<ThematicRow>, column: string, withClass: bool)
    ensures InnerJoin(a + b, thematic, column, withClass) == InnerJoin(a, thematic, column, withClass) + InnerJoin(b, thematic, column, withClass)
  {
    if a != [] {
      assert (a + b)[1..] == a[1..] + b;
      InnerJoinAppend(a[1..], b, thematic, column, withClass);
    } else {
      assert a + b == b;
    }
  }

  /** Calculated row `i` is paired once with each of the first `n`
      reference rows it joins. */
  lemma {:induction false} MatchesCount(table: seq<CalcRow>, thematic: seq<ThematicRow>, column: string, withClass: bool, i: int, n: int)
    requires 0 <= i < |table| && 0 <= n <= |thematic|
    ensures |Matches(table[i], thematic[..n], column, withClass)| == |RowPairs(table, thematic, column, i, n)|
    decreases n
  {
    if n == 0 {
      assert RowPairs(table, thematic, column, i, 0) == {};
    } else {
      MatchesCount(table, thematic, column, withClass, i, n - 1);
      assert thematic[..n] == thematic[..n - 1] + [thematic[n - 1]];
      MatchesAppend(table[i], thematic[..n - 1], [thematic[n - 1]], column, withClass);
      assert [thematic[n - 1]][1..] == [];
      var extra: set<(int, int)> := if Joins(table[i], thematic[n - 1], column) then {(i, n - 1)} else {};
      assert RowPairs(table, thematic, column, i, n) == RowPairs(table, thematic, column, i, n - 1) + extra;
      assert (i, n - 1) !in RowPairs(table, thematic, column, i, n - 1);
    }
  }

  lemma {:induction false} InnerJoinCountUpTo(table: seq<CalcRow>, thematic: seq<ThematicRow>, column: string, withClass: bool, m: int)
    requires 0 <= m <= |table|
    ensures |InnerJoin(table[..m], thematic, column, withClass)| == |JoinPairs(table, thematic, column, m)|
    decreases m
  {
    if m == 0 {
      assert JoinPairs(table, thematic, column, 0) == {};
    } else {
      InnerJoinCountUpTo(table, thematic, column, withClass, m - 1);
      assert table[..m] == table[..m - 1] + [table[m - 1]];
      InnerJoinAppend(table[..m - 1], [table[m - 1]], thematic, column, withClass);
      assert [table[m - 1]][1..] == [];
      assert InnerJoin([table[m - 1]], thematic, column, withClass) == Matches(table[m - 1], thematic, column, withClass);
      MatchesCount(table, thematic, column, withClass, m - 1, |thematic|);
      assert thematic[..|thematic|] == thematic;
      var row := RowPairs(table, thematic, column, m - 1, |thematic|);
      assert JoinPairs(table, thematic, column, m) == JoinPairs(table, thematic, column, m - 1) + row;
      assert JoinPairs(table, thematic, column, m - 1) !! row;
    }
  }

  /** The join holds exactly one row per joining pair of a calculated row
      and a reference row: its length is the number of such index pairs. */
  lemma InnerJoinCount(table: seq<CalcRow>, thematic: seq<ThematicRow>, column: string, withClass: bool)
    ensures |InnerJoin(table, thematic, column, withClass)|
      == |set i, j | 0 <= i < |table| && 0 <= j < |thematic| && Joins(table[i], thematic[j], column) :: (i, j)|
  {
    InnerJoinCountUpTo(table, thematic, column, withClass, |table|);
    assert table[..|table|] == table;
  }

  /** Every row of the join for `column` is labelled `column`. */
  lemma {:induction false} InnerJoinRowsFor(table: seq<CalcRow>, thematic: seq<ThematicRow>, column: string, withClass: bool, other: string)
    ensures RowsFor(InnerJoin(table, thematic, column, withClass), other)
      == if other == column then InnerJoin(table, thematic, column, withClass) else []
  {
    var rows := InnerJoin(table, thematic, column, withClass);
    AllLabelled(rows, column, other);
    forall v | v in rows ensures v.attributeName == column {
      InnerJoinMembership(table, thematic, column, withClass, v);
    }
    AllLabelled(rows, column, other);
  }

  lemma {:induction false} AllLabelled(rows: seq<ValidationRecord>, column: string, other: string)
    ensures (forall v :: v in rows ==> v.attributeName == column) ==>
      RowsFor(rows, other) == if other == column then rows else []
  {
    if rows != [] {
      AllLabelled(rows[1..], column, other);
    }
  }

  /** `attr_thematic` is non-empty: some reference row carries the key. */
  predicate HasReference(thematic: seq<ThematicRow>, key: ColumnKey) {
    key.Some? && exists j :: 0 <= j < |thematic| && thematic[j].attributeName == key
  }

  /** What one mapping entry contributes to building validation: nothing
      without a label or reference rows, a KeyError when the column is not
      in the calculated table, the join otherwise. */
  function BuildingStep(table: CalcTable, thematic: seq<ThematicRow>, key: ColumnKey, sourceLabel: string)
    : Result<seq<ValidationRecord>, string>
  {
    if sourceLabel == "" || !HasReference(thematic, key) then Success([])
    else if key.value !in table.columns then Failure("KeyError: '" + key.value + "'")
    else Success(InnerJoin(table.rows, thematic, key.value, false))
  }

  /** The entries of `mapping` processed in order, stopping at the first
      KeyError. */
  function BuildingFrom(table: CalcTable, thematic: seq<ThematicRow>, mapping: Dict<ColumnKey, string>)
    : Result<seq<ValidationRecord>, string>
  {
    if mapping == [] then Success([])
    else
      match BuildingFrom(table, thematic, mapping[..|mapping| - 1])
      case Failure(e) => Failure(e)
      case Success(acc) =>
        var last := mapping[|mapping| - 1];
        match BuildingStep(table, thematic, last.0, last.1)
        case Failure(e) => Failure(e)
        case Success(rows) => Success(acc + rows)
  }

  /** `validate_building_attributes`. */
  function BuildingValidation(table: CalcTable, thematic: seq<ThematicRow>, mapping: Dict<ColumnKey, string>)
    : Result<seq<ValidationRecord>, string>
  {
    if |table.rows| == 0 || |thematic| == 0 then Success([])
    else BuildingFrom(table, thematic, mapping)
  }

  /** The loop of `validate_building_attributes`: one mapping entry after
      another, appending each entry's rows to the results. */
  method ValidateBuildingAttributes(table: CalcTable, thematic: seq<ThematicRow>, mapping: Dict<ColumnKey, string>)
    returns (r: Result<seq<ValidationRecord>, string>)
    ensures r == BuildingValidation(table, thematic, mapping)
    ensures |table.rows| == 0 || |thematic| == 0 ==> r == Success([])
  {
    if |table.rows| == 0 || |thematic| == 0 {
      return Success([]);
    }
    var results: seq<ValidationRecord> := [];
    var i := 0;
    while i < |mapping|
      invariant 0 <= i <= |mapping|
      invariant BuildingFrom(table, thematic, mapping[..i]) == Success(results)
    {
      assert mapping[..i + 1][..i] == mapping[..i];
      var (column, sourceLabel) := mapping[i];
      if sourceLabel == "" {
        assert results + [] == results;
      } else if !HasReference(thematic, column) {
        assert results + [] == results;
      } else if column.value !in table.columns {
        assert BuildingFrom(table, thematic, mapping[..i + 1]).Failure?;
        assert BuildingFrom(table, thematic, mapping) == BuildingFrom(table, thematic, mapping[..i + 1]) by {
          BuildingFromFailureSticks(table, thematic, mapping, i + 1);
        }
        return Failure("KeyError: '" + column.value + "'");
      } else {
        var merged := InnerJoin(table.rows, thematic, column.value, false);
        results := results + merged;
      }
      i := i + 1;
    }
    assert mapping[..i] == mapping;
    r := Success(results);
  }

  /** Once an entry fails, later entries do not change the outcome. */
  lemma {:induction false} BuildingFromFailureSticks(table: CalcTable, thematic: seq<ThematicRow>, mapping: Dict<ColumnKey, string>, n: nat)
    requires n <= |mapping|
    requires BuildingFrom(table, thematic, mapping[..n]).Failure?
    ensures BuildingFrom(table, thematic, mapping) == BuildingFrom(table, thematic, mapping[..n])
    decreases |mapping| - n
  {
    if n < |mapping| {
      assert mapping[..|mapping| - 1][..n] == mapping[..n];
      BuildingFromFailureSticks(table, thematic, mapping[..|mapping| - 1], n);
    } else {
      assert mapping[..n] == mapping;
    }
  }

  /** A join contains only rows that pair with a reference row of its
      column, so without such rows it is empty. */
  lemma NoReferenceNoJoin(table: seq<CalcRow>, thematic: seq<ThematicRow>, column: string, withClass: bool)
    requires !HasReference(thematic, Some(column))
    ensures InnerJoin(table, thematic, column, withClass) == []
  {
    var rows := InnerJoin(table, thematic, column, withClass);
    if rows != [] {
      InnerJoinMembership(table, thematic, column, withClass, rows[0]);
    }
  }

  /** The rows an attribute should get: the join when the mapping gives it
      a non-empty label, nothing otherwise. */
  function JoinIfLabelled(table: seq<CalcRow>, thematic: seq<ThematicRow>, column: string, withClass: bool, entry: Option<string>)
    : seq<ValidationRecord>
  {
    if entry.Some? && entry.value != "" then InnerJoin(table, thematic, column, withClass) else []
  }

  lemma DistinctPrefix<K(!new), V>(d: Dict<K, V>)
    requires |d| > 0 && DistinctKeys(d)
    ensures DistinctKeys(d[..|d| - 1])
  {
  }

  lemma BuildingStepRowsFor(table: CalcTable, thematic: seq<ThematicRow>, key: ColumnKey, sourceLabel: string, column: string)
    requires BuildingStep(table, thematic, key, sourceLabel).Success?
    ensures RowsFor(BuildingStep(table, thematic, key, sourceLabel).value, column)
      == if key == Some(column) then JoinIfLabelled(table.rows, thematic, column, false, Some(sourceLabel)) else []
  {
    var step := BuildingStep(table, thematic, key, sourceLabel).value;
    if step != [] {
      InnerJoinRowsFor(table.rows, thematic, key.value, false, column);
    }
    if key == Some(column) && sourceLabel != "" && !HasReference(thematic, key) {
      NoReferenceNoJoin(table.rows, thematic, column, false);
    }
  }

  /** A building result holds, for each attribute, exactly the join of
      that attribute when the mapping labels it, and nothing else. */
  lemma {:induction false} BuildingFromRowsFor(table: CalcTable, thematic: seq<ThematicRow>, mapping: Dict<ColumnKey, string>,
                                               rows: seq<ValidationRecord>, column: string)
    requires DistinctKeys(mapping)
    requires BuildingFrom(table, thematic, mapping) == Success(rows)
    ensures RowsFor(rows, column) == JoinIfLabelled(table.rows, thematic, column, false, Get(mapping, Some(column)))
  {
    if mapping == [] {
    } else {
      var prefix := mapping[..|mapping| - 1];
      var last := mapping[|mapping| - 1];
      var acc := BuildingFrom(table, thematic, prefix).value;
      var step := BuildingStep(table, thematic, last.0, last.1).value;
      assert rows == acc + step;
      DistinctPrefix(mapping);
      BuildingFromRowsFor(table, thematic, prefix, acc, column);
      GetLast(mapping, Some(column));
      RowsForAppend(acc, step, column);
      BuildingStepRowsFor(table, thematic, last.0, last.1, column);
      if last.0 == Some(column) {
        LastKeyFresh(mapping);
        assert RowsFor(acc, column) == [];
        assert RowsFor(acc, column) + RowsFor(step, column) == RowsFor(step, column);
      } else {
        assert RowsFor(step, column) == [];
        assert RowsFor(acc, column) + RowsFor(step, column) == RowsFor(acc, column);
      }
    }
  }

  /** A mapping entry that makes building validation raise a KeyError. */
  predicate MissingColumn(table: CalcTable, thematic: seq<ThematicRow>, entry: (ColumnKey, string)) {
    entry.1 != "" && HasReference(thematic, entry.0) && entry.0.value !in table.columns
  }

  /** Building validation fails exactly when a labelled entry with
      reference rows names a column the calculated table lacks. */
  lemma {:induction false} BuildingFromFails(table: CalcTable, thematic: seq<ThematicRow>, mapping: Dict<ColumnKey, string>)
    ensures BuildingFrom(table, thematic, mapping).Failure? <==>
      exists k :: 0 <= k < |mapping| && MissingColumn(table, thematic, mapping[k])
  {
    if mapping != [] {
      var prefix := mapping[..|mapping| - 1];
      BuildingFromFails(table, thematic, prefix);
      if exists k :: 0 <= k < |prefix| && MissingColumn(table, thematic, prefix[k]) {
        var k :| 0 <= k < |prefix| && MissingColumn(table, thematic, prefix[k]);
        assert MissingColumn(table, thematic, mapping[k]);
      }
      if exists k :: 0 <= k < |mapping| && MissingColumn(table, thematic, mapping[k]) {
        var k :| 0 <= k < |mapping| && MissingColumn(table, thematic, mapping[k]);
        if k < |prefix| {
          assert MissingColumn(table, thematic, prefix[k]);
        }
      }
    }
  }

  /** Building validation of non-empty tables: on success each attribute
      has exactly its join; it fails exactly on a missing column. */
  lemma BuildingValidationCorrect(table: CalcTable, thematic: seq<ThematicRow>, mapping: Dict<ColumnKey, string>, column: string)
    requires DistinctKeys(mapping)
    requires |table.rows| > 0 && |thematic| > 0
    ensures BuildingValidation(table, thematic, mapping).Failure? <==>
      exists k :: 0 <= k < |mapping| && MissingColumn(table, thematic, mapping[k])
    ensures BuildingValidation(table, thematic, mapping).Success? ==>
      RowsFor(BuildingValidation(table, thematic, mapping).value, column)
        == JoinIfLabelled(table.rows, thematic, column, false, Get(mapping, Some(column)))
  {
    BuildingFromFails(table, thematic, mapping);
    if BuildingValidation(table, thematic, mapping).Success? {
      BuildingFromRowsFor(table, thematic, mapping, BuildingValidation(table, thematic, mapping).value, column);
    }
  }

  /** The calculated rows of one surface type. */
  function OfClass(rows: seq<CalcRow>, surfaceType: string): (r: seq<CalcRow>)
    ensures forall c :: c in r <==> c in rows && c.classname == Some(surfaceType)
  {
    if rows == [] then []
    else
      assert forall c :: c in rows <==> c == rows[0] || c in rows[1..] by {
        assert rows == [rows[0]] + rows[1..];
      }
      (if rows[0].classname == Some(surfaceType) then [rows[0]] else []) + OfClass(rows[1..], surfaceType)
  }

  /** What one mapping entry contributes to surface validation: nothing
      without a label, for a column the calculated table lacks, or without
      reference rows; the join otherwise. */
  function SurfaceStep(filtered: seq<CalcRow>, columns: set<string>, thematic: seq<ThematicRow>, key: ColumnKey, sourceLabel: string)
    : seq<ValidationRecord>
  {
    if sourceLabel == "" then []
    else if key.None? || key.value !in columns then []
    else if !HasReference(thematic, key) then []
    else InnerJoin(filtered, thematic, key.value, true)
  }

  function SurfaceFrom(filtered: seq<CalcRow>, columns: set<string>, thematic: seq<ThematicRow>, mapping: Dict<ColumnKey, string>)
    : seq<ValidationRecord>
  {
    if mapping == [] then []
    else
      var last := mapping[|mapping| - 1];
      SurfaceFrom(filtered, columns, thematic, mapping[..|mapping| - 1])
        + SurfaceStep(filtered, columns, thematic, last.0, last.1)
  }

  /** `validate_surface_attributes`. */
  function SurfaceValidation(table: CalcTable, thematic: seq<ThematicRow>, mapping: Dict<ColumnKey, string>, surfaceType: string)
    : seq<ValidationRecord>
  {
    if |table.rows| == 0 || |thematic| == 0 then []
    else
      var filtered := OfClass(table.rows, surfaceType);
      if filtered == [] then [] else SurfaceFrom(filtered, table.columns, thematic, mapping)
  }

  /** The loop of `validate_surface_attributes`. */
  method ValidateSurfaceAttributes(table: CalcTable, thematic: seq<ThematicRow>, mapping: Dict<ColumnKey, string>, surfaceType: string)
    returns (r: seq<ValidationRecord>)
    ensures r == SurfaceValidation(table, thematic, mapping, surfaceType)
    ensures |table.rows| == 0 || |thematic| == 0 || OfClass(table.rows, surfaceType) == [] ==> r == []
  {
    if |table.rows| == 0 || |thematic| == 0 {
      return [];
    }
    var filtered := OfClass(table.rows, surfaceType);
    if filtered == [] {
      return [];
    }
    r := [];
    var i := 0;
    while i < |mapping|
      invariant 0 <= i <= |mapping|
      invariant r == SurfaceFrom(filtered, table.columns, thematic, mapping[..i])
    {
      assert mapping[..i + 1][..i] == mapping[..i];
      var (column, sourceLabel) := mapping[i];
      if sourceLabel == "" {
        assert r + [] == r;
      } else if column.None? || column.value !in table.columns {
        assert r + [] == r;
      } else if !HasReference(thematic, column) {
        assert r + [] == r;
      } else {
        var merged := InnerJoin(filtered, thematic, column.value, true);
        r := r + merged;
      }
      i := i + 1;
    }
    assert mapping[..i] == mapping;
  }

  lemma SurfaceStepRowsFor(filtered: seq<CalcRow>, columns: set<string>, thematic: seq<ThematicRow>,
                           key: ColumnKey, sourceLabel: string, column: string)
    ensures RowsFor(SurfaceStep(filtered, columns, thematic, key, sourceLabel), column)
      == if key == Some(column) && column in columns then JoinIfLabelled(filtered, thematic, column, true, Some(sourceLabel)) else []
  {
    var step := SurfaceStep(filtered, columns, thematic, key, sourceLabel);
    if step != [] {
      InnerJoinRowsFor(filtered, thematic, key.value, true, column);
    }
    if key == Some(column) && column in columns && sourceLabel != "" && !HasReference(thematic, key) {
      NoReferenceNoJoin(filtered, thematic, column, true);
    }
  }

  /** A surface result holds, for each attribute, exactly the join of the
      rows of the surface type when the mapping labels the attribute and
      the calculated table has its column; nothing else. */
  lemma {:induction false} SurfaceFromRowsFor(filtered: seq<CalcRow>, columns: set<string>, thematic: seq<ThematicRow>,
                                              mapping: Dict<ColumnKey, string>, column: string)
    requires DistinctKeys(mapping)
    ensures RowsFor(SurfaceFrom(filtered, columns, thematic, mapping), column)
      == if column in columns then JoinIfLabelled(filtered, thematic, column, true, Get(mapping, Some(column))) else []
  {
    if mapping != [] {
      var prefix := mapping[..|mapping| - 1];
      var last := mapping[|mapping| - 1];
      var acc := SurfaceFrom(filtered, columns, thematic, prefix);
      var step := SurfaceStep(filtered, columns, thematic, last.0, last.1);
      DistinctPrefix(mapping);
      SurfaceFromRowsFor(filtered, columns, thematic, prefix, column);
      GetLast(mapping, Some(column));
      RowsForAppend(acc, step, column);
      SurfaceStepRowsFor(filtered, columns, thematic, last.0, last.1, column);
      if last.0 == Some(column) {
        LastKeyFresh(mapping);
        assert RowsFor(acc, column) == [];
        assert RowsFor(acc, column) + RowsFor(step, column) == RowsFor(step, column);
      } else {
        assert RowsFor(step, column) == [];
        assert RowsFor(acc, column) + RowsFor(step, column) == RowsFor(acc, column);
      }
    }
  }

  /** Every surface result row comes from a calculated row of the
      requested surface type. */
  lemma {:induction false} SurfaceFromClassname(filtered: seq<CalcRow>, columns: set<string>, thematic: seq<ThematicRow>,
                                                mapping: Dict<ColumnKey, string>, surfaceType: string, v: ValidationRecord)
    requires forall c :: c in filtered ==> c.classname == Some(surfaceType)
    requires v in SurfaceFrom(filtered, columns, thematic, mapping)
    ensures v.classname == Some(surfaceType)
  {
    var prefix := mapping[..|mapping| - 1];
    var last := mapping[|mapping| - 1];
    if v in SurfaceFrom(filtered, columns, thematic, prefix) {
      SurfaceFromClassname(filtered, columns, thematic, prefix, surfaceType, v);
    } else {
      InnerJoinMembership(filtered, thematic, last.0.value, true, v);
    }
  }

  /** Surface validation of non-empty tables: each attribute has exactly
      the join of the rows of the surface type, and every row carries that
      surface type. */
  lemma SurfaceValidationCorrect(table: CalcTable, thematic: seq<ThematicRow>, mapping: Dict<ColumnKey, string>,
                                 surfaceType: string, column: string)
    requires DistinctKeys(mapping)
    ensures forall v :: v in SurfaceValidation(table, thematic, mapping, surfaceType) ==> v.classname == Some(surfaceType)
    ensures |table.rows| > 0 && |thematic| > 0 && column in table.columns ==>
      RowsFor(SurfaceValidation(table, thematic, mapping, surfaceType), column)
        == JoinIfLabelled(OfClass(table.rows, surfaceType), thematic, column, true, Get(mapping, Some(column)))
    ensures column !in table.columns ==> RowsFor(SurfaceValidation(table, thematic, mapping, surfaceType), column) == []
  {
    var filtered := OfClass(table.rows, surfaceType);
    forall v | v in SurfaceValidation(table, thematic, mapping, surfaceType) ensures v.classname == Some(surfaceType) {
      SurfaceFromClassname(filtered, table.columns, thematic, mapping, surfaceType, v);
    }
    if |table.rows| > 0 && |thematic| > 0 {
      SurfaceFromRowsFor(filtered, table.columns, thematic, mapping, column);
      if filtered == [] {
        assert InnerJoin(filtered, thematic, column, true) == [];
      }
    }
  }

  /** `a` sorts strictly before `b`. */
  predicate LexLt(a: string, b: string) {
    LexLe(a, b) && a != b
  }

  /** Strictly ascending: each name sorts strictly before the next. */
  predicate Ascending(xs: seq<string>) {
    forall i :: 0 <= i < |xs| - 1 ==> LexLt(xs[i], xs[i + 1])
  }

  /** Adds `x` to an ascending list of distinct names, keeping it so. */
  function InsertName(xs: seq<string>, x: string): (r: seq<string>)
    requires Ascending(xs)
    ensures Ascending(r)
    ensures forall y :: y in r <==> y in xs || y == x
    ensures |r| > 0 && (r[0] == x || (|xs| > 0 && r[0] == xs[0]))
  {
    if xs == [] then [x]
    else if x == xs[0] then xs
    else if LexLe(x, xs[0]) then [x] + xs
    else
      LexLeTotal(x, xs[0]);
      var rest := InsertName(xs[1..], x);
      assert forall y :: y in xs <==> y == xs[0] || y in xs[1..] by {
        assert xs == [xs[0]] + xs[1..];
      }
      [xs[0]] + rest
  }

  /** The group keys of `groupby('attribute_name')`: each attribute name
      present, once, in ascending order. */
  function GroupNames(rows: seq<ValidationRecord>): (r: seq<string>)
    ensures Ascending(r)
    ensures forall y :: y in r <==> exists v :: v in rows && v.attributeName == y
  {
    if rows == [] then []
    else
      var prefix := rows[..|rows| - 1];
      assert forall v :: v in rows <==> v in prefix || v == rows[|rows| - 1] by {
        assert rows == prefix + [rows[|rows| - 1]];
      }
      InsertName(GroupNames(prefix), rows[|rows| - 1].attributeName)
  }

  /** Ascending names are pairwise distinct and ordered. */
  lemma {:induction false} AscendingStrict(xs: seq<string>, i: nat, j: nat)
    requires Ascending(xs) && i < j < |xs|
    ensures LexLt(xs[i], xs[j])
    decreases j - i
  {
    if j > i + 1 {
      AscendingStrict(xs, i + 1, j);
      LexLeTransitive(xs[i], xs[i + 1], xs[j]);
      if xs[i] == xs[j] {
        LexLeAntisymmetric(xs[i], xs[i + 1]);
      }
    }
  }

  /** One line of `get_validation_summary`. The median is not modelled. */
  datatype SummaryRow = SummaryRow(
    attributeName: string,
    count: nat,
    meanDifference: Option<real>,
    stdDifference: Option<real>,
    rmse: Option<real>,
    meanPercentError: Option<real>,
    stdPercentError: Option<real>)

  function Differences(rows: seq<ValidationRecord>): (r: seq<Option<real>>)
    ensures |r| == |rows| && forall i :: 0 <= i < |rows| ==> r[i] == rows[i].difference
  {
    seq(|rows|, i requires 0 <= i < |rows| => rows[i].difference)
  }

  function PercentErrors(rows: seq<ValidationRecord>): (r: seq<Option<real>>)
    ensures |r| == |rows| && forall i :: 0 <= i < |rows| ==> r[i] == rows[i].percentError
  {
    seq(|rows|, i requires 0 <= i < |rows| => rows[i].percentError)
  }

  /** A square root applied to a value that may be missing. */
  function Root(sqrt: real -> real, x: Option<real>): Option<real> {
    if x.Some? then Some(sqrt(x.value)) else None
  }

  /** The aggregates of one attribute: count, mean, standard deviation and
      root mean square of the differences; mean and standard deviation of
      the percent errors. Missing values are skipped. */
  function SummaryFor(rows: seq<ValidationRecord>, name: string, sqrt: real -> real): (s: SummaryRow)
    ensures s.attributeName == name
    ensures s.count <= |RowsFor(rows, name)|
    ensures s.meanDifference.Some? <==> s.count > 0
    ensures s.rmse.Some? <==> s.count > 0
    ensures var d := Present(Differences(RowsFor(rows, name)));
      s.count == |d| && s.meanDifference == Mean(d) && s.stdDifference == Root(sqrt, SampleVariance(d))
      && s.rmse == Root(sqrt, Mean(Squares(d)))
    ensures var p := Present(PercentErrors(RowsFor(rows, name)));
      s.meanPercentError == Mean(p) && s.stdPercentError == Root(sqrt, SampleVariance(p))
  {
    var group := RowsFor(rows, name);
    var d := Present(Differences(group));
    var p := Present(PercentErrors(group));
    SummaryRow(name, |d|, Mean(d), Root(sqrt, SampleVariance(d)), Root(sqrt, Mean(Squares(d))),
      Mean(p), Root(sqrt, SampleVariance(p)))
  }

  /** `get_validation_summary`, without the rounding to four places. */
  function ValidationSummary(rows: seq<ValidationRecord>, sqrt: real -> real): (r: seq<SummaryRow>)
    ensures rows == [] ==> r == []
  {
    var names := GroupNames(rows);
    seq(|names|, i requires 0 <= i < |names| => SummaryFor(rows, names[i], sqrt))
  }

  /** The summary lines are in strictly ascending name order, so no
      attribute has two lines. */
  lemma ValidationSummaryAscending(rows: seq<ValidationRecord>, sqrt: real -> real)
    ensures var r := ValidationSummary(rows, sqrt);
      forall i, j :: 0 <= i < j < |r| ==> LexLt(r[i].attributeName, r[j].attributeName)
  {
    var names := GroupNames(rows);
    var r := ValidationSummary(rows, sqrt);
    forall i, j | 0 <= i < j < |r| ensures LexLt(r[i].attributeName, r[j].attributeName) {
      AscendingStrict(names, i, j);
    }
  }

  /** An attribute has a summary line exactly when some row carries it;
      the line counts the attribute's present differences, and its RMSE is
      the root of their mean square. */
  lemma ValidationSummaryLine(rows: seq<ValidationRecord>, sqrt: real -> real, name: string)
    ensures var r := ValidationSummary(rows, sqrt);
      (exists i :: 0 <= i < |r| && r[i].attributeName == name) <==> (exists v :: v in rows && v.attributeName == name)
    ensures var r := ValidationSummary(rows, sqrt);
      forall i :: 0 <= i < |r| && r[i].attributeName == name ==>
        r[i].count == |Present(Differences(RowsFor(rows, name)))|
        && r[i].rmse == Root(sqrt, Mean(Squares(Present(Differences(RowsFor(rows, name))))))
  {
    var names := GroupNames(rows);
    var r := ValidationSummary(rows, sqrt);
    if name in names {
      var i :| 0 <= i < |names| && names[i] == name;
      assert r[i].attributeName == name;
    }
  }
}
