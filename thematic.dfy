/** The in-memory part of loading reference (thematic) data: the table
    names of the calculated data, the IN-lists of the property query, and
    re-keying the property rows from source label to computed column. The
    queries themselves run in the database; their results are inputs. */
module ThematicData {
  import opened Wrappers
  import opened Text
  import opened Dicts
  import opened Records

  /** The `db` configuration section; each key may be absent. */
  datatype DbSection = DbSection(
    city2tabulaSchema: Option<string>,
    citydbSchema: Option<string>,
    tables: Dict<string, string>)

  function GetOrDefault(d: Dict<string, string>, k: string, default: string): string {
    Get(d, k).GetOr(default)
  }

  /** The schema and the two table names `load_city2tabula_data` reads. */
  datatype CalculatedTables = CalculatedTables(schema: string, buildingTable: string, surfaceTable: string)

  /** `name` is `prefix` followed by the value configured under `key` in
      `tables`, or by `key` itself when nothing is configured there. */
  ghost predicate NamedAfter(name: string, prefix: string, tables: Dict<string, string>, key: string) {
    if HasKey(tables, key) then exists i :: 0 <= i < |tables| && tables[i].0 == key && name == prefix + tables[i].1
    else name == prefix + key
  }

  /** The schema is `city2tabula_schema` (default `city2tabula`); each table
      name is `{citydb_schema}_{base}` (schema default `lod2`), the base being
      the configured table name or, when none is configured, the key itself. */
  function CalculatedTableNames(db: DbSection): (r: CalculatedTables)
    ensures db.city2tabulaSchema.Some? ==> r.schema == db.city2tabulaSchema.value
    ensures db.city2tabulaSchema.None? ==> r.schema == "city2tabula"
    ensures var prefix := (if db.citydbSchema.Some? then db.citydbSchema.value else "lod2") + "_";
      NamedAfter(r.buildingTable, prefix, db.tables, "building_feature")
      && NamedAfter(r.surfaceTable, prefix, db.tables, "child_feature_surface")
  {
    var citydb := db.citydbSchema.GetOr("lod2");
    CalculatedTables(
      db.city2tabulaSchema.GetOr("city2tabula"),
      citydb + "_" + GetOrDefault(db.tables, "building_feature", "building_feature"),
      citydb + "_" + GetOrDefault(db.tables, "child_feature_surface", "child_feature_surface"))
  }

  /** With nothing configured the tables are `lod2_building_feature` and
      `lod2_child_feature_surface` in schema `city2tabula`. */
  lemma CalculatedTableDefaults()
    ensures CalculatedTableNames(DbSection(None, None, []))
      == CalculatedTables("city2tabula", "lod2_building_feature", "lod2_child_feature_surface")
  {
    var none: Dict<string, string> := [];
    assert GetOrDefault(none, "building_feature", "building_feature") == "building_feature";
    assert GetOrDefault(none, "child_feature_surface", "child_feature_surface") == "child_feature_surface";
    DefaultTableNames();
  }

  lemma DefaultTableNames()
    ensures "lod2" + "_" + "building_feature" == "lod2_building_feature"
    ensures "lod2" + "_" + "child_feature_surface" == "lod2_child_feature_surface"
  {
    assert "lod2" + "_" == "lod2_";
  }

  /** The non-empty labels of a mapping, in mapping order. */
  function SourceLabels(mapping: Dict<ColumnKey, string>): (r: seq<string>)
    ensures |r| <= |mapping|
    ensures forall l :: l in r <==> l != "" && l in ValuesOf(mapping)
  {
    if mapping == [] then []
    else
      assert ValuesOf(mapping) == [mapping[0].1] + ValuesOf(mapping[1..]);
      (if mapping[0].1 != "" then [mapping[0].1] else []) + SourceLabels(mapping[1..])
  }

  function Quote(l: string): string {
    "'" + l + "'"
  }

  function QuotedLabels(labels: seq<string>): (r: seq<string>)
    ensures |r| == |labels| && forall i :: 0 <= i < |labels| ==> r[i] == Quote(labels[i])
  {
    seq(|labels|, i requires 0 <= i < |labels| => Quote(labels[i]))
  }

  /** `','.join(f"'{label}'" for label in labels)`. */
  function LabelList(labels: seq<string>): string {
    Join(QuotedLabels(labels), ",")
  }

  /** Cutting the label list at its commas gives each label in quotes, as
      long as no label holds a comma. */
  lemma LabelListRoundTrip(labels: seq<string>)
    requires |labels| >= 1
    requires forall i :: 0 <= i < |labels| ==> ',' !in labels[i]
    ensures Split(LabelList(labels), ',') == QuotedLabels(labels)
    ensures forall i :: 0 <= i < |labels| ==> QuotedLabels(labels)[i][1..|labels[i]| + 1] == labels[i]
  {
    SplitJoin(QuotedLabels(labels), ',');
  }

  /** The two IN-lists of the property query, or `None` when a loader
      returns the empty table without querying: no ids, an empty mapping,
      or no non-empty label. */
  function PropertyQuery(ids: seq<int>, mapping: Dict<ColumnKey, string>): (r: Option<(string, string)>)
    ensures r.None? <==> |ids| == 0 || |mapping| == 0 || forall l :: l in ValuesOf(mapping) ==> l == ""
    ensures r.Some? ==> r.value == (IdList(ids), LabelList(SourceLabels(mapping)))
  {
    if |ids| == 0 || |mapping| == 0 then None
    else
      var labels := SourceLabels(mapping);
      if labels == [] then
        assert forall l :: l in ValuesOf(mapping) ==> l == "" by {
          forall l | l in ValuesOf(mapping) ensures l == "" {
            assert l !in labels;
          }
        }
        None
      else
        assert labels[0] in labels;
        Some((IdList(ids), LabelList(labels)))
  }

  /** One row of the property query: `feature_id`, `source_label` and the
      numeric value. */
  datatype PropertyRow = PropertyRow(featureId: int, sourceLabel: string, value: Option<real>)

  /** The computed columns carrying label `l`, in mapping order. */
  function ColumnsFor(mapping: Dict<ColumnKey, string>, l: string): (r: seq<ColumnKey>)
    ensures forall c :: c in r <==> (c, l) in mapping
  {
    if mapping == [] then []
    else
      var prefix := mapping[..|mapping| - 1];
      assert mapping == prefix + [mapping[|mapping| - 1]];
      ColumnsFor(prefix, l) + (if mapping[|mapping| - 1].1 == l then [mapping[|mapping| - 1].0] else [])
  }

  lemma ColumnsForLabel(mapping: Dict<ColumnKey, string>, l: string)
    ensures ColumnsFor(mapping, l) != [] <==> l in ValuesOf(mapping)
  {
    if l in ValuesOf(mapping) {
      var i :| 0 <= i < |mapping| && ValuesOf(mapping)[i] == l;
      assert mapping[i] == (mapping[i].0, l);
      assert mapping[i].0 in ColumnsFor(mapping, l);
    }
    if ColumnsFor(mapping, l) != [] {
      var c := ColumnsFor(mapping, l)[0];
      assert (c, l) in mapping;
      var i :| 0 <= i < |mapping| && mapping[i] == (c, l);
      assert ValuesOf(mapping)[i] == l;
    }
  }

  /** `r` maps each label of `mapping` to its columns, and nothing else. */
  ghost predicate IsLabelToColumns(r: Dict<string, seq<ColumnKey>>, mapping: Dict<ColumnKey, string>) {
    forall l :: Get(r, l) == if l in ValuesOf(mapping) then Some(ColumnsFor(mapping, l)) else None
  }

  lemma LabelToColumnsStep(r: Dict<string, seq<ColumnKey>>, mapping: Dict<ColumnKey, string>, column: ColumnKey, l: string)
    requires IsLabelToColumns(r, mapping)
    ensures IsLabelToColumns(Put(r, l, Get(r, l).GetOr([]) + [column]), mapping + [(column, l)])
  {
    var extended := mapping + [(column, l)];
    var r' := Put(r, l, Get(r, l).GetOr([]) + [column]);
    assert extended[..|extended| - 1] == mapping;
    assert ValuesOf(extended) == ValuesOf(mapping) + [l];
    forall l' ensures Get(r', l') == if l' in ValuesOf(extended) then Some(ColumnsFor(extended, l')) else None {
      if l' == l {
        ColumnsForLabel(mapping, l);
        assert Get(r, l) == if l in ValuesOf(mapping) then Some(ColumnsFor(mapping, l)) else None;
        assert Get(r', l) == Some(Get(r, l).GetOr([]) + [column]);
        assert ValuesOf(extended)[|mapping|] == l;
        assert ColumnsFor(extended, l) == ColumnsFor(mapping, l) + [column];
        assert l in ValuesOf(extended);
        assert Get(r', l) == Some(ColumnsFor(extended, l));
      } else {
        assert Get(r', l') == Get(r, l');
        assert l' in ValuesOf(extended) <==> l' in ValuesOf(mapping);
        assert ColumnsFor(extended, l') == ColumnsFor(mapping, l') + [];
        assert ColumnsFor(mapping, l') + [] == ColumnsFor(mapping, l');
        assert Get(r, l') == if l' in ValuesOf(mapping) then Some(ColumnsFor(mapping, l')) else None;
      }
    }
  }

  /** The building loader's reverse map: each label to every computed
      column carrying it, in mapping order. */
  method LabelToColumns(mapping: Dict<ColumnKey, string>) returns (r: Dict<string, seq<ColumnKey>>)
    ensures DistinctKeys(r)
    ensures forall l :: Get(r, l) == if l in ValuesOf(mapping) then Some(ColumnsFor(mapping, l)) else None
  {
    r := [];
    var i := 0;
    while i < |mapping|
      invariant 0 <= i <= |mapping|
      invariant DistinctKeys(r)
      invariant IsLabelToColumns(r, mapping[..i])
    {
      var (column, l) := mapping[i];
      assert mapping[..i + 1] == mapping[..i] + [(column, l)];
      LabelToColumnsStep(r, mapping[..i], column, l);
      var existing := Get(r, l);
      PutDistinct(r, l, existing.GetOr([]) + [column]);
      r := Put(r, l, existing.GetOr([]) + [column]);
      i := i + 1;
    }
    assert mapping[..i] == mapping;
  }

  /** The rows one property row yields: one per column of its label. */
  function ExpandRow(row: PropertyRow, columns: seq<ColumnKey>): (r: seq<ThematicRow>)
    ensures |r| == |columns|
    ensures forall j :: 0 <= j < |columns| ==> r[j] == ThematicRow(row.featureId, columns[j], row.value)
  {
    seq(|columns|, j requires 0 <= j < |columns| => ThematicRow(row.featureId, columns[j], row.value))
  }

  /** The building loader's result for the query rows `rows`. */
  function ExpandAll(rows: seq<PropertyRow>, mapping: Dict<ColumnKey, string>): seq<ThematicRow> {
    if rows == [] then []
    else
      var last := rows[|rows| - 1];
      ExpandAll(rows[..|rows| - 1], mapping) + ExpandRow(last, ColumnsFor(mapping, last.sourceLabel))
  }

  /** `v` copies the id and value of `row`, and the mapping gives `row`'s
      label to `v`'s attribute. */
  ghost predicate FromRow(v: ThematicRow, row: PropertyRow, mapping: Dict<ColumnKey, string>) {
    v.featureId == row.featureId && v.value == row.value && (v.attributeName, row.sourceLabel) in mapping
  }

  lemma ExpandRowMembership(row: PropertyRow, mapping: Dict<ColumnKey, string>, v: ThematicRow)
    ensures v in ExpandRow(row, ColumnsFor(mapping, row.sourceLabel)) <==> FromRow(v, row, mapping)
  {
    var cs := ColumnsFor(mapping, row.sourceLabel);
    var tail := ExpandRow(row, cs);
    if v in tail {
      var j :| 0 <= j < |tail| && tail[j] == v;
      assert cs[j] == v.attributeName;
    }
    if FromRow(v, row, mapping) {
      var j :| 0 <= j < |cs| && cs[j] == v.attributeName;
      assert tail[j] == v;
    }
  }

  /** Some row of `rows` gives `v`. */
  ghost predicate SomeRowGives(rows: seq<PropertyRow>, mapping: Dict<ColumnKey, string>, v: ThematicRow) {
    exists i :: 0 <= i < |rows| && FromRow(v, rows[i], mapping)
  }

  lemma SomeRowGivesSnoc(rows: seq<PropertyRow>, mapping: Dict<ColumnKey, string>, v: ThematicRow)
    requires rows != []
    ensures SomeRowGives(rows, mapping, v)
      <==> SomeRowGives(rows[..|rows| - 1], mapping, v) || FromRow(v, rows[|rows| - 1], mapping)
  {
    var n := |rows| - 1;
    if SomeRowGives(rows, mapping, v) {
      var i :| 0 <= i < |rows| && FromRow(v, rows[i], mapping);
      if i < n {
        assert rows[..n][i] == rows[i];
      }
    }
    if SomeRowGives(rows[..n], mapping, v) {
      var i :| 0 <= i < n && FromRow(v, rows[..n][i], mapping);
      assert rows[i] == rows[..n][i];
    }
  }

  /** Every output row copies the id and value of a query row whose label
      the mapping gives to its attribute, and every such pairing appears:
      rows with an unmapped label yield nothing. */
  lemma {:induction false} ExpandAllMembership(rows: seq<PropertyRow>, mapping: Dict<ColumnKey, string>, v: ThematicRow)
    ensures v in ExpandAll(rows, mapping) <==> SomeRowGives(rows, mapping, v)
  {
    if rows != [] {
      var n := |rows| - 1;
      ExpandAllMembership(rows[..n], mapping, v);
      ExpandRowMembership(rows[n], mapping, v);
      SomeRowGivesSnoc(rows, mapping, v);
    }
  }

  lemma ExpandRowAppend(row: PropertyRow, columns: seq<ColumnKey>, j: nat)
    requires j < |columns|
    ensures ExpandRow(row, columns[..j + 1]) == ExpandRow(row, columns[..j]) + [ThematicRow(row.featureId, columns[j], row.value)]
  {
  }

  lemma ExpandAllStep(rows: seq<PropertyRow>, mapping: Dict<ColumnKey, string>, i: nat)
    requires i < |rows|
    ensures ExpandAll(rows[..i + 1], mapping)
      == ExpandAll(rows[..i], mapping) + ExpandRow(rows[i], ColumnsFor(mapping, rows[i].sourceLabel))
  {
    assert rows[..i + 1][..i] == rows[..i];
  }

  /** The inner loop of the building loader: one row per column of
      `row`'s label appended to `acc`. */
  method AppendExpanded(acc: seq<ThematicRow>, row: PropertyRow, columns: seq<ColumnKey>) returns (r: seq<ThematicRow>)
    ensures r == acc + ExpandRow(row, columns)
  {
    r := acc;
    var j := 0;
    while j < |columns|
      invariant 0 <= j <= |columns|
      invariant r == acc + ExpandRow(row, columns[..j])
    {
      ExpandRowAppend(row, columns, j);
      r := r + [ThematicRow(row.featureId, columns[j], row.value)];
      j := j + 1;
    }
    assert columns[..j] == columns;
  }

  /** `load_thematic_building_data` after its query: the reverse map is
      built, then every query row is expanded. */
  method LoadThematicBuildingData(ids: seq<int>, mapping: Dict<ColumnKey, string>, queryResult: seq<PropertyRow>)
    returns (r: seq<ThematicRow>)
    ensures PropertyQuery(ids, mapping).None? ==> r == []
    ensures PropertyQuery(ids, mapping).Some? ==> r == ExpandAll(queryResult, mapping)
  {
    if PropertyQuery(ids, mapping).None? {
      return [];
    }
    var labelToColumns := LabelToColumns(mapping);
    r := [];
    var i := 0;
    while i < |queryResult|
      invariant 0 <= i <= |queryResult|
      invariant r == ExpandAll(queryResult[..i], mapping)
    {
      var row := queryResult[i];
      ExpandAllStep(queryResult, mapping, i);
      ColumnsForLabel(mapping, row.sourceLabel);
      var found := Get(labelToColumns, row.sourceLabel);
      if found.Some? {
        r := AppendExpanded(r, row, found.value);
      } else {
        assert ExpandRow(row, []) == [];
      }
      i := i + 1;
    }
    assert queryResult[..i] == queryResult;
  }

  /** The surface loader's reverse map `{label: column}`: a later column
      overwrites an earlier one with the same label. */
  function SurfaceReverseMap(mapping: Dict<ColumnKey, string>): Dict<string, ColumnKey> {
    if mapping == [] then []
    else
      var last := mapping[|mapping| - 1];
      Put(SurfaceReverseMap(mapping[..|mapping| - 1]), last.1, last.0)
  }

  /** The surface reverse map keeps exactly the last column of each label. */
  lemma {:induction false} SurfaceReverseMapGet(mapping: Dict<ColumnKey, string>, l: string)
    ensures var cs := ColumnsFor(mapping, l);
      Get(SurfaceReverseMap(mapping), l) == if cs == [] then None else Some(cs[|cs| - 1])
  {
    if mapping != [] {
      SurfaceReverseMapGet(mapping[..|mapping| - 1], l);
    }
  }

  /** The attribute the surface loader gives label `l`: the last column
      carrying it, or missing when no column does. */
  function LastColumn(mapping: Dict<ColumnKey, string>, l: string): ColumnKey {
    var cs := ColumnsFor(mapping, l);
    if cs == [] then None else cs[|cs| - 1]
  }

  /** `.map(label_to_column)` over the query rows: a label without an entry
      gives a missing attribute. */
  function MapLabels(reverse: Dict<string, ColumnKey>, rows: seq<PropertyRow>): (r: seq<ThematicRow>)
    ensures |r| == |rows|
    ensures forall i :: 0 <= i < |rows| ==>
      r[i] == ThematicRow(rows[i].featureId, Get(reverse, rows[i].sourceLabel).GetOr(None), rows[i].value)
  {
    seq(|rows|, i requires 0 <= i < |rows| =>
      ThematicRow(rows[i].featureId, Get(reverse, rows[i].sourceLabel).GetOr(None), rows[i].value))
  }

  /** `load_thematic_surface_data` after its query: one row per query row,
      whose attribute is the last column carrying its label, or missing. */
  function LoadThematicSurfaceData(ids: seq<int>, mapping: Dict<ColumnKey, string>, queryResult: seq<PropertyRow>)
    : (r: seq<ThematicRow>)
    ensures PropertyQuery(ids, mapping).None? ==> r == []
    ensures PropertyQuery(ids, mapping).Some? ==> |r| == |queryResult|
    ensures PropertyQuery(ids, mapping).Some? ==> forall i :: 0 <= i < |queryResult| ==>
      r[i] == ThematicRow(queryResult[i].featureId, LastColumn(mapping, queryResult[i].sourceLabel), queryResult[i].value)
  {
    if PropertyQuery(ids, mapping).None? then []
    else
      var r := MapLabels(SurfaceReverseMap(mapping), queryResult);
      assert forall i :: 0 <= i < |queryResult| ==>
        r[i] == ThematicRow(queryResult[i].featureId, LastColumn(mapping, queryResult[i].sourceLabel), queryResult[i].value) by {
        forall i | 0 <= i < |queryResult|
          ensures r[i] == ThematicRow(queryResult[i].featureId, LastColumn(mapping, queryResult[i].sourceLabel), queryResult[i].value)
        {
          SurfaceReverseMapGet(mapping, queryResult[i].sourceLabel);
        }
      }
      r
  }
}
