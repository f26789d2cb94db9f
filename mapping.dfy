/** Attribute mappings read from the validation configuration: which
    computed column of the calculated tables is compared with which
    reference property (its source label). */
module AttributeConfig {
  import opened Wrappers
  import opened Dicts
  import opened Records

  /** One configured attribute. `sourceLabel` is `""` when the entry has no
      label. `computedColumn` is `None` when the key is absent and
      `Some(None)` when it is present but null; `computedColumns` is the
      plural list when present. */
  datatype AttrEntry = AttrEntry(
    sourceLabel: string,
    computedColumn: Option<ColumnKey>,
    computedColumns: Option<seq<ColumnKey>>)

  /** The `attributes` section: building (parent) entries by attribute
      name, and surface (child) entries by surface type, then name. */
  datatype AttributesConfig = AttributesConfig(
    parent: Dict<string, AttrEntry>,
    child: Dict<string, Dict<string, AttrEntry>>)

  /** A sequence of dictionary assignments `d[k] = v`. */
  type Assignments = seq<(ColumnKey, string)>

  /** The dictionary left by performing `xs` in order on `m`. */
  function PutAll(m: Dict<ColumnKey, string>, xs: Assignments): Dict<ColumnKey, string> {
    if xs == [] then m
    else Put(PutAll(m, xs[..|xs| - 1]), xs[|xs| - 1].0, xs[|xs| - 1].1)
  }

  /** The value last assigned to `k` in `xs`, if any. */
  function LastAssigned(xs: Assignments, k: ColumnKey): Option<string> {
    if xs == [] then None
    else if xs[|xs| - 1].0 == k then Some(xs[|xs| - 1].1)
    else LastAssigned(xs[..|xs| - 1], k)
  }

  lemma {:induction false} PutAllGet(m: Dict<ColumnKey, string>, xs: Assignments, k: ColumnKey)
    ensures Get(PutAll(m, xs), k) == if LastAssigned(xs, k).Some? then LastAssigned(xs, k) else Get(m, k)
  {
    if xs != [] {
      PutAllGet(m, xs[..|xs| - 1], k);
    }
  }

  lemma {:induction false} PutAllDistinct(m: Dict<ColumnKey, string>, xs: Assignments)
    requires DistinctKeys(m)
    ensures DistinctKeys(PutAll(m, xs))
  {
    if xs != [] {
      PutAllDistinct(m, xs[..|xs| - 1]);
      PutDistinct(PutAll(m, xs[..|xs| - 1]), xs[|xs| - 1].0, xs[|xs| - 1].1);
    }
  }

  lemma PutAllAppend(m: Dict<ColumnKey, string>, xs: Assignments, a: (ColumnKey, string))
    ensures PutAll(m, xs + [a]) == Put(PutAll(m, xs), a.0, a.1)
  {
    assert (xs + [a])[..|xs + [a]| - 1] == xs;
  }

  lemma {:induction false} LastAssignedAppend(xs: Assignments, ys: Assignments, k: ColumnKey)
    ensures LastAssigned(xs + ys, k) == if LastAssigned(ys, k).Some? then LastAssigned(ys, k) else LastAssigned(xs, k)
  {
    if ys == [] {
      assert xs + ys == xs;
    } else {
      assert (xs + ys)[..|xs + ys| - 1] == xs + ys[..|ys| - 1];
      LastAssignedAppend(xs, ys[..|ys| - 1], k);
    }
  }

  /** A value last assigned is one of the assigned values. */
  lemma {:induction false} LastAssignedIsAssigned(xs: Assignments, k: ColumnKey)
    ensures LastAssigned(xs, k).Some? ==> (k, LastAssigned(xs, k).value) in xs
  {
    if xs != [] && xs[|xs| - 1].0 != k {
      LastAssignedIsAssigned(xs[..|xs| - 1], k);
    }
  }

  /** The columns an entry names: the plural list wins over the singular
      key; an entry with neither names none. */
  function EntryColumns(e: AttrEntry): seq<ColumnKey> {
    if e.computedColumns.Some? then e.computedColumns.value
    else if e.computedColumn.Some? then [e.computedColumn.value]
    else []
  }

  function LabelEach(columns: seq<ColumnKey>, sourceLabel: string): (r: Assignments)
    ensures |r| == |columns|
    ensures forall i :: 0 <= i < |columns| ==> r[i] == (columns[i], sourceLabel)
  {
    seq(|columns|, i requires 0 <= i < |columns| => (columns[i], sourceLabel))
  }

  /** The assignments the building loop performs, entry by entry. */
  function BuildingAssignments(entries: Dict<string, AttrEntry>): Assignments {
    if entries == [] then []
    else
      var e := entries[|entries| - 1].1;
      BuildingAssignments(entries[..|entries| - 1])
        + (if e.sourceLabel == "" then [] else LabelEach(EntryColumns(e), e.sourceLabel))
  }

  /** The assignments of the first `i + 1` entries extend those of the
      first `i`. */
  lemma BuildingAssignmentsStep(entries: Dict<string, AttrEntry>, i: nat)
    requires i < |entries|
    ensures BuildingAssignments(entries[..i + 1]) == BuildingAssignments(entries[..i])
      + (if entries[i].1.sourceLabel == "" then []
         else LabelEach(EntryColumns(entries[i].1), entries[i].1.sourceLabel))
  {
    assert entries[..i + 1][..i] == entries[..i];
  }

  lemma {:induction false} PutAllConcat(m: Dict<ColumnKey, string>, xs: Assignments, ys: Assignments)
    ensures PutAll(m, xs + ys) == PutAll(PutAll(m, xs), ys)
  {
    if ys == [] {
      assert xs + ys == xs;
    } else {
      var init := ys[..|ys| - 1];
      assert (xs + ys)[..|xs + ys| - 1] == xs + init;
      PutAllConcat(m, xs, init);
    }
  }

  /** The inner loop of the building mapping: `m[column] = sourceLabel` for
      each column in order. */
  method PutEach(m: Dict<ColumnKey, string>, columns: seq<ColumnKey>, sourceLabel: string)
    returns (r: Dict<ColumnKey, string>)
    ensures r == PutAll(m, LabelEach(columns, sourceLabel))
  {
    ghost var added := LabelEach(columns, sourceLabel);
    r := m;
    var j := 0;
    assert added[..0] == [];
    while j < |columns|
      invariant 0 <= j <= |columns|
      invariant r == PutAll(m, added[..j])
    {
      assert added[..j + 1] == added[..j] + [(columns[j], sourceLabel)];
      PutAllAppend(m, added[..j], (columns[j], sourceLabel));
      r := Put(r, columns[j], sourceLabel);
      j := j + 1;
    }
    assert added[..j] == added;
  }

  /** `get_building_attribute_mapping`. */
  method GetBuildingAttributeMapping(config: AttributesConfig) returns (mapping: Dict<ColumnKey, string>)
    ensures mapping == PutAll([], BuildingAssignments(config.parent))
  {
    var entries := config.parent;
    mapping := [];
    var i := 0;
    while i < |entries|
      invariant 0 <= i <= |entries|
      invariant mapping == PutAll([], BuildingAssignments(entries[..i]))
    {
      var e := entries[i].1;
      BuildingAssignmentsStep(entries, i);
      if e.sourceLabel != "" {
        PutAllConcat([], BuildingAssignments(entries[..i]), LabelEach(EntryColumns(e), e.sourceLabel));
        mapping := PutEach(mapping, EntryColumns(e), e.sourceLabel);
      } else {
        assert BuildingAssignments(entries[..i]) + [] == BuildingAssignments(entries[..i]);
      }
      i := i + 1;
    }
    assert entries[..i] == entries;
  }

  /** The label the building mapping gives column `c`, read off the entries
      directly: the last entry with a non-empty label that names `c`. */
  function BuildingLabelFor(entries: Dict<string, AttrEntry>, c: ColumnKey): Option<string> {
    if entries == [] then None
    else
      var e := entries[|entries| - 1].1;
      if e.sourceLabel != "" && c in EntryColumns(e) then Some(e.sourceLabel)
      else BuildingLabelFor(entries[..|entries| - 1], c)
  }

  lemma {:induction false} LastAssignedLabelEach(columns: seq<ColumnKey>, sourceLabel: string, c: ColumnKey)
    ensures LastAssigned(LabelEach(columns, sourceLabel), c) == if c in columns then Some(sourceLabel) else None
  {
    if columns != [] {
      var prefix := columns[..|columns| - 1];
      assert LabelEach(columns, sourceLabel)[..|columns| - 1] == LabelEach(prefix, sourceLabel);
      LastAssignedLabelEach(prefix, sourceLabel, c);
      assert columns == prefix + [columns[|columns| - 1]];
    }
  }

  /** The building mapping is a dictionary with distinct keys in which
      every column maps to the label of the last labelled entry naming it:
      entries without a sourceLabel are skipped, a plural list fans one label out
      to several columns, and a later entry overwrites an earlier one. */
  lemma {:induction false} BuildingMappingGet(entries: Dict<string, AttrEntry>, c: ColumnKey)
    ensures Get(PutAll([], BuildingAssignments(entries)), c) == BuildingLabelFor(entries, c)
    ensures DistinctKeys(PutAll([], BuildingAssignments(entries)))
  {
    PutAllDistinct([], BuildingAssignments(entries));
    PutAllGet([], BuildingAssignments(entries), c);
    BuildingLabelForIsLast(entries, c);
  }

  lemma {:induction false} BuildingLabelForIsLast(entries: Dict<string, AttrEntry>, c: ColumnKey)
    ensures LastAssigned(BuildingAssignments(entries), c) == BuildingLabelFor(entries, c)
  {
    if entries != [] {
      var e := entries[|entries| - 1].1;
      var tail := if e.sourceLabel == "" then [] else LabelEach(EntryColumns(e), e.sourceLabel);
      LastAssignedAppend(BuildingAssignments(entries[..|entries| - 1]), tail, c);
      BuildingLabelForIsLast(entries[..|entries| - 1], c);
      if e.sourceLabel != "" {
        LastAssignedLabelEach(EntryColumns(e), e.sourceLabel, c);
      }
    }
  }

  /** Every value of the building mapping is a non-empty label. */
  lemma {:induction false} BuildingLabelsNonEmpty(entries: Dict<string, AttrEntry>, c: ColumnKey)
    ensures BuildingLabelFor(entries, c).Some? ==> BuildingLabelFor(entries, c).value != ""
  {
    if entries != [] {
      BuildingLabelsNonEmpty(entries[..|entries| - 1], c);
    }
  }

  /** The assignments of the surface comprehension: one per labelled
      entry, keyed by its singular `computed_column` (`None` when absent). */
  function SurfaceAssignments(entries: Dict<string, AttrEntry>): Assignments {
    if entries == [] then []
    else
      var e := entries[|entries| - 1].1;
      var key := if e.computedColumn.Some? then e.computedColumn.value else None;
      SurfaceAssignments(entries[..|entries| - 1])
        + (if e.sourceLabel == "" then [] else [(key, e.sourceLabel)])
  }

  /** `get_surface_attribute_mapping(config, surface_type)`: `{}` for a
      surface type the configuration does not list. */
  function GetSurfaceAttributeMapping(config: AttributesConfig, surfaceType: string): (r: Dict<ColumnKey, string>)
    ensures Get(config.child, surfaceType).None? ==> r == []
    ensures DistinctKeys(r)
  {
    match Get(config.child, surfaceType)
    case None => []
    case Some(entries) =>
      PutAllDistinct([], SurfaceAssignments(entries));
      PutAll([], SurfaceAssignments(entries))
  }

  /** The surface label of a column read off the entries: the last
      labelled entry whose singular `computed_column` is that column. The
      plural list plays no part. */
  function SurfaceLabelFor(entries: Dict<string, AttrEntry>, c: ColumnKey): Option<string> {
    if entries == [] then None
    else
      var e := entries[|entries| - 1].1;
      var key := if e.computedColumn.Some? then e.computedColumn.value else None;
      if e.sourceLabel != "" && key == c then Some(e.sourceLabel)
      else SurfaceLabelFor(entries[..|entries| - 1], c)
  }

  lemma {:induction false} SurfaceLabelForIsLast(entries: Dict<string, AttrEntry>, c: ColumnKey)
    ensures LastAssigned(SurfaceAssignments(entries), c) == SurfaceLabelFor(entries, c)
  {
    if entries != [] {
      var e := entries[|entries| - 1].1;
      var key := if e.computedColumn.Some? then e.computedColumn.value else None;
      var tail: Assignments := if e.sourceLabel == "" then [] else [(key, e.sourceLabel)];
      LastAssignedAppend(SurfaceAssignments(entries[..|entries| - 1]), tail, c);
      SurfaceLabelForIsLast(entries[..|entries| - 1], c);
    }
  }

  /** Every column of the surface mapping maps to the label of the last
      labelled entry naming it; labels are never empty. */
  lemma {:induction false} SurfaceMappingGet(config: AttributesConfig, surfaceType: string, c: ColumnKey)
    requires Get(config.child, surfaceType).Some?
    ensures Get(GetSurfaceAttributeMapping(config, surfaceType), c)
      == SurfaceLabelFor(Get(config.child, surfaceType).value, c)
    ensures Get(GetSurfaceAttributeMapping(config, surfaceType), c).Some? ==>
      Get(GetSurfaceAttributeMapping(config, surfaceType), c).value != ""
  {
    var entries := Get(config.child, surfaceType).value;
    PutAllGet([], SurfaceAssignments(entries), c);
    SurfaceLabelForIsLast(entries, c);
    SurfaceLabelsNonEmpty(entries, c);
  }

  lemma {:induction false} SurfaceLabelsNonEmpty(entries: Dict<string, AttrEntry>, c: ColumnKey)
    ensures SurfaceLabelFor(entries, c).Some? ==> SurfaceLabelFor(entries, c).value != ""
  {
    if entries != [] {
      SurfaceLabelsNonEmpty(entries[..|entries| - 1], c);
    }
  }

  /** `get_surface_type_filter`: tilt and azimuth only on roofs; every other
      attribute on all surfaces (`None`). */
  function GetSurfaceTypeFilter(attributeName: string): (r: Option<seq<string>>)
    ensures r.Some? <==> attributeName == "tilt" || attributeName == "azimuth"
    ensures r.Some? ==> r.value == ["RoofSurface"]
  {
    if attributeName in ["tilt", "azimuth"] then Some(["RoofSurface"]) else None
  }
}
