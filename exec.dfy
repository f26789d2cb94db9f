/** Filling a SQL script's `{key}` placeholders from its template
    parameters, and reading the SRID out of the CityDB CRS setting. Running
    the script (the database connection, `psql`, the shell) is outside the
    model. */
module Exec {
  import opened Wrappers
  import opened Text
  import opened Settings
  import opened SqlConfig

  // ---------------------------------------------------------------------
  // parseSRID
  // ---------------------------------------------------------------------

  function InvalidCrsMessage(crs: string): string {
    "invalid CityDB CRS '" + crs + "' (expect EPSG:XXXX or XXXX)"
  }

  /** `parseSRID`: upper-case, trim, drop one `EPSG:` prefix, and read a
      positive decimal integer. */
  function ParseSrid(crs: string): (r: Result<int, string>)
    ensures r.Success? ==> r.value > 0
    ensures r.Failure? ==> r.error == InvalidCrsMessage(crs)
  {
    var c := TrimPrefix(TrimSpace(ToUpper(crs)), Epsg);
    match Atoi(c)
    case Some(n) => if n > 0 then Success(n) else Failure(InvalidCrsMessage(crs))
    case None => Failure(InvalidCrsMessage(crs))
  }

  /** Text without lower-case letters is its own upper case. */
  lemma ToUpperFixed(s: string)
    requires forall i :: 0 <= i < |s| ==> !('a' <= s[i] <= 'z')
    ensures ToUpper(s) == s
  {
  }

  lemma ToUpperDigits(s: string)
    requires AllDigits(s)
    ensures ToUpper(s) == s
  {
    ToUpperFixed(s);
  }

  lemma ToUpperSpaces(s: string)
    requires AllSpace(s)
    ensures ToUpper(s) == s
  {
  }

  lemma {:induction false} UpperAround(pre: string, epsg: string, d: string, post: string)
    requires AllSpace(pre) && AllSpace(post) && AllDigits(d)
    ensures ToUpper(pre + epsg + d + post) == pre + (ToUpper(epsg) + d) + post
  {
    ToUpperConcat(pre + epsg + d, post);
    ToUpperConcat(pre + epsg, d);
    ToUpperConcat(pre, epsg);
    ToUpperDigits(d);
    ToUpperSpaces(pre);
    ToUpperSpaces(post);
  }

  const Epsg := "EPSG:"

  lemma EpsgDigits(epsg: string, d: string)
    requires epsg == [] || ToUpper(epsg) == Epsg
    requires |d| >= 1 && AllDigits(d)
    ensures TrimPrefix(ToUpper(epsg) + d, Epsg) == d
    ensures var u := ToUpper(epsg) + d; !IsSpace(u[0]) && !IsSpace(u[|u| - 1])
  {
    var u := ToUpper(epsg) + d;
    if epsg == [] {
      assert u == d;
      assert !HasPrefix(d, Epsg) by { assert IsDigit(d[0]) && Epsg[0] == 'E'; }
    } else {
      assert u[..|Epsg|] == Epsg;
      assert u[0] == 'E';
    }
    assert u[|u| - 1] == d[|d| - 1];
  }

  /** The text `parseSRID` hands to `strconv.Atoi` for a CRS written as
      `pre + epsg + digits + post`. */
  lemma {:induction false} SridText(pre: string, epsg: string, d: string, post: string)
    requires AllSpace(pre) && AllSpace(post)
    requires epsg == [] || ToUpper(epsg) == Epsg
    requires |d| >= 1 && AllDigits(d)
    ensures TrimPrefix(TrimSpace(ToUpper(pre + epsg + d + post)), Epsg) == d
  {
    var u := ToUpper(epsg) + d;
    UpperAround(pre, epsg, d, post);
    EpsgDigits(epsg, d);
    TrimSurrounded(pre, u, post);
  }

  lemma TrimSurrounded(pre: string, u: string, post: string)
    requires AllSpace(pre) && AllSpace(post)
    requires u == [] || (!IsSpace(u[0]) && !IsSpace(u[|u| - 1]))
    ensures TrimSpace(pre + u + post) == u
  {
    TrimSpaceSurrounded(pre, u, post);
    TrimSpaceUnchanged(u);
  }

  /** `EPSG:n` and plain `n`, with the prefix in any letter case and with
      white space around, parse to `n` for every positive 64-bit `n`. */
  lemma ParseSridAccepts(pre: string, epsg: string, n: int, post: string)
    requires AllSpace(pre) && AllSpace(post)
    requires epsg == [] || ToUpper(epsg) == Epsg
    requires 0 < n <= MaxInt64
    ensures ParseSrid(pre + epsg + Itoa(n) + post) == Success(n)
  {
    SridText(pre, epsg, Itoa(n), post);
    AtoiItoa(n);
  }

  /** Zero and negative SRIDs are refused. */
  lemma ParseSridRejectsNonPositive(n: int)
    requires MinInt64 <= n <= 0
    ensures ParseSrid(Itoa(n)) == Failure(InvalidCrsMessage(Itoa(n)))
  {
    AtoiItoa(n);
    NonPositiveSridText(n);
    ParseSridOf(Itoa(n), n);
  }

  /** `parseSRID` decides on the value `strconv.Atoi` reads. */
  lemma ParseSridOf(crs: string, n: int)
    requires Atoi(TrimPrefix(TrimSpace(ToUpper(crs)), Epsg)) == Some(n)
    ensures ParseSrid(crs) == if n > 0 then Success(n) else Failure(InvalidCrsMessage(crs))
  {
  }

  lemma NonPositiveSridText(n: int)
    requires n <= 0
    ensures TrimPrefix(TrimSpace(ToUpper(Itoa(n))), Epsg) == Itoa(n)
  {
    if n < 0 {
      NegativeSridText(n);
    } else {
      UnsignedDigitsText(NatToDigits(n));
    }
  }

  lemma UnsignedDigitsText(d: string)
    requires |d| >= 1 && AllDigits(d)
    ensures TrimPrefix(TrimSpace(ToUpper(d)), Epsg) == d
  {
    ToUpperDigits(d);
    assert IsDigit(d[0]) && IsDigit(d[|d| - 1]);
    TrimSpaceUnchanged(d);
    assert !HasPrefix(d, Epsg) by { assert Epsg[0] == 'E'; }
  }

  lemma SignedDigitsText(d: string)
    requires |d| >= 1 && AllDigits(d)
    ensures TrimPrefix(TrimSpace(ToUpper("-" + d)), Epsg) == "-" + d
  {
    var s := "-" + d;
    ToUpperConcat("-", d);
    ToUpperDigits(d);
    assert ToUpper("-") == "-";
    assert s[0] == '-';
    assert s[|s| - 1] == d[|d| - 1];
    TrimSpaceUnchanged(s);
    assert !HasPrefix(s, Epsg) by { assert Epsg[0] == 'E'; }
  }

  lemma NegativeSridText(n: int)
    requires n < 0
    ensures TrimPrefix(TrimSpace(ToUpper(Itoa(n))), Epsg) == Itoa(n)
  {
    SignedDigitsText(NatToDigits(-n));
  }

  predicate NoDigit(s: string) {
    forall i :: 0 <= i < |s| ==> !IsDigit(s[i])
  }

  lemma NoDigitUpper(s: string)
    requires NoDigit(s)
    ensures NoDigit(ToUpper(s))
  {
  }

  lemma NoDigitSlice(s: string, i: int, j: int)
    requires NoDigit(s) && 0 <= i <= j <= |s|
    ensures NoDigit(s[i..j])
  {
    assert forall x :: 0 <= x < j - i ==> s[i..j][x] == s[i + x];
  }

  lemma TrimPrefixSuffix(s: string, p: string)
    ensures |TrimPrefix(s, p)| <= |s| && TrimPrefix(s, p) == s[|s| - |TrimPrefix(s, p)|..|s|]
  {
  }

  lemma AtoiNeedsDigit(c: string)
    requires NoDigit(c)
    ensures Atoi(c).None?
  {
    if |c| > 0 && (c[0] == '+' || c[0] == '-') {
      assert c[1..] == [] || !IsDigit(c[1..][0]);
    } else {
      assert c == [] || !IsDigit(c[0]);
    }
  }

  lemma NoDigitTrimmed(u: string)
    requires NoDigit(u)
    ensures NoDigit(TrimPrefix(TrimSpace(u), Epsg))
  {
    var t := TrimSpace(u);
    var i, j :| 0 <= i <= j <= |u| && t == u[i..j];
    NoDigitSlice(u, i, j);
    TrimPrefixSuffix(t, Epsg);
    NoDigitSlice(t, |t| - |TrimPrefix(t, Epsg)|, |t|);
  }

  /** A CRS without a single decimal digit in it is refused. */
  lemma ParseSridNeedsDigit(crs: string)
    requires NoDigit(crs)
    ensures ParseSrid(crs).Failure?
  {
    NoDigitUpper(crs);
    NoDigitTrimmed(ToUpper(crs));
    AtoiNeedsDigit(TrimPrefix(TrimSpace(ToUpper(crs)), Epsg));
  }

  // ---------------------------------------------------------------------
  // Template parameters: getSQLParameterMap
  // ---------------------------------------------------------------------

  /** A value held in the parameter map (Go's `any`): an id list, a
      string, an int, or nil. */
  datatype ParamValue = Ids(ids: seq<int>) | Text(text: string) | Int(n: int) | Nil

  const BuildingIdsKey := "building_ids"

  /** The `param` tags of the template parameters, in declaration order. */
  const ParamKeys: seq<string> := [
    BuildingIdsKey, "lod_schema", "srid", "city2tabula_schema", "tabula_schema", "lod_level",
    "public_schema", "citydb_schema", "citydb_pkg_schema", "country", "tabula_table",
    "tabula_variant_table"]

  /** The value of the field tagged `key`. */
  function Field(p: SQLParameters, key: string): ParamValue {
    if key == BuildingIdsKey then Ids(p.buildingIds)
    else if key == "lod_schema" then Text(p.lodSchema)
    else if key == "srid" then Text(p.srid)
    else if key == "city2tabula_schema" then Text(p.city2TabulaSchema)
    else if key == "tabula_schema" then Text(p.tabulaSchema)
    else if key == "lod_level" then Int(p.lodLevel)
    else if key == "public_schema" then Text(p.publicSchema)
    else if key == "citydb_schema" then Text(p.cityDbSchema)
    else if key == "citydb_pkg_schema" then Text(p.cityDbPkgSchema)
    else if key == "country" then Text(p.country)
    else if key == "tabula_table" then Text(p.tabulaTable)
    else if key == "tabula_variant_table" then Text(p.tabulaVariantTable)
    else Nil
  }

  /** `getSQLParameterMap`: one entry per tagged field, under its tag. */
  function ParameterMap(p: SQLParameters): (m: map<string, ParamValue>)
    ensures m.Keys == set k | k in ParamKeys
    ensures forall k :: k in m ==> m[k] == Field(p, k)
  {
    map k | k in ParamKeys :: Field(p, k)
  }

  predicate Distinct<T(==)>(s: seq<T>) {
    forall i, j :: 0 <= i < j < |s| ==> s[i] != s[j]
  }

  lemma {:induction false} DistinctCard<T>(s: seq<T>)
    requires Distinct(s)
    ensures |set x | x in s| == |s|
  {
    if s != [] {
      DistinctCard(s[1..]);
      assert (set x | x in s) == (set x | x in s[1..]) + {s[0]};
      assert s[0] !in s[1..];
    }
  }

  /** Twelve parameters, each under its own tag; the id list is passed as
      it is, and the level as a number. */
  lemma ParameterCount(p: SQLParameters)
    ensures |ParameterMap(p).Keys| == |ParamKeys| == 12
    ensures ParameterMap(p)[BuildingIdsKey] == Ids(p.buildingIds)
    ensures ParameterMap(p)["lod_level"] == Int(p.lodLevel)
  {
    assert Distinct(ParamKeys);
    DistinctCard(ParamKeys);
  }

  // ---------------------------------------------------------------------
  // The building_ids parameter
  // ---------------------------------------------------------------------

  /** The SQL tuple text of the ids: `(1,2,3)`, and `()` for none. */
  function IdTuple(ids: seq<int>): string {
    "(" + IdList(ids) + ")"
  }

  /** The formatting `ExecuteSQLScript` applies to the `building_ids`
      value. */
  method FormatBuildingIds(ids: seq<int>) returns (s: string)
    ensures s == IdTuple(ids)
    ensures ids == [] ==> s == "()"
  {
    if |ids| > 0 {
      var idStrings := new string[|ids|];
      for i := 0 to |ids|
        invariant forall k :: 0 <= k < i ==> idStrings[k] == Itoa(ids[k])
      {
        idStrings[i] := Itoa(ids[i]);
      }
      assert idStrings[..] == DecimalIds(ids);
      s := "(" + Join(idStrings[..], ",") + ")";
    } else {
      s := "()";
    }
  }

  /** The tuple text reads back as the ids: between the parentheses, the
      comma-separated fields parse to the ids in order. */
  lemma IdTupleRoundTrip(ids: seq<int>)
    requires |ids| >= 1
    requires forall i :: 0 <= i < |ids| ==> MinInt64 <= ids[i] <= MaxInt64
    ensures var t := IdTuple(ids);
      && t[0] == '(' && t[|t| - 1] == ')'
      && |Split(t[1..|t| - 1], ',')| == |ids|
      && forall i :: 0 <= i < |ids| ==> Atoi(Split(t[1..|t| - 1], ',')[i]) == Some(ids[i])
  {
    var t := IdTuple(ids);
    assert t[1..|t| - 1] == IdList(ids);
    IdListRoundTrip(ids);
  }

  function TypeErrorMessage(): string {
    "building_ids parameter is not of type []int64"
  }

  /** Whether the value under `key` is refused: a non-nil `building_ids`
      that is not an id list. */
  predicate Refused(key: string, v: ParamValue) {
    key == BuildingIdsKey && !v.Nil? && !v.Ids?
  }

  /** The value stored for `key`: the id list as a tuple text under
      `building_ids`, everything else as it is. */
  function Formatted(key: string, v: ParamValue): ParamValue {
    if key == BuildingIdsKey && v.Ids? then Text(IdTuple(v.ids)) else v
  }

  /** Every key of `m`, each once: the order a Go `range` over the map
      happens to take. */
  ghost predicate IterationOrder<V>(m: map<string, V>, order: seq<string>) {
    && (forall k :: k in m <==> k in order)
    && (forall i, j :: 0 <= i < j < |order| ==> order[i] != order[j])
  }

  /** The parameter-formatting loop of `ExecuteSQLScript`: whatever order
      the map is visited in, it fails exactly when `building_ids` holds a
      non-nil value other than an id list, and otherwise every value is
      kept except `building_ids`, which becomes its tuple text. */
  method FormatParams(m: map<string, ParamValue>, order: seq<string>) returns (r: Result<map<string, ParamValue>, string>)
    requires IterationOrder(m, order)
    ensures r.Failure? <==> BuildingIdsKey in m && Refused(BuildingIdsKey, m[BuildingIdsKey])
    ensures r.Failure? ==> r.error == TypeErrorMessage()
    ensures r.Success? ==> r.value.Keys == m.Keys && forall k :: k in m ==> r.value[k] == Formatted(k, m[k])
  {
    var params: map<string, ParamValue> := map[];
    for i := 0 to |order|
      invariant params.Keys == set k | k in order[..i]
      invariant forall k :: k in params ==> params[k] == Formatted(k, m[k])
      invariant forall k :: k in order[..i] ==> !Refused(k, m[k])
    {
      var key := order[i];
      var value := m[key];
      if key == BuildingIdsKey && !value.Nil? {
        if value.Ids? {
          var tuple := FormatBuildingIds(value.ids);
          params := params[key := Text(tuple)];
        } else {
          return Failure(TypeErrorMessage());
        }
      } else {
        params := params[key := value];
      }
      assert order[..i + 1] == order[..i] + [key];
    }
    assert order[..|order|] == order;
    return Success(params);
  }

  /** Parameters built by `getSQLParameterMap` always pass: their
      `building_ids` is an id list, so the type error cannot occur, and it
      is rendered as its tuple text. */
  lemma ParameterMapFormats(p: SQLParameters)
    ensures BuildingIdsKey in ParameterMap(p) && !Refused(BuildingIdsKey, ParameterMap(p)[BuildingIdsKey])
    ensures Formatted(BuildingIdsKey, ParameterMap(p)[BuildingIdsKey]) == Text(IdTuple(p.buildingIds))
  {
  }

  // ---------------------------------------------------------------------
  // replaceParameters
  // ---------------------------------------------------------------------

  function Placeholder(key: string): (s: string)
    ensures |s| == |key| + 2 && s[0] == '{' && s[|s| - 1] == '}'
  {
    "{" + key + "}"
  }

  /** Go's `%v` text of a value: ids as `[1 2 3]`, nil as `<nil>`. */
  function Render(v: ParamValue): string {
    match v
    case Ids(ids) => "[" + Join(DecimalIds(ids), " ") + "]"
    case Text(t) => t
    case Int(n) => Itoa(n)
    case Nil => "<nil>"
  }

  /** The script after each key's placeholder, in the order given, has been
      replaced everywhere by its value's text. */
  function Substitute(script: string, params: map<string, ParamValue>, order: seq<string>): string
    requires forall k :: k in order ==> k in params
    decreases |order|
  {
    if order == [] then script
    else Substitute(ReplaceAll(script, Placeholder(order[0]), Render(params[order[0]])), params, order[1..])
  }

  /** `replaceParameters`: one `strings.ReplaceAll` per key in the map's
      iteration order; it never reports an error. */
  method ReplaceParameters(script: string, params: map<string, ParamValue>, order: seq<string>) returns (r: string, err: Option<string>)
    requires IterationOrder(params, order)
    ensures err.None?
    ensures r == Substitute(script, params, order)
  {
    r := script;
    for i := 0 to |order|
      invariant Substitute(r, params, order[i..]) == Substitute(script, params, order)
    {
      var key := order[i];
      assert order[i..][0] == key && order[i..][1..] == order[i + 1..];
      r := ReplaceAll(r, Placeholder(key), Render(params[key]));
    }
    err := None;
  }

  /** A script mentioning none of the placeholders comes back unchanged. */
  lemma {:induction false} SubstituteAbsent(script: string, params: map<string, ParamValue>, order: seq<string>)
    requires forall k :: k in order ==> k in params
    requires forall k :: k in order ==> !Contains(script, Placeholder(k))
    ensures Substitute(script, params, order) == script
    decreases |order|
  {
    if order != [] {
      ReplaceAllAbsent(script, Placeholder(order[0]), Render(params[order[0]]));
      SubstituteAbsent(script, params, order[1..]);
    }
  }

  /** Text with no `{` passes through a placeholder replacement untouched. */
  lemma {:induction false} ReplaceAllBraceFree(a: string, t: string, pat: string, rep: string)
    requires |pat| > 0 && pat[0] == '{' && '{' !in a
    ensures ReplaceAll(a + t, pat, rep) == a + ReplaceAll(t, pat, rep)
    decreases |a|
  {
    if a != [] {
      var s := a + t;
      assert s[0] == a[0] != '{';
      if |s| < |pat| {
        assert |t| < |pat|;
      } else {
        assert s[..|pat|] != pat;
        assert s[1..] == a[1..] + t;
        ReplaceAllBraceFree(a[1..], t, pat, rep);
        assert a == [a[0]] + a[1..];
      }
    } else {
      assert a + t == t;
    }
  }

  lemma BraceFreeAbsent(b: string, pat: string)
    requires |pat| > 0 && pat[0] == '{' && '{' !in b
    ensures !Contains(b, pat)
    decreases |b|
  {
    if |b| > 0 {
      BraceFreeAbsent(b[1..], pat);
    }
  }

  /** A placeholder between text free of `{` is replaced by exactly the
      value's text, and nothing else changes. */
  lemma SubstituteOne(a: string, key: string, b: string, params: map<string, ParamValue>)
    requires key in params && '{' !in a && '{' !in b
    ensures Substitute(a + Placeholder(key) + b, params, [key]) == a + Render(params[key]) + b
  {
    var pat := Placeholder(key);
    var rep := Render(params[key]);
    assert a + pat + b == a + (pat + b);
    ReplaceAllBraceFree(a, pat + b, pat, rep);
    assert (pat + b)[..|pat|] == pat && (pat + b)[|pat|..] == b;
    BraceFreeAbsent(b, pat);
    ReplaceAllAbsent(b, pat, rep);
  }
}
