/** Where the SQL scripts live, how their lists are built from a directory
    listing, and the template parameters a script is filled in with. */
module SqlConfig {
  import opened Wrappers
  import opened Text
  import opened Sorting
  import opened Settings

  const SqlDir := "sql/"
  const MainScriptDir := SqlDir + "scripts/main/"
  const SupplementaryScriptDir := SqlDir + "scripts/supplementary/"
  const SchemaFileDir := SqlDir + "schema/"
  const FunctionsDir := SqlDir + "functions/"

  datatype SQLScripts = SQLScripts(
    mainScripts: seq<string>,
    supplementaryScripts: seq<string>,
    tableScripts: seq<string>,
    functionScripts: seq<string>)

  /** The template parameters of a script. */
  datatype SQLParameters = SQLParameters(
    buildingIds: seq<int>,
    lodSchema: string,
    srid: string,
    city2TabulaSchema: string,
    tabulaSchema: string,
    lodLevel: int,
    publicSchema: string,
    cityDbSchema: string,
    cityDbPkgSchema: string,
    country: string,
    tabulaTable: string,
    tabulaVariantTable: string)

  /** `GetSQLParameters`: the schema of the requested level (none for a
      level other than 2 or 3), the level and the ids as given, and the
      rest copied from the configuration. */
  function GetSQLParameters(c: Config, lod: int, buildingIds: seq<int>): (p: SQLParameters)
    ensures p.lodSchema == (if lod == 2 then c.db.schemas.lod2 else if lod == 3 then c.db.schemas.lod3 else "")
    ensures p.lodLevel == lod && p.buildingIds == buildingIds
    ensures p.srid == c.cityDb.srid && p.country == c.country
    ensures p.city2TabulaSchema == c.db.schemas.city2Tabula && p.tabulaSchema == c.db.schemas.tabula
    ensures p.publicSchema == c.db.schemas.public && p.cityDbSchema == c.db.schemas.cityDb
    ensures p.cityDbPkgSchema == c.db.schemas.cityDbPkg
    ensures p.tabulaTable == c.db.tables.tabula && p.tabulaVariantTable == c.db.tables.tabulaVariant
  {
    var lodSchema := if lod == 2 then c.db.schemas.lod2 else if lod == 3 then c.db.schemas.lod3 else "";
    SQLParameters(
      buildingIds, lodSchema, c.cityDb.srid, c.db.schemas.city2Tabula, c.db.schemas.tabula, lod,
      c.db.schemas.public, c.db.schemas.cityDb, c.db.schemas.cityDbPkg, c.country,
      c.db.tables.tabula, c.db.tables.tabulaVariant)
  }

  /** Each match re-rooted under `dir` by its base name. */
  function Paths(dir: string, matches: seq<string>): (r: seq<string>)
    ensures |r| == |matches| && forall i :: 0 <= i < |matches| ==> r[i] == JoinPath(dir, Base(matches[i]))
  {
    seq(|matches|, i requires 0 <= i < |matches| => JoinPath(dir, Base(matches[i])))
  }

  function NoFilesMessage(dir: string): string {
    "no SQL files found in directory: " + dir
  }

  /** What `loadSQLFilesFromDir` returns for the listing `glob` of
      the `.sql` files of `dir`. */
  function SqlFiles(dir: string, glob: Result<seq<string>, string>): Result<seq<string>, string> {
    match glob
    case Failure(e) => Failure(e)
    case Success(matches) =>
      if matches == [] then Failure(NoFilesMessage(dir)) else Success(Sort(Paths(dir, matches), LexLe))
  }

  /** `loadSQLFilesFromDir`, given the listing: every match becomes
      `dir/basename`, and the list is sorted. */
  method LoadSqlFilesFromDir(dir: string, glob: Result<seq<string>, string>) returns (r: Result<seq<string>, string>)
    ensures r == SqlFiles(dir, glob)
    ensures r.Failure? <==> glob.Failure? || glob.value == []
  {
    if glob.Failure? {
      return Failure(glob.error);
    }
    var files := glob.value;
    if files == [] {
      return Failure(NoFilesMessage(dir));
    }
    var sqlFiles: seq<string> := [];
    for i := 0 to |files|
      invariant sqlFiles == Paths(dir, files[..i])
    {
      sqlFiles := sqlFiles + [JoinPath(dir, Base(files[i]))];
    }
    assert files[..|files|] == files;
    return Success(Sort(sqlFiles, LexLe));
  }

  lemma LexLeTotalPreorder()
    ensures TotalPreorder(LexLe)
  {
    forall a, b ensures LexLe(a, b) || LexLe(b, a) {
      LexLeTotal(a, b);
    }
    forall a, b, c | LexLe(a, b) && LexLe(b, c) ensures LexLe(a, c) {
      LexLeTransitive(a, b, c);
    }
  }

  /** A successful listing holds one `dir/basename` path per match, in
      lexicographic order. */
  lemma SqlFilesListing(dir: string, matches: seq<string>)
    requires matches != []
    ensures SqlFiles(dir, Success(matches)).Success?
    ensures var files := SqlFiles(dir, Success(matches)).value;
      && SortedBy(files, LexLe)
      && multiset(files) == multiset(Paths(dir, matches))
  {
    LexLeTotalPreorder();
    SortSorted(Paths(dir, matches), LexLe);
  }

  /** `LoadSQLScripts`: the four directories in order; the first failing
      listing is the error, and nothing is returned with it. */
  method LoadSqlScripts(glob: string -> Result<seq<string>, string>) returns (r: Result<SQLScripts, string>)
    ensures var main := SqlFiles(MainScriptDir, glob(MainScriptDir));
      var supplementary := SqlFiles(SupplementaryScriptDir, glob(SupplementaryScriptDir));
      var tables := SqlFiles(SchemaFileDir, glob(SchemaFileDir));
      var functions := SqlFiles(FunctionsDir, glob(FunctionsDir));
      && (r.Success? <==> main.Success? && supplementary.Success? && tables.Success? && functions.Success?)
      && (r.Success? ==> r.value == SQLScripts(main.value, supplementary.value, tables.value, functions.value))
      && (r.Failure? ==> r.error == (if main.Failure? then main.error
                                    else if supplementary.Failure? then supplementary.error
                                    else if tables.Failure? then tables.error
                                    else functions.error))
  {
    var mainScripts := LoadSqlFilesFromDir(MainScriptDir, glob(MainScriptDir));
    if mainScripts.Failure? {
      return Failure(mainScripts.error);
    }
    var supplementaryScripts := LoadSqlFilesFromDir(SupplementaryScriptDir, glob(SupplementaryScriptDir));
    if supplementaryScripts.Failure? {
      return Failure(supplementaryScripts.error);
    }
    var tableScripts := LoadSqlFilesFromDir(SchemaFileDir, glob(SchemaFileDir));
    if tableScripts.Failure? {
      return Failure(tableScripts.error);
    }
    var functionScripts := LoadSqlFilesFromDir(FunctionsDir, glob(FunctionsDir));
    if functionScripts.Failure? {
      return Failure(functionScripts.error);
    }
    return Success(SQLScripts(mainScripts.value, supplementaryScripts.value, tableScripts.value, functionScripts.value));
  }
}
