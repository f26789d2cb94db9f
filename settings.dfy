/** The scheduler's configuration: reading the environment with fallbacks,
    the country name, the retry and batch defaults, the worker-thread count
    and the check that every required setting is present. */
module Settings {
  import opened Wrappers
  import opened Text

  // ---------------------------------------------------------------------
  // The environment
  // ---------------------------------------------------------------------

  /** The process environment; reading an unset variable gives "". */
  type Env = map<string, string>

  function Getenv(env: Env, key: string): string {
    if key in env then env[key] else ""
  }

  /** `GetEnv`: the variable's value when it is set and non-empty, the
      fallback otherwise. */
  function GetEnv(env: Env, key: string, fallback: string): (r: string)
    ensures key in env && env[key] != "" ==> r == env[key]
    ensures key !in env || env[key] == "" ==> r == fallback
  {
    var value := Getenv(env, key);
    if value != "" then value else fallback
  }

  /** `GetEnvAsInt`: the variable parsed as a decimal integer, or the
      fallback when it is unset, empty or not an integer. */
  function GetEnvAsInt(env: Env, key: string, fallback: int): (r: int)
    ensures key in env && Atoi(env[key]).Some? ==> r == Atoi(env[key]).value
    ensures key !in env || Atoi(env[key]).None? ==> r == fallback
  {
    var value := Getenv(env, key);
    if value != "" then
      match Atoi(value)
      case Some(n) => n
      case None => fallback
    else fallback
  }

  /** Setting a variable to the decimal text of a 64-bit integer makes
      `GetEnvAsInt` read that integer back. */
  lemma GetEnvAsIntItoa(env: Env, key: string, n: int, fallback: int)
    requires MinInt64 <= n <= MaxInt64
    ensures GetEnvAsInt(env[key := Itoa(n)], key, fallback) == n
  {
    AtoiItoa(n);
  }

  // ---------------------------------------------------------------------
  // Country names
  // ---------------------------------------------------------------------

  /** The character a space or a hyphen becomes in a country name. */
  function Fold(c: char): char {
    if c == ' ' || c == '-' then '_' else c
  }

  /** `s` with every `c` replaced by `d`. */
  function ReplaceChar(s: string, c: char, d: char): (r: string)
    ensures |r| == |s|
    ensures forall i :: 0 <= i < |s| ==> r[i] == if s[i] == c then d else s[i]
  {
    seq(|s|, i requires 0 <= i < |s| => if s[i] == c then d else s[i])
  }

  /** Replacing a one-character pattern replaces that character
      everywhere. */
  lemma {:induction false} ReplaceAllChar(s: string, c: char, d: char)
    ensures ReplaceAll(s, [c], [d]) == ReplaceChar(s, c, d)
    decreases |s|
  {
    if |s| >= 1 {
      ReplaceAllChar(s[1..], c, d);
      assert s[..1] == [s[0]];
      assert ReplaceChar(s, c, d) == [if s[0] == c then d else s[0]] + ReplaceChar(s[1..], c, d);
    }
  }

  /** Each character of `r` is the lower-cased and folded character of `t`
      at the same place. */
  predicate Folded(r: string, t: string) {
    |r| == |t| && forall i :: 0 <= i < |t| ==> r[i] == Fold(LowerChar(t[i]))
  }

  /** `normalizeCountryName`: the trimmed name, lower-cased, with spaces
      and hyphens turned into underscores. */
  function NormalizeCountryName(name: string): (r: string)
    ensures Folded(r, TrimSpace(name))
  {
    var lowered := ToLower(TrimSpace(name));
    ReplaceAllChar(lowered, ' ', '_');
    ReplaceAllChar(ReplaceChar(lowered, ' ', '_'), '-', '_');
    ReplaceAll(ReplaceAll(lowered, " ", "_"), "-", "_")
  }

  lemma TrimSpaceUnchanged(s: string)
    requires s == [] || (!IsSpace(s[0]) && !IsSpace(s[|s| - 1]))
    ensures TrimSpace(s) == s
  {
  }

  /** A country name after normalisation: no space, hyphen or upper-case
      letter, and no white space at either end. */
  predicate NormalForm(r: string) {
    && (forall i :: 0 <= i < |r| ==> r[i] != ' ' && r[i] != '-' && !('A' <= r[i] <= 'Z'))
    && (r == [] || (!IsSpace(r[0]) && !IsSpace(r[|r| - 1])))
  }

  /** A lower-cased and folded character is no space, hyphen or upper-case
      letter, and is white space only if the original was. */
  lemma FoldLowerChar(c: char)
    ensures var f := Fold(LowerChar(c)); f != ' ' && f != '-' && !('A' <= f <= 'Z')
    ensures IsSpace(Fold(LowerChar(c))) ==> IsSpace(c)
  {
  }

  lemma NormalizedForm(name: string)
    ensures NormalForm(NormalizeCountryName(name))
  {
    var r := NormalizeCountryName(name);
    var t := TrimSpace(name);
    assert Folded(r, t);
    forall i | 0 <= i < |r| ensures r[i] != ' ' && r[i] != '-' && !('A' <= r[i] <= 'Z') {
      FoldLowerChar(t[i]);
    }
    if r != [] {
      FoldLowerChar(t[0]);
      FoldLowerChar(t[|t| - 1]);
    }
  }

  /** Normalising a normalised name changes nothing. */
  lemma NormalizeIdempotent(name: string)
    ensures NormalizeCountryName(NormalizeCountryName(name)) == NormalizeCountryName(name)
  {
    var r := NormalizeCountryName(name);
    NormalizedForm(name);
    TrimSpaceUnchanged(r);
    var again := NormalizeCountryName(r);
    assert Folded(again, r);
    forall i | 0 <= i < |r| ensures again[i] == r[i] {
      assert again[i] == Fold(LowerChar(r[i]));
      assert r[i] != ' ' && r[i] != '-' && !('A' <= r[i] <= 'Z');
    }
  }

  // ---------------------------------------------------------------------
  // Configuration sections
  // ---------------------------------------------------------------------

  datatype Tables = Tables(tabula: string, tabulaVariant: string)

  datatype Schemas = Schemas(
    public: string,
    cityDb: string,
    cityDbPkg: string,
    lod2: string,
    lod3: string,
    tabula: string,
    city2Tabula: string)

  datatype DBConfig = DBConfig(
    host: string,
    port: string,
    name: string,
    user: string,
    password: string,
    sslMode: string,
    tables: Tables,
    schemas: Schemas)

  datatype CityDBConfig = CityDBConfig(srsName: string, toolPath: string, srid: string)

  datatype BatchConfig = BatchConfig(size: int, threads: int, dbMaxOpenConns: int, dbMaxIdleConns: int)

  /** Durations are in nanoseconds, as Go's `time.Duration`. */
  datatype RetryConfig = RetryConfig(
    maxRetries: int,
    initialDelay: int,
    maxDelay: int,
    backoffFactor: real,
    deadlockRetries: int)

  const Millisecond: int := 1_000_000
  const Second: int := 1_000_000_000

  datatype Config = Config(
    country: string,
    db: DBConfig,
    cityDb: CityDBConfig,
    batch: BatchConfig,
    retry: RetryConfig)

  /** `DefaultRetryConfig`: 3 retries, 100 ms initial delay, 5 s cap,
      doubling, 5 deadlock retries. */
  function DefaultRetryConfig(): (r: RetryConfig)
    ensures r.maxRetries > 0 && r.deadlockRetries > 0
    ensures 0 < r.initialDelay < r.maxDelay
    ensures r.backoffFactor > 1.0
    ensures r == RetryConfig(3, 100 * Millisecond, 5 * Second, 2.0, 5)
  {
    RetryConfig(3, 100 * Millisecond, 5 * Second, 2.0, 5)
  }

  /** `getThreadCount`: `THREAD_COUNT` clamped to between 1 and the number
      of CPUs (at least 1), or that number when the variable is unset or
      not an integer. */
  function ThreadCount(env: Env, numCpu: int): (r: int)
    ensures 1 <= r <= (if numCpu < 1 then 1 else numCpu)
    ensures Atoi(Getenv(env, "THREAD_COUNT")).None? ==> r == (if numCpu < 1 then 1 else numCpu)
    ensures Atoi(Getenv(env, "THREAD_COUNT")).Some? ==>
      var t := Atoi(Getenv(env, "THREAD_COUNT")).value;
      r == (if t < 1 then 1 else if t > numCpu then (if numCpu < 1 then 1 else numCpu) else t)
  {
    var cpus := if numCpu < 1 then 1 else numCpu;
    var text := GetEnv(env, "THREAD_COUNT", "");
    if text != "" then
      match Atoi(text)
      case Some(t) => if t < 1 then 1 else if t > cpus then cpus else t
      case None => cpus
    else cpus
  }

  /** A requested count already within range is used as given. */
  lemma ThreadCountInRange(env: Env, numCpu: int, t: int)
    requires 1 <= t <= numCpu && t <= MaxInt64
    ensures ThreadCount(env["THREAD_COUNT" := Itoa(t)], numCpu) == t
  {
    AtoiItoa(t);
  }

  /** `loadBatchConfig`: batches of 1000, 10 open and 5 idle connections
      unless the environment says otherwise. */
  function LoadBatchConfig(env: Env, numCpu: int): (r: BatchConfig)
    ensures r.size == 1000
    ensures r.threads == ThreadCount(env, numCpu) && r.threads >= 1
    ensures r.dbMaxOpenConns == GetEnvAsInt(env, "DB_MAX_OPEN_CONNS", 10)
    ensures r.dbMaxIdleConns == GetEnvAsInt(env, "DB_MAX_IDLE_CONNS", 5)
  {
    BatchConfig(1000, ThreadCount(env, numCpu), GetEnvAsInt(env, "DB_MAX_OPEN_CONNS", 10), GetEnvAsInt(env, "DB_MAX_IDLE_CONNS", 5))
  }

  /** `getCountry`: the normalised `COUNTRY` variable; the extra
      lower-casing changes nothing. */
  function GetCountry(env: Env): (r: string)
    ensures r == NormalizeCountryName(Getenv(env, "COUNTRY"))
  {
    var n := NormalizeCountryName(GetEnv(env, "COUNTRY", ""));
    assert ToLower(n) == n by {
      NormalizedForm(Getenv(env, "COUNTRY"));
    }
    ToLower(n)
  }

  predicate IsLetter(c: char) {
    'a' <= c <= 'z' || 'A' <= c <= 'Z'
  }

  /** A name made of letters only is just lower-cased: `GeRmAnY` becomes
      `germany`. */
  lemma NormalizeWord(word: string)
    requires forall i :: 0 <= i < |word| ==> IsLetter(word[i])
    ensures NormalizeCountryName(word) == ToLower(word)
  {
    if word != [] {
      FoldLetter(word[0]);
      FoldLetter(word[|word| - 1]);
    }
    TrimSpaceUnchanged(word);
    FoldedLetters(NormalizeCountryName(word), word);
  }

  lemma FoldedLetters(r: string, word: string)
    requires forall i :: 0 <= i < |word| ==> IsLetter(word[i])
    requires Folded(r, word)
    ensures r == ToLower(word)
  {
    forall i | 0 <= i < |word| ensures r[i] == ToLower(word)[i] {
      FoldLetter(word[i]);
    }
  }

  lemma FoldLetter(c: char)
    requires IsLetter(c)
    ensures Fold(LowerChar(c)) == LowerChar(c) && !IsSpace(c)
  {
  }

  /** White space around a name is dropped: ` germany ` becomes
      `germany`. */
  lemma NormalizeSurrounded(pre: string, name: string, post: string)
    requires AllSpace(pre) && AllSpace(post)
    ensures NormalizeCountryName(pre + name + post) == NormalizeCountryName(name)
  {
    TrimSpaceSurrounded(pre, name, post);
    var t := TrimSpace(name);
    assert Folded(NormalizeCountryName(pre + name + post), t);
    assert Folded(NormalizeCountryName(name), t);
  }

  /** `LoadConfig`, with the database and CityDB sections (read from the
      environment elsewhere) as inputs: the country comes from `COUNTRY`,
      the batch section from the environment and the CPU count, and the
      retry section is the default. */
  function LoadConfig(env: Env, db: DBConfig, cityDb: CityDBConfig, numCpu: int): (c: Config)
    ensures c.country == GetCountry(env)
    ensures c.db == db && c.cityDb == cityDb
    ensures c.batch == LoadBatchConfig(env, numCpu)
    ensures c.retry == DefaultRetryConfig()
  {
    Config(GetCountry(env), db, cityDb, LoadBatchConfig(env, numCpu), DefaultRetryConfig())
  }

  // ---------------------------------------------------------------------
  // Validation
  // ---------------------------------------------------------------------

  predicate Blank(s: string) {
    TrimSpace(s) == ""
  }

  /** The settings `Validate` requires, by variable name, in the order it
      checks them. */
  function RequiredSettings(c: Config): seq<(string, string)> {
    [ ("DB_HOST", c.db.host), ("DB_PORT", c.db.port), ("DB_USER", c.db.user),
      ("DB_PASSWORD", c.db.password), ("CITYDB_TOOL_PATH", c.cityDb.toolPath),
      ("CITYDB_SRID", c.cityDb.srid), ("CITYDB_SRS_NAME", c.cityDb.srsName),
      ("COUNTRY", c.country) ]
  }

  /** `[name]` when `value` is blank, nothing otherwise. */
  function IfBlank(name: string, value: string): seq<string> {
    if Blank(value) then [name] else []
  }

  /** The names of the blank required settings, in checking order. */
  function Missing(c: Config): seq<string> {
    [] + IfBlank("DB_HOST", c.db.host) + IfBlank("DB_PORT", c.db.port) + IfBlank("DB_USER", c.db.user)
    + IfBlank("DB_PASSWORD", c.db.password) + IfBlank("CITYDB_TOOL_PATH", c.cityDb.toolPath)
    + IfBlank("CITYDB_SRID", c.cityDb.srid) + IfBlank("CITYDB_SRS_NAME", c.cityDb.srsName)
    + IfBlank("COUNTRY", c.country)
  }

  const MissingMessage := "missing required environment variables: "

  /** `Config.Validate`: an error naming every blank required setting, in
      the fixed order, or none when all are present. The database name and
      SSL mode are not checked. */
  method Validate(c: Config) returns (err: Option<string>)
    ensures err.None? <==> Missing(c) == []
    ensures err.Some? ==> err.value == MissingMessage + Join(Missing(c), ", ")
  {
    var missing: seq<string> := [];
    missing := missing + IfBlank("DB_HOST", c.db.host);
    missing := missing + IfBlank("DB_PORT", c.db.port);
    missing := missing + IfBlank("DB_USER", c.db.user);
    missing := missing + IfBlank("DB_PASSWORD", c.db.password);
    missing := missing + IfBlank("CITYDB_TOOL_PATH", c.cityDb.toolPath);
    missing := missing + IfBlank("CITYDB_SRID", c.cityDb.srid);
    missing := missing + IfBlank("CITYDB_SRS_NAME", c.cityDb.srsName);
    missing := missing + IfBlank("COUNTRY", c.country);
    assert missing == Missing(c);
    if |missing| > 0 {
      return Some(MissingMessage + Join(missing, ", "));
    }
    return None;
  }

  lemma IfBlankMeaning(name: string, value: string)
    ensures AllSpace(value) ==> IfBlank(name, value) == [name]
    ensures !AllSpace(value) ==> IfBlank(name, value) == []
  {
    TrimSpaceEmpty(value);
  }

  /** Every required setting holds something other than white space. */
  predicate AllPresent(c: Config) {
    && !AllSpace(c.db.host) && !AllSpace(c.db.port) && !AllSpace(c.db.user) && !AllSpace(c.db.password)
    && !AllSpace(c.cityDb.toolPath) && !AllSpace(c.cityDb.srid) && !AllSpace(c.cityDb.srsName)
    && !AllSpace(c.country)
  }

  function Count(b: bool): nat {
    if b then 1 else 0
  }

  /** The number of blank required settings. */
  function BlankCount(c: Config): nat {
    Count(AllSpace(c.db.host)) + Count(AllSpace(c.db.port)) + Count(AllSpace(c.db.user))
    + Count(AllSpace(c.db.password)) + Count(AllSpace(c.cityDb.toolPath))
    + Count(AllSpace(c.cityDb.srid)) + Count(AllSpace(c.cityDb.srsName)) + Count(AllSpace(c.country))
  }

  lemma IfBlankLength(name: string, value: string)
    ensures |IfBlank(name, value)| == Count(AllSpace(value))
  {
    IfBlankMeaning(name, value);
  }

  /** The error names one setting per blank one. */
  lemma MissingCount(c: Config)
    ensures |Missing(c)| == BlankCount(c)
  {
    IfBlankLength("DB_HOST", c.db.host);
    IfBlankLength("DB_PORT", c.db.port);
    IfBlankLength("DB_USER", c.db.user);
    IfBlankLength("DB_PASSWORD", c.db.password);
    IfBlankLength("CITYDB_TOOL_PATH", c.cityDb.toolPath);
    IfBlankLength("CITYDB_SRID", c.cityDb.srid);
    IfBlankLength("CITYDB_SRS_NAME", c.cityDb.srsName);
    IfBlankLength("COUNTRY", c.country);
  }

  /** Validation passes exactly when all eight required settings hold
      something other than white space. */
  lemma MissingNone(c: Config)
    ensures Missing(c) == [] <==> AllPresent(c)
  {
    IfBlankMeaning("DB_HOST", c.db.host);
    IfBlankMeaning("DB_PORT", c.db.port);
    IfBlankMeaning("DB_USER", c.db.user);
    IfBlankMeaning("DB_PASSWORD", c.db.password);
    IfBlankMeaning("CITYDB_TOOL_PATH", c.cityDb.toolPath);
    IfBlankMeaning("CITYDB_SRID", c.cityDb.srid);
    IfBlankMeaning("CITYDB_SRS_NAME", c.cityDb.srsName);
    IfBlankMeaning("COUNTRY", c.country);
  }

  /** Every blank required setting is named in the error. */
  lemma MissingNames(c: Config)
    ensures AllSpace(c.db.host) ==> "DB_HOST" in Missing(c)
    ensures AllSpace(c.db.port) ==> "DB_PORT" in Missing(c)
    ensures AllSpace(c.db.user) ==> "DB_USER" in Missing(c)
    ensures AllSpace(c.db.password) ==> "DB_PASSWORD" in Missing(c)
    ensures AllSpace(c.cityDb.toolPath) ==> "CITYDB_TOOL_PATH" in Missing(c)
    ensures AllSpace(c.cityDb.srid) ==> "CITYDB_SRID" in Missing(c)
    ensures AllSpace(c.cityDb.srsName) ==> "CITYDB_SRS_NAME" in Missing(c)
    ensures AllSpace(c.country) ==> "COUNTRY" in Missing(c)
  {
    MissingDatabaseNames(c);
    MissingCityDbNames(c);
  }

  /** The four database settings of `MissingNames`. */
  lemma MissingDatabaseNames(c: Config)
    ensures AllSpace(c.db.host) ==> "DB_HOST" in Missing(c)
    ensures AllSpace(c.db.port) ==> "DB_PORT" in Missing(c)
    ensures AllSpace(c.db.user) ==> "DB_USER" in Missing(c)
    ensures AllSpace(c.db.password) ==> "DB_PASSWORD" in Missing(c)
  {
    IfBlankMeaning("DB_HOST", c.db.host);
    IfBlankMeaning("DB_PORT", c.db.port);
    IfBlankMeaning("DB_USER", c.db.user);
    IfBlankMeaning("DB_PASSWORD", c.db.password);
  }

  /** The three 3DCityDB settings and the country of `MissingNames`. */
  lemma MissingCityDbNames(c: Config)
    ensures AllSpace(c.cityDb.toolPath) ==> "CITYDB_TOOL_PATH" in Missing(c)
    ensures AllSpace(c.cityDb.srid) ==> "CITYDB_SRID" in Missing(c)
    ensures AllSpace(c.cityDb.srsName) ==> "CITYDB_SRS_NAME" in Missing(c)
    ensures AllSpace(c.country) ==> "COUNTRY" in Missing(c)
  {
    IfBlankMeaning("CITYDB_TOOL_PATH", c.cityDb.toolPath);
    IfBlankMeaning("CITYDB_SRID", c.cityDb.srid);
    IfBlankMeaning("CITYDB_SRS_NAME", c.cityDb.srsName);
    IfBlankMeaning("COUNTRY", c.country);
  }
}
