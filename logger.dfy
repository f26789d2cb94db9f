/** The logger's level: the four levels, their names, the level read from
    `LOG_LEVEL`, and the process-wide current level (a `Logger` object
    here) that the rest of the program sets and queries. Writing to the
    console and the log file is not part of this model. */
module Logging {
  import opened Wrappers
  import opened Text
  import opened Settings

  /** `LogLevel` is an `int`; the four named levels count up from 0. */
  type LogLevel = int

  const Debug: LogLevel := 0
  const Info: LogLevel := 1
  const Warn: LogLevel := 2
  const Error: LogLevel := 3

  predicate Known(l: LogLevel) {
    Debug <= l <= Error
  }

  const DebugName := "DEBUG"
  const InfoName := "INFO"
  const WarnName := "WARN"
  const WarningName := "WARNING"
  const ErrorName := "ERROR"
  const UnknownName := "UNKNOWN"
  const LogLevelVar := "LOG_LEVEL"

  /** `getLogLevelName`. */
  function LevelName(l: LogLevel): (r: string)
    ensures r == UnknownName <==> !Known(l)
  {
    if l == Debug then DebugName
    else if l == Info then InfoName
    else if l == Warn then WarnName
    else if l == Error then ErrorName
    else UnknownName
  }

  /** The names `setLogLevelFromEnv` accepts, after upper-casing. */
  predicate Recognized(upper: string) {
    upper == DebugName || upper == InfoName || upper == WarnName || upper == WarningName || upper == ErrorName
  }

  /** The `switch` of `setLogLevelFromEnv` on the upper-cased text: any
      other text means INFO. */
  function ParseLevel(text: string): (l: LogLevel)
    ensures Known(l)
    ensures !Recognized(ToUpper(text)) ==> l == Info
  {
    var upper := ToUpper(text);
    if upper == DebugName then Debug
    else if upper == InfoName then Info
    else if upper == WarnName || upper == WarningName then Warn
    else if upper == ErrorName then Error
    else Info
  }

  /** The warning `setLogLevelFromEnv` logs for a text it does not know. */
  function UnknownLevelMessage(upper: string): string {
    "Unknown log level '" + upper + "', defaulting to INFO"
  }

  /** The level `LOG_LEVEL` selects; INFO when it is unset or empty. */
  function LevelFromEnv(env: Env): LogLevel {
    ParseLevel(GetEnv(env, LogLevelVar, InfoName))
  }

  lemma UpperCharIdempotent(c: char)
    ensures UpperChar(UpperChar(c)) == UpperChar(c)
  {
  }

  /** Upper-casing twice is upper-casing once. */
  lemma ToUpperIdempotent(s: string)
    ensures ToUpper(ToUpper(s)) == ToUpper(s)
  {
    forall i | 0 <= i < |s| ensures ToUpper(ToUpper(s))[i] == ToUpper(s)[i] {
      UpperCharIdempotent(s[i]);
    }
  }

  /** The level names are case-insensitive: a text and its upper-case form
      select the same level. */
  lemma ParseLevelIgnoresCase(text: string)
    ensures ParseLevel(ToUpper(text)) == ParseLevel(text)
  {
    ToUpperIdempotent(text);
  }

  lemma UpperUnchanged(s: string)
    requires forall i :: 0 <= i < |s| ==> !('a' <= s[i] <= 'z')
    ensures ToUpper(s) == s
  {
  }

  /** Every known level's name reads back as that level. */
  lemma LevelNameRoundTrip(l: LogLevel)
    requires Known(l)
    ensures ParseLevel(LevelName(l)) == l
  {
    UpperUnchanged(LevelName(l));
  }

  /** "WARNING" is another name for WARN. */
  lemma WarningIsWarn()
    ensures ParseLevel(WarningName) == Warn
  {
    UpperUnchanged(WarningName);
  }

  /** With `LOG_LEVEL` unset or empty the level is INFO. */
  lemma UnsetMeansInfo(env: Env)
    requires LogLevelVar !in env || env[LogLevelVar] == ""
    ensures LevelFromEnv(env) == Info
  {
    UpperUnchanged(InfoName);
  }

  /** Debug output is switched on by `LOG_LEVEL` only when it spells DEBUG,
      in any case. */
  lemma DebugOnlyWhenAsked(env: Env)
    ensures LevelFromEnv(env) <= Debug <==> LogLevelVar in env && ToUpper(env[LogLevelVar]) == DebugName
  {
    if LogLevelVar !in env || env[LogLevelVar] == "" {
      UnsetMeansInfo(env);
      assert ToUpper("") == "";
    }
  }

  /** The current level of the process (`currentLogLevel`). */
  class Logger {
    var level: LogLevel

    /** The level before any configuration is INFO. */
    constructor()
      ensures level == Info
    {
      level := Info;
    }

    /** `IsDebugEnabled`. */
    predicate DebugEnabled()
      reads this
    {
      level <= Debug
    }

    /** `setLogLevelFromEnv`: the level `LOG_LEVEL` selects, with the
        warning logged when the text is not a level name. */
    method SetLogLevelFromEnv(env: Env) returns (warning: Option<string>)
      modifies this
      ensures level == LevelFromEnv(env) && Known(level)
      ensures var upper := ToUpper(GetEnv(env, LogLevelVar, InfoName));
        warning == if Recognized(upper) then None else Some(UnknownLevelMessage(upper))
    {
      var upper := ToUpper(GetEnv(env, LogLevelVar, InfoName));
      ParseLevelIgnoresCase(GetEnv(env, LogLevelVar, InfoName));
      if upper == DebugName {
        level := Debug;
      } else if upper == InfoName {
        level := Info;
      } else if upper == WarnName || upper == WarningName {
        level := Warn;
      } else if upper == ErrorName {
        level := Error;
      } else {
        level := Info;
        return Some(UnknownLevelMessage(upper));
      }
      return None;
    }

    /** `SetLogLevel`: any level is stored as given, and the change is
        logged by the level's name. */
    method SetLogLevel(l: LogLevel) returns (message: string)
      modifies this
      ensures level == l
      ensures message == "Log level changed to: " + LevelName(l)
    {
      level := l;
      message := "Log level changed to: " + LevelName(l);
    }

    /** `IsDebugEnabled`. */
    method IsDebugEnabled() returns (b: bool)
      ensures b <==> level <= Debug
      ensures b <==> DebugEnabled()
    {
      b := level <= Debug;
    }

    /** `GetLogLevel`: the level last set. */
    method GetLogLevel() returns (l: LogLevel)
      ensures l == level
    {
      l := level;
    }
  }

  /** Setting a level and reading it back gives that level, and debug
      output is on exactly at DEBUG and below. */
  method SetThenGet(logger: Logger, l: LogLevel) returns (got: LogLevel, debug: bool)
    modifies logger
    ensures got == l
    ensures debug <==> l <= Debug
  {
    var _ := logger.SetLogLevel(l);
    got := logger.GetLogLevel();
    debug := logger.IsDebugEnabled();
  }
}
