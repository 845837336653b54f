/** Log-level filtering and fan-out. Every logger decides by the level name whether a record
    is written; a `MultiLogger` hands the same record to each of its loggers in turn. What the
    loggers write (a file line, a table row, a console line) is kept as one sequence of records,
    each tagged with the logger that wrote it; timestamps, JSON rendering and file rotation are
    not part of this model. */
module Logger {
  import opened Wrappers
  import Text
  import Seqs

  /** The numeric rank of each known level name. */
  const LevelRanks: map<string, int> := map["DEBUG" := 10, "INFO" := 20, "WARNING" := 30, "ERROR" := 40]
  /** The rank of a name that is not in the table, and of `INFO`. */
  const InfoRank: int := 20
  /** The environment variable holding the configured level, and its default. */
  const LevelVar: string := "LOG_LEVEL"
  const DefaultLevel: string := "INFO"
  /** The `event_type` of a record when the caller gives none. */
  const DefaultEventType: string := "event"

  /** `LOG_LEVELS.get(level, 20)`: the name is looked up exactly as given. */
  function Rank(level: string): (r: int)
    ensures 10 <= r <= 40
    ensures level !in LevelRanks ==> r == InfoRank
  {
    if level in LevelRanks then LevelRanks[level] else InfoRank
  }

  /** The configured level: `LOG_LEVEL` (default `INFO`), upper-cased. */
  function ConfiguredLevel(env: map<string, string>): string {
    Text.Upper(if LevelVar in env then env[LevelVar] else DefaultLevel)
  }

  /** `should_log(level)`: the message's rank reaches the configured rank. The message level
      itself is not upper-cased. */
  predicate ShouldLog(level: string, env: map<string, string>) {
    Rank(level) >= Rank(ConfiguredLevel(env))
  }

  /** The four loggers of the source. */
  datatype Sink = FileSink | DbSink | CloudSink | ConsoleSink

  /** The arguments of one `log` call. */
  datatype Entry = Entry(level: string, message: string, userId: Option<int>, eventType: string)

  /** What a logger writes for one call. */
  datatype Record = Record(sink: Sink, entry: Entry)

  /** Whether `sink` writes a record at `level`: the file and database loggers follow
      `should_log`; the cloud logger checks it but then writes nothing; the console logger
      compares with the rank of `INFO` and ignores the configuration. */
  predicate Writes(sink: Sink, level: string, env: map<string, string>) {
    match sink
    case FileSink => ShouldLog(level, env)
    case DbSink => ShouldLog(level, env)
    case CloudSink => false
    case ConsoleSink => Rank(level) >= LevelRanks["INFO"]
  }

  /** The records one logger writes for `entry`. */
  function RecordsOf(sink: Sink, entry: Entry, env: map<string, string>): seq<Record> {
    if Writes(sink, entry.level, env) then [Record(sink, entry)] else []
  }

  /** The records a list of loggers writes for `entry`, in the order of the list. */
  function Emitted(sinks: seq<Sink>, entry: Entry, env: map<string, string>): (r: seq<Record>)
    ensures |r| <= |sinks|
  {
    if sinks == [] then []
    else Emitted(sinks[..|sinks| - 1], entry, env) + RecordsOf(sinks[|sinks| - 1], entry, env)
  }

  /** The logger each record came from. */
  function SinksOf(rs: seq<Record>): (r: seq<Sink>)
    ensures |r| == |rs|
  {
    seq(|rs|, k requires 0 <= k < |rs| => rs[k].sink)
  }

  /** Fan-out: every record carries the entry unchanged, and the records come from exactly the
      loggers that accept its level, in the order of the list. */
  lemma {:induction false} EmittedSpec(sinks: seq<Sink>, entry: Entry, env: map<string, string>)
    ensures forall r :: r in Emitted(sinks, entry, env) ==> r.entry == entry
    ensures SinksOf(Emitted(sinks, entry, env)) == Seqs.Filter(sinks, (s: Sink) => Writes(s, entry.level, env))
  {
    if sinks != [] {
      var init := sinks[..|sinks| - 1];
      var last := sinks[|sinks| - 1];
      EmittedSpec(init, entry, env);
      var a := Emitted(init, entry, env);
      var b := RecordsOf(last, entry, env);
      assert SinksOf(a + b) == SinksOf(a) + SinksOf(b);
    }
  }

  /** `MultiLogger`: a fixed list of loggers and what they have written so far. */
  class MultiLogger {
    const loggers: seq<Sink>
    var written: seq<Record>

    constructor (loggers: seq<Sink>)
      ensures this.loggers == loggers && written == []
    {
      this.loggers := loggers;
      written := [];
    }

    /** One child logger's `log` call. */
    method Emit(sink: Sink, entry: Entry, env: map<string, string>)
      modifies this
      ensures written == old(written) + RecordsOf(sink, entry, env)
    {
      match sink
      case FileSink =>
        if ShouldLog(entry.level, env) {
          written := written + [Record(sink, entry)];
        }
      case DbSink =>
        if ShouldLog(entry.level, env) {
          written := written + [Record(sink, entry)];
        }
      case CloudSink =>
      case ConsoleSink =>
        if Rank(entry.level) >= LevelRanks["INFO"] {
          written := written + [Record(sink, entry)];
        }
    }

    /** `MultiLogger.log`: the same arguments go to every logger, in order; an `event_type`
        the caller leaves out is `event`. */
    method Log(level: string, message: string, userId: Option<int>, eventType: Option<string>, env: map<string, string>)
      modifies this
      ensures written == old(written) + Emitted(loggers, Entry(level, message, userId, eventType.GetOr(DefaultEventType)), env)
    {
      var entry := Entry(level, message, userId, eventType.GetOr(DefaultEventType));
      var i := 0;
      while i < |loggers|
        invariant 0 <= i <= |loggers|
        invariant written == old(written) + Emitted(loggers[..i], entry, env)
      {
        Emit(loggers[i], entry, env);
        assert loggers[..i + 1][..i] == loggers[..i];
        i := i + 1;
      }
      assert loggers[..i] == loggers;
    }
  }

  /** The loggers of the default instance: the file logger, then the console. */
  const DefaultSinks: seq<Sink> := [FileSink, ConsoleSink]

  /** `ERROR` passes whatever level is configured. */
  lemma ErrorAlwaysLogged(env: map<string, string>)
    ensures ShouldLog("ERROR", env)
  {
    assert "ERROR" in LevelRanks;
  }

  /** A level name in lower case is not in the table, so it ranks as `INFO`: `debug` messages
      pass wherever `INFO` ones do. */
  lemma LowerCaseLevelRanksAsInfo(env: map<string, string>)
    ensures Rank("debug") == InfoRank
    ensures ShouldLog("debug", env) <==> ShouldLog("INFO", env)
  {
    assert "debug" != "DEBUG";
    assert "INFO" in LevelRanks;
  }

  /** Upper-casing the configured value again changes nothing. */
  lemma UpperIdempotent(s: string)
    ensures Text.Upper(Text.Upper(s)) == Text.Upper(s)
  {
    var u := Text.Upper(s);
    forall k | 0 <= k < |s|
      ensures Text.Upper(u)[k] == u[k]
    {
      assert u[k] == Text.UpperChar(s[k]);
    }
  }

  /** The configured level is read without regard to letter case. */
  lemma ConfiguredLevelIgnoresCase(level: string, env: map<string, string>, v: string)
    ensures ShouldLog(level, env[LevelVar := v]) <==> ShouldLog(level, env[LevelVar := Text.Upper(v)])
  {
    UpperIdempotent(v);
  }

  /** A higher-ranked level passes whenever a lower-ranked one does. */
  lemma ShouldLogMonotone(a: string, b: string, env: map<string, string>)
    requires Rank(a) <= Rank(b)
    ensures ShouldLog(a, env) ==> ShouldLog(b, env)
  {
  }

  /** With `LOG_LEVEL=ERROR`, only `ERROR` messages reach the file. */
  lemma ErrorLevelFiltersFile(level: string, env: map<string, string>)
    requires LevelVar in env && env[LevelVar] == "ERROR"
    ensures ShouldLog(level, env) <==> level == "ERROR"
  {
    var u := Text.Upper("ERROR");
    assert u == "ERROR" by {
      forall k | 0 <= k < 5
        ensures u[k] == "ERROR"[k]
      {
      }
    }
    if level in LevelRanks && level != "ERROR" {
      assert level == "DEBUG" || level == "INFO" || level == "WARNING";
    }
  }

  /** A message below the configured level is written by none of the file, database and cloud
      loggers. */
  lemma BelowLevelWritesNothing(entry: Entry, env: map<string, string>)
    requires !ShouldLog(entry.level, env)
    ensures Emitted([FileSink, DbSink, CloudSink], entry, env) == []
  {
    var sinks := [FileSink, DbSink, CloudSink];
    assert sinks[..2] == [FileSink, DbSink];
    assert sinks[..2][..1] == [FileSink];
    assert sinks[..2][..1][..0] == [];
    assert Emitted(sinks[..2][..1], entry, env) == [];
    assert Emitted(sinks[..2], entry, env) == [];
  }

  /** The console logger writes exactly the messages ranked at least `INFO`, whatever the
      configuration says. */
  lemma ConsoleIgnoresConfig(level: string, env1: map<string, string>, env2: map<string, string>)
    ensures Writes(ConsoleSink, level, env1) <==> Rank(level) >= InfoRank
    ensures Writes(ConsoleSink, level, env1) == Writes(ConsoleSink, level, env2)
  {
  }

  /** The default instance writes to the file when `should_log` holds, then to the console
      when the rank reaches `INFO`. */
  lemma DefaultLoggerWrites(entry: Entry, env: map<string, string>)
    ensures Emitted(DefaultSinks, entry, env)
            == (if ShouldLog(entry.level, env) then [Record(FileSink, entry)] else [])
               + (if Rank(entry.level) >= InfoRank then [Record(ConsoleSink, entry)] else [])
  {
    assert DefaultSinks[..1] == [FileSink];
  }
}
