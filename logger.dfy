/**
 * The logger core: level ranking and filtering, the bounded in-memory buffer
 * (oldest entry dropped first), queries over it, the entries pending a file flush,
 * level-name parsing, and numbered log-file rotation over an abstract directory.
 */
module Logging {
  import opened Wrappers
  import opened Text
  import opened Json

  datatype LogLevel = Error | Warn | Info | Debug | Trace

  /** The upper-case name of a level; lower-cased it is the level's entry in `LevelNames`. */
  function ToStr(level: LogLevel): (r: string)
    ensures ToLower(r) == LevelNames[Rank(level)]
  {
    match level
    case Error => "ERROR"
    case Warn => "WARN"
    case Info => "INFO"
    case Debug => "DEBUG"
    case Trace => "TRACE"
  }

  /** Error = 0 < Warn < Info < Debug < Trace = 4. */
  function Rank(level: LogLevel): (r: nat)
    ensures r < |LevelNames|
  {
    match level
    case Error => 0
    case Warn => 1
    case Info => 2
    case Debug => 3
    case Trace => 4
  }

  /** A message passes when its rank is at most the configured level's rank. */
  function ShouldLog(configured: LogLevel, level: LogLevel): (r: bool)
    ensures r <==> Rank(level) <= Rank(configured)
  {
    Rank(level) <= Rank(configured)
  }

  /** Distinct levels have distinct ranks, so the filter is a total order on levels. */
  lemma RankInjective(a: LogLevel, b: LogLevel)
    ensures Rank(a) == Rank(b) ==> a == b
  {
  }

  /** At Info, Error, Warn and Info pass and Debug and Trace do not. */
  lemma ShouldLogAtInfo()
    ensures ShouldLog(Info, Error) && ShouldLog(Info, Warn) && ShouldLog(Info, Info)
    ensures !ShouldLog(Info, Debug) && !ShouldLog(Info, Trace)
  {
  }

  /** If a level passes, every more severe level passes too. */
  lemma ShouldLogMonotone(configured: LogLevel, level: LogLevel, moreSevere: LogLevel)
    requires ShouldLog(configured, level) && Rank(moreSevere) <= Rank(level)
    ensures ShouldLog(configured, moreSevere)
  {
  }

  const LevelNames: seq<string> := ["error", "warn", "info", "debug", "trace"]

  /**
   * The level-name parse of the `get_logs_by_level` command: case-insensitive over the
   * five names, "Invalid log level" for anything else.
   */
  function ParseLevelName(s: string): (r: Result<LogLevel, string>)
    ensures r.Ok? <==> ToLower(s) in LevelNames
    ensures r.Ok? ==> ToLower(ToStr(r.value)) == ToLower(s)
    ensures r.Err? ==> r.error == "Invalid log level"
  {
    var lower := ToLower(s);
    if lower == "error" then Ok(Error)
    else if lower == "warn" then Ok(Warn)
    else if lower == "info" then Ok(Info)
    else if lower == "debug" then Ok(Debug)
    else if lower == "trace" then Ok(Trace)
    else Err("Invalid log level")
  }

  /** Every printed level name parses back to its level. */
  lemma ParseLevelNameOfToStr(level: LogLevel)
    ensures ParseLevelName(ToStr(level)) == Ok(level)
  {
    match level
    case Error => assert ToLower("ERROR") == "error";
    case Warn => assert ToLower("WARN") == "warn";
    case Info => assert ToLower("INFO") == "info";
    case Debug => assert ToLower("DEBUG") == "debug";
    case Trace => assert ToLower("TRACE") == "trace";
  }

  lemma ParseLevelNameIgnoresCase(s: string)
    ensures ParseLevelName(ToLower(s)) == ParseLevelName(s)
  {
    ToLowerIdempotent(s);
  }

  datatype LogEntry = LogEntry(timestamp: int, level: LogLevel, target: string, message: string, metadata: Option<Json>)

  /** How many entries the buffer really holds: `buffer_size`, but at least one (the push follows the pop). */
  function Capacity(bufferSize: nat): nat {
    if bufferSize == 0 then 1 else bufferSize
  }

  /** Lines 153-157: drop the front when the buffer is at or over size, then append. */
  function PushBounded(buffer: seq<LogEntry>, entry: LogEntry, bufferSize: nat): (r: seq<LogEntry>)
    ensures |r| >= 1 && r[|r| - 1] == entry
    ensures |r| <= |buffer| + 1
  {
    (if |buffer| >= bufferSize && |buffer| > 0 then buffer[1..] else buffer) + [entry]
  }

  /** The last `n` elements of `s` (all of them when `s` is shorter), in order. */
  function Tail<T>(s: seq<T>, n: nat): (r: seq<T>)
    ensures |r| == if n < |s| then n else |s|
  {
    if n < |s| then s[|s| - n..] else s
  }

  /**
   * A push keeps the buffer within its capacity, preserves arrival order and puts the
   * new entry last: the result is the old contents, minus possibly the first, then the entry.
   */
  lemma PushBoundedShape(buffer: seq<LogEntry>, entry: LogEntry, bufferSize: nat)
    requires |buffer| <= Capacity(bufferSize)
    ensures var r := PushBounded(buffer, entry, bufferSize);
      && |r| <= Capacity(bufferSize)
      && r[|r| - 1] == entry
      && (r[..|r| - 1] == buffer || r[..|r| - 1] == buffer[1..])
      && (|buffer| < bufferSize ==> r == buffer + [entry])
  {
  }

  /** With a non-zero size, one push keeps exactly the last `bufferSize` arrivals. */
  lemma PushBoundedIsTail(buffer: seq<LogEntry>, entry: LogEntry, bufferSize: nat)
    requires bufferSize >= 1 && |buffer| <= bufferSize
    ensures PushBounded(buffer, entry, bufferSize) == Tail(buffer + [entry], bufferSize)
  {
    if |buffer| == bufferSize {
      assert (buffer + [entry])[|buffer + [entry]| - bufferSize..] == buffer[1..] + [entry];
    }
  }

  function PushAll(buffer: seq<LogEntry>, entries: seq<LogEntry>, bufferSize: nat): seq<LogEntry>
    decreases |entries|
  {
    if entries == [] then buffer
    else PushAll(PushBounded(buffer, entries[0], bufferSize), entries[1..], bufferSize)
  }

  lemma TailOfTail<T>(s: seq<T>, t: seq<T>, n: nat)
    ensures Tail(Tail(s, n) + t, n) == Tail(s + t, n)
  {
    if n < |s| {
      var u := s[|s| - n..];
      if n < |u + t| {
        assert (u + t)[|u + t| - n..] == (s + t)[|s + t| - n..];
      }
    }
  }

  /**
   * Any sequence of pushes into a buffer of size at least one leaves exactly the
   * last `bufferSize` entries ever pushed, oldest first.
   */
  lemma {:induction false} PushAllIsTail(buffer: seq<LogEntry>, entries: seq<LogEntry>, bufferSize: nat)
    requires bufferSize >= 1 && |buffer| <= bufferSize
    ensures PushAll(buffer, entries, bufferSize) == Tail(buffer + entries, bufferSize)
    decreases |entries|
  {
    if entries == [] {
      assert buffer + entries == buffer;
    } else {
      var e := entries[0];
      PushBoundedIsTail(buffer, e, bufferSize);
      var b' := PushBounded(buffer, e, bufferSize);
      PushAllIsTail(b', entries[1..], bufferSize);
      TailOfTail(buffer + [e], entries[1..], bufferSize);
      assert buffer + [e] + entries[1..] == buffer + entries;
    }
  }

  function Reverse<T>(s: seq<T>): (r: seq<T>)
    ensures |r| == |s|
    decreases |s|
  {
    if s == [] then [] else Reverse(s[1..]) + [s[0]]
  }

  lemma {:induction false} ReverseAt<T>(s: seq<T>, k: nat)
    requires k < |s|
    ensures Reverse(s)[k] == s[|s| - 1 - k]
    decreases |s|
  {
    if k < |s| - 1 {
      ReverseAt(s[1..], k);
    }
  }

  function Take<T>(s: seq<T>, n: nat): seq<T> {
    if n < |s| then s[..n] else s
  }

  /** `iter().rev().take(limit)...rev()` is the last `limit` elements in their original order. */
  lemma ReverseTakeReverse<T>(s: seq<T>, n: nat)
    ensures Reverse(Take(Reverse(s), n)) == Tail(s, n)
  {
    var rs := Take(Reverse(s), n);
    var r := Reverse(rs);
    var t := Tail(s, n);
    assert |r| == |t|;
    forall k | 0 <= k < |r| ensures r[k] == t[k] {
      ReverseAt(rs, k);
      ReverseAt(s, |rs| - 1 - k);
    }
  }

  /** `get_recent_logs`: the last `min(limit, len)` entries, oldest first. */
  function RecentLogs(buffer: seq<LogEntry>, limit: nat): (r: seq<LogEntry>)
    ensures r == Tail(buffer, limit)
  {
    ReverseTakeReverse(buffer, limit);
    Reverse(Take(Reverse(buffer), limit))
  }

  function Filter(s: seq<LogEntry>, keep: LogEntry -> bool): (r: seq<LogEntry>)
    ensures forall k :: 0 <= k < |r| ==> keep(r[k])
    decreases |s|
  {
    if s == [] then []
    else if keep(s[0]) then [s[0]] + Filter(s[1..], keep)
    else Filter(s[1..], keep)
  }

  /** The predicate `matches!(entry.level, level)` computes: a binding pattern matches everything. */
  predicate KeepAll(e: LogEntry) {
    true
  }

  function LevelIs(level: LogLevel): LogEntry -> bool {
    (e: LogEntry) => e.level == level
  }

  lemma {:induction false} FilterAll(s: seq<LogEntry>)
    ensures Filter(s, KeepAll) == s
    decreases |s|
  {
    if s != [] {
      FilterAll(s[1..]);
    }
  }

  /**
   * `get_logs_by_level` as written: `matches!(entry.level, level)` binds a fresh name
   * `level`, so the filter keeps every entry and the requested level is ignored.
   */
  function LogsByLevelAsWritten(buffer: seq<LogEntry>, level: LogLevel, limit: nat): (r: seq<LogEntry>)
    ensures r == RecentLogs(buffer, limit)
  {
    FilterAll(buffer);
    Reverse(Take(Reverse(Filter(buffer, KeepAll)), limit))
  }

  /** An Error entry comes back from a query for Warn entries. */
  lemma LogsByLevelAsWrittenIgnoresLevel(e: LogEntry)
    requires e.level == Error
    ensures LogsByLevelAsWritten([e], Warn, 1) == [e]
  {
  }

  /** The intended query: the last `limit` entries of the requested level, oldest first. */
  function LogsByLevel(buffer: seq<LogEntry>, level: LogLevel, limit: nat): (r: seq<LogEntry>)
    ensures r == Tail(Filter(buffer, LevelIs(level)), limit)
    ensures forall k :: 0 <= k < |r| ==> r[k].level == level
  {
    var kept := Filter(buffer, LevelIs(level));
    ReverseTakeReverse(kept, limit);
    Reverse(Take(Reverse(kept), limit))
  }

  /**
   * The `get_logs_by_level` command: the level name is parsed before the logger is
   * looked up, so a bad name wins over a missing logger. It calls the query as
   * written, so once the name parses it answers with the recent entries of every level.
   */
  function LogsByLevelCommand(levelName: string, logger: Option<seq<LogEntry>>, limit: nat): (r: Result<seq<LogEntry>, string>)
    ensures ParseLevelName(levelName).Err? ==> r == Err("Invalid log level")
    ensures ParseLevelName(levelName).Ok? && logger.None? ==> r == Err("Logger not initialized")
    ensures ParseLevelName(levelName).Ok? && logger.Some? ==> r == Ok(Tail(logger.value, limit))
  {
    match ParseLevelName(levelName)
    case Err(e) => Err(e)
    case Ok(level) =>
      if logger.None? then Err("Logger not initialized")
      else Ok(LogsByLevelAsWritten(logger.value, level, limit))
  }

  /** A query for "warn" answers with an Error entry. */
  lemma LogsByLevelCommandIgnoresLevel(e: LogEntry)
    requires e.level == Error
    ensures LogsByLevelCommand("warn", Some([e]), 1) == Ok([e])
  {
  }

  /** Rotation is due when the live file's size is known and exceeds the limit. */
  function NeedsRotation(liveFileSize: Option<nat>, maxFileSize: nat): (r: bool)
    ensures r <==> liveFileSize.Some? && liveFileSize.value > maxFileSize
  {
    match liveFileSize
    case Some(n) => n > maxFileSize
    case None => false
  }

  datatype LoggerConfig = LoggerConfig(
    level: LogLevel,
    logToFile: bool,
    logToConsole: bool,
    maxFileSize: nat,
    maxFiles: nat,
    bufferSize: nat)

  /** The defaults: Info, file and console on, 10 MiB files, 5 backups, 1000 buffered entries. */
  const DefaultConfig := LoggerConfig(Info, true, true, 10 * 1024 * 1024, 5, 1000)

  class Logger {
    const config: LoggerConfig
    /** The in-memory buffer, oldest first. */
    var buffer: seq<LogEntry>
    /** Entries waiting for the next flush to the log file. */
    var pending: seq<LogEntry>

    ghost predicate Valid()
      reads this
    {
      |buffer| <= Capacity(config.bufferSize)
    }

    constructor (config: LoggerConfig)
      ensures Valid() && this.config == config && buffer == [] && pending == []
    {
      this.config := config;
      buffer := [];
      pending := [];
    }

    /** The background task's handling of one received entry (console output left out). */
    method Receive(entry: LogEntry)
      requires Valid()
      modifies this
      ensures Valid()
      ensures buffer == PushBounded(old(buffer), entry, config.bufferSize)
      ensures pending == if config.logToFile then old(pending) + [entry] else old(pending)
    {
      if config.logToFile {
        pending := pending + [entry];
      }
      if |buffer| >= config.bufferSize && |buffer| > 0 {
        buffer := buffer[1..];
      }
      buffer := buffer + [entry];
    }

    /** A filtered-out level produces no entry; a passing one is buffered with no metadata. */
    method Log(level: LogLevel, target: string, message: string, now: int)
      requires Valid()
      modifies this
      ensures Valid()
      ensures !ShouldLog(config.level, level) ==> buffer == old(buffer) && pending == old(pending)
      ensures ShouldLog(config.level, level) ==>
        buffer == PushBounded(old(buffer), LogEntry(now, level, target, message, None), config.bufferSize)
      ensures ShouldLog(config.level, level) ==>
        pending == if config.logToFile then old(pending) + [LogEntry(now, level, target, message, None)] else old(pending)
    {
      if !ShouldLog(config.level, level) {
        return;
      }
      Receive(LogEntry(now, level, target, message, None));
    }

    method LogWithMetadata(level: LogLevel, target: string, message: string, metadata: Json, now: int)
      requires Valid()
      modifies this
      ensures Valid()
      ensures !ShouldLog(config.level, level) ==> buffer == old(buffer) && pending == old(pending)
      ensures ShouldLog(config.level, level) ==>
        buffer == PushBounded(old(buffer), LogEntry(now, level, target, message, Some(metadata)), config.bufferSize)
      ensures ShouldLog(config.level, level) ==>
        pending == if config.logToFile then old(pending) + [LogEntry(now, level, target, message, Some(metadata))] else old(pending)
    {
      if !ShouldLog(config.level, level) {
        return;
      }
      Receive(LogEntry(now, level, target, message, Some(metadata)));
    }

    /** A flush tick hands every pending entry to the file writer and empties the list. */
    method FlushPending() returns (written: seq<LogEntry>)
      modifies this`pending
      ensures written == old(pending) && pending == []
    {
      written := pending;
      pending := [];
    }

    function GetRecentLogs(limit: nat): (r: seq<LogEntry>)
      reads this
      ensures r == Tail(buffer, limit)
    {
      RecentLogs(buffer, limit)
    }

    method ClearBuffer()
      requires Valid()
      modifies this`buffer
      ensures Valid() && buffer == []
    {
      buffer := [];
    }
  }

  /** At level Warn, logging debug, warn and error leaves exactly two entries. */
  method LogLevelsScenario(now: int) returns (logs: seq<LogEntry>)
    ensures |logs| == 2
    ensures logs[0].level == Warn && logs[1].level == Error
  {
    var logger := new Logger(DefaultConfig.(level := Warn));
    logger.Log(Debug, "test", "Debug message", now);
    logger.Log(Warn, "test", "Warning message", now);
    logger.Log(Error, "test", "Error message", now);
    logs := logger.GetRecentLogs(10);
  }

  // ---- Numbered log-file rotation ----

  /** The live file "<stem>.<ext>" and the numbered backups "<stem>.<n>.<ext>". */
  datatype LogFile = Live | Backup(n: nat)

  function Get(dir: map<LogFile, string>, f: LogFile): Option<string> {
    if f in dir then Some(dir[f]) else None
  }

  /**
   * Contents of `f` once the rename loop has handled every index from `maxFiles - 1`
   * down to `lo` (nothing handled when `lo >= maxFiles`).
   */
  function ShiftedAt(dir: map<LogFile, string>, maxFiles: nat, lo: int, f: LogFile): Option<string> {
    match f
    case Live => Get(dir, Live)
    case Backup(j) =>
      if lo >= maxFiles || j == 0 || j < lo || j > maxFiles then Get(dir, f)
      else if j == lo then None
      else if Backup(j - 1) in dir then Some(dir[Backup(j - 1)])
      else if j == maxFiles then Get(dir, f)
      else None
  }

  /**
   * Contents of `f` after `rotate_log_files`: backups shifted up, then the live file
   * moved to backup 1.
   */
  function RotatedAt(dir: map<LogFile, string>, maxFiles: nat, f: LogFile): Option<string> {
    match f
    case Live => None
    case Backup(j) => if j == 1 && Live in dir then Some(dir[Live]) else ShiftedAt(dir, maxFiles, 1, f)
  }

  /** One loop step: rename `<i>` to `<i + 1>` when `<i>` exists. */
  function RenameStep(d: map<LogFile, string>, i: nat): map<LogFile, string> {
    if Backup(i) in d then (d - {Backup(i)})[Backup(i + 1) := d[Backup(i)]] else d
  }

  /** The final rename of the live file to backup 1, when it exists. */
  function MoveLive(d: map<LogFile, string>): map<LogFile, string> {
    if Live in d then (d - {Live})[Backup(1) := d[Live]] else d
  }

  /** Before the loop nothing is handled: the directory as it was. */
  lemma ShiftedNothing(dir: map<LogFile, string>, maxFiles: nat, lo: int)
    requires lo >= maxFiles
    ensures forall f :: ShiftedAt(dir, maxFiles, lo, f) == Get(dir, f)
  {
    forall f ensures ShiftedAt(dir, maxFiles, lo, f) == Get(dir, f) {
      match f
      case Live =>
      case Backup(j) =>
    }
  }

  /** Handling index `i` takes the directory from stage `i + 1` to stage `i`. */
  lemma ShiftStep(dir: map<LogFile, string>, maxFiles: nat, i: nat, d: map<LogFile, string>)
    requires 1 <= i < maxFiles
    requires forall f :: Get(d, f) == ShiftedAt(dir, maxFiles, i + 1, f)
    ensures forall f :: Get(RenameStep(d, i), f) == ShiftedAt(dir, maxFiles, i, f)
  {
    var before := Get(d, Backup(i));
    assert before == ShiftedAt(dir, maxFiles, i + 1, Backup(i));
    forall f ensures Get(RenameStep(d, i), f) == ShiftedAt(dir, maxFiles, i, f) {
      assert Get(d, f) == ShiftedAt(dir, maxFiles, i + 1, f);
    }
  }

  /** Moving the live file completes the rotation. */
  lemma MoveLiveStep(dir: map<LogFile, string>, maxFiles: nat, d: map<LogFile, string>)
    requires forall f :: Get(d, f) == ShiftedAt(dir, maxFiles, 1, f)
    ensures forall f :: Get(MoveLive(d), f) == RotatedAt(dir, maxFiles, f)
  {
    assert Get(d, Live) == Get(dir, Live);
    forall f ensures Get(MoveLive(d), f) == RotatedAt(dir, maxFiles, f) {
      assert Get(d, f) == ShiftedAt(dir, maxFiles, 1, f);
    }
  }

  /**
   * `rotate_log_files` over a directory map: renames each existing backup i, from
   * `maxFiles - 1` down to 1, to i + 1, then moves the live file to backup 1.
   */
  method RotateLogFiles(dir: map<LogFile, string>, maxFiles: nat) returns (r: map<LogFile, string>)
    ensures forall f :: Get(r, f) == RotatedAt(dir, maxFiles, f)
  {
    var d := dir;
    // every index from maxFiles - 1 down to lo has been handled
    var lo: nat := if maxFiles == 0 then 1 else maxFiles;
    ShiftedNothing(dir, maxFiles, lo);
    while lo > 1
      invariant 1 <= lo
      invariant lo <= maxFiles || lo == 1
      invariant forall f :: Get(d, f) == ShiftedAt(dir, maxFiles, lo, f)
    {
      ShiftStep(dir, maxFiles, lo - 1, d);
      d := RenameStep(d, lo - 1);
      lo := lo - 1;
    }
    MoveLiveStep(dir, maxFiles, d);
    r := MoveLive(d);
  }

  /**
   * Rotation loses nothing but the highest slot: each backup i below `maxFiles` moves
   * to i + 1, the live file becomes backup 1, and files outside `1..maxFiles` stay put.
   */
  lemma RotationShiftsEveryFile(dir: map<LogFile, string>, maxFiles: nat)
    ensures RotatedAt(dir, maxFiles, Live) == None
    ensures Live in dir ==> RotatedAt(dir, maxFiles, Backup(1)) == Some(dir[Live])
    ensures forall k :: 1 <= k < maxFiles && Backup(k) in dir ==>
      RotatedAt(dir, maxFiles, Backup(k + 1)) == Some(dir[Backup(k)])
    ensures forall k :: (k == 0 || k > maxFiles) && (k != 1 || Live !in dir) ==>
      RotatedAt(dir, maxFiles, Backup(k)) == Get(dir, Backup(k))
  {
  }

  /** With at least two slots and no live file, slot 1 ends up empty. */
  lemma RotationFreesFirstSlot(dir: map<LogFile, string>, maxFiles: nat)
    requires maxFiles >= 2 && Live !in dir
    ensures RotatedAt(dir, maxFiles, Backup(1)) == None
  {
  }
}
