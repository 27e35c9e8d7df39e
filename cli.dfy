/** The command-line entry points: the flag parser, the configuration checks made
    before start-up, the log-level precedence, the exit codes, and the order in which
    the fatal-error and signal handlers stop the components. Reading and parsing the
    configuration file is abstract: `main` is given a function from path to parse
    result. */
module Cli {
  import opened Common
  import opened LogLevel
  import opened LoadConfig
  import opened UdpSender
  import opened RendererProcess

  /** `parseArgs`' result: each field is set by its flag. */
  datatype ParsedArgs = ParsedArgs(config: Option<string>, logLevel: Option<string>)

  const NoArgs := ParsedArgs(None, None)

  /** The flag scan from position `i`: a flag with a following argument sets its field
      and consumes that argument; anything else, and a flag in the last position, is
      skipped. */
  function Scan(argv: seq<string>, i: nat, acc: ParsedArgs): ParsedArgs
    decreases |argv| - i
  {
    if i >= |argv| then acc
    else if argv[i] == "--config" && i + 1 < |argv| then Scan(argv, i + 2, acc.(config := Some(argv[i + 1])))
    else if argv[i] == "--log-level" && i + 1 < |argv| then Scan(argv, i + 2, acc.(logLevel := Some(argv[i + 1])))
    else Scan(argv, i + 1, acc)
  }

  /** `parseArgs`, with its index-skipping loop. */
  method ParseArgs(argv: seq<string>) returns (result: ParsedArgs)
    ensures result == Scan(argv, 0, NoArgs)
  {
    result := NoArgs;
    var i := 0;
    while i < |argv|
      invariant 0 <= i <= |argv|
      invariant Scan(argv, i, result) == Scan(argv, 0, NoArgs)
      decreases |argv| - i
    {
      var arg := argv[i];
      if arg == "--config" && i + 1 < |argv| {
        i := i + 1;
        result := result.(config := Some(argv[i]));
      } else if arg == "--log-level" && i + 1 < |argv| {
        i := i + 1;
        result := result.(logLevel := Some(argv[i]));
      }
      i := i + 1;
    }
  }

  /** Scanning past a prefix is scanning what follows it. */
  lemma {:induction false} ScanShift(p: seq<string>, rest: seq<string>, j: nat, acc: ParsedArgs)
    requires j <= |rest|
    ensures Scan(p + rest, |p| + j, acc) == Scan(rest, j, acc)
    decreases |rest| - j
  {
    var argv := p + rest;
    if j < |rest| {
      assert argv[|p| + j] == rest[j];
      if j + 1 < |rest| {
        assert argv[|p| + j + 1] == rest[j + 1];
      }
      if rest[j] == "--config" && j + 1 < |rest| {
        ScanShift(p, rest, j + 2, acc.(config := Some(rest[j + 1])));
      } else if rest[j] == "--log-level" && j + 1 < |rest| {
        ScanShift(p, rest, j + 2, acc.(logLevel := Some(rest[j + 1])));
      } else {
        ScanShift(p, rest, j + 1, acc);
      }
    }
  }

  /** A flag followed by a value sets its field to that value, which is consumed and
      never read as a flag itself, whatever it says. */
  lemma FlagConsumesValue(x: string, rest: seq<string>, acc: ParsedArgs)
    ensures Scan(["--config", x] + rest, 0, acc) == Scan(rest, 0, acc.(config := Some(x)))
    ensures Scan(["--log-level", x] + rest, 0, acc) == Scan(rest, 0, acc.(logLevel := Some(x)))
  {
    ScanShift(["--config", x], rest, 0, acc.(config := Some(x)));
    ScanShift(["--log-level", x], rest, 0, acc.(logLevel := Some(x)));
  }

  /** A later occurrence of a flag overrides an earlier one. */
  lemma LaterFlagWins(flag: string, x: string, y: string, rest: seq<string>, acc: ParsedArgs)
    requires flag == "--config" || flag == "--log-level"
    ensures Scan([flag, x, flag, y] + rest, 0, acc) == Scan([flag, y] + rest, 0, acc)
  {
    var tail := [flag, y] + rest;
    assert [flag, x, flag, y] + rest == [flag, x] + tail;
    FlagConsumesValue(x, tail, acc);
    FlagConsumesValue(y, rest, acc);
    if flag == "--config" {
      FlagConsumesValue(y, rest, acc.(config := Some(x)));
    } else {
      FlagConsumesValue(y, rest, acc.(logLevel := Some(x)));
    }
  }

  /** An argument that is not a flag is skipped, and so is a flag in the last position. */
  lemma OtherArgumentsIgnored(a: string, rest: seq<string>, flag: string, acc: ParsedArgs)
    requires a != "--config" && a != "--log-level"
    ensures Scan([a] + rest, 0, acc) == Scan(rest, 0, acc)
    ensures Scan([flag], 0, acc) == acc
  {
    ScanShift([a], rest, 0, acc);
  }

  /** Every value the parser reports is the argument right after its flag, or the value
      the scan started with. */
  lemma {:induction false} ScanValuesFollowFlags(argv: seq<string>, i: nat, acc: ParsedArgs)
    ensures var r := Scan(argv, i, acc);
      (r.config == acc.config || exists k :: i < k < |argv| && argv[k - 1] == "--config" && r.config == Some(argv[k]))
      && (r.logLevel == acc.logLevel || exists k :: i < k < |argv| && argv[k - 1] == "--log-level" && r.logLevel == Some(argv[k]))
    decreases |argv| - i
  {
    if i < |argv| {
      if argv[i] == "--config" && i + 1 < |argv| {
        ScanValuesFollowFlags(argv, i + 2, acc.(config := Some(argv[i + 1])));
      } else if argv[i] == "--log-level" && i + 1 < |argv| {
        ScanValuesFollowFlags(argv, i + 2, acc.(logLevel := Some(argv[i + 1])));
      } else {
        ScanValuesFollowFlags(argv, i + 1, acc);
      }
    }
  }

  /** `loadConfig` of the command-line files: only the telemetry section and its level
      are checked. */
  function CliCheckConfig(c: ConfigJson): Result<ConfigJson, string>
  {
    if c.telemetry.None? then Err(TelemetryMessage)
    else if !LevelOk(c.telemetry.value.logLevel) then Err(InvalidLevelMessage(c.telemetry.value.logLevel.value))
    else Ok(c)
  }

  /** The command-line loader accepts a configuration exactly when it has a telemetry
      section with an absent, empty or valid level, returns it unchanged, and accepts
      everything the full loader accepts. */
  lemma CliCheckConfigSpec(c: ConfigJson, inConfigDir: set<string>, inCwd: set<string>)
    ensures CliCheckConfig(c).Ok? <==> c.telemetry.Some? && LevelOk(c.telemetry.value.logLevel)
    ensures CliCheckConfig(c).Ok? ==> CliCheckConfig(c).value == c
    ensures CheckConfig(c, inConfigDir, inCwd).Ok? ==> CliCheckConfig(c) == Ok(c)
  {
    CheckConfigSpec(c, inConfigDir, inCwd);
  }

  /** JavaScript's `a || b` on an optional string: an absent or empty value is falsy. */
  function OrElse(a: Option<string>, b: string): string
  {
    if a.Some? && a.value != "" then a.value else b
  }

  /** `parsed.logLevel || config.telemetry.log_level || 'info'`. */
  function EffectiveLevel(flag: Option<string>, configured: Option<string>): string
  {
    OrElse(flag, OrElse(configured, "info"))
  }

  /** The flag wins over the configuration, which wins over the default `info`. */
  lemma EffectiveLevelPrecedence(flag: Option<string>, configured: Option<string>)
    ensures flag.Some? && flag.value != "" ==> EffectiveLevel(flag, configured) == flag.value
    ensures (flag.None? || flag.value == "") && configured.Some? && configured.value != "" ==>
      EffectiveLevel(flag, configured) == configured.value
    ensures (flag.None? || flag.value == "") && (configured.None? || configured.value == "") ==>
      EffectiveLevel(flag, configured) == "info"
    ensures EffectiveLevel(flag, configured) != ""
  {
  }

  function InvalidLevel(level: string): string
  {
    "Invalid log level: " + level
  }

  /** The part of `main` common to the three entry points: what it starts with, or the
      message of the error it catches. */
  datatype Startup = Failed(message: string) | Started(configPath: string, level: string, config: ConfigJson)

  /** `argv.slice(2)`. */
  function UserArgs(argv: seq<string>): seq<string>
  {
    if |argv| <= 2 then [] else argv[2..]
  }

  /** `main` up to the logger: parse the flags, pick the configuration path (the flag,
      else `defaultPath`), read and check the configuration, then pick and check the
      level. `read` stands for reading and parsing the file, failing with a message. */
  function Start(argv: seq<string>, defaultPath: string, read: string -> Result<ConfigJson, string>): Startup
  {
    var parsed := Scan(UserArgs(argv), 0, NoArgs);
    var configPath := OrElse(parsed.config, defaultPath);
    match read(configPath)
    case Err(m) => Failed(m)
    case Ok(raw) =>
      match CliCheckConfig(raw)
      case Err(m) => Failed(m)
      case Ok(config) =>
        var level := EffectiveLevel(parsed.logLevel, config.telemetry.value.logLevel);
        if !ValidateLogLevel(level) then Failed(InvalidLevel(level))
        else Started(configPath, level, config)
  }

  /** Start-up succeeds exactly when the file reads, the configuration passes and the
      effective level is one of the four; it then runs at that level, with the flag's
      configuration path when one was given. */
  lemma StartSpec(argv: seq<string>, defaultPath: string, read: string -> Result<ConfigJson, string>)
    ensures var parsed := Scan(UserArgs(argv), 0, NoArgs);
      var path := OrElse(parsed.config, defaultPath);
      && (Start(argv, defaultPath, read).Started? <==>
        && read(path).Ok? && CliCheckConfig(read(path).value).Ok?
        && ValidateLogLevel(EffectiveLevel(parsed.logLevel, read(path).value.telemetry.value.logLevel)))
      && (Start(argv, defaultPath, read).Started? ==>
        && Start(argv, defaultPath, read).configPath == path
        && Start(argv, defaultPath, read).config == read(path).value
        && Start(argv, defaultPath, read).level == EffectiveLevel(parsed.logLevel, read(path).value.telemetry.value.logLevel))
  {
  }

  /** A level named on the command line overrides a valid configured level, and start-up
      then fails exactly when that flag names no level. */
  lemma FlagLevelDecides(argv: seq<string>, defaultPath: string, read: string -> Result<ConfigJson, string>, x: string)
    requires |argv| >= 2 && argv[2..] == ["--log-level", x]
    requires x != ""
    requires read(defaultPath).Ok? && CliCheckConfig(read(defaultPath).value).Ok?
    ensures Start(argv, defaultPath, read).Started? <==> ValidateLogLevel(x)
    ensures Start(argv, defaultPath, read).Failed? ==> Start(argv, defaultPath, read).message == InvalidLevel(x)
  {
    assert UserArgs(argv) == ["--log-level", x] + [];
    FlagConsumesValue(x, [], NoArgs);
    assert Scan(UserArgs(argv), 0, NoArgs) == ParsedArgs(None, Some(x));
  }

  /** What `main` of `cli.ts` and `cli.js` returns and prints: 0 and the "Loaded
      configuration" line when the level shows it, or 1 and the error message. */
  datatype Outcome = Outcome(code: int, stderr: seq<string>, info: seq<string>)

  function MainResult(argv: seq<string>, defaultPath: string, read: string -> Result<ConfigJson, string>): (o: Outcome)
    ensures o.code == 0 <==> Start(argv, defaultPath, read).Started?
    ensures o.code == 1 <==> Start(argv, defaultPath, read).Failed?
    ensures o.code == 1 ==> o.stderr == [Start(argv, defaultPath, read).message] && o.info == []
    ensures o.code == 0 ==> o.stderr == []
    ensures o.code == 0 ==> (|o.info| == 1 <==> Rank(Info) <= Rank(ParseLevel(Start(argv, defaultPath, read).level).value))
  {
    match Start(argv, defaultPath, read)
    case Failed(m) => Outcome(1, [m], [])
    case Started(path, level, _) =>
      ValidateLogLevelSpec(level, Info);
      Outcome(0, [], if ShouldLog(level, Info) then ["Loaded configuration from " + path] else [])
  }

  /** The renderer's `error` handler in `cli.mjs`: log the message at error level, stop
      the sender, then the renderer, and exit with 2. A sender whose sockets are already
      closed throws from `stop`; the handler ends there and the uncaught exception exits
      with 1. */
  method OnRendererError(sender: UdpSender, rp: RendererProcess, level: string, message: string)
    returns (code: int, printed: seq<string>, thrown: bool, ghost calls: seq<Call>)
    requires ValidateLogLevel(level) && sender.Valid()
    modifies sender, rp
    ensures printed == [message]
    ensures thrown <==> exists s :: s in old(sender.sockets) && old(sender.sockets)[s] == Closed
    ensures forall s :: s in sender.timers ==> sender.timers[s] == Cleared
    ensures !thrown ==>
      && code == 2 && calls == [StopSender, StopRenderer]
      && (forall s :: s in sender.sockets ==> sender.sockets[s] == Closed)
      && rp.killed == old(rp.killed) + (if old(rp.child).Some? then [old(rp.child).value] else [])
    ensures thrown ==> code == 1 && calls == [StopSender] && unchanged(rp)
  {
    ValidateLogLevelSpec(level, Error);
    ShouldLogSpec(ParseLevel(level).value, Error, Error);
    printed := if ShouldLog(level, Error) then [message] else [];
    thrown, calls := sender.Stop([]);
    if thrown {
      code := 1;
      return;
    }
    calls := rp.Stop(calls);
    code := 2;
  }

  /** The SIGINT/SIGTERM handler in `cli.mjs`: stop the sender, then the renderer, and
      exit with 0. A sender whose sockets are already closed throws from `stop`; the handler
      ends there and the uncaught exception exits with 1. */
  method Shutdown(sender: UdpSender, rp: RendererProcess) returns (code: int, thrown: bool, ghost calls: seq<Call>)
    requires sender.Valid()
    modifies sender, rp
    ensures thrown <==> exists s :: s in old(sender.sockets) && old(sender.sockets)[s] == Closed
    ensures forall s :: s in sender.timers ==> sender.timers[s] == Cleared
    ensures !thrown ==>
      && code == 0 && calls == [StopSender, StopRenderer]
      && (forall s :: s in sender.sockets ==> sender.sockets[s] == Closed)
      && rp.killed == old(rp.killed) + (if old(rp.child).Some? then [old(rp.child).value] else [])
    ensures thrown ==> code == 1 && calls == [StopSender] && unchanged(rp)
  {
    thrown, calls := sender.Stop([]);
    if thrown {
      code := 1;
      return;
    }
    calls := rp.Stop(calls);
    code := 0;
  }
}
