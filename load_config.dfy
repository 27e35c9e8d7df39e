/** The sender configuration loader: the checks on the parsed configuration file, in
    order, and where each side's layout file is looked for. Reading the file and
    `JSON.parse` are abstract, and so is the file system: the loader is told which
    relative layout paths exist under the configuration's directory and under the
    current directory. */
module LoadConfig {
  import opened Common
  import opened LogLevel

  /** `renderer`: `cmd` is None when it is not a string, `args` when it is not an array. */
  datatype RendererJson = RendererJson(cmd: Option<string>, args: Option<seq<string>>)

  /** `telemetry`: `intervalMs` is None when it is not an integer; `logLevel` is None when
      it is absent (a falsy non-string behaves the same); a truthy non-string level is not
      represented. */
  datatype TelemetryJson = TelemetryJson(intervalMs: Option<int>, logLevel: Option<string>)

  /** A parsed configuration. A section that is absent or falsy is None; `sides` is the
      list of entries of the `sides` object, each value None when it is not a string. */
  datatype ConfigJson = ConfigJson(
    renderer: Option<RendererJson>,
    sides: Option<seq<(string, Option<string>)>>,
    telemetry: Option<TelemetryJson>)

  const RendererCmdMessage := "renderer.cmd must be a non-empty string"
  const RendererArgsMessage := "renderer.args must be an array"
  const SidesMessage := "Missing sides configuration"
  const TelemetryMessage := "Missing telemetry configuration"
  const IntervalMessage := "telemetry.interval_ms must be a positive integer"

  function NotStringMessage(sideName: string): string
  {
    "side " + sideName + " layout must be a string"
  }

  function NotFoundMessage(sideName: string, rel: string): string
  {
    "Layout file not found for side " + sideName + ": " + rel
  }

  function InvalidLevelMessage(level: string): string
  {
    "Invalid telemetry.log_level: " + level
  }

  /** Where a layout file was found. */
  datatype Place = ConfigDirectory | WorkingDirectory

  /** The layout path resolution: the configuration's directory first, then the current
      directory. */
  function Locate(rel: string, inConfigDir: set<string>, inCwd: set<string>): (p: Option<Place>)
    ensures p == Some(ConfigDirectory) <==> rel in inConfigDir
    ensures p == Some(WorkingDirectory) <==> rel !in inConfigDir && rel in inCwd
    ensures p.None? <==> rel !in inConfigDir && rel !in inCwd
  {
    if rel in inConfigDir then Some(ConfigDirectory)
    else if rel in inCwd then Some(WorkingDirectory)
    else None
  }

  /** The loop over side entries: the first entry whose layout is not a string or cannot
      be found decides the error. */
  function SidesCheck(entries: seq<(string, Option<string>)>, inConfigDir: set<string>, inCwd: set<string>): Option<string>
  {
    if entries == [] then None
    else
      var n := |entries| - 1;
      match SidesCheck(entries[..n], inConfigDir, inCwd)
      case Some(e) => Some(e)
      case None =>
        var (sideName, rel) := entries[n];
        if rel.None? then Some(NotStringMessage(sideName))
        else if Locate(rel.value, inConfigDir, inCwd).None? then Some(NotFoundMessage(sideName, rel.value))
        else None
  }

  /** A side entry that passes: a string path that exists in one of the two places. */
  predicate SideOk(entry: (string, Option<string>), inConfigDir: set<string>, inCwd: set<string>)
  {
    entry.1.Some? && Locate(entry.1.value, inConfigDir, inCwd).Some?
  }

  /** The side entries pass exactly when each of them does; on failure the error names
      the first entry that does not. */
  lemma {:induction false} SidesCheckSpec(entries: seq<(string, Option<string>)>, inConfigDir: set<string>, inCwd: set<string>)
    ensures SidesCheck(entries, inConfigDir, inCwd).None? <==>
      forall k :: 0 <= k < |entries| ==> SideOk(entries[k], inConfigDir, inCwd)
    ensures SidesCheck(entries, inConfigDir, inCwd).Some? ==>
      exists i :: 0 <= i < |entries| && !SideOk(entries[i], inConfigDir, inCwd)
        && (forall k :: 0 <= k < i ==> SideOk(entries[k], inConfigDir, inCwd))
        && SidesCheck(entries, inConfigDir, inCwd).value ==
          (if entries[i].1.None? then NotStringMessage(entries[i].0) else NotFoundMessage(entries[i].0, entries[i].1.value))
  {
    if entries != [] {
      var n := |entries| - 1;
      var init := entries[..n];
      SidesCheckSpec(init, inConfigDir, inCwd);
      assert forall k :: 0 <= k < n ==> init[k] == entries[k];
      if SidesCheck(init, inConfigDir, inCwd).Some? {
        var i :| 0 <= i < |init| && !SideOk(init[i], inConfigDir, inCwd)
          && (forall k :: 0 <= k < i ==> SideOk(init[k], inConfigDir, inCwd))
          && SidesCheck(init, inConfigDir, inCwd).value ==
            (if init[i].1.None? then NotStringMessage(init[i].0) else NotFoundMessage(init[i].0, init[i].1.value));
        assert entries[i] == init[i];
      }
    }
  }

  /** The `log_level` check: absent or empty passes; anything else must be a level. */
  predicate LevelOk(level: Option<string>)
  {
    level.None? || level.value == "" || ValidateLogLevel(level.value)
  }

  /** `loadConfig` after parsing: the checks in order, then the parsed configuration. */
  function CheckConfig(c: ConfigJson, inConfigDir: set<string>, inCwd: set<string>): Result<ConfigJson, string>
  {
    if c.renderer.None? || c.renderer.value.cmd.None? || c.renderer.value.cmd.value == [] then Err(RendererCmdMessage)
    else if c.renderer.value.args.None? then Err(RendererArgsMessage)
    else if c.sides.None? then Err(SidesMessage)
    else if SidesCheck(c.sides.value, inConfigDir, inCwd).Some? then Err(SidesCheck(c.sides.value, inConfigDir, inCwd).value)
    else if c.telemetry.None? then Err(TelemetryMessage)
    else if c.telemetry.value.intervalMs.None? || c.telemetry.value.intervalMs.value <= 0 then Err(IntervalMessage)
    else if !LevelOk(c.telemetry.value.logLevel) then Err(InvalidLevelMessage(c.telemetry.value.logLevel.value))
    else Ok(c)
  }

  /** Everything an accepted configuration satisfies. */
  predicate ConfigOk(c: ConfigJson, inConfigDir: set<string>, inCwd: set<string>)
  {
    && c.renderer.Some? && c.renderer.value.cmd.Some? && |c.renderer.value.cmd.value| > 0
    && c.renderer.value.args.Some?
    && c.sides.Some? && (forall k :: 0 <= k < |c.sides.value| ==> SideOk(c.sides.value[k], inConfigDir, inCwd))
    && c.telemetry.Some? && c.telemetry.value.intervalMs.Some? && c.telemetry.value.intervalMs.value > 0
    && LevelOk(c.telemetry.value.logLevel)
  }

  /** A configuration is accepted exactly when it has a non-empty command, an argument
      array, sides whose layouts are all strings found in one of the two places, a
      telemetry section with a positive interval and a valid or absent level; it is
      then returned unchanged. */
  lemma CheckConfigSpec(c: ConfigJson, inConfigDir: set<string>, inCwd: set<string>)
    ensures CheckConfig(c, inConfigDir, inCwd).Ok? <==> ConfigOk(c, inConfigDir, inCwd)
    ensures CheckConfig(c, inConfigDir, inCwd).Ok? ==> CheckConfig(c, inConfigDir, inCwd).value == c
  {
    if c.sides.Some? {
      SidesCheckSpec(c.sides.value, inConfigDir, inCwd);
    }
  }

  /** `loadConfig`, with its loop over the side entries. */
  method LoadConfig(c: ConfigJson, inConfigDir: set<string>, inCwd: set<string>) returns (r: Result<ConfigJson, string>)
    ensures r == CheckConfig(c, inConfigDir, inCwd)
  {
    if c.renderer.None? || c.renderer.value.cmd.None? || |c.renderer.value.cmd.value| == 0 {
      return Err(RendererCmdMessage);
    }
    if c.renderer.value.args.None? {
      return Err(RendererArgsMessage);
    }
    if c.sides.None? {
      return Err(SidesMessage);
    }
    var entries := c.sides.value;
    var i := 0;
    while i < |entries|
      invariant 0 <= i <= |entries|
      invariant SidesCheck(entries[..i], inConfigDir, inCwd).None?
    {
      var (sideName, rel) := entries[i];
      assert entries[..i + 1][..i] == entries[..i];
      if rel.None? {
        SidesCheckPrefix(entries, i + 1, inConfigDir, inCwd);
        return Err(NotStringMessage(sideName));
      }
      var place := Locate(rel.value, inConfigDir, inCwd);
      if place.None? {
        SidesCheckPrefix(entries, i + 1, inConfigDir, inCwd);
        return Err(NotFoundMessage(sideName, rel.value));
      }
      i := i + 1;
    }
    assert entries[..i] == entries;
    if c.telemetry.None? {
      return Err(TelemetryMessage);
    }
    var interval := c.telemetry.value.intervalMs;
    if interval.None? || interval.value <= 0 {
      return Err(IntervalMessage);
    }
    var logLevel := c.telemetry.value.logLevel;
    if logLevel.Some? && logLevel.value != "" && !ValidateLogLevel(logLevel.value) {
      return Err(InvalidLevelMessage(logLevel.value));
    }
    r := Ok(c);
  }

  /** Once a prefix of the entries fails, the whole list fails the same way. */
  lemma SidesCheckPrefix(entries: seq<(string, Option<string>)>, k: nat, inConfigDir: set<string>, inCwd: set<string>)
    requires k <= |entries|
    requires SidesCheck(entries[..k], inConfigDir, inCwd).Some?
    ensures SidesCheck(entries, inConfigDir, inCwd) == SidesCheck(entries[..k], inConfigDir, inCwd)
    decreases |entries| - k
  {
    if k < |entries| {
      assert entries[..k + 1][..k] == entries[..k];
      SidesCheckPrefix(entries, k + 1, inConfigDir, inCwd);
    } else {
      assert entries[..k] == entries;
    }
  }
}
