/** The renderer process wrapper: which stdout lines become `FrameIngest` events, and
    which exits become errors. The child process and `JSON.parse` are abstract: each
    line arrives with what parsing it produced. */
module RendererProcess {
  import opened Common

  /** What `JSON.parse` made of one line. */
  datatype ParseResult = ParseFailure | ParsedFrame(frame: IngestFrame)

  /** One stdout line: its text and its parse. */
  datatype Line = Line(raw: string, parsed: ParseResult)

  datatype LineOutcome = Emit(frame: IngestFrame) | Reject(message: string)

  /** How `${parsed.format}` prints: the string itself, or "undefined" when absent. */
  function FormatText(format: Option<string>): string
  {
    match format
    case Some(f) => f
    case None => "undefined"
  }

  /** The line handler's decision for one line. */
  function ClassifyLine(line: Line): (o: LineOutcome)
    ensures o.Emit? <==> line.parsed.ParsedFrame? && line.parsed.frame.format == Some("rgb8")
    ensures o.Emit? ==> o.frame == line.parsed.frame
    ensures line.parsed.ParseFailure? ==> o == Reject("Failed to parse NDJSON line: " + line.raw)
    ensures line.parsed.ParsedFrame? && line.parsed.frame.format != Some("rgb8") ==>
      o == Reject("Unsupported format: " + FormatText(line.parsed.frame.format))
  {
    match line.parsed
    case ParseFailure => Reject("Failed to parse NDJSON line: " + line.raw)
    case ParsedFrame(f) =>
      if f.format != Some("rgb8") then Reject("Unsupported format: " + FormatText(f.format))
      else Emit(f)
  }

  /** The frames emitted and the lines logged for a stream of lines. */
  function Ingest(lines: seq<Line>): (seq<IngestFrame>, seq<string>)
  {
    if lines == [] then ([], [])
    else
      var (frames, log) := Ingest(lines[..|lines| - 1]);
      match ClassifyLine(lines[|lines| - 1])
      case Emit(f) => (frames + [f], log)
      case Reject(m) => (frames, log + [m])
  }

  /** A bad line never stops later lines: the outcome of a stream is the outcome of
      its first part followed by the outcome of the rest. */
  lemma {:induction false} IngestAppend(a: seq<Line>, b: seq<Line>)
    ensures Ingest(a + b).0 == Ingest(a).0 + Ingest(b).0
    ensures Ingest(a + b).1 == Ingest(a).1 + Ingest(b).1
    decreases |b|
  {
    if b == [] {
      assert a + b == a;
    } else {
      var n := |b| - 1;
      assert (a + b)[..|a + b| - 1] == a + b[..n];
      assert (a + b)[|a + b| - 1] == b[n];
      IngestAppend(a, b[..n]);
    }
  }

  /** Every line yields exactly one frame or one log line; every emitted frame is an
      `rgb8` frame parsed from some line of the stream. */
  lemma {:induction false} IngestSpec(lines: seq<Line>)
    ensures |Ingest(lines).0| + |Ingest(lines).1| == |lines|
    ensures forall f :: f in Ingest(lines).0 ==>
      f.format == Some("rgb8") && exists k :: 0 <= k < |lines| && lines[k].parsed == ParsedFrame(f)
  {
    if lines != [] {
      var n := |lines| - 1;
      IngestSpec(lines[..n]);
      forall f | f in Ingest(lines).0
        ensures f.format == Some("rgb8") && exists k :: 0 <= k < |lines| && lines[k].parsed == ParsedFrame(f)
      {
        if f in Ingest(lines[..n]).0 {
          var k :| 0 <= k < n && lines[..n][k].parsed == ParsedFrame(f);
          assert lines[k] == lines[..n][k];
        } else {
          assert lines[n].parsed == ParsedFrame(f);
        }
      }
    }
  }

  /** How the exit code prints: the number, or "null" when the child was killed. */
  function CodeText(code: Option<nat>): string
  {
    match code
    case Some(c) => NatToString(c)
    case None => "null"
  }

  /** The exit handler's decision: an error for any exit other than code 0, naming the
      code and, when there is one, the signal. */
  function ExitError(code: Option<nat>, signal: Option<string>): (r: Option<string>)
    ensures r.None? <==> code == Some(0)
    ensures r.Some? ==> |ExitPrefix| <= |r.value| && r.value[..|ExitPrefix|] == ExitPrefix
  {
    if code == Some(0) then None
    else Some(ExitPrefix + CodeText(code) + SignalText(signal))
  }

  /** `${signal ? ` and signal ${signal}` : ''}`: a missing or empty signal prints nothing. */
  function SignalText(signal: Option<string>): string
  {
    if signal.Some? && signal.value != "" then " and signal " + signal.value else ""
  }

  const ExitPrefix := "Renderer exited with code "

  /** The message of an exit without a signal: the prefix and the code. */
  lemma ExitMessage(code: Option<nat>)
    requires code != Some(0)
    ensures ExitError(code, None) == Some(ExitPrefix + CodeText(code))
  {
    assert ExitPrefix + CodeText(code) + "" == ExitPrefix + CodeText(code);
  }

  /** Distinct codes print differently. */
  lemma CodeTextInjective(c1: Option<nat>, c2: Option<nat>)
    requires CodeText(c1) == CodeText(c2)
    ensures c1 == c2
  {
    if c1.Some? {
      NotNull(c1.value);
    }
    if c2.Some? {
      NotNull(c2.value);
    }
    if c1.Some? && c2.Some? {
      NatToStringInjective(c1.value, c2.value);
    }
  }

  /** A printed code is never the text printed for a missing code. */
  lemma NotNull(n: nat)
    ensures NatToString(n) != "null"
  {
    var s := NatToString(n);
    assert '0' <= s[0] <= '9';
    assert "null"[0] == 'n';
  }

  /** The message of an exit with a signal: the prefix, the code and the signal. */
  lemma ExitMessageSignal(code: Option<nat>, sig: string)
    requires code != Some(0) && sig != ""
    ensures ExitError(code, Some(sig)) == Some(ExitPrefix + CodeText(code) + " and signal " + sig)
  {
    assert ExitPrefix + CodeText(code) + (" and signal " + sig) == ExitPrefix + CodeText(code) + " and signal " + sig;
  }

  /** A printed code contains no space, so it ends where the signal part begins. */
  lemma CodeTextNoSpace(code: Option<nat>)
    ensures forall i :: 0 <= i < |CodeText(code)| ==> CodeText(code)[i] != ' '
  {
    if code.Some? {
      var t := NatToString(code.value);
      assert AllDigits(t);
    }
  }

  /** Where a text without spaces is followed by nothing or by a space, the text ends
      no earlier than any other text without spaces that starts the same string. */
  lemma SplitBeforeSpace(t1: string, u1: string, t2: string, u2: string)
    requires forall i :: 0 <= i < |t2| ==> t2[i] != ' '
    requires u1 == "" || u1[0] == ' '
    requires t1 + u1 == t2 + u2
    ensures |t2| <= |t1|
  {
    assert u1 != "" ==> (t1 + u1)[|t1|] == u1[0] == ' ';
  }

  /** The exit message determines the exit code and the signal: it names both. */
  lemma ExitErrorNamesCode(c1: Option<nat>, s1: Option<string>, c2: Option<nat>, s2: Option<string>)
    requires ExitError(c1, s1).Some?
    requires ExitError(c1, s1) == ExitError(c2, s2)
    ensures c1 == c2
    ensures (s1.Some? && s1.value != "") <==> (s2.Some? && s2.value != "")
    ensures s1.Some? && s1.value != "" ==> s1 == s2
  {
    var t1, t2 := CodeText(c1), CodeText(c2);
    var u1, u2 := SignalText(s1), SignalText(s2);
    assert ExitPrefix + t1 + u1 == ExitPrefix + (t1 + u1);
    assert ExitPrefix + t2 + u2 == ExitPrefix + (t2 + u2);
    DropPrefix(ExitPrefix, t1 + u1, t2 + u2);
    CodeTextNoSpace(c1);
    CodeTextNoSpace(c2);
    SplitAtSpace(t1, u1, t2, u2);
    CodeTextInjective(c1, c2);
    SignalTextInjective(s1, s2);
  }

  /** Two texts without spaces, each followed by nothing or by a part that starts with a
      space: if the two strings are equal, so are the texts and so are the parts. */
  lemma SplitAtSpace(t1: string, u1: string, t2: string, u2: string)
    requires forall i :: 0 <= i < |t1| ==> t1[i] != ' '
    requires forall i :: 0 <= i < |t2| ==> t2[i] != ' '
    requires u1 == "" || u1[0] == ' '
    requires u2 == "" || u2[0] == ' '
    requires t1 + u1 == t2 + u2
    ensures t1 == t2 && u1 == u2
  {
    SplitBeforeSpace(t1, u1, t2, u2);
    SplitBeforeSpace(t2, u2, t1, u1);
    assert t1 == (t1 + u1)[..|t1|] && t2 == (t2 + u2)[..|t2|];
    assert u1 == (t1 + u1)[|t1|..] && u2 == (t2 + u2)[|t2|..];
  }

  /** Equal strings with the same prefix agree after it. */
  lemma DropPrefix(p: string, a: string, b: string)
    requires p + a == p + b
    ensures a == b
  {
    assert a == (p + a)[|p|..];
    assert b == (p + b)[|p|..];
  }

  /** The signal part of the message determines the signal. */
  lemma SignalTextInjective(s1: Option<string>, s2: Option<string>)
    requires SignalText(s1) == SignalText(s2)
    ensures (s1.Some? && s1.value != "") <==> (s2.Some? && s2.value != "")
    ensures s1.Some? && s1.value != "" ==> s1 == s2
  {
    if s1.Some? && s1.value != "" {
      DropPrefix(" and signal ", s1.value, SignalText(s2)[|" and signal "|..]);
    }
  }

  /** The `renderer` section of the configuration. */
  datatype RendererConfig = RendererConfig(cmd: string, args: seq<string>, cwd: Option<string>)

  /** A spawned child: the command, its arguments, and the working directory if one was set. */
  datatype Child = Child(cmd: string, args: seq<string>, cwd: Option<string>)

  class RendererProcess {
    const config: RendererConfig
    var child: Option<Child>
    ghost var ingested: seq<IngestFrame>  // FrameIngest emissions
    ghost var errors: seq<string>          // error emissions
    ghost var log: seq<string>             // logger.error lines
    ghost var killed: seq<Child>           // child.kill() calls

    constructor (cfg: RendererConfig)
      ensures config == cfg && child == None
      ensures ingested == [] && errors == [] && log == [] && killed == []
    {
      config := cfg;
      child := None;
      ingested := [];
      errors := [];
      log := [];
      killed := [];
    }

    /** `start`: spawn the renderer, in `cwd` only when one is configured. */
    method Start()
      modifies this
      ensures child == Some(Child(config.cmd, config.args,
        if config.cwd.Some? && config.cwd.value != "" then config.cwd else None))
      ensures ingested == old(ingested) && errors == old(errors) && log == old(log) && killed == old(killed)
    {
      var cwd := None;
      if config.cwd.Some? && config.cwd.value != "" {
        cwd := config.cwd;
      }
      child := Some(Child(config.cmd, config.args, cwd));
    }

    /** The `line` handler. */
    method OnLine(line: Line)
      requires child.Some?
      modifies this
      ensures var (frames, lines) := Ingest([line]);
        ingested == old(ingested) + frames && log == old(log) + lines
      ensures child == old(child) && errors == old(errors) && killed == old(killed)
    {
      assert [line][..0] == [];
      match line.parsed {
        case ParseFailure =>
          log := log + ["Failed to parse NDJSON line: " + line.raw];
          return;
        case ParsedFrame(parsed) =>
          if parsed.format != Some("rgb8") {
            log := log + ["Unsupported format: " + FormatText(parsed.format)];
            return;
          }
          ingested := ingested + [parsed];
      }
    }

    /** The `exit` handler. */
    method OnExit(code: Option<nat>, signal: Option<string>)
      requires child.Some?
      modifies this
      ensures code == Some(0) ==> errors == old(errors)
      ensures code != Some(0) ==> errors == old(errors) + [ExitError(code, signal).value]
      ensures child == old(child) && ingested == old(ingested) && log == old(log) && killed == old(killed)
    {
      if code != Some(0) {
        var suffix := if signal.Some? && signal.value != "" then " and signal " + signal.value else "";
        errors := errors + [ExitPrefix + CodeText(code) + suffix];
      }
    }

    /** The child's own `error` event is passed on. */
    method OnChildError(message: string)
      requires child.Some?
      modifies this
      ensures errors == old(errors) + [message]
      ensures child == old(child) && ingested == old(ingested) && log == old(log) && killed == old(killed)
    {
      errors := errors + [message];
    }

    /** `stop`: kill the child if one was started; otherwise nothing. The call is
        appended to the ghost trace `calls`. */
    method Stop(ghost calls: seq<Call>) returns (ghost calls': seq<Call>)
      modifies this
      ensures killed == old(killed) + (if old(child).Some? then [old(child).value] else [])
      ensures child == old(child) && ingested == old(ingested) && errors == old(errors) && log == old(log)
      ensures calls' == calls + [StopRenderer]
    {
      calls' := calls + [StopRenderer];
      if child.Some? {
        killed := killed + [child.value];
      }
    }
  }
}
