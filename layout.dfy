/** The layout validators: the checks a parsed side layout must pass (runs array,
    port base, static IP, unique run indices, section sums) and the one warning
    about `total_leds`. `JSON.parse` and file reading are abstract: the validators
    receive the parsed value. */
module Layout {
  import opened Common
  import Assembler

  /** A parsed layout. `runs` is None when it is not an array, `portBase` when it is
      not a number, `staticIp` when it is not an array (an element is None when it is
      not an integer), `totalLeds` when it is absent. */
  datatype LayoutJson = LayoutJson(
    runs: Option<seq<RunConfig>>,
    portBase: Option<int>,
    staticIp: Option<seq<Option<int>>>,
    totalLeds: Option<int>)

  const RunsMessage := "Layout must have a runs array"
  const PortBaseMessage := "Layout must include numeric port_base"
  const StaticIpMessage := "Layout must include static_ip [a,b,c,d]"

  function DuplicateMessage(runIndex: int): string
  {
    "Duplicate run_index " + IntToString(runIndex)
  }

  /** `(run.sections || []).reduce(...)`: absent sections count as 0. */
  function SectionSum(run: RunConfig): int
  {
    Sum(run.sections.GetOr([]))
  }

  function SumMessage(run: RunConfig): string
  {
    "run_index " + IntToString(run.runIndex) + " led_count " + IntToString(run.ledCount)
      + " does not match sections sum " + IntToString(SectionSum(run))
  }

  /** How `${layout.total_leds}` prints. */
  function TotalText(t: Option<int>): string
  {
    match t
    case Some(n) => IntToString(n)
    case None => "undefined"
  }

  function TotalWarning(filePath: string, totalLeds: Option<int>, total: int): string
  {
    "Layout " + filePath + " total_leds " + TotalText(totalLeds) + " does not equal sum of runs " + IntToString(total)
  }

  /** The run indices of a list of runs. */
  function Indices(runs: seq<RunConfig>): set<int>
  {
    set k | 0 <= k < |runs| :: runs[k].runIndex
  }

  /** The sum of the runs' `led_count`s. */
  function LedTotal(runs: seq<RunConfig>): int
  {
    if runs == [] then 0 else LedTotal(runs[..|runs| - 1]) + runs[|runs| - 1].ledCount
  }

  /** The loop over runs: the first failure (a duplicate index is checked before the
      section sum), else the total of the run counts. */
  function RunsCheck(runs: seq<RunConfig>): Result<int, string>
  {
    if runs == [] then Ok(0)
    else
      match RunsCheck(runs[..|runs| - 1])
      case Err(e) => Err(e)
      case Ok(total) =>
        var run := runs[|runs| - 1];
        if run.runIndex in Indices(runs[..|runs| - 1]) then Err(DuplicateMessage(run.runIndex))
        else if SectionSum(run) != run.ledCount then Err(SumMessage(run))
        else Ok(total + run.ledCount)
  }

  /** What an accepted list of runs satisfies: pairwise distinct indices and every
      run's section counts adding up to its own count. */
  predicate RunsOk(runs: seq<RunConfig>)
  {
    && (forall i, j :: 0 <= i < j < |runs| ==> runs[i].runIndex != runs[j].runIndex)
    && (forall k :: 0 <= k < |runs| ==> SectionSum(runs[k]) == runs[k].ledCount)
  }

  lemma IndicesSnoc(runs: seq<RunConfig>)
    requires runs != []
    ensures Indices(runs) == Indices(runs[..|runs| - 1]) + {runs[|runs| - 1].runIndex}
  {
    var init := runs[..|runs| - 1];
    forall x | x in Indices(runs)
      ensures x in Indices(init) + {runs[|runs| - 1].runIndex}
    {
      var k :| 0 <= k < |runs| && runs[k].runIndex == x;
      if k < |init| {
        assert init[k].runIndex == x;
      }
    }
    forall x | x in Indices(init)
      ensures x in Indices(runs)
    {
      var k :| 0 <= k < |init| && init[k].runIndex == x;
      assert runs[k].runIndex == x;
    }
  }

  /** The runs pass exactly when indices are distinct and every sum matches; the value
      passed on is then the total LED count. */
  lemma {:induction false} RunsCheckOkIff(runs: seq<RunConfig>)
    ensures RunsCheck(runs).Ok? <==> RunsOk(runs)
    ensures RunsCheck(runs).Ok? ==> RunsCheck(runs).value == LedTotal(runs)
  {
    if runs != [] {
      var n := |runs| - 1;
      var init := runs[..n];
      RunsCheckOkIff(init);
      assert forall k :: 0 <= k < n ==> init[k] == runs[k];
      if RunsOk(runs) {
        assert RunsOk(init);
        assert forall k :: 0 <= k < n ==> init[k].runIndex != runs[n].runIndex;
        assert runs[n].runIndex !in Indices(init);
      }
      if RunsCheck(runs).Ok? {
        assert RunsOk(init);
        forall i, j | 0 <= i < j < |runs|
          ensures runs[i].runIndex != runs[j].runIndex
        {
          if j == n {
            assert init[i].runIndex in Indices(init);
          } else {
            assert init[i] == runs[i] && init[j] == runs[j];
          }
        }
      }
    }
  }

  /** Run `i` is rejected with `error`: it repeats an earlier index, or else its
      sections do not add up to its count. */
  predicate FailsAt(runs: seq<RunConfig>, i: nat, error: string)
    requires i < |runs|
  {
    if runs[i].runIndex in Indices(runs[..i]) then error == DuplicateMessage(runs[i].runIndex)
    else SectionSum(runs[i]) != runs[i].ledCount && error == SumMessage(runs[i])
  }

  /** On failure, the error belongs to the first offending run: every earlier run is
      fine, and the run either repeats an earlier index or has a mismatched sum. */
  lemma {:induction false} RunsCheckFirstError(runs: seq<RunConfig>)
    requires RunsCheck(runs).Err?
    ensures exists i :: 0 <= i < |runs| && RunsOk(runs[..i]) && FailsAt(runs, i, RunsCheck(runs).error)
  {
    var n := |runs| - 1;
    var init := runs[..n];
    assert forall k :: 0 <= k < n ==> init[k] == runs[k];
    if RunsCheck(init).Err? {
      RunsCheckFirstError(init);
      var i :| 0 <= i < |init| && RunsOk(init[..i]) && FailsAt(init, i, RunsCheck(init).error);
      assert init[..i] == runs[..i];
      assert init[i] == runs[i];
      assert FailsAt(runs, i, RunsCheck(runs).error);
    } else {
      RunsCheckOkIff(init);
      assert runs[..n] == init;
    }
  }

  /** The static IP check: an array of exactly four integers in 0..255. */
  predicate StaticIpOk(ip: Option<seq<Option<int>>>)
  {
    ip.Some? && |ip.value| == 4 && forall k :: 0 <= k < 4 ==> ip.value[k].Some? && 0 <= ip.value[k].value <= 255
  }

  /** `loadLayout` of `load-layout.mjs`, after parsing: the checks in order, then the
      parsed layout itself. `None` is a parse result that is not an object. */
  function ValidateLayout(parsed: Option<LayoutJson>): Result<LayoutJson, string>
  {
    if parsed.None? || parsed.value.runs.None? then Err(RunsMessage)
    else if parsed.value.portBase.None? then Err(PortBaseMessage)
    else if !StaticIpOk(parsed.value.staticIp) then Err(StaticIpMessage)
    else
      match RunsCheck(parsed.value.runs.value)
      case Err(e) => Err(e)
      case Ok(_) => Ok(parsed.value)
  }

  /** An accepted layout has a runs array, a numeric port base, a four-octet static IP,
      distinct run indices and matching section sums; it is returned unchanged; and the
      first failing check decides the message. */
  lemma ValidateLayoutSpec(parsed: Option<LayoutJson>)
    ensures ValidateLayout(parsed).Ok? <==>
      && parsed.Some? && parsed.value.runs.Some? && parsed.value.portBase.Some?
      && StaticIpOk(parsed.value.staticIp) && RunsOk(parsed.value.runs.value)
    ensures ValidateLayout(parsed).Ok? ==> ValidateLayout(parsed).value == parsed.value
    ensures parsed.None? || parsed.value.runs.None? ==> ValidateLayout(parsed) == Err(RunsMessage)
    ensures parsed.Some? && parsed.value.runs.Some? && parsed.value.portBase.None? ==>
      ValidateLayout(parsed) == Err(PortBaseMessage)
    ensures parsed.Some? && parsed.value.runs.Some? && parsed.value.portBase.Some? && !StaticIpOk(parsed.value.staticIp) ==>
      ValidateLayout(parsed) == Err(StaticIpMessage)
  {
    if parsed.Some? && parsed.value.runs.Some? {
      RunsCheckOkIff(parsed.value.runs.value);
    }
  }

  /** `loadLayout` of `layout.ts`: only the runs checks. */
  function ValidateLayoutTs(parsed: Option<LayoutJson>): Result<LayoutJson, string>
  {
    if parsed.None? || parsed.value.runs.None? then Err(RunsMessage)
    else
      match RunsCheck(parsed.value.runs.value)
      case Err(e) => Err(e)
      case Ok(_) => Ok(parsed.value)
  }

  /** The older validator accepts exactly the layouts with a runs array whose indices
      are distinct and whose sums match, returns them unchanged, and accepts everything
      the newer one accepts. */
  lemma ValidateLayoutTsSpec(parsed: Option<LayoutJson>)
    ensures ValidateLayoutTs(parsed).Ok? <==>
      parsed.Some? && parsed.value.runs.Some? && RunsOk(parsed.value.runs.value)
    ensures ValidateLayoutTs(parsed).Ok? ==> ValidateLayoutTs(parsed).value == parsed.value
    ensures ValidateLayout(parsed).Ok? ==> ValidateLayoutTs(parsed) == ValidateLayout(parsed)
  {
    if parsed.Some? && parsed.value.runs.Some? {
      RunsCheckOkIff(parsed.value.runs.value);
    }
  }

  /** The warning of an accepted layout: one exactly when `total_leds` differs from
      the sum of the run counts. */
  function Warnings(filePath: string, l: LayoutJson): (w: seq<string>)
    requires l.runs.Some?
    ensures |w| <= 1
    ensures |w| == 1 <==> l.totalLeds != Some(LedTotal(l.runs.value))
  {
    var total := LedTotal(l.runs.value);
    if l.totalLeds != Some(total) then [TotalWarning(filePath, l.totalLeds, total)] else []
  }

  /** The loop over runs, with its `runIndices` set and its running total. */
  method CheckRuns(runs: seq<RunConfig>) returns (r: Result<int, string>)
    ensures r == RunsCheck(runs)
  {
    var runIndices: set<int> := {};
    var totalRunLeds := 0;
    var i := 0;
    while i < |runs|
      invariant 0 <= i <= |runs|
      invariant RunsCheck(runs[..i]) == Ok(totalRunLeds)
      invariant runIndices == Indices(runs[..i])
    {
      var run := runs[i];
      assert runs[..i + 1][..i] == runs[..i];
      assert runs[..i + 1][i] == run;
      if run.runIndex in runIndices {
        RunsCheckPrefixError(runs, i + 1);
        return Err(DuplicateMessage(run.runIndex));
      }
      IndicesSnoc(runs[..i + 1]);
      runIndices := runIndices + {run.runIndex};
      var sectionSum := SectionSum(run);
      if sectionSum != run.ledCount {
        RunsCheckPrefixError(runs, i + 1);
        return Err(SumMessage(run));
      }
      totalRunLeds := totalRunLeds + run.ledCount;
      i := i + 1;
    }
    assert runs[..i] == runs;
    r := Ok(totalRunLeds);
  }

  lemma RunsCheckPrefixError(runs: seq<RunConfig>, k: nat)
    requires k <= |runs|
    requires RunsCheck(runs[..k]).Err?
    ensures RunsCheck(runs) == RunsCheck(runs[..k])
    decreases |runs| - k
  {
    if k < |runs| {
      assert runs[..k + 1][..k] == runs[..k];
      RunsCheckPrefixError(runs, k + 1);
    } else {
      assert runs[..k] == runs;
    }
  }

  /** `loadLayout` of `load-layout.mjs`: the result and the warnings it logs. */
  method LoadLayout(filePath: string, parsed: Option<LayoutJson>) returns (r: Result<LayoutJson, string>, warnings: seq<string>)
    ensures r == ValidateLayout(parsed)
    ensures warnings == if r.Ok? then Warnings(filePath, r.value) else []
  {
    warnings := [];
    if parsed.None? || parsed.value.runs.None? {
      return Err(RunsMessage), warnings;
    }
    var layout := parsed.value;
    if layout.portBase.None? {
      return Err(PortBaseMessage), warnings;
    }
    if !StaticIpOk(layout.staticIp) {
      return Err(StaticIpMessage), warnings;
    }
    var checked := CheckRuns(layout.runs.value);
    if checked.Err? {
      return Err(checked.error), warnings;
    }
    RunsCheckOkIff(layout.runs.value);
    if layout.totalLeds != Some(checked.value) {
      warnings := [TotalWarning(filePath, layout.totalLeds, checked.value)];
    }
    r := Ok(layout);
  }

  /** `loadLayout` of `layout.ts`. */
  method LoadLayoutTs(filePath: string, parsed: Option<LayoutJson>) returns (r: Result<LayoutJson, string>, warnings: seq<string>)
    ensures r == ValidateLayoutTs(parsed)
    ensures warnings == if r.Ok? then Warnings(filePath, r.value) else []
  {
    warnings := [];
    if parsed.None? || parsed.value.runs.None? {
      return Err(RunsMessage), warnings;
    }
    var layout := parsed.value;
    var checked := CheckRuns(layout.runs.value);
    if checked.Err? {
      return Err(checked.error), warnings;
    }
    RunsCheckOkIff(layout.runs.value);
    if layout.totalLeds != Some(checked.value) {
      warnings := [TotalWarning(filePath, layout.totalLeds, checked.value)];
    }
    r := Ok(layout);
  }

  /** `loadLayouts`: the left layout, then the right one, each through `loadLayout`;
      the first failure is the result. */
  method LoadLayouts(leftPath: string, leftParsed: Option<LayoutJson>, rightPath: string, rightParsed: Option<LayoutJson>)
    returns (r: Result<(LayoutJson, LayoutJson), string>, warnings: seq<string>)
    ensures ValidateLayoutTs(leftParsed).Err? ==> r == Err(ValidateLayoutTs(leftParsed).error) && warnings == []
    ensures ValidateLayoutTs(leftParsed).Ok? && ValidateLayoutTs(rightParsed).Err? ==>
      r == Err(ValidateLayoutTs(rightParsed).error) && warnings == Warnings(leftPath, leftParsed.value)
    ensures r.Ok? <==> ValidateLayoutTs(leftParsed).Ok? && ValidateLayoutTs(rightParsed).Ok?
    ensures r.Ok? ==>
      && r.value == (leftParsed.value, rightParsed.value)
      && warnings == Warnings(leftPath, leftParsed.value) + Warnings(rightPath, rightParsed.value)
  {
    var left, lw := LoadLayoutTs(leftPath, leftParsed);
    if left.Err? {
      return Err(left.error), lw;
    }
    var right, rw := LoadLayoutTs(rightPath, rightParsed);
    warnings := lw + rw;
    ValidateLayoutTsSpec(leftParsed);
    if right.Err? {
      return Err(right.error), warnings;
    }
    ValidateLayoutTsSpec(rightParsed);
    r := Ok((left.value, right.value));
  }

  /** An accepted layout whose runs all carry sections with non-negative counts fits
      the assembler on every frame: no run buffer is overrun. */
  lemma AcceptedLayoutFits(parsed: Option<LayoutJson>, payloads: map<string, SectionPayload>)
    requires ValidateLayoutTs(parsed).Ok?
    requires forall k :: 0 <= k < |parsed.value.runs.value| ==> parsed.value.runs.value[k].sections.Some?
    requires forall k, j :: 0 <= k < |parsed.value.runs.value| && 0 <= j < |parsed.value.runs.value[k].sections.value| ==>
      parsed.value.runs.value[k].sections.value[j].ledCount >= 0
    ensures forall k :: 0 <= k < |parsed.value.runs.value| ==> Assembler.RunFits(parsed.value.runs.value[k], payloads)
  {
    var runs := parsed.value.runs.value;
    ValidateLayoutTsSpec(parsed);
    forall k | 0 <= k < |runs|
      ensures Assembler.RunFits(runs[k], payloads)
    {
      var secs := runs[k].sections.value;
      SumNonNegative(secs);
      forall n | 0 < n <= |secs|
        ensures Sum(secs[..n]) <= runs[k].ledCount
      {
        SumPrefixBound(secs, n);
      }
    }
  }

  /** With non-negative counts, no prefix of the sections counts more than all of them. */
  lemma {:induction false} SumPrefixBound(secs: seq<SectionConfig>, n: nat)
    requires n <= |secs|
    requires forall k :: 0 <= k < |secs| ==> secs[k].ledCount >= 0
    ensures Sum(secs[..n]) <= Sum(secs)
    decreases |secs|
  {
    if n < |secs| {
      var init := secs[..|secs| - 1];
      assert secs[..n] == init[..n];
      SumPrefixBound(init, n);
    } else {
      assert secs[..n] == secs;
    }
  }

  /** Without that hypothesis an accepted layout can still make the assembler throw: the
      counts 5 and -2 add up to a run of 3, and a frame whose first section has its 15
      bytes overruns the 9-byte buffer. */
  lemma NegativeSectionOverruns()
    ensures var run := RunConfig(0, 3, Some([SectionConfig("a", 5), SectionConfig("b", -2)]));
      && ValidateLayoutTs(Some(LayoutJson(Some([run]), None, None, None))).Ok?
      && !Assembler.RunFits(run, map["a" := SectionPayload(15, seq(15, _ => 0))])
  {
    var run := RunConfig(0, 3, Some([SectionConfig("a", 5), SectionConfig("b", -2)]));
    var secs := run.sections.value;
    var payloads := map["a" := SectionPayload(15, seq(15, _ => 0))];
    assert secs[..1] == [secs[0]];
    assert [secs[0]][..0] == [];
    assert Assembler.SectionBytes(secs[..1], payloads).Ok?;
    assert Sum(secs[..1]) == 5;
  }

  lemma {:induction false} SumNonNegative(secs: seq<SectionConfig>)
    requires forall k :: 0 <= k < |secs| ==> secs[k].ledCount >= 0
    ensures Sum(secs) >= 0
  {
    if secs != [] {
      SumNonNegative(secs[..|secs| - 1]);
    }
  }
}
