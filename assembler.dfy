/** The assembler: turns one ingest frame into at most one assembled frame per
    configured side, checking every section against the side's layout. */
module Assembler {
  import opened Common
  import opened Mailbox

  datatype AssemblyError = MissingSection(id: string) | LengthMismatch(id: string)

  /** The line logged when a side is abandoned. */
  function ErrorMessage(side: Side, e: AssemblyError): string
  {
    match e
    case MissingSection(id) => "Missing section " + id + " for side " + SideName(side)
    case LengthMismatch(id) => "Section " + id + " length mismatch for side " + SideName(side)
  }

  /** A section is usable when the frame has it and it decodes to three bytes per LED. */
  predicate SectionOk(s: SectionConfig, payloads: map<string, SectionPayload>)
  {
    s.id in payloads && |payloads[s.id].rgb| == s.ledCount * 3
  }

  function ErrorFor(s: SectionConfig, payloads: map<string, SectionPayload>): AssemblyError
  {
    if s.id !in payloads then MissingSection(s.id) else LengthMismatch(s.id)
  }

  /** The bytes of a run's sections, in section order, or the first failure. */
  function SectionBytes(secs: seq<SectionConfig>, payloads: map<string, SectionPayload>): Result<seq<byte>, AssemblyError>
  {
    if secs == [] then Ok([])
    else
      match SectionBytes(secs[..|secs| - 1], payloads)
      case Err(e) => Err(e)
      case Ok(b) =>
        var s := secs[|secs| - 1];
        if !SectionOk(s, payloads) then Err(ErrorFor(s, payloads)) else Ok(b + payloads[s.id].rgb)
  }

  /** Where section k starts in the run buffer. */
  function Offset(secs: seq<SectionConfig>, k: nat): int
    requires k <= |secs|
  {
    3 * Sum(secs[..k])
  }

  /** Filling a run does not throw. The source throws in three places: allocating the
      buffer of a negative run count (RangeError), iterating a missing sections array
      (TypeError), and `runBuffer.set` of a section that passed its length check but
      ends past the buffer (RangeError). The last can only happen once every section up
      to it is usable, so the bound is asked only of prefixes whose bytes are built. */
  predicate RunFits(run: RunConfig, payloads: map<string, SectionPayload>)
  {
    && run.sections.Some?
    && run.ledCount >= 0
    && forall k :: 0 < k <= |run.sections.value| && SectionBytes(run.sections.value[..k], payloads).Ok? ==>
         Sum(run.sections.value[..k]) <= run.ledCount
  }

  /** The run loop of a side does not throw: every run it reaches, which is every run
      after a prefix that assembled, fits. */
  predicate RunsFit(runs: seq<RunConfig>, payloads: map<string, SectionPayload>)
  {
    forall k :: 0 <= k < |runs| && AssembleRuns(runs[..k], payloads).Ok? ==> RunFits(runs[k], payloads)
  }

  /** A configured side does not throw on a frame: it has a runs array, and when the
      frame carries the side its run loop fits. */
  predicate SideFits(name: Side, cfg: SideConfig, frame: IngestFrame)
  {
    cfg.runs.Some? && (name in frame.sides ==> RunsFit(cfg.runs.value, frame.sides[name]))
  }

  function Zeros(n: nat): seq<byte>
  {
    seq(n, _ => 0)
  }

  /** One run buffer: `ledCount * 3` bytes, the section bytes first, zero-filled after.
      It is defined for every run, but it is what the source computes only for a run
      that fits (`RunFits`); on the others the source throws. */
  function RunBuffer(run: RunConfig, payloads: map<string, SectionPayload>): Result<RunData, AssemblyError>
  {
    match SectionBytes(run.sections.GetOr([]), payloads)
    case Err(e) => Err(e)
    case Ok(b) =>
      var pad := run.ledCount * 3 - |b|;
      Ok(RunData(run.runIndex, b + Zeros(if pad < 0 then 0 else pad)))
  }

  /** All run buffers of a side, in layout order, or the first failure. */
  function AssembleRuns(runs: seq<RunConfig>, payloads: map<string, SectionPayload>): Result<seq<RunData>, AssemblyError>
  {
    if runs == [] then Ok([])
    else
      match AssembleRuns(runs[..|runs| - 1], payloads)
      case Err(e) => Err(e)
      case Ok(rs) =>
        match RunBuffer(runs[|runs| - 1], payloads)
        case Err(e) => Err(e)
        case Ok(rd) => Ok(rs + [rd])
  }

  datatype SideOutcome = Absent | Dropped(error: AssemblyError) | Built(frame: AssembledFrame)

  /** What one configured side makes of one ingest frame. */
  function AssembleSide(name: Side, cfg: SideConfig, frame: IngestFrame): SideOutcome
  {
    if name !in frame.sides then Absent
    else
      match AssembleRuns(cfg.runs.GetOr([]), frame.sides[name])
      case Err(e) => Dropped(e)
      case Ok(rs) => Built(AssembledFrame(cfg.side.GetOr(name), ToUint32(frame.frame), rs))
  }

  /** The FrameAssembled event of one side, if it was built. */
  function EventsOf(o: SideOutcome): seq<AssembledFrame>
  {
    if o.Built? then [o.frame] else []
  }

  /** The error line of one side, if it was abandoned. */
  function LinesOf(name: Side, o: SideOutcome): seq<string>
  {
    if o.Dropped? then [ErrorMessage(name, o.error)] else []
  }

  predicate AllFit(entries: SideEntries, frame: IngestFrame)
  {
    forall k :: 0 <= k < |entries| ==> SideFits(entries[k].0, entries[k].1, frame)
  }

  /** The FrameAssembled events of one frame, in configuration order. */
  function BuiltFrames(entries: SideEntries, frame: IngestFrame): seq<AssembledFrame>
  {
    if entries == [] then []
    else
      var last := entries[|entries| - 1];
      BuiltFrames(entries[..|entries| - 1], frame) + EventsOf(AssembleSide(last.0, last.1, frame))
  }

  /** The error lines logged for one frame, in configuration order. */
  function Diagnostics(entries: SideEntries, frame: IngestFrame): seq<string>
  {
    if entries == [] then []
    else
      var last := entries[|entries| - 1];
      Diagnostics(entries[..|entries| - 1], frame) + LinesOf(last.0, AssembleSide(last.0, last.1, frame))
  }

  lemma BuiltFramesSnoc(entries: SideEntries, frame: IngestFrame, i: nat)
    requires i < |entries|
    ensures BuiltFrames(entries[..i + 1], frame)
      == BuiltFrames(entries[..i], frame) + EventsOf(AssembleSide(entries[i].0, entries[i].1, frame))
    ensures Diagnostics(entries[..i + 1], frame)
      == Diagnostics(entries[..i], frame) + LinesOf(entries[i].0, AssembleSide(entries[i].0, entries[i].1, frame))
  {
    assert entries[..i + 1][..i] == entries[..i];
  }

  /** The slot of `side` after the frames are written in order. */
  function WriteAll(st: SlotState, frames: seq<AssembledFrame>, side: Side): SlotState
  {
    if frames == [] then st
    else
      var p := WriteAll(st, frames[..|frames| - 1], side);
      var f := frames[|frames| - 1];
      if f.side == side then WriteSlot(p, f) else p
  }

  /** Both slots after the frames are written in order. */
  function WriteBoth(slots: (SlotState, SlotState), frames: seq<AssembledFrame>): (SlotState, SlotState)
  {
    (WriteAll(slots.0, frames, Left), WriteAll(slots.1, frames, Right))
  }

  lemma WriteBothAppend(slots: (SlotState, SlotState), a: seq<AssembledFrame>, b: seq<AssembledFrame>)
    ensures WriteBoth(slots, a + b) == WriteBoth(WriteBoth(slots, a), b)
  {
    WriteAllAppend(slots.0, a, b, Left);
    WriteAllAppend(slots.1, a, b, Right);
  }

  lemma {:induction false} WriteAllAppend(st: SlotState, a: seq<AssembledFrame>, b: seq<AssembledFrame>, side: Side)
    ensures WriteAll(st, a + b, side) == WriteAll(WriteAll(st, a, side), b, side)
    decreases |b|
  {
    if b == [] {
      assert a + b == a;
    } else {
      assert (a + b)[..|a + b| - 1] == a + b[..|b| - 1];
      WriteAllAppend(st, a, b[..|b| - 1], side);
    }
  }

  // Lemmas about the section bytes of one run.

  lemma {:induction false} SectionBytesLength(secs: seq<SectionConfig>, payloads: map<string, SectionPayload>)
    requires SectionBytes(secs, payloads).Ok?
    ensures |SectionBytes(secs, payloads).value| == 3 * Sum(secs)
  {
    if secs != [] {
      SectionBytesLength(secs[..|secs| - 1], payloads);
    }
  }

  /** Assembly of a run succeeds exactly when every section is present with the right length. */
  lemma {:induction false} SectionBytesOkIff(secs: seq<SectionConfig>, payloads: map<string, SectionPayload>)
    ensures SectionBytes(secs, payloads).Ok? <==> forall k :: 0 <= k < |secs| ==> SectionOk(secs[k], payloads)
  {
    if secs != [] {
      var init := secs[..|secs| - 1];
      SectionBytesOkIff(init, payloads);
      assert forall k :: 0 <= k < |init| ==> init[k] == secs[k];
    }
  }

  /** Section k's decoded bytes sit in `b` at offset 3 * (sum of the counts before it). */
  predicate PlacedAt(b: seq<byte>, secs: seq<SectionConfig>, payloads: map<string, SectionPayload>, k: nat)
    requires k < |secs|
  {
    && SectionOk(secs[k], payloads)
    && 0 <= Offset(secs, k) <= Offset(secs, k + 1) <= |b|
    && b[Offset(secs, k)..Offset(secs, k + 1)] == payloads[secs[k].id].rgb
  }

  /** On success, the run's bytes are the sections' decoded bytes laid end to end in section order. */
  lemma {:induction false} SectionBytesPlacement(secs: seq<SectionConfig>, payloads: map<string, SectionPayload>)
    requires SectionBytes(secs, payloads).Ok?
    ensures forall k :: 0 <= k < |secs| ==> PlacedAt(SectionBytes(secs, payloads).value, secs, payloads, k)
  {
    if secs != [] {
      var n := |secs| - 1;
      var init := secs[..n];
      var b := SectionBytes(secs, payloads).value;
      var b' := SectionBytes(init, payloads).value;
      SectionBytesPlacement(init, payloads);
      SectionBytesLength(init, payloads);
      SectionBytesLength(secs, payloads);
      SectionBytesOkIff(secs, payloads);
      assert b == b' + payloads[secs[n].id].rgb;
      forall k | 0 <= k < |secs|
        ensures PlacedAt(b, secs, payloads, k)
      {
        if k < n {
          assert PlacedAt(b', init, payloads, k);
          assert secs[..k] == init[..k];
          assert secs[..k + 1] == init[..k + 1];
          assert Offset(secs, k) == Offset(init, k);
          assert Offset(secs, k + 1) == Offset(init, k + 1);
          assert init[k] == secs[k];
          assert b[Offset(secs, k)..Offset(secs, k + 1)] == b'[Offset(init, k)..Offset(init, k + 1)];
        } else {
          assert secs[..k] == init;
          assert secs[..k + 1] == secs;
          assert Offset(secs, k) == |b'|;
          assert Offset(secs, k + 1) == |b|;
        }
      }
    }
  }

  /** On failure, the error names the first section that is missing or of the wrong length. */
  lemma {:induction false} SectionBytesFirstError(secs: seq<SectionConfig>, payloads: map<string, SectionPayload>)
    requires SectionBytes(secs, payloads).Err?
    ensures exists k :: (0 <= k < |secs|
      && (forall j :: 0 <= j < k ==> SectionOk(secs[j], payloads))
      && !SectionOk(secs[k], payloads)
      && SectionBytes(secs, payloads).error == ErrorFor(secs[k], payloads))
  {
    var n := |secs| - 1;
    var init := secs[..n];
    assert forall j :: 0 <= j < n ==> init[j] == secs[j];
    if SectionBytes(init, payloads).Err? {
      SectionBytesFirstError(init, payloads);
      var k :| 0 <= k < |init|
        && (forall j :: 0 <= j < k ==> SectionOk(init[j], payloads))
        && !SectionOk(init[k], payloads)
        && SectionBytes(init, payloads).error == ErrorFor(init[k], payloads);
      assert secs[k] == init[k];
    } else {
      SectionBytesOkIff(init, payloads);
      assert !SectionOk(secs[n], payloads);
    }
  }

  lemma SectionBytesPrefixError(secs: seq<SectionConfig>, payloads: map<string, SectionPayload>, k: nat)
    requires k <= |secs|
    requires SectionBytes(secs[..k], payloads).Err?
    ensures SectionBytes(secs, payloads) == SectionBytes(secs[..k], payloads)
    decreases |secs| - k
  {
    if k < |secs| {
      assert secs[..k + 1][..k] == secs[..k];
      SectionBytesPrefixError(secs, payloads, k + 1);
    } else {
      assert secs[..k] == secs;
    }
  }

  lemma AssembleRunsPrefixError(runs: seq<RunConfig>, payloads: map<string, SectionPayload>, k: nat)
    requires k <= |runs|
    requires AssembleRuns(runs[..k], payloads).Err?
    ensures AssembleRuns(runs, payloads) == AssembleRuns(runs[..k], payloads)
    decreases |runs| - k
  {
    if k < |runs| {
      assert runs[..k + 1][..k] == runs[..k];
      AssembleRunsPrefixError(runs, payloads, k + 1);
    } else {
      assert runs[..k] == runs;
    }
  }

  // Lemmas about whole runs and sides.

  /** A built run buffer has exactly three bytes per LED of the run and carries its run index;
      when the section counts add up to the run's count it is exactly the section bytes. */
  lemma RunBufferShape(run: RunConfig, payloads: map<string, SectionPayload>)
    requires RunFits(run, payloads)
    requires RunBuffer(run, payloads).Ok?
    ensures RunBuffer(run, payloads).value.runIndex == run.runIndex
    ensures |RunBuffer(run, payloads).value.data| == 3 * run.ledCount
    ensures Sum(run.sections.value) == run.ledCount ==>
      RunBuffer(run, payloads).value.data == SectionBytes(run.sections.value, payloads).value
  {
    var secs := run.sections.value;
    SectionBytesLength(secs, payloads);
    if secs != [] {
      assert secs[..|secs|] == secs;
    }
  }

  /** Every section of the run is usable. */
  predicate SectionsOk(run: RunConfig, payloads: map<string, SectionPayload>)
  {
    run.sections.Some? && forall j :: 0 <= j < |run.sections.value| ==> SectionOk(run.sections.value[j], payloads)
  }

  /** A side assembles exactly when every section of every run is usable; the result
      has one buffer per run, in layout order, each of the run's size. */
  lemma AssembleRunsSpec(runs: seq<RunConfig>, payloads: map<string, SectionPayload>)
    requires RunsFit(runs, payloads)
    ensures AssembleRuns(runs, payloads).Ok? <==> forall k :: 0 <= k < |runs| ==> SectionsOk(runs[k], payloads)
    ensures AssembleRuns(runs, payloads).Ok? ==>
      var rs := AssembleRuns(runs, payloads).value;
      |rs| == |runs| &&
      forall k :: 0 <= k < |runs| ==>
        && RunBuffer(runs[k], payloads).Ok? && rs[k] == RunBuffer(runs[k], payloads).value
        && rs[k].runIndex == runs[k].runIndex && |rs[k].data| == 3 * runs[k].ledCount
  {
    AssembleRunsOkIff(runs, payloads);
    if AssembleRuns(runs, payloads).Ok? {
      AssembleRunsShape(runs, payloads);
    }
  }

  lemma {:induction false} AssembleRunsOkIff(runs: seq<RunConfig>, payloads: map<string, SectionPayload>)
    requires RunsFit(runs, payloads)
    ensures AssembleRuns(runs, payloads).Ok? <==> forall k :: 0 <= k < |runs| ==> SectionsOk(runs[k], payloads)
  {
    if runs != [] {
      var n := |runs| - 1;
      var init := runs[..n];
      assert forall k :: 0 <= k < n ==> init[k] == runs[k];
      RunsFitPrefix(runs, payloads, n);
      AssembleRunsOkIff(init, payloads);
      if AssembleRuns(init, payloads).Ok? {
        assert RunFits(runs[n], payloads);
        assert runs[n].sections.GetOr([]) == runs[n].sections.value;
        SectionBytesOkIff(runs[n].sections.value, payloads);
        assert RunBuffer(runs[n], payloads).Ok? <==> SectionsOk(runs[n], payloads);
      }
    }
  }

  /** The runs a shorter run loop reaches are reached by the longer one. */
  lemma RunsFitPrefix(runs: seq<RunConfig>, payloads: map<string, SectionPayload>, n: nat)
    requires n <= |runs| && RunsFit(runs, payloads)
    ensures RunsFit(runs[..n], payloads)
  {
    forall k | 0 <= k < n && AssembleRuns(runs[..n][..k], payloads).Ok?
      ensures RunFits(runs[..n][k], payloads)
    {
      assert runs[..n][..k] == runs[..k];
    }
  }

  lemma {:induction false} AssembleRunsShape(runs: seq<RunConfig>, payloads: map<string, SectionPayload>)
    requires RunsFit(runs, payloads)
    requires AssembleRuns(runs, payloads).Ok?
    ensures |AssembleRuns(runs, payloads).value| == |runs|
    ensures forall k :: 0 <= k < |runs| ==>
      && RunBuffer(runs[k], payloads).Ok?
      && AssembleRuns(runs, payloads).value[k] == RunBuffer(runs[k], payloads).value
      && AssembleRuns(runs, payloads).value[k].runIndex == runs[k].runIndex
      && |AssembleRuns(runs, payloads).value[k].data| == 3 * runs[k].ledCount
  {
    if runs != [] {
      var n := |runs| - 1;
      var init := runs[..n];
      assert forall k :: 0 <= k < n ==> init[k] == runs[k];
      RunsFitPrefix(runs, payloads, n);
      AssembleRunsShape(init, payloads);
      RunBufferShape(runs[n], payloads);
      var rs := AssembleRuns(runs, payloads).value;
      assert rs == AssembleRuns(init, payloads).value + [RunBuffer(runs[n], payloads).value];
    }
  }

  /** An absent side is skipped silently; a built frame carries the frame number modulo 2^32,
      the side the layout names (or the configuration key), and one buffer per run, which
      is that run's `RunBuffer`. */
  lemma AssembleSideSpec(name: Side, cfg: SideConfig, frame: IngestFrame)
    requires SideFits(name, cfg, frame)
    ensures AssembleSide(name, cfg, frame).Absent? <==> name !in frame.sides
    ensures AssembleSide(name, cfg, frame).Built? ==>
      var f := AssembleSide(name, cfg, frame).frame;
      && f.frameId == ToUint32(frame.frame)
      && f.side == cfg.side.GetOr(name)
      && |f.runs| == |cfg.runs.value|
      && name in frame.sides
      && forall k :: 0 <= k < |f.runs| ==>
           && RunBuffer(cfg.runs.value[k], frame.sides[name]).Ok?
           && f.runs[k] == RunBuffer(cfg.runs.value[k], frame.sides[name]).value
           && f.runs[k].runIndex == cfg.runs.value[k].runIndex && |f.runs[k].data| == 3 * cfg.runs.value[k].ledCount
  {
    if name in frame.sides {
      AssembleRunsSpec(cfg.runs.value, frame.sides[name]);
    }
  }

  /** Sides do not interfere: every side that assembles on its own is published, whatever
      the other sides of the frame do, and nothing else is published. */
  lemma BuiltFramesPerSide(entries: SideEntries, frame: IngestFrame)
    ensures forall k :: 0 <= k < |entries| && AssembleSide(entries[k].0, entries[k].1, frame).Built? ==>
      AssembleSide(entries[k].0, entries[k].1, frame).frame in BuiltFrames(entries, frame)
    ensures forall f :: f in BuiltFrames(entries, frame) ==>
      exists k :: 0 <= k < |entries| && AssembleSide(entries[k].0, entries[k].1, frame) == Built(f)
    ensures |BuiltFrames(entries, frame)| <= |entries|
  {
    BuiltFramesComplete(entries, frame);
    BuiltFramesSound(entries, frame);
  }

  lemma {:induction false} BuiltFramesComplete(entries: SideEntries, frame: IngestFrame)
    ensures forall k :: 0 <= k < |entries| && AssembleSide(entries[k].0, entries[k].1, frame).Built? ==>
      AssembleSide(entries[k].0, entries[k].1, frame).frame in BuiltFrames(entries, frame)
  {
    if entries != [] {
      var n := |entries| - 1;
      var init := entries[..n];
      BuiltFramesComplete(init, frame);
      assert BuiltFrames(entries, frame) == BuiltFrames(init, frame) + EventsOf(AssembleSide(entries[n].0, entries[n].1, frame));
      forall k | 0 <= k < n && AssembleSide(entries[k].0, entries[k].1, frame).Built?
        ensures AssembleSide(entries[k].0, entries[k].1, frame).frame in BuiltFrames(entries, frame)
      {
        assert entries[k] == init[k];
      }
    }
  }

  lemma {:induction false} BuiltFramesSound(entries: SideEntries, frame: IngestFrame)
    ensures forall f :: f in BuiltFrames(entries, frame) ==>
      exists k :: 0 <= k < |entries| && AssembleSide(entries[k].0, entries[k].1, frame) == Built(f)
    ensures |BuiltFrames(entries, frame)| <= |entries|
  {
    if entries != [] {
      var n := |entries| - 1;
      var init := entries[..n];
      BuiltFramesSound(init, frame);
      var step := EventsOf(AssembleSide(entries[n].0, entries[n].1, frame));
      assert BuiltFrames(entries, frame) == BuiltFrames(init, frame) + step;
      forall f | f in BuiltFrames(entries, frame)
        ensures exists k :: 0 <= k < |entries| && AssembleSide(entries[k].0, entries[k].1, frame) == Built(f)
      {
        if f in BuiltFrames(init, frame) {
          var k :| 0 <= k < |init| && AssembleSide(init[k].0, init[k].1, frame) == Built(f);
          assert entries[k] == init[k];
        } else {
          assert f in step;
        }
      }
    }
  }

  class Assembler {
    const sides: SideEntries
    const mailbox: Mailbox?
    ghost var events: seq<AssembledFrame>  // FrameAssembled emissions
    ghost var log: seq<string>             // logger.error lines

    ghost predicate Valid()
    {
      DistinctNames(sides) && forall k :: 0 <= k < |sides| ==> sides[k].1.runs.Some?
    }

    /** The configuration check of the constructor: the message it throws, if any. */
    static function ConfigError(entries: SideEntries): (r: Option<string>)
      ensures r.None? <==> forall k :: 0 <= k < |entries| ==> entries[k].1.runs.Some?
    {
      if entries == [] then None
      else if entries[0].1.runs.None? then Some("Side " + SideName(entries[0].0) + " configuration missing runs array")
      else
        var r := ConfigError(entries[1..]);
        assert forall k :: 1 <= k < |entries| ==> entries[k] == entries[1..][k - 1];
        r
    }

    constructor (entries: SideEntries, mb: Mailbox?)
      requires DistinctNames(entries)
      requires ConfigError(entries).None?
      ensures Valid() && sides == entries && mailbox == mb
      ensures events == [] && log == []
    {
      sides := entries;
      mailbox := mb;
      events := [];
      log := [];
    }

    /** The two slots of the mailbox, left then right. */
    ghost function Slots(): (SlotState, SlotState)
      requires mailbox != null
      reads mailbox.left, mailbox.right
    {
      (mailbox.left.State(), mailbox.right.State())
    }

    /** `#handleFrame`: try every configured side in turn. */
    method HandleFrame(frame: IngestFrame)
      requires Valid() && AllFit(sides, frame)
      requires mailbox != null ==> mailbox.Valid()
      modifies this, if mailbox != null then {mailbox.left, mailbox.right} else {}
      ensures events == old(events) + BuiltFrames(sides, frame)
      ensures log == old(log) + Diagnostics(sides, frame)
      ensures mailbox != null ==> mailbox.Valid() && Slots() == WriteBoth(old(Slots()), BuiltFrames(sides, frame))
    {
      ghost var slots0 := if mailbox != null then Slots() else (EmptySlot, EmptySlot);
      var i := 0;
      while i < |sides|
        invariant 0 <= i <= |sides|
        invariant Progress(frame, i, old(events), old(log), slots0)
      {
        assert SideFits(sides[i].0, sides[i].1, frame);
        var outcome := BuildSide(sides[i].0, sides[i].1, frame);
        BuiltFramesSnoc(sides, frame, i);
        HandleEntry(frame, i, outcome, old(events), old(log), slots0);
        i := i + 1;
      }
      assert sides[..i] == sides;
    }

    /** What `#handleFrame` has done after its first `i` configured sides. */
    ghost predicate Progress(frame: IngestFrame, i: nat, events0: seq<AssembledFrame>, log0: seq<string>, slots0: (SlotState, SlotState))
      requires i <= |sides|
      reads this, if mailbox != null then {mailbox, mailbox.left, mailbox.right} else {}
    {
      && events == events0 + BuiltFrames(sides[..i], frame)
      && log == log0 + Diagnostics(sides[..i], frame)
      && (mailbox != null ==> mailbox.Valid() && Slots() == WriteBoth(slots0, BuiltFrames(sides[..i], frame)))
    }

    /** The rest of the loop body of `#handleFrame` for the side at position `i`, once
        its outcome is built: publish it. */
    method HandleEntry(frame: IngestFrame, i: nat, outcome: SideOutcome,
                       ghost events0: seq<AssembledFrame>, ghost log0: seq<string>, ghost slots0: (SlotState, SlotState))
      requires i < |sides|
      requires BuiltFrames(sides[..i + 1], frame) == BuiltFrames(sides[..i], frame) + EventsOf(outcome)
      requires Diagnostics(sides[..i + 1], frame) == Diagnostics(sides[..i], frame) + LinesOf(sides[i].0, outcome)
      requires Progress(frame, i, events0, log0, slots0)
      modifies this, if mailbox != null then {mailbox.left, mailbox.right} else {}
      ensures Progress(frame, i + 1, events0, log0, slots0)
    {
      ghost var before := BuiltFrames(sides[..i], frame);
      ghost var lines := Diagnostics(sides[..i], frame);
      ghost var step := EventsOf(outcome);
      ghost var slots := if mailbox != null then Slots() else slots0;
      assert events == events0 + before && log == log0 + lines;
      assert mailbox != null ==> mailbox.Valid() && slots == WriteBoth(slots0, before);
      Publish(sides[i].0, outcome);
      assert events == events0 + (before + step);
      assert log == log0 + (lines + LinesOf(sides[i].0, outcome));
      if mailbox != null {
        WriteBothAppend(slots0, before, step);
        assert Slots() == WriteBoth(slots, step);
      }
    }

    /** The end of the loop body of `#handleFrame`: a dropped side logs its error line,
        a built side is emitted and written to the mailbox under its frame's side. */
    method Publish(name: Side, outcome: SideOutcome)
      requires mailbox != null ==> mailbox.Valid()
      modifies this, if mailbox != null then {mailbox.left, mailbox.right} else {}
      ensures events == old(events) + EventsOf(outcome)
      ensures log == old(log) + LinesOf(name, outcome)
      ensures mailbox != null ==> mailbox.Valid() && Slots() == WriteBoth(old(Slots()), EventsOf(outcome))
    {
      match outcome
      case Absent =>
      case Dropped(e) =>
        log := log + [ErrorMessage(name, e)];
      case Built(assembled) =>
        events := events + [assembled];
        if mailbox != null {
          ghost var pre := Slots();
          mailbox.Write(assembled.side, assembled);
          assert [assembled][..0] == [];
          assert WriteAll(pre.0, [assembled], Left) == if assembled.side == Left then WriteSlot(pre.0, assembled) else pre.0;
          assert WriteAll(pre.1, [assembled], Right) == if assembled.side == Right then WriteSlot(pre.1, assembled) else pre.1;
        }
    }
  }

  /** The start of the loop body of `#handleFrame`: skip a side the frame lacks, else
      fill its run buffers, and build the assembled frame when they all fill. */
  method BuildSide(name: Side, cfg: SideConfig, frame: IngestFrame) returns (outcome: SideOutcome)
    requires SideFits(name, cfg, frame)
    ensures outcome == AssembleSide(name, cfg, frame)
  {
    if name !in frame.sides {
      return Absent;
    }
    var r := BuildRuns(cfg.runs.value, frame.sides[name]);
    match r
    case Err(e) =>
      outcome := Dropped(e);
    case Ok(rs) =>
      outcome := Built(AssembledFrame(cfg.side.GetOr(name), ToUint32(frame.frame), rs));
  }

  /** Fill every run buffer of a side in layout order; stop at the first failure. */
  method BuildRuns(runs: seq<RunConfig>, payloads: map<string, SectionPayload>) returns (r: Result<seq<RunData>, AssemblyError>)
    requires RunsFit(runs, payloads)
    ensures r == AssembleRuns(runs, payloads)
  {
    var runBuffers := [];
    var i := 0;
    while i < |runs|
      invariant 0 <= i <= |runs|
      invariant AssembleRuns(runs[..i], payloads) == Ok(runBuffers)
    {
      assert runs[..i + 1][..i] == runs[..i];
      var rb := FillRun(runs[i], payloads);
      if rb.Err? {
        AssembleRunsPrefixError(runs, payloads, i + 1);
        return Err(rb.error);
      }
      runBuffers := runBuffers + [rb.value];
      i := i + 1;
    }
    assert runs[..i] == runs;
    r := Ok(runBuffers);
  }

  /** Allocate a zeroed buffer of three bytes per LED and copy each section's bytes
      in at an advancing offset; stop at the first missing or mis-sized section. */
  method FillRun(run: RunConfig, payloads: map<string, SectionPayload>) returns (r: Result<RunData, AssemblyError>)
    requires RunFits(run, payloads)
    ensures r == RunBuffer(run, payloads)
  {
    var secs := run.sections.value;
    var buf := new byte[run.ledCount * 3](_ => 0);
    assert buf[..] == [] + Zeros(buf.Length);
    var offset := 0;
    ghost var bytes: seq<byte> := [];
    var i := 0;
    while i < |secs|
      invariant 0 <= i <= |secs|
      invariant SectionBytes(secs[..i], payloads) == Ok(bytes)
      invariant offset == |bytes| == 3 * Sum(secs[..i]) <= buf.Length
      invariant buf[..] == bytes + Zeros(buf.Length - offset)
    {
      var s := secs[i];
      SectionBytesStep(secs, payloads, i);
      if s.id !in payloads || |payloads[s.id].rgb| != s.ledCount * 3 {
        RunBufferOfSections(run, payloads);
        return Err(if s.id !in payloads then MissingSection(s.id) else LengthMismatch(s.id));
      }
      var decoded := payloads[s.id].rgb;
      CopyInto(buf, offset, decoded);
      ZerosSplice(bytes, decoded, buf.Length - offset);
      bytes := bytes + decoded;
      offset := offset + |decoded|;
      i := i + 1;
    }
    assert secs[..i] == secs;
    RunBufferOfSections(run, payloads);
    r := Ok(RunData(run.runIndex, buf[..]));
  }

  /** The run buffer of a run with a sections array, in terms of its section bytes. */
  lemma RunBufferOfSections(run: RunConfig, payloads: map<string, SectionPayload>)
    requires run.sections.Some?
    ensures SectionBytes(run.sections.value, payloads).Err? ==>
      RunBuffer(run, payloads) == Err(SectionBytes(run.sections.value, payloads).error)
    ensures SectionBytes(run.sections.value, payloads).Ok? && |SectionBytes(run.sections.value, payloads).value| <= run.ledCount * 3 ==>
      var b := SectionBytes(run.sections.value, payloads).value;
      RunBuffer(run, payloads) == Ok(RunData(run.runIndex, b + Zeros(run.ledCount * 3 - |b|)))
  {
  }

  /** One section further: the bytes grow by the section's bytes, or the whole run
      fails with this section's error. */
  lemma SectionBytesStep(secs: seq<SectionConfig>, payloads: map<string, SectionPayload>, i: nat)
    requires i < |secs| && SectionBytes(secs[..i], payloads).Ok?
    ensures SectionOk(secs[i], payloads) ==>
      && SectionBytes(secs[..i + 1], payloads) == Ok(SectionBytes(secs[..i], payloads).value + payloads[secs[i].id].rgb)
      && |SectionBytes(secs[..i + 1], payloads).value| == 3 * Sum(secs[..i + 1])
    ensures !SectionOk(secs[i], payloads) ==> SectionBytes(secs, payloads) == Err(ErrorFor(secs[i], payloads))
  {
    assert secs[..i + 1][..i] == secs[..i];
    assert secs[..i + 1][i] == secs[i];
    if SectionOk(secs[i], payloads) {
      SectionBytesLength(secs[..i + 1], payloads);
    } else {
      SectionBytesPrefixError(secs, payloads, i + 1);
    }
  }

  /** `runBuffer.set(bytes, offset)`: copy `bytes` into `buf` starting at `offset`. */
  method CopyInto(buf: array<byte>, offset: nat, bytes: seq<byte>)
    requires offset + |bytes| <= buf.Length
    modifies buf
    ensures buf[..] == old(buf[..offset]) + bytes + old(buf[offset + |bytes|..])
  {
    forall j | 0 <= j < |bytes| {
      buf[offset + j] := bytes[j];
    }
    assert forall j :: 0 <= j < buf.Length ==>
      buf[j] == (old(buf[..offset]) + bytes + old(buf[offset + |bytes|..]))[j];
  }

  /** Writing `d` over the start of the zero tail of `b + Zeros(n)`. */
  lemma ZerosSplice(b: seq<byte>, d: seq<byte>, n: nat)
    requires |d| <= n
    ensures (b + Zeros(n))[..|b|] + d + (b + Zeros(n))[|b| + |d|..] == (b + d) + Zeros(n - |d|)
  {
    assert (b + Zeros(n))[..|b|] == b;
    assert (b + Zeros(n))[|b| + |d|..] == Zeros(n - |d|);
  }
}
