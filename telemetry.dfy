/** Telemetry: per-side frame counters, per-run packet accounting against the
    mailbox's `frames_sent`, and error messages aggregated between reports. */
module Telemetry {
  import opened Common
  import opened Mailbox

  datatype RunStats = RunStats(packets: int, bytes: int)

  /** The integer part of one side's statistics. */
  datatype SideStats = SideStats(
    framesIngested: nat,
    framesBuilt: nat,
    framesSent: nat,
    framesDroppedBuild: int,
    framesDroppedOverwrite: nat,
    lastFrameId: Option<int>,
    runs: map<int, RunStats>,
    runPacketSizes: map<int, int>,
    prevFramesSent: nat)

  /** Bytes on the wire for one run: the 4-byte header plus three bytes per LED. */
  function PacketSize(run: RunConfig): int
  {
    4 + run.ledCount * 3
  }

  /** `run_packet_sizes`, keyed by run index; a later run with the same index overwrites. */
  function PacketSizes(runs: seq<RunConfig>): map<int, int>
  {
    if runs == [] then map[]
    else
      var last := runs[|runs| - 1];
      PacketSizes(runs[..|runs| - 1])[last.runIndex := PacketSize(last)]
  }

  /** Every run index of the layout gets an entry, and nothing else does; the entry of a
      run is its packet size unless a later run reuses its index. */
  lemma {:induction false} PacketSizesSpec(runs: seq<RunConfig>)
    ensures forall x :: x in PacketSizes(runs) <==> exists k :: 0 <= k < |runs| && runs[k].runIndex == x
    ensures forall k :: 0 <= k < |runs| && (forall j :: k < j < |runs| ==> runs[j].runIndex != runs[k].runIndex) ==>
      PacketSizes(runs)[runs[k].runIndex] == PacketSize(runs[k])
  {
    if runs != [] {
      var n := |runs| - 1;
      var init := runs[..n];
      var last := runs[n];
      PacketSizesSpec(init);
      forall x
        ensures x in PacketSizes(runs) <==> exists k :: 0 <= k < |runs| && runs[k].runIndex == x
      {
        if x != last.runIndex && x in PacketSizes(init) {
          var k :| 0 <= k < n && init[k].runIndex == x;
          assert runs[k] == init[k];
        }
        if x != last.runIndex && exists k :: 0 <= k < |runs| && runs[k].runIndex == x {
          var k :| 0 <= k < |runs| && runs[k].runIndex == x;
          assert init[k] == runs[k];
        }
      }
      forall k | 0 <= k < |runs| && (forall j :: k < j < |runs| ==> runs[j].runIndex != runs[k].runIndex)
        ensures PacketSizes(runs)[runs[k].runIndex] == PacketSize(runs[k])
      {
        if k < n {
          assert init[k] == runs[k];
          assert forall j :: k < j < n ==> init[j] == runs[j];
        }
      }
    }
  }

  /** The statistics of a side before anything has happened. */
  function FreshStats(cfg: SideConfig): SideStats
  {
    var sizes := PacketSizes(cfg.runs.GetOr([]));
    SideStats(0, 0, 0, 0, 0, None, map k | k in sizes :: RunStats(0, 0), sizes, 0)
  }

  /** The accounting invariant: per-run stats exist exactly for the sized runs, the
      sent count agrees with the last mailbox reading, and every run has been charged
      one packet (of its size) per frame sent. */
  ghost predicate StatsValid(st: SideStats)
  {
    && st.runs.Keys == st.runPacketSizes.Keys
    && st.framesSent == st.prevFramesSent
    && forall k :: k in st.runs ==>
         st.runs[k].packets == st.prevFramesSent && st.runs[k].bytes == st.prevFramesSent * st.runPacketSizes[k]
  }

  /** One side's statistics after a report that read `sent` and `dropped` from the mailbox. */
  function Reported(st: SideStats, sent: nat, dropped: nat): SideStats
    requires st.runs.Keys <= st.runPacketSizes.Keys
  {
    var delta := sent - st.prevFramesSent;
    st.(framesSent := sent,
        framesDroppedOverwrite := dropped,
        runs := map k | k in st.runs :: Charge(st.runs[k], delta, st.runPacketSizes[k]),
        framesDroppedBuild := st.framesIngested - st.framesBuilt,
        prevFramesSent := sent)
  }

  function Charge(r: RunStats, delta: int, size: int): RunStats
  {
    RunStats(r.packets + delta, r.bytes + delta * size)
  }

  /** A report keeps the accounting invariant: afterwards every run has been charged
      exactly the mailbox's `frames_sent` packets, and the build drops are the ingested
      frames that were not built. */
  lemma ReportedValid(st: SideStats, sent: nat, dropped: nat)
    requires StatsValid(st)
    ensures StatsValid(Reported(st, sent, dropped))
    ensures forall k :: k in Reported(st, sent, dropped).runs ==> Reported(st, sent, dropped).runs[k].packets == sent
    ensures Reported(st, sent, dropped).framesDroppedBuild == st.framesIngested - st.framesBuilt
    ensures Reported(st, sent, dropped).runs.Keys == st.runs.Keys
  {
    var r := Reported(st, sent, dropped);
    forall k | k in r.runs
      ensures r.runs[k].bytes == sent * r.runPacketSizes[k]
    {
      var size := st.runPacketSizes[k];
      calc {
        r.runs[k].bytes;
        st.prevFramesSent * size + (sent - st.prevFramesSent) * size;
        { assert (sent - st.prevFramesSent) * size == sent * size - st.prevFramesSent * size; }
        sent * size;
      }
    }
  }

  lemma FreshStatsValid(cfg: SideConfig)
    ensures StatsValid(FreshStats(cfg))
    ensures FreshStats(cfg).runPacketSizes == PacketSizes(cfg.runs.GetOr([]))
  {
  }

  // Error aggregation: a Map in insertion order, as the ordered keys plus the counts.

  datatype ErrorTally = ErrorTally(keys: seq<string>, counts: map<string, nat>)

  const NoErrors := ErrorTally([], map[])

  ghost predicate TallyValid(t: ErrorTally)
  {
    && (forall i, j :: 0 <= i < j < |t.keys| ==> t.keys[i] != t.keys[j])
    && (forall m :: m in t.counts <==> m in t.keys)
    && (forall m :: m in t.counts ==> t.counts[m] >= 1)
  }

  /** `errorCounts.set(message, prev + 1)`: a new message goes to the end of the order. */
  function Record(t: ErrorTally, msg: string): ErrorTally
  {
    if msg in t.counts then ErrorTally(t.keys, t.counts[msg := t.counts[msg] + 1])
    else ErrorTally(t.keys + [msg], t.counts[msg := 1])
  }

  function RecordAll(t: ErrorTally, msgs: seq<string>): ErrorTally
  {
    if msgs == [] then t else Record(RecordAll(t, msgs[..|msgs| - 1]), msgs[|msgs| - 1])
  }

  function Occurrences(msgs: seq<string>, m: string): nat
  {
    if msgs == [] then 0 else Occurrences(msgs[..|msgs| - 1], m) + (if msgs[|msgs| - 1] == m then 1 else 0)
  }

  /** Recording keeps the tally well formed and raises exactly one count by one. */
  lemma RecordSpec(t: ErrorTally, msg: string)
    requires TallyValid(t)
    ensures TallyValid(Record(t, msg))
    ensures Record(t, msg).counts.Keys == t.counts.Keys + {msg}
    ensures Record(t, msg).counts[msg] == (if msg in t.counts then t.counts[msg] else 0) + 1
    ensures forall m :: m in t.counts && m != msg ==> Record(t, msg).counts[m] == t.counts[m]
  {
  }

  /** From an empty tally, the count of every message is the number of times it was
      recorded, and the messages are listed once each. */
  lemma {:induction false} RecordAllCounts(msgs: seq<string>)
    ensures TallyValid(RecordAll(NoErrors, msgs))
    ensures forall m :: m in RecordAll(NoErrors, msgs).counts <==> m in msgs
    ensures forall m :: m in RecordAll(NoErrors, msgs).counts ==> RecordAll(NoErrors, msgs).counts[m] == Occurrences(msgs, m)
  {
    if msgs != [] {
      var init := msgs[..|msgs| - 1];
      RecordAllCounts(init);
      RecordSpec(RecordAll(NoErrors, init), msgs[|msgs| - 1]);
      assert forall m :: m in msgs <==> m in init || m == msgs[|msgs| - 1];
      forall m | m !in init
        ensures Occurrences(init, m) == 0
      {
        OccurrencesAbsent(init, m);
      }
    }
  }

  lemma {:induction false} OccurrencesAbsent(msgs: seq<string>, m: string)
    requires m !in msgs
    ensures Occurrences(msgs, m) == 0
  {
    if msgs != [] {
      OccurrencesAbsent(msgs[..|msgs| - 1], m);
    }
  }

  /** The error line of one message: "msg (Nx)". */
  function ErrorLine(msg: string, count: nat): string
  {
    msg + " (" + NatToString(count) + "x)"
  }

  /** The lines a report logs for a tally, one per distinct message, in insertion order. */
  function ErrorLines(keys: seq<string>, counts: map<string, nat>): seq<string>
    requires forall m :: m in keys ==> m in counts
  {
    if keys == [] then []
    else ErrorLines(keys[..|keys| - 1], counts) + [ErrorLine(keys[|keys| - 1], counts[keys[|keys| - 1]])]
  }

  lemma {:induction false} ErrorLinesSpec(keys: seq<string>, counts: map<string, nat>)
    requires forall m :: m in keys ==> m in counts
    ensures |ErrorLines(keys, counts)| == |keys|
    ensures forall i :: 0 <= i < |keys| ==> ErrorLines(keys, counts)[i] == ErrorLine(keys[i], counts[keys[i]])
  {
    if keys != [] {
      var n := |keys| - 1;
      var init := keys[..n];
      ErrorLinesSpec(init, counts);
      var lines := ErrorLines(keys, counts);
      assert lines == ErrorLines(init, counts) + [ErrorLine(keys[n], counts[keys[n]])];
      forall i | 0 <= i < |keys|
        ensures lines[i] == ErrorLine(keys[i], counts[keys[i]])
      {
        if i < n {
          assert keys[i] == init[i];
        }
      }
    }
  }

  /** The aggregation the repository's test relies on: two "test error"s and one
      "another error" report as "test error (2x)" and "another error (1x)". */
  lemma TwoAndOneReport()
    ensures RecordAll(NoErrors, ["test error", "test error", "another error"])
      == ErrorTally(["test error", "another error"], map["test error" := 2, "another error" := 1])
    ensures ErrorLines(["test error", "another error"], map["test error" := 2, "another error" := 1])
      == ["test error (2x)", "another error (1x)"]
  {
    var t := RecordAll(NoErrors, ["test error", "test error", "another error"]);
    assert ["test error", "test error", "another error"][..2] == ["test error", "test error"];
    assert ["test error", "test error"][..1] == ["test error"];
    assert ["test error"][..0] == [];
    assert t == ErrorTally(["test error", "another error"], map["test error" := 2, "another error" := 1]);
    var c := map["test error" := 2, "another error" := 1];
    assert ["test error", "another error"][..1] == ["test error"];
    assert NatToString(2) == "2" && NatToString(1) == "1";
    assert ErrorLine("test error", 2) == "test error (2x)";
    assert ErrorLine("another error", 1) == "another error (1x)";
    assert ErrorLines(["test error"], c) == [ErrorLine("test error", 2)];
    assert ErrorLines(["test error", "another error"], c) == [ErrorLine("test error", 2), ErrorLine("another error", 1)];
  }

  /** The argument of `recordError`: a string, or an error object with its `message`
      and the text `String(err)` gives. */
  datatype Reportable = Text(s: string) | Thrown(message: string, text: string)

  /** The key the message is counted under: the string itself, else the error's
      non-empty message, else its string form. */
  function ErrorKey(e: Reportable): (k: string)
    ensures e.Text? ==> k == e.s
    ensures e.Thrown? && e.message != "" ==> k == e.message
    ensures e.Thrown? && e.message == "" ==> k == e.text
  {
    match e
    case Text(s) => s
    case Thrown(m, t) => if m != "" then m else t
  }

  class Telemetry {
    const mailbox: Mailbox
    const names: seq<Side>                // configured sides, in configuration order
    var sides: map<Side, SideStats>
    var errors: ErrorTally
    var running: bool                     // `intervalHandle` is set
    ghost var intervalsCreated: nat
    ghost var intervalsCleared: nat
    ghost var log: seq<string>            // logger.error lines

    ghost predicate Valid()
      reads this
    {
      && (forall i, j :: 0 <= i < j < |names| ==> names[i] != names[j])
      && (forall s :: s in sides <==> s in names)
      && (forall s :: s in sides ==> StatsValid(sides[s]))
      && TallyValid(errors)
      && intervalsCreated == intervalsCleared + (if running then 1 else 0)
    }

    constructor (entries: SideEntries, mb: Mailbox)
      requires DistinctNames(entries)
      ensures Valid() && mailbox == mb && !running && log == [] && errors == NoErrors
      ensures names == seq(|entries|, k requires 0 <= k < |entries| => entries[k].0)
      ensures forall k :: 0 <= k < |entries| ==> entries[k].0 in sides && sides[entries[k].0] == FreshStats(entries[k].1)
    {
      mailbox := mb;
      names := seq(|entries|, k requires 0 <= k < |entries| => entries[k].0);
      var initial := FreshSides(entries);
      sides := initial;
      errors := NoErrors;
      running := false;
      intervalsCreated := 0;
      intervalsCleared := 0;
      log := [];
      new;
      forall s
        ensures s in sides <==> s in names
      {
        if s in names {
          var k :| 0 <= k < |names| && names[k] == s;
          assert entries[k].0 == s;
        }
        if s in sides {
          var k :| 0 <= k < |entries| && entries[k].0 == s;
          assert names[k] == s;
        }
      }
    }

    /** The constructor's loop: fresh statistics for every configured side. */
    static method FreshSides(entries: SideEntries) returns (m: map<Side, SideStats>)
      requires DistinctNames(entries)
      ensures forall s :: s in m ==> (exists k :: 0 <= k < |entries| && entries[k].0 == s) && StatsValid(m[s])
      ensures forall k :: 0 <= k < |entries| ==> entries[k].0 in m && m[entries[k].0] == FreshStats(entries[k].1)
    {
      m := map[];
      var i := 0;
      while i < |entries|
        invariant 0 <= i <= |entries|
        invariant forall s :: s in m ==> (exists k :: 0 <= k < i && entries[k].0 == s) && StatsValid(m[s])
        invariant forall k :: 0 <= k < i ==> entries[k].0 in m && m[entries[k].0] == FreshStats(entries[k].1)
      {
        assert forall k :: 0 <= k < i ==> entries[k].0 != entries[i].0;
        var sizes := SizeRuns(entries[i].1.runs.GetOr([]));
        FreshStatsValid(entries[i].1);
        m := m[entries[i].0 := SideStats(0, 0, 0, 0, 0, None, map k | k in sizes :: RunStats(0, 0), sizes, 0)];
        i := i + 1;
      }
    }

    /** The constructor's inner loop: one packet size per run index. */
    static method SizeRuns(runs: seq<RunConfig>) returns (sizes: map<int, int>)
      ensures sizes == PacketSizes(runs)
    {
      sizes := map[];
      var i := 0;
      while i < |runs|
        invariant 0 <= i <= |runs|
        invariant sizes == PacketSizes(runs[..i])
      {
        assert runs[..i + 1][..i] == runs[..i];
        sizes := sizes[runs[i].runIndex := 4 + runs[i].ledCount * 3];
        i := i + 1;
      }
      assert runs[..i] == runs;
    }

    /** The `FrameIngest` handler: each configured side present in the frame counts one
        ingested frame; sides that are not configured are ignored. */
    method OnFrameIngest(frame: IngestFrame)
      requires Valid()
      modifies this
      ensures Valid()
      ensures sides.Keys == old(sides).Keys
      ensures forall s :: s in sides ==>
        sides[s] == old(sides)[s].(framesIngested := old(sides)[s].framesIngested + (if s in frame.sides then 1 else 0))
      ensures errors == old(errors) && running == old(running) && log == old(log)
      ensures intervalsCreated == old(intervalsCreated) && intervalsCleared == old(intervalsCleared)
    {
      var m := CountIngest(sides, frame.sides.Keys);
      forall s | s in m
        ensures StatsValid(m[s])
      {
        assert StatsValid(sides[s]);
      }
      sides := m;
    }

    /** The loop of the `FrameIngest` handler: one more ingested frame for every side
        of `m` that is in `present`. */
    static method CountIngest(m: map<Side, SideStats>, present: set<Side>) returns (r: map<Side, SideStats>)
      ensures r.Keys == m.Keys
      ensures forall s :: s in r ==>
        r[s] == m[s].(framesIngested := m[s].framesIngested + (if s in present then 1 else 0))
    {
      r := m;
      var todo := present;
      while todo != {}
        invariant todo <= present
        invariant r.Keys == m.Keys
        invariant forall s :: s in r ==>
          r[s] == m[s].(framesIngested := m[s].framesIngested + (if s in present && s !in todo then 1 else 0))
        decreases |todo|
      {
        ghost var w := Witness(todo);
        var s :| s in todo;
        if s in r {
          r := r[s := r[s].(framesIngested := r[s].framesIngested + 1)];
        }
        todo := todo - {s};
      }
      assert todo == {};
      assert forall s :: s in r ==> r[s] == m[s].(framesIngested := m[s].framesIngested + (if s in present then 1 else 0));
    }

    /** The inner loop of `#report`: charge every sized run `delta` packets of its size. */
    static method ChargeRuns(runs: map<int, RunStats>, sizes: map<int, int>, delta: int) returns (r: map<int, RunStats>)
      requires runs.Keys == sizes.Keys
      ensures r == map k | k in runs :: Charge(runs[k], delta, sizes[k])
    {
      r := runs;
      var todo := sizes.Keys;
      while todo != {}
        invariant todo <= sizes.Keys
        invariant r.Keys == runs.Keys
        invariant forall k :: k in r ==> r[k] == if k in todo then runs[k] else Charge(runs[k], delta, sizes[k])
        decreases |todo|
      {
        ghost var w := Witness(todo);
        var x :| x in todo;
        r := r[x := Charge(r[x], delta, sizes[x])];
        todo := todo - {x};
      }
      assert todo == {};
      assert forall k :: k in r ==> r[k] == Charge(runs[k], delta, sizes[k]);
    }

    /** The `FrameAssembled` handler: a configured side counts one built frame and
        remembers its frame id. */
    method OnFrameAssembled(f: AssembledFrame)
      requires Valid()
      modifies this
      ensures Valid()
      ensures f.side in old(sides) ==>
        sides == old(sides)[f.side := old(sides)[f.side].(framesBuilt := old(sides)[f.side].framesBuilt + 1, lastFrameId := Some(f.frameId))]
      ensures f.side !in old(sides) ==> sides == old(sides)
      ensures errors == old(errors) && running == old(running) && log == old(log)
      ensures intervalsCreated == old(intervalsCreated) && intervalsCleared == old(intervalsCleared)
    {
      if f.side !in sides {
        return;
      }
      var st := sides[f.side];
      sides := sides[f.side := st.(framesBuilt := st.framesBuilt + 1, lastFrameId := Some(f.frameId))];
    }

    /** `recordError`: count one more occurrence of the message. */
    method RecordError(e: Reportable)
      requires Valid()
      modifies this
      ensures Valid()
      ensures errors == Record(old(errors), ErrorKey(e))
      ensures sides == old(sides) && running == old(running) && log == old(log)
      ensures intervalsCreated == old(intervalsCreated) && intervalsCleared == old(intervalsCleared)
    {
      var message := ErrorKey(e);
      RecordSpec(errors, message);
      if message in errors.counts {
        errors := errors.(counts := errors.counts[message := errors.counts[message] + 1]);
      } else {
        errors := ErrorTally(errors.keys + [message], errors.counts[message := 1]);
      }
    }

    /** `start`: report once and create the interval, unless one is already running. */
    method Start()
      requires Valid() && mailbox.Valid()
      modifies this
      ensures Valid() && running
      ensures old(running) ==>
        sides == old(sides) && errors == old(errors) && log == old(log) && intervalsCreated == old(intervalsCreated)
      ensures !old(running) ==>
        && sides.Keys == old(sides).Keys
        && (forall s :: s in sides ==>
              sides[s] == Reported(old(sides)[s], mailbox.SlotOf(s).framesSent, mailbox.SlotOf(s).framesDroppedOverwrite))
        && intervalsCreated == old(intervalsCreated) + 1
        && intervalsCleared == old(intervalsCleared)
        && log == old(log) + ErrorLines(old(errors).keys, old(errors).counts)
        && errors == NoErrors
    {
      if running {
        return;
      }
      Report();
      running := true;
      intervalsCreated := intervalsCreated + 1;
    }

    /** `stop`: clear the interval if there is one, then report a final time. */
    method Stop()
      requires Valid() && mailbox.Valid()
      modifies this
      ensures Valid() && !running
      ensures sides.Keys == old(sides).Keys
      ensures forall s :: s in sides ==>
        sides[s] == Reported(old(sides)[s], mailbox.SlotOf(s).framesSent, mailbox.SlotOf(s).framesDroppedOverwrite)
      ensures intervalsCreated == old(intervalsCreated)
      ensures intervalsCleared == old(intervalsCleared) + (if old(running) then 1 else 0)
      ensures log == old(log) + ErrorLines(old(errors).keys, old(errors).counts) && errors == NoErrors
    {
      if running {
        running := false;
        intervalsCleared := intervalsCleared + 1;
      }
      Report();
    }

    /** The counter part of `#report`: bring every side up to date with the mailbox,
        then log each aggregated error once and forget them. */
    method Report()
      requires Valid() && mailbox.Valid()
      modifies this
      ensures Valid()
      ensures sides.Keys == old(sides).Keys
      ensures forall s :: s in sides ==>
        sides[s] == Reported(old(sides)[s], mailbox.SlotOf(s).framesSent, mailbox.SlotOf(s).framesDroppedOverwrite)
      ensures log == old(log) + ErrorLines(old(errors).keys, old(errors).counts)
      ensures errors == NoErrors
      ensures running == old(running)
      ensures intervalsCreated == old(intervalsCreated) && intervalsCleared == old(intervalsCleared)
    {
      ReportSides();
      LogErrors();
      errors := NoErrors;
    }

    /** The per-side loop of `#report`, in configuration order. */
    method ReportSides()
      requires Valid() && mailbox.Valid()
      modifies this
      ensures Valid()
      ensures sides.Keys == old(sides).Keys
      ensures forall s :: s in sides ==>
        sides[s] == Reported(old(sides)[s], mailbox.SlotOf(s).framesSent, mailbox.SlotOf(s).framesDroppedOverwrite)
      ensures errors == old(errors) && log == old(log) && running == old(running)
      ensures intervalsCreated == old(intervalsCreated) && intervalsCleared == old(intervalsCleared)
    {
      var m := ReportAll(mailbox, names, sides);
      sides := m;
    }

    /** The loop of `#report` over the configured sides: each of them read from the
        mailbox and brought up to date. */
    static method ReportAll(mailbox: Mailbox, names: seq<Side>, sides0: map<Side, SideStats>) returns (m: map<Side, SideStats>)
      requires mailbox.Valid()
      requires forall s :: s in sides0 ==> StatsValid(sides0[s])
      requires forall s :: s in sides0 ==> s in names
      ensures forall s :: s in m <==> s in sides0
      ensures forall s :: s in m ==>
        && s in sides0 && StatsValid(sides0[s]) && StatsValid(m[s])
        && m[s] == Reported(sides0[s], mailbox.SlotOf(s).framesSent, mailbox.SlotOf(s).framesDroppedOverwrite)
    {
      m := sides0;
      var i := 0;
      while i < |names|
        invariant 0 <= i <= |names|
        invariant m.Keys == sides0.Keys
        invariant forall s :: s in m ==>
          && StatsValid(m[s])
          && m[s] == if s in names[..i]
                     then Reported(sides0[s], mailbox.SlotOf(s).framesSent, mailbox.SlotOf(s).framesDroppedOverwrite)
                     else sides0[s]
      {
        var n := names[i];
        assert forall s :: s in names[..i + 1] <==> s in names[..i] || s == n;
        if n in m && n !in names[..i] {
          var stats := mailbox.GetStats(n);
          var st := ReportOne(m[n], stats.framesSent, stats.framesDroppedOverwrite);
          m := m[n := st];
        }
        i := i + 1;
      }
      assert names[..i] == names;
    }

    /** One side of `#report`: charge every run the frames sent since the last report,
        take the mailbox's counters, and recompute the build drops. */
    static method ReportOne(st: SideStats, sent: nat, dropped: nat) returns (r: SideStats)
      requires StatsValid(st)
      ensures r == Reported(st, sent, dropped)
      ensures StatsValid(r)
    {
      var delta := sent - st.prevFramesSent;
      var runs := ChargeRuns(st.runs, st.runPacketSizes, delta);
      ReportedValid(st, sent, dropped);
      r := st.(framesSent := sent,
               framesDroppedOverwrite := dropped,
               runs := runs,
               framesDroppedBuild := st.framesIngested - st.framesBuilt,
               prevFramesSent := sent);
    }

    /** The error part of `#report`: one "msg (Nx)" line per aggregated message, in order. */
    method LogErrors()
      requires Valid()
      modifies this
      ensures Valid()
      ensures log == old(log) + ErrorLines(errors.keys, errors.counts)
      ensures sides == old(sides) && errors == old(errors) && running == old(running)
      ensures intervalsCreated == old(intervalsCreated) && intervalsCleared == old(intervalsCleared)
    {
      var lines := ErrorReport(errors.keys, errors.counts);
      log := log + lines;
    }

    /** The loop of the report over the tally's messages, in insertion order. */
    static method ErrorReport(keys: seq<string>, counts: map<string, nat>) returns (lines: seq<string>)
      requires forall m :: m in keys ==> m in counts
      ensures lines == ErrorLines(keys, counts)
    {
      lines := [];
      var j := 0;
      while j < |keys|
        invariant 0 <= j <= |keys|
        invariant lines == ErrorLines(keys[..j], counts)
      {
        assert keys[..j + 1][..j] == keys[..j];
        lines := lines + [ErrorLine(keys[j], counts[keys[j]])];
        j := j + 1;
      }
      assert keys[..j] == keys;
    }
  }
}
