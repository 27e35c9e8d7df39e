/** The per-side single-slot hand-off between the assembler and the UDP sender:
    most recent frame wins, with two counters per side. */
module Mailbox {
  import opened Common

  /** The abstract value of one slot. */
  datatype SlotState = SlotState(frame: Option<AssembledFrame>, framesDroppedOverwrite: nat, framesSent: nat)

  /** The snapshot `stats(side)` returns. */
  datatype Stats = Stats(framesDroppedOverwrite: nat, framesSent: nat)

  const EmptySlot := SlotState(None, 0, 0)

  /** `write`: store the frame, counting an overwrite when one was waiting. */
  function WriteSlot(s: SlotState, f: AssembledFrame): SlotState
  {
    SlotState(Some(f), s.framesDroppedOverwrite + (if s.frame.Some? then 1 else 0), s.framesSent)
  }

  /** `take`: return the waiting frame (if any) and clear the slot. */
  function TakeSlot(s: SlotState): (Option<AssembledFrame>, SlotState)
  {
    if s.frame.Some? then (s.frame, SlotState(None, s.framesDroppedOverwrite, s.framesSent + 1))
    else (None, s)
  }

  function StatsOf(s: SlotState): Stats
  {
    Stats(s.framesDroppedOverwrite, s.framesSent)
  }

  // Properties of one slot under single operations.

  lemma WriteThenTake(s: SlotState, f: AssembledFrame)
    ensures TakeSlot(WriteSlot(s, f)).0 == Some(f)
    ensures TakeSlot(WriteSlot(s, f)).1.frame == None
    ensures TakeSlot(WriteSlot(s, f)).1.framesSent == s.framesSent + 1
  {
  }

  lemma TwoWritesDropOne(s: SlotState, f1: AssembledFrame, f2: AssembledFrame)
    ensures WriteSlot(WriteSlot(s, f1), f2).framesDroppedOverwrite == WriteSlot(s, f1).framesDroppedOverwrite + 1
    ensures TakeSlot(WriteSlot(WriteSlot(s, f1), f2)).0 == Some(f2)
  {
  }

  lemma WriteToEmptyCountsNothing(s: SlotState, f: AssembledFrame)
    requires s.frame == None
    ensures StatsOf(WriteSlot(s, f)) == StatsOf(s)
  {
  }

  lemma TakeEmpty(s: SlotState)
    requires s.frame == None
    ensures TakeSlot(s) == (None, s)
  {
  }

  lemma TakeTwiceIsEmpty(s: SlotState)
    ensures TakeSlot(TakeSlot(s).1).0 == None
    ensures TakeSlot(TakeSlot(s).1).1 == TakeSlot(s).1
  {
  }

  // Properties of one slot under any sequence of operations.

  datatype Op = WriteOp(f: AssembledFrame) | TakeOp

  function Step(s: SlotState, op: Op): SlotState
  {
    match op
    case WriteOp(f) => WriteSlot(s, f)
    case TakeOp => TakeSlot(s).1
  }

  function Apply(s: SlotState, ops: seq<Op>): SlotState
    decreases |ops|
  {
    if ops == [] then s else Apply(Step(s, ops[0]), ops[1..])
  }

  function Writes(ops: seq<Op>): nat
  {
    if ops == [] then 0 else (if ops[0].WriteOp? then 1 else 0) + Writes(ops[1..])
  }

  function Held(s: SlotState): nat
  {
    if s.frame.Some? then 1 else 0
  }

  /** Every frame ever written is either sent, dropped by an overwrite, or still
      waiting in the slot. */
  lemma {:induction false} Conservation(s: SlotState, ops: seq<Op>)
    ensures var t := Apply(s, ops);
      t.framesSent + t.framesDroppedOverwrite + Held(t)
      == s.framesSent + s.framesDroppedOverwrite + Held(s) + Writes(ops)
    decreases |ops|
  {
    if ops != [] {
      Conservation(Step(s, ops[0]), ops[1..]);
    }
  }

  lemma FreshMailboxConservation(ops: seq<Op>)
    ensures var t := Apply(EmptySlot, ops);
      t.framesSent + t.framesDroppedOverwrite + Held(t) == Writes(ops)
  {
    Conservation(EmptySlot, ops);
  }

  /** Counters never decrease. */
  lemma {:induction false} CountersMonotone(s: SlotState, ops: seq<Op>)
    ensures Apply(s, ops).framesSent >= s.framesSent
    ensures Apply(s, ops).framesDroppedOverwrite >= s.framesDroppedOverwrite
    decreases |ops|
  {
    if ops != [] {
      CountersMonotone(Step(s, ops[0]), ops[1..]);
    }
  }

  /** The state of one side, as the source's `slots[side]` object. */
  class Slot {
    var frame: Option<AssembledFrame>
    var framesDroppedOverwrite: nat
    var framesSent: nat
    ghost var writes: nat  // number of `write` calls on this side so far

    ghost predicate Valid()
      reads this
    {
      framesSent + framesDroppedOverwrite + (if frame.Some? then 1 else 0) == writes
    }

    function State(): SlotState
      reads this
    {
      SlotState(frame, framesDroppedOverwrite, framesSent)
    }

    constructor ()
      ensures Valid() && State() == EmptySlot && writes == 0
    {
      frame := None;
      framesDroppedOverwrite := 0;
      framesSent := 0;
      writes := 0;
    }
  }

  class Mailbox {
    const left: Slot
    const right: Slot

    ghost predicate Valid()
      reads this, left, right
    {
      left != right && left.Valid() && right.Valid()
    }

    function SlotOf(side: Side): Slot
    {
      if side == Left then left else right
    }

    constructor ()
      ensures Valid() && fresh(left) && fresh(right)
      ensures left.State() == EmptySlot && right.State() == EmptySlot
      ensures left.writes == 0 && right.writes == 0
    {
      left := new Slot();
      right := new Slot();
    }

    method Write(side: Side, f: AssembledFrame)
      requires Valid()
      modifies SlotOf(side)
      ensures Valid()
      ensures SlotOf(side).State() == WriteSlot(old(SlotOf(side).State()), f)
      ensures SlotOf(side).writes == old(SlotOf(side).writes) + 1
      ensures unchanged(SlotOf(Other(side)))
    {
      var slot := SlotOf(side);
      if slot.frame.Some? {
        slot.framesDroppedOverwrite := slot.framesDroppedOverwrite + 1;
      }
      slot.frame := Some(f);
      slot.writes := slot.writes + 1;
    }

    method Take(side: Side) returns (f: Option<AssembledFrame>)
      requires Valid()
      modifies SlotOf(side)
      ensures Valid()
      ensures (f, SlotOf(side).State()) == TakeSlot(old(SlotOf(side).State()))
      ensures SlotOf(side).writes == old(SlotOf(side).writes)
      ensures unchanged(SlotOf(Other(side)))
    {
      var slot := SlotOf(side);
      f := slot.frame;
      if f.Some? {
        slot.framesSent := slot.framesSent + 1;
        slot.frame := None;
      }
    }

    /** A read-only snapshot of the two counters. */
    method GetStats(side: Side) returns (st: Stats)
      requires Valid()
      ensures st.framesSent == SlotOf(side).framesSent
      ensures st.framesDroppedOverwrite == SlotOf(side).framesDroppedOverwrite
      ensures st.framesSent + st.framesDroppedOverwrite <= SlotOf(side).writes
    {
      var slot := SlotOf(side);
      st := Stats(slot.framesDroppedOverwrite, slot.framesSent);
    }
  }

  /** A fresh mailbox: `take("left")` yields nothing and the stats stay {0, 0}. */
  method FreshMailboxScenario()
  {
    var m := new Mailbox();
    var f := m.Take(Left);
    assert f == None;
    var st := m.GetStats(Left);
    assert st == Stats(0, 0);
  }
}
