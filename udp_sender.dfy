/** The UDP sender: per side, a timer tick takes the latest frame from the mailbox
    and sends one datagram per run; plus the one-byte reboot signal. Sockets are
    modelled by their open/closed state and sending by appending to an outbox. */
module UdpSender {
  import opened Common
  import opened Mailbox
  import opened Telemetry

  /** One UDP datagram as handed to `socket.send`. */
  datatype Datagram = Datagram(ip: string, port: int, payload: seq<byte>)

  // The packet header: the frame id as an unsigned 32-bit big-endian integer.

  function EncodeBE32(n: int): (b: seq<byte>)
    requires 0 <= n < TWO_32
    ensures |b| == 4
  {
    [(n / 0x100_0000) as byte, (n / 0x1_0000 % 256) as byte, (n / 256 % 256) as byte, (n % 256) as byte]
  }

  function DecodeBE32(b: seq<byte>): (n: int)
    requires |b| == 4
    ensures 0 <= n < TWO_32
  {
    b[0] as int * 0x100_0000 + b[1] as int * 0x1_0000 + b[2] as int * 256 + b[3] as int
  }

  /** `writeUInt32BE` can be read back: decoding the header gives the number written. */
  lemma EncodeDecodeBE32(n: int)
    requires 0 <= n < TWO_32
    ensures DecodeBE32(EncodeBE32(n)) == n
  {
    var b := EncodeBE32(n);
    var q := n / 256;
    assert n == q * 256 + n % 256;
    assert q == (n / 0x1_0000) * 256 + q % 256 by {
      assert n / 0x1_0000 == q / 256;
    }
    assert n / 0x1_0000 == (n / 0x100_0000) * 256 + n / 0x1_0000 % 256 by {
      assert n / 0x100_0000 == (n / 0x1_0000) / 256;
    }
    assert q % 256 == n / 256 % 256;
  }

  /** Every 4-byte header is the encoding of exactly one 32-bit number. */
  lemma DecodeEncodeBE32(b: seq<byte>)
    requires |b| == 4
    ensures EncodeBE32(DecodeBE32(b)) == b
  {
    var n := DecodeBE32(b);
    var b0, b1, b2, b3 := b[0] as int, b[1] as int, b[2] as int, b[3] as int;
    assert n == ((b0 * 256 + b1) * 256 + b2) * 256 + b3;
    assert n % 256 == b3 && n / 256 == (b0 * 256 + b1) * 256 + b2;
    var q := n / 256;
    assert q % 256 == b2 && q / 256 == b0 * 256 + b1;
    assert n / 0x1_0000 == q / 256 && n / 0x100_0000 == (q / 256) / 256;
    assert (b0 * 256 + b1) % 256 == b1 && (b0 * 256 + b1) / 256 == b0;
    assert EncodeBE32(n) == [b[0], b[1], b[2], b[3]];
  }

  /** The bytes of one run's datagram: the 4-byte header, then the run's data. */
  function Packet(frameId: int, data: seq<byte>): seq<byte>
  {
    EncodeBE32(ToUint32(frameId)) + data
  }

  /** A packet is four bytes longer than its run data, its header decodes to the frame
      id modulo 2^32, and everything after the header is the run data. */
  lemma PacketSpec(frameId: int, data: seq<byte>)
    ensures |Packet(frameId, data)| == 4 + |data|
    ensures DecodeBE32(Packet(frameId, data)[..4]) == ToUint32(frameId)
    ensures Packet(frameId, data)[4..] == data
  {
    var p := Packet(frameId, data);
    assert p[..4] == EncodeBE32(ToUint32(frameId));
    EncodeDecodeBE32(ToUint32(frameId));
  }

  /** The datagram of one run: to `portBase + run_index` at the side's address. */
  function RunDatagram(cfg: SideConfig, frameId: int, run: RunData): Datagram
  {
    Datagram(cfg.ip, cfg.portBase + run.runIndex, Packet(frameId, run.data))
  }

  /** The ports `socket.send` accepts. For any other it throws `ERR_SOCKET_BAD_PORT`
      synchronously, before it looks at the socket; no range check on `portBase` or
      `run_index` comes earlier. */
  predicate PortOk(port: int)
  {
    0 < port <= 0xFFFF
  }

  /** How many leading runs of a frame the send loop gets through: it throws at the
      first run whose port `socket.send` refuses. */
  function SentRuns(cfg: SideConfig, runs: seq<RunData>): (n: nat)
    ensures n <= |runs|
    ensures forall k :: 0 <= k < n ==> PortOk(cfg.portBase + runs[k].runIndex)
    ensures n < |runs| ==> !PortOk(cfg.portBase + runs[n].runIndex)
  {
    if runs == [] || !PortOk(cfg.portBase + runs[0].runIndex) then 0
    else
      var n := SentRuns(cfg, runs[1..]);
      assert forall k :: 1 <= k <= n ==> runs[k] == runs[1..][k - 1];
      1 + n
  }

  /** The datagrams of a frame's runs, in run order. */
  function FrameDatagrams(cfg: SideConfig, frameId: int, runs: seq<RunData>): seq<Datagram>
  {
    if runs == [] then []
    else FrameDatagrams(cfg, frameId, runs[..|runs| - 1]) + [RunDatagram(cfg, frameId, runs[|runs| - 1])]
  }

  /** One datagram per run, in run order, each to the run's port and carrying the frame
      id header followed by that run's bytes. */
  lemma {:induction false} FrameDatagramsSpec(cfg: SideConfig, frameId: int, runs: seq<RunData>)
    ensures |FrameDatagrams(cfg, frameId, runs)| == |runs|
    ensures forall k :: 0 <= k < |runs| ==>
      var d := FrameDatagrams(cfg, frameId, runs)[k];
      && d.ip == cfg.ip
      && d.port == cfg.portBase + runs[k].runIndex
      && |d.payload| == 4 + |runs[k].data|
      && DecodeBE32(d.payload[..4]) == ToUint32(frameId)
      && d.payload[4..] == runs[k].data
  {
    if runs != [] {
      var n := |runs| - 1;
      FrameDatagramsSpec(cfg, frameId, runs[..n]);
      PacketSpec(frameId, runs[n].data);
      forall k | 0 <= k < n
        ensures runs[..n][k] == runs[k]
      {
      }
    }
  }

  /** The reboot signal: a single zero byte to `portBase + 100`. */
  function RebootDatagram(cfg: SideConfig): (d: Datagram)
    ensures d.payload == [0] && d.port == cfg.portBase + 100 && d.ip == cfg.ip
  {
    Datagram(cfg.ip, cfg.portBase + 100, [0])
  }

  /** `config.sides?.[name]`. */
  function Lookup(entries: SideEntries, name: Side): (r: Option<SideConfig>)
    ensures r.None? <==> forall k :: 0 <= k < |entries| ==> entries[k].0 != name
    ensures r.Some? ==> exists k :: 0 <= k < |entries| && entries[k] == (name, r.value)
  {
    if entries == [] then None
    else if entries[0].0 == name then Some(entries[0].1)
    else
      var r := Lookup(entries[1..], name);
      assert forall k :: 1 <= k < |entries| ==> entries[k] == entries[1..][k - 1];
      if r.Some? then
        var j :| 0 <= j < |entries[1..]| && entries[1..][j] == (name, r.value);
        assert entries[j + 1] == (name, r.value);
        r
      else r
  }

  /** The messages a failed send is reported with. */
  function SendErrorMessage(name: Side, err: string): string
  {
    "UDP send error for side " + SideName(name) + ": " + err
  }

  function RebootErrorMessage(name: Side, err: string): string
  {
    "UDP reboot send error for side " + SideName(name) + ": " + err
  }

  datatype SocketState = Open | Closed
  datatype TimerState = Active | Cleared

  class UdpSender {
    const sides: SideEntries        // `config.sides || {}`
    const mailbox: Mailbox
    const telemetry: Telemetry?
    var sockets: map<Side, SocketState>
    var timers: map<Side, TimerState>
    ghost var outbox: seq<Datagram>  // every `socket.send`, in order
    ghost var log: seq<string>       // logger.error lines

    /** Sockets exist only for configured sides, and they are all open or all closed:
        `start` opens the socket of every configured side and `stop` closes them all.
        A running timer has an open socket: `stop` clears the timers before it closes. */
    ghost predicate Valid()
      reads this
    {
      && (forall s :: s in sockets ==> Lookup(sides, s).Some?)
      && (forall s, t :: s in sockets && t in sockets ==> sockets[s] == sockets[t])
      && (forall s :: s in timers && timers[s] == Active ==> s in sockets && sockets[s] == Open)
    }

    constructor (entries: SideEntries, mb: Mailbox, tm: Telemetry?)
      ensures Valid()
      ensures sides == entries && mailbox == mb && telemetry == tm
      ensures sockets == map[] && timers == map[] && outbox == [] && log == []
    {
      sides := entries;
      mailbox := mb;
      telemetry := tm;
      sockets := map[];
      timers := map[];
      outbox := [];
      log := [];
    }

    /** `start`: one open socket and one active timer per configured side. */
    method Start()
      requires Valid()
      modifies this
      ensures Valid()
      ensures forall s :: s in sockets <==> s in old(sockets) || Lookup(sides, s).Some?
      ensures forall s :: s in sockets ==> sockets[s] == if Lookup(sides, s).Some? then Open else old(sockets)[s]
      ensures forall s :: s in timers <==> s in old(timers) || Lookup(sides, s).Some?
      ensures forall s :: s in timers ==> timers[s] == if Lookup(sides, s).Some? then Active else old(timers)[s]
      ensures outbox == old(outbox) && log == old(log)
    {
      var i := 0;
      while i < |sides|
        invariant 0 <= i <= |sides|
        invariant forall s :: s in sockets <==> s in old(sockets) || s in Names(sides[..i])
        invariant forall s :: s in sockets ==> sockets[s] == if s in Names(sides[..i]) then Open else old(sockets)[s]
        invariant forall s :: s in timers <==> s in old(timers) || s in Names(sides[..i])
        invariant forall s :: s in timers ==> timers[s] == if s in Names(sides[..i]) then Active else old(timers)[s]
        invariant outbox == old(outbox) && log == old(log)
      {
        assert Names(sides[..i + 1]) == Names(sides[..i]) + {sides[i].0} by {
          assert sides[..i + 1][..i] == sides[..i];
        }
        sockets := sockets[sides[i].0 := Open];
        timers := timers[sides[i].0 := Active];
        i := i + 1;
      }
      assert sides[..i] == sides;
      NamesLookup(sides);
    }

    /** `stop`: clear every timer, then close every socket ever opened; the maps keep
        their entries. Closing a socket that is already closed throws, so a second
        `stop` throws after clearing the timers and before closing anything. The call
        is appended to the ghost trace `calls`. */
    method Stop(ghost calls: seq<Call>) returns (thrown: bool, ghost calls': seq<Call>)
      requires Valid()
      modifies this
      ensures Valid()
      ensures thrown <==> exists s :: s in old(sockets) && old(sockets)[s] == Closed
      ensures timers.Keys == old(timers).Keys && forall s :: s in timers ==> timers[s] == Cleared
      ensures !thrown ==> sockets.Keys == old(sockets).Keys && forall s :: s in sockets ==> sockets[s] == Closed
      ensures thrown ==> sockets == old(sockets)
      ensures outbox == old(outbox) && log == old(log)
      ensures calls' == calls + [StopSender]
    {
      calls' := calls + [StopSender];
      timers := ClearAll(timers);
      var closed;
      thrown, closed := CloseAll(sockets);
      if !thrown {
        sockets := closed;
      }
    }

    /** The timer loop of `stop`: every timer cleared. */
    static method ClearAll(timers: map<Side, TimerState>) returns (m: map<Side, TimerState>)
      ensures m.Keys == timers.Keys && forall s :: s in m ==> m[s] == Cleared
    {
      m := timers;
      var todo := timers.Keys;
      while todo != {}
        invariant todo <= timers.Keys && m.Keys == timers.Keys
        invariant forall s :: s in m ==> m[s] == if s in todo then timers[s] else Cleared
        decreases |todo|
      {
        ghost var w := Witness(todo);
        var s :| s in todo;
        m := m[s := Cleared];
        todo := todo - {s};
      }
    }

    /** The socket loop of `stop`: every socket closed, unless one is closed already,
        which makes `close` throw. */
    static method CloseAll(sockets: map<Side, SocketState>) returns (thrown: bool, c: map<Side, SocketState>)
      ensures thrown <==> exists s :: s in sockets && sockets[s] == Closed
      ensures !thrown ==> c.Keys == sockets.Keys && forall s :: s in c ==> c[s] == Closed
    {
      c := sockets;
      var todo := sockets.Keys;
      while todo != {}
        invariant todo <= sockets.Keys && c.Keys == sockets.Keys
        invariant forall s :: s in c ==> c[s] == if s in todo then sockets[s] else Closed
        invariant forall s :: s in sockets && s !in todo ==> sockets[s] == Open
        decreases |todo|
      {
        ghost var w := Witness(todo);
        var s :| s in todo;
        if sockets[s] == Closed {
          return true, c;
        }
        c := c[s := Closed];
        todo := todo - {s};
      }
      thrown := false;
    }

    /** `#sendAvailable`, one timer tick for a configured side: take the side's frame
        and, if there was one, send one datagram per run, in run order. A run whose port
        `socket.send` refuses throws out of the tick, after the runs before it were sent. */
    method SendAvailable(name: Side, cfg: SideConfig) returns (thrown: bool)
      requires Valid() && mailbox.Valid()
      requires Lookup(sides, name) == Some(cfg)
      requires name in timers && timers[name] == Active
      modifies this, mailbox.SlotOf(name)
      ensures Valid() && mailbox.Valid()
      ensures var (f, st) := TakeSlot(old(mailbox.SlotOf(name).State()));
        && mailbox.SlotOf(name).State() == st
        && (f.None? ==> !thrown && outbox == old(outbox))
        && (f.Some? ==>
              var n := SentRuns(cfg, f.value.runs);
              && (thrown <==> n < |f.value.runs|)
              && outbox == old(outbox) + FrameDatagrams(cfg, f.value.frameId, f.value.runs[..n]))
      ensures mailbox.SlotOf(name).frame == None
      ensures unchanged(mailbox.SlotOf(Other(name)))
      ensures sockets == old(sockets) && timers == old(timers) && log == old(log)
    {
      var frame := mailbox.Take(name);
      if frame.None? {
        return false;
      }
      var sent;
      thrown, sent := SendRuns(cfg, frame.value.frameId, frame.value.runs);
      outbox := outbox + sent;
    }

    /** The run loop of `#sendAvailable`: one datagram per run, in run order, until a
        run whose port `socket.send` refuses throws; `sent` lists what went out. */
    static method SendRuns(cfg: SideConfig, frameId: int, runs: seq<RunData>) returns (thrown: bool, sent: seq<Datagram>)
      ensures thrown <==> SentRuns(cfg, runs) < |runs|
      ensures sent == FrameDatagrams(cfg, frameId, runs[..SentRuns(cfg, runs)])
    {
      ghost var n := SentRuns(cfg, runs);
      sent := [];
      var i := 0;
      while i < |runs|
        invariant 0 <= i <= n
        invariant sent == FrameDatagrams(cfg, frameId, runs[..i])
      {
        var port := cfg.portBase + runs[i].runIndex;
        if !PortOk(port) {
          return true, sent;
        }
        assert runs[..i + 1][..i] == runs[..i];
        sent := sent + [Datagram(cfg.ip, port, Packet(frameId, runs[i].data))];
        i := i + 1;
      }
      thrown := false;
    }

    /** `sendRebootSignal`: nothing happens for an unconfigured side or before `start`;
        `send` throws for a refused port and for a closed socket; otherwise one datagram
        goes out. */
    method SendRebootSignal(name: Side) returns (thrown: bool)
      modifies this
      ensures Lookup(sides, name).None? || name !in sockets ==> !thrown && outbox == old(outbox)
      ensures Lookup(sides, name).Some? && name in sockets ==>
        var d := RebootDatagram(Lookup(sides, name).value);
        && (thrown <==> !PortOk(d.port) || sockets[name] == Closed)
        && outbox == old(outbox) + (if thrown then [] else [d])
      ensures sockets == old(sockets) && timers == old(timers) && log == old(log)
    {
      var cfg := Lookup(sides, name);
      if cfg.None? || name !in sockets {
        return false;
      }
      if !PortOk(cfg.value.portBase + 100) || sockets[name] == Closed {
        return true;
      }
      outbox := outbox + [Datagram(cfg.value.ip, cfg.value.portBase + 100, [0])];
      thrown := false;
    }

    /** The callback of a failed send (`reboot` for the reboot signal's): the message
        goes to telemetry when there is one, otherwise to the error log; it is never thrown. */
    method OnSendError(name: Side, err: string, reboot: bool)
      requires telemetry != null ==> telemetry.Valid()
      modifies this, telemetry
      ensures var msg := if reboot then RebootErrorMessage(name, err) else SendErrorMessage(name, err);
        && (telemetry != null ==>
              && telemetry.Valid()
              && telemetry.errors == Record(old(telemetry.errors), msg)
              && telemetry.sides == old(telemetry.sides)
              && telemetry.log == old(telemetry.log)
              && log == old(log))
        && (telemetry == null ==> log == old(log) + [msg])
      ensures sockets == old(sockets) && timers == old(timers) && outbox == old(outbox)
    {
      var msg := if reboot then RebootErrorMessage(name, err) else SendErrorMessage(name, err);
      if telemetry != null {
        telemetry.RecordError(Text(msg));
      } else {
        log := log + [msg];
      }
    }
  }

  /** The names of a list of side entries. */
  function Names(entries: SideEntries): set<Side>
  {
    set k | 0 <= k < |entries| :: entries[k].0
  }

  lemma NamesLookup(entries: SideEntries)
    ensures forall s :: s in Names(entries) <==> Lookup(entries, s).Some?
  {
    forall s
      ensures s in Names(entries) <==> Lookup(entries, s).Some?
    {
      if Lookup(entries, s).None? {
        assert forall k :: 0 <= k < |entries| ==> entries[k].0 != s;
      } else {
        var k :| 0 <= k < |entries| && entries[k] == (s, Lookup(entries, s).value);
        assert entries[k].0 == s;
      }
    }
  }
}
