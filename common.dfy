/** Shared vocabulary of the LED sender pipeline: the two sides, bytes, the
    unsigned 32-bit frame id, the runtime side configuration, the frames that
    travel from the renderer to the UDP sender, and decimal text. */
module Common {

  /** The two independently addressed LED arrays. Any other side name makes the
      mailbox crash in the source, so the model only has these two. */
  datatype Side = Left | Right

  function SideName(s: Side): string
  {
    match s
    case Left => "left"
    case Right => "right"
  }

  function Other(s: Side): (o: Side)
    ensures o != s
  {
    if s == Left then Right else Left
  }

  datatype Option<T> = None | Some(value: T)
  {
    function GetOr(default: T): T
    {
      match this
      case Some(v) => v
      case None => default
    }
  }

  /** An element of a non-empty set, for loops that visit a set one element at a time. */
  lemma Witness<T>(s: set<T>) returns (x: T)
    requires s != {}
    ensures x in s
  {
    x :| x in s;
  }

  datatype Result<T, E> = Ok(value: T) | Err(error: E)

  newtype byte = x: int | 0 <= x < 256

  const TWO_32: int := 0x1_0000_0000

  /** JavaScript's `n >>> 0` on an integral number: reduction modulo 2^32. */
  function ToUint32(n: int): (r: int)
    ensures 0 <= r < TWO_32
    ensures (n - r) % TWO_32 == 0
    ensures 0 <= n < TWO_32 ==> r == n
  {
    n % TWO_32
  }

  /** One section of a run, as the layout describes it. */
  datatype SectionConfig = SectionConfig(id: string, ledCount: int)

  /** One run of a layout. `sections` is None when the JSON has no sections array. */
  datatype RunConfig = RunConfig(runIndex: int, ledCount: int, sections: Option<seq<SectionConfig>>)

  /** One entry of the runtime configuration's `sides` object: the side's layout
      (its optional `side` name and `runs`) merged with the controller address.
      `runs` is None when it is missing or not an array. */
  datatype SideConfig = SideConfig(side: Option<Side>, runs: Option<seq<RunConfig>>, ip: string, portBase: int)

  /** The `sides` object of the runtime configuration, in property order. */
  type SideEntries = seq<(Side, SideConfig)>

  /** Object property names are unique. */
  predicate DistinctNames(entries: SideEntries)
  {
    forall i, j :: 0 <= i < j < |entries| ==> entries[i].0 != entries[j].0
  }

  function Sum(secs: seq<SectionConfig>): int
  {
    if secs == [] then 0 else Sum(secs[..|secs| - 1]) + secs[|secs| - 1].ledCount
  }

  /** One run buffer of an assembled frame: three bytes (R, G, B) per LED. */
  datatype RunData = RunData(runIndex: int, data: seq<byte>)

  /** The value the assembler hands to the mailbox and the sender takes. */
  datatype AssembledFrame = AssembledFrame(side: Side, frameId: int, runs: seq<RunData>)

  /** The decoded payload of one section of an ingest frame: the declared
      `length` and the bytes its `rgb_b64` field decodes to. */
  datatype SectionPayload = SectionPayload(length: int, rgb: seq<byte>)

  /** One parsed NDJSON record: frame number, format tag (None when absent)
      and, per side, the section payloads keyed by section id. */
  datatype IngestFrame = IngestFrame(frame: int, format: Option<string>, sides: map<Side, map<string, SectionPayload>>)

  // Decimal text, as JavaScript template literals print integers.

  function Digit(d: int): char
    requires 0 <= d < 10
  {
    "0123456789"[d]
  }

  function DigitValue(c: char): int
  {
    c as int - '0' as int
  }

  predicate AllDigits(s: string)
  {
    forall i :: 0 <= i < |s| ==> '0' <= s[i] <= '9'
  }

  function NatToString(n: nat): (s: string)
    ensures 1 <= |s| && AllDigits(s)
  {
    if n < 10 then [Digit(n)] else NatToString(n / 10) + [Digit(n % 10)]
  }

  /** The number a string of decimal digits denotes. */
  function DigitsValue(s: string): nat
    requires AllDigits(s)
  {
    if s == [] then 0 else DigitsValue(s[..|s| - 1]) * 10 + DigitValue(s[|s| - 1])
  }

  /** Decimal printing can be read back: the text of a number determines it. */
  lemma {:induction false} NatToStringRoundTrip(n: nat)
    ensures DigitsValue(NatToString(n)) == n
  {
    var s := NatToString(n);
    if n < 10 {
      assert s[..0] == [];
    } else {
      NatToStringRoundTrip(n / 10);
      assert s[..|s| - 1] == NatToString(n / 10);
    }
  }

  /** An integer as JavaScript prints it: a minus sign before negative numbers. */
  function IntToString(n: int): string
  {
    if n < 0 then "-" + NatToString(-n) else NatToString(n)
  }

  lemma NatToStringInjective(m: nat, n: nat)
    ensures NatToString(m) == NatToString(n) ==> m == n
  {
    NatToStringRoundTrip(m);
    NatToStringRoundTrip(n);
  }

  /** The stop calls of the components. The command-line handlers thread one ghost trace
      through the components' `stop` methods, which append their own call to it. */
  datatype Call = StopSender | StopRenderer
}
