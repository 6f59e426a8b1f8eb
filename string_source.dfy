/**
  StringSourceCalculator: a source node (no inputs, one string output `STR`)
  with one counter `t`. While `t < 17` each firing adds the packet
  "JESSICA" + decimal(t) at timestamp t and increments `t`; from then on every
  firing returns Stop and adds nothing.
 */
module StringSource {
  import opened Framework
  import opened Decimal

  /** How many packets the source sends before it stops. */
  const PacketCount: nat := 17

  const Prefix: string := "JESSICA"

  /** The ports the source declares: one string output `STR`, no input. */
  function GetContract(): (c: CalculatorContract)
    ensures c.inputs == []
    ensures |c.outputs| == 1 && DistinctPorts(c.outputs)
    ensures DeclaresString(c.outputs, "STR", 0)
  {
    var c := CalculatorContract([], [PortDecl("STR", 0, StringPayload)]);
    assert c.outputs[0] == PortDecl("STR", 0, StringPayload);
    c
  }

  /** The packet the source sends when its counter is `t`. */
  function Emitted(t: nat): Packet {
    Packet(Some(Prefix + NatToString(t)), t)
  }

  /** The packets sent by the first `n` successful firings, in order. */
  function Trace(n: nat): seq<Packet> {
    if n == 0 then [] else Trace(n - 1) + [Emitted(n - 1)]
  }

  class StringSourceCalculator {
    /** The counter; it is also the timestamp of the next packet. */
    var t: int

    ghost predicate Valid()
      reads this
    {
      0 <= t <= PacketCount
    }

    constructor ()
      ensures Valid() && t == 0
    {
      t := 0;
    }

    /** One firing: send the next packet on `str`, or stop once 17 are sent. */
    method Process(str: OutputStream) returns (status: Status)
      requires Valid()
      modifies this, str
      ensures Valid()
      ensures old(t) < PacketCount ==>
        status == Ok && t == old(t) + 1 && str.packets == old(str.packets) + [Emitted(old(t))]
      ensures old(t) >= PacketCount ==>
        status == Stop && t == old(t) && str.packets == old(str.packets)
      ensures status == Stop ==> t == PacketCount
      ensures old(str.packets) == Trace(old(t)) ==> str.packets == Trace(t)
    {
      if t >= PacketCount {
        return Stop;
      }
      var s := Prefix + NatToString(t);
      var p := Packet(Some(s), t);
      str.AddPacket(p);
      t := t + 1;
      return Ok;
    }
  }

  /** The packet for counter `t` carries "JESSICA" followed by the canonical
      decimal text of `t`, which reads back as `t`, at timestamp `t`. */
  lemma EmittedPayload(t: nat)
    ensures Emitted(t).timestamp == t && Emitted(t).payload.Some?
    ensures var s := Emitted(t).payload.value;
      |s| > |Prefix| && s[..|Prefix|] == Prefix &&
      Canonical(s[|Prefix|..]) && DecimalValue(s[|Prefix|..]) == t
  {
    var s := Emitted(t).payload.value;
    assert s[|Prefix|..] == NatToString(t);
    DecimalOfNatToString(t);
  }

  /** No two firings send the same string. */
  lemma EmittedInjective(a: nat, b: nat)
    ensures Emitted(a).payload == Emitted(b).payload <==> a == b
  {
    if Emitted(a).payload == Emitted(b).payload {
      EmittedPayload(a);
      EmittedPayload(b);
    }
  }

  /** The `n` first packets: the i-th was sent by the firing with counter i. */
  lemma {:induction false} TraceAt(n: nat)
    ensures |Trace(n)| == n
    ensures forall i :: 0 <= i < n ==> Trace(n)[i] == Emitted(i)
  {
    if n > 0 {
      TraceAt(n - 1);
    }
  }

  /** A prefix of the source's stream keeps the stream ordering discipline. */
  lemma TraceStrictlyIncreasing(n: nat)
    ensures StrictlyIncreasing(Trace(n))
  {
    TraceAt(n);
  }

  /** A full run: exactly 17 packets, the i-th at timestamp i carrying
      "JESSICA" + decimal(i), no two alike, timestamps strictly increasing. */
  lemma FullRun()
    ensures |Trace(PacketCount)| == 17
    ensures forall i :: 0 <= i < 17 ==>
      Trace(PacketCount)[i].timestamp == i &&
      Trace(PacketCount)[i].payload == Some(Prefix + NatToString(i))
    ensures forall i, j :: 0 <= i < j < 17 ==>
      Trace(PacketCount)[i].payload != Trace(PacketCount)[j].payload
    ensures StrictlyIncreasing(Trace(PacketCount))
  {
    TraceAt(PacketCount);
    forall i, j | 0 <= i < j < 17
      ensures Trace(PacketCount)[i].payload != Trace(PacketCount)[j].payload
    {
      EmittedInjective(i, j);
    }
  }

  /** The first and the last packet of a full run. */
  lemma FirstAndLast()
    ensures |Trace(PacketCount)| == 17 && Trace(PacketCount)[0] == Packet(Some("JESSICA0"), 0)
    ensures |Trace(PacketCount)| == 17 && Trace(PacketCount)[16] == Packet(Some("JESSICA16"), 16)
  {
    TraceAt(PacketCount);
    assert NatToString(0) == "0";
    assert NatToString(1) == "1";
    assert NatToString(16) == NatToString(1) + [DigitChar(6)] == "16";
    assert Trace(PacketCount)[0] == Emitted(0) && Prefix + "0" == "JESSICA0";
    assert Trace(PacketCount)[16] == Emitted(16) && Prefix + "16" == "JESSICA16";
  }

  /** A calculator driven by the framework, from construction until its
      first Stop: 18 firings, leaving the 17 packets of a full run. */
  method RunUntilStop() returns (str: OutputStream, firings: nat)
    ensures str.packets == Trace(PacketCount)
    ensures firings == PacketCount + 1
  {
    var source := new StringSourceCalculator();
    str := new OutputStream();
    var status := Ok;
    firings := 0;
    while status == Ok
      invariant source.Valid()
      invariant str.packets == Trace(source.t)
      invariant status == Ok ==> firings == source.t
      invariant status == Stop ==> source.t == PacketCount && firings == PacketCount + 1
      decreases if status == Ok then PacketCount + 1 - source.t else 0
    {
      status := source.Process(str);
      firings := firings + 1;
    }
  }
}
