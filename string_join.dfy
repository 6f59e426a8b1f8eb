/**
  StringJoinCalculator: two string inputs `STR:0` and `STR:1`, one string
  output `STR`. The framework fires it once per input timestamp with the two
  inputs synchronized; an input that has nothing at that timestamp arrives as
  an empty packet and is read as the text "<EMPTY>". Each firing sends the
  first string followed by the second at the input timestamp and returns Ok.
 */
module StringJoin {
  import opened Framework

  /** The text that stands in for an empty input packet. */
  const EmptyText: string := "<EMPTY>"

  /** The ports the join declares: string inputs STR:0 and STR:1, string output STR. */
  function GetContract(): (c: CalculatorContract)
    ensures |c.inputs| == 2 && DistinctPorts(c.inputs)
    ensures DeclaresString(c.inputs, "STR", 0) && DeclaresString(c.inputs, "STR", 1)
    ensures |c.outputs| == 1 && DeclaresString(c.outputs, "STR", 0)
  {
    var c := CalculatorContract([PortDecl("STR", 0, StringPayload), PortDecl("STR", 1, StringPayload)],
                                [PortDecl("STR", 0, StringPayload)]);
    assert c.inputs[0] == PortDecl("STR", 0, StringPayload);
    assert c.inputs[1] == PortDecl("STR", 1, StringPayload);
    assert c.outputs[0] == PortDecl("STR", 0, StringPayload);
    c
  }

  /** The string a firing reads from one input. */
  function InputString(p: Packet): string {
    match p.payload
    case Some(v) => v
    case None => EmptyText
  }

  /** The framework's promise about one firing: at least one input carries a
      packet, and every packet present sits at the firing's timestamp. */
  predicate Synchronized(in0: Packet, in1: Packet, inputTimestamp: int) {
    && (!in0.IsEmpty() || !in1.IsEmpty())
    && (!in0.IsEmpty() ==> in0.timestamp == inputTimestamp)
    && (!in1.IsEmpty() ==> in1.timestamp == inputTimestamp)
  }

  /** One firing: send InputString(in0) followed by InputString(in1) at the
      input timestamp; the outcome is always Ok. */
  function Process(in0: Packet, in1: Packet, inputTimestamp: int): (r: Firing)
    ensures r.status == Ok
    ensures |r.emitted| == 1
    ensures r.emitted[0].timestamp == inputTimestamp && r.emitted[0].payload.Some?
    ensures var s, s1, s2 := r.emitted[0].payload.value, InputString(in0), InputString(in1);
      |s| == |s1| + |s2| && s[..|s1|] == s1 && s[|s1|..] == s2
  {
    var s := InputString(in0) + InputString(in1);
    Firing(Ok, [Packet(Some(s), inputTimestamp)])
  }

  /** The text of the one packet a firing sends. */
  function Joined(in0: Packet, in1: Packet, inputTimestamp: int): string {
    Process(in0, in1, inputTimestamp).emitted[0].payload.value
  }

  /** With both inputs present the output is their plain concatenation, port 0 first. */
  lemma BothPresent(in0: Packet, in1: Packet, ts: int)
    requires !in0.IsEmpty() && !in1.IsEmpty()
    ensures Joined(in0, in1, ts) == in0.payload.value + in1.payload.value
  {
  }

  /** An empty input 0 puts "<EMPTY>" at the front of the output. */
  lemma FirstEmpty(in0: Packet, in1: Packet, ts: int)
    requires in0.IsEmpty()
    ensures var s := Joined(in0, in1, ts);
      |s| >= |EmptyText| && s[..|EmptyText|] == EmptyText && s[|EmptyText|..] == InputString(in1)
  {
  }

  /** An empty input 1 puts "<EMPTY>" at the end of the output. */
  lemma SecondEmpty(in0: Packet, in1: Packet, ts: int)
    requires in1.IsEmpty()
    ensures var s := Joined(in0, in1, ts);
      |s| >= |EmptyText| && s[|s| - |EmptyText|..] == EmptyText &&
      s[..|s| - |EmptyText|] == InputString(in0)
  {
  }

  /** Under the framework's synchronization the output belongs to the
      timestamp of a packet that really arrived, and contains that packet's
      string where its port puts it. */
  lemma SynchronizedOutput(in0: Packet, in1: Packet, ts: int)
    requires Synchronized(in0, in1, ts)
    ensures var out := Process(in0, in1, ts).emitted[0]; var s := out.payload.value;
      || (!in0.IsEmpty() && in0.timestamp == out.timestamp && s[..|in0.payload.value|] == in0.payload.value)
      || (!in1.IsEmpty() && in1.timestamp == out.timestamp && s[|s| - |in1.payload.value|..] == in1.payload.value)
  {
  }

  /** The inputs of one firing. */
  datatype Inputs = Inputs(in0: Packet, in1: Packet, timestamp: int)

  /** The STR output stream after the given firings, in firing order. */
  function JoinStream(fs: seq<Inputs>): seq<Packet> {
    if fs == [] then []
    else
      var f := fs[|fs| - 1];
      JoinStream(fs[..|fs| - 1]) + Process(f.in0, f.in1, f.timestamp).emitted
  }

  /** Each firing adds exactly one packet, at its own input timestamp. */
  lemma {:induction false} JoinStreamAt(fs: seq<Inputs>)
    ensures |JoinStream(fs)| == |fs|
    ensures forall i :: 0 <= i < |fs| ==>
      JoinStream(fs)[i] == Process(fs[i].in0, fs[i].in1, fs[i].timestamp).emitted[0]
  {
    if fs != [] {
      JoinStreamAt(fs[..|fs| - 1]);
    }
  }

  /** Firings at strictly increasing timestamps give a correctly ordered stream. */
  lemma JoinStreamOrdered(fs: seq<Inputs>)
    requires forall i, j :: 0 <= i < j < |fs| ==> fs[i].timestamp < fs[j].timestamp
    ensures StrictlyIncreasing(JoinStream(fs))
  {
    JoinStreamAt(fs);
  }
}
