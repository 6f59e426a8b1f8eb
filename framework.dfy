/**
  The small slice of the dataflow framework that the two string calculators
  touch: packets (a possibly empty payload with a timestamp), the status a
  firing returns, the output stream a calculator adds packets to, and the
  port declarations a calculator makes in its contract.
 */
module Framework {

  datatype Option<T> = None | Some(value: T)

  /** A packet: `None` is the empty packet the framework delivers on an input
      port that has nothing at the firing's timestamp. */
  datatype Packet = Packet(payload: Option<string>, timestamp: int) {
    predicate IsEmpty() {
      payload.None?
    }
  }

  /** The outcome of one firing: continue, or stop (the node emits no more). */
  datatype Status = Ok | Stop

  /** What one call of a pure `Process` produces: its outcome and the packets
      it adds to its output stream, in order. */
  datatype Firing = Firing(status: Status, emitted: seq<Packet>)

  /** The ordering discipline of a stream: timestamps strictly increase. */
  predicate StrictlyIncreasing(ps: seq<Packet>) {
    forall i, j :: 0 <= i < j < |ps| ==> ps[i].timestamp < ps[j].timestamp
  }

  /** An output stream of a calculator: the packets added to it so far. */
  class OutputStream {
    var packets: seq<Packet>

    constructor ()
      ensures packets == []
    {
      packets := [];
    }

    method AddPacket(p: Packet)
      modifies this
      ensures packets == old(packets) + [p]
    {
      packets := packets + [p];
    }
  }

  /** The only payload type the string calculators declare. */
  datatype PayloadType = StringPayload

  /** A port declaration: a tag, an index under that tag, and a payload type. */
  datatype PortDecl = PortDecl(tag: string, index: nat, payloadType: PayloadType)

  /** What `GetContract` declares: the input ports and the output ports. */
  datatype CalculatorContract = CalculatorContract(inputs: seq<PortDecl>, outputs: seq<PortDecl>)

  /** No two declarations name the same (tag, index) port. */
  predicate DistinctPorts(ports: seq<PortDecl>) {
    forall i, j :: 0 <= i < j < |ports| ==>
      ports[i].tag != ports[j].tag || ports[i].index != ports[j].index
  }

  /** The port `tag:index` is declared, with a string payload. */
  predicate DeclaresString(ports: seq<PortDecl>, tag: string, index: nat) {
    exists k :: 0 <= k < |ports| && ports[k] == PortDecl(tag, index, StringPayload)
  }
}
