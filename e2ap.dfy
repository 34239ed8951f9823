/**
 * The E2AP side of a control request: the requestor and instance id
 * allocator, the RAN function id counter, the encode helpers, and the
 * RIC control request message assembled from an e2sm control
 * (O-RAN.WG3.E2AP v01.01 section 9.1.1.8).
 */
module E2ap {
  import opened Wrappers
  import opened Asn
  import opened E2smControl

  /** Whether the RIC asks the node for an acknowledgement (the RICcontrolAckRequest IE). */
  datatype ControlRequestAck = CONTROL_REQUEST_NONE | CONTROL_REQUEST_ACK | CONTROL_REQUEST_NACK

  /** The enumeration's integer value, as the IE carries it. */
  function AckValue(a: ControlRequestAck): (v: int)
    ensures 0 <= v <= 2
  {
    match a
    case CONTROL_REQUEST_NONE => 0
    case CONTROL_REQUEST_ACK => 1
    case CONTROL_REQUEST_NACK => 2
  }

  function AckFromValue(v: int): Option<ControlRequestAck>
  {
    if v == 0 then Some(CONTROL_REQUEST_NONE)
    else if v == 1 then Some(CONTROL_REQUEST_ACK)
    else if v == 2 then Some(CONTROL_REQUEST_NACK)
    else None
  }

  /** The values NONE=0, ACK=1, NACK=2 name the three choices one to one. */
  lemma AckValueRoundTrip(a: ControlRequestAck, v: int)
    ensures AckFromValue(AckValue(a)) == Some(a)
    ensures AckFromValue(v).Some? <==> 0 <= v <= 2
    ensures AckFromValue(v).Some? ==> AckValue(AckFromValue(v).value) == v
  {
  }

  /** The E2AP agent's id state: a fixed requestor id and the next RIC instance id. */
  class E2AP {
    const requestorId: int
    var nextInstanceId: int

    constructor ()
      ensures requestorId == 1 && nextInstanceId == 1
    {
      requestorId := 1;
      nextInstanceId := 1;
    }

    method GetRequestorId() returns (id: int)
      ensures id == requestorId
    {
      return requestorId;
    }

    /** Hands out the counter and advances it: every id handed out is larger than all before it. */
    method GetNextInstanceId() returns (id: int)
      modifies this`nextInstanceId
      ensures id == old(nextInstanceId) && nextInstanceId == id + 1
    {
      id := nextInstanceId;
      nextInstanceId := nextInstanceId + 1;
    }
  }

  /** The process-wide RAN function id counter, starting at 0. */
  class RanFunctionIds {
    var next: int

    constructor ()
      ensures next == 0
    {
      next := 0;
    }

    method GetNextRanFunctionId() returns (id: int)
      modifies this
      ensures id == old(next) && next == id + 1
    {
      id := next;
      next := next + 1;
    }
  }

  /**
   * encode_pdu: -1 when the codec fails, leaving the buffer and the length
   * as they were; otherwise the encoded length, which is also written to
   * the length, with the buffer holding the PDU.
   */
  function EncodePdu(enc: Encoder, pdu: Asn, buf: Buf, len: int): (r: (int, Buf, int))
    ensures r.0 < 0 <==> enc(pdu) < 0
    ensures r.0 < 0 ==> r == (-1, buf, len)
    ensures r.0 >= 0 ==> r == (enc(pdu), Encoded(pdu), enc(pdu))
  {
    var (n, b) := EncodeToNewBuffer(enc, pdu, buf);
    if n < 0 then (-1, buf, len) else (n, b, n)
  }

  /**
   * The protocol IEs of a RIC control request, in order: request id,
   * RAN function id, the call process id when there is one, control
   * header, control message and ack request.
   */
  function ControlIEs(requestorId: int, instanceId: int, functionId: int,
                      callProcessId: Octets, header: Octets, message: Octets, ack: ControlRequestAck): seq<ControlIE>
  {
    [RicRequestId(requestorId, instanceId), RanFunctionId(functionId)]
    + (if callProcessId.buf != Null && callProcessId.len > 0 then [RicCallProcessId(callProcessId)] else [])
    + [RicControlHeader(header), RicControlMessage(message), RicControlAckRequest(AckValue(ack))]
  }

  /** The IE order of the message, and the call process id IE exactly when the control has a non-empty one. */
  lemma ControlIEsOrder(requestorId: int, instanceId: int, functionId: int,
                        callProcessId: Octets, header: Octets, message: Octets, ack: ControlRequestAck)
    ensures var ies := ControlIEs(requestorId, instanceId, functionId, callProcessId, header, message, ack);
      var present := callProcessId.buf != Null && callProcessId.len > 0;
      |ies| == (if present then 6 else 5) &&
      ies[0] == RicRequestId(requestorId, instanceId) &&
      ies[1] == RanFunctionId(functionId) &&
      (present <==> exists i | 0 <= i < |ies| :: ies[i].RicCallProcessId?) &&
      (present ==> ies[2] == RicCallProcessId(callProcessId)) &&
      ies[|ies| - 3] == RicControlHeader(header) &&
      ies[|ies| - 2] == RicControlMessage(message) &&
      ies[|ies| - 1] == RicControlAckRequest(AckValue(ack))
  {
    var ies := ControlIEs(requestorId, instanceId, functionId, callProcessId, header, message, ack);
    if !(callProcessId.buf != Null && callProcessId.len > 0) {
      assert forall i | 0 <= i < |ies| :: !ies[i].RicCallProcessId?;
    } else {
      assert ies[2].RicCallProcessId?;
    }
  }

  /** A RIC control request built around an e2sm control; `buf` and `len` hold its encoding once encoded. */
  class ControlRequest {
    var requestorId: int
    var instanceId: int
    var functionId: int
    const model: Control
    var ackRequest: ControlRequestAck
    var encoded: bool
    var buf: Buf
    var len: int

    constructor (requestorId: int, instanceId: int, functionId: int, model: Control, ackRequest: ControlRequestAck)
      ensures this.requestorId == requestorId && this.instanceId == instanceId && this.functionId == functionId
      ensures this.model == model && this.ackRequest == ackRequest
      ensures !encoded && buf == Null && len == 0
    {
      this.requestorId := requestorId;
      this.instanceId := instanceId;
      this.functionId := functionId;
      this.model := model;
      this.ackRequest := ackRequest;
      encoded := false;
      buf := Null;
      len := 0;
    }

    method SetInstanceId(id: int)
      modifies this`instanceId
      ensures instanceId == id
    {
      instanceId := id;
    }

    /** The PDU this request encodes to, from its ids and the control's current buffers. */
    function Pdu(): Asn
      reads this, model
    {
      RicControlRequestPdu(ControlIEs(requestorId, instanceId, functionId,
        Octets(model.callProcessId, model.callProcessIdLen),
        Octets(model.header, model.headerLen),
        Octets(model.message, model.messageLen), ackRequest))
    }

    /** Assembles the IE list one IE at a time, as the encoder does. */
    method BuildIEs() returns (ies: seq<ControlIE>)
      ensures RicControlRequestPdu(ies) == Pdu()
    {
      ies := [RicRequestId(requestorId, instanceId)];
      ies := ies + [RanFunctionId(functionId)];
      if model.callProcessId != Null && model.callProcessIdLen > 0 {
        ies := ies + [RicCallProcessId(Octets(model.callProcessId, model.callProcessIdLen))];
      }
      ies := ies + [RicControlHeader(Octets(model.header, model.headerLen))];
      ies := ies + [RicControlMessage(Octets(model.message, model.messageLen))];
      ies := ies + [RicControlAckRequest(AckValue(ackRequest))];
    }

    /**
     * Encodes once: an encoded request returns true untouched; otherwise a
     * codec failure returns false leaving the request unencoded, and a
     * success stores the PDU and its length.
     */
    method Encode(enc: Encoder) returns (ok: bool)
      modifies this`encoded, this`buf, this`len
      ensures old(encoded) ==> ok && encoded && buf == old(buf) && len == old(len)
      ensures !old(encoded) ==>
        var (n, b, l) := EncodePdu(enc, Pdu(), old(buf), old(len));
        ok == (n >= 0) && encoded == ok && buf == b && len == l
    {
      if encoded {
        return true;
      }
      var ies := BuildIEs();
      var pdu := RicControlRequestPdu(ies);
      var n := enc(pdu);
      if n < 0 {
        return false;
      }
      buf := Encoded(pdu);
      len := n;
      encoded := true;
      return true;
    }
  }
}
