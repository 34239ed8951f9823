/**
 * The abstract syntax of the E2 messages the core builds and reads.
 *
 * The ASN.1 values are datatypes; the asn1c aligned-PER codec
 * (ITU-T X.691) is not modelled: an encoder is an uninterpreted function
 * from a value to the encoded length (negative when encoding fails), and
 * a decoder an uninterpreted function from the received octets to a value
 * or a failure. A buffer produced by the encoder is represented by the
 * value it encodes.
 */
module Asn {
  import opened Wrappers

  // ------------------------------------------------------------ E2SM-NexRAN

  /** E2SM-NexRAN-ControlMessage-Id, carried in the control header. */
  datatype NexranMessageId =
    | SliceConfigRequestId
    | SliceDeleteRequestId
    | SliceStatusRequestId
    | SliceUeBindRequestId
    | SliceUeUnbindRequestId

  /** One SliceConfig item: the slice name octets and the proportional-allocation share. */
  datatype SliceConfigItem = SliceConfigItem(sliceName: string, share: int)

  /** The choice inside controlMessageFormat1 of an E2SM-NexRAN control message. */
  datatype NexranMessage =
    | SliceConfigRequestMsg(sliceConfigList: seq<SliceConfigItem>)
    | SliceDeleteRequestMsg(deleteNameList: seq<string>)
    | SliceStatusRequestMsg(statusNameList: seq<string>)
    | SliceUeBindRequestMsg(bindSliceName: string, bindImsiList: seq<string>)
    | SliceUeUnbindRequestMsg(unbindSliceName: string, unbindImsiList: seq<string>)

  // ------------------------------------------------------------ E2SM-Zylinium

  datatype ZyliniumMessageId = MaskConfigRequestId | MaskStatusRequestId

  /** The choice inside controlMessageFormat1 of an E2SM-Zylinium control message. */
  datatype ZyliniumMessage =
    | MaskConfigRequestMsg(blockedDlRbgMask: string, blockedUlPrbMask: string)
    | MaskStatusRequestMsg

  /** A received OCTET STRING: its buffer (null or the characters up to its terminator) and its size field. */
  datatype OctetString = OctetString(buf: Option<string>, size: int)

  /** A received MaskStatusReport: the BlockedMask with its DL RBG and UL PRB masks. */
  datatype MaskStatusReport = MaskStatusReport(blockedDlRbgMask: OctetString, blockedUlPrbMask: OctetString)

  /** A decoded E2SM-Zylinium indication message; `present` stands for any other choice. */
  datatype ZyliniumIndicationMessage =
    | IndicationMaskStatusReport(report: MaskStatusReport)
    | IndicationOther(present: int)

  /** The choice inside controlOutcomeFormat1. */
  datatype ZyliniumOutcomeFormat1 =
    | OutcomeMaskStatusReport(report: MaskStatusReport)
    | OutcomeFormat1Other(present: int)

  /** A decoded E2SM-Zylinium control outcome. */
  datatype ZyliniumControlOutcome =
    | ControlOutcomeFormat1(format1: ZyliniumOutcomeFormat1)
    | ControlOutcomeOther(present: int)

  // ------------------------------------------------------------ E2AP

  /**
   * The content of an OCTET STRING copied from a buffer: the `len`
   * leading bytes of what `buf` points to.
   */
  datatype Octets = Octets(buf: Buf, len: int)

  /**
   * The protocol IEs of a RICcontrolRequest (O-RAN.WG3.E2AP v01.01
   * section 9.1.1.8), all sent with criticality reject.
   */
  datatype ControlIE =
    | RicRequestId(requestorId: int, instanceId: int)
    | RanFunctionId(functionId: int)
    | RicCallProcessId(callProcessId: Octets)
    | RicControlHeader(controlHeader: Octets)
    | RicControlMessage(controlMessage: Octets)
    | RicControlAckRequest(ackRequest: int)

  // ------------------------------------------------------------ values and buffers

  /** The values the core hands to the encoder. */
  datatype Asn =
    | NexranControlHeader(nexranId: NexranMessageId)
    | NexranControlMessage(nexranMessage: NexranMessage)
    | ZyliniumControlHeader(zyliniumId: ZyliniumMessageId)
    | ZyliniumControlMessage(zyliniumMessage: ZyliniumMessage)
    /** E2SM-Zylinium-EventTriggerDefinition with the ranEventDefinition choice. */
    | ZyliniumEventTrigger
    /** E2SM-KPM-EventTriggerDefinition, eventDefinition-Format1 with the report periods of its policyTest-List. */
    | KpmEventTrigger(reportPeriods: seq<int>)
    /** An E2AP-PDU initiatingMessage, procedure RICcontrol, criticality reject, value RICcontrolRequest. */
    | RicControlRequestPdu(protocolIEs: seq<ControlIE>)

  /** A `unsigned char *` the encoder fills: null, or a buffer holding the encoding of a value. */
  datatype Buf = Null | Encoded(value: Asn)

  /** aper_encode_to_new_buffer: the encoded length, negative when encoding fails. */
  type Encoder = Asn -> int

  /** aper_decode over a buffer and its length: the decoded value, or None when decoding fails. */
  type Decoder<T> = (seq<bv8>, int) -> Option<T>

  /** A received `unsigned char *` and its `ssize_t` length. */
  datatype Input = Input(buf: Option<seq<bv8>>, len: int)
  {
    /** The part is there to decode: a non-null buffer with a positive length. */
    predicate Present()
    {
      buf.Some? && len > 0
    }
  }

  /**
   * The shared encode helper: -1 when the codec fails, and then the buffer
   * is left as it was; otherwise the codec's length, with the buffer
   * holding the encoding of `v`.
   */
  function EncodeToNewBuffer(enc: Encoder, v: Asn, buf: Buf): (r: (int, Buf))
    ensures r.0 < 0 <==> enc(v) < 0
    ensures r.0 < 0 ==> r.0 == -1 && r.1 == buf
    ensures r.0 >= 0 ==> r.0 == enc(v) && r.1 == Encoded(v)
  {
    if enc(v) < 0 then (-1, buf) else (enc(v), Encoded(v))
  }
}
