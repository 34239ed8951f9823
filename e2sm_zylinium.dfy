/**
 * The E2SM-Zylinium service model: the mask configuration and mask status
 * control requests, its event trigger, and the decoders that turn a
 * received indication or control outcome into a BlockedMask.
 */
module E2smZylinium {
  import opened Wrappers
  import opened CLib
  import opened Asn
  import opened E2sm

  /** The blocked downlink RBG mask and uplink PRB mask, as strings. */
  datatype BlockedMask = BlockedMask(dlRbgMask: string, ulPrbMask: string)

  datatype Request = MaskConfigRequest(mask: BlockedMask) | MaskStatusRequest

  function HeaderOf(r: Request): Asn
  {
    ZyliniumControlHeader(if r.MaskConfigRequest? then MaskConfigRequestId else MaskStatusRequestId)
  }

  /** The control message: a mask configuration carries both masks up to their first NUL. */
  function MessageOf(r: Request): Asn
  {
    match r
    case MaskConfigRequest(mask) => ZyliniumControlMessage(MaskConfigRequestMsg(CStr(mask.dlRbgMask), CStr(mask.ulPrbMask)))
    case MaskStatusRequest => ZyliniumControlMessage(MaskStatusRequestMsg)
  }

  // ------------------------------------------------------------ decoding

  /** A std::string built from a buffer and a size: the C string at `buf`, cut to at most `size` characters. */
  function Take(s: string, n: int): (r: string)
    ensures |r| <= |s| && r == s[..|r|]
    ensures n <= 0 ==> r == []
    ensures 0 <= n <= |s| ==> |r| == n
    ensures n >= |s| ==> r == s
  {
    if n <= 0 then [] else if n >= |s| then s else s[..n]
  }

  /** One mask of a received report: copied only from a non-null buffer with a positive size, else empty. */
  function CopyMask(o: OctetString): (r: string)
    ensures !(o.buf.Some? && o.size > 0) ==> r == ""
    ensures o.buf.Some? && o.size > 0 ==>
      NoNul(r) && |r| <= |CStr(o.buf.value)| && r == CStr(o.buf.value)[..|r|] && (|r| == o.size || r == CStr(o.buf.value))
  {
    if o.buf.Some? && o.size > 0 then Take(CStr(o.buf.value), o.size) else ""
  }

  /** decode_mask_status_report: the BlockedMask of a received MaskStatusReport. */
  function DecodeMaskStatusReport(report: MaskStatusReport): BlockedMask
  {
    BlockedMask(CopyMask(report.blockedDlRbgMask), CopyMask(report.blockedUlPrbMask))
  }

  /**
   * A mask sent in a MaskConfigRequest and reported back in a
   * MaskStatusReport with the size the sender used arrives as sent.
   */
  lemma MaskRoundTrip(mask: BlockedMask)
    ensures var m := MessageOf(MaskConfigRequest(mask)).zyliniumMessage;
      DecodeMaskStatusReport(MaskStatusReport(
        OctetString(Some(m.blockedDlRbgMask), |m.blockedDlRbgMask|),
        OctetString(Some(m.blockedUlPrbMask), |m.blockedUlPrbMask|)))
      == BlockedMask(CStr(mask.dlRbgMask), CStr(mask.ulPrbMask))
  {
    CStrOfNoNul(CStr(mask.dlRbgMask));
    CStrOfNoNul(CStr(mask.ulPrbMask));
  }

  /**
   * The indication decode: a header or message that is present must decode,
   * both must be present, and the message must be a maskStatusReport;
   * otherwise no indication is produced.
   */
  function DecodeIndication(header: Input, message: Input,
                            decodeHeader: Decoder<()>, decodeMessage: Decoder<ZyliniumIndicationMessage>): (r: Option<BlockedMask>)
    ensures r.Some? <==>
      header.Present() && decodeHeader(header.buf.value, header.len).Some? &&
      message.Present() && decodeMessage(message.buf.value, message.len).Some? &&
      decodeMessage(message.buf.value, message.len).value.IndicationMaskStatusReport?
    ensures r.Some? ==> r.value == DecodeMaskStatusReport(decodeMessage(message.buf.value, message.len).value.report)
  {
    var h := if header.Present() then decodeHeader(header.buf.value, header.len) else None;
    if header.Present() && h.None? then None
    else
      var m := if message.Present() then decodeMessage(message.buf.value, message.len) else None;
      if message.Present() && m.None? then None
      else if !header.Present() then None
      else if !message.Present() then None
      else if !m.value.IndicationMaskStatusReport? then None
      else Some(DecodeMaskStatusReport(m.value.report))
  }

  /**
   * Both control-outcome decodes (of a control acknowledgement and of a
   * control failure): the outcome must be present, decode, be Format1 and
   * carry a maskStatusReport.
   */
  function DecodeControlOutcome(outcome: Input, decode: Decoder<ZyliniumControlOutcome>): (r: Option<BlockedMask>)
    ensures r.Some? <==>
      outcome.Present() && decode(outcome.buf.value, outcome.len).Some? &&
      decode(outcome.buf.value, outcome.len).value.ControlOutcomeFormat1? &&
      decode(outcome.buf.value, outcome.len).value.format1.OutcomeMaskStatusReport?
    ensures r.Some? ==> r.value == DecodeMaskStatusReport(decode(outcome.buf.value, outcome.len).value.format1.report)
  {
    if !outcome.Present() then None
    else
      var o := decode(outcome.buf.value, outcome.len);
      if o.None? then None
      else if !o.value.ControlOutcomeFormat1? then None
      else if !o.value.format1.OutcomeMaskStatusReport? then None
      else Some(DecodeMaskStatusReport(o.value.format1.report))
  }

  // ------------------------------------------------------------ the event trigger

  /** The E2SM-Zylinium event trigger: a ranEventDefinition, encoded once. */
  class EventTrigger {
    var encoded: bool
    var buf: Buf
    var bufLen: int

    function State(): TriggerState
      reads this
    {
      TriggerState(encoded, buf, bufLen)
    }

    constructor ()
      ensures State() == INITIAL_TRIGGER
    {
      encoded := false;
      buf := Null;
      bufLen := 0;
    }

    method Encode(enc: Encoder) returns (ok: bool)
      modifies this
      ensures (State(), ok) == TriggerEncode(old(State()), ZyliniumEventTrigger, enc)
    {
      if encoded {
        return true;
      }
      var len, b := EncodeValue(enc, ZyliniumEventTrigger, buf);
      if len < 0 {
        buf := Null;
        bufLen := 0;
        return false;
      }
      buf := b;
      bufLen := len;
      encoded := true;
      return true;
    }
  }
}
