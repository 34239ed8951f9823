/**
 * The e2sm::Control object every service-model control request is: the
 * request it carries and the encoded header, message and call-process-id
 * buffers an E2AP RIC control request copies from it.
 */
module E2smControl {
  import opened Asn
  import opened E2sm
  import E2smNexran
  import E2smZylinium

  /** The concrete control requests: the NexRAN slice requests and the Zylinium mask requests. */
  datatype Request = Nexran(nexran: E2smNexran.Request) | Zylinium(zylinium: E2smZylinium.Request)

  function HeaderOf(r: Request): Asn
  {
    match r
    case Nexran(n) => E2smNexran.HeaderOf(n)
    case Zylinium(z) => E2smZylinium.HeaderOf(z)
  }

  function MessageOf(r: Request): Asn
  {
    match r
    case Nexran(n) => E2smNexran.MessageOf(n)
    case Zylinium(z) => E2smZylinium.MessageOf(z)
  }

  /**
   * What encode returns when the codec fails: the NexRAN requests and the
   * mask status request return 1, which converts to true; the mask
   * configuration request returns false.
   */
  function FailureResult(r: Request): bool
  {
    !(r.Zylinium? && r.zylinium.MaskConfigRequest?)
  }

  /**
   * The value encode returns: a caller of a NexRAN or mask status request
   * sees true even when nothing was encoded; only the mask configuration
   * request reports a failure, and it reports exactly that.
   */
  lemma EncodeResult(r: Request, s: ControlState, enc: Encoder)
    ensures var (s', ok) := ControlEncode(s, HeaderOf(r), MessageOf(r), FailureResult(r), enc);
      (r.Nexran? ==> ok) &&
      (r == Zylinium(E2smZylinium.MaskStatusRequest) ==> ok) &&
      (r.Zylinium? && r.zylinium.MaskConfigRequest? ==> (ok <==> s'.encoded))
  {
  }

  class Control {
    const request: Request
    var encoded: bool
    var header: Buf
    var headerLen: int
    var message: Buf
    var messageLen: int
    var callProcessId: Buf
    var callProcessIdLen: int

    function State(): ControlState
      reads this
    {
      ControlState(encoded, header, headerLen, message, messageLen)
    }

    /** A new control: nothing encoded, every buffer null, every length 0. */
    constructor (r: Request)
      ensures request == r
      ensures State() == INITIAL_CONTROL && callProcessId == Null && callProcessIdLen == 0
    {
      request := r;
      encoded := false;
      header := Null;
      headerLen := 0;
      message := Null;
      messageLen := 0;
      callProcessId := Null;
      callProcessIdLen := 0;
    }

    /** The encode of the request: header first, then the message, each through the codec. */
    method Encode(enc: Encoder) returns (ok: bool)
      modifies this
      ensures (State(), ok) == ControlEncode(old(State()), HeaderOf(request), MessageOf(request), FailureResult(request), enc)
      ensures callProcessId == old(callProcessId) && callProcessIdLen == old(callProcessIdLen)
    {
      if encoded {
        return true;
      }
      var h := HeaderOf(request);
      var m;
      match request {
        case Nexran(n) => m := E2smNexran.BuildMessage(n);
        case Zylinium(z) => m := E2smZylinium.MessageOf(z);
      }
      var len, b := EncodeValue(enc, h, header);
      if len < 0 {
        header := Null;
        headerLen := 0;
        return FailureResult(request);
      }
      header := b;
      headerLen := len;
      len, b := EncodeValue(enc, m, message);
      if len < 0 {
        header := Null;
        headerLen := 0;
        message := b;
        return FailureResult(request);
      }
      message := b;
      messageLen := len;
      encoded := true;
      return true;
    }
  }
}
