/**
 * The encode step every E2 service-model payload goes through: a control
 * (header plus message) or an event trigger (one buffer) is encoded once;
 * a set `encoded` flag makes later calls return success untouched, and a
 * codec failure leaves the payload unencoded so that a later call retries.
 */
module E2sm {
  import opened Asn

  /** The encoded part of an e2sm::Control: the flag and the header and message buffers with their lengths. */
  datatype ControlState = ControlState(encoded: bool, header: Buf, headerLen: int, message: Buf, messageLen: int)

  /** What a new control holds: nothing encoded, null buffers, zero lengths. */
  const INITIAL_CONTROL: ControlState := ControlState(false, Null, 0, Null, 0)

  /**
   * One call of a control's encode with header value `h` and message value
   * `m`: the new state and the value returned. `failure` is what the
   * particular service model returns when the codec fails.
   */
  function ControlEncode(s: ControlState, h: Asn, m: Asn, failure: bool, enc: Encoder): (r: (ControlState, bool))
    ensures s.encoded ==> r == (s, true)
    ensures r.0.encoded <==> s.encoded || (enc(h) >= 0 && enc(m) >= 0)
    ensures r.1 <==> r.0.encoded || failure
    ensures !s.encoded && r.0.encoded ==>
      r.0 == ControlState(true, Encoded(h), enc(h), Encoded(m), enc(m))
    ensures !r.0.encoded ==>
      r.0.header == Null && r.0.headerLen == 0 && r.0.message == s.message && r.0.messageLen == s.messageLen
  {
    if s.encoded then (s, true)
    else
      var (hl, hb) := EncodeToNewBuffer(enc, h, s.header);
      if hl < 0 then (s.(header := Null, headerLen := 0), failure)
      else
        var (ml, mb) := EncodeToNewBuffer(enc, m, s.message);
        if ml < 0 then (s.(header := Null, headerLen := 0, message := mb), failure)
        else (ControlState(true, hb, hl, mb, ml), true)
  }

  /** Once encoding has succeeded, encoding again returns true and changes nothing. */
  lemma ControlEncodeIdempotent(s: ControlState, h: Asn, m: Asn, failure: bool, enc: Encoder)
    requires ControlEncode(s, h, m, failure, enc).0.encoded
    ensures var s' := ControlEncode(s, h, m, failure, enc).0;
      ControlEncode(s', h, m, failure, enc) == (s', true)
  {
  }

  /**
   * A failed attempt leaves nothing behind that the next attempt depends
   * on: from a fresh control, failing first and retrying ends where
   * succeeding at once does.
   */
  lemma ControlEncodeRetry(h: Asn, m: Asn, failure: bool, bad: Encoder, good: Encoder)
    requires !ControlEncode(INITIAL_CONTROL, h, m, failure, bad).0.encoded
    ensures ControlEncode(ControlEncode(INITIAL_CONTROL, h, m, failure, bad).0, h, m, failure, good)
         == ControlEncode(INITIAL_CONTROL, h, m, failure, good)
  {
  }

  /** e2sm::encode as a call: the length or -1, and the buffer afterwards. */
  method EncodeValue(enc: Encoder, v: Asn, buf: Buf) returns (len: int, buf': Buf)
    ensures (len, buf') == EncodeToNewBuffer(enc, v, buf)
  {
    len := enc(v);
    if len < 0 {
      len := -1;
      buf' := buf;
    } else {
      buf' := Encoded(v);
    }
  }

  /** The encoded part of an e2sm event trigger: the flag and one buffer with its length. */
  datatype TriggerState = TriggerState(encoded: bool, buf: Buf, bufLen: int)

  const INITIAL_TRIGGER: TriggerState := TriggerState(false, Null, 0)

  /**
   * One call of an event trigger's encode with definition `d`: on failure
   * the buffer is null with length 0 and the result false; on success the
   * buffer holds `d` and the flag is set.
   */
  function TriggerEncode(s: TriggerState, d: Asn, enc: Encoder): (r: (TriggerState, bool))
    ensures s.encoded ==> r == (s, true)
    ensures r.1 <==> r.0.encoded
    ensures !s.encoded ==> (r.1 <==> enc(d) >= 0)
    ensures !s.encoded && r.1 ==> r.0 == TriggerState(true, Encoded(d), enc(d))
    ensures !s.encoded && !r.1 ==> r.0 == INITIAL_TRIGGER
  {
    if s.encoded then (s, true)
    else
      var (len, b) := EncodeToNewBuffer(enc, d, s.buf);
      if len < 0 then (TriggerState(false, Null, 0), false)
      else (TriggerState(true, b, len), true)
  }
}
