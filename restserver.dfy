/**
 * The error accumulator and the send-once response context of the REST
 * server, and the `AppError **ae` error sink the resource operations
 * append to.
 */
module RestServer {
  import opened CLib
  import Json

  const HTTP_OK: int := 200

  /** An error response under construction: an HTTP status and messages in insertion order. */
  class RequestError {
    var httpStatus: int
    var messages: seq<string>

    constructor WithMessages(status: int, msgs: seq<string>)
      ensures httpStatus == status && messages == msgs
    {
      httpStatus := status;
      messages := msgs;
    }

    constructor WithMessage(status: int, msg: string)
      ensures httpStatus == status && messages == [msg]
    {
      httpStatus := status;
      messages := [msg];
    }

    constructor (status: int)
      ensures httpStatus == status && messages == []
    {
      httpStatus := status;
      messages := [];
    }

    /** Appends one message; the status stays what it was. */
    method Add(msg: string)
      modifies this
      ensures messages == old(messages) + [msg]
      ensures httpStatus == old(httpStatus)
    {
      messages := messages + [msg];
    }

    /** The JSON document written for this error: an "errors" array of the messages, in order. */
    function Serialize(): (r: Json.Value)
      reads this
      ensures r.Object? && r.members.Keys == {"errors"}
      ensures r.members["errors"].Array? && |r.members["errors"].items| == |messages|
      ensures forall i | 0 <= i < |messages| :: r.members["errors"].items[i] == Json.Str(CStr(messages[i]))
    {
      Json.Object(map["errors" := Json.Array(seq(|messages|, i requires 0 <= i < |messages| reads this => Json.Str(CStr(messages[i]))))])
    }
  }

  /** One HTTP response handed to the transport. */
  datatype Response = Response(code: int, body: string)

  /** The per-request state of the REST server: status code, async flag and the send-once guard. */
  class RequestContext {
    var code: int
    var async: bool
    var sent: bool
    /** What the response writer has produced so far (the writer itself is not modelled). */
    var body: string
    /** The responses handed to the transport, oldest first. */
    var transmitted: seq<Response>

    ghost predicate Valid()
      reads this
    {
      |transmitted| <= 1 && (sent <==> |transmitted| == 1)
    }

    constructor ()
      ensures Valid()
      ensures code == HTTP_OK && !async && !sent && body == "" && transmitted == []
    {
      code := HTTP_OK;
      async := false;
      sent := false;
      body := "";
      transmitted := [];
    }

    method MakeAsync()
      modifies this`async
      ensures async
    {
      async := true;
    }

    method SetCode(c: int)
      modifies this`code
      ensures code == c
    {
      code := c;
    }

    /** Transmits the response the first time it is called and does nothing afterwards. */
    method Send()
      requires Valid()
      modifies this`sent, this`transmitted
      ensures Valid() && sent
      ensures old(sent) ==> transmitted == old(transmitted)
      ensures !old(sent) ==> transmitted == [Response(code, CStr(body))]
    {
      if sent {
        return;
      }
      transmitted := transmitted + [Response(code, CStr(body))];
      sent := true;
    }
  }

  /**
   * The `AppError **ae` argument: a null slot means the caller wants no
   * error details; otherwise `err` is `*ae`, null until the first error.
   */
  class ErrorSlot {
    var err: RequestError?

    constructor ()
      ensures err == null
    {
      err := null;
    }
  }

  /** The objects an operation reporting into `ae` may change. */
  ghost function Sink(ae: ErrorSlot?): set<object>
    reads ae
  {
    if ae == null then {} else if ae.err == null then {ae} else {ae, ae.err}
  }

  /** What an error sink holds: no sink at all, no error yet, or an error with its status and messages. */
  datatype Log = NoSink | NoError | Error(status: int, messages: seq<string>)

  ghost function LogOf(ae: ErrorSlot?): Log
    reads ae, if ae == null || ae.err == null then {} else {ae.err}
  {
    if ae == null then NoSink
    else if ae.err == null then NoError
    else Error(ae.err.httpStatus, ae.err.messages)
  }

  /**
   * The sink after `msgs` are reported with `status`: they are appended to
   * the existing error, or start a new error with that status; with no sink
   * they are dropped.
   */
  function Append(l: Log, status: int, msgs: seq<string>): (r: Log)
    ensures l.NoSink? <==> r.NoSink?
    ensures l.Error? ==> r == Error(l.status, l.messages + msgs)
  {
    match l
    case NoSink => NoSink
    case NoError => if msgs == [] then NoError else Error(status, msgs)
    case Error(st, ms) => Error(st, ms + msgs)
  }

  /** Reporting in two rounds is reporting once: the status is fixed by the first message. */
  lemma AppendTwice(l: Log, status: int, m1: seq<string>, m2: seq<string>)
    ensures Append(Append(l, status, m1), status, m2) == Append(l, status, m1 + m2)
  {
    if l.Error? {
      assert l.messages + m1 + m2 == l.messages + (m1 + m2);
    }
  }

  /**
   * Between the pre-state and now, `msgs` were reported to `ae` with
   * `status`; an existing error object is kept, a new one is fresh.
   */
  twostate predicate Appended(ae: ErrorSlot?, status: int, msgs: seq<string>)
    reads ae, if ae == null || ae.err == null then {} else {ae.err}
  {
    LogOf(ae) == Append(old(LogOf(ae)), status, msgs)
    && (ae != null && old(ae.err) != null ==> ae.err == old(ae.err))
    && (ae != null && old(ae.err) == null && ae.err != null ==> fresh(ae.err))
  }

  /**
   * The reporting idiom of every operation: with a sink, make an error
   * with `status` if there is none yet, then add `msg` to it.
   */
  method Report(ae: ErrorSlot?, status: int, msg: string)
    modifies Sink(ae)
    ensures Appended(ae, status, [msg])
  {
    if ae != null {
      if ae.err == null {
        ae.err := new RequestError(status);
      }
      ae.err.Add(msg);
    }
  }
}
