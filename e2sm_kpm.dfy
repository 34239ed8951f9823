/**
 * The E2SM-KPM pieces the core holds: the report periods, the per-entity
 * metrics and the window that totals them, the report object, the event
 * trigger and the indication decode.
 */
module E2smKpm {
  import opened Wrappers
  import opened CLib
  import opened Asn
  import opened E2sm

  /** The RT-Period-IE report periods, in enumeration order. */
  datatype KpmPeriod =
    | MS10 | MS20 | MS32 | MS40 | MS60 | MS64 | MS70 | MS80 | MS128 | MS160
    | MS256 | MS320 | MS512 | MS640 | MS1024 | MS1280 | MS2048 | MS2560 | MS5120 | MS10240

  /** The enumeration value of a period: MS10 is 0 and MS10240 is 19. */
  function PeriodIndex(p: KpmPeriod): (i: int)
    ensures 0 <= i <= 19
  {
    match p
    case MS10 => 0 case MS20 => 1 case MS32 => 2 case MS40 => 3 case MS60 => 4
    case MS64 => 5 case MS70 => 6 case MS80 => 7 case MS128 => 8 case MS160 => 9
    case MS256 => 10 case MS320 => 11 case MS512 => 12 case MS640 => 13 case MS1024 => 14
    case MS1280 => 15 case MS2048 => 16 case MS2560 => 17 case MS5120 => 18 case MS10240 => 19
  }

  /** The period with a given enumeration value, if there is one. */
  function PeriodFromIndex(i: int): Option<KpmPeriod>
  {
    if i == 0 then Some(MS10) else if i == 1 then Some(MS20) else if i == 2 then Some(MS32)
    else if i == 3 then Some(MS40) else if i == 4 then Some(MS60) else if i == 5 then Some(MS64)
    else if i == 6 then Some(MS70) else if i == 7 then Some(MS80) else if i == 8 then Some(MS128)
    else if i == 9 then Some(MS160) else if i == 10 then Some(MS256) else if i == 11 then Some(MS320)
    else if i == 12 then Some(MS512) else if i == 13 then Some(MS640) else if i == 14 then Some(MS1024)
    else if i == 15 then Some(MS1280) else if i == 16 then Some(MS2048) else if i == 17 then Some(MS2560)
    else if i == 18 then Some(MS5120) else if i == 19 then Some(MS10240) else None
  }

  /** The twenty periods are numbered contiguously from 0 to 19, one to one. */
  lemma PeriodIndexRoundTrip(p: KpmPeriod, i: int)
    ensures PeriodFromIndex(PeriodIndex(p)) == Some(p)
    ensures PeriodFromIndex(i).Some? <==> 0 <= i <= 19
    ensures PeriodFromIndex(i).Some? ==> PeriodIndex(PeriodFromIndex(i).value) == i
  {
  }

  // ------------------------------------------------------------ metrics

  /** One entity's metrics sample (entity_metrics_t); the floating-point fields are reals. */
  datatype EntityMetrics = EntityMetrics(
    time: int,
    dlBytes: int, ulBytes: int, dlPrbs: int, ulPrbs: int,
    txPkts: int, txErrors: int, txBrate: int,
    rxPkts: int, rxErrors: int, rxBrate: int,
    dlCqi: real, dlRi: real, dlPmi: real, ulPhr: real, ulSinr: real, ulMcs: real,
    ulSamples: int, dlMcs: real, dlSamples: int)

  const ZERO_METRICS: EntityMetrics :=
    EntityMetrics(0, 0, 0, 0, 0, 0, 0, 0, 0, 0, 0, 0.0, 0.0, 0.0, 0.0, 0.0, 0.0, 0, 0.0, 0)

  /** A window of metrics samples over `period` and their running totals. */
  class MetricsIndex {
    var period: int
    var queue: seq<EntityMetrics>
    var totals: EntityMetrics

    constructor (period: int)
      ensures this.period == period && queue == [] && totals == ZERO_METRICS
    {
      this.period := period;
      queue := [];
      totals := ZERO_METRICS;
    }

    /** Downlink plus uplink byte totals, summed as uint64_t. */
    function GetTotalBytes(): (r: int)
      reads this
      ensures 0 <= r < U64_MOD
      ensures (r - (totals.dlBytes + totals.ulBytes)) % U64_MOD == 0
      ensures 0 <= totals.dlBytes + totals.ulBytes < U64_MOD ==> r == totals.dlBytes + totals.ulBytes
    {
      ToU64(totals.dlBytes + totals.ulBytes)
    }

    function Size(): (n: int)
      reads this
      ensures n == |queue|
    {
      |queue|
    }

    /** Sets the window period; the flush that follows it in the source is not part of this model. */
    method Reset(p: int)
      modifies this`period
      ensures period == p
    {
      period := p;
    }
  }

  /** A KPM report: reporting period, available PRBs, active UEs and per-UE and per-slice metrics. */
  class KpmReport {
    var periodMs: int
    var availableDlPrbs: int
    var availableUlPrbs: int
    var activeUes: int
    var ues: map<int, EntityMetrics>
    var slices: map<string, EntityMetrics>

    constructor ()
      ensures periodMs == 0 && availableDlPrbs == 0 && availableUlPrbs == 0 && activeUes == 0
      ensures ues == map[] && slices == map[]
    {
      periodMs := 0;
      availableDlPrbs := 0;
      availableUlPrbs := 0;
      activeUes := 0;
      ues := map[];
      slices := map[];
    }
  }

  // ------------------------------------------------------------ the event trigger

  /** eventDefinition-Format1 whose policyTest-List holds one item reporting every `p`. */
  function TriggerDefinition(p: KpmPeriod): Asn
  {
    KpmEventTrigger([PeriodIndex(p)])
  }

  class EventTrigger {
    var period: KpmPeriod
    var encoded: bool
    var buf: Buf
    var bufLen: int

    function State(): TriggerState
      reads this
    {
      TriggerState(encoded, buf, bufLen)
    }

    constructor WithPeriod(p: KpmPeriod)
      ensures period == p && State() == INITIAL_TRIGGER
    {
      period := p;
      encoded := false;
      buf := Null;
      bufLen := 0;
    }

    /** Without a period, a trigger reports every 5120 ms. */
    constructor ()
      ensures period == MS5120 && PeriodIndex(period) == 18 && State() == INITIAL_TRIGGER
    {
      period := MS5120;
      encoded := false;
      buf := Null;
      bufLen := 0;
    }

    method Encode(enc: Encoder) returns (ok: bool)
      modifies this`encoded, this`buf, this`bufLen
      ensures (State(), ok) == TriggerEncode(old(State()), TriggerDefinition(period), enc)
    {
      if encoded {
        return true;
      }
      var len, b := EncodeValue(enc, TriggerDefinition(period), buf);
      if len < 0 {
        buf := Null;
        bufLen := 0;
        return false;
      }
      buf := b;
      bufLen := len;
      encoded := true;
      return true;
    }
  }

  // ------------------------------------------------------------ the indication decode

  /** The branch the decode takes, as its log reports it. */
  datatype DecodePath =
    | HeaderUndecodable
    | MessageUndecodable
    | HeaderMissing
    | MessageMissing
    | BothDecoded(ricStyleType: int)

  /** What the decode returns (an indication, never one yet) and the branch it took. */
  datatype DecodeResult = DecodeResult(indication: Option<KpmReport>, path: DecodePath)

  /**
   * The KPM indication decode: a part that is present must decode, both
   * must be present; with both decoded the report style is read and still
   * no indication is returned.
   */
  function DecodeIndication(header: Input, message: Input,
                            decodeHeader: Decoder<()>, decodeMessage: Decoder<int>): (r: DecodeResult)
    ensures r.indication.None?
    ensures r.path == HeaderUndecodable <==> header.Present() && decodeHeader(header.buf.value, header.len).None?
    ensures r.path == MessageUndecodable <==>
      !(header.Present() && decodeHeader(header.buf.value, header.len).None?) &&
      message.Present() && decodeMessage(message.buf.value, message.len).None?
    ensures r.path.BothDecoded? <==>
      header.Present() && decodeHeader(header.buf.value, header.len).Some? &&
      message.Present() && decodeMessage(message.buf.value, message.len).Some?
    ensures r.path.BothDecoded? ==> r.path.ricStyleType == decodeMessage(message.buf.value, message.len).value
  {
    var h := if header.Present() then decodeHeader(header.buf.value, header.len) else None;
    if header.Present() && h.None? then DecodeResult(None, HeaderUndecodable)
    else
      var m := if message.Present() then decodeMessage(message.buf.value, message.len) else None;
      if message.Present() && m.None? then DecodeResult(None, MessageUndecodable)
      else if !header.Present() then DecodeResult(None, HeaderMissing)
      else if !message.Present() then DecodeResult(None, MessageMissing)
      else DecodeResult(None, BothDecoded(m.value))
  }
}
