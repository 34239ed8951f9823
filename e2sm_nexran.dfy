/**
 * The E2SM-NexRAN control requests: slice configuration, deletion and
 * status, and binding UEs to or unbinding them from a slice. Each request
 * encodes as a control header naming the message and a controlMessageFormat1
 * message carrying the request's lists in order; names cross into the ASN.1
 * OCTET STRINGs through strlen, so only the characters before a NUL are sent.
 */
module E2smNexran {
  import opened CLib
  import opened Asn

  /** A slice and the share of its proportional-allocation policy at the time the request is encoded. */
  datatype SliceConfig = SliceConfig(name: string, share: int)

  datatype Request =
    | SliceConfigRequest(configs: seq<SliceConfig>)
    | SliceDeleteRequest(names: seq<string>)
    | SliceStatusRequest(names: seq<string>)
    | SliceUeBindRequest(slice: string, imsis: seq<string>)
    | SliceUeUnbindRequest(slice: string, imsis: seq<string>)

  /** The octets sent for each name of a list: each name up to its first NUL, in order. */
  function NameOctets(ns: seq<string>): (r: seq<string>)
    ensures |r| == |ns|
    ensures forall i | 0 <= i < |ns| :: r[i] == CStr(ns[i])
  {
    if ns == [] then [] else NameOctets(ns[..|ns| - 1]) + [CStr(ns[|ns| - 1])]
  }

  /** The SliceConfig items sent for a list of configurations, in order. */
  function ConfigItems(cs: seq<SliceConfig>): (r: seq<SliceConfigItem>)
    ensures |r| == |cs|
    ensures forall i | 0 <= i < |cs| :: r[i] == SliceConfigItem(CStr(cs[i].name), cs[i].share)
  {
    if cs == [] then [] else ConfigItems(cs[..|cs| - 1]) + [SliceConfigItem(CStr(cs[|cs| - 1].name), cs[|cs| - 1].share)]
  }

  /** The message id the control header announces for a request. */
  function HeaderOf(r: Request): Asn
  {
    NexranControlHeader(
      match r
      case SliceConfigRequest(_) => SliceConfigRequestId
      case SliceDeleteRequest(_) => SliceDeleteRequestId
      case SliceStatusRequest(_) => SliceStatusRequestId
      case SliceUeBindRequest(_, _) => SliceUeBindRequestId
      case SliceUeUnbindRequest(_, _) => SliceUeUnbindRequestId)
  }

  /** The control message of a request. */
  function MessageOf(r: Request): Asn
  {
    NexranControlMessage(
      match r
      case SliceConfigRequest(cs) => SliceConfigRequestMsg(ConfigItems(cs))
      case SliceDeleteRequest(ns) => SliceDeleteRequestMsg(NameOctets(ns))
      case SliceStatusRequest(ns) => SliceStatusRequestMsg(NameOctets(ns))
      case SliceUeBindRequest(s, imsis) => SliceUeBindRequestMsg(CStr(s), NameOctets(imsis))
      case SliceUeUnbindRequest(s, imsis) => SliceUeUnbindRequestMsg(CStr(s), NameOctets(imsis)))
  }

  /** The message id that names a given control message. */
  function MessageIdOf(m: NexranMessage): NexranMessageId
  {
    match m
    case SliceConfigRequestMsg(_) => SliceConfigRequestId
    case SliceDeleteRequestMsg(_) => SliceDeleteRequestId
    case SliceStatusRequestMsg(_) => SliceStatusRequestId
    case SliceUeBindRequestMsg(_, _) => SliceUeBindRequestId
    case SliceUeUnbindRequestMsg(_, _) => SliceUeUnbindRequestId
  }

  /**
   * What a receiver reads back from a request's header and message: the
   * header names the message that follows it, and every list arrives whole,
   * in order, each name cut at its first NUL.
   */
  lemma MessageCarriesRequest(r: Request)
    ensures HeaderOf(r).nexranId == MessageIdOf(MessageOf(r).nexranMessage)
    ensures r.SliceConfigRequest? ==>
      var items := MessageOf(r).nexranMessage.sliceConfigList;
      |items| == |r.configs| &&
      forall i | 0 <= i < |items| :: items[i].sliceName == CStr(r.configs[i].name) && items[i].share == r.configs[i].share
    ensures r.SliceDeleteRequest? ==> MessageOf(r).nexranMessage.deleteNameList == NameOctets(r.names)
    ensures r.SliceStatusRequest? ==> MessageOf(r).nexranMessage.statusNameList == NameOctets(r.names)
    ensures r.SliceUeBindRequest? ==>
      MessageOf(r).nexranMessage == SliceUeBindRequestMsg(CStr(r.slice), NameOctets(r.imsis))
    ensures r.SliceUeUnbindRequest? ==>
      MessageOf(r).nexranMessage == SliceUeUnbindRequestMsg(CStr(r.slice), NameOctets(r.imsis))
  {
  }

  /** Names built from NUL-free strings arrive unchanged. */
  lemma NameOctetsOfNoNul(ns: seq<string>)
    requires forall i | 0 <= i < |ns| :: NoNul(ns[i])
    ensures NameOctets(ns) == ns
  {
    forall i | 0 <= i < |ns|
      ensures NameOctets(ns)[i] == ns[i]
    {
      CStrOfNoNul(ns[i]);
    }
  }

  // ------------------------------------------------------------ the encode loops

  /** The loop that adds one SliceName or IMSI item per name to the message's list. */
  method AddNames(ns: seq<string>) returns (list: seq<string>)
    ensures list == NameOctets(ns)
  {
    list := [];
    var i := 0;
    while i < |ns|
      invariant 0 <= i <= |ns|
      invariant |list| == i
      invariant forall j | 0 <= j < i :: list[j] == CStr(ns[j])
    {
      list := list + [CStr(ns[i])];
      i := i + 1;
    }
  }

  /** The loop that adds one SliceConfig item per configuration to the sliceConfigList. */
  method AddConfigs(cs: seq<SliceConfig>) returns (list: seq<SliceConfigItem>)
    ensures list == ConfigItems(cs)
  {
    list := [];
    var i := 0;
    while i < |cs|
      invariant 0 <= i <= |cs|
      invariant |list| == i
      invariant forall j | 0 <= j < i :: list[j] == SliceConfigItem(CStr(cs[j].name), cs[j].share)
    {
      list := list + [SliceConfigItem(CStr(cs[i].name), cs[i].share)];
      i := i + 1;
    }
  }

  /** Builds the control message the way each request's encode does. */
  method BuildMessage(r: Request) returns (m: Asn)
    ensures m == MessageOf(r)
  {
    match r
    case SliceConfigRequest(cs) =>
      var items := AddConfigs(cs);
      m := NexranControlMessage(SliceConfigRequestMsg(items));
    case SliceDeleteRequest(ns) =>
      var list := AddNames(ns);
      m := NexranControlMessage(SliceDeleteRequestMsg(list));
    case SliceStatusRequest(ns) =>
      var list := AddNames(ns);
      m := NexranControlMessage(SliceStatusRequestMsg(list));
    case SliceUeBindRequest(s, imsis) =>
      var list := AddNames(imsis);
      m := NexranControlMessage(SliceUeBindRequestMsg(CStr(s), list));
    case SliceUeUnbindRequest(s, imsis) =>
      var list := AddNames(imsis);
      m := NexranControlMessage(SliceUeUnbindRequestMsg(CStr(s), list));
  }
}
