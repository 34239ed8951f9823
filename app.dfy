/**
 * The NexRAN xApp itself: the registry of NodeBs, slices and UEs that the
 * northbound REST interface manages, and the four binding operations,
 * which change a NodeB's or a slice's binding map and then send NexRAN
 * RIC control requests (O-RAN.WG3.E2AP v01.01 section 9.1.1.8) to the
 * NodeBs. Every request sent over RMR is appended to an outbox: the NodeB
 * it is addressed to, the instance id it carries, the NexRAN request and
 * the encoded PDU.
 */
module Apps {
  import opened CLib
  import Json
  import opened RestServer
  import opened Resource
  import opened Asn
  import opened E2sm
  import opened E2ap
  import E2smControl
  import E2smNexran
  import E2smKpm
  import Policy
  import Ues
  import Slices
  import NodeBs
  import AppConfigs

  const NOT_FOUND: int := 404
  const FORBIDDEN: int := 403

  /** The messages the registry and the binding operations report. */
  const NO_SLICE: string := "slice does not exist"
  const NO_NODEB: string := "nodeb does not exist"
  const NO_UE: string := "ue does not exist"
  const SLICE_ALREADY_BOUND: string := "slice already bound to nodeb"
  const SLICE_NOT_BOUND: string := "slice not bound to this nodeb"
  const UE_ALREADY_BOUND: string := "ue already bound to slice"
  const UE_NOT_BOUND: string := "ue not bound to this slice"
  const NAME_NOT_FOUND: string := "not found"

  /** The RAN function id every NexRAN control request is sent to. */
  const NEXRAN_FUNCTION_ID: int := 1

  datatype ResourceType = NodeBResource | SliceResource | UeResource

  /** The singular label an error message names a resource type by. */
  function Label(rt: ResourceType): string
  {
    match rt
    case NodeBResource => "nodeb"
    case SliceResource => "slice"
    case UeResource => "ue"
  }

  // ------------------------------------------------------------ the registry

  /** The three name-to-resource maps. */
  datatype Db = Db(nodebs: map<string, NodeBs.NodeB>, slices: map<string, Slices.Slice>, ues: map<string, Ues.Ue>)

  const EMPTY_DB: Db := Db(map[], map[], map[])

  /** A resource handed to `add`: one of the three kinds. */
  datatype AnyResource = NodeBOf(nodeb: NodeBs.NodeB) | SliceOf(slice: Slices.Slice) | UeOf(ue: Ues.Ue)

  function TypeOf(r: AnyResource): ResourceType
  {
    match r
    case NodeBOf(_) => NodeBResource
    case SliceOf(_) => SliceResource
    case UeOf(_) => UeResource
  }

  /** The name a resource is registered under: a NodeB's or slice's name, a UE's IMSI. */
  function NameOf(r: AnyResource): string
  {
    match r
    case NodeBOf(nb) => nb.name
    case SliceOf(s) => s.name
    case UeOf(u) => u.imsi
  }

  /** The names registered for one resource type. */
  function Names(db: Db, rt: ResourceType): set<string>
  {
    match rt
    case NodeBResource => db.nodebs.Keys
    case SliceResource => db.slices.Keys
    case UeResource => db.ues.Keys
  }

  /** The registry with `r` stored under its name in the map of its type. */
  function Inserted(db: Db, r: AnyResource): Db
  {
    match r
    case NodeBOf(nb) => db.(nodebs := db.nodebs[nb.name := nb])
    case SliceOf(s) => db.(slices := db.slices[s.name := s])
    case UeOf(u) => db.(ues := db.ues[u.imsi := u])
  }

  /** The registry with `name` erased from the map of type `rt`. */
  function Removed(db: Db, rt: ResourceType, name: string): Db
  {
    match rt
    case NodeBResource => db.(nodebs := db.nodebs - {name})
    case SliceResource => db.(slices := db.slices - {name})
    case UeResource => db.(ues := db.ues - {name})
  }

  /** Every resource is registered under its own name. */
  predicate KeyedByName(db: Db)
  {
    (forall k | k in db.nodebs :: db.nodebs[k].name == k)
    && (forall k | k in db.slices :: db.slices[k].name == k)
    && (forall k | k in db.ues :: db.ues[k].imsi == k)
  }

  /** Inserting adds exactly the resource's name to the names of its type, and touches no other type. */
  lemma InsertedNames(db: Db, r: AnyResource, rt: ResourceType)
    ensures Names(Inserted(db, r), rt) == Names(db, rt) + (if rt == TypeOf(r) then {NameOf(r)} else {})
    ensures KeyedByName(db) ==> KeyedByName(Inserted(db, r))
  {
  }

  /** Removing takes exactly `name` out of the names of type `rt`, and touches no other type. */
  lemma RemovedNames(db: Db, rt: ResourceType, name: string, rt': ResourceType)
    ensures Names(Removed(db, rt, name), rt') == Names(db, rt') - (if rt' == rt then {name} else {})
    ensures KeyedByName(db) ==> KeyedByName(Removed(db, rt, name))
  {
  }

  /** Deleting what was just added under a fresh name gives the registry back. */
  lemma DelUndoesAdd(db: Db, r: AnyResource)
    requires NameOf(r) !in Names(db, TypeOf(r))
    ensures Removed(Inserted(db, r), TypeOf(r), NameOf(r)) == db
  {
    match r
    case NodeBOf(nb) =>
      assert db.nodebs[nb.name := nb] - {nb.name} == db.nodebs;
    case SliceOf(s) =>
      assert db.slices[s.name := s] - {s.name} == db.slices;
    case UeOf(u) =>
      assert db.ues[u.imsi := u] - {u.imsi} == db.ues;
  }

  // ------------------------------------------------------------ what is sent

  /** The NexRAN control state after one encode of `r` from a new control. */
  function ControlOf(enc: Encoder, r: E2smNexran.Request): ControlState
  {
    var c := E2smControl.Nexran(r);
    ControlEncode(INITIAL_CONTROL, E2smControl.HeaderOf(c), E2smControl.MessageOf(c), E2smControl.FailureResult(c), enc).0
  }

  /**
   * The RIC control request PDU for a NexRAN control: the request id, RAN
   * function 1, no call process id, the control's header and message
   * buffers, and an acknowledgement requested.
   */
  function RequestPdu(requestorId: int, instanceId: int, c: ControlState): Asn
  {
    RicControlRequestPdu(ControlIEs(requestorId, instanceId, NEXRAN_FUNCTION_ID, Octets(Null, 0),
      Octets(c.header, c.headerLen), Octets(c.message, c.messageLen), CONTROL_REQUEST_ACK))
  }

  /** One RMR message: the NodeB it goes to, its instance id, the NexRAN request and the payload with its length. */
  datatype Outgoing = Outgoing(meid: string, instanceId: int, request: E2smNexran.Request, payload: Buf, len: int)

  /**
   * What is sent for request `r`, whose control is in state `c`, to NodeB
   * `meid` under instance id `instanceId`: the PDU as the codec encodes it
   * (the message is sent even when the codec refuses it).
   */
  function Sent(enc: Encoder, requestorId: int, meid: string, instanceId: int, r: E2smNexran.Request, c: ControlState): Outgoing
  {
    var (n, b, l) := EncodePdu(enc, RequestPdu(requestorId, instanceId, c), Null, 0);
    Outgoing(meid, instanceId, r, b, l)
  }

  /**
   * A message is addressed as asked and carries its request; its payload
   * is the encoded PDU with the codec's length, or a null buffer of
   * length 0 when the codec refuses the PDU.
   */
  lemma SentIsEncoding(enc: Encoder, requestorId: int, meid: string, instanceId: int, r: E2smNexran.Request)
    ensures var o := Sent(enc, requestorId, meid, instanceId, r, ControlOf(enc, r));
      var pdu := RequestPdu(requestorId, instanceId, ControlOf(enc, r));
      o.meid == meid && o.instanceId == instanceId && o.request == r &&
      if enc(pdu) < 0 then o.payload == Null && o.len == 0
      else o.payload == Encoded(pdu) && o.len == enc(pdu)
  {
  }

  /**
   * An encoded payload is a RIC control request whose IEs are, in order,
   * the request id with the message's instance id, RAN function 1, the
   * control header, the control message and an ack request; when the
   * control encoded, the header and message are the NexRAN request's own.
   */
  lemma SentPayload(enc: Encoder, requestorId: int, meid: string, instanceId: int, r: E2smNexran.Request)
    requires Sent(enc, requestorId, meid, instanceId, r, ControlOf(enc, r)).payload.Encoded?
    ensures var o := Sent(enc, requestorId, meid, instanceId, r, ControlOf(enc, r));
      var c := ControlOf(enc, r);
      o.payload.value.RicControlRequestPdu? &&
      var ies := o.payload.value.protocolIEs;
      |ies| == 5 &&
      ies[0] == RicRequestId(requestorId, instanceId) &&
      ies[1] == RanFunctionId(NEXRAN_FUNCTION_ID) &&
      ies[2] == RicControlHeader(Octets(c.header, c.headerLen)) &&
      ies[3] == RicControlMessage(Octets(c.message, c.messageLen)) &&
      ies[4] == RicControlAckRequest(AckValue(CONTROL_REQUEST_ACK)) &&
      (c.encoded ==>
        c.header == Encoded(E2smNexran.HeaderOf(r)) && c.message == Encoded(E2smNexran.MessageOf(r)))
  {
    var c := ControlOf(enc, r);
    ControlIEsOrder(requestorId, instanceId, NEXRAN_FUNCTION_ID, Octets(Null, 0),
      Octets(c.header, c.headerLen), Octets(c.message, c.messageLen), CONTROL_REQUEST_ACK);
  }

  /** What one request sent to each of `meids` in turn adds to the outbox: consecutive instance ids from `start`. */
  function Broadcast(enc: Encoder, requestorId: int, meids: seq<string>, start: int, r: E2smNexran.Request, c: ControlState): (os: seq<Outgoing>)
    ensures |os| == |meids|
  {
    if meids == [] then []
    else
      var n := |meids| - 1;
      Broadcast(enc, requestorId, meids[..n], start, r, c) + [Sent(enc, requestorId, meids[n], start + n, r, c)]
  }

  /** The i-th message of a broadcast goes to the i-th NodeB under instance id `start + i`. */
  lemma {:induction false} BroadcastAt(enc: Encoder, requestorId: int, meids: seq<string>, start: int, r: E2smNexran.Request, c: ControlState)
    ensures var os := Broadcast(enc, requestorId, meids, start, r, c);
      forall i | 0 <= i < |os| :: os[i] == Sent(enc, requestorId, meids[i], start + i, r, c)
    decreases |meids|
  {
    if meids != [] {
      var n := |meids| - 1;
      BroadcastAt(enc, requestorId, meids[..n], start, r, c);
      var os := Broadcast(enc, requestorId, meids, start, r, c);
      forall i | 0 <= i < |os|
        ensures os[i] == Sent(enc, requestorId, meids[i], start + i, r, c)
      {
        if i < n {
          assert os[i] == Broadcast(enc, requestorId, meids[..n], start, r, c)[i];
          assert meids[..n][i] == meids[i];
        }
      }
    }
  }

  /** Sending to one more NodeB appends one message under the next instance id. */
  lemma BroadcastSnoc(enc: Encoder, requestorId: int, meids: seq<string>, meid: string, start: int, r: E2smNexran.Request, c: ControlState)
    ensures Broadcast(enc, requestorId, meids + [meid], start, r, c)
         == Broadcast(enc, requestorId, meids, start, r, c) + [Sent(enc, requestorId, meid, start + |meids|, r, c)]
  {
    assert (meids + [meid])[..|meids|] == meids;
  }

  /** Appending is associative (spelled out so that callers need not prove it element by element). */
  lemma AppendAssociates(a: seq<Outgoing>, b: seq<Outgoing>, c: seq<Outgoing>)
    ensures (a + b) + c == a + (b + c)
  {
  }

  /**
   * The instance ids of the outbox strictly increase and all lie below
   * `next`, the allocator's next id: each message's id is below the next
   * id at the time it was sent.
   */
  predicate Ordered(os: seq<Outgoing>, next: int)
    decreases |os|
  {
    os == [] || (os[|os| - 1].instanceId < next && Ordered(os[..|os| - 1], os[|os| - 1].instanceId))
  }

  /** An ordered outbox read index by index: ids increase strictly and stay below `next`. */
  lemma {:induction false} OrderedIncreasing(os: seq<Outgoing>, next: int)
    requires Ordered(os, next)
    ensures forall i | 0 <= i < |os| :: os[i].instanceId < next
    ensures forall i, j | 0 <= i < j < |os| :: os[i].instanceId < os[j].instanceId
    decreases |os|
  {
    if os != [] {
      var n := |os| - 1;
      OrderedIncreasing(os[..n], os[n].instanceId);
      assert forall i | 0 <= i < n :: os[i] == os[..n][i];
    }
  }

  /** No two requests in an ordered outbox carry the same instance id. */
  lemma OrderedIdsDistinct(os: seq<Outgoing>, next: int, i: int, j: int)
    requires Ordered(os, next)
    requires 0 <= i < |os| && 0 <= j < |os| && i != j
    ensures os[i].instanceId != os[j].instanceId
  {
    OrderedIncreasing(os, next);
  }

  /** Sending under the allocator's next id and then moving it on keeps the outbox ordered. */
  lemma SendKeepsOrdered(os: seq<Outgoing>, next: int, o: Outgoing)
    requires Ordered(os, next) && o.instanceId == next
    ensures Ordered(os + [o], next + 1)
  {
    assert (os + [o])[..|os|] == os;
  }

  // ------------------------------------------------------------ std::map order

  /** The least key of a non-empty key set under std::string's order. */
  ghost function Least(keys: set<string>): (k: string)
    requires keys != {}
    ensures k in keys
  {
    LeastKeyExists(keys);
    var k :| k in keys && forall k' | k' in keys && k' != k :: LexLess(k, k');
    k
  }

  /** The least key is below every other key. */
  lemma LeastIsLeast(keys: set<string>)
    requires keys != {}
    ensures forall k' | k' in keys && k' != Least(keys) :: LexLess(Least(keys), k')
  {
    LeastKeyExists(keys);
  }

  /** The only key below every other one is the least key. */
  lemma LeastIsUnique(keys: set<string>, k: string)
    requires k in keys && forall k' | k' in keys && k' != k :: LexLess(k, k')
    ensures k == Least(keys)
  {
    var m := Least(keys);
    LeastIsLeast(keys);
    if k != m {
      assert LexLess(k, m) && LexLess(m, k);
      LexLessTransitive(k, m, k);
      LexLessIrreflexive(k);
    }
  }

  /** The keys in the order a std::map iterates over them. */
  ghost function SortedKeys(keys: set<string>): seq<string>
    decreases |keys|
  {
    if keys == {} then [] else [Least(keys)] + SortedKeys(keys - {Least(keys)})
  }

  /** The iteration visits as many keys as there are, and only keys. */
  lemma {:induction false} SortedKeysEnumerates(keys: set<string>)
    ensures |SortedKeys(keys)| == |keys|
    ensures forall i | 0 <= i < |SortedKeys(keys)| :: SortedKeys(keys)[i] in keys
    decreases |keys|
  {
    if keys != {} {
      var m := Least(keys);
      var rest := keys - {m};
      SortedKeysEnumerates(rest);
      var s := SortedKeys(keys);
      assert s == [m] + SortedKeys(rest);
      forall i | 0 <= i < |s|
        ensures s[i] in keys
      {
        if i > 0 {
          assert s[i] == SortedKeys(rest)[i - 1];
        }
      }
    }
  }

  /** The iteration visits every key. */
  lemma {:induction false} SortedKeysComplete(keys: set<string>)
    ensures forall k | k in keys :: k in SortedKeys(keys)
    decreases |keys|
  {
    if keys != {} {
      var m := Least(keys);
      SortedKeysComplete(keys - {m});
      assert SortedKeys(keys) == [m] + SortedKeys(keys - {m});
    }
  }

  /** The iteration visits the keys in strictly increasing order. */
  lemma {:induction false} SortedKeysSorted(keys: set<string>)
    ensures forall i, j | 0 <= i < j < |SortedKeys(keys)| :: LexLess(SortedKeys(keys)[i], SortedKeys(keys)[j])
    decreases |keys|
  {
    if keys != {} {
      var m := Least(keys);
      LeastIsLeast(keys);
      var rest := keys - {m};
      SortedKeysSorted(rest);
      SortedKeysEnumerates(rest);
      var s := SortedKeys(keys);
      assert s == [m] + SortedKeys(rest);
      forall i, j | 0 <= i < j < |s|
        ensures LexLess(s[i], s[j])
      {
        if i == 0 {
          assert s[j] == SortedKeys(rest)[j - 1];
        } else {
          assert s[i] == SortedKeys(rest)[i - 1] && s[j] == SortedKeys(rest)[j - 1];
        }
      }
    }
  }


  /** The next key a std::map iteration visits among those not yet visited. */
  method PickLeast(keys: set<string>) returns (k: string)
    requires keys != {}
    ensures k == Least(keys)
  {
    LeastKeyExists(keys);
    k :| k in keys && forall k' | k' in keys && k' != k :: LexLess(k, k');
    LeastIsUnique(keys, k);
  }

  /** The keys of a std::map in its iteration order, collected one least key at a time. */
  method KeysInOrder(keys: set<string>) returns (ks: seq<string>)
    ensures ks == SortedKeys(keys)
  {
    ks := [];
    var todo := keys;
    while todo != {}
      invariant ks + SortedKeys(todo) == SortedKeys(keys)
      decreases |todo|
    {
      var k := PickLeast(todo);
      SortedKeysStep(keys, ks, todo);
      ks := ks + [k];
      todo := todo - {k};
    }
  }

  /** One iteration step: visiting the least unvisited key extends the visited prefix of the iteration order. */
  lemma SortedKeysStep(all: set<string>, visited: seq<string>, todo: set<string>)
    requires todo != {} && visited + SortedKeys(todo) == SortedKeys(all)
    ensures (visited + [Least(todo)]) + SortedKeys(todo - {Least(todo)}) == SortedKeys(all)
  {
    var k := Least(todo);
    assert SortedKeys(todo) == [k] + SortedKeys(todo - {k});
    assert visited + ([k] + SortedKeys(todo - {k})) == (visited + [k]) + SortedKeys(todo - {k});
  }

  // ------------------------------------------------------------ checks on update

  /** The outcome of a NodeB update: it accepts an object that passes validation. */
  predicate NodeBAccepts(d: Json.Value)
  {
    d.Object? && Errors(NodeBs.NODEB_SCHEMA, PUT, d.members) == []
  }

  /** The outcome of a UE update: a valid object that does not try to change the IMSI (when there is a sink). */
  predicate UeAccepts(imsi: string, d: Json.Value, hasSink: bool)
  {
    d.Object? && Errors(Ues.UE_SCHEMA, PUT, d.members) == [] && !(Ues.ImsiDiffers(imsi, d.members) && hasSink)
  }

  /** The outcome of a slice update: a valid object whose allocation policy, if any, is a well-formed object. */
  predicate SliceAccepts(d: Json.Value)
  {
    d.Object? && Errors(Slices.SLICE_SCHEMA, PUT, d.members) == [] &&
    ("allocation_policy" in d.members ==>
       d.members["allocation_policy"].Object? && Policy.UpdateError(d.members["allocation_policy"]).None?)
  }

  /** What a NodeB update reports: a body that is not an object, or what validation records. */
  function NodeBUpdateMessages(d: Json.Value): (msgs: seq<string>)
    ensures msgs == [] <==> NodeBAccepts(d)
  {
    if !d.Object? then [NOT_AN_OBJECT] else Reported(NodeBs.NODEB_SCHEMA, PUT, d.members)
  }

  /**
   * What a slice update reports, all with status 400: a body that is not an
   * object, what validation records, a malformed allocation policy, or the
   * policy's own refusal.
   */
  function SliceUpdateMessages(d: Json.Value): (msgs: seq<string>)
    ensures msgs == [] <==> SliceAccepts(d)
  {
    if !d.Object? then [NOT_AN_OBJECT]
    else if Errors(Slices.SLICE_SCHEMA, PUT, d.members) != [] then Reported(Slices.SLICE_SCHEMA, PUT, d.members)
    else if "allocation_policy" !in d.members then []
    else if !d.members["allocation_policy"].Object? then [Policy.MALFORMED_POLICY]
    else AsSeq(Policy.UpdateError(d.members["allocation_policy"]))
  }

  /**
   * A slice's policy after an update: an accepted allocation policy is
   * applied to it, anything else leaves it as it was. Only the share and
   * the two flags can change; the throttling state never does.
   */
  function SlicePolicyAfter(s: Policy.PolicyState, d: Json.Value): (r: Policy.PolicyState)
    ensures r == s.(share := r.share, autoEqualize := r.autoEqualize, throttle := r.throttle)
    ensures !SliceAccepts(d) ==> r == s
    ensures SliceAccepts(d) && "allocation_policy" in d.members ==> 0 <= r.share <= Policy.MAX_SHARE
  {
    if SliceAccepts(d) && "allocation_policy" in d.members then Policy.Updated(s, d.members["allocation_policy"].members)
    else s
  }

  /** The status of a UE update's report: 403 for an attempt to change the IMSI, 400 otherwise. */
  function UeUpdateStatus(imsi: string, d: Json.Value, hasSink: bool): int
  {
    if d.Object? && Errors(Ues.UE_SCHEMA, PUT, d.members) == [] && Ues.ImsiDiffers(imsi, d.members) && hasSink
    then Ues.FORBIDDEN else BAD_REQUEST
  }

  /**
   * What a UE update reports: a body that is not an object, what validation
   * records, or the immutable IMSI (only when there is a sink to say so).
   */
  function UeUpdateMessages(imsi: string, d: Json.Value, hasSink: bool): (msgs: seq<string>)
    ensures msgs == [] <==> UeAccepts(imsi, d, hasSink)
  {
    if !d.Object? then [NOT_AN_OBJECT]
    else if Errors(Ues.UE_SCHEMA, PUT, d.members) != [] then Reported(Ues.UE_SCHEMA, PUT, d.members)
    else if Ues.ImsiDiffers(imsi, d.members) && hasSink then [Ues.IMMUTABLE_IMSI]
    else []
  }

  /**
   * A UE's TMSI after an update: an accepted body's "tmsi", read as a C
   * string, replaces it; otherwise it is kept.
   */
  function UeTmsiAfter(imsi: string, tmsi: string, d: Json.Value, hasSink: bool): (t: string)
    ensures t != tmsi ==> UeAccepts(imsi, d, hasSink) && "tmsi" in d.members && NoNul(t)
  {
    if UeAccepts(imsi, d, hasSink) && "tmsi" in d.members && d.members["tmsi"].Str? then CStr(d.members["tmsi"].s)
    else tmsi
  }

  /** `update` on a registered NodeB: validation only, reported with status 400. */
  method UpdateNodeB(nb: NodeBs.NodeB, d: Json.Value, ae: ErrorSlot?) returns (ok: bool)
    modifies Sink(ae)
    ensures ok <==> NodeBAccepts(d)
    ensures Appended(ae, BAD_REQUEST, NodeBUpdateMessages(d))
  {
    ok := nb.Update(d, ae);
  }

  /** `update` on a registered slice: its policy becomes SlicePolicyAfter, and the refusals are reported with status 400. */
  method UpdateSlice(sl: Slices.Slice, d: Json.Value, ae: ErrorSlot?) returns (ok: bool)
    modifies Sink(ae), sl.policy
    ensures ok <==> SliceAccepts(d)
    ensures Appended(ae, BAD_REQUEST, SliceUpdateMessages(d))
    ensures sl.policy.State() == SlicePolicyAfter(old(sl.policy.State()), d)
  {
    ok := sl.Update(d, ae);
  }

  /** `update` on a registered UE: its TMSI becomes UeTmsiAfter, and a refusal is reported with its status. */
  method UpdateUe(u: Ues.Ue, d: Json.Value, ae: ErrorSlot?) returns (ok: bool)
    modifies Sink(ae), u
    ensures ok <==> UeAccepts(u.imsi, d, ae != null)
    ensures Appended(ae, UeUpdateStatus(u.imsi, d, ae != null), UeUpdateMessages(u.imsi, d, ae != null))
    ensures u.tmsi == UeTmsiAfter(u.imsi, old(u.tmsi), d, ae != null)
  {
    ok := u.Update(d, ae);
  }

  class App {
    var db: Db
    const e2ap: E2AP
    /** The APER codec the E2 messages go through. */
    const enc: Encoder
    const appConfig: AppConfigs.AppConfig
    /** Every RIC control request sent, in sending order. */
    var outbox: seq<Outgoing>

    ghost predicate Valid()
      reads this, e2ap
    {
      KeyedByName(db) && Ordered(outbox, e2ap.nextInstanceId)
    }

    /** An empty registry, a new E2AP id allocator, the default xApp configuration and nothing sent. */
    constructor (enc: Encoder)
      ensures Valid()
      ensures db == EMPTY_DB && outbox == [] && this.enc == enc
      ensures fresh(e2ap) && e2ap.requestorId == 1 && e2ap.nextInstanceId == 1
      ensures fresh(appConfig) && appConfig.Valid() && appConfig.kpmIntervalIndex == E2smKpm.PeriodIndex(E2smKpm.MS5120)
    {
      db := EMPTY_DB;
      e2ap := new E2AP();
      this.enc := enc;
      appConfig := new AppConfigs.AppConfig();
      outbox := [];
    }

    /** Registers a new slice "default" with the default policy, replacing any slice of that name. */
    method Init()
      requires Valid()
      modifies this`db
      ensures Valid()
      ensures "default" in db.slices
      ensures var s := db.slices["default"];
        fresh(s) && s.name == "default" && s.ues == map[] && s.policy.share == Slices.DEFAULT_SHARE &&
        db == old(db).(slices := old(db).slices["default" := s])
    {
      var s := new Slices.Slice("default");
      db := db.(slices := db.slices["default" := s]);
    }

    /** The lookup behind serializing one resource: it fails with 404 "<label> does not exist" for an unknown name. */
    method SerializeByName(rt: ResourceType, name: string, ae: ErrorSlot?) returns (ok: bool)
      modifies Sink(ae)
      ensures ok <==> name in Names(db, rt)
      ensures Appended(ae, NOT_FOUND, if ok then [] else [Label(rt) + " does not exist"])
    {
      if name !in Names(db, rt) {
        Report(ae, NOT_FOUND, Label(rt) + " does not exist");
        return false;
      }
      return true;
    }

    /** Registers a resource unless its name is taken, which fails with 403 "<label> already exists". */
    method Add(r: AnyResource, ae: ErrorSlot?) returns (ok: bool)
      requires Valid()
      modifies this`db, Sink(ae)
      ensures Valid()
      ensures ok <==> NameOf(r) !in Names(old(db), TypeOf(r))
      ensures db == if ok then Inserted(old(db), r) else old(db)
      ensures Appended(ae, FORBIDDEN, if ok then [] else [Label(TypeOf(r)) + " already exists"])
    {
      if NameOf(r) in Names(db, TypeOf(r)) {
        Report(ae, FORBIDDEN, Label(TypeOf(r)) + " already exists");
        return false;
      }
      InsertedNames(db, r, TypeOf(r));
      match r {
        case NodeBOf(nb) => db := db.(nodebs := db.nodebs[nb.name := nb]);
        case SliceOf(s) => db := db.(slices := db.slices[s.name := s]);
        case UeOf(u) => db := db.(ues := db.ues[u.imsi := u]);
      }
      return true;
    }

    /** Unregisters a resource; an unknown name fails with 404 NAME_NOT_FOUND. */
    method Del(rt: ResourceType, name: string, ae: ErrorSlot?) returns (ok: bool)
      requires Valid()
      modifies this`db, Sink(ae)
      ensures Valid()
      ensures ok <==> name in Names(old(db), rt)
      ensures db == Removed(old(db), rt, name)
      ensures Appended(ae, NOT_FOUND, if ok then [] else [NAME_NOT_FOUND])
    {
      if name !in Names(db, rt) {
        Report(ae, NOT_FOUND, NAME_NOT_FOUND);
        assert Removed(db, rt, name) == db by {
          match rt {
            case NodeBResource => assert db.nodebs - {name} == db.nodebs;
            case SliceResource => assert db.slices - {name} == db.slices;
            case UeResource => assert db.ues - {name} == db.ues;
          }
        }
        return false;
      }
      RemovedNames(db, rt, name, rt);
      match rt {
        case NodeBResource => db := db.(nodebs := db.nodebs - {name});
        case SliceResource => db := db.(slices := db.slices - {name});
        case UeResource => db := db.(ues := db.ues - {name});
      }
      return true;
    }

    /** What an update of resource `name` of type `rt` may change: a UE's TMSI, a slice's policy. */
    ghost function UpdateFrame(rt: ResourceType, name: string): set<object>
      reads this
    {
      match rt
      case NodeBResource => {}
      case SliceResource => if name in db.slices then {db.slices[name].policy} else {}
      case UeResource => if name in db.ues then {db.ues[name]} else {}
    }

    /**
     * Hands the body to the named resource's own update; an unknown name
     * fails with 404 NAME_NOT_FOUND. The registry never changes and nothing
     * is sent; only the named UE's TMSI or the named slice's policy may.
     */
    method Update(rt: ResourceType, name: string, d: Json.Value, ae: ErrorSlot?) returns (ok: bool)
      modifies Sink(ae), UpdateFrame(rt, name)
      ensures db == old(db) && outbox == old(outbox) && e2ap.nextInstanceId == old(e2ap.nextInstanceId)
      ensures name !in Names(db, rt) ==> !ok && Appended(ae, NOT_FOUND, [NAME_NOT_FOUND])
      ensures rt == NodeBResource && name in db.nodebs ==>
        (ok <==> NodeBAccepts(d)) && Appended(ae, BAD_REQUEST, NodeBUpdateMessages(d))
      ensures rt == SliceResource && name in db.slices ==>
        (ok <==> SliceAccepts(d)) && Appended(ae, BAD_REQUEST, SliceUpdateMessages(d)) &&
        db.slices[name].policy.State() == SlicePolicyAfter(old(db.slices[name].policy.State()), d)
      ensures rt == UeResource && name in db.ues ==>
        var u := db.ues[name];
        (ok <==> UeAccepts(u.imsi, d, ae != null)) &&
        Appended(ae, UeUpdateStatus(u.imsi, d, ae != null), UeUpdateMessages(u.imsi, d, ae != null)) &&
        u.tmsi == UeTmsiAfter(u.imsi, old(u.tmsi), d, ae != null)
    {
      if name !in Names(db, rt) {
        Report(ae, NOT_FOUND, NAME_NOT_FOUND);
        return false;
      }
      match rt {
        case NodeBResource =>
          ok := UpdateNodeB(db.nodebs[name], d, ae);
        case SliceResource =>
          ok := UpdateSlice(db.slices[name], d, ae);
        case UeResource =>
          ok := UpdateUe(db.ues[name], d, ae);
      }
    }

    /** A new control for `r`, encoded once. */
    method NewControl(r: E2smNexran.Request) returns (c: E2smControl.Control)
      ensures fresh(c) && c.request == E2smControl.Nexran(r)
      ensures c.State() == ControlOf(enc, r) && c.callProcessId == Null && c.callProcessIdLen == 0
    {
      c := new E2smControl.Control(E2smControl.Nexran(r));
      var _ := c.Encode(enc);
    }

    /**
     * Builds a RIC control request around the encoded control under the
     * next instance id, encodes it and sends it to `meid`.
     */
    method Send(c: E2smControl.Control, meid: string)
      requires Valid()
      requires c.request.Nexran? && c.callProcessId == Null && c.callProcessIdLen == 0
      modifies this`outbox, e2ap`nextInstanceId
      ensures Valid()
      ensures outbox == old(outbox) + [Sent(enc, e2ap.requestorId, meid, old(e2ap.nextInstanceId), c.request.nexran,
                                            ControlState(c.encoded, c.header, c.headerLen, c.message, c.messageLen))]
      ensures e2ap.nextInstanceId == old(e2ap.nextInstanceId) + 1
    {
      var requestorId := e2ap.GetRequestorId();
      var instanceId := e2ap.GetNextInstanceId();
      var creq := new ControlRequest(requestorId, instanceId, NEXRAN_FUNCTION_ID, c, CONTROL_REQUEST_ACK);
      var _ := creq.Encode(enc);
      var o := Outgoing(meid, instanceId, c.request.nexran, creq.buf, creq.len);
      assert o == Sent(enc, requestorId, meid, instanceId, c.request.nexran, c.State());
      SendKeepsOrdered(outbox, instanceId, o);
      outbox := outbox + [o];
    }

    /** Sends the encoded control once to every registered NodeB, in the registry's key order. */
    method SendToAll(c: E2smControl.Control)
      requires Valid()
      requires c.request.Nexran? && c.callProcessId == Null && c.callProcessIdLen == 0
      modifies this`outbox, e2ap`nextInstanceId
      ensures Valid()
      ensures outbox == old(outbox) + Broadcast(enc, e2ap.requestorId, SortedKeys(db.nodebs.Keys), old(e2ap.nextInstanceId), c.request.nexran, c.State())
      ensures e2ap.nextInstanceId == old(e2ap.nextInstanceId) + |db.nodebs|
    {
      var ks := KeysInOrder(db.nodebs.Keys);
      SortedKeysEnumerates(db.nodebs.Keys);
      SendToEach(c, ks);
      assert |ks| == |db.nodebs.Keys| == |db.nodebs|;
    }

    /** The loop of SendToAll: one request per NodeB of `meids`, in that order, each under the next instance id. */
    method SendToEach(c: E2smControl.Control, meids: seq<string>)
      requires Valid()
      requires c.request.Nexran? && c.callProcessId == Null && c.callProcessIdLen == 0
      requires forall i | 0 <= i < |meids| :: meids[i] in db.nodebs
      modifies this`outbox, e2ap`nextInstanceId
      ensures Valid()
      ensures outbox == old(outbox) + Broadcast(enc, e2ap.requestorId, meids, old(e2ap.nextInstanceId), c.request.nexran, c.State())
      ensures e2ap.nextInstanceId == old(e2ap.nextInstanceId) + |meids|
    {
      var r := c.request.nexran;
      ghost var cs := ControlState(c.encoded, c.header, c.headerLen, c.message, c.messageLen);
      ghost var start := e2ap.nextInstanceId;
      ghost var n := |outbox|;
      for i := 0 to |meids|
        invariant Valid()
        invariant |outbox| == n + i && outbox[..n] == old(outbox)
        invariant forall j | 0 <= j < i :: outbox[n + j] == Sent(enc, e2ap.requestorId, meids[j], start + j, r, cs)
        invariant e2ap.nextInstanceId == start + i
      {
        assert db.nodebs[meids[i]].name == meids[i];
        Send(c, db.nodebs[meids[i]].name);
      }
      ghost var b := Broadcast(enc, e2ap.requestorId, meids, start, r, cs);
      BroadcastAt(enc, e2ap.requestorId, meids, start, r, cs);
      forall j | 0 <= j < |outbox|
        ensures outbox[j] == (old(outbox) + b)[j]
      {
        if j < n {
          assert outbox[j] == outbox[..n][j];
        }
      }
    }

    /** The NodeB objects a NodeB-side binding may change. */
    ghost function NodeBFrame(name: string): set<object>
      reads this
    {
      if name in db.nodebs then {db.nodebs[name]} else {}
    }

    /** The slice objects a UE binding may change. */
    ghost function SliceFrame(name: string): set<object>
      reads this
    {
      if name in db.slices then {db.slices[name]} else {}
    }

    /** Nothing was sent and no instance id was used. */
    twostate predicate NothingSent()
      reads this, e2ap
    {
      outbox == old(outbox) && e2ap.nextInstanceId == old(e2ap.nextInstanceId)
    }

    /**
     * `bind_slice_nodeb` once both exist: refused with 403 when the slice is
     * already bound to the NodeB; otherwise the slice is bound under its
     * name and one slice configuration request carrying the slice's
     * current share goes to the NodeB under the next instance id.
     */
    twostate predicate SliceBound(nb: NodeBs.NodeB, s: Slices.Slice, ok: bool)
      reads this, e2ap, nb, s.policy
    {
      (ok <==> s.name !in old(nb.slices)) &&
      if !ok then
        nb.slices == old(nb.slices) && NothingSent()
      else
        nb.slices == old(nb.slices)[s.name := s] &&
        e2ap.nextInstanceId == old(e2ap.nextInstanceId) + 1 &&
        var r := E2smNexran.SliceConfigRequest([E2smNexran.SliceConfig(s.name, s.policy.share)]);
        outbox == old(outbox) + [Sent(enc, e2ap.requestorId, nb.name, old(e2ap.nextInstanceId), r, ControlOf(enc, r))]
    }

    /**
     * `unbind_slice_nodeb` once both exist: refused with 404 when the slice
     * is not bound to the NodeB; otherwise the binding is removed and one
     * slice delete request goes to the NodeB under the next instance id.
     */
    twostate predicate SliceUnbound(nb: NodeBs.NodeB, sliceName: string, ok: bool)
      reads this, e2ap, nb
    {
      (ok <==> sliceName in old(nb.slices)) &&
      nb.slices == old(nb.slices) - {sliceName} &&
      if !ok then
        NothingSent()
      else
        e2ap.nextInstanceId == old(e2ap.nextInstanceId) + 1 &&
        var r := E2smNexran.SliceDeleteRequest([sliceName]);
        outbox == old(outbox) + [Sent(enc, e2ap.requestorId, nb.name, old(e2ap.nextInstanceId), r, ControlOf(enc, r))]
    }

    /**
     * `bind_ue_slice` once both exist: refused with 403 when the UE is in
     * the slice already; otherwise the UE is added under its IMSI and one
     * UE bind request goes to every registered NodeB, bound to the slice
     * or not, in key order, under consecutive instance ids.
     */
    twostate predicate UeBound(s: Slices.Slice, u: Ues.Ue, ok: bool)
      reads this, e2ap, s
    {
      (ok <==> u.imsi !in old(s.ues)) &&
      if !ok then
        s.ues == old(s.ues) && NothingSent()
      else
        s.ues == old(s.ues)[u.imsi := u] &&
        e2ap.nextInstanceId == old(e2ap.nextInstanceId) + |db.nodebs| &&
        var r := E2smNexran.SliceUeBindRequest(s.name, [u.imsi]);
        outbox == old(outbox) + Broadcast(enc, e2ap.requestorId, SortedKeys(db.nodebs.Keys), old(e2ap.nextInstanceId), r, ControlOf(enc, r))
    }

    /**
     * `unbind_ue_slice` once both exist: refused with 404 when the UE is not
     * in the slice; otherwise it is removed and one UE unbind request goes
     * to every registered NodeB in key order, under consecutive instance ids.
     */
    twostate predicate UeUnbound(s: Slices.Slice, imsi: string, ok: bool)
      reads this, e2ap, s
    {
      (ok <==> imsi in old(s.ues)) &&
      s.ues == old(s.ues) - {imsi} &&
      if !ok then
        NothingSent()
      else
        e2ap.nextInstanceId == old(e2ap.nextInstanceId) + |db.nodebs| &&
        var r := E2smNexran.SliceUeUnbindRequest(s.name, [imsi]);
        outbox == old(outbox) + Broadcast(enc, e2ap.requestorId, SortedKeys(db.nodebs.Keys), old(e2ap.nextInstanceId), r, ControlOf(enc, r))
    }

    /**
     * `bind_slice_nodeb`: the slice must exist (404), then the NodeB (404);
     * then the binding step decides.
     */
    method BindSliceNodeB(sliceName: string, nodebName: string, ae: ErrorSlot?) returns (ok: bool)
      requires Valid()
      modifies Sink(ae), this`outbox, e2ap`nextInstanceId, NodeBFrame(nodebName)
      ensures Valid()
      ensures sliceName !in db.slices ==>
        !ok && NothingSent() && Appended(ae, NOT_FOUND, [NO_SLICE])
      ensures sliceName in db.slices && nodebName !in db.nodebs ==>
        !ok && NothingSent() && Appended(ae, NOT_FOUND, [NO_NODEB])
      ensures sliceName in db.slices && nodebName in db.nodebs ==>
        SliceBound(db.nodebs[nodebName], db.slices[sliceName], ok) &&
        Appended(ae, FORBIDDEN, if ok then [] else [SLICE_ALREADY_BOUND])
    {
      if sliceName !in db.slices {
        Report(ae, NOT_FOUND, NO_SLICE);
        return false;
      }
      if nodebName !in db.nodebs {
        Report(ae, NOT_FOUND, NO_NODEB);
        return false;
      }
      ok := BindSliceStep(db.nodebs[nodebName], db.slices[sliceName], ae);
    }

    /** What `bind_slice_nodeb` does once both the slice and the NodeB are found. */
    method BindSliceStep(nodeb: NodeBs.NodeB, slice: Slices.Slice, ae: ErrorSlot?) returns (ok: bool)
      requires Valid()
      modifies Sink(ae), this`outbox, e2ap`nextInstanceId, nodeb`slices
      ensures Valid()
      ensures SliceBound(nodeb, slice, ok)
      ensures Appended(ae, FORBIDDEN, if ok then [] else [SLICE_ALREADY_BOUND])
    {
      ok := nodeb.BindSlice(slice);
      if !ok {
        // the report touches the sink only
        ghost var bound, sent, next := nodeb.slices, outbox, e2ap.nextInstanceId;
        Report(ae, FORBIDDEN, SLICE_ALREADY_BOUND);
        assert nodeb.slices == bound && outbox == sent && e2ap.nextInstanceId == next;
        return;
      }
      ghost var log := LogOf(ae);
      assert Append(log, FORBIDDEN, []) == log;
      var c := NewControl(E2smNexran.SliceConfigRequest([E2smNexran.SliceConfig(slice.name, slice.policy.share)]));
      Send(c, nodeb.name);
      assert LogOf(ae) == log && (ae != null ==> ae.err == old(ae.err));
    }

    /**
     * `unbind_slice_nodeb`: the slice must exist (404), then the NodeB
     * (404); then the unbinding step decides.
     */
    method UnbindSliceNodeB(sliceName: string, nodebName: string, ae: ErrorSlot?) returns (ok: bool)
      requires Valid()
      modifies Sink(ae), this`outbox, e2ap`nextInstanceId, NodeBFrame(nodebName)
      ensures Valid()
      ensures sliceName !in db.slices ==>
        !ok && NothingSent() && Appended(ae, NOT_FOUND, [NO_SLICE])
      ensures sliceName in db.slices && nodebName !in db.nodebs ==>
        !ok && NothingSent() && Appended(ae, NOT_FOUND, [NO_NODEB])
      ensures sliceName in db.slices && nodebName in db.nodebs ==>
        SliceUnbound(db.nodebs[nodebName], sliceName, ok) &&
        Appended(ae, NOT_FOUND, if ok then [] else [SLICE_NOT_BOUND])
    {
      if sliceName !in db.slices {
        Report(ae, NOT_FOUND, NO_SLICE);
        return false;
      }
      if nodebName !in db.nodebs {
        Report(ae, NOT_FOUND, NO_NODEB);
        return false;
      }
      ok := UnbindSliceStep(db.nodebs[nodebName], sliceName, ae);
    }

    /** What `unbind_slice_nodeb` does once both the slice and the NodeB are found. */
    method UnbindSliceStep(nodeb: NodeBs.NodeB, sliceName: string, ae: ErrorSlot?) returns (ok: bool)
      requires Valid()
      modifies Sink(ae), this`outbox, e2ap`nextInstanceId, nodeb`slices
      ensures Valid()
      ensures SliceUnbound(nodeb, sliceName, ok)
      ensures Appended(ae, NOT_FOUND, if ok then [] else [SLICE_NOT_BOUND])
    {
      ok := nodeb.UnbindSlice(sliceName);
      if !ok {
        // the report touches the sink only
        ghost var bound, sent, next := nodeb.slices, outbox, e2ap.nextInstanceId;
        Report(ae, NOT_FOUND, SLICE_NOT_BOUND);
        assert nodeb.slices == bound && outbox == sent && e2ap.nextInstanceId == next;
        return;
      }
      ghost var log := LogOf(ae);
      assert Append(log, NOT_FOUND, []) == log;
      var c := NewControl(E2smNexran.SliceDeleteRequest([sliceName]));
      Send(c, nodeb.name);
      assert LogOf(ae) == log && (ae != null ==> ae.err == old(ae.err));
    }

    /**
     * `bind_ue_slice`: the slice must exist (404), then the UE (404); then
     * the binding step decides.
     */
    method BindUeSlice(imsi: string, sliceName: string, ae: ErrorSlot?) returns (ok: bool)
      requires Valid()
      modifies Sink(ae), this`outbox, e2ap`nextInstanceId, SliceFrame(sliceName)
      ensures Valid()
      ensures sliceName !in db.slices ==>
        !ok && NothingSent() && Appended(ae, NOT_FOUND, [NO_SLICE])
      ensures sliceName in db.slices && imsi !in db.ues ==>
        !ok && NothingSent() && Appended(ae, NOT_FOUND, [NO_UE])
      ensures sliceName in db.slices && imsi in db.ues ==>
        UeBound(db.slices[sliceName], db.ues[imsi], ok) &&
        Appended(ae, FORBIDDEN, if ok then [] else [UE_ALREADY_BOUND])
    {
      if sliceName !in db.slices {
        Report(ae, NOT_FOUND, NO_SLICE);
        return false;
      }
      if imsi !in db.ues {
        Report(ae, NOT_FOUND, NO_UE);
        return false;
      }
      ok := BindUeStep(db.slices[sliceName], db.ues[imsi], ae);
    }

    /** What `bind_ue_slice` does once both the slice and the UE are found. */
    method BindUeStep(slice: Slices.Slice, ue: Ues.Ue, ae: ErrorSlot?) returns (ok: bool)
      requires Valid()
      modifies Sink(ae), this`outbox, e2ap`nextInstanceId, slice`ues
      ensures Valid()
      ensures UeBound(slice, ue, ok)
      ensures Appended(ae, FORBIDDEN, if ok then [] else [UE_ALREADY_BOUND])
    {
      ok := slice.BindUe(ue);
      if !ok {
        // the report touches the sink only
        ghost var bound, sent, next := slice.ues, outbox, e2ap.nextInstanceId;
        Report(ae, FORBIDDEN, UE_ALREADY_BOUND);
        assert slice.ues == bound && outbox == sent && e2ap.nextInstanceId == next;
        return;
      }
      ghost var log := LogOf(ae);
      assert Append(log, FORBIDDEN, []) == log;
      var c := NewControl(E2smNexran.SliceUeBindRequest(slice.name, [ue.imsi]));
      SendToAll(c);
      assert LogOf(ae) == log && (ae != null ==> ae.err == old(ae.err));
    }

    /**
     * `unbind_ue_slice`: the slice must exist (404), then the UE (404);
     * then the unbinding step decides.
     */
    method UnbindUeSlice(imsi: string, sliceName: string, ae: ErrorSlot?) returns (ok: bool)
      requires Valid()
      modifies Sink(ae), this`outbox, e2ap`nextInstanceId, SliceFrame(sliceName)
      ensures Valid()
      ensures sliceName !in db.slices ==>
        !ok && NothingSent() && Appended(ae, NOT_FOUND, [NO_SLICE])
      ensures sliceName in db.slices && imsi !in db.ues ==>
        !ok && NothingSent() && Appended(ae, NOT_FOUND, [NO_UE])
      ensures sliceName in db.slices && imsi in db.ues ==>
        UeUnbound(db.slices[sliceName], imsi, ok) &&
        Appended(ae, NOT_FOUND, if ok then [] else [UE_NOT_BOUND])
    {
      if sliceName !in db.slices {
        Report(ae, NOT_FOUND, NO_SLICE);
        return false;
      }
      if imsi !in db.ues {
        Report(ae, NOT_FOUND, NO_UE);
        return false;
      }
      ok := UnbindUeStep(db.slices[sliceName], imsi, ae);
    }

    /** What `unbind_ue_slice` does once both the slice and the UE are found. */
    method UnbindUeStep(slice: Slices.Slice, imsi: string, ae: ErrorSlot?) returns (ok: bool)
      requires Valid()
      modifies Sink(ae), this`outbox, e2ap`nextInstanceId, slice`ues
      ensures Valid()
      ensures UeUnbound(slice, imsi, ok)
      ensures Appended(ae, NOT_FOUND, if ok then [] else [UE_NOT_BOUND])
    {
      ghost var err, log := if ae == null then null else ae.err, LogOf(ae);
      ok := slice.UnbindUe(imsi);
      if !ok {
        // the report touches the sink only
        ghost var bound, sent, next := slice.ues, outbox, e2ap.nextInstanceId;
        Report(ae, NOT_FOUND, UE_NOT_BOUND);
        assert slice.ues == bound && outbox == sent && e2ap.nextInstanceId == next;
        return;
      }
      assert Append(log, NOT_FOUND, []) == log;
      var c := NewControl(E2smNexran.SliceUeUnbindRequest(slice.name, [imsi]));
      SendToAll(c);
      assert ae != null ==> ae.err == err;
      assert LogOf(ae) == log;
    }
  }

  /**
   * A broadcast addresses every registered NodeB exactly once, in strictly
   * increasing key order, under consecutive, hence distinct, instance ids.
   */
  lemma BroadcastReachesEveryNodeB(enc: Encoder, requestorId: int, nodebs: set<string>, start: int, r: E2smNexran.Request, c: ControlState)
    ensures var os := Broadcast(enc, requestorId, SortedKeys(nodebs), start, r, c);
      |os| == |nodebs| &&
      (forall k :: k in nodebs <==> exists i | 0 <= i < |os| :: os[i].meid == k) &&
      (forall i, j | 0 <= i < j < |os| :: LexLess(os[i].meid, os[j].meid) && os[i].instanceId < os[j].instanceId) &&
      (forall i | 0 <= i < |os| :: os[i].instanceId == start + i)
  {
    SortedKeysEnumerates(nodebs);
    SortedKeysComplete(nodebs);
    SortedKeysSorted(nodebs);
    var ks := SortedKeys(nodebs);
    var os := Broadcast(enc, requestorId, ks, start, r, c);
    BroadcastAt(enc, requestorId, ks, start, r, c);
    assert forall i | 0 <= i < |os| :: os[i].meid == ks[i] && os[i].instanceId == start + i;
    forall k
      ensures k in nodebs <==> exists i | 0 <= i < |os| :: os[i].meid == k
    {
      if k in nodebs {
        var i :| 0 <= i < |ks| && ks[i] == k;
        assert os[i].meid == k;
      }
    }
  }
}
