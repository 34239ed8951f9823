# nexran in Dafny

A model of the core of nexran, an O-RAN near-RT RIC xApp. nexran keeps a
registry of RAN nodes (NodeBs), slices and UEs, edits it through a REST
interface, and turns bindings into E2 control requests for the NodeBs.
The model covers these parts:

- the REST resources: the table-driven `validate_json` request validator,
  the `AppError` accumulator and its `AppError **ae` sink, and the
  create, update and serialize operations of NodeB, Slice, Ue, AppConfig
  and the proportional allocation policy;
- the App: its registry of the three resource kinds, add, delete and
  update, and the four bind and unbind operations with their broadcast of
  E2 control requests;
- the E2AP and E2SM layers: the requestor and instance id allocator, the
  RIC control request, and the NexRAN, Zylinium and KPM service models
  (their requests, responses, indications and event triggers);
- the request group that tracks outstanding control requests;
- the command-line and environment configuration of the xApp.

Each source entity whose fields change in place is a Dafny `class` whose
methods state their new state, for example `Apps.App`, `Slices.Slice`,
`NodeBs.NodeB`, `E2ap.E2AP` and `Configs.Config`. Each value entity is a
`datatype`. The ASN.1 codec is not modelled. An `Encoder` function stands
for it, a parameter that fixes the encoded length or failure for each
abstract ASN.1 value. An encoded buffer is that abstract value, not bytes.
The REST transport, RMR and the clock are parameters or state fields: the
App's `outbox` holds the messages it would send.

Modules, one file each: `CLib` (C and C++ library behaviour: C strings,
atoi, printf's "%06x", unsigned conversions, std::string order), `Json`,
`RestServer`, `Resource`, `Asn`, `E2sm`, `E2smNexran`, `E2smZylinium`,
`E2smControl`, `E2ap`, `E2smKpm`, `Policy`, `Ues`, `Slices`, `NodeBs`,
`AppConfigs`, `RequestGroups`, `Apps`, `Configs`, and `Wrappers` for the
`Option` type.

## Model

| member | source | states |
|---|---|---|
| CLib.ToU64 | src/policy.cc:35 | the byte total is compared with the int threshold as uint64_t: values in 0..2^64-1 are kept, negative ones in range are wrapped by 2^64 |
| CLib.ToU32 | src/nodeb.cc:94 | "%06x" reads the int32 id as unsigned: ids in 0..2^32-1 are kept, negative ids are wrapped by 2^32 |
| CLib.ToU8 | src/nodeb.cc:146 | the uint8_t cast of id_len: the result is in 0..255 and equals the input when that is in range |
| CLib.CStr | src/ue.cc:59-60 | a JSON string read through `char*`: the NUL-free prefix before the first NUL |
| CLib.CStrOfNoNul | src/ue.cc:59-60 | a string without NUL is its own C string |
| CLib.SkipSpace | src/config.cc:95 | atoi's leading white space: the result is a suffix of the input that starts with no C space |
| CLib.LeadingDigits | src/config.cc:95 | atoi's digit run: the longest prefix made of decimal digits |
| CLib.DecimalValue | src/config.cc:95 | the value of a digit string is never negative |
| CLib.DecimalString | src/config.cc:95 | the "%d" rendering of a natural number: one or more decimal digits |
| CLib.DecimalValueOfString | src/config.cc:95 | reading the digits of n back gives n |
| CLib.LeadingDigitsOfDigits | src/config.cc:95 | a string made only of digits is its own digit run |
| CLib.AtoiOfDecimalString | src/config.cc:95 | atoi reads back every integer written in decimal, negative ones included |
| CLib.HexChar | src/nodeb.cc:94 | a digit below 16 becomes a lower-case hexadecimal character |
| CLib.Hex | src/nodeb.cc:94 | the "%x" rendering: one or more lower-case hexadecimal digits |
| CLib.Zeros | src/nodeb.cc:94 | the padding of "%06x": k zero characters |
| CLib.HexPadded | src/nodeb.cc:94 | "%0<w>x": at least w lower-case hexadecimal digits |
| CLib.HexValueOfHex | src/nodeb.cc:94 | reading Hex(n) back gives n |
| CLib.HexValueIgnoresLeadingZeros | src/nodeb.cc:94 | leading zeros do not change a hexadecimal value |
| CLib.ZerosValue | src/nodeb.cc:94 | a run of zeros reads as 0 |
| CLib.HexPaddedRoundTrip | src/nodeb.cc:94 | the padded rendering of n reads back as n, so "%06x" loses nothing |
| CLib.LexLessIrreflexive | src/nexran.cc:352-354 | std::string's operator< never holds between a key and itself |
| CLib.LexLessTransitive | src/nexran.cc:352-354 | std::string's operator< is transitive |
| CLib.LexLessTotal | src/nexran.cc:352-354 | any two different keys are ordered one way or the other |
| CLib.LeastKeyExists | src/nexran.cc:352-354 | every non-empty key set has a least key, the first one a std::map visits |
| Json.GetString | src/ue.cc:59 | GetString() through `char*` yields a NUL-free string |
| Asn.EncodeToNewBuffer | lib/e2sm/src/e2sm.cc:10-22 | the encode helper returns -1 and leaves the buffer as it was when the codec fails; otherwise it returns the codec's length and the buffer holds the encoding |
| RestServer.RequestError.WithMessages | include/restserver.h:17-18 | a new error holds the given status and messages |
| RestServer.RequestError.WithMessage | include/restserver.h:19-21 | a new error holds the status and the one message |
| RestServer.RequestError.constructor | include/restserver.h:22-24 | a new error holds the status and no message |
| RestServer.RequestError.Add | include/restserver.h:27-30 | the message is appended at the end and the status is unchanged |
| RestServer.RequestError.Serialize | include/restserver.h:32-41 | the error's JSON is an object whose only key is "errors", an array with one string per message, in order |
| RestServer.RequestContext.constructor | include/restserver.h:49-52 | a new context has code 200, is neither async nor sent, and has transmitted nothing |
| RestServer.RequestContext.MakeAsync | include/restserver.h:55 | the context is marked asynchronous |
| RestServer.RequestContext.SetCode | include/restserver.h:62 | the response code becomes the given one |
| RestServer.RequestContext.Send | include/restserver.h:64 | the first call transmits exactly one response, with the current code and body; later calls transmit nothing |
| RestServer.ErrorSlot.constructor | include/nexran.h:46-47 | a new sink holds no error |
| RestServer.Append | include/nexran.h:99-103 | reporting keeps a missing sink missing; an existing error keeps its status and gains the messages at its end |
| RestServer.AppendTwice | include/nexran.h:96-171 | reporting two batches in turn is reporting both at once: the status is fixed by the first report |
| RestServer.Report | include/nexran.h:99-103 | the sink gains exactly the message: an existing error is kept, otherwise a fresh one with the status is made |
| Resource.ValidateValue | include/nexran.h:76-90 | a value passes for a property exactly when the property is declared and the value has its declared JSON kind, with INT and UINT limited to the int32 and uint32 ranges |
| Resource.ListErrorsEmpty | include/nexran.h:96-153 | a list check reports nothing exactly when no entry of the list fails |
| Resource.EnumErrorsEmpty | include/nexran.h:154-170 | the enumeration check reports nothing exactly when no enumeration fails |
| Resource.ListErrorsContains | include/nexran.h:96-153 | every failing entry's message is among the list's messages |
| Resource.AcceptsIffConforms | include/nexran.h:92-172 | validate_json finds no error exactly when the body conforms to the tables: required properties present and well-typed, optional ones well-typed when present, disallowed ones absent, enumerated strings allowed |
| Resource.RequiredErrorsEmpty | include/nexran.h:96-121 | the required check is clean exactly when every required property is present with its declared kind |
| Resource.OptionalErrorsEmpty | include/nexran.h:122-138 | the optional check is clean exactly when every optional property that is present has its declared kind |
| Resource.DisallowedErrorsEmpty | include/nexran.h:139-153 | the disallowed check is clean exactly when no disallowed property is present |
| Resource.MissingRequiredIsReported | include/nexran.h:98-102 | an absent required property is reported as "missing required property: " and its name |
| Resource.WrongTypeIsReported | include/nexran.h:109-113 | a required or optional property of the wrong kind is reported as "invalid type for property: " and its name |
| Resource.AbsentOptionalsAreSilent | include/nexran.h:124-125 | optional properties that are absent produce no message |
| Resource.DisallowedIsReported | include/nexran.h:141-146 | a disallowed property that is present is reported as "invalid property: " and its name |
| Resource.BadEnumIsReported | include/nexran.h:155-163 | a string outside its enumeration is reported as "invalid enum value for property: " and the property's name |
| Resource.EnumErrorsContains | include/nexran.h:154-170 | every failing enumeration's message is among the enumeration messages |
| Resource.CheckList | include/nexran.h:97-120 | one list loop: unless it aborts, it is clean exactly when the list has no error and it appends all the list's messages; it aborts only for an aborting resource with an error, after appending the first message only |
| Resource.ListErrorsStep | include/nexran.h:97-120 | the messages of one more entry are the earlier messages followed by that entry's message, if any |
| Resource.ListErrorsPrefix | include/nexran.h:97-120 | the messages of a prefix of a list are a prefix of the list's messages |
| Resource.CheckEnums | include/nexran.h:154-170 | the enumeration loop: the same clean, append and abort behaviour as a list loop, over the enumerations |
| Resource.EnumErrorsPrefix | include/nexran.h:154-170 | the messages of a prefix of the enumerations are a prefix of all their messages |
| Resource.CheckStage | include/nexran.h:96-97 | a stage runs its method's list, or does nothing when the method has no list |
| Resource.CheckPresent | include/nexran.h:96-138 | the required then the optional stage: the sink gains their messages in order (only the first when aborting) |
| Resource.CheckAbsentAndEnums | include/nexran.h:139-170 | the disallowed then the enumeration stage: the sink gains their messages in order (only the first when aborting) |
| Resource.ErrorsInTwoHalves | include/nexran.h:92-172 | all messages are those of the first two stages followed by those of the last two |
| Resource.ReportedInTwoHalves | include/nexran.h:104-105 | an aborting resource records only the first message; any other records all of them |
| Resource.ValidateJson | include/nexran.h:92-172 | validate_json returns true exactly when the body has no error, and the sink gains with status 400 all the messages in check order, or only the first for a resource that aborts at once |
| RequestGroups.DoneIffNonePending | include/nexran.h:493-517 | a group is done exactly when it counts no pending request |
| RequestGroups.CountsPartition | include/nexran.h:464-479 | every request is in exactly one state, so the pending, succeeded and failed counts add up to the size of the group |
| RequestGroups.CountInStep | include/nexran.h:494-513 | visiting one more request raises the count of its own state by one and no other |
| RequestGroups.AddedIsNotDone | include/nexran.h:485-487 | a group that has just had a request added is not done, since new requests start out pending |
| RequestGroups.UpdateKeepsDone | include/nexran.h:488-492 | settling a request never makes a done group undone; setting a known request back to pending always does; the set of ids never changes |
| RequestGroups.Pick | include/nexran.h:495 | the next request to visit is one not yet visited |
| RequestGroups.Counter.constructor | include/nexran.h:493 | an `int` counter starts at the given value |
| RequestGroups.RequestGroup.constructor | include/nexran.h:481-482 | a new group is empty, keeps its context, and expires `t` seconds after creation |
| RequestGroups.RequestGroup.Add | include/nexran.h:485-487 | the request is tracked as pending under its instance id, replacing an earlier entry with that id |
| RequestGroups.RequestGroup.Update | include/nexran.h:488-492 | a known id gets the new state; an unknown id leaves the group as it was |
| RequestGroups.RequestGroup.IsDone | include/nexran.h:493-517 | the answer is true exactly when no request is pending, and each counter passed is raised by the number of requests in each state it stands for (summed when the same counter is passed for two states) |
| RequestGroups.RequestGroup.Bump | include/nexran.h:496-509 | one request bumps exactly the counter of its state, when that counter was passed |
| AppConfigs.ConformingPutIsTyped | src/app_config.cc:12-17 | a PUT body that validates carries an int32 "kpm_interval_index" and, if it has one, a string "influxdb_url" |
| AppConfigs.AppConfig.constructor | include/nexran.h:184-185 | the configuration starts with interval MS5120, an empty URL and the name "appconfig" |
| AppConfigs.AppConfig.Update | src/app_config.cc:38-72 | a non-object or non-conforming body is refused with 400 and the validation messages; an index outside 0..19 is refused with 401 when there is a sink; otherwise the index is stored and the URL replaced when one is sent, and nothing is reported |
| AppConfigs.Create | src/app_config.cc:31-36 | creating is always refused: no object, and the sink holds a fresh 404 error with the singleton message |
| E2ap.AckValue | lib/e2ap/include/e2ap.h:49-53 | the ack request choices carry the values 0, 1 and 2 |
| E2ap.AckValueRoundTrip | lib/e2ap/include/e2ap.h:49-53 | NONE=0, ACK=1 and NACK=2 name the three choices one to one, and no other value names one |
| E2ap.E2AP.constructor | lib/e2ap/include/e2ap.h:141-142 | the requestor id is fixed at 1 and the first instance id handed out is 1 |
| E2ap.E2AP.GetRequestorId | lib/e2ap/include/e2ap.h:149 | the fixed requestor id |
| E2ap.E2AP.GetNextInstanceId | lib/e2ap/include/e2ap.h:150 | the current instance id is handed out and the counter moves one past it, so ids are never repeated |
| E2ap.RanFunctionIds.constructor | lib/e2ap/src/e2ap.cc:18 | RAN function ids start at 0 |
| E2ap.RanFunctionIds.GetNextRanFunctionId | lib/e2ap/src/e2ap.cc:20-23 | the current RAN function id is handed out and the counter moves one past it |
| E2ap.EncodePdu | lib/e2ap/src/e2ap.cc:25-52 | the encoded length is returned and stored in the length when the codec succeeds, with the buffer holding the PDU; a failure returns -1 and leaves buffer and length as they were |
| E2ap.ControlIEsOrder | lib/e2ap/src/e2ap.cc:78-133 | a RIC control request carries, in order, the request id, the RAN function id, the call process id exactly when the control has a non-empty one, the control header, the control message and the ack request |
| E2ap.ControlRequest.constructor | lib/e2ap/include/e2ap.h:75-80 | a new request keeps its ids, control and ack choice, and is not yet encoded, with a null buffer and length 0 |
| E2ap.ControlRequest.SetInstanceId | lib/e2ap/include/e2ap.h:83 | the instance id becomes the given one |
| E2ap.ControlRequest.BuildIEs | lib/e2ap/src/e2ap.cc:78-133 | the IE list assembled step by step is the request's PDU |
| E2ap.ControlRequest.Encode | lib/e2ap/src/e2ap.cc:60-154 | an encoded request returns true untouched; otherwise a codec failure returns false and leaves it unencoded, and a success stores the PDU and its length and marks it encoded |
| E2sm.ControlEncode | lib/e2sm/src/e2sm_nexran.cc:22-79 | an encoded control returns true unchanged; a control becomes encoded exactly when both its header and message encode, storing both; after a failure the header is null with length 0 and the message is as it was |
| E2sm.ControlEncodeIdempotent | lib/e2sm/src/e2sm_nexran.cc:24-25 | once encoding has succeeded, encoding again returns true and changes nothing |
| E2sm.ControlEncodeRetry | lib/e2sm/src/e2sm_nexran.cc:53-73 | a failed first attempt leaves nothing the next attempt depends on: failing and retrying ends where succeeding at once does |
| E2sm.EncodeValue | lib/e2sm/src/e2sm.cc:10-22 | the call returns the codec's length or -1, with the buffer holding the encoding on success |
| E2sm.TriggerEncode | lib/e2sm/src/e2sm_kpm.cc:90-122 | an encoded trigger returns true unchanged; otherwise the result is true exactly when the definition encodes, storing it, and a failure leaves a null buffer with length 0 |
| E2smControl.EncodeResult | lib/e2sm/src/e2sm_zylinium.cc:199-307 | the NexRAN requests and the mask status request report success even when nothing was encoded (they return 1); only the mask configuration request returns false on a codec failure, and its result is exactly whether it is encoded |
| E2smControl.Control.constructor | lib/e2sm/include/e2sm.h:41-43 | a new control is unencoded, with every buffer null and every length 0 |
| E2smControl.Control.Encode | lib/e2sm/src/e2sm_nexran.cc:22-79 | one encode call of the request's own header and message, with the request's own failure value; the call process id is left alone |
| E2smKpm.PeriodIndex | lib/e2sm/include/e2sm_kpm.h:93-114 | every report period has an enumeration value between 0 and 19 |
| E2smKpm.PeriodIndexRoundTrip | lib/e2sm/include/e2sm_kpm.h:93-114 | the twenty periods are numbered 0 to 19 one to one, and no other value names a period |
| E2smKpm.MetricsIndex.constructor | lib/e2sm/include/e2sm_kpm.h:46-47 | a new window has its period, no sample and zero totals |
| E2smKpm.MetricsIndex.GetTotalBytes | lib/e2sm/include/e2sm_kpm.h:52 | the downlink plus uplink byte totals as a uint64_t: congruent to the true sum modulo 2^64, and equal to it when it fits |
| E2smKpm.MetricsIndex.Size | lib/e2sm/include/e2sm_kpm.h:53 | the number of queued samples |
| E2smKpm.MetricsIndex.Reset | lib/e2sm/include/e2sm_kpm.h:55 | the window period becomes the given one |
| E2smKpm.KpmReport.constructor | lib/e2sm/include/e2sm_kpm.h:66-68 | a new report has zero period, PRBs and active UEs, and no UE or slice metrics |
| E2smKpm.EventTrigger.WithPeriod | lib/e2sm/include/e2sm_kpm.h:121-122 | a new trigger reports at the given period and is not yet encoded |
| E2smKpm.EventTrigger.constructor | lib/e2sm/include/e2sm_kpm.h:123-124 | without a period a trigger reports every 5120 ms (value 18) |
| E2smKpm.EventTrigger.Encode | lib/e2sm/src/e2sm_kpm.cc:90-122 | one encode call of the Format1 definition with one item holding the trigger's period |
| E2smKpm.DecodeIndication | lib/e2sm/src/e2sm_kpm.cc:22-88 | a present part that does not decode, or a missing part, ends the decode; with both parts decoded the report style is read; no indication is ever returned |
| E2smNexran.NameOctets | lib/e2sm/src/e2sm_nexran.cc:101-102 | one item per name, in order, each the name up to its first NUL |
| E2smNexran.ConfigItems | lib/e2sm/src/e2sm_nexran.cc:40-49 | one SliceConfig item per slice, in order, with the name up to its first NUL and the policy's share |
| E2smNexran.MessageCarriesRequest | lib/e2sm/src/e2sm_nexran.cc:22-314 | the header names the message that follows it, and every list of the request arrives whole and in order, names cut at their first NUL |
| E2smNexran.NameOctetsOfNoNul | lib/e2sm/src/e2sm_nexran.cc:101-102 | names without NUL arrive unchanged |
| E2smNexran.AddNames | lib/e2sm/src/e2sm_nexran.cc:217-223 | the loop adds exactly the items NameOctets describes |
| E2smNexran.AddConfigs | lib/e2sm/src/e2sm_nexran.cc:40-49 | the loop adds exactly the items ConfigItems describes |
| E2smNexran.BuildMessage | lib/e2sm/src/e2sm_nexran.cc:37-49 | the message built by each request's encode is the request's control message |
| E2smZylinium.Take | lib/e2sm/src/e2sm_zylinium.cc:33-35 | std::string(buf, 0, size): a prefix of the string, of the given size or the whole string when shorter |
| E2smZylinium.CopyMask | lib/e2sm/src/e2sm_zylinium.cc:31-40 | a mask is empty unless its buffer is non-null with a positive size; otherwise it is the C string at the buffer cut to the size |
| E2smZylinium.MaskRoundTrip | lib/e2sm/src/e2sm_zylinium.cc:26-43 | masks sent in a mask configuration request and reported back with the sizes sent arrive as sent, up to their first NUL |
| E2smZylinium.DecodeIndication | lib/e2sm/src/e2sm_zylinium.cc:45-116 | an indication is produced exactly when both parts are present and decode and the message is a maskStatusReport; it holds the report's masks |
| E2smZylinium.DecodeControlOutcome | lib/e2sm/src/e2sm_zylinium.cc:118-197 | an outcome is produced exactly when it is present, decodes, is Format1 and carries a maskStatusReport; it holds the report's masks |
| E2smZylinium.EventTrigger.constructor | lib/e2sm/include/e2sm_zylinium.h:93-94 | a new trigger is not yet encoded |
| E2smZylinium.EventTrigger.Encode | lib/e2sm/src/e2sm_zylinium.cc:309-334 | one encode call of the ranEventDefinition trigger |
| NodeBs.FindType | src/nodeb.cc:44-46 | the search stops at the first table entry equal to the string, or at the end when none is |
| NodeBs.TypeStringToType | src/nodeb.cc:41-48 | the type is the index of the table entry equal to the C string, and END exactly when no entry is |
| NodeBs.TypeStringsDistinct | src/nodeb.cc:30-32 | no two types share a string, so the lookup is unambiguous |
| NodeBs.TypeStringsAreCStrings | src/nodeb.cc:30-32 | the table strings hold no NUL, so they survive the `const char *` round trip |
| NodeBs.TypeRoundTrip | src/nodeb.cc:34-48 | every type UNKNOWN..NG_ENB comes back from its string; a string comes back from its type when it is in the table, and "invalid" otherwise |
| NodeBs.EnbPrefixNamesVariant | src/nodeb.cc:58-75 | for eNBs and ng-eNBs the prefix is "invalid" exactly for id lengths other than 0, 18, 20 and 21; the lengths 18, 20 and 21 get different prefixes; ng-eNB prefixes are the eNB ones behind "ng_" |
| NodeBs.PaddedMnc | src/nodeb.cc:88-92 | a one- to three-character mnc is padded with leading zeros to three characters and ends in the mnc |
| NodeBs.AsWrittenOverrunsBuffer | src/nodeb.cc:94-96 | a 130-character mcc makes snprintf return more than the buffer holds, so `buf[rc]` is written past the buffer's end |
| NodeBs.BuildName | src/nodeb.cc:80-98 | the name is shorter than the 128-byte buffer and is a prefix of the formatted "%s_%s_%s%s_%06x" string, the whole of it when it fits |
| NodeBs.BuildNameAgrees | src/nodeb.cc:94-97 | the corrected build_name yields the name the code as written leaves in the buffer |
| NodeBs.NameCarriesId | src/nodeb.cc:94-95 | a name that fits is the prefix, mcc and padded mnc, then the id as at least six hex digits that read back as the id taken as unsigned |
| NodeBs.NodeB.constructor | include/nexran.h:399-403 | a new NodeB keeps its type, the C strings of its mcc and mnc, its id and id length, takes the built name, and is disconnected with total_prbs -1 and no slice |
| NodeBs.NodeB.BindSlice | include/nexran.h:410-415 | binding succeeds exactly when no slice of that name is bound, and then adds only that key |
| NodeBs.NodeB.UnbindSlice | include/nexran.h:416-421 | unbinding succeeds exactly when a slice of that name is bound, and then removes only that key |
| NodeBs.NodeB.Update | src/nodeb.cc:154-169 | every property is disallowed on PUT: the update succeeds exactly for an object with no error, changes no field, and reports the messages with 400 |
| NodeBs.ConformingPostIsTyped | src/nodeb.cc:6-24 | a POST body that validates carries string "type", "mcc" and "mnc", an int32 "id", a uint32 "id_len" if any, and a type string from the enumeration |
| NodeBs.CreateOutcome | src/nodeb.cc:130-152 | a non-object is refused as not an object; an object is accepted exactly when it conforms, otherwise refused with its validation messages; an accepted one gives the looked-up type, mcc, mnc, id and the id length cut to a byte (20 when absent) |
| NodeBs.CreatedTypeIsKnown | src/nodeb.cc:16-18 | the type of a created NodeB is a real node type (never UNKNOWN or END) whose string is the one sent, and its id length fits a byte |
| NodeBs.EnumTypeIsKnown | src/nodeb.cc:16-18 | every string the enumeration admits names a type from GNB to NG_ENB and reads back as itself |
| NodeBs.Create | src/nodeb.cc:130-152 | a NodeB is made exactly when the decision accepts, with the decided fields and built name; the sink gains the decision's messages with 400 |
| Policy.EndThrottling | src/policy.cc:12-27 | only the throttling fields change; throttling ends unless it is enabled and its end time has not come; ending returns the saved share and clears the end time and saved share; otherwise the policy is unchanged and -1 is returned |
| Policy.StartThrottling | src/policy.cc:29-57 | only the throttling fields change; throttling starts exactly when it is enabled, not already on, and the uint64 byte total reaches the threshold; starting saves the share, sets the end one period ahead and returns the throttled share; otherwise nothing changes and -1 is returned |
| Policy.UpdateThrottling | src/policy.cc:59-79 | the throttled share while throttling is enabled and on, else -1 |
| Policy.StartResult | src/policy.cc:43-56 | after starting the policy is throttling, and the result is the throttle share when positive, the target formula on the current sample when a target is set, and -1 when there is no sample or neither is set |
| Policy.StartThenEnd | src/policy.cc:12-40 | the share saved at the start is the one handed back at the end, whatever share is installed meanwhile; ending before the end time returns -1 and keeps throttling |
| Policy.EndTwice | src/policy.cc:14-15 | once throttling is off, ending again returns -1 and changes nothing |
| Policy.DefaultThresholdNeverStarts | src/policy.cc:35 | with the default threshold -1 the uint64 comparison sets the bar at 2^64-1, so a smaller byte total never starts throttling |
| Policy.UpdateAgreesWithStart | src/policy.cc:43-79 | right after a start, the update reports the share that starting reported |
| Policy.Updated | src/policy.cc:119-125 | an accepted body sets the share to the given one in [0, 1024] and each flag to the given value when present, and leaves every other field as it was |
| Policy.UpdateIdempotent | src/policy.cc:119-125 | applying the same accepted body twice is applying it once |
| Policy.ProportionalAllocationPolicy.constructor | include/nexran.h:263-270 | a policy keeps its settings, is not throttling, has end time 0 and saved share -1, and a fresh metrics window over the throttle period |
| Policy.ProportionalAllocationPolicy.WithShare | include/nexran.h:263-270 | a policy from its share alone: no auto-equalize, no throttle, threshold -1, period 1800, throttle share 128 |
| Policy.ProportionalAllocationPolicy.SetShare | include/nexran.h:275-280 | the share is set exactly when the new one lies in [0, 1024]; otherwise it is kept and false returned |
| Policy.ProportionalAllocationPolicy.MaybeEndThrottling | src/policy.cc:12-27 | the new state and result are those EndThrottling gives for the old state |
| Policy.ProportionalAllocationPolicy.MaybeStartThrottling | src/policy.cc:29-57 | the new state and result are those StartThrottling gives for the old state and the window's byte total |
| Policy.ProportionalAllocationPolicy.MaybeUpdateThrottling | src/policy.cc:59-79 | the result is UpdateThrottling of the current state, and nothing changes |
| Policy.ProportionalAllocationPolicy.Update | src/policy.cc:81-126 | a non-object, a wrong type or share, or a non-bool flag is refused with one 400 message and nothing changes; otherwise the state becomes Updated of the old one and nothing is reported |
| Slices.Slice.constructor | include/nexran.h:334-336 | a slice without a policy gets a fresh proportional policy of share 512 with default settings, and no UE |
| Slices.Slice.WithPolicy | include/nexran.h:337-339 | a slice keeps the policy it is given, and has no UE |
| Slices.Slice.BindUe | include/nexran.h:347-352 | binding succeeds exactly when no UE of that IMSI is bound, and then adds only that key |
| Slices.Slice.UnbindUe | include/nexran.h:353-358 | unbinding succeeds exactly when a UE of that IMSI is bound, and then removes only that key |
| Slices.Slice.UnbindAllUes | include/nexran.h:359-363 | every UE of the slice ends up unbound, the map is emptied, and nothing else of those UEs changes |
| Slices.Slice.Update | src/slice.cc:108-139 | a non-object or non-conforming body is refused with 400; a policy that is not an object is malformed; an object policy goes to the policy's update, whose result and state change are the slice's; a body without a policy is accepted and changes nothing |
| Slices.AsWrittenAcceptsStringThrottle | src/slice.cc:55-83 | an allocation policy whose "throttle" is a string passes the checks as written, and GetBool is then applied to it |
| Slices.PolicyFromJson | src/slice.cc:53-99 | a policy is built exactly when the body passes the type, share and auto_equalize checks and every throttle setting has its kind; omitted settings take their defaults, and the throttle share is 128 exactly when neither a throttle share nor a target is non-zero |
| Slices.CreatedPolicyHasThrottleRule | src/slice.cc:93-94 | a created policy has a non-zero throttle share or target, starts out not throttling, and has a share in [0, 1024] |
| Slices.CreateBodyIsNeutralUpdate | src/slice.cc:53-99 | the body a policy was created from is a valid policy update, and applying it to the new policy changes nothing |
| Slices.CreateOutcome | src/slice.cc:37-106 | a non-object or non-conforming body is refused with its messages; a conforming one is accepted exactly when its allocation policy, if any, is well formed, naming the slice and giving the built policy or the default one of share 512 |
| Slices.CreateOutcomeOfErrors | src/slice.cc:50-105 | the decision in terms of the validation errors: any error refuses with the reported messages; none accepts or refuses on the policy alone |
| Slices.Create | src/slice.cc:37-106 | a slice with a fresh policy and no UE is made exactly when the decision accepts, holding the decided name and policy; the sink gains the decision's messages with 400 |
| Ues.AsWrittenUpdateAcceptsNonStringImsi | src/ue.cc:13-22 | under the declared tables an update whose "imsi" is a number passes validation, after which GetString is applied to it |
| Ues.UpdateReadsOnlyStrings | src/ue.cc:84-95 | under the model's tables a validated update carries "imsi" and "tmsi" only as strings |
| Ues.Ue.constructor | include/nexran.h:210-211 | a UE from its IMSI alone has empty TMSI, C-RNTI and bound slice |
| Ues.Ue.WithIds | include/nexran.h:212-214 | a UE keeps its IMSI, TMSI and C-RNTI, and is bound to no slice |
| Ues.Ue.BindSlice | include/nexran.h:227-231 | a bound UE refuses and keeps its slice; an unbound one becomes bound to the named slice |
| Ues.Ue.UnbindSlice | include/nexran.h:232-236 | afterwards the UE is bound to no slice; an unbound UE reports false |
| Ues.Ue.Update | src/ue.cc:68-98 | a non-object or non-conforming body is refused with 400; a differing IMSI is refused with 403 when there is a sink and ignored otherwise; an accepted body replaces the TMSI when it carries one; the IMSI never changes |
| Ues.CreateOutcome | src/ue.cc:41-66 | a non-object or non-conforming body is refused with its messages; an accepted one gives the IMSI and the TMSI it names ("" when none) |
| Ues.CreateOutcomeOfErrors | src/ue.cc:54-65 | the decision in terms of the validation errors: any error refuses with the reported messages; none accepts with the IMSI and TMSI |
| Ues.Create | src/ue.cc:41-66 | an unbound UE with no C-RNTI is made exactly when the decision accepts, with the decided IMSI and TMSI; the sink gains the decision's messages with 400 |
| Configs.NameOf | include/config.h:18-30 | a value names an item only as that item's enumeration value |
| Configs.NamesContiguous | include/config.h:18-30 | the values 1 to __MAX__-1 each name exactly one item, and no other value names one |
| Configs.OrderByValue | src/config.cc:46 | the std::map visits the items by enumeration value, each exactly once |
| Configs.DefaultItemsAre | src/config.cc:10-39 | the starting table holds each name's default item |
| Configs.DefaultItemsWellFormed | src/config.cc:10-39 | the starting table is complete and well typed, every item is unset, exactly XAPP_NAME and XAPP_ID are required and have no default, and the short options are distinct and never ':' |
| Configs.DefaultItemFacts | src/config.cc:10-39 | each default item is well typed and unset, required exactly for the xApp name and id, and its short option names it back |
| Configs.DefaultStringLookups | src/config.cc:10-39 | before anything is set the xApp name and id read as null, the hosts as "0.0.0.0", the log level as "warn" and the InfluxDB URL as "" |
| Configs.DefaultNumberLookups | src/config.cc:19-36 | before anything is set the ports read 4560 and 8000, nowait reads false and the KPM interval index reads 18 |
| Configs.ValidatesIffRequiredFound | src/config.cc:142-152 | a table validates exactly when `operator[]` finds a value for every required item |
| Configs.DefaultShapeValidatesIff | src/config.cc:142-152 | a table shaped like the starting one validates exactly when the xApp name and id have been set |
| Configs.IndexOf | src/config.cc:109 | the first position of a character, as getopt finds it in the option string, or none when it is absent |
| Configs.OptStringOmits | src/config.cc:50-55 | a character that is neither ':' nor any item's short option is absent from the option string |
| Configs.IndexOfAppend | src/config.cc:50-55 | finding a character in a longer string finds its first position in the earlier part, or after it |
| Configs.OptStringDecodes | src/config.cc:46-56 | getopt reads each item's short option back from the option string, taking an argument exactly when the item is not BOOL |
| Configs.OptStringRejectsOthers | src/config.cc:46-56 | any other character but ':' is not an option |
| Configs.OptStringFits | src/config.cc:41 | the option string and its NUL fit the buffer calloc reserves, at most two characters per item |
| Configs.LongOptionsFit | src/config.cc:42-43 | there is at most one entry per item, so the entries, "help" and the zeroed terminator fit the array |
| Configs.LongOptionsCover | src/config.cc:57-65 | every item with a long name has an entry with that name and its short character, with no argument for BOOL and an optional one otherwise |
| Configs.LongOptionsSound | src/config.cc:57-65 | every entry comes from an item with that long name and short character |
| Configs.BuildOptions | src/config.cc:41-69 | the constructor's loop builds the option string of every item in map order, and the long-option table ending in "help" |
| Configs.OptStringStep | src/config.cc:50-55 | one more item appends its character, and a ':' when it takes an argument |
| Configs.DefaultShortNameInverse | src/config.cc:10-39 | a short option of the starting table names the item that carries it |
| Configs.DefaultOptionsRead | src/config.cc:41-69 | getopt reads the starting table's option string as the ten short options, each taking an argument except 'R', and no other character but ':' |
| Configs.DefaultShortRead | src/config.cc:31-33 | a short option of the starting table is an option, and only 'R' (the BOOL nowait) takes no argument |
| Configs.DefaultOtherNotRead | src/config.cc:41-69 | any other character but ':' is not an option of the starting table |
| Configs.DefaultHelpNotShort | src/config.cc:67-69 | "-h" is not a short option: only "--help" returns 'h' |
| Configs.EnvOverlay | src/config.cc:78-103 | reading the environment keeps a table well formed |
| Configs.EnvOverlaySets | src/config.cc:78-103 | reading the environment keeps the table's shape, sets exactly the items whose variable is present, and leaves the others as they were |
| Configs.EnvIntegerRoundTrip | src/config.cc:94-95 | a decimal number in an INTEGER item's variable reads back as that number |
| Configs.EnvOverlayTwice | src/config.cc:90-91 | reading the same environment twice is reading it once, except that a BOOL item whose variable is set flips back |
| Configs.DefaultNowaitAnyValue | src/config.cc:90-91 | with the starting table, a set RMR_NOWAIT turns the option on whatever it holds, "0" and "false" included |
| Configs.DefaultEnvValidatesIff | src/config.cc:78-152 | after the environment is read into the starting table, it validates exactly when XAPP_NAME and XAPP_ID are set |
| Configs.Find | src/config.cc:115-120 | the item found for an option has that short option; none is found only when no item has it |
| Configs.FindStable | src/config.cc:115-120 | setting values never changes which item an option finds |
| Configs.Argv | src/config.cc:105-140 | parsing keeps every item |
| Configs.ArgvOkIff | src/config.cc:105-140 | parsing succeeds exactly when no option is 'h' and every option is some item's |
| Configs.ArgStep | src/config.cc:115-133 | a matched option updates only its own item, keeps the table's shape and the search, and parsing goes on with the rest |
| Configs.ArgvKeepsShape | src/config.cc:105-140 | parsing keeps the table's shape; a set item stays set and a true BOOL item stays true |
| Configs.ArgvLeavesUnnamed | src/config.cc:105-140 | an item no option names is left as it was |
| Configs.ArgvSetsNamed | src/config.cc:122-131 | when parsing succeeds, every item some option names is set, and a named BOOL item is true |
| Configs.ArgIntegerRoundTrip | src/config.cc:126-127 | a decimal number given to an INTEGER item's option is stored as that number |
| Configs.Config.constructor | src/config.cc:8-70 | the configuration starts from the default table, with the option string and long-option table built from it |
| Configs.Config.Get | include/config.h:71-76 | `operator[]` yields the set value, else the default, which may be null |
| Configs.Config.ParseEnv | src/config.cc:78-103 | reading the environment always succeeds and the table becomes EnvOverlay of the old one |
| Configs.Config.FindShort | src/config.cc:115-120 | the inner loop finds the first item in map order whose short option is the character |
| Configs.Config.ParseArgv | src/config.cc:105-140 | the result and new table are those of Argv on the old table and the options |
| Configs.Config.Validate | src/config.cc:142-152 | the result is true exactly when every required item is set or has a default |
| Apps.InsertedNames | src/nexran.cc:122-144 | `add` extends the names of the resource's own type by exactly its name, leaves the other types alone, and keeps every resource under its own name |
| Apps.RemovedNames | src/nexran.cc:146-164 | `del` takes exactly that name out of the names of that type and nothing else |
| Apps.DelUndoesAdd | src/nexran.cc:122-164 | deleting a resource just added under a fresh name restores the registry |
| Apps.SentIsEncoding | src/nexran.cc:229-247 | the RMR message goes to the NodeB's name with the instance id and request it was built with; its payload is the encoded RIC control request with the codec's length, or null with length 0 when encoding fails |
| Apps.SentPayload | src/nexran.cc:229-233 | an encoded payload carries, in order, the requestor and instance ids, RAN function 1, the NexRAN header and message and an acknowledgement request |
| Apps.Broadcast | src/nexran.cc:352-372 | a broadcast sends one message per NodeB |
| Apps.BroadcastAt | src/nexran.cc:352-372 | the i-th message of a broadcast goes to the i-th NodeB under the i-th next instance id |
| Apps.BroadcastSnoc | src/nexran.cc:352-372 | one more NodeB adds one message at the end under the following instance id |
| Apps.OrderedIncreasing | lib/e2ap/include/e2ap.h:141-150 | in an outbox built from the allocator, instance ids strictly increase in sending order and stay below the next id |
| Apps.OrderedIdsDistinct | lib/e2ap/include/e2ap.h:141-150 | no two messages sent carry the same instance id |
| Apps.SendKeepsOrdered | lib/e2ap/include/e2ap.h:141-150 | sending under the next id and moving the allocator on keeps the outbox ordered |
| Apps.Least | include/nexran.h:618 | the least name of a non-empty std::map's key set is one of its keys |
| Apps.LeastIsLeast | include/nexran.h:618 | that key is below every other key in std::string's order |
| Apps.LeastIsUnique | include/nexran.h:618 | it is the only key below all others |
| Apps.SortedKeysEnumerates | src/nexran.cc:352-353 | a std::map iteration visits as many keys as there are, and only keys |
| Apps.SortedKeysComplete | src/nexran.cc:352-353 | it visits every key |
| Apps.SortedKeysSorted | src/nexran.cc:352-353 | it visits them in strictly increasing order |
| Apps.PickLeast | src/nexran.cc:352-353 | the next key visited is the least one not yet visited |
| Apps.KeysInOrder | src/nexran.cc:352-353 | collecting least keys one at a time yields the map's iteration order |
| Apps.SortedKeysStep | src/nexran.cc:352-353 | visiting the least remaining key extends the visited prefix of that order |
| Apps.BroadcastReachesEveryNodeB | src/nexran.cc:352-372 | a broadcast over the NodeB map sends exactly one message to each registered NodeB and to no other, under consecutive instance ids |
| Apps.App.constructor | include/nexran.h:543-549 | the App starts with an empty registry, requestor id 1 and instance id 1, an empty outbox, and an AppConfig with the default 5120 ms KPM period |
| Apps.App.Init | src/nexran.cc:46-49 | init registers a fresh slice "default" with the default policy, replacing any slice of that name, and changes nothing else |
| Apps.App.SerializeByName | src/nexran.cc:101-120 | serializing a named resource succeeds exactly when it is registered, and otherwise reports 404 "<label> does not exist" |
| Apps.App.Add | src/nexran.cc:122-144 | `add` succeeds exactly when the name is free for that type, registers the resource then, and otherwise reports 403 "<label> already exists" and changes nothing |
| Apps.App.Del | src/nexran.cc:146-164 | `del` succeeds exactly when the name is registered, removes it, and otherwise reports 404 "not found" |
| Apps.App.Update | src/nexran.cc:166-188 | an unknown name fails with 404 "not found"; for a registered name the result, the sink's new messages, the UE's new TMSI and the slice's new policy are those of the resource's own update; the registry, the outbox and the instance ids never change |
| Apps.NodeBUpdateMessages | src/nodeb.cc:154-169 | a NodeB update reports nothing exactly when it accepts the body |
| Apps.SliceUpdateMessages | src/slice.cc:108-139 | a slice update reports nothing exactly when it accepts the body |
| Apps.SlicePolicyAfter | src/slice.cc:124-136 | an update changes a slice's policy only by accepting an allocation policy; only the share, kept in [0, 1024], and the two flags can change, never the throttling state |
| Apps.UeUpdateMessages | src/ue.cc:68-98 | a UE update reports nothing exactly when it accepts the body |
| Apps.UeTmsiAfter | src/ue.cc:94-97 | the TMSI changes only through an accepted body carrying "tmsi", and then becomes a C string |
| Apps.UpdateNodeB | src/nexran.cc:181-184 | the NodeB's update succeeds exactly when it accepts the body and reports NodeBUpdateMessages with status 400 |
| Apps.UpdateSlice | src/nexran.cc:181-184 | the slice's update succeeds exactly when it accepts the body, reports SliceUpdateMessages with status 400 and leaves the policy as SlicePolicyAfter |
| Apps.UpdateUe | src/nexran.cc:181-184 | the UE's update succeeds exactly when it accepts the body, reports UeUpdateMessages with 403 for a changed IMSI and 400 otherwise, and leaves the TMSI as UeTmsiAfter |
| Apps.App.NewControl | src/nexran.cc:226-229 | a new NexRAN control for a request holds that request, encoded once, with no call process id |
| Apps.App.Send | src/nexran.cc:230-247 | sending appends the message built under the allocator's next instance id to the outbox and moves the allocator on by one |
| Apps.App.SendToAll | src/nexran.cc:352-372 | one request goes to every registered NodeB in the map's key order, using one instance id each |
| Apps.App.SendToEach | src/nexran.cc:352-372 | the loop sends the request to each NodeB of a list in order under consecutive instance ids |
| Apps.App.BindSliceNodeB | src/nexran.cc:190-251 | an unknown slice, then an unknown NodeB, fails with 404 and changes nothing; otherwise BindSliceStep decides |
| Apps.App.BindSliceStep | src/nexran.cc:212-251 | a slice already bound to the NodeB is refused with 403 "slice already bound to nodeb"; otherwise it is bound and one slice configuration request with the slice's share goes to that NodeB |
| Apps.App.UnbindSliceNodeB | src/nexran.cc:253-311 | an unknown slice, then an unknown NodeB, fails with 404 and changes nothing; otherwise UnbindSliceStep decides |
| Apps.App.UnbindSliceStep | src/nexran.cc:275-311 | a slice not bound to the NodeB is refused with 404; otherwise it is unbound and one slice delete request goes to that NodeB |
| Apps.App.BindUeSlice | src/nexran.cc:313-376 | an unknown slice, then an unknown UE, fails with 404 and changes nothing; otherwise BindUeStep decides |
| Apps.App.BindUeStep | src/nexran.cc:335-376 | a UE already in the slice is refused with 403; otherwise it is added and a UE bind request goes to every NodeB in key order |
| Apps.App.UnbindUeSlice | src/nexran.cc:378-440 | an unknown slice, then an unknown UE, fails with 404 and changes nothing; otherwise UnbindUeStep decides |
| Apps.App.UnbindUeStep | src/nexran.cc:400-440 | a UE not in the slice is refused with 404; otherwise it is removed and a UE unbind request goes to every NodeB in key order |

## Source and declarations

Where a header and its implementation disagree, the model follows the
implementation:

- `src/policy.cc:45` and `src/slice.cc:96-99` use a `throttle_target` field and a seven-argument policy constructor that `include/nexran.h:263-270` does not declare. `Policy.ProportionalAllocationPolicy` carries `throttleTarget`; the one-argument constructor (`WithShare`) sets it to 0.
- The `AppConfig(kpm_interval_index)` constructor (`include/nexran.h:186-187`) ignores its argument, so `Apps.App.constructor` states the default 5120 ms period (index 18) rather than the configured one.
- The NexRAN request encoders (`lib/e2sm/src/e2sm_nexran.cc:53-73`) and the Zylinium mask status encoder (`lib/e2sm/src/e2sm_zylinium.cc:281-301`) return `1`, which reads as `true`, when the codec fails. Their contracts state that result together with `encoded` staying false.

## Left out

- The ASN.1 aligned-PER codec (asn1c, ITU-T X.691) is not part of this model. `Asn.Encoder` is a function parameter giving each abstract value an encoded length or a failure, and decoding is a parameter too. Buffers hold abstract values, not bytes; freeing them is not modelled.
- The RMR transport (message allocation, `memcpy` of the payload cut to the available size, `Set_meid`, `Send`, callbacks) becomes the App's `outbox`. Payload truncation is not modelled.
- `std::mutex`, the condition variable and the App's threads are left out, since the model is sequential.
- The `serialize` JSON writers (rapidjson) and XER printing are left out. Only the error body (`RestServer.RequestError.Serialize`) and the name lookup (`Apps.App.SerializeByName`) are modelled.
- The REST routing and response I/O of `src/restserver.cc`, and the process start-up of `src/main.cc`, are not part of this model.
- `std::time` is a `now` parameter of the policy operations and of `RequestGroups.RequestGroup.IsExpired`.
- The floating-point target share `share / (tbytes / (float)throttle_target)` and its `int` truncation become a function parameter of the policy operations. Only the control flow around it is modelled.
- `MetricsIndex::add`, `flush` and `current`, `kpm_period_to_ms`, `KpmReport::to_string`, and the App's subscription, indication and control handlers have no bodies in these sources. The current sample is an `Option` parameter, and the handlers are absent.
- E2smKpm.MetricsIndex.Reset: states only the new period, because the `flush` it calls has no body in these sources.
- `E2AP::init` and `App::start`/`stop` register RMR callbacks and threads and are left out.
- `getopt_long` tokenisation and the usage text are left out. `Configs.Config.ParseArgv` takes an already tokenised list of (option character, argument) pairs. A STRING option given without its optional argument stores a null value.
- Configs.Config.ParseArgv: requires an argument for every option that reaches an INTEGER item, because the source would hand `atoi` a null argument there.
- `atoi` is modelled as C's leading-decimal reading on unbounded integers (`CLib.DecimalValue`). A value beyond the width of a C `int` is not wrapped.
- `calloc` and `free` of the option string and the long-option table are left out. `Configs.OptStringFits` and `Configs.LongOptionsFit` state that both fit what is allocated.
- Ues.Ue.BindSlice: on success the source falls off the end of a `bool` function without a `return`, so the contract leaves the result unconstrained in that case.
- Ues.Ue.UnbindSlice: as for BindSlice, the result on success is left unconstrained.

## Findings

| source | as written | input that shows it | evidently intended | confidence | as-written member | corrected member |
|---|---|---|---|---|---|---|
| src/ue.cc:13-22 | the PUT tables list neither "imsi" nor "tmsi", so `validate_json` does not type-check them, and `Ue::update` then calls `GetString` on them | a PUT body `{"imsi": 1}` | "imsi" and "tmsi" are type-checked as optional string properties on PUT | not executed | Ues.AsWrittenUpdateAcceptsNonStringImsi | Ues.UpdateReadsOnlyStrings |
| src/slice.cc:55-83 | the allocation policy checks never test the kinds of "throttle", "throttle_threshold", "throttle_period", "throttle_share" and "throttle_target" before `GetBool`/`GetInt` reads them | an allocation_policy with "type": "proportional", "share": 256 and "throttle": "yes" | a throttle setting of the wrong kind makes the policy malformed | not executed | Slices.AsWrittenAcceptsStringThrottle | Slices.PolicyFromJson |
| src/nodeb.cc:94-96 | `snprintf` returns the untruncated length, and `buf[rc] = '\0'` then writes at that index of the 128-byte buffer | a NodeB with a 130-character mcc | the terminator stays inside the buffer and the name is cut to 127 characters | not executed | NodeBs.AsWrittenOverrunsBuffer | NodeBs.BuildName |
