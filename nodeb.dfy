/**
 * The NodeB resource: a RAN node identified by its type, PLMN (mcc, mnc)
 * and node id, with a name built from them, and the slices bound to it.
 * The eNB id lengths 18, 20 and 21 are the Short Macro, Macro and Long
 * Macro eNB IDs of the Global eNB ID IE (3GPP TS 36.413 section 9.2.1.37).
 */
module NodeBs {
  import opened CLib
  import opened Json
  import opened RestServer
  import opened Resource
  import opened Slices

  // ------------------------------------------------------------ node types

  const UNKNOWN: int := 0
  const GNB: int := 1
  const GNB_CU_UP: int := 2
  const GNB_DU: int := 3
  const EN_GNB: int := 4
  const ENB: int := 5
  const NG_ENB: int := 6
  /** One past the last type: what the string lookup returns for an unknown string. */
  const END: int := 7

  const TYPE_STRINGS: seq<string> := ["unknown", "gNB", "gNB-CU-UP", "gNB-DU", "en-gNB", "eNB", "ng-eNB"]

  /** The table string of a type, "invalid" outside UNKNOWN..NG_ENB. */
  function TypeToTypeString(t: int): string
  {
    if 0 <= t < END then TYPE_STRINGS[t] else "invalid"
  }

  /** The linear search of the table from index `i`: the first match, or END. */
  function FindType(s: string, i: int): (r: int)
    requires 0 <= i <= END
    ensures i <= r <= END
    ensures r < END ==> TYPE_STRINGS[r] == s
    ensures forall j | i <= j < r :: TYPE_STRINGS[j] != s
    decreases END - i
  {
    if i == END then END
    else if TYPE_STRINGS[i] == s then i
    else FindType(s, i + 1)
  }

  /** The type named by the C string `ts`: the index of its table entry, or END when there is none. */
  function TypeStringToType(ts: string): (r: int)
    ensures 0 <= r <= END
    ensures r < END <==> CStr(ts) in TYPE_STRINGS
    ensures r < END ==> TYPE_STRINGS[r] == CStr(ts)
  {
    FindType(CStr(ts), 0)
  }

  lemma TypeStringsDistinct()
    ensures forall i, j | 0 <= i < j < END :: TYPE_STRINGS[i] != TYPE_STRINGS[j]
  {
    assert forall i | 0 <= i < END :: |TYPE_STRINGS[i]| >= 1;
    assert TYPE_STRINGS[1][0] == 'g' && TYPE_STRINGS[2][0] == 'g' && TYPE_STRINGS[3][0] == 'g';
    assert |TYPE_STRINGS[1]| == 3 && |TYPE_STRINGS[2]| == 9 && |TYPE_STRINGS[3]| == 6;
  }

  lemma TypeStringsAreCStrings()
    ensures forall i | 0 <= i < END :: NoNul(TYPE_STRINGS[i]) && CStr(TYPE_STRINGS[i]) == TYPE_STRINGS[i]
  {
    forall i | 0 <= i < END
      ensures NoNul(TYPE_STRINGS[i]) && CStr(TYPE_STRINGS[i]) == TYPE_STRINGS[i]
    {
      assert NoNul(TYPE_STRINGS[i]);
      CStrOfNoNul(TYPE_STRINGS[i]);
    }
  }

  /**
   * The two mappings are inverse: every type UNKNOWN..NG_ENB comes back
   * from its string, and a string comes back from its type when it is in
   * the table (else the type is END, whose string is "invalid").
   */
  lemma TypeRoundTrip(t: int, ts: string)
    ensures 0 <= t < END ==> TypeStringToType(TypeToTypeString(t)) == t
    ensures TypeToTypeString(TypeStringToType(ts)) == if CStr(ts) in TYPE_STRINGS then CStr(ts) else "invalid"
  {
    TypeStringsDistinct();
    TypeStringsAreCStrings();
  }

  // ------------------------------------------------------------ names

  /** The name prefix of a node type; eNBs and ng-eNBs are told apart by their id length. */
  function GetNamePrefix(t: int, idLen: int): string
  {
    if t == UNKNOWN then "unknown"
    else if GNB <= t <= GNB_DU then "gnB"
    else if t == EN_GNB then "en_gnB"
    else if t == ENB then
      if idLen == 0 || idLen == 20 then "enB_macro"
      else if idLen == 18 then "enB_shortmacro"
      else if idLen == 21 then "enB_longmacro"
      else "invalid"
    else if t == NG_ENB then
      if idLen == 0 || idLen == 20 then "ng_enB_macro"
      else if idLen == 18 then "ng_enB_shortmacro"
      else if idLen == 21 then "ng_enB_longmacro"
      else "invalid"
    else "invalid"
  }

  /**
   * For eNBs and ng-eNBs the prefix names the eNB ID variant: the Short
   * Macro (18), Macro (20, or 0 for unset) and Long Macro (21) lengths get
   * three different prefixes, the same for both node types up to "ng_",
   * and any other length is invalid.
   */
  lemma EnbPrefixNamesVariant(t: int, l1: int, l2: int)
    requires t == ENB || t == NG_ENB
    ensures GetNamePrefix(t, l1) == "invalid" <==> l1 !in {0, 18, 20, 21}
    ensures l1 in {18, 20, 21} && l2 in {18, 20, 21} && l1 != l2 ==> GetNamePrefix(t, l1) != GetNamePrefix(t, l2)
    ensures GetNamePrefix(NG_ENB, l1) == if GetNamePrefix(ENB, l1) == "invalid" then "invalid" else "ng_" + GetNamePrefix(ENB, l1)
  {
    assert "enB_macro"[4] == 'm' && "enB_shortmacro"[4] == 's' && "enB_longmacro"[4] == 'l';
    assert "ng_enB_macro"[7] == 'm' && "ng_enB_shortmacro"[7] == 's' && "ng_enB_longmacro"[7] == 'l';
  }

  /** The zeros that pad a one- or two-digit mnc to three characters. */
  function MncPrefix(mnc: string): string
  {
    if |CStr(mnc)| == 1 then "00" else if |CStr(mnc)| == 2 then "0" else ""
  }

  function PaddedMnc(mnc: string): (r: string)
    ensures 1 <= |CStr(mnc)| <= 3 ==> |r| == 3
    ensures |r| >= |CStr(mnc)| && r[|r| - |CStr(mnc)|..] == CStr(mnc)
  {
    MncPrefix(mnc) + CStr(mnc)
  }

  /** What "%s_%s_%s%s_%06x" formats: prefix, mcc, padded mnc and the id in hex as an unsigned int. */
  function FullName(t: int, mcc: string, mnc: string, id: int, idLen: int): string
  {
    GetNamePrefix(t, idLen) + "_" + CStr(mcc) + "_" + PaddedMnc(mnc) + "_" + HexPadded(ToU32(id), 6)
  }

  /** The size of the buffer the name is formatted into. */
  const NAME_BUF: int := 128

  /**
   * build_name as written: the name snprintf leaves in the buffer (at most
   * 127 characters), and whether the terminator store at the index
   * snprintf returns lies inside the buffer.
   */
  function BuildNameAsWritten(t: int, mcc: string, mnc: string, id: int, idLen: int): (r: (string, bool))
  {
    var full := FullName(t, mcc, mnc, id, idLen);
    (if |full| < NAME_BUF then full else full[..NAME_BUF - 1], |full| < NAME_BUF)
  }

  /** A 130-character mcc makes the formatted name longer than the buffer: the terminator is stored past its end. */
  lemma AsWrittenOverrunsBuffer()
    ensures !BuildNameAsWritten(GNB, Zeros(130), "001", 1, 0).1
  {
    CStrOfNoNul(Zeros(130));
  }

  /**
   * build_name with the terminator stored inside the buffer: the
   * formatted name, cut to the buffer's 127 characters when it is longer.
   */
  function BuildName(t: int, mcc: string, mnc: string, id: int, idLen: int): (r: string)
    ensures |r| < NAME_BUF
    ensures var full := FullName(t, mcc, mnc, id, idLen);
      |r| <= |full| && r == full[..|r|] && (|full| < NAME_BUF ==> r == full)
  {
    var full := FullName(t, mcc, mnc, id, idLen);
    if |full| < NAME_BUF then full else full[..NAME_BUF - 1]
  }

  /** The corrected build_name gives every node the name the code as written puts in the buffer. */
  lemma BuildNameAgrees(t: int, mcc: string, mnc: string, id: int, idLen: int)
    ensures BuildNameAsWritten(t, mcc, mnc, id, idLen).0 == BuildName(t, mcc, mnc, id, idLen)
  {
  }

  /**
   * A name that fits ends in the id as at least six hex digits, which read
   * back as the id (as an unsigned int), after a three-character mnc when
   * the mnc has one to three characters.
   */
  lemma NameCarriesId(t: int, mcc: string, mnc: string, id: int, idLen: int)
    requires |FullName(t, mcc, mnc, id, idLen)| < NAME_BUF
    ensures var name := BuildName(t, mcc, mnc, id, idLen);
      var hex := HexPadded(ToU32(id), 6);
      |hex| >= 6 && |name| > |hex| && name[|name| - |hex|..] == hex && HexValue(hex) == ToU32(id) &&
      name[..|name| - |hex|] == GetNamePrefix(t, idLen) + "_" + CStr(mcc) + "_" + PaddedMnc(mnc) + "_"
  {
    HexPaddedRoundTrip(ToU32(id), 6);
    var name := BuildName(t, mcc, mnc, id, idLen);
    var hex := HexPadded(ToU32(id), 6);
    var head := GetNamePrefix(t, idLen) + "_" + CStr(mcc) + "_" + PaddedMnc(mnc) + "_";
    assert name == head + hex;
  }

  // ------------------------------------------------------------ the resource

  const NODEB_SCHEMA: Schema := Schema(
    map["name" := STRING, "type" := STRING, "mcc" := STRING, "mnc" := STRING,
        "id" := INT, "id_len" := UINT, "status" := OBJECT, "config" := OBJECT],
    [("type", ["gNB", "gNB-CU-UP", "gNB-DU", "en-gNB", "eNB", "ng-eNB"])],
    map[POST := ["type", "id", "mcc", "mnc"]],
    map[POST := ["id_len"]],
    map[POST := ["name", "status", "config"],
        PUT := ["type", "id", "id_len", "mcc", "mnc", "name", "status", "config"]],
    false)

  class NodeB {
    const name: string
    const nodebType: int
    const mcc: string
    const mnc: string
    const id: int
    const idLen: int
    var connected: bool
    var totalPrbs: int
    var slices: map<string, Slice>

    constructor (t: int, mcc: string, mnc: string, id: int, idLen: int)
      ensures name == BuildName(t, mcc, mnc, id, idLen)
      ensures nodebType == t && this.mcc == CStr(mcc) && this.mnc == CStr(mnc) && this.id == id && this.idLen == idLen
      ensures !connected && totalPrbs == -1 && slices == map[]
    {
      name := BuildName(t, mcc, mnc, id, idLen);
      nodebType := t;
      this.mcc := CStr(mcc);
      this.mnc := CStr(mnc);
      this.id := id;
      this.idLen := idLen;
      connected := false;
      totalPrbs := -1;
      slices := map[];
    }

    /** Binds a slice under its name unless one is bound under it already; only that key changes. */
    method BindSlice(slice: Slice) returns (ok: bool)
      modifies this`slices
      ensures ok <==> slice.name !in old(slices)
      ensures slices == if ok then old(slices)[slice.name := slice] else old(slices)
    {
      if slice.name in slices {
        return false;
      }
      slices := slices[slice.name := slice];
      return true;
    }

    /** Removes the slice bound under `sliceName`, if there is one; only that key changes. */
    method UnbindSlice(sliceName: string) returns (ok: bool)
      modifies this`slices
      ensures ok <==> sliceName in old(slices)
      ensures slices == old(slices) - {sliceName}
    {
      if sliceName !in slices {
        return false;
      }
      slices := slices - {sliceName};
      return true;
    }

    predicate IsSliceBound(sliceName: string)
      reads this
    {
      sliceName in slices
    }

    /** Every property is disallowed on PUT: the update only validates and changes no field. */
    method Update(d: Value, ae: ErrorSlot?) returns (ok: bool)
      modifies Sink(ae)
      ensures ok <==> d.Object? && Errors(NODEB_SCHEMA, PUT, d.members) == []
      ensures !d.Object? ==> Appended(ae, BAD_REQUEST, [NOT_AN_OBJECT])
      ensures d.Object? ==> Appended(ae, BAD_REQUEST, Reported(NODEB_SCHEMA, PUT, d.members))
    {
      if !d.Object? {
        Report(ae, BAD_REQUEST, NOT_AN_OBJECT);
        return false;
      }
      ok := ValidateJson(NODEB_SCHEMA, PUT, d, ae);
    }
  }

  // ------------------------------------------------------------ create

  /** What a new NodeB is made from. */
  datatype NodeBParams = NodeBParams(nodebType: int, mcc: string, mnc: string, id: int, idLen: int)

  /** What a conforming POST body carries: the four required properties with their kinds, and a uint32 or absent id length. */
  lemma ConformingPostIsTyped(obj: map<string, Value>)
    requires Conforms(NODEB_SCHEMA, POST, obj)
    ensures "type" in obj && obj["type"].Str? && "mcc" in obj && obj["mcc"].Str? && "mnc" in obj && obj["mnc"].Str?
    ensures "id" in obj && IsInt(obj["id"])
    ensures "id_len" in obj ==> IsUint(obj["id_len"])
    ensures CStr(obj["type"].s) in NODEB_SCHEMA.propertyEnums[0].1
  {
    var req := Listed(NODEB_SCHEMA.required, POST);
    assert req == ["type", "id", "mcc", "mnc"];
    assert req[0] in req && req[1] in req && req[2] in req && req[3] in req;
    var opt := Listed(NODEB_SCHEMA.optional, POST);
    assert opt == ["id_len"];
    assert opt[0] in opt;
    assert NODEB_SCHEMA.propertyEnums[0].0 == "type";
  }

  /**
   * The create decision: a non-object and a non-conforming POST body are
   * rejected; an accepted one gives the type looked up from its string,
   * mcc, mnc, id, and the id length cut to a byte (20 when absent).
   */
  function CreateOutcome(d: Value): (r: Outcome<NodeBParams>)
    ensures !d.Object? ==> r == Rejected([NOT_AN_OBJECT])
    ensures d.Object? ==> (r.Accepted? <==> Conforms(NODEB_SCHEMA, POST, d.members))
    ensures d.Object? && r.Rejected? ==> r.messages == Reported(NODEB_SCHEMA, POST, d.members) && r.messages != []
    ensures r.Accepted? ==>
      var obj := d.members;
      "type" in obj && obj["type"].Str? && "mcc" in obj && obj["mcc"].Str? && "mnc" in obj && obj["mnc"].Str? &&
      "id" in obj && IsInt(obj["id"]) &&
      r.value == NodeBParams(TypeStringToType(CStr(obj["type"].s)), CStr(obj["mcc"].s), CStr(obj["mnc"].s), obj["id"].n,
                             if "id_len" in obj then ToU8(obj["id_len"].n) else 20)
  {
    if !d.Object? then Rejected([NOT_AN_OBJECT])
    else
      var obj := d.members;
      AcceptsIffConforms(NODEB_SCHEMA, POST, obj);
      if !Conforms(NODEB_SCHEMA, POST, obj) then Rejected(Reported(NODEB_SCHEMA, POST, obj))
      else
        ConformingPostIsTyped(obj);
        Accepted(NodeBParams(TypeStringToType(GetString(obj["type"])), GetString(obj["mcc"]), GetString(obj["mnc"]),
                             obj["id"].n, if "id_len" in obj then ToU8(obj["id_len"].n) else 20))
  }

  /**
   * The enumeration check makes the type of a created NodeB a real node
   * type (GNB..NG_ENB, never UNKNOWN or END) whose string is the one sent,
   * and its id length fits a byte.
   */
  lemma CreatedTypeIsKnown(d: Value)
    requires CreateOutcome(d).Accepted?
    ensures var p := CreateOutcome(d).value;
      GNB <= p.nodebType <= NG_ENB && TypeToTypeString(p.nodebType) == CStr(d.members["type"].s) &&
      0 <= p.idLen < U8_MOD
  {
    var obj := d.members;
    ConformingPostIsTyped(obj);
    EnumTypeIsKnown(CStr(obj["type"].s));
  }

  /** A type string the schema's enumeration admits names a real node type, and reads back as itself. */
  lemma EnumTypeIsKnown(s: string)
    requires NoNul(s) && s in NODEB_SCHEMA.propertyEnums[0].1
    ensures GNB <= TypeStringToType(s) <= NG_ENB && TypeToTypeString(TypeStringToType(s)) == s
  {
    CStrOfNoNul(s);
    TypeStringsDistinct();
    assert s in TYPE_STRINGS && s != TYPE_STRINGS[0];
  }

  /** NodeB::create: the decision above, and a new NodeB when it accepts. */
  method Create(d: Value, ae: ErrorSlot?) returns (nb: NodeB?)
    modifies Sink(ae)
    ensures (nb != null) <==> CreateOutcome(d).Accepted?
    ensures nb != null ==>
      var p := CreateOutcome(d).value;
      fresh(nb) && nb.slices == map[] && nb.nodebType == p.nodebType && nb.mcc == p.mcc && nb.mnc == p.mnc &&
      nb.id == p.id && nb.idLen == p.idLen && nb.name == BuildName(p.nodebType, p.mcc, p.mnc, p.id, p.idLen)
    ensures Appended(ae, BAD_REQUEST, Messages(CreateOutcome(d)))
  {
    if !d.Object? {
      Report(ae, BAD_REQUEST, NOT_AN_OBJECT);
      return null;
    }
    AcceptsIffConforms(NODEB_SCHEMA, POST, d.members);
    var valid := ValidateJson(NODEB_SCHEMA, POST, d, ae);
    if !valid {
      return null;
    }
    var p := CreateOutcome(d).value;
    CStrOfNoNul(p.mcc);
    CStrOfNoNul(p.mnc);
    nb := new NodeB(p.nodebType, p.mcc, p.mnc, p.id, p.idLen);
  }
}
