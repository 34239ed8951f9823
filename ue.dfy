/**
 * The UE resource: a UE known by its IMSI, with a TMSI that may be
 * updated, a C-RNTI, and the name of the slice it is bound to.
 */
module Ues {
  import opened CLib
  import opened Json
  import opened RestServer
  import opened Resource

  const IMMUTABLE_IMSI: string := "cannot modify immutable property: imsi"
  const FORBIDDEN: int := 403

  /**
   * The property tables as the source declares them. PUT lists neither
   * "imsi" nor "tmsi", so neither is type-checked on an update.
   */
  const UE_SCHEMA_AS_WRITTEN: Schema := Schema(
    map["imsi" := STRING, "tmsi" := STRING, "crnti" := STRING, "status" := OBJECT],
    [],
    map[POST := ["imsi"]],
    map[POST := ["tmsi"]],
    map[POST := ["crnti", "status"], PUT := ["crnti", "status"]],
    false)

  /** The tables the model uses: "imsi" and "tmsi" are optional, hence type-checked, on PUT too. */
  const UE_SCHEMA: Schema := UE_SCHEMA_AS_WRITTEN.(optional := map[POST := ["tmsi"], PUT := ["imsi", "tmsi"]])

  /**
   * Under the declared tables an update whose "imsi" is a number passes
   * validation, after which the update reads it as a string.
   */
  lemma AsWrittenUpdateAcceptsNonStringImsi()
    ensures var obj := map["imsi" := Int(1)];
      Errors(UE_SCHEMA_AS_WRITTEN, PUT, obj) == [] && !obj["imsi"].Str?
  {
    var obj := map["imsi" := Int(1)];
    AcceptsIffConforms(UE_SCHEMA_AS_WRITTEN, PUT, obj);
  }

  /** Under the model's tables a conforming update carries string "imsi" and "tmsi" whenever it carries them. */
  lemma UpdateReadsOnlyStrings(obj: map<string, Value>)
    requires Errors(UE_SCHEMA, PUT, obj) == []
    ensures "imsi" in obj ==> obj["imsi"].Str?
    ensures "tmsi" in obj ==> obj["tmsi"].Str?
  {
    AcceptsIffConforms(UE_SCHEMA, PUT, obj);
    assert "imsi" in Listed(UE_SCHEMA.optional, PUT) && "tmsi" in Listed(UE_SCHEMA.optional, PUT);
  }

  class Ue {
    const imsi: string
    var tmsi: string
    var crnti: string
    var boundSlice: string

    constructor (imsi: string)
      ensures this.imsi == imsi && tmsi == "" && crnti == "" && boundSlice == ""
    {
      this.imsi := imsi;
      tmsi := "";
      crnti := "";
      boundSlice := "";
    }

    constructor WithIds(imsi: string, tmsi: string, crnti: string)
      ensures this.imsi == imsi && this.tmsi == tmsi && this.crnti == crnti && boundSlice == ""
    {
      this.imsi := imsi;
      this.tmsi := tmsi;
      this.crnti := crnti;
      boundSlice := "";
    }

    predicate IsBound()
      reads this
    {
      boundSlice != ""
    }

    /** Binds to a slice unless already bound, which is refused with no change. */
    method BindSlice(sliceName: string) returns (ok: bool)
      modifies this`boundSlice
      ensures old(IsBound()) ==> !ok && boundSlice == old(boundSlice)
      ensures !old(IsBound()) ==> boundSlice == sliceName
    {
      if IsBound() {
        return false;
      }
      boundSlice := sliceName;
      return true;
    }

    /** Unbinds: afterwards the UE is bound to no slice. */
    method UnbindSlice() returns (ok: bool)
      modifies this`boundSlice
      ensures !IsBound()
      ensures !old(IsBound()) ==> !ok
    {
      if !IsBound() {
        return false;
      }
      boundSlice := "";
      return true;
    }

    /**
     * The REST update: a non-object or non-conforming body is rejected
     * with 400; a differing IMSI is rejected with 403 when there is a sink
     * to report it to, and ignored otherwise; an accepted body replaces
     * the TMSI when it carries one. The IMSI never changes.
     */
    method Update(d: Value, ae: ErrorSlot?) returns (ok: bool)
      modifies this`tmsi, Sink(ae)
      ensures !d.Object? ==> !ok && tmsi == old(tmsi) && Appended(ae, BAD_REQUEST, [NOT_AN_OBJECT])
      ensures d.Object? && Errors(UE_SCHEMA, PUT, d.members) != [] ==>
        !ok && tmsi == old(tmsi) && Appended(ae, BAD_REQUEST, Reported(UE_SCHEMA, PUT, d.members))
      ensures d.Object? && Errors(UE_SCHEMA, PUT, d.members) == [] && ImsiDiffers(imsi, d.members) && ae != null ==>
        !ok && tmsi == old(tmsi) && Appended(ae, FORBIDDEN, [IMMUTABLE_IMSI])
      ensures d.Object? && Errors(UE_SCHEMA, PUT, d.members) == [] && !(ImsiDiffers(imsi, d.members) && ae != null) ==>
        ok && Appended(ae, BAD_REQUEST, []) &&
        tmsi == (if "tmsi" in d.members then CStr(d.members["tmsi"].s) else old(tmsi))
    {
      if !d.Object? {
        Report(ae, BAD_REQUEST, NOT_AN_OBJECT);
        return false;
      }
      var valid := ValidateJson(UE_SCHEMA, PUT, d, ae);
      if !valid {
        return false;
      }
      var obj := d.members;
      UpdateReadsOnlyStrings(obj);
      if "imsi" in obj && CStr(imsi) != GetString(obj["imsi"]) {
        if ae != null {
          Report(ae, FORBIDDEN, IMMUTABLE_IMSI);
          return false;
        }
      }
      if "tmsi" in obj {
        tmsi := GetString(obj["tmsi"]);
      }
      return true;
    }
  }

  /** The body names an IMSI (as a C string) other than `imsi`. */
  predicate ImsiDiffers(imsi: string, obj: map<string, Value>)
  {
    "imsi" in obj && obj["imsi"].Str? && CStr(imsi) != CStr(obj["imsi"].s)
  }

  // ------------------------------------------------------------ create

  /** What a new UE is made from: its IMSI and its TMSI ("" when none is given). */
  datatype UeParams = UeParams(imsi: string, tmsi: string)

  /**
   * The create decision: a non-object and a non-conforming POST body are
   * rejected; an accepted one gives the IMSI and the TMSI it names.
   */
  function CreateOutcome(d: Value): (r: Outcome<UeParams>)
    ensures !d.Object? ==> r == Rejected([NOT_AN_OBJECT])
    ensures d.Object? ==> (r.Accepted? <==> Conforms(UE_SCHEMA, POST, d.members))
    ensures d.Object? && r.Rejected? ==> r.messages == Reported(UE_SCHEMA, POST, d.members) && r.messages != []
    ensures r.Accepted? ==>
      "imsi" in d.members && d.members["imsi"].Str? && r.value.imsi == CStr(d.members["imsi"].s) &&
      r.value.tmsi == (if "tmsi" in d.members && d.members["tmsi"].Str? then CStr(d.members["tmsi"].s) else "")
  {
    if !d.Object? then Rejected([NOT_AN_OBJECT])
    else
      var obj := d.members;
      AcceptsIffConforms(UE_SCHEMA, POST, obj);
      if Errors(UE_SCHEMA, POST, obj) != [] then Rejected(Reported(UE_SCHEMA, POST, obj))
      else
        assert "imsi" in Listed(UE_SCHEMA.required, POST) && "tmsi" in Listed(UE_SCHEMA.optional, POST);
        Accepted(UeParams(GetString(obj["imsi"]), if "tmsi" in obj then GetString(obj["tmsi"]) else ""))
  }

  /** The create decision in terms of the validation errors of an object body. */
  lemma CreateOutcomeOfErrors(d: Value)
    requires d.Object?
    ensures Errors(UE_SCHEMA, POST, d.members) != [] ==> CreateOutcome(d) == Rejected(Reported(UE_SCHEMA, POST, d.members))
    ensures Errors(UE_SCHEMA, POST, d.members) == [] ==>
      Reported(UE_SCHEMA, POST, d.members) == [] &&
      "imsi" in d.members && IsString(d.members["imsi"]) && ("tmsi" in d.members ==> IsString(d.members["tmsi"])) &&
      CreateOutcome(d) == Accepted(UeParams(GetString(d.members["imsi"]),
                                            if "tmsi" in d.members then GetString(d.members["tmsi"]) else ""))
  {
    var obj := d.members;
    AcceptsIffConforms(UE_SCHEMA, POST, obj);
    assert "imsi" in Listed(UE_SCHEMA.required, POST) && "tmsi" in Listed(UE_SCHEMA.optional, POST);
  }

  /** Ue::create: the decision above, and a new unbound UE when it accepts. */
  method Create(d: Value, ae: ErrorSlot?) returns (u: Ue?)
    modifies Sink(ae)
    ensures (u != null) <==> CreateOutcome(d).Accepted?
    ensures u != null ==> fresh(u) && UeParams(u.imsi, u.tmsi) == CreateOutcome(d).value && u.crnti == "" && !u.IsBound()
    ensures Appended(ae, BAD_REQUEST, Messages(CreateOutcome(d)))
  {
    if !d.Object? {
      Report(ae, BAD_REQUEST, NOT_AN_OBJECT);
      return null;
    }
    var valid := ValidateJson(UE_SCHEMA, POST, d, ae);
    CreateOutcomeOfErrors(d);
    if !valid {
      return null;
    }
    var obj := d.members;
    if "tmsi" in obj {
      u := new Ue.WithIds(GetString(obj["imsi"]), GetString(obj["tmsi"]), "");
    } else {
      u := new Ue(GetString(obj["imsi"]));
    }
  }
}
