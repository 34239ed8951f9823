/**
 * The slice resource: a named slice, its proportional allocation policy
 * and the UEs bound to it, keyed by IMSI.
 */
module Slices {
  import opened Wrappers
  import opened CLib
  import opened Json
  import opened RestServer
  import opened Resource
  import opened Policy
  import opened Ues

  const SLICE_SCHEMA: Schema := Schema(
    map["name" := STRING, "allocation_policy" := OBJECT],
    [],
    map[POST := ["name"]],
    map[],
    map[PUT := ["name"]],
    false)

  /** The share of a slice created without an allocation policy. */
  const DEFAULT_SHARE: int := 512

  class Slice {
    const name: string
    const policy: ProportionalAllocationPolicy
    var ues: map<string, Ue>

    /** A slice with the default proportional policy of share 512. */
    constructor (name: string)
      ensures this.name == name && ues == map[]
      ensures fresh(policy) && fresh(policy.metrics) && policy.State() == DefaultPolicy(DEFAULT_SHARE)
    {
      this.name := name;
      policy := new ProportionalAllocationPolicy.WithShare(DEFAULT_SHARE);
      ues := map[];
    }

    constructor WithPolicy(name: string, policy: ProportionalAllocationPolicy)
      ensures this.name == name && this.policy == policy && ues == map[]
    {
      this.name := name;
      this.policy := policy;
      ues := map[];
    }

    /** Binds a UE under its IMSI unless one is bound under it already; only that key changes. */
    method BindUe(ue: Ue) returns (ok: bool)
      modifies this`ues
      ensures ok <==> ue.imsi !in old(ues)
      ensures ues == if ok then old(ues)[ue.imsi := ue] else old(ues)
    {
      if ue.imsi in ues {
        return false;
      }
      ues := ues[ue.imsi := ue];
      return true;
    }

    /** Removes the UE bound under `imsi`, if there is one; only that key changes. */
    method UnbindUe(imsi: string) returns (ok: bool)
      modifies this`ues
      ensures ok <==> imsi in old(ues)
      ensures ues == old(ues) - {imsi}
    {
      if imsi !in ues {
        return false;
      }
      ues := ues - {imsi};
      return true;
    }

    /**
     * Unbinds every UE of the slice from its slice and empties the map;
     * nothing else of those UEs changes.
     */
    method UnbindAllUes()
      modifies this`ues, ues.Values
      ensures ues == map[]
      ensures forall u | u in old(ues.Values) :: !u.IsBound() && u.tmsi == old(u.tmsi) && u.crnti == old(u.crnti)
    {
      var rest := ues.Keys;
      ghost var all := ues.Values;
      while rest != {}
        invariant rest <= ues.Keys && ues == old(ues) && all == ues.Values
        invariant forall k | k in ues && k !in rest :: !ues[k].IsBound()
        invariant forall u | u in all :: u.tmsi == old(u.tmsi) && u.crnti == old(u.crnti)
        decreases rest
      {
        var k :| k in rest;
        var _ := ues[k].UnbindSlice();
        rest := rest - {k};
      }
      assert forall u | u in all :: exists k :: k in ues && ues[k] == u;
      ues := map[];
    }

    /**
     * The REST update: a non-object or non-conforming PUT body is
     * rejected with 400; an allocation policy that is not an object is
     * malformed; one that is goes to the policy's own update, whose result
     * is the slice's. A body without a policy is accepted and changes
     * nothing.
     */
    method Update(d: Value, ae: ErrorSlot?) returns (ok: bool)
      modifies policy`share, policy`autoEqualize, policy`throttle, Sink(ae)
      ensures !d.Object? ==> !ok && policy.State() == old(policy.State()) && Appended(ae, BAD_REQUEST, [NOT_AN_OBJECT])
      ensures d.Object? && Errors(SLICE_SCHEMA, PUT, d.members) != [] ==>
        !ok && policy.State() == old(policy.State()) && Appended(ae, BAD_REQUEST, Reported(SLICE_SCHEMA, PUT, d.members))
      ensures d.Object? && Errors(SLICE_SCHEMA, PUT, d.members) == [] && "allocation_policy" !in d.members ==>
        ok && policy.State() == old(policy.State()) && Appended(ae, BAD_REQUEST, [])
      ensures d.Object? && Errors(SLICE_SCHEMA, PUT, d.members) == [] && "allocation_policy" in d.members ==>
        var p := d.members["allocation_policy"];
        (!p.Object? ==> !ok && policy.State() == old(policy.State()) && Appended(ae, BAD_REQUEST, [MALFORMED_POLICY])) &&
        (p.Object? ==>
           (ok <==> UpdateError(p).None?) &&
           policy.State() == (if ok then Updated(old(policy.State()), p.members) else old(policy.State())) &&
           Appended(ae, BAD_REQUEST, AsSeq(UpdateError(p))))
    {
      if !d.Object? {
        Report(ae, BAD_REQUEST, NOT_AN_OBJECT);
        return false;
      }
      var valid := ValidateJson(SLICE_SCHEMA, PUT, d, ae);
      if !valid {
        return false;
      }
      if "allocation_policy" in d.members {
        var p := d.members["allocation_policy"];
        if !p.Object? {
          Report(ae, BAD_REQUEST, MALFORMED_POLICY);
          return false;
        }
        ok := policy.Update(p, ae);
        return ok;
      }
      return true;
    }
  }

  // ------------------------------------------------------------ create

  /** GetInt on an optional property: its value when present, `default` otherwise. */
  function IntOr(p: map<string, Value>, k: string, default: int): int
  {
    if k in p && p[k].Int? then p[k].n else default
  }

  function BoolOr(p: map<string, Value>, k: string, default: bool): bool
  {
    if k in p && p[k].Bool? then p[k].b else default
  }

  predicate IntIfPresent(p: map<string, Value>, k: string)
  {
    k in p ==> IsInt(p[k])
  }

  /** The checks slice create applies to an allocation policy, as written: the type, the share and auto_equalize. */
  predicate CreateChecksAsWritten(v: Value)
  {
    v.Object? && WellFormedCore(v.members) && BoolIfPresent(v.members, "auto_equalize")
  }

  /** What the reads that follow those checks need: a bool throttle and int throttle settings. */
  predicate SettingsReadable(p: map<string, Value>)
  {
    BoolIfPresent(p, "throttle") && IntIfPresent(p, "throttle_threshold") && IntIfPresent(p, "throttle_period")
    && IntIfPresent(p, "throttle_share") && IntIfPresent(p, "throttle_target")
  }

  /** An allocation policy whose throttle setting is a string. */
  const STRING_THROTTLE: Value :=
    Object(map["type" := Str(POLICY_TYPE), "share" := Int(256), "throttle" := Str("yes")])

  /**
   * As written, an allocation policy whose throttle is a string passes the
   * checks, and GetBool is then applied to a string.
   */
  lemma AsWrittenAcceptsStringThrottle()
    ensures CreateChecksAsWritten(STRING_THROTTLE) && !SettingsReadable(STRING_THROTTLE.members)
  {
    StringThrottlePassesChecks();
    assert STRING_THROTTLE.members["throttle"] == Str("yes");
  }

  lemma StringThrottlePassesChecks()
    ensures CreateChecksAsWritten(STRING_THROTTLE)
  {
    StringThrottleCore();
    StringThrottleNoAutoEqualize();
  }

  lemma StringThrottleCore()
    ensures WellFormedCore(STRING_THROTTLE.members)
  {
    StringThrottleType();
    StringThrottleShare();
  }

  lemma StringThrottleType()
    ensures "type" in STRING_THROTTLE.members && STRING_THROTTLE.members["type"].Str?
    ensures CStr(STRING_THROTTLE.members["type"].s) == POLICY_TYPE
  {
    PolicyTypeIsCString();
    assert STRING_THROTTLE.members["type"] == Str(POLICY_TYPE);
  }

  lemma StringThrottleShare()
    ensures "share" in STRING_THROTTLE.members && STRING_THROTTLE.members["share"] == Int(256)
  {
  }

  lemma StringThrottleNoAutoEqualize()
    ensures "auto_equalize" !in STRING_THROTTLE.members
  {
    assert STRING_THROTTLE.members.Keys == {"type", "share", "throttle"};
  }

  lemma PolicyTypeIsCString()
    ensures CStr(POLICY_TYPE) == POLICY_TYPE
  {
    assert NoNul(POLICY_TYPE);
    CStrOfNoNul(POLICY_TYPE);
  }

  /**
   * The policy a slice create builds from its allocation_policy, or None
   * for a malformed one (which also covers settings of the wrong kind).
   * Omitted settings take their defaults: no auto-equalize, no throttle,
   * threshold -1, period 1800; the throttle share is 128 exactly when
   * neither a throttle share nor a target is given as non-zero.
   */
  function PolicyFromJson(v: Value): (r: Option<PolicyState>)
    ensures r.Some? <==> CreateChecksAsWritten(v) && SettingsReadable(v.members)
    ensures r.Some? ==>
      var p := v.members;
      var tshare := IntOr(p, "throttle_share", 0);
      var target := IntOr(p, "throttle_target", 0);
      r.value == NewPolicy(p["share"].n, BoolOr(p, "auto_equalize", false), BoolOr(p, "throttle", false),
                           IntOr(p, "throttle_threshold", -1), IntOr(p, "throttle_period", 1800),
                           if tshare == 0 && target == 0 then 128 else tshare, target)
  {
    if !CreateChecksAsWritten(v) || !SettingsReadable(v.members) then None
    else
      var p := v.members;
      var tshare := IntOr(p, "throttle_share", 0);
      var target := IntOr(p, "throttle_target", 0);
      Some(NewPolicy(p["share"].n, BoolOr(p, "auto_equalize", false), BoolOr(p, "throttle", false),
                     IntOr(p, "throttle_threshold", -1), IntOr(p, "throttle_period", 1800),
                     if tshare == 0 && target == 0 then 128 else tshare, target))
  }

  /**
   * A created policy has a throttle rule: a non-zero throttle share or
   * target, so starting to throttle never finds neither; it starts out
   * not throttling, with a share in [0, 1024].
   */
  lemma CreatedPolicyHasThrottleRule(v: Value)
    requires PolicyFromJson(v).Some?
    ensures var s := PolicyFromJson(v).value;
      (s.throttleShare != 0 || s.throttleTarget != 0) && !s.isThrottling && 0 <= s.share <= MAX_SHARE
  {
  }

  /**
   * The body a policy was created from is a valid policy update, and
   * applying it to the created policy changes nothing.
   */
  lemma CreateBodyIsNeutralUpdate(v: Value)
    requires PolicyFromJson(v).Some?
    ensures UpdateError(v).None?
    ensures Updated(PolicyFromJson(v).value, v.members) == PolicyFromJson(v).value
  {
  }

  /** What a new slice is made from: its name and its policy's state. */
  datatype SliceParams = SliceParams(name: string, policy: PolicyState)

  /**
   * The create decision: a non-object and a non-conforming POST body are
   * rejected, and so is a malformed allocation policy; an accepted body
   * names the slice and gives the policy built from allocation_policy, or
   * the default policy of share 512 when there is none.
   */
  function CreateOutcome(d: Value): (r: Outcome<SliceParams>)
    ensures !d.Object? ==> r == Rejected([NOT_AN_OBJECT])
    ensures d.Object? && !Conforms(SLICE_SCHEMA, POST, d.members) ==>
      r == Rejected(Reported(SLICE_SCHEMA, POST, d.members)) && r.messages != []
    ensures d.Object? && Conforms(SLICE_SCHEMA, POST, d.members) && "allocation_policy" in d.members ==>
      (r.Accepted? <==> PolicyFromJson(d.members["allocation_policy"]).Some?)
    ensures r.Rejected? && d.Object? && Conforms(SLICE_SCHEMA, POST, d.members) ==> r == Rejected([MALFORMED_POLICY])
    ensures r.Accepted? ==>
      "name" in d.members && d.members["name"].Str? && r.value.name == CStr(d.members["name"].s) &&
      r.value.policy == if "allocation_policy" in d.members then PolicyFromJson(d.members["allocation_policy"]).value
                        else DefaultPolicy(DEFAULT_SHARE)
  {
    if !d.Object? then Rejected([NOT_AN_OBJECT])
    else
      var obj := d.members;
      AcceptsIffConforms(SLICE_SCHEMA, POST, obj);
      if Errors(SLICE_SCHEMA, POST, obj) != [] then Rejected(Reported(SLICE_SCHEMA, POST, obj))
      else
        assert "name" in Listed(SLICE_SCHEMA.required, POST);
        var name := GetString(obj["name"]);
        if "allocation_policy" !in obj then Accepted(SliceParams(name, DefaultPolicy(DEFAULT_SHARE)))
        else
          var p := PolicyFromJson(obj["allocation_policy"]);
          if p.None? then Rejected([MALFORMED_POLICY]) else Accepted(SliceParams(name, p.value))
  }

  /** The create decision in terms of the validation errors of an object body. */
  lemma CreateOutcomeOfErrors(d: Value)
    requires d.Object?
    ensures Errors(SLICE_SCHEMA, POST, d.members) != [] ==> CreateOutcome(d) == Rejected(Reported(SLICE_SCHEMA, POST, d.members))
    ensures Errors(SLICE_SCHEMA, POST, d.members) == [] ==>
      Reported(SLICE_SCHEMA, POST, d.members) == [] && "name" in d.members && IsString(d.members["name"]) &&
      CreateOutcome(d) ==
        var name := GetString(d.members["name"]);
        if "allocation_policy" !in d.members then Accepted(SliceParams(name, DefaultPolicy(DEFAULT_SHARE)))
        else if PolicyFromJson(d.members["allocation_policy"]).None? then Rejected([MALFORMED_POLICY])
        else Accepted(SliceParams(name, PolicyFromJson(d.members["allocation_policy"]).value))
  {
    AcceptsIffConforms(SLICE_SCHEMA, POST, d.members);
    assert "name" in Listed(SLICE_SCHEMA.required, POST);
  }

  /** Slice::create: the decision above, and a new slice with a new policy when it accepts. */
  method Create(d: Value, ae: ErrorSlot?) returns (s: Slice?)
    modifies Sink(ae)
    ensures (s != null) <==> CreateOutcome(d).Accepted?
    ensures s != null ==>
      fresh(s) && fresh(s.policy) && s.ues == map[] && SliceParams(s.name, s.policy.State()) == CreateOutcome(d).value
    ensures Appended(ae, BAD_REQUEST, Messages(CreateOutcome(d)))
  {
    if !d.Object? {
      Report(ae, BAD_REQUEST, NOT_AN_OBJECT);
      return null;
    }
    var valid := ValidateJson(SLICE_SCHEMA, POST, d, ae);
    CreateOutcomeOfErrors(d);
    if !valid {
      return null;
    }
    var obj := d.members;
    if "allocation_policy" in obj {
      var pol := PolicyFromJson(obj["allocation_policy"]);
      if pol.None? {
        Report(ae, BAD_REQUEST, MALFORMED_POLICY);
        return null;
      }
      var q := pol.value;
      var policy := new ProportionalAllocationPolicy(q.share, q.autoEqualize, q.throttle, q.throttleThreshold,
                                                     q.throttlePeriod, q.throttleShare, q.throttleTarget);
      s := new Slice.WithPolicy(GetString(obj["name"]), policy);
    } else {
      s := new Slice(GetString(obj["name"]));
    }
  }
}
