/**
 * The table-driven request validator shared by every REST resource:
 * each resource declares the JSON kind of its properties, which are
 * required, optional or disallowed for each HTTP method, and the allowed
 * values of its enumerated properties.
 */
module Resource {
  import opened Wrappers
  import opened CLib
  import opened Json
  import opened RestServer

  datatype JsonType = STRING | INT | UINT | FLOAT | OBJECT | ARRAY | BOOL

  datatype HttpMethod = GET | HEAD | POST | PUT | DELETE | CONNECT | OPTIONS | TRACE | PATCH

  /** The static tables of one resource class. Enumerations are listed in key order. */
  datatype Schema = Schema(
    propertyTypes: map<string, JsonType>,
    propertyEnums: seq<(string, seq<string>)>,
    required: map<HttpMethod, seq<string>>,
    optional: map<HttpMethod, seq<string>>,
    disallowed: map<HttpMethod, seq<string>>,
    immediateAbort: bool)

  const BAD_REQUEST: int := 400

  /** What every create and update reports, with status 400, for a body that is not a JSON object. */
  const NOT_AN_OBJECT: string := "request is not an object"

  /**
   * What a resource's create decides: the parameters of the new object, or
   * the messages it reports with status 400 and no object.
   */
  datatype Outcome<T> = Accepted(value: T) | Rejected(messages: seq<string>)

  /** The messages an outcome reports: none for an accepted one. */
  function Messages<T>(o: Outcome<T>): seq<string>
  {
    if o.Rejected? then o.messages else []
  }

  /** Whether `v` has the JSON kind declared for property `k`; an undeclared property never does. */
  function ValidateValue(s: Schema, k: string, v: Value): (r: bool)
    ensures k !in s.propertyTypes ==> !r
    ensures k in s.propertyTypes && s.propertyTypes[k] == STRING ==> (r <==> v.Str?)
    ensures k in s.propertyTypes && s.propertyTypes[k] == INT ==> (r <==> v.Int? && INT32_MIN <= v.n <= INT32_MAX)
    ensures k in s.propertyTypes && s.propertyTypes[k] == UINT ==> (r <==> v.Int? && 0 <= v.n <= UINT32_MAX)
    ensures k in s.propertyTypes && s.propertyTypes[k] == FLOAT ==> (r <==> v.Double?)
    ensures k in s.propertyTypes && s.propertyTypes[k] == OBJECT ==> (r <==> v.Object?)
    ensures k in s.propertyTypes && s.propertyTypes[k] == ARRAY ==> (r <==> v.Array?)
    ensures k in s.propertyTypes && s.propertyTypes[k] == BOOL ==> (r <==> v.Bool?)
  {
    if k !in s.propertyTypes then false
    else match s.propertyTypes[k]
      case STRING => IsString(v)
      case INT => IsInt(v)
      case UINT => IsUint(v)
      case FLOAT => IsFloat(v)
      case OBJECT => IsObject(v)
      case ARRAY => IsArray(v)
      case BOOL => IsBool(v)
  }

  // ------------------------------------------------------------ the specification

  datatype ListKind = Required | Optional | Disallowed

  /** The message one list entry contributes, if any. */
  function KeyError(s: Schema, kind: ListKind, obj: map<string, Value>, k: string): Option<string>
  {
    match kind
    case Required =>
      if k !in obj then Some("missing required property: " + k)
      else if !ValidateValue(s, k, obj[k]) then Some("invalid type for property: " + k)
      else None
    case Optional =>
      if k in obj && !ValidateValue(s, k, obj[k]) then Some("invalid type for property: " + k) else None
    case Disallowed =>
      if k in obj then Some("invalid property: " + k) else None
  }

  function AsSeq(o: Option<string>): seq<string>
  {
    if o.Some? then [o.value] else []
  }

  /** The messages of one list, in list order. */
  function ListErrors(s: Schema, kind: ListKind, obj: map<string, Value>, ks: seq<string>): seq<string>
  {
    if ks == [] then []
    else ListErrors(s, kind, obj, ks[..|ks| - 1]) + AsSeq(KeyError(s, kind, obj, ks[|ks| - 1]))
  }

  /** The message one enumeration contributes: a string value outside the allowed list. */
  function EnumError(obj: map<string, Value>, e: (string, seq<string>)): Option<string>
  {
    if e.0 in obj && obj[e.0].Str? && CStr(obj[e.0].s) !in e.1
    then Some("invalid enum value for property: " + e.0)
    else None
  }

  function EnumErrors(obj: map<string, Value>, es: seq<(string, seq<string>)>): seq<string>
  {
    if es == [] then []
    else EnumErrors(obj, es[..|es| - 1]) + AsSeq(EnumError(obj, es[|es| - 1]))
  }

  function Listed(lists: map<HttpMethod, seq<string>>, m: HttpMethod): seq<string>
  {
    if m in lists then lists[m] else []
  }

  /** Every message the checks produce, in the order the validator finds them. */
  function Errors(s: Schema, m: HttpMethod, obj: map<string, Value>): seq<string>
  {
    ListErrors(s, Required, obj, Listed(s.required, m))
    + ListErrors(s, Optional, obj, Listed(s.optional, m))
    + ListErrors(s, Disallowed, obj, Listed(s.disallowed, m))
    + EnumErrors(obj, s.propertyEnums)
  }

  /** The messages actually recorded: all of them, or only the first when the resource aborts at once. */
  function Reported(s: Schema, m: HttpMethod, obj: map<string, Value>): seq<string>
  {
    var errs := Errors(s, m, obj);
    if s.immediateAbort && errs != [] then [errs[0]] else errs
  }

  /** The declarative reading of the tables: what a conforming request body is. */
  predicate Conforms(s: Schema, m: HttpMethod, obj: map<string, Value>)
  {
    (forall k | k in Listed(s.required, m) :: k in obj && ValidateValue(s, k, obj[k]))
    && (forall k | k in Listed(s.optional, m) && k in obj :: ValidateValue(s, k, obj[k]))
    && (forall k | k in Listed(s.disallowed, m) :: k !in obj)
    && (forall i | 0 <= i < |s.propertyEnums| ::
          var (k, allowed) := s.propertyEnums[i];
          k in obj && obj[k].Str? ==> CStr(obj[k].s) in allowed)
  }

  // ------------------------------------------------------------ lemmas

  lemma {:induction false} ListErrorsEmpty(s: Schema, kind: ListKind, obj: map<string, Value>, ks: seq<string>)
    ensures ListErrors(s, kind, obj, ks) == [] <==> forall k | k in ks :: KeyError(s, kind, obj, k).None?
  {
    if ks != [] {
      var init := ks[..|ks| - 1];
      ListErrorsEmpty(s, kind, obj, init);
      assert ks == init + [ks[|ks| - 1]];
    }
  }

  lemma {:induction false} EnumErrorsEmpty(obj: map<string, Value>, es: seq<(string, seq<string>)>)
    ensures EnumErrors(obj, es) == [] <==> forall i | 0 <= i < |es| :: EnumError(obj, es[i]).None?
  {
    if es != [] {
      EnumErrorsEmpty(obj, es[..|es| - 1]);
    }
  }

  /** A message of some list entry is among the list's messages. */
  lemma {:induction false} ListErrorsContains(s: Schema, kind: ListKind, obj: map<string, Value>, ks: seq<string>, i: nat)
    requires i < |ks| && KeyError(s, kind, obj, ks[i]).Some?
    ensures KeyError(s, kind, obj, ks[i]).value in ListErrors(s, kind, obj, ks)
  {
    if i < |ks| - 1 {
      ListErrorsContains(s, kind, obj, ks[..|ks| - 1], i);
    }
  }

  /** The validator accepts exactly the conforming bodies. */
  lemma AcceptsIffConforms(s: Schema, m: HttpMethod, obj: map<string, Value>)
    ensures Errors(s, m, obj) == [] <==> Conforms(s, m, obj)
  {
    RequiredErrorsEmpty(s, obj, Listed(s.required, m));
    OptionalErrorsEmpty(s, obj, Listed(s.optional, m));
    DisallowedErrorsEmpty(s, obj, Listed(s.disallowed, m));
    EnumErrorsEmpty(obj, s.propertyEnums);
  }

  lemma RequiredErrorsEmpty(s: Schema, obj: map<string, Value>, ks: seq<string>)
    ensures ListErrors(s, Required, obj, ks) == [] <==> forall k | k in ks :: k in obj && ValidateValue(s, k, obj[k])
  {
    ListErrorsEmpty(s, Required, obj, ks);
  }

  lemma OptionalErrorsEmpty(s: Schema, obj: map<string, Value>, ks: seq<string>)
    ensures ListErrors(s, Optional, obj, ks) == [] <==> forall k | k in ks && k in obj :: ValidateValue(s, k, obj[k])
  {
    ListErrorsEmpty(s, Optional, obj, ks);
  }

  lemma DisallowedErrorsEmpty(s: Schema, obj: map<string, Value>, ks: seq<string>)
    ensures ListErrors(s, Disallowed, obj, ks) == [] <==> forall k | k in ks :: k !in obj
  {
    ListErrorsEmpty(s, Disallowed, obj, ks);
  }

  /** A required property that is absent is reported by name, so validation fails. */
  lemma MissingRequiredIsReported(s: Schema, m: HttpMethod, obj: map<string, Value>, k: string)
    requires k in Listed(s.required, m) && k !in obj
    ensures "missing required property: " + k in Errors(s, m, obj)
  {
    var ks := Listed(s.required, m);
    var i :| 0 <= i < |ks| && ks[i] == k;
    ListErrorsContains(s, Required, obj, ks, i);
  }

  /** A required or optional property of the wrong kind is reported by name. */
  lemma WrongTypeIsReported(s: Schema, m: HttpMethod, obj: map<string, Value>, k: string)
    requires k in obj && !ValidateValue(s, k, obj[k])
    requires k in Listed(s.required, m) || k in Listed(s.optional, m)
    ensures "invalid type for property: " + k in Errors(s, m, obj)
  {
    if k in Listed(s.required, m) {
      var ks := Listed(s.required, m);
      var i :| 0 <= i < |ks| && ks[i] == k;
      ListErrorsContains(s, Required, obj, ks, i);
    } else {
      var ks := Listed(s.optional, m);
      var i :| 0 <= i < |ks| && ks[i] == k;
      ListErrorsContains(s, Optional, obj, ks, i);
    }
  }

  /** Optional properties are checked only when present: absent ones never produce a message. */
  lemma AbsentOptionalsAreSilent(s: Schema, m: HttpMethod, obj: map<string, Value>)
    requires forall k | k in Listed(s.optional, m) :: k !in obj
    ensures ListErrors(s, Optional, obj, Listed(s.optional, m)) == []
  {
    ListErrorsEmpty(s, Optional, obj, Listed(s.optional, m));
  }

  /** A disallowed property that is present is reported by name. */
  lemma DisallowedIsReported(s: Schema, m: HttpMethod, obj: map<string, Value>, k: string)
    requires k in Listed(s.disallowed, m) && k in obj
    ensures "invalid property: " + k in Errors(s, m, obj)
  {
    var ks := Listed(s.disallowed, m);
    var i :| 0 <= i < |ks| && ks[i] == k;
    ListErrorsContains(s, Disallowed, obj, ks, i);
  }

  /** A string outside an enumeration's list is reported by the property's name. */
  lemma BadEnumIsReported(s: Schema, m: HttpMethod, obj: map<string, Value>, i: nat)
    requires i < |s.propertyEnums|
    requires var (k, allowed) := s.propertyEnums[i]; k in obj && obj[k].Str? && CStr(obj[k].s) !in allowed
    ensures "invalid enum value for property: " + s.propertyEnums[i].0 in Errors(s, m, obj)
  {
    EnumErrorsContains(obj, s.propertyEnums, i);
  }

  lemma {:induction false} EnumErrorsContains(obj: map<string, Value>, es: seq<(string, seq<string>)>, i: nat)
    requires i < |es| && EnumError(obj, es[i]).Some?
    ensures EnumError(obj, es[i]).value in EnumErrors(obj, es)
  {
    if i < |es| - 1 {
      EnumErrorsContains(obj, es[..|es| - 1], i);
    }
  }

  // ------------------------------------------------------------ the validator

  /** One of the three list loops of validate_json. */
  method CheckList(s: Schema, kind: ListKind, obj: map<string, Value>, ks: seq<string>, ae: ErrorSlot?)
    returns (clean: bool, aborted: bool)
    modifies Sink(ae)
    ensures !aborted ==> (clean <==> ListErrors(s, kind, obj, ks) == [])
    ensures !aborted ==> Appended(ae, BAD_REQUEST, ListErrors(s, kind, obj, ks))
    ensures s.immediateAbort && !aborted ==> clean
    ensures aborted ==> s.immediateAbort && ListErrors(s, kind, obj, ks) != []
    ensures aborted ==> Appended(ae, BAD_REQUEST, [ListErrors(s, kind, obj, ks)[0]])
  {
    clean, aborted := true, false;
    var i := 0;
    while i < |ks|
      invariant 0 <= i <= |ks|
      invariant clean <==> ListErrors(s, kind, obj, ks[..i]) == []
      invariant s.immediateAbort ==> clean
      invariant Appended(ae, BAD_REQUEST, ListErrors(s, kind, obj, ks[..i]))
    {
      var e := KeyError(s, kind, obj, ks[i]);
      ListErrorsStep(s, kind, obj, ks, i);
      if e.Some? {
        Report(ae, BAD_REQUEST, e.value);
        AppendTwice(old(LogOf(ae)), BAD_REQUEST, ListErrors(s, kind, obj, ks[..i]), [e.value]);
        if s.immediateAbort {
          ListErrorsPrefix(s, kind, obj, ks, i + 1);
          return false, true;
        }
        clean := false;
      }
      i := i + 1;
    }
    assert ks[..i] == ks;
  }

  lemma ListErrorsStep(s: Schema, kind: ListKind, obj: map<string, Value>, ks: seq<string>, i: nat)
    requires i < |ks|
    ensures ListErrors(s, kind, obj, ks[..i + 1]) == ListErrors(s, kind, obj, ks[..i]) + AsSeq(KeyError(s, kind, obj, ks[i]))
  {
    assert ks[..i + 1][..i] == ks[..i];
  }

  lemma {:induction false} ListErrorsPrefix(s: Schema, kind: ListKind, obj: map<string, Value>, ks: seq<string>, j: nat)
    requires j <= |ks|
    ensures ListErrors(s, kind, obj, ks[..j]) <= ListErrors(s, kind, obj, ks)
    decreases |ks|
  {
    if j < |ks| {
      var init := ks[..|ks| - 1];
      assert init[..j] == ks[..j];
      ListErrorsPrefix(s, kind, obj, init, j);
    } else {
      assert ks[..j] == ks;
    }
  }

  /** The enumeration loop of validate_json. */
  method CheckEnums(obj: map<string, Value>, es: seq<(string, seq<string>)>, abort: bool, ae: ErrorSlot?)
    returns (clean: bool, aborted: bool)
    modifies Sink(ae)
    ensures !aborted ==> (clean <==> EnumErrors(obj, es) == [])
    ensures !aborted ==> Appended(ae, BAD_REQUEST, EnumErrors(obj, es))
    ensures abort && !aborted ==> clean
    ensures aborted ==> abort && EnumErrors(obj, es) != []
    ensures aborted ==> Appended(ae, BAD_REQUEST, [EnumErrors(obj, es)[0]])
  {
    clean, aborted := true, false;
    var i := 0;
    while i < |es|
      invariant 0 <= i <= |es|
      invariant clean <==> EnumErrors(obj, es[..i]) == []
      invariant abort ==> clean
      invariant Appended(ae, BAD_REQUEST, EnumErrors(obj, es[..i]))
    {
      assert es[..i + 1][..i] == es[..i];
      assert EnumErrors(obj, es[..i + 1]) == EnumErrors(obj, es[..i]) + AsSeq(EnumError(obj, es[i]));
      var e := EnumError(obj, es[i]);
      if e.Some? {
        Report(ae, BAD_REQUEST, e.value);
        AppendTwice(old(LogOf(ae)), BAD_REQUEST, EnumErrors(obj, es[..i]), [e.value]);
        if abort {
          EnumErrorsPrefix(obj, es, i + 1);
          return false, true;
        }
        clean := false;
      }
      i := i + 1;
    }
    assert es[..i] == es;
  }

  lemma {:induction false} EnumErrorsPrefix(obj: map<string, Value>, es: seq<(string, seq<string>)>, j: nat)
    requires j <= |es|
    ensures EnumErrors(obj, es[..j]) <= EnumErrors(obj, es)
    decreases |es|
  {
    if j < |es| {
      var init := es[..|es| - 1];
      assert init[..j] == es[..j];
      EnumErrorsPrefix(obj, init, j);
    } else {
      assert es[..j] == es;
    }
  }

  /** One stage of validate_json: the loop over the method's list, skipped when the method has none. */
  method CheckStage(s: Schema, kind: ListKind, obj: map<string, Value>, lists: map<HttpMethod, seq<string>>, m: HttpMethod, ae: ErrorSlot?)
    returns (clean: bool, aborted: bool)
    modifies Sink(ae)
    ensures !aborted ==> (clean <==> ListErrors(s, kind, obj, Listed(lists, m)) == [])
    ensures !aborted ==> Appended(ae, BAD_REQUEST, ListErrors(s, kind, obj, Listed(lists, m)))
    ensures s.immediateAbort && !aborted ==> clean
    ensures aborted ==> s.immediateAbort && ListErrors(s, kind, obj, Listed(lists, m)) != []
    ensures aborted ==> Appended(ae, BAD_REQUEST, [ListErrors(s, kind, obj, Listed(lists, m))[0]])
  {
    if m in lists {
      clean, aborted := CheckList(s, kind, obj, lists[m], ae);
    } else {
      clean, aborted := true, false;
    }
  }

  /** The required and optional stages of validate_json, in that order. */
  method CheckPresent(s: Schema, m: HttpMethod, obj: map<string, Value>, ae: ErrorSlot?)
    returns (clean: bool, aborted: bool)
    modifies Sink(ae)
    ensures var errs := ListErrors(s, Required, obj, Listed(s.required, m)) + ListErrors(s, Optional, obj, Listed(s.optional, m));
      && (!aborted ==> (clean <==> errs == []) && Appended(ae, BAD_REQUEST, errs))
      && (s.immediateAbort && !aborted ==> clean)
      && (aborted ==> s.immediateAbort && errs != [] && Appended(ae, BAD_REQUEST, [errs[0]]))
  {
    ghost var r := ListErrors(s, Required, obj, Listed(s.required, m));
    ghost var o := ListErrors(s, Optional, obj, Listed(s.optional, m));
    ghost var log0 := LogOf(ae);
    var clean1, clean2;
    clean1, aborted := CheckStage(s, Required, obj, s.required, m, ae);
    if aborted {
      return false, true;
    }
    clean2, aborted := CheckStage(s, Optional, obj, s.optional, m, ae);
    if aborted {
      AppendTwice(log0, BAD_REQUEST, r, [o[0]]);
      assert (r + o)[0] == o[0];
      return false, true;
    }
    AppendTwice(log0, BAD_REQUEST, r, o);
    clean := clean1 && clean2;
  }

  /** The disallowed and enumeration stages of validate_json, in that order. */
  method CheckAbsentAndEnums(s: Schema, m: HttpMethod, obj: map<string, Value>, ae: ErrorSlot?)
    returns (clean: bool, aborted: bool)
    modifies Sink(ae)
    ensures var errs := ListErrors(s, Disallowed, obj, Listed(s.disallowed, m)) + EnumErrors(obj, s.propertyEnums);
      && (!aborted ==> (clean <==> errs == []) && Appended(ae, BAD_REQUEST, errs))
      && (s.immediateAbort && !aborted ==> clean)
      && (aborted ==> s.immediateAbort && errs != [] && Appended(ae, BAD_REQUEST, [errs[0]]))
  {
    ghost var x := ListErrors(s, Disallowed, obj, Listed(s.disallowed, m));
    ghost var n := EnumErrors(obj, s.propertyEnums);
    ghost var log0 := LogOf(ae);
    var clean1, clean2;
    clean1, aborted := CheckStage(s, Disallowed, obj, s.disallowed, m, ae);
    if aborted {
      return false, true;
    }
    clean2, aborted := CheckEnums(obj, s.propertyEnums, s.immediateAbort, ae);
    if aborted {
      AppendTwice(log0, BAD_REQUEST, x, [n[0]]);
      assert (x + n)[0] == n[0];
      return false, true;
    }
    AppendTwice(log0, BAD_REQUEST, x, n);
    clean := clean1 && clean2;
  }

  /** The messages are those of the required and optional checks, then those of the disallowed and enumeration checks. */
  lemma ErrorsInTwoHalves(s: Schema, m: HttpMethod, obj: map<string, Value>)
    ensures Errors(s, m, obj) ==
      (ListErrors(s, Required, obj, Listed(s.required, m)) + ListErrors(s, Optional, obj, Listed(s.optional, m))) +
      (ListErrors(s, Disallowed, obj, Listed(s.disallowed, m)) + EnumErrors(obj, s.propertyEnums))
  {
    var a, b := ListErrors(s, Required, obj, Listed(s.required, m)), ListErrors(s, Optional, obj, Listed(s.optional, m));
    var c, d := ListErrors(s, Disallowed, obj, Listed(s.disallowed, m)), EnumErrors(obj, s.propertyEnums);
    assert a + b + c + d == (a + b) + (c + d);
  }

  /** What is reported when the messages are `p` then `q`: the first of them when aborting, else all. */
  lemma ReportedInTwoHalves(s: Schema, m: HttpMethod, obj: map<string, Value>, p: seq<string>, q: seq<string>)
    requires Errors(s, m, obj) == p + q
    ensures s.immediateAbort && p != [] ==> Reported(s, m, obj) == [p[0]]
    ensures s.immediateAbort && p == [] && q != [] ==> Reported(s, m, obj) == p + [q[0]]
    ensures !s.immediateAbort || p + q == [] ==> Reported(s, m, obj) == p + q
  {
    if p != [] {
      assert (p + q)[0] == p[0];
    } else if q != [] {
      assert (p + q)[0] == q[0];
    }
  }

  /**
   * validate_json: runs the required, optional, disallowed and enumeration
   * checks in that order, appending one message per failed check to the
   * sink (a fresh 400 error when there was none), and stops at the first
   * failure when the resource asks for it.
   */
  method ValidateJson(s: Schema, m: HttpMethod, d: Value, ae: ErrorSlot?) returns (ok: bool)
    requires d.Object?
    modifies Sink(ae)
    ensures ok <==> Errors(s, m, d.members) == []
    ensures Appended(ae, BAD_REQUEST, Reported(s, m, d.members))
  {
    var obj := d.members;
    ghost var p := ListErrors(s, Required, obj, Listed(s.required, m)) + ListErrors(s, Optional, obj, Listed(s.optional, m));
    ghost var q := ListErrors(s, Disallowed, obj, Listed(s.disallowed, m)) + EnumErrors(obj, s.propertyEnums);
    ghost var log0 := LogOf(ae);
    ErrorsInTwoHalves(s, m, obj);
    ReportedInTwoHalves(s, m, obj, p, q);
    var clean1, clean2, aborted;
    clean1, aborted := CheckPresent(s, m, obj, ae);
    if aborted {
      return false;
    }
    clean2, aborted := CheckAbsentAndEnums(s, m, obj, ae);
    if aborted {
      AppendTwice(log0, BAD_REQUEST, p, [q[0]]);
      return false;
    }
    AppendTwice(log0, BAD_REQUEST, p, q);
    ok := clean1 && clean2;
  }
}
