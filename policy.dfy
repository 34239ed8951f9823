/**
 * The proportional allocation policy of a slice: the slice's share of the
 * radio resources, and the throttling state machine that replaces the
 * share while the slice's traffic is over a threshold and hands the saved
 * share back once the throttle period has passed.
 */
module Policy {
  import opened Wrappers
  import opened CLib
  import opened Json
  import opened RestServer
  import opened Resource
  import opened E2smKpm

  const POLICY_TYPE: string := "proportional"
  const MALFORMED_POLICY: string := "malformed allocation_policy property"
  const MAX_SHARE: int := 1024

  /**
   * The share while throttling toward a byte target, computed in floating
   * point from the share, the current metrics sample and the target.
   */
  type ShareFormula = (int, EntityMetrics, int) -> int

  /** Every field of a policy but its metrics window. */
  datatype PolicyState = PolicyState(
    share: int, autoEqualize: bool, throttle: bool,
    throttleThreshold: int, throttlePeriod: int, throttleShare: int, throttleTarget: int,
    isThrottling: bool, throttleEnd: int, throttleSavedShare: int)

  /** A policy as constructed from its settings: not throttling, no end time, no saved share. */
  function NewPolicy(share: int, autoEqualize: bool, throttle: bool, threshold: int,
                     period: int, throttleShare: int, throttleTarget: int): PolicyState
  {
    PolicyState(share, autoEqualize, throttle, threshold, period, throttleShare, throttleTarget, false, 0, -1)
  }

  /** The settings of a policy given only its share. */
  function DefaultPolicy(share: int): PolicyState
  {
    NewPolicy(share, false, false, -1, 1800, 128, 0)
  }

  /** `a` and `b` differ at most in the three throttling fields. */
  predicate SameSettings(a: PolicyState, b: PolicyState)
  {
    a.(isThrottling := b.isThrottling, throttleEnd := b.throttleEnd, throttleSavedShare := b.throttleSavedShare) == b
  }

  // ------------------------------------------------------------ throttling

  /**
   * maybeEndThrottling at time `now`: the new state and the share to
   * restore (-1 for none). Throttling ends unless it is enabled and its
   * end time has not come; ending hands back the saved share and clears
   * the end time and the saved share.
   */
  function EndThrottling(s: PolicyState, now: int): (r: (PolicyState, int))
    ensures SameSettings(r.0, s)
    ensures r.0.isThrottling <==> s.isThrottling && s.throttle && now < s.throttleEnd
    ensures r.0.isThrottling || !s.isThrottling ==> r == (s, -1)
    ensures s.isThrottling && !r.0.isThrottling ==>
      r.1 == s.throttleSavedShare && r.0.throttleEnd == 0 && r.0.throttleSavedShare == -1
  {
    if !s.isThrottling then (s, -1)
    else if s.throttle && now < s.throttleEnd then (s, -1)
    else (s.(isThrottling := false, throttleEnd := 0, throttleSavedShare := -1), s.throttleSavedShare)
  }

  /**
   * The share throttling imposes: the fixed throttle share when it is
   * positive, else the target formula on the current sample when a target
   * is set (-1 without a sample), else -1.
   */
  function ThrottledShare(s: PolicyState, current: Option<EntityMetrics>, formula: ShareFormula): int
  {
    if s.throttleShare > 0 then s.throttleShare
    else if s.throttleTarget > 0 then
      if current.None? then -1 else formula(s.share, current.value, s.throttleTarget)
    else -1
  }

  /** Whether maybeStartThrottling starts: enabled, not yet throttling, and the uint64 byte total at the threshold. */
  predicate Starts(s: PolicyState, totalBytes: int)
  {
    s.throttle && !s.isThrottling && !(totalBytes < ToU64(s.throttleThreshold))
  }

  /**
   * maybeStartThrottling at time `now` with the window's byte total: the
   * new state and the share to apply (-1 for none). Starting saves the
   * share and sets the end time one period ahead.
   */
  function StartThrottling(s: PolicyState, totalBytes: int, current: Option<EntityMetrics>,
                           formula: ShareFormula, now: int): (r: (PolicyState, int))
    ensures SameSettings(r.0, s)
    ensures !Starts(s, totalBytes) ==> r == (s, -1)
    ensures Starts(s, totalBytes) ==>
      r.0.isThrottling && r.0.throttleSavedShare == s.share && r.0.throttleEnd == now + s.throttlePeriod
    ensures Starts(s, totalBytes) ==> r.1 == ThrottledShare(s, current, formula)
  {
    if !s.throttle then (s, -1)
    else if s.isThrottling then (s, -1)
    else if totalBytes < ToU64(s.throttleThreshold) then (s, -1)
    else
      (s.(throttleSavedShare := s.share, isThrottling := true, throttleEnd := now + s.throttlePeriod),
       ThrottledShare(s, current, formula))
  }

  /** maybeUpdateThrottling: the throttled share while throttling is enabled and on, else -1. */
  function UpdateThrottling(s: PolicyState, current: Option<EntityMetrics>, formula: ShareFormula): (r: int)
    ensures !(s.throttle && s.isThrottling) ==> r == -1
    ensures s.throttle && s.isThrottling ==> r == ThrottledShare(s, current, formula)
  {
    if !s.throttle then -1
    else if !s.isThrottling then -1
    else ThrottledShare(s, current, formula)
  }

  /**
   * What starting returns: the throttle share when it is positive; -1 when
   * the target branch finds no sample or when neither a share nor a target
   * is set. Whatever it returns, the policy is throttling afterwards.
   */
  lemma StartResult(s: PolicyState, totalBytes: int, current: Option<EntityMetrics>, formula: ShareFormula, now: int)
    requires Starts(s, totalBytes)
    ensures var (s', r) := StartThrottling(s, totalBytes, current, formula, now);
      s'.isThrottling &&
      (s.throttleShare > 0 ==> r == s.throttleShare) &&
      (s.throttleShare <= 0 && s.throttleTarget > 0 && current.None? ==> r == -1) &&
      (s.throttleShare <= 0 && s.throttleTarget <= 0 ==> r == -1) &&
      (s.throttleShare <= 0 && s.throttleTarget > 0 && current.Some? ==>
         r == formula(s.share, current.value, s.throttleTarget))
  {
  }

  /**
   * The share saved when throttling starts is the one handed back when it
   * ends: whatever share the caller installs meanwhile, ending at or after
   * the end time returns the pre-throttle share and keeps the installed
   * one, while an earlier attempt returns -1 and keeps throttling.
   */
  lemma StartThenEnd(s: PolicyState, totalBytes: int, current: Option<EntityMetrics>, formula: ShareFormula,
                     now: int, installed: int, later: int)
    requires Starts(s, totalBytes)
    ensures var s1 := StartThrottling(s, totalBytes, current, formula, now).0.(share := installed);
      var (s2, restored) := EndThrottling(s1, later);
      (later >= now + s.throttlePeriod ==> restored == s.share && !s2.isThrottling && s2.share == installed) &&
      (later < now + s.throttlePeriod ==> (s2, restored) == (s1, -1))
  {
    var s1 := StartThrottling(s, totalBytes, current, formula, now).0.(share := installed);
    assert s1.isThrottling && s1.throttle && s1.throttleEnd == now + s.throttlePeriod;
    assert s1.throttleSavedShare == s.share;
  }

  /** Ending twice in a row: once throttling is off, ending again returns -1 and changes nothing. */
  lemma EndTwice(s: PolicyState, now: int, later: int)
    requires !EndThrottling(s, now).0.isThrottling
    ensures var s1 := EndThrottling(s, now).0; EndThrottling(s1, later) == (s1, -1)
  {
  }

  /**
   * With the default threshold of -1, the uint64 comparison sets the bar
   * at 2^64 - 1: a byte total below it never starts throttling.
   */
  lemma DefaultThresholdNeverStarts(s: PolicyState, totalBytes: int, current: Option<EntityMetrics>,
                                    formula: ShareFormula, now: int)
    requires s.throttleThreshold == -1 && 0 <= totalBytes < U64_MOD - 1
    ensures StartThrottling(s, totalBytes, current, formula, now) == (s, -1)
  {
    assert ToU64(s.throttleThreshold) == U64_MOD - 1;
  }

  /** While a started throttle lasts, the update reports the share that starting reported. */
  lemma UpdateAgreesWithStart(s: PolicyState, totalBytes: int, current: Option<EntityMetrics>,
                              formula: ShareFormula, now: int)
    requires Starts(s, totalBytes)
    ensures var (s', r) := StartThrottling(s, totalBytes, current, formula, now);
      UpdateThrottling(s', current, formula) == r
  {
    var s' := StartThrottling(s, totalBytes, current, formula, now).0;
    assert s'.share == s.share && s'.throttleShare == s.throttleShare && s'.throttleTarget == s.throttleTarget;
  }

  // ------------------------------------------------------------ the REST update

  /** The checks the policy update and the slice create share: type "proportional" and an int share in [0, 1024]. */
  predicate WellFormedCore(p: map<string, Value>)
  {
    "type" in p && p["type"].Str? && CStr(p["type"].s) == POLICY_TYPE
    && "share" in p && IsInt(p["share"]) && 0 <= p["share"].n <= MAX_SHARE
  }

  predicate BoolIfPresent(p: map<string, Value>, k: string)
  {
    k in p ==> p[k].Bool?
  }

  /** The message the policy update reports with status 400, if it rejects `v`. */
  function UpdateError(v: Value): Option<string>
  {
    if !v.Object? then Some(NOT_AN_OBJECT)
    else if !WellFormedCore(v.members) then Some(MALFORMED_POLICY)
    else if !(BoolIfPresent(v.members, "auto_equalize") && BoolIfPresent(v.members, "throttle")) then Some(MALFORMED_POLICY)
    else None
  }

  /**
   * An accepted update: the share is the given one, the two flags are the
   * given ones when present and unchanged otherwise, and nothing else moves
   * (threshold, period, throttle share, target and throttling state).
   */
  function Updated(s: PolicyState, p: map<string, Value>): (r: PolicyState)
    requires WellFormedCore(p) && BoolIfPresent(p, "auto_equalize") && BoolIfPresent(p, "throttle")
    ensures r.share == p["share"].n && 0 <= r.share <= MAX_SHARE
    ensures "auto_equalize" in p ==> r.autoEqualize == p["auto_equalize"].b
    ensures "auto_equalize" !in p ==> r.autoEqualize == s.autoEqualize
    ensures "throttle" in p ==> r.throttle == p["throttle"].b
    ensures "throttle" !in p ==> r.throttle == s.throttle
    ensures r.(share := s.share, autoEqualize := s.autoEqualize, throttle := s.throttle) == s
  {
    s.(share := p["share"].n,
       autoEqualize := if "auto_equalize" in p then p["auto_equalize"].b else s.autoEqualize,
       throttle := if "throttle" in p then p["throttle"].b else s.throttle)
  }

  /** Applying the same accepted body twice is applying it once. */
  lemma UpdateIdempotent(s: PolicyState, p: map<string, Value>)
    requires WellFormedCore(p) && BoolIfPresent(p, "auto_equalize") && BoolIfPresent(p, "throttle")
    ensures Updated(Updated(s, p), p) == Updated(s, p)
  {
  }

  // ------------------------------------------------------------ the object

  class ProportionalAllocationPolicy {
    var share: int
    var autoEqualize: bool
    var throttle: bool
    var throttleThreshold: int
    var throttlePeriod: int
    var throttleShare: int
    var throttleTarget: int
    var isThrottling: bool
    var throttleEnd: int
    var throttleSavedShare: int
    const metrics: MetricsIndex

    function State(): PolicyState
      reads this
    {
      PolicyState(share, autoEqualize, throttle, throttleThreshold, throttlePeriod, throttleShare, throttleTarget,
                  isThrottling, throttleEnd, throttleSavedShare)
    }

    /** A policy from its settings, with a fresh metrics window over the throttle period. */
    constructor (share: int, autoEqualize: bool, throttle: bool, threshold: int,
                 period: int, throttleShare: int, throttleTarget: int)
      ensures State() == NewPolicy(share, autoEqualize, throttle, threshold, period, throttleShare, throttleTarget)
      ensures fresh(metrics) && metrics.period == period && metrics.queue == [] && metrics.totals == ZERO_METRICS
    {
      this.share := share;
      this.autoEqualize := autoEqualize;
      this.throttle := throttle;
      throttleThreshold := threshold;
      throttlePeriod := period;
      this.throttleShare := throttleShare;
      this.throttleTarget := throttleTarget;
      isThrottling := false;
      throttleEnd := 0;
      throttleSavedShare := -1;
      metrics := new MetricsIndex(period);
    }

    /** A policy from its share alone, every other setting at its default. */
    constructor WithShare(share: int)
      ensures State() == DefaultPolicy(share)
      ensures fresh(metrics) && metrics.period == 1800 && metrics.queue == [] && metrics.totals == ZERO_METRICS
    {
      this.share := share;
      autoEqualize := false;
      throttle := false;
      throttleThreshold := -1;
      throttlePeriod := 1800;
      throttleShare := 128;
      throttleTarget := 0;
      isThrottling := false;
      throttleEnd := 0;
      throttleSavedShare := -1;
      metrics := new MetricsIndex(1800);
    }

    /** Sets the share when it lies in [0, 1024]; otherwise refuses and keeps the old one. */
    method SetShare(s: int) returns (ok: bool)
      modifies this`share
      ensures ok <==> 0 <= s <= MAX_SHARE
      ensures share == if ok then s else old(share)
    {
      if s < 0 || s > MAX_SHARE {
        return false;
      }
      share := s;
      return true;
    }

    method MaybeEndThrottling(now: int) returns (r: int)
      modifies this`isThrottling, this`throttleEnd, this`throttleSavedShare
      ensures (State(), r) == EndThrottling(old(State()), now)
    {
      if !isThrottling {
        return -1;
      } else if throttle && now < throttleEnd {
        return -1;
      }
      r := throttleSavedShare;
      isThrottling := false;
      throttleEnd := 0;
      throttleSavedShare := -1;
    }

    /** Starting, with the metrics window's current sample (if any) given as `current`. */
    method MaybeStartThrottling(now: int, current: Option<EntityMetrics>, formula: ShareFormula) returns (r: int)
      modifies this`isThrottling, this`throttleEnd, this`throttleSavedShare
      ensures (State(), r) == StartThrottling(old(State()), metrics.GetTotalBytes(), current, formula, now)
    {
      if !throttle {
        return -1;
      } else if isThrottling {
        return -1;
      } else if metrics.GetTotalBytes() < ToU64(throttleThreshold) {
        return -1;
      }
      throttleSavedShare := share;
      isThrottling := true;
      throttleEnd := now + throttlePeriod;
      if throttleShare > 0 {
        return throttleShare;
      } else if throttleTarget > 0 {
        if current.None? {
          return -1;
        }
        return formula(share, current.value, throttleTarget);
      }
      return -1;
    }

    /** The update reads the policy and changes nothing. */
    method MaybeUpdateThrottling(current: Option<EntityMetrics>, formula: ShareFormula) returns (r: int)
      ensures r == UpdateThrottling(State(), current, formula)
    {
      if !throttle {
        return -1;
      } else if !isThrottling {
        return -1;
      } else if throttleShare > 0 {
        return throttleShare;
      } else if throttleTarget > 0 {
        if current.None? {
          return -1;
        }
        return formula(share, current.value, throttleTarget);
      }
      return -1;
    }

    /**
     * The REST update of the policy from `v`: a rejected body reports one
     * 400 message and changes nothing; an accepted one reports nothing.
     */
    method Update(v: Value, ae: ErrorSlot?) returns (ok: bool)
      modifies this`share, this`autoEqualize, this`throttle, Sink(ae)
      ensures ok <==> UpdateError(v).None?
      ensures ok ==> State() == Updated(old(State()), v.members)
      ensures !ok ==> State() == old(State())
      ensures Appended(ae, BAD_REQUEST, AsSeq(UpdateError(v)))
    {
      if !v.Object? {
        Report(ae, BAD_REQUEST, NOT_AN_OBJECT);
        return false;
      }
      var p := v.members;
      if !("type" in p) || !p["type"].Str? || CStr(p["type"].s) != POLICY_TYPE
         || !("share" in p) || !IsInt(p["share"]) || p["share"].n < 0 || p["share"].n > MAX_SHARE {
        Report(ae, BAD_REQUEST, MALFORMED_POLICY);
        return false;
      }
      if ("auto_equalize" in p && !p["auto_equalize"].Bool?) || ("throttle" in p && !p["throttle"].Bool?) {
        Report(ae, BAD_REQUEST, MALFORMED_POLICY);
        return false;
      }
      share := p["share"].n;
      if "auto_equalize" in p {
        autoEqualize := p["auto_equalize"].b;
      }
      if "throttle" in p {
        throttle := p["throttle"].b;
      }
      return true;
    }
  }
}
