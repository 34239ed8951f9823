/**
 * A group of E2 control requests sent for one REST request: each is
 * tracked by its instance id as pending, succeeded or failed, and the
 * group expires at a deadline fixed when it is made.
 */
module RequestGroups {
  import opened RestServer
  import opened E2ap

  datatype RequestState = PENDING | SUCCESS | FAILURE

  /** One tracked request and what is known of its outcome. */
  datatype RequestStatus = RequestStatus(req: ControlRequest, state: RequestState)

  type Requests = map<int, RequestStatus>

  /** The table after a request is added: a new pending entry under its id, replacing any old one. */
  function Added(m: Requests, id: int, req: ControlRequest): Requests
  {
    m[id := RequestStatus(req, PENDING)]
  }

  /** The table after an update: the state of a known id is set; an unknown id changes nothing. */
  function Updated(m: Requests, id: int, st: RequestState): Requests
  {
    if id in m then m[id := m[id].(state := st)] else m
  }

  /** No request of the group is still pending. */
  predicate Done(m: Requests)
  {
    forall id | id in m :: m[id].state != PENDING
  }

  /** The number of requests among `ids` in state `st`. */
  function CountIn(m: Requests, ids: set<int>, st: RequestState): nat
  {
    |set id | id in ids && id in m && m[id].state == st|
  }

  function Count(m: Requests, st: RequestState): nat
  {
    CountIn(m, m.Keys, st)
  }

  /** A group is done exactly when it counts no pending request. */
  lemma DoneIffNonePending(m: Requests)
    ensures Done(m) <==> Count(m, PENDING) == 0
  {
    var pending := set i | i in m.Keys && i in m && m[i].state == PENDING;
    if !Done(m) {
      var id :| id in m && m[id].state == PENDING;
      assert id in pending;
      assert |pending| > 0;
    } else {
      assert forall i :: i !in pending;
      assert pending == {};
    }
  }

  /** Every request is in exactly one state, so the three counts add up to the size of the group. */
  lemma CountsPartition(m: Requests)
    ensures Count(m, PENDING) + Count(m, SUCCESS) + Count(m, FAILURE) == |m|
  {
    var p := set id | id in m.Keys && id in m && m[id].state == PENDING;
    var s := set id | id in m.Keys && id in m && m[id].state == SUCCESS;
    var f := set id | id in m.Keys && id in m && m[id].state == FAILURE;
    StatesCover(m, p, s, f);
    DisjointSizes(p, s, f);
    assert |m.Keys| == |m|;
  }

  /** The ids in each state are disjoint and together make up the group. */
  lemma StatesCover(m: Requests, p: set<int>, s: set<int>, f: set<int>)
    requires p == set id | id in m.Keys && id in m && m[id].state == PENDING
    requires s == set id | id in m.Keys && id in m && m[id].state == SUCCESS
    requires f == set id | id in m.Keys && id in m && m[id].state == FAILURE
    ensures p + s + f == m.Keys && p !! s && (p + s) !! f
  {
  }

  /** Three disjoint sets: the size of their union is the sum of their sizes. */
  lemma DisjointSizes(p: set<int>, s: set<int>, f: set<int>)
    requires p !! s && (p + s) !! f
    ensures |p + s + f| == |p| + |s| + |f|
  {
    assert |p + s| == |p| + |s|;
  }

  /** Counting one more id adds one exactly when that id is in state `st`. */
  lemma CountInStep(m: Requests, ids: set<int>, id: int, st: RequestState)
    requires id in m && id !in ids
    ensures CountIn(m, ids + {id}, st) == CountIn(m, ids, st) + (if m[id].state == st then 1 else 0)
  {
    var before := set i | i in ids && i in m && m[i].state == st;
    var after := set i | i in ids + {id} && i in m && m[i].state == st;
    if m[id].state == st {
      assert after == before + {id};
    } else {
      assert after == before;
    }
  }

  /** Moving `id` from the ids still to visit to the ids seen keeps the split and counts it in its state. */
  lemma VisitStep(m: Requests, seen: set<int>, todo: set<int>, id: int)
    requires seen == m.Keys - todo && todo <= m.Keys && id in todo
    ensures seen + {id} == m.Keys - (todo - {id}) && todo - {id} <= m.Keys
    ensures CountIn(m, seen + {id}, SUCCESS) == CountIn(m, seen, SUCCESS) + Is(m[id].state, SUCCESS)
    ensures CountIn(m, seen + {id}, FAILURE) == CountIn(m, seen, FAILURE) + Is(m[id].state, FAILURE)
    ensures CountIn(m, seen + {id}, PENDING) == CountIn(m, seen, PENDING) + Is(m[id].state, PENDING)
  {
    CountInStep(m, seen, id, SUCCESS);
    CountInStep(m, seen, id, FAILURE);
    CountInStep(m, seen, id, PENDING);
  }

  /** A request that has just been added keeps the group from being done. */
  lemma AddedIsNotDone(m: Requests, id: int, req: ControlRequest)
    ensures !Done(Added(m, id, req))
  {
    assert id in Added(m, id, req);
  }

  /** Settling a request (success or failure) never undoes a done group; a known id updated to PENDING always does. */
  lemma UpdateKeepsDone(m: Requests, id: int, st: RequestState)
    ensures Done(m) && st != PENDING ==> Done(Updated(m, id, st))
    ensures id in m && st == PENDING ==> !Done(Updated(m, id, st))
    ensures Updated(m, id, st).Keys == m.Keys
  {
    if id in m && st == PENDING {
      assert Updated(m, id, st)[id].state == PENDING;
    }
  }

  /** Some id of a non-empty set: the order `is_done` visits the requests in does not matter to it. */
  method Pick(ids: set<int>) returns (id: int)
    requires ids != {}
    ensures id in ids
  {
    assert exists x :: x in ids by {
      if forall x :: x !in ids {
        assert false;
      }
    }
    id :| id in ids;
  }

  /** An `int *` counter the caller may pass, or not, to `is_done`. */
  class Counter {
    var value: int

    constructor (v: int)
      ensures value == v
    {
      value := v;
    }
  }

  /**
   * What `is_done` adds to counter `c` for `nS` successes, `nF` failures
   * and `nP` pending requests: the count of every state whose pointer is
   * `c` (the pointers may alias).
   */
  function Bumps(c: Counter?, succeeded: Counter?, failed: Counter?, pending: Counter?, nS: int, nF: int, nP: int): int
  {
    (if c == succeeded then nS else 0) + (if c == failed then nF else 0) + (if c == pending then nP else 0)
  }

  /** What `is_done` adds to counter `c` for the requests among `ids`. */
  function Tally(m: Requests, ids: set<int>, c: Counter?, succeeded: Counter?, failed: Counter?, pending: Counter?): int
  {
    Bumps(c, succeeded, failed, pending, CountIn(m, ids, SUCCESS), CountIn(m, ids, FAILURE), CountIn(m, ids, PENDING))
  }

  /** 1 when `st` is `s`, else 0. */
  function Is(st: RequestState, s: RequestState): int
  {
    if st == s then 1 else 0
  }

  class RequestGroup {
    const ctx: RequestContext
    /** The deadline: the creation time plus the timeout in seconds. */
    const timeout: int
    var requests: Requests

    /** A new, empty group whose deadline is `t` seconds after `now` (8 in the source's default). */
    constructor (ctx: RequestContext, now: int, t: int)
      ensures this.ctx == ctx && timeout == now + t && requests == map[]
    {
      this.ctx := ctx;
      timeout := now + t;
      requests := map[];
    }

    /** Tracks `req` as pending under its instance id. */
    method Add(req: ControlRequest)
      modifies this`requests
      ensures requests == Added(old(requests), req.instanceId, req)
    {
      requests := requests[req.instanceId := RequestStatus(req, PENDING)];
    }

    /** Records the outcome of a request; an instance id that is not in the group is ignored. */
    method Update(instanceId: int, st: RequestState)
      modifies this`requests
      ensures requests == Updated(old(requests), instanceId, st)
    {
      if instanceId !in requests {
        return;
      }
      requests := requests[instanceId := requests[instanceId].(state := st)];
    }

    /**
     * Whether no request is pending; each counter that is passed is
     * raised by the number of requests in its state (by the sum of them
     * when the same counter is passed twice).
     */
    method IsDone(succeeded: Counter?, failed: Counter?, pending: Counter?) returns (done: bool)
      modifies succeeded, failed, pending
      ensures done <==> Done(requests)
      ensures done <==> Count(requests, PENDING) == 0
      ensures succeeded != null ==>
        succeeded.value == old(succeeded.value) + Tally(requests, requests.Keys, succeeded, succeeded, failed, pending)
      ensures failed != null ==>
        failed.value == old(failed.value) + Tally(requests, requests.Keys, failed, succeeded, failed, pending)
      ensures pending != null ==>
        pending.value == old(pending.value) + Tally(requests, requests.Keys, pending, succeeded, failed, pending)
    {
      done := true;
      var m := requests;
      var todo := m.Keys;
      ghost var seen: set<int> := {};
      ghost var nS, nF, nP := 0, 0, 0;
      ghost var b1 := if succeeded != null then succeeded.value else 0;
      ghost var b2 := if failed != null then failed.value else 0;
      ghost var b3 := if pending != null then pending.value else 0;
      while todo != {}
        invariant seen == m.Keys - todo && todo <= m.Keys
        invariant nS == CountIn(m, seen, SUCCESS) && nF == CountIn(m, seen, FAILURE) && nP == CountIn(m, seen, PENDING)
        invariant done <==> nP == 0
        invariant succeeded != null ==> succeeded.value == b1 + Bumps(succeeded, succeeded, failed, pending, nS, nF, nP)
        invariant failed != null ==> failed.value == b2 + Bumps(failed, succeeded, failed, pending, nS, nF, nP)
        invariant pending != null ==> pending.value == b3 + Bumps(pending, succeeded, failed, pending, nS, nF, nP)
        decreases |todo|
      {
        var id := Pick(todo);
        var st := m[id].state;
        VisitStep(m, seen, todo, id);
        ghost var nS', nF', nP' := nS + Is(st, SUCCESS), nF + Is(st, FAILURE), nP + Is(st, PENDING);
        Bump(st, succeeded, failed, pending, b1, b2, b3, nS, nF, nP, nS', nF', nP');
        if st == PENDING {
          done := false;
        }
        todo := todo - {id};
        seen := seen + {id};
        nS, nF, nP := nS', nF', nP';
      }
      assert seen == m.Keys && m == requests;
      DoneIffNonePending(requests);
    }

    /**
     * The counter `is_done` bumps for one request in state `st`, when one
     * was passed: each counter that stood at its base (`b1`, `b2`, `b3`)
     * plus what `nS`, `nF` and `nP` requests bump it by now stands at its
     * base plus what the counts with this request (`nS'`, `nF'`, `nP'`)
     * bump it by.
     */
    static method Bump(st: RequestState, succeeded: Counter?, failed: Counter?, pending: Counter?,
                       ghost b1: int, ghost b2: int, ghost b3: int, ghost nS: int, ghost nF: int, ghost nP: int,
                       ghost nS': int, ghost nF': int, ghost nP': int)
      requires nS' == nS + Is(st, SUCCESS) && nF' == nF + Is(st, FAILURE) && nP' == nP + Is(st, PENDING)
      requires succeeded != null ==> succeeded.value == b1 + Bumps(succeeded, succeeded, failed, pending, nS, nF, nP)
      requires failed != null ==> failed.value == b2 + Bumps(failed, succeeded, failed, pending, nS, nF, nP)
      requires pending != null ==> pending.value == b3 + Bumps(pending, succeeded, failed, pending, nS, nF, nP)
      modifies succeeded, failed, pending
      ensures succeeded != null ==> succeeded.value == b1 + Bumps(succeeded, succeeded, failed, pending, nS', nF', nP')
      ensures failed != null ==> failed.value == b2 + Bumps(failed, succeeded, failed, pending, nS', nF', nP')
      ensures pending != null ==> pending.value == b3 + Bumps(pending, succeeded, failed, pending, nS', nF', nP')
    {
      match st {
        case PENDING =>
          if pending != null {
            pending.value := pending.value + 1;
          }
        case SUCCESS =>
          if succeeded != null {
            succeeded.value := succeeded.value + 1;
          }
        case FAILURE =>
          if failed != null {
            failed.value := failed.value + 1;
          }
      }
    }

    /** Whether the deadline has passed at time `now`. */
    predicate IsExpired(now: int)
    {
      now > timeout
    }
  }
}
