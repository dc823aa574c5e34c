/** The coalescing queue of git write-backs: what its critical sections do to the shared fields. */
module BatchQueue {
  type Key = string

  datatype Request = Request(id: nat, repoUrl: string, branch: string)

  /** Requests that can share a clone and a commit. */
  function BatchKey(r: Request): Key {
    r.repoUrl + [0 as char] + r.branch
  }

  /**
   Requests for one branch of one repository coalesce, whatever else tells them apart, and no others
   do: a whole batch may use its first request's repository.
   */
  lemma SameKeySameBranch(r: Request, t: Request)
    requires 0 as char !in r.repoUrl && 0 as char !in t.repoUrl
    ensures BatchKey(r) == BatchKey(t) <==> r.repoUrl == t.repoUrl && r.branch == t.branch
  {
    if BatchKey(r) == BatchKey(t) { KeyTellsBranch(r, t); }
  }

  lemma KeyTellsBranch(r: Request, t: Request)
    requires 0 as char !in r.repoUrl && 0 as char !in t.repoUrl
    requires BatchKey(r) == BatchKey(t)
    ensures r.repoUrl == t.repoUrl && r.branch == t.branch
  {
    var u, v, key := |r.repoUrl|, |t.repoUrl|, BatchKey(r);
    assert forall k :: 0 <= k < u ==> r.repoUrl[k] in r.repoUrl && key[k] == r.repoUrl[k];
    assert forall k :: 0 <= k < v ==> t.repoUrl[k] in t.repoUrl && key[k] == t.repoUrl[k];
    assert key[u] == key[v] == 0 as char;
    assert r.repoUrl == key[..u] && r.branch == key[u + 1..];
    assert t.repoUrl == key[..v] && t.branch == key[v + 1..];
  }

  /** The fields under the lock. A key is active while a loop drains it; wg counts the loops. */
  datatype Queue = Queue(pending: map<Key, seq<Request>>, active: set<Key>, wg: int, closed: bool)

  function Waiting(pending: map<Key, seq<Request>>, key: Key): seq<Request> {
    if key in pending then pending[key] else []
  }

  /** Submitting to an open queue starts a loop for the key unless one is draining it. */
  function Submitted(q: Queue, r: Request): Queue {
    var key := BatchKey(r);
    if q.closed then q
    else
      var queued := q.(pending := q.pending[key := Waiting(q.pending, key) + [r]]);
      if key in q.active then queued else queued.(active := q.active + {key}, wg := q.wg + 1)
  }

  function BatchOf(waiting: seq<Request>, max: nat): (batch: seq<Request>)
    ensures batch <= waiting && |batch| <= max
    ensures waiting != [] && max >= 1 ==> batch != []
    ensures |batch| < max ==> batch == waiting
  {
    waiting[..if |waiting| > max then max else |waiting|]
  }

  function Taken(q: Queue, key: Key, max: nat): Queue {
    q.(pending := q.pending[key := Waiting(q.pending, key)[|BatchOf(Waiting(q.pending, key), max)|..]])
  }

  function Retired(q: Queue, key: Key): Queue {
    q.(pending := q.pending - {key}, active := q.active - {key})
  }

  function Concat(batches: seq<seq<Request>>): seq<Request> {
    if batches == [] then [] else Concat(batches[..|batches| - 1]) + batches[|batches| - 1]
  }

  lemma ConcatMore(batches: seq<seq<Request>>, last: seq<Request>)
    ensures Concat(batches + [last]) == Concat(batches) + last
  {
    assert (batches + [last])[..|batches|] == batches;
  }

  /** What is submitted while the next batch is being flushed. */
  function Arriving(arrivals: seq<seq<Request>>, flushed: nat): seq<Request> {
    if flushed < |arrivals| then arrivals[flushed] else []
  }

  function UpTo(arrivals: seq<seq<Request>>, flushed: nat): seq<Request> {
    Concat(arrivals[..if flushed < |arrivals| then flushed else |arrivals|])
  }

  lemma UpToMore(arrivals: seq<seq<Request>>, n: nat)
    ensures UpTo(arrivals, n + 1) == UpTo(arrivals, n) + Arriving(arrivals, n)
  {
    if n < |arrivals| {
      ConcatMore(arrivals[..n], arrivals[n]);
      assert arrivals[..n + 1] == arrivals[..n] + [arrivals[n]];
    }
  }

  lemma Regroup<T>(done: seq<T>, before: seq<T>, more: seq<T>, batch: seq<T>, after: seq<T>, start: seq<T>,
        arrived: seq<T>)
    requires done + before == start + arrived
    requires before + more == batch + after
    ensures done + batch + after == start + (arrived + more)
  {
    calc {
      done + batch + after;
    ==
      done + (batch + after);
    ==
      done + before + more;
    ==
      start + (arrived + more);
    }
  }

  /** One batch out and the meantime's submissions in keep the account balanced. */
  lemma Balance(batches: seq<seq<Request>>, batch: seq<Request>, before: seq<Request>, after: seq<Request>,
      start: seq<Request>, arrivals: seq<seq<Request>>)
    requires Concat(batches) + before == start + UpTo(arrivals, |batches|)
    requires before + Arriving(arrivals, |batches|) == batch + after
    ensures Concat(batches + [batch]) + after == start + UpTo(arrivals, |batches| + 1)
  {
    ConcatMore(batches, batch);
    UpToMore(arrivals, |batches|);
    hide Concat, UpTo, Arriving;
    Regroup(Concat(batches), before, Arriving(arrivals, |batches|), batch, after, start, UpTo(arrivals, |batches|));
  }

  lemma StartBalanced(start: seq<Request>, arrivals: seq<seq<Request>>)
    ensures Concat([]) + start == start + UpTo(arrivals, 0)
  {
    assert start + [] == start;
  }

  ghost predicate OthersWait(before: map<Key, seq<Request>>, after: map<Key, seq<Request>>, key: Key) {
    forall other :: other != key ==> Waiting(after, other) == Waiting(before, other)
  }

  lemma StillOthersWait(before: map<Key, seq<Request>>, middle: map<Key, seq<Request>>, after: map<Key,
      seq<Request>>, key: Key)
    requires OthersWait(before, middle, key) && OthersWait(middle, after, key)
    ensures OthersWait(before, after, key)
  {
  }

  class Batcher {
    const maxBatchSize: nat
    var pending: map<Key, seq<Request>>
    var active: set<Key>
    var wg: int
    var closed: bool
    var drainClosed: bool

    constructor (maxBatchSize: nat)
      ensures Valid() && Fields() == Queue(map[], {}, 0, false) && this.maxBatchSize == maxBatchSize
    {
      this.maxBatchSize := maxBatchSize;
      pending, active, wg, closed, drainClosed := map[], {}, 0, false, false;
    }

    /** The retry loops are told to stop exactly when no more requests are accepted. */
    ghost predicate Valid()
      reads this
    {
      drainClosed <==> closed
    }

    ghost function Fields(): Queue
      reads this
    {
      Queue(pending, active, wg, closed)
    }

    /** False when the queue is closed. `started` asks the caller's process to run a loop for the key. */
    method Submit(r: Request) returns (accepted: bool, started: bool)
      modifies `pending, `active, `wg
      ensures Fields() == Submitted(old(Fields()), r)
      ensures accepted == !old(closed)
      ensures started <==> accepted && BatchKey(r) !in old(active)
    {
      if closed {
        return false, false;
      }
      var key := BatchKey(r);
      pending := pending[key := (if key in pending then pending[key] else []) + [r]];
      if key !in active {
        active := active + {key};
        wg := wg + 1;
        return true, true;
      }
      return true, false;
    }

    /** The critical section of the loop: the next batch, or the end of the loop and the hand-over of its key. */
    method NextBatch(key: Key) returns (batch: seq<Request>, ended: bool)
      modifies `pending, `active, `wg
      ensures ended <==> Waiting(old(pending), key) == []
      ensures Fields() == if ended then Retired(old(Fields()), key) else Taken(old(Fields()), key, maxBatchSize)
      ensures batch == BatchOf(Waiting(old(pending), key), maxBatchSize)
      ensures Waiting(old(pending), key) == batch + Waiting(pending, key)
      ensures OthersWait(old(pending), pending, key)
      ensures wg == old(wg) && active == if ended then old(active) - {key} else old(active)
      ensures ended ==> key !in pending
    {
      var queue := if key in pending then pending[key] else [];
      if |queue| == 0 {
        pending, active := pending - {key}, active - {key};
        return [], true;
      }
      var n := |queue|;
      if n > maxBatchSize {
        n := maxBatchSize;
      }
      pending := pending[key := queue[n..]];
      return queue[..n], false;
    }

    /** Safe to repeat: the drain channel, which must not be closed twice, is closed by the first call only. */
    method Close()
      requires Valid()
      modifies this`closed, this`drainClosed
      ensures Valid() && closed && drainClosed
    {
      if !closed {
        closed := true;
        assert !drainClosed;
        drainClosed := true;
      }
    }

    /** Submissions under a key whose loop is running. */
    method Arrive(key: Key, requests: seq<Request>)
      requires key in active && !closed
      requires forall r :: r in requests ==> BatchKey(r) == key
      modifies `pending, `active, `wg
      ensures Waiting(pending, key) == Waiting(old(pending), key) + requests
      ensures wg == old(wg) && active == old(active)
      ensures OthersWait(old(pending), pending, key)
    {
      for j := 0 to |requests|
        invariant Waiting(pending, key) == Waiting(old(pending), key) + requests[..j]
        invariant wg == old(wg) && active == old(active)
        invariant OthersWait(old(pending), pending, key)
      {
        assert requests[j] in requests;
        var accepted, started := Submit(requests[j]);
      }
      assert requests[..|requests|] == requests;
    }

    /** One round of the loop: take a batch and flush it while other callers submit; or end the loop. */
    method FlushOnce(key: Key, arriving: seq<Request>) returns (batch: seq<Request>, ended: bool)
      requires maxBatchSize >= 1 && key in active && (closed ==> arriving == [])
      requires forall r :: r in arriving ==> BatchKey(r) == key
      modifies `pending, `active, `wg
      ensures ended <==> Waiting(old(pending), key) == []
      ensures !ended ==>
        && 1 <= |batch| <= maxBatchSize
        && Waiting(old(pending), key) + arriving == batch + Waiting(pending, key)
        && (active, wg) == old((active, wg))
      ensures ended ==> key !in pending && (active, wg) == old((active - {key}, wg - 1))
      ensures OthersWait(old(pending), pending, key)
    {
      hide Taken, Retired, OthersWait;
      batch, ended := NextBatch(key);
      if ended {
        wg := wg - 1;
        return;
      }
      hide Waiting, BatchOf;
      ghost var middle := pending;
      if !closed {
        Arrive(key, arriving);
        StillOthersWait(old(pending), middle, pending, key);
        assert Waiting(old(pending), key) + arriving == batch + (Waiting(middle, key) + arriving);
      }
    }

    /**
     One run of the loop. While batch i is being flushed, arrivals[i] is what other callers
     submit under the key. Everything queued or arriving meanwhile leaves in order, in
     batches within the limit, and the loop hands its key over.
     */
    method FlushLoop(key: Key, arrivals: seq<seq<Request>>) returns (batches: seq<seq<Request>>)
      requires maxBatchSize >= 1 && key in active && (closed ==> arrivals == [])
      requires forall i, r :: 0 <= i < |arrivals| && r in arrivals[i] ==> BatchKey(r) == key
      modifies `pending, `active, `wg
      ensures Concat(batches) == Waiting(old(pending), key) + UpTo(arrivals, |batches|)
      ensures forall i :: 0 <= i < |batches| ==> 1 <= |batches[i]| <= maxBatchSize
      ensures key !in pending && (active, wg) == old((active - {key}, wg - 1))
      ensures OthersWait(old(pending), pending, key)
    {
      batches := [];
      ghost var start := Waiting(pending, key);
      StartBalanced(start, arrivals);
      assert OthersWait(old(pending), pending, key);
      hide Concat, UpTo, Waiting, BatchOf, OthersWait;
      while true
        invariant (active, wg) == old((active, wg))
        invariant Concat(batches) + Waiting(pending, key) == start + UpTo(arrivals, |batches|)
        invariant forall i :: 0 <= i < |batches| ==> 1 <= |batches[i]| <= maxBatchSize
        invariant OthersWait(old(pending), pending, key)
        decreases if |batches| < |arrivals| then |arrivals| - |batches| else 0, |Waiting(pending, key)|
      {
        ghost var earlier := pending;
        var batch, ended := FlushOnce(key, Arriving(arrivals, |batches|));
        StillOthersWait(old(pending), earlier, pending, key);
        if ended {
          return;
        }
        Balance(batches, batch, Waiting(earlier, key), Waiting(pending, key), start, arrivals);
        batches := batches + [batch];
      }
    }
  }
}
