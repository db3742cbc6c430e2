/**
 * The queue-backed sequence cache: for every key a FIFO queue of values fetched
 * in advance from a remote keyspace generator, served by `next` and `batch`.
 *
 * Every operation is modelled as one atomic step (in the source it runs under the
 * per-key lock). Values are integers drawn from a per-key remote counter.
 */
module QueueCache {
  import opened Wrappers

  /** Which poller the generator was built with: `fixQueueCache` true or false. */
  datatype Policy = Fixed | Unfixed

  /** The consecutive values lo, lo + 1, ..., lo + n - 1. */
  function Interval(lo: int, n: nat): (s: seq<int>)
    ensures |s| == n
    ensures forall i :: 0 <= i < n ==> s[i] == lo + i
  {
    seq(n, i => lo + i)
  }

  /** Two adjacent intervals make one. */
  lemma IntervalConcat(lo: int, a: nat, b: nat)
    ensures Interval(lo, a) + Interval(lo + a, b) == Interval(lo, a + b)
  {
    var l, r := Interval(lo, a) + Interval(lo + a, b), Interval(lo, a + b);
    forall i | 0 <= i < a + b ensures l[i] == r[i] {
      if i >= a {
        assert l[i] == Interval(lo + a, b)[i - a];
      }
    }
  }

  /** Splitting an interval at any point leaves two intervals. */
  lemma IntervalSplit(issued: seq<int>, queued: seq<int>, lo: int)
    requires issued + queued == Interval(lo, |issued| + |queued|)
    ensures issued == Interval(lo, |issued|)
    ensures queued == Interval(lo + |issued|, |queued|)
  {
    var all := issued + queued;
    forall i | 0 <= i < |issued| ensures issued[i] == lo + i {
      assert issued[i] == all[i];
    }
    forall i | 0 <= i < |queued| ensures queued[i] == lo + |issued| + i {
      assert queued[i] == all[|issued| + i];
    }
  }

  /** The values of an interval rise strictly, so they are pairwise distinct. */
  predicate StrictlyIncreasing(s: seq<int>) {
    forall i, j :: 0 <= i < j < |s| ==> s[i] < s[j]
  }

  /**
   * calculateBatchCount(): how many values one refill for `next` fetches.
   * The first is returned; the Fixed poller keeps `step` of them buffered,
   * the Unfixed poller `step - 1`.
   */
  function SingleBatchCount(policy: Policy, step: int): (r: int)
    requires step > 0
    ensures r >= 1
    ensures r - 1 == (if policy.Fixed? then step else step - 1)
  {
    match policy
    case Fixed => step + 1
    case Unfixed => step
  }

  /**
   * calculateBatchCount(count): how many values a refill that must deliver
   * `count` of them fetches. Fixed: always `step` more than needed. Unfixed:
   * the least multiple of `step` that covers `count`.
   */
  function BatchCount(policy: Policy, step: int, count: int): (r: int)
    requires step > 0 && count > 0
    ensures r >= count
    ensures policy.Fixed? ==> r - count == step
    ensures policy.Unfixed? ==> r % step == 0 && r - count < step
  {
    match policy
    case Fixed => step + count
    case Unfixed =>
      // count and step are positive, so Java's truncating / and % agree with Dafny's
      var q := count / step;
      var rem := count % step;
      assert count == step * q + rem && 0 <= rem < step;
      var batches := q + (if rem == 0 then 0 else 1);
      assert (step * batches) % step == 0 by { MultipleMod(step, batches); }
      step * batches
  }

  lemma MultipleMod(step: int, k: int)
    requires step > 0
    ensures (step * k) % step == 0
  {
    var m := step * k;
    assert m == step * (m / step) + m % step;
    var d := k - m / step;
    assert step * d == m % step;
    // 0 <= step * d < step leaves only d == 0
    if d > 0 {
      assert false;
    } else if d < 0 {
      assert false;
    }
  }

  /** A positive multiple of `step` that lies below `step` is impossible. */
  lemma MultipleGap(step: int, x: int)
    requires step > 0 && x % step == 0 && 0 < x
    ensures x >= step
  {
    assert x == step * (x / step);
    assert x / step >= 1;
    assert step * (x / step) >= step * 1;
  }

  /** The Unfixed batch is the LEAST multiple of `step` that is at least `count`. */
  lemma {:induction false} UnfixedBatchIsLeast(step: int, count: int, m: int)
    requires step > 0 && count > 0
    requires m % step == 0 && m >= count
    ensures BatchCount(Unfixed, step, count) <= m
  {
    var r := BatchCount(Unfixed, step, count);
    if r > m {
      assert (r - m) % step == 0 by {
        assert r == step * (r / step);
        assert m == step * (m / step);
        assert r - m == step * (r / step - m / step);
        MultipleMod(step, r / step - m / step);
      }
      MultipleGap(step, r - m);
      assert false;
    }
  }

  /** How many values `next` fetches when `queued` values are buffered: none unless the queue is empty. */
  function NextFetchSize(policy: Policy, step: int, queued: nat): (n: nat)
    requires step > 0
    ensures n == 0 <==> queued > 0
    ensures n > 0 ==> n - 1 == (if policy.Fixed? then step else step - 1)
  {
    if queued > 0 then 0 else SingleBatchCount(policy, step)
  }

  /**
   * How many values `batch(count)` fetches when `queued` values are buffered:
   * none when the queue already holds `count`, otherwise a refill for the
   * shortfall `count - queued`. After a refill the Fixed poller leaves exactly
   * `step` values buffered, the Unfixed poller fewer than `step`.
   */
  function BatchFetchSize(policy: Policy, step: int, queued: nat, count: int): (n: nat)
    requires step > 0 && count > 0
    ensures n == 0 <==> queued >= count
    ensures n > 0 ==> queued + n >= count
    ensures n > 0 && policy.Fixed? ==> queued + n - count == step
    ensures n > 0 && policy.Unfixed? ==> n % step == 0 && queued + n - count < step
  {
    if queued >= count then 0 else BatchCount(policy, step, count - queued)
  }

  /**
   * What one `next` does to a key's queue: with `queued` buffered and the
   * counter at `start`, the refill fetches `fetchSize` values. If it had to
   * fetch and the remote store is down, nothing changes and the call fails;
   * otherwise the value served followed by the queue left behind is exactly
   * the old queue followed by the fetched values.
   */
  ghost predicate NextServed(fetchSize: nat, online: bool, queued: seq<int>, start: int,
                             r: Result<int>, queue': seq<int>, next': int)
  {
    if fetchSize > 0 && !online then
      r.Failure? && queue' == queued && next' == start
    else
      && r.Success?
      && [r.value] + queue' == queued + Interval(start, fetchSize)
      && next' == start + fetchSize
  }

  /** The same for `batch(count)`: exactly `count` values are served, head of the queue first. */
  ghost predicate BatchServed(fetchSize: nat, count: int, online: bool, queued: seq<int>, start: int,
                              r: Result<seq<int>>, queue': seq<int>, next': int)
  {
    if fetchSize > 0 && !online then
      r.Failure? && queue' == queued && next' == start
    else
      && r.Success?
      && |r.value| == count
      && r.value + queue' == queued + Interval(start, fetchSize)
      && next' == start + fetchSize
  }

  /** The next value of a per-key counter; a key never asked for starts at 1. */
  function CounterAt<K>(next: map<K, int>, key: K): int {
    if key in next then next[key] else 1
  }

  /**
   * The remote keyspace generator, reduced to what the cache relies on: one
   * counter per key, handing out consecutive values; a key never asked for
   * starts at 1. When `online` is false every fetch fails.
   */
  class KeyspaceCounter<K(==)> {
    var next: map<K, int>
    var online: bool

    function NextOf(key: K): int
      reads this
    {
      CounterAt(next, key)
    }

    constructor (online: bool)
      ensures next == map[] && this.online == online
    {
      next := map[];
      this.online := online;
    }

    /** batchGenerateByKey(key, n): exactly `n` consecutive values, or a remote failure. */
    method BatchGenerateByKey(key: K, n: nat) returns (r: Result<seq<int>>)
      modifies this`next
      ensures online ==> r == Success(Interval(old(NextOf(key)), n))
      ensures online ==> next == old(next)[key := old(NextOf(key)) + n]
      ensures !online ==> r == Failure(RemoteError) && next == old(next)
    {
      if !online {
        return Failure(RemoteError);
      }
      var start := NextOf(key);
      r := Success(Interval(start, n));
      next := next[key := start + n];
    }
  }

  class QueueCacheSequenceGenerator<K(==)> {
    /** The local cache: one FIFO queue per key, head first. */
    var cache: map<K, seq<int>>
    const keyspace: KeyspaceCounter<K>
    const policy: Policy
    const cacheStepSize: int

    /** Everything handed to callers so far, per key, in order. */
    ghost var issued: map<K, seq<int>>
    /** The counter value at the moment each key's queue was created. */
    ghost var origin: map<K, int>

    /**
     * Conservation and contiguity: for every key, the values issued so far
     * followed by the values still buffered are exactly the values fetched
     * from the counter since the queue was created, in order, without gaps.
     */
    ghost predicate Valid()
      reads this, keyspace
    {
      cacheStepSize > 0 && Consistent(cache, issued, origin, keyspace.next)
    }

    static ghost predicate Consistent(cache: map<K, seq<int>>, issued: map<K, seq<int>>,
                                      origin: map<K, int>, next: map<K, int>)
    {
      && issued.Keys == cache.Keys
      && origin.Keys == cache.Keys
      && forall k :: k in cache ==> Accounted(issued[k], cache[k], origin[k], CounterAt(next, k))
    }

    static ghost predicate Accounted(issued: seq<int>, queued: seq<int>, origin: int, next: int) {
      && next == origin + |issued| + |queued|
      && issued + queued == Interval(origin, |issued| + |queued|)
    }

    /** Serving one key keeps the accounting of every other key. */
    static lemma ConsistentUpdate(cache: map<K, seq<int>>, issued: map<K, seq<int>>,
                                  origin: map<K, int>, next: map<K, int>,
                                  key: K, queued: seq<int>, served: seq<int>, o: int, next': map<K, int>)
      requires Consistent(cache, issued, origin, next)
      requires next' - {key} == next - {key}
      requires Accounted(served, queued, o, CounterAt(next', key))
      ensures Consistent(cache[key := queued], issued[key := served], origin[key := o], next')
    {
      forall k | k in cache && k != key
        ensures CounterAt(next', k) == CounterAt(next, k)
      {
        assert k in next' <==> k in next - {key};
        if k in next {
          assert next'[k] == (next - {key})[k];
        }
      }
    }

    ghost function Queued(key: K): seq<int>
      reads this
    {
      if key in cache then cache[key] else []
    }

    ghost function IssuedFor(key: K): seq<int>
      reads this
    {
      if key in issued then issued[key] else []
    }

    constructor (keyspace: KeyspaceCounter<K>, fixQueueCache: bool, cacheStepSize: int)
      requires cacheStepSize > 0
      ensures Valid()
      ensures cache == map[] && this.keyspace == keyspace && this.cacheStepSize == cacheStepSize
      ensures policy == if fixQueueCache then Fixed else Unfixed
    {
      this.keyspace := keyspace;
      this.cacheStepSize := cacheStepSize;
      policy := if fixQueueCache then Fixed else Unfixed;
      cache := map[];
      issued := map[];
      origin := map[];
    }

    /**
     * doGenerateByKey: serve one value for `key`. An absent key first gets a
     * new empty queue; a non-empty queue is only polled; an empty one is
     * refilled. Other keys' queues and counters are untouched.
     */
    method DoGenerateByKey(key: K) returns (r: Result<int>)
      requires Valid()
      modifies this`cache, this`issued, this`origin, keyspace`next
      ensures Valid()
      ensures key in cache && cache == old(cache)[key := cache[key]]
      ensures keyspace.next - {key} == old(keyspace.next) - {key}
      ensures NextServed(NextFetchSize(policy, cacheStepSize, |old(Queued(key))|), keyspace.online,
                         old(Queued(key)), old(keyspace.NextOf(key)), r, cache[key], keyspace.NextOf(key))
      ensures issued[key] == old(IssuedFor(key)) + (if r.Success? then [r.value] else [])
      ensures issued == old(issued)[key := issued[key]] && origin == old(origin)[key := origin[key]]
    {
      ghost var queued, was, start := Queued(key), IssuedFor(key), keyspace.NextOf(key);
      ghost var o := if key in origin then origin[key] else start;
      if key !in cache {
        r := CreateQueueAndPoll(key);
      } else {
        r := PollQueue(key);
      }
      ghost var served := if r.Success? then [r.value] else [];
      issued := issued[key := was + served];
      origin := origin[key := o];
      assert Valid() by {
        AccountedAfterServe(was, queued, o, start, served, cache[key], keyspace.NextOf(key));
        ConsistentUpdate(old(cache), old(issued), old(origin), old(keyspace.next), key, cache[key], issued[key], o, keyspace.next);
      }
    }

    /** doGenerateByKey, first access (lines under the creation lock): install an empty queue and refill it at once. */
    method CreateQueueAndPoll(key: K) returns (r: Result<int>)
      requires key !in cache && cacheStepSize > 0
      modifies this`cache, keyspace`next
      ensures key in cache && cache == old(cache)[key := cache[key]]
      ensures keyspace.next - {key} == old(keyspace.next) - {key}
      ensures NextServed(NextFetchSize(policy, cacheStepSize, 0), keyspace.online,
                         [], old(keyspace.NextOf(key)), r, cache[key], keyspace.NextOf(key))
    {
      cache := cache[key := []];
      r := CacheAndPoll(key);
    }

    /** doGenerateByKey, existing queue: poll the head, or refill when the queue is empty. */
    method PollQueue(key: K) returns (r: Result<int>)
      requires key in cache && cacheStepSize > 0
      modifies this`cache, keyspace`next
      ensures key in cache && cache == old(cache)[key := cache[key]]
      ensures keyspace.next - {key} == old(keyspace.next) - {key}
      ensures NextServed(NextFetchSize(policy, cacheStepSize, |old(cache[key])|), keyspace.online,
                         old(cache[key]), old(keyspace.NextOf(key)), r, cache[key], keyspace.NextOf(key))
    {
      if cache[key] == [] {
        r := CacheAndPoll(key);
      } else {
        // queue.poll()
        r := Success(cache[key][0]);
        cache := cache[key := cache[key][1..]];
      }
    }

    /**
     * doBatchGenerateByKey: serve `count` values for `key`. An absent key first
     * gets a new empty queue and a refill; a queue holding at least `count`
     * values is only drained; a shorter one is topped up. Other keys' queues and
     * counters are untouched.
     */
    method DoBatchGenerateByKey(key: K, count: int) returns (r: Result<seq<int>>)
      requires Valid() && count > 0
      modifies this`cache, this`issued, this`origin, keyspace`next
      ensures Valid()
      ensures key in cache && cache == old(cache)[key := cache[key]]
      ensures keyspace.next - {key} == old(keyspace.next) - {key}
      ensures BatchServed(BatchFetchSize(policy, cacheStepSize, |old(Queued(key))|, count), count, keyspace.online,
                          old(Queued(key)), old(keyspace.NextOf(key)), r, cache[key], keyspace.NextOf(key))
      ensures issued[key] == old(IssuedFor(key)) + (if r.Success? then r.value else [])
      ensures issued == old(issued)[key := issued[key]] && origin == old(origin)[key := origin[key]]
    {
      ghost var queued, was, start := Queued(key), IssuedFor(key), keyspace.NextOf(key);
      ghost var o := if key in origin then origin[key] else start;
      if key !in cache {
        r := CreateQueueAndBatchPoll(key, count);
      } else {
        r := BatchPollQueue(key, count);
      }
      ghost var served := if r.Success? then r.value else [];
      issued := issued[key := was + served];
      origin := origin[key := o];
      assert Valid() by {
        AccountedAfterServe(was, queued, o, start, served, cache[key], keyspace.NextOf(key));
        ConsistentUpdate(old(cache), old(issued), old(origin), old(keyspace.next), key, cache[key], issued[key], o, keyspace.next);
      }
    }

    /** doBatchGenerateByKey, first access: install an empty queue and refill it at once. */
    method CreateQueueAndBatchPoll(key: K, count: int) returns (r: Result<seq<int>>)
      requires key !in cache && cacheStepSize > 0 && count > 0
      modifies this`cache, keyspace`next
      ensures key in cache && cache == old(cache)[key := cache[key]]
      ensures keyspace.next - {key} == old(keyspace.next) - {key}
      ensures BatchServed(BatchFetchSize(policy, cacheStepSize, 0, count), count, keyspace.online,
                          [], old(keyspace.NextOf(key)), r, cache[key], keyspace.NextOf(key))
    {
      cache := cache[key := []];
      r := CacheAndBatchPoll(key, count);
    }

    /** doBatchGenerateByKey, existing queue: drain it when it holds enough, otherwise top it up. */
    method BatchPollQueue(key: K, count: int) returns (r: Result<seq<int>>)
      requires key in cache && cacheStepSize > 0 && count > 0
      modifies this`cache, keyspace`next
      ensures key in cache && cache == old(cache)[key := cache[key]]
      ensures keyspace.next - {key} == old(keyspace.next) - {key}
      ensures BatchServed(BatchFetchSize(policy, cacheStepSize, |old(cache[key])|, count), count, keyspace.online,
                          old(cache[key]), old(keyspace.NextOf(key)), r, cache[key], keyspace.NextOf(key))
    {
      var queueRemain := |cache[key]|;
      if queueRemain < count {
        r := CacheAndBatchPollRemain(key, queueRemain, count);
      } else {
        var polled := BatchPoll(key, count);
        r := Success(polled);
        assert old(cache[key]) == polled + cache[key];
      }
    }

    /** Re-establishes the accounting of one key after values were served from queue and refill. */
    static lemma AccountedAfterServe(issued: seq<int>, queued: seq<int>, origin: int, start: int,
                                     served: seq<int>, rest: seq<int>, next: int)
      requires Accounted(issued, queued, origin, start)
      requires next >= start && served + rest == queued + Interval(start, next - start)
      ensures Accounted(issued + served, rest, origin, next)
    {
      var n := next - start;
      var before := |issued| + |queued|;
      assert |served| + |rest| == |queued| + n;
      IntervalConcat(origin, before, n);
      calc {
        (issued + served) + rest;
        issued + (served + rest);
        issued + (queued + Interval(start, n));
        (issued + queued) + Interval(origin + before, n);
        Interval(origin, before) + Interval(origin + before, n);
        Interval(origin, before + n);
      }
    }

    /** cacheAndPoll: refill an (empty) queue, return the first fetched value, buffer the rest. */
    method CacheAndPoll(key: K) returns (r: Result<int>)
      requires key in cache && cacheStepSize > 0
      modifies this`cache, keyspace`next
      ensures var fetched := Interval(old(keyspace.NextOf(key)), SingleBatchCount(policy, cacheStepSize));
              if keyspace.online then
                && r == Success(fetched[0])
                && cache == old(cache)[key := old(cache[key]) + fetched[1..]]
                && keyspace.next == old(keyspace.next)[key := old(keyspace.NextOf(key)) + |fetched|]
              else
                r.Failure? && cache == old(cache) && keyspace.next == old(keyspace.next)
    {
      var list := keyspace.BatchGenerateByKey(key, SingleBatchCount(policy, cacheStepSize));
      if list.Failure? {
        return Failure(list.error);
      }
      cache := cache[key := cache[key] + list.value[1..]];
      r := Success(list.value[0]);
    }

    /** cacheAndBatchPoll(queue, key, count): refill, return the first `count` fetched values, buffer the rest. */
    method CacheAndBatchPoll(key: K, count: int) returns (r: Result<seq<int>>)
      requires key in cache && cacheStepSize > 0 && count > 0
      modifies this`cache, keyspace`next
      ensures var fetched := Interval(old(keyspace.NextOf(key)), BatchCount(policy, cacheStepSize, count));
              if keyspace.online then
                && r == Success(fetched[..count])
                && cache == old(cache)[key := old(cache[key]) + fetched[count..]]
                && keyspace.next == old(keyspace.next)[key := old(keyspace.NextOf(key)) + |fetched|]
              else
                r.Failure? && cache == old(cache) && keyspace.next == old(keyspace.next)
    {
      var list := keyspace.BatchGenerateByKey(key, BatchCount(policy, cacheStepSize, count));
      if list.Failure? {
        return Failure(list.error);
      }
      cache := cache[key := cache[key] + list.value[count..]];
      r := Success(list.value[..count]);
    }

    /**
     * cacheAndBatchPoll(queue, key, queueRemain, count): the queue holds
     * `remain < count` values. Fetch first (a failed fetch leaves the queue as
     * it was), buffer the surplus beyond the shortfall, and only then drain the
     * old values; the result is the old values followed by the shortfall.
     */
    method CacheAndBatchPollRemain(key: K, remain: int, count: int) returns (r: Result<seq<int>>)
      requires key in cache && cacheStepSize > 0
      requires 0 <= remain == |cache[key]| < count
      modifies this`cache, keyspace`next
      ensures var fetched := Interval(old(keyspace.NextOf(key)), BatchFetchSize(policy, cacheStepSize, remain, count));
              if keyspace.online then
                && r == Success(old(cache[key]) + fetched[..count - remain])
                && cache == old(cache)[key := fetched[count - remain..]]
                && keyspace.next == old(keyspace.next)[key := old(keyspace.NextOf(key)) + |fetched|]
              else
                r.Failure? && cache == old(cache) && keyspace.next == old(keyspace.next)
    {
      if remain == 0 {
        ghost var fetched := Interval(keyspace.NextOf(key), BatchCount(policy, cacheStepSize, count));
        assert cache[key] == [];
        r := CacheAndBatchPoll(key, count);
        assert old(cache[key]) + fetched[..count] == fetched[..count];
        assert old(cache[key]) + fetched[count..] == fetched[count..];
        return;
      }
      var compensateCount := count - remain;
      var list := keyspace.BatchGenerateByKey(key, BatchCount(policy, cacheStepSize, compensateCount));
      if list.Failure? {
        return Failure(list.error);
      }
      cache := cache[key := cache[key] + list.value[compensateCount..]];
      var polled := BatchPoll(key, remain);
      r := Success(polled + list.value[..compensateCount]);
    }

    /** batchPoll: dequeue the first `count` values of the queue, in FIFO order. */
    method BatchPoll(key: K, count: int) returns (polled: seq<int>)
      requires key in cache && 0 <= count <= |cache[key]|
      modifies this`cache
      ensures polled == old(cache[key])[..count]
      ensures cache == old(cache)[key := old(cache[key])[count..]]
    {
      polled := [];
      for i := 0 to count
        invariant key in cache
        invariant polled == old(cache[key])[..i]
        invariant cache == old(cache)[key := old(cache[key])[i..]]
      {
        // queue.poll()
        polled := polled + [cache[key][0]];
        cache := cache[key := cache[key][1..]];
      }
    }
  }

  /** The values a batch serves are the first `count` of the old queue followed by the fetched values; the rest stays queued. */
  lemma BatchServedIsFifo(fetchSize: nat, count: int, online: bool, queued: seq<int>, start: int,
                          r: Result<seq<int>>, queue': seq<int>, next': int)
    requires BatchServed(fetchSize, count, online, queued, start, r, queue', next') && r.Success?
    ensures r.value == (queued + Interval(start, fetchSize))[..count]
    ensures queue' == (queued + Interval(start, fetchSize))[count..]
  {
    assert (r.value + queue')[..count] == r.value;
    assert (r.value + queue')[count..] == queue';
  }

  /**
   * After a batch that had to refill, the Fixed poller leaves exactly `step`
   * values buffered and the Unfixed poller fewer than `step`.
   */
  lemma RefillLeavesBuffered(policy: Policy, step: int, count: int, online: bool, queued: seq<int>, start: int,
                             r: Result<seq<int>>, queue': seq<int>, next': int)
    requires step > 0 && count > 0
    requires BatchServed(BatchFetchSize(policy, step, |queued|, count), count, online, queued, start, r, queue', next')
    requires r.Success? && |queued| < count
    ensures policy.Fixed? ==> |queue'| == step
    ensures policy.Unfixed? ==> |queue'| < step
  {
    var n := BatchFetchSize(policy, step, |queued|, count);
    assert |r.value + queue'| == |queued + Interval(start, n)|;
  }

  /**
   * Every value handed out for a key is distinct from, and smaller than, every
   * value handed out after it and every value still buffered for that key.
   */
  lemma IssuedStrictlyIncreasing<K>(g: QueueCacheSequenceGenerator<K>, key: K)
    requires g.Valid() && key in g.cache
    ensures StrictlyIncreasing(g.issued[key])
    ensures forall i, j :: 0 <= i < |g.issued[key]| && 0 <= j < |g.cache[key]| ==> g.issued[key][i] < g.cache[key][j]
    ensures StrictlyIncreasing(g.cache[key])
  {
    IntervalSplit(g.issued[key], g.cache[key], g.origin[key]);
  }

  /**
   * The documented batch sizes of both pollers. After a batch the queue keeps
   * what was buffered plus what was fetched, minus what was served
   * (`BatchServedIsFifo`).
   */
  lemma DocumentedBatchSizes()
    // Fixed, step 5, nothing buffered, 10 wanted: 15 generated, 5 stay buffered
    ensures var n := BatchFetchSize(Fixed, 5, 0, 10); n == 15 && 0 + n - 10 == 5
    // Fixed, step 5: the first `next` fetches 6 and keeps 5; a batch of 10 over 5 buffered fetches 10 more and keeps 5
    ensures NextFetchSize(Fixed, 5, 0) == 6 && 0 + NextFetchSize(Fixed, 5, 0) - 1 == 5
    ensures var n := BatchFetchSize(Fixed, 5, 5, 10); n == 10 && 5 + n - 10 == 5
    // Unfixed, step 3, 2 buffered, 5 wanted: 3 generated, nothing left buffered
    ensures var n := BatchFetchSize(Unfixed, 3, 2, 5); n == 3 && 2 + n - 5 == 0
    // Unfixed, step 3, empty queue, 5 wanted: 6 generated, 1 stays buffered
    ensures var n := BatchFetchSize(Unfixed, 3, 0, 5); n == 6 && 0 + n - 5 == 1
  {
  }

  /** The slices of the Fixed scenario: 1..6 fetched first, then 7..16. */
  lemma FixedScenarioSlices()
    ensures Interval(1, 6)[0] == 1 && Interval(1, 6)[1..] == Interval(2, 5)
    ensures (Interval(2, 5) + Interval(7, 10))[..10] == Interval(2, 10)
    ensures (Interval(2, 5) + Interval(7, 10))[10..] == Interval(12, 5)
    ensures Interval(12, 5)[0] == 12
  {
    var all := Interval(2, 5) + Interval(7, 10);
    forall i | 0 <= i < 15 ensures all[i] == 2 + i {
      if i >= 5 {
        assert all[i] == Interval(7, 10)[i - 5];
      }
    }
  }

  /** A caller's view of the Fixed poller with step 5: the numbers each call hands out. */
  method FixedPolicyScenario() returns (first: Result<int>, batch: Result<seq<int>>, last: Result<int>)
    ensures first == Success(1)
    ensures batch == Success(Interval(2, 10))
    ensures last == Success(12)
  {
    var remote := new KeyspaceCounter<string>(true);
    var g := new QueueCacheSequenceGenerator(remote, true, 5);
    FixedScenarioSlices();
    first := g.DoGenerateByKey("2024-05-01");
    assert [first.value] + g.cache["2024-05-01"] == Interval(1, 6);
    assert g.cache["2024-05-01"] == Interval(2, 5);
    batch := g.DoBatchGenerateByKey("2024-05-01", 10);
    assert batch.value + g.cache["2024-05-01"] == Interval(2, 5) + Interval(7, 10);
    assert g.cache["2024-05-01"] == Interval(12, 5);
    last := g.DoGenerateByKey("2024-05-01");
    assert [last.value] + g.cache["2024-05-01"] == Interval(12, 5);
  }
}
