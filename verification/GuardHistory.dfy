/**
  Unbounded reference histories for the progress guard's bounded caches.

  Content stands for its own digest, and a tracked path-to-hash map for its own
  signature: hashing is taken to be injective.
*/
module GuardHistory {
  import opened Prelude

  const HISTORY_LIMIT: nat := 512
  const TRACKED_PATH_LIMIT: nat := 1024
  const WAITING_WINDOW: nat := 8
  const WAITING_THRESHOLD: nat := 4
  const MIN_REUSABLE_BYTES: nat := 512

  // ---------------------------------------------------------------- sequences

  function LastN<T>(s: seq<T>, n: nat): (r: seq<T>)
    ensures |r| == if |s| <= n then |s| else n
  {
    if |s| <= n then s else s[|s| - n..]
  }

  /** x is among the last n. */
  ghost predicate AmongLast<T(!new)>(r: seq<T>, n: nat, x: T) {
    exists k :: 0 <= k < |r| && |r| - n <= k && r[k] == x
  }

  lemma InTail<T(!new)>(r: seq<T>, n: nat, x: T)
    ensures x in LastN(r, n) <==> AmongLast(r, n, x)
  {
    var tail := LastN(r, n);
    var from := |r| - |tail|;
    if x in tail {
      var k :| 0 <= k < |tail| && tail[k] == x;
      assert r[from + k] == x;
    }
    if k :| 0 <= k < |r| && |r| - n <= k && r[k] == x {
      assert tail[k - from] == x;
    }
  }

  /** s with every x dropped. */
  function Without<T(==,!new)>(s: seq<T>, x: T): (r: seq<T>)
    ensures forall y :: y in r <==> y in s && y != x
  {
    if s == [] then []
    else
      var init := Without(s[..|s| - 1], x);
      if s[|s| - 1] == x then init else init + [s[|s| - 1]]
  }

  lemma {:induction false} WithoutAbsent<T(!new)>(s: seq<T>, x: T)
    requires x !in s
    ensures Without(s, x) == s
  {
    if s != [] { WithoutAbsent(s[..|s| - 1], x); }
  }

  lemma {:induction false} WithoutConcat<T(!new)>(a: seq<T>, b: seq<T>, x: T)
    ensures Without(a + b, x) == Without(a, x) + Without(b, x)
  {
    if b == [] {
      assert a + b == a;
    } else {
      WithoutConcat(a, b[..|b| - 1], x);
      assert (a + b)[..|a + b| - 1] == a + b[..|b| - 1];
    }
  }

  lemma {:induction false} WithoutDistinct<T(!new)>(s: seq<T>, x: T)
    requires Distinct(s)
    ensures Distinct(Without(s, x)) && |Without(s, x)| == if x in s then |s| - 1 else |s|
  {
    if s != [] {
      var init := s[..|s| - 1];
      WithoutDistinct(init, x);
      assert s == init + [s[|s| - 1]];
      forall k | 0 <= k < |Without(init, x)| ensures Without(init, x)[k] != s[|s| - 1] {
        assert Without(init, x)[k] in init;
      }
    }
  }

  lemma DistinctSize<T(!new)>(s: seq<T>)
    requires Distinct(s)
    ensures |Elements(s)| == |s|
    decreases |s|
  {
    if s != [] {
      var init, last := s[..|s| - 1], s[|s| - 1];
      DistinctSize(init);
      assert s == init + [last] && Elements(s) == Elements(init) + {last};
      assert last !in init;
    }
  }

  // ---------------------------------------------------------------- the log of a session

  /** What a tool call left in the session: an observation (in full, or as a marker), or an applied mutation. */
  datatype Entry = Observed(signature: string, content: string, full: bool) | Mutated

  datatype Observation = Observation(signature: string, content: string)

  /** The recorded observations since the last applied mutation. */
  function SinceMutation(log: seq<Entry>): seq<Observation> {
    if log == [] then []
    else
      var init := SinceMutation(log[..|log| - 1]);
      match log[|log| - 1]
      case Observed(signature, content, _) => init + [Observation(signature, content)]
      case Mutated => []
  }

  /** Signatures by their latest observation, oldest first. */
  function Recency(obs: seq<Observation>): seq<string> {
    if obs == [] then []
    else
      var s := obs[|obs| - 1].signature;
      Without(Recency(obs[..|obs| - 1]), s) + [s]
  }

  function Latest(obs: seq<Observation>, signature: string): Option<string> {
    if obs == [] then None
    else if obs[|obs| - 1].signature == signature then Some(obs[|obs| - 1].content)
    else Latest(obs[..|obs| - 1], signature)
  }

  lemma {:induction false} RecencyDistinct(obs: seq<Observation>)
    ensures Distinct(Recency(obs))
    ensures forall s :: s in Recency(obs) <==> Latest(obs, s).Some?
  {
    if obs != [] {
      var init, s := obs[..|obs| - 1], obs[|obs| - 1].signature;
      RecencyDistinct(init);
      WithoutDistinct(Recency(init), s);
    }
  }

  /** The bounded cache agrees with the unbounded history. */
  ghost predicate CacheOk(obs: seq<Observation>, queue: seq<string>, cache: map<string, string>) {
    && queue == LastN(Recency(obs), HISTORY_LIMIT)
    && cache.Keys == Elements(queue)
    && forall s :: s in cache ==> Latest(obs, s) == Some(cache[s])
  }

  /** What `remember_observation` does to the queue. */
  function Requeue(queue: seq<string>, s: string): seq<string> {
    LastN(Without(queue, s) + [s], HISTORY_LIMIT)
  }

  /** Moving x to the back of a tail is moving it to the back of the whole. */
  lemma RequeueTail<T(!new)>(front: seq<T>, queue: seq<T>, x: T)
    requires Distinct(front + queue)
    ensures LastN(Without(front + queue, x) + [x], |queue|) == LastN(Without(queue, x) + [x], |queue|)
  {
    WithoutConcat(front, queue, x);
    assert Distinct(queue) by {
      assert forall i :: 0 <= i < |queue| ==> (front + queue)[|front| + i] == queue[i];
    }
    WithoutDistinct(queue, x);
    var tail := Without(queue, x) + [x];
    assert Without(front, x) + Without(queue, x) + [x] == Without(front, x) + tail;
    TailOfConcat(Without(front, x), tail, |queue|);
  }

  /** Moving a signature to the back of the bounded queue is moving it to the back of the history. */
  lemma RequeueIsRecency(obs: seq<Observation>, o: Observation)
    ensures Requeue(LastN(Recency(obs), HISTORY_LIMIT), o.signature) == LastN(Recency(obs + [o]), HISTORY_LIMIT)
  {
    var r := Recency(obs);
    RecencyDistinct(obs);
    assert (obs + [o])[..|obs|] == obs;
    if |r| > HISTORY_LIMIT {
      var front, queue := r[..|r| - HISTORY_LIMIT], r[|r| - HISTORY_LIMIT..];
      assert front + queue == r;
      RequeueTail(front, queue, o.signature);
    }
  }

  lemma TailOfConcat<T>(a: seq<T>, b: seq<T>, n: nat)
    requires |b| >= n
    ensures LastN(a + b, n) == LastN(b, n)
  {
  }

  /** The queue and the cache after an observation: requeue, then drop the oldest if there are too many. */
  function Remembered(queue: seq<string>, cache: map<string, string>, o: Observation): (seq<string>, map<string, string>) {
    var q := (if o.signature in cache then Without(queue, o.signature) else queue) + [o.signature];
    var m := cache[o.signature := o.content];
    if |q| > HISTORY_LIMIT then (q[1..], m - {q[0]}) else (q, m)
  }

  lemma RequeueKeys(queue: seq<string>, s: string)
    requires Distinct(queue)
    ensures Distinct(Without(queue, s) + [s])
    ensures Elements(Without(queue, s) + [s]) == Elements(queue) + {s}
  {
    WithoutDistinct(queue, s);
  }

  lemma RememberedQueue(queue: seq<string>, cache: map<string, string>, o: Observation)
    requires Distinct(queue) && |queue| <= HISTORY_LIMIT && cache.Keys == Elements(queue)
    ensures var (queue', cache') := Remembered(queue, cache, o);
            queue' == Requeue(queue, o.signature) && cache'.Keys == Elements(queue')
  {
    var s := o.signature;
    assert s in cache <==> s in queue;
    if s !in queue { WithoutAbsent(queue, s); }
    var q := Without(queue, s) + [s];
    RequeueKeys(queue, s);
    RequeueSize(queue, s);
    var m := cache[s := o.content];
    assert m.Keys == Elements(queue) + {s} == Elements(q);
    if |q| > HISTORY_LIMIT { RequeueDrop(q, m); }
  }

  lemma RequeueSize(queue: seq<string>, s: string)
    requires Distinct(queue) && |queue| <= HISTORY_LIMIT
    ensures |Without(queue, s) + [s]| <= HISTORY_LIMIT + 1
  {
    WithoutDistinct(queue, s);
  }

  lemma RequeueDrop(q: seq<string>, m: map<string, string>)
    requires Distinct(q) && |q| == HISTORY_LIMIT + 1 && m.Keys == Elements(q)
    ensures (m - {q[0]}).Keys == Elements(q[1..]) && q[1..] == LastN(q, HISTORY_LIMIT)
  {
    DropFirst(q);
  }

  lemma DistinctTail<T(!new)>(s: seq<T>, n: nat)
    requires Distinct(s)
    ensures Distinct(LastN(s, n))
  {
  }

  /** Recording an observation keeps the cache in agreement. */
  lemma RememberedOk(obs: seq<Observation>, queue: seq<string>, cache: map<string, string>, o: Observation)
    requires CacheOk(obs, queue, cache)
    ensures var (queue', cache') := Remembered(queue, cache, o); CacheOk(obs + [o], queue', cache')
  {
    RecencyDistinct(obs);
    DistinctTail(Recency(obs), HISTORY_LIMIT);
    RememberedQueue(queue, cache, o);
    RequeueIsRecency(obs, o);
    LatestSnoc(obs, o);
  }

  /** The queue and the cache after these observations. */
  function CacheAfter(obs: seq<Observation>): (seq<string>, map<string, string>) {
    if obs == [] then ([], map[])
    else
      var (queue, cache) := CacheAfter(obs[..|obs| - 1]);
      Remembered(queue, cache, obs[|obs| - 1])
  }

  /** It holds the latest content of exactly the 512 most recently observed signatures. */
  lemma {:induction false} CacheIsExact(obs: seq<Observation>)
    ensures CacheOk(obs, CacheAfter(obs).0, CacheAfter(obs).1)
  {
    if obs != [] {
      var init := obs[..|obs| - 1];
      CacheIsExact(init);
      RememberedOk(init, CacheAfter(init).0, CacheAfter(init).1, obs[|obs| - 1]);
      assert obs == init + [obs[|obs| - 1]];
    }
  }

  lemma CacheSnoc(obs: seq<Observation>, o: Observation)
    ensures CacheAfter(obs + [o]) == Remembered(CacheAfter(obs).0, CacheAfter(obs).1, o)
  {
    assert (obs + [o])[..|obs|] == obs;
  }

  lemma LatestSnoc(obs: seq<Observation>, o: Observation)
    ensures forall s :: Latest(obs + [o], s) == if s == o.signature then Some(o.content) else Latest(obs, s)
  {
    assert (obs + [o])[..|obs|] == obs;
  }

  // ---------------------------------------------------------------- markers are justified

  ghost predicate NoMutation(log: seq<Entry>, from: nat) {
    forall k :: from <= k < |log| ==> !log[k].Mutated?
  }

  /** Position j delivered this very content in full, and nothing was edited since. */
  ghost predicate Delivered(log: seq<Entry>, j: nat, signature: string, content: string) {
    j < |log| && log[j] == Observed(signature, content, true) && NoMutation(log, j)
  }

  ghost predicate JustifiedAt(log: seq<Entry>, k: nat)
    requires k < |log| && log[k].Observed?
  {
    exists j :: Delivered(log[..k], j, log[k].signature, log[k].content)
  }

  /** Every marker of the session points at an earlier full delivery with no edit in between. */
  ghost predicate Justified(log: seq<Entry>) {
    forall k :: 0 <= k < |log| && log[k].Observed? && !log[k].full ==> JustifiedAt(log, k)
  }

  lemma DeliveredLater(log: seq<Entry>, e: Entry, j: nat, signature: string, content: string)
    requires Delivered(log, j, signature, content) && !e.Mutated?
    ensures Delivered(log + [e], j, signature, content)
  {
  }

  /** The latest content of a signature was delivered in full, directly or through its markers. */
  lemma {:induction false} LatestWasDelivered(log: seq<Entry>, signature: string) returns (j: nat)
    requires Justified(log) && Latest(SinceMutation(log), signature).Some?
    ensures Delivered(log, j, signature, Latest(SinceMutation(log), signature).value)
    decreases |log|
  {
    var init, e := log[..|log| - 1], log[|log| - 1];
    assert log == init + [e];
    assert Justified(init) by {
      forall k | 0 <= k < |init| && init[k].Observed? && !init[k].full ensures JustifiedAt(init, k) {
        assert JustifiedAt(log, k) && log[..k] == init[..k];
      }
    }
    if e.Observed? {
      var obs := SinceMutation(init);
      assert (obs + [Observation(e.signature, e.content)])[..|obs|] == obs;
      if e.signature == signature {
        if e.full {
          j := |init|;
        } else {
          assert JustifiedAt(log, |init|);
          j :| Delivered(log[..|init|], j, signature, e.content);
          DeliveredLater(init, e, j, signature, e.content);
        }
        return;
      }
    }
    j := LatestWasDelivered(init, signature);
    DeliveredLater(init, e, j, signature, Latest(SinceMutation(log), signature).value);
  }

  /** Extending the log keeps it justified if a new marker repeats the latest content. */
  lemma JustifiedGrows(log: seq<Entry>, e: Entry)
    requires Justified(log)
    requires e.Observed? && !e.full ==> Latest(SinceMutation(log), e.signature) == Some(e.content)
    ensures Justified(log + [e])
  {
    var after := log + [e];
    forall k | 0 <= k < |after| && after[k].Observed? && !after[k].full ensures JustifiedAt(after, k) {
      if k < |log| {
        assert JustifiedAt(log, k) && after[..k] == log[..k];
      } else {
        var j := LatestWasDelivered(log, e.signature);
        assert after[..k] == log;
      }
    }
  }

  /** A marker was only ever logged for the latest content of its signature since the last mutation. */
  ghost predicate Honest(log: seq<Entry>) {
    log == [] ||
    var init, e := log[..|log| - 1], log[|log| - 1];
    Honest(init) && (e.Observed? && !e.full ==> Latest(SinceMutation(init), e.signature) == Some(e.content))
  }

  /** So every marker points, through any earlier markers, at a full delivery with no edit since. */
  lemma {:induction false} MarkersAreJustified(log: seq<Entry>)
    requires Honest(log)
    ensures Justified(log)
  {
    if log != [] {
      var init := log[..|log| - 1];
      MarkersAreJustified(init);
      JustifiedGrows(init, log[|log| - 1]);
      assert log == init + [log[|log| - 1]];
    }
  }

  // ---------------------------------------------------------------- bounded sets of seen values

  /** The reference for a bounded set: the last 512 values that were new when offered, oldest first. */
  function Queue<T(==)>(offered: seq<T>): seq<T> {
    if offered == [] then []
    else
      var q, x := Queue(offered[..|offered| - 1]), offered[|offered| - 1];
      if x in q then q else LastN(q + [x], HISTORY_LIMIT)
  }

  /** A set and its queue hold exactly the reference. */
  ghost predicate FifoOk<T(!new)>(recent: seq<T>, seen: set<T>, offered: seq<T>) {
    recent == Queue(offered) && seen == Elements(recent)
  }

  lemma QueueSnoc<T>(offered: seq<T>, x: T)
    ensures Queue(offered + [x]) == var q := Queue(offered); if x in q then q else LastN(q + [x], HISTORY_LIMIT)
  {
    assert (offered + [x])[..|offered|] == offered;
  }

  /** The queue has no duplicates and forgets nothing until more than 512 different values were offered. */
  lemma {:induction false} QueueExact<T(!new)>(offered: seq<T>)
    ensures Distinct(Queue(offered)) && |Queue(offered)| <= 512
    ensures Elements(Queue(offered)) <= Elements(offered)
    ensures |Elements(offered)| <= 512 ==> Elements(Queue(offered)) == Elements(offered)
  {
    if offered != [] {
      var init, x := offered[..|offered| - 1], offered[|offered| - 1];
      assert offered == init + [x];
      assert Elements(offered) == Elements(init) + {x};
      QueueExact(init);
      SubsetSize(Elements(init), Elements(offered));
      if x !in Queue(init) { QueuePush(Queue(init), Elements(init), x); }
    }
  }

  lemma QueuePush<T(!new)>(q: seq<T>, all: set<T>, x: T)
    requires Distinct(q) && |q| <= HISTORY_LIMIT && x !in q && Elements(q) <= all
    requires |all| <= HISTORY_LIMIT ==> Elements(q) == all
    ensures var q' := LastN(q + [x], HISTORY_LIMIT);
            && Distinct(q') && Elements(q') <= all + {x}
            && (|all + {x}| <= HISTORY_LIMIT ==> Elements(q') == all + {x})
  {
    var longer := q + [x];
    assert Distinct(longer) && Elements(longer) == Elements(q) + {x};
    DistinctTail(longer, HISTORY_LIMIT);
    DistinctSize(longer);
    SubsetSize(Elements(longer), all + {x});
    SubsetSize(all, all + {x});
  }

  /** `remember_bounded`: insert, push, and drop the oldest if there are too many. */
  function Push<T>(recent: seq<T>, seen: set<T>, x: T): (seq<T>, set<T>) {
    var q := recent + [x];
    if |q| > HISTORY_LIMIT then (q[1..], (seen + {x}) - {q[0]}) else (q, seen + {x})
  }

  /** Pushing an unseen value follows the reference. */
  lemma PushOk<T(!new)>(recent: seq<T>, seen: set<T>, offered: seq<T>, x: T)
    requires FifoOk(recent, seen, offered) && x !in seen
    ensures var (recent', seen') := Push(recent, seen, x); FifoOk(recent', seen', offered + [x])
  {
    QueueExact(offered);
    QueueSnoc(offered, x);
    var q := recent + [x];
    assert Elements(q) == seen + {x};
    if |recent| == HISTORY_LIMIT { DropFirst(q); }
  }

  lemma DropFirst<T(!new)>(s: seq<T>)
    requires s != [] && Distinct(s)
    ensures forall y :: y in s[1..] <==> y in s && y != s[0]
  {
    forall y | y in s[1..] ensures y in s && y != s[0] {
      var k :| 0 <= k < |s[1..]| && s[1..][k] == y;
      assert s[k + 1] == y;
    }
    forall y | y in s && y != s[0] ensures y in s[1..] {
      var k :| 0 <= k < |s| && s[k] == y;
      assert s[1..][k - 1] == y;
    }
  }

  // ---------------------------------------------------------------- waiting

  function Waits(s: seq<bool>): (n: nat)
    ensures n <= |s|
  {
    if s == [] then 0 else Waits(s[..|s| - 1]) + if s[|s| - 1] then 1 else 0
  }

  /** The alarm's meaning: among the last eight signals since the last clear, four waits. */
  predicate Alarm(signals: seq<bool>) {
    Waits(LastN(signals, WAITING_WINDOW)) >= WAITING_THRESHOLD
  }

  function WaitSet(s: seq<bool>): set<nat> {
    set k: nat | k < |s| && s[k]
  }

  lemma WaitSetSnoc(s: seq<bool>)
    requires s != []
    ensures var init, n := s[..|s| - 1], |s| - 1; WaitSet(s) == (if s[n] then WaitSet(init) + {n} else WaitSet(init)) && n !in WaitSet(init)
  {
  }

  /** How many are waits, by positions. */
  lemma {:induction false} WaitsCount(s: seq<bool>)
    ensures Waits(s) == |WaitSet(s)|
  {
    if s != [] {
      WaitsCount(s[..|s| - 1]);
      WaitSetSnoc(s);
    }
  }

  /** The alarm: four waits among the last eight signals. */
  lemma AlarmMeans(signals: seq<bool>)
    ensures Alarm(signals) <==>
              |set k: nat | (if |signals| < 8 then 0 else |signals| - 8) <= k < |signals| && signals[k]| >= 4
  {
    var from := if |signals| < 8 then 0 else |signals| - 8;
    var window := LastN(signals, WAITING_WINDOW);
    assert window == signals[from..];
    WaitsCount(window);
    var inside := set k: nat | from <= k < |signals| && signals[k];
    SameSize(WaitSet(window), inside, from);
  }

  lemma SameSize(a: set<nat>, b: set<nat>, from: nat)
    requires forall k: nat :: k in a <==> from + k in b
    requires forall k :: k in b ==> k >= from
    ensures |a| == |b|
  {
    if a == {} {
      forall k: nat ensures k !in b { assert k >= from ==> k - from !in a; }
      assert b == {};
    } else {
      var k :| k in a;
      SameSize(a - {k}, b - {from + k}, from);
    }
  }

  lemma {:induction false} WaitsConcat(a: seq<bool>, b: seq<bool>)
    ensures Waits(a + b) == Waits(a) + Waits(b)
  {
    if b == [] {
      assert a + b == a;
    } else {
      WaitsConcat(a, b[..|b| - 1]);
      assert (a + b)[..|a + b| - 1] == a + b[..|b| - 1];
    }
  }

  /** The window slides exactly, and the alarm can only be raised by a wait. */
  lemma WindowSlides(signals: seq<bool>, waiting: bool)
    requires !Alarm(signals)
    ensures LastN(signals + [waiting], WAITING_WINDOW) == LastN(LastN(signals, WAITING_WINDOW) + [waiting], WAITING_WINDOW)
    ensures Alarm(signals + [waiting]) ==> waiting && Waits(LastN(signals + [waiting], WAITING_WINDOW)) == WAITING_THRESHOLD
  {
    var w := LastN(signals, WAITING_WINDOW);
    var w' := LastN(w + [waiting], WAITING_WINDOW);
    WaitsConcat(w, [waiting]);
    assert [waiting][..0] == [];
    if |w| == WAITING_WINDOW {
      assert w + [waiting] == [w[0]] + w';
      WaitsConcat([w[0]], w');
    }
  }
}
