/** The poller's snapshot state: per endpoint, the txpool contents, the set
    of all hashes in it, the added/removed deltas against the same endpoint's
    previous snapshot, and the latest block; and the version counter that is
    bumped once per successful poll cycle. */
module Watch {
  import opened Types

  datatype DeltaPair = DeltaPair(added: Option<set<Hash>>, removed: Option<set<Hash>>)

  datatype Deltas = Deltas(pending: DeltaPair, queued: DeltaPair)

  datatype Pool = Pool(contents: TxpoolContent, all: set<Hash>, deltas: Deltas, block: Block)

  /** The `Map<Endpoint, Pool>`, in insertion order. */
  type Pools = seq<(EndpointId, Pool)>

  /** A map has each key once. */
  predicate DistinctEndpoints(pools: Pools) {
    forall i, j :: 0 <= i < j < |pools| ==> pools[i].0 != pools[j].0
  }

  predicate DistinctIds(ids: seq<EndpointId>) {
    forall i, j :: 0 <= i < j < |ids| ==> ids[i] != ids[j]
  }

  function BucketHashes(bucket: Bucket): (r: seq<Hash>)
    ensures |r| == |bucket|
    ensures forall j :: 0 <= j < |bucket| ==> r[j] == bucket[j].hash
  {
    seq(|bucket|, j requires 0 <= j < |bucket| => bucket[j].hash)
  }

  /** `toList`: the hashes of every transaction of every sender, flattened. */
  function ToList(buckets: seq<Bucket>): seq<Hash> {
    if |buckets| == 0 then [] else BucketHashes(buckets[0]) + ToList(buckets[1..])
  }

  /** Some sender's bucket holds a transaction with hash `h`. */
  predicate InSomeBucket(buckets: seq<Bucket>, h: Hash) {
    exists i, j :: 0 <= i < |buckets| && 0 <= j < |buckets[i]| && buckets[i][j].hash == h
  }

  /** `toList` yields exactly the hashes of the transactions in the buckets. */
  lemma {:induction false} ToListMembers(buckets: seq<Bucket>, h: Hash)
    ensures h in ToList(buckets) <==> InSomeBucket(buckets, h)
  {
    if |buckets| > 0 {
      ToListMembers(buckets[1..], h);
      if h in ToList(buckets) {
        if h in BucketHashes(buckets[0]) {
          var j :| 0 <= j < |buckets[0]| && BucketHashes(buckets[0])[j] == h;
          assert buckets[0][j].hash == h;
        } else {
          var i, j :| 0 <= i < |buckets[1..]| && 0 <= j < |buckets[1..][i]| && buckets[1..][i][j].hash == h;
          assert buckets[i + 1][j].hash == h;
        }
      } else {
        forall i, j | 0 <= i < |buckets| && 0 <= j < |buckets[i]|
          ensures buckets[i][j].hash != h
        {
          if i == 0 {
            assert BucketHashes(buckets[0])[j] == buckets[0][j].hash;
          } else {
            assert buckets[1..][i - 1] == buckets[i];
          }
        }
      }
    }
  }

  /** `new Set(toList(...))`. */
  function HashSet(buckets: seq<Bucket>): set<Hash> {
    set h | h in ToList(buckets)
  }

  /** What `findDeltas` computes, stated as sets: no previous contents means
      the deltas are unknown (`null`), not empty. */
  function Delta(previous: Option<seq<Bucket>>, current: set<Hash>): (d: DeltaPair)
    ensures previous.None? <==> d.added.None? && d.removed.None?
    ensures previous.Some? ==>
              && d.added.Some? && d.removed.Some?
              && d.added.value !! d.removed.value
              && (HashSet(previous.value) - d.removed.value) + d.added.value == current
              && d.added.value <= current && d.removed.value !! current
  {
    if previous.None? then DeltaPair(None, None)
    else
      var prev := HashSet(previous.value);
      DeltaPair(Some(current - prev), Some(prev - current))
  }

  /** `findDeltas`: two passes, one over the previous hashes collecting the
      removed ones and one over the current hashes collecting the added. */
  method FindDeltas(previous: Option<seq<Bucket>>, current: set<Hash>) returns (d: DeltaPair)
    ensures previous.None? ==> d == DeltaPair(None, None)
    ensures previous.Some? ==>
              d == DeltaPair(Some(current - HashSet(previous.value)), Some(HashSet(previous.value) - current))
    ensures d == Delta(previous, current)
  {
    if previous.None? {
      return DeltaPair(None, None);
    }
    var prev := HashSet(previous.value);
    var added: set<Hash> := {};
    var removed: set<Hash> := {};
    var todo := prev;
    while todo != {}
      invariant todo <= prev
      invariant removed == (prev - todo) - current
      decreases todo
    {
      var tx :| tx in todo;
      if tx !in current {
        removed := removed + {tx};
      }
      todo := todo - {tx};
    }
    assert removed == prev - current;
    todo := current;
    while todo != {}
      invariant todo <= current
      invariant added == (current - todo) - prev
      decreases todo
    {
      var tx :| tx in todo;
      if tx !in prev {
        added := added + {tx};
      }
      todo := todo - {tx};
    }
    assert added == current - prev;
    d := DeltaPair(Some(added), Some(removed));
  }

  /** `previousPools.get(endpoint)?.contents`. */
  function PreviousContents(pools: Pools, e: EndpointId): (r: Option<TxpoolContent>)
    ensures r.Some? <==> exists i :: 0 <= i < |pools| && pools[i].0 == e
    ensures DistinctEndpoints(pools) ==>
              forall i :: 0 <= i < |pools| && pools[i].0 == e ==> r == Some(pools[i].1.contents)
  {
    if |pools| == 0 then None
    else if pools[0].0 == e then Some(pools[0].1.contents)
    else PreviousContents(pools[1..], e)
  }

  /** The pool built for one endpoint in a successful cycle. */
  function Snapshot(content: TxpoolContent, block: Block, previous: Option<TxpoolContent>): Pool {
    var pendingList := HashSet(content.pending);
    var queuedList := HashSet(content.queued);
    Pool(content, pendingList + queuedList,
         Deltas(Delta(if previous.Some? then Some(previous.value.pending) else None, pendingList),
                Delta(if previous.Some? then Some(previous.value.queued) else None, queuedList)),
         block)
  }

  /** Every snapshot's hash universe is its two sub-pools together: a hash
      is in `all` exactly when a pending or a queued bucket holds a
      transaction with it. Each delta is taken against that sub-pool of the
      same endpoint's previous contents. */
  lemma SnapshotShape(content: TxpoolContent, block: Block, previous: Option<TxpoolContent>)
    ensures var p := Snapshot(content, block, previous);
            && p.all == HashSet(content.pending) + HashSet(content.queued)
            && (forall h :: h in p.all <==> InSomeBucket(content.pending, h) || InSomeBucket(content.queued, h))
            && (previous.None? ==> p.deltas == Deltas(DeltaPair(None, None), DeltaPair(None, None)))
            && (previous.Some? ==>
                  && p.deltas.pending.added == Some(HashSet(content.pending) - HashSet(previous.value.pending))
                  && p.deltas.pending.removed == Some(HashSet(previous.value.pending) - HashSet(content.pending))
                  && p.deltas.queued.added == Some(HashSet(content.queued) - HashSet(previous.value.queued))
                  && p.deltas.queued.removed == Some(HashSet(previous.value.queued) - HashSet(content.queued)))
  {
    forall h ensures h in Snapshot(content, block, previous).all <==> InSomeBucket(content.pending, h) || InSomeBucket(content.queued, h) {
      ToListMembers(content.pending, h);
      ToListMembers(content.queued, h);
    }
  }

  /** The `pools.map(...)` of a successful cycle, one `findDeltas` pair per
      endpoint against that endpoint's previous contents. */
  method BuildPools(endpoints: seq<EndpointId>, fetched: seq<(TxpoolContent, Block)>, previousPools: Pools)
    returns (pools: Pools)
    requires |fetched| == |endpoints|
    ensures |pools| == |endpoints|
    ensures forall i :: 0 <= i < |endpoints| ==>
              pools[i] == (endpoints[i], Snapshot(fetched[i].0, fetched[i].1, PreviousContents(previousPools, endpoints[i])))
  {
    pools := [];
    var i := 0;
    while i < |endpoints|
      invariant 0 <= i <= |endpoints|
      invariant |pools| == i
      invariant forall k :: 0 <= k < i ==>
                  pools[k] == (endpoints[k], Snapshot(fetched[k].0, fetched[k].1, PreviousContents(previousPools, endpoints[k])))
    {
      var (pool, block) := fetched[i];
      var previousContents := PreviousContents(previousPools, endpoints[i]);
      var pendingList := HashSet(pool.pending);
      var queuedList := HashSet(pool.queued);
      var all := pendingList + queuedList;
      var pendingDelta := FindDeltas(if previousContents.Some? then Some(previousContents.value.pending) else None, pendingList);
      var queuedDelta := FindDeltas(if previousContents.Some? then Some(previousContents.value.queued) else None, queuedList);
      pools := pools + [(endpoints[i], Pool(pool, all, Deltas(pendingDelta, queuedDelta), block))];
      i := i + 1;
    }
  }

  /** The module-level `identifier` and `pools` of the poller. */
  class Mempools {
    var identifier: nat
    var pools: Pools

    constructor ()
      ensures identifier == 0 && pools == []
    {
      identifier := 0;
      pools := [];
    }

    /** One poll cycle. `fetched` is the answer of every endpoint (contents
        and latest block) or `None` when some fetch failed even after its
        retries; `running` is `processIsRunning()` when the answers arrive.
        Only a complete answer while running bumps the counter and replaces
        the pools wholesale. */
    method Cycle(endpoints: seq<EndpointId>, fetched: Option<seq<(TxpoolContent, Block)>>, running: bool)
      requires DistinctIds(endpoints)
      requires fetched.Some? ==> |fetched.value| == |endpoints|
      modifies this
      ensures fetched.None? || !running ==> identifier == old(identifier) && pools == old(pools)
      ensures fetched.Some? && running ==>
                && identifier == old(identifier) + 1
                && |pools| == |endpoints|
                && DistinctEndpoints(pools)
                && forall i :: 0 <= i < |endpoints| ==>
                     pools[i] == (endpoints[i],
                                  Snapshot(fetched.value[i].0, fetched.value[i].1,
                                           PreviousContents(old(pools), endpoints[i])))
    {
      if fetched.None? || !running {
        return;
      }
      identifier := identifier + 1;
      var previousPools := pools;
      pools := BuildPools(endpoints, fetched.value, previousPools);
    }
  }

  /** The consumer's rule: recompute when the counter moved and there is a
      pool to look at; otherwise replay the last results. */
  function ShouldRecompute(lastIdentifier: Option<nat>, identifier: nat, poolCount: nat): bool {
    (lastIdentifier.None? || lastIdentifier.value != identifier) && poolCount > 0
  }

  /** A cycle that bumped the counter is recomputed exactly when there are
      pools; when the counter did not move (a failed or skipped cycle) the
      consumer never recomputes, and only shows its last results again. */
  lemma RecomputeAfterCycle(identifier: nat, poolCount: nat)
    ensures ShouldRecompute(Some(identifier), identifier + 1, poolCount) <==> poolCount > 0
    ensures !ShouldRecompute(Some(identifier), identifier, poolCount)
  {
  }
}
