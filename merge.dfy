/** The unified mempool structure of one cycle: every transaction by hash,
    annotated with the sub-pool it was first seen in and the endpoints that
    report it, the hashes by lower-cased sender, and each endpoint's
    pending/queued summary. It is rebuilt from empty maps every cycle, from
    the first transaction of each sender bucket of each sub-pool. */
module Merge {
  import opened Types
  import opened Strings
  import opened Watch

  /** `RpcTransactionWithExtras`. */
  datatype Entry = Entry(tx: Tx, pool: PoolType, origins: set<EndpointId>)

  datatype Summary = Summary(pending: set<Hash>, queued: set<Hash>)

  /** One call `append(key, endpoint, tx)`. */
  datatype Append = Append(key: PoolType, endpoint: EndpointId, tx: Tx)

  // ---------------------------------------------------------------------
  // Which appends a snapshot set produces

  /** One append per non-empty sender bucket, of its first transaction. */
  function FirstOfEachBucket(key: PoolType, e: EndpointId, buckets: seq<Bucket>): seq<Append> {
    if |buckets| == 0 then []
    else
      var last := buckets[|buckets| - 1];
      FirstOfEachBucket(key, e, buckets[..|buckets| - 1])
        + (if |last| > 0 then [Append(key, e, last[0])] else [])
  }

  function SubPool(content: TxpoolContent, key: PoolType): seq<Bucket> {
    if key == Pending then content.pending else content.queued
  }

  /** `tx` opens one of the buckets. */
  predicate FirstOfSomeBucket(buckets: seq<Bucket>, tx: Tx) {
    exists j :: 0 <= j < |buckets| && |buckets[j]| > 0 && tx == buckets[j][0]
  }

  /** At most one append per bucket, each of the first transaction of a
      non-empty bucket, and every non-empty bucket contributes its first. */
  lemma {:induction false} FirstOfEachBucketShape(key: PoolType, e: EndpointId, buckets: seq<Bucket>)
    ensures var r := FirstOfEachBucket(key, e, buckets);
            && |r| <= |buckets|
            && (forall i :: 0 <= i < |r| ==>
                  r[i].key == key && r[i].endpoint == e && FirstOfSomeBucket(buckets, r[i].tx))
            && (forall j :: 0 <= j < |buckets| && |buckets[j]| > 0 ==> Append(key, e, buckets[j][0]) in r)
  {
    if |buckets| > 0 {
      var front := buckets[..|buckets| - 1];
      FirstOfEachBucketShape(key, e, front);
      var r := FirstOfEachBucket(key, e, buckets);
      var rf := FirstOfEachBucket(key, e, front);
      forall i | 0 <= i < |r|
        ensures r[i].key == key && r[i].endpoint == e && FirstOfSomeBucket(buckets, r[i].tx)
      {
        if i < |rf| {
          assert FirstOfSomeBucket(front, rf[i].tx);
          var j :| 0 <= j < |front| && |front[j]| > 0 && rf[i].tx == front[j][0];
          assert buckets[j] == front[j];
        } else {
          assert r[i].tx == buckets[|buckets| - 1][0];
        }
      }
      forall j | 0 <= j < |buckets| && |buckets[j]| > 0 ensures Append(key, e, buckets[j][0]) in r {
        if j < |front| {
          assert front[j] == buckets[j];
        }
      }
    }
  }

  /** One endpoint's appends: its pending buckets, then its queued ones. */
  function PoolAppends(e: EndpointId, content: TxpoolContent): seq<Append> {
    FirstOfEachBucket(Pending, e, content.pending) + FirstOfEachBucket(Queued, e, content.queued)
  }

  /** Within one endpoint, every pending append comes before every queued one. */
  lemma PendingBeforeQueued(e: EndpointId, content: TxpoolContent)
    ensures var r := PoolAppends(e, content);
            && (forall i :: 0 <= i < |r| ==> r[i].endpoint == e)
            && (forall i, j :: 0 <= i < j < |r| && r[i].key == Queued ==> r[j].key == Queued)
  {
    FirstOfEachBucketShape(Pending, e, content.pending);
    FirstOfEachBucketShape(Queued, e, content.queued);
  }

  /** Every endpoint's appends, in pool order. */
  function AllAppends(pools: Pools): seq<Append> {
    if |pools| == 0 then []
    else AllAppends(pools[..|pools| - 1]) + PoolAppends(pools[|pools| - 1].0, pools[|pools| - 1].1.contents)
  }

  /** Each append of a cycle is the first transaction of one sender bucket of
      the sub-pool it is filed under, at the endpoint that appended it. */
  lemma {:induction false} AppendsAreFirstOfBucket(pools: Pools, i: nat)
    requires i < |AllAppends(pools)|
    ensures var a := AllAppends(pools)[i];
            exists p :: 0 <= p < |pools| && pools[p].0 == a.endpoint
                        && FirstOfSomeBucket(SubPool(pools[p].1.contents, a.key), a.tx)
  {
    var n := |pools|;
    var front := AllAppends(pools[..n - 1]);
    var last := pools[n - 1];
    var a := AllAppends(pools)[i];
    if i < |front| {
      assert a == front[i];
      AppendsAreFirstOfBucket(pools[..n - 1], i);
      var p :| 0 <= p < n - 1 && pools[..n - 1][p].0 == a.endpoint
               && FirstOfSomeBucket(SubPool(pools[..n - 1][p].1.contents, a.key), a.tx);
      assert pools[..n - 1][p] == pools[p];
    } else {
      FirstOfEachBucketShape(Pending, last.0, last.1.contents.pending);
      FirstOfEachBucketShape(Queued, last.0, last.1.contents.queued);
      var k := i - |front|;
      var pending := FirstOfEachBucket(Pending, last.0, last.1.contents.pending);
      assert a == PoolAppends(last.0, last.1.contents)[k];
      if k < |pending| {
        assert a == pending[k];
      } else {
        assert a == FirstOfEachBucket(Queued, last.0, last.1.contents.queued)[k - |pending|];
      }
      assert FirstOfSomeBucket(SubPool(pools[n - 1].1.contents, a.key), a.tx);
    }
  }

  // ---------------------------------------------------------------------
  // What the three maps hold after a sequence of appends

  function AddEntry(m: map<Hash, Entry>, a: Append): map<Hash, Entry> {
    var entry := if a.tx.hash in m then m[a.tx.hash] else Entry(a.tx, a.key, {});
    m[a.tx.hash := entry.(origins := entry.origins + {a.endpoint})]
  }

  function ByHashOf(s: seq<Append>): map<Hash, Entry> {
    if |s| == 0 then map[] else AddEntry(ByHashOf(s[..|s| - 1]), s[|s| - 1])
  }

  function AddToAddress(m: map<Address, set<Hash>>, a: Append): map<Address, set<Hash>> {
    var signer := Lower(a.tx.from);
    m[signer := (if signer in m then m[signer] else {}) + {a.tx.hash}]
  }

  function ByAddressOf(s: seq<Append>): map<Address, set<Hash>> {
    if |s| == 0 then map[] else AddToAddress(ByAddressOf(s[..|s| - 1]), s[|s| - 1])
  }

  function AddToSummary(m: map<EndpointId, Summary>, a: Append): map<EndpointId, Summary> {
    var summary := if a.endpoint in m then m[a.endpoint] else Summary({}, {});
    m[a.endpoint := if a.key == Pending then summary.(pending := summary.pending + {a.tx.hash})
                    else summary.(queued := summary.queued + {a.tx.hash})]
  }

  function SummaryOf(s: seq<Append>): map<EndpointId, Summary> {
    if |s| == 0 then map[] else AddToSummary(SummaryOf(s[..|s| - 1]), s[|s| - 1])
  }

  function HashesOf(s: seq<Append>): set<Hash> {
    set i | 0 <= i < |s| :: s[i].tx.hash
  }

  function EndpointsAppending(s: seq<Append>, h: Hash): set<EndpointId> {
    set i | 0 <= i < |s| && s[i].tx.hash == h :: s[i].endpoint
  }

  function HashesAppendedBy(s: seq<Append>, e: EndpointId, key: PoolType): set<Hash> {
    set i | 0 <= i < |s| && s[i].endpoint == e && s[i].key == key :: s[i].tx.hash
  }

  function HashesFrom(s: seq<Append>, signer: Address): set<Hash> {
    set i | 0 <= i < |s| && Lower(s[i].tx.from) == signer :: s[i].tx.hash
  }

  /** `byHash` has exactly one entry per appended hash. */
  lemma {:induction false} ByHashKeys(s: seq<Append>)
    ensures ByHashOf(s).Keys == HashesOf(s)
  {
    if |s| > 0 {
      var front := s[..|s| - 1];
      ByHashKeys(front);
      assert HashesOf(s) == HashesOf(front) + {s[|s| - 1].tx.hash} by {
        forall h ensures h in HashesOf(s) <==> h in HashesOf(front) + {s[|s| - 1].tx.hash} {
          if h in HashesOf(s) {
            var i :| 0 <= i < |s| && s[i].tx.hash == h;
            if i < |s| - 1 {
              assert front[i] == s[i];
            }
          }
          if h in HashesOf(front) {
            var i :| 0 <= i < |front| && front[i].tx.hash == h;
            assert s[i] == front[i];
          }
        }
      }
    }
  }

  /** An entry's origins are exactly the endpoints that appended its hash, so
      they are never empty. */
  lemma {:induction false} ByHashOrigins(s: seq<Append>, h: Hash)
    requires h in ByHashOf(s)
    ensures ByHashOf(s)[h].origins == EndpointsAppending(s, h)
    ensures ByHashOf(s)[h].origins != {}
  {
    var front := s[..|s| - 1];
    var a := s[|s| - 1];
    assert EndpointsAppending(s, h) ==
           EndpointsAppending(front, h) + (if a.tx.hash == h then {a.endpoint} else {}) by {
      forall e ensures e in EndpointsAppending(s, h) <==>
                       e in EndpointsAppending(front, h) + (if a.tx.hash == h then {a.endpoint} else {}) {
        if e in EndpointsAppending(s, h) {
          var i :| 0 <= i < |s| && s[i].tx.hash == h && s[i].endpoint == e;
          if i < |s| - 1 {
            assert front[i] == s[i];
          }
        }
        if e in EndpointsAppending(front, h) {
          var i :| 0 <= i < |front| && front[i].tx.hash == h && front[i].endpoint == e;
          assert s[i] == front[i];
        }
      }
    }
    if h in ByHashOf(front) {
      ByHashOrigins(front, h);
    } else {
      ByHashKeys(front);
      assert forall i :: 0 <= i < |front| ==> front[i].tx.hash in HashesOf(front);
      assert EndpointsAppending(front, h) == {};
    }
    assert a.tx.hash == h ==> a.endpoint in EndpointsAppending(s, h);
    assert a.tx.hash != h ==> ByHashOf(s)[h] == ByHashOf(front)[h];
  }

  /** An entry keeps the transaction and the sub-pool of the first append of
      its hash: later appends only add origins. */
  lemma {:induction false} ByHashFirstSighting(s: seq<Append>, i: nat)
    requires i < |s|
    requires forall j :: 0 <= j < i ==> s[j].tx.hash != s[i].tx.hash
    ensures s[i].tx.hash in ByHashOf(s)
    ensures ByHashOf(s)[s[i].tx.hash].tx == s[i].tx
    ensures ByHashOf(s)[s[i].tx.hash].pool == s[i].key
  {
    var front := s[..|s| - 1];
    if i < |s| - 1 {
      assert front[i] == s[i];
      ByHashFirstSighting(front, i);
    } else {
      ByHashKeys(front);
      forall j | 0 <= j < |front| ensures front[j].tx.hash != s[i].tx.hash {
        assert front[j] == s[j];
      }
      assert s[i].tx.hash !in HashesOf(front);
    }
  }

  /** An endpoint has a summary iff it appended something, and the summary
      holds exactly the hashes it appended under each key. */
  lemma {:induction false} SummaryContents(s: seq<Append>, e: EndpointId)
    ensures e in SummaryOf(s) <==> exists i :: 0 <= i < |s| && s[i].endpoint == e
    ensures e in SummaryOf(s) ==>
              && SummaryOf(s)[e].pending == HashesAppendedBy(s, e, Pending)
              && SummaryOf(s)[e].queued == HashesAppendedBy(s, e, Queued)
  {
    if |s| > 0 {
      var front := s[..|s| - 1];
      var a := s[|s| - 1];
      SummaryContents(front, e);
      forall key: PoolType
        ensures HashesAppendedBy(s, e, key) ==
                HashesAppendedBy(front, e, key) + (if a.endpoint == e && a.key == key then {a.tx.hash} else {})
      {
        forall h ensures h in HashesAppendedBy(s, e, key) <==>
                         h in HashesAppendedBy(front, e, key) + (if a.endpoint == e && a.key == key then {a.tx.hash} else {}) {
          if h in HashesAppendedBy(s, e, key) {
            var i :| 0 <= i < |s| && s[i].endpoint == e && s[i].key == key && s[i].tx.hash == h;
            if i < |s| - 1 {
              assert front[i] == s[i];
            }
          }
          if h in HashesAppendedBy(front, e, key) {
            var i :| 0 <= i < |front| && front[i].endpoint == e && front[i].key == key && front[i].tx.hash == h;
            assert s[i] == front[i];
          }
        }
      }
      if exists i :: 0 <= i < |front| && front[i].endpoint == e {
        var i :| 0 <= i < |front| && front[i].endpoint == e;
        assert s[i] == front[i];
      }
      if exists i :: 0 <= i < |s| && s[i].endpoint == e {
        var i :| 0 <= i < |s| && s[i].endpoint == e;
        if i < |s| - 1 {
          assert front[i] == s[i];
        }
      }
      if e !in SummaryOf(front) {
        assert forall i :: 0 <= i < |front| ==> front[i].endpoint != e;
        assert HashesAppendedBy(front, e, Pending) == {} && HashesAppendedBy(front, e, Queued) == {};
      }
    }
  }

  /** `byAddress` files every appended hash under its lower-cased sender. */
  lemma {:induction false} ByAddressContents(s: seq<Append>, signer: Address)
    ensures signer in ByAddressOf(s) <==> HashesFrom(s, signer) != {}
    ensures signer in ByAddressOf(s) ==> ByAddressOf(s)[signer] == HashesFrom(s, signer)
  {
    if |s| > 0 {
      var front := s[..|s| - 1];
      var a := s[|s| - 1];
      ByAddressContents(front, signer);
      assert HashesFrom(s, signer) ==
             HashesFrom(front, signer) + (if Lower(a.tx.from) == signer then {a.tx.hash} else {}) by {
        forall h ensures h in HashesFrom(s, signer) <==>
                         h in HashesFrom(front, signer) + (if Lower(a.tx.from) == signer then {a.tx.hash} else {}) {
          if h in HashesFrom(s, signer) {
            var i :| 0 <= i < |s| && Lower(s[i].tx.from) == signer && s[i].tx.hash == h;
            if i < |s| - 1 {
              assert front[i] == s[i];
            }
          }
          if h in HashesFrom(front, signer) {
            var i :| 0 <= i < |front| && Lower(front[i].tx.from) == signer && front[i].tx.hash == h;
            assert s[i] == front[i];
          }
        }
      }
    }
  }

  // ---------------------------------------------------------------------
  // The imperative structure

  /** `MempoolStructure`, with the appends made so far as its ghost history. */
  class MempoolStructure {
    var byHash: map<Hash, Entry>
    var byAddress: map<Address, set<Hash>>
    var poolSummary: map<EndpointId, Summary>
    ghost var appended: seq<Append>

    ghost predicate Valid()
      reads this
    {
      && byHash == ByHashOf(appended)
      && byAddress == ByAddressOf(appended)
      && poolSummary == SummaryOf(appended)
    }

    constructor ()
      ensures Valid() && appended == []
      ensures byHash == map[] && byAddress == map[] && poolSummary == map[]
    {
      byHash := map[];
      byAddress := map[];
      poolSummary := map[];
      appended := [];
    }

    /** `appendRpcTransaction(structure)(key, endpoint, tx)`. An existing
        entry keeps its transaction and sub-pool and only gains an origin. */
    method AppendRpcTransaction(key: PoolType, endpoint: EndpointId, tx: Tx)
      requires Valid()
      modifies this
      ensures Valid() && appended == old(appended) + [Append(key, endpoint, tx)]
      ensures byHash.Keys == old(byHash).Keys + {tx.hash}
      ensures tx.hash in old(byHash) ==>
                byHash[tx.hash] == old(byHash)[tx.hash].(origins := old(byHash)[tx.hash].origins + {endpoint})
      ensures tx.hash !in old(byHash) ==> byHash[tx.hash] == Entry(tx, key, {endpoint})
      ensures forall h :: h in old(byHash) && h != tx.hash ==> byHash[h] == old(byHash)[h]
    {
      ghost var a := Append(key, endpoint, tx);
      ghost var whole := appended + [a];
      assert whole[..|whole| - 1] == appended && whole[|whole| - 1] == a;
      var summary := if endpoint in poolSummary then poolSummary[endpoint] else Summary({}, {});
      summary := if key == Pending then summary.(pending := summary.pending + {tx.hash})
                 else summary.(queued := summary.queued + {tx.hash});
      poolSummary := poolSummary[endpoint := summary];
      assert poolSummary == SummaryOf(whole);
      var txWithExtras := if tx.hash in byHash then byHash[tx.hash] else Entry(tx, key, {});
      txWithExtras := txWithExtras.(origins := txWithExtras.origins + {endpoint});
      byHash := byHash[tx.hash := txWithExtras];
      assert byHash == ByHashOf(whole);
      var signer := Lower(tx.from);
      var existingUnderAddress := if signer in byAddress then byAddress[signer] else {};
      byAddress := byAddress[signer := existingUnderAddress + {tx.hash}];
      assert byAddress == ByAddressOf(whole);
      appended := whole;
    }

    /** Append the first transaction of each sender bucket. */
    method AppendFirstOfEachBucket(key: PoolType, endpoint: EndpointId, buckets: seq<Bucket>)
      requires Valid()
      modifies this
      ensures Valid() && appended == old(appended) + FirstOfEachBucket(key, endpoint, buckets)
    {
      var j := 0;
      while j < |buckets|
        invariant 0 <= j <= |buckets|
        invariant Valid() && appended == old(appended) + FirstOfEachBucket(key, endpoint, buckets[..j])
      {
        assert buckets[..j + 1][..j] == buckets[..j];
        if |buckets[j]| > 0 {
          AppendRpcTransaction(key, endpoint, buckets[j][0]);
        }
        j := j + 1;
      }
      assert buckets[..j] == buckets;
    }
  }

  /** `getMempoolStructure`: from empty maps, every endpoint's pending
      buckets and then its queued buckets, first transaction only. */
  method GetMempoolStructure(pools: Pools) returns (structure: MempoolStructure)
    ensures fresh(structure)
    ensures structure.Valid() && structure.appended == AllAppends(pools)
  {
    structure := new MempoolStructure();
    var i := 0;
    while i < |pools|
      invariant 0 <= i <= |pools|
      invariant structure.Valid() && structure.appended == AllAppends(pools[..i])
    {
      assert pools[..i + 1][..i] == pools[..i];
      var (endpoint, pool) := pools[i];
      structure.AppendFirstOfEachBucket(Pending, endpoint, pool.contents.pending);
      structure.AppendFirstOfEachBucket(Queued, endpoint, pool.contents.queued);
      i := i + 1;
    }
    assert pools[..i] == pools;
  }
}
