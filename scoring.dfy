/** Which transactions are worth rebroadcasting, and how every pair of
    endpoints differs on them. A transaction is scored against the cheapest
    latest block's base fee, raised by the 12.5 % buffer; only strictly
    positive scores are kept. For each ordered pair of endpoints the hashes
    of the first one that are not known to both are split by whether they
    scored. */
module Scoring {
  import opened Types
  import opened Utils
  import opened Watch
  import opened Merge

  // ---------------------------------------------------------------------
  // The cheapest latest block

  /** One step of the `reduce`: a block with a truthy base fee replaces one
      without, and a strictly smaller truthy base fee replaces a larger one. */
  function Pick(acc: Block, b: Block): Block {
    if !Truthy(acc.baseFeePerGas) && Truthy(b.baseFeePerGas) then b
    else if Truthy(b.baseFeePerGas) && Truthy(acc.baseFeePerGas) && b.baseFeePerGas.value < acc.baseFeePerGas.value then b
    else acc
  }

  function CheapestFrom(acc: Block, rest: seq<Block>): Block
    decreases |rest|
  {
    if |rest| == 0 then acc else CheapestFrom(Pick(acc, rest[0]), rest[1..])
  }

  /** `reduce` without an initial value: the first block is the start. */
  function Cheapest(blocks: seq<Block>): Block
    requires |blocks| > 0
  {
    CheapestFrom(blocks[0], blocks[1..])
  }

  predicate SomeTruthy(blocks: seq<Block>) {
    exists i :: 0 <= i < |blocks| && Truthy(blocks[i].baseFeePerGas)
  }

  lemma {:induction false} CheapestFromIsLeast(acc: Block, rest: seq<Block>)
    ensures var r := CheapestFrom(acc, rest);
            && (r == acc || r in rest)
            && (Truthy(acc.baseFeePerGas) || SomeTruthy(rest) ==>
                  && Truthy(r.baseFeePerGas)
                  && (Truthy(acc.baseFeePerGas) ==> r.baseFeePerGas.value <= acc.baseFeePerGas.value)
                  && forall i :: 0 <= i < |rest| && Truthy(rest[i].baseFeePerGas) ==>
                       r.baseFeePerGas.value <= rest[i].baseFeePerGas.value)
            && (!Truthy(acc.baseFeePerGas) && !SomeTruthy(rest) ==> r == acc)
    decreases |rest|
  {
    if |rest| > 0 {
      var next := Pick(acc, rest[0]);
      CheapestFromIsLeast(next, rest[1..]);
      var r := CheapestFrom(acc, rest);
      assert r == CheapestFrom(next, rest[1..]);
      forall i | 0 <= i < |rest| && Truthy(rest[i].baseFeePerGas)
        ensures Truthy(r.baseFeePerGas) && r.baseFeePerGas.value <= rest[i].baseFeePerGas.value
      {
        if i > 0 {
          assert rest[1..][i - 1] == rest[i];
        }
      }
      if !Truthy(acc.baseFeePerGas) && !SomeTruthy(rest) {
        assert !Truthy(rest[0].baseFeePerGas);
        assert !SomeTruthy(rest[1..]) by {
          forall i | 0 <= i < |rest[1..]| ensures !Truthy(rest[1..][i].baseFeePerGas) {
            assert rest[1..][i] == rest[i + 1];
          }
        }
      }
      if SomeTruthy(rest[1..]) {
        var i :| 0 <= i < |rest[1..]| && Truthy(rest[1..][i].baseFeePerGas);
        assert rest[i + 1] == rest[1..][i];
      }
    }
  }

  /** The leastExpensiveLatestBlock: one of the blocks; when some block has a
      truthy base fee, one with the least truthy base fee; otherwise the
      first block. */
  lemma CheapestIsLeastPositive(blocks: seq<Block>)
    requires |blocks| > 0
    ensures Cheapest(blocks) in blocks
    ensures SomeTruthy(blocks) ==>
              && Truthy(Cheapest(blocks).baseFeePerGas)
              && forall i :: 0 <= i < |blocks| && Truthy(blocks[i].baseFeePerGas) ==>
                   Cheapest(blocks).baseFeePerGas.value <= blocks[i].baseFeePerGas.value
    ensures !SomeTruthy(blocks) ==> Cheapest(blocks) == blocks[0]
  {
    CheapestFromIsLeast(blocks[0], blocks[1..]);
    assert blocks == [blocks[0]] + blocks[1..];
    forall i | 0 < i < |blocks| ensures blocks[i] == blocks[1..][i - 1] { }
    if SomeTruthy(blocks) && !Truthy(blocks[0].baseFeePerGas) {
      var i :| 0 <= i < |blocks| && Truthy(blocks[i].baseFeePerGas);
      assert blocks[1..][i - 1] == blocks[i];
    }
    if !SomeTruthy(blocks) {
      assert !Truthy(blocks[0].baseFeePerGas);
      forall i | 0 <= i < |blocks[1..]| ensures !Truthy(blocks[1..][i].baseFeePerGas) {
        assert blocks[1..][i] == blocks[i + 1];
      }
    }
  }

  function PoolBlocks(pools: Pools): (r: seq<Block>)
    ensures |r| == |pools|
    ensures forall i :: 0 <= i < |pools| ==> r[i] == pools[i].1.block
  {
    seq(|pools|, i requires 0 <= i < |pools| => pools[i].1.block)
  }

  /** The base fee of the cheapest block raises a TypeError when it is
      null: this is the one thing the scorer demands of its pools. */
  predicate HasBufferedBaseFee(pools: Pools) {
    |pools| > 0 && Cheapest(PoolBlocks(pools)).baseFeePerGas.Some?
  }

  lemma BufferedFeeMonotone(a: nat, b: nat)
    requires a <= b
    ensures BufferedFee(a) <= BufferedFee(b)
  {
    assert a * Buffer <= b * Buffer;
  }

  /** `bufferedBaseFee`: the cheapest base fee raised by 12.5 %. No pool
      with a truthy base fee has a cheaper buffered one, and one of them has
      exactly this one; when no base fee is truthy, it is the first pool's
      (zero) base fee buffered. */
  function BufferedBaseFee(pools: Pools): (r: nat)
    requires HasBufferedBaseFee(pools)
    ensures forall i :: 0 <= i < |pools| && Truthy(pools[i].1.block.baseFeePerGas) ==>
              r <= BufferedFee(pools[i].1.block.baseFeePerGas.value)
    ensures SomeTruthy(PoolBlocks(pools)) ==>
              exists i :: 0 <= i < |pools| && Truthy(pools[i].1.block.baseFeePerGas) &&
                r == BufferedFee(pools[i].1.block.baseFeePerGas.value)
    ensures !SomeTruthy(PoolBlocks(pools)) ==>
              pools[0].1.block.baseFeePerGas == Some(0) && r == BufferedFee(0)
  {
    var blocks := PoolBlocks(pools);
    var cheapest := Cheapest(blocks);
    CheapestIsLeastPositive(blocks);
    forall i | 0 <= i < |pools| && Truthy(pools[i].1.block.baseFeePerGas)
      ensures BufferedFee(cheapest.baseFeePerGas.value) <= BufferedFee(pools[i].1.block.baseFeePerGas.value)
    {
      assert blocks[i] == pools[i].1.block;
      BufferedFeeMonotone(cheapest.baseFeePerGas.value, pools[i].1.block.baseFeePerGas.value);
    }
    var k :| 0 <= k < |blocks| && blocks[k] == cheapest;
    assert pools[k].1.block == cheapest;
    BufferedFee(cheapest.baseFeePerGas.value)
  }

  // ---------------------------------------------------------------------
  // Scores

  /** `BigInt(tx.maxPriorityFeePerGas)` throws on an absent field; it is
      only read for a type 2 transaction whose fee cap clears the buffered
      base fee. */
  predicate ScoreDefined(tx: Tx, buffered: nat) {
    tx.txType == 2 && tx.maxFeePerGas.Some? && tx.maxFeePerGas.value >= buffered ==>
      tx.maxPriorityFeePerGas.Some?
  }

  /** How good a transaction is: for type 2, how far its priority fee
      exceeds 5 % of its fee cap; for types 0 and 1, how far its gas price
      exceeds the buffered base fee; zero when the fee cap or the gas price
      is absent or below the buffered base fee, and for every other type. */
  function Score(tx: Tx, buffered: nat): (m: int)
    requires ScoreDefined(tx, buffered)
    ensures tx.txType == 2 && tx.maxFeePerGas.Some? && tx.maxFeePerGas.value >= buffered ==>
              m * 20 - 20 < tx.maxPriorityFeePerGas.value * 20 - tx.maxFeePerGas.value <= m * 20
    ensures (tx.txType == 0 || tx.txType == 1) && tx.gasPrice.Some? && tx.gasPrice.value >= buffered ==>
              m + buffered == tx.gasPrice.value
    ensures tx.txType > 2 ==> m == 0
    ensures tx.txType == 2 && (tx.maxFeePerGas.None? || tx.maxFeePerGas.value < buffered) ==> m == 0
    ensures (tx.txType == 0 || tx.txType == 1) && (tx.gasPrice.None? || tx.gasPrice.value < buffered) ==> m == 0
  {
    if tx.txType == 2 && tx.maxFeePerGas.Some? && tx.maxFeePerGas.value >= buffered then
      var maxPriorityFee := tx.maxPriorityFeePerGas.value;
      var maxFee := tx.maxFeePerGas.value;
      var minimumGoodPriorityFee := maxFee / 20;
      assert maxFee == minimumGoodPriorityFee * 20 + maxFee % 20;
      maxPriorityFee - minimumGoodPriorityFee
    else if (tx.txType == 0 || tx.txType == 1) && tx.gasPrice.Some? && tx.gasPrice.value >= buffered then
      tx.gasPrice.value - buffered
    else 0
  }

  /** The transactions that score: a type 2 one whose fee cap clears the
      buffered base fee and whose priority fee is above 5 % of that cap
      (rounded down), or a type 0 or 1 one whose gas price is strictly above
      the buffered base fee. */
  lemma ScorePositive(tx: Tx, buffered: nat)
    requires ScoreDefined(tx, buffered)
    ensures Score(tx, buffered) > 0 <==>
              || (tx.txType == 2 && tx.maxFeePerGas.Some? && tx.maxFeePerGas.value >= buffered
                  && tx.maxPriorityFeePerGas.value * 20 > tx.maxFeePerGas.value - tx.maxFeePerGas.value % 20)
              || ((tx.txType == 0 || tx.txType == 1) && tx.gasPrice.Some? && tx.gasPrice.value > buffered)
  {
  }

  // ---------------------------------------------------------------------
  // The pairwise differences

  datatype Partition = Partition(wellPriced: set<Hash>, lowerPriced: set<Hash>)

  const EmptyPartition := Partition({}, {})

  datatype Widecastable = Widecastable(
    highEnd: map<Hash, int>,
    differences: map<EndpointId, map<EndpointId, Partition>>,
    mischaracterized: map<EndpointId, set<Hash>>)

  /** A hash of A's pool that the merged view knows and that is not
      reported by both A and B. */
  predicate Unshared(byHash: map<Hash, Entry>, h: Hash, a: EndpointId, b: EndpointId) {
    h in byHash && !(a in byHash[h].origins && b in byHash[h].origins)
  }

  /** What a pair's partition holds, for A different from B. */
  function PartitionOf(all: set<Hash>, a: EndpointId, b: EndpointId, byHash: map<Hash, Entry>, highEnd: set<Hash>): Partition {
    Partition(set h | h in all && Unshared(byHash, h, a, b) && h in highEnd,
              set h | h in all && Unshared(byHash, h, a, b) && h !in highEnd)
  }

  /** The two halves never overlap, the well priced half only holds scored
      hashes, and together they are everything unshared in A's pool. */
  lemma PartitionShape(all: set<Hash>, a: EndpointId, b: EndpointId, byHash: map<Hash, Entry>, highEnd: set<Hash>)
    ensures var p := PartitionOf(all, a, b, byHash, highEnd);
            && p.wellPriced !! p.lowerPriced
            && p.wellPriced <= highEnd
            && p.lowerPriced !! highEnd
            && p.wellPriced + p.lowerPriced == set h | h in all && Unshared(byHash, h, a, b)
  {
  }

  /** In the merged view of this cycle, a hash of A is unshared with B iff
      it was appended by some endpoint and not by both A and B. */
  lemma UnsharedInMergedView(pools: Pools, h: Hash, a: EndpointId, b: EndpointId)
    ensures var s := AllAppends(pools);
            Unshared(ByHashOf(s), h, a, b) <==>
              h in HashesOf(s) && !(a in EndpointsAppending(s, h) && b in EndpointsAppending(s, h))
  {
    var s := AllAppends(pools);
    ByHashKeys(s);
    if h in ByHashOf(s) {
      ByHashOrigins(s, h);
    }
  }

  /** The positive scores of the merged entries, one pass over `byHash`. */
  method HighEndTransactions(byHash: map<Hash, Entry>, buffered: nat) returns (highEnd: map<Hash, int>)
    requires forall h :: h in byHash ==> ScoreDefined(byHash[h].tx, buffered)
    ensures forall h :: h in highEnd <==> h in byHash && Score(byHash[h].tx, buffered) > 0
    ensures forall h :: h in highEnd ==> highEnd[h] == Score(byHash[h].tx, buffered) && highEnd[h] > 0
  {
    highEnd := map[];
    var todo := byHash.Keys;
    while todo != {}
      invariant todo <= byHash.Keys
      invariant forall h :: h in highEnd <==> h in byHash && h !in todo && Score(byHash[h].tx, buffered) > 0
      invariant forall h :: h in highEnd ==> highEnd[h] == Score(byHash[h].tx, buffered)
      decreases todo
    {
      var hash :| hash in todo;
      var measure := Score(byHash[hash].tx, buffered);
      if measure > 0 {
        highEnd := highEnd[hash := measure];
      }
      todo := todo - {hash};
    }
  }

  /** The inner loop over `poolA.all` for A different from B. */
  method PairPartition(all: set<Hash>, a: EndpointId, b: EndpointId, byHash: map<Hash, Entry>, highEnd: map<Hash, int>)
    returns (p: Partition)
    ensures p == PartitionOf(all, a, b, byHash, highEnd.Keys)
  {
    var wellPriced: set<Hash> := {};
    var lowerPriced: set<Hash> := {};
    var todo := all;
    while todo != {}
      invariant todo <= all
      invariant wellPriced == set h | h in all - todo && Unshared(byHash, h, a, b) && h in highEnd
      invariant lowerPriced == set h | h in all - todo && Unshared(byHash, h, a, b) && h !in highEnd
      decreases todo
    {
      var hash :| hash in todo;
      if hash in byHash {
        var isInEndpointA := a in byHash[hash].origins;
        var isInEndpointB := b in byHash[hash].origins;
        if !(isInEndpointA && isInEndpointB) {
          if hash in highEnd {
            wellPriced := wellPriced + {hash};
          } else {
            lowerPriced := lowerPriced + {hash};
          }
        }
      }
      todo := todo - {hash};
    }
    assert all - todo == all;
    p := Partition(wellPriced, lowerPriced);
  }

  function EndpointSet(pools: Pools): set<EndpointId> {
    set i | 0 <= i < |pools| :: pools[i].0
  }

  /** What A = `pools[i]` records against B: nothing against itself, the
      partition of its pool against any other endpoint. */
  function RowEntry(pools: Pools, i: nat, b: EndpointId, byHash: map<Hash, Entry>, highEnd: set<Hash>): Partition
    requires i < |pools|
  {
    if b == pools[i].0 then EmptyPartition else PartitionOf(pools[i].1.all, pools[i].0, b, byHash, highEnd)
  }

  function Row(pools: Pools, i: nat, byHash: map<Hash, Entry>, highEnd: set<Hash>): map<EndpointId, Partition>
    requires i < |pools|
  {
    map b | b in EndpointSet(pools) :: RowEntry(pools, i, b, byHash, highEnd)
  }

  /** The row of endpoint A = `pools[i]`: one partition per endpoint B. */
  method PartitionRow(pools: Pools, i: nat, byHash: map<Hash, Entry>, highEnd: map<Hash, int>)
    returns (row: map<EndpointId, Partition>)
    requires i < |pools|
    ensures row == Row(pools, i, byHash, highEnd.Keys)
  {
    var (endpointA, poolA) := pools[i];
    row := map[];
    var j := 0;
    while j < |pools|
      invariant 0 <= j <= |pools|
      invariant row.Keys == EndpointSet(pools[..j])
      invariant forall b :: b in row ==> row[b] == RowEntry(pools, i, b, byHash, highEnd.Keys)
    {
      var endpointB := pools[j].0;
      var pairDiffs := EmptyPartition;
      if endpointA != endpointB {
        pairDiffs := PairPartition(poolA.all, endpointA, endpointB, byHash, highEnd);
      }
      assert EndpointSet(pools[..j + 1]) == EndpointSet(pools[..j]) + {endpointB} by {
        assert forall k :: 0 <= k < j ==> pools[..j + 1][k] == pools[..j][k];
        assert pools[..j + 1][j] == pools[j];
      }
      row := row[endpointB := pairDiffs];
      j := j + 1;
    }
    assert pools[..j] == pools;
  }

  /** The table of every ordered pair, one row per endpoint. */
  predicate DifferencesOf(pools: Pools, byHash: map<Hash, Entry>, highEnd: set<Hash>,
                          differences: map<EndpointId, map<EndpointId, Partition>>)
  {
    && differences.Keys == EndpointSet(pools)
    && forall i :: 0 <= i < |pools| ==> differences[pools[i].0] == Row(pools, i, byHash, highEnd)
  }

  /** The two nested `forEach` over the pools. */
  method Differences(pools: Pools, byHash: map<Hash, Entry>, highEnd: map<Hash, int>)
    returns (differences: map<EndpointId, map<EndpointId, Partition>>)
    requires DistinctEndpoints(pools)
    ensures DifferencesOf(pools, byHash, highEnd.Keys, differences)
  {
    differences := map[];
    var i := 0;
    while i < |pools|
      invariant 0 <= i <= |pools|
      invariant differences.Keys == EndpointSet(pools[..i])
      invariant forall k :: 0 <= k < i ==> differences[pools[k].0] == Row(pools, k, byHash, highEnd.Keys)
    {
      var row := PartitionRow(pools, i, byHash, highEnd);
      assert EndpointSet(pools[..i + 1]) == EndpointSet(pools[..i]) + {pools[i].0} by {
        assert forall k :: 0 <= k < i ==> pools[..i + 1][k] == pools[..i][k];
        assert pools[..i + 1][i] == pools[i];
      }
      differences := differences[pools[i].0 := row];
      i := i + 1;
    }
    assert pools[..i] == pools;
  }

  /** Every ordered pair has an entry; the diagonal is empty; off the
      diagonal the two halves are disjoint, the well priced one holds only
      scored hashes, and together they are the hashes of A's pool that are
      not reported by both endpoints. */
  lemma DifferencesTable(pools: Pools, byHash: map<Hash, Entry>, highEnd: set<Hash>,
                         differences: map<EndpointId, map<EndpointId, Partition>>, i: nat, j: nat)
    requires DistinctEndpoints(pools)
    requires DifferencesOf(pools, byHash, highEnd, differences)
    requires i < |pools| && j < |pools|
    ensures pools[i].0 in differences && differences[pools[i].0].Keys == EndpointSet(pools)
    ensures i == j ==> differences[pools[i].0][pools[j].0] == EmptyPartition
    ensures i != j ==>
              var p := differences[pools[i].0][pools[j].0];
              && p == PartitionOf(pools[i].1.all, pools[i].0, pools[j].0, byHash, highEnd)
              && p.wellPriced !! p.lowerPriced
              && p.wellPriced <= highEnd
              && p.wellPriced + p.lowerPriced == set h | h in pools[i].1.all && Unshared(byHash, h, pools[i].0, pools[j].0)
  {
    assert pools[j].0 in EndpointSet(pools);
    PartitionShape(pools[i].1.all, pools[i].0, pools[j].0, byHash, highEnd);
  }

  /** `widecastableTransactions`: the positive scores, a partition for every
      ordered pair of endpoints (empty on the diagonal), and an empty
      `mischaracterized` map. No pools means three empty maps. */
  method WidecastableTransactions(pools: Pools, byHash: map<Hash, Entry>) returns (w: Widecastable)
    requires DistinctEndpoints(pools)
    requires |pools| > 0 ==> HasBufferedBaseFee(pools)
    requires |pools| > 0 ==> forall h :: h in byHash ==> ScoreDefined(byHash[h].tx, BufferedBaseFee(pools))
    ensures |pools| == 0 ==> w == Widecastable(map[], map[], map[])
    ensures w.mischaracterized == map[]
    ensures |pools| > 0 ==>
              var buffered := BufferedBaseFee(pools);
              && (forall h :: h in w.highEnd <==> h in byHash && Score(byHash[h].tx, buffered) > 0)
              && (forall h :: h in w.highEnd ==> w.highEnd[h] == Score(byHash[h].tx, buffered) && w.highEnd[h] > 0)
    ensures DifferencesOf(pools, byHash, w.highEnd.Keys, w.differences)
  {
    if |pools| == 0 {
      assert EndpointSet(pools) == {};
      return Widecastable(map[], map[], map[]);
    }
    var bufferedBaseFee := BufferedBaseFee(pools);
    var highEnd := HighEndTransactions(byHash, bufferedBaseFee);
    var differences := Differences(pools, byHash, highEnd);
    w := Widecastable(highEnd, differences, map[]);
  }
}
