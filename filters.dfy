/** The balance filter: the senders of the scored transactions, and for each
    sender whose cached balance is not recent enough, its balance at the
    current block (floored to zero below the minimum) and its latest nonce.
    The node queries are parameters. */
module Filters {
  import opened Types
  import opened Watch
  import opened Merge

  datatype BalanceData = BalanceData(amount: nat, latestNonce: nat, block: Block)

  type Balances = map<Address, BalanceData>

  /** The senders of the scored hashes, as the entries spell them. */
  function Senders(byHash: map<Hash, Entry>, highEnd: set<Hash>): set<Address> {
    set h | h in highEnd && h in byHash :: byHash[h].tx.from
  }

  /** The cache test: a previous snapshot holds data for the address taken
      at most `interval` blocks before the current block (inclusive). */
  predicate IsFresh(previous: Option<Balances>, a: Address, current: Block, interval: nat) {
    && previous.Some?
    && a in previous.value
    && previous.value[a].block.number as int >= current.number as int - interval as int
  }

  /** A balance below the minimum counts as nothing. */
  function FloorToMinimum(balance: nat, minimum: nat): (r: nat)
    ensures r == 0 || r >= minimum
    ensures balance >= minimum <==> r == balance && (balance > 0 || minimum == 0)
    ensures balance < minimum ==> r == 0
  {
    if balance < minimum then 0 else balance
  }

  /** What the fetch pass stores: every address that is not fresh, with the
      floored balance at the current block, its latest nonce, and the block
      it was read at. */
  function FetchedBalances(addresses: set<Address>, previous: Option<Balances>, current: Block, interval: nat,
                           minimum: nat, balanceAt: (Address, nat) -> nat, nonceOf: Address -> nat): Balances
  {
    map a | a in addresses && !IsFresh(previous, a, current, interval) ::
      BalanceData(FloorToMinimum(balanceAt(a, current.number), minimum), nonceOf(a), current)
  }

  /** The sender pass over the scored hashes. */
  method CollectAddresses(byHash: map<Hash, Entry>, highEnd: set<Hash>) returns (addresses: set<Address>)
    requires highEnd <= byHash.Keys
    ensures addresses == Senders(byHash, highEnd)
    ensures forall a :: a in addresses <==> exists h :: h in highEnd && byHash[h].tx.from == a
  {
    addresses := {};
    var todo := highEnd;
    while todo != {}
      invariant todo <= highEnd
      invariant addresses == Senders(byHash, highEnd - todo)
      decreases todo
    {
      var tx :| tx in todo;
      var rpcTx := byHash[tx];
      addresses := addresses + {rpcTx.tx.from};
      todo := todo - {tx};
    }
    assert highEnd - todo == highEnd;
  }

  /** `getFilters`. The first pool's latest block is the current block; the
      balance is read at its number and the nonce at `latest`. An address
      whose cached data is fresh is neither fetched nor stored. */
  method GetFilters(pools: Pools, previous: Option<Balances>, byHash: map<Hash, Entry>, highEnd: set<Hash>, cfg: Config,
                    balanceAt: (Address, nat) -> nat, nonceOf: Address -> nat)
    returns (addresses: set<Address>, balancesByAddress: Balances)
    requires |pools| > 0
    requires highEnd <= byHash.Keys
    ensures addresses == Senders(byHash, highEnd)
    ensures balancesByAddress ==
              FetchedBalances(addresses, previous, pools[0].1.block, cfg.balanceBlockInterval, MinimumBalance(cfg), balanceAt, nonceOf)
  {
    addresses := CollectAddresses(byHash, highEnd);
    var firstPool := pools[0].1;
    var currentBlock := firstPool.block;
    var minimumBalance := MinimumBalance(cfg);
    balancesByAddress := map[];
    var todo := addresses;
    while todo != {}
      invariant todo <= addresses
      invariant balancesByAddress ==
                  FetchedBalances(addresses - todo, previous, currentBlock, cfg.balanceBlockInterval,
                                  minimumBalance, balanceAt, nonceOf)
      decreases todo
    {
      var address :| address in todo;
      var skip := false;
      if previous.Some? {
        if address in previous.value {
          var previousBalanceData := previous.value[address];
          if previousBalanceData.block.number as int >= currentBlock.number as int - cfg.balanceBlockInterval as int {
            skip := true;
          }
        }
      }
      if !skip {
        var bal := balanceAt(address, currentBlock.number);
        var latestNonce := nonceOf(address);
        if bal < minimumBalance {
          bal := 0;
        }
        balancesByAddress := balancesByAddress[address := BalanceData(bal, latestNonce, currentBlock)];
      }
      todo := todo - {address};
    }
    assert addresses - todo == addresses;
  }

  /** The stored map's keys are senders, each stored amount is zero or at
      least the minimum, and every entry was read at the current block. */
  lemma FetchedBalancesShape(addresses: set<Address>, previous: Option<Balances>, current: Block, interval: nat,
                             minimum: nat, balanceAt: (Address, nat) -> nat, nonceOf: Address -> nat)
    ensures var m := FetchedBalances(addresses, previous, current, interval, minimum, balanceAt, nonceOf);
            && m.Keys <= addresses
            && forall a :: a in m ==> (m[a].amount == 0 || m[a].amount >= minimum) && m[a].block == current
  {
  }

  /** The cache is not carried forward: an address stored in one cycle and
      still a sender in the next, within `interval` blocks, is skipped and
      left out of the next map; the cycle after that finds nothing cached
      and fetches it again. */
  lemma {:induction false} AlternatingRefresh(addresses1: set<Address>, addresses2: set<Address>, addresses3: set<Address>,
                                              previous: Option<Balances>, b1: Block, b2: Block, b3: Block, interval: nat,
                                              minimum: nat, balanceAt: (Address, nat) -> nat, nonceOf: Address -> nat, a: Address)
    requires a in addresses1 && a in addresses2 && a in addresses3
    requires !IsFresh(previous, a, b1, interval)
    requires b2.number <= b1.number + interval
    ensures var m1 := FetchedBalances(addresses1, previous, b1, interval, minimum, balanceAt, nonceOf);
            var m2 := FetchedBalances(addresses2, Some(m1), b2, interval, minimum, balanceAt, nonceOf);
            var m3 := FetchedBalances(addresses3, Some(m2), b3, interval, minimum, balanceAt, nonceOf);
            && a in m1 && a !in m2 && a in m3
  {
    var m1 := FetchedBalances(addresses1, previous, b1, interval, minimum, balanceAt, nonceOf);
    assert a in m1;
    assert m1[a].block == b1;
    assert IsFresh(Some(m1), a, b2, interval);
  }
}
