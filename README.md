# mempool-resolve, modelled in Dafny

mempool-resolve watches the transaction pools of several Ethereum-style RPC
endpoints. I/O is not modelled; the project models the reconciliation
pipeline that runs on each cycle:

- **Watch** (`watch.dfy`): the poller's per-endpoint snapshot. It holds the
  txpool contents, the set `all` of the hashes in it, and the added/removed
  deltas against the same endpoint's previous snapshot. The `identifier`
  counter goes up by one per successful cycle.
- **Merge** (`merge.dfy`): the unified mempool structure, rebuilt from empty
  maps each cycle from the first transaction of every sender bucket.
  - `byHash`: each entry records the sub-pool it was first seen in and the
    endpoints that report it.
  - `byAddress`: hashes keyed by lower-cased sender.
  - `poolSummary`: each endpoint's pending/queued summary.
- **Scoring** (`scoring.dfy`): the buffered base fee of the cheapest latest
  block. From it come the score of every merged transaction, the map of
  positive scores, and the well-priced/lower-priced partition for each
  ordered endpoint pair.
- **Filters** (`filters.dfy`): the senders of the scored transactions, and
  the balance data of those whose cached data is not fresh. A balance below
  the minimum is stored as zero.
- **Selection** (`selection.dfy`): the rebroadcast order.
  1. Sort on the lower-cased text `${from}:${nonce}`.
  2. Keep the first transaction per lower-cased sender.
  3. Drop transactions whose sender cannot afford them.
  4. Sort by score, highest first.
- **Transmitter** (`transmitter.dfy`): the rebroadcaster.
  - It purges expired attempt records.
  - It offers each selected transaction to every endpoint, skipping an
    endpoint that reports the transaction or has any live record of it.
  - Each endpoint and transaction type gets at most 50 acceptances per
    round.
  - A rejection is recorded with its classified error message.
  - The round is written to stop once a transaction finds every endpoint
    at its cap, but as the pipeline is wired this never happens (see
    below).
- **Utils** (`utils.dfy`), **Strings** (`strings.dfy`), **Types**
  (`types.dfy`): the type table, the encoder dispatch, the bounded retry,
  and the affordability test. Also JavaScript string comparison, ASCII
  lower-casing, and the RPC hex text of a number.

Modelling choices:

- Hex quantities are naturals, and a missing fee field is `None`.
- Endpoints are numbers. A `Map<Endpoint, Pool>` is a sequence of distinct
  endpoints in insertion order.
- The node's answers are function parameters: txpool contents, blocks,
  balances, nonces, send outcomes and the encoder.
- Where the source throws a `TypeError`, the model has a precondition
  that excludes exactly the inputs that reach the throwing expression;
  each is listed under "Left out".

Where the comments and the code disagree, the model follows the code:

- `findDeltas` with no previous contents returns `null` deltas, not "all
  new" (`Watch.Delta`).
- A fresh cached balance is skipped and not copied into the new map. An
  address whose cached block stays within `balanceBlockInterval` of the
  current one therefore alternates between fetched and missing from one
  cycle to the next (`Filters.AlternatingRefresh`).
- The selection sorts on text, so nonce `0x10` sorts before `0x2`. A
  sender's nonce-2 transaction is never chosen while its nonce-16 one is
  in the map (`Selection.NonceTextOrder`, `Selection.NonceTwoShadowed`).
- Rejections are written into the same records as acceptances, so the
  cooldown skips an endpoint after a rejection too (`Transmitter.SendToAnswers`).
- `breakout` is set only when every endpoint returned `null`. An endpoint
  that already reports the transaction returns 0, so it prevents the break
  (`Transmitter.Process`). The merged view and the round use the same
  pools (src/diff.ts:83 and src/diff.ts:95), and every merged hash is
  reported by one of them. So `breakout` is never set, and the early exit
  the comments describe is dead code (`Transmitter.RoundNeverBreaksOut`).
- The `widecasted` set is never filled (`Transmitter.Transmitter.Widecast`).
- The "exceeds block gas limit" phrase is declared but never used to
  classify (`Transmitter.ClassifyError`).
- The eip7702 branch passes no fee fields to the encoder (`Utils.ToUnsigned`).

## Model

| member | source | states |
|---|---|---|
| Strings.Lower | src/diff.ts:475 | lower-casing keeps length and maps each character by ASCII lower-casing |
| Strings.FirstLine | src/diff.ts:246 | the first line is a prefix of the text, holds no newline, and is followed by a newline when shorter than the text |
| Strings.IndexOf | src/diff.ts:248 | `indexOf` finds an occurrence with none before it, or reports that there is none anywhere |
| Strings.Quantity | src/diff.ts:163 | a nonce is written as `0x` followed by lower-case hex digits |
| Strings.QuantityRoundTrip | src/diff.ts:163 | the hex text of a nonce reads back as the nonce, with no leading zero except for zero itself |
| Utils.ToUnsigned | src/utils.ts:32-90 | each encoding gets the nonce, gas, value and chain id (369 when absent), plus the gas price for legacy/eip2930, both fee caps for eip1559, and no fee field for eip7702 |
| Utils.SerializeRpcTransaction | src/utils.ts:29-94 | the result is `null` exactly for type 3 (eip4844) or a type outside the table; otherwise it is the encoder applied to that type's fields |
| Utils.Retry | src/utils.ts:14-22 | `fn` is called between 1 and retries+1 times; the first success is returned, and if there is none the last error is raised after exactly retries+1 calls |
| Utils.BufferedFee | src/utils.ts:114 | `fee * 11250 / 10000`, rounded down by integer division, is never below the fee itself |
| Utils.EnoughBalanceToCover | src/utils.ts:103-137 | false when gas exceeds the block limit, whatever the fee fields and the base fee; within the limit: for type 2, true iff the buffered fee fits under the fee cap, (buffered + tip) * gas + value fits the balance, and tip <= cap; for types 0/1, true iff the price is not below the base fee and price * gas + value fits; for other types, true iff gas fits |
| Utils.EnoughBalanceMonotone | src/utils.ts:103-137 | a larger balance keeps an affordable transaction affordable |
| Watch.ToListMembers | src/watch.ts:42-44 | `toList` yields exactly the hashes of the transactions in all sender buckets |
| Watch.Delta | src/watch.ts:114-135 | with no previous contents both deltas are `null`; otherwise added and removed are disjoint, `(prev - removed) + added == current`, added lies in current, and removed lies outside it |
| Watch.FindDeltas | src/watch.ts:114-135 | the two loops compute `added = current - prev` and `removed = prev - current`, or `null`s without previous contents |
| Watch.PreviousContents | src/watch.ts:80 | the previous contents are found iff the endpoint was in the previous pools, and they are that endpoint's contents |
| Watch.SnapshotShape | src/watch.ts:77-93 | `all` is pending union queued: a hash is in it iff some pending or queued bucket holds a transaction with it; and each sub-pool's deltas are taken against the same sub-pool of the endpoint's previous contents |
| Watch.BuildPools | src/watch.ts:74-97 | one pool per endpoint, in order, each the snapshot of its fetched contents and block against its previous contents |
| Watch.Mempools.constructor | src/watch.ts:26-27 | the counter starts at 0 with no pools |
| Watch.Mempools.Cycle | src/watch.ts:70-99 | a complete answer while running raises the counter by exactly 1 and replaces the pools wholesale; a failed fetch or a stopped process changes neither |
| Watch.RecomputeAfterCycle | src/diff.ts:82-108 | a bumped counter is recomputed exactly when there are pools; an unchanged counter is never recomputed, and only the last results are shown again |
| Merge.FirstOfEachBucketShape | src/diff.ts:437-442 | at most one append per bucket, each the first transaction of a non-empty bucket, and every non-empty bucket contributes its first transaction |
| Merge.PendingBeforeQueued | src/diff.ts:434-448 | within one endpoint every append is that endpoint's, and pending appends come before queued ones |
| Merge.AppendsAreFirstOfBucket | src/diff.ts:434-448 | every append of the cycle is the first transaction of a bucket of the sub-pool it is filed under, at the endpoint that appended it |
| Merge.ByHashKeys | src/diff.ts:466-473 | `byHash` has exactly one entry per appended hash |
| Merge.ByHashOrigins | src/diff.ts:466-473 | an entry's origins are exactly the endpoints that appended its hash, hence non-empty |
| Merge.ByHashFirstSighting | src/diff.ts:466-472 | an entry keeps the transaction and the sub-pool of its first append |
| Merge.SummaryContents | src/diff.ts:461-463 | an endpoint has a summary iff it appended something, and each half of the summary holds exactly the hashes it appended under that key |
| Merge.ByAddressContents | src/diff.ts:475-478 | `byAddress` files exactly the appended hashes under their lower-cased sender |
| Merge.MempoolStructure.constructor | src/diff.ts:430-433 | the structure starts from three empty maps |
| Merge.MempoolStructure.AppendRpcTransaction | src/diff.ts:458-479 | a new hash gets the entry (tx, key, {endpoint}); an existing entry only gains the endpoint; other entries are untouched; the three maps stay the folds of the appends |
| Merge.MempoolStructure.AppendFirstOfEachBucket | src/diff.ts:437-442 | the structure absorbs the first transaction of every bucket |
| Merge.GetMempoolStructure | src/diff.ts:429-451 | the structure is the fold of every endpoint's pending and then queued first transactions, in pool order |
| Scoring.CheapestFromIsLeast | src/diff.ts:290-301 | the `reduce` step yields the least truthy base fee of the blocks seen, or keeps the start when none is truthy |
| Scoring.CheapestIsLeastPositive | src/diff.ts:290-301 | the cheapest block is one of the blocks; its base fee is least among the truthy ones when there are any; otherwise it is the first block |
| Scoring.BufferedFeeMonotone | src/diff.ts:302-304 | buffering preserves order |
| Scoring.BufferedBaseFee | src/diff.ts:290-304 | when some base fee is truthy, the buffered base fee is the buffered fee of a pool with a truthy base fee and no more than that of any such pool; when none is, it is the first pool's zero base fee buffered |
| Scoring.Score | src/diff.ts:305-318 | type 2 with cap >= buffered scores tip - cap/20 (integer division); types 0/1 with price >= buffered score price - buffered; every other case scores 0 |
| Scoring.ScorePositive | src/diff.ts:309-322 | the score is positive iff (type 2, cap >= buffered, and tip above cap/20) or (type 0/1 and price above buffered) |
| Scoring.HighEndTransactions | src/diff.ts:305-323 | a hash is in the score map iff it is merged and its score is positive, and it maps to that score |
| Scoring.PartitionShape | src/diff.ts:332-343 | for A != B the halves are disjoint; well priced is the scored part and lower priced the rest; together they are A's hashes that are merged and not in both origins |
| Scoring.UnsharedInMergedView | src/diff.ts:333-337 | in this cycle's merge, a hash of A is left unclassified iff both A and B appended it |
| Scoring.PairPartition | src/diff.ts:331-344 | the loop over A's hashes builds exactly that pair's partition |
| Scoring.PartitionRow | src/diff.ts:325-347 | the row of A has one partition per endpoint B: empty for B == A, the pair partition otherwise |
| Scoring.Differences | src/diff.ts:324-348 | the nested loops build one such row per endpoint |
| Scoring.DifferencesTable | src/diff.ts:324-348 | every ordered pair has an entry; diagonal entries are empty; off the diagonal the partition is disjoint, its well-priced half lies within the score map, and its union is the unshared merged hashes of A |
| Scoring.WidecastableTransactions | src/diff.ts:283-354 | no pools gives three empty maps; otherwise the score map holds exactly the positively scored merged hashes with their scores, the differences table is as above, and the mischaracterized map is always empty |
| Filters.FloorToMinimum | src/diff.ts:405-408 | a balance below the minimum becomes 0; any other balance is kept |
| Filters.CollectAddresses | src/diff.ts:370-376 | the addresses are exactly the senders of the scored hashes |
| Filters.GetFilters | src/diff.ts:364-421 | the addresses are the senders; each address without fresh cached data is stored with its floored balance at the first pool's block, its latest nonce, and that block; fresh addresses are not stored |
| Filters.FetchedBalancesShape | src/diff.ts:378-413 | stored keys are addresses from the set; each stored amount is 0 or at least the minimum; each was read at the current block |
| Filters.AlternatingRefresh | src/diff.ts:382-388 | an address fetched in one cycle is skipped and left out in the next (within the interval), then fetched again in the cycle after |
| Selection.Candidates | src/diff.ts:159-168 | every candidate carries the sort key and the sender key of its own transaction, and that transaction is the merged one of its hash |
| Selection.CandidatesOfScores | src/diff.ts:159 | when `entries` are the entries of the score map, the candidates have distinct hashes, each carries its hash's score, and every scored hash has a candidate |
| Selection.SortByKeySorted | src/diff.ts:160-164 | the first sort orders by the text key and is a permutation |
| Selection.UniqBySenderFirsts | src/diff.ts:165-168 | `uniqBy` keeps only the first element of each sender |
| Selection.UniqBySenderKeeps | src/diff.ts:165-168 | `uniqBy` keeps the first element of every sender |
| Selection.UniqBySenderDistinct | src/diff.ts:165-168 | the survivors have distinct lower-cased senders |
| Selection.FilterEligibleShape | src/diff.ts:169-184 | the filter keeps exactly the elements whose sender has cached data with amount >= minimum, next nonce equal to the transaction's, and enough balance to cover it |
| Selection.SortByScoreSorted | src/diff.ts:185-188 | the final sort orders by non-increasing score and is a permutation |
| Selection.SortByScoreDistinct | src/diff.ts:185-188 | the final sort keeps senders distinct |
| Selection.SelectSound | src/diff.ts:159-189 | the selection has distinct senders and non-increasing scores, and each member is an eligible candidate; only the candidates `uniqBy` keeps need be safe to filter |
| Selection.SelectLeastKey | src/diff.ts:160-168 | a selected transaction's key is the least among its sender's candidates |
| Selection.SelectComplete | src/diff.ts:159-189 | an eligible candidate whose key is strictly least among its sender's candidates is selected |
| Selection.NonceTextOrder | src/diff.ts:163 | of one sender, nonce 16 (`0x10`) sorts before nonce 2 (`0x2`) |
| Selection.NonceTwoShadowed | src/diff.ts:159-189 | a sender's nonce-2 candidate is never selected while its nonce-16 candidate is present |
| Transmitter.ClassifyError | src/diff.ts:246-253 | the recorded text is a prefix of the first line; it ends at the first occurrence of the insufficient-funds phrase if the line has one, else at the first "nonce too low" if it has that, else it is the whole first line |
| Transmitter.SendToAnswers | src/diff.ts:219-260 | an origin gives 0 and changes nothing; `null` exactly when there is no record and the type's round counter is full; 1 exactly when there is no record, the counter has room, the transaction serialises, and the node accepts; 0 otherwise |
| Transmitter.SendToRecords | src/diff.ts:219-260 | after a callback, the records are the old ones plus one for this endpoint and hash exactly when the node accepted, or rejected with details |
| Transmitter.SendToWrites | src/diff.ts:236-258 | an acceptance is stored as a success of this block in both the records and the round counter; a rejection with details is stored with its classified error in the records only |
| Transmitter.SendToKeeps | src/diff.ts:219-260 | a callback changes no existing record, adds only records of this block at non-origin endpoints, keeps counters at most 50, and mirrors every counted acceptance in the records |
| Transmitter.Process | src/diff.ts:214-272 | nothing happens when the process is stopped, `breakout` is set, or the hash is not merged; `breakout` becomes true iff every endpoint returned `null` |
| Transmitter.RoundGuarantees | src/diff.ts:211-273 | over a round: each counted acceptance is recorded as a success of this block, and every new success is counted under its endpoint and type, so each endpoint and type name gets at most 50 new successes; no earlier record changes; each new record is of this block, for a merged hash, at an endpoint not among its origins |
| Transmitter.SendToCounted | src/diff.ts:229-258 | a callback removes no counter entry, and the success it records is entered in the counter of its endpoint and type |
| Transmitter.FanOutOriginAnswers | src/diff.ts:219 | in the fan-out, an endpoint that reports the transaction answers 0 |
| Transmitter.MergedHasPoolOrigin | src/diff.ts:429-479 | every hash merged from the pools was reported by one of those pools' endpoints |
| Transmitter.NoBreakoutOnOwnPools | src/diff.ts:214-272 | when the merged view is built from the pools the round fans out to, one transaction's callback never sets `breakout` |
| Transmitter.RoundNeverBreaksOut | src/diff.ts:211-273 | so a round over this cycle's merged view never breaks out |
| Transmitter.BreakoutStops | src/diff.ts:214 | once `breakout` is set, the rest of the round changes nothing |
| Transmitter.SkippedAfterBreakout | src/diff.ts:269-272 | the transactions after the one that set `breakout` are all skipped |
| Transmitter.PurgedShape | src/diff.ts:203-210 | after the purge no pool endpoint keeps an expired record; unexpired records and other endpoints' records are unchanged |
| Transmitter.OfferedScored | src/diff.ts:159-189 | the transactions offered in the round are distinct scored, merged hashes |
| Transmitter.WidecastGuarantees | src/diff.ts:144-275 | an enabled pass keeps every unexpired record unchanged; new records are of this block, at non-origin endpoints; an expired record of a pool endpoint is gone or replaced by one of this block |
| Transmitter.Transmitter.constructor | src/diff.ts:130 | the attempt records start empty |
| Transmitter.Transmitter.Purge | src/diff.ts:203-210 | the loops delete exactly the expired records of the pools' endpoints |
| Transmitter.Transmitter.SendToEndpoint | src/diff.ts:219-260 | the in-place callback updates the records and the round table as the callback rules say |
| Transmitter.Transmitter.FanOutTo | src/diff.ts:217-261 | one transaction is offered to the endpoints in pool order |
| Transmitter.Transmitter.DispatchRound | src/diff.ts:211-273 | the limiter loop leaves the records as the round over the offered transactions does |
| Transmitter.Transmitter.Widecast | src/diff.ts:144-275 | the entries are those of the score map, whose hashes are merged; disabled: an empty set and an empty map, with the records untouched; enabled: purge, then the round over the selection, returning the records themselves and an empty `widecasted` set |

## Left out

- Concurrency: the dispatch of `promiseLimit(16)` and `Promise.all` is modelled one transaction and one endpoint after another. Under real concurrency the cap of 50 can be overshot, and `breakout` can be read before earlier callbacks finish.
- RPC calls are parameters: txpool contents, blocks, balances, nonces, send outcomes. Their I/O and the polling and timer intervals (`wait`, `raceShutdown`) are not modelled.
- Filters.GetFilters: a balance or nonce query that still fails after its retries rejects the whole pass in the source; the model takes the queries as total functions.
- Utils.SerializeRpcTransaction: the encoder is total here. In the source, `BigInt(rpcTx.value)` (src/utils.ts:35), `BigInt(sig.v!)` (src/utils.ts:50) or viem's own input checks can throw; the call at src/diff.ts:236 is outside the `try`, so the throw rejects `Promise.all` and ends the whole pass with the records written so far. `Transmitter.SendTo` therefore never models that abort.
- Serialisation: viem's `serializeTransaction` is an abstract encoder. The signature, recipient, call data, access list and authorisation list pass through and are not modelled. `Number()` on a nonce or chain id above 2^53 loses precision in the source; the model keeps exact naturals.
- Strings.Lower: lower-cases ASCII letters only, where JavaScript's `toLowerCase` covers all of Unicode; hex addresses are ASCII.
- Insertion order: the score map's insertion order is a parameter `entries`, and the pools' order is the order of the sequence.
- Selection.SortByScoreSorted: the source's comparator never returns 0, so the engine decides the order of equal scores; the model uses a stable insertion sort and states only the non-increasing order and the permutation.
- Selection.SortByKeySorted: lodash `sortBy` is stable and so is the model, but stability is not stated.
- `processIsRunning()` is a boolean parameter, constant over one round.
- UI updates (`ui.update`, `onUpdate`) and all of `src/ui`, `src/args.ts` (the settings are a `Config` parameter), `src/verification.ts`, `src/process.ts` and `src/bin`: these are presentation, configuration and process plumbing.
- The outer `printMempoolDiffs` loop is modelled only in its recompute rule; the `lastMempoolStructure` snapshot is passed explicitly (the previous balances).
- Types.WellTyped: a missing fee field of a priced type throws in `BigInt(...!)` at src/utils.ts:111-112 and src/utils.ts:128; the model requires the fields instead.
- Utils.AffordabilityDefined: a missing base fee throws for a type 2 transaction within the gas limit at src/utils.ts:114; the model requires it, and requires nothing of a transaction over the limit, which returns at src/utils.ts:107-108 first.
- Selection.EligibleDefined: the filter reaches `enoughBalanceToCover` (src/diff.ts:183) only after the balance and nonce tests at src/diff.ts:174-182; the model requires `AffordabilityDefined` only then, and `Selection.SelectDefined` only of the candidates `uniqBy` keeps.
- Scoring.HasBufferedBaseFee: `baseFeePerGas! * buffer` at src/diff.ts:304 throws when the cheapest block has no base fee; the model requires one.
- Scoring.ScoreDefined: `BigInt(tx.maxPriorityFeePerGas)` at src/diff.ts:312 throws when the field is missing; the model requires it exactly when that line is reached.
- `byAddress` holds entry objects in the source; the model holds their hashes, which name one object each.
