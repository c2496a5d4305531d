/** Value shapes shared by the whole reconciliation pipeline: the raw RPC
    transaction and the formatted block header as the JSON-RPC client hands
    them over, with every hex quantity already parsed into a natural, and
    the configuration the pipeline reads. */
module Types {

  datatype Option<+T> = None | Some(value: T)

  type Hash = string
  type Address = string

  /** The ordinal id of an endpoint (1, 2, 3, … in configuration order).
      Endpoints are map keys by identity; ids are unique, so an id stands
      for its endpoint. */
  type EndpointId = nat

  /** The two sub-pools of a node's txpool. */
  datatype PoolType = Pending | Queued

  /** A transaction as the txpool reports it. The fee fields are hex strings
      in the RPC answer, so the source's truthiness tests on them are
      presence tests: `None` is an absent field. */
  datatype Tx = Tx(
    hash: Hash,
    from: Address,
    nonce: nat,
    txType: nat,
    gas: nat,
    value: nat,
    gasPrice: Option<nat>,
    maxFeePerGas: Option<nat>,
    maxPriorityFeePerGas: Option<nat>,
    chainId: Option<nat>)

  /** The fee fields a node always sends for the types the pipeline prices:
      maxFeePerGas and maxPriorityFeePerGas for type 2, gasPrice for types 0
      and 1. Without them the source's `BigInt(...)` conversions throw. */
  predicate WellTyped(tx: Tx) {
    && (tx.txType == 2 ==> tx.maxFeePerGas.Some? && tx.maxPriorityFeePerGas.Some?)
    && (tx.txType == 0 || tx.txType == 1 ==> tx.gasPrice.Some?)
  }

  /** A block header. `baseFeePerGas` is a bigint or null in the formatted
      block, so a zero base fee is as falsy as a missing one. */
  datatype Block = Block(number: nat, gasLimit: nat, baseFeePerGas: Option<nat>)

  /** JavaScript truthiness of an optional bigint. */
  predicate Truthy(x: Option<nat>) {
    x.Some? && x.value != 0
  }

  /** One sender's `{nonce → tx}` record, in `Object.values` order. */
  type Bucket = seq<Tx>

  /** `txpool_content`: `{sender → {nonce → tx}}` for each sub-pool, the
      senders in `Object.values` order. */
  datatype TxpoolContent = TxpoolContent(pending: seq<Bucket>, queued: seq<Bucket>)

  /** The options the pipeline reads (their parsing is not modelled). */
  datatype Config = Config(
    widecast: bool,
    rebroadcastBlockInterval: nat,
    minBalanceEther: nat,
    balanceBlockInterval: nat)

  const OneEther: nat := 1_000_000_000_000_000_000

  /** The minimum balance, in wei, of an account worth widecasting for. */
  function MinimumBalance(cfg: Config): nat {
    cfg.minBalanceEther * OneEther
  }
}
