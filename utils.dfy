/** The pure helpers of the pipeline: the table of transaction encodings,
    the type dispatch in front of the transaction encoder, the bounded retry
    of a failing call, and the projected affordability test. */
module Utils {
  import opened Types

  /** `typeList`: the encodings, indexed by the numeric transaction type. */
  const TypeList: seq<string> := ["legacy", "eip2930", "eip1559", "eip4844", "eip7702"]

  /** `typeList[n]` used as text in a template: out of range reads
      `undefined`. */
  function TypeName(n: nat): string {
    if n < |TypeList| then TypeList[n] else "undefined"
  }

  // ---------------------------------------------------------------------
  // Serialisation dispatch

  /** The encodings the rebroadcaster can produce; eip4844 has none. */
  datatype Encoding = Legacy | Eip2930 | Eip1559 | Eip7702

  /** What is handed to the encoder. The signature, the recipient, the call
      data and the access and authorisation lists pass through unchanged
      and are not modelled. */
  datatype Unsigned = Unsigned(
    encoding: Encoding,
    nonce: nat,
    gas: nat,
    value: nat,
    chainId: nat,
    gasPrice: Option<nat>,
    maxFeePerGas: Option<nat>,
    maxPriorityFeePerGas: Option<nat>)

  const DefaultChainId: nat := 369

  function EncodingOf(txType: nat): Option<Encoding> {
    match TypeName(txType)
    case "legacy" => Some(Legacy)
    case "eip2930" => Some(Eip2930)
    case "eip1559" => Some(Eip1559)
    case "eip7702" => Some(Eip7702)
    case _ => None
  }

  /** The fields each branch passes to the encoder: a gas price for the two
      flat-price encodings, the two fee caps for eip1559, and no fee field
      at all for eip7702. A missing chain id becomes 369. */
  function ToUnsigned(tx: Tx, encoding: Encoding): (u: Unsigned)
    ensures u.encoding == encoding && u.nonce == tx.nonce && u.gas == tx.gas && u.value == tx.value
    ensures u.chainId == (if tx.chainId.Some? then tx.chainId.value else DefaultChainId)
    ensures encoding == Legacy || encoding == Eip2930 ==>
              u.gasPrice == tx.gasPrice && u.maxFeePerGas.None? && u.maxPriorityFeePerGas.None?
    ensures encoding == Eip1559 ==>
              u.gasPrice.None? && u.maxFeePerGas == tx.maxFeePerGas
              && u.maxPriorityFeePerGas == tx.maxPriorityFeePerGas
    ensures encoding == Eip7702 ==>
              u.gasPrice.None? && u.maxFeePerGas.None? && u.maxPriorityFeePerGas.None?
  {
    var chainId := if tx.chainId.Some? then tx.chainId.value else DefaultChainId;
    match encoding
    case Legacy => Unsigned(Legacy, tx.nonce, tx.gas, tx.value, chainId, tx.gasPrice, None, None)
    case Eip2930 => Unsigned(Eip2930, tx.nonce, tx.gas, tx.value, chainId, tx.gasPrice, None, None)
    case Eip1559 =>
      Unsigned(Eip1559, tx.nonce, tx.gas, tx.value, chainId, None, tx.maxFeePerGas, tx.maxPriorityFeePerGas)
    case Eip7702 => Unsigned(Eip7702, tx.nonce, tx.gas, tx.value, chainId, None, None, None)
  }

  /** `serializeRpcTransaction`, with the encoder a parameter: `None` is the
      source's `null`. */
  function SerializeRpcTransaction(tx: Tx, encode: Unsigned -> seq<bv8>): (r: Option<seq<bv8>>)
    ensures r.None? <==> tx.txType == 3 || tx.txType >= |TypeList|
    ensures tx.txType == 0 ==> r == Some(encode(ToUnsigned(tx, Legacy)))
    ensures tx.txType == 1 ==> r == Some(encode(ToUnsigned(tx, Eip2930)))
    ensures tx.txType == 2 ==> r == Some(encode(ToUnsigned(tx, Eip1559)))
    ensures tx.txType == 4 ==> r == Some(encode(ToUnsigned(tx, Eip7702)))
  {
    match EncodingOf(tx.txType)
    case Some(encoding) => Some(encode(ToUnsigned(tx, encoding)))
    case None => None
  }

  // ---------------------------------------------------------------------
  // Retry

  /** The outcome of one call of the retried function. */
  datatype Attempt<T, E> = Resolved(value: T) | Rejected(error: E)

  /** `retry(fn, retries)` over the outcomes `fn` produces call after call:
      the final outcome and the number of calls made. The first success is
      returned; after `retries + 1` failures the last error is raised. Every
      caller in the pipeline leaves `retries` at its default of 3. The wait
      between calls is not modelled. */
  function Retry<T, E>(outcomes: seq<Attempt<T, E>>, retries: nat): (r: (Attempt<T, E>, nat))
    requires |outcomes| > retries
    ensures 1 <= r.1 <= retries + 1
    ensures r.0.Resolved? <==> exists i :: 0 <= i <= retries && outcomes[i].Resolved?
    ensures r.0.Resolved? ==> r.0 == outcomes[r.1 - 1] && forall i :: 0 <= i < r.1 - 1 ==> outcomes[i].Rejected?
    ensures r.0.Rejected? ==> r.1 == retries + 1 && r.0 == outcomes[retries]
    decreases retries
  {
    if outcomes[0].Resolved? || retries == 0 then
      (outcomes[0], 1)
    else
      var later := Retry(outcomes[1..], retries - 1);
      (later.0, later.1 + 1)
  }

  // ---------------------------------------------------------------------
  // Affordability

  /** The 12.5 % upward buffer on a base fee, in basis points. */
  const Buffer: nat := 11_250
  const BasisPoints: nat := 10_000

  /** A base fee projected one full block ahead, with integer division. */
  function BufferedFee(baseFee: nat): (r: nat)
    ensures r * BasisPoints <= baseFee * Buffer < (r + 1) * BasisPoints
    ensures baseFee <= r
  {
    baseFee * Buffer / BasisPoints
  }

  /** What `enoughBalanceToCover` reads once the gas has passed the block
      limit: the fee fields of its type and, for type 2, the block's base
      fee, which the source reads unguarded. A transaction over the limit
      is refused before any of them is read. */
  predicate AffordabilityDefined(tx: Tx, block: Block) {
    tx.gas <= block.gasLimit ==> WellTyped(tx) && (tx.txType == 2 ==> block.baseFeePerGas.Some?)
  }

  /** `enoughBalanceToCover`: can `balance` pay for `tx` even if the next
      base fee rises by the full buffer? For types 0 and 1 a missing base
      fee makes the comparison false, as in JavaScript. */
  function EnoughBalanceToCover(tx: Tx, block: Block, balance: nat): (ok: bool)
    requires AffordabilityDefined(tx, block)
    ensures tx.gas > block.gasLimit ==> !ok
    ensures tx.gas <= block.gasLimit && tx.txType == 2 ==>
              var next := BufferedFee(block.baseFeePerGas.value);
              var maxFee := tx.maxFeePerGas.value;
              var tip := tx.maxPriorityFeePerGas.value;
              ok <==> next <= maxFee && (next + tip) * tx.gas + tx.value <= balance && tip <= maxFee
    ensures tx.gas <= block.gasLimit && (tx.txType == 0 || tx.txType == 1) ==>
              var price := tx.gasPrice.value;
              ok <==> !(block.baseFeePerGas.Some? && price < block.baseFeePerGas.value)
                      && price * tx.gas + tx.value <= balance
    ensures tx.gas <= block.gasLimit && tx.txType > 2 ==> ok
  {
    if tx.gas > block.gasLimit then false
    else if tx.txType == 2 then
      var maxFeePerGas := tx.maxFeePerGas.value;
      var maxPriorityFeePerGas := tx.maxPriorityFeePerGas.value;
      var nextHighBaseFee := BufferedFee(block.baseFeePerGas.value);
      if nextHighBaseFee > maxFeePerGas then false
      else if (nextHighBaseFee + maxPriorityFeePerGas) * tx.gas + tx.value > balance then false
      else if maxPriorityFeePerGas > maxFeePerGas then false
      else true
    else if tx.txType == 1 || tx.txType == 0 then
      var gasPrice := tx.gasPrice.value;
      if block.baseFeePerGas.Some? && gasPrice < block.baseFeePerGas.value then false
      else if gasPrice * tx.gas + tx.value > balance then false
      else true
    else true
  }

  /** A larger balance never turns an affordable transaction unaffordable. */
  lemma EnoughBalanceMonotone(tx: Tx, block: Block, balance: nat, more: nat)
    requires AffordabilityDefined(tx, block)
    requires balance <= more
    requires EnoughBalanceToCover(tx, block, balance)
    ensures EnoughBalanceToCover(tx, block, more)
  {
  }
}
