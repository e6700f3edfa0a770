/** The chain gateway (backend/app/integration/web3_integration.py). The node
    itself is a `ChainView`: one read-only snapshot of what every RPC call
    would answer. The decision predicates are modelled with their exception
    handling: where the source catches an exception and returns a default,
    so does the model. */
module Web3Integration {
  import opened Wrappers
  import opened Keys
  import opened Units

  /** What a lookup by hash gives: the record, a `None` from the provider, or
      an exception (an unknown hash, a transport error). */
  datatype Lookup<T> = Found(value: T) | Null | Raises

  /** A mined or pending transaction as `eth.get_transaction` returns it; its
      value is a 256-bit word. */
  datatype ChainTx = ChainTx(sender: string, to: string, value: Uint256, input: string, blockNumber: Option<nat>)

  /** The arguments of an ERC-20 `Transfer` event. */
  datatype TransferEvent = TransferEvent(to: string, value: nat)

  /** One receipt log: the emitting contract and what
      `Transfer().process_log` decodes from it (None where decoding raises). */
  datatype Log = Log(address: string, transfer: Option<TransferEvent>)

  datatype Receipt = Receipt(
    status: int,
    blockNumber: nat,
    sender: string,
    gasUsed: nat,
    effectiveGasPrice: nat,
    logs: seq<Log>)

  /** What a drafted transaction does: send ether, or call the token's
      `transfer(recipient, amount)`. */
  datatype Call = PlainTransfer | TokenTransfer(recipient: string, amount: int)

  /** A transaction dictionary before signing. `gas` and `gasPrice` are None
      until the caller fills them in. */
  datatype TxDraft = TxDraft(
    from: Option<string>,
    to: string,
    value: int,
    call: Call,
    nonce: nat,
    gas: Option<nat>,
    gasPrice: Option<nat>)

  /** One snapshot of the node. An Option field or result is None where the
      RPC call raises. `send` signs with the key and broadcasts, giving the
      hash. */
  datatype ChainView = ChainView(
    blockNumber: Option<nat>,
    transactions: string -> Lookup<ChainTx>,
    receipts: string -> Lookup<Receipt>,
    code: string -> Option<seq<bv8>>,
    balances: string -> Option<nat>,
    nonces: string -> Option<nat>,
    gasPrice: Option<nat>,
    estimateGas: TxDraft -> Option<nat>,
    tokenBalances: (string, string) -> Option<nat>,
    send: (TxDraft, Key) -> Option<string>)

  /** Confirmations the finalizer and the deposit gate require by default. */
  const RequiredConfirmations: int := 6

  /** `get_transaction`; a row without a hash passes None, which raises. */
  function GetTransaction(c: ChainView, hash: Option<string>): (r: Lookup<ChainTx>)
    ensures r.Raises? <==> hash.None? || c.transactions(hash.value).Raises?
    ensures !r.Raises? ==> r == c.transactions(hash.value)
  {
    if hash.None? then Raises else c.transactions(hash.value)
  }

  /** `get_transaction_receipt`. */
  function GetTransactionReceipt(c: ChainView, hash: Option<string>): (r: Lookup<Receipt>)
    ensures r.Raises? <==> hash.None? || c.receipts(hash.value).Raises?
    ensures !r.Raises? ==> r == c.receipts(hash.value)
  {
    if hash.None? then Raises else c.receipts(hash.value)
  }

  /** `confirmations`: blocks mined since the transaction's block, or None
      where the lookup raises or the transaction has no block yet. */
  function Confirmations(c: ChainView, hash: Option<string>): (r: Option<int>)
    ensures r.Some? <==> GetTransaction(c, hash).Found? && GetTransaction(c, hash).value.blockNumber.Some? && c.blockNumber.Some?
    ensures r.Some? ==> r.value == c.blockNumber.value - GetTransaction(c, hash).value.blockNumber.value
  {
    match GetTransaction(c, hash)
    case Found(tx) =>
      if tx.blockNumber.Some? && c.blockNumber.Some? then Some(c.blockNumber.value - tx.blockNumber.value) else None
    case _ => None
  }

  /** `is_transaction_confirmed`: a successful receipt with enough
      confirmations; every exception on the way yields false. */
  function IsTransactionConfirmed(c: ChainView, hash: Option<string>, required: int := RequiredConfirmations): (r: bool)
    ensures r <==> GetTransactionReceipt(c, hash).Found? && GetTransactionReceipt(c, hash).value.status == 1
                   && Confirmations(c, hash).Some? && Confirmations(c, hash).value >= required
    ensures r ==> hash.Some? && GetTransaction(c, hash).Found? && GetTransaction(c, hash).value.blockNumber.Some?
  {
    match GetTransactionReceipt(c, hash)
    case Found(receipt) =>
      receipt.status == 1 && var n := Confirmations(c, hash); n.Some? && n.value >= required
    case _ => false
  }

  /** `is_transaction_failed`: a receipt decides by its status. Without one
      (`None.get` raises too), the transaction lookup decides: failed only
      when it answers None; when it raises as well, not failed. */
  function IsTransactionFailed(c: ChainView, hash: Option<string>): (r: bool)
    ensures GetTransactionReceipt(c, hash).Found? ==> (r <==> GetTransactionReceipt(c, hash).value.status == 0)
    ensures !GetTransactionReceipt(c, hash).Found? ==> (r <==> GetTransaction(c, hash).Null?)
  {
    match GetTransactionReceipt(c, hash)
    case Found(receipt) => receipt.status == 0
    case _ => GetTransaction(c, hash).Null?
  }

  /** `is_contract_transaction`: the destination holds code and the input is
      not empty; any exception yields false. */
  function IsContractTransaction(c: ChainView, hash: Option<string>): (r: bool)
    ensures r <==> GetTransaction(c, hash).Found?
                   && c.code(GetTransaction(c, hash).value.to).Some?
                   && |c.code(GetTransaction(c, hash).value.to).value| > 0
                   && GetTransaction(c, hash).value.input != "0x"
  {
    match GetTransaction(c, hash)
    case Found(tx) =>
      var code := c.code(tx.to);
      code.Some? && |code.value| > 0 && tx.input != "0x"
    case _ => false
  }

  /** `get_address_nonce`, which re-raises: None is the exception. */
  function GetAddressNonce(c: ChainView, address: string): (r: Option<nat>)
    ensures r.None? <==> c.nonces(address).None?
    ensures r.Some? ==> r == c.nonces(address)
  {
    c.nonces(address)
  }

  /** `sign_and_send_transaction`, which re-raises: None is the exception. */
  function SignAndSendTransaction(c: ChainView, draft: TxDraft, key: Key): (r: Option<string>)
    ensures r.None? <==> c.send(draft, key).None?
    ensures r.Some? ==> r == c.send(draft, key)
  {
    c.send(draft, key)
  }

  /** `get_eth_balance`: the balance in wei, 0 where the call raises. */
  function GetEthBalance(c: ChainView, address: string): (r: nat)
    ensures c.balances(address).Some? ==> r == c.balances(address).value
    ensures c.balances(address).None? ==> r == 0
  {
    match c.balances(address)
    case Some(b) => b
    case None => 0
  }

  /** `get_transaction_estimate`: the gas estimate, 0 where the call raises. */
  function GetTransactionEstimate(c: ChainView, draft: TxDraft): (r: nat)
    ensures c.estimateGas(draft).Some? ==> r == c.estimateGas(draft).value
    ensures c.estimateGas(draft).None? ==> r == 0
  {
    match c.estimateGas(draft)
    case Some(g) => g
    case None => 0
  }

  /** `get_gas_price`: the gas price, None where the call raises. */
  function GetGasPrice(c: ChainView): (r: Option<nat>)
    ensures r.None? <==> c.gasPrice.None?
    ensures r.Some? ==> r == c.gasPrice
  {
    c.gasPrice
  }

  /** The same receipt cannot make a transaction both confirmed and failed:
      confirmation needs status 1, failure with a receipt needs status 0. */
  lemma ConfirmedExcludesFailed(c: ChainView, hash: Option<string>)
    ensures !(IsTransactionConfirmed(c, hash) && IsTransactionFailed(c, hash))
  {
  }

  /** A transaction the node does not know (every lookup raises) is neither
      confirmed, nor failed, nor a contract call: it is left for a later
      cycle. */
  lemma UnknownHashIsUndecided(c: ChainView, hash: Option<string>)
    requires GetTransactionReceipt(c, hash).Raises? && GetTransaction(c, hash).Raises?
    ensures !IsTransactionConfirmed(c, hash) && !IsTransactionFailed(c, hash) && !IsContractTransaction(c, hash)
  {
  }

  /** The error defaults: a broken node reports a zero balance, a zero
      estimate and no gas price. */
  lemma ErrorDefaults(c: ChainView, address: string, draft: TxDraft)
    requires c.balances(address).None? && c.estimateGas(draft).None? && c.gasPrice.None?
    ensures GetEthBalance(c, address) == 0
    ensures GetTransactionEstimate(c, draft) == 0
    ensures GetGasPrice(c).None?
  {
  }
}
