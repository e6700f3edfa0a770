/** The request handlers of backend/app/service/transaction_service.py:
    outgoing transfers (native ether broadcast at once, tokens queued for
    the dispatcher after the treasury funds the sender's gas), deposit
    reconciliation from a transaction hash, and the history lookup. Each
    handler is specified by a function from the committed store to the new
    store and the handler's result (an `Err` for every exception it raises)
    and implemented by a method on the session. */
module TransactionService {
  import opened Wrappers
  import opened ApiModels
  import opened Models
  import opened Units
  import opened Config
  import opened Keys
  import opened Web3Integration
  import opened Crud
  import opened Db
  import opened Schedulers

  // ======================================================================
  // Native transfer: `create_eth_transaction`
  // ======================================================================

  /** The transaction dictionary of a native transfer before gas is filled
      in: recipient, wei value and nonce (the chain id is not modelled). */
  function NativeDraft(to: string, amountWei: int, nonce: nat): (d: TxDraft)
    ensures d.from.None? && d.to == to && d.value == amountWei && d.call == PlainTransfer && d.nonce == nonce
    ensures d.gas.None? && d.gasPrice.None?
  {
    TxDraft(None, to, amountWei, PlainTransfer, nonce, None, None)
  }

  /** The key a native transfer is signed with: the master-pool key at the
      sender's stored index for the treasury, the user-pool key otherwise. */
  function SigningKey(a: Address, isMaster: bool): (k: Key)
    ensures k.index == a.index
    ensures k.pool == (if isMaster then MasterPool else UserPool)
  {
    if isMaster then PrivateKeyFromMaster(a.index) else PrivateKeyFromIndex(a.index)
  }

  /** The chain side of `create_eth_transaction`, up to the broadcast: the
      first exception raised, or the hash the broadcast returned. The
      exceptions come in the code's order: the wei conversion, the nonce
      call, the gas price, the sender's address row (dereferenced only when
      reading its balance), the funds check, the broadcast. */
  function NativeBroadcast(addresses: seq<Address>, from: string, to: string, amount: real, isMaster: bool, c: ChainView)
    : (r: Result<string>)
    ensures !CheckAddressExists(addresses, from) ==> r.Err?
    ensures !InWeiRange(amount) ==> r == Err(ValueOutOfRange)
  {
    var address := GetAddress(addresses, from);
    if !InWeiRange(amount) then Err(ValueOutOfRange)
    else
      var amountWei := ToWei(amount);
      match GetAddressNonce(c, from)
      case None => Err(ChainUnavailable)
      case Some(nonce) =>
        var draft := NativeDraft(to, amountWei, nonce);
        var gas := GasWithBuffer(GetTransactionEstimate(c, draft));
        match GetGasPrice(c)
        case None => Err(ChainUnavailable)
        case Some(gasPrice) =>
          match address
          case None => Err(NoSuchAddress)
          case Some(a) =>
            if gas * gasPrice + amountWei > GetEthBalance(c, a.address) then Err(InsufficientFunds)
            else
              match SignAndSendTransaction(c, draft.(gas := Some(gas), gasPrice := Some(gasPrice)), SigningKey(a, isMaster))
              case None => Err(ChainUnavailable)
              case Some(hash) => Ok(hash)
  }

  /** `create_eth_transaction`: the first exception it raises, or the STARTED
      row committed with the hash the broadcast returned. */
  function EthTransfer(db: Store, from: string, to: string, amount: real, isMaster: bool, c: ChainView)
    : (r: (Store, Result<Transaction>))
    ensures r.1.Err? ==> r.0 == db
    ensures r.1.Ok? ==> && r.1.value.fromAddress == from && r.1.value.toAddress == to
                        && r.1.value.asset == "ETH" && r.1.value.amount == amount
                        && r.1.value.transactionHash.Some? && r.1.value.blockNumber.None?
                        && r.1.value.status == TransactionStatus.Started
                        && r.1.value.createdAt == db.now
                        && r.0 == Advance(db.(transactions := db.transactions + [r.1.value]))
    ensures !CheckAddressExists(db.addresses, from) ==> r.1.Err?
  {
    match NativeBroadcast(db.addresses, from, to, amount, isMaster, c)
    case Err(e) => (db, Err(e))
    case Ok(hash) => AddTransaction(db, Transaction(from, to, "ETH", amount, Some(hash), None, TransactionStatus.Started, 0))
  }

  /** The gas a native transfer reserves: the estimate (0 where it raises)
      times 1.2. */
  function NativeGas(to: string, amount: real, nonce: nat, c: ChainView): nat {
    GasWithBuffer(GetTransactionEstimate(c, NativeDraft(to, ToWei(amount), nonce)))
  }

  /** With the amount convertible, the nonce and gas price available and the
      sender managed, the
      transfer is refused for funds exactly when gas cost plus value exceeds
      the balance (0 where the balance call raises); a transfer that goes
      through was broadcast with the buffered gas and the gas price, signed
      with the key of the sender's pool at its stored index. */
  lemma EthTransferFundsCheck(db: Store, from: string, to: string, amount: real, isMaster: bool, c: ChainView)
    requires InWeiRange(amount) && c.nonces(from).Some? && c.gasPrice.Some? && CheckAddressExists(db.addresses, from)
    ensures var gas := NativeGas(to, amount, c.nonces(from).value, c);
            EthTransfer(db, from, to, amount, isMaster, c).1 == Err(InsufficientFunds) <==>
              gas * c.gasPrice.value + ToWei(amount) > GetEthBalance(c, from)
    ensures var r := EthTransfer(db, from, to, amount, isMaster, c);
            var gas := NativeGas(to, amount, c.nonces(from).value, c);
            var a := GetAddress(db.addresses, from).value;
            r.1.Ok? ==>
              && gas * c.gasPrice.value + ToWei(amount) <= GetEthBalance(c, from)
              && r.1.value.transactionHash ==
                   c.send(NativeDraft(to, ToWei(amount), c.nonces(from).value).(gas := Some(gas), gasPrice := c.gasPrice),
                          Key(if isMaster then MasterPool else UserPool, a.index))
  {
  }

  /** The exceptions of a native transfer, in the order the code raises them:
      an amount `to_wei` cannot convert (negative, or beyond 2^256 - 1 wei),
      then no nonce, then no gas price, then an unmanaged sender; nothing is
      broadcast or stored before any of them. */
  lemma EthTransferFailures(db: Store, from: string, to: string, amount: real, isMaster: bool, c: ChainView)
    ensures !InWeiRange(amount) ==> EthTransfer(db, from, to, amount, isMaster, c) == (db, Err(ValueOutOfRange))
    ensures InWeiRange(amount) && c.nonces(from).None? ==> EthTransfer(db, from, to, amount, isMaster, c) == (db, Err(ChainUnavailable))
    ensures InWeiRange(amount) && c.nonces(from).Some? && c.gasPrice.None? ==>
              EthTransfer(db, from, to, amount, isMaster, c) == (db, Err(ChainUnavailable))
    ensures InWeiRange(amount) && c.nonces(from).Some? && c.gasPrice.Some? && !CheckAddressExists(db.addresses, from) ==>
              EthTransfer(db, from, to, amount, isMaster, c) == (db, Err(NoSuchAddress))
    ensures EthTransfer(db, from, to, amount, isMaster, c).1 == Err(NoSuchAddress) ==> !CheckAddressExists(db.addresses, from)
  {
  }

  /** A native transfer whose checks pass and whose broadcast returns a hash
      is committed exactly when its STARTED row fits its columns and the hash
      is new; otherwise the insert raises with the matching error. */
  lemma EthTransferCommits(db: Store, from: string, to: string, amount: real, isMaster: bool, c: ChainView)
    requires Storable(db)
    ensures var sent := NativeBroadcast(db.addresses, from, to, amount, isMaster, c);
            var r := EthTransfer(db, from, to, amount, isMaster, c);
            sent.Ok? ==>
              var row := Transaction(from, to, "ETH", amount, Some(sent.value), None, TransactionStatus.Started, 0);
              && (r.1.Ok? <==>
                    && TransactionFits(row)
                    && forall i :: 0 <= i < |db.transactions| ==> db.transactions[i].transactionHash != Some(sent.value))
              && (r.1.Err? ==> r.1.error == (if TransactionFits(row) then IntegrityError else DataError))
  {
  }

  /** A native transfer of a non-negative amount keeps a consistent store
      consistent. */
  lemma EthTransferConsistent(db: Store, from: string, to: string, amount: real, isMaster: bool, c: ChainView)
    requires Consistent(db) && 0.0 <= amount
    ensures Consistent(EthTransfer(db, from, to, amount, isMaster, c).0)
  {
    var r := EthTransfer(db, from, to, amount, isMaster, c);
    if r.1.Ok? {
      AddTransactionConsistent(db, r.1.value);
    }
  }

  // ======================================================================
  // Token transfer: `create_contract_transaction`
  // ======================================================================

  /** The token's `transfer(to, value)` call from the sender at `nonce`, as
      it is handed to `build_transaction`: no gas and no gas price yet. */
  function TokenDraft(from: string, to: string, token: Token, value: int, nonce: nat): (d: TxDraft)
    ensures d.from == Some(from) && d.to == token.address && d.value == 0
    ensures d.call == TokenTransfer(to, value) && d.nonce == nonce
    ensures d.gas.None? && d.gasPrice.None?
  {
    TxDraft(Some(from), token.address, 0, TokenTransfer(to, value), nonce, None, None)
  }

  /** `build_transaction` on a call given no gas: web3 fills the gas in with
      its own `estimate_gas`, which raises where the node cannot estimate
      the call. */
  function BuildTransaction(draft: TxDraft, c: ChainView): (r: Option<TxDraft>)
    ensures r.Some? <==> c.estimateGas(draft).Some?
    ensures r.Some? ==> r.value.gas == c.estimateGas(draft) && r.value.(gas := draft.gas) == draft
  {
    match c.estimateGas(draft)
    case None => None
    case Some(g) => Some(draft.(gas := Some(g)))
  }

  /** The token's `balanceOf(holder)` call, None where it raises. */
  function TokenBalance(c: ChainView, token: Token, holder: string): Option<nat> {
    c.tokenBalances(token.address, holder)
  }

  /** The gas the token transfer is priced at: the node's estimate of the
      built transaction (0 where it raises), 65000 when that is 0, times 1.2
      and truncated. */
  function TokenGas(built: TxDraft, c: ChainView): (g: nat)
    ensures 0 < g
    ensures var e := GetTransactionEstimate(c, built);
            e != 0 ==> 5 * g <= 6 * e < 5 * g + 5
    ensures GetTransactionEstimate(c, built) == 0 ==> g == 78000
  {
    GasWithBuffer(TokenGasEstimate(GetTransactionEstimate(c, built)))
  }

  /** The PENDING row a token transfer queues for the dispatcher. */
  function PendingRow(from: string, to: string, asset: string, amount: real): (t: Transaction)
    ensures t.status == TransactionStatus.Pending && t.transactionHash.None? && t.blockNumber.None?
    ensures t.fromAddress == from && t.toAddress == to && t.asset == asset && t.amount == amount
  {
    Transaction(from, to, asset, amount, None, None, TransactionStatus.Pending, 0)
  }

  /** The tail of `create_contract_transaction`: the PENDING row committed,
      then the treasury sends the sender `cost` wei as ether (`from_wei`
      raises for a cost beyond 2^256 - 1). Whatever fails after the commit
      leaves the row committed. */
  function QueueAndFund(db: Store, from: string, to: string, asset: string, amount: real, cost: nat,
                        derive: Deriver, c: ChainView): (r: (Store, Result<Transaction>))
    ensures r.1.Ok? ==> r.1.value == PendingRow(from, to, asset, amount).(createdAt := db.now)
  {
    var queued := AddTransaction(db, PendingRow(from, to, asset, amount));
    match queued.1
    case Err(e) => (queued.0, Err(e))
    case Ok(row) =>
      if cost > MaxWei then (queued.0, Err(ValueOutOfRange))
      else
        var funded := EthTransfer(queued.0, MainAddress(derive), from, FromWei(cost), true, c);
        match funded.1
        case Err(e) => (funded.0, Err(e))
        case Ok(_) => (funded.0, Ok(row))
  }

  /** `create_contract_transaction`. The token is looked up by symbol, the
      sender's token balance checked against the amount in minor units, the
      call built at the sender's nonce (its gas estimated by web3) and
      priced; then the PENDING row is committed and the treasury sends the
      sender the gas cost in ether. The sender's own address row is looked
      up but its absence raises nothing. A failing funding transfer raises
      after the PENDING row is committed, so the row stays. */
  function ContractTransfer(db: Store, from: string, to: string, asset: string, amount: real,
                            cfg: Settings, derive: Deriver, c: ChainView): (r: (Store, Result<Transaction>))
    ensures asset !in TokenBySymbol(cfg) ==> r == (db, Err(UnknownAsset))
    ensures r.1.Ok? ==> r.1.value == PendingRow(from, to, asset, amount).(createdAt := db.now)
    ensures !TokenChecksPass(from, to, asset, amount, cfg, c) ==> r.0 == db && r.1.Err?
    ensures TokenChecksPass(from, to, asset, amount, cfg, c) ==>
              r == QueueAndFund(db, from, to, asset, amount, FundingCost(from, to, asset, amount, cfg, c), derive, c)
  {
    var registry := TokenBySymbol(cfg);
    if asset !in registry then (db, Err(UnknownAsset))
    else
      var token := registry[asset];
      var value := ToMinor(amount, token.decimals);
      match TokenBalance(c, token, from)
      case None => (db, Err(ChainUnavailable))
      case Some(balance) =>
        if balance < value then (db, Err(InsufficientTokenBalance))
        else
          match GetAddressNonce(c, from)
          case None => (db, Err(ChainUnavailable))
          case Some(nonce) =>
            match BuildTransaction(TokenDraft(from, to, token, value, nonce), c)
            case None => (db, Err(ChainUnavailable))
            case Some(built) =>
              match GetGasPrice(c)
              case None => (db, Err(ChainUnavailable))
              case Some(gasPrice) => QueueAndFund(db, from, to, asset, amount, TokenGas(built, c) * gasPrice, derive, c)
  }

  /** The token call `create_contract_transaction` builds, at the sender's
      current nonce. */
  function TokenCall(from: string, to: string, asset: string, amount: real, cfg: Settings, c: ChainView): TxDraft
    requires asset in TokenBySymbol(cfg) && c.nonces(from).Some?
  {
    var token := TokenBySymbol(cfg)[asset];
    TokenDraft(from, to, token, ToMinor(amount, token.decimals), c.nonces(from).value)
  }

  /** The token path's checks before anything is stored, in the code's
      order: the token balance call, the balance against the amount in minor
      units, the nonce call, the gas estimate `build_transaction` runs, the
      gas price. Each failure leaves the store as it was. */
  lemma ContractTransferPrechecks(db: Store, from: string, to: string, asset: string, amount: real,
                                  cfg: Settings, derive: Deriver, c: ChainView)
    requires asset in TokenBySymbol(cfg)
    ensures var token := TokenBySymbol(cfg)[asset];
            var r := ContractTransfer(db, from, to, asset, amount, cfg, derive, c);
            var enough := TokenBalance(c, token, from).Some? && TokenBalance(c, token, from).value >= ToMinor(amount, token.decimals);
            && (TokenBalance(c, token, from).None? ==> r == (db, Err(ChainUnavailable)))
            && (TokenBalance(c, token, from).Some? ==>
                  (r == (db, Err(InsufficientTokenBalance)) <==> TokenBalance(c, token, from).value < ToMinor(amount, token.decimals)))
            && (enough && c.nonces(from).None? ==> r == (db, Err(ChainUnavailable)))
            && (enough && c.nonces(from).Some? && c.estimateGas(TokenCall(from, to, asset, amount, cfg, c)).None? ==>
                  r == (db, Err(ChainUnavailable)))
            && (enough && c.nonces(from).Some? && c.estimateGas(TokenCall(from, to, asset, amount, cfg, c)).Some? && c.gasPrice.None? ==>
                  r == (db, Err(ChainUnavailable)))
  {
  }

  /** The token transfer's checks pass: the token is registered, its balance
      call answers with enough, and the nonce, the build's gas estimate and
      the gas price are there. */
  predicate TokenChecksPass(from: string, to: string, asset: string, amount: real, cfg: Settings, c: ChainView) {
    && asset in TokenBySymbol(cfg)
    && TokenBalance(c, TokenBySymbol(cfg)[asset], from).Some?
    && TokenBalance(c, TokenBySymbol(cfg)[asset], from).value >= ToMinor(amount, TokenBySymbol(cfg)[asset].decimals)
    && c.nonces(from).Some?
    && c.estimateGas(TokenCall(from, to, asset, amount, cfg, c)).Some?
    && c.gasPrice.Some?
  }

  /** The gas cost, in wei, the treasury sends once the checks pass. */
  function FundingCost(from: string, to: string, asset: string, amount: real, cfg: Settings, c: ChainView): nat
    requires TokenChecksPass(from, to, asset, amount, cfg, c)
  {
    TokenGas(BuildTransaction(TokenCall(from, to, asset, amount, cfg, c), c).value, c) * c.gasPrice.value
  }

  /** Past the checks, the PENDING row is committed, unless a value of it
      does not fit its column, whatever happens next: a funding cost beyond
      2^256 - 1 wei or a funding transfer that fails makes the request fail
      but leaves the row queued for the dispatcher. The request succeeds
      exactly when the funding transfer does. */
  lemma PendingRowSurvivesFunding(db: Store, from: string, to: string, asset: string, amount: real,
                                  cfg: Settings, derive: Deriver, c: ChainView)
    requires Storable(db) && TokenChecksPass(from, to, asset, amount, cfg, c)
    ensures !TransactionFits(PendingRow(from, to, asset, amount)) ==>
              ContractTransfer(db, from, to, asset, amount, cfg, derive, c) == (db, Err(DataError))
    ensures var r := ContractTransfer(db, from, to, asset, amount, cfg, derive, c);
            var pending := PendingRow(from, to, asset, amount).(createdAt := db.now);
            var queued := Advance(db.(transactions := db.transactions + [pending]));
            var cost := FundingCost(from, to, asset, amount, cfg, c);
            var funded := EthTransfer(queued, MainAddress(derive), from, FromWei(cost), true, c);
            TransactionFits(pending) ==>
              && |r.0.transactions| > |db.transactions|
              && r.0.transactions[..|db.transactions|] == db.transactions
              && r.0.transactions[|db.transactions|] == pending
              && (r.1.Ok? <==> cost <= MaxWei && funded.1.Ok?)
              && (r.1.Err? ==> r.0 == queued && r.1 == if cost > MaxWei then Err(ValueOutOfRange) else funded.1)
  {
    var pending := PendingRow(from, to, asset, amount).(createdAt := db.now);
    var queued := Advance(db.(transactions := db.transactions + [pending]));
    var cost := FundingCost(from, to, asset, amount, cfg, c);
    var funded := EthTransfer(queued, MainAddress(derive), from, FromWei(cost), true, c);
    if TransactionFits(pending) {
      assert AddTransaction(db, PendingRow(from, to, asset, amount)) == (queued, Ok(pending));
      if cost <= MaxWei && funded.1.Ok? {
        assert funded.0.transactions == queued.transactions + [funded.1.value];
      }
    }
  }

  /** A successful token transfer commits two rows: the PENDING transfer and
      the treasury's STARTED ether transfer to the sender, worth exactly the
      gas cost in wei. */
  lemma FundingCoversGas(db: Store, from: string, to: string, asset: string, amount: real,
                         cfg: Settings, derive: Deriver, c: ChainView)
    requires Storable(db) && TokenChecksPass(from, to, asset, amount, cfg, c)
    requires ContractTransfer(db, from, to, asset, amount, cfg, derive, c).1.Ok?
    ensures var r := ContractTransfer(db, from, to, asset, amount, cfg, derive, c);
            var n := |db.transactions|;
            && |r.0.transactions| == n + 2
            && r.0.transactions[..n] == db.transactions
            && r.0.transactions[n] == r.1.value
            && r.0.transactions[n + 1].status == TransactionStatus.Started
            && r.0.transactions[n + 1].fromAddress == MainAddress(derive)
            && r.0.transactions[n + 1].toAddress == from
            && r.0.transactions[n + 1].asset == "ETH"
            && ToWei(r.0.transactions[n + 1].amount) == FundingCost(from, to, asset, amount, cfg, c)
            && r.0.addresses == db.addresses && r.0.history == db.history
  {
    PendingRowSurvivesFunding(db, from, to, asset, amount, cfg, derive, c);
    WeiRoundTrip(FundingCost(from, to, asset, amount, cfg, c));
  }

  /** The funding transfer is signed with the master-pool key at the index
      the main address's row holds; when that row is the one `init_db` adds,
      the key is master index 0, which controls the main address. */
  lemma FundingFromTreasury(db: Store, from: string, to: string, asset: string, amount: real,
                            cfg: Settings, derive: Deriver, c: ChainView)
    requires Storable(db) && TokenChecksPass(from, to, asset, amount, cfg, c)
    requires GetAddress(db.addresses, MainAddress(derive)) == Some(TreasuryAddress(derive))
    requires ContractTransfer(db, from, to, asset, amount, cfg, derive, c).1.Ok?
    ensures var r := ContractTransfer(db, from, to, asset, amount, cfg, derive, c);
            var main := MainAddress(derive);
            var cost := FundingCost(from, to, asset, amount, cfg, c);
            && c.nonces(main).Some?
            && r.0.transactions[|db.transactions| + 1].transactionHash ==
                 c.send(NativeDraft(from, cost, c.nonces(main).value).(gas := Some(NativeGas(from, FromWei(cost), c.nonces(main).value, c)),
                                                                        gasPrice := c.gasPrice),
                        Key(MasterPool, 0))
            && AddressOf(derive, Key(MasterPool, 0)) == main
  {
    var main := MainAddress(derive);
    var cost := FundingCost(from, to, asset, amount, cfg, c);
    var pending := PendingRow(from, to, asset, amount).(createdAt := db.now);
    var queued := Advance(db.(transactions := db.transactions + [pending]));
    PendingRowSurvivesFunding(db, from, to, asset, amount, cfg, derive, c);
    WeiRoundTrip(cost);
    EthTransferFailures(queued, main, from, FromWei(cost), true, c);
    EthTransferFundsCheck(queued, main, from, FromWei(cost), true, c);
    var funded := EthTransfer(queued, main, from, FromWei(cost), true, c);
    assert funded.0.transactions[|db.transactions| + 1] == funded.1.value;
  }

  /** The token path never asks whether the sender is managed: a request from
      an unmanaged sender can only fail for an unmanaged treasury. Once such
      a request succeeds, its PENDING row makes every later dispatch run
      raise before its commit. */
  lemma UnmanagedTokenSender(db: Store, from: string, to: string, asset: string, amount: real,
                             cfg: Settings, derive: Deriver, c: ChainView)
    ensures var r := ContractTransfer(db, from, to, asset, amount, cfg, derive, c);
            r.1 == Err(NoSuchAddress) ==> !CheckAddressExists(db.addresses, MainAddress(derive))
    ensures var r := ContractTransfer(db, from, to, asset, amount, cfg, derive, c);
            r.1.Ok? && Storable(db) && !CheckAddressExists(db.addresses, from) ==>
              forall cfg': Settings, c': ChainView :: DispatchCycle(r.0, cfg', c') == r.0
  {
    var r := ContractTransfer(db, from, to, asset, amount, cfg, derive, c);
    if r.1 == Err(NoSuchAddress) {
      var cost := FundingCost(from, to, asset, amount, cfg, c);
      var queued := AddTransaction(db, PendingRow(from, to, asset, amount));
      EthTransferFailures(queued.0, MainAddress(derive), from, FromWei(cost), true, c);
    }
    if r.1.Ok? && Storable(db) && !CheckAddressExists(db.addresses, from) {
      FundingCoversGas(db, from, to, asset, amount, cfg, derive, c);
      var i := |db.transactions|;
      forall cfg': Settings, c': ChainView
        ensures DispatchCycle(r.0, cfg', c') == r.0
      {
        UnmanagedSenderStallsDispatch(r.0, cfg', c', i);
      }
    }
  }

  /** A token transfer of a non-negative amount keeps a consistent store
      consistent. */
  lemma ContractTransferConsistent(db: Store, from: string, to: string, asset: string, amount: real,
                                   cfg: Settings, derive: Deriver, c: ChainView)
    requires Consistent(db) && 0.0 <= amount
    ensures Consistent(ContractTransfer(db, from, to, asset, amount, cfg, derive, c).0)
  {
    if TokenChecksPass(from, to, asset, amount, cfg, c) {
      var pending := PendingRow(from, to, asset, amount);
      var cost := FundingCost(from, to, asset, amount, cfg, c);
      AddTransactionConsistent(db, pending);
      var queued := AddTransaction(db, pending).0;
      EthTransferConsistent(queued, MainAddress(derive), from, FromWei(cost), true, c);
    }
  }

  // ======================================================================
  // Routing: `create_transaction`
  // ======================================================================

  /** `create_transaction`: the native coin takes the native path, every
      other asset the token path. A native transfer is broadcast at once and
      stored STARTED; a token transfer is stored PENDING for the dispatcher,
      and only for a registered token. */
  function Transfer(db: Store, req: CreateTransactionRequest, cfg: Settings, derive: Deriver, c: ChainView)
    : (r: (Store, Result<Transaction>))
    ensures r.1.Ok? ==> && r.1.value.fromAddress == req.fromAddress && r.1.value.toAddress == req.toAddress
                        && r.1.value.amount == req.amount && r.1.value.createdAt == db.now
                        && (req.asset == "ETH" ==> r.1.value.asset == "ETH")
                        && (req.asset != "ETH" ==> r.1.value.asset == req.asset)
    ensures r.1.Ok? ==> (r.1.value.status == TransactionStatus.Started <==> req.asset == "ETH")
    ensures r.1.Ok? ==> (r.1.value.status == TransactionStatus.Pending <==> req.asset != "ETH")
    ensures req.asset != "ETH" && req.asset !in TokenBySymbol(cfg) ==> r == (db, Err(UnknownAsset))
  {
    if req.asset == "ETH" then EthTransfer(db, req.fromAddress, req.toAddress, req.amount, false, c)
    else ContractTransfer(db, req.fromAddress, req.toAddress, req.asset, req.amount, cfg, derive, c)
  }

  /** The chain side of `create_eth_transaction`. */
  method BroadcastNative(addresses: seq<Address>, from: string, to: string, amount: real, isMaster: bool, c: ChainView)
    returns (r: Result<string>)
    ensures r == NativeBroadcast(addresses, from, to, amount, isMaster, c)
  {
    var address := GetAddress(addresses, from);
    if !InWeiRange(amount) {
      return Err(ValueOutOfRange);
    }
    var amountWei := ToWei(amount);
    var nonce := GetAddressNonce(c, from);
    if nonce.None? {
      return Err(ChainUnavailable);
    }
    var draft := NativeDraft(to, amountWei, nonce.value);
    var gas := GasWithBuffer(GetTransactionEstimate(c, draft));
    var gasPrice := GetGasPrice(c);
    if gasPrice.None? {
      return Err(ChainUnavailable);
    }
    draft := draft.(gas := Some(gas), gasPrice := Some(gasPrice.value));
    var cost := gas * gasPrice.value;
    if address.None? {
      return Err(NoSuchAddress);
    }
    var fund := GetEthBalance(c, address.value.address);
    if cost + amountWei > fund {
      return Err(InsufficientFunds);
    }
    var key := if isMaster then PrivateKeyFromMaster(address.value.index) else PrivateKeyFromIndex(address.value.index);
    var hash := SignAndSendTransaction(c, draft, key);
    if hash.None? {
      return Err(ChainUnavailable);
    }
    r := Ok(hash.value);
  }

  /** `create_eth_transaction`. */
  method CreateEthTransaction(l: Ledger, from: string, to: string, amount: real, isMaster: bool, c: ChainView)
    returns (r: Result<Transaction>)
    modifies l
    ensures (l.Snapshot(), r) == EthTransfer(old(l.Snapshot()), from, to, amount, isMaster, c)
    ensures old(l.Valid()) && 0.0 <= amount ==> l.Valid()
  {
    ghost var db := l.Snapshot();
    if Consistent(db) && 0.0 <= amount {
      EthTransferConsistent(db, from, to, amount, isMaster, c);
    }
    var hash := BroadcastNative(l.addresses, from, to, amount, isMaster, c);
    if hash.Err? {
      return Err(hash.error);
    }
    r := l.CreateTransaction(Transaction(from, to, "ETH", amount, Some(hash.value), None, TransactionStatus.Started, 0));
  }

  /** `create_contract_transaction`. */
  method CreateContractTransaction(l: Ledger, from: string, to: string, asset: string, amount: real,
                                   cfg: Settings, derive: Deriver, c: ChainView) returns (r: Result<Transaction>)
    modifies l
    ensures (l.Snapshot(), r) == ContractTransfer(old(l.Snapshot()), from, to, asset, amount, cfg, derive, c)
    ensures old(l.Valid()) && 0.0 <= amount ==> l.Valid()
  {
    ghost var db := l.Snapshot();
    if Consistent(db) && 0.0 <= amount {
      ContractTransferConsistent(db, from, to, asset, amount, cfg, derive, c);
    }
    var registry := TokenBySymbol(cfg);
    if asset !in registry {
      return Err(UnknownAsset);
    }
    var token := registry[asset];
    var value := ToMinor(amount, token.decimals);
    var balance := TokenBalance(c, token, from);
    if balance.None? {
      return Err(ChainUnavailable);
    }
    // the sender's row is looked up here; a missing row raises nothing
    var _ := GetAddress(l.addresses, from);
    if balance.value < value {
      return Err(InsufficientTokenBalance);
    }
    var nonce := GetAddressNonce(c, from);
    if nonce.None? {
      return Err(ChainUnavailable);
    }
    // `build_transaction` fills in the gas with its own estimate
    var built := BuildTransaction(TokenDraft(from, to, token, value, nonce.value), c);
    if built.None? {
      return Err(ChainUnavailable);
    }
    var gas := GasWithBuffer(TokenGasEstimate(GetTransactionEstimate(c, built.value)));
    var gasPrice := GetGasPrice(c);
    if gasPrice.None? {
      return Err(ChainUnavailable);
    }
    var main := l.CreateTransaction(PendingRow(from, to, asset, amount));
    if main.Err? {
      return main;
    }
    var cost := gas * gasPrice.value;
    if cost > MaxWei {
      return Err(ValueOutOfRange);
    }
    var funded := CreateEthTransaction(l, MainAddress(derive), from, FromWei(cost), true, c);
    if funded.Err? {
      return Err(funded.error);
    }
    r := main;
  }

  /** `create_transaction`. */
  method CreateTransaction(l: Ledger, req: CreateTransactionRequest, cfg: Settings, derive: Deriver, c: ChainView)
    returns (r: Result<Transaction>)
    modifies l
    ensures (l.Snapshot(), r) == Transfer(old(l.Snapshot()), req, cfg, derive, c)
    ensures old(l.Valid()) && req.Valid() ==> l.Valid()
  {
    if req.asset == "ETH" {
      r := CreateEthTransaction(l, req.fromAddress, req.toAddress, req.amount, false, c);
    } else {
      r := CreateContractTransaction(l, req.fromAddress, req.toAddress, req.asset, req.amount, cfg, derive, c);
    }
  }

  // ======================================================================
  // Deposit reconciliation: `validate_transaction_hash`
  // ======================================================================

  /** `str.lower` on one character, for ASCII letters. */
  function LowerChar(ch: char): (r: char)
    ensures 'A' <= ch <= 'Z' ==> r as int == ch as int + 32
    ensures !('A' <= ch <= 'Z') ==> r == ch
  {
    if 'A' <= ch <= 'Z' then (ch as int + 32) as char else ch
  }

  /** `str.lower`, for ASCII text. */
  function Lower(s: string): (r: string)
    ensures |r| == |s| && forall i :: 0 <= i < |s| ==> r[i] == LowerChar(s[i])
  {
    seq(|s|, i requires 0 <= i < |s| => LowerChar(s[i]))
  }

  /** A log emitted by the contract at `address`, compared case-blind. */
  predicate EmittedBy(log: Log, address: string) {
    Lower(log.address) == Lower(address)
  }

  /** The position of the first receipt log emitted by the token contract. */
  function FirstMatchingLog(logs: seq<Log>, address: string): (r: Option<nat>)
    ensures r.Some? ==> r.value < |logs| && EmittedBy(logs[r.value], address)
    ensures r.Some? ==> forall j :: 0 <= j < r.value ==> !EmittedBy(logs[j], address)
    ensures r.None? <==> forall j :: 0 <= j < |logs| ==> !EmittedBy(logs[j], address)
  {
    if |logs| == 0 then None
    else if EmittedBy(logs[0], address) then Some(0)
    else
      match FirstMatchingLog(logs[1..], address)
      case None => None
      case Some(j) => Some(j + 1)
  }

  /** The history row of a confirmed deposit, or the exception the code
      raises on the way, decided on the committed store before the insert:
      an unregistered token contract, no log from it, a log that does not
      decode as a Transfer, a Transfer value too wide to quantize, or an
      unmanaged recipient. */
  function DepositRow(db: Store, hash: string, cfg: Settings, c: ChainView): (r: Result<TransactionHistory>)
    requires IsTransactionConfirmed(c, Some(hash))
    ensures r.Ok? ==> r.value.transactionHash == hash && CheckAddressExists(db.addresses, r.value.toAddress)
    ensures r.Ok? ==> 0.0 <= r.value.amount
  {
    var tx := GetTransaction(c, Some(hash)).value;
    var receipt := GetTransactionReceipt(c, Some(hash)).value;
    if IsContractTransaction(c, Some(hash)) then
      var registry := TokenByContractAddress(cfg);
      if tx.to !in registry then Err(TokenNotRecognized)
      else
        var token := registry[tx.to];
        match FirstMatchingLog(receipt.logs, token.address)
        case None => Err(NotATransfer)
        case Some(k) =>
          match receipt.logs[k].transfer
          case None => Err(UndecodableLog)
          case Some(event) =>
            if !QuantizeFits(event.value) then Err(InvalidOperation)
            else if !CheckAddressExists(db.addresses, event.to) then Err(AddressNotFound)
            else Ok(HistoryFromContractTx(hash, receipt, event.to, FromMinor(event.value, token.decimals), token.symbol))
    else if !CheckAddressExists(db.addresses, tx.to) then Err(AddressNotFound)
    else Ok(HistoryFromEthTx(hash, tx, receipt).value)
  }

  /** `validate_transaction_hash`: a hash the node does not confirm is
      refused, a hash already in the history table is refused, otherwise the
      deposit's history row is committed and the recipient's history listing
      returned. */
  function Deposit(db: Store, hash: string, cfg: Settings, c: ChainView): (r: (Store, Result<HistoryQuery>))
    ensures !IsTransactionConfirmed(c, Some(hash)) ==> r == (db, Err(NotValid))
    ensures IsTransactionConfirmed(c, Some(hash)) && Recorded(db.history, hash) ==> r == (db, Err(AlreadyRecorded))
    ensures r.1.Err? ==> r.0 == db
    ensures r.1.Ok? ==> && IsTransactionConfirmed(c, Some(hash)) && !Recorded(db.history, hash)
                        && DepositRow(db, hash, cfg, c).Ok?
                        && r.1.value == HistoryByAddress(DepositRow(db, hash, cfg, c).value.toAddress)
                        && r.0 == Advance(db.(history := db.history + [DepositRow(db, hash, cfg, c).value]))
  {
    if !IsTransactionConfirmed(c, Some(hash)) then (db, Err(NotValid))
    else if CheckTransactionHistoryExists(db.history, hash) then (db, Err(AlreadyRecorded))
    else
      match DepositRow(db, hash, cfg, c)
      case Err(e) => (db, Err(e))
      case Ok(row) =>
        var inserted := AddHistory(db, row);
        match inserted.1
        case Err(e) => (inserted.0, Err(e))
        case Ok(_) => (inserted.0, Ok(HistoryByAddress(row.toAddress)))
  }

  /** The deposit insert never breaks a unique constraint on a store a
      commit accepts: the only one it could break is the hash, which the
      second gate has just checked. It is refused, with DataError, exactly
      when a value of the row does not fit its column (a hash longer than
      66 characters, a gas price above 2^31 - 1 wei). */
  lemma DepositCommit(db: Store, hash: string, cfg: Settings, c: ChainView)
    requires Storable(db)
    ensures Deposit(db, hash, cfg, c).1 != Err(IntegrityError)
    ensures Deposit(db, hash, cfg, c).1.Ok? <==>
              && IsTransactionConfirmed(c, Some(hash)) && !Recorded(db.history, hash) && DepositRow(db, hash, cfg, c).Ok?
              && HistoryFits(DepositRow(db, hash, cfg, c).value)
    ensures IsTransactionConfirmed(c, Some(hash)) && !Recorded(db.history, hash) && DepositRow(db, hash, cfg, c).Ok?
            && !HistoryFits(DepositRow(db, hash, cfg, c).value) ==>
              Deposit(db, hash, cfg, c) == (db, Err(DataError))
  {
    if IsTransactionConfirmed(c, Some(hash)) && !Recorded(db.history, hash) && DepositRow(db, hash, cfg, c).Ok? {
      assert DepositRow(db, hash, cfg, c).value.transactionHash == hash;
    }
  }

  /** Reconciling the same hash twice records it once: the second call is
      refused as already recorded and changes nothing. */
  lemma DepositIdempotent(db: Store, hash: string, cfg: Settings, c: ChainView)
    ensures var first := Deposit(db, hash, cfg, c);
            first.1.Ok? ==> Deposit(first.0, hash, cfg, c) == (first.0, Err(AlreadyRecorded))
  {
    var first := Deposit(db, hash, cfg, c);
    if first.1.Ok? {
      var row := DepositRow(db, hash, cfg, c).value;
      assert first.0.history[|db.history|] == row;
    }
  }

  /** A recorded deposit carries the amount the chain moved, exactly: the
      wei value of a native transfer, the raw Transfer value of a token
      deposit in the token's minor units. */
  lemma DepositAmounts(db: Store, hash: string, cfg: Settings, c: ChainView)
    requires IsTransactionConfirmed(c, Some(hash)) && DepositRow(db, hash, cfg, c).Ok?
    ensures var tx := GetTransaction(c, Some(hash)).value;
            var row := DepositRow(db, hash, cfg, c).value;
            !IsContractTransaction(c, Some(hash)) ==>
              row.asset == "ETH" && row.toAddress == tx.to && ToWei(row.amount) == tx.value
    ensures var tx := GetTransaction(c, Some(hash)).value;
            var receipt := GetTransactionReceipt(c, Some(hash)).value;
            var row := DepositRow(db, hash, cfg, c).value;
            IsContractTransaction(c, Some(hash)) ==>
              && tx.to in TokenByContractAddress(cfg)
              && var token := TokenByContractAddress(cfg)[tx.to];
                 var k := FirstMatchingLog(receipt.logs, token.address);
                 && k.Some? && receipt.logs[k.value].transfer.Some?
                 && row.asset == token.symbol
                 && row.toAddress == receipt.logs[k.value].transfer.value.to
                 && QuantizeFits(receipt.logs[k.value].transfer.value.value)
                 && ToMinor(row.amount, token.decimals) == receipt.logs[k.value].transfer.value.value
  {
    var tx := GetTransaction(c, Some(hash)).value;
    var receipt := GetTransactionReceipt(c, Some(hash)).value;
    if IsContractTransaction(c, Some(hash)) {
      var token := TokenByContractAddress(cfg)[tx.to];
      var k := FirstMatchingLog(receipt.logs, token.address).value;
      MinorRoundTrip(receipt.logs[k].transfer.value.value, token.decimals);
    }
  }

  /** A token deposit whose Transfer value has more than 28 digits raises in
      `quantize` before the recipient check, and nothing is stored. */
  lemma DepositQuantizeLimit(db: Store, hash: string, cfg: Settings, c: ChainView)
    requires IsTransactionConfirmed(c, Some(hash)) && !Recorded(db.history, hash) && IsContractTransaction(c, Some(hash))
    ensures var tx := GetTransaction(c, Some(hash)).value;
            var receipt := GetTransactionReceipt(c, Some(hash)).value;
            tx.to in TokenByContractAddress(cfg) ==>
              var k := FirstMatchingLog(receipt.logs, TokenByContractAddress(cfg)[tx.to].address);
              k.Some? && receipt.logs[k.value].transfer.Some? && !QuantizeFits(receipt.logs[k.value].transfer.value.value) ==>
                Deposit(db, hash, cfg, c) == (db, Err(InvalidOperation))
  {
  }

  /** A deposit keeps a consistent store consistent. */
  lemma DepositConsistent(db: Store, hash: string, cfg: Settings, c: ChainView)
    requires Consistent(db)
    ensures Consistent(Deposit(db, hash, cfg, c).0)
  {
    if IsTransactionConfirmed(c, Some(hash)) && DepositRow(db, hash, cfg, c).Ok? {
      AddHistoryConsistent(db, DepositRow(db, hash, cfg, c).value);
    }
  }

  /** The scan of the receipt's logs for the first one the token contract
      emitted. */
  method FindTokenLog(logs: seq<Log>, address: string) returns (r: Option<nat>)
    ensures r == FirstMatchingLog(logs, address)
  {
    var k := 0;
    while k < |logs|
      invariant 0 <= k <= |logs|
      invariant forall j :: 0 <= j < k ==> !EmittedBy(logs[j], address)
    {
      if Lower(logs[k].address) == Lower(address) {
        return Some(k);
      }
      k := k + 1;
    }
    r := None;
  }

  /** The body of `validate_transaction_hash` past its two gates, up to the
      insert: the deposit's history row or the exception raised first. */
  method BuildDepositRow(l: Ledger, hash: string, cfg: Settings, c: ChainView) returns (r: Result<TransactionHistory>)
    requires IsTransactionConfirmed(c, Some(hash))
    ensures r == DepositRow(l.Snapshot(), hash, cfg, c)
  {
    var tx := GetTransaction(c, Some(hash)).value;
    var receipt := GetTransactionReceipt(c, Some(hash)).value;
    if IsContractTransaction(c, Some(hash)) {
      var registry := TokenByContractAddress(cfg);
      if tx.to !in registry {
        return Err(TokenNotRecognized);
      }
      var token := registry[tx.to];
      var k := FindTokenLog(receipt.logs, token.address);
      if k.None? {
        return Err(NotATransfer);
      }
      var log := receipt.logs[k.value];
      if log.transfer.None? {
        return Err(UndecodableLog);
      }
      var event := log.transfer.value;
      var amount := FromMinor(event.value, token.decimals);
      if !QuantizeFits(event.value) {
        return Err(InvalidOperation);
      }
      if !CheckAddressExists(l.addresses, event.to) {
        return Err(AddressNotFound);
      }
      return Ok(HistoryFromContractTx(hash, receipt, event.to, amount, token.symbol));
    }
    if !CheckAddressExists(l.addresses, tx.to) {
      return Err(AddressNotFound);
    }
    r := Ok(HistoryFromEthTx(hash, tx, receipt).value);
  }

  /** `validate_transaction_hash`. */
  method ValidateTransactionHash(l: Ledger, hash: string, cfg: Settings, c: ChainView) returns (r: Result<HistoryQuery>)
    modifies l
    ensures (l.Snapshot(), r) == Deposit(old(l.Snapshot()), hash, cfg, c)
    ensures old(l.Valid()) ==> l.Valid()
  {
    ghost var db := l.Snapshot();
    if Consistent(db) {
      DepositConsistent(db, hash, cfg, c);
    }
    if !IsTransactionConfirmed(c, Some(hash)) {
      return Err(NotValid);
    }
    if CheckTransactionHistoryExists(l.history, hash) {
      return Err(AlreadyRecorded);
    }
    var row := BuildDepositRow(l, hash, cfg, c);
    if row.Err? {
      return Err(row.error);
    }
    var inserted := l.CreateTransactionHistory(row.value);
    if inserted.Err? {
      return Err(inserted.error);
    }
    r := Ok(HistoryByAddress(row.value.toAddress));
  }

  // ======================================================================
  // History lookup: `get_transactions_history_by_address`
  // ======================================================================

  /** `get_transactions_history_by_address`: an unmanaged address is refused,
      a managed one gets its history listing. */
  function GetTransactionsHistoryByAddress(db: Store, address: string): (r: Result<HistoryQuery>)
    ensures r.Ok? <==> exists i :: 0 <= i < |db.addresses| && db.addresses[i].address == address
    ensures r.Ok? ==> r.value == HistoryByAddress(address)
    ensures r.Err? ==> r.error == AddressNotFound
  {
    if !CheckAddressExists(db.addresses, address) then Err(AddressNotFound)
    else Ok(HistoryByAddress(address))
  }

  /** A successful deposit makes its recipient's history lookup succeed with
      the listing the deposit returned. */
  lemma DepositRecipientListed(db: Store, hash: string, cfg: Settings, c: ChainView)
    requires Deposit(db, hash, cfg, c).1.Ok?
    ensures var r := Deposit(db, hash, cfg, c);
            GetTransactionsHistoryByAddress(r.0, r.1.value.address) == Ok(r.1.value)
  {
    var row := DepositRow(db, hash, cfg, c).value;
    var i :| 0 <= i < |db.addresses| && db.addresses[i].address == row.toAddress;
    assert Deposit(db, hash, cfg, c).0.addresses[i] == db.addresses[i];
  }
}
