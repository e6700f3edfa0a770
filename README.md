# Custodial wallet transaction engine, in Dafny

This project models the transaction lifecycle of a custodial Ethereum wallet
backend (FastAPI, SQLModel, web3). The model keeps the backend's decisions and
drops its plumbing. It has four parts:

- **Dispatcher.** `create_transaction` routes a request:
  - A native ether transfer does the fee arithmetic in integer wei with a 1.2x
    gas buffer, checks funds, broadcasts, and stores a STARTED row.
  - A token transfer converts the amount to minor units and checks the token
    balance. It stores a PENDING row, then has the treasury fund the sender's
    gas through the native path.
- **Scheduler cycles.** Three cycles run as sequential calls:
  - address issuance from the oldest PENDING job;
  - the PENDING to STARTED token dispatch pass, which aborts without
    committing when any row fails;
  - the STARTED to CONFIRMED or FAILED finalizer, which appends one history row
    per confirmation and commits it on the spot.
- **Deposit reconciler.** `validate_transaction_hash` applies its checks in
  order:
  1. the confirmation gate;
  2. the duplicate-hash guard;
  3. the registry lookup;
  4. the first receipt log whose address matches, case-insensitively;
  5. scaling by the token's decimals;
  6. the managed-recipient check.
- **Supporting pieces:**
  - the store operations of `crud.py`;
  - the chain predicates of `web3_integration.py`, with their
    swallow-and-default error handling;
  - the static token registry;
  - the record and enum shapes;
  - the treasury bootstrap of `init_db`.

The model has one module per source file:

| Module | Models |
|---|---|
| `Wrappers` | `Option` and `Result`; the backend's exceptions as one `Error` type |
| `ApiModels` | statuses and request shapes |
| `Units` | Python `int()` truncation; `to_wei`/`from_wei`; minor units; the gas buffer |
| `Config` | the token registry |
| `Models` | the four table records and their declared bounds; the `Store` holding the four tables and the database clock; the commit with the Postgres column types and unique constraints; the forward-only status order |
| `Keys` | key and address derivation, as an opaque `derive(pool, index)` |
| `Web3Integration` | the node, as one read-only `ChainView` snapshot; the helper functions over it |
| `Crud` | the queries and record builders; the `Ledger` class, which models the database session |
| `Db` | `init_db` |
| `Schedulers` | the three cycles |
| `TransactionService` | the request handlers |

Each state-changing operation has two forms:

- a function from the committed store (and the chain snapshot) to the new
  store and the result;
- a method on `Ledger` that does what the source does step by step, with a
  contract that ties it to that function.

The properties are lemmas about the functions. The main ones are:

- each operation keeps the store's invariant, `Models.Consistent`;
- statuses only move forward (`Models.Evolves`).

`Ledger.Commit` publishes a staged copy of the tables only when every value
fits its Postgres column and the unique constraints hold. The database is
Postgres, and `create_all` builds the columns from the table models:

- `VARCHAR(42)` for addresses, `VARCHAR(20)` for assets and `VARCHAR(66)` for
  hashes;
- `INTEGER` (32-bit) for the job quantity, both block numbers, the gas and the
  gas price;
- `BIGINT` for the address index.

A value that does not fit raises `DataError`. A duplicate raises
`IntegrityError`. Either way nothing changes. Every commit advances the clock
that fills `created_at`.

An RPC call that raises is `None`, or `Raises` in a `Lookup`. Where the source
catches the exception and returns a default, so does the model.

The service's `check_transaction_history_exists` passes straight through to
the crud query of the same name, so one function, `Crud.CheckTransactionHistoryExists`,
models both. `address_service.py` is a pass-through to `crud.py` and is folded into it.

Some of the code's behaviour is easy to misread. The model keeps it as the code has it:

- **Duplicate deposit.** A hash that is already recorded raises
  (`AlreadyRecorded`). It is not a no-op that returns the existing history.
- **Deposit log.** Only the first log whose address matches is decoded. When
  that log does not decode, the call fails. It does not go on to a later log.
- **Unknown sender.**
  - The native path reads the nonce and the gas price before it notices an
    unknown sender (`NoSuchAddress`).
  - The token path never rejects an unknown sender. Its try/except cannot fire,
    because `get_address` returns None. The PENDING row it queues then makes
    every later dispatch cycle abort
    (`TransactionService.UnmanagedTokenSender`,
    `Schedulers.UnmanagedSenderStallsDispatch`).
- **Failure during finalization.** A transaction is FAILED only when the node
  answers None for it. A lookup that raises leaves the transaction STARTED.
- **Job quantity.** The job endpoint does not check the quantity against
  [1, 1000]. The bound is declared only on the table model, which does not
  validate.
- **Finalizer commits.** The finalizer commits inside its loop, at each history
  insert. When a confirmed row's hash is already in the history table, that
  commit raises. The run then stops there, and the same thing happens on every
  later cycle (`Schedulers.FinalizeCycleStalls`).
- **Token amount precision.** The token path divides in Python's default
  Decimal context, which keeps 28 significant digits, and then quantizes to
  `decimals` places. A Transfer value of 10^28 or more makes `quantize` raise
  `InvalidOperation`. This happens before the recipient check, and nothing is
  stored (`TransactionService.DepositQuantizeLimit`). Below that bound the
  quotient is exact, which is what `Units.FromMinor` computes.

## Model

| member | source | states |
|---|---|---|
| ApiModels.AddressCreationStatus.Value | backend/app/api/models/models.py:19-22 | each job status has a non-empty stored value that fits the status column |
| ApiModels.TransactionStatus.Value | backend/app/api/models/models.py:24-28 | each transaction status has a non-empty stored value that fits the status column |
| ApiModels.ParseAddressCreationStatus | backend/app/api/models/models.py:19-22 | a string parses to the status whose value it is, and to nothing when no status has that value |
| ApiModels.ParseTransactionStatus | backend/app/api/models/models.py:24-28 | a string parses to the status whose value it is, and to nothing when no status has that value |
| ApiModels.StatusValuesRoundTrip | backend/app/api/models/models.py:19-28 | parsing a status's value gives that status back, for both enums |
| ApiModels.ParseCreateTransactionRequest | backend/app/api/models/models.py:49-69 | a request is accepted iff amount >= 0, both addresses have at most 42 characters and the asset at most 20; the accepted request carries the fields unchanged |
| ApiModels.ParseValidateTransactionRequest | backend/app/api/models/models.py:91-96 | a hash is accepted iff it has at most 100 characters and is carried unchanged |
| Units.Trunc | backend/app/service/transaction_service.py:147 | Python `int()` on a decimal: rounds toward zero, on both signs |
| Units.GasWithBuffer | backend/app/service/transaction_service.py:112 | the buffered gas is at least the estimate and is floor(1.2 x estimate) |
| Units.TokenGasEstimate | backend/app/service/transaction_service.py:170-171 | a zero estimate becomes the default 65000, and any other estimate is kept |
| Units.ToWei | backend/app/service/transaction_service.py:101 | for an amount in range, the largest whole wei not above amount x 10^18 |
| Units.FromWei | backend/app/crud.py:55 | converting back to wei gives exactly the wei value; non-negative wei gives a non-negative amount |
| Units.ToMinor | backend/app/service/transaction_service.py:147 | for a non-negative amount, the largest whole minor unit not above amount x 10^decimals |
| Units.FromMinor | backend/app/service/transaction_service.py:60 | `Decimal(raw) / Decimal(10 ** decimals)`: raw / 10^decimals exactly, which the default context gives for every raw value the following `quantize` accepts |

| Units.WeiRoundTrip | backend/app/crud.py:55 | converting wei to ether and back gives the same wei, and a wei value up to 2^256 - 1 converts to an in-range amount |
| Units.MinorRoundTrip | backend/app/service/transaction_service.py:57-61 | a raw token value scaled down and back up is unchanged, and the scaled amount is exactly representable |
| Units.AmountRoundTrip | backend/app/service/transaction_service.py:147 | converting an amount to minor units and back loses less than one minor unit, and loses nothing iff the amount is representable |
| Config.TokenBySymbol | backend/app/core/config.py:71-92 | exactly USDC, PYUSD and EURC, each with its own symbol, decimals 6 and the checksummed configured address |
| Config.TokenByContractAddress | backend/app/core/config.py:96-101 | keyed by the three raw configured strings; each entry is a by-symbol entry carrying the checksum of its key, and it is that token's entry when the configured strings differ |
| Config.NativeCoinNotRegistered | backend/app/core/config.py:88-92 | "ETH" is not a registered symbol, and there are exactly three tokens |
| Models.NewAddressCreationJob | backend/app/models.py:9-18 | a new job is PENDING with the requested quantity |
| Models.DefaultJobDeclared | backend/app/models.py:11-12 | the default job has quantity 1 within the declared [1, 1000], and status PENDING |
| Models.Advance | backend/app/models.py:13-15 | a commit leaves the tables unchanged and moves the database clock forward by one |
| Models.CommitStore | backend/app/models.py:9-95 | a commit succeeds iff every value fits its column (lengths 42, 20, 66; 32-bit job quantity, block numbers, gas and gas price; 64-bit address index) and the uniqueness constraints hold; a misfit gives DataError, otherwise a duplicate gives IntegrityError |
| Models.CommitConsistent | backend/app/models.py:9-95 | committing well-formed, storable rows stamped before the new clock gives a consistent store |
| Models.Rank | backend/app/api/models/models.py:24-28 | the rank of a status is at most 2, and is 2 exactly for the terminal statuses CONFIRMED and FAILED |
| Models.EvolvesTransitive | backend/app/scheduler/schedulers.py:76-97 | forward-only status evolution composes, and a terminal row never changes status again |
| Keys.RandomEthAddress | backend/app/utils.py:18-23 | an issued address is the user-pool derivation at the drawn index, stores that index, and fits the address columns |
| Keys.PrivateKeyFromIndex | backend/app/utils.py:25-28 | the signing key is in the user pool, at the given index |
| Keys.PrivateKeyFromMaster | backend/app/utils.py:34-40 | the signing key is in the master pool, at the given index |
| Keys.MainAddress | backend/app/utils.py:30-32 | the treasury address is the master-pool derivation at index 0, 42 characters long |
| Keys.KeysControlTheirAddresses | backend/app/utils.py:13-40 | the key chosen for an issued address, and the master key 0, derive exactly the stored address and the treasury address |
| Web3Integration.GetTransaction | backend/app/integration/web3_integration.py:6-11 | re-raises: the lookup raises iff the node call raises or no hash is given; otherwise it is the node's answer, None included |
| Web3Integration.GetTransactionReceipt | backend/app/integration/web3_integration.py:13-18 | re-raises: the lookup raises iff the node call raises or no hash is given; otherwise it is the node's answer |
| Web3Integration.Confirmations | backend/app/integration/web3_integration.py:20-22 | current block minus the transaction's block; none when the lookup raises or the transaction has no block yet |

| Web3Integration.IsTransactionConfirmed | backend/app/integration/web3_integration.py:24-30 | true iff a receipt with status 1 exists and there are at least 6 confirmations; an exception gives false |
| Web3Integration.IsTransactionFailed | backend/app/integration/web3_integration.py:32-41 | with a receipt, true iff its status is 0; without one, true iff the transaction lookup answers None; false when that lookup raises too |
| Web3Integration.IsContractTransaction | backend/app/integration/web3_integration.py:58-70 | true iff the transaction is found, the code at its `to` is non-empty and its input is not "0x"; exceptions give false |
| Web3Integration.GetEthBalance | backend/app/integration/web3_integration.py:88-93 | the node's balance, or 0 when the call raises |
| Web3Integration.GetTransactionEstimate | backend/app/integration/web3_integration.py:95-100 | the node's estimate, or 0 when the call raises |
| Web3Integration.GetGasPrice | backend/app/integration/web3_integration.py:51-56 | None exactly when the node call raises, otherwise the node's gas price |
| Web3Integration.GetAddressNonce | backend/app/integration/web3_integration.py:72-77 | re-raises: no nonce exactly when the node call raises, otherwise the node's transaction count |
| Web3Integration.SignAndSendTransaction | backend/app/integration/web3_integration.py:79-86 | re-raises: no hash exactly when signing or broadcasting raises, otherwise the hash the node returns for that draft and key |
| Web3Integration.ConfirmedExcludesFailed | backend/app/integration/web3_integration.py:24-41 | no transaction is both confirmed and failed |
| Web3Integration.UnknownHashIsUndecided | backend/app/integration/web3_integration.py:24-70 | a hash whose every lookup raises is neither confirmed, nor failed, nor a contract call |
| Web3Integration.ErrorDefaults | backend/app/integration/web3_integration.py:51-100 | when the node is unavailable, the balance is 0, the estimate is 0 and the gas price is None |
| Crud.GetCreateAddressJobs | backend/app/crud.py:27-31 | the first PENDING job, with no PENDING job before it; none iff no job is PENDING |
| Crud.OldestPendingJob | backend/app/crud.py:29-30 | with jobs kept in creation order, the chosen job is the oldest PENDING job |
| Crud.GetAddress | backend/app/crud.py:49-52 | the stored row with exactly that address; None, without raising, iff there is none |
| Crud.GetAddressUnique | backend/app/crud.py:49-52 | with unique addresses, looking up a stored address gives its own row |
| Crud.GetAddressAppend | backend/app/crud.py:49-52 | adding rows does not change the answer for an address already present |
| Crud.CheckAddressExists | backend/app/crud.py:44-47 | true iff some row has exactly that address |
| Crud.GetTransactionsByStatus | backend/app/crud.py:103-106 | exactly the positions of the rows with that status, each once, in increasing order |
| Crud.ByStatusInCreatedOrder | backend/app/crud.py:103-106 | with rows in creation order, the selected rows come in `created_at` order |
| Crud.CheckTransactionHistoryExists | backend/app/crud.py:108-111 | true iff some history row has that hash |
| Crud.HistoryFromEthTx | backend/app/crud.py:54-64 | amount = value / 10^18 (it converts back to exactly the value) and asset ETH, with from and to taken from the transaction, gas and gas price from the receipt, and the block from the transaction; stored iff the transaction has a block |
| Crud.HistoryFromContractTx | backend/app/crud.py:66-75 | from is the receipt's sender; to, asset and amount are the given ones; gas, gas price and block come from the receipt |
| Crud.HistoryFromTx | backend/app/crud.py:77-87 | hash, from, to, asset and amount are copied from the transaction, and gas, gas price and block from the receipt; stored iff the transaction has a hash |
| Crud.HistoryFromTxDeclared | backend/app/crud.py:77-87 | a history row built from a row within its declared bounds is itself within the history's declared bounds |
| Crud.AddAddressJob | backend/app/crud.py:20-25 | a PENDING job with the requested quantity, stamped with the clock, is appended and committed iff the store and the quantity fit their columns; a quantity outside 32 bits gives DataError, and nothing changes on an error |
| Crud.AddTransaction | backend/app/crud.py:96-101 | on a storable store, the row, stamped with the clock, is appended and committed iff its fields fit their columns and its hash is absent or new; a misfit gives DataError, a duplicate IntegrityError, and nothing changes |
| Crud.AddHistory | backend/app/crud.py:61-63 | on a storable store, the history row is appended and committed iff its fields fit their columns (gas, gas price and block within 32 bits) and its hash is not yet recorded; a misfit gives DataError, a duplicate IntegrityError, and nothing changes |
| Crud.StorableAfterJobAppend | backend/app/models.py:9-18 | appending a job keeps the uniqueness constraints as they were, and the tables fit iff they did and the job quantity is a 32-bit integer |
| Crud.FitsAfterTransactionAppend | backend/app/models.py:28-58 | appending a transaction row keeps the tables fitting iff the row fits |
| Crud.FitsAfterHistoryAppend | backend/app/models.py:60-95 | appending a history row keeps the tables fitting iff the row fits |
| Crud.AddAddressJobConsistent | backend/app/crud.py:20-25 | on a consistent store, the job insert succeeds iff the quantity is a 32-bit integer, and otherwise fails with DataError; either way the store stays consistent; with no job pending, a new job becomes the next one handled |
| Crud.AddTransactionConsistent | backend/app/crud.py:96-101 | inserting a well-shaped, unconfirmed row keeps the store consistent |
| Crud.AddHistoryConsistent | backend/app/crud.py:84-86 | inserting a history row with a non-negative amount keeps the store consistent |
| Crud.IssuedAddresses | backend/app/crud.py:33-37 | exactly `quantity` rows (none for a non-positive quantity), the k-th issued at the k-th random draw |
| Crud.CreateAddresses | backend/app/crud.py:33-37 | the loop stages exactly the issued rows |
| Crud.Ledger.Commit | backend/app/scheduler/schedulers.py:79-80 | the staged tables are published iff they fit their columns and meet the unique constraints; a misfit reports DataError, a duplicate IntegrityError, and the session is then unchanged |
| Crud.Ledger.CreateAddressJob | backend/app/crud.py:20-25 | the session changes as AddAddressJob says |
| Crud.Ledger.CreateTransaction | backend/app/crud.py:96-101 | the session changes as AddTransaction says |
| Crud.Ledger.CreateTransactionHistory | backend/app/crud.py:77-87 | the session changes as AddHistory says |
| Db.TreasuryAddress | backend/app/core/db.py:25-29 | the treasury row is the main address at index 0, and fits the address columns |
| Db.Bootstrap | backend/app/core/db.py:25-31 | either nothing changes or exactly the treasury row is committed; with the main address present nothing changes (exact outcome in BootstrapAddsTreasury and BootstrapKeepsPresent) |
| Db.BootstrapAddsTreasury | backend/app/core/db.py:27-31 | with the main address absent, exactly one row (the treasury row) is added, and nothing else changes but the clock |
| Db.BootstrapKeepsPresent | backend/app/core/db.py:27-28 | with the main address present, nothing changes |
| Db.BootstrapEstablishesTreasury | backend/app/core/db.py:25-31 | afterwards the main address is managed, by the treasury row when it was absent before |
| Db.BootstrapIdempotent | backend/app/core/db.py:27-31 | a second bootstrap is a no-op |
| Db.BootstrapConsistent | backend/app/core/db.py:27-31 | bootstrap keeps a consistent store consistent |
| Db.InitDb | backend/app/core/db.py:16-31 | the session changes as the bootstrap says, and stays consistent |
| Schedulers.IssueCycle | backend/app/scheduler/schedulers.py:24-31 | issuance never touches transactions or history, and either changes nothing or commits once (exact outcome in IssueCycleOutcome, IssueCommits and IssueCycleConsistent) |
| Schedulers.IssueCycleOutcome | backend/app/scheduler/schedulers.py:24-31 | with no PENDING job nothing changes; otherwise the run commits exactly when the staged tables are storable, and then, in one commit, exactly `quantity` issued addresses are added, the oldest PENDING job alone turns COMPLETED, and nothing else changes |
| Schedulers.IssueCommits | backend/app/scheduler/schedulers.py:24-31 | on a store a commit accepts, the issuance commits exactly when the issued addresses are new and distinct |
| Schedulers.IssueStagedFits | backend/app/models.py:20-23 | the issued address rows always fit the address columns |
| Schedulers.IssueCycleConsistent | backend/app/scheduler/schedulers.py:24-31 | issuance keeps the store consistent |
| Schedulers.CreateAddressJob | backend/app/scheduler/schedulers.py:24-31 | the session changes as the issuance cycle says, and stays consistent |
| Schedulers.DispatchGas | backend/app/scheduler/schedulers.py:54-57 | the dispatch gas is positive: floor(1.2 x the estimate) when the node gives one, and 78000 (1.2 x the 65000 default) when the estimate is 0 |
| Schedulers.DispatchRow | backend/app/scheduler/schedulers.py:38-77 | a success keeps the row and sets only its hash (to the broadcast hash) and its status (to STARTED); an unknown asset or an unmanaged sender fails |
| Schedulers.DispatchFeeCheck | backend/app/scheduler/schedulers.py:54-74 | the row is rejected for funds iff gas x price exceeds the native balance, with the token amount not added; a success passed the check and carries the hash broadcast with the user-pool key at the sender's stored index |
| Schedulers.DispatchFrom | backend/app/scheduler/schedulers.py:36-78 | a completed pass keeps the number of rows (exact outcome in DispatchFromOutcome) |
| Schedulers.DispatchFromOutcome | backend/app/scheduler/schedulers.py:36-79 | the pass succeeds iff every visited row dispatches; each visited row is then replaced by its dispatch, and the others are kept |
| Schedulers.DispatchCycle | backend/app/scheduler/schedulers.py:33-80 | dispatch never touches jobs, addresses or history, and either changes nothing or commits once (exact outcome in DispatchCycleOutcome and DispatchCommits) |
| Schedulers.DispatchCycleOutcome | backend/app/scheduler/schedulers.py:33-80 | either nothing changes, or in one commit every PENDING row becomes its dispatched row and nothing else changes; one failing PENDING row leaves the store unchanged |
| Schedulers.DispatchCommits | backend/app/scheduler/schedulers.py:33-80 | the pass completes exactly when every PENDING row dispatches, and the cycle commits exactly when the pass completes and the commit accepts the dispatched rows |
| Schedulers.UnmanagedSenderStallsDispatch | backend/app/scheduler/schedulers.py:71-73 | a PENDING row whose sender has no address row makes the cycle change nothing |
| Schedulers.DispatchCycleConsistent | backend/app/scheduler/schedulers.py:33-80 | dispatch keeps the store consistent and moves statuses only forward |
| Schedulers.DispatchAll | backend/app/scheduler/schedulers.py:36-79 | the loop over the PENDING rows computes the dispatch pass |
| Schedulers.CheckPendingTransaction | backend/app/scheduler/schedulers.py:33-80 | the session changes as the dispatch cycle says, and stays consistent |
| Schedulers.Judge | backend/app/scheduler/schedulers.py:86-97 | a row is confirmed iff the node confirms it, with the receipt it returns; failed iff it is not confirmed but the node reports failure; otherwise kept |
| Schedulers.Finalized | backend/app/scheduler/schedulers.py:86-97 | a confirmed row becomes CONFIRMED with the receipt's block; a failed one becomes FAILED; otherwise it is unchanged; always a forward move that keeps the hash |
| Schedulers.FinalizeFrom | backend/app/scheduler/schedulers.py:84-98 | the loop ends with the last committed store or with tables holding the staged jobs and addresses (exact outcome in FinalizeFromOutcome, FinalizeFromStalls and FinalizeFromConsistent) |
| Schedulers.FinalizeCycle | backend/app/scheduler/schedulers.py:82-98 | finalization never touches jobs or addresses (exact outcome in FinalizeCycleOutcome, FinalizeCycleStalls and FinalizeCycleConsistent) |
| Schedulers.ConfirmCommit | backend/app/scheduler/schedulers.py:92-93 | the history insert of a confirmation commits iff the receipt's block, gas and gas price are 32-bit integers and the hash is not yet recorded; a misfit gives DataError, a duplicate IntegrityError |
| Schedulers.AcceptedConfirmCommits | backend/app/scheduler/schedulers.py:86-93 | when no visited confirmation is refused, the first visited confirmation commits |
| Schedulers.FinalizeFromConsistent | backend/app/scheduler/schedulers.py:84-98 | every run of the finalizer loop ends in a consistent store whose statuses only moved forward |
| Schedulers.FinalizeCycleConsistent | backend/app/scheduler/schedulers.py:82-98 | finalization keeps the store consistent and moves statuses only forward |
| Schedulers.FinalizeFromOutcome | backend/app/scheduler/schedulers.py:85-97 | while every visited confirmation has a receipt that fits the columns and an unrecorded hash, each visited row is finalized and its history row is appended in visit order |
| Schedulers.FinalizeCycleOutcome | backend/app/scheduler/schedulers.py:82-98 | when no confirmed STARTED row is refused (its receipt fits the columns and its hash is unrecorded), every STARTED row is finalized, the other rows are untouched, and the history grows by exactly one row per confirmation in `created_at` order |
| Schedulers.FinalizeFromStalls | backend/app/scheduler/schedulers.py:86-93 | when the loop reaches a confirmed row whose history insert is refused, that row and all later visited rows are left as they were |
| Schedulers.FinalizeCycleStalls | backend/app/scheduler/schedulers.py:82-98 | a confirmed STARTED row whose history insert is refused (hash already recorded, or block, gas or gas price outside 32 bits) stays STARTED, as does every later STARTED row, and its insert stays refused, so the next cycle repeats the stall |
| Schedulers.RefusedGrows | backend/app/scheduler/schedulers.py:92-93 | a refused confirmation stays refused as the history grows |
| Schedulers.CheckTransactionFinalization | backend/app/scheduler/schedulers.py:82-98 | the session changes as the finalization cycle says, and stays consistent |
| TransactionService.NativeDraft | backend/app/service/transaction_service.py:104-109 | a plain value transfer to `to` of the given wei at the given nonce, with gas and price still unset |
| TransactionService.SigningKey | backend/app/service/transaction_service.py:131 | the master pool when `is_master` is set, otherwise the user pool, at the row's index |
| TransactionService.NativeBroadcast | backend/app/service/transaction_service.py:95-132 | an amount whose wei value is outside [0, 2^256 - 1] raises in `to_wei` before any RPC; an unmanaged sender never reaches the broadcast |
| TransactionService.EthTransfer | backend/app/service/transaction_service.py:95-138 | on failure the store is unchanged; on success exactly one ETH row is appended, STARTED with the broadcast hash and no block, and the store is committed; an unmanaged sender fails |
| TransactionService.EthTransferFundsCheck | backend/app/service/transaction_service.py:111-132 | the transfer is refused for funds iff buffered gas x price + amount in wei exceeds the balance; a success passed the check and stores the hash of the draft signed with the chosen key |
| TransactionService.EthTransferFailures | backend/app/service/transaction_service.py:97-122 | in order: an amount outside the wei range gives ValueOutOfRange, a nonce or gas-price failure gives ChainUnavailable and an unmanaged sender gives NoSuchAddress, each with the store unchanged |
| TransactionService.EthTransferCommits | backend/app/service/transaction_service.py:132-138 | once the broadcast returns a hash, the STARTED row is committed exactly when it fits its columns and the hash is new; otherwise the insert raises DataError or IntegrityError accordingly |
| TransactionService.EthTransferConsistent | backend/app/service/transaction_service.py:136-138 | a native transfer of a non-negative amount keeps the store consistent |
| TransactionService.TokenDraft | backend/app/service/transaction_service.py:161-165 | a call to the token contract's `transfer(to, value)` from the sender, carrying no ether, with gas and gas price unset |
| TransactionService.BuildTransaction | backend/app/service/transaction_service.py:161-165 | `build_transaction` without gas runs its own estimate: it fails iff that estimate raises, and otherwise returns the draft with the estimate as its gas |
| TransactionService.TokenGas | backend/app/service/transaction_service.py:167-173 | the token-transfer gas is positive: floor(1.2 x the estimate of the built transaction), and 78000 (1.2 x the 65000 default) when that estimate is 0 |
| TransactionService.PendingRow | backend/app/service/transaction_service.py:177-178 | the queued row is PENDING, has no hash and no block, and carries the request's fields |
| TransactionService.QueueAndFund | backend/app/service/transaction_service.py:177-182 | a success returns the queued PENDING row stamped with the clock |
| TransactionService.ContractTransfer | backend/app/service/transaction_service.py:140-184 | an unknown asset fails before any write; any failing precheck fails with the store unchanged; once the prechecks pass, the PENDING row is queued and funded with the cost of the built transaction; a success returns the PENDING row stamped with the clock |
| TransactionService.ContractTransferPrechecks | backend/app/service/transaction_service.py:141-175 | in order: a balanceOf failure, a token balance below floor(amount x 10^decimals), a nonce failure, a failing estimate inside `build_transaction`, then a gas-price failure; each fails with the store unchanged |
| TransactionService.PendingRowSurvivesFunding | backend/app/service/transaction_service.py:177-184 | once the checks pass, a PENDING row that does not fit its columns gives DataError with nothing changed; otherwise the row is committed whatever the funding does; the call succeeds iff the cost is at most 2^256 - 1 wei (else `from_wei` raises) and the treasury funding succeeds, and the funding error is the call's error |
| TransactionService.FundingCoversGas | backend/app/service/transaction_service.py:179-182 | on success exactly two rows are appended: the PENDING row, then a STARTED ETH row from the treasury to the sender worth the buffered gas x gas price in wei |
| TransactionService.FundingFromTreasury | backend/app/service/transaction_service.py:182 | with the bootstrapped treasury row, the funding transfer is signed with master key 0, which controls the main address |
| TransactionService.UnmanagedTokenSender | backend/app/service/transaction_service.py:150-153 | the address check never rejects a token sender (NoSuchAddress only when the treasury is unmanaged); a queued row from an unmanaged sender makes every later dispatch cycle a no-op |
| TransactionService.ContractTransferConsistent | backend/app/service/transaction_service.py:140-184 | a token transfer of a non-negative amount keeps the store consistent |
| TransactionService.Transfer | backend/app/service/transaction_service.py:83-93 | exactly "ETH" takes the native path and gives a STARTED row; any other asset gives a PENDING row; an unregistered token fails with nothing changed |
| TransactionService.BroadcastNative | backend/app/service/transaction_service.py:97-132 | the method builds and broadcasts as the native chain steps say |
| TransactionService.CreateEthTransaction | backend/app/service/transaction_service.py:95-138 | the session changes as EthTransfer says, and stays consistent |
| TransactionService.CreateContractTransaction | backend/app/service/transaction_service.py:140-184 | the session changes as ContractTransfer says, and stays consistent |
| TransactionService.CreateTransaction | backend/app/service/transaction_service.py:83-93 | the session changes as Transfer says, and stays consistent for a valid request |
| TransactionService.LowerChar | backend/app/service/transaction_service.py:50 | ASCII upper-case letters are lowered and every other character is kept |
| TransactionService.Lower | backend/app/service/transaction_service.py:50 | lowers a string character by character, keeping its length |
| TransactionService.FirstMatchingLog | backend/app/service/transaction_service.py:48-50 | the first log whose address matches the token case-insensitively; none iff no log matches |
| TransactionService.DepositRow | backend/app/service/transaction_service.py:36-76 | a built deposit row carries the hash, credits a managed address and has a non-negative amount |
| TransactionService.Deposit | backend/app/service/transaction_service.py:28-78 | an unconfirmed hash gives NotValid and a recorded hash gives AlreadyRecorded, both before any insert; every error leaves the store unchanged; a success appends exactly the deposit row and returns the recipient's history |
| TransactionService.DepositCommit | backend/app/service/transaction_service.py:28-78 | the insert never hits the unique constraint; the deposit succeeds iff the hash is confirmed, unrecorded, its row can be built and the row fits the history columns; a row that does not fit gives DataError with nothing changed |
| TransactionService.DepositIdempotent | backend/app/service/transaction_service.py:32-34 | validating the same hash again gives AlreadyRecorded and changes nothing |
| TransactionService.DepositAmounts | backend/app/service/transaction_service.py:43-76 | a native deposit credits the transaction's `to` with value / 10^18; a token deposit needs `to` to be a registry key and a Transfer value of at most 28 digits, and credits the first matching log's recipient with raw / 10^decimals of the registry's symbol |
| TransactionService.DepositQuantizeLimit | backend/app/service/transaction_service.py:57-61 | a token deposit whose Transfer value has more than 28 digits raises in `quantize` before the recipient check, and nothing is stored |
| TransactionService.DepositConsistent | backend/app/service/transaction_service.py:28-78 | a deposit keeps the store consistent |
| TransactionService.FindTokenLog | backend/app/service/transaction_service.py:48-50 | the log loop stops at the first log whose address matches |
| TransactionService.BuildDepositRow | backend/app/service/transaction_service.py:36-76 | the method builds the deposit row as DepositRow says |
| TransactionService.ValidateTransactionHash | backend/app/service/transaction_service.py:28-78 | the session changes as Deposit says, and stays consistent |
| TransactionService.GetTransactionsHistoryByAddress | backend/app/service/transaction_service.py:22-26 | succeeds iff the address is managed, with that address's history query; otherwise AddressNotFound |
| TransactionService.DepositRecipientListed | backend/app/service/transaction_service.py:63-74 | after a deposit, the history lookup for the credited address succeeds and returns what the deposit returned |

## Left out

- The HTTP layer (`api/routes/*`, `api/main.py`) is not part of this model. It only maps exceptions to status codes.
- The background scheduler threads and their 30-second intervals are left out. Each cycle is one sequential method call, and concurrency is out of scope.
- Engine creation and session construction are left out. `create_all` enters only through the column types that a commit checks. The session is the `Ledger` object, and a commit is the moment the staged tables become visible.
- The RPC layer is replaced by a `ChainView` parameter: one consistent snapshot of every answer the node would give. This covers the Web3 calls, signing and broadcasting, ABI encoding, `balanceOf` and `Transfer().process_log` decoding. So two reads of the same receipt always agree.
- Key derivation (BIP39/BIP44) is the opaque parameter `derive(pool, index)`. Only the choice of pool and index is modelled.
- `random.randint` is a parameter: a sequence of draws within [0, 2^32 - 1].
- Units.GasWithBuffer: computes floor(6 x estimate / 5) exactly. Python's float product `estimate * 1.2` can round differently at some values.
- Units.ToWei: exact scaling by 10^18. `to_wei` computes in a 999-digit Decimal context; amounts with more significant digits than that are not modelled.
- Units.ToMinor: exact floor of amount x 10^decimals. Python computes `amount * 10**decimals` in the default 28-digit Decimal context with half-even rounding before `int()` truncates. So an amount with more than 28 significant digits can scale one unit higher: 0.99999999999999999999999999999 at 6 decimals gives 1000000 in Python and 999999 in the model.
- The history-by-address query stays abstract, as the `Crud.HistoryQuery` value `HistoryByAddress(address)`. Its filter combines two SQL conditions with Python `or`, so what it selects depends on SQLAlchemy's operator overloading. The model does not claim it means "from or to".
- The `ge`/`le` bounds on table models (job quantity in [1, 1000], index in [0, 2^32 - 1], non-negative amounts and blocks) are predicates the model states. No insert enforces them, because SQLModel table models do not validate on construction and `create_all` emits no CHECK constraints. `model_validate` in `create_transaction` is not claimed to validate either. What the database does enforce, the column types and lengths, is part of the commit.
- The status columns are stored as Postgres enums of the status names, which every status value fits. The `amount` columns are unbounded `NUMERIC`.
- Models.CommitStore: when a commit breaks both a column type and a unique constraint, the model reports DataError. Which one Postgres reports depends on the order in which the rows are flushed.
- Row ids, `updated_at`, and the `created_at` of Address and TransactionHistory rows are left out. Only job and transaction creation times are modelled, because the queries order by them.
- Rows that share a `created_at` keep their insert order. The database's tie order is unspecified.
- `chainId` is left out. It goes into every draft unchanged and no decision depends on it.
- TransactionService.BuildTransaction: models the gas estimate that `build_transaction` runs when no gas is given. The fee fields that web3 fills in after it (`maxFeePerGas` and the like) and the RPCs behind them are taken to succeed.
- The address derivation `derive(pool, index)` returns a 42-character address, as a checksummed hexadecimal address is.
- The chain's transaction `value` is a 256-bit word, as the protocol stores it.
- A contract-creation transaction (no `to`) is not modelled as a deposit.
- Web3Integration.IsContractTransaction: compares the transaction's input with the string "0x", as the code is written. With web3 version 7, which the code's `raw_transaction` key indicates, the input is `HexBytes`, and `HexBytes` never equals a string. So at run time the test reduces to non-empty code at `to`. Ether sent to a contract address with empty input is then handled as a token deposit rather than a native one. The model does not capture that run-time reduction.
- TransactionService.Lower: lowers ASCII letters only. Python's `str.lower` also folds non-ASCII letters, which never occur in hexadecimal addresses.
- `get_addresses` (a plain listing) and `address_service.py` (pass-throughs to the crud queries) are not modelled separately.
- Logging, prints and configuration loading are left out.
