/** The store operations of backend/app/crud.py. Queries are pure selections
    over the committed tables; inserts stage a row and commit it. The
    database session is the `Ledger` class: its fields are the committed
    tables, and `Commit` is the one point where staged tables become
    visible, refused when a value does not fit its column or a unique
    constraint would break. */
module Crud {
  import opened Wrappers
  import opened ApiModels
  import opened Models
  import opened Units
  import opened Keys
  import opened Web3Integration

  // ---- Queries -----------------------------------------------------------

  /** `get_create_address_jobs`: the position of the first PENDING job, or
      None. Rows with equal `created_at` are taken in storage order. */
  function GetCreateAddressJobs(jobs: seq<AddressCreationJob>): (r: Option<nat>)
    ensures r.Some? ==> r.value < |jobs| && jobs[r.value].status == AddressCreationStatus.Pending
    ensures r.Some? ==> forall i :: 0 <= i < r.value ==> jobs[i].status != AddressCreationStatus.Pending
    ensures r.None? <==> forall i :: 0 <= i < |jobs| ==> jobs[i].status != AddressCreationStatus.Pending
  {
    if |jobs| == 0 then None
    else if jobs[0].status == AddressCreationStatus.Pending then Some(0)
    else
      match GetCreateAddressJobs(jobs[1..])
      case None => None
      case Some(i) => Some(i + 1)
  }

  /** On a table kept in `created_at` order, the selected job is the oldest
      PENDING one. */
  lemma OldestPendingJob(jobs: seq<AddressCreationJob>)
    requires JobsSorted(jobs)
    ensures var r := GetCreateAddressJobs(jobs);
            r.Some? ==> forall j :: 0 <= j < |jobs| && jobs[j].status == AddressCreationStatus.Pending ==>
                          jobs[r.value].createdAt <= jobs[j].createdAt
  {
  }

  /** `get_address`: the first row holding exactly `address`, or None; it
      never raises. */
  function GetAddress(addresses: seq<Address>, address: string): (r: Option<Address>)
    ensures r.None? <==> forall i :: 0 <= i < |addresses| ==> addresses[i].address != address
    ensures r.Some? ==> r.value.address == address && r.value in addresses
  {
    if |addresses| == 0 then None
    else if addresses[0].address == address then Some(addresses[0])
    else GetAddress(addresses[1..], address)
  }

  /** Under the unique constraint, `get_address` finds the one row holding
      the address. */
  lemma GetAddressUnique(addresses: seq<Address>, i: nat)
    requires UniqueAddresses(addresses) && i < |addresses|
    ensures GetAddress(addresses, addresses[i].address) == Some(addresses[i])
  {
    var r := GetAddress(addresses, addresses[i].address);
    var j :| 0 <= j < |addresses| && addresses[j] == r.value;
    assert addresses[j].address == addresses[i].address;
  }

  /** Appending rows never changes what `get_address` finds for an address
      already present. */
  lemma GetAddressAppend(addresses: seq<Address>, more: seq<Address>, address: string)
    requires GetAddress(addresses, address).Some?
    ensures GetAddress(addresses + more, address) == GetAddress(addresses, address)
    decreases |addresses|
  {
    if addresses[0].address != address {
      assert (addresses + more)[1..] == addresses[1..] + more;
      GetAddressAppend(addresses[1..], more, address);
    }
  }

  /** `check_address_exists`. */
  function CheckAddressExists(addresses: seq<Address>, address: string): (r: bool)
    ensures r <==> exists i :: 0 <= i < |addresses| && addresses[i].address == address
  {
    GetAddress(addresses, address).Some?
  }

  /** `get_transactions_by_status`: the positions of exactly the rows with
      that status, in storage order. */
  function GetTransactionsByStatus(ts: seq<Transaction>, status: TransactionStatus): (r: seq<nat>)
    ensures forall k :: 0 <= k < |r| ==> r[k] < |ts| && ts[r[k]].status == status
    ensures forall i :: 0 <= i < |ts| && ts[i].status == status ==> i in r
    ensures forall k, l :: 0 <= k < l < |r| ==> r[k] < r[l]
  {
    if |ts| == 0 then []
    else
      var rest := GetTransactionsByStatus(ts[..|ts| - 1], status);
      if ts[|ts| - 1].status == status then rest + [|ts| - 1] else rest
  }

  /** On a table kept in `created_at` order, the selection comes out in
      `created_at` order. */
  lemma ByStatusInCreatedOrder(ts: seq<Transaction>, status: TransactionStatus)
    requires TransactionsSorted(ts)
    ensures var r := GetTransactionsByStatus(ts, status);
            forall k, l :: 0 <= k < l < |r| ==> ts[r[k]].createdAt <= ts[r[l]].createdAt
  {
  }

  /** `check_transaction_history_exists`. */
  function CheckTransactionHistoryExists(history: seq<TransactionHistory>, hash: string): (r: bool)
    ensures r <==> Recorded(history, hash)
  {
    if |history| == 0 then false
    else
      var last := |history| - 1;
      assert Recorded(history[..last], hash) ==> Recorded(history, hash) by {
        if Recorded(history[..last], hash) {
          var k :| 0 <= k < last && history[..last][k].transactionHash == hash;
          assert history[k].transactionHash == hash;
        }
      }
      history[last].transactionHash == hash || CheckTransactionHistoryExists(history[..last], hash)
  }

  /** The statement `get_transaction_history_by_address` runs for an address.
      It combines its two column conditions with Python's `or`, so which
      rows it selects depends on the SQL layer and is not modelled: results
      that return a history listing return this query instead. */
  datatype HistoryQuery = HistoryByAddress(address: string)

  // ---- History builders -------------------------------------------------

  /** `create_transaction_history_from_eth_tx`'s row: the transferred wei as
      ether, gas from the receipt, block from the transaction. A transaction
      without a block yields a NULL block column, which the commit refuses. */
  function HistoryFromEthTx(hash: string, tx: ChainTx, receipt: Receipt): (r: Result<TransactionHistory>)
    ensures r.Ok? <==> tx.blockNumber.Some?
    ensures r.Err? ==> r.error == IntegrityError
    ensures r.Ok? ==> && r.value.transactionHash == hash
                      && r.value.fromAddress == tx.sender && r.value.toAddress == tx.to
                      && r.value.asset == "ETH"
                      && r.value.amount * WeiPerEther as real == tx.value as real
                      && ToWei(r.value.amount) == tx.value
                      && r.value.gas == receipt.gasUsed && r.value.gasPrice == receipt.effectiveGasPrice
                      && r.value.blockNumber == tx.blockNumber.value
  {
    WeiRoundTrip(tx.value);
    match tx.blockNumber
    case None => Err(IntegrityError)
    case Some(block) =>
      Ok(TransactionHistory(hash, tx.sender, tx.to, "ETH", FromWei(tx.value), receipt.gasUsed, receipt.effectiveGasPrice, block))
  }

  /** `create_transaction_history_from_contract_tx`'s row: sender, gas and
      block from the receipt, recipient, asset and amount as decoded. */
  function HistoryFromContractTx(hash: string, receipt: Receipt, address: string, amount: real, asset: string)
    : (h: TransactionHistory)
    ensures h.transactionHash == hash && h.fromAddress == receipt.sender && h.toAddress == address
    ensures h.asset == asset && h.amount == amount
    ensures h.gas == receipt.gasUsed && h.gasPrice == receipt.effectiveGasPrice && h.blockNumber == receipt.blockNumber
  {
    TransactionHistory(hash, receipt.sender, address, asset, amount, receipt.gasUsed, receipt.effectiveGasPrice, receipt.blockNumber)
  }

  /** `create_transaction_history_from_tx`'s row: the intent fields of the
      Transaction, gas and block from the receipt. A row without a hash
      yields a NULL hash column, which the commit refuses. */
  function HistoryFromTx(t: Transaction, receipt: Receipt): (r: Result<TransactionHistory>)
    ensures r.Ok? <==> t.transactionHash.Some?
    ensures r.Err? ==> r.error == IntegrityError
    ensures r.Ok? ==> && Some(r.value.transactionHash) == t.transactionHash
                      && r.value.fromAddress == t.fromAddress && r.value.toAddress == t.toAddress
                      && r.value.asset == t.asset && r.value.amount == t.amount
                      && r.value.gas == receipt.gasUsed && r.value.gasPrice == receipt.effectiveGasPrice
                      && r.value.blockNumber == receipt.blockNumber
  {
    match t.transactionHash
    case None => Err(IntegrityError)
    case Some(hash) =>
      Ok(TransactionHistory(hash, t.fromAddress, t.toAddress, t.asset, t.amount, receipt.gasUsed, receipt.effectiveGasPrice, receipt.blockNumber))
  }

  /** A declared transaction yields a declared history row: the copied fields
      keep their bounds and the receipt's gas price and block are never
      negative. */
  lemma HistoryFromTxDeclared(t: Transaction, receipt: Receipt)
    requires TransactionDeclared(t) && t.transactionHash.Some?
    ensures HistoryFromTx(t, receipt).Ok? && HistoryDeclared(HistoryFromTx(t, receipt).value)
  {
  }

  // ---- Inserts: stage one row, then commit ------------------------------

  /** `create_address_job`: a PENDING job with the requested quantity,
      stamped with the store clock. The quantity goes into a 32-bit column,
      so a commit accepts it exactly when it is an int32 and the store is
      one a commit accepts. */
  function AddAddressJob(db: Store, quantity: int): (r: (Store, Result<AddressCreationJob>))
    ensures r.1.Ok? <==> Storable(db) && IsInt32(quantity)
    ensures r.1.Ok? ==> r.1.value == NewAddressCreationJob(quantity, db.now)
                        && r.0 == Advance(db.(jobs := db.jobs + [r.1.value]))
    ensures r.1.Err? ==> r.0 == db && r.1.error == (if Fits(db) && IsInt32(quantity) then IntegrityError else DataError)
  {
    var job := NewAddressCreationJob(quantity, db.now);
    StorableAfterJobAppend(db, job);
    match CommitStore(db.(jobs := db.jobs + [job]))
    case Ok(s) => (s, Ok(job))
    case Err(e) => (db, Err(e))
  }

  /** `create_transaction`: the row stamped with the store clock. On a store
      a commit accepts, the commit is refused with DataError when a value of
      the row does not fit its column, and with IntegrityError exactly when
      the row's hash is already taken. */
  function AddTransaction(db: Store, t: Transaction): (r: (Store, Result<Transaction>))
    ensures Storable(db) ==> (r.1.Ok? <==> TransactionFits(t) && (t.transactionHash.None? || forall i :: 0 <= i < |db.transactions| ==> db.transactions[i].transactionHash != t.transactionHash))
    ensures r.1.Ok? ==> r.1.value == t.(createdAt := db.now)
                        && r.0 == Advance(db.(transactions := db.transactions + [r.1.value]))
    ensures r.1.Err? ==> r.0 == db && r.1.error in {IntegrityError, DataError}
    ensures Storable(db) && r.1.Err? ==> r.1.error == (if TransactionFits(t) then IntegrityError else DataError)
  {
    var row := t.(createdAt := db.now);
    var work := db.(transactions := db.transactions + [row]);
    UniqueAfterTransactionAppend(db, row);
    FitsAfterTransactionAppend(db, row);
    match CommitStore(work)
    case Ok(s) => (s, Ok(row))
    case Err(e) => (db, Err(e))
  }

  /** One history row committed. On a store a commit accepts, the commit is
      refused with DataError when a value of the row does not fit its column
      (a gas price above 2^31 - 1 wei, say), and with IntegrityError exactly
      when the hash is already recorded. */
  function AddHistory(db: Store, h: TransactionHistory): (r: (Store, Result<TransactionHistory>))
    ensures Storable(db) ==> (r.1.Ok? <==> HistoryFits(h) && !Recorded(db.history, h.transactionHash))
    ensures r.1.Ok? ==> r.1.value == h && r.0 == Advance(db.(history := db.history + [h]))
    ensures r.1.Err? ==> r.0 == db && r.1.error in {IntegrityError, DataError}
    ensures Storable(db) && r.1.Err? ==> r.1.error == (if HistoryFits(h) then IntegrityError else DataError)
  {
    var work := db.(history := db.history + [h]);
    UniqueAfterHistoryAppend(db, h);
    FitsAfterHistoryAppend(db, h);
    match CommitStore(work)
    case Ok(s) => (s, Ok(h))
    case Err(e) => (db, Err(e))
  }

  /** A job row takes part in no unique constraint, and the staged tables fit
      their columns exactly when the old ones and the job do. */
  lemma StorableAfterJobAppend(db: Store, j: AddressCreationJob)
    ensures Unique(db.(jobs := db.jobs + [j])) == Unique(db)
    ensures Fits(db.(jobs := db.jobs + [j])) <==> Fits(db) && JobFits(j)
  {
    var js := db.jobs + [j];
    assert forall i :: 0 <= i < |db.jobs| ==> js[i] == db.jobs[i];
    assert js[|db.jobs|] == j;
  }

  /** Appending a transaction row: the tables fit their columns exactly when
      the old ones and the row do. */
  lemma FitsAfterTransactionAppend(db: Store, row: Transaction)
    ensures Fits(db.(transactions := db.transactions + [row])) <==> Fits(db) && TransactionFits(row)
  {
    var ts := db.transactions + [row];
    assert forall i :: 0 <= i < |db.transactions| ==> ts[i] == db.transactions[i];
    assert ts[|db.transactions|] == row;
  }

  /** Appending a history row: the tables fit their columns exactly when the
      old ones and the row do. */
  lemma FitsAfterHistoryAppend(db: Store, h: TransactionHistory)
    ensures Fits(db.(history := db.history + [h])) <==> Fits(db) && HistoryFits(h)
  {
    var hs := db.history + [h];
    assert forall i :: 0 <= i < |db.history| ==> hs[i] == db.history[i];
    assert hs[|db.history|] == h;
  }

  /** Appending a transaction row to tables that meet the unique
      constraints keeps them exactly when its hash is absent or fresh. */
  lemma UniqueAfterTransactionAppend(db: Store, row: Transaction)
    ensures Unique(db) ==> (Unique(db.(transactions := db.transactions + [row])) <==>
              row.transactionHash.None? || forall i :: 0 <= i < |db.transactions| ==> db.transactions[i].transactionHash != row.transactionHash)
  {
    var ts := db.transactions + [row];
    assert forall i :: 0 <= i < |db.transactions| ==> ts[i] == db.transactions[i];
    assert ts[|db.transactions|] == row;
  }

  /** Appending a history row to tables that meet the unique constraints
      keeps them exactly when its hash is not yet recorded. */
  lemma UniqueAfterHistoryAppend(db: Store, h: TransactionHistory)
    ensures Unique(db) ==> (Unique(db.(history := db.history + [h])) <==> !Recorded(db.history, h.transactionHash))
  {
    var hs := db.history + [h];
    assert forall i :: 0 <= i < |db.history| ==> hs[i] == db.history[i];
    assert hs[|db.history|] == h;
    if Recorded(db.history, h.transactionHash) {
      var k :| 0 <= k < |db.history| && db.history[k].transactionHash == h.transactionHash;
      assert hs[k].transactionHash == hs[|db.history|].transactionHash;
    }
  }

  /** A job insert on a consistent store commits exactly when the quantity
      fits its 32-bit column, keeps the store consistent, and when no job was
      waiting the new job is the next one the issuance cycle takes. */
  lemma AddAddressJobConsistent(db: Store, quantity: int)
    requires Consistent(db)
    ensures AddAddressJob(db, quantity).1.Ok? <==> IsInt32(quantity)
    ensures AddAddressJob(db, quantity).1 == Err(DataError) <==> !IsInt32(quantity)
    ensures Consistent(AddAddressJob(db, quantity).0)
    ensures GetCreateAddressJobs(db.jobs).None? && IsInt32(quantity) ==>
              GetCreateAddressJobs(AddAddressJob(db, quantity).0.jobs) == Some(|db.jobs|)
  {
    var s := AddAddressJob(db, quantity).0;
    if !IsInt32(quantity) {
      return;
    }
    assert s.jobs == db.jobs + [NewAddressCreationJob(quantity, db.now)];
    assert forall i :: 0 <= i < |db.jobs| ==> s.jobs[i] == db.jobs[i];
    assert s.jobs[|db.jobs|].status == AddressCreationStatus.Pending;
  }

  /** A transaction insert keeps a consistent store consistent, provided the
      row has its lifecycle shape and is not CONFIRMED (a confirmed row needs
      its history row first). */
  lemma AddTransactionConsistent(db: Store, t: Transaction)
    requires Consistent(db) && LifecycleShape(t) && !t.status.Confirmed?
    ensures Consistent(AddTransaction(db, t).0)
  {
    var s := AddTransaction(db, t).0;
    if AddTransaction(db, t).1.Ok? {
      assert s.transactions == db.transactions + [t.(createdAt := db.now)];
      assert forall i :: 0 <= i < |db.transactions| ==> s.transactions[i] == db.transactions[i];
    }
  }

  /** A history insert keeps a consistent store consistent. */
  lemma AddHistoryConsistent(db: Store, h: TransactionHistory)
    requires Consistent(db) && 0.0 <= h.amount
    ensures Consistent(AddHistory(db, h).0)
  {
    var s := AddHistory(db, h).0;
    if AddHistory(db, h).1.Ok? {
      assert s.history == db.history + [h];
      forall i | 0 <= i < |s.transactions| && s.transactions[i].status.Confirmed?
        ensures Recorded(s.history, s.transactions[i].transactionHash.value)
      {
        var k :| 0 <= k < |db.history| && db.history[k].transactionHash == db.transactions[i].transactionHash.value;
        assert s.history[k] == db.history[k];
      }
    }
  }

  // ---- Address issuance --------------------------------------------------

  /** The rows `create_addresses` stages: one random user-pool address per
      unit of quantity (none for a quantity of 0 or less), the k-th at the
      k-th draw. */
  function IssuedAddresses(quantity: int, draws: nat -> Index, derive: Deriver): (r: seq<Address>)
    ensures |r| == if quantity > 0 then quantity else 0
    ensures forall k :: 0 <= k < |r| ==> r[k] == RandomEthAddress(derive, draws(k))
    decreases quantity
  {
    if quantity <= 0 then []
    else IssuedAddresses(quantity - 1, draws, derive) + [RandomEthAddress(derive, draws(quantity - 1))]
  }

  /** `create_addresses`' loop: builds the list one draw at a time. Staging
      the rows is the caller's commit. */
  method CreateAddresses(quantity: int, draws: nat -> Index, derive: Deriver) returns (addresses: seq<Address>)
    ensures addresses == IssuedAddresses(quantity, draws, derive)
  {
    addresses := [];
    var k := 0;
    while k < quantity
      invariant 0 <= k <= (if quantity > 0 then quantity else 0)
      invariant addresses == IssuedAddresses(k, draws, derive)
    {
      addresses := addresses + [RandomEthAddress(derive, draws(k))];
      k := k + 1;
    }
    if quantity <= 0 {
      assert IssuedAddresses(quantity, draws, derive) == [];
    }
  }

  // ---- The session ------------------------------------------------------

  /** The database behind one session: the committed tables and the clock the
      next commit stamps on new rows. */
  class Ledger {
    var jobs: seq<AddressCreationJob>
    var addresses: seq<Address>
    var transactions: seq<Transaction>
    var history: seq<TransactionHistory>
    var now: nat

    /** A session opened on existing tables. */
    constructor (db: Store)
      ensures Snapshot() == db
    {
      jobs := db.jobs;
      addresses := db.addresses;
      transactions := db.transactions;
      history := db.history;
      now := db.now;
    }

    /** The committed tables as one value. */
    function Snapshot(): Store
      reads this
    {
      Store(jobs, addresses, transactions, history, now)
    }

    predicate Valid()
      reads this
    {
      Consistent(Snapshot())
    }

    /** `session.commit()`: publishes the staged tables when the database
      accepts them (and moves the clock on); otherwise raises DataError for
      a value that does not fit its column or IntegrityError for a broken
      unique constraint, and leaves the committed tables as they were. */
    method Commit(work: Store) returns (r: Outcome)
      modifies this
      ensures r.Pass? <==> Storable(work)
      ensures r.Fail? ==> r.error == (if Fits(work) then IntegrityError else DataError)
      ensures r.Pass? ==> Snapshot() == Advance(work)
      ensures r.Fail? ==> Snapshot() == old(Snapshot())
    {
      if !Fits(work) {
        r := Fail(DataError);
      } else if !Unique(work) {
        r := Fail(IntegrityError);
      } else {
        r := Pass;
        jobs, addresses, transactions, history, now := work.jobs, work.addresses, work.transactions, work.history, work.now + 1;
      }
    }

    /** `crud.create_address_job`. */
    method CreateAddressJob(quantity: int) returns (r: Result<AddressCreationJob>)
      modifies this
      ensures (Snapshot(), r) == AddAddressJob(old(Snapshot()), quantity)
    {
      var job := NewAddressCreationJob(quantity, now);
      var c := Commit(Snapshot().(jobs := jobs + [job]));
      r := if c.Pass? then Ok(job) else Err(c.error);
    }

    /** `crud.create_transaction`. */
    method CreateTransaction(t: Transaction) returns (r: Result<Transaction>)
      modifies this
      ensures (Snapshot(), r) == AddTransaction(old(Snapshot()), t)
    {
      var row := t.(createdAt := now);
      var c := Commit(Snapshot().(transactions := transactions + [row]));
      r := if c.Pass? then Ok(row) else Err(c.error);
    }

    /** The insert-and-commit shared by the three history builders of
      crud.py. */
    method CreateTransactionHistory(h: TransactionHistory) returns (r: Result<TransactionHistory>)
      modifies this
      ensures (Snapshot(), r) == AddHistory(old(Snapshot()), h)
    {
      var c := Commit(Snapshot().(history := history + [h]));
      r := if c.Pass? then Ok(h) else Err(c.error);
    }
  }
}
