/** The four table records (backend/app/models.py), their declared field
    constraints, the in-memory store that holds them, and the invariants the
    lifecycle engine keeps on that store. */
module Models {
  import opened Wrappers
  import opened ApiModels

  /** Largest derivation index (`le=2**32 - 1`). */
  const MaxIndex: int := 0xFFFF_FFFF

  /** A derivation index as `random.randint(0, 2**32 - 1)` draws it. */
  type Index = i: int | 0 <= i <= MaxIndex

  /** `AddressCreationJob`. `createdAt` is the store clock at insertion
      (the `server_default=func.now()` column); ids and `updated_at` are not
      modelled. */
  datatype AddressCreationJob = AddressCreationJob(quantity: int, status: AddressCreationStatus, createdAt: nat)

  /** `Address`: an issued address and its derivation index. */
  datatype Address = Address(address: string, index: int)

  /** `Transaction`: one outbound transfer intent. A row built by the
      service carries createdAt 0 until the store fills it in. */
  datatype Transaction = Transaction(
    fromAddress: string,
    toAddress: string,
    asset: string,
    amount: real,
    transactionHash: Option<string>,
    blockNumber: Option<nat>,
    status: TransactionStatus,
    createdAt: nat)

  /** `TransactionHistory`: one chain-confirmed movement. */
  datatype TransactionHistory = TransactionHistory(
    transactionHash: string,
    fromAddress: string,
    toAddress: string,
    asset: string,
    amount: real,
    gas: int,
    gasPrice: int,
    blockNumber: int)

  /** A job as the table model builds it: status defaults to PENDING. */
  function NewAddressCreationJob(quantity: int, createdAt: nat): (j: AddressCreationJob)
    ensures j.status == AddressCreationStatus.Pending && j.quantity == quantity
  {
    AddressCreationJob(quantity, AddressCreationStatus.Pending, createdAt)
  }

  /** Default job quantity (`default=1`). */
  const DefaultJobQuantity: int := 1

  /** `quantity: int = Field(default=1, ge=1, le=1000)`. */
  predicate JobDeclared(j: AddressCreationJob) {
    1 <= j.quantity <= 1000
  }

  /** `address` at most 42 characters, index within [0, 2^32-1]. */
  predicate AddressDeclared(a: Address) {
    |a.address| <= 42 && 0 <= a.index <= MaxIndex
  }

  /** The Transaction field declarations. */
  predicate TransactionDeclared(t: Transaction) {
    && |t.fromAddress| <= 42
    && |t.toAddress| <= 42
    && |t.asset| <= 20
    && 0.0 <= t.amount
    && (t.transactionHash.Some? ==> |t.transactionHash.value| <= 66)
  }

  /** The TransactionHistory field declarations. */
  predicate HistoryDeclared(h: TransactionHistory) {
    && |h.transactionHash| <= 66
    && |h.fromAddress| <= 42
    && |h.toAddress| <= 42
    && |h.asset| <= 20
    && 0.0 <= h.amount
    && 0 <= h.gasPrice
    && 0 <= h.blockNumber
  }

  /** The defaults satisfy the declarations: a default job is PENDING with
      quantity 1, inside [1, 1000]. */
  lemma DefaultJobDeclared(createdAt: nat)
    ensures JobDeclared(NewAddressCreationJob(DefaultJobQuantity, createdAt))
    ensures NewAddressCreationJob(DefaultJobQuantity, createdAt).status == AddressCreationStatus.Pending
  {
  }

  /** The committed tables, plus the clock `now` that the next commit stamps
      on the rows it inserts. */
  datatype Store = Store(
    jobs: seq<AddressCreationJob>,
    addresses: seq<Address>,
    transactions: seq<Transaction>,
    history: seq<TransactionHistory>,
    now: nat)

  // ---- The database's unique constraints --------------------------------

  predicate UniqueAddresses(a: seq<Address>) {
    forall i, j :: 0 <= i < j < |a| ==> a[i].address != a[j].address
  }

  /** `transaction_hash` is unique when present; NULLs do not collide. */
  predicate UniqueTransactionHashes(ts: seq<Transaction>) {
    forall i, j :: 0 <= i < j < |ts| && ts[i].transactionHash.Some? ==> ts[i].transactionHash != ts[j].transactionHash
  }

  predicate UniqueHistoryHashes(h: seq<TransactionHistory>) {
    forall i, j :: 0 <= i < j < |h| ==> h[i].transactionHash != h[j].transactionHash
  }

  /** What a commit checks: the store's unique constraints all hold. */
  predicate Unique(db: Store) {
    UniqueAddresses(db.addresses) && UniqueTransactionHashes(db.transactions) && UniqueHistoryHashes(db.history)
  }

  // ---- The lifecycle invariants -----------------------------------------

  /** A transaction's shape in each state: PENDING exactly when no hash has
      been broadcast, CONFIRMED exactly when a block number is recorded. */
  predicate LifecycleShape(t: Transaction) {
    && 0.0 <= t.amount
    && (t.status.Pending? <==> t.transactionHash.None?)
    && (t.status.Confirmed? <==> t.blockNumber.Some?)
  }

  /** Some history row carries `hash`. */
  predicate Recorded(h: seq<TransactionHistory>, hash: string) {
    exists k :: 0 <= k < |h| && h[k].transactionHash == hash
  }

  predicate JobsSorted(jobs: seq<AddressCreationJob>) {
    forall i, j :: 0 <= i < j < |jobs| ==> jobs[i].createdAt <= jobs[j].createdAt
  }

  predicate TransactionsSorted(ts: seq<Transaction>) {
    forall i, j :: 0 <= i < j < |ts| ==> ts[i].createdAt <= ts[j].createdAt
  }

  /** Everything the engine keeps true of the tables, apart from the unique
      constraints that the database itself enforces. */
  predicate RowsWellFormed(db: Store) {
    && (forall i :: 0 <= i < |db.addresses| ==> 0 <= db.addresses[i].index <= MaxIndex)
    && (forall i :: 0 <= i < |db.transactions| ==> LifecycleShape(db.transactions[i]))
    && (forall i :: 0 <= i < |db.transactions| && db.transactions[i].status.Confirmed? ==>
          db.transactions[i].transactionHash.Some? && Recorded(db.history, db.transactions[i].transactionHash.value))
    && (forall k :: 0 <= k < |db.history| ==> 0.0 <= db.history[k].amount)
    && JobsSorted(db.jobs)
    && TransactionsSorted(db.transactions)
  }

  /** Every stamped row was stamped before `bound`. */
  predicate Clocked(db: Store, bound: nat) {
    && (forall i :: 0 <= i < |db.jobs| ==> db.jobs[i].createdAt < bound)
    && (forall i :: 0 <= i < |db.transactions| ==> db.transactions[i].createdAt < bound)
  }

  // ---- The database's column types -------------------------------------

  /** The tables are created by `create_all` on PostgreSQL, so a plain `int`
      field is a 32-bit INTEGER column, the `BigInteger` index a 64-bit one,
      and a declared `max_length` a VARCHAR of that length. */
  const Int32Max: int := 0x7FFF_FFFF
  const Int64Max: int := 0x7FFF_FFFF_FFFF_FFFF

  predicate IsInt32(x: int) {
    -Int32Max - 1 <= x <= Int32Max
  }

  predicate IsInt64(x: int) {
    -Int64Max - 1 <= x <= Int64Max
  }

  predicate JobFits(j: AddressCreationJob) {
    IsInt32(j.quantity)
  }

  predicate AddressFits(a: Address) {
    |a.address| <= 42 && IsInt64(a.index)
  }

  predicate TransactionFits(t: Transaction) {
    && |t.fromAddress| <= 42
    && |t.toAddress| <= 42
    && |t.asset| <= 20
    && (t.transactionHash.Some? ==> |t.transactionHash.value| <= 66)
    && (t.blockNumber.Some? ==> IsInt32(t.blockNumber.value))
  }

  predicate HistoryFits(h: TransactionHistory) {
    && |h.transactionHash| <= 66
    && |h.fromAddress| <= 42
    && |h.toAddress| <= 42
    && |h.asset| <= 20
    && IsInt32(h.gas)
    && IsInt32(h.gasPrice)
    && IsInt32(h.blockNumber)
  }

  /** Every row's values fit their columns. */
  predicate Fits(db: Store) {
    && (forall i :: 0 <= i < |db.jobs| ==> JobFits(db.jobs[i]))
    && (forall i :: 0 <= i < |db.addresses| ==> AddressFits(db.addresses[i]))
    && (forall i :: 0 <= i < |db.transactions| ==> TransactionFits(db.transactions[i]))
    && (forall i :: 0 <= i < |db.history| ==> HistoryFits(db.history[i]))
  }

  /** What a commit accepts: every value fits its column and every unique
      constraint holds. */
  predicate Storable(db: Store) {
    Fits(db) && Unique(db)
  }

  /** The invariant of a committed store. */
  predicate Consistent(db: Store) {
    RowsWellFormed(db) && Storable(db) && Clocked(db, db.now)
  }

  /** What a commit makes of staged tables: they become the store and the
      clock moves on. */
  function Advance(work: Store): (db: Store)
    ensures db.now == work.now + 1
    ensures db.(now := work.now) == work
  {
    work.(now := work.now + 1)
  }

  /** The commit of staged tables: published when the database accepts
      them; refused with DataError when a value does not fit its column,
      and otherwise with IntegrityError when a unique constraint breaks. */
  function CommitStore(work: Store): (r: Result<Store>)
    ensures r.Ok? <==> Storable(work)
    ensures r.Ok? ==> r.value == Advance(work)
    ensures r.Err? ==> r.error == (if Fits(work) then IntegrityError else DataError)
  {
    if !Fits(work) then Err(DataError)
    else if !Unique(work) then Err(IntegrityError)
    else Ok(Advance(work))
  }

  /** A staged store that a commit turns into a consistent one. */
  lemma CommitConsistent(work: Store)
    requires RowsWellFormed(work) && Clocked(work, work.now + 1)
    ensures CommitStore(work).Ok? ==> Consistent(CommitStore(work).value)
  {
  }

  // ---- Forward-only status ---------------------------------------------

  /** PENDING < STARTED < {CONFIRMED, FAILED}. */
  function Rank(s: TransactionStatus): (r: nat)
    ensures r <= 2
    ensures r == 2 <==> s.IsTerminal()
  {
    match s
    case Pending => 0
    case Started => 1
    case Confirmed => 2
    case Failed => 2
  }

  /** A status change that only moves forward (or nothing at all). */
  predicate StatusPrecedes(s: TransactionStatus, s': TransactionStatus) {
    s == s' || Rank(s) < Rank(s')
  }

  /** A later version of the same row: the intent fields never change, the
      status only moves forward, and a hash once set is kept. */
  predicate RowEvolves(t: Transaction, t': Transaction) {
    && t'.fromAddress == t.fromAddress
    && t'.toAddress == t.toAddress
    && t'.asset == t.asset
    && t'.amount == t.amount
    && t'.createdAt == t.createdAt
    && StatusPrecedes(t.status, t'.status)
    && (t.transactionHash.Some? ==> t'.transactionHash == t.transactionHash)
  }

  /** Rows are only appended, and every existing row only evolves. */
  predicate Evolves(a: seq<Transaction>, b: seq<Transaction>) {
    |a| <= |b| && forall i :: 0 <= i < |a| ==> RowEvolves(a[i], b[i])
  }

  /** Two evolutions in a row are one evolution, and a terminal row keeps its
      status in every later version. */
  lemma EvolvesTransitive(a: seq<Transaction>, b: seq<Transaction>, c: seq<Transaction>)
    requires Evolves(a, b) && Evolves(b, c)
    ensures Evolves(a, c)
    ensures forall i :: 0 <= i < |a| && a[i].status.IsTerminal() ==> c[i].status == a[i].status
  {
    forall i | 0 <= i < |a|
      ensures RowEvolves(a[i], c[i])
    {
      assert RowEvolves(a[i], b[i]) && RowEvolves(b[i], c[i]);
    }
  }
}
