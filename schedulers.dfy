/** The three background cycles of backend/app/scheduler/schedulers.py, each
    run as one sequential call on the session. Each cycle is specified by a
    function on the committed store (`IssueCycle`, `DispatchCycle`,
    `FinalizeCycle`) and implemented by a method that loops over the
    selected rows, mutates them in a staged copy of the tables and commits
    as the source does. */
module Schedulers {
  import opened Wrappers
  import opened ApiModels
  import opened Models
  import opened Units
  import opened Config
  import opened Keys
  import opened Web3Integration
  import opened Crud

  // ======================================================================
  // Address issuance: `create_address_job`
  // ======================================================================

  /** The staged tables of one issuance run for the job at position `i`: the
      issued addresses appended and the job COMPLETED. */
  function IssueStaged(db: Store, i: nat, draws: nat -> Index, derive: Deriver): Store
    requires i < |db.jobs|
  {
    db.(addresses := db.addresses + IssuedAddresses(db.jobs[i].quantity, draws, derive),
        jobs := db.jobs[i := db.jobs[i].(status := AddressCreationStatus.Completed)])
  }

  /** One issuance run: the oldest PENDING job (if any) gets its addresses and
      becomes COMPLETED in a single commit. A draw that collides with an
      existing address makes the commit fail, and then nothing changes. */
  function IssueCycle(db: Store, draws: nat -> Index, derive: Deriver): (r: Store)
    ensures r.transactions == db.transactions && r.history == db.history
    ensures r == db || r.now == db.now + 1
  {
    match GetCreateAddressJobs(db.jobs)
    case None => db
    case Some(i) =>
      match CommitStore(IssueStaged(db, i, draws, derive))
      case Ok(s) => s
      case Err(_) => db
  }

  /** What one issuance run does: with no PENDING job nothing changes;
      otherwise exactly `quantity` addresses are added (none for a quantity
      below 1) and that one job, and no other, becomes COMPLETED, or, if the
      commit is refused, nothing changes. */
  lemma IssueCycleOutcome(db: Store, draws: nat -> Index, derive: Deriver)
    ensures GetCreateAddressJobs(db.jobs).None? ==> IssueCycle(db, draws, derive) == db
    ensures GetCreateAddressJobs(db.jobs).Some? ==>
              var i := GetCreateAddressJobs(db.jobs).value;
              var r := IssueCycle(db, draws, derive);
              r == db ||
              (&& r.addresses == db.addresses + IssuedAddresses(db.jobs[i].quantity, draws, derive)
               && |r.addresses| == |db.addresses| + (if db.jobs[i].quantity > 0 then db.jobs[i].quantity else 0)
               && |r.jobs| == |db.jobs|
               && r.jobs[i].status == AddressCreationStatus.Completed
               && (forall j :: 0 <= j < |db.jobs| && j != i ==> r.jobs[j] == db.jobs[j])
               && r.jobs[i] == db.jobs[i].(status := AddressCreationStatus.Completed)
               && r.transactions == db.transactions && r.history == db.history
               && r.now == db.now + 1)
    ensures GetCreateAddressJobs(db.jobs).Some? ==>
              (Storable(IssueStaged(db, GetCreateAddressJobs(db.jobs).value, draws, derive)) <==> IssueCycle(db, draws, derive) != db)
  {
  }

  /** On a store a commit accepts, the issuance commit is refused only by a
      duplicate address: the issued rows fit their columns, so the run
      commits exactly when the issued addresses are new and distinct. */
  lemma IssueCommits(db: Store, draws: nat -> Index, derive: Deriver)
    requires Storable(db) && GetCreateAddressJobs(db.jobs).Some?
    ensures var i := GetCreateAddressJobs(db.jobs).value;
            IssueCycle(db, draws, derive) != db <==>
              UniqueAddresses(db.addresses + IssuedAddresses(db.jobs[i].quantity, draws, derive))
  {
    var i := GetCreateAddressJobs(db.jobs).value;
    IssueStagedFits(db, i, draws, derive);
    IssueCycleOutcome(db, draws, derive);
  }

  /** The staged tables of an issuance run fit their columns when the store
      did: the issued rows are 42-character addresses at 32-bit indices. */
  lemma IssueStagedFits(db: Store, i: nat, draws: nat -> Index, derive: Deriver)
    requires Fits(db) && i < |db.jobs|
    ensures Fits(IssueStaged(db, i, draws, derive))
  {
    var work := IssueStaged(db, i, draws, derive);
    var issued := IssuedAddresses(db.jobs[i].quantity, draws, derive);
    assert forall j :: 0 <= j < |db.jobs| ==> work.jobs[j].quantity == db.jobs[j].quantity;
    forall j | 0 <= j < |work.addresses|
      ensures AddressFits(work.addresses[j])
    {
      if j < |db.addresses| {
        assert work.addresses[j] == db.addresses[j];
      } else {
        assert work.addresses[j] == issued[j - |db.addresses|];
      }
    }
    assert Fits(work);
  }

  /** The staged tables of an issuance run on a consistent store are well
      formed and stamped before the commit's clock. */
  lemma IssueStagedWellFormed(db: Store, i: nat, draws: nat -> Index, derive: Deriver)
    requires Consistent(db) && i < |db.jobs|
    ensures RowsWellFormed(IssueStaged(db, i, draws, derive))
    ensures Clocked(IssueStaged(db, i, draws, derive), db.now + 1)
  {
    var work := IssueStaged(db, i, draws, derive);
    var issued := IssuedAddresses(db.jobs[i].quantity, draws, derive);
    assert work.transactions == db.transactions && work.history == db.history;
    assert |work.jobs| == |db.jobs| && forall j :: 0 <= j < |db.jobs| ==> work.jobs[j].createdAt == db.jobs[j].createdAt;
    assert JobsSorted(work.jobs);
    forall j | 0 <= j < |work.addresses|
      ensures 0 <= work.addresses[j].index <= MaxIndex
    {
      if j < |db.addresses| {
        assert work.addresses[j] == db.addresses[j];
      } else {
        assert work.addresses[j] == issued[j - |db.addresses|];
      }
    }
  }

  /** An issuance run keeps a consistent store consistent. */
  lemma IssueCycleConsistent(db: Store, draws: nat -> Index, derive: Deriver)
    requires Consistent(db)
    ensures Consistent(IssueCycle(db, draws, derive))
  {
    match GetCreateAddressJobs(db.jobs)
    case None =>
    case Some(i) =>
      IssueStagedWellFormed(db, i, draws, derive);
      CommitConsistent(IssueStaged(db, i, draws, derive));
  }

  /** `create_address_job`. */
  method CreateAddressJob(l: Ledger, draws: nat -> Index, derive: Deriver)
    modifies l
    ensures l.Snapshot() == IssueCycle(old(l.Snapshot()), draws, derive)
    ensures old(l.Valid()) ==> l.Valid()
  {
    var db := l.Snapshot();
    var job := GetCreateAddressJobs(l.jobs);
    if job.Some? {
      var i := job.value;
      var addresses := CreateAddresses(l.jobs[i].quantity, draws, derive);
      var jobs := l.jobs[i := l.jobs[i].(status := AddressCreationStatus.Completed)];
      var _ := l.Commit(db.(addresses := db.addresses + addresses, jobs := jobs));
    }
    if Consistent(db) {
      IssueCycleConsistent(db, draws, derive);
    }
  }

  // ======================================================================
  // Token dispatch: `check_pending_transaction`
  // ======================================================================

  /** The transaction `build_transaction` makes for the token's
      `transfer(to, value)` call on behalf of the row's sender, with the
      default gas of 65000 and the gas price as `get_gas_price` reports it. */
  function DispatchProbe(t: Transaction, token: Token, nonce: nat, c: ChainView): TxDraft {
    TxDraft(Some(t.fromAddress), token.address, 0, TokenTransfer(t.toAddress, ToMinor(t.amount, token.decimals)),
            nonce, Some(DefaultTokenGas), GetGasPrice(c))
  }

  /** The buffered gas of the dispatch: the node's estimate of the probe
      (0 where it raises), 65000 when that is 0, times 1.2 and truncated. */
  function DispatchGas(t: Transaction, token: Token, nonce: nat, c: ChainView): (g: nat)
    ensures 0 < g
    ensures var e := GetTransactionEstimate(c, DispatchProbe(t, token, nonce, c));
            e != 0 ==> 5 * g <= 6 * e < 5 * g + 5
    ensures GetTransactionEstimate(c, DispatchProbe(t, token, nonce, c)) == 0 ==> g == 78000
  {
    GasWithBuffer(TokenGasEstimate(GetTransactionEstimate(c, DispatchProbe(t, token, nonce, c))))
  }

  /** One PENDING row through the dispatch loop body: the first exception it
      would raise, or the row with the broadcast hash and status STARTED. */
  function DispatchRow(addresses: seq<Address>, t: Transaction, cfg: Settings, c: ChainView): (r: Result<Transaction>)
    ensures r.Ok? ==> && r.value.transactionHash.Some?
                      && r.value == t.(transactionHash := r.value.transactionHash, status := TransactionStatus.Started)
    ensures t.asset !in TokenBySymbol(cfg) ==> r == Err(UnknownAsset)
    ensures !CheckAddressExists(addresses, t.fromAddress) ==> r.Err?
  {
    var registry := TokenBySymbol(cfg);
    if t.asset !in registry then Err(UnknownAsset)
    else
      var token := registry[t.asset];
      var balance := GetEthBalance(c, t.fromAddress);
      match GetAddressNonce(c, t.fromAddress)
      case None => Err(ChainUnavailable)
      case Some(nonce) =>
        var gas := DispatchGas(t, token, nonce, c);
        match GetGasPrice(c)
        case None => Err(ChainUnavailable)
        case Some(gasPrice) =>
          if gas * gasPrice > balance then Err(InsufficientFunds)
          else
            match GetAddress(addresses, t.fromAddress)
            case None => Err(NoSuchAddress)
            case Some(address) =>
              var signed := DispatchProbe(t, token, nonce, c).(gas := Some(gas), gasPrice := Some(gasPrice));
              match SignAndSendTransaction(c, signed, PrivateKeyFromIndex(address.index))
              case None => Err(ChainUnavailable)
              case Some(hash) => Ok(t.(transactionHash := Some(hash), status := TransactionStatus.Started))
  }

  /** The fee check of the dispatch compares the gas cost alone with the
      sender's native balance (0 when the balance call fails): the token
      amount is not added. A row that passes it is signed with the user-pool
      key at the sender's stored index and carries the hash the broadcast
      returned. */
  lemma DispatchFeeCheck(addresses: seq<Address>, t: Transaction, cfg: Settings, c: ChainView)
    requires t.asset in TokenBySymbol(cfg) && c.nonces(t.fromAddress).Some? && c.gasPrice.Some?
    ensures var gas := DispatchGas(t, TokenBySymbol(cfg)[t.asset], c.nonces(t.fromAddress).value, c);
            DispatchRow(addresses, t, cfg, c) == Err(InsufficientFunds) <==> gas * c.gasPrice.value > GetEthBalance(c, t.fromAddress)
    ensures var token := TokenBySymbol(cfg)[t.asset];
            var nonce := c.nonces(t.fromAddress).value;
            var gas := DispatchGas(t, token, nonce, c);
            DispatchRow(addresses, t, cfg, c).Ok? ==>
              && gas * c.gasPrice.value <= GetEthBalance(c, t.fromAddress)
              && GetAddress(addresses, t.fromAddress).Some?
              && Some(DispatchRow(addresses, t, cfg, c).value.transactionHash.value) ==
                   c.send(DispatchProbe(t, token, nonce, c).(gas := Some(gas), gasPrice := c.gasPrice),
                          Key(UserPool, GetAddress(addresses, t.fromAddress).value.index))
  {
  }

  /** A loop over the rows at positions `pend` that replaces each row by what
      `step` makes of it, reading each row from the tables as the earlier
      iterations left them; the first error aborts the loop. */
  function RunRows(ts: seq<Transaction>, pend: seq<nat>, step: Transaction -> Result<Transaction>)
    : (r: Result<seq<Transaction>>)
    requires forall k :: 0 <= k < |pend| ==> pend[k] < |ts|
    ensures r.Ok? ==> |r.value| == |ts|
    decreases |pend|
  {
    if |pend| == 0 then Ok(ts)
    else
      match step(ts[pend[0]])
      case Err(e) => Err(e)
      case Ok(t) => RunRows(ts[pend[0] := t], pend[1..], step)
  }

  /** Dropping the first of increasing positions below `n` leaves
      increasing positions below `n`, all above the dropped one. */
  lemma IncreasingTail(pend: seq<nat>, n: nat)
    requires |pend| > 0 && forall k :: 0 <= k < |pend| ==> pend[k] < n
    requires forall k, l :: 0 <= k < l < |pend| ==> pend[k] < pend[l]
    ensures forall k :: 0 <= k < |pend| - 1 ==> pend[1..][k] == pend[k + 1] && pend[0] < pend[1..][k] < n
    ensures forall k, l :: 0 <= k < l < |pend| - 1 ==> pend[1..][k] < pend[1..][l]
    ensures pend[0] !in pend[1..]
  {
    var rest := pend[1..];
    forall k | 0 <= k < |rest|
      ensures rest[k] == pend[k + 1] && pend[0] < rest[k] < n
    {
      assert pend[0] < pend[k + 1];
    }
    forall k, l | 0 <= k < l < |rest|
      ensures rest[k] < rest[l]
    {
      assert rest[k] == pend[k + 1] && rest[l] == pend[l + 1];
    }
  }

  /** Over distinct increasing positions the loop completes exactly when
      every visited row steps on its own, and then each visited row is
      replaced by its step and every other row is kept. */
  lemma {:induction false} RunRowsOutcome(ts: seq<Transaction>, pend: seq<nat>, step: Transaction -> Result<Transaction>)
    requires forall k :: 0 <= k < |pend| ==> pend[k] < |ts|
    requires forall k, l :: 0 <= k < l < |pend| ==> pend[k] < pend[l]
    ensures RunRows(ts, pend, step).Ok? <==> forall k :: 0 <= k < |pend| ==> step(ts[pend[k]]).Ok?
    ensures RunRows(ts, pend, step).Ok? ==>
              var r := RunRows(ts, pend, step).value;
              && (forall i :: 0 <= i < |ts| && i !in pend ==> r[i] == ts[i])
              && (forall k :: 0 <= k < |pend| ==> r[pend[k]] == step(ts[pend[k]]).value)
    decreases |pend|
  {
    if |pend| > 0 {
      var i := pend[0];
      match step(ts[i])
      case Err(_) =>
      case Ok(t) =>
        var ts' := ts[i := t];
        var rest := pend[1..];
        IncreasingTail(pend, |ts|);
        assert forall k :: 0 <= k < |rest| ==> ts'[rest[k]] == ts[rest[k]];
        RunRowsOutcome(ts', rest, step);
        if RunRows(ts', rest, step).Ok? {
          var r := RunRows(ts', rest, step).value;
          forall k | 0 <= k < |pend|
            ensures r[pend[k]] == step(ts[pend[k]]).value
          {
            if k > 0 {
              assert pend[k] == rest[k - 1];
            }
          }
          forall j | 0 <= j < |ts| && j !in pend
            ensures r[j] == ts[j]
          {
            assert j !in rest;
          }
        } else {
          var k :| 0 <= k < |rest| && !step(ts'[rest[k]]).Ok?;
          assert pend[k + 1] == rest[k];
        }
    }
  }

  /** The dispatch loop body as a step of `RunRows`. */
  function DispatchStep(addresses: seq<Address>, cfg: Settings, c: ChainView): Transaction -> Result<Transaction> {
    t => DispatchRow(addresses, t, cfg, c)
  }

  /** The dispatch loop over the PENDING positions `pend`. */
  function DispatchFrom(ts: seq<Transaction>, pend: seq<nat>, addresses: seq<Address>, cfg: Settings, c: ChainView)
    : (r: Result<seq<Transaction>>)
    requires forall k :: 0 <= k < |pend| ==> pend[k] < |ts|
    ensures r.Ok? ==> |r.value| == |ts|
  {
    RunRows(ts, pend, DispatchStep(addresses, cfg, c))
  }

  /** One iteration of the dispatch loop. */
  lemma DispatchFromStep(ts: seq<Transaction>, pend: seq<nat>, addresses: seq<Address>, cfg: Settings, c: ChainView)
    requires 0 < |pend| && forall k :: 0 <= k < |pend| ==> pend[k] < |ts|
    ensures DispatchRow(addresses, ts[pend[0]], cfg, c).Err? ==> DispatchFrom(ts, pend, addresses, cfg, c).Err?
    ensures DispatchRow(addresses, ts[pend[0]], cfg, c).Ok? ==>
              DispatchFrom(ts, pend, addresses, cfg, c) ==
              DispatchFrom(ts[pend[0] := DispatchRow(addresses, ts[pend[0]], cfg, c).value], pend[1..], addresses, cfg, c)
  {
    assert DispatchStep(addresses, cfg, c)(ts[pend[0]]) == DispatchRow(addresses, ts[pend[0]], cfg, c);
  }

  /** One dispatch run: every PENDING row in `created_at` order, then one
      commit. Any exception leaves the committed store untouched. */
  function DispatchCycle(db: Store, cfg: Settings, c: ChainView): (r: Store)
    ensures r.jobs == db.jobs && r.addresses == db.addresses && r.history == db.history
    ensures r == db || r.now == db.now + 1
  {
    var pend := GetTransactionsByStatus(db.transactions, TransactionStatus.Pending);
    match DispatchFrom(db.transactions, pend, db.addresses, cfg, c)
    case Err(_) => db
    case Ok(ts) =>
      match CommitStore(db.(transactions := ts))
      case Ok(s) => s
      case Err(_) => db
  }

  /** The dispatch loop against its reference: it completes exactly when
      every selected row dispatches on its own, and then each selected row
      is replaced by its dispatched version and every other row is kept. */
  lemma DispatchFromOutcome(ts: seq<Transaction>, pend: seq<nat>, addresses: seq<Address>, cfg: Settings, c: ChainView)
    requires forall k :: 0 <= k < |pend| ==> pend[k] < |ts|
    requires forall k, l :: 0 <= k < l < |pend| ==> pend[k] < pend[l]
    ensures DispatchFrom(ts, pend, addresses, cfg, c).Ok? <==>
              forall k :: 0 <= k < |pend| ==> DispatchRow(addresses, ts[pend[k]], cfg, c).Ok?
    ensures DispatchFrom(ts, pend, addresses, cfg, c).Ok? ==>
              var r := DispatchFrom(ts, pend, addresses, cfg, c).value;
              && (forall i :: 0 <= i < |ts| && i !in pend ==> r[i] == ts[i])
              && (forall k :: 0 <= k < |pend| ==> r[pend[k]] == DispatchRow(addresses, ts[pend[k]], cfg, c).value)
  {
    var step := DispatchStep(addresses, cfg, c);
    RunRowsOutcome(ts, pend, step);
    assert forall t :: step(t) == DispatchRow(addresses, t, cfg, c);
  }

  /** All or nothing: a dispatch run either changes nothing, or it committed
      with every PENDING row dispatched (hash set, status STARTED) and every
      other row and table as it was. One failing row anywhere in the run, the
      last one included, leaves every row PENDING, even those already
      broadcast. */
  lemma DispatchCycleOutcome(db: Store, cfg: Settings, c: ChainView)
    ensures var r := DispatchCycle(db, cfg, c);
            r == db ||
            (&& r.now == db.now + 1
             && r.jobs == db.jobs && r.addresses == db.addresses && r.history == db.history
             && |r.transactions| == |db.transactions|
             && forall i :: 0 <= i < |db.transactions| ==>
                  if db.transactions[i].status == TransactionStatus.Pending
                  then DispatchRow(db.addresses, db.transactions[i], cfg, c).Ok?
                       && r.transactions[i] == DispatchRow(db.addresses, db.transactions[i], cfg, c).value
                  else r.transactions[i] == db.transactions[i])
    ensures (exists i :: 0 <= i < |db.transactions| && db.transactions[i].status == TransactionStatus.Pending
                           && DispatchRow(db.addresses, db.transactions[i], cfg, c).Err?) ==>
              DispatchCycle(db, cfg, c) == db
  {
    var pend := GetTransactionsByStatus(db.transactions, TransactionStatus.Pending);
    DispatchFromOutcome(db.transactions, pend, db.addresses, cfg, c);
    var r := DispatchCycle(db, cfg, c);
    if DispatchFrom(db.transactions, pend, db.addresses, cfg, c).Ok? && r != db {
      forall i | 0 <= i < |db.transactions| && db.transactions[i].status == TransactionStatus.Pending
        ensures DispatchRow(db.addresses, db.transactions[i], cfg, c).Ok?
        ensures r.transactions[i] == DispatchRow(db.addresses, db.transactions[i], cfg, c).value
      {
        var k :| 0 <= k < |pend| && pend[k] == i;
      }
    }
    if exists i :: 0 <= i < |db.transactions| && db.transactions[i].status == TransactionStatus.Pending
                     && DispatchRow(db.addresses, db.transactions[i], cfg, c).Err? {
      var i :| 0 <= i < |db.transactions| && db.transactions[i].status == TransactionStatus.Pending
               && DispatchRow(db.addresses, db.transactions[i], cfg, c).Err?;
      var k :| 0 <= k < |pend| && pend[k] == i;
    }
  }

  /** A dispatch run commits exactly when every PENDING row dispatches and
      the commit accepts the dispatched rows. */
  lemma DispatchCommits(db: Store, cfg: Settings, c: ChainView)
    ensures var pend := GetTransactionsByStatus(db.transactions, TransactionStatus.Pending);
            var run := DispatchFrom(db.transactions, pend, db.addresses, cfg, c);
            && (run.Ok? <==>
                  forall i :: 0 <= i < |db.transactions| && db.transactions[i].status == TransactionStatus.Pending ==>
                    DispatchRow(db.addresses, db.transactions[i], cfg, c).Ok?)
            && (DispatchCycle(db, cfg, c) != db <==> run.Ok? && Storable(db.(transactions := run.value)))
  {
    var pend := GetTransactionsByStatus(db.transactions, TransactionStatus.Pending);
    DispatchFromOutcome(db.transactions, pend, db.addresses, cfg, c);
    PendingRowsDispatch(db, pend, cfg, c);
  }

  /** Every PENDING position is visited, so "every visited row dispatches"
      is "every PENDING row dispatches". */
  lemma PendingRowsDispatch(db: Store, pend: seq<nat>, cfg: Settings, c: ChainView)
    requires pend == GetTransactionsByStatus(db.transactions, TransactionStatus.Pending)
    ensures (forall k :: 0 <= k < |pend| ==> DispatchRow(db.addresses, db.transactions[pend[k]], cfg, c).Ok?) <==>
            (forall i :: 0 <= i < |db.transactions| && db.transactions[i].status == TransactionStatus.Pending ==>
               DispatchRow(db.addresses, db.transactions[i], cfg, c).Ok?)
  {
    if forall k :: 0 <= k < |pend| ==> DispatchRow(db.addresses, db.transactions[pend[k]], cfg, c).Ok? {
      forall i | 0 <= i < |db.transactions| && db.transactions[i].status == TransactionStatus.Pending
        ensures DispatchRow(db.addresses, db.transactions[i], cfg, c).Ok?
      {
        var k :| 0 <= k < |pend| && pend[k] == i;
      }
    }
  }

  /** A PENDING row whose sender has no Address row can never be dispatched,
      so every dispatch run aborts and no PENDING row ever leaves PENDING
      while it is there. */
  lemma UnmanagedSenderStallsDispatch(db: Store, cfg: Settings, c: ChainView, i: nat)
    requires i < |db.transactions| && db.transactions[i].status == TransactionStatus.Pending
    requires !CheckAddressExists(db.addresses, db.transactions[i].fromAddress)
    ensures DispatchCycle(db, cfg, c) == db
  {
    DispatchCycleOutcome(db, cfg, c);
  }

  /** Publishing rows that differ from a consistent store's only where a
      PENDING row became STARTED with a hash keeps the store consistent,
      provided the commit is accepted. */
  lemma StartedRowsConsistent(db: Store, ts: seq<Transaction>)
    requires Consistent(db) && |ts| == |db.transactions|
    requires forall i :: 0 <= i < |ts| ==>
               ts[i] == db.transactions[i] ||
               (&& db.transactions[i].status == TransactionStatus.Pending && ts[i].transactionHash.Some?
                && ts[i] == db.transactions[i].(transactionHash := ts[i].transactionHash, status := TransactionStatus.Started))
    ensures Storable(db.(transactions := ts)) ==> Consistent(Advance(db.(transactions := ts)))
    ensures Evolves(db.transactions, ts)
  {
    forall i | 0 <= i < |ts|
      ensures LifecycleShape(ts[i]) && RowEvolves(db.transactions[i], ts[i])
      ensures ts[i].status.Confirmed? ==> ts[i] == db.transactions[i]
    {
      assert LifecycleShape(db.transactions[i]);
    }
    assert RowsWellFormed(db.(transactions := ts));
  }

  /** A dispatch run that changes the store published staged rows the
      commit accepted. */
  lemma DispatchCommitted(db: Store, cfg: Settings, c: ChainView)
    ensures var r := DispatchCycle(db, cfg, c);
            r == db || (Storable(db.(transactions := r.transactions)) && r == Advance(db.(transactions := r.transactions)))
  {
  }

  /** A dispatch run that changes the store only turned PENDING rows into
      STARTED ones with a hash. */
  lemma DispatchedRowsStarted(db: Store, cfg: Settings, c: ChainView)
    requires DispatchCycle(db, cfg, c) != db
    ensures var ts := DispatchCycle(db, cfg, c).transactions;
            && |ts| == |db.transactions|
            && forall i :: 0 <= i < |ts| ==>
                 ts[i] == db.transactions[i] ||
                 (&& db.transactions[i].status == TransactionStatus.Pending && ts[i].transactionHash.Some?
                  && ts[i] == db.transactions[i].(transactionHash := ts[i].transactionHash, status := TransactionStatus.Started))
  {
    DispatchCycleOutcome(db, cfg, c);
  }

  /** A dispatch run keeps a consistent store consistent and only moves rows
      forward (PENDING to STARTED). */
  lemma DispatchCycleConsistent(db: Store, cfg: Settings, c: ChainView)
    requires Consistent(db)
    ensures Consistent(DispatchCycle(db, cfg, c))
    ensures Evolves(db.transactions, DispatchCycle(db, cfg, c).transactions)
  {
    DispatchCommitted(db, cfg, c);
    var r := DispatchCycle(db, cfg, c);
    if r != db {
      DispatchedRowsStarted(db, cfg, c);
      StartedRowsConsistent(db, r.transactions);
    }
  }

  /** The dispatch loop of `check_pending_transaction` on the staged rows. */
  method DispatchAll(ts: seq<Transaction>, pend: seq<nat>, addresses: seq<Address>, cfg: Settings, c: ChainView)
    returns (r: Result<seq<Transaction>>)
    requires forall k :: 0 <= k < |pend| ==> pend[k] < |ts|
    ensures r == DispatchFrom(ts, pend, addresses, cfg, c)
  {
    var work := ts;
    var k := 0;
    while k < |pend|
      invariant 0 <= k <= |pend|
      invariant |work| == |ts|
      invariant DispatchFrom(ts, pend, addresses, cfg, c) == DispatchFrom(work, pend[k..], addresses, cfg, c)
    {
      var i := pend[k];
      assert pend[k..][1..] == pend[k + 1..];
      DispatchFromStep(work, pend[k..], addresses, cfg, c);
      var dispatched := DispatchRow(addresses, work[i], cfg, c);
      if dispatched.Err? {
        return Err(dispatched.error);
      }
      work := work[i := dispatched.value];
      k := k + 1;
    }
    r := Ok(work);
  }

  /** `check_pending_transaction`: a raising iteration closes the session
      without a commit. */
  method CheckPendingTransaction(l: Ledger, cfg: Settings, c: ChainView)
    modifies l
    ensures l.Snapshot() == DispatchCycle(old(l.Snapshot()), cfg, c)
    ensures old(l.Valid()) ==> l.Valid()
  {
    var db := l.Snapshot();
    if Consistent(db) {
      DispatchCycleConsistent(db, cfg, c);
    }
    var pend := GetTransactionsByStatus(l.transactions, TransactionStatus.Pending);
    var dispatched := DispatchAll(l.transactions, pend, l.addresses, cfg, c);
    if dispatched.Ok? {
      var _ := l.Commit(db.(transactions := dispatched.value));
    }
  }

  // ======================================================================
  // Finalization: `check_transaction_finalization`
  // ======================================================================

  /** What the finalizer decides for a STARTED row: confirmed (with the
      receipt it then fetches), failed, or left for a later run. */
  datatype Verdict = Confirm(receipt: Receipt) | MarkFailed | Keep

  function Judge(t: Transaction, c: ChainView): (v: Verdict)
    ensures v.Confirm? <==> IsTransactionConfirmed(c, t.transactionHash)
    ensures v.Confirm? ==> t.transactionHash.Some? && GetTransactionReceipt(c, t.transactionHash) == Found(v.receipt)
    ensures v.MarkFailed? <==> !IsTransactionConfirmed(c, t.transactionHash) && IsTransactionFailed(c, t.transactionHash)
  {
    if IsTransactionConfirmed(c, t.transactionHash) then Confirm(GetTransactionReceipt(c, t.transactionHash).value)
    else if IsTransactionFailed(c, t.transactionHash) then MarkFailed
    else Keep
  }

  /** The reference for one STARTED row: CONFIRMED with the receipt's block
      when the node confirms it, otherwise FAILED when the node reports it
      failed, otherwise unchanged. */
  function Finalized(t: Transaction, c: ChainView): (r: Transaction)
    requires t.status == TransactionStatus.Started
    ensures RowEvolves(t, r) && r.transactionHash == t.transactionHash
    ensures IsTransactionConfirmed(c, t.transactionHash) ==>
              r == t.(status := TransactionStatus.Confirmed, blockNumber := Some(GetTransactionReceipt(c, t.transactionHash).value.blockNumber))
    ensures !IsTransactionConfirmed(c, t.transactionHash) && IsTransactionFailed(c, t.transactionHash) ==>
              r == t.(status := TransactionStatus.Failed)
    ensures !IsTransactionConfirmed(c, t.transactionHash) && !IsTransactionFailed(c, t.transactionHash) ==> r == t
  {
    match Judge(t, c)
    case Confirm(receipt) => t.(status := TransactionStatus.Confirmed, blockNumber := Some(receipt.blockNumber))
    case MarkFailed => t.(status := TransactionStatus.Failed)
    case Keep => t
  }

  /** The staged tables after confirming the row at `i`: CONFIRMED with the
      receipt's block, and its history row appended. */
  function ConfirmStaged(work: Store, i: nat, receipt: Receipt): Store
    requires i < |work.transactions| && work.transactions[i].transactionHash.Some?
  {
    var confirmed := work.transactions[i].(status := TransactionStatus.Confirmed, blockNumber := Some(receipt.blockNumber));
    work.(transactions := work.transactions[i := confirmed], history := work.history + [HistoryFromTx(confirmed, receipt).value])
  }

  /** The staged tables after marking the row at `i` FAILED. */
  function FailStaged(work: Store, i: nat): Store
    requires i < |work.transactions|
  {
    work.(transactions := work.transactions[i := work.transactions[i].(status := TransactionStatus.Failed)])
  }

  /** The finalizer loop over the STARTED positions `started`. `committed` is
      the store as last committed, `work` the session's staged tables. A
      confirmation commits the staged tables with its history row (the crud
      insert commits the whole session); a refused commit raises and ends the
      run with `committed`. A failure is only staged. The run ends with one
      more commit. */
  function FinalizeFrom(committed: Store, work: Store, started: seq<nat>, c: ChainView): (r: Store)
    requires forall k :: 0 <= k < |started| ==> started[k] < |work.transactions|
    ensures r == committed || (r.jobs == work.jobs && r.addresses == work.addresses)
    decreases |started|
  {
    if |started| == 0 then
      match CommitStore(work)
      case Ok(s) => s
      case Err(_) => committed
    else
      var i := started[0];
      match Judge(work.transactions[i], c)
      case Confirm(receipt) =>
        (match CommitStore(ConfirmStaged(work, i, receipt))
         case Err(_) => committed
         case Ok(s) => FinalizeFrom(s, s, started[1..], c))
      case MarkFailed => FinalizeFrom(committed, FailStaged(work, i), started[1..], c)
      case Keep => FinalizeFrom(committed, work, started[1..], c)
  }

  /** One finalization run over the STARTED rows in `created_at` order. */
  function FinalizeCycle(db: Store, c: ChainView): (r: Store)
    ensures r.jobs == db.jobs && r.addresses == db.addresses
  {
    FinalizeFrom(db, db, GetTransactionsByStatus(db.transactions, TransactionStatus.Started), c)
  }

  /** The rows at positions `pos`, in that order. */
  function Select(ts: seq<Transaction>, pos: seq<nat>): (r: seq<Transaction>)
    requires forall k :: 0 <= k < |pos| ==> pos[k] < |ts|
    ensures |r| == |pos| && forall k :: 0 <= k < |pos| ==> r[k] == ts[pos[k]]
  {
    seq(|pos|, k requires 0 <= k < |pos| => ts[pos[k]])
  }

  /** The history rows a run appends when no commit is refused: one per
      confirmed row, in loop order. */
  function ConfirmedHistory(rows: seq<Transaction>, c: ChainView): seq<TransactionHistory>
    requires forall k :: 0 <= k < |rows| ==> rows[k].status == TransactionStatus.Started
  {
    if |rows| == 0 then []
    else
      (match Judge(rows[0], c)
       case Confirm(receipt) => [HistoryFromTx(Finalized(rows[0], c), receipt).value]
       case _ => []) + ConfirmedHistory(rows[1..], c)
  }

  /** What holds between the store a run started from, the store as last
      committed, the staged tables and the positions still to visit. */
  predicate FinalizeInv(db: Store, committed: Store, work: Store, started: seq<nat>) {
    && Consistent(committed)
    && RowsWellFormed(work) && Storable(work) && Clocked(work, work.now) && work.now == committed.now
    && |work.transactions| == |db.transactions| && |committed.transactions| == |db.transactions|
    && (forall k :: 0 <= k < |started| ==> started[k] < |work.transactions| && work.transactions[started[k]].status == TransactionStatus.Started)
    && (forall k, l :: 0 <= k < l < |started| ==> started[k] < started[l])
    && Evolves(db.transactions, committed.transactions)
    && Evolves(db.transactions, work.transactions)
  }

  /** The receipt's numbers fit the 32-bit INTEGER columns a confirmation
      writes them to: the block number (on both rows), the gas used and the
      effective gas price (on the history row). */
  predicate ReceiptFits(receipt: Receipt) {
    IsInt32(receipt.blockNumber) && IsInt32(receipt.gasUsed) && IsInt32(receipt.effectiveGasPrice)
  }

  /** On tables a commit accepts, the confirm commit is refused exactly when
      the receipt's numbers do not fit their columns (with DataError) or the
      row's hash is already in the history table (with IntegrityError). */
  lemma ConfirmCommit(work: Store, i: nat, receipt: Receipt)
    requires Storable(work) && i < |work.transactions| && work.transactions[i].transactionHash.Some?
    ensures Storable(ConfirmStaged(work, i, receipt)) <==>
              ReceiptFits(receipt) && !Recorded(work.history, work.transactions[i].transactionHash.value)
    ensures CommitStore(ConfirmStaged(work, i, receipt)).Err? ==>
              CommitStore(ConfirmStaged(work, i, receipt)).error == (if ReceiptFits(receipt) then IntegrityError else DataError)
  {
    var full := ConfirmStaged(work, i, receipt);
    var staged := work.(transactions := full.transactions);
    var h := full.history[|work.history|];
    assert forall j :: 0 <= j < |work.transactions| && j != i ==> staged.transactions[j] == work.transactions[j];
    assert forall j :: 0 <= j < |work.transactions| ==> staged.transactions[j].transactionHash == work.transactions[j].transactionHash;
    assert Unique(staged);
    assert TransactionFits(work.transactions[i]);
    assert Fits(staged) <==> IsInt32(receipt.blockNumber);
    assert HistoryFits(h) <==> IsInt32(receipt.blockNumber) && IsInt32(receipt.gasUsed) && IsInt32(receipt.effectiveGasPrice);
    UniqueAfterHistoryAppend(staged, h);
    FitsAfterHistoryAppend(staged, h);
    assert full == staged.(history := staged.history + [h]);
  }

  /** Confirming a STARTED row keeps the staged tables well formed. */
  lemma ConfirmStep(work: Store, i: nat, receipt: Receipt)
    requires RowsWellFormed(work) && i < |work.transactions|
    requires work.transactions[i].status == TransactionStatus.Started
    ensures work.transactions[i].transactionHash.Some?
    ensures var full := ConfirmStaged(work, i, receipt);
            && RowsWellFormed(full) && Evolves(work.transactions, full.transactions)
            && (forall j :: 0 <= j < |work.transactions| ==> full.transactions[j].createdAt == work.transactions[j].createdAt)
            && (forall j :: 0 <= j < |work.transactions| && j != i ==> full.transactions[j] == work.transactions[j])
  {
    var t := work.transactions[i];
    assert LifecycleShape(t);
    var full := ConfirmStaged(work, i, receipt);
    assert full.history[|work.history|].transactionHash == t.transactionHash.value;
    forall j | 0 <= j < |full.transactions| && full.transactions[j].status.Confirmed?
      ensures Recorded(full.history, full.transactions[j].transactionHash.value)
    {
      if j != i {
        var k :| 0 <= k < |work.history| && work.history[k].transactionHash == work.transactions[j].transactionHash.value;
        assert full.history[k] == work.history[k];
      }
    }
    assert forall k :: 0 <= k < |work.history| ==> full.history[k] == work.history[k];
  }

  /** Marking a STARTED row FAILED keeps the staged tables well formed. */
  lemma FailStep(work: Store, i: nat)
    requires RowsWellFormed(work) && Storable(work) && i < |work.transactions|
    requires work.transactions[i].status == TransactionStatus.Started
    ensures var w := FailStaged(work, i);
            && RowsWellFormed(w) && Storable(w) && Evolves(work.transactions, w.transactions)
            && (forall j :: 0 <= j < |work.transactions| ==> w.transactions[j].createdAt == work.transactions[j].createdAt)
  {
    var w := FailStaged(work, i);
    assert LifecycleShape(work.transactions[i]);
    assert forall j :: 0 <= j < |w.transactions| ==> w.transactions[j].transactionHash == work.transactions[j].transactionHash;
    assert forall j :: 0 <= j < |w.transactions| ==> TransactionFits(w.transactions[j]);
  }

  /** An accepted confirm commit keeps the finalizer's invariant. */
  lemma ConfirmInv(db: Store, committed: Store, work: Store, started: seq<nat>, receipt: Receipt)
    requires FinalizeInv(db, committed, work, started) && 0 < |started|
    requires Storable(ConfirmStaged(work, started[0], receipt))
    ensures var s := Advance(ConfirmStaged(work, started[0], receipt));
            FinalizeInv(db, s, s, started[1..])
  {
    var i := started[0];
    var rest := started[1..];
    assert forall k :: 0 <= k < |rest| ==> rest[k] == started[k + 1] && i < rest[k];
    var full := ConfirmStaged(work, i, receipt);
    ConfirmStep(work, i, receipt);
    CommitConsistent(full);
    EvolvesTransitive(db.transactions, work.transactions, Advance(full).transactions);
  }

  /** Staging a FAILED status keeps the finalizer's invariant. */
  lemma FailInv(db: Store, committed: Store, work: Store, started: seq<nat>)
    requires FinalizeInv(db, committed, work, started) && 0 < |started|
    ensures FinalizeInv(db, committed, FailStaged(work, started[0]), started[1..])
  {
    var i := started[0];
    var rest := started[1..];
    assert forall k :: 0 <= k < |rest| ==> rest[k] == started[k + 1] && i < rest[k];
    var w := FailStaged(work, i);
    FailStep(work, i);
    EvolvesTransitive(db.transactions, work.transactions, w.transactions);
  }

  /** Passing over a row keeps the finalizer's invariant. */
  lemma KeepInv(db: Store, committed: Store, work: Store, started: seq<nat>)
    requires FinalizeInv(db, committed, work, started) && 0 < |started|
    ensures FinalizeInv(db, committed, work, started[1..])
  {
    var rest := started[1..];
    assert forall k :: 0 <= k < |rest| ==> rest[k] == started[k + 1];
  }

  /** The finalizer loop keeps the invariant to its end. */
  lemma {:induction false} FinalizeFromConsistent(db: Store, committed: Store, work: Store, started: seq<nat>, c: ChainView)
    requires FinalizeInv(db, committed, work, started)
    ensures Consistent(FinalizeFrom(committed, work, started, c))
    ensures Evolves(db.transactions, FinalizeFrom(committed, work, started, c).transactions)
    decreases |started|
  {
    if |started| == 0 {
      CommitConsistent(work);
    } else {
      var i := started[0];
      match Judge(work.transactions[i], c)
      case Confirm(receipt) =>
        var full := ConfirmStaged(work, i, receipt);
        if Storable(full) {
          ConfirmInv(db, committed, work, started, receipt);
          FinalizeFromConsistent(db, Advance(full), Advance(full), started[1..], c);
        }
      case MarkFailed =>
        FailInv(db, committed, work, started);
        FinalizeFromConsistent(db, committed, FailStaged(work, i), started[1..], c);
      case Keep =>
        KeepInv(db, committed, work, started);
        FinalizeFromConsistent(db, committed, work, started[1..], c);
    }
  }

  /** A finalization run keeps a consistent store consistent and only moves
      rows forward: STARTED rows become CONFIRMED or FAILED or stay, all
      others stay as they are. */
  lemma FinalizeCycleConsistent(db: Store, c: ChainView)
    requires Consistent(db)
    ensures Consistent(FinalizeCycle(db, c))
    ensures Evolves(db.transactions, FinalizeCycle(db, c).transactions)
  {
    var started := GetTransactionsByStatus(db.transactions, TransactionStatus.Started);
    assert FinalizeInv(db, db, db, started);
    FinalizeFromConsistent(db, db, db, started, c);
  }

  /** The positions a finalizer run visits: STARTED rows, in increasing
      position. */
  predicate Visits(ts: seq<Transaction>, started: seq<nat>) {
    && (forall k :: 0 <= k < |started| ==> started[k] < |ts| && ts[started[k]].status == TransactionStatus.Started)
    && (forall k, l :: 0 <= k < l < |started| ==> started[k] < started[l])
  }

  /** The visited positions after the first still visit STARTED rows in
      increasing order, when only the first visited row changed. */
  lemma VisitsRest(ts: seq<Transaction>, ts': seq<Transaction>, started: seq<nat>)
    requires Visits(ts, started) && |started| > 0 && |ts'| == |ts|
    requires forall j :: 0 <= j < |ts| && j != started[0] ==> ts'[j] == ts[j]
    ensures Visits(ts', started[1..])
    ensures forall k :: 0 <= k < |started| - 1 ==> started[1..][k] == started[k + 1] && ts'[started[k + 1]] == ts[started[k + 1]]
  {
    IncreasingTail(started, |ts|);
    var rest := started[1..];
    assert forall k :: 0 <= k < |rest| ==> ts'[rest[k]] == ts[rest[k]];
  }

  /** Moving past the first visited position, when only that row changed. */
  lemma VisitsTail(ts: seq<Transaction>, ts': seq<Transaction>, started: seq<nat>)
    requires Visits(ts, started) && |started| > 0 && |ts'| == |ts|
    requires forall j :: 0 <= j < |ts| && j != started[0] ==> ts'[j] == ts[j]
    ensures Visits(ts', started[1..])
    ensures forall k :: 0 <= k < |started| - 1 ==> started[1..][k] == started[k + 1] && ts'[started[k + 1]] == ts[started[k + 1]]
    ensures Select(ts', started[1..]) == Select(ts, started)[1..]
    ensures forall j :: j in started <==> j == started[0] || j in started[1..]
  {
    VisitsRest(ts, ts', started);
    var rest := started[1..];
    var a, b := Select(ts', rest), Select(ts, started)[1..];
    assert |a| == |b| && forall k :: 0 <= k < |a| ==> a[k] == b[k];
    assert started == [started[0]] + rest;
  }

  /** The confirm commit of `t`, if the node confirms it, is accepted on
      tables with history `h`: the receipt's numbers fit their columns and
      the hash is not recorded yet. */
  predicate ConfirmAccepted(h: seq<TransactionHistory>, t: Transaction, c: ChainView) {
    Judge(t, c).Confirm? ==> ReceiptFits(Judge(t, c).receipt) && !Recorded(h, t.transactionHash.value)
  }

  /** No row the run would confirm has its confirm commit refused. */
  predicate NoRefusedConfirmation(work: Store, started: seq<nat>, c: ChainView)
    requires forall k :: 0 <= k < |started| ==> started[k] < |work.transactions|
  {
    forall k :: 0 <= k < |started| ==> ConfirmAccepted(work.history, work.transactions[started[k]], c)
  }

  /** What a run without a refused confirmation leaves: every visited row in
      its `Finalized` form, all other rows alone, one history row per
      confirmation in loop order, one commit per confirmation plus the last. */
  predicate FinalizedAs(r: Store, work: Store, started: seq<nat>, c: ChainView)
    requires Visits(work.transactions, started)
  {
    && |r.transactions| == |work.transactions|
    && (forall k :: 0 <= k < |started| ==> r.transactions[started[k]] == Finalized(work.transactions[started[k]], c))
    && (forall j :: 0 <= j < |work.transactions| && j !in started ==> r.transactions[j] == work.transactions[j])
    && r.history == work.history + ConfirmedHistory(Select(work.transactions, started), c)
    && r.jobs == work.jobs && r.addresses == work.addresses
    && r.now == work.now + 1 + |ConfirmedHistory(Select(work.transactions, started), c)|
  }

  /** A confirmation followed by the rest of the run is the whole run. */
  lemma ConfirmOutcomeStep(work: Store, started: seq<nat>, c: ChainView, receipt: Receipt, r: Store)
    requires Visits(work.transactions, started) && |started| > 0
    requires Judge(work.transactions[started[0]], c) == Confirm(receipt)
    requires VisitsAfterConfirm(work, started, receipt)
    requires FinalizedAs(r, Advance(ConfirmStaged(work, started[0], receipt)), started[1..], c)
    ensures FinalizedAs(r, work, started, c)
  {
    var i := started[0];
    var s := Advance(ConfirmStaged(work, i, receipt));
    VisitsTail(work.transactions, s.transactions, started);
    var rows := Select(work.transactions, started);
    var h := HistoryFromTx(Finalized(work.transactions[i], c), receipt).value;
    assert rows[0] == work.transactions[i] && rows[1..] == Select(s.transactions, started[1..]);
    assert ConfirmedHistory(rows, c) == [h] + ConfirmedHistory(rows[1..], c);
    assert s.history == work.history + [h];
    assert i !in started[1..];
    assert r.transactions[i] == s.transactions[i] == Finalized(work.transactions[i], c);
  }

  /** After a confirmation the remaining positions are still visits. */
  predicate VisitsAfterConfirm(work: Store, started: seq<nat>, receipt: Receipt)
    requires Visits(work.transactions, started) && |started| > 0
    requires work.transactions[started[0]].transactionHash.Some?
  {
    Visits(Advance(ConfirmStaged(work, started[0], receipt)).transactions, started[1..])
  }

  /** A failure or a pass followed by the rest of the run is the whole run. */
  lemma StageOutcomeStep(work: Store, w: Store, started: seq<nat>, c: ChainView, r: Store)
    requires Visits(work.transactions, started) && |started| > 0
    requires !Judge(work.transactions[started[0]], c).Confirm?
    requires w == if Judge(work.transactions[started[0]], c).MarkFailed? then FailStaged(work, started[0]) else work
    requires FinalizedAs(r, w, started[1..], c)
    ensures FinalizedAs(r, work, started, c)
  {
    var i := started[0];
    VisitsTail(work.transactions, w.transactions, started);
    assert i !in started[1..];
    assert r.transactions[i] == w.transactions[i] == Finalized(work.transactions[i], c);
  }

  /** The confirm commit does not get a later confirmation refused: the
      history row it adds carries this row's hash, which no other row has. */
  lemma NoRefusedAfterConfirm(work: Store, started: seq<nat>, c: ChainView, receipt: Receipt)
    requires RowsWellFormed(work) && Unique(work) && Visits(work.transactions, started) && |started| > 0
    requires Judge(work.transactions[started[0]], c) == Confirm(receipt)
    requires NoRefusedConfirmation(work, started, c)
    ensures VisitsAfterConfirm(work, started, receipt)
    ensures NoRefusedConfirmation(Advance(ConfirmStaged(work, started[0], receipt)), started[1..], c)
  {
    var i := started[0];
    var s := Advance(ConfirmStaged(work, i, receipt));
    VisitsTail(work.transactions, s.transactions, started);
    var rest := started[1..];
    forall k | 0 <= k < |rest|
      ensures ConfirmAccepted(s.history, s.transactions[rest[k]], c)
    {
      assert ConfirmAccepted(work.history, work.transactions[started[k + 1]], c);
      assert LifecycleShape(work.transactions[i]) && LifecycleShape(work.transactions[rest[k]]);
      assert s.history[|work.history|].transactionHash == work.transactions[i].transactionHash.value;
    }
  }

  /** The first visited confirmation of a run without a refused one is
      committed. */
  lemma AcceptedConfirmCommits(work: Store, started: seq<nat>, c: ChainView, receipt: Receipt)
    requires Storable(work) && Visits(work.transactions, started) && |started| > 0
    requires Judge(work.transactions[started[0]], c) == Confirm(receipt)
    requires NoRefusedConfirmation(work, started, c)
    ensures Storable(ConfirmStaged(work, started[0], receipt))
  {
    assert ConfirmAccepted(work.history, work.transactions[started[0]], c);
    ConfirmCommit(work, started[0], receipt);
  }

  /** Without a refused confirmation, the run is `FinalizedAs`. */
  lemma {:induction false} FinalizeFromOutcome(db: Store, committed: Store, work: Store, started: seq<nat>, c: ChainView)
    requires FinalizeInv(db, committed, work, started) && NoRefusedConfirmation(work, started, c)
    ensures Visits(work.transactions, started)
    ensures FinalizedAs(FinalizeFrom(committed, work, started, c), work, started, c)
    decreases |started|
  {
    assert Visits(work.transactions, started);
    if |started| == 0 {
    } else {
      var i := started[0];
      match Judge(work.transactions[i], c)
      case Confirm(receipt) =>
        AcceptedConfirmCommits(work, started, c, receipt);
        NoRefusedAfterConfirm(work, started, c, receipt);
        ConfirmInv(db, committed, work, started, receipt);
        var s := Advance(ConfirmStaged(work, i, receipt));
        FinalizeFromOutcome(db, s, s, started[1..], c);
        ConfirmOutcomeStep(work, started, c, receipt, FinalizeFrom(s, s, started[1..], c));
      case MarkFailed =>
        var w := FailStaged(work, i);
        FailInv(db, committed, work, started);
        FinalizeFromOutcome(db, committed, w, started[1..], c);
        StageOutcomeStep(work, w, started, c, FinalizeFrom(committed, w, started[1..], c));
      case Keep =>
        KeepInv(db, committed, work, started);
        FinalizeFromOutcome(db, committed, work, started[1..], c);
        StageOutcomeStep(work, work, started, c, FinalizeFrom(committed, work, started[1..], c));
    }
  }

  /** A finalization run over a store where no confirmed STARTED row has its
      confirm commit refused (its hash not yet in the history table, its
      receipt's numbers within their columns): each STARTED row becomes its
      `Finalized` form, every other row is unchanged, and the history gains
      one row per confirmation, in `created_at` order. */
  lemma FinalizeCycleOutcome(db: Store, c: ChainView)
    requires Consistent(db)
    requires forall i :: 0 <= i < |db.transactions| && db.transactions[i].status == TransactionStatus.Started ==>
               ConfirmAccepted(db.history, db.transactions[i], c)
    ensures var r := FinalizeCycle(db, c);
            var started := GetTransactionsByStatus(db.transactions, TransactionStatus.Started);
            && |r.transactions| == |db.transactions|
            && (forall i :: 0 <= i < |db.transactions| && db.transactions[i].status == TransactionStatus.Started ==>
                  r.transactions[i] == Finalized(db.transactions[i], c))
            && (forall i :: 0 <= i < |db.transactions| && db.transactions[i].status != TransactionStatus.Started ==>
                  r.transactions[i] == db.transactions[i])
            && r.history == db.history + ConfirmedHistory(Select(db.transactions, started), c)
            && r.jobs == db.jobs && r.addresses == db.addresses
  {
    var started := GetTransactionsByStatus(db.transactions, TransactionStatus.Started);
    assert FinalizeInv(db, db, db, started);
    assert NoRefusedConfirmation(db, started, c);
    FinalizeFromOutcome(db, db, db, started, c);
    forall i | 0 <= i < |db.transactions| && db.transactions[i].status == TransactionStatus.Started
      ensures FinalizeCycle(db, c).transactions[i] == Finalized(db.transactions[i], c)
    {
      var k :| 0 <= k < |started| && started[k] == i;
    }
  }

  /** What a run that reaches a refused confirmation at visit `k` leaves: that
      row and every later visited row as they were, and the history grown. */
  predicate StalledAs(r: Store, work: Store, started: seq<nat>, k: nat)
    requires forall j :: 0 <= j < |started| ==> started[j] < |work.transactions|
  {
    && |r.transactions| == |work.transactions|
    && (forall j :: k <= j < |started| ==> started[j] < |r.transactions| && r.transactions[started[j]] == work.transactions[started[j]])
    && work.history <= r.history
  }

  /** A confirm commit refused against a history stays refused against
      every history that extends it. */
  lemma RefusedGrows(h: seq<TransactionHistory>, h': seq<TransactionHistory>, t: Transaction, c: ChainView)
    requires h <= h' && !ConfirmAccepted(h, t, c)
    ensures !ConfirmAccepted(h', t, c)
  {
    if Recorded(h, t.transactionHash.value) {
      var q :| 0 <= q < |h| && h[q].transactionHash == t.transactionHash.value;
      assert h'[q] == h[q];
    }
  }

  /** One visit before the stalling one: the stall carries over to the
      staged tables `w` the visit leaves, and back. */
  lemma StallStep(work: Store, w: Store, started: seq<nat>, c: ChainView, k: nat, r: Store)
    requires Visits(work.transactions, started) && 0 < k < |started|
    requires |w.transactions| == |work.transactions| && work.history <= w.history
    requires forall j :: 0 <= j < |work.transactions| && j != started[0] ==> w.transactions[j] == work.transactions[j]
    requires !ConfirmAccepted(work.history, work.transactions[started[k]], c)
    ensures Visits(w.transactions, started[1..])
    ensures !ConfirmAccepted(w.history, w.transactions[started[1..][k - 1]], c)
    ensures StalledAs(r, w, started[1..], k - 1) ==> StalledAs(r, work, started, k)
  {
    VisitsTail(work.transactions, w.transactions, started);
    RefusedGrows(work.history, w.history, work.transactions[started[k]], c);
    if StalledAs(r, w, started[1..], k - 1) {
      assert forall j :: k <= j < |started| ==> started[j] == started[1..][j - 1];
    }
  }

  /** A confirmed row whose confirm commit is refused makes the run raise
      when the loop reaches it. */
  lemma {:induction false} FinalizeFromStalls(committed: Store, work: Store, started: seq<nat>, c: ChainView, k: nat)
    requires Visits(work.transactions, started) && Storable(work)
    requires |committed.transactions| == |work.transactions| && committed.history == work.history
    requires forall j :: 0 <= j < |started| ==> committed.transactions[started[j]] == work.transactions[started[j]]
    requires k < |started| && !ConfirmAccepted(work.history, work.transactions[started[k]], c)
    ensures StalledAs(FinalizeFrom(committed, work, started, c), work, started, k)
    decreases |started|, 1
  {
    var i := started[0];
    var rest := started[1..];
    match Judge(work.transactions[i], c)
    case Confirm(receipt) =>
      StallConfirm(committed, work, started, c, k, receipt);
    case MarkFailed =>
      var w := FailStaged(work, i);
      assert forall j :: 0 <= j < |w.transactions| ==> w.transactions[j].transactionHash == work.transactions[j].transactionHash;
      assert forall j :: 0 <= j < |w.transactions| ==> TransactionFits(w.transactions[j]);
      StallStep(work, w, started, c, k, FinalizeFrom(committed, w, rest, c));
      FinalizeFromStalls(committed, w, rest, c, k - 1);
    case Keep =>
      StallStep(work, work, started, c, k, FinalizeFrom(committed, work, rest, c));
      FinalizeFromStalls(committed, work, rest, c, k - 1);
  }

  /** The stall, when the first visited row is confirmed: either this commit
      raises (this is the stalling row, or another refused one), or the run
      goes on from the committed store. */
  lemma {:induction false} StallConfirm(committed: Store, work: Store, started: seq<nat>, c: ChainView, k: nat, receipt: Receipt)
    requires Visits(work.transactions, started) && Storable(work)
    requires |committed.transactions| == |work.transactions| && committed.history == work.history
    requires forall j :: 0 <= j < |started| ==> committed.transactions[started[j]] == work.transactions[started[j]]
    requires k < |started| && !ConfirmAccepted(work.history, work.transactions[started[k]], c)
    requires Judge(work.transactions[started[0]], c) == Confirm(receipt)
    ensures StalledAs(FinalizeFrom(committed, work, started, c), work, started, k)
    decreases |started|, 0
  {
    var i := started[0];
    var rest := started[1..];
    var full := ConfirmStaged(work, i, receipt);
    ConfirmCommit(work, i, receipt);
    if Storable(full) {
      var s := Advance(full);
      assert forall m :: 0 <= m < |work.history| ==> s.history[m] == work.history[m];
      StallStep(work, s, started, c, k, FinalizeFrom(s, s, rest, c));
      FinalizeFromStalls(s, s, rest, c, k - 1);
    }
  }

  /** A STARTED row that the node confirms but whose confirm commit is
      refused (its hash already in the history table, as for a funding
      transfer that was also validated as a deposit; or a receipt number
      beyond 2^31 - 1, as for an effective gas price above about 2.15 gwei)
      stays STARTED, with every later STARTED row, and its confirm commit
      stays refused: the same run repeats on every cycle. */
  lemma FinalizeCycleStalls(db: Store, c: ChainView, i: nat)
    requires Consistent(db) && i < |db.transactions|
    requires db.transactions[i].status == TransactionStatus.Started
    requires !ConfirmAccepted(db.history, db.transactions[i], c)
    ensures var r := FinalizeCycle(db, c);
            && Consistent(r) && |r.transactions| == |db.transactions|
            && (forall j :: i <= j < |db.transactions| && db.transactions[j].status == TransactionStatus.Started ==>
                  r.transactions[j] == db.transactions[j])
            && r.transactions[i].status == TransactionStatus.Started
            && !ConfirmAccepted(r.history, r.transactions[i], c)
  {
    var started := GetTransactionsByStatus(db.transactions, TransactionStatus.Started);
    assert Visits(db.transactions, started);
    var k :| 0 <= k < |started| && started[k] == i;
    FinalizeFromStalls(db, db, started, c, k);
    FinalizeCycleConsistent(db, c);
    var r := FinalizeCycle(db, c);
    forall j | i <= j < |db.transactions| && db.transactions[j].status == TransactionStatus.Started
      ensures r.transactions[j] == db.transactions[j]
    {
      var m :| 0 <= m < |started| && started[m] == j;
    }
    RefusedGrows(db.history, r.history, db.transactions[i], c);
  }

  /** `check_transaction_finalization`. */
  method CheckTransactionFinalization(l: Ledger, c: ChainView)
    modifies l
    ensures l.Snapshot() == FinalizeCycle(old(l.Snapshot()), c)
    ensures old(l.Valid()) ==> l.Valid()
  {
    ghost var db := l.Snapshot();
    if Consistent(db) {
      FinalizeCycleConsistent(db, c);
    }
    var started := GetTransactionsByStatus(l.transactions, TransactionStatus.Started);
    var work := l.Snapshot();
    var k := 0;
    while k < |started|
      invariant 0 <= k <= |started|
      invariant |work.transactions| == |db.transactions|
      invariant FinalizeCycle(db, c) == FinalizeFrom(l.Snapshot(), work, started[k..], c)
    {
      var i := started[k];
      assert started[k..][1..] == started[k + 1..];
      var t := work.transactions[i];
      ghost var before := work;
      if IsTransactionConfirmed(c, t.transactionHash) {
        var receipt := GetTransactionReceipt(c, t.transactionHash).value;
        assert Judge(t, c) == Confirm(receipt);
        var confirmed := t.(status := TransactionStatus.Confirmed, blockNumber := Some(receipt.blockNumber));
        work := work.(transactions := work.transactions[i := confirmed]);
        // the history insert commits the whole session, staged rows included
        var h := HistoryFromTx(confirmed, receipt);
        work := work.(history := work.history + [h.value]);
        assert work == ConfirmStaged(before, i, receipt);
        var committed := l.Commit(work);
        if committed.Fail? {
          return;
        }
        work := l.Snapshot();
      } else if IsTransactionFailed(c, t.transactionHash) {
        assert Judge(t, c) == MarkFailed;
        work := work.(transactions := work.transactions[i := t.(status := TransactionStatus.Failed)]);
        assert work == FailStaged(before, i);
      } else {
        assert Judge(t, c) == Keep;
      }
      k := k + 1;
    }
    var _ := l.Commit(work);
  }
}
