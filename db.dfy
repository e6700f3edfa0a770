/** Treasury bootstrap (`init_db`, backend/app/core/db.py): the main address,
    master-pool index 0, gets an Address row if it has none. Engine and
    table creation are not modelled. */
module Db {
  import opened Wrappers
  import opened Models
  import opened Keys
  import opened Crud

  /** The treasury row `init_db` adds. */
  function TreasuryAddress(derive: Deriver): (a: Address)
    ensures a.address == MainAddress(derive) && a.index == 0
    ensures AddressFits(a)
  {
    Address(MainAddress(derive), 0)
  }

  /** `init_db`'s effect on the store: nothing when the main address already
      has a row, otherwise the treasury row committed. */
  function Bootstrap(db: Store, derive: Deriver): (r: Store)
    ensures r == db || r == Advance(db.(addresses := db.addresses + [TreasuryAddress(derive)]))
    ensures CheckAddressExists(db.addresses, MainAddress(derive)) ==> r == db
  {
    if GetAddress(db.addresses, MainAddress(derive)).Some? then db
    else
      match CommitStore(db.(addresses := db.addresses + [TreasuryAddress(derive)]))
      case Ok(s) => s
      case Err(_) => db
  }

  /** With the main address absent, exactly one row is added, at index 0, and
      nothing else changes but the clock. */
  lemma BootstrapAddsTreasury(db: Store, derive: Deriver)
    requires Storable(db) && !CheckAddressExists(db.addresses, MainAddress(derive))
    ensures Bootstrap(db, derive).addresses == db.addresses + [TreasuryAddress(derive)]
    ensures Bootstrap(db, derive) == Advance(db.(addresses := db.addresses + [TreasuryAddress(derive)]))
  {
    var a := db.addresses + [TreasuryAddress(derive)];
    assert forall i :: 0 <= i < |db.addresses| ==> a[i] == db.addresses[i];
    assert Unique(db.(addresses := a));
    assert Fits(db.(addresses := a));
  }

  /** With the main address present, no row is added or changed. */
  lemma BootstrapKeepsPresent(db: Store, derive: Deriver)
    requires CheckAddressExists(db.addresses, MainAddress(derive))
    ensures Bootstrap(db, derive) == db
  {
  }

  /** After bootstrap the main address is managed, and its row is the
      treasury row or the one that was already there. */
  lemma BootstrapEstablishesTreasury(db: Store, derive: Deriver)
    requires Storable(db)
    ensures CheckAddressExists(Bootstrap(db, derive).addresses, MainAddress(derive))
    ensures !CheckAddressExists(db.addresses, MainAddress(derive)) ==>
              GetAddress(Bootstrap(db, derive).addresses, MainAddress(derive)) == Some(TreasuryAddress(derive))
  {
    if !CheckAddressExists(db.addresses, MainAddress(derive)) {
      BootstrapAddsTreasury(db, derive);
      var a := Bootstrap(db, derive).addresses;
      assert a[|db.addresses|] == TreasuryAddress(derive);
      var r := GetAddress(a, MainAddress(derive));
      var j :| 0 <= j < |a| && a[j] == r.value;
      assert j == |db.addresses|;
    }
  }

  /** Bootstrap is idempotent: a second run is a no-op. */
  lemma BootstrapIdempotent(db: Store, derive: Deriver)
    requires Storable(db)
    ensures Bootstrap(Bootstrap(db, derive), derive) == Bootstrap(db, derive)
  {
    BootstrapEstablishesTreasury(db, derive);
  }

  /** Bootstrap keeps a consistent store consistent. */
  lemma BootstrapConsistent(db: Store, derive: Deriver)
    requires Consistent(db)
    ensures Consistent(Bootstrap(db, derive))
  {
    if !CheckAddressExists(db.addresses, MainAddress(derive)) {
      BootstrapAddsTreasury(db, derive);
      var a := db.addresses + [TreasuryAddress(derive)];
      assert forall i :: 0 <= i < |db.addresses| ==> a[i] == db.addresses[i];
    }
  }

  /** `init_db`. */
  method InitDb(l: Ledger, derive: Deriver)
    modifies l
    ensures l.Snapshot() == Bootstrap(old(l.Snapshot()), derive)
    ensures old(l.Valid()) ==> l.Valid()
  {
    ghost var db := l.Snapshot();
    var mainAddress := MainAddress(derive);
    var address := GetAddress(l.addresses, mainAddress);
    if address.None? {
      var _ := l.Commit(l.Snapshot().(addresses := l.addresses + [Address(mainAddress, 0)]));
    }
    if Consistent(db) {
      BootstrapConsistent(db, derive);
    }
  }
}
