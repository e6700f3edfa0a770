/** Address and key derivation (backend/app/utils.py). BIP-39/BIP-44
    derivation is not modelled: a `Deriver` stands for "the address at
    m/44'/60'/0'/0/index of the pool's mnemonic". What the model keeps is
    which pool and which index each caller chooses. */
module Keys {
  import opened Models

  /** USER_MNEMONIC (issued deposit addresses) or MAIN_USER_MNEMONIC (the
      treasury). */
  datatype Pool = UserPool | MasterPool

  /** A signing key, identified by the derivation path it comes from. */
  datatype Key = Key(pool: Pool, index: int)

  /** A checksummed address as `ToAddress` prints it: "0x" and 40 hex
      digits. */
  type EthAddress = s: string | |s| == 42 witness "0x0000000000000000000000000000000000000000"

  /** The public address at a derivation path. */
  type Deriver = (Pool, int) -> EthAddress

  /** The address a key controls. */
  function AddressOf(derive: Deriver, k: Key): string {
    derive(k.pool, k.index)
  }

  /** `get_random_eth_address`: a user-pool address at a randomly drawn index;
      the draw is the `index` argument. */
  function RandomEthAddress(derive: Deriver, index: Index): (a: Address)
    ensures a.index == index && 0 <= a.index <= MaxIndex
    ensures AddressFits(a)
    ensures a.address == AddressOf(derive, Key(UserPool, index))
  {
    Address(derive(UserPool, index), index)
  }

  /** `get_private_key_from_index`: the user-pool key at `index`. */
  function PrivateKeyFromIndex(index: int): (k: Key)
    ensures k.pool == UserPool && k.index == index
  {
    Key(UserPool, index)
  }

  /** `get_private_key_from_master`: the master-pool key at `index`. */
  function PrivateKeyFromMaster(index: int): (k: Key)
    ensures k.pool == MasterPool && k.index == index
  {
    Key(MasterPool, index)
  }

  /** `get_main_address`: the treasury is master-pool index 0. */
  function MainAddress(derive: Deriver): (a: string)
    ensures a == AddressOf(derive, PrivateKeyFromMaster(0)) && |a| == 42
  {
    derive(MasterPool, 0)
  }

  /** An issued address and the key `get_private_key_from_index` derives from
      its stored index control the same account, and the treasury key at
      index 0 controls the main address. */
  lemma KeysControlTheirAddresses(derive: Deriver, index: Index)
    ensures AddressOf(derive, PrivateKeyFromIndex(RandomEthAddress(derive, index).index)) == RandomEthAddress(derive, index).address
    ensures AddressOf(derive, PrivateKeyFromMaster(0)) == MainAddress(derive)
  {
  }
}
