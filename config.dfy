/** The static token registry of the settings object
    (backend/app/core/config.py): three ERC-20 tokens, each entry holding
    its symbol, its checksummed contract address and its precision. */
module Config {

  /** One registry entry. `address` is the checksummed form of the configured
      contract address; the contract object built from it is identified with
      that address. */
  datatype Token = Token(symbol: string, address: string, decimals: nat)

  /** The configured contract addresses, as the environment supplies them,
      and the checksum function `Web3.to_checksum_address`, which is not
      part of this model. */
  datatype Settings = Settings(
    usdcAddress: string,
    pyusdAddress: string,
    eurcAddress: string,
    checksum: string -> string)

  /** Precision every registered token is declared with. */
  const TokenDecimals: nat := 6

  /** `settings.token_by_symbol`. */
  function TokenBySymbol(s: Settings): (r: map<string, Token>)
    ensures r.Keys == {"USDC", "PYUSD", "EURC"}
    ensures forall k :: k in r ==> r[k].symbol == k && r[k].decimals == TokenDecimals
    ensures r["USDC"].address == s.checksum(s.usdcAddress)
    ensures r["PYUSD"].address == s.checksum(s.pyusdAddress)
    ensures r["EURC"].address == s.checksum(s.eurcAddress)
  {
    map[
      "USDC" := Token("USDC", s.checksum(s.usdcAddress), TokenDecimals),
      "PYUSD" := Token("PYUSD", s.checksum(s.pyusdAddress), TokenDecimals),
      "EURC" := Token("EURC", s.checksum(s.eurcAddress), TokenDecimals)]
  }

  /** `settings.token_by_contract_address`: keyed by the raw configured
      strings, not their checksummed form. A dict literal keeps the last entry
      for a repeated key, hence the successive updates. */
  function TokenByContractAddress(s: Settings): (r: map<string, Token>)
    ensures r.Keys == {s.usdcAddress, s.pyusdAddress, s.eurcAddress}
    ensures forall k :: k in r ==> r[k] in TokenBySymbol(s).Values
    ensures forall k :: k in r ==> r[k].address == s.checksum(k) && r[k].decimals == TokenDecimals
    ensures s.usdcAddress != s.pyusdAddress && s.usdcAddress != s.eurcAddress ==>
              r[s.usdcAddress] == TokenBySymbol(s)["USDC"]
    ensures s.pyusdAddress != s.eurcAddress ==> r[s.pyusdAddress] == TokenBySymbol(s)["PYUSD"]
    ensures r[s.eurcAddress] == TokenBySymbol(s)["EURC"]
  {
    var bySymbol := TokenBySymbol(s);
    map[s.usdcAddress := bySymbol["USDC"]][s.pyusdAddress := bySymbol["PYUSD"]][s.eurcAddress := bySymbol["EURC"]]
  }

  /** The native coin is routed by its own branch and never registered. */
  lemma NativeCoinNotRegistered(s: Settings)
    ensures "ETH" !in TokenBySymbol(s)
    ensures |TokenBySymbol(s)| == 3
  {
    assert "ETH" != "USDC" && "ETH" != "PYUSD" && "ETH" != "EURC";
    assert |{"USDC", "PYUSD", "EURC"}| == 3;
  }
}
