/** Amount arithmetic of the dispatcher, the scheduler and the history
    builders: Python's `int()` truncation, ether/wei scaling
    (`Web3.to_wei` / `Web3.from_wei` with unit 'ether'), token minor units
    (`amount * 10**decimals` and `raw / 10**decimals`) and the 1.2x gas
    buffer. Decimal values are modelled as `real`, exactly. */
module Units {

  function Pow10(n: nat): (r: nat)
    ensures 1 <= r
  {
    if n == 0 then 1 else 10 * Pow10(n - 1)
  }

  /** Wei in one ether. */
  const WeiPerEther: nat := 1_000_000_000_000_000_000

  /** The largest wei amount web3 converts (`MAX_WEI`, 2^256 - 1). */
  const MaxWei: nat := 0xFFFF_FFFF_FFFF_FFFF_FFFF_FFFF_FFFF_FFFF_FFFF_FFFF_FFFF_FFFF_FFFF_FFFF_FFFF_FFFF

  /** An unsigned 256-bit word, as the chain carries values. */
  type Uint256 = x: nat | x <= MaxWei

  /** Gas assumed for an ERC-20 transfer when the estimate comes back as 0. */
  const DefaultTokenGas: nat := 65000

  /** Python's `int(x)`: truncation toward zero. */
  function Trunc(x: real): (r: int)
    ensures 0.0 <= x ==> 0 <= r && r as real <= x < r as real + 1.0
    ensures x < 0.0 ==> r <= 0 && r as real - 1.0 < x <= r as real
  {
    if 0.0 <= x then x.Floor else -((-x).Floor)
  }

  /** `int(estimated_gas * 1.2)`, with 1.2 taken as the exact fraction 6/5. */
  function GasWithBuffer(estimate: nat): (r: nat)
    ensures estimate <= r
    ensures 5 * r <= 6 * estimate < 5 * r + 5
  {
    estimate * 6 / 5
  }

  /** The token path's defensive fallback: a zero estimate becomes 65000. */
  function TokenGasEstimate(estimate: nat): (r: nat)
    ensures 0 < r
    ensures estimate != 0 ==> r == estimate
    ensures estimate == 0 ==> r == DefaultTokenGas
  {
    if estimate == 0 then DefaultTokenGas else estimate
  }

  /** `Web3.to_wei(amount, 'ether')` raises ValueError unless the amount
      scaled by 10^18, before truncation, lies in [0, 2^256 - 1]. */
  predicate InWeiRange(amount: real) {
    0.0 <= amount * WeiPerEther as real <= MaxWei as real
  }

  /** `Web3.to_wei(amount, 'ether')` on an amount in range: the amount
      scaled by 10^18 and truncated to an integer. */
  function ToWei(amount: real): (r: int)
    ensures 0.0 <= amount ==> 0 <= r && r as real <= amount * WeiPerEther as real < r as real + 1.0
  {
    Trunc(amount * WeiPerEther as real)
  }

  /** `Web3.from_wei(wei, 'ether')`: the exact decimal quotient. */
  function FromWei(wei: int): (r: real)
    ensures r * WeiPerEther as real == wei as real
    ensures 0 <= wei ==> 0.0 <= r
  {
    wei as real / WeiPerEther as real
  }

  /** `int(amount * (10 ** decimals))`: a token amount in minor units. */
  function ToMinor(amount: real, decimals: nat): (r: int)
    ensures 0.0 <= amount ==> 0 <= r && r as real <= amount * Pow10(decimals) as real < r as real + 1.0
  {
    Trunc(amount * Pow10(decimals) as real)
  }

  /** `Decimal(raw) / Decimal(10 ** decimals)`: minor units back to a token
      amount, exactly. */
  function FromMinor(minor: int, decimals: nat): (r: real)
    ensures r * Pow10(decimals) as real == minor as real
    ensures 0 <= minor ==> 0.0 <= r
  {
    minor as real / Pow10(decimals) as real
  }

  /** Python's default Decimal context holds 28 significant digits. */
  const DecimalLimit: nat := 10_000_000_000_000_000_000_000_000_000

  /** `(Decimal(raw) / Decimal(10 ** decimals)).quantize(Decimal("1." + "0" * decimals))`
      in the default context: the quotient keeps `raw` as its coefficient,
      and quantizing it to `decimals` places needs all of `raw`'s digits, so
      it raises InvalidOperation exactly when `raw` has more than 28. */
  predicate QuantizeFits(minor: int) {
    -(DecimalLimit as int) < minor < DecimalLimit
  }

  /** An amount the token's precision can hold: scaling it gives an integer. */
  predicate Representable(amount: real, decimals: nat) {
    (amount * Pow10(decimals) as real).Floor as real == amount * Pow10(decimals) as real
  }

  /** Ether to wei and back: every wei value survives the round trip, so a
      transfer of `FromWei(cost)` ether moves exactly `cost` wei, and a
      value `from_wei` accepts is one `to_wei` accepts back. */
  lemma WeiRoundTrip(wei: nat)
    ensures ToWei(FromWei(wei)) == wei
    ensures wei <= MaxWei ==> InWeiRange(FromWei(wei))
  {
    var x := FromWei(wei) * WeiPerEther as real;
    assert x == wei as real;
  }

  /** Dividing out a positive scale factor preserves order and equality. */
  lemma Unscale(x: real, y: real, p: real)
    requires 0.0 < p
    ensures x * p <= y * p ==> x <= y
    ensures x * p == y * p ==> x == y
    ensures x * p < y * p ==> x < y
  {
  }

  /** Minor units and back: a raw token value survives the round trip. */
  lemma MinorRoundTrip(minor: nat, decimals: nat)
    ensures ToMinor(FromMinor(minor, decimals), decimals) == minor
    ensures Representable(FromMinor(minor, decimals), decimals)
  {
    var x := FromMinor(minor, decimals) * Pow10(decimals) as real;
    assert x == minor as real;
  }

  /** The arithmetic behind AmountRoundTrip, over plain reals: `m` is the
      truncation of `amount * p` and `back` is `m / p`. */
  lemma TruncatedQuotient(amount: real, p: real, m: real, back: real)
    requires 0.0 < p
    requires m <= amount * p < m + 1.0
    requires back * p == m
    ensures back <= amount
    ensures amount - back < 1.0 / p
    ensures m == amount * p <==> back == amount
  {
    Unscale(back, amount, p);
    assert (amount - back) * p == amount * p - back * p;
    assert (1.0 / p) * p == 1.0;
    Unscale(amount - back, 1.0 / p, p);
  }

  /** Token amount to minor units and back: never more than the amount, less
      than one minor unit below it, and exactly the amount when the token's
      precision can hold it. */
  lemma AmountRoundTrip(amount: real, decimals: nat)
    requires 0.0 <= amount
    ensures FromMinor(ToMinor(amount, decimals), decimals) <= amount
    ensures amount - FromMinor(ToMinor(amount, decimals), decimals) < 1.0 / Pow10(decimals) as real
    ensures Representable(amount, decimals) <==> FromMinor(ToMinor(amount, decimals), decimals) == amount
  {
    var p := Pow10(decimals) as real;
    var m := ToMinor(amount, decimals);
    var back := FromMinor(m, decimals);
    assert m as real <= amount * p < m as real + 1.0;
    assert back * p == m as real;
    TruncatedQuotient(amount, p, m as real, back);
    assert Representable(amount, decimals) <==> m as real == amount * p;
  }
}
