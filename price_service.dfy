/**
 * The transport-fee rule of the example shop
 * (Piping.Example/ExampleBusiness/PriceService.cs). Amounts are whole cents,
 * so the decimal fee 12.0 is 1200.
 */
module PriceService {
  import opened ShopDomain

  /** `ForeignCountryFee`, in cents. */
  const ForeignCountryFee: int := 1200

  /** `AddTransportPriceForForeignAddress`: the fee is charged exactly when the two countries differ. */
  function AddTransportPriceForForeignAddress(stockLocation: Address, customer: Address): (fee: int)
    ensures fee == ForeignCountryFee <==> stockLocation.country != customer.country
    ensures fee == 0 <==> stockLocation.country == customer.country
  {
    if stockLocation.country != customer.country then ForeignCountryFee else 0
  }

  /** The fee is the same whichever address is the stock's and whichever the customer's. */
  lemma FeeIsSymmetric(a: Address, b: Address)
    ensures AddTransportPriceForForeignAddress(a, b) == AddTransportPriceForForeignAddress(b, a)
  {
  }

  /** Only the two countries matter: streets, towns, zip codes and ids do not. */
  lemma FeeDependsOnlyOnCountries(a: Address, b: Address, a': Address, b': Address)
    requires a.country == a'.country && b.country == b'.country
    ensures AddTransportPriceForForeignAddress(a, b) == AddTransportPriceForForeignAddress(a', b')
  {
  }
}
