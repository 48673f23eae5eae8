/**
 * Records of the example shop (Piping.Example/ExampleBusiness): addresses,
 * products, stock locations, stocks and the number of items of a product
 * held at a stock location, with the example data the shop's database is
 * seeded with (DBContext.cs). Prices are whole cents.
 */
module ShopDomain {
  datatype Address = Address(id: int, street: string, town: string, zipCode: string, country: string)

  datatype Product = Product(id: int, name: string, price: int)

  datatype StockLocation = StockLocation(id: int, stockAddress: Address, name: string, distance: int)

  datatype Stock = Stock(id: int, locations: seq<StockLocation>, name: string)

  datatype ProductStockLocation = ProductStockLocation(id: int, amount: int, product: Product, location: StockLocation)

  const HondaCivic := Product(1, "Honda Civic", 2000000)
  const ToyotaAuris := Product(2, "Toyota Auris", 1800000)

  const LondonAddress := Address(3, "6 High street", "London", "CHG 8", "UK")
  const ReadingAddress := Address(4, "7 Penny Lane", "Reading", "HGF 67", "UK")

  const LongDistance := StockLocation(1, ReadingAddress, "Long Distance", 120)
  const MiddleDistance := StockLocation(2, LondonAddress, "Middle Distance", 10)

  const WebStock := Stock(1, [LongDistance, MiddleDistance], "Web Stock")

  /** The seeded product stock locations, in the order they are stored. */
  const SeededProductStockLocations: seq<ProductStockLocation> := [
    ProductStockLocation(1, 2, HondaCivic, LongDistance),
    ProductStockLocation(2, 0, HondaCivic, MiddleDistance),
    ProductStockLocation(3, 20, ToyotaAuris, LongDistance),
    ProductStockLocation(4, 122, ToyotaAuris, LongDistance)
  ]
}
