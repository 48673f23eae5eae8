/**
 * The stock-location selection of the example shop
 * (Piping.Example/ExampleBusiness/StockService.cs): join the stored product
 * stock locations with the stock's locations by name, keep those with items
 * left, order by the location's distance, largest first (a stable order),
 * and take the first, or null.
 */
module StockService {
  import opened Basics
  import opened ShopDomain

  /** One row of the join: a product stock location together with the stock location it matched. */
  datatype Match = Match(psl: ProductStockLocation, location: StockLocation)

  /** The join condition: same location name, and at least one item there. */
  predicate Joins(psl: ProductStockLocation, l: StockLocation)
  {
    psl.location.name == l.name && psl.amount > 0
  }

  /** The rows of the join for one product stock location, in the order of the stock's locations. */
  function MatchesOf(psl: ProductStockLocation, locations: seq<StockLocation>): seq<Match>
  {
    if |locations| == 0 then []
    else
      (if Joins(psl, locations[0]) then [Match(psl, locations[0])] else []) + MatchesOf(psl, locations[1..])
  }

  /** The whole join, outer loop over the product stock locations, inner loop over the stock's locations. */
  function Matches(psls: seq<ProductStockLocation>, locations: seq<StockLocation>): seq<Match>
  {
    if |psls| == 0 then []
    else MatchesOf(psls[0], locations) + Matches(psls[1..], locations)
  }

  /** The rows for one record are exactly its pairs with the locations it joins. */
  lemma {:induction false} MatchesOfIsJoin(psl: ProductStockLocation, locations: seq<StockLocation>)
    ensures forall m :: m in MatchesOf(psl, locations) ==> m.psl == psl && m.location in locations && Joins(m.psl, m.location)
    ensures forall l :: l in locations && Joins(psl, l) ==> Match(psl, l) in MatchesOf(psl, locations)
    decreases |locations|
  {
    if |locations| > 0 {
      MatchesOfIsJoin(psl, locations[1..]);
      forall l | l in locations && Joins(psl, l)
        ensures Match(psl, l) in MatchesOf(psl, locations)
      {
        if l != locations[0] {
          assert l in locations[1..];
        }
      }
    }
  }

  /** The join holds exactly the pairs of a stored record and a stock location that satisfy the join condition. */
  lemma {:induction false} MatchesIsJoin(psls: seq<ProductStockLocation>, locations: seq<StockLocation>)
    ensures forall m :: m in Matches(psls, locations) ==> m.psl in psls && m.location in locations && Joins(m.psl, m.location)
    ensures forall p, l :: p in psls && l in locations && Joins(p, l) ==> Match(p, l) in Matches(psls, locations)
    decreases |psls|
  {
    if |psls| > 0 {
      MatchesOfIsJoin(psls[0], locations);
      MatchesIsJoin(psls[1..], locations);
      forall p, l | p in psls && l in locations && Joins(p, l)
        ensures Match(p, l) in Matches(psls, locations)
      {
        if p != psls[0] {
          assert p in psls[1..];
        }
      }
    }
  }

  /**
   * The head of the rows ordered by distance, largest first: the first row
   * whose distance is the largest.
   */
  function Farthest(ms: seq<Match>): (i: nat)
    requires |ms| > 0
    ensures i < |ms|
    ensures forall k :: 0 <= k < |ms| ==> ms[k].location.distance <= ms[i].location.distance
    ensures forall k :: 0 <= k < i ==> ms[k].location.distance < ms[i].location.distance
  {
    if |ms| == 1 then 0
    else
      var j := Farthest(ms[..|ms| - 1]);
      if ms[|ms| - 1].location.distance > ms[j].location.distance then |ms| - 1 else j
  }

  /** `FirstOrDefault` of the ordered join. */
  function FirstOfJoin(psls: seq<ProductStockLocation>, locations: seq<StockLocation>): (r: Nullable<ProductStockLocation>)
    ensures r.NonNull? ==> r.value in psls && r.value.amount > 0
  {
    MatchesIsJoin(psls, locations);
    var ms := Matches(psls, locations);
    if |ms| == 0 then Null else NonNull(ms[Farthest(ms)].psl)
  }

  /** The head of the ordered join is null exactly when nothing joins. */
  lemma FirstOfJoinNullIffNoMatch(psls: seq<ProductStockLocation>, locations: seq<StockLocation>)
    ensures FirstOfJoin(psls, locations).Null? <==> forall p, l :: p in psls && l in locations ==> !Joins(p, l)
  {
    MatchesIsJoin(psls, locations);
    var ms := Matches(psls, locations);
    if |ms| > 0 {
      assert ms[0] in ms;
    }
  }

  /**
   * `GetNearestProductLocation` as written: `product` takes no part in the
   * query, and the stored product stock locations are read as a parameter.
   */
  function GetNearestProductLocation(product: Product, stock: Stock, stored: seq<ProductStockLocation>): (r: Nullable<ProductStockLocation>)
    ensures r.NonNull? ==> r.value in stored && r.value.amount > 0
  {
    FirstOfJoin(stored, stock.locations)
  }

  /** The result is null exactly when no stored record joins any of the stock's locations. */
  lemma NearestNullIffNoMatch(product: Product, stock: Stock, stored: seq<ProductStockLocation>)
    ensures GetNearestProductLocation(product, stock, stored).Null?
      <==> forall p, l :: p in stored && l in stock.locations ==> !Joins(p, l)
  {
    FirstOfJoinNullIffNoMatch(stored, stock.locations);
  }

  /**
   * A non-null result is the row of the join that the ordering puts first:
   * it lies at one of the stock's locations, no location it could have been
   * joined with is farther away, and among the rows that far away it is the
   * first in join order.
   */
  lemma NearestIsFarthestMatch(product: Product, stock: Stock, stored: seq<ProductStockLocation>)
    requires GetNearestProductLocation(product, stock, stored).NonNull?
    ensures var ms := Matches(stored, stock.locations);
      |ms| > 0
      && var i := Farthest(ms);
      ms[i].psl == GetNearestProductLocation(product, stock, stored).value
      && ms[i].location in stock.locations && ms[i].location.name == ms[i].psl.location.name
      && (forall p, l :: p in stored && l in stock.locations && Joins(p, l) ==> l.distance <= ms[i].location.distance)
      && (forall k :: 0 <= k < i ==> ms[k].location.distance < ms[i].location.distance)
  {
    MatchesIsJoin(stored, stock.locations);
    var ms := Matches(stored, stock.locations);
    var i := Farthest(ms);
    assert ms[i] in ms;
    forall p, l | p in stored && l in stock.locations && Joins(p, l)
      ensures l.distance <= ms[i].location.distance
    {
      var k :| 0 <= k < |ms| && ms[k] == Match(p, l);
    }
  }

  /** The query is meant to find a location of the given product: the join also requires the product to match. */
  function GetNearestLocationOfProduct(product: Product, stock: Stock, stored: seq<ProductStockLocation>): (r: Nullable<ProductStockLocation>)
    ensures r.NonNull? ==> r.value in stored && r.value.amount > 0 && r.value.product.id == product.id
  {
    FirstOfJoin(OfProduct(product, stored), stock.locations)
  }

  /**
   * The corrected query picks among the product's own records the same way:
   * the first of the rows at the farthest joined location.
   */
  lemma NearestOfProductIsFarthestMatch(product: Product, stock: Stock, stored: seq<ProductStockLocation>)
    requires GetNearestLocationOfProduct(product, stock, stored).NonNull?
    ensures var ms := Matches(OfProduct(product, stored), stock.locations);
      |ms| > 0
      && var i := Farthest(ms);
      ms[i].psl == GetNearestLocationOfProduct(product, stock, stored).value
      && ms[i].psl.product.id == product.id
      && ms[i].location in stock.locations && ms[i].location.name == ms[i].psl.location.name
      && (forall p, l :: p in stored && p.product.id == product.id && l in stock.locations && Joins(p, l) ==>
            l.distance <= ms[i].location.distance)
      && (forall k :: 0 <= k < i ==> ms[k].location.distance < ms[i].location.distance)
  {
    NearestIsFarthestMatch(product, stock, OfProduct(product, stored));
  }

  /** The corrected query is null exactly when no record of the product joins any of the stock's locations. */
  lemma OfProductNullIffNoMatch(product: Product, stock: Stock, stored: seq<ProductStockLocation>)
    ensures GetNearestLocationOfProduct(product, stock, stored).Null?
      <==> forall p, l :: p in stored && p.product.id == product.id && l in stock.locations ==> !Joins(p, l)
  {
    FirstOfJoinNullIffNoMatch(OfProduct(product, stored), stock.locations);
  }

  /** The stored records of one product, in stored order. */
  function OfProduct(product: Product, stored: seq<ProductStockLocation>): (r: seq<ProductStockLocation>)
    ensures forall p :: p in r <==> p in stored && p.product.id == product.id
  {
    if |stored| == 0 then []
    else (if stored[0].product.id == product.id then [stored[0]] else []) + OfProduct(product, stored[1..])
  }

  /** The join of the seeded records with the web stock's locations: every row is at "Long Distance". */
  lemma SeededJoin()
    ensures Matches(SeededProductStockLocations, WebStock.locations)
      == [Match(SeededProductStockLocations[0], LongDistance), Match(SeededProductStockLocations[2], LongDistance),
          Match(SeededProductStockLocations[3], LongDistance)]
  {
    var s := SeededProductStockLocations;
    var locs := WebStock.locations;
    assert Matches(s[3..], locs) == [Match(s[3], LongDistance)] by {
      assert s[3..][1..] == [];
      SeededRowsOf(s[3]);
    }
    assert Matches(s[2..], locs) == [Match(s[2], LongDistance), Match(s[3], LongDistance)] by {
      assert s[2..][1..] == s[3..];
      SeededRowsOf(s[2]);
    }
    assert Matches(s[1..], locs) == [Match(s[2], LongDistance), Match(s[3], LongDistance)] by {
      assert s[1..][1..] == s[2..];
      SeededRowsOf(s[1]);
    }
    SeededRowsOf(s[0]);
  }

  /** A record at "Long Distance" with items left joins the first web stock location only; one without items joins none. */
  lemma SeededRowsOf(p: ProductStockLocation)
    requires p in SeededProductStockLocations
    ensures MatchesOf(p, WebStock.locations) == if p.amount > 0 && p.location == LongDistance then [Match(p, LongDistance)] else []
  {
    var locs := WebStock.locations;
    assert locs[1..] == [MiddleDistance] && locs[1..][1..] == [];
    assert MatchesOf(p, locs[1..][1..]) == [];
  }

  /** The seeded Toyota Auris records, in stored order, and their join with the web stock. */
  lemma SeededToyotaJoin()
    ensures OfProduct(ToyotaAuris, SeededProductStockLocations) == [SeededProductStockLocations[2], SeededProductStockLocations[3]]
    ensures Matches([SeededProductStockLocations[2], SeededProductStockLocations[3]], WebStock.locations)
      == [Match(SeededProductStockLocations[2], LongDistance), Match(SeededProductStockLocations[3], LongDistance)]
  {
    var s := SeededProductStockLocations;
    assert OfProduct(ToyotaAuris, s[3..]) == [s[3]] by {
      assert s[3..][1..] == [];
    }
    assert OfProduct(ToyotaAuris, s[2..]) == [s[2], s[3]] by {
      assert s[2..][1..] == s[3..];
    }
    assert OfProduct(ToyotaAuris, s[1..]) == [s[2], s[3]] by {
      assert s[1..][1..] == s[2..];
    }
    assert Matches([s[3]], WebStock.locations) == [Match(s[3], LongDistance)] by {
      assert [s[3]][1..] == [];
      SeededRowsOf(s[3]);
    }
    assert Matches([s[2], s[3]], WebStock.locations) == [Match(s[2], LongDistance), Match(s[3], LongDistance)] by {
      assert [s[2], s[3]][1..] == [s[3]];
      SeededRowsOf(s[2]);
    }
  }

  /**
   * On the seeded data, asking for the web stock's Toyota Auris location
   * gives the Honda Civic record (id 1); the corrected query gives the
   * first Toyota Auris record (id 3).
   */
  lemma ToyotaQueryFindsHonda()
    ensures GetNearestProductLocation(ToyotaAuris, WebStock, SeededProductStockLocations) == NonNull(SeededProductStockLocations[0])
    ensures SeededProductStockLocations[0].product == HondaCivic
    ensures GetNearestLocationOfProduct(ToyotaAuris, WebStock, SeededProductStockLocations) == NonNull(SeededProductStockLocations[2])
  {
    var s := SeededProductStockLocations;
    SeededJoin();
    SeededToyotaJoin();
    var all := Matches(s, WebStock.locations);
    assert all[0].location.distance == all[Farthest(all)].location.distance;
    assert Farthest(all) == 0;
    var own := Matches([s[2], s[3]], WebStock.locations);
    assert own[0].location.distance == own[Farthest(own)].location.distance;
    assert Farthest(own) == 0;
  }
}
