/** The read-only views: the city search, the registry lookup, the advanced
    search with price bounds and the list of all properties. Each view is the
    result of its query as a map keyed by property id (one row per group). */
module Read {
  import opened Db
  import opened Aggregate

  // ---------------------------------------------------------------------
  // Joins
  // ---------------------------------------------------------------------

  /** The listings of property `p`. */
  function ListingsOf(t: Tables, p: int): (r: set<int>)
    ensures r <= t.listings.Keys
    ensures forall l :: l in r <==> l in t.listings && t.listings[l].propertyId == p
  {
    set l | l in t.listings && t.listings[l].propertyId == p
  }

  /** Property `p` joins with its address row. */
  predicate HasAddress(t: Tables, p: int) {
    p in t.properties && t.properties[p].addressId in t.addresses
  }

  function AddressOf(t: Tables, p: int): Address
    requires HasAddress(t, p)
  {
    t.addresses[t.properties[p].addressId]
  }

  /** Property `p` joins with its address row and that address's city row. */
  predicate HasCity(t: Tables, p: int) {
    HasAddress(t, p) && AddressOf(t, p).cityId in t.cities
  }

  function CityOf(t: Tables, p: int): City
    requires HasCity(t, p)
  {
    t.cities[AddressOf(t, p).cityId]
  }

  // ---------------------------------------------------------------------
  // Price per square metre
  // ---------------------------------------------------------------------

  /** The sale price per square metre, given only when the sale price is
      present and not zero and the area is positive; otherwise "N/A". */
  function PricePerSqm(sale: Option<real>, area: real): (r: Option<real>)
    ensures r.Some? <==> sale.Some? && sale.value != 0.0 && area > 0.0
    ensures r.Some? ==> r.value * area == sale.value
    ensures r.Some? ==> (r.value > 0.0 <==> sale.value > 0.0)
  {
    if sale.Some? && sale.value != 0.0 && area > 0.0 then Some(sale.value / area) else None
  }

  // ---------------------------------------------------------------------
  // Search by city
  // ---------------------------------------------------------------------

  /** A city-scoped view: the name matches no city, or the rows found. */
  datatype CityQuery<R> = UnknownCity | Rows(rows: map<int, R>)

  datatype CityRow = CityRow(
    registryNumber: string,
    areaSqm: real,
    streetAddress: string,
    postalCode: string,
    averageSale: Option<real>,
    averageRental: Option<real>,
    salePerSqm: Option<real>)

  /** Properties whose address lies in city `c` and that have at least one
      listing (both joins are inner joins). */
  predicate InCityListed(t: Tables, c: int, p: int) {
    HasAddress(t, p) && AddressOf(t, p).cityId == c && ListingsOf(t, p) != {}
  }

  /** The result of `search_properties_by_city(name)`. */
  ghost function SearchByCity(t: Tables, name: string): (r: CityQuery<CityRow>)
    ensures r.UnknownCity? <==> !NameUsed(t.cities, name)
    ensures r.Rows? ==> forall p :: p in r.rows <==> InCityListed(t, CityNamed(t.cities, name).value, p)
    ensures r.Rows? ==> forall p :: p in r.rows ==>
      && HasAddress(t, p)
      && r.rows[p].registryNumber == t.properties[p].registryNumber
      && r.rows[p].areaSqm == t.properties[p].areaSqm
      && r.rows[p].streetAddress == AddressOf(t, p).streetAddress
      && r.rows[p].postalCode == AddressOf(t, p).postalCode
    // the averages are taken over the property's own listings, and are null
    // exactly when none of them has that price
    ensures r.Rows? ==> forall p :: p in r.rows ==>
      && r.rows[p].averageSale == Avg(t.listings, ListingsOf(t, p), Sale)
      && r.rows[p].averageRental == Avg(t.listings, ListingsOf(t, p), Rental)
      && (r.rows[p].averageSale.Some? <==> AnyPrice(t.listings, ListingsOf(t, p), Sale))
      && (r.rows[p].averageRental.Some? <==> AnyPrice(t.listings, ListingsOf(t, p), Rental))
    ensures r.Rows? ==> forall p :: p in r.rows ==>
      r.rows[p].salePerSqm == PricePerSqm(r.rows[p].averageSale, r.rows[p].areaSqm)
  {
    match CityNamed(t.cities, name)
    case None => UnknownCity
    case Some(c) =>
      Rows(map p | p in t.properties && InCityListed(t, c, p) ::
        var prop := t.properties[p];
        var avgSale := Avg(t.listings, ListingsOf(t, p), Sale);
        CityRow(prop.registryNumber, prop.areaSqm, AddressOf(t, p).streetAddress, AddressOf(t, p).postalCode,
                avgSale, Avg(t.listings, ListingsOf(t, p), Rental), PricePerSqm(avgSale, prop.areaSqm)))
  }

  /** Each average the city search shows lies within the range of the
      listing prices it is taken over. */
  lemma CityAverageWithinListingPrices(t: Tables, name: string, p: int, c: Column, lo: real, hi: real)
    requires SearchByCity(t, name).Rows? && p in SearchByCity(t, name).rows
    requires forall l :: l in ListingsOf(t, p) && PriceIn(t.listings[l], c).Some? ==>
      lo <= PriceIn(t.listings[l], c).value <= hi
    ensures var row := SearchByCity(t, name).rows[p];
      var avg := if c == Sale then row.averageSale else row.averageRental;
      avg.Some? ==> lo <= avg.value <= hi
  {
    AvgWithin(t.listings, ListingsOf(t, p), c, lo, hi);
  }

  // ---------------------------------------------------------------------
  // Prices by registry number
  // ---------------------------------------------------------------------

  datatype AgencyPrice = AgencyPrice(
    agencyName: string,
    salePrice: Option<real>,
    rentalPrice: Option<real>,
    salePerSqm: Option<real>)

  datatype RegistryView =
    | NoSuchProperty
    | PropertyPrices(
        propertyId: int,
        registryNumber: string,
        streetAddress: string,
        city: string,
        areaSqm: real,
        prices: map<int, AgencyPrice>)  // keyed by listing id; empty: no listings

  /** A property with that registry number that joins with its address and city. */
  predicate RegistryMatch(t: Tables, registry: string, p: int) {
    HasCity(t, p) && t.properties[p].registryNumber == registry
  }

  /** The result of `view_prices_by_registry_number(registry)`. */
  ghost function PricesByRegistry(t: Tables, registry: string): (r: RegistryView)
    ensures r.NoSuchProperty? <==> !exists p :: RegistryMatch(t, registry, p)
    ensures r.PropertyPrices? ==>
      && RegistryMatch(t, registry, r.propertyId)
      && r.registryNumber == registry
      && r.areaSqm == t.properties[r.propertyId].areaSqm
      && r.streetAddress == AddressOf(t, r.propertyId).streetAddress
      && r.city == CityOf(t, r.propertyId).name
    // with unique registry numbers the property found is the only candidate
    ensures r.PropertyPrices? && RegistryNumbersUnique(t.properties) ==>
      forall p :: RegistryMatch(t, registry, p) ==> p == r.propertyId
    // the prices are exactly the property's listings whose agency exists
    ensures r.PropertyPrices? ==> forall l :: l in r.prices <==>
      l in ListingsOf(t, r.propertyId) && t.listings[l].agencyId in t.agencies
    ensures r.PropertyPrices? ==> forall l :: l in r.prices ==>
      && r.prices[l].agencyName == t.agencies[t.listings[l].agencyId].name
      && r.prices[l].salePrice == t.listings[l].salePrice
      && r.prices[l].rentalPrice == t.listings[l].rentalPrice
      && r.prices[l].salePerSqm == PricePerSqm(t.listings[l].salePrice, r.areaSqm)
  {
    if exists p :: RegistryMatch(t, registry, p) then
      var p :| RegistryMatch(t, registry, p);
      var prop := t.properties[p];
      PropertyPrices(p, prop.registryNumber, AddressOf(t, p).streetAddress, CityOf(t, p).name, prop.areaSqm,
        map l | l in ListingsOf(t, p) && t.listings[l].agencyId in t.agencies ::
          AgencyPrice(t.agencies[t.listings[l].agencyId].name, t.listings[l].salePrice,
                      t.listings[l].rentalPrice, PricePerSqm(t.listings[l].salePrice, prop.areaSqm)))
    else
      NoSuchProperty
  }

  /** In a consistent store every listing of the property found is shown, so
      an empty price list means the property has no listings at all. */
  lemma RegistryShowsAllListings(t: Tables, registry: string)
    requires Consistent(t)
    requires PricesByRegistry(t, registry).PropertyPrices?
    ensures PricesByRegistry(t, registry).prices.Keys == ListingsOf(t, PricesByRegistry(t, registry).propertyId)
  {
    var r := PricesByRegistry(t, registry);
    forall l | l in ListingsOf(t, r.propertyId)
      ensures l in r.prices
    {
      assert t.listings[l].agencyId in t.agencies;
    }
  }

  // ---------------------------------------------------------------------
  // Advanced search
  // ---------------------------------------------------------------------

  /** The four optional price bounds; None is a blank answer. */
  datatype Bounds = Bounds(minSale: Option<real>, maxSale: Option<real>, minRental: Option<real>, maxRental: Option<real>)

  const NoBounds := Bounds(None, None, None, None)

  /** An inclusive lower bound; a null price never meets a supplied bound. */
  predicate AtLeast(price: Option<real>, bound: Option<real>) {
    bound.None? || (price.Some? && price.value >= bound.value)
  }

  predicate AtMost(price: Option<real>, bound: Option<real>) {
    bound.None? || (price.Some? && price.value <= bound.value)
  }

  /** A listing passes the filter when every supplied bound holds. */
  predicate Admits(b: Bounds, l: Listing) {
    && AtLeast(l.salePrice, b.minSale)
    && AtMost(l.salePrice, b.maxSale)
    && AtLeast(l.rentalPrice, b.minRental)
    && AtMost(l.rentalPrice, b.maxRental)
  }

  /** The listings of `p` that pass the filter. */
  function Matching(t: Tables, p: int, b: Bounds): (r: set<int>)
    ensures r <= ListingsOf(t, p)
    ensures forall l :: l in r <==> l in ListingsOf(t, p) && Admits(b, t.listings[l])
  {
    set l | l in ListingsOf(t, p) && Admits(b, t.listings[l])
  }

  datatype SearchRow = SearchRow(
    registryNumber: string,
    areaSqm: real,
    streetAddress: string,
    city: string,
    cheapestSale: Option<real>,
    cheapestRental: Option<real>)

  /** The result of `advanced_search(name, bounds)`. */
  ghost function AdvancedSearch(t: Tables, name: string, b: Bounds): (r: CityQuery<SearchRow>)
    ensures r.UnknownCity? <==> !NameUsed(t.cities, name)
    ensures r.Rows? ==> forall p :: p in r.rows <==>
      HasCity(t, p) && AddressOf(t, p).cityId == CityNamed(t.cities, name).value && Matching(t, p, b) != {}
    ensures r.Rows? ==> forall p :: p in r.rows ==>
      && HasCity(t, p)
      && r.rows[p].registryNumber == t.properties[p].registryNumber
      && r.rows[p].city == name
      && r.rows[p].streetAddress == AddressOf(t, p).streetAddress
    // the minima are taken over the listings that pass the filter only
    ensures r.Rows? ==> forall p :: p in r.rows ==>
      && r.rows[p].cheapestSale == Min(t.listings, Matching(t, p, b), Sale)
      && r.rows[p].cheapestRental == Min(t.listings, Matching(t, p, b), Rental)
  {
    match CityNamed(t.cities, name)
    case None => UnknownCity
    case Some(c) =>
      Rows(map p | p in t.properties && HasCity(t, p) && AddressOf(t, p).cityId == c && Matching(t, p, b) != {} ::
        SearchRow(t.properties[p].registryNumber, t.properties[p].areaSqm, AddressOf(t, p).streetAddress,
                  CityOf(t, p).name, Min(t.listings, Matching(t, p, b), Sale),
                  Min(t.listings, Matching(t, p, b), Rental)))
  }

  /** The cheapest prices shown respect every supplied bound, and a supplied
      sale (rental) bound means every row has a cheapest sale (rental) price. */
  lemma CheapestWithinBounds(t: Tables, name: string, b: Bounds, p: int)
    requires AdvancedSearch(t, name, b).Rows? && p in AdvancedSearch(t, name, b).rows
    ensures var row := AdvancedSearch(t, name, b).rows[p];
      && AtLeast(row.cheapestSale, b.minSale) && AtMost(row.cheapestSale, b.maxSale)
      && AtLeast(row.cheapestRental, b.minRental) && AtMost(row.cheapestRental, b.maxRental)
  {
    var ls := Matching(t, p, b);
    var l :| l in ls;
    var sale := Min(t.listings, ls, Sale);
    var rental := Min(t.listings, ls, Rental);
    if b.minSale.Some? || b.maxSale.Some? {
      assert PriceIn(t.listings[l], Sale).Some?;
      var w :| w in ls && PriceIn(t.listings[w], Sale) == sale;
      assert Admits(b, t.listings[w]);
    }
    if b.minRental.Some? || b.maxRental.Some? {
      assert PriceIn(t.listings[l], Rental).Some?;
      var w :| w in ls && PriceIn(t.listings[w], Rental) == rental;
      assert Admits(b, t.listings[w]);
    }
  }

  /** Bounds only ever remove properties from the city search. */
  lemma AdvancedSearchNarrowsCitySearch(t: Tables, name: string, b: Bounds)
    requires NameUsed(t.cities, name)
    ensures AdvancedSearch(t, name, b).rows.Keys <= SearchByCity(t, name).rows.Keys
  {
    var advanced := AdvancedSearch(t, name, b).rows;
    var plain := SearchByCity(t, name).rows;
    forall p | p in advanced
      ensures p in plain
    {
      var l :| l in Matching(t, p, b);
      assert l in ListingsOf(t, p);
    }
  }

  /** Without bounds the advanced search finds the same properties as the
      city search. */
  lemma UnboundedSearchIsCitySearch(t: Tables, name: string)
    requires NameUsed(t.cities, name)
    ensures AdvancedSearch(t, name, NoBounds).rows.Keys == SearchByCity(t, name).rows.Keys
  {
    AdvancedSearchNarrowsCitySearch(t, name, NoBounds);
    var c := CityNamed(t.cities, name).value;
    var advanced := AdvancedSearch(t, name, NoBounds).rows;
    var plain := SearchByCity(t, name).rows;
    forall p | p in plain
      ensures p in advanced
    {
      assert InCityListed(t, c, p);
      assert HasCity(t, p);
      var l :| l in ListingsOf(t, p);
      assert Admits(NoBounds, t.listings[l]);
      assert l in Matching(t, p, NoBounds);
    }
  }

  // ---------------------------------------------------------------------
  // The advanced-search filter as the code builds it
  // ---------------------------------------------------------------------

  /** The Python value of one operand of the filter's `&` chain: the literal
      `True` for a blank bound, a SQL comparison for a supplied one. */
  datatype Operand = TrueLiteral | Comparison

  function OperandFor(bound: Option<real>): (r: Operand)
    ensures r == TrueLiteral <==> bound.None?
  {
    if bound.None? then TrueLiteral else Comparison
  }

  /** Python's `x & y` on these operands, None standing for the TypeError it
      raises. `True & True` is `True`; a comparison on the left builds a SQL
      conjunction whatever is on the right; `True & comparison` has no
      implementation, since bool's `&` declines a non-bool operand and a SQL
      comparison has no reflected `&`. */
  function AndOperands(x: Option<Operand>, y: Operand): Option<Operand> {
    match x
    case None => None
    case Some(TrueLiteral) => if y == TrueLiteral then Some(TrueLiteral) else None
    case Some(Comparison) => Some(Comparison)
  }

  /** The filter of `advanced_search`, its four operands combined left to
      right: None when building it raises. It raises exactly when the minimum
      sale price is blank and a later bound is given: 7 of the 16 patterns. */
  function FilterBuilt(b: Bounds): (r: Option<Operand>)
    ensures r.None? <==> b.minSale.None? && (b.maxSale.Some? || b.minRental.Some? || b.maxRental.Some?)
    ensures r == Some(TrueLiteral) <==> b == NoBounds
  {
    AndOperands(AndOperands(AndOperands(Some(OperandFor(b.minSale)), OperandFor(b.maxSale)),
                            OperandFor(b.minRental)), OperandFor(b.maxRental))
  }

  datatype SearchOutcome = FilterTypeError | Finished(result: CityQuery<SearchRow>)

  /** `advanced_search` as written: the city is looked up first; then the
      filter is built, and one that raises ends the call with an uncaught
      TypeError before any query runs. */
  ghost function AdvancedSearchAsWritten(t: Tables, name: string, b: Bounds): (r: SearchOutcome)
    ensures r == FilterTypeError <==> NameUsed(t.cities, name) && FilterBuilt(b).None?
    ensures r.Finished? ==> r.result == AdvancedSearch(t, name, b)
    ensures !NameUsed(t.cities, name) ==> r == Finished(UnknownCity)
  {
    if NameUsed(t.cities, name) && FilterBuilt(b).None? then FilterTypeError
    else Finished(AdvancedSearch(t, name, b))
  }

  /** A maximum sale price alone, in a known city: the intended search
      answers it, the code as written raises instead. */
  lemma MaxSaleAloneRaises(t: Tables, name: string, maxSale: real)
    requires NameUsed(t.cities, name)
    ensures AdvancedSearchAsWritten(t, name, Bounds(None, Some(maxSale), None, None)) == FilterTypeError
    ensures AdvancedSearch(t, name, Bounds(None, Some(maxSale), None, None)).Rows?
  {
  }

  // ---------------------------------------------------------------------
  // All properties
  // ---------------------------------------------------------------------

  datatype PropertyRow = PropertyRow(
    registryNumber: string,
    streetAddress: string,
    city: string,
    postalCode: string,
    areaSqm: real,
    cheapestSale: Option<real>,
    cheapestRental: Option<real>,
    salePerSqm: Option<real>)

  /** The result of `show_all_properties`: properties joined with address and
      city, outer-joined with their listings. */
  ghost function AllProperties(t: Tables): (r: map<int, PropertyRow>)
    ensures forall p :: p in r <==> HasCity(t, p)
    ensures forall p :: p in r ==>
      && HasCity(t, p)
      && r[p].registryNumber == t.properties[p].registryNumber
      && r[p].areaSqm == t.properties[p].areaSqm
      && r[p].city == CityOf(t, p).name
      && r[p].streetAddress == AddressOf(t, p).streetAddress
      && r[p].postalCode == AddressOf(t, p).postalCode
    ensures forall p :: p in r ==>
      && r[p].cheapestSale == Min(t.listings, ListingsOf(t, p), Sale)
      && r[p].cheapestRental == Min(t.listings, ListingsOf(t, p), Rental)
      && r[p].salePerSqm == PricePerSqm(r[p].cheapestSale, r[p].areaSqm)
    // a property without listings still has a row, with null prices
    ensures forall p :: p in r && ListingsOf(t, p) == {} ==>
      r[p].cheapestSale.None? && r[p].cheapestRental.None? && r[p].salePerSqm.None?
  {
    map p | p in t.properties && HasCity(t, p) ::
      var cheapestSale := Min(t.listings, ListingsOf(t, p), Sale);
      PropertyRow(t.properties[p].registryNumber, AddressOf(t, p).streetAddress, CityOf(t, p).name,
                  AddressOf(t, p).postalCode, t.properties[p].areaSqm, cheapestSale,
                  Min(t.listings, ListingsOf(t, p), Rental),
                  PricePerSqm(cheapestSale, t.properties[p].areaSqm))
  }

  /** In a consistent store every property appears in the list exactly once. */
  lemma EveryPropertyShown(t: Tables)
    requires Consistent(t)
    ensures AllProperties(t).Keys == t.properties.Keys
  {
    forall p | p in t.properties
      ensures HasCity(t, p)
    {
      assert t.properties[p].addressId in t.addresses;
    }
  }

  /** The outer join keeps what the inner joins drop: a property without
      listings is in the full list but in no search result. */
  lemma UnlistedPropertyOnlyInFullList(t: Tables, p: int, name: string, b: Bounds)
    requires Consistent(t)
    requires p in t.properties && ListingsOf(t, p) == {}
    ensures p in AllProperties(t)
    ensures AllProperties(t)[p].cheapestSale.None? && AllProperties(t)[p].cheapestRental.None?
    ensures SearchByCity(t, name).Rows? ==> p !in SearchByCity(t, name).rows
    ensures AdvancedSearch(t, name, b).Rows? ==> p !in AdvancedSearch(t, name, b).rows
  {
    EveryPropertyShown(t);
  }

  /** The cheapest price in the full list never exceeds the average the city
      search shows for the same property. */
  lemma CheapestNotAboveAverage(t: Tables, name: string, p: int)
    requires SearchByCity(t, name).Rows? && p in SearchByCity(t, name).rows
    requires HasCity(t, p)
    ensures p in AllProperties(t)
    ensures var avg := SearchByCity(t, name).rows[p].averageSale;
      avg.Some? ==> AllProperties(t)[p].cheapestSale.Some? && AllProperties(t)[p].cheapestSale.value <= avg.value
    ensures var avg := SearchByCity(t, name).rows[p].averageRental;
      avg.Some? ==> AllProperties(t)[p].cheapestRental.Some? && AllProperties(t)[p].cheapestRental.value <= avg.value
  {
    MinNotAboveAvg(t.listings, ListingsOf(t, p), Sale);
    MinNotAboveAvg(t.listings, ListingsOf(t, p), Rental);
  }
}
