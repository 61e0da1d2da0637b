/** The schema of the real-estate store: six record types, the tables that
    hold them, the constraints the store keeps, and the store itself. */
module Db {

  datatype Option<T> = None | Some(value: T)

  // ---------------------------------------------------------------------
  // Records. The primary key of each row is its key in its table's map.
  // ---------------------------------------------------------------------

  datatype Owner = Owner(firstName: string, lastName: string, phoneNumber: string)

  datatype City = City(name: string)

  datatype Address = Address(streetAddress: string, postalCode: string, cityId: int)

  datatype Property = Property(ownerId: int, addressId: int, areaSqm: real, registryNumber: string)

  datatype Agency = Agency(name: string, companyCode: string)

  /** Sale and rental prices are independent nullable columns. */
  datatype Listing = Listing(propertyId: int, agencyId: int, salePrice: Option<real>, rentalPrice: Option<real>)

  /** The six tables, each a map from primary key to row. */
  datatype Tables = Tables(
    owners: map<int, Owner>,
    cities: map<int, City>,
    addresses: map<int, Address>,
    properties: map<int, Property>,
    agencies: map<int, Agency>,
    listings: map<int, Listing>)

  /** What an operation reports back to its caller. */
  datatype Status =
    | Done             // the operation committed
    | NoRows           // the table to choose from is empty, nothing was asked
    | NotFound         // the chosen id names no row
    | UnknownProperty  // a listing names a property that does not exist
    | UnknownAgency    // a listing names an agency that does not exist
    | DuplicateCode    // an agency with that company code already exists
    | NoPrice          // a listing with neither a sale nor a rental price
    | Rejected         // the store refused the commit: a unique column would repeat

  // ---------------------------------------------------------------------
  // Unique columns
  // ---------------------------------------------------------------------

  predicate PhoneUsed(owners: map<int, Owner>, phone: string) {
    exists o :: o in owners && owners[o].phoneNumber == phone
  }

  predicate NameUsed(cities: map<int, City>, name: string) {
    exists c :: c in cities && cities[c].name == name
  }

  predicate RegistryUsed(properties: map<int, Property>, registry: string) {
    exists p :: p in properties && properties[p].registryNumber == registry
  }

  predicate CodeUsed(agencies: map<int, Agency>, code: string) {
    exists a :: a in agencies && agencies[a].companyCode == code
  }

  ghost predicate PhonesUnique(owners: map<int, Owner>) {
    forall a, b :: a in owners && b in owners && a != b ==> owners[a].phoneNumber != owners[b].phoneNumber
  }

  ghost predicate CityNamesUnique(cities: map<int, City>) {
    forall a, b :: a in cities && b in cities && a != b ==> cities[a].name != cities[b].name
  }

  ghost predicate RegistryNumbersUnique(properties: map<int, Property>) {
    forall a, b :: a in properties && b in properties && a != b ==>
      properties[a].registryNumber != properties[b].registryNumber
  }

  ghost predicate CompanyCodesUnique(agencies: map<int, Agency>) {
    forall a, b :: a in agencies && b in agencies && a != b ==> agencies[a].companyCode != agencies[b].companyCode
  }

  /** Each address belongs to at most one property: every address is created
      for one property and deleted with it. */
  ghost predicate AddressesExclusive(properties: map<int, Property>) {
    forall a, b :: a in properties && b in properties && a != b ==> properties[a].addressId != properties[b].addressId
  }

  // ---------------------------------------------------------------------
  // Foreign keys
  // ---------------------------------------------------------------------

  ghost predicate AddressKeysHold(t: Tables) {
    forall a :: a in t.addresses ==> t.addresses[a].cityId in t.cities
  }

  ghost predicate PropertyKeysHold(t: Tables) {
    forall p :: p in t.properties ==>
      t.properties[p].ownerId in t.owners && t.properties[p].addressId in t.addresses
  }

  ghost predicate ListingKeysHold(t: Tables) {
    forall l :: l in t.listings ==>
      t.listings[l].propertyId in t.properties && t.listings[l].agencyId in t.agencies
  }

  /** Everything the store keeps true between operations. */
  ghost predicate Consistent(t: Tables) {
    && PhonesUnique(t.owners)
    && CityNamesUnique(t.cities)
    && RegistryNumbersUnique(t.properties)
    && CompanyCodesUnique(t.agencies)
    && AddressesExclusive(t.properties)
    && AddressKeysHold(t)
    && PropertyKeysHold(t)
    && ListingKeysHold(t)
  }

  // ---------------------------------------------------------------------
  // Lookups and fresh keys
  // ---------------------------------------------------------------------

  ghost function Pick<T>(s: set<T>): (x: T)
    requires s != {}
    ensures x in s
  {
    var x :| x in s; x
  }

  /** The city row a lookup by name finds, if any. */
  ghost function CityNamed(cities: map<int, City>, name: string): (r: Option<int>)
    ensures r.Some? <==> NameUsed(cities, name)
    ensures r.Some? ==> r.value in cities && cities[r.value].name == name
    ensures r.Some? && CityNamesUnique(cities) ==>
      forall c :: c in cities && cities[c].name == name ==> c == r.value
  {
    if NameUsed(cities, name) then
      var c :| c in cities && cities[c].name == name; Some(c)
    else
      None
  }

  /** The key the store gives a new row: one more than the largest key in
      use, or 1 in an empty table. */
  ghost function NextId(ids: set<int>): (r: int)
    ensures r >= 1
    ensures forall i :: i in ids ==> i < r
    ensures r == 1 || r - 1 in ids
    decreases ids
  {
    if ids == {} then 1
    else
      var i := Pick(ids);
      var rest := NextId(ids - {i});
      assert forall j :: j in ids ==> j == i || j in ids - {i};
      if i < rest then rest else i + 1
  }

  /** Finds the key for a new row by scanning the keys in use. */
  method NewId(ids: set<int>) returns (r: int)
    ensures r == NextId(ids)
  {
    r := 1;
    var todo := ids;
    while todo != {}
      invariant todo <= ids
      invariant r >= 1
      invariant forall i :: i in ids - todo ==> i < r
      invariant r == 1 || r - 1 in ids
      decreases todo
    {
      ghost var some := Pick(todo);
      var i :| i in todo;
      if r <= i {
        r := i + 1;
      }
      assert ids - (todo - {i}) == (ids - todo) + {i};
      todo := todo - {i};
    }
    assert ids - todo == ids;
    var n := NextId(ids);
    assert n <= r by {
      if n != 1 { assert n - 1 in ids; }
    }
    assert r <= n by {
      if r != 1 { assert r - 1 in ids; }
    }
  }

  // ---------------------------------------------------------------------
  // The store: one session over the six tables
  // ---------------------------------------------------------------------

  class Store {
    var owners: map<int, Owner>
    var cities: map<int, City>
    var addresses: map<int, Address>
    var properties: map<int, Property>
    var agencies: map<int, Agency>
    var listings: map<int, Listing>

    /** The committed contents of the store. */
    function Snapshot(): Tables
      reads this
    {
      Tables(owners, cities, addresses, properties, agencies, listings)
    }

    ghost predicate Valid()
      reads this
    {
      Consistent(Snapshot())
    }

    /** A fresh, empty store. */
    constructor ()
      ensures Valid()
      ensures Snapshot() == Tables(map[], map[], map[], map[], map[], map[])
    {
      owners, cities, addresses := map[], map[], map[];
      properties, agencies, listings := map[], map[], map[];
    }
  }
}
