/** Creation of owners, properties (with their city and address), agencies
    and listings. */
module Add {
  import opened Db

  // ---------------------------------------------------------------------
  // City find-or-create, shared with the address edit
  // ---------------------------------------------------------------------

  /** The cities table after looking up `name`, and the id of the city with
      that name: an existing row when there is one, otherwise a new row. */
  ghost function CityFoundOrCreated(cities: map<int, City>, name: string): (r: (map<int, City>, int))
    ensures r.1 in r.0 && r.0[r.1].name == name
    ensures NameUsed(cities, name) ==> r.0 == cities
    ensures !NameUsed(cities, name) ==> r.1 !in cities && r.0 == cities[r.1 := City(name)]
    ensures CityNamesUnique(cities) ==> CityNamesUnique(r.0)
  {
    match CityNamed(cities, name)
    case Some(c) => (cities, c)
    case None => var c := NextId(cities.Keys); (cities[c := City(name)], c)
  }

  /** Looking the same name up a second time finds the row the first call
      found or made, and adds nothing: one city per name. */
  lemma FindOrCreateIdempotent(cities: map<int, City>, name: string)
    requires CityNamesUnique(cities)
    ensures CityFoundOrCreated(CityFoundOrCreated(cities, name).0, name) == CityFoundOrCreated(cities, name)
  {
    var (once, c) := CityFoundOrCreated(cities, name);
    assert NameUsed(once, name);
    var again := CityNamed(once, name);
    assert again == Some(c);
  }

  /** Finds the city called `name`, inserting it when there is none. */
  method FindOrCreateCity(s: Store, name: string) returns (cityId: int)
    requires s.Valid()
    modifies s
    ensures s.Valid()
    ensures (s.cities, cityId) == CityFoundOrCreated(old(s.cities), name)
    ensures s.Snapshot() == old(s.Snapshot()).(cities := s.cities)
  {
    if c :| c in s.cities && s.cities[c].name == name {
      cityId := c;
    } else {
      cityId := NewId(s.cities.Keys);
      s.cities := s.cities[cityId := City(name)];
    }
  }

  // ---------------------------------------------------------------------
  // Specification on table values
  // ---------------------------------------------------------------------

  /** The tables and the status after `add_owner`. The source does not check
      the phone number; the store's unique constraint refuses a repeat. */
  ghost function OwnerAdded(t: Tables, first: string, last: string, phone: string): (r: (Tables, Status))
    ensures r.1 == Done || r.1 == Rejected
    ensures r.1 == Done <==> !PhoneUsed(t.owners, phone)
    ensures r.1 == Rejected ==> r.0 == t
    ensures r.1 == Done ==> exists o :: o !in t.owners && r.0 == t.(owners := t.owners[o := Owner(first, last, phone)])
    ensures Consistent(t) ==> Consistent(r.0)
  {
    if PhoneUsed(t.owners, phone) then (t, Rejected)
    else
      var o := NextId(t.owners.Keys);
      var r := t.(owners := t.owners[o := Owner(first, last, phone)]);
      assert o !in t.owners && r == t.(owners := t.owners[o := Owner(first, last, phone)]);
      (r, Done)
  }

  /** The tables after the first two commits of `add_property`: the city
      found or created, then one new address in that city; and the new
      address's id. */
  ghost function AddressAdded(t: Tables, street: string, postal: string, cityName: string): (r: (Tables, int))
    ensures r.1 !in t.addresses
    ensures r.0 == t.(cities := CityFoundOrCreated(t.cities, cityName).0,
                      addresses := t.addresses[r.1 := Address(street, postal, CityFoundOrCreated(t.cities, cityName).1)])
    ensures Consistent(t) ==> Consistent(r.0)
  {
    var (cities, c) := CityFoundOrCreated(t.cities, cityName);
    var a := NextId(t.addresses.Keys);
    (t.(cities := cities, addresses := t.addresses[a := Address(street, postal, c)]), a)
  }

  /** The tables and the status after `add_property` for owner `o`. The
      city and the address are committed before the property is; a
      registry number already in use makes the store refuse only the
      property commit, so the city and the address stay. */
  ghost function PropertyAdded(t: Tables, o: int, street: string, postal: string, cityName: string,
                               area: real, registry: string): (r: (Tables, Status))
    ensures r.1 == Done || r.1 == Rejected
    ensures r.1 == Done <==> !RegistryUsed(t.properties, registry)
    ensures r.0.owners == t.owners && r.0.agencies == t.agencies && r.0.listings == t.listings
    ensures r.0.(properties := t.properties) == AddressAdded(t, street, postal, cityName).0
    ensures r.1 == Rejected ==> r.0.properties == t.properties
    ensures r.1 == Done ==> exists p :: (p !in t.properties &&
      r.0.properties == t.properties[p := Property(o, AddressAdded(t, street, postal, cityName).1, area, registry)])
    ensures Consistent(t) && o in t.owners ==> Consistent(r.0)
  {
    var (withAddress, a) := AddressAdded(t, street, postal, cityName);
    if RegistryUsed(t.properties, registry) then
      (withAddress, Rejected)
    else
      var p := NextId(t.properties.Keys);
      var r := withAddress.(properties := t.properties[p := Property(o, a, area, registry)]);
      assert p !in t.properties && r.properties == t.properties[p := Property(o, a, area, registry)];
      assert Consistent(t) && o in t.owners ==> Consistent(r) by {
        if Consistent(t) && o in t.owners {
          NewPropertyConsistent(withAddress, p, Property(o, a, area, registry));
        }
      }
      (r, Done)
  }

  /** Inserting a property with a fresh key, an existing owner, an address no
      other property uses and an unused registry number keeps the store
      consistent. */
  lemma NewPropertyConsistent(t: Tables, p: int, row: Property)
    requires Consistent(t)
    requires p !in t.properties && row.ownerId in t.owners && row.addressId in t.addresses
    requires forall q :: q in t.properties ==> t.properties[q].addressId != row.addressId
    requires !RegistryUsed(t.properties, row.registryNumber)
    ensures Consistent(t.(properties := t.properties[p := row]))
  {
  }

  /** The tables and the status after `add_agency`: a company code in use is
      refused by the source before anything is written. */
  ghost function AgencyAdded(t: Tables, name: string, code: string): (r: (Tables, Status))
    ensures r.1 == Done || r.1 == DuplicateCode
    ensures r.1 == DuplicateCode <==> CodeUsed(t.agencies, code)
    ensures r.1 == DuplicateCode ==> r.0 == t
    ensures r.1 == Done ==> exists a :: a !in t.agencies && r.0 == t.(agencies := t.agencies[a := Agency(name, code)])
    ensures Consistent(t) ==> Consistent(r.0)
  {
    if CodeUsed(t.agencies, code) then (t, DuplicateCode)
    else
      var a := NextId(t.agencies.Keys);
      var r := t.(agencies := t.agencies[a := Agency(name, code)]);
      assert a !in t.agencies && r == t.(agencies := t.agencies[a := Agency(name, code)]);
      (r, Done)
  }

  /** The tables and the status after `add_listing`, checks in the source's
      order: some property, that property, some agency, that agency, at
      least one price. */
  ghost function ListingAdded(t: Tables, propertyId: int, agencyId: int,
                              sale: Option<real>, rental: Option<real>): (r: (Tables, Status))
    ensures r.1 == Done <==>
      propertyId in t.properties && agencyId in t.agencies && (sale.Some? || rental.Some?)
    ensures r.1 == UnknownProperty <==> t.properties != map[] && propertyId !in t.properties
    ensures r.1 == UnknownAgency <==>
      propertyId in t.properties && t.agencies != map[] && agencyId !in t.agencies
    ensures r.1 == NoPrice <==>
      propertyId in t.properties && agencyId in t.agencies && sale.None? && rental.None?
    ensures r.1 == NoRows <==> t.properties == map[] || (propertyId in t.properties && t.agencies == map[])
    ensures r.1 in {Done, NoRows, UnknownProperty, UnknownAgency, NoPrice}
    ensures r.1 != Done ==> r.0 == t
    ensures r.1 == Done ==> exists l :: (l !in t.listings &&
      r.0 == t.(listings := t.listings[l := Listing(propertyId, agencyId, sale, rental)]))
    ensures Consistent(t) ==> Consistent(r.0)
  {
    if t.properties == map[] then (t, NoRows)
    else if propertyId !in t.properties then (t, UnknownProperty)
    else if t.agencies == map[] then (t, NoRows)
    else if agencyId !in t.agencies then (t, UnknownAgency)
    else if sale.None? && rental.None? then (t, NoPrice)
    else
      var l := NextId(t.listings.Keys);
      var r := t.(listings := t.listings[l := Listing(propertyId, agencyId, sale, rental)]);
      assert l !in t.listings && r == t.(listings := t.listings[l := Listing(propertyId, agencyId, sale, rental)]);
      (r, Done)
  }

  /** The first answer that names an existing owner: the prompt for an owner
      id repeats until it gets one. */
  function FirstKnownOwner(answers: seq<int>, owners: map<int, Owner>): (r: int)
    requires exists i :: 0 <= i < |answers| && answers[i] in owners
    ensures r in owners
    ensures exists i :: 0 <= i < |answers| && answers[i] == r && forall j :: 0 <= j < i ==> answers[j] !in owners
  {
    if answers[0] in owners then answers[0]
    else
      var r := FirstKnownOwner(answers[1..], owners);
      assert forall i :: 1 <= i < |answers| ==> answers[i] == answers[1..][i - 1];
      r
  }

  // ---------------------------------------------------------------------
  // The operations on the store
  // ---------------------------------------------------------------------

  /** Inserts an owner with the given names and phone number. Returns the
      new owner's id when the store accepts it. */
  method AddOwner(s: Store, first: string, last: string, phone: string) returns (st: Status, ownerId: int)
    requires s.Valid()
    modifies s
    ensures s.Valid()
    ensures (s.Snapshot(), st) == OwnerAdded(old(s.Snapshot()), first, last, phone)
    ensures st == Done ==> ownerId !in old(s.owners) && ownerId in s.owners
  {
    if o :| o in s.owners && s.owners[o].phoneNumber == phone {
      return Rejected, 0;
    }
    ownerId := NewId(s.owners.Keys);
    s.owners := s.owners[ownerId := Owner(first, last, phone)];
    st := Done;
  }

  /** Inserts a property for an owner. With no owner id given, an empty
      owners table ends the operation, and otherwise the owner is the first
      of the `answers` (the successive ids typed at the prompt) that names
      an existing owner. */
  method AddProperty(s: Store, ownerId: Option<int>, answers: seq<int>,
                     street: string, postal: string, cityName: string, area: real, registry: string)
    returns (st: Status)
    requires s.Valid()
    requires ownerId.Some? ==> ownerId.value in s.owners
    requires ownerId.None? && s.owners != map[] ==> exists i :: 0 <= i < |answers| && answers[i] in s.owners
    modifies s
    ensures s.Valid()
    ensures ownerId.None? && old(s.owners) == map[] ==> st == NoRows && s.Snapshot() == old(s.Snapshot())
    ensures ownerId.Some? ==>
      (s.Snapshot(), st) == PropertyAdded(old(s.Snapshot()), ownerId.value, street, postal, cityName, area, registry)
    ensures ownerId.None? && old(s.owners) != map[] ==>
      (s.Snapshot(), st) == PropertyAdded(old(s.Snapshot()), FirstKnownOwner(answers, old(s.owners)),
                                          street, postal, cityName, area, registry)
  {
    var o: int;
    if ownerId.Some? {
      o := ownerId.value;
    } else {
      if s.owners == map[] {
        return NoRows;
      }
      var i := 0;
      while answers[i] !in s.owners
        invariant 0 <= i < |answers|
        invariant exists k :: i <= k < |answers| && answers[k] in s.owners
        invariant forall j :: 0 <= j < i ==> answers[j] !in s.owners
        decreases |answers| - i
      {
        i := i + 1;
      }
      o := answers[i];
      ghost var chosen := FirstKnownOwner(answers, s.owners);
      assert o == chosen by {
        var k :| 0 <= k < |answers| && answers[k] == chosen && forall j :: 0 <= j < k ==> answers[j] !in s.owners;
        assert k == i;
      }
    }
    ghost var t := s.Snapshot();
    var cityId := FindOrCreateCity(s, cityName);
    var addressId := NewId(s.addresses.Keys);
    s.addresses := s.addresses[addressId := Address(street, postal, cityId)];
    if p :| p in s.properties && s.properties[p].registryNumber == registry {
      assert s.Valid();
      return Rejected;
    }
    var propertyId := NewId(s.properties.Keys);
    s.properties := s.properties[propertyId := Property(o, addressId, area, registry)];
    assert (s.Snapshot(), Done) == PropertyAdded(t, o, street, postal, cityName, area, registry);
    st := Done;
  }

  /** Inserts an agency unless its company code is already in use. */
  method AddAgency(s: Store, name: string, code: string) returns (st: Status)
    requires s.Valid()
    modifies s
    ensures s.Valid()
    ensures (s.Snapshot(), st) == AgencyAdded(old(s.Snapshot()), name, code)
  {
    if a :| a in s.agencies && s.agencies[a].companyCode == code {
      return DuplicateCode;
    }
    var agencyId := NewId(s.agencies.Keys);
    s.agencies := s.agencies[agencyId := Agency(name, code)];
    st := Done;
  }

  /** Inserts a listing after checking that its property and agency exist
      and that it has a price; a blank price arrives as None. */
  method AddListing(s: Store, propertyId: int, agencyId: int, sale: Option<real>, rental: Option<real>)
    returns (st: Status)
    requires s.Valid()
    modifies s
    ensures s.Valid()
    ensures (s.Snapshot(), st) == ListingAdded(old(s.Snapshot()), propertyId, agencyId, sale, rental)
  {
    if s.properties == map[] {
      return NoRows;
    }
    if propertyId !in s.properties {
      return UnknownProperty;
    }
    if s.agencies == map[] {
      return NoRows;
    }
    if agencyId !in s.agencies {
      return UnknownAgency;
    }
    if sale.None? && rental.None? {
      return NoPrice;
    }
    var listingId := NewId(s.listings.Keys);
    s.listings := s.listings[listingId := Listing(propertyId, agencyId, sale, rental)];
    st := Done;
  }
}
