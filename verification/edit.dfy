/** Partial updates of one row: a blank input keeps the current value. */
module Edit {
  import opened Db
  import Add

  /** A typed text answer, or the current value when the answer is blank. */
  function OrCurrent(input: string, current: string): (r: string)
    ensures input != "" ==> r == input
    ensures input == "" ==> r == current
    ensures r == "" <==> input == "" && current == ""
  {
    if input == "" then current else input
  }

  /** The price an edit stores. A typed price replaces the current one. On a
      blank answer the current value is kept, passed through a truth test:
      a current price of 0 is falsy and is stored as null. */
  function EditedPrice(input: Option<real>, current: Option<real>): (r: Option<real>)
    ensures input.Some? ==> r == input
    ensures input.None? && current != Some(0.0) ==> r == current
    ensures input.None? && current == Some(0.0) ==> r == None
  {
    if input.Some? then input
    else if current.Some? && current.value != 0.0 then current
    else None
  }

  // ---------------------------------------------------------------------
  // Specification on table values
  // ---------------------------------------------------------------------

  /** The tables and the status after `edit_owner`. */
  ghost function OwnerEdited(t: Tables, id: int, first: string, last: string, phone: string): (r: (Tables, Status))
    ensures r.1 == NoRows <==> t.owners == map[]
    ensures r.1 == NotFound <==> t.owners != map[] && id !in t.owners
    ensures r.1 == Rejected <==> id in t.owners && PhoneUsed(t.owners - {id}, OrCurrent(phone, t.owners[id].phoneNumber))
    ensures r.1 in {NoRows, NotFound, Rejected, Done}
    ensures r.1 != Done ==> r.0 == t
    // only the selected owner row changes
    ensures r.1 == Done ==> id in r.0.owners && r.0 == t.(owners := t.owners[id := r.0.owners[id]])
    // a blank answer keeps a field, anything else replaces it
    ensures r.1 == Done && first == "" ==> r.0.owners[id].firstName == t.owners[id].firstName
    ensures r.1 == Done && first != "" ==> r.0.owners[id].firstName == first
    ensures r.1 == Done && last == "" ==> r.0.owners[id].lastName == t.owners[id].lastName
    ensures r.1 == Done && last != "" ==> r.0.owners[id].lastName == last
    ensures r.1 == Done && phone == "" ==> r.0.owners[id].phoneNumber == t.owners[id].phoneNumber
    ensures r.1 == Done && phone != "" ==> r.0.owners[id].phoneNumber == phone
    ensures Consistent(t) ==> Consistent(r.0)
  {
    if t.owners == map[] then (t, NoRows)
    else if id !in t.owners then (t, NotFound)
    else
      var current := t.owners[id];
      var row := Owner(OrCurrent(first, current.firstName), OrCurrent(last, current.lastName),
                       OrCurrent(phone, current.phoneNumber));
      if PhoneUsed(t.owners - {id}, row.phoneNumber) then (t, Rejected)
      else
        var m := t.owners[id := row];
        assert PhonesUnique(t.owners) ==> PhonesUnique(m) by {
          if PhonesUnique(t.owners) {
            forall a, b | a in m && b in m && a != b ensures m[a].phoneNumber != m[b].phoneNumber {
              if a == id { assert b in t.owners - {id}; }
              if b == id { assert a in t.owners - {id}; }
            }
          }
        }
        (t.(owners := m), Done)
  }

  /** The tables and the status after `edit_property`; a blank area arrives
      as None. The owner and the address of the property never change. */
  ghost function PropertyEdited(t: Tables, id: int, area: Option<real>, registry: string): (r: (Tables, Status))
    ensures r.1 == NoRows <==> t.properties == map[]
    ensures r.1 == NotFound <==> t.properties != map[] && id !in t.properties
    ensures r.1 == Rejected <==>
      id in t.properties && RegistryUsed(t.properties - {id}, OrCurrent(registry, t.properties[id].registryNumber))
    ensures r.1 in {NoRows, NotFound, Rejected, Done}
    ensures r.1 != Done ==> r.0 == t
    ensures r.1 == Done ==> id in r.0.properties && r.0 == t.(properties := t.properties[id := r.0.properties[id]])
    ensures r.1 == Done ==> r.0.properties[id].ownerId == t.properties[id].ownerId
    ensures r.1 == Done ==> r.0.properties[id].addressId == t.properties[id].addressId
    ensures r.1 == Done && area.None? ==> r.0.properties[id].areaSqm == t.properties[id].areaSqm
    ensures r.1 == Done && area.Some? ==> r.0.properties[id].areaSqm == area.value
    ensures r.1 == Done && registry == "" ==> r.0.properties[id].registryNumber == t.properties[id].registryNumber
    ensures r.1 == Done && registry != "" ==> r.0.properties[id].registryNumber == registry
    ensures Consistent(t) ==> Consistent(r.0)
  {
    if t.properties == map[] then (t, NoRows)
    else if id !in t.properties then (t, NotFound)
    else
      var current := t.properties[id];
      var newArea := if area.Some? then area.value else current.areaSqm;
      var row := current.(areaSqm := newArea, registryNumber := OrCurrent(registry, current.registryNumber));
      if RegistryUsed(t.properties - {id}, row.registryNumber) then (t, Rejected)
      else
        var m := t.properties[id := row];
        assert RegistryNumbersUnique(t.properties) ==> RegistryNumbersUnique(m) by {
          if RegistryNumbersUnique(t.properties) {
            forall a, b | a in m && b in m && a != b ensures m[a].registryNumber != m[b].registryNumber {
              if a == id { assert b in t.properties - {id}; }
              if b == id { assert a in t.properties - {id}; }
            }
          }
        }
        (t.(properties := m), Done)
  }

  /** The tables and the status after `edit_address`. A non-blank city name
      goes through find-or-create and the address then points at that city;
      a blank one leaves the address's city as it was. */
  ghost function AddressEdited(t: Tables, id: int, street: string, postal: string, cityName: string): (r: (Tables, Status))
    ensures r.1 == NoRows <==> t.addresses == map[]
    ensures r.1 == NotFound <==> t.addresses != map[] && id !in t.addresses
    ensures r.1 in {NoRows, NotFound, Done}
    ensures r.1 != Done ==> r.0 == t
    ensures r.1 == Done ==>
      id in r.0.addresses && r.0 == t.(cities := r.0.cities, addresses := t.addresses[id := r.0.addresses[id]])
    ensures r.1 == Done && street == "" ==> r.0.addresses[id].streetAddress == t.addresses[id].streetAddress
    ensures r.1 == Done && street != "" ==> r.0.addresses[id].streetAddress == street
    ensures r.1 == Done && postal == "" ==> r.0.addresses[id].postalCode == t.addresses[id].postalCode
    ensures r.1 == Done && postal != "" ==> r.0.addresses[id].postalCode == postal
    ensures r.1 == Done && cityName == "" ==>
      r.0.cities == t.cities && r.0.addresses[id].cityId == t.addresses[id].cityId
    ensures r.1 == Done && cityName != "" ==>
      (r.0.cities, r.0.addresses[id].cityId) == Add.CityFoundOrCreated(t.cities, cityName)
    ensures r.1 == Done && cityName != "" ==>
      r.0.addresses[id].cityId in r.0.cities && r.0.cities[r.0.addresses[id].cityId].name == cityName
    ensures Consistent(t) ==> Consistent(r.0)
  {
    if t.addresses == map[] then (t, NoRows)
    else if id !in t.addresses then (t, NotFound)
    else
      var current := t.addresses[id];
      var (cities, cityId) :=
        if cityName != "" then Add.CityFoundOrCreated(t.cities, cityName) else (t.cities, current.cityId);
      var row := Address(OrCurrent(street, current.streetAddress), OrCurrent(postal, current.postalCode), cityId);
      (t.(cities := cities, addresses := t.addresses[id := row]), Done)
  }

  /** The tables and the status after `edit_listing`; blank prices arrive as
      None. Unlike creation, the edit does not ask for at least one price. */
  ghost function ListingEdited(t: Tables, id: int, sale: Option<real>, rental: Option<real>): (r: (Tables, Status))
    ensures r.1 == NoRows <==> t.listings == map[]
    ensures r.1 == NotFound <==> t.listings != map[] && id !in t.listings
    ensures r.1 in {NoRows, NotFound, Done}
    ensures r.1 != Done ==> r.0 == t
    ensures r.1 == Done ==> id in r.0.listings && r.0 == t.(listings := t.listings[id := r.0.listings[id]])
    ensures r.1 == Done ==> r.0.listings[id].propertyId == t.listings[id].propertyId
    ensures r.1 == Done ==> r.0.listings[id].agencyId == t.listings[id].agencyId
    ensures r.1 == Done ==> r.0.listings[id].salePrice == EditedPrice(sale, t.listings[id].salePrice)
    ensures r.1 == Done ==> r.0.listings[id].rentalPrice == EditedPrice(rental, t.listings[id].rentalPrice)
    ensures Consistent(t) ==> Consistent(r.0)
  {
    if t.listings == map[] then (t, NoRows)
    else if id !in t.listings then (t, NotFound)
    else
      var current := t.listings[id];
      var row := current.(salePrice := EditedPrice(sale, current.salePrice),
                          rentalPrice := EditedPrice(rental, current.rentalPrice));
      (t.(listings := t.listings[id := row]), Done)
  }

  /** The tables and the status after `edit_agency`. The source makes no
      duplicate check here; the store's unique constraint refuses a company
      code another agency has. */
  ghost function AgencyEdited(t: Tables, id: int, name: string, code: string): (r: (Tables, Status))
    ensures r.1 == NoRows <==> t.agencies == map[]
    ensures r.1 == NotFound <==> t.agencies != map[] && id !in t.agencies
    ensures r.1 == Rejected <==> id in t.agencies && CodeUsed(t.agencies - {id}, OrCurrent(code, t.agencies[id].companyCode))
    ensures r.1 in {NoRows, NotFound, Rejected, Done}
    ensures r.1 != Done ==> r.0 == t
    ensures r.1 == Done ==> id in r.0.agencies && r.0 == t.(agencies := t.agencies[id := r.0.agencies[id]])
    ensures r.1 == Done && name == "" ==> r.0.agencies[id].name == t.agencies[id].name
    ensures r.1 == Done && name != "" ==> r.0.agencies[id].name == name
    ensures r.1 == Done && code == "" ==> r.0.agencies[id].companyCode == t.agencies[id].companyCode
    ensures r.1 == Done && code != "" ==> r.0.agencies[id].companyCode == code
    ensures Consistent(t) ==> Consistent(r.0)
  {
    if t.agencies == map[] then (t, NoRows)
    else if id !in t.agencies then (t, NotFound)
    else
      var current := t.agencies[id];
      var row := Agency(OrCurrent(name, current.name), OrCurrent(code, current.companyCode));
      if CodeUsed(t.agencies - {id}, row.companyCode) then (t, Rejected)
      else
        var m := t.agencies[id := row];
        assert CompanyCodesUnique(t.agencies) ==> CompanyCodesUnique(m) by {
          if CompanyCodesUnique(t.agencies) {
            forall a, b | a in m && b in m && a != b ensures m[a].companyCode != m[b].companyCode {
              if a == id { assert b in t.agencies - {id}; }
              if b == id { assert a in t.agencies - {id}; }
            }
          }
        }
        (t.(agencies := m), Done)
  }

  /** The tables and the status after `edit_city`. No duplicate check in the
      source; the store's unique constraint refuses a name another city has. */
  ghost function CityEdited(t: Tables, id: int, name: string): (r: (Tables, Status))
    ensures r.1 == NoRows <==> t.cities == map[]
    ensures r.1 == NotFound <==> t.cities != map[] && id !in t.cities
    ensures r.1 == Rejected <==> id in t.cities && NameUsed(t.cities - {id}, OrCurrent(name, t.cities[id].name))
    ensures r.1 in {NoRows, NotFound, Rejected, Done}
    ensures r.1 != Done ==> r.0 == t
    ensures r.1 == Done ==> id in r.0.cities && r.0 == t.(cities := t.cities[id := r.0.cities[id]])
    ensures r.1 == Done && name == "" ==> r.0.cities[id] == t.cities[id]
    ensures r.1 == Done && name != "" ==> r.0.cities[id].name == name
    ensures Consistent(t) ==> Consistent(r.0)
  {
    if t.cities == map[] then (t, NoRows)
    else if id !in t.cities then (t, NotFound)
    else
      var row := City(OrCurrent(name, t.cities[id].name));
      if NameUsed(t.cities - {id}, row.name) then (t, Rejected)
      else
        var m := t.cities[id := row];
        assert CityNamesUnique(t.cities) ==> CityNamesUnique(m) by {
          if CityNamesUnique(t.cities) {
            forall a, b | a in m && b in m && a != b ensures m[a].name != m[b].name {
              if a == id { assert b in t.cities - {id}; }
              if b == id { assert a in t.cities - {id}; }
            }
          }
        }
        (t.(cities := m), Done)
  }

  /** A listing created with a sale price of 0 and no rental price, then
      edited with both answers blank, ends with no price at all: the rule
      "at least one price" that creation enforces does not survive edits. */
  lemma EditCanLeaveListingWithoutPrice()
    ensures var t := Tables(map[], map[], map[], map[1 := Property(1, 1, 50.0, "R-1")], map[1 := Agency("A", "C")],
                            map[1 := Listing(1, 1, Some(0.0), None)]);
            ListingEdited(t, 1, None, None).0.listings[1] == Listing(1, 1, None, None)
  {
  }

  // ---------------------------------------------------------------------
  // The operations on the store
  // ---------------------------------------------------------------------

  method EditOwner(s: Store, id: int, first: string, last: string, phone: string) returns (st: Status)
    requires s.Valid()
    modifies s
    ensures s.Valid()
    ensures (s.Snapshot(), st) == OwnerEdited(old(s.Snapshot()), id, first, last, phone)
  {
    if s.owners == map[] {
      return NoRows;
    }
    if id !in s.owners {
      return NotFound;
    }
    var current := s.owners[id];
    var newFirst := OrCurrent(first, current.firstName);
    var newLast := OrCurrent(last, current.lastName);
    var newPhone := OrCurrent(phone, current.phoneNumber);
    if o :| o in s.owners && o != id && s.owners[o].phoneNumber == newPhone {
      assert o in s.owners - {id};
      return Rejected;
    }
    s.owners := s.owners[id := Owner(newFirst, newLast, newPhone)];
    st := Done;
  }

  method EditProperty(s: Store, id: int, area: Option<real>, registry: string) returns (st: Status)
    requires s.Valid()
    modifies s
    ensures s.Valid()
    ensures (s.Snapshot(), st) == PropertyEdited(old(s.Snapshot()), id, area, registry)
  {
    if s.properties == map[] {
      return NoRows;
    }
    if id !in s.properties {
      return NotFound;
    }
    var current := s.properties[id];
    var newArea := if area.Some? then area.value else current.areaSqm;
    var newRegistry := OrCurrent(registry, current.registryNumber);
    if p :| p in s.properties && p != id && s.properties[p].registryNumber == newRegistry {
      assert p in s.properties - {id};
      return Rejected;
    }
    s.properties := s.properties[id := current.(areaSqm := newArea, registryNumber := newRegistry)];
    st := Done;
  }

  method EditAddress(s: Store, id: int, street: string, postal: string, cityName: string) returns (st: Status)
    requires s.Valid()
    modifies s
    ensures s.Valid()
    ensures (s.Snapshot(), st) == AddressEdited(old(s.Snapshot()), id, street, postal, cityName)
  {
    if s.addresses == map[] {
      return NoRows;
    }
    if id !in s.addresses {
      return NotFound;
    }
    var current := s.addresses[id];
    var newStreet := OrCurrent(street, current.streetAddress);
    var newPostal := OrCurrent(postal, current.postalCode);
    var cityId := current.cityId;
    if cityName != "" {
      cityId := Add.FindOrCreateCity(s, cityName);
    }
    s.addresses := s.addresses[id := Address(newStreet, newPostal, cityId)];
    st := Done;
  }

  method EditListing(s: Store, id: int, sale: Option<real>, rental: Option<real>) returns (st: Status)
    requires s.Valid()
    modifies s
    ensures s.Valid()
    ensures (s.Snapshot(), st) == ListingEdited(old(s.Snapshot()), id, sale, rental)
  {
    if s.listings == map[] {
      return NoRows;
    }
    if id !in s.listings {
      return NotFound;
    }
    var current := s.listings[id];
    s.listings := s.listings[id := current.(salePrice := EditedPrice(sale, current.salePrice),
                                            rentalPrice := EditedPrice(rental, current.rentalPrice))];
    st := Done;
  }

  method EditAgency(s: Store, id: int, name: string, code: string) returns (st: Status)
    requires s.Valid()
    modifies s
    ensures s.Valid()
    ensures (s.Snapshot(), st) == AgencyEdited(old(s.Snapshot()), id, name, code)
  {
    if s.agencies == map[] {
      return NoRows;
    }
    if id !in s.agencies {
      return NotFound;
    }
    var current := s.agencies[id];
    var newName := OrCurrent(name, current.name);
    var newCode := OrCurrent(code, current.companyCode);
    if a :| a in s.agencies && a != id && s.agencies[a].companyCode == newCode {
      assert a in s.agencies - {id};
      return Rejected;
    }
    s.agencies := s.agencies[id := Agency(newName, newCode)];
    st := Done;
  }

  method EditCity(s: Store, id: int, name: string) returns (st: Status)
    requires s.Valid()
    modifies s
    ensures s.Valid()
    ensures (s.Snapshot(), st) == CityEdited(old(s.Snapshot()), id, name)
  {
    if s.cities == map[] {
      return NoRows;
    }
    if id !in s.cities {
      return NotFound;
    }
    var newName := OrCurrent(name, s.cities[id].name);
    if c :| c in s.cities && c != id && s.cities[c].name == newName {
      assert c in s.cities - {id};
      return Rejected;
    }
    s.cities := s.cities[id := City(newName)];
    st := Done;
  }
}
