/** The two directory views: all owners with their properties, and all
    agencies with the properties they list. Each runs an inner-join query and
    then groups the joined rows into a dictionary, one row at a time. */
module Directory {
  import opened Db
  import opened Remove
  import opened Read
  import opened Grouping

  // ---------------------------------------------------------------------
  // Owners and their properties
  // ---------------------------------------------------------------------

  /** One row of the owner join: Owner x Property x Address x City. */
  datatype OwnerRow = OwnerRow(
    ownerId: int,
    owner: Owner,
    propertyId: int,
    property: Property,
    address: Address,
    city: City)

  datatype OwnerHeader = OwnerHeader(ownerName: string, phoneNumber: string)

  datatype OwnerProperty = OwnerProperty(registryNumber: string, streetAddress: string, city: string, areaSqm: real)

  /** The owner's name as shown: first name, a space, last name. */
  function FullName(o: Owner): (r: string)
    ensures |r| == |o.firstName| + 1 + |o.lastName|
    ensures r[..|o.firstName|] == o.firstName && r[|o.firstName|] == ' ' && r[|o.firstName| + 1..] == o.lastName
  {
    o.firstName + " " + o.lastName
  }

  /** The header and entry the loop takes from one joined row. */
  function OwnerKeyed(row: OwnerRow): Keyed<OwnerHeader, OwnerProperty> {
    Keyed(row.ownerId, OwnerHeader(FullName(row.owner), row.owner.phoneNumber),
          OwnerProperty(row.property.registryNumber, row.address.streetAddress, row.city.name, row.property.areaSqm))
  }

  function OwnerRowsKeyed(rows: seq<OwnerRow>): (r: seq<Keyed<OwnerHeader, OwnerProperty>>)
    ensures |r| == |rows|
    ensures forall i :: 0 <= i < |rows| ==> r[i] == OwnerKeyed(rows[i])
  {
    seq(|rows|, i requires 0 <= i < |rows| => OwnerKeyed(rows[i]))
  }

  /** The entry a property contributes, read from the tables. */
  function OwnerPropertyOf(t: Tables, p: int): OwnerProperty
    requires HasCity(t, p)
  {
    OwnerProperty(t.properties[p].registryNumber, AddressOf(t, p).streetAddress, CityOf(t, p).name,
                  t.properties[p].areaSqm)
  }

  /** A row the owner join can produce from the tables. */
  ghost predicate OwnerRowJoins(t: Tables, row: OwnerRow) {
    && row.ownerId in t.owners && t.owners[row.ownerId] == row.owner
    && HasCity(t, row.propertyId)
    && t.properties[row.propertyId] == row.property
    && row.property.ownerId == row.ownerId
    && AddressOf(t, row.propertyId) == row.address
    && CityOf(t, row.propertyId) == row.city
  }

  /** `rows` is the result of the owner join: one row per joinable property. */
  ghost predicate IsOwnerJoin(t: Tables, rows: seq<OwnerRow>) {
    && (forall i :: 0 <= i < |rows| ==> OwnerRowJoins(t, rows[i]))
    && (forall i, j :: 0 <= i < j < |rows| ==> rows[i].propertyId != rows[j].propertyId)
    && (forall p :: HasCity(t, p) && t.properties[p].ownerId in t.owners ==>
          exists i :: 0 <= i < |rows| && rows[i].propertyId == p)
  }

  /** Builds the owner dictionary from the joined rows; `order` is the order
      in which its keys were inserted. */
  method GroupByOwner(rows: seq<OwnerRow>) returns (groups: map<int, Group<OwnerHeader, OwnerProperty>>, order: seq<int>)
    ensures groups == Grouped(OwnerRowsKeyed(rows))
    ensures order == FirstSeen(OwnerRowsKeyed(rows))
  {
    ghost var keyed := OwnerRowsKeyed(rows);
    groups, order := map[], [];
    assert keyed[..0] == [];
    for i := 0 to |rows|
      invariant groups == Grouped(keyed[..i])
      invariant order == FirstSeen(keyed[..i])
    {
      var row := rows[i];
      if row.ownerId !in groups {
        groups := groups[row.ownerId := Group(OwnerHeader(FullName(row.owner), row.owner.phoneNumber), [])];
        order := order + [row.ownerId];
      }
      var entry := OwnerProperty(row.property.registryNumber, row.address.streetAddress, row.city.name,
                                 row.property.areaSqm);
      groups := groups[row.ownerId := groups[row.ownerId].(entries := groups[row.ownerId].entries + [entry])];
      assert keyed[..i + 1][..i] == keyed[..i];
    }
    assert keyed[..|rows|] == keyed;
  }

  /** In a consistent store the owners listed are exactly those owning at
      least one property: an owner without properties is absent. */
  lemma OwnersListedAreOwnersWithProperties(t: Tables, rows: seq<OwnerRow>, o: int)
    requires Consistent(t) && IsOwnerJoin(t, rows)
    ensures o in Grouped(OwnerRowsKeyed(rows)) <==> OwnedBy(t, o) != {}
  {
    var keyed := OwnerRowsKeyed(rows);
    if o in Keys(keyed) {
      var i :| 0 <= i < |keyed| && keyed[i].key == o;
      assert rows[i].propertyId in OwnedBy(t, o);
    }
    if OwnedBy(t, o) != {} {
      var p := Pick(OwnedBy(t, o));
      assert HasCity(t, p);
      var i :| 0 <= i < |rows| && rows[i].propertyId == p;
      assert keyed[i].key == o;
    }
  }

  /** Each owner is shown with their own name and phone number. */
  lemma OwnerHeaderFromTable(t: Tables, rows: seq<OwnerRow>, o: int)
    requires IsOwnerJoin(t, rows)
    requires o in Grouped(OwnerRowsKeyed(rows))
    ensures o in t.owners
    ensures Grouped(OwnerRowsKeyed(rows))[o].header == OwnerHeader(FullName(t.owners[o]), t.owners[o].phoneNumber)
  {
    var keyed := OwnerRowsKeyed(rows);
    var i :| 0 <= i < |keyed| && keyed[i].key == o;
    assert OwnerRowJoins(t, rows[i]);
    UniformHeader(keyed, o, OwnerHeader(FullName(t.owners[o]), t.owners[o].phoneNumber));
  }

  /** Every entry under an owner is one of that owner's properties. */
  lemma OwnerEntriesAreOwnedProperties(t: Tables, rows: seq<OwnerRow>, o: int)
    requires IsOwnerJoin(t, rows)
    requires o in Grouped(OwnerRowsKeyed(rows))
    ensures forall e :: e in Grouped(OwnerRowsKeyed(rows))[o].entries ==>
      exists p :: p in OwnedBy(t, o) && HasCity(t, p) && e == OwnerPropertyOf(t, p)
  {
    var keyed := OwnerRowsKeyed(rows);
    GroupedEntries(keyed, o);
    forall e | e in EntriesFor(keyed, o)
      ensures exists p :: p in OwnedBy(t, o) && HasCity(t, p) && e == OwnerPropertyOf(t, p)
    {
      EntryFromRow(keyed, o, e);
      var i :| 0 <= i < |keyed| && keyed[i].key == o && keyed[i].entry == e;
      assert OwnerRowJoins(t, rows[i]);
      assert rows[i].propertyId in OwnedBy(t, o);
    }
  }

  function PropertyIds(rows: seq<OwnerRow>): (r: seq<int>)
    ensures |r| == |rows|
    ensures forall i :: 0 <= i < |rows| ==> r[i] == rows[i].propertyId
  {
    seq(|rows|, i requires 0 <= i < |rows| => rows[i].propertyId)
  }

  /** The owner's rows carry exactly the properties they own. */
  lemma OwnerRowsAreOwnedProperties(t: Tables, rows: seq<OwnerRow>, o: int)
    requires Consistent(t) && IsOwnerJoin(t, rows)
    ensures (set i | i in RowsWith(OwnerRowsKeyed(rows), o) :: PropertyIds(rows)[i]) == OwnedBy(t, o)
  {
    var keyed := OwnerRowsKeyed(rows);
    var pids := PropertyIds(rows);
    var mine := RowsWith(keyed, o);
    forall p | p in OwnedBy(t, o)
      ensures p in (set i | i in mine :: pids[i])
    {
      assert HasCity(t, p);
      var i :| 0 <= i < |rows| && rows[i].propertyId == p;
      assert i in mine;
    }
    forall i | i in mine
      ensures pids[i] in OwnedBy(t, o)
    {
      assert OwnerRowJoins(t, rows[i]);
    }
  }

  /** In a consistent store an owner is shown with one entry per property
      they own. */
  lemma OwnerEntryCount(t: Tables, rows: seq<OwnerRow>, o: int)
    requires Consistent(t) && IsOwnerJoin(t, rows)
    requires o in Grouped(OwnerRowsKeyed(rows))
    ensures |Grouped(OwnerRowsKeyed(rows))[o].entries| == |OwnedBy(t, o)|
  {
    var keyed := OwnerRowsKeyed(rows);
    GroupedEntries(keyed, o);
    EntryCount(keyed, o);
    InjectiveImage(PropertyIds(rows), RowsWith(keyed, o));
    OwnerRowsAreOwnedProperties(t, rows, o);
  }

  // ---------------------------------------------------------------------
  // Agencies and the properties they list
  // ---------------------------------------------------------------------

  /** One row of the agency join: Agency x Listing x Property x Address x City;
      `listingId` names the listing the row comes from. */
  datatype AgencyRow = AgencyRow(
    agencyId: int,
    agency: Agency,
    listingId: int,
    property: Property,
    address: Address,
    city: City,
    salePrice: Option<real>,
    rentalPrice: Option<real>)

  datatype AgencyProperty = AgencyProperty(
    registryNumber: string,
    streetAddress: string,
    city: string,
    areaSqm: real,
    salePrice: Option<real>,
    rentalPrice: Option<real>,
    salePerSqm: Option<real>)

  function AgencyKeyed(row: AgencyRow): Keyed<string, AgencyProperty> {
    Keyed(row.agencyId, row.agency.name,
          AgencyProperty(row.property.registryNumber, row.address.streetAddress, row.city.name,
                         row.property.areaSqm, row.salePrice, row.rentalPrice,
                         PricePerSqm(row.salePrice, row.property.areaSqm)))
  }

  function AgencyRowsKeyed(rows: seq<AgencyRow>): (r: seq<Keyed<string, AgencyProperty>>)
    ensures |r| == |rows|
    ensures forall i :: 0 <= i < |rows| ==> r[i] == AgencyKeyed(rows[i])
  {
    seq(|rows|, i requires 0 <= i < |rows| => AgencyKeyed(rows[i]))
  }

  /** The listings of agency `a`. */
  function ListedBy(t: Tables, a: int): (r: set<int>)
    ensures forall l :: l in r <==> l in t.listings && t.listings[l].agencyId == a
  {
    set l | l in t.listings && t.listings[l].agencyId == a
  }

  /** The entry a listing contributes, read from the tables. */
  function AgencyPropertyOf(t: Tables, l: int): AgencyProperty
    requires l in t.listings && HasCity(t, t.listings[l].propertyId)
  {
    var p := t.listings[l].propertyId;
    AgencyProperty(t.properties[p].registryNumber, AddressOf(t, p).streetAddress, CityOf(t, p).name,
                   t.properties[p].areaSqm, t.listings[l].salePrice, t.listings[l].rentalPrice,
                   PricePerSqm(t.listings[l].salePrice, t.properties[p].areaSqm))
  }

  /** A row the agency join can produce from the tables. */
  ghost predicate AgencyRowJoins(t: Tables, row: AgencyRow) {
    && row.listingId in t.listings
    && var l := t.listings[row.listingId];
    && l.agencyId == row.agencyId
    && row.agencyId in t.agencies && t.agencies[row.agencyId] == row.agency
    && HasCity(t, l.propertyId)
    && t.properties[l.propertyId] == row.property
    && AddressOf(t, l.propertyId) == row.address
    && CityOf(t, l.propertyId) == row.city
    && row.salePrice == l.salePrice && row.rentalPrice == l.rentalPrice
  }

  /** `rows` is the result of the agency join: one row per joinable listing. */
  ghost predicate IsAgencyJoin(t: Tables, rows: seq<AgencyRow>) {
    && (forall i :: 0 <= i < |rows| ==> AgencyRowJoins(t, rows[i]))
    && (forall i, j :: 0 <= i < j < |rows| ==> rows[i].listingId != rows[j].listingId)
    && (forall l :: l in t.listings && t.listings[l].agencyId in t.agencies && HasCity(t, t.listings[l].propertyId) ==>
          exists i :: 0 <= i < |rows| && rows[i].listingId == l)
  }

  /** Builds the agency dictionary from the joined rows; `order` is the order
      in which its keys were inserted. */
  method GroupByAgency(rows: seq<AgencyRow>) returns (groups: map<int, Group<string, AgencyProperty>>, order: seq<int>)
    ensures groups == Grouped(AgencyRowsKeyed(rows))
    ensures order == FirstSeen(AgencyRowsKeyed(rows))
  {
    ghost var keyed := AgencyRowsKeyed(rows);
    groups, order := map[], [];
    assert keyed[..0] == [];
    for i := 0 to |rows|
      invariant groups == Grouped(keyed[..i])
      invariant order == FirstSeen(keyed[..i])
    {
      var row := rows[i];
      if row.agencyId !in groups {
        groups := groups[row.agencyId := Group(row.agency.name, [])];
        order := order + [row.agencyId];
      }
      var entry := AgencyProperty(row.property.registryNumber, row.address.streetAddress, row.city.name,
                                  row.property.areaSqm, row.salePrice, row.rentalPrice,
                                  PricePerSqm(row.salePrice, row.property.areaSqm));
      groups := groups[row.agencyId := groups[row.agencyId].(entries := groups[row.agencyId].entries + [entry])];
      assert keyed[..i + 1][..i] == keyed[..i];
    }
    assert keyed[..|rows|] == keyed;
  }

  /** In a consistent store the agencies listed are exactly those with at
      least one listing. */
  lemma AgenciesListedAreAgenciesWithListings(t: Tables, rows: seq<AgencyRow>, a: int)
    requires Consistent(t) && IsAgencyJoin(t, rows)
    ensures a in Grouped(AgencyRowsKeyed(rows)) <==> ListedBy(t, a) != {}
  {
    var keyed := AgencyRowsKeyed(rows);
    if a in Keys(keyed) {
      var i :| 0 <= i < |keyed| && keyed[i].key == a;
      assert AgencyRowJoins(t, rows[i]);
      assert rows[i].listingId in ListedBy(t, a);
    }
    if ListedBy(t, a) != {} {
      var l := Pick(ListedBy(t, a));
      assert HasCity(t, t.listings[l].propertyId);
      var i :| 0 <= i < |rows| && rows[i].listingId == l;
      assert keyed[i].key == a;
    }
  }

  /** Each agency is shown under its own name. */
  lemma AgencyHeaderFromTable(t: Tables, rows: seq<AgencyRow>, a: int)
    requires IsAgencyJoin(t, rows)
    requires a in Grouped(AgencyRowsKeyed(rows))
    ensures a in t.agencies
    ensures Grouped(AgencyRowsKeyed(rows))[a].header == t.agencies[a].name
  {
    var keyed := AgencyRowsKeyed(rows);
    var i :| 0 <= i < |keyed| && keyed[i].key == a;
    assert AgencyRowJoins(t, rows[i]);
    UniformHeader(keyed, a, t.agencies[a].name);
  }

  /** Every entry under an agency is one of its listings, with that
      listing's prices and price per square metre. */
  lemma AgencyEntriesAreListings(t: Tables, rows: seq<AgencyRow>, a: int)
    requires IsAgencyJoin(t, rows)
    requires a in Grouped(AgencyRowsKeyed(rows))
    ensures forall e :: e in Grouped(AgencyRowsKeyed(rows))[a].entries ==>
      exists l :: l in ListedBy(t, a) && HasCity(t, t.listings[l].propertyId) && e == AgencyPropertyOf(t, l)
  {
    var keyed := AgencyRowsKeyed(rows);
    GroupedEntries(keyed, a);
    forall e | e in EntriesFor(keyed, a)
      ensures exists l :: l in ListedBy(t, a) && HasCity(t, t.listings[l].propertyId) && e == AgencyPropertyOf(t, l)
    {
      EntryFromRow(keyed, a, e);
      var i :| 0 <= i < |keyed| && keyed[i].key == a && keyed[i].entry == e;
      assert AgencyRowJoins(t, rows[i]);
      assert rows[i].listingId in ListedBy(t, a);
    }
  }

  function ListingIds(rows: seq<AgencyRow>): (r: seq<int>)
    ensures |r| == |rows|
    ensures forall i :: 0 <= i < |rows| ==> r[i] == rows[i].listingId
  {
    seq(|rows|, i requires 0 <= i < |rows| => rows[i].listingId)
  }

  /** The agency's rows carry exactly its listings. */
  lemma AgencyRowsAreListings(t: Tables, rows: seq<AgencyRow>, a: int)
    requires Consistent(t) && IsAgencyJoin(t, rows)
    ensures (set i | i in RowsWith(AgencyRowsKeyed(rows), a) :: ListingIds(rows)[i]) == ListedBy(t, a)
  {
    var keyed := AgencyRowsKeyed(rows);
    var lids := ListingIds(rows);
    var mine := RowsWith(keyed, a);
    forall l | l in ListedBy(t, a)
      ensures l in (set i | i in mine :: lids[i])
    {
      assert HasCity(t, t.listings[l].propertyId);
      var i :| 0 <= i < |rows| && rows[i].listingId == l;
      assert i in mine;
    }
    forall i | i in mine
      ensures lids[i] in ListedBy(t, a)
    {
      assert AgencyRowJoins(t, rows[i]);
    }
  }

  /** In a consistent store an agency is shown with one entry per listing, so
      a property it lists twice is shown twice. */
  lemma AgencyEntryCount(t: Tables, rows: seq<AgencyRow>, a: int)
    requires Consistent(t) && IsAgencyJoin(t, rows)
    requires a in Grouped(AgencyRowsKeyed(rows))
    ensures |Grouped(AgencyRowsKeyed(rows))[a].entries| == |ListedBy(t, a)|
  {
    var keyed := AgencyRowsKeyed(rows);
    GroupedEntries(keyed, a);
    EntryCount(keyed, a);
    InjectiveImage(ListingIds(rows), RowsWith(keyed, a));
    AgencyRowsAreListings(t, rows, a);
  }
}
