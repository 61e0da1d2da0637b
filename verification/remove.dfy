/** Removal of owners, properties and listings, with the cascade that keeps
    every foreign key pointing at a row that exists. */
module Remove {
  import opened Db

  // ---------------------------------------------------------------------
  // Specification on table values
  // ---------------------------------------------------------------------

  /** The properties whose owner is `o`. */
  function OwnedBy(t: Tables, o: int): (r: set<int>)
    ensures forall p :: p in r <==> p in t.properties && t.properties[p].ownerId == o
  {
    set p | p in t.properties && t.properties[p].ownerId == o
  }

  /** The addresses of the properties `ps`. */
  function AddressesOf(t: Tables, ps: set<int>): set<int> {
    set p | p in ps && p in t.properties :: t.properties[p].addressId
  }

  /** One step of the cascade, as the source performs it for one property:
      its listings, then its address, then the property row. */
  function DropProperty(t: Tables, p: int): Tables
    requires p in t.properties
  {
    t.(listings := map l | l in t.listings && t.listings[l].propertyId != p :: t.listings[l],
       addresses := t.addresses - {t.properties[p].addressId},
       properties := t.properties - {p})
  }

  /** The tables after the cascade has run for every property in `ps`. */
  function WithoutProperties(t: Tables, ps: set<int>): (r: Tables)
    // no property of ps remains, and no listing or address of one
    ensures forall p :: p in ps ==> p !in r.properties
    ensures forall l :: l in r.listings ==> r.listings[l].propertyId !in ps
    ensures forall p :: p in ps && p in t.properties ==> t.properties[p].addressId !in r.addresses
    // a listing or property is deleted only because of ps
    ensures forall l :: l in t.listings && t.listings[l].propertyId !in ps ==>
      l in r.listings && r.listings[l] == t.listings[l]
    ensures forall p :: p in t.properties && p !in ps ==> p in r.properties && r.properties[p] == t.properties[p]
    ensures forall l :: l in r.listings ==> l in t.listings && r.listings[l] == t.listings[l]
    ensures forall p :: p in r.properties ==> p in t.properties && r.properties[p] == t.properties[p]
    ensures forall a :: a in r.addresses ==> a in t.addresses && r.addresses[a] == t.addresses[a]
    // an address goes only with a property of ps
    ensures forall a :: a in t.addresses && a !in AddressesOf(t, ps) ==> a in r.addresses && r.addresses[a] == t.addresses[a]
    // owners, cities and agencies are untouched
    ensures r.owners == t.owners && r.cities == t.cities && r.agencies == t.agencies
    // no address is shared, so the remaining properties keep theirs
    ensures Consistent(t) ==> Consistent(r)
  {
    t.(listings := map l | l in t.listings && t.listings[l].propertyId !in ps :: t.listings[l],
       addresses := t.addresses - AddressesOf(t, ps),
       properties := t.properties - ps)
  }

  /** Running the cascade for one more property is one DropProperty step. */
  lemma DropPropertyStep(t: Tables, done: set<int>, p: int)
    requires p in t.properties && p !in done
    ensures p in WithoutProperties(t, done).properties
    ensures DropProperty(WithoutProperties(t, done), p) == WithoutProperties(t, done + {p})
  {
    var before := WithoutProperties(t, done);
    var stepped := DropProperty(before, p);
    var after := WithoutProperties(t, done + {p});
    assert AddressesOf(t, done + {p}) == AddressesOf(t, done) + {t.properties[p].addressId};
    assert stepped.addresses == after.addresses;
    assert stepped.listings == after.listings;
    assert stepped.properties == after.properties;
  }

  /** The tables after `remove_owner(o)`. */
  function OwnerRemoved(t: Tables, o: int): (r: Tables)
    ensures o !in t.owners ==> r == t
    ensures o !in r.owners
    ensures r.owners == t.owners - {o}
    ensures o in t.owners ==> forall p :: p in r.properties ==> r.properties[p].ownerId != o
    ensures o in t.owners ==> forall l :: l in r.listings ==> r.listings[l].propertyId !in OwnedBy(t, o)
    ensures o in t.owners ==> forall p :: p in OwnedBy(t, o) ==> t.properties[p].addressId !in r.addresses
    ensures forall l :: l in t.listings && t.listings[l].propertyId !in OwnedBy(t, o) ==>
      l in r.listings && r.listings[l] == t.listings[l]
    ensures forall p :: p in t.properties && t.properties[p].ownerId != o ==>
      p in r.properties && r.properties[p] == t.properties[p]
    ensures forall a :: a in t.addresses && a !in AddressesOf(t, OwnedBy(t, o)) ==>
      a in r.addresses && r.addresses[a] == t.addresses[a]
    // nothing is added or altered: every remaining row is an old row as it was
    ensures forall l :: l in r.listings ==> l in t.listings && r.listings[l] == t.listings[l]
    ensures forall p :: p in r.properties ==> p in t.properties && r.properties[p] == t.properties[p]
    ensures forall a :: a in r.addresses ==> a in t.addresses && r.addresses[a] == t.addresses[a]
    ensures r.cities == t.cities && r.agencies == t.agencies
    ensures Consistent(t) ==> Consistent(r)
  {
    if o in t.owners then
      var c := WithoutProperties(t, OwnedBy(t, o));
      c.(owners := c.owners - {o})
    else
      t
  }

  /** The tables after `remove_property(p)`. */
  function PropertyRemoved(t: Tables, p: int): (r: Tables)
    ensures p !in t.properties ==> r == t
    ensures p !in r.properties
    ensures p in t.properties ==> forall l :: l in r.listings ==> r.listings[l].propertyId != p
    ensures p in t.properties ==> t.properties[p].addressId !in r.addresses
    ensures forall l :: l in t.listings && t.listings[l].propertyId != p ==>
      l in r.listings && r.listings[l] == t.listings[l]
    ensures forall q :: q in t.properties && q != p ==> q in r.properties && r.properties[q] == t.properties[q]
    // exactly the property and its own address go; nothing is added
    ensures p in t.properties ==> r.properties == t.properties - {p}
    ensures p in t.properties ==> r.addresses == t.addresses - {t.properties[p].addressId}
    ensures forall l :: l in r.listings ==> l in t.listings && r.listings[l] == t.listings[l]
    ensures r.owners == t.owners && r.cities == t.cities && r.agencies == t.agencies
    ensures Consistent(t) ==> Consistent(r)
  {
    if p in t.properties then
      DropPropertyStep(t, {}, p);
      assert WithoutProperties(t, {}) == t;
      DropProperty(t, p)
    else
      t
  }

  /** The tables after `remove_listing(l)`. */
  function ListingRemoved(t: Tables, l: int): (r: Tables)
    ensures l !in r.listings
    ensures forall k :: k in t.listings && k != l ==> k in r.listings && r.listings[k] == t.listings[k]
    ensures r.listings.Keys <= t.listings.Keys
    ensures r.(listings := t.listings) == t
    ensures Consistent(t) ==> Consistent(r)
  {
    t.(listings := t.listings - {l})
  }

  // ---------------------------------------------------------------------
  // The operations on the store
  // ---------------------------------------------------------------------

  /** Deletes one property's listings, its address and the property row, in
      that order, without committing. */
  method DeleteProperty(s: Store, p: int)
    requires p in s.properties
    modifies s
    ensures s.Snapshot() == DropProperty(old(s.Snapshot()), p)
  {
    var property := s.properties[p];
    s.listings := map l | l in s.listings && s.listings[l].propertyId != p :: s.listings[l];
    s.addresses := s.addresses - {property.addressId};
    s.properties := s.properties - {p};
  }

  /** Runs the cascade for every property in `ps`, one property at a time. */
  method DeleteProperties(s: Store, ps: set<int>)
    requires ps <= s.properties.Keys
    modifies s
    ensures s.Snapshot() == WithoutProperties(old(s.Snapshot()), ps)
  {
    ghost var t := s.Snapshot();
    var todo := ps;
    assert WithoutProperties(t, {}) == t;
    while todo != {}
      invariant todo <= ps
      invariant s.Snapshot() == WithoutProperties(t, ps - todo)
      decreases todo
    {
      ghost var some := Pick(todo);
      var p :| p in todo;
      DropPropertyStep(t, ps - todo, p);
      DeleteProperty(s, p);
      assert (ps - todo) + {p} == ps - (todo - {p});
      todo := todo - {p};
    }
    assert ps - todo == ps;
  }

  /** Removes an owner with all of their properties, each property's
      listings and address; all deletes go into one commit. */
  method RemoveOwner(s: Store, ownerId: int) returns (st: Status)
    requires s.Valid()
    modifies s
    ensures s.Valid()
    ensures st == (if old(s.owners) == map[] then NoRows else if ownerId in old(s.owners) then Done else NotFound)
    ensures s.Snapshot() == OwnerRemoved(old(s.Snapshot()), ownerId)
  {
    if s.owners == map[] {
      return NoRows;
    }
    if ownerId !in s.owners {
      return NotFound;
    }
    ghost var t := s.Snapshot();
    var owned := set p | p in s.properties && s.properties[p].ownerId == ownerId;
    assert owned == OwnedBy(t, ownerId);
    DeleteProperties(s, owned);
    s.owners := s.owners - {ownerId};
    st := Done;
  }

  /** Removes a property, its listings and its address; the city stays. */
  method RemoveProperty(s: Store, propertyId: int) returns (st: Status)
    requires s.Valid()
    modifies s
    ensures s.Valid()
    ensures st == (if old(s.properties) == map[] then NoRows
                   else if propertyId in old(s.properties) then Done else NotFound)
    ensures s.Snapshot() == PropertyRemoved(old(s.Snapshot()), propertyId)
  {
    if s.properties == map[] {
      return NoRows;
    }
    if propertyId !in s.properties {
      return NotFound;
    }
    DeleteProperty(s, propertyId);
    st := Done;
  }

  /** Removes one listing; nothing else. */
  method RemoveListing(s: Store, listingId: int) returns (st: Status)
    requires s.Valid()
    modifies s
    ensures s.Valid()
    ensures st == (if old(s.listings) == map[] then NoRows
                   else if listingId in old(s.listings) then Done else NotFound)
    ensures s.Snapshot() == ListingRemoved(old(s.Snapshot()), listingId)
  {
    if s.listings == map[] {
      return NoRows;
    }
    if listingId !in s.listings {
      return NotFound;
    }
    s.listings := s.listings - {listingId};
    st := Done;
  }
}
