# Real-estate records store — a Dafny model

This project models the data layer of a console application for real-estate
records. The application keeps six tables in a relational store: owners,
cities, addresses, properties, agencies and listings. It offers four kinds of
operation on them:

- create rows: an owner, then a property with its city and address; an agency; a listing;
- edit one row, where a blank answer keeps the current value;
- remove rows, where removing an owner or a property cascades to what depends on it;
- read views: joins, group-bys and the SQL aggregates AVG and MIN over listing prices.

Files:

- `db.dfy` (module `Db`): the schema.
  - One datatype per record.
  - `Tables`: six maps from primary key to row.
  - `Consistent`: the invariant the operations keep. It holds the schema's unique columns and foreign keys. It also holds `AddressesExclusive`: no two properties share an address. The schema does not declare that rule, but the code keeps it, because each address is created for one property and deleted with it.
  - Fresh keys: one more than the largest key in use.
  - The `Store` class: one session over the six tables, with a field per table.
- `remove.dfy`, `add.dfy`, `edit.dfy`: the mutating operations. Each has two parts:
  - a specification function on `Tables` values, whose contract states what the operation means and that it keeps `Consistent`;
  - a method on `Store` that updates the tables step by step as the source does. Its contract ties the new state and the status to that function.
- `aggregate.dfy`: SQL AVG and MIN over a group of listings. Both ignore null prices and give null for a group without prices. Lemmas bound an average by its prices and the minimum by the average.
- `read.dfy`: the city search, the lookup by registry number, the advanced search with optional price bounds, and the list of all properties. The price-per-square-metre rule is here too.
- `grouping.dfy`: the grouping of joined rows into an insertion-ordered dictionary, with its lemmas.
- `directory.dfy`: the owner and agency views. Each is a loop that builds the dictionary, proved against `Grouping.Grouped`. Lemmas relate the result to the tables.

Four behaviours of the code that are easy to miss, which the model keeps:

- `add_property` commits the city and the address before the property. A repeated registry number therefore refuses only the last commit, and the new city and address stay.
- The price per square metre is also "N/A" when the sale price is 0, not only when it is null. This comes from a truth test.
- Some operations write a unique column without checking it first: `add_owner` (phone number), `add_property` (registry number), and the owner, property, agency and city edits. In those operations a clash makes the store refuse the commit. The model reports `Rejected` and keeps the last committed state. `add_agency` does check the company code first and reports `DuplicateCode`.
- Editing a listing with a blank answer while its price is 0 stores null. This is the same truth test.

## Model

| member | source | states |
|---|---|---|
| Db.PhonesUnique | db.py:23 | no two owners share a phone number |
| Db.CityNamesUnique | db.py:32 | no two cities share a name |
| Db.RegistryNumbersUnique | db.py:56 | no two properties share a registry number |
| Db.CompanyCodesUnique | db.py:68 | no two agencies share a company code |
| Db.AddressesExclusive | features_add.py:74-83 | no two properties share an address; the schema does not declare this, the code keeps it by creating one address per property and deleting it with the property |
| Db.AddressKeysHold | db.py:43 | every address names an existing city |
| Db.PropertyKeysHold | db.py:53-54 | every property names an existing owner and an existing address |
| Db.ListingKeysHold | db.py:77-78 | every listing names an existing property and an existing agency |
| Db.Consistent | db.py:15-82 | the store's invariant: the four unique columns, exclusive addresses and the three foreign-key rules |
| Db.Store.constructor | db.py:85-89 | a new store holds six empty tables, which satisfy every uniqueness and foreign-key constraint |
| Db.CityNamed | features_add.py:66 | the city lookup by name finds a row exactly when some city has that name; the row found has that name, and it is the only one when names are unique |
| Db.NextId | db.py:20 | a new key is at least 1, is larger than every key in use, and is 1 or one more than a key in use |
| Db.NewId | db.py:20 | scanning the keys in use yields exactly the key `NextId` describes |
| Remove.OwnedBy | features_remove.py:23 | the owner's properties are exactly the property rows whose owner id is that owner |
| Remove.DeleteProperty | features_remove.py:25-27 | one cascade step deletes the property's listings, then its address, then the property row |
| Remove.DeleteProperties | features_remove.py:23-27 | the loop over the owner's properties, one cascade step each, leaves exactly the tables `WithoutProperties` describes, whatever order it takes them in |
| Remove.WithoutProperties | features_remove.py:23-27 | after the cascade over a set of properties: none of them, none of their listings and none of their addresses remain; every other listing and property is kept unchanged; nothing is added; owners, cities and agencies are untouched; consistency is preserved |
| Remove.DropPropertyStep | features_remove.py:24-27 | running the cascade for one more property is one `DropProperty` step on the result so far |
| Remove.OwnerRemoved | features_remove.py:4-31 | an unknown owner changes nothing; otherwise the owner is gone with all their properties, those properties' listings and addresses; rows not owned by them are kept; cities and agencies are untouched; consistency is preserved |
| Remove.PropertyRemoved | features_remove.py:34-59 | an unknown property changes nothing; otherwise the property, its listings and its address are gone, the city stays, every other row is kept and consistency is preserved |
| Remove.ListingRemoved | features_remove.py:62-83 | exactly the chosen listing is gone, every other table is unchanged, consistency is preserved |
| Remove.RemoveOwner | features_remove.py:9-31 | reports no rows for an empty owners table, not found for an unknown id, else done; the loop over the owner's properties leaves the tables of `OwnerRemoved` |
| Remove.RemoveProperty | features_remove.py:39-59 | the same statuses; the tables become those of `PropertyRemoved` |
| Remove.RemoveListing | features_remove.py:67-83 | the same statuses; the tables become those of `ListingRemoved` |
| Add.CityFoundOrCreated | features_add.py:66-71 | the id returned names a city with that name; an existing name leaves the cities unchanged; a new name adds exactly one row under a fresh key; unique city names stay unique |
| Add.FindOrCreateIdempotent | features_add.py:66-71 | looking a name up again after find-or-create finds the same city and adds nothing |
| Add.FindOrCreateCity | features_add.py:66-71 | the store's cities and the id returned are those of `CityFoundOrCreated`; no other table changes |
| Add.OwnerAdded | features_add.py:14-16 | the owner is added exactly when the phone number is unused, as one new row under a fresh key; a used phone is refused and changes nothing; consistency is preserved |
| Add.AddressAdded | features_add.py:66-77 | the city is found or created, then exactly one address in that city is added under a fresh key; consistency is preserved |
| Add.PropertyAdded | features_add.py:65-84 | done exactly when the registry number is unused; the city and address are added either way; on success exactly one property with the given owner, the new address, the area and the registry number is added; owners, agencies and listings are unchanged; consistency is preserved for an existing owner |
| Add.AgencyAdded | features_add.py:95-105 | a company code in use is refused before anything is written; otherwise exactly one agency is added; consistency is preserved |
| Add.ListingAdded | features_add.py:116-170 | checks in the source's order: empty properties, unknown property, empty agencies, unknown agency, no price; each failure changes nothing; done exactly when both ids exist and a price is given, adding one listing with them |
| Add.FirstKnownOwner | features_add.py:47-56 | the owner prompt settles on the first answer that names an existing owner |
| Add.AddOwner | features_add.py:4-17 | the tables and status are those of `OwnerAdded`; on success the id returned is the new row's |
| Add.AddProperty | features_add.py:30-84 | with no owner given: an empty owners table ends the operation with nothing changed, else the retry loop picks `FirstKnownOwner`; the tables and status are then those of `PropertyAdded` |
| Add.AddAgency | features_add.py:87-105 | the tables and status are those of `AgencyAdded` |
| Add.AddListing | features_add.py:108-171 | the tables and status are those of `ListingAdded` |
| Edit.OrCurrent | features_edit.py:28-32 | a non-blank answer is taken as typed; a blank one keeps the current value; the result is blank only when both are |
| Edit.EditedPrice | features_edit.py:153-160 | a typed price replaces the current one; a blank keeps it, except that a current price of 0 becomes null |
| Edit.OwnerEdited | features_edit.py:4-39 | no rows, not found and a phone clash with another owner each change nothing; otherwise only the chosen owner changes, each blank field keeping its value and each typed one replacing it; consistency is preserved |
| Edit.PropertyEdited | features_edit.py:42-75 | the same statuses, with a registry clash as the refusal; only area and registry number can change, owner and address stay |
| Edit.AddressEdited | features_edit.py:78-125 | blank street or postal code keeps the value; a blank city keeps the address's city; a typed city is found or created and the address then points to a city of that name; no other address changes |
| Edit.ListingEdited | features_edit.py:128-162 | only the chosen listing's prices change, each as `EditedPrice` says; property and agency stay; no price is required |
| Edit.AgencyEdited | features_edit.py:165-197 | no duplicate check in the source; a clash with another agency's code is refused by the store; otherwise only the chosen agency changes, blanks keeping values |
| Edit.CityEdited | features_edit.py:200-229 | no duplicate check in the source; a clash with another city's name is refused by the store; otherwise only the chosen city changes |
| Edit.EditCanLeaveListingWithoutPrice | features_edit.py:153-160 | a listing with sale price 0 and no rental price, edited with both answers blank, ends with no price at all |
| Edit.EditOwner | features_edit.py:11-38 | the tables and status are those of `OwnerEdited` |
| Edit.EditProperty | features_edit.py:49-74 | the tables and status are those of `PropertyEdited` |
| Edit.EditAddress | features_edit.py:85-124 | the tables and status are those of `AddressEdited` |
| Edit.EditListing | features_edit.py:135-161 | the tables and status are those of `ListingEdited` |
| Edit.EditAgency | features_edit.py:172-196 | the tables and status are those of `AgencyEdited` |
| Edit.EditCity | features_edit.py:207-228 | the tables and status are those of `CityEdited` |
| Aggregate.Count | features_read.py:29-30 | the number of non-null prices in a group is zero exactly when no listing of the group has that price, and is at most the group's size |
| Aggregate.Avg | features_read.py:29-30 | AVG is null exactly when no listing of the group has that price |
| Aggregate.Min | features_read.py:147-148 | MIN is null exactly when no listing has that price; otherwise it is some listing's price and no listing's price is smaller |
| Aggregate.AvgWithin | features_read.py:29-30 | an average lies within any range that contains all the prices it is taken over |
| Aggregate.MinNotAboveAvg | features_read.py:303-304 | the minimum of a group is never above its average |
| Read.ListingsOf | features_read.py:32 | the listings joined to a property are exactly the listings with its id |
| Read.PricePerSqm | features_read.py:44-46 | per-sqm is given exactly when the sale price is present and non-zero and the area is positive, so it never divides by zero; then per-sqm times area is the sale price, and its sign is the sale price's (the same rule at lines 103-105, 270-271 and 317-319) |
| Read.SearchByCity | features_read.py:5-35 | an unknown city name gives no result; otherwise the rows are exactly the properties whose address is in that city and that have a listing; each carries the average sale and rental price over its own listings, null exactly when no listing has that price, and per-sqm from the average sale price |
| Read.CityAverageWithinListingPrices | features_read.py:29-30 | each average shown lies between the lowest and highest price of that property's listings |
| Read.PricesByRegistry | features_read.py:54-95 | no such property exactly when no property with that registry number joins with its address and city; otherwise the details are that property's, it is the only candidate when registry numbers are unique, and the prices are exactly its listings whose agency exists, each with its agency's name, its own prices and its per-sqm |
| Read.RegistryShowsAllListings | features_read.py:88-95 | in a consistent store every listing of the property found is shown, so an empty list means the property has no listings |
| Read.AtLeast | features_read.py:153 | an absent lower bound admits every price; a supplied one admits only a non-null price at or above it |
| Read.AtMost | features_read.py:154 | an absent upper bound admits every price; a supplied one admits only a non-null price at or below it |
| Read.Admits | features_read.py:153-156 | a listing passes the filter exactly when all four bounds admit its prices |
| Read.Matching | features_read.py:153-156 | a listing counts exactly when every supplied bound holds inclusively; an absent bound imposes nothing, and a null price fails any bound on it |
| Read.AdvancedSearch | features_read.py:112-158 | an unknown city gives no result; otherwise the rows are exactly the properties in that city with at least one counting listing, each with MIN sale and MIN rental price over its counting listings only. This is the intended search, which answers every combination of bounds; the code as written raises for some of them (see Findings) |
| Read.OperandFor | features_read.py:153-156 | a blank bound contributes the literal `True` to the filter, a supplied one a SQL comparison |
| Read.AndOperands | features_read.py:153-156 | Python's `&` on the filter's operands: two literals give a literal, a comparison on the left gives a conjunction, and a literal followed by a comparison raises a TypeError |
| Read.FilterBuilt | features_read.py:153-156 | building the filter left to right raises exactly when the minimum sale price is blank and a later bound is given, which is 7 of the 16 blank/supplied patterns; it is the bare literal only with no bounds |
| Read.AdvancedSearchAsWritten | features_read.py:112-158 | as written: an unknown city ends the call first; otherwise the call raises exactly when the filter cannot be built; when it completes, the result is `AdvancedSearch` |
| Read.MaxSaleAloneRaises | features_read.py:152-156 | in a known city, a search with only a maximum sale price raises as written, but the intended search returns rows |
| Read.CheapestWithinBounds | features_read.py:147-156 | the cheapest prices shown satisfy every supplied bound, and a supplied bound on a price means every row has that price |
| Read.AdvancedSearchNarrowsCitySearch | features_read.py:149-156 | the advanced search never finds a property the city search would not |
| Read.UnboundedSearchIsCitySearch | features_read.py:149-156 | with no bounds it finds exactly the properties of the city search |
| Read.AllProperties | features_read.py:300-309 | the rows are exactly the properties that join with address and city, each with MIN prices over all its listings and per-sqm from the minimum sale price; a property without listings still has a row, with null prices and no per-sqm |
| Read.EveryPropertyShown | features_read.py:300-309 | in a consistent store every property is listed exactly once |
| Read.UnlistedPropertyOnlyInFullList | features_read.py:305-307 | a property with no listings appears in the full list with null prices but in no city or advanced search result |
| Read.CheapestNotAboveAverage | features_read.py:303-304 | the minimum price in the full list never exceeds the average the city search shows for the same property |
| Grouping.FirstSeen | features_read.py:209-214 | the dictionary's key order lists every key of the rows once and nothing else, in order of first appearance: a later key's rows all come after some row of each earlier key |
| Grouping.Grouped | features_read.py:207-220 | the dictionary's keys are exactly the keys of the rows |
| Grouping.GroupedEntries | features_read.py:215-220 | each group holds the entries of its key's rows, in row order |
| Grouping.GroupedHeader | features_read.py:209-214 | a group's header is taken from the first row with its key |
| Grouping.UniformHeader | features_read.py:209-214 | when every row of a key carries the same header, the group has that header |
| Grouping.EntryFromRow | features_read.py:215-220 | every entry of a group comes from one of its key's rows |
| Grouping.EntryCount | features_read.py:215-220 | a group has one entry per row with its key |
| Directory.FullName | features_read.py:211 | the owner name shown is the first name, a space, and the last name |
| Directory.OwnerKeyed | features_read.py:209-220 | each joined row keys the owner dictionary by owner id, with the owner's full name and phone as the header and the property's registry number, street, city and area as the entry |
| Directory.IsOwnerJoin | features_read.py:193-199 | the owner join: each row joins an owner with one of their properties and its address and city, each property appears once, and every property whose owner, address and city exist appears |
| Directory.GroupByOwner | features_read.py:205-220 | the loop builds exactly the dictionary `Grouped` describes, and its key order is `FirstSeen` |
| Directory.OwnersListedAreOwnersWithProperties | features_read.py:193-199 | in a consistent store an owner is listed exactly when they own a property, so owners without properties are absent |
| Directory.OwnerHeaderFromTable | features_read.py:209-214 | each owner is shown with their own name and phone number |
| Directory.OwnerEntriesAreOwnedProperties | features_read.py:193-220 | every entry under an owner is one of their properties, with its registry number, street, city and area |
| Directory.OwnerRowsAreOwnedProperties | features_read.py:193-199 | the owner's joined rows carry exactly the properties they own |
| Directory.OwnerEntryCount | features_read.py:193-220 | in a consistent store an owner has one entry per property they own |
| Directory.ListedBy | features_read.py:244 | an agency's listings are exactly the listings with its id |
| Directory.AgencyKeyed | features_read.py:258-272 | each joined row keys the agency dictionary by agency id, with the agency name as the header and the property details, the listing's prices and its per-sqm as the entry |
| Directory.IsAgencyJoin | features_read.py:243-248 | the agency join: each row joins a listing with its agency, property, address and city, each listing appears once, and every listing whose agency, property, address and city exist appears |
| Directory.GroupByAgency | features_read.py:254-272 | the loop builds exactly the dictionary `Grouped` describes, and its key order is `FirstSeen` |
| Directory.AgenciesListedAreAgenciesWithListings | features_read.py:243-248 | in a consistent store an agency is listed exactly when it has a listing |
| Directory.AgencyHeaderFromTable | features_read.py:258-262 | each agency is shown under its own name |
| Directory.AgencyEntriesAreListings | features_read.py:243-272 | every entry under an agency is one of its listings, with that listing's prices and per-sqm |
| Directory.AgencyRowsAreListings | features_read.py:243-248 | the agency's joined rows carry exactly its listings |
| Directory.AgencyEntryCount | features_read.py:243-272 | in a consistent store an agency has one entry per listing, so a property it lists twice is shown twice |

## Findings

| source | as written | input that shows it | evidently intended | confidence | as-written member | corrected member |
|---|---|---|---|---|---|---|
| features_read.py:152-156 | the filter joins its four optional clauses with Python's `&`, left to right, and a blank bound is the literal `True`; `True & <SQL comparison>` has no implementation, so the call ends with an uncaught TypeError whenever the minimum sale price is blank and a later bound is given | a known city with only a maximum sale price, e.g. bounds (blank, 200000, blank, blank) | every blank bound imposes nothing, and every combination of bounds runs the query | medium, not executed: it depends on SQLAlchemy's comparison objects having no reflected `&` | Read.AdvancedSearchAsWritten, Read.MaxSaleAloneRaises | Read.AdvancedSearch, Read.CheapestWithinBounds |

## Left out

- `menu.py` is not part of this model. Its menu loops and dispatch are the user interface.
- Prompts, printing and display rounding to two decimals are not modelled. The operations take already-parsed values: a blank text answer is `""`, a blank number is `None`. The `float`/`int` parsing and its `ValueError` paths are left out.
- The yes/no loop in `add_owner` (features_add.py:20-27) is not modelled. Each "yes" is one `Add.AddProperty` call with the new owner's id.
- Add.AddProperty: when it prompts for an owner, it requires that some answer names an existing owner. The source keeps asking forever otherwise.
- Engine, session and schema creation are left out. The `Store` constructor stands for the freshly created, empty database. Each commit is a point where the store's state is the model's state.
- Store errors:
  - A refused commit is the status `Rejected`.
  - The session's state after the error is not modelled.
  - The program then stops with an uncaught exception; neither is modelled.
- Foreign keys are a proved invariant (`Consistent`) that every operation keeps. The store does not enforce them itself.
- Prices and areas are `real`. Floating-point rounding, including inside AVG, is not modelled.
- The order of query result rows is left out. Views are maps keyed by property id.
- The owner and agency loops take the joined rows as a sequence that `IsOwnerJoin` / `IsAgencyJoin` ties to the tables. The order the store returns those rows in is not modelled. The dictionary key order is modelled, as first appearance in that sequence.
- When several rows match a `.first()` lookup, the choice among them is not modelled. This affects the city name lookup and the registry lookup. The model picks one matching row. With the unique constraints in force there is only one.
