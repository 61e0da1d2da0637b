/** Grouping joined rows into an insertion-ordered dictionary, as the owner
    and agency views do: the first row with a new key opens its group with
    that row's header, and every row appends its entry to its key's group. */
module Grouping {
  import opened Db

  /** One joined row, projected onto its grouping key, the group header it
      would open and the entry it contributes. */
  datatype Keyed<H, E> = Keyed(key: int, header: H, entry: E)

  datatype Group<H, E> = Group(header: H, entries: seq<E>)

  function Keys<H, E>(rows: seq<Keyed<H, E>>): set<int> {
    set i | 0 <= i < |rows| :: rows[i].key
  }

  /** The indices of the rows with key `k`. */
  function RowsWith<H, E>(rows: seq<Keyed<H, E>>, k: int): set<int> {
    set i | 0 <= i < |rows| && rows[i].key == k
  }

  /** Some row before index `m` has key `k`. */
  ghost predicate SeenBefore<H, E>(rows: seq<Keyed<H, E>>, k: int, m: int)
    requires 0 <= m <= |rows|
  {
    exists j :: 0 <= j < m && rows[j].key == k
  }

  /** The keys in the order they first appear: a dictionary's iteration order. */
  function FirstSeen<H, E>(rows: seq<Keyed<H, E>>): (r: seq<int>)
    ensures forall i, j :: 0 <= i < j < |r| ==> r[i] != r[j]
    ensures forall k :: k in r <==> k in Keys(rows)
    // a key comes later only if every row with it follows a row with the earlier key
    ensures forall i, j, m :: 0 <= i < j < |r| && 0 <= m < |rows| && rows[m].key == r[j] ==> SeenBefore(rows, r[i], m)
    decreases |rows|
  {
    if rows == [] then []
    else
      var n := |rows| - 1;
      var prefix := rows[..n];
      var prev := FirstSeen(prefix);
      var k := rows[n].key;
      assert forall i :: 0 <= i < |rows| ==> i == n || rows[i] == prefix[i];
      assert forall x, m :: 0 <= m < n && SeenBefore(prefix, x, m) ==> SeenBefore(rows, x, m);
      assert forall x :: x in prev ==> SeenBefore(rows, x, n);
      if k in prev then prev else prev + [k]
  }

  /** The dictionary the grouping loop builds. */
  function Grouped<H, E>(rows: seq<Keyed<H, E>>): (r: map<int, Group<H, E>>)
    ensures r.Keys == Keys(rows)
    decreases |rows|
  {
    if rows == [] then map[]
    else
      var prefix := rows[..|rows| - 1];
      var row := rows[|rows| - 1];
      var g := Grouped(prefix);
      assert forall i :: 0 <= i < |rows| ==> i == |rows| - 1 || rows[i] == prefix[i];
      var started := if row.key in g then g else g[row.key := Group(row.header, [])];
      started[row.key := started[row.key].(entries := started[row.key].entries + [row.entry])]
  }

  /** The entries of the rows with key `k`, in row order. */
  function EntriesFor<H, E>(rows: seq<Keyed<H, E>>, k: int): seq<E>
    decreases |rows|
  {
    if rows == [] then []
    else
      var prev := EntriesFor(rows[..|rows| - 1], k);
      if rows[|rows| - 1].key == k then prev + [rows[|rows| - 1].entry] else prev
  }

  /** Each group holds exactly the entries of its key's rows, in row order. */
  lemma {:induction false} GroupedEntries<H, E>(rows: seq<Keyed<H, E>>, k: int)
    requires k in Keys(rows)
    ensures Grouped(rows)[k].entries == EntriesFor(rows, k)
    decreases |rows|
  {
    var prefix := rows[..|rows| - 1];
    var row := rows[|rows| - 1];
    if k in Keys(prefix) {
      GroupedEntries(prefix, k);
    } else if row.key == k {
      NoEntriesWithoutRows(prefix, k);
    }
  }

  lemma {:induction false} NoEntriesWithoutRows<H, E>(rows: seq<Keyed<H, E>>, k: int)
    requires k !in Keys(rows)
    ensures EntriesFor(rows, k) == []
    decreases |rows|
  {
    if rows != [] {
      NoEntriesWithoutRows(rows[..|rows| - 1], k);
    }
  }

  /** A group's header is the header of the first row with its key. */
  lemma {:induction false} GroupedHeader<H, E>(rows: seq<Keyed<H, E>>, i: int)
    requires 0 <= i < |rows|
    requires forall j :: 0 <= j < i ==> rows[j].key != rows[i].key
    ensures Grouped(rows)[rows[i].key].header == rows[i].header
    decreases |rows|
  {
    var prefix := rows[..|rows| - 1];
    var k := rows[i].key;
    if i < |rows| - 1 {
      assert prefix[i] == rows[i];
      GroupedHeader(prefix, i);
    }
  }

  /** When every row of a key carries the same header, the group has it. */
  lemma {:induction false} UniformHeader<H, E>(rows: seq<Keyed<H, E>>, k: int, h: H)
    requires k in Keys(rows)
    requires forall i :: 0 <= i < |rows| && rows[i].key == k ==> rows[i].header == h
    ensures Grouped(rows)[k].header == h
    decreases |rows|
  {
    var prefix := rows[..|rows| - 1];
    if k in Keys(prefix) {
      assert forall i :: 0 <= i < |prefix| ==> prefix[i] == rows[i];
      UniformHeader(prefix, k, h);
    }
  }

  /** Every entry of a group is the entry of one of its key's rows. */
  lemma {:induction false} EntryFromRow<H, E>(rows: seq<Keyed<H, E>>, k: int, e: E)
    requires e in EntriesFor(rows, k)
    ensures exists i :: 0 <= i < |rows| && rows[i].key == k && rows[i].entry == e
    decreases |rows|
  {
    var n := |rows| - 1;
    var prefix := rows[..n];
    if e in EntriesFor(prefix, k) {
      EntryFromRow(prefix, k, e);
      var i :| 0 <= i < |prefix| && prefix[i].key == k && prefix[i].entry == e;
      assert rows[i] == prefix[i];
    } else {
      assert rows[n].key == k && rows[n].entry == e;
    }
  }

  /** One entry per row: a group is as long as the number of its rows. */
  lemma {:induction false} EntryCount<H, E>(rows: seq<Keyed<H, E>>, k: int)
    ensures |EntriesFor(rows, k)| == |RowsWith(rows, k)|
    decreases |rows|
  {
    if rows == [] {
      assert RowsWith(rows, k) == {};
    } else {
      var n := |rows| - 1;
      var prefix := rows[..n];
      EntryCount(prefix, k);
      assert forall i :: 0 <= i < n ==> rows[i] == prefix[i];
      if rows[n].key == k {
        assert RowsWith(rows, k) == RowsWith(prefix, k) + {n};
      } else {
        assert RowsWith(rows, k) == RowsWith(prefix, k);
      }
    }
  }

  /** Row indices map to distinct ids, so a set of rows and the set of their
      ids have the same size. */
  lemma {:induction false} InjectiveImage(ids: seq<int>, rowSet: set<int>)
    requires forall i :: i in rowSet ==> 0 <= i < |ids|
    requires forall i, j :: i in rowSet && j in rowSet && i != j ==> ids[i] != ids[j]
    ensures |set i | i in rowSet :: ids[i]| == |rowSet|
    decreases rowSet
  {
    if rowSet != {} {
      var i := Pick(rowSet);
      var rest := rowSet - {i};
      InjectiveImage(ids, rest);
      assert (set j | j in rowSet :: ids[j]) == (set j | j in rest :: ids[j]) + {ids[i]};
      assert ids[i] !in (set j | j in rest :: ids[j]);
    }
  }
}
