/** The dashboard store and the in-process registry as objects. */
module DashboardRegistries {
  import opened Basics
  import opened Texts
  import opened Dashboards
  import opened DashboardShelf
  import opened DashboardCache

  class DashboardStore {
    var records: map<Name, Raw>
    var index: seq<Name>

    constructor ()
      ensures View() == BARE
    {
      records, index := map[], [];
    }

    ghost function View(): Shelf
      reads this
    {
      Shelf(records, index)
    }

    method Save(d: Dashboard) returns (raised: bool)
      modifies this
      ensures raised == Saved(old(View()), d).None?
      ensures View() == Saved(old(View()), d).GetOr(old(View()))
      ensures raised <==> Strip(d.name.text) == ""
      ensures raised ==> records == old(records) && index == old(index)
      ensures !raised ==> records == old(records)[Name(Strip(d.name.text)) := ToDict(d)]
      ensures !raised ==> forall n :: n in index <==> n in old(index) || n.text == Strip(d.name.text)
    {
      SortNamesKeeps(index + [Trimmed(d.name.text)]);
      var n := Trimmed(d.name.text);
      if n.text == "" {
        return true;
      }
      records := records[n := ToDict(d)];
      if n !in index {
        index := SortNames(index + [n]);
      }
      return false;
    }

    method Get(name: string) returns (d: Option<Dashboard>)
      ensures d == Found(View(), Trimmed(name))
    {
      var key := Trimmed(name);
      return if key in records then FromDict(records[key]) else None;
    }

    method Delete(name: string) returns (had: bool)
      modifies this
      ensures View() == Dropped(old(View()), Trimmed(name)) && had == (Trimmed(name) in old(records))
      ensures records == old(records) - {Name(Strip(name))}
      ensures forall n :: n in index <==> n in old(index) && n.text != Strip(name)
    {
      WithoutExactly(index, Trimmed(name));
      var key := Trimmed(name);
      had := key in records;
      records := records - {key};
      index := Without(index, key);
    }

    /** The stored dashboards in the order of the index. */
    method ListAll() returns (all: seq<Dashboard>)
      requires forall n | n in index :: Tidy(n)
      ensures all == AllFound(View(), index)
    {
      all := [];
      for k := 0 to |index|
        invariant all == AllFound(View(), index[..k])
      {
        assert index[..k + 1][..k] == index[..k] && index[k] in index;
        var d := Get(index[k].text);
        if d.Some? {
          all := all + [d.value];
        }
      }
      assert index[..|index|] == index;
    }
  }

  class DashboardRegistry {
    var byName: Memory
    var store: DashboardStore?

    constructor ()
      ensures byName == map[] && store == null
    {
      byName, store := map[], null;
    }

    ghost function View(): Board
      reads this, store
      requires store != null
    {
      Board(byName, store.View())
    }

    /** Binding a store pulls all its dashboards into memory, over what was there under their names; attaching none
        unbinds the store and leaves the memory. */
    method AttachDashboardStore(storage: DashboardStore?) returns (count: nat)
      requires storage != null ==> Shelved(storage.View())
      modifies this
      ensures store == storage
      ensures storage == null ==> count == 0 && byName == old(byName)
      ensures storage != null ==>
                count == |storage.index| && byName == Hydrated(old(byName), Loaded(storage.View()), storage.index)
    {
      store := storage;
      if storage == null {
        return 0;
      }
      ListingIsLoaded(storage.View());
      var all := storage.ListAll();
      count := |all|;
      RememberAll(all, Loaded(storage.View()), storage.index);
    }

    method RememberAll(all: seq<Dashboard>, ghost stored: Memory, ghost names: seq<Name>)
      requires |all| == |names| && forall k | 0 <= k < |names| :: Lookup(stored, names[k]) == Some(all[k])
      modifies this`byName
      ensures byName == Hydrated(old(byName), stored, names)
    {
      for k := 0 to |all|
        invariant Hydrated(byName, stored, names[k..]) == old(Hydrated(byName, stored, names))
      {
        byName := byName[all[k].name := all[k]];
      }
    }

    method RegisterDashboard(d: Dashboard, persist: bool) returns (raised: bool)
      modifies this`byName, store
      ensures persist && store != null ==> Step(View(), raised) == Register(old(View()), d)
      ensures !persist || store == null ==> !raised && byName == old(byName)[d.name := d]
      ensures !persist && store != null ==> store.View() == old(store.View())
      ensures byName == old(byName)[d.name := d] && (raised <==> persist && store != null && Strip(d.name.text) == "")
    {
      byName := byName[d.name := d];
      raised := false;
      if persist && store != null {
        raised := store.Save(d);
      }
    }

    method GetDashboard(name: string) returns (d: Option<Dashboard>)
      modifies this`byName
      ensures store != null ==> d == Answer(old(View()), name) && View() == Asked(old(View()), name)
      ensures Name(Strip(name)) in old(byName) ==> d == Some(old(byName)[Name(Strip(name))]) && byName == old(byName)
      ensures Name(Strip(name)) !in old(byName) ==> byName == if d.None? then old(byName) else old(byName)[d.value.name := d.value]
      ensures store == null ==> byName == old(byName)
      ensures store == null ==> d == if Trimmed(name) in byName then Some(byName[Trimmed(name)]) else None
    {
      var key := Trimmed(name);
      if key in byName {
        return Some(byName[key]);
      }
      if store != null {
        StripTwice(name);
        d := store.Get(name);
        if d.Some? {
          byName := byName[d.value.name := d.value];
        }
        return;
      }
      return None;
    }

    /** Memory first pulls in what only the store has; then every dashboard is listed once, by name. */
    method ListDashboards() returns (rows: seq<Row>)
      requires store != null ==> Shelved(store.View())
      requires Named(byName)
      modifies this`byName
      ensures Named(byName) && Lists(rows, byName)
      ensures store != null ==> byName == AllListed(old(View()))
      ensures store == null ==> byName == old(byName)
    {
      if store != null {
        CachedIsStocked(View());
        PullStored(Loaded(store.View()));
        ListedIsNamed(old(View()));
      }
      rows := SortedRows();
    }

    method PullStored(ghost stored: Memory)
      requires store != null && Stocked(stored) && (forall n :: n in store.index <==> n in stored)
      requires forall n :: Found(store.View(), n) == Lookup(stored, n)
      modifies this`byName
      ensures byName == Merged(old(byName), stored, store.index)
    {
      var names := store.index;
      for k := 0 to |names|
        invariant names == store.index
        invariant Merged(byName, stored, names[k..]) == old(Merged(byName, stored, store.index))
      {
        if names[k] !in byName {
          assert names[k] in store.index;
          var d := store.Get(names[k].text);
          if d.Some? {
            byName := byName[d.value.name := d.value];
          }
        }
      }
    }

    method SortedRows() returns (rows: seq<Row>)
      requires Named(byName)
      ensures Lists(rows, byName)
    {
      var found: seq<Keyed<Row>> := [];
      var left := byName.Keys;
      while left != {}
        invariant left <= byName.Keys
        invariant forall n | n in byName.Keys - left :: Keyed(n.text, RowOf(byName[n])) in found
        invariant forall k | k in found :: k.row.name in byName.Keys - left && k == Keyed(k.row.name.text, RowOf(byName[k.row.name]))
        invariant forall i, j :: 0 <= i < j < |found| ==> found[i] != found[j]
        decreases |left|
      {
        var n :| n in left;
        found := found + [Keyed(n.text, RowOf(byName[n]))];
        left := left - {n};
      }
      rows := Rows(Sort(found, false));
      SortSorts(found, false);
      CountedOnce(found);
      ListsSorted(found, Sort(found, false), byName);
    }

    method ClearDashboards()
      modifies this`byName
      ensures byName == map[]
    {
      byName := map[];
    }
  }

  lemma ListsSorted(found: seq<Keyed<Row>>, sorted: seq<Keyed<Row>>, memory: Memory)
    requires multiset(sorted) == multiset(found) && Sorted(sorted, false) && forall x :: multiset(found)[x] <= 1
    requires forall n | n in memory :: memory[n].name == n && Keyed(n.text, RowOf(memory[n])) in found
    requires forall k | k in found :: k.row.name in memory && k == Keyed(k.row.name.text, RowOf(memory[k.row.name]))
    ensures Lists(Rows(sorted), memory)
  {
    forall k ensures k in sorted <==> k in found {
      assert k in sorted <==> k in multiset(sorted);
      assert k in found <==> k in multiset(found);
    }
    RowsInOrder(found, sorted);
    SameRowSet(sorted, memory);
  }

  lemma SameRowSet(sorted: seq<Keyed<Row>>, memory: Memory)
    requires forall n | n in memory :: Keyed(n.text, RowOf(memory[n])) in sorted
    requires forall k | k in sorted :: k.row.name in memory && k.row == RowOf(memory[k.row.name])
    ensures forall r :: r in Rows(sorted) <==> r in RowsOf(memory)
  {
    forall n | n in memory ensures RowOf(memory[n]) in Rows(sorted) {
      var i :| 0 <= i < |sorted| && sorted[i] == Keyed(n.text, RowOf(memory[n]));
      assert Rows(sorted)[i] == RowOf(memory[n]);
    }
    forall r | r in Rows(sorted) ensures r in RowsOf(memory) {
      var i :| 0 <= i < |sorted| && sorted[i].row == r;
      assert sorted[i] in sorted && r == RowOf(memory[r.name]);
    }
  }

  lemma RowsInOrder(found: seq<Keyed<Row>>, sorted: seq<Keyed<Row>>)
    requires multiset(sorted) == multiset(found) && Sorted(sorted, false) && forall x :: multiset(found)[x] <= 1
    requires forall k | k in sorted :: k.key == k.row.name.text
    requires forall k, l | k in sorted && l in sorted && k.key == l.key :: k == l
    ensures Ordered(Rows(sorted))
  {
    forall i, j | 0 <= i < j < |sorted|
      ensures AtMost(sorted[i].row.name.text, sorted[j].row.name.text) && sorted[i].row.name != sorted[j].row.name
    {
      assert sorted[i] in sorted && sorted[j] in sorted;
      if sorted[i] == sorted[j] {
        CountedTwice(sorted, i, j);
      }
    }
  }
}
