/** Stored dashboards with their sorted index. */
module DashboardShelf {
  import opened Basics
  import opened Texts
  import opened Dashboards

  /** Storage: a record under each trimmed name, and the list of names. */
  datatype Shelf = Shelf(records: map<Name, Raw>, index: seq<Name>)

  const BARE := Shelf(map[], [])

  function Keys(s: seq<Name>): seq<Keyed<Name>> {
    seq(|s|, i requires 0 <= i < |s| => Keyed(s[i].text, s[i]))
  }

  function Rows<T>(s: seq<Keyed<T>>): seq<T> {
    seq(|s|, i requires 0 <= i < |s| => s[i].row)
  }

  function SortNames(s: seq<Name>): seq<Name> {
    Rows(Sort(Keys(s), false))
  }

  /** `save`; None where it raises. */
  function Saved(sh: Shelf, d: Dashboard): Option<Shelf> {
    var n := Trimmed(d.name.text);
    if n.text == "" then None
    else Some(Placed(sh, n, ToDict(d)))
  }

  function Placed(sh: Shelf, n: Name, r: Raw): Shelf {
    Shelf(sh.records[n := r], if n in sh.index then sh.index else SortNames(sh.index + [n]))
  }

  function Found(sh: Shelf, n: Name): Option<Dashboard> {
    if n in sh.records then FromDict(sh.records[n]) else None
  }

  /** The dashboards found under some names, in order. */
  function AllFound(sh: Shelf, names: seq<Name>): seq<Dashboard> {
    if names == [] then []
    else
      var d := Found(sh, names[|names| - 1]);
      AllFound(sh, names[..|names| - 1]) + if d.Some? then [d.value] else []
  }

  /** What the records load as. */
  function Loaded(sh: Shelf): map<Name, Dashboard> {
    map n | n in sh.records && Found(sh, n).Some? :: Found(sh, n).value
  }

  function Dropped(sh: Shelf, n: Name): Shelf {
    Shelf(sh.records - {n}, Without(sh.index, n))
  }

  // ---------------------------------------------------------------------------
  // The index
  // ---------------------------------------------------------------------------

  ghost predicate Strict(s: seq<Name>) {
    forall i, j :: 0 <= i < j < |s| ==> AtMost(s[i].text, s[j].text) && s[i] != s[j]
  }

  /** The index lists the stored names in strict order, and every record loads under its name. */
  ghost predicate Shelved(sh: Shelf) {
    && Strict(sh.index)
    && (forall n :: n in sh.index <==> n in sh.records)
    && (forall n :: n in sh.records ==> Loads(sh, n))
  }

  ghost predicate Loads(sh: Shelf, n: Name) {
    Tidy(n) && Found(sh, n).Some? && Trimmed(Found(sh, n).value.name.text) == n
  }

  lemma SortNamesKeeps(s: seq<Name>)
    ensures forall x :: x in SortNames(s) <==> x in s
  {
    var sorted := Sort(Keys(s), false);
    SortSorts(Keys(s), false);
    forall x | x in s ensures x in SortNames(s) {
      var i :| 0 <= i < |s| && s[i] == x;
      assert Keys(s)[i] in multiset(sorted);
      var j :| 0 <= j < |sorted| && sorted[j] == Keys(s)[i];
      assert Rows(sorted)[j] == x;
    }
    forall x | x in SortNames(s) ensures x in s {
      var j :| 0 <= j < |sorted| && sorted[j].row == x;
      assert sorted[j] in multiset(Keys(s));
    }
  }

  lemma SortNamesSorts(s: seq<Name>, n: Name)
    requires Strict(s) && n !in s
    ensures Strict(SortNames(s + [n])) && forall x :: x in SortNames(s + [n]) <==> x in s || x == n
  {
    var keys := Keys(s + [n]);
    var sorted := Sort(keys, false);
    assert keys == Keys(s) + [Keyed(n.text, n)];
    CountedOnce(keys);
    SortSorts(keys, false);
    SameRows(s + [n], sorted);
  }

  lemma SameRows(s: seq<Name>, sorted: seq<Keyed<Name>>)
    requires Sorted(sorted, false) && multiset(sorted) == multiset(Keys(s)) && forall x :: multiset(Keys(s))[x] <= 1
    ensures Strict(Rows(sorted)) && forall x :: x in Rows(sorted) <==> x in s
  {
    forall i | 0 <= i < |sorted| ensures sorted[i].key == sorted[i].row.text && sorted[i].row in s {
      assert sorted[i] in multiset(Keys(s));
    }
    forall i, j | 0 <= i < j < |sorted| ensures sorted[i].row != sorted[j].row {
      if sorted[i] == sorted[j] {
        CountedTwice(sorted, i, j);
      }
    }
    forall x | x in s ensures x in Rows(sorted) {
      var i :| 0 <= i < |s| && s[i] == x;
      assert Keys(s)[i] in multiset(sorted);
      var j :| 0 <= j < |sorted| && sorted[j] == Keys(s)[i];
      assert Rows(sorted)[j] == x;
    }
  }

  lemma {:induction false} WithoutStrict(s: seq<Name>, n: Name)
    requires Strict(s)
    ensures Strict(Without(s, n)) && forall x :: x in Without(s, n) <==> x in s && x != n
  {
    if s != [] {
      assert s == [s[0]] + s[1..];
      WithoutStrict(s[1..], n);
      assert forall x | x in s[1..] :: AtMost(s[0].text, x.text) && s[0] != x;
    }
  }

  lemma PlacedFound(sh: Shelf, n: Name, r: Raw, m: Name)
    ensures Found(Placed(sh, n, r), m) == if m == n then FromDict(r) else Found(sh, m)
  {}

  lemma PlacedKeeps(sh: Shelf, n: Name, r: Raw)
    requires Shelved(sh) && Tidy(n) && FromDict(r).Some? && Trimmed(FromDict(r).value.name.text) == n
    ensures Shelved(Placed(sh, n, r))
  {
    forall m ensures m in Placed(sh, n, r).records ==> Loads(Placed(sh, n, r), m) {
      PlacedFound(sh, n, r, m);
      assert m in sh.records ==> Loads(sh, m);
    }
    if n !in sh.index {
      SortNamesSorts(sh.index, n);
    }
  }

  lemma {:induction false} AllFoundEach(sh: Shelf, names: seq<Name>)
    requires forall n | n in names :: Found(sh, n).Some?
    ensures |AllFound(sh, names)| == |names|
    ensures forall k | 0 <= k < |names| :: Found(sh, names[k]) == Some(AllFound(sh, names)[k])
  {
    if names != [] {
      AllFoundEach(sh, names[..|names| - 1]);
    }
  }

  /** On a sound shelf every listed name has its dashboard. */
  lemma ListingLoads(sh: Shelf)
    requires Shelved(sh)
    ensures forall n | n in sh.index :: Tidy(n) && Found(sh, n).Some?
    ensures |AllFound(sh, sh.index)| == |sh.index|
    ensures forall k | 0 <= k < |sh.index| :: Found(sh, sh.index[k]) == Some(AllFound(sh, sh.index)[k])
  {
    forall n | n in sh.index ensures Tidy(n) && Found(sh, n).Some? {
      assert Loads(sh, n);
    }
    AllFoundEach(sh, sh.index);
  }

  /** On a sound shelf the loaded dashboards are those of the index, each under its trimmed name. */
  lemma LoadedIsListed(sh: Shelf)
    requires Shelved(sh)
    ensures forall n :: n in Loaded(sh) <==> n in sh.index
    ensures forall n :: n in Loaded(sh) ==> Tidy(n) && Trimmed(Loaded(sh)[n].name.text) == n && Legal(Loaded(sh)[n])
  {
    forall n ensures n in sh.records ==> Loads(sh, n) && n in Loaded(sh) && Legal(Loaded(sh)[n]) {
      if n in sh.records {
        assert Loads(sh, n);
        LoadedIsLegal(sh.records[n]);
      }
    }
  }

  lemma PlacedLoads(sh: Shelf, n: Name, r: Raw)
    requires FromDict(r).Some?
    ensures Loaded(Placed(sh, n, r)) == Loaded(sh)[n := FromDict(r).value]
  {
    forall m ensures Found(Placed(sh, n, r), m) == if m == n then FromDict(r) else Found(sh, m) {
      PlacedFound(sh, n, r, m);
    }
  }

  lemma SavedKeeps(sh: Shelf, d: Dashboard)
    requires Shelved(sh) && Legal(d) && Saved(sh, d).Some?
    ensures Shelved(Saved(sh, d).value)
  {
    var r := ToDict(d);
    StripTwice(d.name.text);
    RoundTrip(d);
    PlacedKeeps(sh, Trimmed(d.name.text), r);
  }

  lemma DroppedKeeps(sh: Shelf, n: Name)
    requires Shelved(sh)
    ensures Shelved(Dropped(sh, n))
  {
    WithoutStrict(sh.index, n);
  }

  datatype ShelfOp = SaveOp(d: Dashboard) | DeleteOp(name: string)

  function ShelfNext(sh: Shelf, op: ShelfOp): Shelf {
    match op
    case SaveOp(d) => Saved(sh, d).GetOr(sh)
    case DeleteOp(name) => Dropped(sh, Trimmed(name))
  }

  function ShelfRun(sh: Shelf, ops: seq<ShelfOp>): Shelf
    decreases |ops|
  {
    if ops == [] then sh else ShelfRun(ShelfNext(sh, ops[0]), ops[1..])
  }

  /** Over every run of saves and deletes the index is strictly sorted and equals the stored names. */
  lemma {:induction false} ShelfRunKeeps(sh: Shelf, ops: seq<ShelfOp>)
    requires Shelved(sh) && forall op | op in ops :: op.SaveOp? ==> Legal(op.d)
    ensures Shelved(ShelfRun(sh, ops))
    decreases |ops|
  {
    if ops != [] {
      assert ops[0] in ops && forall op | op in ops[1..] :: op in ops;
      match ops[0] {
        case SaveOp(d) =>
          if Saved(sh, d).Some? {
            SavedKeeps(sh, d);
          }
        case DeleteOp(name) => DroppedKeeps(sh, Trimmed(name));
      }
      ShelfRunKeeps(ShelfNext(sh, ops[0]), ops[1..]);
    }
  }
}
