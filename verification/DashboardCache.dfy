/** The memory of the dashboard registry before an attached store, and when losing it shows. */
module DashboardCache {
  import opened Basics
  import opened Texts
  import opened Dashboards
  import opened DashboardShelf

  type Memory = map<Name, Dashboard>

  datatype Board = Board(memory: Memory, shelf: Shelf)

  datatype Step = Step(board: Board, raised: bool)

  /** `register_dashboard` with persist and a store: memory first, then the store, which may refuse. */
  function Register(b: Board, d: Dashboard): Step {
    var cached := b.memory[d.name := d];
    match Saved(b.shelf, d)
    case None => Step(b.(memory := cached), true)
    case Some(sh) => Step(Board(cached, sh), false)
  }

  function Lookup(m: Memory, n: Name): Option<Dashboard> {
    if n in m then Some(m[n]) else None
  }

  function Answer(b: Board, q: string): Option<Dashboard> {
    if Trimmed(q) in b.memory then Some(b.memory[Trimmed(q)]) else Found(b.shelf, Trimmed(q))
  }

  function Asked(b: Board, q: string): Board {
    var d := Answer(b, q);
    if Trimmed(q) in b.memory || d.None? then b else b.(memory := b.memory[d.value.name := d.value])
  }

  /** The memory after `list_dashboards` has pulled in the stored names that it does not have. */
  function Merged(memory: Memory, stored: Memory, names: seq<Name>): Memory
    decreases |names|
  {
    if names == [] then memory
    else
      var n := names[0];
      Merged(if n in memory || n !in stored then memory else memory[stored[n].name := stored[n]], stored, names[1..])
  }

  /** The memory after `load_into_registry`: stored dashboards replace what was there. */
  function Hydrated(memory: Memory, stored: Memory, names: seq<Name>): Memory
    decreases |names|
  {
    if names == [] then memory
    else
      var n := names[0];
      Hydrated(if n !in stored then memory else memory[stored[n].name := stored[n]], stored, names[1..])
  }

  function AllListed(b: Board): Memory {
    Merged(b.memory, Loaded(b.shelf), b.shelf.index)
  }

  function Lost(b: Board): Board {
    b.(memory := map[])
  }

  function Shown(d: Option<Dashboard>): Option<Raw> {
    if d.None? then None else Some(ToDict(d.value))
  }

  /** Nobody who only looks at serialized answers can tell that the memory is gone. */
  ghost predicate LossInvisible(b: Board) {
    forall q: string :: Shown(Answer(b, q)) == Shown(Answer(Lost(b), q))
  }

  function RowsOf(m: Memory): set<Row> {
    set n | n in m :: RowOf(m[n])
  }

  /** The listing shows the same rows when the memory is gone. */
  ghost predicate ListLossInvisible(b: Board) {
    RowsOf(AllListed(b)) == RowsOf(AllListed(Lost(b)))
  }

  ghost predicate Named(m: Memory) {
    forall n :: n in m ==> m[n].name == n && Legal(m[n])
  }

  ghost predicate Cached(b: Board) {
    Shelved(b.shelf) && Named(b.memory)
  }

  /** Stored dashboards sit under the trimmed form of their names. */
  ghost predicate Stocked(stored: Memory) {
    forall n :: n in stored ==> Tidy(n) && Trimmed(stored[n].name.text) == n && Legal(stored[n])
  }

  lemma CachedIsStocked(b: Board)
    requires Cached(b)
    ensures Stocked(Loaded(b.shelf)) && Distinct(b.shelf.index)
    ensures forall n :: n in b.shelf.index <==> n in Loaded(b.shelf)
    ensures forall n :: Found(b.shelf, n) == Lookup(Loaded(b.shelf), n)
  {
    LoadedIsListed(b.shelf);
  }

  lemma ListingIsLoaded(sh: Shelf)
    requires Shelved(sh)
    ensures (forall n | n in sh.index :: Tidy(n)) && |AllFound(sh, sh.index)| == |sh.index|
    ensures forall k | 0 <= k < |sh.index| :: Lookup(Loaded(sh), sh.index[k]) == Some(AllFound(sh, sh.index)[k])
  {
    ListingLoads(sh);
  }

  // ---------------------------------------------------------------------------
  // Merging and loading, name by name
  // ---------------------------------------------------------------------------

  /** The stored dashboard that goes by exactly this name, if there is one. */
  function Spelled(stored: Memory, k: Name): Option<Dashboard> {
    var n := Trimmed(k.text);
    if n in stored && stored[n].name == k then Some(stored[n]) else None
  }

  lemma {:induction false} MergedAt(memory: Memory, stored: Memory, names: seq<Name>, k: Name)
    requires Stocked(stored) && Distinct(names) && forall n | n in names :: n in stored
    ensures Lookup(Merged(memory, stored, names), k) ==
            if Trimmed(k.text) in names && Trimmed(k.text) !in memory && Spelled(stored, k).Some? then Spelled(stored, k)
            else Lookup(memory, k)
    decreases |names|
  {
    if names != [] {
      var n, d := names[0], stored[names[0]];
      assert n in names && names == [n] + names[1..] && n !in names[1..];
      var next := if n in memory then memory else memory[d.name := d];
      MergedAt(next, stored, names[1..], k);
    }
  }

  lemma {:induction false} HydratedAt(memory: Memory, stored: Memory, names: seq<Name>, k: Name)
    requires Stocked(stored) && Distinct(names) && forall n | n in names :: n in stored
    ensures Lookup(Hydrated(memory, stored, names), k) ==
            if Trimmed(k.text) in names && Spelled(stored, k).Some? then Spelled(stored, k) else Lookup(memory, k)
    decreases |names|
  {
    if names != [] {
      var n, d := names[0], stored[names[0]];
      assert n in names && names == [n] + names[1..] && n !in names[1..];
      HydratedAt(memory[d.name := d], stored, names[1..], k);
    }
  }

  /** What is listed under a name: the stored dashboard of that very name unless its trimmed form is cached, else the
      cached one. */
  lemma ListedAt(b: Board, k: Name)
    requires Cached(b)
    ensures var s := Spelled(Loaded(b.shelf), k);
            && Lookup(AllListed(b), k) == (if Trimmed(k.text) !in b.memory && s.Some? then s else Lookup(b.memory, k))
            && Lookup(AllListed(Lost(b)), k) == s
  {
    CachedIsStocked(b);
    MergedAt(b.memory, Loaded(b.shelf), b.shelf.index, k);
    MergedAt(map[], Loaded(b.shelf), b.shelf.index, k);
  }

  lemma ListedIsNamed(b: Board)
    requires Cached(b)
    ensures Named(AllListed(b)) && Named(AllListed(Lost(b)))
  {
    CachedIsStocked(b);
    forall k | k in AllListed(b) ensures AllListed(b)[k].name == k && Legal(AllListed(b)[k]) {
      ListedAt(b, k);
    }
    forall k | k in AllListed(Lost(b)) ensures AllListed(Lost(b))[k].name == k && Legal(AllListed(Lost(b))[k]) {
      ListedAt(b, k);
    }
  }

  // ---------------------------------------------------------------------------
  // Lookups
  // ---------------------------------------------------------------------------

  /** The cached dashboard of a trimmed name shows what the store would show. */
  ghost predicate Agrees(memory: Memory, stored: Memory, n: Name) {
    n in memory && Strip(n.text) == n.text ==> n in stored && ToDict(memory[n]) == ToDict(stored[n])
  }

  lemma LossInvisibleIs(b: Board)
    requires Cached(b)
    ensures LossInvisible(b) <==> forall n :: Agrees(b.memory, Loaded(b.shelf), n)
  {
    CachedIsStocked(b);
    if LossInvisible(b) {
      forall n ensures Agrees(b.memory, Loaded(b.shelf), n) {
        assert Shown(Answer(b, n.text)) == Shown(Answer(Lost(b), n.text));
      }
    }
    if forall n :: Agrees(b.memory, Loaded(b.shelf), n) {
      forall q: string ensures Shown(Answer(b, q)) == Shown(Answer(Lost(b), q)) {
        StripTwice(q);
        assert Agrees(b.memory, Loaded(b.shelf), Trimmed(q));
      }
    }
  }

  /** The registrations after which a loss of the memory stays invisible to lookups. */
  predicate Blends(memory: Memory, d: Dashboard) {
    if Tidy(d.name) then Profiled(d) else Trimmed(d.name.text).text == "" || Trimmed(d.name.text) !in memory
  }

  lemma RegisterIs(b: Board, d: Dashboard)
    requires Cached(b) && Legal(d)
    ensures var c, n := Register(b, d).board, Trimmed(d.name.text);
            && Cached(c) && c.memory == b.memory[d.name := d]
            && (n.text == "" ==> c.shelf == b.shelf)
            && (n.text != "" ==>
                  FromDict(ToDict(d)).Some? && Tidy(n) && Loaded(c.shelf) == Loaded(b.shelf)[n := FromDict(ToDict(d)).value])
  {
    StripTwice(d.name.text);
    RoundTrip(d);
    if Trimmed(d.name.text).text != "" {
      SavedKeeps(b.shelf, d);
      PlacedLoads(b.shelf, Trimmed(d.name.text), ToDict(d));
    }
  }

  /** Exactly when registering makes a later loss of the memory visible to lookups. */
  lemma RegisterHidesLossIff(b: Board, d: Dashboard)
    requires Cached(b) && Legal(d) && LossInvisible(b)
    ensures LossInvisible(Register(b, d).board) <==> Blends(b.memory, d)
  {
    var c, n := Register(b, d).board, Trimmed(d.name.text);
    RegisterIs(b, d);
    LossInvisibleIs(b);
    LossInvisibleIs(c);
    StripTwice(d.name.text);
    if n.text == "" {
      BlankAgrees(b.memory, c.memory, Loaded(b.shelf), d);
    } else {
      RoundTrip(d);
      PlacedAgrees(b.memory, c.memory, Loaded(b.shelf), Loaded(c.shelf), d, FromDict(ToDict(d)).value);
    }
  }

  lemma BlankAgrees(memory: Memory, cached: Memory, stored: Memory, d: Dashboard)
    requires Legal(d) && Trimmed(d.name.text).text == "" && cached == memory[d.name := d]
    requires forall n :: Agrees(memory, stored, n)
    ensures forall n :: Agrees(cached, stored, n)
  {
    forall n ensures Agrees(cached, stored, n) {
      assert Agrees(memory, stored, n);
    }
  }

  /** e is what the store makes of d. */
  lemma PlacedAgrees(memory: Memory, cached: Memory, stored: Memory, placed: Memory, d: Dashboard, e: Dashboard)
    requires Tidy(Trimmed(d.name.text)) && e.name == d.name && (ToDict(e) == ToDict(d) <==> Profiled(d))
    requires Named(memory) && forall m :: Agrees(memory, stored, m)
    requires cached == memory[d.name := d] && placed == stored[Trimmed(d.name.text) := e]
    ensures (forall m :: Agrees(cached, placed, m)) <==> Blends(memory, d)
  {
    var n := Trimmed(d.name.text);
    forall m | m != n ensures Agrees(cached, placed, m) {
      assert Agrees(memory, stored, m);
    }
    if n in memory {
      DifferentNames(memory[n], e);
    }
    assert Agrees(cached, placed, n) <==> Blends(memory, d);
  }

  lemma DifferentNames(d: Dashboard, e: Dashboard)
    ensures ToDict(d) == ToDict(e) ==> d.name == e.name
  {}

  // ---------------------------------------------------------------------------
  // Listings
  // ---------------------------------------------------------------------------

  /** A cached dashboard is listed from the store as it is from memory. */
  ghost predicate Echoes(memory: Memory, stored: Memory, k: Name) {
    k in memory ==>
      && Spelled(stored, k).Some?
      && (Trimmed(k.text) == k ==> RowOf(memory[k]) == RowOf(stored[k]))
  }

  lemma SameRowsIff(m: Memory, l: Memory)
    requires Named(m) && Named(l)
    ensures RowsOf(m) == RowsOf(l) <==>
            forall k :: (k in m <==> k in l) && (k in m && k in l ==> RowOf(m[k]) == RowOf(l[k]))
  {
    if RowsOf(m) == RowsOf(l) {
      forall k ensures (k in m <==> k in l) && (k in m && k in l ==> RowOf(m[k]) == RowOf(l[k])) {
        assert k in m ==> RowOf(m[k]) in RowsOf(l);
        assert k in l ==> RowOf(l[k]) in RowsOf(m);
      }
    }
  }

  lemma ListLossInvisibleIs(b: Board)
    requires Cached(b)
    ensures ListLossInvisible(b) <==> forall k :: Echoes(b.memory, Loaded(b.shelf), k)
  {
    var m, l := AllListed(b), AllListed(Lost(b));
    ListedIsNamed(b);
    SameRowsIff(m, l);
    if ListLossInvisible(b) {
      forall k ensures Echoes(b.memory, Loaded(b.shelf), k) {
        ListedAt(b, k);
      }
    }
    if forall k :: Echoes(b.memory, Loaded(b.shelf), k) {
      forall k ensures (k in m <==> k in l) && (k in m && k in l ==> RowOf(m[k]) == RowOf(l[k])) {
        ListedAt(b, k);
        assert Echoes(b.memory, Loaded(b.shelf), k) && Echoes(b.memory, Loaded(b.shelf), Trimmed(k.text));
        StripTwice(k.text);
      }
    }
  }

  /** The registrations after which a loss stays invisible to listings: a name that is not blank and of which no other
      spelling is cached. */
  predicate Spells(memory: Memory, d: Dashboard) {
    Trimmed(d.name.text).text != "" && forall k | k in memory && Trimmed(k.text) == Trimmed(d.name.text) :: k == d.name
  }

  /** Exactly when registering makes a later loss of the memory visible in listings. */
  lemma RegisterHidesListLossIff(b: Board, d: Dashboard)
    requires Cached(b) && Legal(d) && ListLossInvisible(b)
    ensures ListLossInvisible(Register(b, d).board) <==> Spells(b.memory, d)
  {
    var c := Register(b, d).board;
    RegisterIs(b, d);
    CachedIsStocked(b);
    ListLossInvisibleIs(b);
    ListLossInvisibleIs(c);
    if Trimmed(d.name.text).text == "" {
      assert !Echoes(c.memory, Loaded(c.shelf), d.name);
    } else {
      RowSurvives(d);
      PlacedEchoes(b.memory, c.memory, Loaded(b.shelf), Loaded(c.shelf), d, FromDict(ToDict(d)).value);
    }
  }

  lemma PlacedEchoes(memory: Memory, cached: Memory, stored: Memory, placed: Memory, d: Dashboard, e: Dashboard)
    requires Tidy(Trimmed(d.name.text)) && e.name == d.name && RowOf(e) == RowOf(d)
    requires forall k :: Echoes(memory, stored, k)
    requires cached == memory[d.name := d] && placed == stored[Trimmed(d.name.text) := e]
    ensures (forall k :: Echoes(cached, placed, k)) <==> Spells(memory, d)
  {
    var n := Trimmed(d.name.text);
    forall k ensures Echoes(cached, placed, k) <==> (k in memory && Trimmed(k.text) == n ==> k == d.name) {
      assert Echoes(memory, stored, k);
    }
  }

  function Bare(name: string): Dashboard {
    Dashboard(Name(name), [], None, "", "", map[])
  }

  lemma StripSpaced()
    ensures Strip("a") == "a" && Strip(" a") == "a"
  {}

  lemma FirstRegistration(d: Dashboard)
    requires Legal(d) && Trimmed(d.name.text).text != ""
    ensures var b := Register(Board(map[], BARE), d).board; Cached(b) && ListLossInvisible(b) && d.name in b.memory
  {
    assert ListLossInvisible(Board(map[], BARE));
    RegisterIs(Board(map[], BARE), d);
    RegisterHidesListLossIff(Board(map[], BARE), d);
  }

  /** Registering " a" where "a" is cached and stored: the listing shows both, and without the memory only one. */
  lemma TwoSpellings()
    ensures exists b, d :: Cached(b) && ListLossInvisible(b) && Legal(d) && Profiled(d)
                           && !ListLossInvisible(Register(b, d).board)
  {
    var b := Register(Board(map[], BARE), Bare("a")).board;
    StripSpaced();
    FirstRegistration(Bare("a"));
    RegisterHidesListLossIff(b, Bare(" a"));
    assert Name("a") in b.memory && Name("a") != Name(" a");
  }

  // ---------------------------------------------------------------------------
  // Lists of rows
  // ---------------------------------------------------------------------------

  /** rows lists the dashboards of memory in strict name order. */
  ghost predicate Lists(rows: seq<Row>, memory: Memory) {
    Ordered(rows) && forall r :: r in rows <==> r in RowsOf(memory)
  }

  ghost predicate Ordered(rows: seq<Row>) {
    forall i, j :: 0 <= i < j < |rows| ==> AtMost(rows[i].name.text, rows[j].name.text) && rows[i].name != rows[j].name
  }

  lemma {:induction false} OrderedUnique(a: seq<Row>, b: seq<Row>)
    requires Ordered(a) && Ordered(b) && forall r :: r in a <==> r in b
    ensures a == b
    decreases |a|
  {
    if a == [] {
      EmptyIf(b);
    } else {
      assert a[0] in b && b[0] in a;
      Total(a[0].name.text, b[0].name.text);
      assert a[0] == b[0];
      assert a == [a[0]] + a[1..] && b == [b[0]] + b[1..];
      forall r ensures r in a[1..] <==> r in b[1..] {
        assert r in a[1..] <==> r in a && r != a[0];
        assert r in b[1..] <==> r in b && r != b[0];
      }
      OrderedUnique(a[1..], b[1..]);
    }
  }

  /** The answers of `list_dashboards` with the memory and without it are equal exactly if the loss is invisible. */
  lemma ListsEqualIff(b: Board, rows: seq<Row>, without: seq<Row>)
    requires Lists(rows, AllListed(b)) && Lists(without, AllListed(Lost(b)))
    ensures rows == without <==> ListLossInvisible(b)
  {
    if ListLossInvisible(b) {
      OrderedUnique(rows, without);
    }
    if rows == without {
      forall r ensures r in RowsOf(AllListed(b)) <==> r in RowsOf(AllListed(Lost(b))) {
        assert r in rows <==> r in RowsOf(AllListed(b));
        assert r in without <==> r in RowsOf(AllListed(Lost(b)));
      }
    }
  }

  // ---------------------------------------------------------------------------
  // Runs
  // ---------------------------------------------------------------------------

  datatype Op = RegisterOp(d: Dashboard) | GetOp(q: string) | ListOp | ClearOp

  function Next(b: Board, op: Op): Board {
    match op
    case RegisterOp(d) => Register(b, d).board
    case GetOp(q) => Asked(b, q)
    case ListOp => b.(memory := AllListed(b))
    case ClearOp => Lost(b)
  }

  function Run(b: Board, ops: seq<Op>): Board
    decreases |ops|
  {
    if ops == [] then b else Run(Next(b, ops[0]), ops[1..])
  }

  /** Every registration of the run meets a condition on the memory it finds. */
  ghost predicate Throughout(b: Board, ops: seq<Op>, fits: (Memory, Dashboard) -> bool)
    decreases |ops|
  {
    ops == [] ||
    ((ops[0].RegisterOp? ==> Legal(ops[0].d) && fits(b.memory, ops[0].d)) && Throughout(Next(b, ops[0]), ops[1..], fits))
  }

  const BLENDS: (Memory, Dashboard) -> bool := (m: Memory, d: Dashboard) => Blends(m, d)
  const SPELLS: (Memory, Dashboard) -> bool := (m: Memory, d: Dashboard) => Spells(m, d)

  /** A lookup caches at most the stored dashboard it found, under its name. */
  lemma AskedIs(b: Board, q: string)
    requires Cached(b)
    ensures var c, n := Asked(b, q), Trimmed(q);
            && c.shelf == b.shelf
            && (c.memory == b.memory
                || (n !in b.memory && n in Loaded(b.shelf) && Trimmed(Loaded(b.shelf)[n].name.text) == n
                    && Legal(Loaded(b.shelf)[n])
                    && c.memory == b.memory[Loaded(b.shelf)[n].name := Loaded(b.shelf)[n]]))
  {
    CachedIsStocked(b);
  }

  lemma NextKeepsCached(b: Board, op: Op)
    requires Cached(b) && (op.RegisterOp? ==> Legal(op.d))
    ensures Cached(Next(b, op))
  {
    match op {
      case RegisterOp(d) => RegisterIs(b, d);
      case GetOp(q) => AskedKeepsCached(b, q);
      case ListOp => ListedIsNamed(b);
      case ClearOp =>
    }
  }

  lemma AskedKeepsCached(b: Board, q: string)
    requires Cached(b)
    ensures Cached(Asked(b, q))
  {
    AskedIs(b, q);
    NamedMore(b.memory, Asked(b, q).memory, Loaded(b.shelf), Trimmed(q));
  }

  lemma NamedMore(memory: Memory, after: Memory, stored: Memory, n: Name)
    requires Named(memory)
    requires after == memory || (n in stored && Legal(stored[n]) && after == memory[stored[n].name := stored[n]])
    ensures Named(after)
  {}

  lemma AskedAgrees(b: Board, q: string)
    requires Cached(b) && forall n :: Agrees(b.memory, Loaded(b.shelf), n)
    ensures forall n :: Agrees(Asked(b, q).memory, Loaded(b.shelf), n)
  {
    AskedIs(b, q);
    forall n ensures Agrees(Asked(b, q).memory, Loaded(b.shelf), n) {
      assert Agrees(b.memory, Loaded(b.shelf), n);
    }
  }

  lemma ListedAgrees(b: Board)
    requires Cached(b) && forall n :: Agrees(b.memory, Loaded(b.shelf), n)
    ensures forall n :: Agrees(AllListed(b), Loaded(b.shelf), n)
  {
    forall n ensures Agrees(AllListed(b), Loaded(b.shelf), n) {
      assert Agrees(b.memory, Loaded(b.shelf), n);
      ListedAt(b, n);
    }
  }

  lemma NextHidesLoss(b: Board, op: Op)
    requires Cached(b) && LossInvisible(b) && (op.RegisterOp? ==> Legal(op.d) && Blends(b.memory, op.d))
    ensures LossInvisible(Next(b, op))
  {
    if op.RegisterOp? {
      RegisterHidesLossIff(b, op.d);
    } else {
      NextKeepsCached(b, op);
      LossInvisibleIs(b);
      LossInvisibleIs(Next(b, op));
      AskedAgrees(b, if op.GetOp? then op.q else "");
      ListedAgrees(b);
    }
  }

  lemma AskedEchoes(b: Board, q: string)
    requires Cached(b) && forall k :: Echoes(b.memory, Loaded(b.shelf), k)
    ensures forall k :: Echoes(Asked(b, q).memory, Loaded(b.shelf), k)
  {
    AskedIs(b, q);
    forall k ensures Echoes(Asked(b, q).memory, Loaded(b.shelf), k) {
      assert Echoes(b.memory, Loaded(b.shelf), k);
    }
  }

  lemma ListedEchoes(b: Board)
    requires Cached(b) && forall k :: Echoes(b.memory, Loaded(b.shelf), k)
    ensures forall k :: Echoes(AllListed(b), Loaded(b.shelf), k)
  {
    forall k ensures Echoes(AllListed(b), Loaded(b.shelf), k) {
      assert Echoes(b.memory, Loaded(b.shelf), k);
      ListedAt(b, k);
    }
  }

  lemma NextHidesListLoss(b: Board, op: Op)
    requires Cached(b) && ListLossInvisible(b) && (op.RegisterOp? ==> Legal(op.d) && Spells(b.memory, op.d))
    ensures ListLossInvisible(Next(b, op))
  {
    if op.RegisterOp? {
      RegisterHidesListLossIff(b, op.d);
    } else {
      NextKeepsCached(b, op);
      ListLossInvisibleIs(b);
      ListLossInvisibleIs(Next(b, op));
      AskedEchoes(b, if op.GetOp? then op.q else "");
      ListedEchoes(b);
    }
  }

  /** At every point of a run of registrations that blend in, clears, lookups and listings, losing the memory changes
      no looked-up answer. */
  lemma {:induction false} RunHidesLoss(b: Board, ops: seq<Op>)
    requires Cached(b) && LossInvisible(b) && Throughout(b, ops, BLENDS)
    ensures Cached(Run(b, ops)) && LossInvisible(Run(b, ops))
    decreases |ops|
  {
    if ops != [] {
      NextKeepsCached(b, ops[0]);
      NextHidesLoss(b, ops[0]);
      RunHidesLoss(Next(b, ops[0]), ops[1..]);
    }
  }

  /** The same for listings, over runs that never cache two spellings of a name. */
  lemma {:induction false} RunHidesListLoss(b: Board, ops: seq<Op>)
    requires Cached(b) && ListLossInvisible(b) && Throughout(b, ops, SPELLS)
    ensures Cached(Run(b, ops)) && ListLossInvisible(Run(b, ops))
    decreases |ops|
  {
    if ops != [] {
      NextKeepsCached(b, ops[0]);
      NextHidesListLoss(b, ops[0]);
      RunHidesListLoss(Next(b, ops[0]), ops[1..]);
    }
  }

  /** All names are their own trimmed form. */
  ghost predicate AllTidy(b: Board) {
    && Cached(b) && (forall k :: k in b.memory ==> Tidy(k))
    && (forall n :: n in Loaded(b.shelf) ==> Loaded(b.shelf)[n].name == n)
  }

  predicate Proper(op: Op) {
    op.RegisterOp? ==> Legal(op.d) && Profiled(op.d) && Tidy(op.d.name)
  }

  lemma NextKeepsTidy(b: Board, op: Op)
    requires AllTidy(b) && Proper(op)
    ensures AllTidy(Next(b, op))
  {
    NextKeepsCached(b, op);
    CachedIsStocked(b);
    match op {
      case RegisterOp(d) =>
        RegisterIs(b, d);
        RoundTrip(d);
      case GetOp(q) => AskedIs(b, q);
      case ListOp =>
        forall k | k in AllListed(b) ensures Tidy(k) {
          ListedAt(b, k);
        }
      case ClearOp =>
    }
  }

  /** With trimmed names and profiles on all tiles every registration fits, so nothing shows. */
  lemma {:induction false} TidyRunFits(b: Board, ops: seq<Op>)
    requires AllTidy(b) && forall op | op in ops :: Proper(op)
    ensures Throughout(b, ops, BLENDS) && Throughout(b, ops, SPELLS)
    decreases |ops|
  {
    if ops != [] {
      assert ops[0] in ops && forall op | op in ops[1..] :: op in ops;
      NextKeepsTidy(b, ops[0]);
      TidyRunFits(Next(b, ops[0]), ops[1..]);
    }
  }

  lemma HydratedIs(sh: Shelf, k: Name)
    requires Shelved(sh)
    ensures Lookup(Hydrated(map[], Loaded(sh), sh.index), k) == Spelled(Loaded(sh), k)
  {
    CachedIsStocked(Board(map[], sh));
    HydratedAt(map[], Loaded(sh), sh.index, k);
  }

  lemma HydratedIsNamed(sh: Shelf, memory: Memory)
    requires Shelved(sh) && memory == Hydrated(map[], Loaded(sh), sh.index)
    ensures Named(memory)
  {
    CachedIsStocked(Board(map[], sh));
    forall k | k in memory ensures memory[k].name == k && Legal(memory[k]) {
      HydratedIs(sh, k);
    }
  }

  /** Attaching any sound store to an empty memory leaves nothing to lose. */
  lemma AttachHidesLoss(sh: Shelf, memory: Memory)
    requires Shelved(sh) && memory == Hydrated(map[], Loaded(sh), sh.index)
    ensures var b := Board(memory, sh); Cached(b) && LossInvisible(b) && ListLossInvisible(b)
  {
    var b := Board(memory, sh);
    HydratedIsNamed(sh, memory);
    LossInvisibleIs(b);
    ListLossInvisibleIs(b);
    forall k ensures Agrees(memory, Loaded(sh), k) && Echoes(memory, Loaded(sh), k) {
      HydratedIs(sh, k);
    }
  }
}
