/** One client, both stores: the durable store answers as the plain one over every sequential run, restarts included. */
module ProposalRuns {
  import opened Basics
  import opened Texts
  import opened Proposals

  /** heap holds the proposal objects the client and the stores share. */
  datatype World<R> = World(heap: map<R, Draft>, memory: Memory<R>, vault: Vault<R>)

  /** The objects a Get or a List may have to make for records that are not cached come with the call. A Restart is a
      new durable store over the same storage, without its cache. */
  datatype Op<R> =
    | New(ref: R, draft: Draft)
    | Edit(ref: R, draft: Draft)
    | Save(ref: R, now: string)
    | Get(id: Name, now: string, ref: R)
    | Delete(id: Name)
    | List(now: string, refs: seq<R>)
    | Restart

  /** Calls that can be made; an edit leaves the id of the object alone. */
  predicate Enabled<R(==)>(w: World<R>, op: Op<R>) {
    match op
    case New(ref, _) => ref !in w.heap
    case Edit(ref, d) => ref in w.heap && d.id == w.heap[ref].id
    case Save(ref, _) => ref in w.heap
    case Get(_, _, ref) => ref !in w.heap
    case Delete(_) => true
    case List(_, refs) => |refs| == |IndexOf(w.vault.storage)| && Distinct(refs) && forall r | r in refs :: r !in w.heap
    case Restart => true
  }

  /** Does the call concern the id whose key is the key of the index? Ids made by create start with
      "prop-", but get and delete take any text. */
  predicate NamesIndex<R(==)>(w: World<R>, op: Op<R>)
    requires Enabled(w, op)
  {
    match op
    case Save(ref, _) => w.heap[ref].id == INDEX
    case Get(id, _, _) => id == INDEX
    case Delete(id) => id == INDEX
    case _ => false
  }

  /** `save` in both stores of an object whose draft is now d. */
  function Filed<R(==)>(w: World<R>, ref: R, d: Draft): World<R> {
    World(w.heap[ref := d], MemorySave(w.memory, d.id, ref), VaultSave(w.vault, d, ref))
  }

  /** `get` of the durable store: a record that is not cached becomes a new, cached object. */
  function Fetch<R(==)>(w: World<R>, id: Name, now: string, ref: R): World<R> {
    match VaultGet(w.vault, id, now)
    case Load(d) => w.(heap := w.heap[ref := d], vault := w.vault.(cache := w.vault.cache[id := ref]))
    case _ => w
  }

  /** The loop of `list_proposals`: what is not found is dropped from the index. */
  function FetchEach<R(==)>(w: World<R>, ids: seq<Name>, now: string, refs: seq<R>): World<R>
    requires |ids| == |refs|
    decreases |ids|
  {
    if ids == [] then w
    else
      var next := if VaultGet(w.vault, ids[0], now).Missing?
                  then w.(vault := w.vault.(storage := IndexRemove(w.vault.storage, ids[0])))
                  else Fetch(w, ids[0], now, refs[0]);
      FetchEach(next, ids[1..], now, refs[1..])
  }

  function Next<R(==)>(w: World<R>, op: Op<R>): World<R>
    requires Enabled(w, op)
  {
    match op
    case New(ref, d) => w.(heap := w.heap[ref := d])
    case Edit(ref, d) => w.(heap := w.heap[ref := d])
    case Save(ref, now) => Filed(w, ref, w.heap[ref].(updatedAt := now))
    case Get(id, now, ref) => Fetch(w, id, now, ref)
    case Delete(id) => w.(memory := MemoryDelete(w.memory, id).0, vault := VaultDelete(w.vault, id).0)
    case List(now, refs) => FetchEach(w, IndexOf(w.vault.storage), now, refs)
    case Restart => w.(vault := w.vault.(cache := map[]))
  }

  function Run<R(==)>(w: World<R>, ops: seq<Op<R>>): World<R>
    decreases |ops|
  {
    if ops == [] then w else Run(if Enabled(w, ops[0]) then Next(w, ops[0]) else w, ops[1..])
  }

  /** No call of the run names the index. */
  predicate Clean<R(==)>(w: World<R>, ops: seq<Op<R>>)
    decreases |ops|
  {
    ops == [] ||
    if Enabled(w, ops[0]) then !NamesIndex(w, ops[0]) && Clean(Next(w, ops[0]), ops[1..]) else Clean(w, ops[1..])
  }

  ghost predicate Start<R>(w: World<R>) {
    w.memory == Memory([], map[]) && w.vault == Vault(map[], map[])
  }

  // ---------------------------------------------------------------------------
  // The coupling
  // ---------------------------------------------------------------------------

  ghost predicate MemorySound<R>(m: Memory<R>, heap: map<R, Draft>) {
    && Held(m.refs, heap) && INDEX !in m.refs
    && Distinct(m.order) && (forall id :: id in m.order <==> id in m.refs)
  }

  /** Every known proposal has its record, and the index lists exactly the ids whose record was saved
      open, once each. */
  ghost predicate StorageSound(known: set<Name>, storage: map<Name, Stored>) {
    && INDEX !in known && storage.Keys - {INDEX} == known
    && (forall id | id in known :: storage[id].Record? && storage[id].draft.id == id)
    && (INDEX in storage ==> storage[INDEX].Index?)
    && Distinct(IndexOf(storage))
    && (forall id :: id in IndexOf(storage) <==> id in known && storage[id].draft.status == OPEN)
  }

  /** The cache holds some of the known proposals, under their ids. */
  ghost predicate Coupled<R>(w: World<R>) {
    && MemorySound(w.memory, w.heap)
    && Held(w.vault.cache, w.heap) && w.vault.cache.Keys <= w.memory.refs.Keys
    && StorageSound(w.memory.refs.Keys, w.vault.storage)
  }

  /** Without a restart the stores share all their objects. */
  ghost predicate Together<R>(w: World<R>) {
    w.vault.cache == w.memory.refs
  }

  lemma StorageSave(known: set<Name>, storage: map<Name, Stored>, d: Draft)
    requires StorageSound(known, storage) && d.id != INDEX
    ensures var written := storage[d.id := Record(d)];
            StorageSound(known + {d.id}, if d.status == OPEN then IndexAdd(written, d.id) else IndexRemove(written, d.id))
  {
    var written := storage[d.id := Record(d)];
    assert IndexOf(written) == IndexOf(storage);
    WithoutExactly(IndexOf(storage), d.id);
  }

  lemma StorageDelete(known: set<Name>, storage: map<Name, Stored>, id: Name)
    requires StorageSound(known, storage) && id != INDEX
    ensures StorageSound(known - {id}, IndexRemove(storage - {id}, id))
  {
    assert IndexOf(storage - {id}) == IndexOf(storage);
    WithoutExactly(IndexOf(storage), id);
  }

  lemma HeldMore<R>(refs: map<Name, R>, heap: map<R, Draft>, ref: R, d: Draft)
    requires Held(refs, heap) && ref in heap && heap[ref].id == d.id
    ensures Held(refs[d.id := ref], heap[ref := d])
  {}

  lemma MemorySaveSound<R>(m: Memory<R>, heap: map<R, Draft>, ref: R, d: Draft)
    requires MemorySound(m, heap) && ref in heap && heap[ref].id == d.id && d.id != INDEX
    ensures MemorySound(MemorySave(m, d.id, ref), heap[ref := d])
  {
    HeldMore(m.refs, heap, ref, d);
  }

  lemma FiledCoupled<R>(w: World<R>, ref: R, d: Draft)
    requires Coupled(w) && ref in w.heap && d.id == w.heap[ref].id && d.id != INDEX
    ensures Coupled(Filed(w, ref, d))
    ensures Together(w) ==> Together(Filed(w, ref, d))
  {
    MemorySaveSound(w.memory, w.heap, ref, d);
    HeldMore(w.vault.cache, w.heap, ref, d);
    StorageSave(w.memory.refs.Keys, w.vault.storage, d);
    assert Filed(w, ref, d).memory.refs.Keys == w.memory.refs.Keys + {d.id};
  }

  lemma DeleteCoupled<R>(w: World<R>, id: Name)
    requires Coupled(w) && id != INDEX
    ensures Coupled(Next(w, Delete(id)))
    ensures Together(w) ==> Together(Next(w, Delete(id)))
  {
    StorageDelete(w.memory.refs.Keys, w.vault.storage, id);
    WithoutExactly(w.memory.order, id);
    assert Next(w, Delete(id)).memory.refs.Keys == w.memory.refs.Keys - {id};
  }

  /** Exactly the known proposals have records. */
  lemma OnRecord(known: set<Name>, storage: map<Name, Stored>, id: Name)
    requires StorageSound(known, storage) && id != INDEX
    ensures id in storage <==> id in known
    ensures id in known ==> storage[id].Record? && storage[id].draft.id == id
  {
    assert id in storage <==> id in storage.Keys - {INDEX};
  }

  lemma GetIs<R>(w: World<R>, id: Name, now: string)
    requires Coupled(w) && id != INDEX
    ensures VaultGet(w.vault, id, now) ==
            if id in w.vault.cache then Hit(w.vault.cache[id])
            else if id in w.memory.refs then Load(Thaw(w.vault.storage[id].draft, now))
            else Missing
  {
    OnRecord(w.memory.refs.Keys, w.vault.storage, id);
  }

  /** A fetch of a known proposal hits or loads; it changes the cache at that id only, and never the records. */
  lemma FetchIs<R>(w: World<R>, id: Name, now: string, ref: R)
    requires Coupled(w) && ref !in w.heap && id != INDEX
    ensures var t := Fetch(w, id, now, ref);
            && Coupled(t) && t.memory == w.memory && t.vault.storage == w.vault.storage
            && (id in w.memory.refs <==> !VaultGet(w.vault, id, now).Missing?)
            && t == (if id in w.memory.refs && id !in w.vault.cache then Loaded(w, id, now, ref) else w)
            && (Together(w) ==> t == w)
  {
    GetIs(w, id, now);
    if id in w.memory.refs && id !in w.vault.cache {
      LoadedCoupled(w, id, now, ref);
    }
  }

  /** The world after a record was loaded into a new object. */
  function Loaded<R(==)>(w: World<R>, id: Name, now: string, ref: R): World<R>
    requires id in w.vault.storage && w.vault.storage[id].Record?
  {
    w.(heap := w.heap[ref := Thaw(w.vault.storage[id].draft, now)], vault := w.vault.(cache := w.vault.cache[id := ref]))
  }

  lemma LoadedCoupled<R>(w: World<R>, id: Name, now: string, ref: R)
    requires Coupled(w) && ref !in w.heap && id != INDEX && id in w.memory.refs
    requires id in w.vault.storage && w.vault.storage[id].Record?
    ensures Coupled(Loaded(w, id, now, ref))
  {
    OnRecord(w.memory.refs.Keys, w.vault.storage, id);
  }

  /** t has the records of w, and caches at least what w caches. */
  predicate Extends<R(==)>(w: World<R>, t: World<R>) {
    t.memory == w.memory && t.vault.storage == w.vault.storage && forall id | id in w.vault.cache :: id in t.vault.cache
  }

  lemma FetchExtends<R>(w: World<R>, id: Name, now: string, ref: R)
    requires Coupled(w) && ref !in w.heap && id in w.memory.refs
    ensures var t := Fetch(w, id, now, ref);
            && Coupled(t) && Extends(w, t) && id in t.vault.cache && !VaultGet(w.vault, id, now).Missing?
            && (Together(w) ==> t == w) && forall r | r in t.heap :: r in w.heap || r == ref
  {
    FetchIs(w, id, now, ref);
  }

  /** A listing loads what it lists, and drops nothing. */
  lemma {:induction false} FetchEachIs<R>(w: World<R>, ids: seq<Name>, now: string, refs: seq<R>)
    requires Coupled(w) && |ids| == |refs| && Distinct(refs) && forall r | r in refs :: r !in w.heap
    requires forall id | id in ids :: id in w.memory.refs
    ensures var t := FetchEach(w, ids, now, refs);
            && Coupled(t) && Extends(w, t) && (forall id | id in ids :: id in t.vault.cache)
            && (Together(w) ==> t == w)
    decreases |ids|
  {
    if ids != [] {
      var next := Fetch(w, ids[0], now, refs[0]);
      FirstOf(ids);
      FirstOf(refs);
      FetchExtends(w, ids[0], now, refs[0]);
      FetchEachIs(next, ids[1..], now, refs[1..]);
    }
  }

  lemma FirstOf<T>(s: seq<T>)
    requires s != []
    ensures s[0] in s && (forall x :: x in s <==> x == s[0] || x in s[1..])
    ensures Distinct(s) ==> Distinct(s[1..]) && s[0] !in s[1..]
  {
    assert s == [s[0]] + s[1..];
  }

  lemma NextCoupled<R>(w: World<R>, op: Op<R>)
    requires Coupled(w) && Enabled(w, op) && !NamesIndex(w, op)
    ensures Coupled(Next(w, op))
    ensures Together(w) && !op.Restart? ==> Together(Next(w, op))
  {
    match op
    case Save(ref, now) => FiledCoupled(w, ref, w.heap[ref].(updatedAt := now));
    case Delete(id) => DeleteCoupled(w, id);
    case Get(id, now, ref) => FetchIs(w, id, now, ref);
    case List(now, refs) => FetchEachIs(w, IndexOf(w.vault.storage), now, refs);
    case _ =>
  }

  /** Over every clean run, restarts included: every known proposal has its record, the index is what it should be, and
      the cache holds known proposals only; until the first restart it holds the very objects of the plain store. */
  lemma {:induction false} RunCoupled<R>(w: World<R>, ops: seq<Op<R>>)
    requires Coupled(w) && Clean(w, ops)
    ensures Coupled(Run(w, ops))
    ensures Together(w) && Restart !in ops ==> Together(Run(w, ops))
    decreases |ops|
  {
    if ops != [] {
      assert ops == [ops[0]] + ops[1..];
      if Enabled(w, ops[0]) {
        NextCoupled(w, ops[0]);
        RunCoupled(Next(w, ops[0]), ops[1..]);
      } else {
        RunCoupled(w, ops[1..]);
      }
    }
  }

  // ---------------------------------------------------------------------------
  // Answers
  // ---------------------------------------------------------------------------

  /** After any clean run, restarts included, both stores know the same ids and answer delete alike; without a restart
      get even answers with the same object. */
  lemma SameAnswers<R>(w: World<R>, ops: seq<Op<R>>, id: Name, now: string)
    requires Start(w) && Clean(w, ops) && id != INDEX
    ensures var t := Run(w, ops);
            && (if id in t.memory.refs then VaultGet(t.vault, id, now).Hit? || VaultGet(t.vault, id, now).Load?
                else VaultGet(t.vault, id, now).Missing?)
            && VaultDelete(t.vault, id).1 == MemoryDelete(t.memory, id).1
            && (id in t.memory.refs && Restart !in ops ==> VaultGet(t.vault, id, now) == Hit(t.memory.refs[id]))
  {
    RunCoupled(w, ops);
    var t := Run(w, ops);
    OnRecord(t.memory.refs.Keys, t.vault.storage, id);
  }

  /** The rows each store lists; the durable one once everything indexed is cached. */
  ghost function MemoryListing<R>(w: World<R>, flow: Option<Name>, status: Option<string>): seq<Keyed<Row<R>>>
    requires Coupled(w)
  {
    Listing(w.memory.order, w.memory.refs, w.heap, flow, status)
  }

  ghost function VaultListing<R>(w: World<R>, flow: Option<Name>, status: Option<string>): seq<Keyed<Row<R>>>
    requires Coupled(w) && forall id | id in IndexOf(w.vault.storage) :: id in w.vault.cache
  {
    Listing(IndexOf(w.vault.storage), w.vault.cache, w.heap, flow, status)
  }

  /** The status a proposal had when it was last saved. */
  ghost function SavedStatus<R>(w: World<R>, id: Name): string
    requires Coupled(w) && id in w.memory.refs
  {
    w.vault.storage[id].draft.status
  }

  /** Without a restart the listings agree for a filter exactly if no proposal that passes the filter now was last saved
      as something else than open. */
  lemma ListingsAgreeIff<R>(w: World<R>, ops: seq<Op<R>>, flow: Option<Name>, status: Option<string>)
    requires Start(w) && Clean(w, ops) && Restart !in ops
    ensures var t := Run(w, ops);
            && Coupled(t) && Together(t)
            && Sorted(MemoryListing(t, flow, status), true) && Sorted(VaultListing(t, flow, status), true)
            && (multiset(MemoryListing(t, flow, status)) == multiset(VaultListing(t, flow, status)) <==>
                forall id | id in t.memory.refs && Matches(t.heap[t.memory.refs[id]], flow, status) ::
                  SavedStatus(t, id) == OPEN)
  {
    RunCoupled(w, ops);
    var t := Run(w, ops);
    ListingsAgree(t.memory.order, IndexOf(t.vault.storage), t.memory.refs, t.heap, flow, status);
  }

  /** A client that saves after it edits gets equal open listings, under every flow filter. */
  lemma OpenListingsAgree<R>(w: World<R>, ops: seq<Op<R>>, flow: Option<Name>)
    requires Start(w) && Clean(w, ops) && Restart !in ops
    requires var t := Run(w, ops);
             Coupled(t) ==> forall id | id in t.memory.refs :: t.vault.storage[id].draft == t.heap[t.memory.refs[id]]
    ensures var t := Run(w, ops);
            && Coupled(t) && Together(t)
            && multiset(MemoryListing(t, flow, Some(OPEN))) == multiset(VaultListing(t, flow, Some(OPEN)))
  {
    RunCoupled(w, ops);
    ListingsAgreeIff(w, ops, flow, Some(OPEN));
  }

  const EMPTY: World<int> := World(map[], Memory([], map[]), Vault(map[], map[]))
  const COMMITTED: Draft :=
    Draft(Name("prop-1"), 0, "committed", "flow", None, None, None, None, None, None, None, "t0", "t0")
  const SAVED_COMMITTED: seq<Op<int>> := [New(7, COMMITTED), Save(7, "t")]
  const REOPENED: seq<Op<int>> := SAVED_COMMITTED + [Edit(7, COMMITTED.(status := OPEN))]

  lemma SavedCommitted()
    ensures Clean(EMPTY, SAVED_COMMITTED) && Run(EMPTY, SAVED_COMMITTED) == Committed(COMMITTED.(updatedAt := "t"))
  {
    var w := Next(EMPTY, SAVED_COMMITTED[0]);
    var d := COMMITTED.(updatedAt := "t");
    assert SAVED_COMMITTED[1..] == [Save(7, "t")];
    assert Next(w, Save(7, "t")) == Committed(d);
    assert Run(w, [Save(7, "t")]) == Committed(d);
  }

  /** The world with one object, last saved as committed. */
  function Committed(now: Draft): World<int> {
    World(map[7 := now], Memory([Name("prop-1")], map[Name("prop-1") := 7]),
          Vault(map[Name("prop-1") := 7],
                map[Name("prop-1") := Record(COMMITTED.(updatedAt := "t")), INDEX := Index([])]))
  }

  /** A listing without a status filter: the plain store shows a committed proposal, the durable one does not. */
  lemma CommittedIsNotListed()
    ensures Clean(EMPTY, SAVED_COMMITTED)
    ensures var t := Run(EMPTY, SAVED_COMMITTED);
            && Coupled(t) && Together(t)
            && multiset(MemoryListing(t, None, None)) != multiset(VaultListing(t, None, None))
  {
    SavedCommitted();
    ListingsAgreeIff(EMPTY, SAVED_COMMITTED, None, None);
    assert Name("prop-1") in Run(EMPTY, SAVED_COMMITTED).memory.refs;
  }

  /** A listing of open proposals: an edit back to open that was not saved shows in the plain store only. */
  lemma ReopenedIsNotListed()
    ensures Clean(EMPTY, REOPENED)
    ensures var t := Run(EMPTY, REOPENED);
            && Coupled(t) && Together(t)
            && multiset(MemoryListing(t, None, Some(OPEN))) != multiset(VaultListing(t, None, Some(OPEN)))
  {
    var edit := Edit(7, COMMITTED.(status := OPEN));
    SavedCommitted();
    RunConcat(EMPTY, SAVED_COMMITTED, [edit]);
    assert Run(Run(EMPTY, SAVED_COMMITTED), [edit]) == Committed(COMMITTED.(status := OPEN));
    ListingsAgreeIff(EMPTY, REOPENED, None, Some(OPEN));
    assert Name("prop-1") in Run(EMPTY, REOPENED).memory.refs;
  }

  lemma {:induction false} RunConcat<R>(w: World<R>, a: seq<Op<R>>, b: seq<Op<R>>)
    ensures Run(w, a + b) == Run(Run(w, a), b)
    ensures Clean(w, a + b) <==> Clean(w, a) && Clean(Run(w, a), b)
    decreases |a|
  {
    if a == [] {
      assert a + b == b;
    } else {
      assert (a + b)[0] == a[0] && (a + b)[1..] == a[1..] + b;
      RunConcat(if Enabled(w, a[0]) then Next(w, a[0]) else w, a[1..], b);
    }
  }

  /** Does the run save or delete anything? */
  predicate Writes<R(==)>(w: World<R>, ops: seq<Op<R>>)
    decreases |ops|
  {
    ops != [] &&
    if Enabled(w, ops[0]) then ops[0].Save? || ops[0].Delete? || Writes(Next(w, ops[0]), ops[1..]) else Writes(w, ops[1..])
  }

  /** The index is written by the first save or delete, and is never removed. */
  lemma {:induction false} IndexedIff<R>(w: World<R>, ops: seq<Op<R>>)
    requires Coupled(w) && Clean(w, ops)
    ensures INDEX in Run(w, ops).vault.storage <==> INDEX in w.vault.storage || Writes(w, ops)
    decreases |ops|
  {
    if ops != [] {
      if Enabled(w, ops[0]) {
        NextCoupled(w, ops[0]);
        NextIndexed(w, ops[0]);
        IndexedIff(Next(w, ops[0]), ops[1..]);
      } else {
        IndexedIff(w, ops[1..]);
      }
    }
  }

  lemma NextIndexed<R>(w: World<R>, op: Op<R>)
    requires Coupled(w) && Enabled(w, op) && !NamesIndex(w, op)
    ensures INDEX in Next(w, op).vault.storage <==> INDEX in w.vault.storage || op.Save? || op.Delete?
  {
    match op
    case Get(id, now, ref) => FetchIs(w, id, now, ref);
    case List(now, refs) => FetchEachIs(w, IndexOf(w.vault.storage), now, refs);
    case _ =>
  }

  /** At the id of the index itself both stores answer get and delete alike exactly as long as nothing was saved or
      deleted: from then on the plain store knows no such proposal, and the durable one finds its index there. */
  lemma IndexAnswersAgreeIff<R>(w: World<R>, ops: seq<Op<R>>, now: string)
    requires Start(w) && Clean(w, ops)
    ensures var t := Run(w, ops);
            && INDEX !in t.memory.refs && !MemoryDelete(t.memory, INDEX).1
            && (VaultGet(t.vault, INDEX, now).Missing? && !VaultDelete(t.vault, INDEX).1 <==> !Writes(w, ops))
            && (Writes(w, ops) ==> VaultGet(t.vault, INDEX, now).Malformed? && VaultDelete(t.vault, INDEX).1)
  {
    RunCoupled(w, ops);
    IndexedIff(w, ops);
  }

  /** The id of the index itself is where the stores part: with an index in storage and nothing cached
      under that id, get fails on the list it finds instead of answering not found. */
  lemma IndexIdMalformed<R>(v: Vault<R>, now: string)
    requires INDEX !in v.cache && INDEX in v.storage && v.storage[INDEX].Index?
    ensures VaultGet(v, INDEX, now) == Malformed
    ensures VaultDelete(v, INDEX).1 && IndexOf(VaultDelete(v, INDEX).0.storage) == []
  {}

  // ---------------------------------------------------------------------------
  // Restarts
  // ---------------------------------------------------------------------------

  /** Losing the cache: get then answers with the draft as last saved, and so with the old answer
      exactly if the object has no unsaved edits; all provided the saved texts are not empty. */
  lemma RestartKeepsGet<R>(w: World<R>, ops: seq<Op<R>>, id: Name, now: string)
    requires Start(w) && Clean(w, ops) && id != INDEX && now != ""
    ensures var t := Run(w, ops);
            var answer := VaultGet(t.vault.(cache := map[]), id, now);
            && Coupled(t)
            && (id !in t.memory.refs <==> answer.Missing?)
            && (id in t.memory.refs ==>
                  var saved := t.vault.storage[id].draft;
                  answer == Load(Thaw(saved, now)) && (answer == Load(saved) <==> Solid(saved)))
  {
    RunCoupled(w, ops);
    var t := Run(w, ops);
    OnRecord(t.memory.refs.Keys, t.vault.storage, id);
    if id in t.memory.refs {
      ThawInverts(t.vault.storage[id].draft, now);
    }
  }

  /** The objects filed under ids are as their records. */
  ghost predicate SavedIn<R>(refs: map<Name, R>, heap: map<R, Draft>, storage: map<Name, Stored>) {
    forall id | id in refs ::
      refs[id] in heap && id in storage && storage[id].Record? && heap[refs[id]] == storage[id].draft && Solid(storage[id].draft)
  }

  /** No object of a store has edits that were not saved, and every record gives back what was written. */
  ghost predicate AllSaved<R>(w: World<R>) {
    SavedIn(w.memory.refs, w.heap, w.vault.storage) && SavedIn(w.vault.cache, w.heap, w.vault.storage)
  }

  /** A client that saves each object right after it edits it, and saves complete drafts at real times. */
  predicate Careful<R(==)>(w: World<R>, ops: seq<Op<R>>)
    decreases |ops|
  {
    if ops == [] then true
    else if !Enabled(w, ops[0]) then Careful(w, ops[1..])
    else
      var next := Next(w, ops[0]);
      match ops[0]
      case Edit(ref, d) =>
        && |ops| > 1 && ops[1].Save? && ops[1].ref == ref && Solid(d.(updatedAt := ops[1].now))
        && Careful(Next(next, ops[1]), ops[2..])
      case Save(ref, now) => Solid(w.heap[ref].(updatedAt := now)) && Careful(next, ops[1..])
      case Get(_, now, _) => now != "" && Careful(next, ops[1..])
      case List(now, _) => now != "" && Careful(next, ops[1..])
      case _ => Careful(next, ops[1..])
  }

  /** What was filed under another id is another object, so filing leaves it saved. */
  lemma SavedMore<R>(refs: map<Name, R>, heap: map<R, Draft>, before: map<Name, Stored>, after: map<Name, Stored>, ref: R, d: Draft)
    requires Held(refs, heap) && SavedIn(refs, heap, before) && ref in heap && heap[ref].id == d.id && Solid(d)
    requires d.id in after && after[d.id] == Record(d)
    requires forall id | id in refs && id != d.id :: id in after && after[id] == before[id]
    ensures SavedIn(refs[d.id := ref], heap[ref := d], after)
  {}

  lemma FiledKeepsAllSaved<R>(w: World<R>, ref: R, d: Draft)
    requires Coupled(w) && AllSaved(w) && ref in w.heap && d.id == w.heap[ref].id && d.id != INDEX && Solid(d)
    ensures Coupled(Filed(w, ref, d)) && AllSaved(Filed(w, ref, d))
  {
    FiledCoupled(w, ref, d);
    FiledRecords(w, ref, d);
    SavedMore(w.memory.refs, w.heap, w.vault.storage, Filed(w, ref, d).vault.storage, ref, d);
    SavedMore(w.vault.cache, w.heap, w.vault.storage, Filed(w, ref, d).vault.storage, ref, d);
  }

  lemma FiledRecords<R>(w: World<R>, ref: R, d: Draft)
    requires Coupled(w) && d.id != INDEX
    ensures var storage := Filed(w, ref, d).vault.storage;
            && d.id in storage && storage[d.id] == Record(d)
            && forall id | id in w.memory.refs && id != d.id :: id in storage && storage[id] == w.vault.storage[id]
  {
    forall id | id in w.memory.refs ensures id in w.vault.storage && id != INDEX {
      assert id in w.vault.storage.Keys - {INDEX};
    }
  }

  lemma EditThenSave<R>(w: World<R>, ref: R, d: Draft, now: string)
    requires ref in w.heap && d.id == w.heap[ref].id
    ensures Next(Next(w, Edit(ref, d)), Save(ref, now)) == Filed(w, ref, d.(updatedAt := now))
  {
    assert w.heap[ref := d][ref := d.(updatedAt := now)] == w.heap[ref := d.(updatedAt := now)];
  }

  lemma EditSaveKeepsAllSaved<R>(w: World<R>, ref: R, d: Draft, now: string)
    requires Coupled(w) && AllSaved(w) && ref in w.heap && d.id == w.heap[ref].id && d.id != INDEX
    requires Solid(d.(updatedAt := now))
    ensures var t := Next(Next(w, Edit(ref, d)), Save(ref, now)); Coupled(t) && AllSaved(t)
  {
    EditThenSave(w, ref, d, now);
    FiledKeepsAllSaved(w, ref, d.(updatedAt := now));
  }

  lemma LoadedKeepsAllSaved<R>(w: World<R>, id: Name, now: string, ref: R)
    requires Coupled(w) && AllSaved(w) && ref !in w.heap && id != INDEX && id in w.memory.refs && now != ""
    requires id in w.vault.storage && w.vault.storage[id].Record?
    ensures Coupled(Loaded(w, id, now, ref)) && AllSaved(Loaded(w, id, now, ref))
  {
    var d := w.vault.storage[id].draft;
    LoadedCoupled(w, id, now, ref);
    ThawInverts(d, now);
    SavedElsewhere(w.memory.refs, w.heap, w.vault.storage, ref, d);
    SavedElsewhere(w.vault.cache, w.heap, w.vault.storage, ref, d);
  }

  /** A new object changes nothing for the others. */
  lemma SavedElsewhere<R>(refs: map<Name, R>, heap: map<R, Draft>, storage: map<Name, Stored>, ref: R, d: Draft)
    requires SavedIn(refs, heap, storage) && ref !in heap
    ensures SavedIn(refs, heap[ref := d], storage)
  {}

  lemma FetchKeepsAllSaved<R>(w: World<R>, id: Name, now: string, ref: R)
    requires Coupled(w) && AllSaved(w) && ref !in w.heap && id != INDEX && now != ""
    ensures Coupled(Fetch(w, id, now, ref)) && AllSaved(Fetch(w, id, now, ref))
  {
    FetchIs(w, id, now, ref);
    OnRecord(w.memory.refs.Keys, w.vault.storage, id);
    if id in w.memory.refs && id !in w.vault.cache {
      LoadedKeepsAllSaved(w, id, now, ref);
    }
  }

  lemma {:induction false} FetchEachKeepsAllSaved<R>(w: World<R>, ids: seq<Name>, now: string, refs: seq<R>)
    requires Coupled(w) && AllSaved(w) && now != ""
    requires |ids| == |refs| && Distinct(refs) && forall r | r in refs :: r !in w.heap
    requires forall id | id in ids :: id in w.memory.refs
    ensures Coupled(FetchEach(w, ids, now, refs)) && AllSaved(FetchEach(w, ids, now, refs))
    decreases |ids|
  {
    if ids != [] {
      var next := Fetch(w, ids[0], now, refs[0]);
      FirstOf(ids);
      FirstOf(refs);
      FetchExtends(w, ids[0], now, refs[0]);
      FetchKeepsAllSaved(w, ids[0], now, refs[0]);
      FetchEachKeepsAllSaved(next, ids[1..], now, refs[1..]);
    }
  }

  lemma NextKeepsAllSaved<R>(w: World<R>, op: Op<R>)
    requires Coupled(w) && AllSaved(w) && Enabled(w, op) && !NamesIndex(w, op) && !op.Edit?
    requires op.Save? ==> Solid(w.heap[op.ref].(updatedAt := op.now))
    requires op.Get? || op.List? ==> op.now != ""
    ensures Coupled(Next(w, op)) && AllSaved(Next(w, op))
  {
    match op
    case Save(ref, now) => FiledKeepsAllSaved(w, ref, w.heap[ref].(updatedAt := now));
    case Get(id, now, ref) => FetchKeepsAllSaved(w, id, now, ref);
    case List(now, refs) => FetchEachKeepsAllSaved(w, IndexOf(w.vault.storage), now, refs);
    case Delete(id) => DeleteCoupled(w, id);
    case _ => NextCoupled(w, op);
  }

  lemma {:induction false} CarefulRunIsSaved<R>(w: World<R>, ops: seq<Op<R>>)
    requires Coupled(w) && AllSaved(w) && Clean(w, ops) && Careful(w, ops)
    ensures Coupled(Run(w, ops)) && AllSaved(Run(w, ops))
    decreases |ops|
  {
    if ops != [] {
      if !Enabled(w, ops[0]) {
        CarefulRunIsSaved(w, ops[1..]);
      } else if ops[0].Edit? {
        var next := Next(w, ops[0]);
        assert ops[1..][0] == ops[1] && ops[1..][1..] == ops[2..];
        EditSaveKeepsAllSaved(w, ops[0].ref, ops[0].draft, ops[1].now);
        CarefulRunIsSaved(Next(next, ops[1]), ops[2..]);
      } else {
        NextKeepsAllSaved(w, ops[0]);
        CarefulRunIsSaved(Next(w, ops[0]), ops[1..]);
      }
    }
  }

  /** The draft an answer of the durable store shows. */
  ghost function Shown<R>(w: World<R>, answer: Lookup<R>): Option<Draft> {
    match answer
    case Hit(ref) => if ref in w.heap then Some(w.heap[ref]) else None
    case Load(d) => Some(d)
    case _ => None
  }

  /** After any careful run, with restarts wherever they come, get shows the draft that the plain store would show, and
      a listing of the open proposals under any flow filter shows the same drafts, in non-increasing update time. */
  lemma RestartsAreInvisible<R>(w: World<R>, ops: seq<Op<R>>, id: Name, flow: Option<Name>, now: string, refs: seq<R>)
    requires Start(w) && Clean(w, ops) && Careful(w, ops) && id != INDEX && now != ""
    requires Enabled(Run(w, ops), List(now, refs))
    ensures var t := Run(w, ops);
            var listed := Next(t, List(now, refs));
            && Coupled(t) && Coupled(listed)
            && Shown(t, VaultGet(t.vault, id, now)) == (if id in t.memory.refs then Some(t.heap[t.memory.refs[id]]) else None)
            && (forall i | i in IndexOf(listed.vault.storage) :: i in listed.vault.cache)
            && Sorted(Bare(VaultListing(listed, flow, Some(OPEN))), true)
            && multiset(Bare(VaultListing(listed, flow, Some(OPEN)))) == multiset(Bare(MemoryListing(t, flow, Some(OPEN))))
  {
    CarefulRunIsSaved(w, ops);
    var t := Run(w, ops);
    ShownIsSaved(t, id, now);
    OpenListingIsSaved(t, flow, now, refs);
  }

  lemma ShownIsSaved<R>(t: World<R>, id: Name, now: string)
    requires Coupled(t) && AllSaved(t) && id != INDEX && now != ""
    ensures Shown(t, VaultGet(t.vault, id, now)) == if id in t.memory.refs then Some(t.heap[t.memory.refs[id]]) else None
  {
    OnRecord(t.memory.refs.Keys, t.vault.storage, id);
    if id in t.memory.refs {
      ThawInverts(t.vault.storage[id].draft, now);
    }
  }

  /** A listing of the durable store shows the saved drafts of the indexed ids, whatever was cached before. */
  lemma ListingIsSaved<R>(t: World<R>, flow: Option<Name>, status: Option<string>, now: string, refs: seq<R>)
    requires Coupled(t) && AllSaved(t) && now != "" && Enabled(t, List(now, refs))
    ensures var listed := Next(t, List(now, refs));
            && Coupled(listed) && IndexOf(listed.vault.storage) == IndexOf(t.vault.storage)
            && (forall i | i in IndexOf(listed.vault.storage) :: i in listed.vault.cache)
            && Bare(VaultListing(listed, flow, status)) ==
               Sort(Bare(Rows(IndexOf(t.vault.storage), t.memory.refs, t.heap, flow, status)), true)
  {
    var ids := IndexOf(t.vault.storage);
    var listed := Next(t, List(now, refs));
    FetchEachIs(t, ids, now, refs);
    FetchEachKeepsAllSaved(t, ids, now, refs);
    SavedRows(t, listed, ids, flow, status);
    BareSort(Rows(ids, listed.vault.cache, listed.heap, flow, status), true);
  }

  lemma SavedRows<R>(t: World<R>, listed: World<R>, ids: seq<Name>, flow: Option<Name>, status: Option<string>)
    requires Coupled(t) && AllSaved(t) && Coupled(listed) && AllSaved(listed)
    requires listed.vault.storage == t.vault.storage
    requires forall id | id in ids :: id in t.memory.refs && id in listed.vault.cache
    ensures Bare(Rows(ids, listed.vault.cache, listed.heap, flow, status)) == Bare(Rows(ids, t.memory.refs, t.heap, flow, status))
  {
    BareRows(ids, listed.vault.cache, listed.heap, t.memory.refs, t.heap, flow, status);
  }

  lemma OpenListingIsSaved<R>(t: World<R>, flow: Option<Name>, now: string, refs: seq<R>)
    requires Coupled(t) && AllSaved(t) && now != "" && Enabled(t, List(now, refs))
    ensures var listed := Next(t, List(now, refs));
            && Coupled(listed)
            && (forall i | i in IndexOf(listed.vault.storage) :: i in listed.vault.cache)
            && Sorted(Bare(VaultListing(listed, flow, Some(OPEN))), true)
            && multiset(Bare(VaultListing(listed, flow, Some(OPEN)))) == multiset(Bare(MemoryListing(t, flow, Some(OPEN))))
  {
    var ids := IndexOf(t.vault.storage);
    ListingIsSaved(t, flow, Some(OPEN), now, refs);
    SortSorts(Bare(Rows(ids, t.memory.refs, t.heap, flow, Some(OPEN))), true);
    BareSort(Rows(ids, t.memory.refs, t.heap, flow, Some(OPEN)), true);
    ListingsAgree(t.memory.order, ids, t.memory.refs, t.heap, flow, Some(OPEN));
    BareSame(Listing(t.memory.order, t.memory.refs, t.heap, flow, Some(OPEN)),
             Listing(ids, t.memory.refs, t.heap, flow, Some(OPEN)));
  }

  /** A restart changes no listing: the same drafts in the same order, for every filter, as if there had been none. */
  lemma RestartKeepsListing<R>(w: World<R>, ops: seq<Op<R>>, flow: Option<Name>, status: Option<string>, now: string, refs: seq<R>)
    requires Start(w) && Clean(w, ops) && Careful(w, ops) && now != ""
    requires Enabled(Run(w, ops), List(now, refs))
    ensures var t := Run(w, ops);
            var listed, again := Next(t, List(now, refs)), Next(Next(t, Restart), List(now, refs));
            && Coupled(listed) && (forall i | i in IndexOf(listed.vault.storage) :: i in listed.vault.cache)
            && Coupled(again) && (forall i | i in IndexOf(again.vault.storage) :: i in again.vault.cache)
            && Bare(VaultListing(again, flow, status)) == Bare(VaultListing(listed, flow, status))
  {
    CarefulRunIsSaved(w, ops);
    var t := Run(w, ops);
    ListingIsSaved(t, flow, status, now, refs);
    NextKeepsAllSaved(t, Restart);
    ListingIsSaved(Next(t, Restart), flow, status, now, refs);
  }

  /** The same rows show the same drafts. */
  lemma {:induction false} BareSame<R>(a: seq<Keyed<Row<R>>>, b: seq<Keyed<Row<R>>>)
    requires multiset(a) == multiset(b)
    ensures multiset(Bare(a)) == multiset(Bare(b))
    decreases |a|
  {
    if a == [] {
      assert |multiset(b)| == 0;
    } else {
      var k, restA, restB := TakeFirst(a, b);
      BareSame(restA, restB);
      BarePull(a, 0);
      BarePull(b, k);
    }
  }

  lemma BarePull<R>(a: seq<Keyed<Row<R>>>, k: nat)
    requires k < |a|
    ensures multiset(Bare(a)) == multiset{Keyed(a[k].key, a[k].row.draft)} + multiset(Bare(a[..k] + a[k + 1..]))
  {
    assert Bare(a) == Bare(a[..k]) + ([Keyed(a[k].key, a[k].row.draft)] + Bare(a[k + 1..]));
    assert Bare(a[..k] + a[k + 1..]) == Bare(a[..k]) + Bare(a[k + 1..]);
  }

  /** Update times and drafts of rows, without the objects they come from. */
  ghost function Bare<R>(rows: seq<Keyed<Row<R>>>): (r: seq<Keyed<Draft>>)
    ensures |r| == |rows|
  {
    seq(|rows|, i requires 0 <= i < |rows| => Keyed(rows[i].key, rows[i].row.draft))
  }

  lemma {:induction false} BareInsert<R>(x: Keyed<Row<R>>, s: seq<Keyed<Row<R>>>, descending: bool)
    ensures Bare(Insert(x, s, descending)) == Insert(Keyed(x.key, x.row.draft), Bare(s), descending)
  {
    if s != [] {
      assert Bare(s)[1..] == Bare(s[1..]);
      BareInsert(x, s[1..], descending);
      var rest := Insert(x, s[1..], descending);
      assert Bare([s[0]] + rest) == [Keyed(s[0].key, s[0].row.draft)] + Bare(rest);
      assert Bare([x] + s) == [Keyed(x.key, x.row.draft)] + Bare(s);
    }
  }

  lemma {:induction false} BareSort<R>(s: seq<Keyed<Row<R>>>, descending: bool)
    ensures Bare(Sort(s, descending)) == Sort(Bare(s), descending)
  {
    if s != [] {
      assert Bare(s)[1..] == Bare(s[1..]);
      BareSort(s[1..], descending);
      BareInsert(s[0], Sort(s[1..], descending), descending);
    }
  }

  lemma BareAppend<R>(x: Keyed<Row<R>>, s: seq<Keyed<Row<R>>>)
    ensures Bare([x] + s) == [Keyed(x.key, x.row.draft)] + Bare(s)
  {}

  lemma {:induction false} BareRows<R>(ids: seq<Name>, refs: map<Name, R>, heap: map<R, Draft>,
                                       refs': map<Name, R>, heap': map<R, Draft>,
                                       flow: Option<Name>, status: Option<string>)
    requires Held(refs, heap) && Held(refs', heap')
    requires forall id | id in ids :: id in refs && id in refs' && heap[refs[id]] == heap'[refs'[id]]
    ensures Bare(Rows(ids, refs, heap, flow, status)) == Bare(Rows(ids, refs', heap', flow, status))
  {
    if ids != [] {
      BareRows(ids[1..], refs, heap, refs', heap', flow, status);
      var d := heap[refs[ids[0]]];
      if Matches(d, flow, status) {
        BareAppend(Keyed(d.updatedAt, Row(refs[ids[0]], d)), Rows(ids[1..], refs, heap, flow, status));
        BareAppend(Keyed(d.updatedAt, Row(refs'[ids[0]], d)), Rows(ids[1..], refs', heap', flow, status));
      }
    }
  }
}
