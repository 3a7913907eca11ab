/** The two proposal repositories as objects over shared, mutable proposals. */
module ProposalStores {
  import opened Basics
  import opened Texts
  import opened Proposals

  class Proposal {
    var draft: Draft

    constructor (draft: Draft)
      ensures this.draft == draft
    {
      this.draft := draft;
    }
  }

  ghost function HeapOf(objects: set<Proposal>): map<Proposal, Draft>
    reads objects
  {
    map p | p in objects :: p.draft
  }

  /** `a or b` on optional ids. */
  function OrElse(a: Option<Name>, b: Option<Name>): Option<Name> {
    if a.Some? && a.value.text != "" then a else b
  }

  /** What create fills in around a body. */
  function Initial(id: Name, body: Value, kind: string, baseFlow: Option<Name>, flow: Option<Name>,
                   baseResource: Option<Name>, resource: Option<Name>, now: string): Draft {
    Draft(id, body, OPEN, kind, baseFlow, OrElse(flow, baseFlow), baseResource, OrElse(resource, baseResource),
          None, None, None, now, now)
  }

  /** The rows of proposals, in the order given. */
  function RowsOf(ps: seq<Proposal>, flow: Option<Name>, status: Option<string>): seq<Keyed<Row<Proposal>>>
    reads set p | p in ps
  {
    if ps == [] then []
    else
      var rest := RowsOf(ps[1..], flow, status);
      if Matches(ps[0].draft, flow, status) then [Keyed(ps[0].draft.updatedAt, Row(ps[0], ps[0].draft))] + rest else rest
  }

  method SortedRows(ps: seq<Proposal>, flow: Option<Name>, status: Option<string>) returns (rows: seq<Keyed<Row<Proposal>>>)
    ensures rows == Sort(RowsOf(ps, flow, status), true)
  {
    var kept: seq<Keyed<Row<Proposal>>> := [];
    var k := |ps|;
    while k > 0
      invariant 0 <= k <= |ps|
      invariant kept == RowsOf(ps[k..], flow, status)
    {
      k := k - 1;
      if Matches(ps[k].draft, flow, status) {
        kept := [Keyed(ps[k].draft.updatedAt, Row(ps[k], ps[k].draft))] + kept;
      }
      assert ps[k..][1..] == ps[k + 1..];
    }
    assert ps[0..] == ps;
    rows := Sort(kept, true);
  }

  lemma {:induction false} SameRows(ps: seq<Proposal>, ids: seq<Name>, refs: map<Name, Proposal>,
                                    heap: map<Proposal, Draft>, flow: Option<Name>, status: Option<string>)
    requires Held(refs, heap) && (forall id | id in ids :: id in refs) && |ps| == |ids|
    requires forall k | 0 <= k < |ids| :: ps[k] == refs[ids[k]]
    requires forall p | p in heap :: heap[p] == p.draft
    ensures RowsOf(ps, flow, status) == Rows(ids, refs, heap, flow, status)
  {
    if ids != [] {
      SameRows(ps[1..], ids[1..], refs, heap, flow, status);
    }
  }

  class MemoryRepository {
    var order: seq<Name>
    var refs: map<Name, Proposal>

    constructor ()
      ensures Valid() && order == [] && refs == map[]
    {
      order, refs := [], map[];
    }

    ghost predicate Valid()
      reads this`order, this`refs, refs.Values`draft
    {
      && (forall id | id in refs :: refs[id].draft.id == id)
      && Distinct(order) && (forall id :: id in order <==> id in refs)
    }

    ghost function View(): Memory<Proposal>
      reads this
    {
      Memory(order, refs)
    }

    method Create(id: Name, body: Value, kind: string, baseFlow: Option<Name>, flow: Option<Name>,
                  baseResource: Option<Name>, resource: Option<Name>, made: string, now: string) returns (p: Proposal)
      requires Valid()
      modifies this
      ensures Valid() && fresh(p)
      ensures p.draft == Initial(id, body, kind, baseFlow, flow, baseResource, resource, made).(updatedAt := now)
      ensures p.draft == Draft(id, body, "open", kind,
                baseFlow, if flow.None? || flow == Some(Name("")) then baseFlow else flow,
                baseResource, if resource.None? || resource == Some(Name("")) then baseResource else resource,
                None, None, None, made, now)
      ensures View() == MemorySave(old(View()), id, p)
    {
      p := new Proposal(Initial(id, body, kind, baseFlow, flow, baseResource, resource, made));
      Save(p, now);
    }

    method Save(p: Proposal, now: string)
      requires Valid()
      modifies this, p
      ensures Valid()
      ensures p.draft == old(p.draft).(updatedAt := now)
      ensures View() == MemorySave(old(View()), p.draft.id, p)
      ensures refs == old(refs)[p.draft.id := p]
      ensures order == if p.draft.id in old(refs) then old(order) else old(order) + [p.draft.id]
    {
      p.draft := p.draft.(updatedAt := now);
      if p.draft.id !in refs {
        order := order + [p.draft.id];
      }
      refs := refs[p.draft.id := p];
    }

    method Get(id: Name) returns (p: Option<Proposal>)
      ensures p == if id in refs then Some(refs[id]) else None
    {
      if id !in refs {
        return None;
      }
      p := Some(refs[id]);
    }

    method Delete(id: Name) returns (existed: bool)
      requires Valid()
      modifies this
      ensures Valid() && (View(), existed) == MemoryDelete(old(View()), id)
      ensures (existed <==> id in old(refs)) && refs == old(refs) - {id}
    {
      WithoutExactly(order, id);
      existed := id in refs;
      order, refs := Without(order, id), refs - {id};
      assert refs.Values <= old(refs.Values);
    }

    method List(flow: Option<Name>, status: Option<string>) returns (rows: seq<Keyed<Row<Proposal>>>)
      requires Valid()
      ensures Held(refs, HeapOf(refs.Values))
      ensures rows == Listing(order, refs, HeapOf(refs.Values), flow, status)
      // A row for every id held whose flow or base flow, and whose status, are the ones asked for.
      ensures forall r | r in rows ::
                && r.row.draft == r.row.ref.draft && r.key == r.row.draft.updatedAt
                && r.row.draft.id in refs && refs[r.row.draft.id] == r.row.ref
                && (flow.None? || r.row.draft.flowId == flow || r.row.draft.baseFlowId == flow)
                && (status.None? || Some(r.row.draft.status) == status)
      ensures forall id | id in refs ::
                (flow.None? || refs[id].draft.flowId == flow || refs[id].draft.baseFlowId == flow)
                && (status.None? || Some(refs[id].draft.status) == status)
                ==> Keyed(refs[id].draft.updatedAt, Row(refs[id], refs[id].draft)) in rows
      ensures forall i, j | 0 <= i < j < |rows| :: rows[i].row.ref != rows[j].row.ref && AtMost(rows[j].key, rows[i].key)
    {
      rows := FilteredAndSorted(flow, status);
      ListingIs(order, refs, HeapOf(refs.Values), flow, status, rows);
    }

    /** The body of a listing. */
    method FilteredAndSorted(flow: Option<Name>, status: Option<string>) returns (rows: seq<Keyed<Row<Proposal>>>)
      requires Valid()
      ensures Held(refs, HeapOf(refs.Values))
      ensures rows == Listing(order, refs, HeapOf(refs.Values), flow, status)
    {
      assert Held(refs, HeapOf(refs.Values));
      var ps := seq(|order|, k requires 0 <= k < |order| && order[k] in refs reads this => refs[order[k]]);
      SameRows(ps, order, refs, HeapOf(refs.Values), flow, status);
      rows := SortedRows(ps, flow, status);
    }
  }

  datatype Fetched = Present(proposal: Proposal) | NotFound | BadRecord

  class StorageRepository {
    var cache: map<Name, Proposal>
    var storage: map<Name, Stored>

    /** A repository over existing storage starts with an empty cache. */
    constructor (storage: map<Name, Stored>)
      ensures cache == map[] && this.storage == storage
    {
      cache, this.storage := map[], storage;
    }

    ghost function View(): Vault<Proposal>
      reads this
    {
      Vault(cache, storage)
    }

    /** Cached objects and records carry the id they are filed under. */
    ghost predicate Valid()
      reads this`cache, this`storage, cache.Values`draft
    {
      && (forall id | id in cache :: cache[id].draft.id == id)
      && (forall id | id in storage && id != INDEX :: storage[id].Record? && storage[id].draft.id == id)
      && (INDEX in storage ==> storage[INDEX].Index?) && INDEX !in IndexOf(storage) && INDEX !in cache
    }

    method Create(id: Name, body: Value, kind: string, baseFlow: Option<Name>, flow: Option<Name>,
                  baseResource: Option<Name>, resource: Option<Name>, made: string, now: string) returns (p: Proposal)
      requires Valid()
      modifies this
      ensures id != INDEX ==> Valid()
      ensures fresh(p)
      ensures p.draft == Initial(id, body, kind, baseFlow, flow, baseResource, resource, made).(updatedAt := now)
      ensures p.draft == Draft(id, body, "open", kind,
                baseFlow, if flow.None? || flow == Some(Name("")) then baseFlow else flow,
                baseResource, if resource.None? || resource == Some(Name("")) then baseResource else resource,
                None, None, None, made, now)
      ensures View() == VaultSave(old(View()), p.draft, p)
    {
      p := new Proposal(Initial(id, body, kind, baseFlow, flow, baseResource, resource, made));
      Save(p, now);
    }

    /** A proposal whose id is that of the index overwrites the index with its record, and then with an index again. */
    method Save(p: Proposal, now: string)
      requires Valid()
      modifies this, p
      ensures p.draft.id != INDEX ==> Valid()
      ensures p.draft == old(p.draft).(updatedAt := now)
      ensures View() == VaultSave(old(View()), p.draft, p)
      ensures cache == old(cache)[p.draft.id := p]
      ensures p.draft.id != INDEX ==> storage - {INDEX} == old(storage)[p.draft.id := Record(p.draft)] - {INDEX}
      ensures p.draft.id != INDEX ==> forall x :: x in IndexOf(storage) <==>
                if x == p.draft.id then p.draft.status == "open" else x in old(IndexOf(storage))
    {
      WithoutExactly(IndexOf(storage), p.draft.id);
      p.draft := p.draft.(updatedAt := now);
      cache := cache[p.draft.id := p];
      storage := storage[p.draft.id := Record(p.draft)];
      if p.draft.status == OPEN {
        if p.draft.id !in IndexOf(storage) {
          storage := storage[INDEX := Index(IndexOf(storage) + [p.draft.id])];
        }
      } else {
        storage := storage[INDEX := Index(Without(IndexOf(storage), p.draft.id))];
      }
    }

    /** A record read from storage becomes a new object, which is then the cached one. */
    method Get(id: Name, now: string) returns (r: Fetched)
      requires Valid()
      modifies this`cache
      ensures Valid()
      ensures match VaultGet(old(View()), id, now)
              case Hit(p) => r == Present(p) && View() == old(View())
              case Missing => r == NotFound && View() == old(View())
              case Malformed => r == BadRecord && View() == old(View())
              case Load(d) => r.Present? && fresh(r.proposal) && r.proposal.draft == d
                              && cache == old(cache)[id := r.proposal] && storage == old(storage)
    {
      if id in cache {
        return Present(cache[id]);
      }
      if id !in storage {
        return NotFound;
      }
      match storage[id]
      case Index(_) => return BadRecord;
      case Record(d) =>
        var p := new Proposal(Thaw(d, now));
        cache := cache[id := p];
        r := Present(p);
    }

    method Delete(id: Name) returns (existed: bool)
      requires Valid()
      modifies this
      ensures Valid() && (View(), existed) == VaultDelete(old(View()), id)
      ensures (existed <==> id in old(cache) || id in old(storage)) && cache == old(cache) - {id}
      ensures storage - {INDEX} == old(storage) - {INDEX, id}
      ensures forall x :: x in IndexOf(storage) <==> x != id && id != INDEX && x in old(IndexOf(storage))
    {
      WithoutExactly(IndexOf(storage), id);
      existed := id in cache || id in storage;
      cache := cache - {id};
      storage := storage - {id};
      storage := storage[INDEX := Index(Without(IndexOf(storage), id))];
      assert cache.Values <= old(cache.Values);
    }

    /** The ids that have an object or a record. */
    ghost function Known(): set<Name>
      reads this
    {
      cache.Keys + storage.Keys - {INDEX}
    }

    ghost function Drafts(): map<Name, Draft>
      reads this, cache.Values
    {
      map id | id in cache :: cache[id].draft
    }

    /** Fetches one id; an id without a record is dropped from the index. */
    method FetchOrDrop(id: Name, now: string) returns (r: Option<Proposal>)
      requires Valid() && id != INDEX
      modifies this
      ensures Valid() && Undisturbed(old(View()), View(), Drafts(), now) && Known() == old(Known())
      ensures r.Some? <==> id in Known()
      ensures if r.Some? then id in cache && cache[id] == r.value && storage == old(storage)
              else storage == IndexRemove(old(storage), id)
    {
      var fetched := Get(id, now);
      if fetched.NotFound? {
        WithoutExactly(IndexOf(storage), id);
        storage := IndexRemove(storage, id);
        return None;
      }
      r := Some(fetched.proposal);
    }

    /** The loop of a listing, one id after the other. */
    method FetchAll(ids: seq<Name>, now: string) returns (ps: seq<Proposal>)
      requires Valid() && INDEX !in ids
      modifies this
      ensures Valid() && Undisturbed(old(View()), View(), Drafts(), now) && Known() == old(Known())
      ensures storage == Heal(old(storage), ids, Known())
      ensures Paired(ps, Among(ids, Known()), cache)
      decreases |ids|
    {
      if ids == [] {
        return [];
      }
      var r := FetchOrDrop(ids[0], now);
      ghost var middle, drafts := View(), Drafts();
      ps := FetchAll(ids[1..], now);
      UndisturbedTwice(old(View()), middle, View(), drafts, Drafts(), now);
      if r.Some? {
        PairedMore(r.value, ids[0], ps, Among(ids[1..], Known()), cache);
        ps := [r.value] + ps;
      }
    }

    /** Lists the ids of the index that have a record; objects missing from the cache are loaded. */
    method List(flow: Option<Name>, status: Option<string>, now: string) returns (rows: seq<Keyed<Row<Proposal>>>)
      requires Valid()
      modifies this
      ensures Valid() && Undisturbed(old(View()), View(), Drafts(), now) && Known() == old(Known())
      ensures storage == Heal(old(storage), old(IndexOf(storage)), Known())
      ensures Held(cache, HeapOf(cache.Values)) && forall id | id in Among(old(IndexOf(storage)), Known()) :: id in cache
      ensures rows == Listing(Among(old(IndexOf(storage)), Known()), cache, HeapOf(cache.Values), flow, status)
      ensures forall x :: x in IndexOf(storage) <==> x in old(IndexOf(storage)) && x in old(cache.Keys + storage.Keys)
      // A row for every indexed id with an object or a record whose flow or base flow, and whose status, are the ones asked for.
      ensures forall r | r in rows ::
                && r.row.draft == r.row.ref.draft && r.key == r.row.draft.updatedAt
                && r.row.draft.id in old(IndexOf(storage)) && r.row.draft.id in old(cache.Keys + storage.Keys)
                && r.row.draft.id in cache && cache[r.row.draft.id] == r.row.ref
                && (flow.None? || r.row.draft.flowId == flow || r.row.draft.baseFlowId == flow)
                && (status.None? || Some(r.row.draft.status) == status)
      ensures forall id | id in old(IndexOf(storage)) && id in old(cache.Keys + storage.Keys) ::
                id in cache
                && ((flow.None? || cache[id].draft.flowId == flow || cache[id].draft.baseFlowId == flow)
                    && (status.None? || Some(cache[id].draft.status) == status)
                    ==> Keyed(cache[id].draft.updatedAt, Row(cache[id], cache[id].draft)) in rows)
      ensures forall i, j | 0 <= i < j < |rows| :: AtMost(rows[j].key, rows[i].key)
      ensures old(Distinct(IndexOf(storage))) ==> forall i, j | 0 <= i < j < |rows| :: rows[i].row.ref != rows[j].row.ref
    {
      ghost var found := Among(IndexOf(storage), Known());
      AmongExactly(IndexOf(storage), Known());
      HealDrops(storage, IndexOf(storage), Known());
      var ps := FetchAll(IndexOf(storage), now);
      assert Held(cache, HeapOf(cache.Values));
      SameRows(ps, found, cache, HeapOf(cache.Values), flow, status);
      rows := SortedRows(ps, flow, status);
      ListingIs(found, cache, HeapOf(cache.Values), flow, status, rows);
    }
  }

  /** Nothing cached is lost, records stay, and what is new in the cache was read from its record. */
  ghost predicate Undisturbed(before: Vault<Proposal>, after: Vault<Proposal>, drafts: map<Name, Draft>, now: string) {
    && drafts.Keys == after.cache.Keys
    && (forall id | id in before.cache :: id in after.cache && after.cache[id] == before.cache[id])
    && after.storage - {INDEX} == before.storage - {INDEX}
    && (forall id | id in after.cache && id !in before.cache :: id != INDEX && VaultGet(before, id, now) == Load(drafts[id]))
  }

  lemma UndisturbedTwice(a: Vault<Proposal>, b: Vault<Proposal>, c: Vault<Proposal>,
                         drafts: map<Name, Draft>, drafts': map<Name, Draft>, now: string)
    requires Undisturbed(a, b, drafts, now) && Undisturbed(b, c, drafts', now)
    requires forall id | id in drafts :: id in drafts' && drafts'[id] == drafts[id]
    ensures Undisturbed(a, c, drafts', now)
  {
    forall id | id in c.cache && id !in a.cache ensures id != INDEX && VaultGet(a, id, now) == Load(drafts'[id]) {
      if id !in b.cache {
        assert id in b.storage <==> id in b.storage - {INDEX};
        assert id in a.storage <==> id in a.storage - {INDEX};
        assert id in a.storage ==> (a.storage - {INDEX})[id] == (b.storage - {INDEX})[id];
      }
    }
  }

  /** ps are the objects cached under ids. */
  ghost predicate Paired(ps: seq<Proposal>, ids: seq<Name>, cache: map<Name, Proposal>) {
    |ps| == |ids| && forall k | 0 <= k < |ids| :: ids[k] in cache && cache[ids[k]] == ps[k]
  }

  lemma PairedMore(p: Proposal, id: Name, ps: seq<Proposal>, ids: seq<Name>, cache: map<Name, Proposal>)
    requires id in cache && cache[id] == p && Paired(ps, ids, cache)
    ensures Paired([p] + ps, [id] + ids, cache)
  {}

  /** The ids that are known, in order. */
  function Among(ids: seq<Name>, known: set<Name>): seq<Name> {
    if ids == [] then []
    else if ids[0] in known then [ids[0]] + Among(ids[1..], known)
    else Among(ids[1..], known)
  }

  lemma {:induction false} AmongExactly(ids: seq<Name>, known: set<Name>)
    ensures forall id :: id in Among(ids, known) <==> id in ids && id in known
    ensures Distinct(ids) ==> Distinct(Among(ids, known))
  {
    if ids != [] {
      AmongExactly(ids[1..], known);
      assert ids == [ids[0]] + ids[1..];
      if Distinct(ids) {
        assert ids[0] !in ids[1..];
      }
    }
  }

  /** Storage after the ids that are not known were dropped from the index. */
  function Heal(storage: map<Name, Stored>, ids: seq<Name>, known: set<Name>): map<Name, Stored>
    decreases |ids|
  {
    if ids == [] then storage
    else Heal(if ids[0] in known then storage else IndexRemove(storage, ids[0]), ids[1..], known)
  }

  /** Healing drops from the index exactly the listed ids that are not known, and leaves all records. */
  lemma {:induction false} HealDrops(storage: map<Name, Stored>, ids: seq<Name>, known: set<Name>)
    requires INDEX in storage ==> storage[INDEX].Index?
    ensures var healed := Heal(storage, ids, known);
            && healed - {INDEX} == storage - {INDEX}
            && forall x :: x in IndexOf(healed) <==> x in IndexOf(storage) && (x in ids ==> x in known)
    decreases |ids|
  {
    if ids != [] {
      WithoutExactly(IndexOf(storage), ids[0]);
      var first := if ids[0] in known then storage else IndexRemove(storage, ids[0]);
      HealDrops(first, ids[1..], known);
      assert forall x :: x in ids <==> x == ids[0] || x in ids[1..];
    }
  }

  /** With everything indexed on record, listing drops nothing. */
  lemma {:induction false} NothingToHeal(storage: map<Name, Stored>, ids: seq<Name>, known: set<Name>)
    requires forall id | id in ids :: id in known
    ensures Among(ids, known) == ids && Heal(storage, ids, known) == storage
    decreases |ids|
  {
    if ids != [] {
      NothingToHeal(storage, ids[1..], known);
      assert ids == [ids[0]] + ids[1..];
    }
  }
}
