/** Design proposals and their two stores as values: the plain one keeps them in memory, the durable
    one keeps a cache, one record per proposal and an index of open ids.

    Proposals are shared by reference: a client may edit an object it got from a store, and the
    store sees the edit before any save. R is the type of references. */
module Proposals {
  import opened Basics
  import opened Texts

  type Value = int

  datatype Draft = Draft(
    id: Name, body: Value, status: string, kind: string,
    baseFlowId: Option<Name>, flowId: Option<Name>, baseResourceId: Option<Name>, resourceId: Option<Name>,
    validation: Option<bool>, impact: Option<Value>, committedRevision: Option<int>,
    createdAt: string, updatedAt: string)

  const OPEN := "open"
  const PREFIX := "palm:design:proposals"
  const INDEX_TEXT := "palm:design:proposals:_index"

  /** The storage key of a proposal id. */
  function KeyText(id: Name): string {
    PREFIX + ":" + id.text
  }

  /** All keys of the store share the prefix, so storage is modelled by what follows it. The index
      then sits where a proposal with this id would. */
  const INDEX := Name("_index")

  datatype Stored = Record(draft: Draft) | Index(ids: seq<Name>)

  /** A time stamp as clocks give it. */
  type Stamp = s: string | s != "" witness "0"

  /** A draft that a record gives back as it was written. */
  predicate Solid(d: Draft) {
    d.status != "" && d.kind != "" && d.createdAt != "" && d.updatedAt != ""
  }

  /** `proposal_from_dict` after `to_dict`: empty texts fall back to defaults. */
  function Thaw(d: Draft, now: string): Draft {
    d.(status := if d.status == "" then OPEN else d.status,
       kind := if d.kind == "" then "flow" else d.kind,
       createdAt := if d.createdAt == "" then now else d.createdAt,
       updatedAt := if d.updatedAt == "" then now else d.updatedAt)
  }

  // ---------------------------------------------------------------------------
  // The two stores
  // ---------------------------------------------------------------------------

  /** refs in insertion order. */
  datatype Memory<R> = Memory(order: seq<Name>, refs: map<Name, R>)

  datatype Vault<R> = Vault(cache: map<Name, R>, storage: map<Name, Stored>)

  datatype Lookup<R> = Hit(ref: R) | Load(draft: Draft) | Missing | Malformed

  function MemorySave<R>(m: Memory<R>, id: Name, ref: R): Memory<R> {
    Memory(if id in m.refs then m.order else m.order + [id], m.refs[id := ref])
  }

  function MemoryDelete<R>(m: Memory<R>, id: Name): (Memory<R>, bool) {
    (Memory(Without(m.order, id), m.refs - {id}), id in m.refs)
  }

  function IndexOf(storage: map<Name, Stored>): seq<Name> {
    if INDEX in storage && storage[INDEX].Index? then storage[INDEX].ids else []
  }

  function IndexAdd(storage: map<Name, Stored>, id: Name): map<Name, Stored> {
    if id in IndexOf(storage) then storage else storage[INDEX := Index(IndexOf(storage) + [id])]
  }

  function IndexRemove(storage: map<Name, Stored>, id: Name): map<Name, Stored> {
    storage[INDEX := Index(Without(IndexOf(storage), id))]
  }

  function VaultSave<R>(v: Vault<R>, d: Draft, ref: R): Vault<R> {
    var written := v.storage[d.id := Record(d)];
    Vault(v.cache[d.id := ref], if d.status == OPEN then IndexAdd(written, d.id) else IndexRemove(written, d.id))
  }

  function VaultGet<R>(v: Vault<R>, id: Name, now: string): Lookup<R> {
    if id in v.cache then Hit(v.cache[id])
    else if id !in v.storage then Missing
    else match v.storage[id]
      case Record(d) => Load(Thaw(d, now))
      case Index(_) => Malformed
  }

  function VaultDelete<R>(v: Vault<R>, id: Name): (Vault<R>, bool) {
    (Vault(v.cache - {id}, IndexRemove(v.storage - {id}, id)), id in v.cache || id in v.storage)
  }

  // ---------------------------------------------------------------------------
  // Listings
  // ---------------------------------------------------------------------------

  datatype Row<R> = Row(ref: R, draft: Draft)

  predicate Matches(d: Draft, flow: Option<Name>, status: Option<string>) {
    && (flow.Some? ==> d.flowId == flow || d.baseFlowId == flow)
    && (status.Some? ==> d.status == status.value)
  }

  /** Every id held is the id of an existing object of that id. */
  ghost predicate Held<R>(refs: map<Name, R>, heap: map<R, Draft>) {
    forall id | id in refs :: refs[id] in heap && heap[refs[id]].id == id
  }

  /** The matching rows of the given ids, unsorted. */
  ghost function Rows<R>(ids: seq<Name>, refs: map<Name, R>, heap: map<R, Draft>,
                         flow: Option<Name>, status: Option<string>): seq<Keyed<Row<R>>>
    requires Held(refs, heap) && forall id | id in ids :: id in refs
  {
    if ids == [] then []
    else
      var d := heap[refs[ids[0]]];
      var rest := Rows(ids[1..], refs, heap, flow, status);
      if Matches(d, flow, status) then [Keyed(d.updatedAt, Row(refs[ids[0]], d))] + rest else rest
  }

  ghost function Listing<R>(ids: seq<Name>, refs: map<Name, R>, heap: map<R, Draft>,
                            flow: Option<Name>, status: Option<string>): seq<Keyed<Row<R>>>
    requires Held(refs, heap) && forall id | id in ids :: id in refs
  {
    Sort(Rows(ids, refs, heap, flow, status), true)
  }

  /** The row of an id, if the id is listed and matches. */
  ghost predicate IsRow<R>(row: Keyed<Row<R>>, ids: seq<Name>, refs: map<Name, R>, heap: map<R, Draft>,
                           flow: Option<Name>, status: Option<string>)
    requires Held(refs, heap) && forall id | id in ids :: id in refs
  {
    && row.row.draft.id in ids && refs[row.row.draft.id] == row.row.ref && heap[row.row.ref] == row.row.draft
    && Matches(row.row.draft, flow, status) && row.key == row.row.draft.updatedAt
  }

  lemma {:induction false} RowsExactly<R>(ids: seq<Name>, refs: map<Name, R>, heap: map<R, Draft>,
                                          flow: Option<Name>, status: Option<string>, row: Keyed<Row<R>>)
    requires Held(refs, heap) && (forall id | id in ids :: id in refs) && Distinct(ids)
    ensures multiset(Rows(ids, refs, heap, flow, status))[row] ==
            if IsRow(row, ids, refs, heap, flow, status) then 1 else 0
  {
    if ids != [] {
      RowsExactly(ids[1..], refs, heap, flow, status, row);
      var rest := Rows(ids[1..], refs, heap, flow, status);
      var d := heap[refs[ids[0]]];
      var first := Keyed(d.updatedAt, Row(refs[ids[0]], d));
      assert ids == [ids[0]] + ids[1..] && ids[0] !in ids[1..];
      assert Matches(d, flow, status) ==> multiset([first] + rest) == multiset{first} + multiset(rest);
    }
  }

  lemma {:induction false} RowsMembers<R>(ids: seq<Name>, refs: map<Name, R>, heap: map<R, Draft>,
                                          flow: Option<Name>, status: Option<string>, row: Keyed<Row<R>>)
    requires Held(refs, heap) && forall id | id in ids :: id in refs
    ensures row in Rows(ids, refs, heap, flow, status) <==> IsRow(row, ids, refs, heap, flow, status)
  {
    if ids != [] {
      RowsMembers(ids[1..], refs, heap, flow, status, row);
    }
  }

  /** What a listing shows: a row for an id exactly if the id is among those asked for, its flow or
      base flow is the one asked for, and its status is the one asked for; each row with the draft
      as it is now, the latest update first, and once if the ids are. */
  lemma ListingIs<R>(ids: seq<Name>, refs: map<Name, R>, heap: map<R, Draft>,
                     flow: Option<Name>, status: Option<string>, rows: seq<Keyed<Row<R>>>)
    requires Held(refs, heap) && forall id | id in ids :: id in refs
    requires rows == Listing(ids, refs, heap, flow, status)
    ensures forall r | r in rows ::
              && r.row.ref in heap && heap[r.row.ref] == r.row.draft && r.key == r.row.draft.updatedAt
              && r.row.draft.id in ids && refs[r.row.draft.id] == r.row.ref
              && (flow.None? || r.row.draft.flowId == flow || r.row.draft.baseFlowId == flow)
              && (status.None? || Some(r.row.draft.status) == status)
    ensures forall id | id in ids ::
              var p := refs[id];
              (flow.None? || heap[p].flowId == flow || heap[p].baseFlowId == flow)
              && (status.None? || Some(heap[p].status) == status)
              ==> Keyed(heap[p].updatedAt, Row(p, heap[p])) in rows
    ensures forall i, j | 0 <= i < j < |rows| :: AtMost(rows[j].key, rows[i].key)
    ensures Distinct(ids) ==> forall i, j | 0 <= i < j < |rows| :: rows[i].row.ref != rows[j].row.ref
  {
    var unsorted := Rows(ids, refs, heap, flow, status);
    SortSorts(unsorted, true);
    forall r | r in rows ensures IsRow(r, ids, refs, heap, flow, status) {
      assert r in multiset(rows);
      RowsMembers(ids, refs, heap, flow, status, r);
    }
    forall id | id in ids && Matches(heap[refs[id]], flow, status)
      ensures Keyed(heap[refs[id]].updatedAt, Row(refs[id], heap[refs[id]])) in rows
    {
      var row := Keyed(heap[refs[id]].updatedAt, Row(refs[id], heap[refs[id]]));
      RowsMembers(ids, refs, heap, flow, status, row);
      assert row in multiset(unsorted);
    }
    if Distinct(ids) {
      forall i, j | 0 <= i < j < |rows| ensures rows[i].row.ref != rows[j].row.ref {
        assert rows[i] in rows && rows[j] in rows;
        RowsExactly(ids, refs, heap, flow, status, rows[i]);
        if rows[i] == rows[j] {
          CountedTwice(rows, i, j);
        }
      }
    }
  }

  lemma SomeLeftOut<R>(ids: seq<Name>, some: seq<Name>, refs: map<Name, R>, heap: map<R, Draft>,
                       flow: Option<Name>, status: Option<string>, id: Name)
    requires Held(refs, heap) && Distinct(ids) && Distinct(some)
    requires (forall x | x in ids :: x in refs) && (forall x | x in some :: x in refs)
    requires id in ids && Matches(heap[refs[id]], flow, status) && id !in some
    ensures multiset(Rows(ids, refs, heap, flow, status)) != multiset(Rows(some, refs, heap, flow, status))
  {
    var row := Keyed(heap[refs[id]].updatedAt, Row(refs[id], heap[refs[id]]));
    RowsExactly(ids, refs, heap, flow, status, row);
    RowsExactly(some, refs, heap, flow, status, row);
  }

  lemma Difference<T>(a: multiset<T>, b: multiset<T>) returns (x: T)
    requires a != b
    ensures a[x] != b[x]
  {
    x :| a[x] != b[x];
  }

  lemma SameCount<R>(ids: seq<Name>, some: seq<Name>, refs: map<Name, R>, heap: map<R, Draft>,
                     flow: Option<Name>, status: Option<string>, row: Keyed<Row<R>>)
    requires Held(refs, heap) && Distinct(ids) && Distinct(some)
    requires (forall id | id in ids :: id in refs) && (forall id | id in some :: id in ids)
    requires forall id | id in ids && Matches(heap[refs[id]], flow, status) :: id in some
    ensures multiset(Rows(ids, refs, heap, flow, status))[row] == multiset(Rows(some, refs, heap, flow, status))[row]
  {
    RowsExactly(ids, refs, heap, flow, status, row);
    RowsExactly(some, refs, heap, flow, status, row);
  }

  lemma NoneLeftOut<R>(ids: seq<Name>, some: seq<Name>, refs: map<Name, R>, heap: map<R, Draft>,
                       flow: Option<Name>, status: Option<string>)
    requires Held(refs, heap) && Distinct(ids) && Distinct(some)
    requires (forall id | id in ids :: id in refs) && (forall id | id in some :: id in ids)
    requires forall id | id in ids && Matches(heap[refs[id]], flow, status) :: id in some
    ensures multiset(Rows(ids, refs, heap, flow, status)) == multiset(Rows(some, refs, heap, flow, status))
  {
    var a, b := Rows(ids, refs, heap, flow, status), Rows(some, refs, heap, flow, status);
    if multiset(a) != multiset(b) {
      var row := Difference(multiset(a), multiset(b));
      SameCount(ids, some, refs, heap, flow, status, row);
    }
  }

  /** Two listings over one heap, the second over some of the ids of the first, show the same rows
      exactly if no matching id is left out; either way rows come in non-increasing update time. */
  lemma ListingsAgree<R>(ids: seq<Name>, some: seq<Name>, refs: map<Name, R>, heap: map<R, Draft>,
                         flow: Option<Name>, status: Option<string>)
    requires Held(refs, heap) && Distinct(ids) && Distinct(some)
    requires (forall id | id in ids :: id in refs) && (forall id | id in some :: id in ids)
    ensures multiset(Listing(ids, refs, heap, flow, status)) == multiset(Listing(some, refs, heap, flow, status)) <==>
            forall id | id in ids && Matches(heap[refs[id]], flow, status) :: id in some
    ensures Sorted(Listing(ids, refs, heap, flow, status), true) && Sorted(Listing(some, refs, heap, flow, status), true)
  {
    SortSorts(Rows(ids, refs, heap, flow, status), true);
    SortSorts(Rows(some, refs, heap, flow, status), true);
    if id :| id in ids && Matches(heap[refs[id]], flow, status) && id !in some {
      SomeLeftOut(ids, some, refs, heap, flow, status, id);
    } else {
      NoneLeftOut(ids, some, refs, heap, flow, status);
    }
  }

  // ---------------------------------------------------------------------------
  // Keys and records
  // ---------------------------------------------------------------------------

  /** Nothing is lost by that: keys of different ids differ, and the index key is the key of INDEX. */
  lemma KeysApart(a: Name, b: Name)
    ensures KeyText(a) == KeyText(b) <==> a == b
    ensures KeyText(a) == INDEX_TEXT <==> a == INDEX
  {
    var p := PREFIX + ":";
    assert KeyText(a)[|p|..] == a.text && KeyText(b)[|p|..] == b.text;
    assert INDEX_TEXT == p + "_index" && INDEX_TEXT[|p|..] == "_index";
  }

  /** A record read back is the draft that was written, exactly if its status, kind and stamps are
      not empty. */
  lemma ThawInverts(d: Draft, now: string)
    requires now != ""
    ensures Thaw(d, now) == d <==> d.status != "" && d.kind != "" && d.createdAt != "" && d.updatedAt != ""
    ensures d.status == "" ==> Thaw(d, now).status == "open"
    ensures d.kind == "" ==> Thaw(d, now).kind == "flow"
    ensures d.createdAt == "" ==> Thaw(d, now).createdAt == now
    ensures d.updatedAt == "" ==> Thaw(d, now).updatedAt == now
  {}
}
