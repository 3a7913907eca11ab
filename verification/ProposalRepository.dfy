/** The repository a design service works on: the plain one, or the durable one over storage. */
module ProposalRepositories {
  import opened Basics
  import opened Proposals
  import opened ProposalStores

  /** The drafts on record. */
  function Saved(storage: map<Name, Stored>): map<Name, Draft> {
    map id | id in storage && id != INDEX && storage[id].Record? :: storage[id].draft
  }

  /** Drafts under their own ids that records give back as they are. */
  ghost predicate Complete(drafts: map<Name, Draft>) {
    forall id | id in drafts :: drafts[id].id == id && Solid(drafts[id])
  }

  class Repository {
    const plain: MemoryRepository?
    const durable: StorageRepository?
    /** The repository, its store, and the objects of that. */
    ghost var repr: set<object>

    constructor InMemory()
      ensures Valid() && fresh(repr) && durable == null && Drafts() == map[]
    {
      var store := new MemoryRepository();
      plain, durable, repr := store, null, {this, store};
    }

    /** Over storage that an earlier repository left, or that is empty. */
    constructor Over(storage: map<Name, Stored>)
      requires WellKept(storage)
      ensures Valid() && fresh(repr) && durable != null && durable.storage == storage
    {
      var store := new StorageRepository(storage);
      plain, durable, repr := null, store, {this, store};
    }

    ghost predicate Valid()
      reads this, repr
    {
      && this in repr && (plain == null <==> durable != null)
      && (plain != null ==> plain in repr && plain.refs.Values <= repr && plain.Valid() && Complete(DraftsOf(plain)))
      && (durable != null ==>
            durable in repr && durable.cache.Values <= repr && durable.Valid() && Backed(durable)
            && Complete(Saved(durable.storage)))
    }

    ghost function Drafts(): (r: map<Name, Draft>)
      requires Valid()
      reads this, repr
      ensures Complete(r)
    {
      if plain != null then DraftsOf(plain) else Saved(durable.storage)
    }

    /** Is there an index where a proposal with its id would be? */
    ghost predicate Indexed()
      reads durable
    {
      durable != null && INDEX in durable.storage
    }

    /** p is the object the repository gives out for id. */
    ghost predicate Files(id: Name, p: Proposal)
      reads plain, durable
    {
      && (plain != null ==> id in plain.refs && plain.refs[id] == p)
      && (durable != null ==> id in durable.cache && durable.cache[id] == p)
    }

    /** p is that object, and shows the draft on record. */
    ghost predicate Holds(id: Name, p: Proposal)
      requires Valid()
      reads this, repr, p, plain, durable
    {
      Files(id, p) && id in Drafts() && p.draft == Drafts()[id]
    }

    method Get(id: Name, now: Stamp) returns (r: Fetched)
      requires Valid()
      modifies repr
      ensures Valid() && fresh(repr - old(repr)) && Drafts() == old(Drafts()) && Indexed() == old(Indexed())
      ensures if id == INDEX && Indexed() then r == BadRecord
              else if id in Drafts() then r.Present? && Holds(id, r.proposal)
              else r == Fetched.NotFound
    {
      if plain != null {
        var p := plain.Get(id);
        return if p.None? then Fetched.NotFound else Present(p.value);
      }
      r := GetBacked(durable, id, now);
      repr := repr + durable.cache.Values;
    }

    /** Writes fields of the stored object and saves it. */
    method Update(id: Name, p: Proposal, d: Draft, now: Stamp)
      requires Valid() && Holds(id, p) && d.id == id && Solid(d.(updatedAt := now))
      modifies repr
      ensures Valid() && repr == old(repr) && Holds(id, p) && Drafts() == old(Drafts())[id := d.(updatedAt := now)]
    {
      if plain != null {
        UpdatePlain(plain, id, p, d, now);
      } else {
        UpdateBacked(durable, id, p, d, now);
      }
    }

    method Create(id: Name, body: Value, kind: string, baseFlow: Option<Name>, flow: Option<Name>,
                  baseResource: Option<Name>, resource: Option<Name>, made: Stamp) returns (p: Proposal)
      requires Valid() && id !in Drafts() && id != INDEX && kind != ""
      modifies repr
      ensures Valid() && fresh(repr - old(repr)) && Holds(id, p)
      ensures Drafts() == old(Drafts())[id := Initial(id, body, kind, baseFlow, flow, baseResource, resource, made)]
    {
      if plain != null {
        p := CreateInPlain(id, body, kind, baseFlow, flow, baseResource, resource, made);
      } else {
        p := CreateInDurable(id, body, kind, baseFlow, flow, baseResource, resource, made);
      }
    }

    method CreateInPlain(id: Name, body: Value, kind: string, baseFlow: Option<Name>, flow: Option<Name>,
                         baseResource: Option<Name>, resource: Option<Name>, made: Stamp) returns (p: Proposal)
      requires Valid() && plain != null && id !in Drafts() && kind != ""
      modifies repr
      ensures Valid() && fresh(repr - old(repr)) && Holds(id, p)
      ensures Drafts() == old(Drafts())[id := Initial(id, body, kind, baseFlow, flow, baseResource, resource, made)]
    {
      p := CreatePlain(plain, id, body, kind, baseFlow, flow, baseResource, resource, made);
      repr := repr + {p};
    }

    method CreateInDurable(id: Name, body: Value, kind: string, baseFlow: Option<Name>, flow: Option<Name>,
                           baseResource: Option<Name>, resource: Option<Name>, made: Stamp) returns (p: Proposal)
      requires Valid() && durable != null && id !in Drafts() && id != INDEX && kind != ""
      modifies repr
      ensures Valid() && fresh(repr - old(repr)) && Holds(id, p)
      ensures Drafts() == old(Drafts())[id := Initial(id, body, kind, baseFlow, flow, baseResource, resource, made)]
    {
      p := CreateBacked(durable, id, body, kind, baseFlow, flow, baseResource, resource, made);
      repr := repr + {p};
    }

    method Delete(id: Name)
      requires Valid() && id in Drafts()
      modifies repr
      ensures Valid() && fresh(repr - old(repr)) && Drafts() == old(Drafts()) - {id}
    {
      if plain != null {
        DeletePlain(plain, id);
      } else {
        DeleteBacked(durable, id);
      }
    }

    /** What a new process finds: the same storage, nothing cached. */
    method Reopen() returns (r: Repository)
      requires Valid() && durable != null
      ensures r.Valid() && fresh(r.repr) && r.durable != null && r.Drafts() == Drafts() && r.Indexed() == Indexed()
    {
      r := new Repository.Over(durable.storage);
    }
  }

  // ---------------------------------------------------------------------------
  // The plain store by its drafts
  // ---------------------------------------------------------------------------

  ghost function DraftsOf(m: MemoryRepository): map<Name, Draft>
    reads m`refs, m.refs.Values`draft
  {
    map id | id in m.refs :: m.refs[id].draft
  }

  method UpdatePlain(m: MemoryRepository, id: Name, p: Proposal, d: Draft, now: Stamp)
    requires m.Valid() && id in m.refs && m.refs[id] == p && d.id == id
    modifies m, p
    ensures m.Valid() && m.refs == old(m.refs) && p.draft == d.(updatedAt := now)
    ensures DraftsOf(m) == old(DraftsOf(m))[id := d.(updatedAt := now)]
  {
    p.draft := d;
    m.Save(p, now);
    assert m.refs == old(m.refs);
  }

  method CreatePlain(m: MemoryRepository, id: Name, body: Value, kind: string, baseFlow: Option<Name>, flow: Option<Name>,
                     baseResource: Option<Name>, resource: Option<Name>, made: Stamp) returns (p: Proposal)
    requires m.Valid() && id !in m.refs
    modifies m
    ensures m.Valid() && fresh(p) && m.refs == old(m.refs)[id := p]
    ensures p.draft == Initial(id, body, kind, baseFlow, flow, baseResource, resource, made)
    ensures DraftsOf(m) == old(DraftsOf(m))[id := p.draft]
  {
    p := m.Create(id, body, kind, baseFlow, flow, baseResource, resource, made, made);
  }

  method DeletePlain(m: MemoryRepository, id: Name)
    requires m.Valid() && id in m.refs
    modifies m
    ensures m.Valid() && m.refs == old(m.refs) - {id} && DraftsOf(m) == old(DraftsOf(m)) - {id}
  {
    var existed := m.Delete(id);
    assert DraftsOf(m) == old(DraftsOf(m)) - {id};
  }

  // ---------------------------------------------------------------------------
  // The durable store by its records
  // ---------------------------------------------------------------------------

  /** No cached object differs from its record. */
  ghost predicate Backed(s: StorageRepository)
    reads s`cache, s`storage, s.cache.Values`draft
  {
    forall id | id in s.cache :: id in s.storage && s.storage[id] == Record(s.cache[id].draft)
  }

  lemma SavedAfterSave<R>(v: Vault<R>, d: Draft, ref: R)
    requires d.id != INDEX
    ensures var after := VaultSave(v, d, ref).storage;
            && Saved(after) == Saved(v.storage)[d.id := d]
            && forall id | id in v.storage && id != d.id && id != INDEX :: id in after && after[id] == v.storage[id]
  {}

  lemma SavedAfterDelete<R>(v: Vault<R>, id: Name)
    requires id != INDEX
    ensures var after := VaultDelete(v, id).0.storage;
            && Saved(after) == Saved(v.storage) - {id}
            && forall x | x in v.storage && x != id && x != INDEX :: x in after && after[x] == v.storage[x]
  {}

  method GetBacked(s: StorageRepository, id: Name, now: Stamp) returns (r: Fetched)
    requires s.Valid() && Backed(s) && Complete(Saved(s.storage))
    modifies s`cache
    ensures s.Valid() && Backed(s) && s.storage == old(s.storage) && fresh(s.cache.Values - old(s.cache.Values))
    ensures if id == INDEX && INDEX in s.storage then r == BadRecord
            else if id in Saved(s.storage) then
              r.Present? && id in s.cache && s.cache[id] == r.proposal && r.proposal.draft == Saved(s.storage)[id]
            else r == Fetched.NotFound
  {
    if id in s.storage && id != INDEX {
      assert id in Saved(s.storage);
      ThawInverts(s.storage[id].draft, now);
    }
    r := s.Get(id, now);
  }

  method UpdateBacked(s: StorageRepository, id: Name, p: Proposal, d: Draft, now: Stamp)
    requires s.Valid() && Backed(s) && id in s.cache && s.cache[id] == p && d.id == id
    modifies s, p
    ensures s.Valid() && Backed(s) && s.cache == old(s.cache) && p.draft == d.(updatedAt := now)
    ensures Saved(s.storage) == old(Saved(s.storage))[id := d.(updatedAt := now)]
  {
    ghost var before := s.View();
    SavedAfterSave(before, d.(updatedAt := now), p);
    p.draft := d;
    s.Save(p, now);
    assert s.cache == before.cache;
    forall x | x in s.cache && x != id ensures s.storage[x] == Record(s.cache[x].draft) {
      assert old(s.cache[x].draft.id) == x;
    }
  }

  method CreateBacked(s: StorageRepository, id: Name, body: Value, kind: string, baseFlow: Option<Name>, flow: Option<Name>,
                      baseResource: Option<Name>, resource: Option<Name>, made: Stamp) returns (p: Proposal)
    requires s.Valid() && Backed(s) && id != INDEX
    modifies s
    ensures s.Valid() && Backed(s) && fresh(p) && s.cache == old(s.cache)[id := p]
    ensures p.draft == Initial(id, body, kind, baseFlow, flow, baseResource, resource, made)
    ensures Saved(s.storage) == old(Saved(s.storage))[id := p.draft]
  {
    ghost var before := s.View();
    p := s.Create(id, body, kind, baseFlow, flow, baseResource, resource, made, made);
    SavedAfterSave(before, p.draft, p);
  }

  method DeleteBacked(s: StorageRepository, id: Name)
    requires s.Valid() && Backed(s) && id != INDEX
    modifies s
    ensures s.Valid() && Backed(s) && s.cache == old(s.cache) - {id} && Saved(s.storage) == old(Saved(s.storage)) - {id}
  {
    SavedAfterDelete(s.View(), id);
    var existed := s.Delete(id);
  }

  /** Storage as repositories leave it. */
  ghost predicate WellKept(storage: map<Name, Stored>) {
    && (forall id | id in storage && id != INDEX :: storage[id].Record? && storage[id].draft.id == id)
    && (INDEX in storage ==> storage[INDEX].Index?) && INDEX !in IndexOf(storage)
    && Complete(Saved(storage))
  }
}
