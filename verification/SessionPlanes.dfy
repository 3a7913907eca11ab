/** The session store and the session plane as objects that rewrite stored records. */
module SessionPlanes {
  import opened Basics
  import opened Texts
  import opened SessionIds
  import opened Sessions

  /** Three families of keys on the storage engine: entries, reverse index, list of ids. */
  class SessionStore {
    var entries: map<Name, Record>
    var owners: map<Handle, Name>
    var index: seq<Name>

    constructor ()
      ensures View() == EMPTY
    {
      entries, owners, index := map[], map[], [];
    }

    ghost function View(): Plane
      reads this
    {
      Plane(entries, owners, index)
    }

    method Get(id: Name) returns (r: Option<Record>)
      ensures r == Lookup(View(), id)
    {
      return if id in entries then Some(Load(entries[id])) else None;
    }

    method SessionIdForInstance(i: Handle) returns (s: Option<Name>)
      ensures s == if i in owners then Some(owners[i]) else None
    {
      return if i in owners then Some(owners[i]) else None;
    }

    method PutRecord(r: Record)
      modifies this
      ensures View() == Put(old(View()), r)
    {
      var before := Get(r.id);
      var oldIds: set<Handle> := if before.Some? then set i | i in before.value.instances else {};
      var newIds: set<Handle> := set i | i in r.instances;
      entries := entries[r.id := r];
      if r.id !in index {
        index := index + [r.id];
      }
      ClearOwners(oldIds - newIds, r.id);
      ghost var between := owners;
      SetOwners(newIds, r.id);
      Reowns(old(owners), between, owners, r.id, oldIds - newIds, newIds);
    }

    method ClearOwners(dropped: set<Handle>, expected: Name)
      modifies this`owners
      ensures Cleared(old(owners), owners, expected, dropped)
    {
      var left := dropped;
      while left != {}
        invariant left <= dropped
        invariant Cleared(old(owners), owners, expected, dropped - left)
        decreases |left|
      {
        var i :| i in left;
        ClearOwner(i, expected);
        left := left - {i};
      }
    }

    method ClearOwner(i: Handle, expected: Name)
      modifies this`owners
      ensures owners == if i in old(owners) && old(owners)[i] == expected then old(owners) - {i} else old(owners)
    {
      if i !in owners || owners[i] == expected {
        owners := owners - {i};
      }
    }

    method SetOwners(held: set<Handle>, id: Name)
      modifies this`owners
      ensures Claimed(old(owners), owners, id, held)
    {
      var left := held;
      while left != {}
        invariant left <= held
        invariant Claimed(old(owners), owners, id, held - left)
        decreases |left|
      {
        var i :| i in left;
        owners := owners[i := id];
        left := left - {i};
      }
    }

    method Remove(id: Name) returns (had: bool)
      modifies this
      ensures View() == Delete(old(View()), id)
      ensures had == (id in old(entries))
    {
      had := id in entries;
      if had {
        var instances := entries[id].instances;
        for k := 0 to |instances|
          invariant Cleared(old(owners), owners, id, set i | i in instances[..k])
          invariant entries == old(entries) && index == old(index)
        {
          ClearOwner(instances[k], id);
          assert instances[..k + 1] == instances[..k] + [instances[k]];
        }
        entries := entries - {id};
        assert instances[..|instances|] == instances;
        Reowns(old(owners), owners, owners, id, Attached(old(View()), id), {});
      }
      RemoveFromIndex(id);
    }

    method RemoveFromIndex(id: Name)
      modifies this`index
      ensures index == RemoveFirst(old(index), id)
    {
      RemoveFirstIsWithout(index, id);
      if id in index {
        index := RemoveFirst(index, id);
      }
    }
  }

  /** The reverse index after some entries that name id are gone. */
  ghost predicate Cleared(before: map<Handle, Name>, after: map<Handle, Name>, id: Name, dropped: set<Handle>) {
    && (forall i :: i in after <==> i in before && !(i in dropped && before[i] == id))
    && (forall i :: i in after ==> after[i] == before[i])
  }

  /** The reverse index after some instances name id. */
  ghost predicate Claimed(before: map<Handle, Name>, after: map<Handle, Name>, id: Name, held: set<Handle>) {
    && (forall i :: i in after <==> i in before || i in held)
    && (forall i :: i in after ==> after[i] == if i in held then id else before[i])
  }

  lemma Reowns(before: map<Handle, Name>, between: map<Handle, Name>, after: map<Handle, Name>,
               id: Name, dropped: set<Handle>, held: set<Handle>)
    requires Cleared(before, between, id, dropped) && Claimed(between, after, id, held)
    ensures after == Owners(before, id, dropped, held)
  {}

  class SessionPlane {
    const store: SessionStore

    constructor (store: SessionStore)
      ensures this.store == store
    {
      this.store := store;
    }

    ghost function View(): Plane
      reads store
    {
      store.View()
    }

    method Save(r: Record) returns (a: Answer<Record>)
      modifies store
      ensures Step(View(), a) == Stored(old(View()), r)
    {
      store.PutRecord(r);
      return Ok(r);
    }

    method OpenSession(id: Option<string>, token: Token) returns (a: Answer<Record>)
      modifies store
      ensures Step(View(), a) == OpenId(old(View()), if Given(id).Some? then Given(id).value else OutsideId(token))
    {
      a := OpenNamed(if Given(id).Some? then Given(id).value else OutsideId(token));
    }

    method OpenNamed(id: Name) returns (a: Answer<Record>)
      modifies store
      ensures Step(View(), a) == OpenId(old(View()), id)
    {
      var existing := store.Get(id);
      if existing.Some? {
        return if existing.value.status == Closed then Raised(PlaneError) else Ok(existing.value);
      }
      a := Save(Record(id, Open, [], None));
    }

    method BindSession(id: Option<string>, create: bool, token: Token) returns (a: Answer<Record>)
      modifies store
      ensures Step(View(), a) == Bind(old(View()), id, create, token)
    {
      var given := Given(id);
      if given.None? {
        if !create {
          return Raised(PlaneError);
        }
        a := OpenSession(None, token);
        return;
      }
      var existing := store.Get(given.value);
      if existing.None? {
        if !create {
          return Raised(NotFound);
        }
        a := OpenNamed(given.value);
        return;
      }
      return if existing.value.status == Closed then Raised(SessionClosed) else Ok(existing.value);
    }

    method EnsureServiceSession(origin: string) returns (a: Answer<Record>)
      modifies store
      ensures Step(View(), a) == EnsureService(old(View()), origin)
    {
      var id := ServiceSessionId(origin);
      if id.None? {
        return Raised(PlaneError);
      }
      var existing := store.Get(id.value);
      if existing.Some? {
        return if existing.value.status == Closed then Raised(SessionClosed) else Ok(existing.value);
      }
      a := OpenNamed(id.value);
    }

    method CloseSession(id: Name) returns (a: Answer<Record>)
      modifies store
      ensures Step(View(), a) == Close(old(View()), id)
    {
      var r := store.Get(id);
      if r.None? {
        return Raised(NotFound);
      }
      if r.value.status == Closed {
        return Ok(r.value);
      }
      a := Save(r.value.(status := Closed));
    }

    method AttachInstance(id: Name, instance: string) returns (a: Answer<Record>)
      modifies store
      ensures Step(View(), a) == Attach(old(View()), id, instance)
    {
      if Given(Some(instance)).None? {
        return Raised(PlaneError);
      }
      var i: Handle := HandleOf(instance);
      var found := store.Get(id);
      if found.None? {
        return Raised(NotFound);
      }
      var rec := found.value;
      if rec.status == Closed {
        return Raised(SessionClosed);
      }
      var owner := store.SessionIdForInstance(i);
      if owner.Some? && owner.value != rec.id {
        return Raised(AttachedElsewhere);
      }
      if i in rec.instances {
        if rec.focus.None? {
          a := Save(rec.(focus := Some(i)));
          return;
        }
        if rec.focus.value !in rec.instances {
          assert false;
        }
        return Ok(rec);
      }
      rec := rec.(instances := rec.instances + [i], focus := Some(i));
      if rec.status == Open {
        rec := rec.(status := Active);
      }
      a := Save(rec);
    }

    method DetachInstance(id: Name, instance: string) returns (a: Answer<Record>)
      modifies store
      ensures Step(View(), a) == Detach(old(View()), id, instance)
    {
      if Given(Some(instance)).None? {
        return Raised(PlaneError);
      }
      var i: Handle := HandleOf(instance);
      var found := store.Get(id);
      if found.None? {
        return Raised(NotFound);
      }
      var rec := found.value;
      if i !in rec.instances {
        return Ok(rec);
      }
      var left := Without(rec.instances, i);
      WithoutExactly(rec.instances, i);
      if rec.focus == Some(i) {
        rec := rec.(focus := LastOf(left));
      } else if rec.focus.Some? && rec.focus.value !in left {
        assert false;
      }
      a := Save(rec.(instances := left));
    }

    method SetActiveInstance(id: Name, instance: string) returns (a: Answer<Record>)
      modifies store
      ensures Step(View(), a) == Focus(old(View()), id, instance)
    {
      if Given(Some(instance)).None? {
        return Raised(PlaneError);
      }
      var i: Handle := HandleOf(instance);
      a := RequireOpenSession(id);
      if a.Raised? {
        return;
      }
      if i !in a.value.instances {
        return Raised(PlaneError);
      }
      if a.value.focus != Some(i) {
        a := Save(a.value.(focus := Some(i)));
      }
    }

    method ClearActiveInstance(id: Name) returns (a: Answer<Record>)
      modifies store
      ensures Step(View(), a) == Unfocus(old(View()), id)
    {
      a := RequireOpenSession(id);
      if a.Raised? || a.value.focus.None? {
        return;
      }
      a := Save(a.value.(focus := None));
    }

    method RequireOpenSession(id: Name) returns (a: Answer<Record>)
      ensures a == RequireOpen(View(), id)
    {
      var found := store.Get(id);
      if found.None? {
        return Raised(NotFound);
      }
      return if found.value.status == Closed then Raised(SessionClosed) else Ok(found.value);
    }

    /** The owner gate for ids as callers send them: blank ones are refused, others trimmed. */
    method RequireOwnedInstance(session: string, instance: string) returns (a: Answer<Record>)
      ensures var s, i := Given(Some(session)), Given(Some(instance));
              if s.None? || i.None? then a == Raised(PlaneError)
              else
                && (a.Ok? <==> MayContinue(View(), s.value, HandleOf(instance)))
                && (a.Ok? ==> a.value.id == View().entries[s.value].id)
                && (a.Raised? ==> a.fault == GateFault(View(), s.value))
    {
      var s, i := Given(Some(session)), Given(Some(instance));
      if s.None? || i.None? {
        return Raised(PlaneError);
      }
      a := OwnerGate(s.value, HandleOf(instance));
    }

    /** The owner gate: it opens exactly for an instance that the session may continue. */
    method OwnerGate(session: Name, instance: Handle) returns (a: Answer<Record>)
      ensures a.Ok? <==> MayContinue(View(), session, instance)
      ensures a.Raised? ==> a.fault == GateFault(View(), session)
      ensures a.Ok? ==> a.value.id == View().entries[session].id
    {
      a := RequireOpenSession(session);
      if a.Ok? && instance !in a.value.instances {
        return Raised(NotOwned);
      }
    }

    /**
     * Attribution of a continue. With a system session: the owner gate. Without one, in strict mode:
     * the one session that holds the instance, if it may continue it. A blank instance is refused.
     */
    method RequireContinueAttribution(instance: string, session: Option<string>, strict: bool)
      returns (a: Answer<Option<Name>>)
      requires Sound(View())
      ensures if Given(Some(instance)).None? then a == Raised(PlaneError)
              else AttributedAs(View(), HandleOf(instance), Given(session), strict, a)
    {
      if Given(Some(instance)).None? {
        return Raised(PlaneError);
      }
      a := Attribute(HandleOf(instance), Given(session), strict);
    }

    method Attribute(instance: Handle, session: Option<Name>, strict: bool) returns (a: Answer<Option<Name>>)
      requires Sound(View())
      ensures AttributedAs(View(), instance, session, strict, a)
    {
      ghost var p := View();
      assert instance in p.owners ==> Holds(p, p.owners[instance], instance);
      assert forall s :: Holds(p, s, instance) ==> instance in p.owners && p.owners[instance] == s;
      if session.Some? && System(session.value) {
        var gate := OwnerGate(session.value, instance);
        return if gate.Ok? then Ok(session) else Raised(gate.fault);
      }
      if !strict {
        return Ok(None);
      }
      var owner := store.SessionIdForInstance(instance);
      if owner.None? {
        return Raised(Unattributed);
      }
      var rec := store.Get(owner.value);
      if rec.None? {
        return Raised(Unattributed);
      }
      var gate := OwnerGate(rec.value.id, instance);
      return if gate.Ok? then Ok(Some(rec.value.id)) else Raised(gate.fault);
    }

    /**
     * The instance a session continues with: the focus, else the newest waiting instance that is
     * attached, else the last attached. waiting names the instances with open waits, oldest first.
     */
    method ResolveContinueInstance(session: Name, waiting: seq<Option<Handle>>) returns (a: Answer<Option<Handle>>)
      requires Records(View())
      ensures var open := RequireOpen(View(), session);
              if open.Raised? then a == Raised(open.fault) else a.Ok? && (a.value.None? <==> open.value.instances == [])
      ensures a.Ok? && a.value.Some? ==> MayContinue(View(), session, a.value.value)
      ensures a.Ok? && a.value.Some? ==> Preferred(View().entries[session], waiting, a.value.value)
    {
      var found := RequireOpenSession(session);
      if found.Raised? {
        return Raised(found.fault);
      }
      var rec := found.value;
      if rec.instances == [] {
        return Ok(None);
      }
      if rec.focus.Some? && rec.focus.value in rec.instances {
        return Ok(rec.focus);
      }
      var k := |waiting|;
      while k > 0
        invariant 0 <= k <= |waiting|
        invariant forall j | k <= j < |waiting| :: waiting[j].None? || waiting[j].value !in rec.instances
      {
        k := k - 1;
        if waiting[k].Some? && waiting[k].value in rec.instances {
          return Ok(waiting[k]);
        }
      }
      return Ok(Some(rec.instances[|rec.instances| - 1]));
    }
  }

  /** The answer of attributing a continue: for a system session the gate's; else, in strict mode, the owner's if it may
      continue the instance, that it is closed if it may not, and that there is none; none at all without strictness. */
  ghost predicate AttributedAs(p: Plane, i: Handle, session: Option<Name>, strict: bool, a: Answer<Option<Name>>) {
    && (a.Ok? && a.value.Some? ==> MayContinue(p, a.value.value, i))
    && if session.Some? && System(session.value) then
         a == if MayContinue(p, session.value, i) then Ok(session) else Raised(GateFault(p, session.value))
       else if !strict then a == Ok(None)
       else
         && (a.Ok? <==> exists s :: MayContinue(p, s, i))
         && (a == Raised(Unattributed) <==> forall s :: !Holds(p, s, i))
         && (a.Raised? && a.fault != Unattributed ==> a.fault == SessionClosed)
         && (a.Ok? ==> a.value.Some?)
  }

  lemma GateFaultIs(p: Plane, session: Name)
    requires Sound(p)
    ensures GateFault(p, session) ==
            if session !in p.entries then NotFound
            else if p.entries[session].status == Closed then SessionClosed
            else NotOwned
  {}

  /** Why the owner gate refuses, when it does. */
  ghost function GateFault(p: Plane, session: Name): Fault {
    if RequireOpen(p, session).Raised? then RequireOpen(p, session).fault else NotOwned
  }
}
