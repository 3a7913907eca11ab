/** Name tables that are frozen at boot, and the set of tables one system instance owns. */
module Registries {
  import opened Basics

  /** Implementations are compared by identity. */
  type Impl = int

  datatype Table = Table(entries: map<Name, Impl>, frozen: bool)

  datatype Reply = Accepted | Refused

  function Registered(t: Table, name: Name, impl: Impl): (Table, Reply) {
    if name in t.entries && t.entries[name] == impl then (t, Accepted)
    else if t.frozen then (t, Refused)
    else (t.(entries := t.entries[name := impl]), Accepted)
  }

  function Dropped(t: Table, name: Name): (Table, Reply) {
    if t.frozen then (t, Refused) else (t.(entries := t.entries - {name}), Accepted)
  }

  function Cleared(t: Table): (Table, Reply) {
    if t.frozen then (t, Refused) else (t.(entries := map[]), Accepted)
  }

  /** One call on a table. */
  datatype Call = Registering(name: Name, impl: Impl) | Dropping(name: Name) | Clearing | Freezing

  function After(t: Table, c: Call): Table {
    match c
    case Registering(name, impl) => Registered(t, name, impl).0
    case Dropping(name) => Dropped(t, name).0
    case Clearing => Cleared(t).0
    case Freezing => t.(frozen := true)
  }

  /** Any run of calls, refused ones included. */
  function AfterAll(t: Table, calls: seq<Call>): Table {
    if calls == [] then t else After(AfterAll(t, calls[..|calls| - 1]), calls[|calls| - 1])
  }

  function Held(t: Table, name: Name): Option<Impl> {
    if name in t.entries then Some(t.entries[name]) else None
  }

  /** What the last call about the name says it holds, if there is such a call. */
  function LastSay(calls: seq<Call>, name: Name): Option<Option<Impl>> {
    if calls == [] then None
    else
      match calls[|calls| - 1]
      case Registering(n, impl) => if n == name then Some(Some(impl)) else LastSay(calls[..|calls| - 1], name)
      case Dropping(n) => if n == name then Some(None) else LastSay(calls[..|calls| - 1], name)
      case Clearing => Some(None)
      case Freezing => LastSay(calls[..|calls| - 1], name)
  }

  /** As long as nobody freezes it, a table holds under each name what the last call about it said. */
  lemma {:induction false} LastCallDecides(t: Table, calls: seq<Call>, name: Name)
    requires !t.frozen && Freezing !in calls
    ensures !AfterAll(t, calls).frozen
    ensures Held(AfterAll(t, calls), name) == LastSay(calls, name).GetOr(Held(t, name))
  {
    if calls != [] {
      var init := calls[..|calls| - 1];
      assert forall c | c in init :: c in calls;
      LastCallDecides(t, init, name);
    }
  }

  /** From the first freeze on the entries are what they were at it, whatever is called. */
  lemma {:induction false} FreezeEndsIt(t: Table, before: seq<Call>, after: seq<Call>)
    ensures AfterAll(t, before + [Freezing] + after) == AfterAll(t, before).(frozen := true)
  {
    var calls := before + [Freezing] + after;
    if after == [] {
      assert calls == before + [Freezing] && calls[..|calls| - 1] == before;
    } else {
      var init := after[..|after| - 1];
      assert calls[..|calls| - 1] == before + [Freezing] + init && calls[|calls| - 1] == after[|after| - 1];
      FreezeEndsIt(t, before, init);
    }
  }

  /** A refusal of one call: the table is frozen and, for a registration, does not hold that object there. */
  lemma RefusedIff(t: Table, name: Name, impl: Impl)
    ensures Registered(t, name, impl).1 == Refused <==> t.frozen && Held(t, name) != Some(impl)
    ensures Dropped(t, name).1 == Refused <==> t.frozen
    ensures Cleared(t).1 == Refused <==> t.frozen
    ensures Registered(t, name, impl).1 == Accepted ==> Held(Registered(t, name, impl).0, name) == Some(impl)
    ensures forall n | n != name :: Held(Registered(t, name, impl).0, n) == Held(t, n) == Held(Dropped(t, name).0, n)
    ensures Dropped(t, name).1 == Accepted ==> Held(Dropped(t, name).0, name) == None
    ensures Cleared(t).1 == Accepted ==> forall n :: Held(Cleared(t).0, n) == None
  {}

  class Registry {
    var entries: map<Name, Impl>
    var frozen: bool

    constructor ()
      ensures View() == Table(map[], false)
    {
      entries, frozen := map[], false;
    }

    function View(): Table
      reads this
    {
      Table(entries, frozen)
    }

    method Register(name: Name, impl: Impl) returns (r: Reply)
      modifies this
      ensures (View(), r) == Registered(old(View()), name, impl)
      ensures r == Refused <==> old(frozen) && (name !in old(entries) || old(entries)[name] != impl)
      ensures entries == if r == Accepted then old(entries)[name := impl] else old(entries)
      ensures frozen == old(frozen)
    {
      if name in entries && entries[name] == impl {
        return Accepted;
      }
      if frozen {
        return Refused;
      }
      entries := entries[name := impl];
      r := Accepted;
    }

    method Get(name: Name) returns (r: Option<Impl>)
      ensures r == if name in entries then Some(entries[name]) else None
    {
      if name !in entries {
        return None;
      }
      r := Some(entries[name]);
    }

    method Drop(name: Name) returns (r: Reply)
      modifies this
      ensures (View(), r) == Dropped(old(View()), name)
      ensures r == Refused <==> old(frozen)
      ensures entries == if r == Accepted then old(entries) - {name} else old(entries)
      ensures frozen == old(frozen)
    {
      if frozen {
        return Refused;
      }
      entries := entries - {name};
      r := Accepted;
    }

    method Clear() returns (r: Reply)
      modifies this
      ensures (View(), r) == Cleared(old(View()))
      ensures r == Refused <==> old(frozen)
      ensures entries == if r == Accepted then map[] else old(entries)
      ensures frozen == old(frozen)
    {
      if frozen {
        return Refused;
      }
      entries := map[];
      r := Accepted;
    }

    method Freeze()
      modifies this`frozen
      ensures frozen
    {
      frozen := true;
    }

    /** Any run of calls on one table. */
    method Serve(calls: seq<Call>)
      modifies this
      ensures View() == AfterAll(old(View()), calls)
    {
      for k := 0 to |calls|
        invariant View() == AfterAll(old(View()), calls[..k])
      {
        assert calls[..k + 1][..k] == calls[..k];
        match calls[k] {
          case Registering(name, impl) => var _ := Register(name, impl);
          case Dropping(name) => var _ := Drop(name);
          case Clearing => var _ := Clear();
          case Freezing => Freeze();
        }
      }
      assert calls[..|calls|] == calls;
    }
  }

  /** Tables are listed in the order of their installation. */
  class SystemRegistries {
    var order: seq<Name>
    var tables: map<Name, Registry>
    var frozen: bool

    constructor ()
      ensures Valid() && tables == map[] && !frozen
    {
      order, tables, frozen := [], map[], false;
    }

    ghost predicate Valid()
      reads this`order, this`tables
    {
      && (forall n | n in order :: n in tables)
      && (forall n | n in tables :: n in order)
    }

    method Install(name: Name, table: Registry) returns (r: Reply)
      requires Valid()
      modifies this`order, this`tables
      ensures Valid()
      ensures r.Accepted? <==> name.text != "" && !frozen && name !in old(tables)
      ensures tables == if r.Accepted? then old(tables)[name := table] else old(tables)
      ensures order == if r.Accepted? then old(order) + [name] else old(order)
    {
      if name.text == "" || frozen || name in tables {
        return Refused;
      }
      order, tables := order + [name], tables[name := table];
      r := Accepted;
    }

    method Require(name: Name) returns (r: Option<Registry>)
      ensures r == if name in tables then Some(tables[name]) else None
    {
      if name !in tables {
        return None;
      }
      r := Some(tables[name]);
    }

    /** One caller on its own: afterwards the set and every table of it are frozen and no entry has
        changed. A set that was frozen before is left alone. */
    method Freeze()
      requires Valid()
      modifies this`frozen, tables.Values`frozen
      ensures frozen
      ensures forall n | n in tables :: tables[n].frozen == (old(tables[n].frozen) || !old(frozen))
    {
      if frozen {
        return;
      }
      frozen := true;
      for k := 0 to |order|
        invariant frozen
        invariant forall n | n in order[..k] :: tables[n].frozen
        invariant forall n | n in tables && old(tables[n].frozen) :: tables[n].frozen
      {
        tables[order[k]].Freeze();
      }
    }
  }
}
