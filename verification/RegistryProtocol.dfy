/** The same tables used by any number of threads. Every block under a lock is one atomic step; the
    freeze of the set releases its lock between taking the snapshot and freezing the tables. */
module RegistryProtocol {
  import opened Basics
  import opened Registries

  type TableId = nat
  type ThreadId = nat

  /** pool holds every registry object, installed or not; freezing maps each thread inside freeze to
      the tables of its snapshot it has yet to freeze; setter is the thread that set the flag and taken
      the snapshot it left with. */
  datatype State = State(
    tables: map<Name, TableId>, frozen: bool, pool: map<TableId, Table>,
    freezing: map<ThreadId, seq<TableId>>, setter: Option<ThreadId>, taken: seq<TableId>, returned: bool)

  datatype Action =
    | Create(table: TableId)
    | Install(name: Name, table: TableId)
    | Register(table: TableId, name: Name, impl: Impl)
    | Drop(table: TableId, name: Name)
    | Clear(table: TableId)
    | FreezeTable(table: TableId)
    | EnterFreeze(thread: ThreadId, snapshot: seq<TableId>)
    | FreezeNext(thread: ThreadId)
    | LeaveFreeze(thread: ThreadId)

  const INITIAL: State := State(map[], false, map[], map[], None, [], false)

  predicate Enabled(s: State, a: Action) {
    match a
    case Create(t) => t !in s.pool
    case Install(name, t) => name.text != "" && t in s.pool
    case Register(t, _, _) => t in s.pool
    case Drop(t, _) => t in s.pool
    case Clear(t) => t in s.pool
    case FreezeTable(t) => t in s.pool
    case EnterFreeze(thread, snapshot) => thread !in s.freezing && (set t | t in snapshot) == s.tables.Values
    case FreezeNext(thread) => thread in s.freezing && s.freezing[thread] != []
    case LeaveFreeze(thread) => thread in s.freezing && s.freezing[thread] == []
  }

  function Update(s: State, t: TableId, table: Table): State {
    s.(pool := s.pool[t := table])
  }

  /** The freeze that found the flag clear marks it and leaves with its snapshot; any later one
      returns at once. */
  function Next(s: State, a: Action): State
    requires Enabled(s, a)
  {
    match a
    case Create(t) => Update(s, t, Table(map[], false))
    case Install(name, t) =>
      if s.frozen || name in s.tables then s else s.(tables := s.tables[name := t])
    case Register(t, name, impl) => Update(s, t, Registered(s.pool[t], name, impl).0)
    case Drop(t, name) => Update(s, t, Dropped(s.pool[t], name).0)
    case Clear(t) => Update(s, t, Cleared(s.pool[t]).0)
    case FreezeTable(t) => Update(s, t, s.pool[t].(frozen := true))
    case EnterFreeze(thread, snapshot) =>
      if s.frozen then s
      else s.(frozen := true, setter := Some(thread), taken := snapshot, freezing := s.freezing[thread := snapshot])
    case FreezeNext(thread) =>
      var t := s.freezing[thread][0];
      var rest := s.freezing[thread][1..];
      if t in s.pool then Update(s, t, s.pool[t].(frozen := true)).(freezing := s.freezing[thread := rest])
      else s
    case LeaveFreeze(thread) =>
      s.(freezing := s.freezing - {thread}, returned := s.returned || s.setter == Some(thread))
  }

  /** An interleaving is any list of actions; one that is not enabled is skipped. */
  function Run(s: State, actions: seq<Action>): State
    decreases |actions|
  {
    if actions == [] then s
    else Run(if Enabled(s, actions[0]) then Next(s, actions[0]) else s, actions[1..])
  }

  /** While the setter is inside freeze, a table not frozen yet is still on its list; once it has
      returned, there is no such table. */
  ghost predicate Inv(s: State) {
    && (forall n | n in s.tables :: s.tables[n] in s.pool)
    && (forall th, t | th in s.freezing && t in s.freezing[th] :: t in s.pool)
    && (!s.frozen ==> s.freezing == map[] && s.setter.None? && !s.returned)
    && (s.frozen ==> s.setter.Some? && s.freezing.Keys == if s.returned then {} else {s.setter.value})
    && (s.frozen ==> forall n | n in s.tables ::
          s.pool[s.tables[n]].frozen || (!s.returned && s.tables[n] in s.freezing[s.setter.value]))
  }

  /** How far two states of one run may differ. A frozen set keeps its tables, a frozen table its
      entries, and no flag is ever cleared. */
  ghost predicate Later(s: State, t: State) {
    && (s.frozen ==> t.frozen && t.tables == s.tables && t.setter == s.setter)
    && (s.returned ==> t.returned)
    && (forall id | id in s.pool :: id in t.pool && (s.pool[id].frozen ==> t.pool[id] == s.pool[id]))
    && (forall n | n in s.tables :: n in t.tables && t.tables[n] == s.tables[n])
  }

  lemma NextKeepsInv(s: State, a: Action)
    requires Inv(s) && Enabled(s, a)
    ensures Inv(Next(s, a))
  {
    match a
    case EnterFreeze(thread, snapshot) =>
      forall t | t in snapshot ensures t in s.pool {
        assert t in s.tables.Values;
      }
      forall n | n in s.tables ensures s.tables[n] in snapshot {
        assert s.tables[n] in s.tables.Values;
      }
    case FreezeNext(thread) =>
      assert s.freezing[thread][0] in s.freezing[thread];
    case _ =>
  }

  lemma NextIsLater(s: State, a: Action)
    requires Inv(s) && Enabled(s, a)
    ensures Later(s, Next(s, a))
  {}

  /** Over every interleaving. */
  lemma {:induction false} RunKeepsInv(s: State, actions: seq<Action>)
    requires Inv(s)
    ensures Inv(Run(s, actions)) && Later(s, Run(s, actions))
    decreases |actions|
  {
    if actions != [] {
      if Enabled(s, actions[0]) {
        NextKeepsInv(s, actions[0]);
        NextIsLater(s, actions[0]);
        RunKeepsInv(Next(s, actions[0]), actions[1..]);
      } else {
        RunKeepsInv(s, actions[1..]);
      }
    }
  }

  /** Once the freeze call that set the flag has returned: every installed table is frozen, none was
      missed, and names and lookups stay what they are for the rest of the run. */
  lemma FrozenForGood(before: seq<Action>, after: seq<Action>)
    requires Run(INITIAL, before).returned
    ensures var s, t := Run(INITIAL, before), Run(Run(INITIAL, before), after);
            && s.frozen && t.tables == s.tables
            && forall n | n in s.tables :: s.tables[n] in s.pool && s.tables[n] in t.pool
                 && s.pool[s.tables[n]].frozen && t.pool[s.tables[n]] == s.pool[s.tables[n]]
  {
    RunKeepsInv(INITIAL, before);
    RunKeepsInv(Run(INITIAL, before), after);
  }

  /** From the moment the flag is set no installation succeeds any more. */
  lemma SetClosedAtOnce(before: seq<Action>, after: seq<Action>)
    requires Run(INITIAL, before).frozen
    ensures Run(Run(INITIAL, before), after).tables == Run(INITIAL, before).tables
  {
    RunKeepsInv(INITIAL, before);
    RunKeepsInv(Run(INITIAL, before), after);
  }

  /** How many tables of its snapshot the thread that set the flag has frozen. */
  function Progress(s: State): nat {
    if s.setter.Some? && s.setter.value in s.freezing && |s.freezing[s.setter.value]| <= |s.taken|
    then |s.taken| - |s.freezing[s.setter.value]| else |s.taken|
  }

  /** The snapshot holds all installed tables, and what is left of it is its end. */
  ghost predicate Underway(s: State) {
    && (s.setter.None? ==> s.taken == [] && s.freezing == map[])
    && (s.setter.Some? && s.setter.value in s.freezing ==>
          var left := s.freezing[s.setter.value];
          |left| <= |s.taken| && left == s.taken[|s.taken| - |left|..])
    && (s.frozen ==> s.setter.Some? && forall n | n in s.tables :: s.tables[n] in s.taken)
    && (forall t | t in s.taken[..Progress(s)] :: t in s.pool && s.pool[t].frozen)
  }

  /** As long as tables are frozen only by the freeze of the set: exactly the ones it has passed are. */
  ghost predicate FrozenInOrder(s: State) {
    forall t | t in s.pool && s.pool[t].frozen :: t in s.taken[..Progress(s)]
  }

  lemma EnterKeepsUnderway(s: State, thread: ThreadId, snapshot: seq<TableId>)
    requires Inv(s) && Underway(s) && Enabled(s, EnterFreeze(thread, snapshot))
    ensures Underway(Next(s, EnterFreeze(thread, snapshot)))
    ensures FrozenInOrder(s) ==> FrozenInOrder(Next(s, EnterFreeze(thread, snapshot)))
  {
    forall n | n in s.tables ensures s.tables[n] in snapshot {
      assert s.tables[n] in s.tables.Values;
    }
  }

  lemma FreezeKeepsUnderway(s: State, thread: ThreadId)
    requires Inv(s) && Underway(s) && Enabled(s, FreezeNext(thread))
    ensures Underway(Next(s, FreezeNext(thread)))
    ensures FrozenInOrder(s) ==> FrozenInOrder(Next(s, FreezeNext(thread)))
  {
    PassOne(s, thread);
  }

  /** A step on a single table leaves the freeze of the set where it is. */
  lemma UpdateKeepsUnderway(s: State, t: TableId, table: Table)
    requires Underway(s) && (t in s.pool && s.pool[t].frozen ==> table.frozen)
    ensures Underway(Update(s, t, table))
    ensures FrozenInOrder(s) && (table.frozen ==> t in s.pool && s.pool[t].frozen) ==> FrozenInOrder(Update(s, t, table))
  {
    assert Progress(Update(s, t, table)) == Progress(s);
  }

  lemma InstallKeepsUnderway(s: State, name: Name, t: TableId)
    requires Inv(s) && Underway(s) && Enabled(s, Install(name, t))
    ensures Underway(Next(s, Install(name, t)))
    ensures FrozenInOrder(s) ==> FrozenInOrder(Next(s, Install(name, t)))
  {
    assert Progress(Next(s, Install(name, t))) == Progress(s);
  }

  lemma LeaveKeepsUnderway(s: State, thread: ThreadId)
    requires Inv(s) && Underway(s) && Enabled(s, LeaveFreeze(thread))
    ensures Underway(Next(s, LeaveFreeze(thread)))
    ensures FrozenInOrder(s) ==> FrozenInOrder(Next(s, LeaveFreeze(thread)))
  {
    assert Progress(Next(s, LeaveFreeze(thread))) == Progress(s) == |s.taken|;
  }

  lemma NextKeepsUnderway(s: State, a: Action)
    requires Inv(s) && Underway(s) && Enabled(s, a)
    ensures Underway(Next(s, a))
    ensures FrozenInOrder(s) && !a.FreezeTable? ==> FrozenInOrder(Next(s, a))
  {
    match a
    case Create(t) => UpdateKeepsUnderway(s, t, Table(map[], false));
    case Install(name, t) => InstallKeepsUnderway(s, name, t);
    case Register(t, name, impl) => UpdateKeepsUnderway(s, t, Registered(s.pool[t], name, impl).0);
    case Drop(t, name) => UpdateKeepsUnderway(s, t, Dropped(s.pool[t], name).0);
    case Clear(t) => UpdateKeepsUnderway(s, t, Cleared(s.pool[t]).0);
    case FreezeTable(t) => UpdateKeepsUnderway(s, t, s.pool[t].(frozen := true));
    case EnterFreeze(thread, snapshot) => EnterKeepsUnderway(s, thread, snapshot);
    case FreezeNext(thread) => FreezeKeepsUnderway(s, thread);
    case LeaveFreeze(thread) => LeaveKeepsUnderway(s, thread);
  }

  /** One more table of the snapshot is frozen. */
  lemma PassOne(s: State, thread: ThreadId)
    requires Inv(s) && Underway(s) && Enabled(s, FreezeNext(thread))
    ensures var k := Progress(s);
            && k < |s.taken| && s.setter == Some(thread) && s.freezing[thread][0] == s.taken[k]
            && Progress(Next(s, FreezeNext(thread))) == k + 1
            && s.taken[..k + 1] == s.taken[..k] + [s.taken[k]]
            && s.freezing[thread][1..] == s.taken[k + 1..]
  {
    assert s.freezing[thread][0] in s.freezing[thread];
  }

  lemma {:induction false} RunKeepsUnderway(s: State, actions: seq<Action>)
    requires Inv(s) && Underway(s)
    ensures Inv(Run(s, actions)) && Underway(Run(s, actions))
    ensures FrozenInOrder(s) && (forall a | a in actions :: !a.FreezeTable?) ==> FrozenInOrder(Run(s, actions))
    decreases |actions|
  {
    if actions != [] {
      assert actions[0] in actions && forall a | a in actions[1..] :: a in actions;
      if Enabled(s, actions[0]) {
        NextKeepsInv(s, actions[0]);
        NextKeepsUnderway(s, actions[0]);
        RunKeepsUnderway(Next(s, actions[0]), actions[1..]);
      } else {
        RunKeepsUnderway(s, actions[1..]);
      }
    }
  }

  /** A second caller of freeze returns at once. At that moment the tables the first caller has passed are frozen, so
      once that has passed them all the early return is safe, even before the first call has returned. */
  lemma EarlyReturn(actions: seq<Action>, thread: ThreadId, snapshot: seq<TableId>)
    requires var s := Run(INITIAL, actions); s.frozen && Enabled(s, EnterFreeze(thread, snapshot))
    ensures var s := Run(INITIAL, actions);
            && Next(s, EnterFreeze(thread, snapshot)) == s
            && (forall n | n in s.tables :: s.tables[n] in s.taken && s.tables[n] in s.pool)
            && (forall t | t in s.taken[..Progress(s)] :: t in s.pool && s.pool[t].frozen)
            && (s.returned ==> Progress(s) == |s.taken|)
            && (Progress(s) == |s.taken| ==> forall n | n in s.tables :: s.pool[s.tables[n]].frozen)
  {
    RunKeepsUnderway(INITIAL, actions);
    var s := Run(INITIAL, actions);
    assert s.taken[..|s.taken|] == s.taken;
  }

  /** And without other callers freezing single tables it is safe only then: a table that the first caller has yet to
      reach, and has not met before in its snapshot, still takes registrations. */
  lemma EarlyReturnIsEarly(actions: seq<Action>, n: Name)
    requires forall a | a in actions :: !a.FreezeTable?
    requires var s := Run(INITIAL, actions); s.frozen && n in s.tables
    ensures var s := Run(INITIAL, actions);
            && s.tables[n] in s.pool
            && (s.pool[s.tables[n]].frozen <==> s.tables[n] in s.taken[..Progress(s)])
            && (s.tables[n] !in s.taken[..Progress(s)] ==>
                  forall name, impl :: Registered(s.pool[s.tables[n]], name, impl).1 == Accepted)
  {
    RunKeepsUnderway(INITIAL, actions);
  }

  const TRAP: seq<Action> := [Create(0), Install(Name("patterns"), 0), EnterFreeze(1, [0]), EnterFreeze(2, [0])]

  /** So the early return is no guarantee: here thread 2 has returned from freeze and the table still
      takes a registration. */
  lemma SecondCallerMayBeEarly()
    ensures var s := Run(INITIAL, TRAP);
            s.frozen && 2 !in s.freezing && !s.pool[0].frozen
            && Registered(s.pool[0], Name("late"), 7).1 == Accepted
  {
    var s1 := Next(INITIAL, TRAP[0]);
    var s2 := Next(s1, TRAP[1]);
    assert s2.tables.Values == {0} by {
      assert Name("patterns") in s2.tables;
    }
    assert (set t | t in [0]) == {0};
    var s3 := Next(s2, TRAP[2]);
    assert s3.tables.Values == {0};
    assert TRAP[1..][1..][1..] == [TRAP[3]];
    assert Run(s3, [TRAP[3]]) == s3;
    assert TRAP[1..][1..] == [TRAP[2]] + [TRAP[3]];
    assert Run(s2, TRAP[1..][1..]) == s3;
    assert Run(s1, TRAP[1..]) == s3;
  }

  /** An installation puts the table under its name exactly if the set is open and the name is free;
      nothing else of the state changes. */
  lemma InstallIff(s: State, name: Name, t: TableId)
    requires Enabled(s, Install(name, t))
    ensures var u := Next(s, Install(name, t));
            && (u.tables != s.tables <==> !s.frozen && name !in s.tables)
            && (u.tables != s.tables ==> u.tables == s.tables[name := t])
            && u.(tables := s.tables) == s
  {
    assert name !in s.tables ==> name in s.tables[name := t] && s.tables[name := t] != s.tables;
  }

  /** Enough steps for a thread inside freeze to get through. */
  function Finish(thread: ThreadId, n: nat): seq<Action> {
    if n == 0 then [LeaveFreeze(thread)] else [FreezeNext(thread)] + Finish(thread, n - 1)
  }

  /** A setter that is given its steps gets through and returns. */
  lemma {:induction false} SetterReturns(s: State, thread: ThreadId)
    requires Inv(s) && s.setter == Some(thread) && thread in s.freezing
    ensures Run(s, Finish(thread, |s.freezing[thread]|)).returned
    decreases |s.freezing[thread]|
  {
    var n := |s.freezing[thread]|;
    if n == 0 {
      var leave := LeaveFreeze(thread);
      assert Finish(thread, 0) == [leave] && [leave][1..] == [];
      assert Run(s, [leave]) == Run(Next(s, leave), []);
    } else {
      var a := FreezeNext(thread);
      NextKeepsInv(s, a);
      assert s.freezing[thread][0] in s.freezing[thread];
      assert Next(s, a).freezing[thread] == s.freezing[thread][1..];
      SetterReturns(Next(s, a), thread);
      assert Finish(thread, n)[1..] == Finish(thread, n - 1);
    }
  }

  /** Freezing a set works: a thread that enters an open set and is given its steps, without any
      other thread in between, returns with the set and every installed table frozen. */
  lemma SoloFreeze(s: State, thread: ThreadId, snapshot: seq<TableId>)
    requires Inv(s) && !s.frozen && Enabled(s, EnterFreeze(thread, snapshot))
    ensures var t := Run(s, [EnterFreeze(thread, snapshot)] + Finish(thread, |snapshot|));
            && t.returned && t.frozen && t.tables == s.tables
            && forall n | n in s.tables :: s.tables[n] in t.pool && t.pool[s.tables[n]].frozen
  {
    var enter := EnterFreeze(thread, snapshot);
    var rest := Finish(thread, |snapshot|);
    NextKeepsInv(s, enter);
    var u := Next(s, enter);
    SetterReturns(u, thread);
    RunKeepsInv(u, rest);
    assert ([enter] + rest)[1..] == rest;
    assert Run(s, [enter] + rest) == Run(u, rest);
  }
}
