/** The session plane on values: records, the reverse index, and what every run of calls keeps. */
module Sessions {
  import opened Basics
  import opened Texts
  import opened SessionIds

  /** An instance id as the plane stores it: trimmed and not empty. */
  type Handle = n: Name | Tidy(n) witness Name("x")

  datatype Status = Open | Active | Closed

  datatype Record = Record(id: Name, status: Status, instances: seq<Handle>, focus: Option<Handle>)

  datatype Plane = Plane(entries: map<Name, Record>, owners: map<Handle, Name>, index: seq<Name>)

  datatype Fault = NotFound | SessionClosed | AttachedElsewhere | NotOwned | Unattributed | PlaneError | NoPlane

  datatype Answer<T> = Ok(value: T) | Raised(fault: Fault)

  const EMPTY := Plane(map[], map[], [])

  // ---------------------------------------------------------------------------
  // The store
  // ---------------------------------------------------------------------------

  /** `SessionRecord.from_dict`: a stale focus is dropped. */
  function Load(r: Record): Record {
    if r.focus.Some? && r.focus.value !in r.instances then r.(focus := None) else r
  }

  function Lookup(p: Plane, id: Name): Option<Record> {
    if id in p.entries then Some(Load(p.entries[id])) else None
  }

  function Attached(p: Plane, id: Name): set<Handle> {
    if id in p.entries then set i | i in p.entries[id].instances else {}
  }

  /** The reverse index after one session stops and starts owning some instances. */
  function Owners(owners: map<Handle, Name>, id: Name, dropped: set<Handle>, held: set<Handle>): map<Handle, Name> {
    map i | i in owners.Keys + held && (i in held || !(i in dropped && owners[i] == id)) ::
      if i in held then id else owners[i]
  }

  function Put(p: Plane, r: Record): Plane {
    var held := set i | i in r.instances;
    Plane(p.entries[r.id := r],
          Owners(p.owners, r.id, Attached(p, r.id) - held, held),
          if r.id in p.index then p.index else p.index + [r.id])
  }

  function Delete(p: Plane, id: Name): Plane {
    if id !in p.entries then p.(index := RemoveFirst(p.index, id))
    else Plane(p.entries - {id}, Owners(p.owners, id, Attached(p, id), {}), RemoveFirst(p.index, id))
  }

  // ---------------------------------------------------------------------------
  // The plane
  // ---------------------------------------------------------------------------

  datatype Op =
    | OpenOp(id: Option<string>, token: Token)
    | BindOp(id: Option<string>, create: bool, token: Token)
    | ServiceOp(origin: string)
    | CloseOp(session: Name)
    | AttachOp(session: Name, instance: string)
    | DetachOp(session: Name, instance: string)
    | FocusOp(session: Name, instance: string)
    | UnfocusOp(session: Name)
    | DeleteOp(session: Name)

  datatype Step = Step(plane: Plane, answer: Answer<Record>)

  function Stored(p: Plane, r: Record): Step {
    Step(Put(p, r), Ok(r))
  }

  function OpenId(p: Plane, id: Name): Step {
    match Lookup(p, id)
    case None => Stored(p, Record(id, Open, [], None))
    case Some(r) => Step(p, if r.status == Closed then Raised(PlaneError) else Ok(r))
  }

  function Bind(p: Plane, id: Option<string>, create: bool, token: Token): Step {
    match Given(id)
    case None => if create then OpenId(p, OutsideId(token)) else Step(p, Raised(PlaneError))
    case Some(n) =>
      match Lookup(p, n)
      case None => if create then OpenId(p, n) else Step(p, Raised(NotFound))
      case Some(r) => Step(p, if r.status == Closed then Raised(SessionClosed) else Ok(r))
  }

  function EnsureService(p: Plane, origin: string): Step {
    match ServiceId(origin)
    case None => Step(p, Raised(PlaneError))
    case Some(n) =>
      match Lookup(p, n)
      case None => OpenId(p, n)
      case Some(r) => Step(p, if r.status == Closed then Raised(SessionClosed) else Ok(r))
  }

  function Close(p: Plane, id: Name): Step {
    match Lookup(p, id)
    case None => Step(p, Raised(NotFound))
    case Some(r) => if r.status == Closed then Step(p, Ok(r)) else Stored(p, r.(status := Closed))
  }

  function Attach(p: Plane, id: Name, instance: string): Step {
    if Given(Some(instance)).None? then Step(p, Raised(PlaneError))
    else
      var i: Handle := HandleOf(instance);
      match Lookup(p, id)
      case None => Step(p, Raised(NotFound))
      case Some(r) =>
        if r.status == Closed then Step(p, Raised(SessionClosed))
        else if i in p.owners && p.owners[i] != r.id then Step(p, Raised(AttachedElsewhere))
        else if i in r.instances then
          if r.focus.None? then Stored(p, r.(focus := Some(i))) else Step(p, Ok(r))
        else Stored(p, Record(r.id, Active, r.instances + [i], Some(i)))
  }

  function Detach(p: Plane, id: Name, instance: string): Step {
    if Given(Some(instance)).None? then Step(p, Raised(PlaneError))
    else
      var i: Handle := HandleOf(instance);
      match Lookup(p, id)
      case None => Step(p, Raised(NotFound))
      case Some(r) =>
        if i !in r.instances then Step(p, Ok(r))
        else
          var left := Without(r.instances, i);
          var focus := if r.focus != Some(i) then r.focus else LastOf(left);
          Stored(p, r.(instances := left, focus := focus))
  }

  function Focus(p: Plane, id: Name, instance: string): Step {
    if Given(Some(instance)).None? then Step(p, Raised(PlaneError))
    else
      var i: Handle := HandleOf(instance);
      match RequireOpen(p, id)
      case Raised(f) => Step(p, Raised(f))
      case Ok(r) =>
        if i !in r.instances then Step(p, Raised(PlaneError))
        else if r.focus == Some(i) then Step(p, Ok(r))
        else Stored(p, r.(focus := Some(i)))
  }

  function Unfocus(p: Plane, id: Name): Step {
    match RequireOpen(p, id)
    case Raised(f) => Step(p, Raised(f))
    case Ok(r) => if r.focus.None? then Step(p, Ok(r)) else Stored(p, r.(focus := None))
  }

  function RequireOpen(p: Plane, id: Name): Answer<Record> {
    match Lookup(p, id)
    case None => Raised(NotFound)
    case Some(r) => if r.status == Closed then Raised(SessionClosed) else Ok(r)
  }

  function HandleOf(raw: string): Handle
    requires Given(Some(raw)).Some?
  {
    StripTwice(raw);
    Trimmed(raw)
  }

  function LastOf<T>(s: seq<T>): Option<T> {
    if s == [] then None else Some(s[|s| - 1])
  }

  function Next(p: Plane, op: Op): Plane {
    match op
    case OpenOp(id, token) => OpenId(p, if Given(id).Some? then Given(id).value else OutsideId(token)).plane
    case BindOp(id, create, token) => Bind(p, id, create, token).plane
    case ServiceOp(origin) => EnsureService(p, origin).plane
    case CloseOp(session) => Close(p, session).plane
    case AttachOp(session, instance) => Attach(p, session, instance).plane
    case DetachOp(session, instance) => Detach(p, session, instance).plane
    case FocusOp(session, instance) => Focus(p, session, instance).plane
    case UnfocusOp(session) => Unfocus(p, session).plane
    case DeleteOp(session) => Delete(p, session)
  }

  function Run(p: Plane, ops: seq<Op>): Plane
    decreases |ops|
  {
    if ops == [] then p else Run(Next(p, ops[0]), ops[1..])
  }

  // ---------------------------------------------------------------------------
  // What every run keeps
  // ---------------------------------------------------------------------------

  /** A record under its own trimmed id: no instance twice, the focus is attached, work makes it active. */
  predicate Proper(r: Record, id: Name) {
    && r.id == id && Tidy(id) && Distinct(r.instances)
    && (r.focus.Some? ==> r.focus.value in r.instances)
    && (r.instances != [] ==> r.status != Open)
  }

  ghost predicate Records(p: Plane) {
    forall s :: s in p.entries ==> Proper(p.entries[s], s)
  }

  predicate Holds(p: Plane, s: Name, i: Handle) {
    s in p.entries && i in p.entries[s].instances
  }

  /** The reverse index says exactly which session holds an instance. */
  ghost predicate Mirrored(p: Plane) {
    forall s: Name, i: Handle :: Holds(p, s, i) <==> i in p.owners && p.owners[i] == s
  }

  ghost predicate Indexed(p: Plane) {
    Distinct(p.index) && forall s :: s in p.index <==> s in p.entries
  }

  ghost predicate Sound(p: Plane) {
    Records(p) && Mirrored(p) && Indexed(p)
  }

  /** Writing a proper record that takes no instance from another session. */
  lemma PutKeepsSound(p: Plane, r: Record)
    requires Sound(p) && Proper(r, r.id)
    requires forall i | i in r.instances :: i in p.owners ==> p.owners[i] == r.id
    ensures Sound(Put(p, r))
  {
    var q := Put(p, r);
    forall s: Name, i: Handle ensures Holds(q, s, i) <==> i in q.owners && q.owners[i] == s {
      assert Holds(p, s, i) <==> i in p.owners && p.owners[i] == s;
      assert Holds(p, r.id, i) <==> i in p.owners && p.owners[i] == r.id;
    }
  }

  lemma DeleteKeepsMirrored(p: Plane, id: Name)
    requires Mirrored(p)
    ensures Mirrored(Delete(p, id))
  {
    var q := Delete(p, id);
    forall s: Name, i: Handle ensures Holds(q, s, i) <==> i in q.owners && q.owners[i] == s {
      assert Holds(p, s, i) <==> i in p.owners && p.owners[i] == s;
      assert Holds(p, id, i) <==> i in p.owners && p.owners[i] == id;
    }
  }

  lemma DeleteKeepsSound(p: Plane, id: Name)
    requires Sound(p)
    ensures Sound(Delete(p, id)) && id !in Delete(p, id).entries
  {
    DeleteKeepsMirrored(p, id);
    RemoveFirstIsWithout(p.index, id);
    WithoutExactly(p.index, id);
  }

  /** The attach list and the focus that each successful call leaves. */
  lemma AttachKeepsSound(p: Plane, id: Name, instance: string)
    requires Sound(p)
    ensures Sound(Attach(p, id, instance).plane)
  {
    if Given(Some(instance)).Some? && id in p.entries {
      var i: Handle, r := HandleOf(instance), Load(p.entries[id]);
      var took := Record(r.id, Active, r.instances + [i], Some(i));
      forall j | j in r.instances ensures j in p.owners && p.owners[j] == id {
        assert Holds(p, id, j);
      }
      if !(i in p.owners && p.owners[i] != id) {
        if i in r.instances {
          PutKeepsSound(p, r.(focus := Some(i)));
        } else {
          PutKeepsSound(p, took);
        }
      }
    }
  }

  lemma DetachKeepsSound(p: Plane, id: Name, instance: string)
    requires Sound(p)
    ensures Sound(Detach(p, id, instance).plane)
  {
    if Given(Some(instance)).Some? && id in p.entries {
      var i: Handle, r := HandleOf(instance), Load(p.entries[id]);
      forall j | j in r.instances ensures j in p.owners && p.owners[j] == id {
        assert Holds(p, id, j);
      }
      WithoutExactly(r.instances, i);
      if i in r.instances {
        PutKeepsSound(p, Detach(p, id, instance).answer.value);
      }
    }
  }

  /** Writing back a record with other status or focus. */
  lemma RewriteKeepsSound(p: Plane, r: Record)
    requires Sound(p) && r.id in p.entries && r.instances == p.entries[r.id].instances
    requires r.focus.Some? ==> r.focus.value in r.instances
    requires r.status == Open ==> p.entries[r.id].status == Open
    ensures Sound(Put(p, r))
  {
    forall j | j in r.instances ensures j in p.owners && p.owners[j] == r.id {
      assert Holds(p, r.id, j);
    }
    PutKeepsSound(p, r);
  }

  lemma OpenKeepsSound(p: Plane, id: Name)
    requires Sound(p) && Tidy(id)
    ensures Sound(OpenId(p, id).plane)
  {
    if id !in p.entries {
      PutKeepsSound(p, Record(id, Open, [], None));
    }
  }

  lemma OpenAnyKeepsSound(p: Plane, id: Option<string>, token: Token)
    requires Sound(p)
    ensures Sound(OpenId(p, if Given(id).Some? then Given(id).value else OutsideId(token)).plane)
  {
    GivenIsTidy(id);
    OutsideIsNotService(token);
    OpenKeepsSound(p, if Given(id).Some? then Given(id).value else OutsideId(token));
  }

  lemma ServiceKeepsSound(p: Plane, origin: string)
    requires Sound(p)
    ensures Sound(EnsureService(p, origin).plane)
  {
    ServiceIdShape(origin);
    if ServiceId(origin).Some? {
      OpenKeepsSound(p, ServiceId(origin).value);
    }
  }

  lemma CloseKeepsSound(p: Plane, id: Name)
    requires Sound(p)
    ensures Sound(Close(p, id).plane)
  {
    if id in p.entries {
      RewriteKeepsSound(p, p.entries[id].(status := Closed));
    }
  }

  lemma FocusKeepsSound(p: Plane, id: Name, instance: string)
    requires Sound(p)
    ensures Sound(Focus(p, id, instance).plane)
  {
    if Given(Some(instance)).Some? && id in p.entries && HandleOf(instance) in p.entries[id].instances {
      RewriteKeepsSound(p, p.entries[id].(focus := Some(HandleOf(instance))));
    }
  }

  lemma UnfocusKeepsSound(p: Plane, id: Name)
    requires Sound(p)
    ensures Sound(Unfocus(p, id).plane)
  {
    if id in p.entries {
      RewriteKeepsSound(p, p.entries[id].(focus := None));
    }
  }

  lemma NextKeepsSound(p: Plane, op: Op)
    requires Sound(p)
    ensures Sound(Next(p, op))
  {
    match op {
      case OpenOp(id, token) => OpenAnyKeepsSound(p, id, token);
      case BindOp(id, create, token) => OpenAnyKeepsSound(p, id, token);
      case ServiceOp(origin) => ServiceKeepsSound(p, origin);
      case CloseOp(session) => CloseKeepsSound(p, session);
      case AttachOp(session, instance) => AttachKeepsSound(p, session, instance);
      case DetachOp(session, instance) => DetachKeepsSound(p, session, instance);
      case FocusOp(session, instance) => FocusKeepsSound(p, session, instance);
      case UnfocusOp(session) => UnfocusKeepsSound(p, session);
      case DeleteOp(session) => DeleteKeepsSound(p, session);
    }
  }

  lemma {:induction false} RunKeepsSound(p: Plane, ops: seq<Op>)
    requires Sound(p)
    ensures Sound(Run(p, ops))
    decreases |ops|
  {
    if ops != [] {
      NextKeepsSound(p, ops[0]);
      RunKeepsSound(Next(p, ops[0]), ops[1..]);
    }
  }

  /** After any run of calls no instance belongs to two sessions. */
  lemma EveryRunHasOneOwner(ops: seq<Op>)
    ensures Sound(Run(EMPTY, ops))
    ensures forall s, t, i: Handle :: Holds(Run(EMPTY, ops), s, i) && Holds(Run(EMPTY, ops), t, i) ==> s == t
  {
    RunKeepsSound(EMPTY, ops);
  }

  // ---------------------------------------------------------------------------
  // What single calls promise
  // ---------------------------------------------------------------------------

  /** Attaching is refused for an instance of another session, and for nothing else about the instance. */
  lemma AttachExactly(p: Plane, id: Name, instance: string)
    requires Sound(p)
    ensures var i := Given(Some(instance));
            var step := Attach(p, id, instance);
            && (step.answer.Ok? <==>
                  && i.Some? && RequireOpen(p, id).Ok?
                  && forall s :: Holds(p, s, HandleOf(instance)) ==> s == id)
            && (step.answer.Ok? ==> Holds(step.plane, id, i.value) && step.plane.entries[id].status == Active)
            && (step.answer.Raised? ==> step.plane == p)
  {
    if Given(Some(instance)).Some? {
      var i: Handle := HandleOf(instance);
      assert i in p.owners ==> Holds(p, p.owners[i], i);
      assert forall s :: Holds(p, s, i) ==> i in p.owners && p.owners[i] == s;
    }
  }

  /** One call answered ok: the record of its target is r now, all other records are as they were, and a new id comes last. */
  ghost predicate NowIs(p: Plane, step: Step, id: Name, r: Record) {
    && step.answer == Ok(r) && step.plane.entries == p.entries[id := r]
    && step.plane.index == if id in p.index then p.index else p.index + [id]
  }

  /** An attach that goes through: a new instance comes last, becomes the focus and makes the session active; an
      instance that is there already becomes the focus only if there is none. */
  lemma AttachLeaves(p: Plane, id: Name, instance: string)
    requires Sound(p) && Attach(p, id, instance).answer.Ok?
    ensures id in p.entries && Strip(instance) != "" && p.entries[id].status != Closed
    ensures var step, r := Attach(p, id, instance), p.entries[id];
            var i: Handle := HandleOf(instance);
            && i.text == Strip(instance)
            && NowIs(p, step, id,
                     if i !in r.instances then Record(id, Active, r.instances + [i], Some(i))
                     else if r.focus.None? then r.(focus := Some(i))
                     else r)
  {
    assert p.entries[id := p.entries[id]] == p.entries;
  }

  /** Why an attach is refused, in the order of the checks. */
  lemma AttachRefusals(p: Plane, id: Name, instance: string)
    requires Sound(p)
    ensures var answer := Attach(p, id, instance).answer;
            && (answer == Raised(PlaneError) <==> Strip(instance) == "")
            && (answer == Raised(NotFound) <==> Strip(instance) != "" && id !in p.entries)
            && (answer == Raised(SessionClosed) <==> Strip(instance) != "" && id in p.entries && p.entries[id].status == Closed)
            && (answer.Raised? ==> answer.fault in {PlaneError, NotFound, SessionClosed, AttachedElsewhere})
  {}

  /** A detach: the instance goes, the others keep their order and the session its status; the focus stays unless it was
      the one that goes, and then passes to the last one left. Closed sessions too let go. */
  lemma DetachLeaves(p: Plane, id: Name, instance: string, before: seq<Handle>, after: seq<Handle>)
    requires Sound(p) && Strip(instance) != "" && id in p.entries
    requires p.entries[id].instances == before + [HandleOf(instance)] + after
    ensures var step, r := Detach(p, id, instance), p.entries[id];
            var left := before + after;
            NowIs(p, step, id, r.(instances := left,
                                  focus := if r.focus != Some(HandleOf(instance)) then r.focus
                                           else if left == [] then None
                                           else Some(left[|left| - 1])))
  {
    DistinctAround(before, HandleOf(instance), after);
    WithoutMiddle(before, HandleOf(instance), after);
  }

  /** A detach that takes nothing away: no instance named, no such session, or not attached there. */
  lemma DetachRefusals(p: Plane, id: Name, instance: string)
    requires Sound(p)
    ensures var step := Detach(p, id, instance);
            if Strip(instance) == "" then step == Step(p, Raised(PlaneError))
            else if id !in p.entries then step == Step(p, Raised(NotFound))
            else if HandleOf(instance) !in p.entries[id].instances then step == Step(p, Ok(p.entries[id]))
            else step.answer.Ok?
  {}

  /** Focus, unfocus and close write one field of one record, and say why they do not. */
  lemma FieldCalls(p: Plane, id: Name, instance: string)
    requires Sound(p)
    ensures var step := Focus(p, id, instance);
            if Strip(instance) == "" then step == Step(p, Raised(PlaneError))
            else if id !in p.entries then step == Step(p, Raised(NotFound))
            else if p.entries[id].status == Closed then step == Step(p, Raised(SessionClosed))
            else if HandleOf(instance) !in p.entries[id].instances then step == Step(p, Raised(PlaneError))
            else NowIs(p, step, id, p.entries[id].(focus := Some(HandleOf(instance))))
    ensures var step := Unfocus(p, id);
            if id !in p.entries then step == Step(p, Raised(NotFound))
            else if p.entries[id].status == Closed then step == Step(p, Raised(SessionClosed))
            else NowIs(p, step, id, p.entries[id].(focus := None))
    ensures var step := Close(p, id);
            if id !in p.entries then step == Step(p, Raised(NotFound))
            else NowIs(p, step, id, p.entries[id].(status := Closed))
  {
    if id in p.entries {
      assert p.entries[id := p.entries[id]] == p.entries;
    }
  }

  /** Binding a session: minted, opened under the id given, found, or refused. */
  lemma BindIs(p: Plane, id: Option<string>, create: bool, token: Token)
    requires Sound(p)
    ensures var step := Bind(p, id, create, token);
            var blank := id.None? || Strip(id.value) == "";
            var n := if blank then Name("sess-" + token) else Name(Strip(id.value));
            if blank && !create then step == Step(p, Raised(PlaneError))
            else if n in p.entries && p.entries[n].status == Closed then
              step == Step(p, Raised(if blank then PlaneError else SessionClosed))
            else if n in p.entries then step == Step(p, Ok(p.entries[n]))
            else if create then NowIs(p, step, n, Record(n, Open, [], None))
            else step == Step(p, Raised(NotFound))
  {}

  /** Deleting one takes its record and its place in the list of ids. */
  lemma DeleteLeaves(p: Plane, gone: Name, before: seq<Name>, after: seq<Name>)
    requires Sound(p)
    ensures Delete(p, gone).entries == p.entries - {gone}
    ensures p.index == before + [gone] + after ==> Delete(p, gone).index == before + after
    ensures gone !in p.index ==> Delete(p, gone) == p
  {
    RemoveFirstIsWithout(p.index, gone);
    if p.index == before + [gone] + after {
      DistinctAround(before, gone, after);
      WithoutMiddle(before, gone, after);
    }
  }

  /** Attaching an instance that no session holds to an open session. */
  ghost predicate Attachable(p: Plane, id: Name, instance: string) {
    && Sound(p) && RequireOpen(p, id).Ok?
    && Given(Some(instance)).Some? && HandleOf(instance) !in p.owners
  }

  lemma FreshAttach(p: Plane, id: Name, instance: string, mid: Plane)
    requires Attachable(p, id, instance) && mid == Attach(p, id, instance).plane
    ensures mid.index == p.index && HandleOf(instance) !in p.entries[id].instances
    ensures mid.entries ==
            p.entries[id := Record(id, Active, p.entries[id].instances + [HandleOf(instance)], Some(HandleOf(instance)))]
  {
    OwnedByNone(p, id, HandleOf(instance));
  }

  lemma OwnedByNone(p: Plane, s: Name, i: Handle)
    requires Mirrored(p) && i !in p.owners
    ensures !Holds(p, s, i)
  {}

  lemma DetachLast(mid: Plane, id: Name, instance: string, was: seq<Handle>)
    requires Given(Some(instance)).Some? && HandleOf(instance) !in was && id in mid.index && id in mid.entries
    requires mid.entries[id] == Record(id, Active, was + [HandleOf(instance)], Some(HandleOf(instance)))
    ensures var q := Detach(mid, id, instance).plane;
            q.index == mid.index && q.entries == mid.entries[id := Record(id, Active, was, LastOf(was))]
  {
    WithoutLast(was, HandleOf(instance));
  }

  lemma DetachAfterAttach(p: Plane, id: Name, instance: string) returns (r: Record)
    requires Attachable(p, id, instance)
    ensures var q := Detach(Attach(p, id, instance).plane, id, instance).plane;
            r == Record(id, Active, p.entries[id].instances, LastOf(p.entries[id].instances))
            && q.index == p.index && q.entries == p.entries[id := r]
  {
    var mid := Attach(p, id, instance).plane;
    FreshAttach(p, id, instance, mid);
    DetachLast(mid, id, instance, p.entries[id].instances);
    r := Record(id, Active, p.entries[id].instances, LastOf(p.entries[id].instances));
    Overwritten(p.entries, id, mid.entries[id], r);
  }

  lemma Overwritten<K, V>(m: map<K, V>, k: K, a: V, b: V)
    ensures m[k := a][k := b] == m[k := b]
  {}

  lemma DetachAfterAttachSound(p: Plane, id: Name, instance: string)
    requires Sound(p)
    ensures Sound(Detach(Attach(p, id, instance).plane, id, instance).plane)
  {
    AttachKeepsSound(p, id, instance);
    DetachKeepsSound(Attach(p, id, instance).plane, id, instance);
  }

  /** Attaching a new instance and detaching it again leaves nothing of it, except that the focus is on the last
      instance and the session is active. */
  lemma DetachUndoesAttach(p: Plane, id: Name, instance: string)
    requires Sound(p) && RequireOpen(p, id).Ok?
    requires Given(Some(instance)).Some? && HandleOf(instance) !in p.owners
    ensures var q := Detach(Attach(p, id, instance).plane, id, instance).plane;
            && q.owners == p.owners && q.index == p.index
            && q.entries == p.entries[id := p.entries[id].(status := Active, focus := LastOf(p.entries[id].instances))]
  {
    var r := DetachAfterAttach(p, id, instance);
    DetachAfterAttachSound(p, id, instance);
    Rewritten(p, Detach(Attach(p, id, instance).plane, id, instance).plane, id, r);
  }

  lemma Rewritten(p: Plane, q: Plane, id: Name, r: Record)
    requires Sound(p) && Sound(q) && id in p.entries && r.id == id && r.instances == p.entries[id].instances
    requires q.entries == p.entries[id := r]
    ensures q.owners == p.owners
    ensures r == p.entries[id].(status := r.status, focus := r.focus)
  {
    SameOwners(p, q);
  }

  /** The reverse index is determined by the attach lists. */
  lemma SameOwners(p: Plane, q: Plane)
    requires Mirrored(p) && Mirrored(q)
    requires p.entries.Keys == q.entries.Keys
    requires forall s | s in p.entries :: p.entries[s].instances == q.entries[s].instances
    ensures p.owners == q.owners
  {
    assert forall s, i: Handle :: Holds(p, s, i) <==> Holds(q, s, i);
    forall i: Handle ensures i in p.owners ==> i in q.owners && q.owners[i] == p.owners[i] {
      assert i in p.owners ==> Holds(q, p.owners[i], i);
    }
    forall i: Handle ensures i in q.owners ==> i in p.owners {
      assert i in q.owners ==> Holds(p, q.owners[i], i);
    }
  }

  /** The session a call works on. */
  function Target(op: Op): Option<Name> {
    match op
    case OpenOp(id, token) => Some(if Given(id).Some? then Given(id).value else OutsideId(token))
    case BindOp(id, create, token) => Some(if Given(id).Some? then Given(id).value else OutsideId(token))
    case ServiceOp(origin) => ServiceId(origin)
    case _ => Some(op.session)
  }

  /** A call leaves every other session and its instances alone. */
  lemma OnlyTargetChanges(p: Plane, op: Op, s: Name)
    requires Sound(p) && Target(op) != Some(s)
    ensures s in p.entries <==> s in Next(p, op).entries
    ensures s in p.entries ==> Next(p, op).entries[s] == p.entries[s]
    ensures OwnedBy(p, s) == OwnedBy(Next(p, op), s)
  {
    NextKeepsSound(p, op);
    OtherEntries(p, op, s);
    SameOwned(p, Next(p, op), s);
  }

  /** What a call other than a delete does to the entries: it writes at most the record of its target, and a closed
      one only as closed and with no new instance. */
  ghost predicate Writes(p: Plane, q: Plane, target: Option<Name>) {
    || q.entries == p.entries
    || exists r: Record ::
         && target == Some(r.id) && q.entries == p.entries[r.id := r]
         && (r.id in p.entries && p.entries[r.id].status == Closed ==>
               r.status == Closed && forall i | i in r.instances :: i in p.entries[r.id].instances)
  }

  lemma PutWrites(p: Plane, r: Record)
    requires r.id in p.entries && p.entries[r.id].status == Closed ==>
               r.status == Closed && forall i | i in r.instances :: i in p.entries[r.id].instances
    ensures Writes(p, Put(p, r), Some(r.id))
  {}

  lemma OpenWrites(p: Plane, id: Name)
    ensures Writes(p, OpenId(p, id).plane, Some(id))
  {
    if id !in p.entries {
      PutWrites(p, Record(id, Open, [], None));
    }
  }

  lemma StepWrites(p: Plane, step: Step, id: Name)
    requires step.plane == p || (step.answer.Ok? && step == Stored(p, step.answer.value) && step.answer.value.id == id)
    requires id in p.entries && p.entries[id].status == Closed && step.answer.Ok? ==>
               && step.answer.value.status == Closed
               && forall i | i in step.answer.value.instances :: i in p.entries[id].instances
    ensures Writes(p, step.plane, Some(id))
  {
    if step.plane != p {
      PutWrites(p, step.answer.value);
    }
  }

  lemma AttachWrites(p: Plane, id: Name, instance: string)
    requires forall t | t in p.entries :: p.entries[t].id == t
    ensures Writes(p, Attach(p, id, instance).plane, Some(id))
  {
    StepWrites(p, Attach(p, id, instance), id);
  }

  lemma DetachWrites(p: Plane, id: Name, instance: string)
    requires forall t | t in p.entries :: p.entries[t].id == t
    ensures Writes(p, Detach(p, id, instance).plane, Some(id))
  {
    if Given(Some(instance)).Some? && id in p.entries {
      WithoutExactly(p.entries[id].instances, HandleOf(instance));
    }
    StepWrites(p, Detach(p, id, instance), id);
  }

  lemma NextWrites(p: Plane, op: Op)
    requires !op.DeleteOp? && forall t | t in p.entries :: p.entries[t].id == t
    ensures Writes(p, Next(p, op), Target(op))
  {
    match op {
      case OpenOp(id, token) => OpenWrites(p, if Given(id).Some? then Given(id).value else OutsideId(token));
      case BindOp(id, create, token) => OpenWrites(p, if Given(id).Some? then Given(id).value else OutsideId(token));
      case ServiceOp(origin) =>
        if ServiceId(origin).Some? {
          OpenWrites(p, ServiceId(origin).value);
        }
      case CloseOp(session) => StepWrites(p, Close(p, session), session);
      case AttachOp(session, instance) => AttachWrites(p, session, instance);
      case DetachOp(session, instance) => DetachWrites(p, session, instance);
      case FocusOp(session, instance) => StepWrites(p, Focus(p, session, instance), session);
      case UnfocusOp(session) => StepWrites(p, Unfocus(p, session), session);
    }
  }

  lemma OtherEntries(p: Plane, op: Op, s: Name)
    requires Target(op) != Some(s)
    requires forall t | t in p.entries :: p.entries[t].id == t
    ensures s in p.entries <==> s in Next(p, op).entries
    ensures s in p.entries ==> Next(p, op).entries[s] == p.entries[s]
  {
    if !op.DeleteOp? {
      NextWrites(p, op);
    }
  }

  /** The instances that the reverse index gives to a session. */
  function OwnedBy(p: Plane, s: Name): set<Handle> {
    set i | i in p.owners && p.owners[i] == s
  }

  lemma SameOwned(p: Plane, q: Plane, s: Name)
    requires Mirrored(p) && Mirrored(q) && Attached(p, s) == Attached(q, s)
    ensures OwnedBy(p, s) == OwnedBy(q, s)
  {
    MirroredAt(p, s);
    MirroredAt(q, s);
  }

  lemma MirroredAt(p: Plane, s: Name)
    requires Mirrored(p)
    ensures OwnedBy(p, s) == Attached(p, s)
  {
    forall i: Handle ensures i in OwnedBy(p, s) <==> i in Attached(p, s) {
      assert Holds(p, s, i) <==> i in p.owners && p.owners[i] == s;
    }
  }

  /** A bind or a service start that succeeds hands out a session that accepts work, and never changes an old one. */
  lemma EntryIsOpen(p: Plane, op: Op)
    requires Sound(p) && (op.BindOp? || op.ServiceOp?)
    ensures var step := if op.BindOp? then Bind(p, op.id, op.create, op.token) else EnsureService(p, op.origin);
            && (step.answer.Ok? ==> Target(op) == Some(step.answer.value.id) && RequireOpen(step.plane, step.answer.value.id).Ok?)
            && (step.answer.Ok? <==>
                  && Target(op).Some?
                  && (op.ServiceOp? || op.create || (Given(op.id).Some? && Target(op).value in p.entries))
                  && (Target(op).value in p.entries ==> p.entries[Target(op).value].status != Closed))
            && (forall s | s in p.entries :: s in step.plane.entries && step.plane.entries[s] == p.entries[s])
            && (forall s | s in step.plane.entries && s !in p.entries :: step.plane.entries[s] == Record(s, Open, [], None))
  {}

  /** A closed session is never reopened and gets no new instance, for as long as it is not deleted. */
  ghost predicate Sealed(p: Plane, id: Name, before: seq<Handle>) {
    id in p.entries && p.entries[id].status == Closed && forall i | i in p.entries[id].instances :: i in before
  }

  lemma {:induction false} RunKeepsSealed(p: Plane, ops: seq<Op>, id: Name, before: seq<Handle>)
    requires Sound(p) && Sealed(p, id, before) && DeleteOp(id) !in ops
    ensures Sealed(Run(p, ops), id, before)
    decreases |ops|
  {
    if ops != [] {
      NextKeepsSound(p, ops[0]);
      assert ops[0] in ops && forall op | op in ops[1..] :: op in ops;
      NextKeepsSealed(p, ops[0], id, before);
      RunKeepsSealed(Next(p, ops[0]), ops[1..], id, before);
    }
  }

  lemma NextKeepsSealed(p: Plane, op: Op, id: Name, before: seq<Handle>)
    requires Sound(p) && Sealed(p, id, before) && op != DeleteOp(id)
    ensures Sealed(Next(p, op), id, before)
  {
    if !op.DeleteOp? {
      NextWrites(p, op);
    }
  }

  // ---------------------------------------------------------------------------
  // Ownership questions
  // ---------------------------------------------------------------------------

  function OwnsInstance(p: Plane, session: string, instance: string): bool {
    && Given(Some(session)).Some? && Given(Some(instance)).Some?
    && Trimmed(session) in p.entries
    && (|| HandleOf(instance) in p.entries[Trimmed(session)].instances
        || (HandleOf(instance) in p.owners && p.owners[HandleOf(instance)] == Trimmed(session)))
  }

  /** May session s continue instance i: it is not closed and i is attached to it. */
  predicate MayContinue(p: Plane, s: Name, i: Handle) {
    Holds(p, s, i) && p.entries[s].status != Closed
  }

  /** The order of preference among the attached instances of a record. */
  ghost predicate Preferred(r: Record, waiting: seq<Option<Handle>>, i: Handle) {
    if r.focus.Some? then i == r.focus.value
    else if exists j :: 0 <= j < |waiting| && waiting[j].Some? && waiting[j].value in r.instances then
      exists j :: && 0 <= j < |waiting| && waiting[j] == Some(i) && i in r.instances
                  && forall k | j < k < |waiting| :: waiting[k].None? || waiting[k].value !in r.instances
    else Some(i) == LastOf(r.instances)
  }

  /** Which instance a session continues with after a call has changed its focus: the one just focused or newly
      attached, and the last one left after the focused one was detached. Waits then play no part. */
  lemma FocusDecides(p: Plane, id: Name, instance: string, waiting: seq<Option<Handle>>, i: Handle)
    requires Sound(p) && Given(Some(instance)).Some?
    ensures var step := Focus(p, id, instance);
            step.answer.Ok? ==> (Preferred(step.plane.entries[id], waiting, i) <==> i == HandleOf(instance))
    ensures var step := Attach(p, id, instance);
            step.answer.Ok? && !Holds(p, id, HandleOf(instance)) ==>
              (Preferred(step.plane.entries[id], waiting, i) <==> i == HandleOf(instance))
    ensures var step := Detach(p, id, instance);
            step.answer.Ok? && p.entries[id].focus == Some(HandleOf(instance)) && step.plane.entries[id].instances != [] ==>
              (Preferred(step.plane.entries[id], waiting, i) <==> Some(i) == LastOf(step.plane.entries[id].instances))
  {}

  /** Taking the focus away leaves everything else of the record, and the choice to the waits and the attach order. */
  lemma UnfocusDecides(p: Plane, id: Name, waiting: seq<Option<Handle>>, i: Handle)
    requires Sound(p) && Unfocus(p, id).answer.Ok?
    requires forall j | 0 <= j < |waiting| :: waiting[j].None? || waiting[j].value !in p.entries[id].instances
    ensures var r := Unfocus(p, id).plane.entries[id];
            r == p.entries[id].(focus := None) && (Preferred(r, waiting, i) <==> Some(i) == LastOf(r.instances))
  {}

  /** Without a focus the newest wait decides whose instance is still attached, and the attach order if there is none. */
  lemma WaitDecides(r: Record, waiting: seq<Option<Handle>>, j: int, i: Handle)
    requires r.focus.None? && -1 <= j < |waiting|
    requires j >= 0 ==> waiting[j].Some? && waiting[j].value in r.instances
    requires forall k | j < k < |waiting| :: waiting[k].None? || waiting[k].value !in r.instances
    ensures Preferred(r, waiting, i) <==>
              if j >= 0 then Some(i) == waiting[j] else r.instances != [] && i == r.instances[|r.instances| - 1]
  {}

  /** Which instances may be continued: those attached to a session that is there and not closed. */
  lemma MayContinueIff(p: Plane, s: Name, i: Handle)
    requires Sound(p)
    ensures MayContinue(p, s, i) <==> RequireOpen(p, s).Ok? && i in p.owners && p.owners[i] == s
    ensures RequireOpen(p, s) ==
            if s !in p.entries then Raised(NotFound)
            else if p.entries[s].status == Closed then Raised(SessionClosed)
            else Ok(p.entries[s])
  {
    assert Holds(p, s, i) <==> i in p.owners && p.owners[i] == s;
  }

  /** Closing ends work under a session but not its history: it owns what it owned, and nothing may be continued. */
  lemma CloseKeepsHistory(p: Plane, id: Name, i: Handle)
    requires Sound(p) && Close(p, id).answer.Ok?
    ensures var q := Close(p, id).plane;
            && (Holds(q, id, i) <==> Holds(p, id, i)) && q.owners == p.owners
            && !MayContinue(q, id, i) && RequireOpen(q, id) == Raised(SessionClosed)
  {
    CloseKeepsSound(p, id);
    SameOwners(p, Close(p, id).plane);
  }

  /** The second half of the ownership test never decides: the attach list alone does. */
  lemma OwnsIsHolds(p: Plane, session: string, instance: string)
    requires Sound(p) && Given(Some(session)).Some? && Given(Some(instance)).Some?
    ensures OwnsInstance(p, session, instance) <==> Holds(p, Trimmed(session), HandleOf(instance))
  {
    assert HandleOf(instance) in p.owners ==> Holds(p, p.owners[HandleOf(instance)], HandleOf(instance));
  }
}
