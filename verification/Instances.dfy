/** A durable process instance: its bounded history, and what survives being stored and loaded. */
module Instances {
  import opened Basics
  import opened Texts

  /** A dictionary carried along as it is. */
  type Data = map<string, string>

  datatype Entry = Entry(status: string, at: string, detail: Data)

  datatype Snapshot = Snapshot(status: string, at: string, state: Data, job: string,
                               step: Option<string>, position: Data, detail: Data)

  /** The fields that appending changes. */
  datatype History = History(status: string, version: int, entries: seq<Entry>, snapshots: seq<Snapshot>, updated: string)

  datatype Event =
    | StatusEvent(status: string, detail: map<string, Option<string>>, now: string)
    | SnapshotEvent(snapshot: Snapshot, bound: int, now: string)

  function Present(detail: map<string, Option<string>>): Data {
    map k | k in detail && detail[k].Some? :: detail[k].value
  }

  function Limit(bound: int): int {
    if bound > 1 then bound else 1
  }

  /** The last n elements, or all of them if there are fewer. */
  function Last<T>(s: seq<T>, n: nat): seq<T> {
    if |s| > n then s[|s| - n..] else s
  }

  function Append(h: History, e: Event): History {
    match e
    case StatusEvent(status, detail, now) =>
      History(status, h.version + 1, h.entries + [Entry(status, now, Present(detail))], h.snapshots, now)
    case SnapshotEvent(snapshot, bound, now) =>
      History(h.status, h.version + 1, h.entries, Last(h.snapshots + [snapshot], Limit(bound)), now)
  }

  function AppendAll(h: History, es: seq<Event>): History
    decreases |es|
  {
    if es == [] then h else AppendAll(Append(h, es[0]), es[1..])
  }

  function SnapshotsIn(es: seq<Event>): seq<Snapshot> {
    if es == [] then []
    else (if es[0].SnapshotEvent? then [es[0].snapshot] else []) + SnapshotsIn(es[1..])
  }

  function StatusesIn(es: seq<Event>): seq<string> {
    if es == [] then []
    else (if es[0].StatusEvent? then [es[0].status] else []) + StatusesIn(es[1..])
  }

  function StatusesOf(entries: seq<Entry>): seq<string> {
    seq(|entries|, i requires 0 <= i < |entries| => entries[i].status)
  }

  /** What one append does to what the run theorems talk about. */
  lemma OneAppend(h: History, e: Event)
    ensures var r := Append(h, e);
            && r.version == h.version + 1
            && StatusesOf(r.entries) == StatusesOf(h.entries) + StatusesIn([e])
            && h.entries <= r.entries
            && r.snapshots == if e.SnapshotEvent? then Last(h.snapshots + [e.snapshot], Limit(e.bound)) else h.snapshots
  {}

  lemma OneEvent(es: seq<Event>)
    requires es != []
    ensures StatusesIn(es) == StatusesIn([es[0]]) + StatusesIn(es[1..])
    ensures SnapshotsIn(es) == SnapshotsIn([es[0]]) + SnapshotsIn(es[1..])
  {}

  lemma Associative<T>(a: seq<T>, b: seq<T>, c: seq<T>)
    ensures a + b + c == a + (b + c)
  {}

  /** Every append counts one version, and the entries hold all statuses in order. */
  lemma {:induction false} HistoryGrows(h: History, es: seq<Event>)
    ensures var r := AppendAll(h, es);
            && r.version == h.version + |es|
            && StatusesOf(r.entries) == StatusesOf(h.entries) + StatusesIn(es)
            && h.entries <= r.entries
    decreases |es|
  {
    if es != [] {
      OneAppend(h, es[0]);
      OneEvent(es);
      HistoryGrows(Append(h, es[0]), es[1..]);
      Associative(StatusesOf(h.entries), StatusesIn([es[0]]), StatusesIn(es[1..]));
    }
  }

  /** The status is that of the last entry, and the initial one until a status is appended. */
  lemma {:induction false} StatusIsLastEntry(h: History, es: seq<Event>)
    ensures var r := AppendAll(h, es);
            if StatusesIn(es) == [] then r.status == h.status && r.entries == h.entries
            else r.entries != [] && r.status == r.entries[|r.entries| - 1].status
    decreases |es|
  {
    if es != [] {
      OneEvent(es);
      StatusIsLastEntry(Append(h, es[0]), es[1..]);
    }
  }

  lemma {:induction false} BufferIsLimited(h: History, es: seq<Event>, bound: int)
    requires forall e | e in es :: e.SnapshotEvent? ==> e.bound == bound
    requires |h.snapshots| <= Limit(bound)
    ensures AppendAll(h, es).snapshots == Last(h.snapshots + SnapshotsIn(es), Limit(bound))
    decreases |es|
  {
    if es == [] {
      assert h.snapshots + [] == h.snapshots;
    } else {
      var rest := SnapshotsIn(es[1..]);
      assert es[0] in es && forall e | e in es[1..] :: e in es;
      BufferIsLimited(Append(h, es[0]), es[1..], bound);
      if es[0].SnapshotEvent? {
        LastStep(h.snapshots, es[0].snapshot, rest, Limit(bound));
      } else {
        assert [] + rest == rest;
      }
    }
  }

  /** With one bound, of which anything below one counts as one, the buffer is the last of all the snapshots there ever
      were, as many as the bound allows. */
  lemma BufferIsLast(h: History, es: seq<Event>, bound: int)
    requires forall e | e in es :: e.SnapshotEvent? ==> e.bound == bound
    requires |h.snapshots| <= if bound > 1 then bound else 1
    ensures var limit := if bound > 1 then bound else 1;
            var all := h.snapshots + SnapshotsIn(es);
            AppendAll(h, es).snapshots == if |all| > limit then all[|all| - limit..] else all
  {
    BufferIsLimited(h, es, bound);
  }

  lemma LastStep<T>(a: seq<T>, x: T, rest: seq<T>, n: nat)
    ensures Last(Last(a + [x], n) + rest, n) == Last(a + ([x] + rest), n)
  {
    LastTwice(a + [x], rest, n);
    Associative(a, [x], rest);
  }

  lemma LastTwice<T>(b: seq<T>, rest: seq<T>, n: nat)
    ensures Last(Last(b, n) + rest, n) == Last(b + rest, n)
  {
    if |b| > n {
      DropConcat(b, rest, |b| - n);
      LastOfSuffix(b + rest, |b| - n, n);
    }
  }

  lemma DropConcat<T>(b: seq<T>, rest: seq<T>, d: nat)
    requires d <= |b|
    ensures (b + rest)[d..] == b[d..] + rest
  {}

  lemma LastOfSuffix<T>(s: seq<T>, d: nat, n: nat)
    requires d + n <= |s|
    ensures Last(s[d..], n) == Last(s, n)
  {
    DropDrop(s, d, |s| - d - n);
  }

  lemma DropDrop<T>(s: seq<T>, i: nat, j: nat)
    requires i + j <= |s|
    ensures s[i..][j..] == s[i + j..]
  {}

  /** kept is what remains of all after dropping old elements only, and not all of them. */
  ghost predicate Newest<T>(kept: seq<T>, all: seq<T>) {
    |kept| <= |all| && kept == all[|all| - |kept|..] && (all != [] ==> kept != [])
  }

  /** Whatever the bounds, the buffer holds the newest snapshots, the very newest included. */
  lemma {:induction false} BufferHoldsNewest(h: History, es: seq<Event>, before: seq<Snapshot>)
    requires Newest(h.snapshots, before)
    ensures Newest(AppendAll(h, es).snapshots, before + SnapshotsIn(es))
    decreases |es|
  {
    if es == [] {
      assert before + [] == before;
    } else {
      NewestAppend(h, es[0], before);
      BufferHoldsNewest(Append(h, es[0]), es[1..], before + SnapshotsIn([es[0]]));
      OneEvent(es);
      Associative(before, SnapshotsIn([es[0]]), SnapshotsIn(es[1..]));
    }
  }

  lemma NewestAppend(h: History, e: Event, before: seq<Snapshot>)
    requires Newest(h.snapshots, before)
    ensures Newest(Append(h, e).snapshots, before + SnapshotsIn([e]))
  {
    if e.SnapshotEvent? {
      NewestStep(h.snapshots, before, e.snapshot, Limit(e.bound));
      OneSnapshot(e);
    } else {
      assert SnapshotsIn([e]) == [] && before + [] == before;
    }
  }

  lemma OneSnapshot(e: Event)
    requires e.SnapshotEvent?
    ensures SnapshotsIn([e]) == [e.snapshot]
  {}

  lemma NewestStep<T>(kept: seq<T>, all: seq<T>, x: T, n: nat)
    requires Newest(kept, all) && n > 0
    ensures Newest(Last(kept + [x], n), all + [x])
  {
    var d := |all| - |kept|;
    DropConcat(all, [x], d);
    if |kept| + 1 > n {
      DropDrop(all + [x], d, |kept| + 1 - n);
    }
  }

  // ---------------------------------------------------------------------------
  // Stored form
  // ---------------------------------------------------------------------------

  datatype Instance = Instance(id: string, job: string, history: History, session: Option<string>, metadata: Data,
                               step: Option<string>, created: string)

  datatype RawEntry = RawEntry(status: Option<string>, at: Option<string>, detail: Option<Data>)

  datatype RawSnapshot = RawSnapshot(status: Option<string>, at: Option<string>, state: Option<Data>, job: Option<string>,
                                     step: Option<string>, wizardStep: Option<string>,
                                     position: Option<Data>, detail: Option<Data>)

  /** The stored dictionary; keys may be missing, and list items that are no dictionaries are None. */
  datatype Raw = Raw(id: Option<string>, job: Option<string>, status: Option<string>, format: Option<int>,
                     version: Option<int>, entries: Option<seq<Option<RawEntry>>>,
                     snapshots: Option<seq<Option<RawSnapshot>>>, session: Option<string>, metadata: Option<Data>,
                     step: Option<string>, wizardStep: Option<string>, created: Option<string>, updated: Option<string>)

  const FORMAT := 2
  const SESSION_KEY := "session_id"

  function MetaSession(m: Data): Option<string> {
    if SESSION_KEY in m then Some(m[SESSION_KEY]) else None
  }

  function NonBlank(raw: Option<string>): Option<string> {
    if raw.Some? && Strip(raw.value) != "" then Some(Strip(raw.value)) else None
  }

  /** `resolved_session_id`. */
  function Resolved(i: Instance): Option<string> {
    if i.session.GetOr("") != "" then i.session else NonBlank(MetaSession(i.metadata))
  }

  /** `a or b` on optional texts. */
  function Either(a: Option<string>, b: Option<string>): Option<string> {
    if a.GetOr("") != "" then a else b
  }

  function EntriesToDict(es: seq<Entry>): seq<Option<RawEntry>> {
    if es == [] then []
    else [Some(RawEntry(Some(es[0].status), Some(es[0].at), Some(es[0].detail)))] + EntriesToDict(es[1..])
  }

  function EntriesFromDict(rs: seq<Option<RawEntry>>): Option<seq<Entry>> {
    if rs == [] then Some([])
    else
      var rest := EntriesFromDict(rs[1..]);
      match rs[0]
      case None => rest
      case Some(r) =>
        if r.status.None? || r.at.None? || rest.None? then None
        else Some([Entry(r.status.value, r.at.value, r.detail.GetOr(map[]))] + rest.value)
  }

  function SnapshotToDict(s: Snapshot): RawSnapshot {
    RawSnapshot(Some(s.status), Some(s.at), Some(s.state), Some(s.job), s.step, None, Some(s.position), Some(s.detail))
  }

  function SnapshotFromDict(r: RawSnapshot): Option<Snapshot> {
    if r.status.None? || r.at.None? || r.job.None? then None
    else Some(Snapshot(r.status.value, r.at.value, r.state.GetOr(map[]), r.job.value, Either(r.step, r.wizardStep),
                       r.position.GetOr(map[]), r.detail.GetOr(map[])))
  }

  function SnapshotsToDict(ss: seq<Snapshot>): seq<Option<RawSnapshot>> {
    if ss == [] then [] else [Some(SnapshotToDict(ss[0]))] + SnapshotsToDict(ss[1..])
  }

  function SnapshotsFromDict(rs: seq<Option<RawSnapshot>>): Option<seq<Snapshot>> {
    if rs == [] then Some([])
    else
      var rest := SnapshotsFromDict(rs[1..]);
      match rs[0]
      case None => rest
      case Some(r) =>
        var s := SnapshotFromDict(r);
        if s.None? || rest.None? then None else Some([s.value] + rest.value)
  }

  function ToDict(i: Instance): Raw {
    Raw(Some(i.id), Some(i.job), Some(i.history.status), Some(FORMAT), Some(i.history.version),
        Some(EntriesToDict(i.history.entries)), Some(SnapshotsToDict(i.history.snapshots)), i.session, Some(i.metadata),
        i.step, None, Some(i.created), Some(i.history.updated))
  }

  /** now stands for the time of loading. None where a required key is missing. */
  function FromDict(r: Raw, now: string): Option<Instance> {
    var entries := EntriesFromDict(r.entries.GetOr([]));
    var snapshots := SnapshotsFromDict(r.snapshots.GetOr([]));
    if r.id.None? || r.job.None? || r.status.None? || entries.None? || snapshots.None? then None
    else
      var meta := r.metadata.GetOr(map[]);
      var session := NonBlank(if r.session.Some? then r.session else MetaSession(meta));
      var version := r.version.GetOr(r.format.GetOr(1));
      Some(Instance(r.id.value, r.job.value,
                    History(r.status.value, version, entries.value, snapshots.value, r.updated.GetOr(now)),
                    session, meta, Either(r.step, r.wizardStep), r.created.GetOr(now)))
  }

  lemma {:induction false} EntriesRoundTrip(es: seq<Entry>)
    ensures EntriesFromDict(EntriesToDict(es)) == Some(es)
  {
    if es != [] {
      EntriesRoundTrip(es[1..]);
      assert EntriesToDict(es)[1..] == EntriesToDict(es[1..]);
      assert es == [Entry(es[0].status, es[0].at, es[0].detail)] + es[1..];
    }
  }

  /** A step slug that loading does not turn into a missing one. */
  predicate SteppedAs(step: Option<string>) {
    step != Some("")
  }

  lemma SnapshotRoundTrip(s: Snapshot)
    ensures SnapshotFromDict(SnapshotToDict(s)) == Some(s.(step := if SteppedAs(s.step) then s.step else None))
  {}

  lemma FirstAndRest<T>(x: T, rest: seq<T>, s: seq<T>)
    requires s != []
    ensures [x] + rest == s <==> x == s[0] && rest == s[1..]
  {
    assert ([x] + rest)[1..] == rest && s == [s[0]] + s[1..];
  }

  lemma {:induction false} SnapshotsRoundTrip(ss: seq<Snapshot>)
    ensures SnapshotsFromDict(SnapshotsToDict(ss)).Some?
    ensures forall s | s in SnapshotsFromDict(SnapshotsToDict(ss)).value :: SteppedAs(s.step)
    ensures SnapshotsFromDict(SnapshotsToDict(ss)).value == ss <==> forall s | s in ss :: SteppedAs(s.step)
  {
    if ss != [] {
      SnapshotsRoundTrip(ss[1..]);
      SnapshotRoundTrip(ss[0]);
      var first := SnapshotFromDict(SnapshotToDict(ss[0])).value;
      var again := SnapshotsFromDict(SnapshotsToDict(ss[1..])).value;
      assert SnapshotsToDict(ss)[1..] == SnapshotsToDict(ss[1..]);
      assert SnapshotsFromDict(SnapshotsToDict(ss)) == Some([first] + again);
      FirstAndRest(first, again, ss);
      assert (forall s | s in ss :: SteppedAs(s.step)) <==> SteppedAs(ss[0].step) && forall s | s in ss[1..] :: SteppedAs(s.step) by {
        assert ss == [ss[0]] + ss[1..];
      }
    }
  }

  lemma {:induction false} EntriesLoadIff(rs: seq<Option<RawEntry>>)
    ensures EntriesFromDict(rs).Some? <==> forall r | r in rs && r.Some? :: r.value.status.Some? && r.value.at.Some?
  {
    if rs != [] {
      EntriesLoadIff(rs[1..]);
      assert rs == [rs[0]] + rs[1..];
    }
  }

  lemma {:induction false} SnapshotsLoadIff(rs: seq<Option<RawSnapshot>>)
    ensures SnapshotsFromDict(rs).Some? <==>
            forall r | r in rs && r.Some? :: r.value.status.Some? && r.value.at.Some? && r.value.job.Some?
  {
    if rs != [] {
      SnapshotsLoadIff(rs[1..]);
      assert rs == [rs[0]] + rs[1..];
    }
  }

  /** Loading fails exactly where a required key is missing: the id, the job or the status of the instance, the status
      or time of an entry, the status, time or job of a snapshot. */
  lemma LoadsIff(r: Raw, now: string)
    ensures FromDict(r, now).Some? <==>
            && r.id.Some? && r.job.Some? && r.status.Some?
            && (forall e | e in r.entries.GetOr([]) && e.Some? :: e.value.status.Some? && e.value.at.Some?)
            && (forall s | s in r.snapshots.GetOr([]) && s.Some? :: s.value.status.Some? && s.value.at.Some? && s.value.job.Some?)
  {
    EntriesLoadIff(r.entries.GetOr([]));
    SnapshotsLoadIff(r.snapshots.GetOr([]));
  }

  /** What is loaded from older dictionaries too: the version falls back to the format version and then to 1, the step to
      the slug of the wizard step, the session to the one in the metadata, and missing times to the time of loading. */
  lemma LoadedIs(r: Raw, now: string)
    requires FromDict(r, now).Some?
    ensures var i := FromDict(r, now).value;
            && Some(i.id) == r.id && Some(i.job) == r.job && Some(i.history.status) == r.status
            && i.history.version == (if r.version.Some? then r.version.value else if r.format.Some? then r.format.value else 1)
            && i.history.updated == (if r.updated.Some? then r.updated.value else now)
            && i.created == (if r.created.Some? then r.created.value else now)
            && i.step == (if r.step.Some? && r.step.value != "" then r.step else r.wizardStep)
            && i.metadata == (if r.metadata.Some? then r.metadata.value else map[])
            && var raw := if r.session.Some? then r.session
                          else if "session_id" in i.metadata then Some(i.metadata["session_id"]) else None;
               i.session == if raw.None? || Strip(raw.value) == "" then None else Some(Strip(raw.value))
  {}

  /** The entries and snapshots of the list that are dictionaries, in order, with defaults for what they lack. */
  lemma {:induction false} EntryIs(rs: seq<Option<RawEntry>>, more: seq<Option<RawEntry>>, r: Option<RawEntry>)
    requires EntriesFromDict(rs + [r] + more).Some?
    ensures EntriesFromDict(rs).Some? && EntriesFromDict(more).Some?
    ensures EntriesFromDict(rs + [r] + more).value ==
            EntriesFromDict(rs).value
            + (if r.None? then [] else [Entry(r.value.status.GetOr(""), r.value.at.GetOr(""),
                                              if r.value.detail.Some? then r.value.detail.value else map[])])
            + EntriesFromDict(more).value
  {
    var all := rs + [r] + more;
    if rs == [] {
      assert all[1..] == more;
    } else {
      assert all[1..] == rs[1..] + [r] + more && all[0] == rs[0];
      EntryIs(rs[1..], more, r);
    }
  }

  lemma {:induction false} SnapshotIs(rs: seq<Option<RawSnapshot>>, more: seq<Option<RawSnapshot>>, r: Option<RawSnapshot>)
    requires SnapshotsFromDict(rs + [r] + more).Some?
    ensures SnapshotsFromDict(rs).Some? && SnapshotsFromDict(more).Some?
    ensures SnapshotsFromDict(rs + [r] + more).value ==
            SnapshotsFromDict(rs).value
            + (if r.None? then [] else
                 [Snapshot(r.value.status.GetOr(""), r.value.at.GetOr(""), r.value.state.GetOr(map[]), r.value.job.GetOr(""),
                           if r.value.step.Some? && r.value.step.value != "" then r.value.step else r.value.wizardStep,
                           r.value.position.GetOr(map[]), r.value.detail.GetOr(map[]))])
            + SnapshotsFromDict(more).value
  {
    var all := rs + [r] + more;
    if rs == [] {
      assert all[1..] == more;
    } else {
      assert all[1..] == rs[1..] + [r] + more && all[0] == rs[0];
      SnapshotIs(rs[1..], more, r);
    }
  }

  /** Storing and loading never fails, and gives the same instance back exactly when its session is what loading
      would make of it and no step slug is an empty text. */
  lemma RoundTripIff(i: Instance, now: string)
    ensures var back := FromDict(ToDict(i), now);
            && back.Some?
            && (back.value == i <==>
                  && i.session == NonBlank(if i.session.Some? then i.session else MetaSession(i.metadata))
                  && SteppedAs(i.step) && forall s | s in i.history.snapshots :: SteppedAs(s.step))
            && back.value.history.(snapshots := i.history.snapshots) == i.history
  {
    EntriesRoundTrip(i.history.entries);
    SnapshotsRoundTrip(i.history.snapshots);
  }

  lemma NonBlankTwice(raw: Option<string>)
    ensures NonBlank(NonBlank(raw)) == NonBlank(raw)
    ensures NonBlank(raw).GetOr("") != "" <==> NonBlank(raw).Some?
  {
    if raw.Some? {
      StripTwice(raw.value);
    }
  }

  /** Storing keeps the session an instance resolves to exactly when its own session is empty or trimmed. */
  lemma ResolvedSurvivesIff(i: Instance, now: string)
    ensures var back := FromDict(ToDict(i), now);
            back.Some? && (Resolved(back.value) == Resolved(i) <==> Strip(i.session.GetOr("")) == i.session.GetOr(""))
  {
    EntriesRoundTrip(i.history.entries);
    SnapshotsRoundTrip(i.history.snapshots);
    NonBlankTwice(i.session);
    NonBlankTwice(MetaSession(i.metadata));
  }

  /** The session of an instance that was loaded from any dictionary survives another storing and loading. */
  lemma LoadedSessionSurvives(r: Raw, now: string, later: string)
    requires FromDict(r, now).Some?
    ensures var i := FromDict(r, now).value;
            FromDict(ToDict(i), later).Some? && Resolved(FromDict(ToDict(i), later).value) == Resolved(i)
  {
    var i := FromDict(r, now).value;
    NonBlankTwice(if r.session.Some? then r.session else MetaSession(r.metadata.GetOr(map[])));
    ResolvedSurvivesIff(i, later);
  }

  /** Two rounds of storing and loading reach a form that further ones keep. One need not: a blank session gives way to
      none in the first round, and none to the session in the metadata in the second. */
  lemma SecondLoadIsStable(i: Instance, now: string, later: string)
    ensures var once := FromDict(ToDict(i), now);
            once.Some? &&
            var twice := FromDict(ToDict(once.value), now);
            twice.Some? && FromDict(ToDict(twice.value), later) == twice
  {
    RoundTripIff(i, now);
    var once := FromDict(ToDict(i), now).value;
    RoundTripIff(once, now);
    var twice := FromDict(ToDict(once), now).value;
    SnapshotsRoundTrip(once.history.snapshots);
    NonBlankTwice(i.session);
    NonBlankTwice(once.session);
    NonBlankTwice(MetaSession(i.metadata));
    RoundTripIff(twice, later);
  }

  // ---------------------------------------------------------------------------
  // The object
  // ---------------------------------------------------------------------------

  class ProcessInstance {
    var status: string
    var version: int
    var statusHistory: seq<Entry>
    var stateSnapshots: seq<Snapshot>
    var updatedAt: string

    constructor (h: History)
      ensures View() == h
    {
      status, version, statusHistory, stateSnapshots, updatedAt := h.status, h.version, h.entries, h.snapshots, h.updated;
    }

    function View(): History
      reads this
    {
      History(status, version, statusHistory, stateSnapshots, updatedAt)
    }

    method AppendStatus(s: string, detail: map<string, Option<string>>, now: string)
      modifies this
      ensures View() == Append(old(View()), StatusEvent(s, detail, now))
      ensures status == s && version == old(version) + 1 && updatedAt == now && stateSnapshots == old(stateSnapshots)
      ensures |statusHistory| == |old(statusHistory)| + 1 && old(statusHistory) <= statusHistory
      ensures var e := statusHistory[|old(statusHistory)|];
              && e.status == s && e.at == now
              && forall k :: (k in e.detail <==> k in detail && detail[k].Some?) && (k in e.detail ==> Some(e.detail[k]) == detail[k])
    {
      statusHistory := statusHistory + [Entry(s, now, Present(detail))];
      status := s;
      updatedAt := now;
      version := version + 1;
    }

    method AppendStateSnapshot(snapshot: Snapshot, bound: int, now: string)
      modifies this
      ensures View() == Append(old(View()), SnapshotEvent(snapshot, bound, now))
      ensures status == old(status) && version == old(version) + 1 && updatedAt == now && statusHistory == old(statusHistory)
    {
      var limit := if bound > 1 then bound else 1;
      stateSnapshots := stateSnapshots + [snapshot];
      if |stateSnapshots| > limit {
        stateSnapshots := stateSnapshots[|stateSnapshots| - limit..];
      }
      updatedAt := now;
      version := version + 1;
    }
  }
}
