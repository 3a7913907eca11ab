/** The orchestrator: a bounded registry of jobs, an execution mode, and the events it publishes.

    A mode is a strategy supplied from outside. A ModeRun stands for everything one of its hooks
    may do synchronously: try transitions on any registered jobs, catch or not catch a refused one,
    and return or raise. Cancelling uses the default hook of the mode base class. */
module Orchestration {
  import opened Basics
  import opened Jobs

  datatype Event =
    | OrchestratorStarted
    | OrchestratorShutdown(remaining: nat)
    | Submitted(id: Name)
    | StatusChanged(id: Name, st: JobStatus)
    | Completed(id: Name, st: JobStatus)
    | JobCancelled(id: Name)
    | InputReceived(id: Name, key: string)

  datatype Move = Move(id: Name, request: Request, caught: bool)
  datatype ModeRun = ModeRun(moves: seq<Move>, raises: bool)

  datatype Answer =
    | Done
    | Declined
    | MaxJobsExceeded
    | DuplicateJobId
    | JobNotFound
    | ModeRaised
    | StatusHasNoValue

  /** order lists the registry in insertion order. */
  datatype State = State(order: seq<Name>, jobs: map<Name, Record>, running: bool, log: seq<Event>)

  // ---------------------------------------------------------------------------
  // The calls
  // ---------------------------------------------------------------------------

  function ApplyMoves(jobs: map<Name, Record>, moves: seq<Move>): (map<Name, Record>, bool)
    decreases |moves|
  {
    if moves == [] then (jobs, false)
    else
      var (next, stop) := ApplyMove(jobs, moves[0]);
      if stop then (next, true) else ApplyMoves(next, moves[1..])
  }

  /** One transition; an illegal one raises, which stops the mode unless it catches that. */
  function ApplyMove(jobs: map<Name, Record>, move: Move): (map<Name, Record>, bool) {
    if move.id !in jobs then (jobs, false)
    else
      var j := jobs[move.id];
      if ValidTransition(j.status.st, move.request.status.st) || move.caught then
        (jobs[move.id := Step(j, move.request)], false)
      else (jobs, true)
  }

  function RunMode(s: State, run: ModeRun): (State, bool) {
    var (jobs, raised) := ApplyMoves(s.jobs, run.moves);
    (s.(jobs := jobs), raised || run.raises)
  }

  /** A start lets the mode start its workers first. */
  function Start(s: State, run: ModeRun): (State, Answer) {
    if s.running then (s, Done)
    else
      var (t, raised) := RunMode(s, run);
      if raised then (t, ModeRaised) else (t.(running := true, log := t.log + [OrchestratorStarted]), Done)
  }

  /** The end of submit and of a resumed provide_input. */
  function Report(s: State, id: Name): (State, Answer)
    requires id in s.jobs
  {
    var status := s.jobs[id].status;
    if status.Plain? then (s, StatusHasNoValue)
    else
      var changed := s.log + [StatusChanged(id, status.st)];
      (s.(log := if Terminal(status.st) then changed + [Completed(id, status.st)] else changed), Done)
  }

  /** Handing a job to the mode and reporting what became of it. */
  function Dispatch(s: State, id: Name, run: ModeRun): (State, Answer)
    requires id in s.jobs
  {
    KeysKept(s.jobs, run.moves);
    var (t, raised) := RunMode(s, run);
    if raised then (t, ModeRaised) else Report(t, id)
  }

  function Register(s: State, id: Name): State {
    s.(order := s.order + [id], jobs := s.jobs[id := Fresh(id)], log := s.log + [Submitted(id)])
  }

  /** start is what the mode does if it has to be started. */
  function Submit(s: State, cap: int, modeRunning: bool, start: ModeRun, id: Name, run: ModeRun): (State, Answer) {
    var (s1, started) := if s.running && modeRunning then (s, Done) else Start(s, start);
    if started != Done then (s1, started)
    else if |s1.jobs| >= cap then (s1, MaxJobsExceeded)
    else if id in s1.jobs then (s1, DuplicateJobId)
    else Dispatch(Register(s1, id), id, run)
  }

  function CancelRequest(now: Time): Request {
    Request(Plain(Cancelled), None, None, now)
  }

  function CancelJob(s: State, id: Name, now: Time): (State, Answer) {
    if id !in s.jobs then (s, JobNotFound)
    else if Terminal(s.jobs[id].status.st) then (s, Declined)
    else (s.(jobs := s.jobs[id := Step(s.jobs[id], CancelRequest(now))], log := s.log + [JobCancelled(id)]), Done)
  }

  function ProvideInput(s: State, id: Name, key: string, run: ModeRun): (State, Answer) {
    if id !in s.jobs then (s, JobNotFound)
    else
      var s1 := s.(log := s.log + [InputReceived(id, key)]);
      if s.jobs[id].status.st != WaitingForInput then (s1, Done) else Dispatch(s1, id, run)
  }

  function CancelIfLive(s: State, id: Name, now: Time): State {
    if id in s.jobs && Live(s.jobs[id].status.st) then CancelJob(s, id, now).0 else s
  }

  /** The best-effort loop of shutdown over the first n registered jobs. */
  function CancelLive(s: State, n: nat, now: Time): State
    requires n <= |s.order|
    decreases n
  {
    if n == 0 then s else CancelIfLive(CancelLive(s, n - 1, now), s.order[n - 1], now)
  }

  /** The first half of a shutdown: the mode stops its workers, then the live jobs are cancelled. */
  function Quiesce(s: State, run: ModeRun, now: Time): (State, bool) {
    var (s1, raised) := RunMode(s, run);
    if raised then (s1, true) else (CancelLive(s1, |s1.order|, now), false)
  }

  /** last is what the mode does when it is told that the orchestrator goes down. */
  function Shutdown(s: State, run: ModeRun, now: Time, last: ModeRun): (State, Answer) {
    if !s.running then (s, Done)
    else
      var (s1, raised) := Quiesce(s, run, now);
      if raised then (s1, ModeRaised)
      else
        var (s2, raisedLast) := RunMode(s1, last);
        if raisedLast then (s2, ModeRaised)
        else (s2.(running := false, log := s2.log + [OrchestratorShutdown(|s2.jobs|)]), Done)
  }

  // ---------------------------------------------------------------------------
  // Runs
  // ---------------------------------------------------------------------------

  /** Between calls the mode may drive jobs on its own. */
  datatype Op =
    | OpStart(run: ModeRun)
    | OpSubmit(modeRunning: bool, start: ModeRun, id: Name, run: ModeRun)
    | OpCancel(id: Name, now: Time)
    | OpInput(id: Name, key: string, run: ModeRun)
    | OpShutdown(run: ModeRun, now: Time, last: ModeRun)
    | OpDrive(run: ModeRun)

  const INITIAL: State := State([], map[], false, [])

  function Perform(s: State, cap: int, op: Op): State {
    match op
    case OpStart(run) => Start(s, run).0
    case OpSubmit(modeRunning, start, id, run) => Submit(s, cap, modeRunning, start, id, run).0
    case OpCancel(id, now) => CancelJob(s, id, now).0
    case OpInput(id, key, run) => ProvideInput(s, id, key, run).0
    case OpShutdown(run, now, last) => Shutdown(s, run, now, last).0
    case OpDrive(run) => RunMode(s, run).0
  }

  function Run(s: State, cap: int, ops: seq<Op>): State
    decreases |ops|
  {
    if ops == [] then s else Run(Perform(s, cap, ops[0]), cap, ops[1..])
  }

  predicate Completes(e: Event, id: Name) {
    e.Completed? && e.id == id
  }

  /** How many events of the log satisfy p. */
  function Count(log: seq<Event>, p: Event -> bool): nat {
    if log == [] then 0 else Count(log[..|log| - 1], p) + if p(log[|log| - 1]) then 1 else 0
  }

  function Submissions(log: seq<Event>, id: Name): nat {
    Count(log, e => e == Submitted(id))
  }

  function Completions(log: seq<Event>, id: Name): nat {
    Count(log, e => Completes(e, id))
  }

  function Cancellations(log: seq<Event>, id: Name): nat {
    Count(log, e => e == JobCancelled(id))
  }

  function StatusOf(jobs: map<Name, Record>, id: Name): Option<JobStatus> {
    if id in jobs then Some(jobs[id].status.st) else None
  }

  /** What the log says about one job whose status is st, if it is registered at all. */
  ghost predicate Told(log: seq<Event>, id: Name, st: Option<JobStatus>) {
    && Submissions(log, id) == (if st.Some? then 1 else 0)
    && Completions(log, id) <= 1
    && (Completions(log, id) == 1 ==>
          st.Some? && Terminal(st.value) && Completed(id, st.value) in log && JobCancelled(id) !in log)
    && (JobCancelled(id) in log ==> st == Some(Cancelled))
    && Cancellations(log, id) == (if JobCancelled(id) in log then 1 else 0)
  }

  ghost predicate Logged(s: State) {
    forall id :: Told(s.log, id, StatusOf(s.jobs, id))
  }

  ghost predicate Ordered(s: State) {
    && (forall id | id in s.order :: id in s.jobs)
    && (forall id | id in s.jobs :: id in s.order)
    && (forall i, j | 0 <= i < j < |s.order| :: s.order[i] != s.order[j])
  }

  ghost predicate Bounded(jobs: map<Name, Record>, cap: int) {
    && (forall id | id in jobs :: jobs[id].id == id && Coherent(jobs[id]))
    && (jobs != map[] ==> |jobs| <= cap)
  }

  ghost predicate Sound(s: State, cap: int) {
    Bounded(s.jobs, cap) && Ordered(s) && Logged(s)
  }

  /** A later registry: no job lost or re-keyed, every record a successor of its old one. */
  ghost predicate Evolves(old_: map<Name, Record>, new_: map<Name, Record>) {
    forall id | id in old_ :: id in new_ && Follows(old_[id], new_[id])
  }

  lemma {:induction false} KeysKept(jobs: map<Name, Record>, moves: seq<Move>)
    ensures ApplyMoves(jobs, moves).0.Keys == jobs.Keys
    ensures Evolves(jobs, ApplyMoves(jobs, moves).0)
    decreases |moves|
  {
    if moves != [] {
      var next := ApplyMove(jobs, moves[0]).0;
      assert next.Keys == jobs.Keys;
      KeysKept(next, moves[1..]);
    }
  }

  lemma CountAppend(log: seq<Event>, e: Event, id: Name)
    ensures Submissions(log + [e], id) == Submissions(log, id) + if e == Submitted(id) then 1 else 0
    ensures Completions(log + [e], id) == Completions(log, id) + if Completes(e, id) then 1 else 0
    ensures Cancellations(log + [e], id) == Cancellations(log, id) + if e == JobCancelled(id) then 1 else 0
  {
    assert (log + [e])[..|log|] == log;
  }

  // ---------------------------------------------------------------------------
  // The log
  // ---------------------------------------------------------------------------

  /** A status may move on, but not away from a terminal one, without new events. */
  lemma ToldLater(log: seq<Event>, id: Name, a: Option<JobStatus>, b: Option<JobStatus>)
    requires Told(log, id, a) && (a.Some? <==> b.Some?)
    requires a.Some? && Terminal(a.value) ==> b == a
    ensures Told(log, id, b)
  {}

  lemma ToldMore(log: seq<Event>, e: Event, id: Name, a: Option<JobStatus>, b: Option<JobStatus>)
    requires Told(log, id, a)
    requires match e
             case Submitted(x) => if x == id then a.None? && b == Some(Pending) else b == a
             case Completed(x, st) =>
               b == a && (x == id ==> a == Some(st) && Terminal(st) && Completions(log, id) == 0 && JobCancelled(id) !in log)
             case JobCancelled(x) =>
               if x == id then a.Some? && !Terminal(a.value) && b == Some(Cancelled) else b == a
             case _ => b == a
    ensures Told(log + [e], id, b)
  {
    CountAppend(log, e, id);
  }

  /** Events about nothing the log promises leave every promise alone. */
  lemma NeutralEvent(s: State, cap: int, running: bool, e: Event)
    requires Sound(s, cap) && !e.Submitted? && !e.Completed? && !e.JobCancelled?
    ensures Sound(s.(running := running, log := s.log + [e]), cap)
  {
    forall id ensures Told(s.log + [e], id, StatusOf(s.jobs, id)) {
      ToldMore(s.log, e, id, StatusOf(s.jobs, id), StatusOf(s.jobs, id));
    }
  }

  // ---------------------------------------------------------------------------
  // Every call keeps the registry and its log sound
  // ---------------------------------------------------------------------------

  lemma EvolvesTransitive(a: map<Name, Record>, b: map<Name, Record>, c: map<Name, Record>)
    requires Evolves(a, b) && Evolves(b, c)
    ensures Evolves(a, c)
  {
    forall id | id in a ensures id in c && Follows(a[id], c[id]) {
      assert Follows(a[id], b[id]) && Follows(b[id], c[id]);
    }
  }

  /** Moving registered jobs on, without any event. */
  lemma EvolvingKeepsSound(s: State, t: State, cap: int)
    requires Sound(s, cap) && t == s.(jobs := t.jobs)
    requires t.jobs.Keys == s.jobs.Keys && Evolves(s.jobs, t.jobs)
    ensures Sound(t, cap)
  {
    assert |t.jobs.Keys| == |s.jobs.Keys|;
    forall id | id in t.jobs ensures t.jobs[id].id == id && Coherent(t.jobs[id]) {
      assert Follows(s.jobs[id], t.jobs[id]);
    }
    forall id ensures Told(t.log, id, StatusOf(t.jobs, id)) {
      assert id in s.jobs ==> Follows(s.jobs[id], t.jobs[id]);
      ToldLater(s.log, id, StatusOf(s.jobs, id), StatusOf(t.jobs, id));
    }
  }

  lemma ModeKeepsSound(s: State, cap: int, run: ModeRun)
    requires Sound(s, cap)
    ensures Sound(RunMode(s, run).0, cap) && Evolves(s.jobs, RunMode(s, run).0.jobs)
    ensures RunMode(s, run).0.jobs.Keys == s.jobs.Keys
  {
    KeysKept(s.jobs, run.moves);
    EvolvingKeepsSound(s, RunMode(s, run).0, cap);
  }

  lemma StartKeepsSound(s: State, cap: int, run: ModeRun)
    requires Sound(s, cap)
    ensures Sound(Start(s, run).0, cap) && Evolves(s.jobs, Start(s, run).0.jobs)
  {
    Unchanged(s.jobs);
    ModeKeepsSound(s, cap, run);
    NeutralEvent(RunMode(s, run).0, cap, true, OrchestratorStarted);
  }

  lemma ReportKeepsSound(s: State, cap: int, id: Name)
    requires Sound(s, cap) && id in s.jobs
    requires Completions(s.log, id) == 0 && JobCancelled(id) !in s.log
    ensures Sound(Report(s, id).0, cap) && Report(s, id).0.jobs == s.jobs
  {
    var st := s.jobs[id].status.st;
    NeutralEvent(s, cap, s.running, StatusChanged(id, st));
    CountAppend(s.log, StatusChanged(id, st), id);
    var log := s.log + [StatusChanged(id, st)];
    if Terminal(st) {
      forall x ensures Told(log + [Completed(id, st)], x, StatusOf(s.jobs, x)) {
        assert Told(log, x, StatusOf(s.jobs, x)) by { assert Logged(s.(log := log)); }
        ToldMore(log, Completed(id, st), x, StatusOf(s.jobs, x), StatusOf(s.jobs, x));
      }
    }
  }

  lemma RegisterKeepsLogged(s: State, id: Name)
    requires Logged(s) && id !in s.jobs
    ensures Logged(Register(s, id))
    ensures Completions(Register(s, id).log, id) == 0 && JobCancelled(id) !in Register(s, id).log
  {
    var t := Register(s, id);
    forall x ensures Told(t.log, x, StatusOf(t.jobs, x)) {
      ToldMore(s.log, Submitted(id), x, StatusOf(s.jobs, x), StatusOf(t.jobs, x));
    }
    assert Told(s.log, id, StatusOf(s.jobs, id));
    CountAppend(s.log, Submitted(id), id);
  }

  lemma RegisterKeepsOrdered(s: State, id: Name)
    requires Ordered(s) && id !in s.jobs
    ensures Ordered(Register(s, id))
  {}

  lemma RegisterKeepsBounded(jobs: map<Name, Record>, cap: int, id: Name)
    requires Bounded(jobs, cap) && id !in jobs && |jobs| < cap
    ensures Bounded(jobs[id := Fresh(id)], cap) && Evolves(jobs, jobs[id := Fresh(id)])
  {}

  lemma RegisterKeepsSound(s: State, cap: int, id: Name)
    requires Sound(s, cap) && id !in s.jobs && |s.jobs| < cap
    ensures Sound(Register(s, id), cap) && Evolves(s.jobs, Register(s, id).jobs)
    ensures Completions(Register(s, id).log, id) == 0 && JobCancelled(id) !in Register(s, id).log
  {
    RegisterKeepsLogged(s, id);
    RegisterKeepsOrdered(s, id);
    RegisterKeepsBounded(s.jobs, cap, id);
  }

  lemma DispatchKeepsSound(s: State, cap: int, id: Name, run: ModeRun)
    requires Sound(s, cap) && id in s.jobs
    requires Completions(s.log, id) == 0 && JobCancelled(id) !in s.log
    ensures Sound(Dispatch(s, id, run).0, cap) && Evolves(s.jobs, Dispatch(s, id, run).0.jobs)
  {
    ModeKeepsSound(s, cap, run);
    ReportKeepsSound(RunMode(s, run).0, cap, id);
  }

  lemma AcceptKeepsSound(s: State, cap: int, id: Name, run: ModeRun)
    requires Sound(s, cap) && |s.jobs| < cap && id !in s.jobs
    ensures Sound(Dispatch(Register(s, id), id, run).0, cap)
    ensures Evolves(s.jobs, Dispatch(Register(s, id), id, run).0.jobs)
  {
    var t := Register(s, id);
    RegisterKeepsSound(s, cap, id);
    DispatchKeepsSound(t, cap, id, run);
    EvolvesTransitive(s.jobs, t.jobs, Dispatch(t, id, run).0.jobs);
  }

  lemma SubmitKeepsSound(s: State, cap: int, modeRunning: bool, start: ModeRun, id: Name, run: ModeRun)
    requires Sound(s, cap)
    ensures Sound(Submit(s, cap, modeRunning, start, id, run).0, cap)
    ensures Evolves(s.jobs, Submit(s, cap, modeRunning, start, id, run).0.jobs)
  {
    StartKeepsSound(s, cap, start);
    Unchanged(s.jobs);
    var (s1, started) := if s.running && modeRunning then (s, Done) else Start(s, start);
    if started == Done && |s1.jobs| < cap && id !in s1.jobs {
      AcceptKeepsSound(s1, cap, id, run);
      EvolvesTransitive(s.jobs, s1.jobs, Dispatch(Register(s1, id), id, run).0.jobs);
    }
  }

  lemma CancelKeepsLogged(s: State, id: Name, now: Time)
    requires Logged(s)
    ensures Logged(CancelJob(s, id, now).0)
  {
    if id in s.jobs && !Terminal(s.jobs[id].status.st) {
      var t := CancelJob(s, id, now).0;
      forall x ensures Told(t.log, x, StatusOf(t.jobs, x)) {
        ToldMore(s.log, JobCancelled(id), x, StatusOf(s.jobs, x), StatusOf(t.jobs, x));
      }
    }
  }

  lemma CancelKeepsBounded(jobs: map<Name, Record>, cap: int, id: Name, now: Time)
    requires Bounded(jobs, cap) && id in jobs
    ensures var after := jobs[id := Step(jobs[id], CancelRequest(now))];
            after.Keys == jobs.Keys && Bounded(after, cap) && Evolves(jobs, after)
  {
    var after := jobs[id := Step(jobs[id], CancelRequest(now))];
    assert after.Keys == jobs.Keys;
    assert |jobs| == |jobs.Keys| && |after| == |after.Keys|;
  }

  lemma OrderedLike(s: State, t: State)
    requires Ordered(s) && t.order == s.order && t.jobs.Keys == s.jobs.Keys
    ensures Ordered(t)
  {}

  lemma Unchanged(jobs: map<Name, Record>)
    ensures Evolves(jobs, jobs)
  {}

  lemma CancelKeepsSound(s: State, cap: int, id: Name, now: Time)
    requires Sound(s, cap)
    ensures Sound(CancelJob(s, id, now).0, cap) && Evolves(s.jobs, CancelJob(s, id, now).0.jobs)
  {
    Unchanged(s.jobs);
    if id in s.jobs && !Terminal(s.jobs[id].status.st) {
      CancelKeepsBounded(s.jobs, cap, id, now);
      CancelKeepsLogged(s, id, now);
      OrderedLike(s, CancelJob(s, id, now).0);
    }
  }

  lemma InputKeepsSound(s: State, cap: int, id: Name, key: string, run: ModeRun)
    requires Sound(s, cap)
    ensures Sound(ProvideInput(s, id, key, run).0, cap)
    ensures Evolves(s.jobs, ProvideInput(s, id, key, run).0.jobs)
  {
    if id in s.jobs {
      var s1 := s.(log := s.log + [InputReceived(id, key)]);
      NeutralEvent(s, cap, s.running, InputReceived(id, key));
      assert Told(s1.log, id, StatusOf(s1.jobs, id));
      if s.jobs[id].status.st == WaitingForInput {
        DispatchKeepsSound(s1, cap, id, run);
      }
    }
  }

  lemma CancelIfLiveKeepsSound(s: State, cap: int, id: Name, now: Time)
    requires Sound(s, cap)
    ensures Sound(CancelIfLive(s, id, now), cap) && Evolves(s.jobs, CancelIfLive(s, id, now).jobs)
  {
    if id in s.jobs && Live(s.jobs[id].status.st) {
      CancelKeepsSound(s, cap, id, now);
    } else {
      Unchanged(s.jobs);
    }
  }

  lemma {:induction false} CancelLiveKeepsSound(s: State, cap: int, n: nat, now: Time)
    requires Sound(s, cap) && n <= |s.order|
    ensures Sound(CancelLive(s, n, now), cap)
    decreases n
  {
    if n > 0 {
      CancelLiveKeepsSound(s, cap, n - 1, now);
      CancelIfLiveKeepsSound(CancelLive(s, n - 1, now), cap, s.order[n - 1], now);
    }
  }

  lemma QuiesceKeepsSound(s: State, cap: int, run: ModeRun, now: Time)
    requires Sound(s, cap)
    ensures Sound(Quiesce(s, run, now).0, cap) && Evolves(s.jobs, Quiesce(s, run, now).0.jobs)
  {
    ModeKeepsSound(s, cap, run);
    var after := RunMode(s, run).0;
    CancelLiveKeepsSound(after, cap, |after.order|, now);
    CancelLiveExact(after, |after.order|, now);
    CancelledEvolves(after, |after.order|, now);
    EvolvesTransitive(s.jobs, after.jobs, CancelLive(after, |after.order|, now).jobs);
  }

  lemma EndKeepsSound(s: State, cap: int)
    requires Sound(s, cap)
    ensures Sound(s.(running := false, log := s.log + [OrchestratorShutdown(|s.jobs|)]), cap)
  {
    NeutralEvent(s, cap, false, OrchestratorShutdown(|s.jobs|));
  }

  lemma ShutdownKeepsSound(s: State, cap: int, run: ModeRun, now: Time, last: ModeRun)
    requires Sound(s, cap)
    ensures Sound(Shutdown(s, run, now, last).0, cap) && Evolves(s.jobs, Shutdown(s, run, now, last).0.jobs)
  {
    Unchanged(s.jobs);
    QuiesceKeepsSound(s, cap, run, now);
    var (s1, raised) := Quiesce(s, run, now);
    if s.running && !raised {
      ModeKeepsSound(s1, cap, last);
      EvolvesTransitive(s.jobs, s1.jobs, RunMode(s1, last).0.jobs);
      EndKeepsSound(RunMode(s1, last).0, cap);
    }
  }

  // ---------------------------------------------------------------------------
  // Shutdown
  // ---------------------------------------------------------------------------

  /** The registry in which the live jobs among the first n are cancelled. */
  ghost function WithLiveCancelled(s: State, n: nat, now: Time): map<Name, Record>
    requires n <= |s.order|
  {
    map id | id in s.jobs ::
      if id in s.order[..n] && Live(s.jobs[id].status.st) then Step(s.jobs[id], CancelRequest(now)) else s.jobs[id]
  }

  lemma CancelledEvolves(s: State, n: nat, now: Time)
    requires n <= |s.order|
    ensures Evolves(s.jobs, WithLiveCancelled(s, n, now))
  {}

  lemma NextInOrder(s: State, n: nat)
    requires Ordered(s) && 0 < n <= |s.order|
    ensures s.order[n - 1] in s.jobs && s.order[n - 1] !in s.order[..n - 1]
  {
    assert s.order[n - 1] in s.order;
  }

  lemma OneMoreCancelled(s: State, n: nat, now: Time)
    requires 0 < n <= |s.order| && s.order[n - 1] in s.jobs && s.order[n - 1] !in s.order[..n - 1]
    ensures var id, before := s.order[n - 1], WithLiveCancelled(s, n - 1, now);
            WithLiveCancelled(s, n, now) ==
            if Live(s.jobs[id].status.st) then before[id := Step(s.jobs[id], CancelRequest(now))] else before
  {
    assert s.order[..n] == s.order[..n - 1] + [s.order[n - 1]];
  }

  lemma OneMoreStep(s: State, t: State, n: nat, now: Time)
    requires Ordered(s) && 0 < n <= |s.order| && t.jobs == WithLiveCancelled(s, n - 1, now)
    ensures CancelIfLive(t, s.order[n - 1], now).jobs == WithLiveCancelled(s, n, now)
  {
    NextInOrder(s, n);
    OneMoreCancelled(s, n, now);
    assert WithLiveCancelled(s, n - 1, now)[s.order[n - 1]] == s.jobs[s.order[n - 1]];
  }

  lemma NoneCancelled(s: State, now: Time)
    ensures WithLiveCancelled(s, 0, now) == s.jobs
  {}

  /** The cancel loop moves exactly the live jobs it passes, and moves them to CANCELLED. */
  lemma {:induction false} CancelLiveExact(s: State, n: nat, now: Time)
    requires n <= |s.order| && Ordered(s)
    ensures CancelLive(s, n, now).jobs == WithLiveCancelled(s, n, now)
    decreases n
  {
    if n == 0 {
      NoneCancelled(s, now);
    } else {
      CancelLiveExact(s, n - 1, now);
      OneMoreStep(s, CancelLive(s, n - 1, now), n, now);
    }
  }

  /** No live job is left, and jobs that were not live are as they were. */
  ghost predicate Settled(before: map<Name, Record>, after: map<Name, Record>) {
    && after.Keys == before.Keys
    && forall id | id in before ::
         if before[id].status.st in {JobStatus.Running, WaitingForInput} then after[id].status.st == Cancelled
         else after[id] == before[id]
  }

  lemma AllCancelled(s: State, now: Time)
    requires Ordered(s)
    ensures Settled(s.jobs, WithLiveCancelled(s, |s.order|, now))
  {
    assert s.order[..|s.order|] == s.order;
  }

  /** When the cancel loop of a shutdown is through, no job is running or waiting; jobs the mode left PENDING or
      finished are exactly as the mode left them. */
  lemma QuiesceSettles(s: State, cap: int, run: ModeRun, now: Time)
    requires Sound(s, cap) && !Quiesce(s, run, now).1
    ensures Settled(RunMode(s, run).0.jobs, Quiesce(s, run, now).0.jobs)
  {
    ModeKeepsSound(s, cap, run);
    var after := RunMode(s, run).0;
    CancelLiveExact(after, |after.order|, now);
    AllCancelled(after, now);
  }

  /** Jobs that are running or waiting afterwards were PENDING before. */
  ghost predicate LiveWerePending(before: map<Name, Record>, after: map<Name, Record>) {
    forall id | id in after && after[id].status.st in {JobStatus.Running, WaitingForInput} ::
      id in before && before[id].status.st == Pending
  }

  /** After a shutdown that goes through, a job is running or waiting only if it was PENDING when the loop passed it and
      the mode's last hook moved it; with a last hook that moves nothing, as the default one, there is none. */
  lemma ShutdownSettles(s: State, cap: int, run: ModeRun, now: Time, last: ModeRun)
    requires Sound(s, cap) && s.running && Shutdown(s, run, now, last).1 == Done
    ensures var before, t := RunMode(s, run).0.jobs, Shutdown(s, run, now, last).0;
            !t.running && LiveWerePending(before, t.jobs) && (last.moves == [] ==> Settled(before, t.jobs))
  {
    var s1 := Quiesce(s, run, now).0;
    QuiesceSettles(s, cap, run, now);
    QuiesceKeepsSound(s, cap, run, now);
    ModeKeepsSound(s1, cap, last);
    StillLive(RunMode(s, run).0.jobs, s1.jobs, RunMode(s1, last).0.jobs);
  }

  lemma StillLive(before: map<Name, Record>, settled: map<Name, Record>, after: map<Name, Record>)
    requires Settled(before, settled) && Evolves(settled, after) && after.Keys == settled.Keys
    ensures LiveWerePending(before, after)
  {
    forall id | id in after && after[id].status.st in {JobStatus.Running, WaitingForInput}
      ensures id in before && before[id].status.st == Pending
    {
      assert Follows(settled[id], after[id]);
    }
  }

  // ---------------------------------------------------------------------------
  // What each call answers and tells
  // ---------------------------------------------------------------------------

  /** What a dispatch reports on a status: that it changed and, exactly if it is final, that the job is completed. */
  ghost predicate Reports(before: State, id: Name, after: State) {
    && id in before.jobs && after == before.(log := after.log)
    && var st := before.jobs[id].status.st;
       after.log == before.log + if st in {Succeeded, Failed, Cancelled} then [StatusChanged(id, st), Completed(id, st)]
                                 else [StatusChanged(id, st)]
  }

  /** A submit: m is what the mode makes of the registry with the new, fresh job at its end. */
  lemma SubmitTells(s: State, cap: int, modeRunning: bool, start: ModeRun, id: Name, run: ModeRun)
    ensures var (s1, started) := if s.running && modeRunning then (s, Done) else Start(s, start);
            var s2 := s1.(order := s1.order + [id], log := s1.log + [Submitted(id)],
                          jobs := s1.jobs[id := Record(id, Member(Pending), None, None, None, None)]);
            var (m, raised) := RunMode(s2, run);
            var (t, a) := Submit(s, cap, modeRunning, start, id, run);
            if started != Done then a == started && t == s1
            else if |s1.jobs| >= cap then a == MaxJobsExceeded && t == s1
            else if id in s1.jobs then a == DuplicateJobId && t == s1
            else if raised then a == ModeRaised && t == m
            else id in m.jobs && if m.jobs[id].status.Plain? then a == StatusHasNoValue && t == m else a == Done && Reports(m, id, t)
  {
    var (s1, started) := if s.running && modeRunning then (s, Done) else Start(s, start);
    KeysKept(Register(s1, id).jobs, run.moves);
  }

  /** An input: recorded for every registered job, and handed to the mode exactly if the job waits for it. */
  lemma InputTells(s: State, id: Name, key: string, run: ModeRun)
    ensures var s1 := s.(log := s.log + [InputReceived(id, key)]);
            var (m, raised) := RunMode(s1, run);
            var (t, a) := ProvideInput(s, id, key, run);
            if id !in s.jobs then a == JobNotFound && t == s
            else if s.jobs[id].status.st != WaitingForInput then a == Done && t == s1
            else if raised then a == ModeRaised && t == m
            else id in m.jobs && if m.jobs[id].status.Plain? then a == StatusHasNoValue && t == m else a == Done && Reports(m, id, t)
  {
    KeysKept(s.jobs, run.moves);
  }

  /** A cancellation: refused for unknown and for finished jobs, else the job ends with the bare text and is announced. */
  lemma CancelTells(s: State, id: Name, now: Time)
    ensures var (t, a) := CancelJob(s, id, now);
            if id !in s.jobs then a == JobNotFound && t == s
            else if s.jobs[id].status.st in {Succeeded, Failed, Cancelled} then a == Declined && t == s
            else a == Done && t == s.(log := s.log + [JobCancelled(id)],
                                      jobs := s.jobs[id := s.jobs[id].(status := Plain(Cancelled), completedAt := Some(now))])
  {}

  /** A start and the end of a shutdown: each is told once, and only by a call that went through. */
  lemma StartAndShutdownTell(s: State, run: ModeRun, now: Time, last: ModeRun)
    ensures var (m, raised) := RunMode(s, run);
            Start(s, run) ==
            if s.running then (s, Done) else if raised then (m, ModeRaised)
            else (m.(running := true, log := m.log + [OrchestratorStarted]), Done)
    ensures var (q, raised) := Quiesce(s, run, now);
            var (m, raisedLast) := RunMode(q, last);
            Shutdown(s, run, now, last) ==
            if !s.running then (s, Done) else if raised then (q, ModeRaised) else if raisedLast then (m, ModeRaised)
            else (m.(running := false, log := m.log + [OrchestratorShutdown(|m.jobs|)]), Done)
    ensures var (m, raised) := RunMode(s, run);
            Quiesce(s, run, now) == if raised then (m, true) else (CancelLive(m, |m.order|, now), false)
  {}

  /** A mode raises if it is stopped by a refusal it does not catch, or by itself; either way what it did stays done. */
  lemma ModeRaisesIff(s: State, run: ModeRun)
    ensures RunMode(s, run).1 <==> ApplyMoves(s.jobs, run.moves).1 || run.raises
    ensures RunMode(s, run).0 == s.(jobs := ApplyMoves(s.jobs, run.moves).0)
  {}

  /** The cancel loop announces exactly the jobs it cancels: those that were running or waiting. */
  lemma {:induction false} CancelLiveTells(s: State, n: nat, now: Time, id: Name)
    requires n <= |s.order| && Ordered(s)
    ensures Cancellations(CancelLive(s, n, now).log, id) == Cancellations(s.log, id) +
              if id in s.order[..n] && id in s.jobs && s.jobs[id].status.st in {JobStatus.Running, WaitingForInput} then 1 else 0
    decreases n
  {
    if n > 0 {
      CancelLiveTells(s, n - 1, now, id);
      NotYetPassed(s, n, now);
      OneMoreTold(s, CancelLive(s, n - 1, now), n, now, id);
    }
  }

  /** The next job of the loop is as it was at its start. */
  lemma NotYetPassed(s: State, n: nat, now: Time)
    requires 0 < n <= |s.order| && Ordered(s)
    ensures var x, t := s.order[n - 1], CancelLive(s, n - 1, now);
            x in s.jobs && x in t.jobs && t.jobs[x] == s.jobs[x] && x !in s.order[..n - 1]
  {
    CancelLiveExact(s, n - 1, now);
    NextInOrder(s, n);
  }

  lemma OneMoreTold(s: State, t: State, n: nat, now: Time, id: Name)
    requires 0 < n <= |s.order| && s.order[n - 1] in s.jobs && s.order[n - 1] in t.jobs
    requires t.jobs[s.order[n - 1]] == s.jobs[s.order[n - 1]]
    ensures Cancellations(CancelIfLive(t, s.order[n - 1], now).log, id) == Cancellations(t.log, id) +
              if id == s.order[n - 1] && s.jobs[id].status.st in {JobStatus.Running, WaitingForInput} then 1 else 0
    ensures id in s.order[..n] <==> id in s.order[..n - 1] || id == s.order[n - 1]
  {
    var x := s.order[n - 1];
    assert s.order[..n] == s.order[..n - 1] + [x];
    CountAppend(t.log, JobCancelled(x), id);
  }

  /** The requests for one job among the moves. */
  function RequestsFor(moves: seq<Move>, id: Name): seq<Request> {
    if moves == [] then [] else (if moves[0].id == id then [moves[0].request] else []) + RequestsFor(moves[1..], id)
  }

  /** A mode that is not stopped drives every job through the requests it makes for it, in order. */
  lemma {:induction false} MovesDrive(jobs: map<Name, Record>, moves: seq<Move>, id: Name)
    requires id in jobs && !ApplyMoves(jobs, moves).1
    ensures var after := ApplyMoves(jobs, moves).0; id in after && after[id] == Drive(jobs[id], RequestsFor(moves, id))
    decreases |moves|
  {
    if moves != [] {
      var next := ApplyMove(jobs, moves[0]).0;
      MovesDrive(next, moves[1..], id);
      var r, rest := moves[0].request, RequestsFor(moves[1..], id);
      assert ([r] + rest)[1..] == rest && [] + rest == rest;
      assert Drive(jobs[id], [r] + rest) == Drive(Step(jobs[id], r), rest);
    }
  }

  /** The first move the mode makes that is refused and not caught, where there is one, is where it stops. */
  lemma {:induction false} MovesStop(jobs: map<Name, Record>, moves: seq<Move>) returns (k: nat)
    requires ApplyMoves(jobs, moves).1
    ensures k < |moves| && !ApplyMoves(jobs, moves[..k]).1 && ApplyMoves(jobs, moves).0 == ApplyMoves(jobs, moves[..k]).0
    ensures var before, move := ApplyMoves(jobs, moves[..k]).0, moves[k];
            && move.id in before && !move.caught && move.request.status.st != before[move.id].status.st
            && (before[move.id].status.st in {Succeeded, Failed, Cancelled} || move.request.status.st == Pending)
    decreases |moves|
  {
    var (next, stop) := ApplyMove(jobs, moves[0]);
    if stop {
      k := 0;
    } else {
      var j := MovesStop(next, moves[1..]);
      k := j + 1;
      assert moves[..k][1..] == moves[1..][..j];
    }
  }

  /** And such a move does stop it. */
  lemma {:induction false} RefusalStops(jobs: map<Name, Record>, moves: seq<Move>, k: nat)
    requires k < |moves| && !moves[k].caught
    requires var before := ApplyMoves(jobs, moves[..k]).0;
             && moves[k].id in before && moves[k].request.status.st != before[moves[k].id].status.st
             && (before[moves[k].id].status.st in {Succeeded, Failed, Cancelled} || moves[k].request.status.st == Pending)
    ensures ApplyMoves(jobs, moves).1
    decreases |moves|
  {
    var (next, stop) := ApplyMove(jobs, moves[0]);
    if !stop && k > 0 {
      assert moves[..k][1..] == moves[1..][..k - 1] && moves[..k][0] == moves[0] && moves[1..][k - 1] == moves[k];
      RefusalStops(next, moves[1..], k - 1);
    }
  }

  // ---------------------------------------------------------------------------
  // Reports that fail
  // ---------------------------------------------------------------------------

  /** What the last accepted transition of a job among the moves set its status to. */
  function LastAccepted(jobs: map<Name, Record>, moves: seq<Move>, id: Name): Option<StatusValue>
    decreases |moves|
  {
    if moves == [] then None
    else
      var (next, stop) := ApplyMove(jobs, moves[0]);
      if stop then None
      else
        var later := LastAccepted(next, moves[1..], id);
        if later.Some? then later
        else if moves[0].id == id && id in jobs && ValidTransition(jobs[id].status.st, moves[0].request.status.st)
        then Some(moves[0].request.status)
        else None
  }

  lemma {:induction false} LastAcceptedIs(jobs: map<Name, Record>, moves: seq<Move>, id: Name)
    requires id in jobs
    ensures var after := ApplyMoves(jobs, moves).0;
            id in after && after[id].status == LastAccepted(jobs, moves, id).GetOr(jobs[id].status)
    decreases |moves|
  {
    if moves != [] {
      var (next, stop) := ApplyMove(jobs, moves[0]);
      if !stop {
        LastAcceptedIs(next, moves[1..], id);
      }
    }
  }

  /** A dispatch that does not raise fails in its report exactly if the last status that the mode gave the job, or the
      one it had if it was given none, is a bare text. */
  lemma DispatchFailsIff(s: State, id: Name, run: ModeRun)
    requires id in s.jobs && !RunMode(s, run).1
    ensures Dispatch(s, id, run).1 == StatusHasNoValue <==>
            LastAccepted(s.jobs, run.moves, id).GetOr(s.jobs[id].status).Plain?
  {
    LastAcceptedIs(s.jobs, run.moves, id);
  }

  /** A submit fails so exactly if it gets as far as the mode, which does not raise and last gave the new job a bare
      text. */
  lemma SubmitFailsIff(s: State, cap: int, modeRunning: bool, start: ModeRun, id: Name, run: ModeRun)
    ensures var (s1, started) := if s.running && modeRunning then (s, Done) else Start(s, start);
            Submit(s, cap, modeRunning, start, id, run).1 == StatusHasNoValue <==>
            && started == Done && |s1.jobs| < cap && id !in s1.jobs
            && !RunMode(Register(s1, id), run).1
            && LastAccepted(Register(s1, id).jobs, run.moves, id).GetOr(Member(Pending)).Plain?
  {
    var (s1, started) := if s.running && modeRunning then (s, Done) else Start(s, start);
    if started == Done && |s1.jobs| < cap && id !in s1.jobs && !RunMode(Register(s1, id), run).1 {
      DispatchFailsIff(Register(s1, id), id, run);
    }
  }

  /** And an input exactly if the job waits, the mode does not raise and last left it a bare text. */
  lemma InputFailsIff(s: State, id: Name, key: string, run: ModeRun)
    ensures ProvideInput(s, id, key, run).1 == StatusHasNoValue <==>
            && id in s.jobs && s.jobs[id].status.st == WaitingForInput && !RunMode(s, run).1
            && LastAccepted(s.jobs, run.moves, id).GetOr(s.jobs[id].status).Plain?
  {
    if id in s.jobs && s.jobs[id].status.st == WaitingForInput && !RunMode(s, run).1 {
      DispatchFailsIff(s.(log := s.log + [InputReceived(id, key)]), id, run);
    }
  }

  const CANCELS_ITSELF: ModeRun := ModeRun([Move(Name("j"), CancelRequest(0), false)], false)
  const IDLE: ModeRun := ModeRun([], false)

  /** A mode that cancels the job it is given through the default hook: submit registers the job and then fails. */
  lemma SelfCancelledSubmitFails()
    ensures var (s, a) := Submit(INITIAL, 1, false, IDLE, Name("j"), CANCELS_ITSELF);
            a == StatusHasNoValue && Name("j") in s.jobs && s.jobs[Name("j")].status == Plain(Cancelled)
            && Submissions(s.log, Name("j")) == 1 && Completions(s.log, Name("j")) == 0
  {
    var s1 := Start(INITIAL, IDLE).0;
    var s2 := Register(s1, Name("j"));
    assert ApplyMoves(s2.jobs, CANCELS_ITSELF.moves) == (ApplyMove(s2.jobs, CANCELS_ITSELF.moves[0]).0, false);
    StartKeepsSound(INITIAL, 1, IDLE);
    RegisterKeepsLogged(s1, Name("j"));
    assert Told(s2.log, Name("j"), StatusOf(s2.jobs, Name("j")));
  }

  /** Modes that only ever ask for members of the enumeration. */
  predicate Proper(run: ModeRun) {
    forall m | m in run.moves :: m.request.status.Member?
  }

  predicate ProperOp(op: Op) {
    match op
    case OpStart(run) => Proper(run)
    case OpSubmit(_, start, _, run) => Proper(start) && Proper(run)
    case OpCancel(_, _) => true
    case OpInput(_, _, run) => Proper(run)
    case OpShutdown(run, _, last) => Proper(run) && Proper(last)
    case OpDrive(run) => Proper(run)
  }

  /** Bare texts stand on cancelled jobs only. */
  ghost predicate PlainIsCancelled(jobs: map<Name, Record>) {
    forall id | id in jobs :: jobs[id].status.Plain? ==> jobs[id].status.st == Cancelled
  }

  lemma {:induction false} MovesKeepPlain(jobs: map<Name, Record>, moves: seq<Move>)
    requires PlainIsCancelled(jobs) && forall m | m in moves :: m.request.status.Member?
    ensures PlainIsCancelled(ApplyMoves(jobs, moves).0)
    ensures forall id | id in jobs && jobs[id].status.Member? :: id in ApplyMoves(jobs, moves).0
                                                                 && ApplyMoves(jobs, moves).0[id].status.Member?
    decreases |moves|
  {
    if moves != [] {
      var (next, stop) := ApplyMove(jobs, moves[0]);
      assert moves[0] in moves && forall m | m in moves[1..] :: m in moves;
      if !stop {
        MovesKeepPlain(next, moves[1..]);
      }
    }
  }

  lemma DispatchReports(s: State, id: Name, run: ModeRun)
    requires PlainIsCancelled(s.jobs) && Proper(run) && id in s.jobs && s.jobs[id].status.Member?
    ensures PlainIsCancelled(Dispatch(s, id, run).0.jobs) && Dispatch(s, id, run).1 != StatusHasNoValue
  {
    MovesKeepPlain(s.jobs, run.moves);
  }

  lemma SubmitReports(s: State, cap: int, modeRunning: bool, start: ModeRun, id: Name, run: ModeRun)
    requires PlainIsCancelled(s.jobs) && Proper(start) && Proper(run)
    ensures PlainIsCancelled(Submit(s, cap, modeRunning, start, id, run).0.jobs)
    ensures Submit(s, cap, modeRunning, start, id, run).1 != StatusHasNoValue
  {
    MovesKeepPlain(s.jobs, start.moves);
    var (s1, started) := if s.running && modeRunning then (s, Done) else Start(s, start);
    if started == Done && |s1.jobs| < cap && id !in s1.jobs {
      DispatchReports(Register(s1, id), id, run);
    }
  }

  lemma InputReports(s: State, id: Name, key: string, run: ModeRun)
    requires PlainIsCancelled(s.jobs) && Proper(run)
    ensures PlainIsCancelled(ProvideInput(s, id, key, run).0.jobs) && ProvideInput(s, id, key, run).1 != StatusHasNoValue
  {
    if id in s.jobs && s.jobs[id].status.st == WaitingForInput {
      DispatchReports(s.(log := s.log + [InputReceived(id, key)]), id, run);
    }
  }

  lemma {:induction false} CancelLiveKeepsPlain(s: State, n: nat, now: Time)
    requires PlainIsCancelled(s.jobs) && n <= |s.order|
    ensures PlainIsCancelled(CancelLive(s, n, now).jobs)
    decreases n
  {
    if n > 0 {
      CancelLiveKeepsPlain(s, n - 1, now);
    }
  }

  lemma ShutdownKeepsPlain(s: State, run: ModeRun, now: Time, last: ModeRun)
    requires PlainIsCancelled(s.jobs) && Proper(run) && Proper(last)
    ensures PlainIsCancelled(Shutdown(s, run, now, last).0.jobs)
  {
    MovesKeepPlain(s.jobs, run.moves);
    var s1 := RunMode(s, run).0;
    CancelLiveKeepsPlain(s1, |s1.order|, now);
    MovesKeepPlain(Quiesce(s, run, now).0.jobs, last.moves);
  }

  lemma PerformKeepsPlain(s: State, cap: int, op: Op)
    requires PlainIsCancelled(s.jobs) && ProperOp(op)
    ensures PlainIsCancelled(Perform(s, cap, op).jobs)
  {
    match op
    case OpStart(run) => MovesKeepPlain(s.jobs, run.moves);
    case OpSubmit(modeRunning, start, id, run) => SubmitReports(s, cap, modeRunning, start, id, run);
    case OpCancel(id, now) =>
    case OpInput(id, key, run) => InputReports(s, id, key, run);
    case OpShutdown(run, now, last) => ShutdownKeepsPlain(s, run, now, last);
    case OpDrive(run) => MovesKeepPlain(s.jobs, run.moves);
  }

  /** Over every run with modes that only ask for members, whatever is cancelled through the orchestrator, bare texts stand on
      cancelled jobs only and no submit or input fails in its report. */
  lemma ProperRunReports(cap: int, ops: seq<Op>)
    requires forall op | op in ops :: ProperOp(op)
    ensures PlainIsCancelled(Run(INITIAL, cap, ops).jobs)
    ensures forall modeRunning, start, id, run | Proper(start) && Proper(run) ::
              Submit(Run(INITIAL, cap, ops), cap, modeRunning, start, id, run).1 != StatusHasNoValue
    ensures forall id, key, run | Proper(run) :: ProvideInput(Run(INITIAL, cap, ops), id, key, run).1 != StatusHasNoValue
  {
    RunKeepsPlain(INITIAL, cap, ops);
    var s := Run(INITIAL, cap, ops);
    forall modeRunning, start, id, run | Proper(start) && Proper(run)
      ensures Submit(s, cap, modeRunning, start, id, run).1 != StatusHasNoValue
    {
      SubmitReports(s, cap, modeRunning, start, id, run);
    }
    forall id, key, run | Proper(run) ensures ProvideInput(s, id, key, run).1 != StatusHasNoValue {
      InputReports(s, id, key, run);
    }
  }

  lemma {:induction false} RunKeepsPlain(s: State, cap: int, ops: seq<Op>)
    requires PlainIsCancelled(s.jobs) && forall op | op in ops :: ProperOp(op)
    ensures PlainIsCancelled(Run(s, cap, ops).jobs)
    decreases |ops|
  {
    if ops != [] {
      assert ops[0] in ops && forall op | op in ops[1..] :: op in ops;
      PerformKeepsPlain(s, cap, ops[0]);
      RunKeepsPlain(Perform(s, cap, ops[0]), cap, ops[1..]);
    }
  }

  // ---------------------------------------------------------------------------
  // Runs
  // ---------------------------------------------------------------------------

  lemma PerformKeepsSound(s: State, cap: int, op: Op)
    requires Sound(s, cap)
    ensures Sound(Perform(s, cap, op), cap) && Evolves(s.jobs, Perform(s, cap, op).jobs)
  {
    match op
    case OpStart(run) => StartKeepsSound(s, cap, run);
    case OpSubmit(modeRunning, start, id, run) => SubmitKeepsSound(s, cap, modeRunning, start, id, run);
    case OpCancel(id, now) => CancelKeepsSound(s, cap, id, now);
    case OpInput(id, key, run) => InputKeepsSound(s, cap, id, key, run);
    case OpShutdown(run, now, last) => ShutdownKeepsSound(s, cap, run, now, last);
    case OpDrive(run) => ModeKeepsSound(s, cap, run);
  }

  /** Over every run: every job is announced once, completed at most once and only when terminal, never
      completed after a cancellation, and the bounded registry only grows. */
  lemma {:induction false} RunSound(s: State, cap: int, ops: seq<Op>)
    requires Sound(s, cap)
    ensures Sound(Run(s, cap, ops), cap) && Evolves(s.jobs, Run(s, cap, ops).jobs)
    decreases |ops|
  {
    if ops != [] {
      var next := Perform(s, cap, ops[0]);
      PerformKeepsSound(s, cap, ops[0]);
      RunSound(next, cap, ops[1..]);
      EvolvesTransitive(s.jobs, next.jobs, Run(s, cap, ops).jobs);
    }
  }

  lemma EveryRunIsSound(cap: int, ops: seq<Op>)
    ensures Sound(Run(INITIAL, cap, ops), cap)
  {
    RunSound(INITIAL, cap, ops);
  }

  /** A call that hands the job to the mode, goes through, and finds it finished afterwards. */
  ghost predicate Finishes(s: State, cap: int, op: Op, id: Name) {
    match op
    case OpSubmit(modeRunning, start, x, run) =>
      var (t, a) := Submit(s, cap, modeRunning, start, x, run);
      x == id && a == Done && id in t.jobs && t.jobs[id].status.st in {Succeeded, Failed, Cancelled}
    case OpInput(x, key, run) =>
      var (t, a) := ProvideInput(s, x, key, run);
      && x == id && a == Done && id in s.jobs && s.jobs[id].status.st == WaitingForInput
      && id in t.jobs && t.jobs[id].status.st in {Succeeded, Failed, Cancelled}
    case _ => false
  }

  lemma ReportCounts(s: State, x: Name, t: State, id: Name)
    requires Reports(s, x, t)
    ensures Completions(t.log, id) == Completions(s.log, id) +
              if x == id && s.jobs[x].status.st in {Succeeded, Failed, Cancelled} then 1 else 0
  {
    var st := s.jobs[x].status.st;
    var changed := s.log + [StatusChanged(x, st)];
    CountAppend(s.log, StatusChanged(x, st), id);
    CountAppend(changed, Completed(x, st), id);
    assert s.log + [StatusChanged(x, st), Completed(x, st)] == changed + [Completed(x, st)];
  }

  lemma {:induction false} CancelLiveCompletesNothing(s: State, n: nat, now: Time, id: Name)
    requires n <= |s.order|
    ensures Completions(CancelLive(s, n, now).log, id) == Completions(s.log, id)
    decreases n
  {
    if n > 0 {
      CancelLiveCompletesNothing(s, n - 1, now, id);
      CountAppend(CancelLive(s, n - 1, now).log, JobCancelled(s.order[n - 1]), id);
    }
  }

  lemma SubmitCounts(s: State, cap: int, modeRunning: bool, start: ModeRun, x: Name, run: ModeRun, id: Name)
    ensures var op := OpSubmit(modeRunning, start, x, run);
            Completions(Submit(s, cap, modeRunning, start, x, run).0.log, id) ==
            Completions(s.log, id) + if Finishes(s, cap, op, id) then 1 else 0
  {
    SubmitTells(s, cap, modeRunning, start, x, run);
    CountAppend(RunMode(s, start).0.log, OrchestratorStarted, id);
    var (s1, started) := if s.running && modeRunning then (s, Done) else Start(s, start);
    assert Completions(s1.log, id) == Completions(s.log, id);
    var s2 := Register(s1, x);
    CountAppend(s1.log, Submitted(x), id);
    var (t, a) := Submit(s, cap, modeRunning, start, x, run);
    var m := RunMode(s2, run).0;
    if a == Done {
      ReportCounts(m, x, t, id);
    }
  }

  lemma InputCounts(s: State, cap: int, x: Name, key: string, run: ModeRun, id: Name)
    ensures Completions(ProvideInput(s, x, key, run).0.log, id) ==
            Completions(s.log, id) + if Finishes(s, cap, OpInput(x, key, run), id) then 1 else 0
  {
    InputTells(s, x, key, run);
    CountAppend(s.log, InputReceived(x, key), id);
    var s1 := s.(log := s.log + [InputReceived(x, key)]);
    var (t, a) := ProvideInput(s, x, key, run);
    if x in s.jobs && s.jobs[x].status.st == WaitingForInput && a == Done {
      ReportCounts(RunMode(s1, run).0, x, t, id);
    }
  }

  lemma PerformCounts(s: State, cap: int, op: Op, id: Name)
    ensures Completions(Perform(s, cap, op).log, id) == Completions(s.log, id) + if Finishes(s, cap, op, id) then 1 else 0
  {
    match op
    case OpStart(run) => CountAppend(RunMode(s, run).0.log, OrchestratorStarted, id);
    case OpSubmit(modeRunning, start, x, run) => SubmitCounts(s, cap, modeRunning, start, x, run, id);
    case OpCancel(x, now) => CountAppend(s.log, JobCancelled(x), id);
    case OpInput(x, key, run) => InputCounts(s, cap, x, key, run, id);
    case OpShutdown(run, now, last) =>
      var m := RunMode(s, run).0;
      CancelLiveCompletesNothing(m, |m.order|, now, id);
      var q := Quiesce(s, run, now).0;
      CountAppend(q.log, OrchestratorShutdown(|RunMode(q, last).0.jobs|), id);
    case OpDrive(run) =>
  }

  /** Some call of the run finishes the job. */
  ghost predicate Finished(s: State, cap: int, ops: seq<Op>, id: Name)
    decreases |ops|
  {
    ops != [] && (Finishes(s, cap, ops[0], id) || Finished(Perform(s, cap, ops[0]), cap, ops[1..], id))
  }

  lemma {:induction false} CompletionsCount(s: State, cap: int, ops: seq<Op>, id: Name)
    ensures Completions(Run(s, cap, ops).log, id) >= Completions(s.log, id)
    ensures Completions(Run(s, cap, ops).log, id) > Completions(s.log, id) <==> Finished(s, cap, ops, id)
    decreases |ops|
  {
    if ops != [] {
      PerformCounts(s, cap, ops[0], id);
      CompletionsCount(Perform(s, cap, ops[0]), cap, ops[1..], id);
    }
  }

  /** Over every run a job is announced as completed, once, exactly if some submit or resumed input of it
      went through and found it finished. */
  lemma CompletedIff(cap: int, ops: seq<Op>, id: Name)
    ensures Completions(Run(INITIAL, cap, ops).log, id) == if Finished(INITIAL, cap, ops, id) then 1 else 0
  {
    EveryRunIsSound(cap, ops);
    var s := Run(INITIAL, cap, ops);
    assert Told(s.log, id, StatusOf(s.jobs, id));
    CompletionsCount(INITIAL, cap, ops, id);
  }
}
