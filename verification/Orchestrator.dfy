/** The orchestrator as an object over mutable jobs; every method does what the call of the same
    name does to the registry and the log. */
module Orchestrators {
  import opened Basics
  import opened Jobs
  import opened Orchestration

  class Orchestrator {
    const cap: int
    var order: seq<Name>
    var jobs: map<Name, Job>
    var running: bool
    var log: seq<Event>

    constructor (cap: int)
      ensures Valid() && View() == INITIAL && this.cap == cap && fresh(jobs.Values)
    {
      this.cap := cap;
      order, jobs, running, log := [], map[], false, [];
    }

    /** Jobs are keyed by their own id, so different keys hold different objects. */
    ghost predicate Valid()
      reads this`jobs
    {
      forall id | id in jobs :: jobs[id].id == id
    }

    ghost function Records(): map<Name, Record>
      reads this`jobs, jobs.Values
    {
      map id | id in jobs :: jobs[id].View()
    }

    ghost function View(): State
      reads this, jobs.Values
    {
      State(order, Records(), running, log)
    }

    method Publish(e: Event)
      requires Valid()
      modifies this`log
      ensures Valid() && View() == old(View()).(log := old(log) + [e])
    {
      log := log + [e];
    }

    method Begin(run: ModeRun) returns (a: Answer)
      requires Valid()
      modifies this`log, this`running, jobs.Values
      ensures Valid() && (View(), a) == Start(old(View()), run)
    {
      if running {
        return Done;
      }
      var raised := LetModeRun(run);
      if raised {
        return ModeRaised;
      }
      running := true;
      Publish(OrchestratorStarted);
      a := Done;
    }

    /** One request to one registered job. */
    method MoveJob(id: Name, r: Request) returns (accepted: bool)
      requires Valid() && id in jobs
      modifies jobs.Values
      ensures Valid() && accepted == ValidTransition(old(jobs[id].status.st), r.status.st)
      ensures View() == old(View()).(jobs := old(Records())[id := Step(old(Records())[id], r)])
    {
      accepted := jobs[id].TransitionTo(r);
      forall x | x in jobs && x != id ensures jobs[x].View() == old(jobs[x].View()) {
        assert jobs[x].id != jobs[id].id;
      }
      assert Records() == old(Records())[id := Step(old(Records())[id], r)];
    }

    method Move(move: Move) returns (stop: bool)
      requires Valid()
      modifies jobs.Values
      ensures Valid() && View() == old(View()).(jobs := ApplyMove(old(Records()), move).0)
      ensures stop == ApplyMove(old(Records()), move).1
    {
      if move.id !in jobs {
        return false;
      }
      var accepted := MoveJob(move.id, move.request);
      assert !accepted ==> Step(old(Records())[move.id], move.request) == old(Records())[move.id];
      return !accepted && !move.caught;
    }

    /** The active mode at work. */
    method LetModeRun(run: ModeRun) returns (raised: bool)
      requires Valid()
      modifies jobs.Values
      ensures Valid() && (View(), raised) == RunMode(old(View()), run)
    {
      var k := 0;
      assert run.moves[0..] == run.moves;
      while k < |run.moves|
        invariant 0 <= k <= |run.moves|
        invariant Valid() && View() == old(View()).(jobs := Records())
        invariant ApplyMoves(Records(), run.moves[k..]) == ApplyMoves(old(Records()), run.moves)
      {
        assert run.moves[k..][0] == run.moves[k] && run.moves[k..][1..] == run.moves[k + 1..];
        var stop := Move(run.moves[k]);
        if stop {
          return true;
        }
        k := k + 1;
      }
      raised := run.raises;
    }

    method ReportJob(id: Name) returns (a: Answer)
      requires Valid() && id in jobs
      modifies this`log
      ensures Valid() && (View(), a) == Report(old(View()), id)
    {
      var status := jobs[id].status;
      if status.Plain? {
        return StatusHasNoValue;
      }
      Publish(StatusChanged(id, status.st));
      if Terminal(status.st) {
        Publish(Completed(id, status.st));
      }
      a := Done;
    }

    method DispatchJob(id: Name, run: ModeRun) returns (a: Answer)
      requires Valid() && id in jobs
      modifies this`log, jobs.Values
      ensures Valid() && (View(), a) == Dispatch(old(View()), id, run)
    {
      var raised := LetModeRun(run);
      if raised {
        return ModeRaised;
      }
      a := ReportJob(id);
    }

    method RegisterJob(id: Name)
      requires Valid() && id !in jobs
      modifies this`order, this`jobs, this`log
      ensures Valid() && View() == Register(old(View()), id)
      ensures jobs.Keys == old(jobs.Keys) + {id} && jobs.Values == old(jobs.Values) + {jobs[id]} && fresh(jobs[id])
    {
      var job := new Job(id);
      ghost var before := jobs;
      order, jobs := order + [id], jobs[id := job];
      assert forall j | j in jobs.Values :: j == job || j in before.Values;
      assert forall x | x in before :: before[x] == jobs[x] && jobs[x] in jobs.Values;
      assert jobs[id] in jobs.Values;
      assert Records() == old(Records())[id := Jobs.Fresh(id)];
      Publish(Submitted(id));
    }

    method AcceptJob(id: Name, run: ModeRun) returns (a: Answer)
      requires Valid() && id !in jobs
      modifies this`order, this`jobs, this`log, jobs.Values
      ensures Valid() && (View(), a) == Dispatch(Register(old(View()), id), id, run)
      ensures fresh(jobs.Values - old(jobs.Values))
    {
      RegisterJob(id);
      a := DispatchJob(id, run);
    }

    method SubmitJob(modeRunning: bool, start: ModeRun, id: Name, run: ModeRun) returns (a: Answer)
      requires Valid()
      modifies this, jobs.Values
      ensures Valid() && (View(), a) == Submit(old(View()), cap, modeRunning, start, id, run)
      ensures fresh(jobs.Values - old(jobs.Values))
    {
      if !(running && modeRunning) {
        a := Begin(start);
        if a != Done {
          return;
        }
      }
      assert |jobs| == |Records()| by { SameSize(jobs, Records()); }
      if |jobs| >= cap {
        return MaxJobsExceeded;
      }
      if id in jobs {
        return DuplicateJobId;
      }
      a := AcceptJob(id, run);
    }

    method Cancel(id: Name, now: Time) returns (a: Answer)
      requires Valid()
      modifies this`log, jobs.Values
      ensures Valid() && (View(), a) == CancelJob(old(View()), id, now)
    {
      if id !in jobs {
        return JobNotFound;
      }
      if Terminal(jobs[id].status.st) {
        return Declined;
      }
      var accepted := MoveJob(id, CancelRequest(now));
      Publish(JobCancelled(id));
      a := Done;
    }

    method GiveInput(id: Name, key: string, run: ModeRun) returns (a: Answer)
      requires Valid()
      modifies this`log, jobs.Values
      ensures Valid() && (View(), a) == ProvideInput(old(View()), id, key, run)
    {
      if id !in jobs {
        return JobNotFound;
      }
      Publish(InputReceived(id, key));
      if jobs[id].status.st == WaitingForInput {
        a := DispatchJob(id, run);
      } else {
        a := Done;
      }
    }

    method CancelOne(id: Name, now: Time)
      requires Valid()
      modifies this`log, jobs.Values
      ensures Valid() && View() == CancelIfLive(old(View()), id, now)
    {
      if id in jobs && Live(jobs[id].status.st) {
        var answer := Cancel(id, now);
      }
    }

    method CancelLiveJobs(now: Time)
      requires Valid()
      modifies this`log, jobs.Values
      ensures Valid() && View() == CancelLive(old(View()), |order|, now)
    {
      ghost var start := View();
      for n := 0 to |order|
        invariant Valid() && View() == CancelLive(start, n, now)
      {
        CancelOne(order[n], now);
      }
    }

    method End()
      requires Valid()
      modifies this`log, this`running
      ensures Valid()
      ensures View() == old(View()).(running := false, log := old(log) + [OrchestratorShutdown(|old(Records())|)])
    {
      SameSize(jobs, Records());
      running := false;
      Publish(OrchestratorShutdown(|jobs|));
    }

    method Settle(run: ModeRun, now: Time) returns (raised: bool)
      requires Valid()
      modifies this`log, jobs.Values
      ensures Valid() && (View(), raised) == Quiesce(old(View()), run, now)
    {
      raised := LetModeRun(run);
      if !raised {
        CancelLiveJobs(now);
      }
    }

    method ShutDown(run: ModeRun, now: Time, last: ModeRun) returns (a: Answer)
      requires Valid()
      modifies this`log, this`running, jobs.Values
      ensures Valid() && (View(), a) == Shutdown(old(View()), run, now, last)
    {
      if !running {
        return Done;
      }
      var raised := Settle(run, now);
      if raised {
        return ModeRaised;
      }
      raised := LetModeRun(last);
      if raised {
        return ModeRaised;
      }
      End();
      a := Done;
    }
  }

  lemma SameSize<V, W>(a: map<Name, V>, b: map<Name, W>)
    requires a.Keys == b.Keys
    ensures |a| == |b|
  {
    assert |a.Keys| == |b.Keys|;
  }
}
