/** The backend that lets a job's executable be a behavior tree. */
module TreeBackend {
  import opened Basics
  import opened BehaviorTree
  import opened TreeEngine
  import Jobs

  const DEFAULT_STEPS := 10_000

  datatype Outcome = Reached(status: Jobs.JobStatus) | JobExecutionError | InvalidJobTransition

  /** What the blackboard and the clock supply. */
  datatype Surroundings = Surroundings(
    result: Option<Jobs.Value>, error: Option<Jobs.Value>, raised: Jobs.Value, now: Jobs.Time, later: Jobs.Time)

  /** The status a settled or broken tree asks for. */
  function Asked(v: Verdict): Jobs.JobStatus {
    if v == Settled(Success) then Jobs.Succeeded else Jobs.Failed
  }

  /** `advance`. On a job that can still move it always ends in SUCCEEDED or FAILED: the tree never
      hands back a waiting status. A finished job keeps its status whatever the tree says. */
  method Advance(job: Jobs.Job, tree: Tree, maxSteps: Option<int>, env: Surroundings, scripts: nat -> Script,
                 ghost heap: set<Node>)
    returns (r: Outcome, verdict: Verdict, ghost results: seq<TickResult>, ghost made: seq<Visit>)
    requires Forest(heap) && tree.root in heap && SetupCounted(heap)
    modifies job, tree`lastStatus, tree`history
    modifies Subtree(tree.root, heap)`setupDone, Subtree(tree.root, heap)`setups
    ensures SetupCounted(heap)
    ensures tree.history == old(tree.history) + results && Played(tree.root, scripts, results, made)
    ensures Decides(results, if maxSteps.Some? then maxSteps.value else 10_000, verdict)
    ensures Jobs.Follows(old(job.View()), job.View())
    ensures !Jobs.Terminal(old(job.status.st)) ==> job.status.st == Asked(verdict)
    ensures !Jobs.Terminal(old(job.status.st)) ==>
              r == if verdict.Settled? then Reached(Asked(verdict)) else JobExecutionError
    ensures Jobs.Terminal(old(job.status.st)) ==>
              r == if old(job.status.st) != Asked(verdict) then InvalidJobTransition
                   else if verdict.Settled? then Reached(Asked(verdict)) else JobExecutionError
    ensures old(job.status.st) == Jobs.Pending ==> job.startedAt == Some(env.now)
    // What the job shows afterwards, if it could still move.
    ensures !Jobs.Terminal(old(job.status.st)) ==>
              job.status == Jobs.Member(if verdict == Settled(Success) then Jobs.Succeeded else Jobs.Failed)
              && job.completedAt == Some(env.later)
    ensures !Jobs.Terminal(old(job.status.st)) && verdict == Settled(Success) ==>
              job.error == old(job.error) && job.result == if env.result.Some? then env.result else old(job.result)
    ensures !Jobs.Terminal(old(job.status.st)) && verdict == Settled(Failure) ==>
              job.result == old(job.result) && job.error == if env.error.Some? then env.error else old(job.error)
    ensures !Jobs.Terminal(old(job.status.st)) && !verdict.Settled? ==>
              job.result == old(job.result) && job.error == Some(env.raised)
  {
    var accepted := true;
    if job.status.st == Jobs.Pending {
      accepted := job.TransitionTo(Jobs.Request(Jobs.Member(Jobs.Running), None, None, env.now));
    }
    var budget := if maxSteps.Some? then maxSteps.value else DEFAULT_STEPS;
    verdict, results, made := tree.TickUntilTerminal(budget, scripts, heap);
    if !verdict.Settled? {
      accepted := job.TransitionTo(Jobs.Request(Jobs.Member(Jobs.Failed), None, Some(env.raised), env.later));
      return if accepted then JobExecutionError else InvalidJobTransition, verdict, results, made;
    }
    match verdict.status {
      case Success =>
        accepted := job.TransitionTo(Jobs.Request(Jobs.Member(Jobs.Succeeded), env.result, None, env.later));
      case Failure =>
        accepted := job.TransitionTo(Jobs.Request(Jobs.Member(Jobs.Failed), None, env.error, env.later));
      // The branches for the statuses on which the tick loop goes on are dead.
      case WaitingForInput => assert false;
      case Running => assert false;
    }
    r := if accepted then Reached(job.status.st) else InvalidJobTransition;
  }
}
