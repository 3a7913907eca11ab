/** The job lifecycle: the status machine every mode and backend drives jobs through. */
module Jobs {
  import opened Basics

  datatype JobStatus = Pending | Running | WaitingForInput | Succeeded | Failed | Cancelled

  /** The status field usually holds an enum member. The default `cancel_job` stores the bare
      string "CANCELLED" instead: it compares equal to the member but has no `.value`. */
  datatype StatusValue = Member(st: JobStatus) | Plain(st: JobStatus)

  /** Results, errors and time stamps are opaque. */
  type Value = int
  type Time = int

  datatype Request = Request(status: StatusValue, result: Option<Value>, error: Option<Value>, now: Time)

  datatype Record = Record(
    id: Name, status: StatusValue, result: Option<Value>, error: Option<Value>,
    startedAt: Option<Time>, completedAt: Option<Time>)

  predicate Terminal(s: JobStatus) {
    s == Succeeded || s == Failed || s == Cancelled
  }

  predicate Live(s: JobStatus) {
    s == Running || s == WaitingForInput
  }

  /** `_is_valid_transition`; staying put is always allowed, even at the end. */
  predicate ValidTransition(old_: JobStatus, new_: JobStatus) {
    old_ == new_ ||
    match old_
    case Pending => new_ != Pending
    case Running => new_ != Pending
    case WaitingForInput => new_ == Running || Terminal(new_)
    case Succeeded => false
    case Failed => false
    case Cancelled => false
  }

  function Fresh(id: Name): Record {
    Record(id, Member(Pending), None, None, None, None)
  }

  /** The record `_transition_to` leaves behind when it accepts the request. */
  function Moved(j: Record, r: Request): Record {
    var started := if j.status.st == Pending && r.status.st == Running then Some(r.now) else j.startedAt;
    if Terminal(r.status.st) then
      Record(j.id, r.status, if r.result.Some? then r.result else j.result,
             if r.error.Some? then r.error else j.error, started, Some(r.now))
    else Record(j.id, r.status, j.result, j.error, started, j.completedAt)
  }

  function Step(j: Record, r: Request): Record {
    if ValidTransition(j.status.st, r.status.st) then Moved(j, r) else j
  }

  /** The record after a whole run of requests, refused ones included. */
  function Drive(j: Record, rs: seq<Request>): Record
    decreases |rs|
  {
    if rs == [] then j else Drive(Step(j, rs[0]), rs[1..])
  }

  /** How often the run writes `started_at`. */
  function Starts(j: Record, rs: seq<Request>): nat
    decreases |rs|
  {
    if rs == [] then 0
    else (if j.status.st == Pending && rs[0].status.st == Running then 1 else 0) + Starts(Step(j, rs[0]), rs[1..])
  }

  /** The status path of the run, from its start to its end. */
  function Path(j: Record, rs: seq<Request>): (p: seq<JobStatus>)
    ensures |p| == |rs| + 1
    decreases |rs|
  {
    [j.status.st] + if rs == [] then [] else Path(Step(j, rs[0]), rs[1..])
  }

  ghost predicate Coherent(j: Record) {
    && (j.completedAt.Some? <==> Terminal(j.status.st))
    && (j.status.st == Pending ==> j.startedAt.None?)
    && (j.result.Some? || j.error.Some? ==> Terminal(j.status.st))
  }

  /** How one state of a job may follow an earlier one. */
  ghost predicate Follows(old_: Record, new_: Record) {
    && new_.id == old_.id
    && (Terminal(old_.status.st) ==> new_.status.st == old_.status.st)
    && (old_.status.st != Pending ==> new_.status.st != Pending && new_.startedAt == old_.startedAt)
    && (Coherent(old_) ==> Coherent(new_))
  }

  /** Over any run: the end follows the start, so a terminal status is kept for ever, PENDING is never
      re-entered, `completed_at` is set exactly on terminal jobs, and only those have a result or an error. */
  lemma {:induction false} DriveFollows(j: Record, rs: seq<Request>)
    ensures Follows(j, Drive(j, rs))
    decreases |rs|
  {
    if rs != [] {
      DriveFollows(Step(j, rs[0]), rs[1..]);
    }
  }

  /** A new job writes `started_at` at most once in any run, and has it exactly if it did. */
  lemma {:induction false} StartedOnce(j: Record, rs: seq<Request>)
    requires j.status.st != Pending || j.startedAt.None?
    ensures Starts(j, rs) <= 1 && (j.status.st != Pending ==> Starts(j, rs) == 0)
    ensures j.status.st == Pending ==> (Drive(j, rs).startedAt.Some? <==> Starts(j, rs) == 1)
    decreases |rs|
  {
    if rs != [] {
      StartedOnce(Step(j, rs[0]), rs[1..]);
      DriveFollows(Step(j, rs[0]), rs[1..]);
    }
  }

  /** `started_at` is set exactly on the jobs whose path goes straight from PENDING to RUNNING; a job
      that first waits runs later without it. */
  lemma {:induction false} StartedMeansStraightToRunning(j: Record, rs: seq<Request>)
    requires j.status.st == Pending && j.startedAt.None?
    ensures Drive(j, rs).startedAt.Some? <==> GoesStraight(Path(j, rs))
    decreases |rs|
  {
    if rs != [] {
      var next := Step(j, rs[0]);
      var p, tail := Path(j, rs), Path(next, rs[1..]);
      assert p[1..] == tail && p[0] == Pending && tail[0] == next.status.st;
      GoesStraightTail(p);
      if next.status.st == Pending {
        StartedMeansStraightToRunning(next, rs[1..]);
      } else {
        DriveFollows(next, rs[1..]);
        NeverPendingAgain(next, rs[1..]);
        assert !GoesStraight(tail);
      }
    }
  }

  ghost predicate GoesStraight(p: seq<JobStatus>) {
    exists k :: 0 <= k < |p| - 1 && p[k] == Pending && p[k + 1] == Running
  }

  lemma GoesStraightTail(p: seq<JobStatus>)
    requires |p| >= 2
    ensures GoesStraight(p) <==> (p[0] == Pending && p[1] == Running) || GoesStraight(p[1..])
  {
    if GoesStraight(p) {
      var k :| 0 <= k < |p| - 1 && p[k] == Pending && p[k + 1] == Running;
      if k > 0 {
        assert p[1..][k - 1] == Pending && p[1..][k - 1 + 1] == Running;
      }
    }
    if GoesStraight(p[1..]) {
      var k :| 0 <= k < |p[1..]| - 1 && p[1..][k] == Pending && p[1..][k + 1] == Running;
      assert p[k + 1] == Pending && p[k + 1 + 1] == Running;
    }
    if p[0] == Pending && p[1] == Running {
      assert p[0] == Pending && p[0 + 1] == Running;
    }
  }

  lemma {:induction false} NeverPendingAgain(j: Record, rs: seq<Request>)
    requires j.status.st != Pending
    ensures Pending !in Path(j, rs)
    decreases |rs|
  {
    if rs != [] {
      NeverPendingAgain(Step(j, rs[0]), rs[1..]);
    }
  }

  ghost predicate CanReach(j: Record, target: JobStatus) {
    exists rs :: Drive(j, rs).status.st == target
  }

  lemma Reaches(j: Record, rs: seq<Request>)
    ensures CanReach(j, Drive(j, rs).status.st)
  {}

  /** Which statuses a run of requests can lead to: a job that is not finished can get anywhere but
      back to PENDING, a finished one nowhere, and one request does what any number can. */
  lemma RunReachesIff(j: Record, target: JobStatus)
    ensures CanReach(j, target) <==>
              (target == j.status.st || (j.status.st !in {Succeeded, Failed, Cancelled} && target != Pending))
  {
    if CanReach(j, target) {
      var rs :| Drive(j, rs).status.st == target;
      DriveFollows(j, rs);
    }
    var one := Request(Member(target), None, None, 0);
    assert [one][1..] == [];
    assert Drive(j, [one]) == Drive(Step(j, one), []) == Step(j, one);
    Reaches(j, []);
    Reaches(j, [one]);
  }

  /** What self-transitions do to finished jobs: the record of a terminal job is rewritten exactly
      by a request for its own status, which stamps a new completion time. */
  lemma TerminalRewrite(j: Record, r: Request)
    requires Terminal(j.status.st)
    ensures r.status.st != j.status.st ==> Step(j, r) == j
    ensures r.status.st == j.status.st ==>
              Step(j, r).completedAt == Some(r.now) && (r.result.Some? ==> Step(j, r).result == r.result)
  {}

  class Job {
    const id: Name
    var status: StatusValue
    var result: Option<Value>
    var error: Option<Value>
    var startedAt: Option<Time>
    var completedAt: Option<Time>

    constructor (id: Name)
      ensures View() == Fresh(id) && this.id == id
    {
      this.id, status := id, Member(Pending);
      result, error, startedAt, completedAt := None, None, None, None;
    }

    function View(): (r: Record)
      reads this
      ensures r.id == id && r.status == status
    {
      Record(id, status, result, error, startedAt, completedAt)
    }

    /** `_transition_to`; an answer of false stands for InvalidJobTransitionError. */
    method TransitionTo(r: Request) returns (accepted: bool)
      modifies this
      ensures accepted <==> ValidTransition(old(status.st), r.status.st)
      ensures View() == Step(old(View()), r)
      ensures accepted <==>
                (r.status.st == old(status.st) || (old(status.st) !in {Succeeded, Failed, Cancelled} && r.status.st != Pending))
      ensures status == if accepted then r.status else old(status)
      ensures startedAt == if old(status.st) == Pending && r.status.st == Running then Some(r.now) else old(startedAt)
      ensures accepted && r.status.st in {Succeeded, Failed, Cancelled} ==>
                && completedAt == Some(r.now)
                && result == (if r.result.Some? then r.result else old(result))
                && error == if r.error.Some? then r.error else old(error)
      ensures !accepted || r.status.st !in {Succeeded, Failed, Cancelled} ==>
                completedAt == old(completedAt) && result == old(result) && error == old(error)
    {
      var before := status.st;
      if !ValidTransition(before, r.status.st) {
        return false;
      }
      if before == Pending && r.status.st == Running {
        startedAt := Some(r.now);
      }
      if Terminal(r.status.st) {
        completedAt := Some(r.now);
        if r.result.Some? {
          result := r.result;
        }
        if r.error.Some? {
          error := r.error;
        }
      }
      status := r.status;
      accepted := true;
    }
  }
}
