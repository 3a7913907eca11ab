/** The loop that migrates compatible instances after a flow was published. */
module Migration {
  /** A row of the impact report; rows that are not objects, or name no instance, are passed over. */
  datatype Row = NotAnObject | Instance(id: string, compatibility: string, compatible: bool)

  /** What one call of migrate_instance does; only a refusal is caught. */
  datatype Attempt = Migrated | Refused(reason: string) | Breaks

  datatype Status = Skipped(detail: string) | Failed(reason: string) | Ok

  datatype Result = Result(id: string, status: Status)

  datatype Summary = Summary(attempted: nat, succeeded: nat, failed: nat,
                             skippedBlocked: nat, skippedOther: nat, results: seq<Result>)

  predicate Listed(r: Row) {
    r.Instance? && r.id != ""
  }

  predicate Blocked(r: Row) {
    Listed(r) && r.compatibility == "blocked"
  }

  predicate Eligible(r: Row) {
    Listed(r) && !Blocked(r) && r.compatible
  }

  /** The rows of a kind, in order. */
  function Only(rows: seq<Row>, keep: Row -> bool): (kept: seq<Row>)
    ensures forall r | r in kept :: keep(r)
  {
    if rows == [] then []
    else
      var before := Only(rows[..|rows| - 1], keep);
      if keep(rows[|rows| - 1]) then before + [rows[|rows| - 1]] else before
  }

  function Ids(rows: seq<Row>): seq<string>
    requires forall r | r in rows :: r.Instance?
  {
    seq(|rows|, i requires 0 <= i < |rows| => rows[i].id)
  }

  function Outcome(a: Attempt): Status {
    if a.Refused? then Failed(a.reason) else Ok
  }

  /** The result of the last of the given rows; outcome(k) is what the k-th call does. */
  function ResultOf(rows: seq<Row>, outcome: nat -> Attempt): Result
    requires rows != [] && Listed(rows[|rows| - 1])
  {
    var r := rows[|rows| - 1];
    Result(r.id,
           if Blocked(r) then Skipped("blocked")
           else if !r.compatible then Skipped(if r.compatibility != "" then r.compatibility else "not_compatible")
           else Outcome(outcome(|Only(rows[..|rows| - 1], Eligible)|)))
  }

  function Results(rows: seq<Row>, outcome: nat -> Attempt): seq<Result> {
    if rows == [] then []
    else if Listed(rows[|rows| - 1]) then Results(rows[..|rows| - 1], outcome) + [ResultOf(rows, outcome)]
    else Results(rows[..|rows| - 1], outcome)
  }

  function Tally(results: seq<Result>, count: Result -> bool): nat {
    if results == [] then 0
    else Tally(results[..|results| - 1], count) + if count(results[|results| - 1]) then 1 else 0
  }

  /** Every counter is the number of results of its kind, and together they account for all rows. */
  ghost predicate Balanced(s: Summary, rows: seq<Row>) {
    && s.attempted == s.succeeded + s.failed == |Only(rows, Eligible)|
    && s.succeeded == Tally(s.results, (r: Result) => r.status.Ok?)
    && s.failed == Tally(s.results, (r: Result) => r.status.Failed?)
    && s.skippedBlocked == |Only(rows, Blocked)|
    && s.skippedBlocked + s.skippedOther + s.attempted == |s.results| == |Only(rows, Listed)|
  }

  /** One row entered into the summary; attempt is what migrating it does, if it is migrated. */
  function Entered(s: Summary, r: Row, attempt: Attempt): Summary {
    if !Listed(r) then s
    else if Blocked(r) then
      s.(skippedBlocked := s.skippedBlocked + 1, results := s.results + [Result(r.id, Skipped("blocked"))])
    else if !r.compatible then
      s.(skippedOther := s.skippedOther + 1,
         results := s.results + [Result(r.id, Skipped(if r.compatibility != "" then r.compatibility else "not_compatible"))])
    else if attempt.Refused? then
      s.(attempted := s.attempted + 1, failed := s.failed + 1,
         results := s.results + [Result(r.id, Failed(attempt.reason))])
    else
      s.(attempted := s.attempted + 1, succeeded := s.succeeded + 1, results := s.results + [Result(r.id, Ok)])
  }

  const EMPTY_SUMMARY := Summary(0, 0, 0, 0, 0, [])

  function SummaryOf(rows: seq<Row>, outcome: nat -> Attempt): Summary {
    if rows == [] then EMPTY_SUMMARY
    else
      var before := rows[..|rows| - 1];
      Entered(SummaryOf(before, outcome), rows[|rows| - 1], outcome(|Only(before, Eligible)|))
  }

  lemma TallyMore(results: seq<Result>, r: Result, count: Result -> bool)
    ensures Tally(results + [r], count) == Tally(results, count) + if count(r) then 1 else 0
  {
    assert (results + [r])[..|results|] == results;
  }

  /** The counters account for all rows, and the results keep the order of the rows. */
  lemma {:induction false} SummaryBalanced(rows: seq<Row>, outcome: nat -> Attempt)
    ensures Balanced(SummaryOf(rows, outcome), rows)
    ensures SummaryOf(rows, outcome).results == Results(rows, outcome)
  {
    if rows != [] {
      SummaryBalanced(rows[..|rows| - 1], outcome);
      if Listed(rows[|rows| - 1]) {
        EnteredBalanced(SummaryOf(rows[..|rows| - 1], outcome), rows, outcome);
      }
    }
  }

  lemma EnteredResult(s: Summary, rows: seq<Row>, outcome: nat -> Attempt)
    requires rows != [] && Listed(rows[|rows| - 1])
    ensures var t := Entered(s, rows[|rows| - 1], outcome(|Only(rows[..|rows| - 1], Eligible)|));
            t.results == s.results + [ResultOf(rows, outcome)]
  {}

  lemma EnteredBalanced(s: Summary, rows: seq<Row>, outcome: nat -> Attempt)
    requires rows != [] && Listed(rows[|rows| - 1]) && Balanced(s, rows[..|rows| - 1])
    ensures var t := Entered(s, rows[|rows| - 1], outcome(|Only(rows[..|rows| - 1], Eligible)|));
            Balanced(t, rows) && t.results == s.results + [ResultOf(rows, outcome)]
  {
    EnteredResult(s, rows, outcome);
    TallyMore(s.results, ResultOf(rows, outcome), (r: Result) => r.status.Ok?);
    TallyMore(s.results, ResultOf(rows, outcome), (r: Result) => r.status.Failed?);
  }

  /** Returns when every row is done, or raises at the first call that breaks. calls lists the instances
      migrate_instance was called for. */
  method AutoMigrate(rows: seq<Row>, outcome: nat -> Attempt) returns (raised: bool, s: Summary, calls: seq<string>)
    ensures !raised ==> calls == Ids(Only(rows, Eligible)) && s.results == Results(rows, outcome) && Balanced(s, rows)
    ensures raised <==> exists k :: 0 <= k < |Only(rows, Eligible)| && outcome(k).Breaks?
    ensures raised ==> calls != [] && outcome(|calls| - 1).Breaks?
                       && calls <= Ids(Only(rows, Eligible)) && forall k | 0 <= k < |calls| - 1 :: !outcome(k).Breaks?
  {
    raised, s, calls := MigrateEach(rows, outcome);
    IdsPrefix(rows, |rows|);
    SummaryBalanced(rows, outcome);
  }

  method MigrateEach(rows: seq<Row>, outcome: nat -> Attempt) returns (raised: bool, s: Summary, calls: seq<string>)
    ensures !raised ==> calls == Ids(Only(rows, Eligible)) && s == SummaryOf(rows, outcome)
    ensures raised ==> calls != [] && calls <= Ids(Only(rows, Eligible)) && outcome(|calls| - 1).Breaks?
    ensures forall k | 0 <= k < |calls| && (raised ==> k < |calls| - 1) :: !outcome(k).Breaks?
  {
    s, calls, raised := EMPTY_SUMMARY, [], false;
    for n := 0 to |rows|
      invariant calls == Ids(Only(rows[..n], Eligible)) && s == SummaryOf(rows[..n], outcome)
      invariant forall k | 0 <= k < |calls| :: !outcome(k).Breaks?
    {
      OneMoreRow(rows, n, outcome);
      var attempt := outcome(|calls|);
      if Eligible(rows[n]) {
        calls := calls + [rows[n].id];
        if attempt.Breaks? {
          IdsPrefix(rows, n + 1);
          return true, s, calls;
        }
      }
      s := Enter(s, rows[n], attempt);
    }
    assert rows[..|rows|] == rows;
  }

  lemma IdsPrefix(rows: seq<Row>, n: nat)
    requires n <= |rows|
    ensures Ids(Only(rows[..n], Eligible)) <= Ids(Only(rows, Eligible))
    ensures |Ids(Only(rows, Eligible))| == |Only(rows, Eligible)|
  {
    OnlyPrefix(rows, n, Eligible);
  }

  lemma OneMoreRow(rows: seq<Row>, n: nat, outcome: nat -> Attempt)
    requires n < |rows|
    ensures SummaryOf(rows[..n + 1], outcome) ==
            Entered(SummaryOf(rows[..n], outcome), rows[n], outcome(|Only(rows[..n], Eligible)|))
    ensures Ids(Only(rows[..n + 1], Eligible)) ==
            Ids(Only(rows[..n], Eligible)) + if Eligible(rows[n]) then [rows[n].id] else []
  {
    assert rows[..n + 1][..n] == rows[..n];
  }

  /** The counting part of the loop body. */
  method Enter(s: Summary, r: Row, attempt: Attempt) returns (t: Summary)
    ensures t == Entered(s, r, attempt)
  {
    t := s;
    if !Listed(r) {
      return;
    }
    if r.compatibility == "blocked" {
      t := t.(skippedBlocked := t.skippedBlocked + 1);
      return t.(results := t.results + [Result(r.id, Skipped("blocked"))]);
    }
    if !r.compatible {
      t := t.(skippedOther := t.skippedOther + 1);
      return t.(results := t.results + [Result(r.id, Skipped(if r.compatibility != "" then r.compatibility else "not_compatible"))]);
    }
    t := t.(attempted := t.attempted + 1);
    if attempt.Refused? {
      t := t.(failed := t.failed + 1);
      return t.(results := t.results + [Result(r.id, Failed(attempt.reason))]);
    }
    t := t.(succeeded := t.succeeded + 1);
    t := t.(results := t.results + [Result(r.id, Ok)]);
  }

  lemma {:induction false} OnlyPrefix(rows: seq<Row>, n: nat, keep: Row -> bool)
    requires n <= |rows|
    ensures Only(rows[..n], keep) <= Only(rows, keep)
    decreases |rows|
  {
    if n < |rows| {
      OnlyPrefix(rows[..|rows| - 1], n, keep);
      assert rows[..|rows| - 1][..n] == rows[..n];
    } else {
      assert rows[..n] == rows;
    }
  }

  /** Which rows are migrated: those that name an instance, are not blocked and are compatible. */
  lemma EligibleIff(r: Row)
    ensures Eligible(r) <==> r.Instance? && r.id != "" && r.compatibility != "blocked" && r.compatible
    ensures Listed(r) <==> r.Instance? && r.id != ""
  {}

  lemma {:induction false} OnlyCounts(rows: seq<Row>, keep: Row -> bool, r: Row)
    ensures multiset(Only(rows, keep))[r] == if keep(r) then multiset(rows)[r] else 0
  {
    if rows != [] {
      var init := rows[..|rows| - 1];
      OnlyCounts(init, keep, r);
      assert rows == init + [rows[|rows| - 1]];
    }
  }

  /** The result of each row that names an instance, at its place among those: why it was passed over, or what the
      call made for it did. The calls are made for the eligible rows, in order. */
  lemma {:induction false} ResultIs(rows: seq<Row>, outcome: nat -> Attempt, k: nat)
    requires k < |rows| && rows[k].Instance? && rows[k].id != ""
    ensures |Results(rows, outcome)| == |Only(rows, Listed)|
    ensures var place, call := |Only(rows[..k], Listed)|, |Only(rows[..k], Eligible)|;
            && place < |Only(rows, Listed)| <= |Results(rows, outcome)|
            && Results(rows, outcome)[place] ==
               Result(rows[k].id,
                 if rows[k].compatibility == "blocked" then Skipped("blocked")
                 else if !rows[k].compatible && rows[k].compatibility == "" then Skipped("not_compatible")
                 else if !rows[k].compatible then Skipped(rows[k].compatibility)
                 else if outcome(call).Refused? then Failed(outcome(call).reason)
                 else Ok)
  {
    SummaryBalanced(rows, outcome);
    var init := rows[..|rows| - 1];
    SummaryBalanced(init, outcome);
    if k < |rows| - 1 {
      ResultIs(init, outcome, k);
      assert init[..k] == rows[..k] && init[k] == rows[k];
    }
  }
}
