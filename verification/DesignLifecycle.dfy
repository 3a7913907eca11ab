/** The life of a design proposal: propose, validate, analyse, commit, discard.

    Validators, the catalog, the token check and the migrations are supplied by the surroundings;
    an Env says what they answer during one call. */
module DesignLifecycle {
  import opened Basics
  import opened Proposals

  const COMMITTED := "committed"
  const DISCARDED := "discarded"

  datatype Published = Published(id: Option<Name>, revision: Option<int>)

  /** check is the verdict of the validators, or None if one of them raises; impact and publish are
      None if the catalog raises, and then it wrote nothing; dashboard is the name of the dashboard in the body if its
      tiles are sound; clock(k) is the k-th reading. */
  datatype Env = Env(
    check: Option<bool>, tokenOk: bool, bodyId: Option<Name>, existing: set<Name>,
    impact: Option<Value>, publish: Option<Published>, dashboard: Option<Name>, migrationRaises: bool, clock: nat -> Stamp)

  datatype Action = Create | Update
  datatype Intent = Intent(action: Action, target: Name)

  /** One write of the catalog on behalf of a proposal. */
  datatype Write = Write(id: Name, intent: Intent)

  /** issued are the ids ever handed out. */
  datatype Book = Book(drafts: map<Name, Draft>, writes: seq<Write>, issued: set<Name>)

  datatype Answer =
    | Proposed(valid: bool)
    | Validated(valid: bool)
    | Analysed(mutationsAllowed: bool)
    | Committed
    | CommittedButMigrationRaised
    | Discarded
    | NotFound
    | Rejected
    | HookRaised
    | Corrupt

  /** A falsy id counts as no id. */
  function Truthy(o: Option<Name>): Option<Name> {
    if o.Some? && o.value.text != "" then o else None
  }

  /** The id a publish goes to: the stored one, then the base, then whatever the body names. */
  function Resolve(stored: Option<Name>, base: Option<Name>, bodyId: Option<Name>): Option<Name> {
    if Truthy(stored).Some? then stored
    else if Truthy(base).Some? then base
    else Truthy(bodyId)
  }

  function PublishIntent(stored: Option<Name>, base: Option<Name>, env: Env): Option<Intent> {
    var resolved := Resolve(stored, base, env.bodyId);
    if resolved.None? then None
    else if Truthy(base).Some? then Some(Intent(Update, base.value))
    else if resolved.value in env.existing then Some(Intent(Update, resolved.value))
    else Some(Intent(Create, resolved.value))
  }

  function Put(b: Book, d: Draft): Book {
    b.(drafts := b.drafts[d.id := d])
  }

  function Validate(b: Book, id: Name, env: Env): (Book, Answer) {
    if id !in b.drafts then (b, NotFound)
    else if env.check.None? then (b, HookRaised)
    else (Put(b, b.drafts[id].(id := id, validation := env.check, updatedAt := env.clock(0))), Validated(env.check.value))
  }

  /** A new draft is stored, validated, and stored again with its verdict. */
  function Propose(b: Book, draft: Draft, env: Env): (Book, Answer) {
    Preview(Put(b, draft).(issued := b.issued + {draft.id}), draft.id, env)
  }

  function Preview(b: Book, id: Name, env: Env): (Book, Answer) {
    var (checked, answer) := Validate(b, id, env);
    if answer.Validated? then
      (Put(checked, checked.drafts[id].(id := id, updatedAt := env.clock(1))), Proposed(answer.valid))
    else (checked, answer)
  }

  /** Impact analysis needs an id to look for, except for dashboards. */
  function Analysable(d: Draft, env: Env): bool {
    if d.kind == "dashboard" then true
    else Resolve(StoredOf(d), BaseOf(d), env.bodyId).Some?
  }

  function Analyse(b: Book, id: Name, env: Env): (Book, Answer) {
    if id !in b.drafts then (b, NotFound)
    else
      var d := b.drafts[id];
      if !Analysable(d, env) then (b, Rejected)
      else if env.impact.None? then (b, HookRaised)
      else (Put(b, d.(id := id, impact := env.impact, updatedAt := env.clock(1))), Analysed(d.validation == Some(true)))
  }

  /** The draft after a publish that went through. The catalog may answer with its own id and revision; a dashboard
      is registered under its name, as revision 1. */
  function AfterPublish(d: Draft, intent: Intent, p: Published, now: string): Draft {
    var target := Truthy(p.id).GetOr(intent.target);
    var done := d.(status := COMMITTED, updatedAt := now);
    if d.kind == "resource" then done.(resourceId := Some(target))
    else if d.kind == "dashboard" then done.(flowId := Some(intent.target), committedRevision := Some(1))
    else done.(flowId := Some(target), committedRevision := Some(if p.revision.GetOr(0) != 0 then p.revision.value else 1))
  }

  /** A catalog write and the proposal marked: the end of every commit that goes through. */
  function Recorded(b: Book, id: Name, intent: Intent, env: Env): Book
    requires id in b.drafts && env.publish.Some?
  {
    Put(b, AfterPublish(b.drafts[id], intent, env.publish.value, env.clock(2)).(id := id))
      .(writes := b.writes + [Write(id, intent)])
  }

  function PublishDashboard(b: Book, id: Name, env: Env): (Book, Answer)
    requires id in b.drafts
  {
    if Truthy(env.dashboard).None? then (b, Rejected)
    else if env.publish.None? then (b, HookRaised)
    else (Recorded(b, id, Intent(Update, env.dashboard.value), env), Committed)
  }

  /** The two ids a draft of a flow or a resource brings along. */
  function BaseOf(d: Draft): Option<Name> {
    if d.kind == "resource" then d.baseResourceId else d.baseFlowId
  }

  function StoredOf(d: Draft): Option<Name> {
    if d.kind == "resource" then d.resourceId else d.flowId
  }

  function PublishDefinition(b: Book, id: Name, env: Env): (Book, Answer)
    requires id in b.drafts
  {
    var d := b.drafts[id];
    var intent := PublishIntent(StoredOf(d), BaseOf(d), env);
    if intent.None? then (b, Rejected)
    else
      var (analysed, answer) := Analyse(b, id, env);
      if !answer.Analysed? then (analysed, answer)
      else if env.publish.None? then (analysed, HookRaised)
      else (Recorded(analysed, id, intent.value, env),
            if d.kind != "resource" && env.migrationRaises then CommittedButMigrationRaised else Committed)
  }

  /** The end of a commit, once the draft is validated. */
  function Publish(b: Book, id: Name, env: Env): (Book, Answer)
    requires id in b.drafts
  {
    if b.drafts[id].kind == "dashboard" then PublishDashboard(b, id, env) else PublishDefinition(b, id, env)
  }

  function Commit(b: Book, id: Name, env: Env): (Book, Answer) {
    if id !in b.drafts then (b, NotFound)
    else if b.drafts[id].status != OPEN then (b, Rejected)
    else if !env.tokenOk then (b, Rejected)
    else
      var (checked, answer) := Validate(b, id, env);
      if !answer.Validated? then (checked, answer)
      else if !answer.valid then (checked, Rejected)
      else Publish(checked, id, env)
  }

  /** Discarding marks, saves and deletes; it does not look at the status first. */
  function Discard(b: Book, id: Name): (Book, Answer) {
    if id !in b.drafts then (b, NotFound) else (b.(drafts := b.drafts - {id}), Discarded)
  }

  // ---------------------------------------------------------------------------
  // Runs
  // ---------------------------------------------------------------------------

  datatype Op =
    | OpPropose(draft: Draft, env: Env)
    | OpValidate(id: Name, env: Env)
    | OpAnalyse(id: Name, env: Env)
    | OpCommit(id: Name, env: Env)
    | OpDiscard(id: Name)

  /** Proposal ids are never handed out twice, and new drafts are open. */
  predicate Enabled(b: Book, op: Op) {
    op.OpPropose? ==> op.draft.id !in b.issued && op.draft.status == OPEN
  }

  function Perform(b: Book, op: Op): (Book, Answer) {
    match op
    case OpPropose(d, env) => Propose(b, d, env)
    case OpValidate(id, env) => Validate(b, id, env)
    case OpAnalyse(id, env) => Analyse(b, id, env)
    case OpCommit(id, env) => Commit(b, id, env)
    case OpDiscard(id) => Discard(b, id)
  }

  function Run(b: Book, ops: seq<Op>): Book
    decreases |ops|
  {
    if ops == [] then b else Run(if Enabled(b, ops[0]) then Perform(b, ops[0]).0 else b, ops[1..])
  }

  /** The answers of the calls of a run; a call that is not enabled has none. */
  function Answers(b: Book, ops: seq<Op>): seq<Answer>
    decreases |ops|
  {
    if ops == [] then []
    else if Enabled(b, ops[0]) then [Perform(b, ops[0]).1] + Answers(Perform(b, ops[0]).0, ops[1..])
    else Answers(b, ops[1..])
  }

  function WritesFor(writes: seq<Write>, id: Name): nat {
    if writes == [] then 0
    else WritesFor(writes[..|writes| - 1], id) + if writes[|writes| - 1].id == id then 1 else 0
  }

  predicate Pending(b: Book, id: Name) {
    id in b.drafts && b.drafts[id].status == OPEN
  }

  predicate Done(b: Book, id: Name) {
    id in b.drafts && b.drafts[id].status == COMMITTED
  }

  /** What the book says about one id. */
  ghost predicate Booked(b: Book, id: Name) {
    && (id in b.drafts ==> b.drafts[id].id == id && id in b.issued && (Pending(b, id) || Done(b, id)))
    && WritesFor(b.writes, id) <= 1
    && (id in b.drafts ==> WritesFor(b.writes, id) == if Done(b, id) then 1 else 0)
    && (Done(b, id) ==> Targeted(b.drafts[id]) && AllWrittenFor(b.writes, id, b.drafts[id]))
    && (id !in b.issued ==> WritesFor(b.writes, id) == 0)
  }

  /** What a commit must write, given the draft before it: a dashboard its own name, a draft with a base an update of
      that base, any other an update or a creation of the id it names, depending on whether the catalog has it. */
  predicate Intended(d: Draft, env: Env, intent: Intent) {
    && intent.target.text != ""
    && if d.kind == "dashboard" then intent == Intent(Update, env.dashboard.GetOr(intent.target))
       else if Truthy(BaseOf(d)).Some? then intent == Intent(Update, BaseOf(d).value)
       else
         && Some(intent.target) == (if Truthy(StoredOf(d)).Some? then StoredOf(d) else env.bodyId)
         && (intent.action == Update <==> intent.target in env.existing)
  }

  ghost predicate AllWrittenFor(writes: seq<Write>, id: Name, d: Draft) {
    forall w | w in writes && w.id == id :: WrittenFor(d, w.intent)
  }

  /** What a committed draft tells of the write that was made for it: only drafts without a base create, and a
      dashboard went to the name it carries. */
  predicate WrittenFor(d: Draft, intent: Intent) {
    if d.kind == "dashboard" then intent.action == Update && d.flowId == Some(intent.target)
    else Truthy(BaseOf(d)).Some? ==> intent == Intent(Update, BaseOf(d).value)
  }

  ghost predicate Sound(b: Book) {
    forall id :: Booked(b, id)
  }

  const EMPTY: Book := Book(map[], [], {})

  /** One call: either the catalog is left alone and no draft changes but in its reports, or the one proposal named goes
      from open to committed with one write for it. Proposing and discarding change no other one. */
  ghost predicate Stepped(b: Book, op: Op, c: Book, answer: Answer) {
    && b.issued <= c.issued
    && (forall id | id in b.issued && id !in b.drafts :: id !in c.drafts)
    && (op.OpCommit? && (answer.Committed? || answer.CommittedButMigrationRaised?) ==>
          && Pending(b, op.id) && Done(c, op.id) && Targeted(c.drafts[op.id])
          && (exists intent :: Intended(b.drafts[op.id], op.env, intent) && WrittenFor(c.drafts[op.id], intent)
                               && c.writes == b.writes + [Write(op.id, intent)])
          && SameBut(b, c, op.id))
    && (!(op.OpCommit? && (answer.Committed? || answer.CommittedButMigrationRaised?)) ==> c.writes == b.writes)
    && (op.OpValidate? || op.OpAnalyse? || (op.OpCommit? && !answer.Committed? && !answer.CommittedButMigrationRaised?) ==>
          SameButReports(b, c))
    && (op.OpPropose? ==> SameBut(b, c, op.draft.id) && Pending(c, op.draft.id))
    && (op.OpDiscard? ==> SameBut(b, c, op.id) && op.id !in c.drafts)
  }

  /** Every draft is as it was, but for its verdict, its impact report and its stamp. */
  ghost predicate SameButReports(b: Book, c: Book) {
    && c.drafts.Keys == b.drafts.Keys
    && forall id | id in b.drafts ::
         var d, e := b.drafts[id], c.drafts[id];
         e == d || e == d.(id := id, validation := e.validation, impact := e.impact, updatedAt := e.updatedAt)
  }

  /** A committed draft knows where it went: a resource its resource id, anything else its flow id and a revision,
      none of them empty. */
  predicate Targeted(d: Draft) {
    if d.kind == "resource" then Truthy(d.resourceId).Some?
    else Truthy(d.flowId).Some? && d.committedRevision.GetOr(0) != 0
  }

  ghost predicate SameBut(b: Book, c: Book, except: Name) {
    forall id | id != except :: (id in c.drafts <==> id in b.drafts) && (id in b.drafts ==> c.drafts[id] == b.drafts[id])
  }

  ghost predicate Commits(b: Book, id: Name, env: Env, c: Book) {
    && id in b.drafts && id in c.drafts && c.issued == b.issued
    && Done(c, id) && c.drafts[id].id == id && Targeted(c.drafts[id]) && SameBut(b, c, id)
    && (exists intent :: Intended(b.drafts[id], env, intent) && WrittenFor(c.drafts[id], intent)
                         && c.writes == b.writes + [Write(id, intent)])
  }

  ghost predicate OnlyReports(b: Book, c: Book) {
    c.issued == b.issued && c.writes == b.writes && SameButReports(b, c)
  }

  lemma AnalyseReports(b: Book, id: Name, env: Env)
    ensures OnlyReports(b, Analyse(b, id, env).0)
  {}

  lemma ValidateReports(b: Book, id: Name, env: Env)
    ensures OnlyReports(b, Validate(b, id, env).0)
  {}

  /** A publish records the intent, whatever the catalog answers. */
  lemma RecordedCommits(b: Book, id: Name, intent: Intent, env: Env)
    requires id in b.drafts && env.publish.Some? && Intended(b.drafts[id], env, intent)
    requires b.drafts[id].kind == "dashboard" ==> Truthy(env.dashboard).Some?
    ensures Commits(b, id, env, Recorded(b, id, intent, env))
  {
    var c := Recorded(b, id, intent, env);
    assert WrittenFor(c.drafts[id], intent) && c.writes == b.writes + [Write(id, intent)];
  }

  lemma DashboardSteps(b: Book, id: Name, env: Env)
    requires id in b.drafts && b.drafts[id].kind == "dashboard"
    ensures var (c, answer) := PublishDashboard(b, id, env);
            if answer.Committed? then Commits(b, id, env, c) else c == b && (answer.Rejected? || answer.HookRaised?)
  {
    if Truthy(env.dashboard).Some? && env.publish.Some? {
      RecordedCommits(b, id, Intent(Update, env.dashboard.value), env);
    }
  }

  lemma DefinitionSteps(b: Book, id: Name, env: Env)
    requires id in b.drafts && b.drafts[id].kind != "dashboard"
    ensures var (c, answer) := PublishDefinition(b, id, env);
            if answer.Committed? || answer.CommittedButMigrationRaised? then Commits(b, id, env, c)
            else OnlyReports(b, c) && (answer.Rejected? || answer.HookRaised?)
  {
    var d := b.drafts[id];
    var intent, analysed := PublishIntent(StoredOf(d), BaseOf(d), env), Analyse(b, id, env).0;
    AnalyseReports(b, id, env);
    if intent.Some? && env.publish.Some? && Analyse(b, id, env).1.Analysed? {
      RecordedCommits(analysed, id, intent.value, env);
      ReportsThenCommits(b, analysed, id, env, Recorded(analysed, id, intent.value, env));
    }
  }

  /** New reports do not change what a commit has to write. */
  lemma ReportsThenCommits(b: Book, m: Book, id: Name, env: Env, c: Book)
    requires OnlyReports(b, m) && SameBut(b, m, id) && Commits(m, id, env, c)
    ensures Commits(b, id, env, c)
  {
    var intent :| Intended(m.drafts[id], env, intent) && WrittenFor(c.drafts[id], intent)
                  && c.writes == m.writes + [Write(id, intent)];
    assert Intended(b.drafts[id], env, intent);
  }

  lemma CommitSteps(b: Book, id: Name, env: Env)
    ensures var (c, answer) := Commit(b, id, env);
            if answer.Committed? || answer.CommittedButMigrationRaised? then Pending(b, id) && Commits(b, id, env, c)
            else OnlyReports(b, c)
  {
    if Pending(b, id) && env.tokenOk && env.check == Some(true) {
      var checked := Validate(b, id, env).0;
      ValidateReports(b, id, env);
      var (c, answer) := Publish(checked, id, env);
      if checked.drafts[id].kind == "dashboard" {
        DashboardSteps(checked, id, env);
      } else {
        DefinitionSteps(checked, id, env);
      }
      if answer.Committed? || answer.CommittedButMigrationRaised? {
        ReportsThenCommits(b, checked, id, env, c);
      }
    } else {
      ValidateReports(b, id, env);
    }
  }

  lemma PerformSteps(b: Book, op: Op)
    requires Enabled(b, op)
    ensures Stepped(b, op, Perform(b, op).0, Perform(b, op).1)
  {
    match op
    case OpCommit(id, env) => CommitSteps(b, id, env);
    case OpValidate(id, env) => ValidateReports(b, id, env);
    case OpAnalyse(id, env) => AnalyseReports(b, id, env);
    case _ =>
  }

  lemma OneMoreWrite(writes: seq<Write>, w: Write, id: Name)
    ensures WritesFor(writes + [w], id) == WritesFor(writes, id) + if w.id == id then 1 else 0
  {
    assert (writes + [w])[..|writes|] == writes;
  }

  lemma {:induction false} NoWrites(writes: seq<Write>, id: Name)
    requires WritesFor(writes, id) == 0
    ensures forall w | w in writes :: w.id != id
  {
    if writes != [] {
      NoWrites(writes[..|writes| - 1], id);
      assert writes == writes[..|writes| - 1] + [writes[|writes| - 1]];
    }
  }

  lemma ReportsKeepBooked(b: Book, c: Book, id: Name)
    requires Booked(b, id) && OnlyReports(b, c)
    ensures Booked(c, id)
  {}

  lemma CommitsKeepBooked(b: Book, x: Name, env: Env, c: Book, id: Name)
    requires Booked(b, id) && Pending(b, x) && Commits(b, x, env, c)
    ensures Booked(c, id)
  {
    var intent :| WrittenFor(c.drafts[x], intent) && c.writes == b.writes + [Write(x, intent)];
    OneMoreWrite(b.writes, Write(x, intent), id);
    if id == x {
      NoWrites(b.writes, id);
    } else if id in b.drafts {
      assert c.drafts[id] == b.drafts[id];
      assert forall w | w in c.writes && w.id == id :: w in b.writes;
    }
  }

  lemma ProposeKeepsBooked(b: Book, d: Draft, env: Env, id: Name)
    requires Booked(b, id) && Enabled(b, OpPropose(d, env))
    ensures Booked(Propose(b, d, env).0, id)
  {}

  lemma PerformKeepsSound(b: Book, op: Op)
    requires Sound(b) && Enabled(b, op)
    ensures Sound(Perform(b, op).0)
  {
    forall id ensures Booked(Perform(b, op).0, id) {
      assert Booked(b, id);
      PerformKeepsBooked(b, op, id);
    }
  }

  lemma PerformKeepsBooked(b: Book, op: Op, id: Name)
    requires Booked(b, id) && Enabled(b, op)
    ensures Booked(Perform(b, op).0, id)
  {
    match op {
      case OpPropose(d, env) => ProposeKeepsBooked(b, d, env, id);
      case OpValidate(x, env) =>
        ValidateReports(b, x, env);
        ReportsKeepBooked(b, Validate(b, x, env).0, id);
      case OpAnalyse(x, env) =>
        AnalyseReports(b, x, env);
        ReportsKeepBooked(b, Analyse(b, x, env).0, id);
      case OpCommit(x, env) => CommitKeepsBooked(b, x, env, id);
      case OpDiscard(x) =>
    }
  }

  lemma CommitKeepsBooked(b: Book, x: Name, env: Env, id: Name)
    requires Booked(b, id)
    ensures Booked(Commit(b, x, env).0, id)
  {
    var (c, answer) := Commit(b, x, env);
    CommitSteps(b, x, env);
    if answer.Committed? || answer.CommittedButMigrationRaised? {
      CommitsKeepBooked(b, x, env, c, id);
    } else {
      ReportsKeepBooked(b, c, id);
    }
  }

  /** Over every run: at most one catalog write per proposal, exactly one while a committed proposal is
      kept, none for an open one. */
  lemma {:induction false} RunSound(b: Book, ops: seq<Op>)
    requires Sound(b)
    ensures Sound(Run(b, ops))
    decreases |ops|
  {
    if ops != [] {
      if Enabled(b, ops[0]) {
        PerformKeepsSound(b, ops[0]);
        RunSound(Perform(b, ops[0]).0, ops[1..]);
      } else {
        RunSound(b, ops[1..]);
      }
    }
  }

  lemma EveryRunIsSound(ops: seq<Op>)
    ensures Sound(Run(EMPTY, ops))
  {
    RunSound(EMPTY, ops);
  }

  /** An id that was issued and is no longer kept stays gone: it is never committed later, and the
      catalog is never written for it again. */
  lemma {:induction false} GoneForGood(b: Book, ops: seq<Op>, id: Name)
    requires id in b.issued && id !in b.drafts
    ensures id !in Run(b, ops).drafts && WritesFor(Run(b, ops).writes, id) == WritesFor(b.writes, id)
    decreases |ops|
  {
    if ops != [] {
      if Enabled(b, ops[0]) {
        var (c, answer) := Perform(b, ops[0]);
        PerformSteps(b, ops[0]);
        if c.writes != b.writes {
          var intent :| c.writes == b.writes + [Write(ops[0].id, intent)];
          OneMoreWrite(b.writes, Write(ops[0].id, intent), id);
        }
        GoneForGood(c, ops[1..], id);
      } else {
        GoneForGood(b, ops[1..], id);
      }
    }
  }

  /** A discarded proposal can never be committed. */
  lemma DiscardedNeverCommits(before: seq<Op>, id: Name, after: seq<Op>, env: Env)
    requires id in Run(EMPTY, before).drafts
    ensures var b := Run(Discard(Run(EMPTY, before), id).0, after);
            Commit(b, id, env) == (b, NotFound)
            && WritesFor(b.writes, id) == WritesFor(Run(EMPTY, before).writes, id)
  {
    EveryRunIsSound(before);
    var b := Run(EMPTY, before);
    assert Booked(b, id);
    GoneForGood(Discard(b, id).0, after, id);
  }

  /** When a commit goes through: the proposal is open, the token is good, the validators accept, and
      the publish neither lacks its target nor fails. */
  lemma CommitIff(b: Book, id: Name, env: Env)
    ensures var answer := Commit(b, id, env).1;
            (answer.Committed? || answer.CommittedButMigrationRaised?) <==>
            && Pending(b, id) && env.tokenOk && env.check == Some(true) && env.publish.Some?
            && var d := b.drafts[id];
               if d.kind == "dashboard" then Truthy(env.dashboard).Some?
               else env.impact.Some? && Analysable(d, env)
  {}

  // ---------------------------------------------------------------------------
  // Verdicts and reports
  // ---------------------------------------------------------------------------

  /** A validation puts the validators' verdict and a new stamp on the draft on record, and answers
      with that verdict; without a draft or a verdict nothing changes. */
  lemma ValidationIsStored(b: Book, id: Name, env: Env)
    requires id in b.drafts ==> b.drafts[id].id == id
    ensures var (c, answer) := Validate(b, id, env);
            && (answer.NotFound? <==> id !in b.drafts)
            && (answer.HookRaised? <==> id in b.drafts && env.check.None?)
            && (answer.Validated? <==> id in b.drafts && env.check.Some?)
            && (answer.Validated? ==>
                  && Some(answer.valid) == env.check
                  && c == b.(drafts := b.drafts[id := b.drafts[id].(validation := Some(answer.valid), updatedAt := env.clock(0))]))
            && (!answer.Validated? ==> c == b)
  {}

  /** A proposal is on record even if its validators raise; else it carries their verdict and a second stamp. */
  lemma ProposalIsStored(b: Book, d: Draft, env: Env)
    ensures var (c, answer) := Propose(b, d, env);
            && c.issued == b.issued + {d.id} && c.writes == b.writes
            && (answer.HookRaised? <==> env.check.None?)
            && (answer.Proposed? <==> env.check.Some?)
            && (answer.Proposed? ==> Some(answer.valid) == env.check)
            && c.drafts == b.drafts[d.id := if env.check.None? then d
                                            else d.(validation := env.check, updatedAt := env.clock(1))]
  {}

  /** A discarded proposal is off record; nothing else changes, and an unknown one is not found. */
  lemma DiscardIs(b: Book, id: Name)
    ensures Discard(b, id) == if id in b.drafts then (b.(drafts := b.drafts - {id}), Discarded) else (b, NotFound)
  {}

  /** An impact analysis puts the catalog's report and a new stamp on the draft on record, and allows
      mutations exactly if the verdict on record is positive. */
  lemma ReportIsStored(b: Book, id: Name, env: Env)
    requires id in b.drafts ==> b.drafts[id].id == id
    ensures var (c, answer) := Analyse(b, id, env);
            && (answer.NotFound? <==> id !in b.drafts)
            && (answer.HookRaised? <==> id in b.drafts && Analysable(b.drafts[id], env) && env.impact.None?)
            && (answer.Analysed? <==> id in b.drafts && Analysable(b.drafts[id], env) && env.impact.Some?)
            && (answer.Analysed? ==>
                  && (answer.mutationsAllowed <==> b.drafts[id].validation == Some(true))
                  && c == b.(drafts := b.drafts[id := b.drafts[id].(impact := env.impact, updatedAt := env.clock(1))]))
            && (!answer.Analysed? ==> c == b)
  {}

  /** What has an id to look for: every dashboard; any other draft whose stored or base id, or whose body, names one. */
  lemma AnalysableIff(d: Draft, env: Env)
    ensures Analysable(d, env) <==>
              || d.kind == "dashboard"
              || Truthy(env.bodyId).Some?
              || (d.kind == "resource" && (Truthy(d.resourceId).Some? || Truthy(d.baseResourceId).Some?))
              || (d.kind != "resource" && (Truthy(d.flowId).Some? || Truthy(d.baseFlowId).Some?))
  {}

  /** The answers of a commit that does not go through, and what is on record then: the verdict of a
      validation that was reached stays, and the report of an analysis that was. */
  lemma CommitRefusals(b: Book, id: Name, env: Env)
    requires id in b.drafts ==> b.drafts[id].id == id
    ensures var (c, answer) := Commit(b, id, env);
            && (answer.NotFound? <==> id !in b.drafts)
            && (answer.Rejected? <==>
                  (id in b.drafts &&
                   (|| b.drafts[id].status != OPEN || !env.tokenOk || env.check == Some(false)
                    || (env.check == Some(true) &&
                        if b.drafts[id].kind == "dashboard" then Truthy(env.dashboard).None? else !Analysable(b.drafts[id], env)))))
            && (Pending(b, id) && env.tokenOk && env.check.Some? ==> c.drafts[id].validation == env.check)
            && (!(Pending(b, id) && env.tokenOk && env.check.Some?) ==> c == b)
            && (Pending(b, id) && env.tokenOk && env.check == Some(false) ==>
                  c == b.(drafts := b.drafts[id := b.drafts[id].(validation := Some(false), updatedAt := env.clock(0))]))
            && (answer.CommittedButMigrationRaised? ==> env.migrationRaises && b.drafts[id].kind !in {"resource", "dashboard"})
            && (answer.Committed? ==> !env.migrationRaises || b.drafts[id].kind in {"resource", "dashboard"})
  {}

  /** The draft on record after a commit: accepted, stamped last, and with the ids the catalog answered
      or else those intended; kind, body, base and times of creation are what they were. */
  lemma CommittedDraft(b: Book, id: Name, env: Env)
    requires id in b.drafts && b.drafts[id].id == id
    requires Commit(b, id, env).1.Committed? || Commit(b, id, env).1.CommittedButMigrationRaised?
    ensures var c := Commit(b, id, env).0;
            var d, e := b.drafts[id], c.drafts[id];
            var target := if env.publish.value.id.Some? && env.publish.value.id != Some(Name("")) then env.publish.value.id
                          else Some(c.writes[|b.writes|].intent.target);
            && |c.writes| == |b.writes| + 1 && env.publish.Some?
            && e == d.(status := "committed", validation := Some(true), updatedAt := env.clock(2),
                       impact := e.impact, resourceId := e.resourceId, flowId := e.flowId, committedRevision := e.committedRevision)
            && e.impact == (if d.kind == "dashboard" then d.impact else env.impact)
            && e.resourceId == (if d.kind == "resource" then target else d.resourceId)
            && e.flowId == (if d.kind == "resource" then d.flowId else if d.kind == "dashboard" then env.dashboard else target)
            && (d.kind == "dashboard" ==> e.committedRevision == Some(1))
            && (d.kind == "resource" ==> e.committedRevision == d.committedRevision)
            && (d.kind !in {"dashboard", "resource"} ==>
                  e.committedRevision == if env.publish.value.revision in {None, Some(0)} then Some(1) else env.publish.value.revision)
  {}

  /** The calls on which the validators pass a verdict on a proposal. */
  predicate Checks(b: Book, op: Op, id: Name) {
    match op
    case OpPropose(d, env) => d.id == id && env.check.Some?
    case OpValidate(x, env) => x == id && id in b.drafts && env.check.Some?
    case OpCommit(x, env) => x == id && Pending(b, id) && env.tokenOk && env.check.Some?
    case _ => false
  }

  /** The verdict of the last such call of a run, or the given one if there is none. */
  function LastCheck(b: Book, ops: seq<Op>, id: Name, before: Option<bool>): Option<bool>
    decreases |ops|
  {
    if ops == [] then before
    else if !Enabled(b, ops[0]) then LastCheck(b, ops[1..], id, before)
    else LastCheck(Perform(b, ops[0]).0, ops[1..], id, if Checks(b, ops[0], id) then ops[0].env.check else before)
  }

  ghost predicate OnRecord(b: Book, id: Name, verdict: Option<bool>) {
    && (id in b.drafts ==> b.drafts[id].validation == verdict)
    && (id !in b.issued ==> verdict.None?)
  }

  lemma CheckIsStored(b: Book, op: Op, id: Name, verdict: Option<bool>)
    requires Sound(b) && Enabled(b, op) && OnRecord(b, id, verdict) && (op.OpPropose? ==> op.draft.validation.None?)
    ensures OnRecord(Perform(b, op).0, id, if Checks(b, op, id) then op.env.check else verdict)
  {
    assert Booked(b, id);
    if op.OpCommit? {
      assert Booked(b, op.id);
      CommitRefusals(b, op.id, op.env);
      CommitSteps(b, op.id, op.env);
      if id != op.id {
        CommitLeavesOthers(b, op.id, op.env, id);
      }
    }
  }

  lemma CommitLeavesOthers(b: Book, x: Name, env: Env, id: Name)
    requires id != x && (x in b.drafts ==> b.drafts[x].id == x)
    ensures var c := Commit(b, x, env).0;
            (id in c.drafts <==> id in b.drafts) && (id in b.drafts ==> c.drafts[id] == b.drafts[id])
  {}

  /** Over every run the verdict on record for a proposal is the one the validators passed on it last. */
  lemma {:induction false} LastCheckIsOnRecord(b: Book, ops: seq<Op>, id: Name, verdict: Option<bool>)
    requires Sound(b) && OnRecord(b, id, verdict)
    requires forall op | op in ops && op.OpPropose? :: op.draft.validation.None?
    ensures OnRecord(Run(b, ops), id, LastCheck(b, ops, id, verdict))
    decreases |ops|
  {
    if ops != [] {
      assert ops[0] in ops && forall op | op in ops[1..] :: op in ops;
      if Enabled(b, ops[0]) {
        CheckIsStored(b, ops[0], id, verdict);
        PerformKeepsSound(b, ops[0]);
        LastCheckIsOnRecord(Perform(b, ops[0]).0, ops[1..], id, if Checks(b, ops[0], id) then ops[0].env.check else verdict);
      } else {
        LastCheckIsOnRecord(b, ops[1..], id, verdict);
      }
    }
  }

  /** So impact analysis allows mutations exactly if the last verdict passed on the proposal was positive. */
  lemma MutationsFollowLastCheck(ops: seq<Op>, id: Name, env: Env)
    requires forall op | op in ops && op.OpPropose? :: op.draft.validation.None?
    ensures var answer := Analyse(Run(EMPTY, ops), id, env).1;
            answer.Analysed? ==> (answer.mutationsAllowed <==> LastCheck(EMPTY, ops, id, None) == Some(true))
  {
    LastCheckIsOnRecord(EMPTY, ops, id, None);
  }
}
