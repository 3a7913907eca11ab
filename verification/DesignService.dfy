/** The design service over the proposal objects of a repository, step by step. */
module DesignServices {
  import opened Basics
  import opened Proposals
  import opened ProposalStores
  import opened ProposalRepositories
  import opened DesignLifecycle

  /** The calls of a client, and a new process over the same storage, which only the durable repository survives. */
  datatype Call =
    | ProposeCall(id: Name, body: Value, kind: Kind, base: Option<Name>, target: Option<Name>, made: Stamp, env: Env)
    | ValidateCall(id: Name, env: Env)
    | AnalyseCall(id: Name, env: Env)
    | CommitCall(id: Name, env: Env)
    | DiscardCall(id: Name, now: Stamp)
    | Restart

  datatype Kind = Flow | Resource | Dashboard

  function KindText(kind: Kind): string {
    match kind
    case Flow => "flow"
    case Resource => "resource"
    case Dashboard => "dashboard"
  }

  /** The draft that `propose_flow`, `propose_resource` and `propose_dashboard` create. */
  function NewDraft(id: Name, body: Value, kind: Kind, base: Option<Name>, target: Option<Name>, made: Stamp): Draft {
    if kind.Resource? then Initial(id, body, KindText(kind), None, None, base, target, made)
    else Initial(id, body, KindText(kind), base, target, None, None, made)
  }

  /** A new proposal is open, unjudged and uncommitted, and carries its base and target ids in the
      fields of its kind; without a target id of its own it is for its base. */
  lemma NewDraftIs(id: Name, body: Value, kind: Kind, base: Option<Name>, target: Option<Name>, made: Stamp)
    ensures var d := NewDraft(id, body, kind, base, target, made);
            var goal := if target.Some? && target != Some(Name("")) then target else base;
            && d.id == id && d.body == body && d.status == "open" && d.createdAt == d.updatedAt == made
            && d.validation == None && d.impact == None && d.committedRevision == None
            && (d.kind == "flow" <==> kind.Flow?) && (d.kind == "resource" <==> kind.Resource?)
            && (d.kind == "dashboard" <==> kind.Dashboard?)
            && (if kind.Resource? then d.baseResourceId == base && d.resourceId == goal && d.baseFlowId == d.flowId == None
                else d.baseFlowId == base && d.flowId == goal && d.baseResourceId == d.resourceId == None)
  {}

  /** What a call asks of the machine on drafts: a restart asks nothing. */
  function OpOf(call: Call): seq<Op> {
    match call
    case ProposeCall(id, body, kind, base, target, made, env) => [OpPropose(NewDraft(id, body, kind, base, target, made), env)]
    case ValidateCall(id, env) => [OpValidate(id, env)]
    case AnalyseCall(id, env) => [OpAnalyse(id, env)]
    case CommitCall(id, env) => [OpCommit(id, env)]
    case DiscardCall(id, _) => [OpDiscard(id)]
    case Restart => []
  }

  function OpsOf(calls: seq<Call>): seq<Op> {
    if calls == [] then [] else OpOf(calls[0]) + OpsOf(calls[1..])
  }

  function IssuedBy(call: Call): set<Name> {
    if call.ProposeCall? then {call.id} else {}
  }

  /** Created ids are new, and no call names the index. */
  predicate Sensible(call: Call, issued: set<Name>) {
    !call.Restart? ==> call.id != INDEX && call.id !in issued * IssuedBy(call)
  }

  predicate AllSensible(calls: seq<Call>, issued: set<Name>) {
    calls == [] || (Sensible(calls[0], issued) && AllSensible(calls[1..], issued + IssuedBy(calls[0])))
  }

  /** A call that names the index fails on it if there is one; any other does what it does on drafts alone. */
  function Guarded(b: Book, id: Name, indexed: bool, step: (Book, Answer)): (Book, Answer) {
    if id == INDEX && indexed then (b, Corrupt) else step
  }

  class DesignService {
    var proposals: Repository
    /** The writes made to the catalog. */
    var catalog: seq<Write>
    ghost var issued: set<Name>

    /** An empty service over a repository that holds nothing yet. */
    constructor (proposals: Repository)
      requires proposals.Valid() && proposals.Drafts() == map[]
      ensures Valid() && View() == EMPTY && this.proposals == proposals
    {
      this.proposals, catalog, issued := proposals, [], {};
    }

    ghost predicate Valid()
      reads this, proposals, proposals.repr
    {
      proposals.Valid() && this !in proposals.repr && proposals.Drafts().Keys <= issued
    }

    ghost function View(): Book
      requires proposals.Valid()
      reads this, proposals, proposals.repr
    {
      Book(proposals.Drafts(), catalog, issued)
    }

    /** Writes fields of the stored object and saves it. */
    method Store(id: Name, p: Proposal, d: Draft, now: Stamp)
      requires Valid() && proposals.Holds(id, p) && d.id == id && Solid(d.(updatedAt := now))
      modifies proposals.repr
      ensures Valid() && fresh(proposals.repr - old(proposals.repr)) && proposals.Holds(id, p)
      ensures View() == Put(old(View()), d.(updatedAt := now))
    {
      proposals.Update(id, p, d, now);
    }

    method ValidateProposal(id: Name, env: Env) returns (a: Answer)
      requires Valid()
      modifies proposals.repr
      ensures Valid() && fresh(proposals.repr - old(proposals.repr))
      ensures (View(), a) == Guarded(old(View()), id, old(proposals.Indexed()), Validate(old(View()), id, env))
    {
      var r := proposals.Get(id, env.clock(0));
      match r
      case NotFound => return Answer.NotFound;
      case BadRecord => return Corrupt;
      case Present(p) => a := ValidateFetched(id, p, env);
    }

    /** The rest of a validation, once the object is there. */
    method ValidateFetched(id: Name, p: Proposal, env: Env) returns (a: Answer)
      requires Valid() && proposals.Holds(id, p)
      modifies proposals.repr
      ensures Valid() && fresh(proposals.repr - old(proposals.repr)) && proposals.Holds(id, p)
      ensures (View(), a) == Validate(old(View()), id, env)
      // The object shows the verdict that is answered.
      ensures a.Validated? ==> Some(a.valid) == env.check == p.draft.validation && p.draft.updatedAt == env.clock(0)
    {
      if env.check.None? {
        return HookRaised;
      }
      Store(id, p, p.draft.(validation := env.check), env.clock(0));
      a := Validated(env.check.value);
    }

    method CreateStored(id: Name, body: Value, kind: Kind, base: Option<Name>, target: Option<Name>, made: Stamp)
      returns (p: Proposal)
      requires proposals.Valid() && this !in proposals.repr && id !in proposals.Drafts() && id != INDEX
      modifies proposals.repr
      ensures proposals.Valid() && fresh(proposals.repr - old(proposals.repr)) && proposals.Holds(id, p)
      ensures proposals.Drafts() == old(proposals.Drafts())[id := NewDraft(id, body, kind, base, target, made)]
    {
      if kind.Resource? {
        p := proposals.Create(id, body, KindText(kind), None, None, base, target, made);
      } else {
        p := proposals.Create(id, body, KindText(kind), base, target, None, None, made);
      }
    }

    method CreateDraft(id: Name, body: Value, kind: Kind, base: Option<Name>, target: Option<Name>, made: Stamp)
      returns (p: Proposal)
      requires Valid() && id !in issued && id != INDEX
      modifies this`issued, proposals.repr
      ensures Valid() && fresh(proposals.repr - old(proposals.repr)) && proposals.Holds(id, p)
      ensures View() == Put(old(View()), NewDraft(id, body, kind, base, target, made)).(issued := old(issued) + {id})
    {
      issued := issued + {id};
      p := CreateStored(id, body, kind, base, target, made);
    }

    /** `propose_flow`, `propose_resource` and `propose_dashboard`; id is the new id. */
    method ProposeDraft(id: Name, body: Value, kind: Kind, base: Option<Name>, target: Option<Name>, made: Stamp, env: Env)
      returns (a: Answer)
      requires Valid() && id !in issued && id != INDEX
      modifies this`issued, proposals.repr
      ensures Valid() && fresh(proposals.repr - old(proposals.repr))
      ensures (View(), a) == Propose(old(View()), NewDraft(id, body, kind, base, target, made), env)
    {
      var p := CreateDraft(id, body, kind, base, target, made);
      a := PreviewFetched(id, p, env);
    }

    method PreviewFetched(id: Name, p: Proposal, env: Env) returns (a: Answer)
      requires Valid() && proposals.Holds(id, p)
      modifies proposals.repr
      ensures Valid() && fresh(proposals.repr - old(proposals.repr))
      ensures (View(), a) == Preview(old(View()), id, env)
    {
      a := ValidateFetched(id, p, env);
      if a.Validated? {
        Store(id, p, p.draft, env.clock(1));
        a := Proposed(a.valid);
      }
    }

    method AnalyseImpact(id: Name, env: Env) returns (a: Answer)
      requires Valid()
      modifies proposals.repr
      ensures Valid() && fresh(proposals.repr - old(proposals.repr))
      ensures (View(), a) == Guarded(old(View()), id, old(proposals.Indexed()), Analyse(old(View()), id, env))
    {
      var r := proposals.Get(id, env.clock(0));
      match r
      case NotFound => return Answer.NotFound;
      case BadRecord => return Corrupt;
      case Present(p) => a := AnalyseFetched(id, p, env);
    }

    /** The rest of an impact analysis, once the object is there. */
    method AnalyseFetched(id: Name, p: Proposal, env: Env) returns (a: Answer)
      requires Valid() && proposals.Holds(id, p)
      modifies proposals.repr
      ensures Valid() && fresh(proposals.repr - old(proposals.repr))
      ensures (View(), a) == Analyse(old(View()), id, env)
      // The object shows the report, and the answer the verdict it had.
      ensures a.Analysed? ==> (a.mutationsAllowed <==> p.draft.validation == Some(true))
      ensures a.Analysed? ==> p.draft.impact == env.impact && p.draft.updatedAt == env.clock(1)
      ensures proposals.Holds(id, p)
    {
      var d := p.draft;
      if !Analysable(d, env) {
        return Rejected;
      }
      if env.impact.None? {
        return HookRaised;
      }
      Store(id, p, d.(impact := env.impact), env.clock(1));
      a := Analysed(d.validation == Some(true));
    }

    method WriteCatalog(w: Write, ghost id: Name, ghost p: Proposal)
      requires Valid() && proposals.Holds(id, p)
      modifies this`catalog
      ensures Valid() && proposals.Holds(id, p) && View() == old(View()).(writes := old(catalog) + [w])
    {
      catalog := catalog + [w];
    }

    /** The catalog write, and the proposal marked committed. */
    method RecordWrite(id: Name, p: Proposal, intent: Intent, env: Env)
      requires Valid() && proposals.Holds(id, p) && env.publish.Some?
      modifies this`catalog, proposals.repr
      ensures Valid() && fresh(proposals.repr - old(proposals.repr)) && View() == Recorded(old(View()), id, intent, env)
    {
      var done := AfterPublish(p.draft, intent, env.publish.value, env.clock(2));
      WriteCatalog(Write(id, intent), id, p);
      Store(id, p, done, env.clock(2));
    }

    method PublishDashboard(id: Name, p: Proposal, env: Env) returns (a: Answer)
      requires Valid() && proposals.Holds(id, p)
      modifies this`catalog, proposals.repr
      ensures Valid() && fresh(proposals.repr - old(proposals.repr))
      ensures (View(), a) == DesignLifecycle.PublishDashboard(old(View()), id, env)
    {
      if Truthy(env.dashboard).None? {
        return Rejected;
      }
      if env.publish.None? {
        return HookRaised;
      }
      RecordWrite(id, p, Intent(Update, env.dashboard.value), env);
      a := Committed;
    }

    /** The fetch of the impact analysis hits the object that is already there. */
    method PublishDefinition(id: Name, p: Proposal, env: Env) returns (a: Answer)
      requires Valid() && proposals.Holds(id, p)
      modifies this`catalog, proposals.repr
      ensures Valid() && fresh(proposals.repr - old(proposals.repr))
      ensures (View(), a) == DesignLifecycle.PublishDefinition(old(View()), id, env)
    {
      var d := p.draft;
      var intent := PublishIntent(StoredOf(d), BaseOf(d), env);
      if intent.None? {
        return Rejected;
      }
      a := AnalyseFetched(id, p, env);
      if !a.Analysed? {
        return;
      }
      if env.publish.None? {
        return HookRaised;
      }
      RecordWrite(id, p, intent.value, env);
      a := if d.kind != "resource" && env.migrationRaises then CommittedButMigrationRaised else Committed;
    }

    method CommitProposal(id: Name, env: Env) returns (a: Answer)
      requires Valid()
      modifies this`catalog, proposals.repr
      ensures Valid() && fresh(proposals.repr - old(proposals.repr))
      ensures (View(), a) == Guarded(old(View()), id, old(proposals.Indexed()), Commit(old(View()), id, env))
    {
      var r := proposals.Get(id, env.clock(0));
      match r
      case NotFound => return Answer.NotFound;
      case BadRecord => return Corrupt;
      case Present(p) => a := CommitFetched(id, p, env);
    }

    /** The rest of a commit, once the object is there; the fetch of the validation hits it. */
    method CommitFetched(id: Name, p: Proposal, env: Env) returns (a: Answer)
      requires Valid() && proposals.Holds(id, p)
      modifies this`catalog, proposals.repr
      ensures Valid() && fresh(proposals.repr - old(proposals.repr))
      ensures (View(), a) == Commit(old(View()), id, env)
    {
      if p.draft.status != OPEN {
        return Rejected;
      }
      if !env.tokenOk {
        return Rejected;
      }
      a := ValidateFetched(id, p, env);
      if !a.Validated? {
        return;
      }
      if !a.valid {
        return Rejected;
      }
      if p.draft.kind == "dashboard" {
        a := PublishDashboard(id, p, env);
      } else {
        a := PublishDefinition(id, p, env);
      }
    }

    method DiscardProposal(id: Name, now: Stamp) returns (a: Answer)
      requires Valid()
      modifies proposals.repr
      ensures Valid() && fresh(proposals.repr - old(proposals.repr))
      ensures (View(), a) == Guarded(old(View()), id, old(proposals.Indexed()), Discard(old(View()), id))
    {
      var r := proposals.Get(id, now);
      match r
      case NotFound => return Answer.NotFound;
      case BadRecord => return Corrupt;
      case Present(p) =>
        DiscardFetched(id, p, now);
        a := Discarded;
    }

    method DiscardFetched(id: Name, p: Proposal, now: Stamp)
      requires Valid() && proposals.Holds(id, p)
      modifies proposals.repr
      ensures Valid() && fresh(proposals.repr - old(proposals.repr)) && View() == Discard(old(View()), id).0
    {
      Store(id, p, p.draft.(status := DISCARDED), now);
      PutThenDrop(old(View()).drafts, id, View().drafts[id]);
      proposals.Delete(id);
    }

    /** A new service over what the durable repository left in storage. */
    method Reopen()
      requires Valid() && proposals.durable != null
      modifies this`proposals
      ensures Valid() && fresh(proposals) && fresh(proposals.repr) && View() == old(View()) && proposals.durable != null
    {
      proposals := proposals.Reopen();
    }

    /** One call, or a restart, which has no answer. */
    method ServeOne(call: Call) returns (answers: seq<Answer>)
      requires Valid() && Sensible(call, issued) && (call.Restart? ==> proposals.durable != null)
      modifies this, proposals.repr
      ensures Valid() && fresh(proposals.repr - old(proposals.repr))
      ensures old(proposals.durable) != null ==> proposals.durable != null
      ensures View() == Run(old(View()), OpOf(call)) && answers == Answers(old(View()), OpOf(call))
      ensures issued == old(issued) + IssuedBy(call)
    {
      if call.Restart? {
        Reopen();
        return [];
      }
      var a := Perform(call);
      return [a];
    }

    method Perform(call: Call) returns (a: Answer)
      requires Valid() && Sensible(call, issued) && !call.Restart?
      modifies this`catalog, this`issued, proposals.repr
      ensures Valid() && fresh(proposals.repr - old(proposals.repr))
      ensures var op := OpOf(call)[0];
              Enabled(old(View()), op) && (View(), a) == DesignLifecycle.Perform(old(View()), op)
      ensures issued == old(issued) + IssuedBy(call)
    {
      match call
      case ProposeCall(id, body, kind, base, target, made, env) => a := ProposeDraft(id, body, kind, base, target, made, env);
      case ValidateCall(id, env) => a := ValidateProposal(id, env);
      case AnalyseCall(id, env) => a := AnalyseImpact(id, env);
      case CommitCall(id, env) => a := CommitProposal(id, env);
      case DiscardCall(id, now) => a := DiscardProposal(id, now);
    }

    /** Over every run of calls, on either repository, and on the durable one with restarts anywhere: the answers and the
        catalog writes are those of the machine on drafts, so both repositories give the same. */
    method Serve(calls: seq<Call>) returns (answers: seq<Answer>)
      requires Valid() && AllSensible(calls, issued) && (Restart in calls ==> proposals.durable != null)
      modifies this, proposals.repr
      ensures Valid() && fresh(proposals.repr - old(proposals.repr))
      ensures View() == Run(old(View()), OpsOf(calls)) && answers == Answers(old(View()), OpsOf(calls))
      decreases |calls|
    {
      if calls == [] {
        return [];
      }
      OneCall(View(), calls);
      assert calls == [calls[0]] + calls[1..];
      var first := ServeOne(calls[0]);
      var rest := Serve(calls[1..]);
      answers := first + rest;
    }
  }

  function WithoutRestarts(calls: seq<Call>): seq<Call> {
    if calls == [] then []
    else (if calls[0].Restart? then [] else [calls[0]]) + WithoutRestarts(calls[1..])
  }

  lemma {:induction false} RestartsAskNothing(calls: seq<Call>, issued: set<Name>)
    requires AllSensible(calls, issued)
    ensures OpsOf(WithoutRestarts(calls)) == OpsOf(calls)
    ensures AllSensible(WithoutRestarts(calls), issued) && Restart !in WithoutRestarts(calls)
    decreases |calls|
  {
    if calls != [] {
      var rest := WithoutRestarts(calls[1..]);
      RestartsAskNothing(calls[1..], issued + IssuedBy(calls[0]));
      if calls[0].Restart? {
        assert WithoutRestarts(calls) == rest && issued + {} == issued;
      } else {
        assert WithoutRestarts(calls)[0] == calls[0] && WithoutRestarts(calls)[1..] == rest;
      }
    }
  }

  /** A service on the plain repository and one on the durable repository, with restarts of the latter anywhere in the
      run: they give the same answers, make the same catalog writes and end with the same drafts. */
  method ServeBoth(one: DesignService, other: DesignService, calls: seq<Call>)
    returns (answers: seq<Answer>, again: seq<Answer>)
    requires one.Valid() && one.View() == EMPTY && one.proposals.plain != null
    requires other.Valid() && other.View() == EMPTY && other.proposals.durable != null
    requires one != other && one !in other.proposals.repr && other !in one.proposals.repr
    requires one.proposals.repr !! other.proposals.repr
    requires AllSensible(calls, {})
    modifies one, one.proposals.repr, other, other.proposals.repr
    ensures answers == again && one.Valid() && other.Valid() && one.View() == other.View()
  {
    RestartsAskNothing(calls, {});
    answers := one.Serve(WithoutRestarts(calls));
    again := other.Serve(calls);
  }

  /** The repositories part at the id of the index only: the plain one knows no such proposal. */
  lemma GuardDecidesIff(b: Book, id: Name, indexed: bool, env: Env)
    requires INDEX !in b.drafts
    ensures Guarded(b, id, indexed, Validate(b, id, env)) == Validate(b, id, env) <==> id != INDEX || !indexed
    ensures Guarded(b, id, indexed, Analyse(b, id, env)) == Analyse(b, id, env) <==> id != INDEX || !indexed
    ensures Guarded(b, id, indexed, Commit(b, id, env)) == Commit(b, id, env) <==> id != INDEX || !indexed
    ensures Guarded(b, id, indexed, Discard(b, id)) == Discard(b, id) <==> id != INDEX || !indexed
  {}

  lemma OneCall(b: Book, calls: seq<Call>)
    requires calls != []
    ensures var first, rest := OpOf(calls[0]), OpsOf(calls[1..]);
            && Run(b, OpsOf(calls)) == Run(Run(b, first), rest)
            && Answers(b, OpsOf(calls)) == Answers(b, first) + Answers(Run(b, first), rest)
  {
    var first, rest := OpOf(calls[0]), OpsOf(calls[1..]);
    if first == [] {
      assert first + rest == rest;
    } else {
      assert first == [first[0]] && (first + rest)[1..] == rest;
    }
  }

  lemma PutThenDrop<V>(m: map<Name, V>, id: Name, v: V)
    ensures m[id := v] - {id} == m - {id}
  {}
}
