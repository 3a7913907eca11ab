# Palm: models and proofs

A Dafny model of the parts of Palm in which state, order or identity is easy to get wrong, with proofs of what
those parts promise. `dafny verify dfyconfig.toml` checks everything.

| area | files | what is proved |
|---|---|---|
| behavior trees | `BehaviorTree`, `TreeConstruction`, `TreeEngine`, `TreeBackend` | the mutable node graph stays a forest over every run of its API; walks end; validation never raises; setup happens once; the bounded tick loop and the backend on top of it |
| jobs | `Jobs`, `Orchestration`, `Orchestrator`, `Events` | the job status machine, the bounded registry and its event log over every run, shutdown, the event bus |
| registries | `Registries`, `RegistryProtocol` | freezing name tables, alone and in every interleaving of threads |
| design proposals | `Proposals`, `ProposalRuns`, `ProposalStores`, `ProposalRepository`, `DesignLifecycle`, `DesignService`, `Migration` | the durable proposal store refines the plain one, and so does the service on it; the catalog is written once per committed proposal; the migration loop balances |
| import guard | `SyntaxWalk`, `DeferredGuard` | marking passes over a syntax tree equal a recursive count |
| sessions | `SessionIds`, `Sessions`, `SessionPlanes`, `Attribution`, `SessionService` | one owner per instance, the continue gate, attribution of starts |
| dashboards | `Dashboards`, `DashboardShelf`, `DashboardCache`, `DashboardRegistry` | sorted durable index; exactly when losing the memory cache shows |
| instances | `Instances` | bounded history; what survives storing and loading |
| assist paths | `AssistGrammar` | parsing inverts printing |

Two kinds of modules alternate. Objects that the source updates in place are classes with the same fields, whose
methods say what they make of the old state. What they compute is a function on values, and the theorems over whole
runs are about those functions. Hooks, validators, clocks, random ids and modes are parameters, and results hold for
every value of them: a tree node's hooks are a `Script` of what one call does, a mode is the list of transitions it
attempts, a thread schedule is any list of atomic steps.

Where the code and its documentation disagree, the code is modelled:

- `tick_until_terminal` says that it stops on WAITING_FOR_INPUT. It goes on ticking, so the waiting branch of
  `BehaviorTreeBackend.advance` is never taken.
- `cancel_job` of the base mode stores the text `"CANCELLED"` where the field holds enum members elsewhere. It compares
  equal but has no `.value`, which the report after a dispatch reads: `SelfCancelledSubmitFails` is an input on which
  submit fails, `DispatchFailsIff` says when, `ProperRunReports` that it does not happen with
  modes that only ask for members of the enumeration.
- `freeze` of the registries looks like a barrier. A second caller returns at once, before the tables are frozen
  (`RegistryProtocol.SecondCallerMayBeEarly`, and exactly when in `EarlyReturn`).
- The two proposal stores do not agree on every listing. `ListingsAgreeIff` says when they do, `CommittedIsNotListed`
  and `ReopenedIsNotListed` show inputs on which they do not.
- Saving and loading a dashboard is not the identity on dictionaries: an empty profile becomes `table`. And the memory
  before the store shows in listings once two spellings of a name are registered (`TwoSpellings`).

## Model

| member | source | states |
|---|---|---|
| `BehaviorTree.Node.constructor` | archive/legacy-src/core-behavior_tree/base.py:113-119 | A new node has no parent, no child and no completed setup. |
| `BehaviorTree.Node.FindAmongAncestors` | archive/legacy-src/core-behavior_tree/base.py:203-227 | The ancestor walk ends on every forest and finds the child exactly if this node lies in the child's subtree, i.e. exactly if attaching would close a cycle. |
| `BehaviorTree.Node.Link` | archive/legacy-src/core-behavior_tree/base.py:222-227 | The two assignments that attach an admissible child keep the heap a forest. |
| `BehaviorTree.Node.AddChild` | archive/legacy-src/core-behavior_tree/base.py:203-227 | Keeps the forest; each verdict exactly under its own condition, in the order leaf, full decorator, second parent, cycle; attaches at the end of the children, or changes nothing when refused. |
| `BehaviorTree.Node.ValidateFrom` | archive/legacy-src/core-behavior_tree/base.py:239-247 | On any closed heap, tree or not, accepts exactly if no node is met twice from here or was seen before, and then has visited exactly the nodes below. |
| `BehaviorTree.Node.ValidateTreeStructure` | archive/legacy-src/core-behavior_tree/base.py:229-237 | Raises exactly if some node is reached by two paths. |
| `BehaviorTree.Node.Reset` | archive/legacy-src/core-behavior_tree/base.py:187-197 | Ends on every forest, clears the setup flag of exactly the nodes of the subtree and writes no other node. |
| `BehaviorTree.Node.Tick` | archive/legacy-src/core-behavior_tree/base.py:138-168 | For every behaviour of the two hooks, which may tick children: the visits made are the depth-first reading of the script, each hook that runs ticking the children its calls name, in order; a node is set up afterwards exactly if it was before or a completing setup reached it; setup completes at most once per node between resets; the answer wraps foreign exceptions and non-status results; roots forward script and answer of their child. |
| `BehaviorTree.EveryVisit` | archive/legacy-src/core-behavior_tree/base.py:138-168 | Every tick below a tick, however deep: a hook that runs makes each of its calls a tick of the child named, with that call's script and in order; a completed setup is not run again; a failing one ends the visit; a root forwards; results and wrapped exceptions spelled out. |
| `BehaviorTree.FlagsFollow` | archive/legacy-src/core-behavior_tree/base.py:149-152 | After the reading of a script exactly those nodes are set up that were before, or that a visit with a completing setup reached. |
| `BehaviorTree.UniquePath` | archive/legacy-src/core-behavior_tree/base.py:203-227 | In a forest two different paths from a node never lead to the same node. |
| `BehaviorTree.ForestValidates` | archive/legacy-src/core-behavior_tree/base.py:229-247 | Validation never raises on a forest, so never on a tree built through the API. |
| `BehaviorTree.AttachedExactlyOnce` | archive/legacy-src/core-behavior_tree/base.py:203-227 | An attached node occurs exactly once among all child lists, under exactly its parent; an unattached one nowhere. |
| `BehaviorTree.SubtreesNestOrSeparate` | archive/legacy-src/core-behavior_tree/base.py:203-227 | Subtrees are nested or disjoint. |
| `TreeConstruction.AttachAll` | archive/legacy-src/core-behavior_tree/composite.py:32-36 | The constructor loop attaches children up to the first that already has a parent or is repeated, keeps the forest, and changes no other parent. |
| `TreeConstruction.Make` | archive/legacy-src/core-behavior_tree/root.py:35-39 | Constructors of all kinds: created exactly if the name is not empty and the children are distinct and parentless; a refused constructor leaves a half-built node with exactly the children before the refusal; the root's validation never raises. |
| `TreeConstruction.Perform` | archive/legacy-src/core-behavior_tree/decorator.py:31-52 | One arbitrary API call keeps all nodes a forest with counted setups, and does its work: what a constructor builds and adopts, what an add attaches, which nodes a tick sets up, which a reset clears. |
| `TreeConstruction.Run` | archive/legacy-src/core-behavior_tree/base.py:203-247 | Over every run of constructors, adds, ticks and resets, accepted or refused: the nodes form a forest, every tree validates, no node completed setup twice since its reset. |
| `TreeEngine.DecidedOnce` | archive/legacy-src/core-behavior_tree/engine.py:76-97 | A stream of tick results admits one stopping point and one verdict, so Decides determines the loop's outcome. |
| `TreeEngine.Tree.constructor` | archive/legacy-src/core-behavior_tree/engine.py:37-57 | Construction over a forest never fails validation; the last status starts as FAILURE. |
| `TreeEngine.Tree.Tick` | archive/legacy-src/core-behavior_tree/engine.py:59-74 | One root tick: the visit made is the reading of the script from the root; the last status follows the result and survives an exception. |
| `TreeEngine.Tree.TickUntilTerminal` | archive/legacy-src/core-behavior_tree/engine.py:76-97 | The k-th tick is one of the root with the k-th script. Returns the first status that is neither RUNNING nor WAITING, within the budget; runs out exactly if all max_ticks results were of those two kinds; refuses a budget below one. The documented stop on WAITING is not what the loop does. |
| `TreeEngine.Tree.Reset` | archive/legacy-src/core-behavior_tree/engine.py:99-107 | Clears every node of the tree and the last status. |
| `TreeBackend.Advance` | archive/legacy-src/backends/behavior_tree.py:44-83 | A job that can still move always ends SUCCEEDED or FAILED as the tree decides, with the result, error and completion time that go with it; the waiting and running branches are unreachable; a finished job keeps its status. |
| `Jobs.DriveFollows` | archive/legacy-src/core-orchestration/job.py:85-148 | Over any run of requests a terminal status never changes, PENDING is never re-entered, completed_at is set iff the job is terminal, only terminal jobs have a result or an error, the id stays. |
| `Jobs.StartedOnce` | archive/legacy-src/core-orchestration/job.py:85-117 | started_at is written at most once, and is set iff it was written. |
| `Jobs.StartedMeansStraightToRunning` | archive/legacy-src/core-orchestration/job.py:85-117 | started_at is set exactly on jobs whose path goes directly from PENDING to RUNNING; a job that waits first runs later without it. |
| `Jobs.NeverPendingAgain` | archive/legacy-src/core-orchestration/job.py:119-148 | No path returns to PENDING. |
| `Jobs.TerminalRewrite` | archive/legacy-src/core-orchestration/job.py:85-148 | A terminal record is rewritten exactly by a request for its own status, which stamps a new completion time. |
| `Jobs.RunReachesIff` | archive/legacy-src/core-orchestration/job.py:119-148 | A run of requests can lead a job to a status exactly if that is its own, or the job is not finished and the status is not PENDING. |
| `Jobs.Job.TransitionTo` | archive/legacy-src/core-orchestration/job.py:85-117 | Accepts exactly a request for the job's own status, or on a job that is not finished one for any status but PENDING; the fields it then writes, and no others, with started_at on PENDING to RUNNING only; refused, it changes nothing. |
| `Orchestration.KeysKept` | archive/legacy-src/core-orchestration/mode/base.py:67-82 | Whatever a mode does to jobs through transitions, no job is lost or re-keyed and each record is a successor of its old one. |
| `Orchestration.MovesDrive` | archive/legacy-src/core-orchestration/mode/base.py:67-82 | A mode that is not stopped drives every job through exactly the requests it makes for it, in order. |
| `Orchestration.MovesStop` | archive/legacy-src/core-orchestration/job.py:97-104 | A mode that is stopped is so at a first move that is not caught and illegal for the job as it then is, and nothing after it happens. |
| `Orchestration.RefusalStops` | archive/legacy-src/core-orchestration/job.py:97-104 | And every such move stops it. |
| `Orchestration.SubmitTells` | archive/legacy-src/core-orchestration/engine.py:98-140 | The answer and the whole new state of a submit on every path: after the mode's work exactly status_changed, and then job.completed exactly if the status is final; the new job is fresh and last in the registry. |
| `Orchestration.InputTells` | archive/legacy-src/core-orchestration/engine.py:161-178 | The same for provide_input, which is recorded for every known job and resumes only a waiting one. |
| `Orchestration.CancelTells` | archive/legacy-src/core-orchestration/engine.py:153-159 | Unknown and finished jobs are refused; any other gets the bare text, a completion time and one cancel event. |
| `Orchestration.StartAndShutdownTell` | archive/legacy-src/core-orchestration/engine.py:64-89 | What start, shutdown and its first half answer and announce, with a mode that raises in any of its hooks. |
| `Orchestration.CancelLiveTells` | archive/legacy-src/core-orchestration/engine.py:71-89 | The shutdown loop announces exactly the jobs that were RUNNING or WAITING. |
| `Orchestration.CompletedIff` | archive/legacy-src/core-orchestration/engine.py:98-178 | Over every run a job is announced as completed, once, exactly if some submit or resumed input of it went through and found it finished. |
| `Orchestration.SubmitKeepsSound` | archive/legacy-src/core-orchestration/engine.py:98-140 | Submit keeps the bounded registry, its order and its event log sound, also when the mode raises. |
| `Orchestration.CancelKeepsSound` | archive/legacy-src/core-orchestration/engine.py:153-159 | Cancelling keeps registry and log sound; the job ends CANCELLED with its cancel event. |
| `Orchestration.InputKeepsSound` | archive/legacy-src/core-orchestration/engine.py:161-178 | Input and the resume it may trigger keep registry and log sound. |
| `Orchestration.CancelLiveExact` | archive/legacy-src/core-orchestration/engine.py:71-89 | The shutdown loop cancels exactly the live jobs and leaves every other record as it is. |
| `Orchestration.QuiesceSettles` | archive/legacy-src/core-orchestration/engine.py:71-85 | When the cancel loop of a shutdown is through no job is RUNNING or WAITING; PENDING and finished jobs are exactly as the mode left them. |
| `Orchestration.ShutdownSettles` | archive/legacy-src/core-orchestration/engine.py:71-89 | After the whole shutdown a job is RUNNING or WAITING only if it was PENDING and the mode's last hook moved it; with a last hook that moves nothing, as the default one, there is none and all other jobs are as before. |
| `Orchestration.RunSound` | archive/legacy-src/core-orchestration/engine.py:64-178 | Over every run: one job.submitted per job, at most one job.completed and only for terminal jobs, none for a job cancelled through cancel_job, which is announced once and stays CANCELLED, no job lost, registry within its bound. |
| `Orchestration.EveryRunIsSound` | archive/legacy-src/core-orchestration/engine.py:46-62 | The same from a new orchestrator. |
| `Orchestration.DispatchFailsIff` | archive/legacy-src/core-orchestration/engine.py:133-138 | A dispatch whose mode does not raise fails in its report exactly if the last status the mode gave the job, or the one it had if it was given none, is a bare text. |
| `Orchestration.SubmitFailsIff` | archive/legacy-src/core-orchestration/engine.py:98-140 | A submit fails in its report exactly if it starts, is within the bound, has a new id, and the mode does not raise and last gave the job a bare text. |
| `Orchestration.InputFailsIff` | archive/legacy-src/core-orchestration/engine.py:161-178 | An input fails in its report exactly if the job waits, the mode does not raise and last left it a bare text. |
| `Orchestration.SelfCancelledSubmitFails` | archive/legacy-src/core-orchestration/mode/base.py:84-95 | A mode that cancels the job it is given through the default hook: submit has registered and announced the job, and then fails. |
| `Orchestration.ProperRunReports` | archive/legacy-src/core-orchestration/engine.py:98-178 | Over every run with modes that only ask for enumeration members, bare texts stand on cancelled jobs only, and no later submit or input fails in its report. |
| `Orchestrators.Orchestrator.Begin` | archive/legacy-src/core-orchestration/engine.py:64-69 | The object behaves as the specified start: the mode starts first, may move jobs or raise, and only then the orchestrator runs and says so, once. |
| `Orchestrators.Orchestrator.LetModeRun` | archive/legacy-src/core-orchestration/mode/base.py:67-82 | Transitions of a mode on the job objects do exactly what they do on the records; an illegal one that is not caught stops the mode. |
| `Orchestrators.Orchestrator.SubmitJob` | archive/legacy-src/core-orchestration/engine.py:98-140 | The object behaves as the specified submit: start if need be, bound, duplicate id, registration, dispatch, report; what that is, SubmitTells spells out. |
| `Orchestrators.Orchestrator.Cancel` | archive/legacy-src/core-orchestration/engine.py:153-159 | The object behaves as the specified cancel; its status is then the bare text CANCELLED. |
| `Orchestrators.Orchestrator.GiveInput` | archive/legacy-src/core-orchestration/engine.py:161-178 | The object behaves as the specified provide_input; what that is, InputTells spells out. |
| `Orchestrators.Orchestrator.CancelLiveJobs` | archive/legacy-src/core-orchestration/engine.py:71-89 | The loop over job objects computes the specified cancellation of all live jobs. |
| `Orchestrators.Orchestrator.ShutDown` | archive/legacy-src/core-orchestration/engine.py:71-89 | The object behaves as the specified shutdown, with both hooks of the mode around the cancel loop. |
| `Events.NextIs` | archive/legacy-src/core-events.py:77-95 | A subscribe or unsubscribe changes who hears only for its own event and handler; nobody is listed twice, no empty list is kept. |
| `Events.RunHears` | archive/legacy-src/core-events.py:77-95 | After any run of calls a handler hears an event, once, exactly if its last call about it was a subscription. |
| `Events.UnsubscribeUndoes` | archive/legacy-src/core-events.py:77-95 | Subscribing and unsubscribing a newcomer restores the table. |
| `Events.OrderIs` | archive/legacy-src/core-events.py:77-95 | A newcomer comes last, a repeated subscription changes nothing, one that leaves leaves the others in order. |
| `Events.OrderKept` | archive/legacy-src/core-events.py:77-111 | Over every run two handlers that keep hearing an event keep their order. |
| `Events.ReactionsInOrder` | archive/legacy-src/core-events.py:97-111 | What handlers do to the subscriptions during a delivery takes effect in the order of the calls. |
| `Events.EventBus.SubscribeHandler` | archive/legacy-src/core-events.py:77-85 | Raises exactly on an empty name or a missing handler; otherwise appends a newcomer to the list of the name and leaves a known one. |
| `Events.EventBus.UnsubscribeHandler` | archive/legacy-src/core-events.py:87-95 | Removes one handler, and the event with its last one; harmless if absent. |
| `Events.EventBus.Publish` | archive/legacy-src/core-events.py:97-111 | Calls each handler of the moment of publishing once, in subscription order, whatever handlers subscribe, unsubscribe or raise meanwhile; their changes take effect in order. |
| `Registries.Registry.Register` | src/palm/core/registry.py:43-50 | Refused exactly if the table is frozen and does not hold that object there; accepted, the name holds the object and all other names what they held. |
| `Registries.Registry.Drop` | src/palm/core/registry.py:68-73 | Refused exactly if the table is frozen; otherwise the name is gone and nothing else. |
| `Registries.Registry.Clear` | src/palm/core/registry.py:75-80 | Refused exactly if the table is frozen; otherwise it is emptied. |
| `Registries.Registry.Serve` | src/palm/core/registry.py:43-85 | A run of calls on the object leaves what the run on values leaves. |
| `Registries.RefusedIff` | src/palm/core/registry.py:43-80 | What each call refuses, and what every name holds after it. |
| `Registries.LastCallDecides` | src/palm/core/registry.py:43-80 | After any run of calls without a freeze a name holds what the last call about it said, and what it held before if there was none. |
| `Registries.FreezeEndsIt` | src/palm/core/registry.py:43-85 | From the first freeze on, whatever is called, the entries stay. |
| `Registries.SystemRegistries.Install` | src/palm/system/registries.py:27-38 | Installs exactly if the name is not empty, not taken and the set is not frozen. |
| `Registries.SystemRegistries.Freeze` | src/palm/system/registries.py:53-61 | A caller on its own freezes the set and every table in it; a set that was frozen is left alone. |
| `RegistryProtocol.RunKeepsInv` | src/palm/system/registries.py:53-61 | Over every interleaving of threads, a table not frozen yet is still on the list of the thread that set the flag; tables, entries and flags only move forward. |
| `RegistryProtocol.FrozenForGood` | src/palm/system/registries.py:53-61 | Once the call that set the flag has returned, every installed table is frozen, none was missed, and names and lookups stay for the rest of the run. |
| `RegistryProtocol.SetClosedAtOnce` | src/palm/system/registries.py:27-38 | From the moment the flag is set no installation succeeds. |
| `RegistryProtocol.EarlyReturn` | src/palm/system/registries.py:53-61 | A second caller returns at once; the tables that the first caller has passed are frozen then, so the return is safe once that has passed its whole snapshot, and always after it has returned. |
| `RegistryProtocol.EarlyReturnIsEarly` | src/palm/system/registries.py:53-61 | If tables are frozen by no one else, a table is frozen exactly if the first caller has passed it, and one it has not passed still takes registrations. |
| `RegistryProtocol.SecondCallerMayBeEarly` | src/palm/system/registries.py:53-61 | A concrete interleaving in which the second freeze has returned and a table still takes a registration. |
| `RegistryProtocol.InstallIff` | src/palm/system/registries.py:27-38 | An installation takes effect exactly on an open set and a free name, and changes nothing else. |
| `RegistryProtocol.SoloFreeze` | src/palm/system/registries.py:53-61 | From every reachable open state a freeze that is given its steps returns, with the set and every installed table frozen. |
| `Proposals.ListingsAgree` | src/services/design/storage_proposal_repository.py:108-121 | Two listings over the same objects show the same rows exactly if no matching id is missing from the shorter one; both in non-increasing updated_at. |
| `Proposals.ListingIs` | src/services/design/storage_proposal_repository.py:108-121 | A row for exactly the ids asked for whose flow or base flow is the filter's when one is given and whose status is the one asked for; each with its draft as it is now, once, newest first. |
| `Texts.SortIsStable` | src/services/design/proposal.py:125-132 | Rows of equal stamps keep their order, in either direction of the sort. |
| `Proposals.KeysApart` | src/services/design/storage_proposal_repository.py:20-21 | Storage keys are injective in the id, and only the id _index has the key of the index. |
| `Proposals.ThawInverts` | src/services/design/storage_proposal_repository.py:24-40 | Reading back inverts writing exactly for non-empty status, kind and time stamps; the defaults for empty ones are open, flow and the time of loading. |
| `ProposalRuns.RunCoupled` | src/services/design/storage_proposal_repository.py:73-140 | Over every sequential run of saves, gets, deletes, listings and restarts every proposal has its record, the index is duplicate-free and equals the ids last saved open, and the cache holds known proposals only; until a restart it holds the very objects of the plain store. |
| `ProposalRuns.SameAnswers` | src/services/design/storage_proposal_repository.py:84-106 | After any run, restarts included, both stores know the same ids and give the same delete boolean; without a restart get answers with the same object. |
| `ProposalRuns.ListingsAgreeIff` | src/services/design/storage_proposal_repository.py:108-121 | Without a restart, for every filter the listings agree exactly if no proposal that passes it now was last saved as something else than open. |
| `ProposalRuns.CommittedIsNotListed` | src/services/design/storage_proposal_repository.py:108-121 | Save a committed proposal: a listing without filters shows it in the plain store and not in the durable one. |
| `ProposalRuns.ReopenedIsNotListed` | src/services/design/storage_proposal_repository.py:108-121 | Edit it back to open without saving: even the open listings differ. |
| `ProposalRuns.OpenListingsAgree` | src/services/design/storage_proposal_repository.py:108-121 | For clients that save what they edit, open listings agree under every flow filter. |
| `ProposalRuns.IndexIdMalformed` | src/services/design/storage_proposal_repository.py:84-106 | The id _index is where the stores part: get fails on the list, delete wipes the index. |
| `ProposalRuns.IndexAnswersAgreeIff` | src/services/design/storage_proposal_repository.py:84-140 | Over every clean run, at the id of the index both stores answer get and delete alike exactly as long as the run saved and deleted nothing. |
| `ProposalRuns.RestartKeepsGet` | src/services/design/storage_proposal_repository.py:84-95 | A new repository over the same storage answers get with the draft as last saved, unchanged exactly if its texts are not empty. |
| `ProposalRuns.CarefulRunIsSaved` | src/services/design/storage_proposal_repository.py:73-121 | A client that saves complete drafts right after editing them keeps every object of both stores as its record, over every run, restarts included. |
| `ProposalRuns.RestartsAreInvisible` | src/services/design/storage_proposal_repository.py:84-121 | For such a client, with restarts anywhere in the run: get shows the draft the plain store shows, and a listing of open proposals under any flow filter shows the same drafts, in non-increasing updated_at. |
| `ProposalRuns.RestartKeepsListing` | src/services/design/storage_proposal_repository.py:108-121 | For such a client a restart changes no listing: the same drafts in the same order under every filter. |
| `ProposalStores.MemoryRepository.Save` | src/services/design/proposal.py:108-112 | Stamps the shared object and files it under its id, keeping the place of a known id. |
| `ProposalStores.MemoryRepository.Delete` | src/services/design/proposal.py:121-123 | Forgets the id and says whether it was there. |
| `ProposalStores.MemoryRepository.List` | src/services/design/proposal.py:125-132 | Without reference to how rows are found: a row for exactly the ids held whose flow or base flow, and whose status, are the ones asked for, each once, newest first. |
| `ProposalStores.StorageRepository.Save` | src/services/design/storage_proposal_repository.py:73-82 | Cache, record and index change together as specified, for every id, that of the index included: listed iff saved open. |
| `ProposalStores.StorageRepository.Create` | src/services/design/storage_proposal_repository.py:51-71 | The new open draft, its flow and resource ids falling back to the base ids, is saved as specified. |
| `ProposalStores.StorageRepository.Get` | src/services/design/storage_proposal_repository.py:84-95 | Cached object, freshly loaded object that is then cached, not found, or failure on a malformed record. |
| `ProposalStores.StorageRepository.Delete` | src/services/design/storage_proposal_repository.py:97-106 | Removes object, record and index entry; true iff either existed. |
| `ProposalStores.StorageRepository.FetchAll` | src/services/design/storage_proposal_repository.py:108-116 | The listing loop loads what has a record, drops from the index what has none, and loses nothing cached. |
| `ProposalStores.StorageRepository.List` | src/services/design/storage_proposal_repository.py:108-121 | Without reference to how rows are found: a row for exactly the indexed ids with an object or a record whose flow or base flow, and whose status, are the ones asked for, newest first and each once if the index is duplicate-free; the other ids are dropped from the index. |
| `ProposalStores.NothingToHeal` | src/services/design/storage_proposal_repository.py:108-116 | On sound storage a listing changes nothing. |
| `ProposalStores.HealDrops` | src/services/design/storage_proposal_repository.py:108-116 | Healing drops from the index exactly the listed ids without object or record, and touches no record. |
| `ProposalRepositories.Repository.Get` | src/services/design/factory.py:17-21 | On either repository: the object that shows the draft on record, not found, or for the id of an index that is there a failure; no draft changes, whether or not the object had to be loaded. |
| `ProposalRepositories.Repository.Update` | src/services/design/storage_proposal_repository.py:73-82 | On either repository, writing fields of an object and saving it changes exactly its draft on record and keeps every cached object as its record. |
| `ProposalRepositories.Repository.Create` | src/services/design/storage_proposal_repository.py:51-71 | On either repository a new draft is added under its id. |
| `ProposalRepositories.Repository.Delete` | src/services/design/storage_proposal_repository.py:97-106 | On either repository exactly the one draft is gone. |
| `ProposalRepositories.Repository.Reopen` | src/services/design/storage_proposal_repository.py:46-49 | A new repository over the same storage, nothing cached, holds the same drafts. |
| `DesignLifecycle.CommitSteps` | src/services/design/service.py:252-322 | A commit that goes through writes exactly what it must: a dashboard its own name, a draft with a base an update of that base, any other an update or a creation of the id it names as the catalog has it or not; a rejected one writes nothing and changes only reports. |
| `DesignLifecycle.PerformSteps` | src/services/design/service.py:252-332 | Every call either leaves catalog and statuses alone or takes the one named proposal from open to committed with exactly one write, the intended one; validate, impact and rejected commits change a draft only in its verdict, report and stamp. |
| `DesignLifecycle.RunSound` | src/services/design/service.py:73-332 | Over every run a proposal has at most one catalog write, exactly one while it is kept as committed, none while open; a committed one knows a non-empty target and a revision, and the write made for it fits it: only drafts without a base ever create. |
| `DesignLifecycle.EveryRunIsSound` | src/services/design/service.py:73-332 | The same from an empty service. |
| `DesignLifecycle.GoneForGood` | src/services/design/service.py:324-332 | A proposal that is gone never comes back and is never written again. |
| `DesignLifecycle.DiscardedNeverCommits` | src/services/design/service.py:324-332 | After a discard, whatever follows, commit answers not found. |
| `DesignLifecycle.CommitIff` | src/services/design/service.py:252-322 | A commit goes through exactly if the proposal is open, the token good, validation passes, a target resolves, impact analysis and publish do not raise. |
| `DesignLifecycle.ValidationIsStored` | src/services/design/service.py:155-190 | After a validation the draft on record has exactly the verdict answered and the new stamp; without a draft or a verdict nothing changes. |
| `DesignLifecycle.ReportIsStored` | src/services/design/service.py:192-250 | After an impact analysis the draft on record has the catalog's report, and mutations are allowed exactly if the verdict on record is positive; when it is not found, rejected or raises. |
| `DesignLifecycle.ProposalIsStored` | src/services/design/service.py:73-143 | A proposal is on record whatever its validators do, with their verdict and a second stamp if they give one. |
| `DesignLifecycle.CommitRefusals` | src/services/design/service.py:252-322 | Which commits are not found or rejected, and what is on record after one that does not go through. |
| `DesignLifecycle.CommittedDraft` | src/services/design/service.py:252-322 | Every field of the draft after a commit: accepted, last stamp, the target and revision the catalog answered or those meant. |
| `DesignLifecycle.LastCheckIsOnRecord` | src/services/design/service.py:73-322 | Over every run the verdict on record for a proposal is that of the last call on which the validators passed one on it. |
| `DesignLifecycle.MutationsFollowLastCheck` | src/services/design/service.py:192-250 | So after every run impact analysis allows mutations exactly if that verdict was positive. |
| `DesignServices.NewDraftIs` | src/services/design/service.py:73-143 | What a new proposal of each kind carries, and in which of its fields. |
| `DesignServices.DesignService.ProposeDraft` | src/services/design/service.py:73-143 | On either repository propose is create, validate and save again as specified. |
| `DesignServices.DesignService.ValidateProposal` | src/services/design/service.py:155-190 | The object behaves as the specified validation, whose effect ValidationIsStored spells out. |
| `DesignServices.DesignService.AnalyseImpact` | src/services/design/service.py:192-250 | The object behaves as the specified impact analysis, whose effect ReportIsStored spells out. |
| `DesignServices.DesignService.PublishDashboard` | src/services/design/service.py:510-531 | Dashboard commits validate their tiles first, then register and mark. |
| `DesignServices.DesignService.PublishDefinition` | src/services/design/service.py:288-322 | Flow and resource commits resolve the target, analyse impact, write the catalog once, mark the proposal. |
| `DesignServices.DesignService.CommitProposal` | src/services/design/service.py:252-322 | On either repository the call behaves as the specified commit, through the gate and the fresh validation; the id of an index that is there fails. |
| `DesignServices.DesignService.DiscardProposal` | src/services/design/service.py:324-332 | Discard marks, saves and deletes, whatever the status was. |
| `DesignServices.DesignService.Serve` | src/services/design/service.py:73-332 | Over every run of service calls, on either repository, and on the durable one with restarts anywhere, answers, catalog writes and drafts are those of the machine on drafts. |
| `DesignServices.ServeBoth` | src/services/design/service.py:73-332 | A service on the plain repository and one on the durable repository, the latter restarted anywhere in the run, give the same answers, make the same catalog writes and end with the same drafts. |
| `DesignServices.GuardDecidesIff` | src/services/design/service.py:155-332 | A call differs between the repositories exactly if it names the id of the index and storage has one. |
| `Migration.SummaryBalanced` | src/services/design/service.py:533-599 | attempted = succeeded + failed; skipped and attempted add up to the number of results and of rows with an instance id; each counter counts its results; results keep row order. |
| `Migration.ResultIs` | src/services/design/service.py:533-599 | The result at the place of each row with an instance id: blocked, not compatible with its reason, refused with its reason, or done, by the call made for it. |
| `Migration.AutoMigrate` | src/services/design/service.py:533-599 | migrate_instance is called exactly once, in order, for each compatible unblocked row and never for another; the loop raises exactly at the first call that breaks. |
| `SyntaxWalk.Walk` | scripts/guard_deferred.py:66-95 | The breadth-first walk yields every node of the tree exactly as often as it occurs. |
| `SyntaxWalk.MarkBodies` | scripts/guard_deferred.py:74-87 | The mark set holds exactly the ids inside the bodies of marking nodes. |
| `SyntaxWalk.CoversDown` | scripts/guard_deferred.py:74-87 | Marks decide the imports of a subtree exactly as the context inherited on the way down does. |
| `SyntaxWalk.SelectedIsDeferred` | scripts/guard_deferred.py:66-95 | Selecting by marks in tree order equals the one-pass recursion with inherited context. |
| `SyntaxWalk.SelectedInAnyOrder` | scripts/guard_deferred.py:88-95 | What is selected does not depend on the order of the walk. |
| `SyntaxWalk.Collect` | scripts/guard_deferred.py:51-95 | For every syntax tree whose imports are single objects, the marking passes find exactly the palm imports inside a function body and inside no TYPE_CHECKING body. |
| `SyntaxWalk.DeferredLiesSomewhere` | scripts/guard_deferred.py:66-95 | Every deferred import lies at the end of a path through the body of a function and through the body of no TYPE_CHECKING test. |
| `SyntaxWalk.WhatLiesSoIsDeferred` | scripts/guard_deferred.py:66-95 | And every import that lies so is deferred. |
| `SyntaxWalk.MarksAre` | scripts/guard_deferred.py:74-87 | What marks: function definitions, and tests of TYPE_CHECKING by name or as an attribute. |
| `SyntaxWalk.TargetsAre` | scripts/guard_deferred.py:51-56 | An import contributes the names palm or starting with palm and a dot, each as often as it names it. |
| `DeferredGuard.ScanFile` | scripts/guard_deferred.py:66-110 | One more file adds exactly its deferred imports to total, direction counts, edges and its own count; what the directions are, DirectionsAre says. |
| `DeferredGuard.Guard` | scripts/guard_deferred.py:59-134 | The report counts exactly the deferred imports of all files; exit status 1 exactly if there are more than 217, or more than 3 whose layer is ranked higher than the ranked layer of their file. |
| `DeferredGuard.DirectionsSum` | scripts/guard_deferred.py:96-110 | The four directions partition the imports. |
| `DeferredGuard.Balanced` | scripts/guard_deferred.py:96-110 | total = sum of the directions = sum of per_file; one edge per upward import; each file has its own count. |
| `DeferredGuard.DirectionsAre` | scripts/guard_deferred.py:96-110 | Upward are exactly the imports whose own rank and whose file's rank are known and the former is greater; sibling, downward and unranked likewise. |
| `DeferredGuard.EdgesAre` | scripts/guard_deferred.py:100-106 | The edges listed are exactly the upward imports of the files, with the layer of the file. |
| `DeferredGuard.LayerIs` | scripts/guard_deferred.py:42-44 | The layer is the second part of a dotted name whose first is palm. |
| `DeferredGuard.FileLayerIs` | scripts/guard_deferred.py:42-48 | The layer of a file is its first directory. |
| `DeferredGuard.RanksAre` | scripts/guard_deferred.py:26-39 | The rank of every layer, and of what is none. |
| `SessionIds.ServiceSessionId` | src/palm/system/subsystems/planes/session/types.py:48-81 | The slug loop computes the specified service id, and fails exactly where that does. |
| `SessionIds.ServiceIdShape` | src/palm/system/subsystems/planes/session/types.py:48-81 | A service id exists iff the origin has a letter or digit; it is system shaped, trimmed, at most 80 characters after its prefix, without doubled or outer hyphens, and keeps the origin's letters in order. |
| `SessionIds.OutsideIsNotService` | src/palm/system/subsystems/planes/session/types.py:27-37 | A minted id is system shaped and never a service id. |
| `SessionIds.ServiceIdIs` | src/palm/system/subsystems/planes/session/types.py:48-81 | The service id is sess-svc- and the words of the trimmed, lower-cased origin joined by single hyphens, cut after 80 characters without a hyphen at the end. |
| `SessionIds.LooksSystemIff` | src/palm/system/subsystems/planes/session/types.py:32-45 | What looks like a system session: a text that, trimmed, starts with sess and a hyphen. |
| `Sessions.NextKeepsSound` | src/palm/system/subsystems/planes/session/store.py:37-53 | Every plane and store call keeps records proper, the reverse index equal to the attach lists, and the index of ids duplicate-free and complete. |
| `Sessions.EveryRunHasOneOwner` | src/palm/system/subsystems/planes/session/plane.py:380-423 | After any run no instance is attached to two sessions. |
| `Sessions.AttachExactly` | src/palm/system/subsystems/planes/session/plane.py:380-423 | Attach succeeds exactly for a non-blank id, an existing unclosed session and no other session holding the instance; a refusal changes nothing. |
| `Sessions.AttachLeaves` | src/palm/system/subsystems/planes/session/plane.py:380-423 | A new instance comes last, becomes the focus and makes the session active; one that is there becomes the focus only if there is none; other records stay. |
| `Sessions.AttachRefusals` | src/palm/system/subsystems/planes/session/plane.py:380-408 | Which fault an attach is refused with. |
| `Sessions.DetachLeaves` | src/palm/system/subsystems/planes/session/plane.py:425-452 | The instance goes and the others keep their order; the focus stays unless it was the one that goes, and then passes to the last one left. |
| `Sessions.DetachRefusals` | src/palm/system/subsystems/planes/session/plane.py:425-440 | A detach of a blank id or from an unknown session is refused, one of an instance that is not attached changes nothing. |
| `Sessions.FieldCalls` | src/palm/system/subsystems/planes/session/plane.py:359-481 | Focus, unfocus and close write one field of one record, and the faults they are refused with. |
| `Sessions.BindIs` | src/palm/system/subsystems/planes/session/plane.py:154-209 | Bind mints, opens, finds or refuses, for every mix of id, create flag and status. |
| `Sessions.DeleteLeaves` | src/palm/system/subsystems/planes/session/store.py:77-87 | A delete takes one record and its place in the list of ids. |
| `Sessions.DetachUndoesAttach` | src/palm/system/subsystems/planes/session/plane.py:425-452 | Detaching a fresh attach restores everything except that the focus is on the last instance and the session stays active. |
| `Sessions.OnlyTargetChanges` | src/palm/system/subsystems/planes/session/plane.py:134-481 | A call leaves the records and the instances of every other session alone. |
| `Sessions.EntryIsOpen` | src/palm/system/subsystems/planes/session/plane.py:154-246 | Bind and service start succeed exactly as their rules say, hand out sessions that accept work, open new ones empty, and change no existing record. |
| `Sessions.FocusDecides` | src/palm/system/subsystems/planes/session/plane.py:605-630 | After a focus or a fresh attach a session continues with that instance, and after the focused one is detached with the last one left, whatever waits. |
| `Sessions.UnfocusDecides` | src/palm/system/subsystems/planes/session/plane.py:474-481 | Clearing the focus leaves the rest of the record; without waits the session continues with the last attached instance. |
| `Sessions.WaitDecides` | src/palm/system/subsystems/planes/session/plane.py:605-630 | Without a focus a session continues with the instance of the newest wait that is still attached, and with the last attached if there is none. |
| `Sessions.MayContinueIff` | src/palm/system/subsystems/planes/session/plane.py:519-552 | An instance may be continued exactly under the open session that the reverse index names. |
| `Sessions.CloseKeepsHistory` | src/palm/system/subsystems/planes/session/plane.py:359-370 | A closed session owns what it owned, but nothing may be continued under it. |
| `Sessions.RunKeepsSealed` | src/palm/system/subsystems/planes/session/plane.py:359-370 | A closed session stays closed and gains no instance over any run that does not delete it. |
| `Sessions.OwnsIsHolds` | src/palm/system/subsystems/planes/session/plane.py:501-517 | The reverse-index half of the ownership test never decides; the attach list does. |
| `SessionPlanes.SessionStore.PutRecord` | src/palm/system/subsystems/planes/session/store.py:37-53 | Writing a record updates entry, id list and reverse index as specified. |
| `SessionPlanes.SessionStore.Remove` | src/palm/system/subsystems/planes/session/store.py:77-87 | Deleting clears the entry, its place in the list and the reverse entries that name it. |
| `SessionPlanes.SessionPlane.BindSession` | src/palm/system/subsystems/planes/session/plane.py:154-209 | The object behaves as the specified bind: mint, rebind, open by id, refuse closed. |
| `SessionPlanes.SessionPlane.EnsureServiceSession` | src/palm/system/subsystems/planes/session/plane.py:211-246 | The object behaves as the specified service start. |
| `SessionPlanes.SessionPlane.AttachInstance` | src/palm/system/subsystems/planes/session/plane.py:380-423 | The object behaves as the specified attach; the repair of a stale focus is unreachable. |
| `SessionPlanes.SessionPlane.DetachInstance` | src/palm/system/subsystems/planes/session/plane.py:425-452 | The object behaves as the specified detach; the repair of a stale focus is unreachable. |
| `SessionPlanes.SessionPlane.SetActiveInstance` | src/palm/system/subsystems/planes/session/plane.py:454-472 | Focus moves only to attached instances of an open session. |
| `SessionPlanes.SessionPlane.RequireOwnedInstance` | src/palm/system/subsystems/planes/session/plane.py:519-552 | Blank ids are refused and others trimmed; the owner gate opens exactly for an attached instance of an unclosed session, and otherwise says which rule failed. |
| `SessionPlanes.SessionPlane.RequireContinueAttribution` | src/palm/system/subsystems/planes/session/plane.py:554-603 | A blank instance is refused. With a system session: the owner gate's answer. Without, strict: the session that may continue the instance, closed if its holder is, unattributed exactly if none holds it. Not strict: no session. |
| `SessionPlanes.SessionPlane.ResolveContinueInstance` | src/palm/system/subsystems/planes/session/plane.py:605-630 | Focus, else newest waiting attached instance, else last attached; whatever comes back may be continued; nothing comes back exactly if nothing is attached. |
| `SessionServices.SessionService.ContinueTarget` | src/services/session/service.py:446-493 | Gate on and plane ready: both ids returned means the session is open and holds the instance; strict never returns an instance without its session. The pair or the refusal is determined for every mix of arguments, gate, strictness and plane, a resolved instance being the preferred one; the branch at 477-483 is unreachable. |
| `SessionServices.ArgumentsAre` | src/services/session/service.py:446-470 | A system id in the place of the instance stands for the session if that is none itself; an instance is only what does not look like a session. |
| `SessionServices.SessionService.GateBoundSessionOwns` | src/services/session/service.py:495-547 | When the gate passes, refuses or defers, for every mix of session, strictness, blank and known instance; the session it binds is the one in the parameters afterwards. |
| `SessionServices.SessionService.EnsureSystemSessionId` | src/services/session/service.py:562-596 | The first system-shaped candidate, else a service or outside session, else nothing; failures of the plane become None. |
| `SessionServices.SessionService.EnrichReactiveStart` | src/services/session/service.py:736-782 | The method computes the specified reactive enrichment. |
| `SessionServices.SessionService.EnrichSubmitBody` | src/services/session/service.py:630-695 | The method computes the specified submit enrichment, including its detour to the reactive one. |
| `Attribution.SignalIsKept` | src/services/session/service.py:755-770 | A start that carries a system session anywhere keeps the one in the first such place of body, metadata and parent, trimmed and labelled as inherited, keeps its origin or gets one, and creates nothing. |
| `Attribution.NoOutsideSession` | src/services/session/service.py:736-782 | Otherwise at most the service session of its origin is opened, and the body changes only by its session, its origin and its label; no outside session, no changed record. |
| `Attribution.AutomatedSurface` | src/services/session/service.py:648-664 | A submit without session and origin on one of the four automated surfaces gets the service session of the surface, labelled so, or nothing. |
| `Attribution.OtherSurface` | src/services/session/service.py:665-695 | On any other surface it gets the minted outside session and no label. |
| `Attribution.HintIs` | src/services/session/service.py:648-658 | Where the origin of a submit comes from: the argument, the metadata, the surface if it is automated. |
| `Attribution.StrictReactive` | src/services/session/service.py:771-782 | Strict with a plane: the result carries a system session, or the call raises, and it raises exactly if nothing is inherited and the service session has no name or is closed. |
| `Attribution.ReactiveAttributes` | src/services/session/service.py:736-782 | Every reactive enrichment leaves the plane sound, moves no instance, and either carries a session that later looks find first or did nothing. |
| `Attribution.ReactiveTwice` | src/services/session/service.py:736-782 | A second reactive enrichment changes only the label, and no session is created. |
| `Attribution.SubmitAttributes` | src/services/session/service.py:630-695 | The same guarantee for submit bodies; a session created for the start accepts work. |
| `Attribution.SubmitKeepsGiven` | src/services/session/service.py:665-686 | A body that came with a system session keeps it. |
| `Attribution.SubmitTwice` | src/services/session/service.py:630-695 | A second enrichment with any surface, origin and token keeps the session and creates none. |
| `Attribution.StartedWorkContinues` | src/services/session/service.py:630-695 | Work attached to a session that the enrichment opened may be continued under it. |
| `Dashboards.LoadedIsLegal` | src/palm/definitions/dashboard.py:100-113 | Loading fails exactly on a missing name or a tile without id or dataset; what loads has a profile on every tile. |
| `Dashboards.RoundTrip` | src/palm/definitions/dashboard.py:36-113 | Saving, loading and saving a legal dashboard gives the first dictionary exactly if every tile has a profile. |
| `Dashboards.ComesBack` | src/palm/definitions/dashboard.py:36-113 | Every field of a legal dashboard after saving and loading: as it was, with the name, the dataset or table standing in for empty texts; and its listing row. |
| `Dashboards.EmptyProfileIsLost` | src/palm/definitions/dashboard.py:54-67 | A concrete dashboard whose dictionary changes. |
| `Dashboards.LoadedIsNormal` | src/palm/definitions/dashboard.py:54-113 | What was loaded once is stable under saving and loading. |
| `Dashboards.RowSurvives` | src/services/analytics/dashboards.py:57-75 | A listing row survives saving and loading of any legal dashboard. |
| `DashboardShelf.ShelfRunKeeps` | src/services/analytics/dashboard_store.py:22-57 | Over every run of saves and deletes the durable index is strictly sorted and equals the stored names, and every record loads under its name. |
| `DashboardCache.RegisterHidesLossIff` | src/services/analytics/dashboards.py:33-54 | Registering keeps a loss of the memory invisible to lookups exactly if a trimmed name comes with profiles, or an untrimmed one is blank or spells no cached name. |
| `DashboardCache.RegisterHidesListLossIff` | src/services/analytics/dashboards.py:33-75 | Registering keeps it invisible to listings exactly if the name is not blank and no other spelling of it is cached. |
| `DashboardCache.TwoSpellings` | src/services/analytics/dashboards.py:33-75 | Register a name with a leading space over its cached trimmed form: the listing shows both, and without the memory only one. |
| `DashboardCache.ListsEqualIff` | src/services/analytics/dashboards.py:57-75 | The listings with and without the memory are equal exactly if the loss is invisible in the sense of these results. |
| `DashboardCache.RunHidesLoss` | src/services/analytics/dashboards.py:33-81 | Over every run of persisted registrations that meet the first condition, clears, lookups and listings, losing the memory changes no looked-up answer up to to_dict. |
| `DashboardCache.RunHidesListLoss` | src/services/analytics/dashboards.py:33-81 | Over every run whose registrations meet the second condition, losing the memory changes no listing. |
| `DashboardCache.TidyRunFits` | src/services/analytics/dashboards.py:33-81 | Trimmed names with profiles on all tiles meet both conditions throughout a run that starts with trimmed names. |
| `DashboardCache.AttachHidesLoss` | src/services/analytics/dashboards.py:20-30 | Attaching any sound store to an empty memory leaves nothing to lose, so both runs may start there. |
| `DashboardRegistries.DashboardStore.Save` | src/services/analytics/dashboard_store.py:22-31 | Raises exactly on a blank name and then writes nothing; otherwise the record under the trimmed name, and that name in the sorted index. |
| `DashboardRegistries.DashboardStore.Delete` | src/services/analytics/dashboard_store.py:51-57 | Removes record and every index entry of the trimmed name, and says whether it was there. |
| `DashboardRegistries.DashboardStore.ListAll` | src/services/analytics/dashboard_store.py:43-49 | The stored dashboards in index order. |
| `DashboardRegistries.DashboardRegistry.AttachDashboardStore` | src/services/analytics/dashboards.py:20-30 | Stored dashboards replace cached ones of their names, and the count is the length of the index; attaching none unbinds the store and leaves the memory. |
| `DashboardRegistries.DashboardRegistry.RegisterDashboard` | src/services/analytics/dashboards.py:33-41 | Memory is written first, then the store, which may raise. |
| `DashboardRegistries.DashboardRegistry.GetDashboard` | src/services/analytics/dashboards.py:44-54 | Memory first, then the store with caching, for the trimmed name. |
| `DashboardRegistries.DashboardRegistry.ListDashboards` | src/services/analytics/dashboards.py:57-75 | Pulls in the stored names that memory lacks, then lists every dashboard once in strict name order. |
| `Instances.HistoryGrows` | src/palm/instances/process_instance.py:134-147 | Every append adds one to the version, and the history holds all statuses in order. |
| `Instances.StatusIsLastEntry` | src/palm/instances/process_instance.py:134-138 | The status is that of the last entry once a status was appended, and until then the initial one. |
| `Instances.BufferIsLast` | src/palm/instances/process_instance.py:140-147 | With one bound m the snapshots are the last min(k, max(1, m)) of all k, written out. |
| `Instances.BufferHoldsNewest` | src/palm/instances/process_instance.py:140-147 | With changing bounds they are still a run of the newest ones, the very newest included. |
| `Instances.RoundTripIff` | src/palm/instances/process_instance.py:62-132 | Storing and loading never fails, and is the identity exactly if the session is what loading makes of it and no step slug is an empty text. |
| `Instances.ResolvedSurvivesIff` | src/palm/instances/process_instance.py:51-60 | The resolved session survives exactly if the instance's own session is empty or trimmed. |
| `Instances.LoadedSessionSurvives` | src/palm/instances/process_instance.py:89-132 | The resolved session of any loaded instance survives another storing and loading. |
| `Instances.SecondLoadIsStable` | src/palm/instances/process_instance.py:62-132 | After two rounds a stored instance no longer changes. |
| `Instances.LoadsIff` | src/palm/instances/process_instance.py:89-132 | Loading fails exactly where a required key of the instance, of an entry or of a snapshot is missing. |
| `Instances.LoadedIs` | src/palm/instances/process_instance.py:89-132 | What the fields are loaded from, older dictionaries included: format version, wizard step, session in the metadata. |
| `Instances.EntryIs` | src/palm/instances/process_instance.py:89-132 | Each entry that is a dictionary is loaded in its place, the others are passed over. |
| `Instances.SnapshotIs` | src/palm/instances/process_instance.py:89-132 | The same for snapshots, with the wizard step where there is no step. |
| `Instances.ProcessInstance.AppendStatus` | src/palm/instances/process_instance.py:134-138 | The object behaves as the specified append; None details are left out. |
| `Instances.ProcessInstance.AppendStateSnapshot` | src/palm/instances/process_instance.py:140-147 | The object behaves as the specified bounded append. |
| `AssistGrammar.ParsePrinted` | src/services/assist/grammar.py:129-149 | Parsing any printed path gives what its arguments mean, and fails exactly if they mean nothing. |
| `AssistGrammar.DescribeIff` | src/services/assist/grammar.py:72-76 | A scenario can be described by its path unless it is called start. |
| `AssistGrammar.ReprintParsed` | src/services/assist/grammar.py:65-126 | Printing what was parsed parses to the same command and is the same path, with instance for the older session. |
| `AssistGrammar.ParseSeparates` | src/services/assist/grammar.py:58-126 | Different paths with one addressed command differ only in the service prefix or the older segment. |
| `AssistGrammar.PlainPaths` | src/services/assist/grammar.py:65-110 | For each command without an address, exactly its paths, the older spellings included. |
| `AssistGrammar.AddressedPaths` | src/services/assist/grammar.py:65-126 | For each command on a scenario or an instance, exactly its paths. |
| `AssistGrammar.OfferedByName` | src/services/assist/schemas.py:232-245 | When each verb is among the next commands, with the paths written out. |
| `AssistGrammar.NextCommands` | src/services/assist/schemas.py:232-245 | Offers exactly the verbs its context allows, each once, and every path parses back to its own instance and verb. |

## Left out

- `_reset_impl` and the concrete composite, decorator and leaf nodes: hooks are scripts that tick children and end in any way; a hook that resets nodes or edits the tree while it is ticked is not modelled; roots have no hooks of their own.
- Event handlers that call back into the orchestrator, and modes that do: events of the orchestrator are its log, and a mode only transitions jobs.
- Generated ids: job, proposal and session ids are parameters, as if a caller had chosen them.
- The event `timestamp` and `id`, job snapshots, `list_jobs` and the other read-only views.
- The sorted `names()` listings of the registries.
- Registries.Registry.Register: implementations are objects; the source also takes None, which it answers under a free name as if it were there already and does not store.
- Linearizability of the proposal store: `get` and `list_proposals` work outside the lock, so refinement is claimed for sequential runs.
- `StorageNotConfiguredError` and other storage failures between the steps of one call.
- Nested mutable values: bodies, options, metadata and snapshots are opaque values, so sharing inside them is not modelled.
- `publish_flow`, `publish_resource` and `publish_dashboard`, which chain a propose and a commit; the wording of validation results and blockers.
- `int(...)` of a published revision that is not a number.
- Sorting ties: rows of equal `updated_at` may come in different order from the two proposal stores; only the multiset and the order of stamps are claimed.
- Which of two files with one path an edge in the guard's report comes from, the order of the edges, the printed text, and unreadable files other than syntax errors.
- Syntax trees in which one import node object occurs twice: `OwnImports` asks for imports to be single objects, as the parser makes them; other node objects may be shared.
- Listing and clearing sessions; `stamp` and `replace` of session metadata.
- Sessions.EntryIsOpen: leaves out the metadata and the time stamp that a rebind writes to an existing record; nothing in the model reads them.
- SessionPlanes.SessionPlane.BindSession: does not model the merging of surface and other metadata into the record.
- SessionPlanes.SessionPlane.EnsureServiceSession: does not model the merging of the kind and origin tags.
- DesignServices.DesignService.PublishDashboard: counts a register call that raises as no write, although for a blank name it has then put the dashboard into the memory of the registry.
- SessionIds.ServiceSessionId: lower-cases and tests letters and digits as in ASCII; an origin with other letters gets another slug in the source.
- SessionIds.ServiceIdShape: the same, so existence and shape are those of ASCII origins.
- `inherit_or_service_session`, `reactive_origin`, `cancel_owned` and the surface views of the session service.
- Keys of a start body other than the session ones, which enrichment copies.
- `DashboardStore.get` on a record that does not load: `FromDict` answers None where the source raises; stored records always load.
- Rendering dashboards.
- Dashboards are values here. The source hands out the objects it caches, so a client that edits one makes a loss of the memory visible.
- Events.EventBus.Publish: covers handlers that subscribe, unsubscribe and raise, not handlers that publish.
- Plain copied fields of process instances (flow and process names, revisions, state, position).
- Orchestration.CancelKeepsSound: states the registry and the log, not the publication to handlers, which is the event bus.
- ProposalRuns.SameAnswers: leaves out the id `_index`, for which `IndexIdMalformed` shows the difference.
