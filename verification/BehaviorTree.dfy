/** The mutable node graph of the behavior-tree engine: nodes carry a parent pointer and an
    ordered list of children, and every structural change goes through AddChild.

    Subclasses of the engine's node types supply `_setup` and `_tick_impl`. A Script stands for
    everything one such call may do: which children the two hooks tick and in which order, whether
    the setup hook raises, and how the call ends. Results below hold for every script. */
module BehaviorTree {
  import opened Basics

  datatype Kind = Leaf | Composite | Decorator | Root

  datatype NodeStatus = Success | Failure | Running | WaitingForInput

  /** What AddChild answered: the node was attached, or the reason of the refusal. */
  datatype Attachment =
    | Attached
    | AlreadyHasParent
    | CycleDetected
    | LeafCannotHaveChildren
    | DecoratorAlreadyHasChild

  /** The two families of exceptions the tick wrapper distinguishes. */
  datatype Exception = TreeError | NodeExecutionError | ForeignException

  datatype HookEnd = Completes | Raises(exception: Exception)

  datatype ImplEnd = Yields(status: NodeStatus) | YieldsNonStatus | Fails(exception: Exception)

  datatype Call = Call(child: nat, script: Script)

  datatype Script = Script(setupCalls: seq<Call>, setup: HookEnd, calls: seq<Call>, end: ImplEnd)

  datatype TickResult = Returned(status: NodeStatus) | Raised(exception: Exception)

  /** The public tick lets the engine's own errors through and wraps every other exception. */
  function Translate(e: Exception): Exception {
    if e.ForeignException? then NodeExecutionError else e
  }

  /** One tick as it happened: on which node, for which script, whether the setup hook was due, the
      ticks of children its two hooks made call by call (None where there is no such child), and
      its result. */
  datatype Visit = Visit(
    node: Node, script: Script, first: bool, preparing: seq<Option<Visit>>, acting: seq<Option<Visit>>, result: TickResult)

  function Conclude(end: ImplEnd): TickResult {
    match end
    case Yields(status) => Returned(status)
    case YieldsNonStatus => Raised(NodeExecutionError)
    case Fails(e) => Raised(Translate(e))
  }

  class Node {
    const name: string
    const kind: Kind
    var parent: Node?
    var children: seq<Node>
    var setupDone: bool
    /** Larger than the rank of every node below this one; witnesses that chains are finite. */
    ghost var rank: nat
    /** How many times `_setup` completed since construction or the last reset. */
    ghost var setups: nat

    constructor (name: string, kind: Kind)
      ensures this.name == name && this.kind == kind
      ensures parent == null && children == [] && !setupDone && setups == 0
    {
      this.name, this.kind := name, kind;
      parent, children, setupDone, rank, setups := null, [], false, 0, 0;
    }

    /** The place of one node in a forest over heap. */
    ghost predicate Placed(heap: set<Node>)
      reads this`parent, this`children, this`rank, heap`parent, heap`children, heap`rank
    {
      && (parent != null ==> parent in heap && this in parent.children && rank < parent.rank)
      && (forall c | c in children :: c in heap && c.parent == this)
      && (forall i, j | 0 <= i < j < |children| :: children[i] != children[j])
      && (kind.Leaf? ==> children == [])
      && (kind.Decorator? || kind.Root? ==> |children| <= 1)
    }

    /** The walk of `_add_child` along the ancestor chain: is child this node or above it? The
        ghost line collects the nodes walked. */
    method FindAmongAncestors(child: Node, ghost heap: set<Node>) returns (found: bool, ghost line: set<Node>)
      requires Forest(heap) && this in heap && child in heap
      ensures found <==> Reaches(child, this, heap)
      ensures !found ==> this in line && child !in line && line <= heap
      ensures !found ==> forall a | a in line && a.parent != null :: a.parent in line
    {
      var ancestor: Node? := this;
      line := {};
      ReachesSelf(this, heap);
      while ancestor != null
        invariant ancestor != null ==> ancestor in heap && Reaches(ancestor, this, heap)
        invariant line <= heap && child !in line
        invariant ancestor != null ==> forall a | a in line :: a.rank < ancestor.rank
        invariant forall a | a in line && a.parent != null :: a.parent in line || a.parent == ancestor
        invariant forall x | x in heap && Reaches(x, this, heap) ::
                    x in line || (ancestor != null && Reaches(x, ancestor, heap))
        invariant this == ancestor || this in line
        decreases heap - line
      {
        if ancestor == child {
          return true, line;
        }
        StepUpAll(ancestor, heap);
        if ancestor.parent != null {
          StepDown(ancestor.parent, ancestor, this, heap);
        }
        line := line + {ancestor};
        ancestor := ancestor.parent;
      }
      found := false;
    }

    /** Raises the ranks of an upward-closed line of nodes. */
    static ghost method Lift(line: set<Node>, amount: nat, heap: set<Node>)
      requires Forest(heap) && line <= heap
      requires forall a | a in line && a.parent != null :: a.parent in line
      modifies line`rank
      ensures Forest(heap)
      ensures forall a | a in line :: a.rank == old(a.rank) + amount
    {
      forall a | a in line {
        a.rank := a.rank + amount;
      }
    }

    /** The two assignments that attach an admissible child. */
    method Link(child: Node, ghost heap: set<Node>)
      requires Forest(heap) && this in heap && child in heap
      requires child.parent == null && child.rank < rank
      requires !kind.Leaf? && ((kind.Decorator? || kind.Root?) ==> children == [])
      modifies this`children, child`parent
      ensures Forest(heap)
      ensures children == old(children) + [child] && child.parent == this
    {
      child.parent := this;
      children := children + [child];
      forall n | n in heap ensures n.Placed(heap) {
        assert old(n.Placed(heap));
      }
    }

    /** `_add_child`, with the refusals of leaves and decorators. */
    method AddChild(child: Node, ghost heap: set<Node>) returns (answer: Attachment)
      requires Forest(heap) && this in heap && child in heap
      modifies this`children, child`parent, heap`rank
      ensures Forest(heap)
      ensures answer == old(Verdict(this, child, heap))
      ensures answer.LeafCannotHaveChildren? <==> kind.Leaf?
      ensures answer.DecoratorAlreadyHasChild? <==> (kind.Decorator? || kind.Root?) && old(children) != []
      ensures answer.AlreadyHasParent? <==>
                !kind.Leaf? && (kind.Composite? || old(children) == []) && old(child.parent) != null
      ensures answer.Attached? <==>
                !kind.Leaf? && (kind.Composite? || old(children) == []) && old(child.parent == null && !Reaches(child, this, heap))
      ensures answer.Attached? ==> children == old(children) + [child] && child.parent == this
      ensures !answer.Attached? ==> children == old(children) && child.parent == old(child.parent)
    {
      if kind.Leaf? {
        return LeafCannotHaveChildren;
      }
      if (kind.Decorator? || kind.Root?) && children != [] {
        return DecoratorAlreadyHasChild;
      }
      if child.parent != null {
        return AlreadyHasParent;
      }
      var cycle, line := FindAmongAncestors(child, heap);
      if cycle {
        return CycleDetected;
      }
      Lift(line, child.rank + 1, heap);
      Link(child, heap);
      answer := Attached;
    }

    /** `_validate_recursive`: a depth-first walk over a shared set of visited nodes. On any heap
        whatsoever it accepts exactly when no node is met twice. */
    method ValidateFrom(seen: set<Node>, ghost heap: set<Node>) returns (ok: bool, visited: set<Node>)
      requires Closed(heap) && this in heap && seen <= heap
      ensures ok <==> MeetsOnce(this, seen, heap)
      ensures seen <= visited <= heap
      ensures ok ==> forall x | x in heap :: x in visited <==> x in seen || Reaches(this, x, heap)
      decreases heap - seen
    {
      AtRoot(this, heap);
      if this in seen {
        return false, seen;
      }
      visited := seen + {this};
      var i := 0;
      while i < |children|
        invariant 0 <= i <= |children|
        invariant seen + {this} <= visited <= heap
        invariant MeetsOnceUpTo(this, i, seen, heap)
        invariant forall x | x in heap :: x in visited <==> x in seen || ReachesUpTo(this, i, x, heap)
      {
        ghost var before := visited;
        ok, visited := children[i].ValidateFrom(visited, heap);
        if !ok {
          RepeatBelow(this, i, seen, before, heap);
          return false, visited;
        }
        ExtendPrefix(this, i, seen, before, visited, heap);
        i := i + 1;
      }
      WholePrefix(this, seen, heap);
      ok := true;
    }

    /** `validate_tree_structure`: raises exactly when two different paths lead to one node. */
    method ValidateTreeStructure(ghost heap: set<Node>) returns (ok: bool)
      requires Closed(heap) && this in heap
      ensures ok <==> MeetsOnce(this, {}, heap)
    {
      var visited;
      ok, visited := ValidateFrom({}, heap);
    }

    /** `reset` of the node and everything below it. */
    method Reset(ghost heap: set<Node>)
      requires Forest(heap) && this in heap
      modifies Subtree(this, heap)`setupDone, Subtree(this, heap)`setups
      ensures forall x | x in Subtree(this, heap) :: !x.setupDone && x.setups == 0
      decreases rank, 1
    {
      ReachesSelf(this, heap);
      setupDone, setups := false, 0;
      for i := 0 to |children|
        invariant forall x | x in heap && (x == this || ReachesUpTo(this, i, x, heap)) :: !x.setupDone && x.setups == 0
      {
        ResetChild(i, heap);
        ReachesNext(this, i, heap);
      }
      ReachesWhole(this, heap);
    }

    method ResetChild(i: nat, ghost heap: set<Node>)
      requires Forest(heap) && this in heap && i < |children|
      modifies Subtree(this, heap)`setupDone, Subtree(this, heap)`setups
      ensures forall x | x in heap && Reaches(children[i], x, heap) :: !x.setupDone && x.setups == 0
      ensures forall x | x in heap && !old(x.setupDone) && old(x.setups) == 0 :: !x.setupDone && x.setups == 0
      decreases rank, 0
    {
      SubtreeOfChild(this, i, heap);
      children[i].Reset(heap);
    }

    method CompleteSetup(ghost heap: set<Node>)
      requires this in heap && SetupCounted(heap) && !setupDone
      modifies this`setupDone, this`setups
      ensures setupDone && SetupCounted(heap) && Ready(heap) == old(Ready(heap)) + {this}
    {
      setups := setups + 1;
      setupDone := true;
    }

    /** One call of a hook: a tick of the child it names, if there is one. */
    method TickChild(s: Script, inSetup: bool, k: nat, ghost heap: set<Node>) returns (ghost visit: Option<Visit>)
      requires Forest(heap) && this in heap && SetupCounted(heap) && k < |CallsOf(s, inSetup)|
      modifies Subtree(this, heap)`setupDone, Subtree(this, heap)`setups
      ensures SetupCounted(heap)
      ensures setupDone == old(setupDone) && setups == old(setups)
      ensures forall x | x in heap && old(x.setupDone) :: x.setupDone
      ensures (visit, Ready(heap)) == old(ReadCall(this, s, inSetup, k, Ready(heap), heap))
      decreases s, rank, 0
    {
      var call := CallsOf(s, inSetup)[k];
      visit := None;
      if call.child < |children| {
        SubtreeOfChild(this, call.child, heap);
        var ignored, made := children[call.child].Tick(call.script, heap);
        visit := Some(made);
      }
    }

    /** One hook at work on the children: the setup hook or the tick hook of the script. */
    method TickChildren(s: Script, inSetup: bool, ghost heap: set<Node>) returns (ghost visits: seq<Option<Visit>>)
      requires Forest(heap) && this in heap && SetupCounted(heap)
      modifies Subtree(this, heap)`setupDone, Subtree(this, heap)`setups
      ensures SetupCounted(heap)
      ensures setupDone == old(setupDone) && setups == old(setups)
      ensures forall x | x in heap && old(x.setupDone) :: x.setupDone
      ensures (visits, Ready(heap)) == old(ReadCalls(this, s, inSetup, |CallsOf(s, inSetup)|, Ready(heap), heap))
      decreases s, rank, 1
    {
      visits := [];
      ghost var ready := Ready(heap);
      for k := 0 to |CallsOf(s, inSetup)|
        invariant SetupCounted(heap)
        invariant setupDone == old(setupDone) && setups == old(setups)
        invariant forall x | x in heap && old(x.setupDone) :: x.setupDone
        invariant (visits, Ready(heap)) == ReadCalls(this, s, inSetup, k, ready, heap)
      {
        ghost var visit := TickChild(s, inSetup, k, heap);
        visits := visits + [visit];
      }
    }

    /** The first half of a tick: the setup hook, unless it completed before; its exception if it raises. */
    method Prepare(s: Script, ghost heap: set<Node>) returns (raised: Option<Exception>, ghost visits: seq<Option<Visit>>)
      requires Forest(heap) && this in heap && SetupCounted(heap)
      modifies Subtree(this, heap)`setupDone, Subtree(this, heap)`setups
      ensures SetupCounted(heap)
      ensures raised == if !old(setupDone) && !kind.Root? && s.setup.Raises? then Some(s.setup.exception) else None
      ensures forall x | x in heap && old(x.setupDone) :: x.setupDone
      ensures setupDone <==> raised.None?
      ensures (visits, Ready(heap)) == old(ReadSetup(this, s, Ready(heap), heap))
      decreases s, rank, 2
    {
      ReachesSelf(this, heap);
      visits := [];
      if setupDone {
        return None, visits;
      }
      if !kind.Root? {
        visits := TickChildren(s, true, heap);
        if s.setup.Raises? {
          return Some(s.setup.exception), visits;
        }
      }
      CompleteSetup(heap);
      return None, visits;
    }

    /** The public `tick` for one run of the hooks. RootNode has no hooks of its own: it forwards
        to its only child. The visit tells every tick that took place below. */
    method Tick(s: Script, ghost heap: set<Node>) returns (r: TickResult, ghost visit: Visit)
      requires Forest(heap) && this in heap && SetupCounted(heap)
      modifies Subtree(this, heap)`setupDone, Subtree(this, heap)`setups
      ensures SetupCounted(heap)
      ensures r == visit.result == old(TickAnswer(this, s, heap))
      ensures forall x | x in heap && old(x.setupDone) :: x.setupDone
      ensures setupDone <==> (old(setupDone) || kind.Root? || s.setup.Completes?)
      ensures (visit, Ready(heap)) == old(Reading(this, s, Ready(heap), heap))
      // A node below is set up afterwards exactly if it was before or a completed setup came its way.
      ensures forall x | x in heap :: x.setupDone <==>
                old(x.setupDone) || SetUpBy(x, visit)
      ensures visit.node == this && visit.script == s && visit.first != old(setupDone) && Lawful(visit)
      decreases s, rank, 3
    {
      ReachesSelf(this, heap);
      ghost var ready := Ready(heap);
      VisitIs(this, s, ready, heap);
      FlagsFollow(this, s, ready, heap);
      AnswerIs(this, s, ready, heap);
      var raised, preparing := Prepare(s, heap);
      ghost var acting := [];
      if raised.Some? {
        r := Raised(Translate(raised.value));
      } else {
        r, acting := Act(s, heap);
      }
      visit := Visit(this, s, this !in ready, preparing, acting, r);
      assert (visit, Ready(heap)) == old(Reading(this, s, ready, heap));
    }

    /** The second half of a tick: the hook of the node's own type. */
    method Act(s: Script, ghost heap: set<Node>) returns (r: TickResult, ghost acting: seq<Option<Visit>>)
      requires Forest(heap) && this in heap && SetupCounted(heap)
      modifies Subtree(this, heap)`setupDone, Subtree(this, heap)`setups
      ensures SetupCounted(heap)
      ensures forall x | x in heap && old(x.setupDone) :: x.setupDone
      ensures setupDone == old(setupDone)
      ensures (acting, Ready(heap), r) == old(ReadActing(this, s, Ready(heap), heap))
      decreases s, rank, 2
    {
      if !kind.Root? {
        acting := TickChildren(s, false, heap);
        return Conclude(s.end), acting;
      }
      if children == [] {
        return Raised(TreeError), [];
      }
      SubtreeOfChild(this, 0, heap);
      ghost var below;
      r, below := children[0].Tick(s, heap);
      acting := [Some(below)];
    }
  }

  // ---------------------------------------------------------------------------
  // The depth-first reading of a script
  // ---------------------------------------------------------------------------

  /** The nodes whose setup completed. */
  ghost function Ready(heap: set<Node>): set<Node>
    reads heap`setupDone
  {
    set x | x in heap && x.setupDone
  }

  function CallsOf(s: Script, inSetup: bool): seq<Call> {
    if inSetup then s.setupCalls else s.calls
  }

  /** The visit of n for s when exactly the nodes of ready are set up, and those set up afterwards. */
  ghost function Reading(n: Node, s: Script, ready: set<Node>, heap: set<Node>): (r: (Visit, set<Node>))
    requires Forest(heap) && n in heap && ready <= heap
    reads heap`parent, heap`children, heap`rank
    ensures ready <= r.1 <= heap && r.0.node == n && r.0.script == s
    decreases s, n.rank, 3
  {
    var first := n !in ready;
    var (preparing, prepared) := ReadSetup(n, s, ready, heap);
    if first && !n.kind.Root? && s.setup.Raises? then
      (Visit(n, s, first, preparing, [], Raised(Translate(s.setup.exception))), prepared)
    else
      var (acting, after, result) := ReadActing(n, s, prepared, heap);
      (Visit(n, s, first, preparing, acting, result), after)
  }

  ghost function ReadActing(n: Node, s: Script, ready: set<Node>, heap: set<Node>): (r: (seq<Option<Visit>>, set<Node>, TickResult))
    requires Forest(heap) && n in heap && ready <= heap
    reads heap`parent, heap`children, heap`rank
    ensures ready <= r.1 <= heap
    decreases s, n.rank, 2
  {
    if !n.kind.Root? then
      var (acting, after) := ReadCalls(n, s, false, |s.calls|, ready, heap);
      (acting, after, Conclude(s.end))
    else if n.children == [] then
      ([], ready, Raised(TreeError))
    else
      var c := n.children[0];
      assert n.Placed(heap) && c in n.children && c.Placed(heap);
      var (below, after) := Reading(c, s, ready, heap);
      ([Some(below)], after, below.result)
  }

  ghost function ReadSetup(n: Node, s: Script, ready: set<Node>, heap: set<Node>): (r: (seq<Option<Visit>>, set<Node>))
    requires Forest(heap) && n in heap && ready <= heap
    reads heap`parent, heap`children, heap`rank
    ensures ready <= r.1 <= heap
    decreases s, n.rank, 2
  {
    if n in ready then ([], ready)
    else if n.kind.Root? then ([], ready + {n})
    else
      var (visits, after) := ReadCalls(n, s, true, |s.setupCalls|, ready, heap);
      (visits, if s.setup.Raises? then after else after + {n})
  }

  /** One call of a hook. */
  ghost function ReadCall(n: Node, s: Script, inSetup: bool, k: nat, ready: set<Node>, heap: set<Node>)
    : (r: (Option<Visit>, set<Node>))
    requires Forest(heap) && n in heap && ready <= heap && k < |CallsOf(s, inSetup)|
    reads heap`parent, heap`children, heap`rank
    ensures ready <= r.1 <= heap
    decreases s, n.rank, 0
  {
    var call := CallsOf(s, inSetup)[k];
    if call.child < |n.children| then
      assert n.children[call.child] in n.children && n.Placed(heap) && n.children[call.child].Placed(heap);
      var (visit, after) := Reading(n.children[call.child], call.script, ready, heap);
      (Some(visit), after)
    else (None, ready)
  }

  /** The first k calls of one hook. */
  ghost function ReadCalls(n: Node, s: Script, inSetup: bool, k: nat, ready: set<Node>, heap: set<Node>)
    : (r: (seq<Option<Visit>>, set<Node>))
    requires Forest(heap) && n in heap && ready <= heap && k <= |CallsOf(s, inSetup)|
    reads heap`parent, heap`children, heap`rank
    ensures |r.0| == k && ready <= r.1 <= heap
    decreases s, n.rank, 1, k
  {
    if k == 0 then ([], ready)
    else
      var (before, between) := ReadCalls(n, s, inSetup, k - 1, ready, heap);
      var (visit, after) := ReadCall(n, s, inSetup, k - 1, between, heap);
      (before + [visit], after)
  }

  /** u is v or one of the visits below it. */
  ghost predicate Occurs(u: Visit, v: Visit)
    decreases v
  {
    || u == v
    || (exists k :: 0 <= k < |v.preparing| && v.preparing[k].Some? && Occurs(u, v.preparing[k].value))
    || (exists k :: 0 <= k < |v.acting| && v.acting[k].Some? && Occurs(u, v.acting[k].value))
  }

  /** Some tick at v or below it was of x and brought a setup that completes; a root has no setup
      hook that could raise. */
  ghost predicate SetUpBy(x: Node, v: Visit)
    decreases v
  {
    || (v.node == x && (x.kind.Root? || v.script.setup.Completes?))
    || (exists k :: 0 <= k < |v.preparing| && v.preparing[k].Some? && SetUpBy(x, v.preparing[k].value))
    || (exists k :: 0 <= k < |v.acting| && v.acting[k].Some? && SetUpBy(x, v.acting[k].value))
  }

  ghost predicate SetUpAmong(x: Node, visits: seq<Option<Visit>>) {
    exists k :: 0 <= k < |visits| && visits[k].Some? && SetUpBy(x, visits[k].value)
  }

  /** The calls of one hook in order: the child each names, with the script of the call. */
  lemma {:induction false} CallsAre(n: Node, s: Script, inSetup: bool, k: nat, ready: set<Node>, heap: set<Node>)
    requires Forest(heap) && n in heap && ready <= heap && k <= |CallsOf(s, inSetup)|
    ensures forall i | 0 <= i < k ::
              CallIs(n, CallsOf(s, inSetup)[i], ReadCalls(n, s, inSetup, k, ready, heap).0[i])
  {
    if k > 0 {
      CallsAre(n, s, inSetup, k - 1, ready, heap);
      var (before, between) := ReadCalls(n, s, inSetup, k - 1, ready, heap);
      var (visit, after) := ReadCall(n, s, inSetup, k - 1, between, heap);
      assert CallIs(n, CallsOf(s, inSetup)[k - 1], visit);
      forall i | 0 <= i < k ensures CallIs(n, CallsOf(s, inSetup)[i], (before + [visit])[i]) {}
    }
  }

  ghost predicate CallIs(n: Node, call: Call, visit: Option<Visit>)
    reads n`children
  {
    if call.child < |n.children| then
      visit.Some? && visit.value.node == n.children[call.child] && visit.value.script == call.script
    else visit.None?
  }

  /** The laws of a single visit: a hook that runs makes each of its calls a tick of the child named,
      with the script of the call and in the order of the calls; a root forwards the script; a
      failing setup ends the visit. */
  ghost predicate Lawful(v: Visit)
    reads v.node`children
  {
    var n, s := v.node, v.script;
    && (n.kind.Root? ==> v.preparing == [])
    && (n.kind.Root? && n.children == [] ==> v.acting == [] && v.result == Raised(TreeError))
    && (n.kind.Root? && n.children != [] ==>
          |v.acting| == 1 && v.acting[0].Some? && v.acting[0].value.node == n.children[0]
          && v.acting[0].value.script == s && v.result == v.acting[0].value.result)
    && (!n.kind.Root? ==> Made(n, if v.first then s.setupCalls else [], v.preparing))
    && (!n.kind.Root? && v.first && s.setup.Raises? ==>
          v.acting == []
          && v.result == Raised(if s.setup.exception.ForeignException? then NodeExecutionError else s.setup.exception))
    && (!n.kind.Root? && !(v.first && s.setup.Raises?) ==>
          && Made(n, s.calls, v.acting)
          && v.result == match s.end
                         case Yields(status) => Returned(status)
                         case YieldsNonStatus => Raised(NodeExecutionError)
                         case Fails(e) => Raised(if e.ForeignException? then NodeExecutionError else e))
  }

  /** The visits are ticks of the children the calls name, with their scripts, one per call. */
  ghost predicate Made(n: Node, calls: seq<Call>, visits: seq<Option<Visit>>)
    reads n`children
  {
    |visits| == |calls| && forall k | 0 <= k < |calls| :: CallIs(n, calls[k], visits[k])
  }

  /** What one visit is, read off the script alone. */
  lemma VisitIs(n: Node, s: Script, ready: set<Node>, heap: set<Node>)
    requires Forest(heap) && n in heap && ready <= heap
    ensures var v := Reading(n, s, ready, heap).0; v.node == n && v.script == s && (v.first <==> n !in ready) && Lawful(v)
  {
    CallsAre(n, s, true, |s.setupCalls|, ready, heap);
    var prepared := ReadSetup(n, s, ready, heap).1;
    CallsAre(n, s, false, |s.calls|, prepared, heap);
    if n.kind.Root? && n.children != [] {
      assert n.children[0] in n.children && n.Placed(heap) && n.children[0].Placed(heap);
      var below := Reading(n.children[0], s, prepared, heap).0;
      assert below.node == n.children[0] && below.script == s;
    }
  }

  /** Every tick that takes place below a tick: each hook that runs makes its calls ticks of the
      children they name, in order and with the scripts of the calls; a root forwards the script;
      a failing setup ends the visit; and setup that completed before is not run again. */
  lemma EveryVisit(n: Node, s: Script, ready: set<Node>, heap: set<Node>, u: Visit)
    requires Forest(heap) && n in heap && ready <= heap && Occurs(u, Reading(n, s, ready, heap).0)
    ensures u.node in heap && (u.node in ready ==> !u.first)
    ensures u.node.kind.Root? || !u.first ==> u.preparing == []
    ensures u.node.kind.Root? && u.node.children == [] ==> u.acting == [] && u.result == Raised(TreeError)
    ensures u.node.kind.Root? && u.node.children != [] ==>
              |u.acting| == 1 && u.acting[0].Some? && u.acting[0].value.node == u.node.children[0]
              && u.acting[0].value.script == u.script && u.result == u.acting[0].value.result
    ensures !u.node.kind.Root? && u.first ==>
              |u.preparing| == |u.script.setupCalls| && forall k | 0 <= k < |u.preparing| ::
                var call := u.script.setupCalls[k];
                if call.child < |u.node.children|
                then u.preparing[k].Some? && u.preparing[k].value.node == u.node.children[call.child]
                     && u.preparing[k].value.script == call.script
                else u.preparing[k].None?
    ensures !u.node.kind.Root? && u.first && u.script.setup.Raises? ==>
              var e := u.script.setup.exception;
              u.acting == [] && u.result == Raised(if e == ForeignException then NodeExecutionError else e)
    ensures !u.node.kind.Root? && !(u.first && u.script.setup.Raises?) ==>
              |u.acting| == |u.script.calls| && forall k | 0 <= k < |u.acting| ::
                var call := u.script.calls[k];
                if call.child < |u.node.children|
                then u.acting[k].Some? && u.acting[k].value.node == u.node.children[call.child]
                     && u.acting[k].value.script == call.script
                else u.acting[k].None?
    ensures !u.node.kind.Root? && !(u.first && u.script.setup.Raises?) ==>
              u.result == match u.script.end
                          case Yields(status) => Returned(status)
                          case YieldsNonStatus => Raised(NodeExecutionError)
                          case Fails(e) => Raised(if e == ForeignException then NodeExecutionError else e)
  {
    EveryLawful(n, s, ready, heap, u);
  }

  lemma {:induction false} EveryLawful(n: Node, s: Script, ready: set<Node>, heap: set<Node>, u: Visit)
    requires Forest(heap) && n in heap && ready <= heap && Occurs(u, Reading(n, s, ready, heap).0)
    ensures Lawful(u) && u.node in heap && (u.node in ready ==> !u.first)
    decreases s, n.rank, 3
  {
    VisitIs(n, s, ready, heap);
    var v := Reading(n, s, ready, heap).0;
    var prepared := ReadSetup(n, s, ready, heap).1;
    if u == v {
      return;
    }
    if k :| 0 <= k < |v.preparing| && v.preparing[k].Some? && Occurs(u, v.preparing[k].value) {
      EveryLawfulAmong(n, s, true, |s.setupCalls|, ready, heap, u, k);
    } else {
      var k :| 0 <= k < |v.acting| && v.acting[k].Some? && Occurs(u, v.acting[k].value);
      if n.kind.Root? {
        assert n.children[0] in n.children && n.Placed(heap) && n.children[0].Placed(heap);
        EveryLawful(n.children[0], s, prepared, heap, u);
      } else {
        EveryLawfulAmong(n, s, false, |s.calls|, prepared, heap, u, k);
      }
    }
  }

  lemma {:induction false} EveryLawfulAmong(n: Node, s: Script, inSetup: bool, k: nat, ready: set<Node>, heap: set<Node>,
                                            u: Visit, i: nat)
    requires Forest(heap) && n in heap && ready <= heap && k <= |CallsOf(s, inSetup)| && i < k
    requires var v := ReadCalls(n, s, inSetup, k, ready, heap).0[i]; v.Some? && Occurs(u, v.value)
    ensures Lawful(u) && u.node in heap && (u.node in ready ==> !u.first)
    decreases s, n.rank, 0, k
  {
    if i < k - 1 {
      EveryLawfulAmong(n, s, inSetup, k - 1, ready, heap, u, i);
    } else {
      var call := CallsOf(s, inSetup)[k - 1];
      var between := ReadCalls(n, s, inSetup, k - 1, ready, heap).1;
      assert ReadCall(n, s, inSetup, k - 1, between, heap).0.Some?;
      assert n.children[call.child] in n.children && n.Placed(heap) && n.children[call.child].Placed(heap);
      EveryLawful(n.children[call.child], call.script, between, heap, u);
    }
  }

  lemma {:induction false} AnswerIs(n: Node, s: Script, ready: set<Node>, heap: set<Node>)
    requires Forest(heap) && n in heap && ready <= heap
    requires forall x | x in heap && x.rank <= n.rank :: x in ready <==> x.setupDone
    ensures Reading(n, s, ready, heap).0.result == TickAnswer(n, s, heap)
    decreases n.rank
  {
    if n.kind.Root? && n.children != [] {
      assert n.Placed(heap) && n.children[0] in n.children && n.children[0].Placed(heap);
      AnswerIs(n.children[0], s, ReadSetup(n, s, ready, heap).1, heap);
    }
  }

  /** The flags after a tick: those before it, and those of the nodes that a completing setup reached. */
  lemma {:induction false} FlagsFollow(n: Node, s: Script, ready: set<Node>, heap: set<Node>)
    requires Forest(heap) && n in heap && ready <= heap
    ensures forall x | x in heap :: x in Reading(n, s, ready, heap).1 <==> x in ready || SetUpBy(x, Reading(n, s, ready, heap).0)
    decreases s, n.rank, 3
  {
    var v := Reading(n, s, ready, heap).0;
    var prepared := ReadSetup(n, s, ready, heap).1;
    if n !in ready && !n.kind.Root? {
      FlagsFollowCalls(n, s, true, |s.setupCalls|, ready, heap);
    }
    if n.kind.Root? && n.children != [] {
      assert n.children[0] in n.children && n.Placed(heap) && n.children[0].Placed(heap);
      FlagsFollow(n.children[0], s, prepared, heap);
      var (below, after) := Reading(n.children[0], s, prepared, heap);
      assert ReadActing(n, s, prepared, heap) == ([Some(below)], after, below.result);
      assert v.acting[0] == Some(below);
    } else if !n.kind.Root? {
      FlagsFollowCalls(n, s, false, |s.calls|, prepared, heap);
    }
  }

  lemma SetUpAmongOneMore(x: Node, visits: seq<Option<Visit>>, visit: Option<Visit>)
    ensures SetUpAmong(x, visits + [visit]) <==> SetUpAmong(x, visits) || (visit.Some? && SetUpBy(x, visit.value))
  {
    var all := visits + [visit];
    forall k | 0 <= k < |visits| ensures all[k] == visits[k] {}
    assert all[|visits|] == visit;
  }

  lemma {:induction false} FlagsFollowCalls(n: Node, s: Script, inSetup: bool, k: nat, ready: set<Node>, heap: set<Node>)
    requires Forest(heap) && n in heap && ready <= heap && k <= |CallsOf(s, inSetup)|
    ensures forall x | x in heap :: x in ReadCalls(n, s, inSetup, k, ready, heap).1 <==>
              x in ready || SetUpAmong(x, ReadCalls(n, s, inSetup, k, ready, heap).0)
    decreases s, n.rank, 0, k
  {
    if k > 0 {
      var call := CallsOf(s, inSetup)[k - 1];
      var (before, between) := ReadCalls(n, s, inSetup, k - 1, ready, heap);
      FlagsFollowCalls(n, s, inSetup, k - 1, ready, heap);
      var (visit, after) := ReadCall(n, s, inSetup, k - 1, between, heap);
      if call.child < |n.children| {
        assert n.children[call.child] in n.children && n.Placed(heap) && n.children[call.child].Placed(heap);
        FlagsFollow(n.children[call.child], call.script, between, heap);
      }
      forall x | x in heap ensures SetUpAmong(x, before + [visit]) <==>
                                     SetUpAmong(x, before) || (visit.Some? && SetUpBy(x, visit.value))
      {
        SetUpAmongOneMore(x, before, visit);
      }
    }
  }

  // ---------------------------------------------------------------------------
  // Forests
  // ---------------------------------------------------------------------------

  ghost predicate Closed(heap: set<Node>)
    reads heap`children
  {
    forall n, c | n in heap && c in n.children :: c in heap
  }

  /** Every node sits under exactly its parent, siblings are distinct, ranks grow upwards. */
  ghost predicate Forest(heap: set<Node>)
    reads heap`parent, heap`children, heap`rank
  {
    Closed(heap) && forall n | n in heap :: n.Placed(heap)
  }

  ghost predicate SetupCounted(heap: set<Node>)
    reads heap`setups, heap`setupDone
  {
    forall n | n in heap :: n.setups == if n.setupDone then 1 else 0
  }

  /** The node at the end of a path of child positions, if the path exists. */
  ghost function At(n: Node, path: seq<nat>, heap: set<Node>): (r: Option<Node>)
    requires Closed(heap) && n in heap
    reads heap`children
    ensures r.Some? ==> r.value in heap
    decreases |path|
  {
    if path == [] then Some(n)
    else if path[0] < |n.children| then At(n.children[path[0]], path[1..], heap)
    else None
  }

  ghost predicate Reaches(n: Node, x: Node, heap: set<Node>)
    requires Closed(heap) && n in heap
    reads heap`children
  {
    exists path :: At(n, path, heap) == Some(x)
  }

  ghost function Subtree(n: Node, heap: set<Node>): (r: set<Node>)
    requires Closed(heap) && n in heap
    reads heap`children
    ensures r <= heap
  {
    set x | x in heap && Reaches(n, x, heap)
  }

  /** Why AddChild refuses, or Attached. A cycle is a parent lying below its prospective child. */
  ghost function Verdict(n: Node, child: Node, heap: set<Node>): Attachment
    requires Forest(heap) && n in heap && child in heap
    reads heap
  {
    if n.kind.Leaf? then LeafCannotHaveChildren
    else if (n.kind.Decorator? || n.kind.Root?) && n.children != [] then DecoratorAlreadyHasChild
    else if child.parent != null then AlreadyHasParent
    else if Reaches(child, n, heap) then CycleDetected
    else Attached
  }

  /** No path from n meets a node of seen, and different paths meet different nodes. */
  ghost predicate MeetsOnce(n: Node, seen: set<Node>, heap: set<Node>)
    requires Closed(heap) && n in heap
    reads heap`children
  {
    && (forall p | At(n, p, heap).Some? :: At(n, p, heap).value !in seen)
    && (forall p, q | At(n, p, heap).Some? && At(n, p, heap) == At(n, q, heap) :: p == q)
  }

  ghost predicate Within(path: seq<nat>, i: nat) {
    path == [] || path[0] < i
  }

  ghost predicate MeetsOnceUpTo(n: Node, i: nat, seen: set<Node>, heap: set<Node>)
    requires Closed(heap) && n in heap
    reads heap`children
  {
    && (forall p | Within(p, i) && At(n, p, heap).Some? :: At(n, p, heap).value !in seen)
    && (forall p, q | Within(p, i) && Within(q, i) && At(n, p, heap).Some? && At(n, p, heap) == At(n, q, heap) :: p == q)
  }

  ghost predicate ReachesUpTo(n: Node, i: nat, x: Node, heap: set<Node>)
    requires Closed(heap) && n in heap
    reads heap`children
  {
    exists p :: Within(p, i) && At(n, p, heap) == Some(x)
  }

  /** The node that acts when n is ticked: roots forward to their child. */
  ghost function Actor(n: Node, heap: set<Node>): (r: Node)
    requires Forest(heap) && n in heap
    reads heap`parent, heap`children, heap`rank
    ensures r in heap && r.rank <= n.rank && (n.kind.Root? && n.children != [] ==> r.rank < n.rank)
    decreases n.rank
  {
    if n.kind.Root? && n.children != [] then Actor(n.children[0], heap) else n
  }

  /** What a tick answers, read off the script and the acting node's setup flag before it. */
  ghost function TickAnswer(n: Node, s: Script, heap: set<Node>): TickResult
    requires Forest(heap) && n in heap
    reads heap`parent, heap`children, heap`rank, heap`setupDone
  {
    var actor := Actor(n, heap);
    if actor.kind.Root? then Raised(TreeError)
    else if !actor.setupDone && s.setup.Raises? then Raised(Translate(s.setup.exception))
    else Conclude(s.end)
  }

  // ---------------------------------------------------------------------------
  // Paths
  // ---------------------------------------------------------------------------

  lemma AtRoot(n: Node, heap: set<Node>)
    requires Closed(heap) && n in heap
    ensures At(n, [], heap) == Some(n)
  {}

  lemma ReachesSelf(n: Node, heap: set<Node>)
    requires Closed(heap) && n in heap
    ensures Reaches(n, n, heap)
  {
    AtRoot(n, heap);
  }

  lemma {:induction false} AtAppend(n: Node, p: seq<nat>, i: nat, heap: set<Node>)
    requires Closed(heap) && n in heap
    ensures At(n, p + [i], heap) ==
            match At(n, p, heap)
            case None => None
            case Some(m) => if i < |m.children| then Some(m.children[i]) else None
    decreases |p|
  {
    if p == [] {
      assert p + [i] == [i];
      if i < |n.children| {
        AtRoot(n.children[i], heap);
      }
    } else if p[0] < |n.children| {
      assert (p + [i])[1..] == p[1..] + [i];
      AtAppend(n.children[p[0]], p[1..], i, heap);
    }
  }

  lemma AtPrepend(n: Node, i: nat, p: seq<nat>, heap: set<Node>)
    requires Closed(heap) && n in heap && i < |n.children|
    ensures At(n, [i] + p, heap) == At(n.children[i], p, heap)
  {
    assert ([i] + p)[1..] == p;
  }

  /** Walking down never leaves the chain of ranks. */
  lemma {:induction false} RankDrop(n: Node, p: seq<nat>, heap: set<Node>)
    requires Forest(heap) && n in heap && At(n, p, heap).Some?
    ensures At(n, p, heap).value.rank + |p| <= n.rank
    decreases |p|
  {
    if p != [] {
      RankDrop(n.children[p[0]], p[1..], heap);
    }
  }

  /** The last step of a path goes through the parent pointer of its end. */
  lemma LastStep(n: Node, p: seq<nat>, heap: set<Node>)
    requires Forest(heap) && n in heap && p != [] && At(n, p, heap).Some?
    ensures var x, q := At(n, p, heap).value, p[..|p| - 1];
            x.parent != null && At(n, q, heap).Some? && At(n, q, heap).value == x.parent
            && p[|p| - 1] < |x.parent.children| && x.parent.children[p[|p| - 1]] == x
  {
    var q := p[..|p| - 1];
    assert p == q + [p[|p| - 1]];
    AtAppend(n, q, p[|p| - 1], heap);
  }

  lemma StepUpAll(y: Node, heap: set<Node>)
    requires Forest(heap) && y in heap
    ensures forall x | x in heap && Reaches(x, y, heap) ::
              x == y || (y.parent != null && Reaches(x, y.parent, heap))
  {
    forall x | x in heap && Reaches(x, y, heap) && x != y
      ensures y.parent != null && Reaches(x, y.parent, heap)
    {
      var p :| At(x, p, heap) == Some(y);
      LastStep(x, p, heap);
    }
  }

  lemma StepDown(p: Node, c: Node, x: Node, heap: set<Node>)
    requires Closed(heap) && p in heap && c in p.children && Reaches(c, x, heap)
    ensures Reaches(p, x, heap)
  {
    var path :| At(c, path, heap) == Some(x);
    var i :| 0 <= i < |p.children| && p.children[i] == c;
    AtPrepend(p, i, path, heap);
  }

  lemma SubtreeOfChild(n: Node, i: nat, heap: set<Node>)
    requires Forest(heap) && n in heap && i < |n.children|
    ensures Subtree(n.children[i], heap) <= Subtree(n, heap) && n !in Subtree(n.children[i], heap)
    ensures n.children[i].rank < n.rank
  {
    var c := n.children[i];
    assert c in n.children && n.Placed(heap) && c.Placed(heap);
    if p :| At(c, p, heap) == Some(n) {
      RankDrop(c, p, heap);
    }
    forall x | x in Subtree(n.children[i], heap) ensures x in Subtree(n, heap) {
      StepDown(n, n.children[i], x, heap);
    }
  }

  lemma ReachesNext(n: Node, i: nat, heap: set<Node>)
    requires Closed(heap) && n in heap && i < |n.children|
    ensures forall x | x in heap ::
              ReachesUpTo(n, i + 1, x, heap) <==> ReachesUpTo(n, i, x, heap) || Reaches(n.children[i], x, heap)
  {
    forall x | x in heap
      ensures ReachesUpTo(n, i + 1, x, heap) <==> ReachesUpTo(n, i, x, heap) || Reaches(n.children[i], x, heap)
    {
      if ReachesUpTo(n, i + 1, x, heap) {
        var p :| Within(p, i + 1) && At(n, p, heap) == Some(x);
        if !Within(p, i) {
          assert At(n.children[i], p[1..], heap) == Some(x);
        }
      }
      if ReachesUpTo(n, i, x, heap) {
        var p :| Within(p, i) && At(n, p, heap) == Some(x);
        assert Within(p, i + 1);
      }
      if Reaches(n.children[i], x, heap) {
        var p :| At(n.children[i], p, heap) == Some(x);
        AtPrepend(n, i, p, heap);
        assert Within([i] + p, i + 1);
      }
    }
  }

  lemma ReachesWhole(n: Node, heap: set<Node>)
    requires Closed(heap) && n in heap
    ensures forall x | x in heap :: ReachesUpTo(n, |n.children|, x, heap) <==> Reaches(n, x, heap)
  {
    forall x | x in heap && Reaches(n, x, heap) ensures ReachesUpTo(n, |n.children|, x, heap) {
      var p :| At(n, p, heap) == Some(x);
      assert Within(p, |n.children|);
    }
  }

  // ---------------------------------------------------------------------------
  // The validation walk
  // ---------------------------------------------------------------------------

  lemma RepeatBelow(n: Node, i: nat, seen: set<Node>, before: set<Node>, heap: set<Node>)
    requires Closed(heap) && n in heap && i < |n.children|
    requires forall x | x in heap :: x in before <==> x in seen || ReachesUpTo(n, i, x, heap)
    requires !MeetsOnce(n.children[i], before, heap)
    ensures !MeetsOnce(n, seen, heap)
  {
    var c := n.children[i];
    if MeetsOnce(n, seen, heap) {
      forall p | At(c, p, heap).Some? ensures At(c, p, heap).value !in before {
        AtPrepend(n, i, p, heap);
        assert !Within([i] + p, i);
      }
      forall p, q | At(c, p, heap).Some? && At(c, p, heap) == At(c, q, heap) ensures p == q {
        AtPrepend(n, i, p, heap);
        AtPrepend(n, i, q, heap);
        assert ([i] + p)[1..] == ([i] + q)[1..];
      }
    }
  }

  lemma ExtendPrefix(n: Node, i: nat, seen: set<Node>, before: set<Node>, after: set<Node>, heap: set<Node>)
    requires Closed(heap) && n in heap && i < |n.children|
    requires MeetsOnceUpTo(n, i, seen, heap)
    requires seen <= before
    requires forall x | x in heap :: x in before <==> x in seen || ReachesUpTo(n, i, x, heap)
    requires MeetsOnce(n.children[i], before, heap)
    requires forall x | x in heap :: x in after <==> x in before || Reaches(n.children[i], x, heap)
    ensures MeetsOnceUpTo(n, i + 1, seen, heap)
    ensures forall x | x in heap :: x in after <==> x in seen || ReachesUpTo(n, i + 1, x, heap)
  {
    ReachesNext(n, i, heap);
    forall p | Within(p, i + 1) && At(n, p, heap).Some? ensures At(n, p, heap).value !in seen {
      if !Within(p, i) {
        assert At(n, p, heap) == At(n.children[i], p[1..], heap);
      }
    }
    forall p, q | Within(p, i + 1) && Within(q, i + 1) && At(n, p, heap).Some? && At(n, p, heap) == At(n, q, heap)
      ensures p == q
    {
      SamePath(n, i, seen, before, p, q, heap);
    }
  }

  lemma SamePath(n: Node, i: nat, seen: set<Node>, before: set<Node>, p: seq<nat>, q: seq<nat>, heap: set<Node>)
    requires Closed(heap) && n in heap && i < |n.children|
    requires MeetsOnceUpTo(n, i, seen, heap)
    requires forall x | x in heap :: x in before <==> x in seen || ReachesUpTo(n, i, x, heap)
    requires MeetsOnce(n.children[i], before, heap)
    requires Within(p, i + 1) && Within(q, i + 1) && At(n, p, heap).Some? && At(n, q, heap).Some?
    ensures At(n, p, heap) == At(n, q, heap) ==> p == q
  {
    if !Within(p, i) && !Within(q, i) {
      assert At(n.children[i], p[1..], heap) == At(n, p, heap) && At(n.children[i], q[1..], heap) == At(n, q, heap);
      assert p == [i] + p[1..] && q == [i] + q[1..];
    } else if !Within(q, i) {
      NewNode(n, i, seen, before, p, q, heap);
    } else if !Within(p, i) {
      NewNode(n, i, seen, before, q, p, heap);
    }
  }

  /** What the next child reaches was not reached through the children before it. */
  lemma NewNode(n: Node, i: nat, seen: set<Node>, before: set<Node>, p: seq<nat>, q: seq<nat>, heap: set<Node>)
    requires Closed(heap) && n in heap && i < |n.children|
    requires forall x | x in heap :: x in before <==> x in seen || ReachesUpTo(n, i, x, heap)
    requires MeetsOnce(n.children[i], before, heap)
    requires Within(p, i) && Within(q, i + 1) && !Within(q, i) && At(n, p, heap).Some? && At(n, q, heap).Some?
    ensures At(n, p, heap) != At(n, q, heap)
  {
    assert ReachesUpTo(n, i, At(n, p, heap).value, heap);
    assert At(n, q, heap) == At(n.children[i], q[1..], heap);
  }

  lemma WholePrefix(n: Node, seen: set<Node>, heap: set<Node>)
    requires Closed(heap) && n in heap
    requires MeetsOnceUpTo(n, |n.children|, seen, heap)
    ensures MeetsOnce(n, seen, heap)
    ensures forall x | x in heap :: ReachesUpTo(n, |n.children|, x, heap) <==> Reaches(n, x, heap)
  {
    ReachesWhole(n, heap);
    assert forall p | At(n, p, heap).Some? :: Within(p, |n.children|);
  }

  /** In a forest a node is met by at most one path, whatever the start. */
  lemma {:induction false} UniquePath(n: Node, p: seq<nat>, q: seq<nat>, heap: set<Node>)
    requires Forest(heap) && n in heap
    requires At(n, p, heap).Some? && At(n, p, heap) == At(n, q, heap)
    ensures p == q
    decreases |p|
  {
    RankDrop(n, p, heap);
    RankDrop(n, q, heap);
    if p != [] && q != [] {
      LastStep(n, p, heap);
      LastStep(n, q, heap);
      UniquePath(n, p[..|p| - 1], q[..|q| - 1], heap);
      assert p == p[..|p| - 1] + [p[|p| - 1]] && q == q[..|q| - 1] + [q[|q| - 1]];
    }
  }

  /** `validate_tree_structure` never raises on a tree built through the API. */
  lemma ForestValidates(n: Node, heap: set<Node>)
    requires Forest(heap) && n in heap
    ensures MeetsOnce(n, {}, heap)
  {
    forall p, q | At(n, p, heap).Some? && At(n, p, heap) == At(n, q, heap) ensures p == q {
      UniquePath(n, p, q, heap);
    }
  }

  /** An attached node occurs exactly once in the whole heap, and that is under its parent. */
  lemma AttachedExactlyOnce(n: Node, heap: set<Node>)
    requires Forest(heap) && n in heap
    ensures n.parent != null <==> exists p, i :: p in heap && 0 <= i < |p.children| && p.children[i] == n
    ensures forall p, q, i, j | p in heap && q in heap && 0 <= i < |p.children| && 0 <= j < |q.children|
              && p.children[i] == n && q.children[j] == n :: p == q == n.parent && i == j
  {
    if n.parent != null {
      var p: Node := n.parent;
      var i :| 0 <= i < |p.children| && p.children[i] == n;
      assert p in heap && 0 <= i < |p.children| && p.children[i] == n;
    }
  }

  /** Subtrees of different nodes are nested or disjoint. */
  lemma SubtreesNestOrSeparate(a: Node, b: Node, heap: set<Node>)
    requires Forest(heap) && a in heap && b in heap && Subtree(a, heap) * Subtree(b, heap) != {}
    ensures a in Subtree(b, heap) || b in Subtree(a, heap)
  {
    var x :| x in Subtree(a, heap) * Subtree(b, heap);
    var p :| At(a, p, heap) == Some(x);
    var q :| At(b, q, heap) == Some(x);
    CommonEnd(a, p, b, q, heap);
  }

  lemma {:induction false} CommonEnd(a: Node, p: seq<nat>, b: Node, q: seq<nat>, heap: set<Node>)
    requires Forest(heap) && a in heap && b in heap
    requires At(a, p, heap).Some? && At(a, p, heap) == At(b, q, heap)
    ensures Reaches(a, b, heap) || Reaches(b, a, heap)
    decreases |p|
  {
    if p != [] && q != [] {
      LastStep(a, p, heap);
      LastStep(b, q, heap);
      CommonEnd(a, p[..|p| - 1], b, q[..|q| - 1], heap);
    }
  }
}
