/** The controller that owns a root node and ticks it, once or until it settles. */
module TreeEngine {
  import opened BehaviorTree

  /** How `tick_until_terminal` ends. Its docstring also promises to stop on WAITING_FOR_INPUT;
      the loop does not. */
  datatype Verdict =
    | Settled(status: NodeStatus)
    | Broken(exception: Exception)
    | OutOfTicks
    | BadBudget

  /** The results on which the loop goes on. */
  predicate Unsettled(r: TickResult) {
    r == Returned(Running) || r == Returned(WaitingForInput)
  }

  /** The verdict the first max results of a root ask for, if they settle it. */
  ghost predicate Decides(trace: seq<TickResult>, max: int, verdict: Verdict) {
    match verdict
    case BadBudget => max < 1 && trace == []
    case OutOfTicks => 1 <= max == |trace| && forall r | r in trace :: Unsettled(r)
    case Settled(status) =>
      && 1 <= |trace| <= max && trace[|trace| - 1] == Returned(status) && (status == Success || status == Failure)
      && forall r | r in trace[..|trace| - 1] :: Unsettled(r)
    case Broken(e) =>
      && 1 <= |trace| <= max && trace[|trace| - 1] == Raised(e)
      && forall r | r in trace[..|trace| - 1] :: Unsettled(r)
  }

  /** A stream of results leaves room for one stopping point and one verdict only. */
  lemma DecidedOnce(results: seq<TickResult>, max: int, i: nat, j: nat, v: Verdict, w: Verdict)
    requires i <= |results| && j <= |results|
    requires Decides(results[..i], max, v) && Decides(results[..j], max, w)
    ensures i == j && v == w
  {
    if i < j {
      EarlierIsUnsettled(results, max, i, j, v, w);
    } else if j < i {
      EarlierIsUnsettled(results, max, j, i, w, v);
    } else if i > 0 {
      assert results[..i][i - 1] in results[..i];
    }
  }

  lemma EarlierIsUnsettled(results: seq<TickResult>, max: int, i: nat, j: nat, v: Verdict, w: Verdict)
    requires i < j <= |results|
    requires Decides(results[..j], max, w)
    ensures !Decides(results[..i], max, v)
  {
    if i > 0 {
      UnsettledBeforeTheEnd(results[..j], max, w, i - 1);
      assert results[..j][i - 1] == results[i - 1] == results[..i][i - 1];
      assert v.OutOfTicks? || |results[..i]| == i;
    }
  }

  lemma UnsettledBeforeTheEnd(trace: seq<TickResult>, max: int, w: Verdict, k: nat)
    requires Decides(trace, max, w) && k < |trace| - 1
    ensures Unsettled(trace[k])
  {
    assert trace[k] in trace && trace[..|trace| - 1][k] == trace[k];
  }

  /** The visits are ticks of this node, the k-th of them for the k-th script, with these results. */
  ghost predicate Played(root: Node, scripts: nat -> Script, results: seq<TickResult>, made: seq<Visit>) {
    |made| == |results| && forall k | 0 <= k < |made| ::
      made[k].node == root && made[k].script == scripts(k) && made[k].result == results[k]
  }

  lemma PlayedOneMore(root: Node, scripts: nat -> Script, results: seq<TickResult>, made: seq<Visit>, r: TickResult, visit: Visit)
    requires Played(root, scripts, results, made)
    requires visit.node == root && visit.script == scripts(|made|) && visit.result == r
    ensures Played(root, scripts, results + [r], made + [visit])
  {}

  class Tree {
    const root: Node
    var lastStatus: NodeStatus
    /** The results of every root tick so far. */
    ghost var history: seq<TickResult>

    constructor (root: Node, ghost heap: set<Node>)
      requires Forest(heap) && root in heap && root.kind.Root?
      ensures this.root == root && lastStatus == Failure && history == []
    {
      this.root, lastStatus, history := root, Failure, [];
      new;
      ForestValidates(root, heap);
      var ok := root.ValidateTreeStructure(heap);
      assert ok;
    }

    /** One tick of the whole tree; an exception leaves the last status alone. Errors other than
        NodeExecutionError are wrapped into the engine's base error. */
    method Tick(s: Script, ghost heap: set<Node>) returns (r: TickResult, ghost visit: Visit)
      requires Forest(heap) && root in heap && SetupCounted(heap)
      modifies this`lastStatus, this`history, Subtree(root, heap)`setupDone, Subtree(root, heap)`setups
      ensures SetupCounted(heap) && r == old(TickAnswer(root, s, heap))
      ensures lastStatus == if r.Returned? then r.status else old(lastStatus)
      ensures history == old(history) + [r]
      ensures visit.node == root && visit.script == s && visit.result == r
      ensures (visit, Ready(heap)) == old(Reading(root, s, Ready(heap), heap))
      ensures forall n | n in heap && old(n.setupDone) :: n.setupDone
    {
      r, visit := root.Tick(s, heap);
      if r.Returned? {
        lastStatus := r.status;
      }
      history := history + [r];
    }

    /** Ticks until SUCCESS, FAILURE, an exception or the end of the budget; results and made are
        what these ticks answered and did. */
    method TickUntilTerminal(maxTicks: int, scripts: nat -> Script, ghost heap: set<Node>)
      returns (verdict: Verdict, ghost results: seq<TickResult>, ghost made: seq<Visit>)
      requires Forest(heap) && root in heap && SetupCounted(heap)
      modifies this`lastStatus, this`history, Subtree(root, heap)`setupDone, Subtree(root, heap)`setups
      ensures SetupCounted(heap)
      ensures history == old(history) + results
      ensures Decides(results, maxTicks, verdict)
      ensures Played(root, scripts, results, made)
      ensures verdict.Settled? ==> lastStatus == verdict.status
    {
      results, made := [], [];
      if maxTicks < 1 {
        return BadBudget, results, made;
      }
      for k := 0 to maxTicks
        invariant SetupCounted(heap)
        invariant history == old(history) + results
        invariant |results| == k && Played(root, scripts, results, made)
        invariant forall r | r in results :: Unsettled(r)
      {
        var r, visit := Tick(scripts(k), heap);
        PlayedOneMore(root, scripts, results, made, r, visit);
        results, made := results + [r], made + [visit];
        if r.Raised? {
          return Broken(r.exception), results, made;
        }
        if r.status != Running && r.status != WaitingForInput {
          return Settled(r.status), results, made;
        }
      }
      verdict := OutOfTicks;
    }

    /** Resets every node of the tree, and the last status. */
    method Reset(ghost heap: set<Node>)
      requires Forest(heap) && root in heap && SetupCounted(heap)
      modifies this`lastStatus, Subtree(root, heap)`setupDone, Subtree(root, heap)`setups
      ensures SetupCounted(heap) && lastStatus == Failure
      ensures forall n | n in Subtree(root, heap) :: !n.setupDone
    {
      root.Reset(heap);
      lastStatus := Failure;
    }
  }
}
