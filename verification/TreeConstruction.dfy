/** Constructors of the node types, and arbitrary runs of the whole tree API. */
module TreeConstruction {
  import opened BehaviorTree

  /** A refused constructor still leaves its half-built node behind: the children adopted before
      the refusal keep pointing at it. */
  datatype Creation =
    | Created(node: Node)
    | EmptyName
    | Refused(reason: Attachment, partial: Node)
    | InvalidStructure(root: Node)

  ghost function Nodes(nodes: seq<Node>): set<Node> {
    set n | n in nodes
  }

  /** Children a fresh node can adopt one after the other. */
  ghost predicate Adoptable(kids: seq<Node>)
    reads Nodes(kids)`parent
  {
    && (forall k | k in kids :: k.parent == null)
    && (forall i, j | 0 <= i < j < |kids| :: kids[i] != kids[j])
  }

  predicate Fits(kind: Kind, kids: seq<Node>) {
    match kind
    case Leaf => kids == []
    case Composite => true
    case Decorator => |kids| <= 1
    case Root => |kids| <= 1
  }

  /** The attaching loop of the constructors: stops at the first child that is refused. */
  method AttachAll(node: Node, kids: seq<Node>, ghost heap: set<Node>) returns (count: nat, reason: Attachment)
    requires Forest(heap) && node in heap && (forall k | k in kids :: k in heap) && node !in kids
    requires node.parent == null && node.children == [] && Fits(node.kind, kids)
    modifies node`children, Nodes(kids)`parent, heap`rank
    ensures Forest(heap)
    ensures count <= |kids| && old(Adoptable(kids[..count])) && node.children == kids[..count]
    ensures count < |kids| ==> !old(Adoptable(kids[..count + 1])) && reason == AlreadyHasParent
    ensures count == |kids| <==> old(Adoptable(kids))
    ensures forall n | n in heap :: n.parent == if n in kids[..count] then node else old(n.parent)
  {
    count, reason := 0, Attached;
    while count < |kids|
      invariant count <= |kids| && Forest(heap) && node.children == kids[..count]
      invariant old(Adoptable(kids[..count]))
      invariant forall n | n in heap :: n.parent == if n in kids[..count] then node else old(n.parent)
    {
      var kid := kids[count];
      assert kids[..count + 1] == kids[..count] + [kid];
      StepUpAll(node, heap);
      assert kid in kids && !Reaches(kid, node, heap);
      assert kids[..count + 1][count] == kid && kid in kids[..count + 1];
      if kid in kids[..count] {
        var i :| 0 <= i < count && kids[i] == kid;
        assert kids[..count + 1][i] == kid;
      }
      reason := node.AddChild(kid, heap);
      if !reason.Attached? {
        return;
      }
      count := count + 1;
    }
    assert kids[..count] == kids;
  }

  /** The constructors of leaves, composites, decorators and roots: attach the given children in
      order; a root then validates the tree it heads. */
  method Make(kind: Kind, name: string, kids: seq<Node>, ghost heap: set<Node>) returns (r: Creation)
    requires Forest(heap) && (forall k | k in kids :: k in heap) && Fits(kind, kids)
    modifies Nodes(kids)`parent, heap`rank
    ensures r.EmptyName? <==> name == ""
    ensures r.Created? <==> name != "" && old(Adoptable(kids))
    ensures !r.InvalidStructure?
    ensures r.EmptyName? ==> Forest(heap) && forall n | n in heap :: n.parent == old(n.parent)
    ensures r.Created? ==> Built(r.node, kind, name, kids, heap) && Adopted(r.node, kids, heap)
    ensures r.Refused? ==> r.reason == AlreadyHasParent
    ensures r.Refused? ==>
              var k := |r.partial.children|;
              && k < |kids| && old(Adoptable(kids[..k]) && !Adoptable(kids[..k + 1]))
              && Built(r.partial, kind, name, kids[..k], heap) && Adopted(r.partial, kids[..k], heap)
  {
    if name == "" {
      return EmptyName;
    }
    var node, count, reason := Assemble(kind, name, kids, heap);
    assert kids[..|kids|] == kids;
    if count < |kids| {
      return Refused(reason, node);
    }
    if kind.Root? {
      var ok := ValidateRoot(node, heap + {node});
      if !ok {
        return InvalidStructure(node);
      }
    }
    r := Created(node);
  }

  method Assemble(kind: Kind, name: string, kids: seq<Node>, ghost heap: set<Node>)
    returns (node: Node, count: nat, reason: Attachment)
    requires Forest(heap) && (forall k | k in kids :: k in heap) && Fits(kind, kids) && name != ""
    modifies Nodes(kids)`parent, heap`rank
    ensures count <= |kids| && old(Adoptable(kids[..count]))
    ensures count < |kids| ==> !old(Adoptable(kids[..count + 1])) && reason == AlreadyHasParent
    ensures count == |kids| <==> old(Adoptable(kids))
    ensures Built(node, kind, name, kids[..count], heap) && Adopted(node, kids[..count], heap)
  {
    node := new Node(name, kind);
    count, reason := AttachAll(node, kids, heap + {node});
  }

  method ValidateRoot(root: Node, ghost heap: set<Node>) returns (ok: bool)
    requires Forest(heap) && root in heap
    ensures ok
  {
    ForestValidates(root, heap);
    ok := root.ValidateTreeStructure(heap);
  }

  twostate predicate Built(new node: Node, kind: Kind, name: string, kids: seq<Node>, heap: set<Node>)
    reads node, heap`parent, heap`children, heap`rank
  {
    && fresh(node) && node.kind == kind && node.name == name
    && node.children == kids && node.parent == null && !node.setupDone && node.setups == 0
    && Forest(heap + {node})
  }

  /** The new node became the parent of kids and of nothing else. */
  twostate predicate Adopted(new node: Node, kids: seq<Node>, heap: set<Node>)
    reads heap`parent
  {
    forall n | n in heap :: n.parent == if n in kids then node else old(n.parent)
  }

  // ---------------------------------------------------------------------------
  // Runs
  // ---------------------------------------------------------------------------

  /** One call of the API; nodes are named by their position in the list of nodes so far. */
  datatype Op =
    | Construct(kind: Kind, name: string, kids: seq<nat>)
    | Add(parent: nat, child: nat)
    | TickNode(node: nat, script: Script)
    | ResetNode(node: nat)

  function Pick(nodes: seq<Node>, ids: seq<nat>): (r: seq<Node>)
    requires forall i | 0 <= i < |ids| :: ids[i] < |nodes|
    ensures |r| == |ids| && forall k | 0 <= k < |r| :: r[k] == nodes[ids[k]]
  {
    seq(|ids|, k requires 0 <= k < |ids| => nodes[ids[k]])
  }

  predicate Applicable(op: Op, count: nat) {
    match op
    case Construct(kind, _, kids) =>
      && (forall i | 0 <= i < |kids| :: kids[i] < count)
      && (kind.Leaf? ==> kids == []) && (kind.Decorator? || kind.Root? ==> |kids| <= 1)
    case Add(p, c) => p < count && c < count
    case TickNode(n, _) => n < count
    case ResetNode(n) => n < count
  }

  /** How many nodes a run has made: every constructor call with a name, refused or not. */
  function Population(ops: seq<Op>): nat {
    if ops == [] then 0
    else
      var before := Population(ops[..|ops| - 1]);
      var last := ops[|ops| - 1];
      before + if last.Construct? && Applicable(last, before) && last.name != "" then 1 else 0
  }

  /** Whatever is constructed, attached, ticked and reset, in whatever order and however often it is
      refused: the nodes form a forest, every tree in it validates, and since its last reset no
      node completed its setup more than once. */
  method Run(ops: seq<Op>) returns (nodes: seq<Node>)
    ensures |nodes| == Population(ops)
    ensures Forest(Nodes(nodes)) && SetupCounted(Nodes(nodes))
    ensures forall n | n in nodes :: MeetsOnce(n, {}, Nodes(nodes)) && n.setups <= 1
  {
    nodes := [];
    for k := 0 to |ops|
      invariant |nodes| == Population(ops[..k])
      invariant fresh(Nodes(nodes)) && Forest(Nodes(nodes)) && SetupCounted(Nodes(nodes))
    {
      assert ops[..k + 1][..k] == ops[..k];
      if Applicable(ops[k], |nodes|) {
        nodes := Perform(ops[k], nodes);
      }
    }
    assert ops[..|ops|] == ops;
    forall n | n in nodes ensures MeetsOnce(n, {}, Nodes(nodes)) {
      assert n in Nodes(nodes);
      ForestValidates(n, Nodes(nodes));
    }
  }

  method Perform(op: Op, nodes: seq<Node>) returns (grown: seq<Node>)
    requires Applicable(op, |nodes|) && Forest(Nodes(nodes)) && SetupCounted(Nodes(nodes))
    modifies Nodes(nodes)
    ensures |grown| == |nodes| + if op.Construct? && op.name != "" then 1 else 0
    ensures nodes <= grown && Nodes(nodes) <= Nodes(grown) && fresh(Nodes(grown) - Nodes(nodes))
    ensures Forest(Nodes(grown)) && SetupCounted(Nodes(grown))
    ensures op.Construct? && op.name != "" ==>
              var kids := grown[|nodes|].children;
              && grown[|nodes|].kind == op.kind && grown[|nodes|].name == op.name
              && |kids| <= |op.kids| && (forall i | 0 <= i < |kids| :: kids[i] == nodes[op.kids[i]])
              && (forall n | n in nodes :: n.parent == if n in kids then grown[|nodes|] else old(n.parent))
              && (|kids| == |op.kids| <==> old(Adoptable(Pick(nodes, op.kids))))
    ensures op.Add? && old(Verdict(nodes[op.parent], nodes[op.child], Nodes(nodes))).Attached? ==>
              nodes[op.parent].children == old(nodes[op.parent].children) + [nodes[op.child]]
              && nodes[op.child].parent == nodes[op.parent]
    ensures op.TickNode? ==>
              Ready(Nodes(nodes)) == old(Reading(nodes[op.node], op.script, Ready(Nodes(nodes)), Nodes(nodes))).1
    ensures op.ResetNode? ==>
              Ready(Nodes(nodes)) == old(Ready(Nodes(nodes)) - Subtree(nodes[op.node], Nodes(nodes)))
  {
    grown := nodes;
    match op
    case Construct(kind, name, kids) =>
      var picked := Pick(nodes, kids);
      assert Nodes(picked) <= Nodes(nodes);
      var r := Make(kind, name, picked, Nodes(nodes));
      if r.Created? {
        grown := nodes + [r.node];
        assert Nodes(grown) == Nodes(nodes) + {r.node};
      } else if r.Refused? {
        grown := nodes + [r.partial];
        assert Nodes(grown) == Nodes(nodes) + {r.partial};
      }
    case Add(p, c) =>
      var answer := nodes[p].AddChild(nodes[c], Nodes(nodes));
    case TickNode(n, script) =>
      var result, visit := nodes[n].Tick(script, Nodes(nodes));
    case ResetNode(n) =>
      nodes[n].Reset(Nodes(nodes));
  }
}
