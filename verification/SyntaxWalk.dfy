/** Syntax trees, the imports in them, and which imports are deferred. */
module SyntaxWalk {
  import opened Basics

  datatype Test = NameTest(id: string) | AttributeTest(attr: string) | OtherTest

  datatype Kind =
    | Import(names: seq<string>)
    | ImportFrom(origin: Option<string>)
    | If(test: Test)
    | FunctionDef
    | Other

  /** id is the identity of the node object; body is its statement list, rest all other children. */
  datatype Node = Node(id: nat, kind: Kind, body: seq<Node>, rest: seq<Node>)

  /** The part of a dotted name before its first dot. */
  function Head(s: string): string {
    if s == "" || s[0] == '.' then "" else [s[0]] + Head(s[1..])
  }

  /** The part after the first dot, if there is one. */
  function Tail(s: string): Option<string> {
    if s == "" then None else if s[0] == '.' then Some(s[1..]) else Tail(s[1..])
  }

  predicate IsPalm(name: string) {
    Head(name) == "palm"
  }

  function PalmNames(names: seq<string>): seq<string> {
    if names == [] then []
    else if IsPalm(names[0]) then [names[0]] + PalmNames(names[1..])
    else PalmNames(names[1..])
  }

  /** `_palm_targets`. */
  function PalmTargets(kind: Kind): seq<string> {
    match kind
    case Import(names) => PalmNames(names)
    case ImportFrom(Some(m)) => if IsPalm(m) then [m] else []
    case _ => []
  }

  predicate IsImport(n: Node) {
    n.kind.Import? || n.kind.ImportFrom?
  }

  predicate IsTypeChecking(n: Node) {
    n.kind.If? &&
    match n.kind.test
    case NameTest(id) => id == "TYPE_CHECKING"
    case AttributeTest(attr) => attr == "TYPE_CHECKING"
    case OtherTest => false
  }

  // ---------------------------------------------------------------------------
  // What is meant: one recursive pass with the inherited context
  // ---------------------------------------------------------------------------

  /** The palm imports inside some function body and inside no TYPE_CHECKING body. */
  function Deferred(n: Node, inFunction: bool, typeOnly: bool): seq<string>
    decreases n, 1
  {
    (if inFunction && !typeOnly then PalmTargets(n.kind) else [])
    + DeferredAll(n.body, inFunction || n.kind.FunctionDef?, typeOnly || IsTypeChecking(n))
    + DeferredAll(n.rest, inFunction, typeOnly)
  }

  function DeferredAll(ns: seq<Node>, inFunction: bool, typeOnly: bool): seq<string>
    decreases ns, 0
  {
    if ns == [] then [] else Deferred(ns[0], inFunction, typeOnly) + DeferredAll(ns[1..], inFunction, typeOnly)
  }

  /** One step down the tree: to the i-th statement of the body, or to the i-th other child. */
  datatype Turn = Turn(inBody: bool, i: nat)

  function ChildrenOf(n: Node, inBody: bool): seq<Node> {
    if inBody then n.body else n.rest
  }

  function At(n: Node, path: seq<Turn>): Option<Node>
    decreases |path|
  {
    if path == [] then Some(n)
    else if path[0].i < |ChildrenOf(n, path[0].inBody)| then At(ChildrenOf(n, path[0].inBody)[path[0].i], path[1..])
    else None
  }

  /** The path leads through the body of a node that marks. */
  predicate Inside(n: Node, path: seq<Turn>, marks: Node -> bool)
    decreases |path|
  {
    path != [] && path[0].i < |ChildrenOf(n, path[0].inBody)| &&
    ((path[0].inBody && marks(n)) || Inside(ChildrenOf(n, path[0].inBody)[path[0].i], path[1..], marks))
  }

  /** At the end of the path the target is imported, in a function body or context, and in no type-only one. */
  ghost predicate DeferredAt(n: Node, path: seq<Turn>, inFunction: bool, typeOnly: bool, target: string) {
    && At(n, path).Some? && target in PalmTargets(At(n, path).value.kind)
    && (inFunction || Inside(n, path, FUNCTIONS)) && !typeOnly && !Inside(n, path, GUARDS)
  }

  lemma {:induction false} DeferredIn(ns: seq<Node>, i: nat, inFunction: bool, typeOnly: bool, target: string)
    requires i < |ns| && target in Deferred(ns[i], inFunction, typeOnly)
    ensures target in DeferredAll(ns, inFunction, typeOnly)
  {
    if i > 0 {
      DeferredIn(ns[1..], i - 1, inFunction, typeOnly, target);
    }
  }

  lemma {:induction false} Follow(n: Node, path: seq<Turn>, inFunction: bool, typeOnly: bool, target: string)
    requires DeferredAt(n, path, inFunction, typeOnly, target)
    ensures target in Deferred(n, inFunction, typeOnly)
    decreases |path|
  {
    if path != [] {
      var turn := path[0];
      var c := ChildrenOf(n, turn.inBody)[turn.i];
      if turn.inBody {
        Follow(c, path[1..], inFunction || FUNCTIONS(n), typeOnly || GUARDS(n), target);
        DeferredIn(n.body, turn.i, inFunction || n.kind.FunctionDef?, typeOnly || IsTypeChecking(n), target);
      } else {
        Follow(c, path[1..], inFunction, typeOnly, target);
        DeferredIn(n.rest, turn.i, inFunction, typeOnly, target);
      }
    }
  }

  lemma {:induction false} Find(n: Node, inFunction: bool, typeOnly: bool, target: string) returns (path: seq<Turn>)
    requires target in Deferred(n, inFunction, typeOnly)
    ensures DeferredAt(n, path, inFunction, typeOnly, target)
    decreases n, 1
  {
    if inFunction && !typeOnly && target in PalmTargets(n.kind) {
      path := [];
    } else if target in DeferredAll(n.body, inFunction || n.kind.FunctionDef?, typeOnly || IsTypeChecking(n)) {
      var i, below := FindAll(n.body, inFunction || n.kind.FunctionDef?, typeOnly || IsTypeChecking(n), target);
      path := [Turn(true, i)] + below;
      assert path[1..] == below;
    } else {
      var i, below := FindAll(n.rest, inFunction, typeOnly, target);
      path := [Turn(false, i)] + below;
      assert path[1..] == below;
    }
  }

  lemma {:induction false} FindAll(ns: seq<Node>, inFunction: bool, typeOnly: bool, target: string)
    returns (i: nat, path: seq<Turn>)
    requires target in DeferredAll(ns, inFunction, typeOnly)
    ensures i < |ns| && DeferredAt(ns[i], path, inFunction, typeOnly, target)
    decreases ns, 0
  {
    if target in Deferred(ns[0], inFunction, typeOnly) {
      i := 0;
      path := Find(ns[0], inFunction, typeOnly, target);
    } else {
      i, path := FindAll(ns[1..], inFunction, typeOnly, target);
      i := i + 1;
    }
  }

  /** A target is deferred exactly if some path from the root leads to an import of it, through the body of a
      function and through the body of no test for TYPE_CHECKING: here is the path, and back. */
  lemma DeferredLiesSomewhere(tree: Node, target: string) returns (path: seq<Turn>)
    requires target in Deferred(tree, false, false)
    ensures At(tree, path).Some? && target in PalmTargets(At(tree, path).value.kind)
    ensures Inside(tree, path, FUNCTIONS) && !Inside(tree, path, GUARDS)
  {
    path := Find(tree, false, false, target);
  }

  lemma WhatLiesSoIsDeferred(tree: Node, target: string, path: seq<Turn>)
    requires At(tree, path).Some? && target in PalmTargets(At(tree, path).value.kind)
    requires Inside(tree, path, FUNCTIONS) && !Inside(tree, path, GUARDS)
    ensures target in Deferred(tree, false, false)
  {
    Follow(tree, path, false, false, target);
  }

  /** What marks: function definitions, and tests of TYPE_CHECKING by name or as an attribute. */
  lemma MarksAre(n: Node)
    ensures FUNCTIONS(n) <==> n.kind == FunctionDef
    ensures GUARDS(n) <==> n.kind == If(NameTest("TYPE_CHECKING")) || n.kind == If(AttributeTest("TYPE_CHECKING"))
  {}

  // ---------------------------------------------------------------------------
  // Names
  // ---------------------------------------------------------------------------

  predicate Dotless(s: string) {
    '.' !in s
  }

  lemma {:induction false} FirstPart(a: string, rest: string)
    requires Dotless(a)
    ensures Head(a) == a && Tail(a) == None
    ensures Head(a + "." + rest) == a && Tail(a + "." + rest) == Some(rest)
  {
    if a != "" {
      FirstPart(a[1..], rest);
      assert (a + "." + rest)[1..] == a[1..] + "." + rest;
    } else {
      assert (a + "." + rest)[1..] == rest;
    }
  }

  lemma {:induction false} Split(s: string)
    ensures Dotless(Head(s)) && s == if Tail(s).Some? then Head(s) + "." + Tail(s).value else Head(s)
  {
    if s != "" && s[0] != '.' {
      Split(s[1..]);
    }
  }

  const PALM_DOT := "palm" + "."

  lemma PalmFirst(name: string)
    requires |name| >= 5 && name[..5] == PALM_DOT
    ensures IsPalm(name)
  {
    assert name == PALM_DOT + name[5..];
    FirstPart("palm", name[5..]);
  }

  lemma PalmOnly(name: string)
    requires IsPalm(name) && name != "palm"
    ensures |name| >= 5 && name[..5] == PALM_DOT
  {
    Split(name);
    var rest := Tail(name).value;
    assert name == PALM_DOT + rest;
  }

  /** Which names belong to palm: palm itself, and whatever starts with its name and a dot. */
  lemma IsPalmIff(name: string)
    ensures IsPalm(name) <==> name == "palm" || (|name| >= 5 && name[..5] == PALM_DOT)
  {
    if IsPalm(name) && name != "palm" {
      PalmOnly(name);
    }
    if |name| >= 5 && name[..5] == PALM_DOT {
      PalmFirst(name);
    }
    FirstPart("palm", "");
  }

  /** What an import statement contributes: every name of palm as often as it names it, and nothing else. */
  lemma {:induction false} PalmNamesAre(names: seq<string>, target: string)
    ensures multiset(PalmNames(names))[target] ==
            if target == "palm" || (|target| >= 5 && target[..5] == PALM_DOT) then multiset(names)[target] else 0
  {
    IsPalmIff(target);
    if names != [] {
      PalmNamesAre(names[1..], target);
      assert names == [names[0]] + names[1..];
      if IsPalm(names[0]) {
        assert multiset([names[0]] + PalmNames(names[1..])) == multiset{names[0]} + multiset(PalmNames(names[1..]));
      }
    }
  }

  lemma TargetsAre(kind: Kind, target: string)
    ensures multiset(PalmTargets(kind))[target] ==
            if target != "palm" && (|target| < 5 || target[..5] != PALM_DOT) then 0
            else if kind.Import? then multiset(kind.names)[target]
            else if kind == ImportFrom(Some(target)) then 1 else 0
  {
    IsPalmIff(target);
    match kind
    case Import(names) => PalmNamesAre(names, target);
    case ImportFrom(Some(m)) => IsPalmIff(m);
    case _ =>
  }

  // ---------------------------------------------------------------------------
  // What is computed: marks on node identities
  // ---------------------------------------------------------------------------

  function Flatten(n: Node): seq<Node>
    decreases n, 1
  {
    [n] + FlattenAll(n.body) + FlattenAll(n.rest)
  }

  function FlattenAll(ns: seq<Node>): seq<Node>
    decreases ns, 0
  {
    if ns == [] then [] else Flatten(ns[0]) + FlattenAll(ns[1..])
  }

  /** `ast.walk`: a queue, each node followed later by its children. */
  method Walk(start: seq<Node>) returns (order: seq<Node>)
    ensures multiset(order) == multiset(FlattenAll(start))
  {
    var todo := start;
    order := [];
    while todo != []
      invariant multiset(order) + multiset(FlattenAll(todo)) == multiset(FlattenAll(start))
      decreases |FlattenAll(todo)|
    {
      var n := todo[0];
      FlattenConcat(todo[1..], n.body + n.rest);
      FlattenConcat(n.body, n.rest);
      todo, order := todo[1..] + (n.body + n.rest), order + [n];
    }
  }

  lemma {:induction false} FlattenConcat(a: seq<Node>, b: seq<Node>)
    ensures FlattenAll(a + b) == FlattenAll(a) + FlattenAll(b)
  {
    if a == [] {
      assert a + b == b;
    } else {
      FlattenConcat(a[1..], b);
      assert (a + b)[0] == a[0] && (a + b)[1..] == a[1..] + b;
      Associative(Flatten(a[0]), FlattenAll(a[1..]), FlattenAll(b));
    }
  }

  lemma Associative<T>(x: seq<T>, y: seq<T>, z: seq<T>)
    ensures x + (y + z) == (x + y) + z
  {}

  function Ids(ns: seq<Node>): set<nat> {
    set n | n in ns :: n.id
  }

  function ImportIds(ns: seq<Node>): set<nat> {
    set n | n in ns && IsImport(n) :: n.id
  }

  /** The identities marked by the nodes of ns: everything inside the body of a marking node. */
  ghost predicate Marked(i: nat, ns: seq<Node>, marks: Node -> bool) {
    exists n :: n in ns && marks(n) && i in Ids(FlattenAll(n.body))
  }

  method MarkBodies(order: seq<Node>, marks: Node -> bool) returns (ids: set<nat>)
    ensures forall i :: i in ids <==> Marked(i, order, marks)
  {
    ids := {};
    for k := 0 to |order|
      invariant forall i :: i in ids <==> Marked(i, order[..k], marks)
    {
      assert order[..k + 1] == order[..k] + [order[k]];
      if marks(order[k]) {
        var inside := Walk(order[k].body);
        SameElements(inside, FlattenAll(order[k].body));
        ids := ids + Ids(inside);
      }
    }
    assert order[..|order|] == order;
  }

  lemma SameElements<T>(a: seq<T>, b: seq<T>)
    requires multiset(a) == multiset(b)
    ensures forall x :: x in a <==> x in b
  {
    forall x ensures x in a <==> x in b {
      assert x in a <==> x in multiset(a);
      assert x in b <==> x in multiset(b);
    }
  }

  /** The targets of the nodes that are marked as inside a function and not as type-only. */
  function Selected(ns: seq<Node>, inside: set<nat>, typeOnly: set<nat>): seq<string> {
    if ns == [] then []
    else (if ns[0].id in inside && ns[0].id !in typeOnly then PalmTargets(ns[0].kind) else [])
         + Selected(ns[1..], inside, typeOnly)
  }

  /** In a parsed tree an import statement is one object in one place. */
  ghost predicate OwnImports(n: Node)
    decreases n, 1
  {
    && OwnImportsAll(n.body) && OwnImportsAll(n.rest)
    && Apart(FlattenAll(n.body), FlattenAll(n.rest))
    && Apart([n], FlattenAll(n.body) + FlattenAll(n.rest))
  }

  ghost predicate OwnImportsAll(ns: seq<Node>)
    decreases ns, 0
  {
    ns == [] || (OwnImports(ns[0]) && OwnImportsAll(ns[1..]) && Apart(Flatten(ns[0]), FlattenAll(ns[1..])))
  }

  /** No import of one list is the same object as a node of the other. */
  ghost predicate Apart(a: seq<Node>, b: seq<Node>) {
    ImportIds(a) !! Ids(b) && Ids(a) !! ImportIds(b)
  }

  // ---------------------------------------------------------------------------
  // Marking computes what is meant
  // ---------------------------------------------------------------------------

  lemma {:induction false} BodyInside(n: Node, m: Node)
    requires m in Flatten(n)
    ensures forall x | x in FlattenAll(m.body) :: x in FlattenAll(n.body) + FlattenAll(n.rest)
    decreases n, 1
  {
    if m != n {
      if m in FlattenAll(n.body) {
        BodyInsideAll(n.body, m);
      } else {
        BodyInsideAll(n.rest, m);
      }
    }
  }

  lemma {:induction false} BodyInsideAll(ns: seq<Node>, m: Node)
    requires m in FlattenAll(ns)
    ensures forall x | x in FlattenAll(m.body) :: x in FlattenAll(ns)
    decreases ns, 0
  {
    if m in Flatten(ns[0]) {
      BodyInside(ns[0], m);
    } else {
      BodyInsideAll(ns[1..], m);
    }
  }

  lemma MarkedInside(i: nat, ns: seq<Node>, marks: Node -> bool)
    requires Marked(i, ns, marks) && forall m, x | m in ns && x in FlattenAll(m.body) :: x in ns
    ensures i in Ids(ns)
  {}

  lemma ClosedAll(ns: seq<Node>)
    ensures forall m, x | m in FlattenAll(ns) && x in FlattenAll(m.body) :: x in FlattenAll(ns)
  {
    forall m, x | m in FlattenAll(ns) && x in FlattenAll(m.body) ensures x in FlattenAll(ns) {
      BodyInsideAll(ns, m);
    }
  }

  lemma MarkedConcat(i: nat, a: seq<Node>, b: seq<Node>, marks: Node -> bool)
    ensures Marked(i, a + b, marks) <==> Marked(i, a, marks) || Marked(i, b, marks)
  {}

  /** The set ids says of each import in ns whether its context is ctx or a mark inside ns covers it. */
  ghost predicate Covers(ids: set<nat>, ns: seq<Node>, ctx: bool, marks: Node -> bool) {
    forall i | i in ImportIds(ns) :: i in ids <==> ctx || Marked(i, ns, marks)
  }

  lemma CoversSplit(ids: set<nat>, a: seq<Node>, b: seq<Node>, ctx: bool, marks: Node -> bool)
    requires Covers(ids, FlattenAll(a) + FlattenAll(b), ctx, marks) && Apart(FlattenAll(a), FlattenAll(b))
    ensures Covers(ids, FlattenAll(a), ctx, marks) && Covers(ids, FlattenAll(b), ctx, marks)
  {
    ClosedAll(a);
    ClosedAll(b);
    forall i | i in ImportIds(FlattenAll(a)) ensures i in ids <==> ctx || Marked(i, FlattenAll(a), marks) {
      MarkedConcat(i, FlattenAll(a), FlattenAll(b), marks);
      if Marked(i, FlattenAll(b), marks) {
        MarkedInside(i, FlattenAll(b), marks);
      }
    }
    forall i | i in ImportIds(FlattenAll(b)) ensures i in ids <==> ctx || Marked(i, FlattenAll(b), marks) {
      MarkedConcat(i, FlattenAll(a), FlattenAll(b), marks);
      if Marked(i, FlattenAll(a), marks) {
        MarkedInside(i, FlattenAll(a), marks);
      }
    }
  }

  /** What marks an identity below a node, and that everything marked lies there. */
  lemma MarkedNode(i: nat, n: Node, marks: Node -> bool)
    ensures var body, rest := FlattenAll(n.body), FlattenAll(n.rest);
            && (Marked(i, Flatten(n), marks) <==>
                  (marks(n) && i in Ids(body)) || Marked(i, body, marks) || Marked(i, rest, marks))
            && (Marked(i, body, marks) ==> i in Ids(body)) && (Marked(i, rest, marks) ==> i in Ids(rest))
  {
    var body, rest := FlattenAll(n.body), FlattenAll(n.rest);
    assert Flatten(n) == [n] + (body + rest);
    MarkedConcat(i, [n], body + rest, marks);
    MarkedConcat(i, body, rest, marks);
    assert n in [n];
    if Marked(i, body, marks) {
      ClosedAll(n.body);
      MarkedInside(i, body, marks);
    }
    if Marked(i, rest, marks) {
      ClosedAll(n.rest);
      MarkedInside(i, rest, marks);
    }
  }

  lemma CoversDown(ids: set<nat>, n: Node, ctx: bool, marks: Node -> bool)
    requires OwnImports(n) && Covers(ids, Flatten(n), ctx, marks)
    ensures Covers(ids, FlattenAll(n.body), ctx || marks(n), marks)
    ensures Covers(ids, FlattenAll(n.rest), ctx, marks)
    ensures IsImport(n) ==> (n.id in ids <==> ctx)
  {
    var body, rest := FlattenAll(n.body), FlattenAll(n.rest);
    forall i | i in ImportIds(body) ensures i in ids <==> (ctx || marks(n)) || Marked(i, body, marks) {
      MarkedNode(i, n, marks);
      assert i in ImportIds(Flatten(n));
    }
    forall i | i in ImportIds(rest) ensures i in ids <==> ctx || Marked(i, rest, marks) {
      MarkedNode(i, n, marks);
      assert i in ImportIds(Flatten(n));
    }
    if IsImport(n) {
      MarkedNode(n.id, n, marks);
      assert n in Flatten(n) && n.id in ImportIds(Flatten(n)) && n.id in ImportIds([n]);
      assert Ids(body) <= Ids(body + rest) && Ids(rest) <= Ids(body + rest);
    }
  }

  lemma SelectedConcat(a: seq<Node>, b: seq<Node>, inside: set<nat>, typeOnly: set<nat>)
    ensures Selected(a + b, inside, typeOnly) == Selected(a, inside, typeOnly) + Selected(b, inside, typeOnly)
  {
    if a == [] {
      assert a + b == b;
    } else {
      SelectedConcat(a[1..], b, inside, typeOnly);
      assert (a + b)[0] == a[0] && (a + b)[1..] == a[1..] + b;
      Associative(Selected([a[0]], inside, typeOnly), Selected(a[1..], inside, typeOnly), Selected(b, inside, typeOnly));
    }
  }

  const FUNCTIONS: Node -> bool := (n: Node) => n.kind.FunctionDef?
  const GUARDS: Node -> bool := (n: Node) => IsTypeChecking(n)

  lemma {:induction false} SelectedIsDeferred(n: Node, inFunction: bool, typeOnly: bool, f: set<nat>, t: set<nat>)
    requires OwnImports(n)
    requires Covers(f, Flatten(n), inFunction, FUNCTIONS) && Covers(t, Flatten(n), typeOnly, GUARDS)
    ensures Selected(Flatten(n), f, t) == Deferred(n, inFunction, typeOnly)
    decreases n, 1
  {
    CoversDown(f, n, inFunction, FUNCTIONS);
    CoversDown(t, n, typeOnly, GUARDS);
    SelectedIsDeferredAll(n.body, inFunction || n.kind.FunctionDef?, typeOnly || IsTypeChecking(n), f, t);
    SelectedIsDeferredAll(n.rest, inFunction, typeOnly, f, t);
    SelectedConcat([n] + FlattenAll(n.body), FlattenAll(n.rest), f, t);
    SelectedConcat([n], FlattenAll(n.body), f, t);
    assert Selected([n], f, t) == if inFunction && !typeOnly then PalmTargets(n.kind) else [];
  }

  lemma {:induction false} SelectedIsDeferredAll(ns: seq<Node>, inFunction: bool, typeOnly: bool, f: set<nat>, t: set<nat>)
    requires OwnImportsAll(ns)
    requires Covers(f, FlattenAll(ns), inFunction, FUNCTIONS) && Covers(t, FlattenAll(ns), typeOnly, GUARDS)
    ensures Selected(FlattenAll(ns), f, t) == DeferredAll(ns, inFunction, typeOnly)
    decreases ns, 0
  {
    if ns != [] {
      assert FlattenAll([ns[0]]) == Flatten(ns[0]);
      CoversSplit(f, [ns[0]], ns[1..], inFunction, FUNCTIONS);
      CoversSplit(t, [ns[0]], ns[1..], typeOnly, GUARDS);
      SelectedIsDeferred(ns[0], inFunction, typeOnly, f, t);
      SelectedIsDeferredAll(ns[1..], inFunction, typeOnly, f, t);
      SelectedConcat(Flatten(ns[0]), FlattenAll(ns[1..]), f, t);
    }
  }

  lemma SelectedPull(a: seq<Node>, k: nat, f: set<nat>, t: set<nat>)
    requires k < |a|
    ensures multiset(Selected(a, f, t)) ==
            multiset(Selected([a[k]], f, t)) + multiset(Selected(a[..k] + a[k + 1..], f, t))
  {
    assert a == a[..k] + ([a[k]] + a[k + 1..]);
    SelectedConcat(a[..k], [a[k]] + a[k + 1..], f, t);
    SelectedConcat([a[k]], a[k + 1..], f, t);
    SelectedConcat(a[..k], a[k + 1..], f, t);
  }

  /** The order of the walk does not matter for what is selected. */
  lemma {:induction false} SelectedInAnyOrder(a: seq<Node>, b: seq<Node>, f: set<nat>, t: set<nat>)
    requires multiset(a) == multiset(b)
    ensures multiset(Selected(a, f, t)) == multiset(Selected(b, f, t))
    decreases |a|
  {
    if a == [] {
      assert |multiset(b)| == 0;
    } else {
      var k, restA, restB := TakeFirst(a, b);
      SelectedPull(a, 0, f, t);
      SelectedPull(b, k, f, t);
      SelectedInAnyOrder(restA, restB, f, t);
    }
  }

  lemma MarksCollect(tree: Node, order: seq<Node>, inside: set<nat>, typeOnly: set<nat>)
    requires OwnImports(tree) && multiset(order) == multiset(Flatten(tree))
    requires forall i :: i in inside <==> Marked(i, order, FUNCTIONS)
    requires forall i :: i in typeOnly <==> Marked(i, order, GUARDS)
    ensures multiset(Selected(order, inside, typeOnly)) == multiset(Deferred(tree, false, false))
  {
    SameElements(order, Flatten(tree));
    forall i ensures Marked(i, order, FUNCTIONS) <==> Marked(i, Flatten(tree), FUNCTIONS) {}
    forall i ensures Marked(i, order, GUARDS) <==> Marked(i, Flatten(tree), GUARDS) {}
    SelectedIsDeferred(tree, false, false, inside, typeOnly);
    SelectedInAnyOrder(order, Flatten(tree), inside, typeOnly);
  }

  /** The counting pass: nodes without palm imports, type-only ones and module-level ones are skipped. */
  method Select(order: seq<Node>, inside: set<nat>, typeOnly: set<nat>) returns (targets: seq<string>)
    ensures targets == Selected(order, inside, typeOnly)
  {
    targets := [];
    for k := 0 to |order|
      invariant targets == Selected(order[..k], inside, typeOnly)
    {
      var n := order[k];
      assert order[..k + 1] == order[..k] + [n];
      SelectedConcat(order[..k], [n], inside, typeOnly);
      var found := if IsImport(n) then PalmTargets(n.kind) else [];
      if found == [] || n.id in typeOnly || n.id !in inside {
        continue;
      }
      targets := targets + found;
    }
    assert order[..|order|] == order;
  }

  /** The guard's passes over one tree find exactly the deferred imports. */
  method Collect(tree: Node) returns (targets: seq<string>)
    requires OwnImports(tree)
    ensures multiset(targets) == multiset(Deferred(tree, false, false))
  {
    var order := Walk([tree]);
    assert FlattenAll([tree]) == Flatten(tree);
    var inside := MarkBodies(order, FUNCTIONS);
    var typeOnly := MarkBodies(order, GUARDS);
    MarksCollect(tree, order, inside, typeOnly);
    targets := Select(order, inside, typeOnly);
  }
}
