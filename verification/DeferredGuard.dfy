/** The deferred-import guard over all files: totals, directions, and the ratchets. */
module DeferredGuard {
  import opened Basics
  import opened SyntaxWalk

  const MAX_FUNCTION_LOCAL := 217
  const MAX_UPWARD := 3

  /** Layer ranks; higher layers import lower ones. */
  const LAYER_RANK: map<string, int> := map[
    "core" := 0, "common" := 1, "definitions" := 2, "instances" := 2, "states" := 2, "storages" := 2,
    "backends" := 2, "patterns" := 2, "providers" := 2, "services" := 2, "app" := 3, "runtimes" := 4]

  /** `_layer`: the second part of a dotted name whose first part is palm. */
  function Layer(dotted: string): Option<string> {
    if IsPalm(dotted) && Tail(dotted).Some? then Some(Head(Tail(dotted).value)) else None
  }

  function Rank(layer: Option<string>): int {
    if layer.Some? && layer.value in LAYER_RANK then LAYER_RANK[layer.value] else -1
  }

  /** `_module_name` of the path parts below the root, suffix dropped. */
  function ModuleName(parts: seq<string>): string {
    "palm." + Join(parts)
  }

  function Join(parts: seq<string>): string {
    if parts == [] then "" else if |parts| == 1 then parts[0] else parts[0] + "." + Join(parts[1..])
  }

  datatype Direction = Upward | Sibling | Downward | Unranked

  function Judge(source: int, target: string): Direction {
    var rank := Rank(Layer(target));
    if source < 0 || rank < 0 then Unranked
    else if rank > source then Upward
    else if rank == source then Sibling
    else Downward
  }

  /** tree is None for a file that does not parse. */
  datatype File = File(path: Name, parts: seq<string>, tree: Option<Node>)

  datatype Edge = Edge(path: Name, source: Option<string>, target: string)

  datatype Report = Report(total: nat, upward: nat, counts: map<Direction, nat>, edges: seq<Edge>, perFile: map<Name, nat>)

  // ---------------------------------------------------------------------------
  // What is meant
  // ---------------------------------------------------------------------------

  function Targets(f: File): seq<string> {
    if f.tree.Some? then Deferred(f.tree.value, false, false) else []
  }

  function SourceRank(f: File): int {
    Rank(Layer(ModuleName(f.parts)))
  }

  function Amount(targets: seq<string>, source: int, d: Direction): nat {
    if targets == [] then 0
    else Amount(targets[..|targets| - 1], source, d) + if Judge(source, targets[|targets| - 1]) == d then 1 else 0
  }

  /** The number of deferred imports of a direction in all files; and in all, and of one path. */
  function AmountOf(files: seq<File>, d: Direction): nat {
    if files == [] then 0
    else AmountOf(files[..|files| - 1], d) + Amount(Targets(files[|files| - 1]), SourceRank(files[|files| - 1]), d)
  }

  function AmountIn(files: seq<File>, path: Name): nat {
    if files == [] then 0
    else AmountIn(files[..|files| - 1], path) + if files[|files| - 1].path == path then |Targets(files[|files| - 1])| else 0
  }

  function AmountAll(files: seq<File>): nat {
    if files == [] then 0 else AmountAll(files[..|files| - 1]) + |Targets(files[|files| - 1])|
  }

  function PerFile(r: Report, path: Name): nat {
    if path in r.perFile then r.perFile[path] else 0
  }

  /** Sum of the per-file counts over the files. */
  function SumPerFile(r: Report, files: seq<File>): nat {
    if files == [] then 0 else SumPerFile(r, files[..|files| - 1]) + PerFile(r, files[|files| - 1].path)
  }

  const EMPTY_REPORT: Report := Report(0, 0, map[Upward := 0, Sibling := 0, Downward := 0, Unranked := 0], [], map[])

  /** The edges that the upward targets of one file are recorded as, and those of all files. */
  function EdgesIn(f: File, targets: seq<string>): seq<Edge> {
    if targets == [] then [] else EdgesIn(f, targets[..|targets| - 1]) + EdgeFor(f, targets[|targets| - 1])
  }

  function EdgeFor(f: File, target: string): seq<Edge> {
    if Judge(SourceRank(f), target) == Upward then [Edge(f.path, Layer(ModuleName(f.parts)), target)] else []
  }

  function EdgesOf(files: seq<File>): seq<Edge> {
    if files == [] then [] else EdgesOf(files[..|files| - 1]) + EdgesIn(files[|files| - 1], Targets(files[|files| - 1]))
  }

  // ---------------------------------------------------------------------------
  // What is computed
  // ---------------------------------------------------------------------------

  /** One counted import. */
  function Count(r: Report, f: File, target: string): Report
    requires forall d: Direction :: d in r.counts
  {
    CountAs(r, Edge(f.path, Layer(ModuleName(f.parts)), target), Judge(SourceRank(f), target))
  }

  function CountAs(r: Report, e: Edge, d: Direction): Report
    requires forall d: Direction :: d in r.counts
  {
    Report(r.total + 1, if d == Upward then r.upward + 1 else r.upward, r.counts[d := r.counts[d] + 1],
           if d == Upward then r.edges + [e] else r.edges, r.perFile[e.path := PerFile(r, e.path) + 1])
  }

  /** What a report says after files were scanned. */
  ghost predicate Tells(r: Report, files: seq<File>) {
    && (forall d: Direction :: d in r.counts)
    && r.total == AmountAll(files)
    && r.upward == |r.edges| == r.counts[Upward]
    && (forall d: Direction :: r.counts[d] == AmountOf(files, d))
    && (forall p :: PerFile(r, p) == AmountIn(files, p))
  }

  /** It lists the upward edges of these files. */
  ghost predicate Lists(r: Report, files: seq<File>) {
    multiset(r.edges) == multiset(EdgesOf(files))
  }

  /** ... and some targets of one more file, given its path and the rank of its layer. */
  ghost predicate TellsMore(r: Report, files: seq<File>, path: Name, source: int, targets: seq<string>) {
    && (forall d: Direction :: d in r.counts)
    && r.total == AmountAll(files) + |targets|
    && r.upward == |r.edges| == r.counts[Upward]
    && (forall d: Direction :: r.counts[d] == AmountOf(files, d) + Amount(targets, source, d))
    && (forall p :: PerFile(r, p) == AmountIn(files, p) + if p == path then |targets| else 0)
  }

  lemma CountTells(r: Report, files: seq<File>, f: File, targets: seq<string>, target: string)
    requires TellsMore(r, files, f.path, SourceRank(f), targets)
    ensures TellsMore(Count(r, f, target), files, f.path, SourceRank(f), targets + [target])
  {
    AmountMore(targets, target, SourceRank(f));
    CountAsTells(r, files, Edge(f.path, Layer(ModuleName(f.parts)), target), SourceRank(f), targets,
                 Judge(SourceRank(f), target), targets + [target]);
  }

  lemma AmountMore(targets: seq<string>, target: string, source: int)
    ensures forall d :: Amount(targets + [target], source, d) ==
                        Amount(targets, source, d) + if Judge(source, target) == d then 1 else 0
  {
    assert (targets + [target])[..|targets|] == targets;
  }

  lemma CountAsTells(r: Report, files: seq<File>, e: Edge, source: int, targets: seq<string>, d: Direction, more: seq<string>)
    requires TellsMore(r, files, e.path, source, targets) && |more| == |targets| + 1
    requires forall x :: Amount(more, source, x) == Amount(targets, source, x) + if d == x then 1 else 0
    ensures TellsMore(CountAs(r, e, d), files, e.path, source, more)
  {
    CountAsPaths(r, e, d);
    CountAsCounts(r, e, d);
    var all := AmountAll(files);
    assert r.total == all + |targets|;
  }

  lemma CountAsCounts(r: Report, e: Edge, d: Direction)
    requires forall x: Direction :: x in r.counts
    ensures forall x: Direction :: x in CountAs(r, e, d).counts
                                   && CountAs(r, e, d).counts[x] == r.counts[x] + if d == x then 1 else 0
  {}

  lemma CountAsPaths(r: Report, e: Edge, d: Direction)
    requires forall x: Direction :: x in r.counts
    ensures forall p :: PerFile(CountAs(r, e, d), p) == PerFile(r, p) + if p == e.path then 1 else 0
  {}

  lemma AmountPull(a: seq<string>, k: nat, source: int, d: Direction)
    requires k < |a|
    ensures Amount(a, source, d) == Amount([a[k]], source, d) + Amount(a[..k] + a[k + 1..], source, d)
  {
    assert a == a[..k] + ([a[k]] + a[k + 1..]);
    AmountConcat(a[..k], [a[k]] + a[k + 1..], source, d);
    AmountConcat([a[k]], a[k + 1..], source, d);
    AmountConcat(a[..k], a[k + 1..], source, d);
  }

  lemma {:induction false} AmountInAnyOrder(a: seq<string>, b: seq<string>, source: int, d: Direction)
    requires multiset(a) == multiset(b)
    ensures Amount(a, source, d) == Amount(b, source, d)
    decreases |a|
  {
    if a == [] {
      assert |multiset(b)| == 0;
    } else {
      var k, restA, restB := TakeFirst(a, b);
      AmountPull(a, 0, source, d);
      AmountPull(b, k, source, d);
      AmountInAnyOrder(restA, restB, source, d);
    }
  }

  lemma {:induction false} AmountConcat(a: seq<string>, b: seq<string>, source: int, d: Direction)
    ensures Amount(a + b, source, d) == Amount(a, source, d) + Amount(b, source, d)
    decreases |b|
  {
    if b == [] {
      assert a + b == a;
    } else {
      AmountConcat(a, b[..|b| - 1], source, d);
      assert (a + b)[..|a + b| - 1] == a + b[..|b| - 1];
    }
  }

  lemma OneMoreFile(r: Report, files: seq<File>, f: File, targets: seq<string>)
    requires TellsMore(r, files, f.path, SourceRank(f), targets) && multiset(targets) == multiset(Targets(f))
    ensures Tells(r, files + [f])
  {
    assert (files + [f])[..|files|] == files;
    assert |targets| == |multiset(targets)| == |multiset(Targets(f))|;
    forall d ensures Amount(targets, SourceRank(f), d) == Amount(Targets(f), SourceRank(f), d) {
      AmountInAnyOrder(targets, Targets(f), SourceRank(f), d);
    }
  }

  /** The edge that a target of the file would be recorded as. */
  predicate Records(f: File, e: Edge) {
    e.path == f.path && e.source == Layer(ModuleName(f.parts)) && Judge(SourceRank(f), e.target) == Upward
  }

  lemma CountMore<T>(a: seq<T>, x: T, y: T)
    ensures multiset(a + [x])[y] == multiset(a)[y] + if x == y then 1 else 0
  {}

  lemma EdgeCountMore(f: File, target: string, edges: seq<Edge>, e: Edge)
    ensures multiset(edges + EdgeFor(f, target))[e] == multiset(edges)[e] + if Records(f, e) && e.target == target then 1 else 0
  {
    if Judge(SourceRank(f), target) == Upward {
      CountMore(edges, Edge(f.path, Layer(ModuleName(f.parts)), target), e);
    } else {
      assert edges + [] == edges;
    }
  }

  lemma {:induction false} EdgeTimes(f: File, targets: seq<string>, e: Edge, records: bool)
    requires records == Records(f, e)
    ensures multiset(EdgesIn(f, targets))[e] == if records then multiset(targets)[e.target] else 0
  {
    if targets != [] {
      var init, last := targets[..|targets| - 1], targets[|targets| - 1];
      EdgeTimes(f, init, e, records);
      EdgeCountMore(f, last, EdgesIn(f, init), e);
      CountMore(init, last, e.target);
      assert targets == init + [last];
    }
  }

  lemma EdgesInAnyOrder(f: File, a: seq<string>, b: seq<string>)
    requires multiset(a) == multiset(b)
    ensures multiset(EdgesIn(f, a)) == multiset(EdgesIn(f, b))
  {
    forall e ensures multiset(EdgesIn(f, a))[e] == multiset(EdgesIn(f, b))[e] {
      EdgeTimes(f, a, e, Records(f, e));
      EdgeTimes(f, b, e, Records(f, e));
    }
  }

  /** The targets of one file are counted one by one. */
  method CountTargets(before: Report, f: File, targets: seq<string>, ghost files: seq<File>) returns (r: Report)
    requires Tells(before, files)
    ensures TellsMore(r, files, f.path, SourceRank(f), targets) && r.edges == before.edges + EdgesIn(f, targets)
  {
    r := before;
    for k := 0 to |targets|
      invariant TellsMore(r, files, f.path, SourceRank(f), targets[..k])
      invariant r.edges == before.edges + EdgesIn(f, targets[..k])
    {
      CountTells(r, files, f, targets[..k], targets[k]);
      EdgesMore(f, targets, k);
      CountAddsEdge(r, f, targets[k], before.edges, EdgesIn(f, targets[..k]));
      r := Count(r, f, targets[k]);
    }
    assert targets[..|targets|] == targets;
  }

  lemma EdgesMore(f: File, targets: seq<string>, k: nat)
    requires k < |targets|
    ensures targets[..k + 1] == targets[..k] + [targets[k]]
    ensures EdgesIn(f, targets[..k + 1]) == EdgesIn(f, targets[..k]) + EdgeFor(f, targets[k])
  {
    assert targets[..k + 1][..k] == targets[..k];
  }

  lemma CountAddsEdge(r: Report, f: File, target: string, before: seq<Edge>, own: seq<Edge>)
    requires (forall d: Direction :: d in r.counts) && r.edges == before + own
    ensures Count(r, f, target).edges == before + (own + EdgeFor(f, target))
  {}

  lemma ListsMore(r: Report, before: Report, files: seq<File>, f: File, targets: seq<string>)
    requires Lists(before, files) && r.edges == before.edges + EdgesIn(f, targets) && multiset(targets) == multiset(Targets(f))
    ensures Lists(r, files + [f])
  {
    EdgesInAnyOrder(f, targets, Targets(f));
    assert (files + [f])[..|files|] == files;
  }

  /** One file: its marked imports are counted. */
  method ScanFile(before: Report, f: File, ghost files: seq<File>) returns (r: Report)
    requires Tells(before, files) && Lists(before, files) && (f.tree.Some? ==> OwnImports(f.tree.value))
    ensures Tells(r, files + [f]) && Lists(r, files + [f])
  {
    var targets: seq<string> := [];
    if f.tree.Some? {
      targets := Collect(f.tree.value);
    }
    r := CountTargets(before, f, targets, files);
    OneMoreFile(r, files, f, targets);
    ListsMore(r, before, files, f, targets);
  }

  /** The guard. code is the exit status. */
  method Guard(files: seq<File>) returns (code: int, r: Report)
    requires forall f | f in files :: f.tree.Some? ==> OwnImports(f.tree.value)
    ensures Tells(r, files) && Lists(r, files)
    ensures code == 1 <==>
              AmountAll(files) > 217 ||
              Pairs(files, (f: File, t: string) => 0 <= SourceRank(f) < Rank(Layer(t))) > 3
    ensures code == 0 || code == 1
  {
    r := EMPTY_REPORT;
    forall d: Direction ensures d in EMPTY_REPORT.counts {
      match d
      case Upward =>
      case Sibling =>
      case Downward =>
      case Unranked =>
    }
    for n := 0 to |files|
      invariant Tells(r, files[..n]) && Lists(r, files[..n])
    {
      assert files[..n + 1] == files[..n] + [files[n]] && files[n] in files;
      r := ScanFile(r, files[n], files[..n]);
    }
    assert files[..|files|] == files;
    DirectionsAre(r, files);
    code := if r.total > MAX_FUNCTION_LOCAL || r.upward > MAX_UPWARD then 1 else 0;
  }

  // ---------------------------------------------------------------------------
  // What the directions are
  // ---------------------------------------------------------------------------

  /** How many of the targets of one file, and of all files, satisfy p. */
  ghost function Number(f: File, targets: seq<string>, p: (File, string) -> bool): nat {
    if targets == [] then 0
    else Number(f, targets[..|targets| - 1], p) + if p(f, targets[|targets| - 1]) then 1 else 0
  }

  ghost function Pairs(files: seq<File>, p: (File, string) -> bool): nat {
    if files == [] then 0
    else Pairs(files[..|files| - 1], p) + Number(files[|files| - 1], Targets(files[|files| - 1]), p)
  }

  lemma {:induction false} AmountIsNumber(f: File, targets: seq<string>, d: Direction, p: (File, string) -> bool)
    requires forall t :: p(f, t) <==> Judge(SourceRank(f), t) == d
    ensures Amount(targets, SourceRank(f), d) == Number(f, targets, p)
  {
    if targets != [] {
      AmountIsNumber(f, targets[..|targets| - 1], d, p);
    }
  }

  lemma {:induction false} AmountIsPairs(files: seq<File>, d: Direction, p: (File, string) -> bool)
    requires forall f, t :: p(f, t) <==> Judge(SourceRank(f), t) == d
    ensures AmountOf(files, d) == Pairs(files, p)
  {
    if files != [] {
      AmountIsPairs(files[..|files| - 1], d, p);
      AmountIsNumber(files[|files| - 1], Targets(files[|files| - 1]), d, p);
    }
  }

  /** A report counts a deferred import as upward exactly if both layers are ranked and the imported one is ranked
      higher, as sibling if equal, as downward if lower, and as unranked if either is not ranked. */
  lemma DirectionsAre(r: Report, files: seq<File>)
    requires Tells(r, files)
    ensures r.upward == r.counts[Upward] == |r.edges|
    ensures r.counts[Upward] == Pairs(files, (f: File, t: string) => 0 <= SourceRank(f) < Rank(Layer(t)))
    ensures r.counts[Sibling] == Pairs(files, (f: File, t: string) => 0 <= SourceRank(f) == Rank(Layer(t)))
    ensures r.counts[Downward] == Pairs(files, (f: File, t: string) => SourceRank(f) > Rank(Layer(t)) >= 0)
    ensures r.counts[Unranked] == Pairs(files, (f: File, t: string) => SourceRank(f) < 0 || Rank(Layer(t)) < 0)
  {
    AmountIsPairs(files, Upward, (f: File, t: string) => 0 <= SourceRank(f) < Rank(Layer(t)));
    AmountIsPairs(files, Sibling, (f: File, t: string) => 0 <= SourceRank(f) == Rank(Layer(t)));
    AmountIsPairs(files, Downward, (f: File, t: string) => SourceRank(f) > Rank(Layer(t)) >= 0);
    AmountIsPairs(files, Unranked, (f: File, t: string) => SourceRank(f) < 0 || Rank(Layer(t)) < 0);
  }

  lemma EdgesInMembers(f: File, e: Edge)
    ensures e in EdgesIn(f, Targets(f)) <==> IsEdge(e, f)
  {
    EdgeTimes(f, Targets(f), e, Records(f, e));
    assert e in EdgesIn(f, Targets(f)) <==> e in multiset(EdgesIn(f, Targets(f)));
    assert e.target in Targets(f) <==> e.target in multiset(Targets(f));
  }

  lemma {:induction false} EdgesMembers(files: seq<File>, e: Edge)
    ensures e in EdgesOf(files) <==> exists f :: f in files && IsEdge(e, f)
  {
    if files != [] {
      var init, last := files[..|files| - 1], files[|files| - 1];
      EdgesMembers(init, e);
      EdgesInMembers(last, e);
      assert files == init + [last];
    }
  }

  /** An upward import of the file, with the layers of both ends ranked. */
  ghost predicate IsEdge(e: Edge, f: File) {
    && e.path == f.path && e.source == Layer(ModuleName(f.parts)) && e.target in Targets(f)
    && 0 <= Rank(Layer(ModuleName(f.parts))) < Rank(Layer(e.target))
  }

  /** The edges listed are the upward imports of the files, and all of them are listed. */
  lemma EdgesAre(r: Report, files: seq<File>, e: Edge)
    requires Lists(r, files)
    ensures e in r.edges <==> exists f :: f in files && IsEdge(e, f)
  {
    EdgesMembers(files, e);
    assert e in r.edges <==> e in multiset(r.edges);
    assert e in EdgesOf(files) <==> e in multiset(EdgesOf(files));
  }

  /** The layer of a dotted name is its second part if the first is palm; that of a file, its first directory. */
  lemma LayerIs(a: string, b: string, rest: string)
    requires Dotless(a) && Dotless(b)
    ensures Layer(a) == None
    ensures Layer(a + "." + b) == Layer(a + "." + (b + "." + rest)) == if a == "palm" then Some(b) else None
  {
    FirstPart(a, b);
    FirstPart(a, b + "." + rest);
    FirstPart(b, rest);
  }

  lemma FileLayerIs(first: string, rest: seq<string>)
    requires Dotless(first)
    ensures Layer(ModuleName([first] + rest)) == Some(first)
  {
    LayerIs("palm", first, Join(rest));
    assert ([first] + rest)[1..] == rest;
    assert "palm" + "." == "palm.";
    if rest == [] {
      assert "palm." + first == "palm" + "." + first;
    } else {
      assert Join([first] + rest) == first + "." + Join(rest);
      assert "palm." + (first + "." + Join(rest)) == "palm" + "." + (first + "." + Join(rest));
    }
  }

  /** The ranks, from the core outwards. */
  lemma RanksAre(layer: Option<string>)
    ensures Rank(layer) == 0 <==> layer == Some("core")
    ensures Rank(layer) == 1 <==> layer == Some("common")
    ensures Rank(layer) == 2 <==>
              (layer.Some? && layer.value in
                {"definitions", "instances", "states", "storages", "backends", "patterns", "providers", "services"})
    ensures Rank(layer) == 3 <==> layer == Some("app")
    ensures Rank(layer) == 4 <==> layer == Some("runtimes")
    ensures -1 <= Rank(layer) <= 4
  {}

  // ---------------------------------------------------------------------------
  // The books balance
  // ---------------------------------------------------------------------------

  lemma {:induction false} DirectionsSum(files: seq<File>)
    ensures AmountAll(files) == AmountOf(files, Upward) + AmountOf(files, Sibling)
                                + AmountOf(files, Downward) + AmountOf(files, Unranked)
  {
    if files != [] {
      DirectionsSum(files[..|files| - 1]);
      DirectionsSumIn(Targets(files[|files| - 1]), SourceRank(files[|files| - 1]));
    }
  }

  lemma {:induction false} DirectionsSumIn(targets: seq<string>, source: int)
    ensures |targets| == Amount(targets, source, Upward) + Amount(targets, source, Sibling)
                         + Amount(targets, source, Downward) + Amount(targets, source, Unranked)
  {
    if targets != [] {
      DirectionsSumIn(targets[..|targets| - 1], source);
    }
  }

  ghost predicate DistinctPaths(files: seq<File>) {
    forall i, j | 0 <= i < j < |files| :: files[i].path != files[j].path
  }

  lemma {:induction false} AbsentPath(files: seq<File>, path: Name)
    requires forall f | f in files :: f.path != path
    ensures AmountIn(files, path) == 0
  {
    if files != [] {
      AbsentPath(files[..|files| - 1], path);
    }
  }

  lemma {:induction false} OwnPath(files: seq<File>, k: nat)
    requires DistinctPaths(files) && k < |files|
    ensures AmountIn(files, files[k].path) == |Targets(files[k])|
    decreases |files|
  {
    if k == |files| - 1 {
      AbsentPath(files[..k], files[k].path);
    } else {
      OwnPath(files[..|files| - 1], k);
    }
  }

  lemma {:induction false} PartialSum(r: Report, files: seq<File>, n: nat)
    requires Tells(r, files) && DistinctPaths(files) && n <= |files|
    ensures SumPerFile(r, files[..n]) == AmountAll(files[..n])
  {
    if n > 0 {
      PartialSum(r, files, n - 1);
      assert files[..n][..n - 1] == files[..n - 1];
      OwnPath(files, n - 1);
    }
  }

  /** In every report the total is the sum of the four directions and the sum of the per-file counts,
      there is one edge per upward import, and each file has the count of its own tree. */
  lemma Balanced(r: Report, files: seq<File>)
    requires Tells(r, files) && DistinctPaths(files)
    ensures r.total == r.counts[Upward] + r.counts[Sibling] + r.counts[Downward] + r.counts[Unranked]
    ensures r.total == SumPerFile(r, files) && |r.edges| == AmountOf(files, Upward)
    ensures forall f | f in files :: PerFile(r, f.path) == |Targets(f)|
  {
    DirectionsSum(files);
    PartialSum(r, files, |files|);
    assert files[..|files|] == files;
    forall f | f in files ensures PerFile(r, f.path) == |Targets(f)| {
      var k :| 0 <= k < |files| && files[k] == f;
      OwnPath(files, k);
    }
  }
}
