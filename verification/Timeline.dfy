/** The Timeline contract: cues, their dependency graph, and the structural validation that
    rejects a Timeline before any Show is armed. */
module TimelineContract {

  datatype LateMode = Skip | Abort

  datatype LatePolicy = LatePolicy(maxLatenessMs: int, mode: LateMode)

  /** One scheduled command request. The target, action and parameters are passed through
      to the Runtime unread, so only the fields that steer scheduling appear. */
  datatype Cue = Cue(cueId: string, atMs: int, runtime: string, dependsOn: seq<string>, latePolicy: LatePolicy)

  type Graph = map<string, seq<string>>

  datatype TimelineError =
    | DuplicateCue(cueId: string)
    | UnknownDependency(cueId: string, dependency: string)
    | DependencyCycle(path: seq<string>)

  // ---- the dependency graph ----

  /** `{cue.cue_id: cue.depends_on for cue in cues}`: a later cue with the same id wins. */
  function GraphOf(cues: seq<Cue>): Graph {
    if cues == [] then map[]
    else
      var last := cues[|cues| - 1];
      GraphOf(cues[..|cues| - 1])[last.cueId := last.dependsOn]
  }

  /** The keys of that dictionary in insertion order. */
  function KeyOrder(cues: seq<Cue>): seq<string> {
    if cues == [] then []
    else
      var before := KeyOrder(cues[..|cues| - 1]);
      var id := cues[|cues| - 1].cueId;
      if id in before then before else before + [id]
  }

  ghost predicate Edge(g: Graph, a: string, b: string) {
    a in g && b in g[a]
  }

  ghost predicate EdgeAt(g: Graph, w: seq<string>, i: int)
    requires 0 < i < |w|
  {
    Edge(g, w[i - 1], w[i])
  }

  /** A walk: from every node but the first there is an edge into it from the one before. */
  ghost predicate IsWalk(g: Graph, w: seq<string>) {
    |w| > 0 && forall i :: 0 < i < |w| ==> EdgeAt(g, w, i)
  }

  ghost predicate IsCycle(g: Graph, w: seq<string>) {
    |w| >= 2 && IsWalk(g, w) && w[0] == w[|w| - 1]
  }

  ghost predicate Acyclic(g: Graph) {
    forall w :: !IsCycle(g, w)
  }

  /** What an error message shows: a walk whose last node already occurs earlier on it. */
  ghost predicate IsReport(g: Graph, path: seq<string>) {
    && |path| >= 2
    && IsWalk(g, path)
    && path[|path| - 1] in path[..|path| - 1]
  }

  predicate DistinctIds(cues: seq<Cue>) {
    forall i, j :: 0 <= i < j < |cues| ==> cues[i].cueId != cues[j].cueId
  }

  predicate KnownDependencies(cues: seq<Cue>) {
    forall i, k :: 0 <= i < |cues| && 0 <= k < |cues[i].dependsOn| ==> HasCue(cues, cues[i].dependsOn[k])
  }

  predicate HasCue(cues: seq<Cue>, id: string) {
    exists j :: 0 <= j < |cues| && cues[j].cueId == id
  }

  ghost predicate WellFormed(cues: seq<Cue>) {
    DistinctIds(cues) && KnownDependencies(cues) && Acyclic(GraphOf(cues))
  }

  lemma {:induction false} GraphKeys(cues: seq<Cue>)
    ensures forall id :: id in GraphOf(cues) <==> HasCue(cues, id)
    ensures forall id :: id in KeyOrder(cues) <==> HasCue(cues, id)
  {
    if cues != [] {
      var front := cues[..|cues| - 1];
      GraphKeys(front);
      forall id
        ensures HasCue(cues, id) <==> HasCue(front, id) || id == cues[|cues| - 1].cueId
      {
        if HasCue(front, id) {
          var j :| 0 <= j < |front| && front[j].cueId == id;
          assert cues[j].cueId == id;
        }
        if HasCue(cues, id) && id != cues[|cues| - 1].cueId {
          var j :| 0 <= j < |cues| && cues[j].cueId == id;
          assert front[j].cueId == id;
        }
      }
    }
  }

  lemma {:induction false} GraphEntry(cues: seq<Cue>, i: nat)
    requires DistinctIds(cues) && i < |cues|
    ensures cues[i].cueId in GraphOf(cues) && GraphOf(cues)[cues[i].cueId] == cues[i].dependsOn
  {
    if i < |cues| - 1 {
      GraphEntry(cues[..|cues| - 1], i);
    }
  }

  // ---- acyclicity ----

  /** Some report ends with the edge from `a` to `b`. */
  ghost predicate Closes(reports: seq<seq<string>>, a: string, b: string) {
    exists e :: e in reports && |e| >= 2 && e[|e| - 2] == a && e[|e| - 1] == b
  }

  /** Every known dependency of an entry stands before it, unless a report ends with that very edge. */
  ghost predicate Topological(g: Graph, reports: seq<seq<string>>, order: seq<string>) {
    forall i, d :: 0 <= i < |order| && Edge(g, order[i], d) && d in g ==>
      d in order[..i] || Closes(reports, order[i], d)
  }

  ghost predicate CutAt(reports: seq<seq<string>>, w: seq<string>, k: int) {
    0 < k < |w| && Closes(reports, w[k - 1], w[k])
  }

  /** Some edge of the walk ends a report. */
  ghost predicate IsCut(reports: seq<seq<string>>, w: seq<string>) {
    exists k :: CutAt(reports, w, k)
  }

  lemma SubWalk(g: Graph, w: seq<string>, lo: nat, hi: nat)
    requires IsWalk(g, w) && lo < hi <= |w|
    ensures IsWalk(g, w[lo..hi])
  {
    forall k | 0 < k < hi - lo
      ensures EdgeAt(g, w[lo..hi], k)
    {
      assert EdgeAt(g, w, lo + k);
    }
  }

  lemma ExtendWalk(g: Graph, w: seq<string>, b: string)
    requires IsWalk(g, w) && Edge(g, w[|w| - 1], b)
    ensures IsWalk(g, w + [b])
  {
    forall i | 0 < i <= |w|
      ensures EdgeAt(g, w + [b], i)
    {
      if i < |w| {
        assert EdgeAt(g, w, i);
      }
    }
  }

  lemma {:induction false} WalkDescends(
      g: Graph, reports: seq<seq<string>>, order: seq<string>, w: seq<string>, i: nat)
    requires Topological(g, reports, order) && i < |order| && !IsCut(reports, w)
    requires |w| >= 2 && IsWalk(g, w) && w[0] == order[i] && w[|w| - 1] in g
    ensures w[|w| - 1] in order[..i]
    decreases |w|
  {
    assert EdgeAt(g, w, 1) && !CutAt(reports, w, 1);
    if |w| > 2 {
      assert EdgeAt(g, w, 2);
      var j :| 0 <= j < i && order[..i][j] == w[1];
      SubWalk(g, w, 1, |w|);
      assert w[1..|w|] == w[1..];
      forall k ensures !CutAt(reports, w[1..], k) {
        assert !CutAt(reports, w, k + 1);
      }
      WalkDescends(g, reports, order, w[1..], j);
    }
  }

  /** A finishing order of the whole graph leaves no room for a cycle without an edge that ends a report. */
  lemma TopologicalCutsCycles(g: Graph, reports: seq<seq<string>>, order: seq<string>)
    requires Topological(g, reports, order)
    requires forall n :: n in g ==> n in order
    ensures forall w :: IsCycle(g, w) ==> IsCut(reports, w)
    ensures reports == [] ==> Acyclic(g)
  {
    forall w | IsCycle(g, w)
      ensures IsCut(reports, w)
    {
      if !IsCut(reports, w) {
        assert EdgeAt(g, w, 1);
        var i := FirstIndex(order, w[0]);
        WalkDescends(g, reports, order, w, i);
        assert false;
      }
    }
  }

  ghost function FirstIndex(s: seq<string>, x: string): (i: nat)
    requires x in s
    ensures i < |s| && s[i] == x && x !in s[..i]
  {
    if s[0] == x then 0
    else
      var k := FirstIndex(s[1..], x);
      assert s[..k + 1] == [s[0]] + s[1..][..k];
      k + 1
  }

  /** A reported path contains a real cycle: its suffix from the earlier occurrence. */
  lemma ReportIsCycle(g: Graph, path: seq<string>)
    requires IsReport(g, path)
    ensures exists i :: 0 <= i < |path| - 1 && IsCycle(g, path[i..])
  {
    var front := path[..|path| - 1];
    var i :| 0 <= i < |front| && front[i] == path[|path| - 1];
    SubWalk(g, path, i, |path|);
    assert path[i..|path|] == path[i..];
    assert IsCycle(g, path[i..]);
  }

  // ---- a blocked set of nodes would contain a cycle ----

  ghost predicate HasSuccessorIn(g: Graph, u: set<string>, a: string) {
    exists b :: b in u && Edge(g, a, b)
  }

  /** A walk of `n` edges inside `u`, when every node of `u` has a successor in `u`. */
  lemma {:induction false} WalkInside(g: Graph, u: set<string>, n: nat) returns (w: seq<string>)
    requires u != {}
    requires forall a :: a in u ==> HasSuccessorIn(g, u, a)
    ensures |w| == n + 1 && IsWalk(g, w)
    ensures forall i :: 0 <= i < |w| ==> w[i] in u
  {
    if n == 0 {
      var a :| a in u;
      w := [a];
    } else {
      var v := WalkInside(g, u, n - 1);
      assert HasSuccessorIn(g, u, v[|v| - 1]);
      var b :| b in u && Edge(g, v[|v| - 1], b);
      ExtendWalk(g, v, b);
      w := v + [b];
    }
  }

  lemma {:induction false} Pigeonhole(w: seq<string>, u: set<string>) returns (i: nat, j: nat)
    requires forall k :: 0 <= k < |w| ==> w[k] in u
    requires |w| > |u|
    ensures i < j < |w| && w[i] == w[j]
  {
    var x := w[0];
    if k :| 0 < k < |w| && w[k] == x {
      i, j := 0, k;
    } else {
      var rest := w[1..];
      forall k | 0 <= k < |rest|
        ensures rest[k] in u - {x}
      {
        assert rest[k] == w[k + 1];
      }
      i, j := Pigeonhole(rest, u - {x});
      i, j := i + 1, j + 1;
    }
  }

  lemma LoopIsCycle(g: Graph, w: seq<string>, i: nat, j: nat)
    requires IsWalk(g, w) && i < j < |w| && w[i] == w[j]
    ensures IsCycle(g, w[i..j + 1])
  {
    SubWalk(g, w, i, j + 1);
  }

  /** In an acyclic graph every non-empty set of nodes has one that depends on none of them. */
  lemma AcyclicHasMinimal(g: Graph, u: set<string>) returns (m: string)
    requires Acyclic(g) && u != {}
    ensures m in u && !HasSuccessorIn(g, u, m)
  {
    if a :| a in u && !HasSuccessorIn(g, u, a) {
      m := a;
    } else {
      var w := WalkInside(g, u, |u|);
      var i, j := Pigeonhole(w, u);
      LoopIsCycle(g, w, i, j);
      assert false;
    }
  }

  lemma {:induction false} TopologicalAppend(g: Graph, reports: seq<seq<string>>, order: seq<string>, n: string)
    requires Topological(g, reports, order)
    requires n in g && forall d :: d in g[n] && d in g ==> d in order || Closes(reports, n, d)
    ensures Topological(g, reports, order + [n])
  {
    var longer := order + [n];
    forall i, d | 0 <= i < |longer| && Edge(g, longer[i], d) && d in g
      ensures d in longer[..i] || Closes(reports, longer[i], d)
    {
      if i < |order| {
        assert order[i] == longer[i] && order[..i] == longer[..i];
      } else {
        assert longer[..i] == order;
      }
    }
  }

  // ---- the three-colour search ----

  datatype Color = White | Gray | Black

  /** The search's state: colours, reported paths, and the nodes in the order they turned Black. */
  datatype Search = Search(color: map<string, Color>, errors: seq<seq<string>>, finished: seq<string>)

  ghost function Whites(s: Search): set<string> {
    set n | n in s.color && s.color[n] == White
  }

  ghost predicate Sound(g: Graph, s: Search) {
    && s.color.Keys == g.Keys
    && (forall n :: n in s.finished <==> n in s.color && s.color[n] == Black)
    && (forall e :: e in s.errors ==> IsReport(g, e))
    && Topological(g, s.errors, s.finished)
  }

  /** The Gray nodes are exactly the nodes of the current path. */
  ghost predicate GrayIsPath(s: Search, path: seq<string>) {
    forall n :: n in path <==> n in s.color && s.color[n] == Gray
  }

  /** Colours only darken and reports are only added. */
  ghost predicate Later(s: Search, t: Search) {
    && Whites(t) <= Whites(s)
    && (forall n :: n in s.color && s.color[n] == Black ==> n in t.color && t.color[n] == Black)
    && s.errors <= t.errors
  }

  /** The edges from `n` to `deps` are dealt with: they lead to finished nodes or end a report. */
  ghost predicate Explored(g: Graph, s: Search, n: string, deps: seq<string>) {
    forall k :: 0 <= k < |deps| && deps[k] in g ==>
      (deps[k] in s.color && s.color[deps[k]] == Black) || Closes(s.errors, n, deps[k])
  }

  lemma ClosesStays(reports: seq<seq<string>>, more: seq<seq<string>>)
    requires reports <= more
    ensures forall a, b :: Closes(reports, a, b) ==> Closes(more, a, b)
  {
    forall a, b | Closes(reports, a, b)
      ensures Closes(more, a, b)
    {
      var e :| e in reports && |e| >= 2 && e[|e| - 2] == a && e[|e| - 1] == b;
      assert e in more;
    }
  }

  lemma ExploredNext(g: Graph, s: Search, t: Search, n: string, deps: seq<string>, i: nat)
    requires i < |deps| && Explored(g, s, n, deps[..i]) && Later(s, t)
    requires deps[i] in g ==> (deps[i] in t.color && t.color[deps[i]] == Black) || Closes(t.errors, n, deps[i])
    ensures Explored(g, t, n, deps[..i + 1])
  {
    ClosesStays(s.errors, t.errors);
    forall k | 0 <= k <= i && deps[k] in g
      ensures (deps[k] in t.color && t.color[deps[k]] == Black) || Closes(t.errors, n, deps[k])
    {
      if k < i {
        assert deps[..i][k] == deps[k];
      }
    }
  }

  ghost function Darken(s: Search, n: string): Search {
    s.(color := s.color[n := Gray])
  }

  lemma DarkenKeeps(g: Graph, s: Search, path: seq<string>, n: string)
    requires Sound(g, s) && GrayIsPath(s, path) && n in g && s.color[n] == White
    ensures Sound(g, Darken(s, n)) && GrayIsPath(Darken(s, n), path + [n]) && Later(s, Darken(s, n))
    ensures n !in Whites(Darken(s, n)) && n in Whites(s)
  {
  }

  lemma {:induction false} BlackenKeeps(g: Graph, s: Search, path: seq<string>, n: string)
    requires Sound(g, s) && GrayIsPath(s, path + [n]) && n in g && n !in path
    requires Explored(g, s, n, g[n])
    ensures var t := s.(color := s.color[n := Black], finished := s.finished + [n]);
      Sound(g, t) && GrayIsPath(t, path) && Later(s, t)
  {
    assert n in path + [n];
    TopologicalAppend(g, s.errors, s.finished, n);
    forall m
      ensures m in path <==> m in s.color && (if m == n then Black else s.color[m]) == Gray
    {
      assert m in path + [n] <==> m in path || m == n;
    }
  }

  lemma ReportKeeps(g: Graph, s: Search, path: seq<string>, dep: string)
    requires Sound(g, s) && GrayIsPath(s, path) && dep in s.color && s.color[dep] == Gray
    requires IsWalk(g, path) && Edge(g, path[|path| - 1], dep)
    ensures var t := s.(errors := s.errors + [path + [dep]]);
      Sound(g, t) && GrayIsPath(t, path) && Later(s, t) && Closes(t.errors, path[|path| - 1], dep)
  {
    var t := s.(errors := s.errors + [path + [dep]]);
    ClosesStays(s.errors, t.errors);
    assert path + [dep] in t.errors;
    ExtendWalk(g, path, dep);
    assert (path + [dep])[..|path|] == path;
  }

  lemma SearchDone(g: Graph, s: Search)
    requires Sound(g, s) && forall n :: n in g ==> s.color[n] == Black
    ensures s.errors == [] <==> Acyclic(g)
    ensures forall w :: IsCycle(g, w) ==> IsCut(s.errors, w)
  {
    TopologicalCutsCycles(g, s.errors, s.finished);
    if s.errors != [] {
      ReportIsCycle(g, s.errors[0]);
    }
  }

  class CycleSearch {
    const graph: Graph
    var color: map<string, Color>
    var errors: seq<seq<string>>
    ghost var finished: seq<string>

    ghost function State(): Search
      reads this
    {
      Search(color, errors, finished)
    }

    constructor (graph: Graph)
      ensures Sound(graph, State()) && this.graph == graph && errors == [] && GrayIsPath(State(), [])
    {
      this.graph := graph;
      color := map n | n in graph :: White;
      errors := [];
      finished := [];
    }

    method Visit(node: string, path: seq<string>)
      requires Sound(graph, State()) && GrayIsPath(State(), path)
      requires node in graph ==> color[node] == White && IsWalk(graph, path + [node])
      modifies this
      ensures Sound(graph, State()) && GrayIsPath(State(), path) && Later(old(State()), State())
      ensures node in graph ==> color[node] == Black
      decreases Whites(State())
    {
      if node !in graph {
        return;
      }
      DarkenKeeps(graph, State(), path, node);
      ghost var before := State();
      color := color[node := Gray];
      var trail := path + [node];
      var deps := graph[node];
      for i := 0 to |deps|
        invariant Sound(graph, State()) && GrayIsPath(State(), trail) && Later(before, State())
        invariant node !in Whites(State())
        invariant Explored(graph, State(), node, deps[..i])
      {
        var dep := deps[i];
        ghost var was := State();
        assert trail[|trail| - 1] == node && Edge(graph, node, dep);
        if dep in color && color[dep] == Gray {
          ReportKeeps(graph, State(), trail, dep);
          errors := errors + [trail + [dep]];
        } else if dep in color && color[dep] == White {
          ExtendWalk(graph, trail, dep);
          Visit(dep, trail);
        }
        ExploredNext(graph, was, State(), node, deps, i);
      }
      assert deps[..|deps|] == deps;
      BlackenKeeps(graph, State(), path, node);
      color := color[node := Black];
      finished := finished + [node];
    }

    method FindCycles(order: seq<string>)
      requires Sound(graph, State()) && GrayIsPath(State(), []) && errors == []
      requires forall n :: n in order <==> n in graph
      modifies this
      ensures errors == [] <==> Acyclic(graph)
      ensures forall e :: e in errors ==> IsReport(graph, e)
      ensures forall w :: IsCycle(graph, w) ==> IsCut(errors, w)
    {
      for i := 0 to |order|
        invariant Sound(graph, State()) && GrayIsPath(State(), [])
        invariant forall k :: 0 <= k < i ==> color[order[k]] == Black
      {
        if color[order[i]] == White {
          assert [] + [order[i]] == [order[i]];
          Visit(order[i], []);
        }
      }
      SearchDone(graph, State());
    }
  }

  // ---- validation ----

  /** Some cue before position `i` already carries the id of cue `i`. */
  predicate RepeatsEarlierId(cues: seq<Cue>, i: int)
    requires 0 <= i < |cues|
  {
    exists j :: 0 <= j < i && cues[j].cueId == cues[i].cueId
  }

  ghost predicate IsDuplicate(cues: seq<Cue>, id: string) {
    exists i :: 0 <= i < |cues| && cues[i].cueId == id && RepeatsEarlierId(cues, i)
  }

  ghost predicate DanglesBefore(cues: seq<Cue>, n: nat, id: string, dep: string)
    requires n <= |cues|
  {
    !HasCue(cues, dep) && exists i :: 0 <= i < n && cues[i].cueId == id && dep in cues[i].dependsOn
  }

  ghost predicate IsDangling(cues: seq<Cue>, id: string, dep: string) {
    DanglesBefore(cues, |cues|, id, dep)
  }

  ghost predicate IsNewDangling(cues: seq<Cue>, e: TimelineError, id: string, deps: seq<string>) {
    e.UnknownDependency? && e.cueId == id && e.dependency in deps && !HasCue(cues, e.dependency)
  }

  /** What one error message claims about the Timeline. */
  ghost predicate Justified(cues: seq<Cue>, e: TimelineError) {
    match e
    case DuplicateCue(id) => IsDuplicate(cues, id)
    case UnknownDependency(id, dep) => IsDangling(cues, id, dep)
    case DependencyCycle(path) => IsReport(GraphOf(cues), path)
  }

  method DuplicateErrors(cues: seq<Cue>) returns (errors: seq<TimelineError>)
    ensures forall e :: e in errors <==> e.DuplicateCue? && IsDuplicate(cues, e.cueId)
  {
    errors := [];
    var seen: set<string> := {};
    for i := 0 to |cues|
      invariant forall id :: id in seen <==> exists j :: 0 <= j < i && cues[j].cueId == id
      invariant forall e :: e in errors <==> e.DuplicateCue? && IsDuplicate(cues[..i], e.cueId)
    {
      var id := cues[i].cueId;
      DuplicateSnoc(cues, i);
      if id in seen {
        assert RepeatsEarlierId(cues, i);
        errors := errors + [DuplicateCue(id)];
      }
      seen := seen + {id};
    }
    assert cues[..|cues|] == cues;
  }

  lemma DuplicateSnoc(cues: seq<Cue>, i: nat)
    requires i < |cues|
    ensures forall id :: IsDuplicate(cues[..i + 1], id) <==>
      IsDuplicate(cues[..i], id) || (id == cues[i].cueId && RepeatsEarlierId(cues, i))
  {
    var short, long := cues[..i], cues[..i + 1];
    forall k | 0 <= k < i
      ensures RepeatsEarlierId(long, k) <==> RepeatsEarlierId(short, k)
    {
      if j :| 0 <= j < k && long[j].cueId == long[k].cueId {
        assert short[j].cueId == short[k].cueId;
      }
      if j :| 0 <= j < k && short[j].cueId == short[k].cueId {
        assert long[j].cueId == long[k].cueId;
      }
    }
    assert RepeatsEarlierId(long, i) <==> RepeatsEarlierId(cues, i) by {
      if j :| 0 <= j < i && long[j].cueId == long[i].cueId {
        assert cues[j].cueId == cues[i].cueId;
      }
      if j :| 0 <= j < i && cues[j].cueId == cues[i].cueId {
        assert long[j].cueId == long[i].cueId;
      }
    }
    forall id
      ensures IsDuplicate(long, id) <==> IsDuplicate(short, id) || (id == cues[i].cueId && RepeatsEarlierId(cues, i))
    {
      if k :| 0 <= k < |long| && long[k].cueId == id && RepeatsEarlierId(long, k) {
        if k < i {
          assert short[k].cueId == id && RepeatsEarlierId(short, k);
        }
      }
      if k :| 0 <= k < |short| && short[k].cueId == id && RepeatsEarlierId(short, k) {
        assert long[k].cueId == id && RepeatsEarlierId(long, k);
      }
      if id == cues[i].cueId && RepeatsEarlierId(cues, i) {
        assert long[i].cueId == id && RepeatsEarlierId(long, i);
      }
    }
  }

  method UnknownErrors(cues: seq<Cue>) returns (errors: seq<TimelineError>)
    ensures forall e :: e in errors <==> e.UnknownDependency? && IsDangling(cues, e.cueId, e.dependency)
  {
    errors := [];
    var known := set i | 0 <= i < |cues| :: cues[i].cueId;
    assert forall id :: id in known <==> HasCue(cues, id);
    for i := 0 to |cues|
      invariant forall e :: e in errors <==> e.UnknownDependency? && DanglesBefore(cues, i, e.cueId, e.dependency)
    {
      ghost var before := errors;
      var deps := cues[i].dependsOn;
      for j := 0 to |deps|
        invariant forall e :: e in errors <==> (e in before || IsNewDangling(cues, e, cues[i].cueId, deps[..j]))
      {
        assert deps[..j + 1] == deps[..j] + [deps[j]];
        if deps[j] !in known {
          errors := errors + [UnknownDependency(cues[i].cueId, deps[j])];
        }
      }
      assert deps[..|deps|] == deps;
    }
  }

  /** Every error is justified, none is missing, and no errors means a well-formed Timeline. */
  method ValidateTimeline(cues: seq<Cue>) returns (errors: seq<TimelineError>)
    ensures errors == [] <==> WellFormed(cues)
    ensures forall e :: e in errors ==> Justified(cues, e)
    ensures forall id :: IsDuplicate(cues, id) ==> DuplicateCue(id) in errors
    ensures forall id, dep :: IsDangling(cues, id, dep) ==> UnknownDependency(id, dep) in errors
    ensures (exists e :: e in errors && e.DependencyCycle?) <==> !Acyclic(GraphOf(cues))
    ensures forall w :: IsCycle(GraphOf(cues), w) ==> IsCut(ReportedPaths(errors), w)
  {
    var duplicates := DuplicateErrors(cues);
    var unknown := UnknownErrors(cues);
    NoStructuralErrors(cues, duplicates, unknown);
    GraphKeys(cues);
    var search := new CycleSearch(GraphOf(cues));
    search.FindCycles(KeyOrder(cues));
    var cycles := seq(|search.errors|,
                      i requires 0 <= i < |search.errors| reads search => DependencyCycle(search.errors[i]));
    errors := duplicates + unknown + cycles;
    forall e | e in search.errors
      ensures DependencyCycle(e) in errors
    {
      var i :| 0 <= i < |search.errors| && search.errors[i] == e;
      assert cycles[i] in errors;
    }
    PathsAreReported(search.errors, errors);
    assert forall e :: e in cycles ==> e.DependencyCycle?;
    assert search.errors != [] ==> cycles[0] in errors;
    assert forall e :: e in duplicates ==> e in errors;
    assert forall e :: e in unknown ==> e in errors;
    assert errors == [] <==> duplicates == [] && unknown == [] && cycles == [];
  }

  /** The paths of the reported cycles. */
  ghost function ReportedPaths(errors: seq<TimelineError>): seq<seq<string>> {
    if errors == [] then []
    else (if errors[0].DependencyCycle? then [errors[0].path] else []) + ReportedPaths(errors[1..])
  }

  lemma {:induction false} PathIsReported(path: seq<string>, errors: seq<TimelineError>)
    requires DependencyCycle(path) in errors
    ensures path in ReportedPaths(errors)
  {
    if errors[0] != DependencyCycle(path) {
      PathIsReported(path, errors[1..]);
    }
  }

  lemma PathsAreReported(reports: seq<seq<string>>, errors: seq<TimelineError>)
    requires forall e :: e in reports ==> DependencyCycle(e) in errors
    ensures forall w :: IsCut(reports, w) ==> IsCut(ReportedPaths(errors), w)
  {
    var paths := ReportedPaths(errors);
    forall w | IsCut(reports, w)
      ensures IsCut(paths, w)
    {
      var k :| CutAt(reports, w, k);
      var e :| e in reports && |e| >= 2 && e[|e| - 2] == w[k - 1] && e[|e| - 1] == w[k];
      PathIsReported(e, errors);
      assert CutAt(paths, w, k);
    }
  }

  lemma NoStructuralErrors(cues: seq<Cue>, duplicates: seq<TimelineError>, unknown: seq<TimelineError>)
    requires forall e :: e in duplicates <==> e.DuplicateCue? && IsDuplicate(cues, e.cueId)
    requires forall e :: e in unknown <==> e.UnknownDependency? && IsDangling(cues, e.cueId, e.dependency)
    ensures (duplicates == [] <==> DistinctIds(cues)) && (unknown == [] <==> KnownDependencies(cues))
    ensures forall id :: IsDuplicate(cues, id) ==> DuplicateCue(id) in duplicates
    ensures forall id, dep :: IsDangling(cues, id, dep) ==> UnknownDependency(id, dep) in unknown
  {
    NoErrorsMeansWellFormed(cues);
    assert forall id :: IsDuplicate(cues, id) ==> DuplicateCue(id) in duplicates;
    assert forall id, dep :: IsDangling(cues, id, dep) ==> UnknownDependency(id, dep) in unknown;
    if duplicates != [] {
      assert duplicates[0] in duplicates;
    }
    if unknown != [] {
      assert unknown[0] in unknown;
    }
  }

  lemma NoErrorsMeansWellFormed(cues: seq<Cue>)
    ensures DistinctIds(cues) <==> forall id :: !IsDuplicate(cues, id)
    ensures KnownDependencies(cues) <==> forall id, dep :: !IsDangling(cues, id, dep)
  {
    if !DistinctIds(cues) {
      var i, j :| 0 <= i < j < |cues| && cues[i].cueId == cues[j].cueId;
      assert RepeatsEarlierId(cues, j);
      assert IsDuplicate(cues, cues[j].cueId);
    }
    if !KnownDependencies(cues) {
      var i, k :| 0 <= i < |cues| && 0 <= k < |cues[i].dependsOn| && !HasCue(cues, cues[i].dependsOn[k]);
      assert IsDangling(cues, cues[i].cueId, cues[i].dependsOn[k]);
    }
  }
}
