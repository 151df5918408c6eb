/** The queue walk of a workflow run. The outcomes of condition scripts and human reviews come from outside
    and are fixed per node. */
module WorkflowWalk {
  import opened Wrappers

  type NodeId = nat

  datatype NodeType = Start | AgentTask | HumanReview | Condition | Parallel | End

  datatype Node = Node(id: NodeId, nodeType: NodeType)

  datatype Edge = Edge(source: NodeId, target: NodeId, condition: Option<string>)

  /** `scripts` says whether the script of a condition node succeeds, and has no entry when it cannot be
      started. `approved` holds the review nodes that a human approved. */
  datatype Workflow = Workflow(nodes: seq<Node>, edges: seq<Edge>, scripts: map<NodeId, bool>, approved: set<NodeId>)

  datatype Status = Completed | Paused | NoStartNode | NodeNotFound | ScriptFailed

  // ---------- The enabled graph ----------

  function Find(nodes: seq<Node>, id: NodeId): Option<Node> {
    if nodes == [] then None else if nodes[0].id == id then Some(nodes[0]) else Find(nodes[1..], id)
  }

  function FindStart(nodes: seq<Node>): Option<NodeId> {
    if nodes == [] then None else if nodes[0].nodeType.Start? then Some(nodes[0].id) else FindStart(nodes[1..])
  }

  /** How the walk fares at a node. Completed means that it goes on from there. */
  function Visit(w: Workflow, id: NodeId): Status {
    match Find(w.nodes, id)
    case None => NodeNotFound
    case Some(node) =>
      if node.nodeType.HumanReview? && id !in w.approved then Paused
      else if node.nodeType.Condition? && id !in w.scripts then ScriptFailed
      else Completed
  }

  /** The walk follows edge k from its source. */
  predicate Follows(w: Workflow, k: nat)
    requires k < |w.edges|
  {
    var e := w.edges[k];
    Visit(w, e.source).Completed?
    && match Find(w.nodes, e.source).value.nodeType
       case End => false
       case Condition => e.condition == Some(if w.scripts[e.source] then "true" else "false")
       case _ => true
  }

  /** The followed edges out of a node among the first n, in order. */
  function OutEdges(w: Workflow, id: NodeId, n: nat): (r: seq<nat>)
    requires n <= |w.edges|
    ensures forall i | 0 <= i < |r| :: r[i] < n
  {
    if n == 0 then []
    else OutEdges(w, id, n - 1) + if w.edges[n - 1].source == id && Follows(w, n - 1) then [n - 1] else []
  }

  lemma {:induction false} OutEdgesAreAll(w: Workflow, id: NodeId, n: nat, k: nat)
    requires n <= |w.edges|
    ensures k in OutEdges(w, id, n) <==> k < n && Follows(w, k) && w.edges[k].source == id
  {
    hide Follows;
    if n > 0 {
      OutEdgesAreAll(w, id, n - 1, k);
    }
  }

  lemma {:induction false} OutEdgesAscend(w: Workflow, id: NodeId, n: nat)
    requires n <= |w.edges|
    ensures forall i, j | 0 <= i < j < |OutEdges(w, id, n)| :: OutEdges(w, id, n)[i] < OutEdges(w, id, n)[j]
  {
    hide Follows;
    if n > 0 {
      OutEdgesAscend(w, id, n - 1);
    }
  }

  // ---------- Paths ----------

  /** A path from the start node, as the edges it follows. Parallel edges make different paths. */
  type Path = seq<nat>

  function EndOf(w: Workflow, start: NodeId, p: Path): NodeId {
    if p == [] || p[|p| - 1] >= |w.edges| then start else w.edges[p[|p| - 1]].target
  }

  /** Edge k goes on from the end of p. */
  predicate GoesOn(w: Workflow, start: NodeId, p: Path, k: nat) {
    k < |w.edges| && Follows(w, k) && w.edges[k].source == EndOf(w, start, p)
  }

  predicate IsPath(w: Workflow, start: NodeId, p: Path) {
    forall i | 0 <= i < |p| :: GoesOn(w, start, p[..i], p[i])
  }

  lemma ExtendPath(w: Workflow, start: NodeId, p: Path, k: nat)
    ensures IsPath(w, start, p + [k]) <==> IsPath(w, start, p) && GoesOn(w, start, p, k)
  {
    var q := p + [k];
    assert forall i | 0 <= i <= |p| :: q[..i] == p[..i];
    assert p[..|p|] == p && q[|p|] == k;
    if IsPath(w, start, q) {
      forall i | 0 <= i < |p|
        ensures GoesOn(w, start, p[..i], p[i])
      {
        assert GoesOn(w, start, q[..i], q[i]);
      }
      assert GoesOn(w, start, q[..|p|], q[|p|]);
    }
  }

  lemma PrefixPath(w: Workflow, start: NodeId, p: Path, n: nat)
    requires IsPath(w, start, p) && n <= |p|
    ensures IsPath(w, start, p[..n])
  {
    assert forall i | 0 <= i <= n :: p[..n][..i] == p[..i];
  }

  /** An enabled cycle that a path from the start reaches: following q after p comes back to where p ended. */
  ghost predicate HasCycle(w: Workflow, start: NodeId) {
    exists p: Path, q: Path :: IsCycle(w, start, p, q)
  }

  ghost predicate IsCycle(w: Workflow, start: NodeId, p: Path, q: Path) {
    q != [] && IsPath(w, start, p) && IsPath(w, start, p + q) && EndOf(w, start, p + q) == EndOf(w, start, p)
  }

  lemma {:induction false} DistinctBelow(s: seq<nat>, n: nat)
    requires forall i | 0 <= i < |s| :: s[i] < n
    requires forall i, j | 0 <= i < j < |s| :: s[i] != s[j]
    ensures |s| <= n
  {
    if s != [] {
      assert s[0] < n;
      if i :| 0 <= i < |s| && s[i] == n - 1 {
        DistinctBelow(s[..i] + s[i + 1..], n - 1);
      } else {
        DistinctBelow(s, n - 1);
      }
    }
  }

  lemma SourceIsEnd(w: Workflow, start: NodeId, p: Path, k: nat)
    requires GoesOn(w, start, p, k)
    ensures k < |w.edges| && EndOf(w, start, p) == w.edges[k].source
  {
  }

  lemma RepeatedEdgeIsCycle(w: Workflow, start: NodeId, p: Path, i: nat, j: nat)
    requires IsPath(w, start, p) && i < j < |p| && p[i] == p[j]
    ensures HasCycle(w, start)
  {
    hide GoesOn, EndOf, Follows;
    assert GoesOn(w, start, p[..i], p[i]) && GoesOn(w, start, p[..j], p[j]);
    SourceIsEnd(w, start, p[..i], p[i]);
    SourceIsEnd(w, start, p[..j], p[j]);
    hide IsPath;
    PrefixPath(w, start, p, i);
    PrefixPath(w, start, p, j);
    assert p[..i] + p[i..j] == p[..j];
    assert IsCycle(w, start, p[..i], p[i..j]);
  }

  /** Without a cycle no path follows an edge twice, so none is longer than the number of edges. */
  lemma AcyclicBounds(w: Workflow, start: NodeId, p: Path)
    requires !HasCycle(w, start) && IsPath(w, start, p)
    ensures |p| <= |w.edges|
  {
    hide HasCycle;
    forall i, j | 0 <= i < j < |p|
      ensures p[i] != p[j]
    {
      if p[i] == p[j] {
        RepeatedEdgeIsCycle(w, start, p, i, j);
      }
    }
    forall i | 0 <= i < |p|
      ensures p[i] < |w.edges|
    {
      assert GoesOn(w, start, p[..i], p[i]);
    }
    DistinctBelow(p, |w.edges|);
  }

  // ---------- The walk on paths ----------

  /** The paths whose ends were started, and the paths whose ends wait in the queue. */
  datatype Walk = Walk(done: seq<Path>, queue: seq<Path>)

  function Extensions(p: Path, ks: seq<nat>): seq<Path> {
    seq(|ks|, i requires 0 <= i < |ks| => p + [ks[i]])
  }

  function Next(w: Workflow, start: NodeId, s: Walk): Walk
    requires s.queue != []
  {
    var p := s.queue[0];
    Walk(s.done + [p], s.queue[1..] + Children(w, start, p))
  }

  ghost predicate Distinct(ps: seq<Path>) { forall i, j | 0 <= i < j < |ps| :: ps[i] != ps[j] }

  ghost predicate ByLength(ps: seq<Path>) { forall i, j | 0 <= i < j < |ps| :: |ps[i]| <= |ps[j]| }

  ghost predicate AllPaths(w: Workflow, start: NodeId, ps: seq<Path>) {
    forall i | 0 <= i < |ps| :: IsPath(w, start, ps[i])
  }

  /** The parent of every path that is started or queued was started. */
  ghost predicate ParentsDone(s: Walk) {
    forall p | p in s.done + s.queue :: p != [] ==> p[..|p| - 1] in s.done
  }

  /** Every path that goes on from a started one is started or queued. */
  ghost predicate ChildrenKnown(w: Workflow, start: NodeId, s: Walk) {
    forall p, k | p in s.done && IsPath(w, start, p + [k]) :: p + [k] in s.done + s.queue
  }

  ghost predicate NearHead(s: Walk) {
    forall i | 0 <= i < |s.queue| :: |s.queue[i]| <= |s.queue[0]| + 1
  }

  ghost predicate Inv(w: Workflow, start: NodeId, s: Walk) {
    && AllPaths(w, start, s.done + s.queue)
    && Distinct(s.done + s.queue) && ByLength(s.done + s.queue) && NearHead(s)
    && [] in s.done + s.queue
    && ParentsDone(s) && ChildrenKnown(w, start, s)
  }

  function Children(w: Workflow, start: NodeId, p: Path): seq<Path> {
    Extensions(p, OutEdges(w, EndOf(w, start, p), |w.edges|))
  }

  /** The extensions of a path are different paths, one edge longer, and all of them. */
  lemma ChildrenAreAll(w: Workflow, start: NodeId, p: Path)
    requires IsPath(w, start, p)
    ensures var news := Children(w, start, p);
      && AllPaths(w, start, news) && Distinct(news)
      && (forall i | 0 <= i < |news| :: |news[i]| == |p| + 1 && news[i][..|p|] == p)
      && (forall k | IsPath(w, start, p + [k]) :: p + [k] in news)
  {
    hide IsPath, Follows;
    var ks, news := OutEdges(w, EndOf(w, start, p), |w.edges|), Children(w, start, p);
    OutEdgesAscend(w, EndOf(w, start, p), |w.edges|);
    forall i | 0 <= i < |news|
      ensures IsPath(w, start, news[i]) && |news[i]| == |p| + 1 && news[i][..|p|] == p
    {
      OutEdgesAreAll(w, EndOf(w, start, p), |w.edges|, ks[i]);
      ExtendPath(w, start, p, ks[i]);
      assert news[i] == p + [ks[i]];
    }
    forall i, j | 0 <= i < j < |news|
      ensures news[i] != news[j]
    {
      assert ks[i] < ks[j] && news[i][|p|] == ks[i] && news[j][|p|] == ks[j];
    }
    forall k | IsPath(w, start, p + [k])
      ensures p + [k] in news
    {
      ExtendPath(w, start, p, k);
      OutEdgesAreAll(w, EndOf(w, start, p), |w.edges|, k);
      var i :| 0 <= i < |ks| && ks[i] == k;
      assert news[i] == p + [k];
    }
  }

  /** The head of the queue is a path not yet started, and its extensions are not known yet. */
  lemma HeadIsNew(w: Workflow, start: NodeId, s: Walk)
    requires Inv(w, start, s) && s.queue != []
    ensures var p := s.queue[0];
      && IsPath(w, start, p) && p !in s.done
      && forall i | 0 <= i < |Children(w, start, p)| :: Children(w, start, p)[i] !in s.done + s.queue
  {
    hide IsPath, ChildrenKnown, Children, ByLength, NearHead;
    var all, p := s.done + s.queue, s.queue[0];
    assert all[|s.done|] == p;
    assert p !in s.done by {
      assert forall j | 0 <= j < |s.done| :: all[j] == s.done[j];
    }
    ChildrenAreAll(w, start, p);
    var news := Children(w, start, p);
    forall i | 0 <= i < |news|
      ensures news[i] !in all
    {
      assert news[i][..|news[i]| - 1] == p;
    }
  }

  lemma InvNext(w: Workflow, start: NodeId, s: Walk)
    requires Inv(w, start, s) && s.queue != []
    ensures IsPath(w, start, s.queue[0]) && Inv(w, start, Next(w, start, s))
  {
    hide IsPath, Children, ParentsDone, ChildrenKnown, Distinct, ByLength, NearHead;
    HeadIsNew(w, start, s);
    ChildrenAreAll(w, start, s.queue[0]);
    NextOrdered(w, start, s);
    NextParents(w, start, s);
    NextChildren(w, start, s);
    var all', all := Next(w, start, s).done + Next(w, start, s).queue, s.done + s.queue;
    assert all' == all + Children(w, start, s.queue[0]);
  }

  lemma NextOrdered(w: Workflow, start: NodeId, s: Walk)
    requires Inv(w, start, s) && s.queue != [] && IsPath(w, start, s.queue[0])
    ensures var s' := Next(w, start, s);
      Distinct(s'.done + s'.queue) && ByLength(s'.done + s'.queue) && NearHead(s')
  {
    hide IsPath, Children, ParentsDone, ChildrenKnown;
    HeadIsNew(w, start, s);
    ChildrenAreAll(w, start, s.queue[0]);
    var all, p, s' := s.done + s.queue, s.queue[0], Next(w, start, s);
    var all', n := s'.done + s'.queue, |s.done|;
    assert all' == all + Children(w, start, p);
    forall i | 0 <= i < |all|
      ensures |all[i]| <= |p| + 1
    {
      if i < n {
        assert |all[i]| <= |all[n]|;
      } else {
        assert all[i] == s.queue[i - n];
      }
    }
    AppendOrdered(all, Children(w, start, p), |p| + 1);
    forall i | 0 <= i < |s'.queue|
      ensures |s'.queue[i]| <= |s'.queue[0]| + 1
    {
      assert all'[n] == p && all'[n + 1] == s'.queue[0] && all'[n + 1 + i] == s'.queue[i];
      assert |all'[n + 1 + i]| <= |p| + 1 by {
        if n + 1 + i < |all| {
          assert all'[n + 1 + i] == all[n + 1 + i];
        } else {
          assert all'[n + 1 + i] == Children(w, start, p)[n + 1 + i - |all|];
        }
      }
    }
  }

  lemma NextParents(w: Workflow, start: NodeId, s: Walk)
    requires Inv(w, start, s) && s.queue != [] && IsPath(w, start, s.queue[0])
    ensures ParentsDone(Next(w, start, s))
  {
    hide IsPath, Children, ChildrenKnown, Distinct, ByLength, NearHead;
    ChildrenAreAll(w, start, s.queue[0]);
    var s' := Next(w, start, s);
    assert s'.done + s'.queue == s.done + s.queue + Children(w, start, s.queue[0]);
  }

  lemma NextChildren(w: Workflow, start: NodeId, s: Walk)
    requires Inv(w, start, s) && s.queue != [] && IsPath(w, start, s.queue[0])
    ensures ChildrenKnown(w, start, Next(w, start, s))
  {
    hide IsPath, Children, ParentsDone, Distinct, ByLength, NearHead;
    ChildrenAreAll(w, start, s.queue[0]);
    var s' := Next(w, start, s);
    assert s'.done + s'.queue == s.done + s.queue + Children(w, start, s.queue[0]);
  }

  lemma AppendOrdered(ps: seq<Path>, qs: seq<Path>, n: nat)
    requires Distinct(ps) && ByLength(ps) && Distinct(qs)
    requires forall i | 0 <= i < |ps| :: |ps[i]| <= n
    requires forall i | 0 <= i < |qs| :: |qs[i]| == n && qs[i] !in ps
    ensures Distinct(ps + qs) && ByLength(ps + qs)
  {
    var all := ps + qs;
    forall i, j | 0 <= i < j < |all|
      ensures all[i] != all[j] && |all[i]| <= |all[j]|
    {
      if j >= |ps| {
        assert all[j] == qs[j - |ps|];
        if i < |ps| {
          assert all[i] == ps[i];
        } else {
          assert all[i] == qs[i - |ps|];
        }
      }
    }
  }

  /** The first n rounds of the queue loop, for as long as there are any and taking no notice of a node that
      would end the run. */
  function WalkFor(w: Workflow, start: NodeId, n: nat): Walk {
    if n == 0 then Walk([], [[]])
    else
      var s := WalkFor(w, start, n - 1);
      if s.queue == [] then s else Next(w, start, s)
  }

  /** The run ends in round n: nothing is left to start, or the next node pauses it or makes it fail. */
  predicate Stopped(w: Workflow, start: NodeId, n: nat) {
    var s := WalkFor(w, start, n);
    s.queue == [] || !Visit(w, EndOf(w, start, s.queue[0])).Completed?
  }

  lemma NextRound(w: Workflow, start: NodeId, n: nat)
    requires WalkFor(w, start, n).queue != []
    ensures WalkFor(w, start, n + 1) == Next(w, start, WalkFor(w, start, n))
  {
  }

  lemma InvStart(w: Workflow, start: NodeId)
    ensures Inv(w, start, Walk([], [[]]))
  {
    var first: Path := [];
    var s := Walk([], [first]);
    assert s.done + s.queue == [first];
    assert [first][0] == first;
  }

  lemma {:induction false} WalkKeepsInv(w: Workflow, start: NodeId, n: nat)
    ensures Inv(w, start, WalkFor(w, start, n))
  {
    hide Inv, Next;
    if n == 0 {
      InvStart(w, start);
    } else {
      WalkKeepsInv(w, start, n - 1);
      var s := WalkFor(w, start, n - 1);
      if s.queue != [] {
        InvNext(w, start, s);
      }
    }
  }

  /** The started paths are the heads that the queue had, round by round. */
  lemma {:induction false} DoneWereHeads(w: Workflow, start: NodeId, n: nat)
    ensures var s := WalkFor(w, start, n);
      && |s.done| <= n && (s.queue != [] ==> |s.done| == n)
      && forall i | 0 <= i < |s.done| :: WalkFor(w, start, i).queue != [] && WalkFor(w, start, i).queue[0] == s.done[i]
  {
    hide Children;
    if n > 0 {
      DoneWereHeads(w, start, n - 1);
      var s := WalkFor(w, start, n - 1);
      if s.queue != [] {
        assert WalkFor(w, start, n).done == s.done + [s.queue[0]];
      }
    }
  }

  // ---------- When the walk ends ----------

  /** The number of paths that extend p by fewer than `fuel` edges. */
  function Weight(w: Workflow, start: NodeId, p: Path, fuel: nat): nat
    decreases fuel, 1, 0
  {
    if fuel == 0 then 0
    else 1 + ChildWeights(w, start, p, OutEdges(w, EndOf(w, start, p), |w.edges|), fuel - 1)
  }

  function ChildWeights(w: Workflow, start: NodeId, p: Path, ks: seq<nat>, fuel: nat): nat
    decreases fuel, 2, |ks|
  {
    if ks == [] then 0 else Weight(w, start, p + [ks[0]], fuel) + ChildWeights(w, start, p, ks[1..], fuel)
  }

  /** How many more nodes the queue makes the walk start by paths of at most n edges. */
  function QueueWeight(w: Workflow, start: NodeId, ps: seq<Path>, n: nat): nat {
    if ps == [] then 0
    else Weight(w, start, ps[0], if |ps[0]| <= n then n + 1 - |ps[0]| else 0) + QueueWeight(w, start, ps[1..], n)
  }

  lemma {:induction false} QueueWeightAppend(w: Workflow, start: NodeId, ps: seq<Path>, qs: seq<Path>, n: nat)
    ensures QueueWeight(w, start, ps + qs, n) == QueueWeight(w, start, ps, n) + QueueWeight(w, start, qs, n)
  {
    hide Weight;
    if ps == [] {
      assert ps + qs == qs;
    } else {
      assert (ps + qs)[1..] == ps[1..] + qs;
      QueueWeightAppend(w, start, ps[1..], qs, n);
    }
  }

  lemma {:induction false} ChildWeightsAreQueueWeight(w: Workflow, start: NodeId, p: Path, ks: seq<nat>, n: nat)
    requires |p| <= n
    ensures QueueWeight(w, start, Extensions(p, ks), n) == ChildWeights(w, start, p, ks, n - |p|)
  {
    if ks != [] {
      ChildWeightsAreQueueWeight(w, start, p, ks[1..], n);
      assert Extensions(p, ks) == [p + [ks[0]]] + Extensions(p, ks[1..]);
      assert Extensions(p, ks)[1..] == Extensions(p, ks[1..]);
    }
  }

  lemma WeightFalls(w: Workflow, start: NodeId, s: Walk, n: nat)
    requires s.queue != [] && |s.queue[0]| <= n
    ensures QueueWeight(w, start, Next(w, start, s).queue, n) < QueueWeight(w, start, s.queue, n)
  {
    hide EndOf, Follows, OutEdges, Extensions;
    var p, rest := s.queue[0], s.queue[1..];
    var ks := OutEdges(w, EndOf(w, start, p), |w.edges|);
    assert QueueWeight(w, start, s.queue, n) == Weight(w, start, p, n + 1 - |p|) + QueueWeight(w, start, rest, n);
    assert Weight(w, start, p, n + 1 - |p|) == 1 + ChildWeights(w, start, p, ks, n - |p|);
    ChildWeightsAreQueueWeight(w, start, p, ks, n);
    QueueWeightAppend(w, start, rest, Children(w, start, p), n);
  }

  /** The walk gets past the paths of any given length. */
  lemma {:induction false} GetsPast(w: Workflow, start: NodeId, from: nat, n: nat) returns (m: nat)
    ensures var queue := WalkFor(w, start, m).queue; queue != [] ==> |queue[0]| > n
    decreases QueueWeight(w, start, WalkFor(w, start, from).queue, n)
  {
    hide QueueWeight, Next;
    var s := WalkFor(w, start, from);
    if s.queue == [] || |s.queue[0]| > n {
      m := from;
    } else {
      WeightFalls(w, start, s, n);
      m := GetsPast(w, start, from + 1, n);
    }
  }

  lemma HeadIsShortest(s: Walk)
    requires ByLength(s.done + s.queue)
    ensures forall p | p in s.queue :: |s.queue[0]| <= |p|
  {
    var all := s.done + s.queue;
    assert forall i | 0 <= i < |s.queue| :: s.queue[i] == all[|s.done| + i];
  }

  /** Then every path of that length was started. */
  lemma {:induction false} ShorterAreDone(w: Workflow, start: NodeId, s: Walk, p: Path)
    requires Inv(w, start, s) && IsPath(w, start, p) && (s.queue != [] ==> |p| < |s.queue[0]|)
    ensures p in s.done
  {
    hide IsPath, Distinct, ByLength, NearHead, ParentsDone, AllPaths;
    HeadIsShortest(s);
    if p != [] {
      var front := p[..|p| - 1];
      PrefixPath(w, start, p, |p| - 1);
      ShorterAreDone(w, start, s, front);
      assert front + [p[|p| - 1]] == p;
    }
    assert p in s.done + s.queue;
  }

  /** Going round a cycle as often as needed gives a path of any length. */
  lemma {:induction false} CycleGoesOn(w: Workflow, start: NodeId, p: Path, q: Path, n: nat) returns (long: Path)
    requires IsCycle(w, start, p, q)
    ensures IsPath(w, start, long) && |long| >= n && EndOf(w, start, long) == EndOf(w, start, p)
  {
    if n == 0 {
      long := p;
    } else {
      var shorter := CycleGoesOn(w, start, p, q, n - 1);
      long := shorter + q;
      SameEndSamePaths(w, start, p, shorter, q);
    }
  }

  /** What goes on from a path depends on its end only. */
  lemma {:induction false} SameEndSamePaths(w: Workflow, start: NodeId, p: Path, p': Path, q: Path)
    requires IsPath(w, start, p + q) && IsPath(w, start, p') && EndOf(w, start, p) == EndOf(w, start, p')
    ensures IsPath(w, start, p' + q) && EndOf(w, start, p + q) == EndOf(w, start, p' + q)
  {
    hide IsPath, GoesOn, Follows, EndOf;
    if q == [] {
      assert p + q == p && p' + q == p';
    } else {
      var q', k := q[..|q| - 1], q[|q| - 1];
      assert p + q == p + q' + [k] && p' + q == p' + q' + [k];
      ExtendPath(w, start, p + q', k);
      SameEndSamePaths(w, start, p, p', q');
      SameEndGoesOn(w, start, p + q', p' + q', k);
      ExtendPath(w, start, p' + q', k);
    }
  }

  lemma SameEndGoesOn(w: Workflow, start: NodeId, p: Path, p': Path, k: nat)
    requires GoesOn(w, start, p, k) && EndOf(w, start, p) == EndOf(w, start, p')
    ensures GoesOn(w, start, p', k) && EndOf(w, start, p + [k]) == EndOf(w, start, p' + [k])
  {
  }

  /** When the queue is empty only finitely many paths were started, but they are all there are. */
  lemma EmptiedMeansNoCycle(w: Workflow, start: NodeId, n: nat)
    requires WalkFor(w, start, n).queue == []
    ensures !HasCycle(w, start)
  {
    hide Inv, IsPath, EndOf, WalkFor, IsCycle;
    if HasCycle(w, start) {
      var done := WalkFor(w, start, n).done;
      var p: Path, q: Path :| IsCycle(w, start, p, q);
      var long := CycleGoesOn(w, start, p, q, |done|);
      WalkKeepsInv(w, start, n);
      forall i: nat | i <= |done|
        ensures long[..i] in done
      {
        PrefixPath(w, start, long, i);
        ShorterAreDone(w, start, WalkFor(w, start, n), long[..i]);
      }
      PrefixesNeedRoom(done, long, |done|);
    }
  }

  /** A sequence that holds every prefix of a path up to n edges has more than n entries. */
  lemma PrefixesNeedRoom(ps: seq<Path>, long: Path, n: nat)
    requires n <= |long| && forall i: nat | i <= n :: long[..i] in ps
    ensures |ps| > n
  {
    var at := seq(n + 1, i requires 0 <= i <= n => PositionOf(ps, long[..i]));
    forall i, j | 0 <= i < j < |at|
      ensures at[i] != at[j]
    {
      assert |ps[at[i]]| == i && |ps[at[j]]| == j;
    }
    DistinctBelow(at, |ps|);
  }

  function PositionOf(ps: seq<Path>, p: Path): (i: nat)
    requires p in ps
    ensures i < |ps| && ps[i] == p
  {
    if ps[0] == p then 0 else 1 + PositionOf(ps[1..], p)
  }

  ghost predicate AllGoOn(w: Workflow, start: NodeId) {
    forall p | IsPath(w, start, p) :: Visit(w, EndOf(w, start, p)).Completed?
  }

  lemma EmptiesWithoutCycle(w: Workflow, start: NodeId) returns (n: nat)
    requires !HasCycle(w, start)
    ensures WalkFor(w, start, n).queue == []
  {
    hide HasCycle, WalkFor;
    n := GetsPast(w, start, 0, |w.edges|);
    WalkKeepsInv(w, start, n);
    var s := WalkFor(w, start, n);
    if s.queue != [] {
      HeadIsNew(w, start, s);
      AcyclicBounds(w, start, s.queue[0]);
    }
  }

  /** The loop ends if and only if no enabled cycle is in reach or the walk meets a node that ends it. */
  lemma StopsExactlyWhen(w: Workflow, start: NodeId)
    ensures (exists n: nat :: Stopped(w, start, n)) <==> !HasCycle(w, start) || !AllGoOn(w, start)
  {
    hide HasCycle, WalkFor, IsPath, Visit, EndOf;
    if !HasCycle(w, start) {
      var n := EmptiesWithoutCycle(w, start);
      assert Stopped(w, start, n);
    } else if p: Path :| IsPath(w, start, p) && !Visit(w, EndOf(w, start, p)).Completed? {
      var n := GetsPast(w, start, 0, |p|);
      WalkKeepsInv(w, start, n);
      hide Inv;
      ShorterAreDone(w, start, WalkFor(w, start, n), p);
      DoneWereHeads(w, start, n);
      assert Stopped(w, start, PositionOf(WalkFor(w, start, n).done, p));
    } else if n: nat :| Stopped(w, start, n) {
      if WalkFor(w, start, n).queue == [] {
        EmptiedMeansNoCycle(w, start, n);
      } else {
        WalkKeepsInv(w, start, n);
        HeadIsNew(w, start, WalkFor(w, start, n));
      }
    }
  }

  /** Round n is the one in which the run ends. */
  ghost predicate StopsFirst(w: Workflow, start: NodeId, n: nat) {
    Stopped(w, start, n) && forall m: nat | m < n :: !Stopped(w, start, m)
  }

  /** The run completes if and only if no enabled cycle is in reach and every enabled path leads to a node
      that the walk gets past. */
  lemma CompletesExactlyWhen(w: Workflow, start: NodeId, n: nat)
    requires StopsFirst(w, start, n)
    ensures WalkFor(w, start, n).queue == [] <==> !HasCycle(w, start) && AllGoOn(w, start)
  {
    hide HasCycle, WalkFor, IsPath, Visit, EndOf;
    WalkKeepsInv(w, start, n);
    DoneWereHeads(w, start, n);
    var s := WalkFor(w, start, n);
    if s.queue == [] {
      EmptiedMeansNoCycle(w, start, n);
      forall p | IsPath(w, start, p)
        ensures Visit(w, EndOf(w, start, p)).Completed?
      {
        ShorterAreDone(w, start, s, p);
        hide Inv;
        var i := PositionOf(s.done, p);
        assert !Stopped(w, start, i);
      }
    } else {
      HeadIsNew(w, start, s);
    }
  }

  // ---------- The number of starts ----------

  function Ends(w: Workflow, start: NodeId, ps: seq<Path>): seq<NodeId> {
    seq(|ps|, i requires 0 <= i < |ps| => EndOf(w, start, ps[i]))
  }

  lemma {:induction false} CountEnds(w: Workflow, start: NodeId, ps: seq<Path>, v: NodeId)
    requires Distinct(ps)
    ensures multiset(Ends(w, start, ps))[v] == |set p | p in ps && EndOf(w, start, p) == v|
  {
    var here := set p | p in ps && EndOf(w, start, p) == v;
    if ps == [] {
      assert here == {};
    } else {
      var last, front := ps[|ps| - 1], ps[..|ps| - 1];
      assert ps == front + [last];
      CountEnds(w, start, front, v);
      var before := set p | p in front && EndOf(w, start, p) == v;
      assert Ends(w, start, ps) == Ends(w, start, front) + [EndOf(w, start, last)];
      hide EndOf, Ends;
      assert last !in front;
      assert here == before + if EndOf(w, start, last) == v then {last} else {};
    }
  }

  /** In a run that completes, each node is started once for every enabled path that leads to it from the
      start node, and in the order of the lengths of these paths. */
  lemma StartsArePaths(w: Workflow, start: NodeId, n: nat, v: NodeId)
    ensures var s := WalkFor(w, start, n);
      var paths := set p | p in s.done && EndOf(w, start, p) == v;
      && multiset(Ends(w, start, s.done))[v] == |paths|
      && (forall p | p in paths :: IsPath(w, start, p))
      && (s.queue == [] ==> forall p | IsPath(w, start, p) && EndOf(w, start, p) == v :: p in paths)
      && (forall i, j | 0 <= i < j < |s.done| :: |s.done[i]| <= |s.done[j]|)
  {
    hide WalkFor, IsPath, EndOf, NearHead, ParentsDone, ChildrenKnown;
    WalkKeepsInv(w, start, n);
    var s := WalkFor(w, start, n);
    var all := s.done + s.queue;
    assert forall i | 0 <= i < |s.done| :: s.done[i] == all[i];
    CountEnds(w, start, s.done, v);
    forall p | p in s.done
      ensures IsPath(w, start, p)
    {
      assert all[PositionOf(s.done, p)] == p;
    }
    forall p | s.queue == [] && IsPath(w, start, p)
      ensures p in s.done
    {
      ShorterAreDone(w, start, s, p);
    }
  }

  // ---------- What stops a run ----------

  /** Lookup finds the first node with the id, and none exactly when no node has it. */
  lemma {:induction false} FindIsFirst(nodes: seq<Node>, id: NodeId)
    ensures Find(nodes, id).None? <==> forall i | 0 <= i < |nodes| :: nodes[i].id != id
    ensures Find(nodes, id).Some? ==> exists i | 0 <= i < |nodes| ::
      nodes[i] == Find(nodes, id).value && nodes[i].id == id && forall j | 0 <= j < i :: nodes[j].id != id
  {
    if nodes != [] && nodes[0].id != id {
      FindIsFirst(nodes[1..], id);
      assert forall i | 0 < i < |nodes| :: nodes[i] == nodes[1..][i - 1];
      if Find(nodes, id).Some? {
        var i :| 0 <= i < |nodes[1..]| && nodes[1..][i] == Find(nodes, id).value
          && forall j | 0 <= j < i :: nodes[1..][j].id != id;
        assert nodes[i + 1] == Find(nodes, id).value;
      }
    }
  }

  /** A run begins at the first start node. */
  lemma {:induction false} FindStartIsFirst(nodes: seq<Node>)
    ensures FindStart(nodes).None? <==> forall i | 0 <= i < |nodes| :: nodes[i].nodeType != Start
    ensures FindStart(nodes).Some? ==> exists i | 0 <= i < |nodes| ::
      nodes[i].id == FindStart(nodes).value && nodes[i].nodeType == Start
      && forall j | 0 <= j < i :: nodes[j].nodeType != Start
  {
    if nodes != [] && nodes[0].nodeType != Start {
      FindStartIsFirst(nodes[1..]);
      assert forall i | 0 < i < |nodes| :: nodes[i] == nodes[1..][i - 1];
      if FindStart(nodes).Some? {
        var i :| 0 <= i < |nodes[1..]| && nodes[1..][i].id == FindStart(nodes).value && nodes[1..][i].nodeType == Start
          && forall j | 0 <= j < i :: nodes[1..][j].nodeType != Start;
        assert nodes[i + 1].nodeType == Start;
      }
    }
  }

  predicate IsMissing(w: Workflow, id: NodeId) { Find(w.nodes, id).None? }

  /** A human review that nobody approved. */
  predicate IsUnapproved(w: Workflow, id: NodeId) {
    Find(w.nodes, id).Some? && Find(w.nodes, id).value.nodeType == HumanReview && id !in w.approved
  }

  /** A condition whose script cannot be started. */
  predicate IsScriptless(w: Workflow, id: NodeId) {
    Find(w.nodes, id).Some? && Find(w.nodes, id).value.nodeType == Condition && id !in w.scripts
  }

  /** The ways a run ends, by the node that was started last. All nodes started before it exist, are approved if
      they are reviews, and have a script if they are conditions. */
  predicate EndsRight(w: Workflow, status: Status, started: seq<NodeId>) {
    && (forall i | 0 <= i < |started| && (i < |started| - 1 || status == Completed) ::
          !IsMissing(w, started[i]) && !IsUnapproved(w, started[i]) && !IsScriptless(w, started[i]))
    && (status == NoStartNode <==> started == [])
    && (started != [] ==>
          var last := started[|started| - 1];
          && (status == Paused <==> IsUnapproved(w, last))
          && (status == ScriptFailed <==> IsScriptless(w, last))
          && (status == NodeNotFound <==> IsMissing(w, last)))
  }

  /** What the walk makes of a node follows from its type. */
  lemma VisitByType(w: Workflow, id: NodeId)
    ensures Visit(w, id) == NodeNotFound <==> IsMissing(w, id)
    ensures Visit(w, id) == Paused <==> IsUnapproved(w, id)
    ensures Visit(w, id) == ScriptFailed <==> IsScriptless(w, id)
    ensures Visit(w, id) != NoStartNode
  {
  }

  /** The nodes that the walk started before round n are passed. */
  lemma StartedArePassed(w: Workflow, start: NodeId, n: nat)
    requires StopsFirst(w, start, n)
    ensures var started := Ends(w, start, WalkFor(w, start, n).done);
      forall i | 0 <= i < |started| ::
        !IsMissing(w, started[i]) && !IsUnapproved(w, started[i]) && !IsScriptless(w, started[i])
  {
    hide WalkFor, EndOf, Visit, IsMissing, IsUnapproved, IsScriptless;
    DoneWereHeads(w, start, n);
    var started := Ends(w, start, WalkFor(w, start, n).done);
    forall i | 0 <= i < |started|
      ensures !IsMissing(w, started[i]) && !IsUnapproved(w, started[i]) && !IsScriptless(w, started[i])
    {
      assert !Stopped(w, start, i);
      VisitByType(w, started[i]);
    }
  }

  lemma EndIsRight(w: Workflow, start: NodeId, n: nat, status: Status, started: seq<NodeId>)
    requires StopsFirst(w, start, n)
    requires var s := WalkFor(w, start, n);
      if s.queue == [] then status == Completed && started == Ends(w, start, s.done)
      else started == Ends(w, start, s.done + [s.queue[0]]) && status == Visit(w, EndOf(w, start, s.queue[0]))
    ensures EndsRight(w, status, started)
  {
    hide EndOf, Visit, IsMissing, IsUnapproved, IsScriptless;
    var s := WalkFor(w, start, n);
    StartedArePassed(w, start, n);
    if s.queue == [] {
      SomethingStarted(w, start, n);
      assert started[|started| - 1] in started;
    } else {
      assert started == Ends(w, start, s.done) + [EndOf(w, start, s.queue[0])];
      hide WalkFor, Ends;
      VisitByType(w, started[|started| - 1]);
    }
  }

  lemma NoStartEndsRight(w: Workflow)
    ensures EndsRight(w, NoStartNode, [])
  {
  }

  lemma SomethingStarted(w: Workflow, start: NodeId, n: nat)
    requires WalkFor(w, start, n).queue == []
    ensures WalkFor(w, start, n).done != []
  {
    hide WalkFor;
    WalkKeepsInv(w, start, n);
  }

  // ---------- The loop of the engine ----------

  lemma FindHasId(nodes: seq<Node>, id: NodeId)
    requires Find(nodes, id).Some?
    ensures Find(nodes, id).value.id == id
  {
  }

  function Heads(w: Workflow, ks: seq<nat>): seq<NodeId>
    requires forall i | 0 <= i < |ks| :: ks[i] < |w.edges|
  {
    seq(|ks|, i requires 0 <= i < |ks| => w.edges[ks[i]].target)
  }

  lemma FollowsByType(w: Workflow, k: nat)
    requires k < |w.edges| && Visit(w, w.edges[k].source).Completed?
    ensures var e := w.edges[k];
      var nodeType := Find(w.nodes, e.source).value.nodeType;
      && Find(w.nodes, e.source).Some?
      && (Follows(w, k) <==> !nodeType.End? && (nodeType.Condition? ==>
            e.source in w.scripts && e.condition == Some(if w.scripts[e.source] then "true" else "false")))
  {
  }

  /** The nodes that follow a completed one. An end node has none, a condition takes the edges labelled with
      its outcome, and every other node takes all its edges, labelled or not. */
  method Targets(w: Workflow, node: Node) returns (targets: seq<NodeId>)
    requires Find(w.nodes, node.id) == Some(node) && Visit(w, node.id).Completed?
    ensures targets == Heads(w, OutEdges(w, node.id, |w.edges|))
  {
    targets := [];
    var outcome := if node.nodeType.Condition? && w.scripts[node.id] then "true" else "false";
    for n := 0 to |w.edges|
      invariant targets == Heads(w, OutEdges(w, node.id, n))
    {
      var edge := w.edges[n];
      ghost var ks := OutEdges(w, node.id, n);
      if edge.source == node.id {
        FollowsByType(w, n);
      }
      hide Follows, Visit, Find;
      if edge.source == node.id && !node.nodeType.End?
         && (node.nodeType.Condition? ==> edge.condition == Some(outcome)) {
        assert OutEdges(w, node.id, n + 1) == ks + [n];
        assert Heads(w, ks + [n]) == Heads(w, ks) + [edge.target];
        targets := targets + [edge.target];
      } else {
        assert OutEdges(w, node.id, n + 1) == ks;
      }
    }
  }

  lemma EndsOfChildren(w: Workflow, start: NodeId, p: Path)
    ensures Ends(w, start, Children(w, start, p)) == Heads(w, OutEdges(w, EndOf(w, start, p), |w.edges|))
  {
    hide Follows;
    var ks := OutEdges(w, EndOf(w, start, p), |w.edges|);
    assert forall i | 0 <= i < |ks| :: (p + [ks[i]])[|p|] == ks[i];
  }

  /** Runs the workflow from its start node. Each node that leaves the queue is started, and then looked up.
      A review that is not approved pauses the run. */
  method ProcessDag(w: Workflow) returns (status: Status, started: seq<NodeId>, ghost rounds: nat)
    requires var start := FindStart(w.nodes);
      start.Some? ==> !HasCycle(w, start.value) || !AllGoOn(w, start.value)
    ensures FindStart(w.nodes).None? <==> status == NoStartNode
    ensures status == NoStartNode ==> started == []
    ensures EndsRight(w, status, started)
    ensures FindStart(w.nodes).Some? ==>
      var start := FindStart(w.nodes).value;
      var s := WalkFor(w, start, rounds);
      && StopsFirst(w, start, rounds)
      && (status == Completed <==> !HasCycle(w, start) && AllGoOn(w, start))
      && (status == Completed <==> s.queue == [])
      && (status == Completed ==> started == Ends(w, start, s.done))
      && (status != Completed ==>
            started == Ends(w, start, s.done + [s.queue[0]]) && status == Visit(w, EndOf(w, start, s.queue[0])))
  {
    hide HasCycle, AllGoOn, Children, OutEdges, Follows, EndsRight;
    NoStartEndsRight(w);
    status, started, rounds := Completed, [], 0;
    var found := FindStart(w.nodes);
    if found == None {
      status := NoStartNode;
      return;
    }
    ghost var start := found.value;
    StopsExactlyWhen(w, start);
    ghost var bound: nat :| Stopped(w, start, bound);
    ghost var s := WalkFor(w, start, 0);
    var activeNodes := [found.value];
    assert activeNodes == Ends(w, start, s.queue);
    hide EndOf, Find, WalkFor;
    while activeNodes != []
      invariant status == Completed && rounds <= bound
      invariant s == WalkFor(w, start, rounds)
      invariant forall m: nat | m < rounds :: !Stopped(w, start, m)
      invariant started == Ends(w, start, s.done)
      invariant activeNodes == Ends(w, start, s.queue)
      decreases bound - rounds
    {
      ghost var head := s.queue[0];
      var current := activeNodes[0];
      assert current == EndOf(w, start, head);
      activeNodes := activeNodes[1..];
      started := started + [current];
      assert started == Ends(w, start, s.done + [head]);
      var node := Find(w.nodes, current);
      if node == None {
        status := NodeNotFound;
      } else if node.value.nodeType.HumanReview? && current !in w.approved {
        status := Paused;
      } else if node.value.nodeType.Condition? && current !in w.scripts {
        status := ScriptFailed;
      }
      if status != Completed {
        CompletesExactlyWhen(w, start, rounds);
        EndIsRight(w, start, rounds, status, started);
        return;
      }
      FindHasId(w.nodes, current);
      var targets := Targets(w, node.value);
      ghost var news := Children(w, start, head);
      EndsOfChildren(w, start, head);
      activeNodes := activeNodes + targets;
      assert activeNodes == Ends(w, start, s.queue[1..] + news);
      NextRound(w, start, rounds);
      s := Next(w, start, s);
      rounds := rounds + 1;
    }
    CompletesExactlyWhen(w, start, rounds);
    EndIsRight(w, start, rounds, status, started);
  }
}
