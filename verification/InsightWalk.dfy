/** The insight walk: from a gating group's facts to every judgement reachable over the closed relation set. */
module InsightWalk {
  import opened Tables
  import opened Graph
  import opened UnionFind

  /** A spine node; `reversed` is the superseded flag of a Decision. */
  datatype Node = Node(rtype: DocType, reversed: bool, consolidated: bool)

  /** The nodes of the dream graph and its edges of the closed relation set, matched in either direction. */
  datatype DreamGraph = DreamGraph(nodes: map<int, Node>, edges: Edges)

  /** A row of the walk step; the label and flag of dst are read from its node. */
  datatype StepRow = StepRow(src: int, dst: int)

  predicate Walkable(g: DreamGraph, n: int) {
    n in g.nodes && !(g.nodes[n].rtype == Decision && g.nodes[n].reversed)
  }

  predicate Judgement(g: DreamGraph, n: int) {
    n in g.nodes && g.nodes[n].rtype != Fact
  }

  /** What one walk step crosses: both ends on the spine, neither a reversed decision. */
  function Links(g: DreamGraph): Edges {
    set e | e in g.edges && Walkable(g, e.0) && Walkable(g, e.1)
  }

  predicate Neighbour(g: DreamGraph, a: int, b: int) {
    Joined(Links(g), a, b)
  }

  /** The pairs a walk has seen once it queried `asked`. */
  function Crossed(g: DreamGraph, asked: set<int>): Edges {
    (set e | e in Links(g) && e.0 in asked) + (set e | e in Links(g) && e.1 in asked :: (e.1, e.0))
  }

  ghost predicate Reached(g: DreamGraph, seeds: set<int>, n: int) {
    exists s :: s in seeds && Connected(Links(g), s, n)
  }

  // ---------- what is reached, over the nodes and edges alone ----------

  /** A node the walk may stand on: on the spine, and not a decision that was reversed. */
  predicate Standing(g: DreamGraph, n: int) {
    n in g.nodes && (g.nodes[n].rtype == Decision ==> !g.nodes[n].reversed)
  }

  /** An edge, followed in either direction, between two such nodes at every step. */
  ghost predicate Trail(g: DreamGraph, path: seq<int>, a: int, b: int) {
    path != [] && path[0] == a && path[|path| - 1] == b
    && forall i :: 0 <= i < |path| - 1 ==> Crosses(g, path[i], path[i + 1])
  }

  predicate Crosses(g: DreamGraph, a: int, b: int) {
    Standing(g, a) && Standing(g, b) && ((a, b) in g.edges || (b, a) in g.edges)
  }

  lemma TrailIsPath(g: DreamGraph, path: seq<int>, a: int, b: int)
    ensures Trail(g, path, a, b) <==> PathFrom(Links(g), path, a, b)
  {
    forall x, y ensures Joined(Links(g), x, y) <==> Crosses(g, x, y) {
      assert (x, y) in Links(g) <==> (x, y) in g.edges && Walkable(g, x) && Walkable(g, y);
      assert (y, x) in Links(g) <==> (y, x) in g.edges && Walkable(g, y) && Walkable(g, x);
    }
  }

  /** The walk reaches exactly what a trail leads to, from some seed. */
  lemma ReachedExactly(g: DreamGraph, seeds: set<int>, n: int)
    ensures Reached(g, seeds, n) <==> exists s, path :: s in seeds && Trail(g, path, s, n)
  {
    if s :| s in seeds && Connected(Links(g), s, n) {
      var path :| PathFrom(Links(g), path, s, n);
      TrailIsPath(g, path, s, n);
    }
    if s, path :| s in seeds && Trail(g, path, s, n) {
      TrailIsPath(g, path, s, n);
      assert Connected(Links(g), s, n);
    }
  }

  /** No reversed decision is ever reached. */
  lemma ReversedIsNotReached(g: DreamGraph, seeds: set<int>, n: int)
    requires Reached(g, seeds, n) && n !in seeds
    ensures n in g.nodes && (g.nodes[n].rtype == Decision ==> !g.nodes[n].reversed)
  {
    ReachedExactly(g, seeds, n);
    var s, path :| s in seeds && Trail(g, path, s, n);
    assert |path| > 1;
    var i := |path| - 2;
    assert Crosses(g, path[i], path[i + 1]);
  }

  /** One BFS layer, in whatever order the database returns it. */
  method FetchNeighbors(g: DreamGraph, frontier: seq<int>) returns (rows: seq<StepRow>)
    ensures forall r :: r in rows <==> r.src in frontier && Neighbour(g, r.src, r.dst)
  {
    rows := [];
    var links := Links(g);
    var wanted := (set e | e in links && e.0 in frontier :: StepRow(e.0, e.1))
                + (set e | e in links && e.1 in frontier :: StepRow(e.1, e.0));
    var todo := wanted;
    while todo != {}
      invariant todo <= wanted
      invariant forall r :: r in rows <==> r in wanted && r !in todo
      decreases |todo|
    {
      ghost var any := Pick(todo);
      var r :| r in todo;
      rows := rows + [r];
      todo := todo - {r};
    }
    forall r ensures r in wanted <==> r.src in frontier && Neighbour(g, r.src, r.dst) {
      if r.src in frontier && (r.src, r.dst) in links { assert StepRow((r.src, r.dst).0, (r.src, r.dst).1) in wanted; }
      if r.src in frontier && (r.dst, r.src) in links { assert StepRow((r.dst, r.src).1, (r.dst, r.src).0) in wanted; }
    }
  }

  function RowEdges(rows: seq<StepRow>): Edges {
    if rows == [] then {} else RowEdges(rows[..|rows| - 1]) + {(rows[|rows| - 1].src, rows[|rows| - 1].dst)}
  }

  function Destinations(rows: seq<StepRow>): set<int> {
    if rows == [] then {} else Destinations(rows[..|rows| - 1]) + {rows[|rows| - 1].dst}
  }

  lemma {:induction false} RowsMembers(rows: seq<StepRow>)
    ensures forall e :: e in RowEdges(rows) <==> StepRow(e.0, e.1) in rows
    ensures forall x :: x in Destinations(rows) <==> exists r :: r in rows && r.dst == x
  {
    if rows == [] {
    } else {
      var n := |rows| - 1;
      RowsMembers(rows[..n]);
      assert rows == rows[..n] + [rows[n]];
    }
  }

  lemma RowsStep(rows: seq<StepRow>, i: nat, crossed: Edges, seen: set<int>)
    requires i < |rows|
    ensures crossed + RowEdges(rows[..i + 1]) == crossed + RowEdges(rows[..i]) + {(rows[i].src, rows[i].dst)}
    ensures seen + Destinations(rows[..i + 1]) == seen + Destinations(rows[..i]) + {rows[i].dst}
  {
    assert rows[..i + 1][..i] == rows[..i];
  }

  function Judgements(g: DreamGraph, ids: seq<int>): seq<int> {
    if ids == [] then []
    else
      var front := Judgements(g, ids[..|ids| - 1]);
      if Judgement(g, ids[|ids| - 1]) then front + [ids[|ids| - 1]] else front
  }

  lemma {:induction false} JudgementsMembers(g: DreamGraph, ids: seq<int>)
    ensures forall x :: x in Judgements(g, ids) <==> x in ids && Judgement(g, x)
    ensures NoDup(ids) ==> NoDup(Judgements(g, ids))
  {
    if ids == [] {
    } else {
      var front := ids[..|ids| - 1];
      JudgementsMembers(g, front);
      assert ids == front + [ids[|ids| - 1]];
    }
  }

  lemma RootsInside(f: Forest)
    requires f.Valid()
    ensures forall y :: y in f.root ==> f.root[y] in f.root
  {
    forall y | y in f.root ensures f.root[y] in f.root { assert NodeOk(f.parent, f.root, f.rank, y); }
  }

  /** The forest holds these nodes, joined along these edges. */
  ghost predicate ForestHolds(forest: Forest, nodes: set<int>, edges: Edges)
    reads forest
  {
    forest.Valid() && forest.root.Keys == nodes && Represents(forest.root, edges)
  }

  /** What one union makes of a forest that holds the row's first end. */
  lemma CrossKeeps(forest: Forest, nodes: set<int>, crossed: Edges, u: int, v: int)
    requires ForestHolds(forest, nodes, crossed) && u in nodes
    ensures var grown := WithSingleton(WithSingleton(forest.root, u), v);
            var joined := Merged(grown, grown[u], grown[v]);
            joined.Keys == nodes + {v} && Represents(joined, crossed + {(u, v)})
  {
    RootsInside(forest);
    UnionRepresents(forest.root, crossed, u, v);
  }

  /** A row's first end was asked, so it is held already. */
  method CrossRow(forest: Forest, r: StepRow, ghost nodes: set<int>, ghost crossed: Edges)
    requires ForestHolds(forest, nodes, crossed) && r.src in nodes
    modifies forest
    ensures ForestHolds(forest, nodes + {r.dst}, crossed + {(r.src, r.dst)})
  {
    CrossKeeps(forest, nodes, crossed, r.src, r.dst);
    forest.Union(r.src, r.dst);
  }

  /** The new frontier and the judgements appended, against what was seen before the layer. */
  ghost predicate Layer(
    g: DreamGraph, seen0: set<int>, order0: seq<int>, seen: set<int>, order: seq<int>, frontier: seq<int>) {
    seen0 <= seen && NoDup(frontier) && (forall x :: x in frontier <==> x in seen && x !in seen0)
    && order == order0 + Judgements(g, frontier)
  }

  lemma LayerStep(
    g: DreamGraph, seen0: set<int>, order0: seq<int>, seen: set<int>, order: seq<int>, frontier: seq<int>, x: int)
    requires Layer(g, seen0, order0, seen, order, frontier) && x !in seen
    ensures Layer(g, seen0, order0, seen + {x}, if Judgement(g, x) then order + [x] else order, frontier + [x])
  {
    assert (frontier + [x])[..|frontier|] == frontier;
  }

  /** A node not seen before joins the layer. */
  method TakeUp(
    g: DreamGraph, x: int, seen: set<int>, order: seq<int>, frontier: seq<int>, ghost seen0: set<int>,
    ghost order0: seq<int>)
    returns (seen': set<int>, order': seq<int>, frontier': seq<int>)
    requires Layer(g, seen0, order0, seen, order, frontier)
    ensures Layer(g, seen0, order0, seen', order', frontier') && seen' == seen + {x}
  {
    seen', order', frontier' := seen, order, frontier;
    if x !in seen {
      LayerStep(g, seen0, order0, seen, order, frontier, x);
      seen' := seen + {x};
      if Judgement(g, x) { order' := order + [x]; }
      frontier' := frontier + [x];
    }
  }

  /** The inner loop over one layer's rows: union the ends, then take up each node not seen before. */
  method VisitRows(
    g: DreamGraph, rows: seq<StepRow>, forest: Forest, seen0: set<int>, order0: seq<int>, ghost crossed: Edges)
    returns (seen: set<int>, order: seq<int>, frontier: seq<int>)
    requires ForestHolds(forest, seen0, crossed)
    requires forall r :: r in rows ==> r.src in seen0
    modifies forest
    ensures ForestHolds(forest, seen, crossed + RowEdges(rows))
    ensures Layer(g, seen0, order0, seen, order, frontier)
    ensures seen == seen0 + Destinations(rows)
  {
    seen, order, frontier := seen0, order0, [];
    ghost var joined, reached := crossed, seen0;
    for i := 0 to |rows|
      invariant joined == crossed + RowEdges(rows[..i]) && reached == seen0 + Destinations(rows[..i])
      invariant seen == reached && ForestHolds(forest, reached, joined)
      invariant Layer(g, seen0, order0, seen, order, frontier)
    {
      RowsStep(rows, i, crossed, seen0);
      seen, order, frontier := VisitRow(g, rows[i], forest, seen0, order0, joined, seen, order, frontier);
      joined, reached := joined + {(rows[i].src, rows[i].dst)}, reached + {rows[i].dst};
    }
    assert rows[..|rows|] == rows;
  }

  method VisitRow(
    g: DreamGraph, r: StepRow, forest: Forest, ghost seen0: set<int>, ghost order0: seq<int>, ghost joined: Edges,
    seen: set<int>, order: seq<int>, frontier: seq<int>)
    returns (seen': set<int>, order': seq<int>, frontier': seq<int>)
    requires ForestHolds(forest, seen, joined) && r.src in seen && Layer(g, seen0, order0, seen, order, frontier)
    modifies forest
    ensures ForestHolds(forest, seen + {r.dst}, joined + {(r.src, r.dst)})
    ensures seen' == seen + {r.dst} && Layer(g, seen0, order0, seen', order', frontier')
  {
    CrossRow(forest, r, seen, joined);
    seen', order', frontier' := TakeUp(g, r.dst, seen, order, frontier, seen0, order0);
  }

  // ---------- the fixpoint ----------

  /** Every layer queries ids not queried before; only the seeds could repeat, as the caller gave them. */
  ghost predicate AskedOnce(seeds: seq<int>, asked: seq<int>) {
    |seeds| <= |asked| && asked[..|seeds|] == seeds && NoDup(asked[|seeds|..]) && forall x :: x in asked[|seeds|..] ==>
      x !in seeds
  }

  ghost predicate WalkState(
    g: DreamGraph, seeds: seq<int>, queried: seq<int>, frontier: seq<int>, seen: set<int>, order: seq<int>) {
    seen == Elems(queried) + Elems(frontier) && Elems(queried) !! Elems(frontier)
    && AskedOnce(seeds, queried + frontier)
    && (forall x :: x in seen ==> Reached(g, Elems(seeds), x))
    && (forall a, b :: a in queried && Neighbour(g, a, b) ==> b in seen)
    && NoDup(order) && forall x :: x in order <==> x in seen && Judgement(g, x)
  }

  lemma CrossedGrows(g: DreamGraph, asked: set<int>, frontier: seq<int>, rows: seq<StepRow>)
    requires forall r :: r in rows <==> r.src in frontier && Neighbour(g, r.src, r.dst)
    ensures Crossed(g, asked + Elems(frontier)) == Crossed(g, asked) + RowEdges(rows)
  {
    RowsMembers(rows);
    forall e ensures e in Crossed(g, asked + Elems(frontier)) <==> e in Crossed(g, asked) + RowEdges(rows) {
      CrossedMember(g, asked + Elems(frontier), e);
      CrossedMember(g, asked, e);
      assert StepRow(e.0, e.1) in rows <==> e.0 in frontier && Neighbour(g, e.0, e.1);
    }
  }

  lemma CrossedMember(g: DreamGraph, asked: set<int>, e: (int, int))
    ensures e in Crossed(g, asked) <==> e.0 in asked && Neighbour(g, e.0, e.1)
  {
    if e.0 in asked && (e.1, e.0) in Links(g) {
      assert ((e.1, e.0).1, (e.1, e.0).0) == e;
    }
  }

  lemma ReachedNeighbour(g: DreamGraph, seeds: set<int>, a: int, b: int)
    requires Reached(g, seeds, a) && Neighbour(g, a, b)
    ensures Reached(g, seeds, b)
  {
    var s :| s in seeds && Connected(Links(g), s, a);
    ConnectedStep(Links(g), a, b);
    ConnectedTrans(Links(g), s, a, b);
  }

  lemma AskedNext(seeds: seq<int>, asked: seq<int>, frontier: seq<int>)
    requires AskedOnce(seeds, asked) && NoDup(frontier) && forall x :: x in frontier ==> x !in asked
    ensures AskedOnce(seeds, asked + frontier)
  {
    var n := |seeds|;
    assert (asked + frontier)[n..] == asked[n..] + frontier;
    assert asked == asked[..n] + asked[n..];
    NoDupJoin(asked[n..], frontier);
    assert (asked + frontier)[..n] == asked[..n];
  }

  /** One layer keeps the state of the walk. */
  lemma WalkStep(g: DreamGraph, seeds: seq<int>, queried: seq<int>, frontier: seq<int>, seen: set<int>, order: seq<int>,
                 rows: seq<StepRow>, seen': set<int>, order': seq<int>, frontier': seq<int>)
    requires WalkState(g, seeds, queried, frontier, seen, order)
    requires forall r :: r in rows <==> r.src in frontier && Neighbour(g, r.src, r.dst)
    requires Layer(g, seen, order, seen', order', frontier') && seen' == seen + Destinations(rows)
    ensures WalkState(g, seeds, queried + frontier, frontier', seen', order')
  {
    RowsMembers(rows);
    assert Elems(queried + frontier) == seen;
    assert forall x :: x in frontier' ==> x !in Elems(queried + frontier);
    AskedNext(seeds, queried + frontier, frontier');
    forall x | x in seen' ensures Reached(g, Elems(seeds), x) {
      if x !in seen {
        var r :| r in rows && r.dst == x;
        ReachedNeighbour(g, Elems(seeds), r.src, x);
      }
    }
    forall a, b | a in queried + frontier && Neighbour(g, a, b) ensures b in seen' {
      if a in frontier { assert StepRow(a, b) in rows; }
    }
    JudgementsMembers(g, frontier');
    forall x ensures x in seen' <==> x in Elems(queried + frontier) + Elems(frontier') {
      assert x in Elems(frontier') <==> x in frontier';
    }
    NoDupJoin(order, Judgements(g, frontier'));
  }

  lemma NoDupJoin(a: seq<int>, b: seq<int>)
    requires NoDup(a) && NoDup(b) && forall x :: x in a ==> x !in b
    ensures NoDup(a + b)
  {
    assert forall k :: 0 <= k < |a| ==> a[k] in a;
    assert forall k :: 0 <= k < |b| ==> b[k] in b;
  }

  // ---------- the walk, closed ----------

  /** A finished walk has seen exactly what the seeds reach. */
  lemma WalkIsClosure(g: DreamGraph, seeds: seq<int>, queried: seq<int>, seen: set<int>, order: seq<int>)
    requires WalkState(g, seeds, queried, [], seen, order)
    ensures forall n :: n in seen <==> Reached(g, Elems(seeds), n)
    ensures Elems(queried) == seen
  {
    assert queried + [] == queried;
    forall n | Reached(g, Elems(seeds), n) ensures n in seen {
      var s :| s in seeds && Connected(Links(g), s, n);
      var path :| PathFrom(Links(g), path, s, n);
      assert s in queried by { assert s in queried[..|seeds|]; }
      ClosedUnderPath(g, seen, path, s, n);
    }
  }

  lemma {:induction false} ClosedUnderPath(g: DreamGraph, seen: set<int>, path: seq<int>, a: int, b: int)
    requires PathFrom(Links(g), path, a, b) && a in seen
    requires forall x, y :: x in seen && Neighbour(g, x, y) ==> y in seen
    ensures b in seen
    decreases |path|
  {
    if |path| > 1 {
      FirstStep(Links(g), path);
      assert PathFrom(Links(g), path[1..], path[1], b);
      ClosedUnderPath(g, seen, path[1..], path[1], b);
    }
  }

  /** Inside a closed set, the crossed edges connect what the links connect. */
  lemma CrossedConnects(g: DreamGraph, seen: set<int>, a: int, b: int)
    requires forall x, y :: x in seen && Neighbour(g, x, y) ==> y in seen
    requires a in seen
    ensures Connected(Crossed(g, seen), a, b) <==> Connected(Links(g), a, b)
  {
    if Connected(Crossed(g, seen), a, b) {
      var p :| PathFrom(Crossed(g, seen), p, a, b);
      forall i | 0 <= i < |p| - 1 ensures Joined(Links(g), p[i], p[i + 1]) {
        CrossedMember(g, seen, (p[i], p[i + 1]));
        CrossedMember(g, seen, (p[i + 1], p[i]));
      }
      assert PathFrom(Links(g), p, a, b);
    }
    if Connected(Links(g), a, b) {
      var p :| PathFrom(Links(g), p, a, b);
      LinksCrossed(g, seen, p, a, b);
    }
  }

  lemma {:induction false} LinksCrossed(g: DreamGraph, seen: set<int>, path: seq<int>, a: int, b: int)
    requires forall x, y :: x in seen && Neighbour(g, x, y) ==> y in seen
    requires PathFrom(Links(g), path, a, b) && a in seen
    ensures Connected(Crossed(g, seen), a, b)
    decreases |path|
  {
    if |path| == 1 {
      ConnectedRefl(Crossed(g, seen), a);
    } else {
      FirstStep(Links(g), path);
      CrossedMember(g, seen, (a, path[1]));
      ConnectedStep(Crossed(g, seen), a, path[1]);
      assert PathFrom(Links(g), path[1..], path[1], b);
      LinksCrossed(g, seen, path[1..], path[1], b);
      ConnectedTrans(Crossed(g, seen), a, path[1], b);
    }
  }

  // ---------- components ----------

  /** Non-empty duplicate-free lists that split `members` along connectivity. */
  ghost predicate Components(g: DreamGraph, members: set<int>, comps: seq<seq<int>>) {
    (forall i :: 0 <= i < |comps| ==> comps[i] != [] && NoDup(comps[i]) && Elems(comps[i]) <= members)
    && (forall x :: x in members ==> exists i :: 0 <= i < |comps| && x in comps[i])
    && forall i, j, x, y :: 0 <= i < |comps| && 0 <= j < |comps| && x in comps[i] && y in comps[j] ==>
         (i == j <==> Connected(Links(g), x, y))
  }

  /** The same split, along equal roots. */
  ghost predicate RootGroups(root: map<int, int>, keys: seq<int>, members: seq<int>, comps: seq<seq<int>>)
    requires forall x :: x in members ==> x in root
  {
    |keys| == |comps| && NoDup(keys)
    && (forall i :: 0 <= i < |comps| ==> comps[i] != [] && NoDup(comps[i]))
    && (forall i, x :: 0 <= i < |comps| ==> (x in comps[i] <==> x in members && root[x] == keys[i]))
    && (forall x :: x in members ==> root[x] in keys)
  }

  lemma JoinsGroup(
    root: map<int, int>, keys: seq<int>, members: seq<int>, comps: seq<seq<int>>, k: nat, pid: int)
    requires pid in root && (forall x :: x in members ==> x in root) && pid !in members
    requires RootGroups(root, keys, members, comps) && k < |keys| && keys[k] == root[pid]
    ensures RootGroups(root, keys, members + [pid], comps[k := comps[k] + [pid]])
  {
  }

  lemma OpensGroup(root: map<int, int>, keys: seq<int>, members: seq<int>, comps: seq<seq<int>>, pid: int)
    requires pid in root && (forall x :: x in members ==> x in root) && pid !in members
    requires RootGroups(root, keys, members, comps) && root[pid] !in keys
    ensures RootGroups(root, keys + [root[pid]], members + [pid], comps + [[pid]])
  {
  }

  lemma NextOf(order: seq<int>, i: nat)
    requires NoDup(order) && i < |order|
    ensures order[i] in order && order[..i + 1] == order[..i] + [order[i]] && order[i] !in order[..i]
  {
  }

  /** groups.setdefault(uf.find(pid), []).append(pid), in label order. */
  method GroupByRoot(forest: Forest, order: seq<int>) returns (ghost keys: seq<int>, comps: seq<seq<int>>)
    requires forest.Valid() && NoDup(order) && forall x :: x in order ==> x in forest.root
    modifies forest
    ensures forest.Valid() && forest.root == old(forest.root)
    ensures RootGroups(forest.root, keys, order, comps)
  {
    keys, comps := [], [];
    var slots: seq<int> := [];
    for i := 0 to |order|
      invariant forest.Valid() && forest.root == old(forest.root) && slots == keys
      invariant RootGroups(forest.root, keys, order[..i], comps)
    {
      var pid := order[i];
      NextOf(order, i);
      var r := forest.Find(pid);
      if k :| 0 <= k < |slots| && slots[k] == r {
        JoinsGroup(forest.root, keys, order[..i], comps, k, pid);
        comps := comps[k := comps[k] + [pid]];
      } else {
        OpensGroup(forest.root, keys, order[..i], comps, pid);
        slots, keys, comps := slots + [r], keys + [r], comps + [[pid]];
      }
    }
    assert order[..|order|] == order;
  }

  lemma RootGroupsAreComponents(
    g: DreamGraph, root: map<int, int>, keys: seq<int>, order: seq<int>, comps: seq<seq<int>>)
    requires RootsConnect(g, root, order) && RootGroups(root, keys, order, comps)
    ensures Components(g, Elems(order), comps)
  {
    forall i | 0 <= i < |comps| ensures Elems(comps[i]) <= Elems(order) {
      forall x | x in comps[i] ensures x in order {}
    }
    forall x | x in Elems(order) ensures exists i :: 0 <= i < |comps| && x in comps[i] {
      var i :| 0 <= i < |keys| && keys[i] == root[x];
      assert x in comps[i];
    }
  }

  /** Equal roots among the members are connected members. */
  ghost predicate RootsConnect(g: DreamGraph, root: map<int, int>, members: seq<int>) {
    (forall x :: x in members ==> x in root)
    && forall a, b :: a in members && b in members ==> (root[a] == root[b] <==> Connected(Links(g), a, b))
  }

  /** What a walk that has nothing left to ask knows. */
  lemma FinishedWalk(
    g: DreamGraph, root: map<int, int>, seeds: seq<int>, asked: seq<int>, seen: set<int>, order: seq<int>)
    requires WalkState(g, seeds, asked, [], seen, order)
    requires root.Keys == seen && Represents(root, Crossed(g, Elems(asked)))
    ensures AskedOnce(seeds, asked) && forall n :: n in asked <==> Reached(g, Elems(seeds), n)
    ensures NoDup(order) && forall n :: n in order <==> Judgement(g, n) && Reached(g, Elems(seeds), n)
    ensures RootsConnect(g, root, order)
  {
    WalkIsClosure(g, seeds, asked, seen, order);
    assert asked + [] == asked;
    forall a, b | a in order && b in order ensures root[a] == root[b] <==> Connected(Links(g), a, b) {
      CrossedConnects(g, seen, a, b);
    }
  }

  /** Layer by layer, until a layer finds nothing new. */
  method WalkToFixpoint(g: DreamGraph, seeds: seq<int>, forest: Forest)
    returns (seen: set<int>, order: seq<int>, ghost asked: seq<int>)
    requires forest.Valid() && forest.root == map[]
    requires forall s :: s in seeds ==> !Judgement(g, s)
    modifies forest
    ensures WalkState(g, seeds, asked, [], seen, order) && ForestOfWalk(g, forest, asked, seen)
  {
    SeedForest(g, seeds, forest);
    seen := Elems(seeds);
    var frontier := seeds;
    order, asked := [], [];
    SeedState(g, seeds);
    ghost var universe := g.nodes.Keys + Elems(seeds);
    while frontier != []
      invariant ForestOfWalk(g, forest, asked, seen)
      invariant WalkState(g, seeds, asked, frontier, seen, order) && seen <= universe
      decreases |universe - Elems(asked)|
    {
      AskedShrinks(universe, asked, frontier, seen);
      ghost var queried := asked + frontier;
      seen, order, frontier := WalkLayer(g, seeds, forest, asked, frontier, seen, order, universe);
      asked := queried;
    }
  }

  /**
   The walk. It ends by fixpoint, asks each node once, labels exactly the judgements the seeds reach, and
   splits them into components that are the connected parts of the whole graph.
   */
  method WalkReachedGraph(g: DreamGraph, seeds: seq<int>)
    returns (order: seq<int>, components: seq<seq<int>>, ghost asked: seq<int>)
    requires forall s :: s in seeds ==> !Judgement(g, s)
    ensures AskedOnce(seeds, asked) && forall n :: n in asked <==> Reached(g, Elems(seeds), n)
    ensures NoDup(order) && forall n :: n in order <==> Judgement(g, n) && Reached(g, Elems(seeds), n)
    ensures Components(g, Elems(order), components)
  {
    var forest := new Forest();
    var seen;
    seen, order, asked := WalkToFixpoint(g, seeds, forest);
    FinishedWalk(g, forest.root, seeds, asked, seen, order);
    ghost var keys;
    keys, components := GroupByRoot(forest, order);
    RootGroupsAreComponents(g, forest.root, keys, order, components);
  }

  /** The forest holds what was seen, joined along what was asked. */
  ghost predicate ForestOfWalk(g: DreamGraph, forest: Forest, asked: seq<int>, seen: set<int>)
    reads forest
  {
    ForestHolds(forest, seen, Crossed(g, Elems(asked)))
  }

  lemma AskedShrinks(universe: set<int>, asked: seq<int>, frontier: seq<int>, seen: set<int>)
    requires seen == Elems(asked) + Elems(frontier) && seen <= universe && frontier != []
    requires Elems(asked) !! Elems(frontier)
    ensures |universe - Elems(asked + frontier)| < |universe - Elems(asked)|
  {
    assert frontier[0] in frontier;
    assert frontier[0] in Elems(frontier) && frontier[0] in Elems(asked + frontier);
    assert Elems(asked) <= Elems(asked + frontier);
    ProperSubsetSmaller(universe - Elems(asked + frontier), universe - Elems(asked));
  }

  /** One turn of the loop: query the frontier, cross its rows, take the next frontier. */
  method WalkLayer(
    g: DreamGraph, seeds: seq<int>, forest: Forest, ghost asked: seq<int>, frontier: seq<int>, seen: set<int>,
    order: seq<int>, ghost universe: set<int>)
    returns (seen': set<int>, order': seq<int>, frontier': seq<int>)
    requires WalkState(g, seeds, asked, frontier, seen, order) && ForestOfWalk(g, forest, asked, seen)
    requires seen <= universe && g.nodes.Keys <= universe
    modifies forest
    ensures WalkState(g, seeds, asked + frontier, frontier', seen', order')
      && ForestOfWalk(g, forest, asked + frontier, seen')
    ensures seen' <= universe
  {
    var rows := FetchNeighbors(g, frontier);
    CrossedGrows(g, Elems(asked), frontier, rows);
    assert Elems(asked + frontier) == Elems(asked) + Elems(frontier);
    seen', order', frontier' := VisitRows(g, rows, forest, seen, order, Crossed(g, Elems(asked)));
    WalkStep(g, seeds, asked, frontier, seen, order, rows, seen', order', frontier');
    LayerInside(g, rows, seen, seen', universe);
  }

  /** Every seed joins the forest on its own. */
  method SeedForest(g: DreamGraph, seeds: seq<int>, forest: Forest)
    requires forest.Valid() && forest.root == map[]
    modifies forest
    ensures ForestHolds(forest, Elems(seeds), {})
  {
    for i := 0 to |seeds|
      invariant ForestHolds(forest, Elems(seeds[..i]), {})
    {
      assert seeds[..i + 1] == seeds[..i] + [seeds[i]];
      assert Elems(seeds[..i + 1]) == Elems(seeds[..i]) + {seeds[i]};
      AddSeed(forest, seeds[i], Elems(seeds[..i]));
    }
    assert seeds[..|seeds|] == seeds;
  }

  method AddSeed(forest: Forest, seed: int, ghost nodes: set<int>)
    requires ForestHolds(forest, nodes, {})
    modifies forest
    ensures ForestHolds(forest, nodes + {seed}, {})
  {
    RootsInside(forest);
    SingletonRepresents(forest.root, {}, seed);
    var r := forest.Find(seed);
  }

  lemma SeedState(g: DreamGraph, seeds: seq<int>)
    requires forall s :: s in seeds ==> !Judgement(g, s)
    ensures WalkState(g, seeds, [], seeds, Elems(seeds), []) && Crossed(g, Elems([])) == {}
  {
    assert [] + seeds == seeds;
    forall s | s in seeds ensures Reached(g, Elems(seeds), s) { ConnectedRefl(Links(g), s); }
  }

  lemma LayerInside(g: DreamGraph, rows: seq<StepRow>, seen: set<int>, seen': set<int>, universe: set<int>)
    requires seen <= universe && g.nodes.Keys <= universe && seen' == seen + Destinations(rows)
    requires forall r :: r in rows ==> Neighbour(g, r.src, r.dst)
    ensures seen' <= universe
  {
    RowsMembers(rows);
    forall x | x in Destinations(rows) ensures x in g.nodes {
      var r :| r in rows && r.dst == x;
      assert Neighbour(g, r.src, x);
    }
  }
}
