/** The disjoint-set of the walk: path-halving find, union without ranks. */
module UnionFind {
  import opened Tables
  import opened Graph

  lemma HigherShrinks(rank: map<int, nat>, x: int, y: int)
    requires x in rank && y in rank && rank[x] < rank[y]
    ensures |Higher(rank, y)| < |Higher(rank, x)|
  {
    assert y in Higher(rank, x) && y !in Higher(rank, y);
    ProperSubsetSmaller(Higher(rank, y), Higher(rank, x));
  }

  ghost function Higher(rank: map<int, nat>, x: int): set<int>
    requires x in rank
  {
    set z | z in rank && rank[z] > rank[x]
  }

  /** x's links stay inside, lead to its root, and climb in rank. */
  ghost predicate NodeOk(parent: map<int, int>, root: map<int, int>, rank: map<int, nat>, x: int) {
    x in parent && x in root && x in rank
    && parent[x] in parent && parent[x] in root && parent[x] in rank && root[x] in parent && root[x] in root
    && parent[root[x]] == root[x] && root[root[x]] == root[x]
    && root[parent[x]] == root[x]
    && (if parent[x] == x then root[x] == x else rank[x] < rank[parent[x]])
  }

  /** `root` names every element's tree, and no parent chain is cyclic. */
  ghost predicate ForestOk(parent: map<int, int>, root: map<int, int>, rank: map<int, nat>) {
    parent.Keys == root.Keys == rank.Keys
    && forall x {:trigger NodeOk(parent, root, rank, x)} :: x in parent ==> NodeOk(parent, root, rank, x)
  }

  lemma AddOk(parent: map<int, int>, root: map<int, int>, rank: map<int, nat>, x: int)
    requires ForestOk(parent, root, rank) && x !in parent
    ensures ForestOk(parent[x := x], root[x := x], rank[x := 0])
  {
    forall y | y in parent ensures NodeOk(parent[x := x], root[x := x], rank[x := 0], y) {
      assert NodeOk(parent, root, rank, y);
    }
  }

  /** Path halving: re-hanging a node from its grandparent. */
  lemma HalveOk(parent: map<int, int>, root: map<int, int>, rank: map<int, nat>, x: int)
    requires ForestOk(parent, root, rank) && x in parent && parent[x] != x
    ensures parent[x] in parent && parent[parent[x]] in parent && parent[parent[x]] in rank
    ensures ForestOk(parent[x := parent[parent[x]]], root, rank)
    ensures rank[x] < rank[parent[parent[x]]] && root[parent[parent[x]]] == root[x]
  {
    assert NodeOk(parent, root, rank, x) && NodeOk(parent, root, rank, parent[x]);
    var halved := parent[x := parent[parent[x]]];
    assert NodeOk(parent, root, rank, parent[parent[x]]);
    forall y | y in halved ensures NodeOk(halved, root, rank, y) {
      assert NodeOk(parent, root, rank, y);
    }
  }

  function Raised(rank: map<int, nat>, ra: int, rb: int): map<int, nat>
    requires ra in rank && rb in rank
  {
    rank[rb := if rank[rb] > rank[ra] then rank[rb] else rank[ra] + 1]
  }

  lemma AttachNode(parent: map<int, int>, root: map<int, int>, rank: map<int, nat>, ra: int, rb: int, y: int)
    requires NodeOk(parent, root, rank, ra) && NodeOk(parent, root, rank, rb) && NodeOk(parent, root, rank, y)
    requires parent[ra] == ra && parent[rb] == rb && ra != rb
    ensures NodeOk(parent[ra := rb], Merged(root, ra, rb), Raised(rank, ra, rb), y)
  {
    assert root[ra] == ra && root[rb] == rb;
  }

  /** Union without ranks: hanging one root from another, raising the survivor's rank if needed. */
  lemma AttachOk(parent: map<int, int>, root: map<int, int>, rank: map<int, nat>, ra: int, rb: int)
    requires ForestOk(parent, root, rank) && ra in parent && rb in parent && ra != rb
    requires parent[ra] == ra && parent[rb] == rb
    ensures ra in rank && rb in rank && ForestOk(parent[ra := rb], Merged(root, ra, rb), Raised(rank, ra, rb))
  {
    assert NodeOk(parent, root, rank, ra) && NodeOk(parent, root, rank, rb);
    assert parent[ra := rb].Keys == parent.Keys && Merged(root, ra, rb).Keys == root.Keys;
    assert Raised(rank, ra, rb).Keys == rank.Keys;
    forall y | y in parent ensures NodeOk(parent[ra := rb], Merged(root, ra, rb), Raised(rank, ra, rb), y) {
      AttachOne(parent, root, rank, ra, rb, y);
    }
  }

  lemma AttachOne(parent: map<int, int>, root: map<int, int>, rank: map<int, nat>, ra: int, rb: int, y: int)
    requires ForestOk(parent, root, rank) && ra in parent && rb in parent && ra != rb && y in parent
    requires parent[ra] == ra && parent[rb] == rb
    ensures ra in rank && rb in rank && NodeOk(parent[ra := rb], Merged(root, ra, rb), Raised(rank, ra, rb), y)
  {
    assert NodeOk(parent, root, rank, ra) && NodeOk(parent, root, rank, rb) && NodeOk(parent, root, rank, y);
    AttachNode(parent, root, rank, ra, rb, y);
  }

  class Forest {
    var parent: map<int, int>
    /** The root of every element's tree. */
    ghost var root: map<int, int>
    /** A height that strictly grows along every parent link: no cycle. */
    ghost var rank: map<int, nat>

    ghost predicate Valid()
      reads this
    {
      ForestOk(parent, root, rank)
    }

    constructor ()
      ensures Valid() && parent == map[] && root == map[]
    {
      parent, root, rank := map[], map[], map[];
    }

    /** The root of x, which joins as its own tree when new; every other tree keeps its members and its root. */
    method Find(x: int) returns (r: int)
      requires Valid()
      modifies this
      ensures Valid()
      ensures root == WithSingleton(old(root), x)
      ensures x in root && r == root[x] && r in parent && parent[r] == r
    {
      if x !in parent {
        AddOk(parent, root, rank, x);
        parent, root, rank := parent[x := x], root[x := x], rank[x := 0];
      }
      assert NodeOk(parent, root, rank, x);
      r := x;
      while parent[r] != r
        invariant Valid() && x in root && r in parent && r in root && r in rank && root[r] == root[x]
        invariant root == WithSingleton(old(root), x)
        decreases |Higher(rank, r)|
      {
        HalveOk(parent, root, rank, r);
        HigherShrinks(rank, r, parent[parent[r]]);
        parent := parent[r := parent[parent[r]]];
        r := parent[r];
      }
      assert NodeOk(parent, root, rank, r);
    }

    /** Joins the trees of a and b, new elements included, and no others. */
    method Union(a: int, b: int)
      requires Valid()
      modifies this
      ensures Valid()
      ensures var grown := WithSingleton(WithSingleton(old(root), a), b);
              root == Merged(grown, grown[a], grown[b])
    {
      var ra := Find(a);
      var rb := Find(b);
      assert NodeOk(parent, root, rank, a) && NodeOk(parent, root, rank, ra);
      if ra != rb {
        AttachOk(parent, root, rank, ra, rb);
        rank := Raised(rank, ra, rb);
        parent := parent[ra := rb];
        root := Merged(root, ra, rb);
      } else {
        MergedSelf(root, ra);
      }
    }
  }

  lemma MergedSelf(root: map<int, int>, ra: int)
    ensures Merged(root, ra, ra) == root
  {
  }

  function WithSingleton(root: map<int, int>, x: int): map<int, int> {
    if x in root then root else root[x := x]
  }

  function Merged(root: map<int, int>, ra: int, rb: int): map<int, int> {
    map x | x in root :: if root[x] == ra then rb else root[x]
  }

  // ---------- trees are connected components ----------

  /** Same root exactly when connected, for the elements present; and no edge leaves them. */
  ghost predicate Represents(root: map<int, int>, edges: Edges) {
    (forall e :: e in edges ==> e.0 in root && e.1 in root)
    && forall a, b :: a in root && b in root ==> (root[a] == root[b] <==> Connected(edges, a, b))
  }

  lemma FirstStep(edges: Edges, path: seq<int>)
    requires IsPath(edges, path) && |path| > 1
    ensures Joined(edges, path[0], path[1])
  {
  }

  lemma IsolatedPath(edges: Edges, x: int, path: seq<int>, b: int)
    requires PathFrom(edges, path, x, b)
    requires forall e :: e in edges ==> e.0 != x && e.1 != x
    ensures b == x
  {
    if |path| > 1 {
      FirstStep(edges, path);
      assert false;
    }
  }

  lemma SingletonRepresents(root: map<int, int>, edges: Edges, x: int)
    requires Represents(root, edges) && forall y :: y in root ==> root[y] in root
    ensures Represents(WithSingleton(root, x), edges)
  {
    if x !in root {
      ConnectedRefl(edges, x);
      var grown := WithSingleton(root, x);
      forall a, b | a in grown && b in grown ensures grown[a] == grown[b] <==> Connected(edges, a, b) {
        if a == x && b != x && Connected(edges, a, b) {
          var p :| PathFrom(edges, p, a, b);
          IsolatedPath(edges, x, p, b);
        }
        if b == x && a != x && Connected(edges, a, b) {
          ConnectedSym(edges, a, b);
          var p :| PathFrom(edges, p, b, a);
          IsolatedPath(edges, x, p, a);
        }
      }
    }
  }

  lemma MergedRepresents(root: map<int, int>, edges: Edges, u: int, v: int)
    requires Represents(root, edges) && u in root && v in root
    ensures Represents(Merged(root, root[u], root[v]), edges + {(u, v)})
  {
    var merged := Merged(root, root[u], root[v]);
    var more := edges + {(u, v)};
    forall a, b | a in merged && b in merged ensures merged[a] == merged[b] <==> Connected(more, a, b) {
      ConnectedWithEdge(edges, u, v, a, b);
      assert Connected(edges, v, b) <==> root[v] == root[b];
      assert Connected(edges, u, b) <==> root[u] == root[b];
    }
  }

  /** One union of the walk adds one edge to what the trees represent. */
  lemma UnionRepresents(root: map<int, int>, edges: Edges, u: int, v: int)
    requires Represents(root, edges) && forall y :: y in root ==> root[y] in root
    ensures var grown := WithSingleton(WithSingleton(root, u), v);
            Represents(Merged(grown, grown[u], grown[v]), edges + {(u, v)})
  {
    SingletonRepresents(root, edges, u);
    SingletonRepresents(WithSingleton(root, u), edges, v);
    MergedRepresents(WithSingleton(WithSingleton(root, u), v), edges, u, v);
  }
}
