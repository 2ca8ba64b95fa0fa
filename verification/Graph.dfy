/** Undirected connectivity over a finite set of edges, and the dream graph the walk reads. */
module Graph {

  type Edges = set<(int, int)>

  predicate Joined(edges: Edges, a: int, b: int) {
    (a, b) in edges || (b, a) in edges
  }

  /** a and b are linked by a path whose steps are edges, in either direction. */
  predicate IsPath(edges: Edges, path: seq<int>) {
    path != [] && forall i :: 0 <= i < |path| - 1 ==> Joined(edges, path[i], path[i + 1])
  }

  ghost predicate PathFrom(edges: Edges, path: seq<int>, a: int, b: int) {
    IsPath(edges, path) && path[0] == a && path[|path| - 1] == b
  }

  ghost predicate Connected(edges: Edges, a: int, b: int) {
    exists path :: PathFrom(edges, path, a, b)
  }

  lemma ConnectedRefl(edges: Edges, a: int)
    ensures Connected(edges, a, a)
  {
    assert PathFrom(edges, [a], a, a);
  }

  lemma ConnectedStep(edges: Edges, a: int, b: int)
    requires Joined(edges, a, b)
    ensures Connected(edges, a, b)
  {
    assert PathFrom(edges, [a, b], a, b);
  }

  lemma ConnectedTrans(edges: Edges, a: int, b: int, c: int)
    requires Connected(edges, a, b) && Connected(edges, b, c)
    ensures Connected(edges, a, c)
  {
    var p :| PathFrom(edges, p, a, b);
    var q :| PathFrom(edges, q, b, c);
    var path := p + q[1..];
    forall i | 0 <= i < |path| - 1 ensures Joined(edges, path[i], path[i + 1]) {
      if i < |p| - 1 {
      } else {
        assert path[i] == q[i - (|p| - 1)] && path[i + 1] == q[i - (|p| - 1) + 1];
      }
    }
    assert PathFrom(edges, path, a, c);
  }

  lemma {:induction false} ConnectedSymPath(edges: Edges, path: seq<int>, a: int, b: int)
    requires PathFrom(edges, path, a, b)
    ensures Connected(edges, b, a)
    decreases |path|
  {
    if |path| == 1 {
      ConnectedRefl(edges, a);
    } else {
      assert PathFrom(edges, path[1..], path[1], b);
      ConnectedSymPath(edges, path[1..], path[1], b);
      assert Joined(edges, path[0], path[1]);
      ConnectedStep(edges, path[1], a);
      ConnectedTrans(edges, b, path[1], a);
    }
  }

  lemma ConnectedSym(edges: Edges, a: int, b: int)
    requires Connected(edges, a, b)
    ensures Connected(edges, b, a)
  {
    var p :| PathFrom(edges, p, a, b);
    ConnectedSymPath(edges, p, a, b);
  }

  lemma ConnectedMono(edges: Edges, more: Edges, a: int, b: int)
    requires Connected(edges, a, b) && edges <= more
    ensures Connected(more, a, b)
  {
    var p :| PathFrom(edges, p, a, b);
    assert PathFrom(more, p, a, b);
  }

  /** Adding one edge connects exactly what was connected, or connected to its two ends. */
  lemma ConnectedWithEdge(edges: Edges, u: int, v: int, a: int, b: int)
    ensures Connected(edges + {(u, v)}, a, b) <==>
              Connected(edges, a, b)
              || (Connected(edges, a, u) && Connected(edges, v, b))
              || (Connected(edges, a, v) && Connected(edges, u, b))
  {
    var more := edges + {(u, v)};
    if Connected(more, a, b) {
      var p :| PathFrom(more, p, a, b);
      PathWithEdge(edges, u, v, p, a, b);
    }
    ConnectedStep(more, u, v);
    ConnectedStep(more, v, u);
    if Connected(edges, a, b) { ConnectedMono(edges, more, a, b); }
    if Connected(edges, a, u) && Connected(edges, v, b) {
      ConnectedMono(edges, more, a, u);
      ConnectedMono(edges, more, v, b);
      ConnectedTrans(more, a, u, v);
      ConnectedTrans(more, a, v, b);
    }
    if Connected(edges, a, v) && Connected(edges, u, b) {
      ConnectedMono(edges, more, a, v);
      ConnectedMono(edges, more, u, b);
      ConnectedTrans(more, a, v, u);
      ConnectedTrans(more, a, u, b);
    }
  }

  lemma {:induction false} PathWithEdge(edges: Edges, u: int, v: int, p: seq<int>, a: int, b: int)
    requires PathFrom(edges + {(u, v)}, p, a, b)
    ensures Connected(edges, a, b)
            || (Connected(edges, a, u) && Connected(edges, v, b))
            || (Connected(edges, a, v) && Connected(edges, u, b))
    decreases |p|
  {
    if |p| == 1 {
      ConnectedRefl(edges, a);
    } else {
      var c := p[1];
      assert PathFrom(edges + {(u, v)}, p[1..], c, b);
      PathWithEdge(edges, u, v, p[1..], c, b);
      assert Joined(edges + {(u, v)}, p[0], p[1]);
      ConnectedRefl(edges, u);
      ConnectedRefl(edges, v);
      if Joined(edges, a, c) {
        ConnectedStep(edges, a, c);
        if Connected(edges, c, b) { ConnectedTrans(edges, a, c, b); }
        if Connected(edges, c, u) { ConnectedTrans(edges, a, c, u); }
        if Connected(edges, c, v) { ConnectedTrans(edges, a, c, v); }
      } else if a == u {
        assert c == v;
        if Connected(edges, v, u) && Connected(edges, v, b) {}
      } else {
        assert a == v && c == u;
      }
    }
  }
}
