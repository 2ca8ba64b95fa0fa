/** The canonical fold order of the components, and what makes it canonical. */
module InsightOrder {
  import opened Tables
  import opened Graph
  import opened InsightWalk

  function InsertInt(x: int, sorted: seq<int>): seq<int> {
    if sorted == [] || x <= sorted[0] then [x] + sorted else [sorted[0]] + InsertInt(x, sorted[1..])
  }

  function SortInts(ids: seq<int>): seq<int> {
    if ids == [] then [] else InsertInt(ids[0], SortInts(ids[1..]))
  }

  function Retrospectives(g: DreamGraph, ids: seq<int>): seq<int> {
    if ids == [] then []
    else
      var rest := Retrospectives(g, ids[1..]);
      if ids[0] in g.nodes && g.nodes[ids[0]].rtype == Retrospective then [ids[0]] + rest else rest
  }

  /** sort_key of an ascending component: retrospective-bearing first, by smallest retrospective, then smallest id. */
  function SortKey(g: DreamGraph, sorted: seq<int>): (int, int) {
    var retros := Retrospectives(g, sorted);
    if retros != [] then (0, retros[0]) else (1, if sorted == [] then 0 else sorted[0])
  }

  predicate KeyLess(a: (int, int), b: (int, int)) {
    a.0 < b.0 || (a.0 == b.0 && a.1 < b.1)
  }

  function InsertComponent(g: DreamGraph, c: seq<int>, sorted: seq<seq<int>>): seq<seq<int>> {
    if sorted == [] || !KeyLess(SortKey(g, sorted[0]), SortKey(g, c)) then [c] + sorted
    else [sorted[0]] + InsertComponent(g, c, sorted[1..])
  }

  /** order_components. */
  function OrderComponents(g: DreamGraph, comps: seq<seq<int>>): seq<seq<int>> {
    if comps == [] then [] else InsertComponent(g, SortInts(comps[0]), OrderComponents(g, comps[1..]))
  }

  // ---------- sorting one component ----------

  lemma {:induction false} InsertIntAscends(x: int, sorted: seq<int>)
    requires Ascending(sorted) && x !in sorted
    ensures Ascending(InsertInt(x, sorted)) && forall y :: y in InsertInt(x, sorted) <==> y == x || y in sorted
  {
    if sorted == [] || x <= sorted[0] {
      assert sorted != [] ==> sorted[0] in sorted;
    } else {
      InsertIntAscends(x, sorted[1..]);
      var rest := InsertInt(x, sorted[1..]);
      assert sorted == [sorted[0]] + sorted[1..];
      forall k | 0 <= k < |rest| ensures sorted[0] < rest[k] {
        assert rest[k] in rest;
        assert rest[k] == x || rest[k] in sorted[1..];
      }
    }
  }

  lemma {:induction false} SortIntsAscends(ids: seq<int>)
    requires NoDup(ids)
    ensures Ascending(SortInts(ids)) && forall y :: y in SortInts(ids) <==> y in ids
  {
    if ids == [] {
    } else {
      assert ids == [ids[0]] + ids[1..];
      SortIntsAscends(ids[1..]);
      assert ids[0] !in ids[1..];
      InsertIntAscends(ids[0], SortInts(ids[1..]));
    }
  }

  lemma {:induction false} RetrospectivesMembers(g: DreamGraph, ids: seq<int>)
    ensures forall x :: x in Retrospectives(g, ids) <==> x in ids && x in g.nodes && g.nodes[x].rtype == Retrospective
  {
    if ids == [] {
    } else {
      assert ids == [ids[0]] + ids[1..];
      RetrospectivesMembers(g, ids[1..]);
    }
  }

  /** The second half of a key is a member, so disjoint components never tie. */
  lemma KeyIsMember(g: DreamGraph, sorted: seq<int>)
    requires sorted != []
    ensures SortKey(g, sorted).1 in sorted
    ensures SortKey(g, sorted).0 == 0 <==> exists x :: x in sorted && x in g.nodes && g.nodes[x].rtype == Retrospective
  {
    RetrospectivesMembers(g, sorted);
    var retros := Retrospectives(g, sorted);
    if retros != [] {
      var x := retros[0];
      assert x in Retrospectives(g, sorted);
      assert x in sorted;
    } else {
      forall x | x in sorted ensures !(x in g.nodes && g.nodes[x].rtype == Retrospective) { assert x !in retros; }
    }
  }

  // ---------- the canonical list ----------

  predicate KeysAscend(g: DreamGraph, comps: seq<seq<int>>) {
    forall i, j :: 0 <= i < j < |comps| ==> KeyLess(SortKey(g, comps[i]), SortKey(g, comps[j]))
  }

  /** Components, each ascending, in strictly ascending key order. */
  ghost predicate Canonical(g: DreamGraph, members: set<int>, comps: seq<seq<int>>) {
    Components(g, members, comps)
    && (forall i :: 0 <= i < |comps| ==> Ascending(comps[i]))
    && KeysAscend(g, comps)
  }

  lemma {:induction false} InsertComponentMembers(g: DreamGraph, c: seq<int>, sorted: seq<seq<int>>)
    ensures forall d :: d in InsertComponent(g, c, sorted) <==> d == c || d in sorted
  {
    if sorted == [] || !KeyLess(SortKey(g, sorted[0]), SortKey(g, c)) {
    } else {
      assert sorted == [sorted[0]] + sorted[1..];
      InsertComponentMembers(g, c, sorted[1..]);
    }
  }

  lemma {:induction false} InsertComponentAscends(g: DreamGraph, c: seq<int>, sorted: seq<seq<int>>)
    requires KeysAscend(g, sorted) && forall i :: 0 <= i < |sorted| ==> SortKey(g, sorted[i]) != SortKey(g, c)
    ensures KeysAscend(g, InsertComponent(g, c, sorted))
    ensures InsertComponent(g, c, sorted)[0] == c || (sorted != [] && InsertComponent(g, c, sorted)[0] == sorted[0])
  {
    if sorted == [] || !KeyLess(SortKey(g, sorted[0]), SortKey(g, c)) {
    } else {
      InsertComponentAscends(g, c, sorted[1..]);
    }
  }

  lemma {:induction false} OrderMembers(g: DreamGraph, comps: seq<seq<int>>)
    ensures forall d :: d in OrderComponents(g, comps) <==> exists c :: c in comps && d == SortInts(c)
  {
    if comps == [] {
    } else {
      assert comps == [comps[0]] + comps[1..];
      OrderMembers(g, comps[1..]);
      InsertComponentMembers(g, SortInts(comps[0]), OrderComponents(g, comps[1..]));
      forall d ensures d in OrderComponents(g, comps) <==> exists c :: c in comps && d == SortInts(c) {
        if d in OrderComponents(g, comps) && d != SortInts(comps[0]) {
          var c :| c in comps[1..] && d == SortInts(c);
          assert c in comps;
        }
        if d == SortInts(comps[0]) { assert comps[0] in comps; }
        if c :| c in comps && d == SortInts(c) {
          assert c == comps[0] || c in comps[1..];
        }
      }
    }
  }

  /** Disjoint non-empty ascending lists have different keys. */
  lemma KeysDiffer(g: DreamGraph, a: seq<int>, b: seq<int>)
    requires a != [] && b != [] && Elems(a) !! Elems(b)
    ensures SortKey(g, a) != SortKey(g, b)
  {
    KeyIsMember(g, a);
    KeyIsMember(g, b);
    assert SortKey(g, a).1 in Elems(a) && SortKey(g, b).1 in Elems(b);
  }

  predicate Disjoint(comps: seq<seq<int>>) {
    (forall i :: 0 <= i < |comps| ==> comps[i] != [] && NoDup(comps[i]))
    && forall i, j :: 0 <= i < j < |comps| ==> Elems(comps[i]) !! Elems(comps[j])
  }

  lemma SortedSame(c: seq<int>)
    requires NoDup(c) && c != []
    ensures SortInts(c) != [] && Elems(SortInts(c)) == Elems(c)
  {
    SortIntsAscends(c);
    assert c[0] in SortInts(c);
  }

  lemma {:induction false} OrderAscends(g: DreamGraph, comps: seq<seq<int>>)
    requires Disjoint(comps)
    ensures KeysAscend(g, OrderComponents(g, comps))
  {
    if comps == [] {
    } else {
      var rest := OrderComponents(g, comps[1..]);
      OrderAscends(g, comps[1..]);
      OrderMembers(g, comps[1..]);
      SortedSame(comps[0]);
      forall i | 0 <= i < |rest| ensures SortKey(g, rest[i]) != SortKey(g, SortInts(comps[0])) {
        assert rest[i] in rest;
        var c :| c in comps[1..] && rest[i] == SortInts(c);
        var k :| 0 <= k < |comps[1..]| && comps[1..][k] == c;
        assert comps[k + 1] == c;
        SortedSame(c);
        KeysDiffer(g, rest[i], SortInts(comps[0]));
      }
      InsertComponentAscends(g, SortInts(comps[0]), rest);
    }
  }

  lemma ComponentsDisjoint(g: DreamGraph, members: set<int>, comps: seq<seq<int>>)
    requires Components(g, members, comps)
    ensures Disjoint(comps)
  {
    forall i, j | 0 <= i < j < |comps| ensures Elems(comps[i]) !! Elems(comps[j]) {
      forall x | x in comps[i] ensures x !in comps[j] { ConnectedRefl(Links(g), x); }
    }
  }

  /** order_components returns the same components, each ascending, in canonical order. */
  lemma OrderIsCanonical(g: DreamGraph, members: set<int>, comps: seq<seq<int>>)
    requires Components(g, members, comps)
    ensures Canonical(g, members, OrderComponents(g, comps))
  {
    ComponentsDisjoint(g, members, comps);
    OrderAscends(g, comps);
    OrderMembers(g, comps);
    var out := OrderComponents(g, comps);
    forall i | 0 <= i < |out|
      ensures Ascending(out[i]) && out[i] != [] && Elems(out[i]) <= members
      ensures exists k :: 0 <= k < |comps| && Elems(out[i]) == Elems(comps[k])
    {
      var k := OriginOf(g, comps, i);
      SortedSame(comps[k]);
      SortIntsAscends(comps[k]);
    }
    forall x | x in members ensures exists i :: 0 <= i < |out| && x in out[i] {
      var k :| 0 <= k < |comps| && x in comps[k];
      assert comps[k] in comps && SortInts(comps[k]) in out;
      SortIntsAscends(comps[k]);
      var i :| 0 <= i < |out| && out[i] == SortInts(comps[k]);
    }
    forall i, j, x, y | 0 <= i < |out| && 0 <= j < |out| && x in out[i] && y in out[j]
      ensures i == j <==> Connected(Links(g), x, y)
    {
      var k := OriginOf(g, comps, i);
      var h := OriginOf(g, comps, j);
      SortIntsAscends(comps[k]);
      SortIntsAscends(comps[h]);
      if i != j { assert SortKey(g, out[i]) != SortKey(g, out[j]); }
      assert i == j <==> k == h;
    }
  }

  lemma SharedMeansSame(comps: seq<seq<int>>, h: nat, k: nat)
    requires Disjoint(comps) && h < |comps| && k < |comps| && Elems(comps[h]) == Elems(comps[k])
    ensures h == k
  {
    var x := comps[h][0];
    assert x in Elems(comps[h]);
  }

  lemma OriginOf(g: DreamGraph, comps: seq<seq<int>>, i: nat) returns (k: nat)
    requires i < |OrderComponents(g, comps)|
    ensures k < |comps| && OrderComponents(g, comps)[i] == SortInts(comps[k])
    ensures Disjoint(comps) ==> forall h :: 0 <= h < |comps| && SortInts(comps[h]) == OrderComponents(g, comps)[i] ==>
      h == k
  {
    OrderMembers(g, comps);
    var out := OrderComponents(g, comps);
    assert out[i] in out;
    var c :| c in comps && out[i] == SortInts(c);
    k :| 0 <= k < |comps| && comps[k] == c;
    if Disjoint(comps) {
      forall h | 0 <= h < |comps| && SortInts(comps[h]) == out[i] ensures h == k {
        SortedSame(comps[h]);
        SortedSame(comps[k]);
        SharedMeansSame(comps, h, k);
      }
    }
  }

  /** There is one canonical list: row order, seed order and union direction cannot show in it. */
  lemma CanonicalUnique(g: DreamGraph, members: set<int>, a: seq<seq<int>>, b: seq<seq<int>>)
    requires Canonical(g, members, a) && Canonical(g, members, b)
    ensures a == b
  {
    forall c ensures c in a <==> c in b {
      SharedComponent(g, members, a, b, c);
      SharedComponent(g, members, b, a, c);
    }
    SameByKeys(g, a, b);
  }

  lemma SharedComponent(g: DreamGraph, members: set<int>, a: seq<seq<int>>, b: seq<seq<int>>, c: seq<int>)
    requires Canonical(g, members, a) && Canonical(g, members, b)
    ensures c in a ==> c in b
  {
    if c in a {
      var i :| 0 <= i < |a| && a[i] == c;
      var x := c[0];
      assert x in a[i] && x in Elems(a[i]);
      var j :| 0 <= j < |b| && x in b[j];
      HalfShared(g, members, members, a, b, i, j, x);
      HalfShared(g, members, members, b, a, j, i, x);
      assert forall y :: y in a[i] <==> y in Elems(a[i]);
      assert forall y :: y in b[j] <==> y in Elems(b[j]);
      AscendingUnique(a[i], b[j]);
    }
  }

  /** Two components that share x: the first is inside the second, as far as the second list's members go. */
  lemma HalfShared(
    g: DreamGraph, membersA: set<int>, membersB: set<int>, a: seq<seq<int>>, b: seq<seq<int>>, i: nat, j: nat, x: int)
    requires Components(g, membersA, a) && Components(g, membersB, b) && i < |a| && j < |b|
    requires x in a[i] && x in b[j] && Elems(a[i]) <= membersB
    ensures Elems(a[i]) <= Elems(b[j])
  {
    forall y | y in Elems(a[i]) ensures y in Elems(b[j]) {
      assert Connected(Links(g), x, y);
      var k :| 0 <= k < |b| && y in b[k];
    }
  }

  lemma {:induction false} SameByKeys(g: DreamGraph, a: seq<seq<int>>, b: seq<seq<int>>)
    requires KeysAscend(g, a) && KeysAscend(g, b) && forall c :: c in a <==> c in b
    ensures a == b
  {
    if a == [] || b == [] {
      HeadIsMember(a);
      HeadIsMember(b);
    } else {
      assert a[0] in b && b[0] in a;
      assert a == [a[0]] + a[1..] && b == [b[0]] + b[1..];
      var i :| 0 <= i < |b| && b[i] == a[0];
      var j :| 0 <= j < |a| && a[j] == b[0];
      assert a[0] == b[0];
      forall c ensures c in a[1..] <==> c in b[1..] {
        assert c in a[1..] ==> c in b && c != a[0];
        assert c in b[1..] ==> c in a && c != b[0];
      }
      SameByKeys(g, a[1..], b[1..]);
    }
  }

  /** In the canonical list no component with a retrospective follows one without. */
  lemma RetrospectivesFirst(g: DreamGraph, members: set<int>, comps: seq<seq<int>>, i: nat, j: nat, x: int)
    requires Canonical(g, members, comps) && i < j < |comps|
    requires x in comps[j] && x in g.nodes && g.nodes[x].rtype == Retrospective
    ensures exists y :: y in comps[i] && y in g.nodes && g.nodes[y].rtype == Retrospective
  {
    KeyIsMember(g, comps[i]);
    KeyIsMember(g, comps[j]);
  }

  lemma {:induction false} RetrospectivesFromSmallest(g: DreamGraph, ids: seq<int>)
    requires Ascending(ids)
    ensures forall x :: x in Retrospectives(g, ids) ==> Retrospectives(g, ids)[0] <= x
  {
    if ids != [] {
      RetrospectivesFromSmallest(g, ids[1..]);
      RetrospectivesMembers(g, ids[1..]);
      forall x | x in Retrospectives(g, ids) ensures Retrospectives(g, ids)[0] <= x {
        assert x == ids[0] || x in Retrospectives(g, ids[1..]);
      }
    }
  }

  /** The smallest of the ids that satisfy it. */
  ghost predicate SmallestOf(ids: seq<int>, among: int -> bool, x: int) {
    x in ids && among(x) && forall y :: y in ids && among(y) ==> x <= y
  }

  ghost function Anyone(): int -> bool {
    (n: int) => true
  }

  ghost function RetrospectiveIn(g: DreamGraph): int -> bool {
    (n: int) => n in g.nodes && g.nodes[n].rtype == Retrospective
  }

  /**
   Among the components with a retrospective, the smallest retrospective decides the order; among the others, the
   smallest judgement.
   */
  lemma OrderedBySmallest(g: DreamGraph, members: set<int>, comps: seq<seq<int>>, i: nat, j: nat, x: int, y: int)
    requires Canonical(g, members, comps) && i < j < |comps|
    requires (SmallestOf(comps[i], RetrospectiveIn(g), x) && SmallestOf(comps[j], RetrospectiveIn(g), y))
             || (SmallestOf(comps[i], Anyone(), x) && SmallestOf(comps[j], Anyone(), y)
                 && forall n :: n in comps[i] || n in comps[j] ==> !RetrospectiveIn(g)(n))
    ensures x < y
  {
    SmallestIsKey(g, comps[i], x);
    SmallestIsKey(g, comps[j], y);
    assert KeyLess(SortKey(g, comps[i]), SortKey(g, comps[j]));
  }

  lemma SmallestIsKey(g: DreamGraph, c: seq<int>, x: int)
    requires Ascending(c) && c != []
    ensures SmallestOf(c, RetrospectiveIn(g), x) ==> SortKey(g, c) == (0, x)
    ensures SmallestOf(c, Anyone(), x) && (forall n :: n in c ==> !RetrospectiveIn(g)(n)) ==> SortKey(g, c) == (1, x)
  {
    RetrospectivesMembers(g, c);
    RetrospectivesFromSmallest(g, c);
    var retros := Retrospectives(g, c);
    if retros != [] {
      var first := retros[0];
      assert first in Retrospectives(g, c);
      assert first in c && RetrospectiveIn(g)(first);
    }
    if SmallestOf(c, Anyone(), x) {
      var k :| 0 <= k < |c| && c[k] == x;
      assert c[0] in c && Anyone()(c[0]) && x <= c[0] && c[0] <= c[k];
    }
  }

  /** Components found from different gating groups on one graph are the same set or share nothing. */
  lemma GroupsAgree(g: DreamGraph, seedsA: set<int>, seedsB: set<int>, membersA: set<int>, membersB: set<int>,
                    a: seq<seq<int>>, b: seq<seq<int>>, i: nat, j: nat)
    requires Components(g, membersA, a) && Components(g, membersB, b) && i < |a| && j < |b|
    requires forall n :: n in membersA <==> Judgement(g, n) && Reached(g, seedsA, n)
    requires forall n :: n in membersB <==> Judgement(g, n) && Reached(g, seedsB, n)
    ensures Elems(a[i]) == Elems(b[j]) || Elems(a[i]) !! Elems(b[j])
  {
    if Elems(a[i]) * Elems(b[j]) != {} {
      var x := Pick(Elems(a[i]) * Elems(b[j]));
      StaysReached(g, seedsB, membersA, membersB, a, i, x);
      StaysReached(g, seedsA, membersB, membersA, b, j, x);
      HalfShared(g, membersA, membersB, a, b, i, j, x);
      HalfShared(g, membersB, membersA, b, a, j, i, x);
      assert Elems(a[i]) == Elems(b[j]);
    } else {
      EmptyMeetIsDisjoint(Elems(a[i]), Elems(b[j]));
    }
  }

  /** Whoever reaches one member of a component reaches all of it. */
  lemma StaysReached(
    g: DreamGraph, seedsB: set<int>, membersA: set<int>, membersB: set<int>, a: seq<seq<int>>, i: nat, x: int)
    requires Components(g, membersA, a) && i < |a| && x in a[i] && x in membersB
    requires forall n :: n in membersA ==> Judgement(g, n)
    requires forall n :: n in membersB <==> Judgement(g, n) && Reached(g, seedsB, n)
    ensures Elems(a[i]) <= membersB
  {
    forall y | y in Elems(a[i]) ensures y in membersB {
      assert Connected(Links(g), x, y);
      var s :| s in seedsB && Connected(Links(g), s, x);
      ConnectedTrans(Links(g), s, x, y);
    }
  }
}
