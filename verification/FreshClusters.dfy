/** Fresh insight components: partition the facts, walk each group, gate it, and list its components in fold order. */
module FreshClusters {
  import opened Tables
  import opened Graph
  import opened Partitioner
  import opened GroupBy
  import opened InsightWalk
  import opened InsightOrder

  /** A component with at least one decision, under the axis of the group it was walked from. */
  datatype Found = Found(ids: seq<int>, project: string, section: string)

  /** Every judgement the facts reach. */
  ghost function ReachOf(g: DreamGraph, seeds: set<int>): set<int> {
    set n | n in g.nodes && Judgement(g, n) && Reached(g, seeds, n)
  }

  predicate IsRetrospective(g: DreamGraph, n: int) {
    n in g.nodes && g.nodes[n].rtype == Retrospective
  }

  predicate IsFresh(g: DreamGraph, n: int) {
    n in g.nodes && !g.nodes[n].consolidated
  }

  predicate IsDecision(g: DreamGraph, n: int) {
    n in g.nodes && g.nodes[n].rtype == Decision
  }

  /** passes_insight_gate: a retrospective, and a judgement no insight has consumed yet, anywhere in the reach. */
  predicate PassesGate(g: DreamGraph, reach: set<int>) {
    (exists n :: n in reach && IsRetrospective(g, n)) && exists n :: n in reach && IsFresh(g, n)
  }

  predicate HasDecision(g: DreamGraph, ids: seq<int>) {
    exists n :: n in ids && IsDecision(g, n)
  }

  /** The one canonical list of the reach's components. */
  ghost function ComponentsOf(g: DreamGraph, reach: set<int>): seq<seq<int>> {
    if exists comps :: Canonical(g, reach, comps) then var comps :| Canonical(g, reach, comps); comps else []
  }

  /** A component without a decision is skipped. */
  function WithDecisions(g: DreamGraph, comps: seq<seq<int>>, key: Key): (r: seq<Found>)
    ensures forall f :: f in r <==>
      f.project == key.project && f.section == key.section && f.ids in comps && HasDecision(g, f.ids)
  {
    if comps == [] then []
    else
      var last := comps[|comps| - 1];
      assert comps == comps[..|comps| - 1] + [last];
      WithDecisions(g, comps[..|comps| - 1], key)
      + if HasDecision(g, last) then [Found(last, key.project, key.section)] else []
  }

  ghost function FoundInGroup(g: DreamGraph, group: (Key, Bucket)): seq<Found> {
    var reach := ReachOf(g, Elems(group.1.ids));
    if PassesGate(g, reach) then WithDecisions(g, ComponentsOf(g, reach), group.0) else []
  }

  ghost function FoundIn(g: DreamGraph, groups: seq<(Key, Bucket)>): seq<Found> {
    if groups == [] then []
    else FoundIn(g, groups[..|groups| - 1]) + FoundInGroup(g, groups[|groups| - 1])
  }

  /** The insight cycle names no content when it partitions. */
  function NoContent(): int -> string {
    (id: int) => ""
  }

  /** What a scan of the discovery rows and the graph finds. */
  ghost function FreshOf(g: DreamGraph, rows: seq<Row>, threshold: nat): seq<Found> {
    FoundIn(g, GroupsOf(rows, NoContent(), threshold))
  }

  /** The discovery rows are of facts. */
  predicate RowsAreFacts(g: DreamGraph, rows: seq<Row>) {
    forall r :: r in rows ==> !Judgement(g, r.pgId)
  }

  // ---------- the passes ----------

  method KeepDecisions(g: DreamGraph, comps: seq<seq<int>>, key: Key) returns (found: seq<Found>)
    ensures found == WithDecisions(g, comps, key)
  {
    found := [];
    for i := 0 to |comps|
      invariant found == WithDecisions(g, comps[..i], key)
    {
      assert comps[..i + 1][..i] == comps[..i];
      if HasDecision(g, comps[i]) { found := found + [Found(comps[i], key.project, key.section)]; }
    }
    assert comps[..|comps|] == comps;
  }

  lemma OrderedAre(g: DreamGraph, reach: set<int>, components: seq<seq<int>>)
    requires Components(g, reach, components)
    ensures OrderComponents(g, components) == ComponentsOf(g, reach)
  {
    OrderIsCanonical(g, reach, components);
    CanonicalUnique(g, reach, OrderComponents(g, components), ComponentsOf(g, reach));
  }

  method WalkGroup(g: DreamGraph, group: (Key, Bucket)) returns (found: seq<Found>)
    requires forall id :: id in group.1.ids ==> !Judgement(g, id)
    ensures found == FoundInGroup(g, group)
  {
    var order, components, asked := WalkReachedGraph(g, group.1.ids);
    var labels := Elems(order);
    assert labels == ReachOf(g, Elems(group.1.ids)) by {
      forall n ensures n in labels <==> n in ReachOf(g, Elems(group.1.ids)) {}
    }
    if !PassesGate(g, labels) { return []; }
    OrderedAre(g, labels, components);
    found := KeepDecisions(g, OrderComponents(g, components), group.0);
  }

  /** The groups, one after the other. */
  method WalkGroups(g: DreamGraph, groups: seq<(Key, Bucket)>) returns (found: seq<Found>)
    requires forall k, id :: 0 <= k < |groups| && id in groups[k].1.ids ==> !Judgement(g, id)
    ensures found == FoundIn(g, groups)
  {
    found := [];
    for i := 0 to |groups|
      invariant found == FoundIn(g, groups[..i])
    {
      assert groups[..i + 1][..i] == groups[..i];
      var more := WalkGroup(g, groups[i]);
      found := found + more;
    }
    assert groups[..|groups|] == groups;
  }

  /** _find_fresh_insight_clusters. */
  method FindFreshInsightClusters(g: DreamGraph, rows: seq<Row>, threshold: nat) returns (found: seq<Found>)
    requires RowsAreFacts(g, rows)
    ensures found == FreshOf(g, rows, threshold)
  {
    var groups := GroupFacts(rows, NoContent(), threshold);
    forall k, id | 0 <= k < |groups| && id in groups[k].1.ids ensures !Judgement(g, id) {
      SeedsAreFacts(g, rows, threshold, groups[k]);
    }
    found := WalkGroups(g, groups);
  }

  lemma SeedsAreFacts(g: DreamGraph, rows: seq<Row>, threshold: nat, group: (Key, Bucket))
    requires RowsAreFacts(g, rows) && group in GroupsOf(rows, NoContent(), threshold)
    ensures forall id :: id in group.1.ids ==> !Judgement(g, id)
  {
    GroupsAreEligible(rows, NoContent(), threshold, group);
    forall id | id in group.1.ids ensures !Judgement(g, id) {
      var i :| 0 <= i < |IdsOf(rows)| && IdsOf(rows)[i] == id;
      assert rows[i] in rows;
    }
  }

  // ---------- what is found ----------

  /** The group a component was found from. */
  lemma {:induction false} FoundFrom(g: DreamGraph, groups: seq<(Key, Bucket)>, f: Found) returns (group: (Key, Bucket))
    requires f in FoundIn(g, groups)
    ensures group in groups && f in FoundInGroup(g, group)
  {
    var front, last := groups[..|groups| - 1], groups[|groups| - 1];
    if f in FoundInGroup(g, last) {
      group := last;
    } else {
      group := FoundFrom(g, front, f);
    }
  }

  lemma FoundInMore(g: DreamGraph, groups: seq<(Key, Bucket)>, f: Found)
    requires groups != []
    ensures f in FoundIn(g, groups) <==>
              f in FoundIn(g, groups[..|groups| - 1]) || f in FoundInGroup(g, groups[|groups| - 1])
  {
  }

  lemma {:induction false} FoundHolds(g: DreamGraph, groups: seq<(Key, Bucket)>, k: nat, f: Found)
    requires k < |groups| && f in FoundInGroup(g, groups[k])
    ensures f in FoundIn(g, groups)
  {
    FoundInMore(g, groups, f);
    if k < |groups| - 1 { FoundHolds(g, groups[..|groups| - 1], k, f); }
  }

  /** A reach has its canonical list. */
  lemma ReachHasComponents(g: DreamGraph, reach: set<int>)
    requires ComponentsOf(g, reach) != []
    ensures Canonical(g, reach, ComponentsOf(g, reach))
  {
  }

  /**
   Every component found is under a named project, ascending, not empty, and whole: it holds all that is joined to it.
   */
  lemma FoundIsWhole(g: DreamGraph, rows: seq<Row>, threshold: nat, f: Found)
    requires f in FreshOf(g, rows, threshold)
    ensures FoldEligible(f.project) && f.project != ""
    ensures f.ids != [] && Ascending(f.ids)
    ensures forall x :: x in f.ids ==> x in g.nodes && g.nodes[x].rtype in {Decision, Retrospective}
    ensures exists x :: x in f.ids && x in g.nodes && g.nodes[x].rtype == Decision
    ensures WholeComponent(g, f.ids)
  {
    var groups := GroupsOf(rows, NoContent(), threshold);
    var group := FoundFrom(g, groups, f);
    GroupsAreEligible(rows, NoContent(), threshold, group);
    ListedIsWhole(g, Elems(group.1.ids), f.ids);
  }

  /** A component of the canonical list of a reach. */
  lemma ListedIsWhole(g: DreamGraph, seeds: set<int>, ids: seq<int>)
    requires ids in ComponentsOf(g, ReachOf(g, seeds))
    ensures ids != [] && Ascending(ids) && forall x :: x in ids ==> Judgement(g, x)
    ensures WholeComponent(g, ids)
  {
    var reach := ReachOf(g, seeds);
    var comps := ComponentsOf(g, reach);
    ReachHasComponents(g, reach);
    var i :| 0 <= i < |comps| && comps[i] == ids;
    forall x | x in ids ensures x in reach { assert x in Elems(comps[i]); }
    forall x, y | x in ids && Judgement(g, y) ensures y in ids <==> Connected(Links(g), x, y) {
      assert x in comps[i] && x in Elems(comps[i]);
      if Connected(Links(g), x, y) {
        JoinedIsReached(g, seeds, x, y);
        var j :| 0 <= j < |comps| && y in comps[j];
      }
    }
  }

  /** A list that holds, with a judgement, exactly what is joined to it. */
  ghost predicate WholeComponent(g: DreamGraph, ids: seq<int>) {
    forall x, y :: x in ids && Judgement(g, y) ==> (y in ids <==> Connected(Links(g), x, y))
  }

  lemma SharedMakesSame(g: DreamGraph, a: seq<int>, b: seq<int>, x: int)
    requires WholeComponent(g, a) && WholeComponent(g, b) && x in a && x in b
    requires forall n :: n in a || n in b ==> Judgement(g, n)
    ensures Elems(a) == Elems(b)
  {
    forall y ensures y in a <==> y in b {}
  }

  lemma JoinedIsReached(g: DreamGraph, seeds: set<int>, x: int, y: int)
    requires x in ReachOf(g, seeds) && Judgement(g, y) && Connected(Links(g), x, y)
    ensures y in ReachOf(g, seeds)
  {
    var s :| s in seeds && Connected(Links(g), s, x);
    ConnectedTrans(Links(g), s, x, y);
  }

  /** On one graph two components found are the same set or share nothing, whatever groups they were found from. */
  lemma FoundAreDisjoint(g: DreamGraph, rows: seq<Row>, threshold: nat, a: Found, b: Found)
    requires a in FreshOf(g, rows, threshold) && b in FreshOf(g, rows, threshold)
    ensures Elems(a.ids) == Elems(b.ids) || Elems(a.ids) !! Elems(b.ids)
  {
    FoundIsWhole(g, rows, threshold, a);
    FoundIsWhole(g, rows, threshold, b);
    if Elems(a.ids) * Elems(b.ids) != {} {
      var x := Pick(Elems(a.ids) * Elems(b.ids));
      SharedMakesSame(g, a.ids, b.ids, x);
    } else {
      EmptyMeetIsDisjoint(Elems(a.ids), Elems(b.ids));
    }
  }

  /** A reach that splits into components has the decision in one of those listed. */
  lemma DecisionIsListed(g: DreamGraph, reach: set<int>, comps: seq<seq<int>>, n: int) returns (listed: seq<int>)
    requires Components(g, reach, comps) && n in reach
    ensures listed in ComponentsOf(g, reach) && n in listed
  {
    OrderedAre(g, reach, comps);
    OrderIsCanonical(g, reach, comps);
    var ordered := ComponentsOf(g, reach);
    var i :| 0 <= i < |ordered| && n in ordered[i];
    listed := ordered[i];
  }

  lemma ListedIsFound(g: DreamGraph, group: (Key, Bucket), listed: seq<int>, n: int)
    requires var reach := ReachOf(g, Elems(group.1.ids)); PassesGate(g, reach) && listed in ComponentsOf(g, reach)
    requires n in listed && IsDecision(g, n)
    ensures Found(listed, group.0.project, group.0.section) in FoundInGroup(g, group)
  {
  }

  // ---------- the gate, over the graph ----------

  /** From these facts the walk comes to a retrospective. */
  ghost predicate ReachesRetrospective(g: DreamGraph, seeds: set<int>) {
    exists n :: n in g.nodes && g.nodes[n].rtype == Retrospective && Reached(g, seeds, n)
  }

  /** And to a decision or retrospective that no insight has consumed. */
  ghost predicate ReachesUnconsumed(g: DreamGraph, seeds: set<int>) {
    exists n :: n in g.nodes && g.nodes[n].rtype in {Decision, Retrospective} && !g.nodes[n].consolidated
                && Reached(g, seeds, n)
  }

  /** A group passes exactly when its facts reach both. */
  lemma GateExactly(g: DreamGraph, seeds: set<int>)
    ensures PassesGate(g, ReachOf(g, seeds)) <==> ReachesRetrospective(g, seeds) && ReachesUnconsumed(g, seeds)
  {
    var reach := ReachOf(g, seeds);
    if n :| n in g.nodes && g.nodes[n].rtype == Retrospective && Reached(g, seeds, n) {
      assert n in reach && IsRetrospective(g, n);
    }
    if n :| n in g.nodes && g.nodes[n].rtype in {Decision, Retrospective} && !g.nodes[n].consolidated
            && Reached(g, seeds, n) {
      assert n in reach && IsFresh(g, n);
    }
  }

  /** Every component found comes from a group whose facts reach a retrospective and something unconsumed. */
  lemma FoundPassedTheGate(g: DreamGraph, rows: seq<Row>, threshold: nat, f: Found) returns (group: (Key, Bucket))
    requires f in FreshOf(g, rows, threshold)
    ensures group in GroupsOf(rows, NoContent(), threshold) && f in FoundInGroup(g, group)
    ensures f.project == group.0.project && f.section == group.0.section
    ensures forall n :: n in f.ids ==> Reached(g, Elems(group.1.ids), n)
    ensures ReachesRetrospective(g, Elems(group.1.ids)) && ReachesUnconsumed(g, Elems(group.1.ids))
  {
    group := FoundFrom(g, GroupsOf(rows, NoContent(), threshold), f);
    var seeds := Elems(group.1.ids);
    GateExactly(g, seeds);
    var comps := ComponentsOf(g, ReachOf(g, seeds));
    assert f.ids in comps;
    ReachHasComponents(g, ReachOf(g, seeds));
    var i :| 0 <= i < |comps| && comps[i] == f.ids;
    forall n | n in f.ids ensures Reached(g, seeds, n) { assert n in Elems(comps[i]); }
  }

  /** A component found holds no reversed decision. */
  lemma FoundStands(g: DreamGraph, rows: seq<Row>, threshold: nat, f: Found, n: int)
    requires RowsAreFacts(g, rows) && f in FreshOf(g, rows, threshold) && n in f.ids
    ensures n in g.nodes && (g.nodes[n].rtype == Decision ==> !g.nodes[n].reversed)
  {
    var group := FoundPassedTheGate(g, rows, threshold, f);
    FoundIsWhole(g, rows, threshold, f);
    SeedsAreFacts(g, rows, threshold, group);
    ReversedIsNotReached(g, Elems(group.1.ids), n);
  }

  /** A group that reaches no retrospective, or nothing unconsumed, contributes nothing. */
  lemma ClosedGateFindsNothing(g: DreamGraph, group: (Key, Bucket))
    requires !ReachesRetrospective(g, Elems(group.1.ids)) || !ReachesUnconsumed(g, Elems(group.1.ids))
    ensures FoundInGroup(g, group) == []
  {
    GateExactly(g, Elems(group.1.ids));
  }

  /** Nothing is missed: a decision that the facts of a passing group reach is in some component found. */
  lemma EveryDecisionIsFound(g: DreamGraph, rows: seq<Row>, threshold: nat, k: nat, comps: seq<seq<int>>, n: int)
    returns (f: Found)
    requires k < |GroupsOf(rows, NoContent(), threshold)|
    requires var seeds := Elems(GroupsOf(rows, NoContent(), threshold)[k].1.ids);
             && ReachesRetrospective(g, seeds) && ReachesUnconsumed(g, seeds)
             && Components(g, ReachOf(g, seeds), comps)
             && n in g.nodes && g.nodes[n].rtype == Decision && Reached(g, seeds, n)
    ensures f in FreshOf(g, rows, threshold) && n in f.ids
  {
    var groups := GroupsOf(rows, NoContent(), threshold);
    GateExactly(g, Elems(groups[k].1.ids));
    f := DecisionIsFound(g, groups, k, comps, n);
  }

  lemma DecisionIsFound(g: DreamGraph, groups: seq<(Key, Bucket)>, k: nat, comps: seq<seq<int>>, n: int)
    returns (f: Found)
    requires k < |groups|
    requires var reach := ReachOf(g, Elems(groups[k].1.ids));
             PassesGate(g, reach) && Components(g, reach, comps) && n in reach && IsDecision(g, n)
    ensures f in FoundIn(g, groups) && n in f.ids
  {
    var listed := DecisionIsListed(g, ReachOf(g, Elems(groups[k].1.ids)), comps, n);
    ListedIsFound(g, groups[k], listed, n);
    f := Found(listed, groups[k].0.project, groups[k].0.section);
    FoundHolds(g, groups, k, f);
  }
}
