/** What an insight cycle leaves when an exception, or the death of the process, cuts one of its loops. */
module CutInsights {
  import opened Tables
  import opened InsightCycle
  import opened PaidOnce
  import Backlog

  /** A cycle over these refolds and no more: it stops before the second readiness read. */
  function RefoldsOnly(cycle: Cycle, refolds: seq<(int, Reply)>): Cycle {
    cycle.(refolds := refolds, check2 := None)
  }

  /** Cut in the refolds, a cycle is one that had only the refolds reached. */
  lemma CutInRefoldsExactly(d: Daemon, cycle: Cycle, n: nat)
    requires CycleOk(d.st.rows, cycle) && n <= |cycle.refolds|
    ensures CycleOk(d.st.rows, RefoldsOnly(cycle, cycle.refolds[..n]))
    ensures InsightPass(d, cycle, InRefolds(n)) == InsightPass(d, RefoldsOnly(cycle, cycle.refolds[..n]), Whole)
  {
    var only := RefoldsOnly(cycle, cycle.refolds[..n]);
    assert RefoldsDone(cycle, InRefolds(n)) == cycle.refolds[..n];
    if cycle.check1.Some? {
      RefoldLoopReads(
        Loop(d, {}, {}, false), cycle, only, Backlog.Blocked(d.backlog, d.ident), d.st.rows, cycle.refolds[..n]);
    }
  }

  /** The refolds read nothing of a cycle but its first readiness read and the reversals it carries. */
  lemma {:induction false} RefoldLoopReads(
    l: Loop, a: Cycle, b: Cycle, blocked: set<set<int>>, rows: SummaryTable, refolds: seq<(int, Reply)>)
    requires a.check1.Some? && a.check1 == b.check1 && a.reversals == b.reversals && RefoldsOk(rows, refolds)
    ensures RefoldLoop(l, a, blocked, rows, refolds) == RefoldLoop(l, b, blocked, rows, refolds)
  {
    if refolds != [] { RefoldLoopReads(l, a, b, blocked, rows, refolds[..|refolds| - 1]); }
  }

  /** The refolds went through, and the second readiness read was made. */
  ghost predicate GoesOn(d: Daemon, cycle: Cycle)
    requires CycleOk(d.st.rows, cycle)
  {
    cycle.backlogRead && cycle.check1.Some? && cycle.check2.Some? && !AfterRefolds(d, cycle, Whole).aborted
  }

  /** Cut among the appended references, a cycle has done its refolds and the references reached, and no more. */
  lemma CutInAppendsExactly(d: Daemon, cycle: Cycle, n: nat)
    requires CycleOk(d.st.rows, cycle) && n <= |cycle.clusters|
    ensures var refolded := InsightPass(d, RefoldsOnly(cycle, cycle.refolds), Whole);
            InsightPass(d, cycle, InAppends(n)) ==
            if GoesOn(d, cycle)
            then refolded.(st := AppendMatches(refolded.st.rows, refolded.st, cycle.clusters[..n])) else refolded
  {
    SameRefolds(d, cycle, InAppends(n));
    SameRefolds(d, cycle, Whole);
    assert AppendsDone(cycle, InAppends(n)) == cycle.clusters[..n];
  }

  lemma SameRefolds(d: Daemon, cycle: Cycle, cut: Cut)
    requires CycleOk(d.st.rows, cycle) && !cut.InRefolds?
    ensures cycle.check1.Some? ==>
              AfterRefolds(d, RefoldsOnly(cycle, cycle.refolds), Whole) == AfterRefolds(d, cycle, cut)
  {
    if cycle.check1.Some? {
      RefoldLoopReads(
        Loop(d, {}, {}, false), cycle, RefoldsOnly(cycle, cycle.refolds), Backlog.Blocked(d.backlog, d.ident),
        d.st.rows, cycle.refolds);
    }
  }

  lemma {:induction false} KeepsNoMore(clusters: seq<Cluster>, keeps: Cluster -> bool)
    ensures |Keep(clusters, keeps)| <= |clusters|
  {
    if clusters != [] { KeepsNoMore(clusters[..|clusters| - 1], keeps); }
  }

  lemma FoldableFew(cycle: Cycle, listed: SummaryTable, blocked: set<set<int>>, withheld: set<set<int>>)
    requires cycle.check2.Some?
    ensures |Foldable(cycle, listed, blocked, withheld)| <= |cycle.clusters|
  {
    var unmatched := Keep(cycle.clusters, Unmatched(listed));
    var sendable := Keep(unmatched, Sendable(blocked, withheld));
    KeepsNoMore(cycle.clusters, Unmatched(listed));
    KeepsNoMore(unmatched, Sendable(blocked, withheld));
    KeepsNoMore(sendable, SeveralMembers());
    KeepsNoMore(Keep(sendable, SeveralMembers()), Processed(cycle, cycle.check2.value));
  }

  /** One more or the same. */
  ghost predicate AtMostOneMore(a: seq<Call>, b: seq<Call>) {
    a <= b && |b| <= |a| + 1
  }

  lemma FreshOneMore(l: Loop, clusters: seq<Cluster>, n: nat)
    ensures AtMostOneMore(FreshLoop(l, First(clusters, n)).d.calls, FreshLoop(l, First(clusters, n + 1)).d.calls)
    ensures n == 0 ==> FreshLoop(l, First(clusters, n)) == l
    ensures n >= |clusters| ==> First(clusters, n) == clusters
  {
    if n < |clusters| {
      var before, c := FreshLoop(l, clusters[..n]), clusters[n];
      assert First(clusters, n) == clusters[..n] && First(clusters, n + 1) == clusters[..n + 1];
      assert clusters[..n + 1][..n] == clusters[..n];
      FoldRemembers(before.d, FreshTarget(before.d.st.rows, c));
    }
  }

  /** The same of the second half of a cycle, after its refolds. */
  lemma PhaseOneMore(l: Loop, cycle: Cycle, blocked: set<set<int>>, n: nat)
    requires cycle.check2.Some?
    ensures AtMostOneMore(FreshPhase(l, cycle, blocked, InFresh(n)).d.calls,
                          FreshPhase(l, cycle, blocked, InFresh(n + 1)).d.calls)
    ensures n == 0 ==> FreshPhase(l, cycle, blocked, InFresh(n)).d.calls == l.d.calls
    ensures n >= |cycle.clusters| ==> FreshPhase(l, cycle, blocked, InFresh(n)) == FreshPhase(l, cycle, blocked, Whole)
  {
    var todo := Foldable(cycle, l.d.st.rows, blocked, l.d.withheld);
    FoldableFew(cycle, l.d.st.rows, blocked, l.d.withheld);
    FreshOneMore(AfterAppends(l, cycle, Whole), todo, n);
    assert AfterAppends(l, cycle, InFresh(n)) == AfterAppends(l, cycle, Whole);
    assert AfterAppends(l, cycle, InFresh(n + 1)) == AfterAppends(l, cycle, Whole);
  }

  /**
   Cut among the fresh components: before the first, only the refolds were sent; each further component adds a call or
   none, after all those made before it; after the last, the cycle is a whole one.
   */
  lemma CutInFreshSends(d: Daemon, cycle: Cycle, n: nat)
    requires CycleOk(d.st.rows, cycle)
    ensures AtMostOneMore(
              InsightPass(d, cycle, InFresh(n)).calls, InsightPass(d, cycle, InFresh(n + 1)).calls)
    ensures n == 0 ==> InsightPass(d, cycle, InFresh(n)).calls
                       == InsightPass(d, RefoldsOnly(cycle, cycle.refolds), Whole).calls
    ensures n >= |cycle.clusters| ==> InsightPass(d, cycle, InFresh(n)) == InsightPass(d, cycle, Whole)
  {
    if cycle.backlogRead && cycle.check1.Some? {
      var l := AfterRefolds(d, cycle, Whole);
      SameRefolds(d, cycle, Whole);
      PassAfterRefolds(d, RefoldsOnly(cycle, cycle.refolds), Whole, l);
      PassAfterRefolds(d, cycle, Whole, l);
      PassAfterRefolds(d, cycle, InFresh(n), l);
      PassAfterRefolds(d, cycle, InFresh(n + 1), l);
      if cycle.check2.Some? { PhaseOneMore(l, cycle, Backlog.Blocked(d.backlog, d.ident), n); }
    }
  }
}
