/**
 What an insight cycle sends to the model, said over the readiness rows it read: only sets all of whose records REM has
 finished with, and, when nothing stops it, every such set that is not withheld, told already or told meanwhile.
 */
module SendGuard {
  import opened Tables
  import opened Readiness
  import opened InsightCycle
  import opened PaidOnce
  import Backlog

  /** Every judgement of the set, and every retrospective carried with it, has one node, processed or superseded. */
  ghost predicate AllFinished(cycle: Cycle, ids: set<int>, rows: seq<ReadyRow>) {
    forall x :: x in ids || (ids in cycle.reversals && x in cycle.reversals[ids]) ==>
      exists i :: 0 <= i < |rows| && rows[i].pgId == x && (rows[i].remProcessed || rows[i].superseded)
                  && forall j :: 0 <= j < |rows| && rows[j].pgId == x ==> j == i
  }

  lemma DeferredExactly(cycle: Cycle, ids: set<int>, rows: seq<ReadyRow>)
    ensures Deferred(cycle, ids, rows) <==> !AllFinished(cycle, ids, rows)
  {
    forall x ensures Ready(rows, x) <==>
      exists i :: 0 <= i < |rows| && rows[i].pgId == x && (rows[i].remProcessed || rows[i].superseded)
                  && forall j :: 0 <= j < |rows| && rows[j].pgId == x ==> j == i
    {
      if i :| 0 <= i < |rows| && rows[i].pgId == x && (rows[i].remProcessed || rows[i].superseded)
              && forall j :: 0 <= j < |rows| && rows[j].pgId == x ==> j == i {
        assert SoleNode(rows, x, i);
      }
    }
    forall x ensures x in Carried(cycle, ids) <==> x in ids || (ids in cycle.reversals && x in cycle.reversals[ids]) {}
    if Deferred(cycle, ids, rows) {
      var x := Pick(Unprocessed(Carried(cycle, ids), rows));
    } else {
      forall x | x in Carried(cycle, ids) ensures Ready(rows, x) {
        assert x !in Unprocessed(Carried(cycle, ids), rows);
      }
    }
  }

  // ---------- nothing unfinished is sent ----------

  /** The calls went on, each of them for a set that these rows show finished. */
  ghost predicate SendsFinished(before: seq<Call>, after: seq<Call>, cycle: Cycle, rows: seq<ReadyRow>) {
    before <= after && forall i :: |before| <= i < |after| ==> AllFinished(cycle, after[i].ids, rows)
  }

  lemma {:induction false} RefoldsSendFinished(
    l: Loop, cycle: Cycle, blocked: set<set<int>>, rows: SummaryTable, refolds: seq<(int, Reply)>)
    requires cycle.check1.Some? && RefoldsOk(rows, refolds)
    ensures SendsFinished(
              l.d.calls, RefoldLoop(l, cycle, blocked, rows, refolds).d.calls, cycle, cycle.check1.value)
  {
    if refolds != [] {
      var front := refolds[..|refolds| - 1];
      RefoldsSendFinished(l, cycle, blocked, rows, front);
      var before := RefoldLoop(l, cycle, blocked, rows, front);
      var t := RefoldTarget(rows, refolds[|refolds| - 1]);
      DeferredExactly(cycle, t.ids, cycle.check1.value);
      FoldRemembers(before.d, t);
    }
  }

  lemma {:induction false} FreshSendFinished(l: Loop, clusters: seq<Cluster>, cycle: Cycle, rows: seq<ReadyRow>)
    requires forall c :: c in clusters ==> AllFinished(cycle, c.ids, rows)
    ensures SendsFinished(l.d.calls, FreshLoop(l, clusters).d.calls, cycle, rows)
  {
    if clusters != [] {
      var front, c := clusters[..|clusters| - 1], clusters[|clusters| - 1];
      assert c in clusters && forall x :: x in front ==> x in clusters;
      FreshSendFinished(l, front, cycle, rows);
      var before := FreshLoop(l, front);
      FoldRemembers(before.d, FreshTarget(before.d.st.rows, c));
    }
  }

  lemma FoldableAreFinished(
    cycle: Cycle, listed: SummaryTable, blocked: set<set<int>>, withheld: set<set<int>>, c: Cluster)
    requires cycle.check2.Some?
    ensures c in Foldable(cycle, listed, blocked, withheld) <==>
              c in cycle.clusters && !Held(listed, c.ids) && (c.ids == {} || c.ids !in blocked + withheld)
              && |c.ids| >= 2 && AllFinished(cycle, c.ids, cycle.check2.value)
  {
    DeferredExactly(cycle, c.ids, cycle.check2.value);
  }

  /** The fresh half of a cycle. */
  lemma PhaseSendsFinished(l: Loop, cycle: Cycle, blocked: set<set<int>>, cut: Cut)
    requires cycle.check2.Some?
    ensures SendsFinished(l.d.calls, FreshPhase(l, cycle, blocked, cut).d.calls, cycle, cycle.check2.value)
  {
    var foldable := Foldable(cycle, l.d.st.rows, blocked, l.d.withheld);
    forall c | c in FreshDone(foldable, cut) ensures AllFinished(cycle, c.ids, cycle.check2.value) {
      FoldableAreFinished(cycle, l.d.st.rows, blocked, l.d.withheld, c);
    }
    FreshSendFinished(AfterAppends(l, cycle, cut), FreshDone(foldable, cut), cycle, cycle.check2.value);
  }

  /**
   Whole or cut anywhere: the calls a cycle adds before the n-th are refolds of sets the first readiness read shows
   finished, those from the n-th on are of fresh sets the second one does.
   */
  lemma CycleSendsFinished(d: Daemon, cycle: Cycle, cut: Cut) returns (n: nat)
    requires CycleOk(d.st.rows, cycle)
    ensures var calls := InsightPass(d, cycle, cut).calls;
            && |d.calls| <= n <= |calls| && d.calls <= calls
            && (forall i :: |d.calls| <= i < n ==>
                  cycle.check1.Some? && AllFinished(cycle, calls[i].ids, cycle.check1.value))
            && (|d.calls| < |calls| ==> cycle.backlogRead)
            && forall i :: n <= i < |calls| ==>
                 cycle.check2.Some? && AllFinished(cycle, calls[i].ids, cycle.check2.value)
  {
    n := |d.calls|;
    if cycle.backlogRead && cycle.check1.Some? {
      var blocked := Backlog.Blocked(d.backlog, d.ident);
      RefoldsSendFinished(Loop(d, {}, {}, false), cycle, blocked, d.st.rows, RefoldsDone(cycle, cut));
      var l := AfterRefolds(d, cycle, cut);
      PassAfterRefolds(d, cycle, cut, l);
      n := |l.d.calls|;
      if !l.aborted && !cut.InRefolds? && cycle.check2.Some? { PhaseSendsFinished(l, cycle, blocked, cut); }
    }
  }

  /** A set with a record that neither read shows finished is not sent. */
  lemma UnfinishedIsNotSent(d: Daemon, cycle: Cycle, cut: Cut, ids: set<int>)
    requires CycleOk(d.st.rows, cycle)
    requires cycle.check1.Some? ==> !AllFinished(cycle, ids, cycle.check1.value)
    requires cycle.check2.Some? ==> !AllFinished(cycle, ids, cycle.check2.value)
    ensures var calls := InsightPass(d, cycle, cut).calls;
            d.calls <= calls && forall i :: |d.calls| <= i < |calls| ==> calls[i].ids != ids
  {
    var n := CycleSendsFinished(d, cycle, cut);
  }

  // ---------- what a cycle that ends by itself has met ----------

  /** No assembly raised in the calls made since. */
  ghost predicate NoneRaised(before: seq<Call>, after: seq<Call>) {
    before <= after && forall i :: |before| <= i < |after| ==> after[i].ending != Raised
  }

  lemma {:induction false} RefoldsRaiseNone(
    l: Loop, cycle: Cycle, blocked: set<set<int>>, rows: SummaryTable, refolds: seq<(int, Reply)>)
    requires cycle.check1.Some? && RefoldsOk(rows, refolds)
    requires !RefoldLoop(l, cycle, blocked, rows, refolds).aborted
    ensures !l.aborted && NoneRaised(l.d.calls, RefoldLoop(l, cycle, blocked, rows, refolds).d.calls)
  {
    if refolds != [] {
      var front := refolds[..|refolds| - 1];
      var before := RefoldLoop(l, cycle, blocked, rows, front);
      RefoldsRaiseNone(l, cycle, blocked, rows, front);
      FoldRemembers(before.d, RefoldTarget(rows, refolds[|refolds| - 1]));
    }
  }

  lemma {:induction false} FreshRaisesNone(l: Loop, clusters: seq<Cluster>)
    requires !FreshLoop(l, clusters).aborted
    ensures !l.aborted && NoneRaised(l.d.calls, FreshLoop(l, clusters).d.calls)
  {
    if clusters != [] {
      var front := clusters[..|clusters| - 1];
      var before := FreshLoop(l, front);
      FreshRaisesNone(l, front);
      FoldRemembers(before.d, FreshTarget(before.d.st.rows, clusters[|clusters| - 1]));
    }
  }

  /**
   The refold ledger is closed only by a cycle that was not cut, that could read its backlog and both readiness
   checks, and none of whose assemblies raised.
   */
  lemma CompletesOnlyWhole(d: Daemon, cycle: Cycle, cut: Cut)
    requires CycleOk(d.st.rows, cycle) && Completes(d, cycle, cut)
    ensures cut == Whole && cycle.backlogRead && cycle.check1.Some? && cycle.check2.Some?
    ensures NoneRaised(d.calls, InsightPass(d, cycle, cut).calls)
  {
    var blocked := Backlog.Blocked(d.backlog, d.ident);
    var l := AfterRefolds(d, cycle, cut);
    PassAfterRefolds(d, cycle, cut, l);
    RefoldsRaiseNone(Loop(d, {}, {}, false), cycle, blocked, d.st.rows, RefoldsDone(cycle, cut));
    FreshRaisesNone(AfterAppends(l, cycle, cut), FreshDone(Foldable(cycle, l.d.st.rows, blocked, l.d.withheld), cut));
  }

  // ---------- everything finished is sent ----------

  ghost predicate Sent(calls: seq<Call>, from: nat, ids: set<int>) {
    exists i :: from <= i < |calls| && calls[i].ids == ids
  }

  /** An insight over the judgement was written by one of these calls. */
  ghost predicate Retold(calls: seq<Call>, from: nat, x: int) {
    exists i :: from <= i < |calls| && calls[i].ending == InsightCycle.Written && x in calls[i].ids
  }

  /** What the loop remembers of its attempts is in the record of calls; a set in `silent` makes none. */
  ghost predicate Recorded(l: Loop, from: nat, silent: set<set<int>>, withheld: set<set<int>>) {
    (forall ids :: ids in l.attempted && ids !in silent ==> Sent(l.d.calls, from, ids))
    && (forall x :: x in l.folded ==> Retold(l.d.calls, from, x))
    && l.d.withheld <= withheld + l.attempted
  }

  lemma AttemptIsRecorded(l: Loop, t: Target, from: nat, silent: set<set<int>>, withheld: set<set<int>>)
    requires Recorded(l, from, silent, withheld) && from <= |l.d.calls| && (Calls(t.reply) || t.ids in silent)
    ensures Recorded(Attempt(l, t), from, silent, withheld) && from <= |Attempt(l, t).d.calls|
  {
    var out := Attempt(l, t);
    FoldRemembers(l.d, t);
    FoldWithholdsExactly(l.d, t);
    forall ids | ids in out.attempted && ids !in silent ensures Sent(out.d.calls, from, ids) {
      if ids == t.ids {
        assert out.d.calls[|l.d.calls|].ids == ids;
      } else {
        var i :| from <= i < |l.d.calls| && l.d.calls[i].ids == ids;
        assert out.d.calls[i].ids == ids;
      }
    }
    forall x | x in out.folded ensures Retold(out.d.calls, from, x) {
      if x in l.folded {
        var i :| from <= i < |l.d.calls| && l.d.calls[i].ending == InsightCycle.Written && x in l.d.calls[i].ids;
        assert out.d.calls[i] == l.d.calls[i];
      } else {
        assert x in t.ids && out.d.calls[|l.d.calls|].ending == InsightCycle.Written;
      }
    }
  }

  /** A refold of this set would be tried. */
  ghost predicate RefoldDue(cycle: Cycle, blocked: set<set<int>>, withheld: set<set<int>>, ids: set<int>) {
    cycle.check1.Some? && ids !in blocked && ids !in withheld && AllFinished(cycle, ids, cycle.check1.value)
  }

  lemma {:induction false} RefoldsAreTried(
    l: Loop, cycle: Cycle, blocked: set<set<int>>, rows: SummaryTable, refolds: seq<(int, Reply)>, from: nat,
    silent: set<set<int>>, withheld: set<set<int>>)
    requires cycle.check1.Some? && RefoldsOk(rows, refolds) && from <= |l.d.calls|
    requires Recorded(l, from, silent, withheld)
    requires forall k :: 0 <= k < |refolds| && !Calls(refolds[k].1) ==> RefoldTarget(rows, refolds[k]).ids in silent
    ensures var out := RefoldLoop(l, cycle, blocked, rows, refolds);
            && Recorded(out, from, silent, withheld) && from <= |out.d.calls|
            && l.attempted <= out.attempted
            && (!out.aborted ==> forall k :: 0 <= k < |refolds| ==>
                  var ids := RefoldTarget(rows, refolds[k]).ids;
                  RefoldDue(cycle, blocked, withheld, ids) ==> ids in out.attempted)
  {
    if refolds != [] {
      var front := refolds[..|refolds| - 1];
      RefoldsAreTried(l, cycle, blocked, rows, front, from, silent, withheld);
      var before := RefoldLoop(l, cycle, blocked, rows, front);
      var t := RefoldTarget(rows, refolds[|refolds| - 1]);
      DeferredExactly(cycle, t.ids, cycle.check1.value);
      AttemptIsRecorded(before, t, from, silent, withheld);
      var out := RefoldLoop(l, cycle, blocked, rows, refolds);
      assert before.attempted <= out.attempted;
      if !out.aborted {
        assert !before.aborted;
        forall k | 0 <= k < |refolds|
          ensures RefoldDue(cycle, blocked, withheld, RefoldTarget(rows, refolds[k]).ids) ==>
                    RefoldTarget(rows, refolds[k]).ids in out.attempted
        {
          if k < |front| { assert refolds[k] == front[k]; } else { assert RefoldTarget(rows, refolds[k]) == t; }
        }
      }
    }
  }

  lemma {:induction false} FreshAreTried(
    l: Loop, clusters: seq<Cluster>, from: nat, silent: set<set<int>>, withheld: set<set<int>>)
    requires Recorded(l, from, silent, withheld) && from <= |l.d.calls|
    requires forall c :: c in clusters && !Calls(c.reply) ==> c.ids in silent
    ensures var out := FreshLoop(l, clusters);
            && Recorded(out, from, silent, withheld) && from <= |out.d.calls|
            && l.folded <= out.folded && l.attempted <= out.attempted
            && (!out.aborted ==> forall c :: c in clusters ==>
                  c.ids == {} || c.ids * out.folded != {} || c.ids in out.attempted)
  {
    if clusters != [] {
      var front, last := clusters[..|clusters| - 1], clusters[|clusters| - 1];
      assert clusters == front + [last];
      FreshAreTried(l, front, from, silent, withheld);
      var before := FreshLoop(l, front);
      AttemptIsRecorded(before, FreshTarget(before.d.st.rows, last), from, silent, withheld);
      var out := FreshLoop(l, clusters);
      assert before.folded <= out.folded && before.attempted <= out.attempted;
      if !out.aborted {
        assert !before.aborted;
        forall c | c in clusters ensures c.ids == {} || c.ids * out.folded != {} || c.ids in out.attempted {
          if c in front && c.ids * before.folded != {} {
            var x := Pick(c.ids * before.folded);
            assert x in c.ids * out.folded;
          }
        }
      }
    }
  }

  /** The sets one of whose folds would find fewer than two of its judgements, and make no call. */
  function Silent(rows: SummaryTable, cycle: Cycle): set<set<int>>
    requires forall k :: 0 <= k < |cycle.refolds| ==> cycle.refolds[k].0 in rows
  {
    (set k | 0 <= k < |cycle.refolds| && !Calls(cycle.refolds[k].1) :: Elems(rows[cycle.refolds[k].0].sources))
    + set c | c in cycle.clusters && !Calls(c.reply) :: c.ids
  }

  /** No active insight holds every judgement of the set. */
  ghost predicate Untold(rows: SummaryTable, ids: set<int>) {
    forall id :: id in rows && rows[id].kind == Insight && !rows[id].superseded ==> !(ids <= Elems(rows[id].sources))
  }

  /** In a cycle that ends by itself, every refold that is due is sent. */
  lemma DueRefoldsAreSent(d: Daemon, cycle: Cycle, k: nat)
    requires CycleOk(d.st.rows, cycle) && Completes(d, cycle, Whole) && k < |cycle.refolds|
    requires var ids := Elems(d.st.rows[cycle.refolds[k].0].sources);
             ids !in Silent(d.st.rows, cycle)
             && RefoldDue(cycle, Backlog.Blocked(d.backlog, d.ident), d.withheld, ids)
    ensures Sent(InsightPass(d, cycle, Whole).calls, |d.calls|, Elems(d.st.rows[cycle.refolds[k].0].sources))
  {
    var l := RefoldsRecorded(d, cycle);
    var ids := Elems(d.st.rows[cycle.refolds[k].0].sources);
    assert RefoldTarget(d.st.rows, cycle.refolds[k]).ids == ids;
    PassAfterRefolds(d, cycle, Whole, l);
    var i :| |d.calls| <= i < |l.d.calls| && l.d.calls[i].ids == ids;
    PhaseSendsFinished(l, cycle, Backlog.Blocked(d.backlog, d.ident), Whole);
    assert InsightPass(d, cycle, Whole).calls[i].ids == ids;
  }

  /** What the refolds of a cycle leave behind. */
  lemma RefoldsRecorded(d: Daemon, cycle: Cycle) returns (l: Loop)
    requires CycleOk(d.st.rows, cycle) && Completes(d, cycle, Whole)
    ensures l == AfterRefolds(d, cycle, Whole) && !l.aborted && |d.calls| <= |l.d.calls|
    ensures Recorded(l, |d.calls|, Silent(d.st.rows, cycle), d.withheld)
    ensures forall k :: 0 <= k < |cycle.refolds| ==>
              var ids := RefoldTarget(d.st.rows, cycle.refolds[k]).ids;
              RefoldDue(cycle, Backlog.Blocked(d.backlog, d.ident), d.withheld, ids) ==> ids in l.attempted
  {
    l := AfterRefolds(d, cycle, Whole);
    RefoldsAreTried(
      Loop(d, {}, {}, false), cycle, Backlog.Blocked(d.backlog, d.ident), d.st.rows, cycle.refolds, |d.calls|,
      Silent(d.st.rows, cycle), d.withheld);
  }

  /**
   In a cycle that ends by itself, every fresh component of several finished judgements that no active insight told
   when the refolds were done, and that is not withheld, is sent, unless one of its judgements was told again meanwhile.
   */
  lemma FinishedComponentsAreSent(d: Daemon, cycle: Cycle, c: Cluster)
    requires CycleOk(d.st.rows, cycle) && Completes(d, cycle, Whole) && c in cycle.clusters
    requires |c.ids| >= 2 && AllFinished(cycle, c.ids, cycle.check2.value) && c.ids !in Silent(d.st.rows, cycle)
    requires c.ids !in Backlog.Blocked(d.backlog, d.ident) && c.ids !in d.withheld
    requires Untold(AfterRefolds(d, cycle, Whole).d.st.rows, c.ids)
    ensures var calls := InsightPass(d, cycle, Whole).calls;
            Sent(calls, |d.calls|, c.ids) || exists x :: x in c.ids && Retold(calls, |d.calls|, x)
  {
    var l := RefoldsRecorded(d, cycle);
    PassAfterRefolds(d, cycle, Whole, l);
    var out := PhaseRecorded(d, cycle, l);
    if c.ids in l.attempted {
      assert c.ids in out.attempted;
    } else {
      var blocked := Backlog.Blocked(d.backlog, d.ident);
      FoldableAreFinished(cycle, l.d.st.rows, blocked, l.d.withheld, c);
      if c.ids * out.folded != {} { var x := Pick(c.ids * out.folded); }
    }
  }

  lemma PhaseRecorded(d: Daemon, cycle: Cycle, l: Loop) returns (out: Loop)
    requires CycleOk(d.st.rows, cycle) && Completes(d, cycle, Whole) && l == AfterRefolds(d, cycle, Whole)
    requires |d.calls| <= |l.d.calls| && Recorded(l, |d.calls|, Silent(d.st.rows, cycle), d.withheld)
    ensures var blocked := Backlog.Blocked(d.backlog, d.ident);
            && out == FreshPhase(l, cycle, blocked, Whole) && !out.aborted
            && l.attempted <= out.attempted && Recorded(out, |d.calls|, Silent(d.st.rows, cycle), d.withheld)
            && forall c :: c in Foldable(cycle, l.d.st.rows, blocked, l.d.withheld) ==>
                 c.ids == {} || c.ids * out.folded != {} || c.ids in out.attempted
  {
    var blocked := Backlog.Blocked(d.backlog, d.ident);
    var foldable := Foldable(cycle, l.d.st.rows, blocked, l.d.withheld);
    out := FreshPhase(l, cycle, blocked, Whole);
    forall c | c in foldable ensures c in cycle.clusters {
      FoldableAreFinished(cycle, l.d.st.rows, blocked, l.d.withheld, c);
    }
    FreshAreTried(AfterAppends(l, cycle, Whole), foldable, |d.calls|, Silent(d.st.rows, cycle), d.withheld);
  }
}
