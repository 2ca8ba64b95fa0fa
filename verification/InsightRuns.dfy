/**
 What the insight cycle keeps over whole runs: the active insights of a project are an antichain, and no
 judgement set is sent to the model again once its fold was settled.
 */
module InsightRuns {
  import opened Tables
  import opened Succession
  import opened RefoldLedger
  import opened InsightCycle
  import Backlog

  // ---------- the antichain ----------

  ghost predicate Antichain(st: State) {
    (forall id :: id in st.rows ==> 0 <= id < st.nextId)
    && 0 <= st.nextId
    && (forall a :: ActiveInsight(st.rows, a) ==> st.rows[a].sources != [] && st.rows[a].key.project != "")
    && forall a, b :: ActiveInsight(st.rows, a) && ActiveInsight(st.rows, b) && a != b
                      && st.rows[a].key.project == st.rows[b].key.project ==>
         !(Elems(st.rows[a].sources) <= Elems(st.rows[b].sources))
  }

  /** No active insight of the project strictly contains the set. */
  ghost predicate Uncontained(rows: SummaryTable, project: string, ids: set<int>) {
    forall b :: ActiveInsight(rows, b) && rows[b].key.project == project ==> !(ids < Elems(rows[b].sources))
  }

  lemma SortedElems(s: set<int>)
    ensures Elems(Sorted(s)) == s
  {
  }

  /** The insert plus the project's coverage pass keep the antichain, provided nothing contains the new set. */
  lemma WriteKeepsAntichain(st: State, told: NewInsight, ids: set<int>)
    requires Antichain(st) && told.project != "" && ids != {} && Uncontained(st.rows, told.project, ids)
    requires told.sources == Sorted(ids)
    ensures Antichain(WriteInsight(st, told))
  {
    SortedElems(ids);
    var project := told.project;
    var out := WriteInsight(st, told);
    var n := st.nextId;
    assert n !in st.rows;
    var x := Pick(ids);
    assert x in Sorted(ids);
    forall a | ActiveInsight(out.rows, a) && a != n
      ensures ActiveInsight(st.rows, a) && out.rows[a] == st.rows[a]
      ensures st.rows[a].key.project == project ==>
        !(Elems(st.rows[a].sources) <= ids) && !(ids <= Elems(st.rows[a].sources))
    {
    }
  }

  /**
   The write adds one active insight and retires, by coverage, exactly the active insights of its project all of whose
   judgements it tells; every other row is as it was.
   */
  lemma WriteCoversExactly(st: State, told: NewInsight)
    requires st.nextId !in st.rows
    ensures var out := WriteInsight(st, told);
            && out.nextId == st.nextId + 1 && out.rows.Keys == st.rows.Keys + {st.nextId}
            && !out.rows[st.nextId].superseded && out.rows[st.nextId].sources == told.sources
            && forall id :: id in st.rows ==>
                 var row := st.rows[id];
                 out.rows[id] ==
                 if row.kind == Insight && !row.superseded && row.key.project == told.project && row.sources != []
                    && (forall m :: m in row.sources ==> m in told.sources)
                 then row.(superseded := true, reason := Coverage, retiredAt := st.now) else row
  {
    forall id | id in st.rows
      ensures Elems(st.rows[id].sources) <= Elems(told.sources) <==>
                forall m :: m in st.rows[id].sources ==> m in told.sources
    {
      ElemsInside(st.rows[id].sources, told.sources);
    }
  }

  lemma ElemsInside(a: seq<int>, b: seq<int>)
    ensures Elems(a) <= Elems(b) <==> forall m :: m in a ==> m in b
  {
    if forall m :: m in a ==> m in b {
      forall m | m in Elems(a) ensures m in Elems(b) {}
    } else {
      var m :| m in a && m !in b;
      assert m in Elems(a) && m !in Elems(b);
    }
  }

  /** Every active insight was already there with the same set and project. */
  ghost predicate NoNewInsights(before: SummaryTable, after: SummaryTable) {
    forall id :: ActiveInsight(after, id) ==>
      ActiveInsight(before, id) && after[id].sources == before[id].sources && after[id].key == before[id].key
  }

  lemma NoNewKeepsAntichain(st: State, out: State)
    requires Antichain(st) && NoNewInsights(st.rows, out.rows)
    requires st.nextId <= out.nextId && forall id :: id in out.rows ==> 0 <= id < out.nextId
    ensures Antichain(out)
  {
  }

  lemma AppendKeepsInsights(st: State, id: int, summaryId: Option<int>, domain: string)
    ensures var out := AppendReference(st, id, summaryId, domain);
            && NoNewInsights(st.rows, out.rows) && NoNewInsights(out.rows, st.rows)
            && out.rows.Keys == st.rows.Keys && out.nextId == st.nextId
  {
  }

  /** The insight of this project over exactly this set is active. */
  ghost predicate Represented(rows: SummaryTable, project: string, ids: set<int>) {
    exists id :: SameSet(rows, id, ids) && rows[id].key.project == project
  }

  lemma RepresentedIsUncontained(st: State, project: string, ids: set<int>)
    requires Antichain(st) && Represented(st.rows, project, ids)
    ensures project != "" && ids != {} && Uncontained(st.rows, project, ids)
  {
    var id :| SameSet(st.rows, id, ids) && st.rows[id].key.project == project;
    assert st.rows[id].sources[0] in ids;
  }

  /** A refold of one represented set leaves every other one represented. */
  lemma WriteKeepsRepresented(st: State, told: NewInsight, ids: set<int>, p: string, s: set<int>)
    requires Antichain(st) && Represented(st.rows, told.project, ids) && Represented(st.rows, p, s)
    requires told.sources == Sorted(ids)
    ensures Represented(WriteInsight(st, told).rows, p, s)
  {
    RepresentedIsUncontained(st, told.project, ids);
    var b :| SameSet(st.rows, b, s) && st.rows[b].key.project == p;
    if p == told.project && s <= ids {
      var a :| SameSet(st.rows, a, ids) && st.rows[a].key.project == told.project;
      assert a == b;
      WriteRepresents(st, told, ids);
    } else {
      WriteSpares(st, told, ids, b);
    }
  }

  lemma WriteRepresents(st: State, told: NewInsight, ids: set<int>)
    requires Antichain(st) && told.sources == Sorted(ids)
    ensures Represented(WriteInsight(st, told).rows, told.project, ids)
  {
    SortedElems(ids);
    assert SameSet(WriteInsight(st, told).rows, st.nextId, ids);
  }

  /** The coverage pass of the write reaches only what its own project tells of its own judgements. */
  lemma WriteSpares(st: State, told: NewInsight, ids: set<int>, b: int)
    requires Antichain(st) && told.sources == Sorted(ids) && ActiveInsight(st.rows, b)
    requires st.rows[b].key.project == told.project ==> !(Elems(st.rows[b].sources) <= ids)
    ensures var out := WriteInsight(st, told).rows; ActiveInsight(out, b) && out[b] == st.rows[b]
  {
    SortedElems(ids);
  }

  // ---------- the refold loop ----------

  ghost predicate RefoldInv(st: State, rows: SummaryTable, refolds: seq<(int, Reply)>)
    requires RefoldsOk(rows, refolds)
  {
    Antichain(st) && forall k :: 0 <= k < |refolds| ==>
      Represented(st.rows, rows[refolds[k].0].key.project, Elems(rows[refolds[k].0].sources))
  }

  /** What is stored of a failure is not in the summary table. */
  lemma AnsweredState(d: Daemon, t: Target)
    ensures Answered(d, t).st == d.st
  {
  }

  lemma FoldInsightState(d: Daemon, t: Target)
    ensures FoldInsight(d, t).st == if Succeeded(t.reply) then WriteInsight(d.st, Told(t)) else d.st
  {
    if Calls(t.reply) {
      var called := d.(calls := d.calls + [Call(t.ids, d.process, d.era, EndingOf(t.reply))]);
      AnsweredState(called, t);
    }
  }

  lemma {:induction false} RefoldLoopKeeps(
    l: Loop, cycle: Cycle, blocked: set<set<int>>, rows: SummaryTable, all: seq<(int, Reply)>, n: nat)
    requires cycle.check1.Some? && RefoldsOk(rows, all) && n <= |all| && RefoldInv(l.d.st, rows, all)
    ensures RefoldInv(RefoldLoop(l, cycle, blocked, rows, all[..n]).d.st, rows, all)
  {
    if n > 0 {
      assert all[..n][..n - 1] == all[..n - 1];
      RefoldLoopKeeps(l, cycle, blocked, rows, all, n - 1);
      var before := RefoldLoop(l, cycle, blocked, rows, all[..n - 1]);
      var t := RefoldTarget(rows, all[n - 1]);
      FoldInsightState(before.d, t);
      if Succeeded(t.reply) {
        RepresentedIsUncontained(before.d.st, t.project, t.ids);
        WriteKeepsAntichain(before.d.st, Told(t), t.ids);
        forall k | 0 <= k < |all|
          ensures Represented(FoldInsight(before.d, t).st.rows, rows[all[k].0].key.project,
            Elems(rows[all[k].0].sources))
        {
          WriteKeepsRepresented(before.d.st, Told(t), t.ids, rows[all[k].0].key.project, Elems(rows[all[k].0].sources));
        }
      }
    }
  }

  // ---------- the fresh loop ----------

  ghost predicate ListedOrFolded(rows: SummaryTable, listed: SummaryTable, folded: set<int>) {
    forall id :: ActiveInsight(rows, id) ==>
      (ActiveInsight(listed, id) && listed[id].sources == rows[id].sources) || Elems(rows[id].sources) <= folded
  }

  /** Every active insight was listed at identity time, or reaches only judgements folded this cycle. */
  ghost predicate FreshInv(l: Loop, listed: SummaryTable) {
    Antichain(l.d.st) && ListedOrFolded(l.d.st.rows, listed, l.folded)
  }

  /** Nothing active contains a set that was not held before the loop and shares nothing with what it folded. */
  lemma FreshIsUncontained(l: Loop, listed: SummaryTable, c: Cluster)
    requires FreshInv(l, listed) && !Held(listed, c.ids) && c.ids != {} && c.ids * l.folded == {}
    ensures Uncontained(l.d.st.rows, c.project, c.ids)
  {
    var x := Pick(c.ids);
    EmptyMeetIsDisjoint(c.ids, l.folded);
    forall b | ActiveInsight(l.d.st.rows, b) ensures !(c.ids < Elems(l.d.st.rows[b].sources)) {
      if ActiveInsight(listed, b) && listed[b].sources == l.d.st.rows[b].sources {
        assert !(c.ids <= Elems(listed[b].sources));
      } else {
        assert x !in Elems(l.d.st.rows[b].sources);
      }
    }
  }

  /** A write adds one active insight over its own sources and changes none of those it leaves active. */
  lemma WriteLeaves(st: State, told: NewInsight)
    requires Antichain(st)
    ensures var rows, n := WriteInsight(st, told).rows, st.nextId;
            && n !in st.rows && (ActiveInsight(rows, n) ==> rows[n].sources == told.sources)
            && forall a :: ActiveInsight(rows, a) && a != n ==> ActiveInsight(st.rows, a) && rows[a] == st.rows[a]
  {
  }

  lemma FreshStepKeeps(l: Loop, listed: SummaryTable, c: Cluster)
    requires FreshInv(l, listed) && !Held(listed, c.ids) && c.project != ""
    ensures FreshInv(FreshStep(l, c), listed)
  {
    var t := FreshTarget(l.d.st.rows, c);
    if c.ids != {} && c.ids * l.folded == {} {
      FoldInsightState(l.d, t);
      if Succeeded(t.reply) {
        FreshIsUncontained(l, listed, c);
        FreshWriteKeeps(l.d.st, l.folded, listed, Told(t), c.ids);
      }
    }
  }

  /** The write of a set that nothing contains, as the loop sees it. */
  lemma FreshWriteKeeps(st: State, folded: set<int>, listed: SummaryTable, told: NewInsight, ids: set<int>)
    requires Antichain(st) && ListedOrFolded(st.rows, listed, folded)
    requires told.project != "" && ids != {} && Uncontained(st.rows, told.project, ids) && told.sources == Sorted(ids)
    ensures Antichain(WriteInsight(st, told))
    ensures ListedOrFolded(WriteInsight(st, told).rows, listed, folded + ids)
  {
    SortedElems(ids);
    WriteKeepsAntichain(st, told, ids);
    WriteLeaves(st, told);
  }

  lemma {:induction false} FreshLoopKeeps(l: Loop, listed: SummaryTable, clusters: seq<Cluster>)
    requires FreshInv(l, listed) && forall c :: c in clusters ==> !Held(listed, c.ids) && c.project != ""
    ensures FreshInv(FreshLoop(l, clusters), listed)
  {
    if clusters != [] {
      var front := clusters[..|clusters| - 1];
      assert forall c :: c in front ==> c in clusters;
      FreshLoopKeeps(l, listed, front);
      FreshStepKeeps(FreshLoop(l, front), listed, clusters[|clusters| - 1]);
    }
  }

  lemma {:induction false} AppendsKeepInsights(listed: SummaryTable, st: State, clusters: seq<Cluster>)
    ensures var out := AppendMatches(listed, st, clusters);
            NoNewInsights(st.rows, out.rows) && out.rows.Keys == st.rows.Keys && out.nextId == st.nextId
  {
    if clusters != [] {
      var front := clusters[..|clusters| - 1];
      AppendsKeepInsights(listed, st, front);
      var before := AppendMatches(listed, st, front);
      var c := clusters[|clusters| - 1];
      if exists id :: IsSame(listed, id, c.ids) {
        var id :| IsSame(listed, id, c.ids)
          && AppendMatched(listed, before, c) == AppendReference(before, id, Cites(before.rows, c), c.section);
        AppendKeepsInsights(before, id, Cites(before.rows, c), c.section);
      }
    }
  }

  lemma {:induction false} AppendsKeepLineage(listed: SummaryTable, st: State, clusters: seq<Cluster>)
    requires SoundLineage(st)
    ensures SoundLineage(AppendMatches(listed, st, clusters))
  {
    if clusters != [] {
      var before := AppendMatches(listed, st, clusters[..|clusters| - 1]);
      AppendsKeepLineage(listed, st, clusters[..|clusters| - 1]);
      var c := clusters[|clusters| - 1];
      if exists id :: IsSame(listed, id, c.ids) {
        var id :| IsSame(listed, id, c.ids)
                  && AppendMatched(listed, before, c) == AppendReference(before, id, Cites(before.rows, c), c.section);
        StepKeepsLineage(before, AppendStep(id, Cites(before.rows, c), c.section));
      }
    }
  }

  /** Whole or cut anywhere, a cycle keeps the antichain. */
  lemma CycleKeepsAntichain(d: Daemon, cycle: Cycle, cut: Cut)
    requires Antichain(d.st) && CycleOk(d.st.rows, cycle)
    ensures Antichain(InsightPass(d, cycle, cut).st)
  {
    if cycle.backlogRead && cycle.check1.Some? {
      RefoldsKeepAntichain(d, cycle, cut);
      var l := AfterRefolds(d, cycle, cut);
      PassAfterRefolds(d, cycle, cut, l);
      if !l.aborted && !cut.InRefolds? && cycle.check2.Some? {
        FreshKeepsAntichain(l, cycle, Backlog.Blocked(d.backlog, d.ident), cut);
      }
    }
  }

  lemma RefoldsKeepAntichain(d: Daemon, cycle: Cycle, cut: Cut)
    requires Antichain(d.st) && CycleOk(d.st.rows, cycle) && cycle.check1.Some?
    ensures Antichain(AfterRefolds(d, cycle, cut).d.st)
  {
    var refolds := RefoldsDone(cycle, cut);
    forall k | 0 <= k < |refolds|
      ensures var row := d.st.rows[refolds[k].0]; Represented(d.st.rows, row.key.project, Elems(row.sources))
    {
      assert SameSet(d.st.rows, refolds[k].0, Elems(d.st.rows[refolds[k].0].sources));
    }
    assert refolds[..|refolds|] == refolds;
    RefoldLoopKeeps(Loop(d, {}, {}, false), cycle, Backlog.Blocked(d.backlog, d.ident), d.st.rows, refolds, |refolds|);
  }

  lemma FreshKeepsAntichain(l: Loop, cycle: Cycle, blocked: set<set<int>>, cut: Cut)
    requires Antichain(l.d.st) && cycle.check2.Some?
    requires forall c :: c in cycle.clusters ==> c.project != "" && ReplyOk(c.reply)
    ensures Antichain(FreshPhase(l, cycle, blocked, cut).d.st)
  {
    var listed := l.d.st.rows;
    var done := AppendsDone(cycle, cut);
    AppendsKeepInsights(listed, l.d.st, done);
    var appended := AppendMatches(listed, l.d.st, done);
    NoNewKeepsAntichain(l.d.st, appended);
    FreshLoopKeeps(AfterAppends(l, cycle, cut), listed, FreshDone(Foldable(cycle, listed, blocked, l.d.withheld), cut));
  }

  // ---------- the refold ledger ----------

  /** Appending a reference to an insight folds nothing: it covers no ledger row that was not covered before. */
  lemma {:induction false} AppendsCloseNothing(listed: SummaryTable, st: State, clusters: seq<Cluster>, r: RefoldRow)
    ensures CoveredBy(AppendMatches(listed, st, clusters).rows, r) <==> CoveredBy(st.rows, r)
  {
    if clusters != [] {
      var front := clusters[..|clusters| - 1];
      AppendsCloseNothing(listed, st, front, r);
      var before := AppendMatches(listed, st, front);
      var c := clusters[|clusters| - 1];
      if exists id :: IsSame(listed, id, c.ids) {
        var id :| IsSame(listed, id, c.ids)
          && AppendMatched(listed, before, c) == AppendReference(before, id, Cites(before.rows, c), c.section);
        AppendCoversNothing(before, id, Cites(before.rows, c), c.section, r);
      }
    }
  }

  lemma AppendCoversNothing(st: State, id: int, summaryId: Option<int>, domain: string, r: RefoldRow)
    ensures CoveredBy(AppendReference(st, id, summaryId, domain).rows, r) <==> CoveredBy(st.rows, r)
  {
    var out := AppendReference(st, id, summaryId, domain).rows;
    forall x | x in st.rows ensures x in out && (Refolds(out[x], r) <==> Refolds(st.rows[x], r)) {}
  }
}
