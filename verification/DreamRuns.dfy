/**
 Whole runs over all the tables at once: fact cycles, invalidation and recheck sweeps, insight cycles and restarts
 in any order, each of them whole or cut wherever an exception or the death of the process may cut it.
 */
module DreamRuns {
  import opened Tables
  import opened Chain
  import opened Repoint
  import opened Succession
  import opened RefoldLedger
  import opened FactCycle
  import opened RefoldClock
  import opened InsightCycle
  import opened InsightRuns
  import opened PaidOnce
  import opened Invalidation
  import Following
  import Backlog

  /** The daemon with its summary table and backlog, and the refold ledger. */
  datatype World = World(d: Daemon, ledger: seq<RefoldRow>)

  datatype Event =
    | FactEvent(scan: Scan, backlogRead: bool, outcomes: seq<Outcome>, stop: Stop)
    | InvalidateEvent(records: DocTable)
    | RecheckEvent(records: DocTable)
    | InsightEvent(cycle: InsightCycle.Cycle, records: DocTable, cut: Cut)
    | Respawn(ident: Backlog.Identity)

  function DbOf(w: World): Db {
    Db(w.d.st, w.ledger)
  }

  function WithDb(w: World, db: Db): World {
    World(w.d.(st := db.st), db.ledger)
  }

  /** What a cycle reads of the outside is well formed; records, graph and replies are otherwise arbitrary. */
  ghost predicate Admissible(w: World, e: Event) {
    match e
    case FactEvent(scan, _, outcomes, _) => ScanOk(scan) && |outcomes| == |PlanOf(DbOf(w), scan)|
    case InsightEvent(cycle, _, _) => CycleOk(w.d.st.rows, cycle)
    case _ => true
  }

  /** A restart loses the withheld sets; a changed spawn identity opens a new era. */
  function Restarted(d: Daemon, ident: Backlog.Identity): Daemon {
    d.(withheld := {}, process := d.process + 1, era := if ident == d.ident then d.era else d.era + 1, ident := ident)
  }

  ghost function After(w: World, e: Event): World
    requires Admissible(w, e)
  {
    match e
    case FactEvent(scan, backlogRead, outcomes, stop) =>
      if backlogRead then WithDb(w, Partial(DbOf(w), scan, outcomes, stop)) else w
    case InvalidateEvent(records) => WithDb(w, RetireInvalidated(DbOf(w), records, Insight, {}))
    case RecheckEvent(records) => w.(d := w.d.(st := RecheckPass(w.d.st, records)))
    case InsightEvent(cycle, records, cut) =>
      var d := InsightPass(w.d, cycle, cut);
      World(d, if Completes(w.d, cycle, cut) then CloseRefolds(w.ledger, d.st.rows, records) else w.ledger)
    case Respawn(ident) => w.(d := Restarted(w.d, ident))
  }

  /** `trace` lists the states of a run, from a fresh installation on. */
  ghost predicate IsRun(trace: seq<World>, events: seq<Event>) {
    |trace| == |events| + 1
    && trace[0].d.st == EMPTY && trace[0].d.calls == [] && trace[0].ledger == []
    && forall k :: 0 <= k < |events| ==> Admissible(trace[k], events[k]) && trace[k + 1] == After(trace[k], events[k])
  }

  lemma TwoEventsRun(first: World, e: Event, second: World, f: Event, third: World)
    requires first.d.st == EMPTY && first.d.calls == [] && first.ledger == []
    requires Admissible(first, e) && second == After(first, e) && Admissible(second, f) && third == After(second, f)
    ensures IsRun([first, second, third], [e, f])
  {
    var trace, events := [first, second, third], [e, f];
    forall k | 0 <= k < |events|
      ensures Admissible(trace[k], events[k]) && trace[k + 1] == After(trace[k], events[k])
    {
      if k == 0 { assert events[k] == e && trace[k + 1] == second; } else { assert events[k] == f; }
    }
  }

  /** The four invariants: the lineage, the antichain, what was paid for, and the clock. */
  ghost predicate Sound(w: World) {
    SoundLineage(w.d.st) && Antichain(w.d.st) && Remembered(w.d) && PastOnly(DbOf(w))
  }

  // ---------- the lineage and the clock over insight cycles ----------

  /** Every row was folded before now. */
  ghost predicate RowsPast(st: State) {
    forall id :: id in st.rows ==> st.rows[id].foldedAt < st.now
  }

  /** `out` is a later table, sound, with everything in it in the past. */
  ghost predicate Later(st: State, out: State) {
    SoundLineage(out) && RowsPast(out) && st.now <= out.now
  }

  lemma WriteIsLater(st: State, told: NewInsight)
    requires SoundLineage(st) && RowsPast(st)
    ensures Later(st, WriteInsight(st, told))
  {
    InsightKeepsLineage(st, told);
  }

  lemma AppendIsLater(st: State, id: int, summaryId: Option<int>, domain: string)
    requires SoundLineage(st) && RowsPast(st)
    ensures Later(st, AppendReference(st, id, summaryId, domain))
  {
    StepKeepsLineage(st, AppendStep(id, summaryId, domain));
  }

  lemma FoldIsLater(d: Daemon, t: Target)
    requires SoundLineage(d.st) && RowsPast(d.st)
    ensures Later(d.st, FoldInsight(d, t).st)
  {
    FoldInsightState(d, t);
    if Succeeded(t.reply) { WriteIsLater(d.st, Told(t)); }
  }

  lemma {:induction false} RefoldsAreLater(
    l: Loop, cycle: InsightCycle.Cycle, blocked: set<set<int>>, rows: SummaryTable, refolds: seq<(int, Reply)>)
    requires cycle.check1.Some? && RefoldsOk(rows, refolds) && SoundLineage(l.d.st) && RowsPast(l.d.st)
    ensures Later(l.d.st, RefoldLoop(l, cycle, blocked, rows, refolds).d.st)
  {
    if refolds != [] {
      var front := refolds[..|refolds| - 1];
      RefoldsAreLater(l, cycle, blocked, rows, front);
      FoldIsLater(RefoldLoop(l, cycle, blocked, rows, front).d, RefoldTarget(rows, refolds[|refolds| - 1]));
    }
  }

  lemma {:induction false} FreshIsLater(l: Loop, clusters: seq<Cluster>)
    requires SoundLineage(l.d.st) && RowsPast(l.d.st)
    ensures Later(l.d.st, FreshLoop(l, clusters).d.st)
  {
    if clusters != [] {
      FreshIsLater(l, clusters[..|clusters| - 1]);
      var before := FreshLoop(l, clusters[..|clusters| - 1]);
      FoldIsLater(before.d, FreshTarget(before.d.st.rows, clusters[|clusters| - 1]));
    }
  }

  lemma {:induction false} AppendsAreLater(listed: SummaryTable, st: State, clusters: seq<Cluster>)
    requires SoundLineage(st) && RowsPast(st)
    ensures Later(st, AppendMatches(listed, st, clusters))
  {
    if clusters != [] {
      var before := AppendMatches(listed, st, clusters[..|clusters| - 1]);
      AppendsAreLater(listed, st, clusters[..|clusters| - 1]);
      var c := clusters[|clusters| - 1];
      if exists id :: IsSame(listed, id, c.ids) {
        var id :| IsSame(listed, id, c.ids)
                  && AppendMatched(listed, before, c) == AppendReference(before, id, Cites(before.rows, c), c.section);
        AppendIsLater(before, id, Cites(before.rows, c), c.section);
      }
    }
  }

  lemma CycleIsLater(d: Daemon, cycle: InsightCycle.Cycle, cut: Cut)
    requires SoundLineage(d.st) && RowsPast(d.st) && CycleOk(d.st.rows, cycle)
    ensures Later(d.st, InsightPass(d, cycle, cut).st)
  {
    if cycle.backlogRead && cycle.check1.Some? {
      var blocked := Backlog.Blocked(d.backlog, d.ident);
      RefoldsAreLater(Loop(d, {}, {}, false), cycle, blocked, d.st.rows, RefoldsDone(cycle, cut));
      var l := AfterRefolds(d, cycle, cut);
      PassAfterRefolds(d, cycle, cut, l);
      if !l.aborted && !cut.InRefolds? && cycle.check2.Some? {
        AppendsAreLater(l.d.st.rows, l.d.st, AppendsDone(cycle, cut));
        FreshIsLater(AfterAppends(l, cycle, cut), FreshDone(Foldable(cycle, l.d.st.rows, blocked, l.d.withheld), cut));
      }
    }
  }

  lemma InsightKeepsSound(w: World, e: Event)
    requires Sound(w) && Admissible(w, e) && e.InsightEvent?
    ensures Sound(After(w, e))
  {
    CycleIsLater(w.d, e.cycle, e.cut);
    CycleKeepsAntichain(w.d, e.cycle, e.cut);
    CycleRemembers(w.d, e.cycle, e.cut);
    ClosingOpensNothing(w.ledger, InsightPass(w.d, e.cycle, e.cut).st.rows, e.records, w.d.st.now);
  }

  lemma ClosingOpensNothing(ledger: seq<RefoldRow>, rows: SummaryTable, records: DocTable, now: int)
    requires forall r :: r in ledger ==> r.openedAt < now
    ensures forall r :: r in CloseRefolds(ledger, rows, records) ==> r.openedAt < now
  {
    var closed := CloseRefolds(ledger, rows, records);
    forall r | r in closed ensures r.openedAt < now {
      var i :| 0 <= i < |closed| && closed[i] == r;
      assert ledger[i] in ledger;
    }
  }

  // ---------- the antichain and the clock over the other writers ----------

  lemma LinkKeepsInsights(rows: SummaryTable, docs: DocTable, oldId: int, newId: int)
    ensures NoNewInsights(rows, Link(rows, docs, oldId, newId))
  {
    LinkShape(rows, docs, oldId, newId);
  }

  /** A thematic row is inserted and the tail of its key linked to it. */
  lemma LinkedInsertAddsNone(rows: SummaryTable, docs: DocTable, id: int, row: Summary, last: int)
    requires row.kind == Thematic
    ensures NoNewInsights(rows, Link(rows[id := row], docs, last, id))
  {
    LinkKeepsInsights(rows[id := row], docs, last, id);
  }

  lemma RetireAddsNone(rows: SummaryTable, id: int, now: int, after: SummaryTable)
    requires NoNewInsights(Retire(rows, id, now), after)
    ensures NoNewInsights(rows, after)
  {
  }

  lemma FoldAddsNoInsight(st: State, docs: DocTable, item: FoldItem)
    requires SoundLineage(st) && Current(st.rows, item)
    ensures NoNewInsights(st.rows, Fold(st, docs, item).rows)
  {
    FoldKeepsLineage(st, docs, item);
    WriteRowCases(st, docs, item);
    var row, out := FreshRow(item, st.now), WriteRow(st, docs, item).rows;
    if Succeeds(item) {
      LinkedInsertAddsNone(Retire(st.rows, item.prior.value, st.now), docs, st.nextId, row, item.prior.value);
      RetireAddsNone(st.rows, item.prior.value, st.now, out);
    } else if item.prior.None? && exists x :: Tail(st.rows, x, item.key) {
      var last :| Tail(st.rows, last, item.key) && out == Link(st.rows[st.nextId := row], docs, last, st.nextId);
      LinkedInsertAddsNone(st.rows, docs, st.nextId, row, last);
    }
  }

  lemma FoldKeepsAntichain(st: State, docs: DocTable, item: FoldItem)
    requires SoundLineage(st) && Antichain(st) && Current(st.rows, item)
    ensures Antichain(Fold(st, docs, item))
  {
    FoldKeepsLineage(st, docs, item);
    WriteRowCases(st, docs, item);
    FoldAddsNoInsight(st, docs, item);
    NoNewKeepsAntichain(st, Fold(st, docs, item));
  }

  lemma {:induction false} FoldAllKeepsAntichain(db: Db, plan: seq<Planned>, outcomes: seq<Outcome>)
    requires SoundLineage(db.st) && Antichain(db.st) && |outcomes| == |plan| && Ready(db.st.rows, plan)
    ensures Antichain(FoldAll(db, plan, outcomes).st)
    decreases |plan|
  {
    if plan != [] {
      StepReady(db, plan, outcomes);
      if outcomes[0].Written? { FoldKeepsAntichain(db.st, outcomes[0].docs, plan[0].item); }
      FoldAllKeepsAntichain(FoldOne(db, plan[0], outcomes[0]), plan[1..], outcomes[1..]);
    }
  }

  /** Retirement of any kind of row, with its ledger rows. */
  lemma InvalidationKeeps(db: Db, docs: DocTable, kind: Kind, skip: set<int>)
    requires SoundLineage(db.st) && Antichain(db.st) && PastOnly(db)
    ensures var out := RetireInvalidated(db, docs, kind, skip);
            SoundLineage(out.st) && Antichain(out.st) && PastOnly(out)
  {
    var ids := InvalidatedIds(db.st.rows, docs, kind, skip);
    RetireKeepsLineage(db.st, ids);
    NoNewKeepsAntichain(db.st, RetirePass(db.st, ids));
    var out := RetireInvalidated(db, docs, kind, skip);
    forall r | r in out.ledger ensures r.openedAt < out.st.now {
      if r !in db.ledger { SweepOpensNow(db.st.rows, docs, kind, Sorted(ids), db.st.now, r); }
    }
  }

  /** A fact cycle, whole or cut. */
  lemma PartialKeeps(db: Db, scan: Scan, outcomes: seq<Outcome>, stop: Stop)
    requires SoundLineage(db.st) && Antichain(db.st) && PastOnly(db)
    requires ScanOk(scan) && |outcomes| == |PlanOf(db, scan)|
    ensures var out := Partial(db, scan, outcomes, stop);
            SoundLineage(out.st) && Antichain(out.st) && PastOnly(out)
  {
    var plan, done := Take(PlanOf(db, scan), stop.folds), Take(outcomes, stop.folds);
    var swept := Swept(db, scan);
    InvalidationKeeps(db, scan.versions.sweeping, Thematic, GatingRows(db.st.rows, scan.groups));
    PlanIsReady(db, scan);
    FoldAllKeeps(swept, plan, done);
    FoldAllPast(swept, plan, done);
    FoldAllKeepsAntichain(swept, plan, done);
    ClosersKeepPast(FoldAll(swept, plan, done), scan, stop.closers);
  }

  lemma ClosersKeepPast(db: Db, scan: Scan, closers: nat)
    requires PastOnly(db)
    ensures PastOnly(db.(ledger :=
      CloseSome(db.ledger, db.st.rows, scan.versions.closing, scan.scanned, Gated(scan.groups), closers)))
  {
    var closed := CloseSome(db.ledger, db.st.rows, scan.versions.closing, scan.scanned, Gated(scan.groups), closers);
    forall r | r in closed ensures r.openedAt < db.st.now {
      var i :| 0 <= i < |closed| && closed[i] == r;
      assert db.ledger[i] in db.ledger;
    }
  }

  lemma RecheckColumns(rows: SummaryTable, docs: DocTable)
    ensures Recheck(rows, docs).Keys == rows.Keys
    ensures forall id :: id in rows ==> Recheck(rows, docs)[id].(summaryIds := rows[id].summaryIds) == rows[id]
  {
  }

  lemma RecheckAddsNone(rows: SummaryTable, docs: DocTable)
    ensures NoNewInsights(rows, Recheck(rows, docs))
  {
    RecheckColumns(rows, docs);
  }

  lemma RecheckIsLater(st: State, docs: DocTable)
    requires SoundLineage(st) && RowsPast(st)
    ensures Later(st, RecheckPass(st, docs))
  {
    StepKeepsLineage(st, RecheckStep(docs));
    RecheckColumns(st.rows, docs);
  }

  lemma RecheckKeeps(st: State, docs: DocTable)
    requires SoundLineage(st) && Antichain(st) && RowsPast(st)
    ensures Antichain(RecheckPass(st, docs)) && Later(st, RecheckPass(st, docs))
  {
    RecheckIsLater(st, docs);
    RecheckAddsNone(st.rows, docs);
    NoNewKeepsAntichain(st, RecheckPass(st, docs));
  }

  // ---------- every reachable state ----------

  /** A pass over the tables leaves what was paid for as it is. */
  lemma TablesKeepSound(w: World, db: Db)
    requires Sound(w) && SoundLineage(db.st) && Antichain(db.st) && PastOnly(db)
    ensures Sound(WithDb(w, db))
  {
    assert Remembered(w.d.(st := db.st));
  }

  /** A restart forgets withheld sets of the old process only, and blocked ones of the old era. */
  lemma RestartKeepsSound(w: World, ident: Backlog.Identity)
    requires Sound(w)
    ensures Sound(w.(d := Restarted(w.d, ident)))
  {
  }

  lemma EventKeepsSound(w: World, e: Event)
    requires Sound(w) && Admissible(w, e)
    ensures Sound(After(w, e))
  {
    match e {
      case FactEvent(scan, backlogRead, outcomes, stop) =>
        if backlogRead {
          PartialKeeps(DbOf(w), scan, outcomes, stop);
          TablesKeepSound(w, Partial(DbOf(w), scan, outcomes, stop));
        }
      case InvalidateEvent(records) =>
        InvalidationKeeps(DbOf(w), records, Insight, {});
        TablesKeepSound(w, RetireInvalidated(DbOf(w), records, Insight, {}));
      case RecheckEvent(records) =>
        RecheckKeeps(w.d.st, records);
        TablesKeepSound(w, Db(RecheckPass(w.d.st, records), w.ledger));
      case InsightEvent(_, _, _) => InsightKeepsSound(w, e);
      case Respawn(ident) => RestartKeepsSound(w, ident);
    }
  }

  /** Lineage, antichain, payments and clock hold together in every state of every run. */
  lemma {:induction false} RunsAreSound(trace: seq<World>, events: seq<Event>, k: nat)
    requires IsRun(trace, events) && k < |trace|
    ensures SoundLineage(trace[k].d.st) && Antichain(trace[k].d.st) && Remembered(trace[k].d)
      && PastOnly(DbOf(trace[k]))
  {
    if k > 0 {
      RunsAreSound(trace, events, k - 1);
      EventKeepsSound(trace[k - 1], events[k - 1]);
    }
  }

  /** In every reachable state each retired thematic row leads to the active row of its key, if there is one. */
  lemma RetiredRowsLeadToTheActiveOne(trace: seq<World>, events: seq<Event>, k: nat, retired: int, active: int)
    requires IsRun(trace, events) && k < |trace|
    requires var rows := trace[k].d.st.rows;
             retired in rows && rows[retired].kind == Thematic && ActiveRow(rows, active, rows[retired].key)
    ensures var rows := trace[k].d.st.rows;
            && ActiveEnd(rows, retired) == Some(active)
            && forall other :: ActiveRow(rows, other, rows[retired].key) ==> other == active
  {
    RunsAreSound(trace, events, k);
    var st := trace[k].d.st;
    ChainEndsAtActiveRow(st, retired, active);
    forall other | ActiveRow(st.rows, other, st.rows[retired].key) ensures other == active {
      OneActiveRowPerKey(st, other, active, st.rows[retired].key);
    }
  }

  /** In every reachable state no active insight of a project reaches only what another of that project reaches. */
  lemma InsightsFormAntichain(trace: seq<World>, events: seq<Event>, k: nat, a: int, b: int)
    requires IsRun(trace, events) && k < |trace|
    requires var rows := trace[k].d.st.rows;
             ActiveInsight(rows, a) && ActiveInsight(rows, b) && a != b && rows[a].key.project == rows[b].key.project
    ensures var rows := trace[k].d.st.rows; !(Elems(rows[a].sources) <= Elems(rows[b].sources))
  {
    RunsAreSound(trace, events, k);
  }

  /** Once a set was settled, no later call of the run sends it while the identity, or the process, is the same. */
  lemma SettledIsNeverSentAgain(trace: seq<World>, events: seq<Event>, k: nat, i: nat, j: nat)
    requires IsRun(trace, events) && k < |trace| && i < j < |trace[k].d.calls|
    requires trace[k].d.calls[i].ids == trace[k].d.calls[j].ids
    ensures trace[k].d.calls[i].ending == RowStored ==> trace[k].d.calls[i].era != trace[k].d.calls[j].era
    ensures trace[k].d.calls[i].ending == PaidUnstored ==> trace[k].d.calls[i].process != trace[k].d.calls[j].process
  {
    RunsAreSound(trace, events, k);
    assert !Settles(trace[k].d.calls[i], trace[k].d.calls[j]);
  }

  lemma EventWithholds(w: World, e: Event)
    requires Admissible(w, e) && WithheldPaid(w.d)
    ensures WithheldPaid(After(w, e).d)
  {
    if e.InsightEvent? {
      CycleWithholds(w.d, e.cycle, e.cut);
    } else {
      assert After(w, e).d.withheld == {} || After(w, e).d.(st := w.d.st) == w.d;
    }
  }

  /** The sets withheld in a run that begins with none: those this very process paid for and could not store. */
  lemma {:induction false} WithheldExactly(trace: seq<World>, events: seq<Event>, k: nat, ids: set<int>)
    requires IsRun(trace, events) && k < |trace| && trace[0].d.withheld == {}
    ensures WithheldPaid(trace[k].d)
    ensures ids in trace[k].d.withheld <==>
              exists c :: c in trace[k].d.calls && c.ids == ids && c.process == trace[k].d.process
                          && c.ending == PaidUnstored
  {
    if k > 0 {
      WithheldExactly(trace, events, k - 1, ids);
      EventWithholds(trace[k - 1], events[k - 1]);
    }
    RunsAreSound(trace, events, k);
    if c :| c in trace[k].d.calls && c.ids == ids && c.process == trace[k].d.process && c.ending == PaidUnstored {
      assert Kept(trace[k].d, c);
    }
  }

  /**
   After any completed fact cycle of any run: a member of a group folded in it has an open thematic row left exactly
   when a fold committed after every fold covering it retired a row that stood for it.
   */
  lemma ReachableLeftOpenExactly(trace: seq<World>, events: seq<Event>, k: nat, m: int)
    requires IsRun(trace, events) && k < |events|
    requires events[k].FactEvent? && events[k].backlogRead
      && FactCycle.Whole(DbOf(trace[k]), events[k].scan, events[k].stop)
    requires var e := events[k];
             (exists i: nat :: FoldedHere(PlanOf(DbOf(trace[k]), e.scan), e.outcomes, i, m))
             && !(m in e.scan.versions.closing && e.scan.versions.closing[m].superseded)
    ensures var e := events[k];
            LeftOpen(trace[k + 1].ledger, m) <==>
            exists j: nat :: ReopenedAfter(PlanOf(DbOf(trace[k]), e.scan), e.outcomes, m, j)
  {
    RunsAreSound(trace, events, k);
    var e := events[k];
    WholeIsCycle(DbOf(trace[k]), e.scan, e.outcomes, e.stop);
    LeftOpenExactly(DbOf(trace[k]), e.scan, e.outcomes, m);
  }

  /** After every invalidation pass of a run, no active insight holds a record that the pass read as superseded. */
  lemma NoInsightHoldsSuperseded(trace: seq<World>, events: seq<Event>, k: nat, id: int)
    requires IsRun(trace, events) && k < |events| && events[k].InvalidateEvent?
    requires ActiveInsight(trace[k + 1].d.st.rows, id)
    ensures forall m :: m in trace[k + 1].d.st.rows[id].sources && m in events[k].records ==>
              !events[k].records[m].superseded
  {
    NoneIsLeft(DbOf(trace[k]), events[k].records, Insight, {}, id);
  }

  /** A recheck leaves the table as it is exactly when no insight cites a row it could follow without a loss. */
  lemma RecheckEventRests(trace: seq<World>, events: seq<Event>, k: nat)
    requires IsRun(trace, events) && k < |events| && events[k].RecheckEvent?
    ensures trace[k + 1].ledger == trace[k].ledger
    ensures trace[k + 1].d.st.rows == trace[k].d.st.rows
            <==> Following.Settled(trace[k].d.st.rows, events[k].records)
  {
    Following.SweepRestsExactly(trace[k].d.st.rows, events[k].records);
  }

  /**
   After an insight cycle that ends by itself no refold row is open that an active summary has answered, or whose record
   is superseded; a cycle that is cut leaves the refold ledger as it was.
   */
  lemma InsightEventCloses(trace: seq<World>, events: seq<Event>, k: nat, r: RefoldRow)
    requires IsRun(trace, events) && k < |events| && events[k].InsightEvent?
    requires r in trace[k + 1].ledger && r.status == Open
    ensures var e := events[k];
            if Completes(trace[k].d, e.cycle, e.cut)
            then !RefoldedSince(trace[k + 1].d.st.rows, r) && !(r.pgId in e.records && e.records[r.pgId].superseded)
            else r in trace[k].ledger
  {
    var e := events[k];
    if Completes(trace[k].d, e.cycle, e.cut) {
      var rows := trace[k + 1].d.st.rows;
      var i :| 0 <= i < |trace[k + 1].ledger| && trace[k + 1].ledger[i] == r;
      ClosesRefoldsExactly(trace[k].ledger, rows, e.records, i);
      assert r == trace[k].ledger[i].(status := r.status);
    }
  }
}
