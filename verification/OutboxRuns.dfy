/**
 No decision or retrospective is swallowed, however arrivals interleave with the steps of the folds: the outbox and the
 summary table together, each event one transaction.
 */
module OutboxRuns {
  import opened Tables
  import opened Succession
  import opened Outbox

  /** `asOf` is the next row id when the snapshot was taken: rows from there on arrived later. */
  datatype Taken = Taken(srcIds: set<int>, ids: set<int>, asOf: int)

  /** One committed insight write: what it took, and the summary row it inserted. */
  datatype Write = Write(taken: Taken, summaryId: int)

  /** The insight fold of the one daemon: idle, waiting for the model, or written and not yet marked in the graph. */
  datatype Fold = Idle | Asked(taken: Taken) | Written(taken: Taken)

  /** `facts` are the record ids of facts; `arrived` remembers every row as it was inserted. */
  datatype World = World(
    rows: Rows, nextId: int, succ: Successors, facts: set<int>, fold: Fold, writes: seq<Write>, arrived: Rows,
    st: State)

  datatype Event =
    | Arrive(pgId: int, rtype: RowType)
    | Advance(id: int, status: Status)
    | MirrorApplied(mirror: int)
    | Supersede(before: int, after: int)
    | AskInsight(srcIds: set<int>)
    | AbandonInsight
    | WriteInsight(told: NewInsight)
    | CloseInsight
    | FactFold(docs: DocTable, item: FoldItem)
    | MarkCovered
    | CloseRecords(closing: set<int>)
    | OtherWrite(step: Step)

  /** The table's other writers: retirement, appended references, the recheck. */
  predicate WritesNoFold(step: Step) {
    step.RetireStep? || step.AppendStep? || step.RecheckStep?
  }

  /** A row's type follows its record, and each kind of fold names records of its own kind. */
  ghost predicate Enabled(w: World, e: Event) {
    match e
    case Arrive(pgId, rtype) =>
      (rtype == FactRow ==> pgId in w.facts) && (rtype == DecisionRow || rtype == RetrospectiveRow ==> pgId !in w.facts)
    case Advance(id, status) => id in w.rows && w.rows[id].status != Consolidated && status != Consolidated
    case MirrorApplied(id) => id in w.rows && w.rows[id].rtype == SupersedeRow
    case Supersede(_, _) => true
    case AskInsight(srcIds) => w.fold == Idle && srcIds !! w.facts
    case AbandonInsight => w.fold.Asked? || w.fold.Written?
    case WriteInsight(told) => w.fold.Asked? && told.sources == Sorted(w.fold.taken.srcIds)
    case CloseInsight => w.fold.Written?
    case FactFold(_, item) => Current(w.st.rows, item) && Elems(item.sources) <= w.facts
    case MarkCovered => true
    case CloseRecords(_) => true
    case OtherWrite(step) => WritesNoFold(step)
  }

  /** The records some active summary holds. */
  function CoveredRecords(table: SummaryTable): set<int> {
    set id, m | id in table && !table[id].superseded && m in table[id].sources :: m
  }

  /** What the event does to the outbox. */
  ghost function RowsAfter(w: World, e: Event): Rows
    requires Enabled(w, e)
  {
    match e
    case Arrive(pgId, rtype) => w.rows[w.nextId := Row(pgId, rtype, Pending)]
    case Advance(id, status) => w.rows[id := w.rows[id].(status := status)]
    case MirrorApplied(id) => w.rows - {id}
    case WriteInsight(_) => FlipById(w.rows, w.fold.taken.ids)
    case CloseInsight => CloseById(w.rows, w.fold.taken.ids)
    case FactFold(_, item) => FlipByRecord(w.rows, Elems(item.sources))
    case MarkCovered => FlipCovered(w.rows, CoveredRecords(w.st.rows))
    case CloseRecords(closing) => CloseLedger(w.rows, w.succ, closing)
    case _ => w.rows
  }

  /** What it does to the summary table, in the same transaction. */
  ghost function TableAfter(w: World, e: Event): State {
    match e
    case WriteInsight(told) => Succession.WriteInsight(w.st, told)
    case FactFold(docs, item) => Succession.Fold(w.st, docs, item)
    case OtherWrite(step) => Apply(w.st, step)
    case _ => w.st
  }

  ghost function After(w: World, e: Event): World
    requires Enabled(w, e)
  {
    var out := w.(rows := RowsAfter(w, e), st := TableAfter(w, e));
    match e
    case Arrive(pgId, rtype) =>
      out.(arrived := w.arrived[w.nextId := Row(pgId, rtype, Pending)], nextId := w.nextId + 1)
    case Supersede(before, after) => out.(succ := w.succ[before := after])
    case AskInsight(srcIds) => out.(fold := Asked(Taken(srcIds, SnapshotRows(w.rows, srcIds), w.nextId)))
    case AbandonInsight => out.(fold := Idle)
    case WriteInsight(_) =>
      out.(fold := Written(w.fold.taken), writes := w.writes + [Write(w.fold.taken, w.st.nextId)])
    case CloseInsight => out.(fold := Idle)
    case _ => out
  }

  /** Still waiting to be dreamed. */
  ghost predicate OpenRow(rows: Rows, id: int) {
    id in rows && rows[id].status != Consolidated
  }

  /**
   The write folded the row: it was in the snapshot, its record among the sources, and it came before the model was
   asked.
   */
  predicate Holds(t: Taken, id: int, row: Row) {
    id in t.ids && row.pgId in t.srcIds && id < t.asOf
  }

  ghost predicate Consumed(w: World, id: int) {
    id in w.arrived && exists t :: t in w.writes && Holds(t.taken, id, w.arrived[id])
  }

  ghost predicate TakenOk(w: World, t: Taken) {
    t.asOf <= w.nextId && forall id :: id in t.ids ==> id in w.arrived && Holds(t, id, w.arrived[id])
  }

  ghost predicate Accounted(w: World) {
    (forall id :: id in w.arrived ==> id < w.nextId)
    && (forall id :: id in w.rows ==> id in w.arrived && w.rows[id].(status := w.arrived[id].status) == w.arrived[id])
    && (forall id :: id in w.arrived && DreamRow(w.arrived[id]) ==> w.arrived[id].pgId !in w.facts)
    && (w.fold != Idle ==> TakenOk(w, w.fold.taken))
    && forall id :: id in w.arrived && DreamRow(w.arrived[id]) ==> OpenRow(w.rows, id) || Consumed(w, id)
  }

  /** The summary row of the write is an insight over exactly the records it took. */
  ghost predicate Tells(table: SummaryTable, t: Write) {
    t.summaryId in table && table[t.summaryId].kind == Insight && table[t.summaryId].sources == Sorted(t.taken.srcIds)
  }

  ghost predicate Told(w: World) {
    SoundLineage(w.st) && forall t :: t in w.writes ==> Tells(w.st.rows, t)
  }

  /** An open dream row leaves the open state only through the insight write whose snapshot holds it. */
  lemma OnlyItsWriteClosesARow(w: World, e: Event, id: int)
    requires Accounted(w) && Enabled(w, e)
    requires OpenRow(w.rows, id) && DreamRow(w.rows[id]) && !OpenRow(After(w, e).rows, id)
    ensures e.WriteInsight? && Holds(w.fold.taken, id, w.rows[id])
  {
  }

  /** Only a consolidated dream row is ever deleted. */
  lemma DeletedFromConsolidated(w: World, e: Event, id: int)
    requires Enabled(w, e) && id in w.rows && DreamRow(w.rows[id]) && id !in After(w, e).rows
    ensures w.rows[id].status == Consolidated
  {
  }

  lemma EventKeepsAccounted(w: World, e: Event)
    requires Accounted(w) && Enabled(w, e)
    ensures Accounted(After(w, e))
  {
    var out := After(w, e);
    RowsKeepIdentity(w, e);
    if out.fold != Idle { SnapshotKeeps(w, e); }
    forall id | id in out.arrived && DreamRow(out.arrived[id]) ensures OpenRow(out.rows, id) || Consumed(out, id) {
      StaysAccounted(w, e, id);
    }
  }

  /** A dream row is open, or some write holds it. */
  lemma StaysAccounted(w: World, e: Event, id: int)
    requires Accounted(w) && Enabled(w, e)
    requires id in After(w, e).arrived && DreamRow(After(w, e).arrived[id])
    ensures OpenRow(After(w, e).rows, id) || Consumed(After(w, e), id)
  {
    var out := After(w, e);
    if id == w.nextId && e.Arrive? {
    } else if OpenRow(w.rows, id) {
      if !OpenRow(out.rows, id) {
        OnlyItsWriteClosesARow(w, e, id);
        assert out.writes[|w.writes|].taken == w.fold.taken;
      }
    } else {
      var t :| t in w.writes && Holds(t.taken, id, w.arrived[id]);
      assert t in out.writes;
    }
  }

  lemma RowsKeepIdentity(w: World, e: Event)
    requires Accounted(w) && Enabled(w, e)
    ensures var out := After(w, e);
            && (forall id :: id in out.rows ==>
              id in out.arrived && out.rows[id].(status := out.arrived[id].status) == out.arrived[id])
            && (forall id :: id in w.arrived ==> id in out.arrived && out.arrived[id] == w.arrived[id])
  {
  }

  /** The snapshot of the fold under way names rows that arrived before it, and goes on doing so. */
  lemma SnapshotKeeps(w: World, e: Event)
    requires Accounted(w) && Enabled(w, e) && After(w, e).fold != Idle
    ensures TakenOk(After(w, e), After(w, e).fold.taken)
  {
  }

  // ---------- what one event does to one row ----------

  /** Applied to the graph or reviewed by REM, and not folded yet. */
  predicate Waiting(row: Row) {
    row.status in {Applied, RemReviewed}
  }

  /** The snapshot taken before the model is asked: every waiting decision or retrospective row of the records. */
  lemma AskTakesExactly(w: World, srcIds: set<int>, id: int)
    requires Enabled(w, AskInsight(srcIds))
    ensures var fold := After(w, AskInsight(srcIds)).fold;
            && fold.Asked? && fold.taken.srcIds == srcIds
            && (id in fold.taken.ids <==>
                  id in w.rows && w.rows[id].pgId in srcIds && w.rows[id].rtype in {DecisionRow, RetrospectiveRow}
                  && Waiting(w.rows[id]))
  {
  }

  /** Which rows an event folds: those of the snapshot, those of a fact fold's records, or facts a summary holds. */
  ghost predicate FoldsRow(w: World, e: Event, id: int)
    requires Enabled(w, e) && id in w.rows
  {
    match e
    case WriteInsight(_) => id in w.fold.taken.ids
    case FactFold(_, item) => w.rows[id].pgId in item.sources
    case MarkCovered =>
      w.rows[id].rtype == FactRow
      && exists s :: s in w.st.rows && !w.st.rows[s].superseded && w.rows[id].pgId in w.st.rows[s].sources
    case _ => false
  }

  /** Which rows an event deletes. */
  ghost predicate DeletesRow(w: World, e: Event, id: int)
    requires Enabled(w, e) && id in w.rows
  {
    match e
    case MirrorApplied(mirror) => id == mirror
    case CloseInsight => id in w.fold.taken.ids && w.rows[id].status == Consolidated
    case CloseRecords(closing) =>
      (w.rows[id].pgId in closing && w.rows[id].status == Consolidated)
      || (w.rows[id].rtype == FactRow && SupersededByClosed(w.rows, w.succ, closing, w.rows[id].pgId))
    case _ => false
  }

  /** The record was superseded, directly or through others, by one whose consolidated row this close deletes. */
  ghost predicate SupersededByClosed(rows: Rows, succ: Successors, closing: set<int>, pgId: int) {
    exists r, n: nat :: r in rows && rows[r].pgId in closing && rows[r].status == Consolidated && n >= 1
                        && Steps(succ, pgId, n) == Some(rows[r].pgId)
  }

  lemma AncestorsAreSuperseded(rows: Rows, succ: Successors, closing: set<int>, pgId: int)
    ensures pgId in Ancestors(succ, ClosedRecords(rows, closing)) <==> SupersededByClosed(rows, succ, closing, pgId)
  {
    var closed := ClosedRecords(rows, closing);
    if Ancestor(succ, closed, pgId) {
      var n: nat :| n >= 1 && Steps(succ, pgId, n).Some? && Steps(succ, pgId, n).value in closed;
      var r :| r in Closing(rows, closing) && rows[r].pgId == Steps(succ, pgId, n).value;
    }
    if SupersededByClosed(rows, succ, closing, pgId) {
      var r, n: nat :| r in rows && rows[r].pgId in closing && rows[r].status == Consolidated && n >= 1
                       && Steps(succ, pgId, n) == Some(rows[r].pgId);
      assert r in Closing(rows, closing);
      AncestorHasSuccessor(succ, pgId, n);
    }
  }

  /** A row is deleted exactly when the event deletes it, and is folded exactly when it was waiting and is folded. */
  lemma EventOnRow(w: World, e: Event, id: int)
    requires Enabled(w, e) && id in w.rows && id != w.nextId && !e.Advance?
    ensures id in After(w, e).rows <==> !DeletesRow(w, e, id)
    ensures id in After(w, e).rows ==>
              After(w, e).rows[id] ==
              if Waiting(w.rows[id]) && FoldsRow(w, e, id) then w.rows[id].(status := Consolidated) else w.rows[id]
  {
    if e.CloseRecords? { AncestorsAreSuperseded(w.rows, w.succ, e.closing, w.rows[id].pgId); }
  }

  /** What waited when the model was asked, and still waits when its answer is written, is folded by that write. */
  lemma AskedIsFolded(trace: seq<World>, events: seq<Event>, i: nat, j: nat, id: int)
    requires IsRun(trace, events) && i < j < |events| && events[i].AskInsight? && events[j].WriteInsight?
    requires trace[j].fold == trace[i + 1].fold
    requires id in trace[i].rows && trace[i].rows[id].pgId in events[i].srcIds && Waiting(trace[i].rows[id])
    requires trace[i].rows[id].rtype in {DecisionRow, RetrospectiveRow}
    requires id in trace[j].rows && Waiting(trace[j].rows[id])
    ensures id in trace[j + 1].rows && trace[j + 1].rows[id].status == Consolidated
  {
    RunsAreAccounted(trace, events, j);
    AskTakesExactly(trace[i], events[i].srcIds, id);
    EventOnRow(trace[j], events[j], id);
  }

  // ---------- what was written stays told ----------

  /** Whatever the event does to the summary table, its lineage stays sound and no insight row loses its sources. */
  lemma TableStands(w: World, e: Event)
    requires SoundLineage(w.st) && Enabled(w, e)
    ensures SoundLineage(TableAfter(w, e)) && InsightsStand(w.st.rows, TableAfter(w, e).rows)
  {
    match e {
      case WriteInsight(told) =>
        StepKeepsLineage(w.st, InsightStep(told));
        StepStands(w.st, InsightStep(told));
      case FactFold(docs, item) =>
        StepKeepsLineage(w.st, FoldStep(docs, item));
        StepStands(w.st, FoldStep(docs, item));
      case OtherWrite(step) =>
        StepKeepsLineage(w.st, step);
        StepStands(w.st, step);
      case _ =>
    }
  }

  lemma EventKeepsTold(w: World, e: Event)
    requires Told(w) && Enabled(w, e)
    ensures Told(After(w, e))
  {
    TableStands(w, e);
    var out := After(w, e);
    forall t | t in out.writes ensures Tells(out.st.rows, t) {
      if t !in w.writes { InsightStands(w.st, e.told); }
    }
  }

  // ---------- whole runs ----------

  ghost predicate IsRun(trace: seq<World>, events: seq<Event>) {
    |trace| == |events| + 1
    && trace[0].rows == map[] && trace[0].arrived == map[] && trace[0].fold == Idle && trace[0].writes == []
    && trace[0].st == EMPTY
    && forall k :: 0 <= k < |events| ==> Enabled(trace[k], events[k]) && trace[k + 1] == After(trace[k], events[k])
  }

  lemma {:induction false} RunsAreAccounted(trace: seq<World>, events: seq<Event>, k: nat)
    requires IsRun(trace, events) && k < |trace|
    ensures Accounted(trace[k]) && Told(trace[k])
  {
    if k > 0 {
      RunsAreAccounted(trace, events, k - 1);
      EventKeepsAccounted(trace[k - 1], events[k - 1]);
      EventKeepsTold(trace[k - 1], events[k - 1]);
    }
  }

  /**
   Every decision or retrospective row that ever arrived is still open, or was told: a write asked for after it came
   took it, and the insight row this write inserted stands over its record.
   */
  lemma NothingIsSwallowed(trace: seq<World>, events: seq<Event>, k: nat, id: int)
    requires IsRun(trace, events) && k < |trace|
    requires id in trace[k].arrived && DreamRow(trace[k].arrived[id]) && !OpenRow(trace[k].rows, id)
    ensures exists t :: t in trace[k].writes && Holds(t.taken, id, trace[k].arrived[id])
                        && Tells(trace[k].st.rows, t)
                        && trace[k].arrived[id].pgId in trace[k].st.rows[t.summaryId].sources
  {
    RunsAreAccounted(trace, events, k);
    var t :| t in trace[k].writes && Holds(t.taken, id, trace[k].arrived[id]);
    assert Tells(trace[k].st.rows, t);
    assert trace[k].arrived[id].pgId in Sorted(t.taken.srcIds);
  }

  /** Event j deletes the row, which is consolidated. */
  ghost predicate DeletedAt(trace: seq<World>, j: nat, id: int) {
    j + 1 < |trace| && id in trace[j].rows && trace[j].rows[id].status == Consolidated && id !in trace[j + 1].rows
  }

  /** A dream row that is gone was deleted from 'consolidated'. */
  lemma {:induction false} GoneWasConsolidated(trace: seq<World>, events: seq<Event>, k: nat, id: int)
    requires IsRun(trace, events) && k < |trace|
    requires id in trace[k].arrived && DreamRow(trace[k].arrived[id]) && id !in trace[k].rows
    ensures exists j: nat :: j < k && DeletedAt(trace, j, id)
  {
    if k > 0 {
      var w, e := trace[k - 1], events[k - 1];
      RunsAreAccounted(trace, events, k - 1);
      RowsKeepIdentity(w, e);
      if id in w.rows {
        DeletedFromConsolidated(w, e, id);
        assert DeletedAt(trace, k - 1, id);
      } else {
        GoneWasConsolidated(trace, events, k - 1, id);
      }
    }
  }
}
