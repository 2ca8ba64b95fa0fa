/** What a fold leaves in the outbox, row by row: told, deleted once the graph is marked, or as it was. */
module FoldedRows {
  import opened Tables
  import opened FactCycle
  import opened Outbox
  import DreamStore
  import InsightDaemon
  import OutboxRuns

  /** Folded, now or before. */
  predicate Folded(row: Row) {
    row.status in {Applied, RemReviewed, Consolidated}
  }

  /** The record was superseded, directly or through others, by one of these records whose row is folded. */
  ghost predicate Replaced(open: Rows, succ: Successors, ids: seq<int>, pgId: int) {
    exists r, n: nat :: r in open && open[r].pgId in ids && Folded(open[r]) && n >= 1
                        && Steps(succ, pgId, n) == Some(open[r].pgId)
  }

  lemma ReplacedExactly(open: Rows, succ: Successors, ids: seq<int>, pgId: int)
    ensures var flipped := FlipByRecord(open, Elems(ids));
            pgId in Ancestors(succ, ClosedRecords(flipped, Elems(ids))) <==> Replaced(open, succ, ids, pgId)
  {
    var flipped := FlipByRecord(open, Elems(ids));
    OutboxRuns.AncestorsAreSuperseded(flipped, succ, Elems(ids), pgId);
    if Replaced(open, succ, ids, pgId) {
      var r, n: nat :| r in open && open[r].pgId in ids && Folded(open[r]) && n >= 1
                       && Steps(succ, pgId, n) == Some(open[r].pgId);
      assert r in flipped && flipped[r].pgId in Elems(ids) && flipped[r].status == Consolidated;
    }
    if OutboxRuns.SupersededByClosed(flipped, succ, Elems(ids), pgId) {
      var r, n: nat :| r in flipped && flipped[r].pgId in Elems(ids) && flipped[r].status == Consolidated && n >= 1
                       && Steps(succ, pgId, n) == Some(flipped[r].pgId);
      assert r in open && open[r].pgId in ids && Folded(open[r]);
    }
  }

  /** The row was folded, or is that of a fact replaced by one whose row was. */
  ghost predicate Ends(open: Rows, succ: Successors, ids: seq<int>, row: Row) {
    (row.pgId in ids && Folded(row)) || (row.rtype == FactRow && Replaced(open, succ, ids, row.pgId))
  }

  /** A committed fact fold tells the waiting rows of its records; the graph marked, it deletes them and ancestors. */
  lemma FactFoldOnRow(open: Rows, succ: Successors, planned: Planned, outcome: Outcome, marked: bool, id: int)
    requires id in open
    ensures var out, row, ids := DreamStore.OutboxOne(open, succ, planned, outcome, marked), open[id],
                                 planned.item.sources;
            && (id !in out <==> (outcome.Written? && marked && Ends(open, succ, ids, row)))
            && (id in out ==> out[id] == if outcome.Written? && row.pgId in ids && OutboxRuns.Waiting(row)
                                         then row.(status := Consolidated) else row)
  {
    ReplacedExactly(open, succ, planned.item.sources, open[id].pgId);
  }

  /** A told insight consumes the waiting rows of its snapshot; the graph marked, it deletes those. */
  lemma InsightFoldOnRow(open: Rows, taken: set<int>, told: bool, marked: bool, id: int)
    requires id in open
    ensures var out, row := InsightDaemon.OutboxFolded(open, taken, told, marked), open[id];
            && (id !in out <==> told && marked && id in taken && Folded(row))
            && (id in out ==> out[id] == if told && id in taken && OutboxRuns.Waiting(row)
                                         then row.(status := Consolidated) else row)
  {
  }

  /** Some committed fold of the plan held the record. */
  predicate FoldedIn(plan: seq<Planned>, outcomes: seq<Outcome>, pgId: int)
    requires |plan| == |outcomes|
  {
    exists i :: 0 <= i < |plan| && outcomes[i].Written? && pgId in plan[i].item.sources
  }

  /** Over a whole cycle: a row that is left is consolidated exactly when it waited and a committed fold held it. */
  lemma {:induction false} CycleOnRow(
    open: Rows, succ: Successors, plan: seq<Planned>, outcomes: seq<Outcome>, marks: seq<bool>, id: int)
    requires |plan| == |outcomes| == |marks|
    ensures var out := DreamStore.OutboxAll(open, succ, plan, outcomes, marks);
            && (id in out ==> id in open)
            && (id in out ==> out[id] == if OutboxRuns.Waiting(open[id]) && FoldedIn(plan, outcomes, open[id].pgId)
                                         then open[id].(status := Consolidated) else open[id])
  {
    if plan != [] {
      var n := |plan| - 1;
      CycleOnRow(open, succ, plan[..n], outcomes[..n], marks[..n], id);
      var before := DreamStore.OutboxAll(open, succ, plan[..n], outcomes[..n], marks[..n]);
      if id in before {
        FactFoldOnRow(before, succ, plan[n], outcomes[n], marks[n], id);
        FoldedInMore(plan, outcomes, open[id].pgId);
      }
    }
  }

  lemma FoldedInMore(plan: seq<Planned>, outcomes: seq<Outcome>, pgId: int)
    requires |plan| == |outcomes| && plan != []
    ensures var n := |plan| - 1;
            FoldedIn(plan, outcomes, pgId)
            <==> FoldedIn(plan[..n], outcomes[..n], pgId) || (outcomes[n].Written? && pgId in plan[n].item.sources)
  {
    var n := |plan| - 1;
    if FoldedIn(plan[..n], outcomes[..n], pgId) {
      var i :| 0 <= i < n && outcomes[..n][i].Written? && pgId in plan[..n][i].item.sources;
      assert outcomes[i].Written? && pgId in plan[i].item.sources;
    }
    if FoldedIn(plan, outcomes, pgId) {
      var i :| 0 <= i < |plan| && outcomes[i].Written? && pgId in plan[i].item.sources;
      if i < n { assert outcomes[..n][i].Written? && pgId in plan[..n][i].item.sources; }
    }
  }
}
