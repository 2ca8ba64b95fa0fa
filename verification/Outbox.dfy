/**
 The outbox as the durable ledger of dreaming: rows open when their record is saved, are consolidated by the
 write that folded them, and are deleted once the graph carries the mark.
 */
module Outbox {
  import opened Tables
  import BackupLock

  datatype RowType = FactRow | DecisionRow | RetrospectiveRow | SupersedeRow

  datatype Status = Pending | InProgress | Failed | Applied | RemReviewed | Consolidated

  datatype Row = Row(pgId: int, rtype: RowType, status: Status)

  type Rows = map<int, Row>

  /** technical_docs.superseded_by. */
  type Successors = map<int, int>

  predicate DreamRow(row: Row) {
    row.rtype == DecisionRow || row.rtype == RetrospectiveRow
  }

  /** Applied to the graph and not folded yet: what a fold may consume. */
  predicate Consumable(row: Row) {
    row.status == Applied || row.status == RemReviewed
  }

  // ---------- the statements ----------

  /** fetch_insight_outbox_rows. */
  function SnapshotRows(rows: Rows, srcIds: set<int>): set<int> {
    set id | id in rows && rows[id].pgId in srcIds && Consumable(rows[id]) && DreamRow(rows[id])
  }

  /** The flip of write_insight_summary: by row id, and only rows still consumable. */
  function FlipById(rows: Rows, ids: set<int>): Rows {
    map id | id in rows :: if id in ids && Consumable(rows[id]) then rows[id].(status := Consolidated) else rows[id]
  }

  /** The flip of a fact fold: by record id, whatever the row's type. */
  function FlipByRecord(rows: Rows, pgIds: set<int>): Rows {
    map id | id in rows :: if rows[id].pgId in pgIds && Consumable(rows[id]) then rows[id].(status := Consolidated)
      else rows[id]
  }

  /** mark_covered_rows_consolidated: fact rows whose record an active summary already holds. */
  function FlipCovered(rows: Rows, covered: set<int>): Rows {
    map id | id in rows ::
      if rows[id].pgId in covered && Consumable(rows[id]) && rows[id].rtype == FactRow
      then rows[id].(status := Consolidated) else rows[id]
  }

  function CloseById(rows: Rows, ids: set<int>): Rows {
    map id | id in rows && !(id in ids && rows[id].status == Consolidated) :: rows[id]
  }

  function Closing(rows: Rows, pgIds: set<int>): set<int> {
    set id | id in rows && rows[id].status == Consolidated && rows[id].pgId in pgIds
  }

  /** The records whose rows a close deletes. */
  function ClosedRecords(rows: Rows, pgIds: set<int>): set<int> {
    set id | id in Closing(rows, pgIds) :: rows[id].pgId
  }

  /** close_ledger_rows: the consolidated rows of the records, and the fact rows of what those records superseded. */
  ghost function CloseLedger(rows: Rows, succ: Successors, pgIds: set<int>): Rows {
    map id | id in rows && id !in Closing(rows, pgIds)
             && !(rows[id].rtype == FactRow && rows[id].pgId in Ancestors(succ, ClosedRecords(rows, pgIds)))
      :: rows[id]
  }

  // ---------- superseded ancestry ----------

  /** n steps along superseded_by. */
  function Steps(succ: Successors, id: int, n: nat): Option<int> {
    if n == 0 then Some(id)
    else match Steps(succ, id, n - 1)
      case None => None
      case Some(at) => if at in succ then Some(succ[at]) else None
  }

  /** The record was superseded, directly or through a chain, by one of the targets. */
  ghost predicate Ancestor(succ: Successors, targets: set<int>, id: int) {
    exists n: nat :: n >= 1 && Steps(succ, id, n).Some? && Steps(succ, id, n).value in targets
  }

  ghost function Ancestors(succ: Successors, targets: set<int>): set<int> {
    set id | id in succ && Ancestor(succ, targets, id)
  }

  lemma {:induction false} StepsShift(succ: Successors, id: int, n: nat)
    requires id in succ
    ensures Steps(succ, id, n + 1) == Steps(succ, succ[id], n)
  {
    if n > 0 {
      StepsShift(succ, id, n - 1);
      assert Steps(succ, id, n + 1) == match Steps(succ, id, n) case None => None case Some(at) => if at in succ
        then Some(succ[at]) else None;
    } else {
      assert Steps(succ, id, 0) == Some(id);
      assert Steps(succ, id, 1) == Some(succ[id]);
    }
  }

  /** A record is an ancestor exactly when its own successor is a target or an ancestor. */
  lemma AncestorStep(succ: Successors, targets: set<int>, id: int)
    requires id in succ
    ensures Ancestor(succ, targets, id) <==> succ[id] in targets || Ancestor(succ, targets, succ[id])
  {
    if Ancestor(succ, targets, id) {
      var n: nat :| n >= 1 && Steps(succ, id, n).Some? && Steps(succ, id, n).value in targets;
      StepsShift(succ, id, n - 1);
    }
    if succ[id] in targets {
      StepsShift(succ, id, 0);
      assert Steps(succ, id, 1) == Some(succ[id]);
    }
    if Ancestor(succ, targets, succ[id]) {
      var n: nat :| n >= 1 && Steps(succ, succ[id], n).Some? && Steps(succ, succ[id], n).value in targets;
      StepsShift(succ, id, n);
    }
  }

  /** Only a record that has a successor is an ancestor of anything. */
  lemma {:induction false} AncestorHasSuccessor(succ: Successors, id: int, n: nat)
    requires n >= 1 && Steps(succ, id, n).Some?
    ensures id in succ
  {
    if n > 1 { AncestorHasSuccessor(succ, id, n - 1); }
    assert Steps(succ, id, 0) == Some(id);
  }

  /** A set that already holds every record pointing at it or at a target holds every ancestor. */
  lemma {:induction false} ClosedHoldsAncestors(succ: Successors, targets: set<int>, found: set<int>, id: int, n: nat)
    requires forall p :: p in succ && (succ[p] in targets || succ[p] in found) ==> p in found
    requires n >= 1 && Steps(succ, id, n).Some? && Steps(succ, id, n).value in targets
    ensures id in found
    decreases n
  {
    AncestorHasSuccessor(succ, id, n);
    if n > 1 {
      StepsShift(succ, id, n - 1);
      ClosedHoldsAncestors(succ, targets, found, succ[id], n - 1);
    } else {
      assert Steps(succ, id, 0) == Some(id);
    }
  }

  /** Nothing more is found: what was found is all there is. */
  lemma FoundAll(succ: Successors, targets: set<int>, found: set<int>)
    requires found <= succ.Keys && forall p :: p in found ==> Ancestor(succ, targets, p)
    requires forall p :: p in succ && (succ[p] in targets || succ[p] in found) ==> p in found
    ensures found == Ancestors(succ, targets)
  {
    forall p | Ancestor(succ, targets, p) ensures p in found {
      var n: nat :| n >= 1 && Steps(succ, p, n).Some? && Steps(succ, p, n).value in targets;
      ClosedHoldsAncestors(succ, targets, found, p, n);
    }
  }

  /** What leads to the rows found last. */
  function LeadsInto(succ: Successors, working: set<int>, found: set<int>): set<int> {
    set p | p in succ && succ[p] in working && p !in found
  }

  /** Each round joins the table with the rows found last; what leads to earlier rows is found already. */
  ghost predicate Searched(succ: Successors, targets: set<int>, found: set<int>, working: set<int>) {
    working <= found <= succ.Keys
    && (forall p :: p in found ==> Ancestor(succ, targets, p))
    && forall p :: p in succ && (succ[p] in targets || succ[p] in found - working) ==> p in found
  }

  lemma SearchOn(succ: Successors, targets: set<int>, found: set<int>, working: set<int>)
    requires Searched(succ, targets, found, working)
    ensures var next := LeadsInto(succ, working, found); Searched(succ, targets, found + next, next)
  {
    var next := LeadsInto(succ, working, found);
    forall p | p in next ensures Ancestor(succ, targets, p) { AncestorStep(succ, targets, p); }
  }

  /** The recursive query: rows found last join with the table until nothing is new, also on a cyclic chain. */
  method FindAncestors(succ: Successors, targets: set<int>) returns (found: set<int>)
    ensures found == Ancestors(succ, targets)
  {
    found := set p | p in succ && succ[p] in targets;
    var working := found;
    forall p | p in found ensures Ancestor(succ, targets, p) { AncestorStep(succ, targets, p); }
    while working != {}
      invariant Searched(succ, targets, found, working)
      decreases |succ.Keys - found| + |working|, |working|
    {
      SearchOn(succ, targets, found, working);
      var next := LeadsInto(succ, working, found);
      Shrinks(succ.Keys, found, working, next);
      found := found + next;
      working := next;
    }
    FoundAll(succ, targets, found);
  }

  lemma Shrinks(all: set<int>, found: set<int>, working: set<int>, next: set<int>)
    requires found <= all && next <= all && found * next == {} && working != {}
    ensures |all - (found + next)| + |next| == |all - found| < |all - found| + |working|
  {
    assert all - found == (all - (found + next)) + next;
  }

  // ---------- the ledger ----------

  class Ledger {
    var rows: Rows
    var succ: Successors
    /** The holder of the shared backup lock under which every statement below writes. */
    const lock: BackupLock.Holder

    constructor (succ: Successors, lock: BackupLock.Holder)
      ensures rows == map[] && this.succ == succ && this.lock == lock
    {
      this.rows, this.succ, this.lock := map[], succ, lock;
    }

    ghost predicate Guarded()
      reads this, lock
    {
      lock.Valid() && lock.w.phase == BackupLock.Working
    }

    method FetchInsightOutboxRows(srcIds: set<int>) returns (ids: set<int>)
      ensures ids == SnapshotRows(rows, srcIds)
    {
      ids := set id | id in rows && rows[id].pgId in srcIds && Consumable(rows[id]) && DreamRow(rows[id]);
    }

    /** What the other writers do to the rows while the daemon waits for an answer: anything. */
    method Elapse()
      modifies this`rows
    {
      rows := *;
    }

    /** The update inside write_insight_summary. */
    method FlipConsumed(ids: set<int>)
      requires Guarded()
      modifies this`rows
      ensures rows == FlipById(old(rows), ids)
    {
      var before := rows;
      rows := map id | id in before ::
        if id in ids && (before[id].status == Applied || before[id].status == RemReviewed)
        then before[id].(status := Consolidated) else before[id];
      SameTable(rows, FlipById(before, ids));
    }

    /** The update inside _write_summary. */
    method FlipRecords(pgIds: set<int>)
      requires Guarded()
      modifies this`rows
      ensures rows == FlipByRecord(old(rows), pgIds)
    {
      var before := rows;
      rows := map id | id in before ::
        if before[id].pgId in pgIds && (before[id].status == Applied || before[id].status == RemReviewed)
        then before[id].(status := Consolidated) else before[id];
      SameTable(rows, FlipByRecord(before, pgIds));
    }

    /** DELETE ... RETURNING, then the purge of the superseded ancestry. */
    method CloseLedgerRows(pgIds: set<int>) returns (closed: nat)
      requires Guarded()
      modifies this`rows
      ensures rows == CloseLedger(old(rows), succ, pgIds)
      ensures closed == |Closing(old(rows), pgIds)|
    {
      var deleted := Closing(rows, pgIds);
      var records := ClosedRecords(rows, pgIds);
      closed := |deleted|;
      ghost var before := rows;
      rows := map id | id in rows && id !in deleted :: rows[id];
      var ancestors := {};
      if deleted != {} { ancestors := FindAncestors(succ, records); }
      else { NoTargets(succ, records); }
      assert ancestors == Ancestors(succ, records);
      var left := rows;
      rows := map id | id in left && !(left[id].rtype == FactRow && left[id].pgId in ancestors) :: left[id];
      ghost var want := CloseLedger(before, succ, pgIds);
      SameTable(rows, want);
    }

    method CloseLedgerRowsById(ids: set<int>) returns (closed: nat)
      requires Guarded()
      modifies this`rows
      ensures rows == CloseById(old(rows), ids)
      ensures closed == |old(rows).Keys| - |rows.Keys|
    {
      var gone := set id | id in rows && id in ids && rows[id].status == Consolidated;
      closed := |gone|;
      ghost var before := rows;
      rows := rows - gone;
      assert rows.Keys == before.Keys - gone;
      assert before.Keys == rows.Keys + gone;
    }
  }

  lemma NoTargets(succ: Successors, targets: set<int>)
    requires targets == {}
    ensures Ancestors(succ, targets) == {}
  {
  }
}
