/** What a fact cycle leaves when an exception, or the death of the process, cuts it. */
module CutCycle {
  import opened Tables
  import opened Succession
  import opened FactCycle
  import opened RefoldLedger

  lemma TakeReady(rows: SummaryTable, plan: seq<Planned>, n: nat)
    requires Ready(rows, plan)
    ensures Ready(rows, Take(plan, n))
  {
  }

  lemma {:induction false} FoldsOnlyOpen(db: Db, plan: seq<Planned>, outcomes: seq<Outcome>)
    requires |outcomes| == |plan|
    ensures db.ledger <= FoldAll(db, plan, outcomes).ledger
    decreases |plan|
  {
    if plan != [] { FoldsOnlyOpen(FoldOne(db, plan[0], outcomes[0]), plan[1..], outcomes[1..]); }
  }

  /** The folds reached and committed show on the active rows of their keys; every other planned key has its old row. */
  lemma CutFoldsExactly(db: Db, scan: Scan, outcomes: seq<Outcome>, stop: Stop, i: nat)
    requires SoundLineage(db.st) && ScanOk(scan) && |outcomes| == |PlanOf(db, scan)| && i < |outcomes|
    ensures var rows, item := Partial(db, scan, outcomes, stop).st.rows, PlanOf(db, scan)[i].item;
            if i < stop.folds && outcomes[i].Written? then
              ActiveOf(rows, item.key).Some?
              && var row := rows[ActiveOf(rows, item.key).value];
                 row.content == item.content && row.sources == item.sources && row.entities == item.entities
            else
              forall id :: (ActiveRow(db.st.rows, id, item.key) <==> ActiveRow(rows, id, item.key))
                           && (ActiveRow(db.st.rows, id, item.key) ==> rows[id] == db.st.rows[id])
  {
    var swept, plan, item := Swept(db, scan), PlanOf(db, scan), PlanOf(db, scan)[i].item;
    var reached, done := Take(plan, stop.folds), Take(outcomes, stop.folds);
    SweptKeeps(db, scan);
    PlanIsReady(db, scan);
    TakeReady(swept.st.rows, plan, stop.folds);
    if i < stop.folds && outcomes[i].Written? {
      assert reached[i] == plan[i] && done[i] == outcomes[i];
      FoldAllWrites(swept, reached, done, i);
    } else {
      var g := PlanItem(db, scan, i);
      SweepFrame(db, scan, item.key);
      forall k | 0 <= k < |reached| && done[k].Written? ensures reached[k].item.key != item.key {
        assert reached[k] == plan[k] && k != i;
      }
      FoldAllFrame(swept, reached, done, item.key);
    }
  }

  /** Some gating group of the scan holds the record. */
  ghost predicate InGroup(scan: Scan, id: int) {
    exists g, m :: g in scan.groups && m in g.members && m.id == id
  }

  /**
   No refold row that was there is closed before the folds are done; then the closers reached do, in turn: drop what no
   group holds, drop thematic rows out of the scan, settle what was refolded or superseded.
   */
  lemma CutClosesOnly(db: Db, scan: Scan, outcomes: seq<Outcome>, stop: Stop, i: nat)
    requires |outcomes| == |PlanOf(db, scan)| && i < |db.ledger|
    ensures var out, r := Partial(db, scan, outcomes, stop), db.ledger[i];
            var dropped := r.status == Open
                           && ((stop.closers >= 1 && r.pgId in scan.scanned && !InGroup(scan, r.pgId))
                               || (stop.closers >= 2 && r.kind == Thematic && r.pgId !in scan.scanned));
            && |db.ledger| <= |out.ledger|
            && out.ledger[i] ==
               if stop.folds < |PlanOf(db, scan)| then r
               else r.(status := if stop.closers >= 3 then Fate(dropped, out.st.rows, scan.versions.closing, r)
                                 else if dropped then Dropped else r.status)
  {
    var folded := FoldAll(Swept(db, scan), Take(PlanOf(db, scan), stop.folds), Take(outcomes, stop.folds));
    FoldsOnlyOpen(Swept(db, scan), Take(PlanOf(db, scan), stop.folds), Take(outcomes, stop.folds));
    assert folded.ledger[i] == db.ledger[i];
    assert db.ledger[i].pgId in Gated(scan.groups) <==> InGroup(scan, db.ledger[i].pgId);
    if stop.folds >= |PlanOf(db, scan)| {
      CutClosesExactly(folded.ledger, folded.st.rows, scan.versions.closing, scan.scanned, Gated(scan.groups),
        stop.closers, i);
    }
  }
}
