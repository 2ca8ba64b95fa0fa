/** What retire_invalidated_summaries does to the tables, said over the rows and the records. */
module Invalidation {
  import opened Tables
  import opened RefoldLedger
  import opened FactCycle

  /** The summary was made of a record that has been superseded or, for a decision, reversed since. */
  predicate HoldsSuperseded(row: Summary, docs: DocTable) {
    exists m :: m in row.sources && m in docs && docs[m].superseded
  }

  /** An active row of the kind that the caller does not own, holding such a record. */
  predicate MustGo(rows: SummaryTable, docs: DocTable, kind: Kind, skip: set<int>, id: int) {
    id in rows && !rows[id].superseded && rows[id].kind == kind && id !in skip && HoldsSuperseded(rows[id], docs)
  }

  lemma InvalidatedAre(rows: SummaryTable, docs: DocTable, kind: Kind, skip: set<int>, id: int)
    ensures id in InvalidatedIds(rows, docs, kind, skip) <==> MustGo(rows, docs, kind, skip, id)
  {
  }

  /** The rows that must go are retired by lineage, and every other row is as it was. */
  lemma RetiresExactly(db: Db, docs: DocTable, kind: Kind, skip: set<int>)
    ensures var out := RetireInvalidated(db, docs, kind, skip).st.rows;
            && out.Keys == db.st.rows.Keys
            && forall id :: id in out ==>
                 out[id] == if MustGo(db.st.rows, docs, kind, skip, id)
                            then db.st.rows[id].(superseded := true, reason := Lineage, retiredAt := db.st.now)
                            else db.st.rows[id]
  {
    forall id | id in db.st.rows
      ensures id in InvalidatedIds(db.st.rows, docs, kind, skip) <==> MustGo(db.st.rows, docs, kind, skip, id)
    {
      InvalidatedAre(db.st.rows, docs, kind, skip, id);
    }
  }

  /** Afterwards no active row of the kind outside the caller's own holds a superseded record. */
  lemma NoneIsLeft(db: Db, docs: DocTable, kind: Kind, skip: set<int>, id: int)
    requires var out := RetireInvalidated(db, docs, kind, skip).st.rows;
             id in out && !out[id].superseded && out[id].kind == kind && id !in skip
    ensures !HoldsSuperseded(RetireInvalidated(db, docs, kind, skip).st.rows[id], docs)
  {
    RetiresExactly(db, docs, kind, skip);
  }

  /** The ledger row a retirement owes: for a superseded source, and a record that some source stands for now. */
  ghost predicate Owed(rows: SummaryTable, docs: DocTable, kind: Kind, skip: set<int>, now: int, r: RefoldRow) {
    MustGo(rows, docs, kind, skip, r.summaryId)
    && r.kind == kind && r.openedAt == now && r.status == Open
    && r.trigger in rows[r.summaryId].sources && r.trigger in docs && docs[r.trigger].superseded
    && exists s :: s in rows[r.summaryId].sources && StandsFor(docs, r.pgId, s)
  }

  /** The rows opened for one retired summary. */
  ghost predicate OpenedOf(rows: SummaryTable, docs: DocTable, kind: Kind, id: int, now: int, r: RefoldRow)
    requires id in rows
  {
    r.summaryId == id && r.kind == kind && r.openedAt == now && r.status == Open
    && r.trigger in Triggers(docs, rows[id].sources) && r.pgId in Standing(docs, rows[id].sources)
  }

  lemma {:induction false} OpenedForExactly(
    rows: SummaryTable, docs: DocTable, kind: Kind, ids: seq<int>, now: int, r: RefoldRow)
    requires forall id :: id in ids ==> id in rows
    ensures r in OpenedFor(rows, docs, kind, ids, now) <==>
              r.summaryId in ids && OpenedOf(rows, docs, kind, r.summaryId, now, r)
    decreases |ids|
  {
    if ids != [] {
      var front, last := ids[..|ids| - 1], ids[|ids| - 1];
      assert ids == front + [last];
      assert last in ids;
      OpenedForExactly(rows, docs, kind, front, now, r);
      OpenedExactly(docs, rows[last].sources, last, kind, Triggers(docs, rows[last].sources), now);
    }
  }

  lemma OwedAreOpened(rows: SummaryTable, docs: DocTable, kind: Kind, skip: set<int>, now: int, r: RefoldRow)
    requires MustGo(rows, docs, kind, skip, r.summaryId)
    ensures OpenedOf(rows, docs, kind, r.summaryId, now, r) <==> Owed(rows, docs, kind, skip, now, r)
  {
    var sources := rows[r.summaryId].sources;
    StandingExactly(docs, sources, r.pgId);
    assert r.trigger in Triggers(docs, sources) <==>
      r.trigger in sources && r.trigger in docs && docs[r.trigger].superseded;
  }

  /** The ledger keeps its rows and gains exactly those owed. */
  lemma OpensExactly(db: Db, docs: DocTable, kind: Kind, skip: set<int>, r: RefoldRow)
    ensures var out := RetireInvalidated(db, docs, kind, skip).ledger;
            && db.ledger <= out
            && (r in out[|db.ledger|..] <==> Owed(db.st.rows, docs, kind, skip, db.st.now, r))
  {
    var rows := db.st.rows;
    var ids := InvalidatedIds(rows, docs, kind, skip);
    var added := OpenedFor(rows, docs, kind, Sorted(ids), db.st.now);
    assert RetireInvalidated(db, docs, kind, skip).ledger[|db.ledger|..] == added;
    OpenedForExactly(rows, docs, kind, Sorted(ids), db.st.now, r);
    assert r.summaryId in Sorted(ids) <==> r.summaryId in ids;
    InvalidatedAre(rows, docs, kind, skip, r.summaryId);
    if MustGo(rows, docs, kind, skip, r.summaryId) { OwedAreOpened(rows, docs, kind, skip, db.st.now, r); }
  }
}
