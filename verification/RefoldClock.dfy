/** What a completed fact cycle leaves open in the refold ledger. */
module RefoldClock {
  import opened Tables
  import opened Succession
  import opened ThematicFold
  import opened RefoldLedger
  import opened FactCycle

  ghost predicate Opens(docs: DocTable, planned: Planned, time: int, r: RefoldRow) {
    Succeeds(planned.item)
    && r in Opened(docs, planned.priorSources, planned.item.prior.value, Thematic, Sorted(planned.item.removed), time)
  }

  ghost predicate OpenedByFold(plan: seq<Planned>, outcomes: seq<Outcome>, start: int, i: nat, r: RefoldRow)
    requires |outcomes| == |plan|
  {
    i < |plan| && outcomes[i].Written? && Opens(outcomes[i].docs, plan[i], TimeOf(start, outcomes, i), r)
  }

  /** The ledger after the folds: what it held, and what the committed successions opened. */
  lemma {:induction false} FoldAllLedger(
    db: Db, plan: seq<Planned>, outcomes: seq<Outcome>, r: RefoldRow)
    requires SoundLineage(db.st) && |outcomes| == |plan| && Ready(db.st.rows, plan)
    ensures r in FoldAll(db, plan, outcomes).ledger <==>
              r in db.ledger || exists i: nat :: OpenedByFold(plan, outcomes, db.st.now, i, r)
    decreases |plan|
  {
    if plan == [] {
    } else {
      var next := FoldOne(db, plan[0], outcomes[0]);
      StepReady(db, plan, outcomes);
      FoldAllLedger(next, plan[1..], outcomes[1..], r);
      OpenedByFirstOrRest(plan, outcomes, db.st.now, next.st.now, r);
      FoldOneLedger(db, plan[0], outcomes[0], r);
    }
  }

  lemma FoldOneLedger(db: Db, planned: Planned, outcome: Outcome, r: RefoldRow)
    requires Current(db.st.rows, planned.item)
    ensures r in FoldOne(db, planned, outcome).ledger
       <==> r in db.ledger || (outcome.Written? && Opens(outcome.docs, planned, db.st.now, r))
  {
  }

  lemma OpenedByFirstOrRest(
    plan: seq<Planned>, outcomes: seq<Outcome>, start: int, next: int, r: RefoldRow)
    requires |outcomes| == |plan| > 0 && next == (if outcomes[0].Written? then start + 1 else start)
    ensures (exists i: nat :: OpenedByFold(plan, outcomes, start, i, r))
       <==> (outcomes[0].Written? && Opens(outcomes[0].docs, plan[0], start, r))
            || exists i: nat :: OpenedByFold(plan[1..], outcomes[1..], next, i, r)
  {
    assert OpenedByFold(plan, outcomes, start, 0, r) <==>
      (outcomes[0].Written? && Opens(outcomes[0].docs, plan[0], start, r));
    if i: nat :| OpenedByFold(plan[1..], outcomes[1..], next, i, r) {
      assert OpenedByFold(plan, outcomes, start, i + 1, r);
    }
    if i: nat :| OpenedByFold(plan, outcomes, start, i, r) && i > 0 {
      assert OpenedByFold(plan[1..], outcomes[1..], next, i - 1, r);
    }
  }

  /** Everything in the tables happened before now. */
  ghost predicate PastOnly(db: Db) {
    (forall id :: id in db.st.rows ==> db.st.rows[id].foldedAt < db.st.now)
    && forall r :: r in db.ledger ==> r.openedAt < db.st.now
  }

  /** Fold i of the plan committed and covers m. */
  ghost predicate FoldedHere(plan: seq<Planned>, outcomes: seq<Outcome>, i: nat, m: int)
    requires |outcomes| == |plan|
  {
    i < |plan| && outcomes[i].Written? && m in plan[i].item.sources
  }

  /**
   A later fold of the same cycle reopens m: it retires a row whose members stand for m, after the last
   fold that covers m.
   */
  ghost predicate ReopenedAfter(plan: seq<Planned>, outcomes: seq<Outcome>, m: int, j: nat)
    requires |outcomes| == |plan|
  {
    j < |plan| && outcomes[j].Written? && Succeeds(plan[j].item)
    && m in Standing(outcomes[j].docs, plan[j].priorSources)
    && forall i: nat :: FoldedHere(plan, outcomes, i, m) ==> i < j
  }

  // ---------- the fold loop, from any starting tables ----------

  ghost predicate Started(db: Db, plan: seq<Planned>, outcomes: seq<Outcome>) {
    SoundLineage(db.st) && PastOnly(db) && |outcomes| == |plan| && Ready(db.st.rows, plan)
  }

  /** An active thematic row after the folds: written by fold i of them, or older than all of them. */
  lemma ActiveRowOrigin(
    db: Db, plan: seq<Planned>, outcomes: seq<Outcome>, id: int) returns (i: Option<nat>)
    requires Started(db, plan, outcomes)
    requires var rows := FoldAll(db, plan, outcomes).st.rows; id in rows && ActiveRow(rows, id, rows[id].key)
    ensures i.None? ==> FoldAll(db, plan, outcomes).st.rows[id].foldedAt < db.st.now
    ensures i.Some? ==> i.value < |plan| && outcomes[i.value].Written?
    ensures i.Some? ==> var row := FoldAll(db, plan, outcomes).st.rows[id];
              row.sources == plan[i.value].item.sources && row.foldedAt == TimeOf(db.st.now, outcomes, i.value)
  {
    var out := FoldAll(db, plan, outcomes);
    var key := out.st.rows[id].key;
    FoldAllKeeps(db, plan, outcomes);
    if k: nat :| k < |plan| && outcomes[k].Written? && plan[k].item.key == key {
      FoldAllWrites(db, plan, outcomes, k);
      OneActiveRowPerKey(out.st, id, ActiveOf(out.st.rows, key).value, key);
      i := Some(k);
    } else {
      FoldAllFrame(db, plan, outcomes, key);
      assert ActiveRow(db.st.rows, id, key);
      i := None;
    }
  }

  lemma UncoveredIsLater(db: Db, plan: seq<Planned>, outcomes: seq<Outcome>, r: RefoldRow, i: nat)
    requires Started(db, plan, outcomes) && FoldedHere(plan, outcomes, i, r.pgId)
    requires r.kind == Thematic && !CoveredBy(FoldAll(db, plan, outcomes).st.rows, r)
    ensures TimeOf(db.st.now, outcomes, i) < r.openedAt
  {
    FoldAllWrites(db, plan, outcomes, i);
    var rows := FoldAll(db, plan, outcomes).st.rows;
    assert !Refolds(rows[ActiveOf(rows, plan[i].item.key).value], r);
  }

  /** A ledger row younger than every fold of its record was opened by a later fold. */
  lemma OpenedLate(db: Db, plan: seq<Planned>, outcomes: seq<Outcome>, r: RefoldRow, i: nat)
    requires Started(db, plan, outcomes) && r in FoldAll(db, plan, outcomes).ledger
    requires FoldedHere(plan, outcomes, i, r.pgId)
    requires forall k: nat :: FoldedHere(plan, outcomes, k, r.pgId) ==> TimeOf(db.st.now, outcomes, k) < r.openedAt
    ensures exists j: nat :: ReopenedAfter(plan, outcomes, r.pgId, j)
  {
    FoldAllLedger(db, plan, outcomes, r);
    TimeGrows(db.st.now, outcomes, 0, i);
    var j: nat :| OpenedByFold(plan, outcomes, db.st.now, j, r);
    OpenedExactly(
      outcomes[j].docs, plan[j].priorSources, plan[j].item.prior.value, Thematic, Sorted(plan[j].item.removed),
      TimeOf(db.st.now, outcomes, j));
    forall k: nat | FoldedHere(plan, outcomes, k, r.pgId) ensures k < j {
      if j <= k { TimeGrows(db.st.now, outcomes, j, k); }
    }
    assert ReopenedAfter(plan, outcomes, r.pgId, j);
  }

  /** The row a reopening fold leaves in the ledger. */
  lemma ReopenedRow(
    db: Db, plan: seq<Planned>, outcomes: seq<Outcome>, m: int, j: nat) returns (r: RefoldRow)
    requires Started(db, plan, outcomes) && ReopenedAfter(plan, outcomes, m, j)
    ensures r in FoldAll(db, plan, outcomes).ledger
    ensures r.pgId == m && r.kind == Thematic && r.status == Open && r.openedAt == TimeOf(db.st.now, outcomes, j)
  {
    var trigger := Pick(plan[j].item.removed);
    var time := TimeOf(db.st.now, outcomes, j);
    r := RefoldRow(m, plan[j].item.prior.value, Thematic, trigger, time, Open);
    OpenedExactly(
      outcomes[j].docs, plan[j].priorSources, plan[j].item.prior.value, Thematic, Sorted(plan[j].item.removed), time);
    assert OpenedByFold(plan, outcomes, db.st.now, j, r);
    FoldAllLedger(db, plan, outcomes, r);
  }

  lemma ReopenedNotCovered(db: Db, plan: seq<Planned>, outcomes: seq<Outcome>, r: RefoldRow, j: nat)
    requires Started(db, plan, outcomes) && ReopenedAfter(plan, outcomes, r.pgId, j)
    requires r.kind == Thematic && r.openedAt == TimeOf(db.st.now, outcomes, j)
    ensures !CoveredBy(FoldAll(db, plan, outcomes).st.rows, r)
  {
    var rows := FoldAll(db, plan, outcomes).st.rows;
    if id :| id in rows && Refolds(rows[id], r) {
      assert ActiveRow(rows, id, rows[id].key);
      var origin := ActiveRowOrigin(db, plan, outcomes, id);
      TimeGrows(db.st.now, outcomes, 0, j);
      if origin.Some? {
        assert FoldedHere(plan, outcomes, origin.value, r.pgId);
        TimeGrows(db.st.now, outcomes, origin.value, j);
      }
    }
  }

  // ---------- what stays open ----------

  lemma ClosedFrom(out: Db, scan: Scan, r: RefoldRow) returns (i: nat)
    requires r in CloseAll(out.ledger, out.st.rows, scan.versions.closing, scan.scanned, Gated(scan.groups))
    ensures i < |out.ledger|
    ensures r == CloseRow(out.st.rows, scan.versions.closing,
      DropOutOfScan(DropBelowDensity(out.ledger[i], scan.scanned, Gated(scan.groups)), scan.scanned))
  {
    i :| 0 <= i < |out.ledger|
      && CloseAll(out.ledger, out.st.rows, scan.versions.closing, scan.scanned, Gated(scan.groups))[i] == r;
  }

  /** A completed cycle leaves open only thematic rows that name an unsuperseded member of a gating group. */
  lemma OpenRowsNameGatedMembers(db: Db, scan: Scan, outcomes: seq<Outcome>, r: RefoldRow)
    requires ScanOk(scan) && |outcomes| == |PlanOf(db, scan)|
    requires r in Cycle(db, scan, outcomes).ledger && r.status == Open && r.kind == Thematic
    ensures r.pgId in Gated(scan.groups)
    ensures !(r.pgId in scan.versions.closing && scan.versions.closing[r.pgId].superseded)
  {
    var out := FoldAll(Swept(db, scan), PlanOf(db, scan), outcomes);
    var i := ClosedFrom(out, scan, r);
    StaysOpenExactly(out.ledger[i], out.st.rows, scan.versions.closing, scan.scanned, Gated(scan.groups));
  }

  ghost predicate LeftOpen(ledger: seq<RefoldRow>, m: int) {
    exists r :: r in ledger && r.status == Open && r.kind == Thematic && r.pgId == m
  }

  /** A row for m that the closers leave open was opened by a fold later than all that cover m. */
  lemma LeftOpenWasReopened(db: Db, scan: Scan, plan: seq<Planned>, outcomes: seq<Outcome>, m: int, i: nat)
    requires Started(db, plan, outcomes) && ScanOk(scan)
    requires FoldedHere(plan, outcomes, i, m) && m in Gated(scan.groups)
    requires !(m in scan.versions.closing && scan.versions.closing[m].superseded)
    requires var out := FoldAll(db, plan, outcomes);
             LeftOpen(CloseAll(out.ledger, out.st.rows, scan.versions.closing, scan.scanned, Gated(scan.groups)), m)
    ensures exists j: nat :: ReopenedAfter(plan, outcomes, m, j)
  {
    var out := FoldAll(db, plan, outcomes);
    var gated := Gated(scan.groups);
    var ledger := CloseAll(out.ledger, out.st.rows, scan.versions.closing, scan.scanned, gated);
    var closed :| closed in ledger && closed.status == Open && closed.kind == Thematic && closed.pgId == m;
    var k := ClosedFrom(out, scan, closed);
    StaysOpenExactly(out.ledger[k], out.st.rows, scan.versions.closing, scan.scanned, gated);
    forall h: nat | FoldedHere(plan, outcomes, h, m) ensures TimeOf(db.st.now, outcomes, h) < out.ledger[k].openedAt {
      UncoveredIsLater(db, plan, outcomes, out.ledger[k], h);
    }
    OpenedLate(db, plan, outcomes, out.ledger[k], i);
  }

  /** And the row such a fold opens is left open. */
  lemma ReopenedIsLeftOpen(db: Db, scan: Scan, plan: seq<Planned>, outcomes: seq<Outcome>, m: int, j: nat)
    requires Started(db, plan, outcomes) && ScanOk(scan) && m in Gated(scan.groups)
    requires !(m in scan.versions.closing && scan.versions.closing[m].superseded) && ReopenedAfter(plan, outcomes, m, j)
    ensures var out := FoldAll(db, plan, outcomes);
            LeftOpen(CloseAll(out.ledger, out.st.rows, scan.versions.closing, scan.scanned, Gated(scan.groups)), m)
  {
    var out := FoldAll(db, plan, outcomes);
    var gated := Gated(scan.groups);
    var ledger := CloseAll(out.ledger, out.st.rows, scan.versions.closing, scan.scanned, gated);
    var r := ReopenedRow(db, plan, outcomes, m, j);
    ReopenedNotCovered(db, plan, outcomes, r, j);
    StaysOpenExactly(r, out.st.rows, scan.versions.closing, scan.scanned, gated);
    var k :| 0 <= k < |out.ledger| && out.ledger[k] == r;
    assert ledger[k] in ledger;
  }

  /** The closers after a fold loop, exactly: m stays open iff a later fold of the loop reopened it. */
  lemma ClosersLeaveExactly(db: Db, scan: Scan, plan: seq<Planned>, outcomes: seq<Outcome>, m: int, i: nat)
    requires Started(db, plan, outcomes) && ScanOk(scan)
    requires FoldedHere(plan, outcomes, i, m) && m in Gated(scan.groups)
    requires !(m in scan.versions.closing && scan.versions.closing[m].superseded)
    ensures var out := FoldAll(db, plan, outcomes);
            LeftOpen(CloseAll(out.ledger, out.st.rows, scan.versions.closing, scan.scanned, Gated(scan.groups)), m)
            <==> exists j: nat :: ReopenedAfter(plan, outcomes, m, j)
  {
    var out := FoldAll(db, plan, outcomes);
    if LeftOpen(CloseAll(out.ledger, out.st.rows, scan.versions.closing, scan.scanned, Gated(scan.groups)), m) {
      LeftOpenWasReopened(db, scan, plan, outcomes, m, i);
    }
    if j: nat :| ReopenedAfter(plan, outcomes, m, j) {
      ReopenedIsLeftOpen(db, scan, plan, outcomes, m, j);
    }
  }

  lemma GroupSourcesGate(records: map<int, Record>, groups: seq<Group>, g: Group, m: int)
    requires g in groups && m in Render(records, g.members).1
    ensures m in Gated(groups)
  {
    RenderIds(records, g.members);
    var k :| 0 <= k < |g.members| && g.members[k].id == m;
    assert g.members[k] in g.members;
  }

  lemma SweptStarted(db: Db, scan: Scan, outcomes: seq<Outcome>)
    requires SoundLineage(db.st) && PastOnly(db) && ScanOk(scan) && |outcomes| == |PlanOf(db, scan)|
    ensures Started(Swept(db, scan), PlanOf(db, scan), outcomes)
  {
    SweptKeeps(db, scan);
    SweptPast(db, scan);
    PlanIsReady(db, scan);
  }

  /**
   Members of a group folded this cycle normally have no open thematic row left. The exact exception, for
   an unsuperseded member m: a fold committed after every fold covering m retired a row that stood for m.
   */
  lemma LeftOpenExactly(db: Db, scan: Scan, outcomes: seq<Outcome>, m: int)
    requires SoundLineage(db.st) && PastOnly(db) && ScanOk(scan) && |outcomes| == |PlanOf(db, scan)|
    requires exists i: nat :: FoldedHere(PlanOf(db, scan), outcomes, i, m)
    requires !(m in scan.versions.closing && scan.versions.closing[m].superseded)
    ensures LeftOpen(Cycle(db, scan, outcomes).ledger, m)
       <==> exists j: nat :: ReopenedAfter(PlanOf(db, scan), outcomes, m, j)
  {
    var i: nat :| FoldedHere(PlanOf(db, scan), outcomes, i, m);
    var g := PlanItem(db, scan, i);
    GroupSourcesGate(scan.records, scan.groups, g, m);
    SweptStarted(db, scan, outcomes);
    ClosersLeaveExactly(Swept(db, scan), scan, PlanOf(db, scan), outcomes, m, i);
  }

  // ---------- the clock runs forward over whole cycles ----------

  lemma FoldLeavesPast(st: State, docs: DocTable, item: FoldItem)
    requires SoundLineage(st) && Current(st.rows, item)
    requires forall id :: id in st.rows ==> st.rows[id].foldedAt < st.now
    ensures var out := Fold(st, docs, item);
            out.now == st.now + 1 && forall id :: id in out.rows ==> out.rows[id].foldedAt < out.now
  {
    FoldWrote(st, docs, item);
  }

  lemma FoldOnePast(db: Db, planned: Planned, docs: DocTable)
    requires SoundLineage(db.st) && PastOnly(db) && Current(db.st.rows, planned.item)
    ensures PastOnly(FoldOne(db, planned, Written(docs)))
  {
    var next := FoldOne(db, planned, Written(docs));
    FoldLeavesPast(db.st, docs, planned.item);
    forall r | r in next.ledger ensures r.openedAt < next.st.now {
      FoldOneLedger(db, planned, Written(docs), r);
      if Opens(docs, planned, db.st.now, r) {
        OpenedExactly(docs, planned.priorSources, planned.item.prior.value, Thematic, Sorted(planned.item.removed),
          db.st.now);
      }
    }
  }

  lemma {:induction false} FoldAllPast(db: Db, plan: seq<Planned>, outcomes: seq<Outcome>)
    requires SoundLineage(db.st) && PastOnly(db) && |outcomes| == |plan| && Ready(db.st.rows, plan)
    ensures PastOnly(FoldAll(db, plan, outcomes))
    decreases |plan|
  {
    if plan == [] {
    } else {
      var next := FoldOne(db, plan[0], outcomes[0]);
      StepReady(db, plan, outcomes);
      if outcomes[0].Written? { FoldOnePast(db, plan[0], outcomes[0].docs); }
      FoldAllPast(next, plan[1..], outcomes[1..]);
    }
  }

  lemma {:induction false} SweepOpensNow(
    rows: SummaryTable, docs: DocTable, kind: Kind, ids: seq<int>, now: int, r: RefoldRow)
    requires forall id :: id in ids ==> id in rows
    requires r in OpenedFor(rows, docs, kind, ids, now)
    ensures r.openedAt == now && r.status == Open && r.kind == kind
    ensures r.summaryId in ids && r.pgId in Standing(docs, rows[r.summaryId].sources)
    decreases |ids|
  {
    var last := ids[|ids| - 1];
    assert last in ids;
    OpenedExactly(docs, rows[last].sources, last, kind, Triggers(docs, rows[last].sources), now);
    if r in OpenedFor(rows, docs, kind, ids[..|ids| - 1], now) {
      SweepOpensNow(rows, docs, kind, ids[..|ids| - 1], now, r);
    }
  }

  ghost predicate NamesStanding(rows: SummaryTable, docs: DocTable, r: RefoldRow) {
    r.summaryId in rows && r.pgId in Standing(docs, rows[r.summaryId].sources)
  }

  lemma SweepNamesStanding(db: Db, scan: Scan, r: RefoldRow)
    requires r in Swept(db, scan).ledger && r !in db.ledger
    ensures NamesStanding(db.st.rows, scan.versions.sweeping, r)
  {
    var ids := InvalidatedIds(db.st.rows, scan.versions.sweeping, Thematic, GatingRows(db.st.rows, scan.groups));
    SweepOpensNow(db.st.rows, scan.versions.sweeping, Thematic, Sorted(ids), db.st.now, r);
  }

  lemma PlannedNamesStanding(
    rows: SummaryTable, planning: DocTable, records: map<int, Record>, g: Group, docs: DocTable, time: int,
    r: RefoldRow)
    requires Opens(docs, PlanGroup(rows, planning, records, g), time, r)
    ensures NamesStanding(rows, docs, r)
  {
    var p := PlanGroup(rows, planning, records, g);
    OpenedExactly(docs, p.priorSources, p.item.prior.value, Thematic, Sorted(p.item.removed), time);
  }

  /** The sweep, or a fold that committed, read the records so. */
  ghost predicate ReadBy(scan: Scan, outcomes: seq<Outcome>, docs: DocTable) {
    docs == scan.versions.sweeping || Written(docs) in outcomes
  }

  /** A row opened by the cycle was opened for a record that the retired summary stood for in the same transaction. */
  lemma OpenedNamesStanding(db: Db, scan: Scan, outcomes: seq<Outcome>, r: RefoldRow) returns (docs: DocTable)
    requires SoundLineage(db.st) && ScanOk(scan) && |outcomes| == |PlanOf(db, scan)|
    requires r in FoldAll(Swept(db, scan), PlanOf(db, scan), outcomes).ledger && r !in db.ledger
    ensures ReadBy(scan, outcomes, docs) && NamesStanding(db.st.rows, docs, r)
  {
    SweptKeeps(db, scan);
    PlanIsReady(db, scan);
    if r in Swept(db, scan).ledger {
      SweepNamesStanding(db, scan, r);
      docs := scan.versions.sweeping;
    } else {
      FoldAllLedger(Swept(db, scan), PlanOf(db, scan), outcomes, r);
      var i: nat :| OpenedByFold(PlanOf(db, scan), outcomes, Swept(db, scan).st.now, i, r);
      var g := PlanItem(db, scan, i);
      docs := outcomes[i].docs;
      PlannedNamesStanding(
        db.st.rows, scan.versions.planning, scan.records, g, docs, TimeOf(Swept(db, scan).st.now, outcomes, i), r);
      assert outcomes[i] == Written(docs);
    }
  }

  /**
   A row opened by the cycle names a record that, as the retiring transaction read the records, is unsuperseded and one
   that some member of the retired summary leads to.
   */
  lemma OpenedRowsStand(db: Db, scan: Scan, outcomes: seq<Outcome>, r: RefoldRow)
    returns (docs: DocTable, member: int)
    requires SoundLineage(db.st) && ScanOk(scan) && |outcomes| == |PlanOf(db, scan)|
    requires r in FoldAll(Swept(db, scan), PlanOf(db, scan), outcomes).ledger && r !in db.ledger
    ensures ReadBy(scan, outcomes, docs) && r.summaryId in db.st.rows
    ensures member in db.st.rows[r.summaryId].sources && StandsFor(docs, r.pgId, member)
  {
    docs := OpenedNamesStanding(db, scan, outcomes, r);
    StandingExactly(docs, db.st.rows[r.summaryId].sources, r.pgId);
    member :| member in db.st.rows[r.summaryId].sources && StandsFor(docs, r.pgId, member);
  }

  lemma SweptPast(db: Db, scan: Scan)
    requires SoundLineage(db.st) && PastOnly(db)
    ensures PastOnly(Swept(db, scan))
  {
    forall r | r in Swept(db, scan).ledger ensures r.openedAt < db.st.now + 1 {
      if r !in db.ledger {
        var ids := InvalidatedIds(db.st.rows, scan.versions.sweeping, Thematic, GatingRows(db.st.rows, scan.groups));
        SweepOpensNow(db.st.rows, scan.versions.sweeping, Thematic, Sorted(ids), db.st.now, r);
      }
    }
  }

  /** Every cycle keeps the table sound and everything in it in the past, so cycle follows cycle. */
  lemma CycleKeeps(db: Db, scan: Scan, outcomes: seq<Outcome>)
    requires SoundLineage(db.st) && PastOnly(db) && ScanOk(scan) && |outcomes| == |PlanOf(db, scan)|
    ensures var out := Cycle(db, scan, outcomes);
            SoundLineage(out.st) && Evolves(db.st.rows, out.st.rows) && PastOnly(out)
  {
    var out := FoldAll(Swept(db, scan), PlanOf(db, scan), outcomes);
    SweptKeeps(db, scan);
    SweptStarted(db, scan, outcomes);
    FoldAllKeeps(Swept(db, scan), PlanOf(db, scan), outcomes);
    EvolvesTransitive(db.st.rows, Swept(db, scan).st.rows, out.st.rows);
    FoldAllPast(Swept(db, scan), PlanOf(db, scan), outcomes);
    forall r | r in Cycle(db, scan, outcomes).ledger ensures r.openedAt < out.st.now {
      var i := ClosedFrom(out, scan, r);
      assert out.ledger[i] in out.ledger;
    }
  }
}
