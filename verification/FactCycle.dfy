/**
 One fact-consolidation cycle: plan the folds that would change a row, retire invalidated rows of
 non-gating groups, fold item by item with arbitrary failures, then close the refold ledger.
 */
module FactCycle {
  import opened Tables
  import opened Chain
  import opened Succession
  import opened ByPgId
  import opened ThematicFold
  import opened RefoldLedger

  /** A gating (project, section) group of the discovery scan, with its members. */
  datatype Group = Group(key: Key, members: seq<Member<string>>)

  /** A fold with the sources its prior row held when the cycle read it. */
  datatype Planned = Planned(item: FoldItem, priorSources: seq<int>)

  /** How a planned fold ended; one that was written read the records as they stood in its transaction. */
  datatype Outcome = EmbedFailed | WriteFailed | Written(docs: DocTable)

  datatype Db = Db(st: State, ledger: seq<RefoldRow>)

  // ---------- planning ----------

  ghost predicate GroupIsCurrent(rows: SummaryTable, records: map<int, Record>, group: Group) {
    var (content, ids) := Render(records, group.members);
    ActiveOf(rows, group.key).Some?
      && IsCurrent(rows[ActiveOf(rows, group.key).value], content, ids, EntitiesOf(records, ids))
  }

  /** The members the active row held that left the group and are superseded in PostgreSQL. */
  function RemovedSuperseded(docs: DocTable, priorSources: seq<int>, ids: seq<int>): set<int> {
    set m | m in priorSources && m !in ids && m in docs && docs[m].superseded
  }

  ghost function PlanGroup(rows: SummaryTable, docs: DocTable, records: map<int, Record>, group: Group): Planned {
    var (content, ids) := Render(records, group.members);
    var prior := ActiveOf(rows, group.key);
    var priorSources := if prior.Some? then rows[prior.value].sources else [];
    Planned(
      FoldItem(group.key, content, ids, EntitiesOf(records, ids), prior, RemovedSuperseded(docs, priorSources, ids)),
      priorSources)
  }

  /** fold_work_items: the groups whose active row a re-fold would not rewrite byte-identically. */
  ghost function Plan(rows: SummaryTable, docs: DocTable, records: map<int, Record>, groups: seq<Group>): seq<Planned> {
    if groups == [] then []
    else
      var rest := Plan(rows, docs, records, groups[1..]);
      if GroupIsCurrent(rows, records, groups[0]) then rest else [PlanGroup(rows, docs, records, groups[0])] + rest
  }

  // ---------- retirement without a successor ----------

  predicate Invalidated(rows: SummaryTable, docs: DocTable, kind: Kind, skip: set<int>, id: int) {
    id in rows && !rows[id].superseded && rows[id].kind == kind && id !in skip
    && exists m :: m in rows[id].sources && m in docs && docs[m].superseded
  }

  function InvalidatedIds(rows: SummaryTable, docs: DocTable, kind: Kind, skip: set<int>): set<int> {
    set id | id in rows && Invalidated(rows, docs, kind, skip, id)
  }

  ghost function Triggers(docs: DocTable, sources: seq<int>): seq<int> {
    Sorted(set m | m in sources && m in docs && docs[m].superseded)
  }

  ghost function OpenedFor(rows: SummaryTable, docs: DocTable, kind: Kind, ids: seq<int>, now: int): seq<RefoldRow>
    requires forall id :: id in ids ==> id in rows
  {
    if ids == [] then []
    else
      var last := ids[|ids| - 1];
      assert last in ids;
      OpenedFor(rows, docs, kind, ids[..|ids| - 1], now)
      + Opened(docs, rows[last].sources, last, kind, Triggers(docs, rows[last].sources), now)
  }

  /** retire_invalidated_summaries, one transaction. */
  ghost function RetireInvalidated(db: Db, docs: DocTable, kind: Kind, skip: set<int>): Db {
    var ids := InvalidatedIds(db.st.rows, docs, kind, skip);
    Db(RetirePass(db.st, ids), db.ledger + OpenedFor(db.st.rows, docs, kind, Sorted(ids), db.st.now))
  }

  // ---------- folding ----------

  ghost function FoldOne(db: Db, planned: Planned, outcome: Outcome): Db {
    if !outcome.Written? then db
    else
      var item := planned.item;
      var newRows := if Succeeds(item) && IsActive(db.st.rows, item.prior.value)
                    then Opened(outcome.docs, planned.priorSources, item.prior.value, Thematic, Sorted(item.removed),
                                db.st.now)
                    else [];
      Db(Fold(db.st, outcome.docs, item), db.ledger + newRows)
  }

  ghost function FoldAll(db: Db, plan: seq<Planned>, outcomes: seq<Outcome>): Db
    requires |outcomes| == |plan|
    decreases |plan|
  {
    if plan == [] then db else FoldAll(FoldOne(db, plan[0], outcomes[0]), plan[1..], outcomes[1..])
  }

  // ---------- the cycle ----------

  function Gated(groups: seq<Group>): set<int> {
    set g, m | g in groups && m in g.members :: m.id
  }

  ghost function GatingRows(rows: SummaryTable, groups: seq<Group>): set<int> {
    set g | g in groups && ActiveOf(rows, g.key).Some? :: ActiveOf(rows, g.key).value
  }

  /** The records as the cycle reads them for its plan, for its sweep, and for the last closer. */
  datatype Versions = Versions(planning: DocTable, sweeping: DocTable, closing: DocTable)

  /** Nobody writes the records while the cycle runs. */
  function Still(docs: DocTable): Versions {
    Versions(docs, docs, docs)
  }

  /** What the cycle reads: the graph as of its start, and the records, which others go on writing. */
  datatype Scan = Scan(versions: Versions, records: map<int, Record>, groups: seq<Group>, scanned: set<int>)

  predicate ScanOk(scan: Scan) {
    (forall i, j :: 0 <= i < j < |scan.groups| ==> scan.groups[i].key != scan.groups[j].key)
    && (forall g :: g in scan.groups ==> DistinctIds(g.members))
    && Gated(scan.groups) <= scan.scanned
  }

  ghost function PlanOf(db: Db, scan: Scan): seq<Planned> {
    Plan(db.st.rows, scan.versions.planning, scan.records, scan.groups)
  }

  ghost function Swept(db: Db, scan: Scan): Db {
    RetireInvalidated(db, scan.versions.sweeping, Thematic, GatingRows(db.st.rows, scan.groups))
  }

  ghost function Cycle(db: Db, scan: Scan, outcomes: seq<Outcome>): Db
    requires |outcomes| == |PlanOf(db, scan)|
  {
    var folded := FoldAll(Swept(db, scan), PlanOf(db, scan), outcomes);
    folded.(ledger := CloseAll(folded.ledger, folded.st.rows, scan.versions.closing, scan.scanned, Gated(scan.groups)))
  }

  /** How far a cycle got: so many of its folds and, once they are all done, so many of the three closers. */
  datatype Stop = Stop(folds: nat, closers: nat)

  function Take<T>(s: seq<T>, n: nat): seq<T> {
    if n < |s| then s[..n] else s
  }

  /** A cycle that an exception or the death of the process may have cut. */
  ghost function Partial(db: Db, scan: Scan, outcomes: seq<Outcome>, stop: Stop): Db
    requires |outcomes| == |PlanOf(db, scan)|
  {
    var plan := PlanOf(db, scan);
    var folded := FoldAll(Swept(db, scan), Take(plan, stop.folds), Take(outcomes, stop.folds));
    if stop.folds < |plan| then folded
    else folded.(ledger :=
      CloseSome(folded.ledger, folded.st.rows, scan.versions.closing, scan.scanned, Gated(scan.groups), stop.closers))
  }

  /** A cycle that was not cut. */
  ghost predicate Whole(db: Db, scan: Scan, stop: Stop) {
    |PlanOf(db, scan)| <= stop.folds && 3 <= stop.closers
  }

  lemma WholeIsCycle(db: Db, scan: Scan, outcomes: seq<Outcome>, stop: Stop)
    requires |outcomes| == |PlanOf(db, scan)| && Whole(db, scan, stop)
    ensures Partial(db, scan, outcomes, stop) == Cycle(db, scan, outcomes)
  {
    var folded := FoldAll(Swept(db, scan), PlanOf(db, scan), outcomes);
    var gated := Gated(scan.groups);
    assert CloseSome(folded.ledger, folded.st.rows, scan.versions.closing, scan.scanned, gated, stop.closers)
        == CloseAll(folded.ledger, folded.st.rows, scan.versions.closing, scan.scanned, gated);
  }

  // ---------- the snapshot read at cycle start stays current until each item's own fold ----------

  ghost predicate SameKeyRows(rows: SummaryTable, rows': SummaryTable, key: Key) {
    forall id :: (ActiveRow(rows, id, key) <==> ActiveRow(rows', id, key))
                 && (ActiveRow(rows, id, key) ==> rows'[id] == rows[id])
  }

  lemma SameActiveOf(rows: SummaryTable, st: State, key: Key)
    requires SoundLineage(st) && SameKeyRows(rows, st.rows, key)
    ensures ActiveOf(rows, key) == ActiveOf(st.rows, key)
  {
    if ActiveOf(rows, key).Some? {
      OneActiveRowPerKey(st, ActiveOf(rows, key).value, ActiveOf(st.rows, key).value, key);
    }
  }

  lemma WroteFrame(st: State, out: SummaryTable, id: int, item: FoldItem, key: Key)
    requires Wrote(st, out, id, item) && key != item.key
    ensures SameKeyRows(st.rows, out, key)
  {
  }

  /** A fold leaves the active row of every other key as it is. */
  lemma FoldFrame(st: State, docs: DocTable, item: FoldItem, key: Key)
    requires SoundLineage(st) && Current(st.rows, item) && key != item.key
    ensures SameKeyRows(st.rows, Fold(st, docs, item).rows, key)
  {
    FoldWrote(st, docs, item);
    WroteFrame(st, Fold(st, docs, item).rows, WrittenId(st, item), item, key);
  }

  /** After its fold the key's active row is exactly what the item says, folded now. */
  lemma FoldWrites(st: State, docs: DocTable, item: FoldItem)
    requires SoundLineage(st) && Current(st.rows, item)
    ensures var out := Fold(st, docs, item);
            SoundLineage(out)
            && ActiveOf(out.rows, item.key).Some?
            && var row := out.rows[ActiveOf(out.rows, item.key).value];
               row.content == item.content && row.sources == item.sources && row.entities == item.entities
                 && row.foldedAt == st.now
  {
    FoldKeepsLineage(st, docs, item);
    FoldWrote(st, docs, item);
    var out := Fold(st, docs, item);
    OneActiveRowPerKey(out, WrittenId(st, item), ActiveOf(out.rows, item.key).value, item.key);
  }

  // ---------- the plan ----------

  lemma {:induction false} PlanMembers(
    rows: SummaryTable, docs: DocTable, records: map<int, Record>, groups: seq<Group>)
    ensures forall p :: p in Plan(rows, docs, records, groups) <==>
              exists g :: g in groups && !GroupIsCurrent(rows, records, g) && p == PlanGroup(rows, docs, records, g)
  {
    if groups == [] {
    } else {
      assert groups == [groups[0]] + groups[1..];
      PlanMembers(rows, docs, records, groups[1..]);
    }
  }

  predicate DistinctKeys(plan: seq<Planned>) {
    forall i, j :: 0 <= i < j < |plan| ==> plan[i].item.key != plan[j].item.key
  }

  lemma {:induction false} PlanDistinct(
    rows: SummaryTable, docs: DocTable, records: map<int, Record>, groups: seq<Group>)
    requires forall i, j :: 0 <= i < j < |groups| ==> groups[i].key != groups[j].key
    ensures DistinctKeys(Plan(rows, docs, records, groups))
  {
    if groups == [] {
    } else {
      var rest := Plan(rows, docs, records, groups[1..]);
      PlanDistinct(rows, docs, records, groups[1..]);
      PlanMembers(rows, docs, records, groups[1..]);
      forall p | p in rest ensures p.item.key != groups[0].key {}
      if !GroupIsCurrent(rows, records, groups[0]) {
        forall j | 0 <= j < |rest| ensures rest[j].item.key != groups[0].key { assert rest[j] in rest; }
      }
    }
  }

  predicate KeyUnplanned(plan: seq<Planned>, key: Key) {
    forall i :: 0 <= i < |plan| ==> plan[i].item.key != key
  }

  /** Every item is planned against the active row its key has now, and no two share a key. */
  ghost predicate Ready(rows: SummaryTable, plan: seq<Planned>) {
    DistinctKeys(plan) && forall i :: 0 <= i < |plan| ==> Current(rows, plan[i].item)
  }

  lemma CurrentFrame(rows: SummaryTable, rows': SummaryTable, item: FoldItem)
    requires Current(rows, item) && SameKeyRows(rows, rows', item.key)
    ensures Current(rows', item)
  {
  }

  /** The sweep for retirements without a successor skips the gating rows, so the plan is still current after it. */
  lemma SweepFrame(db: Db, scan: Scan, key: Key)
    requires SoundLineage(db.st) && exists g :: g in scan.groups && g.key == key
    ensures SameKeyRows(db.st.rows, Swept(db, scan).st.rows, key)
  {
    forall id | ActiveRow(db.st.rows, id, key) ensures id in GatingRows(db.st.rows, scan.groups) {
      GatingRowListed(db.st, scan.groups, id);
    }
  }

  lemma SweptKeeps(db: Db, scan: Scan)
    requires SoundLineage(db.st)
    ensures SoundLineage(Swept(db, scan).st) && Evolves(db.st.rows, Swept(db, scan).st.rows)
    ensures Swept(db, scan).st.now == db.st.now + 1
  {
    var skip := GatingRows(db.st.rows, scan.groups);
    RetireKeepsLineage(db.st, InvalidatedIds(db.st.rows, scan.versions.sweeping, Thematic, skip));
  }

  lemma PlanGroupIsCurrent(rows: SummaryTable, docs: DocTable, records: map<int, Record>, g: Group)
    ensures Current(rows, PlanGroup(rows, docs, records, g).item)
    ensures PlanGroup(rows, docs, records, g).item.key == g.key
  {
  }

  lemma PlannedIsCurrent(db: Db, scan: Scan, p: Planned)
    requires SoundLineage(db.st) && p in PlanOf(db, scan)
    ensures Current(Swept(db, scan).st.rows, p.item)
  {
    PlanMembers(db.st.rows, scan.versions.planning, scan.records, scan.groups);
    var g :| g in scan.groups && p == PlanGroup(db.st.rows, scan.versions.planning, scan.records, g);
    PlanGroupIsCurrent(db.st.rows, scan.versions.planning, scan.records, g);
    SweepFrame(db, scan, g.key);
    var rows := Swept(db, scan).st.rows;
    CurrentFrame(db.st.rows, rows, p.item);
  }

  lemma PlanIsReady(db: Db, scan: Scan)
    requires SoundLineage(db.st) && ScanOk(scan)
    ensures Ready(Swept(db, scan).st.rows, PlanOf(db, scan))
  {
    var plan := PlanOf(db, scan);
    PlanDistinct(db.st.rows, scan.versions.planning, scan.records, scan.groups);
    forall i | 0 <= i < |plan| ensures Current(Swept(db, scan).st.rows, plan[i].item) {
      PlannedIsCurrent(db, scan, plan[i]);
    }
  }

  /** The group an item was planned for. */
  lemma PlanItem(db: Db, scan: Scan, i: nat) returns (g: Group)
    requires i < |PlanOf(db, scan)|
    ensures g in scan.groups && !GroupIsCurrent(db.st.rows, scan.records, g)
    ensures PlanOf(db, scan)[i] == PlanGroup(db.st.rows, scan.versions.planning, scan.records, g)
    ensures PlanOf(db, scan)[i].item.key == g.key
    ensures PlanOf(db, scan)[i].item.sources == Render(scan.records, g.members).1
  {
    var p := PlanOf(db, scan)[i];
    assert p in PlanOf(db, scan);
    PlanMembers(db.st.rows, scan.versions.planning, scan.records, scan.groups);
    g :| g in scan.groups && !GroupIsCurrent(db.st.rows, scan.records, g)
      && p == PlanGroup(db.st.rows, scan.versions.planning, scan.records, g);
  }

  // ---------- folding the plan ----------

  /** When item i folds: one tick per fold already committed. */
  function TimeOf(start: int, outcomes: seq<Outcome>, i: nat): int
    requires i <= |outcomes|
    decreases i
  {
    if i == 0 then start
    else TimeOf(if outcomes[0].Written? then start + 1 else start, outcomes[1..], i - 1)
  }

  lemma {:induction false} TimeGrows(start: int, outcomes: seq<Outcome>, i: nat, j: nat)
    requires i <= j <= |outcomes|
    ensures start <= TimeOf(start, outcomes, i) <= TimeOf(start, outcomes, j)
    ensures i < j && outcomes[i].Written? ==> TimeOf(start, outcomes, i) < TimeOf(start, outcomes, j)
    decreases j
  {
    var next := if |outcomes| > 0 && outcomes[0].Written? then start + 1 else start;
    if i == 0 {
      if j > 0 { TimeGrows(next, outcomes[1..], 0, j - 1); }
    } else {
      TimeGrows(next, outcomes[1..], i - 1, j - 1);
    }
  }

  /** Item i's own row, after the whole plan. */
  ghost predicate RowWritten(rows: SummaryTable, item: FoldItem, time: int) {
    ActiveOf(rows, item.key).Some?
    && var row := rows[ActiveOf(rows, item.key).value];
       row.content == item.content && row.sources == item.sources && row.entities == item.entities
         && row.foldedAt == time
  }

  lemma {:induction false} FoldAllKeeps(db: Db, plan: seq<Planned>, outcomes: seq<Outcome>)
    requires SoundLineage(db.st) && |outcomes| == |plan| && Ready(db.st.rows, plan)
    ensures var out := FoldAll(db, plan, outcomes);
            && SoundLineage(out.st) && Evolves(db.st.rows, out.st.rows)
            && out.st.now == TimeOf(db.st.now, outcomes, |plan|)
    decreases |plan|
  {
    if plan == [] {
      assert TimeOf(db.st.now, outcomes, 0) == db.st.now;
    } else {
      var next := FoldOne(db, plan[0], outcomes[0]);
      StepReady(db, plan, outcomes);
      FoldAllKeeps(next, plan[1..], outcomes[1..]);
      EvolvesTransitive(db.st.rows, next.st.rows, FoldAll(db, plan, outcomes).st.rows);
    }
  }

  lemma StepReady(db: Db, plan: seq<Planned>, outcomes: seq<Outcome>)
    requires SoundLineage(db.st) && |outcomes| == |plan| > 0 && Ready(db.st.rows, plan)
    ensures var next := FoldOne(db, plan[0], outcomes[0]);
            && SoundLineage(next.st) && Evolves(db.st.rows, next.st.rows) && Ready(next.st.rows, plan[1..])
            && next.st.now == (if outcomes[0].Written? then db.st.now + 1 else db.st.now)
  {
    var next := FoldOne(db, plan[0], outcomes[0]);
    if outcomes[0].Written? {
      FoldKeepsLineage(db.st, outcomes[0].docs, plan[0].item);
      forall i | 0 <= i < |plan[1..]| ensures Current(next.st.rows, plan[1..][i].item) {
        FoldFrame(db.st, outcomes[0].docs, plan[0].item, plan[1 + i].item.key);
        CurrentFrame(db.st.rows, next.st.rows, plan[1 + i].item);
      }
    }
  }

  /** Keys with no committed fold keep their active row. */
  lemma {:induction false} FoldAllFrame(db: Db, plan: seq<Planned>, outcomes: seq<Outcome>, key: Key)
    requires SoundLineage(db.st) && |outcomes| == |plan| && Ready(db.st.rows, plan)
    requires forall i :: 0 <= i < |plan| && outcomes[i].Written? ==> plan[i].item.key != key
    ensures SameKeyRows(db.st.rows, FoldAll(db, plan, outcomes).st.rows, key)
    decreases |plan|
  {
    if plan == [] {
    } else {
      var next := FoldOne(db, plan[0], outcomes[0]);
      StepReady(db, plan, outcomes);
      if outcomes[0].Written? { FoldFrame(db.st, outcomes[0].docs, plan[0].item, key); }
      FoldAllFrame(next, plan[1..], outcomes[1..], key);
    }
  }

  /** The row of a key that is not planned again is left as written. */
  lemma WrittenStays(db: Db, plan: seq<Planned>, outcomes: seq<Outcome>, item: FoldItem, time: int)
    requires SoundLineage(db.st) && |outcomes| == |plan| && Ready(db.st.rows, plan) && KeyUnplanned(plan, item.key)
    requires RowWritten(db.st.rows, item, time)
    ensures RowWritten(FoldAll(db, plan, outcomes).st.rows, item, time)
  {
    FoldAllFrame(db, plan, outcomes, item.key);
    FoldAllKeeps(db, plan, outcomes);
    SameActiveOf(db.st.rows, FoldAll(db, plan, outcomes).st, item.key);
  }

  lemma {:induction false} FoldAllWrites(db: Db, plan: seq<Planned>, outcomes: seq<Outcome>, i: nat)
    requires SoundLineage(db.st) && |outcomes| == |plan| && Ready(db.st.rows, plan)
    requires i < |plan| && outcomes[i].Written?
    ensures RowWritten(FoldAll(db, plan, outcomes).st.rows, plan[i].item, TimeOf(db.st.now, outcomes, i))
    decreases |plan|
  {
    var next := FoldOne(db, plan[0], outcomes[0]);
    StepReady(db, plan, outcomes);
    if i == 0 {
      FoldWrites(db.st, outcomes[0].docs, plan[0].item);
      assert KeyUnplanned(plan[1..], plan[0].item.key);
      WrittenStays(next, plan[1..], outcomes[1..], plan[0].item, db.st.now);
    } else {
      FoldAllWrites(next, plan[1..], outcomes[1..], i - 1);
    }
  }

  // ---------- quiescence ----------

  function GroupKeys(groups: seq<Group>): set<Key> {
    set g | g in groups :: g.key
  }

  predicate Permuted(g: Group, h: Group) {
    h.key == g.key && multiset(h.members) == multiset(g.members)
  }

  /** The same gating groups, groups and members in any order, over the same texts and the same superseded records. */
  predicate SamePopulation(a: Scan, b: Scan) {
    a.versions.sweeping == b.versions.sweeping && a.records == b.records && GroupKeys(a.groups) == GroupKeys(b.groups)
    && forall g :: g in b.groups ==> exists h :: h in a.groups && Permuted(g, h)
  }

  predicate AllWritten(outcomes: seq<Outcome>) {
    forall i :: 0 <= i < |outcomes| ==> outcomes[i].Written?
  }

  /** After a cycle whose folds all committed, every gating group's active row is what a re-fold would write. */
  lemma CycleLeavesCurrent(db: Db, scan: Scan, outcomes: seq<Outcome>, g: Group)
    requires SoundLineage(db.st) && ScanOk(scan) && |outcomes| == |PlanOf(db, scan)| && AllWritten(outcomes)
    requires g in scan.groups
    ensures GroupIsCurrent(Cycle(db, scan, outcomes).st.rows, scan.records, g)
  {
    SweptKeeps(db, scan);
    PlanIsReady(db, scan);
    if GroupIsCurrent(db.st.rows, scan.records, g) {
      SkippedStaysCurrent(db, scan, outcomes, g);
    } else {
      FoldedIsCurrent(db, scan, outcomes, g);
    }
  }

  /** Nothing in the cycle touches the row of a group that was not planned. */
  lemma SkippedStaysCurrent(db: Db, scan: Scan, outcomes: seq<Outcome>, g: Group)
    requires SoundLineage(db.st) && SoundLineage(Swept(db, scan).st) && |outcomes| == |PlanOf(db, scan)|
    requires ScanOk(scan) && Ready(Swept(db, scan).st.rows, PlanOf(db, scan))
    requires g in scan.groups && GroupIsCurrent(db.st.rows, scan.records, g)
    ensures GroupIsCurrent(FoldAll(Swept(db, scan), PlanOf(db, scan), outcomes).st.rows, scan.records, g)
  {
    var plan, swept := PlanOf(db, scan), Swept(db, scan);
    NotPlanned(db, scan, g);
    SweepFrame(db, scan, g.key);
    CurrentCarries(db.st.rows, swept.st, scan.records, g);
    CurrentThroughFolds(swept, plan, outcomes, scan.records, g);
  }

  lemma NotPlanned(db: Db, scan: Scan, g: Group)
    requires ScanOk(scan) && g in scan.groups && GroupIsCurrent(db.st.rows, scan.records, g)
    ensures KeyUnplanned(PlanOf(db, scan), g.key)
  {
    forall i | 0 <= i < |PlanOf(db, scan)| ensures PlanOf(db, scan)[i].item.key != g.key {
      var h := PlanItem(db, scan, i);
      SameGroup(scan.groups, g, h);
    }
  }

  lemma SameGroup(groups: seq<Group>, g: Group, h: Group)
    requires forall i, j :: 0 <= i < j < |groups| ==> groups[i].key != groups[j].key
    requires g in groups && h in groups
    ensures g.key == h.key ==> g == h
  {
  }

  lemma CurrentThroughFolds(
    db: Db, plan: seq<Planned>, outcomes: seq<Outcome>, records: map<int, Record>, g: Group)
    requires SoundLineage(db.st) && |outcomes| == |plan| && Ready(db.st.rows, plan) && KeyUnplanned(plan, g.key)
    requires GroupIsCurrent(db.st.rows, records, g)
    ensures GroupIsCurrent(FoldAll(db, plan, outcomes).st.rows, records, g)
  {
    FoldAllKeeps(db, plan, outcomes);
    FoldAllFrame(db, plan, outcomes, g.key);
    CurrentCarries(db.st.rows, FoldAll(db, plan, outcomes).st, records, g);
  }

  lemma CurrentCarries(rows: SummaryTable, st: State, records: map<int, Record>, g: Group)
    requires SoundLineage(st) && SameKeyRows(rows, st.rows, g.key) && GroupIsCurrent(rows, records, g)
    ensures GroupIsCurrent(st.rows, records, g)
  {
    SameActiveOf(rows, st, g.key);
  }

  /** The fold of a planned group leaves what it planned. */
  lemma FoldedIsCurrent(db: Db, scan: Scan, outcomes: seq<Outcome>, g: Group)
    requires SoundLineage(Swept(db, scan).st) && |outcomes| == |PlanOf(db, scan)| && AllWritten(outcomes)
    requires Ready(Swept(db, scan).st.rows, PlanOf(db, scan))
    requires g in scan.groups && !GroupIsCurrent(db.st.rows, scan.records, g)
    ensures GroupIsCurrent(FoldAll(Swept(db, scan), PlanOf(db, scan), outcomes).st.rows, scan.records, g)
  {
    var plan, swept := PlanOf(db, scan), Swept(db, scan);
    PlanMembers(db.st.rows, scan.versions.planning, scan.records, scan.groups);
    var p := PlanGroup(db.st.rows, scan.versions.planning, scan.records, g);
    assert p in plan;
    var i :| 0 <= i < |plan| && plan[i] == p;
    FoldAllWrites(swept, plan, outcomes, i);
    var time := TimeOf(swept.st.now, outcomes, i);
    WrittenIsCurrent(
      FoldAll(swept, plan, outcomes).st.rows, db.st.rows, scan.versions.planning, scan.records, g, time);
  }

  lemma WrittenIsCurrent(
    rows: SummaryTable, before: SummaryTable, docs: DocTable, records: map<int, Record>, g: Group, time: int)
    requires RowWritten(rows, PlanGroup(before, docs, records, g).item, time)
    ensures GroupIsCurrent(rows, records, g)
  {
  }

  // ---------- the plan, over the columns of the rows ----------

  /** The entities that the records of the members assert. */
  function MemberEntities(records: map<int, Record>, g: Group): set<string> {
    set m, e | m in g.members && m.id in records && e in records[m.id].entities :: e
  }

  function MemberIds(g: Group): set<int> {
    set m | m in g.members :: m.id
  }

  lemma RenderedColumns(records: map<int, Record>, g: Group)
    ensures Elems(Render(records, g.members).1) == MemberIds(g)
    ensures EntitiesOf(records, Render(records, g.members).1) == MemberEntities(records, g)
  {
    var ids := Render(records, g.members).1;
    RenderIds(records, g.members);
    forall x ensures x in ids <==> x in MemberIds(g) {
      if i :| 0 <= i < |g.members| && g.members[i].id == x { assert g.members[i] in g.members; }
    }
    forall e ensures e in EntitiesOf(records, ids) <==> e in MemberEntities(records, g) {
      if id :| id in ids && id in records && e in records[id].entities {
        var m :| m in g.members && m.id == id;
      }
      if m :| m in g.members && m.id in records && e in records[m.id].entities { assert m.id in MemberIds(g); }
    }
  }

  /**
   After a cycle whose folds all committed, the active row of every gating group has the text rendered now, exactly the
   members, and exactly their entities.
   */
  lemma CycleLeavesColumns(db: Db, scan: Scan, outcomes: seq<Outcome>, g: Group)
    requires SoundLineage(db.st) && ScanOk(scan) && |outcomes| == |PlanOf(db, scan)| && AllWritten(outcomes)
    requires g in scan.groups
    ensures var rows := Cycle(db, scan, outcomes).st.rows;
            && ActiveOf(rows, g.key).Some?
            && var row := rows[ActiveOf(rows, g.key).value];
               && row.content == Render(scan.records, g.members).0
               && Elems(row.sources) == MemberIds(g)
               && row.entities == MemberEntities(scan.records, g)
  {
    CycleLeavesCurrent(db, scan, outcomes, g);
    RenderedColumns(scan.records, g);
  }

  /** The active row of the key reads the same in both tables: its text, the set of its sources, its entities. */
  ghost predicate ReadsTheSame(rows: SummaryTable, rows': SummaryTable, key: Key) {
    ActiveOf(rows, key).Some? && ActiveOf(rows', key).Some?
    && var row, row' := rows[ActiveOf(rows, key).value], rows'[ActiveOf(rows', key).value];
       row'.content == row.content && Elems(row'.sources) == Elems(row.sources) && row'.entities == row.entities
  }

  /** A group is left out of the plan exactly when folding it would change none of those columns. */
  lemma SkippedExactly(db: Db, scan: Scan, g: Group, docs: DocTable)
    requires SoundLineage(db.st) && ScanOk(scan) && g in scan.groups
    ensures (forall p :: p in PlanOf(db, scan) ==> p.item.key != g.key) <==>
              ReadsTheSame(
                db.st.rows,
                Fold(db.st, docs, PlanGroup(db.st.rows, scan.versions.planning, scan.records, g).item).rows, g.key)
  {
    var rows, planning, records := db.st.rows, scan.versions.planning, scan.records;
    var p := PlanGroup(rows, planning, records, g);
    PlanGroupIsCurrent(rows, planning, records, g);
    FoldWrites(db.st, docs, p.item);
    PlanMembers(rows, planning, records, scan.groups);
    if GroupIsCurrent(rows, records, g) {
      NotPlanned(db, scan, g);
      forall q | q in PlanOf(db, scan) ensures q.item.key != g.key {
        var i :| 0 <= i < |PlanOf(db, scan)| && PlanOf(db, scan)[i] == q;
      }
    } else {
      assert p in PlanOf(db, scan);
    }
  }

  /**
   The fold of a group that has a row retires that row exactly when a record it held has left the group and is
   superseded; it then points at the row that is active now. Otherwise the same row stays active.
   */
  lemma SuccessionExactly(db: Db, scan: Scan, g: Group, docs: DocTable, prior: int)
    requires SoundLineage(db.st) && ActiveRow(db.st.rows, prior, g.key)
    ensures var planning := scan.versions.planning;
            var left := SupersededLeft(planning, db.st.rows[prior].sources, MemberIds(g));
            var out := Fold(db.st, docs, PlanGroup(db.st.rows, planning, scan.records, g).item).rows;
            && prior in out && ActiveOf(out, g.key).Some?
            && if left then out[prior].superseded && out[prior].reason == Lineage
                            && out[prior].successor == ActiveOf(out, g.key)
               else ActiveOf(out, g.key) == Some(prior)
  {
    var rows, planning := db.st.rows, scan.versions.planning;
    var item := PlanGroup(rows, planning, scan.records, g).item;
    OneActiveRowPerKey(db.st, prior, ActiveOf(rows, g.key).value, g.key);
    PlanGroupIsCurrent(rows, planning, scan.records, g);
    RenderedColumns(scan.records, g);
    RemovedExactly(planning, rows[prior].sources, item.sources, MemberIds(g));
    FoldWrites(db.st, docs, item);
    PriorAfterFold(db.st, docs, item, prior);
  }

  /** A record that was held and is no longer among the members has been superseded. */
  predicate SupersededLeft(docs: DocTable, before: seq<int>, members: set<int>) {
    exists m :: m in before && m !in members && m in docs && docs[m].superseded
  }

  lemma RemovedExactly(docs: DocTable, before: seq<int>, ids: seq<int>, members: set<int>)
    requires Elems(ids) == members
    ensures RemovedSuperseded(docs, before, ids) != {} <==> SupersededLeft(docs, before, members)
  {
    assert forall m :: m in ids <==> m in members;
    if m :| m in before && m !in members && m in docs && docs[m].superseded {
      assert m in RemovedSuperseded(docs, before, ids);
    }
    if RemovedSuperseded(docs, before, ids) != {} { var m := Pick(RemovedSuperseded(docs, before, ids)); }
  }

  lemma PriorAfterFold(st: State, docs: DocTable, item: FoldItem, prior: int)
    requires SoundLineage(st) && Current(st.rows, item) && item.prior == Some(prior)
    ensures var out := Fold(st, docs, item).rows;
            && prior in out && ActiveOf(out, item.key).Some?
            && if Succeeds(item) then out[prior].superseded && out[prior].reason == Lineage
                                      && out[prior].successor == ActiveOf(out, item.key)
               else ActiveOf(out, item.key) == Some(prior)
  {
    var out := Fold(st, docs, item);
    FoldKeepsLineage(st, docs, item);
    FoldWrote(st, docs, item);
    WriteRowCases(st, docs, item);
    OneActiveRowPerKey(out, WrittenId(st, item), ActiveOf(out.rows, item.key).value, item.key);
    if Succeeds(item) {
      assert st.nextId !in st.rows;
      LinkShape(Retire(st.rows, prior, st.now)[st.nextId := FreshRow(item, st.now)], docs, prior, st.nextId);
    }
  }

  lemma QuietPlan(out: Db, scan: Scan, again: Scan)
    requires ScanOk(scan) && SamePopulation(scan, again)
    requires forall h :: h in scan.groups ==> GroupIsCurrent(out.st.rows, scan.records, h)
    ensures PlanOf(out, again) == []
  {
    forall g | g in again.groups ensures GroupIsCurrent(out.st.rows, again.records, g) {
      var h :| h in scan.groups && Permuted(g, h);
      RenderIgnoresOrder(scan.records, h.members, g.members);
    }
    PlanMembers(out.st.rows, again.versions.planning, again.records, again.groups);
    HeadIsMember(PlanOf(out, again));
  }

  /**
   Quiescence: if every fold of a cycle committed and neither records nor graph changed, the next cycle
   plans no fold and retires nothing, whatever order its scan lists groups and members in.
   */
  lemma Quiescence(db: Db, scan: Scan, outcomes: seq<Outcome>, again: Scan)
    requires SoundLineage(db.st) && ScanOk(scan) && SamePopulation(scan, again)
    requires |outcomes| == |PlanOf(db, scan)| && AllWritten(outcomes)
    ensures PlanOf(Cycle(db, scan, outcomes), again) == []
    ensures var out := Cycle(db, scan, outcomes);
            Cycle(out, again, []).st.rows == out.st.rows && Cycle(out, again, []).st.nextId == out.st.nextId
  {
    var out := Cycle(db, scan, outcomes);
    forall h | h in scan.groups ensures GroupIsCurrent(out.st.rows, scan.records, h) {
      CycleLeavesCurrent(db, scan, outcomes, h);
    }
    QuietPlan(out, scan, again);
    NothingInvalidated(db, scan, outcomes, again);
    NothingToDo(out, again);
  }

  lemma NothingToDo(db: Db, scan: Scan)
    requires PlanOf(db, scan) == []
    requires InvalidatedIds(db.st.rows, scan.versions.sweeping, Thematic, GatingRows(db.st.rows, scan.groups)) == {}
    ensures Swept(db, scan).st.rows == db.st.rows
    ensures Cycle(db, scan, []).st == Swept(db, scan).st
    ensures Cycle(db, scan, []).st.nextId == db.st.nextId
  {
  }

  lemma NothingInvalidated(db: Db, scan: Scan, outcomes: seq<Outcome>, again: Scan)
    requires SoundLineage(db.st) && ScanOk(scan) && SamePopulation(scan, again)
    requires |outcomes| == |PlanOf(db, scan)|
    ensures var out := Cycle(db, scan, outcomes);
            InvalidatedIds(out.st.rows, again.versions.sweeping, Thematic, GatingRows(out.st.rows, again.groups)) == {}
  {
    var out := Cycle(db, scan, outcomes);
    SweptKeeps(db, scan);
    PlanIsReady(db, scan);
    FoldAllKeeps(Swept(db, scan), PlanOf(db, scan), outcomes);
    var docs := scan.versions.sweeping;
    forall id | id in out.st.rows && ActiveRow(out.st.rows, id, out.st.rows[id].key)
                && forall g :: g in scan.groups ==> g.key != out.st.rows[id].key
      ensures forall m :: m in out.st.rows[id].sources && m in docs ==> !docs[m].superseded
    {
      NonGatingKept(db, scan, outcomes, id);
    }
    OnlyGatingRowsHold(out.st, scan, again);
  }

  lemma OnlyGatingRowsHold(st: State, scan: Scan, again: Scan)
    requires SoundLineage(st) && SamePopulation(scan, again)
    requires var docs := scan.versions.sweeping;
             forall id :: id in st.rows && ActiveRow(st.rows, id, st.rows[id].key)
                          && (forall g :: g in scan.groups ==> g.key != st.rows[id].key) ==>
               forall m :: m in st.rows[id].sources && m in docs ==> !docs[m].superseded
    ensures InvalidatedIds(st.rows, again.versions.sweeping, Thematic, GatingRows(st.rows, again.groups)) == {}
  {
    forall id | id in st.rows && ActiveRow(st.rows, id, st.rows[id].key) && st.rows[id].key in GroupKeys(again.groups)
      ensures id in GatingRows(st.rows, again.groups)
    {
      GatingRowListed(st, again.groups, id);
    }
  }

  lemma GatingRowListed(st: State, groups: seq<Group>, id: int)
    requires SoundLineage(st) && id in st.rows && ActiveRow(st.rows, id, st.rows[id].key)
    requires st.rows[id].key in GroupKeys(groups)
    ensures id in GatingRows(st.rows, groups)
  {
    var g :| g in groups && g.key == st.rows[id].key;
    OneActiveRowPerKey(st, id, ActiveOf(st.rows, g.key).value, g.key);
    assert ActiveOf(st.rows, g.key).value in GatingRows(st.rows, groups);
  }

  /** An active row of a key that does not gate survived the sweep, so none of its members is superseded. */
  lemma NonGatingKept(db: Db, scan: Scan, outcomes: seq<Outcome>, id: int)
    requires SoundLineage(db.st) && ScanOk(scan) && |outcomes| == |PlanOf(db, scan)|
    requires var rows := Cycle(db, scan, outcomes).st.rows;
             id in rows && ActiveRow(rows, id, rows[id].key) && forall g :: g in scan.groups ==> g.key != rows[id].key
    ensures forall m :: m in Cycle(db, scan, outcomes).st.rows[id].sources && m in scan.versions.sweeping ==>
      !scan.versions.sweeping[m].superseded
    ensures ActiveRow(db.st.rows, id, Cycle(db, scan, outcomes).st.rows[id].key)
            && Cycle(db, scan, outcomes).st.rows[id] == db.st.rows[id]
  {
    var plan := PlanOf(db, scan);
    var swept := Swept(db, scan);
    var key := Cycle(db, scan, outcomes).st.rows[id].key;
    SweptKeeps(db, scan);
    PlanIsReady(db, scan);
    forall i | 0 <= i < |plan| ensures plan[i].item.key != key { var g := PlanItem(db, scan, i); }
    FoldAllFrame(swept, plan, outcomes, key);
    assert ActiveRow(swept.st.rows, id, key);
    var skip := GatingRows(db.st.rows, scan.groups);
    forall g | g in scan.groups && ActiveOf(db.st.rows, g.key).Some? ensures ActiveOf(db.st.rows, g.key).value != id {
      assert ActiveRow(db.st.rows, ActiveOf(db.st.rows, g.key).value, g.key);
    }
    assert !Invalidated(db.st.rows, scan.versions.sweeping, Thematic, skip, id);
  }
}
