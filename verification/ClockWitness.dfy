/**
 A run, from empty tables and through the partitioner at the shipped threshold, in which a member of a group folded in
 a fact cycle has an open refold row left when the cycle ends.
 */
module ClockWitness {
  import opened Tables
  import opened Succession
  import opened ByPgId
  import opened ThematicFold
  import opened RefoldLedger
  import opened FactCycle
  import opened RefoldClock
  import opened DreamRuns
  import Partitioner
  import GroupBy
  import Sections
  import Lines
  import Backlog
  import InsightCycle

  // ---------- scans of one and of two sections ----------

  function TextOf(): int -> string {
    (id: int) => "fact"
  }

  function RowsIn(key: Key, ids: seq<int>): seq<Partitioner.Row> {
    seq(|ids|, i requires 0 <= i < |ids| => Partitioner.Row(ids[i], key.project, key.section))
  }

  function MembersOf(ids: seq<int>): seq<Member<string>> {
    seq(|ids|, i requires 0 <= i < |ids| => Member(ids[i], "fact"))
  }

  function OneGroup(docs: DocTable, key: Key, ids: seq<int>): Scan {
    Scan(Still(docs), map[], [Group(key, MembersOf(ids))], Elems(ids))
  }

  function TwoGroups(docs: DocTable, keyA: Key, a: seq<int>, keyB: Key, b: seq<int>): Scan {
    Scan(Still(docs), map[], [Group(keyA, MembersOf(a)), Group(keyB, MembersOf(b))], Elems(a + b))
  }

  lemma RowsAre(key: Key, ids: seq<int>)
    ensures Partitioner.IdsOf(RowsIn(key, ids)) == ids
    ensures Sections.InSection(RowsIn(key, ids), key)
    ensures GroupBy.ToGroup(Sections.GroupOf(RowsIn(key, ids), TextOf(), key)) == Group(key, MembersOf(ids))
  {
  }

  /** The partitioner finds exactly this scan in the discovery rows of one section. */
  lemma OneIsDiscovered(docs: DocTable, key: Key, ids: seq<int>, threshold: nat)
    requires GroupBy.EligibleKey(key) && NoDup(ids) && ids != [] && |ids| >= threshold
    ensures OneGroup(docs, key, ids) == GroupBy.ScanOf(Still(docs), map[], RowsIn(key, ids), TextOf(), threshold)
  {
    var rows := RowsIn(key, ids);
    RowsAre(key, ids);
    Sections.OneSection(rows, key, TextOf(), threshold);
  }

  lemma IdsJoin(keyA: Key, a: seq<int>, keyB: Key, b: seq<int>)
    ensures Partitioner.IdsOf(RowsIn(keyA, a) + RowsIn(keyB, b)) == a + b
  {
  }

  lemma KeysOfRows(keyA: Key, a: seq<int>, keyB: Key, b: seq<int>, i: nat)
    requires i < |a| + |b|
    ensures Sections.KeyOf((RowsIn(keyA, a) + RowsIn(keyB, b))[i]) == if i < |a| then keyA else keyB
  {
  }

  lemma RowsApart(keyA: Key, a: seq<int>, keyB: Key, b: seq<int>)
    requires GroupBy.EligibleKey(keyA) && GroupBy.EligibleKey(keyB) && NoDup(a + b)
    ensures Sections.OneRowEach(RowsIn(keyA, a) + RowsIn(keyB, b))
  {
    var rows: seq<Partitioner.Row> := RowsIn(keyA, a) + RowsIn(keyB, b);
    IdsJoin(keyA, a, keyB, b);
    forall i, j | 0 <= i < j < |rows| ensures rows[i].pgId != rows[j].pgId {
      assert Partitioner.IdsOf(rows)[i] != Partitioner.IdsOf(rows)[j];
    }
    forall i | 0 <= i < |rows| ensures GroupBy.EligibleKey(Sections.KeyOf(rows[i])) {
      KeysOfRows(keyA, a, keyB, b, i);
    }
  }

  /** And of two, the first of them discovered first. */
  lemma TwoAreDiscovered(docs: DocTable, keyA: Key, a: seq<int>, keyB: Key, b: seq<int>, threshold: nat)
    requires GroupBy.EligibleKey(keyA) && GroupBy.EligibleKey(keyB) && keyA != keyB
    requires NoDup(a + b) && a != [] && b != [] && |a| >= threshold && |b| >= threshold
    ensures TwoGroups(docs, keyA, a, keyB, b)
         == GroupBy.ScanOf(Still(docs), map[], RowsIn(keyA, a) + RowsIn(keyB, b), TextOf(), threshold)
  {
    var first, second := RowsIn(keyA, a), RowsIn(keyB, b);
    RowsAre(keyA, a);
    RowsAre(keyB, b);
    RowsApart(keyA, a, keyB, b);
    IdsJoin(keyA, a, keyB, b);
    Sections.TwoSections(first, second, keyA, keyB, TextOf(), threshold);
    ToTwoGroups(Sections.GroupOf(first, TextOf(), keyA), Sections.GroupOf(second, TextOf(), keyB));
  }

  lemma ToTwoGroups(x: (Key, Partitioner.Bucket), y: (Key, Partitioner.Bucket))
    ensures GroupBy.ToGroups([x, y]) == [GroupBy.ToGroup(x), GroupBy.ToGroup(y)]
  {
  }

  lemma SourcesAre(ids: seq<int>)
    requires Ascending(ids)
    ensures DistinctIds(MembersOf(ids)) && Render(map[], MembersOf(ids)).1 == ids
  {
    SortedStays(MembersOf(ids));
  }

  lemma OneIsOk(docs: DocTable, key: Key, ids: seq<int>)
    requires Ascending(ids)
    ensures ScanOk(OneGroup(docs, key, ids))
  {
    SourcesAre(ids);
  }

  lemma TwoAreOk(docs: DocTable, keyA: Key, a: seq<int>, keyB: Key, b: seq<int>)
    requires Ascending(a) && Ascending(b) && keyA != keyB
    ensures ScanOk(TwoGroups(docs, keyA, a, keyB, b))
  {
    SourcesAre(a);
    SourcesAre(b);
  }

  // ---------- the first cycle ----------

  const START := Db(EMPTY, [])

  lemma PlanMore(rows: SummaryTable, docs: DocTable, g: Group, rest: seq<Group>)
    requires !GroupIsCurrent(rows, map[], g)
    ensures Plan(rows, docs, map[], [g] + rest) == [PlanGroup(rows, docs, map[], g)] + Plan(rows, docs, map[], rest)
    ensures Plan(rows, docs, map[], [g]) == [PlanGroup(rows, docs, map[], g)]
  {
    assert ([g] + rest)[1..] == rest && [g][1..] == [];
    assert [PlanGroup(rows, docs, map[], g)] + [] == [PlanGroup(rows, docs, map[], g)];
  }

  lemma FirstPlan(docs: DocTable, key: Key, ids: seq<int>)
    requires Ascending(ids)
    ensures var scan := OneGroup(docs, key, ids);
            PlanOf(START, scan) == [PlanGroup(map[], docs, map[], scan.groups[0])]
  {
    var scan := OneGroup(docs, key, ids);
    assert ActiveOf(START.st.rows, key).None?;
    assert !GroupIsCurrent(START.st.rows, map[], scan.groups[0]);
    PlanMore(START.st.rows, docs, scan.groups[0], []);
  }

  /** A table whose one row is this section's summary. */
  ghost predicate OneRow(db: Db, key: Key, ids: seq<int>) {
    db.st.rows.Keys == {0} && ActiveRow(db.st.rows, 0, key) && db.st.rows[0].sources == ids
  }

  lemma SweptStart(scan: Scan)
    ensures Swept(START, scan).st == State(map[], 0, 1)
  {
    SameTable(Swept(START, scan).st.rows, map[]);
  }

  /** The first fold of an empty table. */
  lemma FirstFold(db: Db, docs: DocTable, planned: Planned)
    requires db.st == State(map[], 0, 1) && planned.item.prior.None?
    ensures OneRow(FoldOne(db, planned, Outcome.Written(docs)), planned.item.key, planned.item.sources)
  {
    FoldWrote(db.st, docs, planned.item);
    WriteRowCases(db.st, docs, planned.item);
  }

  lemma FirstCycle(docs: DocTable, key: Key, ids: seq<int>)
    requires Ascending(ids)
    ensures |PlanOf(START, OneGroup(docs, key, ids))| == 1
    ensures OneRow(Partial(START, OneGroup(docs, key, ids), [Outcome.Written(docs)], Stop(1, 3)), key, ids)
  {
    var scan := OneGroup(docs, key, ids);
    FirstPlan(docs, key, ids);
    SourcesAre(ids);
    SweptStart(scan);
    var plan, swept := PlanOf(START, scan), Swept(START, scan);
    assert plan[0].item.prior.None? && plan[0].item.sources == ids && plan[0].item.key == key;
    FirstFold(swept, docs, plan[0]);
    assert plan[1..] == [] && [Outcome.Written(docs)][1..] == [];
    assert FoldAll(swept, plan, [Outcome.Written(docs)]) == FoldOne(swept, plan[0], Outcome.Written(docs));
  }

  // ---------- the second cycle ----------

  /** Record m moved from section b to section a; record s, which b's summary holds, left and was superseded. */
  predicate Moved(docs: DocTable, before: seq<int>, a: seq<int>, b: seq<int>, m: int, s: int) {
    m in before && m in a && m !in b && m in docs && !docs[m].superseded
    && s in before && s !in b && s in docs && docs[s].superseded
  }

  lemma OneActive(db: Db, keyA: Key, keyB: Key, before: seq<int>)
    requires OneRow(db, keyB, before) && keyA != keyB
    ensures ActiveOf(db.st.rows, keyA).None? && ActiveOf(db.st.rows, keyB) == Some(0)
  {
    assert forall id :: id in db.st.rows ==> id == 0;
  }

  lemma BothNotCurrent(db: Db, docs: DocTable, keyA: Key, a: seq<int>, keyB: Key, b: seq<int>, before: seq<int>, m: int)
    requires OneRow(db, keyB, before) && keyA != keyB && Ascending(a) && Ascending(b) && m in before && m !in b
    ensures var groups := TwoGroups(docs, keyA, a, keyB, b).groups;
            !GroupIsCurrent(db.st.rows, map[], groups[0]) && !GroupIsCurrent(db.st.rows, map[], groups[1])
  {
    OneActive(db, keyA, keyB, before);
    SourcesAre(b);
    assert m in Elems(before) && m !in Elems(b);
  }

  lemma PlanOfTwo(rows: SummaryTable, docs: DocTable, x: Group, y: Group)
    requires !GroupIsCurrent(rows, map[], x) && !GroupIsCurrent(rows, map[], y)
    ensures Plan(rows, docs, map[], [x, y]) == [PlanGroup(rows, docs, map[], x), PlanGroup(rows, docs, map[], y)]
  {
    PlanMore(rows, docs, x, [y]);
    PlanMore(rows, docs, y, []);
    assert [x] + [y] == [x, y];
  }

  function BothWritten(docs: DocTable): seq<Outcome> {
    [Outcome.Written(docs), Outcome.Written(docs)]
  }

  /** Section b's succession stands for m, after the only fold that holds it. */
  lemma MovedIsReopened(
    db: Db, docs: DocTable, keyA: Key, a: seq<int>, keyB: Key, b: seq<int>, before: seq<int>, m: int, s: int)
    requires OneRow(db, keyB, before) && keyA != keyB && Ascending(a) && Ascending(b) && Moved(docs, before, a, b, m, s)
    ensures var plan, outcomes := PlanOf(db, TwoGroups(docs, keyA, a, keyB, b)), BothWritten(docs);
            |plan| == 2 && FoldedHere(plan, outcomes, 0, m) && ReopenedAfter(plan, outcomes, m, 1)
  {
    var groups := TwoGroups(docs, keyA, a, keyB, b).groups;
    BothNotCurrent(db, docs, keyA, a, keyB, b, before, m);
    PlanOfTwo(db.st.rows, docs, groups[0], groups[1]);
    OneActive(db, keyA, keyB, before);
    SourcesAre(a);
    SourcesAre(b);
    var q := PlanGroup(db.st.rows, docs, map[], groups[1]);
    assert q.priorSources == before && s in q.item.removed;
    assert Resolve(docs, m, 1) == (m, false);
    assert m in Standing(docs, before);
  }

  // ---------- the run ----------

  const IDENT := Backlog.Identity("pool", 8192, 2048, "boot")

  const FIRST := World(InsightCycle.Daemon(EMPTY, map[], {}, IDENT, 0, 0, []), [])

  /**
   Two completed fact cycles from empty tables: the first folds section b, the second sections a and b. Whenever a
   record moved to a in between while b's summary also lost a superseded one, the moved record is folded into a and
   still has an open row when the second cycle ends.
   */
  lemma MovedIsLeftOpen(
    docs1: DocTable, before: seq<int>, docs2: DocTable, keyA: Key, a: seq<int>, keyB: Key, b: seq<int>, m: int, s: int)
    returns (trace: seq<World>, events: seq<Event>)
    requires Ascending(before) && Ascending(a) && Ascending(b) && keyA != keyB && Moved(docs2, before, a, b, m, s)
    ensures IsRun(trace, events) && |trace| == 3 && |events| == 2
    ensures events[0] == FactEvent(OneGroup(docs1, keyB, before), true, [Outcome.Written(docs1)], Stop(1, 3))
    ensures events[1]
         == FactEvent(TwoGroups(docs2, keyA, a, keyB, b), true, BothWritten(docs2), Stop(2, 3))
    ensures |PlanOf(DbOf(trace[1]), events[1].scan)| == |events[1].outcomes|
            && FoldedHere(PlanOf(DbOf(trace[1]), events[1].scan), events[1].outcomes, 0, m)
    ensures LeftOpen(trace[2].ledger, m)
  {
    OneIsOk(docs1, keyB, before);
    TwoAreOk(docs2, keyA, a, keyB, b);
    FirstCycle(docs1, keyB, before);
    var x := FactEvent(OneGroup(docs1, keyB, before), true, [Outcome.Written(docs1)], Stop(1, 3));
    var y := FactEvent(TwoGroups(docs2, keyA, a, keyB, b), true, BothWritten(docs2), Stop(2, 3));
    var second := After(FIRST, x);
    MovedIsReopened(DbOf(second), docs2, keyA, a, keyB, b, before, m, s);
    var third := After(second, y);
    TwoEventsRun(FIRST, x, second, y, third);
    trace, events := [FIRST, second, third], [x, y];
    ReachableLeftOpenExactly(trace, events, 1, m);
  }

  /** The same, with both scans found by the partitioner in discovery rows of the two sections. */
  lemma DiscoveredIsLeftOpen(
    docs1: DocTable, before: seq<int>, docs2: DocTable, keyA: Key, a: seq<int>, keyB: Key, b: seq<int>, m: int, s: int,
    threshold: nat)
    returns (trace: seq<World>, events: seq<Event>)
    requires Ascending(before) && Ascending(a) && Ascending(b) && NoDup(a + b) && Moved(docs2, before, a, b, m, s)
    requires GroupBy.EligibleKey(keyA) && GroupBy.EligibleKey(keyB) && keyA != keyB
    requires |before| >= threshold && |a| >= threshold && |b| >= threshold > 0
    ensures IsRun(trace, events) && |trace| == 3 && |events| == 2 && events[0].FactEvent? && events[1].FactEvent?
    ensures events[0].scan == GroupBy.ScanOf(Still(docs1), map[], RowsIn(keyB, before), TextOf(), threshold)
    ensures events[1].scan
         == GroupBy.ScanOf(Still(docs2), map[], RowsIn(keyA, a) + RowsIn(keyB, b), TextOf(), threshold)
    ensures |PlanOf(DbOf(trace[1]), events[1].scan)| == |events[1].outcomes|
            && FoldedHere(PlanOf(DbOf(trace[1]), events[1].scan), events[1].outcomes, 0, m)
    ensures LeftOpen(trace[2].ledger, m)
  {
    OneIsDiscovered(docs1, keyB, before, threshold);
    TwoAreDiscovered(docs2, keyA, a, keyB, b, threshold);
    trace, events := MovedIsLeftOpen(docs1, before, docs2, keyA, a, keyB, b, m, s);
  }

  // ---------- one instance, at the shipped threshold ----------

  /** consolidation.density_threshold */
  const THRESHOLD: nat := 3

  const STANDING := Doc(Fact, false, None, {}, None)

  const FIRST_DOCS: DocTable := map[1 := STANDING, 2 := STANDING, 3 := STANDING]

  /** Later fact 2 is superseded, fact 1 has moved to section a, and both sections have new facts. */
  const SECOND_DOCS: DocTable := map[
    1 := STANDING, 2 := STANDING.(superseded := true), 3 := STANDING, 4 := STANDING, 5 := STANDING, 6 := STANDING,
    7 := STANDING]

  lemma NamedMayFold(project: string, section: string)
    requires Lines.Trimmed(project) && Lines.Trimmed(section) && project != "" && section != ""
    requires project != "general_discussion"
    ensures GroupBy.EligibleKey(Key(project, section))
  {
    Lines.StripTrimmed(project);
    Lines.StripTrimmed(section);
  }

  lemma InstanceMoved()
    ensures Moved(SECOND_DOCS, [1, 2, 3], [1, 4, 5], [3, 6, 7], 1, 2)
  {
  }

  lemma InstanceAscends()
    ensures Ascending([1, 2, 3]) && Ascending([1, 4, 5]) && Ascending([3, 6, 7]) && NoDup([1, 4, 5] + [3, 6, 7])
  {
    assert [1, 4, 5] + [3, 6, 7] == [1, 4, 5, 3, 6, 7];
  }

  lemma InstanceKeys()
    ensures GroupBy.EligibleKey(Key("p", "a")) && GroupBy.EligibleKey(Key("p", "b")) && Key("p", "a") != Key("p", "b")
  {
    NamedMayFold("p", "a");
    NamedMayFold("p", "b");
    assert "a"[0] != "b"[0];
  }

  /**
   With three facts a section, as the shipped threshold asks: fact 1 is folded into section a in the second cycle of a
   run, and a refold row for it is open when that ends.
   */
  lemma FoldedMemberLeftOpen() returns (trace: seq<World>, events: seq<Event>)
    ensures IsRun(trace, events) && |trace| == 3 && |events| == 2 && events[1].FactEvent?
    ensures |PlanOf(DbOf(trace[1]), events[1].scan)| == |events[1].outcomes|
            && FoldedHere(PlanOf(DbOf(trace[1]), events[1].scan), events[1].outcomes, 0, 1)
    ensures LeftOpen(trace[2].ledger, 1)
  {
    InstanceAscends();
    InstanceMoved();
    InstanceKeys();
    trace, events := DiscoveredIsLeftOpen(
      FIRST_DOCS, [1, 2, 3], SECOND_DOCS, Key("p", "a"), [1, 4, 5], Key("p", "b"), [3, 6, 7], 1, 2, THRESHOLD);
  }
}
