/**
 Thematic succession: writing a fold retires, replaces or updates the active row of its
 (project, section) key, links the retired row to its successor and re-points the insights.
 */
module Succession {
  import opened Tables
  import opened Chain
  import opened Repoint

  datatype State = State(rows: SummaryTable, nextId: int, now: int)

  // ---------- the statements ----------

  predicate ActiveRow(rows: SummaryTable, id: int, key: Key) {
    id in rows && rows[id].kind == Thematic && rows[id].key == key && !rows[id].superseded
  }

  ghost function ActiveOf(rows: SummaryTable, key: Key): Option<int> {
    if exists id :: ActiveRow(rows, id, key) then var id :| ActiveRow(rows, id, key); Some(id) else None
  }

  function RetiredRow(row: Summary, now: int): Summary {
    row.(superseded := true, reason := Lineage, retiredAt := now)
  }

  /** UPDATE ... SET superseded = true, superseded_reason = 'lineage' WHERE id = ? AND NOT superseded. */
  function Retire(rows: SummaryTable, id: int, now: int): SummaryTable {
    if IsActive(rows, id)
    then rows[id := RetiredRow(rows[id], now)]
    else rows
  }

  /** The same for every id of a set, as one transaction. */
  function RetireAll(rows: SummaryTable, ids: set<int>, now: int): SummaryTable {
    map id | id in rows :: if id in ids && !rows[id].superseded then RetiredRow(rows[id], now) else rows[id]
  }

  /** Lineage-retired on this key and not yet linked: a candidate of the re-gate link. */
  predicate Unlinked(rows: SummaryTable, id: int, key: Key) {
    LineageRetired(rows, id) && rows[id].kind == Thematic && rows[id].key == key && rows[id].successor.None?
  }

  predicate NotOlder(rows: SummaryTable, a: int, b: int)
    requires a in rows && b in rows
  {
    rows[b].retiredAt < rows[a].retiredAt || (rows[b].retiredAt == rows[a].retiredAt && b <= a)
  }

  /** ORDER BY superseded_at DESC, id DESC LIMIT 1. */
  ghost predicate NewestUnlinked(rows: SummaryTable, id: int, key: Key) {
    Unlinked(rows, id, key) && forall x :: Unlinked(rows, x, key) ==> NotOlder(rows, id, x)
  }

  /**
   One fold of the cycle. `prior` is the active row read at cycle start; `removed` the superseded facts that left it.
   */
  datatype FoldItem = FoldItem(
    key: Key, content: string, sources: seq<int>, entities: set<string>, prior: Option<int>, removed: set<int>)

  predicate Succeeds(item: FoldItem) {
    item.prior.Some? && item.removed != {}
  }

  function FreshRow(item: FoldItem, now: int): Summary {
    Summary(Thematic, item.key, item.content, item.sources, item.entities, [], [], false, NotRetired, 0, None, now)
  }

  function UpdatedRow(row: Summary, item: FoldItem, now: int): Summary {
    row.(content := item.content, sources := item.sources, entities := item.entities, foldedAt := now)
  }

  /** INSERT ... ON CONFLICT on the active row of the key DO UPDATE. */
  ghost function Upsert(st: State, item: FoldItem): State {
    match ActiveOf(st.rows, item.key)
    case Some(id) => st.(rows := st.rows[id := UpdatedRow(st.rows[id], item, st.now)])
    case None => State(st.rows[st.nextId := FreshRow(item, st.now)], st.nextId + 1, st.now)
  }

  /** The id RETURNING gives. */
  ghost function UpsertId(st: State, item: FoldItem): int {
    match ActiveOf(st.rows, item.key)
    case Some(id) => id
    case None => st.nextId
  }

  /** The link after the upsert: the row just retired, or the newest unlinked one when a row was inserted. */
  ghost function Linked(rows: SummaryTable, docs: DocTable, item: FoldItem, id: int, inserted: bool): SummaryTable {
    if Succeeds(item) then Link(rows, docs, item.prior.value, id)
    else if inserted && exists x :: NewestUnlinked(rows, x, item.key) then
      var x :| NewestUnlinked(rows, x, item.key);
      Link(rows, docs, x, id)
    else rows
  }

  predicate Covered(
    rows: SummaryTable, id: int, newId: int, sources: seq<int>, kind: Kind, project: string, section: Option<string>) {
    id in rows && id != newId && !rows[id].superseded && rows[id].kind == kind
    && rows[id].key.project == project && (section.Some? ==> rows[id].key.section == section.value)
    && rows[id].sources != [] && Elems(rows[id].sources) <= Elems(sources)
  }

  /** supersede_covered_summaries: subset or equal, same kind, same project, and same section for a thematic fold. */
  function Cover(
    rows: SummaryTable, newId: int, sources: seq<int>, kind: Kind, project: string, section: Option<string>, now: int)
    : SummaryTable {
    map id | id in rows ::
      if Covered(rows, id, newId, sources, kind, project, section)
      then rows[id].(superseded := true, reason := Coverage, retiredAt := now)
      else rows[id]
  }

  /** The prior row is retired first, when superseded facts left it. */
  function BeforeUpsert(st: State, item: FoldItem): State {
    if Succeeds(item) then st.(rows := Retire(st.rows, item.prior.value, st.now)) else st
  }

  /** _write_summary before the coverage pass. */
  ghost function WriteRow(st: State, docs: DocTable, item: FoldItem): State {
    var retired := BeforeUpsert(st, item);
    var id := UpsertId(retired, item);
    var written := Upsert(retired, item);
    written.(rows := Linked(written.rows, docs, item, id, ActiveOf(retired.rows, item.key).None?))
  }

  ghost function WrittenId(st: State, item: FoldItem): int {
    UpsertId(BeforeUpsert(st, item), item)
  }

  /** The whole fold transaction: _write_summary, then the same-section coverage pass, then commit. */
  ghost function Fold(st: State, docs: DocTable, item: FoldItem): State {
    var written := WriteRow(st, docs, item);
    State(
      Cover(written.rows, WrittenId(st, item), item.sources, Thematic, item.key.project, Some(item.key.section),
        st.now),
      written.nextId, st.now + 1)
  }

  // ---------- the invariant of every reachable table ----------

  /** A thematic row with no successor: its key's active row, or the last one retired. */
  predicate Tail(rows: SummaryTable, id: int, key: Key) {
    id in rows && rows[id].kind == Thematic && rows[id].key == key && rows[id].successor.None?
  }

  predicate RowOk(rows: SummaryTable, id: int)
    requires id in rows
  {
    var row := rows[id];
    (row.superseded <==> row.reason != NotRetired)
    && (row.kind == Thematic ==> row.reason != Coverage)
    && (row.successor.Some? ==>
          row.kind == Thematic && row.superseded && id < row.successor.value && row.successor.value in rows
          && rows[row.successor.value].kind == Thematic && rows[row.successor.value].key == row.key)
  }

  ghost predicate SoundLineage(st: State) {
    0 <= st.nextId
    && (forall id :: id in st.rows ==> 0 <= id < st.nextId && RowOk(st.rows, id))
    && (forall a, b, key :: Tail(st.rows, a, key) && Tail(st.rows, b, key) ==> a == b)
  }

  /** At most one active row per (project, section) key. */
  lemma OneActiveRowPerKey(st: State, a: int, b: int, key: Key)
    requires SoundLineage(st) && ActiveRow(st.rows, a, key) && ActiveRow(st.rows, b, key)
    ensures a == b
  {
    assert Tail(st.rows, a, key) && Tail(st.rows, b, key);
  }

  /** From any row of a key, successors lead to that key's tail. */
  lemma {:induction false} ReachesTail(st: State, id: int) returns (n: nat, tail: int)
    requires SoundLineage(st) && id in st.rows && st.rows[id].kind == Thematic
    ensures Tail(st.rows, tail, st.rows[id].key) && Hops(st.rows, id, n) == Some(tail)
    decreases st.nextId - id
  {
    match st.rows[id].successor {
      case None => n, tail := 0, id;
      case Some(next) =>
        n, tail := ReachesTail(st, next);
        HopsShift(st.rows, id, n);
        n := n + 1;
    }
  }

  /** If a key has an active row, every retired row of that key leads to exactly that row. */
  lemma ChainEndsAtActiveRow(st: State, retired: int, active: int)
    requires SoundLineage(st) && retired in st.rows && st.rows[retired].kind == Thematic
    requires ActiveRow(st.rows, active, st.rows[retired].key)
    ensures ActiveEnd(st.rows, retired) == Some(active)
  {
    var n, tail := ReachesTail(st, retired);
    assert Tail(st.rows, active, st.rows[retired].key);
    assert LeadsTo(st.rows, retired, active);
    ActiveEndUnique(st.rows, retired, active);
  }

  /** And if it has none, no retired row of that key leads anywhere active. */
  lemma NoActiveRowNoEnd(st: State, retired: int)
    requires SoundLineage(st) && retired in st.rows && st.rows[retired].kind == Thematic
    requires ActiveOf(st.rows, st.rows[retired].key).None?
    ensures ActiveEnd(st.rows, retired).None?
  {
    if ActiveEnd(st.rows, retired).Some? {
      var end := ActiveEnd(st.rows, retired).value;
      var n: nat :| Hops(st.rows, retired, n) == Some(end);
      HopsKeepKey(st, retired, n);
      assert ActiveRow(st.rows, end, st.rows[retired].key);
    }
  }

  lemma {:induction false} HopsKeepKey(st: State, id: int, n: nat)
    requires SoundLineage(st) && id in st.rows && st.rows[id].kind == Thematic
    ensures Hops(st.rows, id, n).Some? ==>
              var at := Hops(st.rows, id, n).value;
              at in st.rows && st.rows[at].kind == Thematic && st.rows[at].key == st.rows[id].key && id <= at
  {
    if n == 0 {
    } else {
      HopsKeepKey(st, id, n - 1);
      match Hops(st.rows, id, n - 1) {
        case None =>
        case Some(at) => assert RowOk(st.rows, at);
      }
    }
  }

  // ---------- what any later table owes an earlier one ----------

  /** Rows never vanish, retirement is final, a retired row is frozen and its successor is written once. */
  predicate Evolves(rows: SummaryTable, rows': SummaryTable) {
    forall id :: id in rows ==>
      id in rows' && rows'[id].kind == rows[id].kind && rows'[id].key == rows[id].key
      && (rows[id].superseded ==>
            rows'[id].(successor := rows[id].successor) == rows[id])
      && (rows[id].successor.Some? ==> rows'[id].successor == rows[id].successor)
  }

  lemma EvolvesTransitive(a: SummaryTable, b: SummaryTable, c: SummaryTable)
    requires Evolves(a, b) && Evolves(b, c)
    ensures Evolves(a, c)
  {
    forall id | id in a
      ensures id in c && c[id].kind == a[id].kind && c[id].key == a[id].key
              && (a[id].superseded ==> c[id].(successor := a[id].successor) == a[id])
              && (a[id].successor.Some? ==> c[id].successor == a[id].successor)
    {
      assert id in b;
    }
  }

  // ---------- the fold keeps the invariant ----------

  /** The caller's snapshot: `prior` is the key's active row, or there is none. */
  ghost predicate Current(rows: SummaryTable, item: FoldItem) {
    match item.prior
    case Some(id) => ActiveRow(rows, id, item.key)
    case None => forall id :: !ActiveRow(rows, id, item.key)
  }

  lemma ActiveOfIs(st: State, item: FoldItem)
    requires SoundLineage(st) && Current(st.rows, item)
    ensures ActiveOf(st.rows, item.key) == item.prior
  {
    if item.prior.Some? {
      OneActiveRowPerKey(st, item.prior.value, ActiveOf(st.rows, item.key).value, item.key);
    }
  }

  /** A link changes the successor of one row and the citations of active insights, nothing else. */
  lemma LinkShape(rows: SummaryTable, docs: DocTable, oldId: int, newId: int)
    ensures Link(rows, docs, oldId, newId).Keys == rows.Keys
    ensures forall id :: id in rows ==>
              var linked := Link(rows, docs, oldId, newId)[id];
              && (id == oldId ==> linked.successor == Some(newId))
              && (id != oldId ==> linked.successor == rows[id].successor)
              && linked.(successor := rows[id].successor, summaryIds := rows[id].summaryIds) == rows[id]
              && (rows[id].kind == Thematic || rows[id].superseded ==> linked.summaryIds == rows[id].summaryIds)
  {
  }

  /** The table after the fold, in the three ways it can go. */
  lemma WriteRowCases(st: State, docs: DocTable, item: FoldItem)
    requires SoundLineage(st) && Current(st.rows, item)
    ensures var id := WrittenId(st, item);
            var out := WriteRow(st, docs, item);
            if Succeeds(item) then
              id == st.nextId && out
                == State(Link(Retire(st.rows, item.prior.value, st.now)[id := FreshRow(item, st.now)], docs,
                  item.prior.value, id), id + 1, st.now)
            else if item.prior.Some? then
              id == item.prior.value && out == st.(rows := st.rows[id := UpdatedRow(st.rows[id], item, st.now)])
            else
              id == st.nextId && out.nextId == id + 1 && out.now == st.now
              && var inserted := st.rows[id := FreshRow(item, st.now)];
                 ((forall x :: !Tail(st.rows, x, item.key)) && out.rows == inserted)
                 || exists x :: Tail(st.rows, x, item.key) && LineageRetired(st.rows, x) && out.rows == Link(inserted,
                   docs, x, id)
  {
    ActiveOfIs(st, item);
    if Succeeds(item) {
      var retired := st.(rows := Retire(st.rows, item.prior.value, st.now));
      assert ActiveOf(retired.rows, item.key).None? by {
        if ActiveOf(retired.rows, item.key).Some? {
          var x := ActiveOf(retired.rows, item.key).value;
          assert ActiveRow(st.rows, x, item.key);
          OneActiveRowPerKey(st, item.prior.value, x, item.key);
        }
      }
    } else if item.prior.None? {
      var id := st.nextId;
      var inserted := st.rows[id := FreshRow(item, st.now)];
      assert id !in st.rows;
      forall x | Unlinked(inserted, x, item.key) ensures Tail(st.rows, x, item.key) && LineageRetired(st.rows, x) {
      }
      forall x | Tail(st.rows, x, item.key) ensures NewestUnlinked(inserted, x, item.key) {
        assert RowOk(st.rows, x);
        assert !ActiveRow(st.rows, x, item.key);
        forall y | Unlinked(inserted, y, item.key) ensures y == x { assert Tail(st.rows, y, item.key); }
      }
    }
  }

  /** Columns the lineage invariant reads are those of `a` in `b`. */
  predicate SameLineageColumns(a: Summary, b: Summary) {
    a.kind == b.kind && a.key == b.key && a.superseded == b.superseded && a.reason == b.reason
      && a.successor == b.successor
  }

  /** A fresh active row joins the table and the tail `last` of its key, if any, points at it. */
  lemma InsertKeepsLineage(st: State, key: Key, last: Option<int>, out: SummaryTable)
    requires SoundLineage(st)
    requires out.Keys == st.rows.Keys + {st.nextId}
    requires ActiveRow(out, st.nextId, key) && out[st.nextId].successor.None? && out[st.nextId].reason == NotRetired
    requires forall x :: Tail(st.rows, x, key) ==> last == Some(x)
    requires forall id :: id in st.rows && last != Some(id) ==> SameLineageColumns(out[id], st.rows[id])
    requires last.Some? ==> Tail(st.rows, last.value, key) && LineageRetired(out, last.value)
                            && out[last.value].successor == Some(st.nextId)
                            && out[last.value].kind == Thematic && out[last.value].key == key
    ensures SoundLineage(State(out, st.nextId + 1, st.now))
  {
    assert st.nextId !in st.rows;
    forall id | id in out ensures RowOk(out, id) {
      if id in st.rows { assert RowOk(st.rows, id); }
    }
    forall a, b, k | Tail(out, a, k) && Tail(out, b, k) ensures a == b {
      assert a != st.nextId ==> Tail(st.rows, a, k);
      assert b != st.nextId ==> Tail(st.rows, b, k);
    }
  }

  lemma UpdateKeepsLineage(st: State, out: SummaryTable)
    requires SoundLineage(st) && out.Keys == st.rows.Keys
    requires forall id :: id in st.rows ==> SameLineageColumns(out[id], st.rows[id])
    ensures SoundLineage(st.(rows := out))
  {
    forall id | id in out ensures RowOk(out, id) { assert RowOk(st.rows, id); }
    forall a, b, k | Tail(out, a, k) && Tail(out, b, k) ensures a == b {
      assert Tail(st.rows, a, k) && Tail(st.rows, b, k);
    }
  }

  /** Retire `last`'s claim on the key in favour of the fresh row: the shape shared by succession and re-gate link. */
  lemma LinkedInsertKeepsLineage(st: State, docs: DocTable, item: FoldItem, before: SummaryTable, last: int)
    requires SoundLineage(st) && Tail(st.rows, last, item.key)
    requires before == st.rows || before == Retire(st.rows, last, st.now)
    requires LineageRetired(before, last)
    requires forall id :: !ActiveRow(before, id, item.key)
    ensures var out := Link(before[st.nextId := FreshRow(item, st.now)], docs, last, st.nextId);
            SoundLineage(State(out, st.nextId + 1, st.now)) && Evolves(st.rows, out)
              && ActiveRow(out, st.nextId, item.key)
  {
    var out := Link(before[st.nextId := FreshRow(item, st.now)], docs, last, st.nextId);
    LinkedInsertEvolves(st, docs, item, before, last);
    LinkShape(before[st.nextId := FreshRow(item, st.now)], docs, last, st.nextId);
    forall x | Tail(st.rows, x, item.key) ensures x == last {}
    InsertKeepsLineage(st, item.key, Some(last), out);
  }

  lemma LinkedInsertEvolves(st: State, docs: DocTable, item: FoldItem, before: SummaryTable, last: int)
    requires SoundLineage(st) && Tail(st.rows, last, item.key)
    requires before == st.rows || before == Retire(st.rows, last, st.now)
    ensures var out := Link(before[st.nextId := FreshRow(item, st.now)], docs, last, st.nextId);
            Evolves(st.rows, out) && ActiveRow(out, st.nextId, item.key)
  {
    assert st.nextId !in st.rows;
    LinkShape(before[st.nextId := FreshRow(item, st.now)], docs, last, st.nextId);
  }

  lemma WriteRowKeepsLineage(st: State, docs: DocTable, item: FoldItem)
    requires SoundLineage(st) && Current(st.rows, item)
    ensures SoundLineage(WriteRow(st, docs, item))
    ensures Evolves(st.rows, WriteRow(st, docs, item).rows)
    ensures ActiveRow(WriteRow(st, docs, item).rows, WrittenId(st, item), item.key)
  {
    WriteRowCases(st, docs, item);
    var out := WriteRow(st, docs, item).rows;
    assert st.nextId !in st.rows;
    if Succeeds(item) {
      RetiredHasNoActive(st, item);
      LinkedInsertKeepsLineage(st, docs, item, Retire(st.rows, item.prior.value, st.now), item.prior.value);
    } else if item.prior.Some? {
      UpdateKeepsLineage(st, out);
    } else if forall x :: !Tail(st.rows, x, item.key) {
      InsertKeepsLineage(st, item.key, None, out);
    } else {
      var inserted := st.rows[st.nextId := FreshRow(item, st.now)];
      var last :| Tail(st.rows, last, item.key) && LineageRetired(st.rows, last)
        && out == Link(inserted, docs, last, st.nextId);
      LinkedInsertKeepsLineage(st, docs, item, st.rows, last);
    }
  }

  lemma RetiredHasNoActive(st: State, item: FoldItem)
    requires SoundLineage(st) && Current(st.rows, item) && item.prior.Some?
    ensures Tail(st.rows, item.prior.value, item.key)
    ensures forall id :: !ActiveRow(Retire(st.rows, item.prior.value, st.now), id, item.key)
  {
    assert RowOk(st.rows, item.prior.value);
    forall id | ActiveRow(Retire(st.rows, item.prior.value, st.now), id, item.key) ensures false {
      assert ActiveRow(st.rows, id, item.key);
      OneActiveRowPerKey(st, id, item.prior.value, item.key);
    }
  }

  /** The coverage pass of a thematic fold finds nothing to retire: its key has one active row, the one just written. */
  lemma CoverageNeverFires(st: State, newId: int, item: FoldItem)
    requires SoundLineage(st) && ActiveRow(st.rows, newId, item.key)
    ensures Cover(st.rows, newId, item.sources, Thematic, item.key.project, Some(item.key.section), st.now) == st.rows
  {
    forall id | Covered(st.rows, id, newId, item.sources, Thematic, item.key.project, Some(item.key.section))
      ensures false {
      assert ActiveRow(st.rows, id, item.key);
      OneActiveRowPerKey(st, id, newId, item.key);
    }
  }

  lemma FoldKeepsLineage(st: State, docs: DocTable, item: FoldItem)
    requires SoundLineage(st) && Current(st.rows, item)
    ensures SoundLineage(Fold(st, docs, item)) && Evolves(st.rows, Fold(st, docs, item).rows)
    ensures Fold(st, docs, item) == WriteRow(st, docs, item).(now := st.now + 1)
  {
    WriteRowKeepsLineage(st, docs, item);
    CoverageNeverFires(WriteRow(st, docs, item), WrittenId(st, item), item);
  }

  /** The row a fold leaves behind, and everything else it may touch. */
  ghost predicate Wrote(st: State, out: SummaryTable, id: int, item: FoldItem) {
    out.Keys == st.rows.Keys + {id}
    && ActiveRow(out, id, item.key)
    && out[id].content == item.content && out[id].sources == item.sources
    && out[id].entities == item.entities && out[id].foldedAt == st.now
    && (forall x :: x in st.rows && st.rows[x].kind == Thematic && st.rows[x].key != item.key ==> out[x] == st.rows[x])
    && (forall x :: x in st.rows ==> out[x].kind == st.rows[x].kind && out[x].key == st.rows[x].key)
    && (forall x :: x in st.rows && x != id ==> out[x].foldedAt == st.rows[x].foldedAt)
  }

  lemma LinkedInsertWrote(st: State, docs: DocTable, item: FoldItem, before: SummaryTable, last: int)
    requires SoundLineage(st) && Tail(st.rows, last, item.key)
    requires before == st.rows || before == Retire(st.rows, last, st.now)
    ensures Wrote(st, Link(before[st.nextId := FreshRow(item, st.now)], docs, last, st.nextId), st.nextId, item)
  {
    assert st.nextId !in st.rows;
    LinkShape(before[st.nextId := FreshRow(item, st.now)], docs, last, st.nextId);
  }

  lemma UpdateWrote(st: State, item: FoldItem)
    requires SoundLineage(st) && Current(st.rows, item) && item.prior.Some?
    ensures Wrote(
              st, st.rows[item.prior.value := UpdatedRow(st.rows[item.prior.value], item, st.now)], item.prior.value,
              item)
  {
  }

  lemma InsertWrote(st: State, item: FoldItem)
    requires SoundLineage(st)
    ensures Wrote(st, st.rows[st.nextId := FreshRow(item, st.now)], st.nextId, item)
  {
    assert st.nextId !in st.rows;
  }

  lemma FoldWrote(st: State, docs: DocTable, item: FoldItem)
    requires SoundLineage(st) && Current(st.rows, item)
    ensures Wrote(st, Fold(st, docs, item).rows, WrittenId(st, item), item)
  {
    FoldKeepsLineage(st, docs, item);
    WriteRowCases(st, docs, item);
    assert st.nextId !in st.rows;
    if Succeeds(item) {
      RetiredHasNoActive(st, item);
      LinkedInsertWrote(st, docs, item, Retire(st.rows, item.prior.value, st.now), item.prior.value);
    } else if item.prior.Some? {
      UpdateWrote(st, item);
    } else if forall x :: !Tail(st.rows, x, item.key) {
      InsertWrote(st, item);
    } else {
      var inserted := st.rows[st.nextId := FreshRow(item, st.now)];
      var last :| Tail(st.rows, last, item.key) && LineageRetired(st.rows, last)
                  && WriteRow(st, docs, item).rows == Link(inserted, docs, last, st.nextId);
      LinkedInsertWrote(st, docs, item, st.rows, last);
    }
  }

  // ---------- re-pointing on a fold ----------

  lemma SupportGrowsWithFacts(rows: SummaryTable, rows': SummaryTable, docs: DocTable, sources: seq<int>, ids: seq<int>)
    requires forall s :: s in rows ==> s in rows' && rows'[s].sources == rows[s].sources
    ensures Supported(rows, docs, sources, ids) <= Supported(rows', docs, sources, ids)
  {
    forall f | f in FactsOf(rows, ids) ensures f in FactsOf(rows', ids) {
      var s :| s in ids && s in rows && f in rows[s].sources;
      assert s in rows' && f in rows'[s].sources;
    }
    forall d | d in Supported(rows, docs, sources, ids) ensures d in Supported(rows', docs, sources, ids) {
      var f := Pick(Threads(docs, d) * FactsOf(rows, ids));
      assert f in Threads(docs, d) * FactsOf(rows', ids);
    }
  }

  /**
   A fold that is not an in-place update costs no insight a supported decision, moves a citation only
   from the linked row to its successor, and leaves every insight that does not follow as it was.
   */
  lemma FoldKeepsSupport(st: State, docs: DocTable, item: FoldItem, id: int)
    requires SoundLineage(st) && Current(st.rows, item) && (Succeeds(item) || item.prior.None?)
    requires id in st.rows && st.rows[id].kind == Insight && !st.rows[id].superseded
    ensures var out := Fold(st, docs, item).rows;
            var ids := st.rows[id].summaryIds;
            && id in out && out[id] == st.rows[id].(summaryIds := out[id].summaryIds)
            && Supported(st.rows, docs, st.rows[id].sources, ids)
              <= Supported(out, docs, st.rows[id].sources, out[id].summaryIds)
            && (out[id].summaryIds == ids
                || exists last :: last in ids && Tail(st.rows, last, item.key) && out[id].summaryIds == Substitute(ids,
                  last, st.nextId))
  {
    FoldKeepsLineage(st, docs, item);
    WriteRowCases(st, docs, item);
    assert st.nextId !in st.rows;
    if Succeeds(item) {
      RetiredHasNoActive(st, item);
      LinkKeepsSupport(st, docs, item, Retire(st.rows, item.prior.value, st.now), item.prior.value, id);
    } else if forall x :: !Tail(st.rows, x, item.key) {
      SupportGrowsWithFacts(st.rows, Fold(st, docs, item).rows, docs, st.rows[id].sources, st.rows[id].summaryIds);
    } else {
      var inserted := st.rows[st.nextId := FreshRow(item, st.now)];
      var last :| Tail(st.rows, last, item.key) && LineageRetired(st.rows, last)
                  && WriteRow(st, docs, item).rows == Link(inserted, docs, last, st.nextId);
      LinkKeepsSupport(st, docs, item, st.rows, last, id);
    }
  }

  lemma LinkKeepsSupport(st: State, docs: DocTable, item: FoldItem, before: SummaryTable, last: int, id: int)
    requires SoundLineage(st) && Tail(st.rows, last, item.key)
    requires before == st.rows || before == Retire(st.rows, last, st.now)
    requires id in st.rows && st.rows[id].kind == Insight && !st.rows[id].superseded
    ensures var out := Link(before[st.nextId := FreshRow(item, st.now)], docs, last, st.nextId);
            var ids := st.rows[id].summaryIds;
            && id in out && out[id] == st.rows[id].(summaryIds := out[id].summaryIds)
            && Supported(st.rows, docs, st.rows[id].sources, ids)
              <= Supported(out, docs, st.rows[id].sources, out[id].summaryIds)
            && (out[id].summaryIds == ids || (last in ids && out[id].summaryIds == Substitute(ids, last, st.nextId)))
  {
    assert st.nextId !in st.rows && last != id;
    var grown := before[st.nextId := FreshRow(item, st.now)];
    var linked := SetSuccessor(grown, last, st.nextId);
    var out := Link(grown, docs, last, st.nextId);
    var sources, ids := st.rows[id].sources, st.rows[id].summaryIds;
    assert linked[id] == st.rows[id];
    SupportGrowsWithFacts(st.rows, linked, docs, sources, ids);
    var after := RepointRow(linked, docs, linked[id], last, st.nextId).summaryIds;
    RetargetKeepsSupport(linked, docs, sources, ids, last, st.nextId);
    assert out[id].summaryIds == after;
    SupportGrowsWithFacts(linked, out, docs, sources, after);
  }

  // ---------- the other writers of the table ----------

  /** retire_invalidated_summaries: any set of rows, in one transaction. */
  function RetirePass(st: State, ids: set<int>): State {
    State(RetireAll(st.rows, ids, st.now), st.nextId, st.now + 1)
  }

  /** What a fold writes of an insight. */
  datatype NewInsight = NewInsight(
    project: string, content: string, sources: seq<int>, summaryIds: seq<int>, domains: seq<string>,
      entities: set<string>)

  function InsightRow(told: NewInsight, now: int): Summary {
    Summary(Insight, Key(told.project, ""), told.content, told.sources, told.entities, told.domains, told.summaryIds,
            false, NotRetired, 0, None, now)
  }

  /** write_insight_summary (always an INSERT), then coverage within the project, then commit. */
  function WriteInsight(st: State, told: NewInsight): State {
    var inserted := st.rows[st.nextId := InsightRow(told, st.now)];
    State(Cover(inserted, st.nextId, told.sources, Insight, told.project, None, st.now), st.nextId + 1, st.now + 1)
  }

  /** The two lists an exact match may add to: a citation and the domain it was reached from. */
  function Referenced(row: Summary, summaryId: Option<int>, domain: string): Summary {
    row.(summaryIds := if summaryId.Some? && summaryId.value !in row.summaryIds then row.summaryIds + [summaryId.value]
                       else row.summaryIds,
         domains := if domain != "" && domain !in row.domains then row.domains + [domain] else row.domains)
  }

  /** append_insight_references: metadata of an active row only; a row retired meanwhile is left alone. */
  function AppendReference(st: State, id: int, summaryId: Option<int>, domain: string): State {
    if IsActive(st.rows, id) && st.rows[id].kind == Insight && Referenced(st.rows[id], summaryId, domain) != st.rows[id]
    then State(st.rows[id := Referenced(st.rows[id], summaryId, domain)], st.nextId, st.now + 1)
    else st
  }

  ghost function RecheckPass(st: State, docs: DocTable): State {
    State(Recheck(st.rows, docs), st.nextId, st.now + 1)
  }

  // ---------- whole runs ----------

  /** One committed transaction of the daemon on this table. */
  datatype Step =
    | FoldStep(docs: DocTable, item: FoldItem)
    | RetireStep(ids: set<int>)
    | InsightStep(told: NewInsight)
    | AppendStep(id: int, summaryId: Option<int>, domain: string)
    | RecheckStep(rdocs: DocTable)

  ghost predicate Enabled(st: State, step: Step) {
    step.FoldStep? ==> Current(st.rows, step.item)
  }

  ghost function Apply(st: State, step: Step): State {
    match step
    case FoldStep(docs, item) => Fold(st, docs, item)
    case RetireStep(ids) => RetirePass(st, ids)
    case InsightStep(told) => WriteInsight(st, told)
    case AppendStep(id, summaryId, domain) => AppendReference(st, id, summaryId, domain)
    case RecheckStep(docs) => RecheckPass(st, docs)
  }

  lemma StepKeepsLineage(st: State, step: Step)
    requires SoundLineage(st) && Enabled(st, step)
    ensures SoundLineage(Apply(st, step)) && Evolves(st.rows, Apply(st, step).rows)
  {
    var out := Apply(st, step);
    match step {
      case FoldStep(docs, item) => FoldKeepsLineage(st, docs, item);
      case RetireStep(ids) => RetireKeepsLineage(st, ids);
      case InsightStep(told) => InsightKeepsLineage(st, told);
      case AppendStep(id, summaryId, domain) => UpdateKeepsLineage(st, out.rows);
      case RecheckStep(docs) => UpdateKeepsLineage(st, out.rows);
    }
  }

  /** An insight row, once inserted, stays what it tells: its sources are never written again. */
  predicate InsightsStand(rows: SummaryTable, rows': SummaryTable) {
    forall id :: id in rows && rows[id].kind == Insight ==>
      id in rows' && rows'[id].kind == Insight && rows'[id].sources == rows[id].sources
  }

  lemma LinkStands(rows: SummaryTable, docs: DocTable, oldId: int, newId: int)
    ensures InsightsStand(rows, Link(rows, docs, oldId, newId))
  {
    LinkShape(rows, docs, oldId, newId);
  }

  lemma FoldStands(st: State, docs: DocTable, item: FoldItem)
    requires SoundLineage(st) && Current(st.rows, item)
    ensures InsightsStand(st.rows, Fold(st, docs, item).rows)
  {
    FoldKeepsLineage(st, docs, item);
    WriteRowCases(st, docs, item);
    var out := WriteRow(st, docs, item).rows;
    if Succeeds(item) {
      var inserted := Retire(st.rows, item.prior.value, st.now)[st.nextId := FreshRow(item, st.now)];
      InsertStands(st, item, Retire(st.rows, item.prior.value, st.now));
      LinkStands(inserted, docs, item.prior.value, st.nextId);
    } else if item.prior.None? {
      var inserted := st.rows[st.nextId := FreshRow(item, st.now)];
      InsertStands(st, item, st.rows);
      if out != inserted {
        var last :| Tail(st.rows, last, item.key) && out == Link(inserted, docs, last, st.nextId);
        LinkStands(inserted, docs, last, st.nextId);
      }
    }
  }

  lemma InsertStands(st: State, item: FoldItem, before: SummaryTable)
    requires SoundLineage(st) && InsightsStand(st.rows, before)
    ensures InsightsStand(st.rows, before[st.nextId := FreshRow(item, st.now)])
  {
  }

  lemma StepStands(st: State, step: Step)
    requires SoundLineage(st) && Enabled(st, step)
    ensures InsightsStand(st.rows, Apply(st, step).rows)
  {
    match step {
      case FoldStep(docs, item) => FoldStands(st, docs, item);
      case RetireStep(ids) =>
      case InsightStep(told) => InsightStands(st, told);
      case AppendStep(id, summaryId, domain) =>
      case RecheckStep(docs) =>
    }
  }

  lemma InsightStands(st: State, told: NewInsight)
    requires SoundLineage(st)
    ensures var out := WriteInsight(st, told).rows;
            && InsightsStand(st.rows, out)
            && st.nextId in out && out[st.nextId].kind == Insight && out[st.nextId].sources == told.sources
  {
  }

  lemma RetireKeepsLineage(st: State, ids: set<int>)
    requires SoundLineage(st)
    ensures SoundLineage(RetirePass(st, ids)) && Evolves(st.rows, RetirePass(st, ids).rows)
  {
    var out := RetirePass(st, ids).rows;
    forall id | id in out ensures RowOk(out, id) { assert RowOk(st.rows, id); }
    forall a, b, k | Tail(out, a, k) && Tail(out, b, k) ensures a == b {
      assert Tail(st.rows, a, k) && Tail(st.rows, b, k);
    }
  }

  lemma InsightKeepsLineage(st: State, told: NewInsight)
    requires SoundLineage(st)
    ensures var out := WriteInsight(st, told);
            SoundLineage(out) && Evolves(st.rows, out.rows)
  {
    assert st.nextId !in st.rows;
    var out := WriteInsight(st, told).rows;
    forall id | id in out ensures RowOk(out, id) { if id in st.rows { assert RowOk(st.rows, id); } }
    forall a, b, k | Tail(out, a, k) && Tail(out, b, k) ensures a == b {
      assert Tail(st.rows, a, k) && Tail(st.rows, b, k);
    }
  }

  const EMPTY: State := State(map[], 0, 0)

  ghost function Run(st: State, steps: seq<Step>): State {
    if steps == [] then st else Apply(Run(st, steps[..|steps| - 1]), steps[|steps| - 1])
  }

  ghost predicate Runs(st: State, steps: seq<Step>) {
    forall k :: 0 <= k < |steps| ==> Enabled(Run(st, steps[..k]), steps[k])
  }

  /** Every reachable table is sound, and any later one is an evolution of any earlier one. */
  lemma {:induction false} RunsKeepLineage(st: State, steps: seq<Step>, k: nat)
    requires SoundLineage(st) && Runs(st, steps) && k <= |steps|
    ensures SoundLineage(Run(st, steps)) && SoundLineage(Run(st, steps[..k]))
    ensures Evolves(Run(st, steps[..k]).rows, Run(st, steps).rows)
  {
    if k == |steps| {
      assert steps[..k] == steps;
      if steps != [] {
        var front := steps[..|steps| - 1];
        PrefixRuns(st, steps);
        RunsKeepLineage(st, front, |front|);
        StepKeepsLineage(Run(st, front), steps[|steps| - 1]);
      }
    } else {
      var front := steps[..|steps| - 1];
      PrefixRuns(st, steps);
      RunsKeepLineage(st, front, k);
      assert front[..k] == steps[..k];
      StepKeepsLineage(Run(st, front), steps[|steps| - 1]);
      EvolvesTransitive(Run(st, steps[..k]).rows, Run(st, front).rows, Run(st, steps).rows);
    }
  }

  lemma PrefixRuns(st: State, steps: seq<Step>)
    requires Runs(st, steps) && steps != []
    ensures Runs(st, steps[..|steps| - 1]) && Enabled(Run(st, steps[..|steps| - 1]), steps[|steps| - 1])
  {
    var front := steps[..|steps| - 1];
    forall k | 0 <= k < |front| ensures Enabled(Run(st, front[..k]), front[k]) {
      assert front[..k] == steps[..k];
    }
  }

  /** In every reachable table: one active row per key, and every retired row of the key leads to it. */
  lemma ReachableChains(steps: seq<Step>, active: int, retired: int)
    requires Runs(EMPTY, steps)
    requires var rows := Run(EMPTY, steps).rows;
             retired in rows && rows[retired].kind == Thematic && ActiveRow(rows, active, rows[retired].key)
    ensures var rows := Run(EMPTY, steps).rows;
            && ActiveEnd(rows, retired) == Some(active)
            && forall other :: ActiveRow(rows, other, rows[retired].key) ==> other == active
  {
    RunsKeepLineage(EMPTY, steps, 0);
    ChainEndsAtActiveRow(Run(EMPTY, steps), retired, active);
    forall other | ActiveRow(Run(EMPTY, steps).rows, other, Run(EMPTY, steps).rows[retired].key) ensures other
      == active {
      OneActiveRowPerKey(Run(EMPTY, steps), other, active, Run(EMPTY, steps).rows[retired].key);
    }
  }
}
