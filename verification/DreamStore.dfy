/** The statements and passes of the fact path as methods on the tables they update. */
module DreamStore {
  import opened Tables
  import opened Chain
  import opened Repoint
  import Following
  import opened Succession
  import opened ThematicFold
  import opened RefoldLedger
  import opened FactCycle
  import opened BackupLock
  import Outbox

  lemma RetireAllAt(rows: SummaryTable, ids: seq<int>, id: int, now: int)
    requires id in ids && IsActive(rows, id)
    ensures id in RetireAll(rows, Elems(ids), now) && RetireAll(rows, Elems(ids), now)[id] == RetiredRow(rows[id], now)
  {
  }

  lemma DropFirst(ids: seq<int>, i: nat)
    requires Ascending(ids) && i < |ids|
    ensures ids[i] in Elems(ids[i..])
    ensures Elems(ids[i..]) - {ids[i]} == Elems(ids[i + 1..])
  {
    assert ids[i..] == [ids[i]] + ids[i + 1..];
  }

  lemma OpenedForStep(rows: SummaryTable, docs: DocTable, kind: Kind, ids: seq<int>, i: nat, now: int)
    requires i < |ids| && forall id :: id in ids ==> id in rows
    ensures OpenedFor(rows, docs, kind, ids[..i + 1], now)
         == OpenedFor(rows, docs, kind, ids[..i], now)
            + Opened(docs, rows[ids[i]].sources, ids[i], kind, Triggers(docs, rows[ids[i]].sources), now)
  {
    assert ids[i] in ids && ids[..i + 1][..i] == ids[..i];
  }

  /** `rows` on the way from `before` to `after`: the ids in `todo` are still to be done. */
  ghost predicate Halfway(rows: SummaryTable, before: SummaryTable, after: SummaryTable, todo: set<int>) {
    rows.Keys == before.Keys == after.Keys
    && forall id :: id in rows ==> rows[id] == if id in todo then before[id] else after[id]
  }

  lemma HalfwayStep(rows: SummaryTable, before: SummaryTable, after: SummaryTable, todo: set<int>, id: int)
    requires Halfway(rows, before, after, todo) && id in todo && id in rows
    ensures rows[id] == before[id]
    ensures Halfway(rows[id := after[id]], before, after, todo - {id})
  {
  }

  lemma HalfwayDone(rows: SummaryTable, before: SummaryTable, after: SummaryTable)
    requires Halfway(rows, before, after, {})
    ensures rows == after
  {
    SameTable(rows, after);
  }

  function CoverRow(row: Summary, now: int): Summary {
    row.(superseded := true, reason := Coverage, retiredAt := now)
  }

  function CoveredIds(
    rows: SummaryTable, newId: int, sources: seq<int>, kind: Kind, project: string, section: Option<string>): set<int> {
    set id | id in rows && Covered(rows, id, newId, sources, kind, project, section)
  }

  function RecheckedIds(rows: SummaryTable): set<int> {
    set id | id in rows && Rechecked(rows, rows[id])
  }

  lemma RecheckIsHalfway(rows: SummaryTable, docs: DocTable)
    ensures Halfway(rows, rows, Recheck(rows, docs), RecheckedIds(rows))
  {
    RecheckElsewhere(rows, docs);
  }

  lemma CoverIsHalfway(
    rows: SummaryTable, newId: int, sources: seq<int>, kind: Kind, project: string, section: Option<string>, now: int)
    ensures var want := Cover(rows, newId, sources, kind, project, section, now);
            var covered := CoveredIds(rows, newId, sources, kind, project, section);
            && Halfway(rows, rows, want, covered)
            && forall id :: id in covered ==> id in rows && id in want && want[id] == CoverRow(rows[id], now)
  {
  }

  /** The citing rows done and not re-pointed are to stay as they are. */
  ghost predicate KeptStay(
    linked: SummaryTable, want: SummaryTable, citing: set<int>, todo: set<int>, repointed: set<int>) {
    forall id :: id in citing && id !in todo && id !in repointed ==>
      id in linked && id in want && want[id] == linked[id]
  }

  lemma KeptStayMore(
    linked: SummaryTable, want: SummaryTable, citing: set<int>, todo: set<int>, repointed: set<int>, id: int,
    followed: bool)
    requires KeptStay(linked, want, citing, todo, repointed) && id in linked && id in want
    requires !followed ==> want[id] == linked[id]
    ensures KeptStay(linked, want, citing, todo - {id}, if followed then repointed + {id} else repointed)
  {
  }

  lemma LinkedRow(before: SummaryTable, docs: DocTable, oldId: int, newId: int, id: int)
    requires id in Citing(SetSuccessor(before, oldId, newId), oldId)
    ensures var linked, want := SetSuccessor(before, oldId, newId), Link(before, docs, oldId, newId);
            id in linked && id in want && want[id] == RepointRow(linked, docs, linked[id], oldId, newId)
  {
    LinkAt(before, docs, oldId, newId, id);
  }

  /** `repointed` are those of the followers that are no longer to be done. */
  ghost predicate Counted(
    rows: SummaryTable, docs: DocTable, oldId: int, newId: int, repointed: set<int>, todo: set<int>) {
    repointed == Following.Followers(rows, docs, oldId, newId) - todo
  }

  lemma NoneCounted(rows: SummaryTable, docs: DocTable, oldId: int, newId: int)
    ensures Counted(rows, docs, oldId, newId, {}, Citing(rows, oldId))
  {
  }

  lemma FollowerCounted(
    rows: SummaryTable, docs: DocTable, oldId: int, newId: int, repointed: set<int>, todo: set<int>, id: int,
    followed: bool)
    requires Counted(rows, docs, oldId, newId, repointed, todo) && id in todo && id in Citing(rows, oldId)
    requires followed <==>
               Following.ExchangeKeeps(rows, docs, rows[id].sources, Elems(rows[id].summaryIds), oldId, newId)
    ensures Counted(rows, docs, oldId, newId, if followed then repointed + {id} else repointed, todo - {id})
  {
    assert followed <==> id in Following.Followers(rows, docs, oldId, newId);
  }

  lemma AllCounted(rows: SummaryTable, docs: DocTable, oldId: int, newId: int, repointed: set<int>)
    requires Counted(rows, docs, oldId, newId, repointed, {})
    ensures repointed == Following.Followers(rows, docs, oldId, newId)
  {
  }

  /** The first i ids of the pass are retired and their ledger rows opened. */
  ghost predicate Retiring(start: Db, db: Db, docs: DocTable, kind: Kind, todo: seq<int>, i: nat)
    requires i <= |todo| && forall id :: id in todo ==> id in start.st.rows
  {
    db.st.now == start.st.now
    && Halfway(db.st.rows, start.st.rows, RetireAll(start.st.rows, Elems(todo), start.st.now), Elems(todo[i..]))
    && db.ledger == start.ledger + OpenedFor(start.st.rows, docs, kind, todo[..i], start.st.now)
  }

  lemma RetiringStep(start: Db, db: Db, docs: DocTable, kind: Kind, todo: seq<int>, i: nat)
    requires Ascending(todo) && i < |todo|
    requires forall id :: id in todo ==> id in start.st.rows && !start.st.rows[id].superseded
    requires Retiring(start, db, docs, kind, todo, i)
    ensures var id, now := todo[i], db.st.now;
            id in db.st.rows && db.st.rows[id] == start.st.rows[id]
            && Retiring(start,
                 Db(db.st.(rows := db.st.rows[id := RetiredRow(db.st.rows[id], now)]),
                    db.ledger + Opened(docs, db.st.rows[id].sources, id, kind, Triggers(docs, db.st.rows[id].sources),
                      now)),
                 docs, kind, todo, i + 1)
  {
    var id := todo[i];
    var before := start.st.rows;
    assert id in todo;
    DropFirst(todo, i);
    RetireAllAt(before, todo, id, start.st.now);
    HalfwayStep(db.st.rows, before, RetireAll(before, Elems(todo), start.st.now), Elems(todo[i..]), id);
    OpenedForStep(before, docs, kind, todo, i, start.st.now);
    ConcatAssoc(start.ledger, OpenedFor(before, docs, kind, todo[..i], start.st.now),
                Opened(docs, before[id].sources, id, kind, Triggers(docs, before[id].sources), start.st.now));
  }

  class Store {
    var rows: SummaryTable
    var nextId: int
    var now: int
    var ledger: seq<RefoldRow>
    /** The holder of the shared backup lock under which every statement below writes. */
    const lock: Holder
    const outbox: Outbox.Ledger

    ghost function St(): State
      reads this
    {
      State(rows, nextId, now)
    }

    ghost function Snapshot(): Db
      reads this
    {
      Db(St(), ledger)
    }

    ghost predicate Valid()
      reads this
    {
      SoundLineage(St())
    }

    /** The cycle holds its lock, so the gateway does not dump. */
    ghost predicate Guarded()
      reads this, lock
    {
      lock.Valid() && lock.w.phase == Working && outbox.lock == lock
    }

    constructor (outbox: Outbox.Ledger)
      ensures Valid() && Snapshot() == Db(EMPTY, [])
      ensures this.outbox == outbox && this.lock == outbox.lock
    {
      this.rows, this.nextId, this.now, this.ledger := map[], 0, 0, [];
      this.outbox, this.lock := outbox, outbox.lock;
    }

    // ---------- retirement ----------

    /** One chain of resolve_standing_ids. */
    method ResolveStanding(docs: DocTable, id: int) returns (standing: int, stillSuperseded: bool)
      requires id in docs
      ensures (standing, stillSuperseded) == Resolve(docs, id, 1)
    {
      standing := id;
      var depth: nat := 1;
      while depth < MAX_HOPS && docs[standing].superseded && docs[standing].successor.Some?
        && docs[standing].successor.value in docs
        invariant depth <= MAX_HOPS && standing in docs
        invariant Resolve(docs, id, 1) == Resolve(docs, standing, depth)
        decreases MAX_HOPS - depth
      {
        standing, depth := docs[standing].successor.value, depth + 1;
      }
      stillSuperseded := docs[standing].superseded;
    }

    method StandingIds(docs: DocTable, sources: seq<int>) returns (ids: seq<int>)
      ensures ids == Sorted(Standing(docs, sources))
    {
      var found: set<int> := {};
      for i := 0 to |sources|
        invariant found == Standing(docs, sources[..i])
      {
        assert sources[..i + 1] == sources[..i] + [sources[i]];
        if sources[i] in docs {
          var standing, still := ResolveStanding(docs, sources[i]);
          if !still { found := found + {standing}; }
        }
      }
      assert sources[..|sources|] == sources;
      ids := SortIds(found);
    }

    /** _retire_summary: nothing happens when the row is no longer active. */
    method RetireSummary(docs: DocTable, id: int, kind: Kind, sources: seq<int>, triggers: seq<int>)
      returns (done: bool)
      requires Guarded()
      modifies this`rows, this`ledger
      ensures done <==> IsActive(old(rows), id)
      ensures rows == Retire(old(rows), id, now)
      ensures ledger == old(ledger) + if done then Opened(docs, sources, id, kind, triggers, now) else []
    {
      done := id in rows && !rows[id].superseded;
      if !done { return; }
      rows := rows[id := rows[id].(superseded := true, reason := Lineage, retiredAt := now)];
      var standing := StandingIds(docs, sources);
      var i := |triggers|;
      var added: seq<RefoldRow> := [];
      while i > 0
        invariant 0 <= i <= |triggers|
        invariant added == Opened(docs, sources, id, kind, triggers[i..], now)
      {
        i := i - 1;
        assert triggers[i..] == [triggers[i]] + triggers[i + 1..];
        added := Rows(standing, id, kind, triggers[i], now) + added;
      }
      assert triggers[0..] == triggers;
      ledger := ledger + added;
    }

    /** retire_invalidated_summaries: every active row of the kind that holds a superseded record. */
    method RetireInvalidatedSummaries(docs: DocTable, kind: Kind, skip: set<int>) returns (retired: set<int>)
      requires Guarded()
      modifies this`rows, this`ledger, this`now
      ensures retired == InvalidatedIds(old(rows), docs, kind, skip)
      ensures Snapshot() == RetireInvalidated(old(Snapshot()), docs, kind, skip)
    {
      retired := InvalidatedIds(rows, docs, kind, skip);
      var todo := SortIds(retired);
      RetireListed(docs, todo, kind);
      assert Elems(todo) == retired;
      now := now + 1;
    }

    /** One match of the pass: triggers are the superseded records the row holds. */
    method RetireInvalid(docs: DocTable, id: int, kind: Kind)
      requires Guarded()
      requires id in rows && !rows[id].superseded
      modifies this`rows, this`ledger
      ensures rows == old(rows)[id := RetiredRow(old(rows)[id], now)]
      ensures ledger == old(ledger)
        + Opened(docs, old(rows)[id].sources, id, kind, Triggers(docs, old(rows)[id].sources), now)
    {
      var invalid := set m | m in rows[id].sources && m in docs && docs[m].superseded;
      var triggers := SortIds(invalid);
      var done := RetireSummary(docs, id, kind, rows[id].sources, triggers);
    }

    method RetireListed(docs: DocTable, todo: seq<int>, kind: Kind)
      requires Guarded()
      requires Ascending(todo) && forall id :: id in todo ==> id in rows && !rows[id].superseded
      modifies this`rows, this`ledger
      ensures rows == RetireAll(old(rows), Elems(todo), now)
      ensures ledger == old(ledger) + OpenedFor(old(rows), docs, kind, todo, now)
    {
      ghost var start := Snapshot();
      assert todo[0..] == todo && todo[..0] == [];
      for i := 0 to |todo|
        invariant Retiring(start, Snapshot(), docs, kind, todo, i)
      {
        assert todo[i] in todo;
        RetiringStep(start, Snapshot(), docs, kind, todo, i);
        RetireInvalid(docs, todo[i], kind);
      }
      assert todo[..|todo|] == todo && Elems(todo[|todo|..]) == {};
      HalfwayDone(rows, start.st.rows, RetireAll(start.st.rows, Elems(todo), now));
    }

    // ---------- re-pointing ----------

    /** One insight: substitute, compare support, keep or follow. */
    method TryFollow(linked: SummaryTable, docs: DocTable, row: Summary, oldId: int, newId: int)
      returns (out: Summary, followed: bool)
      requires row.kind == Insight && !row.superseded && oldId in row.summaryIds
      ensures out == RepointRow(linked, docs, row, oldId, newId)
      ensures !followed ==> out == row
      ensures oldId != newId ==>
                (followed <==>
                  Following.ExchangeKeeps(linked, docs, row.sources, Elems(row.summaryIds), oldId, newId))
    {
      if oldId != newId {
        Following.SubstituteFollows(row.summaryIds, oldId, newId);
        Following.SolidIsKept(
          linked, docs, row.sources, row.summaryIds, Substitute(row.summaryIds, oldId, newId), oldId, newId);
      }
      var after := SubstituteIds(row.summaryIds, oldId, newId);
      followed := SolidMatch(Supported(linked, docs, row.sources, row.summaryIds),
        Supported(linked, docs, row.sources, after));
      out := if followed then row.(summaryIds := after) else row;
    }

    /** The same on the table, of which `todo` is still to be done. */
    method FollowOne(
      linked: SummaryTable, docs: DocTable, ghost want: SummaryTable, ghost todo: set<int>, id: int, oldId: int,
      newId: int)
      returns (followed: bool)
      requires Guarded() && Halfway(rows, linked, want, todo) && id in todo && id in Citing(linked, oldId)
      requires id in want && want[id] == RepointRow(linked, docs, linked[id], oldId, newId)
      modifies this`rows
      ensures Halfway(rows, linked, want, todo - {id})
      ensures !followed ==> want[id] == linked[id]
      ensures oldId != newId ==>
                (followed <==>
                  Following.ExchangeKeeps(
                    linked, docs, linked[id].sources, Elems(linked[id].summaryIds), oldId, newId))
    {
      var row;
      row, followed := TryFollow(linked, docs, linked[id], oldId, newId);
      HalfwayStep(rows, linked, want, todo, id);
      rows := rows[id := row];
    }

    /** Every active insight that cites old tries to follow; `before` is the table without the link. */
    method FollowCiting(docs: DocTable, oldId: int, newId: int, ghost before: SummaryTable)
      returns (citing: set<int>, repointed: set<int>)
      requires Guarded() && rows == SetSuccessor(before, oldId, newId)
      modifies this`rows
      ensures rows == Link(before, docs, oldId, newId) && citing == Citing(old(rows), oldId)
      ensures oldId != newId ==> repointed == Following.Followers(old(rows), docs, oldId, newId)
      ensures KeptStay(old(rows), rows, citing, {}, repointed)
    {
      var linked := rows;
      ghost var want := Link(before, docs, oldId, newId);
      LinkElsewhere(before, docs, oldId, newId);
      citing := Citing(linked, oldId);
      NoneCounted(linked, docs, oldId, newId);
      var todo := citing;
      repointed := {};
      while todo != {}
        invariant todo <= citing
        invariant Halfway(rows, linked, want, todo)
        invariant KeptStay(linked, want, citing, todo, repointed)
        invariant oldId != newId ==> Counted(linked, docs, oldId, newId, repointed, todo)
        decreases |todo|
      {
        ghost var any := Pick(todo);
        var id :| id in todo;
        assert id in citing;
        LinkedRow(before, docs, oldId, newId, id);
        var followed := FollowOne(linked, docs, want, todo, id, oldId, newId);
        if oldId != newId { FollowerCounted(linked, docs, oldId, newId, repointed, todo, id, followed); }
        KeptStayMore(linked, want, citing, todo, repointed, id, followed);
        if followed { repointed := repointed + {id}; }
        todo := todo - {id};
      }
      HalfwayDone(rows, linked, want);
      if oldId != newId { AllCounted(linked, docs, oldId, newId, repointed); }
    }

    /** link_thematic_successor: point old at new, then try each active insight that cites old. */
    method LinkThematicSuccessor(docs: DocTable, oldId: int, newId: int)
      returns (repointed: set<int>, kept: set<int>)
      requires Guarded()
      modifies this`rows
      ensures rows == Link(old(rows), docs, oldId, newId)
      ensures kept == Citing(SetSuccessor(old(rows), oldId, newId), oldId) - repointed
      ensures oldId != newId ==>
                repointed == Following.Followers(SetSuccessor(old(rows), oldId, newId), docs, oldId, newId)
      ensures forall id :: id in kept ==>
        id in old(rows) && id in rows && rows[id].summaryIds == old(rows)[id].summaryIds
    {
      ghost var before := rows;
      if oldId in rows { rows := rows[oldId := rows[oldId].(successor := Some(newId))]; }
      assert rows == SetSuccessor(before, oldId, newId);
      var citing;
      citing, repointed := FollowCiting(docs, oldId, newId, before);
      kept := citing - repointed;
    }

    // ---------- the fold transaction ----------

    /** The row ON CONFLICT would hit: the active thematic row of the key. */
    method FindActive(key: Key) returns (found: Option<int>)
      requires OneActive(rows, key)
      ensures found == ActiveOf(rows, key)
    {
      var hits := set id | id in rows && ActiveRow(rows, id, key);
      if hits == {} {
        assert forall id :: ActiveRow(rows, id, key) ==> id in hits;
        return None;
      }
      ghost var any := Pick(hits);
      var id :| id in hits;
      return Some(id);
    }

    /** ORDER BY superseded_at DESC, id DESC LIMIT 1 over the unlinked rows of the key. */
    method FindNewestUnlinked(key: Key) returns (found: Option<int>)
      ensures found.Some? ==> NewestUnlinked(rows, found.value, key)
      ensures found.None? ==> forall id :: !Unlinked(rows, id, key)
    {
      found := None;
      var todo := set id | id in rows && Unlinked(rows, id, key);
      assert forall id :: Unlinked(rows, id, key) ==> id in todo;
      ghost var all := todo;
      while todo != {}
        invariant todo <= all
        invariant found.None? ==> todo == all
        invariant found.Some? ==> found.value in all && forall id :: id in all && id !in todo ==>
          NotOlder(rows, found.value, id)
        decreases |todo|
      {
        ghost var any := Pick(todo);
        var id :| id in todo;
        if found.None? || !NotOlder(rows, found.value, id) { found := Some(id); }
        todo := todo - {id};
      }
    }

    /**
     _write_summary: retire the prior row, upsert, link and re-point; one transaction with the ledger rows it opens and
     the outbox rows it consumes.
     */
    method WriteSummary(docs: DocTable, item: FoldItem, priorSources: seq<int>) returns (id: int)
      requires Guarded()
      requires Valid() && Current(rows, item)
      modifies this`rows, this`nextId, this`ledger, outbox`rows
      ensures Valid()
      ensures outbox.rows == Outbox.FlipByRecord(old(outbox.rows), Elems(item.sources))
      ensures id == WrittenId(old(St()), item)
      ensures St() == WriteRow(old(St()), docs, item)
      ensures ledger == old(ledger) + if Succeeds(item)
        then Opened(docs, priorSources, item.prior.value, Thematic, Sorted(item.removed), now) else []
    {
      WriteRowKeepsLineage(St(), docs, item);
      OneActiveOnceRetired(St(), item);
      id := WriteInTurn(docs, item, priorSources);
      outbox.FlipRecords(Elems(item.sources));
    }

    /** Its statements in their order. */
    method WriteInTurn(docs: DocTable, item: FoldItem, priorSources: seq<int>) returns (id: int)
      requires Guarded()
      requires item.prior.Some? ==> IsActive(rows, item.prior.value)
      requires OneActive(BeforeUpsert(St(), item).rows, item.key)
      modifies this`rows, this`nextId, this`ledger
      ensures id == WrittenId(old(St()), item)
      ensures St() == WriteRow(old(St()), docs, item)
      ensures ledger == old(ledger) + if Succeeds(item)
        then Opened(docs, priorSources, item.prior.value, Thematic, Sorted(item.removed), now) else []
    {
      RetirePrior(docs, item, priorSources);
      var inserted;
      id, inserted := UpsertRow(item);
      LinkWritten(docs, item, id, inserted);
    }

    /** The prior row is retired only when superseded records left it. */
    method RetirePrior(docs: DocTable, item: FoldItem, priorSources: seq<int>)
      requires Guarded()
      requires item.prior.Some? ==> IsActive(rows, item.prior.value)
      modifies this`rows, this`ledger
      ensures St() == BeforeUpsert(old(St()), item)
      ensures ledger == old(ledger) + if Succeeds(item)
        then Opened(docs, priorSources, item.prior.value, Thematic, Sorted(item.removed), now) else []
    {
      if item.prior.Some? && item.removed != {} {
        var triggers := SortIds(item.removed);
        var done := RetireSummary(docs, item.prior.value, Thematic, priorSources, triggers);
      }
    }

    /** INSERT ... ON CONFLICT DO UPDATE. */
    method UpsertRow(item: FoldItem) returns (id: int, inserted: bool)
      requires Guarded()
      requires OneActive(rows, item.key)
      modifies this`rows, this`nextId
      ensures St() == Upsert(old(St()), item) && id == UpsertId(old(St()), item)
      ensures inserted <==> ActiveOf(old(rows), item.key).None?
    {
      var existing := FindActive(item.key);
      inserted := existing.None?;
      if existing.Some? {
        id := existing.value;
        rows := rows[id := UpdatedRow(rows[id], item, now)];
      } else {
        id := nextId;
        rows := rows[id := FreshRow(item, now)];
        nextId := nextId + 1;
      }
    }

    /** The link after the upsert: from the row just retired, or at an insert from the newest unlinked one. */
    method LinkWritten(docs: DocTable, item: FoldItem, id: int, inserted: bool)
      requires Guarded()
      modifies this`rows
      ensures rows == Linked(old(rows), docs, item, id, inserted)
    {
      if item.prior.Some? && item.removed != {} {
        var moved, kept := LinkThematicSuccessor(docs, item.prior.value, id);
      } else if inserted {
        var predecessor := FindNewestUnlinked(item.key);
        if predecessor.Some? {
          OneNewest(rows, item.key, predecessor.value);
          var moved, kept := LinkThematicSuccessor(docs, predecessor.value, id);
        }
      }
    }

    /** supersede_covered_summaries for a thematic fold. */
    method SupersedeCovered(
      newId: int, sources: seq<int>, kind: Kind, project: string, section: Option<string>) returns (covered: set<int>)
      requires Guarded()
      modifies this`rows
      ensures rows == Cover(old(rows), newId, sources, kind, project, section, now)
      ensures covered == CoveredIds(old(rows), newId, sources, kind, project, section)
    {
      CoverIsHalfway(rows, newId, sources, kind, project, section, now);
      covered := CoveredIds(rows, newId, sources, kind, project, section);
      RetireCovered(covered, Cover(rows, newId, sources, kind, project, section, now));
    }

    method RetireCovered(covered: set<int>, ghost want: SummaryTable)
      requires Guarded()
      requires Halfway(rows, rows, want, covered)
      requires forall id :: id in covered ==> id in rows && id in want && want[id] == CoverRow(rows[id], now)
      modifies this`rows
      ensures rows == want
    {
      ghost var before := rows;
      var todo := covered;
      while todo != {}
        invariant todo <= covered
        invariant Halfway(rows, before, want, todo)
        decreases |todo|
      {
        ghost var any := Pick(todo);
        var id :| id in todo;
        HalfwayStep(rows, before, want, todo, id);
        rows := rows[id := rows[id].(superseded := true, reason := Coverage, retiredAt := now)];
        todo := todo - {id};
      }
      HalfwayDone(rows, before, want);
    }

    // ---------- insights ----------

    /**
     write_insight_summary, which always inserts and consumes the outbox rows of the snapshot, then the coverage pass
     within the project; one transaction.
     */
    method WriteInsightSummary(told: NewInsight, rowIds: set<int>) returns (id: int)
      requires Guarded()
      modifies this`rows, this`nextId, this`now, outbox`rows
      ensures outbox.rows == Outbox.FlipById(old(outbox.rows), rowIds)
      ensures id == old(nextId)
      ensures St() == WriteInsight(old(St()), told)
    {
      id := nextId;
      rows := rows[id := InsightRow(told, now)];
      nextId := nextId + 1;
      outbox.FlipConsumed(rowIds);
      var covered := SupersedeCovered(id, told.sources, Insight, told.project, None);
      now := now + 1;
    }

    /** append_insight_references. */
    method AppendInsightReferences(id: int, summaryId: Option<int>, domain: string) returns (appended: bool)
      requires Guarded()
      modifies this`rows, this`now
      ensures St() == AppendReference(old(St()), id, summaryId, domain)
      ensures appended <==> now != old(now)
    {
      appended := false;
      if id !in rows || rows[id].superseded || rows[id].kind != Insight { return; }
      var summaryIds, domains := rows[id].summaryIds, rows[id].domains;
      if summaryId.Some? && summaryId.value !in summaryIds {
        summaryIds := summaryIds + [summaryId.value];
        appended := true;
      }
      if domain != "" && domain !in domains {
        domains := domains + [domain];
        appended := true;
      }
      assert appended <==> |summaryIds| + |domains| != |rows[id].summaryIds| + |rows[id].domains|;
      if !appended { return; }
      rows := rows[id := rows[id].(summaryIds := summaryIds, domains := domains)];
      now := now + 1;
    }

    // ---------- the sweep's recheck ----------

    /** The active end of every lineage-retired citation that has one. */
    method FindEnds(table: SummaryTable) returns (ends: map<int, int>)
      ensures ends.Keys == StaleCited(table)
      ensures forall s :: s in ends ==> ActiveEnd(table, s) == Some(ends[s])
    {
      ends := map[];
      var cited := Cited(table);
      var todo := cited;
      while todo != {}
        invariant todo <= cited
        invariant forall s :: s in ends ==> s in cited && Stale(table, s) && ActiveEnd(table, s) == Some(ends[s])
        invariant forall s :: s in cited && s !in todo && Stale(table, s) ==> s in ends
        decreases |todo|
      {
        ghost var any := Pick(todo);
        var s :| s in todo;
        if LineageRetired(table, s) {
          var end := WalkToActiveEnd(table, s);
          if end.Some? { ends := ends[s := end.value]; }
        }
        todo := todo - {s};
      }
      AllStaleFound(table, ends);
    }

    /** One insight: try every stale id in ascending order. */
    method RecheckInsight(
      table: SummaryTable, docs: DocTable, row: Summary, order: seq<int>, ends: map<int, int>) returns (ids: seq<int>)
      requires AllStale(table, order)
      requires forall s :: s in order ==> s in ends && ActiveEnd(table, s) == Some(ends[s])
      ensures ids == RecheckIds(table, docs, row.sources, row.summaryIds, order)
    {
      ids := row.summaryIds;
      assert order[0..] == order;
      for i := 0 to |order|
        invariant RecheckIds(table, docs, row.sources, row.summaryIds, order)
               == RecheckIds(table, docs, row.sources, ids, order[i..])
      {
        var stale := order[i];
        assert stale in order && order[i..][0] == stale && order[i..][1..] == order[i + 1..];
        if stale in ids {
          var after := SubstituteIds(ids, stale, ends[stale]);
          if SolidMatch(Supported(table, docs, row.sources, ids), Supported(table, docs, row.sources, after)) {
            ids := after;
          }
        }
      }
    }

    /** recheck_kept_thematic_ids. */
    method RecheckKeptThematicIds(docs: DocTable)
      requires Guarded()
      modifies this`rows, this`now
      ensures St() == RecheckPass(old(St()), docs)
    {
      var ends := FindEnds(rows);
      RecheckSelected(docs, ends);
      now := now + 1;
    }

    method RecheckedRow(table: SummaryTable, docs: DocTable, id: int, order: seq<int>, ends: map<int, int>)
      returns (row: Summary)
      requires id in table && Rechecked(table, table[id])
      requires order == Sorted(StaleCited(table)) && AllStale(table, order)
      requires forall s :: s in order ==> s in ends && ActiveEnd(table, s) == Some(ends[s])
      ensures row == Recheck(table, docs)[id]
    {
      var ids := RecheckInsight(table, docs, table[id], order, ends);
      RecheckAt(table, docs, id);
      row := table[id].(summaryIds := ids);
    }

    /** Every insight that cites a stale row, with the ids in ascending order. */
    method RecheckSelected(docs: DocTable, ends: map<int, int>)
      requires Guarded()
      requires ends.Keys == StaleCited(rows)
      requires forall s :: s in ends ==> ActiveEnd(rows, s) == Some(ends[s])
      modifies this`rows
      ensures rows == Recheck(old(rows), docs)
    {
      var order := SortIds(ends.Keys);
      var before := rows;
      SortedStaleIsStale(before);
      ghost var want := Recheck(before, docs);
      RecheckIsHalfway(before, docs);
      var cited := RecheckedIds(before);
      var todo := cited;
      while todo != {}
        invariant todo <= cited
        invariant Halfway(rows, before, want, todo)
        decreases |todo|
      {
        ghost var any := Pick(todo);
        var id :| id in todo;
        HalfwayStep(rows, before, want, todo, id);
        var row := RecheckedRow(before, docs, id, order, ends);
        rows := rows[id := row];
        todo := todo - {id};
      }
      HalfwayDone(rows, before, want);
    }

    // ---------- the fact cycle ----------

    /**
     One fold: write, coverage pass, commit, and the close of the outbox rows if the graph could be marked. A failed
     embedding or a rolled-back transaction changes nothing.
     */
    method FoldPlanned(planned: Planned, outcome: Outcome) returns (marked: bool)
      requires Guarded()
      requires Valid() && (outcome.Written? ==> Current(rows, planned.item))
      modifies this`rows, this`nextId, this`now, this`ledger, outbox`rows
      ensures Valid()
      ensures Snapshot() == FoldOne(old(Snapshot()), planned, outcome)
      ensures outbox.rows == OutboxOne(old(outbox.rows), outbox.succ, planned, outcome, marked)
    {
      marked := *;
      if !outcome.Written? { return; }
      CommitFold(outcome.docs, planned);
      if marked { var closed := outbox.CloseLedgerRows(Elems(planned.item.sources)); }
    }

    /** The transaction of a fold that succeeds. */
    method CommitFold(docs: DocTable, planned: Planned)
      requires Guarded()
      requires Valid() && Current(rows, planned.item)
      modifies this`rows, this`nextId, this`now, this`ledger, outbox`rows
      ensures Valid()
      ensures Snapshot() == FoldOne(old(Snapshot()), planned, Written(docs))
      ensures outbox.rows == Outbox.FlipByRecord(old(outbox.rows), Elems(planned.item.sources))
    {
      var item := planned.item;
      FoldKeepsLineage(St(), docs, item);
      var id := WriteSummary(docs, item, planned.priorSources);
      var covered := SupersedeCovered(id, item.sources, Thematic, item.key.project, Some(item.key.section));
      now := now + 1;
    }

    /** One gating group: its active row, and the fold it needs unless that row is current. */
    method PlanOne(docs: DocTable, records: map<int, Record>, g: Group)
      returns (prior: Option<int>, planned: Option<Planned>)
      requires Valid()
      ensures prior == ActiveOf(rows, g.key)
      ensures planned == if GroupIsCurrent(rows, records, g) then None else Some(PlanGroup(rows, docs, records, g))
    {
      OneActiveIn(St(), g.key);
      prior := FindActive(g.key);
      var (content, ids) := Render(records, g.members);
      var entities := EntitiesOf(records, ids);
      if prior.Some? && IsCurrent(rows[prior.value], content, ids, entities) { return prior, None; }
      var priorSources := if prior.Some? then rows[prior.value].sources else [];
      planned := Some(Planned(FoldItem(g.key, content, ids, entities, prior,
        RemovedSuperseded(docs, priorSources, ids)), priorSources));
    }

    method PlanFolds(scan: Scan) returns (plan: seq<Planned>, gating: set<int>)
      requires Valid()
      ensures plan == PlanOf(Snapshot(), scan)
      ensures gating == GatingRows(rows, scan.groups)
    {
      plan, gating := [], {};
      var i := |scan.groups|;
      assert scan.groups[i..] == [];
      while i > 0
        invariant 0 <= i <= |scan.groups|
        invariant plan == Plan(rows, scan.versions.planning, scan.records, scan.groups[i..])
        invariant gating == GatingRows(rows, scan.groups[i..])
      {
        i := i - 1;
        var g := scan.groups[i];
        assert scan.groups[i..] == [g] + scan.groups[i + 1..];
        GatingNext(rows, g, scan.groups[i + 1..]);
        var prior, planned := PlanOne(scan.versions.planning, scan.records, g);
        if prior.Some? { gating := gating + {prior.value}; }
        if planned.Some? { plan := [planned.value] + plan; }
      }
      assert scan.groups[0..] == scan.groups;
    }

    /** The three ledger updates that end the cycle, as many as are reached. */
    method CloseLedger(docs: DocTable, scanned: set<int>, gated: set<int>, closers: nat)
      requires Guarded()
      modifies this`ledger
      ensures ledger == CloseSome(old(ledger), rows, docs, scanned, gated, closers)
    {
      var open := ledger;
      if closers == 0 {
        assert ledger == CloseSome(open, rows, docs, scanned, gated, closers);
        return;
      }
      var sparse := seq(|open|, i requires 0 <= i < |open| => DropBelowDensity(open[i], scanned, gated));
      ledger := sparse;
      if closers == 1 { return; }
      var scannedOnly := seq(|sparse|, i requires 0 <= i < |sparse| => DropOutOfScan(sparse[i], scanned));
      ledger := scannedOnly;
      if closers == 2 { return; }
      var table := rows;
      ledger := seq(|scannedOnly|, i requires 0 <= i < |scannedOnly| => CloseRow(table, docs, scannedOnly[i]));
    }

    /** close_refold_ledger_rows alone. */
    method CloseRefoldLedger(docs: DocTable)
      requires Guarded()
      modifies this`ledger
      ensures ledger == CloseRefolds(old(ledger), rows, docs)
    {
      var open, table := ledger, rows;
      ledger := seq(|open|, i requires 0 <= i < |open| => CloseRow(table, docs, open[i]));
    }

    /**
     _consolidate_clusters, with the outcome of every fold given. An unreadable backlog skips the cycle; `stop`
     says how far it gets before it is cut, if it is; `marks` which of its folds the graph was marked for.
     */
    method ConsolidateClusters(scan: Scan, backlogRead: bool, outcomes: seq<Outcome>, stop: Stop)
      returns (ghost marks: seq<bool>)
      requires Guarded()
      requires Valid() && ScanOk(scan) && |outcomes| == |PlanOf(Snapshot(), scan)|
      modifies this`rows, this`nextId, this`now, this`ledger, outbox`rows
      ensures Valid()
      ensures Snapshot() == if backlogRead then Partial(old(Snapshot()), scan, outcomes, stop) else old(Snapshot())
      ensures |marks| == if backlogRead then |Take(outcomes, stop.folds)| else 0
      ensures outbox.rows == if backlogRead
        then OutboxAll(old(outbox.rows), outbox.succ, Take(PlanOf(old(Snapshot()), scan), stop.folds),
          Take(outcomes, stop.folds), marks)
        else old(outbox.rows)
    {
      marks := [];
      if !backlogRead { return; }
      ghost var start := Snapshot();
      SweptKeeps(start, scan);
      PlanIsReady(start, scan);
      var plan, gating := PlanFolds(scan);
      var retired := RetireInvalidatedSummaries(scan.versions.sweeping, Thematic, gating);
      assert Snapshot() == Swept(start, scan);
      marks := FoldSome(Take(plan, stop.folds), Take(outcomes, stop.folds));
      if stop.folds < |plan| { return; }
      CloseLedger(scan.versions.closing, scan.scanned, Gated(scan.groups), stop.closers);
    }

    method FoldSome(plan: seq<Planned>, outcomes: seq<Outcome>) returns (ghost marks: seq<bool>)
      requires Guarded()
      requires Valid() && |outcomes| == |plan| && Ready(rows, plan)
      modifies this`rows, this`nextId, this`now, this`ledger, outbox`rows
      ensures Valid()
      ensures Snapshot() == FoldAll(old(Snapshot()), plan, outcomes)
      ensures |marks| == |plan|
      ensures outbox.rows == OutboxAll(old(outbox.rows), outbox.succ, plan, outcomes, marks)
    {
      ghost var start, open := Snapshot(), outbox.rows;
      assert plan[0..] == plan && outcomes[0..] == outcomes;
      marks := [];
      for i := 0 to |plan|
        invariant Valid() && Ready(rows, plan[i..])
        invariant FoldAll(start, plan, outcomes) == FoldAll(Snapshot(), plan[i..], outcomes[i..])
        invariant |marks| == i
        invariant outbox.rows == OutboxAll(open, outbox.succ, plan[..i], outcomes[..i], marks)
      {
        assert plan[i..][0] == plan[i] && plan[i..][1..] == plan[i + 1..];
        assert outcomes[i..][0] == outcomes[i] && outcomes[i..][1..] == outcomes[i + 1..];
        StepReady(Snapshot(), plan[i..], outcomes[i..]);
        var marked := FoldPlanned(plan[i], outcomes[i]);
        OutboxNext(open, outbox.succ, plan, outcomes, marks, i, marked);
        marks := marks + [marked];
      }
      assert plan[..|plan|] == plan && outcomes[..|plan|] == outcomes;
    }
  }

  // ---------- the outbox of a fact cycle ----------

  /** A committed fold consumes the rows of its records, and deletes them once the graph is marked. */
  ghost function OutboxOne(
    open: Outbox.Rows, succ: Outbox.Successors, planned: Planned, outcome: Outcome, marked: bool): Outbox.Rows {
    var ids := Elems(planned.item.sources);
    if !outcome.Written? then open
    else if marked then Outbox.CloseLedger(Outbox.FlipByRecord(open, ids), succ, ids)
    else Outbox.FlipByRecord(open, ids)
  }

  ghost function OutboxAll(
    open: Outbox.Rows, succ: Outbox.Successors, plan: seq<Planned>, outcomes: seq<Outcome>, marks: seq<bool>)
    : Outbox.Rows
    requires |plan| == |outcomes| == |marks|
  {
    if plan == [] then open
    else
      var n := |plan| - 1;
      OutboxOne(OutboxAll(open, succ, plan[..n], outcomes[..n], marks[..n]), succ, plan[n], outcomes[n], marks[n])
  }

  lemma OutboxNext(
    open: Outbox.Rows, succ: Outbox.Successors, plan: seq<Planned>, outcomes: seq<Outcome>, marks: seq<bool>, i: nat,
    marked: bool)
    requires i < |plan| == |outcomes| && |marks| == i
    ensures OutboxAll(open, succ, plan[..i + 1], outcomes[..i + 1], marks + [marked])
         == OutboxOne(OutboxAll(open, succ, plan[..i], outcomes[..i], marks), succ, plan[i], outcomes[i], marked)
  {
    assert plan[..i + 1][..i] == plan[..i] && outcomes[..i + 1][..i] == outcomes[..i];
    assert (marks + [marked])[..i] == marks;
  }

  ghost predicate OneActive(rows: SummaryTable, key: Key) {
    forall a, b :: ActiveRow(rows, a, key) && ActiveRow(rows, b, key) ==> a == b
  }

  lemma OneActiveOnceRetired(st: State, item: FoldItem)
    requires SoundLineage(st) && Current(st.rows, item)
    ensures OneActive(BeforeUpsert(st, item).rows, item.key)
  {
    if Succeeds(item) {
      RetiredHasNoActive(st, item);
    } else {
      OneActiveIn(st, item.key);
    }
  }

  lemma OneActiveIn(st: State, key: Key)
    requires SoundLineage(st)
    ensures OneActive(st.rows, key)
  {
    forall a, b | ActiveRow(st.rows, a, key) && ActiveRow(st.rows, b, key) ensures a == b {
      OneActiveRowPerKey(st, a, b, key);
    }
  }

  lemma AllStaleFound(table: SummaryTable, ends: map<int, int>)
    requires forall s :: s in ends ==> s in Cited(table) && Stale(table, s)
    requires forall s :: s in Cited(table) && Stale(table, s) ==> s in ends
    ensures ends.Keys == StaleCited(table)
  {
    forall s ensures s in ends.Keys <==> s in StaleCited(table) {}
  }

  lemma GatingNext(rows: SummaryTable, g: Group, rest: seq<Group>)
    ensures GatingRows(rows, [g] + rest)
         == GatingRows(rows, rest) + if ActiveOf(rows, g.key).Some? then {ActiveOf(rows, g.key).value} else {}
  {
    var all := [g] + rest;
    assert g == all[0] && g in all;
    forall h | h in rest ensures h in all {}
  }

  lemma OneNewest(rows: SummaryTable, key: Key, a: int)
    requires NewestUnlinked(rows, a, key)
    ensures forall b :: NewestUnlinked(rows, b, key) ==> b == a
  {
  }
}
