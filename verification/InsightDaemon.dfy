/**
 The insight cycle as the daemon runs it, step by step on its own fields and under its own lock, and the guarded sweep
 around it.
 */
module InsightDaemon {
  import opened Tables
  import opened Succession
  import opened RefoldLedger
  import opened FactCycle
  import opened DreamStore
  import opened InsightIdentity
  import opened InsightCycle
  import InsightRuns
  import opened DreamRuns
  import opened Readiness
  import FreshClusters
  import InsightWalk
  import Partitioner
  import Backlog
  import BackupLock
  import Outbox
  import InsightContent
  import SlotProtocol

  /** How a call comes back: it returns, or an exception passes through it. */
  datatype Exit = Normal | ReacquireFailed | OtherException

  /** generate_insight_slots: the slots and the principle, or why there are none. */
  datatype Generated = Generated(slots: Option<(map<nat, string>, string)>, reason: Option<Backlog.Reason>, paid: bool)

  ghost predicate GeneratedFor(reply: Reply, generated: Generated) {
    match reply.answer
    case NoText(reason, paid, _) => generated == Generated(None, reason, paid)
    case Text(text, _, _) =>
      if CompleteReply(reply)
      then generated.slots == Some((SlotProtocol.SlotsOf(text), SlotProtocol.PrincipleOf(text).value))
      else generated == Generated(None, Some(Backlog.Unparseable), true)
  }

  // ---------- identity ----------

  /** One row of fetch_active_insight_rows. */
  ghost predicate ListsActive(existing: seq<Row>, rows: SummaryTable) {
    (forall r :: r in existing ==> ActiveInsight(rows, r.id) && r.judgements == Elems(rows[r.id].sources))
    && forall id :: ActiveInsight(rows, id) ==> Row(id, Elems(rows[id].sources)) in existing
  }

  /** What the three outcomes of the identity match mean on the table. */
  lemma MatchMeans(existing: seq<Row>, rows: SummaryTable, ids: set<int>, m: Option<Match>)
    requires ListsActive(existing, rows) && IsMatch(ids, existing, m)
    ensures m.Some? <==> Held(rows, ids)
    ensures m.Some? && m.value.relation == Same ==> IsSame(rows, m.value.id, ids)
    ensures m.Some? && m.value.relation != Same ==> forall id :: !SameSet(rows, id, ids)
  {
    MatchesIffHeld(ids, existing, m);
    if m.Some? {
      var r :| r in existing && ids <= r.judgements;
      assert ActiveInsight(rows, r.id) && ids <= Elems(rows[r.id].sources);
      if m.value.relation == Same {
        var q :| q in existing && q.id == m.value.id && ClassifyIdentity(ids, q.judgements) == Same;
        forall x | SameSet(rows, x, ids) ensures m.value.id <= x { assert Row(x, ids) in existing; }
      } else {
        forall x | ActiveInsight(rows, x) ensures Elems(rows[x].sources) != ids {
          assert Row(x, Elems(rows[x].sources)) in existing;
        }
      }
    } else {
      forall id | ActiveInsight(rows, id) ensures !(ids <= Elems(rows[id].sources)) {
        assert Row(id, Elems(rows[id].sources)) in existing;
      }
    }
  }

  // ---------- the loops stop where an exception leaves them ----------

  lemma {:induction false} AbortEndsRefolds(
    l: Loop, cycle: InsightCycle.Cycle, blocked: set<set<int>>, rows: SummaryTable, refolds: seq<(int, Reply)>, n: nat)
    requires cycle.check1.Some? && RefoldsOk(rows, refolds) && n <= |refolds|
    requires RefoldLoop(l, cycle, blocked, rows, refolds[..n]).aborted
    ensures RefoldLoop(l, cycle, blocked, rows, refolds) == RefoldLoop(l, cycle, blocked, rows, refolds[..n])
    decreases |refolds|
  {
    if n == |refolds| {
      assert refolds[..n] == refolds;
    } else {
      var front := refolds[..|refolds| - 1];
      assert front[..n] == refolds[..n];
      AbortEndsRefolds(l, cycle, blocked, rows, front, n);
    }
  }

  lemma {:induction false} AbortEndsFresh(l: Loop, clusters: seq<Cluster>, n: nat)
    requires n <= |clusters| && FreshLoop(l, clusters[..n]).aborted
    ensures FreshLoop(l, clusters) == FreshLoop(l, clusters[..n])
    decreases |clusters|
  {
    if n == |clusters| {
      assert clusters[..n] == clusters;
    } else {
      var front := clusters[..|clusters| - 1];
      assert front[..n] == clusters[..n];
      AbortEndsFresh(l, front, n);
    }
  }

  lemma KeepNext(clusters: seq<Cluster>, i: nat, keeps: Cluster -> bool)
    requires i < |clusters|
    ensures Keep(clusters[..i + 1], keeps) == Keep(clusters[..i], keeps) + if keeps(clusters[i]) then [clusters[i]]
      else []
  {
    assert clusters[..i + 1][..i] == clusters[..i];
  }

  function Backlogged(d: InsightCycle.Daemon, ids: set<int>, rowDeleted: bool): InsightCycle.Daemon {
    d.(backlog := if rowDeleted then Backlog.Delete(d.backlog, ids) else d.backlog)
  }

  /** The outbox after a fold: a told one consumes the rows of its snapshot, and deletes them if the graph is marked. */
  ghost function OutboxFolded(during: Outbox.Rows, taken: set<int>, told: bool, marked: bool): Outbox.Rows {
    if !told then during
    else if marked then Outbox.CloseById(Outbox.FlipById(during, taken), taken)
    else Outbox.FlipById(during, taken)
  }

  /** What is kept of a text that was assembled, sequel by sequel. */
  lemma SequelConcludes(d: InsightCycle.Daemon, t: Target)
    requires CompleteReply(t.reply) && !Raises(t.reply) && !BackupLock.ChatLost(t.reply.chat) && Calls(t.reply)
    ensures Succeeded(t.reply) <==> t.reply.answer.sequel.Stored?
    ensures match t.reply.answer.sequel
            case EmbedFailed(rowStored) => Concluded(d, t)
              == InsightCycle.Store(d, t.ids, Backlog.WriteFailed, true, rowStored)
            case WriteFailed(rowStored) => Concluded(d, t)
              == InsightCycle.Store(d, t.ids, Backlog.WriteFailed, true, rowStored)
            case Stored(fallback, domains, entities, rowDeleted) =>
              Told(t) == NewInsight(Resolved(t, fallback), Told(t).content, Sorted(t.ids), Sorted(Elems(t.summaryIds)),
                domains, entities)
              && Concluded(d, t) == Backlogged(d, t.ids, rowDeleted).(st := WriteInsight(d.st, Told(t)))
  {
  }

  lemma AppendNext(listed: SummaryTable, st: State, clusters: seq<Cluster>, i: nat)
    requires SoundLineage(st) && i < |clusters|
    ensures AppendMatches(listed, st, clusters[..i + 1])
         == AppendMatched(listed, AppendMatches(listed, st, clusters[..i]), clusters[i])
    ensures SoundLineage(AppendMatches(listed, st, clusters[..i + 1]))
  {
    assert clusters[..i + 1][..i] == clusters[..i];
    InsightRuns.AppendsKeepLineage(listed, st, clusters[..i + 1]);
  }

  // ---------- the clusters a cycle meets are those the graph gives ----------

  ghost predicate FromGraph(clusters: seq<Cluster>, found: seq<FreshClusters.Found>) {
    |clusters| == |found|
    && forall i :: 0 <= i < |found| ==>
         clusters[i].ids == Elems(found[i].ids) && clusters[i].project == found[i].project
         && clusters[i].section == found[i].section
  }

  ghost predicate RepliesOk(clusters: seq<Cluster>) {
    forall c :: c in clusters ==> ReplyOk(c.reply)
  }

  /** No component found lacks a project, so a cycle over them is well formed. */
  lemma FoundFitTheCycle(
    cycle: InsightCycle.Cycle, rows: SummaryTable, g: InsightWalk.DreamGraph, facts: seq<Partitioner.Row>,
      threshold: nat)
    requires RefoldsOk(rows, cycle.refolds) && RepliesOk(cycle.clusters)
    requires FromGraph(cycle.clusters, FreshClusters.FreshOf(g, facts, threshold))
    ensures CycleOk(rows, cycle)
  {
    var found := FreshClusters.FreshOf(g, facts, threshold);
    forall c | c in cycle.clusters ensures c.project != "" {
      var i :| 0 <= i < |cycle.clusters| && cycle.clusters[i] == c;
      FreshClusters.FoundIsWhole(g, facts, threshold, found[i]);
    }
  }

  /** The records as the passes around the fact cycle read them. */
  datatype SweepReads = SweepReads(invalidating: DocTable, rechecking: DocTable, closing: DocTable)

  /** After lineage invalidation and the recheck. */
  ghost function AfterRecheck(w: DreamRuns.World, versions: SweepReads): DreamRuns.World {
    After(After(w, InvalidateEvent(versions.invalidating)), RecheckEvent(versions.rechecking))
  }

  /** The passes before the insight cycle, as events of a run. */
  ghost function BeforeInsights(
    w: DreamRuns.World, versions: SweepReads, scan: Scan, backlogRead: bool, outcomes: seq<Outcome>, stop: Stop)
    : DreamRuns.World
    requires Admissible(AfterRecheck(w, versions), FactEvent(scan, backlogRead, outcomes, stop))
  {
    After(AfterRecheck(w, versions), FactEvent(scan, backlogRead, outcomes, stop))
  }

  class Daemon {
    const store: Store
    var backlog: Backlog.Table
    var withheld: set<set<int>>
    const ident: Backlog.Identity
    /** Runs whose row could not be finished without the lock. */
    var abandoned: nat
    ghost var process: nat
    ghost var era: nat
    ghost var calls: seq<Call>
    /** The tables as they stood when the lock was lost, in the cycle under way. */
    ghost var lostAt: Option<Db>

    ghost function View(): InsightCycle.Daemon
      reads this, store
    {
      InsightCycle.Daemon(store.St(), backlog, withheld, ident, process, era, calls)
    }

    ghost function World(): DreamRuns.World
      reads this, store
    {
      DreamRuns.World(View(), store.ledger)
    }

    /** Once a reacquire has failed, the tables are as they were at that moment. */
    ghost predicate Valid()
      reads this, store, store.lock
    {
      store.Valid() && store.lock.Valid() && store.outbox.lock == store.lock
        && store.lock.w.phase in {BackupLock.Idle, BackupLock.Working, BackupLock.Failed}
      && (store.lock.w.phase == BackupLock.Failed ==> lostAt == Some(store.Snapshot()))
    }

    ghost predicate Working()
      reads this, store, store.lock
    {
      Valid() && store.Guarded() && lostAt.None?
    }

    /** Where a call leaves the daemon: at work, unless the lock is lost. */
    ghost predicate Stands(exit: Exit)
      reads this, store, store.lock
    {
      if exit.ReacquireFailed? then Valid() && store.lock.w.phase == BackupLock.Failed else Working()
    }

    /** A new process: the backlog table is the durable one, the withheld sets start empty. */
    constructor (store: Store, backlog: Backlog.Table, ident: Backlog.Identity, ghost before: InsightCycle.Daemon)
      requires store.Valid() && before.st == store.St() && before.backlog == backlog
      requires store.lock.Valid() && store.lock.w.phase == BackupLock.Idle && store.outbox.lock == store.lock
      ensures Valid() && this.store == store
      ensures View() == Restarted(before, ident)
    {
      this.store, this.backlog, this.withheld, this.ident := store, backlog, {}, ident;
      this.abandoned := 0;
      this.process := before.process + 1;
      this.era := if ident == before.ident then before.era else before.era + 1;
      this.calls := before.calls;
      this.lostAt := None;
    }

    // ---------- the call ----------

    /** _post_nrem: the request between release and reacquire. The failure is raised on the way out of the window. */
    method PostNrem(chat: BackupLock.Chat) returns (exit: Exit)
      requires Working()
      modifies this`lostAt, store.lock, store.outbox
      ensures Valid()
      ensures exit == if BackupLock.ChatLost(chat) then ReacquireFailed else Normal
      ensures exit.Normal? ==> Working()
      ensures exit.ReacquireFailed? ==> store.lock.w.phase == BackupLock.Failed && lostAt == Some(store.Snapshot())
    {
      var failed := store.lock.ChatWindow(chat);
      store.outbox.Elapse();
      if failed {
        lostAt := Some(store.Snapshot());
        return ReacquireFailed;
      }
      exit := Normal;
    }

    /** _call_insight_llm raises LockReacquireFailed on, whatever the answer was. */
    method CallInsightLlm(
      reply: Reply) returns (exit: Exit, text: Option<string>, reason: Option<Backlog.Reason>, paid: bool)
      requires Working()
      modifies this`lostAt, store.lock, store.outbox
      ensures Valid()
      ensures exit == if BackupLock.ChatLost(reply.chat) then ReacquireFailed else Normal
      ensures exit.Normal? ==> Working()
      ensures exit.ReacquireFailed? ==> store.lock.w.phase == BackupLock.Failed && lostAt == Some(store.Snapshot())
      ensures exit.Normal? ==>
                match reply.answer
                case NoText(r, p, _) => text.None? && reason == r && paid == p
                case Text(t, _, _) => text == Some(t)
    {
      text, reason, paid := None, None, false;
      exit := PostNrem(reply.chat);
      if !exit.Normal? { return; }
      match reply.answer {
        case NoText(r, p, _) => reason, paid := r, p;
        case Text(t, _, _) => text := Some(t);
      }
    }

    /** generate_insight_slots. */
    method GenerateInsightSlots(reply: Reply) returns (exit: Exit, generated: Generated)
      requires Working()
      modifies this`lostAt, store.lock, store.outbox
      ensures Valid()
      ensures exit == if BackupLock.ChatLost(reply.chat) then ReacquireFailed else Normal
      ensures exit.Normal? ==> Working()
      ensures exit.ReacquireFailed? ==> store.lock.w.phase == BackupLock.Failed && lostAt == Some(store.Snapshot())
      ensures exit.Normal? ==> GeneratedFor(reply, generated)
    {
      generated := Generated(None, None, false);
      var text, reason, paid;
      exit, text, reason, paid := CallInsightLlm(reply);
      if !exit.Normal? { return; }
      if text.None? { return exit, Generated(None, reason, paid); }
      var slots := SlotProtocol.AcceptReply(ExpectedIds(reply), text.value);
      generated := if slots.Some? then Generated(slots, None, true)
        else Generated(None, Some(Backlog.Unparseable), true);
    }

    // ---------- one fold ----------

    /** The backlog row of a failed fold; when it cannot be written, a paid set is withheld by this process. */
    method StoreFailure(ids: set<int>, reason: Backlog.Reason, paid: bool, rowStored: bool)
      requires Valid()
      modifies this`backlog, this`withheld
      ensures Valid() && View() == InsightCycle.Store(old(View()), ids, reason, paid, rowStored)
    {
      if rowStored {
        backlog := backlog[ids := Backlog.RowOf(reason, ident)];
      } else if paid {
        withheld := withheld + {ids};
      }
    }

    /** The write of a fold that succeeds, and the delete of its backlog row. */
    method WriteTold(ids: set<int>, told: NewInsight, rowIds: set<int>, rowDeleted: bool)
      requires Working()
      modifies this`backlog, store, store.outbox
      ensures store.outbox.rows == Outbox.FlipById(old(store.outbox.rows), rowIds)
      ensures Working()
      ensures View() == Backlogged(old(View()), ids, rowDeleted).(st := WriteInsight(old(store.St()), told))
      ensures store.ledger == old(store.ledger)
    {
      InsightKeepsLineage(store.St(), told);
      var id := store.WriteInsightSummary(told, rowIds);
      if rowDeleted { backlog := backlog - {ids}; }
    }

    /** A complete reply whose text was assembled: embed, write, and what is left of a failure. */
    method KeepText(t: Target, content: string, rowIds: set<int>) returns (ok: bool)
      requires Working() && CompleteReply(t.reply) && !Raises(t.reply)
      requires !BackupLock.ChatLost(t.reply.chat) && Calls(t.reply)
      requires Succeeded(t.reply) ==> content == Told(t).content
      modifies this`backlog, this`withheld, store, store.outbox
      ensures Working() && View() == Concluded(old(View()), t) && ok == Succeeded(t.reply)
      ensures store.outbox.rows == if ok then Outbox.FlipById(old(store.outbox.rows), rowIds)
        else old(store.outbox.rows)
      ensures store.ledger == old(store.ledger)
    {
      ok := false;
      SequelConcludes(View(), t);
      match t.reply.answer.sequel {
        case EmbedFailed(rowStored) =>
          StoreFailure(t.ids, Backlog.WriteFailed, true, rowStored);
        case WriteFailed(rowStored) =>
          StoreFailure(t.ids, Backlog.WriteFailed, true, rowStored);
        case Stored(fallback, domains, entities, rowDeleted) =>
          var project := if t.project != "" then t.project else fallback;
          var sources := SortIds(t.ids);
          var summaryIds := SortIds(Elems(t.summaryIds));
          WriteTold(t.ids, NewInsight(project, content, sources, summaryIds, domains, entities), rowIds, rowDeleted);
          ok := true;
      }
    }

    /** After the call: store why there are no slots, or assemble the text; the assembly may raise. */
    method Conclude(t: Target, generated: Generated, rowIds: set<int>) returns (ok: bool, exit: Exit)
      requires Working() && !BackupLock.ChatLost(t.reply.chat) && Calls(t.reply)
      requires GeneratedFor(t.reply, generated)
      modifies this`backlog, this`withheld, store, store.outbox
      ensures Working() && View() == Concluded(old(View()), t) && ok == Succeeded(t.reply)
      ensures store.outbox.rows == if ok then Outbox.FlipById(old(store.outbox.rows), rowIds)
        else old(store.outbox.rows)
      ensures exit == if Raises(t.reply) then OtherException else Normal
      ensures store.ledger == old(store.ledger)
    {
      ok, exit := false, Normal;
      if generated.slots.None? {
        if generated.reason.Some? {
          StoreFailure(t.ids, generated.reason.value, generated.paid, t.reply.answer.rowStored);
        }
        return;
      }
      var content := InsightContent.AssembleInsightContent(
        t.reply.rows, t.reply.reversals, generated.slots.value.0, generated.slots.value.1);
      if content.None? { return false, OtherException; }
      ok := KeepText(t, content.value, rowIds);
    }

    /**
     _fold_insight; an exception it does not catch is its exit. `during` is what the other writers had made of the
     outbox when the answer came, `marked` whether the graph could be marked after the write.
     */
    method FoldInsight(t: Target) returns (ok: bool, exit: Exit, ghost during: Outbox.Rows, ghost marked: bool)
      requires Working() && ReplyOk(t.reply)
      modifies this, store, store.lock, store.outbox
      ensures View() == InsightCycle.FoldInsight(old(View()), t)
      ensures abandoned == old(abandoned) && store.ledger == old(store.ledger)
      ensures ok == Succeeded(t.reply) && (exit != Normal <==> Throws(t.reply))
      ensures exit.ReacquireFailed? <==> Calls(t.reply) && BackupLock.ChatLost(t.reply.chat)
      ensures exit.ReacquireFailed? ==> store.St() == old(store.St())
      ensures Stands(exit)
      ensures store.outbox.rows
           == OutboxFolded(during, Outbox.SnapshotRows(old(store.outbox.rows), t.ids), ok, marked)
    {
      ok, exit, marked := false, Normal, false;
      during := store.outbox.rows;
      if |t.reply.rows| < 2 { return; }
      var rowIds := store.outbox.FetchInsightOutboxRows(t.ids);
      calls := calls + [Call(t.ids, process, era, EndingOf(t.reply))];
      ok, exit, during, marked := AskAndWrite(t, rowIds);
    }

    /** The call, and what follows it. */
    method AskAndWrite(t: Target, rowIds: set<int>)
      returns (ok: bool, exit: Exit, ghost during: Outbox.Rows, ghost marked: bool)
      requires Working() && Calls(t.reply)
      modifies this`lostAt, this`backlog, this`withheld, store, store.lock, store.outbox
      ensures View() == if BackupLock.ChatLost(t.reply.chat)
        then old(View()).(withheld := old(withheld) + {t.ids}) else Concluded(old(View()), t)
      ensures BackupLock.ChatLost(t.reply.chat) ==> store.St() == old(store.St()) && !ok && exit.ReacquireFailed?
      ensures !BackupLock.ChatLost(t.reply.chat) ==>
                ok == Succeeded(t.reply) && exit == if Raises(t.reply) then OtherException else Normal
      ensures store.ledger == old(store.ledger)
      ensures Stands(exit)
      ensures store.outbox.rows == OutboxFolded(during, rowIds, ok, marked)
    {
      ok, marked := false, false;
      var generated;
      exit, generated := GenerateInsightSlots(t.reply);
      during := store.outbox.rows;
      if !exit.Normal? {
        withheld := withheld + {t.ids};
        return;
      }
      ok, exit := Conclude(t, generated, rowIds);
      if ok { marked := CloseTold(rowIds); }
    }

    /** After the commit: the rows are deleted if the graph could be marked. */
    method CloseTold(rowIds: set<int>) returns (marked: bool)
      requires Working()
      modifies store.outbox
      ensures Working()
      ensures store.outbox.rows == if marked then Outbox.CloseById(old(store.outbox.rows), rowIds)
        else old(store.outbox.rows)
    {
      marked := *;
      if marked { var closed := store.outbox.CloseLedgerRowsById(rowIds); }
    }

    // ---------- refolds ----------

    method IsDeferred(cycle: InsightCycle.Cycle, ids: set<int>, rows: seq<ReadyRow>) returns (deferred: bool)
      ensures deferred == Deferred(cycle, ids, rows)
    {
      var carried := SortIds(Carried(cycle, ids));
      var unprocessed, duplicated := UnprocessedCarried(carried, rows);
      deferred := unprocessed != [];
      assert Elems(carried) == Carried(cycle, ids);
      if deferred {
        assert unprocessed[0] in unprocessed && unprocessed[0] in Unprocessed(Carried(cycle, ids), rows);
      } else {
        forall id | id in Unprocessed(Carried(cycle, ids), rows) ensures id in unprocessed {}
      }
    }

    method RefoldAll(cycle: InsightCycle.Cycle, blocked: set<set<int>>, refolds: seq<(int, Reply)>)
      returns (attempted: set<set<int>>, folded: set<int>, exit: Exit)
      requires Working() && cycle.check1.Some? && RefoldsOk(store.rows, refolds)
      modifies this, store, store.lock, store.outbox
      ensures Loop(View(), attempted, folded, exit != Normal)
           == RefoldLoop(Loop(old(View()), {}, {}, false), cycle, blocked, old(store.rows), refolds)
      ensures abandoned == old(abandoned) && store.ledger == old(store.ledger)
      ensures Stands(exit)
    {
      var rows := store.rows;
      ghost var start := Loop(View(), {}, {}, false);
      attempted, folded, exit := {}, {}, Normal;
      for i := 0 to |refolds|
        invariant Working() && exit == Normal
        invariant abandoned == old(abandoned) && store.ledger == old(store.ledger)
        invariant Loop(View(), attempted, folded, false) == RefoldLoop(start, cycle, blocked, rows, refolds[..i])
      {
        assert refolds[..i + 1][..i] == refolds[..i];
        var row := rows[refolds[i].0];
        var t := Target(Elems(row.sources), row.key.project, row.summaryIds, refolds[i].1);
        if t.ids !in blocked && t.ids !in withheld && t.ids !in attempted {
          var waits := IsDeferred(cycle, t.ids, cycle.check1.value);
          if !waits {
            attempted := attempted + {t.ids};
            var ok;
            ghost var during, marked;
            ok, exit, during, marked := FoldInsight(t);
            if ok { folded := folded + t.ids; }
            if exit != Normal {
              AbortEndsRefolds(start, cycle, blocked, rows, refolds, i + 1);
              return;
            }
          }
        }
      }
      assert refolds[..|refolds|] == refolds;
    }

    // ---------- identity ----------

    method FetchActiveInsightRows() returns (existing: seq<Row>)
      ensures ListsActive(existing, store.rows)
    {
      existing := [];
      var active := set id | id in store.rows && ActiveInsight(store.rows, id);
      var todo := active;
      while todo != {}
        invariant todo <= active
        invariant forall r :: r in existing ==> r.id in active && r.judgements == Elems(store.rows[r.id].sources)
        invariant forall id :: id in active && id !in todo ==> Row(id, Elems(store.rows[id].sources)) in existing
        decreases |todo|
      {
        ghost var any := Pick(todo);
        var id :| id in todo;
        existing := existing + [Row(id, Elems(store.rows[id].sources))];
        todo := todo - {id};
      }
    }

    method ActiveThematic(c: Cluster) returns (id: Option<int>)
      requires store.Valid()
      ensures id == Cites(store.rows, c)
    {
      var key := Key(c.project, c.section);
      OneActiveIn(store.St(), key);
      id := store.FindActive(key);
    }

    /** One component: same appends its references, covered adds nothing, new is the caller's to fold. */
    method ResolveOne(ghost listed: SummaryTable, existing: seq<Row>, c: Cluster) returns (matched: bool)
      requires Working() && ListsActive(existing, listed)
      modifies store
      ensures View() == old(View()).(st := AppendMatched(listed, old(store.St()), c))
      ensures matched <==> Held(listed, c.ids)
      ensures lostAt.None? && store.Guarded()
      ensures store.ledger == old(store.ledger)
    {
      var m := MatchExistingInsight(c.ids, existing);
      MatchMeans(existing, listed, c.ids, m);
      matched := m.Some?;
      if matched && m.value.relation == Same {
        assert forall id :: IsSame(listed, id, c.ids) ==> id == m.value.id;
        var cited := ActiveThematic(c);
        var appended := store.AppendInsightReferences(m.value.id, cited, c.section);
      }
    }

    /** Appends the references of every match; the components without one survive. */
    method ResolveIdentity(clusters: seq<Cluster>) returns (surviving: seq<Cluster>)
      requires Working()
      modifies store
      ensures Working()
      ensures View() == old(View()).(st := AppendMatches(old(store.rows), old(store.St()), clusters))
      ensures surviving == Keep(clusters, Unmatched(old(store.rows)))
      ensures store.ledger == old(store.ledger)
    {
      ghost var listed, start := store.rows, store.St();
      var existing := FetchActiveInsightRows();
      surviving := [];
      for i := 0 to |clusters|
        invariant Working()
        invariant store.ledger == old(store.ledger)
        invariant View() == old(View()).(st := AppendMatches(listed, start, clusters[..i]))
        invariant surviving == Keep(clusters[..i], Unmatched(listed))
      {
        AppendNext(listed, start, clusters, i);
        KeepNext(clusters, i, Unmatched(listed));
        var matched := ResolveOne(listed, existing, clusters[i]);
        if !matched { surviving := surviving + [clusters[i]]; }
      }
      assert clusters[..|clusters|] == clusters;
    }

    // ---------- fresh components ----------

    method Partition(
      cycle: InsightCycle.Cycle, clusters: seq<Cluster>, blocked: set<set<int>>) returns (ready: seq<Cluster>)
      requires cycle.check2.Some?
      ensures ready == Keep(Keep(Keep(clusters, Sendable(blocked, withheld)), SeveralMembers()),
        Processed(cycle, cycle.check2.value))
    {
      var sendable: seq<Cluster> := [];
      for i := 0 to |clusters|
        invariant sendable == Keep(clusters[..i], Sendable(blocked, withheld))
      {
        KeepNext(clusters, i, Sendable(blocked, withheld));
        var ids := clusters[i].ids;
        if !(ids != {} && (ids in blocked || ids in withheld)) { sendable := sendable + [clusters[i]]; }
      }
      assert clusters[..|clusters|] == clusters;
      var several: seq<Cluster> := [];
      for i := 0 to |sendable|
        invariant several == Keep(sendable[..i], SeveralMembers())
      {
        KeepNext(sendable, i, SeveralMembers());
        if !(|sendable[i].ids| < 2) { several := several + [sendable[i]]; }
      }
      assert sendable[..|sendable|] == sendable;
      ready := [];
      for i := 0 to |several|
        invariant ready == Keep(several[..i], Processed(cycle, cycle.check2.value))
      {
        KeepNext(several, i, Processed(cycle, cycle.check2.value));
        var waits := IsDeferred(cycle, several[i].ids, cycle.check2.value);
        if !waits { ready := ready + [several[i]]; }
      }
      assert several[..|several|] == several;
    }

    method FoldFresh(clusters: seq<Cluster>, attempted0: set<set<int>>, folded0: set<int>) returns (exit: Exit)
      requires Working() && RepliesOk(clusters)
      modifies this, store, store.lock, store.outbox
      ensures var out := FreshLoop(Loop(old(View()), attempted0, folded0, false), clusters);
              View() == out.d && (exit != Normal <==> out.aborted)
      ensures abandoned == old(abandoned) && store.ledger == old(store.ledger)
      ensures Stands(exit)
    {
      exit := Normal;
      ghost var start := Loop(View(), attempted0, folded0, false);
      var attempted, folded := attempted0, folded0;
      for i := 0 to |clusters|
        invariant Working() && exit == Normal
        invariant abandoned == old(abandoned) && store.ledger == old(store.ledger)
        invariant Loop(View(), attempted, folded, false) == FreshLoop(start, clusters[..i])
      {
        assert clusters[..i + 1][..i] == clusters[..i];
        var c := clusters[i];
        assert c in clusters;
        if c.ids != {} && c.ids * folded == {} && c.ids !in attempted {
          attempted := attempted + {c.ids};
          var cited := ActiveThematic(c);
          var t := Target(c.ids, c.project, if cited.Some? then [cited.value] else [], c.reply);
          var ok;
          ghost var during, marked;
          ok, exit, during, marked := FoldInsight(t);
          if ok { folded := folded + c.ids; }
          if exit != Normal {
            AbortEndsFresh(start, clusters, i + 1);
            return;
          }
        }
      }
      assert clusters[..|clusters|] == clusters;
    }

    // ---------- the cycle ----------

    /** The found components, with the replies they will meet. */
    method FreshFromGraph(
      cycle: InsightCycle.Cycle, g: InsightWalk.DreamGraph, facts: seq<Partitioner.Row>, threshold: nat)
      returns (clusters: seq<Cluster>)
      requires FreshClusters.RowsAreFacts(g, facts)
      requires FromGraph(cycle.clusters, FreshClusters.FreshOf(g, facts, threshold))
      ensures clusters == cycle.clusters
    {
      var found := FreshClusters.FindFreshInsightClusters(g, facts, threshold);
      clusters := seq(|found|, i requires 0 <= i < |found| && |found| == |cycle.clusters| =>
        Cluster(Elems(found[i].ids), found[i].project, found[i].section, cycle.clusters[i].reply));
    }

    /** Identity and partitions over the components, then the loop over what remains. */
    method FreshComponents(
      cycle: InsightCycle.Cycle, blocked: set<set<int>>, attempted: set<set<int>>, folded: set<int>, cut: Cut)
      returns (exit: Exit)
      requires Working() && cycle.check2.Some? && RepliesOk(cycle.clusters)
      modifies this, store, store.lock, store.outbox
      ensures var out := FreshPhase(Loop(old(View()), attempted, folded, false), cycle, blocked, cut);
              View() == out.d && (exit != Normal <==> out.aborted)
      ensures abandoned == old(abandoned) && store.ledger == old(store.ledger)
      ensures Stands(exit)
    {
      ghost var start := Loop(View(), attempted, folded, false);
      ghost var listed := store.rows;
      var surviving := ResolveIdentity(AppendsDone(cycle, cut));
      assert Loop(View(), attempted, folded, false) == AfterAppends(start, cycle, cut);
      if cut.InAppends? { return Normal; }
      var ready := Partition(cycle, surviving, blocked);
      assert ready == Foldable(cycle, listed, blocked, withheld);
      exit := FoldFresh(FreshDone(ready, cut), attempted, folded);
    }

    /** The fresh components of the graph, and the close of the refold ledger when nothing stopped the cycle. */
    method FreshToEnd(
      cycle: InsightCycle.Cycle, g: InsightWalk.DreamGraph, facts: seq<Partitioner.Row>, threshold: nat,
      records: DocTable, blocked: set<set<int>>, attempted: set<set<int>>, folded: set<int>, cut: Cut)
      returns (exit: Exit)
      requires Working() && cycle.check2.Some? && RepliesOk(cycle.clusters)
      requires FreshClusters.RowsAreFacts(g, facts)
        && FromGraph(cycle.clusters, FreshClusters.FreshOf(g, facts, threshold))
      modifies this, store, store.lock, store.outbox
      ensures var out := FreshPhase(Loop(old(View()), attempted, folded, false), cycle, blocked, cut);
              && View() == out.d && (exit != Normal <==> out.aborted)
              && store.ledger == if !out.aborted && cut.Whole?
                                 then CloseRefolds(old(store.ledger), store.rows, records) else old(store.ledger)
      ensures abandoned == old(abandoned)
      ensures Stands(exit)
    {
      var clusters := FreshFromGraph(cycle, g, facts, threshold);
      exit := FreshComponents(cycle.(clusters := clusters), blocked, attempted, folded, cut);
      if exit == Normal && cut.Whole? { store.CloseRefoldLedger(records); }
    }

    /** The refolds the cycle reaches. */
    method RefoldInsights(cycle: InsightCycle.Cycle, blocked: set<set<int>>, cut: Cut)
      returns (attempted: set<set<int>>, folded: set<int>, exit: Exit)
      requires Working() && cycle.check1.Some? && CycleOk(store.rows, cycle)
      requires blocked == Backlog.Blocked(backlog, ident)
      modifies this, store, store.lock, store.outbox
      ensures Loop(View(), attempted, folded, exit != Normal) == AfterRefolds(old(View()), cycle, cut)
      ensures abandoned == old(abandoned) && store.ledger == old(store.ledger)
      ensures Stands(exit)
    {
      attempted, folded, exit := RefoldAll(cycle, blocked, RefoldsDone(cycle, cut));
    }

    /**
     The body of run_insight_cycle; `cut` says where an exception that is not an answer of the model, or the end of the
     process, leaves it.
     */
    method CycleBody(
      cycle: InsightCycle.Cycle, g: InsightWalk.DreamGraph, facts: seq<Partitioner.Row>, threshold: nat,
      records: DocTable, cut: Cut)
      returns (exit: Exit)
      requires Working() && CycleOk(store.rows, cycle)
      requires FreshClusters.RowsAreFacts(g, facts)
        && FromGraph(cycle.clusters, FreshClusters.FreshOf(g, facts, threshold))
      modifies this, store, store.lock, store.outbox
      ensures View() == InsightPass(old(View()), cycle, cut)
      ensures abandoned == old(abandoned)
      ensures store.ledger == if Completes(old(View()), cycle, cut)
        then CloseRefolds(old(store.ledger), store.rows, records)
                              else old(store.ledger)
      ensures Stands(exit)
    {
      exit := Normal;
      if !cycle.backlogRead || cycle.check1.None? { return; }
      ghost var start := View();
      var blocked := Backlog.Blocked(backlog, ident);
      var attempted, folded;
      attempted, folded, exit := RefoldInsights(cycle, blocked, cut);
      ghost var l := Loop(View(), attempted, folded, exit != Normal);
      PassAfterRefolds(start, cycle, cut, l);
      if exit != Normal || cut.InRefolds? || cycle.check2.None? { return; }
      exit := FreshToEnd(cycle, g, facts, threshold, records, blocked, attempted, folded, cut);
    }

    /** The same as an event of a run. */
    method CycleEvent(
      cycle: InsightCycle.Cycle, g: InsightWalk.DreamGraph, facts: seq<Partitioner.Row>, threshold: nat,
      records: DocTable, cut: Cut)
      returns (exit: Exit)
      requires Working() && CycleOk(store.rows, cycle)
      requires FreshClusters.RowsAreFacts(g, facts)
        && FromGraph(cycle.clusters, FreshClusters.FreshOf(g, facts, threshold))
      modifies this, store, store.lock, store.outbox
      ensures World() == After(old(World()), InsightEvent(cycle, records, cut))
      ensures abandoned == old(abandoned)
      ensures Stands(exit)
    {
      exit := CycleBody(cycle, g, facts, threshold, records, cut);
    }

    /**
     run_insight_cycle catches every exception. When the lock was lost the run is left for a later cycle to record, and
     nothing more is written.
     */
    method RunInsightCycle(
      cycle: InsightCycle.Cycle, g: InsightWalk.DreamGraph, facts: seq<Partitioner.Row>, threshold: nat,
      records: DocTable, cut: Cut)
      requires Working() && RefoldsOk(store.rows, cycle.refolds) && RepliesOk(cycle.clusters)
      requires FreshClusters.RowsAreFacts(g, facts)
        && FromGraph(cycle.clusters, FreshClusters.FreshOf(g, facts, threshold))
      modifies this, store, store.lock, store.outbox
      ensures CycleOk(old(store.rows), cycle)
      ensures Valid()
      ensures World() == After(old(World()), InsightEvent(cycle, records, cut))
      ensures Working() || (store.lock.w.phase == BackupLock.Failed && lostAt == Some(store.Snapshot()))
      ensures abandoned == old(abandoned) + if Working() then 0 else 1
    {
      FoundFitTheCycle(cycle, store.rows, g, facts, threshold);
      var exit := CycleEvent(cycle, g, facts, threshold, records, cut);
      if exit.ReacquireFailed? { abandoned := abandoned + 1; }
    }

    // ---------- the sweep ----------

    /** _drain_abandoned_runs: only under the lock. */
    method DrainAbandonedRuns()
      requires Working()
      modifies this`abandoned
      ensures Working() && abandoned == 0 && View() == old(View())
    {
      abandoned := 0;
    }

    /** run_lineage_invalidation_pass: insights only; the fact cycle owns the thematic rows. */
    method InvalidateInsights(docs: DocTable)
      requires Working()
      modifies store
      ensures Working()
      ensures World() == After(old(World()), InvalidateEvent(docs))
    {
      RetireKeepsLineage(store.St(), InvalidatedIds(store.rows, docs, Insight, {}));
      var retired := store.RetireInvalidatedSummaries(docs, Insight, {});
    }

    method RecheckCitations(docs: DocTable)
      requires Working()
      modifies store
      ensures Working()
      ensures World() == After(old(World()), RecheckEvent(docs))
    {
      StepKeepsLineage(store.St(), RecheckStep(docs));
      store.RecheckKeptThematicIds(docs);
    }

    method ConsolidateFacts(scan: Scan, backlogRead: bool, outcomes: seq<Outcome>, stop: Stop)
      requires Working()
      requires Admissible(World(), FactEvent(scan, backlogRead, outcomes, stop))
      modifies store, store.outbox
      ensures Working()
      ensures World() == After(old(World()), FactEvent(scan, backlogRead, outcomes, stop))
    {
      ghost var marks := store.ConsolidateClusters(scan, backlogRead, outcomes, stop);
    }

    /** Invalidation, recheck and the fact cycle. */
    method SweepFacts(versions: SweepReads, scan: Scan, backlogRead: bool, outcomes: seq<Outcome>, stop: Stop)
      requires Working()
      requires Admissible(AfterRecheck(World(), versions), FactEvent(scan, backlogRead, outcomes, stop))
      modifies store, store.outbox
      ensures Working()
      ensures World() == BeforeInsights(old(World()), versions, scan, backlogRead, outcomes, stop)
    {
      InvalidateInsights(versions.invalidating);
      RecheckCitations(versions.rechecking);
      ConsolidateFacts(scan, backlogRead, outcomes, stop);
    }

    /** The sweep while the cycle holds its lock. */
    method SweepUnderLock(
      versions: SweepReads, scan: Scan, backlogRead: bool, outcomes: seq<Outcome>, stop: Stop,
      cycle: InsightCycle.Cycle, g: InsightWalk.DreamGraph, facts: seq<Partitioner.Row>, threshold: nat, cut: Cut)
      requires Working()
      requires Admissible(AfterRecheck(World(), versions), FactEvent(scan, backlogRead, outcomes, stop))
      requires var before := BeforeInsights(World(), versions, scan, backlogRead, outcomes, stop);
               RefoldsOk(before.d.st.rows, cycle.refolds)
      requires RepliesOk(cycle.clusters) && FreshClusters.RowsAreFacts(g, facts)
      requires FromGraph(cycle.clusters, FreshClusters.FreshOf(g, facts, threshold))
      modifies this, store, store.lock, store.outbox
      ensures Valid()
      ensures CycleOk(BeforeInsights(old(World()), versions, scan, backlogRead, outcomes, stop).d.st.rows, cycle)
      ensures World() == After(BeforeInsights(old(World()), versions, scan, backlogRead, outcomes, stop),
                               InsightEvent(cycle, versions.closing, cut))
      ensures Working() || (store.lock.w.phase == BackupLock.Failed && lostAt == Some(store.Snapshot()))
    {
      DrainAbandonedRuns();
      SweepFacts(versions, scan, backlogRead, outcomes, stop);
      RunInsightCycle(cycle, g, facts, threshold, versions.closing, cut);
    }

    /**
     _run_guarded_sweep, once it is due: skipped while the gateway dumps, and otherwise four events of a run under one
     lock, which is given back at the end whatever became of it.
     */
    method RunGuardedSweep(
      versions: SweepReads, scan: Scan, backlogRead: bool, outcomes: seq<Outcome>, stop: Stop,
      cycle: InsightCycle.Cycle, g: InsightWalk.DreamGraph, facts: seq<Partitioner.Row>, threshold: nat, cut: Cut)
      requires Valid() && store.lock.w.phase == BackupLock.Idle
      requires Admissible(AfterRecheck(World(), versions), FactEvent(scan, backlogRead, outcomes, stop))
      requires var before := BeforeInsights(World(), versions, scan, backlogRead, outcomes, stop);
               RefoldsOk(before.d.st.rows, cycle.refolds)
      requires RepliesOk(cycle.clusters) && FreshClusters.RowsAreFacts(g, facts)
      requires FromGraph(cycle.clusters, FreshClusters.FreshOf(g, facts, threshold))
      modifies this, store, store.lock, store.outbox
      ensures Valid() && store.lock.w.phase == BackupLock.Idle
      ensures old(store.lock.w.dumping) ==> World() == old(World())
      ensures CycleOk(BeforeInsights(old(World()), versions, scan, backlogRead, outcomes, stop).d.st.rows, cycle)
      ensures !old(store.lock.w.dumping) ==>
                World() == After(BeforeInsights(old(World()), versions, scan, backlogRead, outcomes, stop),
                                 InsightEvent(cycle, versions.closing, cut))
      ensures !old(store.lock.w.dumping) && lostAt.Some? ==> store.Snapshot() == lostAt.value
    {
      ghost var before := BeforeInsights(World(), versions, scan, backlogRead, outcomes, stop);
      FoundFitTheCycle(cycle, before.d.st.rows, g, facts, threshold);
      var started := StartCycle();
      if !started { return; }
      SweepUnderLock(versions, scan, backlogRead, outcomes, stop, cycle, g, facts, threshold, cut);
      EndCycle();
    }

    method StartCycle() returns (started: bool)
      requires Valid() && store.lock.w.phase == BackupLock.Idle
      modifies this`lostAt, store.lock
      ensures World() == old(World()) && started == !old(store.lock.w.dumping)
      ensures if started then Working() else Valid() && store.lock.w.phase == BackupLock.Idle
    {
      started := store.lock.TryStartCycle();
      if started { lostAt := None; }
    }

    /** The lock is given back, or was lost. */
    method EndCycle()
      requires Working() || (Valid() && store.lock.w.phase == BackupLock.Failed)
      modifies store.lock
      ensures Valid() && store.lock.w.phase == BackupLock.Idle
    {
      store.lock.Close();
    }
  }
}
