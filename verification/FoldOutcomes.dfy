/** Every way the fold of one judgement set can end, over what the gateway, the embedder and the tables answered. */
module FoldOutcomes {
  import opened Tables
  import opened Succession
  import opened SlotProtocol
  import opened InsightContent
  import opened InsightCycle
  import opened InsightRuns
  import Backlog
  import BackupLock

  // ---------- the record of the call, and what a failure leaves ----------

  function Called(d: Daemon, ids: set<int>, ending: Ending): Daemon {
    d.(calls := d.calls + [Call(ids, d.process, d.era, ending)])
  }

  /** A failure with its reason: a backlog row, or a set withheld by this process if it was paid for and has no row. */
  function Failed(d: Daemon, ids: set<int>, reason: Backlog.Reason, paid: bool, stored: bool): Daemon {
    if stored then
      Called(d, ids, RowStored)
        .(backlog := d.backlog[ids := Backlog.Row(reason, d.ident.ctx, d.ident.reply, d.ident.pool, d.ident.boot)])
    else if paid then Called(d, ids, PaidUnstored).(withheld := d.withheld + {ids})
    else Called(d, ids, Unpaid)
  }

  /** Neither the old session nor a new one got the lock back after the request. */
  predicate LockLost(chat: BackupLock.Chat) {
    !(!chat.unlockRaises && !chat.dies && chat.first.Grants?) && !(chat.connects && chat.second.Grants?)
  }

  /** The principle is told, and every judgement found has its sentence. */
  ghost predicate FillsAll(reply: Reply) {
    && reply.answer.Text? && PrincipleOf(reply.answer.text).Some?
    && forall row :: row in reply.rows ==> row.id in SlotsOf(reply.answer.text)
  }

  ghost predicate HasBlankDecision(rows: Rows) {
    exists row :: row in rows && BlankDecision(row)
  }

  lemma FillsAllExactly(reply: Reply)
    ensures CompleteReply(reply) <==> FillsAll(reply)
  {
    forall id ensures id in ExpectedIds(reply) <==> exists row :: row in reply.rows && row.id == id {
      if id in ExpectedIds(reply) {
        var i :| 0 <= i < |reply.rows| && reply.rows[i].id == id;
        assert reply.rows[i] in reply.rows;
      }
      if row :| row in reply.rows && row.id == id {
        var i :| 0 <= i < |reply.rows| && reply.rows[i] == row;
      }
    }
  }

  /** No call without two judgements; a lock that is lost withholds the set and ends the cycle. */
  lemma FoldWithoutAnswer(d: Daemon, t: Target)
    requires |t.reply.rows| < 2 || LockLost(t.reply.chat)
    ensures FoldInsight(d, t) == if |t.reply.rows| < 2 then d
      else Called(d, t.ids, PaidUnstored).(withheld := d.withheld + {t.ids})
    ensures Throws(t.reply) <==> |t.reply.rows| >= 2
  {
  }

  /** No text: nothing is remembered without a reason, and with one what a failure leaves. */
  lemma FoldWithoutText(d: Daemon, t: Target)
    requires |t.reply.rows| >= 2 && !LockLost(t.reply.chat) && t.reply.answer.NoText?
    ensures var a := t.reply.answer;
            FoldInsight(d, t) == if a.reason.None? then Called(d, t.ids, Unpaid)
            else Failed(d, t.ids, a.reason.value, a.paid, a.rowStored)
    ensures !Throws(t.reply)
  {
  }

  /** A text that leaves a sentence out is paid for and unparseable; a blank decision makes its assembly raise. */
  lemma FoldWithoutInsight(d: Daemon, t: Target)
    requires |t.reply.rows| >= 2 && !LockLost(t.reply.chat) && t.reply.answer.Text?
    requires !FillsAll(t.reply) || HasBlankDecision(t.reply.rows)
    ensures FoldInsight(d, t) == if !FillsAll(t.reply)
      then Failed(d, t.ids, Backlog.Unparseable, true, t.reply.answer.rowStored) else Called(d, t.ids, Raised)
    ensures Throws(t.reply) <==> FillsAll(t.reply)
  {
    FillsAllExactly(t.reply);
    NoSkeletonExactly(t.reply.rows);
  }

  /** What the insight says: the rows' skeleton, filled with the sentences and the principle of the reply. */
  ghost function TextOf(reply: Reply): string
    requires reply.answer.Text? && PrincipleOf(reply.answer.text).Some? && Skeleton(reply.rows).Some?
  {
    Complete(Skeleton(reply.rows).value, reply.reversals, SlotsOf(reply.answer.text),
      PrincipleOf(reply.answer.text).value)
  }

  /** A full text is kept if it can be embedded and written; then its backlog row goes, when that can be deleted. */
  lemma FoldWithInsight(d: Daemon, t: Target)
    requires |t.reply.rows| >= 2 && !LockLost(t.reply.chat) && FillsAll(t.reply) && !HasBlankDecision(t.reply.rows)
    ensures Skeleton(t.reply.rows).Some? && !Throws(t.reply)
    ensures var out := FoldInsight(d, t);
            match t.reply.answer.sequel
            case EmbedFailed(stored) => out == Failed(d, t.ids, Backlog.WriteFailed, true, stored)
            case WriteFailed(stored) => out == Failed(d, t.ids, Backlog.WriteFailed, true, stored)
            case Stored(fallback, domains, entities, deleted) =>
              var project := if t.project == "" then fallback else t.project;
              var told := NewInsight(project, TextOf(t.reply), Sorted(t.ids), Sorted(Elems(t.summaryIds)), domains,
                                     entities);
              out == Called(d, t.ids, InsightCycle.Written)
                       .(backlog := if deleted then d.backlog - {t.ids} else d.backlog, st := WriteInsight(d.st, told))
  {
    FillsAllExactly(t.reply);
    NoSkeletonExactly(t.reply.rows);
  }

  // ---------- the row that is told ----------

  /** The fold wrote an insight. */
  ghost predicate Tells(reply: Reply) {
    |reply.rows| >= 2 && !LockLost(reply.chat) && FillsAll(reply) && !HasBlankDecision(reply.rows)
    && reply.answer.sequel.Stored?
  }

  lemma WrittenExactly(reply: Reply)
    ensures EndingOf(reply) == InsightCycle.Written <==>
              !BackupLock.ChatLost(reply.chat) && CompleteReply(reply) && !Raises(reply) && reply.answer.sequel.Stored?
  {
  }

  lemma RaisesExactly(reply: Reply)
    ensures CompleteReply(reply) ==> (Raises(reply) <==> HasBlankDecision(reply.rows))
  {
    NoSkeletonExactly(reply.rows);
  }

  lemma TellsExactly(reply: Reply)
    ensures Tells(reply) <==> Succeeded(reply)
  {
    FillsAllExactly(reply);
    RaisesExactly(reply);
    WrittenExactly(reply);
  }

  /** The row inserted: an active insight of the set, ascending, citing what the fold was asked to cite. */
  ghost predicate InsertedRow(row: Summary, t: Target) {
    row.kind == Insight && !row.superseded && Ascending(row.sources) && Elems(row.sources) == t.ids
    && Ascending(row.summaryIds) && Elems(row.summaryIds) == Elems(t.summaryIds)
    && (t.project != "" ==> row.key.project == t.project)
  }

  lemma WriteInserts(st: State, told: NewInsight)
    requires st.nextId !in st.rows
    ensures var out := WriteInsight(st, told).rows;
            && st.nextId in out
            && var row := out[st.nextId];
               && row.kind == Insight && !row.superseded && row.key.project == told.project
               && row.sources == told.sources && row.summaryIds == told.summaryIds && row.content == told.content
               && row.domains == told.domains && row.entities == told.entities
  {
  }

  lemma ToldIsInserted(d: Daemon, t: Target)
    requires Tells(t.reply) && d.st.nextId !in d.st.rows
    ensures Skeleton(t.reply.rows).Some?
    ensures var out := FoldInsight(d, t).st;
            && d.st.nextId in out.rows && InsertedRow(out.rows[d.st.nextId], t)
            && out.rows[d.st.nextId].content == TextOf(t.reply)
            && out.rows[d.st.nextId].domains == t.reply.answer.sequel.domains
            && out.rows[d.st.nextId].entities == t.reply.answer.sequel.entities
  {
    FoldWithInsight(d, t);
    var sequel := t.reply.answer.sequel;
    var told := NewInsight(
      if t.project == "" then sequel.fallback else t.project, TextOf(t.reply), Sorted(t.ids),
      Sorted(Elems(t.summaryIds)), sequel.domains, sequel.entities);
    assert FoldInsight(d, t).st == WriteInsight(d.st, told);
    WriteInserts(d.st, told);
    SortedAscends(t.ids);
    SortedAscends(Elems(t.summaryIds));
  }

  lemma SortedAscends(s: set<int>)
    ensures Ascending(Sorted(s)) && Elems(Sorted(s)) == s
  {
  }

  /** A refold that is told has the project, the judgements and the citations of the insight it refolds. */
  lemma RefoldRetells(d: Daemon, rows: SummaryTable, refold: (int, Reply))
    requires refold.0 in rows && Tells(refold.1) && d.st.nextId !in d.st.rows && rows[refold.0].key.project != ""
    ensures var out := FoldInsight(d, RefoldTarget(rows, refold)).st;
            && d.st.nextId in out.rows
            && var row := out.rows[d.st.nextId];
               && row.key.project == rows[refold.0].key.project
               && Elems(row.sources) == Elems(rows[refold.0].sources)
               && Elems(row.summaryIds) == Elems(rows[refold.0].summaryIds)
  {
    ToldIsInserted(d, RefoldTarget(rows, refold));
  }

  /** A fresh insight is of its component and project, and cites exactly the active row of the group it came from. */
  lemma FreshTellsItsGroup(d: Daemon, c: Cluster, s: int)
    requires Tells(c.reply) && SoundLineage(d.st) && c.project != ""
    ensures var out := FoldInsight(d, FreshTarget(d.st.rows, c)).st;
            && d.st.nextId in out.rows
            && var row := out.rows[d.st.nextId];
               && row.key.project == c.project && Elems(row.sources) == c.ids
               && (s in row.summaryIds <==> ActiveRow(d.st.rows, s, Key(c.project, c.section)))
  {
    var t := FreshTarget(d.st.rows, c);
    assert d.st.nextId !in d.st.rows;
    ToldIsInserted(d, t);
    if ActiveRow(d.st.rows, s, Key(c.project, c.section)) {
      OneActiveRowPerKey(d.st, s, Cites(d.st.rows, c).value, Key(c.project, c.section));
    }
    var row := FoldInsight(d, t).st.rows[d.st.nextId];
    assert s in row.summaryIds <==> s in Elems(row.summaryIds);
    assert s in Elems(t.summaryIds) <==> s in t.summaryIds;
  }

  // ---------- an exact match ----------

  predicate IsOf(listed: SummaryTable, id: int, ids: set<int>) {
    id in listed && listed[id].kind == Insight && !listed[id].superseded && Elems(listed[id].sources) == ids
  }

  /** The active insight of exactly this set with the smallest id. */
  ghost predicate Matches(listed: SummaryTable, id: int, ids: set<int>) {
    IsOf(listed, id, ids) && forall x :: IsOf(listed, x, ids) ==> id <= x
  }

  lemma MatchesExactly(listed: SummaryTable, id: int, ids: set<int>)
    ensures Matches(listed, id, ids) <==> IsSame(listed, id, ids)
  {
    assert forall x :: SameSet(listed, x, ids) <==> IsOf(listed, x, ids);
  }

  /** Some of these components is matched by the insight, and was reached from the group of this row. */
  ghost predicate ReachedFrom(
    listed: SummaryTable, rows: SummaryTable, clusters: seq<Cluster>, id: int, s: int) {
    exists c :: c in clusters && Matches(listed, id, c.ids) && ActiveRow(rows, s, Key(c.project, c.section))
  }

  ghost predicate ReachedIn(listed: SummaryTable, clusters: seq<Cluster>, id: int, section: string) {
    section != "" && exists c :: c in clusters && Matches(listed, id, c.ids) && c.section == section
  }

  /** The lists of one row after the pass: what they held, and what the matched components add, and no other column. */
  ghost predicate Extended(
    listed: SummaryTable, rows: SummaryTable, clusters: seq<Cluster>, id: int, before: Summary, after: Summary) {
    && after == before.(summaryIds := after.summaryIds, domains := after.domains)
    && before.summaryIds <= after.summaryIds && before.domains <= after.domains
    && (forall s :: s in after.summaryIds <==> s in before.summaryIds || ReachedFrom(listed, rows, clusters, id, s))
    && forall n :: n in after.domains <==> n in before.domains || ReachedIn(listed, clusters, id, n)
  }

  /** The pass over these components changes no row but to extend it so. */
  ghost predicate ReferencesAdded(listed: SummaryTable, rows: SummaryTable, clusters: seq<Cluster>, out: SummaryTable) {
    out.Keys == rows.Keys && forall id :: id in rows ==> Extended(listed, rows, clusters, id, rows[id], out[id])
  }

  lemma NoClusterAddsNothing(listed: SummaryTable, rows: SummaryTable)
    ensures ReferencesAdded(listed, rows, [], rows)
  {
  }

  lemma SameThematicRows(listed: SummaryTable, rows: SummaryTable, clusters: seq<Cluster>, out: SummaryTable, key: Key)
    requires ReferencesAdded(listed, rows, clusters, out)
    ensures forall s :: ActiveRow(out, s, key) <==> ActiveRow(rows, s, key)
  {
    forall s | s in rows ensures ActiveRow(out, s, key) <==> ActiveRow(rows, s, key) {
      assert Extended(listed, rows, clusters, s, rows[s], out[s]);
    }
  }

  /** One more component. */
  lemma OneMoreReference(st: State, clusters: seq<Cluster>, before: State, c: Cluster)
    requires SoundLineage(st) && SoundLineage(before) && ReferencesAdded(st.rows, st.rows, clusters, before.rows)
    ensures ReferencesAdded(st.rows, st.rows, clusters + [c], AppendMatched(st.rows, before, c).rows)
  {
    var out, key := AppendMatched(st.rows, before, c).rows, Key(c.project, c.section);
    SameThematicRows(st.rows, st.rows, clusters, before.rows, key);
    forall id | id in st.rows ensures Extended(st.rows, st.rows, clusters + [c], id, st.rows[id], out[id]) {
      assert Extended(st.rows, st.rows, clusters, id, st.rows[id], before.rows[id]);
      MatchedExtends(st, before, c, id);
      ExtendedByOne(st.rows, st.rows, clusters, c, id, st.rows[id], before.rows[id], out[id]);
    }
  }

  /** What the component adds to a row it matches, and to one it does not. */
  ghost predicate ExtendedOnce(
    listed: SummaryTable, rows: SummaryTable, c: Cluster, id: int, row: Summary, out: Summary) {
    && out == row.(summaryIds := out.summaryIds, domains := out.domains)
    && row.summaryIds <= out.summaryIds && row.domains <= out.domains
    && (forall s :: s in out.summaryIds <==>
          s in row.summaryIds || (Matches(listed, id, c.ids) && ActiveRow(rows, s, Key(c.project, c.section))))
    && forall n :: n in out.domains <==>
         n in row.domains || (Matches(listed, id, c.ids) && n == c.section && c.section != "")
  }

  lemma MatchedExtends(st: State, before: State, c: Cluster, id: int)
    requires SoundLineage(st) && SoundLineage(before) && id in st.rows && before.rows.Keys == st.rows.Keys
    requires before.rows[id].kind == st.rows[id].kind && before.rows[id].superseded == st.rows[id].superseded
    requires forall s :: ActiveRow(before.rows, s, Key(c.project, c.section)) <==>
                           ActiveRow(st.rows, s, Key(c.project, c.section))
    ensures var out := AppendMatched(st.rows, before, c).rows;
            out.Keys == st.rows.Keys && ExtendedOnce(st.rows, st.rows, c, id, before.rows[id], out[id])
  {
    var key := Key(c.project, c.section);
    MatchesExactly(st.rows, id, c.ids);
    forall s ensures Cites(before.rows, c) == Some(s) <==> ActiveRow(st.rows, s, key) {
      if ActiveRow(st.rows, s, key) { OneActiveRowPerKey(before, s, Cites(before.rows, c).value, key); }
    }
  }

  lemma ExtendedByOne(
    listed: SummaryTable, rows: SummaryTable, clusters: seq<Cluster>, c: Cluster, id: int, first: Summary, row: Summary,
    out: Summary)
    requires Extended(listed, rows, clusters, id, first, row) && ExtendedOnce(listed, rows, c, id, row, out)
    ensures Extended(listed, rows, clusters + [c], id, first, out)
  {
    var more := clusters + [c];
    forall s ensures ReachedFrom(listed, rows, more, id, s) <==>
      ReachedFrom(listed, rows, clusters, id, s)
      || (Matches(listed, id, c.ids) && ActiveRow(rows, s, Key(c.project, c.section)))
    {
      assert c in more && forall x :: x in more <==> x in clusters || x == c;
    }
    forall n ensures ReachedIn(listed, more, id, n) <==>
      ReachedIn(listed, clusters, id, n) || (Matches(listed, id, c.ids) && n == c.section && c.section != "")
    {
      assert c in more && forall x :: x in more <==> x in clusters || x == c;
    }
  }

  /**
   The identity pass: the smallest active insight of exactly a component's judgements cites the active row of the group
   the component was reached from and names its section; nothing is added otherwise, and nothing else is changed.
   */
  lemma {:induction false} ReferencesExactly(st: State, clusters: seq<Cluster>)
    requires SoundLineage(st)
    ensures var out := AppendMatches(st.rows, st, clusters);
            SoundLineage(out) && ReferencesAdded(st.rows, st.rows, clusters, out.rows)
  {
    AppendsKeepLineage(st.rows, st, clusters);
    if clusters == [] {
      NoClusterAddsNothing(st.rows, st.rows);
    } else {
      var front, c := clusters[..|clusters| - 1], clusters[|clusters| - 1];
      ReferencesExactly(st, front);
      OneMoreReference(st, front, AppendMatches(st.rows, st, front), c);
      assert clusters == front + [c];
    }
  }
}
