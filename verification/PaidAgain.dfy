/** The one complete reply that settles nothing, paid for again by every later cycle. */
module PaidAgain {
  import opened Tables
  import opened Succession
  import opened Lines
  import opened Markers
  import opened ByPgId
  import opened SlotProtocol
  import opened InsightContent
  import opened Readiness
  import opened InsightCycle
  import opened DreamRuns
  import Backlog
  import BackupLock

  /** A cycle whose one foldable component gets a complete reply that its assembly cannot use. */
  ghost predicate SendsBlank(d: Daemon, cycle: Cycle, c: Cluster) {
    cycle.backlogRead && cycle.refolds == [] && cycle.check1.Some? && cycle.check2.Some? && cycle.clusters == [c]
    && c.project != "" && ReplyOk(c.reply) && !Held(d.st.rows, c.ids)
    && c.ids !in Backlog.Blocked(d.backlog, d.ident) && c.ids !in d.withheld
    && |c.ids| >= 2 && !InsightCycle.Deferred(cycle, c.ids, cycle.check2.value)
    && BlankReply(c.reply)
  }

  /** A complete, paid reply over rows of which one decision is blank. */
  ghost predicate BlankReply(reply: Reply) {
    Calls(reply) && !BackupLock.ChatLost(reply.chat) && CompleteReply(reply)
    && exists row :: row in reply.rows && BlankDecision(row)
  }

  lemma FoldableIsIt(d: Daemon, cycle: Cycle, c: Cluster)
    requires SendsBlank(d, cycle, c)
    ensures Foldable(cycle, d.st.rows, Backlog.Blocked(d.backlog, d.ident), d.withheld) == [c]
  {
    KeepsOne(c, Unmatched(d.st.rows));
    KeepsOne(c, Sendable(Backlog.Blocked(d.backlog, d.ident), d.withheld));
    KeepsOne(c, SeveralMembers());
    KeepsOne(c, Processed(cycle, cycle.check2.value));
  }

  lemma KeepsOne(c: Cluster, keeps: Cluster -> bool)
    requires keeps(c)
    ensures Keep([c], keeps) == [c]
  {
    assert [c][..0] == [];
  }

  /** The reply is paid, and nothing at all remembers it. */
  lemma BlankReplyLeavesNoTrace(d: Daemon, t: Target)
    requires BlankReply(t.reply)
    ensures FoldInsight(d, t) == d.(calls := d.calls + [Call(t.ids, d.process, d.era, Raised)])
    ensures Throws(t.reply)
  {
    NoSkeletonExactly(t.reply.rows);
    assert Raises(t.reply);
  }

  lemma NothingAppended(d: Daemon, c: Cluster)
    requires !Held(d.st.rows, c.ids)
    ensures AppendMatches(d.st.rows, d.st, [c]) == d.st
  {
    assert [c][..0] == [];
    assert forall id :: ActiveInsight(d.st.rows, id) ==> Elems(d.st.rows[id].sources) != c.ids;
  }

  /** A cycle without refolds and without a match is the loop over what is foldable. */
  lemma PassIsItsLoop(d: Daemon, cycle: Cycle, foldable: seq<Cluster>)
    requires cycle.backlogRead && cycle.refolds == [] && cycle.check1.Some? && cycle.check2.Some?
    requires CycleOk(d.st.rows, cycle) && AppendMatches(d.st.rows, d.st, cycle.clusters) == d.st
    requires Foldable(cycle, d.st.rows, Backlog.Blocked(d.backlog, d.ident), d.withheld) == foldable
    ensures var out := FreshLoop(Loop(d, {}, {}, false), foldable);
            InsightPass(d, cycle, Whole) == out.d && (Completes(d, cycle, Whole) <==> !out.aborted)
  {
    var start := Loop(d, {}, {}, false);
    NothingRefolded(d, cycle);
    PassAfterRefolds(d, cycle, Whole, start);
    PhaseIsItsLoop(start, cycle, Backlog.Blocked(d.backlog, d.ident), foldable);
  }

  lemma NothingRefolded(d: Daemon, cycle: Cycle)
    requires cycle.refolds == [] && cycle.check1.Some? && CycleOk(d.st.rows, cycle)
    ensures AfterRefolds(d, cycle, Whole) == Loop(d, {}, {}, false)
  {
  }

  lemma PhaseIsItsLoop(l: Loop, cycle: Cycle, blocked: set<set<int>>, foldable: seq<Cluster>)
    requires cycle.check2.Some? && AppendMatches(l.d.st.rows, l.d.st, cycle.clusters) == l.d.st
    requires Foldable(cycle, l.d.st.rows, blocked, l.d.withheld) == foldable
    ensures FreshPhase(l, cycle, blocked, Whole) == FreshLoop(l, foldable)
  {
    assert AfterAppends(l, cycle, Whole) == l;
  }

  lemma LoopOfOne(l: Loop, c: Cluster)
    requires !l.aborted && c.ids != {} && c.ids * l.folded == {} && c.ids !in l.attempted
    ensures FreshLoop(l, [c]) == Attempt(l, FreshTarget(l.d.st.rows, c))
  {
    assert [c][..0] == [];
  }

  /** The cycle adds the call to the record and changes nothing else, so the next one is in the same place. */
  lemma CycleOnlyPays(d: Daemon, cycle: Cycle, c: Cluster)
    requires SendsBlank(d, cycle, c)
    ensures CycleOk(d.st.rows, cycle) && !Completes(d, cycle, Whole)
    ensures InsightPass(d, cycle, Whole) == d.(calls := d.calls + [Call(c.ids, d.process, d.era, Raised)])
    ensures SendsBlank(InsightPass(d, cycle, Whole), cycle, c)
  {
    BlankCycleOk(d, cycle, c);
    FoldableIsIt(d, cycle, c);
    NothingAppended(d, c);
    PassOfOne(d, cycle, c);
    StillSendsBlank(d, cycle, c, d.calls + [Call(c.ids, d.process, d.era, Raised)]);
  }

  lemma BlankCycleOk(d: Daemon, cycle: Cycle, c: Cluster)
    requires SendsBlank(d, cycle, c)
    ensures CycleOk(d.st.rows, cycle)
  {
  }

  lemma PassOfOne(d: Daemon, cycle: Cycle, c: Cluster)
    requires cycle.backlogRead && cycle.refolds == [] && cycle.check1.Some? && cycle.check2.Some?
    requires CycleOk(d.st.rows, cycle) && AppendMatches(d.st.rows, d.st, cycle.clusters) == d.st
    requires Foldable(cycle, d.st.rows, Backlog.Blocked(d.backlog, d.ident), d.withheld) == [c]
    requires BlankReply(c.reply) && c.ids != {}
    ensures !Completes(d, cycle, Whole)
    ensures InsightPass(d, cycle, Whole) == d.(calls := d.calls + [Call(c.ids, d.process, d.era, Raised)])
  {
    PassIsItsLoop(d, cycle, [c]);
    LoopOnlyPays(d, c);
  }

  lemma LoopOnlyPays(d: Daemon, c: Cluster)
    requires BlankReply(c.reply) && c.ids != {}
    ensures var out := FreshLoop(Loop(d, {}, {}, false), [c]);
            out.aborted && out.d == d.(calls := d.calls + [Call(c.ids, d.process, d.era, Raised)])
  {
    LoopOfOne(Loop(d, {}, {}, false), c);
    BlankReplyLeavesNoTrace(d, FreshTarget(d.st.rows, c));
  }

  lemma StillSendsBlank(d: Daemon, cycle: Cycle, c: Cluster, calls: seq<Call>)
    requires SendsBlank(d, cycle, c)
    ensures SendsBlank(d.(calls := calls), cycle, c)
  {
  }

  // ---------- two cycles from an empty installation ----------

  const IDENT := Backlog.Identity("pool", 8192, 2048, "boot")

  const REPLY_ENTRIES: seq<Entry> := [Entry(Slot(1), "a"), Entry(Slot(2), "b"), Entry(Principle, "c")]

  /** A decision whose content is one newline, and the retrospective on it. */
  const ROWS: Rows := [
    Member(1, Judgement("\n", false, None, "")),
    Member(2, Judgement("it held", true, Some(1), "kept"))]

  const CHAT := BackupLock.Chat(false, false, [], BackupLock.Grants, true, BackupLock.Grants)

  function BlankCluster(): Cluster {
    Cluster({1, 2}, "p", "s", Reply(ROWS, [], CHAT, Text(Print(REPLY_ENTRIES), true, EmbedFailed(true))))
  }

  function BlankCycle(): Cycle {
    Cycle(true, [], map[], Some([]), [BlankCluster()], Some([ReadyRow(1, true, false), ReadyRow(2, true, false)]))
  }

  const FIRST := World(Daemon(EMPTY, map[], {}, IDENT, 0, 0, []), [])

  lemma ShortIsClean(value: string)
    requires |value| == 1 && !IsSpace(value[0])
    ensures Clean(value)
  {
    SplitOneLine(value);
  }

  lemma EntriesAreClean()
    ensures forall e :: e in REPLY_ENTRIES ==> CleanEntry(e)
  {
    ShortIsClean("a");
    ShortIsClean("b");
    ShortIsClean("c");
    ThreeAreClean(Entry(Slot(1), "a"), Entry(Slot(2), "b"), Entry(Principle, "c"));
  }

  lemma ThreeAreClean(a: Entry, b: Entry, c: Entry)
    requires CleanEntry(a) && CleanEntry(b) && CleanEntry(c)
    ensures forall e :: e in [a, b, c] ==> CleanEntry(e)
  {
    forall e | e in [a, b, c] ensures e == a || e == b || e == c {}
  }

  lemma EntriesAnswer()
    ensures DistinctMarkers(REPLY_ENTRIES) && Answers(REPLY_ENTRIES, {1, 2})
  {
    assert REPLY_ENTRIES[0] == Entry(Slot(1), "a") && REPLY_ENTRIES[1] == Entry(Slot(2), "b");
    assert REPLY_ENTRIES[2] == Entry(Principle, "c");
    assert Entry(Slot(1), "a") in REPLY_ENTRIES && Entry(Slot(2), "b") in REPLY_ENTRIES;
    assert Entry(Principle, "c") in REPLY_ENTRIES;
  }

  lemma ReplyIsComplete(reply: Reply)
    requires reply.answer.Text? && reply.answer.text == Print(REPLY_ENTRIES) && ExpectedIds(reply) == {1, 2}
    ensures CompleteReply(reply)
  {
    EntriesAreClean();
    EntriesAnswer();
    PrintedReplyFills(REPLY_ENTRIES, {1, 2});
  }

  lemma RowsAreBlank()
    ensures exists row :: row in ROWS && BlankDecision(row)
  {
    assert ROWS[0] == Member(1, Judgement("\n", false, None, ""));
    assert ROWS[0] in ROWS && BlankDecision(ROWS[0]);
  }

  lemma ReplyIsBlank()
    ensures BlankReply(BlankCluster().reply)
  {
    var reply := BlankCluster().reply;
    assert ROWS[0].id == 1 && ROWS[1].id == 2 && |ROWS| == 2;
    assert ExpectedIds(reply) == {1, 2};
    ReplyIsComplete(reply);
    RowsAreBlank();
  }

  lemma BothProcessed()
    ensures !InsightCycle.Deferred(BlankCycle(), {1, 2}, BlankCycle().check2.value)
  {
    var ready := BlankCycle().check2.value;
    assert SoleNode(ready, 1, 0) && SoleNode(ready, 2, 1);
    assert Ready(ready, 1) && Ready(ready, 2);
    assert Carried(BlankCycle(), {1, 2}) == {1, 2};
  }

  /** A fresh daemon holds nothing and withholds nothing. */
  lemma FreshWithholdsNothing(d: Daemon, ids: set<int>)
    requires d.st == EMPTY && d.backlog == map[] && d.withheld == {}
    ensures !Held(d.st.rows, ids) && ids !in Backlog.Blocked(d.backlog, d.ident) && ids !in d.withheld
  {
  }

  lemma BlankClusterIsOk()
    ensures ReplyOk(BlankCluster().reply) && |BlankCluster().ids| >= 2
  {
    assert ROWS[0].id == 1 && ROWS[1].id == 2 && |ROWS| == 2;
  }

  lemma BlankIsSent()
    ensures SendsBlank(FIRST.d, BlankCycle(), BlankCluster())
  {
    ReplyIsBlank();
    BothProcessed();
    BlankClusterIsOk();
    FreshWithholdsNothing(FIRST.d, BlankCluster().ids);
  }

  /** The cycle as an event of a run. */
  lemma EventOnlyPays(w: World, cycle: Cycle, c: Cluster) returns (e: Event, next: World)
    requires SendsBlank(w.d, cycle, c)
    ensures Admissible(w, e) && next == After(w, e)
    ensures next == w.(d := w.d.(calls := w.d.calls + [Call(c.ids, w.d.process, w.d.era, Raised)]))
    ensures SendsBlank(next.d, cycle, c)
  {
    CycleOnlyPays(w.d, cycle, c);
    e := InsightEvent(cycle, map[], Whole);
    next := After(w, e);
  }

  /** A run that pays twice for the same set, in one process and under one identity. */
  lemma OneSetPaidTwice() returns (trace: seq<World>, events: seq<Event>)
    ensures IsRun(trace, events) && |trace| == 3
    ensures |trace[2].d.calls| == 2
    ensures var a, b := trace[2].d.calls[0], trace[2].d.calls[1];
            a == b && a.ending == Raised && a.ids == {1, 2}
  {
    BlankIsSent();
    trace, events := PaysTwice(FIRST, BlankCycle(), BlankCluster());
  }

  lemma PaysTwice(first: World, cycle: Cycle, c: Cluster) returns (trace: seq<World>, events: seq<Event>)
    requires first.d.st == EMPTY && first.d.calls == [] && first.ledger == [] && SendsBlank(first.d, cycle, c)
    ensures IsRun(trace, events) && |trace| == 3
    ensures var call := Call(c.ids, first.d.process, first.d.era, Raised); trace[2].d.calls == [call, call]
  {
    var e, second := EventOnlyPays(first, cycle, c);
    var f, third := EventOnlyPays(second, cycle, c);
    TwoEventsRun(first, e, second, f, third);
    trace, events := [first, second, third], [e, f];
  }
}
