/** No judgement set is paid for again while the reason it failed still stands. */
module PaidOnce {
  import opened Tables
  import opened InsightCycle
  import opened InsightRuns
  import Backlog
  import BackupLock
  import InsightContent

  /** A stored row settles its set for the identity it was stored under; an unstored one for the process that paid. */
  predicate Settles(a: Call, b: Call) {
    a.ids == b.ids && ((a.ending == RowStored && a.era == b.era)
      || (a.ending == PaidUnstored && a.process == b.process))
  }

  /** No call follows one that settled its set. */
  predicate NeverRepaid(calls: seq<Call>) {
    forall i, j :: 0 <= i < j < |calls| ==> !Settles(calls[i], calls[j])
  }

  /** A call that settled its set here and now has it among those the next cycle will read as withheld. */
  ghost predicate Kept(d: Daemon, c: Call) {
    c.process <= d.process && c.era <= d.era
    && (c.ending == RowStored && c.era == d.era ==> c.ids in Backlog.Blocked(d.backlog, d.ident))
    && (c.ending == PaidUnstored && c.process == d.process ==> c.ids in d.withheld)
  }

  ghost predicate Remembered(d: Daemon) {
    NeverRepaid(d.calls) && forall i :: 0 <= i < |d.calls| ==> Kept(d, d.calls[i])
  }

  /** Mid-cycle, what was settled is among the sets read at the start, or was attempted since. */
  ghost predicate Met(l: Loop, blocked: set<set<int>>, withheld: set<set<int>>, c: Call) {
    (c.ending == RowStored && c.era == l.d.era ==> c.ids in blocked + l.attempted)
    && (c.ending == PaidUnstored && c.process == l.d.process ==> c.ids in withheld + l.attempted)
  }

  ghost predicate Guarded(l: Loop, blocked: set<set<int>>, withheld: set<set<int>>) {
    Remembered(l.d) && withheld <= l.d.withheld
    && forall i :: 0 <= i < |l.d.calls| ==> Met(l, blocked, withheld, l.d.calls[i])
  }

  lemma AttemptKeepsGuard(l: Loop, blocked: set<set<int>>, withheld: set<set<int>>, t: Target)
    requires Guarded(l, blocked, withheld)
    requires t.ids !in blocked && t.ids !in withheld && t.ids !in l.attempted
    ensures Guarded(Attempt(l, t), blocked, withheld)
  {
    FoldRemembers(l.d, t);
    var out, sent := Attempt(l, t), Call(t.ids, l.d.process, l.d.era, EndingOf(t.reply));
    if Calls(t.reply) { NotSettled(l, blocked, withheld, sent); }
    forall i | 0 <= i < |out.d.calls|
      ensures Kept(out.d, out.d.calls[i]) && Met(out, blocked, withheld, out.d.calls[i])
    {
      if i < |l.d.calls| {
        assert out.d.calls[i] == l.d.calls[i];
        assert Met(l, blocked, withheld, l.d.calls[i]);
      } else {
        assert out.d.calls[i] == sent;
      }
    }
  }

  /** What is neither withheld nor attempted yet was settled by no call. */
  lemma NotSettled(l: Loop, blocked: set<set<int>>, withheld: set<set<int>>, c: Call)
    requires Guarded(l, blocked, withheld) && c.process == l.d.process && c.era == l.d.era
    requires c.ids !in blocked && c.ids !in withheld && c.ids !in l.attempted
    ensures forall i :: 0 <= i < |l.d.calls| ==> !Settles(l.d.calls[i], c)
    ensures NeverRepaid(l.d.calls + [c])
  {
  }

  /** A set that stores a failure keeps every other key as it was. */
  lemma StoreRemembers(d: Daemon, ids: set<int>, reason: Backlog.Reason, paid: bool, rowStored: bool)
    ensures var out := InsightCycle.Store(d, ids, reason, paid, rowStored);
            && out.(backlog := d.backlog, withheld := d.withheld) == d && d.withheld <= out.withheld
            && Backlog.Blocked(d.backlog, d.ident) <= Backlog.Blocked(out.backlog, d.ident)
            && (rowStored ==> ids in Backlog.Blocked(out.backlog, d.ident))
            && (!rowStored && paid ==> ids in out.withheld)
            && (!rowStored ==> out.backlog == d.backlog) && (rowStored || !paid ==> out.withheld == d.withheld)
  {
    Backlog.StoredRowBlocks(d.backlog, ids, reason, d.ident);
  }

  lemma AnsweredRemembers(d: Daemon, t: Target)
    ensures var out := Answered(d, t);
            && out.(backlog := d.backlog, withheld := d.withheld) == d && d.withheld <= out.withheld
            && (forall key :: key != t.ids && key in Backlog.Blocked(d.backlog, d.ident) ==>
                  key in Backlog.Blocked(out.backlog, d.ident))
            && (!BackupLock.ChatLost(t.reply.chat) && EndingOf(t.reply) == RowStored ==>
                  t.ids in Backlog.Blocked(out.backlog, d.ident))
            && (!BackupLock.ChatLost(t.reply.chat) && EndingOf(t.reply) == PaidUnstored ==> t.ids in out.withheld)
  {
    match FailureOf(t.reply) {
      case Some(failure) => StoreRemembers(d, t.ids, failure.reason, failure.paid, failure.rowStored);
      case None => Backlog.StoredRowBlocks(d.backlog, t.ids, Backlog.WriteFailed, d.ident);
    }
  }

  /** A fold adds its own call, keeps every withheld set, and changes the backlog at its own key only. */
  lemma FoldRemembers(d: Daemon, t: Target)
    ensures var out, ending := FoldInsight(d, t), EndingOf(t.reply);
            && out.ident == d.ident && out.process == d.process && out.era == d.era && d.withheld <= out.withheld
            && out.calls == d.calls + (if Calls(t.reply) then [Call(t.ids, d.process, d.era, ending)] else [])
            && (forall key :: key != t.ids && key in Backlog.Blocked(d.backlog, d.ident) ==>
                  key in Backlog.Blocked(out.backlog, out.ident))
            && (Calls(t.reply) && ending == RowStored ==> t.ids in Backlog.Blocked(out.backlog, out.ident))
            && (Calls(t.reply) && ending == PaidUnstored ==> t.ids in out.withheld)
  {
    if Calls(t.reply) {
      AnsweredRemembers(d.(calls := d.calls + [Call(t.ids, d.process, d.era, EndingOf(t.reply))]), t);
    }
  }

  lemma {:induction false} RefoldsKeepGuard(
    l: Loop, cycle: Cycle, blocked: set<set<int>>, withheld: set<set<int>>, rows: SummaryTable,
    refolds: seq<(int, Reply)>)
    requires cycle.check1.Some? && RefoldsOk(rows, refolds) && Guarded(l, blocked, withheld)
    ensures Guarded(RefoldLoop(l, cycle, blocked, rows, refolds), blocked, withheld)
  {
    if refolds != [] {
      var front := refolds[..|refolds| - 1];
      RefoldsKeepGuard(l, cycle, blocked, withheld, rows, front);
      var before := RefoldLoop(l, cycle, blocked, rows, front);
      var t := RefoldTarget(rows, refolds[|refolds| - 1]);
      if RefoldStep(before, cycle, blocked, t) != before { AttemptKeepsGuard(before, blocked, withheld, t); }
    }
  }

  lemma {:induction false} FreshKeepsGuard(
    l: Loop, blocked: set<set<int>>, withheld: set<set<int>>, clusters: seq<Cluster>)
    requires Guarded(l, blocked, withheld)
    requires forall c :: c in clusters ==> c.ids == {} || (c.ids !in blocked && c.ids !in withheld)
    ensures Guarded(FreshLoop(l, clusters), blocked, withheld)
  {
    if clusters != [] {
      var front, c := clusters[..|clusters| - 1], clusters[|clusters| - 1];
      assert c in clusters && forall x :: x in front ==> x in clusters;
      FreshKeepsGuard(l, blocked, withheld, front);
      var before := FreshLoop(l, front);
      if FreshStep(before, c) != before {
        AttemptKeepsGuard(before, blocked, withheld, FreshTarget(before.d.st.rows, c)); }
    }
  }

  /** Whole or cut anywhere, a cycle sends nothing settled, and remembers what it settles. */
  lemma CycleRemembers(d: Daemon, cycle: Cycle, cut: Cut)
    requires Remembered(d) && CycleOk(d.st.rows, cycle)
    ensures Remembered(InsightPass(d, cycle, cut))
  {
    if cycle.backlogRead && cycle.check1.Some? {
      var blocked := Backlog.Blocked(d.backlog, d.ident);
      var refolds := RefoldsDone(cycle, cut);
      RefoldsKeepGuard(Loop(d, {}, {}, false), cycle, blocked, d.withheld, d.st.rows, refolds);
      var l := AfterRefolds(d, cycle, cut);
      PassAfterRefolds(d, cycle, cut, l);
      if !l.aborted && !cut.InRefolds? && cycle.check2.Some? {
        var foldable := Foldable(cycle, l.d.st.rows, blocked, l.d.withheld);
        FreshKeepsGuard(AfterAppends(l, cycle, cut), blocked, l.d.withheld, FreshDone(foldable, cut));
      }
    }
  }

  // ---------- what is withheld ----------

  /** This process paid for the set and could not store the failure. */
  ghost predicate PaidHere(d: Daemon, ids: set<int>) {
    exists c :: c in d.calls && c.ids == ids && c.process == d.process && c.ending == PaidUnstored
  }

  ghost predicate WithheldPaid(d: Daemon) {
    forall ids :: ids in d.withheld ==> PaidHere(d, ids)
  }

  lemma AnsweredWithholds(d: Daemon, t: Target)
    requires !BackupLock.ChatLost(t.reply.chat)
    ensures Answered(d, t).withheld == d.withheld + if EndingOf(t.reply) == PaidUnstored then {t.ids} else {}
  {
  }

  /** A fold withholds its own set, when it was paid for and no row could be stored, and no other. */
  lemma FoldWithholdsExactly(d: Daemon, t: Target)
    ensures FoldInsight(d, t).withheld ==
            d.withheld + if Calls(t.reply) && EndingOf(t.reply) == PaidUnstored then {t.ids} else {}
  {
    if Calls(t.reply) && !BackupLock.ChatLost(t.reply.chat) {
      AnsweredWithholds(d.(calls := d.calls + [Call(t.ids, d.process, d.era, EndingOf(t.reply))]), t);
    }
  }

  lemma FoldWithholds(d: Daemon, t: Target)
    requires WithheldPaid(d)
    ensures WithheldPaid(FoldInsight(d, t))
  {
    FoldWithholdsExactly(d, t);
    FoldRemembers(d, t);
    StaysPaid(d, FoldInsight(d, t), Call(t.ids, d.process, d.era, EndingOf(t.reply)), Calls(t.reply));
  }

  /** A daemon that makes at most this one call, and withholds nothing new but its set if it was paid for. */
  lemma StaysPaid(d: Daemon, out: Daemon, sent: Call, called: bool)
    requires WithheldPaid(d) && out.process == d.process && sent.process == d.process
    requires out.calls == d.calls + if called then [sent] else []
    requires out.withheld == d.withheld + if called && sent.ending == PaidUnstored then {sent.ids} else {}
    ensures WithheldPaid(out)
  {
    forall ids | ids in out.withheld ensures PaidHere(out, ids) {
      if ids in d.withheld {
        var c :| c in d.calls && c.ids == ids && c.process == d.process && c.ending == PaidUnstored;
        assert c in out.calls;
      } else {
        assert sent in out.calls;
      }
    }
  }

  lemma {:induction false} RefoldsWithhold(
    l: Loop, cycle: Cycle, blocked: set<set<int>>, rows: SummaryTable, refolds: seq<(int, Reply)>)
    requires cycle.check1.Some? && RefoldsOk(rows, refolds) && WithheldPaid(l.d)
    ensures WithheldPaid(RefoldLoop(l, cycle, blocked, rows, refolds).d)
  {
    if refolds != [] {
      var front := refolds[..|refolds| - 1];
      RefoldsWithhold(l, cycle, blocked, rows, front);
      FoldWithholds(RefoldLoop(l, cycle, blocked, rows, front).d, RefoldTarget(rows, refolds[|refolds| - 1]));
    }
  }

  lemma {:induction false} FreshWithhold(l: Loop, clusters: seq<Cluster>)
    requires WithheldPaid(l.d)
    ensures WithheldPaid(FreshLoop(l, clusters).d)
  {
    if clusters != [] {
      var front, c := clusters[..|clusters| - 1], clusters[|clusters| - 1];
      FreshWithhold(l, front);
      var before := FreshLoop(l, front).d;
      FoldWithholds(before, FreshTarget(before.st.rows, c));
    }
  }

  lemma CycleWithholds(d: Daemon, cycle: Cycle, cut: Cut)
    requires WithheldPaid(d) && CycleOk(d.st.rows, cycle)
    ensures WithheldPaid(InsightPass(d, cycle, cut))
  {
    if cycle.backlogRead && cycle.check1.Some? {
      var blocked := Backlog.Blocked(d.backlog, d.ident);
      RefoldsWithhold(Loop(d, {}, {}, false), cycle, blocked, d.st.rows, RefoldsDone(cycle, cut));
      var l := AfterRefolds(d, cycle, cut);
      PassAfterRefolds(d, cycle, cut, l);
      if !l.aborted && !cut.InRefolds? && cycle.check2.Some? {
        var foldable := Foldable(cycle, l.d.st.rows, blocked, l.d.withheld);
        FreshWithhold(AfterAppends(l, cycle, cut), FreshDone(foldable, cut));
      }
    }
  }

  // ---------- the paid reply that settles nothing ----------

  /** After the fold the set may be sent again, and no insight tells it. */
  ghost predicate LeftUnsettled(d: Daemon, t: Target) {
    var out := FoldInsight(d, t);
    out.st == d.st && t.ids !in Backlog.Blocked(out.backlog, out.ident) && t.ids !in out.withheld
  }

  /**
   A complete reply, which is always paid, leaves its set unsettled exactly when one of the judgements is a decision
   whose content is nothing but white space: the assembly raises there.
   */
  lemma CompleteReplyUnsettledExactly(d: Daemon, t: Target)
    requires Calls(t.reply) && !BackupLock.ChatLost(t.reply.chat) && CompleteReply(t.reply)
    requires t.ids !in Backlog.Blocked(d.backlog, d.ident) && t.ids !in d.withheld
    ensures LeftUnsettled(d, t) <==> exists row :: row in t.reply.rows && InsightContent.BlankDecision(row)
  {
    InsightContent.NoSkeletonExactly(t.reply.rows);
    FoldRemembers(d, t);
    FoldInsightState(d, t);
    if EndingOf(t.reply) == Written {
      assert FoldInsight(d, t).st.nextId == d.st.nextId + 1;
    }
  }
}
