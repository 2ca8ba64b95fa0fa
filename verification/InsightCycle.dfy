/**
 The insight cycle as a function of the daemon's state: refold active insights, resolve the identity of the
 walked components, then fold what remains, under arbitrary replies of the model, the embedder and the databases.
 */
module InsightCycle {
  import opened Tables
  import opened Succession
  import opened ByPgId
  import opened Readiness
  import opened SlotProtocol
  import Backlog
  import BackupLock
  import InsightContent

  // ---------- the daemon ----------

  /**
   How a call to the model ended for its set: nothing was charged, a backlog row was stored, a paid one could not
   be and the set is withheld, the insight was written, or the assembly raised after the reply.
   */
  datatype Ending = Unpaid | RowStored | PaidUnstored | Written | Raised

  datatype Call = Call(ids: set<int>, process: nat, era: nat, ending: Ending)

  /** `process` counts daemon starts, `era` changes of the spawn identity; `calls` records every call made. */
  datatype Daemon = Daemon(
    st: State, backlog: Backlog.Table, withheld: set<set<int>>,
    ident: Backlog.Identity, process: nat, era: nat, calls: seq<Call>)

  /** What became of a complete reply once its text was assembled. */
  datatype Sequel =
    | EmbedFailed(rowStored: bool)
    | WriteFailed(rowStored: bool)
    | Stored(fallback: string, domains: seq<string>, entities: set<string>, rowDeleted: bool)

  /** What the gateway answered: no text, for a reason that may be paid for, or a text. */
  datatype Answer =
    | NoText(reason: Option<Backlog.Reason>, paid: bool, rowStored: bool)
    | Text(text: string, rowStored: bool, sequel: Sequel)

  /** All that one fold meets: the judgement rows found, the reversals told, the lock, and the answer. */
  datatype Reply = Reply(
    rows: InsightContent.Rows, reversals: seq<string>, chat: BackupLock.Chat, answer: Answer)

  /** What one fold is asked to do: the arguments of _fold_insight, and the reply it gets. */
  datatype Target = Target(ids: set<int>, project: string, summaryIds: seq<int>, reply: Reply)

  /** A walked component of a gating group, with the reply its fold would get. */
  datatype Cluster = Cluster(ids: set<int>, project: string, section: string, reply: Reply)

  /**
   Everything a cycle meets from outside: whether the backlog could be read, the insights to refold in the
   order the query listed them, the retrospectives a fold of a set would carry, the two readiness reads
   (None when the read failed) and the walked components.
   */
  datatype Cycle = Cycle(
    backlogRead: bool, refolds: seq<(int, Reply)>, reversals: map<set<int>, set<int>>,
    check1: Option<seq<ReadyRow>>, clusters: seq<Cluster>, check2: Option<seq<ReadyRow>>)

  /** Where an exception, or the death of the process, cut the cycle: after so many statements of one of its loops. */
  datatype Cut = Whole | InRefolds(done: nat) | InAppends(done: nat) | InFresh(done: nat)

  /** Rows come by primary key; a judgement row with no project counts as 'unknown', so the fallback is never empty. */
  predicate ReplyOk(reply: Reply) {
    DistinctIds(reply.rows)
    && (reply.answer.Text? && reply.answer.sequel.Stored? ==> reply.answer.sequel.fallback != "")
  }

  // ---------- one fold ----------

  predicate ActiveInsight(rows: SummaryTable, id: int) {
    id in rows && rows[id].kind == Insight && !rows[id].superseded
  }

  function ExpectedIds(reply: Reply): set<int> {
    set i | 0 <= i < |reply.rows| :: reply.rows[i].id
  }

  /** Fewer than two of the judgements are in PostgreSQL: no call is made. */
  predicate Calls(reply: Reply) {
    |reply.rows| >= 2
  }

  /** The reply fills every slot asked for. */
  ghost predicate CompleteReply(reply: Reply) {
    reply.answer.Text? && Fills(reply.answer.text, ExpectedIds(reply))
  }

  /** What the backlog row of a failed fold would hold, whether the failure was paid for, and whether it was stored. */
  datatype Failure = Failure(reason: Backlog.Reason, paid: bool, rowStored: bool)

  ghost function FailureOf(reply: Reply): Option<Failure> {
    match reply.answer
    case NoText(None, _, _) => None
    case NoText(Some(reason), paid, rowStored) => Some(Failure(reason, paid, rowStored))
    case Text(_, rowStored, sequel) =>
      if !CompleteReply(reply) then Some(Failure(Backlog.Unparseable, true, rowStored))
      else if Raises(reply) then None
      else match sequel
        case EmbedFailed(stored) => Some(Failure(Backlog.WriteFailed, true, stored))
        case WriteFailed(stored) => Some(Failure(Backlog.WriteFailed, true, stored))
        case Stored(_, _, _, _) => None
  }

  /** The assembly finds a decision without a first line. */
  ghost predicate Raises(reply: Reply) {
    CompleteReply(reply) && InsightContent.Skeleton(reply.rows).None?
  }

  ghost function EndingOf(reply: Reply): Ending {
    if BackupLock.ChatLost(reply.chat) then PaidUnstored
    else match FailureOf(reply)
      case Some(failure) => if failure.rowStored then RowStored else if failure.paid then PaidUnstored else Unpaid
      case None => if reply.answer.NoText? then Unpaid else if Raises(reply) then Raised else Written
  }

  /** The fold leaves _fold_insight by an exception, which ends the cycle. */
  ghost predicate Throws(reply: Reply) {
    Calls(reply) && (BackupLock.ChatLost(reply.chat) || EndingOf(reply) == Raised)
  }

  ghost predicate Succeeded(reply: Reply) {
    Calls(reply) && EndingOf(reply) == Written
  }

  function Resolved(t: Target, fallback: string): string {
    if t.project != "" then t.project else fallback
  }

  /** The insight a complete reply is told in. */
  ghost function Told(t: Target): NewInsight
    requires Succeeded(t.reply)
  {
    var reply, sequel := t.reply, t.reply.answer.sequel;
    var text := InsightContent.Complete(
                  InsightContent.Skeleton(reply.rows).value, reply.reversals,
                  SlotsOf(reply.answer.text), PrincipleOf(reply.answer.text).value);
    NewInsight(Resolved(t, sequel.fallback), text, Sorted(t.ids), Sorted(Elems(t.summaryIds)), sequel.domains,
      sequel.entities)
  }

  function Store(d: Daemon, ids: set<int>, reason: Backlog.Reason, paid: bool, rowStored: bool): Daemon {
    if rowStored then d.(backlog := Backlog.Upsert(d.backlog, ids, reason, d.ident))
    else if paid then d.(withheld := d.withheld + {ids})
    else d
  }

  ghost function Answered(d: Daemon, t: Target): Daemon {
    match FailureOf(t.reply)
    case Some(failure) => Store(d, t.ids, failure.reason, failure.paid, failure.rowStored)
    case None =>
      if Succeeded(t.reply) && t.reply.answer.sequel.rowDeleted then d.(backlog := Backlog.Delete(d.backlog, t.ids))
        else d
  }

  /** What is done with an answer once the lock is back. */
  ghost function Concluded(d: Daemon, t: Target): Daemon {
    var answered := Answered(d, t);
    if Succeeded(t.reply) then answered.(st := WriteInsight(answered.st, Told(t))) else answered
  }

  /** _fold_insight. */
  ghost function FoldInsight(d: Daemon, t: Target): Daemon {
    if !Calls(t.reply) then d
    else
      var called := d.(calls := d.calls + [Call(t.ids, d.process, d.era, EndingOf(t.reply))]);
      if BackupLock.ChatLost(t.reply.chat) then called.(withheld := called.withheld + {t.ids})
      else Concluded(called, t)
  }

  // ---------- the two loops ----------

  datatype Loop = Loop(d: Daemon, attempted: set<set<int>>, folded: set<int>, aborted: bool)

  ghost function Attempt(l: Loop, t: Target): Loop {
    Loop(FoldInsight(l.d, t), l.attempted + {t.ids},
         if Succeeded(t.reply) then l.folded + t.ids else l.folded, Throws(t.reply))
  }

  /** The ids a fold puts in its prompt, all of which REM must have finished with. */
  function Carried(cycle: Cycle, ids: set<int>): set<int> {
    ids + if ids in cycle.reversals then cycle.reversals[ids] else {}
  }

  function Deferred(cycle: Cycle, ids: set<int>, rows: seq<ReadyRow>): bool {
    Unprocessed(Carried(cycle, ids), rows) != {}
  }

  /** A refold target is the insight as it stood when the cycle began. */
  function RefoldTarget(rows: SummaryTable, refold: (int, Reply)): Target
    requires refold.0 in rows
  {
    var row := rows[refold.0];
    Target(Elems(row.sources), row.key.project, row.summaryIds, refold.1)
  }

  ghost predicate RefoldsOk(rows: SummaryTable, refolds: seq<(int, Reply)>) {
    forall k :: 0 <= k < |refolds| ==> ActiveInsight(rows, refolds[k].0) && ReplyOk(refolds[k].1)
  }

  /** A refold is skipped when its set is withheld, was attempted this cycle, or waits for REM. */
  ghost function RefoldStep(l: Loop, cycle: Cycle, blocked: set<set<int>>, t: Target): Loop
    requires cycle.check1.Some?
  {
    if l.aborted || t.ids in blocked || t.ids in l.d.withheld || t.ids in l.attempted
      || Deferred(cycle, t.ids, cycle.check1.value)
    then l else Attempt(l, t)
  }

  ghost function RefoldLoop(
    l: Loop, cycle: Cycle, blocked: set<set<int>>, rows: SummaryTable, refolds: seq<(int, Reply)>): Loop
    requires cycle.check1.Some? && RefoldsOk(rows, refolds)
  {
    if refolds == [] then l
    else
      var front := refolds[..|refolds| - 1];
      RefoldStep(RefoldLoop(l, cycle, blocked, rows, front), cycle, blocked, RefoldTarget(rows, refolds[|refolds| - 1]))
  }

  /** fetch_active_thematic_summary_id of the group the component was walked from. */
  ghost function Cites(rows: SummaryTable, c: Cluster): Option<int> {
    ActiveOf(rows, Key(c.project, c.section))
  }

  ghost function FreshTarget(rows: SummaryTable, c: Cluster): Target {
    Target(c.ids, c.project, if Cites(rows, c).Some? then [Cites(rows, c).value] else [], c.reply)
  }

  /** A fresh component is skipped when a member was folded this cycle, or the set was attempted. */
  ghost function FreshStep(l: Loop, c: Cluster): Loop {
    if l.aborted || c.ids == {} || c.ids * l.folded != {} || c.ids in l.attempted then l
    else Attempt(l, FreshTarget(l.d.st.rows, c))
  }

  ghost function FreshLoop(l: Loop, clusters: seq<Cluster>): Loop {
    if clusters == [] then l else FreshStep(FreshLoop(l, clusters[..|clusters| - 1]), clusters[|clusters| - 1])
  }

  // ---------- identity, and the partitions before the fresh loop ----------

  ghost predicate SameSet(rows: SummaryTable, id: int, ids: set<int>) {
    ActiveInsight(rows, id) && Elems(rows[id].sources) == ids
  }

  /** The smallest active insight of exactly this judgement set, in any project. */
  ghost predicate IsSame(rows: SummaryTable, id: int, ids: set<int>) {
    SameSet(rows, id, ids) && forall x :: SameSet(rows, x, ids) ==> id <= x
  }

  /** Some active insight already reaches every judgement of the set. */
  ghost predicate Held(rows: SummaryTable, ids: set<int>) {
    exists id :: ActiveInsight(rows, id) && ids <= Elems(rows[id].sources)
  }

  /** On an exact match only the references are appended; a match is judged on the insights listed before the pass. */
  ghost function AppendMatched(listed: SummaryTable, st: State, c: Cluster): State {
    if exists id :: IsSame(listed, id, c.ids) then
      var id :| IsSame(listed, id, c.ids);
      AppendReference(st, id, Cites(st.rows, c), c.section)
    else st
  }

  ghost function AppendMatches(listed: SummaryTable, st: State, clusters: seq<Cluster>): State {
    if clusters == [] then st
    else AppendMatched(listed, AppendMatches(listed, st, clusters[..|clusters| - 1]), clusters[|clusters| - 1])
  }

  ghost function Keep(clusters: seq<Cluster>, keeps: Cluster -> bool): (r: seq<Cluster>)
    ensures forall c :: c in r <==> c in clusters && keeps(c)
  {
    if clusters == [] then []
    else
      var last := clusters[|clusters| - 1];
      assert clusters == clusters[..|clusters| - 1] + [last];
      Keep(clusters[..|clusters| - 1], keeps) + if keeps(last) then [last] else []
  }

  ghost function Unmatched(listed: SummaryTable): Cluster -> bool {
    (c: Cluster) => !Held(listed, c.ids)
  }

  function Sendable(blocked: set<set<int>>, withheld: set<set<int>>): Cluster -> bool {
    (c: Cluster) => c.ids == {} || !(c.ids in blocked || c.ids in withheld)
  }

  function SeveralMembers(): Cluster -> bool {
    (c: Cluster) => |c.ids| >= 2
  }

  function Processed(cycle: Cycle, rows: seq<ReadyRow>): Cluster -> bool {
    (c: Cluster) => !Deferred(cycle, c.ids, rows)
  }

  ghost function Foldable(
    cycle: Cycle, listed: SummaryTable, blocked: set<set<int>>, withheld: set<set<int>>): seq<Cluster>
    requires cycle.check2.Some?
  {
    var unmatched := Keep(cycle.clusters, Unmatched(listed));
    Keep(Keep(Keep(unmatched, Sendable(blocked, withheld)), SeveralMembers()), Processed(cycle, cycle.check2.value))
  }

  // ---------- the cycle ----------

  ghost predicate CycleOk(rows: SummaryTable, cycle: Cycle) {
    RefoldsOk(rows, cycle.refolds) && forall c :: c in cycle.clusters ==> c.project != "" && ReplyOk(c.reply)
  }

  function First<T>(s: seq<T>, n: nat): (r: seq<T>)
    ensures forall x :: x in r ==> x in s
  {
    if n < |s| then s[..n] else s
  }

  /** How much of a loop is reached: all of it, unless the cycle is cut there. */
  function RefoldsDone(cycle: Cycle, cut: Cut): seq<(int, Reply)> {
    if cut.InRefolds? then First(cycle.refolds, cut.done) else cycle.refolds
  }

  function AppendsDone(cycle: Cycle, cut: Cut): seq<Cluster> {
    if cut.InAppends? then First(cycle.clusters, cut.done) else cycle.clusters
  }

  function FreshDone(clusters: seq<Cluster>, cut: Cut): seq<Cluster> {
    if cut.InFresh? then First(clusters, cut.done) else clusters
  }

  ghost function AfterRefolds(d: Daemon, cycle: Cycle, cut: Cut): Loop
    requires CycleOk(d.st.rows, cycle) && cycle.check1.Some?
  {
    RefoldLoop(Loop(d, {}, {}, false), cycle, Backlog.Blocked(d.backlog, d.ident), d.st.rows, RefoldsDone(cycle, cut))
  }

  ghost function AfterAppends(l: Loop, cycle: Cycle, cut: Cut): Loop {
    l.(d := l.d.(st := AppendMatches(l.d.st.rows, l.d.st, AppendsDone(cycle, cut))))
  }

  /** Identity and partitions over the fresh components, then their loop. */
  ghost function FreshPhase(l: Loop, cycle: Cycle, blocked: set<set<int>>, cut: Cut): Loop
    requires cycle.check2.Some?
  {
    var appended := AfterAppends(l, cycle, cut);
    if cut.InAppends? then appended
    else FreshLoop(appended, FreshDone(Foldable(cycle, l.d.st.rows, blocked, l.d.withheld), cut))
  }

  /**
   run_insight_cycle. A failed backlog read or first readiness read folds nothing, a failed second one stops there,
   and so does an exception.
   */
  ghost function InsightPass(d: Daemon, cycle: Cycle, cut: Cut): Daemon
    requires CycleOk(d.st.rows, cycle)
  {
    if !cycle.backlogRead || cycle.check1.None? then d
    else
      var refolded := AfterRefolds(d, cycle, cut);
      if refolded.aborted || cut.InRefolds? || cycle.check2.None? then refolded.d
      else FreshPhase(refolded, cycle, Backlog.Blocked(d.backlog, d.ident), cut).d
  }

  /** The cycle reached its end, where the refold ledger is closed. */
  ghost predicate Completes(d: Daemon, cycle: Cycle, cut: Cut)
    requires CycleOk(d.st.rows, cycle)
  {
    cycle.backlogRead && cycle.check1.Some? && cycle.check2.Some? && cut.Whole?
    && !AfterRefolds(d, cycle, cut).aborted
    && !FreshPhase(AfterRefolds(d, cycle, cut), cycle, Backlog.Blocked(d.backlog, d.ident), cut).aborted
  }

  /** What is left of a cycle once its refolds are done. */
  lemma PassAfterRefolds(d: Daemon, cycle: Cycle, cut: Cut, l: Loop)
    requires CycleOk(d.st.rows, cycle) && cycle.backlogRead && cycle.check1.Some? && l == AfterRefolds(d, cycle, cut)
    ensures if l.aborted || cut.InRefolds? || cycle.check2.None?
            then InsightPass(d, cycle, cut) == l.d && !Completes(d, cycle, cut)
            else
              var out := FreshPhase(l, cycle, Backlog.Blocked(d.backlog, d.ident), cut);
              InsightPass(d, cycle, cut) == out.d && (Completes(d, cycle, cut) <==> !out.aborted && cut.Whole?)
  {
  }
}
