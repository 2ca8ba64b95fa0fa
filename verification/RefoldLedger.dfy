/**
 The refold ledger: rows opened when a summary is retired by lineage, for the records its members
 stand for now, and closed at the end of a fact cycle.
 */
module RefoldLedger {
  import opened Tables

  // ---------- forward resolution over technical_docs ----------

  const MAX_HOPS: nat := 50

  /** resolve_standing_ids for one id: follow superseded_by while superseded, at most to depth 50. */
  function Resolve(docs: DocTable, id: int, depth: nat): (int, bool)
    requires id in docs && depth <= MAX_HOPS
    decreases MAX_HOPS - depth
  {
    var doc := docs[id];
    if doc.superseded && doc.successor.Some? && doc.successor.value in docs && depth < MAX_HOPS
    then Resolve(docs, doc.successor.value, depth + 1)
    else (id, doc.superseded)
  }

  /** The records a ledger row may be opened for: standing, not still superseded. */
  function Standing(docs: DocTable, sources: seq<int>): set<int> {
    set s | s in sources && s in docs && !Resolve(docs, s, 1).1 :: Resolve(docs, s, 1).0
  }

  /** n hops along superseded_by, each leaving a superseded record. */
  function Forward(docs: DocTable, id: int, n: nat): (r: Option<int>)
    ensures r.Some? ==> r.value in docs
  {
    if n == 0 then (if id in docs then Some(id) else None)
    else match Forward(docs, id, n - 1)
      case None => None
      case Some(at) =>
        if docs[at].superseded && docs[at].successor.Some? && docs[at].successor.value in docs
        then docs[at].successor else None
  }

  ghost predicate StandsFor(docs: DocTable, standing: int, id: int) {
    standing in docs && !docs[standing].superseded
      && exists n: nat :: n < MAX_HOPS && Forward(docs, id, n) == Some(standing)
  }

  lemma {:induction false} ForwardShift(docs: DocTable, id: int, n: nat)
    requires id in docs && docs[id].superseded && docs[id].successor.Some? && docs[id].successor.value in docs
    ensures Forward(docs, id, n + 1) == Forward(docs, docs[id].successor.value, n)
  {
    if n == 0 {
      assert Forward(docs, id, 0) == Some(id);
    } else {
      ForwardShift(docs, id, n - 1);
    }
  }

  /** What Resolve returns lies on the chain; and a standing record the chain reaches in time is what it returns. */
  lemma {:induction false} ResolveFollowsChain(docs: DocTable, id: int, depth: nat)
    requires id in docs && depth <= MAX_HOPS
    ensures exists n: nat :: n <= MAX_HOPS - depth && Forward(docs, id, n) == Some(Resolve(docs, id, depth).0)
    ensures Resolve(docs, id, depth).0 in docs
            && Resolve(docs, id, depth).1 == docs[Resolve(docs, id, depth).0].superseded
    ensures forall n: nat, standing ::
              (n <= MAX_HOPS - depth && Forward(docs, id, n) == Some(standing) && !docs[standing].superseded) ==>
                Resolve(docs, id, depth) == (standing, false)
    decreases MAX_HOPS - depth
  {
    var doc := docs[id];
    assert Forward(docs, id, 0) == Some(id);
    if doc.superseded && doc.successor.Some? && doc.successor.value in docs && depth < MAX_HOPS {
      var next := doc.successor.value;
      ResolveFollowsChain(docs, next, depth + 1);
      var n: nat :| n <= MAX_HOPS - depth - 1 && Forward(docs, next, n) == Some(Resolve(docs, next, depth + 1).0);
      ForwardShift(docs, id, n);
      forall m: nat, standing | m <= MAX_HOPS - depth && Forward(docs, id, m) == Some(standing)
        && !docs[standing].superseded
        ensures Resolve(docs, id, depth) == (standing, false)
      {
        if m > 0 { ForwardShift(docs, id, m - 1); }
      }
    } else {
      forall m: nat, standing | m <= MAX_HOPS - depth && Forward(docs, id, m) == Some(standing)
        && !docs[standing].superseded
        ensures m == 0
      {
        if m > 0 { StuckChain(docs, id, m); }
      }
    }
  }

  lemma {:induction false} StuckChain(docs: DocTable, id: int, m: nat)
    requires id in docs && m > 0
    requires !(docs[id].superseded && docs[id].successor.Some? && docs[id].successor.value in docs)
    ensures Forward(docs, id, m) == None
  {
    if m == 1 {
      assert Forward(docs, id, 0) == Some(id);
    } else {
      StuckChain(docs, id, m - 1);
    }
  }

  /**
   A record gets ledger rows exactly when some member's forward chain reaches it, unsuperseded, within
   the depth cap; a cyclic or over-long chain opens none.
   */
  lemma StandingExactly(docs: DocTable, sources: seq<int>, standing: int)
    ensures standing in Standing(docs, sources) <==> exists s :: s in sources && StandsFor(docs, standing, s)
  {
    forall s | s in docs ensures StandsFor(docs, standing, s) <==> Resolve(docs, s, 1) == (standing, false) {
      ResolveFollowsChain(docs, s, 1);
    }
    if s :| s in sources && StandsFor(docs, standing, s) {
      var n: nat :| n < MAX_HOPS && Forward(docs, s, n) == Some(standing);
      FromDocs(docs, s, n);
    }
  }

  lemma {:induction false} FromDocs(docs: DocTable, id: int, n: nat)
    requires Forward(docs, id, n).Some?
    ensures id in docs
  {
    if n == 0 {
    } else {
      FromDocs(docs, id, n - 1);
    }
  }

  // ---------- opening ----------

  function Rows(ids: seq<int>, summaryId: int, kind: Kind, trigger: int, now: int): seq<RefoldRow> {
    seq(|ids|, i requires 0 <= i < |ids| => RefoldRow(ids[i], summaryId, kind, trigger, now, Open))
  }

  /** One row per trigger and standing record. */
  ghost function Opened(
    docs: DocTable, sources: seq<int>, summaryId: int, kind: Kind, triggers: seq<int>, now: int): seq<RefoldRow> {
    if triggers == [] then []
    else Rows(Sorted(Standing(docs, sources)), summaryId, kind, triggers[0], now)
         + Opened(docs, sources, summaryId, kind, triggers[1..], now)
  }

  lemma {:induction false} OpenedExactly(
    docs: DocTable, sources: seq<int>, summaryId: int, kind: Kind, triggers: seq<int>, now: int)
    ensures forall r :: r in Opened(docs, sources, summaryId, kind, triggers, now) <==>
              r.summaryId == summaryId && r.kind == kind && r.openedAt == now && r.status == Open
              && r.trigger in triggers && r.pgId in Standing(docs, sources)
    decreases triggers
  {
    if triggers == [] {
    } else {
      OpenedExactly(docs, sources, summaryId, kind, triggers[1..], now);
      assert triggers == [triggers[0]] + triggers[1..];
      var ids := Sorted(Standing(docs, sources));
      var rows := Rows(ids, summaryId, kind, triggers[0], now);
      forall r: RefoldRow | r.summaryId == summaryId && r.kind == kind && r.openedAt == now && r.status == Open
                 && r.trigger == triggers[0] && r.pgId in ids
        ensures r in rows
      {
        var i :| 0 <= i < |ids| && ids[i] == r.pgId;
        assert rows[i] == r;
      }
    }
  }

  // ---------- closing ----------

  /** drop_below_density_refold_rows: scanned this cycle, member of no gating group; either kind. */
  function DropBelowDensity(r: RefoldRow, scanned: set<int>, gated: set<int>): RefoldRow {
    if r.status == Open && r.pgId in scanned && r.pgId !in gated then r.(status := Dropped) else r
  }

  /** drop_out_of_scan_refold_rows: a thematic row whose record the scan did not produce. */
  function DropOutOfScan(r: RefoldRow, scanned: set<int>): RefoldRow {
    if r.status == Open && r.kind == Thematic && r.pgId !in scanned then r.(status := Dropped) else r
  }

  /** An active summary of the row's kind that holds the record and was folded no earlier than the row was opened. */
  predicate Refolds(summary: Summary, r: RefoldRow) {
    !summary.superseded && summary.kind == r.kind && r.pgId in summary.sources && r.openedAt <= summary.foldedAt
  }

  predicate CoveredBy(rows: SummaryTable, r: RefoldRow) {
    exists id :: id in rows && Refolds(rows[id], r)
  }

  /** close_refold_ledger_rows: refolded first, then dropped when the record itself is superseded. */
  function CloseRow(rows: SummaryTable, docs: DocTable, r: RefoldRow): RefoldRow {
    var refolded := if r.status == Open && CoveredBy(rows, r) then r.(status := Refolded) else r;
    if refolded.status == Open && r.pgId in docs && docs[r.pgId].superseded then refolded.(status := Dropped)
      else refolded
  }

  /** The last closer alone, as an insight cycle runs it. */
  function CloseRefolds(ledger: seq<RefoldRow>, rows: SummaryTable, docs: DocTable): seq<RefoldRow> {
    seq(|ledger|, i requires 0 <= i < |ledger| => CloseRow(rows, docs, ledger[i]))
  }

  /** The three closers in the order the cycle runs them. */
  function CloseAll(
    ledger: seq<RefoldRow>, rows: SummaryTable, docs: DocTable, scanned: set<int>, gated: set<int>): seq<RefoldRow> {
    seq(|ledger|, i requires 0 <= i < |ledger| =>
      CloseRow(rows, docs, DropOutOfScan(DropBelowDensity(ledger[i], scanned, gated), scanned)))
  }

  /** The first of the three closers, as many as were reached. */
  function CloseUpTo(
    r: RefoldRow, rows: SummaryTable, docs: DocTable, scanned: set<int>, gated: set<int>, closers: nat): RefoldRow
  {
    if closers == 0 then r
    else if closers == 1 then DropBelowDensity(r, scanned, gated)
    else if closers == 2 then DropOutOfScan(DropBelowDensity(r, scanned, gated), scanned)
    else CloseRow(rows, docs, DropOutOfScan(DropBelowDensity(r, scanned, gated), scanned))
  }

  function CloseSome(
    ledger: seq<RefoldRow>, rows: SummaryTable, docs: DocTable, scanned: set<int>, gated: set<int>, closers: nat)
    : seq<RefoldRow>
  {
    seq(|ledger|, i requires 0 <= i < |ledger| => CloseUpTo(ledger[i], rows, docs, scanned, gated, closers))
  }

  /** What a thematic row must be to stay open through the closers, exactly. */
  lemma StaysOpenExactly(r: RefoldRow, rows: SummaryTable, docs: DocTable, scanned: set<int>, gated: set<int>)
    requires gated <= scanned && r.kind == Thematic
    ensures CloseRow(rows, docs, DropOutOfScan(DropBelowDensity(r, scanned, gated), scanned)).status == Open <==>
              r.status == Open && r.pgId in gated && !CoveredBy(rows, r) && !(r.pgId in docs && docs[r.pgId].superseded)
  {
  }

  /** Some active summary of the row's kind holds its record and was folded no earlier than the row was opened. */
  ghost predicate RefoldedSince(rows: SummaryTable, r: RefoldRow) {
    exists id :: id in rows && !rows[id].superseded && rows[id].kind == r.kind && r.pgId in rows[id].sources
                 && r.openedAt <= rows[id].foldedAt
  }

  /** What becomes of an open row: dropped by the scan, refolded, dropped because its record is superseded, or left. */
  ghost function Fate(dropped: bool, rows: SummaryTable, docs: DocTable, r: RefoldRow): RefoldStatus {
    if r.status != Open then r.status
    else if dropped then Dropped
    else if RefoldedSince(rows, r) then Refolded
    else if r.pgId in docs && docs[r.pgId].superseded then Dropped
    else Open
  }

  lemma CoveredIsAnswered(rows: SummaryTable, r: RefoldRow)
    ensures CoveredBy(rows, r) <==> RefoldedSince(rows, r)
  {
  }

  /**
   What the closers of a completed fact cycle do to a row of either kind: it is dropped when the scan had its record in
   no gating group or, for a thematic row, did not have it at all; nothing but its status changes.
   */
  lemma ClosesExactly(
    ledger: seq<RefoldRow>, rows: SummaryTable, docs: DocTable, scanned: set<int>, gated: set<int>, i: nat)
    requires i < |ledger|
    ensures var out, r := CloseAll(ledger, rows, docs, scanned, gated), ledger[i];
            var dropped := (r.pgId in scanned && r.pgId !in gated) || (r.kind == Thematic && r.pgId !in scanned);
            |out| == |ledger| && out[i] == r.(status := Fate(dropped, rows, docs, r))
  {
    CoveredIsAnswered(rows, ledger[i]);
    CoveredIsAnswered(rows, DropOutOfScan(DropBelowDensity(ledger[i], scanned, gated), scanned));
  }

  /** A cut after so many closers: the scan's drops are the first two in turn, refolding and supersession the third. */
  lemma CutClosesExactly(
    ledger: seq<RefoldRow>, rows: SummaryTable, docs: DocTable, scanned: set<int>, gated: set<int>, closers: nat,
    i: nat)
    requires i < |ledger|
    ensures var out, r := CloseSome(ledger, rows, docs, scanned, gated, closers), ledger[i];
            var dropped := r.status == Open
                           && ((closers >= 1 && r.pgId in scanned && r.pgId !in gated)
                               || (closers >= 2 && r.kind == Thematic && r.pgId !in scanned));
            && |out| == |ledger|
            && out[i] == r.(status := if closers >= 3 then Fate(dropped, rows, docs, r)
                                      else if dropped then Dropped else r.status)
  {
    CoveredIsAnswered(rows, ledger[i]);
    CoveredIsAnswered(rows, DropOutOfScan(DropBelowDensity(ledger[i], scanned, gated), scanned));
  }

  /** The same for the one closer that ends an insight cycle. */
  lemma ClosesRefoldsExactly(ledger: seq<RefoldRow>, rows: SummaryTable, docs: DocTable, i: nat)
    requires i < |ledger|
    ensures var out, r := CloseRefolds(ledger, rows, docs), ledger[i];
            |out| == |ledger| && out[i] == r.(status := Fate(false, rows, docs, r))
  {
    CoveredIsAnswered(rows, ledger[i]);
  }
}
