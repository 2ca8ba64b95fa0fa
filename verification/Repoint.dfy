/**
 Re-pointing an insight from a retired thematic row to its successor: only on a solid match, when
 every decision that had a grounding fact in a cited summary keeps one.
 */
module Repoint {
  import opened Tables
  import opened Chain

  // ---------- support ----------

  /** The grounding facts of a decision: its own, and those of standing retrospectives on it. */
  function Threads(docs: DocTable, d: int): set<int>
    requires d in docs
  {
    docs[d].grounds +
    (set r, f | r in docs && docs[r].rtype == Retrospective && !docs[r].superseded
                && docs[r].target == Some(d) && f in docs[r].grounds :: f)
  }

  function FactsOf(rows: SummaryTable, ids: seq<int>): set<int> {
    set s, f | s in ids && s in rows && f in rows[s].sources :: f
  }

  /** The decisions among `sources` with at least one grounding fact in a cited summary. */
  function Supported(rows: SummaryTable, docs: DocTable, sources: seq<int>, ids: seq<int>): set<int> {
    set d | d in sources && d in docs && docs[d].rtype == Decision
            && Threads(docs, d) * FactsOf(rows, ids) != {}
  }

  predicate SolidMatch(before: set<int>, after: set<int>) {
    before <= after
  }

  // ---------- substitution ----------

  /** `ids` with `old` replaced by `new`, keeping the first occurrence of every id. */
  function Substitute(ids: seq<int>, oldId: int, newId: int): seq<int> {
    if ids == [] then []
    else
      var front := Substitute(ids[..|ids| - 1], oldId, newId);
      var target := if ids[|ids| - 1] == oldId then newId else ids[|ids| - 1];
      if target in front then front else front + [target]
  }

  function Mapped(ids: seq<int>, oldId: int, newId: int): seq<int> {
    seq(|ids|, i requires 0 <= i < |ids| => if ids[i] == oldId then newId else ids[i])
  }

  lemma {:induction false} SubstituteElems(ids: seq<int>, oldId: int, newId: int)
    requires oldId != newId
    ensures NoDup(Substitute(ids, oldId, newId))
    ensures forall x :: x in Substitute(ids, oldId, newId) <==>
                        (x in ids && x != oldId) || (x == newId && oldId in ids)
  {
    if ids == [] {
    } else {
      var front := ids[..|ids| - 1];
      SubstituteElems(front, oldId, newId);
      assert ids == front + [ids[|ids| - 1]];
    }
  }

  /** Where x first occurs in s; |s| when it does not. */
  function FirstAt(s: seq<int>, x: int): nat {
    if s == [] || s[0] == x then 0 else 1 + FirstAt(s[1..], x)
  }

  lemma {:induction false} FirstAtPrefix(s: seq<int>, t: seq<int>, x: int)
    requires x in s
    ensures FirstAt(s + t, x) == FirstAt(s, x) < |s|
  {
    if s[0] == x {
    } else {
      assert (s + t)[1..] == s[1..] + t;
      FirstAtPrefix(s[1..], t, x);
    }
  }

  lemma {:induction false} FirstAtNew(s: seq<int>, x: int)
    requires x !in s
    ensures FirstAt(s + [x], x) == |s|
  {
    if s == [] {
    } else {
      assert (s + [x])[1..] == s[1..] + [x];
      FirstAtNew(s[1..], x);
    }
  }

  /** The surviving ids keep the order of their first occurrence after the replacement. */
  lemma {:induction false} SubstituteOrder(ids: seq<int>, oldId: int, newId: int)
    ensures Elems(Substitute(ids, oldId, newId)) == Elems(Mapped(ids, oldId, newId))
    ensures var m, r := Mapped(ids, oldId, newId), Substitute(ids, oldId, newId);
            forall i, j :: 0 <= i < j < |r| ==> FirstAt(m, r[i]) < FirstAt(m, r[j])
  {
    if ids == [] {
    } else {
      var n := |ids| - 1;
      SubstituteOrder(ids[..n], oldId, newId);
      var m, r := Mapped(ids[..n], oldId, newId), Substitute(ids[..n], oldId, newId);
      var target := if ids[n] == oldId then newId else ids[n];
      assert Mapped(ids, oldId, newId) == m + [target];
      OrderNext(m, r, target);
    }
  }

  predicate InOrder(m: seq<int>, r: seq<int>) {
    Elems(r) == Elems(m) && forall i, j :: 0 <= i < j < |r| ==> FirstAt(m, r[i]) < FirstAt(m, r[j])
  }

  /** One more id: appended to the result unless it is there. */
  lemma OrderNext(m: seq<int>, r: seq<int>, target: int)
    requires InOrder(m, r)
    ensures InOrder(m + [target], if target in r then r else r + [target])
  {
    assert Elems(m + [target]) == Elems(m) + {target};
    assert Elems(r + [target]) == Elems(r) + {target};
    forall i | 0 <= i < |r| ensures FirstAt(m + [target], r[i]) == FirstAt(m, r[i]) < |m| {
      assert r[i] in Elems(r);
      FirstAtPrefix(m, [target], r[i]);
    }
    if target in r {
      assert target in Elems(r);
    } else {
      assert target !in Elems(m);
      FirstAtNew(m, target);
    }
  }

  /** The loop that builds new_sids with a `seen` set. */
  method SubstituteIds(ids: seq<int>, oldId: int, newId: int) returns (out: seq<int>)
    ensures out == Substitute(ids, oldId, newId)
  {
    out := [];
    var seen: set<int> := {};
    for i := 0 to |ids|
      invariant out == Substitute(ids[..i], oldId, newId)
      invariant seen == Elems(out)
    {
      var target := if ids[i] == oldId then newId else ids[i];
      assert ids[..i + 1][..i] == ids[..i];
      if target !in seen {
        seen := seen + {target};
        out := out + [target];
      }
    }
    assert ids[..|ids|] == ids;
  }

  // ---------- one re-point ----------

  /** The citations of one insight after trying to follow old to new: all of it, or nothing. */
  function Retarget(
    rows: SummaryTable, docs: DocTable, sources: seq<int>, ids: seq<int>, oldId: int, newId: int): seq<int> {
    var after := Substitute(ids, oldId, newId);
    if SolidMatch(Supported(rows, docs, sources, ids), Supported(rows, docs, sources, after)) then after else ids
  }

  lemma RetargetKeepsSupport(
    rows: SummaryTable, docs: DocTable, sources: seq<int>, ids: seq<int>, oldId: int, newId: int)
    ensures Supported(rows, docs, sources, ids)
         <= Supported(rows, docs, sources, Retarget(rows, docs, sources, ids, oldId, newId))
  {
  }

  /** link_thematic_successor, the insight half: every active insight citing `old` tries to follow. */
  function RepointRow(rows: SummaryTable, docs: DocTable, row: Summary, oldId: int, newId: int): Summary {
    if row.kind == Insight && !row.superseded && oldId in row.summaryIds
    then row.(summaryIds := Retarget(rows, docs, row.sources, row.summaryIds, oldId, newId))
    else row
  }

  /** The active insights that cite an id. */
  function Citing(rows: SummaryTable, sid: int): set<int> {
    set id | id in rows && rows[id].kind == Insight && !rows[id].superseded && sid in rows[id].summaryIds
  }

  function SetSuccessor(rows: SummaryTable, oldId: int, newId: int): SummaryTable {
    if oldId in rows then rows[oldId := rows[oldId].(successor := Some(newId))] else rows
  }

  function Link(rows: SummaryTable, docs: DocTable, oldId: int, newId: int): SummaryTable {
    var linked := SetSuccessor(rows, oldId, newId);
    map id | id in linked :: RepointRow(linked, docs, linked[id], oldId, newId)
  }

  lemma LinkAt(rows: SummaryTable, docs: DocTable, oldId: int, newId: int, id: int)
    requires id in rows
    ensures id in SetSuccessor(rows, oldId, newId) && id in Link(rows, docs, oldId, newId)
    ensures var linked := SetSuccessor(rows, oldId, newId);
            Link(rows, docs, oldId, newId)[id] == RepointRow(linked, docs, linked[id], oldId, newId)
  {
  }

  lemma LinkElsewhere(rows: SummaryTable, docs: DocTable, oldId: int, newId: int)
    ensures var linked := SetSuccessor(rows, oldId, newId);
            var out := Link(rows, docs, oldId, newId);
            out.Keys == linked.Keys && forall id :: id in linked && id !in Citing(linked, oldId) ==>
              out[id] == linked[id]
  {
  }

  // ---------- the sweep's recheck ----------

  predicate LineageRetired(rows: SummaryTable, id: int) {
    id in rows && rows[id].superseded && rows[id].reason == Lineage
  }

  /** A citation that could move: lineage-retired, and its chain ends at an active row. */
  ghost predicate Stale(rows: SummaryTable, id: int) {
    LineageRetired(rows, id) && ActiveEnd(rows, id).Some?
  }

  predicate Rechecked(rows: SummaryTable, row: Summary) {
    row.kind == Insight && !row.superseded
    && exists s :: s in row.summaryIds && LineageRetired(rows, s) && rows[s].kind == Thematic
  }

  /** Every id cited by a rechecked insight. */
  function Cited(rows: SummaryTable): set<int> {
    set id, s | id in rows && Rechecked(rows, rows[id]) && s in rows[id].summaryIds :: s
  }

  ghost function StaleCited(rows: SummaryTable): set<int> {
    set s | s in Cited(rows) && Stale(rows, s)
  }

  ghost predicate AllStale(rows: SummaryTable, stale: seq<int>) {
    forall i :: 0 <= i < |stale| ==> Stale(rows, stale[i])
  }

  lemma SortedStaleIsStale(rows: SummaryTable)
    ensures AllStale(rows, Sorted(StaleCited(rows)))
  {
    var stale := Sorted(StaleCited(rows));
    forall i | 0 <= i < |stale| ensures Stale(rows, stale[i]) { assert stale[i] in StaleCited(rows); }
  }

  /** The citations of one insight after trying every stale id in turn. */
  ghost function RecheckIds(
    rows: SummaryTable, docs: DocTable, sources: seq<int>, ids: seq<int>, stale: seq<int>): seq<int>
    requires AllStale(rows, stale)
    decreases |stale|
  {
    if stale == [] then ids
    else
      var next := if stale[0] in ids
                  then Retarget(rows, docs, sources, ids, stale[0], ActiveEnd(rows, stale[0]).value)
                  else ids;
      RecheckIds(rows, docs, sources, next, stale[1..])
  }

  ghost function RecheckRow(rows: SummaryTable, docs: DocTable, row: Summary): Summary {
    SortedStaleIsStale(rows);
    if Rechecked(rows, row)
    then row.(summaryIds := RecheckIds(rows, docs, row.sources, row.summaryIds, Sorted(StaleCited(rows))))
    else row
  }

  /** recheck_kept_thematic_ids as a function of the table. */
  ghost function Recheck(rows: SummaryTable, docs: DocTable): SummaryTable {
    map id | id in rows :: RecheckRow(rows, docs, rows[id])
  }

  lemma RecheckAt(rows: SummaryTable, docs: DocTable, id: int)
    requires id in rows && Rechecked(rows, rows[id])
    ensures AllStale(rows, Sorted(StaleCited(rows)))
    ensures Recheck(rows, docs)[id]
         == rows[id].(summaryIds := RecheckIds(rows, docs, rows[id].sources, rows[id].summaryIds,
           Sorted(StaleCited(rows))))
  {
    SortedStaleIsStale(rows);
  }

  lemma RecheckElsewhere(rows: SummaryTable, docs: DocTable)
    ensures Recheck(rows, docs).Keys == rows.Keys
    ensures forall id :: id in rows && !Rechecked(rows, rows[id]) ==> Recheck(rows, docs)[id] == rows[id]
  {
  }

  /** However many citations move, no decision the insight had support for loses it. */
  lemma {:induction false} RecheckIdsKeepSupport(
    rows: SummaryTable, docs: DocTable, sources: seq<int>, ids: seq<int>, stale: seq<int>)
    requires AllStale(rows, stale)
    ensures Supported(rows, docs, sources, ids)
         <= Supported(rows, docs, sources, RecheckIds(rows, docs, sources, ids, stale))
    decreases |stale|
  {
    if stale == [] {
    } else {
      var next := if stale[0] in ids
                  then Retarget(rows, docs, sources, ids, stale[0], ActiveEnd(rows, stale[0]).value)
                  else ids;
      RecheckIdsKeepSupport(rows, docs, sources, next, stale[1..]);
    }
  }

  ghost function StaleIn(rows: SummaryTable, ids: seq<int>): set<int> {
    set s | s in ids && Stale(rows, s)
  }

  lemma ActiveIsNotStale(rows: SummaryTable, id: int)
    requires Stale(rows, id)
    ensures !Stale(rows, ActiveEnd(rows, id).value)
    ensures ActiveEnd(rows, id).value != id
  {
  }

  /** Any change of the citations strictly lowers the set of stale ones; and a changed list has no duplicate. */
  lemma {:induction false} RecheckIdsLower(
    rows: SummaryTable, docs: DocTable, sources: seq<int>, ids: seq<int>, stale: seq<int>)
    requires AllStale(rows, stale)
    ensures var out := RecheckIds(rows, docs, sources, ids, stale);
            out == ids || (StaleIn(rows, out) < StaleIn(rows, ids) && NoDup(out))
    decreases |stale|
  {
    if stale == [] {
    } else {
      var oldId := stale[0];
      var end := ActiveEnd(rows, oldId).value;
      var next := if oldId in ids then Retarget(rows, docs, sources, ids, oldId, end) else ids;
      RecheckIdsLower(rows, docs, sources, next, stale[1..]);
      if next != ids {
        ActiveIsNotStale(rows, oldId);
        SubstituteElems(ids, oldId, end);
        assert oldId in StaleIn(rows, ids) && oldId !in StaleIn(rows, next);
        assert StaleIn(rows, next) <= StaleIn(rows, ids);
      }
    }
  }

  // ---------- repeated sweeps ----------

  ghost function StaleOf(rows: SummaryTable, id: int): nat {
    if id in rows && rows[id].kind == Insight && !rows[id].superseded then |StaleIn(rows, rows[id].summaryIds)| else 0
  }

  /** Stale citations of the active insights with an id below n. */
  ghost function TotalStale(rows: SummaryTable, n: nat): nat {
    if n == 0 then 0 else TotalStale(rows, n - 1) + StaleOf(rows, n - 1)
  }

  lemma RecheckSameChains(rows: SummaryTable, docs: DocTable)
    ensures SameChains(rows, Recheck(rows, docs))
    ensures forall id :: Stale(rows, id) <==> Stale(Recheck(rows, docs), id)
  {
    forall id ensures Stale(rows, id) <==> Stale(Recheck(rows, docs), id) {
      SameEnds(rows, Recheck(rows, docs), id);
    }
  }

  lemma RecheckRowLower(rows: SummaryTable, docs: DocTable, id: int)
    requires id in rows
    ensures var before, after := rows[id].summaryIds, RecheckRow(rows, docs, rows[id]).summaryIds;
            after == before || (StaleIn(rows, after) < StaleIn(rows, before) && NoDup(after))
    ensures RecheckRow(rows, docs, rows[id]) == rows[id].(summaryIds := RecheckRow(rows, docs, rows[id]).summaryIds)
  {
    SortedStaleIsStale(rows);
    if Rechecked(rows, rows[id]) {
      RecheckIdsLower(rows, docs, rows[id].sources, rows[id].summaryIds, Sorted(StaleCited(rows)));
    }
  }

  lemma SameStaleIn(rows: SummaryTable, docs: DocTable, ids: seq<int>)
    ensures StaleIn(Recheck(rows, docs), ids) == StaleIn(rows, ids)
  {
    RecheckSameChains(rows, docs);
  }

  lemma RecheckLowersOne(rows: SummaryTable, docs: DocTable, id: int)
    ensures StaleOf(Recheck(rows, docs), id) <= StaleOf(rows, id)
    ensures id in rows && RecheckRow(rows, docs, rows[id]) != rows[id] ==>
      StaleOf(Recheck(rows, docs), id) < StaleOf(rows, id)
  {
    if id in rows {
      RecheckRowLower(rows, docs, id);
      var before, after := rows[id].summaryIds, RecheckRow(rows, docs, rows[id]).summaryIds;
      SameStaleIn(rows, docs, after);
      if after != before { ProperSubsetSmaller(StaleIn(rows, after), StaleIn(rows, before)); }
    }
  }

  /** Totals compare as their summands do. */
  lemma {:induction false} TotalsCompare(before: SummaryTable, after: SummaryTable, n: nat)
    requires forall id :: StaleOf(after, id) <= StaleOf(before, id)
    ensures TotalStale(after, n) <= TotalStale(before, n)
    ensures (exists id :: 0 <= id < n && StaleOf(after, id) < StaleOf(before, id)) ==>
              TotalStale(after, n) < TotalStale(before, n)
  {
    if n > 0 { TotalsCompare(before, after, n - 1); }
  }

  lemma RecheckLowersTotal(rows: SummaryTable, docs: DocTable, n: nat)
    ensures TotalStale(Recheck(rows, docs), n) <= TotalStale(rows, n)
    ensures (exists id :: 0 <= id < n && id in rows && RecheckRow(rows, docs, rows[id]) != rows[id]) ==>
              TotalStale(Recheck(rows, docs), n) < TotalStale(rows, n)
  {
    forall id ensures StaleOf(Recheck(rows, docs), id) <= StaleOf(rows, id) { RecheckLowersOne(rows, docs, id); }
    TotalsCompare(rows, Recheck(rows, docs), n);
    if id :| 0 <= id < n && id in rows && RecheckRow(rows, docs, rows[id]) != rows[id] {
      RecheckLowersOne(rows, docs, id);
    }
  }

  ghost function Sweeps(rows: SummaryTable, docs: DocTable, k: nat): SummaryTable {
    if k == 0 then rows else Recheck(Sweeps(rows, docs, k - 1), docs)
  }

  /** A sweep that lowers nothing changed nothing. */
  lemma RecheckFixpointOrLower(rows: SummaryTable, docs: DocTable, n: nat)
    requires forall id :: id in rows ==> 0 <= id < n
    ensures Recheck(rows, docs) == rows || TotalStale(Recheck(rows, docs), n) < TotalStale(rows, n)
  {
    RecheckLowersTotal(rows, docs, n);
    if forall id :: id in rows ==> RecheckRow(rows, docs, rows[id]) == rows[id] {
      assert Recheck(rows, docs) == rows;
    }
  }

  /** After as many sweeps as there are stale citations, one more sweep changes nothing. */
  lemma SweepsReachFixpoint(rows: SummaryTable, docs: DocTable, n: nat, k: nat)
    requires forall id :: id in rows ==> 0 <= id < n
    requires k >= TotalStale(rows, n)
    ensures Recheck(Sweeps(rows, docs, k), docs) == Sweeps(rows, docs, k)
  {
    SweepsBound(rows, docs, n, k);
    RecheckFixpointOrLower(Sweeps(rows, docs, k), docs, n);
  }

  lemma {:induction false} SweepsBound(rows: SummaryTable, docs: DocTable, n: nat, k: nat)
    requires forall id :: id in rows ==> 0 <= id < n
    ensures Sweeps(rows, docs, k).Keys == rows.Keys
    ensures Recheck(Sweeps(rows, docs, k), docs) == Sweeps(rows, docs, k)
         || TotalStale(Sweeps(rows, docs, k), n) + k <= TotalStale(rows, n)
  {
    if k == 0 {
    } else {
      SweepsBound(rows, docs, n, k - 1);
      RecheckFixpointOrLower(Sweeps(rows, docs, k - 1), docs, n);
    }
  }
}
