/**
 When an insight follows a thematic row to its successor, said over the records and the summaries themselves: exactly
 when every decision that some cited summary backs is still backed once the one citation is exchanged for the other.
 */
module Following {
  import opened Tables
  import opened Chain
  import opened Repoint
  import opened Succession

  /** The fact grounds the decision, by its own word or by that of a standing retrospective on it. */
  ghost predicate Grounds(docs: DocTable, d: int, fact: int) {
    (d in docs && fact in docs[d].grounds)
    || exists r :: r in docs && docs[r].rtype == Retrospective && !docs[r].superseded && docs[r].target == Some(d)
                   && fact in docs[r].grounds
  }

  /** Some cited summary holds a fact that grounds the decision. */
  ghost predicate Backed(rows: SummaryTable, docs: DocTable, d: int, cited: set<int>) {
    exists s, fact :: s in cited && s in rows && fact in rows[s].sources && Grounds(docs, d, fact)
  }

  function Exchanged(cited: set<int>, oldId: int, newId: int): set<int> {
    cited - {oldId} + {newId}
  }

  /** No decision of the insight loses its backing when one citation is exchanged for another. */
  ghost predicate ExchangeKeeps(
    rows: SummaryTable, docs: DocTable, sources: seq<int>, cited: set<int>, oldId: int, newId: int) {
    forall d :: d in sources && d in docs && docs[d].rtype == Decision && Backed(rows, docs, d, cited) ==>
      Backed(rows, docs, d, Exchanged(cited, oldId, newId))
  }

  /** The new list cites what the old one did, the one id exchanged, each id once. */
  predicate Follows(ids: seq<int>, out: seq<int>, oldId: int, newId: int) {
    Elems(out) == Exchanged(Elems(ids), oldId, newId) && NoDup(out)
  }

  lemma ThreadsAreGrounds(docs: DocTable, d: int, fact: int)
    requires d in docs
    ensures fact in Threads(docs, d) <==> Grounds(docs, d, fact)
  {
  }

  lemma FactsAreSources(rows: SummaryTable, ids: seq<int>, fact: int)
    ensures fact in FactsOf(rows, ids) <==> exists s :: s in Elems(ids) && s in rows && fact in rows[s].sources
  {
  }

  /** The support the code computes is the backing of the decisions. */
  lemma SupportedAreBacked(rows: SummaryTable, docs: DocTable, sources: seq<int>, ids: seq<int>, d: int)
    ensures d in Supported(rows, docs, sources, ids) <==>
              d in sources && d in docs && docs[d].rtype == Decision && Backed(rows, docs, d, Elems(ids))
  {
    if d in docs {
      var threads, facts := Threads(docs, d), FactsOf(rows, ids);
      if threads * facts != {} {
        var fact := Pick(threads * facts);
        ThreadsAreGrounds(docs, d, fact);
        FactsAreSources(rows, ids, fact);
      }
      if Backed(rows, docs, d, Elems(ids)) {
        var s, fact :| s in Elems(ids) && s in rows && fact in rows[s].sources && Grounds(docs, d, fact);
        ThreadsAreGrounds(docs, d, fact);
        FactsAreSources(rows, ids, fact);
        assert fact in threads * facts;
      }
    }
  }

  lemma SolidIsKept(
    rows: SummaryTable, docs: DocTable, sources: seq<int>, ids: seq<int>, after: seq<int>, oldId: int, newId: int)
    requires Follows(ids, after, oldId, newId)
    ensures SolidMatch(Supported(rows, docs, sources, ids), Supported(rows, docs, sources, after))
       <==> ExchangeKeeps(rows, docs, sources, Elems(ids), oldId, newId)
  {
    forall d
      ensures d in Supported(rows, docs, sources, ids) <==>
                d in sources && d in docs && docs[d].rtype == Decision && Backed(rows, docs, d, Elems(ids))
      ensures d in Supported(rows, docs, sources, after) <==>
                d in sources && d in docs && docs[d].rtype == Decision && Backed(rows, docs, d, Elems(after))
    {
      SupportedAreBacked(rows, docs, sources, ids, d);
      SupportedAreBacked(rows, docs, sources, after, d);
    }
  }

  lemma SubstituteFollows(ids: seq<int>, oldId: int, newId: int)
    requires oldId in ids && oldId != newId
    ensures Follows(ids, Substitute(ids, oldId, newId), oldId, newId)
  {
    SubstituteElems(ids, oldId, newId);
    var out := Substitute(ids, oldId, newId);
    forall x ensures x in Elems(out) <==> x in Exchanged(Elems(ids), oldId, newId) {}
  }

  lemma FollowsMoves(ids: seq<int>, out: seq<int>, oldId: int, newId: int)
    requires Follows(ids, out, oldId, newId) && oldId != newId && oldId in ids
    ensures oldId !in out && newId in out && forall x :: x in out ==> x == newId || x in ids
  {
    assert forall x :: x in out <==> x in Elems(out);
  }

  /** One list of citations: it follows when nothing is lost by it, and otherwise stays. */
  lemma RetargetExactly(
    rows: SummaryTable, docs: DocTable, sources: seq<int>, ids: seq<int>, oldId: int, newId: int)
    requires oldId in ids && oldId != newId
    ensures var out := Retarget(rows, docs, sources, ids, oldId, newId);
            if ExchangeKeeps(rows, docs, sources, Elems(ids), oldId, newId) then Follows(ids, out, oldId, newId)
            else out == ids
  {
    SubstituteFollows(ids, oldId, newId);
    SolidIsKept(rows, docs, sources, ids, Substitute(ids, oldId, newId), oldId, newId);
  }

  // ---------- the link after a fold ----------

  lemma LinkedBacks(rows: SummaryTable, docs: DocTable, oldId: int, newId: int, d: int, cited: set<int>)
    ensures Backed(SetSuccessor(rows, oldId, newId), docs, d, cited) <==> Backed(rows, docs, d, cited)
  {
    var linked := SetSuccessor(rows, oldId, newId);
    assert forall s :: s in rows <==> s in linked;
    assert forall s :: s in rows ==> linked[s].sources == rows[s].sources;
  }

  /** A link: every active insight citing the old row follows exactly when nothing is lost by it; no other row moves. */
  lemma LinkFollowsExactly(rows: SummaryTable, docs: DocTable, oldId: int, newId: int, id: int)
    requires id in rows && id != oldId && oldId != newId
    ensures var out, row := Link(rows, docs, oldId, newId), rows[id];
            && id in out && out[id] == row.(summaryIds := out[id].summaryIds)
            && if row.kind == Insight && !row.superseded && oldId in row.summaryIds
                 && ExchangeKeeps(rows, docs, row.sources, Elems(row.summaryIds), oldId, newId)
               then Follows(row.summaryIds, out[id].summaryIds, oldId, newId)
               else out[id].summaryIds == row.summaryIds
  {
    var linked, row := SetSuccessor(rows, oldId, newId), rows[id];
    assert linked[id] == row;
    LinkAt(rows, docs, oldId, newId, id);
    if oldId in row.summaryIds {
      RetargetExactly(linked, docs, row.sources, row.summaryIds, oldId, newId);
      forall d, cited ensures Backed(linked, docs, d, cited) <==> Backed(rows, docs, d, cited) {
        LinkedBacks(rows, docs, oldId, newId, d, cited);
      }
    }
  }

  /** The active insights that cite the old row and lose nothing by following it. */
  ghost function Followers(rows: SummaryTable, docs: DocTable, oldId: int, newId: int): set<int> {
    set id | id in Citing(rows, oldId)
             && ExchangeKeeps(rows, docs, rows[id].sources, Elems(rows[id].summaryIds), oldId, newId)
  }

  // ---------- which retired row a new one succeeds ----------

  /** Retired by lineage on this key, without a successor. */
  predicate LeftBehind(row: Summary, key: Key) {
    row.superseded && row.reason == Lineage && row.kind == Thematic && row.key == key && row.successor.None?
  }

  /** No row of the key was left behind later, or at the same time with a greater id. */
  ghost predicate LastLeftBehind(rows: SummaryTable, key: Key, x: int) {
    x in rows && LeftBehind(rows[x], key)
    && forall y :: y in rows && LeftBehind(rows[y], key) ==>
         rows[y].retiredAt < rows[x].retiredAt || (rows[y].retiredAt == rows[x].retiredAt && y <= x)
  }

  lemma NewestIsLast(rows: SummaryTable, key: Key, x: int)
    ensures NewestUnlinked(rows, x, key) <==> LastLeftBehind(rows, key, x)
  {
    forall y | y in rows ensures Unlinked(rows, y, key) <==> LeftBehind(rows[y], key) {}
  }

  /** A row inserted by a fold that retires nothing is the successor of the last row left behind, and of no other. */
  lemma RegateLinksLast(rows: SummaryTable, docs: DocTable, item: FoldItem, id: int, x: int)
    requires !Succeeds(item) && x in rows && id in rows && !rows[id].superseded
    ensures var out := Linked(rows, docs, item, id, true);
            && x in out
            && out[x].successor == if LastLeftBehind(rows, item.key, x) then Some(id) else rows[x].successor
  {
    NewestIsLast(rows, item.key, x);
    if exists n :: NewestUnlinked(rows, n, item.key) {
      var n :| NewestUnlinked(rows, n, item.key) && Linked(rows, docs, item, id, true) == Link(rows, docs, n, id);
      NewestIsLast(rows, item.key, n);
      LinkAt(rows, docs, n, id, x);
    }
  }

  // ---------- the recheck of one insight ----------

  /** Trying one stale id: the citations follow it to the active end of its chain, or stay. */
  ghost predicate TriedOnce(
    rows: SummaryTable, docs: DocTable, sources: seq<int>, before: seq<int>, stale: int, after: seq<int>) {
    ActiveEnd(rows, stale).Some?
    && var end := ActiveEnd(rows, stale).value;
       if stale in before && ExchangeKeeps(rows, docs, sources, Elems(before), stale, end)
       then Follows(before, after, stale, end) else after == before
  }

  lemma {:induction false} RecheckOneMore(
    rows: SummaryTable, docs: DocTable, sources: seq<int>, ids: seq<int>, stale: seq<int>, last: int)
    requires AllStale(rows, stale) && Stale(rows, last)
    ensures AllStale(rows, stale + [last])
    ensures RecheckIds(rows, docs, sources, ids, stale + [last])
         == var before := RecheckIds(rows, docs, sources, ids, stale);
            if last in before then Retarget(rows, docs, sources, before, last, ActiveEnd(rows, last).value) else before
    decreases |stale|
  {
    if stale == [] {
      assert [last][1..] == [];
    } else {
      var next := if stale[0] in ids
                  then Retarget(rows, docs, sources, ids, stale[0], ActiveEnd(rows, stale[0]).value) else ids;
      assert (stale + [last])[1..] == stale[1..] + [last];
      RecheckOneMore(rows, docs, sources, next, stale[1..], last);
    }
  }

  /** Each stale id of a recheck, in its turn. */
  lemma RecheckTriesEach(
    rows: SummaryTable, docs: DocTable, sources: seq<int>, ids: seq<int>, stale: seq<int>, i: nat)
    requires AllStale(rows, stale) && i < |stale|
    ensures AllStale(rows, stale[..i]) && AllStale(rows, stale[..i + 1])
    ensures TriedOnce(rows, docs, sources, RecheckIds(rows, docs, sources, ids, stale[..i]), stale[i],
                      RecheckIds(rows, docs, sources, ids, stale[..i + 1]))
  {
    assert stale[..i + 1] == stale[..i] + [stale[i]];
    RecheckOneMore(rows, docs, sources, ids, stale[..i], stale[i]);
    ActiveIsNotStale(rows, stale[i]);
    var before := RecheckIds(rows, docs, sources, ids, stale[..i]);
    if stale[i] in before {
      RetargetExactly(rows, docs, sources, before, stale[i], ActiveEnd(rows, stale[i]).value);
    }
  }

  /** No stale citation of the list could be exchanged without a loss. */
  ghost predicate AtRest(rows: SummaryTable, docs: DocTable, sources: seq<int>, ids: seq<int>, stale: seq<int>) {
    forall s :: s in stale && s in ids && ActiveEnd(rows, s).Some? ==>
      !ExchangeKeeps(rows, docs, sources, Elems(ids), s, ActiveEnd(rows, s).value)
  }

  /** A recheck leaves the citations alone exactly when none of the ids tried could be exchanged without a loss. */
  lemma {:induction false} RestsExactly(
    rows: SummaryTable, docs: DocTable, sources: seq<int>, ids: seq<int>, stale: seq<int>)
    requires AllStale(rows, stale)
    ensures RecheckIds(rows, docs, sources, ids, stale) == ids <==> AtRest(rows, docs, sources, ids, stale)
    decreases |stale|
  {
    if stale == [] {
    } else {
      var s, rest := stale[0], stale[1..];
      assert stale == [s] + rest && AllStale(rows, rest);
      var end := ActiveEnd(rows, s).value;
      var next := if s in ids then Retarget(rows, docs, sources, ids, s, end) else ids;
      ActiveIsNotStale(rows, s);
      if s in ids { RetargetExactly(rows, docs, sources, ids, s, end); }
      if s in ids && ExchangeKeeps(rows, docs, sources, Elems(ids), s, end) {
        FollowsMoves(ids, next, s, end);
        RecheckIdsLower(rows, docs, sources, next, rest);
        assert s in StaleIn(rows, ids) && s !in StaleIn(rows, next);
        assert StaleIn(rows, next) <= StaleIn(rows, ids);
        assert s !in RecheckIds(rows, docs, sources, next, rest) by {
          assert s !in StaleIn(rows, RecheckIds(rows, docs, sources, next, rest));
        }
      } else {
        RestsExactly(rows, docs, sources, ids, rest);
      }
    }
  }

  // ---------- the sweep over the whole table ----------

  /** An active insight that cites a row retired by lineage. */
  ghost predicate CitesRetired(rows: SummaryTable, id: int) {
    id in rows && rows[id].kind == Insight && !rows[id].superseded
    && exists s :: s in rows[id].summaryIds && s in rows && rows[s].kind == Thematic && rows[s].superseded
                   && rows[s].reason == Lineage
  }

  /** A citation that could move: retired by lineage, with an active row at the end of its chain. */
  ghost predicate CouldMove(rows: SummaryTable, s: int) {
    s in rows && rows[s].superseded && rows[s].reason == Lineage && ActiveEnd(rows, s).Some?
  }

  /** No citation that could move could do so without a loss. */
  ghost predicate Settled(rows: SummaryTable, docs: DocTable) {
    forall id, s :: CitesRetired(rows, id) && s in rows[id].summaryIds && CouldMove(rows, s) ==>
      !ExchangeKeeps(rows, docs, rows[id].sources, Elems(rows[id].summaryIds), s, ActiveEnd(rows, s).value)
  }

  lemma TriedAre(rows: SummaryTable, id: int, s: int)
    requires CitesRetired(rows, id) && s in rows[id].summaryIds
    ensures s in Sorted(StaleCited(rows)) <==> CouldMove(rows, s)
  {
    assert Rechecked(rows, rows[id]);
    assert s in Cited(rows);
    assert s in Sorted(StaleCited(rows)) <==> s in StaleCited(rows);
  }

  /** A sweep changes nothing exactly when no citation that could move could do so without a loss. */
  lemma SweepRestsExactly(rows: SummaryTable, docs: DocTable)
    ensures Recheck(rows, docs) == rows <==> Settled(rows, docs)
  {
    var stale := Sorted(StaleCited(rows));
    SortedStaleIsStale(rows);
    forall id | id in rows
      ensures Recheck(rows, docs)[id] == rows[id] <==>
                (CitesRetired(rows, id) ==> AtRest(rows, docs, rows[id].sources, rows[id].summaryIds, stale))
    {
      RowRestsExactly(rows, docs, id);
    }
    forall id | CitesRetired(rows, id)
      ensures AtRest(rows, docs, rows[id].sources, rows[id].summaryIds, stale) <==>
                forall s :: s in rows[id].summaryIds && CouldMove(rows, s) ==>
                  !ExchangeKeeps(rows, docs, rows[id].sources, Elems(rows[id].summaryIds), s, ActiveEnd(rows, s).value)
    {
      forall s | s in rows[id].summaryIds ensures s in stale <==> CouldMove(rows, s) { TriedAre(rows, id, s); }
    }
    if forall id :: id in rows ==> Recheck(rows, docs)[id] == rows[id] { SameTable(Recheck(rows, docs), rows); }
  }

  lemma RowRestsExactly(rows: SummaryTable, docs: DocTable, id: int)
    requires id in rows
    ensures var stale := Sorted(StaleCited(rows));
            Recheck(rows, docs)[id] == rows[id] <==>
              (CitesRetired(rows, id) ==> AtRest(rows, docs, rows[id].sources, rows[id].summaryIds, stale))
  {
    assert CitesRetired(rows, id) <==> Rechecked(rows, rows[id]);
    SortedStaleIsStale(rows);
    if Rechecked(rows, rows[id]) {
      RecheckAt(rows, docs, id);
      RestsExactly(rows, docs, rows[id].sources, rows[id].summaryIds, Sorted(StaleCited(rows)));
    } else {
      RecheckElsewhere(rows, docs);
    }
  }

  /** After as many sweeps as there are citations that could move, none is left that could move without a loss. */
  lemma SweepsSettle(rows: SummaryTable, docs: DocTable, n: nat, k: nat)
    requires forall id :: id in rows ==> 0 <= id < n
    requires k >= TotalStale(rows, n)
    ensures Settled(Sweeps(rows, docs, k), docs)
  {
    SweepsReachFixpoint(rows, docs, n, k);
    SweepRestsExactly(Sweeps(rows, docs, k), docs);
  }
}
