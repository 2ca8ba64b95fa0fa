/** Following community_summaries.superseded_by: what a walk along the successor links reaches. */
module Chain {
  import opened Tables

  /** Where a walk standing on `id` goes next: only a superseded row with a successor has a next. */
  function Next(rows: SummaryTable, id: int): Option<int> {
    if id in rows && rows[id].superseded then rows[id].successor else None
  }

  /** The row reached after exactly n hops. */
  function Hops(rows: SummaryTable, id: int, n: nat): Option<int> {
    if n == 0 then Some(id)
    else match Hops(rows, id, n - 1)
      case None => None
      case Some(at) => Next(rows, at)
  }

  predicate IsActive(rows: SummaryTable, id: int) {
    id in rows && !rows[id].superseded
  }

  ghost predicate LeadsTo(rows: SummaryTable, id: int, end: int) {
    IsActive(rows, end) && exists n: nat :: Hops(rows, id, n) == Some(end)
  }

  /** The active row at the end of the chain that starts at `id`, when there is one. */
  ghost function ActiveEnd(rows: SummaryTable, id: int): (e: Option<int>)
    ensures e.Some? ==> LeadsTo(rows, id, e.value)
    ensures e.None? ==> forall x :: !LeadsTo(rows, id, x)
  {
    if exists x :: LeadsTo(rows, id, x) then var x :| LeadsTo(rows, id, x); Some(x) else None
  }

  lemma {:induction false} HopsStopAfterActive(rows: SummaryTable, id: int, m: nat, n: nat, end: int)
    requires Hops(rows, id, m) == Some(end) && IsActive(rows, end) && m < n
    ensures Hops(rows, id, n) == None
  {
    if n == m + 1 {
    } else {
      HopsStopAfterActive(rows, id, m, n - 1, end);
    }
  }

  /** A chain has one active end, so ActiveEnd is the value of a partial function. */
  lemma ActiveEndUnique(rows: SummaryTable, id: int, end: int)
    requires LeadsTo(rows, id, end)
    ensures ActiveEnd(rows, id) == Some(end)
  {
    var found := ActiveEnd(rows, id).value;
    var m: nat :| Hops(rows, id, m) == Some(end);
    var n: nat :| Hops(rows, id, n) == Some(found);
    if m < n {
      HopsStopAfterActive(rows, id, m, n, end);
    } else if n < m {
      HopsStopAfterActive(rows, id, n, m, found);
    }
  }

  lemma {:induction false} HopsShift(rows: SummaryTable, id: int, n: nat)
    requires Next(rows, id).Some?
    ensures Hops(rows, id, n + 1) == Hops(rows, Next(rows, id).value, n)
  {
    if n == 0 {
      assert Hops(rows, id, 0) == Some(id);
    } else {
      HopsShift(rows, id, n - 1);
    }
  }

  /** One hop does not change where the chain ends. */
  lemma ActiveEndStep(rows: SummaryTable, id: int)
    requires Next(rows, id).Some?
    ensures ActiveEnd(rows, id) == ActiveEnd(rows, Next(rows, id).value)
  {
    var next := Next(rows, id).value;
    match ActiveEnd(rows, next) {
      case Some(end) =>
        var n: nat :| Hops(rows, next, n) == Some(end);
        HopsShift(rows, id, n);
        assert LeadsTo(rows, id, end);
        ActiveEndUnique(rows, id, end);
      case None =>
        if ActiveEnd(rows, id).Some? {
          var end := ActiveEnd(rows, id).value;
          var n: nat :| Hops(rows, id, n) == Some(end);
          assert n != 0;
          HopsShift(rows, id, n - 1);
          assert LeadsTo(rows, next, end);
        }
    }
  }

  /** A set of superseded rows that is closed under Next holds no chain with an active end. */
  lemma {:induction false} ClosedSetHasNoEnd(rows: SummaryTable, closed: set<int>, id: int, n: nat)
    requires id in closed
    requires forall x :: x in closed ==> !IsActive(rows, x)
    requires forall x :: x in closed && Next(rows, x).Some? ==> Next(rows, x).value in closed
    ensures Hops(rows, id, n).Some? ==> Hops(rows, id, n).value in closed
  {
    if n == 0 {
    } else {
      ClosedSetHasNoEnd(rows, closed, id, n - 1);
    }
  }

  /** The walk of the recheck: follow successors with a visited set, on any table, cyclic or dangling. */
  method WalkToActiveEnd(rows: SummaryTable, start: int) returns (end: Option<int>)
    ensures end == ActiveEnd(rows, start)
  {
    var curr := start;
    var visited := {start};
    while Next(rows, curr).Some?
      invariant curr in visited
      invariant ActiveEnd(rows, start) == ActiveEnd(rows, curr)
      invariant forall x :: x in visited && x != curr ==> !IsActive(rows, x)
      invariant forall x :: x in visited && x != curr && Next(rows, x).Some? ==> Next(rows, x).value in visited
      invariant visited <= rows.Keys + {start, curr}
      decreases (rows.Keys + {start}) - visited, curr in rows
    {
      ActiveEndStep(rows, curr);
      var next := Next(rows, curr).value;
      if next in visited {
        NoEndInside(rows, visited, start);
        return None;
      }
      visited := visited + {next};
      if next !in rows {
        assert Next(rows, next) == None;
        NoEndOffTable(rows, next);
        return None;
      }
      curr := next;
    }
    if IsActive(rows, curr) {
      assert Hops(rows, curr, 0) == Some(curr);
      assert LeadsTo(rows, curr, curr);
      ActiveEndUnique(rows, curr, curr);
      return Some(curr);
    }
    NoEndInside(rows, {curr}, curr);
    return None;
  }

  lemma NoEndInside(rows: SummaryTable, closed: set<int>, id: int)
    requires id in closed
    requires forall x :: x in closed ==> !IsActive(rows, x)
    requires forall x :: x in closed && Next(rows, x).Some? ==> Next(rows, x).value in closed
    ensures ActiveEnd(rows, id) == None
  {
    if ActiveEnd(rows, id).Some? {
      var n: nat :| Hops(rows, id, n) == ActiveEnd(rows, id);
      ClosedSetHasNoEnd(rows, closed, id, n);
    }
  }

  lemma NoEndOffTable(rows: SummaryTable, id: int)
    requires id !in rows
    ensures ActiveEnd(rows, id) == None
  {
    NoEndInside(rows, {id}, id);
  }

  /** Two tables whose rows agree on their retirement and successor columns have the same chains. */
  predicate SameChains(rows: SummaryTable, rows': SummaryTable) {
    rows.Keys == rows'.Keys
    && forall id :: id in rows ==>
         rows[id].superseded == rows'[id].superseded && rows[id].successor == rows'[id].successor
  }

  lemma {:induction false} SameHops(rows: SummaryTable, rows': SummaryTable, id: int, n: nat)
    requires SameChains(rows, rows')
    ensures Hops(rows, id, n) == Hops(rows', id, n)
  {
    if n == 0 {
    } else {
      SameHops(rows, rows', id, n - 1);
    }
  }

  lemma SameEnds(rows: SummaryTable, rows': SummaryTable, id: int)
    requires SameChains(rows, rows')
    ensures ActiveEnd(rows, id) == ActiveEnd(rows', id)
  {
    forall n: nat ensures Hops(rows, id, n) == Hops(rows', id, n) { SameHops(rows, rows', id, n); }
    match ActiveEnd(rows, id) {
      case Some(end) =>
        assert LeadsTo(rows', id, end);
        ActiveEndUnique(rows', id, end);
      case None =>
        if ActiveEnd(rows', id).Some? { assert LeadsTo(rows, id, ActiveEnd(rows', id).value); }
    }
  }
}
