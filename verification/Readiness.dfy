/** Which of the records a fold would carry into its prompt has REM not finished with. */
module Readiness {
  import opened Tables

  /** One spine node as the readiness read returns it. */
  datatype ReadyRow = ReadyRow(pgId: int, remProcessed: bool, superseded: bool)

  /** The id has exactly one node, and that node is processed or superseded. */
  predicate Ready(rows: seq<ReadyRow>, pgId: int) {
    exists i :: 0 <= i < |rows| && SoleNode(rows, pgId, i) && (rows[i].superseded || rows[i].remProcessed)
  }

  predicate SoleNode(rows: seq<ReadyRow>, pgId: int, i: int)
    requires 0 <= i < |rows|
  {
    rows[i].pgId == pgId && forall j :: 0 <= j < |rows| && rows[j].pgId == pgId ==> j == i
  }

  predicate Duplicated(rows: seq<ReadyRow>, pgId: int) {
    exists i, j :: 0 <= i < j < |rows| && rows[i].pgId == pgId && rows[j].pgId == pgId
  }

  function Unprocessed(carried: set<int>, rows: seq<ReadyRow>): set<int> {
    set id | id in carried && !Ready(rows, id)
  }

  /** The nodes of one id, in row order. */
  function NodesOf(rows: seq<ReadyRow>, pgId: int): seq<ReadyRow> {
    if rows == [] then []
    else
      var before := NodesOf(rows[..|rows| - 1], pgId);
      if rows[|rows| - 1].pgId == pgId then before + [rows[|rows| - 1]] else before
  }

  lemma {:induction false} NodesWitness(rows: seq<ReadyRow>, pgId: int)
    ensures var nodes := NodesOf(rows, pgId);
            && (nodes == [] <==> forall j :: 0 <= j < |rows| ==> rows[j].pgId != pgId)
            && (|nodes| == 1 ==> exists i :: 0 <= i < |rows| && SoleNode(rows, pgId, i) && nodes == [rows[i]])
            && (|nodes| > 1 ==> Duplicated(rows, pgId))
  {
    if rows != [] {
      var n := |rows| - 1;
      var front := rows[..n];
      NodesWitness(front, pgId);
      if rows[n].pgId == pgId {
        if NodesOf(front, pgId) == [] {
          assert SoleNode(rows, pgId, n);
        } else {
          var i :| 0 <= i < |front| && front[i].pgId == pgId;
          assert rows[i].pgId == pgId;
        }
      } else if |NodesOf(front, pgId)| == 1 {
        var i :| 0 <= i < |front| && SoleNode(front, pgId, i) && NodesOf(front, pgId) == [front[i]];
        assert SoleNode(rows, pgId, i);
      } else if |NodesOf(front, pgId)| > 1 {
        var i, j :| 0 <= i < j < |front| && front[i].pgId == pgId && front[j].pgId == pgId;
        assert rows[i].pgId == pgId && rows[j].pgId == pgId;
      }
    }
  }

  function At(byId: map<int, seq<ReadyRow>>, id: int): seq<ReadyRow> {
    if id in byId then byId[id] else []
  }

  /** The map holds the nodes of every carried id. */
  predicate Grouped(byId: map<int, seq<ReadyRow>>, carried: set<int>, rows: seq<ReadyRow>) {
    forall id :: id in carried ==> At(byId, id) == NodesOf(rows, id)
  }

  lemma GroupNext(byId: map<int, seq<ReadyRow>>, carried: set<int>, rows: seq<ReadyRow>, i: nat)
    requires i < |rows| && Grouped(byId, carried, rows[..i])
    ensures var id := rows[i].pgId;
            Grouped(if id in carried then byId[id := At(byId, id) + [rows[i]]] else byId, carried, rows[..i + 1])
  {
    assert rows[..i + 1][..i] == rows[..i];
  }

  /** A second node is never exempted, whatever either of them says. */
  lemma DuplicatedIsUnready(rows: seq<ReadyRow>, pgId: int)
    requires Duplicated(rows, pgId)
    ensures !Ready(rows, pgId)
  {
    var i, j :| 0 <= i < j < |rows| && rows[i].pgId == pgId && rows[j].pgId == pgId;
    assert forall k :: 0 <= k < |rows| && SoleNode(rows, pgId, k) ==> k == i && k == j;
  }

  /** How many nodes an id has, and what a sole node says, is all that decides. */
  lemma NodesDecide(rows: seq<ReadyRow>, pgId: int)
    ensures var nodes := NodesOf(rows, pgId);
            && (Duplicated(rows, pgId) <==> |nodes| > 1)
            && (Ready(rows, pgId) <==> |nodes| == 1 && (nodes[0].superseded || nodes[0].remProcessed))
  {
    NodesWitness(rows, pgId);
    if |NodesOf(rows, pgId)| > 1 { DuplicatedIsUnready(rows, pgId); }
  }

  /** by_id of the source: rows grouped by id, ids outside the carried ones ignored. */
  method GroupNodes(carried: set<int>, rows: seq<ReadyRow>) returns (byId: map<int, seq<ReadyRow>>)
    ensures Grouped(byId, carried, rows)
  {
    byId := map[];
    for i := 0 to |rows|
      invariant Grouped(byId, carried, rows[..i])
    {
      GroupNext(byId, carried, rows, i);
      var row := rows[i];
      if row.pgId in carried { byId := byId[row.pgId := At(byId, row.pgId) + [row]]; }
    }
    assert rows[..|rows|] == rows;
  }

  /** `out` lists, in order, the ids of `ids` that are in `wanted`. */
  ghost predicate Lists(out: seq<int>, ids: seq<int>, wanted: set<int>) {
    Ascending(out) && forall id :: id in out <==> id in ids && id in wanted
  }

  lemma ListsNext(out: seq<int>, ids: seq<int>, i: nat, wanted: set<int>)
    requires i < |ids| && Ascending(ids) && Lists(out, ids[..i], wanted)
    ensures Lists(if ids[i] in wanted then out + [ids[i]] else out, ids[..i + 1], wanted)
  {
    assert ids[..i + 1] == ids[..i] + [ids[i]];
    forall k | 0 <= k < |out| ensures out[k] < ids[i] {
      assert out[k] in out;
    }
  }

  /** unprocessed_carried: both lists ascend, and hold exactly the unready ids and those with several nodes. */
  method UnprocessedCarried(
    carried: seq<int>, rows: seq<ReadyRow>) returns (unprocessed: seq<int>, duplicated: seq<int>)
    ensures Ascending(unprocessed) && Ascending(duplicated)
    ensures forall id :: id in unprocessed <==> id in carried && !Ready(rows, id)
    ensures forall id :: id in duplicated <==> id in carried && Duplicated(rows, id)
  {
    var wanted := SortIds(Elems(carried));
    assert forall id :: id in wanted <==> id in carried;
    unprocessed, duplicated := UnprocessedWanted(wanted, rows);
  }

  /** The same for ids already sorted and without repeats. */
  method UnprocessedWanted(carried: seq<int>, rows: seq<ReadyRow>)
    returns (unprocessed: seq<int>, duplicated: seq<int>)
    requires Ascending(carried)
    ensures Ascending(unprocessed) && Ascending(duplicated)
    ensures forall id :: id in unprocessed <==> id in carried && !Ready(rows, id)
    ensures forall id :: id in duplicated <==> id in carried && Duplicated(rows, id)
  {
    var byId := GroupNodes(Elems(carried), rows);
    ghost var unready := set id | id in carried && !Ready(rows, id);
    ghost var doubled := set id | id in carried && Duplicated(rows, id);
    unprocessed, duplicated := [], [];
    for i := 0 to |carried|
      invariant Lists(unprocessed, carried[..i], unready) && Lists(duplicated, carried[..i], doubled)
    {
      var pgId := carried[i];
      assert pgId in Elems(carried);
      NodesDecide(rows, pgId);
      ListsNext(unprocessed, carried, i, unready);
      ListsNext(duplicated, carried, i, doubled);
      var group := At(byId, pgId);
      if |group| == 0 {
        unprocessed := unprocessed + [pgId];
      } else if |group| > 1 {
        unprocessed, duplicated := unprocessed + [pgId], duplicated + [pgId];
      } else if group[0].superseded {
      } else if !group[0].remProcessed {
        unprocessed := unprocessed + [pgId];
      }
    }
    assert carried[..|carried|] == carried;
  }
}
