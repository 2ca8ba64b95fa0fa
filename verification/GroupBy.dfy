/** The two partitioner loops, together, are a plain group-by of the discovery rows. */
module GroupBy {
  import opened Tables
  import opened Lines
  import opened Partitioner
  import opened ByPgId
  import FactCycle
  import ThematicFold

  /** Every fact belongs to one project. */
  predicate OneProject(rows: seq<Row>) {
    forall r, q :: r in rows && q in rows && r.pgId == q.pgId ==> r.project == q.project
  }

  predicate EligibleKey(key: Key) {
    FoldEligible(key.project) && Strip(key.section) != ""
  }

  /** The fact was found in this section of this project. */
  predicate Belongs(rows: seq<Row>, key: Key, pgId: int) {
    EligibleKey(key) && Row(pgId, key.project, key.section) in rows
  }

  /** The facts of a key, once each, in first-seen order. */
  ghost function MembersOf(rows: seq<Row>, key: Key): seq<int> {
    Among(rows, key, Distinct(IdsOf(rows)))
  }

  ghost function Among(rows: seq<Row>, key: Key, ids: seq<int>): seq<int> {
    if ids == [] then []
    else Among(rows, key, ids[..|ids| - 1]) + if Belongs(rows, key, ids[|ids| - 1]) then [ids[|ids| - 1]] else []
  }

  lemma {:induction false} AmongKeeps(rows: seq<Row>, key: Key, ids: seq<int>)
    ensures forall x :: x in Among(rows, key, ids) <==> x in ids && Belongs(rows, key, x)
    ensures NoDup(ids) ==> NoDup(Among(rows, key, ids))
  {
    if ids != [] {
      var front := ids[..|ids| - 1];
      AmongKeeps(rows, key, front);
      assert ids == front + [ids[|ids| - 1]];
      assert NoDup(ids) ==> ids[|ids| - 1] !in front;
    }
  }

  /** What the caller pairs with the ids: each fact's content. */
  function ItemsOf(ids: seq<int>, content: int -> string): seq<Item> {
    seq(|ids|, i requires 0 <= i < |ids| => Item(content(ids[i]), ids[i]))
  }

  function ContentsOf(ids: seq<int>, content: int -> string): seq<string> {
    seq(|ids|, i requires 0 <= i < |ids| => content(ids[i]))
  }

  lemma {:induction false} SectionsAre(rows: seq<Row>, pgId: int)
    ensures forall s :: s in SectionsOf(rows, pgId) <==>
      exists i :: 0 <= i < |rows| && rows[i].pgId == pgId && rows[i].section == s
  {
    if rows != [] { SectionsAre(rows[..|rows| - 1], pgId); }
  }

  lemma {:induction false} VisitSectionsAre(item: Item, project: string, sections: seq<string>, registered: set<Key>)
    ensures forall v :: v in VisitSections(item, project, sections, registered) <==>
              v.item == item && v.key.project == project && v.key.section in sections
              && Strip(v.key.section) != "" && v.key in registered
  {
    if sections != [] {
      var front, last := sections[..|sections| - 1], sections[|sections| - 1];
      assert sections == front + [last];
      VisitSectionsAre(item, project, front, registered);
    }
  }

  /** A fact's turn reaches exactly the keys it has a row for. */
  lemma VisitItemAre(rows: seq<Row>, item: Item, key: Key)
    requires OneProject(rows)
    ensures Visit(item, key) in VisitItem(item, ProjectOf(rows, item.pgId), Distinct(SectionsOf(rows, item.pgId)),
      Registered(rows))
       <==> Belongs(rows, key, item.pgId)
    ensures forall v :: v in VisitItem(item, ProjectOf(rows, item.pgId), Distinct(SectionsOf(rows, item.pgId)),
      Registered(rows)) ==> v.item == item
  {
    var id := item.pgId;
    SeenHasProject(rows, id);
    SectionsAre(rows, id);
    DistinctKeeps(SectionsOf(rows, id));
    if ProjectOf(rows, id).Some? {
      var project := ProjectOf(rows, id).value;
      VisitSectionsAre(item, project, Distinct(SectionsOf(rows, id)), Registered(rows));
      if key.project == project && key.section in SectionsOf(rows, id) {
        var i :| 0 <= i < |rows| && rows[i].pgId == id && rows[i].section == key.section;
        assert rows[i] in rows && rows[i] == Row(id, project, key.section);
      }
    }
    if Row(id, key.project, key.section) in rows {
      var i :| 0 <= i < |rows| && rows[i] == Row(id, key.project, key.section);
      assert id == IdsOf(rows)[i];
      assert Key(rows[i].project, rows[i].section) in Registered(rows);
    }
  }

  /** Several visits of one fact add it to a bucket at most once. */
  lemma {:induction false} BucketOfSameItem(before: seq<Visit>, visits: seq<Visit>, item: Item, key: Key)
    requires forall v :: v in visits ==> v.item == item
    requires item.pgId !in BucketOf(before, key).ids
    ensures var b := BucketOf(before, key);
            BucketOf(before + visits, key) ==
            if Visit(item, key) in visits then Bucket(b.contents + [item.content], b.ids + [item.pgId]) else b
  {
    if visits == [] {
      assert before + visits == before;
    } else {
      var front, last := visits[..|visits| - 1], visits[|visits| - 1];
      assert visits == front + [last] && last in visits;
      assert (before + visits)[..|before + visits| - 1] == before + front;
      BucketOfSameItem(before, front, item, key);
    }
  }

  ghost predicate Holds(visits: seq<Visit>, key: Key, members: seq<int>, content: int -> string) {
    BucketOf(visits, key) == Bucket(ContentsOf(members, content), members)
  }

  /** One fact's turn at the buckets. */
  function Turn(rows: seq<Row>, content: int -> string, id: int): seq<Visit> {
    VisitItem(Item(content(id), id), ProjectOf(rows, id), Distinct(SectionsOf(rows, id)), Registered(rows))
  }

  lemma VisitsNext(
    rows: seq<Row>, project: map<int, string>, domains: map<int, seq<string>>, content: int -> string, ids: seq<int>,
    id: int)
    requires Projects(project, rows) && Domains(domains, rows)
    ensures Visits(ItemsOf(ids + [id], content), project, domains, Registered(rows))
         == Visits(ItemsOf(ids, content), project, domains, Registered(rows)) + Turn(rows, content, id)
  {
    var items := ItemsOf(ids + [id], content);
    assert items[..|ids|] == ItemsOf(ids, content);
    assert Get(project, id) == ProjectOf(rows, id) && GetOr(domains, id) == Distinct(SectionsOf(rows, id));
  }

  /** One more fact's turn. */
  lemma HoldsNext(rows: seq<Row>, before: seq<Visit>, members: seq<int>, content: int -> string, id: int, key: Key)
    requires OneProject(rows) && Holds(before, key, members, content) && id !in members
    ensures Holds(before + Turn(rows, content, id),
                  key, members + (if Belongs(rows, key, id) then [id] else []), content)
  {
    var item := Item(content(id), id);
    VisitItemAre(rows, item, key);
    BucketOfSameItem(before, VisitItem(item, ProjectOf(rows, id), Distinct(SectionsOf(rows, id)), Registered(rows)),
      item, key);
    assert ContentsOf(members + [id], content) == ContentsOf(members, content) + [content(id)];
    assert members + [] == members;
  }

  /** After the first n facts, the bucket of a key holds those of them that belong to it. */
  lemma {:induction false} BucketIsAmong(
    rows: seq<Row>, project: map<int, string>, domains: map<int, seq<string>>, content: int -> string, ids: seq<int>,
    key: Key)
    requires OneProject(rows) && Projects(project, rows) && Domains(domains, rows) && NoDup(ids)
    ensures Holds(Visits(ItemsOf(ids, content), project, domains, Registered(rows)), key, Among(rows, key, ids),
      content)
  {
    if ids != [] {
      var front, last := ids[..|ids| - 1], ids[|ids| - 1];
      assert ids == front + [last];
      BucketIsAmong(rows, project, domains, content, front, key);
      AmongKeeps(rows, key, front);
      assert last !in front;
      VisitsNext(rows, project, domains, content, front, last);
      HoldsNext(rows, Visits(ItemsOf(front, content), project, domains, Registered(rows)), Among(rows, key, front),
        content, last, key);
    }
  }

  lemma {:induction false} KeysHaveMembers(visits: seq<Visit>, key: Key)
    ensures key in KeysOf(visits) <==> BucketOf(visits, key).ids != []
  {
    if visits != [] {
      var front, last := visits[..|visits| - 1], visits[|visits| - 1];
      assert KeysOf(visits) == KeysOf(front) + [last.key];
      KeysHaveMembers(front, key);
    }
  }

  lemma {:induction false} QualifyingAre(keys: seq<Key>, visits: seq<Visit>, threshold: nat)
    requires NoDup(keys)
    ensures forall g :: g in Qualifying(keys, visits, threshold) <==>
              g.0 in keys && g.1 == BucketOf(visits, g.0) && |g.1.ids| >= threshold
    ensures forall i, j :: 0 <= i < j < |Qualifying(keys, visits, threshold)| ==>
              Qualifying(keys, visits, threshold)[i].0 != Qualifying(keys, visits, threshold)[j].0
  {
    if keys != [] {
      var front, last := keys[..|keys| - 1], keys[|keys| - 1];
      assert keys == front + [last];
      QualifyingAre(front, visits, threshold);
      assert last !in front;
      var before := Qualifying(front, visits, threshold);
      assert forall i :: 0 <= i < |before| ==> before[i] in before;
    }
  }

  ghost predicate IsGroupBy(groups: seq<(Key, Bucket)>, rows: seq<Row>, content: int -> string, threshold: nat) {
    (forall i, j :: 0 <= i < j < |groups| ==> groups[i].0 != groups[j].0)
    && forall key, bucket :: (key, bucket) in groups <==>
         bucket == Bucket(ContentsOf(MembersOf(rows, key), content), MembersOf(rows, key))
         && MembersOf(rows, key) != [] && |MembersOf(rows, key)| >= threshold
  }

  /**
   The groups are the eligible keys with enough facts, each with exactly its facts, in first-seen order, contents
   alongside.
   */
  lemma PartitionIsGroupBy(
    rows: seq<Row>, project: map<int, string>, domains: map<int, seq<string>>, content: int -> string, threshold: nat)
    requires OneProject(rows) && Projects(project, rows) && Domains(domains, rows)
    ensures var visits := Visits(ItemsOf(Distinct(IdsOf(rows)), content), project, domains, Registered(rows));
            IsGroupBy(Qualifying(Distinct(KeysOf(visits)), visits, threshold), rows, content, threshold)
  {
    var ids := Distinct(IdsOf(rows));
    var visits := Visits(ItemsOf(ids, content), project, domains, Registered(rows));
    DistinctKeeps(KeysOf(visits));
    QualifyingAre(Distinct(KeysOf(visits)), visits, threshold);
    var groups := Qualifying(Distinct(KeysOf(visits)), visits, threshold);
    DistinctKeeps(IdsOf(rows));
    forall key, bucket
      ensures (key, bucket) in groups <==>
                bucket == Bucket(ContentsOf(MembersOf(rows, key), content), MembersOf(rows, key))
                && MembersOf(rows, key) != [] && |MembersOf(rows, key)| >= threshold
    {
      BucketIsAmong(rows, project, domains, content, ids, key);
      KeysHaveMembers(visits, key);
    }
  }

  /** A fact of several sections is in every one of its groups that qualifies, and each fact is in a group once. */
  lemma EveryQualifyingGroupHoldsTheFact(
    groups: seq<(Key, Bucket)>, rows: seq<Row>, content: int -> string, threshold: nat, r: Row, g: (Key, Bucket))
    requires IsGroupBy(groups, rows, content, threshold) && r in rows && g in groups && g.0 == Key(r.project, r.section)
    ensures r.pgId in g.1.ids && NoDup(g.1.ids)
    ensures forall id :: id in g.1.ids <==> Belongs(rows, g.0, id)
  {
    var ids := Distinct(IdsOf(rows));
    assert (g.0, g.1) in groups;
    DistinctKeeps(IdsOf(rows));
    AmongKeeps(rows, g.0, ids);
    forall id | Belongs(rows, g.0, id) ensures id in ids {
      var i :| 0 <= i < |rows| && rows[i] == Row(id, g.0.project, g.0.section);
      assert IdsOf(rows)[i] == id;
    }
    var any := g.1.ids[0];
    assert any in MembersOf(rows, g.0);
    assert EligibleKey(g.0);
    assert Belongs(rows, g.0, r.pgId);
  }

  // ---------- the groups, over the rows alone ----------

  /** A named project that is not the one records are parked under, and a named section. */
  predicate MayFold(key: Key) {
    Strip(key.project) != "" && Strip(key.project) != "general_discussion" && Strip(key.section) != ""
  }

  /** The facts the rows list in this section of this project. */
  function FactsIn(rows: seq<Row>, key: Key): set<int> {
    set r | r in rows && r.project == key.project && r.section == key.section :: r.pgId
  }

  lemma {:induction false} NoDupSize<T>(s: seq<T>)
    requires NoDup(s)
    ensures |Elems(s)| == |s|
  {
    if s != [] {
      var front, last := s[..|s| - 1], s[|s| - 1];
      NoDupSize(front);
      assert s == front + [last] && last !in front;
      assert Elems(s) == Elems(front) + {last};
    }
  }

  lemma MembersAreFacts(rows: seq<Row>, key: Key)
    ensures NoDup(MembersOf(rows, key))
    ensures Elems(MembersOf(rows, key)) == if MayFold(key) then FactsIn(rows, key) else {}
  {
    DistinctKeeps(IdsOf(rows));
    AmongKeeps(rows, key, Distinct(IdsOf(rows)));
    forall id ensures id in FactsIn(rows, key) <==> Row(id, key.project, key.section) in rows {
      if id in FactsIn(rows, key) {
        var r :| r in rows && r.project == key.project && r.section == key.section && r.pgId == id;
        assert r == Row(id, key.project, key.section);
      }
    }
    forall id | id in FactsIn(rows, key) ensures id in IdsOf(rows) {
      var i :| 0 <= i < |rows| && rows[i] == Row(id, key.project, key.section);
      assert IdsOf(rows)[i] == id;
    }
    assert EligibleKey(key) <==> MayFold(key);
    forall id ensures id in Elems(MembersOf(rows, key)) <==> MayFold(key) && id in FactsIn(rows, key) {}
  }

  /**
   A section has a group exactly when its project may fold and the rows list enough facts in it; the group then holds
   exactly those facts, each once, with its content.
   */
  lemma GroupsExactly(
    groups: seq<(Key, Bucket)>, rows: seq<Row>, content: int -> string, threshold: nat, key: Key)
    requires IsGroupBy(groups, rows, content, threshold)
    ensures (exists g :: g in groups && g.0 == key) <==>
              MayFold(key) && FactsIn(rows, key) != {} && |FactsIn(rows, key)| >= threshold
    ensures forall g :: g in groups && g.0 == key ==>
              && NoDup(g.1.ids) && Elems(g.1.ids) == FactsIn(rows, key) && |g.1.contents| == |g.1.ids|
              && forall i :: 0 <= i < |g.1.ids| ==> g.1.contents[i] == content(g.1.ids[i])
  {
    var ids := MembersOf(rows, key);
    MembersAreFacts(rows, key);
    NoDupSize(ids);
    assert ids == [] <==> Elems(ids) == {} by { if ids != [] { assert ids[0] in Elems(ids); } }
    var g := (key, Bucket(ContentsOf(ids, content), ids));
    assert (g.0, g.1) in groups <==> ids != [] && |ids| >= threshold;
    forall h | h in groups && h.0 == key ensures h == g {
      assert (h.0, h.1) in groups;
    }
  }

  // ---------- the two loops as one ----------

  function RowVisits(rows: seq<Row>, content: int -> string, ids: seq<int>): seq<Visit> {
    if ids == [] then []
    else RowVisits(rows, content, ids[..|ids| - 1]) + Turn(rows, content, ids[|ids| - 1])
  }

  lemma RowVisitsMore(rows: seq<Row>, content: int -> string, ids: seq<int>, id: int)
    ensures RowVisits(rows, content, ids + [id]) == RowVisits(rows, content, ids) + Turn(rows, content, id)
  {
    assert (ids + [id])[..|ids|] == ids;
  }

  lemma VisitsOfRowsNext(
    rows: seq<Row>, project: map<int, string>, domains: map<int, seq<string>>, content: int -> string, ids: seq<int>,
      id: int)
    requires Projects(project, rows) && Domains(domains, rows)
    requires Visits(ItemsOf(ids, content), project, domains, Registered(rows)) == RowVisits(rows, content, ids)
    ensures Visits(ItemsOf(ids + [id], content), project, domains, Registered(rows))
      == RowVisits(rows, content, ids + [id])
  {
    VisitsNext(rows, project, domains, content, ids, id);
    RowVisitsMore(rows, content, ids, id);
  }

  lemma {:induction false} VisitsOfRows(
    rows: seq<Row>, project: map<int, string>, domains: map<int, seq<string>>, content: int -> string, ids: seq<int>)
    requires Projects(project, rows) && Domains(domains, rows)
    ensures Visits(ItemsOf(ids, content), project, domains, Registered(rows)) == RowVisits(rows, content, ids)
  {
    if ids != [] {
      var front, last := ids[..|ids| - 1], ids[|ids| - 1];
      VisitsOfRows(rows, project, domains, content, front);
      VisitsOfRowsNext(rows, project, domains, content, front, last);
      assert ids == front + [last];
    }
  }

  /** The groups of the discovery rows, in the order the partitioner lists them. */
  function GroupsOf(rows: seq<Row>, content: int -> string, threshold: nat): seq<(Key, Bucket)> {
    var visits := RowVisits(rows, content, Distinct(IdsOf(rows)));
    Qualifying(Distinct(KeysOf(visits)), visits, threshold)
  }

  /** Both partitioner loops, as the fact cycle and the insight walk call them. */
  method GroupFacts(rows: seq<Row>, content: int -> string, threshold: nat) returns (groups: seq<(Key, Bucket)>)
    ensures groups == GroupsOf(rows, content, threshold)
    ensures OneProject(rows) ==> IsGroupBy(groups, rows, content, threshold)
  {
    var project, domains, registered, pgIds := ProjectDomainMaps(rows);
    groups := EligibleClusters(ItemsOf(pgIds, content), project, domains, threshold, registered);
    VisitsOfRows(rows, project, domains, content, pgIds);
    if OneProject(rows) { PartitionIsGroupBy(rows, project, domains, content, threshold); }
  }

  /** Every visit is to a key that may fold, by a fact of the scan. */
  lemma {:induction false} VisitsAreEligible(rows: seq<Row>, content: int -> string, ids: seq<int>)
    ensures forall v :: v in RowVisits(rows, content, ids) ==> EligibleKey(v.key) && v.item.pgId in ids
  {
    if ids != [] {
      var front, last := ids[..|ids| - 1], ids[|ids| - 1];
      VisitsAreEligible(rows, content, front);
      assert ids == front + [last];
      if ProjectOf(rows, last).Some? {
        VisitSectionsAre(Item(content(last), last), ProjectOf(rows, last).value, Distinct(SectionsOf(rows, last)),
                         Registered(rows));
      }
    }
  }

  lemma {:induction false} BucketIdsVisit(visits: seq<Visit>, key: Key)
    ensures forall id :: id in BucketOf(visits, key).ids ==>
      exists v :: v in visits && v.key == key && v.item.pgId == id
  {
    if visits != [] {
      var front, last := visits[..|visits| - 1], visits[|visits| - 1];
      BucketIdsVisit(front, key);
      assert last in visits && forall v :: v in front ==> v in visits;
    }
  }

  /** A group's key may fold and its members are facts of the scan, also when a fact has several projects. */
  lemma GroupsAreEligible(rows: seq<Row>, content: int -> string, threshold: nat, g: (Key, Bucket))
    requires g in GroupsOf(rows, content, threshold)
    ensures EligibleKey(g.0) && forall id :: id in g.1.ids ==> id in IdsOf(rows)
  {
    var ids := Distinct(IdsOf(rows));
    var visits := RowVisits(rows, content, ids);
    DistinctKeeps(IdsOf(rows));
    DistinctKeeps(KeysOf(visits));
    QualifyingAre(Distinct(KeysOf(visits)), visits, threshold);
    VisitsAreEligible(rows, content, ids);
    BucketIdsVisit(visits, g.0);
    var i :| 0 <= i < |visits| && KeysOf(visits)[i] == g.0;
    assert visits[i] in visits;
  }

  // ---------- the groups the fact cycle starts from ----------

  /** A bucket as the fact cycle takes it: its ids with their contents. */
  function ToGroup(g: (Key, Bucket)): FactCycle.Group {
    FactCycle.Group(
      g.0,
      seq(|g.1.ids|, i requires 0 <= i < |g.1.ids| =>
        Member(g.1.ids[i], if i < |g.1.contents| then g.1.contents[i] else "")))
  }

  function ToGroups(groups: seq<(Key, Bucket)>): seq<FactCycle.Group> {
    seq(|groups|, i requires 0 <= i < |groups| => ToGroup(groups[i]))
  }

  /** The scan of a fact cycle over these discovery rows. */
  function ScanOf(
    versions: FactCycle.Versions, records: map<int, ThematicFold.Record>, rows: seq<Row>, content: int -> string,
    threshold: nat)
    : FactCycle.Scan
  {
    FactCycle.Scan(versions, records, ToGroups(GroupsOf(rows, content, threshold)), Elems(IdsOf(rows)))
  }

  lemma GroupIsAligned(
    groups: seq<(Key, Bucket)>, rows: seq<Row>, content: int -> string, threshold: nat, g: (Key, Bucket))
    requires IsGroupBy(groups, rows, content, threshold) && g in groups
    ensures |g.1.contents| == |g.1.ids| && NoDup(g.1.ids)
    ensures forall id :: id in g.1.ids ==> id in IdsOf(rows)
  {
    assert (g.0, g.1) in groups;
    DistinctKeeps(IdsOf(rows));
    AmongKeeps(rows, g.0, Distinct(IdsOf(rows)));
  }

  /** What the fact cycle assumes of its scan holds of these groups, over any records and summaries. */
  lemma GroupsFitTheCycle(
    groups: seq<(Key, Bucket)>, rows: seq<Row>, content: int -> string, threshold: nat, versions: FactCycle.Versions,
    records: map<int, ThematicFold.Record>)
    requires IsGroupBy(groups, rows, content, threshold)
    ensures forall g :: g in groups ==> |g.1.contents| == |g.1.ids|
    ensures FactCycle.ScanOk(FactCycle.Scan(versions, records, ToGroups(groups), Elems(IdsOf(rows))))
  {
    forall i | 0 <= i < |groups|
      ensures |groups[i].1.contents| == |groups[i].1.ids| && NoDup(groups[i].1.ids)
      ensures forall id :: id in groups[i].1.ids ==> id in IdsOf(rows)
    {
      GroupIsAligned(groups, rows, content, threshold, groups[i]);
    }
    var gating := ToGroups(groups);
    forall g | g in gating ensures DistinctIds(g.members) && forall m :: m in g.members ==> m.id in IdsOf(rows) {
      var i :| 0 <= i < |gating| && gating[i] == g;
      MembersAreIds(groups[i]);
    }
  }

  lemma MembersAreIds(g: (Key, Bucket))
    ensures NoDup(g.1.ids) ==> DistinctIds(ToGroup(g).members)
    ensures forall m :: m in ToGroup(g).members ==> m.id in g.1.ids
  {
    var members := ToGroup(g).members;
    forall m | m in members ensures m.id in g.1.ids {
      var k :| 0 <= k < |members| && members[k] == m;
      assert m.id == g.1.ids[k];
    }
  }
}
