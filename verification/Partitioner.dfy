/** The (project, section) partitioner of the fact cycle and of the insight walk. */
module Partitioner {
  import opened Tables
  import opened Lines

  /** A discovery row: one fact in one registered section. */
  datatype Row = Row(pgId: int, project: string, section: string)

  datatype Bucket = Bucket(contents: seq<string>, ids: seq<int>)

  // ---------- lists without repeats ----------

  /** The elements in first-seen order. */
  function Distinct<T(==)>(s: seq<T>): seq<T> {
    if s == [] then []
    else
      var front := Distinct(s[..|s| - 1]);
      if s[|s| - 1] in front then front else front + [s[|s| - 1]]
  }

  lemma {:induction false} DistinctKeeps<T>(s: seq<T>)
    ensures NoDup(Distinct(s)) && forall x :: x in Distinct(s) <==> x in s
  {
    if s != [] {
      DistinctKeeps(s[..|s| - 1]);
      assert s == s[..|s| - 1] + [s[|s| - 1]];
    }
  }

  // ---------- the per-fact maps ----------

  function IdsOf(rows: seq<Row>): seq<int> {
    seq(|rows|, i requires 0 <= i < |rows| => rows[i].pgId)
  }

  /** The sections of one fact, with repeats. */
  function SectionsOf(rows: seq<Row>, pgId: int): seq<string> {
    if rows == [] then []
    else SectionsOf(rows[..|rows| - 1], pgId) + if rows[|rows| - 1].pgId == pgId then [rows[|rows| - 1].section] else []
  }

  /** A later row of a fact overwrites its project. */
  function ProjectOf(rows: seq<Row>, pgId: int): Option<string> {
    if rows == [] then None
    else if rows[|rows| - 1].pgId == pgId then Some(rows[|rows| - 1].project)
    else ProjectOf(rows[..|rows| - 1], pgId)
  }

  function Get<T>(m: map<int, T>, id: int): Option<T> {
    if id in m then Some(m[id]) else None
  }

  function GetOr<T>(m: map<int, seq<T>>, id: int): seq<T> {
    if id in m then m[id] else []
  }

  ghost predicate Projects(project: map<int, string>, rows: seq<Row>) {
    forall id :: Get(project, id) == ProjectOf(rows, id)
  }

  ghost predicate Domains(domains: map<int, seq<string>>, rows: seq<Row>) {
    forall id :: GetOr(domains, id) == Distinct(SectionsOf(rows, id))
  }

  function Registered(rows: seq<Row>): set<Key> {
    set r | r in rows :: Key(r.project, r.section)
  }

  lemma DistinctMore<T>(s: seq<T>, x: T)
    ensures Distinct(s + [x]) == if x in Distinct(s) then Distinct(s) else Distinct(s) + [x]
  {
    assert (s + [x])[..|s|] == s;
  }

  lemma SectionsNext(rows: seq<Row>, i: nat, id: int)
    requires i < |rows|
    ensures SectionsOf(rows[..i + 1], id)
         == if rows[i].pgId == id then SectionsOf(rows[..i], id) + [rows[i].section] else SectionsOf(rows[..i], id)
  {
    assert rows[..i + 1][..i] == rows[..i];
  }

  lemma DomainsNext(domains: map<int, seq<string>>, rows: seq<Row>, i: nat)
    requires i < |rows| && Domains(domains, rows[..i])
    ensures var doms := GetOr(domains, rows[i].pgId);
            Domains(domains[rows[i].pgId := if rows[i].section in doms then doms else doms + [rows[i].section]],
              rows[..i + 1])
  {
    var pgId, section := rows[i].pgId, rows[i].section;
    var doms := GetOr(domains, pgId);
    var out := domains[pgId := if section in doms then doms else doms + [section]];
    DistinctMore(SectionsOf(rows[..i], pgId), section);
    forall id ensures GetOr(out, id) == Distinct(SectionsOf(rows[..i + 1], id)) {
      assert GetOr(domains, id) == Distinct(SectionsOf(rows[..i], id));
      SectionsNext(rows, i, id);
    }
  }

  lemma ProjectsNext(project: map<int, string>, rows: seq<Row>, i: nat)
    requires i < |rows| && Projects(project, rows[..i])
    ensures Projects(project[rows[i].pgId := rows[i].project], rows[..i + 1])
  {
    assert rows[..i + 1][..i] == rows[..i];
    var out := project[rows[i].pgId := rows[i].project];
    forall id ensures Get(out, id) == ProjectOf(rows[..i + 1], id) {
      assert Get(project, id) == ProjectOf(rows[..i], id);
    }
  }

  lemma {:induction false} SeenHasProject(rows: seq<Row>, pgId: int)
    ensures ProjectOf(rows, pgId).Some? <==> pgId in IdsOf(rows)
    ensures ProjectOf(rows, pgId).Some? ==>
      exists r :: r in rows && r.pgId == pgId && Some(r.project) == ProjectOf(rows, pgId)
  {
    if rows != [] {
      var front, last := rows[..|rows| - 1], rows[|rows| - 1];
      assert last in rows;
      assert IdsOf(rows) == IdsOf(front) + [last.pgId];
      SeenHasProject(front, pgId);
      assert forall r :: r in front ==> r in rows;
    }
  }

  lemma SeenNext(rows: seq<Row>, i: nat)
    requires i < |rows|
    ensures Distinct(IdsOf(rows[..i + 1]))
         == Distinct(IdsOf(rows[..i])) + if ProjectOf(rows[..i], rows[i].pgId).Some? then [] else [rows[i].pgId]
  {
    assert IdsOf(rows[..i + 1])[..i] == IdsOf(rows[..i]);
    DistinctKeeps(IdsOf(rows[..i]));
    SeenHasProject(rows[..i], rows[i].pgId);
  }

  /** project_domain_maps. */
  method ProjectDomainMaps(rows: seq<Row>)
    returns (project: map<int, string>, domains: map<int, seq<string>>, registered: set<Key>, pgIds: seq<int>)
    ensures Projects(project, rows) && Domains(domains, rows)
    ensures registered == Registered(rows) && pgIds == Distinct(IdsOf(rows))
  {
    project, domains, registered, pgIds := map[], map[], {}, [];
    for i := 0 to |rows|
      invariant Projects(project, rows[..i]) && Domains(domains, rows[..i])
      invariant registered == Registered(rows[..i]) && pgIds == Distinct(IdsOf(rows[..i]))
    {
      var r := rows[i];
      ProjectsNext(project, rows, i);
      DomainsNext(domains, rows, i);
      SeenNext(rows, i);
      RegisteredNext(rows, i);
      assert Get(project, r.pgId) == ProjectOf(rows[..i], r.pgId);
      if r.pgId !in project { pgIds := pgIds + [r.pgId]; }
      project := project[r.pgId := r.project];
      var doms := GetOr(domains, r.pgId);
      if r.section !in doms { doms := doms + [r.section]; }
      domains := domains[r.pgId := doms];
      registered := registered + {Key(r.project, r.section)};
    }
    assert rows[..|rows|] == rows;
  }

  lemma RegisteredNext(rows: seq<Row>, i: nat)
    requires i < |rows|
    ensures Registered(rows[..i + 1]) == Registered(rows[..i]) + {Key(rows[i].project, rows[i].section)}
  {
    assert rows[..i + 1] == rows[..i] + [rows[i]];
    assert rows[i] in rows[..i + 1];
  }

  // ---------- the buckets ----------

  /** fold_eligible: a named project that is not the parking sentinel. */
  predicate FoldEligible(project: string) {
    Strip(project) != "" && Strip(project) != "general_discussion"
  }

  /** A fact of the scan, and one of its turns at a bucket. */
  datatype Item = Item(content: string, pgId: int)

  datatype Visit = Visit(item: Item, key: Key)

  /** The registered, non-blank sections of one fact, each as a bucket key. */
  function VisitSections(item: Item, project: string, sections: seq<string>, registered: set<Key>): seq<Visit> {
    if sections == [] then []
    else
      var section := sections[|sections| - 1];
      VisitSections(item, project, sections[..|sections| - 1], registered)
      + if Strip(section) != "" && Key(project, section) in registered then [Visit(item, Key(project, section))] else []
  }

  function VisitItem(item: Item, project: Option<string>, sections: seq<string>, registered: set<Key>): seq<Visit> {
    if project.Some? && FoldEligible(project.value) then VisitSections(item, project.value, sections, registered)
      else []
  }

  function Visits(
    items: seq<Item>, project: map<int, string>, domains: map<int, seq<string>>, registered: set<Key>): seq<Visit> {
    if items == [] then []
    else
      var item := items[|items| - 1];
      Visits(items[..|items| - 1], project, domains, registered)
      + VisitItem(item, Get(project, item.pgId), GetOr(domains, item.pgId), registered)
  }

  /** The bucket of a key after these visits; a fact joins it once. */
  function BucketOf(visits: seq<Visit>, key: Key): Bucket {
    if visits == [] then Bucket([], [])
    else
      var b, v := BucketOf(visits[..|visits| - 1], key), visits[|visits| - 1];
      if v.key != key || v.item.pgId in b.ids then b else Bucket(b.contents + [v.item.content], b.ids + [v.item.pgId])
  }

  function KeysOf(visits: seq<Visit>): seq<Key> {
    seq(|visits|, i requires 0 <= i < |visits| => visits[i].key)
  }

  /** Buckets in creation order, those with enough members. */
  function Qualifying(keys: seq<Key>, visits: seq<Visit>, threshold: nat): seq<(Key, Bucket)> {
    if keys == [] then []
    else
      var key := keys[|keys| - 1];
      Qualifying(keys[..|keys| - 1], visits, threshold)
      + if |BucketOf(visits, key).ids| >= threshold then [(key, BucketOf(visits, key))] else []
  }

  function At(buckets: map<Key, Bucket>, key: Key): Bucket {
    if key in buckets then buckets[key] else Bucket([], [])
  }

  ghost predicate Filled(buckets: map<Key, Bucket>, order: seq<Key>, visits: seq<Visit>) {
    order == Distinct(KeysOf(visits))
    && (forall key :: key in buckets <==> key in order)
    && forall key :: At(buckets, key) == BucketOf(visits, key)
  }

  lemma FilledNext(buckets: map<Key, Bucket>, order: seq<Key>, visits: seq<Visit>, v: Visit)
    requires Filled(buckets, order, visits)
    ensures var b := At(buckets, v.key);
            Filled(buckets[v.key := if v.item.pgId in b.ids then b
              else Bucket(b.contents + [v.item.content], b.ids + [v.item.pgId])],
                   if v.key in order then order else order + [v.key], visits + [v])
  {
    var b := At(buckets, v.key);
    var out := buckets[v.key := if v.item.pgId in b.ids then b
      else Bucket(b.contents + [v.item.content], b.ids + [v.item.pgId])];
    assert (visits + [v])[..|visits|] == visits;
    assert KeysOf(visits + [v]) == KeysOf(visits) + [v.key];
    DistinctMore(KeysOf(visits), v.key);
    forall key ensures At(out, key) == BucketOf(visits + [v], key) {
      assert At(buckets, key) == BucketOf(visits, key);
    }
  }

  method AddToBucket(buckets: map<Key, Bucket>, order: seq<Key>, v: Visit, ghost visits: seq<Visit>)
    returns (buckets': map<Key, Bucket>, order': seq<Key>)
    requires Filled(buckets, order, visits)
    ensures Filled(buckets', order', visits + [v])
  {
    FilledNext(buckets, order, visits, v);
    buckets', order' := buckets, order;
    if v.key !in buckets { order' := order + [v.key]; }
    var b := At(buckets, v.key);
    if v.item.pgId !in b.ids { b := Bucket(b.contents + [v.item.content], b.ids + [v.item.pgId]); }
    buckets' := buckets[v.key := b];
  }

  /** One fact's turn: each of its sections that counts. */
  method AddItem(
    buckets: map<Key, Bucket>, order: seq<Key>, item: Item, project: string, sections: seq<string>,
    registered: set<Key>, ghost visits: seq<Visit>)
    returns (buckets': map<Key, Bucket>, order': seq<Key>)
    requires Filled(buckets, order, visits)
    ensures Filled(buckets', order', visits + VisitSections(item, project, sections, registered))
  {
    buckets', order' := buckets, order;
    ghost var done := visits;
    for k := 0 to |sections|
      invariant done == visits + VisitSections(item, project, sections[..k], registered)
      invariant Filled(buckets', order', done)
    {
      assert sections[..k + 1][..k] == sections[..k];
      var key := Key(project, sections[k]);
      if Strip(sections[k]) != "" && key in registered {
        buckets', order' := AddToBucket(buckets', order', Visit(item, key), done);
        done := done + [Visit(item, key)];
      }
    }
    assert sections[..|sections|] == sections;
  }

  method LargeEnough(
    buckets: map<Key, Bucket>, order: seq<Key>, threshold: nat, ghost visits: seq<Visit>)
    returns (groups: seq<(Key, Bucket)>)
    requires Filled(buckets, order, visits)
    ensures groups == Qualifying(order, visits, threshold)
  {
    groups := [];
    for i := 0 to |order|
      invariant groups == Qualifying(order[..i], visits, threshold)
    {
      assert order[..i + 1][..i] == order[..i];
      assert order[i] in order && At(buckets, order[i]) == BucketOf(visits, order[i]);
      var b := buckets[order[i]];
      if |b.ids| >= threshold { groups := groups + [(order[i], b)]; }
    }
    assert order[..|order|] == order;
  }

  /** eligible_domain_level_clusters. */
  method EligibleClusters(
    items: seq<Item>, project: map<int, string>, domains: map<int, seq<string>>, threshold: nat, registered: set<Key>)
    returns (groups: seq<(Key, Bucket)>)
    ensures var visits := Visits(items, project, domains, registered);
            groups == Qualifying(Distinct(KeysOf(visits)), visits, threshold)
  {
    var buckets: map<Key, Bucket>, order: seq<Key> := map[], [];
    ghost var visits: seq<Visit> := [];
    for i := 0 to |items|
      invariant visits == Visits(items[..i], project, domains, registered)
      invariant Filled(buckets, order, visits)
    {
      assert items[..i + 1][..i] == items[..i];
      var item := items[i];
      var sections := GetOr(domains, item.pgId);
      ghost var before := visits;
      visits := before + VisitItem(item, Get(project, item.pgId), sections, registered);
      if item.pgId in project && FoldEligible(project[item.pgId]) {
        buckets, order := AddItem(buckets, order, item, project[item.pgId], sections, registered, before);
      } else {
        assert visits == before;
      }
    }
    assert items[..|items|] == items;
    groups := LargeEnough(buckets, order, threshold, visits);
  }
}
