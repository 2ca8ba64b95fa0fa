/** Discovery rows that list the facts section by section, once each: what the partitioner makes of them. */
module Sections {
  import opened Tables
  import opened Partitioner
  import opened GroupBy

  // ---------- discovery rows of one section each ----------

  /** Every fact is listed once, in a section that may fold. */
  predicate OneRowEach(rows: seq<Row>) {
    (forall i, j :: 0 <= i < j < |rows| ==> rows[i].pgId != rows[j].pgId)
    && forall i :: 0 <= i < |rows| ==> EligibleKey(KeyOf(rows[i]))
  }

  function KeyOf(r: Row): Key {
    Key(r.project, r.section)
  }

  lemma {:induction false} OwnRow(rows: seq<Row>, i: nat)
    requires OneRowEach(rows) && i < |rows|
    ensures ProjectOf(rows, rows[i].pgId) == Some(rows[i].project)
    ensures SectionsOf(rows, rows[i].pgId) == [rows[i].section]
  {
    var n := |rows| - 1;
    if i < n {
      OwnRow(rows[..n], i);
    } else {
      NoRow(rows[..n], rows[i].pgId);
    }
  }

  lemma {:induction false} NoRow(rows: seq<Row>, id: int)
    requires forall i :: 0 <= i < |rows| ==> rows[i].pgId != id
    ensures SectionsOf(rows, id) == []
  {
    if rows != [] { NoRow(rows[..|rows| - 1], id); }
  }

  function VisitOf(r: Row, content: int -> string): Visit {
    Visit(Item(content(r.pgId), r.pgId), KeyOf(r))
  }

  function VisitsOf(rows: seq<Row>, content: int -> string): seq<Visit> {
    seq(|rows|, i requires 0 <= i < |rows| => VisitOf(rows[i], content))
  }

  lemma VisitOneSection(item: Item, key: Key, registered: set<Key>)
    requires EligibleKey(key) && key in registered
    ensures VisitItem(item, Some(key.project), [key.section], registered) == [Visit(item, key)]
  {
    var sections := [key.section];
    assert sections[..0] == [];
    assert VisitSections(item, key.project, sections[..0], registered) == [];
    assert Key(key.project, sections[0]) == key;
    assert VisitSections(item, key.project, sections, registered) == [] + [Visit(item, key)];
  }

  lemma OwnTurn(rows: seq<Row>, content: int -> string, i: nat)
    requires OneRowEach(rows) && i < |rows|
    ensures Turn(rows, content, rows[i].pgId) == [VisitOf(rows[i], content)]
  {
    OwnRow(rows, i);
    DistinctOfNoDup([rows[i].section]);
    assert rows[i] in rows && KeyOf(rows[i]) in Registered(rows);
    VisitOneSection(Item(content(rows[i].pgId), rows[i].pgId), KeyOf(rows[i]), Registered(rows));
  }

  lemma VisitsMore(rows: seq<Row>, content: int -> string, n: nat)
    requires 0 < n <= |rows|
    ensures VisitsOf(rows[..n], content) == VisitsOf(rows[..n - 1], content) + [VisitOf(rows[n - 1], content)]
    ensures IdsOf(rows)[..n] == IdsOf(rows)[..n - 1] + [rows[n - 1].pgId]
  {
  }

  lemma {:induction false} RowsVisitOnce(rows: seq<Row>, content: int -> string, n: nat)
    requires OneRowEach(rows) && n <= |rows|
    ensures RowVisits(rows, content, IdsOf(rows)[..n]) == VisitsOf(rows[..n], content)
  {
    if n > 0 {
      RowsVisitOnce(rows, content, n - 1);
      OwnTurn(rows, content, n - 1);
      VisitsMore(rows, content, n);
      RowVisitsMore(rows, content, IdsOf(rows)[..n - 1], rows[n - 1].pgId);
    }
  }

  lemma GroupsFromVisits(rows: seq<Row>, content: int -> string, threshold: nat)
    requires OneRowEach(rows)
    ensures var visits := VisitsOf(rows, content);
            GroupsOf(rows, content, threshold) == Qualifying(Distinct(KeysOf(visits)), visits, threshold)
  {
    var ids := IdsOf(rows);
    DistinctOfNoDup(ids);
    assert ids[..|ids|] == ids && rows[..|rows|] == rows;
    RowsVisitOnce(rows, content, |rows|);
  }

  lemma {:induction false} DistinctOfNoDup<T>(s: seq<T>)
    requires NoDup(s)
    ensures Distinct(s) == s
  {
    if s != [] {
      DistinctOfNoDup(s[..|s| - 1]);
      assert s == s[..|s| - 1] + [s[|s| - 1]];
    }
  }

  // ---------- rows that come section by section ----------

  predicate InSection(rows: seq<Row>, key: Key) {
    forall i :: 0 <= i < |rows| ==> KeyOf(rows[i]) == key
  }

  lemma BucketMore(visits: seq<Visit>, v: Visit, k: Key)
    ensures var b := BucketOf(visits, k);
            BucketOf(visits + [v], k) ==
            if v.key != k || v.item.pgId in b.ids then b
              else Bucket(b.contents + [v.item.content], b.ids + [v.item.pgId])
  {
    assert (visits + [v])[..|visits|] == visits;
  }

  lemma BlockParts(rows: seq<Row>, content: int -> string)
    requires rows != [] && NoDup(IdsOf(rows))
    ensures var front, last := rows[..|rows| - 1], rows[|rows| - 1];
            && VisitsOf(rows, content) == VisitsOf(front, content) + [VisitOf(last, content)]
            && IdsOf(rows) == IdsOf(front) + [last.pgId]
            && last.pgId !in IdsOf(front) && NoDup(IdsOf(front))
            && ContentsOf(IdsOf(rows), content) == ContentsOf(IdsOf(front), content) + [content(last.pgId)]
  {
    var front, last := rows[..|rows| - 1], rows[|rows| - 1];
    assert IdsOf(front) == IdsOf(rows)[..|front|];
    assert IdsOf(rows)[|front|] == last.pgId;
  }

  lemma {:induction false} BlockFills(before: seq<Visit>, rows: seq<Row>, content: int -> string, key: Key, k: Key)
    requires InSection(rows, key) && NoDup(IdsOf(rows))
    requires k == key ==> BucketOf(before, k) == Bucket([], [])
    ensures BucketOf(before + VisitsOf(rows, content), k)
         == if k == key then Bucket(ContentsOf(IdsOf(rows), content), IdsOf(rows)) else BucketOf(before, k)
  {
    if rows == [] {
      assert before + VisitsOf(rows, content) == before;
    } else {
      var front, last := rows[..|rows| - 1], rows[|rows| - 1];
      BlockParts(rows, content);
      BlockFills(before, front, content, key, k);
      BucketMore(before + VisitsOf(front, content), VisitOf(last, content), k);
      ConcatAssoc(before, VisitsOf(front, content), [VisitOf(last, content)]);
    }
  }

  lemma {:induction false} BlockAddsKey(before: seq<Visit>, rows: seq<Row>, content: int -> string, key: Key)
    requires InSection(rows, key) && key !in Distinct(KeysOf(before))
    ensures Distinct(KeysOf(before + VisitsOf(rows, content)))
         == if rows == [] then Distinct(KeysOf(before)) else Distinct(KeysOf(before)) + [key]
  {
    if rows == [] {
      assert before + VisitsOf(rows, content) == before;
    } else {
      var front := rows[..|rows| - 1];
      BlockAddsKey(before, front, content, key);
      assert KeysOf(before + VisitsOf(rows, content)) == KeysOf(before + VisitsOf(front, content)) + [key];
      DistinctMore(KeysOf(before + VisitsOf(front, content)), key);
    }
  }

  function GroupOf(rows: seq<Row>, content: int -> string, key: Key): (Key, Bucket) {
    (key, Bucket(ContentsOf(IdsOf(rows), content), IdsOf(rows)))
  }

  lemma QualifyingMore(keys: seq<Key>, key: Key, visits: seq<Visit>, threshold: nat)
    requires |BucketOf(visits, key).ids| >= threshold
    ensures Qualifying(keys + [key], visits, threshold)
         == Qualifying(keys, visits, threshold) + [(key, BucketOf(visits, key))]
  {
    assert (keys + [key])[..|keys|] == keys;
  }

  /** The first block makes one bucket. */
  lemma FirstBlock(rows: seq<Row>, key: Key, content: int -> string)
    requires InSection(rows, key) && NoDup(IdsOf(rows)) && rows != []
    ensures Distinct(KeysOf(VisitsOf(rows, content))) == [key]
    ensures BucketOf(VisitsOf(rows, content), key) == GroupOf(rows, content, key).1
    ensures forall k :: k != key ==> BucketOf(VisitsOf(rows, content), k) == Bucket([], [])
  {
    var visits := VisitsOf(rows, content);
    assert [] + visits == visits;
    BlockFills([], rows, content, key, key);
    BlockAddsKey([], rows, content, key);
    forall k | k != key ensures BucketOf(visits, k) == Bucket([], []) {
      BlockFills([], rows, content, key, k);
    }
  }

  lemma OneSection(a: seq<Row>, key: Key, content: int -> string, threshold: nat)
    requires OneRowEach(a) && InSection(a, key) && |a| >= threshold && a != []
    ensures GroupsOf(a, content, threshold) == [GroupOf(a, content, key)]
  {
    GroupsFromVisits(a, content, threshold);
    FirstBlock(a, key, content);
    QualifyingMore([], key, VisitsOf(a, content), threshold);
    assert [] + [key] == [key];
  }

  lemma SectionsApart(a: seq<Row>, b: seq<Row>)
    requires OneRowEach(a + b)
    ensures NoDup(IdsOf(a)) && NoDup(IdsOf(b))
  {
    forall i, j | 0 <= i < j < |a| ensures a[i].pgId != a[j].pgId {
      assert (a + b)[i] == a[i] && (a + b)[j] == a[j];
    }
    forall i, j | 0 <= i < j < |b| ensures b[i].pgId != b[j].pgId {
      assert (a + b)[|a| + i] == b[i] && (a + b)[|a| + j] == b[j];
    }
  }

  lemma SecondBlock(a: seq<Row>, b: seq<Row>, keyA: Key, keyB: Key, content: int -> string)
    requires InSection(a, keyA) && InSection(b, keyB) && keyA != keyB
    requires NoDup(IdsOf(a)) && NoDup(IdsOf(b)) && a != [] && b != []
    ensures var visits := VisitsOf(a, content) + VisitsOf(b, content);
            && Distinct(KeysOf(visits)) == [keyA, keyB]
            && BucketOf(visits, keyA) == GroupOf(a, content, keyA).1
            && BucketOf(visits, keyB) == GroupOf(b, content, keyB).1
  {
    FirstBlock(a, keyA, content);
    var first := VisitsOf(a, content);
    BlockFills(first, b, content, keyB, keyA);
    BlockFills(first, b, content, keyB, keyB);
    BlockAddsKey(first, b, content, keyB);
    assert [keyA] + [keyB] == [keyA, keyB];
  }

  lemma VisitsJoin(a: seq<Row>, b: seq<Row>, content: int -> string)
    ensures VisitsOf(a + b, content) == VisitsOf(a, content) + VisitsOf(b, content)
  {
  }

  lemma TwoQualify(visits: seq<Visit>, keyA: Key, keyB: Key, threshold: nat)
    requires |BucketOf(visits, keyA).ids| >= threshold && |BucketOf(visits, keyB).ids| >= threshold
    ensures Qualifying([keyA, keyB], visits, threshold)
         == [(keyA, BucketOf(visits, keyA)), (keyB, BucketOf(visits, keyB))]
  {
    OneQualifies(visits, keyA, threshold);
    QualifyingMore([keyA], keyB, visits, threshold);
    PairsOf(keyA, keyB);
    PairsOf((keyA, BucketOf(visits, keyA)), (keyB, BucketOf(visits, keyB)));
  }

  lemma OneQualifies(visits: seq<Visit>, key: Key, threshold: nat)
    requires |BucketOf(visits, key).ids| >= threshold
    ensures Qualifying([key], visits, threshold) == [(key, BucketOf(visits, key))]
  {
    QualifyingMore([], key, visits, threshold);
    EmptyThen(key);
    EmptyThen((key, BucketOf(visits, key)));
  }

  lemma PairsOf<T>(a: T, b: T)
    ensures [a] + [b] == [a, b]
  {
  }

  lemma EmptyThen<T>(a: T)
    ensures [] + [a] == [a]
  {
  }

  /** Two sections, one after the other, both with enough facts: two groups, in that order. */
  lemma TwoSections(a: seq<Row>, b: seq<Row>, keyA: Key, keyB: Key, content: int -> string, threshold: nat)
    requires OneRowEach(a + b) && InSection(a, keyA) && InSection(b, keyB) && keyA != keyB
    requires |a| >= threshold && |b| >= threshold && a != [] && b != []
    ensures GroupsOf(a + b, content, threshold) == [GroupOf(a, content, keyA), GroupOf(b, content, keyB)]
  {
    GroupsFromVisits(a + b, content, threshold);
    VisitsJoin(a, b, content);
    SectionsApart(a, b);
    SecondBlock(a, b, keyA, keyB, content);
    TwoQualify(VisitsOf(a + b, content), keyA, keyB, threshold);
  }
}
