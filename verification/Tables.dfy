/** The PostgreSQL tables the dream cycle reads and writes, as values. */
module Tables {

  datatype Option<+T> = None | Some(value: T)

  // ---------- community_summaries ----------

  datatype Kind = Thematic | Insight

  /** `superseded_reason`; NotRetired stands for an active row. */
  datatype RetireReason = NotRetired | Coverage | Lineage

  /** The (project, section) axis key of a thematic row. An insight uses the project only. */
  datatype Key = Key(project: string, section: string)

  datatype Summary = Summary(
    kind: Kind,
    key: Key,
    content: string,
    sources: seq<int>,
    entities: set<string>,
    domains: seq<string>,
    summaryIds: seq<int>,
    superseded: bool,
    reason: RetireReason,
    retiredAt: int,
    successor: Option<int>,
    foldedAt: int)

  type SummaryTable = map<int, Summary>

  // ---------- technical_docs ----------

  datatype DocType = Fact | Decision | Retrospective

  /** `grounds` is metadata.grounded_in; `target` is a retrospective's target_pg_id. */
  datatype Doc = Doc(
    rtype: DocType,
    superseded: bool,
    successor: Option<int>,
    grounds: set<int>,
    target: Option<int>)

  type DocTable = map<int, Doc>

  // ---------- refold_ledger ----------

  datatype RefoldStatus = Open | Refolded | Dropped

  datatype RefoldRow = RefoldRow(
    pgId: int,
    summaryId: int,
    kind: Kind,
    trigger: int,
    openedAt: int,
    status: RefoldStatus)

  // ---------- small facts about sequences ----------

  predicate NoDup<T(==)>(s: seq<T>) {
    forall i, j :: 0 <= i < j < |s| ==> s[i] != s[j]
  }

  function Elems<T>(s: seq<T>): set<T> {
    set x | x in s
  }

  // ---------- small facts about maps and sets ----------

  lemma SameTable<V>(a: map<int, V>, b: map<int, V>)
    requires a.Keys == b.Keys && forall id :: id in a ==> a[id] == b[id]
    ensures a == b
  {
    assert forall id :: id in a.Keys ==> a[id] == b[id];
    assert a == map id | id in b :: b[id];
  }

  lemma HasElement<T>(s: set<T>)
    ensures s == {} || exists x :: x in s
  {
    if forall x :: x !in s { assert s == {}; }
  }

  lemma Pick<T>(s: set<T>) returns (x: T)
    requires s != {}
    ensures x in s
  {
    HasElement(s);
    x :| x in s;
  }

  lemma HasOutsider<T>(a: set<T>, b: set<T>)
    ensures b <= a || exists x :: x in b && x !in a
  {
    if forall x :: x in b ==> x in a { assert b <= a; }
  }

  lemma PickOutsider<T>(a: set<T>, b: set<T>) returns (x: T)
    requires !(b <= a)
    ensures x in b && x !in a
  {
    HasOutsider(a, b);
    x :| x in b && x !in a;
  }

  lemma EmptyMeetIsDisjoint<T>(a: set<T>, b: set<T>)
    requires a * b == {}
    ensures a !! b
  {
    assert forall x :: x in a && x in b ==> x in a * b;
  }

  lemma SubsetSize<T>(a: set<T>, b: set<T>)
    requires a <= b
    ensures |a| <= |b|
  {
    if a == {} {
    } else {
      var x := Pick(a);
      SubsetSize(a - {x}, b - {x});
    }
  }

  lemma ProperSubsetSmaller<T>(a: set<T>, b: set<T>)
    requires a < b
    ensures |a| < |b|
  {
    var x := PickOutsider(a, b);
    SubsetSize(a, b - {x});
  }

  ghost predicate IsMin(s: set<int>, m: int) {
    m in s && forall x :: x in s ==> m <= x
  }

  lemma MinExists(s: set<int>) returns (m: int)
    requires s != {}
    ensures IsMin(s, m)
  {
    m := Pick(s);
    if s != {m} {
      var k := MinExists(s - {m});
      assert forall y :: y in s ==> y == m || y in s - {m};
      m := if m < k then m else k;
    }
  }

  predicate Ascending(s: seq<int>) {
    forall i, j :: 0 <= i < j < |s| ==> s[i] < s[j]
  }

  /** Ascending order, as sorted() lists a set. */
  ghost function Sorted(s: set<int>): (r: seq<int>)
    ensures Ascending(r)
    ensures forall x :: x in r <==> x in s
  {
    if s == {} then []
    else
      assert exists m :: IsMin(s, m) by { var m := MinExists(s); }
      var m :| IsMin(s, m);
      SortedStep(s, m, Sorted(s - {m}))
  }

  function SortedStep(s: set<int>, m: int, rest: seq<int>): (r: seq<int>)
    requires m in s && Ascending(rest)
    requires forall x :: x in rest <==> x in s && x != m
    requires forall x :: x in s ==> m <= x
    ensures Ascending(r)
    ensures forall x :: x in r <==> x in s
  {
    assert forall i :: 0 <= i < |rest| ==> rest[i] in rest;
    [m] + rest
  }

  lemma ConcatAssoc<T>(a: seq<T>, b: seq<T>, c: seq<T>)
    ensures (a + b) + c == a + (b + c)
  {
  }

  lemma HeadIsMember<T>(s: seq<T>)
    ensures s != [] ==> s[0] in s
  {
  }

  lemma SortedHead(s: set<int>, m: int)
    requires IsMin(s, m)
    ensures Sorted(s) == [m] + Sorted(s - {m})
  {
    forall k | IsMin(s, k) ensures k == m {}
  }

  /** Two ascending lists of the same elements are the same list. */
  lemma {:induction false} AscendingUnique(a: seq<int>, b: seq<int>)
    requires Ascending(a) && Ascending(b)
    requires forall x :: x in a <==> x in b
    ensures a == b
  {
    if a == [] || b == [] {
      HeadIsMember(a);
      HeadIsMember(b);
    } else {
      assert a[0] in b && b[0] in a;
      assert a == [a[0]] + a[1..] && b == [b[0]] + b[1..];
      forall x ensures x in a[1..] <==> x in b[1..] {
        assert x in a[1..] ==> x in b && x != a[0];
        assert x in b[1..] ==> x in a && x != b[0];
      }
      AscendingUnique(a[1..], b[1..]);
    }
  }

  /** sorted() of a set of ids. */
  method SortIds(s: set<int>) returns (out: seq<int>)
    ensures out == Sorted(s)
  {
    out := [];
    var rest := s;
    while rest != {}
      invariant out + Sorted(rest) == Sorted(s)
      decreases |rest|
    {
      ghost var least := MinExists(rest);
      var m :| m in rest && forall x :: x in rest ==> m <= x;
      SortedHead(rest, m);
      ConcatAssoc(out, [m], Sorted(rest - {m}));
      out := out + [m];
      rest := rest - {m};
    }
    assert out + Sorted(rest) == out;
  }
}
