/** Rows keyed by pg_id, and their ascending order. */
module ByPgId {

  datatype Member<+T> = Member(id: int, content: T)

  function Insert<T>(m: Member<T>, sorted: seq<Member<T>>): seq<Member<T>> {
    if sorted == [] || m.id <= sorted[0].id then [m] + sorted else [sorted[0]] + Insert(m, sorted[1..])
  }

  /** sorted(zip(pg_ids, contents), key = pg_id): stable, ascending. */
  function SortById<T>(members: seq<Member<T>>): seq<Member<T>> {
    if members == [] then [] else Insert(members[0], SortById(members[1..]))
  }

  predicate DistinctIds<T>(members: seq<Member<T>>) {
    forall i, j :: 0 <= i < j < |members| ==> members[i].id != members[j].id
  }

  predicate AscendingIds<T>(members: seq<Member<T>>) {
    forall i, j :: 0 <= i < j < |members| ==> members[i].id < members[j].id
  }

  predicate WeaklyAscending<T>(members: seq<Member<T>>) {
    forall i, j :: 0 <= i < j < |members| ==> members[i].id <= members[j].id
  }

  lemma {:induction false} InsertKeepsMembers<T>(m: Member<T>, sorted: seq<Member<T>>)
    ensures multiset(Insert(m, sorted)) == multiset{m} + multiset(sorted)
  {
    if sorted == [] || m.id <= sorted[0].id {
    } else {
      InsertKeepsMembers(m, sorted[1..]);
      assert sorted == [sorted[0]] + sorted[1..];
    }
  }

  lemma {:induction false} InsertSorts<T>(m: Member<T>, sorted: seq<Member<T>>)
    requires WeaklyAscending(sorted)
    ensures WeaklyAscending(Insert(m, sorted))
    ensures Insert(m, sorted)[0] == m || (sorted != [] && Insert(m, sorted)[0] == sorted[0])
  {
    if sorted == [] || m.id <= sorted[0].id {
    } else {
      InsertSorts(m, sorted[1..]);
      var rest := Insert(m, sorted[1..]);
      assert sorted[0].id <= rest[0].id;
      assert forall j :: 0 <= j < |rest| ==> rest[0].id <= rest[j].id;
    }
  }

  lemma {:induction false} SortSorts<T>(members: seq<Member<T>>)
    ensures WeaklyAscending(SortById(members))
    ensures multiset(SortById(members)) == multiset(members)
  {
    if members == [] {
    } else {
      assert members == [members[0]] + members[1..];
      SortSorts(members[1..]);
      InsertKeepsMembers(members[0], SortById(members[1..]));
      InsertSorts(members[0], SortById(members[1..]));
    }
  }

  lemma DistinctIsMultiset<T>(members: seq<Member<T>>, sorted: seq<Member<T>>)
    requires DistinctIds(members) && multiset(sorted) == multiset(members) && WeaklyAscending(sorted)
    ensures AscendingIds(sorted)
  {
    forall i, j | 0 <= i < j < |sorted| ensures sorted[i].id < sorted[j].id {
      if sorted[i].id == sorted[j].id {
        assert sorted[i] in multiset(members) && sorted[j] in multiset(members);
        var a :| 0 <= a < |members| && members[a] == sorted[i];
        var b :| 0 <= b < |members| && members[b] == sorted[j];
        assert a == b;
        TwiceIn(sorted, i, j);
        OnceIn(members, a);
        assert false;
      }
    }
  }

  lemma TwiceIn<T>(s: seq<T>, i: int, j: int)
    requires 0 <= i < j < |s| && s[i] == s[j]
    ensures multiset(s)[s[i]] >= 2
  {
    assert s == s[..i + 1] + s[i + 1..];
    assert s[i] in s[..i + 1] && s[i + 1..][j - i - 1] == s[j];
  }

  lemma {:induction false} OnceIn<T>(members: seq<Member<T>>, a: int)
    requires DistinctIds(members) && 0 <= a < |members|
    ensures multiset(members)[members[a]] == 1
  {
    assert members == members[..a] + [members[a]] + members[a + 1..];
  }

  lemma SameHead<T>(a: seq<Member<T>>, b: seq<Member<T>>)
    requires AscendingIds(a) && AscendingIds(b) && multiset(a) == multiset(b) && a != []
    ensures b != [] && a[0] == b[0]
  {
    assert a[0] in multiset(b);
    var i :| 0 <= i < |b| && b[i] == a[0];
    assert b[0] in multiset(a);
    var j :| 0 <= j < |a| && a[j] == b[0];
  }

  lemma DropHead<T>(a: seq<Member<T>>)
    requires a != []
    ensures multiset(a[1..]) == multiset(a) - multiset{a[0]}
  {
    assert a == [a[0]] + a[1..];
  }

  lemma {:induction false} AscendingSame<T>(a: seq<Member<T>>, b: seq<Member<T>>)
    requires AscendingIds(a) && AscendingIds(b) && multiset(a) == multiset(b)
    ensures a == b
  {
    if a == [] {
      assert |multiset(b)| == |b|;
    } else {
      SameHead(a, b);
      DropHead(a);
      DropHead(b);
      AscendingSame(a[1..], b[1..]);
      assert a == [a[0]] + a[1..] && b == [b[0]] + b[1..];
    }
  }

  /** Ascending order of distinct ids does not depend on the order they came in. */
  lemma SortIgnoresOrder<T>(a: seq<Member<T>>, b: seq<Member<T>>)
    requires DistinctIds(a) && multiset(a) == multiset(b)
    ensures SortById(a) == SortById(b)
  {
    SortSorts(a);
    SortSorts(b);
    DistinctIsMultiset(a, SortById(a));
    DistinctIsMultiset(a, SortById(b));
    AscendingSame(SortById(a), SortById(b));
  }

  /** Rows already in ascending order stay as they are. */
  lemma SortedStays<T>(members: seq<Member<T>>)
    requires AscendingIds(members)
    ensures SortById(members) == members
  {
    SortSorts(members);
    DistinctIsMultiset(members, SortById(members));
    AscendingSame(SortById(members), members);
  }

  // ---------- one row exchanged for another of its id ----------

  lemma {:induction false} InsertOther<T>(m: Member<T>, other: Member<T>, sorted: seq<Member<T>>) returns (k: nat)
    requires other.id == m.id
    ensures k < |Insert(m, sorted)| && Insert(m, sorted)[k] == m
    ensures Insert(other, sorted) == Insert(m, sorted)[k := other]
  {
    if sorted == [] || m.id <= sorted[0].id {
      k := 0;
    } else {
      k := InsertOther(m, other, sorted[1..]);
      k := k + 1;
    }
  }

  lemma {:induction false} InsertAround<T>(m: Member<T>, sorted: seq<Member<T>>, i: nat, other: Member<T>)
    returns (k: nat)
    requires i < |sorted| && other.id == sorted[i].id
    ensures k < |Insert(m, sorted)| && Insert(m, sorted)[k] == sorted[i]
    ensures Insert(m, sorted[i := other]) == Insert(m, sorted)[k := other]
  {
    if m.id <= sorted[0].id {
      k := i + 1;
    } else if i == 0 {
      assert sorted[0 := other][1..] == sorted[1..];
      k := 0;
    } else {
      assert sorted[i := other][1..] == sorted[1..][i - 1 := other];
      k := InsertAround(m, sorted[1..], i - 1, other);
      k := k + 1;
    }
  }

  /** Sorting keeps every other row where it was. */
  lemma {:induction false} SortExchanged<T>(members: seq<Member<T>>, i: nat, other: Member<T>) returns (k: nat)
    requires i < |members| && other.id == members[i].id
    ensures k < |SortById(members)| && SortById(members)[k] == members[i]
    ensures SortById(members[i := other]) == SortById(members)[k := other]
  {
    if i == 0 {
      assert members[0 := other][1..] == members[1..];
      k := InsertOther(members[0], other, SortById(members[1..]));
    } else {
      assert members[i := other][1..] == members[1..][i - 1 := other];
      k := SortExchanged(members[1..], i - 1, other);
      k := InsertAround(members[0], SortById(members[1..]), k, other);
    }
  }
}
