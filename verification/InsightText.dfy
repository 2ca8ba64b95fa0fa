/** What the assembled text of an insight shows of its judgements, over the rows and the characters. */
module InsightText {
  import opened Tables
  import opened Text
  import opened Lines
  import opened Markers
  import opened MarkerLines
  import opened ByPgId
  import opened InsightContent

  // ---------- the head of one judgement ----------

  lemma {:induction false} FirstLineIs(first: string, after: string)
    requires NoBreak(first) && (after == "" || after[0] in BREAKS)
    ensures FirstLine(first + after) == first
  {
    if first == "" {
      assert first + after == after;
      if after != "" { BreaksAre(after[0]); }
    } else {
      assert (first + after)[0] == first[0] && (first + after)[1..] == first[1..] + after;
      BreaksAre(first[0]);
      FirstLineIs(first[1..], after);
      assert first == [first[0]] + first[1..];
    }
  }

  /** A decision is shown by its id and the first line of its trimmed content, word for word. */
  lemma DecisionShows(row: Member<Judgement>, first: string, after: string)
    requires !row.content.retrospective && row.content.content != ""
    requires Strip(row.content.content) == first + after && first + after != ""
    requires NoBreak(first) && (after == "" || after[0] in BREAKS)
    ensures Titled(row)
    ensures PieceOf(row) == Piece("[decision:" + IntText(row.id) + "] \U{AB}" + first + "\U{BB}\n", row.id)
  {
    FirstLineIs(first, after);
  }

  lemma EmptyDecisionShows(row: Member<Judgement>)
    requires !row.content.retrospective && row.content.content == ""
    ensures Titled(row) && PieceOf(row) == Piece("[decision:" + IntText(row.id) + "] \U{AB}\U{BB}\n", row.id)
  {
    var head := "[decision:" + IntText(row.id) + "] \U{AB}";
    assert head + "" + "\U{BB}\n" == head + "\U{BB}\n";
  }

  /** A retrospective is shown by its id, its decision's and its rating; what it lacks is said to be unknown. */
  lemma RetrospectiveShows(row: Member<Judgement>)
    requires row.content.retrospective
    ensures Titled(row) && PieceOf(row).id == row.id
    ensures var j, head := row.content, "[retrospective:" + IntText(row.id) + " \U{2192} decision:";
            && (j.target.Some? && j.rating != "" ==>
                  PieceOf(row).head == head + IntText(j.target.value) + "] rating: " + j.rating + " \U{2014} ")
            && (j.target.None? && j.rating != "" ==>
                  PieceOf(row).head == head + "?" + "] rating: " + j.rating + " \U{2014} ")
            && (j.target.Some? && j.rating == "" ==>
                  PieceOf(row).head == head + IntText(j.target.value) + "] rating: " + "unknown" + " \U{2014} ")
            && (j.target.None? && j.rating == "" ==>
                  PieceOf(row).head == head + "?" + "] rating: " + "unknown" + " \U{2014} ")
  {
  }

  // ---------- the whole text ----------

  ghost predicate Shows(text: string, part: string) {
    exists before, after :: text == before + part + after
  }

  lemma ShowsMore(before: string, text: string, after: string, part: string)
    requires Shows(text, part)
    ensures Shows(before + text + after, part)
  {
    var a, b :| text == a + part + b;
    assert before + text + after == (before + a) + part + (b + after);
  }

  lemma {:induction false} JoinShows(sep: string, parts: seq<string>, k: nat)
    requires k < |parts|
    ensures Shows(Join(sep, parts), parts[k])
  {
    if |parts| == 1 {
      assert parts[0] == "" + parts[0] + "";
    } else if k == 0 {
      var rest := sep + Join(sep, parts[1..]);
      assert Join(sep, parts) == "" + parts[0] + rest;
    } else {
      JoinShows(sep, parts[1..], k - 1);
      ShowsMore(parts[0] + sep, Join(sep, parts[1..]), "", parts[k]);
      assert (parts[0] + sep) + Join(sep, parts[1..]) + "" == Join(sep, parts);
    }
  }

  lemma ShowsThrough(text: string, middle: string, part: string)
    requires Shows(text, middle) && Shows(middle, part)
    ensures Shows(text, part)
  {
    var a, b :| text == a + middle + b;
    ShowsMore(a, middle, b, part);
  }

  /** The three parts of the text, those that are not empty. */
  function Parts(body: string, reverted: string, principle: string): seq<string> {
    (if body == "" then [] else [body]) + (if reverted == "" then [] else [reverted]) + [principle]
  }

  lemma PartsAreShown(body: string, reverted: string, principle: string)
    ensures var text := Join("\n\n", Parts(body, reverted, principle));
            && (body != "" ==> Shows(text, body)) && (reverted != "" ==> Shows(text, reverted))
            && Shows(text, principle)
  {
    var parts := Parts(body, reverted, principle);
    JoinShows("\n\n", parts, |parts| - 1);
    if body != "" { JoinShows("\n\n", parts, 0); }
    if reverted != "" { JoinShows("\n\n", parts, |parts| - 2); }
  }

  /**
   The assembled text shows every judgement of the fold, its head followed by its own sentence, every reversal line and
   the principle.
   */
  lemma TextShowsAll(
    rows: Rows, reversals: seq<string>, slots: map<int, string>, principle: string, k: nat, r: nat)
    requires Skeleton(rows).Some? && k < |rows| && Titled(rows[k])
    ensures var text := Complete(Skeleton(rows).value, reversals, slots, principle);
            var sentence := if rows[k].id in slots then Strip(slots[rows[k].id]) else "";
            && Shows(text, PieceOf(rows[k]).head + sentence)
            && (r < |reversals| && reversals[r] != "" ==> Shows(text, reversals[r]))
            && Shows(text, "PRINCIPLE: " + Strip(principle))
  {
    var pieces := Skeleton(rows).value;
    var body := Join("\n\n", FillAll(pieces, slots));
    var reverted := if reversals == [] then "" else Join("\n", reversals);
    var text := Join("\n\n", Parts(body, reverted, "PRINCIPLE: " + Strip(principle)));
    assert Complete(pieces, reversals, slots, principle) == text;
    PartsAreShown(body, reverted, "PRINCIPLE: " + Strip(principle));
    var i := PieceIsListed(rows, k);
    var line := PieceOf(rows[k]).head + if rows[k].id in slots then Strip(slots[rows[k].id]) else "";
    StripTrimmed("");
    assert FillAll(pieces, slots)[i] == line;
    JoinShows("\n\n", FillAll(pieces, slots), i);
    HeadIsText(rows[k]);
    if body == "" { ShowsNothing(line); }
    ShowsThrough(text, body, line);
    if r < |reversals| && reversals[r] != "" {
      JoinShows("\n", reversals, r);
      if reverted == "" { ShowsNothing(reversals[r]); }
      ShowsThrough(text, reverted, reversals[r]);
    }
  }

  lemma HeadIsText(row: Member<Judgement>)
    requires Titled(row)
    ensures PieceOf(row).head != ""
  {
  }

  lemma ShowsNothing(part: string)
    requires part != ""
    ensures !Shows("", part)
  {
    forall a: string, b: string ensures a + part + b != "" { assert |a + part + b| > 0; }
  }

  lemma {:induction false} SelectLists(all: Rows, rows: Rows, k: nat) returns (i: nat)
    requires (forall j :: 0 <= j < |rows| ==> Titled(rows[j])) && k < |rows|
    ensures var pieces := Select(all, rows, Deferred(all, rows[k])); i < |pieces| && pieces[i] == PieceOf(rows[k])
  {
    var front := rows[..|rows| - 1];
    if k < |front| {
      i := SelectLists(all, front, k);
    } else {
      i := |Select(all, front, Deferred(all, rows[k]))|;
    }
  }

  lemma PieceIsListed(rows: Rows, k: nat) returns (i: nat)
    requires Skeleton(rows).Some? && k < |rows| && Titled(rows[k])
    ensures i < |Skeleton(rows).value| && Skeleton(rows).value[i] == PieceOf(rows[k])
  {
    var ordered := SortById(rows);
    var j := SortedLists(rows, k);
    SkeletonIs(rows);
    i := SelectLists(ordered, ordered, j);
    if Deferred(ordered, ordered[j]) { i := i + |Select(ordered, ordered, false)|; }
  }

  lemma SkeletonIs(rows: Rows)
    requires Skeleton(rows).Some?
    ensures var ordered := SortById(rows);
            && (forall k :: 0 <= k < |ordered| ==> Titled(ordered[k]))
            && Skeleton(rows).value == Select(ordered, ordered, false) + Select(ordered, ordered, true)
  {
  }

  lemma SortedLists(rows: Rows, k: nat) returns (j: nat)
    requires k < |rows|
    ensures j < |SortById(rows)| && SortById(rows)[j] == rows[k]
  {
    SortSorts(rows);
    assert rows[k] in multiset(SortById(rows));
    j :| 0 <= j < |SortById(rows)| && SortById(rows)[j] == rows[k];
  }

  // ---------- the order ----------

  /** A retrospective on a decision that is not in the fold, or on none. */
  ghost predicate Stray(rows: Rows, row: Member<Judgement>) {
    row.content.retrospective
    && forall target :: row.content.target == Some(target) ==> forall r :: r in rows ==> r.id != target
  }

  predicate PiecesAscend(pieces: seq<Piece>) {
    forall i, j :: 0 <= i < j < |pieces| ==> pieces[i].id < pieces[j].id
  }

  lemma {:induction false} SelectAscends(all: Rows, rows: Rows, deferred: bool)
    requires AscendingIds(rows) && forall j :: 0 <= j < |rows| ==> Titled(rows[j])
    ensures var pieces := Select(all, rows, deferred);
            && PiecesAscend(pieces)
            && forall p :: p in pieces <==>
                 exists row :: row in rows && Deferred(all, row) == deferred && p == PieceOf(row)
  {
    if rows != [] {
      var front, last := rows[..|rows| - 1], rows[|rows| - 1];
      assert rows == front + [last];
      SelectAscends(all, front, deferred);
      var before := Select(all, front, deferred);
      forall i | 0 <= i < |before| ensures before[i].id < last.id {
        assert before[i] in before;
        var row :| row in front && before[i] == PieceOf(row);
        PieceHasItsId(row);
      }
      PieceHasItsId(last);
    }
  }

  lemma PieceHasItsId(row: Member<Judgement>)
    requires Titled(row)
    ensures PieceOf(row).id == row.id
  {
  }

  lemma StrayIsDeferred(rows: Rows, ordered: Rows, row: Member<Judgement>)
    requires multiset(ordered) == multiset(rows)
    ensures Deferred(ordered, row) <==> Stray(rows, row)
  {
    forall x ensures Holds(ordered, x) <==> exists r :: r in rows && r.id == x {
      if i :| 0 <= i < |ordered| && ordered[i].id == x { assert ordered[i] in multiset(rows); }
      if r :| r in rows && r.id == x {
        assert r in multiset(ordered);
        var i :| 0 <= i < |ordered| && ordered[i] == r;
      }
    }
  }

  /** The judgements come by ascending id, and after them, by ascending id again, the stray retrospectives. */
  lemma StraysComeLast(rows: Rows) returns (n: nat)
    requires Skeleton(rows).Some? && DistinctIds(rows)
    ensures var pieces := Skeleton(rows).value;
            && n <= |pieces| && PiecesAscend(pieces[..n]) && PiecesAscend(pieces[n..])
            && forall row :: row in rows && Titled(row) ==>
                 if Stray(rows, row) then PieceOf(row) in pieces[n..] else PieceOf(row) in pieces[..n]
  {
    var ordered := SortById(rows);
    SortSorts(rows);
    DistinctIsMultiset(rows, ordered);
    SelectAscends(ordered, ordered, false);
    SelectAscends(ordered, ordered, true);
    var inline, strays := Select(ordered, ordered, false), Select(ordered, ordered, true);
    n := |inline|;
    assert Skeleton(rows).value[..n] == inline && Skeleton(rows).value[n..] == strays;
    forall row | row in rows && Titled(row)
      ensures if Stray(rows, row) then PieceOf(row) in strays else PieceOf(row) in inline
    {
      assert row in multiset(ordered);
      StrayIsDeferred(rows, ordered, row);
    }
  }
}
