/** The insight text: everything but the slot texts comes from the rows. */
module InsightContent {
  import opened Tables
  import opened Text
  import opened Lines
  import opened Markers
  import opened ByPgId

  datatype Judgement = Judgement(content: string, retrospective: bool, target: Option<int>, rating: string)

  type Rows = seq<Member<Judgement>>

  /** One judgement's place in the text: what code writes, and the slot that completes it. */
  datatype Piece = Piece(head: string, id: int)

  predicate Holds(rows: Rows, id: int) {
    exists i :: 0 <= i < |rows| && rows[i].id == id
  }

  /** A retrospective whose target is not among the rows goes to the end. */
  predicate Deferred(rows: Rows, row: Member<Judgement>) {
    row.content.retrospective && !(row.content.target.Some? && Holds(rows, row.content.target.value))
  }

  /** The first line of a decision. A content of white space alone has none, and the source raises. */
  function Title(content: string): Option<string> {
    if content == "" then Some("")
    else if SplitLines(Strip(content)) == [] then None
    else Some(SplitLines(Strip(content))[0])
  }

  predicate Titled(row: Member<Judgement>) {
    !row.content.retrospective ==> Title(row.content.content).Some?
  }

  function PieceOf(row: Member<Judgement>): Piece
    requires Titled(row)
  {
    var j := row.content;
    if j.retrospective then
      Piece("[retrospective:" + IntText(row.id) + " \U{2192} decision:"
        + (if j.target.Some? then IntText(j.target.value) else "?")
            + "] rating: " + (if j.rating == "" then "unknown" else j.rating) + " \U{2014} ", row.id)
    else
      Piece("[decision:" + IntText(row.id) + "] \U{AB}" + Title(j.content).value + "\U{BB}\n", row.id)
  }

  /** The pieces of the rows that are, or are not, deferred, in order. */
  function Select(all: Rows, rows: Rows, deferred: bool): (r: seq<Piece>)
    requires forall i :: 0 <= i < |rows| ==> Titled(rows[i])
    ensures |r| <= |rows|
  {
    if rows == [] then []
    else
      var last := rows[|rows| - 1];
      Select(all, rows[..|rows| - 1], deferred) + if Deferred(all, last) == deferred then [PieceOf(last)] else []
  }

  /** Ids, titles, ratings and order of an insight: a function of the rows alone. */
  function Skeleton(rows: Rows): Option<seq<Piece>> {
    var ordered := SortById(rows);
    if exists i :: 0 <= i < |ordered| && !Titled(ordered[i]) then None
    else Some(Select(ordered, ordered, false) + Select(ordered, ordered, true))
  }

  /** Not empty, and nothing but white space. */
  predicate WhiteOnly(content: string) {
    content != "" && AllSpace(content)
  }

  predicate BlankDecision(row: Member<Judgement>) {
    !row.content.retrospective && WhiteOnly(row.content.content)
  }

  lemma TitledUnlessBlank(row: Member<Judgement>)
    ensures Titled(row) <==> !BlankDecision(row)
  {
    StripEmpty(row.content.content);
  }

  /** There is no text to write exactly when some decision is blank. */
  lemma NoSkeletonExactly(rows: Rows)
    ensures Skeleton(rows).None? <==> exists row :: row in rows && BlankDecision(row)
  {
    var ordered := SortById(rows);
    SortSorts(rows);
    forall i | 0 <= i < |ordered| ensures Titled(ordered[i]) <==> !BlankDecision(ordered[i]) {
      TitledUnlessBlank(ordered[i]);
    }
    if row :| row in rows && BlankDecision(row) {
      assert row in multiset(ordered);
    }
    if i :| 0 <= i < |ordered| && BlankDecision(ordered[i]) {
      assert ordered[i] in multiset(rows);
    }
  }

  function Fill(p: Piece, slots: map<int, string>): string {
    p.head + Strip(if p.id in slots then slots[p.id] else "")
  }

  function FillAll(pieces: seq<Piece>, slots: map<int, string>): seq<string> {
    seq(|pieces|, i requires 0 <= i < |pieces| => Fill(pieces[i], slots))
  }

  /** The skeleton completed, then the reversal lines, then the principle; empty sections are left out. */
  function Complete(pieces: seq<Piece>, reversals: seq<string>, slots: map<int, string>, principle: string): string {
    Assembled(Join("\n\n", FillAll(pieces, slots)), reversals, Strip(principle))
  }

  function Assembled(body: string, reversals: seq<string>, principle: string): string {
    var reverted := if reversals == [] then "" else Join("\n", reversals);
    Join("\n\n", (if body == "" then [] else [body]) + (if reverted == "" then [] else [reverted])
      + ["PRINCIPLE: " + principle])
  }

  /** The lines of the scaffold, inline and deferred; `ok` is false when a decision has no first line. */
  method FillRows(
    ordered: Rows, slots: map<int, string>) returns (ok: bool, inlined: seq<string>, deferred: seq<string>)
    ensures ok <==> forall k :: 0 <= k < |ordered| ==> Titled(ordered[k])
    ensures ok ==> inlined == FillAll(Select(ordered, ordered, false), slots)
    ensures ok ==> deferred == FillAll(Select(ordered, ordered, true), slots)
  {
    ok, inlined, deferred := true, [], [];
    for i := 0 to |ordered|
      invariant forall k :: 0 <= k < i ==> Titled(ordered[k])
      invariant inlined == FillAll(Select(ordered, ordered[..i], false), slots)
      invariant deferred == FillAll(Select(ordered, ordered[..i], true), slots)
    {
      var row := ordered[i];
      if !Titled(row) {
        ok := false;
        return;
      }
      var line := Fill(PieceOf(row), slots);
      SelectMore(ordered, i, false, slots);
      SelectMore(ordered, i, true, slots);
      if Deferred(ordered, row) { deferred := deferred + [line]; } else { inlined := inlined + [line]; }
    }
    assert ordered[..|ordered|] == ordered;
  }

  method JoinSections(sections: seq<string>) returns (content: string)
    ensures content == Join("\n\n", NonEmpty(sections))
  {
    var shown: seq<string> := [];
    for i := 0 to |sections|
      invariant shown == NonEmpty(sections[..i])
    {
      assert sections[..i + 1][..i] == sections[..i];
      if sections[i] != "" { shown := shown + [sections[i]]; }
    }
    assert sections[..|sections|] == sections;
    content := Join("\n\n", shown);
  }

  /** _assemble_insight_content; None stands for the IndexError of a decision without a first line. */
  method AssembleInsightContent(
    rows: Rows, reversals: seq<string>, slots: map<int, string>, principle: string) returns (content: Option<string>)
    ensures content == match Skeleton(rows)
                       case None => None
                       case Some(pieces) => Some(Complete(pieces, reversals, slots, principle))
  {
    var ordered := SortById(rows);
    var ok, inlined, deferred := FillRows(ordered, slots);
    if !ok { return None; }
    FillBoth(Select(ordered, ordered, false), Select(ordered, ordered, true), slots);
    var text := JoinParts(Join("\n\n", inlined + deferred), reversals, Strip(principle));
    content := Some(text);
  }

  /** The scaffold, what was reverted, and the principle; empty parts are left out. */
  method JoinParts(body: string, reversals: seq<string>, principle: string) returns (content: string)
    ensures content == Assembled(body, reversals, principle)
  {
    var sections := [body];
    if reversals != [] { sections := sections + [Join("\n", reversals)]; }
    sections := sections + ["PRINCIPLE: " + principle];
    ShownSections(body, reversals, principle);
    content := JoinSections(sections);
  }

  function NonEmpty(parts: seq<string>): seq<string> {
    if parts == [] then []
    else NonEmpty(parts[..|parts| - 1]) + if parts[|parts| - 1] != "" then [parts[|parts| - 1]] else []
  }

  lemma SelectMore(all: Rows, i: nat, deferred: bool, slots: map<int, string>)
    requires i < |all| && forall k :: 0 <= k <= i ==> Titled(all[k])
    ensures FillAll(Select(all, all[..i + 1], deferred), slots)
         == FillAll(Select(all, all[..i], deferred), slots) + if Deferred(all, all[i]) == deferred
           then [Fill(PieceOf(all[i]), slots)] else []
  {
    assert all[..i + 1][..i] == all[..i];
    FillMore(Select(all, all[..i], deferred), PieceOf(all[i]), slots);
  }

  lemma FillMore(pieces: seq<Piece>, p: Piece, slots: map<int, string>)
    ensures FillAll(pieces + [p], slots) == FillAll(pieces, slots) + [Fill(p, slots)]
  {
  }

  lemma FillBoth(a: seq<Piece>, b: seq<Piece>, slots: map<int, string>)
    ensures FillAll(a + b, slots) == FillAll(a, slots) + FillAll(b, slots)
  {
  }

  lemma ShownSections(body: string, reversals: seq<string>, principle: string)
    ensures NonEmpty([body] + (if reversals != [] then [Join("\n", reversals)] else []) + ["PRINCIPLE: " + principle])
         == (if body == "" then [] else [body])
            + (if reversals == [] || Join("\n", reversals) == "" then [] else [Join("\n", reversals)])
            + ["PRINCIPLE: " + principle]
  {
    var last := "PRINCIPLE: " + principle;
    var front := [body] + (if reversals != [] then [Join("\n", reversals)] else []);
    assert (front + [last])[..|front|] == front;
    assert [body][..0] == [];
    assert NonEmpty([body]) == if body == "" then [] else [body];
    if reversals != [] { assert front[..1] == [body]; }
  }

  // ---------- what a reply can and cannot change ----------

  /** Row order does not matter: the skeleton lists the judgements by ascending id. */
  lemma SkeletonIgnoresOrder(a: Rows, b: Rows)
    requires DistinctIds(a) && multiset(a) == multiset(b)
    ensures Skeleton(a) == Skeleton(b)
  {
    SortIgnoresOrder(a, b);
  }

  function PieceIds(pieces: seq<Piece>): multiset<int> {
    multiset(seq(|pieces|, i requires 0 <= i < |pieces| => pieces[i].id))
  }

  function RowIds(rows: Rows): multiset<int> {
    multiset(seq(|rows|, i requires 0 <= i < |rows| => rows[i].id))
  }

  lemma PieceIdsMore(pieces: seq<Piece>, p: Piece)
    ensures PieceIds(pieces + [p]) == PieceIds(pieces) + multiset{p.id}
  {
    var s := seq(|pieces|, i requires 0 <= i < |pieces| => pieces[i].id);
    assert seq(|pieces + [p]|, i requires 0 <= i < |pieces + [p]| => (pieces + [p])[i].id) == s + [p.id];
  }

  lemma PieceIdsBoth(a: seq<Piece>, b: seq<Piece>)
    ensures PieceIds(a + b) == PieceIds(a) + PieceIds(b)
  {
    var s := seq(|a|, i requires 0 <= i < |a| => a[i].id);
    var t := seq(|b|, i requires 0 <= i < |b| => b[i].id);
    assert seq(|a + b|, i requires 0 <= i < |a + b| => (a + b)[i].id) == s + t;
  }

  lemma RowIdsMore(rows: Rows, row: Member<Judgement>)
    ensures RowIds(rows + [row]) == RowIds(rows) + multiset{row.id}
  {
    var s := seq(|rows|, i requires 0 <= i < |rows| => rows[i].id);
    assert seq(|rows + [row]|, i requires 0 <= i < |rows + [row]| => (rows + [row])[i].id) == s + [row.id];
  }

  lemma {:induction false} SelectsSplit(all: Rows, rows: Rows)
    requires forall i :: 0 <= i < |rows| ==> Titled(rows[i])
    ensures PieceIds(Select(all, rows, false)) + PieceIds(Select(all, rows, true)) == RowIds(rows)
  {
    if rows != [] {
      var front, last := rows[..|rows| - 1], rows[|rows| - 1];
      SelectsSplit(all, front);
      assert rows == front + [last];
      RowIdsMore(front, last);
      PieceIdsMore(Select(all, front, Deferred(all, last)), PieceOf(last));
      assert Select(all, rows, !Deferred(all, last)) == Select(all, front, !Deferred(all, last));
    }
  }

  lemma WithoutLast(a: Rows)
    requires a != []
    ensures a == a[..|a| - 1] + [a[|a| - 1]] && multiset(a[..|a| - 1]) == multiset(a) - multiset{a[|a| - 1]}
  {
    assert a == a[..|a| - 1] + [a[|a| - 1]];
  }

  lemma WithoutOne(b: Rows, k: nat)
    requires k < |b|
    ensures b == b[..k] + [b[k]] + b[k + 1..] && multiset(b[..k] + b[k + 1..]) == multiset(b) - multiset{b[k]}
  {
    assert b == b[..k] + [b[k]] + b[k + 1..];
    assert multiset(b) == multiset(b[..k]) + multiset{b[k]} + multiset(b[k + 1..]);
  }

  lemma {:induction false} RowIdsOfPermutation(a: Rows, b: Rows)
    requires multiset(a) == multiset(b)
    ensures RowIds(a) == RowIds(b)
  {
    if a == [] {
      assert |multiset(b)| == |b|;
    } else {
      var front, last := a[..|a| - 1], a[|a| - 1];
      WithoutLast(a);
      assert last in multiset(b);
      var k :| 0 <= k < |b| && b[k] == last;
      WithoutOne(b, k);
      RowIdsOfPermutation(front, b[..k] + b[k + 1..]);
      RowIdsMore(front, last);
      RowIdsAround(b[..k], last, b[k + 1..]);
    }
  }

  lemma RowIdsAround(left: Rows, row: Member<Judgement>, right: Rows)
    ensures RowIds(left + [row] + right) == RowIds(left + right) + multiset{row.id}
  {
    var s := seq(|left|, i requires 0 <= i < |left| => left[i].id);
    var t := seq(|right|, i requires 0 <= i < |right| => right[i].id);
    var around, joined := left + [row] + right, left + right;
    assert seq(|around|, i requires 0 <= i < |around| => around[i].id) == s + [row.id] + t;
    assert seq(|joined|, i requires 0 <= i < |joined| => joined[i].id) == s + t;
  }

  /** Every judgement of the fold appears exactly once, and nothing else does. */
  lemma SkeletonNamesEveryRow(rows: Rows)
    requires Skeleton(rows).Some?
    ensures PieceIds(Skeleton(rows).value) == RowIds(rows)
  {
    var ordered := SortById(rows);
    SelectsSplit(ordered, ordered);
    PieceIdsBoth(Select(ordered, ordered, false), Select(ordered, ordered, true));
    SortSorts(rows);
    RowIdsOfPermutation(ordered, rows);
  }

  /** Only the slots of the fold's own judgements can reach the text. */
  lemma OnlyOwnSlotsReachTheText(
    rows: Rows, reversals: seq<string>, slots: map<int, string>, other: map<int, string>, principle: string)
    requires Skeleton(rows).Some?
    requires forall i :: 0 <= i < |rows| ==>
               var id := rows[i].id;
               (if id in slots then slots[id] else "") == (if id in other then other[id] else "")
    ensures Complete(Skeleton(rows).value, reversals, slots, principle)
      == Complete(Skeleton(rows).value, reversals, other, principle)
  {
    var pieces := Skeleton(rows).value;
    SkeletonNamesEveryRow(rows);
    forall i | 0 <= i < |pieces| ensures Fill(pieces[i], slots) == Fill(pieces[i], other) {
      var ids := seq(|pieces|, k requires 0 <= k < |pieces| => pieces[k].id);
      assert ids[i] in multiset(ids);
      var rowIds := seq(|rows|, k requires 0 <= k < |rows| => rows[k].id);
      assert pieces[i].id in multiset(rowIds);
      var k :| 0 <= k < |rowIds| && rowIds[k] == pieces[i].id;
      assert rows[k].id == pieces[i].id;
    }
    assert FillAll(pieces, slots) == FillAll(pieces, other);
  }
}
