/** The deterministic text of a thematic fold, and the check that a re-fold would rewrite the row as it is. */
module ThematicFold {
  import opened Tables
  import opened Text
  import opened ByPgId

  /** What the record line of a fold shows of a technical_docs row. */
  datatype Record = Record(rtype: string, kind: string, origin: string, recorded: string, entities: set<string>)

  function Upper(c: char): char {
    if 'a' <= c <= 'z' then ((c as int) - 32) as char else c
  }

  function Locus(record: Record): string {
    if record.origin == "" then "" else " from=\"" + record.origin + "\""
  }

  /** What a line puts before the text. */
  function Header(record: Record, id: int): string {
    "[" + seq(|record.rtype|, i requires 0 <= i < |record.rtype| => Upper(record.rtype[i]))
    + " kind=" + record.kind + Locus(record) + " recorded=" + record.recorded + " pg_id=" + IntText(id) + "] "
  }

  /** fold_record_line; an unknown record shows the defaults. */
  function RecordLine(records: map<int, Record>, m: Member<string>): string {
    var record := if m.id in records then records[m.id] else Record("fact", "observation", "", "unknown", {});
    Header(record, m.id) + m.content
  }

  function Lines(records: map<int, Record>, members: seq<Member<string>>): seq<string> {
    seq(|members|, i requires 0 <= i < |members| => RecordLine(records, members[i]))
  }

  function IdsOf(members: seq<Member<string>>): seq<int> {
    seq(|members|, i requires 0 <= i < |members| => members[i].id)
  }

  /** render_thematic_fold: the text, and the ids in the order of its lines. */
  function Render(records: map<int, Record>, members: seq<Member<string>>): (string, seq<int>) {
    var sorted := SortById(members);
    (Join("\n", Lines(records, sorted)), IdsOf(sorted))
  }

  /** The union of the members' human-asserted entities. */
  function EntitiesOf(records: map<int, Record>, ids: seq<int>): set<string> {
    set id, e | id in ids && id in records && e in records[id].entities :: e
  }

  /** The fold does not depend on the order in which the discovery rows listed the members. */
  lemma RenderIgnoresOrder(records: map<int, Record>, a: seq<Member<string>>, b: seq<Member<string>>)
    requires DistinctIds(a) && multiset(a) == multiset(b)
    ensures Render(records, a) == Render(records, b)
  {
    SortIgnoresOrder(a, b);
  }

  // ---------- a change of any member shows in the text ----------

  lemma Around(before: string, x: string, y: string, after: string)
    requires before + x + after == before + y + after
    ensures x == y
  {
    var s, t := before + x + after, before + y + after;
    assert |x| == |y|;
    assert s[|before|..|before| + |x|] == x && t[|before|..|before| + |y|] == y;
  }

  predicate DiffersInOne(a: Record, b: Record) {
    (a.kind != b.kind && a == b.(kind := a.kind)) || (a.recorded != b.recorded && a == b.(recorded := a.recorded))
    || (a.origin != b.origin && a == b.(origin := a.origin))
  }

  function Start(record: Record): string {
    "[" + seq(|record.rtype|, i requires 0 <= i < |record.rtype| => Upper(record.rtype[i])) + " kind="
  }

  function Tail(id: int, content: string): string {
    " pg_id=" + IntText(id) + "] " + content
  }

  lemma Regroup(a: string, b: string, c: string, d: string, e: string, f: string, g: string)
    ensures a + b + c + d + e + f + g == a + b + (c + (d + e + (f + g)))
    ensures a + b + c + d + e + f + g == (a + b) + c + (d + e + (f + g))
    ensures a + b + c + d + e + f + g == (a + b + c + d) + e + (f + g)
  {
  }

  /** The line, taken apart around each of its fields. */
  lemma HeaderParts(r: Record, id: int, content: string)
    ensures var line := Header(r, id) + content;
            && line == Start(r) + r.kind + (Locus(r) + (" recorded=" + r.recorded + Tail(id, content)))
            && line == (Start(r) + r.kind) + Locus(r) + (" recorded=" + r.recorded + Tail(id, content))
            && line == (Start(r) + r.kind + Locus(r) + " recorded=") + r.recorded + Tail(id, content)
  {
    var tail := " pg_id=" + IntText(id) + "] ";
    assert Header(r, id) == Start(r) + r.kind + Locus(r) + " recorded=" + r.recorded + tail by {
      assert " pg_id=" + IntText(id) + "] " == tail;
      var front := Start(r) + r.kind + Locus(r) + " recorded=" + r.recorded;
      assert front + " pg_id=" + IntText(id) + "] " == front + tail;
    }
    assert Tail(id, content) == tail + content;
    Regroup(Start(r), r.kind, Locus(r), " recorded=", r.recorded, tail, content);
  }

  /** A line opens with the record's type, each small letter as the capital at its place in the alphabet. */
  lemma TypeInCapitals(r: Record, id: int, i: nat)
    requires i < |r.rtype|
    ensures var header, c := Header(r, id), r.rtype[i];
            && |header| > i + 1 && header[0] == '['
            && if 'a' <= c <= 'z' then header[i + 1] as int - 'A' as int == c as int - 'a' as int
               else header[i + 1] == c
  {
    HeaderParts(r, id, "");
    assert Header(r, id) + "" == Header(r, id);
    assert Start(r)[i + 1] == Upper(r.rtype[i]);
  }

  lemma ChangedHeaderShows(a: Record, b: Record, id: int, content: string)
    requires DiffersInOne(a, b)
    ensures Header(a, id) + content != Header(b, id) + content
  {
    HeaderParts(a, id, content);
    HeaderParts(b, id, content);
    if Header(a, id) + content == Header(b, id) + content {
      var recorded := " recorded=" + a.recorded + Tail(id, content);
      if a.kind != b.kind {
        Around(Start(a), a.kind, b.kind, Locus(a) + recorded);
      } else if a.recorded != b.recorded {
        Around(Start(a) + a.kind + Locus(a) + " recorded=", a.recorded, b.recorded, Tail(id, content));
      } else {
        Around(Start(a) + a.kind, Locus(a), Locus(b), recorded);
        if a.origin != "" && b.origin != "" { Around(" from=\"", a.origin, b.origin, "\""); }
      }
    }
  }

  /** A member whose text is condensed anew, or whose kind, locus or date is set, has another line than before. */
  lemma ChangedMemberShows(
    records: map<int, Record>, m: Member<string>, records': map<int, Record>, m': Member<string>)
    requires m.id == m'.id && m.id in records && m'.id in records'
    requires (m.content != m'.content && records[m.id] == records'[m'.id])
      || (m.content == m'.content && DiffersInOne(records[m.id], records'[m'.id]))
    ensures RecordLine(records, m) != RecordLine(records', m')
  {
    if m.content == m'.content {
      ChangedHeaderShows(records[m.id], records'[m'.id], m.id, m.content);
    } else if RecordLine(records, m) == RecordLine(records', m') {
      Around(Header(records[m.id], m.id), m.content, m'.content, "");
    }
  }

  /** One other line makes another text. */
  lemma {:induction false} ChangedLineShows(lines: seq<string>, k: nat, line: string)
    requires k < |lines| && lines[k] != line
    ensures Join("\n", lines) != Join("\n", lines[k := line])
  {
    var changed := lines[k := line];
    if |lines| > 1 {
      if k == 0 {
        assert changed[1..] == lines[1..];
        if Join("\n", lines) == Join("\n", changed) {
          var rest := "\n" + Join("\n", lines[1..]);
          ConcatAssoc(lines[0], "\n", Join("\n", lines[1..]));
          ConcatAssoc(line, "\n", Join("\n", lines[1..]));
          assert "" + lines[0] + rest == lines[0] + rest && "" + line + rest == line + rest;
          Around("", lines[0], line, rest);
        }
      } else {
        assert changed[1..] == lines[1..][k - 1 := line];
        ChangedLineShows(lines[1..], k - 1, line);
        if Join("\n", lines) == Join("\n", changed) {
          Around(lines[0] + "\n", Join("\n", lines[1..]), Join("\n", changed[1..]), "");
        }
      }
    }
  }

  /** A fold whose text of one member was condensed anew has another text; its ids are the same. */
  lemma RewordedMemberShows(records: map<int, Record>, members: seq<Member<string>>, i: nat, content: string)
    requires i < |members| && content != members[i].content
    ensures var reworded := members[i := Member(members[i].id, content)];
            && Render(records, reworded).0 != Render(records, members).0
            && Render(records, reworded).1 == Render(records, members).1
  {
    var other := Member(members[i].id, content);
    var sorted := SortById(members);
    var k := SortExchanged(members, i, other);
    if RecordLine(records, sorted[k]) == RecordLine(records, other) { SameLineSameContent(records, sorted[k], other); }
    assert Lines(records, sorted[k := other]) == Lines(records, sorted)[k := RecordLine(records, other)];
    ChangedLineShows(Lines(records, sorted), k, RecordLine(records, other));
    assert IdsOf(sorted[k := other]) == IdsOf(sorted);
  }

  lemma SameLineSameContent(records: map<int, Record>, m: Member<string>, other: Member<string>)
    requires m.id == other.id && RecordLine(records, m) == RecordLine(records, other)
    ensures m.content == other.content
  {
    var record := if m.id in records then records[m.id] else Record("fact", "observation", "", "unknown", {});
    Around(Header(record, m.id), m.content, other.content, "");
  }

  lemma RenderIds(records: map<int, Record>, members: seq<Member<string>>)
    ensures forall x :: x in Render(records, members).1 <==> exists i :: 0 <= i < |members| && members[i].id == x
  {
    SortSorts(members);
    var sorted := SortById(members);
    var ids := Render(records, members).1;
    forall x ensures x in ids <==> exists i :: 0 <= i < |members| && members[i].id == x {
      if x in ids {
        var k :| 0 <= k < |ids| && ids[k] == x;
        assert sorted[k] in multiset(members);
      }
      if i :| 0 <= i < |members| && members[i].id == x {
        assert members[i] in multiset(sorted);
        var k :| 0 <= k < |sorted| && sorted[k] == members[i];
        assert ids[k] == x;
      }
    }
  }

  /** thematic_fold_is_current against the key's active row. */
  predicate IsCurrent(row: Summary, content: string, ids: seq<int>, entities: set<string>) {
    row.content == content && Elems(row.sources) == Elems(ids) && row.entities == entities
  }
}
