/** The slot protocol: what a reply parses to, and the insight text assembled from it. */
module SlotProtocol {
  import opened Tables
  import opened Text
  import opened Lines
  import opened Markers

  // ---------- parsing ----------

  /** A marker and the trimmed text up to the next marker line. */
  datatype Entry = Entry(marker: Marker, value: string)

  /** The lines before the next marker line. */
  function Body(lines: seq<string>): seq<string> {
    if lines == [] || MarkerOf(lines[0]).Some? then [] else [lines[0]] + Body(lines[1..])
  }

  /** The matches of the marker pattern with the text each of them owns. */
  function Entries(lines: seq<string>): seq<Entry> {
    if lines == [] then []
    else match MarkerOf(lines[0])
      case None => Entries(lines[1..])
      case Some((marker, rest)) => [Entry(marker, Strip(Join("\n", [rest] + Body(lines[1..]))))] + Entries(lines[1..])
  }

  /** The value of the first entry of this marker that has any text. */
  ghost function FirstOf(entries: seq<Entry>, marker: Marker): Option<string> {
    if entries == [] then None
    else
      var before := FirstOf(entries[..|entries| - 1], marker);
      var last := entries[|entries| - 1];
      if before.Some? then before
      else if last.marker == marker && last.value != "" then Some(last.value)
      else None
  }

  /** `slots` and `principle` are the first non-empty values of the entries. */
  ghost predicate Parsed(entries: seq<Entry>, slots: map<nat, string>, principle: Option<string>) {
    principle == FirstOf(entries, Principle)
    && forall id: nat :: FirstOf(entries, Slot(id)) == if id in slots then Some(slots[id]) else None
  }

  /** The slots of a reply. */
  ghost function SlotsOf(text: string): map<nat, string> {
    SlotsIn(Entries(Split(text)))
  }

  ghost function PrincipleOf(text: string): Option<string> {
    FirstOf(Entries(Split(text)), Principle)
  }

  ghost function SlotsIn(entries: seq<Entry>): map<nat, string> {
    if entries == [] then map[]
    else
      var front, last := SlotsIn(entries[..|entries| - 1]), entries[|entries| - 1];
      if last.marker.Slot? && last.value != "" && last.marker.pgId !in front then front[last.marker.pgId := last.value]
      else front
  }

  lemma {:induction false} SlotsInAreParsed(entries: seq<Entry>)
    ensures Parsed(entries, SlotsIn(entries), FirstOf(entries, Principle))
  {
    if entries != [] { SlotsInAreParsed(entries[..|entries| - 1]); }
  }

  lemma ParsedIs(text: string, slots: map<nat, string>, principle: Option<string>)
    requires Parsed(Entries(Split(text)), slots, principle)
    ensures slots == SlotsOf(text) && principle == PrincipleOf(text)
  {
    var entries := Entries(Split(text));
    SlotsInAreParsed(entries);
    forall id: nat ensures (id in slots <==> id in SlotsIn(entries))
      && (id in slots ==> slots[id] == SlotsIn(entries)[id]) {
      assert FirstOf(entries, Slot(id)) == if id in slots then Some(slots[id]) else None;
    }
    assert slots.Keys == SlotsIn(entries).Keys;
    assert slots == map id | id in SlotsIn(entries) :: SlotsIn(entries)[id];
  }

  /** parse_insight_slots. */
  method ParseInsightSlots(text: string) returns (slots: map<nat, string>, principle: Option<string>)
    ensures Parsed(Entries(Split(text)), slots, principle)
    ensures forall id :: id in slots ==> slots[id] != ""
  {
    slots, principle := map[], None;
    var matches := Entries(Split(text));
    for i := 0 to |matches|
      invariant Parsed(matches[..i], slots, principle)
      invariant forall id :: id in slots ==> slots[id] != ""
    {
      assert matches[..i + 1][..i] == matches[..i];
      var m := matches[i];
      match m.marker {
        case Principle => if m.value != "" && principle.None? { principle := Some(m.value); }
        case Void =>
        case Slot(pgId) => if m.value != "" && pgId !in slots { slots := slots[pgId := m.value]; }
      }
    }
    assert matches[..|matches|] == matches;
  }

  // ---------- first occurrence wins ----------

  /** Whatever follows, a value once found stays. */
  lemma {:induction false} FirstStays(a: seq<Entry>, b: seq<Entry>, marker: Marker)
    ensures FirstOf(a + b, marker) == if FirstOf(a, marker).Some? then FirstOf(a, marker) else FirstOf(b, marker)
  {
    if b == [] {
      assert a + b == a;
    } else {
      assert (a + b)[..|a + b| - 1] == a + b[..|b| - 1];
      FirstStays(a, b[..|b| - 1], marker);
    }
  }

  lemma {:induction false} BodyStops(a: seq<string>, b: seq<string>)
    requires b != [] && MarkerOf(b[0]).Some?
    ensures Body(a + b) == Body(a)
  {
    if a == [] {
      assert a + b == b;
    } else if MarkerOf(a[0]).None? {
      assert (a + b)[1..] == a[1..] + b;
      BodyStops(a[1..], b);
    }
  }

  lemma {:induction false} EntriesAppend(a: seq<string>, b: seq<string>)
    requires b != [] && MarkerOf(b[0]).Some?
    ensures Entries(a + b) == Entries(a) + Entries(b)
  {
    if a == [] {
      assert a + b == b;
    } else {
      assert (a + b)[1..] == a[1..] + b;
      BodyStops(a[1..], b);
      EntriesAppend(a[1..], b);
    }
  }

  lemma {:induction false} FreeBody(lines: seq<string>)
    requires MarkerFree(lines)
    ensures Body(lines) == lines && Entries(lines) == []
  {
    if lines != [] {
      assert lines[0] in lines && forall l :: l in lines[1..] ==> l in lines;
      FreeBody(lines[1..]);
    }
  }

  /** Text put after a reply, from a marker line on, cannot change any slot the reply already filled. */
  lemma EchoCannotOverwrite(
    reply: string, echo: string, slots: map<nat, string>, principle: Option<string>, slots': map<nat, string>,
    principle': Option<string>)
    requires MarkerOf(Split(echo)[0]).Some?
    requires Parsed(Entries(Split(reply)), slots, principle)
    requires Parsed(Entries(Split(reply + "\n" + echo)), slots', principle')
    ensures forall id :: id in slots ==> id in slots' && slots'[id] == slots[id]
    ensures principle.Some? ==> principle' == principle
  {
    SplitAppend(reply, echo);
    EntriesAppend(Split(reply), Split(echo));
    var a, b := Entries(Split(reply)), Entries(Split(echo));
    FirstStays(a, b, Principle);
    forall id | id in slots ensures id in slots' && slots'[id] == slots[id] {
      FirstStays(a, b, Slot(id));
      assert FirstOf(a, Slot(id)) == Some(slots[id]);
      assert FirstOf(a + b, Slot(id)) == if id in slots' then Some(slots'[id]) else None;
    }
  }

  /** Retrieved text that was neutralised parses to nothing, wherever it is cut. */
  lemma NeutralizedParsesToNothing(text: string, k: nat, slots: map<nat, string>, principle: Option<string>)
    requires k <= |Neutralize(text)|
    requires Parsed(Entries(Split(Neutralize(text)[..k])), slots, principle)
    ensures slots == map[] && principle == None
  {
    NeutralizedIsFree(text, k);
    FreeBody(Split(Neutralize(text)[..k]));
    forall id: nat ensures id !in slots {
      assert FirstOf([], Slot(id)).None?;
    }
    assert slots.Keys == {};
  }

  // ---------- round trip ----------

  /** No prompt asks for a Void marker. */
  function MarkerText(marker: Marker): string {
    match marker
    case Slot(id) => "SLOT " + NatText(id) + ": "
    case Principle => "PRINCIPLE: "
    case Void => ""
  }

  function PrintEntry(e: Entry): string {
    MarkerText(e.marker) + e.value
  }

  function PrintAll(entries: seq<Entry>): seq<string> {
    seq(|entries|, i requires 0 <= i < |entries| => PrintEntry(entries[i]))
  }

  /** A reply in the format the prompt asks for. */
  function Print(entries: seq<Entry>): string {
    Join("\n", PrintAll(entries))
  }

  /** Trimmed, not empty, and no later line of the value is itself a marker line. */
  predicate Clean(value: string) {
    value != "" && Trimmed(value) && MarkerFree(Split(value)[1..])
  }

  predicate CleanEntry(e: Entry) {
    e.marker != Void && Clean(e.value)
  }

  lemma MarkerIsOneLine(marker: Marker)
    ensures OneLine(MarkerText(marker))
  {
    if marker.Slot? { NumberOfText(marker.pgId); }
  }

  lemma ColonParses(rest: string)
    ensures AfterColon(": " + rest) == Some(" " + rest)
  {
    assert (": " + rest)[1..] == " " + rest;
  }

  /** The digits of a slot marker, after one blank, up to whatever follows them. */
  lemma DigitsParse(digits: string, tail: string)
    requires digits != "" && AllDigits(digits) && tail != "" && !IsDigit(tail[0])
    ensures SkipBlanks([' '] + (digits + tail)) == digits + tail
    ensures LeadingDigits(digits + tail) == digits
    ensures (digits + tail)[|digits|..] == tail
  {
    var t := [' '] + (digits + tail);
    assert t[1..] == digits + tail;
    assert IsDigit(digits[0]) && !Blank(digits[0]);
    assert SkipBlanks(digits + tail) == digits + tail;
    DigitsStop(digits, tail);
  }

  lemma SlotParses(id: nat, rest: string)
    ensures MarkerOf("SLOT " + NatText(id) + ": " + rest) == Some((Slot(id), " " + rest))
  {
    NumberOfText(id);
    var digits, tail := NatText(id), ": " + rest;
    var line := "SLOT " + digits + ": " + rest;
    assert line[..4] == "SLOT" && line[0] == 'S';
    assert StartsWith(line, "SLOT") by {
      forall i | 0 <= i < 4 ensures Fold(line[i]) == "SLOT"[i] { assert line[i] == line[..4][i]; }
    }
    assert line[4..] == [' '] + (digits + tail);
    DigitsParse(digits, tail);
    ColonParses(rest);
  }

  lemma PrincipleParses(rest: string)
    ensures MarkerOf("PRINCIPLE: " + rest) == Some((Principle, " " + rest))
  {
    var line := "PRINCIPLE: " + rest;
    assert line[..9] == "PRINCIPLE" && line[0] == 'P' && "SLOT"[0] == 'S';
    assert StartsWith(line, "PRINCIPLE") by {
      forall i | 0 <= i < 9 ensures Fold(line[i]) == "PRINCIPLE"[i] { assert line[i] == line[..9][i]; }
    }
    assert line[9..] == ": " + rest;
    ColonParses(rest);
  }

  lemma MarkerParses(marker: Marker, rest: string)
    requires marker != Void
    ensures MarkerOf(MarkerText(marker) + rest) == Some((marker, " " + rest))
  {
    match marker {
      case Principle => PrincipleParses(rest);
      case Slot(id) => SlotParses(id, rest);
    }
  }

  lemma PrintedEntryParses(e: Entry)
    requires CleanEntry(e)
    ensures Entries(Split(PrintEntry(e))) == [e]
    ensures MarkerOf(Split(PrintEntry(e))[0]).Some?
  {
    var lines := Split(e.value);
    MarkerIsOneLine(e.marker);
    SplitPrefixed(MarkerText(e.marker), e.value);
    MarkerParses(e.marker, lines[0]);
    var printed := Split(PrintEntry(e));
    assert printed[1..] == lines[1..];
    FreeBody(lines[1..]);
    JoinSplit(e.value);
    assert lines == [lines[0]] + lines[1..];
    var owned := [" " + lines[0]] + lines[1..];
    assert owned[1..] == lines[1..];
    assert Join("\n", owned) == " " + e.value;
    StripTrimmed(e.value);
  }

  lemma PrintMore(entries: seq<Entry>)
    requires |entries| > 1
    ensures Print(entries) == PrintEntry(entries[0]) + ['\n'] + Print(entries[1..])
  {
    assert PrintAll(entries)[1..] == PrintAll(entries[1..]);
  }

  /** Two replies, one after the other, the second beginning with a marker line. */
  lemma RepliesAppend(a: string, b: string)
    requires MarkerOf(Split(b)[0]).Some?
    ensures Split(a + ['\n'] + b)[0] == Split(a)[0]
    ensures Entries(Split(a + ['\n'] + b)) == Entries(Split(a)) + Entries(Split(b))
  {
    SplitAppend(a, b);
    EntriesAppend(Split(a), Split(b));
  }

  /** Parsing a printed reply gives back exactly its entries. */
  lemma {:induction false} PrintedReplyParses(entries: seq<Entry>)
    requires entries != [] && forall e :: e in entries ==> CleanEntry(e)
    ensures Entries(Split(Print(entries))) == entries
    ensures MarkerOf(Split(Print(entries))[0]).Some?
  {
    PrintedEntryParses(entries[0]);
    if |entries| == 1 {
      assert Print(entries) == PrintEntry(entries[0]);
    } else {
      PrintedReplyParses(entries[1..]);
      PrintMore(entries);
      RepliesAppend(PrintEntry(entries[0]), Print(entries[1..]));
      assert entries == [entries[0]] + entries[1..];
    }
  }

  predicate DistinctMarkers(entries: seq<Entry>) {
    forall i, j :: 0 <= i < j < |entries| ==> entries[i].marker != entries[j].marker
  }

  /** A value found is that of some entry with this marker. */
  lemma {:induction false} FirstIsFound(entries: seq<Entry>, marker: Marker)
    ensures FirstOf(entries, marker).Some? ==> Entry(marker, FirstOf(entries, marker).value) in entries
  {
    if entries != [] {
      var front, last := entries[..|entries| - 1], entries[|entries| - 1];
      assert entries == front + [last];
      FirstIsFound(front, marker);
    }
  }

  lemma {:induction false} FirstIsThe(entries: seq<Entry>, k: nat)
    requires DistinctMarkers(entries) && k < |entries| && entries[k].value != ""
    ensures FirstOf(entries, entries[k].marker) == Some(entries[k].value)
  {
    var n := |entries| - 1;
    var front := entries[..n];
    if k < n {
      FirstIsThe(front, k);
    } else {
      FirstIsFound(front, entries[k].marker);
    }
  }

  /** With one clean entry per marker, the first of a marker is the only one. */
  lemma FirstExactly(entries: seq<Entry>, marker: Marker, text: string)
    requires DistinctMarkers(entries) && forall e :: e in entries ==> e.value != ""
    ensures FirstOf(entries, marker) == Some(text) <==> Entry(marker, text) in entries
  {
    FirstIsFound(entries, marker);
    if Entry(marker, text) in entries {
      var k :| 0 <= k < |entries| && entries[k] == Entry(marker, text);
      FirstIsThe(entries, k);
    }
  }

  /** Round trip: one clean value per marker, printed and parsed, is exactly the map and the principle printed. */
  lemma RoundTrip(entries: seq<Entry>, slots: map<nat, string>, principle: Option<string>)
    requires entries != [] && DistinctMarkers(entries) && forall e :: e in entries ==> CleanEntry(e)
    requires Parsed(Entries(Split(Print(entries))), slots, principle)
    ensures forall id: nat, text :: (id in slots && slots[id] == text) <==> Entry(Slot(id), text) in entries
    ensures forall text :: principle == Some(text) <==> Entry(Principle, text) in entries
  {
    PrintedReplyParses(entries);
    forall text ensures principle == Some(text) <==> Entry(Principle, text) in entries {
      FirstExactly(entries, Principle, text);
    }
    forall id: nat, text ensures (id in slots && slots[id] == text) <==> Entry(Slot(id), text) in entries {
      FirstExactly(entries, Slot(id), text);
      assert FirstOf(entries, Slot(id)) == if id in slots then Some(slots[id]) else None;
    }
  }

  // ---------- the complete reply ----------

  /** Every slot asked for and the principle are there. */
  ghost predicate Fills(text: string, expected: set<int>) {
    PrincipleOf(text).Some? && forall id: int :: id in expected ==> id in SlotsOf(text)
  }

  /** generate_insight_slots after the call: every expected slot and the principle, or nothing. */
  method AcceptReply(expected: set<int>, text: string) returns (reply: Option<(map<nat, string>, string)>)
    ensures reply == if Fills(text, expected) then Some((SlotsOf(text), PrincipleOf(text).value)) else None
  {
    var slots, principle := ParseInsightSlots(text);
    ParsedIs(text, slots, principle);
    var missing := set id | id in expected && id !in slots;
    if missing != {} || principle.None? {
      if missing != {} {
        var id := Pick(missing);
        assert id in expected && id !in SlotsOf(text);
      }
      return None;
    }
    forall id: int | id in expected ensures id in SlotsOf(text) {
      assert id !in missing;
    }
    reply := Some((slots, principle.value));
  }

  /** A slot is filled exactly when some entry of its id has text; the first such entry fills it. */
  lemma FilledByFirst(text: string, id: nat)
    ensures FirstOf(Entries(Split(text)), Slot(id)) == if id in SlotsOf(text) then Some(SlotsOf(text)[id]) else None
  {
    SlotsInAreParsed(Entries(Split(text)));
  }

  lemma PrintedSlot(entries: seq<Entry>, id: nat, text: string)
    requires entries != [] && DistinctMarkers(entries) && forall e :: e in entries ==> CleanEntry(e)
    requires Entry(Slot(id), text) in entries
    ensures id in SlotsOf(Print(entries))
  {
    PrintedReplyParses(entries);
    FirstExactly(entries, Slot(id), text);
    FilledByFirst(Print(entries), id);
  }

  lemma PrintedPrinciple(entries: seq<Entry>, text: string)
    requires entries != [] && DistinctMarkers(entries) && forall e :: e in entries ==> CleanEntry(e)
    requires Entry(Principle, text) in entries
    ensures PrincipleOf(Print(entries)) == Some(text)
  {
    PrintedReplyParses(entries);
    FirstExactly(entries, Principle, text);
  }

  /** Every slot asked for has an entry, and so has the principle. */
  ghost predicate Answers(entries: seq<Entry>, expected: set<int>) {
    (exists text :: Entry(Principle, text) in entries)
    && forall id: int :: id in expected ==> id >= 0 && exists text :: Entry(Slot(id), text) in entries
  }

  /** A printed reply is accepted when it answers all that was asked. */
  lemma PrintedReplyFills(entries: seq<Entry>, expected: set<int>)
    requires entries != [] && DistinctMarkers(entries) && forall e :: e in entries ==> CleanEntry(e)
    requires Answers(entries, expected)
    ensures Fills(Print(entries), expected)
  {
    var principle :| Entry(Principle, principle) in entries;
    PrintedPrinciple(entries, principle);
    forall id: int | id in expected ensures id in SlotsOf(Print(entries)) {
      var text :| Entry(Slot(id), text) in entries;
      PrintedSlot(entries, id, text);
    }
  }
}
