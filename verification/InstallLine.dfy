/** The AGENT_INSTALLS line: name:path for a skill, name:kind:path for anything else. */
module InstallLine {
  import opened Tables
  import opened Text
  import opened Lines

  datatype InstallKind = Skill | Mcp

  datatype Install = Install(name: string, kind: InstallKind, path: string)

  // ---------- parsing ----------

  /** str.partition(':'): around the first colon, if there is one. */
  function Partition(s: string): Option<(string, string)> {
    if s == "" then None
    else if s[0] == ':' then Some(("", s[1..]))
    else match Partition(s[1..])
      case None => None
      case Some((head, tail)) => Some(([s[0]] + head, tail))
  }

  function KindOf(word: string): Option<InstallKind> {
    if word == "skill" then Some(Skill) else if word == "mcp" then Some(Mcp) else None
  }

  /** _split_install_entry: a known kind with something after it, else all of it is the path. */
  function SplitInstallEntry(rest: string): (InstallKind, string) {
    match Partition(rest)
    case Some((head, tail)) =>
      if KindOf(Strip(head)).Some? && Strip(tail) != "" then (KindOf(Strip(head)).value, Strip(tail))
        else (Skill, Strip(rest))
    case None => (Skill, Strip(rest))
  }

  /** One comma-separated part; anything that is not an entry is skipped. */
  function ParsePart(part: string): Option<Install> {
    match Partition(Strip(part))
    case None => None
    case Some((head, tail)) =>
      if Strip(head) == "" || Strip(tail) == "" then None
      else
        var (kind, path) := SplitInstallEntry(Strip(tail));
        if path == "" then None else Some(Install(Strip(head), kind, path))
  }

  function ParseEach(parts: seq<string>): seq<Option<Install>> {
    seq(|parts|, i requires 0 <= i < |parts| => ParsePart(parts[i]))
  }

  function Collect(parsed: seq<Option<Install>>): seq<Install> {
    if parsed == [] then []
    else
      var last := parsed[|parsed| - 1];
      Collect(parsed[..|parsed| - 1]) + if last.Some? then [last.value] else []
  }

  /** The entries among the parts, in order. */
  function ParseAll(parts: seq<string>): seq<Install> {
    Collect(ParseEach(parts))
  }

  lemma CollectMore(parsed: seq<Option<Install>>, e: Option<Install>)
    ensures Collect(parsed + [e]) == if e.Some? then Collect(parsed) + [e.value] else Collect(parsed)
  {
    assert (parsed + [e])[..|parsed|] == parsed;
  }

  lemma {:induction false} CollectAllSome(parsed: seq<Option<Install>>, entries: seq<Install>)
    requires |parsed| == |entries| && forall i :: 0 <= i < |parsed| ==> parsed[i] == Some(entries[i])
    ensures Collect(parsed) == entries
  {
    if parsed != [] {
      var n := |parsed| - 1;
      CollectAllSome(parsed[..n], entries[..n]);
      assert entries == entries[..n] + [entries[n]];
    }
  }

  /** A later entry of a name replaces an earlier one. */
  function Registry(entries: seq<Install>): map<string, Install> {
    if entries == [] then map[]
    else Registry(entries[..|entries| - 1])[entries[|entries| - 1].name := entries[|entries| - 1]]
  }

  lemma RegistryMore(entries: seq<Install>, e: Install)
    ensures Registry(entries + [e]) == Registry(entries)[e.name := e]
  {
    assert (entries + [e])[..|entries|] == entries;
  }

  lemma EachNext(parts: seq<string>, i: nat)
    requires i < |parts|
    ensures ParseEach(parts[..i + 1]) == ParseEach(parts[..i]) + [ParsePart(parts[i])]
  {
  }

  /** The registry has the names of the entries, each with the last entry of that name. */
  lemma {:induction false} LastEntryCounts(entries: seq<Install>, name: string)
    ensures name in Registry(entries) <==> exists i :: 0 <= i < |entries| && entries[i].name == name
    ensures name in Registry(entries) ==>
              exists i :: 0 <= i < |entries| && Registry(entries)[name] == entries[i] && entries[i].name == name
                          && forall j :: i < j < |entries| ==> entries[j].name != name
  {
    if entries != [] {
      var n := |entries| - 1;
      LastEntryCounts(entries[..n], name);
      if entries[n].name != name && name in Registry(entries) {
        var i :| 0 <= i < n && Registry(entries[..n])[name] == entries[..n][i] && entries[..n][i].name == name
                 && forall j :: i < j < n ==> entries[..n][j].name != name;
        assert forall j :: i < j < |entries| ==> entries[j].name != name;
      }
    }
  }

  lemma RegistryNext(parts: seq<string>, i: nat)
    requires i < |parts|
    ensures Registry(ParseAll(parts[..i + 1])) == Record(Registry(ParseAll(parts[..i])), ParsePart(parts[i]))
  {
    var before := ParseEach(parts[..i]);
    EachNext(parts, i);
    CollectMore(before, ParsePart(parts[i]));
    if ParsePart(parts[i]).Some? { RegistryMore(Collect(before), ParsePart(parts[i]).value); }
  }

  function Record(installs: map<string, Install>, e: Option<Install>): map<string, Install> {
    if e.Some? then installs[e.value.name := e.value] else installs
  }

  /** _parse_agent_installs. */
  method ParseAgentInstalls(raw: string) returns (installs: map<string, Install>)
    ensures installs == Registry(ParseAll(Split(raw, ',')))
  {
    installs := map[];
    var parts := Split(raw, ',');
    for i := 0 to |parts|
      invariant installs == Registry(ParseAll(parts[..i]))
    {
      RegistryNext(parts, i);
      installs := Record(installs, ParsePart(parts[i]));
    }
    assert parts[..|parts|] == parts;
  }

  // ---------- formatting ----------

  function KindText(kind: InstallKind): string {
    match kind
    case Skill => "skill"
    case Mcp => "mcp"
  }

  /** The default kind is written in the two-field form. */
  function RestText(e: Install): string {
    if e.kind == Skill then e.path else KindText(e.kind) + (":" + e.path)
  }

  function PartText(e: Install): string {
    e.name + (":" + RestText(e))
  }

  function PartTexts(entries: seq<Install>): seq<string> {
    seq(|entries|, i requires 0 <= i < |entries| => PartText(entries[i]))
  }

  /** _format_agent_installs. */
  function FormatAgentInstalls(entries: seq<Install>): string {
    Join(",", PartTexts(entries))
  }

  /** _validate_registry_field. */
  predicate ValidField(s: string) {
    s != "" && Strip(s) == s && forall c :: c in s ==> c !in [',', ':', '\n', '\r', '\0']
  }

  predicate ValidEntry(e: Install) {
    ValidField(e.name) && ValidField(e.path)
  }

  // ---------- round trip ----------

  lemma {:induction false} PartitionAt(head: string, tail: string)
    requires forall c :: c in head ==> c != ':'
    ensures Partition(head + (":" + tail)) == Some((head, tail))
  {
    var s := head + (":" + tail);
    if head == "" {
      assert s == ":" + tail && s[1..] == tail;
    } else {
      assert s[1..] == head[1..] + (":" + tail);
      assert head[0] in head && forall c :: c in head[1..] ==> c in head;
      PartitionAt(head[1..], tail);
      assert [head[0]] + head[1..] == head;
    }
  }

  lemma {:induction false} NoColonNoPartition(s: string)
    requires forall c :: c in s ==> c != ':'
    ensures Partition(s) == None
  {
    if s != "" {
      assert s[0] in s && forall c :: c in s[1..] ==> c in s;
      NoColonNoPartition(s[1..]);
    }
  }

  /** A text whose two ends are trimmed is. */
  lemma TrimmedEnds(head: string, middle: string, tail: string)
    requires head != "" && Strip(head) == head && tail != "" && Strip(tail) == tail
    ensures Strip(head + (middle + tail)) == head + (middle + tail)
  {
    StripTrims(head);
    StripTrims(tail);
    var s := head + (middle + tail);
    assert s[0] == head[0] && s[|s| - 1] == tail[|tail| - 1];
    StripTrimmed(s);
  }

  lemma KindTextParses(kind: InstallKind)
    ensures Strip(KindText(kind)) == KindText(kind) && KindOf(KindText(kind)) == Some(kind)
    ensures forall c :: c in KindText(kind) ==> c != ':'
  {
    StripTrimmed(KindText(kind));
  }

  lemma RestParses(e: Install)
    requires ValidEntry(e)
    ensures RestText(e) != "" && Strip(RestText(e)) == RestText(e)
    ensures SplitInstallEntry(RestText(e)) == (e.kind, e.path)
  {
    if e.kind == Skill {
      NoColonNoPartition(e.path);
    } else {
      KindTextParses(e.kind);
      PartitionAt(KindText(e.kind), e.path);
      TrimmedEnds(KindText(e.kind), ":", e.path);
    }
  }

  lemma FieldIsOnePart(s: string)
    requires ValidField(s)
    ensures OneLine(s, ',')
  {
    forall i | 0 <= i < |s| ensures s[i] != ',' { assert s[i] in s; }
  }

  lemma AroundColonIsOnePart(a: string, b: string)
    requires OneLine(a, ',') && OneLine(b, ',')
    ensures OneLine(a + (":" + b), ',')
  {
  }

  lemma PartIsOnePart(e: Install)
    requires ValidEntry(e)
    ensures OneLine(PartText(e), ',')
  {
    FieldIsOnePart(e.name);
    FieldIsOnePart(e.path);
    if e.kind == Mcp { AroundColonIsOnePart("mcp", e.path); }
    AroundColonIsOnePart(e.name, RestText(e));
  }

  lemma PartParses(e: Install)
    requires ValidEntry(e)
    ensures ParsePart(PartText(e)) == Some(e)
  {
    RestParses(e);
    TrimmedEnds(e.name, ":", RestText(e));
    assert Strip(PartText(e)) == PartText(e);
    PartitionAt(e.name, RestText(e));
    assert Partition(PartText(e)) == Some((e.name, RestText(e)));
  }

  // ---------- hand-written entries ----------

  /** The entry as a hand may write it: blanks around every field, and the default kind named or not. */
  function SpacedRest(e: Install, blanks: seq<string>, named: bool): string
    requires |blanks| == 6
  {
    if named then KindText(e.kind) + (blanks[3] + (":" + (blanks[4] + e.path))) else e.path
  }

  function SpacedPart(e: Install, blanks: seq<string>, named: bool): string
    requires |blanks| == 6
  {
    blanks[0] + (e.name + (blanks[1] + (":" + (blanks[2] + SpacedRest(e, blanks, named)))) + blanks[5])
  }

  predicate Blanks(blanks: seq<string>) {
    |blanks| == 6 && forall i :: 0 <= i < |blanks| ==> AllSpace(blanks[i])
  }

  /** A field with blanks after it, up to a colon. */
  lemma FieldBeforeColon(field: string, blank: string, tail: string)
    requires field != "" && Trimmed(field) && (forall c :: c in field ==> c != ':') && AllSpace(blank)
    ensures Partition(field + (blank + (":" + tail))) == Some((field + blank, tail)) && Strip(field + blank) == field
  {
    assert field + (blank + (":" + tail)) == (field + blank) + (":" + tail);
    forall c | c in field + blank ensures c != ':' {
      if c in blank {
        var i :| 0 <= i < |blank| && blank[i] == c;
        assert IsSpace(blank[i]);
      }
    }
    PartitionAt(field + blank, tail);
    StripDrops("", field, blank);
    assert "" + (field + blank) == field + blank;
  }

  lemma SpacedRestParses(e: Install, blanks: seq<string>, named: bool)
    requires ValidEntry(e) && Blanks(blanks) && (named || e.kind == Skill)
    ensures SpacedRest(e, blanks, named) != "" && Trimmed(SpacedRest(e, blanks, named))
    ensures SplitInstallEntry(SpacedRest(e, blanks, named)) == (e.kind, e.path)
  {
    StripTrims(e.path);
    var rest := SpacedRest(e, blanks, named);
    assert rest[|rest| - 1] == e.path[|e.path| - 1];
    if named {
      KindTextParses(e.kind);
      FieldBeforeColon(KindText(e.kind), blanks[3], blanks[4] + e.path);
      StripDrops(blanks[4], e.path, "");
      assert e.path + "" == e.path;
    } else {
      NoColonNoPartition(e.path);
    }
  }

  /** Blanks around the fields, and the default kind written out, change nothing of the entry. */
  lemma SpacedPartParses(e: Install, blanks: seq<string>, named: bool)
    requires ValidEntry(e) && Blanks(blanks) && (named || e.kind == Skill)
    ensures ParsePart(SpacedPart(e, blanks, named)) == Some(e)
  {
    SpacedRestParses(e, blanks, named);
    StripTrims(e.name);
    var rest := SpacedRest(e, blanks, named);
    var core := e.name + (blanks[1] + (":" + (blanks[2] + rest)));
    assert core[0] == e.name[0] && core[|core| - 1] == rest[|rest| - 1];
    StripDrops(blanks[0], core, blanks[5]);
    FieldBeforeColon(e.name, blanks[1], blanks[2] + rest);
    StripDrops(blanks[2], rest, "");
    assert rest + "" == rest;
  }

  /** What precedes a further colon is part of the path unless it is a known kind with something after it. */
  lemma OtherwiseAllIsPath(name: string, head: string, tail: string)
    requires ValidField(name) && (forall c :: c in head ==> c != ':') && Trimmed(head + (":" + tail))
    requires Strip(head) !in {"skill", "mcp"} || AllSpace(tail)
    ensures ParsePart(name + (":" + (head + (":" + tail)))) == Some(Install(name, Skill, head + (":" + tail)))
  {
    var rest := head + (":" + tail);
    StripTrims(name);
    StripTrimmed(rest);
    TrimmedEnds(name, ":", rest);
    PartitionAt(name, rest);
    PartitionAt(head, tail);
    StripEmpty(tail);
  }

  predicate DistinctNames(entries: seq<Install>) {
    forall i, j :: 0 <= i < j < |entries| ==> entries[i].name != entries[j].name
  }

  ghost predicate Registers(installs: map<string, Install>, entries: seq<Install>) {
    forall name, e :: (name in installs && installs[name] == e) <==> e in entries && e.name == name
  }

  lemma RegistersMore(installs: map<string, Install>, entries: seq<Install>, last: Install)
    requires Registers(installs, entries) && forall e :: e in entries ==> e.name != last.name
    ensures Registers(installs[last.name := last], entries + [last])
  {
    var more := installs[last.name := last];
    forall name, e ensures (name in more && more[name] == e) <==> e in entries + [last] && e.name == name {
      assert (name in installs && installs[name] == e) <==> e in entries && e.name == name;
    }
  }

  lemma LastIsNew(entries: seq<Install>)
    requires DistinctNames(entries) && entries != []
    ensures forall e :: e in entries[..|entries| - 1] ==> e.name != entries[|entries| - 1].name
  {
  }

  /** Under distinct names the registry holds exactly the entries. */
  lemma {:induction false} RegistryOfDistinct(entries: seq<Install>)
    requires DistinctNames(entries)
    ensures Registers(Registry(entries), entries)
  {
    if entries != [] {
      var n := |entries| - 1;
      RegistryOfDistinct(entries[..n]);
      LastIsNew(entries);
      RegistersMore(Registry(entries[..n]), entries[..n], entries[n]);
      assert entries == entries[..n] + [entries[n]];
    }
  }

  lemma PartsParse(entries: seq<Install>)
    requires forall i :: 0 <= i < |entries| ==> ValidEntry(entries[i])
    ensures ParseAll(PartTexts(entries)) == entries
  {
    forall i | 0 <= i < |entries| ensures ParsePart(PartTexts(entries)[i]) == Some(entries[i]) {
      PartParses(entries[i]);
    }
    CollectAllSome(ParseEach(PartTexts(entries)), entries);
  }

  /** Round trip: the text of validated entries parses to exactly those entries, in order. */
  lemma FormatThenParse(entries: seq<Install>)
    requires forall i :: 0 <= i < |entries| ==> ValidEntry(entries[i])
    ensures ParseAll(Split(FormatAgentInstalls(entries), ',')) == entries
  {
    if entries == [] {
      assert Split("", ',') == [""];
      assert ParseAll([""]) == [] by { assert [""][..0] == []; }
    } else {
      forall part | part in PartTexts(entries) ensures OneLine(part, ',') {
        var i :| 0 <= i < |entries| && PartTexts(entries)[i] == part;
        PartIsOnePart(entries[i]);
      }
      SplitJoin(PartTexts(entries), ',');
      PartsParse(entries);
    }
  }

  /** The registry read back is the one written, and a line that was written is rewritten byte for byte. */
  lemma InstallsRoundTrip(entries: seq<Install>, raw: string)
    requires DistinctNames(entries) && forall i :: 0 <= i < |entries| ==> ValidEntry(entries[i])
    requires raw == FormatAgentInstalls(entries)
    ensures Registers(Registry(ParseAll(Split(raw, ','))), entries)
    ensures FormatAgentInstalls(ParseAll(Split(raw, ','))) == raw
  {
    FormatThenParse(entries);
    RegistryOfDistinct(entries);
  }
}
