/**
 Which lines the slot protocol takes for markers and how a body is cut into lines, over the characters alone: blanks,
 the word in any spelling, blanks, digits, blanks, a colon.
 */
module MarkerLines {
  import opened Tables
  import opened Lines
  import opened Markers

  // ---------- a marker line ----------

  /** The character spells this capital when case is ignored, dotted and dotless I and long S included. */
  predicate Spells(c: char, capital: char) {
    c == capital || c as int == capital as int + 32
    || (capital == 'S' && c == '\U{017F}') || (capital == 'I' && c in {'\U{0130}', '\U{0131}'})
  }

  predicate SpellsWord(s: string, word: string) {
    |s| == |word| && forall i :: 0 <= i < |word| ==> Spells(s[i], word[i])
  }

  predicate AllBlank(s: string) {
    forall i :: 0 <= i < |s| ==> s[i] in {' ', '\t'}
  }

  /** Blanks, the word slot, blanks, a number, blanks, a colon and the rest. */
  predicate SlotLine(line: string, parts: (string, string, string, string, string, string)) {
    var (indent, word, gap, digits, space, rest) := parts;
    line == indent + (word + (gap + (digits + (space + (":" + rest)))))
    && AllBlank(indent) && SpellsWord(word, "SLOT") && AllBlank(gap) && gap != "" && digits != "" && AllDigits(digits)
    && AllBlank(space)
  }

  /** Blanks, the word principle, blanks, a colon and the rest. */
  predicate PrincipleLine(line: string, parts: (string, string, string, string)) {
    var (indent, word, space, rest) := parts;
    line == indent + (word + (space + (":" + rest)))
    && AllBlank(indent) && SpellsWord(word, "PRINCIPLE") && AllBlank(space)
  }

  lemma FoldSpells(c: char, capital: char)
    requires 'A' <= capital <= 'Z'
    ensures Fold(c) == capital <==> Spells(c, capital)
  {
  }

  lemma WordSpells(s: string, word: string)
    requires forall i :: 0 <= i < |word| ==> 'A' <= word[i] <= 'Z'
    ensures StartsWith(s, word) <==> |word| <= |s| && SpellsWord(s[..|word|], word)
  {
    forall i | 0 <= i < |word| && i < |s| ensures Fold(s[i]) == word[i] <==> Spells(s[i], word[i]) {
      FoldSpells(s[i], word[i]);
    }
  }

  lemma TheWords()
    ensures |"SLOT"| == 4 && |"PRINCIPLE"| == 9 && "SLOT"[0] == 'S' && "PRINCIPLE"[0] == 'P'
    ensures forall i :: 0 <= i < 4 ==> 'A' <= "SLOT"[i] <= 'Z'
    ensures forall i :: 0 <= i < 9 ==> 'A' <= "PRINCIPLE"[i] <= 'Z'
  {
  }

  lemma {:induction false} BlanksSkipped(blanks: string, s: string)
    requires AllBlank(blanks) && (s == "" || s[0] !in {' ', '\t'})
    ensures SkipBlanks(blanks + s) == s
  {
    if blanks == "" {
      assert blanks + s == s;
    } else {
      assert (blanks + s)[1..] == blanks[1..] + s;
      BlanksSkipped(blanks[1..], s);
    }
  }

  lemma {:induction false} SkippedBlanks(s: string)
    ensures |SkipBlanks(s)| <= |s| && s == s[..|s| - |SkipBlanks(s)|] + SkipBlanks(s)
    ensures AllBlank(s[..|s| - |SkipBlanks(s)|])
    ensures SkipBlanks(s) == "" || SkipBlanks(s)[0] !in {' ', '\t'}
  {
    if s != "" && Blank(s[0]) {
      SkippedBlanks(s[1..]);
      var n := |s| - |SkipBlanks(s)|;
      assert s[..n] == [s[0]] + s[1..][..n - 1];
    }
  }

  lemma ColonAfter(space: string, rest: string)
    requires AllBlank(space)
    ensures AfterColon(space + (":" + rest)) == Some(rest)
  {
    BlanksSkipped(space, ":" + rest);
    assert (":" + rest)[1..] == rest;
  }

  /** Nothing that follows a number is a digit: a blank or the colon. */
  lemma TailStops(space: string, rest: string)
    requires AllBlank(space)
    ensures var tail := space + (":" + rest); tail != "" && !IsDigit(tail[0])
  {
    assert (space + (":" + rest))[0] == if space == "" then ':' else space[0];
  }

  lemma DigitsLead(digits: string, tail: string)
    requires digits != "" && AllDigits(digits) && tail != "" && !IsDigit(tail[0])
    ensures LeadingDigits(digits + tail) == digits && (digits + tail)[|digits|..] == tail
    ensures (digits + tail)[0] !in {' ', '\t'}
  {
    DigitsStop(digits, tail);
    assert (digits + tail)[0] == digits[0] && IsDigit(digits[0]);
  }

  lemma WordThenRest(word: string, tail: string, n: nat)
    requires |word| == n
    ensures (word + tail)[..n] == word && (word + tail)[n..] == tail
  {
  }

  /** A slot line is a marker of its number, and what follows the colon is its first text. */
  lemma SlotLineIsMarker(line: string, parts: (string, string, string, string, string, string))
    requires SlotLine(line, parts)
    ensures MarkerOf(line) == Some((Slot(Number(parts.3)), parts.5))
  {
    var (indent, word, gap, digits, space, rest) := parts;
    TheWords();
    var tail := space + (":" + rest);
    TailStops(space, rest);
    DigitsLead(digits, tail);
    var afterWord := gap + (digits + tail);
    WordThenRest(word, afterWord, 4);
    var s := word + afterWord;
    assert s[0] == word[0] && Spells(word[0], 'S');
    BlanksSkipped(indent, s);
    WordSpells(s, "SLOT");
    BlanksSkipped(gap, digits + tail);
    ColonAfter(space, rest);
  }

  lemma PrincipleLineIsMarker(line: string, parts: (string, string, string, string))
    requires PrincipleLine(line, parts)
    ensures MarkerOf(line) == Some((if '\U{0130}' in parts.1 then Void else Principle, parts.3))
  {
    var (indent, word, space, rest) := parts;
    TheWords();
    var tail := space + (":" + rest);
    WordThenRest(word, tail, 9);
    var s := word + tail;
    assert s[0] == word[0] && Spells(word[0], 'P');
    BlanksSkipped(indent, s);
    WordSpells(s, "PRINCIPLE");
    WordSpells(s, "SLOT");
    assert !StartsWith(s, "SLOT") by { assert !Spells(s[0], 'S'); }
    ColonAfter(space, rest);
  }

  lemma BlanksApart(s: string) returns (blanks: string)
    ensures s == blanks + SkipBlanks(s) && AllBlank(blanks)
  {
    SkippedBlanks(s);
    blanks := s[..|s| - |SkipBlanks(s)|];
  }

  lemma ColonApart(s: string) returns (space: string, rest: string)
    requires AfterColon(s).Some?
    ensures AllBlank(space) && s == space + (":" + rest)
  {
    space := BlanksApart(s);
    rest := AfterColon(s).value;
    var t := SkipBlanks(s);
    assert t == ":" + t[1..];
  }

  lemma SlotApart(s: string) returns (gap: string, digits: string, space: string, rest: string)
    requires var t := SkipBlanks(s);
             |t| != |s| && LeadingDigits(t) != "" && AfterColon(t[|LeadingDigits(t)|..]).Some?
    ensures s == gap + (digits + (space + (":" + rest)))
    ensures AllBlank(gap) && gap != "" && digits != "" && AllDigits(digits) && AllBlank(space)
  {
    gap := BlanksApart(s);
    var t := SkipBlanks(s);
    digits := LeadingDigits(t);
    space, rest := ColonApart(t[|digits|..]);
    assert t == digits + t[|digits|..];
  }

  lemma SlotOnItsLine(line: string) returns (parts: (string, string, string, string, string, string))
    requires MarkerOf(line).Some? && StartsWith(SkipBlanks(line), "SLOT")
    ensures SlotLine(line, parts)
  {
    TheWords();
    var indent := BlanksApart(line);
    var s := SkipBlanks(line);
    WordSpells(s, "SLOT");
    var gap, digits, space, rest := SlotApart(s[4..]);
    assert s == s[..4] + s[4..];
    parts := (indent, s[..4], gap, digits, space, rest);
  }

  lemma PrincipleOnItsLine(line: string) returns (parts: (string, string, string, string))
    requires MarkerOf(line).Some? && !StartsWith(SkipBlanks(line), "SLOT")
    ensures PrincipleLine(line, parts)
  {
    TheWords();
    var indent := BlanksApart(line);
    var s := SkipBlanks(line);
    WordSpells(s, "PRINCIPLE");
    var space, rest := ColonApart(s[9..]);
    assert s == s[..9] + s[9..];
    parts := (indent, s[..9], space, rest);
  }

  /** Every marker the pattern finds stands on such a line. */
  lemma MarkerIsOnSuchALine(line: string)
    requires MarkerOf(line).Some?
    ensures (exists parts :: SlotLine(line, parts)) || exists parts :: PrincipleLine(line, parts)
  {
    if StartsWith(SkipBlanks(line), "SLOT") {
      var parts := SlotOnItsLine(line);
    } else {
      var parts := PrincipleOnItsLine(line);
    }
  }

  /** The pattern matches exactly such lines; what it makes of one is said by the two lemmas above. */
  lemma MarkersExactly(line: string)
    ensures MarkerOf(line).Some? <==>
              (exists parts :: SlotLine(line, parts)) || exists parts :: PrincipleLine(line, parts)
  {
    if parts :| SlotLine(line, parts) { SlotLineIsMarker(line, parts); }
    if parts :| PrincipleLine(line, parts) { PrincipleLineIsMarker(line, parts); }
    if MarkerOf(line).Some? { MarkerIsOnSuchALine(line); }
  }

  // ---------- cutting into lines ----------

  /** Every character that ends a line. */
  const BREAKS: set<char> := {
    '\n', '\U{B}', '\U{C}', '\r', '\U{1C}', '\U{1D}', '\U{1E}', '\U{85}', '\U{2028}', '\U{2029}'}

  lemma BreaksAre(c: char)
    ensures IsBreak(c) <==> c in BREAKS
  {
  }

  /** The line that ends at i is followed by one break, which ends at n; a carriage return takes its newline along. */
  predicate BreakAt(text: string, i: nat, n: nat) {
    i < n <= |text| && text[i] in BREAKS
    && n == if text[i] == '\r' && i + 1 < |text| && text[i + 1] == '\n' then i + 2 else i + 1
  }

  predicate NoBreak(s: string) {
    forall i :: 0 <= i < |s| ==> s[i] !in BREAKS
  }

  /** The text is these lines, none with a break inside, each but the last followed by one, the last by at most one. */
  ghost predicate IsCutInto(text: string, lines: seq<string>)
    decreases |lines|
  {
    if lines == [] then text == ""
    else
      text != "" && NoBreak(lines[0]) && lines[0] <= text
      && ((|lines| == 1 && text == lines[0])
          || exists n: nat :: BreakAt(text, |lines[0]|, n) && IsCutInto(text[n..], lines[1..]))
  }

  lemma {:induction false} FirstLineEnds(s: string)
    ensures NoBreak(FirstLine(s))
    ensures FirstLine(s) <= s && (|FirstLine(s)| < |s| ==> s[|FirstLine(s)|] in BREAKS)
  {
    if s != "" {
      BreaksAre(s[0]);
      if !IsBreak(s[0]) { FirstLineEnds(s[1..]); }
    }
  }

  lemma {:induction false} CutExactly(text: string)
    ensures IsCutInto(text, SplitLines(text))
    decreases |text|
  {
    if text != "" {
      var line := FirstLine(text);
      FirstLineEnds(text);
      if |line| == |text| {
        assert line == text;
      } else {
        var n := |line| + BreakLength(text[|line|..]);
        BreakIsAt(text, |line|);
        CutExactly(text[n..]);
        CutOnce(text, line, n, SplitLines(text[n..]));
      }
    }
  }

  lemma BreakIsAt(text: string, i: nat)
    requires i < |text| && text[i] in BREAKS && IsBreak(text[i])
    ensures BreakAt(text, i, i + BreakLength(text[i..]))
  {
    var s := text[i..];
    assert s[0] == text[i] && (|s| > 1 ==> s[1] == text[i + 1]);
  }

  lemma CutOnce(text: string, line: string, n: nat, rest: seq<string>)
    requires text != "" && NoBreak(line) && line <= text && BreakAt(text, |line|, n) && IsCutInto(text[n..], rest)
    ensures IsCutInto(text, [line] + rest)
  {
    assert ([line] + rest)[1..] == rest;
  }

  /** Neutralising quotes the marker lines and leaves every other line as it is. */
  lemma NeutralizeQuotesExactly(text: string)
    ensures var lines := SplitLines(text);
            if lines == [] then Neutralize(text) == ""
            else
              var out := Split(Neutralize(text));
              && |out| == |lines|
              && forall i :: 0 <= i < |lines| ==>
                   out[i] == if MarkerOf(lines[i]).Some? then "> " + lines[i] else lines[i]
  {
    var lines := SplitLines(text);
    var safe := DefuseAll(lines);
    if lines != [] {
      forall i | 0 <= i < |safe| ensures OneLine(safe[i]) { assert lines[i] in lines; }
      SplitJoin(safe);
    }
  }

  // ---------- trimming ----------

  lemma {:induction false} LeftStripped(s: string)
    ensures |StripLeft(s)| <= |s| && s == s[..|s| - |StripLeft(s)|] + StripLeft(s)
    ensures AllSpace(s[..|s| - |StripLeft(s)|])
  {
    if s != "" && IsSpace(s[0]) {
      LeftStripped(s[1..]);
      var n := |s| - |StripLeft(s)|;
      assert s[..n] == [s[0]] + s[1..][..n - 1];
    }
  }

  lemma {:induction false} RightStripped(s: string)
    ensures StripRight(s) <= s && AllSpace(s[|StripRight(s)|..])
  {
    if s != "" && IsSpace(s[|s| - 1]) {
      RightStripped(s[..|s| - 1]);
      var n := |StripRight(s)|;
      assert s[n..] == s[..|s| - 1][n..] + [s[|s| - 1]];
    }
  }

  /** Trimming takes white space off both ends, all of it, and nothing else. */
  lemma StripExactly(s: string) returns (left: string, right: string)
    ensures s == left + Strip(s) + right && AllSpace(left) && AllSpace(right) && Trimmed(Strip(s))
  {
    LeftStripped(s);
    RightStripped(StripLeft(s));
    StripTrims(s);
    left, right := s[..|s| - |StripLeft(s)|], StripLeft(s)[|Strip(s)|..];
    assert StripLeft(s) == Strip(s) + right;
  }
}
