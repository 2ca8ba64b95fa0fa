/** The marker lines of the slot protocol, and the defence of retrieved text against them. */
module Markers {
  import opened Tables
  import opened Text
  import opened Lines

  /** Void is a marker that ends a value and names none: the pattern takes its spelling, the comparison does not. */
  datatype Marker = Slot(pgId: nat) | Principle | Void

  predicate Blank(c: char) {
    c == ' ' || c == '\t'
  }

  function SkipBlanks(s: string): string {
    if s != "" && Blank(s[0]) then SkipBlanks(s[1..]) else s
  }

  /** Case is ignored; besides the ASCII pair, both dotted capital and dotless small I fold to I, and long s to S. */
  function Fold(c: char): char {
    if 'a' <= c <= 'z' then ((c as int) - 32) as char
    else if c == DOTTED_I || c == '\U{0131}' then 'I'
    else if c == '\U{017F}' then 'S'
    else c
  }

  /** Matched against I by the pattern, and left as it is by upper(). */
  const DOTTED_I: char := '\U{0130}'

  predicate StartsWith(s: string, word: string) {
    |word| <= |s| && forall i :: 0 <= i < |word| ==> Fold(s[i]) == word[i]
  }

  /** What follows the colon, if blanks and a colon is how the text goes on. */
  function AfterColon(s: string): Option<string> {
    var t := SkipBlanks(s);
    if t != "" && t[0] == ':' then Some(t[1..]) else None
  }

  /** One match of the marker pattern at the start of a line: the marker and the rest of the line. */
  function MarkerOf(line: string): Option<(Marker, string)> {
    var s := SkipBlanks(line);
    if StartsWith(s, "SLOT") then
      var t := SkipBlanks(s[4..]);
      var digits := LeadingDigits(t);
      if |t| == |s| - 4 || digits == "" then None
      else match AfterColon(t[|digits|..])
        case None => None
        case Some(rest) => Some((Slot(Number(digits)), rest))
    else if StartsWith(s, "PRINCIPLE") then
      match AfterColon(s[9..])
      case None => None
      case Some(rest) => Some((if DOTTED_I in s[..9] then Void else Principle, rest))
    else None
  }

  predicate MarkerFree(lines: seq<string>) {
    forall l :: l in lines ==> MarkerOf(l).None?
  }

  // ---------- cutting a line can only lose a marker ----------

  lemma {:induction false} SkipBlanksOfPrefix(p: string, s: string)
    requires p <= s && SkipBlanks(p) != ""
    ensures SkipBlanks(p) <= SkipBlanks(s) && |SkipBlanks(s)| - |SkipBlanks(p)| == |s| - |p|
  {
    if p != "" && Blank(p[0]) { SkipBlanksOfPrefix(p[1..], s[1..]); }
  }

  lemma AfterColonOfPrefix(p: string, s: string)
    requires p <= s && AfterColon(p).Some?
    ensures AfterColon(s).Some?
  {
    SkipBlanksOfPrefix(p, s);
  }

  lemma MarkerOfPrefix(p: string, s: string)
    requires p <= s && MarkerOf(p).Some?
    ensures MarkerOf(s).Some?
  {
    SkipBlanksOfPrefix(p, s);
    var p', s' := SkipBlanks(p), SkipBlanks(s);
    if StartsWith(p', "SLOT") {
      var a, b := p'[4..], s'[4..];
      assert a <= b;
      SkipBlanksOfPrefix(a, b);
      var a', b' := SkipBlanks(a), SkipBlanks(b);
      var digits := LeadingDigits(a');
      assert AfterColon(a'[|digits|..]).Some?;
      DigitsOfPrefix(a', b');
      AfterColonOfPrefix(a'[|digits|..], b'[|digits|..]);
    } else {
      AfterColonOfPrefix(p'[9..], s'[9..]);
    }
  }

  // ---------- neutralised text ----------

  /** The characters str.splitlines breaks at. */
  predicate IsBreak(c: char) {
    '\n' <= c <= '\r' || '\U{1C}' <= c <= '\U{1E}' || c == '\U{85}' || c == '\U{2028}' || c == '\U{2029}'
  }

  /** A carriage return and the newline after it are one break. */
  function BreakLength(s: string): nat
    requires s != "" && IsBreak(s[0])
  {
    if s[0] == '\r' && |s| > 1 && s[1] == '\n' then 2 else 1
  }

  /** The first line, up to a break. */
  function FirstLine(s: string): (r: string)
    ensures r <= s && OneLine(r)
    ensures |r| < |s| ==> IsBreak(s[|r|])
  {
    if s == "" || IsBreak(s[0]) then "" else [s[0]] + FirstLine(s[1..])
  }

  /** str.splitlines: a break at the end opens no further line. */
  function SplitLines(text: string): (r: seq<string>)
    ensures forall l :: l in r ==> OneLine(l)
    decreases |text|
  {
    if text == "" then []
    else
      var line := FirstLine(text);
      if |line| == |text| then [line]
      else [line] + SplitLines(text[|line| + BreakLength(text[|line|..])..])
  }

  function Defuse(line: string): string {
    if MarkerOf(line).Some? then "> " + line else line
  }

  function DefuseAll(lines: seq<string>): (r: seq<string>)
    ensures |r| == |lines| && forall i :: 0 <= i < |lines| ==> r[i] == Defuse(lines[i])
  {
    seq(|lines|, i requires 0 <= i < |lines| => Defuse(lines[i]))
  }

  /** _neutralize_marker_lines. */
  function Neutralize(text: string): string {
    Join("\n", DefuseAll(SplitLines(text)))
  }

  lemma DefusedIsFree(line: string)
    ensures MarkerOf(Defuse(line)).None?
  {
    if MarkerOf(line).Some? {
      var quoted := "> " + line;
      assert quoted[0] == '>';
      assert SkipBlanks(quoted) == quoted;
      assert Fold('>') == '>';
      assert "SLOT"[0] == 'S' && "PRINCIPLE"[0] == 'P';
    }
  }

  /** No line of a neutralised text, cut anywhere, is a marker line. */
  lemma NeutralizedIsFree(text: string, k: nat)
    requires k <= |Neutralize(text)|
    ensures MarkerFree(Split(Neutralize(text)[..k]))
  {
    var lines := SplitLines(text);
    var safe := DefuseAll(lines);
    var whole := Neutralize(text);
    forall i | 0 <= i < |safe| ensures OneLine(safe[i]) && MarkerOf(safe[i]).None? {
      assert lines[i] in lines;
      DefusedIsFree(lines[i]);
    }
    if safe == [] {
      assert Split(whole[..k]) == [""];
    } else {
      SplitJoin(safe);
      TruncatedLines(whole, k);
      var cut := Split(whole[..k]);
      forall i | 0 <= i < |cut| ensures MarkerOf(cut[i]).None? {
        if MarkerOf(cut[i]).Some? { MarkerOfPrefix(cut[i], safe[i]); }
      }
    }
  }
}
