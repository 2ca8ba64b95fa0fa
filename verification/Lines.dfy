/** Lines, trimming and numerals, character by character. */
module Lines {
  import opened Text

  // ---------- lines ----------

  /** Split at every separator, a newline unless another is named; there is always at least one part. */
  function Split(text: string, sep: char := '\n'): (r: seq<string>)
    ensures r != []
  {
    if text == "" then [""]
    else
      var rest := Split(text[1..], sep);
      if text[0] == sep then [""] + rest else [[text[0]] + rest[0]] + rest[1..]
  }

  predicate OneLine(s: string, sep: char := '\n') {
    forall i :: 0 <= i < |s| ==> s[i] != sep
  }

  /** A part put before others when they are joined. */
  lemma JoinPart(part: string, parts: seq<string>, sep: char := '\n')
    requires parts != []
    ensures Join([sep], [part] + parts) == part + [sep] + Join([sep], parts)
  {
    assert ([part] + parts)[1..] == parts;
  }

  /** An empty part put before others, and a character put before the first part, when they are joined. */
  lemma JoinFirst(c: char, parts: seq<string>, sep: char := '\n')
    requires parts != []
    ensures Join([sep], [""] + parts) == [sep] + Join([sep], parts)
    ensures Join([sep], [[c] + parts[0]] + parts[1..]) == [c] + Join([sep], parts)
  {
    JoinPart("", parts, sep);
    assert parts == [parts[0]] + parts[1..];
    JoinPrefixed(c, parts[0], parts[1..], sep);
  }

  lemma JoinPrefixed(c: char, part: string, rest: seq<string>, sep: char := '\n')
    ensures Join([sep], [[c] + part] + rest) == [c] + Join([sep], [part] + rest)
  {
    if rest == [] {
      assert [[c] + part] + rest == [[c] + part] && [part] + rest == [part];
    } else {
      JoinPart(part, rest, sep);
      JoinPart([c] + part, rest, sep);
      PrefixJoins([c], part, [sep], Join([sep], rest));
    }
  }

  lemma PrefixJoins(a: string, b: string, c: string, d: string)
    ensures (a + b) + c + d == a + (b + c + d)
  {
  }

  lemma {:induction false} JoinSplit(text: string, sep: char := '\n')
    ensures Join([sep], Split(text, sep)) == text
  {
    if text != "" {
      JoinSplit(text[1..], sep);
      JoinFirst(text[0], Split(text[1..], sep), sep);
      assert text == [text[0]] + text[1..];
    }
  }

  lemma {:induction false} SplitAppend(a: string, b: string, sep: char := '\n')
    ensures Split(a + [sep] + b, sep) == Split(a, sep) + Split(b, sep)
  {
    var text := a + [sep] + b;
    if a == "" {
      assert text[1..] == b;
    } else {
      assert text[1..] == a[1..] + [sep] + b;
      SplitAppend(a[1..], b, sep);
    }
  }

  /** Text put before a line joins that line. */
  lemma {:induction false} SplitPrefixed(head: string, text: string, sep: char := '\n')
    requires OneLine(head, sep)
    ensures Split(head + text, sep) == [head + Split(text, sep)[0]] + Split(text, sep)[1..]
  {
    if head == "" {
      assert head + text == text && head + Split(text, sep)[0] == Split(text, sep)[0];
    } else {
      assert (head + text)[1..] == head[1..] + text;
      SplitPrefixed(head[1..], text, sep);
      assert [head[0]] + (head[1..] + Split(text, sep)[0]) == head + Split(text, sep)[0];
      assert Split(head[1..] + text, sep)[1..] == Split(text, sep)[1..];
    }
  }

  lemma SplitOneLine(line: string, sep: char := '\n')
    requires OneLine(line, sep)
    ensures Split(line, sep) == [line]
  {
    SplitPrefixed(line, "", sep);
    assert line + "" == line;
  }

  lemma {:induction false} SplitJoin(lines: seq<string>, sep: char := '\n')
    requires lines != [] && forall l :: l in lines ==> OneLine(l, sep)
    ensures Split(Join([sep], lines), sep) == lines
  {
    SplitOneLine(lines[0], sep);
    if |lines| > 1 {
      SplitJoin(lines[1..], sep);
      SplitAppend(lines[0], Join([sep], lines[1..]), sep);
    }
  }

  /** Line by line, the first text's lines begin the second's. */
  predicate LinesBegin(a: seq<string>, b: seq<string>) {
    |a| <= |b| && forall i :: 0 <= i < |a| ==> a[i] <= b[i]
  }

  lemma BeginFirst(c: char, a: seq<string>, b: seq<string>)
    requires LinesBegin(a, b) && a != []
    ensures LinesBegin([""] + a, [""] + b)
    ensures LinesBegin([[c] + a[0]] + a[1..], [[c] + b[0]] + b[1..])
  {
    assert a[0] <= b[0];
  }

  /** A truncated text has no line that does not begin one of the whole text's lines. */
  lemma {:induction false} TruncatedLines(text: string, k: nat)
    requires k <= |text|
    ensures LinesBegin(Split(text[..k]), Split(text))
  {
    if k > 0 {
      TruncatedLines(text[1..], k - 1);
      assert text[..k][1..] == text[1..][..k - 1];
      BeginFirst(text[0], Split(text[1..][..k - 1]), Split(text[1..]));
    }
  }

  // ---------- trimming ----------

  /** str.isspace of one character. */
  predicate IsSpace(c: char) {
    '\t' <= c <= '\r' || '\U{1C}' <= c <= ' ' || c == '\U{85}' || c == '\U{A0}' || c == '\U{1680}'
    || '\U{2000}' <= c <= '\U{200A}' || c == '\U{2028}' || c == '\U{2029}' || c == '\U{202F}' || c == '\U{205F}'
    || c == '\U{3000}'
  }

  function StripLeft(s: string): string {
    if s != "" && IsSpace(s[0]) then StripLeft(s[1..]) else s
  }

  function StripRight(s: string): string {
    if s != "" && IsSpace(s[|s| - 1]) then StripRight(s[..|s| - 1]) else s
  }

  function Strip(s: string): string {
    StripRight(StripLeft(s))
  }

  predicate Trimmed(s: string) {
    s != "" ==> !IsSpace(s[0]) && !IsSpace(s[|s| - 1])
  }

  lemma StripTrimmed(s: string)
    requires Trimmed(s)
    ensures Strip(s) == s && Strip(" " + s) == s
  {
    assert (" " + s)[1..] == s;
  }

  lemma {:induction false} StripLeftStarts(s: string)
    ensures StripLeft(s) != "" ==> !IsSpace(StripLeft(s)[0])
  {
    if s != "" && IsSpace(s[0]) { StripLeftStarts(s[1..]); }
  }

  lemma {:induction false} StripRightEnds(s: string)
    ensures StripRight(s) <= s
    ensures StripRight(s) != "" ==> !IsSpace(StripRight(s)[|StripRight(s)| - 1])
  {
    if s != "" && IsSpace(s[|s| - 1]) { StripRightEnds(s[..|s| - 1]); }
  }

  lemma StripTrims(s: string)
    ensures Trimmed(Strip(s))
  {
    StripLeftStarts(s);
    StripRightEnds(StripLeft(s));
  }

  predicate AllSpace(s: string) {
    forall i :: 0 <= i < |s| ==> IsSpace(s[i])
  }

  lemma {:induction false} StripLeftEmpty(s: string)
    ensures StripLeft(s) == "" <==> AllSpace(s)
    ensures StripLeft(s) != "" ==> !AllSpace(StripLeft(s))
  {
    if s != "" && IsSpace(s[0]) {
      StripLeftEmpty(s[1..]);
      assert s == [s[0]] + s[1..];
    }
  }

  lemma {:induction false} StripRightEmpty(s: string)
    ensures StripRight(s) == "" <==> AllSpace(s)
  {
    if s != "" && IsSpace(s[|s| - 1]) {
      StripRightEmpty(s[..|s| - 1]);
      assert s == s[..|s| - 1] + [s[|s| - 1]];
    }
  }

  lemma StripEmpty(s: string)
    ensures Strip(s) == "" <==> AllSpace(s)
  {
    StripLeftEmpty(s);
    StripRightEmpty(StripLeft(s));
  }

  lemma {:induction false} LeftDrops(left: string, s: string)
    requires AllSpace(left) && s != "" && !IsSpace(s[0])
    ensures StripLeft(left + s) == s
  {
    if left == "" {
      assert left + s == s;
    } else {
      assert (left + s)[1..] == left[1..] + s;
      LeftDrops(left[1..], s);
    }
  }

  lemma {:induction false} RightDrops(s: string, right: string)
    requires AllSpace(right) && s != "" && !IsSpace(s[|s| - 1])
    ensures StripRight(s + right) == s
  {
    if right == "" {
      assert s + right == s;
    } else {
      var n := |right| - 1;
      assert (s + right)[..|s| + n] == s + right[..n];
      RightDrops(s, right[..n]);
    }
  }

  /** Trimming takes off whatever blanks were put around a trimmed text. */
  lemma StripDrops(left: string, s: string, right: string)
    requires AllSpace(left) && AllSpace(right) && s != "" && Trimmed(s)
    ensures Strip(left + (s + right)) == s
  {
    LeftDrops(left, s + right);
    RightDrops(s, right);
  }

  // ---------- numerals ----------

  /** The zeros of the decimal digits of Unicode other than the ASCII ones; the other nine follow each. */
  const DECIMAL_ZEROS: seq<int> := [
    0x660, 0x6f0, 0x7c0, 0x966, 0x9e6, 0xa66, 0xae6, 0xb66, 0xbe6, 0xc66,
    0xce6, 0xd66, 0xde6, 0xe50, 0xed0, 0xf20, 0x1040, 0x1090, 0x17e0, 0x1810,
    0x1946, 0x19d0, 0x1a80, 0x1a90, 0x1b50, 0x1bb0, 0x1c40, 0x1c50, 0xa620, 0xa8d0,
    0xa900, 0xa9d0, 0xa9f0, 0xaa50, 0xabf0, 0xff10, 0x104a0, 0x10d30, 0x11066, 0x110f0,
    0x11136, 0x111d0, 0x112f0, 0x11450, 0x114d0, 0x11650, 0x116c0, 0x11730, 0x118e0, 0x11950,
    0x11c50, 0x11d50, 0x11da0, 0x16a60, 0x16ac0, 0x16b50, 0x1d7ce, 0x1d7d8, 0x1d7e2, 0x1d7ec,
    0x1d7f6, 0x1e140, 0x1e2f0, 0x1e950, 0x1fbf0
  ]

  /** The zero of the run this character is in, or -1. */
  function ZeroOf(c: int, zeros: seq<int>): int {
    if zeros == [] then -1
    else if 0 <= zeros[0] <= c <= zeros[0] + 9 then zeros[0]
    else ZeroOf(c, zeros[1..])
  }

  lemma ZeroOfIsNear(c: int, zeros: seq<int>)
    ensures ZeroOf(c, zeros) >= 0 ==> ZeroOf(c, zeros) <= c <= ZeroOf(c, zeros) + 9
  {
  }

  predicate IsAsciiDigit(c: char) {
    '0' <= c <= '9'
  }

  /** What the pattern takes for a digit: the ASCII ones, and those of every other script. */
  predicate IsDigit(c: char) {
    IsAsciiDigit(c) || (c >= '\U{0660}' && ZeroOf(c as int, DECIMAL_ZEROS) >= 0)
  }

  function ValueOf(c: char): nat
    requires IsDigit(c)
  {
    if IsAsciiDigit(c) then c as int - '0' as int
    else
      ZeroOfIsNear(c as int, DECIMAL_ZEROS);
      c as int - ZeroOf(c as int, DECIMAL_ZEROS)
  }

  predicate AllDigits(s: string) {
    forall i :: 0 <= i < |s| ==> IsDigit(s[i])
  }

  function LeadingDigits(s: string): (r: string)
    ensures r <= s && AllDigits(r)
  {
    if s != "" && IsDigit(s[0]) then [s[0]] + LeadingDigits(s[1..]) else ""
  }

  function Number(digits: string): nat
    requires AllDigits(digits)
  {
    if digits == "" then 0
    else 10 * Number(digits[..|digits| - 1]) + ValueOf(digits[|digits| - 1])
  }

  lemma DigitValue(d: nat)
    requires d < 10
    ensures IsDigit(Digit(d)) && ValueOf(Digit(d)) == d
  {
  }

  lemma NumberMore(digits: string, c: char)
    requires AllDigits(digits) && IsDigit(c)
    ensures Number(digits + [c]) == 10 * Number(digits) + ValueOf(c)
  {
    assert (digits + [c])[..|digits|] == digits;
  }

  /** int(str(n)) == n */
  lemma {:induction false} NumberOfText(n: nat)
    ensures NatText(n) != "" && AllDigits(NatText(n)) && Number(NatText(n)) == n
  {
    DigitValue(n % 10);
    if n < 10 {
      NumberMore("", Digit(n));
      assert "" + [Digit(n)] == NatText(n);
    } else {
      NumberOfText(n / 10);
      NumberMore(NatText(n / 10), Digit(n % 10));
    }
  }

  /** The digits end where the first other character stands. */
  lemma {:induction false} DigitsStop(digits: string, rest: string)
    requires AllDigits(digits) && (rest == "" || !IsDigit(rest[0]))
    ensures LeadingDigits(digits + rest) == digits
  {
    if digits != "" {
      assert (digits + rest)[1..] == digits[1..] + rest;
      DigitsStop(digits[1..], rest);
    } else {
      assert digits + rest == rest;
    }
  }

  /** Cutting a text after its leading digits does not change them. */
  lemma {:induction false} DigitsOfPrefix(p: string, s: string)
    requires p <= s && |LeadingDigits(p)| < |p|
    ensures LeadingDigits(s) == LeadingDigits(p)
  {
    if IsDigit(p[0]) { DigitsOfPrefix(p[1..], s[1..]); }
  }
}
