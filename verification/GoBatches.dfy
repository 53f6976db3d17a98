/**
 Splitting a T-SQL script on GO lines (storage/repository.py, `_split_batches`), with Python's own
 notions of a line and of whitespace.
 */
module GoBatches {

  // ---------------------------------------------------------------- str.splitlines and str.strip

  /** A character `splitlines` breaks at. */
  predicate IsBreak(c: char) {
    c == '\n' || c == '\r' || c == '\U{0B}' || c == '\U{0C}' || '\U{1C}' <= c <= '\U{1E}' || c == '\U{85}'
    || c == '\U{2028}' || c == '\U{2029}'
  }

  /** A character `strip` removes. */
  predicate IsSpace(c: char) {
    '\U{09}' <= c <= '\U{0D}' || '\U{1C}' <= c <= ' ' || c == '\U{85}' || c == '\U{A0}' || c == '\U{1680}'
    || '\U{2000}' <= c <= '\U{200A}' || c == '\U{2028}' || c == '\U{2029}' || c == '\U{202F}' || c == '\U{205F}'
    || c == '\U{3000}'
  }

  /** Where the first line ends. */
  function LineEnd(s: string): (e: nat)
    ensures e <= |s|
    ensures forall i :: 0 <= i < e ==> !IsBreak(s[i])
    ensures e < |s| ==> IsBreak(s[e])
  {
    if s == "" || IsBreak(s[0]) then 0 else 1 + LineEnd(s[1..])
  }

  /** "\r\n" is one break. */
  function BreakLength(s: string, e: nat): (n: nat)
    requires e < |s|
    ensures 1 <= n <= 2 && e + n <= |s|
  {
    if s[e] == '\r' && e + 1 < |s| && s[e + 1] == '\n' then 2 else 1
  }

  function SplitLines(s: string): seq<string> {
    if s == "" then []
    else
      var e := LineEnd(s);
      if e == |s| then [s] else [s[..e]] + SplitLines(s[e + BreakLength(s, e)..])
  }

  function StripLeft(s: string): string {
    if s != "" && IsSpace(s[0]) then StripLeft(s[1..]) else s
  }

  function StripRight(s: string): string {
    if s != "" && IsSpace(s[|s| - 1]) then StripRight(s[..|s| - 1]) else s
  }

  function Strip(s: string): string { StripRight(StripLeft(s)) }

  /** "\n".join(lines) */
  function JoinLines(lines: seq<string>): string {
    if lines == [] then ""
    else if |lines| == 1 then lines[0]
    else lines[0] + "\n" + JoinLines(lines[1..])
  }

  // ---------------------------------------------------------------- the splitter

  predicate IsGoWord(s: string) { s == "GO" || s == "Go" || s == "gO" || s == "go" }

  predicate IsGo(line: string) { IsGoWord(Strip(line)) }

  /** A finished batch, unless it is blank. */
  function Flush(current: seq<string>): seq<string> {
    var batch := Strip(JoinLines(current));
    if batch == "" then [] else [batch]
  }

  function BatchesOf(lines: seq<string>, current: seq<string>): seq<string> {
    if lines == [] then Flush(current)
    else if IsGo(lines[0]) then Flush(current) + BatchesOf(lines[1..], [])
    else BatchesOf(lines[1..], current + [lines[0]])
  }

  function Batches(script: string): seq<string> { BatchesOf(SplitLines(script), []) }

  method SplitBatches(script: string) returns (batches: seq<string>)
    ensures batches == Batches(script)
  {
    hide Strip, Flush;
    var lines := SplitLines(script);
    batches := [];
    var current := [];
    for n := 0 to |lines|
      invariant batches + BatchesOf(lines[n..], current) == BatchesOf(lines, [])
    {
      assert lines[n..][0] == lines[n] && lines[n..][1..] == lines[n + 1..];
      if IsGo(lines[n]) {
        batches := batches + Flush(current);
        current := [];
      } else {
        current := current + [lines[n]];
      }
    }
    batches := batches + Flush(current);
  }

  // ---------------------------------------------------------------- stripping

  lemma {:induction false} StripLeftEdge(s: string)
    ensures var t := StripLeft(s); t == "" || !IsSpace(t[0])
    ensures forall c :: c in StripLeft(s) ==> c in s
    ensures |StripLeft(s)| <= |s|
  {
    if s != "" && IsSpace(s[0]) { StripLeftEdge(s[1..]); }
  }

  lemma {:induction false} StripRightEdge(s: string)
    ensures var t := StripRight(s); t == "" || !IsSpace(t[|t| - 1])
    ensures StripRight(s) <= s
    ensures forall c :: c in StripRight(s) ==> c in s
  {
    if s != "" && IsSpace(s[|s| - 1]) { StripRightEdge(s[..|s| - 1]); }
  }

  ghost predicate IsTrimmed(s: string) {
    s == "" || (!IsSpace(s[0]) && !IsSpace(s[|s| - 1]))
  }

  lemma StripTrims(s: string)
    ensures IsTrimmed(Strip(s))
    ensures forall c :: c in Strip(s) ==> c in s
  {
    StripLeftEdge(s);
    StripRightEdge(StripLeft(s));
  }

  lemma StripFixesExactlyTrimmed(s: string)
    ensures Strip(s) == s <==> IsTrimmed(s)
  {
    StripTrims(s);
  }

  /** Leading or trailing whitespace makes no difference to the stripped text. */
  lemma StripIgnoresLeading(s: string)
    requires s != "" && IsSpace(s[0])
    ensures Strip(s) == Strip(s[1..])
  {
  }

  lemma {:induction false} StripIgnoresTrailing(s: string)
    requires s != "" && IsSpace(s[|s| - 1])
    ensures Strip(s) == Strip(s[..|s| - 1])
  {
    if IsSpace(s[0]) {
      if |s| > 1 {
        StripIgnoresTrailing(s[1..]);
        assert s[1..][..|s| - 2] == s[..|s| - 1][1..];
      }
    } else {
      assert StripLeft(s) == s && StripLeft(s[..|s| - 1]) == s[..|s| - 1];
    }
  }

  /** The line boundaries and the whitespace of Unicode text, by code point. */
  lemma Characters(c: char)
    ensures IsBreak(c) <==> c as int in {10, 11, 12, 13, 28, 29, 30, 133, 8232, 8233}
    ensures IsSpace(c) <==>
            || 9 <= c as int <= 13 || 28 <= c as int <= 32 || c as int in {133, 160, 5760}
            || 8192 <= c as int <= 8202 || c as int in {8232, 8233, 8239, 8287, 12288}
  {
  }

  /** All characters but those of s[i..j] are whitespace. */
  ghost predicate SpaceAround(s: string, i: nat, j: nat) {
    i <= j <= |s| && (forall k :: 0 <= k < i ==> IsSpace(s[k])) && (forall k :: j <= k < |s| ==> IsSpace(s[k]))
  }

  lemma {:induction false} StripLeftTakes(s: string) returns (i: nat)
    ensures i <= |s| && StripLeft(s) == s[i..] && forall k :: 0 <= k < i ==> IsSpace(s[k])
  {
    hide IsSpace;
    i := 0;
    if s != "" && IsSpace(s[0]) {
      var rest := StripLeftTakes(s[1..]);
      i := rest + 1;
      forall k | 0 <= k < i ensures IsSpace(s[k]) { if k > 0 { assert IsSpace(s[1..][k - 1]); } }
    }
  }

  lemma {:induction false} StripRightTakes(s: string)
    ensures var j := |StripRight(s)|; j <= |s| && StripRight(s) == s[..j] && forall k :: j <= k < |s| ==> IsSpace(s[k])
  {
    hide IsSpace;
    if s != "" && IsSpace(s[|s| - 1]) {
      var t := s[..|s| - 1];
      StripRightTakes(t);
      forall k | |StripRight(s)| <= k < |s| ensures IsSpace(s[k]) { if k < |t| { assert IsSpace(t[k]); } }
    }
  }

  /** Stripping takes whitespace from the two ends and nothing else. */
  lemma StripTakes(s: string) returns (i: nat, j: nat)
    ensures SpaceAround(s, i, j) && Strip(s) == s[i..j] && IsTrimmed(s[i..j])
  {
    hide IsSpace;
    i := StripLeftTakes(s);
    StripRightTakes(s[i..]);
    j := i + |Strip(s)|;
    assert s[i..][..j - i] == s[i..j];
    forall k | j <= k < |s| ensures IsSpace(s[k]) { assert IsSpace(s[i..][k - i]); }
    StripTrims(s);
  }

  /** A word between spaces is at the place where stripping finds it. */
  lemma StripFinds(s: string, a: nat, b: nat)
    requires SpaceAround(s, a, b) && a < b && !IsSpace(s[a]) && !IsSpace(s[b - 1])
    ensures Strip(s) == s[a..b]
  {
    hide IsSpace;
    var i, j := StripTakes(s);
    assert i <= a && b <= j;
    assert s[i..j][0] == s[i] && s[i..j][j - i - 1] == s[j - 1];
  }

  /** The two letters, in either case, with nothing but whitespace around them. */
  ghost predicate GoAt(line: string, i: nat) {
    && SpaceAround(line, i, i + 2)
    && (line[i] == 'G' || line[i] == 'g') && (line[i + 1] == 'O' || line[i + 1] == 'o')
  }

  /** That is what a GO line is. */
  lemma GoLinesExactly(line: string)
    ensures IsGo(line) <==> exists i: nat :: GoAt(line, i)
  {
    if IsGo(line) {
      hide IsSpace;
      var i, j := StripTakes(line);
      assert line[i] == line[i..j][0] && line[i + 1] == line[i..j][1];
      assert GoAt(line, i);
    }
    if i: nat :| GoAt(line, i) {
      StripFinds(line, i, i + 2);
      assert line[i..i + 2] == [line[i], line[i + 1]];
    }
  }

  // ---------------------------------------------------------------- lines of a joined text

  ghost predicate NoBreaks(line: string) { forall i :: 0 <= i < |line| ==> !IsBreak(line[i]) }

  ghost predicate AllNoBreaks(lines: seq<string>) { forall i :: 0 <= i < |lines| ==> NoBreaks(lines[i]) }

  lemma LineEndIs(s: string, e: nat)
    requires e <= |s| && (forall i :: 0 <= i < e ==> !IsBreak(s[i])) && (e < |s| ==> IsBreak(s[e]))
    ensures LineEnd(s) == e
  {
  }

  lemma {:induction false} SplitLinesBreakFree(s: string)
    ensures AllNoBreaks(SplitLines(s))
    decreases |s|
  {
    if s != "" && LineEnd(s) < |s| { SplitLinesBreakFree(s[LineEnd(s) + BreakLength(s, LineEnd(s))..]); }
  }

  lemma SplitStep(s: string, e: nat)
    requires e < |s| && LineEnd(s) == e
    ensures SplitLines(s) == [s[..e]] + SplitLines(s[e + BreakLength(s, e)..])
  {
  }

  lemma FirstLine(line: string, rest: string)
    requires NoBreaks(line)
    ensures SplitLines(line + "\n" + rest) == [line] + SplitLines(rest)
  {
    var s := line + "\n" + rest;
    LineEndIs(s, |line|);
    assert s[..|line|] == line && s[|line| + 1..] == rest;
  }

  /** A text without a break is one line, or none; a break ends the first line, and "\r\n" is one break. */
  lemma LinesExactly(line: string, c: char, rest: string)
    requires NoBreaks(line) && IsBreak(c)
    ensures SplitLines(line) == if line == "" then [] else [line]
    ensures SplitLines(line + [c] + rest) ==
              [line] + SplitLines(if c == '\r' && rest != "" && rest[0] == '\n' then rest[1..] else rest)
  {
    hide IsBreak;
    LineEndIs(line, |line|);
    var s := line + [c] + rest;
    LineEndIs(s, |line|);
    assert s[..|line|] == line && s[|line| + 1..] == rest;
    if c == '\r' && rest != "" && rest[0] == '\n' { assert s[|line| + 2..] == rest[1..]; }
  }

  lemma OneLine(a: string)
    requires a != "" && LineEnd(a) == |a|
    ensures NoBreaks(a) && SplitLines(a) == [a]
  {
  }

  lemma Reassociate<T>(a: seq<T>, b: seq<T>, c: seq<T>)
    ensures a + (b + c) == (a + b) + c
  {
  }

  lemma ConcatBreak(a: string, b: string, e: nat)
    requires a != "" && !IsBreak(a[|a| - 1]) && e < |a| && LineEnd(a) == e
    ensures var s := a + "\n" + b;
            var n := BreakLength(a, e);
            && LineEnd(s) == e && BreakLength(s, e) == n && s[..e] == a[..e]
            && e + n < |a| && s[e + n..] == a[e + n..] + "\n" + b
            && a[e + n..][|a[e + n..]| - 1] == a[|a| - 1]
  {
    LineEndIs(a + "\n" + b, e);
  }

  /** A text that does not end in a break, a newline, then anything: its lines, then the other lines. */
  lemma {:induction false} SplitLinesConcat(a: string, b: string)
    requires a != "" && !IsBreak(a[|a| - 1])
    ensures SplitLines(a + "\n" + b) == SplitLines(a) + SplitLines(b)
    decreases |a|
  {
    hide IsBreak, SplitLines, LineEnd, BreakLength;
    var s := a + "\n" + b;
    var e := LineEnd(a);
    if e == |a| {
      OneLine(a);
      FirstLine(a, b);
    } else {
      var n := BreakLength(a, e);
      ConcatBreak(a, b, e);
      var rest := a[e + n..];
      SplitLinesConcat(rest, b);
      SplitStep(a, e);
      SplitStep(s, e);
      Reassociate([a[..e]], SplitLines(rest), SplitLines(b));
    }
  }

  ghost predicate OnlyNewlines(s: string) {
    forall i :: 0 <= i < |s| ==> IsBreak(s[i]) ==> s[i] == '\n'
  }

  lemma SplitNonempty(s: string)
    ensures SplitLines(s) == [] <==> s == ""
  {
  }

  lemma PlainBreak(s: string, e: nat)
    requires OnlyNewlines(s) && s != "" && !IsBreak(s[|s| - 1]) && LineEnd(s) == e < |s|
    ensures var rest := s[e + 1..];
            && BreakLength(s, e) == 1 && s == s[..e] + "\n" + rest
            && rest != "" && rest[|rest| - 1] == s[|s| - 1] && OnlyNewlines(rest)
  {
  }

  lemma JoinStep(line: string, rest: seq<string>)
    requires rest != []
    ensures JoinLines([line] + rest) == line + "\n" + JoinLines(rest)
  {
    assert ([line] + rest)[1..] == rest;
  }

  /** Joining gives the text back when its breaks are plain newlines and it does not end in one. */
  lemma {:induction false} JoinOfSplit(s: string)
    requires OnlyNewlines(s) && (s == "" || !IsBreak(s[|s| - 1]))
    ensures JoinLines(SplitLines(s)) == s
    decreases |s|
  {
    if s != "" && LineEnd(s) < |s| {
      hide IsBreak, SplitLines;
      var e := LineEnd(s);
      var rest := s[e + 1..];
      PlainBreak(s, e);
      JoinOfSplit(rest);
      SplitStep(s, e);
      SplitNonempty(rest);
      JoinStep(s[..e], SplitLines(rest));
    }
  }

  lemma {:induction false} SplitOfJoin(lines: seq<string>)
    requires AllNoBreaks(lines)
    ensures SplitLines(JoinLines(lines))
         == if lines != [] && lines[|lines| - 1] == "" then lines[..|lines| - 1] else lines
  {
    if |lines| == 1 {
      LineEndIs(lines[0], |lines[0]|);
    } else if |lines| > 1 {
      assert AllNoBreaks(lines[1..]);
      SplitOfJoin(lines[1..]);
      FirstLine(lines[0], JoinLines(lines[1..]));
      assert lines == [lines[0]] + lines[1..];
    }
  }

  // ---------------------------------------------------------------- what survives

  /** The lines that say something, without their indentation. */
  function Content(lines: seq<string>): seq<string> {
    if lines == [] then []
    else (if Strip(lines[0]) == "" then [] else [Strip(lines[0])]) + Content(lines[1..])
  }

  lemma ContentStep(line: string, rest: seq<string>)
    ensures Content([line] + rest) == (if Strip(line) == "" then [] else [Strip(line)]) + Content(rest)
  {
    assert ([line] + rest)[1..] == rest;
  }

  lemma {:induction false} ContentConcat(a: seq<string>, b: seq<string>)
    ensures Content(a + b) == Content(a) + Content(b)
  {
    hide Strip;
    if a == [] {
      assert a + b == b;
    } else {
      ContentConcat(a[1..], b);
      hide Content;
      ContentStep(a[0], a[1..]);
      ContentStep(a[0], a[1..] + b);
      Reassociate([a[0]], a[1..], b);
      assert [a[0]] + a[1..] == a;
      Reassociate(if Strip(a[0]) == "" then [] else [Strip(a[0])], Content(a[1..]), Content(b));
    }
  }

  lemma BreaksAreSpaces(c: char)
    ensures IsBreak(c) ==> IsSpace(c)
  {
  }

  lemma NewlineBreaks()
    ensures IsBreak('\n')
  {
  }

  lemma LeadingBreak(s: string)
    requires s != "" && IsBreak(s[0])
    ensures Content(SplitLines(s)) == Content(SplitLines(s[1..]))
  {
    hide Content, IsBreak;
    var t := s[1..];
    LineEndIs(s, 0);
    SplitStep(s, 0);
    assert s[..0] == "";
    ContentStep("", SplitLines(s[BreakLength(s, 0)..]));
    if BreakLength(s, 0) == 2 {
      NewlineBreaks();
      LineEndIs(t, 0);
      SplitStep(t, 0);
      assert t[..0] == "" && t[1..] == s[2..];
      ContentStep("", SplitLines(s[2..]));
    }
  }

  lemma FirstCharacterStays(s: string)
    requires s != "" && !IsBreak(s[0])
    ensures LineEnd(s) > 0
  {
  }

  lemma ContentOne(line: string)
    ensures Content([line]) == if Strip(line) == "" then [] else [Strip(line)]
  {
    ContentStep(line, []);
    assert [line] + [] == [line];
  }

  /** The content of a text without a break. */
  lemma ContentOfLine(s: string)
    requires NoBreaks(s)
    ensures Content(SplitLines(s)) == if Strip(s) == "" then [] else [Strip(s)]
  {
    LineEndIs(s, |s|);
    if s != "" { ContentOne(s); }
  }

  lemma LeadingSpace(s: string)
    requires s != "" && IsSpace(s[0]) && !IsBreak(s[0])
    ensures Content(SplitLines(s)) == Content(SplitLines(s[1..]))
  {
    hide Content, IsBreak, IsSpace, Strip, SplitLines, LineEnd;
    var t := s[1..];
    var e := LineEnd(s);
    FirstCharacterStays(s);
    LineEndIs(t, e - 1);
    StripIgnoresLeading(s[..e]);
    assert s[..e][1..] == t[..e - 1];
    if e == |s| {
      ContentOfLine(s);
      ContentOfLine(t);
      assert s[..e] == s && t[..e - 1] == t;
    } else {
      var n := BreakLength(s, e);
      assert BreakLength(t, e - 1) == n;
      assert t[e - 1 + n..] == s[e + n..];
      SplitStep(s, e);
      SplitStep(t, e - 1);
      ContentStep(s[..e], SplitLines(s[e + n..]));
      ContentStep(t[..e - 1], SplitLines(s[e + n..]));
    }
  }

  lemma ContentIgnoresLeading(s: string)
    requires s != "" && IsSpace(s[0])
    ensures Content(SplitLines(s)) == Content(SplitLines(s[1..]))
  {
    if IsBreak(s[0]) { LeadingBreak(s); } else { LeadingSpace(s); }
  }

  lemma ShorterBreak(s: string, e: nat)
    requires e < |s| && LineEnd(s) == e && e + BreakLength(s, e) < |s|
    ensures var t := s[..|s| - 1];
            var rest := s[e + BreakLength(s, e)..];
            && LineEnd(t) == e && e < |t| && BreakLength(t, e) == BreakLength(s, e)
            && t[..e] == s[..e] && t[e + BreakLength(s, e)..] == rest[..|rest| - 1]
            && rest != "" && rest[|rest| - 1] == s[|s| - 1]
  {
    LineEndIs(s[..|s| - 1], e);
  }

  lemma LastBreakAddsNothing(s: string, e: nat)
    requires e < |s| && LineEnd(s) == e && e + BreakLength(s, e) == |s|
    ensures Content(SplitLines(s)) == Content(SplitLines(s[..|s| - 1]))
  {
    var t := s[..|s| - 1];
    SplitStep(s, e);
    assert SplitLines(s) == [s[..e]];
    ContentOne(s[..e]);
    if BreakLength(s, e) == 1 {
      assert t == s[..e];
      ContentOfLine(t);
    } else {
      LineEndIs(t, e);
      SplitStep(t, e);
      assert t[..e] == s[..e];
      assert SplitLines(t) == [s[..e]];
    }
  }

  lemma {:induction false} ContentIgnoresTrailing(s: string)
    requires s != "" && IsSpace(s[|s| - 1])
    ensures Content(SplitLines(s)) == Content(SplitLines(s[..|s| - 1]))
    decreases |s|
  {
    hide IsSpace, IsBreak;
    var m := |s| - 1;
    var t := s[..m];
    var e := LineEnd(s);
    if e == |s| {
      StripIgnoresTrailing(s);
      ContentOfLine(s);
      ContentOfLine(t);
    } else if e + BreakLength(s, e) == |s| {
      LastBreakAddsNothing(s, e);
    } else {
      hide SplitLines;
      ShorterBreak(s, e);
      var rest := s[e + BreakLength(s, e)..];
      ContentIgnoresTrailing(rest);
      SplitStep(s, e);
      SplitStep(t, e);
      hide Content, BreakLength;
      ContentStep(s[..e], SplitLines(rest));
      ContentStep(s[..e], SplitLines(rest[..|rest| - 1]));
    }
  }

  lemma {:induction false} ContentOfStripLeft(s: string)
    ensures Content(SplitLines(StripLeft(s))) == Content(SplitLines(s))
  {
    if s != "" && IsSpace(s[0]) {
      ContentOfStripLeft(s[1..]);
      ContentIgnoresLeading(s);
    }
  }

  lemma {:induction false} ContentOfStripRight(s: string)
    ensures Content(SplitLines(StripRight(s))) == Content(SplitLines(s))
  {
    if s != "" && IsSpace(s[|s| - 1]) {
      ContentOfStripRight(s[..|s| - 1]);
      ContentIgnoresTrailing(s);
    }
  }

  /** Trimming the ends of a text never loses a line that says something. */
  lemma ContentOfStrip(s: string)
    ensures Content(SplitLines(Strip(s))) == Content(SplitLines(s))
  {
    ContentOfStripRight(StripLeft(s));
    ContentOfStripLeft(s);
  }

  lemma ContentOfJoin(lines: seq<string>)
    requires AllNoBreaks(lines)
    ensures Content(SplitLines(JoinLines(lines))) == Content(lines)
  {
    SplitOfJoin(lines);
    if lines != [] && lines[|lines| - 1] == "" {
      var m := |lines| - 1;
      assert lines == lines[..m] + [""];
      ContentConcat(lines[..m], [""]);
      ContentOne("");
    }
  }

  /** What a batch says is what the lines gathered for it said. */
  lemma ContentOfBatch(current: seq<string>)
    requires AllNoBreaks(current)
    ensures Content(SplitLines(Strip(JoinLines(current)))) == Content(current)
  {
    ContentOfJoin(current);
    ContentOfStrip(JoinLines(current));
  }

  // ---------------------------------------------------------------- every script

  ghost predicate NoGoLine(lines: seq<string>) { forall i :: 0 <= i < |lines| ==> !IsGo(lines[i]) }

  lemma NoGoStep(lines: seq<string>)
    requires lines != []
    ensures NoGoLine(lines) <==> !IsGo(lines[0]) && NoGoLine(lines[1..])
  {
    hide IsGo;
    if !IsGo(lines[0]) && NoGoLine(lines[1..]) {
      forall i | 0 <= i < |lines| ensures !IsGo(lines[i]) {
        if i > 0 { assert !IsGo(lines[1..][i - 1]); }
      }
    }
    if NoGoLine(lines) {
      forall i | 0 <= i < |lines[1..]| ensures !IsGo(lines[1..][i]) { assert !IsGo(lines[i + 1]); }
    }
  }

  lemma {:induction false} NoGoInContent(lines: seq<string>)
    ensures NoGoLine(lines) <==> forall w :: w in Content(lines) ==> !IsGoWord(w)
  {
    hide Strip;
    if lines != [] {
      NoGoInContent(lines[1..]);
      hide Content;
      ContentStep(lines[0], lines[1..]);
      assert [lines[0]] + lines[1..] == lines;
      NoGoStep(lines);
    }
  }

  /** A batch worth sending: not blank, trimmed, no GO line, plain newlines. */
  ghost predicate IsBatch(b: string) {
    b != "" && IsTrimmed(b) && NoGoLine(SplitLines(b)) && OnlyNewlines(b)
  }

  lemma {:induction false} JoinHasOnlyNewlines(lines: seq<string>)
    requires AllNoBreaks(lines)
    ensures forall c :: c in JoinLines(lines) && IsBreak(c) ==> c == '\n'
  {
    hide IsBreak;
    if |lines| > 1 {
      assert AllNoBreaks(lines[1..]);
      JoinHasOnlyNewlines(lines[1..]);
    }
  }

  lemma FlushedIsBatch(current: seq<string>)
    requires AllNoBreaks(current) && NoGoLine(current)
    ensures forall b :: b in Flush(current) ==> IsBatch(b)
  {
    var b := Strip(JoinLines(current));
    StripTrims(JoinLines(current));
    JoinHasOnlyNewlines(current);
    ContentOfBatch(current);
    NoGoInContent(current);
    NoGoInContent(SplitLines(b));
  }

  lemma AppendLine(current: seq<string>, line: string)
    requires AllNoBreaks(current) && NoGoLine(current) && NoBreaks(line) && !IsGo(line)
    ensures AllNoBreaks(current + [line]) && NoGoLine(current + [line])
  {
  }

  lemma {:induction false} BatchesOfAreBatches(lines: seq<string>, current: seq<string>)
    requires AllNoBreaks(lines) && AllNoBreaks(current) && NoGoLine(current)
    ensures forall b :: b in BatchesOf(lines, current) ==> IsBatch(b)
    decreases lines
  {
    hide IsBatch, NoBreaks, IsGo, Flush;
    if lines == [] {
      FlushedIsBatch(current);
    } else {
      assert AllNoBreaks(lines[1..]);
      if IsGo(lines[0]) {
        FlushedIsBatch(current);
        BatchesOfAreBatches(lines[1..], []);
      } else {
        AppendLine(current, lines[0]);
        BatchesOfAreBatches(lines[1..], current + [lines[0]]);
      }
    }
  }

  /** For every script: each batch is non-blank and trimmed and holds no GO line. */
  lemma EveryOutputIsBatch(script: string)
    ensures forall b :: b in Batches(script) ==> IsBatch(b)
  {
    SplitLinesBreakFree(script);
    BatchesOfAreBatches(SplitLines(script), []);
  }

  /** The content of a script: its lines that say something and are not GO, in order. */
  function Statements(lines: seq<string>): seq<string> {
    if lines == [] then []
    else (if IsGo(lines[0]) || Strip(lines[0]) == "" then [] else [Strip(lines[0])]) + Statements(lines[1..])
  }

  function ContentOfAll(batches: seq<string>): seq<string> {
    if batches == [] then [] else Content(SplitLines(batches[0])) + ContentOfAll(batches[1..])
  }

  lemma EmptyContent()
    ensures Content(SplitLines("")) == []
  {
  }

  lemma FlushKeepsContent(current: seq<string>, more: seq<string>)
    requires AllNoBreaks(current)
    ensures ContentOfAll(Flush(current) + more) == Content(current) + ContentOfAll(more)
  {
    ContentOfBatch(current);
    hide Content;
    var b := Strip(JoinLines(current));
    if b == "" {
      assert Content(SplitLines(b)) == [] by { EmptyContent(); }
      assert Flush(current) + more == more;
    } else {
      assert ([b] + more)[1..] == more;
    }
  }

  lemma {:induction false} NothingLost(lines: seq<string>, current: seq<string>)
    requires AllNoBreaks(lines) && AllNoBreaks(current) && NoGoLine(current)
    ensures ContentOfAll(BatchesOf(lines, current)) == Content(current) + Statements(lines)
    decreases lines
  {
    hide NoBreaks, IsGo, Flush, Strip;
    if lines == [] {
      FlushKeepsContent(current, []);
      assert Flush(current) + [] == Flush(current);
    } else {
      assert AllNoBreaks(lines[1..]);
      if IsGo(lines[0]) {
        NothingLost(lines[1..], []);
        FlushKeepsContent(current, BatchesOf(lines[1..], []));
      } else {
        AppendLine(current, lines[0]);
        NothingLost(lines[1..], current + [lines[0]]);
        ContentConcat(current, [lines[0]]);
        ContentOne(lines[0]);
        hide Content;
        Reassociate(Content(current), Content([lines[0]]), Statements(lines[1..]));
      }
    }
  }

  /**
   Conservation: reading the batches one after another gives exactly the script's own lines, minus
   the GO lines and blank lines, in order and none twice.
   */
  lemma StatementsSurvive(script: string)
    ensures ContentOfAll(Batches(script)) == Statements(SplitLines(script))
  {
    SplitLinesBreakFree(script);
    NothingLost(SplitLines(script), []);
  }

  // ---------------------------------------------------------------- splitting undoes joining

  /** The script that runs the batches one after another. */
  function JoinBatches(batches: seq<string>): string {
    if batches == [] then ""
    else if |batches| == 1 then batches[0]
    else batches[0] + "\n" + ("GO" + "\n" + JoinBatches(batches[1..]))
  }

  lemma GoIsGo()
    ensures IsGo("GO") && NoBreaks("GO")
  {
    assert !IsSpace('G') && !IsSpace('O');
    StripFixesExactlyTrimmed("GO");
  }

  lemma {:induction false} GatherLines(lines: seq<string>, more: seq<string>, current: seq<string>)
    requires NoGoLine(lines)
    ensures BatchesOf(lines + more, current) == BatchesOf(more, current + lines)
    decreases lines
  {
    hide IsGo;
    if lines == [] {
      assert lines + more == more && current + lines == current;
    } else {
      NoGoStep(lines);
      GatherLines(lines[1..], more, current + [lines[0]]);
      assert (lines + more)[1..] == lines[1..] + more && (lines + more)[0] == lines[0];
      assert current + [lines[0]] + lines[1..] == current + lines;
    }
  }

  lemma BatchFlushes(b: string)
    requires IsBatch(b)
    ensures Flush(SplitLines(b)) == [b]
  {
    BreaksAreSpaces(b[|b| - 1]);
    JoinOfSplit(b);
    StripFixesExactlyTrimmed(b);
  }

  lemma GoEndsBatch(lines: seq<string>, more: seq<string>)
    requires NoGoLine(lines)
    ensures BatchesOf(lines + (["GO"] + more), []) == Flush(lines) + BatchesOf(more, [])
  {
    GatherLines(lines, ["GO"] + more, []);
    GoIsGo();
    assert [] + lines == lines;
    assert (["GO"] + more)[1..] == more;
  }

  lemma FlushNothing()
    ensures Flush([]) == []
  {
  }

  lemma BatchLines(b: string)
    requires IsBatch(b)
    ensures b != "" && !IsBreak(b[|b| - 1]) && NoGoLine(SplitLines(b))
  {
    BreaksAreSpaces(b[|b| - 1]);
  }

  lemma {:induction false} SplitUndoesJoin(batches: seq<string>)
    requires forall i :: 0 <= i < |batches| ==> IsBatch(batches[i])
    ensures Batches(JoinBatches(batches)) == batches
  {
    hide IsBatch, Flush;
    if batches == [] {
      FlushNothing();
    } else {
      var b, rest := batches[0], batches[1..];
      BatchFlushes(b);
      BatchLines(b);
      if rest == [] {
        GatherLines(SplitLines(b), [], []);
        assert SplitLines(b) + [] == SplitLines(b) && [] + SplitLines(b) == SplitLines(b);
      } else {
        SplitUndoesJoin(rest);
        var tail := JoinBatches(rest);
        SplitLinesConcat(b, "GO" + "\n" + tail);
        GoIsGo();
        FirstLine("GO", tail);
        GoEndsBatch(SplitLines(b), SplitLines(tail));
        assert batches == [b] + rest;
      }
    }
  }

  /**
   Splitting gives back exactly the batches that were joined, for precisely those lists whose every
   member is non-blank, trimmed, free of GO lines, and broken by plain newlines only.
   */
  lemma SplitUndoesJoinExactly(batches: seq<string>)
    ensures Batches(JoinBatches(batches)) == batches <==> forall i :: 0 <= i < |batches| ==> IsBatch(batches[i])
  {
    EveryOutputIsBatch(JoinBatches(batches));
    if forall i :: 0 <= i < |batches| ==> IsBatch(batches[i]) { SplitUndoesJoin(batches); }
  }

  /** Joining the output of any script and splitting again changes nothing. */
  lemma SplittingIsStable(script: string)
    ensures Batches(JoinBatches(Batches(script))) == Batches(script)
  {
    EveryOutputIsBatch(script);
    SplitUndoesJoin(Batches(script));
  }

  // ---------------------------------------------------------------- the lines between the GO lines

  /** The runs of lines between one GO line and the next. */
  function Segments(lines: seq<string>): (segments: seq<seq<string>>)
    ensures segments != []
  {
    if lines == [] then [[]]
    else
      var rest := Segments(lines[1..]);
      if IsGo(lines[0]) then [[]] + rest else [[lines[0]] + rest[0]] + rest[1..]
  }

  function GoLines(lines: seq<string>): seq<string> {
    if lines == [] then []
    else (if IsGo(lines[0]) then [lines[0]] else []) + GoLines(lines[1..])
  }

  /** The segments one after another with the separators between them. */
  function Woven(segments: seq<seq<string>>, separators: seq<string>): seq<string>
    requires |segments| == |separators| + 1
  {
    if separators == [] then segments[0]
    else segments[0] + [separators[0]] + Woven(segments[1..], separators[1..])
  }

  lemma WovenStep(line: string, segments: seq<seq<string>>, separators: seq<string>)
    requires |segments| == |separators| + 1
    ensures Woven([[line] + segments[0]] + segments[1..], separators) == [line] + Woven(segments, separators)
  {
    var more := [[line] + segments[0]] + segments[1..];
    assert more[0] == [line] + segments[0] && more[1..] == segments[1..];
  }

  /** Segments and GO lines together are the script's lines, and no segment has a GO line. */
  lemma {:induction false} SegmentsRejoin(lines: seq<string>)
    ensures |Segments(lines)| == |GoLines(lines)| + 1
    ensures Woven(Segments(lines), GoLines(lines)) == lines
    ensures forall i :: 0 <= i < |Segments(lines)| ==> NoGoLine(Segments(lines)[i])
    ensures forall i :: 0 <= i < |GoLines(lines)| ==> IsGo(GoLines(lines)[i])
  {
    hide IsGo;
    if lines != [] {
      SegmentsRejoin(lines[1..]);
      var rest, separators := Segments(lines[1..]), GoLines(lines[1..]);
      if IsGo(lines[0]) {
        assert Segments(lines)[1..] == rest && GoLines(lines)[1..] == separators;
      } else {
        WovenStep(lines[0], rest, separators);
        assert NoGoLine(rest[0]);
        assert GoLines(lines) == separators;
      }
    }
  }

  /** The batches of the segments, blank ones dropped. */
  function BatchesOfSegments(segments: seq<seq<string>>): seq<string> {
    if segments == [] then [] else Flush(segments[0]) + BatchesOfSegments(segments[1..])
  }

  lemma HeadAndTail(segments: seq<seq<string>>)
    requires segments != []
    ensures [[] + segments[0]] + segments[1..] == segments
  {
    assert [] + segments[0] == segments[0];
    assert segments == [segments[0]] + segments[1..];
  }

  lemma {:induction false} GatheredSegments(lines: seq<string>, current: seq<string>)
    ensures BatchesOf(lines, current) == BatchesOfSegments([current + Segments(lines)[0]] + Segments(lines)[1..])
  {
    hide Flush, IsGo;
    var segments := Segments(lines);
    var all := [current + segments[0]] + segments[1..];
    assert all[0] == current + segments[0] && all[1..] == segments[1..];
    if lines == [] {
      assert current + [] == current && Flush(current) + [] == Flush(current);
    } else {
      var rest := Segments(lines[1..]);
      if IsGo(lines[0]) {
        GatheredSegments(lines[1..], []);
        assert current + [] == current && segments[1..] == rest;
        HeadAndTail(rest);
      } else {
        GatheredSegments(lines[1..], current + [lines[0]]);
        assert current + [lines[0]] + rest[0] == current + ([lines[0]] + rest[0]);
        assert segments[1..] == rest[1..];
      }
    }
  }

  /**
   The batches are exactly the segments between GO lines, each joined by newlines and trimmed at its two
   ends, in order: inside a batch no line changes.
   */
  lemma BatchesAreSegments(script: string)
    ensures var lines := SplitLines(script);
            && Batches(script) == BatchesOfSegments(Segments(lines))
            && |Segments(lines)| == |GoLines(lines)| + 1
            && Woven(Segments(lines), GoLines(lines)) == lines
            && (forall i :: 0 <= i < |Segments(lines)| ==> NoGoLine(Segments(lines)[i]))
            && (forall i :: 0 <= i < |GoLines(lines)| ==> IsGo(GoLines(lines)[i]))
  {
    hide IsGo, Flush;
    var segments := Segments(SplitLines(script));
    SegmentsRejoin(SplitLines(script));
    GatheredSegments(SplitLines(script), []);
    HeadAndTail(segments);
  }
}
