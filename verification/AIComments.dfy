/** The comment pattern of the directives, and what their removal does to the code on their lines. */
module AIComments {
  import opened Lines
  import opened Directives

  /** White space of the pattern. */
  predicate PatternSpace(c: char) {
    c == ' ' || c == '\t' || c == '\n' || c == '\U{C}' || c == '\r'
  }

  predicate Marker(s: string, i: nat) {
    && i < |s|
    && (|| s[i] == '#'
        || (i + 1 < |s| && s[i] == '/' && (s[i + 1] == '/' || s[i + 1] == '*'))
        || (i + 1 < |s| && s[i] == '-' && s[i + 1] == '-'))
  }

  function SkipSpaces(s: string, j: nat): (k: nat)
    requires j <= |s|
    ensures j <= k <= |s| && (forall q :: j <= q < k ==> PatternSpace(s[q]))
    ensures k < |s| ==> !PatternSpace(s[k])
    decreases |s| - j
  {
    if j < |s| && PatternSpace(s[j]) then SkipSpaces(s, j + 1) else j
  }

  /** Where the token would be that belongs to the marker at `i`. */
  function TokenAt(s: string, i: nat): (j: nat)
    requires Marker(s, i)
    ensures i < j <= |s|
  {
    SkipSpaces(s, if s[i] == '#' then i + 1 else i + 2)
  }

  /** A directive begins at `i`: a marker, spaces, the token "AI!" or "AI?", and at least one character
    of an instruction, which takes up the rest of the line. */
  predicate MatchAt(s: string, i: nat) {
    && Marker(s, i)
    && var j := TokenAt(s, i);
       j + 3 < |s| && s[j] == 'A' && s[j + 1] == 'I' && (s[j + 2] == '!' || s[j + 2] == '?')
  }

  /** Where the first directive begins at or behind `i`, or the end of the line. */
  function FirstMatch(s: string, i: nat): (r: nat)
    requires i <= |s|
    ensures i <= r <= |s| && (r < |s| ==> MatchAt(s, r)) && forall q :: i <= q < r ==> !MatchAt(s, q)
    decreases |s| - i
  {
    if i == |s| || MatchAt(s, i) then i else FirstMatch(s, i + 1)
  }

  predicate Matches(line: string) {
    FirstMatch(line, 0) < |line|
  }

  function TrimBlanks(s: string): (r: string)
    ensures r <= s && forall i :: |r| <= i < |s| ==> s[i] == ' ' || s[i] == '\t'
    ensures r == "" || (r[|r| - 1] != ' ' && r[|r| - 1] != '\t')
  {
    if s != "" && (s[|s| - 1] == ' ' || s[|s| - 1] == '\t') then TrimBlanks(s[..|s| - 1]) else s
  }

  /** The line without its directive. */
  function Strip(line: string): string {
    TrimBlanks(line[..FirstMatch(line, 0)])
  }

  /** What the program takes for a line that holds nothing but a directive. */
  predicate WholeLine(line: string) {
    Matches(TrimSpace(line)) && ';' !in TrimSpace(line)
  }

  const COMMENTS := Syntax(Matches, WholeLine, Strip)

  /** The part of a line in front of its directive. */
  function Code(line: string): string {
    line[..FirstMatch(line, 0)]
  }

  function Instruction(line: string): string
    requires Matches(line)
  {
    line[TokenAt(line, FirstMatch(line, 0)) + 3..]
  }

  // ----- Matches inside a part of a line -----

  lemma SkipUnique(s: string, j: nat, k: nat)
    requires j <= k <= |s| && (forall q :: j <= q < k ==> PatternSpace(s[q]))
    requires k < |s| ==> !PatternSpace(s[k])
    ensures SkipSpaces(s, j) == k
  {
  }

  /** The marker of a part of a line, and the token behind it. */
  lemma MarkerWithin(s: string, a: nat, b: nat, i: nat)
    requires a <= a + i < b <= |s|
    ensures Marker(s[a..b], i) ==> Marker(s, a + i)
    ensures Marker(s, a + i) && TokenAt(s, a + i) < b ==> Marker(s[a..b], i)
    ensures Marker(s[a..b], i) && TokenAt(s[a..b], i) < b - a ==> TokenAt(s, a + i) == a + TokenAt(s[a..b], i)
    ensures Marker(s, a + i) && TokenAt(s, a + i) < b ==> TokenAt(s, a + i) == a + TokenAt(s[a..b], i)
  {
    hide SkipSpaces;
    var t := s[a..b];
    assert forall q :: 0 <= q < |t| ==> t[q] == s[a + q];
    if Marker(t, i) {
      var (from, k) := (i + if t[i] == '#' then 1 else 2, TokenAt(t, i));
      if k < |t| {
        SkipUnique(s, a + from, a + k);
      } else if TokenAt(s, a + i) < b {
        SkipUnique(t, from, TokenAt(s, a + i) - a);
      }
    }
  }

  /** The matches of a part of a line are those of the line that leave room for an instruction. */
  lemma MatchWithin(s: string, a: nat, b: nat, i: nat)
    requires a <= a + i < b <= |s|
    ensures MatchAt(s[a..b], i) <==> MatchAt(s, a + i) && TokenAt(s, a + i) + 3 < b
  {
    MarkerWithin(s, a, b, i);
    hide Marker, TokenAt;
    assert forall q :: 0 <= q < b - a ==> s[a..b][q] == s[a + q];
  }

  /** No marker stands inside a directive before its instruction. */
  lemma MarkerInside(s: string, i: nat, q: nat)
    requires MatchAt(s, i) && i < q < TokenAt(s, i) + 3
    ensures !Marker(s, q)
  {
    assert q < TokenAt(s, i) && (q > i + 1 || s[i] == '#') ==> PatternSpace(s[q]);
  }

  // ----- Trimming -----

  /** Trimming cuts off the white space at both ends and nothing else. */
  lemma TrimSpaceParts(s: string) returns (a: nat, b: nat)
    ensures a <= b <= |s| && TrimSpace(s) == s[a..b]
    ensures forall i :: 0 <= i < a || b <= i < |s| ==> IsSpace(s[i])
    ensures a < b ==> !IsSpace(s[a]) && !IsSpace(s[b - 1])
  {
    a := TrimLeftPart(s);
    b := TrimRightPart(s[a..]);
    assert s[a..][..b] == s[a..a + b];
    assert forall i :: b <= i < |s| - a ==> s[a..][i] == s[a + i];
    assert b > 0 ==> s[a..][b - 1] == s[a + b - 1] && s[a..][0] == s[a];
    b := a + b;
  }

  lemma {:induction false} TrimLeftPart(s: string) returns (a: nat)
    ensures a <= |s| && TrimLeft(s) == s[a..] && forall i :: 0 <= i < a ==> IsSpace(s[i])
    ensures a < |s| ==> !IsSpace(s[a])
  {
    if s != "" && IsSpace(s[0]) {
      var n := TrimLeftPart(s[1..]);
      a := n + 1;
      assert s[1..][n..] == s[a..];
      assert forall i :: 0 < i < a ==> s[i] == s[1..][i - 1];
    } else {
      a := 0;
    }
  }

  lemma {:induction false} TrimRightPart(s: string) returns (b: nat)
    ensures b <= |s| && TrimRight(s) == s[..b] && forall i :: b <= i < |s| ==> IsSpace(s[i])
    ensures b > 0 ==> !IsSpace(s[b - 1])
  {
    if s != "" && IsSpace(s[|s| - 1]) {
      var init := s[..|s| - 1];
      b := TrimRightPart(init);
      assert init[..b] == s[..b];
    } else {
      b := |s|;
    }
  }

  // ----- What a removal leaves -----

  /** What is left of a line holds no directive. */
  lemma NoDirectiveLeft(line: string)
    ensures !Matches("") && !Matches(Strip(line))
  {
    var (n, left) := (FirstMatch(line, 0), Strip(line));
    var i := FirstMatch(left, 0);
    assert left == line[0..|left|];
    if i < |left| {
      MatchWithin(line, 0, |left|, i);
      assert false;
    }
  }

  /** A directive makes the program remove its whole line if and only if it has an instruction and there
    is no semicolon on the line: code in front of the directive makes no difference. */
  lemma WholeLineExactly(line: string)
    requires Matches(line)
    ensures COMMENTS.whole(line) <==> ';' !in line && !Blank(Instruction(line))
  {
    var a, b := TrimSpaceParts(line);
    var i := FirstMatch(line, 0);
    var e := TokenAt(line, i) + 3;
    assert Marker(line, i) && !IsSpace(line[i]) && !IsSpace(line[e - 1]) by { MarkerIsInk(line, i); }
    SameSemicolons(line, a, b);
    if e < b {
      MatchWithin(line, a, b, i - a);
      assert line[e..][b - 1 - e] == line[b - 1];
    } else {
      assert b == e;
      NoMatchBefore(line, a, b, i);
    }
  }

  lemma MarkerIsInk(s: string, i: nat)
    requires MatchAt(s, i)
    ensures !IsSpace(s[i]) && !IsSpace(s[TokenAt(s, i) + 2])
  {
  }

  lemma SameSemicolons(s: string, a: nat, b: nat)
    requires a <= b <= |s| && forall i :: 0 <= i < a || b <= i < |s| ==> IsSpace(s[i])
    ensures ';' in s <==> ';' in s[a..b]
  {
    assert forall i :: a <= i < b ==> s[i] == s[a..b][i - a];
  }

  /** A part of the line that stops at the token of its first directive holds no directive. */
  lemma NoMatchBefore(line: string, a: nat, b: nat, i: nat)
    requires a <= i < |line| && i == FirstMatch(line, 0) && b == TokenAt(line, i) + 3 <= |line|
    ensures !Matches(line[a..b])
  {
    forall q: nat | q < b - a
      ensures !MatchAt(line[a..b], q)
    {
      NoMatchAt(line, a, b, i, q);
    }
    hide MatchAt;
  }

  lemma NoMatchAt(line: string, a: nat, b: nat, i: nat, q: nat)
    requires MatchAt(line, i) && (forall k: nat :: k < i ==> !MatchAt(line, k))
    requires b == TokenAt(line, i) + 3 && a + q < b
    ensures !MatchAt(line[a..b], q)
  {
    MatchWithin(line, a, b, q);
    if i < a + q {
      NotInside(line, i, a + q);
    }
    hide MatchAt, Marker, TokenAt;
  }

  lemma NotInside(line: string, i: nat, q: nat)
    requires MatchAt(line, i) && i < q < TokenAt(line, i) + 3
    ensures !MatchAt(line, q)
  {
    MarkerInside(line, i, q);
  }

  /** `left` still has the code. */
  predicate CodeKept(code: string, left: seq<string>) {
    Blank(code) || (|left| == 1 && left[0] <= code && Blank(code[|left[0]|..]))
  }

  /** Removing a directive keeps the code in front of it if and only if there is none, or the line has a
    semicolon, or the directive has no instruction. */
  lemma CodeKeptExactly(line: string)
    requires Matches(line)
    ensures CodeKept(Code(line), Without(COMMENTS, line))
       <==> Blank(Code(line)) || ';' in line || Blank(Instruction(line))
  {
    WholeLineExactly(line);
  }

  // ----- The pattern, written out -----

  /** A line with a directive behind any code. */
  function Written(code: string, marker: string, gap: string, mode: char, rest: string): string {
    code + marker + gap + "AI" + [mode] + rest
  }

  predicate WellFormed(marker: string, gap: string, mode: char) {
    && (marker == "//" || marker == "#" || marker == "/*" || marker == "--")
    && (forall i :: 0 <= i < |gap| ==> gap[i] in {' ', '\t', '\n', '\U{C}', '\r'})
    && (mode == '!' || mode == '?')
  }

  /** Each such line holds a directive if it has an instruction of any kind. */
  lemma WrittenMatches(code: string, marker: string, gap: string, mode: char, rest: string)
    requires WellFormed(marker, gap, mode) && rest != ""
    ensures var line := Written(code, marker, gap, mode, rest);
            && Matches(line) && MatchAt(line, |code|) && FirstMatch(line, 0) <= |code|
            && TokenAt(line, |code|) + 3 == |line| - |rest|
  {
    var line := Written(code, marker, gap, mode, rest);
    var (from, j) := (|code| + |marker|, |code| + |marker| + |gap|);
    assert line[|code|] == marker[0] && (|marker| == 2 ==> line[|code| + 1] == marker[1]);
    assert forall q :: from <= q < j ==> line[q] == gap[q - from];
    assert line[j] == 'A' && line[j + 1] == 'I' && line[j + 2] == mode;
    SkipUnique(line, from, j);
    assert MatchAt(line, |code|);
  }

  /** A line that matches is such a line. */
  lemma MatchIsWritten(line: string) returns (marker: string, gap: string, mode: char)
    requires Matches(line)
    ensures WellFormed(marker, gap, mode) && Instruction(line) != ""
    ensures line == Written(Code(line), marker, gap, mode, Instruction(line))
  {
    var i := FirstMatch(line, 0);
    var (from, j) := (i + if line[i] == '#' then 1 else 2, TokenAt(line, i));
    marker, gap, mode := line[i..from], line[from..j], line[j + 2];
    PartsWellFormed(line, i);
    hide SkipSpaces, Written, WellFormed, FirstMatch;
    FivePieces(line, i, from, j);
  }

  lemma PartsWellFormed(line: string, i: nat)
    requires MatchAt(line, i)
    ensures var (from, j) := (i + if line[i] == '#' then 1 else 2, TokenAt(line, i));
            from <= j && WellFormed(line[i..from], line[from..j], line[j + 2])
  {
    var (from, j) := (i + if line[i] == '#' then 1 else 2, TokenAt(line, i));
    assert line[i..from] == if line[i] == '#' then "#" else [line[i], line[i + 1]];
    assert forall k :: 0 <= k < j - from ==> line[from..j][k] == line[from + k] && PatternSpace(line[from + k]);
  }

  lemma FivePieces(line: string, i: nat, from: nat, j: nat)
    requires i <= from <= j < j + 3 <= |line| && line[j] == 'A' && line[j + 1] == 'I'
    ensures line == Written(line[..i], line[i..from], line[from..j], line[j + 2], line[j + 3..])
  {
    assert line[..from] == line[..i] + line[i..from];
    assert line[..j] == line[..from] + line[from..j];
    assert line[..j + 2] == line[..j] + "AI";
    assert line[..j + 3] == line[..j + 2] + [line[j + 2]];
    assert line == line[..j + 3] + line[j + 3..];
  }

  lemma WrittenParts(code: string, marker: string, gap: string, mode: char, rest: string)
    requires WellFormed(marker, gap, mode)
    ensures var line := Written(code, marker, gap, mode, rest);
            line[..|code|] == code && (';' in line <==> ';' in code || ';' in rest)
  {
    var middle := marker + gap + "AI" + [mode];
    var line := Written(code, marker, gap, mode, rest);
    assert ';' !in middle;
    assert line == code + middle + rest;
    InParts(code, middle, rest);
  }

  lemma InParts(a: string, b: string, c: string)
    ensures ';' in a + b + c <==> ';' in a || ';' in b || ';' in c
  {
  }

  /** Code without a semicolon is lost: the removal of a directive that stands behind it, for every
    comment style and instruction, takes out the whole line. */
  lemma CodeIsLost(code: string, marker: string, gap: string, mode: char, rest: string)
    requires WellFormed(marker, gap, mode) && !Blank(rest) && ';' !in code && ';' !in rest
    ensures Without(COMMENTS, Written(code, marker, gap, mode, rest)) == []
  {
    var line := Written(code, marker, gap, mode, rest);
    WrittenMatches(code, marker, gap, mode, rest);
    WholeLineExactly(line);
    InstructionHolds(code, marker, gap, mode, rest);
    WrittenParts(code, marker, gap, mode, rest);
  }

  lemma InstructionHolds(code: string, marker: string, gap: string, mode: char, rest: string)
    requires WellFormed(marker, gap, mode) && !Blank(rest)
    ensures Matches(Written(code, marker, gap, mode, rest))
    ensures !Blank(Instruction(Written(code, marker, gap, mode, rest)))
  {
    var line := Written(code, marker, gap, mode, rest);
    WrittenMatches(code, marker, gap, mode, rest);
    var i := FirstMatch(line, 0);
    if i < |code| && TokenAt(line, i) + 3 > |code| {
      MarkerInside(line, i, |code|);
    }
    var e := TokenAt(line, i) + 3;
    var k :| 0 <= k < |rest| && !IsSpace(rest[k]);
    var q := |line| - |rest| + k;
    assert line[q] == rest[k];
    assert Instruction(line)[q - e] == line[q];
  }

  /** With a semicolon on the line, the code stays, without the blanks behind it. */
  lemma SemicolonKeepsCode(code: string, marker: string, gap: string, mode: char, rest: string)
    requires WellFormed(marker, gap, mode) && rest != "" && (';' in code || ';' in rest)
    requires forall i :: 0 <= i < |code| ==> !MatchAt(Written(code, marker, gap, mode, rest), i)
    ensures Without(COMMENTS, Written(code, marker, gap, mode, rest)) == [TrimBlanks(code)]
  {
    hide MatchAt, WellFormed, FirstMatch, WholeLine, Instruction, Blank;
    var line := Written(code, marker, gap, mode, rest);
    WrittenMatches(code, marker, gap, mode, rest);
    WholeLineExactly(line);
    WrittenParts(code, marker, gap, mode, rest);
    hide Written;
    assert FirstMatch(line, 0) == |code|;
    assert Strip(line) == TrimBlanks(code);
  }

  /** The program at work on a file of one line of code with a directive. */
  lemma PythonLineIsLost()
    ensures var files := map["a.py" := ["x = 1  # AI! rename x"]];
            Process(COMMENTS, _ => true, files, [Directive("a.py", 1)]) == (map["a.py" := [""]], 1)
  {
    hide Without;
    var line := "x = 1  # AI! rename x";
    var (files, after, d) := (map["a.py" := [line]], map["a.py" := [""]], Directive("a.py", 1));
    PythonLine();
    assert [line][..0] + [] + [line][1..] == [];
    assert RemoveOne(COMMENTS, files, d) == after;
    hide RemoveOne;
    ProcessFirst(COMMENTS, _ => true, files, [d]);
    assert [d][1..] == [];
    assert Process(COMMENTS, _ => true, after, []) == (after, 0);
  }

  lemma PythonLine()
    ensures Without(COMMENTS, "x = 1  # AI! rename x") == []
  {
    hide Without;
    assert "x = 1  # AI! rename x" == Written("x = 1  ", "#", " ", '!', " rename x");
    assert !IsSpace(" rename x"[1]);
    CodeIsLost("x = 1  ", "#", " ", '!', " rename x");
  }
}
