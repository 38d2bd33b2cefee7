/** Word wrapping under a prefix: words move to new rows, which are indented to line up with the text
  above them, and a word that is wider than a row is broken. */
module WordWrap {
  import opened Lines

  /** The display width of each rune. */
  type Widths = char -> nat

  function Width(rw: Widths, s: string): nat {
    if s == "" then 0 else rw(s[0]) + Width(rw, s[1..])
  }

  function Spaces(n: nat): (s: string)
    ensures |s| == n && forall i :: 0 <= i < n ==> s[i] == ' '
  {
    seq(n, _ => ' ')
  }

  // Fields and ink.

  /** The length of the first word of `s`. */
  function WordLength(s: string): (n: nat)
    ensures n <= |s|
    ensures forall i :: 0 <= i < n ==> !IsSpace(s[i])
    ensures n < |s| ==> IsSpace(s[n])
  {
    if s == "" || IsSpace(s[0]) then 0
    else
      var n := WordLength(s[1..]);
      assert forall i :: 0 < i <= n ==> s[i] == s[1..][i - 1];
      n + 1
  }

  predicate IsWord(s: string) {
    s != "" && forall i :: 0 <= i < |s| ==> !IsSpace(s[i])
  }

  /** The words of `s`, as split around runs of white space. */
  function Fields(s: string): (words: seq<string>)
    ensures forall k :: 0 <= k < |words| ==> IsWord(words[k])
  {
    if s == "" then []
    else if IsSpace(s[0]) then Fields(s[1..])
    else
      var n := WordLength(s);
      [s[..n]] + Fields(s[n..])
  }

  /** `s` without its white space. */
  function Ink(s: string): string {
    if s == "" then "" else (if IsSpace(s[0]) then "" else [s[0]]) + Ink(s[1..])
  }

  function InkOf(rows: seq<string>): string {
    if rows == [] then "" else Ink(rows[0]) + InkOf(rows[1..])
  }

  // How a line is laid out.

  function LeadingLength(line: string): (n: nat)
    ensures n <= |line|
    ensures forall i :: 0 <= i < n ==> line[i] == ' ' || line[i] == '\t'
  {
    if line == "" || (line[0] != ' ' && line[0] != '\t') then 0
    else
      var n := LeadingLength(line[1..]);
      assert forall i :: 0 < i <= n ==> line[i] == line[1..][i - 1];
      n + 1
  }

  predicate IsDigit(c: char) {
    '0' <= c <= '9'
  }

  /** The width of the bullet or number that opens a line. */
  function BulletExtra(trimmed: string): nat {
    if "* " <= trimmed || "- " <= trimmed || "+ " <= trimmed then 2
    else if |trimmed| >= 3 && IsDigit(trimmed[0]) && trimmed[1..3] == ". " then 3
    else if |trimmed| >= 4 && IsDigit(trimmed[0]) && IsDigit(trimmed[1]) && trimmed[2..4] == ". " then 4
    else if |trimmed| >= 5 && IsDigit(trimmed[0]) && IsDigit(trimmed[1]) && IsDigit(trimmed[2])
        && trimmed[3..5] == ". " then 5
    else 0
  }

  /** The room of a wrap: the total width and the columns taken by the prefix. */
  datatype Frame = Frame(width: nat, prefix: nat) {
    function First(): int {
      if width < prefix + 1 then (if width < 2 then 1 else width - 1) else width - prefix
    }

    function Continued(): int {
      if width - prefix < 10 then width else width - prefix
    }
  }

  function FrameFor(width: int, prefix: nat): Frame {
    Frame(if width < 20 then 80 else width, prefix)
  }

  /** How the rows after the first one of a line begin, and the room they have. */
  datatype Layout = Layout(indent: string, room: int)

  function LayoutOf(rw: Widths, f: Frame, line: string): Layout {
    var n := LeadingLength(line);
    var extra := Spaces(BulletExtra(line[n..]));
    var room := f.width - (f.prefix + Width(rw, line[..n]) + Width(rw, extra));
    if room < 10 then Layout(Spaces(f.prefix), f.Continued())
    else Layout(Spaces(f.prefix) + line[..n] + extra, room)
  }

  /** The room of the first row of line `i`. */
  function RoomOf(rw: Widths, f: Frame, line: string, i: nat): int {
    if i == 0 then f.First() else f.Continued() - Width(rw, line[..LeadingLength(line)])
  }

  // Wrapping one line.

  /** What was written, the row being filled, its width, and its room. */
  datatype Cursor = Cursor(out: string, row: string, width: nat, room: int)

  function NewRow(c: Cursor, lay: Layout): Cursor {
    Cursor(c.out + c.row + "\n" + lay.indent, "", c.width, lay.room)
  }

  /** How many runes fit in the room, counting on from `n` runes that take `taken` columns. */
  function ChunkFrom(rw: Widths, runes: string, n: nat, taken: nat, room: int): (r: nat)
    requires n <= |runes|
    ensures n <= r <= |runes|
    decreases |runes| - n
  {
    if n < |runes| && taken + rw(runes[n]) <= room then ChunkFrom(rw, runes, n + 1, taken + rw(runes[n]), room) else n
  }

  /** The first piece of a word that is broken: what fits, or one rune. */
  function Chunk(rw: Widths, runes: string, room: int): (n: nat)
    requires runes != ""
    ensures 0 < n <= |runes|
  {
    var n := ChunkFrom(rw, runes, 0, 0, room);
    if n == 0 then 1 else n
  }

  function PlaceChunk(rw: Widths, c: Cursor, runes: string, lay: Layout): Cursor
    requires runes != ""
  {
    var piece := runes[..Chunk(rw, runes, c.room)];
    var d := if c.row != "" then NewRow(c, lay) else c;
    d.(row := d.row + piece, width := Width(rw, piece))
  }

  function BreakWord(rw: Widths, c: Cursor, runes: string, lay: Layout): Cursor
    decreases |runes|
  {
    if runes == "" then c
    else
      var rest := runes[Chunk(rw, runes, c.room)..];
      var d := PlaceChunk(rw, c, runes, lay);
      BreakWord(rw, if rest != "" then NewRow(d, lay).(width := 0) else d, rest, lay)
  }

  function AddWord(rw: Widths, c: Cursor, word: string, lay: Layout): Cursor {
    var w := Width(rw, word);
    if w > c.room && c.width == 0 then BreakWord(rw, c, word, lay)
    else if c.width > 0 && c.width + 1 + w > c.room then NewRow(c, lay).(row := word, width := w)
    else if c.width > 0 then c.(row := c.row + " " + word, width := c.width + 1 + w)
    else c.(row := c.row + word, width := w)
  }

  function AddWords(rw: Widths, c: Cursor, words: seq<string>, lay: Layout): Cursor
    decreases |words|
  {
    if words == [] then c else AddWords(rw, AddWord(rw, c, words[0], lay), words[1..], lay)
  }

  function WrapLine(rw: Widths, f: Frame, out: string, line: string, i: nat): string {
    var start := if i == 0 then out else out + Spaces(f.prefix);
    var room := RoomOf(rw, f, line, i);
    if Width(rw, line) <= room then start + line + "\n"
    else
      var c := AddWords(rw, Cursor(start, "", 0, room), Fields(line), LayoutOf(rw, f, line));
      if c.row != "" then c.out + c.row + "\n" else c.out
  }

  function WrapLines(rw: Widths, f: Frame, out: string, lines: seq<string>, i: nat): string
    requires i <= |lines|
    decreases |lines| - i
  {
    if i == |lines| then out else WrapLines(rw, f, WrapLine(rw, f, out, lines[i], i), lines, i + 1)
  }

  function Wrapped(rw: Widths, text: string, width: int, prefix: nat): string {
    TrimNewlines(WrapLines(rw, FrameFor(width, prefix), "", Rows(text), 0))
  }

  // Nothing is lost.

  lemma InkCons(c: char, s: string)
    ensures Ink([c] + s) == Ink([c]) + Ink(s)
  {
    assert ([c] + s)[1..] == s;
    assert Ink([c]) == if IsSpace(c) then "" else [c];
  }

  lemma {:induction false} InkConcat(a: string, b: string)
    ensures Ink(a + b) == Ink(a) + Ink(b)
  {
    hide Ink;
    if a == "" {
      assert a + b == b;
      NoInk("");
    } else {
      var (c, rest) := (a[0], a[1..]);
      assert a == [c] + rest && a + b == [c] + (rest + b);
      InkConcat(rest, b);
      InkCons(c, rest);
      InkCons(c, rest + b);
      assert Ink([c]) + (Ink(rest) + Ink(b)) == (Ink([c]) + Ink(rest)) + Ink(b);
    }
  }

  lemma {:induction false} NoInk(s: string)
    requires Blank(s)
    ensures Ink(s) == ""
  {
    if s != "" {
      assert IsSpace(s[0]);
      assert forall i :: 0 <= i < |s| - 1 ==> s[1..][i] == s[i + 1];
      NoInk(s[1..]);
    }
  }

  lemma InkOfCons(s: string, rows: seq<string>)
    ensures InkOf([s] + rows) == Ink(s) + InkOf(rows) && InkOf([]) == ""
  {
    hide Ink;
    assert ([s] + rows)[1..] == rows;
  }

  lemma {:induction false} InkOfConcat(a: seq<string>, b: seq<string>)
    ensures InkOf(a + b) == InkOf(a) + InkOf(b)
  {
    hide Ink, InkOf;
    InkOfCons("", []);
    if a == [] {
      assert a + b == b;
    } else {
      var (s, rest) := (a[0], a[1..]);
      assert a == [s] + rest && a + b == [s] + (rest + b);
      InkOfConcat(rest, b);
      InkOfCons(s, rest);
      InkOfCons(s, rest + b);
      assert Ink(s) + (InkOf(rest) + InkOf(b)) == (Ink(s) + InkOf(rest)) + InkOf(b);
    }
  }

  lemma InkOfOne(s: string)
    ensures InkOf([s]) == Ink(s)
  {
  }

  lemma RowGrowsInk(early: seq<string>, row: string, more: string)
    ensures InkOf(early + [row + more]) == InkOf(early + [row]) + Ink(more)
  {
    hide Ink, InkOf;
    InkOfConcat(early, [row]);
    InkOfConcat(early, [row + more]);
    InkOfOne(row);
    InkOfOne(row + more);
    InkConcat(row, more);
  }

  lemma {:induction false} RowsInk(s: string)
    ensures InkOf(Rows(s)) == Ink(s)
  {
    hide Ink, InkOf;
    InkOfOne("");
    NoInk("");
    if s != "" {
      var (init, last) := (s[..|s| - 1], [s[|s| - 1]]);
      var rows := Rows(init);
      RowsInk(init);
      assert s == init + last;
      InkConcat(init, last);
      if last == "\n" {
        InkOfConcat(rows, [""]);
        NoInk(last);
      } else {
        var (early, row) := (rows[..|rows| - 1], rows[|rows| - 1]);
        assert rows == early + [row];
        RowGrowsInk(early, row, last);
      }
    }
  }

  lemma {:induction false} FieldsInk(s: string)
    ensures InkOf(Fields(s)) == Ink(s)
    decreases |s|
  {
    if s != "" {
      if IsSpace(s[0]) {
        FieldsInk(s[1..]);
      } else {
        var n := WordLength(s);
        FieldsInk(s[n..]);
        assert s == s[..n] + s[n..];
        InkConcat(s[..n], s[n..]);
        assert Fields(s) == [s[..n]] + Fields(s[n..]);
      }
    }
  }

  /** The ink a cursor has placed. */
  function Placed(c: Cursor): string {
    Ink(c.out) + Ink(c.row)
  }

  lemma NewRowInk(c: Cursor, lay: Layout)
    requires Blank(lay.indent)
    ensures Placed(NewRow(c, lay)) == Placed(c)
  {
    var gap := "\n" + lay.indent;
    assert c.out + c.row + "\n" + lay.indent == (c.out + c.row) + gap;
    InkConcat(c.out, c.row);
    InkConcat(c.out + c.row, gap);
    NoInk(gap);
  }

  lemma RowInk(c: Cursor, s: string, width: nat)
    ensures Placed(c.(row := c.row + s, width := width)) == Placed(c) + Ink(s)
  {
    InkConcat(c.row, s);
  }

  lemma {:induction false} BreakWordInk(rw: Widths, c: Cursor, runes: string, lay: Layout)
    requires Blank(lay.indent)
    ensures Placed(BreakWord(rw, c, runes, lay)) == Placed(c) + Ink(runes)
    decreases |runes|
  {
    hide Placed, NewRow, Chunk, Ink;
    if runes == "" {
      NoInk("");
    } else {
      var n := Chunk(rw, runes, c.room);
      var (piece, rest) := (runes[..n], runes[n..]);
      assert runes == piece + rest;
      InkConcat(piece, rest);
      var d := if c.row != "" then NewRow(c, lay) else c;
      NewRowInk(c, lay);
      RowInk(d, piece, Width(rw, piece));
      var e := PlaceChunk(rw, c, runes, lay);
      assert Placed(e) == Placed(c) + Ink(piece);
      NewRowInk(e, lay);
      WidthIsNoInk(NewRow(e, lay), 0);
      BreakWordInk(rw, if rest != "" then NewRow(e, lay).(width := 0) else e, rest, lay);
      assert (Placed(c) + Ink(piece)) + Ink(rest) == Placed(c) + (Ink(piece) + Ink(rest));
    }
  }

  lemma WidthIsNoInk(c: Cursor, width: nat)
    ensures Placed(c.(width := width)) == Placed(c)
  {
  }

  lemma AddWordInk(rw: Widths, c: Cursor, word: string, lay: Layout)
    requires Blank(lay.indent)
    ensures Placed(AddWord(rw, c, word, lay)) == Placed(c) + Ink(word)
  {
    hide Ink, BreakWord, Width;
    var w := Width(rw, word);
    if w > c.room && c.width == 0 {
      BreakWordInk(rw, c, word, lay);
    } else if c.width > 0 && c.width + 1 + w > c.room {
      NewRowInk(c, lay);
      var d := NewRow(c, lay);
      NoInk("");
      assert AddWord(rw, c, word, lay) == d.(row := word, width := w);
      assert Placed(d) == Ink(d.out) + "" == Ink(d.out);
    } else if c.width > 0 {
      assert c.row + " " + word == c.row + (" " + word);
      RowInk(c, " " + word, c.width + 1 + w);
      InkConcat(" ", word);
      NoInk(" ");
    } else {
      RowInk(c, word, w);
    }
  }

  lemma {:induction false} AddWordsInk(rw: Widths, c: Cursor, words: seq<string>, lay: Layout)
    requires Blank(lay.indent)
    ensures Placed(AddWords(rw, c, words, lay)) == Placed(c) + InkOf(words)
    decreases |words|
  {
    hide Placed, AddWord, Ink;
    if words != [] {
      var d := AddWord(rw, c, words[0], lay);
      AddWordInk(rw, c, words[0], lay);
      AddWordsInk(rw, d, words[1..], lay);
      assert (Placed(c) + Ink(words[0])) + InkOf(words[1..]) == Placed(c) + (Ink(words[0]) + InkOf(words[1..]));
    }
  }

  lemma LayoutIsBlank(rw: Widths, f: Frame, line: string)
    ensures var indent := LayoutOf(rw, f, line).indent;
            forall i :: 0 <= i < |indent| ==> indent[i] == ' ' || indent[i] == '\t'
    ensures Blank(LayoutOf(rw, f, line).indent)
  {
    hide Width, BulletExtra;
  }

  lemma WrapLineInk(rw: Widths, f: Frame, out: string, line: string, i: nat)
    ensures Ink(WrapLine(rw, f, out, line, i)) == Ink(out) + Ink(line)
  {
    hide Ink, Width, LayoutOf, AddWords, Fields, RoomOf;
    var indent := Spaces(f.prefix);
    InkConcat(out, indent);
    NoInk(indent);
    NoInk("\n");
    NoInk("");
    var start := if i == 0 then out else out + indent;
    assert Ink(start) == Ink(out);
    var room := RoomOf(rw, f, line, i);
    if Width(rw, line) <= room {
      InkConcat(start, line);
      InkConcat(start + line, "\n");
    } else {
      var (lay, c) := (LayoutOf(rw, f, line), Cursor(start, "", 0, room));
      LayoutIsBlank(rw, f, line);
      AddWordsInk(rw, c, Fields(line), lay);
      FieldsInk(line);
      var d := AddWords(rw, c, Fields(line), lay);
      assert Placed(c) == Ink(start) + "" == Ink(start);
      InkConcat(d.out, d.row);
      InkConcat(d.out + d.row, "\n");
    }
  }

  lemma {:induction false} WrapLinesInk(rw: Widths, f: Frame, out: string, lines: seq<string>, i: nat)
    requires i <= |lines|
    ensures Ink(WrapLines(rw, f, out, lines, i)) == Ink(out) + InkOf(lines[i..])
    decreases |lines| - i
  {
    hide WrapLine, Ink;
    if i < |lines| {
      var next := WrapLine(rw, f, out, lines[i], i);
      WrapLineInk(rw, f, out, lines[i], i);
      WrapLinesInk(rw, f, next, lines, i + 1);
      assert lines[i..][0] == lines[i] && lines[i..][1..] == lines[i + 1..];
      assert (Ink(out) + Ink(lines[i])) + InkOf(lines[i + 1..]) == Ink(out) + (Ink(lines[i]) + InkOf(lines[i + 1..]));
    }
  }

  lemma {:induction false} TrimNewlinesInk(s: string)
    ensures Ink(TrimNewlines(s)) == Ink(s)
  {
    hide Ink;
    if s != "" && s[|s| - 1] == '\n' {
      var init := s[..|s| - 1];
      TrimNewlinesInk(init);
      assert s == init + "\n";
      InkConcat(init, "\n");
      NoInk("\n");
    }
  }

  /** Wrapping changes white space only, whatever the text, the width, the prefix and the widths of
    the runes. */
  lemma WrapLosesNothing(rw: Widths, text: string, width: int, prefix: nat)
    ensures Ink(Wrapped(rw, text, width, prefix)) == Ink(text)
  {
    hide Ink, WrapLines, FrameFor;
    var f := FrameFor(width, prefix);
    WrapLinesInk(rw, f, "", Rows(text), 0);
    TrimNewlinesInk(WrapLines(rw, f, "", Rows(text), 0));
    assert Rows(text)[0..] == Rows(text);
    RowsInk(text);
    NoInk("");
  }

  // Rows fit.

  predicate IndentOnly(s: string) {
    forall i :: 0 <= i < |s| ==> s[i] == ' ' || s[i] == '\t'
  }

  /** A single word after its indent. */
  predicate OneWord(row: string) {
    IsWord(row[LeadingLength(row)..])
  }

  predicate RowFits(rw: Widths, row: string, room: int) {
    Width(rw, row) <= room || OneWord(row)
  }

  /** The room of row `k`: the first one starts behind the prefix, and `slack` columns are added. */
  function Room(f: Frame, k: nat, slack: nat): int {
    (if k == 0 then f.width - f.prefix else f.width) + slack
  }

  ghost predicate AllFit(rw: Widths, f: Frame, rows: seq<string>, slack: nat) {
    forall k :: 0 <= k < |rows| ==> RowFits(rw, rows[k], Room(f, k, slack))
  }

  /** A blank line that is too wide for its row: its words, of which there are none, are wrapped, and
    the row it started stays open for the next line. */
  predicate WideBlank(rw: Widths, f: Frame, line: string, i: nat) {
    Blank(line) && Width(rw, line) > RoomOf(rw, f, line, i)
  }

  /** One prefix for every over-wide blank line among the first `n`. */
  function Slack(rw: Widths, f: Frame, lines: seq<string>, n: nat): nat
    requires n <= |lines|
  {
    if n == 0 then 0 else Slack(rw, f, lines, n - 1) + (if WideBlank(rw, f, lines[n - 1], n - 1) then f.prefix else 0)
  }

  /** The runes of `s` that print something take one or two columns. */
  ghost predicate Printable(rw: Widths, s: string) {
    forall c :: c in s && !IsSpace(c) ==> 1 <= rw(c) <= 2
  }

  lemma {:induction false} WidthConcat(rw: Widths, a: string, b: string)
    ensures Width(rw, a + b) == Width(rw, a) + Width(rw, b)
  {
    if a == "" {
      assert a + b == b;
    } else {
      WidthConcat(rw, a[1..], b);
      assert (a + b)[1..] == a[1..] + b;
    }
  }

  lemma {:induction false} WidthOfSpaces(rw: Widths, n: nat)
    requires rw(' ') == 1
    ensures Width(rw, Spaces(n)) == n
  {
    if n > 0 {
      WidthOfSpaces(rw, n - 1);
      assert Spaces(n)[1..] == Spaces(n - 1);
    }
  }

  lemma WordHasWidth(rw: Widths, word: string)
    requires IsWord(word) && Printable(rw, word)
    ensures Width(rw, word) > 0
  {
    assert word[0] in word;
  }

  lemma {:induction false} TrimKeepsRows(s: string)
    ensures |Rows(TrimNewlines(s))| <= |Rows(s)|
    ensures Rows(TrimNewlines(s)) == Rows(s)[..|Rows(TrimNewlines(s))|]
  {
    if s != "" && s[|s| - 1] == '\n' {
      TrimKeepsRows(s[..|s| - 1]);
    }
  }

  lemma {:induction false} FieldsOf(s: string)
    ensures Fields(s) == [] <==> Blank(s)
    ensures forall word, c :: word in Fields(s) && c in word ==> c in s
    decreases |s|
  {
    if s != "" {
      if IsSpace(s[0]) {
        FieldsOf(s[1..]);
        assert Blank(s) <==> Blank(s[1..]) by {
          assert forall i :: 0 <= i < |s| - 1 ==> s[1..][i] == s[i + 1];
        }
      } else {
        FieldsOf(s[WordLength(s)..]);
      }
    }
  }

  /** A cursor whose finished rows fit, whose row is open behind an indent, and whose row fits as
    well or is one word. */
  ghost predicate CursorFits(rw: Widths, f: Frame, c: Cursor, slack: nat) {
    && Open(rw, f, c.out, if c.room < 2 then 2 else c.room, slack)
    && '\n' !in c.row
    && c.width == Width(rw, c.row)
    && (c.row == "" <==> c.width == 0)
    && (IsWord(c.row) || c.width <= (if c.room < 2 then 2 else c.room))
  }

  /** The finished rows fit, and `need` more columns fit behind the indent of the open row. */
  ghost predicate Open(rw: Widths, f: Frame, out: string, need: int, slack: nat) {
    var rows := Rows(out);
    var k := |rows| - 1;
    && AllFit(rw, f, rows[..k], slack)
    && IndentOnly(rows[k])
    && Width(rw, rows[k]) + need <= Room(f, k, slack)
  }

  lemma WordAfterIndent(indent: string, word: string)
    requires IndentOnly(indent) && IsWord(word)
    ensures OneWord(indent + word)
  {
    var row := indent + word;
    var n := LeadingLength(row);
    LeadingIs(row, |indent|);
    assert row[n..] == word;
  }

  lemma {:induction false} LeadingIs(s: string, n: nat)
    requires n < |s| && IndentOnly(s[..n]) && s[n] != ' ' && s[n] != '\t'
    ensures LeadingLength(s) == n
  {
    if n > 0 {
      assert s[0] == s[..n][0];
      assert s[1..][..n - 1] == s[..n][1..];
      LeadingIs(s[1..], n - 1);
    }
  }

  /** Closing the open row with text that fits, or is one word, leaves a fresh row. */
  lemma CloseRow(rw: Widths, f: Frame, out: string, text: string, indent: string, need: int, next: int, slack: nat)
    requires Open(rw, f, out, need, slack) && '\n' !in text
    requires IsWord(text) || Width(rw, text) <= need
    requires IndentOnly(indent) && Width(rw, indent) + next <= f.width
    ensures Open(rw, f, out + text + "\n" + indent, next, slack)
    ensures |Rows(out + text + "\n" + indent)| > 1
    ensures AllFit(rw, f, Rows(out + text), slack)
  {
    hide Width, OneWord, Rows;
    var rows := Rows(out);
    var k := |rows| - 1;
    RowsExtend(out, text);
    var closed := Rows(out + text);
    assert closed[..k] == rows[..k] && closed[k] == rows[k] + text;
    WidthConcat(rw, rows[k], text);
    if IsWord(text) {
      WordAfterIndent(rows[k], text);
    }
    assert RowFits(rw, closed[k], Room(f, k, slack));
    assert AllFit(rw, f, closed, slack) by {
      assert forall j :: 0 <= j < k ==> closed[j] == rows[..k][j];
    }
    RowsBreak(out + text);
    RowsExtend(out + text + "\n", indent);
    assert "" + indent == indent;
    assert Rows(out + text + "\n" + indent) == closed + [indent];
    assert (closed + [indent])[..|closed|] == closed;
  }

  ghost predicate GoodLayout(rw: Widths, f: Frame, lay: Layout) {
    IndentOnly(lay.indent) && lay.room >= 10 && Width(rw, lay.indent) + lay.room <= f.width
  }

  lemma NewRowFits(rw: Widths, f: Frame, c: Cursor, lay: Layout, word: string, slack: nat)
    requires CursorFits(rw, f, c, slack) && GoodLayout(rw, f, lay)
    requires word == "" || (IsWord(word) && Printable(rw, word))
    ensures CursorFits(rw, f, NewRow(c, lay).(row := word, width := Width(rw, word)), slack)
  {
    hide Open;
    var need := if c.room < 2 then 2 else c.room;
    CloseRow(rw, f, c.out, c.row, lay.indent, need, lay.room, slack);
    if word != "" {
      WordHasWidth(rw, word);
    }
  }

  lemma {:induction false} ChunkFromFits(rw: Widths, runes: string, n: nat, taken: nat, room: int)
    requires n <= |runes| && taken == Width(rw, runes[..n])
    ensures var r := ChunkFrom(rw, runes, n, taken, room);
            r == n || Width(rw, runes[..r]) <= room
    decreases |runes| - n
  {
    if n < |runes| && taken + rw(runes[n]) <= room {
      assert runes[..n + 1] == runes[..n] + [runes[n]];
      WidthConcat(rw, runes[..n], [runes[n]]);
      ChunkFromFits(rw, runes, n + 1, taken + rw(runes[n]), room);
    }
  }

  /** A piece of a broken word takes no more than the room, unless the room is less than a rune. */
  lemma ChunkFits(rw: Widths, runes: string, room: int)
    requires IsWord(runes) && Printable(rw, runes)
    ensures var piece := runes[..Chunk(rw, runes, room)];
            && IsWord(piece) && Printable(rw, piece) && 0 < Width(rw, piece)
            && Width(rw, piece) <= (if room < 2 then 2 else room)
  {
    var n := Chunk(rw, runes, room);
    ChunkFromFits(rw, runes, 0, 0, room);
    var piece := runes[..n];
    assert forall c :: c in piece ==> c in runes;
    WordHasWidth(rw, piece);
    if n == 1 {
      assert piece == [runes[0]];
      assert runes[0] in runes;
      assert Width(rw, piece) == rw(runes[0]) + Width(rw, "");
    }
  }

  lemma {:induction false} BreakWordFits(rw: Widths, f: Frame, c: Cursor, runes: string, lay: Layout, slack: nat)
    requires CursorFits(rw, f, c, slack) && GoodLayout(rw, f, lay) && c.row == ""
    requires IsWord(runes) && Printable(rw, runes)
    ensures CursorFits(rw, f, BreakWord(rw, c, runes, lay), slack) && BreakWord(rw, c, runes, lay).row != ""
    decreases |runes|
  {
    hide Open, Chunk, Width;
    var n := Chunk(rw, runes, c.room);
    var (piece, rest) := (runes[..n], runes[n..]);
    ChunkFits(rw, runes, c.room);
    var d := PlaceChunk(rw, c, runes, lay);
    assert "" + piece == piece;
    assert d == c.(row := piece, width := Width(rw, piece));
    assert CursorFits(rw, f, d, slack);
    if rest != "" {
      assert forall x :: x in rest ==> x in runes;
      NewRowFits(rw, f, d, lay, "", slack);
      NothingWide(rw);
      assert NewRow(d, lay).(row := "", width := 0) == NewRow(d, lay).(width := 0);
      BreakWordFits(rw, f, NewRow(d, lay).(width := 0), rest, lay, slack);
    } else {
      assert BreakWord(rw, d, rest, lay) == d;
    }
  }

  lemma NothingWide(rw: Widths)
    ensures Width(rw, "") == 0
  {
  }

  lemma AddWordFits(rw: Widths, f: Frame, c: Cursor, word: string, lay: Layout, slack: nat)
    requires CursorFits(rw, f, c, slack) && GoodLayout(rw, f, lay)
    requires IsWord(word) && Printable(rw, word) && rw(' ') == 1
    ensures CursorFits(rw, f, AddWord(rw, c, word, lay), slack) && AddWord(rw, c, word, lay).row != ""
  {
    hide Open, BreakWord, Width;
    WordHasWidth(rw, word);
    var w := Width(rw, word);
    if w > c.room && c.width == 0 {
      BreakWordFits(rw, f, c, word, lay, slack);
    } else if c.width > 0 && c.width + 1 + w > c.room {
      NewRowFits(rw, f, c, lay, word, slack);
    } else if c.width > 0 {
      var row := c.row + " " + word;
      WidthConcat(rw, c.row + " ", word);
      WidthConcat(rw, c.row, " ");
      WidthOfSpace(rw);
    } else {
      assert "" + word == word;
    }
  }

  lemma WidthOfSpace(rw: Widths)
    requires rw(' ') == 1
    ensures Width(rw, " ") == 1
  {
    WidthOfSpaces(rw, 1);
    assert Spaces(1) == " ";
  }

  lemma {:induction false} AddWordsFit(rw: Widths, f: Frame, c: Cursor, words: seq<string>, lay: Layout, slack: nat)
    requires CursorFits(rw, f, c, slack) && GoodLayout(rw, f, lay) && rw(' ') == 1
    requires forall k :: 0 <= k < |words| ==> IsWord(words[k]) && Printable(rw, words[k])
    ensures CursorFits(rw, f, AddWords(rw, c, words, lay), slack)
    ensures words != [] ==> AddWords(rw, c, words, lay).row != ""
    decreases |words|
  {
    hide CursorFits, AddWord, IsWord, Printable;
    if words != [] {
      AddWordFits(rw, f, c, words[0], lay, slack);
      AddWordsFit(rw, f, AddWord(rw, c, words[0], lay), words[1..], lay, slack);
      if |words| == 1 {
        assert words[1..] == [];
      }
    }
  }

  lemma LayoutIsGood(rw: Widths, f: Frame, line: string)
    requires rw(' ') == 1 && f.prefix + 10 <= f.width
    ensures GoodLayout(rw, f, LayoutOf(rw, f, line))
  {
    hide Width, BulletExtra;
    LayoutIsBlank(rw, f, line);
    var n := LeadingLength(line);
    var (indent, extra) := (Spaces(f.prefix), Spaces(BulletExtra(line[n..])));
    WidthOfSpaces(rw, f.prefix);
    WidthConcat(rw, indent, line[..n]);
    WidthConcat(rw, indent + line[..n], extra);
  }

  /** Writing the prefix in front of a line. */
  lemma IndentRow(rw: Widths, f: Frame, out: string, slack: nat)
    requires Open(rw, f, out, f.width, slack) && rw(' ') == 1 && f.prefix <= f.width
    ensures Open(rw, f, out + Spaces(f.prefix), f.width - f.prefix, slack)
  {
    hide Width, Rows, RowFits;
    var rows := Rows(out);
    var k := |rows| - 1;
    var indent := Spaces(f.prefix);
    RowsExtend(out, indent);
    WidthOfSpaces(rw, f.prefix);
    WidthConcat(rw, rows[k], indent);
    assert Rows(out + indent)[..k] == rows[..k];
  }

  lemma OpenAllFits(rw: Widths, f: Frame, out: string, need: nat, slack: nat)
    requires Open(rw, f, out, need, slack)
    ensures AllFit(rw, f, Rows(out), slack)
  {
    hide Width, Rows;
    var rows := Rows(out);
    assert forall k :: 0 <= k < |rows| - 1 ==> rows[k] == rows[..|rows| - 1][k];
  }

  lemma OpenWeaker(rw: Widths, f: Frame, out: string, need: int, slack: nat, less: int, more: nat)
    requires Open(rw, f, out, need, slack) && slack <= more && less - need <= more - slack
    ensures Open(rw, f, out, less, more)
  {
    hide Width, Rows, OneWord;
    var rows := Rows(out);
    var k := |rows| - 1;
    forall j | 0 <= j < k
      ensures RowFits(rw, rows[..k][j], Room(f, j, more))
    {
      assert RowFits(rw, rows[..k][j], Room(f, j, slack));
    }
  }

  lemma LineRowFits(rw: Widths, f: Frame, start: string, line: string, room: int, slack: nat)
    requires Open(rw, f, start, f.width - f.prefix, slack) && f.prefix <= f.width
    requires '\n' !in line && Width(rw, line) <= room <= f.width - f.prefix
    ensures Open(rw, f, start + line + "\n", f.width, slack) && AllFit(rw, f, Rows(start + line + "\n"), slack)
  {
    hide Open, Width, Rows;
    NothingWide(rw);
    CloseRow(rw, f, start, line, "", f.width - f.prefix, f.width, slack);
    assert start + line + "\n" + "" == start + line + "\n";
    OpenAllFits(rw, f, start + line + "\n", f.width, slack);
  }

  lemma WrappedLineFits(rw: Widths, f: Frame, start: string, line: string, room: int, slack: nat)
    requires rw(' ') == 1 && f.prefix + 10 <= f.width
    requires Open(rw, f, start, f.width - f.prefix, slack) && room <= f.width - f.prefix
    requires Printable(rw, line) && !Blank(line)
    ensures var c := AddWords(rw, Cursor(start, "", 0, room), Fields(line), LayoutOf(rw, f, line));
            && c.row != ""
            && Open(rw, f, c.out + c.row + "\n", f.width, slack)
            && AllFit(rw, f, Rows(c.out + c.row + "\n"), slack)
  {
    hide Open, Width, Rows, AddWords, Fields, LayoutOf, GoodLayout, AllFit, IsWord;
    var (c, lay) := (Cursor(start, "", 0, room), LayoutOf(rw, f, line));
    LayoutIsGood(rw, f, line);
    NothingWide(rw);
    OpenWeaker(rw, f, start, f.width - f.prefix, slack, if room < 2 then 2 else room, slack);
    assert CursorFits(rw, f, c, slack);
    FieldsOf(line);
    var words := Fields(line);
    assert forall k :: 0 <= k < |words| ==> words[k] in words;
    AddWordsFit(rw, f, c, words, lay, slack);
    var d := AddWords(rw, c, words, lay);
    CloseRow(rw, f, d.out, d.row, "", if d.room < 2 then 2 else d.room, f.width, slack);
    assert d.out + d.row + "\n" + "" == d.out + d.row + "\n";
    OpenAllFits(rw, f, d.out + d.row + "\n", f.width, slack);
  }

  /** What wrapping line `i` keeps. */
  lemma WrapLineFits(rw: Widths, f: Frame, out: string, line: string, i: nat, slack: nat)
    requires rw(' ') == 1 && f.prefix + 10 <= f.width
    requires if i == 0 then out == "" && slack == 0 else Open(rw, f, out, f.width, slack)
    requires Printable(rw, line) && '\n' !in line
    ensures var next := WrapLine(rw, f, out, line, i);
            && Open(rw, f, next, f.width, slack + (if WideBlank(rw, f, line, i) then f.prefix else 0))
            && AllFit(rw, f, Rows(next), slack)
  {
    hide Open, Width, AllFit, AddWords, Fields, LayoutOf, Rows, Printable;
    var start := if i == 0 then out else out + Spaces(f.prefix);
    if i == 0 {
      NothingWide(rw);
      EmptyIsOpen(rw, f);
    } else {
      IndentRow(rw, f, out, slack);
    }
    assert Open(rw, f, start, f.width - f.prefix, slack);
    var room := RoomOf(rw, f, line, i);
    if Width(rw, line) <= room {
      LineRowFits(rw, f, start, line, room, slack);
    } else if Blank(line) {
      FieldsOf(line);
      assert Fields(line) == [];
      NoWords(rw, Cursor(start, "", 0, room), LayoutOf(rw, f, line));
      OpenWeaker(rw, f, start, f.width - f.prefix, slack, f.width, slack + f.prefix);
      OpenAllFits(rw, f, start, f.width - f.prefix, slack);
    } else {
      WrappedLineFits(rw, f, start, line, room, slack);
    }
  }

  lemma EmptyIsOpen(rw: Widths, f: Frame)
    requires f.prefix <= f.width
    ensures Open(rw, f, "", f.width - f.prefix, 0)
  {
  }

  lemma NoWords(rw: Widths, c: Cursor, lay: Layout)
    ensures AddWords(rw, c, [], lay) == c
  {
  }

  lemma {:induction false} WrapLinesFit(rw: Widths, f: Frame, out: string, lines: seq<string>, i: nat)
    requires rw(' ') == 1 && f.prefix + 10 <= f.width && i < |lines|
    requires if i == 0 then out == "" else Open(rw, f, out, f.width, Slack(rw, f, lines, i))
    requires forall k :: 0 <= k < |lines| ==> Printable(rw, lines[k]) && '\n' !in lines[k]
    ensures AllFit(rw, f, Rows(WrapLines(rw, f, out, lines, i)), Slack(rw, f, lines, |lines| - 1))
    decreases |lines| - i
  {
    hide WrapLine, Open, AllFit, WideBlank, Rows, Printable;
    var next := WrapLine(rw, f, out, lines[i], i);
    WrapLineFits(rw, f, out, lines[i], i, Slack(rw, f, lines, i));
    if i + 1 < |lines| {
      WrapLinesFit(rw, f, next, lines, i + 1);
    } else {
      assert WrapLines(rw, f, next, lines, i + 1) == next;
    }
  }

  lemma FrameFits(rw: Widths, text: string, width: int, prefix: nat)
    requires rw(' ') == 1 && Printable(rw, text) && prefix + 10 <= FrameFor(width, prefix).width
    ensures var f := FrameFor(width, prefix);
            var lines := Rows(text);
            AllFit(rw, f, Rows(Wrapped(rw, text, width, prefix)), Slack(rw, f, lines, |lines| - 1))
  {
    hide RowFits, WrapLines, TrimNewlines, WideBlank;
    var f := FrameFor(width, prefix);
    var lines := Rows(text);
    RowsAreLines(text);
    forall k | 0 <= k < |lines|
      ensures Printable(rw, lines[k]) && '\n' !in lines[k]
    {
      assert lines[k] in lines;
    }
    WrapLinesFit(rw, f, "", lines, 0);
    var out := WrapLines(rw, f, "", lines, 0);
    TrimKeepsRows(out);
    var rows := Rows(TrimNewlines(out));
    assert forall k :: 0 <= k < |rows| ==> rows[k] == Rows(out)[k];
  }

  /** Every row fits the width that the caller gave, or 80 columns if that is less than 20, the first one
    behind the prefix; or it is a single word.  Overflow by `slack` columns is allowed for. */
  ghost predicate RowsFit(rw: Widths, rows: seq<string>, width: int, prefix: nat, slack: nat) {
    forall k :: 0 <= k < |rows| ==>
      || Width(rw, rows[k]) <= (if width < 20 then 80 else width) - (if k == 0 then prefix else 0) + slack
      || OneWord(rows[k])
  }

  /** Every row fits the width, the first one behind the prefix, or is a single word after its
    indent; each over-wide blank line before the last one costs at most one prefix more. */
  lemma WrapFits(rw: Widths, text: string, width: int, prefix: nat)
    requires rw(' ') == 1 && Printable(rw, text) && prefix + 10 <= (if width < 20 then 80 else width)
    ensures var lines := Rows(text);
            RowsFit(rw, Rows(Wrapped(rw, text, width, prefix)), width, prefix,
                    Slack(rw, FrameFor(width, prefix), lines, |lines| - 1))
  {
    hide Wrapped, Slack;
    FrameFits(rw, text, width, prefix);
  }

  lemma {:induction false} NoSlack(rw: Widths, f: Frame, lines: seq<string>, n: nat)
    requires n <= |lines|
    requires f.prefix == 0 || forall i :: 0 <= i < n ==> !WideBlank(rw, f, lines[i], i)
    ensures Slack(rw, f, lines, n) == 0
  {
    hide WideBlank;
    if n > 0 {
      NoSlack(rw, f, lines, n - 1);
    }
  }

  lemma LineStep(rw: Widths, f: Frame, out: string, lines: seq<string>, i: nat)
    requires i < |lines|
    ensures WrapLines(rw, f, out, lines, i) == WrapLines(rw, f, WrapLine(rw, f, out, lines[i], i), lines, i + 1)
  {
  }

  lemma WordStep(rw: Widths, c: Cursor, words: seq<string>, j: nat, lay: Layout)
    requires j < |words|
    ensures AddWords(rw, c, words[j..], lay) == AddWords(rw, AddWord(rw, c, words[j], lay), words[j + 1..], lay)
  {
    hide AddWord;
    assert words[j..][0] == words[j] && words[j..][1..] == words[j + 1..];
  }

  lemma BreakStep(rw: Widths, c: Cursor, runes: string, lay: Layout)
    ensures BreakWord(rw, c, "", lay) == c
    ensures runes != "" ==>
      var rest := runes[Chunk(rw, runes, c.room)..];
      var d := PlaceChunk(rw, c, runes, lay);
      BreakWord(rw, c, runes, lay) == BreakWord(rw, if rest != "" then NewRow(d, lay).(width := 0) else d, rest, lay)
  {
    hide PlaceChunk, Chunk, NewRow;
  }

  lemma ChunkStep(rw: Widths, runes: string, n: nat, taken: nat, room: int)
    requires n <= |runes| && taken == Width(rw, runes[..n])
    ensures n < |runes| ==> Width(rw, runes[..n + 1]) == taken + rw(runes[n])
    ensures ChunkFrom(rw, runes, n, taken, room) ==
            if n < |runes| && taken + rw(runes[n]) <= room
            then ChunkFrom(rw, runes, n + 1, taken + rw(runes[n]), room)
            else n
  {
    if n < |runes| {
      assert runes[..n + 1] == runes[..n] + [runes[n]];
      WidthConcat(rw, runes[..n], [runes[n]]);
      NothingWide(rw);
    }
  }

  /** Wraps `text` behind a prefix of the given width. */
  method WrapText(rw: Widths, text: string, width: int, prefixWidth: nat) returns (result: string)
    ensures result == Wrapped(rw, text, width, prefixWidth)
  {
    hide Width, Rows, AddWords, BreakWord, ChunkFrom, Fields, LayoutOf, RoomOf, WrapLines, TrimNewlines;
    var f := FrameFor(width, prefixWidth);
    var indent := Spaces(prefixWidth);
    var lines := Rows(text);
    result := "";
    for i := 0 to |lines|
      invariant WrapLines(rw, f, result, lines, i) == WrapLines(rw, f, "", lines, 0)
    {
      LineStep(rw, f, result, lines, i);
      result := WrapOne(rw, f, indent, result, lines[i], i);
    }
    WrappedWhole(rw, f, result, lines);
    result := TrimNewlines(result);
  }

  lemma WrappedWhole(rw: Widths, f: Frame, out: string, lines: seq<string>)
    ensures WrapLines(rw, f, out, lines, |lines|) == out
  {
  }

  /** The body of the loop over the lines. */
  method WrapOne(rw: Widths, f: Frame, indent: string, out: string, line: string, i: nat) returns (result: string)
    requires indent == Spaces(f.prefix)
    ensures result == WrapLine(rw, f, out, line, i)
  {
    hide Width, Rows, AddWords, BreakWord, Fields, LayoutOf, RoomOf, AddWord, NewRow;
    result := if i > 0 then out + indent else out;
    var lay := LayoutOf(rw, f, line);
    var maxW := RoomOf(rw, f, line, i);
    if Width(rw, line) <= maxW {
      result := result + line + "\n";
    } else {
      var curLine, curWidth := "", 0;
      var words := Fields(line);
      ghost var start := Cursor(result, curLine, curWidth, maxW);
      assert words[0..] == words;
      for j := 0 to |words|
        invariant AddWords(rw, Cursor(result, curLine, curWidth, maxW), words[j..], lay)
            == AddWords(rw, start, words, lay)
      {
        WordStep(rw, Cursor(result, curLine, curWidth, maxW), words, j, lay);
        result, curLine, curWidth, maxW := PlaceWord(rw, result, curLine, curWidth, maxW, words[j], lay);
      }
      assert words[|words|..] == [];
      NoWords(rw, Cursor(result, curLine, curWidth, maxW), lay);
      if curLine != "" {
        result := result + curLine + "\n";
      }
    }
  }

  /** The body of the loop over the words of a line. */
  method PlaceWord(rw: Widths, out: string, row: string, width: nat, room: int, word: string, lay: Layout)
    returns (result: string, curLine: string, curWidth: nat, maxW: int)
    ensures Cursor(result, curLine, curWidth, maxW) == AddWord(rw, Cursor(out, row, width, room), word, lay)
  {
    hide Width, BreakWord, ChunkFrom;
    result, curLine, curWidth, maxW := out, row, width, room;
    var wordW := Width(rw, word);
    if wordW > maxW && curWidth == 0 {
      ghost var c := Cursor(out, row, width, room);
      var runes := word;
      while runes != ""
        invariant BreakWord(rw, Cursor(result, curLine, curWidth, maxW), runes, lay) == BreakWord(rw, c, word, lay)
        decreases |runes|
      {
        BreakStep(rw, Cursor(result, curLine, curWidth, maxW), runes, lay);
        NothingWide(rw);
        var chunk, chunkW := 0, 0;
        while chunk < |runes| && chunkW + rw(runes[chunk]) <= maxW
          invariant chunk <= |runes| && chunkW == Width(rw, runes[..chunk])
          invariant ChunkFrom(rw, runes, chunk, chunkW, maxW) == ChunkFrom(rw, runes, 0, 0, maxW)
        {
          ChunkStep(rw, runes, chunk, chunkW, maxW);
          chunkW := chunkW + rw(runes[chunk]);
          chunk := chunk + 1;
        }
        ChunkStep(rw, runes, chunk, chunkW, maxW);
        if chunk == 0 {
          chunk, chunkW := 1, rw(runes[0]);
        }
        if curLine != "" {
          result := result + curLine + "\n" + lay.indent;
          curLine, maxW := "", lay.room;
        }
        curLine, curWidth := curLine + runes[..chunk], chunkW;
        runes := runes[chunk..];
        if runes != "" {
          result := result + curLine + "\n" + lay.indent;
          curLine, curWidth, maxW := "", 0, lay.room;
        }
      }
      BreakStep(rw, Cursor(result, curLine, curWidth, maxW), runes, lay);
    } else if curWidth > 0 && curWidth + 1 + wordW > maxW {
      result := result + curLine + "\n" + lay.indent;
      curLine, curWidth, maxW := word, wordW, lay.room;
    } else if curWidth > 0 {
      curLine, curWidth := curLine + " " + word, curWidth + 1 + wordW;
    } else {
      curLine, curWidth := curLine + word, wordW;
    }
  }
}
