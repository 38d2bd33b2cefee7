/** Exactly when wrapped rows fit, and exactly when continued rows line up with the row above. */
module WrapExact {
  import opened Lines
  import opened WordWrap

  // One line, on its own.

  /** What a line is written as, without the indent before it and the newline behind it. */
  function Piece(rw: Widths, f: Frame, line: string, i: nat): string {
    var room := RoomOf(rw, f, line, i);
    if Width(rw, line) <= room then line
    else
      var c := AddWords(rw, Cursor("", "", 0, room), Fields(line), LayoutOf(rw, f, line));
      c.out + c.row
  }

  function FirstRow(rw: Widths, f: Frame, line: string, i: nat): string {
    Rows(Piece(rw, f, line, i))[0]
  }

  predicate TextFirst(s: string) {
    s != "" && !IsSpace(s[0])
  }

  /** `row` is an indent and text. */
  predicate HasText(row: string, indent: string) {
    indent <= row && TextFirst(row[|indent|..])
  }

  function IndentAt(k: nat, indent: string): string {
    if k == 0 then "" else indent
  }

  /** The finished rows have text behind their indents, and the row being filled starts with text. */
  ghost predicate Laid(c: Cursor, indent: string) {
    var rows := Rows(c.out);
    var k := |rows| - 1;
    && (forall j :: 0 <= j < k ==> HasText(rows[j], IndentAt(j, indent)))
    && rows[k] == IndentAt(k, indent)
    && '\n' !in c.row && (c.row == "" || TextFirst(c.row)) && (c.width > 0 ==> c.row != "")
  }

  lemma FinishRow(c: Cursor, indent: string)
    requires Laid(c, indent) && c.row != ""
    ensures |Rows(c.out + c.row)| == |Rows(c.out)|
    ensures forall j :: 0 <= j < |Rows(c.out)| ==> HasText(Rows(c.out + c.row)[j], IndentAt(j, indent))
  {
    hide Rows;
    RowsExtend(c.out, c.row);
    var (rows, k) := (Rows(c.out), |Rows(c.out)| - 1);
    assert (rows[k] + c.row)[|rows[k]|..] == c.row;
  }

  lemma NewRowLaid(c: Cursor, lay: Layout, row: string, width: nat)
    requires Laid(c, lay.indent) && c.row != "" && '\n' !in lay.indent
    requires '\n' !in row && (row == "" || TextFirst(row)) && (width > 0 ==> row != "")
    ensures Laid(NewRow(c, lay).(row := row, width := width), lay.indent)
  {
    hide Rows;
    FinishRow(c, lay.indent);
    RowsBreak(c.out + c.row);
    RowsExtend(c.out + c.row + "\n", lay.indent);
    assert "" + lay.indent == lay.indent;
    var rows := Rows(c.out + c.row);
    assert (rows + [""])[..|rows|] == rows;
  }

  lemma PieceIsText(word: string, n: nat)
    requires IsWord(word) && n <= |word|
    ensures n > 0 ==> TextFirst(word[..n])
    ensures '\n' !in word[..n] && (word[n..] == "" || IsWord(word[n..]))
  {
  }

  /** A row goes on as it began. */
  lemma RowLaid(c: Cursor, indent: string, more: string, width: nat)
    requires Laid(c, indent) && '\n' !in more && more != "" && (c.row != "" || TextFirst(more))
    ensures Laid(c.(row := c.row + more, width := width), indent)
  {
    hide Rows, HasText;
  }

  lemma {:induction false} BreakWordLaid(rw: Widths, c: Cursor, runes: string, lay: Layout)
    requires Laid(c, lay.indent) && '\n' !in lay.indent && IsWord(runes)
    ensures Laid(BreakWord(rw, c, runes, lay), lay.indent) && BreakWord(rw, c, runes, lay).row != ""
    decreases |runes|
  {
    var n := Chunk(rw, runes, c.room);
    hide Chunk, Width, Laid, IsWord, TextFirst;
    PieceIsText(runes, n);
    var (piece, rest) := (runes[..n], runes[n..]);
    var d := PlaceChunk(rw, c, runes, lay);
    if c.row != "" {
      NewRowLaid(c, lay, piece, Width(rw, piece));
      assert "" + piece == piece;
    } else {
      RowLaid(c, lay.indent, piece, Width(rw, piece));
    }
    BreakStep(rw, c, runes, lay);
    if rest != "" {
      NewRowLaid(d, lay, "", 0);
      assert NewRow(d, lay).(row := "", width := 0) == NewRow(d, lay).(width := 0);
      BreakWordLaid(rw, NewRow(d, lay).(width := 0), rest, lay);
    } else {
      BreakStep(rw, d, rest, lay);
    }
  }

  lemma AddWordLaid(rw: Widths, c: Cursor, word: string, lay: Layout)
    requires Laid(c, lay.indent) && '\n' !in lay.indent && IsWord(word)
    ensures Laid(AddWord(rw, c, word, lay), lay.indent) && AddWord(rw, c, word, lay).row != ""
  {
    BreakWordLaid(rw, c, word, lay);
    WordIsText(word);
    assert c.width > 0 ==> c.row != "";
    hide BreakWord, Width, Laid, IsWord, TextFirst;
    var w := Width(rw, word);
    if c.width > 0 {
      NewRowLaid(c, lay, word, w);
      RowLaid(c, lay.indent, " " + word, c.width + 1 + w);
      assert c.row + " " + word == c.row + (" " + word);
    } else {
      RowLaid(c, lay.indent, word, w);
    }
  }

  lemma WordIsText(word: string)
    requires IsWord(word)
    ensures TextFirst(word) && '\n' !in word
  {
  }

  lemma {:induction false} AddWordsLaid(rw: Widths, c: Cursor, words: seq<string>, lay: Layout)
    requires Laid(c, lay.indent) && '\n' !in lay.indent
    requires forall k :: 0 <= k < |words| ==> IsWord(words[k])
    ensures Laid(AddWords(rw, c, words, lay), lay.indent)
    ensures words != [] ==> AddWords(rw, c, words, lay).row != ""
    decreases |words|
  {
    hide Laid, AddWord, IsWord;
    if words != [] {
      AddWordLaid(rw, c, words[0], lay);
      AddWordsLaid(rw, AddWord(rw, c, words[0], lay), words[1..], lay);
      if |words| == 1 {
        assert words[1..] == [];
      }
    }
  }

  lemma StartLaid(indent: string, room: int)
    ensures Laid(Cursor("", "", 0, room), indent)
  {
  }

  /** The rows of a line that is wrapped: the first one is text, and the others are the indent of the
    line and text. */
  lemma PieceRows(rw: Widths, f: Frame, line: string, i: nat)
    requires Width(rw, line) > RoomOf(rw, f, line, i) && !Blank(line)
    ensures var rows := Rows(Piece(rw, f, line, i));
            forall k :: 0 <= k < |rows| ==> HasText(rows[k], IndentAt(k, LayoutOf(rw, f, line).indent))
    ensures AddWords(rw, Cursor("", "", 0, RoomOf(rw, f, line, i)), Fields(line), LayoutOf(rw, f, line)).row != ""
  {
    hide Rows, Width, AddWords, Fields, LayoutOf, RoomOf, HasText;
    var (lay, c) := (LayoutOf(rw, f, line), Cursor("", "", 0, RoomOf(rw, f, line, i)));
    LayoutIsBlank(rw, f, line);
    StartLaid(lay.indent, c.room);
    FieldsOf(line);
    AddWordsLaid(rw, c, Fields(line), lay);
    FinishRow(AddWords(rw, c, Fields(line), lay), lay.indent);
  }

  // The same line behind what was written before.

  function Behind(s: string, c: Cursor): Cursor {
    c.(out := s + c.out)
  }

  lemma NewRowBehind(s: string, c: Cursor, lay: Layout)
    ensures NewRow(Behind(s, c), lay) == Behind(s, NewRow(c, lay))
  {
    assert s + c.out + c.row + "\n" + lay.indent == s + (c.out + c.row + "\n" + lay.indent);
  }

  lemma {:induction false} BreakWordBehind(rw: Widths, s: string, c: Cursor, runes: string, lay: Layout)
    ensures BreakWord(rw, Behind(s, c), runes, lay) == Behind(s, BreakWord(rw, c, runes, lay))
    decreases |runes|
  {
    hide Chunk, Width, NewRow;
    if runes != "" {
      var d := PlaceChunk(rw, c, runes, lay);
      NewRowBehind(s, c, lay);
      assert PlaceChunk(rw, Behind(s, c), runes, lay) == Behind(s, d);
      NewRowBehind(s, d, lay);
      var rest := runes[Chunk(rw, runes, c.room)..];
      BreakWordBehind(rw, s, if rest != "" then NewRow(d, lay).(width := 0) else d, rest, lay);
    }
  }

  lemma {:induction false} AddWordsBehind(rw: Widths, s: string, c: Cursor, words: seq<string>, lay: Layout)
    ensures AddWords(rw, Behind(s, c), words, lay) == Behind(s, AddWords(rw, c, words, lay))
    decreases |words|
  {
    if words != [] {
      hide BreakWord, Width, NewRow;
      BreakWordBehind(rw, s, c, words[0], lay);
      NewRowBehind(s, c, lay);
      assert AddWord(rw, Behind(s, c), words[0], lay) == Behind(s, AddWord(rw, c, words[0], lay));
      hide AddWord;
      AddWordsBehind(rw, s, AddWord(rw, c, words[0], lay), words[1..], lay);
    }
  }

  function Start(f: Frame, out: string, i: nat): string {
    if i == 0 then out else out + Spaces(f.prefix)
  }

  /** A line is written behind the prefix as it is written on its own, except that an over-wide blank
    line leaves the prefix and no newline. */
  lemma WrapLineIs(rw: Widths, f: Frame, out: string, line: string, i: nat)
    ensures WrapLine(rw, f, out, line, i) ==
            if WideBlank(rw, f, line, i) then Start(f, out, i) else Start(f, out, i) + Piece(rw, f, line, i) + "\n"
  {
    hide Width, AddWords, Fields, LayoutOf, RoomOf;
    var (s, room, lay) := (Start(f, out, i), RoomOf(rw, f, line, i), LayoutOf(rw, f, line));
    var c := Cursor("", "", 0, room);
    if Width(rw, line) > room {
      assert s + "" == s;
      assert Cursor(s, "", 0, room) == Behind(s, c);
      AddWordsBehind(rw, s, c, Fields(line), lay);
      FieldsOf(line);
      if Blank(line) {
        NoWords(rw, c, lay);
      } else {
        PieceRows(rw, f, line, i);
        var d := AddWords(rw, c, Fields(line), lay);
        assert s + d.out + d.row + "\n" == s + (d.out + d.row) + "\n";
      }
    }
  }

  lemma StartRows(f: Frame, out: string, i: nat)
    ensures var rows := Rows(out);
            Rows(Start(f, out, i)) == rows[..|rows| - 1] + [Start(f, rows[|rows| - 1], i)]
  {
    RowsExtend(out, Spaces(f.prefix));
  }

  /** The rows of a line behind what was written before. */
  lemma WrapLineRows(rw: Widths, f: Frame, out: string, line: string, i: nat)
    ensures var (rows, k) := (Rows(out), |Rows(out)| - 1);
            Rows(WrapLine(rw, f, out, line, i)) ==
            rows[..k] +
            if WideBlank(rw, f, line, i) then [Start(f, rows[k], i)]
            else [Start(f, rows[k], i) + FirstRow(rw, f, line, i)] + (Rows(Piece(rw, f, line, i))[1..] + [""])
  {
    hide Rows, Piece, WideBlank, WrapLine, Start;
    WrapLineIs(rw, f, out, line, i);
    StartRows(f, out, i);
    if !WideBlank(rw, f, line, i) {
      var (rows, k) := (Rows(out), |Rows(out)| - 1);
      RowsOfPiece(Start(f, out, i), Piece(rw, f, line, i), rows[..k], Start(f, rows[k], i));
    }
  }

  lemma RowsOfPiece(s: string, t: string, early: seq<string>, last: string)
    requires Rows(s) == early + [last]
    ensures Rows(s + t + "\n") == early + ([last + Rows(t)[0]] + (Rows(t)[1..] + [""]))
  {
    RowsConcat(s, t);
    RowsBreak(s + t);
    hide Rows;
    var (first, later) := ([last + Rows(t)[0]], Rows(t)[1..]);
    assert (early + [last])[..|early|] == early;
    assert early + first + later + [""] == early + (first + (later + [""]));
  }

  // Exactly when rows fit.

  /** What the open row holds when line `i` begins: a prefix for each over-wide blank line in the run
    just before it, except the very first line, which has none. */
  function Held(rw: Widths, f: Frame, lines: seq<string>, i: nat): string
    requires i <= |lines|
  {
    if i > 0 && WideBlank(rw, f, lines[i - 1], i - 1) then Start(f, Held(rw, f, lines, i - 1), i - 1) else ""
  }

  /** No row was finished before line `i`. */
  predicate OnFirstRow(rw: Widths, f: Frame, lines: seq<string>, i: nat)
    requires i <= |lines|
  {
    i == 0 || (WideBlank(rw, f, lines[i - 1], i - 1) && OnFirstRow(rw, f, lines, i - 1))
  }

  function RoomAt(rw: Widths, f: Frame, lines: seq<string>, i: nat): int
    requires i <= |lines|
  {
    if OnFirstRow(rw, f, lines, i) then f.width - f.prefix else f.width
  }

  /** The row on which line `i` begins fits; behind the last line, what was held for a next one fits. */
  predicate StartFits(rw: Widths, f: Frame, lines: seq<string>, i: nat)
    requires i <= |lines|
  {
    var held := Held(rw, f, lines, i);
    if i == |lines| then RowFits(rw, held, RoomAt(rw, f, lines, i))
    else
      WideBlank(rw, f, lines[i], i)
      || RowFits(rw, Start(f, held, i) + FirstRow(rw, f, lines[i], i), RoomAt(rw, f, lines, i))
  }

  /** Every line from `i` on begins on a row that fits. */
  ghost predicate StartsFit(rw: Widths, f: Frame, lines: seq<string>, i: nat) {
    forall k :: i <= k <= |lines| ==> StartFits(rw, f, lines, k)
  }

  /** Where the wrap stands before line `i`. */
  ghost predicate AtLine(rw: Widths, f: Frame, out: string, lines: seq<string>, i: nat)
    requires i <= |lines|
  {
    && Rows(out)[|Rows(out)| - 1] == Held(rw, f, lines, i)
    && (|Rows(out)| == 1 <==> OnFirstRow(rw, f, lines, i))
  }

  /** The rows of a line after its first one fit always. */
  lemma LaterRowsFit(rw: Widths, f: Frame, line: string, i: nat)
    requires rw(' ') == 1 && f.prefix + 10 <= f.width && Printable(rw, line) && '\n' !in line
    requires !WideBlank(rw, f, line, i)
    ensures var rows := Rows(Piece(rw, f, line, i));
            forall k :: 1 <= k < |rows| ==> RowFits(rw, rows[k], f.width)
  {
    hide Width, Rows, AddWords, Fields, LayoutOf, RowFits, Printable;
    if Width(rw, line) <= RoomOf(rw, f, line, i) {
      RowsExtend("", line);
      NoRows();
      assert "" + line == line;
    } else {
      EmptyIsOpen(rw, f);
      WrappedLineFits(rw, f, "", line, RoomOf(rw, f, line, i), 0);
      var t := Piece(rw, f, line, i);
      RowsBreak(t);
      var rows := Rows(t + "\n");
      assert forall k :: 0 <= k < |Rows(t)| ==> rows[k] == Rows(t)[k] && RowFits(rw, rows[k], Room(f, k, 0));
    }
  }

  lemma FitParts(rw: Widths, f: Frame, early: seq<string>, row: string, later: seq<string>)
    requires forall k :: 0 <= k < |later| ==> RowFits(rw, later[k], f.width)
    ensures AllFit(rw, f, early + [row] + later, 0)
            <==> AllFit(rw, f, early, 0) && RowFits(rw, row, Room(f, |early|, 0))
  {
    hide RowFits;
    var all := early + [row] + later;
    assert all[|early|] == row;
    assert forall k :: 0 <= k < |early| ==> all[k] == early[k];
    assert forall k :: |early| < k < |all| ==> all[k] == later[k - |early| - 1];
  }

  lemma LineStepExact(rw: Widths, f: Frame, out: string, lines: seq<string>, i: nat)
    requires rw(' ') == 1 && f.prefix + 10 <= f.width && i < |lines|
    requires Printable(rw, lines[i]) && '\n' !in lines[i] && AtLine(rw, f, out, lines, i)
    ensures var next := WrapLine(rw, f, out, lines[i], i);
            && AtLine(rw, f, next, lines, i + 1)
            && (AllFit(rw, f, Rows(next)[..|Rows(next)| - 1], 0)
                <==> AllFit(rw, f, Rows(out)[..|Rows(out)| - 1], 0) && StartFits(rw, f, lines, i))
  {
    hide Rows, WrapLine, Piece, WideBlank, RowFits, Printable, AllFit;
    var (line, rows, k) := (lines[i], Rows(out), |Rows(out)| - 1);
    WrapLineRows(rw, f, out, line, i);
    var next := Rows(WrapLine(rw, f, out, line, i));
    if WideBlank(rw, f, line, i) {
      assert next[..|next| - 1] == rows[..k];
    } else {
      LaterRowsFit(rw, f, line, i);
      var (row, later) := (Start(f, rows[k], i) + FirstRow(rw, f, line, i), Rows(Piece(rw, f, line, i))[1..]);
      FitParts(rw, f, rows[..k], row, later);
      assert next[..|next| - 1] == rows[..k] + [row] + later;
    }
  }

  lemma {:induction false} WrapLinesExact(rw: Widths, f: Frame, out: string, lines: seq<string>, i: nat)
    requires rw(' ') == 1 && f.prefix + 10 <= f.width && i <= |lines| && AtLine(rw, f, out, lines, i)
    requires forall k :: 0 <= k < |lines| ==> Printable(rw, lines[k]) && '\n' !in lines[k]
    ensures AllFit(rw, f, Rows(WrapLines(rw, f, out, lines, i)), 0)
            <==> AllFit(rw, f, Rows(out)[..|Rows(out)| - 1], 0) && StartsFit(rw, f, lines, i)
    decreases |lines| - i
  {
    hide Rows, WrapLine, AllFit, Printable, Held, OnFirstRow, WideBlank, RowFits;
    if i == |lines| {
      var rows := Rows(out);
      var k := |rows| - 1;
      FitParts(rw, f, rows[..k], rows[k], []);
      assert rows == rows[..k] + [rows[k]] + [];
      assert StartFits(rw, f, lines, i) <==> RowFits(rw, rows[k], Room(f, k, 0));
      WrappedWhole(rw, f, out, lines);
    } else {
      LineStepExact(rw, f, out, lines, i);
      WrapLinesExact(rw, f, WrapLine(rw, f, out, lines[i], i), lines, i + 1);
      LineStep(rw, f, out, lines, i);
    }
  }

  lemma {:induction false} TrimKeepsFit(rw: Widths, f: Frame, s: string)
    requires f.prefix <= f.width
    ensures AllFit(rw, f, Rows(TrimNewlines(s)), 0) <==> AllFit(rw, f, Rows(s), 0)
  {
    if s != "" && s[|s| - 1] == '\n' {
      hide Rows, RowFits;
      var init := s[..|s| - 1];
      TrimKeepsFit(rw, f, init);
      RowsBreak(init);
      assert s == init + "\n";
      NothingFits(rw, f, |Rows(init)|);
      FitParts(rw, f, Rows(init), "", []);
      assert Rows(init) + [""] + [] == Rows(init) + [""];
    }
  }

  lemma NothingFits(rw: Widths, f: Frame, k: nat)
    requires f.prefix <= f.width
    ensures RowFits(rw, "", Room(f, k, 0))
  {
  }

  /** All rows of a text fit if and only if each line begins on a row that fits, behind what was held
    for it by a run of over-wide blank lines; and so does what such a run holds behind the last line. */
  lemma WrapFitsExactly(rw: Widths, text: string, width: int, prefix: nat)
    requires rw(' ') == 1 && Printable(rw, text) && prefix + 10 <= FrameFor(width, prefix).width
    ensures var f := FrameFor(width, prefix);
            AllFit(rw, f, Rows(Wrapped(rw, text, width, prefix)), 0)
            <==> StartsFit(rw, f, Rows(text), 0)
  {
    hide AllFit, StartsFit, Printable, WrapLine, Rows;
    var f := FrameFor(width, prefix);
    var lines := Rows(text);
    var out := WrapLines(rw, f, "", lines, 0);
    LinesArePrintable(rw, text);
    StartOfText(rw, f, lines);
    WrapLinesExact(rw, f, "", lines, 0);
    TrimKeepsFit(rw, f, out);
    assert Wrapped(rw, text, width, prefix) == TrimNewlines(out);
  }

  lemma LinesArePrintable(rw: Widths, text: string)
    requires Printable(rw, text)
    ensures forall k :: 0 <= k < |Rows(text)| ==> Printable(rw, Rows(text)[k]) && '\n' !in Rows(text)[k]
  {
    hide Rows;
    RowsAreLines(text);
    forall k | 0 <= k < |Rows(text)|
      ensures Printable(rw, Rows(text)[k]) && '\n' !in Rows(text)[k]
    {
      assert Rows(text)[k] in Rows(text);
    }
  }

  lemma StartOfText(rw: Widths, f: Frame, lines: seq<string>)
    ensures AtLine(rw, f, "", lines, 0) && AllFit(rw, f, Rows("")[..|Rows("")| - 1], 0)
  {
  }

  /** Only a line behind an over-wide blank line can fail to fit. */
  lemma PlainStartFits(rw: Widths, f: Frame, lines: seq<string>, i: nat)
    requires rw(' ') == 1 && f.prefix + 10 <= f.width && i <= |lines|
    requires i < |lines| ==> Printable(rw, lines[i]) && '\n' !in lines[i]
    requires i == 0 || !WideBlank(rw, f, lines[i - 1], i - 1)
    ensures StartFits(rw, f, lines, i)
  {
    hide Rows, WideBlank, WrapLine, Piece, Open, RowFits;
    if i == |lines| {
      NothingFits(rw, f, if i == 0 then 0 else 1);
    } else if !WideBlank(rw, f, lines[i], i) {
      var out := if i == 0 then "" else "\n";
      BlankRow(rw, f);
      NoRows();
      WrapLineFits(rw, f, out, lines[i], i, 0);
      WrapLineRows(rw, f, out, lines[i], i);
      var rows := Rows(WrapLine(rw, f, out, lines[i], i));
      var k := |Rows(out)| - 1;
      assert rows[k] == Start(f, "", i) + FirstRow(rw, f, lines[i], i);
      assert RowFits(rw, rows[k], Room(f, k, 0));
    }
  }

  lemma BlankRow(rw: Widths, f: Frame)
    requires f.prefix <= f.width
    ensures Rows("\n") == ["", ""] && Open(rw, f, "\n", f.width, 0)
  {
    RowsBreak("");
    assert "" + "\n" == "\n";
    NothingFits(rw, f, 0);
  }

  /** A blank line that fits its row behind the prefix, with the white space that starts it counted once
    more unless it is the first line, as the program does. */
  predicate BlankFits(rw: Widths, line: string, i: nat, width: int, prefix: nat) {
    Blank(line) ==>
      prefix + (if i == 0 then 0 else Width(rw, line[..LeadingLength(line)])) + Width(rw, line)
      <= (if width < 20 then 80 else width)
  }

  /** Without over-wide blank lines before the last line, or without a prefix, there is no overflow. */
  lemma NoWideBlankFits(rw: Widths, text: string, width: int, prefix: nat)
    requires rw(' ') == 1 && Printable(rw, text) && prefix + 10 <= (if width < 20 then 80 else width)
    requires prefix == 0 || forall i :: 0 <= i < |Rows(text)| - 1 ==> BlankFits(rw, Rows(text)[i], i, width, prefix)
    ensures RowsFit(rw, Rows(Wrapped(rw, text, width, prefix)), width, prefix, 0)
  {
    hide Wrapped, Slack, RowsFit, WideBlank, BlankFits;
    WrapFits(rw, text, width, prefix);
    var f := FrameFor(width, prefix);
    forall i | 0 <= i < |Rows(text)| - 1 && prefix > 0
      ensures !WideBlank(rw, f, Rows(text)[i], i)
    {
      NotWideBlank(rw, width, prefix, Rows(text)[i], i);
    }
    NoSlack(rw, f, Rows(text), |Rows(text)| - 1);
  }

  lemma NotWideBlank(rw: Widths, width: int, prefix: nat, line: string, i: nat)
    requires prefix + 10 <= (if width < 20 then 80 else width) && BlankFits(rw, line, i, width, prefix)
    ensures !WideBlank(rw, FrameFor(width, prefix), line, i)
  {
  }

  /** An over-wide blank line and then a line that fills its row. */
  function OverflowingText(f: Frame): string
    requires f.prefix + 10 <= f.width
  {
    Spaces(f.width - f.prefix + 1) + "\n" + FullLine(f)
  }

  function FullLine(f: Frame): string
    requires f.prefix + 10 <= f.width
  {
    "a" + Spaces(f.width - f.prefix - 2) + "a"
  }

  /** Rows do overflow: whatever the width and the prefix, if there is one, the second line of this
    text ends up behind a prefix on the first row, which it would have filled alone. */
  lemma WideBlankOverflows(rw: Widths, width: int, prefix: nat)
    requires rw(' ') == 1 && rw('a') == 1 && 0 < prefix && prefix + 10 <= FrameFor(width, prefix).width
    ensures var f := FrameFor(width, prefix);
            !AllFit(rw, f, Rows(Wrapped(rw, OverflowingText(f), width, prefix)), 0)
  {
    hide AllFit, Wrapped, Rows, StartFits;
    var f := FrameFor(width, prefix);
    var text := OverflowingText(f);
    assert Printable(rw, text);
    TwoLines(Spaces(f.width - f.prefix + 1), FullLine(f));
    SecondStartOverflows(rw, f, Rows(text));
    WrapFitsExactly(rw, text, width, prefix);
  }

  lemma TwoLines(a: string, b: string)
    requires '\n' !in a && '\n' !in b
    ensures Rows(a + "\n" + b) == [a, b]
  {
    RowsExtend("", a);
    assert "" + a == a;
    RowsBreak(a);
    RowsExtend(a + "\n", b);
    assert "" + b == b;
  }

  lemma FullLineIs(rw: Widths, f: Frame)
    requires rw(' ') == 1 && rw('a') == 1 && f.prefix + 10 <= f.width
    ensures var line := FullLine(f);
            && Width(rw, line) == f.width - f.prefix && !Blank(line)
            && Piece(rw, f, line, 1) == line && Rows(line) == [line]
  {
    var line := FullLine(f);
    FullLineWidth(rw, f);
    assert LeadingLength(line) == 0 && line[..0] == "";
    NothingWide(rw);
    assert !IsSpace(line[0]);
    hide Width, FullLine;
    OneRow(line);
  }

  lemma FullLineWidth(rw: Widths, f: Frame)
    requires rw(' ') == 1 && rw('a') == 1 && f.prefix + 10 <= f.width
    ensures Width(rw, FullLine(f)) == f.width - f.prefix
  {
    var m := f.width - f.prefix - 2;
    WidthOfSpaces(rw, m);
    WidthConcat(rw, "a" + Spaces(m), "a");
    WidthConcat(rw, "a", Spaces(m));
    assert Width(rw, "a") == rw('a') + Width(rw, "");
  }

  /** Behind one more prefix the line is too wide for the first row, and it is two words. */
  lemma FullLineOverflows(rw: Widths, f: Frame)
    requires rw(' ') == 1 && rw('a') == 1 && 0 < f.prefix && f.prefix + 10 <= f.width
    ensures !RowFits(rw, Spaces(f.prefix) + FullLine(f), f.width - f.prefix)
  {
    hide Width;
    var line := FullLine(f);
    var row := Spaces(f.prefix) + line;
    FullLineIs(rw, f);
    WidthOfSpaces(rw, f.prefix);
    WidthConcat(rw, Spaces(f.prefix), line);
    assert row[..f.prefix] == Spaces(f.prefix) && row[f.prefix] == 'a';
    LeadingIs(row, f.prefix);
    assert row[f.prefix..] == line;
    assert line[1] == ' ';
  }

  lemma SecondStartOverflows(rw: Widths, f: Frame, lines: seq<string>)
    requires rw(' ') == 1 && rw('a') == 1 && 0 < f.prefix && f.prefix + 10 <= f.width
    requires lines == [Spaces(f.width - f.prefix + 1), FullLine(f)]
    ensures !StartFits(rw, f, lines, 1)
  {
    hide Rows, Width, RowFits, Piece, FullLine;
    FullLineIs(rw, f);
    FullLineOverflows(rw, f);
    WidthOfSpaces(rw, f.width - f.prefix + 1);
    assert WideBlank(rw, f, lines[0], 0);
    assert Held(rw, f, lines, 0) == "" && Held(rw, f, lines, 1) == "" && OnFirstRow(rw, f, lines, 1);
    assert Start(f, "", 1) + FirstRow(rw, f, lines[1], 1) == Spaces(f.prefix) + FullLine(f);
  }

  // Exactly when continued rows line up.

  /** The column at which the text of a row begins. */
  function TextColumn(rw: Widths, row: string): nat {
    Width(rw, row[..LeadingLength(row)])
  }

  function BulletOf(line: string): nat {
    BulletExtra(line[LeadingLength(line)..])
  }

  /** Whether the indent for the continued rows leaves them ten columns. */
  predicate HasRoom(rw: Widths, f: Frame, line: string) {
    f.width - (f.prefix + Width(rw, line[..LeadingLength(line)]) + BulletOf(line)) >= 10
  }

  /** How far the text of the first row is from the column of the prefix, when the row is the very
    first one, behind the prefix that the caller printed, or a later one, and holds `held`. */
  function Shift(rw: Widths, f: Frame, firstRow: bool, held: string, i: nat): int {
    (if firstRow then f.prefix else 0) + Width(rw, held) + (if i > 0 then f.prefix else 0) - f.prefix
  }

  /** Continued rows line up with the text of a first row that is shifted, behind its bullet: the
    leading white space makes up for the shift; or, when the indent would leave too little room, there
    is neither a shift nor a bullet. */
  predicate LinesUp(rw: Widths, f: Frame, line: string, shift: int) {
    if HasRoom(rw, f, line) then Width(rw, line[..LeadingLength(line)]) == shift else shift + BulletOf(line) == 0
  }

  lemma IndentWidth(rw: Widths, f: Frame, line: string)
    requires rw(' ') == 1
    ensures Width(rw, LayoutOf(rw, f, line).indent) ==
            if HasRoom(rw, f, line) then f.prefix + Width(rw, line[..LeadingLength(line)]) + BulletOf(line)
            else f.prefix
  {
    hide Width, BulletExtra;
    var lead := line[..LeadingLength(line)];
    WidthOfSpaces(rw, f.prefix);
    WidthOfSpaces(rw, BulletOf(line));
    WidthConcat(rw, Spaces(f.prefix), lead);
    WidthConcat(rw, Spaces(f.prefix) + lead, Spaces(BulletOf(line)));
  }

  lemma ColumnOf(rw: Widths, row: string, indent: string)
    requires IndentOnly(indent) && HasText(row, indent)
    ensures TextColumn(rw, row) == Width(rw, indent)
  {
    assert row[..|indent|] == indent;
    assert row[|indent|] == row[|indent|..][0];
    LeadingIs(row, |indent|);
  }

  /** A line that is wrapped, behind any earlier output: the column of the text of its first row, that
    of each row which continues it, and each of these lines up behind the bullet of the first row if
    and only if `LinesUp`. */
  lemma ContinuationsLineUp(rw: Widths, f: Frame, out: string, line: string, i: nat)
    requires rw(' ') == 1 && !Blank(line) && Width(rw, line) > RoomOf(rw, f, line, i)
    requires IndentOnly(Rows(out)[|Rows(out)| - 1])
    ensures var (rows, k) := (Rows(WrapLine(rw, f, out, line, i)), |Rows(out)| - 1);
            var shift := Shift(rw, f, k == 0, Rows(out)[k], i);
            && k + 1 < |rows| && rows[|rows| - 1] == ""
            && (if k == 0 then f.prefix else 0) + TextColumn(rw, rows[k]) == f.prefix + shift
            && (forall j :: k <= j < |rows| - 1 ==> rows[j] != "")
            && (forall j :: k < j < |rows| - 1 ==>
                  && TextColumn(rw, rows[j]) == Width(rw, LayoutOf(rw, f, line).indent)
                  && (TextColumn(rw, rows[j]) == f.prefix + shift + BulletOf(line) <==> LinesUp(rw, f, line, shift)))
  {
    hide Rows, WrapLine, Piece, Width, LayoutOf, RoomOf, HasRoom, BulletOf;
    WrapLineRows(rw, f, out, line, i);
    PieceRows(rw, f, line, i);
    LayoutIsBlank(rw, f, line);
    IndentWidth(rw, f, line);
    var (rows, k) := (Rows(WrapLine(rw, f, out, line, i)), |Rows(out)| - 1);
    var (piece, indent) := (Rows(Piece(rw, f, line, i)), LayoutOf(rw, f, line).indent);
    var (held, start) := (Rows(out)[k], Start(f, Rows(out)[k], i));
    WidthOfSpaces(rw, f.prefix);
    WidthConcat(rw, held, Spaces(f.prefix));
    assert rows[k] == start + piece[0];
    assert (start + piece[0])[|start|..] == piece[0];
    ColumnOf(rw, start + piece[0], start);
    forall j | k < j < |rows| - 1
      ensures TextColumn(rw, rows[j]) == Width(rw, indent) && rows[j] != ""
    {
      assert rows[j] == piece[j - k];
      ColumnOf(rw, rows[j], indent);
    }
  }

  // The same for whole texts.

  /** What is written before line `n`. */
  function Written(rw: Widths, f: Frame, lines: seq<string>, n: nat): string
    requires n <= |lines|
  {
    if n == 0 then "" else WrapLine(rw, f, Written(rw, f, lines, n - 1), lines[n - 1], n - 1)
  }

  /** The row on which line `i` begins. */
  function FirstRowOf(rw: Widths, f: Frame, lines: seq<string>, i: nat): nat
    requires i <= |lines|
  {
    |Rows(Written(rw, f, lines, i))| - 1
  }

  lemma {:induction false} WrittenAt(rw: Widths, f: Frame, lines: seq<string>, i: nat)
    requires i <= |lines|
    ensures AtLine(rw, f, Written(rw, f, lines, i), lines, i) && IndentOnly(Held(rw, f, lines, i))
  {
    hide Rows, WrapLine, Piece, WideBlank;
    if i == 0 {
      NoRows();
    } else {
      WrittenAt(rw, f, lines, i - 1);
      WrapLineRows(rw, f, Written(rw, f, lines, i - 1), lines[i - 1], i - 1);
    }
  }

  lemma {:induction false} WrittenAll(rw: Widths, f: Frame, lines: seq<string>, i: nat)
    requires i <= |lines|
    ensures WrapLines(rw, f, Written(rw, f, lines, i), lines, i) == Written(rw, f, lines, |lines|)
    decreases |lines| - i
  {
    hide WrapLine;
    if i < |lines| {
      WrittenAll(rw, f, lines, i + 1);
      LineStep(rw, f, Written(rw, f, lines, i), lines, i);
    } else {
      WrappedWhole(rw, f, Written(rw, f, lines, i), lines);
    }
  }

  /** Rows that are finished stay. */
  lemma {:induction false} FinishedRowsStay(rw: Widths, f: Frame, lines: seq<string>, i: nat, n: nat)
    requires i <= n <= |lines|
    ensures var (early, late) := (Rows(Written(rw, f, lines, i)), Rows(Written(rw, f, lines, n)));
            |early| <= |late| && late[..|early| - 1] == early[..|early| - 1]
  {
    hide Rows, WrapLine, Piece, WideBlank;
    if i < n {
      FinishedRowsStay(rw, f, lines, i, n - 1);
      WrapLineRows(rw, f, Written(rw, f, lines, n - 1), lines[n - 1], n - 1);
      var (early, mid) := (Rows(Written(rw, f, lines, i)), Rows(Written(rw, f, lines, n - 1)));
      var late := Rows(Written(rw, f, lines, n));
      assert late[..|mid| - 1] == mid[..|mid| - 1];
      assert late[..|early| - 1] == late[..|mid| - 1][..|early| - 1] == mid[..|early| - 1];
    }
  }

  /** Trimming drops empty rows only. */
  lemma {:induction false} TrimDropsEmptyRows(s: string)
    ensures |Rows(TrimNewlines(s))| <= |Rows(s)|
    ensures forall k :: |Rows(TrimNewlines(s))| <= k < |Rows(s)| ==> Rows(s)[k] == ""
  {
    if s != "" && s[|s| - 1] == '\n' {
      TrimDropsEmptyRows(s[..|s| - 1]);
    }
  }

  function ShiftOf(rw: Widths, f: Frame, lines: seq<string>, i: nat): int
    requires i <= |lines|
  {
    Shift(rw, f, OnFirstRow(rw, f, lines, i), Held(rw, f, lines, i), i)
  }

  /** In the wrap of any text, the rows that continue a wrapped line line up with its first row if and
    only if `LinesUp` for the shift that the over-wide blank lines before it cause. */
  lemma TextLinesUp(rw: Widths, text: string, width: int, prefix: nat, i: nat)
    requires rw(' ') == 1 && i < |Rows(text)|
    requires var (f, line) := (FrameFor(width, prefix), Rows(text)[i]);
             !Blank(line) && Width(rw, line) > RoomOf(rw, f, line, i)
    ensures var (f, lines) := (FrameFor(width, prefix), Rows(text));
            var (rows, line, shift) := (Rows(Wrapped(rw, text, width, prefix)), lines[i], ShiftOf(rw, f, lines, i));
            var (k, n) := (FirstRowOf(rw, f, lines, i), FirstRowOf(rw, f, lines, i + 1));
            && k < n <= |rows|
            && (if k == 0 then prefix else 0) + TextColumn(rw, rows[k]) == prefix + shift
            && (forall j :: k < j < n ==>
                  (TextColumn(rw, rows[j]) == prefix + shift + BulletOf(line) <==> LinesUp(rw, f, line, shift)))
  {
    hide Rows, Width, WrapLine, WrapLines, TrimNewlines, LayoutOf, RoomOf, LinesUp, BulletOf, TextColumn, Held;
    hide OnFirstRow;
    var (f, lines) := (FrameFor(width, prefix), Rows(text));
    var (out, next, all) := (Written(rw, f, lines, i), Written(rw, f, lines, i + 1), Written(rw, f, lines, |lines|));
    WrittenAt(rw, f, lines, i);
    ContinuationsLineUp(rw, f, out, lines[i], i);
    WrittenAll(rw, f, lines, 0);
    assert Wrapped(rw, text, width, prefix) == TrimNewlines(all);
    FinishedRowsStay(rw, f, lines, i + 1, |lines|);
    TrimDropsEmptyRows(all);
    TrimKeepsRows(all);
    var (k, n) := (|Rows(out)| - 1, |Rows(next)| - 1);
    assert Rows(all)[n - 1] == Rows(all)[..n][n - 1] == Rows(next)[..n][n - 1] != "";
    assert forall j :: k <= j < n ==> Rows(TrimNewlines(all))[j] == Rows(all)[j] == Rows(all)[..n][j] == Rows(next)[j];
  }

  lemma FieldsSkip(c: char, s: string)
    requires IsSpace(c)
    ensures Fields([c] + s) == Fields(s)
  {
    assert ([c] + s)[1..] == s;
  }

  lemma FieldsWord(word: string, s: string)
    requires IsWord(word) && (s == "" || IsSpace(s[0]))
    ensures Fields(word + s) == [word] + Fields(s)
  {
    var line := word + s;
    assert line[0] == word[0];
    assert forall k :: 0 <= k < |word| ==> line[k] == word[k];
    assert s != "" ==> line[|word|] == s[0];
    assert WordLength(line) == |word|;
    assert line[..|word|] == word && line[|word|..] == s;
  }

  lemma TwoFields(u: string, v: string)
    requires IsWord(u) && IsWord(v)
    ensures Fields("  " + u + " " + v) == [u, v]
  {
    hide IsWord, Fields;
    assert Fields("") == [] by {
      NoFields();
    }
    var rest := u + (" " + v);
    assert "  " + u + " " + v == " " + (" " + rest);
    FieldsSkip(' ', " " + rest);
    FieldsSkip(' ', rest);
    FieldsWord(u, " " + v);
    FieldsSkip(' ', v);
    FieldsWord(v, "");
    assert v + "" == v;
  }

  lemma NoFields()
    ensures Fields("") == []
  {
  }

  lemma NoBullet(trimmed: string)
    requires trimmed != "" && trimmed[0] !in {'*', '-', '+'} && !IsDigit(trimmed[0])
    ensures BulletExtra(trimmed) == 0
  {
  }

  /** They do not line up when a wrapped line starts with white space: two words that do not fit in one
    row, behind two spaces, come out two columns apart. */
  lemma LeadingSpaceMisaligns(rw: Widths, f: Frame, u: string, v: string)
    requires rw(' ') == 1 && IsWord(u) && IsWord(v) && 0 < Width(rw, u) <= f.First() < Width(rw, u) + 1 + Width(rw, v)
    requires f.prefix + 12 <= f.width && BulletOf("  " + u + " " + v) == 0
    ensures var rows := Rows(WrapLine(rw, f, "", "  " + u + " " + v, 0));
            && rows == [u, Spaces(f.prefix) + "  " + v, ""]
            && TextColumn(rw, rows[0]) == 0 && TextColumn(rw, rows[1]) == f.prefix + 2
  {
    hide Width, Rows, Fields, BulletOf, AddWords, LayoutOf, WrapLine, HasRoom;
    var line := "  " + u + " " + v;
    TwoSpaces(rw, u, v);
    IndentOfTwo(rw, f, line);
    TwoFields(u, v);
    WordIsText(v);
    TwoWordsWrap(rw, f, "", line, 0, u, v);
    var indent := Spaces(f.prefix) + "  ";
    WordIsText(u);
    TwoRows("", u, indent, v);
    assert u == "" + u && u[|""|..] == u && (indent + v)[|indent|..] == v;
    ColumnOf(rw, u, "");
    ColumnOf(rw, indent + v, indent);
    WidthOfSpaces(rw, f.prefix);
    WidthConcat(rw, Spaces(f.prefix), "  ");
    NothingWide(rw);
  }

  lemma TwoWordsPlaced(rw: Widths, s: string, u: string, v: string, room: int, lay: Layout)
    requires 0 < Width(rw, u) <= room < Width(rw, u) + 1 + Width(rw, v)
    ensures AddWords(rw, Cursor(s, "", 0, room), [u, v], lay)
         == Cursor(s + u + "\n" + lay.indent, v, Width(rw, v), lay.room)
  {
    hide Width, BreakWord;
    var (c, d) := (Cursor(s, "", 0, room), Cursor(s, u, Width(rw, u), room));
    var e := Cursor(s + u + "\n" + lay.indent, v, Width(rw, v), lay.room);
    assert "" + u == u;
    assert AddWord(rw, c, u, lay) == d && AddWord(rw, d, v, lay) == e;
    hide AddWord;
    assert [u, v][0..] == [u, v] && [u, v][1..] == [v] && [u, v][2..] == [];
    WordStep(rw, c, [u, v], 0, lay);
    WordStep(rw, d, [u, v], 1, lay);
    NoWords(rw, e, lay);
  }

  /** A line of two words that need two rows. */
  lemma TwoWordsWrap(rw: Widths, f: Frame, out: string, line: string, i: nat, u: string, v: string)
    requires Fields(line) == [u, v] && Width(rw, line) > RoomOf(rw, f, line, i) && v != ""
    requires 0 < Width(rw, u) <= RoomOf(rw, f, line, i) < Width(rw, u) + 1 + Width(rw, v)
    ensures WrapLine(rw, f, out, line, i) == Start(f, out, i) + (u + "\n" + (LayoutOf(rw, f, line).indent + v)) + "\n"
  {
    hide Width, Fields, LayoutOf, AddWords, RoomOf, Start;
    var (lay, s) := (LayoutOf(rw, f, line), Start(f, out, i));
    TwoWordsPlaced(rw, s, u, v, RoomOf(rw, f, line, i), lay);
    assert s == if i == 0 then out else out + Spaces(f.prefix) by {
      StartIs(f, out, i);
    }
    assert s + u + "\n" + lay.indent + v + "\n" == s + (u + "\n" + (lay.indent + v)) + "\n";
  }

  lemma StartIs(f: Frame, out: string, i: nat)
    ensures Start(f, out, i) == if i == 0 then out else out + Spaces(f.prefix)
  {
  }

  lemma TwoSpaces(rw: Widths, u: string, v: string)
    requires rw(' ') == 1 && IsWord(u)
    ensures var line := "  " + u + " " + v;
            && LeadingLength(line) == 2 && line[..2] == "  " && Width(rw, "  ") == 2
            && Width(rw, line) == 2 + Width(rw, u) + 1 + Width(rw, v)
  {
    var line := "  " + u + " " + v;
    assert line[..2] == "  " && line[2] == u[0];
    LeadingIs(line, 2);
    WidthConcat(rw, "  " + u + " ", v);
    WidthConcat(rw, "  " + u, " ");
    WidthConcat(rw, "  ", u);
    WidthConcat(rw, " ", " ");
    assert " " + " " == "  ";
    WidthOfSpace(rw);
  }

  lemma IndentOfTwo(rw: Widths, f: Frame, line: string)
    requires rw(' ') == 1 && f.prefix + 12 <= f.width && BulletOf(line) == 0
    requires LeadingLength(line) == 2 && line[..2] == "  " && Width(rw, "  ") == 2
    ensures LayoutOf(rw, f, line) == Layout(Spaces(f.prefix) + "  ", f.width - f.prefix - 2)
  {
    hide Width, BulletExtra;
    WidthOfSpaces(rw, 0);
    assert Spaces(f.prefix) + "  " + Spaces(0) == Spaces(f.prefix) + "  ";
  }

  /** The same for a text of that line alone. */
  lemma LeadingSpaceMisalignsText(rw: Widths, width: int, prefix: nat, u: string, v: string)
    requires rw(' ') == 1 && IsWord(u) && IsWord(v)
    requires var f := FrameFor(width, prefix);
             && 0 < Width(rw, u) <= f.First() < Width(rw, u) + 1 + Width(rw, v) && f.prefix + 12 <= f.width
    requires BulletOf("  " + u + " " + v) == 0
    ensures var rows := Rows(Wrapped(rw, "  " + u + " " + v, width, prefix));
            && rows == [u, Spaces(prefix) + "  " + v]
            && TextColumn(rw, rows[0]) == 0 && TextColumn(rw, rows[1]) == prefix + 2
  {
    var f := FrameFor(width, prefix);
    var line := "  " + u + " " + v;
    LeadingSpaceMisaligns(rw, f, u, v);
    hide Rows, Width, WrapLine, TrimNewlines, BulletOf, TextColumn;
    WordIsText(u);
    WordIsText(v);
    OneRow(line);
    var out := WrapLine(rw, f, "", line, 0);
    LineStep(rw, f, "", [line], 0);
    WrappedWhole(rw, f, out, [line]);
    assert Wrapped(rw, line, width, prefix) == TrimNewlines(out);
    TrimLastRow(out, [u, Spaces(prefix) + "  " + v]);
  }

  /** Nor do they behind an over-wide blank first line, even without leading white space: the first of
    two rows ends up behind two prefixes, the one that the caller printed and its own. */
  lemma WideBlankMisaligns(rw: Widths, width: int, prefix: nat, u: string, v: string)
    requires rw(' ') == 1 && IsWord(u) && IsWord(v) && prefix + 10 <= FrameFor(width, prefix).width
    requires 0 < Width(rw, u) <= FrameFor(width, prefix).width - prefix < Width(rw, u) + 1 + Width(rw, v)
    requires BulletOf(u + " " + v) == 0
    ensures var text := Spaces(FrameFor(width, prefix).width - prefix + 1) + "\n" + (u + " " + v);
            var rows := Rows(Wrapped(rw, text, width, prefix));
            && rows == [Spaces(prefix) + u, Spaces(prefix) + v]
            && prefix + TextColumn(rw, rows[0]) == 2 * prefix && TextColumn(rw, rows[1]) == prefix
  {
    var (f, line) := (FrameFor(width, prefix), u + " " + v);
    WordIsText(u);
    WordIsText(v);
    AfterWideBlank(rw, width, prefix, line);
    PlainTwoWords(rw, f, u, v);
    ColumnBehindSpaces(rw, prefix, u);
    ColumnBehindSpaces(rw, prefix, v);
    hide Rows, Width, WrapLine, Wrapped, TrimNewlines, TextColumn, IsWord, BulletOf, TextFirst;
    TrimLastRow(WrapLine(rw, f, "", line, 1), [Spaces(prefix) + u, Spaces(prefix) + v]);
  }

  lemma ColumnBehindSpaces(rw: Widths, n: nat, word: string)
    requires rw(' ') == 1 && IsWord(word)
    ensures TextColumn(rw, Spaces(n) + word) == n && Spaces(n) + word != ""
  {
    hide Width;
    WidthOfSpaces(rw, n);
    assert (Spaces(n) + word)[|Spaces(n)|..] == word;
    ColumnOf(rw, Spaces(n) + word, Spaces(n));
  }

  /** An over-wide blank first line leaves nothing, and the next line is written on the first row. */
  lemma AfterWideBlank(rw: Widths, width: int, prefix: nat, line: string)
    requires rw(' ') == 1 && '\n' !in line && prefix + 10 <= FrameFor(width, prefix).width
    ensures var f := FrameFor(width, prefix);
            Wrapped(rw, Spaces(f.width - prefix + 1) + "\n" + line, width, prefix)
            == TrimNewlines(WrapLine(rw, f, "", line, 1))
  {
    var f := FrameFor(width, prefix);
    var blank := Spaces(f.width - prefix + 1);
    WidthOfSpaces(rw, f.width - prefix + 1);
    assert WideBlank(rw, f, blank, 0);
    hide Width, Rows, WrapLine, TrimNewlines, WideBlank, Piece;
    WrapLineIs(rw, f, "", blank, 0);
    TwoLines(blank, line);
    LineStep(rw, f, "", [blank, line], 0);
    LineStep(rw, f, "", [blank, line], 1);
    WrappedWhole(rw, f, WrapLine(rw, f, "", line, 1), [blank, line]);
  }

  lemma PlainTwoWords(rw: Widths, f: Frame, u: string, v: string)
    requires rw(' ') == 1 && IsWord(u) && IsWord(v) && f.prefix + 10 <= f.width
    requires 0 < Width(rw, u) <= f.width - f.prefix < Width(rw, u) + 1 + Width(rw, v)
    requires BulletOf(u + " " + v) == 0
    ensures Rows(WrapLine(rw, f, "", u + " " + v, 1)) == [Spaces(f.prefix) + u, Spaces(f.prefix) + v, ""]
  {
    var (line, indent) := (u + " " + v, Spaces(f.prefix));
    PlainLine(rw, f, u, v);
    PlainFields(u, v);
    WordIsText(u);
    WordIsText(v);
    hide *;
    TwoWordsWrap(rw, f, "", line, 1, u, v);
    StartIs(f, "", 1);
    NothingBefore(indent);
    TwoRows(indent, u, indent, v);
  }

  lemma NothingBefore(s: string)
    ensures "" + s == s
  {
  }

  lemma TwoRows(s: string, u: string, indent: string, v: string)
    requires '\n' !in s && '\n' !in u && '\n' !in indent && '\n' !in v
    ensures Rows(s + (u + "\n" + (indent + v)) + "\n") == [s + u, indent + v, ""]
  {
    hide Rows;
    var text := s + u + "\n" + (indent + v);
    assert s + (u + "\n" + (indent + v)) == text;
    TwoLines(s + u, indent + v);
    RowsBreak(text);
  }

  lemma PlainLine(rw: Widths, f: Frame, u: string, v: string)
    requires rw(' ') == 1 && IsWord(u) && f.prefix + 10 <= f.width && BulletOf(u + " " + v) == 0
    ensures var line := u + " " + v;
            && Width(rw, line) == Width(rw, u) + 1 + Width(rw, v)
            && RoomOf(rw, f, line, 1) == f.width - f.prefix && LayoutOf(rw, f, line).indent == Spaces(f.prefix)
  {
    var line := u + " " + v;
    assert line[0] == u[0];
    assert LeadingLength(line) == 0 && line[..0] == "";
    hide Width, BulletExtra;
    NothingWide(rw);
    WidthConcat(rw, u + " ", v);
    WidthConcat(rw, u, " ");
    WidthOfSpace(rw);
    WidthOfSpaces(rw, 0);
    assert Spaces(f.prefix) + "" + Spaces(0) == Spaces(f.prefix);
  }

  lemma PlainFields(u: string, v: string)
    requires IsWord(u) && IsWord(v)
    ensures Fields(u + " " + v) == [u, v]
  {
    hide IsWord, Fields;
    assert Fields("") == [] by {
      NoFields();
    }
    assert u + " " + v == u + (" " + v);
    FieldsWord(u, " " + v);
    FieldsSkip(' ', v);
    FieldsWord(v, "");
    assert v + "" == v;
  }

  /** One such line, in twenty columns and without a prefix. */
  lemma MisalignedLine()
    ensures var (rw: Widths, u, v) := (_ => 1, "aaaaaaaaaa", "bbbbbbbbbb");
            Rows(Wrapped(rw, "  " + u + " " + v, 20, 0)) == [u, "  " + v]
  {
    hide Rows, Wrapped, Width, TextColumn, IsSpace, BulletExtra;
    var rw: Widths := _ => 1;
    var (u, v) := ("aaaaaaaaaa", "bbbbbbbbbb");
    LettersAreInk();
    OnesWidth(u);
    OnesWidth(v);
    TwoSpaces(rw, u, v);
    assert ("  " + u + " " + v)[2..] == u + " " + v;
    NoBullet(u + " " + v);
    LeadingSpaceMisalignsText(rw, 20, 0, u, v);
    assert Spaces(0) + "  " + v == "  " + v;
  }

  /** One such text, in twenty columns behind a prefix of three. */
  lemma MisalignedBehindBlank()
    ensures var (rw: Widths, u, v) := (_ => 1, "aaaaaaaaaa", "bbbbbbbbbb");
            Rows(Wrapped(rw, Spaces(18) + "\n" + (u + " " + v), 20, 3)) == [Spaces(3) + u, Spaces(3) + v]
  {
    hide Rows, Wrapped, Width, TextColumn, IsSpace, BulletExtra;
    var rw: Widths := _ => 1;
    var (u, v) := ("aaaaaaaaaa", "bbbbbbbbbb");
    LettersAreInk();
    OnesWidth(u);
    OnesWidth(v);
    NoBullet(u + " " + v);
    assert LeadingLength(u + " " + v) == 0 && (u + " " + v)[0..] == u + " " + v;
    WideBlankMisaligns(rw, 20, 3, u, v);
  }

  lemma LettersAreInk()
    ensures !IsSpace('a') && !IsSpace('b')
  {
  }

  lemma OneRow(line: string)
    requires '\n' !in line
    ensures Rows(line) == [line]
  {
    hide Rows;
    RowsExtend("", line);
    NoRows();
    assert "" + line == line;
  }

  lemma {:induction false} OnesWidth(s: string)
    ensures Width(_ => 1, s) == |s|
  {
    if s != "" {
      OnesWidth(s[1..]);
    }
  }

  lemma TrimLastRow(out: string, rows: seq<string>)
    requires rows != [] && rows[|rows| - 1] != "" && Rows(out) == rows + [""]
    ensures Rows(TrimNewlines(out)) == rows
  {
    LastRowIsEmpty(out);
    assert (rows + [""])[|rows|] == "" && |Rows("")| == 1;
    var init := out[..|out| - 1];
    assert out == init + "\n";
    RowsBreak(init);
    assert (Rows(init) + [""])[..|Rows(init)|] == Rows(init);
    assert (rows + [""])[..|rows|] == rows;
    LastRowIsEmpty(init);
  }

  lemma LastRowIsEmpty(s: string)
    ensures Rows(s)[|Rows(s)| - 1] == "" <==> s == "" || s[|s| - 1] == '\n'
  {
  }
}
