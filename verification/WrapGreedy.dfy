/** Where rows are broken: as late as they can be, so that no other way of breaking the same words or
  runes needs fewer rows; and what is not broken at all. */
module WrapGreedy {
  import opened Lines
  import opened WordWrap
  import opened WrapExact

  // Rows of words.

  function Unwords(words: seq<string>): (row: string)
    requires words != []
  {
    if |words| == 1 then words[0] else Unwords(words[..|words| - 1]) + " " + words[|words| - 1]
  }

  /** The width of the words `a..b` with a space between each two. */
  function RowWidth(rw: Widths, words: seq<string>, a: nat, b: nat): nat
    requires a < b <= |words|
  {
    Width(rw, Unwords(words[a..b]))
  }

  lemma RowWidthGrows(rw: Widths, words: seq<string>, a: nat, b: nat)
    requires a < b < |words| && rw(' ') == 1
    ensures Unwords(words[a..b + 1]) == Unwords(words[a..b]) + " " + words[b]
    ensures RowWidth(rw, words, a, b + 1) == RowWidth(rw, words, a, b) + 1 + Width(rw, words[b])
  {
    hide Width;
    assert words[a..b + 1][..b - a] == words[a..b];
    WidthConcat(rw, Unwords(words[a..b]) + " ", words[b]);
    WidthConcat(rw, Unwords(words[a..b]), " ");
    WidthOfSpace(rw);
  }

  lemma {:induction false} RowWidthLeft(rw: Widths, words: seq<string>, a: nat, b: nat)
    requires a + 1 < b <= |words| && rw(' ') == 1
    ensures RowWidth(rw, words, a, b) >= RowWidth(rw, words, a + 1, b)
    decreases b
  {
    hide Width, Unwords;
    RowWidthGrows(rw, words, a, b - 1);
    if a + 2 < b {
      RowWidthGrows(rw, words, a + 1, b - 1);
      RowWidthLeft(rw, words, a, b - 1);
    } else {
      OneWordRow(rw, words, a + 1);
    }
  }

  lemma OneWordRow(rw: Widths, words: seq<string>, a: nat)
    requires a < |words|
    ensures Unwords(words[a..a + 1]) == words[a]
  {
  }

  /** Fewer words are no wider. */
  lemma {:induction false} RowWidthInner(rw: Widths, words: seq<string>, a: nat, a': nat, b': nat, b: nat)
    requires a <= a' < b' <= b <= |words| && rw(' ') == 1
    ensures RowWidth(rw, words, a', b') <= RowWidth(rw, words, a, b)
    decreases b - b' + a' - a
  {
    hide RowWidth;
    if b' < b {
      RowWidthInner(rw, words, a, a', b', b - 1);
      RowWidthGrows(rw, words, a, b - 1);
    } else if a < a' {
      RowWidthLeft(rw, words, a, b);
      RowWidthInner(rw, words, a + 1, a', b', b);
    }
  }

  // Cutting words into rows.

  /** `cuts` divides the first `n` words into rows. */
  ghost predicate Cuts(cuts: seq<nat>, n: nat) {
    && |cuts| >= 2 && cuts[0] == 0 && cuts[|cuts| - 1] == n
    && forall k :: 0 <= k < |cuts| - 1 ==> cuts[k] < cuts[k + 1]
  }

  lemma {:induction false} CutsBelow(cuts: seq<nat>, n: nat, k: nat)
    requires Cuts(cuts, n) && k < |cuts|
    ensures cuts[k] <= n && (k < |cuts| - 1 ==> cuts[k] < n)
    decreases |cuts| - k
  {
    if k < |cuts| - 1 {
      CutsBelow(cuts, n, k + 1);
    }
  }

  predicate Steps(words: seq<string>, cuts: seq<nat>, k: nat) {
    k + 1 < |cuts| && cuts[k] < cuts[k + 1] <= |words|
  }

  /** Row `k` fits its room, of which the first row and the others have a different one. */
  predicate Fits(rw: Widths, words: seq<string>, cuts: seq<nat>, k: nat, first: int, rest: int) {
    Steps(words, cuts, k) && RowWidth(rw, words, cuts[k], cuts[k + 1]) <= if k == 0 then first else rest
  }

  /** The word behind row `k` would not have fitted on it. */
  predicate Full(rw: Widths, words: seq<string>, cuts: seq<nat>, k: nat, first: int, rest: int) {
    && Steps(words, cuts, k) && cuts[k + 1] < |words|
    && RowWidth(rw, words, cuts[k], cuts[k + 1] + 1) > if k == 0 then first else rest
  }

  ghost predicate AllRowsFit(rw: Widths, words: seq<string>, cuts: seq<nat>, first: int, rest: int) {
    forall k: nat :: k < |cuts| - 1 ==> Fits(rw, words, cuts, k, first, rest)
  }

  ghost predicate AllRowsFull(rw: Widths, words: seq<string>, cuts: seq<nat>, first: int, rest: int) {
    forall k: nat :: k < |cuts| - 2 ==> Full(rw, words, cuts, k, first, rest)
  }

  /** Rows that are as full as they can be are ahead of any others that fit. */
  lemma {:induction false} FullIsAhead(rw: Widths, words: seq<string>, cuts: seq<nat>, other: seq<nat>, k: nat,
                                       first: int, rest: int)
    requires rw(' ') == 1 && Cuts(cuts, |words|) && Cuts(other, |words|)
    requires AllRowsFull(rw, words, cuts, first, rest) && AllRowsFit(rw, words, other, first, rest)
    requires k < |other| && k < |cuts| - 1
    ensures other[k] <= cuts[k]
  {
    hide RowWidth;
    if k > 0 {
      FullIsAhead(rw, words, cuts, other, k - 1, first, rest);
      assert Full(rw, words, cuts, k - 1, first, rest) && Fits(rw, words, other, k - 1, first, rest);
      if other[k] > cuts[k] {
        RowWidthInner(rw, words, other[k - 1], cuts[k - 1], cuts[k] + 1, other[k]);
      }
    }
  }

  /** So they are the fewest. */
  lemma FullIsFewest(rw: Widths, words: seq<string>, cuts: seq<nat>, other: seq<nat>, first: int, rest: int)
    requires rw(' ') == 1 && Cuts(cuts, |words|) && Cuts(other, |words|)
    requires AllRowsFull(rw, words, cuts, first, rest) && AllRowsFit(rw, words, other, first, rest)
    ensures |cuts| <= |other|
  {
    if |other| < |cuts| {
      FullIsAhead(rw, words, cuts, other, |other| - 1, first, rest);
      CutsBelow(cuts, |words|, |other| - 1);
    }
  }

  // What the program does.

  lemma {:induction false} AddWordsSnoc(rw: Widths, c: Cursor, words: seq<string>, word: string, lay: Layout)
    ensures AddWords(rw, c, words + [word], lay) == AddWord(rw, AddWords(rw, c, words, lay), word, lay)
    decreases |words|
  {
    hide AddWord;
    var all := words + [word];
    if words == [] {
      assert all[0] == word && all[1..] == [];
    } else {
      assert all[0] == words[0] && all[1..] == words[1..] + [word];
      AddWordsSnoc(rw, AddWord(rw, c, words[0], lay), words[1..], word, lay);
    }
  }

  ghost predicate AllSteps(words: seq<string>, cuts: seq<nat>) {
    forall k: nat :: k < |cuts| - 1 ==> Steps(words, cuts, k)
  }

  lemma StepsInit(words: seq<string>, cuts: seq<nat>)
    requires cuts != [] && AllSteps(words, cuts)
    ensures AllSteps(words, cuts[..|cuts| - 1])
  {
    var init := cuts[..|cuts| - 1];
    forall k: nat | k < |init| - 1
      ensures Steps(words, init, k)
    {
      assert Steps(words, cuts, k);
    }
  }

  /** Finished rows, each with its newline and the indent of the next. */
  ghost function Finished(words: seq<string>, cuts: seq<nat>, indent: string): string
    requires AllSteps(words, cuts)
  {
    var m := |cuts| - 2;
    if m < 0 then ""
    else
      StepsInit(words, cuts);
      assert Steps(words, cuts, m);
      Finished(words, cuts[..m + 1], indent) + Unwords(words[cuts[m]..cuts[m + 1]]) + "\n" + indent
  }

  /** Where the cursor stands when the first `n` words are placed. */
  ghost predicate Placed(rw: Widths, words: seq<string>, n: nat, cuts: seq<nat>, c: Cursor, first: int, lay: Layout) {
    && Cuts(cuts, n) && n <= |words|
    && AllRowsFit(rw, words, cuts, first, lay.room) && AllRowsFull(rw, words, cuts, first, lay.room)
    && AllSteps(words, cuts) && AllSteps(words, cuts[..|cuts| - 1])
    && var m := |cuts| - 2;
       && cuts[m] < n && c.row == Unwords(words[cuts[m]..n]) && c.width == RowWidth(rw, words, cuts[m], n)
       && c.out == Finished(words, cuts[..m + 1], lay.indent)
       && c.room == if m == 0 then first else lay.room
  }

  /** Words that fit a row on their own. */
  ghost predicate Fitting(rw: Widths, words: seq<string>, first: int, rest: int) {
    forall k :: 0 <= k < |words| ==> IsWord(words[k]) && 0 < Width(rw, words[k]) <= first && Width(rw, words[k]) <= rest
  }

  lemma PlacedFirst(rw: Widths, words: seq<string>, first: int, lay: Layout)
    requires words != [] && Fitting(rw, words, first, lay.room)
    ensures Placed(rw, words, 1, [0, 1], AddWord(rw, Cursor("", "", 0, first), words[0], lay), first, lay)
  {
    hide Width;
    OneWordRow(rw, words, 0);
    assert "" + words[0] == words[0];
  }

  /** A row that is followed by the same cut, or was full anyway. */
  lemma SameRow(rw: Widths, words: seq<string>, cuts: seq<nat>, more: seq<nat>, k: nat, first: int, rest: int)
    requires k + 1 < |cuts| && k + 1 < |more| && cuts[k] == more[k] && cuts[k + 1] == more[k + 1]
    ensures Fits(rw, words, cuts, k, first, rest) <==> Fits(rw, words, more, k, first, rest)
    ensures Full(rw, words, cuts, k, first, rest) <==> Full(rw, words, more, k, first, rest)
  {
  }

  /** A word goes on the open row. */
  lemma CutsOn(rw: Widths, words: seq<string>, n: nat, cuts: seq<nat>, first: int, rest: int) returns (more: seq<nat>)
    requires rw(' ') == 1 && n < |words| && Cuts(cuts, n)
    requires AllRowsFit(rw, words, cuts, first, rest) && AllRowsFull(rw, words, cuts, first, rest)
    requires cuts[|cuts| - 2] < n
    requires RowWidth(rw, words, cuts[|cuts| - 2], n + 1) <= if |cuts| == 2 then first else rest
    ensures more == cuts[..|cuts| - 1] + [n + 1] && Cuts(more, n + 1)
    ensures AllRowsFit(rw, words, more, first, rest) && AllRowsFull(rw, words, more, first, rest)
  {
    hide RowWidth;
    more := cuts[..|cuts| - 1] + [n + 1];
    forall k: nat | k < |cuts| - 2
      ensures Fits(rw, words, more, k, first, rest) && Full(rw, words, more, k, first, rest)
    {
      assert Fits(rw, words, cuts, k, first, rest) && Full(rw, words, cuts, k, first, rest);
      SameRow(rw, words, cuts, more, k, first, rest);
    }
  }

  /** A word opens a new row. */
  lemma CutsNext(rw: Widths, words: seq<string>, n: nat, cuts: seq<nat>, first: int, rest: int) returns (more: seq<nat>)
    requires rw(' ') == 1 && n < |words| && Cuts(cuts, n)
    requires AllRowsFit(rw, words, cuts, first, rest) && AllRowsFull(rw, words, cuts, first, rest)
    requires cuts[|cuts| - 2] < n && RowWidth(rw, words, n, n + 1) <= rest
    requires RowWidth(rw, words, cuts[|cuts| - 2], n + 1) > if |cuts| == 2 then first else rest
    ensures more == cuts + [n + 1] && Cuts(more, n + 1)
    ensures AllRowsFit(rw, words, more, first, rest) && AllRowsFull(rw, words, more, first, rest)
  {
    hide RowWidth;
    more := cuts + [n + 1];
    forall k: nat | k < |cuts| - 1
      ensures Fits(rw, words, more, k, first, rest) && Full(rw, words, more, k, first, rest)
    {
      assert Fits(rw, words, cuts, k, first, rest);
      assert k < |cuts| - 2 ==> Full(rw, words, cuts, k, first, rest);
      SameRow(rw, words, cuts, more, k, first, rest);
    }
  }

  lemma FitsMeansSteps(rw: Widths, words: seq<string>, cuts: seq<nat>, first: int, rest: int)
    requires AllRowsFit(rw, words, cuts, first, rest)
    ensures AllSteps(words, cuts) && (cuts != [] ==> AllSteps(words, cuts[..|cuts| - 1]))
  {
    hide RowWidth;
    forall k: nat | k < |cuts| - 1
      ensures Steps(words, cuts, k)
    {
      assert Fits(rw, words, cuts, k, first, rest);
    }
    if cuts != [] {
      StepsInit(words, cuts);
    }
  }

  lemma PlacedOn(rw: Widths, words: seq<string>, n: nat, cuts: seq<nat>, c: Cursor, first: int, lay: Layout)
    returns (more: seq<nat>)
    requires rw(' ') == 1 && n < |words| && Placed(rw, words, n, cuts, c, first, lay)
    requires c.width + 1 + Width(rw, words[n]) <= c.room
    ensures Placed(rw, words, n + 1, more,
                   c.(row := c.row + " " + words[n], width := c.width + 1 + Width(rw, words[n])), first, lay)
  {
    var m := |cuts| - 2;
    RowWidthGrows(rw, words, cuts[m], n);
    hide Width, RowWidth, Unwords, AllRowsFit, AllRowsFull;
    more := CutsOn(rw, words, n, cuts, first, lay.room);
    FitsMeansSteps(rw, words, more, first, lay.room);
    hide AllSteps, Cuts;
    assert more[..m + 1] == cuts[..m + 1];
  }

  lemma PlacedNext(rw: Widths, words: seq<string>, n: nat, cuts: seq<nat>, c: Cursor, first: int, lay: Layout)
    returns (more: seq<nat>)
    requires rw(' ') == 1 && n < |words| && Placed(rw, words, n, cuts, c, first, lay)
    requires c.width + 1 + Width(rw, words[n]) > c.room && Width(rw, words[n]) <= lay.room
    ensures Placed(rw, words, n + 1, more, NewRow(c, lay).(row := words[n], width := Width(rw, words[n])), first, lay)
  {
    var m := |cuts| - 2;
    RowWidthGrows(rw, words, cuts[m], n);
    OneWordRow(rw, words, n);
    assert RowWidth(rw, words, n, n + 1) == Width(rw, words[n]);
    hide Width, RowWidth, Unwords, AllRowsFit, AllRowsFull;
    more := CutsNext(rw, words, n, cuts, first, lay.room);
    FitsMeansSteps(rw, words, more, first, lay.room);
    assert cuts[m + 1] == n;
    hide AllSteps, Cuts;
    assert more[..m + 2] == cuts;
  }

  lemma {:induction false} WordsPlaced(rw: Widths, words: seq<string>, n: nat, first: int, lay: Layout)
    returns (cuts: seq<nat>)
    requires rw(' ') == 1 && 0 < n <= |words| && Fitting(rw, words, first, lay.room)
    ensures Placed(rw, words, n, cuts, AddWords(rw, Cursor("", "", 0, first), words[..n], lay), first, lay)
  {
    hide Placed, AddWord, AddWords;
    var start := Cursor("", "", 0, first);
    if n == 1 {
      PlacedFirst(rw, words, first, lay);
      AddWordsSnoc(rw, start, [], words[0], lay);
      NoWords(rw, start, lay);
      assert words[..1] == [] + [words[0]];
      cuts := [0, 1];
    } else {
      var c := AddWords(rw, start, words[..n - 1], lay);
      var before := WordsPlaced(rw, words, n - 1, first, lay);
      AddWordsSnoc(rw, start, words[..n - 1], words[n - 1], lay);
      assert words[..n] == words[..n - 1] + [words[n - 1]];
      cuts := WordPlaced(rw, words, n - 1, before, c, first, lay);
    }
  }

  lemma WordPlaced(rw: Widths, words: seq<string>, n: nat, cuts: seq<nat>, c: Cursor, first: int, lay: Layout)
    returns (more: seq<nat>)
    requires rw(' ') == 1 && n < |words| && Fitting(rw, words, first, lay.room)
    requires Placed(rw, words, n, cuts, c, first, lay)
    ensures Placed(rw, words, n + 1, more, AddWord(rw, c, words[n], lay), first, lay)
  {
    OpenRowHasWidth(rw, words, n, cuts, c, first, lay);
    hide Placed, Width, BreakWord, NewRow;
    if c.width + 1 + Width(rw, words[n]) > c.room {
      more := PlacedNext(rw, words, n, cuts, c, first, lay);
    } else {
      more := PlacedOn(rw, words, n, cuts, c, first, lay);
    }
  }

  lemma OpenRowHasWidth(rw: Widths, words: seq<string>, n: nat, cuts: seq<nat>, c: Cursor, first: int, lay: Layout)
    requires rw(' ') == 1 && Fitting(rw, words, first, lay.room) && Placed(rw, words, n, cuts, c, first, lay)
    ensures c.width > 0
  {
    var a := cuts[|cuts| - 2];
    RowWidthInner(rw, words, a, a, a + 1, n);
    OneWordRow(rw, words, a);
  }

  // The rows that come out.

  /** Row `k`: its words behind the indent. */
  function RowOf(words: seq<string>, cuts: seq<nat>, k: nat, indent: string): string
    requires Steps(words, cuts, k)
  {
    (if k == 0 then "" else indent) + Unwords(words[cuts[k]..cuts[k + 1]])
  }

  lemma {:induction false} UnwordsIsLine(words: seq<string>)
    requires words != [] && forall k :: 0 <= k < |words| ==> IsWord(words[k])
    ensures '\n' !in Unwords(words) && Unwords(words) != ""
  {
    if |words| > 1 {
      UnwordsIsLine(words[..|words| - 1]);
      WordIsText(words[|words| - 1]);
    }
  }

  lemma {:induction false} FinishedRows(words: seq<string>, cuts: seq<nat>, indent: string)
    requires cuts != [] && AllSteps(words, cuts)
    requires '\n' !in indent && forall k :: 0 <= k < |words| ==> IsWord(words[k])
    ensures var (rows, m) := (Rows(Finished(words, cuts, indent)), |cuts| - 1);
            && |rows| == m + 1 && rows[m] == (if m == 0 then "" else indent)
            && forall k: nat :: k < m ==> rows[k] == RowOf(words, cuts, k, indent)
  {
    hide Rows, IsWord, Unwords;
    var m := |cuts| - 2;
    if m < 0 {
      NoRows();
    } else {
      var init := cuts[..m + 1];
      StepsInit(words, cuts);
      FinishedRows(words, init, indent);
      assert Steps(words, cuts, m);
      var (row, before) := (words[cuts[m]..cuts[m + 1]], Finished(words, init, indent));
      UnwordsIsLine(row);
      RowBehind(before, Unwords(row), indent);
      SameRows(words, cuts, indent);
    }
  }

  lemma SameRows(words: seq<string>, cuts: seq<nat>, indent: string)
    requires cuts != [] && AllSteps(words, cuts) && AllSteps(words, cuts[..|cuts| - 1])
    ensures forall k: nat :: k < |cuts| - 2 ==>
              RowOf(words, cuts, k, indent) == RowOf(words, cuts[..|cuts| - 1], k, indent)
  {
  }

  lemma RowBehind(before: string, row: string, indent: string)
    requires '\n' !in row && '\n' !in indent
    ensures var rows := Rows(before);
            Rows(before + row + "\n" + indent) == rows[..|rows| - 1] + [rows[|rows| - 1] + row] + [indent]
  {
    hide Rows;
    RowsExtend(before, row);
    RowsBreak(before + row);
    RowsExtend(before + row + "\n", indent);
    assert "" + indent == indent;
    var rows := Rows(before + row);
    assert (rows + [""])[..|rows|] == rows;
  }

  /** A line whose words each fit is broken as late as possible, whatever came before it: its rows divide
    its words, each fits, and none has room for the first word of the next; so no other division of the
    same words into rows that fit has fewer of them. */
  lemma GreedyPiece(rw: Widths, f: Frame, line: string, i: nat) returns (cuts: seq<nat>)
    requires rw(' ') == 1 && !Blank(line) && Width(rw, line) > RoomOf(rw, f, line, i)
    requires Fitting(rw, Fields(line), RoomOf(rw, f, line, i), LayoutOf(rw, f, line).room)
    ensures var (words, lay, first) := (Fields(line), LayoutOf(rw, f, line), RoomOf(rw, f, line, i));
            var rows := Rows(Piece(rw, f, line, i));
            && Cuts(cuts, |words|) && |rows| == |cuts| - 1
            && AllRowsFit(rw, words, cuts, first, lay.room) && AllRowsFull(rw, words, cuts, first, lay.room)
            && forall k: nat :: k < |rows| ==>
                 Steps(words, cuts, k) && rows[k] == RowOf(words, cuts, k, lay.indent)
  {
    hide Width, Rows, AddWords, Fields, LayoutOf, RoomOf, Unwords;
    var (words, lay, first) := (Fields(line), LayoutOf(rw, f, line), RoomOf(rw, f, line, i));
    FieldsOf(line);
    LayoutIsBlank(rw, f, line);
    cuts := WordsPlaced(rw, words, |words|, first, lay);
    assert words[..|words|] == words;
    var m := |cuts| - 2;
    var c := AddWords(rw, Cursor("", "", 0, first), words, lay);
    FinishedRows(words, cuts[..m + 1], lay.indent);
    assert Steps(words, cuts, m);
    UnwordsIsLine(words[cuts[m]..cuts[m + 1]]);
    RowsExtend(c.out, c.row);
    SameRows(words, cuts, lay.indent);
    forall k: nat | k < |cuts| - 1
      ensures Steps(words, cuts, k)
    {
      assert Fits(rw, words, cuts, k, first, lay.room);
    }
  }

  // Whole texts, with the numbers of the caller.

  function Total(width: int): (total: nat)
  {
    if width < 20 then 80 else width
  }

  function Lead(line: string): string {
    line[..LeadingLength(line)]
  }

  /** The columns before the text of a row that continues `line`: the prefix, the leading white space of
    the line, and its bullet. */
  function Taken(rw: Widths, line: string, prefix: nat): nat {
    prefix + Width(rw, Lead(line)) + BulletOf(line)
  }

  function Rest(rw: Widths, line: string, width: int, prefix: nat): int {
    if Total(width) - Taken(rw, line, prefix) < 10 then Total(width) - prefix
    else Total(width) - Taken(rw, line, prefix)
  }

  function Indent(rw: Widths, line: string, width: int, prefix: nat): string {
    Spaces(prefix)
    + if Total(width) - Taken(rw, line, prefix) < 10 then "" else Lead(line) + Spaces(BulletOf(line))
  }

  lemma LayoutIs(rw: Widths, line: string, width: int, prefix: nat)
    requires rw(' ') == 1 && prefix + 10 <= Total(width)
    ensures var f := FrameFor(width, prefix);
            && LayoutOf(rw, f, line) == Layout(Indent(rw, line, width, prefix), Rest(rw, line, width, prefix))
            && RoomOf(rw, f, line, 0) == Total(width) - prefix
  {
    hide Width, BulletExtra;
    WidthOfSpaces(rw, BulletOf(line));
    assert Spaces(prefix) + "" == Spaces(prefix);
    assert Spaces(prefix) + Lead(line) + Spaces(BulletOf(line))
        == Spaces(prefix) + (Lead(line) + Spaces(BulletOf(line)));
  }

  lemma WrappedLine(rw: Widths, line: string, width: int, prefix: nat)
    requires '\n' !in line && !Blank(line)
    ensures Wrapped(rw, line, width, prefix) == TrimNewlines(Piece(rw, FrameFor(width, prefix), line, 0) + "\n")
  {
    hide WrapLine, Piece, TrimNewlines, Rows;
    var f := FrameFor(width, prefix);
    OneRow(line);
    LineStep(rw, f, "", [line], 0);
    WrapLineIs(rw, f, "", line, 0);
    WrappedWhole(rw, f, WrapLine(rw, f, "", line, 0), [line]);
    assert "" + Piece(rw, f, line, 0) == Piece(rw, f, line, 0);
  }

  /** A line that needs more than one row, of words that each fit a row: its rows divide the words, fit,
    and are as full as they can be, and no other division into rows that fit has fewer. */
  lemma GreedyRows(rw: Widths, line: string, width: int, prefix: nat) returns (cuts: seq<nat>)
    requires rw(' ') == 1 && prefix + 10 <= (if width < 20 then 80 else width) && '\n' !in line && !Blank(line)
    requires var first := (if width < 20 then 80 else width) - prefix;
             Width(rw, line) > first && Fitting(rw, Fields(line), first, Rest(rw, line, width, prefix))
    ensures var first := (if width < 20 then 80 else width) - prefix;
            var (words, rest) := (Fields(line), Rest(rw, line, width, prefix));
            var rows := Rows(Wrapped(rw, line, width, prefix));
            && Cuts(cuts, |words|) && |rows| == |cuts| - 1
            && AllRowsFit(rw, words, cuts, first, rest) && AllRowsFull(rw, words, cuts, first, rest)
            && (forall k: nat :: k < |rows| ==>
                  Steps(words, cuts, k) && rows[k] == RowOf(words, cuts, k, Indent(rw, line, width, prefix)))
            && forall other :: Cuts(other, |words|) && AllRowsFit(rw, words, other, first, rest) ==>
                 |rows| <= |other| - 1
  {
    hide Width, Rows, Piece, Fields, LayoutOf, RoomOf, Cuts, AllRowsFit, AllRowsFull, Wrapped, Indent, Rest;
    var f := FrameFor(width, prefix);
    LayoutIs(rw, line, width, prefix);
    cuts := GreedyPiece(rw, f, line, 0);
    WrappedLine(rw, line, width, prefix);
    var piece := Piece(rw, f, line, 0);
    RowsBreak(piece);
    NoRowIsEmpty(rw, line, cuts, Rows(piece), Indent(rw, line, width, prefix));
    TrimLastRow(piece + "\n", Rows(piece));
    var (words, first) := (Fields(line), Total(width) - prefix);
    forall other | Cuts(other, |words|) && AllRowsFit(rw, words, other, first, Rest(rw, line, width, prefix))
      ensures |cuts| <= |other|
    {
      FullIsFewest(rw, words, cuts, other, first, Rest(rw, line, width, prefix));
    }
  }

  lemma NoRowIsEmpty(rw: Widths, line: string, cuts: seq<nat>, rows: seq<string>, indent: string)
    requires |rows| == |cuts| - 1
    requires forall k: nat :: k < |rows| ==>
               Steps(Fields(line), cuts, k) && rows[k] == RowOf(Fields(line), cuts, k, indent)
    ensures forall k :: 0 <= k < |rows| ==> rows[k] != ""
  {
    hide Unwords;
    forall k: nat | k < |rows|
      ensures rows[k] != ""
    {
      assert Steps(Fields(line), cuts, k);
      UnwordsIsLine(Fields(line)[cuts[k]..cuts[k + 1]]);
    }
  }

  // What is not broken.

  /** Lines that fit their rows stay as they are, each but the first behind the prefix; only empty rows at
    the end are dropped. */
  lemma FittingLinesStay(rw: Widths, text: string, width: int, prefix: nat)
    requires prefix + 10 <= (if width < 20 then 80 else width)
    requires forall i: nat :: i < |Rows(text)| ==> LineFits(rw, Rows(text)[i], i, width, prefix)
    ensures var (lines, rows) := (Rows(text), Rows(Wrapped(rw, text, width, prefix)));
            && |rows| <= |lines|
            && forall k :: 0 <= k < |lines| ==>
                 (if k < |rows| then rows[k] else "") == (if k == 0 then "" else Spaces(prefix)) + lines[k]
  {
    hide Rows, LineFits, TrimNewlines, WrapLines, Written;
    var (f, lines) := (FrameFor(width, prefix), Rows(text));
    RowsAreLines(text);
    LinesStay(rw, lines, width, prefix, |lines|);
    WrittenFirst(rw, f, lines);
    WrittenAll(rw, f, lines, 0);
    var out := Written(rw, f, lines, |lines|);
    TrimDropsEmptyRows(out);
    TrimKeepsRows(out);
    LastRowDropped(out);
  }

  lemma WrittenFirst(rw: Widths, f: Frame, lines: seq<string>)
    ensures WrapLines(rw, f, Written(rw, f, lines, 0), lines, 0) == WrapLines(rw, f, "", lines, 0)
  {
  }

  lemma LastRowDropped(out: string)
    requires |Rows(out)| > 1 && Rows(out)[|Rows(out)| - 1] == ""
    ensures |Rows(TrimNewlines(out))| < |Rows(out)|
  {
    LastRowIsEmpty(out);
    var init := out[..|out| - 1];
    assert out == init + "\n";
    RowsBreak(init);
    TrimDropsEmptyRows(init);
  }

  /** The line fits behind the prefix; unless it is the first one, the white space that starts it is
    counted once more, as the program does. */
  predicate LineFits(rw: Widths, line: string, i: nat, width: int, prefix: nat) {
    prefix + (if i == 0 then 0 else Width(rw, Lead(line))) + Width(rw, line) <= if width < 20 then 80 else width
  }

  lemma LineStays(rw: Widths, width: int, prefix: nat, out: string, line: string, i: nat)
    requires prefix + 10 <= Total(width) && LineFits(rw, line, i, width, prefix) && '\n' !in line
    ensures var rows := Rows(out);
            Rows(WrapLine(rw, FrameFor(width, prefix), out, line, i))
            == rows[..|rows| - 1] + [rows[|rows| - 1] + (if i == 0 then "" else Spaces(prefix)) + line] + [""]
  {
    var start := if i == 0 then out else out + Spaces(prefix);
    assert WrapLine(rw, FrameFor(width, prefix), out, line, i) == start + line + "\n";
    hide Rows, WrapLine;
    RowsExtend(out, if i == 0 then "" else Spaces(prefix));
    assert out + "" == out;
    RowsExtend(start, line);
    RowsBreak(start + line);
    var (rows, more) := (Rows(out), Rows(start + line));
    assert (more + [""])[..|more|] == more;
  }

  lemma {:induction false} LinesStay(rw: Widths, lines: seq<string>, width: int, prefix: nat, n: nat)
    requires prefix + 10 <= Total(width) && n <= |lines|
    requires forall i: nat :: i < |lines| ==> LineFits(rw, lines[i], i, width, prefix) && '\n' !in lines[i]
    ensures var rows := Rows(Written(rw, FrameFor(width, prefix), lines, n));
            && |rows| == n + 1 && rows[n] == ""
            && forall k :: 0 <= k < n ==> rows[k] == (if k == 0 then "" else Spaces(prefix)) + lines[k]
  {
    hide Rows, LineFits, WrapLine;
    if n == 0 {
      NoRows();
    } else {
      LinesStay(rw, lines, width, prefix, n - 1);
      LineStays(rw, width, prefix, Written(rw, FrameFor(width, prefix), lines, n - 1), lines[n - 1], n - 1);
    }
  }

  // Bullets.

  /** `n` digits, a full stop and a space open the line. */
  predicate Numbered(line: string, n: nat) {
    |line| >= n + 2 && (forall i :: 0 <= i < n ==> '0' <= line[i] <= '9') && line[n] == '.' && line[n + 1] == ' '
  }

  /** Rows that continue a line are indented past its bullet, or past its number of one to three digits;
    nothing else indents them. */
  lemma BulletsExactly(line: string)
    ensures BulletExtra(line) == 0 || 2 <= BulletExtra(line) <= 5
    ensures BulletExtra(line) == 2 <==>
              |line| >= 2 && (line[0] == '*' || line[0] == '-' || line[0] == '+') && line[1] == ' '
    ensures BulletExtra(line) == 3 <==> Numbered(line, 1)
    ensures BulletExtra(line) == 4 <==> Numbered(line, 2)
    ensures BulletExtra(line) == 5 <==> Numbered(line, 3)
  {
    assert |line| >= 3 ==> line[1..3] == [line[1], line[2]];
    assert |line| >= 4 ==> line[2..4] == [line[2], line[3]];
    assert |line| >= 5 ==> line[3..5] == [line[3], line[4]];
  }

  // Words that are broken.

  function Flat(pieces: seq<string>): string {
    if pieces == [] then "" else pieces[0] + Flat(pieces[1..])
  }

  function Indented(pieces: seq<string>, indent: string): (rows: seq<string>)
    ensures |rows| == |pieces| && forall k :: 0 <= k < |rows| ==> rows[k] == indent + pieces[k]
  {
    seq(|pieces|, k requires 0 <= k < |pieces| => indent + pieces[k])
  }

  /** Each piece fits, or is a single rune; and none has room for the first rune of the next. */
  ghost predicate PiecesFull(rw: Widths, pieces: seq<string>, room: int) {
    && (forall k :: 0 <= k < |pieces| ==> pieces[k] != "" && (Width(rw, pieces[k]) <= room || |pieces[k]| == 1))
    && (forall k :: 0 <= k < |pieces| - 1 ==> Width(rw, pieces[k] + [pieces[k + 1][0]]) > room)
  }

  lemma {:induction false} ChunkFromIsLargest(rw: Widths, runes: string, n: nat, taken: nat, room: int)
    requires n <= |runes| && taken == Width(rw, runes[..n]) && (taken <= room || n == 0)
    ensures var m := ChunkFrom(rw, runes, n, taken, room);
            (Width(rw, runes[..m]) <= room || m == 0) && (m < |runes| ==> Width(rw, runes[..m + 1]) > room)
    decreases |runes| - n
  {
    hide Width;
    ChunkStep(rw, runes, n, taken, room);
    if n < |runes| && taken + rw(runes[n]) <= room {
      ChunkFromIsLargest(rw, runes, n + 1, taken + rw(runes[n]), room);
    }
  }

  /** As many runes as fit, and one at least. */
  lemma ChunkIsLargest(rw: Widths, runes: string, room: int)
    requires runes != ""
    ensures var n := Chunk(rw, runes, room);
            && (Width(rw, runes[..n]) <= room || n == 1)
            && (n < |runes| ==> Width(rw, runes[..n] + [runes[n]]) > room)
  {
    hide Width;
    var n := Chunk(rw, runes, room);
    NothingWide(rw);
    assert runes[..0] == "";
    ChunkFromIsLargest(rw, runes, 0, 0, room);
    if n < |runes| {
      assert runes[..n] + [runes[n]] == runes[..n + 1];
      WidthConcat(rw, runes[..n], [runes[n]]);
      if ChunkFrom(rw, runes, 0, 0, room) == 0 {
        assert runes[..1] == [runes[0]];
      }
    }
  }

  lemma BreakFirst(rw: Widths, c: Cursor, runes: string, lay: Layout)
    requires c.row == "" && runes != ""
    ensures var n := Chunk(rw, runes, c.room);
            BreakWord(rw, c, runes, lay) ==
            if n == |runes| then Cursor(c.out, runes, Width(rw, runes), c.room)
            else BreakWord(rw, Cursor(c.out + runes[..n] + "\n" + lay.indent, "", 0, lay.room), runes[n..], lay)
  {
    hide Width, Chunk, BreakWord;
    var n := Chunk(rw, runes, c.room);
    var d := PlaceChunk(rw, c, runes, lay);
    assert d == Cursor(c.out, runes[..n], Width(rw, runes[..n]), c.room) by {
      assert "" + runes[..n] == runes[..n];
    }
    BreakStep(rw, c, runes, lay);
    hide PlaceChunk;
    if n == |runes| {
      assert runes[..n] == runes && runes[n..] == "";
      BreakStep(rw, d, "", lay);
    }
  }

  /** The rows of `text` go on from the rows `before` with the pieces, each but the first behind the indent. */
  ghost predicate InPieces(text: string, before: seq<string>, pieces: seq<string>, indent: string) {
    && before != [] && pieces != []
    && Rows(text)
       == before[..|before| - 1] + [before[|before| - 1] + pieces[0]] + Indented(pieces[1..], indent)
  }

  lemma {:induction false} BreakRows(rw: Widths, c: Cursor, runes: string, lay: Layout) returns (pieces: seq<string>)
    requires c.row == "" && c.room == lay.room && runes != "" && '\n' !in runes && '\n' !in lay.indent
    ensures var d := BreakWord(rw, c, runes, lay);
            && pieces != [] && Flat(pieces) == runes && PiecesFull(rw, pieces, lay.room) && d.row != ""
            && InPieces(d.out + d.row, Rows(c.out), pieces, lay.indent)
    decreases |runes|
  {
    hide Width, Rows, Chunk, BreakWord, PiecesFull, InPieces, Flat;
    var n := Chunk(rw, runes, c.room);
    ChunkIsLargest(rw, runes, c.room);
    BreakFirst(rw, c, runes, lay);
    var (piece, rest) := (runes[..n], runes[n..]);
    if n == |runes| {
      assert piece == runes;
      pieces := [piece];
      OnePiece(rw, c.out, piece, lay);
    } else {
      var e := Cursor(c.out + piece + "\n" + lay.indent, "", 0, lay.room);
      var more := BreakRows(rw, e, rest, lay);
      var d := BreakWord(rw, e, rest, lay);
      pieces := [piece] + more;
      PiecesMore(rw, piece, more, lay.room, rest);
      assert runes == piece + rest;
      NextInPieces(d.out + d.row, c.out, piece, more, lay.indent);
    }
  }

  lemma OnePiece(rw: Widths, out: string, piece: string, lay: Layout)
    requires piece != "" && '\n' !in piece && (Width(rw, piece) <= lay.room || |piece| == 1)
    ensures Flat([piece]) == piece && PiecesFull(rw, [piece], lay.room)
    ensures InPieces(out + piece, Rows(out), [piece], lay.indent)
  {
    hide Width, Rows;
    RowsExtend(out, piece);
    assert [piece][1..] == [] && Flat([]) == "" && piece + "" == piece;
    assert Indented([], lay.indent) == [];
  }

  lemma NextInPieces(text: string, out: string, piece: string, more: seq<string>, indent: string)
    requires '\n' !in piece && '\n' !in indent && more != []
    requires InPieces(text, Rows(out + piece + "\n" + indent), more, indent)
    ensures InPieces(text, Rows(out), [piece] + more, indent)
  {
    hide Rows;
    RowBehind(out, piece, indent);
    var before := Rows(out);
    var early := before[..|before| - 1] + [before[|before| - 1] + piece];
    assert (early + [indent])[..|early|] == early && ([piece] + more)[1..] == more;
    assert [indent + more[0]] + Indented(more[1..], indent) == Indented(more, indent);
    assert early + [indent + more[0]] + Indented(more[1..], indent)
        == early + ([indent + more[0]] + Indented(more[1..], indent));
  }

  lemma PiecesMore(rw: Widths, piece: string, more: seq<string>, room: int, rest: string)
    requires more != [] && PiecesFull(rw, more, room) && Flat(more) == rest && piece != ""
    requires Width(rw, piece) <= room || |piece| == 1
    requires rest != "" && Width(rw, piece + [rest[0]]) > room
    ensures PiecesFull(rw, [piece] + more, room) && Flat([piece] + more) == piece + rest
  {
    hide Width;
    var pieces := [piece] + more;
    assert pieces[1..] == more && more[0][0] == rest[0];
    forall k | 0 <= k < |pieces| - 1
      ensures Width(rw, pieces[k] + [pieces[k + 1][0]]) > room
    {
      if k > 0 {
        assert Width(rw, more[k - 1] + [more[k][0]]) > room;
      }
    }
  }

  /** A word that is wider than its row is broken into pieces that fit, each as long as it can be. */
  lemma LongWordRows(rw: Widths, word: string, width: int, prefix: nat) returns (pieces: seq<string>)
    requires rw(' ') == 1 && prefix + 10 <= (if width < 20 then 80 else width)
    requires IsWord(word) && Width(rw, word) > (if width < 20 then 80 else width) - prefix
    ensures var room := (if width < 20 then 80 else width) - prefix;
            && pieces != [] && Flat(pieces) == word && PiecesFull(rw, pieces, room)
            && Rows(Wrapped(rw, word, width, prefix)) == [pieces[0]] + Indented(pieces[1..], Spaces(prefix))
  {
    hide Width, Rows, Piece, Fields, LayoutOf, RoomOf, Wrapped;
    var f := FrameFor(width, prefix);
    WordIsText(word);
    WordLayout(rw, word, width, prefix);
    var (room, lay) := (Total(width) - prefix, LayoutOf(rw, f, word));
    WordPiece(rw, f, word, room);
    var c := Cursor("", "", 0, room);
    pieces := BreakRows(rw, c, word, lay);
    WrappedLine(rw, word, width, prefix);
    var (piece, rows) := (Piece(rw, f, word, 0), [pieces[0]] + Indented(pieces[1..], Spaces(prefix)));
    FirstInPieces(piece, pieces, lay.indent);
    RowsBreak(piece);
    hide PiecesFull, InPieces;
    TrimLastRow(piece + "\n", rows);
  }

  lemma FirstInPieces(text: string, pieces: seq<string>, indent: string)
    requires InPieces(text, Rows(""), pieces, indent) && forall k :: 0 <= k < |pieces| ==> pieces[k] != ""
    ensures var rows := [pieces[0]] + Indented(pieces[1..], indent);
            Rows(text) == rows && rows[|rows| - 1] != ""
  {
    NoRows();
    hide Rows;
    assert "" + pieces[0] == pieces[0];
    assert [""][..0] + [pieces[0]] + Indented(pieces[1..], indent) == [pieces[0]] + Indented(pieces[1..], indent);
  }

  lemma WordLayout(rw: Widths, word: string, width: int, prefix: nat)
    requires rw(' ') == 1 && IsWord(word) && prefix + 10 <= Total(width)
    ensures var f := FrameFor(width, prefix);
            && LayoutOf(rw, f, word) == Layout(Spaces(prefix), Total(width) - prefix)
            && RoomOf(rw, f, word, 0) == Total(width) - prefix
  {
    LayoutIs(rw, word, width, prefix);
    assert LeadingLength(word) == 0 && word[0..] == word && Lead(word) == "";
    BulletsExactly(word);
    NothingWide(rw);
    assert Spaces(prefix) + "" == Spaces(prefix) && "" + Spaces(0) == "";
  }

  lemma WordPiece(rw: Widths, f: Frame, word: string, room: int)
    requires IsWord(word) && RoomOf(rw, f, word, 0) == room && Width(rw, word) > room
    ensures var d := BreakWord(rw, Cursor("", "", 0, room), word, LayoutOf(rw, f, word));
            Piece(rw, f, word, 0) == d.out + d.row
  {
    hide Width, RoomOf, LayoutOf, BreakWord;
    var (c, lay) := (Cursor("", "", 0, room), LayoutOf(rw, f, word));
    FieldsWord(word, "");
    NoFields();
    assert word + "" == word;
    AddWordsSnoc(rw, c, [], word, lay);
    NoWords(rw, c, lay);
    assert [] + [word] == [word];
  }
}
