/** The stream render cache over whole runs of ticks. */
module StreamRuns {
  import opened Wrappers
  import opened Lines
  import opened StreamBoundary
  import opened StreamRender
  import opened StreamExact

  /** Outside code fences no two consecutive lines are blank, and the line before `s` counts as blank
    when `prevBlank`.  A last line that is still empty does not count. */
  predicate Tidy(s: string, inFence: bool, prevBlank: bool)
    decreases |s|
  {
    var nl := IndexNewline(s);
    if nl < 0 then s == "" || inFence || !(prevBlank && Blank(s))
    else
      var line := s[..nl];
      var blank := !inFence && Blank(line);
      !(prevBlank && blank) && Tidy(s[nl + 1..], FenceAfter(inFence, line), blank)
  }

  /** The text starts with ink and never has two consecutive blank lines outside a fence. */
  predicate TidyText(raw: string) {
    Tidy(raw, false, true)
  }

  lemma TidyWeakens(s: string, inFence: bool, prevBlank: bool)
    requires Tidy(s, inFence, prevBlank)
    ensures Tidy(s, inFence, false)
  {
  }

  lemma {:induction false} TidyConcat(a: string, b: string, inFence: bool, prevBlank: bool)
    requires AtLineStart(a) && Tidy(a + b, inFence, prevBlank)
    ensures Tidy(a, inFence, prevBlank) && Tidy(b, Fences(a, inFence), false)
    decreases |a|
  {
    hide FenceAfter, IndexNewline, Blank;
    if a == "" {
      assert a + b == b;
      TidyWeakens(b, inFence, prevBlank);
    } else {
      var n := IndexNewline(a);
      assert a[|a| - 1] == '\n';
      FirstLine(a, b);
      TidyConcat(a[n + 1..], b, FenceAfter(inFence, a[..n]), !inFence && Blank(a[..n]));
    }
  }

  lemma TidyLine(line: string, rest: string, inFence: bool, prevBlank: bool)
    requires forall i :: 0 <= i < |line| ==> line[i] != '\n'
    ensures var blank := !inFence && Blank(line);
            Tidy(line + ("\n" + rest), inFence, prevBlank) <==>
              !(prevBlank && blank) && Tidy(rest, FenceAfter(inFence, line), blank)
  {
    hide FenceAfter, IndexNewline, Blank;
    var s := line + ("\n" + rest);
    var n := IndexNewline(s);
    assert s[|line|] == '\n';
    assert forall i :: 0 <= i < |line| ==> s[i] == line[i];
    assert s[..n] == line && s[n + 1..] == rest;
  }

  /** Behind a cut, a tidy text goes on with ink. */
  lemma TidyAtCut(raw: string, p: nat)
    requires TidyText(raw) && Resumable(raw, p) && p <= |raw|
    ensures TidyText(raw[p..]) && TidyText(raw[..p])
  {
    hide Tidy, Fences, FenceAfter, Blank;
    CutIsLineStart(raw, p);
    assert raw == raw[..p] + raw[p..];
    TidyConcat(raw[..p], raw[p..], false, true);
    if p > 0 {
      var u, rest := raw[..p - 1], raw[p..];
      assert raw[0..p - 1] == u && u[|u| - 1] == raw[p - 2];
      assert raw == u + ("" + ("\n" + rest));
      TidyConcat(u, "" + ("\n" + rest), false, true);
      EmptyIsBlank();
      BlankKeepsFence(false, "");
      TidyLine("", rest, Fences(u, false), false);
    } else {
      assert raw[p..] == raw;
    }
  }

  lemma {:induction false} TidyHasInk(raw: string)
    requires TidyText(raw) && raw != ""
    ensures !Blank(raw)
  {
    hide IsSpace, IndexNewline;
    var n := IndexNewline(raw);
    if n >= 0 {
      assert raw == raw[..n] + raw[n..];
      BlankParts(raw[..n], raw[n..]);
    }
  }

  /** In a tidy text the line before the empty line of a cut has ink. */
  lemma TidyPlainTail(raw: string, p: nat)
    requires TidyText(raw) && Resumable(raw, p) && p <= |raw|
    ensures PlainTail(raw[..p])
  {
    hide Fences, PlainTail, LastLine, Blank, TidyText;
    if p > 0 {
      var (u, rest) := (raw[..p - 1], raw[p..]);
      assert raw[0..p - 1] == u && u[|u| - 1] == raw[p - 2];
      assert raw[..p] == u + "\n";
      assert raw == u + ("\n" + rest);
      InkBeforeCut(u, rest);
      InkBeforeEmptyLine(raw[..p], u);
    } else {
      EmptyPlainTail();
      assert raw[..p] == "";
    }
  }

  lemma EmptyPlainTail()
    ensures PlainTail("")
  {
  }

  /** In a tidy text the line before an empty line has ink. */
  lemma InkBeforeCut(u: string, rest: string)
    requires u != "" && AtLineStart(u) && !Fences(u, false) && TidyText(u + ("\n" + rest))
    ensures !Blank(LastLine(u))
  {
    hide Tidy, Fences, FenceAfter, Blank, Before, LastLine, LastLineStart;
    SplitLast(u);
    var (v, line) := (Before(u), LastLine(u));
    var tail := "" + ("\n" + rest);
    assert tail == "\n" + rest;
    assert u + tail == v + (line + ("\n" + tail));
    TidyConcat(v, line + ("\n" + tail), false, true);
    TidyLine(line, tail, Fences(v, false), false);
    TidyLine("", rest, FenceAfter(Fences(v, false), line), !Fences(v, false) && Blank(line));
    FencesConcat(v, line + "\n", false);
    OneLine(line, Fences(v, false));
    EmptyIsBlank();
    if Blank(line) {
      BlankKeepsFence(Fences(v, false), line);
    }
  }

  lemma InkBeforeEmptyLine(a: string, u: string)
    requires a == u + "\n" && u != "" && AtLineStart(u) && !Blank(LastLine(u))
    ensures PlainTail(a)
  {
    hide IsSpace;
    assert a[..|a| - 1] == u;
    assert u[..|u|] == u;
    assert LastLine(a) == "" && Before(a) == u;
    assert PlainTail(u);
  }

  // ----- Runs -----

  /** The cache after a run of ticks, each with the partial text and the width of that moment. */
  ghost function Ticks(block: Renderer, ticks: seq<(string, nat)>): Cache {
    if ticks == [] then EMPTY_CACHE
    else
      var last := ticks[|ticks| - 1];
      Tick(block, Ticks(block, ticks[..|ticks| - 1]), last.0, last.1).0
  }

  /** The fit of the cached prefix once a tick has checked it against its text and width. */
  function ValidFit(fit: Fit, c: Cache, raw: string, w: nat): Fit {
    if c.width != w || !(c.prefixRaw <= raw) then PERFECT else fit
  }

  function NextFit(fit: Fit, c: Cache, partial: string, w: nat): Fit {
    var raw := SkipBreaks(partial);
    if raw == "" then fit else FoldFit(ValidFit(fit, c, raw, w), Validate(c, raw, w), raw)
  }

  /** The fit of the cached prefix after a run. */
  ghost function FitAfter(block: Renderer, ticks: seq<(string, nat)>): Fit {
    if ticks == [] then PERFECT
    else
      var (init, last) := (ticks[..|ticks| - 1], ticks[|ticks| - 1]);
      NextFit(FitAfter(block, init), Ticks(block, init), last.0, last.1)
  }

  /** What is cached for which width, and how well it fits, is about texts and widths alone: it is the
    same for every renderer. */
  lemma {:induction false} FitIsTextual(block: Renderer, other: Renderer, ticks: seq<(string, nat)>)
    ensures Ticks(block, ticks).prefixRaw == Ticks(other, ticks).prefixRaw
    ensures Ticks(block, ticks).width == Ticks(other, ticks).width
    ensures FitAfter(block, ticks) == FitAfter(other, ticks)
  {
    hide Render, AppendRendered, LastCut, JoinFit;
    if ticks != [] {
      FitIsTextual(block, other, ticks[..|ticks| - 1]);
    }
  }

  /** Checked before a tick: the pieces that it joins fit. */
  predicate PiecesFit(fit: Fit, c: Cache, partial: string, w: nat) {
    var raw := SkipBreaks(partial);
    raw == "" || PaintFit(ValidFit(fit, c, raw, w), Validate(c, raw, w), raw).IsExact()
  }

  /** A tick paints the one-shot render, or there is nothing to paint. */
  ghost predicate PaintsOneShot(block: Renderer, c: Cache, partial: string, w: nat) {
    var raw := SkipBreaks(partial);
    Tick(block, c, partial, w).1 == (if raw == "" then None else Some(Render(block, w, raw)))
  }

  ghost predicate CacheFits(block: Renderer, c: Cache, fit: Fit) {
    CacheOk(c) && Fits(block, c.width, c.prefixOut, c.prefixRaw, fit)
  }

  lemma TickKeepsFit(block: Renderer, c: Cache, fit: Fit, partial: string, w: nat)
    requires Proper(block) && CacheFits(block, c, fit)
    ensures CacheFits(block, Tick(block, c, partial, w).0, NextFit(fit, c, partial, w))
    ensures PaintsOneShot(block, c, partial, w) <==> PiecesFit(fit, c, partial, w)
  {
    hide IsCut, Render, Fold, Paint, FoldFit, PaintFit, Fits;
    var raw := SkipBreaks(partial);
    if raw != "" {
      var (valid, start) := (Validate(c, raw, w), ValidFit(fit, c, raw, w));
      NothingFits(block, w);
      TickIsExact(block, valid, raw, start);
      FoldKeeps(block, valid, raw);
    }
  }

  lemma NothingFits(block: Renderer, w: nat)
    ensures CacheFits(block, Cache("", "", w), PERFECT)
  {
    EmptyIsBlank();
  }

  lemma {:induction false} RunKeepsFit(block: Renderer, ticks: seq<(string, nat)>)
    requires Proper(block)
    ensures CacheFits(block, Ticks(block, ticks), FitAfter(block, ticks))
  {
    hide CacheFits, Tick, NextFit;
    if ticks == [] {
      NothingFits(block, 0);
    } else {
      var (init, last) := (ticks[..|ticks| - 1], ticks[|ticks| - 1]);
      RunKeepsFit(block, init);
      TickKeepsFit(block, Ticks(block, init), FitAfter(block, init), last.0, last.1);
    }
  }

  /** After any run of ticks, with any texts, resets and widths, a tick paints the one-shot render if
    and only if its pieces fit. */
  lemma ExactAfterAnyRun(block: Renderer, ticks: seq<(string, nat)>, partial: string, w: nat)
    requires Proper(block)
    ensures PaintsOneShot(block, Ticks(block, ticks), partial, w)
            <==> PiecesFit(FitAfter(block, ticks), Ticks(block, ticks), partial, w)
  {
    hide CacheFits, PaintsOneShot, PiecesFit, Ticks, FitAfter;
    RunKeepsFit(block, ticks);
    TickKeepsFit(block, Ticks(block, ticks), FitAfter(block, ticks), partial, w);
  }

  ghost predicate AlwaysOneShot(block: Renderer, ticks: seq<(string, nat)>) {
    ticks == [] ||
    var (init, last) := (ticks[..|ticks| - 1], ticks[|ticks| - 1]);
    AlwaysOneShot(block, init) && PaintsOneShot(block, Ticks(block, init), last.0, last.1)
  }

  ghost predicate AlwaysFits(block: Renderer, ticks: seq<(string, nat)>) {
    ticks == [] ||
    var (init, last) := (ticks[..|ticks| - 1], ticks[|ticks| - 1]);
    AlwaysFits(block, init) && PiecesFit(FitAfter(block, init), Ticks(block, init), last.0, last.1)
  }

  /** A whole run paints one-shot renders throughout if and only if the pieces fit at every tick. */
  lemma {:induction false} ExactThroughout(block: Renderer, ticks: seq<(string, nat)>)
    requires Proper(block)
    ensures AlwaysOneShot(block, ticks) <==> AlwaysFits(block, ticks)
  {
    hide PaintsOneShot, PiecesFit, Ticks, FitAfter;
    if ticks != [] {
      var (init, last) := (ticks[..|ticks| - 1], ticks[|ticks| - 1]);
      ExactThroughout(block, init);
      ExactAfterAnyRun(block, init, last.0, last.1);
    }
  }

  // ----- Tidy texts -----

  /** The pieces of a tidy text fit. */
  lemma TidyJoin(a: string, b: string)
    requires TidyText(a + b) && Resumable(a + b, |a|)
    ensures JoinFit(PERFECT, a, b) == PERFECT && TidyText(a)
  {
    hide TidyText, IsCut, PlainTail, Blank, TrailingNewlines, BlankLines;
    TidyAtCut(a + b, |a|);
    assert (a + b)[..|a|] == a && (a + b)[|a|..] == b;
    if a != "" && b != "" {
      TidyHasInk(a);
      TidyHasInk(b);
      TidyPlainTail(a + b, |a|);
      CutIsLineStart(a + b, |a|);
      SeparatorLength(a);
    }
  }

  /** Where a tick cuts a text. */
  lemma CutsOf(c: Cache, raw: string)
    requires CacheOk(c) && c.prefixRaw <= raw
    ensures var (a, n, t) := (c.prefixRaw, NewBlocks(c, raw), TailAfter(c, raw));
            && (a + n) + t == raw && Resumable(raw, |a + n|) && Resumable(a + n, |a|)
  {
    hide IsCut, LastCut;
    var (p, b) := (|c.prefixRaw|, LastCut(raw, |c.prefixRaw|));
    PrefixIsResumable(c, raw);
    ResumeMissesAtMostOne(raw, p);
    assert c.prefixRaw == raw[..p] && c.prefixRaw + NewBlocks(c, raw) == raw[..b];
    CutInPrefix(raw[..b], raw, p);
  }

  /** What is cached for a tidy prefix is exact, even when the texts at hand were not tidy. */
  lemma {:induction false} TidyPrefixFits(block: Renderer, ticks: seq<(string, nat)>)
    requires Proper(block)
    ensures TidyText(Ticks(block, ticks).prefixRaw) ==> FitAfter(block, ticks) == PERFECT
  {
    hide TidyText, Fits, CacheOk, Render, JoinFit, NewBlocks, Blank;
    if ticks != [] {
      var (init, last) := (ticks[..|ticks| - 1], ticks[|ticks| - 1]);
      var (c, raw, w) := (Ticks(block, init), SkipBreaks(last.0), last.1);
      TidyPrefixFits(block, init);
      RunKeepsFit(block, init);
      if raw != "" {
        var valid := Validate(c, raw, w);
        NothingFits(block, w);
        FoldAndPaint(block, valid, raw);
        CutsOf(valid, raw);
        if TidyText(valid.prefixRaw + NewBlocks(valid, raw)) {
          TidyJoin(valid.prefixRaw, NewBlocks(valid, raw));
        }
      }
    }
  }

  /** Cached equals one-shot: after any run of ticks (any texts, growing or reset, at any widths), a
    tick on a tidy text paints exactly the render of the whole text. */
  lemma CachedEqualsOneShot(block: Renderer, ticks: seq<(string, nat)>, partial: string, w: nat)
    requires Proper(block) && SkipBreaks(partial) != "" && TidyText(SkipBreaks(partial))
    ensures Tick(block, Ticks(block, ticks), partial, w).1 == Some(Render(block, w, SkipBreaks(partial)))
  {
    hide TidyText, Render, Tick, Ticks, FitAfter, JoinFit, Resumable, Fits;
    var raw := SkipBreaks(partial);
    var c := Validate(Ticks(block, ticks), raw, w);
    RunKeepsFit(block, ticks);
    NothingFits(block, w);
    CutsOf(c, raw);
    var (a, n) := (c.prefixRaw, NewBlocks(c, raw));
    TidyJoin(a + n, TailAfter(c, raw));
    TidyJoin(a, n);
    TidyPrefixFits(block, ticks);
    ExactAfterAnyRun(block, ticks, partial, w);
  }

  // ----- Blank runs split by a tick -----

  /** Without tidiness the cache can differ: a paragraph and its blank line are cached by one tick, and
    two more blank lines arrive before the next.  For every renderer the second tick then paints
    something else than the one-shot render. */
  lemma BlankRunSplitsTheCache(block: Renderer, w: nat)
    requires Proper(block)
    ensures var text := "A\n\n\n\nB";
            Tick(block, Ticks(block, [("A\n\n", w)]), text, w).1 != Some(Render(block, w, text))
  {
    hide Render, Tick, Ticks, FitAfter, LastCut, PlainTail, Blank, TrailingNewlines, BlankLines, TidyText;
    var (ticks, text) := ([("A\n\n", w)], "A\n\n\n\nB");
    FirstTickCaches(block, w);
    TidyPrefixFits(block, ticks);
    SecondTickPieces(Ticks(block, ticks), text);
    ExactAfterAnyRun(block, ticks, text, w);
  }

  lemma FirstTickCaches(block: Renderer, w: nat)
    ensures var c := Ticks(block, [("A\n\n", w)]);
            c.prefixRaw == "A\n\n" && c.width == w && TidyText(c.prefixRaw)
  {
    hide Render, AppendRendered, LastCut, TidyText, Paint;
    var first := "A\n\n";
    var ticks := [(first, w)];
    FirstIsTidy();
    FirstCut();
    assert ticks[..0] == [] && Ticks(block, []) == EMPTY_CACHE;
    assert SkipBreaks(first) == first && first[..3] == first;
    assert Validate(EMPTY_CACHE, first, w).prefixRaw == "";
  }

  lemma FirstCut()
    ensures LastCut("A\n\n", 0) == 3
  {
    hide Fences;
    var first := "A\n\n";
    ConcreteFences();
    assert first[0..2] == "A\n";
    assert IsCut(first, 0, 3);
  }

  lemma FirstIsTidy()
    ensures TidyText("A\n\n")
  {
    hide Tidy, FenceAfter, Blank;
    ConcreteFences();
    TidyLine("A", "\n", false, true);
    assert "A\n\n" == "A" + ("\n" + "\n");
    TidyLine("", "", false, false);
    assert "" + ("\n" + "") == "\n";
    EmptyIsBlank();
    BlankKeepsFence(false, "");
    NothingTidy();
  }

  lemma NothingTidy()
    ensures Tidy("", false, true)
  {
  }

  lemma ConcreteFences()
    ensures !Fences("A\n", false) && !Fences("\n", false) && !FenceAfter(false, "A") && !Blank("A")
  {
    LettersAreNoFence();
    assert !IsSpace("A"[0]);
    OneLine("", false);
    assert "" + "\n" == "\n";
    EmptyIsBlank();
    BlankKeepsFence(false, "");
  }

  lemma EmptyLineKeepsPlainTail(u: string)
    requires u != "" && AtLineStart(u) && PlainTail(u)
    ensures PlainTail(u + "\n")
  {
    hide IsSpace;
    var a := u + "\n";
    assert a[..|a| - 1] == u && u[..|u|] == u;
    assert LastLine(a) == "" && Before(a) == u;
  }

  lemma SecondTickPieces(c: Cache, text: string)
    requires text == "A\n\n\n\nB" && c.prefixRaw == "A\n\n" && TidyText(c.prefixRaw)
    ensures SkipBreaks(text) == text && c.prefixRaw <= text
    ensures !PaintFit(PERFECT, c, text).IsExact()
  {
    hide Tidy, Fences, FenceAfter, PlainTail, IsSpace, TrailingNewlines, BlankLines;
    var first := c.prefixRaw;
    ConcreteFences();
    assert text[3..4] == "\n" && first[0..2] == "A\n" && first[..3] == first;
    assert IsCut(text, 3, 5) && !IsCut(text, 3, 6);
    LastCutUpToIsLast(text, 3, 6, 5);
    assert text[..3] == first;
    assert NewBlocks(c, text) == "\n" + "\n" && TailAfter(c, text) == "B";
    NewlineIsBlank();
    BlankParts("\n", "\n");
    assert IsCut(first, 0, 3);
    TidyPlainTail(first, 3);
    EmptyLineKeepsPlainTail(first);
    EmptyLineKeepsPlainTail(first + "\n");
    assert first + ("\n" + "\n") == first + "\n" + "\n";
    InkFirst(first);
    InkFirst(first + "\n" + "\n");
    InkFirst("B");
    SeparatorLength(first);
    SeparatorLength(first + "\n" + "\n");
  }

  lemma InkFirst(text: string)
    requires text != "" && text[0] in {'A', 'B'}
    ensures !Blank(text)
  {
    assert !IsSpace(text[0]);
  }

  /** The separator can also be too short: a blank line with a no-break space stops the count, so the
    first tick on this text already loses a newline. */
  lemma NoBreakSpaceShortensTheGap(block: Renderer, w: nat)
    requires Proper(block)
    ensures var text := "A\n\U{A0}\n\nB";
            Tick(block, EMPTY_CACHE, text, w).1 != Some(Render(block, w, text))
  {
    hide Render, Tick, LastCut, PlainTail, Blank, TrailingNewlines, BlankLines, TidyText;
    var text := "A\n\U{A0}\n\nB";
    NothingFits(block, 0);
    TickKeepsFit(block, EMPTY_CACHE, PERFECT, text, w);
    GapPieces(Validate(EMPTY_CACHE, text, w), text);
  }

  lemma GapPieces(c: Cache, text: string)
    requires text == "A\n\U{A0}\n\nB" && c.prefixRaw == ""
    ensures SkipBreaks(text) == text && !PaintFit(PERFECT, c, text).IsExact()
  {
    hide Fences, FenceAfter, IsSpace, TrailingNewlines, BlankLines;
    var cut := text[..5];
    ConcreteFences();
    var gap := "\U{A0}";
    assert text[0..4] == "A\n" + (gap + "\n");
    GapIsSpace();
    assert Blank(gap);
    FencesConcat("A\n", gap + "\n", false);
    OneLine(gap, false);
    BlankKeepsFence(false, gap);
    assert IsCut(text, 0, 5) && !IsCut(text, 0, 6);
    LastCutUpToIsLast(text, 0, 6, 5);
    assert NewBlocks(c, text) == cut && TailAfter(c, text) == "B" && c.prefixRaw + cut == cut;
    GapIsNotPlain(cut);
    InkFirst(cut);
    InkFirst("B");
    SeparatorLength(cut);
  }

  lemma GapIsNotPlain(cut: string)
    requires cut == "A\n\U{A0}\n\n"
    ensures !PlainTail(cut)
  {
    hide IsSpace;
    var (u, gap) := ("A\n\U{A0}\n", "\U{A0}");
    EmptyIsBlank();
    assert cut[..4] == u && LastLineStart(u) == 4;
    assert LastLine(cut) == "" && Before(cut) == u;
    assert u[..3] == "A\n\U{A0}" && u[..3][..2] == "A\n" && u[..2] == "A\n";
    assert LastLineStart(u[..3]) == 2;
    assert LastLine(u) == gap;
    assert gap[0] != ' ' && gap[0] != '\t' && gap[0] != '\r';
    GapIsSpace();
    assert !Plain(gap) && Blank(gap);
  }

  lemma GapIsSpace()
    ensures IsSpace('\U{A0}')
  {
  }

  /** The two can make up for each other, so the pieces cannot be judged one by one: behind this blank
    piece with a no-break space, the separator that is too long and the one that is too short add up. */
  lemma BlankPieceCanFit()
    ensures var (a, n, t) := ("A\n\n", "\U{A0}\n\n", "B");
            && Blank(n) && !PlainTail(a + n)
            && JoinFit(JoinFit(PERFECT, a, n), a + n, t).IsExact()
  {
    hide Blank, Plain, PlainTail, BlankLines, TrailingNewlines;
    GapFacts();
    MendedGap("A", "\U{A0}", "B");
    assert "A" + "\n" + "\n" == "A\n\n" && "\U{A0}" + "\n" + "\n" == "\U{A0}\n\n";
  }

  lemma MendedGap(x: string, gap: string, t: string)
    requires !Blank(x) && '\n' !in x && TrailingNewlines(x) == 0 && !Blank(t)
    requires Blank(gap) && !Plain(gap) && '\n' !in gap
    ensures var (a, n) := (x + "\n" + "\n", gap + "\n" + "\n");
            && Blank(n) && !PlainTail(a + n)
            && JoinFit(JoinFit(PERFECT, a, n), a + n, t).IsExact()
  {
    hide Blank, Plain, PlainTail, BlankLines, TrailingNewlines;
    EmptyIsBlank();
    NewlineIsBlank();
    GapTail(x, gap);
    var (a, n) := (x + "\n" + "\n", gap + "\n" + "\n");
    var u := a + gap + "\n";
    assert u + "" == u && u + "" + "\n" == a + n;
    LineEnds(u, "");
    BlankParts(gap, "\n");
    BlankParts(gap + "\n", "\n");
    BlankParts(a, n);
  }

  lemma LastLineOf(before: string, line: string)
    requires AtLineStart(before) && '\n' !in line
    ensures LastLine(before + line + "\n") == line && Before(before + line + "\n") == before
  {
    var s := before + line;
    assert (s + "\n")[..|s|] == s;
    LastLineStartOf(before, line);
  }

  lemma {:induction false} LastLineStartOf(before: string, line: string)
    requires AtLineStart(before) && '\n' !in line
    ensures LastLineStart(before + line) == |before|
  {
    if line == "" {
      assert before + line == before;
    } else {
      var init := line[..|line| - 1];
      assert (before + line)[..|before + line| - 1] == before + init;
      assert (before + line)[|before + line| - 1] == line[|line| - 1];
      LastLineStartOf(before, init);
    }
  }

  /** One more line at the end of a text. */
  lemma LineEnds(before: string, line: string)
    requires AtLineStart(before) && '\n' !in line
    ensures var s := before + line + "\n";
            && AtLineStart(s) && TrailingNewlines(s) == TrailingNewlines(before + line) + 1
            && BlankLines(s) == (if Blank(line) then BlankLines(before) + 1 else 0)
            && (PlainTail(s) <==> (Blank(line) ==> Plain(line) && PlainTail(before)))
  {
    hide Blank, Plain, PlainTail, BlankLines, LastLine, Before;
    NewlineCounts(before + line);
    LastLineOf(before, line);
    BlankLinesStep(before + line + "\n");
  }

  lemma GapTail(x: string, gap: string)
    requires !Blank(x) && '\n' !in x && TrailingNewlines(x) == 0 && Blank(gap) && !Plain(gap) && '\n' !in gap
    ensures var a := x + "\n" + "\n";
            && AtLineStart(a) && TrailingNewlines(a) == 2 && !Blank(a)
            && AtLineStart(a + gap + "\n") && TrailingNewlines(a + gap + "\n") == 1
            && BlankLines(a + gap + "\n") == 2 && !PlainTail(a + gap + "\n")
  {
    hide Blank, Plain, PlainTail, BlankLines, TrailingNewlines;
    EmptyIsBlank();
    var b := x + "\n";
    var a := b + "\n";
    assert "" + x == x;
    LineEnds("", x);
    assert b + "" == b;
    LineEnds(b, "");
    LineEnds(a, gap);
    GapStops(a, gap);
    BlankParts(x, "\n");
    BlankParts(b, "\n");
  }

  lemma GapStops(a: string, gap: string)
    requires !Plain(gap) && '\n' !in gap
    ensures TrailingNewlines(a + gap) == 0
  {
    StopAtInk(a, gap);
  }

  lemma GapFacts()
    ensures var (x, gap) := ("A", "\U{A0}");
            && !Blank(x) && TrailingNewlines(x) == 0 && Blank(gap) && !Plain(gap) && !Blank("B")
  {
    GapIsSpace();
    InkFirst("A");
    InkFirst("B");
    var gap := "\U{A0}";
    assert gap[0] != ' ' && gap[0] != '\t' && gap[0] != '\r';
  }
}
