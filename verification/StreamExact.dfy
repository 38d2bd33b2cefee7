/** When the cached stream render equals the one-shot render. */
module StreamExact {
  import opened Lines
  import opened StreamBoundary
  import opened StreamRender

  // ----- Rendering a concatenation -----

  /** Text with a newline is its first line and the rest. */
  lemma FirstStep(block: Renderer, w: nat, s: string, p: Para)
    requires IndexNewline(s) >= 0
    ensures var n := IndexNewline(s);
            var (e, rest, q) := (Emit(block, w, p, s[..n]), s[n + 1..], Next(p, s[..n]));
            && Whole(block, w, s, p) == e + Whole(block, w, rest, q)
            && Body(block, w, s, p) == e + Body(block, w, rest, q)
            && After(s, p) == After(rest, q)
  {
    hide Emit, Next, Last;
  }

  lemma NoLinesYet(block: Renderer, w: nat, p: Para)
    ensures Body(block, w, "", p) == "" && After("", p) == p
  {
  }

  lemma {:induction false} WholeConcat(block: Renderer, w: nat, a: string, b: string, p: Para)
    requires AtLineStart(a)
    ensures Whole(block, w, a + b, p) == Body(block, w, a, p) + Whole(block, w, b, After(a, p))
    ensures Body(block, w, a + b, p) == Body(block, w, a, p) + Body(block, w, b, After(a, p))
    ensures After(a + b, p) == After(b, After(a, p))
    decreases |a|
  {
    hide Next, Emit, Last, IndexNewline, Whole, Body, After;
    if a == "" {
      assert a + b == b;
      NoLinesYet(block, w, p);
      assert forall s: string :: "" + s == s;
    } else {
      var n := IndexNewline(a);
      assert a[|a| - 1] == '\n';
      FirstLine(a, b);
      var (e, rest, q) := (Emit(block, w, p, a[..n]), a[n + 1..], Next(p, a[..n]));
      WholeConcat(block, w, rest, b, q);
      FirstStep(block, w, a, p);
      FirstStep(block, w, a + b, p);
      var r := After(rest, q);
      var x := Body(block, w, rest, q);
      assert e + (x + Whole(block, w, b, r)) == (e + x) + Whole(block, w, b, r);
      assert e + (x + Body(block, w, b, r)) == (e + x) + Body(block, w, b, r);
    }
  }

  lemma {:induction false} AfterFollowsFences(s: string, p: Para)
    ensures After(s, p).inFence == Fences(s, p.inFence)
    decreases |s|
  {
    hide FenceAfter, IndexNewline, Blank;
    var n := IndexNewline(s);
    if n >= 0 {
      if Breaks(p, s[..n]) { BlankKeepsFence(p.inFence, s[..n]); }
      AfterFollowsFences(s[n + 1..], Next(p, s[..n]));
    }
  }

  // ----- The last line of a text -----

  /** Where the last line of `s` starts. */
  function LastLineStart(s: string): (j: nat)
    ensures j <= |s| && AtLineStart(s[..j])
    ensures forall i :: j <= i < |s| ==> s[i] != '\n'
  {
    if AtLineStart(s) then
      assert s[..|s|] == s;
      |s|
    else
      var j := LastLineStart(s[..|s| - 1]);
      assert s[..|s| - 1][..j] == s[..j];
      assert forall i :: j <= i < |s| - 1 ==> s[i] == s[..|s| - 1][i];
      j
  }

  function Before(a: string): string
    requires a != ""
  {
    a[..LastLineStart(a[..|a| - 1])]
  }

  function LastLine(a: string): string
    requires a != ""
  {
    a[LastLineStart(a[..|a| - 1])..|a| - 1]
  }

  /** A text of complete lines is what comes before its last line, that line and its newline. */
  lemma SplitLast(a: string)
    requires a != "" && AtLineStart(a)
    ensures a == Before(a) + (LastLine(a) + "\n")
    ensures AtLineStart(Before(a)) && |Before(a)| < |a|
    ensures forall i :: 0 <= i < |LastLine(a)| ==> LastLine(a)[i] != '\n'
  {
    var init := a[..|a| - 1];
    var j := LastLineStart(init);
    assert init[..j] == a[..j];
    assert forall i :: j <= i < |init| ==> init[i] == a[i];
  }

  lemma OneLineBody(block: Renderer, w: nat, line: string, p: Para)
    requires forall i :: 0 <= i < |line| ==> line[i] != '\n'
    ensures Body(block, w, line + "\n", p) == Emit(block, w, p, line)
    ensures After(line + "\n", p) == Next(p, line)
  {
    hide IndexNewline, Next, Emit;
    var s := line + "\n";
    var n := IndexNewline(s);
    assert s[|line|] == '\n';
    assert forall i :: 0 <= i < |line| ==> s[i] == line[i];
    assert s[..n] == line && s[n + 1..] == "";
  }

  // ----- Trailing blank lines -----

  predicate Plain(line: string) {
    forall i :: 0 <= i < |line| ==> line[i] == ' ' || line[i] == '\t' || line[i] == '\r'
  }

  /** The trailing blank lines of `a` hold only spaces, tabs and carriage returns. */
  predicate PlainTail(a: string)
    decreases |a|
  {
    a == "" || !AtLineStart(a) ||
    (SplitLast(a); Blank(LastLine(a)) ==> Plain(LastLine(a)) && PlainTail(Before(a)))
  }

  lemma {:induction false} StripPlain(a: string, line: string)
    requires Plain(line)
    ensures TrailingNewlines(a + line) == TrailingNewlines(a)
  {
    if line == "" {
      assert a + line == a;
    } else {
      assert (a + line)[..|a + line| - 1] == a + line[..|line| - 1];
      StripPlain(a, line[..|line| - 1]);
    }
  }

  lemma {:induction false} StopAtInk(a: string, line: string)
    requires !Plain(line) && forall i :: 0 <= i < |line| ==> line[i] != '\n'
    ensures TrailingNewlines(a + line) == 0
  {
    var init, c := line[..|line| - 1], line[|line| - 1];
    assert (a + line)[..|a + line| - 1] == a + init;
    if c == ' ' || c == '\t' || c == '\r' {
      StopAtInk(a, init);
    }
  }

  lemma PlainIsBlank(line: string)
    requires Plain(line)
    ensures Blank(line)
  {
  }

  /** The blank lines at the end of `a`. */
  function BlankLines(a: string): nat
    decreases |a|
  {
    if a == "" || !AtLineStart(a) then 0
    else
      SplitLast(a);
      if Blank(LastLine(a)) then BlankLines(Before(a)) + 1 else 0
  }

  lemma BlankLinesStep(a: string)
    requires a != "" && AtLineStart(a)
    ensures BlankLines(a) == if Blank(LastLine(a)) then BlankLines(Before(a)) + 1 else 0
    ensures PlainTail(a) <==> (Blank(LastLine(a)) ==> Plain(LastLine(a)) && PlainTail(Before(a)))
  {
  }

  /** The separator puts back one newline for the last line of ink and one for each blank line behind
    it, unless one of those holds white space other than spaces, tabs and carriage returns: then it
    is too short. */
  lemma {:induction false} SeparatorLength(a: string)
    requires a != "" && AtLineStart(a) && !Blank(a)
    ensures 0 < TrailingNewlines(a) <= BlankLines(a) + 1
    ensures TrailingNewlines(a) == BlankLines(a) + 1 <==> PlainTail(a)
    decreases |a|
  {
    hide Blank, Plain, Before, LastLine, LastLineStart, PlainTail, BlankLines;
    SplitLast(a);
    BlankLinesStep(a);
    var (u, line) := (Before(a), LastLine(a));
    assert a == (u + line) + "\n";
    NewlineCounts(u + line);
    if !Plain(line) {
      StopAtInk(u, line);
    } else {
      PlainIsBlank(line);
      StripPlain(u, line);
      NotAllBlank(u, line);
      SeparatorLength(u);
    }
  }

  lemma NotAllBlank(u: string, line: string)
    requires !Blank(u + (line + "\n")) && Blank(line)
    ensures u != "" && !Blank(u)
  {
    BlankParts(u, line + "\n");
    BlankParts(line, "\n");
    NewlineIsBlank();
  }

  lemma NewlineCounts(s: string)
    ensures TrailingNewlines(s + "\n") == TrailingNewlines(s) + 1
  {
    assert (s + "\n")[..|s|] == s;
  }

  lemma {:induction false} TrimmedEnds(x: string, k: nat)
    requires x == "" || x[|x| - 1] != '\n'
    ensures TrimNewlines(x + Newlines(k)) == x
  {
    if k == 0 {
      assert x + Newlines(k) == x;
    } else {
      assert (x + Newlines(k))[..|x| + k - 1] == x + Newlines(k - 1);
      TrimmedEnds(x, k - 1);
    }
  }

  lemma {:induction false} TrimKeepsFront(a: string, b: string)
    requires TrimNewlines(b) != ""
    ensures TrimNewlines(a + b) == a + TrimNewlines(b)
  {
    if b[|b| - 1] == '\n' {
      assert (a + b)[..|a + b| - 1] == a + b[..|b| - 1];
      TrimKeepsFront(a, b[..|b| - 1]);
    }
  }

  lemma BlankParts(a: string, b: string)
    ensures Blank(a + b) <==> Blank(a) && Blank(b)
  {
    assert forall i :: 0 <= i < |a| ==> (a + b)[i] == a[i];
    if Blank(a + b) {
      forall i | 0 <= i < |b|
        ensures IsSpace(b[i])
      {
        assert (a + b)[|a| + i] == b[i];
      }
    }
  }

  lemma NewlineIsBlank()
    ensures Blank("\n")
  {
  }

  /** `a` consists of complete lines and leaves no paragraph open. */
  predicate Settled(a: string) {
    AtLineStart(a) && After(a, START) == START
  }

  /** What a settled text puts out: its trimmed render, a newline, and one for each blank line at its end. */
  ghost predicate Shape(block: Renderer, w: nat, a: string) {
    var out := Body(block, w, a, START);
    if Blank(a) then out == Newlines(|out|)
    else TrimNewlines(out) != "" && out == TrimNewlines(out) + Newlines(BlankLines(a) + 1)
  }

  lemma {:induction false} SettledShape(block: Renderer, w: nat, a: string)
    requires Proper(block) && Settled(a)
    ensures Shape(block, w, a)
    decreases |a|
  {
    hide Body, After, Blank, FenceAfter, Before, LastLine, Proper, Shape, BlankLines;
    if a == "" {
      EmptyShape(block, w);
    } else {
      SplitLast(a);
      var u, line := Before(a), LastLine(a);
      var p := After(u, START);
      WholeConcat(block, w, u, line + "\n", START);
      OneLineBody(block, w, line, p);
      assert Next(p, line) == START;
      assert Breaks(p, line);
      BlankLinesStep(a);
      BlankParts(u, line + "\n");
      BlankParts(line, "\n");
      NewlineIsBlank();
      assert Blank(a) <==> Blank(u);
      if p.lines == [] {
        NoLinesMeansStart(u);
        SettledShape(block, w, u);
        assert Emit(block, w, p, line) == "\n";
        OneMoreNewline(block, w, a, u);
      } else {
        ParagraphThenBlank(block, w, a, u, line, p);
      }
    }
  }

  lemma EmptyShape(block: Renderer, w: nat)
    ensures Shape(block, w, "")
  {
    EmptyIsBlank();
  }

  lemma EmptyIsBlank()
    ensures Blank("")
  {
  }

  lemma {:induction false} NoLinesMeansStart(a: string)
    requires AtLineStart(a) && After(a, START).lines == []
    ensures After(a, START) == START
  {
    hide FenceAfter, IndexNewline;
    if a != "" {
      SplitLast(a);
      WholeConcat((w, ls) => "", 0, Before(a), LastLine(a) + "\n", START);
      OneLineBody((w, ls) => "", 0, LastLine(a), After(Before(a), START));
    }
  }

  /** A blank line after a blank line adds one newline. */
  lemma OneMoreNewline(block: Renderer, w: nat, a: string, u: string)
    requires Body(block, w, a, START) == Body(block, w, u, START) + "\n" && Shape(block, w, u)
    requires Blank(a) <==> Blank(u)
    requires BlankLines(a) == BlankLines(u) + 1
    ensures Shape(block, w, a)
  {
    hide Body, Blank, BlankLines;
    var x, y := Body(block, w, a, START), Body(block, w, u, START);
    assert x[..|x| - 1] == y;
    if Blank(u) {
      assert x == Newlines(|x|);
    } else {
      assert TrimNewlines(x) == TrimNewlines(y);
      assert Newlines(BlankLines(u) + 1) + "\n" == Newlines(BlankLines(a) + 1);
    }
  }

  /** A blank line after a paragraph puts out the paragraph and two newlines. */
  lemma ParagraphThenBlank(block: Renderer, w: nat, a: string, u: string, line: string, p: Para)
    requires Proper(block) && AtLineStart(u) && p == After(u, START) && p.lines != [] && !p.inFence
    requires a == u + (line + "\n") && Blank(line)
    requires Body(block, w, a, START) == Body(block, w, u, START) + Emit(block, w, p, line)
    requires BlankLines(a) == BlankLines(u) + 1
    ensures Shape(block, w, a)
  {
    ParagraphEndsInInk(u, p);
    BlankParts(u, line + "\n");
    ParagraphOut(block, w, Body(block, w, u, START), p, line);
  }

  lemma ParagraphOut(block: Renderer, w: nat, before: string, p: Para, line: string)
    requires Proper(block) && p.lines != [] && !p.inFence && Blank(line)
    ensures var out := before + Emit(block, w, p, line);
            TrimNewlines(out) != "" && out == TrimNewlines(out) + Newlines(2)
  {
    hide TrimNewlines, Blank;
    var shown := block(w, p.lines);
    assert shown != "" && shown[|shown| - 1] != '\n';
    hide Proper;
    var x := before + shown;
    assert Emit(block, w, p, line) == shown + "\n" + "\n" == shown + Newlines(2);
    assert before + (shown + Newlines(2)) == x + Newlines(2);
    assert x[|x| - 1] == shown[|shown| - 1];
    TrimmedEnds(x, 2);
  }

  /** An open paragraph outside a fence ends in a line of ink. */
  lemma ParagraphEndsInInk(u: string, p: Para)
    requires AtLineStart(u) && p == After(u, START) && p.lines != [] && !p.inFence
    ensures u != "" && BlankLines(u) == 0 && !Blank(u)
  {
    hide After, FenceAfter, Before, LastLine, Blank, BlankLines;
    NothingAfterEmpty();
    SplitLast(u);
    BlankLinesStep(u);
    var (v, last) := (Before(u), LastLine(u));
    var q := After(v, START);
    WholeConcat((w, ls) => "", 0, v, last + "\n", START);
    OneLineBody((w, ls) => "", 0, last, q);
    assert Next(q, last) == p && !Breaks(q, last);
    LastLineHasInk(q, last, p);
    BlankParts(v, last + "\n");
    BlankParts(last, "\n");
  }

  lemma NothingAfterEmpty()
    ensures After("", START) == START
  {
  }

  lemma LastLineHasInk(q: Para, last: string, p: Para)
    requires Next(q, last) == p && !Breaks(q, last) && !p.inFence
    ensures !Blank(last)
  {
    if Blank(last) {
      BlankKeepsFence(q.inFence, last);
    }
  }

  // ----- Joining two renders -----

  /** A text without ink renders to nothing, a text with ink to something. */
  lemma {:induction false} InkShows(block: Renderer, w: nat, s: string, p: Para)
    requires Proper(block)
    ensures TrimNewlines(Whole(block, w, s, p)) == "" <==> p.lines == [] && !p.inFence && Blank(s)
    decreases |s|
  {
    hide IsSpace, FenceAfter, Proper, Blank, TrimNewlines, Emit, Last;
    var n := IndexNewline(s);
    if n < 0 {
      LastShows(block, w, p, s);
    } else {
      var line, rest := s[..n], s[n + 1..];
      InkShows(block, w, rest, Next(p, line));
      assert s == line + ("\n" + rest);
      BlankParts(line, "\n" + rest);
      BlankParts("\n", rest);
      NewlineIsBlank();
      var e, r := Emit(block, w, p, line), Whole(block, w, rest, Next(p, line));
      EmitShows(block, w, p, line);
      TrimParts(e, r);
    }
  }

  lemma LastShows(block: Renderer, w: nat, p: Para, line: string)
    requires Proper(block)
    ensures TrimNewlines(Last(block, w, p, line)) == "" <==> p.lines == [] && Breaks(p, line)
  {
    hide Blank;
    var ls := if Breaks(p, line) then p.lines else p.lines + [line];
    if ls == [] {
      assert Last(block, w, p, line) == "" + Newlines(1);
      TrimmedEnds("", 1);
    } else {
      TrimmedEnds(block(w, ls), 1);
      TrimmedEnds(block(w, ls), 2);
      assert block(w, ls) + "\n" == block(w, ls) + Newlines(1);
      assert block(w, ls) + "\n" + "\n" == block(w, ls) + Newlines(2);
    }
  }

  lemma EmitShows(block: Renderer, w: nat, p: Para, line: string)
    requires Proper(block)
    ensures TrimNewlines(Emit(block, w, p, line)) == "" <==> p.lines == [] || !Breaks(p, line)
  {
    hide Blank;
    if Breaks(p, line) {
      LastShows(block, w, p, line);
    }
  }

  lemma {:induction false} TrimParts(a: string, b: string)
    ensures TrimNewlines(a + b) == "" <==> TrimNewlines(a) == "" && TrimNewlines(b) == ""
  {
    if b == "" {
      assert a + b == a;
    } else if b[|b| - 1] == '\n' {
      assert (a + b)[..|a + b| - 1] == a + b[..|b| - 1];
      TrimParts(a, b[..|b| - 1]);
    }
  }

  lemma {:induction false} AllNewlines(s: string)
    requires TrimNewlines(s) == ""
    ensures s == Newlines(|s|)
  {
    if s != "" {
      AllNewlines(s[..|s| - 1]);
      assert s == s[..|s| - 1] + "\n";
    }
  }

  lemma RenderOfSettled(block: Renderer, w: nat, a: string)
    requires Settled(a)
    ensures Render(block, w, a) == TrimNewlines(Body(block, w, a, START))
  {
    hide IndexNewline;
    WholeConcat(block, w, a, "", START);
    assert a + "" == a;
    NewlineIsBlank();
    EmptyIsBlank();
    var x := Body(block, w, a, START);
    assert Whole(block, w, "", START) == "\n";
    assert (x + "\n")[..|x|] == x;
  }

  /** Rendering a settled text together with what follows it. */
  lemma RenderBehind(block: Renderer, w: nat, a: string, b: string)
    requires Proper(block) && Settled(a)
    ensures !Blank(a) && Blank(b) ==> Render(block, w, a + b) == Render(block, w, a)
    ensures !Blank(a) && !Blank(b) ==>
              Render(block, w, a + b) == Render(block, w, a) + Newlines(BlankLines(a) + 1) + Render(block, w, b)
    ensures Blank(a) && a != "" && !Blank(b) ==> |Render(block, w, a + b)| > |Render(block, w, b)|
  {
    hide Whole, Body, IsSpace, Blank, TrimNewlines, After, BlankLines;
    SettledShape(block, w, a);
    RenderOfSettled(block, w, a);
    WholeConcat(block, w, a, b, START);
    InkShows(block, w, b, START);
    var (out, k, rest) := (Body(block, w, a, START), BlankLines(a) + 1, Whole(block, w, b, START));
    var x := TrimNewlines(out);
    if !Blank(b) {
      TrimKeepsFront(out, rest);
      if Blank(a) && a != "" {
        BlankPutsOut(block, w, a);
      }
    } else if !Blank(a) {
      assert out == x + Newlines(k);
      AllNewlines(rest);
      NewlinesConcat(x, k, |rest|);
      TrimEnd(out);
      TrimmedEnds(x, k + |rest|);
    }
  }

  lemma BlankPutsOut(block: Renderer, w: nat, a: string)
    requires a != "" && AtLineStart(a) && Blank(a)
    ensures Body(block, w, a, START) != ""
  {
    hide IndexNewline, IsSpace;
    var n := IndexNewline(a);
    assert a[|a| - 1] == '\n';
    FirstStep(block, w, a, START);
    assert Blank(a[..n]);
  }

  lemma RenderIsTrimmed(block: Renderer, w: nat, s: string)
    requires Proper(block)
    ensures Render(block, w, s) == "" <==> Blank(s)
    ensures Render(block, w, s) == "" || Render(block, w, s)[|Render(block, w, s)| - 1] != '\n'
  {
    hide Whole, Blank, TrimNewlines;
    InkShows(block, w, s, START);
    TrimEnd(Whole(block, w, s, START));
  }

  lemma SameEnds(x: string, i: nat, y: string, j: nat)
    requires x != "" && y != "" && x[|x| - 1] != '\n' && y[|y| - 1] != '\n'
    ensures x + Newlines(i) == y + Newlines(j) <==> x == y && i == j
  {
    TrimmedEnds(x, i);
    TrimmedEnds(y, j);
  }

  /** The heart of the cache: appending the render of `b` to the render of a settled `a` with ink, with
    the separator put back, is the render of the whole if and only if `b` has ink and the blank lines
    at the end of `a` hold nothing but spaces, tabs and carriage returns. */
  lemma AppendIsExact(block: Renderer, w: nat, a: string, b: string)
    requires Proper(block) && Settled(a) && !Blank(a)
    ensures AppendRendered(Render(block, w, a), Render(block, w, b), a) == Render(block, w, a + b)
            <==> !Blank(b) && PlainTail(a)
  {
    hide Render, PlainTail, IsSpace, Blank, After, TrailingNewlines, BlankLines;
    EmptyIsBlank();
    RenderIsTrimmed(block, w, a);
    RenderIsTrimmed(block, w, b);
    RenderBehind(block, w, a, b);
    SeparatorLength(a);
  }

  lemma NewlinesConcat(x: string, a: nat, b: nat)
    ensures x + Newlines(a) + Newlines(b) == x + Newlines(a + b)
  {
    assert Newlines(a) + Newlines(b) == Newlines(a + b);
  }

  lemma {:induction false} TrimEnd(s: string)
    ensures TrimNewlines(s) == "" || TrimNewlines(s)[|TrimNewlines(s)| - 1] != '\n'
  {
    if s != "" && s[|s| - 1] == '\n' {
      TrimEnd(s[..|s| - 1]);
    }
  }

  // ----- Cuts are settled -----

  lemma CutIsSettled(raw: string, p: nat)
    requires Resumable(raw, p) && p <= |raw|
    ensures Settled(raw[..p])
  {
    hide IndexNewline, Fences, FenceAfter, Blank;
    if p == 0 {
      NothingAfterEmpty();
    } else {
      var u := raw[..p - 1];
      assert raw[0..p - 1] == u;
      assert raw[..p] == u + ("" + "\n");
      assert u[|u| - 1] == raw[p - 2];
      WholeConcat((w, ls) => "", 0, u, "" + "\n", START);
      OneLineBody((w, ls) => "", 0, "", After(u, START));
      AfterFollowsFences(u, START);
      EmptyIsBlank();
    }
  }

  /** The cache remembers a resumable prefix and the width it was rendered for. */
  ghost predicate CacheOk(c: Cache) {
    Resumable(c.prefixRaw, |c.prefixRaw|)
  }

  lemma PrefixIsResumable(c: Cache, raw: string)
    requires CacheOk(c) && c.prefixRaw <= raw
    ensures Resumable(raw, |c.prefixRaw|)
  {
    CutInPrefix(c.prefixRaw, raw, |c.prefixRaw|);
  }

  lemma FoldKeeps(block: Renderer, c: Cache, raw: string)
    requires CacheOk(c) && c.prefixRaw <= raw
    ensures CacheOk(Fold(block, c, raw))
    ensures Resumable(raw, |Fold(block, c, raw).prefixRaw|)
  {
    hide IsCut, Render, AppendRendered;
    var f := Fold(block, c, raw);
    PrefixIsResumable(c, raw);
    ResumeMissesAtMostOne(raw, |c.prefixRaw|);
    CutInPrefix(f.prefixRaw, raw, |f.prefixRaw|);
  }

  // ----- One tick, exactly -----

  /** The blocks that a tick folds into the prefix, and the tail that it renders afresh. */
  function NewBlocks(c: Cache, raw: string): string
    requires c.prefixRaw <= raw
  {
    raw[|c.prefixRaw|..LastCut(raw, |c.prefixRaw|)]
  }

  function TailAfter(c: Cache, raw: string): string
    requires c.prefixRaw <= raw
  {
    raw[LastCut(raw, |c.prefixRaw|)..]
  }

  /** Rendering `b` on its own behind the settled prefix `a`. */
  function Joined(block: Renderer, w: nat, out: string, a: string, b: string): string {
    if b == "" then out else AppendRendered(out, Render(block, w, b), a)
  }

  lemma FoldAndPaint(block: Renderer, c: Cache, raw: string)
    requires c.prefixRaw <= raw
    ensures var b := LastCut(raw, |c.prefixRaw|);
            var out := Joined(block, c.width, c.prefixOut, c.prefixRaw, NewBlocks(c, raw));
            && Fold(block, c, raw) == Cache(raw[..b], out, c.width)
            && Paint(block, Fold(block, c, raw), raw) == Joined(block, c.width, out, raw[..b], TailAfter(c, raw))
  {
    hide Render, AppendRendered;
    assert c.prefixRaw == raw[..|c.prefixRaw|];
  }

  /** How the joined renders of the pieces of a text compare with its one-shot render: whether they
    agree up to the last ink, and how many newlines the joined ones have behind it. */
  datatype Fit = Fit(agrees: bool, extra: nat) {
    predicate IsExact() {
      agrees && extra == 0
    }
  }

  const PERFECT := Fit(true, 0)

  /** What joining the piece `b` onto the text `a` makes of its fit.  It depends on the text alone. */
  function JoinFit(fit: Fit, a: string, b: string): Fit {
    if b == "" then fit
    else if a == "" then PERFECT
    else if Blank(a) then Fit(Blank(b), 0)
    else if Blank(b) then fit.(extra := fit.extra + TrailingNewlines(a))
    else Fit(fit.agrees && fit.extra + TrailingNewlines(a) == BlankLines(a) + 1, 0)
  }

  ghost predicate Fits(block: Renderer, w: nat, out: string, s: string, fit: Fit) {
    if Blank(s) then out == "" && fit == PERFECT
    else
      var x := TrimNewlines(out);
      x != "" && out == x + Newlines(fit.extra) && (fit.agrees <==> x == Render(block, w, s))
  }

  lemma ExactFits(block: Renderer, w: nat, s: string)
    requires Proper(block)
    ensures Fits(block, w, Render(block, w, s), s, PERFECT)
  {
    hide Render, Blank;
    RenderIsTrimmed(block, w, s);
    TrimmedEnds(Render(block, w, s), 0);
    assert Render(block, w, s) + Newlines(0) == Render(block, w, s);
  }

  lemma FitMeansExact(block: Renderer, w: nat, out: string, s: string, fit: Fit)
    requires Proper(block) && Fits(block, w, out, s, fit)
    ensures out == Render(block, w, s) <==> fit.IsExact()
  {
    hide Render, Blank;
    RenderIsTrimmed(block, w, s);
    if !Blank(s) {
      var x := TrimNewlines(out);
      TrimEnd(out);
      SameEnds(x, fit.extra, Render(block, w, s), 0);
      assert Render(block, w, s) + Newlines(0) == Render(block, w, s);
    }
  }

  lemma JoinBlank(block: Renderer, w: nat, out: string, a: string, b: string, fit: Fit)
    requires Proper(block) && Settled(a) && Fits(block, w, out, a, fit) && Blank(b) && b != "" && !Blank(a)
    ensures Fits(block, w, Joined(block, w, out, a, b), a + b, JoinFit(fit, a, b))
  {
    hide Render, Blank, After, TrailingNewlines, BlankLines;
    EmptyIsBlank();
    RenderIsTrimmed(block, w, b);
    RenderBehind(block, w, a, b);
    BlankParts(a, b);
    var (x, k) := (TrimNewlines(out), TrailingNewlines(a));
    TrimEnd(out);
    NewlinesConcat(x, fit.extra, k);
    TrimmedEnds(x, fit.extra + k);
    hide TrimNewlines;
    assert out + Newlines(k) + "" == x + Newlines(fit.extra + k);
    assert Joined(block, w, out, a, b) == x + Newlines(fit.extra + k);
  }

  lemma JoinInk(block: Renderer, w: nat, out: string, a: string, b: string, fit: Fit)
    requires Proper(block) && Settled(a) && Fits(block, w, out, a, fit) && !Blank(b) && !Blank(a)
    ensures Fits(block, w, Joined(block, w, out, a, b), a + b, JoinFit(fit, a, b))
  {
    hide Render, Blank, After, TrailingNewlines, BlankLines, TrimNewlines;
    EmptyIsBlank();
    RenderIsTrimmed(block, w, a);
    RenderIsTrimmed(block, w, b);
    RenderBehind(block, w, a, b);
    BlankParts(a, b);
    var (x, k, full) := (TrimNewlines(out), TrailingNewlines(a), BlankLines(a) + 1);
    var (ra, rb) := (Render(block, w, a), Render(block, w, b));
    TrimEnd(out);
    NewlinesConcat(x, fit.extra, k);
    var joined := Joined(block, w, out, a, b);
    assert joined == (x + Newlines(fit.extra + k)) + rb;
    TrimmedEnds(joined, 0);
    assert joined + Newlines(0) == joined;
    SameFront(x + Newlines(fit.extra + k), ra + Newlines(full), rb);
    SameEnds(x, fit.extra + k, ra, full);
  }

  lemma SameFront(x: string, y: string, z: string)
    ensures x + z == y + z <==> x == y
  {
    if x + z == y + z {
      assert (x + z)[..|x|] == x && (y + z)[..|y|] == y;
    }
  }

  /** Joining keeps the fit, whatever the texts and whatever was cached for them. */
  lemma JoinKeepsFit(block: Renderer, w: nat, out: string, a: string, b: string, fit: Fit)
    requires Proper(block) && Settled(a) && Fits(block, w, out, a, fit)
    ensures Fits(block, w, Joined(block, w, out, a, b), a + b, JoinFit(fit, a, b))
  {
    EmptyIsBlank();
    BlankParts(a, b);
    hide Render, Blank, After, TrailingNewlines, BlankLines, TrimNewlines;
    if b == "" {
      assert a + b == a;
    } else if a == "" {
      assert a + b == b;
      ExactFits(block, w, b);
    } else if Blank(a) {
      RenderIsTrimmed(block, w, b);
      RenderBehind(block, w, a, b);
      TrimmedEnds(Render(block, w, b), 0);
      assert Render(block, w, b) + Newlines(0) == Render(block, w, b);
    } else if Blank(b) {
      JoinBlank(block, w, out, a, b, fit);
    } else {
      JoinInk(block, w, out, a, b, fit);
    }
  }

  /** The fit of the prefix after a tick folded the new blocks into it. */
  function FoldFit(fit: Fit, c: Cache, raw: string): Fit
    requires c.prefixRaw <= raw
  {
    JoinFit(fit, c.prefixRaw, NewBlocks(c, raw))
  }

  /** The fit of what a tick paints.  It can be read off the text before the tick. */
  function PaintFit(fit: Fit, c: Cache, raw: string): Fit
    requires c.prefixRaw <= raw
  {
    JoinFit(FoldFit(fit, c, raw), c.prefixRaw + NewBlocks(c, raw), TailAfter(c, raw))
  }

  /** A tick paints the one-shot render if and only if its pieces fit, whatever the text and whatever
    the cache holds; and the prefix it leaves has the fit of its pieces. */
  lemma TickIsExact(block: Renderer, c: Cache, raw: string, fit: Fit)
    requires Proper(block) && CacheOk(c) && Fits(block, c.width, c.prefixOut, c.prefixRaw, fit) && c.prefixRaw <= raw
    ensures Paint(block, Fold(block, c, raw), raw) == Render(block, c.width, raw) <==> PaintFit(fit, c, raw).IsExact()
    ensures var f := Fold(block, c, raw); Fits(block, f.width, f.prefixOut, f.prefixRaw, FoldFit(fit, c, raw))
  {
    hide Render, Fits, JoinFit, IsCut, AppendRendered, Settled, LastCut;
    var (w, p, b) := (c.width, |c.prefixRaw|, LastCut(raw, |c.prefixRaw|));
    var (a, n, t) := (c.prefixRaw, NewBlocks(c, raw), TailAfter(c, raw));
    assert a == raw[..p] && a + n == raw[..b] && a + n + t == raw;
    PrefixIsResumable(c, raw);
    ResumeMissesAtMostOne(raw, p);
    CutIsSettled(raw, p);
    CutIsSettled(raw, b);
    FoldAndPaint(block, c, raw);
    JoinKeepsFit(block, w, c.prefixOut, a, n, fit);
    var out := Joined(block, w, c.prefixOut, a, n);
    var f1 := FoldFit(fit, c, raw);
    JoinKeepsFit(block, w, out, a + n, t, f1);
    FitMeansExact(block, w, Joined(block, w, out, a + n, t), raw, PaintFit(fit, c, raw));
  }

  /** In the usual case, an exact cache and pieces with ink, the condition is about the separators
    alone: the tick is exact if and only if they are plain. */
  lemma InkedTick(block: Renderer, c: Cache, raw: string)
    requires Proper(block) && CacheOk(c) && c.prefixRaw <= raw && c.prefixOut == Render(block, c.width, c.prefixRaw)
    requires c.prefixRaw == "" || !Blank(c.prefixRaw)
    requires NewBlocks(c, raw) == "" || !Blank(NewBlocks(c, raw))
    requires TailAfter(c, raw) != "" && !Blank(TailAfter(c, raw))
    ensures Paint(block, Fold(block, c, raw), raw) == Render(block, c.width, raw)
            <==> (NewBlocks(c, raw) == "" || PlainTail(c.prefixRaw)) && PlainTail(c.prefixRaw + NewBlocks(c, raw))
  {
    hide Render, Blank, PlainTail, IsCut, AppendRendered, LastCut, TrailingNewlines, BlankLines, Fits, Paint;
    hide Fold, After;
    var (a, n, b) := (c.prefixRaw, NewBlocks(c, raw), LastCut(raw, |c.prefixRaw|));
    assert a == raw[..|a|] && a + n == raw[..b];
    ExactFits(block, c.width, a);
    TickIsExact(block, c, raw, PERFECT);
    PrefixIsResumable(c, raw);
    ResumeMissesAtMostOne(raw, |a|);
    CutIsSettled(raw, |a|);
    CutIsSettled(raw, b);
    BlankParts(a, n);
    NothingPlain();
    if a != "" {
      SeparatorLength(a);
    }
    if a + n != "" {
      assert a == "" ==> a + n == n;
      assert n == "" ==> a + n == a;
      SeparatorLength(a + n);
    }
  }

  lemma NothingPlain()
    ensures PlainTail("")
  {
  }
}
