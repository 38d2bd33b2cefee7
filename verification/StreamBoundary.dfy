/** The resumable scan for the last blank line outside a code fence in a growing stream. */
module StreamBoundary {
  import opened Lines

  /** `b` lies just past an empty line of `raw[from..]` that is outside every fence; the line itself
    is not the first one. */
  predicate IsCut(raw: string, from: nat, b: nat) {
    from + 2 <= b <= |raw| && raw[b - 1] == '\n' && raw[b - 2] == '\n' && !Fences(raw[from..b - 1], false)
  }

  /** The last cut of `raw[from..]` that is at most `n`, or `from` when there is none. */
  function LastCutUpTo(raw: string, from: nat, n: nat): (r: nat)
    requires from <= n <= |raw|
    ensures from <= r <= n
  {
    if n < from + 2 then from
    else if IsCut(raw, from, n) then n
    else LastCutUpTo(raw, from, n - 1)
  }

  function LastCut(raw: string, from: nat): (r: nat)
    requires from <= |raw|
    ensures from <= r <= |raw|
  {
    LastCutUpTo(raw, from, |raw|)
  }

  lemma {:induction false} LastCutUpToIsLast(raw: string, from: nat, n: nat, r: nat)
    requires from <= n <= |raw|
    requires r == from || (IsCut(raw, from, r) && r <= n)
    requires forall b: nat :: IsCut(raw, from, b) && b <= n ==> b <= r
    ensures LastCutUpTo(raw, from, n) == r
  {
    if n >= from + 2 && !IsCut(raw, from, n) {
      LastCutUpToIsLast(raw, from, n - 1, r);
    }
  }

  /** The last cut is a cut, and there is none after it. */
  lemma {:induction false} LastCutUpToWorks(raw: string, from: nat, n: nat)
    requires from <= n <= |raw|
    ensures var r := LastCutUpTo(raw, from, n);
            && from <= r <= n && (r == from || IsCut(raw, from, r))
            && forall b: nat :: IsCut(raw, from, b) && b <= n ==> b <= r
  {
    if n >= from + 2 && !IsCut(raw, from, n) {
      LastCutUpToWorks(raw, from, n - 1);
    }
  }

  method StreamStableBoundary(raw: string, from: nat) returns (boundary: nat)
    requires from <= |raw|
    ensures boundary == LastCut(raw, from)
  {
    hide IsCut, Fences, FenceAfter;
    CutBounds(raw, from);
    NoLines(false);
    assert raw[from..from] == "";
    boundary := from;
    var inFence := false;
    var pos := from;
    while true
      invariant from <= pos <= |raw| && (pos == from || raw[pos - 1] == '\n')
      invariant inFence == Fences(raw[from..pos], false)
      invariant boundary == from || (IsCut(raw, from, boundary) && boundary <= pos + 1)
      invariant forall b: nat :: IsCut(raw, from, b) && b <= pos + 1 ==> b <= boundary
      decreases |raw| - pos
    {
      var nl := IndexNewline(raw[pos..]);
      if nl < 0 {
        NoMoreCuts(raw, from, pos);
        break;
      }
      var line := raw[pos..pos + nl];
      var trimmed := TrimSpace(line);
      ghost var before := inFence;
      if !inFence && FENCE <= trimmed {
        inFence := true;
      } else if inFence && trimmed == FENCE {
        inFence := false;
      }
      var lineEnd := pos + nl + 1;
      assert inFence == FenceAfter(before, line) by { FenceStep(before, line); }
      ScanLine(raw, from, pos, nl);
      if !inFence && lineEnd < |raw| && raw[lineEnd] == '\n' {
        boundary := lineEnd + 1;
      }
      pos := lineEnd;
    }
    LastCutUpToIsLast(raw, from, |raw|, boundary);
  }

  lemma CutBounds(raw: string, from: nat)
    ensures forall b: nat :: IsCut(raw, from, b) ==> from + 2 <= b <= |raw|
  {
  }

  lemma FenceStep(inFence: bool, line: string)
    ensures FenceAfter(inFence, line) ==
            (if !inFence && FENCE <= TrimSpace(line) then true
             else if inFence && TrimSpace(line) == FENCE then false
             else inFence)
  {
  }

  /** Scanning one more line: the fence state follows, and the only new cut can be at its end. */
  lemma ScanLine(raw: string, from: nat, pos: nat, nl: nat)
    requires from <= pos <= |raw| && (pos == from || raw[pos - 1] == '\n')
    requires nl == IndexNewline(raw[pos..])
    ensures var lineEnd := pos + nl + 1;
            && lineEnd <= |raw| && raw[lineEnd - 1] == '\n'
            && Fences(raw[from..lineEnd], false) == FenceAfter(Fences(raw[from..pos], false), raw[pos..pos + nl])
            && (IsCut(raw, from, lineEnd + 1) <==>
                  lineEnd < |raw| && raw[lineEnd] == '\n' && !Fences(raw[from..lineEnd], false))
            && forall b: nat :: IsCut(raw, from, b) && pos + 1 < b <= lineEnd + 1 ==> b == lineEnd + 1
  {
    hide Fences, FenceAfter, IndexNewline;
    var line := raw[pos..pos + nl];
    var lineEnd := pos + nl + 1;
    assert forall i :: 0 <= i < nl ==> line[i] == raw[pos..][i];
    assert raw[pos..][nl] == raw[pos + nl];
    assert raw[from..lineEnd] == raw[from..pos] + (line + "\n");
    assert pos > from ==> raw[from..pos][pos - from - 1] == raw[pos - 1];
    FencesConcat(raw[from..pos], line + "\n", false);
    OneLine(line, Fences(raw[from..pos], false));
    assert forall q :: pos <= q < lineEnd - 1 ==> raw[q] == raw[pos..][q - pos];
  }

  lemma NoMoreCuts(raw: string, from: nat, pos: nat)
    requires from <= pos <= |raw| && IndexNewline(raw[pos..]) < 0
    ensures forall b: nat :: IsCut(raw, from, b) ==> b <= pos + 1
  {
    assert forall q :: pos <= q < |raw| ==> raw[q] == raw[pos..][q - pos];
  }

  // ----- Resuming -----

  /** Where a scan may be resumed: at the start, or just past a cut of the scan from scratch. */
  predicate Resumable(raw: string, p: nat) {
    p == 0 || IsCut(raw, 0, p)
  }

  /** A boundary is a line start outside every fence. */
  lemma CutIsLineStart(raw: string, p: nat)
    requires Resumable(raw, p)
    ensures p <= |raw| && AtLineStart(raw[..p]) && !Fences(raw[..p], false)
  {
    if p > 0 {
      assert raw[..p] == raw[..p - 1] + ("" + "\n");
      assert raw[0..p - 1] == raw[..p - 1];
      FencesConcat(raw[..p - 1], "" + "\n", false);
      OneLine("", Fences(raw[..p - 1], false));
      BlankKeepsFence(false, "");
    }
  }

  /** Resumed at a boundary, the scan sees the cuts of the scan from scratch that lie at least two
    characters further. */
  lemma ResumedCuts(raw: string, p: nat, b: nat)
    requires Resumable(raw, p)
    ensures IsCut(raw, p, b) <==> IsCut(raw, 0, b) && b >= p + 2
  {
    CutIsLineStart(raw, p);
    if p + 2 <= b <= |raw| {
      assert raw[0..b - 1] == raw[..p] + raw[p..b - 1];
      FencesConcat(raw[..p], raw[p..b - 1], false);
    }
  }

  /** A resumed scan finds the boundary of the scan from scratch, except that it misses it when it is
    exactly one newline past the point of resumption. */
  lemma ResumeMissesAtMostOne(raw: string, p: nat)
    requires Resumable(raw, p) && p <= |raw|
    ensures var scratch, resumed := LastCut(raw, 0), LastCut(raw, p);
            && Resumable(raw, resumed) && p <= resumed <= scratch
            && resumed == (if scratch == p + 1 then p else scratch)
            && (resumed != scratch ==> scratch == resumed + 1 && raw[resumed] == '\n')
  {
    LastCutUpToWorks(raw, 0, |raw|);
    LastCutUpToWorks(raw, p, |raw|);
    ResumedCuts(raw, p, LastCut(raw, p));
    ResumedCuts(raw, p, LastCut(raw, 0));
  }

  /** It does miss one: behind a letter and two newlines, with a third one arriving. */
  lemma ResumeMissesOne()
    ensures var raw := "A\n\n\n";
            Resumable(raw, 3) && LastCut(raw, 0) == 4 && LastCut(raw, 3) == 3
  {
    hide Fences, FenceAfter;
    var raw := "A\n\n\n";
    LettersAreNoFence();
    assert raw[0..2] == "A\n" && raw[0..3] == "A\n" + ("" + "\n");
    FencesConcat("A\n", "" + "\n", false);
    OneLine("", false);
    BlankKeepsFence(false, "");
    assert IsCut(raw, 0, 3) && IsCut(raw, 0, 4);
    assert !IsCut(raw, 3, 4);
  }

  lemma LettersAreNoFence()
    ensures !Fences("A\n", false) && !FenceAfter(false, "A")
  {
    assert !IsSpace("A"[0]);
    assert TrimLeft("A") == "A" && TrimSpace("A") == "A";
    OneLine("A", false);
    assert "A" + "\n" == "A\n";
  }

  /** A cut depends only on the text before it. */
  lemma CutInPrefix(a: string, raw: string, b: nat)
    requires a <= raw && b <= |a|
    ensures IsCut(a, 0, b) <==> IsCut(raw, 0, b)
  {
    if 2 <= b {
      assert a[0..b - 1] == raw[0..b - 1];
    }
  }

  /** The successive texts of one stream. */
  ghost predicate Growing(texts: seq<string>) {
    forall i, j :: 0 <= i <= j < |texts| ==> texts[i] <= texts[j]
  }

  /** Boundaries of the successive texts of a stream, each scan resumed from the last boundary. */
  ghost function Boundaries(texts: seq<string>): (bs: seq<nat>)
    requires Growing(texts)
    ensures |bs| == |texts| && forall i :: 0 <= i < |bs| ==> Resumable(texts[i], bs[i]) && bs[i] <= |texts[i]|
  {
    if texts == [] then []
    else
      var n := |texts| - 1;
      var before := Boundaries(texts[..n]);
      var p := if n == 0 then 0 else before[n - 1];
      assert Resumable(texts[n], p) && p <= |texts[n]| by {
        if n > 0 { CutInPrefix(texts[n - 1], texts[n], p); }
      }
      ResumeMissesAtMostOne(texts[n], p);
      before + [LastCut(texts[n], p)]
  }

  ghost predicate NearScratch(raw: string, b: nat) {
    && b <= |raw| && AtLineStart(raw[..b]) && !Fences(raw[..b], false)
    && (b == LastCut(raw, 0) || (b + 1 == LastCut(raw, 0) && b < |raw| && raw[b] == '\n'))
  }

  lemma ResumedIsNear(raw: string, p: nat)
    requires Resumable(raw, p) && p <= |raw|
    ensures NearScratch(raw, LastCut(raw, p))
  {
    ResumeMissesAtMostOne(raw, p);
    CutIsLineStart(raw, LastCut(raw, p));
  }

  /** Chunk invariance: however a stream is split into growing texts, each resumed boundary is the
    boundary of a scan from scratch or exactly one less, with a newline between; and it is a line
    start outside every fence. */
  lemma {:induction false} ChunkInvariance(texts: seq<string>, i: nat)
    requires i < |texts| && Growing(texts)
    ensures NearScratch(texts[i], Boundaries(texts)[i])
    decreases |texts|
  {
    hide IsCut, LastCut, NearScratch;
    var n := |texts| - 1;
    if i < n {
      ChunkInvariance(texts[..n], i);
    } else {
      var p := if n == 0 then 0 else Boundaries(texts[..n])[n - 1];
      if n > 0 { CutInPrefix(texts[n - 1], texts[n], p); }
      ResumedIsNear(texts[n], p);
    }
  }

  // ----- Fenced blocks -----

  /** `s[i..j]` is a line of `s` that is complete: a newline ends it. */
  predicate IsLine(s: string, i: nat, j: nat) {
    i <= j < |s| && s[j] == '\n' && (i == 0 || s[i - 1] == '\n') && '\n' !in s[i..j]
  }

  /** No complete line begins a block, which any line does whose text begins with three backquotes. */
  ghost predicate NoneOpens(s: string) {
    forall i: nat, j: nat :: IsLine(s, i, j) ==> !("```" <= TrimSpace(s[i..j]))
  }

  /** No complete line ends a block, which only a line of three backquotes and nothing else does. */
  ghost predicate NoneCloses(s: string) {
    forall i: nat, j: nat :: IsLine(s, i, j) ==> TrimSpace(s[i..j]) != "```"
  }

  /** Where the line begins that ends at `j`. */
  function LineStart(s: string, j: nat): (i: nat)
    requires j < |s|
    ensures i <= j && (i == 0 || s[i - 1] == '\n') && '\n' !in s[i..j]
  {
    if j == 0 || s[j - 1] == '\n' then j
    else
      var i := LineStart(s, j - 1);
      assert s[i..j] == s[i..j - 1] + [s[j - 1]];
      i
  }

  /** The fence state follows a line to its end. */
  lemma FencesLine(s: string, i: nat, j: nat, inFence: bool)
    requires IsLine(s, i, j)
    ensures Fences(s[..j + 1], inFence) == FenceAfter(Fences(s[..i], inFence), s[i..j])
  {
    hide Fences, FenceAfter;
    assert s[..j + 1] == s[..i] + (s[i..j] + "\n");
    FencesConcat(s[..i], s[i..j] + "\n", inFence);
    OneLine(s[i..j], Fences(s[..i], inFence));
  }

  /** Lines that do not close a block leave it open, and lines that do not open one leave none open. */
  lemma {:induction false} FenceStays(s: string, n: nat, inFence: bool)
    requires n <= |s| && AtLineStart(s[..n])
    requires if inFence then NoneCloses(s) else NoneOpens(s)
    ensures Fences(s[..n], inFence) == inFence
    decreases n
  {
    hide Fences;
    if n == 0 {
      NoLines(inFence);
    } else {
      var i := LineStart(s, n - 1);
      assert s[..n][n - 1] == s[n - 1];
      assert i > 0 ==> s[..i][i - 1] == s[i - 1];
      FenceStays(s, i, inFence);
      FencesLine(s, i, n - 1, inFence);
    }
  }

  lemma {:induction false} TrimRightKeeps(s: string, head: string)
    requires head <= s && head != "" && !IsSpace(head[|head| - 1])
    ensures head <= TrimRight(s)
  {
    if s != "" && IsSpace(s[|s| - 1]) {
      assert head <= s[..|s| - 1];
      TrimRightKeeps(s[..|s| - 1], head);
    }
  }

  /** Three backquotes with any language tag open a block. */
  lemma BackquotesOpen(tag: string)
    requires '\n' !in tag
    ensures Fences("```" + tag + "\n", false)
  {
    var line := "```" + tag;
    assert TrimLeft(line) == line;
    TrimRightKeeps(line, "```");
    OneLine(line, false);
  }

  /** An open block hides its blank lines, whatever language it names, as long as none of its complete
    lines is a bare fence: behind lines that open no block, the boundary stays where it was. */
  lemma OpenBlockHasNoCut(before: string, tag: string, body: string)
    requires AtLineStart(before) && '\n' !in tag
    requires NoneOpens(before) && NoneCloses(body)
    ensures LastCut(before + "```" + tag + "\n" + body, 0) == LastCut(before, 0)
  {
    hide Fences, TrimSpace;
    var opener := "```" + tag + "\n";
    var raw := before + "```" + tag + "\n" + body;
    assert raw == before + opener + body;
    OpenBlockFences(before, tag, body, raw);
    LastCutUpToWorks(before, 0, |before|);
    forall b: nat | IsCut(raw, 0, b)
      ensures b <= LastCut(before, 0)
    {
      if b <= |before| {
        CutInPrefix(before, raw, b);
      } else if b - 1 < |before| + |opener| {
        NoCutInOpener(before, opener, body, b);
      }
    }
    if LastCut(before, 0) != 0 {
      CutInPrefix(before, raw, LastCut(before, 0));
    }
    LastCutUpToIsLast(raw, 0, |raw|, LastCut(before, 0));
  }

  lemma NoCutInOpener(before: string, opener: string, body: string, b: nat)
    requires |before| < b <= |before| + |opener| && opener[0] != '\n' && '\n' !in opener[..|opener| - 1]
    ensures !IsCut(before + opener + body, 0, b)
  {
    hide Fences;
    var raw := before + opener + body;
    assert raw[b - 1] == opener[b - 1 - |before|];
    if b - 1 > |before| {
      assert raw[b - 2] == opener[..|opener| - 1][b - 2 - |before|];
    }
  }

  /** Inside the block a fence is open at every line start. */
  lemma OpenBlockFences(before: string, tag: string, body: string, raw: string)
    requires raw == before + ("```" + tag + "\n") + body && AtLineStart(before) && '\n' !in tag
    requires NoneOpens(before) && NoneCloses(body)
    ensures var n := |before| + |tag| + 4;
            forall m :: n <= m <= |raw| && raw[m - 1] == '\n' ==> Fences(raw[..m], false)
  {
    hide Fences, TrimSpace;
    var opener := "```" + tag + "\n";
    var n := |before| + |opener|;
    forall m | n <= m <= |raw| && raw[m - 1] == '\n'
      ensures Fences(raw[..m], false)
    {
      var k := m - n;
      assert raw[..m] == before + (opener + body[..k]);
      assert k > 0 ==> body[..k][k - 1] == raw[m - 1];
      assert before[..|before|] == before;
      FenceStays(before, |before|, false);
      FencesConcat(before, opener + body[..k], false);
      BackquotesOpen(tag);
      FencesConcat(opener, body[..k], false);
      FenceStays(body, k, true);
    }
  }

  /** A bare fence closes the block, and the boundary is behind the empty line that follows it. */
  lemma ClosedBlockIsCut(before: string, tag: string, body: string)
    requires AtLineStart(before) && '\n' !in tag && AtLineStart(body)
    requires NoneOpens(before) && NoneCloses(body)
    ensures var raw := before + "```" + tag + "\n" + body + "```" + "\n\n";
            LastCut(raw, 0) == |raw|
  {
    hide Fences, TrimSpace;
    var raw := before + "```" + tag + "\n" + body + "```" + "\n\n";
    var block := before + ("```" + tag + "\n") + body;
    assert raw[0..|raw| - 1] == block + ("```" + "\n");
    assert block[..|block|] == block;
    assert body != "" ==> block[|block| - 1] == body[|body| - 1];
    OpenBlockFences(before, tag, body, block);
    FencesConcat(block, "```" + "\n", false);
    BareFence();
    OneLine("```", true);
    assert raw[|raw| - 2] == '\n' && raw[|raw| - 1] == '\n';
    LastCutUpToIsLast(raw, 0, |raw|, |raw|);
  }

  lemma BareFence()
    ensures TrimSpace("```") == "```"
  {
    assert TrimLeft("```") == "```";
  }

  /** In a text without fences the cuts are the positions behind empty lines, the first line apart. */
  lemma PlainCuts(raw: string, b: nat)
    requires NoneOpens(raw)
    ensures IsCut(raw, 0, b) <==> 2 <= b <= |raw| && raw[b - 1] == '\n' && raw[b - 2] == '\n'
  {
    hide Fences, TrimSpace;
    if 2 <= b <= |raw| && raw[b - 1] == '\n' && raw[b - 2] == '\n' {
      assert raw[0..b - 1] == raw[..b - 1];
      assert raw[..b - 1][b - 2] == raw[b - 2];
      FenceStays(raw, b - 1, false);
    }
  }
}
