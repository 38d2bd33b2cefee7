/** The streaming render cache: completed blocks are rendered once and kept.

  The renderer is abstract: it walks the lines, gathers a paragraph until a blank line outside every
  code fence, renders the paragraph by any function of its lines and of the width, turns each blank
  line into an empty one, and trims trailing newlines.  A renderer that works line by line is the
  special case of a paragraph function that works line by line. */
module StreamRender {
  import opened Wrappers
  import opened Lines
  import opened StreamBoundary

  type Renderer = (nat, seq<string>) -> string

  /** A rendered paragraph is not empty and does not end in a newline. */
  ghost predicate Proper(block: Renderer) {
    forall w, ls :: ls != [] ==> block(w, ls) != "" && block(w, ls)[|block(w, ls)| - 1] != '\n'
  }

  // ----- The one-shot render -----

  /** The paragraph being gathered, and whether it has an open fence. */
  datatype Para = Para(inFence: bool, lines: seq<string>)

  const START := Para(false, [])

  function Flush(block: Renderer, w: nat, p: Para): string {
    if p.lines == [] then "" else block(w, p.lines) + "\n"
  }

  predicate Breaks(p: Para, line: string) {
    !p.inFence && Blank(line)
  }

  function Next(p: Para, line: string): Para {
    if Breaks(p, line) then START else Para(FenceAfter(p.inFence, line), p.lines + [line])
  }

  function Emit(block: Renderer, w: nat, p: Para, line: string): string {
    if Breaks(p, line) then Flush(block, w, p) + "\n" else ""
  }

  /** What the complete lines of `s` put out, and the paragraph they leave. */
  function Body(block: Renderer, w: nat, s: string, p: Para): string
    decreases |s|
  {
    var nl := IndexNewline(s);
    if nl < 0 then "" else Emit(block, w, p, s[..nl]) + Body(block, w, s[nl + 1..], Next(p, s[..nl]))
  }

  function After(s: string, p: Para): Para
    decreases |s|
  {
    var nl := IndexNewline(s);
    if nl < 0 then p else After(s[nl + 1..], Next(p, s[..nl]))
  }

  /** The last line ends whatever paragraph it belongs to. */
  function Last(block: Renderer, w: nat, p: Para, line: string): string {
    if Breaks(p, line) then Flush(block, w, p) + "\n" else block(w, p.lines + [line]) + "\n"
  }

  function Whole(block: Renderer, w: nat, s: string, p: Para): string
    decreases |s|
  {
    var nl := IndexNewline(s);
    if nl < 0 then Last(block, w, p, s)
    else Emit(block, w, p, s[..nl]) + Whole(block, w, s[nl + 1..], Next(p, s[..nl]))
  }

  function Render(block: Renderer, w: nat, s: string): string {
    TrimNewlines(Whole(block, w, s, START))
  }

  // ----- The cache -----

  datatype Cache = Cache(prefixRaw: string, prefixOut: string, width: nat)

  const EMPTY_CACHE := Cache("", "", 0)

  function Newlines(n: nat): (s: string)
    ensures |s| == n && forall i :: 0 <= i < n ==> s[i] == '\n'
  {
    seq(n, i => '\n')
  }

  /** The newlines in the trailing run of newlines, spaces, tabs and carriage returns. */
  function TrailingNewlines(s: string): nat {
    if s == "" then 0
    else
      var c, init := s[|s| - 1], s[..|s| - 1];
      if c == '\n' then TrailingNewlines(init) + 1
      else if c == ' ' || c == '\t' || c == '\r' then TrailingNewlines(init)
      else 0
  }

  function AppendRendered(out: string, rendered: string, prevRaw: string): string {
    if out == "" then rendered else out + Newlines(TrailingNewlines(prevRaw)) + rendered
  }

  /** A width change, or a text that does not extend the cached prefix, empties the cache. */
  function Validate(c: Cache, raw: string, w: nat): (valid: Cache)
    ensures valid.prefixRaw <= raw && valid.width == w
  {
    if c.width != w || !(c.prefixRaw <= raw) then Cache("", "", w) else c
  }

  /** Newly completed blocks are rendered on their own and folded into the cached prefix. */
  function Fold(block: Renderer, c: Cache, raw: string): (folded: Cache)
    requires c.prefixRaw <= raw
    ensures c.prefixRaw <= folded.prefixRaw <= raw && folded.width == c.width
  {
    var p := |c.prefixRaw|;
    var b := LastCut(raw, p);
    if b > p
    then Cache(raw[..b], AppendRendered(c.prefixOut, Render(block, c.width, raw[p..b]), c.prefixRaw), c.width)
    else c
  }

  function Paint(block: Renderer, c: Cache, raw: string): string
    requires c.prefixRaw <= raw
  {
    var tail := raw[|c.prefixRaw|..];
    if tail != "" then AppendRendered(c.prefixOut, Render(block, c.width, tail), c.prefixRaw) else c.prefixOut
  }

  function SkipBreaks(s: string): string {
    if s != "" && (s[0] == '\n' || s[0] == '\r') then SkipBreaks(s[1..]) else s
  }

  /** One tick: the cache after it and the text painted; a spinner takes the place of no text. */
  function Tick(block: Renderer, c: Cache, partial: string, w: nat): (Cache, Option<string>) {
    var raw := SkipBreaks(partial);
    if raw == "" then (c, None)
    else
      var folded := Fold(block, Validate(c, raw, w), raw);
      (folded, Some(Paint(block, folded, raw)))
  }

  /** Leading newlines and carriage returns, and nothing else, are left out of what is painted; a text
    of nothing else shows the spinner. */
  lemma {:induction false} LeadingBreaks(block: Renderer, c: Cache, breaks: string, text: string, w: nat)
    requires forall i :: 0 <= i < |breaks| ==> breaks[i] in {'\n', '\r'}
    requires text == "" || text[0] !in {'\n', '\r'}
    ensures SkipBreaks(breaks + text) == text
    ensures Tick(block, c, breaks + text, w) == Tick(block, c, text, w)
    ensures Tick(block, c, breaks + text, w).1 == None <==> text == ""
    ensures text == "" ==> Tick(block, c, breaks + text, w).0 == c
  {
    hide Fold, Paint;
    if breaks == "" {
      assert breaks + text == text;
    } else {
      var rest := breaks[1..];
      assert (breaks + text)[1..] == rest + text;
      LeadingBreaks(block, c, rest, text, w);
    }
  }

  class StreamTail {
    var prefixRaw: string
    var prefixOut: string
    var width: nat

    function Contents(): Cache
      reads this
    {
      Cache(prefixRaw, prefixOut, width)
    }

    constructor ()
      ensures Contents() == EMPTY_CACHE
    {
      prefixRaw, prefixOut, width := "", "", 0;
    }

    /** Forgets everything, as a resize or a trim does; a run of ticks then starts afresh. */
    method Invalidate()
      modifies this
      ensures Contents() == EMPTY_CACHE
    {
      prefixRaw, prefixOut, width := "", "", 0;
    }

    method RenderStreamTail(block: Renderer, partial: string, viewWidth: nat) returns (out: Option<string>)
      modifies this
      ensures (Contents(), out) == Tick(block, old(Contents()), partial, viewWidth)
    {
      hide LastCut, Render, AppendRendered;
      var raw := SkipBreaks(partial);
      if raw == "" {
        return None;
      }
      if width != viewWidth || !(prefixRaw <= raw) {
        prefixRaw, prefixOut, width := "", "", viewWidth;
      }
      ghost var valid := Contents();
      var boundary := StreamStableBoundary(raw, |prefixRaw|);
      if boundary > |prefixRaw| {
        var newBlocks := raw[|prefixRaw|..boundary];
        var rendered := Render(block, width, newBlocks);
        prefixOut := JoinRendered(prefixOut, rendered, prefixRaw);
        prefixRaw := raw[..boundary];
      }
      assert Contents() == Fold(block, valid, raw);
      var painted := prefixOut;
      var tail := raw[|prefixRaw|..];
      if tail != "" {
        var rendered := Render(block, width, tail);
        painted := JoinRendered(painted, rendered, prefixRaw);
      }
      out := Some(painted);
    }

    static method JoinRendered(out: string, rendered: string, prevRaw: string) returns (joined: string)
      ensures joined == AppendRendered(out, rendered, prevRaw)
    {
      if out == "" {
        return rendered;
      }
      var n := CountTrailingNewlines(prevRaw);
      return out + Newlines(n) + rendered;
    }

    static method CountTrailingNewlines(s: string) returns (n: nat)
      ensures n == TrailingNewlines(s)
    {
      n := 0;
      var i := |s|;
      assert s[..|s|] == s;
      while i > 0
        invariant 0 <= i <= |s|
        invariant TrailingNewlines(s) == n + TrailingNewlines(s[..i])
      {
        i := i - 1;
        assert s[..i + 1][..i] == s[..i];
        if s[i] == '\n' {
          n := n + 1;
        } else if s[i] == ' ' || s[i] == '\t' || s[i] == '\r' {
        } else {
          return n;
        }
      }
    }
  }
}
